/**
 The forwarding instance's reconciler (internal/forwarding/config.go, dhcp.go,
 system.go): which file watchers each `Set` starts and closes, what it writes and
 what it asks of its one process.
 */
module ForwardingConfig {
  import opened Wrappers
  import opened VrfLoop
  import opened ForwardingData
  import opened DnsmasqFiles

  /** What a watcher is for; a DHCP watcher has the lease files of its interfaces. */
  datatype Kind = ResolvReload | HostsReload | DhcpLeases(interfaces: seq<string>) | SystemResolv

  /**
   How an update ends: a directory or the main file cannot be made, the environment file
   cannot be made, the process cannot be restarted, or nothing fails.
   */
  datatype Ending = DirsFail | EnvFail | RestartFail | Success

  datatype SetOp = SetOp(conf: Option<ConfigData>, ending: Ending)

  /**
   The object.  Watchers are numbered as they are started; `closed` lists the closings.
   `applied` is history: the configuration of the last update that got as far as the watchers.
   */
  datatype World = World(
    current: Option<ConfigData>,
    resolv: Option<nat>,
    hosts: Option<nat>,
    dhcp: Option<nat>,
    system: Option<nat>,
    started: seq<Kind>,
    closed: seq<nat>,
    calls: seq<Action>,
    mainFile: Option<string>,
    panicked: bool,
    applied: Option<ConfigData>)

  /** `NewConfig`. */
  const NEW := World(Some(EMPTY), None, None, None, None, [], [], [], None, false, None)

  // ------------------------------------------------------------ steps

  /** `stop` on a watcher that may be nil; closing a closed channel panics. */
  function Close(w: World, watcher: Option<nat>): World {
    if w.panicked || watcher.None? then w
    else if watcher.value in w.closed then w.(panicked := true)
    else w.(closed := w.closed + [watcher.value])
  }

  function SetResolv(w: World, c: ConfigData): World {
    if w.panicked then w
    else if c.NsDerived() then
      var w1 := Close(w, w.resolv);
      if w1.panicked then w1 else w1.(resolv := None)
    else if w.resolv.None? then w.(resolv := Some(|w.started|), started := w.started + [ResolvReload])
    else w
  }

  function SetHosts(w: World): World {
    if w.panicked || w.hosts.Some? then w
    else w.(hosts := Some(|w.started|), started := w.started + [HostsReload])
  }

  /** `dhcpConfig.Set`. */
  function SetDhcp(w: World, interfaces: seq<string>): World {
    var w1 := Close(w, w.dhcp);
    if w1.panicked then w1
    else if interfaces == [] then w1.(dhcp := None)
    else w1.(dhcp := Some(|w.started|), started := w.started + [DhcpLeases(interfaces)])
  }

  /** `systemConfig.Set`. */
  function SetSystem(w: World, system: bool): World {
    var w1 := Close(w, w.system);
    if w1.panicked then w1
    else if !system then w1.(system := None)
    else w1.(system := Some(|w.started|), started := w.started + [SystemResolv])
  }

  function Ask(w: World, a: Action): World {
    if w.panicked then w else w.(calls := w.calls + [a])
  }

  /** The watchers and the restart of `updateConfiguration`. */
  function Apply(w: World, c: ConfigData): World {
    Ask(SetSystem(SetDhcp(SetHosts(SetResolv(w, c)), c.dhcpInterfaces), c.system), Restart)
  }

  /** `updateConfiguration`, and the store that follows it. */
  function Update(p: Paths, w: World, c: ConfigData, ending: Ending): World {
    if ending.DirsFail? then w
    else
      var w1 := w.(mainFile := Some(WriteForwardingConfig(p, c)));
      if ending.EnvFail? then w1
      else
        var w2 := Apply(w1.(applied := Some(c)), c);
        if w2.panicked || ending.RestartFail? then w2 else w2.(current := Some(c))
  }

  /** `deleteConfiguration`, and the store that follows it. */
  function Delete(w: World): World {
    var w1 := Ask(SetSystem(SetDhcp(Close(Close(w, w.resolv), w.hosts), []), false), Stop);
    if w1.panicked then w1 else w1.(mainFile := None, current := None)
  }

  function Set(p: Paths, w: World, op: SetOp): World {
    if w.panicked || w.current == op.conf then w
    else if op.conf.Some? then Update(p, w, op.conf.value, op.ending)
    else Delete(w)
  }

  /** A new object after these `Set`s. */
  function Run(p: Paths, ops: seq<SetOp>): World {
    if ops == [] then NEW else Set(p, Run(p, ops[..|ops| - 1]), ops[|ops| - 1])
  }
}
