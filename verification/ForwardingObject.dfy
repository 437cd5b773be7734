/**
 The forwarding instance as an object (internal/forwarding/config.go, dhcp.go, system.go):
 every call of `Set` keeps the field values those of a run, and with them its guarantees.
 */
module ForwardingObject {
  import opened Wrappers
  import opened VrfLoop
  import opened VrfClients
  import opened ForwardingData
  import opened DnsmasqFiles
  import opened ForwardingConfig
  import opened ForwardingGuarantees

  class Config {
    const paths: Paths
    var current: Option<ConfigData>
    var resolvWatcher: Option<nat>
    var hostsWatcher: Option<nat>
    var dhcpWatcher: Option<nat>
    var systemWatcher: Option<nat>
    var started: seq<Kind>
    var closed: seq<nat>
    var calls: seq<Action>
    var mainFile: Option<string>
    var panicked: bool
    ghost var applied: Option<ConfigData>
    ghost var ops: seq<SetOp>    // the calls of Set so far

    ghost function Abs(): World
      reads this
    {
      World(current, resolvWatcher, hostsWatcher, dhcpWatcher, systemWatcher,
            started, closed, calls, mainFile, panicked, applied)
    }

    /** The object is where its calls of `Set` lead. */
    ghost predicate Valid()
      reads this
    {
      Abs() == Run(paths, ops)
    }

    constructor (p: Paths)
      ensures paths == p && Abs() == NEW && ops == [] && Valid()
    {
      paths := p;
      current := Some(EMPTY);
      resolvWatcher, hostsWatcher, dhcpWatcher, systemWatcher := None, None, None, None;
      started, closed, calls, mainFile, panicked, applied, ops := [], [], [], None, false, None, [];
    }

    method StopWatcher(watcher: Option<nat>)
      modifies this`closed, this`panicked
      ensures Abs() == Close(old(Abs()), watcher)
    {
      if panicked || watcher.None? {
        return;
      }
      if watcher.value in closed {
        panicked := true;
      } else {
        closed := closed + [watcher.value];
      }
    }

    method StartWatcher(kind: Kind) returns (watcher: nat)
      modifies this`started
      ensures watcher == |old(started)| && started == old(started) + [kind]
    {
      watcher := |started|;
      started := started + [kind];
    }

    method SetDhcpInterfaces(interfaces: seq<string>)
      modifies this
      ensures ops == old(ops)
      ensures Abs() == SetDhcp(old(Abs()), interfaces)
    {
      StopWatcher(dhcpWatcher);
      if panicked {
        return;
      }
      if interfaces == [] {
        dhcpWatcher := None;
      } else {
        var watcher := StartWatcher(DhcpLeases(interfaces));
        dhcpWatcher := Some(watcher);
      }
    }

    method SetSystemServers(system: bool)
      modifies this
      ensures ops == old(ops)
      ensures Abs() == SetSystem(old(Abs()), system)
    {
      StopWatcher(systemWatcher);
      if panicked {
        return;
      }
      if !system {
        systemWatcher := None;
      } else {
        var watcher := StartWatcher(SystemResolv);
        systemWatcher := Some(watcher);
      }
    }

    method SetReloadWatchers(c: ConfigData)
      requires !panicked
      modifies this
      ensures ops == old(ops)
      ensures Abs() == SetHosts(SetResolv(old(Abs()), c))
    {
      if c.NsDerived() {
        StopWatcher(resolvWatcher);
        if panicked {
          return;
        }
        resolvWatcher := None;
      } else if resolvWatcher.None? {
        var watcher := StartWatcher(ResolvReload);
        resolvWatcher := Some(watcher);
      }
      if hostsWatcher.None? {
        var watcher := StartWatcher(HostsReload);
        hostsWatcher := Some(watcher);
      }
    }

    method ApplyConfiguration(c: ConfigData)
      requires !panicked
      modifies this
      ensures ops == old(ops)
      ensures Abs() == Apply(old(Abs()), c)
    {
      SetReloadWatchers(c);
      if panicked {
        return;
      }
      SetDhcpInterfaces(c.dhcpInterfaces);
      if panicked {
        return;
      }
      SetSystemServers(c.system);
      if panicked {
        return;
      }
      calls := calls + [Restart];
    }

    /** Whether `Set` goes on to store the configuration. */
    method UpdateConfiguration(c: ConfigData, ending: Ending) returns (ok: bool)
      requires !panicked
      modifies this
      ensures ops == old(ops)
      ensures ok <==> ending.Success? && !panicked
      ensures (if ok then Abs().(current := Some(c)) else Abs()) == Update(paths, old(Abs()), c, ending)
    {
      ok := false;
      if ending.DirsFail? {
        return;
      }
      mainFile := Some(WriteForwardingConfig(paths, c));
      if ending.EnvFail? {
        return;
      }
      applied := Some(c);
      ApplyConfiguration(c);
      ok := ending.Success? && !panicked;
    }

    method DeleteConfiguration()
      requires !panicked
      modifies this
      ensures ops == old(ops)
      ensures (if panicked then Abs() else Abs().(current := None)) == Delete(old(Abs()))
    {
      StopWatcher(resolvWatcher);
      if panicked {
        return;
      }
      StopWatcher(hostsWatcher);
      if panicked {
        return;
      }
      SetDhcpInterfaces([]);
      if panicked {
        return;
      }
      SetSystemServers(false);
      if panicked {
        return;
      }
      calls := calls + [Stop];
      mainFile := None;
    }

    method ChangeConfig(op: SetOp)
      requires !panicked
      modifies this
      ensures ops == old(ops)
      ensures Abs() == Set(paths, old(Abs()), op)
    {
      if current == op.conf {
        return;
      }
      if op.conf.Some? {
        var ok := UpdateConfiguration(op.conf.value, op.ending);
        if !ok {
          return;
        }
      } else {
        DeleteConfiguration();
        if panicked {
          return;
        }
      }
      current := op.conf;
    }

    /**
     One call of `Set`; `ending` is how the file system and the process treat an update.
     Unless something is configured again after a delete, no close panics, no watcher is
     closed twice, the open ones are those the last applied configuration calls for, and
     Stop is the last call.
     */
    method SetConfig(op: SetOp)
      requires Valid() && !panicked
      modifies this
      ensures Valid() && ops == old(ops) + [op] && Abs() == Set(paths, old(Abs()), op)
      ensures panicked || !StopOnlyLast(calls) <==> Reused(ops)
      ensures !Reused(ops) ==>
                && ClosedOnce(Abs()) && OnePerKind(Abs())
                && LiveKinds(Abs()) == if HasDelete(ops) || applied.None? then {} else Wanted(applied.value)
    {
      ghost var before := ops;
      ChangeConfig(op);
      ops := ops + [op];
      assert ops[..|ops| - 1] == before;
      LinearUnlessReused(paths, ops);
      if !Reused(ops) {
        WatcherOwnership(paths, ops);
      }
    }
  }
}
