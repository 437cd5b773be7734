/** The ddclient files of dynamic DNS (internal/dynamic/config.go): where they are and what is in them. */
module DynamicFiles {
  import Text

  datatype Service = Service(name: string, password: string, login: string, server: string, hostNames: seq<string>)

  datatype Interface = Interface(name: string, services: seq<Service>)

  /** What a missing map entry reads as. */
  const ZERO := Interface("", [])

  /** The directories; the environment directory's format has its one verb between two parts. */
  datatype Dirs = Dirs(run: string, cache: string, config: string, envBefore: string, envAfter: string)

  function ConfFile(d: Dirs, intf: string): string {
    d.config + "/" + "ddclient_" + intf + ".conf"
  }

  function PidFile(d: Dirs, intf: string): string {
    d.run + "/" + "ddclient_" + intf + ".pid"
  }

  function CacheFile(d: Dirs, intf: string): string {
    d.cache + "/" + "ddclient_" + intf + ".cache"
  }

  function EnvFile(d: Dirs, intf: string): string {
    d.envBefore + intf + (d.envAfter + "/" + "ddclient.env")
  }

  function Unit(intf: string): string {
    "ddclient@" + intf + ".service"
  }

  function MapServiceName(name: string): string {
    if name == "dslreports" then "dslreports1"
    else if name == "dyndns" then "dyndns2"
    else if name == "zoneedit" then "zoneedit1"
    else name
  }

  function HostText(s: Service, host: string): string {
    "protocol=" + MapServiceName(s.name) + "\n"
    + (if s.server != "" then "server=" + s.server + ",\n" else "")
    + "max-interval=28d\nlogin=" + s.login + "\npassword=" + s.password + "\n" + host + "\n\n"
  }

  function HostsText(s: Service, hosts: seq<string>): string {
    if hosts == [] then "" else HostText(s, hosts[0]) + HostsText(s, hosts[1..])
  }

  function ServicesText(services: seq<Service>): string {
    if services == [] then "" else HostsText(services[0], services[0].hostNames) + ServicesText(services[1..])
  }

  /** An interface's configuration file, written on `date`. */
  function ConfText(d: Dirs, date: string, intf: Interface): string {
    "#\n# autogenerated" + " by vci-service-dns on " + date + "\n#\n" + "daemon=1m\nsyslog=yes\nssl=yes\n"
    + "pid=" + PidFile(d, intf.name) + "\ncache=" + CacheFile(d, intf.name) + "\nuse=if, if=" + intf.name + "\n\n\n"
    + ServicesText(intf.services)
  }

  /** Its environment file. */
  function EnvText(d: Dirs, instance: string, intf: string): string {
    "#\n# autogenerated" + " by vci-service-dns" + "\n#\n" + "DDCLIENT_VRF_NAME=" + instance
    + "\nDDCLIENT_IF_CONF=" + ConfFile(d, intf) + "\n"
  }

  // ------------------------------------------------------------ the paths never meet

  lemma PathEnds(d: Dirs, n: string)
    ensures var c, p, h, e := ConfFile(d, n), PidFile(d, n), CacheFile(d, n), EnvFile(d, n);
            && c != "" && p != "" && h != "" && e != ""
            && c[|c| - 1] == 'f' && p[|p| - 1] == 'd' && h[|h| - 1] == 'e' && e[|e| - 1] == 'v'
  {
  }

  /** Different interfaces have different files, and files of different kinds are different. */
  lemma PathsApart(d: Dirs, n: string, m: string)
    ensures ConfFile(d, n) == ConfFile(d, m) ==> n == m
    ensures EnvFile(d, n) == EnvFile(d, m) ==> n == m
    ensures ConfFile(d, n) != EnvFile(d, m)
    ensures ConfFile(d, n) != PidFile(d, m) && ConfFile(d, n) != CacheFile(d, m)
    ensures EnvFile(d, n) != PidFile(d, m) && EnvFile(d, n) != CacheFile(d, m)
  {
    PathEnds(d, n);
    PathEnds(d, m);
    if ConfFile(d, n) == ConfFile(d, m) {
      Text.SameMiddle(d.config + "/" + "ddclient_", ".conf", n, m);
    }
    if EnvFile(d, n) == EnvFile(d, m) {
      Text.SameMiddle(d.envBefore, d.envAfter + "/" + "ddclient.env", n, m);
    }
  }

  /** The same for the files ddclient keeps itself. */
  lemma ProcessPathsApart(d: Dirs, n: string, m: string)
    ensures PidFile(d, n) == PidFile(d, m) ==> n == m
    ensures CacheFile(d, n) == CacheFile(d, m) ==> n == m
    ensures PidFile(d, n) != CacheFile(d, m)
  {
    PathEnds(d, n);
    PathEnds(d, m);
    if PidFile(d, n) == PidFile(d, m) {
      Text.SameMiddle(d.run + "/" + "ddclient_", ".pid", n, m);
    }
    if CacheFile(d, n) == CacheFile(d, m) {
      Text.SameMiddle(d.cache + "/" + "ddclient_", ".cache", n, m);
    }
  }
}
