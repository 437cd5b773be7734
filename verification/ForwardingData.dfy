/** The forwarding configuration (internal/forwarding/config.go). */
module ForwardingData {

  type uint32 = n: nat | n < 0x1_0000_0000

  datatype Override = Override(domain: string, server: string)

  datatype ConfigData = ConfigData(
    dhcpInterfaces: seq<string>,
    cacheSize: uint32,
    listenInterfaces: seq<string>,
    nameservers: seq<string>,
    system: bool,
    overrides: seq<Override>)
  {
    /** The name servers come from the configuration rather than from resolv.conf. */
    predicate NsDerived() {
      |dhcpInterfaces| > 0 || |nameservers| > 0 || system
    }
  }

  /** What a new object holds. */
  const EMPTY := ConfigData([], 0, [], [], false, [])

  /** Where the forwarding instance keeps its files. */
  datatype Paths = Paths(
    confFile: string,
    confDir: string,
    confDirExt: seq<string>,
    stateFile: string,
    hostsFile: string)
}
