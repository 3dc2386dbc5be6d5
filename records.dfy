/** The records decoded from machinectl's JSON output: images, machines,
    network interfaces and their addresses.  Decoding itself is not modelled;
    these are the values the decoder yields. */
module Records {
  import opened Base

  /** One entry of `machinectl list-images`. */
  datatype ImageData = ImageData(
    name: string,
    typeField: string,
    ro: bool,
    usage: Option<string>,
    created: i64,     // microseconds since the epoch
    modified: i64     // microseconds since the epoch
  )

  /** One running machine; every field may be absent (an unnamed machine). */
  datatype Machine = Machine(
    machine: Option<string>,
    machineClass: Option<string>,   // `class` in the JSON
    service: Option<string>,
    os: Option<string>,
    version: Option<string>,
    addresses: Option<string>
  )

  /** One address bound to an interface (`ip -j a`). */
  datatype AddrInfo = AddrInfo(
    family: string,
    local: string,
    prefixlen: i64,
    scope: string,
    addrLabel: Option<string>,   // `label` in the JSON
    validLifeTime: i64,
    preferredLifeTime: i64,
    metric: Option<i64>,
    broadcast: Option<string>,
    dynamic: Option<bool>
  )

  /** One network interface of a machine (`ip -j a`). */
  datatype InterfaceConfig = InterfaceConfig(
    ifindex: i64,
    ifname: string,
    flags: seq<string>,
    mtu: i64,
    qdisc: string,
    operstate: string,
    group: string,
    txqlen: Option<i64>,
    linkType: string,
    address: string,
    broadcast: string,
    addrInfo: seq<AddrInfo>,
    master: Option<string>,
    permaddr: Option<string>,
    linkIndex: Option<i64>,
    linkNetnsid: Option<i64>
  )
}
