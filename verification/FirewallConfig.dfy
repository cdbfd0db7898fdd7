/** The firewall's stored settings. A text field is represented by what the
    program reads in it, so two texts that it cannot tell apart are one value. */
module FirewallConfig {
  import opened Ipv4
  import opened Nft
  import opened Options

  /** What `ipaddress` makes of a text: nothing at all, one address, an address
      with a prefix length, or no address. */
  datatype AddrText = Blank | Host(ip: Addr) | Block(addr: Addr, len: nat) | Unreadable(text: nat)

  // _cidr
  function CidrOf(t: AddrText): Option<Cidr> {
    match t
    case Host(ip) => Some(Cidr(ip, 32))
    case Block(a, len) => if len <= 32 then Some(NetOf(a, len)) else None
    case _ => None
  }

  // _as_ip
  function IpOf(t: AddrText): Option<Addr> {
    if t.Host? then Some(t.ip) else None
  }

  function HostNet(a: Addr): Cidr {
    Cidr(a, 32)
  }

  /** A block of length 32 is the one address it was built from. */
  lemma HostNetIsOne(a: Addr, b: Addr)
    ensures HostNet(a).Contains(b) <==> a == b
  {
    assert Pow2(0) == 1;
  }

  // 0.0.0.0/0
  function Everywhere(): Cidr {
    Cidr(0, 0)
  }

  lemma EverywhereContains(a: Addr)
    ensures Everywhere().Contains(a)
  {
    Pow2Of32();
  }

  /** Every readable text stands for a proper block. */
  lemma CidrOfWellFormed(t: AddrText)
    requires CidrOf(t).Some?
    ensures CidrOf(t).value.WellFormed()
  {
    match t
    case Host(ip) => NetOfWellFormed(ip, 32);
    case Block(a, len) => NetOfWellFormed(a, len);
  }

  /** A protocol field: no such key, the empty text, a name, or another word. */
  datatype ProtoText = Missing | AnyProto | TcpText | UdpText | IcmpText | OtherProto

  function OrDefault(p: ProtoText, d: ProtoText): ProtoText {
    if p.Missing? then d else p
  }

  /** Only tcp and udp name a transport protocol that has ports. */
  function L4Of(p: ProtoText): Option<L4> {
    match p
    case TcpText => Some(Tcp)
    case UdpText => Some(Udp)
    case _ => None
  }

  /** A rule's destination port as it arrives: a value that Python holds false (no
      key, 0, the empty text), or one that it holds true and the number that
      `int` makes of it, 0 when there is none. The texts "any" and "0" are true and
      read as 0. */
  datatype PortField = Unset | Given(value: int) {
    function Read(): int {
      if Given? then value else 0
    }
  }

  function PortOf(v: int): PortField {
    if v == 0 then Unset else Given(v)
  }

  datatype ChainText = OnInput | OnForward | OnOther
  datatype ActionText = AllowText | DenyText | OtherAction

  datatype Service = Service(proto: ProtoText, port: int, source: AddrText)
  datatype PortForward = PortForward(proto: ProtoText, sourcePort: int, targetIp: AddrText, targetPort: int)
  datatype CustomRule = CustomRule(
    chain: ChainText, action: ActionText, src: AddrText, dst: AddrText,
    proto: ProtoText, srcPort: int, dstPort: PortField, log: bool)

  datatype Config = Config(
    enabled: bool,
    watchdogSeconds: int,
    probeIp: AddrText,
    services: seq<Service>,
    forwards: seq<PortForward>,
    dmz: AddrText,
    rules: seq<CustomRule>,
    allowCidrs: seq<AddrText>,
    denyCidrs: seq<AddrText>,
    synRate: int,
    synBurst: int,
    scanEnabled: bool,
    wanConfirmed: bool,
    rest: nat)            // settings that neither the renderer nor the sanitizer reads

  /** A configuration with the two entries that the manager injects. */
  datatype RawConfig = RawConfig(cfg: Config, geoCidrs: seq<AddrText>, webPort: int)

  /** _merge_defaults keeps only the declared fields, so the injected entries
      are gone by the time the renderer looks for them. */
  function MergeDefaults(raw: RawConfig): RawConfig {
    RawConfig(raw.cfg, [], 0)
  }
}
