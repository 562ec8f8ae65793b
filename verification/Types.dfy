/** Addresses, configuration records and the small value types shared by the modules. */
module Types {

  datatype Option<+T> = None | Some(value: T)

  type Octet = x: int | 0 <= x < 256

  const WORD := 0x1_0000

  type Word16 = x: int | 0 <= x < WORD

  datatype AF = IPv4 | IPv6

  /** An address in the 16-byte form of seesaw.IP: its family, and its value within that family. */
  datatype IP = IP(af: AF, host: nat)

  datatype VIPType = AnycastVIP | DedicatedVIP | UnicastVIP

  datatype VIP = VIP(ip: IP, kind: VIPType)

  datatype LBMode = LBNone | LBDSR | LBNAT | LBTUN

  datatype Scheduler = SchedNone | RR | WRR | LC | WLC | SH | MH

  datatype HCMode = Plain | DSR | TUN

  datatype HCType = HCNone | DNS | HTTP | ICMP | RADIUS | TCP | UDP

  /** The state a healthcheck last reported; Unknown is the zero value. */
  datatype CheckState = Unknown | Unhealthy | Healthy

  datatype OverrideState = OverrideDefault | OverrideDisable | OverrideEnable

  datatype HaState = UNKNOWN | BACKUP | DISABLED | ERROR | LEADER | SHUTDOWN

  /** The configuration of one healthcheck (config.Healthcheck). */
  datatype Healthcheck = Healthcheck(
    name: string,
    mode: HCMode,
    kind: HCType,
    port: nat,
    interval: int,
    timeout: int,
    retries: int,
    send: string,
    receive: string,
    method_: string)

  /** One port and protocol of a vserver (config.VserverEntry). Watermarks are exact reals. */
  datatype Entry = Entry(
    port: nat,
    proto: nat,
    scheduler: Scheduler,
    mode: LBMode,
    persistence: int,
    onePacket: bool,
    high: real,
    low: real,
    lowerThreshold: int,
    upperThreshold: int,
    healthchecks: map<string, Healthcheck>)

  /** Entries are filed under "port/proto". */
  datatype EntryKey = EntryKey(port: nat, proto: nat)

  datatype Backend = Backend(
    hostname: string,
    ipv4: Option<IP>,
    ipv6: Option<IP>,
    weight: nat,
    enabled: bool,
    inService: bool)
  {
    function Addr(af: AF): Option<IP> {
      if af.IPv4? then ipv4 else ipv6
    }
  }

  /** The configuration of a vserver (config.Vserver). */
  datatype Config = Config(
    name: string,
    ipv4: Option<IP>,
    ipv6: Option<IP>,
    entries: map<EntryKey, Entry>,
    backends: map<string, Backend>,
    healthchecks: map<string, Healthcheck>,
    vips: set<VIP>,
    enabled: bool,
    useFWM: bool)
  {
    function Addr(af: AF): Option<IP> {
      if af.IPv4? then ipv4 else ipv6
    }
  }
}
