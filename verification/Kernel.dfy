/**
The network state a vserver drives through the NCC: the IPVS table, the addresses and the
iptables rule sets on the load balancing interface, and the advertised BGP routes. A command is
legal only where it succeeds (nothing added twice, nothing deleted or updated that is absent), since
the engine dies on the first one that fails. What a command does to the iptables rules is in Iptables.
Only this vserver's share of the state is modelled.
*/
module Kernel {
  import opened Types

  datatype IpvsService = IpvsService(
    address: IP,
    proto: nat,
    port: nat,
    scheduler: Scheduler,
    fwm: nat,
    persistent: bool,
    onePacket: bool,
    shFallbackPort: bool,
    mhFallbackPort: bool,
    timeout: nat)

  datatype IpvsDest = IpvsDest(
    address: IP,
    port: nat,
    weight: nat,
    forward: LBMode,
    lowerThreshold: nat,
    upperThreshold: nat)

  /** What tells two IPVS services apart: the mark of a firewall-mark service, else address, protocol and port. */
  datatype SvcId = AddrId(ip: IP, proto: nat, port: nat) | FwmId(af: AF, mark: nat)

  function IdOf(svc: IpvsService): SvcId {
    if svc.fwm > 0 then FwmId(svc.address.af, svc.fwm) else AddrId(svc.address, svc.proto, svc.port)
  }

  datatype IpvsEntry = IpvsEntry(svc: IpvsService, dests: map<IP, IpvsDest>)

  /** The vserver description handed to the load balancing interface. */
  datatype Snapshot = Snapshot(
    name: string,
    ipv4: Option<IP>,
    ipv6: Option<IP>,
    entries: seq<Entry>,
    fwm: map<AF, nat>)
  {
    function Addr(af: AF): Option<IP> {
      if af.IPv4? then ipv4 else ipv6
    }
  }

  datatype State = State(
    ipvs: map<SvcId, IpvsEntry>,
    vservers: map<IP, Snapshot>,
    vips: set<VIP>,
    routes: set<IP>)

  const EMPTY := State(map[], map[], {}, {})

  datatype Command =
    | AddService(svc: IpvsService)
    | UpdateService(svc: IpvsService)
    | DeleteService(svc: IpvsService)
    | AddDest(svc: IpvsService, dst: IpvsDest)
    | UpdateDest(svc: IpvsService, dst: IpvsDest)
    | DeleteDest(svc: IpvsService, dst: IpvsDest)
    | AddVserver(snap: Snapshot, af: AF)
    | DeleteVserver(snap: Snapshot, af: AF)
    | AddVIP(vip: VIP)
    | DeleteVIP(vip: VIP)
    | Advertise(ip: IP)
    | Withdraw(ip: IP)

  function SetDests(st: State, svc: IpvsService, dests: map<IP, IpvsDest>): State
    requires IdOf(svc) in st.ipvs
  {
    st.(ipvs := st.ipvs[IdOf(svc) := st.ipvs[IdOf(svc)].(dests := dests)])
  }

  /** The state after one command, or None where the command fails. */
  function Exec(st: State, c: Command): Option<State> {
    match c
    case AddService(svc) =>
      if IdOf(svc) in st.ipvs then None
      else Some(st.(ipvs := st.ipvs[IdOf(svc) := IpvsEntry(svc, map[])]))
    case UpdateService(svc) =>
      if IdOf(svc) !in st.ipvs then None
      else Some(st.(ipvs := st.ipvs[IdOf(svc) := st.ipvs[IdOf(svc)].(svc := svc)]))
    case DeleteService(svc) =>
      if IdOf(svc) !in st.ipvs then None
      else Some(st.(ipvs := st.ipvs - {IdOf(svc)}))
    case AddDest(svc, dst) =>
      if IdOf(svc) !in st.ipvs || dst.address in st.ipvs[IdOf(svc)].dests then None
      else Some(SetDests(st, svc, st.ipvs[IdOf(svc)].dests[dst.address := dst]))
    case UpdateDest(svc, dst) =>
      if IdOf(svc) !in st.ipvs || dst.address !in st.ipvs[IdOf(svc)].dests then None
      else Some(SetDests(st, svc, st.ipvs[IdOf(svc)].dests[dst.address := dst]))
    case DeleteDest(svc, dst) =>
      if IdOf(svc) !in st.ipvs || dst.address !in st.ipvs[IdOf(svc)].dests then None
      else Some(SetDests(st, svc, st.ipvs[IdOf(svc)].dests - {dst.address}))
    case AddVserver(snap, af) =>
      if snap.Addr(af).None? || snap.Addr(af).value.af != af || snap.Addr(af).value in st.vservers then None
      else Some(st.(vservers := st.vservers[snap.Addr(af).value := snap]))
    case DeleteVserver(snap, af) =>
      if snap.Addr(af).None? || snap.Addr(af).value.af != af || snap.Addr(af).value !in st.vservers
         || st.vservers[snap.Addr(af).value] != snap then None
      else Some(st.(vservers := st.vservers - {snap.Addr(af).value}))
    case AddVIP(vip) =>
      if vip in st.vips then None else Some(st.(vips := st.vips + {vip}))
    case DeleteVIP(vip) =>
      if vip !in st.vips then None else Some(st.(vips := st.vips - {vip}))
    case Advertise(ip) =>
      if ip in st.routes then None else Some(st.(routes := st.routes + {ip}))
    case Withdraw(ip) =>
      if ip !in st.routes then None else Some(st.(routes := st.routes - {ip}))
  }

  /** The state a list of commands leads to from the flushed state; None once any of them fails. */
  function Replay(cs: seq<Command>): Option<State> {
    if cs == [] then Some(EMPTY)
    else
      var before := Replay(cs[..|cs| - 1]);
      if before.None? then None else Exec(before.value, cs[|cs| - 1])
  }

  /** Vservers have been put on the interface for these families only. */
  predicate AddsIn(cs: seq<Command>, families: set<AF>) {
    forall c | c in cs && c.AddVserver? :: c.af in families
  }

  /** A list of commands that replays has no failing prefix. */
  lemma {:induction false} PrefixReplays(cs: seq<Command>, n: nat)
    requires n <= |cs|
    requires Replay(cs).Some?
    ensures Replay(cs[..n]).Some?
  {
    if n == |cs| {
      assert cs[..n] == cs;
    } else {
      assert cs[..|cs| - 1][..n] == cs[..n];
      PrefixReplays(cs[..|cs| - 1], n);
    }
  }
}
