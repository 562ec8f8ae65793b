/**
The records a vserver keeps for its services and destinations, and the declarative reading of its
health rules: what each record should say once every change has been propagated, and what the
network state must then be.
*/
module Propagation {
  import opened Types
  import opened Kernel

  datatype ServiceKey = ServiceKey(af: AF, fwm: nat, proto: nat, port: nat)

  datatype CheckKey = CheckKey(
    vserverIP: IP,
    backendIP: IP,
    servicePort: nat,
    serviceProto: nat,
    mode: HCMode,
    kind: HCType,
    hcPort: nat,
    name: string)

  /** A destination named by its service and its own address. */
  datatype DestRef = DestRef(svc: ServiceKey, ip: IP)

  datatype Check = Check(healthcheck: Healthcheck, dests: seq<DestRef>, state: CheckState)

  datatype Dest = Dest(
    backend: Backend,
    ipvsDst: IpvsDest,
    checks: seq<CheckKey>,
    healthy: bool,
    active: bool)

  datatype Service = Service(
    vip: VIP,
    entry: Entry,
    ipvsSvc: IpvsService,
    dests: map<IP, Dest>,
    healthy: bool,
    active: bool)

  type Services = map<ServiceKey, Service>

  // ---- Identity ----

  /** The kernel identity of the service filed under k on address ip. */
  function IdFor(k: ServiceKey, ip: IP): SvcId {
    if k.fwm > 0 then FwmId(k.af, k.fwm) else AddrId(ip, k.proto, k.port)
  }

  /** The key under which the service with a kernel identity is filed. */
  function KeyOf(id: SvcId): ServiceKey {
    match id
    case AddrId(ip, proto, port) => ServiceKey(ip.af, 0, proto, port)
    case FwmId(af, mark) => ServiceKey(af, mark, 0, 0)
  }

  predicate ServiceOK(k: ServiceKey, s: Service) {
    && s.vip.ip.af == k.af
    && IdOf(s.ipvsSvc) == IdFor(k, s.vip.ip)
    && KeyOf(IdOf(s.ipvsSvc)) == k
    && forall ip | ip in s.dests :: s.dests[ip].ipvsDst.address == ip
  }

  predicate ServicesOK(svcs: Services) {
    forall k | k in svcs :: ServiceOK(k, svcs[k])
  }

  // ---- Health rules ----

  /** A destination is healthy when its backend is enabled, it has checks, and all of them pass. */
  predicate DestHealth(d: Dest, checks: map<CheckKey, Check>) {
    && d.backend.enabled
    && d.checks != []
    && forall c | c in d.checks :: c in checks && checks[c].state == Healthy
  }

  function HealthyDests(dests: map<IP, Dest>): set<IP> {
    set ip | ip in dests && dests[ip].healthy
  }

  function DestsInService(dests: map<IP, Dest>): set<IP> {
    set ip | ip in dests && dests[ip].backend.inService
  }

  function NumHealthy(dests: map<IP, Dest>): nat {
    |HealthyDests(dests)|
  }

  function NumBackends(dests: map<IP, Dest>): nat {
    |DestsInService(dests)|
  }

  lemma Listed(dests: map<IP, Dest>)
    ensures forall ip :: ip in HealthyDests(dests) <==> ip in dests && dests[ip].healthy
    ensures forall ip :: ip in DestsInService(dests) <==> ip in dests && dests[ip].backend.inService
  {
  }

  /** A fraction of healthy destinations against a watermark; nothing healthy never passes. */
  predicate MeetsWatermark(healthy: nat, backends: nat, watermark: real) {
    healthy > 0 && backends > 0 && healthy as real >= watermark * backends as real
  }

  /** A service turns healthy at the high watermark and stays so down to the low one. */
  predicate ServiceHealth(s: Service) {
    MeetsWatermark(NumHealthy(s.dests), NumBackends(s.dests), if s.healthy then s.entry.low else s.entry.high)
  }

  /** An anycast address needs all of its services healthy (and one at least), any other address one of them. */
  predicate VipHealth(svcs: Services, ip: IP, anycast: set<IP>) {
    && (exists k :: k in svcs && svcs[k].vip.ip == ip && svcs[k].healthy)
    && (ip in anycast ==> forall k | k in svcs && svcs[k].vip.ip == ip :: svcs[k].healthy)
  }

  // ---- Where propagation ends ----

  function SettleDest(d: Dest, serviceActive: bool): Dest {
    d.(active := serviceActive && d.healthy)
  }

  /** Destinations are up exactly when their service is up and they are healthy. */
  function SettleDests(s: Service): Service {
    s.(dests := map ip | ip in s.dests :: SettleDest(s.dests[ip], s.active))
  }

  /** A service is up exactly when it is healthy on an active address. */
  function Settle(s: Service, active: set<IP>): Service {
    SettleDests(s.(active := s.healthy && s.vip.ip in active))
  }

  predicate Settled(svcs: Services, active: set<IP>) {
    forall k | k in svcs :: svcs[k] == Settle(svcs[k], active)
  }

  function SettleAll(svcs: Services, active: set<IP>): Services {
    map k | k in svcs :: Settle(svcs[k], active)
  }

  /** No destination is up under a service that is down; a service that stays up has its destinations settled. */
  predicate Loose(s: Service) {
    && (!s.active ==> forall ip | ip in s.dests :: !s.dests[ip].active)
    && (s.active && s.healthy ==> s == SettleDests(s))
  }

  // ---- Agreement with the network state ----

  /** The IPVS entry of an installed service: its destinations are the active ones. A destination about to
      be taken down may still stand with an older configuration. */
  ghost predicate EntryFits(e: IpvsEntry, s: Service) {
    && e.svc == s.ipvsSvc
    && (forall ip :: ip in e.dests <==> ip in s.dests && s.dests[ip].active)
    && (forall ip | ip in s.dests && s.dests[ip].active && s.dests[ip].healthy ::
          e.dests[ip] == s.dests[ip].ipvsDst)
  }

  ghost predicate ServiceFits(ipvs: map<SvcId, IpvsEntry>, s: Service, installed: bool) {
    var id := IdOf(s.ipvsSvc);
    && (id in ipvs <==> installed)
    && (installed ==> EntryFits(ipvs[id], s))
  }

  /** The IPVS table holds exactly the active services, and those of `extra`, which are on their way out. */
  ghost predicate TableFits(ipvs: map<SvcId, IpvsEntry>, svcs: Services, extra: set<ServiceKey>) {
    && (forall k | k in svcs :: ServiceFits(ipvs, svcs[k], svcs[k].active || k in extra))
    && (forall id | id in ipvs :: KeyOf(id) in svcs && IdOf(svcs[KeyOf(id)].ipvsSvc) == id)
  }

  /** The exact table: active services with their configuration, and for each the active destinations with theirs. */
  function TableOf(svcs: Services): map<SvcId, IpvsEntry>
    requires ServicesOK(svcs)
  {
    map id | id in (set k | k in svcs && svcs[k].active :: IdOf(svcs[k].ipvsSvc)) ::
      var s := svcs[KeyOf(id)];
      IpvsEntry(s.ipvsSvc, map ip | ip in s.dests && s.dests[ip].active :: s.dests[ip].ipvsDst)
  }

  /** In a settled state the table that fits is the exact one. */
  lemma SettledTable(ipvs: map<SvcId, IpvsEntry>, svcs: Services, active: set<IP>)
    requires ServicesOK(svcs) && Settled(svcs, active) && TableFits(ipvs, svcs, {})
    ensures ipvs == TableOf(svcs)
  {
    var t := TableOf(svcs);
    forall id | id in ipvs
      ensures id in t
    {
      assert ServiceFits(ipvs, svcs[KeyOf(id)], svcs[KeyOf(id)].active);
    }
    forall id | id in t
      ensures id in ipvs && ipvs[id] == t[id]
    {
      var s := svcs[KeyOf(id)];
      assert ServiceFits(ipvs, s, s.active);
      assert s == Settle(s, active);
      assert ipvs[id].dests == t[id].dests;
    }
  }

  /** A route may stand only while its address is up with its rules and every service of that address
      is in IPVS, each with a destination where `served` says so. */
  ghost predicate RouteSafe(st: State, svcs: Services, served: bool, ip: IP) {
    && VIP(ip, AnycastVIP) in st.vips
    && ip in st.vservers
    && forall k | k in svcs && svcs[k].vip.ip == ip ::
         var id := IdOf(svcs[k].ipvsSvc);
         id in st.ipvs && (served ==> st.ipvs[id].dests != map[])
  }

  ghost predicate RoutesSafe(st: State, svcs: Services, served: bool) {
    forall ip | ip in st.routes :: RouteSafe(st, svcs, served, ip)
  }

  /** The addresses and rule sets on the interface are the configured unicast VIPs and the active anycast ones. */
  ghost predicate InterfaceFits(st: State, active: set<IP>, vips: set<VIP>, lbVservers: map<IP, Snapshot>,
                          anycast: set<IP>, anycastEnabled: bool)
  {
    && st.vservers == lbVservers
    && (forall ip | ip in lbVservers :: lbVservers[ip].Addr(ip.af) == Some(ip))
    && (forall vip :: vip in st.vips <==>
          vip in vips || (vip.kind.AnycastVIP? && vip.ip in active && vip.ip in anycast))
    && (forall ip :: ip in lbVservers <==>
          (ip in active && ip in anycast) || VIP(ip, UnicastVIP) in vips || VIP(ip, DedicatedVIP) in vips)
    && (forall vip | vip in vips :: !vip.kind.AnycastVIP? && vip.ip !in anycast)
    && (forall vip, vip' | vip in vips && vip' in vips && vip.ip == vip'.ip :: vip == vip')
    && st.routes == if anycastEnabled then active * anycast else {}
  }

  // ---- Steps ----

  function SetDest(svcs: Services, k: ServiceKey, ip: IP, d: Dest): Services
    requires k in svcs
  {
    svcs[k := svcs[k].(dests := svcs[k].dests[ip := d])]
  }

  /** Settling the services of one address only. */
  function SettleIP(svcs: Services, ip: IP, active: set<IP>): Services {
    map k | k in svcs :: if svcs[k].vip.ip == ip then Settle(svcs[k], active) else svcs[k]
  }

  /** A healthy service has a healthy destination. */
  predicate Populated(s: Service) {
    s.healthy ==> exists ip :: ip in s.dests && s.dests[ip].healthy
  }

  predicate SameInterface(a: State, b: State) {
    a.vservers == b.vservers && a.vips == b.vips && a.routes == b.routes
  }

  /** The table still fits after a change to one service and to its own entry. */
  lemma ReplaceService(ipvs: map<SvcId, IpvsEntry>, ipvs': map<SvcId, IpvsEntry>, svcs: Services,
                       k: ServiceKey, s: Service, extra: set<ServiceKey>, extra': set<ServiceKey>)
    requires ServicesOK(svcs) && TableFits(ipvs, svcs, extra)
    requires k in svcs && ServiceOK(k, s) && s.vip.ip == svcs[k].vip.ip
    requires ipvs' - {IdOf(s.ipvsSvc)} == ipvs - {IdOf(s.ipvsSvc)}
    requires extra' - {k} == extra - {k}
    requires ServiceFits(ipvs', s, s.active || k in extra')
    ensures ServicesOK(svcs[k := s]) && TableFits(ipvs', svcs[k := s], extra')
  {
    var id := IdOf(s.ipvsSvc);
    forall j | j in svcs && j != k
      ensures ServiceFits(ipvs', svcs[j], svcs[j].active || j in extra')
    {
      var jd := IdOf(svcs[j].ipvsSvc);
      assert ServiceFits(ipvs, svcs[j], svcs[j].active || j in extra);
      assert jd != id;
      assert jd in ipvs <==> jd in ipvs - {id};
      assert jd in ipvs' <==> jd in ipvs' - {id};
      assert j in extra <==> j in extra - {k};
      assert j in extra' <==> j in extra' - {k};
    }
    forall jd | jd in ipvs'
      ensures KeyOf(jd) in svcs && IdOf(svcs[k := s][KeyOf(jd)].ipvsSvc) == jd
    {
      if jd != id {
        assert jd in ipvs' - {id};
        assert jd in ipvs;
      }
    }
  }

  /** Routes stay safe while the interface is unchanged and no service of theirs loses its entry or its last
      destination. */
  lemma RoutesKept(st: State, st': State, svcs: Services, svcs': Services, served: bool, k: ServiceKey)
    requires ServicesOK(svcs) && RoutesSafe(st, svcs, served) && SameInterface(st, st')
    requires k in svcs && svcs'.Keys == svcs.Keys
    requires forall j | j in svcs ::
             svcs'[j].vip.ip == svcs[j].vip.ip && IdOf(svcs'[j].ipvsSvc) == IdOf(svcs[j].ipvsSvc)
    requires forall id | id in st.ipvs && id != IdOf(svcs[k].ipvsSvc) :: id in st'.ipvs && st'.ipvs[id] == st.ipvs[id]
    requires svcs[k].vip.ip in st.routes ==>
               IdOf(svcs[k].ipvsSvc) in st'.ipvs && (served ==> st'.ipvs[IdOf(svcs[k].ipvsSvc)].dests != map[])
    ensures RoutesSafe(st', svcs', served)
  {
    forall ip | ip in st'.routes
      ensures RouteSafe(st', svcs', served, ip)
    {
      assert RouteSafe(st, svcs, served, ip);
    }
  }

  /** The records in force when a command was issued, and whether each healthy service then had a healthy
      destination. */
  datatype View = View(services: Services, served: bool)

  datatype History = History(trace: seq<Command>, views: seq<View>)

  ghost predicate PrefixSafe(trace: seq<Command>, views: seq<View>, n: nat)
    requires n < |trace| == |views|
  {
    Replay(trace[..n + 1]).Some? && RoutesSafe(Replay(trace[..n + 1]).value, views[n].services, views[n].served)
  }

  /** Every prefix of the commands issued so far left the routes safe, as judged by the records then in force. */
  ghost predicate PrefixesSafe(trace: seq<Command>, views: seq<View>) {
    && |trace| == |views|
    && forall n: nat | n < |views| :: PrefixSafe(trace, views, n)
  }

  /** All views from a point on are served. */
  predicate ServedFrom(views: seq<View>, from: nat) {
    forall n | from <= n < |views| :: views[n].served
  }

  /** The commands replay to the state, every prefix is safe, and since the event begun every view is served if `served`
      still holds. */
  ghost predicate TraceOK(trace: seq<Command>, views: seq<View>, st: State, served: bool, begun: History) {
    && Replay(trace) == Some(st)
    && PrefixesSafe(trace, views)
    && begun.trace <= trace && begun.views <= views && |begun.trace| == |begun.views|
    && (served ==> ServedFrom(views, |begun.views|))
  }

  lemma ExtendTrace(trace: seq<Command>, views: seq<View>, st: State, served: bool, begun: History, c: Command,
                    svcs: Services)
    requires TraceOK(trace, views, st, served, begun)
    requires Exec(st, c).Some? && RoutesSafe(Exec(st, c).value, svcs, served)
    ensures TraceOK(trace + [c], views + [View(svcs, served)], Exec(st, c).value, served, begun)
  {
    var t, v := trace + [c], views + [View(svcs, served)];
    assert t[..|t| - 1] == trace;
    assert Replay(t) == Exec(st, c);
    forall n: nat | n < |v|
      ensures PrefixSafe(t, v, n)
    {
      if n < |trace| {
        assert PrefixSafe(trace, views, n);
        assert t[..n + 1] == trace[..n + 1] && v[n] == views[n];
      } else {
        assert t[..n + 1] == t;
      }
    }
  }

  /** Records, table and routes agree; `extra` names a service being taken down. */
  ghost predicate Agrees(st: State, svcs: Services, served: bool, extra: set<ServiceKey>) {
    && ServicesOK(svcs)
    && TableFits(st.ipvs, svcs, extra)
    && RoutesSafe(st, svcs, served)
  }

  lemma Fitting(st: State, svcs: Services, served: bool, extra: set<ServiceKey>, k: ServiceKey)
    requires Agrees(st, svcs, served, extra) && k in svcs
    ensures ServiceOK(k, svcs[k]) && ServiceFits(st.ipvs, svcs[k], svcs[k].active || k in extra)
    ensures svcs[k].vip.ip in st.routes ==> RouteSafe(st, svcs, served, svcs[k].vip.ip)
  {
  }

  lemma DestUpStep(st: State, svcs: Services, served: bool, k: ServiceKey, ip: IP)
    requires Agrees(st, svcs, served, {})
    requires k in svcs && ip in svcs[k].dests && svcs[k].active
    requires svcs[k].dests[ip].healthy && !svcs[k].dests[ip].active
    ensures var d := svcs[k].dests[ip];
            var after := Exec(st, AddDest(svcs[k].ipvsSvc, d.ipvsDst));
            && after.Some?
            && SameInterface(st, after.value)
            && Agrees(after.value, SetDest(svcs, k, ip, d.(active := true)), served, {})
  {
    hide ServicesOK, TableFits, RoutesSafe, RouteSafe;
    Fitting(st, svcs, served, {}, k);
    var d := svcs[k].dests[ip];
    var after := Exec(st, AddDest(svcs[k].ipvsSvc, d.ipvsDst)).value;
    var svcs' := SetDest(svcs, k, ip, d.(active := true));
    assert ip in after.ipvs[IdOf(svcs[k].ipvsSvc)].dests;
    RoutesKept(st, after, svcs, svcs', served, k);
    ReplaceService(st.ipvs, after.ipvs, svcs, k, svcs'[k], {}, {});
  }

  lemma DestDownStep(st: State, svcs: Services, served: bool, k: ServiceKey, ip: IP, extra: set<ServiceKey>)
    requires Agrees(st, svcs, served, extra) && extra <= {k}
    requires k in svcs && ip in svcs[k].dests && (svcs[k].active || k in extra)
    requires svcs[k].dests[ip].active
    requires svcs[k].vip.ip in st.routes && served ==>
               exists ip' :: ip' in svcs[k].dests && ip' != ip && svcs[k].dests[ip'].active
    ensures var d := svcs[k].dests[ip];
            var after := Exec(st, DeleteDest(svcs[k].ipvsSvc, d.ipvsDst));
            && after.Some?
            && SameInterface(st, after.value)
            && Agrees(after.value, SetDest(svcs, k, ip, d.(active := false)), served, extra)
  {
    hide ServicesOK, TableFits, RoutesSafe, RouteSafe;
    Fitting(st, svcs, served, extra, k);
    var d := svcs[k].dests[ip];
    var after := Exec(st, DeleteDest(svcs[k].ipvsSvc, d.ipvsDst)).value;
    var svcs' := SetDest(svcs, k, ip, d.(active := false));
    if svcs[k].vip.ip in st.routes && served {
      var ip' :| ip' in svcs[k].dests && ip' != ip && svcs[k].dests[ip'].active;
      assert ip' in after.ipvs[IdOf(svcs[k].ipvsSvc)].dests;
    }
    RoutesKept(st, after, svcs, svcs', served, k);
    ReplaceService(st.ipvs, after.ipvs, svcs, k, svcs'[k], extra, extra);
  }

  lemma ServiceUpStep(st: State, svcs: Services, served: bool, k: ServiceKey)
    requires Agrees(st, svcs, served, {})
    requires k in svcs && !svcs[k].active
    requires forall ip | ip in svcs[k].dests :: !svcs[k].dests[ip].active
    ensures var after := Exec(st, AddService(svcs[k].ipvsSvc));
            && after.Some?
            && SameInterface(st, after.value)
            && svcs[k].vip.ip !in st.routes
            && Agrees(after.value, svcs[k := svcs[k].(active := true)], served, {})
  {
    hide ServicesOK, TableFits, RoutesSafe;
    Fitting(st, svcs, served, {}, k);
    var s := svcs[k].(active := true);
    var after := Exec(st, AddService(s.ipvsSvc)).value;
    assert svcs[k].vip.ip in st.routes ==> RouteSafe(st, svcs, served, svcs[k].vip.ip);
    RoutesKept(st, after, svcs, svcs[k := s], served, k);
    ReplaceService(st.ipvs, after.ipvs, svcs, k, s, {}, {});
  }

  /** A service marked down whose entry still stands. */
  lemma ServiceClosing(st: State, svcs: Services, served: bool, k: ServiceKey)
    requires Agrees(st, svcs, served, {})
    requires k in svcs && svcs[k].active && svcs[k].vip.ip !in st.routes
    ensures Agrees(st, svcs[k := svcs[k].(active := false)], served, {k})
  {
    hide ServicesOK, TableFits, RoutesSafe, RouteSafe;
    Fitting(st, svcs, served, {}, k);
    var s := svcs[k].(active := false);
    assert EntryFits(st.ipvs[IdOf(s.ipvsSvc)], s);
    RoutesKept(st, st, svcs, svcs[k := s], served, k);
    ReplaceService(st.ipvs, st.ipvs, svcs, k, s, {}, {k});
  }

  lemma ServiceDownStep(st: State, svcs: Services, served: bool, k: ServiceKey)
    requires Agrees(st, svcs, served, {k})
    requires k in svcs && !svcs[k].active && svcs[k].vip.ip !in st.routes
    ensures var after := Exec(st, DeleteService(svcs[k].ipvsSvc));
            && after.Some?
            && SameInterface(st, after.value)
            && Agrees(after.value, svcs, served, {})
  {
    hide ServicesOK, TableFits, RoutesSafe, RouteSafe;
    Fitting(st, svcs, served, {k}, k);
    var after := Exec(st, DeleteService(svcs[k].ipvsSvc)).value;
    RoutesKept(st, after, svcs, svcs, served, k);
    ReplaceService(st.ipvs, after.ipvs, svcs, k, svcs[k], {k}, {});
    assert svcs[k := svcs[k]] == svcs;
  }

  /** A service with the destinations outside `todo` settled. */
  function PartlySettled(s: Service, todo: set<IP>): Service {
    s.(dests := map ip | ip in s.dests :: if ip in todo then s.dests[ip] else SettleDest(s.dests[ip], s.active))
  }

  lemma PartlySettledStep(svcs: Services, k: ServiceKey, s: Service, todo: set<IP>, ip: IP)
    requires ip in todo && ip in s.dests
    ensures SetDest(svcs[k := PartlySettled(s, todo)], k, ip, SettleDest(s.dests[ip], s.active))
            == svcs[k := PartlySettled(s, todo - {ip})]
  {
    assert PartlySettled(s, todo).dests[ip := SettleDest(s.dests[ip], s.active)]
        == PartlySettled(s, todo - {ip}).dests;
  }

  lemma PartlySettledEnds(s: Service)
    ensures PartlySettled(s, s.dests.Keys) == s
    ensures PartlySettled(s, {}) == SettleDests(s)
  {
    assert PartlySettled(s, s.dests.Keys).dests == s.dests;
    assert PartlySettled(s, {}).dests == SettleDests(s).dests;
  }

  lemma SetDestSame(svcs: Services, k: ServiceKey, ip: IP)
    requires k in svcs && ip in svcs[k].dests
    ensures SetDest(svcs, k, ip, svcs[k].dests[ip]) == svcs
  {
    assert svcs[k].dests[ip := svcs[k].dests[ip]] == svcs[k].dests;
  }

  // ---- Addresses ----

  lemma LooseSettled(s: Service, active: set<IP>)
    requires Loose(s) && s.active == (s.healthy && s.vip.ip in active)
    ensures Settle(s, active) == s
  {
    assert Settle(s, active).dests == s.dests;
  }

  /** The services of an address outside `todo` are settled. */
  function PartlySettledIP(svcs: Services, ip: IP, active: set<IP>, todo: set<ServiceKey>): Services {
    map k | k in svcs :: if svcs[k].vip.ip == ip && k !in todo then Settle(svcs[k], active) else svcs[k]
  }

  lemma PartlySettledIPStep(svcs: Services, ip: IP, active: set<IP>, todo: set<ServiceKey>, k: ServiceKey)
    requires k in svcs && k in todo
    ensures svcs[k].vip.ip == ip ==>
              PartlySettledIP(svcs, ip, active, todo)[k := Settle(svcs[k], active)]
              == PartlySettledIP(svcs, ip, active, todo - {k})
    ensures svcs[k].vip.ip != ip ==>
              PartlySettledIP(svcs, ip, active, todo) == PartlySettledIP(svcs, ip, active, todo - {k})
  {
  }

  lemma PartlySettledIPEnds(svcs: Services, ip: IP, active: set<IP>)
    ensures PartlySettledIP(svcs, ip, active, svcs.Keys) == svcs
    ensures PartlySettledIP(svcs, ip, active, {}) == SettleIP(svcs, ip, active)
  {
  }

  /** Records, table and routes agree, but for the route of one address. */
  ghost predicate AgreesBut(st: State, svcs: Services, served: bool, ip: IP) {
    && ServicesOK(svcs)
    && TableFits(st.ipvs, svcs, {})
    && forall r | r in st.routes && r != ip :: RouteSafe(st, svcs, served, r)
  }

  /** A service of an active address may be brought down only once the address has no route. */
  ghost predicate MayUpdate(st: State, svcs: Services, active: set<IP>, ip: IP) {
    forall k | k in svcs && svcs[k].vip.ip == ip ::
      Loose(svcs[k]) && (ip in st.routes ==> ip in active && svcs[k].healthy)
  }

  /** Routes depend on the interface only through what it holds for them. */
  lemma RoutesOnInterface(st: State, st': State, svcs: Services, served: bool)
    requires st'.ipvs == st.ipvs && st'.routes <= st.routes
    requires forall ip | ip in st'.routes ::
               RouteSafe(st, svcs, served, ip) && VIP(ip, AnycastVIP) in st'.vips && ip in st'.vservers
    ensures RoutesSafe(st', svcs, served)
  {
    forall ip | ip in st'.routes
      ensures RouteSafe(st', svcs, served, ip)
    {
      assert RouteSafe(st, svcs, served, ip);
    }
  }

  /** A service that is up and settled on a table it agrees with has an entry, and a destination in it if it is
      populated. */
  lemma ServiceServed(st: State, svcs: Services, k: ServiceKey, active: set<IP>)
    requires ServicesOK(svcs) && TableFits(st.ipvs, svcs, {})
    requires k in svcs && svcs[k].active && svcs[k] == Settle(svcs[k], active)
    ensures IdOf(svcs[k].ipvsSvc) in st.ipvs
    ensures Populated(svcs[k]) ==> st.ipvs[IdOf(svcs[k].ipvsSvc)].dests != map[]
  {
    var s := svcs[k];
    assert ServiceFits(st.ipvs, s, true);
    if Populated(s) {
      var ip :| ip in s.dests && s.dests[ip].healthy;
      assert s.dests[ip] == SettleDest(s.dests[ip], s.active);
      assert ip in st.ipvs[IdOf(s.ipvsSvc)].dests;
    }
  }

  /** The commands that announce an anycast address whose services are all up. */
  lemma Announce(st: State, svcs: Services, served: bool, active: set<IP>, vips: set<VIP>,
                 lb: map<IP, Snapshot>, anycast: set<IP>, enabled: bool, ip: IP, snap: Snapshot)
    requires Agrees(st, svcs, served, {}) && InterfaceFits(st, active, vips, lb, anycast, enabled)
    requires ip !in active && ip in anycast && snap.Addr(ip.af) == Some(ip)
    requires forall k | k in svcs && svcs[k].vip.ip == ip ::
               IdOf(svcs[k].ipvsSvc) in st.ipvs && (served ==> st.ipvs[IdOf(svcs[k].ipvsSvc)].dests != map[])
    ensures var s1 := Exec(st, AddVserver(snap, ip.af));
            s1.Some? && RoutesSafe(s1.value, svcs, served) &&
            var s2 := Exec(s1.value, AddVIP(VIP(ip, AnycastVIP)));
            s2.Some? && RoutesSafe(s2.value, svcs, served) &&
            var s3 := Exec(s2.value, Advertise(ip));
            s3.Some? && RoutesSafe(s3.value, svcs, served) &&
            var end := if enabled then s3.value else s2.value;
            && Agrees(end, svcs, served, {})
            && InterfaceFits(end, active + {ip}, vips, lb[ip := snap], anycast, enabled)
  {
    hide TableFits, ServicesOK, InterfaceFits;
    var s1 := st.(vservers := st.vservers[ip := snap]);
    var s2 := s1.(vips := s1.vips + {VIP(ip, AnycastVIP)});
    var s3 := s2.(routes := s2.routes + {ip});
    AnnouncedFits(st, active, vips, lb, anycast, enabled, ip, snap);
    RoutesOnInterface(st, s1, svcs, served);
    RoutesOnInterface(st, s2, svcs, served);
    forall r | r in s3.routes
      ensures RouteSafe(s3, svcs, served, r)
    {
      if r != ip {
        assert RouteSafe(st, svcs, served, r);
      }
    }
  }

  lemma AnnouncedFits(st: State, active: set<IP>, vips: set<VIP>, lb: map<IP, Snapshot>, anycast: set<IP>,
                      enabled: bool, ip: IP, snap: Snapshot)
    requires InterfaceFits(st, active, vips, lb, anycast, enabled)
    requires ip !in active && ip in anycast && snap.Addr(ip.af) == Some(ip)
    ensures ip !in st.vservers && VIP(ip, AnycastVIP) !in st.vips && ip !in st.routes
    ensures forall r | r in st.routes :: VIP(r, AnycastVIP) in st.vips && r in st.vservers
    ensures var s2 := st.(vservers := st.vservers[ip := snap], vips := st.vips + {VIP(ip, AnycastVIP)});
            InterfaceFits(if enabled then s2.(routes := s2.routes + {ip}) else s2, active + {ip}, vips, lb[ip := snap],
                          anycast, enabled)
  {
    assert (active + {ip}) * anycast == active * anycast + {ip};
  }

  /** The commands that retire an anycast address, its route first. */
  lemma Retire(st: State, svcs: Services, served: bool, active: set<IP>, vips: set<VIP>,
               lb: map<IP, Snapshot>, anycast: set<IP>, enabled: bool, ip: IP)
    requires AgreesBut(st, svcs, served, ip) && InterfaceFits(st, active, vips, lb, anycast, enabled)
    requires ip in active && ip in anycast
    ensures ip in lb
    ensures var s1 := if enabled then Exec(st, Withdraw(ip)) else Some(st);
            s1.Some? && RoutesSafe(s1.value, svcs, served) &&
            var s2 := Exec(s1.value, DeleteVIP(VIP(ip, AnycastVIP)));
            s2.Some? && RoutesSafe(s2.value, svcs, served) &&
            var s3 := Exec(s2.value, DeleteVserver(lb[ip], ip.af));
            && s3.Some? && RoutesSafe(s3.value, svcs, served)
            && Agrees(s3.value, svcs, served, {})
            && InterfaceFits(s3.value, active - {ip}, vips, lb - {ip}, anycast, enabled)
  {
    hide TableFits, ServicesOK, InterfaceFits;
    var s1 := st.(routes := st.routes - {ip});
    var s2 := s1.(vips := s1.vips - {VIP(ip, AnycastVIP)});
    var s3 := s2.(vservers := s2.vservers - {ip});
    RetiredFits(st, active, vips, lb, anycast, enabled, ip);
    assert enabled ==> Exec(st, Withdraw(ip)) == Some(s1);
    assert !enabled ==> s1 == st;
    RoutesOnInterface(st, s1, svcs, served);
    RoutesOnInterface(st, s2, svcs, served);
    RoutesOnInterface(st, s3, svcs, served);
  }

  lemma RetiredFits(st: State, active: set<IP>, vips: set<VIP>, lb: map<IP, Snapshot>, anycast: set<IP>, enabled: bool,
                    ip: IP)
    requires InterfaceFits(st, active, vips, lb, anycast, enabled) && ip in active && ip in anycast
    ensures st.vservers == lb && ip in lb && lb[ip].Addr(ip.af) == Some(ip) && VIP(ip, AnycastVIP) in st.vips
    ensures ip in st.routes <==> enabled
    ensures forall r | r in st.routes :: VIP(r, AnycastVIP) in st.vips && r in st.vservers
    ensures InterfaceFits(State(st.ipvs, st.vservers - {ip}, st.vips - {VIP(ip, AnycastVIP)}, st.routes - {ip}),
                          active - {ip}, vips, lb - {ip}, anycast, enabled)
  {
    assert (active - {ip}) * anycast == active * anycast - {ip};
  }

  /** Once the services of a healthy anycast address are settled, all of them are in the table. */
  lemma AddressServed(st: State, svcs: Services, served: bool, active: set<IP>, anycast: set<IP>, ip: IP)
    requires Agrees(st, SettleIP(svcs, ip, active), served, {})
    requires ip in active && ip in anycast && VipHealth(svcs, ip, anycast)
    requires served ==> forall k | k in svcs && svcs[k].vip.ip == ip :: Populated(svcs[k])
    ensures var now := SettleIP(svcs, ip, active);
            forall k | k in now && now[k].vip.ip == ip ::
              IdOf(now[k].ipvsSvc) in st.ipvs && (served ==> st.ipvs[IdOf(now[k].ipvsSvc)].dests != map[])
  {
    hide TableFits, ServicesOK, RoutesSafe;
    var now := SettleIP(svcs, ip, active);
    forall k | k in now && now[k].vip.ip == ip
      ensures IdOf(now[k].ipvsSvc) in st.ipvs && (served ==> st.ipvs[IdOf(now[k].ipvsSvc)].dests != map[])
    {
      SettleTwice(svcs[k], active);
      assert Populated(svcs[k]) ==> Populated(now[k]);
      ServiceServed(st, now, k, active);
    }
  }

  lemma SettleTwice(s: Service, active: set<IP>)
    ensures Settle(Settle(s, active), active) == Settle(s, active)
    ensures Populated(Settle(s, active)) == Populated(s)
  {
    var t := Settle(s, active);
    assert Settle(t, active).dests == t.dests;
    if Populated(s) && s.healthy {
      var ip :| ip in s.dests && s.dests[ip].healthy;
      assert t.dests[ip].healthy;
    }
    if Populated(t) && t.healthy {
      var ip :| ip in t.dests && t.dests[ip].healthy;
      assert s.dests[ip].healthy;
    }
  }

  /** An address outside the anycast networks leaves no mark on the interface when it comes up or goes down. */
  lemma FitsElsewhere(st: State, active: set<IP>, vips: set<VIP>, lb: map<IP, Snapshot>, anycast: set<IP>,
                      enabled: bool, ip: IP)
    requires InterfaceFits(st, active, vips, lb, anycast, enabled)
    ensures ip !in active ==> ip !in st.routes
    ensures ip in st.routes ==> ip in anycast
    ensures ip !in anycast ==> InterfaceFits(st, active + {ip}, vips, lb, anycast, enabled)
    ensures ip !in anycast ==> InterfaceFits(st, active - {ip}, vips, lb, anycast, enabled)
  {
    if ip !in anycast {
      assert (active + {ip}) * anycast == active * anycast;
      assert (active - {ip}) * anycast == active * anycast;
    }
  }

  lemma InterfaceSame(st: State, st': State, active: set<IP>, vips: set<VIP>, lb: map<IP, Snapshot>, anycast: set<IP>,
                      enabled: bool, ip: IP)
    requires SameInterface(st, st')
    ensures InterfaceFits(st, active, vips, lb, anycast, enabled) ==
            InterfaceFits(st', active, vips, lb, anycast, enabled)
    ensures InterfaceFits(st, active - {ip}, vips, lb, anycast, enabled)
         == InterfaceFits(st', active - {ip}, vips, lb, anycast, enabled)
  {
  }

  lemma AgreesWhole(st: State, svcs: Services, served: bool, ip: IP)
    requires AgreesBut(st, svcs, served, ip)
    requires ip in st.routes ==> RouteSafe(st, svcs, served, ip)
    ensures Agrees(st, svcs, served, {})
  {
  }

  /** The active addresses once one of them has been reconsidered. */
  function NewActive(svcs: Services, active: set<IP>, ip: IP, anycast: set<IP>): set<IP> {
    if VipHealth(svcs, ip, anycast) then active + {ip} else active - {ip}
  }

  /** A quotient against a watermark, as the engine computes it. */
  lemma WatermarkQuotient(healthy: nat, backends: nat, watermark: real)
    requires backends > 0
    ensures (healthy as real / backends as real >= watermark) == (healthy as real >= watermark * backends as real)
  {
    var h, b := healthy as real, backends as real;
    assert h == (h / b) * b;
    if h / b >= watermark {
      assert (h / b) * b >= watermark * b;
    } else {
      assert (h / b) * b < watermark * b;
    }
  }

  /** A service as it stands when the health of one of its destinations has just changed. */
  predicate Disturbed(s: Service, active: set<IP>, flip: IP) {
    && s.active == (s.healthy && s.vip.ip in active)
    && (!s.active ==> forall ip | ip in s.dests :: !s.dests[ip].active)
    && forall ip | ip in s.dests && ip != flip :: s.dests[ip] == SettleDest(s.dests[ip], s.active)
  }

  /** The outcome of judging one service by its watermarks. */
  ghost predicate ServiceJudged(svcs: Services, active: set<IP>, svcs': Services, active': set<IP>, anycast: set<IP>,
                                k: ServiceKey)
  {
    k in svcs &&
    var s := svcs[k];
    var judged := svcs[k := s.(healthy := ServiceHealth(s))];
    && active' == (if ServiceHealth(s) == s.healthy then active else NewActive(judged, active, s.vip.ip, anycast))
    && svcs' == SettleAll(judged, active')
  }

  predicate SettledBut(svcs: Services, active: set<IP>, k: ServiceKey) {
    forall j | j in svcs && j != k :: svcs[j] == Settle(svcs[j], active)
  }

  predicate PopulatedBut(svcs: Services, k: ServiceKey) {
    forall j | j in svcs && j != k :: Populated(svcs[j])
  }

  predicate AllPopulated(svcs: Services) {
    forall j | j in svcs :: Populated(svcs[j])
  }

  /** A change to a service record that its table entry already fits. */
  lemma SameTable(st: State, svcs: Services, served: bool, k: ServiceKey, s: Service)
    requires Agrees(st, svcs, served, {}) && k in svcs && ServiceOK(k, s)
    requires s.vip.ip == svcs[k].vip.ip && s.active == svcs[k].active
    requires s.active && IdOf(s.ipvsSvc) in st.ipvs ==> EntryFits(st.ipvs[IdOf(s.ipvsSvc)], s)
    ensures Agrees(st, svcs[k := s], served, {})
  {
    hide ServicesOK, TableFits, RoutesSafe, EntryFits;
    Fitting(st, svcs, served, {}, k);
    RoutesKept(st, st, svcs, svcs[k := s], served, k);
    ReplaceService(st.ipvs, st.ipvs, svcs, k, s, {}, {});
  }

  /** Service health is not visible in the table. */
  lemma HealthFlag(st: State, svcs: Services, served: bool, k: ServiceKey, healthy: bool)
    requires Agrees(st, svcs, served, {}) && k in svcs
    ensures Agrees(st, svcs[k := svcs[k].(healthy := healthy)], served, {})
  {
    hide ServicesOK, TableFits, RoutesSafe;
    Fitting(st, svcs, served, {}, k);
    SameTable(st, svcs, served, k, svcs[k].(healthy := healthy));
  }

  /** A service of an advertised address is up, and keeps a destination while its destinations are brought into line. */
  lemma RoutedServiceKeepsOne(st: State, svcs: Services, served: bool, k: ServiceKey, active: set<IP>, flip: IP)
    requires Agrees(st, svcs, served, {}) && k in svcs && svcs[k].vip.ip in st.routes
    requires Disturbed(svcs[k], active, flip)
    ensures svcs[k].active
    ensures served && NumHealthy(svcs[k].dests) > 0 ==>
              exists ip :: ip in svcs[k].dests && svcs[k].dests[ip].active && svcs[k].dests[ip].healthy
  {
    var s := svcs[k];
    assert RouteSafe(st, svcs, served, s.vip.ip);
    assert ServiceFits(st.ipvs, s, s.active);
    if served && NumHealthy(s.dests) > 0 {
      var up := set ip | ip in s.dests && s.dests[ip].healthy;
      assert up != {};
      var ip :| ip in up;
      if ip == flip && !s.dests[ip].active {
        var e := st.ipvs[IdOf(s.ipvsSvc)];
        assert e.dests.Keys != {};
        var other :| other in e.dests;
        assert other in s.dests && s.dests[other].active;
      }
    }
  }

  lemma SettleInPlace(svcs: Services, active: set<IP>, k: ServiceKey, flip: IP)
    requires k in svcs && SettledBut(svcs, active, k) && Disturbed(svcs[k], active, flip)
    ensures svcs[k := SettleDests(svcs[k])] == SettleAll(svcs, active)
  {
    assert svcs[k].(active := svcs[k].active) == svcs[k];
  }

  lemma SettleUp(svcs: Services, active: set<IP>, k: ServiceKey)
    requires k in svcs && SettledBut(svcs, active, k) && svcs[k].healthy && svcs[k].vip.ip in active
    ensures svcs[k := SettleDests(svcs[k].(active := true))] == SettleAll(svcs, active)
  {
  }

  lemma SettleIdle(svcs: Services, active: set<IP>, k: ServiceKey)
    requires k in svcs && SettledBut(svcs, active, k) && !svcs[k].healthy && !svcs[k].active
    requires forall ip | ip in svcs[k].dests :: !svcs[k].dests[ip].active
    ensures svcs == SettleAll(svcs, active)
  {
    assert Settle(svcs[k], active).dests == svcs[k].dests;
  }

  lemma SettleAddress(svcs: Services, active: set<IP>, active': set<IP>, k: ServiceKey, ip: IP)
    requires k in svcs && SettledBut(svcs, active, k) && svcs[k].vip.ip == ip
    requires active' == active + {ip} || active' == active - {ip}
    ensures SettleIP(svcs, ip, active') == SettleAll(svcs, active')
  {
    forall j | j in svcs && svcs[j].vip.ip != ip
      ensures Settle(svcs[j], active') == svcs[j]
    {
      assert svcs[j].vip.ip in active' <==> svcs[j].vip.ip in active;
    }
  }

  /** Settled services are in order for any update of their address. */
  lemma SettledLoose(svcs: Services, active: set<IP>, k: ServiceKey)
    requires SettledBut(svcs, active, k)
    ensures forall j | j in svcs && j != k :: Loose(svcs[j])
  {
    forall j | j in svcs && j != k
      ensures Loose(svcs[j])
    {
      var s := svcs[j];
      assert s == Settle(s, active);
      assert s.active ==> s.(active := true) == s;
    }
  }

  /** A service found healthy has a healthy destination, and settling keeps it. */
  lemma HealthPopulates(svcs: Services, k: ServiceKey, healthy: bool, active: set<IP>)
    requires k in svcs && PopulatedBut(svcs, k)
    requires healthy ==> NumHealthy(svcs[k].dests) > 0
    ensures AllPopulated(svcs[k := svcs[k].(healthy := healthy)])
    ensures AllPopulated(SettleAll(svcs[k := svcs[k].(healthy := healthy)], active))
  {
    var svcs' := svcs[k := svcs[k].(healthy := healthy)];
    if healthy {
      var up := set ip | ip in svcs[k].dests && svcs[k].dests[ip].healthy;
      assert up != {};
      var ip :| ip in up;
      assert svcs'[k].dests[ip].healthy;
    }
    forall j | j in svcs'
      ensures Populated(svcs'[j]) && Populated(SettleAll(svcs', active)[j])
    {
      SettleTwice(svcs'[j], active);
    }
  }

  /** Whether an address should be up changes only with the health of its own services. */
  lemma VipHealthAfter(svcs: Services, k: ServiceKey, healthy: bool, active: set<IP>, anycast: set<IP>)
    requires k in svcs && healthy != svcs[k].healthy
    requires svcs[k].vip.ip in active <==> VipHealth(svcs, svcs[k].vip.ip, anycast)
    ensures var svcs' := svcs[k := svcs[k].(healthy := healthy)];
            var ip := svcs[k].vip.ip;
            && (healthy && ip in active ==> VipHealth(svcs', ip, anycast))
            && (!healthy && ip !in active ==> !VipHealth(svcs', ip, anycast))
  {
    var svcs' := svcs[k := svcs[k].(healthy := healthy)];
    var ip := svcs[k].vip.ip;
    if healthy && ip in active {
      assert svcs'[k].healthy && svcs'[k].vip.ip == ip;
    }
    if !healthy && ip !in active {
      var j :| j in svcs && svcs[j].vip.ip == ip && !svcs[j].healthy && ip in anycast;
      assert svcs'[j] == svcs[j];
    }
  }

  /** An unhealthy service keeps its anycast address down. */
  lemma UnhealthyVip(svcs: Services, k: ServiceKey, anycast: set<IP>)
    requires k in svcs && !svcs[k].healthy
    ensures svcs[k].vip.ip in anycast ==> !VipHealth(svcs, svcs[k].vip.ip, anycast)
  {
  }

  lemma AgreesFor(st: State, svcs: Services, served: bool, ip: IP)
    requires Agrees(st, svcs, served, {})
    ensures AgreesBut(st, svcs, served, ip)
    ensures ip in st.routes ==> RouteSafe(st, svcs, served, ip)
  {
  }

  // ---- One destination ----

  /** The verdict of a destination's checks. */
  predicate ChecksPass(d: Dest, checks: map<CheckKey, Check>)
    requires forall c | c in d.checks :: c in checks
  {
    d.backend.enabled && forall c | c in d.checks :: checks[c].state == Healthy
  }

  /** A destination record may change freely while it is down, and up to its table entry while it is up and healthy. */
  lemma SwapDest(st: State, svcs: Services, served: bool, k: ServiceKey, ip: IP, d: Dest)
    requires Agrees(st, svcs, served, {}) && k in svcs && ip in svcs[k].dests
    requires d.active == svcs[k].dests[ip].active
    requires d.ipvsDst.address == ip || d.ipvsDst == svcs[k].dests[ip].ipvsDst
    requires d.active && d.healthy ==> svcs[k].dests[ip].healthy && d.ipvsDst == svcs[k].dests[ip].ipvsDst
    ensures Agrees(st, SetDest(svcs, k, ip, d), served, {})
  {
    hide ServicesOK, TableFits, RoutesSafe;
    Fitting(st, svcs, served, {}, k);
    SameTable(st, svcs, served, k, SetDest(svcs, k, ip, d)[k]);
  }

  lemma DisturbedByDest(svcs: Services, active: set<IP>, k: ServiceKey, ip: IP, healthy: bool)
    requires Settled(svcs, active) && k in svcs && ip in svcs[k].dests
    ensures var svcs' := SetDest(svcs, k, ip, svcs[k].dests[ip].(healthy := healthy));
            && SettledBut(svcs', active, k) && Disturbed(svcs'[k], active, ip)
            && (forall j | j in svcs && j != k :: svcs'[j] == svcs[j])
  {
    assert svcs[k] == Settle(svcs[k], active);
  }

  lemma CountsAfterDest(dests: map<IP, Dest>, ip: IP, healthy: bool)
    requires ip in dests && dests[ip].healthy != healthy
    ensures var dests' := dests[ip := dests[ip].(healthy := healthy)];
            && NumBackends(dests') == NumBackends(dests)
            && NumHealthy(dests') == if healthy then NumHealthy(dests) + 1 else NumHealthy(dests) - 1
  {
    var dests' := dests[ip := dests[ip].(healthy := healthy)];
    var up := set i | i in dests && dests[i].healthy;
    var up' := set i | i in dests' && dests'[i].healthy;
    assert up' == if healthy then up + {ip} else up - {ip};
    assert (set i | i in dests' && dests'[i].backend.inService) == set i | i in dests && dests[i].backend.inService;
  }

  /** A service whose recorded health is what its watermarks say. */
  predicate Stable(s: Service) {
    s.entry.low <= s.entry.high && s.healthy == ServiceHealth(s)
  }

  lemma WatermarkMonotone(healthy: nat, healthy': nat, backends: nat, watermark: real)
    requires healthy <= healthy' && MeetsWatermark(healthy, backends, watermark)
    ensures MeetsWatermark(healthy', backends, watermark)
  {
  }

  /** A destination that joins a healthy service, or leaves an unhealthy one, cannot change the verdict. */
  lemma ShortcutSound(s: Service, ip: IP, healthy: bool)
    requires Stable(s) && ip in s.dests && s.dests[ip].healthy != healthy && s.healthy == healthy
    ensures ServiceHealth(s.(dests := s.dests[ip := s.dests[ip].(healthy := healthy)])) == s.healthy
  {
    hide NumHealthy, NumBackends, MeetsWatermark;
    CountsAfterDest(s.dests, ip, healthy);
    var t := s.(dests := s.dests[ip := s.dests[ip].(healthy := healthy)]);
    var mark := if s.healthy then s.entry.low else s.entry.high;
    if healthy {
      WatermarkMonotone(NumHealthy(s.dests), NumHealthy(t.dests), NumBackends(s.dests), mark);
    } else if ServiceHealth(t) {
      WatermarkMonotone(NumHealthy(t.dests), NumHealthy(s.dests), NumBackends(s.dests), mark);
    }
  }

  lemma DestUpSettles(svcs: Services, active: set<IP>, k: ServiceKey, ip: IP)
    requires Settled(svcs, active) && k in svcs && ip in svcs[k].dests && svcs[k].active
    ensures var d := svcs[k].dests[ip].(healthy := true);
            SetDest(svcs, k, ip, d.(active := true)) == SettleAll(SetDest(svcs, k, ip, d), active)
  {
    var d := svcs[k].dests[ip].(healthy := true);
    var svcs' := SetDest(svcs, k, ip, d);
    assert svcs[k] == Settle(svcs[k], active);
    var want := SetDest(svcs, k, ip, d.(active := true));
    assert Settle(svcs'[k], active).dests == want[k].dests;
    assert want[k] == Settle(svcs'[k], active);
    forall j | j in svcs
      ensures want[j] == SettleAll(svcs', active)[j]
    {
    }
  }

  lemma DestIdleSettles(svcs: Services, active: set<IP>, k: ServiceKey, ip: IP, healthy: bool)
    requires Settled(svcs, active) && k in svcs && ip in svcs[k].dests
    requires healthy == svcs[k].dests[ip].healthy || !svcs[k].active
    ensures var svcs' := SetDest(svcs, k, ip, svcs[k].dests[ip].(healthy := healthy));
            svcs' == SettleAll(svcs', active)
  {
    var svcs' := SetDest(svcs, k, ip, svcs[k].dests[ip].(healthy := healthy));
    assert svcs[k] == Settle(svcs[k], active);
    assert Settle(svcs'[k], active).dests == svcs'[k].dests;
  }

  /** The outcome of giving one destination a health: the verdict on its service is the watermarks' own where it
      changed, and where the service was stable before; everything else follows from the health flags. */
  ghost predicate DestJudged(svcs: Services, active: set<IP>, svcs': Services, active': set<IP>, anycast: set<IP>,
                             k: ServiceKey, ip: IP, healthy: bool)
  {
    k in svcs && ip in svcs[k].dests && k in svcs' &&
    var marked := SetDest(svcs, k, ip, svcs[k].dests[ip].(healthy := healthy));
    var judged := marked[k := marked[k].(healthy := svcs'[k].healthy)];
    && (svcs'[k].healthy != svcs[k].healthy || Stable(svcs[k]) ==> svcs'[k].healthy == ServiceHealth(marked[k]))
    && active' == (if svcs'[k].healthy == svcs[k].healthy then active
                   else NewActive(judged, active, svcs[k].vip.ip, anycast))
    && svcs' == SettleAll(judged, active')
  }

  lemma DestUnchangedJudged(svcs: Services, active: set<IP>, anycast: set<IP>, k: ServiceKey, ip: IP)
    requires Settled(svcs, active) && k in svcs && ip in svcs[k].dests
    ensures DestJudged(svcs, active, svcs, active, anycast, k, ip, svcs[k].dests[ip].healthy)
  {
    hide Settle, ServiceHealth;
    SetDestSame(svcs, k, ip);
    DestIdleSettles(svcs, active, k, ip, svcs[k].dests[ip].healthy);
    assert svcs[k := svcs[k].(healthy := svcs[k].healthy)] == svcs;
  }

  lemma DestUpJudged(svcs: Services, active: set<IP>, anycast: set<IP>, k: ServiceKey, ip: IP)
    requires Settled(svcs, active) && k in svcs && ip in svcs[k].dests
    requires svcs[k].active && !svcs[k].dests[ip].healthy
    ensures DestJudged(svcs, active, SetDest(svcs, k, ip, svcs[k].dests[ip].(healthy := true, active := true)), active,
                       anycast, k, ip, true)
  {
    hide ServiceHealth;
    assert svcs[k] == Settle(svcs[k], active);
    if Stable(svcs[k]) {
      ShortcutSound(svcs[k], ip, true);
    }
    DestUpSettles(svcs, active, k, ip);
    var marked := SetDest(svcs, k, ip, svcs[k].dests[ip].(healthy := true));
    assert marked[k := marked[k].(healthy := svcs[k].healthy)] == marked;
  }

  lemma DestIdleJudged(svcs: Services, active: set<IP>, anycast: set<IP>, k: ServiceKey, ip: IP)
    requires Settled(svcs, active) && k in svcs && ip in svcs[k].dests
    requires !svcs[k].active && !svcs[k].healthy && svcs[k].dests[ip].healthy
    ensures DestJudged(svcs, active, SetDest(svcs, k, ip, svcs[k].dests[ip].(healthy := false)), active,
                       anycast, k, ip, false)
  {
    hide ServiceHealth, Settle;
    if Stable(svcs[k]) {
      ShortcutSound(svcs[k], ip, false);
    }
    DestIdleSettles(svcs, active, k, ip, false);
    var marked := SetDest(svcs, k, ip, svcs[k].dests[ip].(healthy := false));
    assert marked[k := marked[k].(healthy := svcs[k].healthy)] == marked;
  }

  lemma DestJudgedByService(svcs: Services, active: set<IP>, svcs': Services, active': set<IP>, anycast: set<IP>,
                            k: ServiceKey, ip: IP, healthy: bool)
    requires k in svcs && ip in svcs[k].dests
    requires ServiceJudged(SetDest(svcs, k, ip, svcs[k].dests[ip].(healthy := healthy)), active, svcs', active',
                           anycast, k)
    ensures DestJudged(svcs, active, svcs', active', anycast, k, ip, healthy)
  {
    hide ServiceHealth, NewActive;
  }

  /** Marking a destination leaves the health of addresses, and the population of the other services, alone. */
  lemma MarkedDest(svcs: Services, k: ServiceKey, ip: IP, healthy: bool, anycast: set<IP>)
    requires k in svcs && ip in svcs[k].dests
    ensures var marked := SetDest(svcs, k, ip, svcs[k].dests[ip].(healthy := healthy));
            && (forall vip :: VipHealth(marked, vip, anycast) == VipHealth(svcs, vip, anycast))
            && (AllPopulated(svcs) ==> PopulatedBut(marked, k))
            && (AllPopulated(svcs) && (healthy || !svcs[k].healthy) ==> AllPopulated(marked))
  {
    var marked := SetDest(svcs, k, ip, svcs[k].dests[ip].(healthy := healthy));
    forall vip
      ensures VipHealth(marked, vip, anycast) == VipHealth(svcs, vip, anycast)
    {
      forall j | j in svcs
        ensures marked[j].healthy == svcs[j].healthy && marked[j].vip == svcs[j].vip
      {
      }
    }
    if AllPopulated(svcs) {
      assert forall j | j in svcs && j != k :: marked[j] == svcs[j];
      if healthy {
        assert marked[k].dests[ip].healthy;
      }
    }
  }

  lemma SettledService(svcs: Services, active: set<IP>, k: ServiceKey)
    requires Settled(svcs, active) && k in svcs
    ensures svcs[k].active == (svcs[k].healthy && svcs[k].vip.ip in active)
    ensures forall ip | ip in svcs[k].dests :: svcs[k].dests[ip].active == (svcs[k].active && svcs[k].dests[ip].healthy)
  {
    assert svcs[k] == Settle(svcs[k], active);
  }

  lemma SetDestTwice(svcs: Services, k: ServiceKey, ip: IP, d: Dest, d': Dest)
    requires k in svcs && d.healthy && d'.healthy
    ensures SetDest(SetDest(svcs, k, ip, d), k, ip, d') == SetDest(svcs, k, ip, d')
    ensures AllPopulated(SetDest(svcs, k, ip, d)) ==> AllPopulated(SetDest(svcs, k, ip, d'))
  {
    assert svcs[k].dests[ip := d][ip := d'] == svcs[k].dests[ip := d'];
    var a, b := SetDest(svcs, k, ip, d), SetDest(svcs, k, ip, d');
    assert b[k].dests[ip].healthy;
    assert forall j | j in svcs && j != k :: a[j] == b[j];
  }
}
