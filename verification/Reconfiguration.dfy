/** The steps of a configuration update: settings replaced in place, services and destinations added and removed. */
module Reconfiguration {
  import opened Types
  import opened Kernel
  import opened Propagation
  import opened Refinement
  import opened VserverConfig

  // ---- The table ----

  /** New settings for a service that keeps its address, destinations and running state. */
  function Resettle(s: Service, new_: Service): Service {
    new_.(healthy := s.healthy, active := s.active, dests := s.dests)
  }

  lemma ResettleQuiet(st: State, svcs: Services, served: bool, k: ServiceKey, new_: Service)
    requires Agrees(st, svcs, served, {}) && k in svcs && new_.vip.ip == svcs[k].vip.ip
    requires ServiceOK(k, new_) && (svcs[k].active ==> new_.ipvsSvc == svcs[k].ipvsSvc)
    ensures Agrees(st, svcs[k := Resettle(svcs[k], new_)], served, {})
  {
    hide ServicesOK, TableFits, RoutesSafe;
    Fitting(st, svcs, served, {}, k);
    SameTable(st, svcs, served, k, Resettle(svcs[k], new_));
  }

  lemma UpdateServiceStep(st: State, svcs: Services, served: bool, k: ServiceKey, new_: Service)
    requires Agrees(st, svcs, served, {}) && k in svcs && new_.vip.ip == svcs[k].vip.ip
    requires ServiceOK(k, new_) && svcs[k].active
    ensures var after := Exec(st, UpdateService(new_.ipvsSvc));
            && after.Some?
            && SameInterface(st, after.value)
            && Agrees(after.value, svcs[k := Resettle(svcs[k], new_)], served, {})
  {
    hide ServicesOK, TableFits, RoutesSafe;
    Fitting(st, svcs, served, {}, k);
    var s := Resettle(svcs[k], new_);
    var after := Exec(st, UpdateService(new_.ipvsSvc)).value;
    RoutesKept(st, after, svcs, svcs[k := s], served, k);
    ReplaceService(st.ipvs, after.ipvs, svcs, k, s, {}, {});
  }

  lemma UpdateDestStep(st: State, svcs: Services, served: bool, k: ServiceKey, ip: IP, d: Dest)
    requires Agrees(st, svcs, served, {}) && k in svcs && ip in svcs[k].dests
    requires svcs[k].dests[ip].active && svcs[k].active && d.active && d.ipvsDst.address == ip
    ensures var after := Exec(st, UpdateDest(svcs[k].ipvsSvc, d.ipvsDst));
            && after.Some?
            && SameInterface(st, after.value)
            && Agrees(after.value, SetDest(svcs, k, ip, d), served, {})
  {
    hide ServicesOK, TableFits, RoutesSafe, RouteSafe;
    Fitting(st, svcs, served, {}, k);
    var after := Exec(st, UpdateDest(svcs[k].ipvsSvc, d.ipvsDst)).value;
    var svcs' := SetDest(svcs, k, ip, d);
    assert ip in after.ipvs[IdOf(svcs[k].ipvsSvc)].dests;
    RoutesKept(st, after, svcs, svcs', served, k);
    ReplaceService(st.ipvs, after.ipvs, svcs, k, svcs'[k], {}, {});
  }

  function DropDest(svcs: Services, k: ServiceKey, ip: IP): Services
    requires k in svcs
  {
    svcs[k := svcs[k].(dests := svcs[k].dests - {ip})]
  }

  lemma InsertDest(st: State, svcs: Services, served: bool, k: ServiceKey, ip: IP, d: Dest)
    requires Agrees(st, svcs, served, {}) && k in svcs && ip !in svcs[k].dests
    requires !d.active && d.ipvsDst.address == ip
    ensures Agrees(st, SetDest(svcs, k, ip, d), served, {})
  {
    hide ServicesOK, TableFits, RoutesSafe;
    Fitting(st, svcs, served, {}, k);
    SameTable(st, svcs, served, k, SetDest(svcs, k, ip, d)[k]);
  }

  lemma RemoveDest(st: State, svcs: Services, served: bool, k: ServiceKey, ip: IP)
    requires Agrees(st, svcs, served, {}) && k in svcs && ip in svcs[k].dests && !svcs[k].dests[ip].active
    ensures Agrees(st, DropDest(svcs, k, ip), served, {})
  {
    hide ServicesOK, TableFits, RoutesSafe;
    Fitting(st, svcs, served, {}, k);
    SameTable(st, svcs, served, k, DropDest(svcs, k, ip)[k]);
  }

  lemma InsertService(st: State, svcs: Services, served: bool, k: ServiceKey, s: Service)
    requires Agrees(st, svcs, served, {}) && k !in svcs && ServiceOK(k, s) && !s.active
    ensures AgreesBut(st, svcs[k := s], served, s.vip.ip)
  {
    var svcs' := svcs[k := s];
    assert IdOf(s.ipvsSvc) !in st.ipvs;
    forall j | j in svcs
      ensures ServiceFits(st.ipvs, svcs'[j], svcs'[j].active || j in {})
    {
      assert ServiceFits(st.ipvs, svcs[j], svcs[j].active || j in {});
    }
    forall r | r in st.routes && r != s.vip.ip
      ensures RouteSafe(st, svcs', served, r)
    {
      assert RouteSafe(st, svcs, served, r);
    }
  }

  lemma RemoveService(st: State, svcs: Services, served: bool, k: ServiceKey)
    requires Agrees(st, svcs, served, {}) && k in svcs && !svcs[k].active
    ensures Agrees(st, svcs - {k}, served, {})
  {
    var svcs' := svcs - {k};
    forall j | j in svcs'
      ensures ServiceFits(st.ipvs, svcs'[j], svcs'[j].active || j in {})
    {
      assert ServiceFits(st.ipvs, svcs[j], svcs[j].active || j in {});
    }
    assert ServiceFits(st.ipvs, svcs[k], false);
    forall r | r in st.routes
      ensures RouteSafe(st, svcs', served, r)
    {
      assert RouteSafe(st, svcs, served, r);
    }
  }

  // ---- The addresses ----

  function Addresses(cfg: Config): set<IP> {
    (if cfg.ipv4.Some? then {cfg.ipv4.value} else {}) + (if cfg.ipv6.Some? then {cfg.ipv6.value} else {})
  }

  /** An active address is healthy; and, among the current ones, a healthy address is active. An address on its way out
      may have services left that would make it healthy. */
  ghost predicate VipsOn(svcs: Services, active: set<IP>, anycast: set<IP>, current: set<IP>) {
    && (forall ip | ip in active :: VipHealth(svcs, ip, anycast))
    && (forall ip | ip in current && VipHealth(svcs, ip, anycast) :: ip in active)
  }

  lemma VipsOnSame(svcs: Services, svcs': Services, active: set<IP>, anycast: set<IP>, current: set<IP>)
    requires VipsOn(svcs, active, anycast, current) && svcs.Keys == svcs'.Keys
    requires forall k | k in svcs :: svcs'[k].vip.ip == svcs[k].vip.ip && svcs'[k].healthy == svcs[k].healthy
    ensures VipsOn(svcs', active, anycast, current)
  {
    hide VipHealth;
    forall ip
      ensures VipHealth(svcs', ip, anycast) == VipHealth(svcs, ip, anycast)
    {
      VipHealthSame(svcs, svcs', ip, anycast);
    }
  }

  /** After the services of one address have changed and the address has been reconsidered. */
  lemma VipsOnAfter(svcs: Services, svcs': Services, active: set<IP>, anycast: set<IP>, current: set<IP>, ip: IP)
    requires VipsOn(svcs, active, anycast, current)
    requires forall k | k in svcs && svcs[k].vip.ip != ip :: k in svcs'
    requires forall k | k in svcs' && svcs'[k].vip.ip != ip ::
             k in svcs && svcs[k].vip.ip == svcs'[k].vip.ip && svcs[k].healthy == svcs'[k].healthy
    requires forall k | k in svcs && k in svcs' :: svcs[k].vip.ip == svcs'[k].vip.ip
    ensures VipsOn(svcs', NewActive(svcs', active, ip, anycast), anycast, current)
  {
    forall r | r != ip
      ensures VipHealth(svcs', r, anycast) == VipHealth(svcs, r, anycast)
    {
      if VipHealth(svcs, r, anycast) {
        var k :| k in svcs && svcs[k].vip.ip == r && svcs[k].healthy;
        assert k in svcs' && svcs'[k].vip.ip == r && svcs'[k].healthy;
      }
    }
  }

  /** Judging a service of a current address keeps the addresses right. */
  lemma VipsOnJudged(svcs: Services, active: set<IP>, svcs': Services, active': set<IP>, anycast: set<IP>,
                     k: ServiceKey, current: set<IP>)
    requires ServiceJudged(svcs, active, svcs', active', anycast, k) && VipsOn(svcs, active, anycast, current)
    ensures VipsOn(svcs', active', anycast, current)
  {
    hide ServiceHealth, VipHealth, NewActive;
    var s := svcs[k];
    var judged := svcs[k := s.(healthy := ServiceHealth(s))];
    if ServiceHealth(s) == s.healthy {
      VipsOnSame(svcs, judged, active, anycast, current);
    } else {
      VipsOnAfter(svcs, judged, active, anycast, current, s.vip.ip);
    }
    SettledFlags(judged, active');
    VipsOnSame(judged, svcs', active', anycast, current);
  }

  lemma SettledFlags(svcs: Services, active: set<IP>)
    ensures var svcs' := SettleAll(svcs, active);
            && svcs'.Keys == svcs.Keys && Settled(svcs', active)
            && forall k | k in svcs ::
               svcs'[k].vip == svcs[k].vip && svcs'[k].healthy == svcs[k].healthy && Bare(svcs'[k]) == Bare(svcs[k])
  {
    hide Bare;
    forall k | k in svcs
      ensures Settle(Settle(svcs[k], active), active) == Settle(svcs[k], active)
      ensures Bare(Settle(svcs[k], active)) == Bare(svcs[k])
    {
      SettleTwice(svcs[k], active);
      SettleBare(svcs[k], active);
    }
  }

  /** Dropping a service that is down, and unhealthy if its address is up, keeps the addresses right. */
  lemma VipsOnDrop(svcs: Services, active: set<IP>, anycast: set<IP>, current: set<IP>, k: ServiceKey)
    requires VipsOn(svcs, active, anycast, current) && k in svcs && svcs[k].vip.ip !in current
    requires svcs[k].vip.ip in active ==> !svcs[k].healthy
    ensures VipsOn(svcs - {k}, active, anycast, current)
  {
    var svcs' := svcs - {k};
    forall ip | ip in active
      ensures VipHealth(svcs', ip, anycast)
    {
      assert VipHealth(svcs, ip, anycast);
      var j :| j in svcs && svcs[j].vip.ip == ip && svcs[j].healthy;
      assert j in svcs';
    }
    forall ip | ip in current && VipHealth(svcs', ip, anycast)
      ensures ip in active
    {
      var j :| j in svcs' && svcs'[j].vip.ip == ip && svcs'[j].healthy;
      assert forall i | i in svcs && svcs[i].vip.ip == ip :: i in svcs' && svcs'[i] == svcs[i];
      assert VipHealth(svcs, ip, anycast);
    }
  }

  /** New settings change neither health nor activity. */
  lemma ResettleSettled(svcs: Services, active: set<IP>, anycast: set<IP>, current: set<IP>, k: ServiceKey,
                        new_: Service)
    requires k in svcs && new_.vip.ip == svcs[k].vip.ip
    requires Settled(svcs, active) && VipsOn(svcs, active, anycast, current)
    ensures var svcs' := svcs[k := Resettle(svcs[k], new_)];
            && Settled(svcs', active) && VipsOn(svcs', active, anycast, current)
            && (AllPopulated(svcs) ==> AllPopulated(svcs'))
  {
    hide VipsOn;
    var svcs' := svcs[k := Resettle(svcs[k], new_)];
    assert svcs[k] == Settle(svcs[k], active);
    assert svcs'[k].dests == svcs[k].dests;
    assert Settle(svcs'[k], active).dests == svcs[k].dests;
    VipsOnSame(svcs, svcs', active, anycast, current);
    if AllPopulated(svcs) {
      assert Populated(svcs[k]);
    }
  }

  /** A settled state with one service declared unhealthy is in order for an update of its address. */
  lemma ClosedReady(svcs: Services, active: set<IP>, k: ServiceKey)
    requires Settled(svcs, active) && k in svcs && svcs[k].active
    ensures var svcs' := svcs[k := svcs[k].(healthy := false)];
            && SettledBut(svcs', active, k) && (forall j | j in svcs' :: Loose(svcs'[j]))
            && (AllPopulated(svcs) ==> AllPopulated(svcs') && forall j | j in svcs' :: Populated(svcs'[j]))
  {
    hide Settle;
    SettledLoose(svcs[k := svcs[k].(healthy := false)], active, k);
  }

  lemma ClosedSettled(svcs: Services, active: set<IP>, anycast: set<IP>, current: set<IP>, k: ServiceKey)
    requires VipsOn(svcs, active, anycast, current) && k in svcs && !svcs[k].healthy
    ensures var svcs' := SettleAll(svcs, active);
            && Settled(svcs', active) && VipsOn(svcs', active, anycast, current)
            && svcs'.Keys == svcs.Keys && !svcs'[k].active && !svcs'[k].healthy && svcs'[k].vip == svcs[k].vip
            && (forall j | j in svcs :: Bare(svcs'[j]) == Bare(svcs[j]))
            && (AllPopulated(svcs) ==> AllPopulated(svcs'))
  {
    hide Bare, VipsOn;
    SettledFlags(svcs, active);
    VipsOnSame(svcs, SettleAll(svcs, active), active, anycast, current);
    if AllPopulated(svcs) {
      SettlePopulated(svcs, active);
    }
  }

  lemma SettlePopulated(svcs: Services, active: set<IP>)
    requires AllPopulated(svcs)
    ensures AllPopulated(SettleAll(svcs, active))
  {
    hide Populated, Settle;
    forall j | j in svcs
      ensures Populated(Settle(svcs[j], active))
    {
      SettleTwice(svcs[j], active);
    }
  }

  /** Forgetting a service that is down, and unhealthy if its address is up. */
  lemma DropSettled(svcs: Services, active: set<IP>, anycast: set<IP>, current: set<IP>, k: ServiceKey)
    requires Settled(svcs, active) && VipsOn(svcs, active, anycast, current)
    requires k in svcs && !svcs[k].active && svcs[k].vip.ip !in current
    ensures var svcs' := svcs - {k};
            && Settled(svcs', active) && VipsOn(svcs', active, anycast, current)
            && (AllPopulated(svcs) ==> AllPopulated(svcs'))
            && svcs'.Keys == svcs.Keys - {k}
  {
    hide VipsOn;
    SettledService(svcs, active, k);
    VipsOnDrop(svcs, active, anycast, current, k);
  }

  lemma AddedReady(svcs: Services, active: set<IP>, k: ServiceKey, s: Service)
    requires Settled(svcs, active) && k !in svcs && !s.healthy && !s.active && s.dests == map[]
    ensures var svcs' := svcs[k := s];
            && SettledBut(svcs', active, k) && (forall j | j in svcs' :: Loose(svcs'[j]))
            && (AllPopulated(svcs) ==> AllPopulated(svcs') && forall j | j in svcs' :: Populated(svcs'[j]))
  {
    hide Settle;
    SettledLoose(svcs[k := s], active, k);
  }

  // ---- The destinations ----

  /** Records that differ from others at one service only, and there as given, health and activity aside. */
  predicate ShapesBut(svcs: Services, svcs': Services, k: ServiceKey, s: Service) {
    && svcs'.Keys == svcs.Keys && k in svcs
    && Shape(svcs'[k]) == Shape(s)
    && forall j | j in svcs && j != k :: Shape(svcs'[j]) == Shape(svcs[j])
  }

  lemma SetDestShape(s: Service, ip: IP, d: Dest, d': Dest)
    requires d.(healthy := false, active := false) == d'.(healthy := false, active := false)
    ensures Shape(s.(dests := s.dests[ip := d])) == Shape(s.(dests := s.dests[ip := d']))
  {
    hide Shape;
    ShapeOfSet(s, ip, d);
    ShapeOfSet(s, ip, d');
  }

  /** A destination replaced without a change to its health or activity. */
  lemma SwapSettled(svcs: Services, active: set<IP>, anycast: set<IP>, current: set<IP>, k: ServiceKey, ip: IP, d: Dest)
    requires Settled(svcs, active) && VipsOn(svcs, active, anycast, current)
    requires k in svcs && ip in svcs[k].dests
    requires d.healthy == svcs[k].dests[ip].healthy && d.active == svcs[k].dests[ip].active
    ensures var svcs' := SetDest(svcs, k, ip, d);
            && Settled(svcs', active) && VipsOn(svcs', active, anycast, current)
            && (AllPopulated(svcs) ==> AllPopulated(svcs'))
  {
    hide VipsOn;
    var svcs' := SetDest(svcs, k, ip, d);
    assert svcs[k] == Settle(svcs[k], active);
    assert Settle(svcs'[k], active).dests == svcs'[k].dests;
    VipsOnSame(svcs, svcs', active, anycast, current);
    if AllPopulated(svcs) && svcs[k].healthy {
      assert Populated(svcs[k]);
      var i :| i in svcs[k].dests && svcs[k].dests[i].healthy;
      assert svcs'[k].dests[i].healthy;
    }
  }

  /** A destination replaced and declared unhealthy, with its activity not yet in line. */
  lemma SwapDisturbs(svcs: Services, active: set<IP>, anycast: set<IP>, current: set<IP>, k: ServiceKey, ip: IP,
                     d: Dest)
    requires Settled(svcs, active) && VipsOn(svcs, active, anycast, current)
    requires k in svcs && ip in svcs[k].dests && d.active == svcs[k].dests[ip].active
    ensures var svcs' := SetDest(svcs, k, ip, d);
            && SettledBut(svcs', active, k) && Disturbed(svcs'[k], active, ip) &&
               VipsOn(svcs', active, anycast, current)
            && (AllPopulated(svcs) ==> PopulatedBut(svcs', k))
  {
    hide VipsOn;
    var svcs' := SetDest(svcs, k, ip, d);
    assert svcs[k] == Settle(svcs[k], active);
    VipsOnSame(svcs, svcs', active, anycast, current);
  }

  lemma JudgedSettled(svcs: Services, active: set<IP>, svcs': Services, active': set<IP>, anycast: set<IP>,
                      k: ServiceKey, current: set<IP>)
    requires ServiceJudged(svcs, active, svcs', active', anycast, k) && VipsOn(svcs, active, anycast, current)
    ensures Settled(svcs', active') && VipsOn(svcs', active', anycast, current)
    ensures svcs'.Keys == svcs.Keys
    ensures forall j | j in svcs :: Shape(svcs'[j]) == Shape(svcs[j])
    ensures forall ip | ip in svcs'[k].dests ::
            ip in svcs[k].dests && svcs'[k].dests[ip].healthy == svcs[k].dests[ip].healthy
  {
    hide ServiceHealth, NewActive, VipsOn, Shape, Settled;
    VipsOnJudged(svcs, active, svcs', active', anycast, k, current);
    var judged := svcs[k := svcs[k].(healthy := ServiceHealth(svcs[k]))];
    SettledFlags(judged, active');
    forall j | j in svcs
      ensures Shape(svcs'[j]) == Shape(svcs[j])
    {
      SettleBare(judged[j], active');
      if j == k {
        VerdictShape(svcs[k], ServiceHealth(svcs[k]));
      }
    }
  }

  lemma VerdictShape(s: Service, healthy: bool)
    ensures Shape(s.(healthy := healthy)) == Shape(s)
  {
  }

  /** A destination that is down can be dropped. */
  lemma DropDestSettled(svcs: Services, active: set<IP>, anycast: set<IP>, current: set<IP>, k: ServiceKey, ip: IP)
    requires Settled(svcs, active) && VipsOn(svcs, active, anycast, current)
    requires k in svcs && ip in svcs[k].dests
    ensures var svcs' := DropDest(svcs, k, ip);
            && Settled(svcs', active) && VipsOn(svcs', active, anycast, current)
            && (AllPopulated(svcs) && (svcs[k].dests[ip].healthy ==> Populated(svcs'[k])) ==> AllPopulated(svcs'))
            && (!Populated(svcs[k]) ==> !Populated(svcs'[k]))
  {
    hide VipsOn;
    var svcs' := DropDest(svcs, k, ip);
    assert svcs[k] == Settle(svcs[k], active);
    assert Settle(svcs'[k], active).dests == svcs'[k].dests;
    VipsOnSame(svcs, svcs', active, anycast, current);
    if AllPopulated(svcs) && !svcs[k].dests[ip].healthy && svcs[k].healthy {
      assert Populated(svcs[k]);
      var i :| i in svcs[k].dests && svcs[k].dests[i].healthy;
      assert i in svcs'[k].dests && svcs'[k].dests[i].healthy;
    }
  }

  lemma AddDestSettled(svcs: Services, active: set<IP>, anycast: set<IP>, current: set<IP>, k: ServiceKey, ip: IP,
                       d: Dest)
    requires Settled(svcs, active) && VipsOn(svcs, active, anycast, current)
    requires k in svcs && ip !in svcs[k].dests && !d.healthy && !d.active
    ensures var svcs' := SetDest(svcs, k, ip, d);
            && Settled(svcs', active) && VipsOn(svcs', active, anycast, current)
            && (AllPopulated(svcs) ==> AllPopulated(svcs'))
  {
    hide VipsOn;
    var svcs' := SetDest(svcs, k, ip, d);
    assert svcs[k] == Settle(svcs[k], active);
    assert Settle(svcs'[k], active).dests == svcs'[k].dests;
    VipsOnSame(svcs, svcs', active, anycast, current);
    if AllPopulated(svcs) && svcs[k].healthy {
      assert Populated(svcs[k]);
      var i :| i in svcs[k].dests && svcs[k].dests[i].healthy;
      assert svcs'[k].dests[i].healthy;
    }
  }

  lemma DropShape(s: Service, t: Service, ip: IP)
    requires Shape(s) == Shape(t)
    ensures Shape(s.(dests := s.dests - {ip})) == Shape(t.(dests := t.dests - {ip}))
  {
    var s', t' := s.(dests := s.dests - {ip}), t.(dests := t.dests - {ip});
    assert Shape(s).dests.Keys == s.dests.Keys && Shape(t).dests.Keys == t.dests.Keys;
    assert Shape(s').dests == Shape(s).dests - {ip};
    assert Shape(t').dests == Shape(t).dests - {ip};
  }

  lemma RoutesUnserved(st: State, svcs: Services, served: bool)
    requires RoutesSafe(st, svcs, served)
    ensures RoutesSafe(st, svcs, false)
  {
    forall ip | ip in st.routes
      ensures RouteSafe(st, svcs, false, ip)
    {
      assert RouteSafe(st, svcs, served, ip);
    }
  }

  /** With less promised about destinations, everything else stands. */
  lemma Unserved(st: State, svcs: Services, served: bool, trace: seq<Command>, views: seq<View>, begun: History)
    requires Agrees(st, svcs, served, {}) && TraceOK(trace, views, st, served, begun)
    ensures Agrees(st, svcs, false, {}) && TraceOK(trace, views, st, false, begun)
  {
    hide ServicesOK, TableFits, RoutesSafe;
    RoutesUnserved(st, svcs, served);
  }

  lemma SetDestOver(svcs: Services, k: ServiceKey, ip: IP, d: Dest, d': Dest)
    requires k in svcs
    ensures SetDest(SetDest(svcs, k, ip, d), k, ip, d') == SetDest(svcs, k, ip, d')
  {
    assert svcs[k].dests[ip := d][ip := d'] == svcs[k].dests[ip := d'];
  }

  lemma ShapeRefl(svcs: Services, k: ServiceKey)
    requires k in svcs
    ensures ShapesBut(svcs, svcs, k, svcs[k])
  {
    hide Shape;
  }

  lemma ShapeKeys(s: Service, t: Service)
    requires Shape(s) == Shape(t)
    ensures s.dests.Keys == t.dests.Keys && s.vip == t.vip && s.entry == t.entry && s.ipvsSvc == t.ipvsSvc
    ensures forall ip | ip in s.dests ::
              s.dests[ip].backend == t.dests[ip].backend && s.dests[ip].ipvsDst == t.dests[ip].ipvsDst
  {
    var a, b := Shape(s), Shape(t);
    assert a.dests.Keys == s.dests.Keys && b.dests.Keys == t.dests.Keys;
    forall ip | ip in s.dests
      ensures s.dests[ip].backend == t.dests[ip].backend && s.dests[ip].ipvsDst == t.dests[ip].ipvsDst
    {
      assert a.dests[ip] == b.dests[ip];
    }
  }

  lemma ShapeOfSet(s: Service, ip: IP, d: Dest)
    ensures Shape(s.(dests := s.dests[ip := d]))
         == Shape(s).(dests := Shape(s).dests[ip := d.(healthy := false, active := false)])
  {
    assert Shape(s.(dests := s.dests[ip := d])).dests == Shape(s).dests[ip := d.(healthy := false, active := false)];
  }

  lemma SetShape(s: Service, t: Service, ip: IP, d: Dest)
    requires Shape(s) == Shape(t)
    ensures Shape(s.(dests := s.dests[ip := d])) == Shape(t.(dests := t.dests[ip := d]))
  {
    hide Shape;
    ShapeOfSet(s, ip, d);
    ShapeOfSet(t, ip, d);
  }

  lemma ReflectShape(cfg: Config, k: ServiceKey, s: Service, t: Service)
    requires Shape(s) == Shape(t) && DestsReflect(cfg, k, t.entry, t.dests)
    ensures DestsReflect(cfg, k, s.entry, s.dests)
  {
    ShapeKeys(s, t);
    forall ip | ip in s.dests
      ensures DestReflects(cfg, k, s.entry, ip, s.dests[ip])
    {
      assert DestReflects(cfg, k, t.entry, ip, t.dests[ip]);
    }
  }

  /** Destinations of a service with those in `done` replaced by new ones. */
  function Merged(old_: map<IP, Dest>, new_: map<IP, Dest>, done: set<IP>): map<IP, Dest>
    requires done <= new_.Keys
  {
    map ip | ip in old_.Keys + done :: if ip in done then new_[ip] else old_[ip]
  }

  lemma MergedStep(old_: map<IP, Dest>, new_: map<IP, Dest>, done: set<IP>, ip: IP)
    requires done <= new_.Keys && ip in new_
    ensures Merged(old_, new_, done)[ip := new_[ip]] == Merged(old_, new_, done + {ip})
  {
  }

  lemma MergedEnds(old_: map<IP, Dest>, new_: map<IP, Dest>)
    ensures Merged(old_, new_, {}) == old_
    ensures Merged(old_, new_, new_.Keys) == old_ + new_
  {
  }

  lemma DropAllShape(s: Service, t: Service, gone: set<IP>)
    requires Shape(s) == Shape(t)
    ensures Shape(s.(dests := s.dests - gone)) == Shape(t.(dests := t.dests - gone))
  {
    assert Shape(s.(dests := s.dests - gone)).dests == Shape(s).dests - gone;
    assert Shape(t.(dests := t.dests - gone)).dests == Shape(t).dests - gone;
  }

  // ---- The services ----

  /** A service newly made from the configuration. */
  ghost predicate Fresh(cfg: Config, fwm: map<AF, nat>, anycast: set<IP>, k: ServiceKey, s: Service) {
    ServiceReflects(cfg, fwm, anycast, k, s) && !s.healthy && !s.active && s.dests == map[]
  }

  lemma NewFresh(cfg: Config, fwm: map<AF, nat>, anycast: set<IP>, af: AF, e: EntryKey)
    requires ConfigOK(cfg, anycast) && MarksOK(cfg, fwm) && cfg.Addr(af).Some? && e in cfg.entries
    ensures var k := KeyFor(cfg, fwm, af, e);
            Fresh(cfg, fwm, anycast, k, NewService(cfg, k, cfg.Addr(af).value, cfg.entries[e], anycast))
  {
  }

  /** New services for exactly the keys the configuration wants. */
  ghost predicate Expansion(cfg: Config, fwm: map<AF, nat>, anycast: set<IP>, new_: Services) {
    && (forall k :: k in new_ <==> Wanted(cfg, fwm, k))
    && (forall k | k in new_ :: Fresh(cfg, fwm, anycast, k, new_[k]))
  }

  lemma FreshOK(cfg: Config, fwm: map<AF, nat>, anycast: set<IP>, k: ServiceKey, s: Service)
    requires ConfigOK(cfg, anycast) && MarksOK(cfg, fwm) && Fresh(cfg, fwm, anycast, k, s)
    ensures ServiceOK(k, s) && cfg.Addr(s.vip.ip.af) == Some(s.vip.ip) && s.vip.ip in Addresses(cfg)
  {
    ReflectsOK(cfg, fwm, anycast, k, s);
  }

  /** An address of the right family that is not the configured one is not current. */
  lemma OldAddress(cfg: Config, anycast: set<IP>, ip: IP)
    requires ConfigOK(cfg, anycast) && cfg.Addr(ip.af) != Some(ip)
    ensures ip !in Addresses(cfg)
  {
    assert cfg.Addr(IPv4) == cfg.ipv4 && cfg.Addr(IPv6) == cfg.ipv6;
  }

  /** Settings survive whatever happens to health and activity. */
  lemma ReflectsShape(cfg: Config, fwm: map<AF, nat>, anycast: set<IP>, k: ServiceKey, s: Service, t: Service)
    requires Shape(s) == Shape(t) && ServiceReflects(cfg, fwm, anycast, k, t)
    ensures ServiceReflects(cfg, fwm, anycast, k, s)
  {
    hide Shape, EntryFor;
    ShapeKeys(s, t);
  }

  lemma BareShape(s: Service, t: Service)
    requires Bare(s) == Bare(t)
    ensures Shape(s) == Shape(t)
  {
    hide Bare, Shape;
    SettleBare(s, {});
    SettleBare(t, {});
  }

  lemma FamilyOf(st: State, svcs: Services, served: bool, k: ServiceKey)
    requires Agrees(st, svcs, served, {}) && k in svcs
    ensures svcs[k].vip.ip.af == k.af
  {
  }

  /** The new services outside `todo` have been filed; the others, old and new, are as they were. */
  ghost predicate ServicesMerged(cfg: Config, fwm: map<AF, nat>, anycast: set<IP>, svcs: Services, cur: Services,
                                 new_: Services, todo: set<ServiceKey>)
  {
    && cur.Keys == svcs.Keys + (new_.Keys - todo)
    && (forall k | k in new_ && k !in todo :: ServiceReflects(cfg, fwm, anycast, k, cur[k]))
    && (forall k | k in cur && (k !in new_ || k in todo) :: cur[k].vip == svcs[k].vip)
  }

  /** No service has gained a destination. */
  predicate DestsWithin(svcs: Services, cur: Services) {
    forall k, ip | k in cur && ip in cur[k].dests :: k in svcs && ip in svcs[k].dests
  }

  lemma DestsWithinStep(svcs: Services, cur: Services, cur': Services, k: ServiceKey)
    requires DestsWithin(svcs, cur) && cur'.Keys == cur.Keys + {k}
    requires forall ip | ip in cur'[k].dests :: k in cur && ip in cur[k].dests
    requires forall j | j in cur' && j != k :: Shape(cur'[j]) == Shape(cur[j])
    ensures DestsWithin(svcs, cur')
  {
    hide Shape;
    forall j | j in cur' && j != k
      ensures cur'[j].dests.Keys == cur[j].dests.Keys
    {
      ShapeKeys(cur'[j], cur[j]);
    }
  }

  lemma MergeStarts(cfg: Config, fwm: map<AF, nat>, anycast: set<IP>, svcs: Services, new_: Services)
    ensures ServicesMerged(cfg, fwm, anycast, svcs, svcs, new_, new_.Keys)
  {
  }

  lemma MergeStep(cfg: Config, fwm: map<AF, nat>, anycast: set<IP>, svcs: Services, cur: Services, cur': Services,
                  new_: Services, todo: set<ServiceKey>, k: ServiceKey)
    requires ServicesMerged(cfg, fwm, anycast, svcs, cur, new_, todo) && k in todo && k in new_
    requires cur'.Keys == cur.Keys + {k}
    requires ServiceReflects(cfg, fwm, anycast, k, cur'[k])
    requires forall j | j in cur' && j != k :: Shape(cur'[j]) == Shape(cur[j])
    ensures ServicesMerged(cfg, fwm, anycast, svcs, cur', new_, todo - {k})
  {
    hide Shape, ServiceReflects;
    assert new_.Keys - (todo - {k}) == new_.Keys - todo + {k};
    forall j | j in new_ && j !in todo - {k}
      ensures ServiceReflects(cfg, fwm, anycast, j, cur'[j])
    {
      if j != k {
        assert j !in todo;
        ReflectsShape(cfg, fwm, anycast, j, cur'[j], cur[j]);
      }
    }
    forall j | j in cur' && j != k
      ensures cur'[j].vip == cur[j].vip
    {
      ShapeKeys(cur'[j], cur[j]);
    }
  }

  lemma ResettleReflects(cfg: Config, fwm: map<AF, nat>, anycast: set<IP>, k: ServiceKey, s: Service, new_: Service)
    requires ServiceReflects(cfg, fwm, anycast, k, new_)
    ensures ServiceReflects(cfg, fwm, anycast, k, Resettle(s, new_))
  {
  }

  lemma AddedShapes(cfg: Config, fwm: map<AF, nat>, anycast: set<IP>, svcs: Services, cur: Services, now: Services,
                    k: ServiceKey, new_: Service)
    requires cur.Keys == svcs.Keys - {k} && now.Keys == cur.Keys + {k}
    requires forall j | j in cur :: Bare(cur[j]) == Bare(svcs[j])
    requires forall j | j in now :: Bare(now[j]) == Bare(if j == k then new_ else cur[j])
    requires Fresh(cfg, fwm, anycast, k, new_)
    ensures ServiceReflects(cfg, fwm, anycast, k, now[k]) && now[k].dests == map[]
    ensures forall j | j in now && j != k :: Shape(now[j]) == Shape(svcs[j])
  {
    hide Bare, Shape, ServiceReflects;
    forall j | j in now
      ensures Shape(now[j]) == Shape(if j == k then new_ else svcs[j])
    {
      BareShape(now[j], if j == k then new_ else svcs[j]);
    }
    ReflectsShape(cfg, fwm, anycast, k, now[k], new_);
    ShapeKeys(now[k], new_);
  }

  /** Services outside `todo` are wanted and have the destinations of the configuration; the unwanted ones left are on
      old addresses. */
  ghost predicate ServicesReconciled(cfg: Config, fwm: map<AF, nat>, anycast: set<IP>, cur: Services, new_: Services,
                                     todo: set<ServiceKey>)
  {
    && cur.Keys == new_.Keys + todo
    && (forall k | k in new_ :: ServiceReflects(cfg, fwm, anycast, k, cur[k]))
    && (forall k | k in cur && k !in new_ :: cur[k].vip.ip !in Addresses(cfg))
    && (forall k | k in new_ && k !in todo :: DestsReflect(cfg, k, cur[k].entry, cur[k].dests))
  }

  lemma KeysLess(cur: set<ServiceKey>, cur': set<ServiceKey>, wanted: set<ServiceKey>, todo: set<ServiceKey>,
                 k: ServiceKey)
    requires cur == wanted + todo && k in todo && cur' == if k in wanted then cur else cur - {k}
    ensures cur' == wanted + (todo - {k})
  {
  }

  lemma ReconcileStep(cfg: Config, fwm: map<AF, nat>, anycast: set<IP>, cur: Services, cur': Services, new_: Services,
                      todo: set<ServiceKey>, k: ServiceKey)
    requires ServicesReconciled(cfg, fwm, anycast, cur, new_, todo) && k in todo
    requires cur'.Keys == if k in new_ then cur.Keys else cur.Keys - {k}
    requires forall j | j in cur' && j != k :: Shape(cur'[j]) == Shape(cur[j])
    requires k in new_ ==>
             ServiceReflects(cfg, fwm, anycast, k, cur'[k]) && DestsReflect(cfg, k, cur'[k].entry, cur'[k].dests)
    ensures ServicesReconciled(cfg, fwm, anycast, cur', new_, todo - {k})
  {
    hide Shape, ServiceReflects, DestsReflect, Addresses;
    KeysLess(cur.Keys, cur'.Keys, new_.Keys, todo, k);
    forall j | j in cur' && j != k
      ensures cur'[j].vip == cur[j].vip
      ensures ServiceReflects(cfg, fwm, anycast, j, cur[j]) ==> ServiceReflects(cfg, fwm, anycast, j, cur'[j])
      ensures DestsReflect(cfg, j, cur[j].entry, cur[j].dests) ==> DestsReflect(cfg, j, cur'[j].entry, cur'[j].dests)
    {
      ShapeReflects(cfg, fwm, anycast, j, cur'[j], cur[j]);
    }
  }

  lemma ShapeReflects(cfg: Config, fwm: map<AF, nat>, anycast: set<IP>, k: ServiceKey, s: Service, t: Service)
    requires Shape(s) == Shape(t)
    ensures s.vip == t.vip
    ensures ServiceReflects(cfg, fwm, anycast, k, t) ==> ServiceReflects(cfg, fwm, anycast, k, s)
    ensures DestsReflect(cfg, k, t.entry, t.dests) ==> DestsReflect(cfg, k, s.entry, s.dests)
  {
    hide Shape, ServiceReflects, DestsReflect;
    ShapeKeys(s, t);
    if ServiceReflects(cfg, fwm, anycast, k, t) {
      ReflectsShape(cfg, fwm, anycast, k, s, t);
    }
    if DestsReflect(cfg, k, t.entry, t.dests) {
      ReflectShape(cfg, k, s, t);
    }
  }

  /** Services that remain have kept their destinations. */
  predicate KeepsDests(svcs: Services, cur: Services) {
    forall k, ip | k in svcs && k in cur && ip in svcs[k].dests :: ip in cur[k].dests
  }

  /** The destinations of services in `todo` are as they were. */
  predicate Untouched(svcs: Services, cur: Services, todo: set<ServiceKey>) {
    forall k | k in todo :: k in svcs && k in cur && cur[k].dests.Keys == svcs[k].dests.Keys
  }

  lemma KeepsStep(svcs: Services, cur: Services, cur': Services, todo: set<ServiceKey>, k: ServiceKey)
    requires Untouched(svcs, cur, todo) && k in todo
    requires cur.Keys - {k} <= cur'.Keys <= cur.Keys
    requires forall j | j in cur' && j != k :: Shape(cur'[j]) == Shape(cur[j])
    ensures Untouched(svcs, cur', todo - {k})
    ensures KeepsDests(svcs, cur') ==> KeepsDests(svcs, cur) && (k in cur' ==> cur[k].dests.Keys <= cur'[k].dests.Keys)
  {
    hide Shape;
    forall j | j in cur' && j != k
      ensures cur'[j].dests.Keys == cur[j].dests.Keys
    {
      ShapeKeys(cur'[j], cur[j]);
    }
    forall j | j in todo - {k}
      ensures j in svcs && j in cur' && cur'[j].dests.Keys == svcs[j].dests.Keys
    {
      assert j in cur.Keys - {k};
    }
  }

  lemma BareVip(s: Service, t: Service)
    requires Bare(s) == Bare(t)
    ensures s.vip == t.vip
  {
    assert Bare(s).vip == s.vip && Bare(t).vip == t.vip;
  }

  lemma BareShapes(svcs: Services, cur: Services)
    requires forall j | j in cur :: j in svcs && Bare(cur[j]) == Bare(svcs[j])
    ensures forall j | j in cur :: Shape(cur[j]) == Shape(svcs[j])
  {
    hide Bare, Shape;
    forall j | j in cur
      ensures Shape(cur[j]) == Shape(svcs[j])
    {
      BareShape(cur[j], svcs[j]);
    }
  }

  lemma UntouchedStarts(svcs: Services)
    ensures Untouched(svcs, svcs, svcs.Keys)
  {
  }

  lemma WantedAddress(cfg: Config, fwm: map<AF, nat>, anycast: set<IP>, k: ServiceKey, s: Service)
    requires ConfigOK(cfg, anycast) && ServiceReflects(cfg, fwm, anycast, k, s)
    ensures s.vip.ip in Addresses(cfg) && cfg.Addr(s.vip.ip.af) == Some(s.vip.ip)
  {
  }

  lemma SameSettings(cfg: Config, fwm: map<AF, nat>, anycast: set<IP>, k: ServiceKey, s: Service, t: Service)
    requires ServiceReflects(cfg, fwm, anycast, k, s)
    requires t.vip == s.vip && t.entry == s.entry && t.ipvsSvc == s.ipvsSvc
    ensures ServiceReflects(cfg, fwm, anycast, k, t)
  {
  }

  // ---- The interface ----

  lemma MoreOnInterface(st: State, active: set<IP>, vips: set<VIP>, lb: map<IP, Snapshot>, anycast: set<IP>,
                        enabled: bool, vip: VIP, snap: Snapshot)
    requires InterfaceFits(st, active, vips, lb, anycast, enabled)
    requires !vip.kind.AnycastVIP? && vip.ip !in anycast && snap.Addr(vip.ip.af) == Some(vip.ip)
    requires forall w | w in vips :: w.ip != vip.ip
    ensures vip.ip !in st.vservers && vip !in st.vips
    ensures forall ip | ip in st.routes :: VIP(ip, AnycastVIP) in st.vips && ip in st.vservers
    ensures InterfaceFits(st.(vservers := st.vservers[vip.ip := snap], vips := st.vips + {vip}), active, vips + {vip},
                          lb[vip.ip := snap], anycast, enabled)
  {
    assert VIP(vip.ip, UnicastVIP) !in vips && VIP(vip.ip, DedicatedVIP) !in vips;
    assert vip == VIP(vip.ip, UnicastVIP) || vip == VIP(vip.ip, DedicatedVIP);
  }

  /** The commands that put a unicast or dedicated VIP on the interface. */
  lemma ConfigureVIPStep(st: State, svcs: Services, served: bool, active: set<IP>, vips: set<VIP>,
                         lb: map<IP, Snapshot>, anycast: set<IP>, enabled: bool, vip: VIP, snap: Snapshot)
    requires Agrees(st, svcs, served, {}) && InterfaceFits(st, active, vips, lb, anycast, enabled)
    requires !vip.kind.AnycastVIP? && vip.ip !in anycast && snap.Addr(vip.ip.af) == Some(vip.ip)
    requires forall w | w in vips :: w.ip != vip.ip
    ensures var s1 := Exec(st, AddVserver(snap, vip.ip.af));
            s1.Some? && RoutesSafe(s1.value, svcs, served) &&
            var s2 := Exec(s1.value, AddVIP(vip));
            && s2.Some? && s2.value.ipvs == st.ipvs
            && Agrees(s2.value, svcs, served, {}) && RoutesSafe(s2.value, svcs, served)
            && InterfaceFits(s2.value, active, vips + {vip}, lb[vip.ip := snap], anycast, enabled)
  {
    hide TableFits, ServicesOK, RouteSafe, InterfaceFits;
    var s1 := st.(vservers := st.vservers[vip.ip := snap]);
    var s2 := s1.(vips := s1.vips + {vip});
    MoreOnInterface(st, active, vips, lb, anycast, enabled, vip, snap);
    RoutesOnInterface(st, s1, svcs, served);
    RoutesOnInterface(st, s2, svcs, served);
  }

  /** The commands that take one off, with the very description it was put on with. */
  lemma OffInterface(st: State, active: set<IP>, vips: set<VIP>, lb: map<IP, Snapshot>, anycast: set<IP>, enabled: bool,
                     vip: VIP)
    requires InterfaceFits(st, active, vips, lb, anycast, enabled) && vip in vips
    ensures st.vservers == lb && vip.ip in lb && lb[vip.ip].Addr(vip.ip.af) == Some(vip.ip) && vip in st.vips
    ensures vip.ip !in st.routes && !vip.kind.AnycastVIP?
    ensures forall ip | ip in st.routes :: VIP(ip, AnycastVIP) in st.vips && ip in st.vservers
    ensures InterfaceFits(st.(vips := st.vips - {vip}, vservers := st.vservers - {vip.ip}), active, vips - {vip},
                          lb - {vip.ip}, anycast, enabled)
  {
    assert vip == VIP(vip.ip, UnicastVIP) || vip == VIP(vip.ip, DedicatedVIP);
  }

  lemma UnconfigureVIPStep(st: State, svcs: Services, served: bool, active: set<IP>, vips: set<VIP>,
                           lb: map<IP, Snapshot>, anycast: set<IP>, enabled: bool, vip: VIP)
    requires Agrees(st, svcs, served, {}) && InterfaceFits(st, active, vips, lb, anycast, enabled)
    requires vip in vips
    ensures vip.ip in lb
    ensures var s1 := Exec(st, DeleteVIP(vip));
            s1.Some? && RoutesSafe(s1.value, svcs, served) &&
            var s2 := Exec(s1.value, DeleteVserver(lb[vip.ip], vip.ip.af));
            && s2.Some? && Agrees(s2.value, svcs, served, {})
            && InterfaceFits(s2.value, active, vips - {vip}, lb - {vip.ip}, anycast, enabled)
  {
    hide TableFits, ServicesOK, RouteSafe, InterfaceFits;
    var s1 := st.(vips := st.vips - {vip});
    var s2 := s1.(vservers := s1.vservers - {vip.ip});
    OffInterface(st, active, vips, lb, anycast, enabled, vip);
    RoutesOnInterface(st, s1, svcs, served);
    RoutesOnInterface(st, s2, svcs, served);
  }

  /** The VIPs a configuration keeps on the interface at all times. */
  function FixedVIPs(cfg: Config): set<VIP> {
    set vip | vip in cfg.vips && !vip.kind.AnycastVIP?
  }

  /** No address changes its VIP type. */
  predicate TypesStable(vips: set<VIP>, cfg: Config) {
    forall w, u | w in vips && u in cfg.vips && w.ip == u.ip :: w == u
  }

  function ServiceIPs(svcs: Services): set<IP> {
    set k | k in svcs :: svcs[k].vip.ip
  }

  // ---- Starting and stopping ----

  /** The table is empty exactly when no service is up. */
  lemma EmptyTableIff(ipvs: map<SvcId, IpvsEntry>, svcs: Services)
    requires TableFits(ipvs, svcs, {})
    ensures ipvs == map[] <==> forall k | k in svcs :: !svcs[k].active
  {
    forall k | k in svcs
      ensures svcs[k].active ==> IdOf(svcs[k].ipvsSvc) in ipvs
    {
      assert ServiceFits(ipvs, svcs[k], svcs[k].active || k in {});
    }
    forall id | id in ipvs
      ensures svcs[KeyOf(id)].active
    {
      assert ServiceFits(ipvs, svcs[KeyOf(id)], svcs[KeyOf(id)].active || KeyOf(id) in {});
    }
    if forall k | k in svcs :: !svcs[k].active {
      assert ipvs.Keys == {};
    }
  }

  /** With no address active, nothing is in IPVS. */
  lemma IdleTable(st: State, svcs: Services, served: bool)
    requires Agrees(st, svcs, served, {}) && Settled(svcs, {})
    ensures st.ipvs == map[]
    ensures forall k | k in svcs :: !svcs[k].active
  {
    hide TableFits;
    forall k | k in svcs
      ensures !svcs[k].active
    {
      SettledService(svcs, {}, k);
    }
    EmptyTableIff(st.ipvs, svcs);
  }

  /** Nothing up, and nothing healthy. */
  predicate AllDown(svcs: Services) {
    forall k | k in svcs ::
      && !svcs[k].healthy && !svcs[k].active
      && forall ip | ip in svcs[k].dests :: !svcs[k].dests[ip].healthy && !svcs[k].dests[ip].active
  }

  /** New records on an empty table are in order. */
  lemma FreshStart(cfg: Config, fwm: map<AF, nat>, anycast: set<IP>, st: State, svcs: Services, served: bool,
                   current: set<IP>)
    requires ConfigOK(cfg, anycast) && MarksOK(cfg, fwm) && Reflects(cfg, fwm, anycast, svcs) && AllDown(svcs)
    requires st.ipvs == map[] && st.routes == {}
    ensures Agrees(st, svcs, served, {}) && Settled(svcs, {}) && VipsOn(svcs, {}, anycast, current) &&
            AllPopulated(svcs)
  {
    hide ConfigOK, MarksOK, Reflects, AllDown, ServicesOK, Settled, VipsOn, AllPopulated;
    FreshServices(cfg, fwm, anycast, svcs);
    DownSettled(svcs, anycast, current);
    DownFits(st.ipvs, svcs);
  }

  lemma FreshServices(cfg: Config, fwm: map<AF, nat>, anycast: set<IP>, svcs: Services)
    requires ConfigOK(cfg, anycast) && MarksOK(cfg, fwm) && Reflects(cfg, fwm, anycast, svcs)
    ensures ServicesOK(svcs)
  {
    hide ConfigOK, MarksOK, Wanted, ServiceReflects, DestsReflect, ServiceOK;
    forall k | k in svcs
      ensures ServiceOK(k, svcs[k])
    {
      FreshService(cfg, fwm, anycast, k, svcs[k]);
    }
  }

  lemma FreshService(cfg: Config, fwm: map<AF, nat>, anycast: set<IP>, k: ServiceKey, s: Service)
    requires ConfigOK(cfg, anycast) && MarksOK(cfg, fwm)
    requires ServiceReflects(cfg, fwm, anycast, k, s) && DestsReflect(cfg, k, s.entry, s.dests)
    ensures ServiceOK(k, s)
  {
    hide ConfigOK, MarksOK;
    assert forall ip | ip in s.dests :: DestReflects(cfg, k, s.entry, ip, s.dests[ip]);
    ReflectsOK(cfg, fwm, anycast, k, s);
  }

  lemma DownSettled(svcs: Services, anycast: set<IP>, current: set<IP>)
    requires AllDown(svcs)
    ensures Settled(svcs, {}) && VipsOn(svcs, {}, anycast, current) && AllPopulated(svcs)
  {
    forall k | k in svcs
      ensures svcs[k] == Settle(svcs[k], {})
    {
      assert Settle(svcs[k], {}).dests == svcs[k].dests;
    }
  }

  lemma DownFits(ipvs: map<SvcId, IpvsEntry>, svcs: Services)
    requires AllDown(svcs) && ServicesOK(svcs) && ipvs == map[]
    ensures TableFits(ipvs, svcs, {})
  {
    hide ServiceOK;
  }

  /** Records replaced while services are up leave the table with entries that no record accounts for: a fresh set of
      records agrees with the table exactly when no service was up. */
  lemma FreshAgreesIff(st: State, svcs: Services, new_: Services)
    requires ServicesOK(svcs) && TableFits(st.ipvs, svcs, {}) && ServicesOK(new_) && AllDown(new_)
    ensures TableFits(st.ipvs, new_, {}) <==> forall k | k in svcs :: !svcs[k].active
  {
    EmptyTableIff(st.ipvs, svcs);
    if TableFits(st.ipvs, new_, {}) {
      EmptyTableIff(st.ipvs, new_);
    }
  }

  /** An empty interface is one with nothing on it. */
  lemma EmptyInterface(st: State, lb: map<IP, Snapshot>, anycast: set<IP>, enabled: bool)
    requires InterfaceFits(st, {}, {}, lb, anycast, enabled) && st.ipvs == map[]
    ensures st == EMPTY
  {
    assert st.vips == {};
    assert st.vservers.Keys == {};
  }

  lemma MergePending(cfg: Config, fwm: map<AF, nat>, anycast: set<IP>, svcs: Services, cur: Services, new_: Services,
                     todo: set<ServiceKey>, k: ServiceKey)
    requires ServicesMerged(cfg, fwm, anycast, svcs, cur, new_, todo) && k in todo
    ensures k in svcs ==> k in cur && cur[k].vip == svcs[k].vip
    ensures k !in svcs ==> k !in cur
  {
  }

  /** A service the configuration does not want is on an address it does not have. */
  ghost predicate UnwantedElsewhere(cfg: Config, fwm: map<AF, nat>, svcs: Services) {
    forall k | k in svcs && !Wanted(cfg, fwm, k) :: svcs[k].vip.ip !in Addresses(cfg)
  }

  lemma MergedReconciled(cfg: Config, fwm: map<AF, nat>, anycast: set<IP>, svcs: Services, cur: Services,
                         new_: Services)
    requires ServicesMerged(cfg, fwm, anycast, svcs, cur, new_, {}) && Expansion(cfg, fwm, anycast, new_)
    requires UnwantedElsewhere(cfg, fwm, svcs)
    ensures ServicesReconciled(cfg, fwm, anycast, cur, new_, cur.Keys)
  {
    hide ServiceReflects, Wanted, Addresses;
  }

  lemma ReconciledReflects(cfg: Config, fwm: map<AF, nat>, anycast: set<IP>, cur: Services, new_: Services)
    requires ServicesReconciled(cfg, fwm, anycast, cur, new_, {}) && Expansion(cfg, fwm, anycast, new_)
    ensures Reflects(cfg, fwm, anycast, cur)
  {
    hide ServiceReflects, DestsReflect, Wanted, Addresses;
  }

  /** Once no service is left on an old address, the addresses are exact. */
  lemma VipsOnExact(cfg: Config, fwm: map<AF, nat>, anycast: set<IP>, svcs: Services, active: set<IP>)
    requires ConfigOK(cfg, anycast) && Reflects(cfg, fwm, anycast, svcs) &&
             VipsOn(svcs, active, anycast, Addresses(cfg))
    ensures VipsExact(svcs, active, anycast)
    ensures forall k | k in svcs :: cfg.Addr(svcs[k].vip.ip.af) == Some(svcs[k].vip.ip)
  {
    hide Wanted, DestsReflect, ConfigOK;
    forall k | k in svcs
      ensures svcs[k].vip.ip in Addresses(cfg) && cfg.Addr(svcs[k].vip.ip.af) == Some(svcs[k].vip.ip)
    {
      WantedAddress(cfg, fwm, anycast, k, svcs[k]);
    }
  }

  /** Keeping the VIPs that services need, and adding the configured ones, gives the configured ones. */
  lemma FixedAfter(cfg: Config, fwm: map<AF, nat>, anycast: set<IP>, svcs: Services, vips: set<VIP>, kept: set<VIP>)
    requires ConfigOK(cfg, anycast) && Reflects(cfg, fwm, anycast, svcs) &&
             (cfg.entries != map[] ==> TypesStable(vips, cfg))
    requires forall vip | vip in vips :: !vip.kind.AnycastVIP?
    requires forall vip :: vip in kept <==> vip in vips && vip.ip in ServiceIPs(svcs)
    ensures TypesStable(kept, cfg) && kept + FixedVIPs(cfg) == FixedVIPs(cfg)
  {
    hide Wanted, DestsReflect;
    forall vip | vip in kept
      ensures vip in FixedVIPs(cfg)
    {
      var k :| k in svcs && svcs[k].vip.ip == vip.ip;
      assert ServiceReflects(cfg, fwm, anycast, k, svcs[k]);
      var u :| u in cfg.vips && u.ip == vip.ip;
    }
  }

  lemma VipsOnFrom(svcs: Services, active: set<IP>, anycast: set<IP>, current: set<IP>)
    requires VipsExact(svcs, active, anycast)
    ensures VipsOn(svcs, active, anycast, current)
  {
  }

  lemma KeepsThrough(svcs: Services, mid: Services, cur: Services)
    requires DestsWithin(svcs, mid) && KeepsDests(svcs, cur)
    ensures KeepsDests(mid, cur)
  {
  }

  /** A service of the new configuration that is left without a destination map gets no destination. */
  ghost predicate MapsAllow(cfg: Config, fwm: map<AF, nat>, svcs: Services, mapless: set<ServiceKey>) {
    forall k | Wanted(cfg, fwm, k) && cfg.useFWM ::
      NoBackends(cfg, k.af) || (k in svcs && k !in mapless && cfg.Addr(k.af) == Some(svcs[k].vip.ip))
  }

  /** Which services have no destination map once those outside `todo` are merged: firewall-mark services that are new
      or at a new address, and those that had none. */
  ghost predicate MapsMerged(was: Services, new_: Services, useFWM: bool, before: set<ServiceKey>, now: set<ServiceKey>,
                             todo: set<ServiceKey>)
  {
    forall k :: k in now <==>
      if k in new_ && k !in todo && !(k in was && was[k].vip.ip == new_[k].vip.ip) then useFWM else k in before
  }

  lemma MapsStart(was: Services, new_: Services, useFWM: bool, before: set<ServiceKey>)
    ensures MapsMerged(was, new_, useFWM, before, before, new_.Keys)
  {
  }

  lemma MapsStep(was: Services, new_: Services, useFWM: bool, before: set<ServiceKey>, now: set<ServiceKey>,
                 now': set<ServiceKey>, todo: set<ServiceKey>, k: ServiceKey)
    requires MapsMerged(was, new_, useFWM, before, now, todo) && k in todo && k in new_
    requires now' == if k in was && was[k].vip.ip == new_[k].vip.ip then now
                     else (if k in was then now - {k} else now) + (if useFWM then {k} else {})
    requires before <= was.Keys
    ensures MapsMerged(was, new_, useFWM, before, now', todo - {k})
  {
  }

  /** After the merge no service without a map has a backend in its family. */
  lemma MapsSpare(cfg: Config, fwm: map<AF, nat>, anycast: set<IP>, was: Services, new_: Services,
                  before: set<ServiceKey>,
                  now: set<ServiceKey>)
    requires Expansion(cfg, fwm, anycast, new_) && MapsAllow(cfg, fwm, was, before)
    requires MapsMerged(was, new_, cfg.useFWM, before, now, {}) && (!cfg.useFWM ==> before == {})
    ensures forall k | k in now && k in new_ :: NoBackends(cfg, k.af)
  {
    hide Wanted, NoBackends;
    forall k | k in now && k in new_
      ensures NoBackends(cfg, k.af)
    {
      assert ServiceReflects(cfg, fwm, anycast, k, new_[k]);
    }
  }

  /** No destinations are made for a service in a family without backends. */
  lemma NoDests(cfg: Config, k: ServiceKey, entry: Entry, dests: map<IP, Dest>)
    requires DestsReflect(cfg, k, entry, dests) && NoBackends(cfg, k.af)
    ensures dests == map[]
  {
    assert forall ip | ip in dests :: DestReflects(cfg, k, entry, ip, dests[ip]);
  }

  predicate SameDestKeys(svcs: Services, svcs': Services) {
    svcs'.Keys == svcs.Keys && forall k | k in svcs :: svcs'[k].dests.Keys == svcs[k].dests.Keys
  }

  lemma KeepsSame(svcs: Services, a: Services, b: Services)
    requires SameDestKeys(a, b)
    ensures KeepsDests(svcs, a) == KeepsDests(svcs, b)
  {
  }

  lemma InterfaceVIPs(st: State, active: set<IP>, vips: set<VIP>, lb: map<IP, Snapshot>, anycast: set<IP>,
                      enabled: bool)
    requires InterfaceFits(st, active, vips, lb, anycast, enabled)
    ensures forall vip | vip in vips :: !vip.kind.AnycastVIP?
  {
  }

  /** States do not affect links. */
  lemma CarriedLinked(svcs: Services, new_: map<CheckKey, Check>, carried: map<CheckKey, Check>)
    requires ChecksLinked(svcs, new_) && carried.Keys == new_.Keys
    requires forall c | c in new_ :: carried[c].dests == new_[c].dests
    ensures ChecksLinked(svcs, carried)
  {
  }

  /** An update that keeps the layout finds unwanted services only where a family has lost its address. */
  lemma LayoutElsewhere(old_: Config, cfg: Config, fwm: map<AF, nat>, anycast: set<IP>, svcs: Services)
    requires ConfigOK(old_, anycast) && ConfigOK(cfg, anycast) && SameLayout(old_, cfg)
    requires Reflects(old_, fwm, anycast, svcs)
    ensures UnwantedElsewhere(cfg, fwm, svcs)
  {
    forall k | k in svcs && !Wanted(cfg, fwm, k)
      ensures svcs[k].vip.ip !in Addresses(cfg)
    {
      LayoutWanted(old_, cfg, fwm, k);
      assert ServiceReflects(old_, fwm, anycast, k, svcs[k]);
      OldAddress(cfg, anycast, svcs[k].vip.ip);
    }
  }

  lemma LayoutWanted(old_: Config, cfg: Config, fwm: map<AF, nat>, k: ServiceKey)
    requires SameLayout(old_, cfg) && Wanted(old_, fwm, k)
    ensures cfg.Addr(k.af).Some? ==> Wanted(cfg, fwm, k)
  {
    var e :| e in old_.entries && k == KeyFor(old_, fwm, k.af, e);
    assert e in cfg.entries && k == KeyFor(cfg, fwm, k.af, e);
  }

  /** A firewall-mark vserver that gets no new address has all its services already. */
  /** The services without a destination map, as the families that have none. */
  predicate MapsTell(svcs: Services, mapless: set<ServiceKey>, bare: set<AF>) {
    mapless <= svcs.Keys && (forall k | k in svcs :: k in mapless <==> k.af in bare)
    && (forall af | af in bare :: exists k :: k in mapless && k.af == af)
  }

  lemma LayoutMaps(old_: Config, cfg: Config, fwm: map<AF, nat>, anycast: set<IP>, svcs: Services,
                   mapless: set<ServiceKey>,
                   bare: set<AF>)
    requires SameLayout(old_, cfg) && UpdateOK(old_, cfg, bare) && Reflects(old_, fwm, anycast, svcs)
    requires MapsTell(svcs, mapless, bare)
    ensures MapsAllow(cfg, fwm, svcs, mapless)
  {
    forall k | Wanted(cfg, fwm, k) && cfg.useFWM && !NoBackends(cfg, k.af)
      ensures k in svcs && k !in mapless && cfg.Addr(k.af) == Some(svcs[k].vip.ip)
    {
      assert k.af !in BareAfter(old_, cfg, bare);
      LayoutWanted(cfg, old_, fwm, k);
      assert ServiceReflects(old_, fwm, anycast, k, svcs[k]);
    }
  }

  /** The families without a destination map after an update in place. */
  lemma MapsAfter(old_: Config, cfg: Config, fwm: map<AF, nat>, anycast: set<IP>, was: Services, svcs: Services,
                  before: set<ServiceKey>, merged: set<ServiceKey>, bare: set<AF>)
    requires SameLayout(old_, cfg) && ConfigOK(cfg, anycast)
    requires Reflects(old_, fwm, anycast, was) && Reflects(cfg, fwm, anycast, svcs)
    requires MapsTell(was, before, bare) && MapsMerged(was, svcs, cfg.useFWM, before, merged, {})
    requires !cfg.useFWM ==> bare == {}
    ensures MapsTell(svcs, merged * svcs.Keys, BareAfter(old_, cfg, bare))
  {
    hide MapsMerged, Reflects, SameLayout;
    var bare', now := BareAfter(old_, cfg, bare), merged * svcs.Keys;
    forall k | k in svcs
      ensures k in now <==> k.af in bare'
    {
      OneMapAfter(old_, cfg, fwm, anycast, was, svcs, before, merged, bare, k);
    }
    forall af | af in bare'
      ensures exists k :: k in now && k.af == af
    {
      var k := ServiceOf(cfg, fwm, anycast, svcs, af);
    }
  }

  lemma ServiceOf(cfg: Config, fwm: map<AF, nat>, anycast: set<IP>, svcs: Services, af: AF) returns (k: ServiceKey)
    requires ConfigOK(cfg, anycast) && Reflects(cfg, fwm, anycast, svcs) && cfg.useFWM && cfg.Addr(af).Some?
    ensures k in svcs && k.af == af
  {
    var e :| e in cfg.entries;
    k := KeyFor(cfg, fwm, af, e);
    assert Wanted(cfg, fwm, k);
  }

  lemma OneMapAfter(old_: Config, cfg: Config, fwm: map<AF, nat>, anycast: set<IP>, was: Services, svcs: Services,
                    before: set<ServiceKey>, merged: set<ServiceKey>, bare: set<AF>, k: ServiceKey)
    requires SameLayout(old_, cfg) && k in svcs
    requires Reflects(old_, fwm, anycast, was) && Reflects(cfg, fwm, anycast, svcs)
    requires MapsTell(was, before, bare) && MapsMerged(was, svcs, cfg.useFWM, before, merged, {})
    requires !cfg.useFWM ==> bare == {}
    ensures k in merged <==> k.af in BareAfter(old_, cfg, bare)
  {
    hide SameLayout;
    assert Wanted(cfg, fwm, k) && ServiceReflects(cfg, fwm, anycast, k, svcs[k]);
    hide Reflects, Wanted, ServiceReflects;
    SameWhere(old_, cfg, fwm, anycast, was, k, svcs[k]);
  }

  lemma NewMapAfter(old_: Config, cfg: Config, fwm: map<AF, nat>, anycast: set<IP>, was: Services, new_: Services,
                    before: set<ServiceKey>, merged: set<ServiceKey>, bare: set<AF>, k: ServiceKey)
    requires SameLayout(old_, cfg) && k in new_
    requires Reflects(old_, fwm, anycast, was) && Expansion(cfg, fwm, anycast, new_)
    requires MapsTell(was, before, bare) && MapsMerged(was, new_, cfg.useFWM, before, merged, {})
    requires !cfg.useFWM ==> bare == {}
    ensures k in merged <==> k.af in BareAfter(old_, cfg, bare)
  {
    hide SameLayout;
    assert Wanted(cfg, fwm, k) && ServiceReflects(cfg, fwm, anycast, k, new_[k]);
    hide Reflects, Wanted, ServiceReflects;
    SameWhere(old_, cfg, fwm, anycast, was, k, new_[k]);
  }

  /** A service is at the address it was exactly if the configuration has kept its family's address. */
  lemma SameWhere(old_: Config, cfg: Config, fwm: map<AF, nat>, anycast: set<IP>, was: Services, k: ServiceKey,
                  s: Service)
    requires SameLayout(old_, cfg) && Reflects(old_, fwm, anycast, was)
    requires Wanted(cfg, fwm, k) && ServiceReflects(cfg, fwm, anycast, k, s)
    ensures k in was && was[k].vip.ip == s.vip.ip <==> old_.Addr(k.af) == cfg.Addr(k.af)
    ensures cfg.Addr(k.af).Some?
  {
    if k in was {
      assert ServiceReflects(old_, fwm, anycast, k, was[k]);
    } else if old_.Addr(k.af).Some? {
      LayoutWanted(cfg, old_, fwm, k);
    }
  }

  /** More marks change nothing where the ones needed are there. */
  lemma ReflectsMore(cfg: Config, fwm: map<AF, nat>, fwm': map<AF, nat>, anycast: set<IP>, svcs: Services)
    requires MarksOK(cfg, fwm) && Reflects(cfg, fwm, anycast, svcs)
    requires forall af | af in fwm :: af in fwm' && fwm'[af] == fwm[af]
    ensures Reflects(cfg, fwm', anycast, svcs)
  {
    forall k: ServiceKey, e: EntryKey | cfg.Addr(k.af).Some?
      ensures KeyFor(cfg, fwm', k.af, e) == KeyFor(cfg, fwm, k.af, e)
    {
    }
    forall k
      ensures Wanted(cfg, fwm', k) == Wanted(cfg, fwm, k)
    {
    }
  }

  lemma UpdateTypes(old_: Config, cfg: Config, bare: set<AF>)
    requires UpdateOK(old_, cfg, bare)
    ensures cfg.entries != map[] ==> TypesStable(FixedVIPs(old_), cfg)
  {
  }

  lemma AllLoose(svcs: Services, active: set<IP>)
    requires Settled(svcs, active)
    ensures forall j | j in svcs :: Loose(svcs[j])
  {
    forall j | j in svcs
      ensures Loose(svcs[j])
    {
      var s := svcs[j];
      assert s == Settle(s, active);
      assert s.active ==> s.(active := true) == s;
    }
  }

  lemma SettleLess(svcs: Services, active: set<IP>, active': set<IP>, k: ServiceKey, ip: IP)
    requires k in svcs && Settled(svcs, active) && svcs[k].vip.ip == ip && active' == active - {ip}
    ensures var svcs' := SettleIP(svcs, ip, active');
            && Settled(svcs', active') && svcs'.Keys == svcs.Keys && forall j | j in svcs :: svcs'[j].vip == svcs[j].vip
  {
    hide Settle, Bare;
    SettleAddress(svcs, active, active', k, ip);
    SettledFlags(svcs, active');
  }

  lemma ActiveServed(svcs: Services, active: set<IP>, anycast: set<IP>)
    requires VipsExact(svcs, active, anycast)
    ensures active <= ServiceIPs(svcs)
  {
    forall ip | ip in active
      ensures ip in ServiceIPs(svcs)
    {
      assert VipHealth(svcs, ip, anycast);
      var k :| k in svcs && svcs[k].vip.ip == ip && svcs[k].healthy;
    }
  }

  lemma IdleDests(st: State, svcs: Services, served: bool)
    requires Agrees(st, svcs, served, {}) && Settled(svcs, {})
    ensures forall k, ip | k in svcs && ip in svcs[k].dests :: !svcs[k].dests[ip].active
  {
    hide Agrees;
    forall k, ip | k in svcs && ip in svcs[k].dests
      ensures !svcs[k].dests[ip].active
    {
      SettledService(svcs, {}, k);
    }
  }

  lemma TraceSays(trace: seq<Command>, views: seq<View>, st: State, served: bool, begun: History)
    requires TraceOK(trace, views, st, served, begun)
    ensures Replay(trace) == Some(st) && PrefixesSafe(trace, views) && begun.trace <= trace && begun.views <= views
    ensures served ==> ServedFrom(views, |begun.views|)
  {
  }

  lemma AgreesTable(st: State, svcs: Services, served: bool, active: set<IP>)
    requires Agrees(st, svcs, served, {}) && Settled(svcs, active)
    ensures ServicesOK(svcs) && st.ipvs == TableOf(svcs)
  {
    SettledTable(st.ipvs, svcs, active);
  }

  lemma CountLess(x: set<IP>, y: set<IP>, ip: IP)
    requires y == x - {ip}
    ensures |y| == |x| - if ip in x then 1 else 0
  {
    if ip in x {
      assert x == y + {ip};
    } else {
      assert x == y;
    }
  }

  /** A destination that is not up is dropped without judging its service again. The service's health is then what
      judging would make it exactly if the counts without the destination are on the same side of the watermark. */
  lemma DropJudgedIff(s: Service, ip: IP)
    requires ip in s.dests
    ensures var t := s.(dests := s.dests - {ip});
            var healthy := NumHealthy(s.dests) - if s.dests[ip].healthy then 1 else 0;
            var backends := NumBackends(s.dests) - if s.dests[ip].backend.inService then 1 else 0;
            s.healthy == ServiceHealth(t) <==>
              (s.healthy <==>
                 && healthy > 0 && backends > 0
                 && healthy as real >= (if s.healthy then s.entry.low else s.entry.high) * backends as real)
  {
    hide NumHealthy, NumBackends;
    DropCounts(s.dests, ip);
  }

  lemma DropCounts(dests: map<IP, Dest>, ip: IP)
    requires ip in dests
    ensures NumHealthy(dests - {ip}) == NumHealthy(dests) - if dests[ip].healthy then 1 else 0
    ensures NumBackends(dests - {ip}) == NumBackends(dests) - if dests[ip].backend.inService then 1 else 0
  {
    var left := dests - {ip};
    CountLess((set i | i in dests && dests[i].healthy), (set i | i in left && left[i].healthy), ip);
    CountLess((set i | i in dests && dests[i].backend.inService), (set i | i in left && left[i].backend.inService), ip);
  }

  /** In particular a healthy service keeps its health when its last healthy destination goes while the service is
      down. */
  lemma DropLastHealthy(s: Service, ip: IP)
    requires ip in s.dests && s.healthy && s.dests[ip].healthy && NumHealthy(s.dests) == 1
    ensures var t := s.(dests := s.dests - {ip}); t.healthy && !ServiceHealth(t) && !Populated(t)
  {
    var dests := s.dests - {ip};
    var left := set i | i in dests && dests[i].healthy;
    CountLess((set i | i in s.dests && s.dests[i].healthy), left, ip);
    assert |left| == 0;
    assert forall i | i in dests :: dests[i].healthy ==> i in left;
  }

  lemma MapsAlike(was: Services, new_: Services, svcs: Services, useFWM: bool, before: set<ServiceKey>,
                  now: set<ServiceKey>)
    requires MapsMerged(was, new_, useFWM, before, now, {})
    requires svcs.Keys == new_.Keys && forall k | k in svcs :: svcs[k].vip.ip == new_[k].vip.ip
    ensures MapsMerged(was, svcs, useFWM, before, now, {})
  {
  }

  /** The services left without a destination map once the unwanted ones are dropped have no destinations. */
  lemma MapsDone(cfg: Config, fwm: map<AF, nat>, anycast: set<IP>, was: Services, mid: Services, svcs: Services,
                 new_: Services,
                 before: set<ServiceKey>, merged: set<ServiceKey>, mapless: set<ServiceKey>)
    requires ServicesMerged(cfg, fwm, anycast, was, mid, new_, {}) && Reflects(cfg, fwm, anycast, svcs)
    requires svcs.Keys == new_.Keys && forall k | k in svcs :: svcs[k].vip.ip == new_[k].vip.ip
    requires MapsMerged(was, new_, cfg.useFWM, before, merged, {}) && before <= was.Keys
    requires mapless == merged - (mid.Keys - new_.Keys) && forall k | k in merged && k in new_ :: NoBackends(cfg, k.af)
    ensures mapless == merged * svcs.Keys && forall k | k in mapless :: svcs[k].dests == map[]
    ensures MapsMerged(was, svcs, cfg.useFWM, before, merged, {})
  {
    hide NoBackends, Reflects;
    assert merged <= mid.Keys;
    MapsAlike(was, new_, svcs, cfg.useFWM, before, merged);
    MapsEmpty(cfg, fwm, anycast, svcs, mapless);
  }

  lemma MapsEmpty(cfg: Config, fwm: map<AF, nat>, anycast: set<IP>, svcs: Services, mapless: set<ServiceKey>)
    requires Reflects(cfg, fwm, anycast, svcs) && mapless <= svcs.Keys && forall k | k in mapless ::
             NoBackends(cfg, k.af)
    ensures forall k | k in mapless :: svcs[k].dests == map[]
  {
    hide NoBackends, Wanted, ServiceReflects, DestsReflect;
    forall k | k in mapless
      ensures svcs[k].dests == map[]
    {
      NoDests(cfg, k, svcs[k].entry, svcs[k].dests);
    }
  }

  lemma MapsFamilies(svcs: Services, mapless: set<ServiceKey>, bare: set<AF>)
    requires MapsTell(svcs, mapless, bare)
    ensures bare == (set k | k in mapless :: k.af) && mapless <= svcs.Keys
  {
  }

  /** What an update in place starts from, once the marks are drawn. */
  lemma UpdateBegins(old_: Config, cfg: Config, fwm: map<AF, nat>, fwm': map<AF, nat>, anycast: set<IP>, svcs: Services,
                     mapless: set<ServiceKey>, bare: set<AF>)
    requires ConfigOK(old_, anycast) && ConfigOK(cfg, anycast) && SameLayout(old_, cfg) && UpdateOK(old_, cfg, bare)
    requires MarksOK(old_, fwm) && Reflects(old_, fwm, anycast, svcs) && MapsTell(svcs, mapless, bare)
    requires forall af | af in fwm :: af in fwm' && fwm'[af] == fwm[af]
    ensures Reflects(old_, fwm', anycast, svcs) && UnwantedElsewhere(cfg, fwm', svcs) &&
            MapsAllow(cfg, fwm', svcs, mapless)
    ensures mapless <= svcs.Keys && old_.useFWM == cfg.useFWM
    ensures cfg.entries != map[] ==> TypesStable(FixedVIPs(old_), cfg)
  {
    hide ConfigOK, UpdateOK, Reflects, UnwantedElsewhere, MapsAllow, TypesStable, FixedVIPs, MapsTell, MarksOK;
    ReflectsMore(old_, fwm, fwm', anycast, svcs);
    LayoutElsewhere(old_, cfg, fwm', anycast, svcs);
    LayoutMaps(old_, cfg, fwm', anycast, svcs, mapless, bare);
    UpdateTypes(old_, cfg, bare);
    MapsFamilies(svcs, mapless, bare);
  }

  lemma UpdateEnds(old_: Config, cfg: Config, fwm: map<AF, nat>, anycast: set<IP>, was: Services, svcs: Services,
                   before: set<ServiceKey>, merged: set<ServiceKey>, mapless: set<ServiceKey>, bare: set<AF>)
    requires SameLayout(old_, cfg) && ConfigOK(cfg, anycast) && mapless == merged * svcs.Keys
    requires Reflects(old_, fwm, anycast, was) && Reflects(cfg, fwm, anycast, svcs)
    requires MapsTell(was, before, bare) && MapsMerged(was, svcs, cfg.useFWM, before, merged, {})
    requires !cfg.useFWM ==> before == {}
    ensures (set k | k in mapless :: k.af) == BareAfter(old_, cfg, bare) &&
            MapsTell(svcs, mapless, BareAfter(old_, cfg, bare))
    ensures !cfg.useFWM ==> mapless == {}
    ensures KeepsBackends(old_, cfg) ==> KeepsDests(was, svcs)
  {
    hide ConfigOK, Reflects, MapsMerged, KeepsBackends, KeepsDests, SameLayout;
    MapsFamilies(was, before, bare);
    MapsAfter(old_, cfg, fwm, anycast, was, svcs, before, merged, bare);
    MapsFamilies(svcs, mapless, BareAfter(old_, cfg, bare));
    KeptBackends(old_, cfg, fwm, anycast, was, svcs);
  }

  lemma DownPopulated(svcs: Services)
    requires AllDown(svcs)
    ensures AllPopulated(svcs)
  {
  }

  /** If no backend address goes, no destination of a service that stays does. */
  lemma KeptBackends(old_: Config, cfg: Config, fwm: map<AF, nat>, anycast: set<IP>, was: Services, svcs: Services)
    requires Reflects(old_, fwm, anycast, was) && Reflects(cfg, fwm, anycast, svcs)
    ensures KeepsBackends(old_, cfg) ==> KeepsDests(was, svcs)
  {
    hide Wanted, ServiceReflects;
    if KeepsBackends(old_, cfg) {
      forall k, ip | k in was && k in svcs && ip in was[k].dests
        ensures ip in svcs[k].dests
      {
        assert DestReflects(old_, k, was[k].entry, ip, was[k].dests[ip]);
      }
    }
  }

  /** Records that are in order agree with the table as far as they are populated, and so an event may begin. */
  lemma Begin(st: State, svcs: Services, served: bool, trace: seq<Command>, views: seq<View>, begun: History,
              active: set<IP>)
    requires Agrees(st, svcs, served, {}) && TraceOK(trace, views, st, served, begun) && Settled(svcs, active)
    ensures Agrees(st, svcs, AllPopulated(svcs), {})
    ensures TraceOK(trace, views, st, AllPopulated(svcs), History(trace, views))
  {
    hide ServicesOK, TableFits, AllPopulated;
    forall ip | ip in st.routes
      ensures RouteSafe(st, svcs, AllPopulated(svcs), ip)
    {
      assert RouteSafe(st, svcs, served, ip);
      forall k | k in svcs && svcs[k].vip.ip == ip && AllPopulated(svcs)
        ensures st.ipvs[IdOf(svcs[k].ipvsSvc)].dests != map[]
      {
        Installed(st, svcs, k, active);
      }
    }
  }

  lemma Installed(st: State, svcs: Services, k: ServiceKey, active: set<IP>)
    requires ServicesOK(svcs) && TableFits(st.ipvs, svcs, {}) && Settled(svcs, active) && AllPopulated(svcs)
    requires k in svcs && IdOf(svcs[k].ipvsSvc) in st.ipvs
    ensures st.ipvs[IdOf(svcs[k].ipvsSvc)].dests != map[]
  {
    hide Settle, ServiceOK;
    assert ServiceFits(st.ipvs, svcs[k], svcs[k].active);
    assert Populated(svcs[k]);
    ServiceServed(st, svcs, k, active);
  }

  lemma ShapesMaps(was: Services, svcs: Services, mapless: set<ServiceKey>, bare: set<AF>)
    requires SameShapes(was, svcs) && MapsTell(was, mapless, bare) && forall k | k in mapless :: was[k].dests == map[]
    ensures MapsTell(svcs, mapless, bare) && forall k | k in mapless :: k in svcs && svcs[k].dests == map[]
  {
    hide Shape;
    forall k | k in mapless
      ensures svcs[k].dests == map[]
    {
      ShapeKeys(svcs[k], was[k]);
    }
  }

  lemma NoMaps(svcs: Services)
    ensures MapsTell(svcs, {}, {})
  {
  }
}
