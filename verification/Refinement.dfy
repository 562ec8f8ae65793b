/**
The declarative account of a vserver: every flag recomputed from the check states alone, with the
high and low watermarks as the only memory. The lemmas here reduce one incremental step to it.
*/
module Refinement {
  import opened Types
  import opened Propagation

  /** A service with its health and activity erased: what its configuration determines. */
  function Shape(s: Service): Service {
    s.(healthy := false, active := false,
       dests := map ip | ip in s.dests :: s.dests[ip].(healthy := false, active := false))
  }

  /** A service with its activity erased: what its configuration and its health determine. */
  function Bare(s: Service): Service {
    Settle(s, {})
  }

  predicate SameShapes(svcs: Services, svcs': Services) {
    svcs.Keys == svcs'.Keys && forall k | k in svcs :: Shape(svcs[k]) == Shape(svcs'[k])
  }

  function MarkDest(d: Dest, checks: map<CheckKey, Check>): Dest {
    d.(healthy := DestHealth(d, checks))
  }

  function MarkDests(s: Service, checks: map<CheckKey, Check>): Service {
    s.(dests := map ip | ip in s.dests :: MarkDest(s.dests[ip], checks))
  }

  /** The verdict on a service: its destinations by their checks, and itself by its watermarks. */
  function Judge(s: Service, checks: map<CheckKey, Check>): Service {
    var marked := MarkDests(s, checks);
    marked.(healthy := ServiceHealth(marked))
  }

  function JudgeAll(svcs: Services, checks: map<CheckKey, Check>): Services {
    map k | k in svcs :: Judge(svcs[k], checks)
  }

  function ActiveOf(svcs: Services, anycast: set<IP>): set<IP> {
    set k | k in svcs && VipHealth(svcs, svcs[k].vip.ip, anycast) :: svcs[k].vip.ip
  }

  /** The whole vserver recomputed from its check states. */
  function Recompute(svcs: Services, checks: map<CheckKey, Check>, anycast: set<IP>): Services {
    var judged := JudgeAll(svcs, checks);
    SettleAll(judged, ActiveOf(judged, anycast))
  }

  /** An address is up exactly when its services say so. */
  ghost predicate VipsExact(svcs: Services, active: set<IP>, anycast: set<IP>) {
    forall ip :: ip in active <==> VipHealth(svcs, ip, anycast)
  }

  /** Destinations and services carry the verdict of the checks and watermarks. */
  predicate Exact(svcs: Services, checks: map<CheckKey, Check>) {
    forall k | k in svcs :: Stable(svcs[k]) && MarkDests(svcs[k], checks) == svcs[k]
  }

  /** Checks and destinations refer to each other, and a check concerns the one address in its key. */
  predicate ChecksLinked(svcs: Services, checks: map<CheckKey, Check>) {
    && (forall c, r | c in checks && r in checks[c].dests ::
          r.ip == c.backendIP && r.svc in svcs && r.ip in svcs[r.svc].dests && c in svcs[r.svc].dests[r.ip].checks)
    && (forall k, ip, c | k in svcs && ip in svcs[k].dests && c in svcs[k].dests[ip].checks ::
          c in checks && DestRef(k, ip) in checks[c].dests)
  }

  lemma ShapesLinked(svcs: Services, svcs': Services, checks: map<CheckKey, Check>)
    requires SameShapes(svcs, svcs') && ChecksLinked(svcs, checks)
    ensures ChecksLinked(svcs', checks)
  {
    forall k | k in svcs
      ensures svcs'[k].dests.Keys == svcs[k].dests.Keys
      ensures forall ip | ip in svcs[k].dests :: svcs'[k].dests[ip].checks == svcs[k].dests[ip].checks
    {
      var a, b := Shape(svcs[k]), Shape(svcs'[k]);
      assert a.dests.Keys == svcs[k].dests.Keys && b.dests.Keys == svcs'[k].dests.Keys;
      forall ip | ip in svcs[k].dests
        ensures svcs'[k].dests[ip].checks == svcs[k].dests[ip].checks
      {
        assert a.dests[ip] == b.dests[ip];
      }
    }
  }

  /** Settling looks only at health. */
  lemma SettleBare(s: Service, active: set<IP>)
    ensures Settle(Bare(s), active) == Settle(s, active)
    ensures Bare(Settle(s, active)) == Bare(s)
    ensures Shape(Settle(s, active)) == Shape(s)
    ensures Shape(Bare(s)) == Shape(s)
  {
    var t := Settle(s, active);
    assert Settle(Bare(s), active).dests == t.dests;
    assert Bare(t).dests == Bare(s).dests;
    assert Shape(t).dests == Shape(s).dests;
    assert Shape(Bare(s)).dests == Shape(s).dests;
  }

  lemma BareHealth(s: Service)
    ensures NumHealthy(Bare(s).dests) == NumHealthy(s.dests)
    ensures NumBackends(Bare(s).dests) == NumBackends(s.dests)
    ensures ServiceHealth(Bare(s)) == ServiceHealth(s)
    ensures Stable(Bare(s)) == Stable(s)
  {
    var b := Bare(s).dests;
    assert (set ip | ip in b && b[ip].healthy) == set ip | ip in s.dests && s.dests[ip].healthy;
    assert (set ip | ip in b && b[ip].backend.inService) == set ip | ip in s.dests && s.dests[ip].backend.inService;
  }

  /** The health of an address depends on the health of its services alone. */
  lemma VipHealthSame(svcs: Services, svcs': Services, ip: IP, anycast: set<IP>)
    requires svcs.Keys == svcs'.Keys
    requires forall k | k in svcs :: svcs'[k].vip.ip == svcs[k].vip.ip
    requires forall k | k in svcs && svcs[k].vip.ip == ip :: svcs'[k].healthy == svcs[k].healthy
    ensures VipHealth(svcs', ip, anycast) == VipHealth(svcs, ip, anycast)
  {
  }

  /** What one destination step keeps. */
  lemma JudgedKeeps(svcs: Services, active: set<IP>, svcs': Services, active': set<IP>, anycast: set<IP>,
                    k: ServiceKey, ip: IP, healthy: bool)
    requires DestJudged(svcs, active, svcs', active', anycast, k, ip, healthy)
    ensures Settled(svcs', active') && SameShapes(svcs, svcs')
    ensures forall j | j in svcs && j != k :: Bare(svcs'[j]) == Bare(svcs[j])
    ensures Bare(svcs'[k])
         == Bare(SetDest(svcs, k, ip, svcs[k].dests[ip].(healthy := healthy))[k].(healthy := svcs'[k].healthy))
  {
    hide Settle, ServiceHealth, VipHealth, NewActive, Shape, Stable;
    var marked := SetDest(svcs, k, ip, svcs[k].dests[ip].(healthy := healthy));
    var judged := marked[k := marked[k].(healthy := svcs'[k].healthy)];
    forall j | j in svcs
      ensures svcs'[j] == Settle(svcs'[j], active') && Bare(svcs'[j]) == Bare(judged[j])
      ensures Shape(svcs'[j]) == Shape(svcs[j])
    {
      SettleTwice(judged[j], active');
      SettleBare(judged[j], active');
      if j == k {
        MarkShape(svcs[k], ip, healthy, svcs'[k].healthy);
      }
    }
  }

  lemma MarkShape(s: Service, ip: IP, healthy: bool, verdict: bool)
    requires ip in s.dests
    ensures Shape(s.(dests := s.dests[ip := s.dests[ip].(healthy := healthy)], healthy := verdict)) == Shape(s)
  {
    assert Shape(s.(dests := s.dests[ip := s.dests[ip].(healthy := healthy)], healthy := verdict)).dests ==
           Shape(s).dests;
  }

  lemma JudgedVips(svcs: Services, active: set<IP>, svcs': Services, active': set<IP>, anycast: set<IP>,
                   k: ServiceKey, ip: IP, healthy: bool)
    requires DestJudged(svcs, active, svcs', active', anycast, k, ip, healthy)
    requires VipsExact(svcs, active, anycast)
    ensures VipsExact(svcs', active', anycast)
  {
    hide ServiceHealth, VipHealth, Stable;
    var marked := SetDest(svcs, k, ip, svcs[k].dests[ip].(healthy := healthy));
    var judged := marked[k := marked[k].(healthy := svcs'[k].healthy)];
    var vip := svcs[k].vip.ip;
    assert svcs'.Keys == judged.Keys == svcs.Keys;
    forall j | j in svcs
      ensures svcs'[j].vip == judged[j].vip == svcs[j].vip && svcs'[j].healthy == judged[j].healthy
    {
    }
    forall r
      ensures r in active' <==> VipHealth(svcs', r, anycast)
    {
      VipHealthSame(judged, svcs', r, anycast);
      if svcs'[k].healthy == svcs[k].healthy || r != vip {
        VipHealthSame(svcs, judged, r, anycast);
      }
    }
  }

  // ---- One notification ----

  function WithDestHealth(s: Service, ip: IP, healthy: bool): Service
    requires ip in s.dests
  {
    s.(dests := s.dests[ip := s.dests[ip].(healthy := healthy)])
  }

  lemma BareCommutes(s: Service, ip: IP, healthy: bool)
    requires ip in s.dests
    ensures ip in Bare(s).dests && Bare(s).dests[ip] == s.dests[ip].(active := false)
    ensures Bare(WithDestHealth(s, ip, healthy)) == WithDestHealth(Bare(s), ip, healthy)
  {
    assert Bare(WithDestHealth(s, ip, healthy)).dests == WithDestHealth(Bare(s), ip, healthy).dests;
  }

  lemma BareMark(s: Service, t: Service, ip: IP, healthy: bool)
    requires Bare(s) == Bare(t) && ip in s.dests
    ensures ip in t.dests && Bare(WithDestHealth(s, ip, healthy)) == Bare(WithDestHealth(t, ip, healthy))
    ensures t.healthy == s.healthy && t.entry == s.entry
    ensures t.dests[ip].(active := false) == s.dests[ip].(active := false)
  {
    hide SettleDest;
    assert s.dests.Keys == Bare(s).dests.Keys == t.dests.Keys;
    BareCommutes(s, ip, healthy);
    BareCommutes(t, ip, healthy);
  }

  lemma BareVerdict(s: Service, t: Service, healthy: bool)
    requires Bare(s) == Bare(t)
    ensures Bare(s.(healthy := healthy)) == Bare(t.(healthy := healthy))
  {
    var s', t' := s.(healthy := healthy), t.(healthy := healthy);
    assert Bare(s') == Bare(s).(healthy := healthy);
    assert Bare(t') == Bare(t).(healthy := healthy);
  }

  lemma JudgeStable(s: Service, checks: map<CheckKey, Check>)
    requires s.entry.low <= s.entry.high
    ensures Stable(Judge(s, checks))
  {
    hide NumHealthy, NumBackends;
    var m := MarkDests(s, checks);
    var h, b := NumHealthy(m.dests), NumBackends(m.dests);
    WatermarkOrder(h, b, m.entry.low, m.entry.high);
  }

  lemma WatermarkOrder(healthy: nat, backends: nat, low: real, high: real)
    requires low <= high
    ensures MeetsWatermark(healthy, backends, high) ==> MeetsWatermark(healthy, backends, low)
  {
    assert low * backends as real <= high * backends as real;
  }

  /** A service without a destination under the check is already where the check leaves it. */
  lemma UntouchedJudge(svcs: Services, checks: map<CheckKey, Check>, c: CheckKey, state: CheckState, k: ServiceKey)
    requires ChecksLinked(svcs, checks) && Exact(svcs, checks) && c in checks && k in svcs
    requires DestRef(k, c.backendIP) !in checks[c].dests
    ensures Judge(svcs[k], checks[c := checks[c].(state := state)]) == svcs[k]
  {
    var s, checks' := svcs[k], checks[c := checks[c].(state := state)];
    forall ip | ip in s.dests
      ensures MarkDest(s.dests[ip], checks') == s.dests[ip]
    {
      UntouchedDest(svcs, checks, c, state, k, ip);
    }
    assert MarkDests(s, checks').dests == s.dests;
    hide MarkDest, DestHealth, ChecksLinked;
  }

  /** A destination that is not under the check keeps its health. */
  lemma UntouchedDest(svcs: Services, checks: map<CheckKey, Check>, c: CheckKey, state: CheckState, k: ServiceKey,
                      ip: IP)
    requires ChecksLinked(svcs, checks) && Exact(svcs, checks) && c in checks && k in svcs && ip in svcs[k].dests
    requires ip != c.backendIP || DestRef(k, ip) !in checks[c].dests
    ensures MarkDest(svcs[k].dests[ip], checks[c := checks[c].(state := state)]) == svcs[k].dests[ip]
  {
    hide ServiceHealth;
    assert c !in svcs[k].dests[ip].checks;
    assert MarkDests(svcs[k], checks).dests[ip] == svcs[k].dests[ip];
  }

  /** A service with a destination under the check changes at that destination only. */
  lemma TouchedJudge(svcs: Services, checks: map<CheckKey, Check>, c: CheckKey, state: CheckState, k: ServiceKey)
    requires ChecksLinked(svcs, checks) && Exact(svcs, checks) && c in checks && k in svcs
    requires DestRef(k, c.backendIP) in checks[c].dests
    ensures c.backendIP in svcs[k].dests && c in svcs[k].dests[c.backendIP].checks
    ensures var checks' := checks[c := checks[c].(state := state)];
            MarkDests(svcs[k], checks')
            == WithDestHealth(svcs[k], c.backendIP, DestHealth(svcs[k].dests[c.backendIP], checks'))
  {
    var s, checks' := svcs[k], checks[c := checks[c].(state := state)];
    var r := DestRef(k, c.backendIP);
    assert r.ip in s.dests;
    forall ip | ip in s.dests && ip != r.ip
      ensures MarkDest(s.dests[ip], checks') == s.dests[ip]
    {
      UntouchedDest(svcs, checks, c, state, k, ip);
    }
    assert MarkDests(s, checks').dests == WithDestHealth(s, r.ip, DestHealth(s.dests[r.ip], checks')).dests;
  }

  /** One destination step takes its service to the verdict of the new check state, once or again. */
  lemma StepExact(svcs: Services, checks: map<CheckKey, Check>, c: CheckKey, state: CheckState,
                  cur: Services, active: set<IP>, cur': Services, active': set<IP>, anycast: set<IP>, k: ServiceKey)
    requires ChecksLinked(svcs, checks) && Exact(svcs, checks) && c in checks && k in svcs
    requires DestRef(k, c.backendIP) in checks[c].dests && k in cur && c.backendIP in cur[k].dests
    requires var checks' := checks[c := checks[c].(state := state)];
             && (Bare(cur[k]) == Bare(svcs[k]) || Bare(cur[k]) == Bare(Judge(svcs[k], checks')))
             && DestJudged(cur, active, cur', active', anycast, k, c.backendIP,
                           DestHealth(cur[k].dests[c.backendIP], checks'))
    ensures Bare(cur'[k]) == Bare(Judge(svcs[k], checks[c := checks[c].(state := state)]))
  {
    hide Settle, ServiceHealth, MarkDests, DestHealth, VipHealth, SettleAll, ChecksLinked;
    var checks', ip := checks[c := checks[c].(state := state)], c.backendIP;
    TouchedJudge(svcs, checks, c, state, k);
    var verdict := Judge(svcs[k], checks');
    var base := if Bare(cur[k]) == Bare(svcs[k]) then svcs[k] else verdict;
    BaseStable(svcs, checks, c, state, k);
    var health := DestHealth(cur[k].dests[ip], checks');
    BareMark(cur[k], base, ip, health);
    BaseMarked(svcs, checks, c, state, k, base, cur[k].dests[ip]);
    BareHealth(cur[k]);
    BareHealth(base);
    JudgedKeeps(cur, active, cur', active', anycast, k, ip, health);
    BareHealth(WithDestHealth(cur[k], ip, health));
    BareHealth(WithDestHealth(base, ip, health));
    BareVerdict(WithDestHealth(cur[k], ip, health), WithDestHealth(base, ip, health), cur'[k].healthy);
  }

  /** Both the old service and its new verdict are stable. */
  lemma BaseStable(svcs: Services, checks: map<CheckKey, Check>, c: CheckKey, state: CheckState, k: ServiceKey)
    requires Exact(svcs, checks) && c in checks && k in svcs
    ensures Stable(svcs[k]) && Stable(Judge(svcs[k], checks[c := checks[c].(state := state)]))
  {
    JudgeStable(svcs[k], checks[c := checks[c].(state := state)]);
  }

  /** Marking the destination under the check, from the old service or from its verdict, leads to the verdict. */
  lemma BaseMarked(svcs: Services, checks: map<CheckKey, Check>, c: CheckKey, state: CheckState, k: ServiceKey,
                   base: Service, d: Dest)
    requires ChecksLinked(svcs, checks) && Exact(svcs, checks) && c in checks && k in svcs
    requires DestRef(k, c.backendIP) in checks[c].dests
    requires base == svcs[k] || base == Judge(svcs[k], checks[c := checks[c].(state := state)])
    requires c.backendIP in base.dests && base.dests[c.backendIP].(active := false) == d.(active := false)
    ensures var checks' := checks[c := checks[c].(state := state)];
            var marked := WithDestHealth(base, c.backendIP, DestHealth(d, checks'));
            marked.(healthy := ServiceHealth(marked)) == Judge(svcs[k], checks')
  {
    hide ServiceHealth;
    var checks', ip := checks[c := checks[c].(state := state)], c.backendIP;
    TouchedJudge(svcs, checks, c, state, k);
    var verdict := Judge(svcs[k], checks');
    var health := DestHealth(svcs[k].dests[ip], checks');
    if base == svcs[k] {
      assert DestHealth(d, checks') == health;
    } else {
      JudgeStable(svcs[k], checks');
      assert DestHealth(d, checks') == health;
      assert WithDestHealth(base, ip, health).dests == base.dests;
    }
  }

  /** A settled state that has every verdict is the recomputed one. */
  lemma RecomputeReached(svcs: Services, checks: map<CheckKey, Check>, cur: Services, active: set<IP>, anycast: set<IP>)
    requires cur.Keys == svcs.Keys && Settled(cur, active) && VipsExact(cur, active, anycast)
    requires forall k | k in svcs :: Bare(cur[k]) == Bare(Judge(svcs[k], checks))
    ensures cur == Recompute(svcs, checks, anycast)
  {
    hide Settle, ServiceHealth, VipHealth, Judge;
    var judged := JudgeAll(svcs, checks);
    forall k | k in svcs
      ensures cur[k] == Settle(judged[k], active)
      ensures cur[k].healthy == judged[k].healthy && cur[k].vip == judged[k].vip
    {
      SettleBare(cur[k], active);
      SettleBare(judged[k], active);
      BareFlags(cur[k]);
      BareFlags(judged[k]);
    }
    forall ip
      ensures VipHealth(judged, ip, anycast) == VipHealth(cur, ip, anycast)
    {
      VipHealthSame(cur, judged, ip, anycast);
    }
    ActiveExact(judged, active, anycast);
    assert cur == SettleAll(judged, active);
  }

  lemma BareFlags(s: Service)
    ensures Bare(s).healthy == s.healthy && Bare(s).vip == s.vip && Bare(s).entry == s.entry
  {
  }

  lemma ActiveExact(svcs: Services, active: set<IP>, anycast: set<IP>)
    requires VipsExact(svcs, active, anycast)
    ensures active == ActiveOf(svcs, anycast)
  {
    forall ip | ip in active
      ensures ip in ActiveOf(svcs, anycast)
    {
      assert VipHealth(svcs, ip, anycast);
      var k :| k in svcs && svcs[k].vip.ip == ip && svcs[k].healthy;
    }
  }

  /** The recomputed state carries exactly the verdicts it was made from. */
  lemma RecomputeExact(svcs: Services, checks: map<CheckKey, Check>, anycast: set<IP>)
    requires forall k | k in svcs :: svcs[k].entry.low <= svcs[k].entry.high
    ensures Exact(Recompute(svcs, checks, anycast), checks)
  {
    hide ServiceHealth, Settle, MarkDests, Stable;
    var judged := JudgeAll(svcs, checks);
    var active := ActiveOf(judged, anycast);
    forall k | k in svcs
      ensures Stable(Settle(judged[k], active))
      ensures MarkDests(Settle(judged[k], active), checks) == Settle(judged[k], active)
    {
      JudgeStable(svcs[k], checks);
      SettleBare(judged[k], active);
      BareHealth(judged[k]);
      BareHealth(Settle(judged[k], active));
      MarkSettled(svcs[k], checks, active);
    }
  }

  lemma MarkSettled(s: Service, checks: map<CheckKey, Check>, active: set<IP>)
    ensures MarkDests(Settle(Judge(s, checks), active), checks) == Settle(Judge(s, checks), active)
  {
    hide ServiceHealth;
    var t := Settle(Judge(s, checks), active);
    forall ip | ip in t.dests
      ensures MarkDest(t.dests[ip], checks) == t.dests[ip]
    {
      assert t.dests[ip] == SettleDest(MarkDest(s.dests[ip], checks), t.active);
    }
    assert MarkDests(t, checks).dests == t.dests;
  }

  /** How far a notification has got: destinations before i in the check's list have been re-evaluated. */
  ghost predicate Notified(svcs: Services, checks: map<CheckKey, Check>, c: CheckKey, state: CheckState,
                           cur: Services, i: nat)
    requires c in checks && i <= |checks[c].dests|
  {
    var checks' := checks[c := checks[c].(state := state)];
    forall k | k in svcs && k in cur ::
      Bare(cur[k]) == Bare(if DestRef(k, c.backendIP) in checks[c].dests[..i] then Judge(svcs[k], checks') else svcs[k])
  }

  /** A destination under the check passes its checks exactly when it is healthy by the declarative rule. */
  lemma PassIsHealth(svcs: Services, checks: map<CheckKey, Check>, c: CheckKey, k: ServiceKey, ip: IP)
    requires ChecksLinked(svcs, checks) && k in svcs && ip in svcs[k].dests && c in svcs[k].dests[ip].checks
    ensures ChecksPass(svcs[k].dests[ip], checks) == DestHealth(svcs[k].dests[ip], checks)
  {
  }

  lemma NotifiedStep(svcs: Services, checks: map<CheckKey, Check>, c: CheckKey, state: CheckState,
                     cur: Services, active: set<IP>, cur': Services, active': set<IP>, anycast: set<IP>, i: nat)
    requires ChecksLinked(svcs, checks) && Exact(svcs, checks) && c in checks && i < |checks[c].dests|
    requires SameShapes(svcs, cur) && Notified(svcs, checks, c, state, cur, i)
    requires var r := checks[c].dests[i];
             r.svc in cur && r.ip in cur[r.svc].dests &&
             DestJudged(cur, active, cur', active', anycast, r.svc, r.ip,
                        DestHealth(cur[r.svc].dests[r.ip], checks[c := checks[c].(state := state)]))
    ensures Notified(svcs, checks, c, state, cur', i + 1)
  {
    hide Bare, Judge, DestHealth, DestJudged, Exact, Shape;
    var r := checks[c].dests[i];
    assert r.ip == c.backendIP && r == DestRef(r.svc, r.ip);
    StepExact(svcs, checks, c, state, cur, active, cur', active', anycast, r.svc);
    JudgedKeeps(cur, active, cur', active', anycast, r.svc, r.ip,
                DestHealth(cur[r.svc].dests[r.ip], checks[c := checks[c].(state := state)]));
    hide ChecksLinked, SameShapes, Notified;
    assert cur'.Keys == cur.Keys == svcs.Keys by { KeysAlike(svcs, cur); KeysAlike(cur, cur'); }
    NotifiedNext(svcs, checks, c, state, cur, cur', i);
  }

  lemma KeysAlike(svcs: Services, svcs': Services)
    requires SameShapes(svcs, svcs')
    ensures svcs'.Keys == svcs.Keys
  {
  }

  lemma NotifiedNext(svcs: Services, checks: map<CheckKey, Check>, c: CheckKey, state: CheckState, cur: Services,
                     cur': Services, i: nat)
    requires c in checks && i < |checks[c].dests| && Notified(svcs, checks, c, state, cur, i)
    requires cur'.Keys == cur.Keys == svcs.Keys && checks[c].dests[i].svc in svcs
    requires checks[c].dests[i].ip == c.backendIP
    requires forall k | k in cur && k != checks[c].dests[i].svc :: Bare(cur'[k]) == Bare(cur[k])
    requires var k := checks[c].dests[i].svc;
             Bare(cur'[k]) == Bare(Judge(svcs[k], checks[c := checks[c].(state := state)]))
    ensures Notified(svcs, checks, c, state, cur', i + 1)
  {
    hide Bare, Judge;
    var r := checks[c].dests[i];
    assert checks[c].dests[..i + 1] == checks[c].dests[..i] + [r];
    forall k | k in svcs && k in cur'
      ensures Bare(cur'[k]) == Bare(if DestRef(k, c.backendIP) in checks[c].dests[..i + 1]
                                    then Judge(svcs[k], checks[c := checks[c].(state := state)]) else svcs[k])
    {
      if k == r.svc {
        assert DestRef(k, c.backendIP) == r;
      }
    }
  }

  lemma NotifiedAll(svcs: Services, checks: map<CheckKey, Check>, c: CheckKey, state: CheckState,
                    cur: Services, active: set<IP>, anycast: set<IP>)
    requires ChecksLinked(svcs, checks) && Exact(svcs, checks) && c in checks
    requires cur.Keys == svcs.Keys && Settled(cur, active) && VipsExact(cur, active, anycast)
    requires Notified(svcs, checks, c, state, cur, |checks[c].dests|)
    ensures cur == Recompute(svcs, checks[c := checks[c].(state := state)], anycast)
  {
    hide Judge, Bare, Settled, VipsExact;
    assert checks[c].dests[..|checks[c].dests|] == checks[c].dests;
    forall k | k in svcs
      ensures Bare(cur[k]) == Bare(Judge(svcs[k], checks[c := checks[c].(state := state)]))
    {
      if DestRef(k, c.backendIP) !in checks[c].dests {
        UntouchedJudge(svcs, checks, c, state, k);
      }
    }
    RecomputeReached(svcs, checks[c := checks[c].(state := state)], cur, active, anycast);
  }

  /** An exact state is its own recomputation. */
  lemma ExactFixed(svcs: Services, checks: map<CheckKey, Check>, active: set<IP>, anycast: set<IP>)
    requires Exact(svcs, checks) && Settled(svcs, active) && VipsExact(svcs, active, anycast)
    ensures svcs == Recompute(svcs, checks, anycast)
  {
    hide Bare, Settled, VipsExact, ServiceHealth;
    RecomputeReached(svcs, checks, svcs, active, anycast);
  }

  lemma RecomputeShapes(svcs: Services, checks: map<CheckKey, Check>, anycast: set<IP>)
    ensures SameShapes(svcs, Recompute(svcs, checks, anycast))
  {
    hide Shape, Settle, Judge;
    var judged := JudgeAll(svcs, checks);
    forall k | k in svcs
      ensures Shape(svcs[k]) == Shape(Recompute(svcs, checks, anycast)[k])
    {
      SettleBare(judged[k], ActiveOf(judged, anycast));
      JudgeShape(svcs[k], checks);
    }
  }

  lemma JudgeShape(s: Service, checks: map<CheckKey, Check>)
    ensures Shape(Judge(s, checks)) == Shape(s)
  {
    hide ServiceHealth, DestHealth;
    assert Shape(Judge(s, checks)).dests == Shape(s).dests;
  }

  lemma ShapesDests(svcs: Services, svcs': Services, k: ServiceKey)
    requires SameShapes(svcs, svcs') && k in svcs
    ensures k in svcs' && svcs'[k].dests.Keys == svcs[k].dests.Keys
  {
    assert Shape(svcs[k]).dests.Keys == svcs[k].dests.Keys && Shape(svcs'[k]).dests.Keys == svcs'[k].dests.Keys;
  }

  /** Judging a destination leaves the records in order. */
  lemma JudgedStands(svcs: Services, active: set<IP>, svcs': Services, active': set<IP>, anycast: set<IP>,
                     k: ServiceKey, ip: IP, healthy: bool, checks: map<CheckKey, Check>)
    requires DestJudged(svcs, active, svcs', active', anycast, k, ip, healthy)
    requires VipsExact(svcs, active, anycast) && ChecksLinked(svcs, checks)
    ensures Settled(svcs', active') && SameShapes(svcs, svcs') && VipsExact(svcs', active', anycast)
    ensures ChecksLinked(svcs', checks)
    ensures svcs'.Keys == svcs.Keys && forall j | j in svcs :: svcs'[j].vip == svcs[j].vip
  {
    hide DestJudged, Settled, SameShapes, VipsExact, ChecksLinked, Bare;
    JudgedKeeps(svcs, active, svcs', active', anycast, k, ip, healthy);
    JudgedVips(svcs, active, svcs', active', anycast, k, ip, healthy);
    ShapesLinked(svcs, svcs', checks);
    ShapesAddresses(svcs, svcs');
  }

  lemma ShapesAddresses(svcs: Services, svcs': Services)
    requires SameShapes(svcs, svcs')
    ensures svcs'.Keys == svcs.Keys && forall k | k in svcs :: svcs'[k].vip == svcs[k].vip
  {
    forall k | k in svcs
      ensures svcs'[k].vip == svcs[k].vip
    {
      assert Shape(svcs[k]).vip == Shape(svcs'[k]).vip;
    }
  }

  /** A change of state leaves a check linked as it was. */
  lemma LinkedAfter(svcs: Services, checks: map<CheckKey, Check>, c: CheckKey, state: CheckState)
    requires ChecksLinked(svcs, checks) && c in checks
    ensures ChecksLinked(svcs, checks[c := checks[c].(state := state)])
  {
    var checks' := checks[c := checks[c].(state := state)];
    forall d | d in checks
      ensures d in checks' && checks'[d].dests == checks[d].dests
    {
    }
  }

  lemma ExactRecompute(svcs: Services, was: map<CheckKey, Check>, checks: map<CheckKey, Check>, anycast: set<IP>)
    requires Exact(svcs, was)
    ensures Exact(Recompute(svcs, checks, anycast), checks)
  {
    RecomputeExact(svcs, checks, anycast);
  }
}
