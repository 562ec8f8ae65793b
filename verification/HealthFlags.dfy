/** Which destinations keep their health through an operation. */
module HealthFlags {
  import opened Types
  import opened Propagation
  import opened Refinement
  import opened VserverConfig
  import opened Reconfiguration

  predicate HealthOf(svcs: Services, k: ServiceKey, ip: IP) {
    k in svcs && ip in svcs[k].dests && svcs[k].dests[ip].healthy
  }

  /** The services other than k are the same, with the health they had. */
  predicate OthersSame(was: Services, svcs: Services, k: ServiceKey) {
    was.Keys - {k} == svcs.Keys - {k} && forall j | j in was && j in svcs && j != k :: svcs[j].healthy == was[j].healthy
  }

  /** Destinations have the health they had, except that those of service k at the addresses in off have lost it; and so
      have the services other than k. */
  ghost predicate FlagsKept(was: Services, svcs: Services, k: ServiceKey, off: set<IP>) {
    && OthersSame(was, svcs, k)
    && forall j, i :: HealthOf(svcs, j, i) == (HealthOf(was, j, i) && !(j == k && i in off))
  }

  /** Service k has its health, too, if it has kept its address and lost no healthy destination. */
  ghost predicate Kept(was: Services, svcs: Services, k: ServiceKey, off: set<IP>) {
    && FlagsKept(was, svcs, k, off)
    && (k in was && k in svcs && was[k].vip.ip == svcs[k].vip.ip && (forall i | i in off :: !HealthOf(was, k, i)) ==>
          svcs[k].healthy == was[k].healthy)
  }

  lemma OthersThrough(a: Services, b: Services, c: Services, k: ServiceKey)
    requires OthersSame(a, b, k) && OthersSame(b, c, k)
    ensures OthersSame(a, c, k)
  {
    forall j | j in a && j in c && j != k
      ensures c[j].healthy == a[j].healthy
    {
      assert j in a.Keys - {k};
    }
  }

  lemma KeptRefl(svcs: Services, k: ServiceKey)
    ensures Kept(svcs, svcs, k, {})
  {
  }

  lemma KeptMore(a: Services, b: Services, c: Services, k: ServiceKey, x: set<IP>, y: set<IP>)
    requires Kept(a, b, k, x) && Kept(b, c, k, y)
    requires k in a && k in c && a[k].vip.ip == c[k].vip.ip ==> k in b && b[k].vip.ip == a[k].vip.ip
    ensures Kept(a, c, k, x + y)
  {
    hide HealthOf, OthersSame;
    OthersThrough(a, b, c, k);
  }

  /** A service that has lost a healthy destination may have been judged. */
  lemma JudgedAfter(a: Services, b: Services, c: Services, k: ServiceKey, ip: IP)
    requires Kept(a, b, k, {ip}) && FlagsKept(b, c, k, {}) && HealthOf(a, k, ip)
    ensures Kept(a, c, k, {ip})
  {
    hide HealthOf, OthersSame;
    OthersThrough(a, b, c, k);
  }

  /** Losing what was not there is no loss. */
  lemma KeptSame(a: Services, b: Services, k: ServiceKey, x: set<IP>, y: set<IP>)
    requires Kept(a, b, k, x) && forall i | HealthOf(a, k, i) :: i in x <==> i in y
    ensures Kept(a, b, k, y)
  {
    hide HealthOf, OthersSame;
    if forall i | i in y :: !HealthOf(a, k, i) {
      assert forall i | i in x :: !HealthOf(a, k, i);
    }
  }

  lemma SettleHealth(s: Service, active: set<IP>)
    ensures var t := Settle(s, active);
            && t.healthy == s.healthy && t.dests.Keys == s.dests.Keys
            && forall i | i in s.dests ::
                 t.dests[i].backend == s.dests[i].backend && t.dests[i].healthy == s.dests[i].healthy &&
                     (t.dests[i].active ==> s.dests[i].healthy)
  {
  }

  lemma JudgedKept(svcs: Services, active: set<IP>, svcs': Services, active': set<IP>, anycast: set<IP>, k: ServiceKey)
    requires ServiceJudged(svcs, active, svcs', active', anycast, k)
    ensures FlagsKept(svcs, svcs', k, {})
  {
    hide ServiceHealth, NewActive, Settle;
    forall j | j in svcs
      ensures j != k ==> svcs'[j].healthy == svcs[j].healthy
      ensures forall i :: HealthOf(svcs', j, i) == HealthOf(svcs, j, i)
    {
      SettleHealth(if j == k then svcs[k].(healthy := ServiceHealth(svcs[k])) else svcs[j], active');
    }
  }

  lemma SetDestKept(svcs: Services, k: ServiceKey, ip: IP, d: Dest)
    requires k in svcs && (d.healthy ==> HealthOf(svcs, k, ip))
    ensures Kept(svcs, SetDest(svcs, k, ip, d), k, if d.healthy then {} else {ip})
  {
    forall j, i
      ensures HealthOf(SetDest(svcs, k, ip, d), j, i) ==
              (HealthOf(svcs, j, i) && !(j == k && i in if d.healthy then {} else {ip}))
    {
    }
  }

  lemma DropDestKept(svcs: Services, k: ServiceKey, ip: IP)
    requires k in svcs && ip in svcs[k].dests
    ensures Kept(svcs, DropDest(svcs, k, ip), k, {ip})
  {
  }

  /** Services alike but for what is up have the same health; one that has gone has lost it. */
  lemma BareKept(was: Services, svcs: Services, k: ServiceKey)
    requires was.Keys - {k} <= svcs.Keys <= was.Keys && forall j | j in svcs :: Bare(svcs[j]) == Bare(was[j])
    ensures Kept(was, svcs, k, if k in svcs || k !in was then {} else was[k].dests.Keys)
  {
    hide Settle;
    forall j | j in svcs
      ensures svcs[j].healthy == was[j].healthy
      ensures forall i :: HealthOf(svcs, j, i) == HealthOf(was, j, i)
    {
      SettleHealth(svcs[j], {});
      SettleHealth(was[j], {});
    }
    assert was.Keys - {k} == svcs.Keys - {k};
  }

  /** A new service without destinations has no health to keep. */
  lemma AddedKept(was: Services, svcs: Services, k: ServiceKey, s: Service)
    requires k !in was && svcs.Keys == was.Keys + {k} && s.dests == map[]
    requires forall j | j in svcs :: Bare(svcs[j]) == Bare(if j == k then s else was[j])
    ensures Kept(was, svcs, k, {})
  {
    hide Settle;
    forall j | j in svcs
      ensures j != k ==> svcs[j].healthy == was[j].healthy
      ensures forall i :: HealthOf(svcs, j, i) == HealthOf(was, j, i)
    {
      SettleHealth(svcs[j], {});
      SettleHealth(if j == k then s else was[j], {});
    }
    assert was.Keys - {k} == svcs.Keys - {k};
  }

  lemma ResettleKept(svcs: Services, k: ServiceKey, new_: Service)
    requires k in svcs
    ensures Kept(svcs, svcs[k := Resettle(svcs[k], new_)], k, {})
  {
  }

  // An update in place.

  /** The destination exists, and its backend is enabled. */
  predicate EnabledAt(svcs: Services, k: ServiceKey, ip: IP) {
    k in svcs && ip in svcs[k].dests && svcs[k].dests[ip].backend.enabled
  }

  /** Services that have moved to another address start without health; `todo` are still to be looked at. */
  ghost predicate MovedOff(was: Services, svcs: Services, new_: Services, todo: set<ServiceKey>) {
    && (forall j, i :: HealthOf(svcs, j, i) ==
          (HealthOf(was, j, i) && !(j in was && j in new_ && j !in todo && was[j].vip.ip != new_[j].vip.ip)))
    && (forall j | j in was && j in svcs && was[j].vip.ip == svcs[j].vip.ip :: svcs[j].healthy == was[j].healthy)
  }

  lemma MovedNone(svcs: Services, new_: Services)
    ensures MovedOff(svcs, svcs, new_, new_.Keys)
  {
  }

  lemma MovedStep(was: Services, cur: Services, svcs: Services, new_: Services, todo: set<ServiceKey>, k: ServiceKey)
    requires MovedOff(was, cur, new_, todo) && k in todo && k in new_
    requires k in was ==> k in cur && cur[k].vip.ip == was[k].vip.ip
    requires Kept(cur, svcs, k, if k in cur && cur[k].vip.ip != new_[k].vip.ip then cur[k].dests.Keys else {})
    requires k in svcs && svcs[k].vip.ip == new_[k].vip.ip
    requires forall j | j in svcs && j != k :: j in cur && svcs[j].vip.ip == cur[j].vip.ip
    ensures MovedOff(was, svcs, new_, todo - {k})
  {
    forall j | j in was && j in svcs && was[j].vip.ip == svcs[j].vip.ip
      ensures svcs[j].healthy == was[j].healthy
    {
    }
    forall j, i
      ensures HealthOf(svcs, j, i) ==
              (HealthOf(was, j, i) && !(j in was && j in new_ && j !in todo - {k} && was[j].vip.ip != new_[j].vip.ip))
    {
      assert HealthOf(cur, j, i) ==
             (HealthOf(was, j, i) && !(j in was && j in new_ && j !in todo && was[j].vip.ip != new_[j].vip.ip));
    }
  }

  /** Of the services looked at, destinations keep their health where they remain with their backend enabled. */
  ghost predicate Reviewed(was: Services, svcs: Services, todo: set<ServiceKey>) {
    && (forall j, i :: HealthOf(svcs, j, i) == (HealthOf(was, j, i) && (j !in todo ==> EnabledAt(svcs, j, i))))
    && (forall j | j in was && j in svcs && (j in todo || Spared(was, svcs, j)) :: svcs[j].healthy == was[j].healthy)
  }

  /** Every healthy destination of a service remains, with its backend enabled. */
  predicate Spared(was: Services, svcs: Services, k: ServiceKey)
    requires k in was
  {
    forall i | i in was[k].dests && was[k].dests[i].healthy :: EnabledAt(svcs, k, i)
  }

  lemma ReviewedNone(svcs: Services)
    ensures Reviewed(svcs, svcs, svcs.Keys)
  {
  }

  /** One service looked at. */
  ghost predicate ReviewedOne(cur: Services, svcs: Services, k: ServiceKey) {
    && OthersSame(cur, svcs, k)
    && (forall j, i :: HealthOf(svcs, j, i) == (HealthOf(cur, j, i) && (j == k ==> EnabledAt(svcs, j, i))))
    && (forall j, i | j != k :: EnabledAt(svcs, j, i) == EnabledAt(cur, j, i))
    && (k in cur && k in svcs && Spared(cur, svcs, k) ==> svcs[k].healthy == cur[k].healthy)
  }

  lemma ReviewedStep(was: Services, cur: Services, svcs: Services, todo: set<ServiceKey>, k: ServiceKey)
    requires Reviewed(was, cur, todo) && ReviewedOne(cur, svcs, k) && k in todo
    requires k in svcs ==> k in cur
    ensures Reviewed(was, svcs, todo - {k})
  {
    forall j | j in was && j in svcs && (j in todo - {k} || Spared(was, svcs, j))
      ensures svcs[j].healthy == was[j].healthy
    {
      ReviewedHealth(was, cur, svcs, todo, k, j);
    }
    hide HealthOf, EnabledAt, OthersSame;
  }

  lemma ReviewedHealth(was: Services, cur: Services, svcs: Services, todo: set<ServiceKey>, k: ServiceKey,
                       j: ServiceKey)
    requires Reviewed(was, cur, todo) && ReviewedOne(cur, svcs, k) && k in todo && (k in svcs ==> k in cur)
    requires j in was && j in svcs && (j in todo - {k} || Spared(was, svcs, j))
    ensures svcs[j].healthy == was[j].healthy
  {
    assert j in cur by { assert j != k ==> j in svcs.Keys - {k}; }
    forall i
      ensures j == k ==> HealthOf(cur, j, i) == HealthOf(was, j, i)
      ensures j != k ==> EnabledAt(svcs, j, i) == EnabledAt(cur, j, i)
    {
    }
    if j == k {
      forall i | i in cur[k].dests && cur[k].dests[i].healthy
        ensures EnabledAt(svcs, k, i)
      {
        assert HealthOf(cur, k, i);
        assert HealthOf(was, k, i);
      }
    }
  }

  lemma EnabledSame(cur: Services, svcs: Services, k: ServiceKey)
    requires forall j | j in cur && j != k :: j in svcs && Shape(svcs[j]) == Shape(cur[j])
    requires svcs.Keys <= cur.Keys
    ensures forall j, i | j != k :: EnabledAt(svcs, j, i) == EnabledAt(cur, j, i)
  {
    hide Shape;
    forall j, i | j != k
      ensures EnabledAt(svcs, j, i) == EnabledAt(cur, j, i)
    {
      if j in cur {
        ShapeKeys(svcs[j], cur[j]);
      }
    }
  }

  lemma DroppedReviewed(cur: Services, svcs: Services, k: ServiceKey)
    requires k in cur && svcs.Keys == cur.Keys - {k} && forall j | j in svcs :: Bare(svcs[j]) == Bare(cur[j])
    ensures ReviewedOne(cur, svcs, k)
  {
    hide Bare, Shape;
    BareKept(cur, svcs, k);
    BareShapes(cur, svcs);
    EnabledSame(cur, svcs, k);
  }

  lemma ReconciledReviewed(cur: Services, svcs: Services, k: ServiceKey, s: Service, new_: map<IP, Dest>, off: set<IP>)
    requires k in cur && cur[k] == s && svcs.Keys == cur.Keys && svcs[k].dests.Keys == new_.Keys
    requires svcs[k].vip.ip == s.vip.ip
    requires forall j | j in svcs && j != k :: Shape(svcs[j]) == Shape(cur[j])
    requires forall i | i in new_ :: svcs[k].dests[i].backend == new_[i].backend
    requires Kept(cur, svcs, k, off) && forall i | i in s.dests :: i in off <==> i !in new_ || !new_[i].backend.enabled
    ensures ReviewedOne(cur, svcs, k)
  {
    EnabledSame(cur, svcs, k);
    forall j, i
      ensures HealthOf(svcs, j, i) == (HealthOf(cur, j, i) && (j == k ==> EnabledAt(svcs, j, i)))
    {
    }
    if Spared(cur, svcs, k) {
      forall i | i in off
        ensures !HealthOf(cur, k, i)
      {
      }
    }
  }

  /** After an update in place a destination is healthy exactly if it was, its service is still at the same address, and
      its backend is enabled; and a service at the same address that keeps its healthy destinations has its health. */
  ghost predicate Carried(was: Services, svcs: Services) {
    && (forall k, ip :: HealthOf(svcs, k, ip) ==
          (HealthOf(was, k, ip) && EnabledAt(svcs, k, ip) && k in was && k in svcs && was[k].vip.ip == svcs[k].vip.ip))
    && (forall k | k in was && k in svcs && was[k].vip.ip == svcs[k].vip.ip && Spared(was, svcs, k) ::
          svcs[k].healthy == was[k].healthy)
  }

  lemma CarriedThrough(was: Services, mid: Services, svcs: Services, new_: Services)
    requires MovedOff(was, mid, new_, {}) && Reviewed(mid, svcs, {})
    requires svcs.Keys == new_.Keys && forall k | k in svcs :: svcs[k].vip.ip == new_[k].vip.ip
    requires forall k | k in svcs :: k in mid && mid[k].vip.ip == svcs[k].vip.ip
    ensures Carried(was, svcs)
  {
    forall k | k in was && k in svcs && was[k].vip.ip == svcs[k].vip.ip && Spared(was, svcs, k)
      ensures svcs[k].healthy == was[k].healthy
    {
      assert mid[k].healthy == was[k].healthy;
      forall i | i in mid[k].dests && mid[k].dests[i].healthy
        ensures EnabledAt(svcs, k, i)
      {
        assert HealthOf(mid, k, i);
        assert HealthOf(was, k, i);
      }
      assert Spared(mid, svcs, k);
    }
    forall k, ip
      ensures HealthOf(svcs, k, ip) ==
              (HealthOf(was, k, ip) && EnabledAt(svcs, k, ip) && k in was && k in svcs &&
               was[k].vip.ip == svcs[k].vip.ip)
    {
      assert HealthOf(mid, k, ip) ==
             (HealthOf(was, k, ip) && !(k in was && k in new_ && k !in {} && was[k].vip.ip != new_[k].vip.ip));
      assert HealthOf(svcs, k, ip) == (HealthOf(mid, k, ip) && EnabledAt(svcs, k, ip));
    }
  }

  /** Records alike but for the checks of destinations carry the same. */
  ghost predicate SameButChecks(a: Services, b: Services) {
    && a.Keys == b.Keys
    && forall k | k in a ::
         && a[k].vip == b[k].vip && a[k].healthy == b[k].healthy && a[k].dests.Keys == b[k].dests.Keys
         && forall i | i in a[k].dests ::
            a[k].dests[i].healthy == b[k].dests[i].healthy && a[k].dests[i].backend == b[k].dests[i].backend
  }

  lemma CarriedSame(was: Services, a: Services, b: Services)
    requires Carried(was, a) && SameButChecks(a, b)
    ensures Carried(was, b)
  {
    forall k, ip
      ensures HealthOf(b, k, ip) == HealthOf(a, k, ip) && EnabledAt(b, k, ip) == EnabledAt(a, k, ip)
    {
    }
    forall k | k in was && k in b && was[k].vip.ip == b[k].vip.ip && Spared(was, b, k)
      ensures b[k].healthy == was[k].healthy
    {
      assert Spared(was, a, k);
    }
  }

  // A report.

  /** The destinations in done have the health their checks give them, the others the one they had. */
  ghost predicate FlagsAfter(was: Services, svcs: Services, checks: map<CheckKey, Check>, done: seq<DestRef>) {
    forall k, ip | k in was && ip in was[k].dests ::
      HealthOf(svcs, k, ip) == if DestRef(k, ip) in done then DestHealth(was[k].dests[ip], checks)
          else HealthOf(was, k, ip)
  }

  lemma DestJudgedKept(svcs: Services, active: set<IP>, svcs': Services, active': set<IP>, anycast: set<IP>,
                       k: ServiceKey, ip: IP, healthy: bool)
    requires DestJudged(svcs, active, svcs', active', anycast, k, ip, healthy)
    ensures forall j, i :: HealthOf(svcs', j, i) == if j == k && i == ip then healthy else HealthOf(svcs, j, i)
  {
    hide Stable, ServiceHealth, NewActive, Settle;
    var marked := SetDest(svcs, k, ip, svcs[k].dests[ip].(healthy := healthy));
    var judged := marked[k := marked[k].(healthy := svcs'[k].healthy)];
    forall j, i
      ensures HealthOf(svcs', j, i) == if j == k && i == ip then healthy else HealthOf(svcs, j, i)
    {
      if j in svcs {
        SettleHealth(judged[j], active');
      }
    }
  }

  lemma FlagsStep(was: Services, cur: Services, active: set<IP>, svcs: Services, active': set<IP>, anycast: set<IP>,
                  checks: map<CheckKey, Check>, done: seq<DestRef>, r: DestRef)
    requires FlagsAfter(was, cur, checks, done) && r.svc in was && r.ip in was[r.svc].dests
    requires DestJudged(cur, active, svcs, active', anycast, r.svc, r.ip, DestHealth(was[r.svc].dests[r.ip], checks))
    ensures FlagsAfter(was, svcs, checks, done + [r])
  {
    hide DestJudged, DestHealth;
    DestJudgedKept(cur, active, svcs, active', anycast, r.svc, r.ip, DestHealth(was[r.svc].dests[r.ip], checks));
  }

  /** New settings cost a destination its health exactly if its backend is disabled. */
  lemma SettingsKept(svcs: Services, svcs': Services, k: ServiceKey, ip: IP, next: Dest)
    requires Kept(svcs, svcs', k, if next.healthy then {} else {ip}) && next.healthy == HealthOf(svcs, k, ip)
    requires next.healthy ==> next.backend.enabled
    ensures Kept(svcs, svcs', k, if next.backend.enabled then {} else {ip})
  {
    KeptSame(svcs, svcs', k, if next.healthy then {} else {ip}, if next.backend.enabled then {} else {ip});
  }

  /** The addresses in done whose backend is disabled. */
  function DisabledIn(new_: map<IP, Dest>, done: set<IP>): set<IP> {
    set ip | ip in new_ && ip in done && !new_[ip].backend.enabled
  }

  lemma DisabledStep(was: Services, cur: Services, svcs: Services, k: ServiceKey, new_: map<IP, Dest>, done: set<IP>,
                     ip: IP)
    requires Kept(was, cur, k, DisabledIn(new_, done)) && ip in new_
    requires k in was && k in cur && cur[k].vip == was[k].vip
    requires Kept(cur, svcs, k, if new_[ip].backend.enabled then {} else {ip})
    ensures Kept(was, svcs, k, DisabledIn(new_, done + {ip}))
  {
    hide Kept;
    var one := if new_[ip].backend.enabled then {} else {ip};
    KeptMore(was, cur, svcs, k, DisabledIn(new_, done), one);
    assert DisabledIn(new_, done) + one == DisabledIn(new_, done + {ip});
  }

  lemma SameRefl(svcs: Services)
    ensures SameButChecks(svcs, svcs)
  {
  }

  lemma RecheckSame(svcs: Services, k: ServiceKey, ip: IP, keys: seq<CheckKey>)
    requires k in svcs && ip in svcs[k].dests
    ensures SameButChecks(svcs, SetDest(svcs, k, ip, svcs[k].dests[ip].(checks := keys)))
  {
  }

  lemma SameThrough(a: Services, b: Services, c: Services)
    requires SameButChecks(a, b) && SameButChecks(b, c)
    ensures SameButChecks(a, c)
  {
  }

  lemma SameKeys(a: Services, b: Services)
    requires SameButChecks(a, b)
    ensures SameDestKeys(a, b)
  {
  }

  /** Services made from one configuration under one key have one address. */
  lemma SameAddress(cfg: Config, fwm: map<AF, nat>, anycast: set<IP>, k: ServiceKey, s: Service, t: Service)
    requires ServiceReflects(cfg, fwm, anycast, k, s) && ServiceReflects(cfg, fwm, anycast, k, t)
    ensures s.vip.ip == t.vip.ip
  {
  }

  lemma AddressesAlike(cfg: Config, fwm: map<AF, nat>, anycast: set<IP>, svcs: Services, new_: Services)
    requires Reflects(cfg, fwm, anycast, svcs) && Expansion(cfg, fwm, anycast, new_)
    ensures svcs.Keys == new_.Keys && forall k | k in svcs :: svcs[k].vip.ip == new_[k].vip.ip
  {
    hide ServiceReflects, Wanted, DestsReflect;
    forall k | k in svcs
      ensures svcs[k].vip.ip == new_[k].vip.ip
    {
      SameAddress(cfg, fwm, anycast, k, svcs[k], new_[k]);
    }
  }

  lemma FlagsNone(svcs: Services, checks: map<CheckKey, Check>)
    ensures FlagsAfter(svcs, svcs, checks, [])
  {
  }

  lemma ShapeDestHealth(s: Service, t: Service, ip: IP, checks: map<CheckKey, Check>)
    requires Shape(s) == Shape(t) && ip in s.dests && ip in t.dests
    ensures DestHealth(s.dests[ip], checks) == DestHealth(t.dests[ip], checks)
  {
    var a, b := Shape(s), Shape(t);
    assert a.dests[ip] == s.dests[ip].(healthy := false, active := false) &&
           b.dests[ip] == t.dests[ip].(healthy := false, active := false);
  }

  lemma FlagsOne(was: Services, cur: Services, active: set<IP>, svcs: Services, active': set<IP>, anycast: set<IP>,
                 checks: map<CheckKey, Check>, refs: seq<DestRef>, i: nat)
    requires i < |refs| && SameShapes(was, cur) && FlagsAfter(was, cur, checks, refs[..i])
    requires var r := refs[i];
             r.svc in cur && r.ip in cur[r.svc].dests
             && DestJudged(cur, active, svcs, active', anycast, r.svc, r.ip, DestHealth(cur[r.svc].dests[r.ip], checks))
    ensures FlagsAfter(was, svcs, checks, refs[..i + 1])
  {
    hide FlagsAfter, DestJudged, DestHealth, Shape;
    var r := refs[i];
    ShapeKeys(cur[r.svc], was[r.svc]);
    ShapeDestHealth(was[r.svc], cur[r.svc], r.ip, checks);
    FlagsStep(was, cur, active, svcs, active', anycast, checks, refs[..i], r);
    assert refs[..i + 1] == refs[..i] + [r];
  }

  // Whether every healthy service has a healthy destination.

  lemma PopulatedElsewhere(was: Services, svcs: Services, k: ServiceKey, j: ServiceKey)
    requires OthersSame(was, svcs, k) && j in was && j != k
    requires forall i :: HealthOf(svcs, j, i) == HealthOf(was, j, i)
    ensures j in svcs && Populated(svcs[j]) == Populated(was[j])
  {
    assert j in was.Keys - {k};
    assert forall i :: HealthOf(svcs, j, i) ==> i in svcs[j].dests && svcs[j].dests[i].healthy;
    assert forall i :: HealthOf(was, j, i) ==> i in was[j].dests && was[j].dests[i].healthy;
    assert forall i | i in svcs[j].dests && svcs[j].dests[i].healthy :: HealthOf(svcs, j, i);
    assert forall i | i in was[j].dests && was[j].dests[i].healthy :: HealthOf(was, j, i);
  }

  /** A flag that went down did so for a service, among those in done, that is healthy without a healthy destination. */
  ghost predicate Lapsed(was: bool, now: bool, svcs: Services, done: set<ServiceKey>) {
    && (now ==> was)
    && (was && !now ==> exists j :: j in done && j in svcs && !Populated(svcs[j]))
  }

  lemma LapseStays(was: bool, now: bool, now': bool, cur: Services, svcs: Services, done: set<ServiceKey>,
                   k: ServiceKey)
    requires Lapsed(was, now, cur, done) && k !in done && ReviewedOne(cur, svcs, k)
    requires (now' ==> now) && (now && !now' ==> k in svcs && !Populated(svcs[k]))
    ensures Lapsed(was, now', svcs, done + {k})
  {
    hide Populated;
    if was && !now {
      var j :| j in done && j in cur && !Populated(cur[j]);
      PopulatedElsewhere(cur, svcs, k, j);
    }
  }

  lemma LapseEnds(was: bool, now: bool, svcs: Services, done: set<ServiceKey>)
    requires Lapsed(was, now, svcs, done) && (now ==> AllPopulated(svcs))
    ensures now == (was && AllPopulated(svcs))
  {
  }

  lemma PopulatedSame(a: Services, b: Services)
    requires SameButChecks(a, b)
    ensures AllPopulated(a) == AllPopulated(b)
  {
    forall k | k in a
      ensures Populated(a[k]) == Populated(b[k])
    {
      assert forall i | i in a[k].dests :: i in b[k].dests;
      assert forall i | i in b[k].dests :: i in a[k].dests;
    }
  }

  lemma NoLapse(served: bool, svcs: Services)
    ensures Lapsed(served, served, svcs, svcs.Keys - svcs.Keys)
  {
  }

  lemma SameAddresses(a: Services, b: Services)
    requires SameButChecks(a, b)
    ensures a.Keys == b.Keys && forall k | k in b :: b[k].vip.ip == a[k].vip.ip
  {
  }

  /** Checks that remain have the states they had, new ones have none. */
  predicate StatesCarried(was: map<CheckKey, Check>, checks: map<CheckKey, Check>) {
    forall c | c in checks :: checks[c].state == if c in was then was[c].state else Unknown
  }

  /** What merging in one new service has done: it is there with its settings, its destinations are some of those it
      had, and their health is gone only if it has moved to another address. */
  ghost predicate MergedOne(cfg: Config, fwm: map<AF, nat>, anycast: set<IP>, was: Services, svcs: Services,
                            k: ServiceKey, new_: Service)
  {
    && svcs.Keys == was.Keys + {k}
    && ServiceReflects(cfg, fwm, anycast, k, svcs[k])
    && (forall ip | ip in svcs[k].dests :: k in was && ip in was[k].dests)
    && (forall j | j in svcs && j != k :: Shape(svcs[j]) == Shape(was[j]))
    && Kept(was, svcs, k, if k in was && was[k].vip.ip != new_.vip.ip then was[k].dests.Keys else {})
  }

  lemma MergedAddresses(cfg: Config, fwm: map<AF, nat>, anycast: set<IP>, was: Services, svcs: Services, k: ServiceKey,
                        new_: Service)
    requires MergedOne(cfg, fwm, anycast, was, svcs, k, new_) && Fresh(cfg, fwm, anycast, k, new_)
    ensures k in svcs && svcs[k].vip.ip == new_.vip.ip
    ensures forall j | j in svcs && j != k :: j in was && svcs[j].vip.ip == was[j].vip.ip
  {
    hide Shape, Kept;
    forall j | j in svcs && j != k
      ensures j in was && svcs[j].vip.ip == was[j].vip.ip
    {
      ShapeKeys(svcs[j], was[j]);
    }
  }

  lemma ReconciledAddresses(cfg: Config, fwm: map<AF, nat>, anycast: set<IP>, mid: Services, svcs: Services,
                            new_: Services, todo: set<ServiceKey>)
    requires ServicesReconciled(cfg, fwm, anycast, mid, new_, todo)
    requires ServicesReconciled(cfg, fwm, anycast, svcs, new_, {})
    ensures forall k | k in svcs :: k in mid && mid[k].vip.ip == svcs[k].vip.ip
  {
    hide DestsReflect, EntryFor;
  }

  // ---- Destinations dropped one by one ----

  /** What holds while the destinations in `todo` are still to be looked at. */
  ghost predicate Dropping(was: Services, cur: Services, k: ServiceKey, keep: set<IP>, todo: set<IP>, served: bool,
                           now: bool)
  {
    && k in was && k in cur && todo <= was[k].dests.Keys
    && ShapesBut(was, cur, k, was[k].(dests := was[k].dests - (was[k].dests.Keys - keep - todo)))
    && Kept(was, cur, k, was[k].dests.Keys - keep - todo)
    && (now ==> served) && (served && !now ==> !Populated(cur[k]))
    && (was[k].dests.Keys <= keep ==> now == served)
  }

  lemma DroppingStarts(was: Services, k: ServiceKey, keep: set<IP>, served: bool)
    requires k in was
    ensures Dropping(was, was, k, keep, was[k].dests.Keys, served, served)
  {
    hide Shape, Kept, Populated;
    KeptRefl(was, k);
    assert was[k].dests.Keys - keep - was[k].dests.Keys == {};
    assert was[k].dests - {} == was[k].dests;
  }

  lemma DroppingPending(was: Services, cur: Services, k: ServiceKey, keep: set<IP>, todo: set<IP>, served: bool,
                        now: bool, ip: IP)
    requires Dropping(was, cur, k, keep, todo, served, now) && ip in todo
    ensures ip in cur[k].dests && cur[k].vip == was[k].vip
    ensures ip in keep ==> Dropping(was, cur, k, keep, todo - {ip}, served, now)
  {
    hide Shape, Kept, Populated;
    ShapeKeys(cur[k], was[k].(dests := was[k].dests - (was[k].dests.Keys - keep - todo)));
    if ip in keep {
      assert was[k].dests.Keys - keep - (todo - {ip}) == was[k].dests.Keys - keep - todo;
    }
  }

  lemma DroppingStep(was: Services, cur: Services, svcs: Services, k: ServiceKey, keep: set<IP>, todo: set<IP>,
                     served: bool, now: bool, now': bool, ip: IP)
    requires Dropping(was, cur, k, keep, todo, served, now) && ip in todo && ip !in keep
    requires ShapesBut(cur, svcs, k, DropDest(cur, k, ip)[k]) && Kept(cur, svcs, k, {ip})
    requires (now' ==> now) && (now && !now' ==> !Populated(svcs[k]))
    requires !Populated(cur[k]) ==> !Populated(svcs[k])
    ensures k in svcs && Dropping(was, svcs, k, keep, todo - {ip}, served, now')
  {
    hide Shape, Kept, Populated;
    var gone := was[k].dests.Keys - keep - todo;
    DropShape(cur[k], was[k].(dests := was[k].dests - gone), ip);
    ShapeKeys(cur[k], was[k].(dests := was[k].dests - gone));
    KeptMore(was, cur, svcs, k, gone, {ip});
    assert was[k].dests - gone - {ip} == was[k].dests - (gone + {ip});
    assert gone + {ip} == was[k].dests.Keys - keep - (todo - {ip});
  }

  lemma DroppingEnds(was: Services, svcs: Services, k: ServiceKey, keep: set<IP>, served: bool, now: bool)
    requires Dropping(was, svcs, k, keep, {}, served, now)
    ensures ShapesBut(was, svcs, k, was[k].(dests := was[k].dests - (was[k].dests.Keys - keep)))
    ensures Kept(was, svcs, k, was[k].dests.Keys - keep)
    ensures (now ==> served) && (served && !now ==> !Populated(svcs[k]))
    ensures was[k].dests.Keys <= keep ==> now == served
  {
    hide ShapesBut, Kept, Populated;
    assert was[k].dests.Keys - keep - {} == was[k].dests.Keys - keep;
  }

  /** Merging in new destinations and then dropping those not among them leaves just the new ones. */
  lemma DestsReplaced(cfg: Config, was: Services, merged: Services, svcs: Services, k: ServiceKey, new_: map<IP, Dest>)
    requires k in was && DestsReflect(cfg, k, was[k].entry, new_)
    requires ShapesBut(was, merged, k, was[k].(dests := was[k].dests + new_))
    requires Kept(was, merged, k, DisabledIn(new_, new_.Keys))
    requires ShapesBut(merged, svcs, k, merged[k].(dests := merged[k].dests - (merged[k].dests.Keys - new_.Keys)))
    requires Kept(merged, svcs, k, merged[k].dests.Keys - new_.Keys)
    ensures ShapesBut(was, svcs, k, was[k].(dests := new_)) && svcs[k].dests.Keys == new_.Keys
    ensures merged[k].dests.Keys == was[k].dests.Keys + new_.Keys
    ensures DestsReflect(cfg, k, svcs[k].entry, svcs[k].dests) && ReviewedOne(was, svcs, k)
  {
    hide Shape, DestsReflect, Kept, ReviewedOne;
    var s, gone := was[k], merged[k].dests.Keys - new_.Keys;
    ShapeKeys(merged[k], s.(dests := s.dests + new_));
    KeptMore(was, merged, svcs, k, DisabledIn(new_, new_.Keys), gone);
    DropAllShape(merged[k], s.(dests := s.dests + new_), gone);
    assert s.dests + new_ - gone == new_;
    ShapeKeys(svcs[k], s.(dests := new_));
    ReflectShape(cfg, k, svcs[k], s.(dests := new_));
    ReconciledReviewed(was, svcs, k, s, new_, DisabledIn(new_, new_.Keys) + gone);
  }

  // ---- Services reviewed one by one ----

  /** What dropping service k, or giving it its destinations, has done. */
  ghost predicate ReconciledOne(cfg: Config, fwm: map<AF, nat>, anycast: set<IP>, cur: Services, svcs: Services,
                                new_: Services, k: ServiceKey, now: bool, now': bool)
  {
    && k in cur
    && svcs.Keys == (if k in new_ then cur.Keys else cur.Keys - {k})
    && (forall j | j in svcs && j != k :: Shape(svcs[j]) == Shape(cur[j]))
    && (k in new_ ==>
          && ServiceReflects(cfg, fwm, anycast, k, svcs[k])
          && DestsReflect(cfg, k, svcs[k].entry, svcs[k].dests)
          && (cur[k].dests.Keys <= svcs[k].dests.Keys ==> now' == now))
    && (k !in new_ ==> now' == now)
    && (now' ==> now) && (now && !now' ==> k in svcs && !Populated(svcs[k]))
    && ReviewedOne(cur, svcs, k)
  }

  /** What holds while the services in `todo` are still to be looked at. */
  ghost predicate Reconciling(cfg: Config, fwm: map<AF, nat>, anycast: set<IP>, was: Services, cur: Services,
                              new_: Services, todo: set<ServiceKey>, served: bool, now: bool, maps: set<ServiceKey>,
                              left: set<ServiceKey>)
  {
    && todo <= was.Keys
    && ServicesReconciled(cfg, fwm, anycast, cur, new_, todo)
    && Untouched(was, cur, todo) && Reviewed(was, cur, todo)
    && (KeepsDests(was, cur) ==> now == served)
    && Lapsed(served, now, cur, was.Keys - todo)
    && left == maps - (was.Keys - todo - new_.Keys)
  }

  lemma ReconcilingStarts(cfg: Config, fwm: map<AF, nat>, anycast: set<IP>, was: Services, new_: Services, served: bool,
                          maps: set<ServiceKey>)
    requires ServicesReconciled(cfg, fwm, anycast, was, new_, was.Keys)
    ensures Reconciling(cfg, fwm, anycast, was, was, new_, was.Keys, served, served, maps, maps)
  {
    hide ServicesReconciled, Untouched, Reviewed, KeepsDests, Lapsed;
    UntouchedStarts(was);
    ReviewedNone(was);
    NoLapse(served, was);
  }

  lemma ReconcilePending(cfg: Config, fwm: map<AF, nat>, anycast: set<IP>, was: Services, cur: Services, new_: Services,
                         todo: set<ServiceKey>, k: ServiceKey, served: bool, now: bool, maps: set<ServiceKey>,
                         left: set<ServiceKey>)
    requires Reconciling(cfg, fwm, anycast, was, cur, new_, todo, served, now, maps, left) && k in todo
    ensures k in cur && (k in left ==> k in maps)
    ensures if k in new_ then ServiceReflects(cfg, fwm, anycast, k, cur[k]) else cur[k].vip.ip !in Addresses(cfg)
  {
    hide ServiceReflects, Addresses, Untouched, Reviewed, KeepsDests, Lapsed;
  }

  lemma ReconcilingStep(cfg: Config, fwm: map<AF, nat>, anycast: set<IP>, was: Services, cur: Services, svcs: Services,
                        new_: Services, todo: set<ServiceKey>, k: ServiceKey, served: bool, now: bool, now': bool,
                        maps: set<ServiceKey>, left: set<ServiceKey>, left': set<ServiceKey>)
    requires Reconciling(cfg, fwm, anycast, was, cur, new_, todo, served, now, maps, left) && k in todo
    requires ReconciledOne(cfg, fwm, anycast, cur, svcs, new_, k, now, now')
    requires left' == left - if k in new_ then {} else {k}
    ensures Reconciling(cfg, fwm, anycast, was, svcs, new_, todo - {k}, served, now', maps, left')
  {
    hide ServicesReconciled, Untouched, Reviewed, ReviewedOne, KeepsDests, Lapsed, Shape, ServiceReflects, DestsReflect,
         Populated;
    ReconcileStep(cfg, fwm, anycast, cur, svcs, new_, todo, k);
    KeepsStep(was, cur, svcs, todo, k);
    ReviewedStep(was, cur, svcs, todo, k);
    LapseStays(served, now, now', cur, svcs, was.Keys - todo, k);
    assert was.Keys - todo + {k} == was.Keys - (todo - {k});
  }

  lemma ReconcilingEnds(cfg: Config, fwm: map<AF, nat>, anycast: set<IP>, was: Services, svcs: Services, new_: Services,
                        served: bool, now: bool, maps: set<ServiceKey>, left: set<ServiceKey>)
    requires Reconciling(cfg, fwm, anycast, was, svcs, new_, {}, served, now, maps, left)
    ensures ServicesReconciled(cfg, fwm, anycast, svcs, new_, {}) && Reviewed(was, svcs, {})
    ensures KeepsDests(was, svcs) ==> now == served
    ensures Lapsed(served, now, svcs, was.Keys) && left == maps - (was.Keys - new_.Keys)
  {
    hide ServicesReconciled, Reviewed, KeepsDests, Lapsed;
    assert was.Keys - {} == was.Keys;
  }
}
