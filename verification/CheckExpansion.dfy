/** The expansion of checks over all destinations of a vserver. */
module CheckExpansion {
  import opened Types
  import opened Propagation
  import opened Refinement
  import opened VserverConfig
  import opened Reconfiguration

  function AllRefs(svcs: Services): set<DestRef> {
    set k, ip | k in svcs && ip in svcs[k].dests :: DestRef(k, ip)
  }

  /** Every destination has exactly the checks it is to pass. */
  ghost predicate Checked(cfg: Config, svcs: Services, todo: set<DestRef>) {
    forall k, ip, c | k in svcs && ip in svcs[k].dests && DestRef(k, ip) !in todo ::
      c in svcs[k].dests[ip].checks <==> WantedCheck(cfg, k, svcs[k], ip, svcs[k].dests[ip], c)
  }

  /** Checks and destinations are linked, for the destinations outside `todo`. */
  predicate LinkedBut(svcs: Services, checks: map<CheckKey, Check>, todo: set<DestRef>) {
    && (forall c, r | c in checks && r in checks[c].dests ::
          r !in todo && r.ip == c.backendIP && r.svc in svcs && r.ip in svcs[r.svc].dests &&
              c in svcs[r.svc].dests[r.ip].checks)
    && (forall k, ip, c | k in svcs && ip in svcs[k].dests && DestRef(k, ip) !in todo &&
        c in svcs[k].dests[ip].checks ::
          c in checks && DestRef(k, ip) in checks[c].dests)
  }

  lemma LinkedWhole(svcs: Services, checks: map<CheckKey, Check>)
    requires LinkedBut(svcs, checks, {})
    ensures ChecksLinked(svcs, checks)
  {
  }

  function Recheck(svcs: Services, k: ServiceKey, ip: IP, keys: seq<CheckKey>): Services
    requires k in svcs && ip in svcs[k].dests
  {
    SetDest(svcs, k, ip, svcs[k].dests[ip].(checks := keys))
  }

  lemma LinkedStep(svcs: Services, checks: map<CheckKey, Check>, checks': map<CheckKey, Check>, todo: set<DestRef>,
                   k: ServiceKey, ip: IP, keys: seq<CheckKey>)
    requires LinkedBut(svcs, checks, todo) && DestRef(k, ip) in todo && k in svcs && ip in svcs[k].dests
    requires Entered(checks, checks', keys, DestRef(k, ip)) && forall c | c in keys :: c.backendIP == ip
    ensures LinkedBut(Recheck(svcs, k, ip, keys), checks', todo - {DestRef(k, ip)})
  {
    hide Recheck;
    var ref, svcs' := DestRef(k, ip), Recheck(svcs, k, ip, keys);
    forall c, r | c in checks' && r in checks'[c].dests
      ensures r !in todo - {ref} && r.ip == c.backendIP && r.svc in svcs' && r.ip in svcs'[r.svc].dests
      ensures c in svcs'[r.svc].dests[r.ip].checks
    {
      CheckToDest(svcs, checks, checks', todo, k, ip, keys, c, r);
    }
    forall j, i, c | j in svcs' && i in svcs'[j].dests && DestRef(j, i) !in todo - {ref} &&
        c in svcs'[j].dests[i].checks
      ensures c in checks' && DestRef(j, i) in checks'[c].dests
    {
      DestToCheck(svcs, checks, checks', todo, k, ip, keys, c, j, i);
    }
  }

  lemma CheckToDest(svcs: Services, checks: map<CheckKey, Check>, checks': map<CheckKey, Check>, todo: set<DestRef>,
                    k: ServiceKey, ip: IP, keys: seq<CheckKey>, c: CheckKey, r: DestRef)
    requires LinkedBut(svcs, checks, todo) && DestRef(k, ip) in todo && k in svcs && ip in svcs[k].dests
    requires Entered(checks, checks', keys, DestRef(k, ip)) && forall c | c in keys :: c.backendIP == ip
    requires c in checks' && r in checks'[c].dests
    ensures var svcs' := Recheck(svcs, k, ip, keys);
            && r !in todo - {DestRef(k, ip)} && r.ip == c.backendIP && r.svc in svcs' && r.ip in svcs'[r.svc].dests
            && c in svcs'[r.svc].dests[r.ip].checks
  {
    if r != DestRef(k, ip) {
      assert c in checks && r in checks[c].dests;
    }
  }

  lemma DestToCheck(svcs: Services, checks: map<CheckKey, Check>, checks': map<CheckKey, Check>, todo: set<DestRef>,
                    k: ServiceKey, ip: IP, keys: seq<CheckKey>, c: CheckKey, j: ServiceKey, i: IP)
    requires LinkedBut(svcs, checks, todo) && DestRef(k, ip) in todo && k in svcs && ip in svcs[k].dests
    requires Entered(checks, checks', keys, DestRef(k, ip))
    requires var svcs' := Recheck(svcs, k, ip, keys);
             && j in svcs' && i in svcs'[j].dests && DestRef(j, i) !in todo - {DestRef(k, ip)}
             && c in svcs'[j].dests[i].checks
    ensures c in checks' && DestRef(j, i) in checks'[c].dests
  {
    if DestRef(j, i) != DestRef(k, ip) {
      assert c in svcs[j].dests[i].checks;
    }
  }

  lemma CheckedStep(cfg: Config, svcs: Services, todo: set<DestRef>, k: ServiceKey, ip: IP, keys: seq<CheckKey>)
    requires Checked(cfg, svcs, todo) && k in svcs && ip in svcs[k].dests
    requires forall c :: c in keys <==> WantedCheck(cfg, k, svcs[k], ip, svcs[k].dests[ip], c)
    ensures Checked(cfg, Recheck(svcs, k, ip, keys), todo - {DestRef(k, ip)})
  {
    hide EntryChecks;
    var svcs' := Recheck(svcs, k, ip, keys);
    forall j, i, c | j in svcs' && i in svcs'[j].dests && DestRef(j, i) !in todo - {DestRef(k, ip)}
      ensures c in svcs'[j].dests[i].checks <==> WantedCheck(cfg, j, svcs'[j], i, svcs'[j].dests[i], c)
    {
      assert svcs'[j].vip == svcs[j].vip && svcs'[j].entry == svcs[j].entry &&
             svcs'[j].dests[i].backend == svcs[j].dests[i].backend;
      assert DestRef(j, i) != DestRef(k, ip) ==> svcs'[j].dests[i] == svcs[j].dests[i];
    }
  }

  lemma RecheckDests(cfg: Config, k: ServiceKey, s: Service, ip: IP, keys: seq<CheckKey>)
    requires ip in s.dests && DestsReflect(cfg, k, s.entry, s.dests)
    ensures DestsReflect(cfg, k, s.entry, s.dests[ip := s.dests[ip].(checks := keys)])
  {
    var dests := s.dests[ip := s.dests[ip].(checks := keys)];
    forall i | i in dests
      ensures DestReflects(cfg, k, s.entry, i, dests[i])
    {
      assert DestReflects(cfg, k, s.entry, i, s.dests[i]);
    }
  }

  /** The checks of a destination are no setting of its service or of IPVS. */
  lemma RecheckReflects(cfg: Config, fwm: map<AF, nat>, anycast: set<IP>, svcs: Services, k: ServiceKey, ip: IP,
                        keys: seq<CheckKey>)
    requires Reflects(cfg, fwm, anycast, svcs) && k in svcs && ip in svcs[k].dests
    ensures Reflects(cfg, fwm, anycast, Recheck(svcs, k, ip, keys))
  {
    hide Wanted, EntryFor, DestsReflect;
    RecheckDests(cfg, k, svcs[k], ip, keys);
  }

  lemma RecheckRefs(svcs: Services, k: ServiceKey, ip: IP, keys: seq<CheckKey>)
    requires k in svcs && ip in svcs[k].dests
    ensures AllRefs(Recheck(svcs, k, ip, keys)) == AllRefs(svcs)
  {
    var svcs' := Recheck(svcs, k, ip, keys);
    forall r | r in AllRefs(svcs)
      ensures r in AllRefs(svcs')
    {
      assert r.svc in svcs' && r.ip in svcs'[r.svc].dests;
    }
  }

  lemma ChecksStart(cfg: Config, fwm: map<AF, nat>, svcs: Services)
    ensures LinkedBut(svcs, map[], AllRefs(svcs)) && Checked(cfg, svcs, AllRefs(svcs))
    ensures Owned(cfg, fwm, map[]) && AllUnknown(map[])
  {
  }

  /** A destination still to do is on record, with its settings, and under no check. */
  lemma RefOpen(cfg: Config, fwm: map<AF, nat>, anycast: set<IP>, svcs: Services, checks: map<CheckKey, Check>,
                todo: set<DestRef>, r: DestRef)
    requires r in todo && todo <= AllRefs(svcs) && LinkedBut(svcs, checks, todo) && Reflects(cfg, fwm, anycast, svcs)
    ensures r == DestRef(r.svc, r.ip) && r.svc in svcs && r.ip in svcs[r.svc].dests
    ensures ServiceReflects(cfg, fwm, anycast, r.svc, svcs[r.svc])
    ensures forall c | c in checks :: r !in checks[c].dests
  {
    hide ServiceReflects, DestsReflect;
    assert r in AllRefs(svcs);
  }

  lemma RecheckFlags(svcs: Services, k: ServiceKey, ip: IP, keys: seq<CheckKey>, active: set<IP>, anycast: set<IP>)
    requires k in svcs && ip in svcs[k].dests
    ensures VipsExact(svcs, active, anycast) ==> VipsExact(Recheck(svcs, k, ip, keys), active, anycast)
    ensures AllDown(svcs) ==> AllDown(Recheck(svcs, k, ip, keys))
  {
    hide VipHealth;
    var svcs' := Recheck(svcs, k, ip, keys);
    forall r
      ensures VipHealth(svcs', r, anycast) == VipHealth(svcs, r, anycast)
    {
      VipHealthSame(svcs, svcs', r, anycast);
    }
  }

  /** Records with nothing up, and checks with nothing reported, carry the verdicts of those checks. */
  lemma DownInOrder(cfg: Config, fwm: map<AF, nat>, anycast: set<IP>, svcs: Services, checks: map<CheckKey, Check>)
    requires ConfigOK(cfg, anycast) && MarksOK(cfg, fwm) && Reflects(cfg, fwm, anycast, svcs)
    requires AllDown(svcs) && AllUnknown(checks)
    ensures Exact(svcs, checks) && VipsExact(svcs, {}, anycast)
    ensures forall k | k in svcs :: cfg.Addr(svcs[k].vip.ip.af) == Some(svcs[k].vip.ip)
  {
    hide MarksOK, Wanted;
    forall k | k in svcs
      ensures Stable(svcs[k]) && MarkDests(svcs[k], checks) == svcs[k]
      ensures cfg.Addr(svcs[k].vip.ip.af) == Some(svcs[k].vip.ip)
    {
      DownExact(cfg, fwm, anycast, k, svcs[k], checks);
    }
  }

  lemma DownExact(cfg: Config, fwm: map<AF, nat>, anycast: set<IP>, k: ServiceKey, s: Service,
                  checks: map<CheckKey, Check>)
    requires ConfigOK(cfg, anycast) && MarksOK(cfg, fwm) && ServiceReflects(cfg, fwm, anycast, k, s)
    requires !s.healthy && AllUnknown(checks)
    requires forall ip | ip in s.dests :: !s.dests[ip].healthy
    requires DestsReflect(cfg, k, s.entry, s.dests)
    ensures Stable(s) && MarkDests(s, checks) == s && cfg.Addr(s.vip.ip.af) == Some(s.vip.ip)
  {
    hide MarkDests, Stable;
    assert forall ip | ip in s.dests :: DestReflects(cfg, k, s.entry, ip, s.dests[ip]);
    ReflectsOK(cfg, fwm, anycast, k, s);
    DownStable(s);
    DownMarked(s, checks);
  }

  lemma DownStable(s: Service)
    requires s.entry.low <= s.entry.high && !s.healthy && forall ip | ip in s.dests :: !s.dests[ip].healthy
    ensures Stable(s)
  {
    assert (set ip | ip in s.dests && s.dests[ip].healthy) == {};
  }

  lemma DownMarked(s: Service, checks: map<CheckKey, Check>)
    requires AllUnknown(checks) && forall ip | ip in s.dests :: !s.dests[ip].healthy
    ensures MarkDests(s, checks) == s
  {
    forall ip | ip in s.dests
      ensures MarkDest(s.dests[ip], checks) == s.dests[ip]
    {
      assert s.dests[ip].checks != [] ==> s.dests[ip].checks[0] in s.dests[ip].checks;
    }
    assert MarkDests(s, checks).dests == s.dests;
  }

  lemma NoTypes(cfg: Config)
    ensures TypesStable({}, cfg) && {} + FixedVIPs(cfg) == FixedVIPs(cfg)
  {
  }

  /** The configuration shows in the shapes of the records. */
  lemma ShapesConfigured(cfg: Config, fwm: map<AF, nat>, anycast: set<IP>, svcs: Services, svcs': Services)
    requires SameShapes(svcs, svcs') && Reflects(cfg, fwm, anycast, svcs) && Checked(cfg, svcs, {})
    ensures Reflects(cfg, fwm, anycast, svcs') && Checked(cfg, svcs', {})
  {
    hide Shape, ServiceReflects, DestsReflect, Wanted, WantedCheck;
    forall k | k in svcs'
      ensures ServiceReflects(cfg, fwm, anycast, k, svcs'[k]) && DestsReflect(cfg, k, svcs'[k].entry, svcs'[k].dests)
    {
      ReflectsShape(cfg, fwm, anycast, k, svcs'[k], svcs[k]);
      ReflectShape(cfg, k, svcs'[k], svcs[k]);
    }
    forall k, ip, c | k in svcs' && ip in svcs'[k].dests && DestRef(k, ip) !in {}
      ensures c in svcs'[k].dests[ip].checks <==> WantedCheck(cfg, k, svcs'[k], ip, svcs'[k].dests[ip], c)
    {
      ShapeChecks(svcs[k], svcs'[k]);
      WantedShape(cfg, k, svcs[k], svcs'[k], ip, c);
    }
  }

  lemma ShapeChecks(s: Service, t: Service)
    requires Shape(s) == Shape(t)
    ensures s.dests.Keys == t.dests.Keys
    ensures forall ip | ip in s.dests :: s.dests[ip].checks == t.dests[ip].checks
  {
    var a, b := Shape(s), Shape(t);
    assert a.dests.Keys == s.dests.Keys && b.dests.Keys == t.dests.Keys;
    forall ip | ip in s.dests
      ensures s.dests[ip].checks == t.dests[ip].checks
    {
      assert a.dests[ip] == b.dests[ip];
    }
  }

  lemma WantedShape(cfg: Config, k: ServiceKey, s: Service, t: Service, ip: IP, c: CheckKey)
    requires Shape(s) == Shape(t) && ip in s.dests
    ensures ip in t.dests && WantedCheck(cfg, k, s, ip, s.dests[ip], c) == WantedCheck(cfg, k, t, ip, t.dests[ip], c)
  {
    hide Shape, EntryChecks;
    ShapeKeys(s, t);
  }
}
