/** What an override of a backend does to the destinations of a vserver. */
module Overrides {
  import opened Types
  import opened Propagation
  import opened CheckExpansion
  import opened HealthFlags

  /** A destination before and after: one that is not concerned keeps its health, an enabled one is healthy, and a
      disabled one is down. */
  predicate DestOverridden(was: Dest, d: Dest, hit: bool, os: OverrideState) {
    && d.backend == was.backend
    && (!hit || os.OverrideDefault? ==> d.healthy == was.healthy)
    && (hit && os.OverrideEnable? ==> d.healthy)
    && (hit && os.OverrideDisable? ==> !d.active && (d.healthy ==> was.healthy))
  }

  /** The effect on all destinations of the host, but for those in todo. */
  predicate Overridden(was: Services, svcs: Services, hostname: string, os: OverrideState, todo: set<DestRef>) {
    && was.Keys == svcs.Keys
    && (forall k | k in svcs :: was[k].dests.Keys == svcs[k].dests.Keys)
    && forall k, ip | k in svcs && ip in svcs[k].dests ::
         DestOverridden(was[k].dests[ip], svcs[k].dests[ip],
                        was[k].dests[ip].backend.hostname == hostname && DestRef(k, ip) !in todo, os)
  }

  /** The outcome of applying an override to one destination. */
  ghost predicate OneOverridden(svcs: Services, active: set<IP>, svcs': Services, active': set<IP>, anycast: set<IP>,
                                r: DestRef, os: OverrideState)
  {
    r.svc in svcs && r.ip in svcs[r.svc].dests &&
    var d := svcs[r.svc].dests[r.ip];
    if os.OverrideDisable? && d.active then DestJudged(svcs, active, svcs', active', anycast, r.svc, r.ip, false)
    else if os.OverrideEnable? && !d.active && !d.healthy
    then DestJudged(svcs, active, svcs', active', anycast, r.svc, r.ip, true)
    else svcs' == svcs && active' == active
  }

  /** Health flags change for the one destination only. */
  lemma JudgedFlags(svcs: Services, active: set<IP>, svcs': Services, active': set<IP>, anycast: set<IP>, k: ServiceKey,
                    ip: IP, healthy: bool)
    requires DestJudged(svcs, active, svcs', active', anycast, k, ip, healthy)
    ensures svcs'.Keys == svcs.Keys && forall j | j in svcs :: svcs'[j].dests.Keys == svcs[j].dests.Keys
    ensures forall j, i | j in svcs && i in svcs[j].dests ::
              && svcs'[j].dests[i].backend == svcs[j].dests[i].backend
              && svcs'[j].dests[i].healthy == if j == k && i == ip then healthy else svcs[j].dests[i].healthy
    ensures !healthy ==> !svcs'[k].dests[ip].active
  {
    assert svcs'.Keys == svcs.Keys by { hide Settle, Stable, ServiceHealth, NewActive; }
    hide DestJudged;
    forall j | j in svcs
      ensures svcs'[j].dests.Keys == svcs[j].dests.Keys
      ensures forall i | i in svcs[j].dests ::
                && svcs'[j].dests[i].backend == svcs[j].dests[i].backend
                && svcs'[j].dests[i].healthy == if j == k && i == ip then healthy else svcs[j].dests[i].healthy
    {
      JudgedFlagsOf(svcs, active, svcs', active', anycast, k, ip, healthy, j);
    }
    JudgedFlagsOf(svcs, active, svcs', active', anycast, k, ip, healthy, k);
  }

  lemma JudgedFlagsOf(svcs: Services, active: set<IP>, svcs': Services, active': set<IP>, anycast: set<IP>,
                      k: ServiceKey, ip: IP, healthy: bool, j: ServiceKey)
    requires DestJudged(svcs, active, svcs', active', anycast, k, ip, healthy) && j in svcs
    ensures j in svcs' && svcs'[j].dests.Keys == svcs[j].dests.Keys
    ensures forall i | i in svcs[j].dests ::
              && svcs'[j].dests[i].backend == svcs[j].dests[i].backend
              && svcs'[j].dests[i].healthy == if j == k && i == ip then healthy else svcs[j].dests[i].healthy
    ensures j == k && !healthy ==> !svcs'[k].dests[ip].active
  {
    hide Stable, ServiceHealth, NewActive, Settle;
    var marked := SetDest(svcs, k, ip, svcs[k].dests[ip].(healthy := healthy));
    var judged := marked[k := marked[k].(healthy := svcs'[k].healthy)];
    SettleHealth(judged[j], active');
  }

  /** Failing a destination that is up brings nothing else up. */
  lemma DisableShrinks(svcs: Services, active: set<IP>, svcs': Services, active': set<IP>, anycast: set<IP>,
                       k: ServiceKey, ip: IP)
    requires Settled(svcs, active) && DestJudged(svcs, active, svcs', active', anycast, k, ip, false) &&
             svcs[k].dests[ip].active
    ensures forall j, i | j in svcs && i in svcs[j].dests :: svcs'[j].dests[i].active ==> svcs[j].dests[i].active
  {
    hide Stable, ServiceHealth;
    assert svcs[k] == Settle(svcs[k], active);
    assert svcs[k].healthy && svcs[k].vip.ip in active && active' <= active;
    forall j, i | j in svcs && i in svcs[j].dests
      ensures svcs'[j].dests[i].active ==> svcs[j].dests[i].active
    {
      assert svcs[j] == Settle(svcs[j], active);
    }
  }

  lemma OverrideQuiet(was: Services, svcs: Services, active: set<IP>, hostname: string, os: OverrideState,
                      todo: set<DestRef>, r: DestRef)
    requires Overridden(was, svcs, hostname, os, todo) && Settled(svcs, active) && r in todo && r.svc in svcs &&
             r.ip in svcs[r.svc].dests
    requires var d := svcs[r.svc].dests[r.ip];
             d.backend.hostname == hostname ==>
                 !(os.OverrideDisable? && d.active) && !(os.OverrideEnable? && !d.active && !d.healthy)
    ensures Overridden(was, svcs, hostname, os, todo - {r})
  {
    assert svcs[r.svc] == Settle(svcs[r.svc], active);
    hide Settled;
  }

  lemma OverrideForced(was: Services, svcs: Services, active: set<IP>, svcs': Services, active': set<IP>,
                       anycast: set<IP>,
                       hostname: string, os: OverrideState, todo: set<DestRef>, r: DestRef)
    requires Overridden(was, svcs, hostname, os, todo) && Settled(svcs, active) && r in todo && r.svc in svcs &&
             r.ip in svcs[r.svc].dests
    requires svcs[r.svc].dests[r.ip].backend.hostname == hostname && !os.OverrideDefault?
    requires os.OverrideDisable? ==> svcs[r.svc].dests[r.ip].active
    requires DestJudged(svcs, active, svcs', active', anycast, r.svc, r.ip, os.OverrideEnable?)
    ensures Overridden(was, svcs', hostname, os, todo - {r})
  {
    hide DestJudged, Settled, DestOverridden;
    JudgedFlags(svcs, active, svcs', active', anycast, r.svc, r.ip, os.OverrideEnable?);
    if os.OverrideDisable? {
      DisableShrinks(svcs, active, svcs', active', anycast, r.svc, r.ip);
    }
    forall k, ip | k in svcs' && ip in svcs'[k].dests
      ensures DestOverridden(was[k].dests[ip], svcs'[k].dests[ip],
                             was[k].dests[ip].backend.hostname == hostname && DestRef(k, ip) !in todo - {r}, os)
    {
      ForcedDest(was[k].dests[ip], svcs[k].dests[ip], svcs'[k].dests[ip], hostname, os, DestRef(k, ip) in todo,
                 DestRef(k, ip) == r);
    }
  }

  lemma ForcedDest(was: Dest, d: Dest, d': Dest, hostname: string, os: OverrideState, pending: bool, forced: bool)
    requires DestOverridden(was, d, was.backend.hostname == hostname && !pending, os) && d'.backend == d.backend
    requires d'.healthy == if forced then os.OverrideEnable? else d.healthy
    requires forced ==> d.backend.hostname == hostname && !os.OverrideDefault? && (os.OverrideDisable? ==> !d'.active)
    requires os.OverrideDisable? && d'.active ==> d.active
    ensures DestOverridden(was, d', was.backend.hostname == hostname && !(pending && !forced), os)
  {
  }

  lemma OverrideStep(was: Services, svcs: Services, active: set<IP>, svcs': Services, active': set<IP>,
                     anycast: set<IP>,
                     hostname: string, os: OverrideState, todo: set<DestRef>, r: DestRef)
    requires Overridden(was, svcs, hostname, os, todo) && Settled(svcs, active) && r in todo && r.svc in svcs &&
             r.ip in svcs[r.svc].dests
    requires if svcs[r.svc].dests[r.ip].backend.hostname == hostname
             then OneOverridden(svcs, active, svcs', active', anycast, r, os)
             else svcs' == svcs && active' == active
    ensures Overridden(was, svcs', hostname, os, todo - {r})
  {
    hide DestJudged, Settled, Overridden;
    var d := svcs[r.svc].dests[r.ip];
    if d.backend.hostname == hostname &&
        ((os.OverrideDisable? && d.active) || (os.OverrideEnable? && !d.active && !d.healthy)) {
      OverrideForced(was, svcs, active, svcs', active', anycast, hostname, os, todo, r);
    } else {
      OverrideQuiet(was, svcs, active, hostname, os, todo, r);
    }
  }

  lemma NoneOverridden(svcs: Services, hostname: string, os: OverrideState)
    ensures Overridden(svcs, svcs, hostname, os, AllRefs(svcs))
  {
  }
}
