/**
The healthcheck manager: which checkers run, under which ids, for which checks, and with which marks.
Every rebuild starts the maps over, so the lemmas here say what survives from one to the next.
*/
module Healthchecks {
  import opened Types
  import opened Propagation
  import opened Marks
  import opened Sets

  /** A healthcheck as the manager sees it: its key, its configuration and the vserver to notify. */
  datatype Managed = Managed(key: CheckKey, hc: Healthcheck, vserver: string)

  /** What two checks must share to be served by one checker. */
  datatype CheckerKey = CheckerKey(key: CheckKey, hc: Healthcheck)

  datatype MarkKey = MarkKey(backend: IP, mode: HCMode)

  /** A running checker; its mark was fixed when it was made (0 for none). */
  datatype Checker = Checker(id: nat, ck: CheckerKey, mark: nat)

  const NO_IP := IP(IPv6, 0)

  /** Drops from a key what does not affect how the check is carried out. */
  function Dedup(key: CheckKey): CheckKey {
    if key.mode.Plain? then key.(name := "", vserverIP := NO_IP, servicePort := 0, serviceProto := 0)
    else key.(name := "")
  }

  function CheckerOf(c: Managed): CheckerKey {
    CheckerKey(Dedup(c.key), c.hc)
  }

  function MarkOf(ck: CheckerKey): MarkKey {
    MarkKey(ck.key.backendIP, ck.key.mode)
  }

  predicate NeedsMark(ck: CheckerKey) {
    !ck.key.mode.Plain?
  }

  /** Two checks share a checker exactly when their configurations agree, and their keys in everything but the name and,
      for plain checks, the service. */
  lemma SharedCheckerIff(a: Managed, b: Managed)
    ensures CheckerOf(a) == CheckerOf(b) <==>
              && a.hc == b.hc
              && a.key.backendIP == b.key.backendIP && a.key.mode == b.key.mode && a.key.kind == b.key.kind &&
                 a.key.hcPort == b.key.hcPort
              && (!a.key.mode.Plain? ==> a.key.vserverIP == b.key.vserverIP && a.key.servicePort == b.key.servicePort
                                         && a.key.serviceProto == b.key.serviceProto)
    ensures Dedup(Dedup(a.key)) == Dedup(a.key)
  {
  }

  /** A notification to the vserver of a check. */
  datatype Note = Note(vserver: string, key: CheckKey, state: CheckState)

  type Ids = map<CheckerKey, nat>
  type Checkers = map<nat, Checker>
  type Listing = map<nat, seq<Managed>>

  predicate NoRepeats(s: seq<Managed>) {
    forall i, j | 0 <= i < j < |s| :: s[i] != s[j]
  }

  /** A check is listed under one id only, and once. */
  ghost predicate ListedOnce(checks: Listing) {
    && (forall id | id in checks :: NoRepeats(checks[id]))
    && (forall id, id', c | id in checks && id' in checks && c in checks[id] && c in checks[id'] :: id == id')
  }

  /** Checkers and lists share their ids, all of them below `next`; a list holds checks of one checker only. */
  ghost predicate Coherent(ids: Ids, cfgs: Checkers, checks: Listing, next: nat) {
    && cfgs.Keys == checks.Keys
    && (forall id | id in cfgs :: id < next && cfgs[id].id == id && checks[id] != [])
    && (forall id, c | id in checks && c in checks[id] :: CheckerOf(c) == cfgs[id].ck)
    && (forall ck | ck in ids :: ids[ck] in cfgs && cfgs[ids[ck]].ck == ck)
    && (forall id | id in cfgs :: cfgs[id].ck in ids)
    && ListedOnce(checks)
  }

  /** No two checker keys share an id. */
  lemma IdsInjective(ids: Ids, cfgs: Checkers, checks: Listing, next: nat, a: CheckerKey, b: CheckerKey)
    requires Coherent(ids, cfgs, checks, next) && a in ids && b in ids && ids[a] == ids[b]
    ensures a == b && ids[a] < next
  {
    assert cfgs[ids[a]].ck == a;
  }

  /** Every checker that needs a mark carries the one on record for its backend and mode. */
  ghost predicate MarksFrozen(cfgs: Checkers, marks: map<MarkKey, nat>) {
    forall id | id in cfgs && NeedsMark(cfgs[id].ck) ::
      MarkOf(cfgs[id].ck) in marks && cfgs[id].mark == marks[MarkOf(cfgs[id].ck)]
  }

  /** The backends and modes in use. */
  function MarksInUse(cfgs: Checkers): set<MarkKey> {
    set id | id in cfgs && NeedsMark(cfgs[id].ck) :: MarkOf(cfgs[id].ck)
  }

  // ---- One step of a rebuild ----

  /** The maps under construction. */
  datatype Maps = Maps(ids: Ids, cfgs: Checkers, checks: Listing)

  function Enter(m: Maps, id: nat, cfg: Checker, c: Managed): Maps {
    Maps(m.ids[CheckerOf(c) := id], m.cfgs[id := cfg],
         m.checks[id := if id in m.checks then m.checks[id] + [c] else [c]])
  }

  /** A checker of the old maps keeps its id and itself; a new one has an id from `from` on, and one check. */
  ghost predicate Descends(old_: Maps, m: Maps, from: nat) {
    forall id | id in m.cfgs ::
      if m.cfgs[id].ck in old_.ids then id == old_.ids[m.cfgs[id].ck] && id in old_.cfgs && m.cfgs[id] == old_.cfgs[id]
      else from <= id && id in m.checks && |m.checks[id]| == 1
  }

  /** The lists hold checks of `all` outside `todo`. */
  ghost predicate Sourced(checks: Listing, all: map<CheckKey, Managed>, todo: set<CheckKey>) {
    forall id, c | id in checks && c in checks[id] :: c.key in all && c.key !in todo && all[c.key] == c
  }

  /** How far a rebuild over `all` from the maps `old_` has got, with `todo` still to do and ids handed out from `from`
      on. */
  ghost predicate Underway(old_: Maps, m: Maps, all: map<CheckKey, Managed>, todo: set<CheckKey>, from: nat,
                           next: nat)
  {
    from <= next && Coherent(m.ids, m.cfgs, m.checks, next) && Descends(old_, m, from) && Sourced(m.checks, all, todo)
  }

  lemma EnterKeepsListed(checks: Listing, id: nat, c: Managed)
    requires ListedOnce(checks)
    requires forall i | i in checks :: c !in checks[i]
    ensures ListedOnce(checks[id := if id in checks then checks[id] + [c] else [c]])
  {
    var list := if id in checks then checks[id] + [c] else [c];
    var checks' := checks[id := list];
    assert forall x :: x in list <==> (id in checks && x in checks[id]) || x == c;
    forall i, j | 0 <= i < j < |list|
      ensures list[i] != list[j]
    {
      if id in checks && j < |checks[id]| {
        assert list[i] == checks[id][i] && list[j] == checks[id][j];
      } else if id in checks {
        assert list[i] == checks[id][i] && list[i] in checks[id];
      }
    }
  }

  /** The id a check gets: the old one of its checker, or the next. */
  ghost predicate IdFor(old_: Maps, from: nat, next: nat, c: Managed, id: nat, cfg: Checker, next': nat) {
    && Coherent(old_.ids, old_.cfgs, old_.checks, from)
    && cfg.id == id && cfg.ck == CheckerOf(c)
    && if cfg.ck in old_.ids then id == old_.ids[cfg.ck] && cfg == old_.cfgs[id] && next' == next
       else id == next && next' == next + 1
  }

  /** A checker already entered under an id is the same checker. */
  lemma SameChecker(old_: Maps, m: Maps, from: nat, next: nat, c: Managed, id: nat, cfg: Checker, next': nat)
    requires from <= next && Coherent(m.ids, m.cfgs, m.checks, next) && Descends(old_, m, from)
    requires IdFor(old_, from, next, c, id, cfg, next')
    ensures id in m.cfgs ==> m.cfgs[id] == cfg
    ensures id < next' && next <= next'
  {
    hide ListedOnce;
    if id in m.cfgs && cfg.ck in old_.ids {
      assert old_.cfgs[id].ck == cfg.ck;
    }
  }

  lemma EnterCheckers(m: Maps, id: nat, cfg: Checker, c: Managed)
    requires m.cfgs.Keys == m.checks.Keys &&
             (forall i, x | i in m.checks && x in m.checks[i] :: CheckerOf(x) == m.cfgs[i].ck)
    requires cfg.ck == CheckerOf(c) && (id in m.cfgs ==> m.cfgs[id] == cfg)
    ensures var m' := Enter(m, id, cfg, c);
            forall i, x | i in m'.checks && x in m'.checks[i] :: CheckerOf(x) == m'.cfgs[i].ck
  {
    hide CheckerOf;
    var m' := Enter(m, id, cfg, c);
    forall i, x | i in m'.checks && x in m'.checks[i]
      ensures CheckerOf(x) == m'.cfgs[i].ck
    {
      if i == id && x != c {
        assert x in m.checks[id];
      }
    }
  }

  lemma EnterIds(m: Maps, id: nat, cfg: Checker, c: Managed)
    requires (forall ck | ck in m.ids :: m.ids[ck] in m.cfgs && m.cfgs[m.ids[ck]].ck == ck)
    requires cfg.ck == CheckerOf(c) && (id in m.cfgs ==> m.cfgs[id] == cfg)
    ensures var m' := Enter(m, id, cfg, c);
            forall ck | ck in m'.ids :: m'.ids[ck] in m'.cfgs && m'.cfgs[m'.ids[ck]].ck == ck
  {
    hide CheckerOf;
    var m' := Enter(m, id, cfg, c);
    forall ck | ck in m'.ids
      ensures m'.ids[ck] in m'.cfgs && m'.cfgs[m'.ids[ck]].ck == ck
    {
      if ck != cfg.ck {
        assert m.cfgs[m.ids[ck]].ck == ck;
      }
    }
  }

  lemma EnterCoherent(m: Maps, next: nat, c: Managed, id: nat, cfg: Checker, next': nat)
    requires Coherent(m.ids, m.cfgs, m.checks, next) && id < next' && next <= next'
    requires cfg.id == id && cfg.ck == CheckerOf(c) && (id in m.cfgs ==> m.cfgs[id] == cfg)
    requires forall i | i in m.checks :: c !in m.checks[i]
    ensures var m' := Enter(m, id, cfg, c); Coherent(m'.ids, m'.cfgs, m'.checks, next')
  {
    hide ListedOnce, CheckerOf;
    EnterKeepsListed(m.checks, id, c);
    EnterCheckers(m, id, cfg, c);
    EnterIds(m, id, cfg, c);
  }

  lemma EnterDescends(old_: Maps, m: Maps, from: nat, next: nat, c: Managed, id: nat, cfg: Checker, next': nat)
    requires from <= next && Coherent(m.ids, m.cfgs, m.checks, next) && Descends(old_, m, from)
    requires IdFor(old_, from, next, c, id, cfg, next')
    ensures Descends(old_, Enter(m, id, cfg, c), from)
  {
    hide ListedOnce;
  }

  lemma EnterSourced(checks: Listing, all: map<CheckKey, Managed>, todo: set<CheckKey>, id: nat, k: CheckKey)
    requires Sourced(checks, all, todo) && k in todo && k in all && all[k].key == k
    ensures Sourced(checks[id := if id in checks then checks[id] + [all[k]] else [all[k]]], all, todo - {k})
    ensures forall i | i in checks :: all[k] !in checks[i]
  {
    var list := if id in checks then checks[id] + [all[k]] else [all[k]];
    assert forall x :: x in list <==> (id in checks && x in checks[id]) || x == all[k];
  }

  /** Entering one more check. */
  lemma EnterStep(old_: Maps, m: Maps, all: map<CheckKey, Managed>, todo: set<CheckKey>, from: nat, next: nat,
                  k: CheckKey, id: nat, cfg: Checker, next': nat)
    requires Underway(old_, m, all, todo, from, next)
    requires k in todo && k in all && all[k].key == k && IdFor(old_, from, next, all[k], id, cfg, next')
    ensures Underway(old_, Enter(m, id, cfg, all[k]), all, todo - {k}, from, next')
  {
    hide Coherent, Descends, Sourced;
    EnterSourced(m.checks, all, todo, id, k);
    SameChecker(old_, m, from, next, all[k], id, cfg, next');
    EnterCoherent(m, next, all[k], id, cfg, next');
    EnterDescends(old_, m, from, next, all[k], id, cfg, next');
  }

  // ---- A whole rebuild ----

  /** The checkers that can be made for a set of checks. */
  function BuildableKeys(all: map<CheckKey, Managed>, buildable: CheckerKey -> bool): set<CheckerKey> {
    set k | k in all && buildable(CheckerOf(all[k])) :: CheckerOf(all[k])
  }

  /** Every check outside `todo` that can have a checker is listed. */
  ghost predicate Covered(checks: Listing, all: map<CheckKey, Managed>, todo: set<CheckKey>,
                          buildable: CheckerKey -> bool)
  {
    forall k | k in all && k !in todo && buildable(CheckerOf(all[k])) :: exists id ::
        id in checks && all[k] in checks[id]
  }

  predicate AllBuildable(ids: Ids, buildable: CheckerKey -> bool) {
    forall ck | ck in ids :: buildable(ck)
  }

  lemma CoveredStep(m: Maps, all: map<CheckKey, Managed>, todo: set<CheckKey>, buildable: CheckerKey -> bool,
                    k: CheckKey, id: nat, cfg: Checker)
    requires Covered(m.checks, all, todo, buildable) && AllBuildable(m.ids, buildable)
    requires k in todo && k in all && buildable(CheckerOf(all[k]))
    ensures var m' := Enter(m, id, cfg, all[k]);
            Covered(m'.checks, all, todo - {k}, buildable) && AllBuildable(m'.ids, buildable)
  {
    var m' := Enter(m, id, cfg, all[k]);
    assert all[k] in m'.checks[id];
    forall j | j in all && j !in todo - {k} && buildable(CheckerOf(all[j]))
      ensures exists i :: i in m'.checks && all[j] in m'.checks[i]
    {
      if j != k {
        var i :| i in m.checks && all[j] in m.checks[i];
        assert all[j] in m'.checks[i];
      }
    }
  }

  /** What a rebuild over `all` does to the maps. */
  ghost predicate Rebuilt(old_: Maps, m: Maps, all: map<CheckKey, Managed>, from: nat, next: nat,
                          buildable: CheckerKey -> bool)
  {
    Underway(old_, m, all, {}, from, next) && Covered(m.checks, all, {}, buildable) && AllBuildable(m.ids, buildable)
  }

  /** A rebuild leaves an id for every checker that can be made for the checks, and for no other. */
  lemma RebuiltIds(old_: Maps, m: Maps, all: map<CheckKey, Managed>, from: nat, next: nat,
                   buildable: CheckerKey -> bool)
    requires Rebuilt(old_, m, all, from, next, buildable)
    ensures m.ids.Keys == BuildableKeys(all, buildable)
  {
    forall ck | ck in m.ids
      ensures ck in BuildableKeys(all, buildable)
    {
      var id := m.ids[ck];
      var c := m.checks[id][0];
      assert c in m.checks[id];
      assert all[c.key] == c && CheckerOf(c) == ck;
    }
    forall k | k in all && buildable(CheckerOf(all[k]))
      ensures CheckerOf(all[k]) in m.ids
    {
      var id :| id in m.checks && all[k] in m.checks[id];
    }
  }

  /** An id is never rebound: what it named before, if anything, it still names. */
  lemma NeverRebound(old_: Maps, m: Maps, all: map<CheckKey, Managed>, from: nat, next: nat,
                     buildable: CheckerKey -> bool, id: nat)
    requires Rebuilt(old_, m, all, from, next, buildable) && Coherent(old_.ids, old_.cfgs, old_.checks, from)
    requires id in m.cfgs && id < from
    ensures id in old_.cfgs && m.cfgs[id] == old_.cfgs[id] && m.cfgs[id].ck in old_.ids
  {
  }

  /** Checks that share a new checker each get an id of their own at first. */
  lemma NewCheckersSplit(old_: Maps, m: Maps, all: map<CheckKey, Managed>, from: nat, next: nat,
                         buildable: CheckerKey -> bool,
                         a: Managed, b: Managed, ida: nat, idb: nat)
    requires Rebuilt(old_, m, all, from, next, buildable)
    requires ida in m.checks && a in m.checks[ida] && idb in m.checks && b in m.checks[idb]
    requires CheckerOf(a) == CheckerOf(b) && CheckerOf(a) !in old_.ids && a != b
    ensures ida != idb
  {
    hide ListedOnce, Covered, Sourced, AllBuildable, CheckerOf;
  }

  /** One id for each checker, and no checker without a key. */
  ghost predicate OneIdEach(m: Maps, all: map<CheckKey, Managed>, buildable: CheckerKey -> bool) {
    && m.ids.Keys == BuildableKeys(all, buildable)
    && (forall id | id in m.cfgs :: m.cfgs[id].ck in m.ids && m.ids[m.cfgs[id].ck] == id)
  }

  /** The second rebuild over the same checks leaves one id for each checker, the one it had. */
  lemma SecondRebuild(m1: Maps, m2: Maps, all: map<CheckKey, Managed>, from: nat, next: nat,
                      buildable: CheckerKey -> bool)
    requires m1.ids.Keys == BuildableKeys(all, buildable) && Coherent(m1.ids, m1.cfgs, m1.checks, from)
    requires Rebuilt(m1, m2, all, from, next, buildable)
    ensures m2.ids == m1.ids && OneIdEach(m2, all, buildable)
    ensures forall id | id in m2.cfgs :: id in m1.cfgs && m2.cfgs[id] == m1.cfgs[id]
  {
    hide Covered, Sourced, ListedOnce, BuildableKeys, AllBuildable;
    RebuiltIds(m1, m2, all, from, next, buildable);
    forall ck | ck in m2.ids
      ensures m2.ids[ck] == m1.ids[ck]
    {
      assert m2.cfgs[m2.ids[ck]].ck == ck;
    }
    assert m2.ids == m1.ids;
  }

  /** Further rebuilds change nothing but the order of the lists. */
  lemma LaterRebuild(m2: Maps, m3: Maps, all: map<CheckKey, Managed>, from: nat, next: nat,
                     buildable: CheckerKey -> bool,
                     before: Maps, from2: nat)
    requires OneIdEach(m2, all, buildable) && Rebuilt(before, m2, all, from2, from, buildable)
    requires Rebuilt(m2, m3, all, from, next, buildable)
    ensures m3.ids == m2.ids && m3.cfgs == m2.cfgs
    ensures forall id | id in m2.checks :: id in m3.checks && multiset(m3.checks[id]) == multiset(m2.checks[id])
  {
    hide Covered, Sourced, BuildableKeys, AllBuildable, Descends, NoRepeats, CheckerOf;
    LaterIds(m2, m3, all, from, next, buildable);
    forall id | id in m2.checks
      ensures id in m3.checks && multiset(m3.checks[id]) == multiset(m2.checks[id])
    {
      SameList(m2, m3, all, buildable, id);
    }
  }

  /** From any coherent maps, two rebuilds over unchanged checks reach one id for each checker that can be made, and
      every later rebuild keeps ids and checkers as they are and the lists up to order. */
  lemma DedupConverges(m0: Maps, m1: Maps, m2: Maps, m3: Maps, all: map<CheckKey, Managed>, n0: nat, n1: nat, n2: nat,
                       n3: nat,
                       buildable: CheckerKey -> bool)
    requires Rebuilt(m0, m1, all, n0, n1, buildable) && Rebuilt(m1, m2, all, n1, n2, buildable)
    requires Rebuilt(m2, m3, all, n2, n3, buildable)
    ensures OneIdEach(m2, all, buildable) && m2.ids == m1.ids
    ensures m3.ids == m2.ids && m3.cfgs == m2.cfgs && OneIdEach(m3, all, buildable)
    ensures forall id | id in m2.checks :: id in m3.checks && multiset(m3.checks[id]) == multiset(m2.checks[id])
  {
    hide Covered, Sourced, BuildableKeys, AllBuildable, Descends, Coherent, OneIdEach;
    RebuiltIds(m0, m1, all, n0, n1, buildable);
    SecondRebuild(m1, m2, all, n1, n2, buildable);
    RebuiltIds(m1, m2, all, n1, n2, buildable);
    SecondRebuild(m2, m3, all, n2, n3, buildable);
    LaterRebuild(m2, m3, all, n2, n3, buildable, m1, n1);
  }

  lemma LaterIds(m2: Maps, m3: Maps, all: map<CheckKey, Managed>, from: nat, next: nat, buildable: CheckerKey -> bool)
    requires OneIdEach(m2, all, buildable) && Coherent(m2.ids, m2.cfgs, m2.checks, from)
    requires Rebuilt(m2, m3, all, from, next, buildable)
    ensures m3.ids == m2.ids && m3.cfgs == m2.cfgs
  {
    hide Covered, Sourced, ListedOnce, BuildableKeys, AllBuildable, Descends;
    SecondRebuild(m2, m3, all, from, next, buildable);
    forall id | id in m2.cfgs
      ensures id in m3.cfgs
    {
      var ck := m2.cfgs[id].ck;
      assert ck in m3.ids && m3.ids[ck] == id;
    }
    assert m3.cfgs.Keys == m2.cfgs.Keys;
  }

  lemma SameList(m2: Maps, m3: Maps, all: map<CheckKey, Managed>, buildable: CheckerKey -> bool, id: nat)
    requires m3.ids == m2.ids && m3.cfgs == m2.cfgs && m2.checks.Keys == m2.cfgs.Keys == m3.checks.Keys &&
             id in m2.checks
    requires forall i | i in m2.cfgs :: m2.cfgs[i].ck in m2.ids && m2.ids[m2.cfgs[i].ck] == i
    requires forall i, c | i in m2.checks && c in m2.checks[i] :: CheckerOf(c) == m2.cfgs[i].ck
    requires forall i, c | i in m3.checks && c in m3.checks[i] :: CheckerOf(c) == m3.cfgs[i].ck
    requires Sourced(m2.checks, all, {}) && Sourced(m3.checks, all, {})
    requires Covered(m2.checks, all, {}, buildable) && Covered(m3.checks, all, {}, buildable) &&
             AllBuildable(m2.ids, buildable)
    requires NoRepeats(m2.checks[id]) && NoRepeats(m3.checks[id])
    ensures multiset(m3.checks[id]) == multiset(m2.checks[id])
  {
    forall c | c in m2.checks[id]
      ensures c in m3.checks[id]
    {
      assert all[c.key] == c && buildable(CheckerOf(c));
      var i :| i in m3.checks && all[c.key] in m3.checks[i];
      assert m3.cfgs[i].ck == m2.cfgs[id].ck;
    }
    forall c | c in m3.checks[id]
      ensures c in m2.checks[id]
    {
      assert all[c.key] == c && buildable(CheckerOf(c));
      var i :| i in m2.checks && all[c.key] in m2.checks[i];
      assert m2.cfgs[i].ck == m2.cfgs[id].ck;
    }
    SameMembers(m2.checks[id], m3.checks[id]);
  }

  /** Lists without repeats and with the same members are rearrangements of each other. */
  lemma {:induction false} SameMembers(s: seq<Managed>, t: seq<Managed>)
    requires NoRepeats(s) && NoRepeats(t) && forall c :: c in s <==> c in t
    ensures multiset(s) == multiset(t)
  {
    forall c
      ensures multiset(s)[c] == multiset(t)[c]
    {
      CountOne(s, c);
      CountOne(t, c);
    }
  }

  lemma {:induction false} CountOne(s: seq<Managed>, c: Managed)
    requires NoRepeats(s)
    ensures multiset(s)[c] == if c in s then 1 else 0
  {
    if s != [] {
      var t := s[..|s| - 1];
      CountOne(t, c);
      assert s == t + [s[|s| - 1]];
      assert forall i | 0 <= i < |t| :: t[i] == s[i];
    }
  }

  /** The checks of all vservers, one for each key. */
  ghost predicate MergedFrom(vcs: map<string, map<CheckKey, Managed>>, all: map<CheckKey, Managed>) {
    && (forall k | k in all :: exists v :: v in vcs && k in vcs[v] && all[k] == vcs[v][k])
    && (forall v, k | v in vcs && k in vcs[v] :: k in all)
  }

  /** No key is used by two vservers. */
  predicate NoSharedKeys(vcs: map<string, map<CheckKey, Managed>>) {
    forall v, v', k | v in vcs && v' in vcs && k in vcs[v] && k in vcs[v'] :: v == v'
  }

  /** Without shared keys the outcome of a merge does not depend on its order. */
  lemma MergeUnique(vcs: map<string, map<CheckKey, Managed>>, a: map<CheckKey, Managed>, b: map<CheckKey, Managed>)
    requires NoSharedKeys(vcs) && MergedFrom(vcs, a) && MergedFrom(vcs, b)
    ensures a == b
  {
    forall k | k in a
      ensures k in b && a[k] == b[k]
    {
      var v :| v in vcs && k in vcs[v] && a[k] == vcs[v][k];
      var w :| w in vcs && k in vcs[w] && b[k] == vcs[w][k];
    }
    forall k | k in b
      ensures k in a
    {
      var w :| w in vcs && k in vcs[w] && b[k] == vcs[w][k];
    }
  }

  function MarksDemanded(vcs: map<string, map<CheckKey, Managed>>): set<MarkKey> {
    set v, k | v in vcs && k in vcs[v] && NeedsMark(CheckerOf(vcs[v][k])) :: MarkOf(CheckerOf(vcs[v][k]))
  }

  lemma DemandedBy(vcs: map<string, map<CheckKey, Managed>>, all: map<CheckKey, Managed>, k: CheckKey)
    requires MergedFrom(vcs, all) && k in all && NeedsMark(CheckerOf(all[k]))
    ensures MarkOf(CheckerOf(all[k])) in MarksDemanded(vcs)
  {
    var v :| v in vcs && k in vcs[v] && all[k] == vcs[v][k];
  }

  // ---- Marks ----

  lemma FrozenMore(cfgs: Checkers, marks: map<MarkKey, nat>, marks': map<MarkKey, nat>)
    requires MarksFrozen(cfgs, marks) && forall k | k in marks :: k in marks' && marks'[k] == marks[k]
    ensures MarksFrozen(cfgs, marks')
  {
  }

  lemma FrozenEnter(cfgs: Checkers, marks: map<MarkKey, nat>, id: nat, cfg: Checker)
    requires MarksFrozen(cfgs, marks) &&
             (NeedsMark(cfg.ck) ==> MarkOf(cfg.ck) in marks && cfg.mark == marks[MarkOf(cfg.ck)])
    ensures MarksFrozen(cfgs[id := cfg], marks)
  {
  }

  /** Marks on record and IPVS services standing for them are each other's inverse. */
  predicate MarksMatch(marks: map<MarkKey, nat>, installed: map<nat, MarkKey>) {
    && (forall k | k in marks :: marks[k] in installed && installed[marks[k]] == k)
    && (forall m | m in installed :: installed[m] in marks && marks[installed[m]] == m)
  }

  lemma {:induction false} MarkCount(marks: map<MarkKey, nat>, installed: map<nat, MarkKey>)
    requires MarksMatch(marks, installed)
    ensures |installed| == |marks|
    decreases |marks|
  {
    if marks.Keys == {} {
      assert marks == map[] && installed == map[];
    } else {
      var k :| k in marks;
      var m := marks[k];
      var marks', installed' := marks - {k}, installed - {m};
      assert marks'.Keys == marks.Keys - {k} && installed'.Keys == installed.Keys - {m};
      assert |marks'.Keys| == |marks.Keys| - 1 && |installed'.Keys| == |installed.Keys| - 1;
      MarkCount(marks', installed');
    }
  }

  lemma MatchMore(marks: map<MarkKey, nat>, installed: map<nat, MarkKey>, key: MarkKey, mark: nat)
    requires MarksMatch(marks, installed) && key !in marks && mark !in installed
    ensures MarksMatch(marks[key := mark], installed[mark := key])
    ensures installed[mark := key].Keys == installed.Keys + {mark}
  {
  }

  lemma MatchLess(marks: map<MarkKey, nat>, installed: map<nat, MarkKey>, key: MarkKey)
    requires MarksMatch(marks, installed) && key in marks
    ensures MarksMatch(marks - {key}, installed - {marks[key]})
    ensures (installed - {marks[key]}).Keys == installed.Keys - {marks[key]} && marks[key] in installed
  {
  }

  /** An id found among the running checkers is that of the same checker, and new ids are not. */
  lemma OldChecker(ids: Ids, cfgs: Checkers, checks: Listing, from: nat, next: nat, ck: CheckerKey, id: nat,
                   buildable: CheckerKey -> bool)
    requires Coherent(ids, cfgs, checks, from) && AllBuildable(ids, buildable) && from <= next && id in cfgs
    requires if ck in ids then id == ids[ck] else id == next
    ensures ck in ids && cfgs[id].ck == ck && cfgs[id].id == id && buildable(ck)
  {
  }

  /** A check whose checker cannot be made is passed over. */
  lemma SkipStep(old_: Maps, m: Maps, all: map<CheckKey, Managed>, todo: set<CheckKey>, from: nat, next: nat,
                 next': nat,
                 k: CheckKey, buildable: CheckerKey -> bool)
    requires Underway(old_, m, all, todo, from, next) && Covered(m.checks, all, todo, buildable) && next <= next'
    requires k in all && !buildable(CheckerOf(all[k]))
    ensures Underway(old_, m, all, todo - {k}, from, next') && Covered(m.checks, all, todo - {k}, buildable)
  {
    hide ListedOnce, CheckerOf;
  }

  lemma EmptyMaps(old_: Maps, all: map<CheckKey, Managed>, from: nat, buildable: CheckerKey -> bool,
                  marks: map<MarkKey, nat>)
    ensures var m := Maps(map[], map[], map[]);
            && Underway(old_, m, all, all.Keys, from, from) && Covered(m.checks, all, all.Keys, buildable)
            && AllBuildable(m.ids, buildable) && MarksFrozen(m.cfgs, marks)
  {
  }

  lemma MergedKey(vcs: map<string, map<CheckKey, Managed>>, all: map<CheckKey, Managed>, k: CheckKey)
    requires MergedFrom(vcs, all) && k in all
    requires forall v, j | v in vcs && j in vcs[v] :: vcs[v][j].key == j
    ensures all[k].key == k
  {
    var v :| v in vcs && k in vcs[v] && all[k] == vcs[v][k];
  }

  /** A mark not yet on record can still be drawn. */
  lemma RoomForMark(marks: map<MarkKey, nat>, used: set<MarkKey>, vcs: map<string, map<CheckKey, Managed>>,
                    all: map<CheckKey, Managed>, k: CheckKey, size: nat)
    requires MergedFrom(vcs, all) && k in all && marks.Keys <= used + MarksDemanded(vcs) &&
             |used + MarksDemanded(vcs)| <= size
    ensures NeedsMark(CheckerOf(all[k])) ==>
              && MarkOf(CheckerOf(all[k])) in MarksDemanded(vcs)
              && (MarkOf(CheckerOf(all[k])) in marks || |marks| < size)
  {
    hide MergedFrom, MarksDemanded, CheckerOf;
    var key := MarkOf(CheckerOf(all[k]));
    if NeedsMark(CheckerOf(all[k])) {
      DemandedBy(vcs, all, k);
      if key !in marks {
        SubsetSize(marks.Keys + {key}, used + MarksDemanded(vcs));
        assert |marks.Keys + {key}| == |marks.Keys| + 1;
        assert |marks| == |marks.Keys|;
      }
    }
  }

  lemma RebuiltFrom(old_: Maps, m: Maps, all: map<CheckKey, Managed>, from: nat, next: nat,
                    buildable: CheckerKey -> bool)
    requires Underway(old_, m, all, {}, from, next) && Covered(m.checks, all, {}, buildable) &&
             AllBuildable(m.ids, buildable)
    ensures Rebuilt(old_, m, all, from, next, buildable) && Coherent(m.ids, m.cfgs, m.checks, next)
  {
  }

  /** The marks the listed checks need are those of the running checkers. */
  lemma ListedMarks(ids: Ids, cfgs: Checkers, checks: Listing, next: nat)
    requires Coherent(ids, cfgs, checks, next)
    ensures (set id, c | id in checks && c in checks[id] && !c.key.mode.Plain? :: MarkKey(c.key.backendIP, c.key.mode))
         == MarksInUse(cfgs)
  {
    hide ListedOnce;
    var listed := set id, c | id in checks && c in checks[id] && !c.key.mode.Plain? ::
        MarkKey(c.key.backendIP, c.key.mode);
    forall id, c | id in checks && c in checks[id] && !c.key.mode.Plain?
      ensures MarkKey(c.key.backendIP, c.key.mode) in MarksInUse(cfgs)
    {
      assert CheckerOf(c) == cfgs[id].ck;
      assert MarkOf(cfgs[id].ck) == MarkKey(c.key.backendIP, c.key.mode);
    }
    forall id | id in cfgs && NeedsMark(cfgs[id].ck)
      ensures MarkOf(cfgs[id].ck) in listed
    {
      var c := checks[id][0];
      assert c in checks[id] && CheckerOf(c) == cfgs[id].ck;
    }
  }

  /** After a rebuild no mark is in use but for a check that demands it. */
  lemma UsedDemanded(old_: Maps, m: Maps, vcs: map<string, map<CheckKey, Managed>>, all: map<CheckKey, Managed>,
                     from: nat,
                     next: nat, buildable: CheckerKey -> bool)
    requires Rebuilt(old_, m, all, from, next, buildable) && MergedFrom(vcs, all)
    ensures MarksInUse(m.cfgs) <= MarksDemanded(vcs)
  {
    hide ListedOnce, Covered, AllBuildable, Descends, MergedFrom, MarksDemanded, CheckerOf;
    forall id | id in m.cfgs && NeedsMark(m.cfgs[id].ck)
      ensures MarkOf(m.cfgs[id].ck) in MarksDemanded(vcs)
    {
      var c := m.checks[id][0];
      assert c in m.checks[id] && CheckerOf(c) == m.cfgs[id].ck && all[c.key] == c;
      DemandedBy(vcs, all, c.key);
    }
  }

  /** The maps of a rebuild that has settled, up to the order of the lists. */
  ghost predicate SameMaps(a: Maps, b: Maps) {
    && a.ids == b.ids && a.cfgs == b.cfgs
    && forall id | id in a.checks :: id in b.checks && multiset(b.checks[id]) == multiset(a.checks[id])
  }

  lemma SameMapsRefl(m: Maps)
    ensures SameMaps(m, m)
  {
  }

  lemma SecondSettles(m0: Maps, m1: Maps, m2: Maps, all: map<CheckKey, Managed>, n0: nat, n1: nat, n2: nat,
                      buildable: CheckerKey -> bool)
    requires Rebuilt(m0, m1, all, n0, n1, buildable) && Rebuilt(m1, m2, all, n1, n2, buildable)
    ensures OneIdEach(m2, all, buildable)
  {
    hide Covered, Sourced, BuildableKeys, AllBuildable, Descends, Coherent, OneIdEach;
    RebuiltIds(m0, m1, all, n0, n1, buildable);
    SecondRebuild(m1, m2, all, n1, n2, buildable);
  }

  lemma StaysSettled(m1: Maps, m2: Maps, m3: Maps, all: map<CheckKey, Managed>, n1: nat, n2: nat, n3: nat,
                     buildable: CheckerKey -> bool)
    requires Rebuilt(m1, m2, all, n1, n2, buildable) && Rebuilt(m2, m3, all, n2, n3, buildable) &&
             OneIdEach(m2, all, buildable)
    ensures OneIdEach(m3, all, buildable) && SameMaps(m2, m3)
  {
    hide Covered, Sourced, BuildableKeys, AllBuildable, Descends, Coherent, OneIdEach;
    LaterRebuild(m2, m3, all, n2, n3, buildable, m1, n1);
    SecondSettles(m1, m2, m3, all, n1, n2, n3, buildable);
  }

  lemma SameMapsThrough(a: Maps, b: Maps, c: Maps)
    requires SameMaps(a, b) && SameMaps(b, c)
    ensures SameMaps(a, c)
  {
  }

  class HealthcheckManager {
    const buildable: CheckerKey -> bool  // whether a checker of this kind can be made
    const markAlloc: MarkAllocator

    var marks: map<MarkKey, nat>
    var next: nat
    var vserverChecks: map<string, map<CheckKey, Managed>>
    var cfgs: Checkers
    var checks: Listing
    var ids: Ids
    var enabled: bool

    ghost var installed: map<nat, MarkKey>  // the IPVS services of the marks

    ghost predicate MarksOK()
      reads `marks, `installed, markAlloc
    {
      markAlloc.Valid() && MarksMatch(marks, installed) && markAlloc.held == installed.Keys
    }

    ghost function Current(): Maps
      reads `ids, `cfgs, `checks
    {
      Maps(ids, cfgs, checks)
    }

    /** What holds between any two updates. */
    ghost predicate Valid()
      reads this, markAlloc
    {
      && MarksOK()
      && Coherent(ids, cfgs, checks, next)
      && AllBuildable(ids, buildable)
      && MarksFrozen(cfgs, marks)
      && marks.Keys == MarksInUse(cfgs)
      && forall v, k | v in vserverChecks && k in vserverChecks[v] :: vserverChecks[v][k].key == k
    }

    constructor (buildable: CheckerKey -> bool, markAlloc: MarkAllocator, next: nat)
      requires markAlloc.Valid() && markAlloc.held == {}
      ensures Valid() && this.buildable == buildable && this.markAlloc == markAlloc && this.next == next
      ensures vserverChecks == map[] && enabled
    {
      this.buildable, this.markAlloc, this.next := buildable, markAlloc, next;
      marks, vserverChecks, cfgs, checks, ids, installed := map[], map[], map[], map[], map[], map[];
      enabled := true;
    }

    /** The mark of a backend and mode; a new one comes with its IPVS service. */
    method MarkBackend(key: MarkKey) returns (mark: nat)
      requires MarksOK() && (key in marks || |marks| < markAlloc.size)
      modifies `marks, `installed, markAlloc
      ensures MarksOK() && key in marks && marks[key] == mark
      ensures marks == if key in old(marks) then old(marks) else old(marks)[key := mark]
      ensures key !in old(marks) ==> mark !in old(installed)
    {
      hide Partition, MarksMatch;
      if key in marks {
        return marks[key];
      }
      MarkCount(marks, installed);
      assert |markAlloc.held| == |installed|;
      var got := markAlloc.Get();
      mark := got.value;
      MatchMore(marks, installed, key, mark);
      marks := marks[key := mark];
      installed := installed[mark := key];
    }

    /** Gives up the mark of a backend and mode. The IPVS service goes first, and only then is the mark free again. */
    method UnmarkBackend(key: MarkKey)
      requires MarksOK()
      modifies `marks, `installed, markAlloc
      ensures MarksOK() && marks == old(marks) - {key}
    {
      hide Partition, MarksMatch;
      if key !in marks {
        return;
      }
      MatchLess(marks, installed, key);
      var mark := marks[key];
      installed := installed - {mark};
      marks := marks - {key};
      ReleaseMark(mark);
    }

    /** Gives a mark back. Its IPVS service must be gone. */
    method ReleaseMark(mark: nat)
      requires markAlloc.Valid() && mark in markAlloc.held && mark !in installed
      modifies markAlloc
      ensures markAlloc.Valid() && markAlloc.held == old(markAlloc.held) - {mark}
    {
      markAlloc.Put(mark);
    }

    method MergeChecks() returns (all: map<CheckKey, Managed>)
      ensures MergedFrom(vserverChecks, all)
    {
      all := map[];
      var todo := vserverChecks.Keys;
      while todo != {}
        invariant todo <= vserverChecks.Keys
        invariant forall k | k in all :: exists v ::
                  v in vserverChecks && k in vserverChecks[v] && all[k] == vserverChecks[v][k]
        invariant forall v, k | v in vserverChecks && v !in todo && k in vserverChecks[v] :: k in all
      {
        var v :| v in todo;
        todo := todo - {v};
        var vchecks := vserverChecks[v];
        var keys := vchecks.Keys;
        while keys != {}
          invariant keys <= vchecks.Keys && vchecks == vserverChecks[v]
          invariant forall k | k in all :: exists v ::
                    v in vserverChecks && k in vserverChecks[v] && all[k] == vserverChecks[v][k]
          invariant forall w, k | w in vserverChecks && w !in todo && w != v && k in vserverChecks[w] :: k in all
          invariant forall k | k in vchecks && k !in keys :: k in all
        {
          var k :| k in keys;
          keys := keys - {k};
          if k !in all {
            all := all[k := vchecks[k]];
          }
        }
      }
    }

    /** Makes a checker, with its mark; the mark is drawn even if the checker then cannot be made. */
    method NewChecker(id: nat, ck: CheckerKey) returns (cfg: Option<Checker>)
      requires MarksOK() && (NeedsMark(ck) ==> MarkOf(ck) in marks || |marks| < markAlloc.size)
      modifies `marks, `installed, markAlloc
      ensures MarksOK() && (forall k | k in old(marks) :: k in marks && marks[k] == old(marks)[k])
      ensures marks.Keys == old(marks).Keys + if NeedsMark(ck) then {MarkOf(ck)} else {}
      ensures cfg.Some? <==> buildable(ck)
      ensures cfg.Some? ==>
                && cfg.value.id == id && cfg.value.ck == ck
                && (NeedsMark(ck) ==> MarkOf(ck) in marks && cfg.value.mark == marks[MarkOf(ck)])
    {
      hide MarksOK;
      var mark := 0;
      if NeedsMark(ck) {
        mark := MarkBackend(MarkOf(ck));
      }
      if !buildable(ck) {
        return None;
      }
      cfg := Some(Checker(id, ck, mark));
    }

    /** The id and the checker for a key: the old ones if there are any, else the next id and a new checker, if one can
        be made. */
    method PickChecker(ck: CheckerKey, ghost from: nat) returns (id: nat, cfg: Option<Checker>)
      requires MarksOK() && from <= next && Coherent(ids, cfgs, checks, from) && AllBuildable(ids, buildable) &&
               MarksFrozen(cfgs, marks)
      requires NeedsMark(ck) ==> MarkOf(ck) in marks || |marks| < markAlloc.size
      modifies `next, `marks, `installed, markAlloc
      ensures MarksOK() && old(next) <= next && MarksFrozen(cfgs, marks)
      ensures forall j | j in old(marks) :: j in marks && marks[j] == old(marks)[j]
      ensures marks.Keys <= old(marks).Keys + if NeedsMark(ck) then {MarkOf(ck)} else {}
      ensures cfg.Some? <==> buildable(ck)
      ensures cfg.Some? ==>
                && cfg.value.id == id && cfg.value.ck == ck
                && (NeedsMark(ck) ==> MarkOf(ck) in marks && cfg.value.mark == marks[MarkOf(ck)])
                && if ck in ids then id == ids[ck] && id in cfgs && cfg.value == cfgs[id] && next == old(next)
                   else id == old(next) && next == old(next) + 1
    {
      hide MarksOK, AllBuildable, ListedOnce;
      if ck in ids {
        id := ids[ck];
      } else {
        id := next;
        next := next + 1;
      }
      if id in cfgs {
        OldChecker(ids, cfgs, checks, from, old(next), ck, id, buildable);
        cfg := Some(cfgs[id]);
      } else {
        cfg := NewChecker(id, ck);
        FrozenMore(cfgs, old(marks), marks);
      }
    }

    /** Enters one check into the maps under construction. */
    method BuildCheck(m: Maps, all: map<CheckKey, Managed>, k: CheckKey, ghost todo: set<CheckKey>,
                      ghost from: nat)
      returns (m': Maps)
      requires MarksOK() && from <= next && Underway(Current(), m, all, todo, from, next) &&
               Coherent(ids, cfgs, checks, from)
      requires AllBuildable(ids, buildable) && Covered(m.checks, all, todo, buildable) && AllBuildable(m.ids, buildable)
      requires MarksFrozen(cfgs, marks) && MarksFrozen(m.cfgs, marks) && k in todo && k in all && all[k].key == k
      requires NeedsMark(CheckerOf(all[k])) ==> MarkOf(CheckerOf(all[k])) in marks || |marks| < markAlloc.size
      modifies `next, `marks, `installed, markAlloc
      ensures MarksOK() && from <= next && Underway(Current(), m', all, todo - {k}, from, next)
      ensures Covered(m'.checks, all, todo - {k}, buildable) && AllBuildable(m'.ids, buildable)
      ensures MarksFrozen(cfgs, marks) && MarksFrozen(m'.cfgs, marks)
      ensures forall j | j in old(marks) :: j in marks && marks[j] == old(marks)[j]
      ensures marks.Keys <= old(marks).Keys + if NeedsMark(CheckerOf(all[k])) then {MarkOf(CheckerOf(all[k]))} else {}
    {
      hide MarksOK, Underway, Covered, AllBuildable, CheckerOf, Coherent, MarksFrozen;
      var id, cfg := PickChecker(CheckerOf(all[k]), from);
      FrozenMore(m.cfgs, old(marks), marks);
      if cfg.None? {
        SkipStep(Current(), m, all, todo, from, old(next), next, k, buildable);
        return m;
      }
      m' := Enter(m, id, cfg.value, all[k]);
      EnterStep(Current(), m, all, todo, from, old(next), k, id, cfg.value, next);
      CoveredStep(m, all, todo, buildable, k, id, cfg.value);
      FrozenEnter(m.cfgs, marks, id, cfg.value);
    }

    /** Builds new maps for a set of checks, next to the old ones. */
    method BuildAll(all: map<CheckKey, Managed>) returns (m: Maps)
      requires Valid() && MergedFrom(vserverChecks, all) &&
               |marks.Keys + MarksDemanded(vserverChecks)| <= markAlloc.size
      modifies `next, `marks, `installed, markAlloc
      ensures MarksOK() && MarksFrozen(m.cfgs, marks)
      ensures Rebuilt(Current(), m, all, old(next), next, buildable) && Coherent(m.ids, m.cfgs, m.checks, next)
    {
      hide MarksOK, Underway, Covered, AllBuildable, Coherent, MarksFrozen, MergedFrom, MarksDemanded, MarksInUse,
           CheckerOf;
      ghost var from, used := next, marks.Keys;
      m := Maps(map[], map[], map[]);
      EmptyMaps(Current(), all, from, buildable, marks);
      var todo := all.Keys;
      while todo != {}
        invariant todo <= all.Keys && from <= next && MarksOK()
        invariant Underway(Current(), m, all, todo, from, next)
        invariant Covered(m.checks, all, todo, buildable) && AllBuildable(m.ids, buildable)
        invariant MarksFrozen(cfgs, marks) && MarksFrozen(m.cfgs, marks)
        invariant marks.Keys <= used + MarksDemanded(vserverChecks)
      {
        var k :| k in todo;
        MergedKey(vserverChecks, all, k);
        RoomForMark(marks, used, vserverChecks, all, k, markAlloc.size);
        m := BuildCheck(m, all, k, todo, from);
        todo := todo - {k};
      }
      RebuiltFrom(Current(), m, all, from, next, buildable);
    }

    /** Rebuilds the maps from the checks of all vservers. Marks cannot run out while those in use and those demanded
        together fit the range. */
    method BuildMaps() returns (ghost all: map<CheckKey, Managed>)
      requires Valid() && |marks.Keys + MarksDemanded(vserverChecks)| <= markAlloc.size
      modifies this, markAlloc
      ensures Valid() && vserverChecks == old(vserverChecks) && enabled == old(enabled)
      ensures MergedFrom(vserverChecks, all)
      ensures Rebuilt(old(Current()), Current(), all, old(next), next, buildable)
    {
      hide MarksOK, Underway, Covered, Coherent, MarksFrozen, MergedFrom, MarksDemanded, MarksInUse, AllBuildable;
      var merged := MergeChecks();
      all := merged;
      var m := BuildAll(merged);
      ids, cfgs, checks := m.ids, m.cfgs, m.checks;
      PruneMarks();
    }

    /** Gives up the marks that no listed check needs. */
    method PruneMarks()
      requires MarksOK() && Coherent(ids, cfgs, checks, next) && MarksFrozen(cfgs, marks)
      modifies `marks, `installed, markAlloc
      ensures MarksOK() && MarksFrozen(cfgs, marks) && marks.Keys == MarksInUse(cfgs)
    {
      hide MarksOK, Coherent;
      var backends := set id, c | id in checks && c in checks[id] && !c.key.mode.Plain? ::
          MarkKey(c.key.backendIP, c.key.mode);
      ListedMarks(ids, cfgs, checks, next);
      ghost var was := marks;
      var todo := marks.Keys;
      while todo != {}
        invariant todo <= was.Keys && MarksOK()
        invariant marks == was - (was.Keys - todo - backends)
      {
        var key :| key in todo;
        if key !in backends {
          UnmarkBackend(key);
        }
        todo := todo - {key};
      }
    }

    /** Takes in the checks of a vserver, or drops them. */
    method Update(name: string, vchecks: Option<map<CheckKey, Managed>>) returns (ghost all: map<CheckKey, Managed>)
      requires Valid() && (vchecks.Some? ==> forall k | k in vchecks.value :: vchecks.value[k].key == k)
      requires |marks.Keys +
               MarksDemanded(if vchecks.Some? then vserverChecks[name := vchecks.value] else vserverChecks - {name})|
               <= markAlloc.size
      modifies this, markAlloc
      ensures Valid() && vserverChecks == if vchecks.Some? then old(vserverChecks)[name := vchecks.value]
              else old(vserverChecks) - {name}
      ensures MergedFrom(vserverChecks, all) && Rebuilt(old(Current()), Current(), all, old(next), next, buildable)
    {
      hide MarksOK, Underway, Covered, Coherent, MarksFrozen, MergedFrom, MarksDemanded, MarksInUse, AllBuildable;
      if vchecks.None? {
        vserverChecks := vserverChecks - {name};
      } else {
        vserverChecks := vserverChecks[name := vchecks.value];
      }
      all := BuildMaps();
    }

    /** Passes a checker's report on to every check it serves, once each. */
    method QueueHealthState(id: nat, state: CheckState) returns (notes: seq<Note>)
      ensures !enabled || id !in cfgs || id !in checks ==> notes == []
      ensures enabled && id in cfgs && id in checks ==>
                |notes| == |checks[id]| && forall i | 0 <= i < |notes| ::
                    notes[i] == Note(checks[id][i].vserver, checks[id][i].key, state)
    {
      notes := [];
      if !enabled {
        return;
      }
      if id !in cfgs || id !in checks || |checks[id]| == 0 {
        return;
      }
      for i := 0 to |checks[id]|
        invariant |notes| == i
        invariant forall j | 0 <= j < i :: notes[j] == Note(checks[id][j].vserver, checks[id][j].key, state)
      {
        notes := notes + [Note(checks[id][i].vserver, checks[id][i].key, state)];
      }
    }

    /** Gives up every mark. */
    method UnmarkAllBackends()
      requires MarksOK()
      modifies `marks, `installed, markAlloc
      ensures MarksOK() && marks == map[] && installed == map[] && markAlloc.held == {} &&
              |markAlloc.marks| == markAlloc.size
    {
      hide Partition, MarksMatch;
      var todo := marks.Keys;
      while todo != {}
        invariant MarksOK() && marks.Keys == todo
      {
        var key :| key in todo;
        UnmarkBackend(key);
        todo := todo - {key};
      }
      MarkCount(marks, installed);
      FreeCount(markAlloc.base, markAlloc.size, markAlloc.marks, markAlloc.held);
    }

    /** Rebuilding again leaves room for the marks. */
    method BuildAgain() returns (ghost all: map<CheckKey, Managed>)
      requires Valid() && |marks.Keys + MarksDemanded(vserverChecks)| <= markAlloc.size
      modifies this, markAlloc
      ensures Valid() && vserverChecks == old(vserverChecks)
      ensures MergedFrom(vserverChecks, all) && Rebuilt(old(Current()), Current(), all, old(next), next, buildable)
      ensures |marks.Keys + MarksDemanded(vserverChecks)| <= markAlloc.size
    {
      hide MarksOK, Underway, Covered, Coherent, MarksFrozen, MergedFrom, MarksDemanded, MarksInUse, AllBuildable;
      ghost var before := marks.Keys + MarksDemanded(vserverChecks);
      all := BuildMaps();
      UsedDemanded(old(Current()), Current(), vserverChecks, all, old(next), next, buildable);
      assert marks.Keys + MarksDemanded(vserverChecks) == MarksDemanded(vserverChecks);
      SubsetSize(MarksDemanded(vserverChecks), before);
    }

    /** Two rebuilds over unchanged checks, none of which is shared between vservers, leave one id for each checker that
        can be made; n more change nothing but the order of the lists. */
    method Converge(n: nat) returns (ghost all: map<CheckKey, Managed>, ghost settled: Maps)
      requires Valid() && NoSharedKeys(vserverChecks) && |marks.Keys + MarksDemanded(vserverChecks)| <= markAlloc.size
      modifies this, markAlloc
      ensures Valid() && vserverChecks == old(vserverChecks) && MergedFrom(vserverChecks, all)
      ensures OneIdEach(settled, all, buildable) && SameMaps(settled, Current())
    {
      hide MarksOK, Rebuilt, Coherent, MarksFrozen, MergedFrom, MarksDemanded, MarksInUse, AllBuildable, NoSharedKeys,
           OneIdEach, SameMaps;
      ghost var m0, n0 := Current(), next;
      all := BuildAgain();
      ghost var m1, n1 := Current(), next;
      ghost var other := BuildAgain();
      MergeUnique(vserverChecks, all, other);
      settled := Current();
      SecondSettles(m0, m1, settled, all, n0, n1, next, buildable);
      ghost var last, lastNext, here, hereNext := m1, n1, settled, next;
      assert SameMaps(settled, settled) by { SameMapsRefl(settled); }
      for i := 0 to n
        invariant Valid() && vserverChecks == old(vserverChecks) && MergedFrom(vserverChecks, all)
        invariant |marks.Keys + MarksDemanded(vserverChecks)| <= markAlloc.size
        invariant here == Current() && hereNext == next && Rebuilt(last, here, all, lastNext, hereNext, buildable)
        invariant OneIdEach(here, all, buildable) && SameMaps(settled, here)
      {
        other := BuildAgain();
        MergeUnique(vserverChecks, all, other);
        StaysSettled(last, here, Current(), all, lastNext, hereNext, next, buildable);
        SameMapsThrough(settled, here, Current());
        last, lastNext, here, hereNext := here, hereNext, Current(), next;
      }
    }
  }
}
