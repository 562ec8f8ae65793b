/** The notifier brings a new cluster configuration in step by step: each round changes at most ten vservers. */
module RateLimit {
  import opened Sets

  const LIMIT := 10

  datatype Name = Name(text: string)

  function AtMost(n: nat): nat {
    if n < LIMIT then n else LIMIT
  }

  /** r is a result the limiter may give for the target and the last configuration, whatever the order in which it looks
      at the vservers: some of the surplus ones deleted, or else the target's vservers but for some of the missing
      ones. */
  ghost predicate Limited<V>(target: map<Name, V>, last: map<Name, V>, r: map<Name, V>) {
    var surplus, missing := last.Keys - target.Keys, target.Keys - last.Keys;
    if surplus != {} then
      && r.Keys <= last.Keys && last.Keys - r.Keys <= surplus && |last.Keys - r.Keys| == AtMost(|surplus|)
      && (forall n | n in r :: r[n] == last[n])
    else
      && last.Keys <= r.Keys <= target.Keys && |r.Keys - last.Keys| == AtMost(|missing|)
      && (forall n | n in r :: r[n] == target[n])
  }

  method RateLimitVS<V>(target: map<Name, V>, last: map<Name, V>) returns (limited: map<Name, V>)
    ensures Limited(target, last, limited)
  {
    var surplus := exists n :: n in last && n !in target;
    if surplus {
      limited := Delete(target, last);
      assert last.Keys - target.Keys != {};
    } else {
      limited := Add(target, last);
      assert last.Keys - target.Keys == {};
    }
  }

  /** The vservers not in todo have been looked at: those in gone are left out, the others kept. */
  ghost predicate Kept<V>(from: map<Name, V>, todo: set<Name>, gone: set<Name>, r: map<Name, V>) {
    r.Keys == from.Keys - todo - gone && forall n | n in r :: r[n] == from[n]
  }

  /** Of those that may go, the first ten have gone. */
  predicate TenGone(may: set<Name>, todo: set<Name>, gone: set<Name>) {
    gone <= may - todo && |gone| <= LIMIT && (|gone| < LIMIT ==> gone == may - todo)
  }

  lemma KeepOne<V>(from: map<Name, V>, todo: set<Name>, gone: set<Name>, r: map<Name, V>, n: Name)
    requires Kept(from, todo, gone, r) && n in todo && n in from && gone !! todo
    ensures Kept(from, todo - {n}, gone, r[n := from[n]]) && Kept(from, todo - {n}, gone + {n}, r)
  {
  }

  lemma OneGoes(may: set<Name>, todo: set<Name>, gone: set<Name>, n: Name)
    requires TenGone(may, todo, gone) && n in todo
    ensures n !in may || |gone| == LIMIT ==> TenGone(may, todo - {n}, gone)
    ensures n in may && |gone| < LIMIT ==> TenGone(may, todo - {n}, gone + {n}) && |gone + {n}| == |gone| + 1
  {
    if n !in may {
      assert may - (todo - {n}) == may - todo;
    } else {
      assert may - (todo - {n}) == (may - todo) + {n};
    }
  }

  lemma AllToDo<V>(from: map<Name, V>, may: set<Name>)
    requires may <= from.Keys
    ensures Kept(from, from.Keys, {}, map[]) && TenGone(may, from.Keys, {})
  {
  }

  lemma Apart(may: set<Name>, todo: set<Name>, gone: set<Name>)
    requires TenGone(may, todo, gone)
    ensures gone !! todo && |gone| <= LIMIT && gone <= may
  {
  }

  lemma TenAtMost(may: set<Name>, gone: set<Name>)
    requires TenGone(may, {}, gone)
    ensures |gone| == AtMost(|may|)
  {
    assert may - {} == may;
    SubsetSize(gone, may);
  }

  method Delete<V>(target: map<Name, V>, last: map<Name, V>) returns (limited: map<Name, V>)
    ensures limited.Keys <= last.Keys && last.Keys - limited.Keys <= last.Keys - target.Keys
    ensures |last.Keys - limited.Keys| == AtMost(|last.Keys - target.Keys|)
    ensures forall n | n in limited :: limited[n] == last[n]
  {
    hide TenGone, Kept;
    limited := map[];
    var deleted, todo := 0, last.Keys;
    ghost var surplus, gone: set<Name> := last.Keys - target.Keys, {};
    AllToDo(last, surplus);
    while todo != {}
      invariant todo <= last.Keys && |gone| == deleted && TenGone(surplus, todo, gone) &&
                Kept(last, todo, gone, limited)
    {
      var n :| n in todo;
      OneGoes(surplus, todo, gone, n);
      Apart(surplus, todo, gone);
      KeepOne(last, todo, gone, limited, n);
      if n in target {
        limited := limited[n := last[n]];
      } else if deleted >= LIMIT {
        limited := limited[n := last[n]];
      } else {
        deleted, gone := deleted + 1, gone + {n};
      }
      todo := todo - {n};
    }
    DeleteDone(surplus, last, gone, limited);
  }

  lemma DeleteDone<V>(surplus: set<Name>, last: map<Name, V>, gone: set<Name>, limited: map<Name, V>)
    requires TenGone(surplus, {}, gone) && Kept(last, {}, gone, limited) && surplus <= last.Keys
    ensures limited.Keys <= last.Keys && last.Keys - limited.Keys <= surplus &&
            |last.Keys - limited.Keys| == AtMost(|surplus|)
    ensures forall n | n in limited :: limited[n] == last[n]
  {
    TenAtMost(surplus, gone);
    assert last.Keys - limited.Keys == gone;
  }

  /** Adding is leaving out all but the first ten of the missing vservers. */
  method Add<V>(target: map<Name, V>, last: map<Name, V>) returns (limited: map<Name, V>)
    requires last.Keys <= target.Keys
    ensures last.Keys <= limited.Keys <= target.Keys && |limited.Keys - last.Keys| == AtMost(|target.Keys - last.Keys|)
    ensures forall n | n in limited :: limited[n] == target[n]
  {
    limited := map[];
    var added, todo := 0, target.Keys;
    ghost var ins: set<Name> := {};
    AllToDo(target, target.Keys - last.Keys);
    assert Adding(target, last.Keys, todo, ins, limited) by {
      assert target.Keys - last.Keys - todo - ins == {};
    }
    while todo != {}
      invariant todo <= target.Keys && |ins| == added && Adding(target, last.Keys, todo, ins, limited)
    {
      hide Adding;
      var n :| n in todo;
      AddStep(target, last.Keys, todo, ins, limited, n);
      if n in last {
        limited := limited[n := target[n]];
      } else if added < LIMIT {
        limited := limited[n := target[n]];
        added, ins := added + 1, ins + {n};
      }
      todo := todo - {n};
    }
    AddDone(last.Keys, target, ins, limited);
  }

  /** Of the missing vservers looked at, those in ins are taken in; of the others, all are. */
  ghost predicate Adding<V>(target: map<Name, V>, last: set<Name>, todo: set<Name>, ins: set<Name>, r: map<Name, V>) {
    TenGone(target.Keys - last, todo, ins) && Kept(target, todo, target.Keys - last - todo - ins, r)
  }

  lemma AddStep<V>(target: map<Name, V>, last: set<Name>, todo: set<Name>, ins: set<Name>, r: map<Name, V>, n: Name)
    requires Adding(target, last, todo, ins, r) && n in todo && n in target
    ensures n in last ==> Adding(target, last, todo - {n}, ins, r[n := target[n]])
    ensures n !in last && |ins| < LIMIT ==>
            Adding(target, last, todo - {n}, ins + {n}, r[n := target[n]]) && |ins + {n}| == |ins| + 1
    ensures n !in last && |ins| >= LIMIT ==> Adding(target, last, todo - {n}, ins, r)
  {
    hide TenGone, Kept;
    var may := target.Keys - last;
    var outs := may - todo - ins;
    Apart(may, todo, ins);
    OneGoes(may, todo, ins, n);
    KeepOne(target, todo, outs, r, n);
    if n in last {
      assert may - (todo - {n}) - ins == outs;
    } else {
      assert may - (todo - {n}) - ins == outs + {n};
      assert may - (todo - {n}) - (ins + {n}) == outs;
    }
  }

  lemma AddDone<V>(last: set<Name>, target: map<Name, V>, ins: set<Name>, limited: map<Name, V>)
    requires last <= target.Keys && Adding(target, last, {}, ins, limited)
    ensures last <= limited.Keys <= target.Keys && |limited.Keys - last| == AtMost(|target.Keys - last|)
    ensures forall n | n in limited :: limited[n] == target[n]
  {
    TenAtMost(target.Keys - last, ins);
    hide AtMost;
    AddedKeys(target.Keys, last, ins, limited.Keys);
  }

  lemma AddedKeys(target: set<Name>, last: set<Name>, ins: set<Name>, keys: set<Name>)
    requires last <= target && ins <= target - last - {} && keys == target - {} - (target - last - {} - ins)
    ensures last <= keys <= target && keys - last == ins
  {
    forall n
      ensures n in keys <==> n in last || n in ins
    {
    }
  }

  /** n divided by ten, rounded up. */
  function Rounds(n: nat): nat {
    (n + LIMIT - 1) / LIMIT
  }

  function Surplus<V>(target: map<Name, V>, last: map<Name, V>): nat {
    |last.Keys - target.Keys|
  }

  function Missing<V>(target: map<Name, V>, last: map<Name, V>): nat {
    |target.Keys - last.Keys|
  }

  function Bound<V>(target: map<Name, V>, last: map<Name, V>): nat {
    var adds := Rounds(Missing(target, last));
    Rounds(Surplus(target, last)) + if adds == 0 then 1 else adds
  }

  /** The rounds still needed at most. */
  ghost function Left<V>(target: map<Name, V>, last: map<Name, V>): nat {
    if last == target then 0 else Bound(target, last)
  }

  /** No round both adds and deletes, and none changes the presence of more than ten vservers. */
  lemma SmallSteps<V>(target: map<Name, V>, last: map<Name, V>, r: map<Name, V>)
    requires Limited(target, last, r)
    ensures r.Keys <= last.Keys || last.Keys <= r.Keys
    ensures |last.Keys - r.Keys| + |r.Keys - last.Keys| <= LIMIT
  {
    assert r.Keys <= last.Keys ==> r.Keys - last.Keys == {};
    assert last.Keys <= r.Keys ==> last.Keys - r.Keys == {};
  }

  /** A round leaves the configuration as it is exactly if it has reached the target. */
  lemma FixpointIff<V>(target: map<Name, V>, last: map<Name, V>)
    ensures Limited(target, last, last) <==> last == target
  {
    var surplus, missing := last.Keys - target.Keys, target.Keys - last.Keys;
    assert last.Keys - last.Keys == {};
    if Limited(target, last, last) {
      assert surplus == {} && missing == {};
      assert last.Keys == target.Keys;
    }
  }

  lemma DeletionRound<V>(target: map<Name, V>, last: map<Name, V>, r: map<Name, V>)
    requires Limited(target, last, r) && Surplus(target, last) > 0
    ensures Surplus(target, r) == Surplus(target, last) - AtMost(Surplus(target, last))
    ensures Missing(target, r) == Missing(target, last)
  {
    var surplus, gone := last.Keys - target.Keys, last.Keys - r.Keys;
    hide AtMost;
    DeletedKeys(target.Keys, last.Keys, r.Keys);
    SubsetSize(gone, surplus);
  }

  lemma DeletedKeys(target: set<Name>, last: set<Name>, keys: set<Name>)
    requires keys <= last && last - keys <= last - target
    ensures keys - target == last - target - (last - keys) && target - keys == target - last
  {
    forall n
      ensures n in target - keys <==> n in target - last
    {
      assert n in last - keys ==> n !in target;
    }
  }

  lemma Between(x: set<Name>, y: set<Name>, z: set<Name>)
    requires x <= y <= z
    ensures |z - y| == |z - x| - |y - x| && |y - z| == 0
  {
    SubsetSize(x, y);
    SubsetSize(y, z);
    SubsetSize(x, z);
    assert y - z == {};
  }

  lemma AdditionRound<V>(target: map<Name, V>, last: map<Name, V>, r: map<Name, V>)
    requires Limited(target, last, r) && Surplus(target, last) == 0
    ensures Missing(target, r) == Missing(target, last) - AtMost(Missing(target, last))
    ensures Surplus(target, r) == 0
  {
    assert last.Keys - target.Keys == {};
    Between(last.Keys, r.Keys, target.Keys);
  }

  lemma Arrived<V>(target: map<Name, V>, last: map<Name, V>, r: map<Name, V>)
    requires Limited(target, last, r) && Surplus(target, last) == 0 && Missing(target, r) == 0
    ensures r == target
  {
    assert last.Keys - target.Keys == {};
    assert target.Keys - r.Keys == {};
    assert r.Keys == target.Keys;
  }

  lemma RoundsDown(n: nat)
    ensures n > 0 ==> Rounds(n - AtMost(n)) == Rounds(n) - 1 && Rounds(n) > 0
    ensures n == 0 ==> Rounds(n) == 0
    ensures n > LIMIT ==> Rounds(n - LIMIT) > 0
  {
  }

  lemma RoundHelps<V>(target: map<Name, V>, last: map<Name, V>, r: map<Name, V>)
    requires Limited(target, last, r)
    ensures Left(target, r) <= if Left(target, last) == 0 then 0 else Left(target, last) - 1
  {
    hide Limited, Rounds, Surplus, Missing;
    RoundsDown(Surplus(target, last));
    RoundsDown(Missing(target, last));
    if last == target {
      NothingToDo(target);
    }
    if Surplus(target, last) > 0 {
      DeletionRound(target, last, r);
    } else {
      AdditionRound(target, last, r);
      RoundsDown(Surplus(target, r));
      if Missing(target, last) <= LIMIT {
        Arrived(target, last, r);
      }
    }
  }

  lemma NothingToDo<V>(target: map<Name, V>)
    ensures Surplus(target, target) == 0 && Missing(target, target) == 0
  {
    assert target.Keys - target.Keys == {};
  }

  /** Whatever the order in which each round looks at the vservers, the target is reached within the bound and kept. */
  lemma {:induction false} Converges<V>(target: map<Name, V>, rounds: seq<map<Name, V>>, k: nat)
    requires k < |rounds| && forall i | 0 <= i < |rounds| - 1 :: Limited(target, rounds[i], rounds[i + 1])
    ensures k >= Bound(target, rounds[0]) ==> rounds[k] == target
  {
    LeftAfter(target, rounds, k);
  }

  lemma {:induction false} LeftAfter<V>(target: map<Name, V>, rounds: seq<map<Name, V>>, k: nat)
    requires k < |rounds| && forall i | 0 <= i < |rounds| - 1 :: Limited(target, rounds[i], rounds[i + 1])
    ensures Left(target, rounds[k]) + k <= Left(target, rounds[0]) || Left(target, rounds[k]) == 0
  {
    hide Limited, Left;
    if k > 0 {
      LeftAfter(target, rounds, k - 1);
      assert Limited(target, rounds[k - 1], rounds[k - 1 + 1]);
      RoundHelps(target, rounds[k - 1], rounds[k]);
    }
  }
}
