/** The allocators of firewall marks: one for firewall-mark services, one for DSR and TUN healthchecks. */
module Marks {
  import opened Types

  const FWM_ALLOC_BASE: nat := 0x100
  const FWM_ALLOC_SIZE: nat := 8000
  const DSR_MARK_BASE: nat := 0x1_0000
  const DSR_MARK_SIZE: nat := 16000

  predicate InRange(base: nat, size: nat, m: nat) {
    base <= m < base + size
  }

  function Range(base: nat, size: nat): set<nat> {
    set m: nat | m < base + size && InRange(base, size, m)
  }

  predicate Distinct(s: seq<nat>) {
    forall i, j | 0 <= i < j < |s| :: s[i] != s[j]
  }

  function Elements(s: seq<nat>): set<nat> {
    set i | 0 <= i < |s| :: s[i]
  }

  /** Free marks and held marks share out the range, each mark in exactly one place. */
  predicate Partition(base: nat, size: nat, free: seq<nat>, held: set<nat>) {
    Distinct(free) && Elements(free) !! held && Elements(free) + held == Range(base, size)
  }

  lemma {:induction false} RangeSize(base: nat, size: nat)
    ensures |Range(base, size)| == size
  {
    if size > 0 {
      RangeSize(base, size - 1);
      assert Range(base, size) == Range(base, size - 1) + {base + size - 1};
    }
  }

  lemma {:induction false} DistinctSize(s: seq<nat>)
    requires Distinct(s)
    ensures |Elements(s)| == |s|
  {
    if s != [] {
      var t := s[1..];
      DistinctSize(t);
      assert forall i | 0 <= i < |t| :: t[i] == s[i + 1];
      forall m | m in Elements(s)
        ensures m in {s[0]} + Elements(t)
      {
        var i :| 0 <= i < |s| && s[i] == m;
        if i > 0 {
          assert t[i - 1] == m;
        }
      }
      assert Elements(s) == {s[0]} + Elements(t);
    }
  }

  /** An allocator runs out exactly when every mark of its range is held. */
  lemma FreeCount(base: nat, size: nat, free: seq<nat>, held: set<nat>)
    requires Partition(base, size, free, held)
    ensures |free| + |held| == size
  {
    RangeSize(base, size);
    DistinctSize(free);
  }

  lemma PositiveMark(base: nat, size: nat, m: nat)
    requires base > 0 && m in Range(base, size)
    ensures m > 0
  {
  }

  /** A firewall-mark service and a healthcheck never carry the same mark. */
  lemma RangesApart(m: nat)
    requires m in Range(FWM_ALLOC_BASE, FWM_ALLOC_SIZE)
    ensures m !in Range(DSR_MARK_BASE, DSR_MARK_SIZE) && m > 0
  {
  }

  lemma GetKeeps(base: nat, size: nat, free: seq<nat>, held: set<nat>)
    requires Partition(base, size, free, held) && free != []
    ensures Partition(base, size, free[1..], held + {free[0]}) && free[0] in Range(base, size) && free[0] !in held
  {
    var rest := free[1..];
    assert free[0] in Elements(free);
    forall m | m in Elements(free)
      ensures m in Elements(rest) + {free[0]}
    {
      var i :| 0 <= i < |free| && free[i] == m;
      if i > 0 {
        assert rest[i - 1] == m;
      }
    }
    forall m | m in Elements(rest)
      ensures m in Elements(free) && m != free[0]
    {
      var i :| 0 <= i < |rest| && rest[i] == m;
      assert free[i + 1] == m;
    }
    assert Elements(free) == Elements(rest) + {free[0]};
  }

  lemma PutKeeps(base: nat, size: nat, free: seq<nat>, held: set<nat>, m: nat)
    requires Partition(base, size, free, held) && m in held
    ensures Partition(base, size, free + [m], held - {m})
  {
    var more := free + [m];
    assert Elements(more) == Elements(free) + {m} by {
      assert more[|free|] == m;
      forall x | x in Elements(free)
        ensures x in Elements(more)
      {
        var i :| 0 <= i < |free| && free[i] == x;
        assert more[i] == x;
      }
    }
    forall i, j | 0 <= i < j < |more|
      ensures more[i] != more[j]
    {
      assert free[i] in Elements(free);
    }
  }

  class MarkAllocator {
    const base: nat
    const size: nat
    var marks: seq<nat>
    ghost var held: set<nat>  // marks handed out and not yet returned

    ghost predicate Valid()
      reads this
    {
      Partition(base, size, marks, held)
    }

    constructor (base: nat, size: nat)
      ensures Valid() && this.base == base && this.size == size && held == {}
      ensures |marks| == size && forall i | 0 <= i < size :: marks[i] == base + i
    {
      this.base, this.size := base, size;
      marks, held := [], {};
      new;
      for i := 0 to size
        invariant |marks| == i && this.base == base && this.size == size && held == {}
        invariant forall j | 0 <= j < i :: marks[j] == base + j
      {
        marks := marks + [base + i];
      }
      forall m | m in Range(base, size)
        ensures m in Elements(marks)
      {
        assert marks[m - base] == m;
      }
    }

    /** Hands out the mark that has been free longest; fails only when all are held. */
    method Get() returns (mark: Option<nat>)
      requires Valid()
      modifies this
      ensures Valid()
      ensures mark.None? <==> |old(held)| == size
      ensures mark.None? ==> marks == old(marks) && held == old(held)
      ensures mark.Some? ==>
                && mark.value !in old(held) && mark.value in Range(base, size)
                && held == old(held) + {mark.value} && old(marks) == [mark.value] + marks
    {
      hide Partition, Range;
      FreeCount(base, size, marks, held);
      if |marks| == 0 {
        return None;
      }
      GetKeeps(base, size, marks, held);
      mark := Some(marks[0]);
      held := held + {marks[0]};
      marks := marks[1..];
    }

    /** Takes back a mark that was handed out. */
    method Put(mark: nat)
      requires Valid() && mark in held
      modifies this
      ensures Valid()
      ensures marks == old(marks) + [mark] && held == old(held) - {mark}
    {
      PutKeeps(base, size, marks, held, mark);
      marks := marks + [mark];
      held := held - {mark};
    }
  }

}
