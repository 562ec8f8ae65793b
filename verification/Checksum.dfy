/** The Internet checksum (RFC 1071), computed twice over: the HA component adds big-endian words and folds until no
    carry is left, the ping healthcheck adds little-endian words and folds twice. Sums are 32 bits wide. */
module Checksum {
  import opened Types

  const SUM := 0x1_0000_0000

  /** The sum of the big-endian words; an odd last octet is the high half of a word. */
  function Big(b: seq<Octet>): nat {
    if b == [] then 0
    else if |b| == 1 then 256 * b[0]
    else 256 * b[0] + b[1] + Big(b[2..])
  }

  /** The sum of the little-endian words; an odd last octet is the low half of a word. */
  function Little(b: seq<Octet>): nat {
    if b == [] then 0
    else if |b| == 1 then b[0]
    else 256 * b[1] + b[0] + Little(b[2..])
  }

  /** The one's complement value of a sum: its residue modulo 65535, with 65535 for the residue 0 of a sum that is not
      0. */
  function Fold(s: nat): (r: nat)
    ensures r < WORD && (r == 0 <==> s == 0)
  {
    if s == 0 then 0 else (s - 1) % 0xffff + 1
  }

  /** Addition of 32-bit sums wraps around. */
  function Wrap(s: nat): (r: nat)
    ensures r < SUM
    ensures s < SUM ==> r == s
  {
    s % SUM
  }

  function Complement(x: nat): nat
    requires x < WORD
  {
    0xffff - x
  }

  function Swap(x: nat): (r: nat)
    requires x < WORD
    ensures r < WORD
  {
    256 * (x % 256) + x / 256
  }

  lemma FoldIs(s: nat, x: nat, k: int)
    requires x < WORD && s == x + 0xffff * k && (x == 0 <==> s == 0)
    ensures Fold(s) == x
  {
  }

  lemma FoldCongruent(s: nat) returns (k: nat)
    ensures s == Fold(s) + 0xffff * k
  {
    k := if s == 0 then 0 else (s - 1) / 0xffff;
  }

  /** Adding the carry to the low word leaves the folded value as it is. */
  lemma FoldStep(s: nat)
    ensures Fold(s % WORD + s / WORD) == Fold(s)
  {
    var k := FoldCongruent(s);
    FoldIs(s % WORD + s / WORD, Fold(s), k - s / WORD);
  }

  // The two programs.

  method IpChecksum(b: seq<Octet>) returns (r: nat)
    ensures r == Complement(Fold(Wrap(Big(b))))
  {
    hide Wrap, Fold;
    var sum, rest := 0, b;
    while |rest| >= 2
      invariant 0 <= sum < SUM && Wrap(sum + Big(rest)) == Wrap(Big(b))
      decreases |rest|
    {
      var w := 256 * (rest[0] as int) + rest[1];
      WrapAdd(sum + w, Big(rest[2..]));
      sum := Wrap(sum + w);
      rest := rest[2..];
    }
    if |rest| == 1 {
      sum := Wrap(sum + 256 * (rest[0] as int));
    }
    r := FoldAll(sum);
  }

  /** Folding until no carry is left ends, at the one's complement value. */
  method FoldAll(s: nat) returns (r: nat)
    ensures r == Complement(Fold(s))
  {
    var sum := s;
    while sum / WORD != 0
      invariant 0 <= sum && Fold(sum) == Fold(s)
      decreases sum
    {
      FoldStep(sum);
      sum := sum % WORD + sum / WORD;
    }
    r := 0xffff - sum % WORD;
  }

  lemma WrapAdd(s: nat, x: nat)
    ensures Wrap(Wrap(s) + x) == Wrap(s + x)
  {
  }

  /** The example of section 3 of RFC 1071, and that example with an odd octet added. */
  lemma Rfc1071Example(b: seq<Octet>)
    requires b == [0x00, 0x01, 0xf2, 0x03, 0xf4, 0xf5, 0xf6, 0xf7]
    ensures BigSum(b) == Complement(0xddf2) && BigSum(b + [0x01]) == Complement(0xdef2)
  {
    assert b[2..][2..] == b[4..] && b[4..][2..] == b[6..] && b[6..][2..] == [];
    assert Big(b[6..]) == 0xf6f7;
    assert Big(b[4..]) == 0xf4f5 + 0xf6f7;
    assert Big(b) == 0x0001 + 0xf203 + 0xf4f5 + 0xf6f7;
    var c := b + [0x01];
    assert c[2..][2..] == c[4..] && c[4..][2..] == c[6..] && c[6..][2..] == c[8..] == [0x01];
    assert Big(c[8..]) == 0x0100;
    assert Big(c[6..]) == 0xf6f7 + 0x0100;
    assert Big(c[4..]) == 0xf4f5 + 0xf6f7 + 0x0100;
    assert Big(c) == 0x0001 + 0xf203 + 0xf4f5 + 0xf6f7 + 0x0100;
  }

  method IcmpChecksum(msg: seq<Octet>) returns (r: nat)
    ensures r == Complement(Fold(Wrap(Little(msg))))
  {
    hide Wrap, Fold;
    var n, s, i := |msg|, 0, 0;
    assert msg[0..] == msg;
    while i < n - 1
      invariant 0 <= i <= n && i % 2 == 0
      invariant 0 <= s < SUM && Wrap(s + Little(msg[i..])) == Wrap(Little(msg))
    {
      assert msg[i..][2..] == msg[i + 2..];
      var w := 256 * (msg[i + 1] as int) + msg[i];
      WrapAdd(s + w, Little(msg[i + 2..]));
      s := Wrap(s + w);
      i := i + 2;
    }
    assert |msg[i..]| == n % 2;
    if n % 2 == 1 {
      s := Wrap(s + msg[n - 1]);
    }
    r := FoldTwice(s);
  }

  /** Two folds are enough for a 32-bit sum. */
  method FoldTwice(s: nat) returns (r: nat)
    requires s < SUM
    ensures r == Complement(Fold(s))
  {
    FoldStep(s);
    var t := s / WORD + s % WORD;
    FoldStep(t);
    var u := t + t / WORD;
    r := 0xffff - u % WORD;
  }

  // Byte order.

  /** The sum of the octets in high position. */
  function Highs(b: seq<Octet>): nat {
    if b == [] then 0 else if |b| == 1 then b[0] else b[0] + Highs(b[2..])
  }

  lemma {:induction false} BigAndLittle(b: seq<Octet>)
    ensures 256 * Big(b) == Little(b) + 0xffff * Highs(b)
    ensures Big(b) == 0 <==> Little(b) == 0
  {
    if |b| >= 2 {
      BigAndLittle(b[2..]);
    }
  }

  lemma {:induction false} SumBound(b: seq<Octet>)
    ensures Big(b) <= 0xffff * ((|b| + 1) / 2) && Little(b) <= 0xffff * ((|b| + 1) / 2)
  {
    if |b| >= 2 {
      SumBound(b[2..]);
    }
  }

  lemma SwapFold(b: seq<Octet>)
    ensures Fold(Little(b)) == Swap(Fold(Big(b)))
  {
    var f := Fold(Big(b));
    var k := FoldCongruent(Big(b));
    BigAndLittle(b);
    assert 256 * f == Swap(f) + 0xffff * (f / 256);
    FoldIs(Little(b), Swap(f), f / 256 + 256 * k - Highs(b));
  }

  function BigSum(b: seq<Octet>): (r: nat)
    ensures r < WORD
  {
    Complement(Fold(Wrap(Big(b))))
  }

  function LittleSum(b: seq<Octet>): (r: nat)
    ensures r < WORD
  {
    Complement(Fold(Wrap(Little(b))))
  }

  /** Byte-order independence (section 2(B) of RFC 1071): up to 2^17 octets one checksum is the byte swap of the
      other. */
  lemma ByteOrderIndependent(b: seq<Octet>)
    requires |b| <= 0x2_0000
    ensures LittleSum(b) == Swap(BigSum(b))
  {
    SumBound(b);
    SwapFold(b);
    SwapComplement(Fold(Big(b)));
  }

  lemma SwapSwap(x: nat)
    requires x < WORD
    ensures Swap(Swap(x)) == x
  {
    assert x == 256 * (x / 256) + x % 256;
  }

  lemma SwapComplement(x: nat)
    requires x < WORD
    ensures Swap(Complement(x)) == Complement(Swap(x))
  {
    assert x == 256 * (x / 256) + x % 256;
    assert 0xffff - x == 256 * (255 - x / 256) + (255 - x % 256);
  }

  lemma {:induction false} ZeroAppended(b: seq<Octet>)
    ensures Big(b + [0]) == Big(b) && Little(b + [0]) == Little(b)
  {
    if |b| >= 2 {
      ZeroAppended(b[2..]);
      assert (b + [0])[2..] == b[2..] + [0];
    }
  }

  function Zeros(n: nat): (z: seq<Octet>)
    ensures |z| == n && forall i | 0 <= i < n :: z[i] == 0
  {
    seq(n, _ => 0)
  }

  /** Padding with zero octets changes neither checksum, at any length. */
  lemma {:induction false} ZerosAppended(b: seq<Octet>, n: nat)
    ensures BigSum(b + Zeros(n)) == BigSum(b) && LittleSum(b + Zeros(n)) == LittleSum(b)
  {
    if n == 0 {
      assert b + Zeros(0) == b;
    } else {
      ZerosAppended(b, n - 1);
      ZeroAppended(b + Zeros(n - 1));
      assert b + Zeros(n) == b + Zeros(n - 1) + [0];
    }
  }

  // Changing one word.

  function WordAt(b: seq<Octet>, k: nat): nat
    requires 2 * k + 1 < |b|
  {
    256 * (b[2 * k] as int) + b[2 * k + 1]
  }

  predicate DifferAt(b: seq<Octet>, c: seq<Octet>, k: nat) {
    |b| == |c| && 2 * k + 1 < |b| && b[..2 * k] == c[..2 * k] && b[2 * k + 2..] == c[2 * k + 2..]
  }

  lemma {:induction false} BigDiffer(b: seq<Octet>, c: seq<Octet>, k: nat)
    requires DifferAt(b, c, k)
    ensures Big(b) - WordAt(b, k) == Big(c) - WordAt(c, k)
  {
    if k > 0 {
      assert b[0] == b[..2 * k][0] && b[1] == b[..2 * k][1] && c[0] == c[..2 * k][0] && c[1] == c[..2 * k][1];
      assert b[2..][..2 * (k - 1)] == b[..2 * k][2..] && c[2..][..2 * (k - 1)] == c[..2 * k][2..];
      assert b[2..][2 * k..] == b[2 * k + 2..] && c[2..][2 * k..] == c[2 * k + 2..];
      BigDiffer(b[2..], c[2..], k - 1);
    }
  }

  lemma {:induction false} BigPositive(b: seq<Octet>, i: nat)
    requires i < |b| && b[i] != 0
    ensures Big(b) > 0
  {
    if i >= 2 {
      BigPositive(b[2..], i - 2);
    }
  }

  /** A sum that is not 0 has checksum 0 exactly if it is a multiple of 65535. */
  lemma ZeroChecksumIff(b: seq<Octet>)
    requires Big(b) < SUM
    ensures BigSum(b) == 0 <==> Big(b) > 0 && Big(b) % 0xffff == 0
  {
    hide Fold, Wrap;
    FoldFull(Big(b));
  }

  lemma FoldFull(s: nat)
    ensures Fold(s) == 0xffff <==> s > 0 && s % 0xffff == 0
  {
    if s > 0 {
      assert s - 1 == 0xffff * ((s - 1) / 0xffff) + (s - 1) % 0xffff;
    }
  }

  /** Filling a word that was 0 with the checksum makes the checksum 0. */
  lemma FilledIn(b: seq<Octet>, c: seq<Octet>, k: nat)
    requires DifferAt(b, c, k) && |b| <= 0x2_0000 && WordAt(b, k) == 0 && WordAt(c, k) == BigSum(b)
    ensures BigSum(c) == 0
  {
    BigDiffer(b, c, k);
    SumBound(b);
    SumBound(c);
    var q := FoldCongruent(Big(b));
    assert Big(c) == 0xffff * (q + 1);
    ZeroChecksumIff(c);
  }

  /** A change of one word passes exactly if it exchanges 0 and 65535 (or is none at all). */
  lemma OneWordChanged(b: seq<Octet>, c: seq<Octet>, k: nat)
    requires DifferAt(b, c, k) && |b| <= 0x2_0000 && BigSum(b) == 0 && Big(c) > 0
    ensures BigSum(c) == 0 <==> WordAt(b, k) == WordAt(c, k) || {WordAt(b, k), WordAt(c, k)} == {0, 0xffff}
  {
    BigDiffer(b, c, k);
    SumBound(b);
    SumBound(c);
    ZeroChecksumIff(b);
    ZeroChecksumIff(c);
    var v, w := WordAt(b, k), WordAt(c, k);
    assert Big(c) == Big(b) + w - v;
    assert {v, w} == {0, 0xffff} <==> (v == 0 && w == 0xffff) || (v == 0xffff && w == 0) by {
      assert 0 in {0, 0xffff} && 0xffff in {0, 0xffff};
      assert v in {v, w} && w in {v, w};
    }
    SmallMultiple(Big(b), Big(c), v, w);
  }

  lemma SmallMultiple(s: nat, t: nat, v: nat, w: nat)
    requires t == s + w - v && s % 0xffff == 0 && v < WORD && w < WORD
    ensures t % 0xffff == 0 <==> v == w || (v == 0 && w == 0xffff) || (v == 0xffff && w == 0)
  {
    var q := s / 0xffff;
    assert s == 0xffff * q;
  }

  // Joining.

  /** What a tail adds to the little-endian sum: after an odd number of octets its own octets change places. */
  function TailSum(n: nat, tail: seq<Octet>): nat {
    if n % 2 == 0 then Little(tail) else Big(tail)
  }

  lemma {:induction false} LittleJoin(b: seq<Octet>, tail: seq<Octet>)
    ensures Little(b + tail) == Little(b) + TailSum(|b|, tail)
    decreases |b| + |tail|
  {
    if b == [] {
      assert b + tail == tail;
    } else if |b| >= 2 {
      assert (b + tail)[2..] == b[2..] + tail;
      LittleJoin(b[2..], tail);
    } else if tail == [] {
      assert b + tail == b;
    } else {
      assert (b + tail)[2..] == tail[1..];
      if |tail| >= 2 {
        assert tail[1..] == tail[1..2] + tail[2..];
        LittleJoin(tail[1..2], tail[2..]);
      }
    }
  }

  lemma ZeroLittleIff(b: seq<Octet>)
    requires Little(b) < SUM
    ensures LittleSum(b) == 0 <==> Little(b) > 0 && Little(b) % 0xffff == 0
  {
    hide Fold, Wrap;
    FoldFull(Little(b));
  }
}
