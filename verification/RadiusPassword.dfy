/** Password hiding of RADIUS (section 5.2 of RFC 2865), for any hash of 16 octets. */
module RadiusPassword {

  const BLOCK := 16
  const LIMIT := 128

  type Octets = seq<bv8>

  type Hash = Octets -> Octets

  ghost predicate Hashes(hash: Hash) {
    forall x :: |hash(x)| == BLOCK
  }

  /** The length of a password in whole blocks, at most 128. */
  function PaddedLength(n: nat): (r: nat)
    ensures r % BLOCK == 0 && r <= LIMIT
  {
    var r := (n + 15) / BLOCK * BLOCK;
    if r > LIMIT then LIMIT else r
  }

  /** The password filled up with zeros to whole blocks, or cut to 128 octets. */
  function Padded(password: Octets): (r: Octets)
    ensures |r| == PaddedLength(|password|)
  {
    seq(PaddedLength(|password|), i requires 0 <= i => if i < |password| then password[i] else 0)
  }

  function Xor(x: Octets, y: Octets): (r: Octets)
    requires |x| == |y|
    ensures |r| == |x|
  {
    seq(|x|, i requires 0 <= i < |x| => x[i] ^ y[i])
  }

  lemma XorTwice(x: Octets, y: Octets)
    requires |x| == |y|
    ensures Xor(Xor(x, y), y) == x
  {
    forall i | 0 <= i < |x|
      ensures Xor(Xor(x, y), y)[i] == x[i]
    {
      XorBack(x[i], y[i]);
    }
  }

  lemma XorBack(x: bv8, y: bv8)
    ensures (x ^ y) ^ y == x
  {
  }

  /** Each block is masked with the hash of the secret and the hidden block before it, the first with the
      authenticator. */
  ghost function Hidden(plain: Octets, secret: Octets, before: Octets, hash: Hash): (r: Octets)
    requires Hashes(hash) && |plain| % BLOCK == 0
    ensures |r| == |plain|
  {
    if plain == [] then []
    else
      var c := Xor(plain[..BLOCK], hash(secret + before));
      c + Hidden(plain[BLOCK..], secret, c, hash)
  }

  /** The way back, block by block, as the server takes it. */
  ghost function Shown(hidden: Octets, secret: Octets, before: Octets, hash: Hash): (r: Octets)
    requires Hashes(hash) && |hidden| % BLOCK == 0
    ensures |r| == |hidden|
  {
    if hidden == [] then []
    else Xor(hidden[..BLOCK], hash(secret + before)) + Shown(hidden[BLOCK..], secret, hidden[..BLOCK], hash)
  }

  lemma {:induction false} ShownHidden(plain: Octets, secret: Octets, before: Octets, hash: Hash)
    requires Hashes(hash) && |plain| % BLOCK == 0
    ensures Shown(Hidden(plain, secret, before, hash), secret, before, hash) == plain
  {
    if plain != [] {
      var c := Xor(plain[..BLOCK], hash(secret + before));
      ShownHidden(plain[BLOCK..], secret, c, hash);
      XorTwice(plain[..BLOCK], hash(secret + before));
      var h := Hidden(plain, secret, before, hash);
      assert h[..BLOCK] == c && h[BLOCK..] == Hidden(plain[BLOCK..], secret, c, hash);
      assert plain == plain[..BLOCK] + plain[BLOCK..];
    }
  }

  lemma {:induction false} HiddenShown(hidden: Octets, secret: Octets, before: Octets, hash: Hash)
    requires Hashes(hash) && |hidden| % BLOCK == 0
    ensures Hidden(Shown(hidden, secret, before, hash), secret, before, hash) == hidden
  {
    if hidden != [] {
      HiddenShown(hidden[BLOCK..], secret, hidden[..BLOCK], hash);
      XorTwice(hidden[..BLOCK], hash(secret + before));
      var s := Shown(hidden, secret, before, hash);
      assert s[..BLOCK] == Xor(hidden[..BLOCK], hash(secret + before));
      assert s[BLOCK..] == Shown(hidden[BLOCK..], secret, hidden[..BLOCK], hash);
      assert hidden == hidden[..BLOCK] + hidden[BLOCK..];
    }
  }

  /** What the server recovers is the password itself, but for zeros at its end and what is beyond 128 octets. */
  lemma PaddedIs(password: Octets)
    ensures |password| <= LIMIT ==>
            password <= Padded(password) && forall i | |password| <= i < |Padded(password)| :: Padded(password)[i] == 0
    ensures |password| > LIMIT ==> Padded(password) == password[..LIMIT]
    ensures |Padded(password)| % BLOCK == 0 && |Padded(password)| < |password| + BLOCK
  {
  }

  /** What the mask of block n is the hash of, besides the secret. */
  function Salt(before: Octets, hidden: Octets, n: nat): Octets
    requires n * BLOCK <= |hidden|
  {
    if n == 0 then before else hidden[(n - 1) * BLOCK..n * BLOCK]
  }

  /** Octet by octet: block n of the hidden password is that of the plain one under the hash of the secret and the
      hidden block before it, or, for the first block, of the secret and the authenticator. */
  ghost predicate Masked(plain: Octets, secret: Octets, before: Octets, hash: Hash, hidden: Octets, n: nat)
    requires Hashes(hash) && |plain| == |hidden| && (n + 1) * BLOCK <= |hidden|
  {
    var mask := hash(secret + Salt(before, hidden, n));
    forall i | 0 <= i < BLOCK :: hidden[n * BLOCK + i] == plain[n * BLOCK + i] ^ mask[i]
  }

  ghost predicate AllMasked(plain: Octets, secret: Octets, before: Octets, hash: Hash, hidden: Octets)
    requires Hashes(hash)
  {
    |plain| == |hidden| && forall n: nat | (n + 1) * BLOCK <= |hidden| :: Masked(plain, secret, before, hash, hidden, n)
  }

  lemma HiddenAllMasked(plain: Octets, secret: Octets, before: Octets, hash: Hash)
    requires Hashes(hash) && |plain| % BLOCK == 0
    ensures AllMasked(plain, secret, before, hash, Hidden(plain, secret, before, hash))
  {
    forall n: nat | (n + 1) * BLOCK <= |plain|
      ensures Masked(plain, secret, before, hash, Hidden(plain, secret, before, hash), n)
    {
      HiddenMasked(plain, secret, before, hash, n);
    }
  }

  lemma {:induction false} HiddenMasked(plain: Octets, secret: Octets, before: Octets, hash: Hash, n: nat)
    requires Hashes(hash) && |plain| % BLOCK == 0 && (n + 1) * BLOCK <= |plain|
    ensures Masked(plain, secret, before, hash, Hidden(plain, secret, before, hash), n)
  {
    var c := Xor(plain[..BLOCK], hash(secret + before));
    if n > 0 {
      HiddenMasked(plain[BLOCK..], secret, c, hash, n - 1);
      MaskedOn(plain, secret, before, hash, c, Hidden(plain[BLOCK..], secret, c, hash), n);
    }
  }

  lemma MaskedOn(plain: Octets, secret: Octets, before: Octets, hash: Hash, c: Octets, rest: Octets, n: nat)
    requires Hashes(hash) && |c| == BLOCK && |plain| == BLOCK + |rest| && n > 0 && n * BLOCK <= |rest|
    requires Masked(plain[BLOCK..], secret, c, hash, rest, n - 1)
    ensures Masked(plain, secret, before, hash, c + rest, n)
  {
    assert Salt(before, c + rest, n) == Salt(c, rest, n - 1);
    var mask := hash(secret + Salt(c, rest, n - 1));
    forall i | 0 <= i < BLOCK
      ensures (c + rest)[n * BLOCK + i] == plain[n * BLOCK + i] ^ mask[i]
    {
      assert rest[(n - 1) * BLOCK + i] == plain[BLOCK..][(n - 1) * BLOCK + i] ^ mask[i];
    }
  }

  method HidePassword(password: Octets, secret: Octets, authenticator: Octets, hash: Hash) returns (blocks: array<bv8>)
    requires Hashes(hash) && |authenticator| == BLOCK
    ensures fresh(blocks) && blocks[..] == Hidden(Padded(password), secret, authenticator, hash)
    ensures AllMasked(Padded(password), secret, authenticator, hash, blocks[..])
    ensures Shown(blocks[..], secret, authenticator, hash) == Padded(password)
  {
    hide Hidden, Shown, Padded, AllMasked;
    blocks := NewBlocks(password);
    HideBlocks(blocks, secret, authenticator, hash);
    ShownHidden(Padded(password), secret, authenticator, hash);
    HiddenAllMasked(Padded(password), secret, authenticator, hash);
  }

  method HideBlocks(blocks: array<bv8>, secret: Octets, authenticator: Octets, hash: Hash)
    requires Hashes(hash) && blocks.Length % BLOCK == 0
    modifies blocks
    ensures blocks[..] == Hidden(old(blocks[..]), secret, authenticator, hash)
  {
    hide Hidden, Xor;
    ghost var plain := blocks[..];
    var i := 0;
    ghost var before := authenticator;
    assert plain[0..] == plain;
    while i < blocks.Length
      invariant 0 <= i <= blocks.Length && i % BLOCK == 0
      invariant before == if i >= BLOCK then blocks[i - BLOCK..i] else authenticator
      invariant blocks[i..] == plain[i..]
      invariant blocks[..i] + Hidden(plain[i..], secret, before, hash) == Hidden(plain, secret, authenticator, hash)
    {
      before := HideBlock(blocks, i, secret, authenticator, hash, plain, before);
      i := i + BLOCK;
    }
    assert blocks[..] == blocks[..i] && plain[i..] == [];
    assert Hidden([], secret, before, hash) == [];
  }

  method NewBlocks(password: Octets) returns (blocks: array<bv8>)
    ensures fresh(blocks) && blocks[..] == Padded(password)
  {
    var length := PaddedLength(|password|);
    blocks := new bv8[length](i => if 0 <= i < |password| then password[i] else 0);
  }

  /** Hides the block at i, given that all before it are hidden. */
  method HideBlock(blocks: array<bv8>, i: nat, secret: Octets, authenticator: Octets, hash: Hash, ghost plain: Octets,
                   ghost before: Octets)
    returns (ghost c: Octets)
    requires Hashes(hash) && i + BLOCK <= blocks.Length == |plain| && i % BLOCK == |plain| % BLOCK == 0 &&
             blocks[i..] == plain[i..]
    requires before == if i >= BLOCK then blocks[i - BLOCK..i] else authenticator
    modifies blocks
    ensures c == blocks[i..i + BLOCK] && blocks[i + BLOCK..] == plain[i + BLOCK..]
    ensures blocks[..i + BLOCK] + Hidden(plain[i + BLOCK..], secret, c, hash) ==
            old(blocks[..i]) + Hidden(plain[i..], secret, before, hash)
  {
    hide Hidden, Xor;
    var h := hash(secret + (if i >= BLOCK then blocks[i - BLOCK..i] else authenticator));
    ghost var done := blocks[..i];
    XorBlock(blocks, i, h, plain);
    c := blocks[i..i + BLOCK];
    HiddenStep(plain, i, secret, before, hash, done, c);
    assert blocks[..i + BLOCK] == done + c;
  }

  lemma HiddenStep(plain: Octets, i: nat, secret: Octets, before: Octets, hash: Hash, done: Octets, c: Octets)
    requires Hashes(hash) && i + BLOCK <= |plain| && (|plain| - i) % BLOCK == 0 && (|plain| - i - BLOCK) % BLOCK == 0
    requires c == Xor(plain[i..i + BLOCK], hash(secret + before))
    ensures done + Hidden(plain[i..], secret, before, hash) == done + c + Hidden(plain[i + BLOCK..], secret, c, hash)
  {
    assert plain[i..][..BLOCK] == plain[i..i + BLOCK] && plain[i..][BLOCK..] == plain[i + BLOCK..];
  }

  method XorBlock(blocks: array<bv8>, i: nat, h: Octets, ghost plain: Octets)
    requires i + BLOCK <= blocks.Length == |plain| && |h| == BLOCK && blocks[i..] == plain[i..]
    modifies blocks
    ensures blocks[..i] == old(blocks[..i]) && blocks[i..i + BLOCK] == Xor(plain[i..i + BLOCK], h)
    ensures blocks[i + BLOCK..] == plain[i + BLOCK..]
  {
    assert forall k | i <= k < blocks.Length :: blocks[k] == blocks[i..][k - i] == plain[k];
    for j := 0 to BLOCK
      invariant forall k | 0 <= k < i :: blocks[k] == old(blocks[k])
      invariant forall k | i <= k < i + j :: blocks[k] == plain[k] ^ h[k - i]
      invariant forall k | i + j <= k < blocks.Length :: blocks[k] == plain[k]
    {
      blocks[i + j] := blocks[i + j] ^ h[j];
    }
  }
}
