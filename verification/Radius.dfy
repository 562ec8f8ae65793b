/** RADIUS packets (sections 3 and 5 of RFC 2865) as the RADIUS healthcheck encodes and decodes them. */
module Radius {
  import opened Types

  const HEADER_SIZE := 20
  const MAXIMUM_SIZE := 4096

  datatype Attribute = Attribute(kind: Octet, length: Octet, value: seq<Octet>)

  datatype Packet = Packet(
    code: Octet,
    identifier: Octet,
    length: Word16,
    authenticator: seq<Octet>,
    attributes: seq<Attribute>)

  /** Reads from a fixed piece of memory, front to back. */
  class Reader {
    const data: seq<Octet>
    var pos: nat

    ghost predicate Valid()
      reads this
    {
      pos <= |data|
    }

    function Rest(): seq<Octet>
      requires Valid()
      reads this
    {
      data[pos..]
    }

    constructor (data: seq<Octet>)
      ensures Valid() && this.data == data && pos == 0 && Rest() == data
    {
      this.data, pos := data, 0;
    }

    method ReadByte() returns (b: Option<Octet>)
      requires Valid()
      modifies this
      ensures Valid()
      ensures if old(Rest()) == [] then b.None? && Rest() == []
              else b == Some(old(Rest())[0]) && Rest() == old(Rest())[1..]
    {
      if pos >= |data| {
        return None;
      }
      b := Some(data[pos]);
      pos := pos + 1;
    }

    /** Up to n octets: fewer only at the end of the data, and None once nothing is left. */
    method Read(n: nat) returns (b: Option<seq<Octet>>)
      requires Valid() && n > 0
      modifies this
      ensures Valid()
      ensures if old(Rest()) == [] then b.None? && Rest() == []
              else var k := if n <= |old(Rest())| then n else |old(Rest())|;
                b == Some(old(Rest())[..k]) && Rest() == old(Rest())[k..]
    {
      if pos >= |data| {
        return None;
      }
      var k := if n <= |data| - pos then n else |data| - pos;
      assert data[pos..pos + k] == data[pos..][..k];
      b := Some(data[pos..pos + k]);
      pos := pos + k;
    }
  }

  // Decoding.

  /** The attribute at the front of b, if there is a whole one. */
  function ParseAttribute(b: seq<Octet>): (r: Option<Attribute>)
    ensures r.Some? <==> |b| >= 2 && 2 <= b[1] <= |b|
    ensures r.Some? ==> r.value == Attribute(b[0], b[1], b[2..b[1]])
  {
    if |b| < 2 || b[1] < 2 || b[1] > |b| then None else Some(Attribute(b[0], b[1], b[2..b[1]]))
  }

  function Minus16(x: Word16, y: Octet): Word16 {
    (x - y) % WORD
  }

  /** The attributes at the front of b, as long as the 16-bit counter is at least 2. */
  function ParseAttributes(b: seq<Octet>, counter: Word16): Option<seq<Attribute>>
    decreases |b|
  {
    if counter < 2 then Some([])
    else
      var a := ParseAttribute(b);
      if a.None? then None
      else
        var more := ParseAttributes(b[a.value.length..], Minus16(counter, a.value.length));
        if more.None? then None else Some([a.value] + more.value)
  }

  function LengthField(b: seq<Octet>): Word16
    requires |b| >= HEADER_SIZE
  {
    256 * (b[2] as int) + b[3]
  }

  function Parse(b: seq<Octet>): Option<Packet> {
    if |b| < HEADER_SIZE || !(HEADER_SIZE <= LengthField(b) <= MAXIMUM_SIZE) then None
    else
      var attributes := ParseAttributes(b[HEADER_SIZE..], LengthField(b) - HEADER_SIZE);
      if attributes.None? then None
      else Some(Packet(b[0], b[1], LengthField(b), b[4..HEADER_SIZE], attributes.value))
  }

  method DecodeAttribute(r: Reader) returns (a: Option<Attribute>)
    requires r.Valid()
    modifies r
    ensures r.Valid() && a == ParseAttribute(old(r.Rest()))
    ensures a.Some? ==> r.Rest() == old(r.Rest())[a.value.length..] && r.pos >= old(r.pos) + 2
  {
    ghost var b := r.Rest();
    var kind := r.ReadByte();
    if kind.None? {
      return None;
    }
    var length := r.ReadByte();
    if length.None? {
      return None;
    }
    if length.value < 2 {
      return None;
    }
    if length.value == 2 {
      assert b[2..2] == [] && b[1..][1..] == b[2..];
      return Some(Attribute(kind.value, 2, []));
    }
    assert b[1..][1..] == b[2..];
    var value := r.Read(length.value - 2);
    if value.None? {
      return None;
    }
    if |value.value| != length.value - 2 {
      return None;
    }
    assert b[2..][..length.value - 2] == b[2..length.value] && b[2..][length.value - 2..] == b[length.value..];
    a := Some(Attribute(kind.value, length.value, value.value));
  }

  lemma ParseLonger(b: seq<Octet>, counter: Word16, a: Attribute, done: seq<Attribute>)
    requires counter >= 2 && ParseAttribute(b) == Some(a)
    ensures var more := ParseAttributes(b[a.length..], Minus16(counter, a.length));
            var all := ParseAttributes(b, counter);
            (more.None? <==> all.None?) && (all.Some? ==> done + all.value == done + [a] + more.value)
  {
  }

  method DecodeAttributes(r: Reader, length: Word16) returns (attributes: Option<seq<Attribute>>)
    requires r.Valid()
    modifies r
    ensures r.Valid() && attributes == ParseAttributes(old(r.Rest()), length)
  {
    ghost var b := r.Rest();
    var counter := length;
    var done: seq<Attribute> := [];
    while counter >= 2
      invariant r.Valid()
      invariant var all, more := ParseAttributes(b, length), ParseAttributes(r.Rest(), counter);
                (all.None? <==> more.None?) && (all.Some? ==> all.value == done + more.value)
      decreases |r.data| - r.pos
    {
      ghost var rest := r.Rest();
      var a := DecodeAttribute(r);
      if a.None? {
        return None;
      }
      ParseLonger(rest, counter, a.value, done);
      done := done + [a.value];
      counter := Minus16(counter, a.value.length);
    }
    assert done + [] == done;
    attributes := Some(done);
  }

  function TotalLength(as_: seq<Attribute>): nat {
    if as_ == [] then 0 else as_[0].length + TotalLength(as_[1..])
  }

  /** Attribute a stands in b from `at` on. */
  predicate StandsAt(b: seq<Octet>, at: nat, a: Attribute) {
    2 <= a.length && at + a.length <= |b| && a == Attribute(b[at], b[at + 1], b[at + 2..at + a.length])
  }

  /** Each attribute read stands behind all before it. */
  lemma {:induction false} AttributesAre(b: seq<Octet>, counter: Word16, i: nat)
    requires ParseAttributes(b, counter).Some? && i < |ParseAttributes(b, counter).value|
    ensures var as_ := ParseAttributes(b, counter).value; StandsAt(b, TotalLength(as_[..i]), as_[i])
    decreases i
  {
    hide Minus16, TotalLength, StandsAt;
    var a := ParseAttribute(b).value;
    var rest, left := b[a.length..], Minus16(counter, a.length);
    var more := ParseAttributes(rest, left).value;
    if i == 0 {
      StandsFirst(b, a);
    } else {
      AttributesAre(rest, left, i - 1);
      StandsOn(b, a, more, i);
    }
  }

  lemma StandsFirst(b: seq<Octet>, a: Attribute)
    requires ParseAttribute(b) == Some(a)
    ensures StandsAt(b, TotalLength([]), a)
  {
  }

  lemma StandsOn(b: seq<Octet>, a: Attribute, more: seq<Attribute>, i: nat)
    requires 0 < i <= |more| && a.length <= |b| && StandsAt(b[a.length..], TotalLength(more[..i - 1]), more[i - 1])
    ensures StandsAt(b, TotalLength(([a] + more)[..i]), ([a] + more)[i])
  {
    var at, last := TotalLength(more[..i - 1]), more[i - 1];
    assert ([a] + more)[..i][1..] == more[..i - 1];
    assert b[a.length..][at + 2..at + last.length] == b[a.length + at + 2..a.length + at + last.length];
  }

  method Decode(b: seq<Octet>) returns (p: Option<Packet>)
    ensures p == Parse(b)
    ensures p.Some? ==>
              && |b| >= 20 && p.value.code == b[0] && p.value.identifier == b[1]
              && p.value.length == 256 * (b[2] as int) + b[3] && 20 <= p.value.length <= 4096
              && p.value.authenticator == b[4..20]
  {
    var r := new Reader(b);
    var head := r.Read(HEADER_SIZE);
    if head.None? || |head.value| != HEADER_SIZE {
      return None;
    }
    var length := LengthField(head.value);
    if length < HEADER_SIZE || length > MAXIMUM_SIZE {
      return None;
    }
    var attributes := DecodeAttributes(r, length - HEADER_SIZE);
    if attributes.None? {
      return None;
    }
    assert head.value[4..HEADER_SIZE] == b[4..HEADER_SIZE];
    p := Some(Packet(head.value[0], head.value[1], length, head.value[4..HEADER_SIZE], attributes.value));
  }

  // Encoding.

  /** An attribute with its length filled in, cut to 8 bits. */
  function Sized(a: Attribute): Attribute {
    a.(length := (2 + |a.value|) % 256)
  }

  function EncodeAttribute(a: Attribute): seq<Octet> {
    [a.kind, (2 + |a.value|) % 256] + a.value
  }

  function EncodeAttributes(as_: seq<Attribute>): seq<Octet> {
    if as_ == [] then [] else EncodeAttribute(as_[0]) + EncodeAttributes(as_[1..])
  }

  function SizedAll(as_: seq<Attribute>): (r: seq<Attribute>)
    ensures |r| == |as_| && forall i | 0 <= i < |as_| :: r[i] == Sized(as_[i])
  {
    seq(|as_|, i requires 0 <= i < |as_| => Sized(as_[i]))
  }

  /** A packet with its lengths filled in. */
  function Filled(p: Packet): Packet {
    p.(attributes := SizedAll(p.attributes), length := (HEADER_SIZE + TotalLength(SizedAll(p.attributes))) % WORD)
  }

  function Header(p: Packet): seq<Octet> {
    [p.code, p.identifier, p.length / 256, p.length % 256] + p.authenticator
  }

  function Encoded(p: Packet): seq<Octet> {
    Header(Filled(p)) + EncodeAttributes(p.attributes)
  }

  lemma {:induction false} EncodeMore(as_: seq<Attribute>, i: nat)
    requires i < |as_|
    ensures EncodeAttributes(as_[..i + 1]) == EncodeAttributes(as_[..i]) + EncodeAttribute(as_[i])
    decreases i
  {
    if i == 0 {
      assert as_[..1][1..] == [];
    } else {
      EncodeMore(as_[1..], i - 1);
      assert as_[..i + 1][1..] == as_[1..][..i] && as_[..i][1..] == as_[1..][..i - 1];
    }
  }

  lemma {:induction false} TotalMore(as_: seq<Attribute>, a: Attribute)
    ensures TotalLength(as_ + [a]) == TotalLength(as_) + a.length
  {
    if as_ != [] {
      TotalMore(as_[1..], a);
      assert (as_ + [a])[1..] == as_[1..] + [a];
    }
  }

  /** Fills in the packet's lengths and gives its octets. */
  method Encode(p: Packet) returns (filled: Packet, b: seq<Octet>)
    ensures filled == Filled(p) && b == Encoded(p)
  {
    hide EncodeAttribute, EncodeAttributes, TotalLength;
    var attributes: seq<Octet>, sized: seq<Attribute> := [], [];
    var length: Word16 := HEADER_SIZE;
    assert p.attributes[..|p.attributes|] == p.attributes;
    EncodeNone();
    for i := 0 to |p.attributes|
      invariant attributes == EncodeAttributes(p.attributes[..i])
      invariant sized == SizedAll(p.attributes[..i]) && length == (HEADER_SIZE + TotalLength(sized)) % WORD
    {
      var a := Sized(p.attributes[i]);
      EncodeMore(p.attributes, i);
      TotalMore(sized, a);
      WrapPlus(HEADER_SIZE + TotalLength(sized), a.length);
      attributes := attributes + EncodeAttribute(p.attributes[i]);
      sized := sized + [a];
      length := (length + a.length) % WORD;
    }
    filled := p.(attributes := sized, length := length);
    b := Header(filled) + attributes;
  }

  lemma EncodeNone()
    ensures EncodeAttributes([]) == [] && TotalLength([]) == 0
  {
  }

  lemma WrapPlus(x: nat, y: nat)
    ensures (x % WORD + y) % WORD == (x + y) % WORD
  {
  }

  // Round trips.

  predicate Fits(a: Attribute) {
    |a.value| <= 253
  }

  lemma ParseFront(a: Attribute, rest: seq<Octet>)
    requires Fits(a)
    ensures ParseAttribute(EncodeAttribute(a) + rest) == Some(Sized(a))
    ensures (EncodeAttribute(a) + rest)[Sized(a).length..] == rest
  {
    var b := EncodeAttribute(a) + rest;
    assert b[2..Sized(a).length] == a.value;
  }

  lemma {:induction false} AttributesRoundTrip(as_: seq<Attribute>)
    requires (forall a | a in as_ :: Fits(a)) && TotalLength(SizedAll(as_)) < WORD
    ensures ParseAttributes(EncodeAttributes(as_), TotalLength(SizedAll(as_))) == Some(SizedAll(as_))
  {
    hide ParseAttribute, EncodeAttribute, SizedAll, Minus16;
    if as_ != [] {
      SizedFirst(as_);
      AttributesRoundTrip(as_[1..]);
      ParseFront(as_[0], EncodeAttributes(as_[1..]));
      MinusSame(TotalLength(SizedAll(as_)), Sized(as_[0]).length);
    }
  }

  lemma MinusSame(x: Word16, y: Octet)
    requires y <= x
    ensures Minus16(x, y) == x - y
  {
  }

  lemma SizedFirst(as_: seq<Attribute>)
    requires as_ != [] && Fits(as_[0])
    ensures SizedAll(as_) == [Sized(as_[0])] + SizedAll(as_[1..]) && SizedAll(as_)[1..] == SizedAll(as_[1..])
    ensures TotalLength(SizedAll(as_)) == Sized(as_[0]).length + TotalLength(SizedAll(as_[1..])) &&
            Sized(as_[0]).length >= 2
  {
  }

  lemma {:induction false} EncodedSize(as_: seq<Attribute>)
    requires forall a | a in as_ :: Fits(a)
    ensures |EncodeAttributes(as_)| == TotalLength(SizedAll(as_))
  {
    if as_ != [] {
      assert as_[0] in as_ && SizedAll(as_)[1..] == SizedAll(as_[1..]);
      EncodedSize(as_[1..]);
    }
  }

  predicate SizesOK(p: Packet) {
    (forall a | a in p.attributes :: Fits(a)) && HEADER_SIZE + TotalLength(SizedAll(p.attributes)) <= MAXIMUM_SIZE
  }

  /** Where the parts of an encoded packet stand. */
  lemma EncodedParts(p: Packet)
    requires |p.authenticator| == 16 && HEADER_SIZE + TotalLength(SizedAll(p.attributes)) < WORD
    ensures var b := Encoded(p);
            && |b| >= HEADER_SIZE && b[0] == p.code && b[1] == p.identifier && b[4..HEADER_SIZE] == p.authenticator
            && LengthField(b) == HEADER_SIZE + TotalLength(SizedAll(p.attributes))
            && b[HEADER_SIZE..] == EncodeAttributes(p.attributes)
  {
    hide EncodeAttributes, TotalLength, SizedAll;
  }

  /** Below 64 KiB, decoding gives back what was encoded exactly for attribute values up to 253 octets and packets up to
      4096 octets. */
  lemma PacketRoundTripIff(p: Packet)
    requires |p.authenticator| == 16 && HEADER_SIZE + TotalLength(SizedAll(p.attributes)) < WORD
    ensures Parse(Encoded(p)) == Some(Filled(p)) <==> SizesOK(p)
  {
    hide Encoded, EncodeAttributes, TotalLength, ParseAttributes;
    EncodedParts(p);
    if SizesOK(p) {
      AttributesRoundTrip(p.attributes);
    }
    if Parse(Encoded(p)) == Some(Filled(p)) {
      ParsedFit(Encoded(p)[HEADER_SIZE..], LengthField(Encoded(p)) - HEADER_SIZE);
      SizedFit(p.attributes);
    }
  }

  lemma SizedFit(as_: seq<Attribute>)
    requires forall a | a in SizedAll(as_) :: Fits(a)
    ensures forall a | a in as_ :: Fits(a)
  {
    forall i | 0 <= i < |as_|
      ensures Fits(as_[i])
    {
      assert SizedAll(as_)[i] in SizedAll(as_);
    }
  }

  lemma {:induction false} ParsedFit(b: seq<Octet>, counter: Word16)
    requires ParseAttributes(b, counter).Some?
    ensures forall a | a in ParseAttributes(b, counter).value :: Fits(a) && Sized(a) == a
    decreases |b|
  {
    if counter >= 2 {
      var a := ParseAttribute(b).value;
      ParsedFit(b[a.length..], Minus16(counter, a.length));
    }
  }

  /** What was parsed stands at the front of the octets. */
  lemma {:induction false} ParsedPrefix(b: seq<Octet>, counter: Word16)
    requires ParseAttributes(b, counter).Some?
    ensures var as_ := ParseAttributes(b, counter).value;
            TotalLength(as_) <= |b| && b[..TotalLength(as_)] == EncodeAttributes(as_)
    decreases |b|
  {
    hide Minus16, TotalLength, EncodeAttributes;
    if counter < 2 {
      PrefixNone(b);
    } else {
      var a := ParseAttribute(b).value;
      var rest, left := b[a.length..], Minus16(counter, a.length);
      ParsedPrefix(rest, left);
      PrefixStep(b, a, ParseAttributes(rest, left).value);
    }
  }

  lemma PrefixNone(b: seq<Octet>)
    ensures TotalLength([]) <= |b| && b[..TotalLength([])] == EncodeAttributes([])
  {
  }

  lemma PrefixStep(b: seq<Octet>, a: Attribute, more: seq<Attribute>)
    requires ParseAttribute(b) == Some(a) && TotalLength(more) <= |b[a.length..]|
    requires b[a.length..][..TotalLength(more)] == EncodeAttributes(more)
    ensures TotalLength([a] + more) <= |b| && b[..TotalLength([a] + more)] == EncodeAttributes([a] + more)
  {
    assert ([a] + more)[1..] == more;
    assert b[..a.length + TotalLength(more)] == b[..a.length] + b[a.length..][..TotalLength(more)];
    assert b[..a.length] == [a.kind, a.length] + a.value;
  }

  /** What is left of the counter is what the lengths leave, modulo 2^16. */
  lemma {:induction false} ParsedCounter(b: seq<Octet>, counter: Word16)
    requires ParseAttributes(b, counter).Some?
    ensures 0 <= (counter - TotalLength(ParseAttributes(b, counter).value)) % WORD <= 1
    decreases |b|
  {
    hide ParseAttribute, Minus16, TotalLength;
    if counter < 2 {
      CounterDone(counter);
    } else {
      var a := ParseAttribute(b).value;
      var rest, left := b[a.length..], Minus16(counter, a.length);
      ParsedCounter(rest, left);
      CounterStep(counter, a, ParseAttributes(rest, left).value);
    }
  }

  lemma CounterDone(counter: Word16)
    requires counter < 2
    ensures 0 <= (counter - TotalLength([])) % WORD <= 1
  {
  }

  lemma CounterStep(counter: Word16, a: Attribute, more: seq<Attribute>)
    ensures (Minus16(counter, a.length) - TotalLength(more)) % WORD == (counter - TotalLength([a] + more)) % WORD
  {
    assert ([a] + more)[1..] == more;
    WrapTwice(counter, a.length, TotalLength(more));
  }

  lemma WrapTwice(x: int, y: int, z: int)
    ensures ((x - y) % WORD - z) % WORD == (x - (y + z)) % WORD
  {
  }

  /** The octets b holds the attributes that fill len octets, but for at most one: no attribute reaches beyond. */
  predicate AttributesFill(b: seq<Octet>, len: nat)
    decreases |b|
  {
    len < 2 || (ParseAttribute(b).Some? && b[1] <= len && AttributesFill(b[b[1]..], len - b[1]))
  }

  /** A counter that has fallen below zero by more than the data falls short of 2^16 does not come down again. */
  lemma Overrun(rest: seq<Octet>, deficit: int)
    requires -256 < deficit < 0 && |rest| < WORD + deficit - 1
    ensures ParseAttributes(rest, deficit % WORD).None?
  {
    hide ParseAttributes;
    assert deficit % WORD == deficit + WORD;
    if ParseAttributes(rest, deficit % WORD).Some? {
      ParsedPrefix(rest, deficit % WORD);
      ParsedCounter(rest, deficit % WORD);
    }
  }

  /** An attribute that reaches beyond the stated length wraps the counter around, and the data ends before the counter
      does. */
  lemma {:induction false} ParsesIffFilled(b: seq<Octet>, counter: Word16)
    requires |b| - counter < WORD - 1
    ensures ParseAttributes(b, counter).Some? <==> AttributesFill(b, counter)
    decreases |b|
  {
    if counter >= 2 && ParseAttribute(b).Some? {
      var a := ParseAttribute(b).value;
      if a.length <= counter {
        ParsesIffFilled(b[a.length..], counter - a.length);
      } else {
        Overrun(b[a.length..], counter - a.length);
      }
    }
  }

  /** Datagrams up to 65554 octets (the reply buffer holds 4096): decoding succeeds exactly if the attributes fill the
      stated length, but for at most one octet. */
  lemma DecodesIff(b: seq<Octet>)
    requires |b| <= 65554
    ensures Parse(b).Some? <==>
              && |b| >= HEADER_SIZE && HEADER_SIZE <= LengthField(b) <= MAXIMUM_SIZE
              && AttributesFill(b[HEADER_SIZE..], LengthField(b) - HEADER_SIZE)
  {
    if |b| >= HEADER_SIZE && HEADER_SIZE <= LengthField(b) <= MAXIMUM_SIZE {
      ParsesIffFilled(b[HEADER_SIZE..], LengthField(b) - HEADER_SIZE);
    }
  }

  /** The lengths of the decoded attributes make up the stated length, or fall one short; and encoding again gives the
      octets up to there, the stated length being the one in the header where no octet is left over. */
  lemma DecodedEncodes(b: seq<Octet>, p: Packet)
    requires |b| <= 65554 && Parse(b) == Some(p)
    ensures var used := HEADER_SIZE + TotalLength(p.attributes);
            && (used == p.length || used == p.length - 1)
            && used <= |b|
            && Encoded(p) == b[..2] + [used / 256, used % 256] + b[4..used]
            && (used == p.length ==> Encoded(p) == b[..p.length] && Filled(p) == p)
  {
    hide EncodeAttributes, TotalLength, ParseAttributes, AttributesFill;
    var body, len := b[HEADER_SIZE..], LengthField(b) - HEADER_SIZE;
    ParsedPrefix(body, len);
    ParsedFit(body, len);
    ParsesIffFilled(body, len);
    FilledLength(body, len);
    assert SizedAll(p.attributes) == p.attributes;
    HeaderPrefix(b, p, TotalLength(p.attributes));
  }

  lemma HeaderPrefix(b: seq<Octet>, p: Packet, total: nat)
    requires HEADER_SIZE + total <= |b| && HEADER_SIZE + total < WORD
    requires p.code == b[0] && p.identifier == b[1] && p.authenticator == b[4..HEADER_SIZE] &&
             p.length == LengthField(b)
    ensures var used := HEADER_SIZE + total;
            && Header(p.(length := used)) + b[HEADER_SIZE..][..total] == b[..2] + [used / 256, used % 256] + b[4..used]
            && (used == p.length ==> Header(p.(length := used)) + b[HEADER_SIZE..][..total] == b[..used])
  {
    var used := HEADER_SIZE + total;
    assert b[4..used] == b[4..HEADER_SIZE] + b[HEADER_SIZE..][..total];
    if used == p.length {
      assert b[..used] == [b[0], b[1], b[2], b[3]] + b[4..used];
    }
  }

  lemma FirstAttribute(b: seq<Octet>, len: Word16)
    requires len >= 2 && AttributesFill(b, len) && ParseAttributes(b, len).Some?
    ensures var a := ParseAttribute(b);
            && a.Some? && 2 <= a.value.length <= len && a.value.length <= |b|
            && AttributesFill(b[a.value.length..], len - a.value.length)
            && var rest := ParseAttributes(b[a.value.length..], len - a.value.length);
               rest.Some? && ParseAttributes(b, len).value == [a.value] + rest.value
  {
    var n := ParseAttribute(b).value.length;
    assert Minus16(len, n) == len - n;
  }

  lemma TotalFirst(a: Attribute, rest: seq<Attribute>)
    ensures TotalLength([a] + rest) == a.length + TotalLength(rest)
  {
    assert ([a] + rest)[1..] == rest;
  }

  lemma {:induction false} FilledLength(b: seq<Octet>, len: Word16)
    requires AttributesFill(b, len) && ParseAttributes(b, len).Some?
    ensures len - 1 <= TotalLength(ParseAttributes(b, len).value) <= len
    decreases |b|
  {
    if len >= 2 {
      FirstAttribute(b, len);
      hide ParseAttributes, AttributesFill, TotalLength;
      var a := ParseAttribute(b).value;
      FilledLength(b[a.length..], len - a.length);
      TotalFirst(a, ParseAttributes(b[a.length..], len - a.length).value);
    }
  }
}
