/** Sending and receiving VRRP adverts: the pseudo-header and the checksum over it (section 5.2.8 of RFC 5798). */
module VrrpPacket {
  import opened Types
  import opened Checksum

  const ADVERT_SIZE := 8
  const VRRP_PROTOCOL := 112
  const TTL := 255

  datatype Advertisement = Advertisement(
    versionType: Octet,
    vrid: Octet,
    priority: Octet,
    countIPAddrs: Octet,
    advertInt: Word16,
    checksum: Word16)

  type Address = seq<Octet>

  function Put16(w: Word16): (b: seq<Octet>)
    ensures |b| == 2 && 256 * (b[0] as int) + b[1] == w
  {
    [w / 256, w % 256]
  }

  function Encode(a: Advertisement): (b: seq<Octet>)
    ensures |b| == ADVERT_SIZE
  {
    [a.versionType, a.vrid, a.priority, a.countIPAddrs] + Put16(a.advertInt) + Put16(a.checksum)
  }

  function Decode(b: seq<Octet>): Advertisement
    requires |b| == ADVERT_SIZE
  {
    Advertisement(b[0], b[1], b[2], b[3], 256 * (b[4] as int) + b[5], 256 * (b[6] as int) + b[7])
  }

  lemma AdvertRoundTrip(a: Advertisement, b: seq<Octet>)
    ensures Decode(Encode(a)) == a
    ensures |b| == ADVERT_SIZE ==> Encode(Decode(b)) == b
  {
    if |b| == ADVERT_SIZE {
      assert b == [b[0], b[1], b[2], b[3], b[4], b[5], b[6], b[7]];
    }
  }

  /** The octets in network order: read as one number, the fields stand in their order, each of its own width (section
      5.1 of RFC 5798). */
  lemma LayoutIs(a: Advertisement)
    ensures var b := Encode(a);
            var head := 256 * (256 * (256 * (b[0] as int) + b[1]) + b[2]) + b[3];
            256 * (256 * (256 * (256 * head + b[4]) + b[5]) + b[6]) + b[7] ==
            ((((a.versionType as int * 256 + a.vrid) * 256 + a.priority) * 256 + a.countIPAddrs) * WORD + a.advertInt)
                * WORD + a.checksum
  {
  }

  const MAPPED: seq<Octet> := [0, 0, 0, 0, 0, 0, 0, 0, 0, 0, 255, 255]

  /** The 4-octet form of an address, if it has one. */
  function To4(ip: Address): (r: Option<Address>)
    ensures r.Some? ==> |r.value| == 4
  {
    if |ip| == 4 then Some(ip)
    else if |ip| == 16 && ip[..12] == MAPPED then Some(ip[12..])
    else None
  }

  function To16(ip: Address): (r: Option<Address>)
    ensures r.Some? ==> |r.value| == 16
  {
    if |ip| == 4 then Some(MAPPED + ip) else if |ip| == 16 then Some(ip) else None
  }

  function PseudoHeader(src: Address, dst: Address): Option<seq<Octet>> {
    if To4(src).Some? && To4(dst).Some? then
      Some(To4(src).value + To4(dst).value + [0, VRRP_PROTOCOL, 0, ADVERT_SIZE])
    else if To16(src).Some? && To16(dst).Some? then
      Some(To16(src).value + To16(dst).value + [0, 0, 0, ADVERT_SIZE] + [0, 0, 0, VRRP_PROTOCOL])
    else None
  }

  /** What the checksum is taken over. */
  function Covered(a: Advertisement, src: Address, dst: Address): Option<seq<Octet>> {
    if PseudoHeader(src, dst).None? then None else Some(PseudoHeader(src, dst).value + Encode(a))
  }

  /** The sum over what is covered: both addresses, the protocol, the size, and the advert itself, whatever the
      family. */
  lemma CoveredSum(a: Advertisement, src: Address, dst: Address)
    requires Covered(a, src, dst).Some?
    ensures var both4 := To4(src).Some? && To4(dst).Some?;
            Big(Covered(a, src, dst).value) ==
              (if both4 then Big(To4(src).value) + Big(To4(dst).value) else Big(To16(src).value) + Big(To16(dst).value))
              + 112 + 8
              + 256 * a.versionType + a.vrid + 256 * a.priority + a.countIPAddrs + a.advertInt + a.checksum
  {
    hide Big;
    AdvertSum(a);
    if To4(src).Some? && To4(dst).Some? {
      var s, d, t: seq<Octet> := To4(src).value, To4(dst).value, [0, VRRP_PROTOCOL, 0, ADVERT_SIZE];
      BigJoin(s + d + t, Encode(a));
      BigJoin(s + d, t);
      BigJoin(s, d);
      FourOctets(0, VRRP_PROTOCOL, 0, ADVERT_SIZE);
    } else {
      var s, d := To16(src).value, To16(dst).value;
      var t, u: seq<Octet> := [0, 0, 0, ADVERT_SIZE], [0, 0, 0, VRRP_PROTOCOL];
      BigJoin(s + d + t + u, Encode(a));
      BigJoin(s + d + t, u);
      BigJoin(s + d, t);
      BigJoin(s, d);
      FourOctets(0, 0, 0, ADVERT_SIZE);
      FourOctets(0, 0, 0, VRRP_PROTOCOL);
    }
  }

  lemma FourOctets(a: Octet, b: Octet, c: Octet, d: Octet)
    ensures Big([a, b, c, d]) == 256 * a + b + 256 * c + d
  {
    assert [a, b, c, d][2..] == [c, d];
    assert Big([c, d]) == 256 * (c as int) + d;
  }

  lemma AdvertSum(a: Advertisement)
    ensures Big(Encode(a)) ==
            256 * a.versionType + a.vrid + 256 * a.priority + a.countIPAddrs + a.advertInt + a.checksum
  {
    hide Big;
    var i, c := Put16(a.advertInt), Put16(a.checksum);
    var head: seq<Octet> := [a.versionType, a.vrid, a.priority, a.countIPAddrs];
    assert Encode(a) == head + [i[0], i[1], c[0], c[1]];
    BigJoin(head, [i[0], i[1], c[0], c[1]]);
    FourOctets(a.versionType, a.vrid, a.priority, a.countIPAddrs);
    FourOctets(i[0], i[1], c[0], c[1]);
  }

  lemma {:induction false} BigJoin(b: seq<Octet>, c: seq<Octet>)
    requires |b| % 2 == 0
    ensures Big(b + c) == Big(b) + Big(c)
  {
    if b == [] {
      assert b + c == c;
    } else {
      BigJoin(b[2..], c);
      assert (b + c)[2..] == b[2..] + c;
    }
  }

  method ComputeChecksum(a: Advertisement, src: Address, dst: Address) returns (r: Option<nat>)
    ensures r == if Covered(a, src, dst).None? then None else Some(BigSum(Covered(a, src, dst).value))
  {
    var buf := Covered(a, src, dst);
    if buf.None? {
      return None;
    }
    var sum := IpChecksum(buf.value);
    r := Some(sum);
  }

  /** The payload put on the wire. */
  function Sent(a: Advertisement, laddr: Address, raddr: Address): Option<seq<Octet>> {
    if a.checksum != 0 then Some(Encode(a))
    else if Covered(a, laddr, raddr).None? then None
    else Some(Encode(a.(checksum := BigSum(Covered(a, laddr, raddr).value))))
  }

  method Send(a: Advertisement, laddr: Address, raddr: Address) returns (payload: Option<seq<Octet>>)
    ensures payload == Sent(a, laddr, raddr)
    ensures a.checksum != 0 ==> payload == Some(Encode(a))
    ensures a.checksum == 0 ==> (payload.Some? <==> PseudoHeader(laddr, raddr).Some?)
  {
    var out := a;
    if a.checksum == 0 {
      var sum := ComputeChecksum(a, laddr, raddr);
      if sum.None? {
        return None;
      }
      out := a.(checksum := sum.value);
    }
    payload := Some(Encode(out));
  }

  predicate Accepted(laddr: Address, src: Address, dst: Address, ttl: nat, payload: seq<Octet>) {
    && |payload| == ADVERT_SIZE
    && To16(src) != To16(laddr)
    && ttl == TTL
    && PseudoHeader(src, dst).Some?
    && BigSum(PseudoHeader(src, dst).value + payload) == 0
  }

  /** A packet is taken exactly if it has the size of an advert, is not our own, has hop limit 255 and a checksum of
      0. */
  method Receive(laddr: Address, src: Address, dst: Address, ttl: nat,
                 payload: seq<Octet>)
    returns (r: Option<Advertisement>)
    ensures r.Some? <==>
              && |payload| == 8 && To16(src) != To16(laddr) && ttl == 255
              && PseudoHeader(src, dst).Some? && BigSum(PseudoHeader(src, dst).value + payload) == 0
    ensures r.Some? ==> Encode(r.value) == payload && Accepted(laddr, src, dst, ttl, payload)
  {
    if |payload| != ADVERT_SIZE {
      return None;
    }
    var a := Decode(payload);
    AdvertRoundTrip(a, payload);
    if To16(src) == To16(laddr) {
      return None;
    }
    if ttl != TTL {
      return None;
    }
    var sum := ComputeChecksum(a, src, dst);
    if sum.None? {
      return None;
    }
    if sum.value != 0 {
      return None;
    }
    r := Some(a);
  }

  /** An advert as this program sends it is taken by any other node that sees the same addresses. */
  lemma SentIsAccepted(a: Advertisement, laddr: Address, raddr: Address, peer: Address)
    requires a.checksum == 0 && PseudoHeader(laddr, raddr).Some? && To16(laddr) != To16(peer)
    ensures Sent(a, laddr, raddr).Some? && Accepted(peer, laddr, raddr, TTL, Sent(a, laddr, raddr).value)
  {
    var head := PseudoHeader(laddr, raddr).value;
    var b := head + Encode(a);
    var c := head + Sent(a, laddr, raddr).value;
    var k := (|head| + 6) / 2;
    assert b[..2 * k] == head + Encode(a)[..6] && c[..2 * k] == head + Encode(a)[..6];
    assert b[2 * k..] == Put16(0) && c[2 * k..] == Put16(BigSum(b));
    assert WordAt(b, k) == 0 && WordAt(c, k) == BigSum(b);
    FilledIn(b, c, k);
  }

  /** A change on the way confined to one aligned word of the advert or the addresses is noticed, unless it exchanges
      0x0000 and 0xffff. */
  lemma DamageNoticed(head: seq<Octet>, payload: seq<Octet>, src: Address, dst: Address, damaged: seq<Octet>, k: nat)
    requires |head| % 2 == 0 && |payload| == |damaged| == ADVERT_SIZE
    requires BigSum(head + payload) == 0 && PseudoHeader(src, dst).Some?
    requires DifferAt(head + payload, PseudoHeader(src, dst).value + damaged, k)
    ensures var b, c := head + payload, PseudoHeader(src, dst).value + damaged;
            BigSum(c) == 0 <==> WordAt(b, k) == WordAt(c, k) || {WordAt(b, k), WordAt(c, k)} == {0, 0xffff}
  {
    var other := PseudoHeader(src, dst).value;
    var c := other + damaged;
    assert other[if |other| == 12 then 9 else 39] == VRRP_PROTOCOL;
    BigPositive(c, if |other| == 12 then 9 else 39);
    OneWordChanged(head + payload, c, k);
  }
}
