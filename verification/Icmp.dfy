/** The ICMP echo messages of the ping healthcheck. */
module Icmp {
  import opened Types
  import opened Checksum

  const ECHO_REQUEST := 8
  const HEADER := 8

  /** The filler repeated n times. */
  function Repeat(filler: seq<Octet>, n: nat): seq<Octet> {
    if n == 0 then [] else filler + Repeat(filler, n - 1)
  }

  /** What follows the header: the filler as often as it is counted to fit, then zeros. */
  function Payload(filler: seq<Octet>, msglen: nat): seq<Octet>
    requires msglen >= HEADER
  {
    var fill := Repeat(filler, (msglen - 8) / (|filler| + 1));
    seq(msglen - HEADER, i requires 0 <= i => if i < |fill| then fill[i] else 0)
  }

  lemma {:induction false} RepeatAt(filler: seq<Octet>, n: nat, k: nat, i: nat)
    requires k < n && i < |filler|
    ensures k * |filler| + i < |Repeat(filler, n)| && Repeat(filler, n)[k * |filler| + i] == filler[i]
  {
    if k > 0 {
      RepeatAt(filler, n - 1, k - 1, i);
      assert k * |filler| == (k - 1) * |filler| + |filler|;
    }
  }

  lemma {:induction false} RepeatLength(filler: seq<Octet>, n: nat)
    ensures |Repeat(filler, n)| == n * |filler|
  {
    if n > 0 {
      RepeatLength(filler, n - 1);
      assert n * |filler| == (n - 1) * |filler| + |filler|;
    }
  }

  /** Octet i of copy k of the filler stands in the payload where it should, and behind all copies there are zeros. */
  lemma PayloadIs(filler: seq<Octet>, msglen: nat, k: nat, i: nat)
    requires HEADER <= msglen
    ensures |Payload(filler, msglen)| == msglen - 8
    ensures k < (msglen - 8) / (|filler| + 1) && i < |filler| ==>
            k * |filler| + i < msglen - 8 && Payload(filler, msglen)[k * |filler| + i] == filler[i]
    ensures (msglen - 8) / (|filler| + 1) * |filler| <= i < msglen - 8 ==> Payload(filler, msglen)[i] == 0
  {
    var copies := (msglen - 8) / (|filler| + 1);
    RepeatLength(filler, copies);
    assert copies * (|filler| + 1) <= msglen - 8;
    assert copies * (|filler| + 1) == copies * |filler| + copies;
    if k < copies && i < |filler| {
      RepeatAt(filler, copies, k, i);
    }
  }

  function Xor(x: Octet, y: Octet): Octet {
    ((x as bv8) ^ (y as bv8)) as int
  }

  lemma XorZero(y: Octet)
    ensures Xor(0, y) == y
  {
  }

  datatype Parsed = Parsed(id: nat, seqnum: nat, checksum: nat)

  function Parse(msg: seq<Octet>): Parsed
    requires |msg| >= HEADER
  {
    Parsed(256 * (msg[4] as int) + msg[5], 256 * (msg[6] as int) + msg[7], 256 * (msg[2] as int) + msg[3])
  }

  /** A message of the given length with its identifier and sequence number filled in and its checksum zero. */
  method NewInfoMessage(id: nat, seqnum: nat, msglen: nat, filler: seq<Octet>) returns (b: array<Octet>)
    requires id < WORD && seqnum < WORD && HEADER <= msglen < WORD
    ensures fresh(b) && b.Length == msglen && b[0] == b[1] == b[2] == b[3] == 0
    ensures Parse(b[..]) == Parsed(id, seqnum, 0) && b[HEADER..] == Payload(filler, msglen)
  {
    b := new Octet[msglen](_ => 0);
    var fill := Repeat(filler, (msglen - 8) / (|filler| + 1));
    for i := 0 to (if |fill| < msglen - 8 then |fill| else msglen - 8)
      invariant forall j | HEADER <= j < msglen :: b[j] == if j < HEADER + i then fill[j - HEADER] else 0
    {
      b[8 + i] := fill[i];
    }
    b[0], b[1], b[2], b[3] := 0, 0, 0, 0;
    b[4], b[5] := id / 256, id % 256;
    b[6], b[7] := seqnum / 256, seqnum % 256;
  }

  /** An echo request carries its identifier and sequence number and verifies: its own checksum is 0. */
  method NewEchoRequest(id: nat, seqnum: nat, msglen: nat, filler: seq<Octet>) returns (b: array<Octet>)
    requires id < WORD && seqnum < WORD && HEADER <= msglen < WORD
    ensures fresh(b) && b.Length == msglen && b[0] == ECHO_REQUEST && b[1] == 0
    ensures Parse(b[..]).id == id && Parse(b[..]).seqnum == seqnum && b[HEADER..] == Payload(filler, msglen)
    ensures LittleSum(b[..]) == 0 && BigSum(b[..]) == 0
  {
    b := NewInfoMessage(id, seqnum, msglen, filler);
    b[0] := ECHO_REQUEST;
    ghost var blank := b[..];
    var sum := IcmpChecksum(b[..]);
    XorZero(sum % 256);
    XorZero(sum / 256);
    b[2] := Xor(b[2], sum % 256);
    b[3] := Xor(b[3], sum / 256);
    Verifies(blank, b[..]);
  }

  lemma Verifies(blank: seq<Octet>, msg: seq<Octet>)
    requires HEADER <= |blank| == |msg| < WORD && DifferAt(blank, msg, 1)
    requires blank[2] == blank[3] == 0 && WordAt(msg, 1) == Swap(LittleSum(blank))
    ensures LittleSum(msg) == 0 && BigSum(msg) == 0
  {
    hide BigSum, LittleSum, WordAt;
    ByteOrderIndependent(blank);
    ByteOrderIndependent(msg);
    SwapSwap(BigSum(blank));
    assert WordAt(blank, 1) == 0 by { BlankWord(blank); }
    FilledIn(blank, msg, 1);
  }

  lemma BlankWord(blank: seq<Octet>)
    requires |blank| >= HEADER && blank[2] == blank[3] == 0
    ensures WordAt(blank, 1) == 0
  {
  }

  /** A good reply is read into a buffer whose tail may hold octets of an earlier, longer packet: it still verifies
      exactly if the tail adds a multiple of 65535 to the sum, its octets changing places after an odd length. */
  lemma ReplyInBufferIff(reply: seq<Octet>, tail: seq<Octet>)
    requires |reply| + |tail| <= 0x2_0000 && LittleSum(reply) == 0
    ensures LittleSum(reply + tail) == 0 <==> TailSum(|reply|, tail) % 0xffff == 0
  {
    hide LittleSum;
    LittleJoin(reply, tail);
    SumBound(reply);
    SumBound(reply + tail);
    ZeroLittleIff(reply);
    ZeroLittleIff(reply + tail);
    MultipleMore(Little(reply), TailSum(|reply|, tail));
  }

  lemma MultipleMore(x: nat, y: nat)
    requires x % 0xffff == 0
    ensures (x + y) % 0xffff == 0 <==> y % 0xffff == 0
  {
    assert x == 0xffff * (x / 0xffff);
  }

  /** In a zeroed buffer every reply verifies exactly if it does on its own. */
  lemma ReplyInZeros(reply: seq<Octet>, buffer: nat)
    requires |reply| <= buffer
    ensures LittleSum(reply + Zeros(buffer - |reply|)) == 0 <==> LittleSum(reply) == 0
  {
    ZerosAppended(reply, buffer - |reply|);
  }

  /** An echo reply that verifies, and one octet left over from before with which it does not. */
  lemma StaleOctetRejects()
    ensures LittleSum([0, 0, 255, 255, 0, 0, 0, 0]) == 0 && LittleSum([0, 0, 255, 255, 0, 0, 0, 0] + [1]) != 0
  {
    var reply: seq<Octet> := [0, 0, 255, 255, 0, 0, 0, 0];
    LittleJoin([0, 0, 255, 255], [0, 0, 0, 0]);
    LittleJoin([0, 0], [255, 255]);
    LittleJoin([0, 0], [0, 0]);
    assert reply == [0, 0, 255, 255] + [0, 0, 0, 0] && [0, 0] + [0, 0] == [0, 0, 0, 0] &&
           [0, 0] + [255, 255] == [0, 0, 255, 255];
    assert Little(reply) == 0xffff;
    ZeroLittleIff(reply);
    assert Little([1]) == 1;
    ReplyInBufferIff(reply, [1]);
  }
}
