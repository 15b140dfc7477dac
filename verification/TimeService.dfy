/** The time service: 12-byte requests, 32-byte replies, little-endian fields. */
module TimeService {
  type byte = b: int | 0 <= b < 256

  const REQ_MAGIC: byte := 0xE8
  const RESP_MAGIC: byte := 0xE9
  const WIRE_VERSION: byte := 1
  const REQ_LEN := 12
  const RESP_LEN := 32
  const FLAG_SYNCED: byte := 0x01
  const SOURCE_SNTP_BITS: byte := 0x10

  /** 1.6e9 seconds in microseconds: an earlier host clock is unset. */
  const MIN_VALID_EPOCH_US := 1_600_000_000_000_000

  const TWO_63 := 0x8000_0000_0000_0000
  const TWO_64 := 0x1_0000_0000_0000_0000

  // ---------------------------------------------------------------------
  // Fixed-width integers

  function Pow256(n: nat): nat { if n == 0 then 1 else 256 * Pow256(n - 1) }

  function EncodeNat(x: nat, n: nat): (b: seq<byte>)
    ensures |b| == n
  {
    if n == 0 then [] else [x % 256] + EncodeNat(x / 256, n - 1)
  }

  function DecodeNat(b: seq<byte>): nat {
    if b == [] then 0 else b[0] + 256 * DecodeNat(b[1..])
  }

  predicate FitsInt64(x: int) { -TWO_63 <= x < TWO_63 }

  /** Two's complement, 8 bytes. */
  function EncodeInt64(x: int): (b: seq<byte>)
    requires FitsInt64(x)
    ensures |b| == 8
  {
    EncodeNat(if x < 0 then x + TWO_64 else x, 8)
  }

  function DecodeInt64(b: seq<byte>): int
    requires |b| == 8
  {
    var u := DecodeNat(b);
    if u >= TWO_63 then u - TWO_64 else u
  }

  lemma {:induction false} NatRoundTrip(x: nat, n: nat)
    requires x < Pow256(n)
    ensures DecodeNat(EncodeNat(x, n)) == x
  {
    if n > 0 {
      assert x / 256 < Pow256(n - 1);
      NatRoundTrip(x / 256, n - 1);
      assert EncodeNat(x, n)[1..] == EncodeNat(x / 256, n - 1);
    }
  }

  lemma {:induction false} BytesRoundTrip(b: seq<byte>)
    ensures EncodeNat(DecodeNat(b), |b|) == b
    ensures DecodeNat(b) < Pow256(|b|)
  {
    if b != [] {
      BytesRoundTrip(b[1..]);
      assert DecodeNat(b) / 256 == DecodeNat(b[1..]) && DecodeNat(b) % 256 == b[0];
      assert b == [b[0]] + b[1..];
    }
  }

  lemma EightBytes()
    ensures Pow256(8) == TWO_64
  {
    assert Pow256(2) == 0x1_0000;
    assert Pow256(4) == 0x1_0000_0000;
    assert Pow256(6) == 0x1_0000_0000_0000;
  }

  /** Both ways: every 64-bit integer survives the wire, and so do any eight bytes. */
  lemma Int64RoundTrip(x: int, b: seq<byte>)
    requires FitsInt64(x) && |b| == 8
    ensures DecodeInt64(EncodeInt64(x)) == x
    ensures FitsInt64(DecodeInt64(b)) && EncodeInt64(DecodeInt64(b)) == b
  {
    EightBytes();
    NatRoundTrip(if x < 0 then x + TWO_64 else x, 8);
    BytesRoundTrip(b);
  }

  lemma FourBytes(b: seq<byte>)
    requires |b| >= 4
    ensures DecodeNat(b)
         == b[0] + 0x100 * b[1] + 0x1_0000 * b[2] + 0x100_0000 * b[3] + 0x1_0000_0000 * DecodeNat(b[4..])
  {
    assert b[1..][1..] == b[2..] && b[2..][1..] == b[3..] && b[3..][1..] == b[4..];
  }

  /** The bytes of a field stand in the order of their weights, the lowest first. */
  lemma LittleEndian(x: int)
    requires FitsInt64(x)
    ensures var b := EncodeInt64(x);
            x == b[0] + 0x100 * b[1] + 0x1_0000 * b[2] + 0x100_0000 * b[3]
                 + 0x1_0000_0000 * (b[4] + 0x100 * b[5] + 0x1_0000 * b[6]
                                    + 0x100_0000 * (if b[7] < 128 then b[7] as int else b[7] as int - 256))
  {
    var b := EncodeInt64(x);
    Int64RoundTrip(x, b);
    FourBytes(b);
    FourBytes(b[4..]);
    assert b[4..][4..] == [];
  }

  // ---------------------------------------------------------------------
  // Replies

  predicate IsTimeRequest(p: seq<byte>) {
    |p| == REQ_LEN && p[0] == REQ_MAGIC && p[1] == WIRE_VERSION
  }

  /** PackError: a time that does not fit its 64-bit field. */
  datatype Answer = NotARequest | PackError | Reply(bytes: seq<byte>)

  /** Magic, version, seq, flags, t1, t2, t3, then two zero 16-bit fields. */
  function Pack(seqNo: byte, flags: byte, t1: int, t2: int, t3: int): (b: seq<byte>)
    requires FitsInt64(t1) && FitsInt64(t2) && FitsInt64(t3)
    ensures |b| == RESP_LEN
  {
    [RESP_MAGIC, WIRE_VERSION, seqNo, flags] + EncodeInt64(t1) + EncodeInt64(t2) + EncodeInt64(t3) + [0, 0, 0, 0]
  }

  /** `rx` is the host clock on receipt, `t3` the clock reading just before sending. */
  function BuildTimeResponse(request: seq<byte>, rx: int, t3: int): Answer {
    if !IsTimeRequest(request) then NotARequest
    else
      var synced := rx >= MIN_VALID_EPOCH_US;
      var t1 := DecodeInt64(request[4..12]);
      var (a, b) := if synced then (rx, t3) else (0, 0);
      if !FitsInt64(t1) || !FitsInt64(a) || !FitsInt64(b) then PackError
      else
        var flags: byte := if synced then SOURCE_SNTP_BITS + FLAG_SYNCED else SOURCE_SNTP_BITS;
        Reply(Pack(request[2], flags, t1, a, b))
  }

  /** The layout of request and reply, in the bytes that the devices agree on. */
  lemma WireFormat(request: seq<byte>, rx: int, t3: int)
    ensures BuildTimeResponse(request, rx, t3) == NotARequest
        <==> |request| != 12 || request[0] != 0xE8 || request[1] != 1
    ensures BuildTimeResponse(request, rx, t3).Reply? ==>
              var b := BuildTimeResponse(request, rx, t3).bytes;
              && |b| == 32 && b[..3] == [0xE9, 1, request[2]] && b[28..] == [0, 0, 0, 0]
              && b[3] == (if rx < 1600000000 * 1000000 then 0x10 else 0x11)
  {}

  /** What the device reads out of a reply. */
  datatype Reading = Reading(seqNo: byte, synced: bool, source: nat, t1: int, t2: int, t3: int)

  function ReadReply(b: seq<byte>): Reading
    requires |b| == RESP_LEN
  {
    Reading(b[2], b[3] % 2 == 1, b[3] / 16, DecodeInt64(b[4..12]), DecodeInt64(b[12..20]), DecodeInt64(b[20..28]))
  }

  lemma PackReadsBack(seqNo: byte, flags: byte, t1: int, t2: int, t3: int)
    requires FitsInt64(t1) && FitsInt64(t2) && FitsInt64(t3)
    ensures var b := Pack(seqNo, flags, t1, t2, t3);
            && b[0] == RESP_MAGIC && b[1] == WIRE_VERSION && b[4..12] == EncodeInt64(t1)
            && ReadReply(b) == Reading(seqNo, flags % 2 == 1, flags / 16, t1, t2, t3)
  {
    var b := Pack(seqNo, flags, t1, t2, t3);
    assert b[4..12] == EncodeInt64(t1);
    assert b[12..20] == EncodeInt64(t2);
    assert b[20..28] == EncodeInt64(t3);
    Int64RoundTrip(t1, b[4..12]);
    Int64RoundTrip(t2, b[4..12]);
    Int64RoundTrip(t3, b[4..12]);
  }

  /** Main result: a reply carries the request's sequence number and t1 byte for byte, and
      the two clock readings exactly when the host clock is valid. */
  lemma ReplyReadsBack(request: seq<byte>, rx: int, t3: int)
    requires IsTimeRequest(request)
    ensures var synced := rx >= MIN_VALID_EPOCH_US;
            match BuildTimeResponse(request, rx, t3)
            case NotARequest => false
            case PackError => synced && !(FitsInt64(rx) && FitsInt64(t3))
            case Reply(b) =>
              && |b| == RESP_LEN && b[0] == RESP_MAGIC && b[1] == WIRE_VERSION
              && b[4..12] == request[4..12]
              && ReadReply(b) == Reading(request[2], synced, 1, DecodeInt64(request[4..12]),
                                         if synced then rx else 0, if synced then t3 else 0)
  {
    var synced := rx >= MIN_VALID_EPOCH_US;
    var t1 := DecodeInt64(request[4..12]);
    var (a, b) := if synced then (rx, t3) else (0, 0);
    Int64RoundTrip(0, request[4..12]);
    if FitsInt64(a) && FitsInt64(b) {
      PackReadsBack(request[2], if synced then SOURCE_SNTP_BITS + FLAG_SYNCED else SOURCE_SNTP_BITS, t1, a, b);
    }
  }

  // ---------------------------------------------------------------------
  // Accuracy

  /** Section 8 of RFC 5905: half the sum of the two one-way differences. */
  function Offset(r: Reading, t4: int): real {
    ((r.t2 - r.t1) + (r.t3 - t4)) as real / 2.0
  }

  function Abs(x: real): real { if x < 0.0 then -x else x }

  /** Main result: let the host clock run `theta` ahead of the device, the request take
      d1 and the reply d2. The offset the device computes from the bytes it gets is off
      by at most half the round trip, by exactly half the path asymmetry, and not at
      all when both ways take equally long. */
  lemma OffsetAccuracy(request: seq<byte>, t2: int, t3: int, t4: int, theta: real, d1: real, d2: real)
    requires IsTimeRequest(request) && t2 >= MIN_VALID_EPOCH_US && FitsInt64(t2) && FitsInt64(t3)
    requires d1 >= 0.0 && d2 >= 0.0
    requires t2 as real == DecodeInt64(request[4..12]) as real + theta + d1
    requires t4 as real == t3 as real - theta + d2
    ensures BuildTimeResponse(request, t2, t3).Reply? && |BuildTimeResponse(request, t2, t3).bytes| == RESP_LEN
    ensures var estimate := Offset(ReadReply(BuildTimeResponse(request, t2, t3).bytes), t4);
            && estimate - theta == (d1 - d2) / 2.0
            && Abs(estimate - theta) <= (d1 + d2) / 2.0
            && (estimate == theta <==> d1 == d2)
  {
    ReplyReadsBack(request, t2, t3);
  }
}
