/**
 Four-byte counters. The state machine uses the big-endian functions only.
 */
module LengthEntry {
  import opened Bytes
  import opened Records

  function DecodeBE(bufferData: seq<byte>): (length: nat)
    requires |bufferData| == 4
  {
    0x100_0000 * (bufferData[0] as int) + 0x1_0000 * (bufferData[1] as int)
    + 0x100 * (bufferData[2] as int) + (bufferData[3] as int)
  }

  /** Writing a number of 2 to the power 32 or more is a range error. */
  function EncodeBE(length: nat): (r: Option<seq<byte>>)
    ensures r.Some? ==> |r.value| == 4
  {
    if length >= LICENSE_LIMIT then None
    else Some([(length / 0x100_0000) as byte, (length / 0x1_0000 % 256) as byte,
               (length / 0x100 % 256) as byte, (length % 256) as byte])
  }

  function IncrementBE(length: nat): (r: Option<seq<byte>>)
    ensures r.Some? ==> |r.value| == 4
  {
    EncodeBE(length + 1)
  }

  /** Decoding reads the big-endian number. */
  lemma DecodeIsBE(b: seq<byte>)
    requires |b| == 4
    ensures DecodeBE(b) == BE(b)
  {
    BESnoc(b[..3], b[3]);
    BESnoc(b[..2], b[2]);
    BESnoc(b[..1], b[1]);
    BESnoc(b[..0], b[0]);
    assert b == b[..3] + [b[3]] && b[..3] == b[..2] + [b[2]] && b[..2] == b[..1] + [b[1]];
    assert b[..1] == b[..0] + [b[0]] && BE(b[..0]) == 0;
  }

  lemma Digits(v: nat)
    ensures v == 0x100_0000 * (v / 0x100_0000) + 0x1_0000 * (v / 0x1_0000 % 256) + 0x100 * (v / 0x100 % 256) + v % 256
  {
    assert v / 0x100 / 0x100 == v / 0x1_0000;
    assert v / 0x1_0000 / 0x100 == v / 0x100_0000;
  }

  /** A counter that fits is read back, and counts one more after an increment. */
  lemma CountersRoundTrip(length: nat)
    ensures EncodeBE(length).Some? <==> length < LICENSE_LIMIT
    ensures length < LICENSE_LIMIT ==> DecodeBE(EncodeBE(length).value) == length == BE(EncodeBE(length).value)
  {
    Digits(length);
    if length < LICENSE_LIMIT {
      DecodeIsBE(EncodeBE(length).value);
    }
  }
}
