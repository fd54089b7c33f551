/** Amounts as 16-byte buffers: the two conversion loops of amountSerialization.js. */
module AmountBuffers {
  import opened Bytes
  import opened Records
  import opened BufferMath

  /** The 16 bytes that stand for an integer: its low 128 bits. */
  ghost function Written(value: int): (b: seq<byte>)
    ensures |b| == 16
  {
    ToBE(value % AMOUNT_LIMIT, 16)
  }

  /** Writing and reading back is the identity exactly on the amounts; others wrap around. */
  lemma WriteThenRead(v: int)
    ensures BE(Written(v)) == v <==> 0 <= v < AMOUNT_LIMIT
  {
    LimitIsTwoTo128();
    ToBERoundTrip(v % AMOUNT_LIMIT, 16);
    DivModUnique(v % AMOUNT_LIMIT, LIMIT, 0, v % AMOUNT_LIMIT);
    if 0 <= v < AMOUNT_LIMIT {
      DivModUnique(v, AMOUNT_LIMIT, 0, v);
    }
  }

  lemma ReadThenWrite(b: seq<byte>)
    requires |b| == 16
    ensures Written(BE(b)) == b
  {
    LimitIsTwoTo128();
    BEBound(b);
    DivModUnique(BE(b), AMOUNT_LIMIT, 0, BE(b));
    BERoundTrip(b);
  }

  /** BigInt.asUintN(128, value), written out from the last byte to the first. */
  method BigIntTo16ByteBuffer(value: int) returns (buff: array<byte>)
    ensures fresh(buff) && buff[..] == Written(value) && BE(buff[..]) == value % AMOUNT_LIMIT
  {
    LimitIsTwoTo128();
    var wrapped := value % AMOUNT_LIMIT;
    buff := new byte[16](_ => 0);
    var tmp := wrapped;
    var i := 16;
    while i > 0
      invariant 0 <= i <= 16 && tmp >= 0
      invariant wrapped == tmp * Pow256(16 - i) + BE(buff[i..])
    {
      i := i - 1;
      ghost var done, before := buff[i + 1..], tmp;
      buff[i] := tmp % 256;
      tmp := tmp / 256;
      assert buff[i..][0] == before % 256 && buff[i..][1..] == done;
      SplitDigit(before, Pow256(15 - i));
    }
    assert buff[0..] == buff[..];
    BEBound(buff[..]);
    DivModUnique(wrapped, LIMIT, tmp, BE(buff[..]));
    DivModUnique(wrapped, LIMIT, 0, wrapped);
    BERoundTrip(buff[..]);
  }

  lemma SplitDigit(v: nat, p: nat)
    ensures v * p == (v / 256) * (256 * p) + (v % 256) * p
  {
    ColumnStep(v, 0, 0, v / 256, v % 256, p);
  }

  /** Sixteen bytes hold exactly the amounts below 2 to the power 128. */
  lemma LimitIsTwoTo128()
    ensures LIMIT == AMOUNT_LIMIT == Pow256(16)
  {
    assert Pow256(4) == 0x1_0000_0000;
    Pow256Add(4, 4);
    Pow256Add(8, 8);
  }

  /** None stands for the TypeError on a buffer of the wrong size. */
  method BufferToBigInt(buff: seq<byte>) returns (r: Option<nat>)
    ensures r == if |buff| == 16 then Some(BE(buff)) else None
  {
    if |buff| != 16 {
      return None;
    }
    var res := 0;
    for i := 0 to 16
      invariant res == BE(buff[..i])
    {
      assert buff[..i + 1] == buff[..i] + [buff[i]];
      BESnoc(buff[..i], buff[i]);
      res := 256 * res + buff[i] as int;
    }
    assert buff[..16] == buff;
    r := Some(res);
  }

  method LicenseBufferToBigInt(buff: seq<byte>) returns (r: Option<nat>)
    ensures r == if |buff| == 4 then Some(BE(buff)) else None
  {
    if |buff| != 4 {
      return None;
    }
    var result := 0;
    for i := 0 to 4
      invariant result + BE(buff[i..]) == BE(buff)
    {
      BEDrop(buff, i);
      var weight := [0x100_0000, 0x1_0000, 0x100, 1][i];
      assert weight == Pow256(3 - i) by {
        assert Pow256(0) == 1 && Pow256(1) == 0x100 && Pow256(2) == 0x1_0000 && Pow256(3) == 0x100_0000;
      }
      result := result + buff[i] as int * weight;
    }
    r := Some(result);
  }
}
