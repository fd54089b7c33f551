/**
 The Balance class: a 16-byte amount held as a buffer, possibly a view into a node
 entry. Arithmetic gives new balances; null, here None, reports overflow, underflow
 or a division by zero.
 */
module Balances {
  import opened Bytes
  import opened Records
  import opened BufferMath
  import opened AmountBuffers
  import opened NodeEntry

  /** 0.03 tokens, the admin's 1000 tokens and the stake of 0.3 tokens, as the source spells them. */
  const FEE_BYTES: seq<byte> := [0, 0, 0, 0, 0, 0, 0, 0] + [0x00, 0x6a, 0x94, 0xd7, 0x4f, 0x43, 0x00, 0x00]
  const ADMIN_INITIAL_BALANCE_BYTES: seq<byte> := [0, 0, 0, 0, 0, 0, 0, 54] + [53, 201, 173, 197, 222, 160, 0, 0]
  const ADMIN_INITIAL_STAKED_BALANCE_BYTES: seq<byte> := [0, 0, 0, 0, 0, 0, 0, 0] + [4, 41, 208, 105, 24, 158, 0, 0]
  const ZERO_BALANCE: seq<byte> := seq(16, _ => 0)

  /** The amounts written out as bytes in the source are the intended ones. */
  lemma AmountConstants()
    ensures BE(FEE_BYTES) == FEE
    ensures BE(ADMIN_INITIAL_BALANCE_BYTES) == ADMIN_INITIAL_BALANCE
    ensures BE(ADMIN_INITIAL_STAKED_BALANCE_BYTES) == STAKE
  {
    hide BE;
    Horner16(FEE_BYTES, [0, 0, 0, 0, 0, 0, 0, 0], [0x00, 0x6a, 0x94, 0xd7, 0x4f, 0x43, 0x00, 0x00]);
    Horner16(ADMIN_INITIAL_BALANCE_BYTES, [0, 0, 0, 0, 0, 0, 0, 54], [53, 201, 173, 197, 222, 160, 0, 0]);
    Horner16(ADMIN_INITIAL_STAKED_BALANCE_BYTES, [0, 0, 0, 0, 0, 0, 0, 0], [4, 41, 208, 105, 24, 158, 0, 0]);
  }

  /** Big-endian reading of 16 bytes, eight and eight. */
  lemma Horner16(s: seq<byte>, high: seq<byte>, low: seq<byte>)
    requires |high| == |low| == 8 && s == high + low
    ensures BE(s) == 0x1_0000_0000_0000_0000 * Horner8(high) + Horner8(low)
  {
    hide BE, Horner8;
    BEConcat(high, low);
    IsHorner8(high);
    IsHorner8(low);
    assert Pow256(4) == 0x1_0000_0000;
    Pow256Add(4, 4);
  }

  function Horner8(s: seq<byte>): int
    requires |s| == 8
  {
    0x100_0000_0000_0000 * (s[0] as int) + 0x1_0000_0000_0000 * (s[1] as int) + 0x100_0000_0000 * (s[2] as int) + 0x1_0000_0000 * (s[3] as int)
    + 0x100_0000 * (s[4] as int) + 0x1_0000 * (s[5] as int) + 0x100 * (s[6] as int) + (s[7] as int)
  }

  lemma IsHorner8(s: seq<byte>)
    requires |s| == 8
    ensures BE(s) == Horner8(s)
  {
    BESnoc(s[..7], s[7]);
    BESnoc(s[..6], s[6]);
    BESnoc(s[..5], s[5]);
    BESnoc(s[..4], s[4]);
    BESnoc(s[..3], s[3]);
    BESnoc(s[..2], s[2]);
    BESnoc(s[..1], s[1]);
    BESnoc(s[..0], s[0]);
    assert s[..8] == s && s == s[..7] + [s[7]] && s[..7] == s[..6] + [s[6]] && s[..6] == s[..5] + [s[5]];
    assert s[..5] == s[..4] + [s[4]] && s[..4] == s[..3] + [s[3]] && s[..3] == s[..2] + [s[2]];
    assert s[..2] == s[..1] + [s[1]] && s[..1] == s[..0] + [s[0]] && BE(s[..0]) == 0;
  }

  /** toBalance: a buffer, or part of one, of exactly 16 bytes. */
  method ToBalance(v: View) returns (r: Option<Balance>)
    ensures r.Some? <==> v.len == 16
    ensures r.Some? ==> r.value.value == v
    ensures r.Some? && v.Fits() ==> r.value.Valid() && r.value.Amount() == BE(v.Bytes())
  {
    r := if v.len == 16 then Some(Balance(v)) else None;
  }

  /** toBalance on a whole buffer: NULL_BUFFER gives null. */
  method Hold(buf: array<byte>) returns (r: Option<Balance>)
    ensures r.Some? <==> buf.Length == 16
    ensures r.Some? ==> r.value.Valid() && r.value.value.buf == buf && r.value.Amount() == BE(buf[..])
  {
    var whole := View(buf, 0, buf.Length);
    assert whole.Bytes() == buf[..];
    r := ToBalance(whole);
  }

  /** A balance constant such as BALANCE_FEE. */
  method Constant(bytes: seq<byte>) returns (b: Balance)
    requires |bytes| == 16
    ensures b.Valid() && fresh(b.value.buf) && b.Amount() == BE(bytes)
  {
    var buf := new byte[16](i requires 0 <= i < 16 => bytes[i]);
    assert buf[..] == bytes;
    b := Balance(View(buf, 0, 16));
    assert b.value.Bytes() == bytes;
  }

  method ToTerm(v: int) returns (term: seq<byte>)
    ensures |term| == 16 && BE(term) == v % AMOUNT_LIMIT
  {
    var buf := BigIntTo16ByteBuffer(v);
    term := buf[..];
  }

  /** percent(75) and its like: hundredths of a percent as a term. */
  method Percent(value: nat) returns (term: seq<byte>)
    requires 100 * value < AMOUNT_LIMIT
    ensures |term| == 16 && BE(term) == 100 * value
  {
    term := ToTerm(100 * value);
    SmallMod(100 * value, AMOUNT_LIMIT);
  }

  datatype Balance = Balance(value: View) {
    ghost predicate Valid() {
      value.Fits() && value.len == 16
    }

    ghost function Amount(): nat
      requires Valid()
      reads value.buf
    {
      BE(value.Bytes())
    }

    method Add(b: Balance) returns (r: Option<Balance>)
      requires Valid() && b.Valid()
      ensures r.None? <==> Amount() + b.Amount() >= AMOUNT_LIMIT
      ensures r.Some? ==> r.value.Valid() && fresh(r.value.value.buf) && r.value.Amount() == Amount() + b.Amount()
    {
      LimitIsTwoTo128();
      var sum := AddBuffers(value.Bytes(), b.value.Bytes());
      r := Hold(sum);
    }

    method Sub(b: Balance) returns (r: Option<Balance>)
      requires Valid() && b.Valid()
      ensures r.None? <==> Amount() < b.Amount()
      ensures r.Some? ==> r.value.Valid() && fresh(r.value.value.buf) && r.value.Amount() == Amount() - b.Amount()
    {
      var diff := SubBuffers(value.Bytes(), b.value.Bytes());
      r := Hold(diff);
    }

    method Mul(num: seq<byte>) returns (r: Option<Balance>)
      requires Valid()
      ensures r.None? <==> |num| != 16 || Amount() * BE(num) >= AMOUNT_LIMIT
      ensures r.Some? ==> r.value.Valid() && fresh(r.value.value.buf) && r.value.Amount() == Amount() * BE(num)
    {
      LimitIsTwoTo128();
      if |num| != 16 {
        return None;
      }
      var product := MulBuffers(value.Bytes(), num);
      r := Hold(product);
    }

    method Div(divisor: seq<byte>) returns (r: Option<Balance>)
      requires Valid()
      ensures r.None? <==> |divisor| != 16 || BE(divisor) == 0
      ensures r.Some? ==> r.value.Valid() && fresh(r.value.value.buf) && r.value.Amount() == Amount() / BE(divisor)
    {
      if |divisor| != 16 {
        return None;
      }
      var quotient := DivBuffers(value.Bytes(), divisor);
      r := Hold(quotient);
    }

    /** floor(value * percent / 10000), or null when the product needs more than 16 bytes. */
    method Percentage(percent: seq<byte>) returns (r: Option<Balance>)
      requires Valid()
      ensures r.None? <==> |percent| != 16 || Amount() * BE(percent) >= AMOUNT_LIMIT
      ensures r.Some? ==> r.value.Valid() && fresh(r.value.value.buf) && r.value.Amount() == Amount() * BE(percent) / 10_000
    {
      LimitIsTwoTo128();
      if |percent| != 16 {
        return None;
      }
      var percentageTerm := ToTerm(10_000);
      SmallMod(10_000, AMOUNT_LIMIT);
      var dividend := MulBuffers(value.Bytes(), percent);
      var result := DivBuffers(dividend[..], percentageTerm);
      r := Hold(result);
    }

    /** Writes the amount into a node entry. */
    method Update(nodeEntry: array?<byte>) returns (r: array?<byte>)
      requires Valid()
      modifies nodeEntry
      ensures r == if IsBufferValid(nodeEntry, NODE_ENTRY_SIZE) then nodeEntry else null
      ensures r == null && nodeEntry != null ==> nodeEntry[..] == old(nodeEntry[..])
      ensures r != null && old(WellFormed(nodeEntry[..])) ==>
                WellFormed(nodeEntry[..])
                && Decoded(nodeEntry[..]) == old(Decoded(nodeEntry[..])).(balance := old(Amount()))
    {
      r := SetBalance(nodeEntry, value.Bytes());
    }

    /** False for a missing balance and for one that is not 16 bytes long. */
    method Equals(b: Option<Balance>) returns (r: bool)
      requires Valid() && (b.Some? ==> b.value.value.Fits())
      ensures r <==> b.Some? && b.value.Valid() && Amount() == b.value.Amount()
    {
      if b.None? || b.value.value.len != 16 { return false; }
      r := value.Bytes() == b.value.value.Bytes();
      if Amount() == b.value.Amount() {
        BEInjective(value.Bytes(), b.value.value.Bytes());
      }
    }

    method GreaterThan(b: Balance) returns (r: bool)
      requires Valid() && b.Valid()
      ensures r <==> Amount() > b.Amount()
    {
      CompareIsNumeric(value.Bytes(), b.value.Bytes());
      r := Compare(value.Bytes(), b.value.Bytes()) == 1;
    }

    method LowerThan(b: Balance) returns (r: bool)
      requires Valid() && b.Valid()
      ensures r <==> Amount() < b.Amount()
    {
      CompareIsNumeric(value.Bytes(), b.value.Bytes());
      r := Compare(value.Bytes(), b.value.Bytes()) == -1;
    }

    method GreaterThanOrEquals(b: Balance) returns (r: bool)
      requires Valid() && b.Valid()
      ensures r <==> Amount() >= b.Amount()
    {
      CompareIsNumeric(value.Bytes(), b.value.Bytes());
      var cmp := Compare(value.Bytes(), b.value.Bytes());
      r := cmp == 1 || cmp == 0;
    }

    method LowerThanOrEquals(b: Balance) returns (r: bool)
      requires Valid() && b.Valid()
      ensures r <==> Amount() <= b.Amount()
    {
      CompareIsNumeric(value.Bytes(), b.value.Bytes());
      var cmp := Compare(value.Bytes(), b.value.Bytes());
      r := cmp == -1 || cmp == 0;
    }
  }
}
