/**
 The schoolbook arithmetic of balance.js on big-endian buffers. Each method fills a
 freshly allocated buffer from the last byte to the first; NULL_BUFFER, the empty
 buffer, reports overflow, underflow or operands of the wrong length.
 */
module BufferMath {
  import opened Bytes

  const BALANCE_BYTE_LENGTH: nat := 16

  ghost const LIMIT: nat := Pow256(BALANCE_BYTE_LENGTH)

  method NullBuffer() returns (r: array<byte>)
    ensures fresh(r) && r.Length == 0
  {
    r := new byte[0];
  }

  method AddBuffers(a: seq<byte>, b: seq<byte>) returns (result: array<byte>)
    ensures fresh(result)
    ensures |a| != |b| || BE(a) + BE(b) >= Pow256(|a|) ==> result.Length == 0
    ensures |a| == |b| && BE(a) + BE(b) < Pow256(|a|) ==>
              result.Length == |a| && BE(result[..]) == BE(a) + BE(b)
  {
    if |a| != |b| {
      result := NullBuffer();
      return;
    }
    var n := |a|;
    result := new byte[n](_ => 0);
    var carry := 0;
    var i := n;
    while i > 0
      invariant 0 <= i <= n && 0 <= carry <= 1
      invariant BE(a[i..]) + BE(b[i..]) == carry * Pow256(n - i) + BE(result[i..])
    {
      i := i - 1;
      var sum: int := a[i] as int + b[i] as int + carry;
      ghost var done := result[i + 1..];
      result[i] := sum % 256;
      ColumnStep(a[i], b[i], carry, sum / 256, sum % 256, Pow256(n - 1 - i));
      BEDrop(a, i);
      BEDrop(b, i);
      assert result[i..][0] == sum % 256 && result[i..][1..] == done;
      carry := sum / 256;
    }
    assert a[0..] == a && b[0..] == b && result[0..] == result[..];
    BEBound(result[..]);
    if carry != 0 {
      result := NullBuffer();
    }
  }

  /** One column: the digit stays, the carry moves to the next weight. */
  lemma ColumnStep(x: int, y: int, carryIn: int, carryOut: int, digit: int, p: nat)
    requires x + y + carryIn == 256 * carryOut + digit
    ensures x * p + y * p + carryIn * p == carryOut * (256 * p) + digit * p
  {
    assert (x + y + carryIn) * p == x * p + y * p + carryIn * p;
    assert (256 * carryOut + digit) * p == carryOut * (256 * p) + digit * p;
  }

  lemma BorrowStep(x: int, y: int, borrowIn: int, borrowOut: int, digit: int, p: nat)
    requires x - y - borrowIn == digit - 256 * borrowOut
    ensures x * p - y * p - borrowIn * p == digit * p - borrowOut * (256 * p)
  {
    assert (x - y - borrowIn) * p == x * p - y * p - borrowIn * p;
    assert (digit - 256 * borrowOut) * p == digit * p - borrowOut * (256 * p);
  }

  method SubBuffers(a: seq<byte>, b: seq<byte>) returns (result: array<byte>)
    ensures fresh(result)
    ensures |a| != |b| || BE(a) < BE(b) ==> result.Length == 0
    ensures |a| == |b| && BE(a) >= BE(b) ==>
              result.Length == |a| && BE(result[..]) == BE(a) - BE(b)
  {
    if |a| != |b| {
      result := NullBuffer();
      return;
    }
    var n := |a|;
    result := new byte[n](_ => 0);
    var borrow := 0;
    var i := n;
    while i > 0
      invariant 0 <= i <= n && 0 <= borrow <= 1
      invariant BE(a[i..]) - BE(b[i..]) == BE(result[i..]) - borrow * Pow256(n - i)
    {
      i := i - 1;
      var diff: int := a[i] as int - b[i] as int - borrow;
      ghost var borrowIn := borrow;
      if diff < 0 {
        diff := diff + 256;
        borrow := 1;
      } else {
        borrow := 0;
      }
      ghost var done := result[i + 1..];
      result[i] := diff;
      BorrowStep(a[i], b[i], borrowIn, borrow, diff, Pow256(n - 1 - i));
      BEDrop(a, i);
      BEDrop(b, i);
      assert result[i..][0] == diff && result[i..][1..] == done;
    }
    assert a[0..] == a && b[0..] == b && result[0..] == result[..];
    BEBound(result[..]);
    if borrow != 0 {
      result := NullBuffer();
    }
  }

  // ---------- division ----------

  /** 1 << k for a bit of a byte. */
  function BitWeight(k: nat): int
    requires k < 8
  {
    [1, 2, 4, 8, 16, 32, 64, 128][k]
  }

  /** Bit number b of a buffer, counted from the most significant bit. */
  function BitAt(s: seq<byte>, b: nat): int
    requires b < 8 * |s|
  {
    (s[b / 8] / BitWeight(7 - b % 8)) % 2
  }

  /** x | (1 << k). */
  function WithBit(x: byte, k: nat): (r: byte)
    requires k < 8
    ensures (x / BitWeight(k)) % 2 == 0 ==> r == x + BitWeight(k)
  {
    if (x / BitWeight(k)) % 2 == 1 then x else
      assert k == 0 || k == 1 || k == 2 || k == 3 || k == 4 || k == 5 || k == 6 || k == 7;
      x + BitWeight(k)
  }

  ghost function Pow2(n: nat): (p: nat)
    ensures p > 0
  {
    if n == 0 then 1 else 2 * Pow2(n - 1)
  }

  /** The number that the first b bits of a buffer spell. */
  ghost function Prefix(s: seq<byte>, b: nat): nat
    requires b <= 8 * |s|
  {
    if b == 0 then 0 else 2 * Prefix(s, b - 1) + BitAt(s, b - 1)
  }

  lemma {:induction false} PrefixBound(s: seq<byte>, b: nat)
    requires b <= 8 * |s|
    ensures Prefix(s, b) < Pow2(b)
  {
    if b > 0 {
      PrefixBound(s, b - 1);
    }
  }

  /** The top m + 1 bits of a byte, and the last of them. */
  function Top(x: byte, m: nat): int
    requires m < 8
  {
    x / BitWeight(7 - m)
  }

  function TopBit(x: byte, m: nat): int
    requires m < 8
  {
    (x / BitWeight(7 - m)) % 2
  }

  lemma PrefixBit(s: seq<byte>, i: nat, m: nat)
    requires i < |s| && m < 8
    ensures Prefix(s, 8 * i + m + 1) == 2 * Prefix(s, 8 * i + m) + TopBit(s[i], m)
  {
    assert (8 * i + m) / 8 == i && (8 * i + m) % 8 == m;
  }

  /** m bits into byte i, the prefix is the whole bytes shifted plus the byte's top bits. */
  lemma {:induction false} PrefixInByte(s: seq<byte>, i: nat, m: nat)
    requires i < |s| && m < 8
    ensures Prefix(s, 8 * i + m + 1) == Pow2(m + 1) * Prefix(s, 8 * i) + Top(s[i], m)
  {
    hide Prefix, BitAt, Pow2, Top, TopBit;
    if m == 0 {
      PrefixBit(s, i, 0);
      FirstBit(s[i], Prefix(s, 8 * i));
    } else {
      PrefixInByte(s, i, m - 1);
      NextInByte(s, i, m);
    }
  }

  lemma NextInByte(s: seq<byte>, i: nat, m: nat)
    requires i < |s| && 1 <= m < 8
    requires Prefix(s, 8 * i + m) == Pow2(m) * Prefix(s, 8 * i) + Top(s[i], m - 1)
    ensures Prefix(s, 8 * i + m + 1) == Pow2(m + 1) * Prefix(s, 8 * i) + Top(s[i], m)
  {
    hide Prefix, BitAt, Pow2, Top, TopBit;
    PrefixBit(s, i, m);
    TopBits(s[i], m);
    OneMoreBit(m, Prefix(s, 8 * i));
  }

  lemma FirstBit(x: byte, p: nat)
    ensures Pow2(1) * p == 2 * p && Top(x, 0) == TopBit(x, 0)
  {
    assert Pow2(1) == 2 * Pow2(0);
    assert BitWeight(7) == 128;
  }

  lemma Halve(x: nat, w: nat)
    requires w > 0
    ensures x / w == 2 * (x / (2 * w)) + (x / w) % 2
  {
    var m, r := x / (2 * w), x % (2 * w);
    assert x == (2 * w) * m + r;
    var e := if r < w then 0 else 1;
    DivModUnique(x, w, 2 * m + e, r - e * w);
  }

  /** The top m + 1 bits of a byte are its top m bits and one more. */
  lemma TopBits(x: byte, m: nat)
    requires 1 <= m < 8
    ensures Top(x, m) == 2 * Top(x, m - 1) + TopBit(x, m)
  {
    var w := BitWeight(7 - m);
    assert w > 0 && BitWeight(7 - (m - 1)) == 2 * w;
    hide BitWeight;
    Halve(x, w);
  }

  lemma OneMoreBit(m: nat, p: nat)
    requires m >= 1
    ensures Pow2(m + 1) * p == 2 * (Pow2(m - 1 + 1) * p)
  {
    MulAssoc(2, Pow2(m), p);
  }

  lemma Pow2Byte(p: nat, x: byte)
    ensures Pow2(7 + 1) * p == 256 * p && Top(x, 7) == x
  {
    assert BitWeight(0) == 1;
    Pow2Bytes(1, 0);
    assert Pow2(8) == 256;
  }

  lemma PrefixByte(s: seq<byte>, i: nat)
    requires i < |s|
    ensures Prefix(s, 8 * (i + 1)) == 256 * Prefix(s, 8 * i) + s[i]
  {
    hide Prefix, Pow2, Top;
    PrefixInByte(s, i, 7);
    Pow2Byte(Prefix(s, 8 * i), s[i]);
    assert 8 * i + 7 + 1 == 8 * (i + 1);
  }

  /** Reading every bit of the first i bytes gives their value. */
  lemma {:induction false} PrefixIsBE(s: seq<byte>, i: nat)
    requires i <= |s|
    ensures Prefix(s, 8 * i) == BE(s[..i])
  {
    if i > 0 {
      hide BE, Prefix;
      PrefixIsBE(s, i - 1);
      PrefixByte(s, i - 1);
      assert s[..i] == s[..i - 1] + [s[i - 1]];
      BESnoc(s[..i - 1], s[i - 1]);
    }
  }

  lemma {:induction false} Pow2Bytes(n: nat, k: nat)
    requires k < 8
    ensures Pow2(8 * n + k) == BitWeight(k) * Pow256(n)
  {
    if k > 0 {
      Pow2Bytes(n, k - 1);
      assert BitWeight(k) == 2 * BitWeight(k - 1);
      assert 2 * (BitWeight(k - 1) * Pow256(n)) == BitWeight(k) * Pow256(n);
    } else if n > 0 {
      Pow2Bytes(n - 1, 7);
      assert 2 * (128 * Pow256(n - 1)) == Pow256(n);
    }
  }

  /** One bit to the left; the bit pushed out of the top byte is lost. */
  method ShiftLeft1(buf: seq<byte>) returns (res: array<byte>)
    requires |buf| == BALANCE_BYTE_LENGTH
    ensures fresh(res) && res.Length == BALANCE_BYTE_LENGTH
    ensures exists lost :: 0 <= lost <= 1 && 2 * BE(buf) == lost * LIMIT + BE(res[..])
    ensures res[BALANCE_BYTE_LENGTH - 1] % 2 == 0
  {
    var n := BALANCE_BYTE_LENGTH;
    res := new byte[n](_ => 0);
    var carry := 0;
    var i := n;
    while i > 0
      invariant 0 <= i <= n && 0 <= carry <= 1 && (i == n ==> carry == 0)
      invariant i < n ==> res[n - 1] % 2 == 0
      invariant 2 * BE(buf[i..]) == carry * Pow256(n - i) + BE(res[i..])
    {
      i := i - 1;
      var val: int := 2 * buf[i] as int + carry;
      ghost var done := res[i + 1..];
      res[i] := val % 256;
      ColumnStep(buf[i], buf[i], carry, val / 256, val % 256, Pow256(n - 1 - i));
      BEDrop(buf, i);
      assert res[i..][0] == val % 256 && res[i..][1..] == done;
      carry := val / 256;
    }
    assert buf[0..] == buf && res[0..] == res[..];
  }

  /** Restoring long division over the 128 bits of the dividend. */
  method DivBuffers(dividend: seq<byte>, divisor: seq<byte>) returns (quotient: array<byte>)
    ensures fresh(quotient)
    ensures |dividend| != BALANCE_BYTE_LENGTH || |divisor| != BALANCE_BYTE_LENGTH || BE(divisor) == 0
            ==> quotient.Length == 0
    ensures |dividend| == |divisor| == BALANCE_BYTE_LENGTH && BE(divisor) > 0 ==>
              quotient.Length == BALANCE_BYTE_LENGTH && BE(quotient[..]) == BE(dividend) / BE(divisor)
  {
    var n := BALANCE_BYTE_LENGTH;
    if |dividend| != n || |divisor| != n {
      quotient := NullBuffer();
      return;
    }
    var isZero := IsZero(divisor);
    if isZero {
      quotient := NullBuffer();
      return;
    }
    quotient := new byte[n](_ => 0);
    var remainder := new byte[n](_ => 0);
    BEZeros(quotient[..]);
    ghost var q: nat := 0;
    assert remainder[..] == quotient[..];
    DivideStart(dividend, BE(divisor), quotient[..]);
    var bit := 0;
    while bit < n * 8
      invariant 0 <= bit <= n * 8 && remainder.Length == n && fresh(remainder) && remainder != quotient
      invariant Dividing(dividend, BE(divisor), bit, q, BE(quotient[..]), BE(remainder[..]))
      invariant LowBitsClear(quotient[..], bit)
    {
      remainder, q := DivideStep(dividend, divisor, quotient, remainder, bit, q);
      bit := bit + 1;
    }
    DivideEnd(dividend, BE(divisor), q, BE(quotient[..]), BE(remainder[..]));
  }

  method IsZero(s: seq<byte>) returns (zero: bool)
    ensures zero <==> BE(s) == 0
  {
    var zeros := seq(|s|, _ => 0);
    BEZeros(zeros);
    zero := s == zeros;
    if BE(s) == 0 {
      BEInjective(s, zeros);
    }
  }

  /** (dividend[byteIndex] >> bitIndex) & 1. */
  method ReadBit(dividend: seq<byte>, bit: nat) returns (bitVal: int)
    requires bit < 8 * |dividend|
    ensures 0 <= bitVal <= 1 && Prefix(dividend, bit + 1) == 2 * Prefix(dividend, bit) + bitVal
  {
    var byteIndex, bitIndex := bit / 8, 7 - (bit % 8);
    bitVal := (dividend[byteIndex] / BitWeight(bitIndex)) % 2;
  }

  /** One turn of the division loop: shift in bit number `bit`, subtract if it fits. */
  method DivideStep(dividend: seq<byte>, divisor: seq<byte>, quotient: array<byte>, oldRemainder: array<byte>,
                    bit: nat, ghost q: nat)
    returns (remainder: array<byte>, ghost q': nat)
    requires |dividend| == |divisor| == oldRemainder.Length == BALANCE_BYTE_LENGTH && bit < 8 * |dividend|
    requires oldRemainder != quotient
    requires Dividing(dividend, BE(divisor), bit, q, BE(quotient[..]), BE(oldRemainder[..]))
    requires LowBitsClear(quotient[..], bit)
    modifies quotient
    ensures fresh(remainder) && remainder.Length == BALANCE_BYTE_LENGTH
    ensures Dividing(dividend, BE(divisor), bit + 1, q', BE(quotient[..]), BE(remainder[..]))
    ensures LowBitsClear(quotient[..], bit + 1)
  {
    hide Prefix, BE, Pow2, LowBitsClear, Dividing;
    ghost var d, quo, rem := BE(divisor), BE(quotient[..]), BE(oldRemainder[..]);
    var bitVal := ReadBit(dividend, bit);
    NoBitLost(dividend, bit, bitVal, q, d, quo, rem);
    var shifted := ShiftIn(oldRemainder[..], bitVal);
    ghost var fits;
    remainder, fits := SubtractIfFits(shifted, divisor, quotient, bit);
    q' := 2 * q + if fits then 1 else 0;
    DivideBit(dividend, d, bit, bitVal, q, quo, rem, fits, BE(quotient[..]), BE(remainder[..]));
  }

  /** Subtracts the divisor and sets the quotient's bit when the remainder is large enough. */
  method SubtractIfFits(shifted: array<byte>, divisor: seq<byte>, quotient: array<byte>, bit: nat)
    returns (remainder: array<byte>, ghost fits: bool)
    requires shifted.Length == |divisor| == BALANCE_BYTE_LENGTH && shifted != quotient
    requires LowBitsClear(quotient[..], bit) && bit < 128
    modifies quotient
    ensures remainder.Length == BALANCE_BYTE_LENGTH && LowBitsClear(quotient[..], bit + 1)
    ensures fits <==> BE(shifted[..]) >= BE(divisor)
    ensures fits ==> fresh(remainder) && BE(remainder[..]) == BE(shifted[..]) - BE(divisor)
                     && BE(quotient[..]) == old(BE(quotient[..])) + Pow2(127 - bit)
    ensures !fits ==> remainder == shifted && quotient[..] == old(quotient[..])
  {
    hide BE, Pow2, LowBitsClear;
    CompareIsNumeric(shifted[..], divisor);
    fits := BE(shifted[..]) >= BE(divisor);
    if Compare(shifted[..], divisor) >= 0 {
      remainder := SubBuffers(shifted[..], divisor);
      OrQuotientBit(quotient, bit);
    } else {
      remainder := shifted;
      KeepQuotientBit(quotient[..], bit);
    }
  }

  /** remainder = shiftLeft1(remainder), then remainder[15] |= bitVal. */
  method ShiftIn(buf: seq<byte>, bitVal: int) returns (res: array<byte>)
    requires |buf| == BALANCE_BYTE_LENGTH && 0 <= bitVal <= 1
    requires 2 * BE(buf) + bitVal < LIMIT
    ensures fresh(res) && res.Length == BALANCE_BYTE_LENGTH
    ensures BE(res[..]) == 2 * BE(buf) + bitVal
  {
    res := ShiftLeft1(buf);
    OrLowBit(res, bitVal);
  }

  /** remainder[15] |= bitVal, on a remainder whose low bit the shift has cleared. */
  method OrLowBit(remainder: array<byte>, bitVal: int)
    requires remainder.Length == BALANCE_BYTE_LENGTH && remainder[BALANCE_BYTE_LENGTH - 1] % 2 == 0
    requires 0 <= bitVal <= 1
    modifies remainder
    ensures BE(remainder[..]) == old(BE(remainder[..])) + bitVal
  {
    var last := BALANCE_BYTE_LENGTH - 1;
    ghost var before := remainder[..];
    if bitVal == 1 {
      remainder[last] := WithBit(remainder[last], 0);
      BEUpdate(before, last, before[last] + 1);
      assert remainder[..] == before[last := before[last] + 1];
    }
  }

  /** quotient[bit / 8] |= 1 << (7 - bit % 8). */
  method OrQuotientBit(quotient: array<byte>, bit: nat)
    requires LowBitsClear(quotient[..], bit) && bit < 128
    modifies quotient
    ensures LowBitsClear(quotient[..], bit + 1)
    ensures BE(quotient[..]) == old(BE(quotient[..])) + Pow2(127 - bit)
  {
    ghost var before := quotient[..];
    var i, k := bit / 8, 7 - bit % 8;
    SetQuotientBit(before, bit);
    quotient[i] := WithBit(quotient[i], k);
    assert quotient[..] == before[i := WithBit(before[i], k)];
  }

  /** The quotient bits from number `bit` on are still clear. */
  ghost predicate LowBitsClear(q: seq<byte>, bit: nat) {
    && |q| == BALANCE_BYTE_LENGTH && bit <= 128
    && (forall j {:trigger q[j]} :: bit / 8 < j < 16 ==> q[j] == 0)
    && (bit < 128 ==> q[bit / 8] % (2 * BitWeight(7 - bit % 8)) == 0)
  }

  /** The remainder never exceeds the dividend prefix read so far, so its shift fits
      even when the divisor is above half of the range. */
  lemma NoBitLost(dividend: seq<byte>, bit: nat, bitVal: nat, q: nat, d: nat, quo: nat, rem: nat)
    requires bit < 8 * |dividend| && Dividing(dividend, d, bit, q, quo, rem)
    requires Prefix(dividend, bit + 1) == 2 * Prefix(dividend, bit) + bitVal
    ensures 2 * rem + bitVal < Pow256(|dividend|)
  {
    MulLe(0, q, d);
    PrefixBound(dividend, bit + 1);
    Pow2Monotone(bit + 1, 8 * |dividend|);
    Pow2Bytes(|dividend|, 0);
  }

  lemma {:induction false} Pow2Monotone(a: nat, b: nat)
    requires a <= b
    ensures Pow2(a) <= Pow2(b)
  {
    if a < b {
      Pow2Monotone(a, b - 1);
    }
  }

  lemma SetQuotientBit(q: seq<byte>, bit: nat)
    requires LowBitsClear(q, bit) && bit < 128
    ensures var q' := q[bit / 8 := WithBit(q[bit / 8], 7 - bit % 8)];
            LowBitsClear(q', bit + 1) && BE(q') == BE(q) + Pow2(127 - bit)
  {
    var i, k := bit / 8, 7 - bit % 8;
    BitIsClear(q[i], k);
    var q' := q[i := WithBit(q[i], k)];
    BEUpdate(q, i, WithBit(q[i], k));
    assert 127 - bit == 8 * (15 - i) + k;
    Pow2Bytes(15 - i, k);
    assert q'[i] == q[i] + BitWeight(k);
    NextBitClear(q', bit);
  }

  lemma KeepQuotientBit(q: seq<byte>, bit: nat)
    requires LowBitsClear(q, bit) && bit < 128
    ensures LowBitsClear(q, bit + 1)
  {
    BitIsClear(q[bit / 8], 7 - bit % 8);
    NextBitClear(q, bit);
  }

  lemma NextBitClear(q: seq<byte>, bit: nat)
    requires |q| == BALANCE_BYTE_LENGTH && bit < 128
    requires forall j {:trigger q[j]} :: bit / 8 < j < 16 ==> q[j] == 0
    requires q[bit / 8] % BitWeight(7 - bit % 8) == 0
    ensures LowBitsClear(q, bit + 1)
  {
    if bit % 8 < 7 {
      assert (bit + 1) / 8 == bit / 8 && (bit + 1) % 8 == bit % 8 + 1;
      var k := 7 - bit % 8;
      assert k == 1 || k == 2 || k == 3 || k == 4 || k == 5 || k == 6 || k == 7;
    } else {
      assert (bit + 1) / 8 == bit / 8 + 1 && (bit + 1) % 8 == 0;
    }
  }

  lemma BitIsClear(x: byte, k: nat)
    requires k < 8 && x % (2 * BitWeight(k)) == 0
    ensures (x / BitWeight(k)) % 2 == 0 && x % BitWeight(k) == 0
    ensures (x + BitWeight(k)) % BitWeight(k) == 0
  {
    var w := BitWeight(k);
    var m := x / (2 * w);
    assert x == (2 * w) * m;
    DivModUnique(x, w, 2 * m, 0);
    DivModUnique(x + w, w, 2 * m + 1, 0);
  }

  /** After `bit` bits: the prefix read is q divisors plus the remainder, and the quotient
      buffer holds q followed by the bits still to come. */
  ghost predicate Dividing(dividend: seq<byte>, d: nat, bit: nat, q: nat, quo: nat, rem: nat) {
    && bit <= 8 * |dividend| && rem < d
    && Prefix(dividend, bit) == q * d + rem
    && quo == q * Pow2(8 * |dividend| - bit)
  }

  lemma DivideStart(dividend: seq<byte>, d: nat, zeros: seq<byte>)
    requires d > 0 && |zeros| == BALANCE_BYTE_LENGTH && BE(zeros) == 0
    requires forall i :: 0 <= i < |zeros| ==> zeros[i] == 0
    ensures Dividing(dividend, d, 0, 0, BE(zeros), BE(zeros)) && LowBitsClear(zeros, 0)
  {
  }

  lemma Quotient(v: nat, d: nat, q: nat, rem: nat)
    requires rem < d && v == q * d + rem
    ensures v / d == q
  {
    DivModUnique(v, d, q, rem);
  }

  lemma DivideEnd(dividend: seq<byte>, d: nat, q: nat, quo: nat, rem: nat)
    requires Dividing(dividend, d, 8 * |dividend|, q, quo, rem)
    ensures quo == BE(dividend) / d
  {
    PrefixIsBE(dividend, |dividend|);
    assert dividend[..|dividend|] == dividend;
    hide BE, Prefix;
    Quotient(Prefix(dividend, 8 * |dividend|), d, q, rem);
    assert q * Pow2(0) == q;
  }

  lemma DivideBit(dividend: seq<byte>, d: nat, bit: nat, bitVal: nat, q: nat, quo: nat, rem: nat, fits: bool,
                  quo': nat, rem': nat)
    requires |dividend| == BALANCE_BYTE_LENGTH && bit < 128 && Dividing(dividend, d, bit, q, quo, rem) && bitVal <= 1
    requires Prefix(dividend, bit + 1) == 2 * Prefix(dividend, bit) + bitVal
    requires fits <==> 2 * rem + bitVal >= d
    requires quo' == (if fits then quo + Pow2(127 - bit) else quo)
    requires rem' == (if fits then 2 * rem + bitVal - d else 2 * rem + bitVal)
    ensures Dividing(dividend, d, bit + 1, 2 * q + if fits then 1 else 0, quo', rem')
  {
    Distribute(q, if fits then 1 else 0, d, Pow2(127 - bit));
    assert Pow2(128 - bit) == 2 * Pow2(127 - bit);
    hide Prefix, Pow2;
  }

  lemma Distribute(q: nat, more: nat, d: nat, w: nat)
    ensures (2 * q + more) * d == 2 * (q * d) + more * d
    ensures (2 * q + more) * w == q * (2 * w) + more * w
  {
  }

  // ---------- multiplication ----------

  method MulBuffers(a: seq<byte>, b: seq<byte>) returns (product: array<byte>)
    ensures fresh(product)
    ensures |a| != BALANCE_BYTE_LENGTH || |b| != BALANCE_BYTE_LENGTH || BE(a) * BE(b) >= LIMIT
            ==> product.Length == 0
    ensures |a| == |b| == BALANCE_BYTE_LENGTH && BE(a) * BE(b) < LIMIT ==>
              product.Length == BALANCE_BYTE_LENGTH && BE(product[..]) == BE(a) * BE(b)
  {
    if |a| != BALANCE_BYTE_LENGTH || |b| != BALANCE_BYTE_LENGTH {
      product := NullBuffer();
      return;
    }
    var wide := MulWide(a, b);
    SplitWide(wide);
    var fits := IsZero(wide[..BALANCE_BYTE_LENGTH]);
    if !fits {
      product := NullBuffer();
    } else {
      product := new byte[BALANCE_BYTE_LENGTH](i requires 0 <= i < BALANCE_BYTE_LENGTH => wide[BALANCE_BYTE_LENGTH + i]);
      assert product[..] == wide[BALANCE_BYTE_LENGTH..];
    }
  }

  /** The upper half is zero exactly when the product fits, and then the lower half is it. */
  lemma SplitWide(wide: seq<byte>)
    requires |wide| == 2 * BALANCE_BYTE_LENGTH
    ensures BE(wide[..BALANCE_BYTE_LENGTH]) == 0 <==> BE(wide) < LIMIT
    ensures BE(wide[..BALANCE_BYTE_LENGTH]) == 0 ==> BE(wide[BALANCE_BYTE_LENGTH..]) == BE(wide)
  {
    hide BE, Pow256;
    var high, low := wide[..BALANCE_BYTE_LENGTH], wide[BALANCE_BYTE_LENGTH..];
    assert wide == high + low;
    BEConcat(high, low);
    BEBound(low);
    if BE(high) > 0 {
      MulLe(1, BE(high), Pow256(|low|));
    }
  }

  /** The full double-length product, row by row from the last byte of a. */
  method MulWide(a: seq<byte>, b: seq<byte>) returns (wide: seq<byte>)
    requires |a| == |b| > 0
    ensures |wide| == 2 * |a| && BE(wide) == BE(a) * BE(b)
  {
    var n := |a|;
    var result := new byte[2 * n](_ => 0);
    BEZeros(result[..]);
    var i := n;
    while i > 0
      invariant 0 <= i <= n && result.Length == 2 * n
      invariant forall k :: 0 <= k < i ==> result[k] == 0
      invariant BE(result[..]) == BE(a[i..]) * BE(b)
    {
      i := i - 1;
      MulRow(a[i], b, result, i);
      BEDrop(a, i);
      AddRow(BE(a[i + 1..]), a[i], Pow256(n - 1 - i), BE(b));
    }
    assert a[0..] == a;
    wide := result[..];
  }

  lemma AddRow(rest: nat, digit: nat, w: nat, b: nat)
    ensures rest * b + digit * b * w == (digit * w + rest) * b
  {
    MulAssoc(digit, b, w);
    MulAssoc(digit, w, b);
  }

  /** One row: adds digit * b, shifted to column i, into the result. */
  method MulRow(digit: byte, b: seq<byte>, result: array<byte>, i: nat)
    requires i < |b| && result.Length == 2 * |b|
    requires forall k :: 0 <= k <= i ==> result[k] == 0
    modifies result
    ensures forall k :: 0 <= k < i ==> result[k] == 0
    ensures BE(result[..]) == old(BE(result[..])) + digit * BE(b) * Pow256(|b| - 1 - i)
  {
    var n := |b|;
    assert BE(b[n..]) == 0;
    hide BE, Pow256;
    ghost var start, shift := BE(result[..]), Pow256(n - 1 - i);
    var carry: byte := 0;
    var j := n;
    while j > 0
      invariant 0 <= j <= n
      invariant forall k :: 0 <= k <= i ==> result[k] == 0
      invariant BE(result[..]) + carry * Pow256(2 * n - 1 - i - j) == start + digit * BE(b[j..]) * shift
    {
      j := j - 1;
      var pos := i + j + 1;
      ProductFits(digit, b[j], result[pos], carry);
      var mul: int := digit as int * b[j] as int + result[pos] as int + carry;
      ghost var before := result[..];
      result[pos] := mul % 256;
      BEUpdate(before, pos, mul % 256);
      assert result[..] == before[pos := mul % 256];
      BEDrop(b, j);
      Pow256Add(n - 1 - j, n - 1 - i);
      RowStep(digit, b[j], before[pos], carry, mul / 256, mul % 256, Pow256(n - 1 - j), shift, BE(b[j + 1..]));
      carry := mul / 256;
    }
    assert b[0..] == b;
    ghost var before := result[..];
    result[i] := result[i] + carry;
    BEUpdate(before, i, carry);
    assert result[..] == before[i := carry];
  }

  lemma ProductFits(x: byte, y: byte, z: byte, carry: byte)
    ensures 0 <= x * y + z + carry <= 255 * 256 + 255
  {
    MulLe(x, 255, y);
  }

  lemma {:induction false} Pow256Add(m: nat, n: nat)
    ensures Pow256(m + n) == Pow256(m) * Pow256(n)
  {
    if m > 0 {
      Pow256Add(m - 1, n);
      MulAssoc(256, Pow256(m - 1), Pow256(n));
    }
  }

  lemma RowStep(digit: nat, y: nat, prev: nat, carryIn: nat, carryOut: nat, low: nat, wj: nat, shift: nat, rest: nat)
    requires digit * y + prev + carryIn == 256 * carryOut + low
    ensures (low - prev) * (wj * shift) + carryOut * (256 * (wj * shift))
         == carryIn * (wj * shift) + digit * (y * wj + rest) * shift - digit * rest * shift
  {
    var w := wj * shift;
    assert (low - prev) * w + carryOut * (256 * w) == (low - prev + 256 * carryOut) * w;
    assert (digit * y + carryIn) * w == digit * y * w + carryIn * w;
    assert digit * (y * wj + rest) * shift == digit * y * w + digit * rest * shift by {
      assert digit * (y * wj + rest) == digit * (y * wj) + digit * rest;
      MulAssoc(digit, y, wj);
      MulAssoc(digit * y, wj, shift);
    }
  }
}
