/**
 Byte buffers read as big-endian unsigned numbers, most significant byte first.
 A byte is an integer below 256, so `x & 0xff` is `x % 256`, `x >> 8` is `x / 256`,
 and each bitwise "or" of the source sets one bit that `WithBit` names.
 */
module Bytes {
  type byte = x: int | 0 <= x < 256

  datatype Option<+T> = None | Some(value: T)

  /** 256 to the power n: the weight of a byte with n bytes to its right. */
  ghost function Pow256(n: nat): (p: nat)
    ensures p > 0
  {
    if n == 0 then 1 else 256 * Pow256(n - 1)
  }

  /** The number a buffer stands for. */
  ghost function BE(s: seq<byte>): nat {
    if s == [] then 0 else s[0] * Pow256(|s| - 1) + BE(s[1..])
  }

  /** The low n bytes of v. */
  ghost function ToBE(v: nat, n: nat): (s: seq<byte>)
    ensures |s| == n
  {
    if n == 0 then [] else ToBE(v / 256, n - 1) + [v % 256]
  }

  lemma {:induction false} BEBound(s: seq<byte>)
    ensures BE(s) < Pow256(|s|)
  {
    if s != [] {
      BEBound(s[1..]);
      MulLe(s[0], 255, Pow256(|s| - 1));
    }
  }

  lemma MulLe(a: int, b: int, p: nat)
    requires a <= b
    ensures a * p <= b * p
  {
  }

  lemma MulAssoc(a: int, b: int, c: int)
    ensures (a * b) * c == a * (b * c)
  {
  }

  lemma {:induction false} BESnoc(s: seq<byte>, x: byte)
    ensures BE(s + [x]) == 256 * BE(s) + x
  {
    if s == [] {
      assert BE([x]) == x * Pow256(0) + BE([]);
    } else {
      var t := s + [x];
      assert t[1..] == s[1..] + [x];
      BESnoc(s[1..], x);
      var p := Pow256(|s| - 1);
      assert Pow256(|s|) == 256 * p;
      MulAssoc(s[0], 256, p);
      MulAssoc(256, s[0], p);
    }
  }

  /** Overwriting one byte moves the value by the difference times the byte's weight. */
  lemma {:induction false} BEUpdate(s: seq<byte>, k: nat, x: byte)
    requires k < |s|
    ensures BE(s[k := x]) == BE(s) + (x - s[k]) * Pow256(|s| - 1 - k)
  {
    var t := s[k := x];
    if k == 0 {
      assert t[1..] == s[1..];
      var p := Pow256(|s| - 1);
      assert x * p == s[0] * p + (x - s[0]) * p;
    } else {
      assert t[1..] == s[1..][k - 1 := x];
      BEUpdate(s[1..], k - 1, x);
    }
  }

  lemma {:induction false} BEZeros(s: seq<byte>)
    requires forall i :: 0 <= i < |s| ==> s[i] == 0
    ensures BE(s) == 0
  {
    if s != [] {
      BEZeros(s[1..]);
      assert s[0] * Pow256(|s| - 1) == 0;
    }
  }

  /** Concatenation: the left part is worth its value shifted by the right part's length. */
  lemma {:induction false} BEConcat(a: seq<byte>, b: seq<byte>)
    ensures BE(a + b) == BE(a) * Pow256(|b|) + BE(b)
  {
    if b == [] {
      assert a + b == a;
    } else {
      var c, x := b[..|b| - 1], b[|b| - 1];
      assert b == c + [x] && a + b == (a + c) + [x];
      BESnoc(a + c, x);
      BESnoc(c, x);
      BEConcat(a, c);
      var p := Pow256(|c|);
      assert Pow256(|b|) == 256 * p;
      assert 256 * (BE(a) * p) == BE(a) * (256 * p);
    }
  }

  lemma {:induction false} ToBERoundTrip(v: nat, n: nat)
    ensures BE(ToBE(v, n)) == v % Pow256(n)
  {
    if n > 0 {
      ToBERoundTrip(v / 256, n - 1);
      BESnoc(ToBE(v / 256, n - 1), v % 256);
      ModStep(v, Pow256(n - 1));
    }
  }

  lemma ModStep(v: nat, p: nat)
    requires p > 0
    ensures v % (256 * p) == 256 * ((v / 256) % p) + v % 256
  {
    var q, r := (v / 256) / p, (v / 256) % p;
    var low := v % 256;
    assert v == 256 * (v / 256) + low;
    assert v / 256 == p * q + r;
    assert v == (256 * p) * q + (256 * r + low) by {
      assert 256 * (p * q + r) == (256 * p) * q + 256 * r;
    }
    assert 0 <= 256 * r + low < 256 * p;
    DivModUnique(v, 256 * p, q, 256 * r + low);
  }

  lemma DivModUnique(v: int, d: nat, q: int, r: nat)
    requires d > 0 && r < d && v == d * q + r
    ensures v / d == q && v % d == r
  {
    var q', r' := v / d, v % d;
    assert q' * d - q * d == r - r';
    if q' > q {
      MulLe(q + 1, q', d);
    } else if q' < q {
      MulLe(q' + 1, q, d);
    }
  }

  lemma {:induction false} BERoundTrip(s: seq<byte>)
    ensures ToBE(BE(s), |s|) == s
  {
    if s != [] {
      var c, x := s[..|s| - 1], s[|s| - 1];
      assert s == c + [x];
      BESnoc(c, x);
      BERoundTrip(c);
      DivModUnique(BE(s), 256, BE(c), x);
    }
  }

  lemma BEInjective(a: seq<byte>, b: seq<byte>)
    requires |a| == |b| && BE(a) == BE(b)
    ensures a == b
  {
    BERoundTrip(a);
    BERoundTrip(b);
  }

  /** Lexicographic order of two buffers, the sign that b4a.compare returns. */
  function Compare(a: seq<byte>, b: seq<byte>): int {
    if a == [] then if b == [] then 0 else -1
    else if b == [] then 1
    else if a[0] < b[0] then -1
    else if a[0] > b[0] then 1
    else Compare(a[1..], b[1..])
  }

  lemma BEDrop(s: seq<byte>, i: nat)
    requires i < |s|
    ensures BE(s[i..]) == s[i] * Pow256(|s| - 1 - i) + BE(s[i + 1..])
  {
    assert s[i..][1..] == s[i + 1..];
  }

  lemma LeadingByteDecides(x: nat, y: nat, p: nat, low: nat, high: nat)
    requires x < y && low < p
    ensures x * p + low < y * p + high
  {
    MulLe(x + 1, y, p);
  }

  /** On buffers of one length the lexicographic order is the numeric order. */
  lemma {:induction false} CompareIsNumeric(a: seq<byte>, b: seq<byte>)
    requires |a| == |b|
    ensures Compare(a, b) == if BE(a) < BE(b) then -1 else if BE(a) > BE(b) then 1 else 0
  {
    if a != [] {
      BEBound(a[1..]);
      BEBound(b[1..]);
      if a[0] < b[0] {
        LeadingByteDecides(a[0], b[0], Pow256(|a| - 1), BE(a[1..]), BE(b[1..]));
      } else if a[0] > b[0] {
        LeadingByteDecides(b[0], a[0], Pow256(|a| - 1), BE(b[1..]), BE(a[1..]));
      } else {
        CompareIsNumeric(a[1..], b[1..]);
      }
    }
  }
}
