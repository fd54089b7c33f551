/**
 Amounts as decimal text, the way the command line reads and prints them.
 */
module DecimalAmounts {
  import opened Bytes
  import opened Records

  datatype ParseError = Negative | InvalidFormat | TooManyDecimals | ExceedsMaximum

  datatype Parsed = Ok(value: nat) | Err(error: ParseError)

  // ---------- digits ----------

  predicate IsDigit(c: char) {
    '0' <= c <= '9'
  }

  predicate AllDigits(s: string) {
    forall i :: 0 <= i < |s| ==> IsDigit(s[i])
  }

  function DigitValue(c: char): (d: nat)
    requires IsDigit(c)
    ensures d < 10
  {
    c as int - '0' as int
  }

  function DigitChar(d: nat): (c: char)
    requires d < 10
    ensures IsDigit(c) && DigitValue(c) == d
  {
    ('0' as int + d) as char
  }

  ghost function Pow10(n: nat): (p: nat)
    ensures p > 0
  {
    if n == 0 then 1 else 10 * Pow10(n - 1)
  }

  /** The number a string of digits stands for (BigInt of a digit string). */
  function Value(s: string): nat
    requires AllDigits(s)
  {
    if s == "" then 0 else 10 * Value(s[..|s| - 1]) + DigitValue(s[|s| - 1])
  }

  /** toString of a bigint. */
  function Digits(v: nat): (s: string)
    ensures s != "" && AllDigits(s) && Value(s) == v && (|s| > 1 ==> s[0] != '0')
  {
    if v < 10 then [DigitChar(v)]
    else
      var s := Digits(v / 10) + [DigitChar(v % 10)];
      assert s[..|s| - 1] == Digits(v / 10);
      s
  }

  lemma {:induction false} ValueConcat(a: string, b: string)
    requires AllDigits(a) && AllDigits(b)
    ensures AllDigits(a + b) && Value(a + b) == Value(a) * Pow10(|b|) + Value(b)
  {
    if b == "" {
      assert a + b == a;
    } else {
      var c := b[..|b| - 1];
      ValueConcat(a, c);
      assert (a + b)[..|a + b| - 1] == a + c;
      assert Value(a + b) == 10 * Value(a + c) + DigitValue(b[|b| - 1]);
      assert Value(b) == 10 * Value(c) + DigitValue(b[|b| - 1]);
      hide Value, AllDigits, DigitValue;
      TenTimes(Value(a), Pow10(|c|));
    }
  }

  lemma TenTimes(v: nat, p: nat)
    ensures 10 * (v * p) == v * (10 * p)
  {
  }

  lemma {:induction false} ValueBounds(s: string)
    requires AllDigits(s)
    ensures Value(s) < Pow10(|s|)
    ensures s != "" && s[0] != '0' ==> Value(s) >= Pow10(|s| - 1)
  {
    if |s| > 0 {
      ValueBounds(s[..|s| - 1]);
      assert |s| > 1 ==> s[..|s| - 1][0] == s[0];
    }
  }

  lemma {:induction false} Pow10Grows(m: nat, n: nat)
    requires m <= n
    ensures Pow10(m) <= Pow10(n)
  {
    if m < n { Pow10Grows(m, n - 1); }
  }

  lemma {:induction false} SameLengthSameValue(x: string, y: string)
    requires AllDigits(x) && AllDigits(y) && |x| == |y| && Value(x) == Value(y)
    ensures x == y
  {
    if x != "" {
      var a, b := x[..|x| - 1], y[..|y| - 1];
      SameLengthSameValue(a, b);
      assert x == a + [x[|x| - 1]] && y == b + [y[|y| - 1]];
    }
  }

  /** At least n digits, and more only when the first is not zero. */
  ghost predicate Padded(s: string, n: nat) {
    AllDigits(s) && |s| >= n && (|s| > n ==> s[0] != '0')
  }

  /** There is one way to write a number with padding to n digits. */
  lemma PaddedIsUnique(x: string, y: string, n: nat)
    requires Padded(x, n) && Padded(y, n) && Value(x) == Value(y)
    ensures x == y
  {
    ValueBounds(x);
    ValueBounds(y);
    if |x| > |y| { Pow10Grows(|y|, |x| - 1); }
    if |y| > |x| { Pow10Grows(|x|, |y| - 1); }
    SameLengthSameValue(x, y);
  }

  // ---------- padding and stripping ----------

  function Zeros(n: nat): (s: string)
    ensures |s| == n && AllDigits(s) && forall i :: 0 <= i < n ==> s[i] == '0'
  {
    if n == 0 then "" else "0" + Zeros(n - 1)
  }

  function PadStart(s: string, n: nat): string {
    if |s| >= n then s else Zeros(n - |s|) + s
  }

  function PadEnd(s: string, n: nat): string {
    if |s| >= n then s else s + Zeros(n - |s|)
  }

  /** Without its trailing zeros: replace(/0+$/, ''). */
  function StripTrailing(s: string): (t: string)
    ensures t <= s && (t != "" ==> t[|t| - 1] != '0')
  {
    if s != "" && s[|s| - 1] == '0' then StripTrailing(s[..|s| - 1]) else s
  }

  /** Without its leading zeros, except the last digit. */
  function StripLeading(s: string): (t: string)
    ensures |t| <= |s| && (s != "" ==> t != "") && (|t| > 1 ==> t[0] != '0')
  {
    if |s| > 1 && s[0] == '0' then StripLeading(s[1..]) else s
  }

  lemma {:induction false} ZerosAreNothing(n: nat, s: string)
    requires AllDigits(s)
    ensures AllDigits(Zeros(n) + s) && Value(Zeros(n) + s) == Value(s)
  {
    ValueConcat(Zeros(n), s);
    ZeroValue(n);
  }

  lemma {:induction false} ZeroValue(n: nat)
    ensures Value(Zeros(n)) == 0
  {
    if n > 0 {
      ZeroValue(n - 1);
      assert Zeros(n)[..n - 1] == Zeros(n - 1);
    }
  }

  lemma {:induction false} StripLeadingKeepsValue(s: string)
    requires AllDigits(s)
    ensures AllDigits(StripLeading(s)) && Value(StripLeading(s)) == Value(s)
  {
    if |s| > 1 && s[0] == '0' {
      StripLeadingKeepsValue(s[1..]);
      assert Zeros(1) == "0" && s == Zeros(1) + s[1..];
      ZerosAreNothing(1, s[1..]);
    }
  }

  /** Stripping and padding again gives the string back; padding does not change what is stripped. */
  lemma {:induction false} StripThenPad(s: string)
    requires AllDigits(s)
    ensures PadEnd(StripTrailing(s), |s|) == s && AllDigits(StripTrailing(s))
  {
    if s != "" && s[|s| - 1] == '0' {
      var t := s[..|s| - 1];
      StripThenPad(t);
      var u := StripTrailing(t);
      assert s == t + "0" && t == u + Zeros(|t| - |u|);
      assert Zeros(|t| - |u|) + "0" == Zeros(|s| - |u|);
    }
  }

  lemma {:induction false} OneMoreZero(n: nat)
    ensures Zeros(n + 1) == Zeros(n) + "0"
  {
    if n > 0 { OneMoreZero(n - 1); }
  }

  lemma PadOneMore(s: string, n: nat)
    requires |s| < n
    ensures PadEnd(s, n) == PadEnd(s, n - 1) + "0"
  {
    OneMoreZero(n - 1 - |s|);
    hide Zeros;
    assert (s + Zeros(n - 1 - |s|)) + "0" == s + (Zeros(n - 1 - |s|) + "0");
  }

  lemma StripZero(s: string)
    ensures StripTrailing(s + "0") == StripTrailing(s)
  {
    assert (s + "0")[..|s|] == s;
  }

  lemma {:induction false} PadThenStrip(s: string, n: nat)
    ensures StripTrailing(PadEnd(s, n)) == StripTrailing(s)
  {
    hide Zeros, StripTrailing;
    if |s| < n {
      PadThenStrip(s, n - 1);
      PadOneMore(s, n);
      StripZero(PadEnd(s, n - 1));
    }
  }

  // ---------- trimming ----------

  /** What String.prototype.trim removes. */
  predicate IsSpace(c: char) {
    '\t' <= c <= '\r' || c == ' ' || c == '\U{00A0}' || c == '\U{1680}' || '\U{2000}' <= c <= '\U{200A}'
    || c == '\U{2028}' || c == '\U{2029}' || c == '\U{202F}' || c == '\U{205F}' || c == '\U{3000}' || c == '\U{FEFF}'
  }

  function Trim(s: string): string {
    if s != "" && IsSpace(s[0]) then Trim(s[1..])
    else if s != "" && IsSpace(s[|s| - 1]) then Trim(s[..|s| - 1])
    else s
  }

  // ---------- parsing ----------

  /** The place of the first dot, or the end. */
  function Dot(s: string): (k: nat)
    ensures k <= |s| && (k < |s| ==> s[k] == '.') && forall i :: 0 <= i < k ==> s[i] != '.'
  {
    if s == "" || s[0] == '.' then 0 else 1 + Dot(s[1..])
  }

  function IntegerPart(s: string): string {
    s[..Dot(s)]
  }

  function FractionalPart(s: string): string {
    if Dot(s) < |s| then s[Dot(s) + 1..] else ""
  }

  /** One or more digits, then perhaps a dot and one or more digits. */
  predicate WellFormatted(s: string) {
    && IntegerPart(s) != "" && AllDigits(IntegerPart(s))
    && (Dot(s) < |s| ==> FractionalPart(s) != "" && AllDigits(FractionalPart(s)))
  }

  function DecimalStringToBigInt(input: string, decimals: nat): Parsed {
    var s := Trim(input);
    if s != "" && s[0] == '-' then Err(Negative)
    else if !WellFormatted(s) then Err(InvalidFormat)
    else if |FractionalPart(s)| > decimals then Err(TooManyDecimals)
    else
      var v := Value(IntegerPart(s) + PadEnd(FractionalPart(s), decimals));
      if v >= AMOUNT_LIMIT then Err(ExceedsMaximum) else Ok(v)
  }

  // ---------- printing ----------

  /** slice(-decimals) starts at the beginning when decimals is zero, and slice(0, -decimals) is then empty. */
  function BigIntToDecimalString(v: nat, decimals: nat): (r: Option<string>)
    ensures r.Some? <==> v < AMOUNT_LIMIT
  {
    if v >= AMOUNT_LIMIT then None
    else
      var str := PadStart(Digits(v), decimals + 1);
      var head := if decimals == 0 then "" else str[..|str| - decimals];
      var tail := if decimals == 0 then str else str[|str| - decimals..];
      var integerPart := if head == "" then "0" else head;
      var fractionalPart := StripTrailing(tail);
      Some(if fractionalPart != "" then integerPart + "." + fractionalPart else integerPart)
  }

  // ---------- round trips ----------

  /** Text made of an integer part and a fraction is read back as just those. */
  lemma PartsOf(i: string, f: string)
    requires i != "" && AllDigits(i) && AllDigits(f)
    ensures var s := if f != "" then i + "." + f else i;
            Trim(s) == s && s[0] != '-' && WellFormatted(s) && IntegerPart(s) == i && FractionalPart(s) == f
  {
    var s := if f != "" then i + "." + f else i;
    assert IsDigit(s[0]) by { assert s[0] == i[0]; }
    assert IsDigit(s[|s| - 1]) by { assert s[|s| - 1] == if f != "" then f[|f| - 1] else i[|i| - 1]; }
    assert forall k :: 0 <= k < |i| ==> s[k] == i[k];
    if f != "" {
      assert s[|i|] == '.';
      assert Dot(s) == |i|;
      assert s[..|i|] == i && s[|i| + 1..] == f;
    } else {
      assert Dot(s) == |s| by { assert forall k :: 0 <= k < |s| ==> s[k] != '.'; }
      assert s[..|s|] == s;
    }
  }

  lemma PadStartIsPadded(v: nat, n: nat)
    requires n >= 1
    ensures var str := PadStart(Digits(v), n); Padded(str, n) && Value(str) == v
  {
    if |Digits(v)| < n { ZerosAreNothing(n - |Digits(v)|, Digits(v)); }
  }

  /** What parsing makes of such text. */
  lemma ParseParts(i: string, f: string, decimals: nat)
    requires i != "" && AllDigits(i) && AllDigits(f)
    ensures AllDigits(i + PadEnd(f, decimals))
    ensures var v := Value(i + PadEnd(f, decimals));
            DecimalStringToBigInt(if f != "" then i + "." + f else i, decimals)
            == if |f| > decimals then Err(TooManyDecimals) else if v >= AMOUNT_LIMIT then Err(ExceedsMaximum) else Ok(v)
  {
    PartsOf(i, f);
    hide Trim, Dot, Value, WellFormatted, IntegerPart, FractionalPart;
  }

  lemma RoundTripWithDecimals(v: nat, decimals: nat)
    requires v < AMOUNT_LIMIT && decimals >= 1
    ensures DecimalStringToBigInt(BigIntToDecimalString(v, decimals).value, decimals) == Ok(v)
  {
    hide Value, StripTrailing, PadEnd, DecimalStringToBigInt, Digits, PadStart;
    var str := PadStart(Digits(v), decimals + 1);
    PadStartIsPadded(v, decimals + 1);
    var i, f := str[..|str| - decimals], str[|str| - decimals..];
    StripThenPad(f);
    ParseParts(i, StripTrailing(f), decimals);
    assert i + f == str;
    assert |StripTrailing(f)| <= |f|;
  }

  /** With no decimals every digit is printed behind the dot: only zero survives. */
  lemma RoundTripWithoutDecimals(v: nat)
    requires v < AMOUNT_LIMIT
    ensures DecimalStringToBigInt(BigIntToDecimalString(v, 0).value, 0) == if v == 0 then Ok(0) else Err(TooManyDecimals)
  {
    var str := Digits(v);
    StripThenPad(str);
    var f := StripTrailing(str);
    ParseParts("0", f, 0);
    if v == 0 {
      assert str == "0" && f == "";
      assert "0" + PadEnd("", 0) == Zeros(1);
      ZeroValue(1);
    } else if f == "" {
      OnlyZerosStrip(str);
    }
    hide DecimalStringToBigInt, StripTrailing;
  }

  /** Digits that strip to nothing stand for zero. */
  lemma OnlyZerosStrip(s: string)
    requires AllDigits(s) && StripTrailing(s) == ""
    ensures Value(s) == 0
  {
    StripThenPad(s);
    assert PadEnd("", |s|) == Zeros(|s|);
    ZeroValue(|s|);
  }

  /** Printing and parsing agree on exactly these amounts. */
  lemma RoundTripsExactly(v: nat, decimals: nat)
    requires v < AMOUNT_LIMIT
    ensures DecimalStringToBigInt(BigIntToDecimalString(v, decimals).value, decimals) == Ok(v) <==> decimals >= 1 || v == 0
  {
    if decimals >= 1 { RoundTripWithDecimals(v, decimals); } else { RoundTripWithoutDecimals(v); }
  }

  /** The same amount without redundant zeros or spaces. */
  function Canonical(input: string): string {
    var s := Trim(input);
    var f := StripTrailing(FractionalPart(s));
    if f != "" then StripLeading(IntegerPart(s)) + "." + f else StripLeading(IntegerPart(s))
  }

  lemma PrintsWithDecimals(input: string, decimals: nat)
    requires decimals >= 1 && DecimalStringToBigInt(input, decimals).Ok?
    ensures BigIntToDecimalString(DecimalStringToBigInt(input, decimals).value, decimals) == Some(Canonical(input))
  {
    hide Dot, Trim, Digits, StripTrailing, StripLeading, Value;
    var s, v := Trim(input), DecimalStringToBigInt(input, decimals).value;
    var i, f := IntegerPart(s), PadEnd(FractionalPart(s), decimals);
    assert AllDigits(f) && |f| == decimals;
    var j := StripLeading(i);
    StripLeadingKeepsValue(i);
    ValueConcat(i, f);
    ValueConcat(j, f);
    assert Padded(j + f, decimals + 1);
    var str := PadStart(Digits(v), decimals + 1);
    PadStartIsPadded(v, decimals + 1);
    PaddedIsUnique(str, j + f, decimals + 1);
    assert str[..|str| - decimals] == j && str[|str| - decimals..] == f;
    PadThenStrip(FractionalPart(s), decimals);
  }

  /** Without decimals the digits go behind a dot, which no text that is parsed without decimals has. */
  lemma PrintsWithoutDecimals(input: string)
    requires DecimalStringToBigInt(input, 0).Ok?
    ensures var v := DecimalStringToBigInt(input, 0).value;
            BigIntToDecimalString(v, 0) == Some(Canonical(input)) <==> v == 0
  {
    var s, v := Trim(input), DecimalStringToBigInt(input, 0).value;
    var i := IntegerPart(s);
    assert FractionalPart(s) == "" && i + PadEnd("", 0) == i && v == Value(i);
    hide Dot, Trim, DecimalStringToBigInt, IntegerPart, FractionalPart;
    var j, str := StripLeading(i), Digits(v);
    StripLeadingKeepsValue(i);
    assert Canonical(input) == j;
    if v == 0 {
      PaddedIsUnique(j, "0", 1);
      assert str == "0" && StripTrailing("0") == "";
    } else {
      if StripTrailing(str) == "" { OnlyZerosStrip(str); }
      hide StripTrailing, StripLeading;
      var printed := "0" + "." + StripTrailing(str);
      assert BigIntToDecimalString(v, 0) == Some(printed);
      assert printed[1] == '.' && !IsDigit('.');
    }
  }

  /** Printing what was parsed gives the canonical form of the text, for exactly the amounts that survive
      the round trip the other way. */
  lemma PrintsCanonically(input: string, decimals: nat)
    requires DecimalStringToBigInt(input, decimals).Ok?
    ensures var v := DecimalStringToBigInt(input, decimals).value;
            BigIntToDecimalString(v, decimals) == Some(Canonical(input)) <==> decimals >= 1 || v == 0
  {
    if decimals >= 1 { PrintsWithDecimals(input, decimals); } else { PrintsWithoutDecimals(input); }
  }

  // ---------- what is accepted ----------

  /** Trimming takes the spaces off both ends, all of them and nothing else. */
  lemma {:induction false} TrimExactly(s: string) returns (lo: nat, hi: nat)
    ensures lo <= hi <= |s| && Trim(s) == s[lo..hi]
    ensures forall k :: 0 <= k < lo || hi <= k < |s| ==> IsSpace(s[k])
    ensures lo < hi ==> !IsSpace(s[lo]) && !IsSpace(s[hi - 1])
  {
    hide IsSpace;
    if s != "" && IsSpace(s[0]) {
      var t := s[1..];
      assert Trim(s) == Trim(t);
      hide Trim;
      lo, hi := TrimExactly(t);
      assert forall k :: 0 < k < |s| ==> s[k] == t[k - 1];
      lo, hi := lo + 1, hi + 1;
      assert s[lo..hi] == t[lo - 1..hi - 1];
    } else if s != "" && IsSpace(s[|s| - 1]) {
      var t := s[..|s| - 1];
      assert Trim(s) == Trim(t);
      hide Trim;
      lo, hi := TrimExactly(t);
      assert s[lo..hi] == t[lo..hi];
    } else {
      lo, hi := 0, |s|;
    }
  }

  /** White space and line ends, by code. */
  lemma SpacesExactly(c: char)
    ensures IsSpace(c) <==> var n := c as int;
                            9 <= n <= 13 || n in {32, 160, 5760, 8232, 8233, 8239, 8287, 12288, 65279} || 8192 <= n <= 8202
  {
  }

  ghost function Scaled(i: string, f: string, decimals: nat): nat
    requires AllDigits(i) && AllDigits(f) && |f| <= decimals
  {
    Value(i) * Pow10(decimals) + Value(f) * Pow10(decimals - |f|)
  }

  lemma PaddedValue(f: string, n: nat)
    requires AllDigits(f) && |f| <= n
    ensures AllDigits(PadEnd(f, n)) && |PadEnd(f, n)| == n && Value(PadEnd(f, n)) == Value(f) * Pow10(n - |f|)
  {
    if |f| < n {
      ValueConcat(f, Zeros(n - |f|));
      ZeroValue(n - |f|);
    }
    hide Value, Zeros;
  }

  lemma PartsScaled(i: string, f: string, decimals: nat)
    requires AllDigits(i) && AllDigits(f) && |f| <= decimals
    ensures AllDigits(i + PadEnd(f, decimals)) && Value(i + PadEnd(f, decimals)) == Scaled(i, f, decimals)
  {
    PaddedValue(f, decimals);
    hide Value, PadEnd, Pow10;
    ValueConcat(i, PadEnd(f, decimals));
  }

  /** Digits, with or without a dot and more digits: refused for too many decimals or from 2 to the power 128 on,
      and otherwise the number, scaled by the decimals. */
  lemma ParsesExactly(i: string, f: string, decimals: nat)
    requires i != "" && AllDigits(i) && AllDigits(f)
    ensures DecimalStringToBigInt(if f != "" then i + "." + f else i, decimals)
         == if |f| > decimals then Err(TooManyDecimals)
            else if Scaled(i, f, decimals) >= 0x1_0000_0000_0000_0000_0000_0000_0000_0000 then Err(ExceedsMaximum)
            else Ok(Scaled(i, f, decimals))
  {
    hide DecimalStringToBigInt, Value, PadEnd, Pow10, Scaled, AllDigits;
    ParseParts(i, f, decimals);
    if |f| <= decimals { PartsScaled(i, f, decimals); }
  }

  /** Anything else is refused, for its sign or for its form. */
  lemma RefusesExactly(input: string, decimals: nat)
    ensures var r, s := DecimalStringToBigInt(input, decimals), Trim(input);
            && (r == Err(Negative) <==> s != "" && s[0] == '-')
            && (r != Err(Negative) && r != Err(InvalidFormat) <==>
                  exists i: string, f: string {:trigger Decimal(i, f)} :: Decimal(i, f) == s && i != "" && AllDigits(i) && AllDigits(f))
  {
    var r, s := DecimalStringToBigInt(input, decimals), Trim(input);
    if r != Err(Negative) && r != Err(InvalidFormat) {
      FormOf(s);
      assert Decimal(IntegerPart(s), FractionalPart(s)) == s;
    }
    if i: string, f: string :| Decimal(i, f) == s && i != "" && AllDigits(i) && AllDigits(f) {
      PartsOf(i, f);
    }
  }

  function Decimal(i: string, f: string): string {
    if f != "" then i + "." + f else i
  }

  lemma FormOf(s: string)
    requires WellFormatted(s)
    ensures IntegerPart(s) != "" && AllDigits(IntegerPart(s)) && AllDigits(FractionalPart(s))
    ensures s == Decimal(IntegerPart(s), FractionalPart(s))
  {
    if Dot(s) < |s| {
      assert s == s[..Dot(s)] + [s[Dot(s)]] + s[Dot(s) + 1..];
    }
  }
}
