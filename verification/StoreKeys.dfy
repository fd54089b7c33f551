/**
 The text keys under which the state machine keeps its records. All of them share one
 key-value store, so they must not collide.
 */
module StoreKeys {
  import opened Bytes
  import opened Records
  import DecimalAmounts

  datatype StoreKey =
    | AdminKey
    | InitializationKey
    | WritersLengthKey
    | LicenseCountKey
    | WriterIndexKey(index: nat)
    | LicenseIndexKey(license: nat)
    | WriterAddressKey(writer: Key)
    | DeploymentKey(bootstrap: Key)
    | NodeKey(address: Address)
    | TxKey(hash: Key)

  function HexDigit(d: nat): char
    requires d < 16
  {
    "0123456789abcdef"[d]
  }

  /** toString('hex'). */
  function Hex(b: seq<byte>): (s: string)
    ensures |s| == 2 * |b|
  {
    if b == [] then "" else [HexDigit(b[0] / 16), HexDigit(b[0] % 16)] + Hex(b[1..])
  }

  function Text(k: StoreKey): string {
    match k
    case AdminKey => "admin"
    case InitializationKey => "init"
    case WritersLengthKey => "wrl"
    case LicenseCountKey => "lc"
    case WriterIndexKey(n) => "wri/" + DecimalAmounts.Digits(n)
    case LicenseIndexKey(n) => "li/" + DecimalAmounts.Digits(n)
    case WriterAddressKey(w) => "wka/" + Hex(w)
    case DeploymentKey(b) => "deployment/" + Hex(b)
    case NodeKey(a) => a
    case TxKey(h) => Hex(h)
  }

  predicate IsHexChar(c: char) {
    '0' <= c <= '9' || 'a' <= c <= 'f'
  }

  /** Addresses begin with the network's prefix and a one. The first letter of a prefix, such as the
      t of "trac", is neither a hex digit nor a first letter of the other keys. */
  predicate IsPrefix(hrp: string) {
    hrp != "" && !IsHexChar(hrp[0]) && hrp[0] !in {'i', 'l', 'w'}
  }

  predicate IsAddress(hrp: string, a: Address) {
    hrp + "1" <= a
  }

  predicate WellFormedKey(hrp: string, k: StoreKey) {
    k.NodeKey? ==> IsAddress(hrp, k.address)
  }

  lemma HexDigitIsInjective(d: nat, e: nat)
    requires d < 16 && e < 16 && HexDigit(d) == HexDigit(e)
    ensures d == e
  {
    var digits := "0123456789abcdef";
    assert forall i {:trigger digits[i]} :: 0 <= i < 16 ==>
             digits[i] as int == if i < 10 then '0' as int + i else 'a' as int + i - 10;
  }

  lemma {:induction false} HexIsInjective(a: seq<byte>, b: seq<byte>)
    requires |a| == |b| && Hex(a) == Hex(b)
    ensures a == b
  {
    if a != [] {
      hide HexDigit;
      assert Hex(a)[0] == Hex(b)[0] && Hex(a)[1] == Hex(b)[1];
      HexDigitIsInjective(a[0] / 16, b[0] / 16);
      HexDigitIsInjective(a[0] % 16, b[0] % 16);
      assert Hex(a)[2..] == Hex(a[1..]) && Hex(b)[2..] == Hex(b[1..]);
      HexIsInjective(a[1..], b[1..]);
      assert a == [a[0]] + a[1..] && b == [b[0]] + b[1..];
    }
  }

  lemma {:induction false} HexChars(b: seq<byte>)
    ensures forall i :: 0 <= i < |Hex(b)| ==> IsHexChar(Hex(b)[i])
  {
    if b != [] { HexChars(b[1..]); }
  }

  /** The kind of a key, read off its text. */
  function KindOf(hrp: string, t: string): nat {
    if t == "admin" then 0
    else if t == "init" then 1
    else if t == "wrl" then 2
    else if t == "lc" then 3
    else if "wri/" <= t then 4
    else if "li/" <= t then 5
    else if "wka/" <= t then 6
    else if "deployment/" <= t then 7
    else if hrp <= t then 8
    else 9
  }

  function Kind(k: StoreKey): nat {
    match k
    case AdminKey => 0
    case InitializationKey => 1
    case WritersLengthKey => 2
    case LicenseCountKey => 3
    case WriterIndexKey(_) => 4
    case LicenseIndexKey(_) => 5
    case WriterAddressKey(_) => 6
    case DeploymentKey(_) => 7
    case NodeKey(_) => 8
    case TxKey(_) => 9
  }

  lemma HashText(hrp: string, h: Key)
    requires IsPrefix(hrp)
    ensures KindOf(hrp, Hex(h)) == 9
  {
    var t := Hex(h);
    HexChars(h);
    assert |t| == 64 && IsHexChar(t[0]) && IsHexChar(t[1]) && IsHexChar(t[10]);
    assert "deployment/"[10] == '/' && "wri/"[0] == 'w' && "wka/"[0] == 'w' && "li/"[0] == 'l';
    hide Hex;
  }

  lemma AddressText(hrp: string, a: Address)
    requires IsPrefix(hrp) && IsAddress(hrp, a)
    ensures KindOf(hrp, a) == 8
  {
    assert hrp <= hrp + "1" <= a;
    assert a[0] == hrp[0];
    assert "admin"[0] == 'a' && "init"[0] == 'i' && "wrl"[0] == 'w' && "lc"[0] == 'l';
    assert "deployment/"[0] == 'd' && "wri/"[0] == 'w' && "wka/"[0] == 'w' && "li/"[0] == 'l';
  }

  lemma MarkedText(hrp: string, mark: string, rest: string)
    requires mark in {"wri/", "li/", "wka/", "deployment/"}
    ensures KindOf(hrp, mark + rest)
         == if mark == "wri/" then 4 else if mark == "li/" then 5 else if mark == "wka/" then 6 else 7
  {
    var t := mark + rest;
    assert mark <= t && t[0] == mark[0] && t[1] == mark[1] && t[2] == mark[2];
    assert "wri/"[1] == 'r' && "wka/"[1] == 'k' && "li/"[0] == 'l' && "deployment/"[0] == 'd';
    assert "wri/"[3] == '/' && "wka/"[3] == '/' && "li/"[2] == '/';
    assert mark == "wri/" || mark == "wka/" ==> t[3] == mark[3];
    assert mark != "wri/" ==> !("wri/" <= t) by { assert "wri/" <= t ==> t[0] == 'w' && t[1] == 'r'; }
    assert mark == "wka/" || mark == "deployment/" ==> !("li/" <= t) by { assert "li/" <= t ==> t[0] == 'l'; }
    assert mark == "deployment/" ==> !("wka/" <= t) by { assert "wka/" <= t ==> t[0] == 'w'; }
  }

  lemma TextTellsKind(hrp: string, k: StoreKey)
    requires IsPrefix(hrp) && WellFormedKey(hrp, k)
    ensures KindOf(hrp, Text(k)) == Kind(k)
  {
    hide KindOf, Hex;
    match k
    case WriterIndexKey(n) => MarkedText(hrp, "wri/", DecimalAmounts.Digits(n));
    case LicenseIndexKey(n) => MarkedText(hrp, "li/", DecimalAmounts.Digits(n));
    case WriterAddressKey(w) => MarkedText(hrp, "wka/", Hex(w));
    case DeploymentKey(b) => MarkedText(hrp, "deployment/", Hex(b));
    case NodeKey(a) => AddressText(hrp, a);
    case TxKey(h) => HashText(hrp, h);
    case _ => SingleText(hrp);
  }

  lemma SingleText(hrp: string)
    ensures KindOf(hrp, "admin") == 0 && KindOf(hrp, "init") == 1 && KindOf(hrp, "wrl") == 2 && KindOf(hrp, "lc") == 3
  {
    assert "init"[0] == 'i' && "wrl"[0] == 'w' && "lc"[0] == 'l' && "admin"[0] == 'a';
    assert |"wrl"| == 3 && |"lc"| == 2;
  }

  /** Two records never share a key. */
  lemma KeysAreInjective(hrp: string, x: StoreKey, y: StoreKey)
    requires IsPrefix(hrp) && WellFormedKey(hrp, x) && WellFormedKey(hrp, y)
    ensures Text(x) == Text(y) <==> x == y
  {
    if Text(x) == Text(y) {
      TextTellsKind(hrp, x);
      TextTellsKind(hrp, y);
      hide Hex, KindOf, DecimalAmounts.Digits;
      match x {
        case WriterIndexKey(n) => assert Text(x)[4..] == DecimalAmounts.Digits(n) && Text(y)[4..] == DecimalAmounts.Digits(y.index);
        case LicenseIndexKey(n) => assert Text(x)[3..] == DecimalAmounts.Digits(n) && Text(y)[3..] == DecimalAmounts.Digits(y.license);
        case WriterAddressKey(w) =>
          assert Text(x)[4..] == Hex(w) && Text(y)[4..] == Hex(y.writer);
          HexIsInjective(w, y.writer);
        case DeploymentKey(b) =>
          assert Text(x)[11..] == Hex(b) && Text(y)[11..] == Hex(y.bootstrap);
          HexIsInjective(b, y.bootstrap);
        case TxKey(h) => HexIsInjective(h, y.hash);
        case _ =>
      }
    }
  }

  /** The texts themselves: the fixed ones, and the prefixes. */
  lemma Texts(n: nat, k: Key)
    ensures Text(AdminKey) == "admin" && Text(InitializationKey) == "init"
    ensures Text(WritersLengthKey) == "wrl" && Text(LicenseCountKey) == "lc"
    ensures "wri/" <= Text(WriterIndexKey(n)) && "li/" <= Text(LicenseIndexKey(n))
    ensures "wka/" <= Text(WriterAddressKey(k)) && "deployment/" <= Text(DeploymentKey(k))
  {
    hide Hex;
  }

  /** Two hexadecimal digits for each byte, the high one first. */
  lemma {:induction false} HexAt(b: seq<byte>, i: nat)
    requires i < |b|
    ensures HexValue(Hex(b)[2 * i]) == b[i] as int / 16 && HexValue(Hex(b)[2 * i + 1]) == b[i] as int % 16
  {
    HexDigitValue(b[0] as int / 16);
    HexDigitValue(b[0] as int % 16);
    hide HexDigit, HexValue;
    if i > 0 {
      HexAt(b[1..], i - 1);
      assert Hex(b)[2..] == Hex(b[1..]);
      assert Hex(b)[2 * i] == Hex(b)[2..][2 * (i - 1)] && Hex(b)[2 * i + 1] == Hex(b)[2..][2 * (i - 1) + 1];
    }
  }

  function HexValue(c: char): int {
    if '0' <= c <= '9' then c as int - '0' as int else c as int - 'a' as int + 10
  }

  lemma HexDigitValue(d: nat)
    requires d < 16
    ensures HexValue(HexDigit(d)) == d
  {
    var digits := "0123456789abcdef";
    assert forall i {:trigger digits[i]} :: 0 <= i < 16 ==>
             digits[i] as int == if i < 10 then '0' as int + i else 'a' as int + i - 10;
  }
}
