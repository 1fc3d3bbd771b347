// address_helpers.py: dotted-quad strings to integers and back.
module AddressHelpers {
  import opened Runs

  // ---------- Python's str.split('.') and '.'.join ----------

  ghost predicate Dotless(s: string) {
    forall i :: 0 <= i < |s| ==> s[i] != '.'
  }

  function Split(s: string): (parts: seq<string>)
    ensures |parts| >= 1
    ensures forall i :: 0 <= i < |parts| ==> Dotless(parts[i])
  {
    if s == "" then [""]
    else if s[0] == '.' then [""] + Split(s[1..])
    else var rest := Split(s[1..]); [[s[0]] + rest[0]] + rest[1..]
  }

  function Join(parts: seq<string>): string {
    if |parts| == 0 then ""
    else if |parts| == 1 then parts[0]
    else parts[0] + "." + Join(parts[1..])
  }

  lemma {:induction false} JoinSplit(s: string)
    ensures Join(Split(s)) == s
  {
    if s != "" {
      JoinSplit(s[1..]);
      var rest := Split(s[1..]);
      if s[0] == '.' {
        assert Split(s)[1..] == rest;
      } else {
        assert Split(s)[1..] == rest[1..];
      }
    }
  }

  lemma {:induction false} SplitDotless(part: string)
    requires Dotless(part)
    ensures Split(part) == [part]
  {
    if part != "" {
      SplitDotless(part[1..]);
      assert [part[0]] + part[1..] == part;
    }
  }

  lemma {:induction false} SplitAtDot(part: string, rest: string)
    requires Dotless(part)
    ensures Split(part + "." + rest) == [part] + Split(rest)
    decreases part
  {
    var s := part + "." + rest;
    if part == "" {
      assert s[1..] == rest;
    } else {
      assert s[1..] == part[1..] + "." + rest;
      SplitAtDot(part[1..], rest);
      assert [part[0]] + part[1..] == part;
    }
  }

  lemma {:induction false} SplitJoin(parts: seq<string>)
    requires |parts| >= 1 && forall i :: 0 <= i < |parts| ==> Dotless(parts[i])
    ensures Split(Join(parts)) == parts
  {
    if |parts| == 1 {
      SplitDotless(parts[0]);
    } else {
      SplitJoin(parts[1..]);
      SplitAtDot(parts[0], Join(parts[1..]));
    }
  }

  // ---------- Python's str(k) for k >= 0 and int(s) on ASCII text ----------

  predicate IsDigit(c: char) {
    '0' <= c <= '9'
  }

  function Digit(d: nat): char
    requires d < 10
  {
    '0' + d as char
  }

  function Decimal(k: nat): string {
    if k < 10 then [Digit(k)] else Decimal(k / 10) + [Digit(k % 10)]
  }

  predicate IsSpace(c: char) {
    c in " \t\n\r" || '\U{0B}' <= c <= '\U{0C}' || '\U{1C}' <= c <= '\U{1F}'
  }

  function Strip(s: string): string {
    if s == "" then ""
    else if IsSpace(s[0]) then Strip(s[1..])
    else if IsSpace(s[|s| - 1]) then Strip(s[..|s| - 1])
    else s
  }

  // digit, then any number of digits, each possibly preceded by one underscore
  function ParseDigits(s: string): Option<nat> {
    if s == "" || !IsDigit(s[|s| - 1]) then None
    else
      var d := (s[|s| - 1] - '0') as nat;
      if |s| == 1 then Some(d)
      else
        var front := s[..|s| - 1];
        match ParseDigits(if front[|front| - 1] == '_' then front[..|front| - 1] else front)
        case None => None
        case Some(v) => Some(10 * v + d)
  }

  // None stands for ValueError.
  function ParseInt(text: string): Option<int> {
    var s := Strip(text);
    if s != "" && s[0] == '-' then
      match ParseDigits(s[1..])
      case None => None
      case Some(v) => var w: int := v; Some(-w)
    else if s != "" && s[0] == '+' then ParseDigits(s[1..])
    else ParseDigits(s)
  }

  lemma {:induction false} DecimalIsDigits(k: nat)
    ensures Decimal(k) != "" && forall i :: 0 <= i < |Decimal(k)| ==> IsDigit(Decimal(k)[i])
    ensures ParseDigits(Decimal(k)) == Some(k)
  {
    if k >= 10 {
      DecimalIsDigits(k / 10);
      var s := Decimal(k);
      assert s[..|s| - 1] == Decimal(k / 10);
      assert IsDigit(Decimal(k / 10)[|Decimal(k / 10)| - 1]);
    }
  }

  lemma StripDigits(s: string)
    requires s != "" && IsDigit(s[0]) && IsDigit(s[|s| - 1])
    ensures Strip(s) == s
  {
  }

  lemma ParseDecimal(k: nat)
    ensures Dotless(Decimal(k)) && ParseInt(Decimal(k)) == Some(k)
  {
    DecimalIsDigits(k);
    var s := Decimal(k);
    StripDigits(s);
  }

  // ---------- Python's integer operators ----------

  function Pow2(n: nat): nat {
    if n == 0 then 1 else 2 * Pow2(n - 1)
  }

  lemma Pow2Positive(n: nat)
    ensures Pow2(n) > 0
  {
  }

  function Shl(x: int, n: nat): int {
    x * Pow2(n)
  }

  // rounds down, also for negative integers
  function Shr(x: int, n: nat): int {
    Pow2Positive(n);
    x / Pow2(n)
  }

  function Abs(x: int): nat {
    if x < 0 then -x else x
  }

  // bitwise or on unbounded two's-complement integers
  function Or(a: int, b: int): int
    decreases Abs(a) + Abs(b)
  {
    if a == 0 then b
    else if b == 0 then a
    else if a == -1 || b == -1 then -1
    else 2 * Or(a / 2, b / 2) + (if a % 2 == 1 || b % 2 == 1 then 1 else 0)
  }

  // Below its zero bits an integer takes any natural number unchanged.
  lemma {:induction false} OrDisjoint(hi: int, lo: nat, n: nat)
    requires lo < Pow2(n)
    ensures Or(Shl(hi, n), lo) == Shl(hi, n) + lo
    decreases n
  {
    if n > 0 && lo != 0 && hi != 0 {
      var a := Shl(hi, n);
      assert a == 2 * Shl(hi, n - 1) by {
        assert hi * (2 * Pow2(n - 1)) == 2 * (hi * Pow2(n - 1));
      }
      Pow2Positive(n - 1);
      assert Shl(hi, n - 1) != 0;
      OrDisjoint(hi, lo / 2, n - 1);
      assert a / 2 == Shl(hi, n - 1) && a % 2 == 0;
    }
  }

  // ---------- int_ip_from_string and int_ip_to_string ----------

  function ParseAll(segments: seq<string>): Option<seq<int>> {
    if segments == [] then Some([])
    else match (ParseInt(segments[0]), ParseAll(segments[1..]))
      case (Some(v), Some(vs)) => Some([v] + vs)
      case (_, _) => None
  }

  function Reversed<T>(s: seq<T>): seq<T> {
    if s == [] then [] else Reversed(s[1..]) + [s[0]]
  }

  // functools.reduce with the function of line 21
  function Reduce(values: seq<int>, acc: int): int {
    if values == [] then acc else Reduce(values[1..], Or(Shl(acc, 8), values[0]))
  }

  function IntIpFromString(ipString: string): Option<int> {
    match ParseAll(Reversed(Split(ipString)))
    case None => None
    case Some(values) => Some(Reduce(values, 0))
  }

  function Octet(ipInt: int, shift: nat): nat {
    Shr(ipInt, shift) % 256
  }

  function IntIpToString(ipInt: int): string {
    Join([Decimal(Octet(ipInt, 0)), Decimal(Octet(ipInt, 8)), Decimal(Octet(ipInt, 16)), Decimal(Octet(ipInt, 24))])
  }

  // The number four octets stand for, least significant first.
  function Value(a: nat, b: nat, c: nat, d: nat): nat {
    a + 0x100 * b + 0x1_0000 * c + 0x100_0000 * d
  }

  function Quad(a: nat, b: nat, c: nat, d: nat): string {
    Join([Decimal(a), Decimal(b), Decimal(c), Decimal(d)])
  }

  lemma OrOctet(hi: nat, lo: nat)
    requires lo < 256
    ensures Or(Shl(hi, 8), lo) == 256 * hi + lo
  {
    assert Pow2(8) == 256;
    OrDisjoint(hi, lo, 8);
  }

  lemma ReduceOctet(hi: nat, lo: nat, rest: seq<int>)
    requires lo < 256
    ensures Reduce([lo as int] + rest, hi) == Reduce(rest, 256 * hi + lo)
  {
    OrOctet(hi, lo);
    assert ([lo as int] + rest)[1..] == rest;
  }

  lemma ReduceQuad(a: nat, b: nat, c: nat, d: nat)
    requires a < 256 && b < 256 && c < 256 && d < 256
    ensures Reduce([d, c, b, a], 0) == Value(a, b, c, d)
  {
    ReduceOctet(0, d, [c, b, a]);
    ReduceOctet(d, c, [b, a]);
    ReduceOctet(256 * d + c, b, [a]);
    ReduceOctet(256 * (256 * d + c) + b, a, []);
    assert [d as int, c, b, a] == [d as int] + [c, b, a] && [c as int, b, a] == [c as int] + [b, a];
    assert [b as int, a] == [b as int] + [a] && [a as int] == [a as int] + [];
  }

  lemma SplitQuad(a: nat, b: nat, c: nat, d: nat)
    ensures Split(Quad(a, b, c, d)) == [Decimal(a), Decimal(b), Decimal(c), Decimal(d)]
  {
    ParseDecimal(a);
    ParseDecimal(b);
    ParseDecimal(c);
    ParseDecimal(d);
    SplitJoin([Decimal(a), Decimal(b), Decimal(c), Decimal(d)]);
  }

  lemma ReversedQuad<T>(a: T, b: T, c: T, d: T)
    ensures Reversed([a, b, c, d]) == [d, c, b, a]
  {
    assert [a, b, c, d][1..] == [b, c, d] && [b, c, d][1..] == [c, d] && [c, d][1..] == [d];
    assert Reversed([d]) == [d];
    assert Reversed([c, d]) == [d, c];
    assert Reversed([b, c, d]) == [d, c, b];
  }

  function Decimals(ks: seq<nat>): seq<string> {
    if ks == [] then [] else [Decimal(ks[0])] + Decimals(ks[1..])
  }

  lemma {:induction false} ParseDecimals(ks: seq<nat>)
    ensures ParseAll(Decimals(ks)) == Some(ks)
  {
    if ks != [] {
      ParseDecimal(ks[0]);
      ParseDecimals(ks[1..]);
      assert Decimals(ks)[1..] == Decimals(ks[1..]);
      assert [ks[0]] + ks[1..] == ks;
    }
  }

  lemma DecimalsQuad(a: nat, b: nat, c: nat, d: nat)
    ensures Decimals([a, b, c, d]) == [Decimal(a), Decimal(b), Decimal(c), Decimal(d)]
  {
    assert [a, b, c, d][1..] == [b, c, d] && [b, c, d][1..] == [c, d] && [c, d][1..] == [d];
    assert Decimals([d]) == [Decimal(d)];
    assert Decimals([c, d]) == [Decimal(c), Decimal(d)];
    assert Decimals([b, c, d]) == [Decimal(b), Decimal(c), Decimal(d)];
  }

  lemma ParseQuad(a: nat, b: nat, c: nat, d: nat)
    requires a < 256 && b < 256 && c < 256 && d < 256
    ensures IntIpFromString(Quad(a, b, c, d)) == Some(Value(a, b, c, d))
  {
    SplitQuad(a, b, c, d);
    ReversedQuad(Decimal(a), Decimal(b), Decimal(c), Decimal(d));
    DecimalsQuad(d, c, b, a);
    ParseDecimals([d, c, b, a]);
    ReduceQuad(a, b, c, d);
  }

  lemma NestedShifts(n: int)
    ensures n / 0x1_0000 == n / 0x100 / 0x100
    ensures n / 0x100_0000 == n / 0x1_0000 / 0x100
    ensures n / 0x1_0000_0000 == n / 0x100_0000 / 0x100
  {
  }

  lemma OctetsOf(n: int)
    ensures Octet(n, 0) == n % 256
    ensures Octet(n, 8) == n / 0x100 % 256
    ensures Octet(n, 16) == n / 0x1_0000 % 256
    ensures Octet(n, 24) == n / 0x100_0000 % 256
  {
    assert Pow2(0) == 1 && Pow2(8) == 0x100 && Pow2(16) == 0x1_0000 && Pow2(24) == 0x100_0000;
    assert Shr(n, 0) == n && Shr(n, 8) == n / 0x100 && Shr(n, 16) == n / 0x1_0000 && Shr(n, 24) == n / 0x100_0000;
  }

  lemma ValueOfOctets(n: int)
    ensures Value(n % 256, n / 0x100 % 256, n / 0x1_0000 % 256, n / 0x100_0000 % 256) == n % 0x1_0000_0000
  {
    NestedShifts(n);
    var q1, q2, q3 := n / 0x100, n / 0x1_0000, n / 0x100_0000;
    assert n == 0x100 * q1 + n % 256 && q1 == 0x100 * q2 + q1 % 256 && q2 == 0x100 * q3 + q2 % 256;
    assert q3 == 0x100 * (n / 0x1_0000_0000) + q3 % 256;
  }

  lemma ShiftsOfValue(a: nat, b: nat, c: nat, d: nat)
    requires a < 256 && b < 256 && c < 256 && d < 256
    ensures var v := Value(a, b, c, d);
            && v % 256 == a && v / 0x100 % 256 == b && v / 0x1_0000 % 256 == c && v / 0x100_0000 % 256 == d
  {
    var v := Value(a, b, c, d);
    NestedShifts(v);
    assert v / 0x100 == b + 0x100 * c + 0x1_0000 * d;
    assert v / 0x1_0000 == c + 0x100 * d;
    assert v / 0x100_0000 == d;
  }

  lemma OctetsOfValue(a: nat, b: nat, c: nat, d: nat)
    requires a < 256 && b < 256 && c < 256 && d < 256
    ensures IntIpToString(Value(a, b, c, d)) == Quad(a, b, c, d)
  {
    OctetsOf(Value(a, b, c, d));
    ShiftsOfValue(a, b, c, d);
  }

  // Parsing what was printed gives the integer modulo 2^32, for every integer.
  lemma ParsePrinted(n: int)
    ensures IntIpFromString(IntIpToString(n)) == Some(n % 0x1_0000_0000)
  {
    OctetsOf(n);
    ValueOfOctets(n);
    ParseQuad(Octet(n, 0), Octet(n, 8), Octet(n, 16), Octet(n, 24));
  }

  // dec-octet, section 3.2.2 of RFC 3986
  predicate IsDecOctet(s: string) {
    || (|s| == 1 && IsDigit(s[0]))
    || (|s| == 2 && '1' <= s[0] <= '9' && IsDigit(s[1]))
    || (|s| == 3 && s[0] == '1' && IsDigit(s[1]) && IsDigit(s[2]))
    || (|s| == 3 && s[0] == '2' && '0' <= s[1] <= '4' && IsDigit(s[2]))
    || (|s| == 3 && s[0] == '2' && s[1] == '5' && '0' <= s[2] <= '5')
  }

  // IPv4address, section 3.2.2 of RFC 3986
  predicate IsIPv4Address(s: string) {
    var parts := Split(s);
    |parts| == 4 && forall i :: 0 <= i < 4 ==> IsDecOctet(parts[i])
  }

  lemma DecimalIsDecOctet(k: nat)
    requires k < 256
    ensures IsDecOctet(Decimal(k))
  {
    if k >= 100 {
      assert Decimal(k / 10) == [Digit(k / 100), Digit(k / 10 % 10)];
      assert Decimal(k) == [Digit(k / 100), Digit(k / 10 % 10), Digit(k % 10)];
    } else if k >= 10 {
      assert Decimal(k) == [Digit(k / 10), Digit(k % 10)];
    }
  }

  lemma DecOctetIsDecimal(s: string) returns (k: nat)
    requires IsDecOctet(s)
    ensures k < 256 && s == Decimal(k)
  {
    var d0 := (s[0] - '0') as nat;
    if |s| == 1 {
      k := d0;
    } else if |s| == 2 {
      k := 10 * d0 + (s[1] - '0') as nat;
      assert Decimal(k) == [Digit(k / 10), Digit(k % 10)];
    } else {
      var d1, d2 := (s[1] - '0') as nat, (s[2] - '0') as nat;
      k := 100 * d0 + 10 * d1 + d2;
      assert k / 10 == 10 * d0 + d1;
      assert Decimal(k / 10) == [Digit(d0), Digit(d1)];
      assert Decimal(k) == [Digit(d0), Digit(d1), Digit(d2)];
    }
  }

  // Printing what was parsed gives the string back exactly for the canonical dotted quads.
  lemma PrintParsed(s: string)
    ensures (IntIpFromString(s).Some? && IntIpToString(IntIpFromString(s).value) == s) <==> IsIPv4Address(s)
  {
    if IsIPv4Address(s) {
      var parts := Split(s);
      var a := DecOctetIsDecimal(parts[0]);
      var b := DecOctetIsDecimal(parts[1]);
      var c := DecOctetIsDecimal(parts[2]);
      var d := DecOctetIsDecimal(parts[3]);
      assert parts == [Decimal(a), Decimal(b), Decimal(c), Decimal(d)];
      JoinSplit(s);
      ParseQuad(a, b, c, d);
      OctetsOfValue(a, b, c, d);
    }
    if IntIpFromString(s).Some? && IntIpToString(IntIpFromString(s).value) == s {
      var n := IntIpFromString(s).value;
      SplitQuad(Octet(n, 0), Octet(n, 8), Octet(n, 16), Octet(n, 24));
      DecimalIsDecOctet(Octet(n, 0));
      DecimalIsDecOctet(Octet(n, 8));
      DecimalIsDecOctet(Octet(n, 16));
      DecimalIsDecOctet(Octet(n, 24));
    }
  }

  // ---------- strings other than four octets ----------

  // Octets in base 256, least significant first.
  function Sum(ks: seq<nat>): nat {
    if ks == [] then 0 else ks[0] + 256 * Sum(ks[1..])
  }

  lemma {:induction false} ReversedAppend<T>(s: seq<T>, t: T)
    ensures Reversed(s + [t]) == [t] + Reversed(s)
  {
    if s == [] {
      assert [t][1..] == [] && [] + [t] == [t] && Reversed([t]) == Reversed([]) + [t];
    } else {
      assert (s + [t])[1..] == s[1..] + [t];
      ReversedAppend(s[1..], t);
    }
  }

  lemma {:induction false} ReversedMap(ks: seq<nat>)
    ensures Reversed(Decimals(ks)) == Decimals(Reversed(ks))
  {
    if ks != [] {
      ReversedMap(ks[1..]);
      assert Decimals(ks)[1..] == Decimals(ks[1..]);
      DecimalsAppend(Reversed(ks[1..]), ks[0]);
    }
  }

  lemma {:induction false} DecimalsAppend(ks: seq<nat>, k: nat)
    ensures Decimals(ks + [k]) == Decimals(ks) + [Decimal(k)]
  {
    if ks != [] {
      assert (ks + [k])[1..] == ks[1..] + [k];
      DecimalsAppend(ks[1..], k);
    }
  }

  lemma {:induction false} DecimalsAreDotless(ks: seq<nat>)
    ensures |Decimals(ks)| == |ks| && forall i :: 0 <= i < |ks| ==> Dotless(Decimals(ks)[i])
  {
    if ks != [] {
      ParseDecimal(ks[0]);
      DecimalsAreDotless(ks[1..]);
    }
  }

  lemma {:induction false} ReduceReversed(ks: seq<nat>, more: seq<nat>, acc: int)
    requires forall i :: 0 <= i < |ks| ==> ks[i] < 256
    requires acc == 0
    ensures Reduce(Reversed(ks) + more, acc) == Reduce(more, Sum(ks))
  {
    if ks == [] {
      assert Reversed(ks) + more == more;
    } else {
      var rest := ks[1..];
      ReduceReversed(rest, [ks[0]] + more, acc);
      ReduceOctet(Sum(rest), ks[0], more);
      assert Reversed(ks) + more == Reversed(rest) + ([ks[0]] + more);
    }
  }

  // Any number of dot-separated octets stands for their number in base 256, the first segment least
  // significant.
  lemma ParseOctets(ks: seq<nat>)
    requires ks != [] && forall i :: 0 <= i < |ks| ==> ks[i] < 256
    ensures IntIpFromString(Join(Decimals(ks))) == Some(Sum(ks))
  {
    DecimalsAreDotless(ks);
    SplitJoin(Decimals(ks));
    ReversedMap(ks);
    ParseDecimals(Reversed(ks));
    ReduceReversed(ks, [], 0);
    assert Reversed(ks) + [] == Reversed(ks);
  }

  lemma {:induction false} ParseAllFails(segments: seq<string>)
    ensures ParseAll(segments).None? <==> exists i :: 0 <= i < |segments| && ParseInt(segments[i]).None?
  {
    if segments != [] {
      ParseAllFails(segments[1..]);
      assert forall i :: 0 < i < |segments| ==> segments[i] == segments[1..][i - 1];
    }
  }

  lemma {:induction false} ReversedIndex<T>(s: seq<T>, k: nat)
    requires k < |s|
    ensures |Reversed(s)| == |s| && Reversed(s)[|s| - 1 - k] == s[k]
  {
    if |s| > 1 {
      ReversedIndex(s[1..], if k > 0 then k - 1 else 0);
    }
  }

  // ValueError is raised exactly for a segment that is not an integer.
  lemma ParseFails(s: string)
    ensures IntIpFromString(s).None? <==> exists i :: 0 <= i < |Split(s)| && ParseInt(Split(s)[i]).None?
  {
    var parts := Split(s);
    ParseAllFails(Reversed(parts));
    ReversedIndex(parts, 0);
    if i :| 0 <= i < |parts| && ParseInt(parts[i]).None? {
      ReversedIndex(parts, i);
      assert ParseInt(Reversed(parts)[|parts| - 1 - i]).None?;
    }
    if j :| 0 <= j < |parts| && ParseInt(Reversed(parts)[j]).None? {
      var i := |parts| - 1 - j;
      ReversedIndex(parts, i);
      assert |parts| - 1 - i == j && parts[i] == Reversed(parts)[j];
      assert ParseInt(Split(s)[i]).None?;
    }
  }

  // int() reads an optional sign before the digits.
  lemma ParseSigned(k: nat)
    ensures ParseInt("-" + Decimal(k)) == Some(-(k as int))
    ensures ParseInt("+" + Decimal(k)) == Some(k)
  {
    DecimalIsDigits(k);
    SignIsKept("-", k);
    SignIsKept("+", k);
  }

  lemma SignIsKept(sign: string, k: nat)
    requires sign in {"-", "+"}
    ensures Strip(sign + Decimal(k)) == sign + Decimal(k) && (sign + Decimal(k))[1..] == Decimal(k)
    ensures ParseDigits(Decimal(k)) == Some(k)
  {
    DecimalIsDigits(k);
    var s := sign + Decimal(k);
    assert s[|s| - 1] == Decimal(k)[|Decimal(k)| - 1];
  }

  // White space around a segment is ignored.
  lemma ParseSpaced(c: char, k: nat)
    requires IsSpace(c)
    ensures ParseInt([c] + Decimal(k)) == Some(k) && ParseInt(Decimal(k) + [c]) == Some(k)
  {
    DecimalIsDigits(k);
    ParseDecimal(k);
    var s := Decimal(k);
    StripDigits(s);
    assert ([c] + s)[1..] == s && (s + [c])[..|s|] == s;
    assert Strip([c] + s) == Strip(s);
    assert Strip(s + [c]) == Strip(s);
  }
}
