/** Kotlin string behaviour the core relies on: `String.compareTo` (used by
    `sortedBy { it.name }`), `String.toInt()` and `Int.toString()`, and the
    space padding of `padEnd`. */
module Strings {

  datatype Option<+T> = None | Some(value: T) {
    function GetOr(default: T): T {
      match this
      case Some(v) => v
      case None => default
    }
  }

  /** The range of a Kotlin `Int`. */
  const IntMin: int := -0x8000_0000
  const IntMax: int := 0x7fff_ffff

  predicate InIntRange(x: int) {
    IntMin <= x <= IntMax
  }

  // ---------------------------------------------------------------------------
  // Lexicographic order of `String.compareTo`

  /** `a <= b` in Kotlin's string order: the first differing character decides,
      and a proper prefix comes first. */
  predicate StrLe(a: string, b: string)
    decreases |a|
  {
    if a == [] then true
    else if b == [] then false
    else if a[0] != b[0] then a[0] < b[0]
    else StrLe(a[1..], b[1..])
  }

  lemma {:induction false} StrLeTotal(a: string, b: string)
    ensures StrLe(a, b) || StrLe(b, a)
    decreases |a|
  {
    if a != [] && b != [] && a[0] == b[0] {
      StrLeTotal(a[1..], b[1..]);
    }
  }

  lemma {:induction false} StrLeTransitive(a: string, b: string, c: string)
    requires StrLe(a, b) && StrLe(b, c)
    ensures StrLe(a, c)
    decreases |a|
  {
    if a != [] && b != [] && c != [] && a[0] == b[0] && b[0] == c[0] {
      StrLeTransitive(a[1..], b[1..], c[1..]);
    }
  }

  lemma {:induction false} StrLeAntisymmetric(a: string, b: string)
    requires StrLe(a, b) && StrLe(b, a)
    ensures a == b
    decreases |a|
  {
    if a != [] && b != [] && a[0] == b[0] {
      StrLeAntisymmetric(a[1..], b[1..]);
      assert a == [a[0]] + a[1..] && b == [b[0]] + b[1..];
    }
  }

  // ---------------------------------------------------------------------------
  // Padding

  /** `"".padEnd(n, ' ')` for `n >= 0`. */
  function Spaces(n: nat): (r: string)
    ensures |r| == n
    ensures forall i :: 0 <= i < n ==> r[i] == ' '
  {
    seq(n, _ => ' ')
  }

  // ---------------------------------------------------------------------------
  // Decimal integers: `String.toInt()` and `Int.toString()`

  predicate IsDigit(c: char) {
    '0' <= c <= '9'
  }

  predicate AllDigits(s: string) {
    forall i :: 0 <= i < |s| ==> IsDigit(s[i])
  }

  /** The value of a string of decimal digits, most significant first. */
  function DigitsValue(s: string): nat
    requires AllDigits(s)
  {
    if s == [] then 0
    else DigitsValue(s[..|s| - 1]) * 10 + (s[|s| - 1] as int - '0' as int)
  }

  /** The digits of `s`, after its sign if it has one. */
  function Unsigned(s: string): string {
    if s != [] && (s[0] == '-' || s[0] == '+') then s[1..] else s
  }

  /** The value the digits of `s` denote, negated after a `-` sign. */
  function SignedValue(s: string): int
    requires AllDigits(Unsigned(s))
  {
    if s != [] && s[0] == '-' then -(DigitsValue(Unsigned(s)) as int) else DigitsValue(Unsigned(s))
  }

  /** `s.toIntOrNull()`: an optional `-` or `+` sign, then at least one digit,
      and a value within the 32-bit range; anything else is `None` (where
      `toInt()` throws `NumberFormatException`). */
  function ParseInt(s: string): (r: Option<int>)
    ensures r.Some? ==> InIntRange(r.value)
    ensures r.Some? ==> s != [] && AllDigits(if s[0] == '-' || s[0] == '+' then s[1..] else s)
    ensures s == [] || s == "-" || s == "+" ==> r == None
    // it succeeds exactly on a well-formed text whose value is an `Int`,
    // and gives that value
    ensures r.Some? <==> Unsigned(s) != [] && AllDigits(Unsigned(s)) && InIntRange(SignedValue(s))
    ensures r.Some? ==> r.value == SignedValue(s)
  {
    if s == [] then None
    else
      var digits := if s[0] == '-' || s[0] == '+' then s[1..] else s;
      if digits == [] || !AllDigits(digits) then None
      else
        var n: int := DigitsValue(digits);
        var v := if s[0] == '-' then -n else n;
        if InIntRange(v) then Some(v) else None
  }

  /** Leading zeros do not change the value. */
  lemma {:induction false} LeadingZeroValue(d: string)
    requires AllDigits(d)
    ensures AllDigits("0" + d) && DigitsValue("0" + d) == DigitsValue(d)
    decreases |d|
  {
    var z := "0" + d;
    assert AllDigits(z) by {
      forall i | 0 <= i < |z|
        ensures IsDigit(z[i])
      {
        if i > 0 {
          assert z[i] == d[i - 1];
        }
      }
    }
    if d != [] {
      LeadingZeroValue(d[..|d| - 1]);
      assert z[..|z| - 1] == "0" + d[..|d| - 1];
    }
  }

  /** `toInt` reads a number with a leading zero, or with a `+` sign, as the
      number itself, and with a `-` sign as its negation when that is an
      `Int`. */
  lemma ParseIntDigits(d: string)
    requires d != [] && AllDigits(d)
    ensures ParseInt("0" + d) == ParseInt(d)
    ensures ParseInt("+" + d) == ParseInt(d)
    ensures ParseInt("-" + d) == if InIntRange(-(DigitsValue(d) as int)) then Some(-(DigitsValue(d) as int)) else None
    ensures ParseInt(d) == if InIntRange(DigitsValue(d)) then Some(DigitsValue(d)) else None
  {
    LeadingZeroValue(d);
    ParseIntPlus(d);
    ParseIntMinus(d);
  }

  lemma ParseIntPlus(d: string)
    requires d != [] && AllDigits(d)
    ensures ParseInt("+" + d) == ParseInt(d)
  {
    var plus := "+" + d;
    assert plus[0] == '+' && plus[1..] == d;
  }

  lemma ParseIntMinus(d: string)
    requires d != [] && AllDigits(d)
    ensures ParseInt("-" + d) == if InIntRange(-(DigitsValue(d) as int)) then Some(-(DigitsValue(d) as int)) else None
  {
    var minus := "-" + d;
    assert minus[0] == '-' && minus[1..] == d;
  }

  function DigitChar(d: nat): (c: char)
    requires d < 10
    ensures IsDigit(c) && c as int - '0' as int == d
  {
    ('0' as int + d) as char
  }

  /** Decimal digits of `n` without leading zeros. */
  function NatToString(n: nat): (r: string)
    ensures r != [] && AllDigits(r)
    decreases n
  {
    if n < 10 then [DigitChar(n)] else NatToString(n / 10) + [DigitChar(n % 10)]
  }

  /** `x.toString()` for a Kotlin `Int`. */
  function IntToString(x: int): (r: string)
    ensures r != []
  {
    if x < 0 then "-" + NatToString(-x) else NatToString(x)
  }

  lemma {:induction false} NatToStringValue(n: nat)
    ensures DigitsValue(NatToString(n)) == n
    decreases n
  {
    if n >= 10 {
      var s := NatToString(n);
      NatToStringValue(n / 10);
      assert s[..|s| - 1] == NatToString(n / 10);
    }
  }

  /** `x.toString().toInt() == x` for every `Int`. */
  lemma IntToStringRoundTrip(x: int)
    requires InIntRange(x)
    ensures ParseInt(IntToString(x)) == Some(x)
  {
    var s := IntToString(x);
    if x < 0 {
      NatToStringValue(-x);
      assert s[1..] == NatToString(-x);
    } else {
      NatToStringValue(x);
      assert IsDigit(s[0]);
    }
  }

  /** Two different `Int`s never print the same. */
  lemma IntToStringInjective(x: int, y: int)
    requires InIntRange(x) && InIntRange(y)
    requires IntToString(x) == IntToString(y)
    ensures x == y
  {
    IntToStringRoundTrip(x);
    IntToStringRoundTrip(y);
  }
}
