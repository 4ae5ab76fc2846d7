/**
 * The few pieces of JavaScript's string handling the map relies on:
 * `split` with a one-character separator, `split(/\r\n|\r|\n/)`,
 * `parseInt` on a string and on a number, and `Number.toString(16)`.
 */
module Strings {
  import opened Wrappers

  // ---------------------------------------------------------------------
  // split with a one-character separator
  // ---------------------------------------------------------------------

  /** `s.split(sep)`: the pieces between the separators, in order; "" gives [""]. */
  function Split(s: string, sep: char): (r: seq<string>)
    ensures |r| >= 1
    ensures forall i :: 0 <= i < |r| ==> sep !in r[i]
    decreases |s|
  {
    if s == [] then [[]]
    else
      var rest := Split(s[1..], sep);
      if s[0] == sep then [[]] + rest
      else [[s[0]] + rest[0]] + rest[1..]
  }

  /** `pieces.join(sep)`. */
  function Join(pieces: seq<string>, sep: char): string
    requires |pieces| >= 1
    decreases |pieces|
  {
    if |pieces| == 1 then pieces[0] else pieces[0] + [sep] + Join(pieces[1..], sep)
  }

  /** Splitting and joining again gives the string back. */
  lemma {:induction false} JoinSplit(s: string, sep: char)
    ensures Join(Split(s, sep), sep) == s
    decreases |s|
  {
    if s != [] {
      var rest := Split(s[1..], sep);
      JoinSplit(s[1..], sep);
      if s[0] == sep {
        assert Split(s, sep)[1..] == rest;
      } else {
        var r := Split(s, sep);
        if |rest| == 1 {
          assert r == [[s[0]] + rest[0]];
        } else {
          assert r[1..] == rest[1..];
          assert Join(r, sep) == [s[0]] + rest[0] + [sep] + Join(rest[1..], sep);
        }
      }
    }
  }

  /** Splitting a string with no separator gives the string alone. */
  lemma {:induction false} SplitWithoutSeparator(s: string, sep: char)
    requires sep !in s
    ensures Split(s, sep) == [s]
    decreases |s|
  {
    if s != [] {
      SplitWithoutSeparator(s[1..], sep);
      assert [s[0]] + s[1..] == s;
    }
  }

  /** Splitting at the first separator: the head is the first piece, the tail splits on its own. */
  lemma {:induction false} SplitAtSeparator(a: string, sep: char, b: string)
    requires sep !in a
    ensures Split(a + [sep] + b, sep) == [a] + Split(b, sep)
    decreases |a|
  {
    if a == [] {
      assert a + [sep] + b == [sep] + b;
      assert ([sep] + b)[1..] == b;
    } else {
      assert (a + [sep] + b)[1..] == a[1..] + [sep] + b;
      SplitAtSeparator(a[1..], sep, b);
      assert [a[0]] + a[1..] == a;
    }
  }

  // ---------------------------------------------------------------------
  // split(/\r\n|\r|\n/g)
  // ---------------------------------------------------------------------

  predicate IsBreak(c: char) { c == '\r' || c == '\n' }

  /**
   * `s.split(/\r\n|\r|\n/g)`: the regular expression tries "\r\n" first, so
   * a carriage return followed by a line feed is one break, not two.
   */
  function Lines(s: string): (r: seq<string>)
    ensures |r| >= 1
    ensures forall i, j :: 0 <= i < |r| && 0 <= j < |r[i]| ==> !IsBreak(r[i][j])
    decreases |s|
  {
    if s == [] then [[]]
    else if |s| >= 2 && s[0] == '\r' && s[1] == '\n' then [[]] + Lines(s[2..])
    else if IsBreak(s[0]) then [[]] + Lines(s[1..])
    else
      var rest := Lines(s[1..]);
      [[s[0]] + rest[0]] + rest[1..]
  }

  /** Every "\r\n" and every lone "\r" rewritten as "\n". */
  function Normalized(s: string): (r: string)
    ensures '\r' !in r
    decreases |s|
  {
    if s == [] then []
    else if |s| >= 2 && s[0] == '\r' && s[1] == '\n' then "\n" + Normalized(s[2..])
    else if s[0] == '\r' then "\n" + Normalized(s[1..])
    else [s[0]] + Normalized(s[1..])
  }

  /** Splitting into lines is splitting the normalized text on line feeds: each "\r\n" is a single break. */
  lemma {:induction false} LinesSplitNormalized(s: string)
    ensures Lines(s) == Split(Normalized(s), '\n')
    decreases |s|
  {
    if s == [] {
    } else if |s| >= 2 && s[0] == '\r' && s[1] == '\n' {
      LinesSplitNormalized(s[2..]);
      assert Normalized(s)[1..] == Normalized(s[2..]);
    } else if IsBreak(s[0]) {
      LinesSplitNormalized(s[1..]);
      assert Normalized(s)[1..] == Normalized(s[1..]);
    } else {
      LinesSplitNormalized(s[1..]);
      assert Normalized(s)[1..] == Normalized(s[1..]);
    }
  }

  // ---------------------------------------------------------------------
  // decimal and hexadecimal digits
  // ---------------------------------------------------------------------

  predicate IsDigit(c: char) { '0' <= c <= '9' }

  predicate IsHexDigit(c: char) { IsDigit(c) || 'a' <= c <= 'f' || 'A' <= c <= 'F' }

  predicate AllDigits(s: string) { forall i :: 0 <= i < |s| ==> IsDigit(s[i]) }

  function DigitValue(c: char): nat
    requires IsHexDigit(c)
  {
    if IsDigit(c) then c as int - '0' as int
    else if 'a' <= c <= 'f' then c as int - 'a' as int + 10
    else c as int - 'A' as int + 10
  }

  /** The value of a digit string in the given base, most significant digit first. */
  function Value(ds: string, base: nat): nat
    requires forall i :: 0 <= i < |ds| ==> IsHexDigit(ds[i])
    decreases |ds|
  {
    if ds == [] then 0 else Value(ds[..|ds| - 1], base) * base + DigitValue(ds[|ds| - 1])
  }

  /** The lower-case digit of a value below 16. */
  function DigitChar(d: nat): (c: char)
    requires d < 16
    ensures IsHexDigit(c) && DigitValue(c) == d
    ensures d < 10 ==> IsDigit(c)
    ensures IsDigit(c) || 'a' <= c <= 'f'
  {
    if d < 10 then ('0' as int + d) as char else ('a' as int + d - 10) as char
  }

  /** `n.toString(base)` for a non-negative integer: lower-case digits, no leading zero. */
  function Digits(n: nat, base: nat): (s: string)
    requires base == 10 || base == 16
    ensures |s| >= 1
    ensures |s| == 1 <==> n < base
    decreases n
  {
    if n < base then [DigitChar(n)] else Digits(n / base, base) + [DigitChar(n % base)]
  }

  /** `toString(base)` produces at least one digit of the base, and no leading zero. */
  lemma {:induction false} DigitsShape(n: nat, base: nat)
    requires base == 10 || base == 16
    ensures |Digits(n, base)| >= 1
    ensures forall i :: 0 <= i < |Digits(n, base)| ==> IsDigit(Digits(n, base)[i]) || 'a' <= Digits(n, base)[i] <= 'f'
    ensures forall i :: 0 <= i < |Digits(n, base)| ==> DigitValue(Digits(n, base)[i]) < base
    ensures n > 0 ==> Digits(n, base)[0] != '0'
    decreases n
  {
    if n >= base {
      var q, d := n / base, n % base;
      assert q > 0 && d < base;
      DigitsShape(q, base);
      var p := Digits(q, base);
      var s := Digits(n, base);
      assert s == p + [DigitChar(d)];
      forall i | 0 <= i < |s|
        ensures (IsDigit(s[i]) || 'a' <= s[i] <= 'f') && DigitValue(s[i]) < base
      {
        if i < |p| { assert s[i] == p[i]; } else { assert s[i] == DigitChar(d); }
      }
      assert s[0] == p[0];
    } else {
      assert Digits(n, base) == [DigitChar(n)];
    }
  }

  /** `toString(base)` produces digits that read back as the number. */
  lemma {:induction false} DigitsValue(n: nat, base: nat)
    requires base == 10 || base == 16
    ensures forall i :: 0 <= i < |Digits(n, base)| ==> IsHexDigit(Digits(n, base)[i])
    ensures Value(Digits(n, base), base) == n
    decreases n
  {
    DigitsShape(n, base);
    var s := Digits(n, base);
    if n >= base {
      var q, d := n / base, n % base;
      DigitsValue(q, base);
      var p := Digits(q, base);
      assert s == p + [DigitChar(d)];
      assert s[..|s| - 1] == p;
      assert Value(s, base) == Value(p, base) * base + d;
      assert q * base + d == n;
    } else {
      assert s == [DigitChar(n)];
      assert s[..0] == [];
    }
  }

  /** A number has at most two digits in base 16 when it is below 256, and one when below 16. */
  lemma HexDigitsLength(n: nat)
    requires n < 256
    ensures |Digits(n, 16)| == if n < 16 then 1 else 2
  {
  }

  /** The longest prefix of s made of characters that are digits of the base. */
  function DigitPrefix(s: string, base: nat): (p: string)
    requires base == 10 || base == 16
    ensures p <= s
    ensures forall i :: 0 <= i < |p| ==> IsHexDigit(p[i]) && DigitValue(p[i]) < base
    ensures |p| < |s| ==> !(IsHexDigit(s[|p|]) && DigitValue(s[|p|]) < base)
    decreases |s|
  {
    if s != [] && IsHexDigit(s[0]) && DigitValue(s[0]) < base then [s[0]] + DigitPrefix(s[1..], base) else []
  }

  // ---------------------------------------------------------------------
  // parseInt
  // ---------------------------------------------------------------------

  /** The white space and line terminators `parseInt` skips before the number. */
  predicate IsWhiteSpace(c: char) {
    c == '\t' || c == '\n' || c == '\U{000B}' || c == '\U{000C}' || c == '\r' || c == ' ' ||
    c == '\U{00A0}' || c == '\U{1680}' || ('\U{2000}' <= c <= '\U{200A}') ||
    c == '\U{2028}' || c == '\U{2029}' || c == '\U{202F}' || c == '\U{205F}' ||
    c == '\U{3000}' || c == '\U{FEFF}'
  }


  function TrimStart(s: string): (t: string)
    ensures |t| <= |s| && t == s[|s| - |t|..]
    ensures t != [] ==> !IsWhiteSpace(t[0])
    decreases |s|
  {
    if s != [] && IsWhiteSpace(s[0]) then TrimStart(s[1..]) else s
  }

  /**
   * `parseInt(s)` with no radix: skip leading white space, take an optional
   * sign, read hexadecimal digits after a "0x" or "0X" and decimal digits
   * otherwise, and stop at the first character that is not a digit. None
   * stands for NaN, the answer when no digit was read.
   */
  function ParseInt(s: string): (r: Option<int>)
    ensures r.Some? ==> exists i :: 0 <= i < |s| && IsDigit(s[i])
  {
    var t := TrimStart(s);
    if t != [] && t[0] == '-' then
      match ParseUnsigned(t[1..])
      case None => None
      case Some(v) => Some(-(v as int))
    else if t != [] && t[0] == '+' then ParseUnsigned(t[1..])
    else ParseUnsigned(t)
  }

  /** The digits after the sign: hexadecimal after "0x" or "0X", decimal otherwise; None when there are none. */
  function ParseUnsigned(u: string): (r: Option<nat>)
    ensures r.Some? ==> u != [] && IsDigit(u[0])
  {
    if |u| >= 2 && u[0] == '0' && (u[1] == 'x' || u[1] == 'X') then
      var ds := DigitPrefix(u[2..], 16);
      if ds == [] then None else Some(Value(ds, 16))
    else
      var ds := DigitPrefix(u, 10);
      if ds == [] then None else Some(Value(ds, 10))
  }

  /** `parseInt` of a missing cell: `parseInt(undefined)` is NaN. */
  function ParseCell(cell: Option<string>): Option<int> {
    match cell
    case None => None
    case Some(s) => ParseInt(s)
  }

  /** The decimal rendering of an integer, with a minus sign when it is negative. */
  function Decimal(n: int): string {
    if n < 0 then "-" + Digits(-n, 10) else Digits(n, 10)
  }

  /** The digit prefix of a digit string followed by a non-digit is that digit string. */
  lemma {:induction false} DigitPrefixOfDigits(ds: string, rest: string)
    requires AllDigits(ds)
    requires rest == [] || !IsDigit(rest[0])
    ensures DigitPrefix(ds + rest, 10) == ds
    decreases |ds|
  {
    if ds != [] {
      var u := ds + rest;
      assert u[0] == ds[0] && IsDigit(u[0]) && DigitValue(u[0]) < 10;
      assert u[1..] == ds[1..] + rest;
      DigitPrefixOfDigits(ds[1..], rest);
      assert DigitPrefix(u, 10) == [u[0]] + DigitPrefix(u[1..], 10);
      assert [ds[0]] + ds[1..] == ds;
    } else {
      assert ds + rest == rest;
      if rest != [] {
        assert !IsHexDigit(rest[0]) || DigitValue(rest[0]) >= 10;
      }
    }
  }

  /** `parseInt` reads an unsigned digit string with no superfluous leading zero, and its negation. */
  lemma ParseIntDigits(ds: string, rest: string, w: nat)
    requires ds != [] && (forall i :: 0 <= i < |ds| ==> IsDigit(ds[i])) && (ds[0] == '0' ==> |ds| == 1)
    requires rest == [] || (!IsDigit(rest[0]) && rest[0] != 'x' && rest[0] != 'X')
    requires w == Value(ds, 10)
    ensures ParseInt(ds + rest) == Some(w)
    ensures ParseInt("-" + ds + rest) == Some(-(w as int))
  {
    UnsignedDigits(ds, rest, w);
    var u := ds + rest;
    assert "-" + ds + rest == ['-'] + u;
    assert u[0] == ds[0];
    ParseIntOfDigit(u);
    ParseIntNegative(u, w);
  }

  /** Text that starts with a digit has no leading white space to skip and no sign. */
  lemma ParseIntOfDigit(u: string)
    requires u != [] && IsDigit(u[0])
    ensures TrimStart(u) == u
    ensures ParseInt(u) == ParseUnsigned(u)
  {
  }

  /** A minus sign before unsigned digits negates them. */
  lemma ParseIntNegative(u: string, v: nat)
    requires ParseUnsigned(u) == Some(v)
    ensures ParseInt(['-'] + u) == Some(-(v as int))
  {
    var t := ['-'] + u;
    assert t[1..] == u;
    assert t[0] == '-' && !IsWhiteSpace(t[0]);
    assert TrimStart(t) == t;
  }

  lemma UnsignedDigits(ds: string, rest: string, w: nat)
    requires ds != [] && (forall i :: 0 <= i < |ds| ==> IsDigit(ds[i])) && (ds[0] == '0' ==> |ds| == 1)
    requires rest == [] || (!IsDigit(rest[0]) && rest[0] != 'x' && rest[0] != 'X')
    requires w == Value(ds, 10)
    ensures ParseUnsigned(ds + rest) == Some(w)
  {
    DigitPrefixOfDigits(ds, rest);
    var u := ds + rest;
    assert u[0] == ds[0];
    if |u| >= 2 && u[0] == '0' {
      assert |ds| == 1 && u[1] == rest[0];
    }
  }

  /** `parseInt` reads back the decimal rendering of any integer, whatever follows it that is neither a digit nor an x. */
  lemma ParseIntDecimal(n: int, rest: string)
    requires rest == [] || (!IsDigit(rest[0]) && rest[0] != 'x' && rest[0] != 'X')
    ensures ParseInt(Decimal(n) + rest) == Some(n)
  {
    var m := if n < 0 then -n else n;
    DigitsShape(m, 10);
    DigitsValue(m, 10);
    var ds := Digits(m, 10);
    assert AllDigits(ds) by {
      forall i | 0 <= i < |ds| ensures IsDigit(ds[i]) {
        assert DigitValue(ds[i]) < 10;
      }
    }
    assert ds[0] == '0' ==> |ds| == 1 by {
      if ds[0] == '0' {
        assert m == 0;
      }
    }
    ParseIntDigits(ds, rest, m);
    if n < 0 {
      assert Decimal(n) + rest == "-" + ds + rest;
    } else {
      assert Decimal(n) == ds;
    }
  }

  /** Text that holds no digit after its white space and sign is NaN to `parseInt`. */
  lemma ParseIntNoDigits(s: string)
    requires var t := TrimStart(s); t == [] || (t[0] != '+' && t[0] != '-' && !IsDigit(t[0]))
    ensures ParseInt(s) == None
  {
  }

  // ---------------------------------------------------------------------
  // parseInt on a number
  // ---------------------------------------------------------------------

  /** A number written out in full drops its fraction under `parseInt`: rounding toward zero. */
  function Truncate(x: real): (n: int)
    ensures 0.0 <= x ==> n as real <= x < n as real + 1.0
    ensures x < 0.0 ==> n as real - 1.0 < x <= n as real
  {
    if x >= 0.0 then x.Floor else -((-x).Floor)
  }

  /** 10 raised to a whole power of either sign. */
  function Pow10(e: int): (r: real)
    ensures r > 0.0
    decreases if e < 0 then -e else e
  {
    if e == 0 then 1.0 else if e > 0 then 10.0 * Pow10(e - 1) else Pow10(e + 1) / 10.0
  }

  lemma Pow10Next(e: int)
    ensures Pow10(e + 1) == 10.0 * Pow10(e)
  {
  }

  /**
   * `String(x)` writes a nonzero number in exponent form ("5e-7",
   * "1.5e+21") when its magnitude is below 10^-6 or at least 10^21, and
   * in full otherwise.
   */
  predicate ExponentForm(x: real) {
    var m := if x < 0.0 then -x else x;
    m != 0.0 && (m < 1.0 / 1000000.0 || m >= 1000000000000000000000.0)
  }

  /** The first significant digit of a positive number: the digit its exponent form starts with. */
  function LeadingDigit(x: real): (d: int)
    requires x > 0.0
    ensures 1 <= d <= 9
    decreases if x < 1.0 then 1 else 0, if x < 1.0 then (1.0 / x).Floor else x.Floor
  {
    if x >= 10.0 then LeadingDigit(x / 10.0)
    else if x < 1.0 then
      assert 1.0 / (x * 10.0) == (1.0 / x) / 10.0;
      LeadingDigit(x * 10.0)
    else x.Floor
  }

  /** The power of ten of x's leading digit, as the exponent form writes it after the "e". */
  function Exponent(x: real): int
    requires x > 0.0
    decreases if x < 1.0 then 1 else 0, if x < 1.0 then (1.0 / x).Floor else x.Floor
  {
    if x >= 10.0 then Exponent(x / 10.0) + 1
    else if x < 1.0 then
      assert 1.0 / (x * 10.0) == (1.0 / x) / 10.0;
      Exponent(x * 10.0) - 1
    else 0
  }

  /** x lies in [d * 10^e, (d + 1) * 10^e). */
  predicate Bracket(d: int, e: int, x: real) {
    d as real * Pow10(e) <= x < (d + 1) as real * Pow10(e)
  }

  /** Ten times a number in a bracket lies in the bracket one power up. */
  lemma BracketScaled(d: int, e: int, y: real, x: real)
    requires x == 10.0 * y
    ensures Bracket(d, e, y) <==> Bracket(d, e + 1, x)
  {
    Pow10Next(e);
    var p := Pow10(e);
    assert d as real * (10.0 * p) == 10.0 * (d as real * p);
    assert (d + 1) as real * (10.0 * p) == 10.0 * ((d + 1) as real * p);
  }

  /** The leading digit d and the exponent e of x put x in [d * 10^e, (d + 1) * 10^e). */
  lemma {:induction false} LeadingDigitScale(x: real)
    requires x > 0.0
    ensures Bracket(LeadingDigit(x), Exponent(x), x)
    decreases if x < 1.0 then 1 else 0, if x < 1.0 then (1.0 / x).Floor else x.Floor
  {
    if x >= 10.0 {
      var y := x / 10.0;
      LeadingDigitScale(y);
      BracketScaled(LeadingDigit(y), Exponent(y), y, x);
    } else if x < 1.0 {
      var y := x * 10.0;
      assert 1.0 / y == (1.0 / x) / 10.0;
      LeadingDigitScale(y);
      BracketScaled(LeadingDigit(y), Exponent(y) - 1, x, y);
    } else {
      assert Pow10(0) == 1.0;
    }
  }

  /**
   * `parseInt(x)` on a number: it reads `String(x)`. Written in full, the
   * fraction is dropped toward zero; in exponent form only the digit
   * before the point or the "e" is read, with the sign.
   */
  function ParseIntOfNumber(x: real): (n: int)
    ensures !ExponentForm(x) && 0.0 <= x ==> n as real <= x < n as real + 1.0
    ensures !ExponentForm(x) && x < 0.0 ==> n as real - 1.0 < x <= n as real
    ensures ExponentForm(x) ==> (n < 0 <==> x < 0.0) && 1 <= (if n < 0 then -n else n) <= 9
  {
    if !ExponentForm(x) then Truncate(x)
    else if x < 0.0 then -LeadingDigit(-x)
    else LeadingDigit(x)
  }

  /** In exponent form the digit read is the leading digit of the number: |x| lies in [d * 10^e, (d + 1) * 10^e). */
  lemma ParseIntOfExponentForm(x: real)
    requires ExponentForm(x)
    ensures var m := if x < 0.0 then -x else x;
      var n := ParseIntOfNumber(x);
      Bracket(if n < 0 then -n else n, Exponent(m), m)
  {
    if x < 0.0 {
      LeadingDigitScale(-x);
    } else {
      LeadingDigitScale(x);
    }
  }

  /** A whole number `String` writes out in full: one of magnitude below 10^21. */
  predicate InFull(n: int) {
    -1000000000000000000000 < n < 1000000000000000000000
  }

  /** `parseInt` reads a whole number back as itself exactly when it is written in full. */
  lemma ParseIntOfWhole(n: int)
    ensures InFull(n) <==> ParseIntOfNumber(n as real) == n
  {
    if !InFull(n) {
      assert ExponentForm(n as real);
    }
  }

  /** Reading a number twice gives what reading it once does. */
  lemma ParseIntOfNumberTwice(x: real)
    ensures ParseIntOfNumber(ParseIntOfNumber(x) as real) == ParseIntOfNumber(x)
  {
    var n := ParseIntOfNumber(x);
    if !ExponentForm(x) {
      assert InFull(n);
    }
    ParseIntOfWhole(n);
  }
}
