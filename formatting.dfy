/**
 * `StringFormatter.reverse` and `NumberFormatter.addCommas`: the map
 * writes population and housing counts with a comma between groups of
 * three digits, by reversing the text, putting a comma after every run of
 * three non-blank characters, and reversing back.
 */
module Formatting {
  import opened Strings

  /** The characters of s in the opposite order. */
  function Reversed(s: string): (r: string)
    ensures |r| == |s|
    decreases |s|
  {
    if s == [] then [] else Reversed(s[1..]) + [s[0]]
  }

  /** Character i of the reversal is character i of s counted from the end. */
  lemma {:induction false} ReversedAt(s: string)
    ensures forall i :: 0 <= i < |s| ==> Reversed(s)[i] == s[|s| - 1 - i]
    decreases |s|
  {
    if s != [] {
      ReversedAt(s[1..]);
    }
  }

  /** `reverse(string)`: walks the text from its last character to its first. */
  method Reverse(s: string) returns (t: string)
    ensures t == Reversed(s)
  {
    t := "";
    var i := |s| - 1;
    while i >= 0
      invariant -1 <= i < |s|
      invariant t == Reversed(s[i + 1..])
    {
      assert s[i..][1..] == s[i + 1..];
      t := t + [s[i]];
      i := i - 1;
    }
    assert s[0..] == s;
  }

  /** Reversing keeps the length and, done twice, gives the text back. */
  lemma ReversedTwice(s: string)
    ensures |Reversed(s)| == |s|
    ensures Reversed(Reversed(s)) == s
  {
    ReversedAt(s);
    ReversedAt(Reversed(s));
  }

  /** Reversing a concatenation reverses the parts and swaps them. */
  lemma ReversedAppend(a: string, b: string)
    ensures Reversed(a + b) == Reversed(b) + Reversed(a)
  {
    ReversedAt(a + b);
    ReversedAt(a);
    ReversedAt(b);
    assert forall i :: 0 <= i < |a| + |b| ==> Reversed(a + b)[i] == (Reversed(b) + Reversed(a))[i];
  }

  /**
   * `replace(/(\S{3})/g, "$1,")`: scanning from the left, every run of
   * three characters that are not white space gets a comma after it; a
   * position where no such run starts is copied as it is.
   */
  function InsertCommas(s: string): (r: string)
    ensures |s| <= |r| <= |s| + |s| / 3
    ensures WithoutCommas(r) == WithoutCommas(s)
    decreases |s|
  {
    if |s| >= 3 && !IsWhiteSpace(s[0]) && !IsWhiteSpace(s[1]) && !IsWhiteSpace(s[2]) then
      var rest := InsertCommas(s[3..]);
      WithoutCommasAround(s[..3], rest);
      WithoutCommasAppend(s[..3], s[3..]);
      assert s[..3] + s[3..] == s;
      s[..3] + "," + rest
    else if s == [] then []
    else
      var rest := InsertCommas(s[1..]);
      assert ([s[0]] + rest)[1..] == rest;
      [s[0]] + rest
  }

  /**
   * The whole part after the commas went in: reversed, a comma after each
   * run of three, reversed back, a leading comma dropped. Only commas are
   * added.
   */
  function WholeCommas(whole: string): (r: string)
    ensures WithoutCommas(r) == WithoutCommas(whole)
  {
    var w := Reversed(InsertCommas(Reversed(whole)));
    WithoutCommasReversed(InsertCommas(Reversed(whole)));
    WithoutCommasReversed(whole);
    ReversedTwice(WithoutCommas(whole));
    if w != [] && w[0] == ',' then
      assert w == [','] + w[1..];
      WithoutCommasAppend([','], w[1..]);
      w[1..]
    else w
  }

  /**
   * What `addCommas` returns for the text of a number: the whole part
   * grouped, the fraction as it was. For the text of a number, which has
   * at most one decimal point, the commas are all it adds.
   */
  function Commas(text: string): (r: string)
    ensures |Split(text, '.')| <= 2 ==> WithoutCommas(r) == WithoutCommas(text)
  {
    var pieces := Split(text, '.');
    JoinSplit(text, '.');
    if |pieces| >= 2 then
      var fraction := "." + pieces[1];
      WithoutCommasAppend(WholeCommas(pieces[0]), fraction);
      WithoutCommasAppend(pieces[0], fraction);
      assert |pieces| == 2 ==> Join(pieces, '.') == pieces[0] + fraction;
      WholeCommas(pieces[0]) + fraction
    else
      assert WholeCommas(pieces[0]) + "" == WholeCommas(pieces[0]);
      WholeCommas(pieces[0]) + ""
  }

  /** Taking the commas out commutes with reversing. */
  lemma {:induction false} WithoutCommasReversed(s: string)
    ensures WithoutCommas(Reversed(s)) == Reversed(WithoutCommas(s))
    decreases |s|
  {
    if s != [] {
      var x := if s[0] == ',' then [] else [s[0]];
      WithoutCommasReversed(s[1..]);
      WithoutCommasAppend(Reversed(s[1..]), [s[0]]);
      assert WithoutCommas([s[0]]) == x;
      ReversedAppend(x, WithoutCommas(s[1..]));
      assert Reversed(x) == x;
    }
  }

  /** `addCommas(number)`, given the text `number.toString()` of the number. */
  method AddCommas(text: string) returns (r: string)
    ensures r == Commas(text)
  {
    var pieces := Split(text, '.');
    var wholeNumber := pieces[0];
    var decimal := if |pieces| >= 2 then "." + pieces[1] else "";
    wholeNumber := Reverse(wholeNumber);
    wholeNumber := InsertCommas(wholeNumber);
    wholeNumber := Reverse(wholeNumber);
    if wholeNumber != [] && wholeNumber[0] == ',' {
      wholeNumber := wholeNumber[1..];
    }
    r := wholeNumber + decimal;
  }

  // ---------------------------------------------------------------------
  // The grouping, stated on its own
  // ---------------------------------------------------------------------

  /** The digits with a comma before every group of three counted from the right. */
  function Grouped(d: string): (r: string)
    decreases |d|
  {
    if |d| <= 3 then d else Grouped(d[..|d| - 3]) + "," + d[|d| - 3..]
  }

  /** The text with every comma taken out. */
  function WithoutCommas(s: string): (r: string)
    decreases |s|
  {
    if s == [] then [] else (if s[0] == ',' then [] else [s[0]]) + WithoutCommas(s[1..])
  }

  /** The groups between the commas: a first group of one to three characters, then groups of exactly three. */
  predicate WellGrouped(groups: seq<string>) {
    |groups| >= 1 && 1 <= |groups[0]| <= 3 && forall k :: 1 <= k < |groups| ==> |groups[k]| == 3
  }

  lemma {:induction false} WithoutCommasAppend(a: string, b: string)
    ensures WithoutCommas(a + b) == WithoutCommas(a) + WithoutCommas(b)
    decreases |a|
  {
    if a != [] {
      assert (a + b)[1..] == a[1..] + b;
      WithoutCommasAppend(a[1..], b);
    } else {
      assert a + b == b;
    }
  }

  lemma {:induction false} WithoutCommasOfDigits(d: string)
    requires AllDigits(d)
    ensures WithoutCommas(d) == d
    decreases |d|
  {
    if d != [] {
      WithoutCommasOfDigits(d[1..]);
      assert [d[0]] + d[1..] == d;
    }
  }

  /** Splitting at the last separator: the pieces of the head, then the tail. */
  lemma {:induction false} SplitAtLastSeparator(a: string, sep: char, b: string)
    requires sep !in b
    ensures Split(a + [sep] + b, sep) == Split(a, sep) + [b]
    decreases |a|
  {
    if a == [] {
      assert a + [sep] + b == [sep] + b;
      assert ([sep] + b)[1..] == b;
      SplitWithoutSeparator(b, sep);
    } else {
      assert (a + [sep] + b)[1..] == a[1..] + [sep] + b;
      SplitAtLastSeparator(a[1..], sep, b);
    }
  }

  /** A comma between two texts is taken out along with the others. */
  lemma WithoutCommasAround(g: string, tail: string)
    ensures WithoutCommas(g + [','] + tail) == WithoutCommas(g) + WithoutCommas(tail)
  {
    var t := [','] + tail;
    assert g + [','] + tail == g + t;
    WithoutCommasAppend(g, t);
    assert t[0] == ',' && t[1..] == tail;
  }

  /** Digits hold no separator. */
  lemma DigitsHoldNo(d: string, c: char)
    requires AllDigits(d) && !IsDigit(c)
    ensures c !in d
  {
    assert forall i :: 0 <= i < |d| ==> d[i] != c;
  }

  /**
   * The grouped digits: taking the commas out gives the digits back, the
   * text starts with the first digit (never with a comma), and the groups
   * are one to three digits and then threes.
   */
  lemma {:induction false} GroupedShape(d: string)
    requires d != [] && AllDigits(d)
    ensures WithoutCommas(Grouped(d)) == d
    ensures Grouped(d)[0] == d[0]
    ensures WellGrouped(Split(Grouped(d), ','))
    decreases |d|
  {
    if |d| <= 3 {
      WithoutCommasOfDigits(d);
      DigitsHoldNo(d, ',');
      SplitWithoutSeparator(d, ',');
    } else {
      var head, tail := d[..|d| - 3], d[|d| - 3..];
      GroupedShape(head);
      GroupedStep(d, head, tail);
    }
  }

  /** One step of the grouping: the groups of the head, a comma, and the last three digits. */
  lemma GroupedStep(d: string, head: string, tail: string)
    requires |d| > 3 && AllDigits(d) && head == d[..|d| - 3] && tail == d[|d| - 3..]
    requires WithoutCommas(Grouped(head)) == head
    requires Grouped(head)[0] == head[0]
    requires WellGrouped(Split(Grouped(head), ','))
    ensures WithoutCommas(Grouped(d)) == d
    ensures Grouped(d)[0] == d[0]
    ensures WellGrouped(Split(Grouped(d), ','))
  {
    assert head + tail == d;
    var g := Grouped(head);
    assert Grouped(d) == g + [','] + tail;
    WithoutCommasAround(g, tail);
    LastThreeDigits(d, tail);
    SplitAtLastSeparator(g, ',', tail);
    WellGroupedExtended(Split(g, ','), tail);
  }

  /** The last three of a run of digits are three digits, with no comma among them. */
  lemma LastThreeDigits(d: string, tail: string)
    requires |d| >= 3 && AllDigits(d) && tail == d[|d| - 3..]
    ensures |tail| == 3 && WithoutCommas(tail) == tail && ',' !in tail
  {
    assert AllDigits(tail) by {
      forall i | 0 <= i < |tail| ensures IsDigit(tail[i]) { assert tail[i] == d[|d| - 3 + i]; }
    }
    WithoutCommasOfDigits(tail);
    DigitsHoldNo(tail, ',');
  }

  /** A group of three after well-formed groups keeps them well formed. */
  lemma WellGroupedExtended(groups: seq<string>, tail: string)
    requires WellGrouped(groups) && |tail| == 3
    ensures WellGrouped(groups + [tail])
  {
  }

  // ---------------------------------------------------------------------
  // addCommas groups the digits
  // ---------------------------------------------------------------------

  lemma InsertCommasShort(s: string)
    requires |s| < 3
    ensures InsertCommas(s) == s
  {
    if s != [] {
      assert InsertCommas(s) == [s[0]] + InsertCommas(s[1..]);
      if |s| == 2 {
        assert InsertCommas(s[1..]) == s[1..];
      }
    }
  }

  /** A run of three digits is never white space, so it always gets its comma. */
  lemma InsertCommasStep(q: string)
    requires |q| >= 3 && IsDigit(q[0]) && IsDigit(q[1]) && IsDigit(q[2])
    ensures InsertCommas(q) == q[..3] + "," + InsertCommas(q[3..])
  {
    assert !IsWhiteSpace(q[0]) && !IsWhiteSpace(q[1]) && !IsWhiteSpace(q[2]);
  }

  /** The reversal of text split three from the end: the last three come first. */
  lemma ReversedAtLastThree(p: string)
    requires |p| >= 3
    ensures Reversed(p)[..3] == Reversed(p[|p| - 3..])
    ensures Reversed(p)[3..] == Reversed(p[..|p| - 3])
  {
    var head, tail := p[..|p| - 3], p[|p| - 3..];
    var rt, rh := Reversed(tail), Reversed(head);
    assert Reversed(p) == rt + rh by {
      assert head + tail == p;
      ReversedAppend(head, tail);
    }
    assert |rt| == 3;
    assert (rt + rh)[..3] == rt && (rt + rh)[3..] == rh;
  }

  /** Reversing around a comma. */
  lemma ReversedAroundComma(x: string, y: string)
    ensures Reversed(x + "," + y) == Reversed(y) + "," + Reversed(x)
  {
    ReversedAppend(x + ",", y);
    ReversedAppend(x, ",");
  }

  /** Digits reversed are still digits. */
  lemma ReversedDigits(s: string)
    requires AllDigits(s)
    ensures AllDigits(Reversed(s))
  {
    ReversedAt(s);
  }

  /** The comma the groups start with after the reversals: one exactly when n digits divide into threes. */
  function Lead(n: nat): (c: string)
    ensures c == "," || c == ""
  {
    if n < 3 then (if n == 0 then "," else "") else Lead(n - 3)
  }

  /**
   * Reversing the digits, inserting the commas and reversing back groups
   * them from the right; when the number of digits is a multiple of three
   * the last comma inserted ends up in front.
   */
  lemma {:induction false} ReversedInsertCommas(p: string)
    requires p != [] && AllDigits(p)
    ensures Reversed(InsertCommas(Reversed(p))) == Lead(|p|) + Grouped(p)
    decreases |p|
  {
    if |p| < 3 {
      InsertCommasShort(Reversed(p));
      ReversedTwice(p);
    } else {
      var head, tail := p[..|p| - 3], p[|p| - 3..];
      assert AllDigits(head) && AllDigits(tail) by {
        forall i | 0 <= i < |head| ensures IsDigit(head[i]) { assert head[i] == p[i]; }
        forall i | 0 <= i < |tail| ensures IsDigit(tail[i]) { assert tail[i] == p[|p| - 3 + i]; }
      }
      if head != [] {
        ReversedInsertCommas(head);
      }
      InsertCommasLastThree(p, head, tail);
    }
  }

  /** One step of the induction: the last three digits become the last group, after a comma. */
  lemma InsertCommasLastThree(p: string, head: string, tail: string)
    requires |p| >= 3 && head == p[..|p| - 3] && tail == p[|p| - 3..]
    requires AllDigits(tail)
    requires head != [] ==> Reversed(InsertCommas(Reversed(head))) == Lead(|head|) + Grouped(head)
    ensures Reversed(InsertCommas(Reversed(p))) == Lead(|p|) + Grouped(p)
  {
    var q := Reversed(p);
    ReversedAtLastThree(p);
    ReversedDigits(tail);
    assert IsDigit(q[0]) && IsDigit(q[1]) && IsDigit(q[2]) by {
      assert q[..3] == Reversed(tail);
      assert q[0] == q[..3][0] && q[1] == q[..3][1] && q[2] == q[..3][2];
    }
    InsertCommasStep(q);
    ReversedAroundComma(q[..3], InsertCommas(q[3..]));
    ReversedTwice(tail);
    var rest := Reversed(InsertCommas(Reversed(head)));
    assert Reversed(InsertCommas(q)) == rest + "," + tail;
    GroupsOfLastThree(p, head, tail, rest);
  }

  /** The groups of p are the groups of all but its last three digits, a comma, and those three. */
  lemma GroupsOfLastThree(p: string, head: string, tail: string, rest: string)
    requires |p| >= 3 && head == p[..|p| - 3] && tail == p[|p| - 3..]
    requires rest == Reversed(InsertCommas(Reversed(head)))
    requires head != [] ==> rest == Lead(|head|) + Grouped(head)
    ensures rest + "," + tail == Lead(|p|) + Grouped(p)
  {
    if head == [] {
      InsertCommasShort([]);
      assert tail == p;
    } else {
      GroupedUnfold(p);
    }
  }

  lemma GroupedUnfold(p: string)
    requires |p| > 3
    ensures Grouped(p) == Grouped(p[..|p| - 3]) + "," + p[|p| - 3..]
  {
  }

  /** The whole part of a number with digits only: the digits grouped from the right. */
  lemma WholeCommasOfDigits(d: string)
    requires d != [] && AllDigits(d)
    ensures WholeCommas(d) == Grouped(d)
  {
    ReversedInsertCommas(d);
    GroupedShape(d);
    if Lead(|d|) == "," {
      assert ("," + Grouped(d))[1..] == Grouped(d);
    } else {
      assert Lead(|d|) + Grouped(d) == Grouped(d);
    }
  }

  /** The whole part of a number's text: all of it when there is no decimal point. */
  lemma WholeWithoutPoint(d: string)
    requires '.' !in d
    ensures Split(d, '.') == [d]
  {
    SplitWithoutSeparator(d, '.');
  }

  /**
   * `addCommas` on digits, with or without a fraction after a single
   * decimal point: the digits come back grouped, and the fraction is
   * kept as it was.
   */
  lemma AddCommasGroups(d: string, fraction: string)
    requires d != [] && AllDigits(d) && '.' !in fraction
    ensures Commas(d) == Grouped(d)
    ensures Commas(d + "." + fraction) == Grouped(d) + "." + fraction
  {
    DigitsHoldNo(d, '.');
    WholeWithoutPoint(d);
    WholeCommasOfDigits(d);
    FractionKept(d, fraction);
  }

  /** The text after the one decimal point is the second piece of the split, and comes back after a point. */
  lemma FractionKept(d: string, fraction: string)
    requires '.' !in d && '.' !in fraction
    ensures Commas(d + "." + fraction) == WholeCommas(d) + "." + fraction
  {
    SplitAtSeparator(d, '.', fraction);
    SplitWithoutSeparator(fraction, '.');
    assert d + "." + fraction == d + ['.'] + fraction;
  }

  /** `addCommas(n)` for a count n: its decimal digits, grouped in threes from the right. */
  lemma AddCommasOfCount(n: nat)
    ensures Commas(Decimal(n)) == Grouped(Digits(n, 10))
    ensures Commas(Decimal(n))[0] != ','
    ensures WithoutCommas(Commas(Decimal(n))) == Digits(n, 10)
    ensures WellGrouped(Split(Commas(Decimal(n)), ','))
  {
    DigitsShape(n, 10);
    var ds := Digits(n, 10);
    assert AllDigits(ds) by {
      forall i | 0 <= i < |ds| ensures IsDigit(ds[i]) {
        assert DigitValue(ds[i]) < 10;
      }
    }
    AddCommasGroups(ds, "");
    GroupedShape(ds);
  }

  // ---------------------------------------------------------------------
  // Negative numbers
  // ---------------------------------------------------------------------

  /** The minus sign counts as a character of the first run: -123 comes out as "-,123". */
  lemma AddCommasSplitsMinusSign()
    ensures Commas("-123") == "-,123"
  {
    var s := "-123";
    SplitWithoutSeparator(s, '.');
    assert Commas(s) == WholeCommas(s) + "";
    ReversedMinusSign();
    MinusAfterThreeDigits();
    assert WholeCommas(s) == "-,123";
  }

  /** The two reversals of the sign and the digits. */
  lemma ReversedMinusSign()
    ensures Reversed("-123") == "321-"
    ensures Reversed("321,-") == "-,123"
  {
    assert Reversed("23") == "32" by { assert "23"[1..] == "3"; }
    assert Reversed("123") == "321" by { assert "123"[1..] == "23"; }
    assert "-123"[1..] == "123";
    assert Reversed(",-") == "-," by { assert ",-"[1..] == "-"; }
    assert Reversed("1,-") == "-,1" by { assert "1,-"[1..] == ",-"; }
    assert Reversed("21,-") == "-,12" by { assert "21,-"[1..] == "1,-"; }
    assert "321,-"[1..] == "21,-";
  }

  /** Reversed, the sign follows the digits and the run of three before it gets its comma. */
  lemma MinusAfterThreeDigits()
    ensures InsertCommas("321-") == "321,-"
  {
    var q := "321-";
    assert q[..3] == "321" && q[3..] == "-";
    InsertCommasStep(q);
    InsertCommasShort("-");
  }

  /** Grouping that keeps a minus sign out of the groups. */
  function SignedCommas(text: string): string {
    if text != [] && text[0] == '-' then "-" + Commas(text[1..]) else Commas(text)
  }

  /** Every integer, negative or not, comes out as its sign followed by its digits grouped from the right. */
  lemma SignedCommasOfInteger(n: int)
    ensures SignedCommas(Decimal(n)) == (if n < 0 then "-" else "") + Grouped(Digits(if n < 0 then -n else n, 10))
  {
    var m := if n < 0 then -n else n;
    AddCommasOfCount(m);
    DigitsShape(m, 10);
    if n < 0 {
      assert Decimal(n)[1..] == Digits(m, 10) == Decimal(m);
    } else {
      assert Digits(m, 10)[0] != '-';
    }
  }
}
