/**
 * `RGBToHex`: a colour's three channels written as the six-digit
 * lower-case hexadecimal key the palette of states is indexed by.
 */
module Colors {
  import opened Wrappers
  import opened Strings

  /** `componentToHex(c)`: c in base 16, with a "0" in front when that is a single digit. */
  function ComponentToHex(c: nat): (hex: string)
    ensures |hex| >= 2
    ensures c >= 16 ==> hex == Digits(c, 16)
  {
    var h := Digits(c, 16);
    DigitsShape(c, 16);
    if |h| == 1 then "0" + h else h
  }

  /** A lower-case hexadecimal digit, as `toString(16)` writes it. */
  predicate IsLowerHex(c: char) { IsDigit(c) || 'a' <= c <= 'f' }

  /**
   * A channel value of one byte becomes exactly two lower-case hex digits
   * that read back as the value; the first is "0" exactly when the value
   * is below 16.
   */
  lemma ComponentToHexByte(c: nat)
    requires c < 256
    ensures var hex := ComponentToHex(c);
      && |hex| == 2
      && IsLowerHex(hex[0]) && IsLowerHex(hex[1])
      && Value(hex, 16) == c
      && (hex[0] == '0' <==> c < 16)
  {
    DigitsShape(c, 16);
    DigitsValue(c, 16);
    var h := Digits(c, 16);
    var hex := ComponentToHex(c);
    if c < 16 {
      assert h == [DigitChar(c)];
      assert hex == ['0', h[0]];
      assert hex[..1] == ['0'] && ['0'][..0] == [];
    } else {
      HexDigitsLength(c);
      assert hex == h;
      assert h[0] != '0';
    }
  }

  /** The six hexadecimal digits of a colour: red, then green, then blue. */
  function Hex(r: nat, g: nat, b: nat): (key: string)
    ensures |key| >= 6
    ensures r < 256 && g < 256 && b < 256 ==> IsKey(key)
  {
    var key := ComponentToHex(r) + ComponentToHex(g) + ComponentToHex(b);
    if r < 256 && g < 256 && b < 256 then
      ComponentToHexByte(r);
      ComponentToHexByte(g);
      ComponentToHexByte(b);
      key
    else key
  }

  /**
   * For byte channels the key is six lower-case hex digits, and each pair
   * reads back as its channel: the colour can be recovered from its key.
   */
  lemma HexRoundTrip(r: nat, g: nat, b: nat)
    requires r < 256 && g < 256 && b < 256
    ensures var key := Hex(r, g, b);
      && |key| == 6
      && (forall i :: 0 <= i < 6 ==> IsLowerHex(key[i]))
      && key[0..2] == ComponentToHex(r) && Value(key[0..2], 16) == r
      && key[2..4] == ComponentToHex(g) && Value(key[2..4], 16) == g
      && key[4..6] == ComponentToHex(b) && Value(key[4..6], 16) == b
  {
    ComponentToHexByte(r);
    ComponentToHexByte(g);
    ComponentToHexByte(b);
    var key := Hex(r, g, b);
    assert key[0..2] == ComponentToHex(r);
    assert key[2..4] == ComponentToHex(g);
    assert key[4..6] == ComponentToHex(b);
  }

  /** Two byte colours with the same key are the same colour. */
  lemma HexInjective(r: nat, g: nat, b: nat, r': nat, g': nat, b': nat)
    requires r < 256 && g < 256 && b < 256 && r' < 256 && g' < 256 && b' < 256
    requires Hex(r, g, b) == Hex(r', g', b')
    ensures r == r' && g == g' && b == b'
  {
    HexRoundTrip(r, g, b);
    HexRoundTrip(r', g', b');
  }

  /** A lower-case hex digit is the digit `toString(16)` writes for its own value. */
  lemma DigitCharOfValue(c: char)
    requires IsLowerHex(c)
    ensures DigitValue(c) < 16 && DigitChar(DigitValue(c)) == c
  {
  }

  /** Six lower-case hex digits: the form of a colour's key. */
  predicate IsKey(key: string) {
    && |key| == 6
    && IsLowerHex(key[0]) && IsLowerHex(key[1]) && IsLowerHex(key[2])
    && IsLowerHex(key[3]) && IsLowerHex(key[4]) && IsLowerHex(key[5])
  }

  /** The byte two lower-case hex digits stand for. */
  function PairValue(hex: string): (v: nat)
    requires |hex| == 2 && IsLowerHex(hex[0]) && IsLowerHex(hex[1])
    ensures v < 256
  {
    DigitValue(hex[0]) * 16 + DigitValue(hex[1])
  }

  /**
   * Two lower-case hex digits are `componentToHex` of the byte they stand
   * for: the converse of `ComponentToHexByte`.
   */
  lemma ComponentToHexOfPair(hex: string)
    requires |hex| == 2 && IsLowerHex(hex[0]) && IsLowerHex(hex[1])
    ensures ComponentToHex(PairValue(hex)) == hex
  {
    var hi, lo := DigitValue(hex[0]), DigitValue(hex[1]);
    DigitCharOfValue(hex[0]);
    DigitCharOfValue(hex[1]);
    var v := PairValue(hex);
    if hi == 0 {
      assert Digits(v, 16) == [DigitChar(lo)];
      assert hex == "0" + [DigitChar(lo)];
    } else {
      assert v / 16 == hi && v % 16 == lo;
      assert Digits(v, 16) == Digits(hi, 16) + [DigitChar(lo)];
      assert Digits(hi, 16) == [DigitChar(hi)];
      assert hex == [DigitChar(hi), DigitChar(lo)];
    }
  }

  /**
   * A key is the key of exactly one byte colour: the one its three pairs
   * stand for. With `HexRoundTrip`, keys and byte colours correspond one
   * to one.
   */
  lemma KeyOfPairs(key: string)
    requires IsKey(key)
    ensures Hex(PairValue(key[0..2]), PairValue(key[2..4]), PairValue(key[4..6])) == key
  {
    ComponentToHexOfPair(key[0..2]);
    ComponentToHexOfPair(key[2..4]);
    ComponentToHexOfPair(key[4..6]);
    assert key == key[0..2] + key[2..4] + key[4..6];
  }

  /** A converter for one colour that works out its key once and keeps it. */
  class RGBToHex {
    const r: nat
    const g: nat
    const b: nat
    var hexValue: Option<string>

    /** The kept key, when there is one, is the key of this colour. */
    ghost predicate Valid()
      reads this
    {
      hexValue.Some? ==> hexValue.value == Hex(r, g, b)
    }

    /** `new RGBToHex(r, g, b)`: nothing worked out yet. */
    constructor (r: nat, g: nat, b: nat)
      ensures this.r == r && this.g == g && this.b == b && hexValue == None
      ensures Valid()
    {
      this.r, this.g, this.b := r, g, b;
      hexValue := None;
    }

    /** `getHexValue()`: the key, worked out on the first call and returned unchanged on every later one. */
    method GetHexValue() returns (hex: string)
      requires Valid()
      modifies this`hexValue
      ensures Valid()
      ensures hex == Hex(r, g, b) && hexValue == Some(hex)
      ensures old(hexValue).Some? ==> hex == old(hexValue).value
    {
      if hexValue == None {
        hexValue := Some(ComponentToHex(r) + ComponentToHex(g) + ComponentToHex(b));
      }
      hex := hexValue.value;
    }
  }
}
