/**
 * The palette of the map image: every state is painted in its own colour,
 * and the six-digit hexadecimal key of that colour names the state.
 */
module Palette {
  import opened Wrappers
  import opened Strings
  import opened Colors

  /**
   * `MAPPING[key]`: the state painted in the colour with this key, and
   * `undefined` (None) for a colour that is not in the palette. Written as
   * a match so that a key listed twice would be a redundant case, which
   * Dafny reports: the fifty keys are distinct.
   */
  function StateOfColour(key: string): (name: Option<string>)
    ensures name.Some? ==> |key| == 6 && name.value != ""
  {
    match key
    case "0d0e45" => Some("Washington")
    case "c0c0c0" => Some("Oregon")
    case "e6e651" => Some("California")
    case "5f5555" => Some("Arizona")
    case "92922a" => Some("Nevada")
    case "837d7d" => Some("Utah")
    case "a6a4a4" => Some("Idaho")
    case "c8c842" => Some("Montana")
    case "d55c49" => Some("Wyoming")
    case "a7a735" => Some("Colorado")
    case "ace651" => Some("New Mexico")
    case "49b16a" => Some("North Dakota")
    case "3c9859" => Some("South Dakota")
    case "32834c" => Some("Nebraska")
    case "2a7240" => Some("Kansas")
    case "7d37ba" => Some("Oklahoma")
    case "9b50dd" => Some("Texas")
    case "1d5b30" => Some("Minnesota")
    case "134d25" => Some("Iowa")
    case "c25544" => Some("Missouri")
    case "0c431d" => Some("Arkansas")
    case "e654e6" => Some("Louisiana")
    case "662920" => Some("Michigan")
    case "8f4033" => Some("Wisconsin")
    case "b14f40" => Some("Illinois")
    case "da8b34" => Some("Tennessee")
    case "46160f" => Some("Mississippi")
    case "135352" => Some("Indiana")
    case "e6a551" => Some("Kentucky")
    case "63219d" => Some("Alabama")
    case "f1a551" => Some("Ohio")
    case "44cece" => Some("Georgia")
    case "757413" => Some("Florida")
    case "5154e6" => Some("New York")
    case "0b4544" => Some("Pennsylvania")
    case "1a1c6c" => Some("West Virginia")
    case "2d7b7a" => Some("Virginia")
    case "45c6c6" => Some("North Carolina")
    case "51e6e6" => Some("South Carolina")
    case "3a3232" => Some("Maine")
    case "4346c2" => Some("New Hampshire")
    case "ec54e6" => Some("Vermont")
    case "3c1009" => Some("Massachusetts")
    case "350b05" => Some("Connecticut")
    case "b6c5c5" => Some("Rhode Island")
    case "2c2e92" => Some("New Jersey")
    case "231c6c" => Some("Maryland")
    case "af54e6" => Some("Delaware")
    case "4c1081" => Some("Alaska")
    case "009386" => Some("Hawaii")
    case _ => None
  }

  /** Every colour the palette knows has a key of six lower-case hex digits, the form `Hex` gives a byte colour. */
  lemma KeysAreHexDigits(key: string)
    requires StateOfColour(key).Some?
    ensures IsKey(key)
  {
    if key in Entries1() {
      ListedKeysAreHexDigits(key, Entries1());
    } else if key in Entries2() {
      ListedKeysAreHexDigits(key, Entries2());
    } else if key in Entries3() {
      ListedKeysAreHexDigits(key, Entries3());
    } else if key in Entries4() {
      ListedKeysAreHexDigits(key, Entries4());
    } else if key in Entries5() {
      ListedKeysAreHexDigits(key, Entries5());
    }
  }

  /** Listed keys, checked ten at a time. */
  lemma ListedKeysAreHexDigits(key: string, listed: set<string>)
    requires key in listed && forall k :: k in listed ==> IsKey(k)
    ensures IsKey(key)
  {
  }

  // Entries1 to Entries5 split the fifty keys of `StateOfColour` into five
  // sets of ten, so that the hex-digit check of `KeysAreHexDigits` runs
  // over ten keys at a time rather than fifty in one proof.

  /** Keys 1 to 10 of the palette, each six lower-case hex digits. */
  function Entries1(): (keys: set<string>)
    ensures forall k :: k in keys ==> IsKey(k)
  {
    {"0d0e45", "c0c0c0", "e6e651", "5f5555", "92922a", "837d7d", "a6a4a4", "c8c842", "d55c49", "a7a735"}
  }

  /** Keys 11 to 20 of the palette, each six lower-case hex digits. */
  function Entries2(): (keys: set<string>)
    ensures forall k :: k in keys ==> IsKey(k)
  {
    {"ace651", "49b16a", "3c9859", "32834c", "2a7240", "7d37ba", "9b50dd", "1d5b30", "134d25", "c25544"}
  }

  /** Keys 21 to 30 of the palette, each six lower-case hex digits. */
  function Entries3(): (keys: set<string>)
    ensures forall k :: k in keys ==> IsKey(k)
  {
    {"0c431d", "e654e6", "662920", "8f4033", "b14f40", "da8b34", "46160f", "135352", "e6a551", "63219d"}
  }

  /** Keys 31 to 40 of the palette, each six lower-case hex digits. */
  function Entries4(): (keys: set<string>)
    ensures forall k :: k in keys ==> IsKey(k)
  {
    {"f1a551", "44cece", "757413", "5154e6", "0b4544", "1a1c6c", "2d7b7a", "45c6c6", "51e6e6", "3a3232"}
  }

  /** Keys 41 to 50 of the palette, each six lower-case hex digits. */
  function Entries5(): (keys: set<string>)
    ensures forall k :: k in keys ==> IsKey(k)
  {
    {"4346c2", "ec54e6", "3c1009", "350b05", "b6c5c5", "2c2e92", "231c6c", "af54e6", "4c1081", "009386"}
  }

  /**
   * Every key of the palette is the key of a byte colour, so every state
   * it lists can be painted and picked: a pixel of that colour reads as
   * that key.
   */
  lemma KeysAreColours(key: string)
    requires StateOfColour(key).Some?
    ensures exists r: nat, g: nat, b: nat :: r < 256 && g < 256 && b < 256 && Hex(r, g, b) == key
  {
    KeysAreHexDigits(key);
    KeyOfPairs(key);
    var r, g, b := PairValue(key[0..2]), PairValue(key[2..4]), PairValue(key[4..6]);
    assert Hex(r, g, b) == key;
  }
}
