/**
 * `VisualMap`: the picture of the states, in which every state is painted
 * in its own colour. A point on the screen is taken back through the
 * current pan, zoom and turn to a pixel of the picture; the pixel's colour
 * names a state through the palette, and that state becomes the active
 * state, which a click adds to the state panel.
 */
module Maps {
  import opened Wrappers
  import opened Affine
  import opened Strings
  import opened Tables
  import opened Images
  import opened Colors
  import opened Palette
  import opened Data
  import opened Boxes
  import opened Panels

  /** `ORIENTATION.RIGHT`: the middle of the screen's right edge, where the state panel hangs. */
  function Right(screen: Screen): Point {
    Point(screen.width, screen.height / 2.0)
  }

  /** `inBounds(x, y)`: strictly inside the canvas, so the top row and the left column are outside. */
  predicate InBounds(x: int, y: int, canvasWidth: int, canvasHeight: int): (inside: bool)
    ensures inside ==> 0 <= x < canvasWidth && 0 <= y < canvasHeight
    ensures x == 0 || y == 0 ==> !inside
    ensures inside ==> canvasWidth >= 2 && canvasHeight >= 2
  {
    x > 0 && y > 0 && x < canvasWidth && y < canvasHeight
  }

  /**
   * The map pixel under the screen point (px, py): `parseInt` of the
   * point, the inverse of the transform, `parseInt` again. A singular
   * transform has no inverse: the source then divides by a zero
   * determinant, every coordinate it reads back is infinite or NaN,
   * `parseInt` makes NaN of it and no bound holds; here that is None.
   */
  function MapPixel(px: real, py: real, transform: Matrix): (p: Option<(int, int)>)
    requires Is3x3(transform)
    ensures p.Some? <==> Det3(transform) != 0.0
  {
    if Det3(transform) == 0.0 then None
    else
      var q := Apply(Inverse(transform), Point(ParseIntOfNumber(px) as real, ParseIntOfNumber(py) as real));
      if q.Failure? then None else Some((ParseIntOfNumber(q.value.x), ParseIntOfNumber(q.value.y)))
  }

  /**
   * A pixel drawn at whole screen coordinates is found again: when the
   * transform takes pixel (a, b) of the map to the screen point (X, Y),
   * the hit test at (X, Y) reads pixel (a, b). Coordinates from 10^21 up
   * are written in exponent form and misread, so all four stay below.
   */
  lemma MapPixelFindsDrawnPixel(transform: Matrix, a: int, b: int, x: int, y: int)
    requires IsAffine(transform) && Det3(transform) != 0.0
    requires Apply(transform, Point(a as real, b as real)) == Success(Point(x as real, y as real))
    requires InFull(a) && InFull(b) && InFull(x) && InFull(y)
    ensures MapPixel(x as real, y as real, transform) == Some((a, b))
  {
    InverseUndoesApply(transform, Point(a as real, b as real));
    ParseIntOfWhole(x);
    ParseIntOfWhole(y);
    ParseIntOfWhole(a);
    ParseIntOfWhole(b);
  }

  /** With the transform the pointer manager starts from, a point reads the pixel `parseInt` makes of its coordinates. */
  lemma MapPixelUntransformed(px: real, py: real)
    ensures MapPixel(px, py, Translate(0.0, 0.0)) == Some((ParseIntOfNumber(px), ParseIntOfNumber(py)))
  {
    var p := Point(ParseIntOfNumber(px) as real, ParseIntOfNumber(py) as real);
    TranslateInverse(0.0, 0.0);
    TranslateMovesPoints(-0.0, -0.0, p);
    ParseIntOfNumberTwice(px);
    ParseIntOfNumberTwice(py);
  }

  /** The first state of the list with the given name; no name, or a name no state has, gives None. */
  function FirstNamed(states: seq<State>, name: Option<string>): (r: Option<State>)
    ensures r.Some? ==> r.value in states && name == Some(r.value.name)
    ensures r.None? <==> forall s :: s in states ==> name != Some(s.name)
  {
    if states == [] then None
    else if name == Some(states[0].name) then Some(states[0])
    else FirstNamed(states[1..], name)
  }

  /** A state whose name no earlier state has is the one found for that name. */
  lemma {:induction false} FirstNamedIsFirst(states: seq<State>, name: Option<string>, i: nat)
    requires i < |states| && name == Some(states[i].name)
    requires forall k :: 0 <= k < i ==> name != Some(states[k].name)
    ensures FirstNamed(states, name) == Some(states[i])
  {
    if i > 0 {
      FirstNamedIsFirst(states[1..], name, i - 1);
    }
  }

  /**
   * `getStateFromColor(r, g, b)` on a pixel read back from the image: an
   * undefined channel raises in `toString`; otherwise the palette turns
   * the colour's key into a state name, or into nothing, and the state is
   * the first of the list with that name.
   */
  function StateFromColour(states: seq<State>, c: RGBColor): (r: Result<Option<State>, Fault>)
    ensures r.Success? <==> c.red.Some? && c.green.Some? && c.blue.Some?
    ensures r.Success? && r.value.Some? ==> r.value.value in states
  {
    if c.red.None? || c.green.None? || c.blue.None? then Failure(TypeError)
    else Success(FirstNamed(states, StateOfColour(Hex(c.red.value, c.green.value, c.blue.value))))
  }

  /** A painted pixel picks the state its colour is the key of, when the list has a state of that name. */
  lemma PaintedPixelPicksState(states: seq<State>, r: Byte, g: Byte, b: Byte, s: State)
    requires s in states && StateOfColour(Hex(r, g, b)) == Some(s.name)
    ensures var picked := StateFromColour(states, RGBColor(Some(r), Some(g), Some(b)));
      picked.Success? && picked.value.Some? && picked.value.value.name == s.name && picked.value.value in states
  {
  }

  /**
   * Every colour the palette lists can be painted: some byte colour has
   * its key, and a pixel of that colour picks the first state of the list
   * with the name the palette gives it.
   */
  lemma PaletteColoursArePickable(states: seq<State>, key: string)
    requires StateOfColour(key).Some?
    ensures exists r: Byte, g: Byte, b: Byte ::
      Hex(r, g, b) == key && StateFromColour(states, RGBColor(Some(r), Some(g), Some(b))) == Success(FirstNamed(states, StateOfColour(key)))
  {
    KeysAreColours(key);
    var r: Byte, g: Byte, b: Byte :| Hex(r, g, b) == key;
    assert StateFromColour(states, RGBColor(Some(r), Some(g), Some(b))) == Success(FirstNamed(states, StateOfColour(key)));
  }

  /** The active state after a hit test whose outcome is o: the state picked, if one was, else the one before. */
  function SelectionAfter(o: Result<Option<Option<State>>, Fault>, before: Option<State>): Option<State> {
    if o.Success? && o.value.Some? then o.value.value else before
  }

  /** What `hitTest` hands back for outcome o: the fault it raises, `undefined`, or whether a state was picked. */
  function Answer(o: Result<Option<Option<State>>, Fault>): Result<Option<bool>, Fault> {
    if o.Failure? then Failure(o.error)
    else if o.value.None? then Success(None)
    else Success(Some(o.value.value.Some?))
  }

  class VisualMap {
    const listOfStates: seq<State>
    const canvasWidth: int
    const canvasHeight: int
    const statePanel: StatePanel
    var activeState: Option<State>
    /** The sampled picture; `undefined` (None) until the image has loaded. */
    var imageData: Option<RGBImageData>

    ghost function ImageRepr(): set<object>
      reads this
    {
      if imageData.Some? then {imageData.value, imageData.value.red, imageData.value.green, imageData.value.blue} else {}
    }

    /** The panel of four slots is well formed, the picture is sampled right, and the active state is one of the list's. */
    ghost predicate Valid()
      reads this, statePanel, statePanel.stateBoxes, ImageRepr()
    {
      && statePanel.Valid() && statePanel.stateCount == 4
      && (imageData.Some? ==> imageData.value.Valid())
      && (activeState.Some? ==> activeState.value in listOfStates)
    }

    /** `new VisualMap(listOfStates, canvas, mapURL)`: nothing active, the image still loading, and an empty panel of four slots on the right. */
    constructor (listOfStates: seq<State>, canvasWidth: int, canvasHeight: int, screen: Screen)
      requires screen.pixelRatio > 0.0
      ensures Valid()
      ensures this.listOfStates == listOfStates && this.canvasWidth == canvasWidth && this.canvasHeight == canvasHeight
      ensures activeState == None && imageData == None
      ensures fresh(statePanel) && statePanel.orientation == Right(screen)
      ensures statePanel.slots == Empty(4) && statePanel.stateGraph == None
    {
      var panel := new StatePanel(4, Right(screen), screen);
      this.listOfStates := listOfStates;
      this.canvasWidth, this.canvasHeight := canvasWidth, canvasHeight;
      statePanel := panel;
      activeState := None;
      imageData := None;
    }

    /** `mapImage.onload`: the picture's bytes, as the canvas returns them, are sampled. */
    method OnImageLoaded(pixelData: seq<Byte>, width: nat, height: nat)
      requires Valid() && |pixelData| == 4 * (width * height)
      modifies this`imageData
      ensures Valid()
      ensures imageData.Some? && fresh(imageData.value)
      ensures imageData.value.pixelData == pixelData && imageData.value.width == width && imageData.value.height == height
    {
      var data := new RGBImageData(pixelData, width, height);
      imageData := Some(data);
    }

    /**
     * What `hitTest(px, py, transform)` does. Success(None): it returns
     * `undefined` and leaves the active state alone (the pixel is off the
     * canvas). Success(Some(s)): it makes s the active state. Failure: it
     * raises, because the picture has not loaded, the pixel is past the
     * picture's right edge, or a channel is undefined (past its bottom).
     */
    function HitOutcome(px: real, py: real, transform: Matrix): (r: Result<Option<Option<State>>, Fault>)
      reads this
      requires Is3x3(transform)
      requires imageData.Some? ==> |imageData.value.pixelData| == 4 * (imageData.value.width * imageData.value.height)
      ensures r.Success? && r.value.Some? ==> imageData.Some?
      ensures r.Success? && r.value.Some? && r.value.value.Some? ==> r.value.value.value in listOfStates
    {
      var target := MapPixel(px, py, transform);
      if target.None? || !InBounds(target.value.0, target.value.1, canvasWidth, canvasHeight) then Success(None)
      else
        var picked := PickAt(target.value.0, target.value.1);
        if picked.Failure? then Failure(picked.error) else Success(Some(picked.value))
    }

    /**
     * The state picked at pixel (x, y) inside the canvas: the picture's
     * channels there (undefined past its bottom, a fault past its right
     * edge or before it has loaded), turned into a state by its colour.
     */
    function PickAt(x: nat, y: nat): (r: Result<Option<State>, Fault>)
      reads this
      requires imageData.Some? ==> |imageData.value.pixelData| == 4 * (imageData.value.width * imageData.value.height)
      ensures r.Success? ==> imageData.Some? && x < imageData.value.width
      ensures r.Success? && r.value.Some? ==> r.value.value in listOfStates
    {
      if imageData.None? then Failure(TypeError)
      else
        var image := imageData.value;
        if x >= image.width then Failure(TypeError)
        else if y < image.height then StateFromColour(listOfStates, PixelAt(image.pixelData, image.width, image.height, x, y))
        else StateFromColour(listOfStates, RGBColor(None, None, None))
    }

    /** `imageData.getPixelData(x, y)` and `getStateFromColor` on its channels. */
    method Pick(x: nat, y: nat) returns (picked: Result<Option<State>, Fault>)
      requires Valid()
      ensures picked == PickAt(x, y)
    {
      if imageData.None? {
        return Failure(TypeError);
      }
      var pixel := imageData.value.GetPixelData(x, y);
      if pixel.Failure? {
        return Failure(TypeError);
      }
      picked := GetStateFromColor(pixel.value);
    }

    /** `getStateByName(stateName)`: the first state of the list with that name; an unknown or missing name gives `null` (None). */
    method GetStateByName(name: Option<string>) returns (s: Option<State>)
      ensures s == FirstNamed(listOfStates, name)
    {
      for i := 0 to |listOfStates|
        invariant forall k :: 0 <= k < i ==> name != Some(listOfStates[k].name)
      {
        if name == Some(listOfStates[i].name) {
          FirstNamedIsFirst(listOfStates, name, i);
          return Some(listOfStates[i]);
        }
      }
      return None;
    }

    /** `getStateFromColor(r, g, b)`. */
    method GetStateFromColor(c: RGBColor) returns (r: Result<Option<State>, Fault>)
      ensures r == StateFromColour(listOfStates, c)
    {
      if c.red.None? || c.green.None? || c.blue.None? {
        return Failure(TypeError);
      }
      var converter := new RGBToHex(c.red.value, c.green.value, c.blue.value);
      var hexColor := converter.GetHexValue();
      var state := GetStateByName(StateOfColour(hexColor));
      return Success(state);
    }

    /**
     * `hitTest(px, py, transform)`: the answer is `undefined` (None) off the
     * canvas, and otherwise whether the pixel's colour picked a state, which
     * becomes the active state.
     */
    method HitTest(px: real, py: real, transform: Matrix) returns (r: Result<Option<bool>, Fault>)
      requires Valid() && Is3x3(transform)
      modifies this`activeState
      ensures Valid()
      ensures activeState == SelectionAfter(HitOutcome(px, py, transform), old(activeState))
      ensures r == Answer(HitOutcome(px, py, transform))
    {
      ghost var outcome := HitOutcome(px, py, transform);
      var target := MapPixel(px, py, transform);
      if target.None? {
        assert outcome == Success(None);
        return Success(None);
      }
      var x, y := target.value.0, target.value.1;
      if !InBounds(x, y, canvasWidth, canvasHeight) {
        assert outcome == Success(None);
        return Success(None);
      }
      var picked := Pick(x, y);
      if picked.Failure? {
        assert outcome == Failure(picked.error);
        return Failure(picked.error);
      }
      assert outcome == Success(Some(picked.value));
      activeState := picked.value;
      return Success(Some(activeState != None));
    }

    /** `addActiveStateToPanel()`: the active state, if there is one, is added to the panel. */
    method AddActiveStateToPanel()
      requires Valid()
      modifies statePanel`slots, statePanel.stateBoxes
      ensures Valid()
      ensures statePanel.slots == if activeState.Some? then Added(old(statePanel.slots), activeState.value) else old(statePanel.slots)
    {
      if activeState != None {
        statePanel.AddStateToPanel(activeState.value);
      }
    }
  }

  /**
   * Clicking where a pixel of the loaded picture is drawn picks the state
   * that pixel's colour names: the pixel inside the canvas and the picture,
   * and the transform taking it to whole screen coordinates.
   */
  lemma ClickOnPaintedPixel(m: VisualMap, transform: Matrix, a: nat, b: nat, x: int, y: int)
    requires IsAffine(transform) && Det3(transform) != 0.0
    requires Apply(transform, Point(a as real, b as real)) == Success(Point(x as real, y as real))
    requires InBounds(a, b, m.canvasWidth, m.canvasHeight)
    requires InFull(a) && InFull(b) && InFull(x) && InFull(y)
    requires m.imageData.Some?
    requires var image := m.imageData.value;
      |image.pixelData| == 4 * (image.width * image.height) && a < image.width && b < image.height
    ensures var image := m.imageData.value;
      var c := PixelAt(image.pixelData, image.width, image.height, a, b);
      m.HitOutcome(x as real, y as real, transform) ==
        Success(Some(FirstNamed(m.listOfStates, StateOfColour(Hex(c.red.value, c.green.value, c.blue.value)))))
  {
    MapPixelFindsDrawnPixel(transform, a, b, x, y);
  }
}
