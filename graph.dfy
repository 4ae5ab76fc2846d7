/**
 * The comparison graph: one pair of bars per selected state (population,
 * then housing units), all drawn to one scale chosen so that the largest
 * figure fills five sixths of the screen's height, with a "Back" button.
 */
module Graphs {
  import opened Wrappers
  import opened Data
  import opened Boxes

  // ---------------------------------------------------------------------
  // The scale
  // ---------------------------------------------------------------------

  /** `max` after one comparison: a figure that is NaN (None) never compares greater. */
  function Larger(max: int, figure: Option<int>): (m: int)
    ensures m >= max
    ensures figure.Some? ==> m >= figure.value
    ensures m == max || (figure.Some? && m == figure.value)
  {
    if figure.Some? && figure.value > max then figure.value else max
  }

  /** The running maximum of `calculateScale` after the given states, starting from 0. */
  function MaxFigure(states: seq<State>): (max: int)
    ensures max >= 0
  {
    if states == [] then 0
    else
      var last := states[|states| - 1];
      Larger(Larger(MaxFigure(states[..|states| - 1]), last.population), last.housingUnits)
  }

  /** A figure of one of the states. */
  predicate IsFigureOf(v: int, states: seq<State>) {
    exists i :: 0 <= i < |states| && (states[i].population == Some(v) || states[i].housingUnits == Some(v))
  }

  /** The maximum is at least every figure, and it is 0 or one of the figures. */
  lemma {:induction false} MaxFigureIsMaximum(states: seq<State>)
    ensures forall i :: 0 <= i < |states| && states[i].population.Some? ==> states[i].population.value <= MaxFigure(states)
    ensures forall i :: 0 <= i < |states| && states[i].housingUnits.Some? ==> states[i].housingUnits.value <= MaxFigure(states)
    ensures MaxFigure(states) == 0 || IsFigureOf(MaxFigure(states), states)
  {
    if states != [] {
      var init := states[..|states| - 1];
      MaxFigureIsMaximum(init);
      var m := MaxFigure(init);
      if m != 0 && IsFigureOf(m, init) {
        var i :| 0 <= i < |init| && (init[i].population == Some(m) || init[i].housingUnits == Some(m));
        assert states[i] == init[i];
      }
      forall i | 0 <= i < |states| - 1
        ensures states[i] == init[i]
      {
      }
    }
  }

  /** The height the tallest bar is given: five sixths of the screen's height in CSS pixels. */
  function Room(screen: Screen): real
    requires screen.pixelRatio > 0.0
  {
    screen.height / screen.pixelRatio * (5.0 / 6.0)
  }

  /**
   * The scale the room and the states give: the room divided by the
   * largest figure. With no positive figure the source divides by zero and
   * gets a number that is not finite; that is None here.
   */
  function ScaleFor(states: seq<State>, room: real): Option<real> {
    var max := MaxFigure(states);
    if max == 0 then None else Some(room / max as real)
  }

  /** `calculateScale()`: the scale for the room five sixths of the screen high. */
  method CalculateScale(states: seq<State>, screen: Screen) returns (scale: Option<real>)
    requires screen.pixelRatio > 0.0
    ensures scale == ScaleFor(states, Room(screen))
  {
    var max := 0;
    for i := 0 to |states|
      invariant max == MaxFigure(states[..i])
    {
      assert states[..i + 1][..i] == states[..i];
      if states[i].population.Some? && states[i].population.value > max {
        max := states[i].population.value;
      }
      if states[i].housingUnits.Some? && states[i].housingUnits.value > max {
        max := states[i].housingUnits.value;
      }
    }
    assert states[..|states|] == states;
    scale := if max == 0 then None else Some(Room(screen) / max as real);
  }

  /**
   * Drawn to a finite scale, no figure is taller than the room and the
   * largest fills it exactly.
   */
  lemma ScaleFitsFigures(states: seq<State>, room: real, v: int, scale: real)
    requires room >= 0.0 && IsFigureOf(v, states)
    requires ScaleFor(states, room) == Some(scale)
    ensures v as real * scale <= room
    ensures v == MaxFigure(states) ==> v as real * scale == room
  {
    FigureBelowMax(states, v);
    var m := MaxFigure(states);
    ScaledBelow(v as real, m as real, scale, room);
    if v == m {
      assert v as real * scale == m as real * scale;
    }
  }

  /** Without a finite scale no figure is positive. */
  lemma NoScaleWithoutPositiveFigure(states: seq<State>, room: real, v: int)
    requires IsFigureOf(v, states)
    requires ScaleFor(states, room) == None
    ensures v <= 0
  {
    FigureBelowMax(states, v);
  }

  /** No figure is above the maximum. */
  lemma FigureBelowMax(states: seq<State>, v: int)
    requires IsFigureOf(v, states)
    ensures v <= MaxFigure(states)
  {
    MaxFigureIsMaximum(states);
  }

  /** The room is not negative on a screen of non-negative height. */
  lemma RoomNonNegative(screen: Screen)
    requires screen.pixelRatio > 0.0 && screen.height >= 0.0
    ensures Room(screen) >= 0.0
  {
    assert screen.height / screen.pixelRatio >= 0.0;
  }

  /** A scale k that takes m to the room takes anything from 0 up to m to at most the room. */
  lemma ScaledBelow(v: real, m: real, k: real, room: real)
    requires 0.0 < m && v <= m && room >= 0.0 && k == room / m
    ensures v * k <= room
    ensures m * k == room
  {
    assert k >= 0.0;
    assert m * k == room;
    assert v * k <= m * k;
  }

  // ---------------------------------------------------------------------
  // Bars
  // ---------------------------------------------------------------------

  /** One bar: a figure, the graph's scale, where its foot is, and whether its value is shown. */
  class Bar {
    const value: Option<int>
    const scale: Option<real>
    const x: real
    const y: real
    const width: real
    var valueShown: bool

    /** `new Bar(value, scale, x, y, style)`: one sixteenth of the screen wide, value hidden. */
    constructor (value: Option<int>, scale: Option<real>, x: real, y: real, screen: Screen)
      ensures this.value == value && this.scale == scale && this.x == x && this.y == y
      ensures width == screen.width / 16.0 && !valueShown
    {
      this.value, this.scale, this.x, this.y := value, scale, x, y;
      width := screen.width / 16.0;
      valueShown := false;
    }

    /**
     * `getHeight()`: the figure times the scale. A NaN figure or a scale
     * that is not finite gives no real height (None).
     */
    function GetHeight(): (h: Option<real>)
      ensures h.Some? <==> value.Some? && scale.Some?
      ensures h.Some? ==> h.value == value.value as real * scale.value
    {
      if value.Some? && scale.Some? then Some(value.value as real * scale.value) else None
    }

    /**
     * `hitTest(x, y)`: strictly inside the bar, which rises from its foot.
     * A bar without a real height is never hit: the graph gives a
     * non-finite scale only when no figure is positive (`ScaleFitsFigures`),
     * and then the height is NaN or minus infinity, which fails the test.
     */
    predicate HitTest(px: real, py: real) {
      var h := GetHeight();
      h.Some? && px > x && px < x + width && py > y - h.value && py < y
    }

    /** `checkForHover(x, y)`: the value is shown exactly while the point is over the bar. */
    method CheckForHover(px: real, py: real)
      modifies this`valueShown
      ensures valueShown == HitTest(px, py)
    {
      valueShown := HitTest(px, py);
    }
  }

  /**
   * A bar's strict test admits only points of its closed box, and never a
   * point on the box's left edge or at its foot.
   */
  lemma BarHitInsideBox(b: Bar, px: real, py: real)
    requires b.HitTest(px, py)
    ensures var h := b.GetHeight().value;
      HitTestBox(Rect(b.x, b.y - h, b.width, h), px, py)
    ensures !b.HitTest(b.x, py) && !b.HitTest(px, b.y)
  {
  }

  /** The drawing of one state in the graph: its name and its two bars. */
  datatype BarGraphState = BarGraphState(state: State, x: real, y: real, populationBar: Bar, housingBar: Bar)

  /** A bar for the given figure, scale and foot. */
  predicate BarAt(b: Bar, value: Option<int>, scale: Option<real>, x: real, y: real, screen: Screen) {
    b.value == value && b.scale == scale && b.x == x && b.y == y && b.width == screen.width / 16.0
  }

  /**
   * `new BarGraphState(state, x, y, ..., scale)` as the i-th of the graph:
   * spaced one and a half spacings apart, the housing bar one bar-width
   * right of the population bar.
   */
  predicate LaidOut(g: BarGraphState, s: State, i: nat, x: real, y: real, spacing: real, scale: Option<real>, screen: Screen) {
    && g.state == s
    && g.x == x + spacing * (i as real) * 1.5 && g.y == y
    && BarAt(g.populationBar, s.population, scale, g.x, y, screen)
    && BarAt(g.housingBar, s.housingUnits, scale, g.x + screen.width / 16.0, y, screen)
  }

  /** No bar is shared between two places of the graph. */
  predicate BarsDistinct(gs: seq<BarGraphState>) {
    forall i, j :: 0 <= i < |gs| && 0 <= j < |gs| ==>
      && gs[i].populationBar != gs[j].housingBar
      && (i != j ==> gs[i].populationBar != gs[j].populationBar && gs[i].housingBar != gs[j].housingBar)
  }

  /** Every bar of the graph. */
  function BarsOf(gs: seq<BarGraphState>): set<Bar> {
    (set i | 0 <= i < |gs| :: gs[i].populationBar) + (set i | 0 <= i < |gs| :: gs[i].housingBar)
  }

  /** `generateBarGraphStates()`: one drawing per state, in order, each with two new bars. */
  method GenerateBarGraphStates(states: seq<State>, x: real, y: real, spacing: real, scale: Option<real>, screen: Screen)
    returns (gs: seq<BarGraphState>)
    ensures |gs| == |states|
    ensures forall i :: 0 <= i < |gs| ==> LaidOut(gs[i], states[i], i, x, y, spacing, scale, screen)
    ensures forall i :: 0 <= i < |gs| ==> fresh(gs[i].populationBar) && fresh(gs[i].housingBar)
    ensures forall i :: 0 <= i < |gs| ==> !gs[i].populationBar.valueShown && !gs[i].housingBar.valueShown
    ensures BarsDistinct(gs)
  {
    gs := [];
    for i := 0 to |states|
      invariant |gs| == i
      invariant forall k :: 0 <= k < i ==> LaidOut(gs[k], states[k], k, x, y, spacing, scale, screen)
      invariant forall k :: 0 <= k < i ==> fresh(gs[k].populationBar) && fresh(gs[k].housingBar)
      invariant forall k :: 0 <= k < i ==> !gs[k].populationBar.valueShown && !gs[k].housingBar.valueShown
      invariant BarsDistinct(gs)
    {
      var bx := x + spacing * (i as real) * 1.5;
      var populationBar := new Bar(states[i].population, scale, bx, y, screen);
      var housingBar := new Bar(states[i].housingUnits, scale, bx + screen.width / 16.0, y, screen);
      gs := gs + [BarGraphState(states[i], bx, y, populationBar, housingBar)];
    }
  }

  class StateGraph {
    const states: seq<State>
    const screen: Screen
    const spacing: real
    const x: real
    const y: real
    const scale: Option<real>
    const barGraphStates: seq<BarGraphState>
    const backButton: Button
    /** The bars of all the drawings. */
    ghost const bars: set<Bar>

    /** The drawings follow the states in order, at the graph's scale, and own their bars. */
    ghost predicate Valid() {
      && screen.pixelRatio > 0.0
      && scale == ScaleFor(states, Room(screen))
      && |barGraphStates| == |states|
      && (forall i :: 0 <= i < |states| ==> LaidOut(barGraphStates[i], states[i], i, x, y, spacing, scale, screen))
      && BarsDistinct(barGraphStates)
      && backButton.action == Back
      && bars == BarsOf(barGraphStates)
    }

    /** The bars, which are all the graph changes. */
    ghost function Bars(): set<Bar> {
      bars
    }

    /**
     * `new StateGraph(states, spacing, x, y, statePanel)` as the panel
     * builds it: bars spaced one eighth of the screen apart from one eighth
     * in, standing on a line one sixth of the screen above the bottom, and
     * a "Back" button in the top-left corner.
     */
    constructor (states: seq<State>, screen: Screen)
      requires screen.pixelRatio > 0.0
      ensures Valid() && this.states == states && this.screen == screen
      ensures fresh(Bars())
      ensures forall b :: b in Bars() ==> !b.valueShown
    {
      this.states := states;
      this.screen := screen;
      var spacing := screen.width / 8.0;
      var x := 0.0 + screen.width / 8.0;
      var y := screen.height - screen.height / 6.0;
      var scale := CalculateScale(states, screen);
      var gs := GenerateBarGraphStates(states, x, y, spacing, scale, screen);
      this.spacing, this.x, this.y, this.scale := spacing, x, y, scale;
      barGraphStates := gs;
      bars := BarsOf(gs);
      backButton := NewButton(0.0, 0.0, Back, screen);
    }

    /** Every bar shows its value exactly when (px, py) is over it. */
    ghost predicate Hovered(px: real, py: real)
      reads BarsOf(barGraphStates)
    {
      forall i :: 0 <= i < |barGraphStates| ==>
        && barGraphStates[i].populationBar.valueShown == barGraphStates[i].populationBar.HitTest(px, py)
        && barGraphStates[i].housingBar.valueShown == barGraphStates[i].housingBar.HitTest(px, py)
    }

    /**
     * `hitTest(x, y)`: every bar shows its value exactly when the point is
     * over it, and the answer is whether the point is on the "Back" button.
     */
    method HitTest(px: real, py: real) returns (back: bool)
      requires Valid()
      modifies Bars()
      ensures back == HitTestBox(backButton.box, px, py)
      ensures Hovered(px, py)
    {
      var gs := barGraphStates;
      for i := 0 to |gs|
        invariant forall k :: 0 <= k < i ==>
          && gs[k].populationBar.valueShown == gs[k].populationBar.HitTest(px, py)
          && gs[k].housingBar.valueShown == gs[k].housingBar.HitTest(px, py)
      {
        assert gs[i].populationBar in Bars() && gs[i].housingBar in Bars();
        gs[i].populationBar.CheckForHover(px, py);
        gs[i].housingBar.CheckForHover(px, py);
      }
      back := HitTestBox(backButton.box, px, py);
    }

    /** `processClick(x, y)`: whether the "Back" button was clicked, which closes the graph. */
    method ProcessClick(px: real, py: real) returns (back: bool)
      requires Valid()
      ensures back == HitTestBox(backButton.box, px, py)
    {
      back := HitTestBox(backButton.box, px, py);
    }
  }
}
