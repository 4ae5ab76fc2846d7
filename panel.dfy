/**
 * `StatePanel`: a fixed column of slots for the states the user picked on
 * the map, with a "Compare" button that opens the graph of the picked
 * states and a "Clear All" button that empties every slot. A picked state
 * goes into the first empty slot and is never held twice; clicking a full
 * slot empties it.
 */
module Panels {
  import opened Wrappers
  import opened Affine
  import opened Data
  import opened Boxes
  import opened Graphs

  // ---------------------------------------------------------------------
  // The slots as values
  // ---------------------------------------------------------------------

  /** Every slot empty. */
  function Empty(n: nat): (slots: seq<Option<State>>)
    ensures |slots| == n
  {
    seq(n, _ => None)
  }

  /** The states of the full slots, in slot order: what `getCurrentStates()` lists. */
  function Filled(slots: seq<Option<State>>): (states: seq<State>)
    ensures |states| <= |slots|
  {
    if slots == [] then []
    else
      var last := slots[|slots| - 1];
      Filled(slots[..|slots| - 1]) + (if last.Some? then [last.value] else [])
  }

  /** A state is listed exactly when some slot holds it. */
  lemma {:induction false} FilledHoldsTheFullSlots(slots: seq<Option<State>>, s: State)
    ensures s in Filled(slots) <==> Some(s) in slots
  {
    if slots != [] {
      var init := slots[..|slots| - 1];
      FilledHoldsTheFullSlots(init, s);
      assert slots == init + [slots[|slots| - 1]];
    }
  }

  /** Only empty slots list nothing, and every full slot adds one state to the list. */
  lemma {:induction false} FilledEmptyExactly(slots: seq<Option<State>>)
    ensures Filled(slots) == [] <==> forall i :: 0 <= i < |slots| ==> slots[i] == None
  {
    if slots != [] {
      var init := slots[..|slots| - 1];
      FilledEmptyExactly(init);
      assert forall i :: 0 <= i < |init| ==> init[i] == slots[i];
    }
  }

  /** No state is held by two slots. */
  predicate NoRepeats(slots: seq<Option<State>>) {
    forall i, j :: 0 <= i < j < |slots| && slots[i] != None ==> slots[i] != slots[j]
  }

  /**
   * `addStateToPanel(state)` on the slots: a state already held changes
   * nothing; otherwise it goes into the first empty slot, if there is one.
   */
  function Added(slots: seq<Option<State>>, s: State): (r: seq<Option<State>>)
    ensures |r| == |slots|
  {
    if Some(s) in slots then slots
    else
      var i := FirstIndex(slots, None);
      if i < 0 then slots else slots[i := Some(s)]
  }

  /**
   * A state that is not yet held lands in the lowest-index empty slot and
   * nothing else changes; a state already held, or a full panel, leaves
   * the slots as they were. Either way the state is held afterwards unless
   * the panel was full, and no state is held twice.
   */
  lemma AddedPlacesState(slots: seq<Option<State>>, s: State)
    ensures Some(s) in slots || None !in slots ==> Added(slots, s) == slots
    ensures Some(s) !in slots && None in slots ==>
      var i := FirstIndex(slots, None);
      && 0 <= i < |slots|
      && (forall j :: 0 <= j < i ==> slots[j] != None)
      && Added(slots, s) == slots[i := Some(s)]
    ensures Some(s) in Added(slots, s) <==> Some(s) in slots || None in slots
    ensures NoRepeats(slots) ==> NoRepeats(Added(slots, s))
  {
    if Some(s) !in slots && None in slots {
      var i := FirstIndex(slots, None);
      forall j | 0 <= j < i
        ensures slots[j] != None
      {
        assert slots[j] == slots[..i][j];
      }
      FillingKeepsNoRepeats(slots, i, s);
    }
  }

  /** Putting a state nobody holds into a slot keeps every state held at most once. */
  lemma FillingKeepsNoRepeats(slots: seq<Option<State>>, i: nat, s: State)
    requires i < |slots| && Some(s) !in slots
    ensures Some(s) in slots[i := Some(s)]
    ensures NoRepeats(slots) ==> NoRepeats(slots[i := Some(s)])
  {
    var r := slots[i := Some(s)];
    assert r[i] == Some(s);
    if NoRepeats(slots) {
      forall k, l | 0 <= k < l < |r| && r[k] != None
        ensures r[k] != r[l]
      {
        if k == i {
          assert slots[l] in slots;
        } else if l == i {
          assert slots[k] in slots;
        }
      }
    }
  }

  /** Emptying any slots keeps every state held at most once. */
  lemma EmptyingKeepsNoRepeats(slots: seq<Option<State>>, r: seq<Option<State>>)
    requires NoRepeats(slots) && |r| == |slots|
    requires forall i :: 0 <= i < |r| ==> r[i] == None || r[i] == slots[i]
    ensures NoRepeats(r)
  {
  }

  /** An empty slot with only full slots before it is the first empty slot. */
  lemma FirstEmptySlot(slots: seq<Option<State>>, i: nat)
    requires i < |slots| && slots[i] == None
    requires forall k :: 0 <= k < i ==> slots[k] != None
    ensures FirstIndex(slots, None) == i
  {
  }

  // ---------------------------------------------------------------------
  // The panel
  // ---------------------------------------------------------------------

  /**
   * `getBoxYPosition(index, height, padding)`: boxes a height and a padding
   * apart; when the panel is not anchored at the top they are shifted up by
   * half the column's length and one pixel more.
   */
  function BoxYPosition(index: nat, height: real, padding: real, stateCount: nat, orientation: Point): (y: real)
    ensures orientation.y == 0.0 ==> y == index as real * (padding + height)
    ensures orientation.y != 0.0 ==> y + 1.0 - orientation.y == (index as real - stateCount as real / 2.0) * (padding + height)
  {
    var offset := if orientation.y != 0.0 then -1.0 * (padding + height) * (stateCount as real) / 2.0 - 1.0 else 0.0;
    (index as real) * (padding + height) + offset + orientation.y
  }

  /**
   * Box j starts (j - i) box-and-padding steps below box i, so with a
   * non-negative height and padding a box ends before the next one begins.
   */
  lemma {:induction false} BoxesStacked(i: nat, j: nat, height: real, padding: real, stateCount: nat, orientation: Point)
    requires i <= j
    ensures BoxYPosition(j, height, padding, stateCount, orientation) - BoxYPosition(i, height, padding, stateCount, orientation)
      == (j - i) as real * (padding + height)
    ensures height >= 0.0 && padding >= 0.0 && i < j ==>
      BoxYPosition(i, height, padding, stateCount, orientation) + height <= BoxYPosition(j, height, padding, stateCount, orientation)
    decreases j - i
  {
    if i < j {
      BoxesStacked(i, j - 1, height, padding, stateCount, orientation);
    }
  }

  /**
   * `generateStateBoxes()`: the first box gives the size of all of them and
   * a padding of half a box; the column's left edge is one box-width left
   * of the anchor point, and the panel's own `y` is the first box's.
   */
  method GenerateStateBoxes(stateCount: nat, orientation: Point, screen: Screen)
    returns (boxes: seq<StateBox>, x: real, y: real, width: real, height: real, padding: real)
    requires stateCount > 0 && screen.pixelRatio > 0.0
    ensures width == screen.width / 8.0 && height == screen.height / screen.pixelRatio / 8.0 && padding == height / 2.0
    ensures x == orientation.x - width && y == BoxYPosition(0, height, padding, stateCount, orientation)
    ensures |boxes| == stateCount
    ensures forall i :: 0 <= i < stateCount ==> fresh(boxes[i])
    ensures forall i, j :: 0 <= i < j < stateCount ==> boxes[i] != boxes[j]
    ensures forall i :: 0 <= i < stateCount ==> boxes[i].state == None
    ensures forall i :: 0 <= i < stateCount ==>
      boxes[i].Box() == Rect(x, BoxYPosition(i, height, padding, stateCount, orientation), width, height)
  {
    var firstBox := new StateBox(0.0, 0.0, screen);
    height := firstBox.height;
    width := firstBox.width;
    padding := height / 2.0;
    x := orientation.x - width;
    y := BoxYPosition(0, height, padding, stateCount, orientation);
    firstBox.SetPosition(x, y);
    boxes := [firstBox];
    for i := 1 to stateCount
      invariant |boxes| == i
      invariant forall k :: 0 <= k < i ==> fresh(boxes[k])
      invariant forall k, l :: 0 <= k < l < i ==> boxes[k] != boxes[l]
      invariant forall k :: 0 <= k < i ==> boxes[k].state == None
      invariant forall k :: 0 <= k < i ==>
        boxes[k].Box() == Rect(x, BoxYPosition(k, height, padding, stateCount, orientation), width, height)
    {
      var box := new StateBox(x, BoxYPosition(i, height, padding, stateCount, orientation), screen);
      boxes := boxes + [box];
    }
  }

  class StatePanel {
    const stateCount: nat
    const orientation: Point
    const screen: Screen
    const x: real
    const y: real
    const boxWidth: real
    const boxHeight: real
    const padding: real
    const stateBoxes: seq<StateBox>
    const compareButton: Button
    const clearButton: Button
    const buttons: seq<Button>
    var stateGraph: Option<StateGraph>
    /** What the boxes hold, slot by slot: `stateBoxes[i].state`. */
    ghost var slots: seq<Option<State>>

    /** Where box i is drawn. */
    function BoxRect(i: nat): Rect {
      Rect(x, BoxYPosition(i, boxHeight, padding, stateCount, orientation), boxWidth, boxHeight)
    }

    /**
     * One box per slot, no box shared, `slots` mirrors the boxes, each box
     * where the layout puts it, no state held twice, the two buttons in
     * order, and an open graph well formed.
     */
    ghost predicate Valid()
      reads this, stateBoxes
    {
      && screen.pixelRatio > 0.0
      && |stateBoxes| == stateCount && |slots| == stateCount
      && (forall i, j :: 0 <= i < j < stateCount ==> stateBoxes[i] != stateBoxes[j])
      && (forall i :: 0 <= i < stateCount ==> stateBoxes[i].state == slots[i])
      && (forall i :: 0 <= i < stateCount ==> stateBoxes[i].Box() == BoxRect(i))
      && NoRepeats(slots)
      && compareButton.action == Compare && clearButton.action == ClearAll
      && buttons == [compareButton, clearButton]
      && (stateGraph.Some? ==> stateGraph.value.Valid() && stateGraph.value.screen == screen)
    }

    /**
     * `new StatePanel(stateCount, orientation)`: empty boxes one below the
     * other, their right edges on the anchor point, and the two buttons
     * above the first box; no graph.
     */
    constructor (stateCount: nat, orientation: Point, screen: Screen)
      requires stateCount > 0 && screen.pixelRatio > 0.0
      ensures Valid()
      ensures this.stateCount == stateCount && this.orientation == orientation && this.screen == screen
      ensures slots == Empty(stateCount) && stateGraph == None
      ensures forall i :: 0 <= i < stateCount ==> fresh(stateBoxes[i])
      ensures x == orientation.x - screen.width / 8.0 && y == BoxRect(0).y
    {
      var boxes, x, y, width, height, padding := GenerateStateBoxes(stateCount, orientation, screen);
      this.stateCount := stateCount;
      this.orientation := orientation;
      this.screen := screen;
      this.x, this.y := x, y;
      boxWidth, boxHeight, this.padding := width, height, padding;
      stateBoxes := boxes;
      var compare := NewButton(x, y - screen.height / 8.0, Compare, screen);
      var clear := NewButton(x, y - screen.height / 16.0, ClearAll, screen);
      compareButton, clearButton := compare, clear;
      buttons := [compare, clear];
      stateGraph := None;
      slots := Empty(stateCount);
    }

    /** `containsState(state)`: some box holds the state. */
    method ContainsState(s: State) returns (b: bool)
      requires Valid()
      ensures b <==> Some(s) in slots
    {
      for i := 0 to |stateBoxes|
        invariant forall k :: 0 <= k < i ==> slots[k] != Some(s)
      {
        if stateBoxes[i].GetState() == Some(s) {
          return true;
        }
      }
      return false;
    }

    /** `addStateToPanel(state)`: see `Added` and `AddedPlacesState`. */
    method AddStateToPanel(s: State)
      requires Valid()
      modifies this`slots, stateBoxes
      ensures Valid()
      ensures slots == Added(old(slots), s)
    {
      AddedPlacesState(slots, s);
      var contains := ContainsState(s);
      if !contains {
        var i := 0;
        while i < stateCount
          invariant 0 <= i <= stateCount
          invariant forall k :: 0 <= k < i ==> slots[k] != None
          invariant slots == old(slots)
        {
          if stateBoxes[i].HasState() {
            i := i + 1;
          } else {
            stateBoxes[i].ToggleState(Some(s));
            slots := slots[i := Some(s)];
            FirstEmptySlot(old(slots), i);
            return;
          }
        }
        assert None !in slots;
      }
    }

    /** `getCurrentStates()`: the states of the full boxes, in box order. */
    method GetCurrentStates() returns (states: seq<State>)
      requires Valid()
      ensures states == Filled(slots)
    {
      states := [];
      for i := 0 to stateCount
        invariant states == Filled(slots[..i])
      {
        assert slots[..i + 1][..i] == slots[..i];
        if stateBoxes[i].HasState() {
          states := states + [stateBoxes[i].GetState().value];
        }
      }
      assert slots[..stateCount] == slots;
    }

    /** `currentStateCount()`: how many boxes are full, which is never more than `stateCount`. */
    method CurrentStateCount() returns (count: nat)
      requires Valid()
      ensures count == |Filled(slots)| <= stateCount
    {
      count := 0;
      for i := 0 to stateCount
        invariant count == |Filled(slots[..i])|
      {
        assert slots[..i + 1][..i] == slots[..i];
        if stateBoxes[i].HasState() {
          count := count + 1;
        }
      }
      assert slots[..stateCount] == slots;
    }

    /** `clearAllStateBoxes(stateBoxes)`: every box is emptied. */
    method ClearAllStateBoxes()
      requires Valid()
      modifies this`slots, stateBoxes
      ensures Valid()
      ensures slots == Empty(stateCount)
    {
      for i := 0 to |stateBoxes|
        invariant Valid()
        invariant forall k :: 0 <= k < i ==> slots[k] == None
      {
        ghost var before := slots;
        stateBoxes[i].ClearState();
        slots := slots[i := None];
        EmptyingKeepsNoRepeats(before, slots);
      }
    }

    /** `loadGraph(states)`: a new graph of the given states is open. */
    method LoadGraph(states: seq<State>)
      requires Valid()
      modifies this`stateGraph
      ensures Valid()
      ensures stateGraph.Some? && fresh(stateGraph.value) && stateGraph.value.states == states
      ensures fresh(stateGraph.value.Bars())
    {
      var graph := new StateGraph(states, screen);
      stateGraph := Some(graph);
    }

    /** `stateGraphActive()`: a graph is open. */
    function StateGraphActive(): (b: bool)
      reads this
      ensures b <==> stateGraph != None
    {
      stateGraph != None
    }

    /** `closeStateGraph()`: the graph is closed. */
    method CloseStateGraph()
      requires Valid()
      modifies this`stateGraph
      ensures Valid() && stateGraph == None
    {
      stateGraph := None;
    }

    /** The slots after a click at (px, py) on boxes holding them: every box under the point is emptied. */
    function ClickedAway(slots: seq<Option<State>>, px: real, py: real): (r: seq<Option<State>>)
      ensures |r| == |slots|
    {
      seq(|slots|, i requires 0 <= i < |slots| => if HitTestBox(BoxRect(i), px, py) then None else slots[i])
    }

    /**
     * The buttons' click functions: "Compare" opens a graph of the held
     * states when there is at least one, "Clear All" empties every box and
     * the graph's "Back" closes the graph.
     */
    method Click(action: Action)
      requires Valid()
      modifies this`slots, this`stateGraph, stateBoxes
      ensures Valid()
      ensures slots == if action == ClearAll then Empty(stateCount) else old(slots)
      ensures action == Compare && Filled(old(slots)) != [] ==>
        stateGraph.Some? && fresh(stateGraph.value) && stateGraph.value.states == Filled(old(slots))
      ensures action == Back ==> stateGraph == None
      ensures action == ClearAll || (action == Compare && Filled(old(slots)) == []) ==> stateGraph == old(stateGraph)
    {
      match action
      case Compare =>
        var count := CurrentStateCount();
        if count > 0 {
          var states := GetCurrentStates();
          LoadGraph(states);
        }
      case ClearAll =>
        ClearAllStateBoxes();
      case Back =>
        CloseStateGraph();
    }

    /**
     * `processClickButtons(x, y)`: each button under the point is clicked,
     * "Compare" before "Clear All".
     */
    method ProcessClickButtons(px: real, py: real)
      requires Valid()
      modifies this`slots, this`stateGraph, stateBoxes
      ensures Valid()
      ensures slots == if HitTestBox(clearButton.box, px, py) then Empty(stateCount) else old(slots)
      ensures HitTestBox(compareButton.box, px, py) && Filled(old(slots)) != [] ==>
        stateGraph.Some? && fresh(stateGraph.value) && stateGraph.value.states == Filled(old(slots))
      ensures !(HitTestBox(compareButton.box, px, py) && Filled(old(slots)) != []) ==> stateGraph == old(stateGraph)
    {
      for i := 0 to |buttons|
        invariant Valid()
        invariant slots == if i == 2 && HitTestBox(clearButton.box, px, py) then Empty(stateCount) else old(slots)
        invariant i >= 1 && HitTestBox(compareButton.box, px, py) && Filled(old(slots)) != [] ==>
          stateGraph.Some? && fresh(stateGraph.value) && stateGraph.value.states == Filled(old(slots))
        invariant !(i >= 1 && HitTestBox(compareButton.box, px, py) && Filled(old(slots)) != []) ==> stateGraph == old(stateGraph)
      {
        if HitTestBox(buttons[i].box, px, py) {
          Click(buttons[i].action);
        }
      }
    }

    /**
     * Whether `hitTest(x, y)` answers true: with no graph open, the point is
     * on a button or on a box that holds a state; with a graph open, it is
     * on the graph's "Back" button.
     */
    ghost predicate Hit(px: real, py: real)
      reads this
    {
      if stateGraph.None? then
        || HitTestBox(compareButton.box, px, py) || HitTestBox(clearButton.box, px, py)
        || exists i :: 0 <= i < |slots| && HitTestBox(BoxRect(i), px, py) && slots[i] != None
      else
        HitTestBox(stateGraph.value.backButton.box, px, py)
    }

    /**
     * `hitTest(x, y)`. With no graph open: the point is on a button, or on
     * a box that holds a state. With a graph open: the graph updates its
     * bars' hover and the answer is whether the point is on "Back".
     */
    method HitTest(px: real, py: real) returns (b: bool)
      requires Valid()
      modifies if stateGraph.Some? then stateGraph.value.Bars() else {}
      ensures Valid()
      ensures b == Hit(px, py)
      ensures stateGraph != None ==> stateGraph.value.Hovered(px, py)
    {
      if stateGraph == None {
        var onButton := HitTestButtons(px, py);
        if onButton {
          return true;
        }
        for i := 0 to stateCount
          invariant forall k :: 0 <= k < i ==> !(HitTestBox(BoxRect(k), px, py) && slots[k] != None)
        {
          if stateBoxes[i].HitTest(px, py) && stateBoxes[i].HasState() {
            return true;
          }
        }
        return false;
      } else {
        b := stateGraph.value.HitTest(px, py);
      }
    }

    /** The second half of `processClick` with no graph open: every box under the point that holds a state is emptied. */
    method EmptyClickedBoxes(px: real, py: real)
      requires Valid()
      modifies this`slots, stateBoxes
      ensures Valid()
      ensures slots == ClickedAway(old(slots), px, py)
    {
      for i := 0 to stateCount
        invariant Valid()
        invariant forall k :: 0 <= k < i ==> slots[k] == (if HitTestBox(BoxRect(k), px, py) then None else old(slots)[k])
        invariant forall k :: i <= k < stateCount ==> slots[k] == old(slots)[k]
      {
        if stateBoxes[i].HitTest(px, py) && stateBoxes[i].HasState() {
          ghost var before := slots;
          stateBoxes[i].ToggleState(None);
          slots := slots[i := None];
          EmptyingKeepsNoRepeats(before, slots);
        }
      }
    }

    /**
     * `processClick(x, y)`. With no graph open: the buttons under the point
     * are clicked, then every box under the point that holds a state is
     * emptied. With a graph open: the graph updates its bars' hover, and a
     * click on "Back" closes it; the boxes are left alone.
     */
    method ProcessClick(px: real, py: real)
      requires Valid()
      modifies this`slots, this`stateGraph, stateBoxes
      modifies if stateGraph.Some? then stateGraph.value.Bars() else {}
      ensures Valid()
      ensures old(stateGraph) == None ==>
        && slots == ClickedAway(if HitTestBox(clearButton.box, px, py) then Empty(stateCount) else old(slots), px, py)
        && (HitTestBox(compareButton.box, px, py) && Filled(old(slots)) != [] ==>
              stateGraph.Some? && fresh(stateGraph.value) && stateGraph.value.states == Filled(old(slots)))
        && (!(HitTestBox(compareButton.box, px, py) && Filled(old(slots)) != []) ==> stateGraph == None)
      ensures old(stateGraph) != None ==>
        && slots == old(slots)
        && old(stateGraph).value.Hovered(px, py)
        && stateGraph == if HitTestBox(old(stateGraph).value.backButton.box, px, py) then None else old(stateGraph)
    {
      if stateGraph == None {
        ProcessClickButtons(px, py);
        EmptyClickedBoxes(px, py);
      } else {
        var graph := stateGraph.value;
        var onBack := graph.HitTest(px, py);
        if onBack {
          var back := graph.ProcessClick(px, py);
          if back {
            Click(graph.backButton.action);
          }
        }
      }
    }

    /** `hitTestButtons(x, y)`: the point is on one of the buttons. */
    method HitTestButtons(px: real, py: real) returns (b: bool)
      requires Valid()
      ensures b <==> HitTestBox(compareButton.box, px, py) || HitTestBox(clearButton.box, px, py)
    {
      for i := 0 to |buttons|
        invariant forall k :: 0 <= k < i ==> !HitTestBox(buttons[k].box, px, py)
      {
        if HitTestBox(buttons[i].box, px, py) {
          return true;
        }
      }
      assert buttons[0] == compareButton && buttons[1] == clearButton;
      return false;
    }
  }
}
