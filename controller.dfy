/**
 * `CustomGameLoop`: the application's event handling. Pointer events go to
 * the pointer manager, which keeps the map's pan, zoom and turn; once the
 * states have loaded, a move also hovers over the panel and the map, and a
 * press goes either to the state panel or to the map, never to both.
 */
module Controller {
  import opened Wrappers
  import opened Affine
  import opened Tables
  import opened Data
  import opened Boxes
  import opened Graphs
  import opened Panels
  import opened Maps
  import opened Gestures

  /** What a handler raises, if it raises anything. */
  function Raised(o: Result<Option<Option<State>>, Fault>): Option<Fault> {
    if o.Failure? then Some(o.error) else None
  }

  /** The panel's slots after a press the map handled with outcome o: a state picked there is added. */
  function AddedByMap(o: Result<Option<Option<State>>, Fault>, slots: seq<Option<State>>): seq<Option<State>> {
    if o.Success? && o.value.Some? && o.value.value.Some? then Added(slots, o.value.value.value) else slots
  }

  /** What a press at some point finds before it acts: whether the panel answers to it, the selection, the slots and the open graph. */
  datatype Before = Before(onPanel: bool, activeState: Option<State>, slots: seq<Option<State>>, stateGraph: Option<StateGraph>)

  /** The map and its panel as a press at (px, py) finds them. */
  ghost function BeforePress(visual: VisualMap, px: real, py: real): Before
    reads visual, visual.statePanel
  {
    Before(visual.statePanel.Hit(px, py), visual.activeState, visual.statePanel.slots, visual.statePanel.stateGraph)
  }

  /**
   * The panel's click at (px, py), from the slots and the graph it found:
   * with no graph open the buttons act and the full boxes under the point
   * are emptied, and "Compare" opens a graph of the held states if there
   * are any; with a graph open the "Back" button closes it.
   */
  ghost predicate PanelPressed(panel: StatePanel, px: real, py: real, before: Before)
    reads panel
  {
    && (before.stateGraph.None? ==>
          && panel.slots == panel.ClickedAway(if HitTestBox(panel.clearButton.box, px, py) then Empty(panel.stateCount) else before.slots, px, py)
          && (HitTestBox(panel.compareButton.box, px, py) && Filled(before.slots) != [] ==>
                panel.stateGraph.Some? && panel.stateGraph.value.states == Filled(before.slots))
          && (!(HitTestBox(panel.compareButton.box, px, py) && Filled(before.slots) != []) ==> panel.stateGraph == None))
    && (before.stateGraph.Some? ==> panel.slots == before.slots && panel.stateGraph == None)
  }

  /** The map's hit test at (px, py) under t: the selection follows the outcome, and a state it picks is added to the panel. */
  ghost predicate MapPressed(visual: VisualMap, px: real, py: real, t: Matrix, before: Before, raised: Option<Fault>)
    reads visual, visual.statePanel
    requires Is3x3(t)
    requires visual.imageData.Some? ==> |visual.imageData.value.pixelData| == 4 * (visual.imageData.value.width * visual.imageData.value.height)
  {
    && var o := visual.HitOutcome(px, py, t);
    && raised == Raised(o)
    && visual.activeState == SelectionAfter(o, before.activeState)
    && visual.statePanel.slots == AddedByMap(o, before.slots)
    && visual.statePanel.stateGraph == before.stateGraph
  }

  /**
   * What a press at (px, py) does once the states have loaded, from what
   * it found there. A press the panel answers to is the panel's click and
   * the map's selection stays; any other press is the map's hit test, and
   * the bars of a graph open over the map show their values exactly under
   * (px, py).
   */
  ghost predicate PressHandled(visual: VisualMap, px: real, py: real, t: Matrix, before: Before, raised: Option<Fault>)
    reads visual, visual.statePanel, if visual.statePanel.stateGraph.Some? then BarsOf(visual.statePanel.stateGraph.value.barGraphStates) else {}
  {
    && Is3x3(t)
    && (visual.imageData.Some? ==> |visual.imageData.value.pixelData| == 4 * (visual.imageData.value.width * visual.imageData.value.height))
    && if before.onPanel then
         && raised == None
         && visual.activeState == before.activeState
         && PanelPressed(visual.statePanel, px, py, before)
       else
         && MapPressed(visual, px, py, t, before, raised)
         && (visual.statePanel.stateGraph.Some? ==> visual.statePanel.stateGraph.value.Hovered(px, py))
  }

  /** The map's hover at (px, py) under t: the selection follows the hit test's outcome, and the open graph's bars are hovered. */
  twostate predicate MapHovered(visual: VisualMap, px: real, py: real, t: Matrix, new raised: Option<Fault>)
    reads visual, visual.statePanel, if visual.statePanel.stateGraph.Some? then BarsOf(visual.statePanel.stateGraph.value.barGraphStates) else {}
    requires Is3x3(t)
    requires visual.imageData.Some? ==> |visual.imageData.value.pixelData| == 4 * (visual.imageData.value.width * visual.imageData.value.height)
  {
    var o := visual.HitOutcome(px, py, t);
    && visual.activeState == SelectionAfter(o, old(visual.activeState))
    && raised == Raised(o)
    && (visual.statePanel.stateGraph.Some? ==> visual.statePanel.stateGraph.value.Hovered(px, py))
  }

  /** `onPointerMove` once the states have loaded: the panel's hit test (hovering the graph's bars), then the map's. */
  method Hover(visual: VisualMap, px: real, py: real, t: Matrix) returns (raised: Option<Fault>)
    requires visual.Valid() && Is3x3(t)
    modifies visual`activeState
    modifies if visual.statePanel.stateGraph.Some? then visual.statePanel.stateGraph.value.Bars() else {}
    ensures visual.Valid()
    ensures MapHovered(visual, px, py, t, raised)
  {
    var _ := visual.statePanel.HitTest(px, py);
    var r := visual.HitTest(px, py, t);
    raised := if r.Failure? then Some(r.error) else None;
  }

  /** A press the panel answers to: the panel's click, and the map's selection stays. */
  method PressPanel(visual: VisualMap, px: real, py: real)
    requires visual.Valid() && visual.statePanel.Hit(px, py)
    modifies visual.statePanel`slots, visual.statePanel`stateGraph, visual.statePanel.stateBoxes
    modifies if visual.statePanel.stateGraph.Some? then visual.statePanel.stateGraph.value.Bars() else {}
    ensures visual.Valid()
    ensures PanelPressed(visual.statePanel, px, py, old(BeforePress(visual, px, py)))
  {
    visual.statePanel.ProcessClick(px, py);
  }

  /** A press the panel does not answer to: the map's hit test, and a state it picks joins the panel. */
  method PressMap(visual: VisualMap, px: real, py: real, t: Matrix) returns (raised: Option<Fault>)
    requires visual.Valid() && Is3x3(t)
    modifies visual`activeState, visual.statePanel`slots, visual.statePanel.stateBoxes
    ensures visual.Valid()
    ensures MapPressed(visual, px, py, t, old(BeforePress(visual, px, py)), raised)
  {
    var r := visual.HitTest(px, py, t);
    if r.Failure? {
      return Some(r.error);
    }
    if r.value == Some(true) {
      visual.AddActiveStateToPanel();
    }
    return None;
  }

  /**
   * `onPointerActivate` once the states have loaded: see `PressHandled`.
   * The panel's hit test comes first and hovers the bars of an open graph.
   */
  method Press(visual: VisualMap, px: real, py: real, t: Matrix) returns (raised: Option<Fault>)
    requires visual.Valid() && Is3x3(t)
    modifies visual`activeState, visual.statePanel`slots, visual.statePanel`stateGraph, visual.statePanel.stateBoxes
    modifies if visual.statePanel.stateGraph.Some? then visual.statePanel.stateGraph.value.Bars() else {}
    ensures visual.Valid()
    ensures PressHandled(visual, px, py, t, old(BeforePress(visual, px, py)), raised)
  {
    var onPanel := visual.statePanel.HitTest(px, py);
    if onPanel {
      PressPanel(visual, px, py);
      raised := None;
    } else {
      raised := PressMap(visual, px, py, t);
    }
  }

  class CustomGameLoop {
    const pointerManager: PointerManager
    const stateData: StateData
    const screen: Screen
    const canvasWidth: int
    const canvasHeight: int
    /** `null` (None) until the states have loaded. */
    var visualMap: Option<VisualMap>
    /** The map's panel once the states have loaded, `null` (None) before. */
    var statePanel: Option<StatePanel>

    /** The map and the panel arrive together, and the panel is the map's own. */
    ghost predicate MapValid()
      reads this, if visualMap.Some? then {visualMap.value, visualMap.value.statePanel} + visualMap.value.ImageRepr() else {}
      reads if visualMap.Some? then visualMap.value.statePanel.stateBoxes else []
    {
      && (visualMap.Some? <==> statePanel.Some?)
      && (visualMap.Some? ==>
            && visualMap.value.Valid()
            && statePanel.value == visualMap.value.statePanel
            && visualMap.value.canvasWidth == canvasWidth && visualMap.value.canvasHeight == canvasHeight)
    }

    /** The pointer manager, the state data and the map are each well formed. */
    ghost predicate Valid()
      reads this, pointerManager, pointerManager.pointers.Values, stateData
      reads if visualMap.Some? then {visualMap.value, visualMap.value.statePanel} + visualMap.value.ImageRepr() else {}
      reads if visualMap.Some? then visualMap.value.statePanel.stateBoxes else []
    {
      pointerManager.Valid() && stateData.Valid() && screen.pixelRatio > 0.0 && MapValid()
    }

    /** `initialize(canvas)`: a new pointer manager and state data; no map and no panel until the states load. */
    constructor (length: Point -> real, screen: Screen, canvasWidth: int, canvasHeight: int)
      requires screen.pixelRatio > 0.0
      ensures Valid()
      ensures fresh(pointerManager) && fresh(stateData)
      ensures this.screen == screen && this.canvasWidth == canvasWidth && this.canvasHeight == canvasHeight
      ensures visualMap == None && statePanel == None
      ensures pointerManager.transformationMatrix == Translate(0.0, 0.0)
    {
      var manager := new PointerManager(length);
      var data := new StateData();
      pointerManager := manager;
      stateData := data;
      this.screen := screen;
      this.canvasWidth, this.canvasHeight := canvasWidth, canvasHeight;
      visualMap := None;
      statePanel := None;
    }

    /**
     * `tryToLoadStates()`: once all three data sets are registered the
     * states are generated and `onLoadStates` builds a new map of them,
     * whose panel becomes the loop's; otherwise nothing changes.
     */
    method TryToLoadStates()
      requires Valid()
      modifies stateData`states, this`visualMap, this`statePanel
      ensures Valid()
      ensures old(stateData.ValidData()) ==>
        && stateData.states == Some(stateData.Expected())
        && visualMap.Some? && fresh(visualMap.value) && fresh(visualMap.value.statePanel)
        && visualMap.value.listOfStates == stateData.Expected()
        && visualMap.value.activeState == None && visualMap.value.imageData == None
        && visualMap.value.statePanel.slots == Empty(4) && visualMap.value.statePanel.stateGraph == None
      ensures !old(stateData.ValidData()) ==>
        stateData.states == old(stateData.states) && visualMap == old(visualMap) && statePanel == old(statePanel)
    {
      var ok := stateData.TryGenerateStates();
      if ok {
        var visual := new VisualMap(stateData.states.value, canvasWidth, canvasHeight, screen);
        visualMap := Some(visual);
        statePanel := Some(visual.statePanel);
      }
    }

    /** `onPointerEnter(id, position)`: handed to the pointer manager. */
    method OnPointerEnter(id: string, position: Point)
      requires Valid()
      modifies pointerManager
      ensures Valid()
      ensures id in pointerManager.pointers && pointerManager.positions == old(pointerManager.positions)[id := position]
      ensures pointerManager.transformationMatrix == old(pointerManager.transformationMatrix)
    {
      pointerManager.OnPointerEnter(id, position);
    }

    /** The hover once the states have loaded, under the pointer manager's current transform. */
    method HoverLoaded(position: Point) returns (raised: Option<Fault>)
      requires Valid() && visualMap.Some?
      modifies visualMap.value`activeState
      modifies if visualMap.value.statePanel.stateGraph.Some? then visualMap.value.statePanel.stateGraph.value.Bars() else {}
      ensures Valid()
      ensures MapHovered(visualMap.value, position.x, position.y, pointerManager.transformationMatrix, raised)
    {
      var t := pointerManager.GetTransformationMatrix();
      raised := Hover(visualMap.value, position.x, position.y, t);
    }

    /** The pointer manager's part of `onPointerMove`: the map, the panel and the state data stay well formed. */
    method MovePointer(id: string, position: Point, turn: Turn)
      requires Valid() && id in pointerManager.pointers
      modifies pointerManager, pointerManager.pointers[id]
      ensures Valid()
      ensures pointerManager.positions == old(pointerManager.positions)[id := position]
      ensures pointerManager.transformationMatrix ==
        if pointerManager.activePointerCount > 0
        then Manipulated(old(pointerManager.transformationMatrix), pointerManager.previousPivot, pointerManager.pivot,
                         pointerManager.previousPivotRadius, pointerManager.pivotRadius, turn)
        else old(pointerManager.transformationMatrix)
    {
      pointerManager.OnPointerMove(id, position, turn);
    }

    /**
     * `onPointerMove(id, position)`: the pointer manager moves the pointer
     * (panning, zooming and turning the map while pointers are pressed);
     * then, once the states have loaded, the panel hovers and the map hit
     * test runs with the new transform, possibly changing the active state.
     */
    method OnPointerMove(id: string, position: Point, turn: Turn) returns (raised: Option<Fault>)
      requires Valid() && id in pointerManager.pointers
      modifies pointerManager, pointerManager.pointers[id]
      modifies if visualMap.Some? then {visualMap.value} else {}
      modifies if visualMap.Some? && visualMap.value.statePanel.stateGraph.Some? then visualMap.value.statePanel.stateGraph.value.Bars() else {}
      ensures Valid()
      ensures pointerManager.positions == old(pointerManager.positions)[id := position]
      ensures pointerManager.transformationMatrix ==
        if pointerManager.activePointerCount > 0
        then Manipulated(old(pointerManager.transformationMatrix), pointerManager.previousPivot, pointerManager.pivot,
                         pointerManager.previousPivotRadius, pointerManager.pivotRadius, turn)
        else old(pointerManager.transformationMatrix)
      ensures visualMap == old(visualMap) && statePanel == old(statePanel)
      ensures visualMap.None? ==> raised == None
      ensures visualMap.Some? ==> MapHovered(visualMap.value, position.x, position.y, pointerManager.transformationMatrix, raised)
    {
      MovePointer(id, position, turn);
      raised := None;
      if visualMap != None {
        raised := HoverLoaded(position);
      }
    }

    /** The pointer manager's part of `onPointerMove` as the source has it: the drag step may raise. */
    method MovePointerAsWritten(id: string, position: Point) returns (raised: bool)
      requires Valid() && id in pointerManager.pointers
      modifies pointerManager, pointerManager.pointers[id]
      ensures Valid()
      ensures pointerManager.positions == old(pointerManager.positions)[id := position]
      ensures (pointerManager.transformationMatrix, raised) ==
        if pointerManager.activePointerCount > 0
        then ManipulatedAsWritten(old(pointerManager.transformationMatrix), pointerManager.previousPivot, pointerManager.pivot,
                                  pointerManager.previousPivotRadius, pointerManager.pivotRadius)
        else (old(pointerManager.transformationMatrix), false)
    {
      raised := pointerManager.OnPointerMoveAsWritten(id, position);
    }

    /**
     * `onPointerMove(id, position)` as the source runs it: when the pointer
     * manager's step raises (a pressed drag with a positive previous
     * radius), the TypeError leaves the handler before the panel and the
     * map are hit tested, so the selection and the bars stay as they were.
     */
    method OnPointerMoveAsWritten(id: string, position: Point) returns (raised: Option<Fault>)
      requires Valid() && id in pointerManager.pointers
      modifies pointerManager, pointerManager.pointers[id]
      modifies if visualMap.Some? then {visualMap.value} else {}
      modifies if visualMap.Some? && visualMap.value.statePanel.stateGraph.Some? then visualMap.value.statePanel.stateGraph.value.Bars() else {}
      ensures Valid()
      ensures pointerManager.positions == old(pointerManager.positions)[id := position]
      ensures visualMap == old(visualMap) && statePanel == old(statePanel)
      ensures var step := if pointerManager.activePointerCount > 0
          then ManipulatedAsWritten(old(pointerManager.transformationMatrix), pointerManager.previousPivot, pointerManager.pivot,
                                    pointerManager.previousPivotRadius, pointerManager.pivotRadius)
          else (old(pointerManager.transformationMatrix), false);
        && pointerManager.transformationMatrix == step.0
        && (step.1 ==> raised == Some(TypeError))
        && (step.1 && visualMap.Some? ==> visualMap.value.activeState == old(visualMap.value.activeState))
        && (step.1 && visualMap.Some? && visualMap.value.statePanel.stateGraph.Some? ==>
              unchanged(visualMap.value.statePanel.stateGraph.value.Bars()))
        && (!step.1 && visualMap.None? ==> raised == None)
        && (!step.1 && visualMap.Some? ==> MapHovered(visualMap.value, position.x, position.y, pointerManager.transformationMatrix, raised))
    {
      var dragRaised := MovePointerAsWritten(id, position);
      if dragRaised {
        return Some(TypeError);
      }
      raised := None;
      if visualMap != None {
        raised := HoverLoaded(position);
      }
    }

    /** The press once the states have loaded, under the pointer manager's current transform. */
    method PressLoaded(position: Point) returns (raised: Option<Fault>)
      requires Valid() && visualMap.Some?
      modifies visualMap.value`activeState, visualMap.value.statePanel`slots, visualMap.value.statePanel`stateGraph, visualMap.value.statePanel.stateBoxes
      modifies if visualMap.value.statePanel.stateGraph.Some? then visualMap.value.statePanel.stateGraph.value.Bars() else {}
      ensures unchanged(pointerManager, pointerManager.pointers.Values)
      ensures Valid()
      ensures PressHandled(visualMap.value, position.x, position.y, pointerManager.transformationMatrix, old(BeforePress(visualMap.value, position.x, position.y)), raised)
    {
      var t := pointerManager.GetTransformationMatrix();
      raised := Press(visualMap.value, position.x, position.y, t);
    }

    /** The pointer manager's part of `onPointerActivate`: the map, the panel and the state data stay well formed. */
    method ActivatePointer(id: string)
      requires Valid() && id in pointerManager.pointers
      modifies pointerManager`activePointerCount, pointerManager.pointers[id]
      ensures Valid()
      ensures old(pointerManager.pointers[id]).isActive && pointerManager.activePointerCount == old(pointerManager.activePointerCount) + 1
    {
      pointerManager.OnPointerActivate(id);
    }

    /** `onPointerActivate` once the states have loaded: the pointer manager's part, then the press. */
    method ActivateLoaded(id: string, position: Point) returns (raised: Option<Fault>)
      requires Valid() && id in pointerManager.pointers && visualMap.Some?
      modifies pointerManager`activePointerCount, pointerManager.pointers[id]
      modifies visualMap.value, visualMap.value.statePanel, visualMap.value.statePanel.stateBoxes
      modifies if visualMap.value.statePanel.stateGraph.Some? then visualMap.value.statePanel.stateGraph.value.Bars() else {}
      ensures Valid()
      ensures old(pointerManager.pointers[id]).isActive && pointerManager.activePointerCount == old(pointerManager.activePointerCount) + 1
      ensures PressHandled(visualMap.value, position.x, position.y, pointerManager.transformationMatrix, old(BeforePress(visualMap.value, position.x, position.y)), raised)
    {
      ActivatePointer(id);
      raised := PressLoaded(position);
    }

    /**
     * `onPointerActivate(id, position)`: the pointer manager presses the
     * pointer. Before the states have loaded the panel is `null` and the
     * handler raises. A press the panel answers to is the panel's click and
     * leaves the map's selection alone; any other press is the map's, and a
     * state it picks is added to the panel.
     */
    method OnPointerActivate(id: string, position: Point) returns (raised: Option<Fault>)
      requires Valid() && id in pointerManager.pointers
      modifies pointerManager`activePointerCount, pointerManager.pointers[id]
      modifies if visualMap.Some? then {visualMap.value, visualMap.value.statePanel} else {}
      modifies if visualMap.Some? then visualMap.value.statePanel.stateBoxes else []
      modifies if visualMap.Some? && visualMap.value.statePanel.stateGraph.Some? then visualMap.value.statePanel.stateGraph.value.Bars() else {}
      ensures Valid()
      ensures old(pointerManager.pointers[id]).isActive && pointerManager.activePointerCount == old(pointerManager.activePointerCount) + 1
      ensures visualMap == old(visualMap) && statePanel == old(statePanel)
      ensures visualMap.None? ==> raised == Some(TypeError)
      ensures visualMap.Some? ==> PressHandled(visualMap.value, position.x, position.y, pointerManager.transformationMatrix, old(BeforePress(visualMap.value, position.x, position.y)), raised)
    {
      if visualMap == None {
        ActivatePointer(id);
        return Some(TypeError);
      }
      raised := ActivateLoaded(id, position);
    }

    /** `onPointerDeactivate(id, position)`: released, and the pressed count drops (no count-keeping flag is passed). */
    method OnPointerDeactivate(id: string, position: Point)
      requires Valid() && id in pointerManager.pointers
      modifies pointerManager`activePointerCount, pointerManager.pointers[id]
      ensures Valid()
      ensures !pointerManager.pointers[id].isActive
      ensures pointerManager.activePointerCount == old(pointerManager.activePointerCount) - 1
    {
      pointerManager.OnPointerDeactivate(id, false);
    }

    /** `onPointerLeave(id, position)`: the pointer is no longer tracked. */
    method OnPointerLeave(id: string, position: Point)
      requires Valid()
      modifies pointerManager
      ensures Valid()
      ensures pointerManager.positions == old(pointerManager.positions) - {id}
      ensures pointerManager.transformationMatrix == old(pointerManager.transformationMatrix)
    {
      pointerManager.OnPointerLeave(id);
    }
  }
}
