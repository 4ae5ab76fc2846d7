/**
 * The rectangles of the user interface: the screen they are laid out on,
 * the inclusive hit test of `HitTestableBox`, the panel and graph buttons,
 * and the `StateBox` slot that holds one selected state.
 */
module Boxes {
  import opened Wrappers
  import opened Data

  /**
   * `Scaler`: the screen's width and height in device pixels and the device
   * pixel ratio, read once. The browser reports a positive ratio.
   */
  datatype Screen = Screen(width: real, height: real, pixelRatio: real)

  /** An axis-aligned box: top-left corner, width and height. */
  datatype Rect = Rect(x: real, y: real, width: real, height: real)

  /**
   * `HitTestableBox.hitTest(x, y)`: the point lies in the box, edges
   * included. A box of negative width or height holds no point.
   */
  predicate HitTestBox(r: Rect, px: real, py: real) {
    r.x <= px <= r.x + r.width && r.y <= py <= r.y + r.height
  }

  /** Moving a box and a point by the same offset does not change whether the box holds the point. */
  lemma HitTestShifted(r: Rect, px: real, py: real, dx: real, dy: real)
    ensures HitTestBox(Rect(r.x + dx, r.y + dy, r.width, r.height), px + dx, py + dy) == HitTestBox(r, px, py)
  {
  }

  /** The corners of a box of non-negative size are in it; a point past either edge is not. */
  lemma HitTestCorners(r: Rect, e: real)
    requires r.width >= 0.0 && r.height >= 0.0 && e > 0.0
    ensures HitTestBox(r, r.x, r.y) && HitTestBox(r, r.x + r.width, r.y + r.height)
    ensures !HitTestBox(r, r.x - e, r.y) && !HitTestBox(r, r.x + r.width + e, r.y)
    ensures !HitTestBox(r, r.x, r.y - e) && !HitTestBox(r, r.x, r.y + r.height + e)
  {
  }

  /** What a button does when clicked: the panel's "Compare" and "Clear All", the graph's "Back". */
  datatype Action = Compare | ClearAll | Back

  /**
   * `new Button(x, y, onClick, text)`: a box one eighth of the screen wide
   * and one twentieth of it high; its click function is named by its action.
   */
  datatype Button = Button(box: Rect, action: Action)

  function NewButton(x: real, y: real, action: Action, screen: Screen): (b: Button)
    ensures b.box.x == x && b.box.y == y && b.action == action
  {
    Button(Rect(x, y, screen.width / 8.0, screen.height / 20.0), action)
  }

  /** A slot of the state panel: where it is drawn and the state it holds, `null` (None) when empty. */
  class StateBox {
    var x: real
    var y: real
    const width: real
    const height: real
    var state: Option<State>

    /** `new StateBox(x, y)`: an empty box one eighth of the screen wide and one eighth of it (in CSS pixels) high. */
    constructor (x: real, y: real, screen: Screen)
      requires screen.pixelRatio > 0.0
      ensures this.x == x && this.y == y && state == None
      ensures width == screen.width / 8.0 && height == screen.height / screen.pixelRatio / 8.0
    {
      this.x, this.y := x, y;
      width := screen.width / 8.0;
      height := screen.height / screen.pixelRatio / 8.0;
      state := None;
    }

    /** The box as a rectangle. */
    function Box(): Rect
      reads this
    {
      Rect(x, y, width, height)
    }

    /** `hitTest(x, y)`, inherited from `HitTestableBox`. */
    predicate HitTest(px: real, py: real)
      reads this
    {
      HitTestBox(Box(), px, py)
    }

    /** `setPosition(x, y)`: moves the box and leaves its state alone. */
    method SetPosition(x: real, y: real)
      modifies this`x, this`y
      ensures this.x == x && this.y == y
    {
      this.x, this.y := x, y;
    }

    /** `setState(state)`. */
    method SetState(s: Option<State>)
      modifies this`state
      ensures state == s
    {
      state := s;
    }

    /** `clearState()`: the box is empty afterwards. */
    method ClearState()
      modifies this`state
      ensures state == None
    {
      state := None;
    }

    /** `hasState()`: the box is not empty. */
    function HasState(): (b: bool)
      reads this
      ensures b <==> state != None
    {
      !(state == None)
    }

    /** `getState()`. */
    function GetState(): Option<State>
      reads this
    {
      state
    }

    /**
     * `toggleState(state)`: an empty box takes the given state, a full one
     * is emptied whatever is given.
     */
    method ToggleState(s: Option<State>)
      modifies this`state
      ensures old(state) == None ==> state == s
      ensures old(state) != None ==> state == None
    {
      if !HasState() {
        SetState(s);
      } else {
        ClearState();
      }
    }
  }
}
