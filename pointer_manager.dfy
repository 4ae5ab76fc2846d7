/**
 * The gesture engine: a registry of pointers by id, counters of tracked and
 * pressed pointers, the pivot (centroid of the pointers) with its radius (mean
 * distance of the pointers to the pivot), and the running transformation
 * that a drag with pressed pointers pans, zooms and turns.
 *
 * `Point.getLength` is not part of this model: the manager holds it as a
 * function value `length`, assumed non-negative and zero at the origin. The
 * rotation angle (an `atan2` difference) enters as a cosine/sine pair.
 */
module Gestures {
  import opened Wrappers
  import opened Affine
  import opened Pointers

  function X(p: Point): real { p.x }
  function Y(p: Point): real { p.y }

  /** `p.subtract(c)`. */
  function Offset(p: Point, c: Point): Point {
    Point(p.x - c.x, p.y - c.y)
  }

  /** The coordinates of `p.subtract(c)`, as functions of p. */
  function OffsetX(c: Point): Point -> real {
    (p: Point) => p.x - c.x
  }
  function OffsetY(c: Point): Point -> real {
    (p: Point) => p.y - c.y
  }

  /** The distance of a point to the centre c, as `length` measures it. */
  function DistanceTo(length: Point -> real, c: Point): Point -> real {
    (p: Point) => length(Offset(p, c))
  }

  /** The sum of f over the positions of the ids in `ids`. */
  ghost function Sum(ps: map<string, Point>, ids: set<string>, f: Point -> real): real
    requires ids <= ps.Keys
    decreases ids
  {
    if ids == {} then 0.0
    else
      var id :| id in ids;
      f(ps[id]) + Sum(ps, ids - {id}, f)
  }

  /** A sum can be split at any of its ids, not only the one it picks itself. */
  lemma {:induction false} SumRemove(ps: map<string, Point>, ids: set<string>, f: Point -> real, id: string)
    requires id in ids && ids <= ps.Keys
    ensures Sum(ps, ids, f) == f(ps[id]) + Sum(ps, ids - {id}, f)
    decreases ids
  {
    var j :| j in ids && Sum(ps, ids, f) == f(ps[j]) + Sum(ps, ids - {j}, f);
    if j != id {
      SumRemove(ps, ids - {j}, f, id);
      SumRemove(ps, ids - {id}, f, j);
      assert ids - {j} - {id} == ids - {id} - {j};
    }
  }

  /** A sum of non-negative terms is non-negative. */
  lemma {:induction false} SumNonNegative(ps: map<string, Point>, ids: set<string>, f: Point -> real)
    requires ids <= ps.Keys
    requires forall p :: f(p) >= 0.0
    ensures Sum(ps, ids, f) >= 0.0
    decreases ids
  {
    if ids != {} {
      var id :| id in ids;
      SumRemove(ps, ids, f, id);
      SumNonNegative(ps, ids - {id}, f);
    }
  }

  /** Distances measured by a non-negative length add up to a non-negative total. */
  lemma DistancesNonNegative(ps: map<string, Point>, length: Point -> real, c: Point)
    requires forall p :: length(p) >= 0.0
    ensures Sum(ps, ps.Keys, DistanceTo(length, c)) >= 0.0
  {
    forall p
      ensures DistanceTo(length, c)(p) >= 0.0
    {
      assert length(Offset(p, c)) >= 0.0;
    }
    SumNonNegative(ps, ps.Keys, DistanceTo(length, c));
  }

  /** Filing a new id adds one key. */
  lemma KeysAfterAdd<V>(m: map<string, V>, id: string, v: V)
    requires id !in m
    ensures |m[id := v].Keys| == |m.Keys| + 1
  {
    assert m[id := v].Keys == m.Keys + {id};
  }

  /** Deleting a filed id removes one key. */
  lemma KeysAfterRemove<V>(m: map<string, V>, id: string)
    requires id in m
    ensures |(m - {id}).Keys| == |m.Keys| - 1
  {
    assert (m - {id}).Keys == m.Keys - {id};
  }

  /** A mean of a non-negative total is non-negative. */
  lemma MeanNonNegative(total: real, n: real)
    requires total >= 0.0 && n > 0.0
    ensures total / n >= 0.0
  {
  }

  /** The sum over a single id is that id's term. */
  lemma SumSingle(ps: map<string, Point>, id: string, f: Point -> real)
    requires id in ps
    ensures Sum(ps, {id}, f) == f(ps[id])
  {
    SumRemove(ps, {id}, f, id);
    assert {id} - {id} == {};
  }

  /** n copies of d added up. */
  ghost function Repeat(n: nat, d: real): real
  {
    if n == 0 then 0.0 else d + Repeat(n - 1, d)
  }

  /** Adding up n copies of d is multiplying d by n. */
  lemma {:induction false} RepeatIsProduct(n: nat, d: real)
    ensures Repeat(n, d) == n as real * d
  {
    if n > 0 {
      RepeatIsProduct(n - 1, d);
      var k := (n - 1) as real;
      assert (k + 1.0) * d == k * d + d;
    }
  }

  /** Shifting every term by d shifts the sum by d once per id. */
  lemma {:induction false} SumShift(ps: map<string, Point>, ids: set<string>, f: Point -> real, g: Point -> real, d: real)
    requires ids <= ps.Keys
    requires forall p :: g(p) == f(p) - d
    ensures Sum(ps, ids, g) == Sum(ps, ids, f) - Repeat(|ids|, d)
    decreases ids
  {
    if ids != {} {
      var id :| id in ids;
      var rest := ids - {id};
      SumRemove(ps, ids, g, id);
      SumRemove(ps, ids, f, id);
      SumShift(ps, rest, f, g, d);
      assert |ids| == |rest| + 1;
    }
  }

  /** The mean position of the pointers. */
  ghost function Centroid(ps: map<string, Point>, n: int): Point
    requires n > 0
  {
    Point(Sum(ps, ps.Keys, X) / n as real, Sum(ps, ps.Keys, Y) / n as real)
  }

  /** The mean distance of the pointers to c. */
  ghost function MeanDistance(ps: map<string, Point>, length: Point -> real, c: Point, n: int): real
    requires n > 0
  {
    Sum(ps, ps.Keys, DistanceTo(length, c)) / n as real
  }

  /**
   * The change one manipulation step makes to the running transformation:
   * pan by the pivot's move, and when the previous radius is positive, zoom
   * by the ratio of the radii and turn, both about the new pivot.
   */
  function Manipulated(t: Matrix, previousPivot: Point, pivot: Point, previousRadius: real, radius: real, turn: Turn): (r: Matrix)
    requires Is3x3(t)
    ensures Is3x3(r)
    ensures IsAffine(t) ==> IsAffine(r)
  {
    var panned := Product(Translate(pivot.x - previousPivot.x, pivot.y - previousPivot.y), t);
    ProductAffineWhen(Translate(pivot.x - previousPivot.x, pivot.y - previousPivot.y), t);
    if previousRadius > 0.0 then
      var s := radius / previousRadius;
      ProductAffineWhen(ScaleAt(s, s, pivot.x, pivot.y), panned);
      ProductAffineWhen(RotationAt(turn, pivot.x, pivot.y), Product(ScaleAt(s, s, pivot.x, pivot.y), panned));
      Product(RotationAt(turn, pivot.x, pivot.y), Product(ScaleAt(s, s, pivot.x, pivot.y), panned))
    else panned
  }

  /**
   * A manipulation step keeps the transformation affine, and the content
   * point that the old transformation put under the previous pivot is put
   * under the new pivot: the map follows the fingers.
   */
  lemma {:induction false} ManipulationFollowsPivot(t: Matrix, previousPivot: Point, pivot: Point,
                                                    previousRadius: real, radius: real, turn: Turn, q: Point)
    requires IsAffine(t) && Apply(t, q) == Success(previousPivot)
    ensures IsAffine(Manipulated(t, previousPivot, pivot, previousRadius, radius, turn))
    ensures Apply(Manipulated(t, previousPivot, pivot, previousRadius, radius, turn), q) == Success(pivot)
  {
    var pan := Translate(pivot.x - previousPivot.x, pivot.y - previousPivot.y);
    var panned := Product(pan, t);
    ApplyProduct(pan, t, q);
    TranslateMovesPoints(pivot.x - previousPivot.x, pivot.y - previousPivot.y, previousPivot);
    assert Apply(panned, q) == Success(pivot);
    if previousRadius > 0.0 {
      var s := radius / previousRadius;
      var zoom := ScaleAt(s, s, pivot.x, pivot.y);
      var turnAt := RotationAt(turn, pivot.x, pivot.y);
      ScaleAtAboutCentre(s, s, pivot.x, pivot.y, pivot);
      RotationAtAboutCentre(turn, pivot.x, pivot.y, pivot);
      ApplyProduct(zoom, panned, q);
      ApplyProduct(turnAt, Product(zoom, panned), q);
    }
  }

  /**
   * The same step as the source writes it: the pan and the zoom are applied,
   * and then the turn asks the moved pointer for `getPreviousPosition()`,
   * which the Pointer class does not define, so a TypeError is raised there.
   * The outcome is the transformation left behind and whether the call raised.
   */
  function ManipulatedAsWritten(t: Matrix, previousPivot: Point, pivot: Point, previousRadius: real, radius: real): (r: (Matrix, bool))
    requires Is3x3(t)
    ensures Is3x3(r.0)
  {
    var panned := Product(Translate(pivot.x - previousPivot.x, pivot.y - previousPivot.y), t);
    if previousRadius > 0.0 then
      var s := radius / previousRadius;
      (Product(ScaleAt(s, s, pivot.x, pivot.y), panned), true)
    else (panned, false)
  }

  /**
   * As written, every step with a positive previous radius raises, and
   * leaves the transformation zoomed but not turned; with a zero previous
   * radius it agrees with the intended step.
   */
  lemma AsWrittenRaisesWhenZooming(t: Matrix, previousPivot: Point, pivot: Point, previousRadius: real, radius: real, turn: Turn)
    requires Is3x3(t)
    ensures ManipulatedAsWritten(t, previousPivot, pivot, previousRadius, radius).1 <==> previousRadius > 0.0
    ensures previousRadius > 0.0 ==>
      Manipulated(t, previousPivot, pivot, previousRadius, radius, turn)
        == Product(RotationAt(turn, pivot.x, pivot.y), ManipulatedAsWritten(t, previousPivot, pivot, previousRadius, radius).0)
    ensures previousRadius <= 0.0 ==>
      ManipulatedAsWritten(t, previousPivot, pivot, previousRadius, radius).0 == Manipulated(t, previousPivot, pivot, previousRadius, radius, turn)
  {
  }

  class PointerManager {
    var pointers: map<string, Pointer>
    /** The position of every tracked pointer, by id: what `pointers[id].getPosition()` reads. */
    ghost var positions: map<string, Point>
    var pointerCount: int
    var activePointerCount: int
    var pivot: Point
    var previousPivot: Point
    var pivotRadius: real
    var previousPivotRadius: real
    var transformationMatrix: Matrix
    /** `Point.getLength`. */
    const length: Point -> real

    /**
     * Every pointer is filed under its own id (so no object is filed twice),
     * `positions` mirrors the pointers' positions, and the transformation is 3x3.
     */
    ghost predicate Valid()
      reads this, pointers.Values
    {
      && pointers.Keys == positions.Keys
      && (forall id :: id in pointers ==> pointers[id].id == id && pointers[id].position == positions[id])
      && Is3x3(transformationMatrix)
    }

    /**
     * What `updatePivot` leaves behind, given the pivot and radius before it:
     * both are kept as the previous ones; with pointers, the pivot is the mean
     * position and the radius the mean distance to it; without, the pivot is
     * the origin and the radius is not reset.
     */
    ghost predicate PivotUpdated(oldPivot: Point, oldRadius: real)
      reads this
    {
      && previousPivot == oldPivot
      && previousPivotRadius == oldRadius
      && if pointerCount > 0 then
           && pivot == Centroid(positions, pointerCount)
           && pivotRadius == MeanDistance(positions, length, pivot, pointerCount)
         else
           pivot == Point(0.0, 0.0) && pivotRadius == oldRadius
    }

    /** `new PointerManager()`. */
    constructor (length: Point -> real)
      ensures Valid() && this.length == length
      ensures pointers == map[] && positions == map[] && pointerCount == 0 && activePointerCount == 0
      ensures pivot == Point(0.0, 0.0) && previousPivot == Point(0.0, 0.0)
      ensures pivotRadius == 0.0 && previousPivotRadius == 0.0
      ensures transformationMatrix == Translate(0.0, 0.0)
    {
      this.length := length;
      pointers := map[];
      positions := map[];
      pointerCount := 0;
      activePointerCount := 0;
      pivot := Point(0.0, 0.0);
      previousPivot := Point(0.0, 0.0);
      pivotRadius := 0.0;
      previousPivotRadius := 0.0;
      transformationMatrix := Translate(0.0, 0.0);
    }

    /** `getTransformationMatrix()`. */
    method GetTransformationMatrix() returns (t: Matrix)
      ensures t == transformationMatrix
    {
      t := transformationMatrix;
    }

    /** `hasPointer(id)`. */
    method HasPointer(id: string) returns (b: bool)
      ensures b <==> id in pointers
    {
      b := id in pointers;
    }

    /** The first loop of `updatePivot` and the division after it: the mean position of the pointers. */
    method MeanPosition() returns (c: Point)
      requires Valid() && pointerCount > 0
      ensures c == Centroid(positions, pointerCount)
    {
      var xSum, ySum := 0.0, 0.0;
      var rest := pointers.Keys;
      while rest != {}
        invariant rest <= pointers.Keys
        invariant xSum + Sum(positions, rest, X) == Sum(positions, positions.Keys, X)
        invariant ySum + Sum(positions, rest, Y) == Sum(positions, positions.Keys, Y)
        decreases rest
      {
        var id :| id in rest;
        var p := pointers[id].GetPosition();
        SumRemove(positions, rest, X, id);
        SumRemove(positions, rest, Y, id);
        xSum, ySum := xSum + p.x, ySum + p.y;
        rest := rest - {id};
      }
      c := Point(xSum / pointerCount as real, ySum / pointerCount as real);
    }

    /** The second loop of `updatePivot` and the division after it: the mean distance of the pointers to c. */
    method MeanDistanceTo(c: Point) returns (radius: real)
      requires Valid() && pointerCount > 0
      ensures radius == MeanDistance(positions, length, c, pointerCount)
    {
      var distanceSum := 0.0;
      var rest := pointers.Keys;
      while rest != {}
        invariant rest <= pointers.Keys
        invariant distanceSum + Sum(positions, rest, DistanceTo(length, c)) == Sum(positions, positions.Keys, DistanceTo(length, c))
        decreases rest
      {
        var id :| id in rest;
        var p := pointers[id].GetPosition();
        SumRemove(positions, rest, DistanceTo(length, c), id);
        distanceSum := distanceSum + length(Offset(p, c));
        rest := rest - {id};
      }
      radius := distanceSum / pointerCount as real;
    }

    /** `updatePivot()`: snapshot the pivot and radius, then average over the pointers. */
    method UpdatePivot()
      requires Valid()
      modifies this`previousPivot, this`previousPivotRadius, this`pivot, this`pivotRadius
      ensures Valid()
      ensures PivotUpdated(old(pivot), old(pivotRadius))
    {
      previousPivot := pivot;
      previousPivotRadius := pivotRadius;
      if pointerCount > 0 {
        pivot := MeanPosition();
        pivotRadius := MeanDistanceTo(pivot);
      } else {
        pivot := Point(0.0, 0.0);
      }
    }

    /** `this.pointers[id] = new Pointer(id, initialPosition)`: a fresh, released pointer is filed under id, replacing any old one. */
    method File(id: string, initialPosition: Point)
      requires Valid()
      modifies this`pointers, this`positions
      ensures Valid()
      ensures id in pointers && fresh(pointers[id]) && !pointers[id].isActive
      ensures pointers.Keys == old(pointers.Keys) + {id}
      ensures positions == old(positions)[id := initialPosition]
      ensures id !in old(pointers) ==> |pointers.Keys| == old(|pointers.Keys|) + 1
    {
      var p := new Pointer(id, initialPosition);
      if id !in pointers {
        KeysAfterAdd(pointers, id, p);
      }
      pointers := pointers[id := p];
      positions := positions[id := initialPosition];
    }

    /** `addPointer(id, initialPosition)`: a fresh, released pointer is filed under id and counted, and the pivot is updated. */
    method AddPointer(id: string, initialPosition: Point)
      requires Valid()
      modifies this
      ensures Valid()
      ensures id in pointers && fresh(pointers[id]) && !pointers[id].isActive
      ensures pointers.Keys == old(pointers.Keys) + {id}
      ensures positions == old(positions)[id := initialPosition]
      ensures pointerCount == old(pointerCount) + 1
      ensures old(pointerCount == |pointers.Keys| && id !in pointers) ==> pointerCount == |pointers.Keys|
      ensures activePointerCount == old(activePointerCount) && transformationMatrix == old(transformationMatrix)
      ensures PivotUpdated(old(pivot), old(pivotRadius))
    {
      File(id, initialPosition);
      pointerCount := pointerCount + 1;
      UpdatePivot();
    }

    /** `removePointer(id)`: the entry goes (deleting a missing one changes nothing) and the count drops. */
    method RemovePointer(id: string)
      requires Valid()
      modifies this
      ensures Valid()
      ensures pointers == old(pointers) - {id} && positions == old(positions) - {id}
      ensures pointerCount == old(pointerCount) - 1
      ensures old(pointerCount == |pointers.Keys| && id in pointers) ==> pointerCount == |pointers.Keys|
      ensures activePointerCount == old(activePointerCount) && transformationMatrix == old(transformationMatrix)
      ensures PivotUpdated(old(pivot), old(pivotRadius))
    {
      if id in pointers {
        KeysAfterRemove(pointers, id);
      }
      pointers := pointers - {id};
      positions := positions - {id};
      pointerCount := pointerCount - 1;
      UpdatePivot();
    }

    /** `onManipulation`, with the turn supplied: pan, and when the previous radius is positive, zoom and turn about the pivot. */
    method OnManipulation(turn: Turn)
      requires Valid()
      modifies this`transformationMatrix
      ensures Valid()
      ensures transformationMatrix == Manipulated(old(transformationMatrix), previousPivot, pivot, previousPivotRadius, pivotRadius, turn)
    {
      var scale := if previousPivotRadius > 0.0 then pivotRadius / previousPivotRadius else 1.0;
      transformationMatrix := Product(Translate(pivot.x - previousPivot.x, pivot.y - previousPivot.y), transformationMatrix);
      if previousPivotRadius > 0.0 {
        transformationMatrix := Product(ScaleAt(scale, scale, pivot.x, pivot.y), transformationMatrix);
        transformationMatrix := Product(RotationAt(turn, pivot.x, pivot.y), transformationMatrix);
      }
    }

    /** `onManipulation` as the source has it: the turn step raises before it changes anything. */
    method OnManipulationAsWritten() returns (raised: bool)
      requires Valid()
      modifies this`transformationMatrix
      ensures Valid()
      ensures (transformationMatrix, raised) == ManipulatedAsWritten(old(transformationMatrix), previousPivot, pivot, previousPivotRadius, pivotRadius)
    {
      raised := false;
      var scale := if previousPivotRadius > 0.0 then pivotRadius / previousPivotRadius else 1.0;
      transformationMatrix := Product(Translate(pivot.x - previousPivot.x, pivot.y - previousPivot.y), transformationMatrix);
      if previousPivotRadius > 0.0 {
        transformationMatrix := Product(ScaleAt(scale, scale, pivot.x, pivot.y), transformationMatrix);
        raised := true;
      }
    }

    /** `this.pointers[id].move(position)`: the filed pointer takes the new position. */
    method Relocate(id: string, position: Point)
      requires Valid() && id in pointers
      modifies pointers[id], this`positions
      ensures Valid()
      ensures positions == old(positions)[id := position]
      ensures pointers[id].isActive == old(pointers[id].isActive)
    {
      pointers[id].Move(position);
      positions := positions[id := position];
    }

    /**
     * `movePointer(id, position)`: the pointer moves, the pivot is recomputed,
     * and only while some pointer is pressed does the transformation change.
     * The source dereferences `pointers[id]`, so the id must be tracked.
     */
    method MovePointer(id: string, position: Point, turn: Turn)
      requires Valid() && id in pointers
      modifies this, pointers[id]
      ensures Valid()
      ensures pointers == old(pointers) && positions == old(positions)[id := position]
      ensures pointerCount == old(pointerCount) && activePointerCount == old(activePointerCount)
      ensures pointers[id].isActive == old(pointers[id].isActive)
      ensures PivotUpdated(old(pivot), old(pivotRadius))
      ensures transformationMatrix ==
        if activePointerCount > 0
        then Manipulated(old(transformationMatrix), previousPivot, pivot, previousPivotRadius, pivotRadius, turn)
        else old(transformationMatrix)
    {
      Relocate(id, position);
      UpdatePivot();
      if activePointerCount > 0 {
        OnManipulation(turn);
      }
    }

    /**
     * `movePointer(id, position)` as the source has it: the same move, with
     * the step that raises at `getPreviousPosition` after the zoom.
     */
    method MovePointerAsWritten(id: string, position: Point) returns (raised: bool)
      requires Valid() && id in pointers
      modifies this, pointers[id]
      ensures Valid()
      ensures pointers == old(pointers) && positions == old(positions)[id := position]
      ensures pointerCount == old(pointerCount) && activePointerCount == old(activePointerCount)
      ensures pointers[id].isActive == old(pointers[id].isActive)
      ensures PivotUpdated(old(pivot), old(pivotRadius))
      ensures (transformationMatrix, raised) ==
        if activePointerCount > 0
        then ManipulatedAsWritten(old(transformationMatrix), previousPivot, pivot, previousPivotRadius, pivotRadius)
        else (old(transformationMatrix), false)
    {
      Relocate(id, position);
      UpdatePivot();
      raised := false;
      if activePointerCount > 0 {
        raised := OnManipulationAsWritten();
      }
    }

    /** `onPointerActivate(id)`: the pointer is pressed and counted. */
    method OnPointerActivate(id: string)
      requires Valid() && id in pointers
      modifies this`activePointerCount, pointers[id]
      ensures Valid()
      ensures pointers[id].isActive
      ensures activePointerCount == old(activePointerCount) + 1
    {
      pointers[id].Activate();
      activePointerCount := activePointerCount + 1;
    }

    /** `onPointerDeactivate(id, ignoreUpdateCount)`: the pointer is released; the count drops unless told not to. */
    method OnPointerDeactivate(id: string, ignoreUpdateCount: bool)
      requires Valid() && id in pointers
      modifies this`activePointerCount, pointers[id]
      ensures Valid()
      ensures !pointers[id].isActive
      ensures activePointerCount == if ignoreUpdateCount then old(activePointerCount) else old(activePointerCount) - 1
    {
      pointers[id].Deactivate();
      if !ignoreUpdateCount {
        activePointerCount := activePointerCount - 1;
      }
    }

    /** `onPointerEnter(id, position)`. */
    method OnPointerEnter(id: string, position: Point)
      requires Valid()
      modifies this
      ensures Valid()
      ensures id in pointers && fresh(pointers[id]) && pointers.Keys == old(pointers.Keys) + {id}
      ensures positions == old(positions)[id := position]
      ensures pointerCount == old(pointerCount) + 1 && activePointerCount == old(activePointerCount)
      ensures transformationMatrix == old(transformationMatrix)
      ensures PivotUpdated(old(pivot), old(pivotRadius))
    {
      AddPointer(id, position);
    }

    /** `onPointerMove(id, position)`. */
    method OnPointerMove(id: string, position: Point, turn: Turn)
      requires Valid() && id in pointers
      modifies this, pointers[id]
      ensures Valid()
      ensures pointers == old(pointers) && positions == old(positions)[id := position]
      ensures pointerCount == old(pointerCount) && activePointerCount == old(activePointerCount)
      ensures PivotUpdated(old(pivot), old(pivotRadius))
      ensures transformationMatrix ==
        if activePointerCount > 0
        then Manipulated(old(transformationMatrix), previousPivot, pivot, previousPivotRadius, pivotRadius, turn)
        else old(transformationMatrix)
    {
      MovePointer(id, position, turn);
    }

    /** `onPointerMove(id, position)` as the source has it: a pressed drag that zooms raises before the turn. */
    method OnPointerMoveAsWritten(id: string, position: Point) returns (raised: bool)
      requires Valid() && id in pointers
      modifies this, pointers[id]
      ensures Valid()
      ensures pointers == old(pointers) && positions == old(positions)[id := position]
      ensures pointerCount == old(pointerCount) && activePointerCount == old(activePointerCount)
      ensures PivotUpdated(old(pivot), old(pivotRadius))
      ensures (transformationMatrix, raised) ==
        if activePointerCount > 0
        then ManipulatedAsWritten(old(transformationMatrix), previousPivot, pivot, previousPivotRadius, pivotRadius)
        else (old(transformationMatrix), false)
    {
      raised := MovePointerAsWritten(id, position);
    }

    /** `onPointerLeave(id)`. */
    method OnPointerLeave(id: string)
      requires Valid()
      modifies this
      ensures Valid()
      ensures pointers == old(pointers) - {id} && positions == old(positions) - {id}
      ensures pointerCount == old(pointerCount) - 1 && activePointerCount == old(activePointerCount)
      ensures transformationMatrix == old(transformationMatrix)
      ensures PivotUpdated(old(pivot), old(pivotRadius))
    {
      RemovePointer(id);
    }
  }

  /**
   * With exactly one tracked pointer the pivot is that pointer and the
   * radius is zero, so zooming and turning need at least two pointers.
   */
  lemma SinglePointerHasNoRadius(ps: map<string, Point>, id: string, length: Point -> real)
    requires ps.Keys == {id} && length(Point(0.0, 0.0)) == 0.0
    ensures Centroid(ps, 1) == ps[id]
    ensures MeanDistance(ps, length, Centroid(ps, 1), 1) == 0.0
  {
    SumSingle(ps, id, X);
    SumSingle(ps, id, Y);
    SumSingle(ps, id, DistanceTo(length, ps[id]));
    assert Offset(ps[id], ps[id]) == Point(0.0, 0.0);
  }

  /** The offsets of the pointers from their centroid balance out in both coordinates. */
  lemma PivotIsBalancePoint(ps: map<string, Point>)
    requires |ps.Keys| > 0
    ensures Sum(ps, ps.Keys, OffsetX(Centroid(ps, |ps.Keys|))) == 0.0
    ensures Sum(ps, ps.Keys, OffsetY(Centroid(ps, |ps.Keys|))) == 0.0
  {
    var c := Centroid(ps, |ps.Keys|);
    SumShift(ps, ps.Keys, X, OffsetX(c), c.x);
    SumShift(ps, ps.Keys, Y, OffsetY(c), c.y);
    RepeatIsProduct(|ps.Keys|, c.x);
    RepeatIsProduct(|ps.Keys|, c.y);
  }

  /** When lengths are never negative, neither is the radius. */
  lemma RadiusNonNegative(ps: map<string, Point>, length: Point -> real, c: Point, n: int)
    requires n > 0 && forall p :: length(p) >= 0.0
    ensures MeanDistance(ps, length, c, n) >= 0.0
  {
    DistancesNonNegative(ps, length, c);
    MeanNonNegative(Sum(ps, ps.Keys, DistanceTo(length, c)), n as real);
  }
}
