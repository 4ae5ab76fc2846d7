/**
 * A single touch or mouse pointer: an id, a position and whether it is
 * pressed. Positions are values, so the copies the source makes with
 * `clone()` are implicit: a caller can never change a pointer through a
 * position it was given or handed back.
 */
module Pointers {
  import opened Affine

  class Pointer {
    const id: string
    var position: Point
    var isActive: bool

    /** `new Pointer(id, initialPosition)`: keeps the id and the position, not yet pressed. */
    constructor (id: string, initialPosition: Point)
      ensures this.id == id && position == initialPosition && !isActive
    {
      this.id := id;
      position := initialPosition;
      isActive := false;
    }

    /** `move(position)`: takes the new coordinates; id and activity are untouched. */
    method Move(p: Point)
      modifies this`position
      ensures position == p
    {
      position := Point(p.x, p.y);
    }

    /** `getPosition()`: the stored position. */
    method GetPosition() returns (p: Point)
      ensures p == position
    {
      p := Point(position.x, position.y);
    }

    /** `getIsActive()`. */
    method GetIsActive() returns (active: bool)
      ensures active == isActive
    {
      active := isActive;
    }

    /** `activate()`: the pointer is pressed, whatever it was before. */
    method Activate()
      modifies this`isActive
      ensures isActive
    {
      isActive := true;
    }

    /** `deactivate()`: the pointer is released, whatever it was before. */
    method Deactivate()
      modifies this`isActive
      ensures !isActive
    {
      isActive := false;
    }
  }
}
