/** The testimonial carousel of the home page: previous/next buttons that wrap around, and a
    row of dots that jump to a slide and pick the slide-in direction. */
module Testimonials {

  /** The carousel shows a fixed list of three testimonials. */
  const Count := 3

  /** `paginate`'s index: one step in `dir`, then the two wrap checks in order. */
  function NextIndex(cur: int, dir: int, len: int): int {
    var next := cur + dir;
    var next' := if next < 0 then len - 1 else next;
    if next' >= len then 0 else next'
  }

  /** On a non-empty list the index always lands in range, whatever the step. */
  lemma NextIndexInRange(cur: int, dir: int, len: int)
    requires len > 0
    ensures 0 <= NextIndex(cur, dir, len) < len
  {
  }

  /** Stepping back from the first slide goes to the last; stepping on from the last goes to the first. */
  lemma NextIndexWraps(len: int)
    requires len > 0
    ensures NextIndex(0, -1, len) == len - 1
    ensures NextIndex(len - 1, 1, len) == 0
  {
  }

  /** For a step of one either way from a slide in range, the index moves cyclically:
      it is `(cur + dir) mod len`. */
  lemma NextIndexIsCyclic(cur: int, dir: int, len: int)
    requires 0 <= cur < len && (dir == 1 || dir == -1)
    ensures NextIndex(cur, dir, len) == (cur + dir) % len
  {
    if cur + dir == len {
      assert (cur + dir) % len == 0;
    } else if cur + dir == -1 {
      assert (cur + dir) % len == len - 1;
    }
  }

  /** Next then previous, or previous then next, comes back to the slide it started from. */
  lemma NextThenPrevious(cur: int, len: int)
    requires 0 <= cur < len
    ensures NextIndex(NextIndex(cur, 1, len), -1, len) == cur
    ensures NextIndex(NextIndex(cur, -1, len), 1, len) == cur
  {
  }

  /** The carousel's state. */
  class Carousel {
    var currentIndex: int
    var direction: int

    ghost predicate Valid()
      reads this
    {
      0 <= currentIndex < Count
    }

    constructor ()
      ensures Valid() && currentIndex == 0 && direction == 0
    {
      currentIndex := 0;
      direction := 0;
    }

    /** `paginate(newDirection)`: record the direction, then move the index with wrap-around. */
    method Paginate(newDirection: int)
      requires Valid()
      modifies this
      ensures Valid()
      ensures direction == newDirection
      ensures currentIndex == NextIndex(old(currentIndex), newDirection, Count)
    {
      direction := newDirection;
      var nextIndex := currentIndex + newDirection;
      if nextIndex < 0 {
        nextIndex := Count - 1;
      }
      if nextIndex >= Count {
        nextIndex := 0;
      }
      currentIndex := nextIndex;
    }

    /** A click on dot `index`: the slide-in direction is forwards when the dot is after the
        current slide and backwards otherwise, the current dot included. */
    method GoToDot(index: int)
      requires Valid() && 0 <= index < Count
      modifies this
      ensures Valid()
      ensures currentIndex == index
      ensures direction == if index > old(currentIndex) then 1 else -1
    {
      direction := if index > currentIndex then 1 else -1;
      currentIndex := index;
    }
  }
}
