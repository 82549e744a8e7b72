/** Box-pushing physics and the win and stuck tests, on board values. */
module Rules {
  import opened Blueprint

  datatype Option<T> = None | Some(value: T)

  /** Neither a wall nor a box occupies `p` (the player does not count). */
  predicate Free(b: Board, p: Pos) {
    p !in b.walls && p !in b.boxes
  }

  /** The direction list the stuck test walks: each axis appears twice. */
  const Directions: seq<(int, int)> := [(-1, 0), (1, 0), (0, -1), (0, 1)]

  /** The cells on both sides of `box` along direction (dx, dy) are free. */
  predicate MovableAlong(b: Board, box: Pos, dx: int, dy: int) {
    Free(b, box.Plus(dx, dy)) && Free(b, box.Plus(-dx, -dy))
  }

  /** No direction of the list leaves `box` movable. */
  predicate IsBoxStuck(b: Board, box: Pos) {
    !exists i :: 0 <= i < |Directions| && MovableAlong(b, box, Directions[i].0, Directions[i].1)
  }

  /** Every target is covered by some box; surplus boxes may stand anywhere. */
  predicate Won(b: Board) {
    forall t :: t in b.targets ==> t in b.boxes
  }

  /** Some box that is not on a target is stuck. */
  predicate Lost(b: Board) {
    exists i :: 0 <= i < |b.boxes| && b.boxes[i] !in b.targets && IsBoxStuck(b, b.boxes[i])
  }

  /**
   * The board invariant moves keep: the player stands on neither a wall nor a box,
   * boxes are pairwise distinct and none stands on a wall.
   */
  predicate BoardValid(b: Board) {
    && b.player !in b.walls
    && b.player !in b.boxes
    && Distinct(b.boxes)
    && forall q :: q in b.boxes ==> q !in b.walls
  }

  /** A blueprint with a player cell parses to a board that satisfies the invariant. */
  lemma ParsedBoardValid(grid: seq<string>)
    requires HasPlayer(grid)
    ensures BoardValid(Parse(grid))
  {
    ParsePlayer(grid);
    ParseItems(grid, Wall);
    ParseItems(grid, Box);
    ParseRowMajor(grid, Box);
    var b := Parse(grid);
    assert Glyph(Wall) == '#' && Glyph(Box) == 'B';
    assert !CellIs(grid, b.player, '#');
    forall q | q in b.boxes ensures q !in b.walls {
      assert CellIs(grid, q, 'B');
      assert !CellIs(grid, q, '#');
    }
  }

  /** Position of the first occurrence of `x`. */
  function FirstIndex(s: seq<Pos>, x: Pos): (i: nat)
    requires x in s
    ensures i < |s| && s[i] == x && x !in s[..i]
  {
    if s[0] == x then 0
    else
      var j := FirstIndex(s[1..], x);
      assert s[..j + 1] == [s[0]] + s[1..][..j];
      j + 1
  }

  /** Removal of the first occurrence of `x`, keeping the order of the rest. */
  function RemoveFirst(s: seq<Pos>, x: Pos): (r: seq<Pos>)
    requires x in s
    ensures |r| == |s| - 1
    ensures multiset(r) == multiset(s) - multiset{x}
  {
    var i := FirstIndex(s, x);
    assert s == s[..i] + [s[i]] + s[i + 1..];
    s[..i] + s[i + 1..]
  }

  /** On a duplicate-free list, removal drops exactly `x` and keeps the list duplicate-free. */
  lemma RemoveFirstDistinct(s: seq<Pos>, x: Pos)
    requires x in s && Distinct(s)
    ensures Distinct(RemoveFirst(s, x))
    ensures forall q :: q in RemoveFirst(s, x) <==> q in s && q != x
  {
  }

  /**
   * One step of the player by (dx, dy): `None` when the step is blocked, otherwise the new board.
   * A box in the way is pushed one cell further when that cell is free: it is removed from the
   * list and its new position appended.
   */
  function Step(b: Board, dx: int, dy: int): (r: Option<Board>)
    ensures var dest := b.player.Plus(dx, dy);
      r.None? <==> dest in b.walls || (dest in b.boxes && !Free(b, dest.Plus(dx, dy)))
    ensures r.Some? ==>
      && r.value.walls == b.walls && r.value.targets == b.targets
      && r.value.player == b.player.Plus(dx, dy)
    ensures r.Some? && b.player.Plus(dx, dy) !in b.boxes ==> r.value.boxes == b.boxes
    ensures var dest := b.player.Plus(dx, dy);
      r.Some? && dest in b.boxes ==>
        multiset(r.value.boxes) == multiset(b.boxes) - multiset{dest} + multiset{dest.Plus(dx, dy)}
  {
    var dest := b.player.Plus(dx, dy);
    if dest in b.walls then None
    else if dest in b.boxes then
      var beyond := dest.Plus(dx, dy);
      if beyond in b.walls || beyond in b.boxes then None
      else Some(b.(boxes := RemoveFirst(b.boxes, dest) + [beyond], player := dest))
    else Some(b.(player := dest))
  }

  /** A successful step keeps the board invariant and the number of boxes. */
  lemma StepPreservesValid(b: Board, dx: int, dy: int)
    requires BoardValid(b) && Step(b, dx, dy).Some?
    ensures BoardValid(Step(b, dx, dy).value)
    ensures |Step(b, dx, dy).value.boxes| == |b.boxes|
  {
  }

  /**
   * What the stuck test guarantees: a box it flags cannot be pushed by any single step along
   * one of the four directions, because either the cell it would enter is occupied or the cell
   * the player would have to stand on is.
   */
  lemma StuckBoxCannotBePushed(b: Board, box: Pos, i: int)
    requires BoardValid(b) && box in b.boxes && IsBoxStuck(b, box)
    requires 0 <= i < |Directions| && Step(b, Directions[i].0, Directions[i].1).Some?
    ensures box in Step(b, Directions[i].0, Directions[i].1).value.boxes
  {
  }

  /** Only the two axes matter: the list names each one in both orientations. */
  lemma StuckOnBothAxes(b: Board, box: Pos)
    ensures IsBoxStuck(b, box) <==>
      && (!Free(b, Pos(box.x - 1, box.y)) || !Free(b, Pos(box.x + 1, box.y)))
      && (!Free(b, Pos(box.x, box.y - 1)) || !Free(b, Pos(box.x, box.y + 1)))
  {
    assert MovableAlong(b, box, -1, 0) <==> MovableAlong(b, box, 1, 0);
    assert MovableAlong(b, box, 0, -1) <==> MovableAlong(b, box, 0, 1);
    if !IsBoxStuck(b, box) {
      var i :| 0 <= i < |Directions| && MovableAlong(b, box, Directions[i].0, Directions[i].1);
      assert i in {0, 1, 2, 3};
    } else {
      assert !MovableAlong(b, box, Directions[1].0, Directions[1].1);
      assert !MovableAlong(b, box, Directions[3].0, Directions[3].1);
    }
  }
}
