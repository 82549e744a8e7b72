/** The fixed list of levels and the layout helper that sizes a level's cells. */
module Catalog {
  import opened Blueprint

  /** The three hand-authored levels, in play order. */
  const Levels: seq<seq<string>> := [
    [
      "##########",
      "#     O  #",
      "# P  B   #",
      "#        #",
      "##########"
    ],
    [
      "##########",
      "#   O   O#",
      "#  B B  P#",
      "#        #",
      "##########"
    ],
    [
      "#########",
      "#  O   P#",
      "# B##B  #",
      "#   O  ##",
      "#########"
    ]
  ]

  /** Index of the final level. */
  const LastLevel := |Levels| - 1

  /** Every level of the catalog places its player, so parsing never falls back to (0, 0). */
  lemma LevelHasPlayer(level: int)
    requires 0 <= level < |Levels|
    ensures HasPlayer(Levels[level])
  {
    if level == 0 {
      assert Levels[0][2][2] == 'P';
    } else if level == 1 {
      assert Levels[1][2][8] == 'P';
    } else {
      assert Levels[2][1][7] == 'P';
    }
  }

  /** Length of the longest row. */
  function MaxCols(grid: seq<string>): (m: nat)
    ensures forall y :: 0 <= y < |grid| ==> |grid[y]| <= m
    ensures grid != [] ==> exists y :: 0 <= y < |grid| && |grid[y]| == m
    decreases |grid|
  {
    if grid == [] then 0
    else
      var rest := MaxCols(grid[1..]);
      assert forall y :: 1 <= y < |grid| ==> grid[y] == grid[1..][y - 1];
      if |grid[0]| >= rest then |grid[0]| else rest
  }

  /**
   * Side length of a square cell, in pixels, for a window of `width` by `height`:
   * the largest size at which the widest row and all rows fit.
   */
  function CellSize(width: nat, height: nat, grid: seq<string>): (size: nat)
    requires grid != [] && MaxCols(grid) > 0
    ensures size * MaxCols(grid) <= width && size * |grid| <= height
    ensures (size + 1) * MaxCols(grid) > width || (size + 1) * |grid| > height
  {
    var cols, rows := MaxCols(grid), |grid|;
    var byWidth, byHeight := width / cols, height / rows;
    FloorDivFits(width, cols);
    FloorDivFits(height, rows);
    if byWidth <= byHeight then
      MulMonotone(byWidth, byHeight, rows);
      byWidth
    else
      MulMonotone(byHeight, byWidth, cols);
      byHeight
  }

  /**
   * Proof step for `CellSize`: `n / d` is the largest multiple count of `d` that fits in `n`.
   * On naturals Dafny's `/` is Python's floor division `//`.
   */
  lemma FloorDivFits(n: nat, d: nat)
    requires d > 0
    ensures (n / d) * d <= n < (n / d + 1) * d
  {
  }

  /** Proof step for `CellSize`: multiplying by the same factor keeps the order. */
  lemma MulMonotone(a: nat, b: nat, c: nat)
    requires a <= b
    ensures a * c <= b * c
  {
  }

  /** The catalog's levels all have a row of positive length, so their cell size is defined. */
  lemma LevelSizable(level: int)
    requires 0 <= level < |Levels|
    ensures Levels[level] != [] && MaxCols(Levels[level]) > 0
  {
  }
}
