/** Level blueprints (text grids) and the row-major scan that turns one into a board. */
module Blueprint {

  /** A grid cell: column `x`, row `y`. */
  datatype Pos = Pos(x: int, y: int) {
    function Plus(dx: int, dy: int): Pos { Pos(x + dx, y + dy) }
  }

  /** The board a blueprint describes: the wall, box and target lists and the player position. */
  datatype Board = Board(walls: seq<Pos>, player: Pos, boxes: seq<Pos>, targets: seq<Pos>)

  /** The three kinds of cell the parser collects into lists. */
  datatype Kind = Wall | Box | Target

  function Glyph(k: Kind): char {
    match k
    case Wall => '#'
    case Box => 'B'
    case Target => 'O'
  }

  function Items(b: Board, k: Kind): seq<Pos> {
    match k
    case Wall => b.walls
    case Box => b.boxes
    case Target => b.targets
  }

  /** Row `p.y`, column `p.x` of the grid exists and holds `ch`. */
  predicate CellIs(grid: seq<string>, p: Pos, ch: char) {
    0 <= p.y < |grid| && 0 <= p.x < |grid[p.y]| && grid[p.y][p.x] == ch
  }

  /** `a` is scanned before `b` in row-major order. */
  predicate Before(a: Pos, b: Pos) {
    a.y < b.y || (a.y == b.y && a.x < b.x)
  }

  predicate RowMajor(s: seq<Pos>) {
    forall i, j :: 0 <= i < j < |s| ==> Before(s[i], s[j])
  }

  predicate Distinct(s: seq<Pos>) {
    forall i, j :: 0 <= i < j < |s| ==> s[i] != s[j]
  }

  /** The state the scan starts from: empty lists, player at (0, 0). */
  const Empty := Board([], Pos(0, 0), [], [])

  /** The effect of scanning one character at (x, y). */
  function ScanCell(b: Board, ch: char, x: int, y: int): Board {
    if ch == '#' then b.(walls := b.walls + [Pos(x, y)])
    else if ch == 'P' then b.(player := Pos(x, y))
    else if ch == 'B' then b.(boxes := b.boxes + [Pos(x, y)])
    else if ch == 'O' then b.(targets := b.targets + [Pos(x, y)])
    else b
  }

  /** Scanning the characters of `row` (row number `y`) from left to right. */
  function ScanRow(b: Board, row: string, y: int): Board
    decreases |row|
  {
    if row == [] then b
    else ScanCell(ScanRow(b, row[..|row| - 1], y), row[|row| - 1], |row| - 1, y)
  }

  /** Scanning the rows of `grid` from top to bottom. */
  function ScanRows(b: Board, grid: seq<string>): Board
    decreases |grid|
  {
    if grid == [] then b
    else ScanRow(ScanRows(b, grid[..|grid| - 1]), grid[|grid| - 1], |grid| - 1)
  }

  /** The board a blueprint yields. */
  function Parse(grid: seq<string>): Board {
    ScanRows(Empty, grid)
  }

  /** Some cell of the grid holds the player glyph. */
  predicate HasPlayer(grid: seq<string>) {
    exists y, x :: 0 <= y < |grid| && 0 <= x < |grid[y]| && grid[y][x] == 'P'
  }

  // ---------------------------------------------------------------------------
  // Membership: a list holds exactly the cells of its glyph.

  lemma {:induction false} ScanRowItems(b: Board, row: string, y: int, k: Kind)
    ensures forall p :: p in Items(ScanRow(b, row, y), k) <==>
      p in Items(b, k) || (p.y == y && 0 <= p.x < |row| && row[p.x] == Glyph(k))
    decreases |row|
  {
    if row != [] {
      var n := |row| - 1;
      ScanRowItems(b, row[..n], y, k);
      forall p ensures p in Items(ScanRow(b, row, y), k) <==>
        p in Items(b, k) || (p.y == y && 0 <= p.x < |row| && row[p.x] == Glyph(k))
      {
        if p.y == y && 0 <= p.x < n {
          assert row[..n][p.x] == row[p.x];
        }
      }
    }
  }

  lemma {:induction false} ScanRowsItems(b: Board, grid: seq<string>, k: Kind)
    ensures forall p :: p in Items(ScanRows(b, grid), k) <==> p in Items(b, k) || CellIs(grid, p, Glyph(k))
    decreases |grid|
  {
    if grid != [] {
      var n := |grid| - 1;
      ScanRowsItems(b, grid[..n], k);
      ScanRowItems(ScanRows(b, grid[..n]), grid[n], n, k);
      forall p ensures p in Items(ScanRows(b, grid), k) <==> p in Items(b, k) || CellIs(grid, p, Glyph(k))
      {
        if 0 <= p.y < n {
          assert grid[..n][p.y] == grid[p.y];
        }
      }
    }
  }

  /** A position is in the wall / box / target list exactly when its cell holds `#` / `B` / `O`. */
  lemma ParseItems(grid: seq<string>, k: Kind)
    ensures forall p :: p in Items(Parse(grid), k) <==> CellIs(grid, p, Glyph(k))
  {
    ScanRowsItems(Empty, grid, k);
  }

  // ---------------------------------------------------------------------------
  // Order: each list is in row-major order.

  lemma {:induction false} ScanRowRowMajor(b: Board, row: string, y: int, k: Kind)
    requires 0 <= y
    requires RowMajor(Items(b, k))
    requires forall p :: p in Items(b, k) ==> 0 <= p.y < y
    ensures RowMajor(Items(ScanRow(b, row, y), k))
    ensures forall p :: p in Items(ScanRow(b, row, y), k) ==>
      0 <= p.y < y || (p.y == y && 0 <= p.x < |row|)
    decreases |row|
  {
    if row != [] {
      var n := |row| - 1;
      ScanRowRowMajor(b, row[..n], y, k);
    }
  }

  lemma {:induction false} ScanRowsRowMajor(grid: seq<string>, k: Kind)
    ensures RowMajor(Items(ScanRows(Empty, grid), k))
    ensures forall p :: p in Items(ScanRows(Empty, grid), k) ==> 0 <= p.y < |grid|
    decreases |grid|
  {
    if grid != [] {
      var n := |grid| - 1;
      ScanRowsRowMajor(grid[..n], k);
      ScanRowRowMajor(ScanRows(Empty, grid[..n]), grid[n], n, k);
    }
  }

  /** Each list of a parsed board is in row-major (scan) order, hence free of duplicates. */
  lemma ParseRowMajor(grid: seq<string>, k: Kind)
    ensures RowMajor(Items(Parse(grid), k))
    ensures Distinct(Items(Parse(grid), k))
  {
    ScanRowsRowMajor(grid, k);
  }

  // ---------------------------------------------------------------------------
  // Player: the last `P` in scan order, or the starting position when there is none.

  lemma {:induction false} ScanRowPlayer(b: Board, row: string, y: int)
    ensures var q := ScanRow(b, row, y).player;
      if exists x :: 0 <= x < |row| && row[x] == 'P' then
        q.y == y && 0 <= q.x < |row| && row[q.x] == 'P' &&
        forall x :: q.x < x < |row| ==> row[x] != 'P'
      else q == b.player
    decreases |row|
  {
    if row != [] {
      var n := |row| - 1;
      ScanRowPlayer(b, row[..n], y);
      if exists x :: 0 <= x < n && row[x] == 'P' {
        var x :| 0 <= x < n && row[x] == 'P';
        assert row[..n][x] == 'P';
      }
      if exists x :: 0 <= x < n && row[..n][x] == 'P' {
        var x :| 0 <= x < n && row[..n][x] == 'P';
        assert row[x] == 'P';
      }
    }
  }

  lemma {:induction false} ScanRowsPlayer(grid: seq<string>)
    ensures var q := ScanRows(Empty, grid).player;
      if HasPlayer(grid) then
        CellIs(grid, q, 'P') &&
        forall y, x :: 0 <= y < |grid| && 0 <= x < |grid[y]| && grid[y][x] == 'P' ==> !Before(q, Pos(x, y))
      else q == Pos(0, 0)
    decreases |grid|
  {
    if grid != [] {
      var n := |grid| - 1;
      var prefix := grid[..n];
      ScanRowsPlayer(prefix);
      ScanRowPlayer(ScanRows(Empty, prefix), grid[n], n);
      forall y | 0 <= y < n ensures grid[y] == prefix[y] { }
      if HasPlayer(grid) && !(exists x :: 0 <= x < |grid[n]| && grid[n][x] == 'P') {
        var y, x :| 0 <= y < |grid| && 0 <= x < |grid[y]| && grid[y][x] == 'P';
        assert prefix[y][x] == 'P';
      }
    }
  }

  /** The player is the last `P` in scan order; with no `P` it stays at (0, 0). */
  lemma ParsePlayer(grid: seq<string>)
    ensures HasPlayer(grid) ==> CellIs(grid, Parse(grid).player, 'P')
    ensures forall y, x :: 0 <= y < |grid| && 0 <= x < |grid[y]| && grid[y][x] == 'P' ==>
      !Before(Parse(grid).player, Pos(x, y))
    ensures !HasPlayer(grid) ==> Parse(grid).player == Pos(0, 0)
  {
    ScanRowsPlayer(grid);
  }

  // ---------------------------------------------------------------------------
  // The parser as the source runs it: two nested loops appending to lists.

  method ParseMap(grid: seq<string>) returns (b: Board)
    ensures b == Parse(grid)
    ensures forall p :: p in b.walls <==> CellIs(grid, p, '#')
    ensures forall p :: p in b.boxes <==> CellIs(grid, p, 'B')
    ensures forall p :: p in b.targets <==> CellIs(grid, p, 'O')
    ensures RowMajor(b.walls) && RowMajor(b.boxes) && RowMajor(b.targets)
    ensures HasPlayer(grid) ==> CellIs(grid, b.player, 'P')
    ensures forall y, x :: 0 <= y < |grid| && 0 <= x < |grid[y]| && grid[y][x] == 'P' ==> !Before(b.player, Pos(x, y))
    ensures !HasPlayer(grid) ==> b.player == Pos(0, 0)
  {
    b := Empty;
    var y := 0;
    while y < |grid|
      invariant 0 <= y <= |grid|
      invariant b == ScanRows(Empty, grid[..y])
    {
      var row := grid[y];
      var x := 0;
      while x < |row|
        invariant 0 <= x <= |row|
        invariant b == ScanRow(ScanRows(Empty, grid[..y]), row[..x], y)
      {
        var ch := row[x];
        if ch == '#' {
          b := b.(walls := b.walls + [Pos(x, y)]);
        } else if ch == 'P' {
          b := b.(player := Pos(x, y));
        } else if ch == 'B' {
          b := b.(boxes := b.boxes + [Pos(x, y)]);
        } else if ch == 'O' {
          b := b.(targets := b.targets + [Pos(x, y)]);
        }
        assert row[..x + 1][..x] == row[..x];
        x := x + 1;
      }
      assert row[..x] == row;
      assert grid[..y + 1][..y] == grid[..y];
      y := y + 1;
    }
    assert grid[..y] == grid;
    ParseItems(grid, Wall);
    ParseItems(grid, Box);
    ParseItems(grid, Target);
    ParseRowMajor(grid, Wall);
    ParseRowMajor(grid, Box);
    ParseRowMajor(grid, Target);
    ParsePlayer(grid);
  }
}
