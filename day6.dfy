/** Model of src/day6.rs: a guard walks a grid of empty cells and walls,
    turning right before a wall and stopping once the next step would leave
    the grid. Part 1 counts the cells the guard stands on; part 2 counts the
    cells where one extra wall makes the walk loop forever. */
module Day6 {
  import opened Bytes
  import opened Options
  import Day4

  // ---------------------------------------------------------------------
  // Directions, lines 100-126.
  // ---------------------------------------------------------------------

  datatype Direction = Up | Down | Left | Right

  /** `as_ordinal`, lines 109-116. */
  function AsOrdinal(d: Direction): (k: nat)
    ensures k < 4
  {
    match d
    case Up => 0
    case Right => 1
    case Down => 2
    case Left => 3
  }

  /** `turn_right`, lines 118-125. */
  function TurnRight(d: Direction): Direction {
    match d
    case Up => Right
    case Right => Down
    case Down => Left
    case Left => Up
  }

  /** The direction of an ordinal: the inverse of `AsOrdinal`. */
  function FromOrdinal(k: nat): (d: Direction)
    requires k < 4
    ensures AsOrdinal(d) == k
  {
    if k == 0 then Up else if k == 1 then Right else if k == 2 then Down else Left
  }

  /** `as_ordinal` tells the four directions apart: its inverse gives the
      direction back. */
  lemma OrdinalRoundTrip(d: Direction)
    ensures FromOrdinal(AsOrdinal(d)) == d
  {
  }

  /** A right turn is a quarter turn: it adds one to the ordinal, mod 4. */
  lemma TurnAdvancesOrdinal(d: Direction)
    ensures AsOrdinal(TurnRight(d)) == (AsOrdinal(d) + 1) % 4
  {
  }

  /** Four right turns face the guard the way it started. */
  lemma FourTurns(d: Direction)
    ensures TurnRight(TurnRight(TurnRight(TurnRight(d)))) == d
    ensures TurnRight(d) != d
  {
  }

  // ---------------------------------------------------------------------
  // The walk, lines 65-98.
  // ---------------------------------------------------------------------

  datatype Cell = Empty | Wall

  /** A grid: `g[y][x]` is the cell in row `y` and column `x`. */
  type Grid = seq<seq<Cell>>

  /** Every row has `cols` cells. */
  predicate Rectangular(g: Grid, cols: nat) {
    forall y | 0 <= y < |g| :: |g[y]| == cols
  }

  datatype State = State(x: int, y: int, dir: Direction)

  /** The cell in front of the guard, lines 75-80. */
  function Ahead(s: State): (int, int) {
    match s.dir
    case Up => (s.x, s.y - 1)
    case Down => (s.x, s.y + 1)
    case Left => (s.x - 1, s.y)
    case Right => (s.x + 1, s.y)
  }

  /** Column `x` and row `y` lie in the grid. */
  predicate Inside(g: Grid, x: int, y: int) {
    0 <= y < |g| && 0 <= x < |g[y]|
  }

  /** One step, lines 75-94: stop before leaving the grid, turn before a
      wall, move otherwise. */
  function Step(g: Grid, s: State): (r: Option<State>)
    ensures r.None? <==> !Inside(g, Ahead(s).0, Ahead(s).1)
    ensures r.Some? && g[Ahead(s).1][Ahead(s).0] == Wall ==> r.value == State(s.x, s.y, TurnRight(s.dir))
    ensures r.Some? && g[Ahead(s).1][Ahead(s).0] == Empty ==> r.value == State(Ahead(s).0, Ahead(s).1, s.dir)
  {
    var (nx, ny) := Ahead(s);
    if !Inside(g, nx, ny) then None
    else if g[ny][nx] == Wall then Some(State(s.x, s.y, TurnRight(s.dir)))
    else Some(State(nx, ny, s.dir))
  }

  /** The state after `n` steps, or `None` once the guard has left. */
  function Run(g: Grid, s: State, n: nat): Option<State> {
    if n == 0 then Some(s)
    else match Run(g, s, n - 1)
      case None => None
      case Some(t) => Step(g, t)
  }

  /** The guard leaves the grid: the walk of lines 74-96 ends. */
  ghost predicate Escapes(g: Grid, s: State) {
    exists n: nat :: Run(g, s, n).None?
  }

  /** The guard never leaves the grid. */
  ghost predicate Loops(g: Grid, s: State) {
    forall n: nat :: Run(g, s, n).Some?
  }

  /** The guard stands on column `x` of row `y` in state `o`. */
  predicate On(o: Option<State>, x: int, y: int) {
    o.Some? && o.value.x == x && o.value.y == y
  }

  /** The guard stands on the cell at some point of the walk. */
  ghost predicate Reached(g: Grid, s: State, x: int, y: int) {
    exists k: nat :: On(Run(g, s, k), x, y)
  }

  /** Once the guard has left, it stays gone. */
  lemma {:induction false} GoneStaysGone(g: Grid, s: State, n: nat, m: nat)
    requires n <= m && Run(g, s, n).None?
    ensures Run(g, s, m).None?
    decreases m - n
  {
    if n < m {
      GoneStaysGone(g, s, n, m - 1);
    }
  }

  /** A walk that starts inside stays inside. */
  lemma {:induction false} RunInside(g: Grid, s: State, n: nat)
    requires Inside(g, s.x, s.y) && Run(g, s, n).Some?
    ensures Inside(g, Run(g, s, n).value.x, Run(g, s, n).value.y)
  {
    if n > 0 {
      RunInside(g, s, n - 1);
    }
  }

  /** The guard only ever stands on its start cell or on empty cells: it
      never steps onto a wall. */
  lemma {:induction false} NeverOnWall(g: Grid, s: State, n: nat)
    requires Run(g, s, n).Some?
    ensures var t := Run(g, s, n).value;
            (t.x, t.y) == (s.x, s.y) || (Inside(g, t.x, t.y) && g[t.y][t.x] == Empty)
  {
    if n > 0 {
      NeverOnWall(g, s, n - 1);
    }
  }

  /** Two equal states stay equal step after step. */
  lemma {:induction false} Periodic(g: Grid, s: State, j: nat, k: nat, m: nat)
    requires Run(g, s, j) == Run(g, s, k)
    ensures Run(g, s, j + m) == Run(g, s, k + m)
  {
    if m > 0 {
      Periodic(g, s, j, k, m - 1);
    }
  }

  /** A state that comes back makes the walk go round for ever. */
  lemma RepeatLoops(g: Grid, s: State, j: nat, k: nat)
    requires j < k && Run(g, s, j) == Run(g, s, k) && Run(g, s, k).Some?
    ensures Loops(g, s)
  {
    forall n: nat ensures Run(g, s, n).Some? {
      StillThere(g, s, j, k, n);
    }
  }

  lemma {:induction false} StillThere(g: Grid, s: State, j: nat, k: nat, n: nat)
    requires j < k && Run(g, s, j) == Run(g, s, k) && Run(g, s, k).Some?
    ensures Run(g, s, n).Some?
    decreases n
  {
    if n <= k {
      if Run(g, s, n).None? {
        GoneStaysGone(g, s, n, k);
      }
    } else {
      Periodic(g, s, j, k, n - k);
      StillThere(g, s, j, k, j + (n - k));
    }
  }

  /** A walk that leaves does not loop. */
  lemma EscapesIsNotLoops(g: Grid, s: State)
    ensures Escapes(g, s) <==> !Loops(g, s)
  {
  }

  // ---------------------------------------------------------------------
  // The grid as the program holds it.
  // ---------------------------------------------------------------------

  /** The cells of a matrix, row by row. */
  ghost function Matrix(a: array2<Cell>): (g: Grid)
    reads a
    ensures |g| == a.Length0 && Rectangular(g, a.Length1)
    ensures forall y, x | 0 <= y < a.Length0 && 0 <= x < a.Length1 :: g[y][x] == a[y, x]
  {
    seq(a.Length0, y requires 0 <= y < a.Length0 reads a => seq(a.Length1, x requires 0 <= x < a.Length1 reads a => a[y, x]))
  }

  /** The next state, as lines 75-94 compute it on the matrix. */
  method Advance(grid: array2<Cell>, x: int, y: int, dir: Direction) returns (stop: bool, x': int, y': int, dir': Direction)
    ensures stop <==> Step(Matrix(grid), State(x, y, dir)).None?
    ensures !stop ==> Step(Matrix(grid), State(x, y, dir)) == Some(State(x', y', dir'))
  {
    var newX, newY := x, y;
    match dir {
      case Up => newY := y - 1;
      case Down => newY := y + 1;
      case Left => newX := x - 1;
      case Right => newX := x + 1;
    }
    if newX < 0 || newX >= grid.Length1 || newY < 0 || newY >= grid.Length0 {
      return true, x, y, dir;
    }
    stop, x', y', dir' := false, x, y, dir;
    if grid[newY, newX] == Wall {
      dir' := TurnRight(dir);
    } else {
      x', y' := newX, newY;
    }
  }

  /** The guard stands on the cell within its first `k` steps. */
  ghost predicate ReachedWithin(g: Grid, s: State, k: nat, x: int, y: int) {
    exists j: nat | j <= k :: On(Run(g, s, j), x, y)
  }

  /** One more step adds the cell the guard then stands on. */
  lemma ReachedWithinNext(g: Grid, s: State, k: nat, x: int, y: int)
    ensures ReachedWithin(g, s, k + 1, x, y) <==> ReachedWithin(g, s, k, x, y) || On(Run(g, s, k + 1), x, y)
  {
    if ReachedWithin(g, s, k + 1, x, y) && !On(Run(g, s, k + 1), x, y) {
      var j: nat :| j <= k + 1 && On(Run(g, s, j), x, y);
      assert j <= k;
    }
  }

  /** A walk that ends after `k` steps reaches nothing later. */
  lemma ReachedWithinAll(g: Grid, s: State, k: nat, x: int, y: int)
    requires Run(g, s, k + 1).None?
    ensures ReachedWithin(g, s, k, x, y) <==> Reached(g, s, x, y)
  {
    if Reached(g, s, x, y) {
      var j: nat :| On(Run(g, s, j), x, y);
      if j > k {
        GoneStaysGone(g, s, k + 1, j);
      }
    }
  }

  /** `get_visited_cells`, lines 65-98: the cells the guard stands on,
      its start included. */
  method GetVisitedCells(grid: array2<Cell>, x: int, y: int, dir: Direction) returns (visited: array2<bool>)
    requires Inside(Matrix(grid), x, y) && Escapes(Matrix(grid), State(x, y, dir))
    ensures fresh(visited) && visited.Length0 == grid.Length0 && visited.Length1 == grid.Length1
    ensures forall r, c | 0 <= r < grid.Length0 && 0 <= c < grid.Length1 ::
      visited[r, c] <==> Reached(Matrix(grid), State(x, y, dir), c, r)
  {
    ghost var g, s := Matrix(grid), State(x, y, dir);
    ghost var end: nat :| Run(g, s, end).None?;
    visited := new bool[grid.Length0, grid.Length1]((_, _) => false);
    var cx, cy, cdir := x, y, dir;
    visited[cy, cx] := true;
    ghost var k: nat := 0;
    while true
      invariant Run(g, s, k) == Some(State(cx, cy, cdir)) && k < end
      invariant Inside(g, cx, cy)
      invariant forall r, c | 0 <= r < visited.Length0 && 0 <= c < visited.Length1 ::
        visited[r, c] <==> ReachedWithin(g, s, k, c, r)
      decreases end - k
    {
      var stop;
      stop, cx, cy, cdir := Advance(grid, cx, cy, cdir);
      if stop {
        forall r, c | 0 <= r < visited.Length0 && 0 <= c < visited.Length1
          ensures visited[r, c] <==> Reached(g, s, c, r)
        {
          ReachedWithinAll(g, s, k, c, r);
        }
        return;
      }
      RunInside(g, s, k + 1);
      forall r, c | 0 <= r < visited.Length0 && 0 <= c < visited.Length1 {
        ReachedWithinNext(g, s, k, c, r);
      }
      k := k + 1;
      visited[cy, cx] := true;
    }
  }

  /** The cells of a matrix that hold `true`, as (row, column) pairs. */
  ghost function Marked(m: array2<bool>): set<(int, int)>
    reads m
  {
    set r, c | 0 <= r < m.Length0 && 0 <= c < m.Length1 && m[r, c] :: (r, c)
  }

  /** Every cell of `cells` lies in a `rows` by `cols` grid. */
  predicate Within(cells: set<(int, int)>, rows: int, cols: int) {
    forall p | p in cells :: 0 <= p.0 < rows && 0 <= p.1 < cols
  }

  /** The cells of `cells` that a row-major scan meets before column `c` of
      row `r`. */
  function Prefix(cells: set<(int, int)>, r: int, c: int): set<(int, int)> {
    set p | p in cells && (p.0 < r || (p.0 == r && p.1 < c))
  }

  lemma PrefixStep(cells: set<(int, int)>, r: int, c: int)
    ensures |Prefix(cells, r, c + 1)| == |Prefix(cells, r, c)| + if (r, c) in cells then 1 else 0
  {
    if (r, c) in cells {
      assert Prefix(cells, r, c + 1) == Prefix(cells, r, c) + {(r, c)};
    } else {
      assert Prefix(cells, r, c + 1) == Prefix(cells, r, c);
    }
  }

  lemma PrefixRow(cells: set<(int, int)>, rows: int, cols: int, r: int)
    requires Within(cells, rows, cols)
    ensures Prefix(cells, r, cols) == Prefix(cells, r + 1, 0)
  {
  }

  lemma PrefixEnds(cells: set<(int, int)>, rows: int, cols: int)
    requires Within(cells, rows, cols)
    ensures Prefix(cells, 0, 0) == {} && Prefix(cells, rows, 0) == cells
  {
  }

  /** Lines 7-8: the number of `true` cells. */
  method CountMarked(m: array2<bool>) returns (count: nat)
    ensures count == |Marked(m)|
  {
    ghost var marked := Marked(m);
    PrefixEnds(marked, m.Length0, m.Length1);
    count := 0;
    for r := 0 to m.Length0
      invariant count == |Prefix(marked, r, 0)|
    {
      for c := 0 to m.Length1
        invariant count == |Prefix(marked, r, c)|
      {
        PrefixStep(marked, r, c);
        if m[r, c] {
          count := count + 1;
        }
      }
      PrefixRow(marked, m.Length0, m.Length1, r);
    }
  }

  /** The cells the guard stands on, as (row, column) pairs. */
  ghost function ReachedCells(g: Grid, s: State): set<(int, int)>
  {
    set r, c | 0 <= r < |g| && 0 <= c < |g[r]| && Reached(g, s, c, r) :: (r, c)
  }

  // ---------------------------------------------------------------------
  // `parse_input`, lines 134-172.
  // ---------------------------------------------------------------------

  const Hash: Byte := 35
  const Dot: Byte := 46
  const Caret: Byte := 94
  const LowerV: Byte := 118
  const Less: Byte := 60
  const Greater: Byte := 62

  predicate IsGuard(b: Byte) { b == Caret || b == LowerV || b == Less || b == Greater }

  /** The bytes `parse_input` accepts in a cell (line 167 panics on others). */
  predicate IsGlyph(b: Byte) { b == Hash || b == Dot || IsGuard(b) }

  function GuardDirection(b: Byte): Direction
    requires IsGuard(b)
  {
    if b == Caret then Up else if b == LowerV then Down else if b == Less then Left else Right
  }

  /** `width`, line 136: the bytes before the first newline. */
  function Columns(input: seq<Byte>): (w: nat)
    ensures w <= |input| && (w < |input| ==> input[w] == NewLine)
    ensures forall j | 0 <= j < w :: input[j] != NewLine
  {
    if input == [] || input[0] == NewLine then 0 else Columns(input[1..]) + 1
  }

  /** The number of lines `chunks(width + 1)` yields on `len` bytes. */
  function Lines(len: int, stride: nat): nat
    requires stride > 0
    decreases len
  {
    if len <= 0 then 0 else 1 + Lines(len - stride, stride)
  }

  /** The byte of column `x` of line `y`; a cell past the text reads as `.`. */
  function Glyph(input: seq<Byte>, w: nat, x: int, y: int): Byte {
    var i := Day4.RowStart(w + 1, y) + x;
    if 0 <= x < w && 0 <= y && 0 <= i < |input| then input[i] else Dot
  }

  /** The cell parsed from column `x` of line `y`. */
  function CellOf(input: seq<Byte>, w: nat, x: int, y: int): Cell {
    if Glyph(input, w, x, y) == Hash then Wall else Empty
  }

  /** The guard after scanning the cells before column `x` of line `y`:
      the last guard glyph seen, or `(0, 0)` facing up. */
  function GuardBefore(input: seq<Byte>, w: nat, y: nat, x: nat): State
    requires x <= w
    decreases y, x
  {
    if x == 0 then (if y == 0 then State(0, 0, Up) else GuardBefore(input, w, y - 1, w))
    else
      var b := Glyph(input, w, x - 1, y);
      if IsGuard(b) then State(x - 1, y, GuardDirection(b)) else GuardBefore(input, w, y, x - 1)
  }

  /** The guard of the whole text. */
  function Guard(input: seq<Byte>): State {
    var w := Columns(input);
    GuardBefore(input, w, Lines(|input|, w + 1), 0)
  }

  /** The rows of the grid: one per line of the text. Line 137 computes
      `input.len() / width` instead, which is `RowsAsWritten`. */
  function Rows(input: seq<Byte>): nat {
    Lines(|input|, Columns(input) + 1)
  }

  /** The grid has a row for every line of the text and no other. */
  lemma RowsAreLines(input: seq<Byte>, y: int)
    requires 0 <= y
    ensures y < Rows(input) <==> Day4.RowStart(Columns(input) + 1, y) < |input|
  {
    var w := Columns(input);
    if Day4.RowStart(w + 1, y) < |input| {
      LinesCover(|input|, w + 1, y);
    } else {
      LinesBelow(|input|, w + 1, y);
    }
  }

  /** No line starts at or past the end of the text. */
  lemma {:induction false} LinesBelow(len: int, stride: nat, y: int)
    requires stride > 0 && 0 <= y && Day4.RowStart(stride, y) >= len
    ensures Lines(len, stride) <= y
    decreases y
  {
    if y > 0 && len > 0 {
      LinesBelow(len - stride, stride, y - 1);
    }
  }

  /** The texts `parse_input` reads without a panic: a first line that is
      not empty (line 137 divides by it) and only glyphs in the cells. */
  predicate Parsable(input: seq<Byte>) {
    var w := Columns(input);
    w > 0 && forall y, x | 0 <= y < Lines(|input|, w + 1) && 0 <= x < w :: IsGlyph(Glyph(input, w, x, y))
  }

  /** The guard found is a guard glyph, or no guard glyph came before. */
  lemma {:induction false} GuardBeforeMeaning(input: seq<Byte>, w: nat, y: nat, x: nat)
    requires x <= w
    ensures var s := GuardBefore(input, w, y, x);
      (s == State(0, 0, Up) && forall y', x' | 0 <= x' < w && 0 <= y' && (y' < y || (y' == y && x' < x)) :: !IsGuard(Glyph(input, w, x', y')))
      || (IsGuard(Glyph(input, w, s.x, s.y)) && s.dir == GuardDirection(Glyph(input, w, s.x, s.y))
          && forall y', x' | 0 <= x' < w && 0 <= y' && (y' < y || (y' == y && x' < x)) && (y' > s.y || (y' == s.y && x' > s.x)) :: !IsGuard(Glyph(input, w, x', y')))
    decreases y, x
  {
    if x == 0 {
      if y > 0 {
        GuardBeforeMeaning(input, w, y - 1, w);
      }
    } else {
      GuardBeforeMeaning(input, w, y, x - 1);
    }
  }

  /** Cells past the end of the text change nothing. */
  lemma {:induction false} GuardPastText(input: seq<Byte>, w: nat, y: nat, x0: nat, x1: nat)
    requires x0 <= x1 <= w && Day4.RowStart(w + 1, y) + x0 >= |input|
    ensures GuardBefore(input, w, y, x1) == GuardBefore(input, w, y, x0)
    decreases x1
  {
    if x0 < x1 {
      GuardPastText(input, w, y, x0, x1 - 1);
    }
  }

  /** One line of the text, lines 143-169: its first `width` bytes fill
      row `y` of the grid and move the guard. */
  method ParseLine(input: seq<Byte>, grid: array2<Cell>, start: nat, y: nat, gx0: int, gy0: int, gdir0: Direction)
    returns (gx: int, gy: int, gdir: Direction)
    requires y < grid.Length0 && start == Day4.RowStart(grid.Length1 + 1, y) && start < |input|
    requires State(gx0, gy0, gdir0) == GuardBefore(input, grid.Length1, y, 0)
    requires forall c | 0 <= c < grid.Length1 :: grid[y, c] == Empty
    modifies grid
    ensures State(gx, gy, gdir) == GuardBefore(input, grid.Length1, y + 1, 0)
    ensures forall r, c | 0 <= r < grid.Length0 && 0 <= c < grid.Length1 ::
      grid[r, c] == if r == y then CellOf(input, grid.Length1, c, r) else old(grid[r, c])
  {
    var width := grid.Length1;
    gx, gy, gdir := gx0, gy0, gdir0;
    var cells := if |input| - start < width then |input| - start else width;
    for x := 0 to cells
      invariant State(gx, gy, gdir) == GuardBefore(input, width, y, x)
      invariant forall r, c | 0 <= r < grid.Length0 && 0 <= c < width ::
        grid[r, c] == if r == y && c < x then CellOf(input, width, c, r) else old(grid[r, c])
    {
      var c := input[start + x];
      assert c == Glyph(input, width, x, y);
      if c == Hash {
        grid[y, x] := Wall;
      } else if c == Dot {
        grid[y, x] := Empty;
      } else if c == Caret {
        gx, gy, gdir := x, y, Up;
      } else if c == LowerV {
        gx, gy, gdir := x, y, Down;
      } else if c == Less {
        gx, gy, gdir := x, y, Left;
      } else if c == Greater {
        gx, gy, gdir := x, y, Right;
      }
    }
    if cells < width {
      GuardPastText(input, width, y, cells, width);
      assert forall c | cells <= c < width :: CellOf(input, width, c, y) == Empty;
    }
  }

  /** `parse_input`, lines 134-172. */
  method ParseInput(input: seq<Byte>) returns (grid: array2<Cell>, gx: int, gy: int, gdir: Direction)
    requires Parsable(input)
    ensures fresh(grid) && grid.Length0 == Rows(input) && grid.Length1 == Columns(input)
    ensures forall r, c | 0 <= r < grid.Length0 && 0 <= c < grid.Length1 :: grid[r, c] == CellOf(input, Columns(input), c, r)
    ensures State(gx, gy, gdir) == Guard(input)
  {
    var width := 0;
    while width < |input| && input[width] != NewLine
      invariant width <= Columns(input)
    {
      width := width + 1;
    }
    var height := Lines(|input|, width + 1);
    grid := new Cell[height, width]((_, _) => Empty);
    gx, gy, gdir := 0, 0, Up;
    var start, y := 0, 0;
    while start < |input|
      invariant 0 <= start && start == Day4.RowStart(width + 1, y)
      invariant Lines(|input|, width + 1) == y + Lines(|input| - start, width + 1)
      invariant State(gx, gy, gdir) == GuardBefore(input, width, y, 0)
      invariant forall r, c | 0 <= r < height && 0 <= c < width :: grid[r, c] == if r < y then CellOf(input, width, c, r) else Empty
      decreases |input| - start
    {
      gx, gy, gdir := ParseLine(input, grid, start, y, gx, gy, gdir);
      start := start + width + 1;
      y := y + 1;
    }
  }

  // ---------------------------------------------------------------------
  // The two parts.
  // ---------------------------------------------------------------------

  /** The grid of the text. */
  ghost function GridOf(input: seq<Byte>): (g: Grid)
    requires Columns(input) > 0
    ensures |g| == Rows(input) && Rectangular(g, Columns(input))
  {
    var w := Columns(input);
    seq(Rows(input), y requires 0 <= y < Rows(input) => seq(w, x requires 0 <= x < w => CellOf(input, w, x, y)))
  }

  /** A matrix with the cells of `g` is `g`. */
  lemma MatrixIs(a: array2<Cell>, g: Grid)
    requires |g| == a.Length0 && Rectangular(g, a.Length1)
    requires forall y, x | 0 <= y < a.Length0 && 0 <= x < a.Length1 :: g[y][x] == a[y, x]
    ensures Matrix(a) == g
  {
    var m := Matrix(a);
    forall y | 0 <= y < |g| ensures m[y] == g[y] {
    }
  }

  /** A byte of the text lies on one of its lines. */
  lemma {:induction false} LinesCover(len: int, stride: nat, y: int)
    requires stride > 0 && 0 <= y && Day4.RowStart(stride, y) < len
    ensures y < Lines(len, stride)
    decreases y
  {
    if y > 0 {
      LinesCover(len - stride, stride, y - 1);
    }
  }

  /** The guard starts inside the grid. */
  lemma GuardInside(input: seq<Byte>)
    requires Parsable(input)
    ensures Inside(GridOf(input), Guard(input).x, Guard(input).y)
  {
    var w := Columns(input);
    GuardBeforeMeaning(input, w, Lines(|input|, w + 1), 0);
    var s := Guard(input);
    if s != State(0, 0, Up) {
      LinesCover(|input|, w + 1, s.y);
    }
  }

  /** Part 1, lines 4-9: the number of cells the guard stands on. The walk
      of `get_visited_cells` ends only when the guard leaves the grid. */
  method Part1(input: seq<Byte>) returns (count: nat)
    requires Parsable(input) && Escapes(GridOf(input), Guard(input))
    ensures count == |ReachedCells(GridOf(input), Guard(input))|
  {
    var grid, x, y, dir := ParseInput(input);
    MatrixIs(grid, GridOf(input));
    GuardInside(input);
    var visited := GetVisitedCells(grid, x, y, dir);
    count := CountMarked(visited);
    assert Marked(visited) == ReachedCells(GridOf(input), Guard(input));
  }

  // ---------------------------------------------------------------------
  // Part 2, lines 11-63.
  // ---------------------------------------------------------------------

  /** The grid with a wall added in column `c` of row `r`, line 21. */
  function Block(g: Grid, r: int, c: int): (b: Grid)
    requires 0 <= r < |g| && 0 <= c < |g[r]|
    ensures |b| == |g| && forall y | 0 <= y < |g| :: |b[y]| == |g[y]|
    ensures b[r][c] == Wall
    ensures forall y, x | Inside(g, x, y) && (y, x) != (r, c) :: b[y][x] == g[y][x]
  {
    g[r := g[r][c := Wall]]
  }

  /** Restoring the cell, line 58, undoes the block of an empty cell. */
  lemma UnblockRestores(g: Grid, r: int, c: int)
    requires 0 <= r < |g| && 0 <= c < |g[r]| && g[r][c] == Empty
    ensures Block(g, r, c)[r := Block(g, r, c)[r][c := Empty]] == g
  {
    assert Block(g, r, c)[r][c := Empty] == g[r];
  }

  /** The cells where one more wall traps the guard in a loop: cells on the
      walk other than the start (line 18). */
  ghost function LoopingBlocks(g: Grid, s: State): set<(int, int)>
  {
    set r, c | 0 <= r < |g| && 0 <= c < |g[r]| && Reached(g, s, c, r) && (r, c) != (s.y, s.x)
      && Loops(Block(g, r, c), s) :: (r, c)
  }

  /** The trial walk, lines 22-57: it stops when the guard leaves the grid
      and reports a loop when the guard stands in a cell facing a way it
      already stood there after some earlier step. */
  method Trial(grid: array2<Cell>, x: int, y: int, dir: Direction) returns (loops: bool)
    requires Inside(Matrix(grid), x, y)
    ensures loops <==> Loops(Matrix(grid), State(x, y, dir))
  {
    ghost var g, s := Matrix(grid), State(x, y, dir);
    var seen := new bool[grid.Length0, grid.Length1, 4]((_, _, _) => false);
    ghost var marks: set<(int, int, int)> := {};
    ghost var all := set r, c, o | 0 <= r < grid.Length0 && 0 <= c < grid.Length1 && 0 <= o < 4 :: (r, c, o);
    var cx, cy, cdir := x, y, dir;
    ghost var k: nat := 0;
    while true
      invariant Run(g, s, k) == Some(State(cx, cy, cdir)) && Inside(g, cx, cy)
      invariant marks <= all
      invariant forall r, c, o | 0 <= r < grid.Length0 && 0 <= c < grid.Length1 && 0 <= o < 4 ::
        seen[r, c, o] <==> (r, c, o) in marks
      invariant forall m | m in marks :: exists j: nat | 1 <= j <= k :: Run(g, s, j) == Some(State(m.1, m.0, FromOrdinal(m.2)))
      decreases all - marks
    {
      var stop;
      stop, cx, cy, cdir := Advance(grid, cx, cy, cdir);
      if stop {
        assert Run(g, s, k + 1).None?;
        return false;
      }
      k := k + 1;
      RunInside(g, s, k);
      var o := AsOrdinal(cdir);
      OrdinalRoundTrip(cdir);
      if seen[cy, cx, o] {
        ghost var j: nat :| 1 <= j <= k - 1 && Run(g, s, j) == Some(State(cx, cy, FromOrdinal(o)));
        RepeatLoops(g, s, j, k);
        return true;
      }
      seen[cy, cx, o] := true;
      marks := marks + {(cy, cx, o)};
    }
  }

  /** Lines 18-58 for one cell: skip cells off the walk and the start,
      otherwise add a wall there, run the trial and take the wall away. */
  method TryBlock(grid: array2<Cell>, visited: array2<bool>, x: int, y: int, dir: Direction, r: int, c: int,
                  ghost g: Grid)
    returns (trapped: bool)
    requires Matrix(grid) == g && Inside(g, x, y) && 0 <= r < grid.Length0 && 0 <= c < grid.Length1
    requires visited.Length0 == grid.Length0 && visited.Length1 == grid.Length1
    requires visited[r, c] <==> Reached(g, State(x, y, dir), c, r)
    modifies grid
    ensures Matrix(grid) == g
    ensures trapped <==> (r, c) in LoopingBlocks(g, State(x, y, dir))
  {
    ghost var s := State(x, y, dir);
    if !visited[r, c] || (r, c) == (y, x) {
      return false;
    }
    ghost var j: nat :| On(Run(g, s, j), c, r);
    NeverOnWall(g, s, j);
    grid[r, c] := Wall;
    MatrixIs(grid, Block(g, r, c));
    trapped := Trial(grid, x, y, dir);
    grid[r, c] := Empty;
    UnblockRestores(g, r, c);
    MatrixIs(grid, g);
  }

  lemma LoopingBlocksWithin(g: Grid, s: State, cols: nat)
    requires Rectangular(g, cols)
    ensures Within(LoopingBlocks(g, s), |g|, cols)
  {
  }

  /** Lines 15-60: every cell tried in row-major order. */
  method CountBlocks(grid: array2<Cell>, visited: array2<bool>, x: int, y: int, dir: Direction, ghost g: Grid)
    returns (count: nat)
    requires Matrix(grid) == g && Inside(g, x, y)
    requires visited.Length0 == grid.Length0 && visited.Length1 == grid.Length1
    requires forall r, c | 0 <= r < grid.Length0 && 0 <= c < grid.Length1 ::
      visited[r, c] <==> Reached(g, State(x, y, dir), c, r)
    modifies grid
    ensures Matrix(grid) == g
    ensures count == |LoopingBlocks(g, State(x, y, dir))|
  {
    ghost var blocks := LoopingBlocks(g, State(x, y, dir));
    LoopingBlocksWithin(g, State(x, y, dir), grid.Length1);
    PrefixEnds(blocks, grid.Length0, grid.Length1);
    count := 0;
    for r := 0 to grid.Length0
      invariant Matrix(grid) == g
      invariant count == |Prefix(blocks, r, 0)|
    {
      for c := 0 to grid.Length1
        invariant Matrix(grid) == g
        invariant count == |Prefix(blocks, r, c)|
      {
        PrefixStep(blocks, r, c);
        var trapped := TryBlock(grid, visited, x, y, dir, r, c, g);
        if trapped {
          count := count + 1;
        }
      }
      PrefixRow(blocks, grid.Length0, grid.Length1, r);
    }
  }

  /** Part 2, lines 11-63: the number of cells where one more wall makes
      the guard loop. */
  method Part2(input: seq<Byte>) returns (count: nat)
    requires Parsable(input) && Escapes(GridOf(input), Guard(input))
    ensures count == |LoopingBlocks(GridOf(input), Guard(input))|
  {
    var grid, x, y, dir := ParseInput(input);
    MatrixIs(grid, GridOf(input));
    GuardInside(input);
    var visited := GetVisitedCells(grid, x, y, dir);
    count := CountBlocks(grid, visited, x, y, dir, GridOf(input));
  }

  // ---------------------------------------------------------------------
  // The walk as written.
  // ---------------------------------------------------------------------

  /** The bounds check as written, lines 81-84 and 35-38: the column is
      compared with the number of rows and the row with the number of
      columns. */
  predicate InsideAsWritten(g: Grid, x: int, y: int) {
    0 <= x < |g| && 0 <= y < (if g == [] then 0 else |g[0]|)
  }

  /** On a square grid the bounds test as written is the right one. As
      written, a square text that ends in a newline parses to a grid with
      one row more than columns (`HeightAsWrittenAddsRow`), so this case
      needs a text without the final newline. */
  lemma BoundsAsWrittenOnSquare(g: Grid, x: int, y: int)
    requires Rectangular(g, |g|)
    ensures InsideAsWritten(g, x, y) <==> Inside(g, x, y)
  {
  }

  /** One step as written: past the bounds test, the cell is indexed as
      `(new_y, new_x)`, which panics outside the matrix. */
  function StepAsWritten(g: Grid, s: State): (r: Option<State>)
    requires InsideAsWritten(g, Ahead(s).0, Ahead(s).1) ==> Inside(g, Ahead(s).0, Ahead(s).1)
    ensures r.Some? ==> Step(g, s) == r
  {
    var (nx, ny) := Ahead(s);
    if !InsideAsWritten(g, nx, ny) then None
    else if g[ny][nx] == Wall then Some(State(s.x, s.y, TurnRight(s.dir)))
    else Some(State(nx, ny, s.dir))
  }

  /** On the one-row grid `>..` the guard as written stops at once, though
      two empty cells lie ahead of it. */
  lemma BoundsAsWrittenStopsEarly()
    ensures StepAsWritten([[Empty, Empty, Empty]], State(0, 0, Right)).None?
    ensures Step([[Empty, Empty, Empty]], State(0, 0, Right)) == Some(State(1, 0, Right))
  {
  }

  /** The cells `get_visited_cells` marks as written, line 95: those the
      guard stands on after a step, the start excluded. */
  ghost predicate VisitedAsWritten(g: Grid, s: State, x: int, y: int) {
    exists k: nat | k >= 1 :: On(Run(g, s, k), x, y)
  }

  /** On the grid `..` over `^.` the guard steps up once and leaves: as
      written its start cell is not counted, though it stands there. */
  lemma StartAsWrittenMissed()
    ensures var g, s := [[Empty, Empty], [Empty, Empty]], State(0, 1, Up);
      Reached(g, s, 0, 1) && !VisitedAsWritten(g, s, 0, 1)
  {
    var g, s := [[Empty, Empty], [Empty, Empty]], State(0, 1, Up);
    assert On(Run(g, s, 0), 0, 1);
    forall k: nat | k >= 1 ensures !On(Run(g, s, k), 0, 1) {
      assert Run(g, s, 1) == Some(State(0, 0, Up));
      if k >= 2 {
        assert Run(g, s, 2).None?;
        GoneStaysGone(g, s, 2, k);
      }
    }
  }

  // ---------------------------------------------------------------------
  // The grid height as written.
  // ---------------------------------------------------------------------

  /** The rows as written, line 137: `input.len() / width`. */
  function RowsAsWritten(input: seq<Byte>): (n: nat)
    requires Columns(input) > 0
    ensures n * Columns(input) <= |input|
  {
    |input| / Columns(input)
  }

  /** The grid as written: `RowsAsWritten` rows, the ones past the text
      left empty. */
  ghost function GridAsWritten(input: seq<Byte>): (g: Grid)
    requires Columns(input) > 0
    ensures |g| == RowsAsWritten(input) && Rectangular(g, Columns(input))
  {
    var w := Columns(input);
    seq(RowsAsWritten(input), y requires 0 <= y < RowsAsWritten(input) => seq(w, x requires 0 <= x < w => CellOf(input, w, x, y)))
  }

  /** On `..` newline `v.` newline, the height as written is 6 / 2 = 3
      though the text has two lines: the guard facing down steps into the
      third, empty row instead of leaving. */
  lemma HeightAsWrittenAddsRow()
    ensures var input := [Dot, Dot, NewLine, LowerV, Dot, NewLine];
      Parsable(input) && Guard(input) == State(0, 1, Down)
      && Rows(input) == 2 && RowsAsWritten(input) == 3
      && Step(GridOf(input), Guard(input)).None?
      && Step(GridAsWritten(input), Guard(input)) == Some(State(0, 2, Down))
  {
    var input := [Dot, Dot, NewLine, LowerV, Dot, NewLine];
    assert Columns(input) == 2 by {
      assert input[1..][1..][0] == NewLine;
    }
    assert Lines(|input|, 3) == 2 by {
      assert Lines(0, 3) == 0;
    }
    assert Guard(input) == State(0, 1, Down) by {
      assert Glyph(input, 2, 1, 1) == Dot;
      assert Glyph(input, 2, 0, 1) == LowerV;
    }
    assert Glyph(input, 2, 0, 2) == Dot;
  }

  /** On `..` newline `>.` newline, the guard as written passes the bounds
      test at column 2 of row 1, which line 88 then reads from a matrix of
      two columns. */
  lemma HeightAsWrittenPassesColumn()
    ensures var input := [Dot, Dot, NewLine, Greater, Dot, NewLine];
      Parsable(input) && Guard(input) == State(0, 1, Right)
      && Step(GridAsWritten(input), Guard(input)) == Some(State(1, 1, Right))
      && InsideAsWritten(GridAsWritten(input), 2, 1) && !Inside(GridAsWritten(input), 2, 1)
  {
    var input := [Dot, Dot, NewLine, Greater, Dot, NewLine];
    assert Columns(input) == 2 by {
      assert input[1..][1..][0] == NewLine;
    }
    assert Lines(|input|, 3) == 2 by {
      assert Lines(0, 3) == 0;
    }
    assert Guard(input) == State(0, 1, Right) by {
      assert Glyph(input, 2, 1, 1) == Dot;
      assert Glyph(input, 2, 0, 1) == Greater;
    }
    assert Glyph(input, 2, 1, 1) == Dot;
  }
}
