/** Model of src/day4.rs: a word search over the puzzle text read as a
    row-major grid whose stride includes each line's newline. Part 1 counts
    the words XMAS (forwards or backwards) along rows, columns and both
    diagonals; part 2 counts the crosses of two MAS diagonals. */
module Day4 {
  import opened Bytes

  const X: Byte := 88
  const M: Byte := 77
  const A: Byte := 65
  const S: Byte := 83

  // ---------------------------------------------------------------------
  // Parsing, lines 85-97.
  // ---------------------------------------------------------------------

  /** The index of the first newline of `data`. */
  function LineEnd(data: seq<Byte>): (k: nat)
    requires NewLine in data
    ensures k < |data| && data[k] == NewLine
    ensures forall j | 0 <= j < k :: data[j] != NewLine
  {
    if data[0] == NewLine then 0 else LineEnd(data[1..]) + 1
  }

  /** The stride of a row: its letters and its newline. */
  function Width(data: seq<Byte>): (w: nat)
    requires NewLine in data
    ensures w >= 1
  {
    LineEnd(data) + 1
  }

  function Height(data: seq<Byte>): nat
    requires NewLine in data
  {
    (|data| + 1) / Width(data)
  }

  /** `parse_input`: append a newline, find the first one, and derive the
      stride and the number of rows from it. */
  method ParseInput(input: seq<Byte>) returns (data: seq<Byte>, width: nat, height: nat)
    ensures data == input + [NewLine] && NewLine in data
    ensures width == Width(data) && height == Height(data)
  {
    data := input + [NewLine];
    assert data[|input|] == NewLine;
    var i := 0;
    while data[i] != NewLine
      invariant i <= |input|
      invariant forall j | 0 <= j < i :: data[j] != NewLine
      decreases |input| - i
    {
      i := i + 1;
    }
    assert i == LineEnd(data) by {
      var k := LineEnd(data);
      assert !(k < i) && !(i < k);
    }
    width := i + 1;
    height := (|data| + 1) / width;
  }

  // ---------------------------------------------------------------------
  // Cells and windows.
  // ---------------------------------------------------------------------

  /** The offset of row `y` of a grid of stride `w`: `y * w`, written as a
      sum so that index arithmetic stays linear. */
  function RowStart(w: int, y: int): (s: int)
    ensures w >= 0 ==> s >= 0
    decreases y
  {
    if y <= 0 then 0 else RowStart(w, y - 1) + w
  }

  lemma {:induction false} RowStartIsProduct(w: int, y: nat)
    ensures RowStart(w, y) == y * w
  {
    if y > 0 {
      RowStartIsProduct(w, y - 1);
    }
  }

  /** Rows further down start at least one stride later. */
  lemma {:induction false} RowStartGap(w: int, a: int, b: int)
    requires 0 <= w && 0 <= a < b
    ensures RowStart(w, a) + w <= RowStart(w, b)
    decreases b
  {
    if a < b - 1 {
      RowStartGap(w, a, b - 1);
    }
  }

  /** An offset lies in exactly one row. */
  lemma SameRow(w: int, a: int, b: int, n: int)
    requires 0 < w && 0 <= a && 0 <= b
    requires RowStart(w, a) <= n < RowStart(w, a) + w
    requires RowStart(w, b) <= n < RowStart(w, b) + w
    ensures a == b
  {
    if a < b {
      RowStartGap(w, a, b);
    } else if b < a {
      RowStartGap(w, b, a);
    }
  }

  /** The `index` closure, line 6: cell `(x, y)` of a grid of stride `w`. */
  function Idx(w: int, x: int, y: int): int { RowStart(w, y) + x }

  /** The byte at `k`, or 0 off the buffer (only used where the scans stay
      inside it). */
  function At(data: seq<Byte>, k: int): Byte
  {
    if 0 <= k < |data| then data[k] else 0
  }

  lemma IdxInside(w: nat, h: nat, x: int, y: int)
    requires 0 <= x < w && 0 <= y < h
    ensures 0 <= Idx(w, x, y) < RowStart(w, h)
  {
    RowStartGap(w, y, h);
  }

  /** What is looked for: a four-cell ray from `(x, y)` in direction
      `(dx, dy)`, or the three-by-three cross whose corner is `(x, y)`. */
  datatype Pattern = Ray(dx: int, dy: int) | Cross

  /** Line 11: the window reads XMAS or SAMX. */
  predicate IsXmas(s: seq<Byte>) { s == [X, M, A, S] || s == [S, A, M, X] }

  /** Lines 71 and 73: a diagonal reads MS or SM. */
  predicate IsMas(a: Byte, b: Byte) { (a == M && b == S) || (a == S && b == M) }

  function RayCells(data: seq<Byte>, w: int, x: int, y: int, dx: int, dy: int): (s: seq<Byte>)
    ensures |s| == 4
  {
    [At(data, Idx(w, x, y)), At(data, Idx(w, x + dx, y + dy)),
     At(data, Idx(w, x + 2 * dx, y + 2 * dy)), At(data, Idx(w, x + 3 * dx, y + 3 * dy))]
  }

  predicate Matches(data: seq<Byte>, w: int, x: int, y: int, p: Pattern) {
    match p
    case Ray(dx, dy) => IsXmas(RayCells(data, w, x, y, dx, dy))
    case Cross =>
      At(data, Idx(w, x + 1, y + 1)) == A
      && IsMas(At(data, Idx(w, x, y)), At(data, Idx(w, x + 2, y + 2)))
      && IsMas(At(data, Idx(w, x, y + 2)), At(data, Idx(w, x + 2, y)))
  }

  /** A window holding a newline never matches. */
  lemma NewLineNeverMatches(data: seq<Byte>, w: int, x: int, y: int, dx: int, dy: int, k: nat)
    requires k < 4 && RayCells(data, w, x, y, dx, dy)[k] == NewLine
    ensures !Matches(data, w, x, y, Ray(dx, dy))
  {
  }

  /** Matches of `p` on row `y` with `x0 <= x < x1`. */
  function RowHits(data: seq<Byte>, w: int, p: Pattern, y: int, x0: int, x1: int): nat
    decreases x1 - x0
  {
    if x1 <= x0 then 0
    else RowHits(data, w, p, y, x0, x1 - 1) + if Matches(data, w, x1 - 1, y, p) then 1 else 0
  }

  /** Matches of `p` on rows `0 <= y < y1`, each with `x0 <= x < x1`. */
  function GridHits(data: seq<Byte>, w: int, p: Pattern, y1: int, x0: int, x1: int): nat
    decreases y1
  {
    if y1 <= 0 then 0 else GridHits(data, w, p, y1 - 1, x0, x1) + RowHits(data, w, p, y1 - 1, x0, x1)
  }

  // ---------------------------------------------------------------------
  // Part 1, lines 3-56.
  // ---------------------------------------------------------------------

  /** What the four scans of part 1 count: every window `input[i..i+4]` of
      the buffer, then the vertical, down-right and down-left rays whose
      first row is below `height - 3`, at the columns the loops visit. */
  function ScanCount(data: seq<Byte>, w: int, h: int): nat {
    RowHits(data, w, Ray(1, 0), 0, 0, |data| - 4)
    + GridHits(data, w, Ray(0, 1), h - 3, 0, w)
    + GridHits(data, w, Ray(1, 1), h - 3, 0, w - 3)
    + GridHits(data, w, Ray(-1, 1), h - 3, 3, w)
  }

  /** Inputs part 1 reads without a `usize` underflow or an index past the
      buffer. */
  predicate Part1Ready(input: seq<Byte>) {
    var data := input + [NewLine];
    assert data[|input|] == NewLine;
    |data| >= 4 && Height(data) >= 3
    && (Height(data) > 3 ==> Width(data) >= 3 && RowStart(Width(data), Height(data)) <= |data|)
  }

  /** Lines 3-56: the four scans share one counter. */
  method Part1(input: seq<Byte>) returns (count: nat)
    requires Part1Ready(input)
    ensures NewLine in input + [NewLine]
    ensures count == ScanCount(input + [NewLine], Width(input + [NewLine]), Height(input + [NewLine]))
  {
    var data, width, height := ParseInput(input);
    var horizontal := ScanRows(data, width);
    var vertical := ScanColumns(data, width, height);
    var diagonal1 := ScanDiagonals(data, width, height);
    var diagonal2 := ScanAntiDiagonals(data, width, height);
    count := horizontal + vertical + diagonal1 + diagonal2;
  }

  /** Lines 15-18: every window `input[i..i+4]`, across newlines included. */
  method ScanRows(data: seq<Byte>, width: nat) returns (count: nat)
    requires |data| >= 4
    ensures count == RowHits(data, width, Ray(1, 0), 0, 0, |data| - 4)
  {
    count := 0;
    for i := 0 to |data| - 4
      invariant count == RowHits(data, width, Ray(1, 0), 0, 0, i)
    {
      assert data[i..i + 4] == RayCells(data, width, i, 0, 1, 0);
      if IsXmas(data[i..i + 4]) {
        count := count + 1;
      }
    }
  }

  /** Lines 20-30. */
  method ScanColumns(data: seq<Byte>, width: nat, height: nat) returns (count: nat)
    requires height >= 3 && (height > 3 ==> RowStart(width, height) <= |data|)
    ensures count == GridHits(data, width, Ray(0, 1), height - 3, 0, width)
  {
    count := 0;
    for y := 0 to height - 3
      invariant count == GridHits(data, width, Ray(0, 1), y, 0, width)
    {
      for x := 0 to width
        invariant count == GridHits(data, width, Ray(0, 1), y, 0, width) + RowHits(data, width, Ray(0, 1), y, 0, x)
      {
        IdxInside(width, height, x, y);
        IdxInside(width, height, x, y + 1);
        IdxInside(width, height, x, y + 2);
        IdxInside(width, height, x, y + 3);
        var window := [data[Idx(width, x, y)], data[Idx(width, x, y + 1)],
                       data[Idx(width, x, y + 2)], data[Idx(width, x, y + 3)]];
        assert window == RayCells(data, width, x, y, 0, 1);
        if IsXmas(window) {
          count := count + 1;
        }
      }
    }
  }

  /** Lines 32-42: rays down and to the right. */
  method ScanDiagonals(data: seq<Byte>, width: nat, height: nat) returns (count: nat)
    requires height >= 3 && (height > 3 ==> width >= 3 && RowStart(width, height) <= |data|)
    ensures count == GridHits(data, width, Ray(1, 1), height - 3, 0, width as int - 3)
  {
    count := 0;
    for y := 0 to height - 3
      invariant count == GridHits(data, width, Ray(1, 1), y, 0, width as int - 3)
    {
      for x := 0 to width - 3
        invariant count == GridHits(data, width, Ray(1, 1), y, 0, width as int - 3) + RowHits(data, width, Ray(1, 1), y, 0, x)
      {
        IdxInside(width, height, x, y);
        IdxInside(width, height, x + 1, y + 1);
        IdxInside(width, height, x + 2, y + 2);
        IdxInside(width, height, x + 3, y + 3);
        var window := [data[Idx(width, x, y)], data[Idx(width, x + 1, y + 1)],
                       data[Idx(width, x + 2, y + 2)], data[Idx(width, x + 3, y + 3)]];
        assert window == RayCells(data, width, x, y, 1, 1);
        if IsXmas(window) {
          count := count + 1;
        }
      }
    }
  }

  /** Lines 44-53: rays down and to the left. */
  method ScanAntiDiagonals(data: seq<Byte>, width: nat, height: nat) returns (count: nat)
    requires height >= 3 && (height > 3 ==> width >= 3 && RowStart(width, height) <= |data|)
    ensures count == GridHits(data, width, Ray(-1, 1), height - 3, 3, width)
  {
    count := 0;
    for y := 0 to height - 3
      invariant count == GridHits(data, width, Ray(-1, 1), y, 3, width)
    {
      for x := 3 to width
        invariant count == GridHits(data, width, Ray(-1, 1), y, 3, width) + RowHits(data, width, Ray(-1, 1), y, 3, x)
      {
        IdxInside(width, height, x, y);
        IdxInside(width, height, x - 1, y + 1);
        IdxInside(width, height, x - 2, y + 2);
        IdxInside(width, height, x - 3, y + 3);
        var window := [data[Idx(width, x, y)], data[Idx(width, x - 1, y + 1)],
                       data[Idx(width, x - 2, y + 2)], data[Idx(width, x - 3, y + 3)]];
        assert window == RayCells(data, width, x, y, -1, 1);
        if IsXmas(window) {
          count := count + 1;
        }
      }
    }
  }

  // ---------------------------------------------------------------------
  // Part 2, lines 58-83.
  // ---------------------------------------------------------------------

  /** Inputs part 2 reads without a `usize` underflow or an index past the
      buffer. */
  predicate Part2Ready(input: seq<Byte>) {
    var data := input + [NewLine];
    assert data[|input|] == NewLine;
    Height(data) >= 2
    && (Height(data) > 2 ==> Width(data) >= 2 && (Width(data) > 2 ==> RowStart(Width(data), Height(data)) <= |data|))
  }

  method Part2(input: seq<Byte>) returns (count: nat)
    requires Part2Ready(input)
    ensures NewLine in input + [NewLine]
    ensures count == GridHits(input + [NewLine], Width(input + [NewLine]), Cross, Height(input + [NewLine]) - 2, 0, Width(input + [NewLine]) - 2)
  {
    var data, width, height := ParseInput(input);
    count := 0;
    for y := 0 to height - 2
      invariant count == GridHits(data, width, Cross, y, 0, width as int - 2)
    {
      for x := 0 to width - 2
        invariant count == GridHits(data, width, Cross, y, 0, width as int - 2) + RowHits(data, width, Cross, y, 0, x)
      {
        IdxInside(width, height, x + 2, y + 2);
        IdxInside(width, height, x, y);
        IdxInside(width, height, x + 1, y + 1);
        IdxInside(width, height, x, y + 2);
        IdxInside(width, height, x + 2, y);
        if data[Idx(width, x + 1, y + 1)] != A {
          continue;
        }
        if IsMas(data[Idx(width, x, y)], data[Idx(width, x + 2, y + 2)]) {
          if IsMas(data[Idx(width, x, y + 2)], data[Idx(width, x + 2, y)]) {
            count := count + 1;
          }
        }
      }
    }
  }

  // ---------------------------------------------------------------------
  // The scans against the letter grid.
  // ---------------------------------------------------------------------

  /** `data` is the puzzle text plus the appended newline: `r` rows of `c`
      letters, each row ended by a newline, the last possibly by two. */
  predicate Grid(data: seq<Byte>, c: nat, r: nat) {
    c >= 2 && r >= 1
    && (|data| == RowStart(c + 1, r) || |data| == RowStart(c + 1, r) + 1)
    && (forall x | 0 <= x < c :: At(data, x) != NewLine)
    && (forall y | 0 <= y < r :: RowEnded(data, c, y))
    && At(data, |data| - 1) == NewLine
  }

  /** Row `y` of a grid of `c` letters per row ends with a newline. */
  predicate RowEnded(data: seq<Byte>, c: int, y: int) {
    At(data, Idx(c + 1, c, y)) == NewLine
  }

  /** Every XMAS of the letter grid: along a row, a column or either
      diagonal, with all four cells among the `c` letters of the `r` rows. */
  function Occurrences(data: seq<Byte>, c: nat, r: nat): nat {
    GridHits(data, c + 1, Ray(1, 0), r, 0, c - 3)
    + GridHits(data, c + 1, Ray(0, 1), r - 3, 0, c)
    + GridHits(data, c + 1, Ray(1, 1), r - 3, 0, c - 3)
    + GridHits(data, c + 1, Ray(-1, 1), r - 3, 3, c)
  }

  /** Every MAS cross of the letter grid. */
  function Crosses(data: seq<Byte>, c: nat, r: nat): nat {
    GridHits(data, c + 1, Cross, r - 2, 0, c - 2)
  }

  lemma DivExact(n: int, w: int, q: nat)
    requires w > 0 && q * w <= n < q * w + w
    ensures n / w == q
  {
    var d := n / w;
    assert d * w <= n < d * w + w;
    RowStartIsProduct(w, d);
    RowStartIsProduct(w, q);
    SameRow(w, d, q, n);
  }

  /** The stride and the height `parse_input` finds for a grid. */
  lemma GridShape(data: seq<Byte>, c: nat, r: nat)
    requires Grid(data, c, r)
    ensures NewLine in data && Width(data) == c + 1 && Height(data) == r
  {
    RowStartIsProduct(c + 1, r);
    RowStartGap(c + 1, 0, r);
    assert RowEnded(data, c, 0);
    assert data[c] == NewLine;
    var k := LineEnd(data);
    assert At(data, k) == NewLine;
    assert !(k < c);
    DivExact(|data| + 1, c + 1, r);
  }

  /** A column of matches-nothing at the right edge does not change a count. */
  lemma {:induction false} DropColumn(data: seq<Byte>, w: int, p: Pattern, y1: int, x0: int, x1: int)
    requires x0 <= x1
    requires forall y | 0 <= y < y1 :: !Matches(data, w, x1, y, p)
    ensures GridHits(data, w, p, y1, x0, x1 + 1) == GridHits(data, w, p, y1, x0, x1)
    decreases y1
  {
    if y1 > 0 {
      DropColumn(data, w, p, y1 - 1, x0, x1);
      assert RowHits(data, w, p, y1 - 1, x0, x1 + 1) == RowHits(data, w, p, y1 - 1, x0, x1);
    }
  }

  /** The window at buffer offset `y * w + x` is the row window at `(x, y)`. */
  lemma LinearIsRow(data: seq<Byte>, w: int, x: int, y: int)
    ensures RayCells(data, w, Idx(w, x, y), 0, 1, 0) == RayCells(data, w, x, y, 1, 0)
  {
  }

  function Min(a: int, b: int): int { if a < b then a else b }

  /** A row window that reaches the newline ending its row never matches. */
  lemma RowEndBlocks(data: seq<Byte>, c: int, x: int, y: int)
    requires RowEnded(data, c, y) && c - 3 <= x <= c
    ensures !Matches(data, c + 1, x, y, Ray(1, 0))
  {
    assert RayCells(data, c + 1, x, y, 1, 0)[c - x] == NewLine;
  }

  /** The linear scan up to `(x, y)` counts the row windows of the rows above
      and the leading windows of row `y`. */
  predicate ScanAgrees(data: seq<Byte>, c: nat, x: int, y: int) {
    RowHits(data, c + 1, Ray(1, 0), 0, 0, Idx(c + 1, x, y))
    == GridHits(data, c + 1, Ray(1, 0), y, 0, c - 3) + RowHits(data, c + 1, Ray(1, 0), y, 0, Min(x, c - 3))
  }

  /** The windows the linear scan meets that cross a newline never match. */
  lemma {:induction false} LinearRows(data: seq<Byte>, c: nat, x: int, y: int)
    requires c >= 2 && 0 <= y && 0 <= x <= c + 1
    requires forall y' | 0 <= y' <= y :: RowEnded(data, c, y')
    ensures ScanAgrees(data, c, x, y)
    decreases y, x
  {
    if x == 0 {
      if y > 0 {
        LinearRows(data, c, c + 1, y - 1);
        LinearRowsNewRow(data, c, y);
      } else {
        LinearRowsStart(data, c);
      }
    } else {
      LinearRows(data, c, x - 1, y);
      LinearRowsStep(data, c, x, y);
    }
  }

  /** Before the scan starts it has counted nothing. */
  lemma LinearRowsStart(data: seq<Byte>, c: nat)
    ensures ScanAgrees(data, c, 0, 0)
  {
    assert Idx(c + 1, 0, 0) == 0;
  }

  /** The scan passes from the end of row `y - 1` to the start of row `y`. */
  lemma LinearRowsNewRow(data: seq<Byte>, c: nat, y: int)
    requires c >= 2 && 0 < y
    requires ScanAgrees(data, c, c + 1, y - 1)
    ensures ScanAgrees(data, c, 0, y)
  {
    var w := c + 1;
    var p := Ray(1, 0);
    assert Idx(w, w, y - 1) == Idx(w, 0, y);
    assert Min(w, c - 3) == c - 3;
    assert GridHits(data, w, p, y, 0, c - 3)
        == GridHits(data, w, p, y - 1, 0, c - 3) + RowHits(data, w, p, y - 1, 0, c - 3);
    assert RowHits(data, w, p, y, 0, Min(0, c - 3)) == 0;
  }

  /** The scan takes one more window of row `y`. */
  lemma LinearRowsStep(data: seq<Byte>, c: nat, x: int, y: int)
    requires c >= 2 && 0 <= y && 0 < x <= c + 1 && RowEnded(data, c, y)
    requires ScanAgrees(data, c, x - 1, y)
    ensures ScanAgrees(data, c, x, y)
  {
    var w := c + 1;
    var p := Ray(1, 0);
    var i := Idx(w, x - 1, y);
    assert Idx(w, x, y) == i + 1;
    assert RowHits(data, w, p, 0, 0, i + 1)
        == RowHits(data, w, p, 0, 0, i) + if Matches(data, w, i, 0, p) then 1 else 0;
    LinearIsRow(data, w, x - 1, y);
    if x - 1 < c - 3 {
      assert Min(x, c - 3) == x && Min(x - 1, c - 3) == x - 1;
    } else {
      RowEndBlocks(data, c, x - 1, y);
      assert Min(x, c - 3) == Min(x - 1, c - 3);
    }
  }

  /** The linear scan counts the row words of the grid. */
  lemma LinearFindsRows(data: seq<Byte>, c: nat, r: nat)
    requires Grid(data, c, r) && c >= 3
    ensures RowHits(data, c + 1, Ray(1, 0), 0, 0, |data| - 4) == GridHits(data, c + 1, Ray(1, 0), r, 0, c - 3)
  {
    var w := c + 1;
    var e := |data| - RowStart(w, r);
    assert |data| - 4 == Idx(w, c - 3 + e, r - 1);
    LinearRows(data, c, c - 3 + e, r - 1);
    assert Min(c - 3 + e, c - 3) == c - 3;
    assert GridHits(data, w, Ray(1, 0), r, 0, c - 3)
        == GridHits(data, w, Ray(1, 0), r - 1, 0, c - 3) + RowHits(data, w, Ray(1, 0), r - 1, 0, c - 3);
  }

  /** The column scan's extra column, the newlines, holds no word. */
  lemma ColumnsFindColumns(data: seq<Byte>, c: nat, r: nat)
    requires Grid(data, c, r)
    ensures GridHits(data, c + 1, Ray(0, 1), r - 3, 0, c + 1) == GridHits(data, c + 1, Ray(0, 1), r - 3, 0, c)
  {
    var w := c + 1;
    forall y | 0 <= y < r - 3 ensures !Matches(data, w, c, y, Ray(0, 1)) {
      assert RowEnded(data, c, y);
      NewLineNeverMatches(data, w, c, y, 0, 1, 0);
    }
    DropColumn(data, w, Ray(0, 1), r - 3, 0, c);
  }

  /** Down-right rays starting three columns before the newline hold no word. */
  lemma DiagonalsFindDiagonals(data: seq<Byte>, c: nat, r: nat)
    requires Grid(data, c, r) && c >= 3
    ensures GridHits(data, c + 1, Ray(1, 1), r - 3, 0, c - 2) == GridHits(data, c + 1, Ray(1, 1), r - 3, 0, c - 3)
  {
    var w, last := c + 1, c - 3;
    forall y | 0 <= y < r - 3 ensures !Matches(data, w, last, y, Ray(1, 1)) {
      assert RowEnded(data, c, y + 3);
      NewLineNeverMatches(data, w, last, y, 1, 1, 3);
    }
    DropColumn(data, w, Ray(1, 1), r - 3, 0, last);
  }

  /** Down-left rays starting at the newline hold no word. */
  lemma AntiDiagonalsFindAntiDiagonals(data: seq<Byte>, c: nat, r: nat)
    requires Grid(data, c, r) && c >= 3
    ensures GridHits(data, c + 1, Ray(-1, 1), r - 3, 3, c + 1) == GridHits(data, c + 1, Ray(-1, 1), r - 3, 3, c)
  {
    var w := c + 1;
    forall y | 0 <= y < r - 3 ensures !Matches(data, w, c, y, Ray(-1, 1)) {
      assert RowEnded(data, c, y);
      NewLineNeverMatches(data, w, c, y, -1, 1, 0);
    }
    DropColumn(data, w, Ray(-1, 1), r - 3, 3, c);
  }

  /** Part 1 counts exactly the XMAS words of the grid. */
  lemma ScansFindOccurrences(data: seq<Byte>, c: nat, r: nat)
    requires Grid(data, c, r) && c >= 3 && r >= 3
    ensures NewLine in data
    ensures ScanCount(data, Width(data), Height(data)) == Occurrences(data, c, r)
  {
    GridShape(data, c, r);
    LinearFindsRows(data, c, r);
    ColumnsFindColumns(data, c, r);
    DiagonalsFindDiagonals(data, c, r);
    AntiDiagonalsFindAntiDiagonals(data, c, r);
  }

  /** Part 2 counts exactly the MAS crosses of the grid. */
  lemma ScansFindCrosses(data: seq<Byte>, c: nat, r: nat)
    requires Grid(data, c, r) && r >= 2
    ensures NewLine in data
    ensures GridHits(data, Width(data), Cross, Height(data) - 2, 0, Width(data) - 2) == Crosses(data, c, r)
  {
    GridShape(data, c, r);
    var w := c + 1;
    var last := c - 2;
    forall y | 0 <= y < r - 2 ensures !Matches(data, w, last, y, Cross) {
      assert RowEnded(data, c, y + 2);
    }
    DropColumn(data, w, Cross, r - 2, 0, last);
  }

  /** A grid is read by both parts without a panic. */
  lemma GridReady(input: seq<Byte>, c: nat, r: nat)
    requires Grid(input + [NewLine], c, r) && c >= 3 && r >= 3
    ensures Part1Ready(input) && Part2Ready(input)
  {
    GridShape(input + [NewLine], c, r);
  }
}
