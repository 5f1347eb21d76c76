// Model of the board half of Javascript/Tetris/src/tetris.js: pieces and their
// rotation, the grid with its bounds and collision test, merging a piece into
// the grid, clearing full rows, and the four board features the AI reads.

module TetrisBoard {

  /** A grid cell: `0` for empty, or the colour string of a locked piece. */
  datatype Cell = Empty | Filled(color: string)

  type Grid = seq<seq<Cell>>

  /** A piece shape: rows of numbers, where `0` is a gap. */
  type Shape = seq<seq<int>>

  /** Every row of `g` has `w` cells. */
  predicate Rows(g: Grid, w: nat)
  {
    forall y :: 0 <= y < |g| ==> |g[y]| == w
  }

  /** `g` is `h` rows of `w` cells. */
  predicate Shaped(g: Grid, w: nat, h: nat)
  {
    |g| == h && Rows(g, w)
  }

  function EmptyRow(w: nat): (row: seq<Cell>)
    ensures |row| == w && forall x :: 0 <= x < w ==> row[x] == Empty
  {
    seq(w, _ => Empty)
  }

  /** `n` empty rows of width `w`. */
  function Blank(w: nat, n: nat): (g: Grid)
    ensures Shaped(g, w, n)
    ensures forall y, x :: 0 <= y < n && 0 <= x < w ==> g[y][x] == Empty
  {
    if n == 0 then [] else [EmptyRow(w)] + Blank(w, n - 1)
  }

  // ---------------------------------------------------------------------
  // Rotation

  /** A non-empty rectangular shape; every piece the game creates is one. */
  predicate Rect(s: Shape)
  {
    |s| > 0 && |s[0]| > 0 && forall r :: 0 <= r < |s| ==> |s[r]| == |s[0]|
  }

  /** Some cell of the shape is solid. */
  predicate HasBlock(s: Shape)
  {
    exists r, c :: 0 <= r < |s| && 0 <= c < |s[r]| && s[r][c] != 0
  }

  /** `Piece.rotate`: row `i` of the result is column `i` read bottom-up, a
      quarter turn clockwise. */
  function Rotated(s: Shape): (t: Shape)
    requires Rect(s)
    ensures Rect(t) && |t| == |s[0]| && |t[0]| == |s|
    ensures forall i, j :: 0 <= i < |t| && 0 <= j < |s| ==> t[i][j] == s[|s| - 1 - j][i]
  {
    seq(|s[0]|, i requires 0 <= i < |s[0]| => seq(|s|, j requires 0 <= j < |s| => s[|s| - 1 - j][i]))
  }

  /** Two quarter turns are a half turn: the shape keeps its dimensions and is
      read backwards in both directions. */
  lemma RotateTwice(s: Shape)
    requires Rect(s)
    ensures var t := Rotated(Rotated(s));
            && |t| == |s| && |t[0]| == |s[0]|
            && forall i, j :: 0 <= i < |s| && 0 <= j < |s[0]| ==> t[i][j] == s[|s| - 1 - i][|s[0]| - 1 - j]
  {
    var t1 := Rotated(s);
    var t := Rotated(t1);
    forall i, j | 0 <= i < |s| && 0 <= j < |s[0]|
      ensures t[i][j] == s[|s| - 1 - i][|s[0]| - 1 - j]
    {
      assert t[i][j] == t1[|t1| - 1 - j][i];
    }
  }

  /** Four rotations give back the original shape. */
  lemma RotateFourTimes(s: Shape)
    requires Rect(s)
    ensures Rotated(Rotated(Rotated(Rotated(s)))) == s
  {
    var t2 := Rotated(Rotated(s));
    var t4 := Rotated(Rotated(t2));
    RotateTwice(s);
    RotateTwice(t2);
    assert |t4| == |s|;
    forall i | 0 <= i < |s|
      ensures t4[i] == s[i]
    {
      assert |t4[i]| == |s[i]|;
      forall j | 0 <= j < |s[i]|
        ensures t4[i][j] == s[i][j]
      {
        assert t4[i][j] == t2[|s| - 1 - i][|s[0]| - 1 - j];
      }
    }
  }

  /** A rotation keeps the solid cells (it only moves them). */
  lemma RotatedHasBlock(s: Shape)
    requires Rect(s) && HasBlock(s)
    ensures HasBlock(Rotated(s))
  {
    var r, c :| 0 <= r < |s| && 0 <= c < |s[r]| && s[r][c] != 0;
    var t := Rotated(s);
    assert t[c][|s| - 1 - r] == s[r][c];
  }

  // ---------------------------------------------------------------------
  // Merging a piece into a grid

  /** The solid cell of `shape`, placed with its top-left corner at
      `(px, py)`, that lands on grid cell `(x, y)`, if any. */
  predicate Covers(shape: Shape, px: int, py: int, x: int, y: int)
  {
    0 <= y - py < |shape| && 0 <= x - px < |shape[y - py]| && shape[y - py][x - px] != 0
  }

  /** The grid with every cell the piece covers set to `color`; the cells
      the piece does not cover, and cells off the grid, are untouched. */
  function Merged(g: Grid, shape: Shape, px: int, py: int, color: string): (m: Grid)
    ensures |m| == |g| && forall y :: 0 <= y < |g| ==> |m[y]| == |g[y]|
  {
    seq(|g|, y requires 0 <= y < |g| =>
      seq(|g[y]|, x requires 0 <= x < |g[y]| => if Covers(shape, px, py, x, y) then Filled(color) else g[y][x]))
  }

  /** Merging keeps every filled cell filled. */
  lemma MergedKeepsFilled(g: Grid, shape: Shape, px: int, py: int, color: string, x: nat, y: nat)
    requires y < |g| && x < |g[y]| && g[y][x] != Empty
    ensures Merged(g, shape, px, py, color)[y][x] != Empty
  {
  }

  // ---------------------------------------------------------------------
  // Full rows

  /** `row.every(cell => cell !== 0)`. */
  predicate Full(row: seq<Cell>)
  {
    forall x :: 0 <= x < |row| ==> row[x] != Empty
  }

  /** The number of full rows. */
  function CompleteLines(g: Grid): nat
  {
    if g == [] then 0 else CompleteLines(g[..|g| - 1]) + (if Full(g[|g| - 1]) then 1 else 0)
  }

  /** The rows that are not full, in their original order (the `filter` of
      `clearRows`). */
  function KeptRows(g: Grid): (r: Grid)
    ensures |r| + CompleteLines(g) == |g|
    ensures forall i :: 0 <= i < |r| ==> !Full(r[i]) && r[i] in g
  {
    if g == [] then []
    else
      var k := KeptRows(g[..|g| - 1]);
      assert forall i :: 0 <= i < |k| ==> k[i] in g by {
        forall i | 0 <= i < |k|
          ensures k[i] in g
        {
          var j :| 0 <= j < |g| - 1 && g[..|g| - 1][j] == k[i];
        }
      }
      if Full(g[|g| - 1]) then k else k + [g[|g| - 1]]
  }

  /** With no full row there is nothing to count. */
  lemma {:induction false} NoFullRows(g: Grid)
    requires forall i :: 0 <= i < |g| ==> !Full(g[i])
    ensures CompleteLines(g) == 0
  {
    if g != [] {
      NoFullRows(g[..|g| - 1]);
    }
  }

  /** After `clearRows` on a board at least one cell wide, no row is full. */
  lemma ClearedHasNoFullRow(g: Grid, w: nat, n: nat)
    requires w > 0
    ensures CompleteLines(Blank(w, n) + KeptRows(g)) == 0
  {
    var c := Blank(w, n) + KeptRows(g);
    forall i | 0 <= i < |c|
      ensures !Full(c[i])
    {
      if i < n {
        assert c[i][0] == Empty;
      }
    }
    NoFullRows(c);
  }

  // ---------------------------------------------------------------------
  // Column features. `x` is a column of `g`, `n` a number of rows from the
  // top.

  predicate HasColumn(g: Grid, x: nat, n: nat)
  {
    n <= |g| && forall y :: 0 <= y < n ==> x < |g[y]|
  }

  /** Some cell among the top `n` cells of column `x` is filled. */
  predicate AnyFilled(g: Grid, x: nat, n: nat)
    requires HasColumn(g, x, n)
  {
    n > 0 && (AnyFilled(g, x, n - 1) || g[n - 1][x] != Empty)
  }

  lemma {:induction false} AnyFilledExists(g: Grid, x: nat, n: nat)
    requires HasColumn(g, x, n)
    ensures AnyFilled(g, x, n) <==> exists y :: 0 <= y < n && g[y][x] != Empty
  {
    if n > 0 {
      AnyFilledExists(g, x, n - 1);
    }
  }

  /** The number of rows from the topmost filled cell of column `x` down to
      row `n - 1`, or 0 when the top `n` cells are all empty. */
  function Span(g: Grid, x: nat, n: nat): nat
    requires HasColumn(g, x, n)
  {
    if n == 0 then 0
    else if AnyFilled(g, x, n - 1) then Span(g, x, n - 1) + 1
    else if g[n - 1][x] != Empty then 1
    else 0
  }

  /** `getColumnHeight(x)`. */
  function ColumnHeight(g: Grid, x: nat): nat
    requires HasColumn(g, x, |g|)
  {
    Span(g, x, |g|)
  }

  lemma {:induction false} SpanFromTop(g: Grid, x: nat, top: nat, n: nat)
    requires HasColumn(g, x, n) && top < n
    requires g[top][x] != Empty && !AnyFilled(g, x, top)
    ensures Span(g, x, n) == n - top
  {
    if n - 1 > top {
      SpanFromTop(g, x, top, n - 1);
      AnyFilledMonotone(g, x, top + 1, n - 1);
    }
  }

  lemma {:induction false} AnyFilledMonotone(g: Grid, x: nat, m: nat, n: nat)
    requires HasColumn(g, x, n) && m <= n && AnyFilled(g, x, m)
    ensures AnyFilled(g, x, n)
  {
    if m < n {
      AnyFilledMonotone(g, x, m, n - 1);
    }
  }

  lemma {:induction false} SpanZero(g: Grid, x: nat, n: nat)
    requires HasColumn(g, x, n)
    ensures Span(g, x, n) == 0 <==> !AnyFilled(g, x, n)
  {
    if n > 0 {
      SpanZero(g, x, n - 1);
    }
  }

  /** The column height is the grid height minus the row of the topmost
      filled cell, and 0 exactly for an empty column. */
  lemma ColumnHeightTop(g: Grid, x: nat, top: nat)
    requires HasColumn(g, x, |g|) && top < |g|
    requires g[top][x] != Empty && forall y :: 0 <= y < top ==> g[y][x] == Empty
    ensures ColumnHeight(g, x) == |g| - top
  {
    AnyFilledExists(g, x, top);
    SpanFromTop(g, x, top, |g|);
  }

  lemma ColumnHeightZero(g: Grid, x: nat)
    requires HasColumn(g, x, |g|)
    ensures ColumnHeight(g, x) == 0 <==> forall y :: 0 <= y < |g| ==> g[y][x] == Empty
  {
    SpanZero(g, x, |g|);
    AnyFilledExists(g, x, |g|);
  }

  /** The holes among the top `n` cells of column `x`: empty cells with a
      filled cell somewhere above them. */
  function ColumnHoles(g: Grid, x: nat, n: nat): nat
    requires HasColumn(g, x, n)
  {
    if n == 0 then 0
    else ColumnHoles(g, x, n - 1) + (if g[n - 1][x] == Empty && AnyFilled(g, x, n - 1) then 1 else 0)
  }

  /** The filled cells among the top `n` cells of column `x`. */
  function FilledIn(g: Grid, x: nat, n: nat): nat
    requires HasColumn(g, x, n)
  {
    if n == 0 then 0 else FilledIn(g, x, n - 1) + (if g[n - 1][x] != Empty then 1 else 0)
  }

  /** The cells from the top filled cell down are either holes or filled:
      holes = column height - filled cells. */
  lemma {:induction false} HolesFillSpan(g: Grid, x: nat, n: nat)
    requires HasColumn(g, x, n)
    ensures ColumnHoles(g, x, n) + FilledIn(g, x, n) == Span(g, x, n)
  {
    if n > 0 {
      HolesFillSpan(g, x, n - 1);
      if !AnyFilled(g, x, n - 1) {
        SpanZero(g, x, n - 1);
        NoHolesAboveTop(g, x, n - 1);
      }
    }
  }

  lemma {:induction false} NoHolesAboveTop(g: Grid, x: nat, n: nat)
    requires HasColumn(g, x, n) && !AnyFilled(g, x, n)
    ensures ColumnHoles(g, x, n) == 0 && FilledIn(g, x, n) == 0
  {
    if n > 0 {
      NoHolesAboveTop(g, x, n - 1);
    }
  }

  // Board-wide features over the first `k` columns of a grid whose rows have
  // `w` cells.

  /** Column heights summed over the first `k` columns. */
  function HeightsUpTo(g: Grid, w: nat, k: nat): nat
    requires Rows(g, w) && k <= w
  {
    if k == 0 then 0 else HeightsUpTo(g, w, k - 1) + ColumnHeight(g, k - 1)
  }

  /** `calculateTotalHeight`. */
  function TotalHeight(g: Grid, w: nat): nat
    requires Rows(g, w)
  {
    HeightsUpTo(g, w, w)
  }

  /** Holes summed over the first `k` columns. */
  function HolesUpTo(g: Grid, w: nat, k: nat): nat
    requires Rows(g, w) && k <= w
  {
    if k == 0 then 0 else HolesUpTo(g, w, k - 1) + ColumnHoles(g, k - 1, |g|)
  }

  /** `calculateHoles`. */
  function Holes(g: Grid, w: nat): nat
    requires Rows(g, w)
  {
    HolesUpTo(g, w, w)
  }

  /** Filled cells summed over the first `k` columns. */
  function FilledUpTo(g: Grid, w: nat, k: nat): nat
    requires Rows(g, w) && k <= w
  {
    if k == 0 then 0 else FilledUpTo(g, w, k - 1) + FilledIn(g, k - 1, |g|)
  }

  function Abs(a: int): nat
  {
    if a < 0 then -a else a
  }

  /** `|h(x) - h(x + 1)|` summed over `x < k`. */
  function BumpUpTo(g: Grid, w: nat, k: nat): nat
    requires Rows(g, w) && k < w
  {
    if k == 0 then 0 else BumpUpTo(g, w, k - 1) + Abs(ColumnHeight(g, k - 1) - ColumnHeight(g, k))
  }

  /** `calculateBumpiness`: the loop runs over `x < width - 1`, so a board
      without columns has bumpiness 0. */
  function Bumpiness(g: Grid, w: nat): nat
    requires Rows(g, w)
  {
    if w == 0 then 0 else BumpUpTo(g, w, w - 1)
  }

  /** Over the whole board, holes = total height - filled cells. */
  lemma {:induction false} HolesFromHeights(g: Grid, w: nat, k: nat)
    requires Rows(g, w) && k <= w
    ensures HolesUpTo(g, w, k) + FilledUpTo(g, w, k) == HeightsUpTo(g, w, k)
  {
    if k > 0 {
      HolesFromHeights(g, w, k - 1);
      HolesFillSpan(g, k - 1, |g|);
    }
  }

  /** The total height is 0 exactly when the board is empty. */
  lemma {:induction false} TotalHeightZero(g: Grid, w: nat, k: nat)
    requires Rows(g, w) && k <= w
    ensures HeightsUpTo(g, w, k) == 0 <==> forall y, x :: 0 <= y < |g| && 0 <= x < k ==> g[y][x] == Empty
  {
    if k > 0 {
      TotalHeightZero(g, w, k - 1);
      ColumnHeightZero(g, k - 1);
    }
  }

  /** The bumpiness is 0 exactly when all columns have the same height. */
  lemma {:induction false} BumpinessZero(g: Grid, w: nat, k: nat)
    requires Rows(g, w) && k < w
    ensures BumpUpTo(g, w, k) == 0 <==> forall x :: 0 <= x <= k ==> ColumnHeight(g, x) == ColumnHeight(g, 0)
  {
    if k > 0 {
      BumpinessZero(g, w, k - 1);
    }
  }

  // ---------------------------------------------------------------------

  /** A falling piece; the game moves and rotates it in place. */
  class Piece {
    var shape: Shape
    const color: string
    var x: int
    var y: int

    /** `new Piece(shape, color)` starts at position `{x: 3, y: 0}`. */
    constructor (shape: Shape, color: string)
      ensures this.shape == shape && this.color == color
      ensures x == 3 && y == 0
    {
      this.shape := shape;
      this.color := color;
      x := 3;
      y := 0;
    }

    /** `rotate()`: a quarter turn clockwise. */
    method Rotate()
      requires Rect(shape)
      modifies this`shape
      ensures shape == Rotated(old(shape))
    {
      shape := Rotated(shape);
    }
  }

  class Board {
    const width: nat
    const height: nat
    var grid: Grid

    ghost predicate Valid()
      reads this
    {
      Shaped(grid, width, height)
    }

    /** `new Board(width, height)`: `height` rows of `width` empty cells. */
    constructor (width: nat, height: nat)
      ensures Valid() && this.width == width && this.height == height
      ensures grid == Blank(width, height)
    {
      this.width := width;
      this.height := height;
      grid := Blank(width, height);
    }

    /** `isInBounds(x, y)`. */
    predicate IsInBounds(x: int, y: int)
    {
      0 <= x < width && 0 <= y < height
    }

    /** Every solid cell of `shape`, placed at `(px, py)`, is on the board. */
    predicate Encloses(shape: Shape, px: int, py: int)
    {
      forall r, c :: 0 <= r < |shape| && 0 <= c < |shape[r]| && shape[r][c] != 0 ==> IsInBounds(px + c, py + r)
    }

    /** Every solid cell of `shape`, placed at `(px, py)`, is on the board and
        on an empty cell. */
    predicate Fits(shape: Shape, px: int, py: int)
      requires Valid()
      reads this
    {
      forall r, c :: 0 <= r < |shape| && 0 <= c < |shape[r]| && shape[r][c] != 0 ==>
        IsInBounds(px + c, py + r) && grid[py + r][px + c] == Empty
    }

    /** `isInside(piece, offsetX, offsetY)`: the piece, moved by the offset,
        fits on the board. */
    predicate IsInside(piece: Piece, offsetX: int, offsetY: int)
      requires Valid()
      reads this, piece
    {
      Fits(piece.shape, piece.x + offsetX, piece.y + offsetY)
    }

    /** `merge(piece)`: writes the piece's colour on the cells it covers. */
    method Merge(piece: Piece)
      requires Valid() && Encloses(piece.shape, piece.x, piece.y)
      modifies this`grid
      ensures Valid()
      ensures grid == Merged(old(grid), piece.shape, piece.x, piece.y, piece.color)
    {
      ghost var g0 := grid;
      MergeStart(g0, piece.shape, piece.x, piece.y, piece.color);
      var y := 0;
      while y < |piece.shape|
        invariant y <= |piece.shape| && Shaped(grid, width, height)
        invariant grid == MergedUpTo(g0, piece.shape, piece.x, piece.y, piece.color, y, 0)
      {
        MergeRow(piece, y, g0);
        MergeNextRow(g0, piece.shape, piece.x, piece.y, piece.color, y);
        y := y + 1;
      }
      MergeDone(g0, piece.shape, piece.x, piece.y, piece.color);
    }

    /** Once merged, a piece with a solid cell no longer fits where it was:
        its own cells are filled. */
    lemma MergedPieceBlocks(piece: Piece, before: Grid)
      requires Valid() && Encloses(piece.shape, piece.x, piece.y) && HasBlock(piece.shape)
      requires grid == Merged(before, piece.shape, piece.x, piece.y, piece.color)
      ensures !IsInside(piece, 0, 0)
    {
      var r, c :| 0 <= r < |piece.shape| && 0 <= c < |piece.shape[r]| && piece.shape[r][c] != 0;
      assert IsInBounds(piece.x + c, piece.y + r);
      MergedCovers(before, piece.shape, piece.x, piece.y, piece.color, r, c);
      assert !Fits(piece.shape, piece.x, piece.y) by {
        assert grid[piece.y + r][piece.x + c] != Empty;
      }
    }

    /** The inner `forEach` of `merge`: the cells of row `y` of the shape. */
    method MergeRow(piece: Piece, y: nat, ghost g0: Grid)
      requires Valid() && Encloses(piece.shape, piece.x, piece.y) && y < |piece.shape|
      requires grid == MergedUpTo(g0, piece.shape, piece.x, piece.y, piece.color, y, 0)
      modifies this`grid
      ensures Valid()
      ensures grid == MergedUpTo(g0, piece.shape, piece.x, piece.y, piece.color, y, |piece.shape[y]|)
    {
      var x := 0;
      while x < |piece.shape[y]|
        invariant x <= |piece.shape[y]| && Shaped(grid, width, height)
        invariant grid == MergedUpTo(g0, piece.shape, piece.x, piece.y, piece.color, y, x)
      {
        MergeStep(g0, piece.shape, piece.x, piece.y, piece.color, y, x);
        if piece.shape[y][x] != 0 {
          assert IsInBounds(piece.x + x, piece.y + y);
          var row := piece.y + y;
          grid := grid[row := grid[row][piece.x + x := Filled(piece.color)]];
        }
        x := x + 1;
      }
    }

    /** `clearRows()`: drops the full rows, keeps the others in order, refills
        the top with empty rows and returns how many rows it dropped. */
    method ClearRows() returns (cleared: nat)
      requires Valid()
      modifies this`grid
      ensures Valid()
      ensures cleared == CompleteLines(old(grid))
      ensures grid == Blank(width, cleared) + KeptRows(old(grid))
    {
      var kept, count := SplitFull(grid);
      KeptRowsWidth(grid, width);
      grid := kept;
      ghost var added := 0;
      while |grid| < height
        invariant |grid| == added + |kept| <= height && Rows(grid, width)
        invariant grid == Blank(width, added) + kept
      {
        PrependBlank(width, added, kept);
        grid := [EmptyRow(width)] + grid;
        added := added + 1;
      }
      assert added == count;
      cleared := count;
    }
  }

  lemma PrependBlank(w: nat, n: nat, rows: Grid)
    ensures [EmptyRow(w)] + (Blank(w, n) + rows) == Blank(w, n + 1) + rows
  {
  }

  lemma KeptRowsWidth(g: Grid, w: nat)
    requires Rows(g, w)
    ensures Rows(KeptRows(g), w)
  {
    var k := KeptRows(g);
    forall i | 0 <= i < |k|
      ensures |k[i]| == w
    {
      assert k[i] in g;
    }
  }

  /** The `filter` of `clearRows`: the rows that are not full, in order, and
      the number of full rows it pushed on `clearedRows`. */
  method SplitFull(rows: Grid) returns (kept: Grid, count: nat)
    ensures kept == KeptRows(rows) && count == CompleteLines(rows)
  {
    kept := [];
    count := 0;
    var y := 0;
    while y < |rows|
      invariant y <= |rows|
      invariant kept == KeptRows(rows[..y]) && count == CompleteLines(rows[..y])
    {
      assert rows[..y + 1][..y] == rows[..y];
      if Full(rows[y]) {
        count := count + 1;
      } else {
        kept := kept + [rows[y]];
      }
      y := y + 1;
    }
    assert rows[..y] == rows;
  }

  /** Cells covered by the part of the shape before row `i`, column `j`. */
  predicate CoversBefore(shape: Shape, px: int, py: int, x: int, y: int, i: int, j: int)
  {
    Covers(shape, px, py, x, y) && (y - py < i || (y - py == i && x - px < j))
  }

  /** The grid after `merge` has written the cells before row `i`,
      column `j` of the shape. */
  function MergedUpTo(g: Grid, shape: Shape, px: int, py: int, color: string, i: int, j: int): (m: Grid)
    ensures |m| == |g| && forall y :: 0 <= y < |g| ==> |m[y]| == |g[y]|
  {
    seq(|g|, y requires 0 <= y < |g| =>
      seq(|g[y]|, x requires 0 <= x < |g[y]| => if CoversBefore(shape, px, py, x, y, i, j) then Filled(color) else g[y][x]))
  }

  /** Each solid cell of the piece that lies on the grid is filled with its
      colour. */
  lemma MergedCovers(g: Grid, shape: Shape, px: int, py: int, color: string, r: nat, c: nat)
    requires r < |shape| && c < |shape[r]| && shape[r][c] != 0
    requires 0 <= py + r < |g| && 0 <= px + c < |g[py + r]|
    ensures Merged(g, shape, px, py, color)[py + r][px + c] == Filled(color)
  {
    assert Covers(shape, px, py, px + c, py + r);
  }

  lemma MergeStart(g: Grid, shape: Shape, px: int, py: int, color: string)
    ensures MergedUpTo(g, shape, px, py, color, 0, 0) == g
  {
    var m := MergedUpTo(g, shape, px, py, color, 0, 0);
    forall y | 0 <= y < |g|
      ensures m[y] == g[y]
    {
    }
  }

  lemma MergeStep(g: Grid, shape: Shape, px: int, py: int, color: string, i: nat, j: nat)
    requires i < |shape| && j < |shape[i]|
    ensures var m := MergedUpTo(g, shape, px, py, color, i, j);
            var y := py + i;
            var x := px + j;
            if shape[i][j] != 0 && 0 <= y < |g| && 0 <= x < |g[y]| then
              MergedUpTo(g, shape, px, py, color, i, j + 1) == m[y := m[y][x := Filled(color)]]
            else
              MergedUpTo(g, shape, px, py, color, i, j + 1) == m
  {
    var m := MergedUpTo(g, shape, px, py, color, i, j);
    var m' := MergedUpTo(g, shape, px, py, color, i, j + 1);
    forall y | 0 <= y < |g|
      ensures m'[y] == if shape[i][j] != 0 && y == py + i && 0 <= px + j < |g[y]| then m[y][px + j := Filled(color)] else m[y]
    {
    }
  }

  lemma MergeNextRow(g: Grid, shape: Shape, px: int, py: int, color: string, i: nat)
    requires i < |shape|
    ensures MergedUpTo(g, shape, px, py, color, i, |shape[i]|) == MergedUpTo(g, shape, px, py, color, i + 1, 0)
  {
    var m := MergedUpTo(g, shape, px, py, color, i, |shape[i]|);
    var m' := MergedUpTo(g, shape, px, py, color, i + 1, 0);
    forall y | 0 <= y < |g|
      ensures m'[y] == m[y]
    {
    }
  }

  lemma MergeDone(g: Grid, shape: Shape, px: int, py: int, color: string)
    ensures MergedUpTo(g, shape, px, py, color, |shape|, 0) == Merged(g, shape, px, py, color)
  {
    var m := MergedUpTo(g, shape, px, py, color, |shape|, 0);
    var m' := Merged(g, shape, px, py, color);
    forall y | 0 <= y < |g|
      ensures m'[y] == m[y]
    {
    }
  }
}
