// Model of the `Game` class of Javascript/Tetris/src/tetris.js without its
// canvas, timers and keyboard: the piece supply, the moves of the current
// piece, locking it into the board, the score, and the four board features.

module TetrisGame {
  import opened TetrisBoard

  /** A piece as `createPieces` lists it. */
  datatype Template = Template(shape: Shape, color: string)

  const BoardWidth: nat := 10
  const BoardHeight: nat := 20

  /** `createPieces()`: the seven tetrominoes, each at most two rows of at
      most four cells, with a solid cell in column 1 of its last row. */
  function Templates(): (ts: seq<Template>)
    ensures |ts| == 7
    ensures forall i :: 0 <= i < 7 ==> Small(ts[i].shape)
  {
    var ts := [
      Template([[1, 1, 1, 1]], "cyan"),
      Template([[1, 1], [1, 1]], "yellow"),
      Template([[0, 1, 0], [1, 1, 1]], "purple"),
      Template([[1, 0, 0], [1, 1, 1]], "blue"),
      Template([[0, 0, 1], [1, 1, 1]], "orange"),
      Template([[1, 1, 0], [0, 1, 1]], "red"),
      Template([[0, 1, 1], [1, 1, 0]], "green")
    ];
    assert forall i :: 0 <= i < 7 ==> ts[i].shape[|ts[i].shape| - 1][1] != 0;
    ts
  }

  /** A rectangular shape with a solid cell that fits in two rows of four. */
  predicate Small(s: Shape)
  {
    Rect(s) && HasBlock(s) && |s| <= 2 && |s[0]| <= 4
  }

  /** `Math.floor(Math.random() * this.pieces.length)` for the draw `r`. */
  function Pick(r: real): (i: nat)
    requires 0.0 <= r < 1.0
    ensures i < 7
  {
    (r * 7.0).Floor
  }

  /** A template placed at the start position fits on an empty 10 x 20
      board. */
  lemma StartEncloses(b: Board, s: Shape)
    requires b.width == BoardWidth && b.height == BoardHeight && Small(s)
    ensures b.Encloses(s, 3, 0)
  {
  }

  lemma EmptyBoardFits(b: Board, s: Shape, px: int, py: int)
    requires b.Valid() && b.grid == Blank(b.width, b.height) && b.Encloses(s, px, py)
    ensures b.Fits(s, px, py)
  {
  }

  /** The new value of `speed` after `cleared` rows took the score from
      `score` to `score + cleared`: ten times faster on a multiple of 500. */
  function SpeedAfter(speed: real, score: nat, cleared: nat): real
  {
    if cleared > 0 && (score + cleared) % 500 == 0 then speed * 0.1 else speed
  }

  lemma SpeedStaysPositive(speed: real, score: nat, cleared: nat)
    requires speed > 0.0
    ensures 0.0 < SpeedAfter(speed, score, cleared) <= speed
  {
  }

  /** The grid after `clearRows` on `g`. */
  function Cleared(g: Grid): Grid
  {
    Blank(BoardWidth, CompleteLines(g)) + KeptRows(g)
  }

  class Game {
    const board: Board
    var currentPiece: Piece
    var nextPiece: Template
    var score: nat
    var speed: real
    var isGameOver: bool
    const isAIEnabled: bool

    /** The board is 10 x 20, the current piece is a rotation of a template
        and is always on the board, and it fits while the game runs. */
    ghost predicate Valid()
      reads this, board, currentPiece
    {
      && board.Valid() && board.width == BoardWidth && board.height == BoardHeight
      && Rect(currentPiece.shape) && HasBlock(currentPiece.shape)
      && board.Encloses(currentPiece.shape, currentPiece.x, currentPiece.y)
      && (!isGameOver ==> board.IsInside(currentPiece, 0, 0))
      && Small(nextPiece.shape)
      && speed > 0.0
    }

    /** The state the `Game` constructor sets up: an empty 10 x 20 board, the
        first two random pieces (the draws `first` and `second`), score 0 and
        speed 500. The constructor's third draw is overwritten before use. */
    constructor (isAIEnabled: bool, first: real, second: real)
      requires 0.0 <= first < 1.0 && 0.0 <= second < 1.0
      ensures Valid() && fresh(board) && fresh(currentPiece)
      ensures board.grid == Blank(BoardWidth, BoardHeight)
      ensures currentPiece.shape == Templates()[Pick(first)].shape
      ensures currentPiece.color == Templates()[Pick(first)].color
      ensures currentPiece.x == 3 && currentPiece.y == 0
      ensures nextPiece == Templates()[Pick(second)]
      ensures score == 0 && speed == 500.0 && !isGameOver && this.isAIEnabled == isAIEnabled
    {
      var b := new Board(BoardWidth, BoardHeight);
      var t := Templates()[Pick(first)];
      var p := new Piece(t.shape, t.color);
      board := b;
      currentPiece := p;
      nextPiece := Templates()[Pick(second)];
      score := 0;
      speed := 500.0;
      isGameOver := false;
      this.isAIEnabled := isAIEnabled;
      new;
      StartEncloses(b, p.shape);
      EmptyBoardFits(b, p.shape, p.x, p.y);
    }

    /** `randomPiece()`: a new piece from the waiting template, which the
        draw `r` replaces. */
    method RandomPiece(r: real) returns (piece: Piece)
      requires 0.0 <= r < 1.0
      modifies this`nextPiece
      ensures fresh(piece) && piece.x == 3 && piece.y == 0
      ensures piece.shape == old(nextPiece).shape && piece.color == old(nextPiece).color
      ensures nextPiece == Templates()[Pick(r)]
    {
      var t := nextPiece;
      nextPiece := Templates()[Pick(r)];
      piece := new Piece(t.shape, t.color);
    }

    /** `move(direction)`: shift sideways only if the piece fits there. */
    method Move(direction: int)
      requires Valid()
      modifies currentPiece`x
      ensures Valid()
      ensures currentPiece.x == if old(board.IsInside(currentPiece, direction, 0))
                               then old(currentPiece.x) + direction else old(currentPiece.x)
    {
      if board.IsInside(currentPiece, direction, 0) {
        currentPiece.x := currentPiece.x + direction;
      }
    }

    /** `rotate()`: turn the piece, and turn it back if it no longer fits. */
    method Rotate()
      requires Valid()
      modifies currentPiece`shape
      ensures Valid()
      ensures var turned := Rotated(old(currentPiece.shape));
              currentPiece.shape == if board.Fits(turned, currentPiece.x, currentPiece.y)
                                    then turned else old(currentPiece.shape)
    {
      var originalShape := currentPiece.shape;
      RotatedHasBlock(originalShape);
      currentPiece.Rotate();
      if !board.IsInside(currentPiece, 0, 0) {
        currentPiece.shape := originalShape;
      }
    }

    /** `drop()`: one row down if the piece fits there, otherwise lock it
        (with the draw `r` for the next piece). */
    method Drop(r: real)
      requires Valid() && 0.0 <= r < 1.0
      modifies currentPiece`y, board`grid, this`currentPiece, this`nextPiece, this`score, this`speed, this`isGameOver
      ensures Valid()
      ensures old(board.IsInside(currentPiece, 0, 1)) ==>
                && currentPiece == old(currentPiece) && currentPiece.y == old(currentPiece.y) + 1
                && board.grid == old(board.grid) && score == old(score)
      ensures !old(board.IsInside(currentPiece, 0, 1)) ==>
                && fresh(currentPiece)
                && board.grid == Cleared(Merged(old(board.grid), old(currentPiece.shape), old(currentPiece.x),
                                                old(currentPiece.y), old(currentPiece.color)))
                && score == old(score) + CompleteLines(Merged(old(board.grid), old(currentPiece.shape),
                                                              old(currentPiece.x), old(currentPiece.y), old(currentPiece.color)))
    {
      if board.IsInside(currentPiece, 0, 1) {
        currentPiece.y := currentPiece.y + 1;
      } else {
        LockPiece(r);
      }
    }

    /** `lockPiece()`: merge the piece, clear full rows, score them, take the
        next piece, and end the game when that piece does not fit. */
    method LockPiece(r: real)
      requires Valid() && 0.0 <= r < 1.0
      modifies board`grid, this`currentPiece, this`nextPiece, this`score, this`speed, this`isGameOver
      ensures Valid()
      ensures var m := Merged(old(board.grid), old(currentPiece.shape), old(currentPiece.x),
                              old(currentPiece.y), old(currentPiece.color));
              && board.grid == Cleared(m)
              && score == old(score) + CompleteLines(m)
              && speed == SpeedAfter(old(speed), old(score), CompleteLines(m))
      ensures fresh(currentPiece) && currentPiece.x == 3 && currentPiece.y == 0
      ensures currentPiece.shape == old(nextPiece).shape && currentPiece.color == old(nextPiece).color
      ensures nextPiece == Templates()[Pick(r)]
      ensures isGameOver == (old(isGameOver) || !board.IsInside(currentPiece, 0, 0))
    {
      var clearedRows := Settle();
      IncreaseScore(clearedRows);
      NextTurn(r);
    }

    /** The end of `lockPiece`: the next piece comes in, and the game is over
        if it does not fit. */
    method NextTurn(r: real)
      requires 0.0 <= r < 1.0 && Small(nextPiece.shape) && speed > 0.0
      requires board.Valid() && board.width == BoardWidth && board.height == BoardHeight
      modifies this`currentPiece, this`nextPiece, this`isGameOver
      ensures Valid()
      ensures fresh(currentPiece) && currentPiece.x == 3 && currentPiece.y == 0
      ensures currentPiece.shape == old(nextPiece).shape && currentPiece.color == old(nextPiece).color
      ensures nextPiece == Templates()[Pick(r)]
      ensures isGameOver == (old(isGameOver) || !board.IsInside(currentPiece, 0, 0))
    {
      currentPiece := RandomPiece(r);
      StartEncloses(board, currentPiece.shape);
      if !board.IsInside(currentPiece, 0, 0) {
        isGameOver := true;
      }
    }

    /** The board part of `lockPiece`: `merge` then `clearRows`. */
    method Settle() returns (clearedRows: nat)
      requires board.Valid() && board.width == BoardWidth
      requires board.Encloses(currentPiece.shape, currentPiece.x, currentPiece.y)
      modifies board`grid
      ensures board.Valid()
      ensures var m := Merged(old(board.grid), currentPiece.shape, currentPiece.x, currentPiece.y, currentPiece.color);
              board.grid == Cleared(m) && clearedRows == CompleteLines(m)
    {
      board.Merge(currentPiece);
      clearedRows := board.ClearRows();
    }

    /** `increaseScore(clearedRows)`: add the rows to the score, speed up
        tenfold on each positive multiple of 500, and close a finished game. */
    method IncreaseScore(clearedRows: nat)
      requires speed > 0.0
      modifies this`score, this`speed, this`isGameOver
      ensures score == old(score) + clearedRows
      ensures speed == SpeedAfter(old(speed), old(score), clearedRows) && speed > 0.0
      ensures isGameOver == old(isGameOver)
    {
      score := score + clearedRows;
      if clearedRows > 0 && score % 500 == 0 {
        speed := speed * 0.1;
      }
      if isGameOver {
        EndGame();
      }
    }

    /** `endGame()`. */
    method EndGame()
      modifies this`isGameOver
      ensures isGameOver
    {
      isGameOver := true;
    }

    // The board features `getInputs` reports.

    /** `getColumnHeight(x)`. */
    method GetColumnHeight(x: nat) returns (h: nat)
      requires Valid() && x < BoardWidth
      ensures h == ColumnHeight(board.grid, x)
    {
      var y := 0;
      while y < BoardHeight
        invariant y <= BoardHeight
        invariant forall k :: 0 <= k < y ==> board.grid[k][x] == Empty
      {
        if board.grid[y][x] != Empty {
          ColumnHeightTop(board.grid, x, y);
          return BoardHeight - y;
        }
        y := y + 1;
      }
      ColumnHeightZero(board.grid, x);
      return 0;
    }

    /** `calculateTotalHeight()`. */
    method CalculateTotalHeight() returns (totalHeight: nat)
      requires Valid()
      ensures totalHeight == TotalHeight(board.grid, BoardWidth)
    {
      totalHeight := 0;
      var x := 0;
      while x < BoardWidth
        invariant x <= BoardWidth && totalHeight == HeightsUpTo(board.grid, BoardWidth, x)
      {
        var h := GetColumnHeight(x);
        totalHeight := totalHeight + h;
        x := x + 1;
      }
    }

    /** `calculateCompleteLines()`. */
    method CalculateCompleteLines() returns (completeLines: nat)
      requires Valid()
      ensures completeLines == CompleteLines(board.grid)
    {
      completeLines := 0;
      var y := 0;
      while y < BoardHeight
        invariant y <= BoardHeight && completeLines == CompleteLines(board.grid[..y])
      {
        assert board.grid[..y + 1][..y] == board.grid[..y];
        if Full(board.grid[y]) {
          completeLines := completeLines + 1;
        }
        y := y + 1;
      }
      assert board.grid[..y] == board.grid;
    }

    /** `calculateHoles()`. */
    method CalculateHoles() returns (holes: nat)
      requires Valid()
      ensures holes == Holes(board.grid, BoardWidth)
    {
      holes := 0;
      var x := 0;
      while x < BoardWidth
        invariant x <= BoardWidth && holes == HolesUpTo(board.grid, BoardWidth, x)
      {
        var blockFound := false;
        var y := 0;
        while y < BoardHeight
          invariant y <= BoardHeight
          invariant blockFound == AnyFilled(board.grid, x, y)
          invariant holes == HolesUpTo(board.grid, BoardWidth, x) + ColumnHoles(board.grid, x, y)
        {
          if board.grid[y][x] != Empty {
            blockFound := true;
          } else if blockFound && board.grid[y][x] == Empty {
            holes := holes + 1;
          }
          y := y + 1;
        }
        x := x + 1;
      }
    }

    /** `calculateBumpiness()`. */
    method CalculateBumpiness() returns (bumpiness: nat)
      requires Valid()
      ensures bumpiness == Bumpiness(board.grid, BoardWidth)
    {
      bumpiness := 0;
      var x := 0;
      while x < BoardWidth - 1
        invariant x <= BoardWidth - 1 && bumpiness == BumpUpTo(board.grid, BoardWidth, x)
      {
        var colHeight1 := GetColumnHeight(x);
        var colHeight2 := GetColumnHeight(x + 1);
        bumpiness := bumpiness + Abs(colHeight1 as int - colHeight2 as int);
        x := x + 1;
      }
    }
  }
}
