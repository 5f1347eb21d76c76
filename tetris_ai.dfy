// Model of Javascript/Tetris/src/aicontroller.js: the board features the AI
// computes, its simulation of one placement on a copy of the game, and the
// search over rotations and translations. Exceptions the JavaScript throws
// are the `Throws` outcome.

module TetrisAi {
  import opened TetrisBoard
  import opened TetrisGame

  datatype Option<T> = None | Some(value: T)

  /** The result of a computation that may throw a JavaScript exception. */
  datatype Outcome<T> = Done(value: T) | Throws

  /** The `board` object the features read. On the board `simulateGameState`
      builds, `width` and `height` are absent (`None`). */
  datatype BoardView = BoardView(width: Option<nat>, height: Option<nat>, grid: Grid)

  /** A copy of a piece made by `JSON.parse(JSON.stringify(piece))`: the data
      fields only, without the `rotate` method. */
  datatype PieceData = PieceData(shape: Shape, color: string, x: int, y: int)

  /** A candidate placement: how many quarter turns, then how far sideways. */
  datatype Move = Move(rotation: nat, translation: int)

  /** `x < bound`, where a comparison with `undefined` is false. */
  predicate Below(x: int, bound: Option<nat>)
  {
    bound.Some? && x < bound.value
  }

  /** The dimensions a view carries describe its grid. */
  predicate ViewOk(v: BoardView)
  {
    (v.height.Some? ==> v.height.value == |v.grid|) && (v.width.Some? ==> Rows(v.grid, v.width.value))
  }

  predicate Rectangular(g: Grid)
  {
    forall y :: 0 <= y < |g| ==> |g[y]| == |g[0]|
  }

  /** What the intended search needs of the game: a piece with a block, and
      a non-empty board of `width` x `height` cells. */
  ghost predicate Ready(g: Game)
    reads g, g.board, g.currentPiece
  {
    && Rect(g.currentPiece.shape) && HasBlock(g.currentPiece.shape)
    && Shaped(g.board.grid, g.board.width, g.board.height) && g.board.height > 0
  }

  function Clone(p: Piece): (d: PieceData)
    reads p
  {
    PieceData(p.shape, p.color, p.x, p.y)
  }

  // ---------------------------------------------------------------------
  // The features as the AI computes them: its loops stop at once when a
  // dimension is absent.

  function ViewColumnHeight(v: BoardView, x: nat): nat
    requires ViewOk(v) && v.width.Some? && x < v.width.value
  {
    if v.height.Some? then ColumnHeight(v.grid, x) else 0
  }

  function ViewTotalHeight(v: BoardView): nat
    requires ViewOk(v)
  {
    if v.width.Some? && v.height.Some? then TotalHeight(v.grid, v.width.value) else 0
  }

  function ViewCompleteLines(v: BoardView): nat
    requires ViewOk(v)
  {
    if v.height.Some? then CompleteLines(v.grid) else 0
  }

  function ViewHoles(v: BoardView): nat
    requires ViewOk(v)
  {
    if v.width.Some? && v.height.Some? then Holes(v.grid, v.width.value) else 0
  }

  function ViewBumpiness(v: BoardView): nat
    requires ViewOk(v)
  {
    if v.width.Some? && v.height.Some? then Bumpiness(v.grid, v.width.value) else 0
  }

  /** `evaluateBoard`'s weighted score, in exact arithmetic. */
  function Evaluation(v: BoardView): real
    requires ViewOk(v)
  {
    -0.5 * (ViewTotalHeight(v) as real) + 0.8 * (ViewCompleteLines(v) as real)
      - 0.3 * (ViewHoles(v) as real) - 0.2 * (ViewBumpiness(v) as real)
  }

  /** A board without dimensions scores 0, whatever its cells; a board with
      them scores by the same features the game reports. */
  lemma EvaluationByDimensions(g: Grid, w: nat)
    requires Rows(g, w)
    ensures Evaluation(BoardView(None, None, g)) == 0.0
    ensures Evaluation(BoardView(Some(w), Some(|g|), g))
            == -0.5 * (TotalHeight(g, w) as real) + 0.8 * (CompleteLines(g) as real)
               - 0.3 * (Holes(g, w) as real) - 0.2 * (Bumpiness(g, w) as real)
  {
  }

  // ---------------------------------------------------------------------
  // Collision test and moves on copies

  /** `isInsideBoard(piece, board, offsetX, offsetY)`. */
  predicate IsInsideBoard(p: PieceData, board: Grid, offsetX: int, offsetY: int)
    requires Rectangular(board)
  {
    forall r, c :: 0 <= r < |p.shape| && 0 <= c < |p.shape[r]| && p.shape[r][c] != 0 ==>
      0 <= p.y + r + offsetY < |board| && 0 <= p.x + c + offsetX < |board[0]|
      && board[p.y + r + offsetY][p.x + c + offsetX] == Empty
  }

  /** `isInsideBoard` on a copy of the game's grid is `Board.isInside`. */
  lemma IsInsideBoardIsInside(b: Board, p: Piece, offsetX: int, offsetY: int)
    requires b.Valid()
    ensures Rectangular(b.grid)
    ensures IsInsideBoard(Clone(p), b.grid, offsetX, offsetY) <==> b.IsInside(p, offsetX, offsetY)
  {
  }

  /** `translatePiece`: the anchor moves only to a column of the board. */
  function Translated(p: PieceData, direction: int, board: Grid): (q: PieceData)
    requires |board| > 0
    ensures q.shape == p.shape && q.color == p.color && q.y == p.y
    ensures q.x == p.x || (q.x == p.x + direction && 0 <= q.x < |board[0]|)
    ensures 0 <= p.x + direction < |board[0]| ==> q.x == p.x + direction
  {
    var newPosition := p.x + direction;
    if 0 <= newPosition < |board[0]| then p.(x := newPosition) else p
  }

  /** A piece that fits one row lower is above the bottom row. */
  lemma InsideBelowBounded(p: PieceData, board: Grid)
    requires Rectangular(board) && HasBlock(p.shape) && IsInsideBoard(p, board, 0, 1)
    ensures p.y + 1 < |board|
  {
    var r, c :| 0 <= r < |p.shape| && 0 <= c < |p.shape[r]| && p.shape[r][c] != 0;
  }

  /** The row where `dropPiece`'s loop stops: the lowest row reached by
      moving down while the piece fits one row lower. */
  function Landing(p: PieceData, board: Grid): (y: int)
    requires Rectangular(board) && HasBlock(p.shape)
    ensures y >= p.y && !IsInsideBoard(p.(y := y), board, 0, 1)
    decreases |board| - p.y
  {
    if IsInsideBoard(p, board, 0, 1) then
      InsideBelowBounded(p, board);
      Landing(p.(y := p.y + 1), board)
    else p.y
  }

  /** Every solid cell of the piece is on a row of the board. */
  predicate RowsOnBoard(p: PieceData, board: Grid)
  {
    forall r, c :: 0 <= r < |p.shape| && 0 <= c < |p.shape[r]| && p.shape[r][c] != 0 ==> 0 <= p.y + r < |board|
  }

  /** `lockPiece(piece, board)`: writing a cell of a missing row throws; a
      cell outside the columns changes no cell of the grid. */
  function Locked(p: PieceData, board: Grid): Outcome<Grid>
  {
    if RowsOnBoard(p, board) then Done(Merged(board, p.shape, p.x, p.y, p.color)) else Throws
  }

  /** `dropPiece`: the piece ends one row above where the loop stopped, and
      is locked there. */
  function Dropped(p: PieceData, board: Grid): Outcome<Grid>
    requires Rectangular(board) && HasBlock(p.shape)
  {
    Locked(p.(y := Landing(p, board) - 1), board)
  }

  /** Locking keeps the grid's dimensions. */
  lemma LockedShape(p: PieceData, board: Grid, w: nat)
    requires Rows(board, w) && Locked(p, board).Done?
    ensures Rows(Locked(p, board).value, w) && |Locked(p, board).value| == |board|
  {
  }

  // ---------------------------------------------------------------------
  // The search as intended: a rotation that really turns the copy, and a
  // simulated board that keeps its dimensions.

  /** `rotatePiece` with a working `rotate`: the turn is undone when the
      turned piece does not fit. */
  function RotatedFixed(p: PieceData, board: Grid): (q: PieceData)
    requires Rect(p.shape) && HasBlock(p.shape) && Rectangular(board)
    ensures Rect(q.shape) && HasBlock(q.shape) && q.x == p.x && q.y == p.y && q.color == p.color
    ensures q.shape == Rotated(p.shape) || q.shape == p.shape
  {
    RotatedHasBlock(p.shape);
    var turned := p.(shape := Rotated(p.shape));
    if IsInsideBoard(turned, board, 0, 0) then turned else p
  }

  /** The copy after `k` calls of the intended `rotatePiece`. */
  function Turned(p: PieceData, board: Grid, k: nat): (q: PieceData)
    requires Rect(p.shape) && HasBlock(p.shape) && Rectangular(board)
    ensures Rect(q.shape) && HasBlock(q.shape) && q.x == p.x && q.y == p.y && q.color == p.color
  {
    if k == 0 then p else RotatedFixed(Turned(p, board, k - 1), board)
  }

  /** The intended `simulateGameState(rotation, translation)`. */
  function Simulated(p: PieceData, board: Grid, rotation: nat, translation: int): (r: Outcome<BoardView>)
    requires Rect(p.shape) && HasBlock(p.shape) && Rectangular(board) && |board| > 0
    ensures r.Done? ==> ViewOk(r.value) && |r.value.grid| == |board|
  {
    var q := Translated(Turned(p, board, rotation), translation, board);
    match Dropped(q, board)
    case Throws => Throws
    case Done(g) =>
      LockedShape(q.(y := Landing(q, board) - 1), board, |board[0]|);
      Done(BoardView(Some(|board[0]|), Some(|board|), g))
  }

  /** The `k`-th candidate in the order `findBestMove` tries them. */
  function Candidate(k: nat): (m: Move)
    ensures k < 44 ==> m.rotation <= 3 && -5 <= m.translation <= 5
  {
    Move(k / 11, k % 11 - 5)
  }

  /** The intended score of the `k`-th candidate. */
  function CandidateScore(p: PieceData, board: Grid, k: nat): Outcome<real>
    requires Rect(p.shape) && HasBlock(p.shape) && Rectangular(board) && |board| > 0
  {
    match Simulated(p, board, Candidate(k).rotation, Candidate(k).translation)
    case Throws => Throws
    case Done(v) => Done(Evaluation(v))
  }

  /** The intended scores of all 44 candidates, in loop order. */
  ghost function Scores(p: PieceData, board: Grid): (s: seq<Outcome<real>>)
    requires Rect(p.shape) && HasBlock(p.shape) && Rectangular(board) && |board| > 0
    ensures |s| == 44 && forall j :: 0 <= j < 44 ==> s[j] == CandidateScore(p, board, j)
  {
    seq(44, j requires 0 <= j < 44 => CandidateScore(p, board, j))
  }

  /** Candidate `b` is the first one with the highest score, and every
      candidate has a score. */
  ghost predicate FirstBest(s: seq<Outcome<real>>, b: nat)
  {
    && b < |s|
    && (forall j :: 0 <= j < |s| ==> s[j].Done?)
    && (forall j :: 0 <= j < |s| ==> s[j].value <= s[b].value)
    && (forall j :: 0 <= j < b ==> s[j].value < s[b].value)
  }

  /** After trying the first `k` candidates without an exception, the best
      score so far is `best` and belongs to candidate `b`: no earlier
      candidate scored as much, and no tried candidate scored more. */
  ghost predicate Searched(s: seq<Outcome<real>>, k: nat, best: Option<real>, bestMove: Move, b: nat)
  {
    && k <= |s|
    && (forall j :: 0 <= j < k ==> s[j].Done?)
    && (best.None? <==> k == 0)
    && (k > 0 ==>
          && b < k && bestMove == Candidate(b) && s[b] == Done(best.value)
          && (forall j :: 0 <= j < k ==> s[j].value <= best.value)
          && (forall j :: 0 <= j < b ==> s[j].value < best.value))
  }

  /** Trying candidate `k` extends the search by one candidate: a strictly
      higher score takes over, any other score leaves the best as it is. */
  lemma SearchStep(s: seq<Outcome<real>>, k: nat, best: Option<real>, bestMove: Move, b: nat,
                   best': Option<real>, move': Move, b': nat)
    requires k < |s| && Searched(s, k, best, bestMove, b) && s[k].Done?
    requires if best.None? || s[k].value > best.value then best' == Some(s[k].value) && move' == Candidate(k) && b' == k
             else best' == best && move' == bestMove && b' == b
    ensures Searched(s, k + 1, best', move', b')
  {
  }

  /** A search that tried every candidate has found the first best one. */
  lemma SearchDone(s: seq<Outcome<real>>, best: Option<real>, bestMove: Move, b: nat)
    requires |s| > 0 && Searched(s, |s|, best, bestMove, b)
    ensures FirstBest(s, b) && bestMove == Candidate(b)
  {
  }

  class AIController {
    const game: Game

    constructor (game: Game)
      ensures this.game == game
    {
      this.game := game;
    }

    // The features. Each reads only the view it is given.

    /** `getColumnHeight(board, x)`. */
    method GetColumnHeight(board: BoardView, x: nat) returns (h: nat)
      requires ViewOk(board) && board.width.Some? && x < board.width.value
      ensures h == ViewColumnHeight(board, x)
    {
      var y := 0;
      while Below(y, board.height)
        invariant board.height.Some? ==> y <= board.height.value
        invariant forall k :: 0 <= k < y && board.height.Some? ==> board.grid[k][x] == Empty
        decreases if board.height.Some? then board.height.value - y else 0
      {
        if board.grid[y][x] != Empty {
          ColumnHeightTop(board.grid, x, y);
          return board.height.value - y;
        }
        y := y + 1;
      }
      if board.height.Some? {
        ColumnHeightZero(board.grid, x);
      }
      return 0;
    }

    /** `calculateTotalHeight(board)`, with its inline column scan. */
    method CalculateTotalHeight(board: BoardView) returns (totalHeight: nat)
      requires ViewOk(board)
      ensures totalHeight == ViewTotalHeight(board)
    {
      totalHeight := 0;
      var x := 0;
      while Below(x, board.width)
        invariant board.width.Some? ==> x <= board.width.value
        invariant board.width.Some? && board.height.Some? ==> totalHeight == HeightsUpTo(board.grid, board.width.value, x)
        invariant !(board.width.Some? && board.height.Some?) ==> totalHeight == 0
        decreases if board.width.Some? then board.width.value - x else 0
      {
        var colHeight := 0;
        var y := 0;
        while Below(y, board.height)
          invariant board.height.Some? ==> y <= board.height.value
          invariant forall k :: 0 <= k < y && board.height.Some? ==> board.grid[k][x] == Empty
          decreases if board.height.Some? then board.height.value - y else 0
        {
          if board.grid[y][x] != Empty {
            colHeight := board.height.value - y;
            ColumnHeightTop(board.grid, x, y);
            break;
          }
          y := y + 1;
        }
        if board.height.Some? && colHeight == 0 {
          ColumnHeightZero(board.grid, x);
        }
        totalHeight := totalHeight + colHeight;
        x := x + 1;
      }
    }

    /** `calculateCompleteLines(board)`. */
    method CalculateCompleteLines(board: BoardView) returns (completeLines: nat)
      requires ViewOk(board)
      ensures completeLines == ViewCompleteLines(board)
    {
      completeLines := 0;
      var y := 0;
      while Below(y, board.height)
        invariant board.height.Some? ==> y <= board.height.value && completeLines == CompleteLines(board.grid[..y])
        invariant board.height.None? ==> completeLines == 0
        decreases if board.height.Some? then board.height.value - y else 0
      {
        assert board.grid[..y + 1][..y] == board.grid[..y];
        if Full(board.grid[y]) {
          completeLines := completeLines + 1;
        }
        y := y + 1;
      }
      if board.height.Some? {
        assert board.grid[..y] == board.grid;
      }
    }

    /** `calculateHoles(board)`. */
    method CalculateHoles(board: BoardView) returns (holes: nat)
      requires ViewOk(board)
      ensures holes == ViewHoles(board)
    {
      holes := 0;
      var x := 0;
      while Below(x, board.width)
        invariant board.width.Some? ==> x <= board.width.value
        invariant board.width.Some? && board.height.Some? ==> holes == HolesUpTo(board.grid, board.width.value, x)
        invariant !(board.width.Some? && board.height.Some?) ==> holes == 0
        decreases if board.width.Some? then board.width.value - x else 0
      {
        var blockFound := false;
        var y := 0;
        while Below(y, board.height)
          invariant board.height.Some? ==> y <= board.height.value
          invariant board.height.Some? ==> blockFound == AnyFilled(board.grid, x, y)
          invariant board.height.Some? ==> holes == HolesUpTo(board.grid, board.width.value, x) + ColumnHoles(board.grid, x, y)
          invariant board.height.None? ==> holes == 0
          decreases if board.height.Some? then board.height.value - y else 0
        {
          if board.grid[y][x] != Empty {
            blockFound := true;
          } else if blockFound && board.grid[y][x] == Empty {
            holes := holes + 1;
          }
          y := y + 1;
        }
        x := x + 1;
      }
    }

    /** `calculateBumpiness(board)`: `x < board.width - 1` is false when the
        width is absent (`NaN`). */
    method CalculateBumpiness(board: BoardView) returns (bumpiness: nat)
      requires ViewOk(board)
      ensures bumpiness == ViewBumpiness(board)
    {
      bumpiness := 0;
      var x := 0;
      while Below(x + 1, board.width)
        invariant board.width.Some? && board.width.value > 0 ==> x <= board.width.value - 1
        invariant board.width.None? || board.width.value == 0 ==> x == 0
        invariant board.width.Some? && board.height.Some? && board.width.value > 0 ==>
                    bumpiness == BumpUpTo(board.grid, board.width.value, x)
        invariant !(board.width.Some? && board.height.Some?) || x == 0 ==> bumpiness == 0
        decreases if board.width.Some? then board.width.value - x else 0
      {
        var colHeight1 := GetColumnHeight(board, x);
        var colHeight2 := GetColumnHeight(board, x + 1);
        bumpiness := bumpiness + Abs(colHeight1 as int - colHeight2 as int);
        x := x + 1;
      }
      if board.width.Some? && board.height.Some? && board.width.value > 0 {
        assert x == board.width.value - 1;
      }
    }

    /** `evaluateBoard(board)`. */
    method EvaluateBoard(board: BoardView) returns (score: real)
      requires ViewOk(board)
      ensures score == Evaluation(board)
    {
      var totalHeight := CalculateTotalHeight(board);
      var completeLines := CalculateCompleteLines(board);
      var holes := CalculateHoles(board);
      var bumpiness := CalculateBumpiness(board);
      score := -0.5 * (totalHeight as real) + 0.8 * (completeLines as real)
               - 0.3 * (holes as real) - 0.2 * (bumpiness as real);
    }

    // One placement on a copy.

    /** `dropPiece(piece, board)`: move down while the piece fits one row
        lower, lift it back one row, and lock it. */
    method DropPiece(piece: PieceData, board: Grid) returns (r: Outcome<Grid>)
      requires Rectangular(board) && HasBlock(piece.shape)
      ensures r == Dropped(piece, board)
    {
      var p := piece;
      while IsInsideBoard(p, board, 0, 1)
        invariant p == piece.(y := p.y) && Landing(p, board) == Landing(piece, board)
        decreases |board| - p.y
      {
        InsideBelowBounded(p, board);
        p := p.(y := p.y + 1);
      }
      p := p.(y := p.y - 1);
      r := LockPiece(p, board);
    }

    /** `lockPiece(piece, board)` on the copied grid. */
    method LockPiece(piece: PieceData, board: Grid) returns (r: Outcome<Grid>)
      ensures r == Locked(piece, board)
    {
      var grid := board;
      MergeStart(board, piece.shape, piece.x, piece.y, piece.color);
      var y := 0;
      while y < |piece.shape|
        invariant y <= |piece.shape|
        invariant grid == MergedUpTo(board, piece.shape, piece.x, piece.y, piece.color, y, 0)
        invariant forall r, c :: 0 <= r < y && 0 <= c < |piece.shape[r]| && piece.shape[r][c] != 0 ==>
                    0 <= piece.y + r < |board|
      {
        var row := LockRow(piece, board, grid, y);
        if row.Throws? {
          return Throws;
        }
        grid := row.value;
        MergeNextRow(board, piece.shape, piece.x, piece.y, piece.color, y);
        y := y + 1;
      }
      MergeDone(board, piece.shape, piece.x, piece.y, piece.color);
      r := Done(grid);
    }

    /** The inner `forEach` of `lockPiece`, over row `y` of the shape. */
    static method LockRow(piece: PieceData, board: Grid, grid: Grid, y: nat) returns (r: Outcome<Grid>)
      requires y < |piece.shape|
      requires grid == MergedUpTo(board, piece.shape, piece.x, piece.y, piece.color, y, 0)
      ensures r.Done? <==> forall c :: 0 <= c < |piece.shape[y]| && piece.shape[y][c] != 0 ==> 0 <= piece.y + y < |board|
      ensures r.Done? ==> r.value == MergedUpTo(board, piece.shape, piece.x, piece.y, piece.color, y, |piece.shape[y]|)
    {
      var g := grid;
      var x := 0;
      while x < |piece.shape[y]|
        invariant x <= |piece.shape[y]| && |g| == |board|
        invariant g == MergedUpTo(board, piece.shape, piece.x, piece.y, piece.color, y, x)
        invariant forall c :: 0 <= c < x && piece.shape[y][c] != 0 ==> 0 <= piece.y + y < |board|
      {
        MergeStep(board, piece.shape, piece.x, piece.y, piece.color, y, x);
        if piece.shape[y][x] != 0 {
          var row := piece.y + y;
          if !(0 <= row < |g|) {
            return Throws;
          }
          var col := piece.x + x;
          if 0 <= col < |g[row]| {
            g := g[row := g[row][col := Filled(piece.color)]];
          }
        }
        x := x + 1;
      }
      r := Done(g);
    }

    // The search as written.

    /** `rotatePiece(piece, board)` on the copy: the copy has no `rotate`
        method, so the call throws. */
    method RotatePiece(piece: PieceData, board: Grid) returns (thrown: bool)
      ensures thrown
    {
      thrown := true;
    }

    /** `simulateGameState(rotation, translation)`: copies of the grid and
        the piece are turned, moved, dropped and locked; the game itself is
        not touched. The board it returns has no `width` or `height`. */
    method SimulateGameState(rotation: nat, translation: int) returns (r: Outcome<BoardView>)
      requires game.Valid()
      ensures rotation > 0 ==> r == Throws
      ensures rotation == 0 ==> r == match Dropped(Translated(Clone(game.currentPiece), translation, game.board.grid),
                                                   game.board.grid)
                                      case Throws => Throws
                                      case Done(g) => Done(BoardView(None, None, g))
    {
      var simulatedBoard := game.board.grid;
      var simulatedPiece := Clone(game.currentPiece);
      // `for (i = 0; i < rotation; i++) rotatePiece(...)`: the first call
      // throws, so the loop never gets past it.
      if 0 < rotation {
        var thrown := RotatePiece(simulatedPiece, simulatedBoard);
        if thrown {
          return Throws;
        }
      }
      simulatedPiece := Translated(simulatedPiece, translation, simulatedBoard);
      var locked := DropPiece(simulatedPiece, simulatedBoard);
      if locked.Throws? {
        return Throws;
      }
      r := Done(BoardView(None, None, locked.value));
    }

    /** `evaluateMove(rotation, translation)`: every board it scores lacks
        its dimensions, so every score is 0. */
    method EvaluateMove(rotation: nat, translation: int) returns (r: Outcome<real>)
      requires game.Valid()
      ensures rotation > 0 ==> r == Throws
      ensures r.Done? ==> r.value == 0.0
    {
      var simulatedGame := SimulateGameState(rotation, translation);
      if simulatedGame.Throws? {
        return Throws;
      }
      var score := EvaluateBoard(simulatedGame.value);
      r := Done(score);
    }

    /** `findBestMove()`: the search throws, at rotation 1 at the latest,
        because every simulation of a turned piece throws; it never returns
        a move. */
    method FindBestMove() returns (r: Outcome<Move>)
      requires game.Valid()
      ensures r == Throws
    {
      var bestScore: Option<real> := None;
      var bestMove := Move(0, 0);
      var rotation := 0;
      while rotation < 4
        invariant rotation <= 1
      {
        var translation := -5;
        while translation <= 5
          invariant -5 <= translation <= 6
          invariant rotation == 1 ==> translation == -5
        {
          var score := EvaluateMove(rotation, translation);
          if score.Throws? {
            return Throws;
          }
          if bestScore.None? || score.value > bestScore.value {
            bestScore := Some(score.value);
            bestMove := Move(rotation, translation);
          }
          translation := translation + 1;
        }
        rotation := rotation + 1;
      }
      assert false;
    }

    // The search as intended.

    /** `simulateGameState` with a working `rotate` and a simulated board
        that keeps the game board's dimensions. */
    method SimulateFixed(rotation: nat, translation: int) returns (r: Outcome<BoardView>)
      requires Ready(game)
      ensures r == Simulated(Clone(game.currentPiece), game.board.grid, rotation, translation)
    {
      var simulatedBoard := game.board.grid;
      var simulatedPiece := TurnPiece(Clone(game.currentPiece), simulatedBoard, rotation);
      simulatedPiece := Translated(simulatedPiece, translation, simulatedBoard);
      var locked := DropPiece(simulatedPiece, simulatedBoard);
      if locked.Throws? {
        return Throws;
      }
      LockedShape(simulatedPiece.(y := Landing(simulatedPiece, simulatedBoard) - 1), simulatedBoard, game.board.width);
      r := Done(BoardView(Some(game.board.width), Some(game.board.height), locked.value));
    }

    /** The `rotatePiece` loop of the intended `simulateGameState`. */
    static method TurnPiece(piece: PieceData, board: Grid, rotation: nat) returns (q: PieceData)
      requires Rect(piece.shape) && HasBlock(piece.shape) && Rectangular(board)
      ensures q == Turned(piece, board, rotation)
    {
      q := piece;
      var i := 0;
      while i < rotation
        invariant i <= rotation && q == Turned(piece, board, i)
      {
        q := RotatedFixed(q, board);
        i := i + 1;
      }
    }

    /** `evaluateMove` over the intended simulation. */
    method EvaluateMoveFixed(k: nat) returns (r: Outcome<real>)
      requires Ready(game)
      ensures r == CandidateScore(Clone(game.currentPiece), game.board.grid, k)
    {
      var simulatedGame := SimulateFixed(Candidate(k).rotation, Candidate(k).translation);
      if simulatedGame.Throws? {
        return Throws;
      }
      var score := EvaluateBoard(simulatedGame.value);
      r := Done(score);
    }

    /** `evaluateMove` of candidate `k`, read as the `k`-th intended score. */
    method ScoreCandidate(ghost s: seq<Outcome<real>>, k: nat) returns (r: Outcome<real>)
      requires Ready(game) && k < 44
      requires s == Scores(Clone(game.currentPiece), game.board.grid)
      ensures r == s[k]
    {
      r := EvaluateMoveFixed(k);
    }

    /** The comparison in the `findBestMove` loop body: candidate
        `(rotation, translation)` scored `score`, and it is kept when it beats
        the best so far. */
    static method Keep(ghost s: seq<Outcome<real>>, rotation: nat, translation: int, score: real,
                       bestScore: Option<real>, bestMove: Move, ghost b: nat)
      returns (best': Option<real>, move': Move, ghost b': nat)
      requires |s| == 44 && rotation < 4 && -5 <= translation <= 5
      requires s[rotation * 11 + translation + 5] == Done(score)
      requires Searched(s, rotation * 11 + translation + 5, bestScore, bestMove, b)
      ensures Searched(s, rotation * 11 + translation + 6, best', move', b')
    {
      ghost var k := rotation * 11 + translation + 5;
      assert Candidate(k) == Move(rotation, translation);
      best', move', b' := bestScore, bestMove, b;
      if bestScore.None? || score > bestScore.value {
        best' := Some(score);
        move' := Move(rotation, translation);
        b' := k;
      }
      SearchStep(s, k, bestScore, bestMove, b, best', move', b');
    }

    /** The inner loop of the intended `findBestMove`: every translation for
        one rotation. */
    method TryTranslations(ghost s: seq<Outcome<real>>, rotation: nat, bestScore: Option<real>, bestMove: Move, ghost b: nat)
      returns (thrown: bool, best': Option<real>, move': Move, ghost b': nat)
      requires Ready(game) && rotation < 4
      requires s == Scores(Clone(game.currentPiece), game.board.grid)
      requires Searched(s, rotation * 11, bestScore, bestMove, b)
      ensures thrown ==> exists k :: rotation * 11 <= k < rotation * 11 + 11 && s[k].Throws?
      ensures !thrown ==> Searched(s, rotation * 11 + 11, best', move', b')
    {
      best', move', b' := bestScore, bestMove, b;
      var translation := -5;
      ghost var k := rotation * 11;
      while translation <= 5
        invariant -5 <= translation <= 6 && k == rotation * 11 + translation + 5
        invariant Searched(s, k, best', move', b')
      {
        thrown, best', move', b' := TryTranslation(s, rotation, translation, k, best', move', b');
        if thrown {
          return;
        }
        translation := translation + 1;
        k := k + 1;
      }
      thrown := false;
    }

    /** One turn of the inner loop of the intended `findBestMove`: the
        candidate `(rotation, translation)` is scored, and kept when it beats
        the best so far. */
    method TryTranslation(ghost s: seq<Outcome<real>>, rotation: nat, translation: int, ghost k: nat,
                          bestScore: Option<real>, bestMove: Move, ghost b: nat)
      returns (thrown: bool, best': Option<real>, move': Move, ghost b': nat)
      requires Ready(game) && rotation < 4 && -5 <= translation <= 5 && k == rotation * 11 + translation + 5
      requires s == Scores(Clone(game.currentPiece), game.board.grid)
      requires Searched(s, k, bestScore, bestMove, b)
      ensures thrown ==> exists j :: rotation * 11 <= j < rotation * 11 + 11 && s[j].Throws?
      ensures !thrown ==> Searched(s, k + 1, best', move', b')
    {
      best', move', b' := bestScore, bestMove, b;
      var score := ScoreCandidate(s, rotation * 11 + translation + 5);
      thrown := score.Throws?;
      if !thrown {
        best', move', b' := Keep(s, rotation, translation, score.value, bestScore, bestMove, b);
      }
    }

    /** `findBestMove` over the intended simulation: the first candidate, in
        loop order, with the highest score; an exception in any simulation
        ends the search. */
    method FindBestMoveFixed() returns (r: Outcome<Move>)
      requires game.Valid()
      ensures var s := Scores(Clone(game.currentPiece), game.board.grid);
              r.Throws? <==> exists k :: 0 <= k < 44 && s[k].Throws?
      ensures var s := Scores(Clone(game.currentPiece), game.board.grid);
              r.Done? ==> exists b :: r.value == Candidate(b) && FirstBest(s, b)
    {
      assert Ready(game);
      ghost var s := Scores(Clone(game.currentPiece), game.board.grid);
      var bestScore: Option<real> := None;
      var bestMove := Move(0, 0);
      ghost var b := 0;
      var rotation := 0;
      while rotation < 4
        invariant 0 <= rotation <= 4
        invariant Searched(s, rotation * 11, bestScore, bestMove, b)
      {
        var thrown;
        thrown, bestScore, bestMove, b := TryTranslations(s, rotation, bestScore, bestMove, b);
        if thrown {
          return Throws;
        }
        rotation := rotation + 1;
      }
      SearchDone(s, bestScore, bestMove, b);
      r := Done(bestMove);
    }
  }
}
