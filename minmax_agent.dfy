/**
  The standalone minimax agent: a game object that owns a board of
  characters ('X' the AI, 'O' the human, '-' empty) whose row 0 is the TOP
  row, so that a dropped piece comes to rest in the largest empty row.

  Its move choice takes a winning drop if one exists, otherwise blocks the
  human's winning drop, and otherwise scores every open column by a
  look-ahead search and plays the first column with the best score. The
  search's own score (an average of floating-point heuristic values) is
  not modelled: it is the parameter `search`, which receives the game's
  board, the board after the AI's drop, the depth and whose turn it is.
*/
module MinmaxAgent {
  import opened Grid

  const AiPlayer := 'X'
  const HumanPlayer := 'O'
  const EmptySlot := '-'

  type CharBoard = seq<seq<char>>

  /** The look-ahead score of a board, left abstract. */
  type SearchScore = (CharBoard, CharBoard, nat, bool) -> real

  /** No floating pieces on a board whose row 0 is the top: every cell above an empty cell is empty. */
  ghost predicate TopGravity(b: CharBoard)
    requires IsBoard(b)
  {
    forall c, r, k :: 0 <= c < Cols && 0 <= k <= r < Rows && b[r][c] == EmptySlot ==> b[k][c] == EmptySlot
  }

  // ---------------------------------------------------------------------
  // _is_valid_column and _get_next_open_row
  // ---------------------------------------------------------------------

  /** A column on the board whose top cell is still empty; `_get_next_open_row` then finds a row. */
  predicate ValidColumn(b: CharBoard, col: int)
    requires IsBoard(b)
    ensures ValidColumn(b, col) ==> 0 <= col < Cols && OpenRow(b, col) >= 0
  {
    0 <= col < Cols && b[0][col] == EmptySlot
  }

  /** The scan from row `r` towards the top for an empty cell of column `col`; -1 when there is none. */
  function OpenRowFrom(b: CharBoard, col: int, r: int): (row: int)
    requires IsBoard(b) && 0 <= col < Cols && -1 <= r < Rows
    ensures -1 <= row <= r
    ensures r >= 0 && b[0][col] == EmptySlot ==> row >= 0
    decreases r + 1
  {
    if r < 0 then -1
    else if b[r][col] == EmptySlot then r
    else OpenRowFrom(b, col, r - 1)
  }

  /** Where a piece dropped into column `col` comes to rest, or -1. */
  function OpenRow(b: CharBoard, col: int): int
    requires IsBoard(b) && 0 <= col < Cols
  {
    OpenRowFrom(b, col, Rows - 1)
  }

  lemma {:induction false} OpenRowFromIsLargest(b: CharBoard, col: int, r: int)
    requires IsBoard(b) && 0 <= col < Cols && -1 <= r < Rows
    ensures var row := OpenRowFrom(b, col, r);
            (row == -1 <==> forall k :: 0 <= k <= r ==> b[k][col] != EmptySlot) &&
            (row >= 0 ==> b[row][col] == EmptySlot && forall k :: row < k <= r ==> b[k][col] != EmptySlot)
    decreases r + 1
  {
    if r >= 0 && b[r][col] != EmptySlot {
      OpenRowFromIsLargest(b, col, r - 1);
    }
  }

  /**
    The open row is the largest row whose cell is empty, and it is -1
    exactly when the column has no empty cell.
  */
  lemma OpenRowIsLargest(b: CharBoard, col: int)
    requires IsBoard(b) && 0 <= col < Cols
    ensures OpenRow(b, col) == -1 <==> forall k :: 0 <= k < Rows ==> b[k][col] != EmptySlot
    ensures OpenRow(b, col) >= 0 ==>
              b[OpenRow(b, col)][col] == EmptySlot &&
              forall k :: OpenRow(b, col) < k < Rows ==> b[k][col] != EmptySlot
  {
    OpenRowFromIsLargest(b, col, Rows - 1);
  }

  /**
    On a board without floating pieces, a column in range is valid exactly
    when it has an open row: the top cell is the last to fill.
  */
  lemma ValidColumnIffOpen(b: CharBoard, col: int)
    requires IsBoard(b) && TopGravity(b) && 0 <= col < Cols
    ensures ValidColumn(b, col) <==> OpenRow(b, col) != -1
  {
    OpenRowIsLargest(b, col);
    if OpenRow(b, col) != -1 {
      assert b[0][col] == EmptySlot;
    }
  }

  // ---------------------------------------------------------------------
  // _is_winning_move
  // ---------------------------------------------------------------------

  /** One of the four axes a line can take, as a step of `dr` rows and `dc` columns. */
  datatype Axis = Axis(dr: int, dc: int)

  /** Across, down, `\` and `/` (row 0 at the top). */
  const Directions: seq<Axis> := [Axis(0, 1), Axis(1, 0), Axis(1, 1), Axis(1, -1)]

  /** `d * i` for a step component `d` in -1..1, written without a product. */
  function Times(d: int, i: int): int {
    if d == 0 then 0 else if d > 0 then i else -i
  }

  /** The cell `i` steps from `(row, col)` along `a` (against it when `i` is negative). */
  function CellAt(row: int, col: int, a: Axis, i: int): Move {
    Move(row + Times(a.dr, i), col + Times(a.dc, i))
  }

  /** The cell is on the board and holds `player`. */
  predicate HoldsAt(b: CharBoard, m: Move, player: char)
    requires IsBoard(b)
  {
    InBounds(m.row, m.col) && b[m.row][m.col] == player
  }

  /** The step `i` along `a` when `forward`, against it otherwise. */
  function Signed(forward: bool, i: int): int {
    if forward then i else -i
  }

  /**
    How many of steps `i`..3 from `(row, col)`, taken in turn along `a`
    (or against it), hold `player` before the first that does not or that
    is off the board.
  */
  function Streak(b: CharBoard, row: int, col: int, a: Axis, forward: bool, player: char, i: int): (n: nat)
    requires IsBoard(b) && 1 <= i <= 4
    ensures n <= 4 - i
    decreases 4 - i
  {
    if i == 4 then 0
    else if HoldsAt(b, CellAt(row, col, a, Signed(forward, i)), player) then 1 + Streak(b, row, col, a, forward, player, i + 1)
    else 0
  }

  /** The move's own cell plus the pieces on both sides of it along `a`. */
  function LineCount(b: CharBoard, row: int, col: int, a: Axis, player: char): int
    requires IsBoard(b)
  {
    1 + Streak(b, row, col, a, true, player, 1) + Streak(b, row, col, a, false, player, 1)
  }

  /** Playing `player` at `(row, col)` makes a line of at least four along one of the axes. */
  predicate WinningMove(b: CharBoard, row: int, col: int, player: char)
    requires IsBoard(b)
  {
    exists k :: 0 <= k < 4 && LineCount(b, row, col, Directions[k], player) >= 4
  }

  /**
    Four cells in a line along axis `k` through `(row, col)`, the move being
    the `j`-th of them, all hold `player`.
  */
  ghost predicate FourThrough(b: CharBoard, row: int, col: int, player: char, k: int, j: int)
    requires IsBoard(b) && 0 <= k < 4
  {
    forall i :: -j <= i <= 3 - j ==> HoldsAt(b, CellAt(row, col, Directions[k], i), player)
  }

  /** Some four cells in a line that pass through `(row, col)` all hold `player`. */
  ghost predicate FourInLine(b: CharBoard, row: int, col: int, player: char)
    requires IsBoard(b)
  {
    exists k, j :: 0 <= k < 4 && 0 <= j < 4 && FourThrough(b, row, col, player, k, j)
  }

  /** A streak counts consecutive cells: every step it counts holds `player`. */
  lemma {:induction false} StreakHolds(b: CharBoard, row: int, col: int, a: Axis, forward: bool, player: char, i: int)
    requires IsBoard(b) && 1 <= i <= 4
    ensures forall s :: i <= s < i + Streak(b, row, col, a, forward, player, i) ==>
              HoldsAt(b, CellAt(row, col, a, Signed(forward, s)), player)
    decreases 4 - i
  {
    if i < 4 && HoldsAt(b, CellAt(row, col, a, Signed(forward, i)), player) {
      StreakHolds(b, row, col, a, forward, player, i + 1);
    }
  }

  /** Steps `i`..`n` all holding `player` make a streak of at least `n - i + 1`. */
  lemma {:induction false} StreakAtLeast(b: CharBoard, row: int, col: int, a: Axis, forward: bool, player: char, i: int, n: int)
    requires IsBoard(b) && 1 <= i <= 4 && n <= 3
    requires forall s :: i <= s <= n ==> HoldsAt(b, CellAt(row, col, a, Signed(forward, s)), player)
    ensures Streak(b, row, col, a, forward, player, i) >= n - i + 1
    decreases 4 - i
  {
    if i <= n {
      StreakAtLeast(b, row, col, a, forward, player, i + 1, n);
    }
  }

  /** Only the move's own cell is `(row, col)`: every other step of an axis is elsewhere. */
  lemma OffCentre(row: int, col: int, k: int, i: int)
    requires 0 <= k < 4 && i != 0
    ensures CellAt(row, col, Directions[k], i) != Move(row, col)
  {
  }

  /**
    The axis count of `_is_winning_move` and four in a row agree: the count
    reaches four exactly when, with `player` placed on `(row, col)`, four
    cells in a line through it hold `player`.
  */
  lemma WinningMoveIffFour(b: CharBoard, row: int, col: int, player: char)
    requires IsBoard(b) && InBounds(row, col)
    ensures WinningMove(b, row, col, player) <==> FourInLine(Set(b, row, col, player), row, col, player)
  {
    var b' := Set(b, row, col, player);
    forall k, i | 0 <= k < 4 && i != 0
      ensures HoldsAt(b', CellAt(row, col, Directions[k], i), player) == HoldsAt(b, CellAt(row, col, Directions[k], i), player)
    {
      OffCentre(row, col, k, i);
    }
    if WinningMove(b, row, col, player) {
      var k :| 0 <= k < 4 && LineCount(b, row, col, Directions[k], player) >= 4;
      var a := Directions[k];
      var f := Streak(b, row, col, a, true, player, 1);
      var g := Streak(b, row, col, a, false, player, 1);
      StreakHolds(b, row, col, a, true, player, 1);
      StreakHolds(b, row, col, a, false, player, 1);
      var j: int := if g < 3 then g else 3;
      forall i | -j <= i <= 3 - j
        ensures HoldsAt(b', CellAt(row, col, a, i), player)
      {
        if i < 0 {
          assert CellAt(row, col, a, i) == CellAt(row, col, a, Signed(false, -i));
        } else if i > 0 {
          assert CellAt(row, col, a, i) == CellAt(row, col, a, Signed(true, i));
        }
      }
      assert FourThrough(b', row, col, player, k, j);
    }
    if FourInLine(b', row, col, player) {
      var k, j :| 0 <= k < 4 && 0 <= j < 4 && FourThrough(b', row, col, player, k, j);
      var a := Directions[k];
      forall s | 1 <= s <= 3 - j
        ensures HoldsAt(b, CellAt(row, col, a, Signed(true, s)), player)
      {
        assert HoldsAt(b', CellAt(row, col, a, s), player);
      }
      forall s | 1 <= s <= j
        ensures HoldsAt(b, CellAt(row, col, a, Signed(false, s)), player)
      {
        assert HoldsAt(b', CellAt(row, col, a, -s), player);
      }
      StreakAtLeast(b, row, col, a, true, player, 1, 3 - j);
      StreakAtLeast(b, row, col, a, false, player, 1, j);
      assert LineCount(b, row, col, a, player) >= 4;
    }
  }

  lemma {:induction false} StreakIgnoresCentre(b: CharBoard, row: int, col: int, k: int, forward: bool, player: char, i: int, v: char)
    requires IsBoard(b) && InBounds(row, col) && 0 <= k < 4 && 1 <= i <= 4
    ensures Streak(Set(b, row, col, v), row, col, Directions[k], forward, player, i) ==
            Streak(b, row, col, Directions[k], forward, player, i)
    decreases 4 - i
  {
    if i < 4 {
      var m := CellAt(row, col, Directions[k], Signed(forward, i));
      OffCentre(row, col, k, Signed(forward, i));
      if InBounds(m.row, m.col) {
        assert Set(b, row, col, v)[m.row][m.col] == b[m.row][m.col];
      }
      assert HoldsAt(Set(b, row, col, v), m, player) == HoldsAt(b, m, player);
      StreakIgnoresCentre(b, row, col, k, forward, player, i + 1, v);
    }
  }

  /** `_is_winning_move` never reads the cell of the move itself. */
  lemma WinningMoveIgnoresCentre(b: CharBoard, row: int, col: int, player: char, v: char)
    requires IsBoard(b) && InBounds(row, col)
    ensures WinningMove(Set(b, row, col, v), row, col, player) == WinningMove(b, row, col, player)
  {
    forall k, forward: bool | 0 <= k < 4
      ensures Streak(Set(b, row, col, v), row, col, Directions[k], forward, player, 1) ==
              Streak(b, row, col, Directions[k], forward, player, 1)
    {
      StreakIgnoresCentre(b, row, col, k, forward, player, 1, v);
    }
  }

  // ---------------------------------------------------------------------
  // find_ai_move
  // ---------------------------------------------------------------------

  /** A valid column whose landing cell wins for `player`. */
  predicate LandingWins(b: CharBoard, player: char, c: int)
    requires IsBoard(b)
  {
    ValidColumn(b, c) && WinningMove(b, OpenRow(b, c), c, player)
  }

  /** For each column, whether its landing cell wins for `player`. */
  function LandingFlags(b: CharBoard, player: char): (flags: seq<bool>)
    requires IsBoard(b)
    ensures |flags| == Cols && forall c :: 0 <= c < Cols ==> flags[c] == LandingWins(b, player, c)
  {
    seq(Cols, c requires 0 <= c < Cols => LandingWins(b, player, c))
  }

  /** The scan from `c` on for the first flag that is set. */
  function FirstSet(flags: seq<bool>, c: nat): Option<int>
    requires c <= |flags|
    decreases |flags| - c
  {
    if c == |flags| then None
    else if flags[c] then Some(c)
    else FirstSet(flags, c + 1)
  }

  lemma {:induction false} FirstSetIsFirst(flags: seq<bool>, c: nat)
    requires c <= |flags|
    ensures FirstSet(flags, c).None? <==> forall x :: c <= x < |flags| ==> !flags[x]
    ensures FirstSet(flags, c).Some? ==>
              var x := FirstSet(flags, c).value;
              c <= x < |flags| && flags[x] && forall y :: c <= y < x ==> !flags[y]
    decreases |flags| - c
  {
    if c < |flags| && !flags[c] {
      FirstSetIsFirst(flags, c + 1);
    }
  }

  /** The first valid column whose landing cell wins for `player`. */
  function FirstLandingWin(b: CharBoard, player: char): Option<int>
    requires IsBoard(b)
  {
    FirstSet(LandingFlags(b, player), 0)
  }

  lemma FirstLandingWinIsFirst(b: CharBoard, player: char)
    requires IsBoard(b)
    ensures FirstLandingWin(b, player).None? <==> forall x :: 0 <= x < Cols ==> !LandingWins(b, player, x)
    ensures FirstLandingWin(b, player).Some? ==>
              var x := FirstLandingWin(b, player).value;
              0 <= x < Cols && LandingWins(b, player, x) &&
              forall y :: 0 <= y < x ==> !LandingWins(b, player, y)
  {
    FirstSetIsFirst(LandingFlags(b, player), 0);
  }

  /**
    The score the search loop gives the valid column `col`: -5000 when the
    AI's piece would let the human win on the cell above it, the search's
    score of the board after the drop otherwise.
  */
  function ColumnScore(b: CharBoard, col: int, depth: nat, search: SearchScore): real
    requires IsBoard(b) && ValidColumn(b, col)
  {
    var row := OpenRow(b, col);
    var boardCopy := Set(b, row, col, AiPlayer);
    if row > 0 && WinningMove(boardCopy, row - 1, col, HumanPlayer) then -5000.0
    else search(b, boardCopy, depth, false)
  }

  /** The best column so far and its score. */
  datatype Best = Best(col: int, score: real)

  /** The search loop's best column after columns `0..n-1`: a later column replaces it only with a larger score. */
  function BestUpTo(b: CharBoard, depth: nat, search: SearchScore, n: nat): (best: Option<Best>)
    requires IsBoard(b) && n <= Cols
    ensures best.Some? ==> 0 <= best.value.col < n
  {
    if n == 0 then None
    else
      var best := BestUpTo(b, depth, search, n - 1);
      if !ValidColumn(b, n - 1) then best
      else
        var score := ColumnScore(b, n - 1, depth, search);
        if best.None? || score > best.value.score then Some(Best(n - 1, score)) else best
  }

  /** `find_ai_move`: win, else block, else the best-scoring column, else the centre. */
  function AiMove(b: CharBoard, depth: nat, search: SearchScore): int
    requires IsBoard(b)
  {
    match FirstLandingWin(b, AiPlayer)
    case Some(c) => c
    case None =>
      match FirstLandingWin(b, HumanPlayer)
      case Some(c) => c
      case None =>
        match BestUpTo(b, depth, search, Cols)
        case Some(best) => best.col
        case None => 3
  }

  /**
    `best` is the first of columns `0..n-1` with the largest score: it is
    valid and carries its own score, no valid column scores more, and every
    valid column before it scores less.
  */
  ghost predicate FirstBest(b: CharBoard, depth: nat, search: SearchScore, n: nat, best: Best)
    requires IsBoard(b)
  {
    0 <= best.col < n && ValidColumn(b, best.col) &&
    best.score == ColumnScore(b, best.col, depth, search) &&
    (forall c :: 0 <= c < n && ValidColumn(b, c) ==> ColumnScore(b, c, depth, search) <= best.score) &&
    (forall c :: 0 <= c < best.col && ValidColumn(b, c) ==> ColumnScore(b, c, depth, search) < best.score)
  }

  /** A column that does not beat the best keeps it the best. */
  lemma FirstBestKept(b: CharBoard, depth: nat, search: SearchScore, n: nat, best: Best)
    requires IsBoard(b) && 0 < n <= Cols && FirstBest(b, depth, search, n - 1, best)
    requires ValidColumn(b, n - 1) ==> ColumnScore(b, n - 1, depth, search) <= best.score
    ensures FirstBest(b, depth, search, n, best)
  {
    forall c | 0 <= c < n && ValidColumn(b, c)
      ensures ColumnScore(b, c, depth, search) <= best.score
    {
      if c < n - 1 {
        assert 0 <= c < n - 1;
      }
    }
  }

  /** A column that beats the best, or the first valid one, becomes the best. */
  lemma FirstBestReplaced(b: CharBoard, depth: nat, search: SearchScore, n: nat, prev: Option<Best>)
    requires IsBoard(b) && 0 < n <= Cols && ValidColumn(b, n - 1)
    requires prev.None? ==> forall c :: 0 <= c < n - 1 ==> !ValidColumn(b, c)
    requires prev.Some? ==> FirstBest(b, depth, search, n - 1, prev.value) &&
                            ColumnScore(b, n - 1, depth, search) > prev.value.score
    ensures FirstBest(b, depth, search, n, Best(n - 1, ColumnScore(b, n - 1, depth, search)))
  {
  }

  /** The search loop keeps the first column with the largest score. */
  lemma {:induction false} BestUpToIsFirstMax(b: CharBoard, depth: nat, search: SearchScore, n: nat)
    requires IsBoard(b) && n <= Cols
    ensures BestUpTo(b, depth, search, n).Some? ==> FirstBest(b, depth, search, n, BestUpTo(b, depth, search, n).value)
  {
    if n > 0 {
      BestUpToIsFirstMax(b, depth, search, n - 1);
      BestUpToNone(b, depth, search, n - 1);
      var prev := BestUpTo(b, depth, search, n - 1);
      if ValidColumn(b, n - 1) {
        var score := ColumnScore(b, n - 1, depth, search);
        if prev.None? || score > prev.value.score {
          FirstBestReplaced(b, depth, search, n, prev);
        } else {
          FirstBestKept(b, depth, search, n, prev.value);
        }
      } else if prev.Some? {
        FirstBestKept(b, depth, search, n, prev.value);
      }
    }
  }

  /** The search loop finds no column exactly when none of columns `0..n-1` is valid. */
  lemma {:induction false} BestUpToNone(b: CharBoard, depth: nat, search: SearchScore, n: nat)
    requires IsBoard(b) && n <= Cols
    ensures BestUpTo(b, depth, search, n).None? <==> forall c :: 0 <= c < n ==> !ValidColumn(b, c)
  {
    if n > 0 {
      BestUpToNone(b, depth, search, n - 1);
    }
  }

  /** A winning drop for the AI is always taken, and the leftmost one. */
  lemma AiMoveTakesWin(b: CharBoard, depth: nat, search: SearchScore, c: int)
    requires IsBoard(b) && LandingWins(b, AiPlayer, c)
    ensures var m := AiMove(b, depth, search);
            m <= c && LandingWins(b, AiPlayer, m) &&
            forall y :: 0 <= y < m ==> !LandingWins(b, AiPlayer, y)
  {
    FirstLandingWinIsFirst(b, AiPlayer);
  }

  /** Without a winning drop, the human's leftmost winning drop is blocked. */
  lemma AiMoveBlocks(b: CharBoard, depth: nat, search: SearchScore, c: int)
    requires IsBoard(b) && LandingWins(b, HumanPlayer, c)
    requires forall x :: 0 <= x < Cols ==> !LandingWins(b, AiPlayer, x)
    ensures var m := AiMove(b, depth, search);
            m <= c && LandingWins(b, HumanPlayer, m) &&
            forall y :: 0 <= y < m ==> !LandingWins(b, HumanPlayer, y)
  {
    FirstLandingWinIsFirst(b, AiPlayer);
    FirstLandingWinIsFirst(b, HumanPlayer);
  }

  /**
    With neither kind of winning drop, the move is the first valid column
    with the largest score.
  */
  lemma AiMoveSearches(b: CharBoard, depth: nat, search: SearchScore, c: int)
    requires IsBoard(b) && ValidColumn(b, c)
    requires forall x :: 0 <= x < Cols ==> !LandingWins(b, AiPlayer, x) && !LandingWins(b, HumanPlayer, x)
    ensures var m := AiMove(b, depth, search);
            ValidColumn(b, m) &&
            ColumnScore(b, c, depth, search) <= ColumnScore(b, m, depth, search) &&
            forall y :: 0 <= y < m && ValidColumn(b, y) ==> ColumnScore(b, y, depth, search) < ColumnScore(b, m, depth, search)
  {
    FirstLandingWinIsFirst(b, AiPlayer);
    FirstLandingWinIsFirst(b, HumanPlayer);
    BestUpToNone(b, depth, search, Cols);
    BestUpToIsFirstMax(b, depth, search, Cols);
  }

  /**
    The move is a valid column whenever one exists, and the centre column 3
    only when none does (or 3 is itself the choice).
  */
  lemma AiMoveIsValid(b: CharBoard, depth: nat, search: SearchScore)
    requires IsBoard(b)
    ensures (exists c :: ValidColumn(b, c)) ==> ValidColumn(b, AiMove(b, depth, search))
    ensures (forall c :: !ValidColumn(b, c)) ==> AiMove(b, depth, search) == 3
  {
    FirstLandingWinIsFirst(b, AiPlayer);
    FirstLandingWinIsFirst(b, HumanPlayer);
    BestUpToNone(b, depth, search, Cols);
    BestUpToIsFirstMax(b, depth, search, Cols);
  }

  /** The search depth a game gets when it is created without one. */
  const DefaultDepth: nat := 5

  /** The game: the board it owns and the search depth it was created with. */
  class ConnectFourGame {
    var board: array2<char>
    var aiSearchDepth: nat

    ghost predicate Valid()
      reads this
    {
      IsGrid(board)
    }

    constructor (aiDepth: nat)
      ensures Valid() && fresh(board) && aiSearchDepth == aiDepth
      ensures forall r, c :: InBounds(r, c) ==> board[r, c] == EmptySlot
    {
      aiSearchDepth := aiDepth;
      board := new char[Rows, Cols]((r, c) => EmptySlot);
    }

    /** A game created without a depth searches `DefaultDepth` plies. */
    constructor Default()
      ensures Valid() && fresh(board) && aiSearchDepth == DefaultDepth
      ensures forall r, c :: InBounds(r, c) ==> board[r, c] == EmptySlot
    {
      aiSearchDepth := DefaultDepth;
      board := new char[Rows, Cols]((r, c) => EmptySlot);
    }

    /** `_get_next_open_row`: the rows from the bottom (row 5) upwards, stopping at the first empty cell. */
    method GetNextOpenRow(col: int) returns (row: int)
      requires Valid() && 0 <= col < Cols
      ensures row == OpenRow(Snapshot(board), col)
    {
      ghost var b := Snapshot(board);
      var r := Rows - 1;
      while r >= 0
        invariant -1 <= r < Rows
        invariant OpenRowFrom(b, col, r) == OpenRow(b, col)
      {
        if board[r, col] == EmptySlot {
          return r;
        }
        r := r - 1;
      }
      return -1;
    }

    /** The count along one axis in one direction, stopping at the first cell that is off the board or not `player`'s. */
    static method CountStreak(boardState: CharBoard, row: int, col: int, a: Axis, forward: bool, player: char)
      returns (count: nat)
      requires IsBoard(boardState)
      ensures count == Streak(boardState, row, col, a, forward, player, 1)
    {
      count := 0;
      for i := 1 to 4
        invariant count == i - 1
        invariant Streak(boardState, row, col, a, forward, player, 1) == count + Streak(boardState, row, col, a, forward, player, i)
      {
        var r := row + Times(a.dr, Signed(forward, i));
        var c := col + Times(a.dc, Signed(forward, i));
        if 0 <= r < Rows && 0 <= c < Cols && boardState[r][c] == player {
          count := count + 1;
        } else {
          break;
        }
      }
    }

    /** `_is_winning_move`: some axis holds the move and three or more of `player`'s pieces in a row. */
    static method IsWinningMove(boardState: CharBoard, row: int, col: int, player: char) returns (win: bool)
      requires IsBoard(boardState)
      ensures win == WinningMove(boardState, row, col, player)
    {
      var directions := Directions;
      for k := 0 to 4
        invariant forall j :: 0 <= j < k ==> LineCount(boardState, row, col, Directions[j], player) < 4
      {
        var forth := CountStreak(boardState, row, col, directions[k], true, player);
        var back := CountStreak(boardState, row, col, directions[k], false, player);
        var lineCount := 1 + forth + back;
        if lineCount >= 4 {
          return true;
        }
      }
      return false;
    }

    /** The first valid column whose landing cell wins for `player`, as both scans of `find_ai_move` run it. */
    method FindLandingWin(player: char) returns (found: Option<int>)
      requires Valid()
      ensures found == FirstLandingWin(Snapshot(board), player)
    {
      ghost var b := Snapshot(board);
      ghost var flags := LandingFlags(b, player);
      for col := 0 to Cols
        invariant FirstSet(flags, 0) == FirstSet(flags, col)
      {
        if board[0, col] == EmptySlot {
          var row := GetNextOpenRow(col);
          var win := IsWinningMove(Snapshot(board), row, col, player);
          if win {
            return Some(col);
          }
        }
      }
      return None;
    }

    /** The score of one valid column: the AI's drop is made on a copy of the board, never on the board itself. */
    method ScoreColumn(c: int, search: SearchScore) returns (score: real)
      requires Valid() && ValidColumn(Snapshot(board), c)
      ensures score == ColumnScore(Snapshot(board), c, aiSearchDepth, search)
    {
      var boardCopy := Snapshot(board);
      var row := GetNextOpenRow(c);
      boardCopy := Set(boardCopy, row, c, AiPlayer);
      var threat := false;
      if row > 0 {
        threat := IsWinningMove(boardCopy, row - 1, c, HumanPlayer);
      }
      if threat {
        score := -5000.0;
      } else {
        score := search(Snapshot(board), boardCopy, aiSearchDepth, false);
      }
    }

    /** The search loop of `find_ai_move`: the first valid column with the largest score, or -1. */
    method SearchColumns(search: SearchScore) returns (bestCol: int)
      requires Valid()
      ensures var best := BestUpTo(Snapshot(board), aiSearchDepth, search, Cols);
              bestCol == if best.None? then -1 else best.value.col
    {
      ghost var b := Snapshot(board);
      bestCol := -1;
      assert BestUpTo(b, aiSearchDepth, search, 0).None?;
      var bestScore: real := 0.0;  // read only once `bestCol` is set: -infinity in the source
      for c := 0 to Cols
        invariant var best := BestUpTo(b, aiSearchDepth, search, c);
                  if best.None? then bestCol == -1 else bestCol == best.value.col && bestScore == best.value.score
      {
        if board[0, c] == EmptySlot {
          var score := ScoreColumn(c, search);
          if bestCol == -1 || score > bestScore {
            bestScore := score;
            bestCol := c;
          }
        }
      }
    }

    /** `find_ai_move`: the board is read, never written. */
    method FindAiMove(search: SearchScore) returns (col: int)
      requires Valid()
      ensures col == AiMove(Snapshot(board), aiSearchDepth, search)
    {
      var win := FindLandingWin(AiPlayer);
      if win.Some? {
        return win.value;
      }
      var block := FindLandingWin(HumanPlayer);
      if block.Some? {
        return block.value;
      }
      var bestCol := SearchColumns(search);
      col := if bestCol != -1 then bestCol else 3;
    }
  }
}
