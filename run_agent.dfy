/**
  The search agent of Run_Agent.py: centre-first move generation, the
  pattern-table evaluator (every row, column and long diagonal encoded as a
  base-10 key and looked up in a score table), depth-limited alpha-beta
  over a board that is changed in place and put back, and iterative
  deepening under a wall-clock budget.

  The clock is not read here: it is a parameter `clock` that says how much
  time has elapsed at each point where the source calls `time.time()`.
*/
module RunAgent {
  import opened Grid

  /** Columns in the order the search tries them, centre first. */
  const ColumnPriority: seq<int> := [3, 2, 4, 1, 5, 0, 6]

  /** Marks a cell as "the AI could play here" during evaluation. */
  const Placeholder := 3

  /** The four score tables, one per line length 4..7 (`SCORE_TABLES`). */
  datatype ScoreTables = ScoreTables(t4: map<int, int>, t5: map<int, int>, t6: map<int, int>, t7: map<int, int>)
  {
    function For(length: int): map<int, int> {
      if length == 4 then t4 else if length == 5 then t5 else if length == 6 then t6 else if length == 7 then t7 else map[]
    }
  }

  // ---------------------------------------------------------------------
  // Line keys and table lookup
  // ---------------------------------------------------------------------

  function Pow10(n: nat): nat {
    if n == 0 then 1 else 10 * Pow10(n - 1)
  }

  /**
    The key of a line: its cells read as decimal digits, first cell most
    significant. A line of n digits has a key in 0 .. 10^n - 1.
  */
  function LineKey(line: seq<int>): (k: int)
    ensures Digits(line) ==> 0 <= k < Pow10(|line|)
  {
    if |line| == 0 then 0
    else
      assert Digits(line) ==> Digits(line[1..]) && 0 <= line[0] * Pow10(|line| - 1) <= 9 * Pow10(|line| - 1) by {
        if Digits(line) {
          DigitPlace(line[0], Pow10(|line| - 1));
        }
      }
      line[0] * Pow10(|line| - 1) + LineKey(line[1..])
  }

  /** A digit in a place of value `p` is worth between 0 and nine times `p`. */
  lemma DigitPlace(x: int, p: nat)
    requires 0 <= x <= 9
    ensures 0 <= x * p <= 9 * p
  {
  }

  /**
    `_convert_line_to_key`: the loop over the line reversed, adding the
    i-th cell from the right times 10^i, computes `LineKey`.
  */
  method ConvertLineToKey(line: seq<int>) returns (key: int)
    ensures key == LineKey(line)
  {
    var n := |line|;
    key := 0;
    var i := 0;
    while i < n
      invariant 0 <= i <= n
      invariant key == LineKey(line[n - i..])
    {
      var piece := line[n - 1 - i];
      assert line[n - 1 - i..][1..] == line[n - i..];
      key := key + Pow10(i) * piece;
      i := i + 1;
    }
    assert line[n - n..] == line;
  }

  /** The `n` decimal digits of `k`, most significant first: the inverse of `LineKey`. */
  function KeyDigits(k: int, n: nat): seq<int>
    decreases n
  {
    if n == 0 then [] else KeyDigits(k / 10, n - 1) + [k % 10]
  }

  predicate Digits(line: seq<int>) {
    forall i :: 0 <= i < |line| ==> 0 <= line[i] <= 9
  }

  /** Reading the last cell as the least significant digit. */
  lemma {:induction false} LineKeyLast(line: seq<int>)
    requires |line| > 0
    ensures LineKey(line) == 10 * LineKey(line[..|line| - 1]) + line[|line| - 1]
    decreases |line|
  {
    var n := |line|;
    if n > 1 {
      LineKeyLast(line[1..]);
      assert line[1..][..n - 2] == line[..n - 1][1..];
      assert line[1..][n - 2] == line[n - 1];
      ShiftDigit(line[0], n - 2);
    }
  }

  /** A digit one place further left is worth ten times as much. */
  lemma ShiftDigit(x: int, n: nat)
    ensures x * Pow10(n + 1) == 10 * (x * Pow10(n))
  {
    assert Pow10(n + 1) == 10 * Pow10(n);
  }

  /** Decoding the key of a line of digits gives the line back. */
  lemma {:induction false} LineKeyRoundTrip(line: seq<int>)
    requires Digits(line)
    ensures KeyDigits(LineKey(line), |line|) == line
    decreases |line|
  {
    var n := |line|;
    if n > 0 {
      var init := line[..n - 1];
      LineKeyLast(line);
      LineKeyRoundTrip(init);
      var k := LineKey(line);
      assert k / 10 == LineKey(init) && k % 10 == line[n - 1];
      assert init + [line[n - 1]] == line;
    }
  }

  /** Two lines of the same length share a key only if they are equal. */
  lemma LineKeyInjective(x: seq<int>, y: seq<int>)
    requires Digits(x) && Digits(y) && |x| == |y|
    requires LineKey(x) == LineKey(y)
    ensures x == y
  {
    LineKeyRoundTrip(x);
    LineKeyRoundTrip(y);
  }

  /** The line with every placeholder read as empty. */
  function Unmarked(line: seq<int>): seq<int> {
    seq(|line|, i requires 0 <= i < |line| => if line[i] == Placeholder then 0 else line[i])
  }

  /**
    `_get_line_score`: the entry for the exact key, else the entry for the
    line with its placeholders read as empty, else 0.
  */
  function LineScore(line: seq<int>, table: map<int, int>): (score: int)
    ensures score == 0 || score in table.Values
  {
    var primary := LineKey(line);
    if primary in table then table[primary]
    else
      var fallback := LineKey(Unmarked(line));
      if fallback in table then table[fallback] else 0
  }

  /** Without placeholders, the lookup is plain `table.get(key, 0)`. */
  lemma LineScoreWithoutPlaceholder(line: seq<int>, table: map<int, int>)
    requires Placeholder !in line
    ensures LineScore(line, table) == if LineKey(line) in table then table[LineKey(line)] else 0
  {
    assert Unmarked(line) == line;
  }

  /** A line with placeholders whose exact key is missing scores like its unmarked line. */
  lemma LineScoreFallsBack(line: seq<int>, table: map<int, int>)
    requires LineKey(line) !in table
    ensures LineScore(line, table) == LineScore(Unmarked(line), table)
  {
    assert Unmarked(Unmarked(line)) == Unmarked(line);
  }

  // ---------------------------------------------------------------------
  // Move generation
  // ---------------------------------------------------------------------

  predicate ColumnsInRange(cols: seq<int>) {
    forall i :: 0 <= i < |cols| ==> 0 <= cols[i] < Cols
  }

  /**
    The landing cell of each non-full column of `cols`, in the order of
    `cols`: what the append loop of `get_prioritized_moves` builds.
  */
  ghost function MovesIn(b: Board, cols: seq<int>): (ms: seq<Move>)
    requires IsBoard(b) && ColumnsInRange(cols)
    ensures |ms| <= |cols|
    ensures forall k :: 0 <= k < |ms| ==> Playable(b, ms[k].row, ms[k].col) && ms[k].col in cols
  {
    if |cols| == 0 then []
    else
      MovesIn(b, cols[..|cols| - 1]) + Landing(b, cols[|cols| - 1])
  }

  /** The landing cell of column `c` as a list: empty when the column is full. */
  function Landing(b: Board, c: int): (ms: seq<Move>)
    requires IsBoard(b) && 0 <= c < Cols
    ensures |ms| <= 1
    ensures forall k :: 0 <= k < |ms| ==> Playable(b, ms[k].row, ms[k].col) && ms[k].col == c
  {
    match LowestEmpty(b, c)
    case Some(r) => [Move(r, c)]
    case None => []
  }

  /** Scanning one more column appends that column's landing cell. */
  lemma MovesInStep(b: Board, cols: seq<int>, k: nat)
    requires IsBoard(b) && ColumnsInRange(cols) && k < |cols|
    ensures MovesIn(b, cols[..k + 1]) == MovesIn(b, cols[..k]) + Landing(b, cols[k])
  {
    assert cols[..k + 1][..k] == cols[..k];
  }

  /** The priority order names every column once. */
  lemma ColumnPriorityIsPermutation()
    ensures |ColumnPriority| == Cols && ColumnsInRange(ColumnPriority)
    ensures forall c :: 0 <= c < Cols ==> c in ColumnPriority
    ensures forall i, j :: 0 <= i < j < |ColumnPriority| ==> ColumnPriority[i] != ColumnPriority[j]
  {
    assert ColumnPriority[5] == 0 && ColumnPriority[3] == 1 && ColumnPriority[1] == 2;
  }

  ghost function PrioritizedMoves(b: Board): seq<Move>
    requires IsBoard(b)
  {
    MovesIn(b, ColumnPriority)
  }

  /**
    `MovesIn` holds a move in every non-full column of `cols`. (The
    converse, that every move lands in a non-full column, is part of
    `MovesIn`'s own contract.)
  */
  lemma {:induction false} MovesInCovers(b: Board, cols: seq<int>, x: int)
    requires IsBoard(b) && ColumnsInRange(cols) && x in cols && LowestEmpty(b, x).Some?
    ensures exists k :: 0 <= k < |MovesIn(b, cols)| && MovesIn(b, cols)[k].col == x
    decreases |cols|
  {
    var init := cols[..|cols| - 1];
    var c := cols[|cols| - 1];
    var ms := MovesIn(b, cols);
    var rest := MovesIn(b, init);
    assert ms == rest + Landing(b, c);
    if x == c {
      assert Landing(b, c) == [Move(LowestEmpty(b, c).value, c)];
      assert ms[|ms| - 1].col == x;
    } else {
      assert x in init;
      MovesInCovers(b, init, x);
      var k :| 0 <= k < |rest| && rest[k].col == x;
      assert ms[k].col == x;
    }
  }

  /** `MovesIn` keeps the order of `cols`. */
  lemma {:induction false} MovesInOrdered(b: Board, cols: seq<int>)
    requires IsBoard(b) && ColumnsInRange(cols)
    ensures forall k1, k2 :: 0 <= k1 < k2 < |MovesIn(b, cols)| ==>
              exists i1, i2 :: 0 <= i1 < i2 < |cols| && cols[i1] == MovesIn(b, cols)[k1].col && cols[i2] == MovesIn(b, cols)[k2].col
    decreases |cols|
  {
    if |cols| == 0 {
      assert MovesIn(b, cols) == [];
    } else {
      var init := cols[..|cols| - 1];
      var c := cols[|cols| - 1];
      MovesInOrdered(b, init);
      var ms := MovesIn(b, cols);
      var rest := MovesIn(b, init);
      assert ms == rest + Landing(b, c);
      forall k1, k2 | 0 <= k1 < k2 < |ms|
        ensures exists i1, i2 :: 0 <= i1 < i2 < |cols| && cols[i1] == ms[k1].col && cols[i2] == ms[k2].col
      {
        if k2 < |rest| {
          var i1, i2 :| 0 <= i1 < i2 < |init| && init[i1] == rest[k1].col && init[i2] == rest[k2].col;
          assert cols[i1] == ms[k1].col && cols[i2] == ms[k2].col;
        } else {
          assert ms[k1].col in init;
          var i1 :| 0 <= i1 < |init| && init[i1] == ms[k1].col;
          assert cols[i1] == ms[k1].col && cols[|cols| - 1] == ms[k2].col;
        }
      }
    }
  }

  /** Distinct columns give moves in distinct cells. */
  lemma MovesDistinct(b: Board, cols: seq<int>)
    requires IsBoard(b) && ColumnsInRange(cols)
    requires forall i, j :: 0 <= i < j < |cols| ==> cols[i] != cols[j]
    ensures forall k1, k2 :: 0 <= k1 < k2 < |MovesIn(b, cols)| ==> MovesIn(b, cols)[k1].col != MovesIn(b, cols)[k2].col
  {
    MovesInOrdered(b, cols);
  }

  /**
    `get_prioritized_moves`: for each column in centre-first order, the
    first row from the bottom whose cell is empty.
  */
  method GetPrioritizedMoves(board: array2<int>) returns (moves: seq<Move>)
    requires IsGrid(board)
    ensures moves == PrioritizedMoves(Snapshot(board))
  {
    ghost var b := Snapshot(board);
    ColumnPriorityIsPermutation();
    moves := [];
    for k := 0 to |ColumnPriority|
      invariant moves == MovesIn(b, ColumnPriority[..k])
    {
      var col := ColumnPriority[k];
      var landing := ScanColumn(board, col);
      MovesInStep(b, ColumnPriority, k);
      if landing.Some? {
        moves := moves + [Move(landing.value, col)];
      }
    }
    assert ColumnPriority[..|ColumnPriority|] == ColumnPriority;
  }

  /** The rule-based mode's move list: one entry per column, `[1000, 1000]` for a full one. */
  ghost function StandardMoves(b: Board): (ms: seq<Move>)
    requires IsBoard(b)
  {
    seq(Cols, c requires 0 <= c < Cols =>
      match LowestEmpty(b, c)
      case Some(r) => Move(r, c)
      case None => Move(1000, 1000))
  }

  /** `get_standard_moves`: the landing cell of every column in order, the marker for a full one. */
  method GetStandardMoves(board: array2<int>) returns (moves: seq<Move>)
    requires IsGrid(board)
    ensures moves == StandardMoves(Snapshot(board))
  {
    ghost var b := Snapshot(board);
    moves := [];
    for col := 0 to Cols
      invariant moves == StandardMoves(b)[..col]
    {
      var landing := ScanColumn(board, col);
      match landing {
        case Some(row) => moves := moves + [Move(row, col)];
        case None => moves := moves + [Move(1000, 1000)];
      }
      assert moves == StandardMoves(b)[..col + 1];
    }
  }

  /**
    The two move lists agree: a column's standard entry is a real move
    exactly when it is among the prioritized moves, and every prioritized
    move is the standard entry of its column.
  */
  lemma StandardAgreesWithPrioritized(b: Board)
    requires IsBoard(b)
    ensures |StandardMoves(b)| == Cols
    ensures forall c :: 0 <= c < Cols ==> (StandardMoves(b)[c].row != 1000 <==> StandardMoves(b)[c] in PrioritizedMoves(b))
    ensures forall k :: 0 <= k < |PrioritizedMoves(b)| ==> PrioritizedMoves(b)[k] == StandardMoves(b)[PrioritizedMoves(b)[k].col]
  {
    var ms := PrioritizedMoves(b);
    forall c | 0 <= c < Cols
      ensures StandardMoves(b)[c].row != 1000 <==> StandardMoves(b)[c] in ms
    {
      assert c in ColumnPriority;
      if LowestEmpty(b, c).Some? {
        MovesInCovers(b, ColumnPriority, c);
        var k :| 0 <= k < |ms| && ms[k].col == c;
        assert ms[k] == StandardMoves(b)[c];
      }
    }
  }

  // ---------------------------------------------------------------------
  // The lines the evaluator scores
  // ---------------------------------------------------------------------

  /** A line of cells and the length of the score table it is looked up in. */
  datatype Line = Line(cells: seq<Move>, table: int)

  /** A diagonal from `(row, col)`: rising goes up and right, falling goes down and right. */
  datatype Diagonal = Diagonal(row: int, col: int, length: nat, rising: bool)

  function DiagonalCells(d: Diagonal): seq<Move> {
    if d.rising then seq(d.length, i => Move(d.row + i, d.col + i))
    else seq(d.length, i => Move(d.row - i, d.col + i))
  }

  /** The twelve diagonals of `evaluate_board_state`, in its order. */
  const Diagonals: seq<Diagonal> := [
    Diagonal(0, 0, 6, true), Diagonal(0, 1, 6, true), Diagonal(5, 0, 6, false), Diagonal(5, 1, 6, false),
    Diagonal(1, 0, 5, true), Diagonal(0, 2, 5, true), Diagonal(4, 0, 5, false), Diagonal(5, 2, 5, false),
    Diagonal(2, 0, 4, true), Diagonal(0, 3, 4, true), Diagonal(3, 0, 4, false), Diagonal(5, 3, 4, false)]

  function RowCells(r: int): seq<Move> {
    seq(Cols, j => Move(r, j))
  }

  function ColumnCells(c: int): seq<Move> {
    seq(Rows, i => Move(i, c))
  }

  function DiagonalLine(d: Diagonal): Line {
    Line(DiagonalCells(d), d.length)
  }

  /** The 25 scored lines: 6 rows (table 7), 7 columns (table 6), then the diagonals. */
  function AllLines(): seq<Line> {
    seq(Rows, r => Line(RowCells(r), 7)) +
    seq(Cols, c => Line(ColumnCells(c), 6)) +
    seq(|Diagonals|, k => if 0 <= k < |Diagonals| then DiagonalLine(Diagonals[k]) else Line([], 0))
  }

  predicate CellsInBounds(cells: seq<Move>) {
    forall i :: 0 <= i < |cells| ==> InBounds(cells[i].row, cells[i].col)
  }

  predicate LinesInBounds(ls: seq<Line>) {
    forall k :: 0 <= k < |ls| ==> CellsInBounds(ls[k].cells)
  }

  /** Whether a diagonal passes through `(r, c)`, by arithmetic. */
  predicate OnDiagonal(d: Diagonal, r: int, c: int) {
    if d.rising then c - r == d.col - d.row && d.row <= r < d.row + d.length
    else r + c == d.row + d.col && d.row - d.length < r <= d.row
  }

  lemma OnDiagonalIsMember(d: Diagonal, r: int, c: int)
    ensures Move(r, c) in DiagonalCells(d) <==> OnDiagonal(d, r, c)
  {
    if OnDiagonal(d, r, c) {
      var i := if d.rising then r - d.row else d.row - r;
      assert DiagonalCells(d)[i] == Move(r, c);
    }
  }

  /** The line table is the rows, then the columns, then the diagonals. */
  lemma AllLinesParts()
    ensures |AllLines()| == 25
    ensures forall r :: 0 <= r < Rows ==> AllLines()[r] == Line(RowCells(r), 7)
    ensures forall c :: 0 <= c < Cols ==> AllLines()[Rows + c] == Line(ColumnCells(c), 6)
    ensures forall k :: 0 <= k < |Diagonals| ==> AllLines()[Rows + Cols + k] == DiagonalLine(Diagonals[k])
  {
  }

  /** Every scanned diagonal lies inside the board. */
  lemma DiagonalsFit(k: int)
    requires 0 <= k < |Diagonals|
    ensures CellsInBounds(DiagonalCells(Diagonals[k])) && |DiagonalCells(Diagonals[k])| == Diagonals[k].length
  {
    var d := Diagonals[k];
    DiagonalShape(k);
    forall i | 0 <= i < d.length
      ensures InBounds(DiagonalCells(d)[i].row, DiagonalCells(d)[i].col)
    {
    }
  }

  /**
    The line table: 25 lines, each inside the board and each looked up in
    the table of its own length; 6 of length 7, 7 of length 6 and 4 each of
    lengths 6, 5 and 4 among the diagonals.
  */
  lemma AllLinesFit()
    ensures |AllLines()| == 25 && LinesInBounds(AllLines())
    ensures forall k :: 0 <= k < 25 ==> AllLines()[k].table == |AllLines()[k].cells|
    ensures forall k :: 0 <= k < 6 ==> AllLines()[k].table == 7
    ensures forall k :: 6 <= k < 13 ==> AllLines()[k].table == 6
    ensures forall k :: 13 <= k < 25 ==> AllLines()[k].table == Diagonals[(k - 13) / 4 * 4].length
    ensures forall r :: 0 <= r < Rows ==> AllLines()[r] == Line(RowCells(r), 7)
    ensures forall c :: 0 <= c < Cols ==> AllLines()[Rows + c] == Line(ColumnCells(c), 6)
    ensures forall k :: 0 <= k < |Diagonals| ==> AllLines()[Rows + Cols + k] == DiagonalLine(Diagonals[k])
  {
    AllLinesParts();
    forall k | 0 <= k < 25
      ensures CellsInBounds(AllLines()[k].cells) && AllLines()[k].table == |AllLines()[k].cells|
    {
      if k < Rows {
        assert AllLines()[k] == Line(RowCells(k), 7);
      } else if k < Rows + Cols {
        assert AllLines()[k] == Line(ColumnCells(k - Rows), 6);
      } else {
        assert AllLines()[k] == DiagonalLine(Diagonals[k - Rows - Cols]);
        DiagonalsFit(k - Rows - Cols);
      }
    }
    forall k | 13 <= k < 25
      ensures AllLines()[k].table == Diagonals[(k - 13) / 4 * 4].length
    {
      DiagonalShape(k - 13);
      DiagonalShape((k - 13) / 4 * 4);
    }
  }

  /** The diagonal list in closed form: three groups of four, lengths 6, 5 and 4. */
  lemma DiagonalShape(k: int)
    requires 0 <= k < |Diagonals|
    ensures var g, p := k / 4, k % 4;
            Diagonals[k] ==
              if p == 0 then Diagonal(g, 0, 6 - g, true)
              else if p == 1 then Diagonal(0, g + 1, 6 - g, true)
              else if p == 2 then Diagonal(5 - g, 0, 6 - g, false)
              else Diagonal(5, g + 1, 6 - g, false)
  {
    assert k == 0 || k == 1 || k == 2 || k == 3 || k == 4 || k == 5 ||
           k == 6 || k == 7 || k == 8 || k == 9 || k == 10 || k == 11;
  }

  /** Which diagonal the `k`-th scanned diagonal is, named by column minus row or row plus column. */
  lemma DiagonalThrough(k: int, r: int, c: int)
    requires 0 <= k < |Diagonals| && InBounds(r, c)
    ensures Move(r, c) in DiagonalCells(Diagonals[k]) <==> OnDiagonal(Diagonals[k], r, c)
    ensures Diagonals[k].rising <==> k % 4 < 2
    ensures Diagonals[k].rising ==>
              (OnDiagonal(Diagonals[k], r, c) <==> c - r == if k % 4 == 0 then -(k / 4) else k / 4 + 1)
    ensures !Diagonals[k].rising ==>
              (OnDiagonal(Diagonals[k], r, c) <==> r + c == if k % 4 == 2 then 5 - k / 4 else 6 + k / 4)
  {
    OnDiagonalIsMember(Diagonals[k], r, c);
    DiagonalShape(k);
  }

  /**
    The rising diagonals scanned are exactly those with at least four
    cells: a cell lies on one exactly when column minus row is in -2..3.
  */
  lemma RisingDiagonalsCover(r: int, c: int)
    requires InBounds(r, c)
    ensures (exists k :: 0 <= k < |Diagonals| && Diagonals[k].rising && Move(r, c) in DiagonalCells(Diagonals[k]))
            <==> -2 <= c - r <= 3
  {
    forall k | 0 <= k < |Diagonals|
      ensures Diagonals[k].rising && Move(r, c) in DiagonalCells(Diagonals[k]) ==> -2 <= c - r <= 3
    {
      DiagonalThrough(k, r, c);
    }
    if -2 <= c - r <= 3 {
      var k := if c - r <= 0 then -(c - r) * 4 else (c - r - 1) * 4 + 1;
      DiagonalThrough(k, r, c);
    }
  }

  /**
    The falling diagonals scanned are exactly those with at least four
    cells: a cell lies on one exactly when row plus column is in 3..8.
  */
  lemma FallingDiagonalsCover(r: int, c: int)
    requires InBounds(r, c)
    ensures (exists k :: 0 <= k < |Diagonals| && !Diagonals[k].rising && Move(r, c) in DiagonalCells(Diagonals[k]))
            <==> 3 <= r + c <= 8
  {
    forall k | 0 <= k < |Diagonals|
      ensures !Diagonals[k].rising && Move(r, c) in DiagonalCells(Diagonals[k]) ==> 3 <= r + c <= 8
    {
      DiagonalThrough(k, r, c);
    }
    if 3 <= r + c <= 8 {
      var k := if r + c <= 5 then (5 - (r + c)) * 4 + 2 else (r + c - 6) * 4 + 3;
      DiagonalThrough(k, r, c);
    }
  }

  /** No cell is scored twice in one direction: two scanned diagonals of the same direction are disjoint. */
  lemma DiagonalsDisjoint(k1: int, k2: int, r: int, c: int)
    requires 0 <= k1 < k2 < |Diagonals| && Diagonals[k1].rising == Diagonals[k2].rising && InBounds(r, c)
    ensures !(Move(r, c) in DiagonalCells(Diagonals[k1]) && Move(r, c) in DiagonalCells(Diagonals[k2]))
  {
    DiagonalThrough(k1, r, c);
    DiagonalThrough(k2, r, c);
  }

  // ---------------------------------------------------------------------
  // The static evaluator
  // ---------------------------------------------------------------------

  /** The cells of a line, read off a board (a cell off the board reads as empty; no scored line has one, by `AllLinesFit`). */
  function Extract(b: Board, cells: seq<Move>): seq<int>
    requires IsBoard(b)
  {
    seq(|cells|, i requires 0 <= i < |cells| =>
      if InBounds(cells[i].row, cells[i].col) then b[cells[i].row][cells[i].col] else 0)
  }

  /** The cells of a line, read off the array. */
  function ReadLine(board: array2<int>, cells: seq<Move>): (line: seq<int>)
    requires IsGrid(board) && CellsInBounds(cells)
    reads board
    ensures line == Extract(Snapshot(board), cells)
  {
    seq(|cells|, i requires 0 <= i < |cells| reads board => board[cells[i].row, cells[i].col])
  }

  /** The sum of the line scores of `ls` on board `b`. */
  ghost function SumLines(b: Board, ls: seq<Line>, t: ScoreTables): int
    requires IsBoard(b)
  {
    if |ls| == 0 then 0
    else
      var last := ls[|ls| - 1];
      SumLines(b, ls[..|ls| - 1], t) + LineScore(Extract(b, last.cells), t.For(last.table))
  }

  /** Scoring one more line adds that line's score. */
  lemma SumLinesStep(b: Board, ls: seq<Line>, k: nat, t: ScoreTables)
    requires IsBoard(b) && k < |ls|
    ensures SumLines(b, ls[..k + 1], t) == SumLines(b, ls[..k], t) + LineScore(Extract(b, ls[k].cells), t.For(ls[k].table))
  {
    assert ls[..k + 1][..k] == ls[..k];
  }

  /** The board with a placeholder written on each of `ms`. */
  ghost function Mark(b: Board, ms: seq<Move>): (m: Board)
    requires IsBoard(b)
    ensures IsBoard(m)
    ensures forall r, c :: InBounds(r, c) ==> m[r][c] == if Move(r, c) in ms then Placeholder else b[r][c]
  {
    if |ms| == 0 then b
    else
      var last := ms[|ms| - 1];
      var rest := Mark(b, ms[..|ms| - 1]);
      assert forall x :: x in ms <==> x in ms[..|ms| - 1] || x == last;
      if InBounds(last.row, last.col) then Set(rest, last.row, last.col, Placeholder) else rest
  }

  /**
    What `evaluate_board_state` computes: the 25 line scores of the board
    in which every landing cell holds the placeholder.
  */
  ghost function Evaluation(b: Board, t: ScoreTables): int
    requires IsBoard(b)
  {
    SumLines(Marked(b), AllLines(), t)
  }

  /** The board with the placeholder on every landing cell. */
  ghost function Marked(b: Board): (m: Board)
    requires IsBoard(b)
    ensures IsBoard(m)
  {
    Mark(b, PrioritizedMoves(b))
  }

  /** Writes `v` on every cell of `ms`; every other cell keeps its value. */
  method WriteCells(board: array2<int>, ms: seq<Move>, v: int)
    requires IsGrid(board) && CellsInBounds(ms)
    modifies board
    ensures forall r, c :: InBounds(r, c) ==> board[r, c] == if Move(r, c) in ms then v else old(board[r, c])
  {
    for k := 0 to |ms|
      invariant forall r, c :: InBounds(r, c) ==> board[r, c] == if Move(r, c) in ms[..k] then v else old(board[r, c])
    {
      board[ms[k].row, ms[k].col] := v;
      assert forall x :: x in ms[..k + 1] <==> x in ms[..k] || x == ms[k];
    }
    assert ms[..|ms|] == ms;
  }

  /** The `r`-th scored line is row `r`, read with the 7-cell table. */
  lemma RowLineAt(r: int)
    requires 0 <= r < Rows
    ensures |AllLines()| == 25 && AllLines()[r] == Line(RowCells(r), 7) && CellsInBounds(RowCells(r))
  {
    AllLinesFit();
  }

  /** The scored line after the rows is column `c`, read with the 6-cell table. */
  lemma ColumnLineAt(c: int)
    requires 0 <= c < Cols
    ensures |AllLines()| == 25 && AllLines()[Rows + c] == Line(ColumnCells(c), 6) && CellsInBounds(ColumnCells(c))
  {
    AllLinesFit();
  }

  /** The scored lines after rows and columns are the diagonals, in their order. */
  lemma DiagonalLineAt(k: int)
    requires 0 <= k < |Diagonals|
    ensures |AllLines()| == 25 && AllLines()[Rows + Cols + k] == DiagonalLine(Diagonals[k])
    ensures CellsInBounds(DiagonalCells(Diagonals[k]))
  {
    AllLinesFit();
  }

  /** Scoring row `r` adds the `r`-th scored line. */
  lemma RowStep(b: Board, r: int, t: ScoreTables)
    requires IsBoard(b) && 0 <= r < Rows
    ensures CellsInBounds(RowCells(r))
    ensures SumLines(b, AllLines()[..r + 1], t) == SumLines(b, AllLines()[..r], t) + LineScore(Extract(b, RowCells(r)), t.For(7))
  {
    RowLineAt(r);
    SumLinesStep(b, AllLines(), r, t);
  }

  /** Scoring column `c` adds the scored line after the rows and the first `c` columns. */
  lemma ColumnStep(b: Board, c: int, t: ScoreTables)
    requires IsBoard(b) && 0 <= c < Cols
    ensures CellsInBounds(ColumnCells(c))
    ensures SumLines(b, AllLines()[..Rows + c + 1], t) ==
            SumLines(b, AllLines()[..Rows + c], t) + LineScore(Extract(b, ColumnCells(c)), t.For(6))
  {
    ColumnLineAt(c);
    SumLinesStep(b, AllLines(), Rows + c, t);
  }

  /** Scoring the `k`-th diagonal adds the scored line after the rows, the columns and the first `k` diagonals. */
  lemma DiagonalStep(b: Board, k: int, t: ScoreTables)
    requires IsBoard(b) && 0 <= k < |Diagonals|
    ensures CellsInBounds(DiagonalCells(Diagonals[k]))
    ensures SumLines(b, AllLines()[..Rows + Cols + k + 1], t) ==
            SumLines(b, AllLines()[..Rows + Cols + k], t) + LineScore(Extract(b, DiagonalCells(Diagonals[k])), t.For(Diagonals[k].length))
  {
    DiagonalLineAt(k);
    SumLinesStep(b, AllLines(), Rows + Cols + k, t);
  }

  /** The row loop of `evaluate_board_state`. */
  method ScoreRows(board: array2<int>, t: ScoreTables) returns (total: int)
    requires IsGrid(board)
    ensures total == SumLines(Snapshot(board), AllLines()[..Rows], t)
  {
    total := 0;
    for r := 0 to Rows
      invariant total == SumLines(Snapshot(board), AllLines()[..r], t)
    {
      RowStep(Snapshot(board), r, t);
      total := total + LineScore(ReadLine(board, RowCells(r)), t.For(7));
    }
  }

  /** The column loop of `evaluate_board_state`, adding to the row total `acc`. */
  method ScoreColumns(board: array2<int>, t: ScoreTables, acc: int) returns (total: int)
    requires IsGrid(board) && acc == SumLines(Snapshot(board), AllLines()[..Rows], t)
    ensures total == SumLines(Snapshot(board), AllLines()[..Rows + Cols], t)
  {
    total := acc;
    for c := 0 to Cols
      invariant total == SumLines(Snapshot(board), AllLines()[..Rows + c], t)
    {
      ColumnStep(Snapshot(board), c, t);
      total := total + LineScore(ReadLine(board, ColumnCells(c)), t.For(6));
    }
  }

  /** The diagonal loop of `evaluate_board_state`, adding to the row and column total `acc`. */
  method ScoreDiagonals(board: array2<int>, t: ScoreTables, acc: int) returns (total: int)
    requires IsGrid(board) && acc == SumLines(Snapshot(board), AllLines()[..Rows + Cols], t)
    ensures total == SumLines(Snapshot(board), AllLines()[..Rows + Cols + |Diagonals|], t)
  {
    total := acc;
    for k := 0 to |Diagonals|
      invariant total == SumLines(Snapshot(board), AllLines()[..Rows + Cols + k], t)
    {
      var d := Diagonals[k];
      DiagonalStep(Snapshot(board), k, t);
      total := total + LineScore(ReadLine(board, DiagonalCells(d)), t.For(d.length));
    }
  }

  /** The three scoring loops of `evaluate_board_state`: rows, columns, diagonals. */
  method ScoreLines(board: array2<int>, t: ScoreTables) returns (total: int)
    requires IsGrid(board)
    ensures total == SumLines(Snapshot(board), AllLines(), t)
  {
    total := ScoreRows(board, t);
    total := ScoreColumns(board, t, total);
    total := ScoreDiagonals(board, t, total);
    DiagonalLineAt(0);
    assert AllLines()[..Rows + Cols + |Diagonals|] == AllLines();
  }

  /**
    `evaluate_board_state`: marks the landing cells with placeholders,
    scores the 25 lines, then writes the landing cells back to empty.
  */
  method EvaluateBoardState(board: array2<int>, t: ScoreTables) returns (evaluation: int)
    requires IsGrid(board)
    modifies board
    ensures Snapshot(board) == old(Snapshot(board))
    ensures evaluation == Evaluation(old(Snapshot(board)), t)
  {
    ghost var b := Snapshot(board);
    var validMoves := GetPrioritizedMoves(board);
    assert forall m :: m in validMoves ==> b[m.row][m.col] == 0;
    WriteCells(board, validMoves, Placeholder);
    SnapshotIs(board, Mark(b, validMoves));
    evaluation := ScoreLines(board, t);
    WriteCells(board, validMoves, 0);
    SnapshotIs(board, b);
  }

  // ---------------------------------------------------------------------
  // Alpha-beta search
  // ---------------------------------------------------------------------

  /** A score or one of the infinities that open a search window. */
  datatype Ext = NegInf | Fin(n: int) | PosInf

  predicate Less(x: Ext, y: Ext) {
    match (x, y)
    case (NegInf, NegInf) => false
    case (NegInf, _) => true
    case (Fin(a), Fin(b)) => a < b
    case (Fin(_), PosInf) => true
    case _ => false
  }

  function MaxExt(x: Ext, y: Ext): Ext {
    if Less(x, y) then y else x
  }

  function MinExt(x: Ext, y: Ext): Ext {
    if Less(y, x) then y else x
  }

  /** The piece the side to move drops: 1 for the AI (maximising), 2 for the human. */
  function Piece(maximizing: bool): int {
    if maximizing then 1 else 2
  }

  /**
    The exact minimax value of a position searched `d` plies deep, the
    evaluation applied at depth 0 and at positions without moves.
  */
  ghost function Minimax(b: Board, d: nat, maximizing: bool, t: ScoreTables): int
    requires IsBoard(b)
    decreases d, 1
  {
    var ms := PrioritizedMoves(b);
    if d == 0 || |ms| == 0 then Evaluation(b, t)
    else Extreme(ChildValues(b, ms, d, maximizing, t), maximizing)
  }

  /** The minimax values of the children reached by each of `ms`, in order. */
  ghost function ChildValues(b: Board, ms: seq<Move>, d: nat, maximizing: bool, t: ScoreTables): (vs: seq<int>)
    requires IsBoard(b) && CellsInBounds(ms) && d >= 1
    decreases d, 0
    ensures |vs| == |ms|
  {
    seq(|ms|, i requires 0 <= i < |ms| =>
      Minimax(Set(b, ms[i].row, ms[i].col, Piece(maximizing)), d - 1, !maximizing, t))
  }

  /** The `i`-th child value is the value of the board after the `i`-th move. */
  lemma ChildValueIs(b: Board, ms: seq<Move>, i: nat, d: nat, maximizing: bool, t: ScoreTables)
    requires IsBoard(b) && CellsInBounds(ms) && d >= 1 && i < |ms|
    ensures ChildValues(b, ms, d, maximizing, t)[i] ==
            Minimax(Set(b, ms[i].row, ms[i].col, Piece(maximizing)), d - 1, !maximizing, t)
  {
  }

  function Max(x: int, y: int): int { if x < y then y else x }
  function Min(x: int, y: int): int { if y < x then y else x }

  /** The largest (for the AI) or smallest (for the human) of `vs`, folded left to right. */
  function Extreme(vs: seq<int>, maximizing: bool): int
    requires |vs| > 0
  {
    if |vs| == 1 then vs[0]
    else if maximizing then Max(Extreme(vs[..|vs| - 1], maximizing), vs[|vs| - 1])
    else Min(Extreme(vs[..|vs| - 1], maximizing), vs[|vs| - 1])
  }

  /** `Extreme` is the extreme: every value is on its side of it, and some value attains it. */
  lemma {:induction false} ExtremeIsAttained(vs: seq<int>, maximizing: bool)
    requires |vs| > 0
    ensures forall i :: 0 <= i < |vs| ==> if maximizing then vs[i] <= Extreme(vs, maximizing) else Extreme(vs, maximizing) <= vs[i]
    ensures Extreme(vs, maximizing) in vs
  {
    if |vs| > 1 {
      var init := vs[..|vs| - 1];
      ExtremeIsAttained(init, maximizing);
      assert forall i :: 0 <= i < |vs| - 1 ==> vs[i] == init[i];
    }
  }

  /**
    Fail-soft alpha-beta: a value strictly inside the window is exact, a
    value at or below `alpha` is an upper bound of the true value and one at
    or above `beta` a lower bound.
  */
  ghost predicate FailSoft(v: int, alpha: Ext, beta: Ext, value: int) {
    (Less(alpha, Fin(v)) && Less(Fin(v), beta) ==> v == value) &&
    (!Less(alpha, Fin(v)) ==> value <= v) &&
    (!Less(Fin(v), beta) ==> v <= value)
  }

  /** What the max loop knows after `i` children: `best` bounds the best child so far, exactly once above `alpha`. */
  ghost predicate MaxSoFar(values: seq<int>, i: nat, alpha: Ext, best: Ext)
    requires i <= |values|
  {
    (i == 0 <==> best == NegInf) &&
    (i > 0 ==> best.Fin? && Extreme(values[..i], true) <= best.n &&
               (Less(alpha, best) ==> Extreme(values[..i], true) == best.n))
  }

  /** What the min loop knows after `i` children: the mirror image of `MaxSoFar`. */
  ghost predicate MinSoFar(values: seq<int>, i: nat, beta: Ext, best: Ext)
    requires i <= |values|
  {
    (i == 0 <==> best == PosInf) &&
    (i > 0 ==> best.Fin? && best.n <= Extreme(values[..i], false) &&
               (Less(best, beta) ==> Extreme(values[..i], false) == best.n))
  }

  /** The invariant of the max loop: `a` is the raised lower bound, still below `beta`. */
  ghost predicate MaxLoop(values: seq<int>, i: nat, alpha: Ext, beta: Ext, a: Ext, best: Ext)
    requires i <= |values|
  {
    a == MaxExt(alpha, best) && Less(a, beta) && MaxSoFar(values, i, alpha, best)
  }

  /** The invariant of the min loop: `bt` is the lowered upper bound, still above `alpha`. */
  ghost predicate MinLoop(values: seq<int>, i: nat, alpha: Ext, beta: Ext, bt: Ext, best: Ext)
    requires i <= |values|
  {
    bt == MinExt(beta, best) && Less(alpha, bt) && MinSoFar(values, i, beta, best)
  }

  /**
    One child of a max node, searched in the window the loop passes down
    and answered fail-soft: either the running value stays inside the
    window and the loop knowledge carries over, or it fails high and the
    child's answer is fail-soft for the whole node.
  */
  lemma MaxStep(values: seq<int>, i: nat, alpha: Ext, beta: Ext, a: Ext, best: Ext, w: int)
    requires i < |values| && MaxLoop(values, i, alpha, beta, a, best)
    requires FailSoft(w, a, beta, values[i])
    ensures Less(MaxExt(best, Fin(w)), beta) ==>
              MaxLoop(values, i + 1, alpha, beta, MaxExt(a, MaxExt(best, Fin(w))), MaxExt(best, Fin(w)))
    ensures !Less(MaxExt(best, Fin(w)), beta) ==> FailSoft(MaxExt(best, Fin(w)).n, alpha, beta, Extreme(values, true))
  {
    assert values[..i + 1][..i] == values[..i];
    if !Less(MaxExt(best, Fin(w)), beta) {
      ExtremeIsAttained(values, true);
    }
  }

  /** One child of a min node: the mirror image of `MaxStep`. */
  lemma MinStep(values: seq<int>, i: nat, alpha: Ext, beta: Ext, bt: Ext, best: Ext, w: int)
    requires i < |values| && MinLoop(values, i, alpha, beta, bt, best)
    requires FailSoft(w, alpha, bt, values[i])
    ensures Less(alpha, MinExt(best, Fin(w))) ==>
              MinLoop(values, i + 1, alpha, beta, MinExt(bt, MinExt(best, Fin(w))), MinExt(best, Fin(w)))
    ensures !Less(alpha, MinExt(best, Fin(w))) ==> FailSoft(MinExt(best, Fin(w)).n, alpha, beta, Extreme(values, false))
  {
    assert values[..i + 1][..i] == values[..i];
    if !Less(alpha, MinExt(best, Fin(w))) {
      ExtremeIsAttained(values, false);
    }
  }

  /** A max loop that saw every child without failing high answers fail-soft. */
  lemma MaxDone(values: seq<int>, alpha: Ext, beta: Ext, a: Ext, best: Ext)
    requires |values| > 0 && MaxLoop(values, |values|, alpha, beta, a, best)
    ensures FailSoft(best.n, alpha, beta, Extreme(values, true))
  {
    assert values[..|values|] == values;
  }

  /** A min loop that saw every child without failing low answers fail-soft. */
  lemma MinDone(values: seq<int>, alpha: Ext, beta: Ext, bt: Ext, best: Ext)
    requires |values| > 0 && MinLoop(values, |values|, alpha, beta, bt, best)
    ensures FailSoft(best.n, alpha, beta, Extreme(values, false))
  {
    assert values[..|values|] == values;
  }

  /**
    The body the search loops share: drop the side's piece on the `i`-th
    move, search the child one ply shallower with the other side to move,
    take the piece back.
  */
  method ScoreChild(board: array2<int>, m: Move, maximizing: bool, d: nat,
                    alpha: Ext, beta: Ext, t: ScoreTables)
    returns (w: int)
    requires IsGrid(board) && Less(alpha, beta) && d >= 1
    requires Playable(Snapshot(board), m.row, m.col)
    modifies board
    decreases d, 0
    ensures Snapshot(board) == old(Snapshot(board))
    ensures FailSoft(w, alpha, beta,
                     Minimax(Set(old(Snapshot(board)), m.row, m.col, Piece(maximizing)), d - 1, !maximizing, t))
  {
    ghost var child := Set(Snapshot(board), m.row, m.col, Piece(maximizing));
    ghost var target := Minimax(child, d - 1, !maximizing, t);
    board[m.row, m.col] := Piece(maximizing);
    SnapshotIs(board, child);
    if maximizing {
      w := MinValue(board, d - 1, alpha, beta, t);
    } else {
      w := MaxValue(board, d - 1, alpha, beta, t);
    }
    assert FailSoft(w, alpha, beta, target);
    board[m.row, m.col] := 0;
    SnapshotIs(board, old(Snapshot(board)));
  }

  /** Every move of `ms` drops a piece where it would land on `b`. */
  ghost predicate AllPlayable(b: Board, ms: seq<Move>)
    requires IsBoard(b)
  {
    forall k :: 0 <= k < |ms| ==> Playable(b, ms[k].row, ms[k].col)
  }

  /**
    The body of the max loop: score the `i`-th child in `(a, beta)`, raise
    the running best, and either cut off (the best reached `beta`) or raise
    `a` to it.
  */
  method MaxChild(board: array2<int>, ghost b: Board, moves: seq<Move>, i: nat, d: nat,
                  alpha: Ext, beta: Ext, a: Ext, best: Ext, t: ScoreTables)
    returns (cut: bool, a': Ext, best': Ext)
    requires IsGrid(board) && IsBoard(b) && Snapshot(board) == b && d >= 1
    requires i < |moves| && AllPlayable(b, moves)
    requires MaxLoop(ChildValues(b, moves, d, true, t), i, alpha, beta, a, best)
    modifies board
    decreases d, 1
    ensures Snapshot(board) == b
    ensures !cut ==> MaxLoop(ChildValues(b, moves, d, true, t), i + 1, alpha, beta, a', best')
    ensures cut ==> best'.Fin? && FailSoft(best'.n, alpha, beta, Extreme(ChildValues(b, moves, d, true, t), true))
  {
    ChildValueIs(b, moves, i, d, true, t);
    var w := ScoreChild(board, moves[i], true, d, a, beta, t);
    MaxStep(ChildValues(b, moves, d, true, t), i, alpha, beta, a, best, w);
    best' := MaxExt(best, Fin(w));
    cut := !Less(best', beta);
    a' := MaxExt(a, best');
  }

  /** The body of the min loop: the mirror image of `MaxChild`, lowering `bt`. */
  method MinChild(board: array2<int>, ghost b: Board, moves: seq<Move>, i: nat, d: nat,
                  alpha: Ext, beta: Ext, bt: Ext, best: Ext, t: ScoreTables)
    returns (cut: bool, bt': Ext, best': Ext)
    requires IsGrid(board) && IsBoard(b) && Snapshot(board) == b && d >= 1
    requires i < |moves| && AllPlayable(b, moves)
    requires MinLoop(ChildValues(b, moves, d, false, t), i, alpha, beta, bt, best)
    modifies board
    decreases d, 1
    ensures Snapshot(board) == b
    ensures !cut ==> MinLoop(ChildValues(b, moves, d, false, t), i + 1, alpha, beta, bt', best')
    ensures cut ==> best'.Fin? && FailSoft(best'.n, alpha, beta, Extreme(ChildValues(b, moves, d, false, t), false))
  {
    ChildValueIs(b, moves, i, d, false, t);
    var w := ScoreChild(board, moves[i], false, d, alpha, bt, t);
    MinStep(ChildValues(b, moves, d, false, t), i, alpha, beta, bt, best, w);
    best' := MinExt(best, Fin(w));
    cut := !Less(alpha, best');
    bt' := MinExt(bt, best');
  }

  /** The child loop of `_max_value`: raise `alpha`, cut off once a child reaches `beta`. */
  method MaxChildren(board: array2<int>, moves: seq<Move>, d: nat, alpha: Ext, beta: Ext, t: ScoreTables)
    returns (v: int)
    requires IsGrid(board) && Less(alpha, beta) && d >= 1
    requires |moves| > 0 && AllPlayable(Snapshot(board), moves)
    modifies board
    decreases d, 2
    ensures Snapshot(board) == old(Snapshot(board))
    ensures FailSoft(v, alpha, beta, Extreme(ChildValues(old(Snapshot(board)), moves, d, true, t), true))
  {
    ghost var b := Snapshot(board);
    ghost var values := ChildValues(b, moves, d, true, t);
    var best, a, cut, i := NegInf, alpha, false, 0;
    while i < |moves| && !cut
      invariant i <= |moves| && Snapshot(board) == b
      invariant !cut ==> MaxLoop(values, i, alpha, beta, a, best)
      invariant cut ==> best.Fin? && FailSoft(best.n, alpha, beta, Extreme(values, true))
    {
      cut, a, best := MaxChild(board, b, moves, i, d, alpha, beta, a, best, t);
      i := i + 1;
    }
    if !cut {
      MaxDone(values, alpha, beta, a, best);
    }
    v := best.n;
  }

  /** The child loop of `_min_value`: lower `beta`, cut off once a child reaches `alpha`. */
  method MinChildren(board: array2<int>, moves: seq<Move>, d: nat, alpha: Ext, beta: Ext, t: ScoreTables)
    returns (v: int)
    requires IsGrid(board) && Less(alpha, beta) && d >= 1
    requires |moves| > 0 && AllPlayable(Snapshot(board), moves)
    modifies board
    decreases d, 2
    ensures Snapshot(board) == old(Snapshot(board))
    ensures FailSoft(v, alpha, beta, Extreme(ChildValues(old(Snapshot(board)), moves, d, false, t), false))
  {
    ghost var b := Snapshot(board);
    ghost var values := ChildValues(b, moves, d, false, t);
    var best, bt, cut, i := PosInf, beta, false, 0;
    while i < |moves| && !cut
      invariant i <= |moves| && Snapshot(board) == b
      invariant !cut ==> MinLoop(values, i, alpha, beta, bt, best)
      invariant cut ==> best.Fin? && FailSoft(best.n, alpha, beta, Extreme(values, false))
    {
      cut, bt, best := MinChild(board, b, moves, i, d, alpha, beta, bt, best, t);
      i := i + 1;
    }
    if !cut {
      MinDone(values, alpha, beta, bt, best);
    }
    v := best.n;
  }

  /** `_max_value`: the AI to move, window `(alpha, beta)`. */
  method MaxValue(board: array2<int>, d: nat, alpha: Ext, beta: Ext, t: ScoreTables) returns (v: int)
    requires IsGrid(board) && Less(alpha, beta)
    modifies board
    decreases d, 3
    ensures Snapshot(board) == old(Snapshot(board))
    ensures FailSoft(v, alpha, beta, Minimax(old(Snapshot(board)), d, true, t))
  {
    var moves := GetPrioritizedMoves(board);
    if d == 0 || |moves| == 0 {
      v := EvaluateBoardState(board, t);
    } else {
      v := MaxChildren(board, moves, d, alpha, beta, t);
    }
  }

  /** `_min_value`: the human to move, window `(alpha, beta)`. */
  method MinValue(board: array2<int>, d: nat, alpha: Ext, beta: Ext, t: ScoreTables) returns (v: int)
    requires IsGrid(board) && Less(alpha, beta)
    modifies board
    decreases d, 3
    ensures Snapshot(board) == old(Snapshot(board))
    ensures FailSoft(v, alpha, beta, Minimax(old(Snapshot(board)), d, false, t))
  {
    var moves := GetPrioritizedMoves(board);
    if d == 0 || |moves| == 0 {
      v := EvaluateBoardState(board, t);
    } else {
      v := MinChildren(board, moves, d, alpha, beta, t);
    }
  }

  // ---------------------------------------------------------------------
  // Root search and iterative deepening
  // ---------------------------------------------------------------------

  /** `vs[k]` is a largest of `vs[..n]`, and every earlier value is strictly smaller. */
  ghost predicate IsFirstMax(vs: seq<int>, n: nat, k: nat) {
    k < n <= |vs| && (forall j :: 0 <= j < n ==> vs[j] <= vs[k]) && (forall j :: 0 <= j < k ==> vs[j] < vs[k])
  }

  /** The index of the first largest value: the root loop's strict `>` keeps the earliest. */
  ghost function FirstMax(vs: seq<int>): (k: nat)
    requires |vs| > 0
    ensures IsFirstMax(vs, |vs|, k)
  {
    if |vs| == 1 then 0
    else
      var k := FirstMax(vs[..|vs| - 1]);
      assert forall j :: 0 <= j < |vs| - 1 ==> vs[..|vs| - 1][j] == vs[j];
      if vs[k] < vs[|vs| - 1] then |vs| - 1 else k
  }

  /** There is only one first maximum. */
  lemma FirstMaxUnique(vs: seq<int>, n: nat, k1: nat, k2: nat)
    requires IsFirstMax(vs, n, k1) && IsFirstMax(vs, n, k2)
    ensures k1 == k2
  {
    assert vs[k1] == vs[k2];
  }

  /** The first maximum holds the value `Extreme` folds to. */
  lemma FirstMaxIsExtreme(vs: seq<int>, k: nat)
    requires IsFirstMax(vs, |vs|, k)
    ensures vs[k] == Extreme(vs, true)
  {
    ExtremeIsAttained(vs, true);
  }

  /** The moments at which the search reads the clock. */
  datatype Checkpoint =
    | BeforeDepth(depth: nat)                 // before starting an iteration
    | BeforeRootMove(depth: nat, index: nat)  // before each root move
    | AfterDepth(depth: nat)                  // after an iteration finished

  /** The seconds elapsed since the search started, as read at each checkpoint. */
  type Clock = Checkpoint -> real

  /** The clock reads at least the limit at `c`. */
  predicate Expired(clock: Clock, limit: real, c: Checkpoint) {
    clock(c) >= limit
  }

  /** What `find_best_move_alpha_beta` returns: `"TIMEOUT"`, or a move index with its score. */
  datatype SearchOutcome = Timeout | Found(index: nat, score: Ext)

  /**
    The answer of the root search at `depth`: a timeout when the clock
    runs out before some root move; otherwise the first root move of
    greatest value with that value (index 0 and minus infinity with no
    moves).
  */
  ghost function RootSearch(b: Board, depth: nat, clock: Clock, limit: real, t: ScoreTables): SearchOutcome
    requires IsBoard(b) && depth >= 1
  {
    var ms := PrioritizedMoves(b);
    if !InTime(clock, limit, depth, |ms|) then Timeout
    else if |ms| == 0 then Found(0, NegInf)
    else
      var vs := ChildValues(b, ms, depth, true, t);
      Found(FirstMax(vs), Fin(Extreme(vs, true)))
  }

  /**
    When the clock does not run out, the root search answers with the
    depth-limited minimax value of the board and the first root move
    attaining it.
  */
  lemma RootSearchIsMinimax(b: Board, depth: nat, clock: Clock, limit: real, t: ScoreTables)
    requires IsBoard(b) && depth >= 1
    requires InTime(clock, limit, depth, |PrioritizedMoves(b)|)
    ensures var r := RootSearch(b, depth, clock, limit, t);
            r.Found? &&
            (|PrioritizedMoves(b)| == 0 ==> r == Found(0, NegInf)) &&
            (|PrioritizedMoves(b)| > 0 ==>
               r.score == Fin(Minimax(b, depth, true, t)) &&
               IsFirstMax(ChildValues(b, PrioritizedMoves(b), depth, true, t), |PrioritizedMoves(b)|, r.index))
  {
  }

  /** The clock had not run out before any of the first `n` root moves at `depth`. */
  ghost predicate InTime(clock: Clock, limit: real, depth: nat, n: nat) {
    forall j :: 0 <= j < n ==> !Expired(clock, limit, BeforeRootMove(depth, j))
  }

  /** What the root loop knows after `i` root moves: the first best so far, and its score. */
  ghost predicate RootSoFar(values: seq<int>, i: nat, k: nat, best: Ext) {
    i <= |values| &&
    (i == 0 ==> k == 0 && best == NegInf) &&
    (i > 0 ==> IsFirstMax(values, i, k) && best == Fin(values[k]))
  }

  /**
    One root move searched in `(best, +inf)`: a score above the best so
    far is exact and becomes the new best; one at or below it bounds a
    child that is no better.
  */
  lemma RootStep(values: seq<int>, i: nat, k: nat, best: Ext, w: int)
    requires i < |values| && RootSoFar(values, i, k, best) && FailSoft(w, best, PosInf, values[i])
    ensures Less(best, Fin(w)) ==> RootSoFar(values, i + 1, i, Fin(w))
    ensures !Less(best, Fin(w)) ==> RootSoFar(values, i + 1, k, best)
  {
  }

  /** The body of the root loop: score the `i`-th root move in `(best, +inf)` and keep the first best. */
  method RootChild(board: array2<int>, ghost b: Board, moves: seq<Move>, i: nat, depth: nat,
                   k: nat, best: Ext, t: ScoreTables)
    returns (k': nat, best': Ext)
    requires IsGrid(board) && IsBoard(b) && Snapshot(board) == b && depth >= 1
    requires i < |moves| && AllPlayable(b, moves)
    requires RootSoFar(ChildValues(b, moves, depth, true, t), i, k, best)
    modifies board
    ensures Snapshot(board) == b
    ensures RootSoFar(ChildValues(b, moves, depth, true, t), i + 1, k', best')
  {
    ChildValueIs(b, moves, i, depth, true, t);
    var score := ScoreChild(board, moves[i], true, depth, best, PosInf, t);
    RootStep(ChildValues(b, moves, depth, true, t), i, k, best, score);
    if Less(best, Fin(score)) {
      k', best' := i, Fin(score);
    } else {
      k', best' := k, best;
    }
  }

  /**
    One pass of the root loop: a look at the clock, then (if it has not
    run out) the `i`-th root move scored and the first best updated.
  */
  method RootIteration(board: array2<int>, ghost b: Board, moves: seq<Move>, i: nat, depth: nat,
                       clock: Clock, limit: real, k: nat, best: Ext, t: ScoreTables)
    returns (timedOut: bool, k': nat, best': Ext)
    requires IsGrid(board) && IsBoard(b) && Snapshot(board) == b && depth >= 1
    requires i < |moves| && AllPlayable(b, moves)
    requires InTime(clock, limit, depth, i)
    requires RootSoFar(ChildValues(b, moves, depth, true, t), i, k, best)
    modifies board
    ensures Snapshot(board) == b
    ensures timedOut ==> !InTime(clock, limit, depth, |moves|)
    ensures !timedOut ==> InTime(clock, limit, depth, i + 1) && RootSoFar(ChildValues(b, moves, depth, true, t), i + 1, k', best')
  {
    if clock(BeforeRootMove(depth, i)) >= limit {
      InTimeStops(clock, limit, depth, i, |moves|);
      return true, k, best;
    }
    InTimeGoesOn(clock, limit, depth, i);
    timedOut := false;
    k', best' := RootChild(board, b, moves, i, depth, k, best, t);
  }

  /** A clock that has run out before root move `i` fails the check for any later count. */
  lemma InTimeStops(clock: Clock, limit: real, depth: nat, i: nat, n: nat)
    requires i < n && clock(BeforeRootMove(depth, i)) >= limit
    ensures !InTime(clock, limit, depth, n)
  {
    assert Expired(clock, limit, BeforeRootMove(depth, i));
  }

  /** A clock that has not run out before root move `i` extends the check to `i + 1` moves. */
  lemma InTimeGoesOn(clock: Clock, limit: real, depth: nat, i: nat)
    requires InTime(clock, limit, depth, i) && clock(BeforeRootMove(depth, i)) < limit
    ensures InTime(clock, limit, depth, i + 1)
  {
  }

  /**
    The root loop over `moves`. Either the clock ran out before some move,
    or every move was scored and `(k, best)` is the first best.
  */
  method RootMoves(board: array2<int>, moves: seq<Move>, depth: nat, clock: Clock, limit: real, t: ScoreTables)
    returns (timedOut: bool, k: nat, best: Ext)
    requires IsGrid(board) && depth >= 1 && AllPlayable(Snapshot(board), moves)
    modifies board
    ensures Snapshot(board) == old(Snapshot(board))
    ensures timedOut <==> !InTime(clock, limit, depth, |moves|)
    ensures !timedOut ==> RootSoFar(ChildValues(old(Snapshot(board)), moves, depth, true, t), |moves|, k, best)
  {
    ghost var b := Snapshot(board);
    best, k, timedOut := NegInf, 0, false;
    var i := 0;
    while i < |moves| && !timedOut
      invariant i <= |moves| && Snapshot(board) == b
      invariant timedOut ==> !InTime(clock, limit, depth, |moves|)
      invariant !timedOut ==> InTime(clock, limit, depth, i) && RootSoFar(ChildValues(b, moves, depth, true, t), i, k, best)
    {
      timedOut, k, best := RootIteration(board, b, moves, i, depth, clock, limit, k, best, t);
      i := i + 1;
    }
  }

  /** `find_best_move_alpha_beta`: the root search at `depth`, alpha carried across the root moves. */
  method FindBestMoveAlphaBeta(board: array2<int>, depth: nat, clock: Clock, limit: real, t: ScoreTables)
    returns (r: SearchOutcome)
    requires IsGrid(board) && depth >= 1
    modifies board
    ensures Snapshot(board) == old(Snapshot(board))
    ensures r == RootSearch(old(Snapshot(board)), depth, clock, limit, t)
  {
    ghost var b := Snapshot(board);
    var moves := GetPrioritizedMoves(board);
    var timedOut, k, best := RootMoves(board, moves, depth, clock, limit, t);
    if timedOut {
      return Timeout;
    }
    if |moves| > 0 {
      ghost var values := ChildValues(b, moves, depth, true, t);
      FirstMaxUnique(values, |moves|, k, FirstMax(values));
      FirstMaxIsExtreme(values, k);
    }
    r := Found(k, best);
  }

  /** The deepest iteration the driver starts (`range(1, 10)`). */
  const MaxDepth := 9

  /**
    The move index the iterative-deepening driver settles on, from the
    iteration at `depth` on, with `best` kept from the iterations before:
    it stops when the clock has run out before an iteration, when an
    iteration times out (keeping `best`), or after a completed iteration
    once more than half the limit has gone (keeping that iteration's move).
  */
  ghost function Deepen(b: Board, clock: Clock, limit: real, t: ScoreTables, depth: nat, best: nat): nat
    requires IsBoard(b) && depth >= 1
    decreases MaxDepth + 1 - depth
  {
    if depth > MaxDepth || Expired(clock, limit, BeforeDepth(depth)) then best
    else match RootSearch(b, depth, clock, limit, t)
      case Timeout => best
      case Found(k, _) =>
        if clock(AfterDepth(depth)) > limit / 2.0 then k
        else Deepen(b, clock, limit, t, depth + 1, k)
  }

  /** `k` names a prioritized move of `b`, or is the default 0. */
  ghost predicate IndexOk(b: Board, k: nat)
    requires IsBoard(b)
  {
    k == 0 || k < |PrioritizedMoves(b)|
  }

  /** Every index the root search reports names a prioritized move, or is the 0 of an empty list. */
  lemma RootSearchIndexValid(b: Board, depth: nat, clock: Clock, limit: real, t: ScoreTables)
    requires IsBoard(b) && depth >= 1
    ensures var r := RootSearch(b, depth, clock, limit, t);
            r.Found? ==> IndexOk(b, r.index)
  {
  }

  /**
    The driver's answer is always usable by `make_ai_move`: an index into
    the prioritized moves, or the default 0.
  */
  lemma {:induction false} DeepenIndexValid(b: Board, clock: Clock, limit: real, t: ScoreTables, depth: nat, best: nat)
    requires IsBoard(b) && depth >= 1
    requires IndexOk(b, best)
    ensures IndexOk(b, Deepen(b, clock, limit, t, depth, best))
    decreases MaxDepth + 1 - depth
  {
    if depth <= MaxDepth && !Expired(clock, limit, BeforeDepth(depth)) {
      RootSearchIndexValid(b, depth, clock, limit, t);
      var r := RootSearch(b, depth, clock, limit, t);
      DeepenStep(b, clock, limit, t, depth, best, r);
      if r.Found? && clock(AfterDepth(depth)) <= limit / 2.0 {
        DeepenIndexValid(b, clock, limit, t, depth + 1, r.index);
      }
    }
  }

  /** An iteration that starts ends with the outcome `r` of its root search. */
  lemma DeepenStep(b: Board, clock: Clock, limit: real, t: ScoreTables, depth: nat, best: nat, r: SearchOutcome)
    requires IsBoard(b) && 1 <= depth <= MaxDepth && !Expired(clock, limit, BeforeDepth(depth))
    requires r == RootSearch(b, depth, clock, limit, t)
    ensures Deepen(b, clock, limit, t, depth, best) ==
            if r.Timeout? then best
            else if clock(AfterDepth(depth)) > limit / 2.0 then r.index
            else Deepen(b, clock, limit, t, depth + 1, r.index)
  {
  }

  /** The first root move of greatest depth-`depth` value, or 0 when there is none. */
  ghost function BestRootMove(b: Board, depth: nat, t: ScoreTables): nat
    requires IsBoard(b) && depth >= 1
  {
    var ms := PrioritizedMoves(b);
    if |ms| == 0 then 0 else FirstMax(ChildValues(b, ms, depth, true, t))
  }

  /**
    With a clock that never reaches half the limit, every iteration runs
    to the end and the driver answers with the deepest iteration's first
    best root move.
  */
  lemma {:induction false} DeepenWithoutTimeout(b: Board, clock: Clock, limit: real, t: ScoreTables, depth: nat, best: nat)
    requires IsBoard(b) && 1 <= depth <= MaxDepth && 0.0 < limit
    requires forall c :: clock(c) <= limit / 2.0
    ensures Deepen(b, clock, limit, t, depth, best) == BestRootMove(b, MaxDepth, t)
    decreases MaxDepth + 1 - depth
  {
    var ms := PrioritizedMoves(b);
    assert InTime(clock, limit, depth, |ms|) by {
      forall j | 0 <= j < |ms|
        ensures !Expired(clock, limit, BeforeRootMove(depth, j))
      {
        assert clock(BeforeRootMove(depth, j)) <= limit / 2.0;
      }
    }
    assert clock(BeforeDepth(depth)) <= limit / 2.0;
    assert clock(AfterDepth(depth)) <= limit / 2.0;
    if depth < MaxDepth {
      DeepenWithoutTimeout(b, clock, limit, t, depth + 1, RootSearch(b, depth, clock, limit, t).index);
    }
  }

  /**
    The answer of an untimed search is the first root move whose child
    value is the depth-9 minimax value of the board.
  */
  lemma BestRootMoveIsMinimax(b: Board, t: ScoreTables)
    requires IsBoard(b) && |PrioritizedMoves(b)| > 0
    ensures var ms := PrioritizedMoves(b);
            var vs := ChildValues(b, ms, MaxDepth, true, t);
            var k := BestRootMove(b, MaxDepth, t);
            IsFirstMax(vs, |ms|, k) && vs[k] == Minimax(b, MaxDepth, true, t)
  {
    var vs := ChildValues(b, PrioritizedMoves(b), MaxDepth, true, t);
    FirstMaxIsExtreme(vs, FirstMax(vs));
  }

  /** `deepcopy` of the board: a fresh array with the same cells. */
  method CopyBoard(board: array2<int>) returns (copy: array2<int>)
    requires IsGrid(board)
    ensures fresh(copy) && IsGrid(copy) && Snapshot(copy) == Snapshot(board)
  {
    copy := new int[Rows, Cols]((r, c) requires 0 <= r < Rows && 0 <= c < Cols reads board => board[r, c]);
    SnapshotIs(copy, Snapshot(board));
  }

  /**
    One iteration of the driver at `depth`: a look at the clock, a root
    search on a copy of the board, and a second look at the clock once it
    completes. Either the driver stops with `moveIndex'`, or it goes on to
    the next depth with it.
  */
  method DeepenIteration(board: array2<int>, ghost b: Board, depth: nat, clock: Clock, limit: real,
                         t: ScoreTables, moveIndex: nat)
    returns (stop: bool, moveIndex': nat)
    requires IsGrid(board) && IsBoard(b) && Snapshot(board) == b && 1 <= depth <= MaxDepth
    ensures Deepen(b, clock, limit, t, depth, moveIndex) ==
            if stop then moveIndex' else Deepen(b, clock, limit, t, depth + 1, moveIndex')
  {
    if clock(BeforeDepth(depth)) >= limit {
      assert Expired(clock, limit, BeforeDepth(depth));
      return true, moveIndex;
    }
    var copy := CopyBoard(board);
    var r := FindBestMoveAlphaBeta(copy, depth, clock, limit, t);
    if r.Timeout? {
      return true, moveIndex;
    }
    moveIndex' := r.index;
    stop := clock(AfterDepth(depth)) > limit / 2.0;
  }

  /**
    `find_move_with_iterative_deepening`: root searches of depth 1 to 9
    on copies of the board, until the clock says stop.
  */
  method FindMoveWithIterativeDeepening(board: array2<int>, clock: Clock, limit: real, t: ScoreTables)
    returns (moveIndex: nat)
    requires IsGrid(board)
    ensures moveIndex == Deepen(Snapshot(board), clock, limit, t, 1, 0)
  {
    ghost var b := Snapshot(board);
    moveIndex := 0;
    var depth, stop := 1, false;
    while depth <= MaxDepth && !stop
      invariant 1 <= depth <= MaxDepth + 1 && Snapshot(board) == b
      invariant Deepen(b, clock, limit, t, 1, 0) == if stop then moveIndex else Deepen(b, clock, limit, t, depth, moveIndex)
    {
      stop, moveIndex := DeepenIteration(board, b, depth, clock, limit, t, moveIndex);
      depth := depth + 1;
    }
  }

  /**
    Dropping a piece where it lands keeps pieces stacked, and the column's
    next landing cell is the one above (none once the top row is filled).
  */
  lemma PlayKeepsGravity(b: Board, r: int, c: int, p: int)
    requires IsBoard(b) && Gravity(b) && Playable(b, r, c) && p != 0
    ensures Gravity(Set(b, r, c, p))
    ensures LowestEmpty(Set(b, r, c, p), c) == if r + 1 < Rows then Some(r + 1) else None
  {
    var b' := Set(b, r, c, p);
    LowestEmptyFromIsFirst(b, c, 0);
    LowestEmptyFromIsFirst(b', c, 0);
    assert forall k :: 0 <= k <= r ==> b'[k][c] != 0;
    assert r + 1 < Rows ==> b'[r + 1][c] == 0;
  }

  /** `make_ai_move`: drop `player`'s piece at the `moveIndex`-th prioritized move, if there is one. */
  method MakeAiMove(board: array2<int>, moveIndex: nat, player: int)
    requires IsGrid(board)
    modifies board
    ensures var b := old(Snapshot(board));
            var ms := PrioritizedMoves(b);
            Snapshot(board) == if moveIndex < |ms| then Set(b, ms[moveIndex].row, ms[moveIndex].col, player) else b
  {
    ghost var b := Snapshot(board);
    var validMoves := GetPrioritizedMoves(board);
    if moveIndex < |validMoves| {
      var m := validMoves[moveIndex];
      board[m.row, m.col] := player;
      SnapshotIs(board, Set(b, m.row, m.col, player));
    }
  }

  /** `make_rule_based_move`: drop `player`'s piece in column `columnIndex`, unless it is full. */
  method MakeRuleBasedMove(board: array2<int>, columnIndex: nat, player: int)
    requires IsGrid(board)
    modifies board
    ensures var b := old(Snapshot(board));
            Snapshot(board) ==
              if columnIndex < Cols && LowestEmpty(b, columnIndex).Some?
              then Set(b, LowestEmpty(b, columnIndex).value, columnIndex, player)
              else b
  {
    ghost var b := Snapshot(board);
    var movesByColumn := GetStandardMoves(board);
    if columnIndex < |movesByColumn| {
      var m := movesByColumn[columnIndex];
      if m.row < 1000 {
        board[m.row, m.col] := player;
        SnapshotIs(board, Set(b, m.row, m.col, player));
      }
    }
  }
}
