/**
  The rule-based evaluator: for every column it scores the landing cell by
  the longest line the AI or the human could extend through it, subtracts
  a penalty when the move would let the human win on the cell above, and
  plays the best column, falling back to a centre-first table on a board
  where every score is zero.

  Scores are the evaluator's scores times ten, so that the human's threat
  weighted by 1.1 is the whole number `11 * threat`. The threat values are
  0, 1000, 5000 and 10000, and 1.1 times each is exactly `11/10` of it in
  double precision, so the comparisons are the same.
*/
module Rule {
  import opened Grid

  /** A step on the board: `dr` rows and `dc` columns. */
  datatype Delta = Delta(dr: int, dc: int)

  /** The eight neighbours, in the order whose `i`-th and `(7 - i)`-th entries are opposite. */
  const EightDirections: seq<Delta> := [
    Delta(-1, -1), Delta(-1, 0), Delta(-1, 1),
    Delta(0, -1), Delta(0, 1),
    Delta(1, -1), Delta(1, 0), Delta(1, 1)
  ]

  /** The first four directions and their mirrors are the four axes, each once, and no direction stands still. */
  lemma AxesAreOpposite()
    ensures |EightDirections| == 8
    ensures forall i :: 0 <= i < 4 ==>
              EightDirections[7 - i] == Delta(-EightDirections[i].dr, -EightDirections[i].dc)
    ensures forall i :: 0 <= i < 8 ==> EightDirections[i] != Delta(0, 0)
  {
  }

  /** Cells hold 0 (empty), 1 (the AI) or 2 (the human). */
  ghost predicate HoldsPieces(b: Board)
    requires IsBoard(b)
  {
    forall r, c :: InBounds(r, c) ==> 0 <= b[r][c] <= 2
  }

  // ---------------------------------------------------------------------
  // _get_piece_in_direction
  // ---------------------------------------------------------------------

  /** The piece `steps` steps from `(startRow, startCol)` along `d`, or -1 off the board. */
  function PieceInDirection(b: Board, startRow: int, startCol: int, d: Delta, steps: int): (p: int)
    requires IsBoard(b)
    ensures p != -1 ==> InBounds(startRow + d.dr * steps, startCol + d.dc * steps)
  {
    var targetRow := startRow + d.dr * steps;
    var targetCol := startCol + d.dc * steps;
    if 0 <= targetRow < Rows && 0 <= targetCol < Cols then b[targetRow][targetCol] else -1
  }

  /** On a board of pieces, -1 means exactly "off the board", and on the board the cell is read. */
  lemma PieceInDirectionIsCell(b: Board, startRow: int, startCol: int, d: Delta, steps: int)
    requires IsBoard(b) && HoldsPieces(b)
    ensures var p := PieceInDirection(b, startRow, startCol, d, steps);
            var t := Move(startRow + d.dr * steps, startCol + d.dc * steps);
            (p == -1 <==> !InBounds(t.row, t.col)) &&
            (InBounds(t.row, t.col) ==> p == b[t.row][t.col])
  {
  }

  // ---------------------------------------------------------------------
  // _calculate_line_threat
  // ---------------------------------------------------------------------

  /** How many of steps `step`..3 along `d`, taken in turn, hold `player` before the first that does not. */
  function Run(b: Board, r: int, c: int, d: Delta, player: int, step: int): (n: nat)
    requires IsBoard(b) && 1 <= step <= 4
    ensures n <= 4 - step
    decreases 4 - step
  {
    if step == 4 then 0
    else if PieceInDirection(b, r, c, d, step) == player then 1 + Run(b, r, c, d, player, step + 1)
    else 0
  }

  /** The run along `d` stopped at a cell that is not empty: another piece or the edge of the board. */
  predicate Blocked(b: Board, r: int, c: int, d: Delta, player: int)
    requires IsBoard(b)
  {
    var n := Run(b, r, c, d, player, 1);
    n < 3 && PieceInDirection(b, r, c, d, n + 1) != 0
  }

  /** The cell itself plus the runs on both sides along axis `i`. */
  function AxisLength(b: Board, r: int, c: int, player: int, i: int): int
    requires IsBoard(b) && 0 <= i < 4
  {
    1 + Run(b, r, c, EightDirections[i], player, 1) + Run(b, r, c, EightDirections[7 - i], player, 1)
  }

  /**
    The score of one axis: four or more wins; a three scores by how many
    of its ends are open; anything shorter scores nothing.
  */
  function AxisScore(lineLength: int, frontBlocked: bool, backBlocked: bool): (score: int)
    ensures score == 10000 <==> lineLength >= 4
    ensures lineLength == 3 ==>
              (score == 5000 <==> !frontBlocked && !backBlocked) &&
              (score == 1000 <==> frontBlocked != backBlocked) &&
              (score == 0 <==> frontBlocked && backBlocked)
    ensures lineLength < 3 ==> score == 0
  {
    if lineLength >= 4 then 10000
    else if lineLength == 3 then
      if !frontBlocked && !backBlocked then 5000
      else if !frontBlocked || !backBlocked then 1000
      else 0
    else 0
  }

  function AxisThreat(b: Board, r: int, c: int, player: int, i: int): int
    requires IsBoard(b) && 0 <= i < 4
  {
    AxisScore(AxisLength(b, r, c, player, i),
              Blocked(b, r, c, EightDirections[i], player),
              Blocked(b, r, c, EightDirections[7 - i], player))
  }

  /** Some axis through `(r, c)` holds four or more: the cell and at least three of `player`'s pieces in a line. */
  ghost predicate WinsThrough(b: Board, r: int, c: int, player: int)
    requires IsBoard(b)
  {
    exists i :: 0 <= i < 4 && AxisLength(b, r, c, player, i) >= 4
  }

  /** The running maximum the loop over the axes keeps after `n` axes. */
  function ThreatUpTo(b: Board, r: int, c: int, player: int, n: int): int
    requires IsBoard(b) && 0 <= n <= 4
  {
    if n == 0 then 0
    else
      var total := ThreatUpTo(b, r, c, player, n - 1);
      var score := AxisThreat(b, r, c, player, n - 1);
      if score > total then score else total
  }

  /** `_calculate_line_threat`: the best axis score around `(r, c)` for `player`. */
  function LineThreat(b: Board, r: int, c: int, player: int): int
    requires IsBoard(b)
  {
    ThreatUpTo(b, r, c, player, 4)
  }

  /** The one run along `d`: how many pieces of `player` follow, and whether a piece or the edge stops them. */
  method CountRun(b: Board, r: int, c: int, d: Delta, player: int) returns (count: nat, blocked: bool)
    requires IsBoard(b)
    ensures count == Run(b, r, c, d, player, 1)
    ensures blocked == Blocked(b, r, c, d, player)
  {
    count := 0;
    blocked := false;
    for step := 1 to 4
      invariant count == step - 1
      invariant Run(b, r, c, d, player, 1) == count + Run(b, r, c, d, player, step)
      invariant !blocked
    {
      var piece := PieceInDirection(b, r, c, d, step);
      if piece == player {
        count := count + 1;
      } else {
        if piece != 0 {
          blocked := true;
        }
        break;
      }
    }
  }

  method CalculateLineThreat(b: Board, baseR: int, baseC: int, player: int) returns (totalScore: int)
    requires IsBoard(b)
    ensures totalScore == LineThreat(b, baseR, baseC, player)
  {
    totalScore := 0;
    for i := 0 to 4
      invariant totalScore == ThreatUpTo(b, baseR, baseC, player, i)
    {
      var direction := EightDirections[i];
      var oppositeDirection := EightDirections[7 - i];
      var front, frontBlocked := CountRun(b, baseR, baseC, direction, player);
      var back, backBlocked := CountRun(b, baseR, baseC, oppositeDirection, player);
      var lineLength := 1 + front + back;
      var score := AxisScore(lineLength, frontBlocked, backBlocked);
      if score > totalScore {
        totalScore := score;
      }
    }
  }

  /** A run counts consecutive pieces: each counted step holds `player` and the step that ends it does not. */
  lemma {:induction false} RunIsConsecutive(b: Board, r: int, c: int, d: Delta, player: int, step: int)
    requires IsBoard(b) && 1 <= step <= 4
    ensures forall s :: step <= s < step + Run(b, r, c, d, player, step) ==> PieceInDirection(b, r, c, d, s) == player
    ensures var n := Run(b, r, c, d, player, step);
            step + n < 4 ==> PieceInDirection(b, r, c, d, step + n) != player
    decreases 4 - step
  {
    if step < 4 && PieceInDirection(b, r, c, d, step) == player {
      RunIsConsecutive(b, r, c, d, player, step + 1);
    }
  }

  /** The threat is one of the four scores, and it is 10000 exactly when some axis holds four or more. */
  lemma {:induction false} ThreatUpToValues(b: Board, r: int, c: int, player: int, n: int)
    requires IsBoard(b) && 0 <= n <= 4
    ensures var t := ThreatUpTo(b, r, c, player, n);
            t == 0 || t == 1000 || t == 5000 || t == 10000
    ensures ThreatUpTo(b, r, c, player, n) == 10000 <==>
              exists i :: 0 <= i < n && AxisLength(b, r, c, player, i) >= 4
  {
    if n > 0 {
      ThreatUpToValues(b, r, c, player, n - 1);
      var s := AxisThreat(b, r, c, player, n - 1);
      assert s == 0 || s == 1000 || s == 5000 || s == 10000;
    }
  }

  lemma LineThreatValues(b: Board, r: int, c: int, player: int)
    requires IsBoard(b)
    ensures var t := LineThreat(b, r, c, player);
            (t == 0 || t == 1000 || t == 5000 || t == 10000) &&
            (t == 10000 <==> WinsThrough(b, r, c, player))
  {
    ThreatUpToValues(b, r, c, player, 4);
  }

  /** The runs never look at the cell they start from. */
  lemma {:induction false} RunIgnoresBase(b: Board, r: int, c: int, d: Delta, player: int, step: int, v: int)
    requires IsBoard(b) && InBounds(r, c) && 1 <= step <= 4 && d in EightDirections
    ensures Run(Set(b, r, c, v), r, c, d, player, step) == Run(b, r, c, d, player, step)
    decreases 4 - step
  {
    if step < 4 {
      PieceIgnoresBase(b, r, c, d, step, v);
      RunIgnoresBase(b, r, c, d, player, step + 1, v);
    }
  }

  lemma BlockedIgnoresBase(b: Board, r: int, c: int, d: Delta, player: int, v: int)
    requires IsBoard(b) && InBounds(r, c) && d in EightDirections
    ensures Run(Set(b, r, c, v), r, c, d, player, 1) == Run(b, r, c, d, player, 1)
    ensures Blocked(Set(b, r, c, v), r, c, d, player) == Blocked(b, r, c, d, player)
  {
    RunIgnoresBase(b, r, c, d, player, 1, v);
    var n := Run(b, r, c, d, player, 1);
    if n < 3 {
      PieceIgnoresBase(b, r, c, d, n + 1, v);
    }
  }

  /** A step of one or more along a direction never lands on the starting cell. */
  lemma PieceIgnoresBase(b: Board, r: int, c: int, d: Delta, steps: int, v: int)
    requires IsBoard(b) && InBounds(r, c) && 1 <= steps && d in EightDirections
    ensures PieceInDirection(Set(b, r, c, v), r, c, d, steps) == PieceInDirection(b, r, c, d, steps)
  {
    if d.dr == 0 {
      assert d.dc == 1 || d.dc == -1;
    } else {
      assert d.dr == 1 || d.dr == -1;
    }
  }

  /** The loop's running maximum depends only on the axis scores. */
  lemma {:induction false} ThreatUpToSameAxes(b: Board, b': Board, r: int, c: int, player: int, n: int)
    requires IsBoard(b) && IsBoard(b') && 0 <= n <= 4
    requires forall i :: 0 <= i < n ==> AxisThreat(b, r, c, player, i) == AxisThreat(b', r, c, player, i)
    ensures ThreatUpTo(b, r, c, player, n) == ThreatUpTo(b', r, c, player, n)
  {
    if n > 0 {
      ThreatUpToSameAxes(b, b', r, c, player, n - 1);
    }
  }

  /** With every axis scoring nothing, the threat is zero. */
  lemma {:induction false} ThreatUpToZero(b: Board, r: int, c: int, player: int, n: int)
    requires IsBoard(b) && 0 <= n <= 4
    requires forall i :: 0 <= i < n ==> AxisThreat(b, r, c, player, i) == 0
    ensures ThreatUpTo(b, r, c, player, n) == 0
  {
    if n > 0 {
      ThreatUpToZero(b, r, c, player, n - 1);
    }
  }

  /** The threat around a cell does not depend on what the cell holds. */
  lemma LineThreatIgnoresBase(b: Board, r: int, c: int, player: int, v: int)
    requires IsBoard(b) && InBounds(r, c)
    ensures LineThreat(Set(b, r, c, v), r, c, player) == LineThreat(b, r, c, player)
  {
    var b' := Set(b, r, c, v);
    forall i | 0 <= i < 8
      ensures Run(b', r, c, EightDirections[i], player, 1) == Run(b, r, c, EightDirections[i], player, 1)
      ensures Blocked(b', r, c, EightDirections[i], player) == Blocked(b, r, c, EightDirections[i], player)
    {
      BlockedIgnoresBase(b, r, c, EightDirections[i], player, v);
    }
    assert forall i :: 0 <= i < 4 ==> AxisThreat(b', r, c, player, i) == AxisThreat(b, r, c, player, i);
    ThreatUpToSameAxes(b', b, r, c, player, 4);
  }

  // ---------------------------------------------------------------------
  // _get_playable_slots and _check_setup_risk
  // ---------------------------------------------------------------------

  /** Per column, the cell a piece dropped there lands on, or None for a full column. */
  function Slots(b: Board): (slots: seq<Option<Move>>)
    requires IsBoard(b)
    ensures |slots| == Cols
  {
    seq(Cols, c requires 0 <= c < Cols =>
      match LowestEmpty(b, c)
      case Some(r) => Some(Move(r, c))
      case None => None)
  }

  /** A slot is missing exactly when the column has no empty cell, and otherwise it is the column's lowest empty cell. */
  lemma SlotsAreLowestEmpty(b: Board, c: int)
    requires IsBoard(b) && 0 <= c < Cols
    ensures Slots(b)[c].None? <==> forall r :: 0 <= r < Rows ==> b[r][c] != 0
    ensures Slots(b)[c].Some? ==>
              var m := Slots(b)[c].value;
              m.col == c && InBounds(m.row, c) && b[m.row][c] == 0 &&
              forall r :: 0 <= r < m.row ==> b[r][c] != 0
  {
    LowestEmptyFromIsFirst(b, c, 0);
  }

  method GetPlayableSlots(board: array2<int>) returns (slots: seq<Option<Move>>)
    requires IsGrid(board)
    ensures slots == Slots(Snapshot(board))
  {
    ghost var b := Snapshot(board);
    slots := [];
    for c := 0 to Cols
      invariant slots == Slots(b)[..c]
    {
      var landing := ScanColumn(board, c);
      match landing {
        case Some(r) => slots := slots + [Some(Move(r, c))];
        case None => slots := slots + [None];
      }
      assert slots == Slots(b)[..c + 1];
    }
  }

  /**
    The penalty for playing column `col`: the human's threat on the cell
    above the landing cell, once the AI's piece is there, when that threat
    is a win.
  */
  function SetupRisk(b: Board, col: int): int
    requires IsBoard(b) && 0 <= col < Cols
  {
    match Slots(b)[col]
    case None => 0
    case Some(m) =>
      if m.row >= 5 then 0
      else
        var threat := LineThreat(Set(b, m.row, m.col, 1), m.row + 1, m.col, 2);
        if threat >= 10000 then -threat else 0
  }

  /** The penalty is 0 or -10000, and -10000 exactly when the human would have four through the cell above. */
  lemma SetupRiskValues(b: Board, col: int)
    requires IsBoard(b) && 0 <= col < Cols
    ensures SetupRisk(b, col) == 0 || SetupRisk(b, col) == -10000
    ensures SetupRisk(b, col) == -10000 <==>
              Slots(b)[col].Some? && Slots(b)[col].value.row < 5 &&
              var m := Slots(b)[col].value;
              WinsThrough(Set(b, m.row, m.col, 1), m.row + 1, m.col, 2)
  {
    SlotsAreLowestEmpty(b, col);
    if Slots(b)[col].Some? {
      var m := Slots(b)[col].value;
      if m.row < 5 {
        LineThreatValues(Set(b, m.row, m.col, 1), m.row + 1, m.col, 2);
      }
    }
  }

  /** `_check_setup_risk`: place the AI's piece, measure the human's threat above it, take the piece back. */
  method CheckSetupRisk(board: array2<int>, columnNo: int) returns (risk: int)
    requires IsGrid(board) && 0 <= columnNo < Cols
    modifies board
    ensures Snapshot(board) == old(Snapshot(board))
    ensures risk == SetupRisk(old(Snapshot(board)), columnNo)
  {
    ghost var b := Snapshot(board);
    var playableSlots := GetPlayableSlots(board);
    var movePos := playableSlots[columnNo];
    if movePos.None? || movePos.value.row >= 5 {
      return 0;
    }
    SlotsAreLowestEmpty(b, columnNo);
    var opponentThreatScore := ThreatAbovePlaced(board, movePos.value.row, movePos.value.col);
    risk := if opponentThreatScore >= 10000 then -opponentThreatScore else 0;
  }

  /**
    The body of `_check_setup_risk` once a slot is found: the AI's piece
    goes on the empty cell `(r, c)`, the human's threat through the cell
    above is measured, and the cell is emptied again.
  */
  method ThreatAbovePlaced(board: array2<int>, r: int, c: int) returns (threat: int)
    requires IsGrid(board) && InBounds(r, c) && board[r, c] == 0
    modifies board
    ensures Snapshot(board) == old(Snapshot(board))
    ensures threat == LineThreat(Set(old(Snapshot(board)), r, c, 1), r + 1, c, 2)
  {
    ghost var b := Snapshot(board);
    WriteCell(board, r, c, 1);
    threat := CalculateLineThreat(Snapshot(board), r + 1, c, 2);
    WriteCell(board, r, c, 0);
    SetThenRestore(b, r, c, 1);
  }

  /** `board[r][c] = v`: the board is the old one with that cell set. */
  method WriteCell(board: array2<int>, r: int, c: int, v: int)
    requires IsGrid(board) && InBounds(r, c)
    modifies board
    ensures Snapshot(board) == Set(old(Snapshot(board)), r, c, v)
  {
    ghost var b := Snapshot(board);
    board[r, c] := v;
    SnapshotIs(board, Set(b, r, c, v));
  }

  // ---------------------------------------------------------------------
  // rule_eval
  // ---------------------------------------------------------------------

  /** The score of a full column, times ten. */
  const FullColumn := -999990

  /** The centre-first table used when every score is zero. */
  const InitialValues: map<int, int> := map[3 := 10, 2 := 5, 4 := 5, 1 := 2, 5 := 2, 0 := 1, 6 := 1]

  function Max(x: int, y: int): int {
    if x >= y then x else y
  }

  /** A column's score, times ten: the better of attack and weighted defence, plus the penalty. */
  function ColumnScore(b: Board, i: int): int
    requires IsBoard(b) && 0 <= i < Cols
  {
    match Slots(b)[i]
    case None => FullColumn
    case Some(m) =>
      Max(10 * LineThreat(b, m.row, m.col, 1), 11 * LineThreat(b, m.row, m.col, 2)) + 10 * SetupRisk(b, i)
  }

  function RawScores(b: Board): (scores: seq<int>)
    requires IsBoard(b)
    ensures |scores| == Cols
  {
    seq(Cols, i requires 0 <= i < Cols => ColumnScore(b, i))
  }

  predicate AllZero(scores: seq<int>) {
    forall i :: 0 <= i < |scores| ==> scores[i] == 0
  }

  /** The scores the choice is made on: the table's values, times ten, for open columns when every score is zero. */
  function ColumnScores(b: Board): (scores: seq<int>)
    requires IsBoard(b)
    ensures |scores| == Cols
  {
    var raw := RawScores(b);
    if AllZero(raw) then
      seq(Cols, i requires 0 <= i < Cols =>
        if Slots(b)[i].Some? then 10 * InitialValues[i] else raw[i])
    else raw
  }

  /** The first position of the largest score. */
  function ArgMax(scores: seq<int>): (k: nat)
    requires |scores| > 0
    ensures k < |scores|
    ensures forall j :: 0 <= j < |scores| ==> scores[j] <= scores[k]
    ensures forall j :: 0 <= j < k ==> scores[j] < scores[k]
  {
    if |scores| == 1 then 0
    else
      var k := ArgMax(scores[..|scores| - 1]);
      if scores[|scores| - 1] > scores[k] then |scores| - 1 else k
  }

  function RuleChoice(b: Board): (col: nat)
    requires IsBoard(b)
    ensures col < Cols
  {
    ArgMax(ColumnScores(b))
  }

  /** The first loop of `rule_eval`: every column's score, the board put back as it was. */
  method ScoreColumns(board: array2<int>, playableSlots: seq<Option<Move>>) returns (columnScores: seq<int>)
    requires IsGrid(board) && playableSlots == Slots(Snapshot(board))
    modifies board
    ensures Snapshot(board) == old(Snapshot(board))
    ensures columnScores == RawScores(old(Snapshot(board)))
  {
    ghost var b := Snapshot(board);
    columnScores := seq(Cols, _ => 0);
    for i := 0 to Cols
      invariant Snapshot(board) == b
      invariant |columnScores| == Cols
      invariant forall j :: 0 <= j < i ==> columnScores[j] == ColumnScore(b, j)
    {
      var score;
      match playableSlots[i] {
        case None =>
          score := FullColumn;
        case Some(m) =>
          var aiScore := CalculateLineThreat(Snapshot(board), m.row, m.col, 1);
          var opponentScore := CalculateLineThreat(Snapshot(board), m.row, m.col, 2);
          var setupPenalty := CheckSetupRisk(board, i);
          score := Max(10 * aiScore, 11 * opponentScore) + 10 * setupPenalty;
      }
      columnScores := columnScores[i := score];
    }
  }

  /** The opening override: when every score is zero, open columns take the centre-first table's values. */
  method ApplyOpeningTable(columnScores: seq<int>, playableSlots: seq<Option<Move>>) returns (scores: seq<int>)
    requires |columnScores| == Cols && |playableSlots| == Cols
    ensures |scores| == Cols
    ensures forall i :: 0 <= i < Cols ==>
              scores[i] == if AllZero(columnScores) && playableSlots[i].Some?
                           then 10 * InitialValues[i] else columnScores[i]
  {
    scores := columnScores;
    if forall j :: 0 <= j < Cols ==> columnScores[j] == 0 {
      for i := 0 to Cols
        invariant |scores| == Cols
        invariant forall j :: 0 <= j < Cols ==>
                    scores[j] == if j < i && playableSlots[j].Some? then 10 * InitialValues[j] else columnScores[j]
      {
        if playableSlots[i].Some? {
          scores := scores[i := 10 * (if i in InitialValues then InitialValues[i] else 0)];
        }
      }
    }
  }

  /** The last loop of `rule_eval`: the first column holding the largest score. */
  method FirstBestColumn(columnScores: seq<int>) returns (bestColumn: int)
    requires |columnScores| == Cols
    ensures bestColumn == ArgMax(columnScores)
  {
    var bestScore := 0;
    bestColumn := -1;
    for i := 0 to Cols
      invariant bestColumn == -1 <==> i == 0
      invariant i > 0 ==> bestColumn == ArgMax(columnScores[..i]) && bestScore == columnScores[bestColumn]
    {
      if bestColumn == -1 || columnScores[i] > bestScore {
        bestScore := columnScores[i];
        bestColumn := i;
      }
      assert columnScores[..i + 1][..i] == columnScores[..i];
    }
    assert columnScores[..Cols] == columnScores;
    bestColumn := if bestColumn != -1 then bestColumn else 3;
  }

  /** `rule_eval`: score every column, apply the opening table if nothing scored, play the first best column. */
  method RuleEval(board: array2<int>) returns (bestColumn: int)
    requires IsGrid(board)
    modifies board
    ensures Snapshot(board) == old(Snapshot(board))
    ensures bestColumn == RuleChoice(old(Snapshot(board)))
  {
    ghost var b := Snapshot(board);
    var playableSlots := GetPlayableSlots(board);
    var columnScores := ScoreColumns(board, playableSlots);
    columnScores := ApplyOpeningTable(columnScores, playableSlots);
    assert columnScores == ColumnScores(b);
    bestColumn := FirstBestColumn(columnScores);
  }

  // ---------------------------------------------------------------------
  // Properties of the choice
  // ---------------------------------------------------------------------

  /** An open column scores at least -100000 (times ten), far above a full one. */
  lemma OpenColumnScore(b: Board, i: int)
    requires IsBoard(b) && 0 <= i < Cols && Slots(b)[i].Some?
    ensures ColumnScore(b, i) >= -100000
  {
    var m := Slots(b)[i].value;
    LineThreatValues(b, m.row, m.col, 1);
    LineThreatValues(b, m.row, m.col, 2);
    SetupRiskValues(b, i);
  }

  /** The evaluator never plays a full column while another column is open. */
  lemma RuleChoiceIsOpen(b: Board)
    requires IsBoard(b) && exists c :: 0 <= c < Cols && Slots(b)[c].Some?
    ensures Slots(b)[RuleChoice(b)].Some?
  {
    var c :| 0 <= c < Cols && Slots(b)[c].Some?;
    var raw := RawScores(b);
    OpenColumnScore(b, c);
    var k := RuleChoice(b);
    if AllZero(raw) {
      assert raw[k] == 0;
    } else {
      assert ColumnScores(b)[c] <= ColumnScores(b)[k];
    }
  }

  /** When no column scores anything, every column is open and the centre is played. */
  lemma ZeroScoresPlayCentre(b: Board)
    requires IsBoard(b) && AllZero(RawScores(b))
    ensures RuleChoice(b) == 3
  {
    forall i | 0 <= i < Cols
      ensures Slots(b)[i].Some?
    {
      assert RawScores(b)[i] == 0;
    }
    var scores := ColumnScores(b);
    assert scores[3] == 100;
    assert forall j :: 0 <= j < Cols && j != 3 ==> scores[j] < 100;
  }

  ghost predicate IsEmptyBoard(b: Board)
    requires IsBoard(b)
  {
    forall r, c :: InBounds(r, c) ==> b[r][c] == 0
  }

  /** On an empty board nothing reads as a run for either player. */
  lemma EmptyBoardNoRun(b: Board, r: int, c: int, d: Delta, player: int)
    requires IsBoard(b) && (player == 1 || player == 2)
    requires forall i, j :: InBounds(i, j) && (i, j) != (r, c) ==> b[i][j] != player
    requires d in EightDirections
    ensures Run(b, r, c, d, player, 1) == 0
  {
    if InBounds(r, c) {
      PieceIgnoresBase(b, r, c, d, 1, 0);
    }
  }

  /** The opening: on an empty board the evaluator plays the centre column. */
  lemma EmptyBoardPlaysCentre(b: Board)
    requires IsBoard(b) && IsEmptyBoard(b)
    ensures RuleChoice(b) == 3
  {
    forall i | 0 <= i < Cols
      ensures ColumnScore(b, i) == 0
    {
      assert b[0][i] == 0;
      assert Slots(b)[i] == Some(Move(0, i));
      NoThreat(b, 0, i, 1);
      NoThreat(b, 0, i, 2);
      var b' := Set(b, 0, i, 1);
      NoThreat(b', 1, i, 2);
    }
    assert AllZero(RawScores(b));
    ZeroScoresPlayCentre(b);
  }

  /** With no piece of `player` outside the cell, the threat there is zero. */
  lemma NoThreat(b: Board, r: int, c: int, player: int)
    requires IsBoard(b) && (player == 1 || player == 2)
    requires forall i, j :: InBounds(i, j) && (i, j) != (r, c) ==> b[i][j] != player
    ensures LineThreat(b, r, c, player) == 0
  {
    forall i | 0 <= i < 8
      ensures Run(b, r, c, EightDirections[i], player, 1) == 0
    {
      EmptyBoardNoRun(b, r, c, EightDirections[i], player);
    }
    assert forall i :: 0 <= i < 4 ==> AxisThreat(b, r, c, player, i) == 0;
    ThreatUpToZero(b, r, c, player, 4);
  }
}
