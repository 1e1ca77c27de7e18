/**
  The shared board utilities: the winner check over every window of four
  cells, the map from open columns to their landing rows, and the
  column-wise board key used for memoisation.
*/
module Connect4Utils {
  import opened Grid

  // ---------------------------------------------------------------------
  // check_for_winner
  // ---------------------------------------------------------------------

  /** The four ways a window of four cells can lie: across, up, `/` and `\`. */
  datatype Axis = Horizontal | Vertical | Rising | Falling

  /** A window of four cells from `(row, col)` along `axis`. */
  datatype Window = Window(row: int, col: int, axis: Axis)

  function WindowCell(w: Window, i: int): Move {
    match w.axis
    case Horizontal => Move(w.row, w.col + i)
    case Vertical => Move(w.row + i, w.col)
    case Rising => Move(w.row + i, w.col + i)
    case Falling => Move(w.row + i, w.col - i)
  }

  predicate OnBoard(w: Window) {
    forall i :: 0 <= i < 4 ==> InBounds(WindowCell(w, i).row, WindowCell(w, i).col)
  }

  /** All four cells of the window hold `who`. */
  predicate FourOf(b: Board, w: Window, who: int)
    requires IsBoard(b) && OnBoard(w)
  {
    forall i :: 0 <= i < 4 ==> b[WindowCell(w, i).row][WindowCell(w, i).col] == who
  }

  /** A window lies on the board once its first and last cells do. */
  lemma EndsOnBoard(w: Window)
    requires InBounds(w.row, w.col) && InBounds(WindowCell(w, 3).row, WindowCell(w, 3).col)
    ensures OnBoard(w)
  {
  }

  /** The number of windows the check looks at: 24 across, 21 up, 12 `/` and 12 `\`. */
  const WindowCount := 24 + 21 + 12 + 12

  /**
    The `k`-th window in the order the check visits them: rows then
    columns across; columns then rows up; rows then columns along both
    diagonals.
  */
  function WindowAt(k: nat): (w: Window)
    requires k < WindowCount
    ensures OnBoard(w)
  {
    var w :=
      if k < 24 then Window(k / 4, k % 4, Horizontal)
      else if k < 45 then Window((k - 24) % 3, (k - 24) / 3, Vertical)
      else if k < 57 then Window((k - 45) / 4, (k - 45) % 4, Rising)
      else Window((k - 57) / 4, 3 + (k - 57) % 4, Falling);
    EndsOnBoard(w);
    w
  }

  /** What one window decides: the AI's four is tested before the human's. */
  function Owner(b: Board, w: Window): (r: Option<int>)
    requires IsBoard(b) && OnBoard(w)
  {
    if FourOf(b, w, 1) then Some(1)
    else if FourOf(b, w, 2) then Some(2)
    else None
  }

  function Owners(b: Board): (rs: seq<Option<int>>)
    requires IsBoard(b)
    ensures |rs| == WindowCount
  {
    seq(WindowCount, k requires 0 <= k < WindowCount => Owner(b, WindowAt(k)))
  }

  /** `check_for_winner`: the owner of the first window holding four equal pieces, or None. */
  function Winner(b: Board): (r: Option<int>)
    requires IsBoard(b)
    ensures r.Some? ==> r.value == 1 || r.value == 2
  {
    FirstSome(Owners(b))
  }

  /** Where a window is visited: the inverse of `WindowAt`. */
  lemma WindowIndex(w: Window) returns (k: nat)
    requires OnBoard(w)
    ensures k < WindowCount && WindowAt(k) == w
  {
    var last := WindowCell(w, 3);
    assert InBounds(w.row, w.col) by { assert WindowCell(w, 0) == Move(w.row, w.col); }
    assert InBounds(last.row, last.col);
    match w.axis {
      case Horizontal =>
        k := w.row * 4 + w.col;
      case Vertical =>
        k := 24 + w.col * 3 + w.row;
      case Rising =>
        k := 45 + w.row * 4 + w.col;
      case Falling =>
        k := 57 + w.row * 4 + (w.col - 3);
    }
  }

  /** A winner found is a player, and that player has four in a row on the board. */
  lemma WinnerSound(b: Board)
    requires IsBoard(b)
    ensures Winner(b).Some? ==>
              (Winner(b).value == 1 || Winner(b).value == 2) &&
              exists w :: OnBoard(w) && FourOf(b, w, Winner(b).value)
  {
    var rs := Owners(b);
    FirstSomeIsFirst(rs);
    if Winner(b).Some? {
      var k :| 0 <= k < |rs| && rs[k] == Winner(b);
      assert OnBoard(WindowAt(k));
    }
  }

  /** No winner exactly when no line of four on the board holds four equal player pieces. */
  lemma WinnerNoneIff(b: Board)
    requires IsBoard(b)
    ensures Winner(b).None? <==> forall w :: OnBoard(w) ==> !FourOf(b, w, 1) && !FourOf(b, w, 2)
  {
    var rs := Owners(b);
    FirstSomeIsFirst(rs);
    if Winner(b).None? {
      forall w | OnBoard(w)
        ensures !FourOf(b, w, 1) && !FourOf(b, w, 2)
      {
        var k := WindowIndex(w);
        assert rs[k].None?;
      }
    } else {
      WinnerSound(b);
    }
  }

  /** The first window that holds a four decides, even when both players have one. */
  lemma WinnerIsFirst(b: Board)
    requires IsBoard(b)
    ensures Winner(b).Some? ==>
              exists k :: 0 <= k < WindowCount && Owner(b, WindowAt(k)) == Winner(b) &&
                forall j :: 0 <= j < k ==> Owner(b, WindowAt(j)).None?
  {
    var rs := Owners(b);
    FirstSomeIsFirst(rs);
    assert forall k :: 0 <= k < WindowCount ==> rs[k] == Owner(b, WindowAt(k));
  }

  // ---------------------------------------------------------------------
  // _get_playable_slots
  // ---------------------------------------------------------------------

  /** Open columns mapped to the row a piece dropped there lands on; full columns are absent. */
  function PlayableSlots(b: Board): (slots: map<int, int>)
    requires IsBoard(b)
    ensures forall c :: c in slots ==> 0 <= c < Cols && 0 <= slots[c] < Rows && b[slots[c]][c] == 0
  {
    map c | 0 <= c < Cols && LowestEmpty(b, c).Some? :: LowestEmpty(b, c).value
  }

  /** A column is a key exactly when it has an empty cell, and its value is the lowest one. */
  lemma PlayableSlotsAreLowest(b: Board, c: int)
    requires IsBoard(b)
    ensures c in PlayableSlots(b) <==> 0 <= c < Cols && exists r :: 0 <= r < Rows && b[r][c] == 0
    ensures c in PlayableSlots(b) ==>
              var r := PlayableSlots(b)[c];
              0 <= r < Rows && b[r][c] == 0 && forall k :: 0 <= k < r ==> b[k][c] != 0
  {
    if 0 <= c < Cols {
      LowestEmptyFromIsFirst(b, c, 0);
    }
  }

  // ---------------------------------------------------------------------
  // generate_board_hash
  // ---------------------------------------------------------------------

  function Digit(n: int): char
    requires 0 <= n < 10
  {
    "0123456789"[n]
  }

  /** Python's `str` on a whole number: its decimal digits, after a `-` when negative. */
  function IntToString(n: int): (s: string)
    ensures forall i :: 0 <= i < |s| ==> s[i] != '|'
    ensures 1 <= n <= 9 ==> s == [Digit(n)]
  {
    if n < 0 then "-" + NatToString(-n) else NatToString(n)
  }

  function NatToString(n: nat): (s: string)
    ensures |s| > 0 && forall i :: 0 <= i < |s| ==> '0' <= s[i] <= '9'
    decreases n
  {
    if n < 10 then [Digit(n)] else NatToString(n / 10) + [Digit(n % 10)]
  }

  /** Column `c`'s pieces from row `r` up, stopping at the first empty cell. */
  function ColumnKey(b: Board, c: int, r: nat): (s: string)
    requires IsBoard(b) && 0 <= c < Cols && r <= Rows
    ensures forall i :: 0 <= i < |s| ==> s[i] != '|'
    decreases Rows - r
  {
    if r == Rows || b[r][c] == 0 then ""
    else IntToString(b[r][c]) + ColumnKey(b, c, r + 1)
  }

  /** The keys of columns `c` onwards, each followed by `|`. */
  function KeyFrom(b: Board, c: nat): string
    requires IsBoard(b) && c <= Cols
    decreases Cols - c
  {
    if c == Cols then "" else ColumnKey(b, c, 0) + "|" + KeyFrom(b, c + 1)
  }

  /** `generate_board_hash`: the key has exactly one separator per column. */
  function BoardHash(b: Board): (s: string)
    requires IsBoard(b)
    ensures CountBars(s) == Cols
  {
    KeyFromBars(b, 0);
    KeyFrom(b, 0)
  }

  function CountBars(s: string): nat {
    if |s| == 0 then 0 else (if s[0] == '|' then 1 else 0) + CountBars(s[1..])
  }

  lemma {:induction false} CountBarsAppend(s: string, t: string)
    ensures CountBars(s + t) == CountBars(s) + CountBars(t)
  {
    if |s| > 0 {
      assert (s + t)[1..] == s[1..] + t;
      CountBarsAppend(s[1..], t);
    } else {
      assert s + t == t;
    }
  }

  lemma {:induction false} NoBars(s: string)
    requires forall i :: 0 <= i < |s| ==> s[i] != '|'
    ensures CountBars(s) == 0
  {
    if |s| > 0 {
      NoBars(s[1..]);
    }
  }

  /** The key has one separator per column. */
  lemma {:induction false} KeyFromBars(b: Board, c: nat)
    requires IsBoard(b) && c <= Cols
    ensures CountBars(KeyFrom(b, c)) == Cols - c
    decreases Cols - c
  {
    if c < Cols {
      var col := ColumnKey(b, c, 0);
      NoBars(col);
      CountBarsAppend(col, "|");
      CountBarsAppend(col + "|", KeyFrom(b, c + 1));
      KeyFromBars(b, c + 1);
    }
  }

  // Decoding a key back into a board.

  /** The pieces of one column's key, read up to the next `|`, and what follows that `|`. */
  function ParseColumn(s: string): (r: Option<(seq<int>, string)>)
    ensures r.Some? ==> |r.value.1| < |s|
  {
    if |s| == 0 then None
    else if s[0] == '|' then Some(([], s[1..]))
    else if s[0] == '1' || s[0] == '2' then
      match ParseColumn(s[1..])
      case None => None
      case Some((pieces, rest)) => Some(([if s[0] == '1' then 1 else 2] + pieces, rest))
    else None
  }

  /** The columns of a key: exactly `n` of them, and nothing after the last `|`. */
  function ParseColumns(s: string, n: nat): (r: Option<seq<seq<int>>>)
    ensures r.Some? ==> |r.value| == n
    decreases n
  {
    if n == 0 then (if |s| == 0 then Some([]) else None)
    else
      match ParseColumn(s)
      case None => None
      case Some((pieces, rest)) =>
        match ParseColumns(rest, n - 1)
        case None => None
        case Some(cols) => Some([pieces] + cols)
  }

  /** The board whose column `c` holds `cols[c]` from the bottom, then empty cells. */
  function Stack(cols: seq<seq<int>>): (b: Board)
    requires |cols| == Cols
    ensures IsBoard(b)
    ensures forall r, c :: InBounds(r, c) ==> b[r][c] == if r < |cols[c]| then cols[c][r] else 0
  {
    seq(Rows, r requires 0 <= r < Rows =>
      seq(Cols, c requires 0 <= c < Cols => if r < |cols[c]| then cols[c][r] else 0))
  }

  function DecodeHash(s: string): Option<Board> {
    match ParseColumns(s, Cols)
    case None => None
    case Some(cols) => if forall c :: 0 <= c < Cols ==> |cols[c]| <= Rows then Some(Stack(cols)) else None
  }

  /** Cells hold 0, 1 or 2. */
  ghost predicate HoldsPieces(b: Board)
    requires IsBoard(b)
  {
    forall r, c :: InBounds(r, c) ==> 0 <= b[r][c] <= 2
  }

  /** Cells hold 0, 1 or 2 and no piece floats above an empty cell. */
  ghost predicate IsPosition(b: Board)
    requires IsBoard(b)
  {
    Gravity(b) && HoldsPieces(b)
  }

  /** Column `c` from row `r` up, up to its first empty cell. */
  function PiecesFrom(b: Board, c: int, r: nat): (ps: seq<int>)
    requires IsBoard(b) && 0 <= c < Cols && r <= Rows
    ensures |ps| <= Rows - r
    decreases Rows - r
  {
    if r == Rows || b[r][c] == 0 then [] else [b[r][c]] + PiecesFrom(b, c, r + 1)
  }

  /** A piece digit is read and the rest of the column follows. */
  lemma ParseColumnDigit(p: int, t: string)
    requires p == 1 || p == 2
    ensures ParseColumn(IntToString(p) + t) ==
            match ParseColumn(t)
            case None => None
            case Some((pieces, rest)) => Some(([p] + pieces, rest))
  {
    var d: char := if p == 1 then '1' else '2';
    assert IntToString(p) == [d];
    assert (IntToString(p) + t)[0] == d && (IntToString(p) + t)[1..] == t;
  }

  /** A `|` ends the column. */
  lemma ParseColumnBar(rest: string)
    ensures ParseColumn("|" + rest) == Some(([], rest))
  {
    assert ("|" + rest)[0] == '|' && ("|" + rest)[1..] == rest;
  }

  /** Reading a column's key gives back its pieces and leaves what follows. */
  lemma {:induction false} ParseColumnKey(b: Board, c: int, r: nat, rest: string)
    requires IsBoard(b) && 0 <= c < Cols && r <= Rows && HoldsPieces(b)
    ensures ParseColumn(ColumnKey(b, c, r) + "|" + rest) == Some((PiecesFrom(b, c, r), rest))
    decreases Rows - r
  {
    if r == Rows || b[r][c] == 0 {
      assert ColumnKey(b, c, r) + "|" + rest == "|" + rest;
      ParseColumnBar(rest);
    } else {
      var p := b[r][c];
      var tail := ColumnKey(b, c, r + 1);
      assert p == 1 || p == 2;
      assert ColumnKey(b, c, r) + "|" + rest == IntToString(p) + (tail + "|" + rest);
      ParseColumnKey(b, c, r + 1, rest);
      ParseColumnDigit(p, tail + "|" + rest);
    }
  }

  /** The pieces of columns `c` onwards, one sequence per column. */
  function ColumnsFrom(b: Board, c: nat): (cols: seq<seq<int>>)
    requires IsBoard(b) && c <= Cols
    ensures |cols| == Cols - c
    ensures forall i :: 0 <= i < |cols| ==> cols[i] == PiecesFrom(b, c + i, 0)
    decreases Cols - c
  {
    if c == Cols then []
    else
      var rest := ColumnsFrom(b, c + 1);
      assert forall i :: 0 < i <= |rest| ==> ([PiecesFrom(b, c, 0)] + rest)[i] == rest[i - 1];
      [PiecesFrom(b, c, 0)] + rest
  }

  lemma {:induction false} ParseKeyFrom(b: Board, c: nat)
    requires IsBoard(b) && c <= Cols && HoldsPieces(b)
    ensures ParseColumns(KeyFrom(b, c), Cols - c) == Some(ColumnsFrom(b, c))
    decreases Cols - c
  {
    if c < Cols {
      ParseColumnKey(b, c, 0, KeyFrom(b, c + 1));
      assert KeyFrom(b, c) == ColumnKey(b, c, 0) + "|" + KeyFrom(b, c + 1);
      ParseKeyFrom(b, c + 1);
    }
  }

  /** On a stacked board a column's pieces are its cells up to the first empty one, and empty after. */
  lemma {:induction false} PiecesFromCells(b: Board, c: int, r: nat)
    requires IsBoard(b) && 0 <= c < Cols && r <= Rows && Gravity(b)
    ensures forall k :: r <= k < Rows ==> b[k][c] == if k - r < |PiecesFrom(b, c, r)| then PiecesFrom(b, c, r)[k - r] else 0
    decreases Rows - r
  {
    if r < Rows && b[r][c] != 0 {
      PiecesFromCells(b, c, r + 1);
    }
  }

  /** Stacking a position's columns gives the position back. */
  lemma StackColumns(b: Board)
    requires IsBoard(b) && Gravity(b)
    ensures Stack(ColumnsFrom(b, 0)) == b
  {
    var cols := ColumnsFrom(b, 0);
    forall r, c | InBounds(r, c)
      ensures Stack(cols)[r][c] == b[r][c]
    {
      var ps := PiecesFrom(b, c, 0);
      PiecesFromCells(b, c, 0);
      assert cols[c] == ps;
      assert b[r][c] == if r < |ps| then ps[r] else 0;
    }
    SameBoard(Stack(cols), b);
  }

  /** The key is a faithful record of the position: decoding it gives the board back. */
  lemma DecodeBoardHash(b: Board)
    requires IsBoard(b) && IsPosition(b)
    ensures DecodeHash(BoardHash(b)) == Some(b)
  {
    ParseKeyFrom(b, 0);
    var cols := ColumnsFrom(b, 0);
    forall c | 0 <= c < Cols
      ensures |cols[c]| <= Rows
    {
      assert cols[c] == PiecesFrom(b, c, 0);
    }
    DecodeColumns(BoardHash(b), cols);
    StackColumns(b);
  }

  /** A key that parses into columns no taller than the board decodes to their stack. */
  lemma DecodeColumns(s: string, cols: seq<seq<int>>)
    requires ParseColumns(s, Cols) == Some(cols)
    requires forall c :: 0 <= c < Cols ==> |cols[c]| <= Rows
    ensures |cols| == Cols && DecodeHash(s) == Some(Stack(cols))
  {
  }

  /** Two positions with the same key are the same position. */
  lemma BoardHashInjective(b1: Board, b2: Board)
    requires IsBoard(b1) && IsPosition(b1) && IsBoard(b2) && IsPosition(b2)
    ensures BoardHash(b1) == BoardHash(b2) <==> b1 == b2
  {
    DecodeBoardHash(b1);
    DecodeBoardHash(b2);
  }
}
