/**
  The board shared by the Connect Four agents: a grid of 6 rows and 7
  columns. Cells hold 0 (empty), 1 (the AI), 2 (the human) and, while the
  pattern evaluator runs, 3 (the "AI could play here" placeholder).
  Row 0 is the bottom row and pieces stack upwards from it.

  A board is read either as a value (`seq<seq<T>>`, for the read-only
  scans) or as an `array2<T>` (for the code that writes cells and puts them
  back); `Snapshot` turns the second into the first.
*/
module Grid {

  const Rows := 6
  const Cols := 7

  datatype Option<T> = None | Some(value: T)

  /** A cell position, as the source's `[row, col]` pairs. */
  datatype Move = Move(row: int, col: int)

  type Board = seq<seq<int>>

  predicate IsBoard<T>(b: seq<seq<T>>) {
    |b| == Rows && forall r :: 0 <= r < Rows ==> |b[r]| == Cols
  }

  predicate InBounds(r: int, c: int) {
    0 <= r < Rows && 0 <= c < Cols
  }

  predicate IsGrid<T>(a: array2<T>) {
    a.Length0 == Rows && a.Length1 == Cols
  }

  /** The value held by a 6×7 array. */
  function Snapshot<T>(a: array2<T>): (b: seq<seq<T>>)
    requires IsGrid(a)
    reads a
    ensures IsBoard(b)
    ensures forall r, c :: InBounds(r, c) ==> b[r][c] == a[r, c]
  {
    seq(Rows, r requires 0 <= r < Rows reads a =>
      seq(Cols, c requires 0 <= c < Cols reads a => a[r, c]))
  }

  /** Cell-wise agreement of an array with a board value. */
  ghost predicate Holds<T>(a: array2<T>, b: seq<seq<T>>)
    requires IsGrid(a) && IsBoard(b)
    reads a
  {
    forall r, c :: InBounds(r, c) ==> a[r, c] == b[r][c]
  }

  /** The board with one cell replaced. */
  function Set<T>(b: seq<seq<T>>, r: int, c: int, v: T): (b': seq<seq<T>>)
    requires IsBoard(b) && InBounds(r, c)
    ensures IsBoard(b')
    ensures forall i, j :: InBounds(i, j) ==> b'[i][j] == if i == r && j == c then v else b[i][j]
  {
    b[r := b[r][c := v]]
  }

  lemma SameBoard<T>(x: seq<seq<T>>, y: seq<seq<T>>)
    requires IsBoard(x) && IsBoard(y)
    requires forall r, c :: InBounds(r, c) ==> x[r][c] == y[r][c]
    ensures x == y
  {
    forall r | 0 <= r < Rows
      ensures x[r] == y[r]
    {
      assert forall c :: 0 <= c < Cols ==> x[r][c] == y[r][c];
    }
  }

  lemma SnapshotIs<T>(a: array2<T>, b: seq<seq<T>>)
    requires IsGrid(a) && IsBoard(b) && Holds(a, b)
    ensures Snapshot(a) == b
  {
    SameBoard(Snapshot(a), b);
  }

  /** Writing a cell and then writing back the value it held restores the board. */
  lemma SetThenRestore<T>(b: seq<seq<T>>, r: int, c: int, v: T)
    requires IsBoard(b) && InBounds(r, c)
    ensures Set(Set(b, r, c, v), r, c, b[r][c]) == b
  {
    SameBoard(Set(Set(b, r, c, v), r, c, b[r][c]), b);
  }

  /**
    No floating pieces: every cell above an empty cell is empty (row 0 is
    the bottom).
  */
  predicate Gravity(b: Board)
    requires IsBoard(b)
  {
    forall c, r, k :: 0 <= c < Cols && 0 <= r <= k < Rows && b[r][c] == 0 ==> b[k][c] == 0
  }

  /**
    The lowest row at or above `r` whose cell in column `c` is empty: the
    row-by-row scan with `break` that every module of the agent repeats.
  */
  function LowestEmptyFrom(b: Board, c: int, r: nat): (o: Option<int>)
    requires IsBoard(b) && 0 <= c < Cols && r <= Rows
    ensures o.Some? ==> r <= o.value < Rows && b[o.value][c] == 0
    decreases Rows - r
  {
    if r == Rows then None
    else if b[r][c] == 0 then Some(r)
    else LowestEmptyFrom(b, c, r + 1)
  }

  /** Where a piece dropped into column `c` lands, or None when it is full. */
  function LowestEmpty(b: Board, c: int): Option<int>
    requires IsBoard(b) && 0 <= c < Cols
  {
    LowestEmptyFrom(b, c, 0)
  }

  /**
    The scan from row `r` stops at the first empty cell: every cell it
    passes is occupied, and it finds nothing exactly when the column is
    full from row `r` up.
  */
  lemma {:induction false} LowestEmptyFromIsFirst(b: Board, c: int, r: nat)
    requires IsBoard(b) && 0 <= c < Cols && r <= Rows
    ensures LowestEmptyFrom(b, c, r).Some? ==> forall k :: r <= k < LowestEmptyFrom(b, c, r).value ==> b[k][c] != 0
    ensures LowestEmptyFrom(b, c, r).None? <==> forall k :: r <= k < Rows ==> b[k][c] != 0
    decreases Rows - r
  {
    if r < Rows && b[r][c] != 0 {
      LowestEmptyFromIsFirst(b, c, r + 1);
    }
  }

  /** `(r, c)` is where the next piece dropped into column `c` lands. */
  predicate Playable(b: Board, r: int, c: int)
    requires IsBoard(b)
  {
    InBounds(r, c) && LowestEmpty(b, c) == Some(r)
  }

  /**
    The scan every move generator runs on one column: rows from the bottom
    up, stopping at the first empty cell.
  */
  method ScanColumn(board: array2<int>, col: int) returns (landing: Option<int>)
    requires IsGrid(board) && 0 <= col < Cols
    ensures landing == LowestEmpty(Snapshot(board), col)
  {
    ghost var b := Snapshot(board);
    var row := 0;
    while row < Rows
      invariant 0 <= row <= Rows
      invariant LowestEmptyFrom(b, col, row) == LowestEmpty(b, col)
    {
      if board[row, col] == 0 {
        return Some(row);
      }
      row := row + 1;
    }
    return None;
  }

  /**
    A loop whose iterations may each return early: the first answer any
    iteration gives, or none.
  */
  function FirstSome<T>(rs: seq<Option<T>>): (r: Option<T>)
    ensures r.Some? ==> r in rs
  {
    if |rs| == 0 then None
    else if rs[0].Some? then rs[0]
    else FirstSome(rs[1..])
  }

  /** The loop answers exactly when some iteration does, and then as the first such iteration. */
  lemma {:induction false} FirstSomeIsFirst<T>(rs: seq<Option<T>>)
    ensures FirstSome(rs).None? <==> forall i :: 0 <= i < |rs| ==> rs[i].None?
    ensures FirstSome(rs).Some? ==>
              exists i :: 0 <= i < |rs| && rs[i] == FirstSome(rs) && forall j :: 0 <= j < i ==> rs[j].None?
  {
    if |rs| > 0 {
      FirstSomeIsFirst(rs[1..]);
      if rs[0].None? {
        assert forall i :: 1 <= i < |rs| ==> rs[i] == rs[1..][i - 1];
        if FirstSome(rs).Some? {
          var i :| 0 <= i < |rs[1..]| && rs[1..][i] == FirstSome(rs) && forall j :: 0 <= j < i ==> rs[1..][j].None?;
          assert rs[i + 1] == FirstSome(rs);
        }
      }
    }
  }

  /** An iteration that answers makes the loop answer. */
  lemma FirstSomeFinds<T>(rs: seq<Option<T>>, i: nat)
    requires i < |rs| && rs[i].Some?
    ensures FirstSome(rs).Some?
  {
    FirstSomeIsFirst(rs);
  }

  /** A loop over two parts in turn answers as the first part does, if it does, and as the second otherwise. */
  lemma {:induction false} FirstSomeAppend<T>(rs: seq<Option<T>>, ts: seq<Option<T>>)
    ensures FirstSome(rs + ts) == if FirstSome(rs).Some? then FirstSome(rs) else FirstSome(ts)
  {
    if |rs| > 0 {
      assert (rs + ts)[1..] == rs[1..] + ts;
      FirstSomeAppend(rs[1..], ts);
    } else {
      assert rs + ts == ts;
    }
  }

  /** An iteration that answers, after iterations that all did not, is the loop's answer. */
  lemma {:induction false} FirstSomeAt<T>(rs: seq<Option<T>>, i: nat)
    requires i < |rs| && rs[i].Some? && forall j :: 0 <= j < i ==> rs[j].None?
    ensures FirstSome(rs) == rs[i]
  {
    if i > 0 {
      assert rs[0].None?;
      assert forall j :: 0 <= j < i - 1 ==> rs[1..][j] == rs[j + 1];
      FirstSomeAt(rs[1..], i - 1);
    }
  }
}
