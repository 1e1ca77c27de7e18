/**
  The critical-move detector run before the search: a scan for a move that
  wins at once for the AI (player 1), and a scan for a move the human
  (player 2) would win with, which the AI must block. Both only read the
  board (row 0 at the bottom).

  Every check of either scan looks at four cells in a line, three of which
  must hold the player's piece while the fourth is the move; a `Gap` names
  such a check.
*/
module Heuristic {
  import opened Grid

  /**
    The four cells from `(r0, c0)` one step apart along `dir`, of which cell
    `gap` is the move and the other three must hold the player's piece;
    `needEmpty` adds that the move's own cell must be empty.
  */
  datatype Gap = Gap(r0: int, c0: int, dir: Dir, gap: int, needEmpty: bool)

  /** The four directions a line of four can take: across, up, `/` and `\`. */
  datatype Dir = Across | Up | Rising | Falling

  /** What both functions return: a position in the move list, or the string "not critical". */
  datatype Choice =
    | NotCritical
    | Index(i: nat)
    | MissingMove(m: Move)  // `list.index` raises: the blocking cell is not in the move list

  function Cell(g: Gap, k: int): Move {
    match g.dir
    case Across => Move(g.r0, g.c0 + k)
    case Up => Move(g.r0 + k, g.c0)
    case Rising => Move(g.r0 + k, g.c0 + k)
    case Falling => Move(g.r0 + k, g.c0 - k)
  }

  function Target(g: Gap): Move {
    Cell(g, g.gap)
  }

  /** The check is along an axis and reads only cells of the board. */
  predicate Fits(g: Gap) {
    0 <= g.gap < 4 && forall k :: 0 <= k < 4 ==> InBounds(Cell(g, k).row, Cell(g, k).col)
  }

  predicate AllFit(gs: seq<Gap>) {
    forall j :: 0 <= j < |gs| ==> Fits(gs[j])
  }

  function At(b: Board, m: Move): int
    requires IsBoard(b) && InBounds(m.row, m.col)
  {
    b[m.row][m.col]
  }

  /** The three cells other than the move hold `who` (and the move's cell is empty when asked). */
  predicate Matches(b: Board, who: int, g: Gap)
    requires IsBoard(b) && Fits(g)
  {
    (forall k :: 0 <= k < 4 && k != g.gap ==> At(b, Cell(g, k)) == who) &&
    (g.needEmpty ==> At(b, Target(g)) == 0)
  }

  /** A check fires: its pattern is on the board and its move is among `pool`. */
  predicate Hits(b: Board, who: int, g: Gap, pool: seq<Move>)
    requires IsBoard(b) && Fits(g)
  {
    Matches(b, who, g) && Target(g) in pool
  }

  /** Four cells in a line all hold `who`. */
  predicate FourAt(b: Board, who: int, g: Gap)
    requires IsBoard(b) && Fits(g)
  {
    forall k :: 0 <= k < 4 ==> At(b, Cell(g, k)) == who
  }

  ghost predicate HasFour(b: Board, who: int)
    requires IsBoard(b)
  {
    exists g :: Fits(g) && FourAt(b, who, g)
  }

  /** Playing `who` at `m` completes a line of four whose other three cells are already `who`'s. */
  ghost predicate Completes(b: Board, who: int, m: Move)
    requires IsBoard(b)
  {
    exists g :: Fits(g) && !g.needEmpty && Target(g) == m && Matches(b, who, g)
  }

  /** A fired check is a real threat: playing its move makes four in a row. */
  lemma CompletesMakesFour(b: Board, who: int, g: Gap)
    requires IsBoard(b) && Fits(g) && Matches(b, who, g)
    ensures FourAt(Set(b, Target(g).row, Target(g).col, who), who, g)
  {
    var b' := Set(b, Target(g).row, Target(g).col, who);
    forall k | 0 <= k < 4
      ensures At(b', Cell(g, k)) == who
    {
      if k != g.gap {
        assert Cell(g, k) != Target(g);
      }
    }
  }

  /** A check that fires names a move that completes a line. */
  lemma MatchesCompletes(b: Board, who: int, g: Gap)
    requires IsBoard(b) && Fits(g) && Matches(b, who, g)
    ensures Completes(b, who, Target(g))
  {
    var g' := g.(needEmpty := false);
    assert forall k :: Cell(g', k) == Cell(g, k);
    assert Fits(g') && Target(g') == Target(g) && Matches(b, who, g');
  }

  /** A move that completes a line is on the board, and playing it makes four in a row. */
  lemma CompletedFour(b: Board, who: int, m: Move)
    requires IsBoard(b) && Completes(b, who, m)
    ensures InBounds(m.row, m.col) && HasFour(Set(b, m.row, m.col, who), who)
  {
    var g :| Fits(g) && !g.needEmpty && Target(g) == m && Matches(b, who, g);
    CompletesMakesFour(b, who, g);
  }

  /** The same line checked with or without the demand that the move's cell be empty. */
  lemma MatchesWithEmpty(b: Board, who: int, g: Gap, needEmpty: bool)
    requires IsBoard(b) && Fits(g) && Matches(b, who, g) && (needEmpty ==> At(b, Target(g)) == 0)
    ensures Fits(g.(needEmpty := needEmpty)) && Target(g.(needEmpty := needEmpty)) == Target(g)
    ensures Matches(b, who, g.(needEmpty := needEmpty))
  {
    var g' := g.(needEmpty := needEmpty);
    assert forall k :: Cell(g', k) == Cell(g, k);
  }

  /**
    The first check of `gs` that fires, as the move it names: the run of
    `if` statements with an early `return` made at one cell. The move is in
    `pool` and completes a line.
  */
  function Scan(b: Board, who: int, gs: seq<Gap>, pool: seq<Move>): (r: Option<Move>)
    requires IsBoard(b) && AllFit(gs)
    ensures r.Some? ==> r.value in pool
  {
    if |gs| == 0 then None
    else if Hits(b, who, gs[0], pool) then Some(Target(gs[0]))
    else Scan(b, who, gs[1..], pool)
  }

  /**
    The scan answers exactly when some check fires, and then with the move
    of the first one that does.
  */
  lemma {:induction false} ScanIsFirstHit(b: Board, who: int, gs: seq<Gap>, pool: seq<Move>)
    requires IsBoard(b) && AllFit(gs)
    ensures Scan(b, who, gs, pool).Some? <==> exists j :: 0 <= j < |gs| && Hits(b, who, gs[j], pool)
    ensures Scan(b, who, gs, pool).Some? ==>
              exists j :: 0 <= j < |gs| && Hits(b, who, gs[j], pool) && Target(gs[j]) == Scan(b, who, gs, pool).value &&
                          forall i :: 0 <= i < j ==> !Hits(b, who, gs[i], pool)
  {
    if |gs| > 0 {
      ScanIsFirstHit(b, who, gs[1..], pool);
      if !Hits(b, who, gs[0], pool) {
        if Scan(b, who, gs, pool).Some? {
          var j :| 0 <= j < |gs[1..]| && Hits(b, who, gs[1..][j], pool) && Target(gs[1..][j]) == Scan(b, who, gs, pool).value &&
                   forall i :: 0 <= i < j ==> !Hits(b, who, gs[1..][i], pool);
          assert forall i :: 1 <= i < j + 1 ==> gs[i] == gs[1..][i - 1];
        }
        forall j | 0 <= j < |gs| && Hits(b, who, gs[j], pool)
          ensures Scan(b, who, gs, pool).Some?
        {
          assert gs[j] == gs[1..][j - 1];
        }
      }
    }
  }

  /** A check that is in the list and fires makes the scan answer. */
  lemma ScanFinds(b: Board, who: int, gs: seq<Gap>, pool: seq<Move>, g: Gap)
    requires IsBoard(b) && AllFit(gs) && g in gs && Hits(b, who, g, pool)
    ensures Scan(b, who, gs, pool).Some?
  {
    ScanIsFirstHit(b, who, gs, pool);
    var j :| 0 <= j < |gs| && gs[j] == g;
  }

  /** A move the scan names completes a line for `who`. */
  lemma ScanSound(b: Board, who: int, gs: seq<Gap>, pool: seq<Move>)
    requires IsBoard(b) && AllFit(gs) && Scan(b, who, gs, pool).Some?
    ensures Completes(b, who, Scan(b, who, gs, pool).value)
  {
    ScanIsFirstHit(b, who, gs, pool);
    var j :| 0 <= j < |gs| && Hits(b, who, gs[j], pool) && Target(gs[j]) == Scan(b, who, gs, pool).value;
    MatchesCompletes(b, who, gs[j]);
  }

  /** `list.index`: the position of the first occurrence. */
  function IndexOf(ms: seq<Move>, m: Move): (i: nat)
    requires m in ms
    ensures i < |ms| && ms[i] == m && m !in ms[..i]
  {
    if ms[0] == m then 0
    else
      var i := IndexOf(ms[1..], m);
      assert ms[..i + 1] == [ms[0]] + ms[1..][..i];
      i + 1
  }

  /** On a stacked board, cells above an empty cell are empty. */
  lemma EmptyAbove(b: Board, r: int, c: int, k: int)
    requires IsBoard(b) && Gravity(b) && InBounds(r, c) && r <= k < Rows && b[r][c] == 0
    ensures b[k][c] == 0
  {
  }

  predicate IsDiagonal(dir: Dir) {
    dir == Rising || dir == Falling
  }

  predicate IsVertical(g: Gap) {
    g.dir == Up
  }

  /**
    On a stacked board, a vertical line of four can only be completed at its
    top cell: the move's cell is empty, so every cell above it is too.
  */
  lemma VerticalGapIsTop(b: Board, who: int, g: Gap)
    requires IsBoard(b) && Gravity(b) && Fits(g) && IsVertical(g) && who != 0
    requires Matches(b, who, g) && At(b, Target(g)) == 0
    ensures g.gap == 3
  {
    assert Cell(g, 3) == Move(g.r0 + 3, g.c0) && InBounds(g.r0 + 3, g.c0);
    assert Target(g) == Move(g.r0 + g.gap, g.c0);
    EmptyAbove(b, g.r0 + g.gap, g.c0, g.r0 + 3);
    assert At(b, Cell(g, 3)) == 0;
  }

  /** The first and last cells of a fitting check are on the board (and so are the ones between). */
  lemma FitsEnds(g: Gap)
    requires Fits(g)
    ensures InBounds(g.r0, g.c0) && InBounds(Cell(g, 3).row, Cell(g, 3).col)
  {
    assert Cell(g, 0) == Move(g.r0, g.c0);
    assert InBounds(Cell(g, 3).row, Cell(g, 3).col);
  }

  // ---------------------------------------------------------------------
  // attack_critical_choice
  // ---------------------------------------------------------------------

  /**
    The checks made at cell `(r, c)`, in the order the source makes them:
    three below an empty cell; `111_`, `11_1`, `1_11` and `_111` across;
    the same four shapes along `/` and then along `\`. Each check is
    guarded so that all its cells are on the board.
  */
  function AttackCellGaps(r: int, c: int): (gs: seq<Gap>)
    requires InBounds(r, c)
    ensures AllFit(gs)
  {
    (if r >= 3 then [Gap(r - 3, c, Up, 3, true)] else []) +
    (if c <= 3 then [Gap(r, c, Across, 3, false), Gap(r, c, Across, 2, false), Gap(r, c, Across, 1, false)] else []) +
    (if c >= 3 then [Gap(r, c - 3, Across, 0, false)] else []) +
    (if r <= 2 && c <= 3 then [Gap(r, c, Rising, 3, false), Gap(r, c, Rising, 2, false), Gap(r, c, Rising, 1, false)] else []) +
    (if r >= 3 && c >= 3 then [Gap(r - 3, c - 3, Rising, 0, false)] else []) +
    (if r <= 2 && c >= 3 then [Gap(r, c, Falling, 3, false), Gap(r, c, Falling, 2, false), Gap(r, c, Falling, 1, false)] else []) +
    (if r >= 3 && c <= 3 then [Gap(r - 3, c + 3, Falling, 0, false)] else [])
  }

  /** The checks at the `k`-th cell in row-major order. */
  function AttackGapsAt(k: nat): (gs: seq<Gap>)
    requires k < Rows * Cols
    ensures AllFit(gs)
  {
    AttackCellGaps(k / Cols, k % Cols)
  }

  /** What each cell's checks find, row by row and column by column within a row. */
  function AttackHits(b: Board, ms: seq<Move>): (rs: seq<Option<Move>>)
    requires IsBoard(b)
    ensures |rs| == Rows * Cols
  {
    seq(Rows * Cols, k requires 0 <= k < Rows * Cols => Scan(b, 1, AttackGapsAt(k), ms))
  }

  /** `attack_critical_choice`: the index of the first move the scan finds, or "not critical". */
  function Attack(b: Board, ms: seq<Move>): (r: Choice)
    requires IsBoard(b)
    ensures !r.MissingMove?
  {
    match FirstSome(AttackHits(b, ms))
    case None => NotCritical
    case Some(m) =>
      assert m in ms by {
        var k :| 0 <= k < Rows * Cols && AttackHits(b, ms)[k] == Some(m);
      }
      Index(IndexOf(ms, m))
  }

  /**
    Soundness: an index the attack scan returns is a position in the move
    list, and the AI playing there completes four in a row.
  */
  lemma AttackSound(b: Board, ms: seq<Move>)
    requires IsBoard(b)
    ensures Attack(b, ms).Index? ==>
              Attack(b, ms).i < |ms| && Completes(b, 1, ms[Attack(b, ms).i]) &&
              HasFour(Set(b, ms[Attack(b, ms).i].row, ms[Attack(b, ms).i].col, 1), 1)
  {
    if Attack(b, ms).Index? {
      var m := ms[Attack(b, ms).i];
      var hits := AttackHits(b, ms);
      var k :| 0 <= k < Rows * Cols && hits[k] == FirstSome(hits);
      ScanSound(b, 1, AttackGapsAt(k), ms);
      CompletedFour(b, 1, m);
    }
  }

  /**
    The attack scan is row-major and the first check that fires decides:
    "not critical" exactly when no cell's checks fire, and otherwise every
    earlier cell finds nothing and the deciding cell's first firing check
    names the move.
  */
  lemma AttackIsFirst(b: Board, ms: seq<Move>)
    requires IsBoard(b)
    ensures Attack(b, ms).NotCritical? <==> forall k :: 0 <= k < Rows * Cols ==> Scan(b, 1, AttackGapsAt(k), ms).None?
    ensures Attack(b, ms).Index? ==>
              exists k :: 0 <= k < Rows * Cols && Scan(b, 1, AttackGapsAt(k), ms) == Some(ms[Attack(b, ms).i]) &&
                          forall k1 :: 0 <= k1 < k ==> Scan(b, 1, AttackGapsAt(k1), ms).None?
  {
    var hits := AttackHits(b, ms);
    FirstSomeIsFirst(hits);
    assert forall k :: 0 <= k < Rows * Cols ==> hits[k] == Scan(b, 1, AttackGapsAt(k), ms);
  }

  /** The row-major position of a cell: row `r`, column `c`. */
  lemma CellIndex(r: int, c: int) returns (k: nat)
    requires InBounds(r, c)
    ensures k < Rows * Cols && k / Cols == r && k % Cols == c
  {
    k := r * Cols + c;
  }

  /** Every line the AI could complete is among the checks of some cell, as that cell tests it. */
  lemma AttackCovers(g: Gap) returns (k: nat)
    requires Fits(g) && !g.needEmpty && (IsVertical(g) ==> g.gap == 3)
    ensures k < Rows * Cols && g.(needEmpty := IsVertical(g)) in AttackGapsAt(k)
  {
    FitsEnds(g);
    var g' := g.(needEmpty := IsVertical(g));
    var r, c;
    if g.dir == Across {
      r, c := g.r0, if g.gap == 0 then g.c0 + 3 else g.c0;
    } else if g.dir == Up {
      r, c := g.r0 + 3, g.c0;
    } else if g.gap == 0 {
      r, c := Cell(g, 3).row, Cell(g, 3).col;
    } else {
      r, c := g.r0, g.c0;
    }
    assert g' in AttackCellGaps(r, c);
    k := CellIndex(r, c);
  }

  /**
    Completeness: on a stacked board, if a playable move in the list
    completes four for the AI in any direction, the scan returns an index.
  */
  lemma AttackComplete(b: Board, ms: seq<Move>, m: Move)
    requires IsBoard(b) && Gravity(b) && m in ms && Playable(b, m.row, m.col) && Completes(b, 1, m)
    ensures Attack(b, ms).Index?
  {
    var g :| Fits(g) && !g.needEmpty && Target(g) == m && Matches(b, 1, g);
    AttackFinds(b, ms, g);
  }

  /** The attack scan finds a line the AI can complete at a playable move of the list. */
  lemma AttackFinds(b: Board, ms: seq<Move>, g: Gap)
    requires IsBoard(b) && Gravity(b) && Fits(g) && !g.needEmpty && Matches(b, 1, g)
    requires Target(g) in ms && Playable(b, Target(g).row, Target(g).col)
    ensures Attack(b, ms).Index?
  {
    var m := Target(g);
    if IsVertical(g) {
      VerticalGapIsTop(b, 1, g);
    }
    var k := AttackCovers(g);
    var g' := g.(needEmpty := IsVertical(g));
    assert b[m.row][m.col] == 0;
    MatchesWithEmpty(b, 1, g, IsVertical(g));
    ScanFinds(b, 1, AttackGapsAt(k), ms, g');
    FirstSomeFinds(AttackHits(b, ms), k);
  }

  // ---------------------------------------------------------------------
  // protect_critical_choice
  // ---------------------------------------------------------------------

  /** `_is_opponent_triple`: all three pieces are the human's. */
  predicate IsOpponentTriple(p1: int, p2: int, p3: int) {
    p1 == 2 && p2 == 2 && p3 == 2
  }

  /** `_get_all_playable_slots`: each column's landing cell, `[-1, c]` for a full column. */
  function PlayableSlots(b: Board): (slots: seq<Move>)
    requires IsBoard(b)
    ensures |slots| == Cols
    ensures forall c :: 0 <= c < Cols ==> slots[c].col == c && (slots[c].row == -1 || InBounds(slots[c].row, c))
  {
    seq(Cols, c requires 0 <= c < Cols =>
      match LowestEmpty(b, c)
      case Some(r) => Move(r, c)
      case None => Move(-1, c))
  }

  /** The slot list names exactly the playable cells, plus `[-1, c]` for each full column. */
  lemma PlayableSlotsArePlayable(b: Board)
    requires IsBoard(b)
    ensures forall m :: m in PlayableSlots(b) && m.row != -1 ==> Playable(b, m.row, m.col)
    ensures forall r, c :: Playable(b, r, c) ==> Move(r, c) in PlayableSlots(b)
    ensures forall c :: 0 <= c < Cols ==> (PlayableSlots(b)[c].row == -1 <==> LowestEmpty(b, c).None?)
  {
    var slots := PlayableSlots(b);
    forall r, c | Playable(b, r, c)
      ensures Move(r, c) in slots
    {
      assert slots[c] == Move(r, c);
    }
  }

  /**
    The checks of the diagonal loops at `(r, c)` along `dir`: the
    `2_22`-shaped and `22_2`-shaped gapped threes, then the solid three with
    the move at its lower end. The solid three with the move at its upper
    end is checked only when `upperEnds` holds; the source never checks it.
  */
  function DiagonalCellGaps(r: int, c: int, dir: Dir, upperEnds: bool): (gs: seq<Gap>)
    requires 0 <= r <= 2 && (dir == Rising ==> 0 <= c <= 3) && (dir == Falling ==> 3 <= c < Cols) && IsDiagonal(dir)
    ensures AllFit(gs)
  {
    [Gap(r, c, dir, 2, false), Gap(r, c, dir, 1, false), Gap(r, c, dir, 0, false)] +
    (if upperEnds then [Gap(r, c, dir, 3, false)] else [])
  }

  /** The `k`-th iteration of a diagonal loop: `r` in 0..2 outer, the four columns inner. */
  function DiagonalGapsAt(k: nat, dir: Dir, upperEnds: bool): (gs: seq<Gap>)
    requires k < 12 && IsDiagonal(dir)
    ensures AllFit(gs)
  {
    DiagonalCellGaps(k / 4, if dir == Rising then k % 4 else 3 + k % 4, dir, upperEnds)
  }

  /** What each iteration of a diagonal loop finds among the slots. */
  function DiagonalHits(b: Board, slots: seq<Move>, dir: Dir, upperEnds: bool): (rs: seq<Option<Move>>)
    requires IsBoard(b) && IsDiagonal(dir)
    ensures |rs| == 12
  {
    seq(12, k requires 0 <= k < 12 => Scan(b, 2, DiagonalGapsAt(k, dir, upperEnds), slots))
  }

  /** Every check of `gs` fits and names the move `t`. */
  predicate AimsAt(gs: seq<Gap>, t: Move) {
    forall j :: 0 <= j < |gs| ==> Fits(gs[j]) && Target(gs[j]) == t
  }

  lemma AimsAtAppend(gs: seq<Gap>, hs: seq<Gap>, t: Move)
    requires AimsAt(gs, t) && AimsAt(hs, t)
    ensures AimsAt(gs + hs, t) && AllFit(gs + hs)
  {
  }

  /** A check along a line fits once its first and last cells are on the board. */
  lemma LineFits(g: Gap)
    requires 0 <= g.gap < 4 && InBounds(g.r0, g.c0) && InBounds(Cell(g, 3).row, Cell(g, 3).col)
    ensures Fits(g)
  {
  }

  /** The check across row `r` from column `c0`, with the move at `gap`. */
  function AcrossAt(r: int, c0: int, gap: int): (g: Gap)
    requires InBounds(r, c0) && c0 + 3 < Cols && 0 <= gap < 4
    ensures Fits(g) && Target(g) == Move(r, c0 + gap) && g.dir == Across && !g.needEmpty
  {
    LineFits(Gap(r, c0, Across, gap, false));
    Gap(r, c0, Across, gap, false)
  }

  /**
    The checks around a playable slot: three below it; `222_`, `_222`,
    `2_22` and `22_2` across. Each names the slot itself as the move.
  */
  function SlotCellGaps(r: int, c: int): (gs: seq<Gap>)
    requires InBounds(r, c)
    ensures AimsAt(gs, Move(r, c)) && AllFit(gs)
  {
    var t := Move(r, c);
    var up := if r >= 3 then LineFits(Gap(r - 3, c, Up, 3, false)); [Gap(r - 3, c, Up, 3, false)] else [];
    var a3 := if c >= 3 then [AcrossAt(r, c - 3, 3)] else [];
    var a0 := if c <= 3 then [AcrossAt(r, c, 0)] else [];
    var a1 := if 1 <= c <= 4 then [AcrossAt(r, c - 1, 1)] else [];
    var a2 := if 2 <= c <= 5 then [AcrossAt(r, c - 2, 2)] else [];
    AimsAtAppend(up, a3, t);
    AimsAtAppend(up + a3, a0, t);
    AimsAtAppend(up + a3 + a0, a1, t);
    AimsAtAppend(up + a3 + a0 + a1, a2, t);
    up + a3 + a0 + a1 + a2
  }

  /**
    What the slot loop finds at each slot, nothing at a full column. A slot
    check's move is its own slot, so asking that it be in `slots` adds
    nothing to the source's test.
  */
  function SlotHits(b: Board, slots: seq<Move>): (rs: seq<Option<Move>>)
    requires IsBoard(b)
    requires forall i :: 0 <= i < |slots| ==> slots[i].row == -1 || InBounds(slots[i].row, slots[i].col)
    ensures |rs| == |slots|
  {
    seq(|slots|, j requires 0 <= j < |slots| =>
      if slots[j].row == -1 then None else Scan(b, 2, SlotCellGaps(slots[j].row, slots[j].col), slots))
  }

  /** What the blocking scan's three loops find in turn: `/` diagonals, `\` diagonals, then the slots. */
  function ProtectHits(b: Board, upperEnds: bool): (rs: seq<Option<Move>>)
    requires IsBoard(b)
    ensures |rs| == 12 + 12 + Cols
  {
    var slots := PlayableSlots(b);
    DiagonalHits(b, slots, Rising, upperEnds) + DiagonalHits(b, slots, Falling, upperEnds) + SlotHits(b, slots)
  }

  /** The first move the blocking scan finds: a playable slot at which the human completes a line. */
  function ProtectScan(b: Board, upperEnds: bool): (r: Option<Move>)
    requires IsBoard(b)
    ensures r.Some? ==> r.value in PlayableSlots(b)
  {
    FirstSome(ProtectHits(b, upperEnds))
  }

  /** The blocking scan answers as its `/` loop, failing that its `\` loop, failing that its slot loop. */
  lemma ProtectLoopOrder(b: Board, upperEnds: bool)
    requires IsBoard(b)
    ensures var slots := PlayableSlots(b);
            var rising := FirstSome(DiagonalHits(b, slots, Rising, upperEnds));
            var falling := FirstSome(DiagonalHits(b, slots, Falling, upperEnds));
            ProtectScan(b, upperEnds) ==
              if rising.Some? then rising else if falling.Some? then falling else FirstSome(SlotHits(b, slots))
  {
    var slots := PlayableSlots(b);
    var d1, d2, s := DiagonalHits(b, slots, Rising, upperEnds), DiagonalHits(b, slots, Falling, upperEnds), SlotHits(b, slots);
    FirstSomeAppend(d1 + d2, s);
    FirstSomeAppend(d1, d2);
  }

  /** The `i`-th iteration of the blocking scan: a `/` cell, a `\` cell, or a slot. */
  lemma ProtectHitsAt(b: Board, upperEnds: bool, i: nat)
    requires IsBoard(b) && i < 12 + 12 + Cols
    ensures var slots := PlayableSlots(b);
            ProtectHits(b, upperEnds)[i] ==
              if i < 12 then Scan(b, 2, DiagonalGapsAt(i, Rising, upperEnds), slots)
              else if i < 24 then Scan(b, 2, DiagonalGapsAt(i - 12, Falling, upperEnds), slots)
              else if slots[i - 24].row == -1 then None
              else Scan(b, 2, SlotCellGaps(slots[i - 24].row, slots[i - 24].col), slots)
  {
    var slots := PlayableSlots(b);
    var d1, d2, s := DiagonalHits(b, slots, Rising, upperEnds), DiagonalHits(b, slots, Falling, upperEnds), SlotHits(b, slots);
    assert ProtectHits(b, upperEnds) == d1 + d2 + s;
    if i < 12 {
      assert (d1 + d2 + s)[i] == d1[i];
    } else if i < 24 {
      assert (d1 + d2 + s)[i] == d2[i - 12];
    } else {
      assert (d1 + d2 + s)[i] == s[i - 24];
    }
  }

  /** Whatever any iteration of the blocking scan finds completes a line for the human. */
  lemma ProtectHitSound(b: Board, upperEnds: bool, i: nat)
    requires IsBoard(b) && i < 12 + 12 + Cols && ProtectHits(b, upperEnds)[i].Some?
    ensures Completes(b, 2, ProtectHits(b, upperEnds)[i].value)
  {
    var slots := PlayableSlots(b);
    ProtectHitsAt(b, upperEnds, i);
    if i < 12 {
      ScanSound(b, 2, DiagonalGapsAt(i, Rising, upperEnds), slots);
    } else if i < 24 {
      ScanSound(b, 2, DiagonalGapsAt(i - 12, Falling, upperEnds), slots);
    } else {
      var j := i - 24;
      ScanSound(b, 2, SlotCellGaps(slots[j].row, slots[j].col), slots);
    }
  }

  /** The move the blocking scan finds, looked up in `ms` (`list.index` raises when it is absent). */
  function Block(b: Board, ms: seq<Move>, upperEnds: bool): Choice
    requires IsBoard(b)
  {
    match ProtectScan(b, upperEnds)
    case None => NotCritical
    case Some(m) => if m in ms then Index(IndexOf(ms, m)) else MissingMove(m)
  }

  /**
    `protect_critical_choice`, as written: an index names a landing cell in
    the move list; a move missing from the list is a landing cell too.
  */
  function Protect(b: Board, ms: seq<Move>): (r: Choice)
    requires IsBoard(b)
    ensures r.Index? ==> r.i < |ms| && ms[r.i] in PlayableSlots(b)
    ensures r.MissingMove? ==> r.m !in ms && r.m in PlayableSlots(b)
  {
    Block(b, ms, false)
  }

  /** The blocking scan with the missing upper-end diagonal checks added. */
  function ProtectCorrected(b: Board, ms: seq<Move>): Choice
    requires IsBoard(b)
  {
    Block(b, ms, true)
  }

  /**
    Soundness of either blocking scan: an index names a playable move in
    the list at which the human would complete four in a row; a missing
    move is a playable cell absent from the list. "Not critical" exactly
    when no iteration of the three loops finds a move.
  */
  lemma BlockSound(b: Board, ms: seq<Move>, upperEnds: bool)
    requires IsBoard(b)
    ensures var r := Block(b, ms, upperEnds);
            (r.Index? ==> r.i < |ms| && Playable(b, ms[r.i].row, ms[r.i].col) && Completes(b, 2, ms[r.i]) &&
                          HasFour(Set(b, ms[r.i].row, ms[r.i].col, 2), 2)) &&
            (r.MissingMove? ==> r.m !in ms && Playable(b, r.m.row, r.m.col) && Completes(b, 2, r.m)) &&
            (r.NotCritical? <==> forall i :: 0 <= i < 12 + 12 + Cols ==> ProtectHits(b, upperEnds)[i].None?)
  {
    PlayableSlotsArePlayable(b);
    var hits := ProtectHits(b, upperEnds);
    FirstSomeIsFirst(hits);
    var s := ProtectScan(b, upperEnds);
    if s.Some? {
      var i :| 0 <= i < |hits| && hits[i] == s;
      ProtectHitSound(b, upperEnds, i);
      CompletedFour(b, 2, s.value);
    }
  }

  /** With every playable cell in the move list, the blocking scan never raises. */
  lemma BlockNeverMissing(b: Board, ms: seq<Move>, upperEnds: bool)
    requires IsBoard(b)
    requires forall r, c :: Playable(b, r, c) ==> Move(r, c) in ms
    ensures !Block(b, ms, upperEnds).MissingMove?
  {
    BlockSound(b, ms, upperEnds);
  }

  /**
    A diagonal line is among the checks of its lowest cell's iteration: at
    gaps 0-2 always, and at gap 3 only once the upper ends are checked.
  */
  lemma DiagonalGapListed(g: Gap, upperEnds: bool)
    requires Fits(g) && !g.needEmpty && IsDiagonal(g.dir) && (g.gap == 3 ==> upperEnds)
    ensures 0 <= g.r0 <= 2 && (g.dir == Rising ==> 0 <= g.c0 <= 3) && (g.dir == Falling ==> 3 <= g.c0 < Cols)
    ensures g in DiagonalCellGaps(g.r0, g.c0, g.dir, upperEnds)
  {
    FitsEnds(g);
    var gs := DiagonalCellGaps(g.r0, g.c0, g.dir, upperEnds);
    var i := if g.gap == 3 then 3 else 2 - g.gap;
    assert gs[i] == g;
  }

  /** A line across, or up to the move, is among the checks of the move's own slot. */
  lemma SlotGapListed(g: Gap)
    requires Fits(g) && !g.needEmpty && (g.dir == Across || (IsVertical(g) && g.gap == 3))
    ensures InBounds(Target(g).row, Target(g).col) && g in SlotCellGaps(Target(g).row, Target(g).col)
  {
    FitsEnds(g);
    var r0, c0 := g.r0, g.c0;
    var t := Target(g);
    if g.dir == Up {
      assert t == Move(r0 + 3, c0) by { assert t == Cell(g, 3); }
      assert g == Gap(t.row - 3, t.col, Up, 3, false);
    } else if g.gap == 3 {
      assert t == Move(r0, c0 + 3) by { assert t == Cell(g, 3); }
      assert g == AcrossAt(t.row, t.col - 3, 3);
    } else if g.gap == 0 {
      assert t == Move(r0, c0) by { assert t == Cell(g, 0); }
      assert g == AcrossAt(t.row, t.col, 0);
    } else if g.gap == 1 {
      assert t == Move(r0, c0 + 1) by { assert t == Cell(g, 1); }
      assert g == AcrossAt(t.row, t.col - 1, 1);
    } else {
      assert t == Move(r0, c0 + 2) by { assert g.gap == 2 && t == Cell(g, 2); }
      assert g == AcrossAt(t.row, t.col - 2, 2);
    }
  }

  /**
    Every line the human could complete at a playable cell is tested by
    some iteration of the blocking scan, except a diagonal with the move at
    its upper end, which only the corrected scan tests.
  */
  lemma BlockCovers(b: Board, m: Move, g: Gap, upperEnds: bool) returns (i: nat)
    requires IsBoard(b) && Gravity(b) && Playable(b, m.row, m.col)
    requires Fits(g) && !g.needEmpty && Target(g) == m && Matches(b, 2, g)
    requires IsDiagonal(g.dir) && g.gap == 3 ==> upperEnds
    ensures i < 12 + 12 + Cols && ProtectHits(b, upperEnds)[i].Some?
  {
    PlayableSlotsArePlayable(b);
    assert Hits(b, 2, g, PlayableSlots(b));
    if IsDiagonal(g.dir) {
      i := DiagonalCovered(b, g, upperEnds);
    } else {
      if g.dir == Up {
        assert At(b, Target(g)) == 0;
        VerticalGapIsTop(b, 2, g);
      }
      SlotCovered(b, g, upperEnds);
      i := 24 + m.col;
    }
  }

  /** A diagonal line is found by the diagonal loops when its gap is among their checks. */
  lemma DiagonalCovered(b: Board, g: Gap, upperEnds: bool) returns (i: nat)
    requires IsBoard(b) && Fits(g) && !g.needEmpty && IsDiagonal(g.dir) && Hits(b, 2, g, PlayableSlots(b))
    requires g.gap == 3 ==> upperEnds
    ensures i < 24 && ProtectHits(b, upperEnds)[i].Some?
  {
    var k := DiagonalIteration(g, upperEnds);
    DiagonalIterationFinds(b, g, k, upperEnds);
    i := if g.dir == Rising then k else 12 + k;
  }

  /** The iteration of a diagonal loop that checks a diagonal line: the one at its lowest cell. */
  lemma DiagonalIteration(g: Gap, upperEnds: bool) returns (k: nat)
    requires Fits(g) && !g.needEmpty && IsDiagonal(g.dir) && (g.gap == 3 ==> upperEnds)
    ensures k < 12 && g in DiagonalGapsAt(k, g.dir, upperEnds)
  {
    DiagonalGapListed(g, upperEnds);
    var c := if g.dir == Rising then g.c0 else g.c0 - 3;
    k := (if g.r0 == 0 then 0 else if g.r0 == 1 then 4 else 8) + c;
    assert k / 4 == g.r0 && k % 4 == c;
  }

  /** The diagonal loop's `k`-th iteration finds a line listed among its checks. */
  lemma DiagonalIterationFinds(b: Board, g: Gap, k: nat, upperEnds: bool)
    requires IsBoard(b) && Fits(g) && IsDiagonal(g.dir) && Hits(b, 2, g, PlayableSlots(b)) && k < 12
    requires g in DiagonalGapsAt(k, g.dir, upperEnds)
    ensures var i := if g.dir == Rising then k else 12 + k;
            ProtectHits(b, upperEnds)[i].Some?
  {
    ScanFinds(b, 2, DiagonalGapsAt(k, g.dir, upperEnds), PlayableSlots(b), g);
    ProtectHitsAt(b, upperEnds, if g.dir == Rising then k else 12 + k);
  }

  /**
    A line across, or up to its top, is found by the slot loop at the move's
    own slot; the slot loop is the same in both scans.
  */
  lemma SlotCovered(b: Board, g: Gap, upperEnds: bool)
    requires IsBoard(b) && Fits(g) && !g.needEmpty && (g.dir == Across || (IsVertical(g) && g.gap == 3))
    requires Hits(b, 2, g, PlayableSlots(b)) && PlayableSlots(b)[Target(g).col] == Target(g)
    ensures 0 <= Target(g).col < Cols && ProtectHits(b, upperEnds)[24 + Target(g).col].Some?
  {
    var m := Target(g);
    SlotGapListed(g);
    ScanFinds(b, 2, SlotCellGaps(m.row, m.col), PlayableSlots(b), g);
    ProtectHitsAt(b, upperEnds, 24 + m.col);
  }

  /**
    Completeness of the corrected blocking scan: on a stacked board whose
    playable cells are all in the move list, if the human can complete four
    at a playable cell, the scan returns an index.
  */
  lemma ProtectCorrectedComplete(b: Board, ms: seq<Move>, m: Move)
    requires IsBoard(b) && Gravity(b) && (forall r, c :: Playable(b, r, c) ==> Move(r, c) in ms)
    requires Playable(b, m.row, m.col) && Completes(b, 2, m)
    ensures ProtectCorrected(b, ms).Index?
  {
    var g :| Fits(g) && !g.needEmpty && Target(g) == m && Matches(b, 2, g);
    ProtectCorrectedFinds(b, ms, g);
  }

  /** The corrected blocking scan finds a line the human can complete at a playable cell. */
  lemma ProtectCorrectedFinds(b: Board, ms: seq<Move>, g: Gap)
    requires IsBoard(b) && Gravity(b) && (forall r, c :: Playable(b, r, c) ==> Move(r, c) in ms)
    requires Fits(g) && !g.needEmpty && Matches(b, 2, g) && Playable(b, Target(g).row, Target(g).col)
    ensures ProtectCorrected(b, ms).Index?
  {
    var i := BlockCovers(b, Target(g), g, true);
    FirstSomeFinds(ProtectHits(b, true), i);
    BlockNeverMissing(b, ms, true);
  }

  /**
    Completeness of the blocking scan as written, short of the upper ends:
    on a stacked board whose playable cells are all in the move list, a
    line the human can complete at a playable cell, across, up to its top,
    or along a diagonal with the move at any but its upper end, makes the
    scan return an index.
  */
  lemma ProtectFinds(b: Board, ms: seq<Move>, g: Gap)
    requires IsBoard(b) && Gravity(b) && (forall r, c :: Playable(b, r, c) ==> Move(r, c) in ms)
    requires Fits(g) && !g.needEmpty && Matches(b, 2, g) && Playable(b, Target(g).row, Target(g).col)
    requires IsDiagonal(g.dir) ==> g.gap != 3
    ensures Protect(b, ms).Index?
  {
    var i := BlockCovers(b, Target(g), g, false);
    FirstSomeFinds(ProtectHits(b, false), i);
    BlockNeverMissing(b, ms, false);
  }

  /** In particular, as written the scan blocks every line across and every line up. */
  lemma ProtectFindsStraight(b: Board, ms: seq<Move>, g: Gap)
    requires IsBoard(b) && Gravity(b) && (forall r, c :: Playable(b, r, c) ==> Move(r, c) in ms)
    requires Fits(g) && !g.needEmpty && Matches(b, 2, g) && Playable(b, Target(g).row, Target(g).col)
    requires g.dir == Across || g.dir == Up
    ensures Protect(b, ms).Index?
  {
    ProtectFinds(b, ms, g);
  }

  // ---------------------------------------------------------------------
  // The blocking scan never checks a diagonal three whose open end is above it
  // ---------------------------------------------------------------------

  /**
    As written, a diagonal check of the blocking scan never names the top
    cell of its line, so the line's top cell, in row 3 or above, must
    already hold a human piece for the check to fire.
  */
  lemma DiagonalsNeedUpperPiece(b: Board, slots: seq<Move>, dir: Dir, k: nat)
    requires IsBoard(b) && IsDiagonal(dir) && k < 12
    requires forall r, c :: 3 <= r < Rows && 0 <= c < Cols ==> b[r][c] != 2
    ensures Scan(b, 2, DiagonalGapsAt(k, dir, false), slots).None?
  {
    var gs := DiagonalGapsAt(k, dir, false);
    ScanIsFirstHit(b, 2, gs, slots);
    forall j | 0 <= j < |gs|
      ensures !Matches(b, 2, gs[j])
    {
      var g := gs[j];
      assert g.gap != 3 && Cell(g, 3).row == g.r0 + 3 >= 3;
      assert At(b, Cell(g, 3)) != 2;
    }
  }

  /** The slot loop only finds a human three across or up. */
  lemma SlotsNeedStraightThree(b: Board, slots: seq<Move>, j: nat)
    requires IsBoard(b) && j < |slots|
    requires forall i :: 0 <= i < |slots| ==> slots[i].row == -1 || InBounds(slots[i].row, slots[i].col)
    requires forall g :: Fits(g) && (g.dir == Across || g.dir == Up) ==> !Matches(b, 2, g)
    ensures SlotHits(b, slots)[j].None?
  {
    if slots[j].row != -1 {
      var gs := SlotCellGaps(slots[j].row, slots[j].col);
      ScanIsFirstHit(b, 2, gs, slots);
      forall i | 0 <= i < |gs|
        ensures !Matches(b, 2, gs[i])
      {
        assert gs[i] in gs;
        assert gs[i].dir == Across || gs[i].dir == Up;
      }
    }
  }

  /**
    As written, the blocking scan answers "not critical" on any board where
    the human has no piece in row 3 or above and no three across or up,
    whatever diagonal threat the human has.
  */
  lemma ProtectMissesDiagonalTops(b: Board, ms: seq<Move>)
    requires IsBoard(b)
    requires forall r, c :: 3 <= r < Rows && 0 <= c < Cols ==> b[r][c] != 2
    requires forall g :: Fits(g) && (g.dir == Across || g.dir == Up) ==> !Matches(b, 2, g)
    ensures Protect(b, ms) == NotCritical
  {
    BlockSound(b, ms, false);
    forall i | 0 <= i < 12 + 12 + Cols
      ensures ProtectHits(b, false)[i].None?
    {
      ProtectHitsAt(b, false, i);
      if i < 12 {
        DiagonalsNeedUpperPiece(b, PlayableSlots(b), Rising, i);
      } else if i < 24 {
        DiagonalsNeedUpperPiece(b, PlayableSlots(b), Falling, i - 12);
      } else {
        SlotsNeedStraightThree(b, PlayableSlots(b), i - 24);
      }
    }
  }

  /**
    Row 0 at the bottom: the human holds `(0,0)`, `(1,1)` and `(2,2)`, and
    `(3,3)`, the open upper end of that `/` diagonal, is playable.
  */
  const UpperEndBoard: Board := [
    [2, 1, 1, 2, 0, 0, 2],
    [0, 2, 1, 1, 0, 0, 0],
    [0, 0, 2, 1, 0, 0, 0],
    [0, 0, 0, 0, 0, 0, 0],
    [0, 0, 0, 0, 0, 0, 0],
    [0, 0, 0, 0, 0, 0, 0]]

  /** The playable cells of `UpperEndBoard`, column by column. */
  const UpperEndMoves: seq<Move> :=
    [Move(1, 0), Move(2, 1), Move(3, 2), Move(3, 3), Move(0, 4), Move(0, 5), Move(1, 6)]

  /** The board is laid out as `UpperEndBoard`, cell by cell. */
  ghost predicate LaidOutAsUpperEnd(b: Board) {
    IsBoard(b) && forall r, c :: InBounds(r, c) ==> b[r][c] == UpperEndBoard[r][c]
  }

  /** A column's landing row is the first empty cell from the bottom. */
  lemma LowestEmptyIs(b: Board, c: int, v: int)
    requires IsBoard(b) && 0 <= c < Cols && 0 <= v < Rows && b[v][c] == 0
    requires forall k :: 0 <= k < v ==> b[k][c] != 0
    ensures LowestEmpty(b, c) == Some(v)
  {
    LowestEmptyFromIsFirst(b, c, 0);
  }

  lemma UpperEndSlots(b: Board)
    requires LaidOutAsUpperEnd(b)
    ensures PlayableSlots(b) == UpperEndMoves
  {
    assert b[0][0] == 2 && b[1][0] == 0;
    LowestEmptyIs(b, 0, 1);
    assert b[0][1] == 1 && b[1][1] == 2 && b[2][1] == 0;
    LowestEmptyIs(b, 1, 2);
    assert b[0][2] == 1 && b[1][2] == 1 && b[2][2] == 2 && b[3][2] == 0;
    LowestEmptyIs(b, 2, 3);
    assert b[0][3] == 2 && b[1][3] == 1 && b[2][3] == 1 && b[3][3] == 0;
    LowestEmptyIs(b, 3, 3);
    assert b[0][4] == 0 && b[0][5] == 0;
    LowestEmptyIs(b, 4, 0);
    LowestEmptyIs(b, 5, 0);
    assert b[0][6] == 2 && b[1][6] == 0;
    LowestEmptyIs(b, 6, 1);
  }

  /** Where the human's pieces are on the board. */
  lemma UpperEndHumanCells(b: Board, r: int, c: int)
    requires LaidOutAsUpperEnd(b) && InBounds(r, c)
    ensures b[r][c] == 2 <==> (r == 0 && (c == 0 || c == 3 || c == 6)) || (r == 1 && c == 1) || (r == 2 && c == 2)
  {
  }

  /** The human has no three in any row or column. */
  lemma UpperEndNoStraightThree(b: Board, g: Gap)
    requires LaidOutAsUpperEnd(b) && Fits(g) && (g.dir == Across || g.dir == Up)
    ensures !Matches(b, 2, g)
  {
    var ks := if g.gap == 0 then [1, 2, 3] else if g.gap == 1 then [0, 2, 3] else if g.gap == 2 then [0, 1, 3] else [0, 1, 2];
    UpperEndHumanCells(b, Cell(g, ks[0]).row, Cell(g, ks[0]).col);
    UpperEndHumanCells(b, Cell(g, ks[1]).row, Cell(g, ks[1]).col);
    UpperEndHumanCells(b, Cell(g, ks[2]).row, Cell(g, ks[2]).col);
  }

  lemma UpperEndGravity(b: Board)
    requires LaidOutAsUpperEnd(b)
    ensures Gravity(b)
  {
    assert Gravity(UpperEndBoard);
  }

  /** A `/` three is completed at its upper end. */
  lemma RisingThreeCompletes(b: Board, r: int, c: int)
    requires IsBoard(b) && 0 <= r <= 2 && 0 <= c <= 3
    requires b[r][c] == 2 && b[r + 1][c + 1] == 2 && b[r + 2][c + 2] == 2
    ensures Completes(b, 2, Move(r + 3, c + 3))
  {
    var g := Gap(r, c, Rising, 3, false);
    LineFits(g);
    assert Cell(g, 0) == Move(r, c) && Cell(g, 1) == Move(r + 1, c + 1) && Cell(g, 2) == Move(r + 2, c + 2);
    forall k | 0 <= k < 4 && k != 3
      ensures At(b, Cell(g, k)) == 2
    {
      assert k == 0 || k == 1 || k == 2;
    }
    assert Target(g) == Move(r + 3, c + 3);
    assert Fits(g) && !g.needEmpty && Matches(b, 2, g);
  }

  /** The human's `/` three from `(0,0)` is completed at the playable cell `(3,3)`. */
  lemma UpperEndThreat(b: Board)
    requires LaidOutAsUpperEnd(b)
    ensures Playable(b, 3, 3) && Completes(b, 2, Move(3, 3))
  {
    assert b[0][3] == 2 && b[1][3] == 1 && b[2][3] == 1 && b[3][3] == 0;
    LowestEmptyIs(b, 3, 3);
    assert b[0][0] == 2 && b[1][1] == 2 && b[2][2] == 2;
    RisingThreeCompletes(b, 0, 0);
  }

  /**
    As written, the blocking scan lets the human's winning move through:
    on a board laid out as `UpperEndBoard` the human completes four at the
    playable cell `(3,3)`, yet the answer is "not critical". The corrected
    scan blocks it.
  */
  lemma ProtectMissesUpperEnd(b: Board, ms: seq<Move>)
    requires LaidOutAsUpperEnd(b) && ms == UpperEndMoves
    ensures Gravity(b) && Playable(b, 3, 3) && Completes(b, 2, Move(3, 3))
    ensures Protect(b, ms) == NotCritical
    ensures ProtectCorrected(b, ms).Index?
  {
    UpperEndSlots(b);
    UpperEndGravity(b);
    forall r, c | 3 <= r < Rows && 0 <= c < Cols
      ensures b[r][c] != 2
    {
      UpperEndHumanCells(b, r, c);
    }
    forall g | Fits(g) && (g.dir == Across || g.dir == Up)
      ensures !Matches(b, 2, g)
    {
      UpperEndNoStraightThree(b, g);
    }
    ProtectMissesDiagonalTops(b, ms);
    UpperEndThreat(b);
    PlayableSlotsArePlayable(b);
    ProtectCorrectedComplete(b, ms, Move(3, 3));
  }
}
