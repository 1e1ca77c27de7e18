# Connect Four decision engine, modelled in Dafny

This project models the decision engine of a Connect Four program on a
board of 6 rows and 7 columns. It also models the two small tools that
prepare that engine's score tables.

- **`grid.dfy` (module `Grid`).** The shared board vocabulary:
  - a board as rows of cells, read off an `array2` with `Snapshot`;
  - the gravity predicate (no empty cell below a piece, row 0 at the bottom);
  - the landing cell of a column, found by `ScanColumn`;
  - `FirstSome`, the first answer of a loop that may return early.
- **`run_agent.dfy` (module `RunAgent`).** The search agent:
  - move generation in centre-first order and in column order;
  - the base-10 line key and the score lookup with its placeholder fallback;
  - the static evaluator over the 25 rows, columns and diagonals. It writes
    placeholders (3) on the landing cells and then erases them.
  - depth-limited fail-soft alpha-beta, which places and retracts pieces on
    the shared board;
  - the root search and iterative deepening under a time budget;
  - the two move-making procedures.

  Everything that changes the board is a method over an `array2<int>`. Each
  such method is proved against a specification function on the board's
  value:
  - `Evaluation` for the evaluator;
  - `Minimax` for the search;
  - `RootSearch` for the root loop;
  - `Deepen` for iterative deepening.
- **`heuristic.dfy` (module `Heuristic`).** The critical-move detector:
  - the attack scan, which looks for a move that wins at once for the AI;
  - the blocking scan, which looks for a move the human would win with.

  Both scans are pure functions over a board value.
- **`rule.dfy` (module `Rule`).** The rule-based evaluator:
  - the per-axis threat metric;
  - the setup-risk penalty, which places and takes back one piece;
  - the column choice with its opening table.
- **`connect4_utils.dfy` (module `Connect4Utils`).** Shared utilities:
  - the winner check over the 69 windows of four;
  - the map from open columns to their landing rows;
  - the column-wise board key, with a decoder for it.
- **`minmax_agent.dfy` (module `MinmaxAgent`).** The stand-alone agent class
  `ConnectFourGame`:
  - its board is a character grid with row 0 at the top;
  - open-row and valid-column queries;
  - the winning-move axis counter;
  - the win, then block, then search column choice. The search score stays
    an abstract function.
- **`convert_score.dfy` (module `ConvertScore`).** The pattern-rewriting
  tool:
  - substring test and replace-all on pattern strings;
  - the pattern and upgrade tables;
  - `apply_scoring_rules`, whose dictionary is a `map` reassigned step by step.
- **`mean_eval.dfy` (module `MeanEval`).** The tool that merges two score
  tables and averages the scores they share, truncating towards zero.

How the source's values are represented:

- **Scores in `Rule`.** They are the source's scores times ten. The human's
  threat weighted by 1.1 is then the whole number `11 * threat`.
- **The clock of the search.** It is a parameter, a function from checkpoints
  to elapsed seconds. The checkpoints are: before each depth, before each
  root move, and after each depth.
- **Python's dictionary order in `apply_scoring_rules`.** It is a parameter:
  the sequence `order` of the input's keys.

## Model

| member | source | states |
|---|---|---|
| Grid.ScanColumn | Run_Agent.py:166-170 | the scan up one column returns the lowest empty row, or None when the column is full |
| Grid.LowestEmptyFromIsFirst | Rule.py:14-22 | every cell the column scan passes is occupied; the scan finds nothing exactly when the column is full |
| RunAgent.LineKeyRoundTrip | Run_Agent.py:23-31 | reading a line of digits as a decimal number, first cell most significant, can be decoded back to the line |
| RunAgent.LineKeyInjective | Run_Agent.py:23-31 | two lines of the same length with the same key are equal |
| RunAgent.LineKey | Run_Agent.py:23-31 | the key of a line of n digits lies in 0 .. 10^n - 1; the round trip and injectivity below make it a faithful encoding |
| RunAgent.ConvertLineToKey | Run_Agent.py:23-31 | the loop over the reversed line, adding each cell times 10^i, computes `LineKey`, first cell most significant |
| RunAgent.LineScore | Run_Agent.py:33-45 | a line scores an entry of its table or the default 0, never anything else |
| RunAgent.LineScoreWithoutPlaceholder | Run_Agent.py:33-45 | a line without placeholders scores `table.get(key, 0)` |
| RunAgent.LineScoreFallsBack | Run_Agent.py:39-45 | when the exact key is missing, a line scores like the same line with its placeholders read as empty |
| RunAgent.ColumnPriorityIsPermutation | Run_Agent.py:15 | the centre-first order names each of the 7 columns exactly once |
| RunAgent.MovesIn | Run_Agent.py:165-171 | each generated move is the landing cell of a column from the given order |
| RunAgent.MovesInCovers | Run_Agent.py:166-170 | every non-full column in the order gets a move |
| RunAgent.MovesInOrdered | Run_Agent.py:166-170 | the moves follow the order of the columns |
| RunAgent.MovesDistinct | Run_Agent.py:163-171 | with distinct columns, no two moves share a column |
| RunAgent.GetPrioritizedMoves | Run_Agent.py:163-171 | returns exactly the landing cells of the non-full columns, in the order 3,2,4,1,5,0,6 |
| RunAgent.GetStandardMoves | Run_Agent.py:173-185 | returns 7 entries: each column's landing cell, or [1000, 1000] for a full column |
| RunAgent.StandardAgreesWithPrioritized | Run_Agent.py:163-185 | a column's standard entry is a real move exactly when it is among the prioritized moves, and each prioritized move is its column's standard entry |
| RunAgent.AllLinesFit | Run_Agent.py:57-72 | the evaluator scores 25 lines, all inside the board: 6 rows with table 7, 7 columns with table 6, and 12 diagonals, each with the table of its own length |
| RunAgent.RisingDiagonalsCover | Run_Agent.py:63-70 | a cell lies on a scored rising diagonal exactly when its column minus row is in -2..3, that is, when its rising diagonal has four or more cells |
| RunAgent.FallingDiagonalsCover | Run_Agent.py:63-70 | a cell lies on a scored falling diagonal exactly when its row plus column is in 3..8 |
| RunAgent.DiagonalsDisjoint | Run_Agent.py:63-70 | two scored diagonals of the same direction share no cell, so no diagonal is scored twice |
| RunAgent.WriteCells | Run_Agent.py:54-55 | writes the value on the listed cells and leaves every other cell as it was |
| RunAgent.ScoreLines | Run_Agent.py:57-72 | the three scoring loops sum the line scores of all 25 lines |
| RunAgent.EvaluateBoardState | Run_Agent.py:47-76 | the result is the 25 line scores of the board with a placeholder on each landing cell, and the board ends up exactly as it was |
| RunAgent.ExtremeIsAttained | Run_Agent.py:92 | the folded maximum (minimum) bounds every child value and is one of them |
| RunAgent.MaxStep | Run_Agent.py:90-95 | one child of a max node either keeps the loop invariant or fails high with a fail-soft answer for the whole node |
| RunAgent.MinStep | Run_Agent.py:104-109 | the mirror image for a min node |
| RunAgent.ScoreChild | Run_Agent.py:91-93 | placing a piece, searching the child and retracting gives a fail-soft value of the child and restores the board |
| RunAgent.MaxValue | Run_Agent.py:84-96 | the result is a fail-soft bound of the depth-limited minimax value: exact inside the window, an upper bound at or below alpha, a lower bound at or above beta; the board is restored |
| RunAgent.MinValue | Run_Agent.py:98-110 | the mirror image of `MaxValue` with the human to move |
| RunAgent.RootStep | Run_Agent.py:124-127 | a root score above the best so far is exact and becomes the new first best; one at or below it changes nothing |
| RunAgent.RootMoves | Run_Agent.py:116-127 | the root loop times out exactly when the clock runs out before some root move; otherwise it keeps the first root move of greatest value; the board is restored |
| RunAgent.FindBestMoveAlphaBeta | Run_Agent.py:79-129 | returns exactly the `RootSearch` answer (a timeout, or the first best root move and its score) and restores the board |
| RunAgent.RootSearchIsMinimax | Run_Agent.py:112-129 | without a timeout, the score is the unpruned depth-limited minimax value and the index is the first root move attaining it; with no moves the answer is index 0 and minus infinity |
| RunAgent.FirstMax | Run_Agent.py:124-126 | the strict `>` keeps the first index of the largest value |
| RunAgent.DeepenIndexValid | Run_Agent.py:132-159 | iterative deepening always returns 0 or an index into the prioritized moves |
| RunAgent.DeepenWithoutTimeout | Run_Agent.py:137-157 | when the clock never passes half the limit, all nine depths run and the answer is the depth-9 first best root move |
| RunAgent.BestRootMoveIsMinimax | Run_Agent.py:112-129 | that move's child value is the depth-9 minimax value of the board |
| RunAgent.CopyBoard | Run_Agent.py:144 | the copy is a fresh array with the same cells |
| RunAgent.DeepenIteration | Run_Agent.py:138-157 | one depth: stop with the kept index when the clock ran out or the search timed out; otherwise take the new index and stop once more than half the limit has gone |
| RunAgent.FindMoveWithIterativeDeepening | Run_Agent.py:132-159 | returns the index `Deepen` specifies: that of the last depth that finished, or 0 when none finished; the caller's board is untouched |
| RunAgent.PlayKeepsGravity | Run_Agent.py:187-192 | dropping a piece on a landing cell keeps pieces stacked, and the column's next landing cell is the one above |
| RunAgent.MakeAiMove | Run_Agent.py:187-192 | sets exactly the cell of the chosen prioritized move, or changes nothing for an index past the end |
| RunAgent.MakeRuleBasedMove | Run_Agent.py:194-200 | sets exactly the landing cell of the chosen column, or changes nothing for an out-of-range index or a full column |
| Heuristic.Attack | heuristic.py:18-100 | the attack scan answers "not critical" or an index, and never fails on a missing move |
| Heuristic.AttackSound | heuristic.py:35-98 | a returned index is a position in the move list, and the AI playing there makes four in a row |
| Heuristic.AttackIsFirst | heuristic.py:31-100 | the scan is row-major and the first firing check decides; "not critical" exactly when no cell's checks fire |
| Heuristic.AttackComplete | heuristic.py:18-100 | on a stacked board, if a playable move in the list completes four for the AI in any direction, the scan returns an index |
| Heuristic.AttackFinds | heuristic.py:35-98 | every line of four the AI can complete at a playable listed move is among the checks the scan runs |
| Heuristic.PlayableSlots | heuristic.py:123-135 | 7 slots, slot c in column c, each a cell on the board or [-1, c] |
| Heuristic.PlayableSlotsArePlayable | heuristic.py:123-135 | the slots are exactly the playable cells, and [-1, c] exactly for a full column |
| Heuristic.Protect | heuristic.py:103-195 | as written (no upper-end diagonal checks): an index names a playable slot in the move list, and a missing move (where `list.index` raises) is a playable slot absent from it |
| Heuristic.BlockSound | heuristic.py:140-195 | a returned index names a playable listed cell where the human would make four; a move missing from the list (where `list.index` raises) is such a cell too; "not critical" exactly when no loop iteration finds a move |
| Heuristic.BlockNeverMissing | heuristic.py:147-192 | when every playable cell is in the move list, the blocking scan never raises |
| Heuristic.ProtectMissesDiagonalTops | heuristic.py:143-167 | as written, with no human piece in rows 3-5 and no human three across or up, the blocking scan says "not critical" whatever diagonal threat the human has |
| Heuristic.ProtectMissesUpperEnd | heuristic.py:144-154 | a concrete board where the human wins at the playable (3,3) on a `/` diagonal, yet the scan as written says "not critical" and the corrected scan blocks |
| Heuristic.ProtectFinds | heuristic.py:140-193 | as written, on a stacked board whose playable cells are all listed, a human line completed at a playable cell across, up to its top, or on a diagonal at any but its upper end makes the scan return an index |
| Heuristic.ProtectFindsStraight | heuristic.py:168-193 | as written, every human line across and every human three below an empty top is blocked |
| Heuristic.BlockCovers | heuristic.py:140-193 | every completable human line at a playable cell is tested by some loop iteration, the upper-end diagonal check needing the corrected scan |
| Heuristic.ProtectCorrectedComplete | heuristic.py:140-195 | with the upper-end checks added, if the human can complete four at a playable cell, the scan returns an index |
| Rule.AxesAreOpposite | Rule.py:3-7 | for i in 0..3, direction 7-i is the negation of direction i, and no direction is zero |
| Rule.PieceInDirection | Rule.py:25-37 | a result other than -1 comes from a cell on the board |
| Rule.PieceInDirectionIsCell | Rule.py:25-37 | on a board of pieces, -1 exactly when the target is off the board, and the cell's value otherwise |
| Rule.AxisScore | Rule.py:73-81 | 10000 exactly for four or more; a three scores 5000 with both ends open, 1000 with exactly one blocked, 0 with both blocked; anything shorter scores 0 |
| Rule.CountRun | Rule.py:53-71 | counts the consecutive pieces of the player along one direction, and reports whether a piece or the edge stopped the run |
| Rule.RunIsConsecutive | Rule.py:55-61 | every counted step holds the player's piece, and the step that ends the run does not |
| Rule.CalculateLineThreat | Rule.py:39-86 | returns the best axis score around the cell |
| Rule.LineThreatValues | Rule.py:44-86 | the threat is 0, 1000, 5000 or 10000, and 10000 exactly when some axis holds the cell and three or more of the player's pieces |
| Rule.LineThreatIgnoresBase | Rule.py:44-86 | the threat never depends on the base cell itself |
| Rule.SlotsAreLowestEmpty | Rule.py:11-23 | a slot is None exactly when the column has no empty cell; otherwise it is the column's lowest empty cell |
| Rule.GetPlayableSlots | Rule.py:11-23 | builds exactly those 7 slots |
| Rule.SetupRiskValues | Rule.py:88-111 | the penalty is 0 or -10000, and -10000 exactly when, with the AI's piece on the landing cell, the human would have four through the cell above; 0 for a full column or the top row |
| Rule.CheckSetupRisk | Rule.py:88-111 | returns that penalty and puts the board back as it was |
| Rule.ThreatAbovePlaced | Rule.py:103-108 | with the AI's piece on the empty slot, returns the human's threat through the cell above, and empties the slot again so the board is as before |
| Rule.WriteCell | Rule.py:104 | after a one-cell write the board is the old one with only that cell changed |
| Rule.ArgMax | Rule.py:164-171 | the first position of the largest score |
| Rule.RuleChoice | Rule.py:114-173 | the chosen column is in 0..6 |
| Rule.ScoreColumns | Rule.py:129-154 | scores every column (full ones at -99999) and restores the board |
| Rule.ApplyOpeningTable | Rule.py:156-162 | when every score is zero, open columns take the centre-first table's values; otherwise the scores are unchanged |
| Rule.FirstBestColumn | Rule.py:164-173 | returns the first column with the strictly largest score |
| Rule.RuleEval | Rule.py:114-173 | returns the specified choice and leaves the board as it was |
| Rule.OpenColumnScore | Rule.py:136-154 | an open column scores at least -10000 (-100000 scaled), far above the -99999 of a full one |
| Rule.RuleChoiceIsOpen | Rule.py:132-173 | a full column is never chosen while some column is open |
| Rule.ZeroScoresPlayCentre | Rule.py:156-171 | when every score is zero, the centre column 3 is chosen |
| Rule.EmptyBoardPlaysCentre | Rule.py:114-173 | on the empty board the evaluator plays column 3 |
| Rule.NoThreat | Rule.py:44-86 | with no piece of the player outside the cell, the threat there is 0 |
| Connect4Utils.WindowAt | Connect4Utils.py:55-81 | each of the 69 windows visited lies on the board |
| Connect4Utils.WindowIndex | Connect4Utils.py:55-81 | every window of four on the board is visited: 24 across, 21 up, 12 `/`, 12 `\` |
| Connect4Utils.Winner | Connect4Utils.py:36-84 | a winner found is player 1 or player 2 |
| Connect4Utils.WinnerSound | Connect4Utils.py:36-84 | a winner found is 1 or 2, and that player has four in some window |
| Connect4Utils.WinnerNoneIff | Connect4Utils.py:50-84 | None exactly when no window holds four equal player pieces |
| Connect4Utils.WinnerIsFirst | Connect4Utils.py:55-81 | the first window in scan order that holds a four decides, even when both players have one |
| Connect4Utils.PlayableSlots | Connect4Utils.py:86-101 | every key is a column on the board whose value is an empty cell of it |
| Connect4Utils.PlayableSlotsAreLowest | Connect4Utils.py:86-101 | a column is a key exactly when it has an empty cell, and its value is the lowest one |
| Connect4Utils.IntToString | Connect4Utils.py:146 | a piece's text never contains the separator, and a digit 1..9 is one character |
| Connect4Utils.BoardHash | Connect4Utils.py:135-148 | the key has exactly 7 separators, one after each column |
| Connect4Utils.ParseKeyFrom | Connect4Utils.py:141-147 | segment c of the key holds column c's pieces from the bottom up, to the first empty cell |
| Connect4Utils.DecodeBoardHash | Connect4Utils.py:135-148 | on a stacked board of pieces, decoding the key gives the board back |
| Connect4Utils.BoardHashInjective | Connect4Utils.py:135-148 | two such boards with the same key are equal |
| MinmaxAgent.OpenRowFrom | minmax_d6_agent.py:33-36 | the scan returns -1 or a row at or below its start; it finds a row when the top cell is empty |
| MinmaxAgent.OpenRowIsLargest | minmax_d6_agent.py:31-36 | the open row is the largest row with an empty cell, and -1 exactly when the column has none |
| MinmaxAgent.ValidColumn | minmax_d6_agent.py:27-29 | a valid column is on the board, and `_get_next_open_row` finds a row in it |
| MinmaxAgent.ValidColumnIffOpen | minmax_d6_agent.py:27-36 | on a board without floating pieces, a column in range is valid exactly when it has an open row |
| MinmaxAgent.ConnectFourGame.constructor | minmax_d6_agent.py:8-17 | a fresh 6x7 board of empty slots and the given search depth |
| MinmaxAgent.ConnectFourGame.Default | minmax_d6_agent.py:8-17 | a game created without a depth: a fresh empty board and the default depth 5 |
| MinmaxAgent.ConnectFourGame.GetNextOpenRow | minmax_d6_agent.py:31-36 | returns the open row from the bottom up, or -1 |
| MinmaxAgent.StreakHolds | minmax_d6_agent.py:46-51 | every step a streak counts holds the player's piece |
| MinmaxAgent.ConnectFourGame.CountStreak | minmax_d6_agent.py:46-58 | counts the player's pieces along one side of one axis, stopping at the edge or another cell |
| MinmaxAgent.ConnectFourGame.IsWinningMove | minmax_d6_agent.py:38-62 | true exactly when some axis counts four or more |
| MinmaxAgent.WinningMoveIffFour | minmax_d6_agent.py:38-62 | the axis count reaches four exactly when, with the player on the cell, four cells in a line through it hold the player |
| MinmaxAgent.WinningMoveIgnoresCentre | minmax_d6_agent.py:38-62 | the check never reads the move's own cell |
| MinmaxAgent.FirstLandingWinIsFirst | minmax_d6_agent.py:126-138 | the scan finds the leftmost valid column whose landing cell wins for the player, or none exactly when there is no such column |
| MinmaxAgent.ConnectFourGame.FindLandingWin | minmax_d6_agent.py:126-138 | returns that column, reading the board only |
| MinmaxAgent.BestUpToIsFirstMax | minmax_d6_agent.py:141-158 | the search loop keeps the first valid column with the largest score: no valid column scores more and every earlier valid column scores less |
| MinmaxAgent.BestUpToNone | minmax_d6_agent.py:141-158 | the search loop finds no column exactly when no column is valid |
| MinmaxAgent.ConnectFourGame.ScoreColumn | minmax_d6_agent.py:144-154 | -5000 when the AI's piece would let the human win on the cell above, the search score of the copy otherwise; the board is not written |
| MinmaxAgent.ConnectFourGame.SearchColumns | minmax_d6_agent.py:141-158 | returns the first best column, or -1 when no column is valid |
| MinmaxAgent.ConnectFourGame.FindAiMove | minmax_d6_agent.py:121-160 | returns the move `AiMove` specifies: win, else block, else best score, else the centre |
| MinmaxAgent.AiMoveTakesWin | minmax_d6_agent.py:126-131 | a winning drop for the AI is always taken, the leftmost one |
| MinmaxAgent.AiMoveBlocks | minmax_d6_agent.py:133-138 | without one, the human's leftmost winning drop is blocked |
| MinmaxAgent.AiMoveSearches | minmax_d6_agent.py:140-160 | with neither, the move is a valid column with the largest score and every earlier valid column scores less |
| MinmaxAgent.AiMoveIsValid | minmax_d6_agent.py:141-160 | the move is valid whenever some column is; it is 3 when none is |
| ConvertScore.ReplaceAllLength | convert_score.py:80 | replacing a pattern by a string of its length keeps the length |
| ConvertScore.ReplaceAllAbsent | convert_score.py:80 | a string without the pattern is unchanged |
| ConvertScore.ReplaceAllChanges | convert_score.py:80 | a string containing the pattern changes when it is replaced by a different string of the same length |
| ConvertScore.UpgradesWellFormed | convert_score.py:47-61 | each replacement has its pattern's length, differs from it, and carries one of the written scores |
| ConvertScore.SidePatternsNonEmpty | convert_score.py:35-42 | each side tries 9 patterns, twos then threes, and the win last |
| ConvertScore.ApplyUpgrades | convert_score.py:78-81 | writes each upgrade's new pattern with its score, in order |
| ConvertScore.ApplyPattern | convert_score.py:70-81 | one pattern tried on a state: the win or threat score when the state contains it, then its upgrades, as `PatternStep` specifies |
| ConvertScore.ApplySide | convert_score.py:68-81 | one side's pass over its patterns, as `ApplyPatterns` specifies |
| ConvertScore.ApplyScoringRules | convert_score.py:22-99 | the output keys are the input keys plus the upgrades generated from input states; every output score is the input's score or a written score |
| ConvertScore.UpgradeKeys | convert_score.py:79-81 | the upgrade loop adds exactly the replaced patterns |
| ConvertScore.PatternsKeys | convert_score.py:69-81 | a side's pass adds exactly the upgrades of the critical patterns the state contains |
| ConvertScore.StateKeys | convert_score.py:68-97 | a state's iteration adds exactly the patterns it generates, and keeps every key |
| ConvertScore.StatesKeepKeys | convert_score.py:65-97 | the whole loop never drops a key of the input table |
| ConvertScore.StatesKeys | convert_score.py:65-97 | the whole loop's keys are the input keys plus exactly the generated ones |
| ConvertScore.StatesScores | convert_score.py:65-97 | every score is the input's own score or one of -10000, -200, 200, 10000, 20, 30, 40, 50 |
| ConvertScore.StatesLength | convert_score.py:47-97 | when all input keys and all visited states have length n, so do all output keys |
| ConvertScore.UpgradeSparesState | convert_score.py:78-81 | writing the upgrades never overwrites the state itself |
| ConvertScore.PatternsScore | convert_score.py:69-75 | after a side's pass the state holds the score of the last pattern that matched |
| ConvertScore.SideScore | convert_score.py:68-91 | that is the win score if the state holds the side's four, else the threat score if it holds any of its patterns, else what it was |
| ConvertScore.StateScoreAfterIteration | convert_score.py:68-97 | right after its own iteration a state scores 10000 with "1111", else 200 with any AI pattern, else -10000 with "2222", else -200 with any opponent pattern, else its old score |
| MeanEval.HalfTowardZero | mean_eval.py:69 | half of x truncated towards zero: the remainder is 0 or 1 with the sign of x |
| MeanEval.AverageBetween | mean_eval.py:69 | the average lies between the two scores and does not depend on their order |
| MeanEval.MergeAndAverageScores | mean_eval.py:41-73 | the output has the base table's keys; with either table empty it is the base table; otherwise a shared key gets the truncated average and any other key keeps its base score |

## Left out

- Console output and prompts are not modelled: the board display, the human move prompt, the AI-mode prompt, `play_game` and the game loops. They are interactive I/O.
- Loading and saving score tables and `main` functions are not modelled, because they are file I/O. Score tables are given maps.
- `time.time()` is not read. The elapsed time at each checkpoint is a parameter `clock`.
- `deepcopy` is a value copy, or a fresh array in `RunAgent.CopyBoard`.
- `print` calls are not modelled, and neither is the `averaged_count` counter of `merge_and_average_scores`, which only feeds a print.
- MinmaxAgent.ConnectFourGame.FindAiMove: the float-valued look-ahead score (`_evaluate_board_heuristic` and `_search_best_play_recursive`) is an abstract parameter `search`. It receives both the game's board and the copy after the drop, because the source's recursion reads `self.board` where it means its own argument (minmax_d6_agent.py:104-105). That slip is therefore not modelled further.
- MeanEval.MergeAndAverageScores: `None` tables are not modelled; an empty map stands for "no table". Scores are unbounded integers, so the float division inside `int((b + o) / 2)` is exact here. In the source it loses precision only for sums beyond 2^53.
- Rule.RuleEval: scores are the source's times ten. The weight 1.1 becomes `11 * threat` and -99999 becomes -999990. Every threat is 0, 1000, 5000 or 10000, so the order of the scores, and with it the choice, is the same.
- MinmaxAgent.ConnectFourGame.constructor: the search depth is a natural number. Python accepts a negative depth, which never meets the `depth == 0` stop of `_search_best_play_recursive`; that search is an abstract parameter here anyway.
- RunAgent.MakeAiMove: the move index is a natural number. Python would index a negative index from the end of the list; the source's callers never pass one.
- RunAgent.MakeRuleBasedMove: the column index is a natural number, for the same reason.
- ConvertScore.ApplyScoringRules: the dictionary's key order is the parameter `order`, which must list the input's keys.
- The docstring of `merge_and_average_scores` says the base table is modified. The code copies it first, and the model follows the code: the base table is a value and never changes.

## Findings

| source | as written | input that shows it | evidently intended | confidence | as-written member | corrected member |
|---|---|---|---|---|---|---|
| heuristic.py:144-167 | the diagonal loops of `protect_critical_choice` test the two gapped threes and the solid three with the move at its lower end, but never the solid three whose open end is above it, at (r+3, c±3) | human pieces at (0,0), (1,1), (2,2) with (3,3) playable, and no human three across or up: the scan answers "not critical" while the human wins at (3,3) next move | the upper-end cell of a solid diagonal three is checked too, so that every immediate human win at a playable cell is blocked | not executed | Heuristic.ProtectMissesUpperEnd | Heuristic.ProtectCorrectedComplete |
