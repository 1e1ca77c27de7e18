/**
  The offline score-conversion tool: it rewrites a table from line
  patterns (strings over '0', '1', '2', '3') to scores. Every pattern that
  contains a known threat or win of either player gets that threat's or
  win's score, and for the critical threats new patterns are added in
  which the threat's empty cells are replaced by the placeholder '3', with
  scores of their own.

  The source walks the table's keys in the dictionary's order; that order
  is the parameter `order`. The dictionary the source builds in place is a
  map that the methods reassign; the functions below give its value after
  each step of the loops.
*/
module ConvertScore {

  // ---------------------------------------------------------------------
  // Substrings and replace-all
  // ---------------------------------------------------------------------

  /** Python's `p in s` on strings: `p` occurs in `s`. */
  predicate Contains(s: string, p: string) {
    exists i :: 0 <= i <= |s| - |p| && OccursAt(s, p, i)
  }

  /** `p` occurs in `s` from position `i`. */
  predicate OccursAt(s: string, p: string, i: int) {
    0 <= i <= |s| - |p| && s[i..i + |p|] == p
  }

  /** An occurrence in the tail of `s` is an occurrence in `s`. */
  lemma ContainsTail(s: string, p: string)
    requires |s| > 0 && Contains(s[1..], p)
    ensures Contains(s, p)
  {
    var i :| 0 <= i <= |s[1..]| - |p| && OccursAt(s[1..], p, i);
    assert s[1..][i..i + |p|] == s[i + 1..i + 1 + |p|];
    assert OccursAt(s, p, i + 1);
  }

  /** Python's `s.replace(p, q)`: every occurrence of `p`, from the left and without overlaps, becomes `q`. */
  function ReplaceAll(s: string, p: string, q: string): string
    requires |p| > 0
    decreases |s|
  {
    if |s| < |p| then s
    else if s[..|p|] == p then q + ReplaceAll(s[|p|..], p, q)
    else [s[0]] + ReplaceAll(s[1..], p, q)
  }

  /** Replacing a pattern by a string of the same length keeps the length. */
  lemma {:induction false} ReplaceAllLength(s: string, p: string, q: string)
    requires |p| > 0 && |q| == |p|
    ensures |ReplaceAll(s, p, q)| == |s|
    decreases |s|
  {
    if |s| >= |p| {
      if s[..|p|] == p {
        ReplaceAllLength(s[|p|..], p, q);
      } else {
        ReplaceAllLength(s[1..], p, q);
      }
    }
  }

  /** A string without `p` comes back unchanged. */
  lemma {:induction false} ReplaceAllAbsent(s: string, p: string, q: string)
    requires |p| > 0 && !Contains(s, p)
    ensures ReplaceAll(s, p, q) == s
    decreases |s|
  {
    if |s| >= |p| {
      assert !OccursAt(s, p, 0);
      if Contains(s[1..], p) {
        ContainsTail(s, p);
      }
      ReplaceAllAbsent(s[1..], p, q);
    }
  }

  /** A string that contains `p` changes when `p` is replaced by another string of its length. */
  lemma {:induction false} ReplaceAllChanges(s: string, p: string, q: string)
    requires |p| > 0 && |q| == |p| && q != p && Contains(s, p)
    ensures ReplaceAll(s, p, q) != s
    decreases |s|
  {
    var i :| 0 <= i <= |s| - |p| && OccursAt(s, p, i);
    if s[..|p|] == p {
      ReplaceAllLength(s[|p|..], p, q);
      assert ReplaceAll(s, p, q)[..|p|] == q;
    } else {
      assert i != 0;
      assert s[1..][i - 1..i - 1 + |p|] == s[i..i + |p|];
      assert OccursAt(s[1..], p, i - 1);
      ReplaceAllChanges(s[1..], p, q);
      assert ReplaceAll(s, p, q)[1..] == ReplaceAll(s[1..], p, q);
    }
  }

  // ---------------------------------------------------------------------
  // The pattern lists and upgrade tables
  // ---------------------------------------------------------------------

  const OpponentWins: seq<string> := ["2222"]
  const OpponentThreats3: seq<string> := ["02220", "0222", "2220", "2202", "2022"]
  const OpponentThreats2: seq<string> := ["02020", "00220", "02200"]

  const AiWins: seq<string> := ["1111"]
  const AiOpportunities3: seq<string> := ["01110", "0111", "1110", "1101", "1011"]
  const AiOpportunities2: seq<string> := ["01010", "00110", "01100"]

  /** For each critical pattern, the patterns with a placeholder that replace it, and their scores. */
  const OpponentCriticalUpgrades: map<string, seq<(string, int)>> := map[
    "02220" := [("32220", -10000), ("02223", -10000), ("32223", -10000)],
    "0222" := [("3222", -10000)], "2220" := [("2223", -10000)],
    "2202" := [("2232", -10000)], "2022" := [("2322", -10000)],
    "02020" := [("02320", -10000), ("32320", -10000), ("32323", -10000)],
    "02200" := [("32233", -10000)], "00220" := [("33223", -10000)]
  ]

  const AiCriticalUpgrades: map<string, seq<(string, int)>> := map[
    "01110" := [("31110", 50), ("01113", 50), ("31113", 10000)],
    "0111" := [("3111", 20)], "1110" := [("1113", 40)],
    "1101" := [("1131", 30)], "1011" := [("1311", 30)],
    "01010" := [("01310", 30), ("31310", 40), ("31313", 40)],
    "01100" := [("31133", 50)], "00110" := [("33113", 50)]
  ]

  /** The two passes over the patterns: the opponent's (defensive) and then the AI's (offensive). */
  datatype Side = Opponent | Ai

  /** The patterns of one side in the order the pass tries them: twos, threes, then the win. */
  function SidePatterns(side: Side): seq<string> {
    match side
    case Opponent => OpponentThreats2 + OpponentThreats3 + OpponentWins
    case Ai => AiOpportunities2 + AiOpportunities3 + AiWins
  }

  function WinPatterns(side: Side): seq<string> {
    match side
    case Opponent => OpponentWins
    case Ai => AiWins
  }

  function WinScore(side: Side): int {
    match side
    case Opponent => -10000
    case Ai => 10000
  }

  function ThreatScore(side: Side): int {
    match side
    case Opponent => -200
    case Ai => 200
  }

  function CriticalUpgrades(side: Side): map<string, seq<(string, int)>> {
    match side
    case Opponent => OpponentCriticalUpgrades
    case Ai => AiCriticalUpgrades
  }

  /** Every score the tool can write. */
  const Written: set<int> := {-10000, -200, 200, 10000, 20, 30, 40, 50}

  predicate NonEmpty(pats: seq<string>) {
    forall j :: 0 <= j < |pats| ==> |pats[j]| > 0
  }

  /**
    The upgrade tables are well formed: each replacement has its
    pattern's length and differs from it, and each score is one of the
    scores the tool writes.
  */
  lemma UpgradesWellFormed(side: Side, p: string)
    requires p in CriticalUpgrades(side)
    ensures |p| > 0
    ensures forall j :: 0 <= j < |CriticalUpgrades(side)[p]| ==>
              var u := CriticalUpgrades(side)[p][j];
              |u.0| == |p| && u.0 != p && u.1 in Written
  {
  }

  lemma SidePatternsNonEmpty(side: Side)
    ensures NonEmpty(SidePatterns(side))
    ensures |SidePatterns(side)| == 9
    ensures SidePatterns(side)[8] == WinPatterns(side)[0] && |WinPatterns(side)| == 1
    ensures forall j :: 0 <= j < 8 ==> SidePatterns(side)[j] !in WinPatterns(side)
  {
  }

  // ---------------------------------------------------------------------
  // The loops, step by step
  // ---------------------------------------------------------------------

  /** The scores after writing the first `|ups|` upgrades of pattern `p` in `state`. */
  function Upgrade(m: map<string, int>, state: string, p: string, ups: seq<(string, int)>): map<string, int>
    requires |p| > 0
    decreases |ups|
  {
    if ups == [] then m
    else
      var last := ups[|ups| - 1];
      Upgrade(m, state, p, ups[..|ups| - 1])[ReplaceAll(state, p, last.0) := last.1]
  }

  /** One pattern tried on `state`: its base score for `state`, then its upgrades if it is critical. */
  function PatternStep(m: map<string, int>, state: string, side: Side, p: string): map<string, int>
    requires |p| > 0
  {
    if !Contains(state, p) then m
    else
      var m1 := m[state := if p in WinPatterns(side) then WinScore(side) else ThreatScore(side)];
      if p in CriticalUpgrades(side) then Upgrade(m1, state, p, CriticalUpgrades(side)[p]) else m1
  }

  /** The scores after trying the patterns `pats` on `state`, in turn. */
  function ApplyPatterns(m: map<string, int>, state: string, side: Side, pats: seq<string>): map<string, int>
    requires NonEmpty(pats)
    decreases |pats|
  {
    if pats == [] then m
    else PatternStep(ApplyPatterns(m, state, side, pats[..|pats| - 1]), state, side, pats[|pats| - 1])
  }

  /** One iteration of the loop over the states: the opponent's patterns, then the AI's. */
  function ApplyState(m: map<string, int>, state: string): map<string, int> {
    SidePatternsNonEmpty(Opponent);
    SidePatternsNonEmpty(Ai);
    ApplyPatterns(ApplyPatterns(m, state, Opponent, SidePatterns(Opponent)), state, Ai, SidePatterns(Ai))
  }

  /** The scores after the loop has visited `states`, in turn. */
  function ApplyStates(m: map<string, int>, states: seq<string>): map<string, int>
    decreases |states|
  {
    if states == [] then m
    else ApplyState(ApplyStates(m, states[..|states| - 1]), states[|states| - 1])
  }

  // ---------------------------------------------------------------------
  // apply_scoring_rules
  // ---------------------------------------------------------------------

  method ApplyUpgrades(processedScores: map<string, int>, state: string, pattern: string, ups: seq<(string, int)>)
    returns (scores: map<string, int>)
    requires |pattern| > 0
    ensures scores == Upgrade(processedScores, state, pattern, ups)
  {
    scores := processedScores;
    for j := 0 to |ups|
      invariant scores == Upgrade(processedScores, state, pattern, ups[..j])
    {
      var (newPatternStr, score) := ups[j];
      var newState := ReplaceAll(state, pattern, newPatternStr);
      scores := scores[newState := score];
      assert ups[..j + 1][..j] == ups[..j];
    }
    assert ups[..|ups|] == ups;
  }

  /** One iteration of the pattern loop: `pattern` tried on `state`. */
  method ApplyPattern(processedScores: map<string, int>, state: string, side: Side, pattern: string)
    returns (scores: map<string, int>)
    requires |pattern| > 0
    ensures scores == PatternStep(processedScores, state, side, pattern)
  {
    scores := processedScores;
    if Contains(state, pattern) {
      if pattern in WinPatterns(side) {
        scores := scores[state := WinScore(side)];
      } else {
        scores := scores[state := ThreatScore(side)];
      }
      var upgrades := CriticalUpgrades(side);
      if pattern in upgrades {
        scores := ApplyUpgrades(scores, state, pattern, upgrades[pattern]);
      }
    }
  }

  /** Trying the first `i + 1` patterns is trying the first `i`, then pattern `i`. */
  lemma ApplyPatternsLast(m: map<string, int>, state: string, side: Side, pats: seq<string>, i: nat)
    requires NonEmpty(pats) && i < |pats|
    ensures ApplyPatterns(m, state, side, pats[..i + 1]) ==
            PatternStep(ApplyPatterns(m, state, side, pats[..i]), state, side, pats[i])
  {
    assert pats[..i + 1][..i] == pats[..i];
  }

  /** One pass over a side's patterns for `state`. */
  method ApplySide(processedScores: map<string, int>, state: string, side: Side) returns (scores: map<string, int>)
    ensures scores == ApplyPatterns(processedScores, state, side, SidePatterns(side))
  {
    var patterns := SidePatterns(side);
    assert NonEmpty(patterns) by {
      SidePatternsNonEmpty(side);
    }
    scores := processedScores;
    for i := 0 to |patterns|
      invariant scores == ApplyPatterns(processedScores, state, side, patterns[..i])
    {
      ApplyPatternsLast(processedScores, state, side, patterns, i);
      scores := ApplyPattern(scores, state, side, patterns[i]);
    }
    assert patterns[..|patterns|] == patterns;
  }

  /**
    `apply_scoring_rules`: the input table is a value and stays as it is;
    the output starts as a copy of it, so every input pattern is an output
    pattern, and the only new patterns are upgrades of input patterns.
    Every output score is the input's score for that pattern or a score
    the tool writes.
  */
  method ApplyScoringRules(initialScores: map<string, int>, order: seq<string>)
    returns (processedScores: map<string, int>)
    requires forall s :: s in order <==> s in initialScores
    ensures processedScores == ApplyStates(initialScores, order)
    ensures forall k :: k in processedScores <==>
              k in initialScores || exists i :: 0 <= i < |order| && Generates(order[i], k)
    ensures forall k :: k in processedScores ==>
              (k in initialScores && processedScores[k] == initialScores[k]) || processedScores[k] in Written
  {
    processedScores := initialScores;
    for i := 0 to |order|
      invariant processedScores == ApplyStates(initialScores, order[..i])
    {
      var state := order[i];
      processedScores := ApplySide(processedScores, state, Opponent);
      processedScores := ApplySide(processedScores, state, Ai);
      assert order[..i + 1][..i] == order[..i];
    }
    assert order[..|order|] == order;
    forall k
      ensures k in processedScores <==> k in initialScores || exists i :: 0 <= i < |order| && Generates(order[i], k)
    {
      StatesKeys(initialScores, order, k);
    }
    StatesScores(initialScores, initialScores, order);
  }

  // ---------------------------------------------------------------------
  // Which patterns the output holds
  // ---------------------------------------------------------------------

  /** `k` is one of the upgrades `ups` of pattern `p` in `state`. */
  ghost predicate UpgradedBy(state: string, p: string, ups: seq<(string, int)>, k: string)
    requires |p| > 0
  {
    exists j :: 0 <= j < |ups| && k == ReplaceAll(state, p, ups[j].0)
  }

  /** `k` is an upgrade of `state` by one of the critical patterns among `pats` that `state` contains. */
  ghost predicate GeneratedBy(state: string, side: Side, pats: seq<string>, k: string)
    requires NonEmpty(pats)
  {
    exists j :: 0 <= j < |pats| && Contains(state, pats[j]) && pats[j] in CriticalUpgrades(side) &&
                UpgradedBy(state, pats[j], CriticalUpgrades(side)[pats[j]], k)
  }

  /** `k` is a pattern the iteration for `state` adds: `state.replace(p, q)` for a pattern `p` it contains and an upgrade `q` of `p`. */
  ghost predicate Generates(state: string, k: string) {
    SidePatternsNonEmpty(Opponent);
    SidePatternsNonEmpty(Ai);
    GeneratedBy(state, Opponent, SidePatterns(Opponent), k) || GeneratedBy(state, Ai, SidePatterns(Ai), k)
  }

  lemma {:induction false} UpgradeKeys(m: map<string, int>, state: string, p: string, ups: seq<(string, int)>, k: string)
    requires |p| > 0
    ensures k in Upgrade(m, state, p, ups) <==> k in m || UpgradedBy(state, p, ups, k)
    decreases |ups|
  {
    if ups != [] {
      var n := |ups| - 1;
      UpgradeKeys(m, state, p, ups[..n], k);
      if UpgradedBy(state, p, ups[..n], k) {
        var j :| 0 <= j < n && k == ReplaceAll(state, p, ups[..n][j].0);
        assert ups[..n][j] == ups[j];
      }
      if UpgradedBy(state, p, ups, k) && k != ReplaceAll(state, p, ups[n].0) {
        var j :| 0 <= j < |ups| && k == ReplaceAll(state, p, ups[j].0);
        assert ups[..n][j] == ups[j];
      }
    }
  }

  /** `k` is an upgrade of `state` by pattern `p`, which `state` contains and which is critical. */
  ghost predicate StepGenerates(state: string, side: Side, p: string, k: string)
    requires |p| > 0
  {
    Contains(state, p) && p in CriticalUpgrades(side) && UpgradedBy(state, p, CriticalUpgrades(side)[p], k)
  }

  lemma PatternStepKeys(m: map<string, int>, state: string, side: Side, p: string, k: string)
    requires |p| > 0 && state in m
    ensures state in PatternStep(m, state, side, p)
    ensures k in PatternStep(m, state, side, p) <==> k in m || StepGenerates(state, side, p, k)
  {
    if Contains(state, p) {
      var m1 := m[state := if p in WinPatterns(side) then WinScore(side) else ThreatScore(side)];
      assert m1.Keys == m.Keys;
      if p in CriticalUpgrades(side) {
        UpgradeKeys(m1, state, p, CriticalUpgrades(side)[p], k);
        UpgradeKeys(m1, state, p, CriticalUpgrades(side)[p], state);
      }
    }
  }

  lemma GeneratedBySnoc(state: string, side: Side, pats: seq<string>, k: string)
    requires NonEmpty(pats) && |pats| > 0
    ensures GeneratedBy(state, side, pats, k) <==>
            GeneratedBy(state, side, pats[..|pats| - 1], k) || StepGenerates(state, side, pats[|pats| - 1], k)
  {
    var n := |pats| - 1;
    if GeneratedBy(state, side, pats[..n], k) {
      var j :| 0 <= j < n && Contains(state, pats[..n][j]) && pats[..n][j] in CriticalUpgrades(side) &&
               UpgradedBy(state, pats[..n][j], CriticalUpgrades(side)[pats[..n][j]], k);
      assert pats[..n][j] == pats[j];
    }
    if GeneratedBy(state, side, pats, k) && !StepGenerates(state, side, pats[n], k) {
      var j :| 0 <= j < |pats| && Contains(state, pats[j]) && pats[j] in CriticalUpgrades(side) &&
               UpgradedBy(state, pats[j], CriticalUpgrades(side)[pats[j]], k);
      assert j != n;
      assert pats[..n][j] == pats[j];
    }
  }

  lemma {:induction false} PatternsKeys(m: map<string, int>, state: string, side: Side, pats: seq<string>, k: string)
    requires NonEmpty(pats) && state in m
    ensures state in ApplyPatterns(m, state, side, pats)
    ensures k in ApplyPatterns(m, state, side, pats) <==> k in m || GeneratedBy(state, side, pats, k)
    decreases |pats|
  {
    if pats != [] {
      var n := |pats| - 1;
      PatternsKeys(m, state, side, pats[..n], k);
      PatternStepKeys(ApplyPatterns(m, state, side, pats[..n]), state, side, pats[n], k);
      GeneratedBySnoc(state, side, pats, k);
    }
  }

  lemma StateKeys(m: map<string, int>, state: string, k: string)
    requires state in m
    ensures state in ApplyState(m, state)
    ensures k in ApplyState(m, state) <==> k in m || Generates(state, k)
  {
    SidePatternsNonEmpty(Opponent);
    SidePatternsNonEmpty(Ai);
    PatternsKeys(m, state, Opponent, SidePatterns(Opponent), k);
    var m' := ApplyPatterns(m, state, Opponent, SidePatterns(Opponent));
    PatternsKeys(m', state, Ai, SidePatterns(Ai), k);
  }

  /** The loop never drops a pattern: every key of the input is a key of the output. */
  lemma {:induction false} StatesKeepKeys(m: map<string, int>, states: seq<string>)
    requires forall i :: 0 <= i < |states| ==> states[i] in m
    ensures m.Keys <= ApplyStates(m, states).Keys
    decreases |states|
  {
    if states != [] {
      var n := |states| - 1;
      var prefix := states[..n];
      StatesKeepKeys(m, prefix);
      var m' := ApplyStates(m, prefix);
      forall s | s in m'
        ensures s in ApplyStates(m, states)
      {
        StateKeys(m', states[n], s);
      }
    }
  }

  /** The output's patterns are the input's and the upgrades each visited state generates. */
  lemma {:induction false} StatesKeys(m: map<string, int>, states: seq<string>, k: string)
    requires forall i :: 0 <= i < |states| ==> states[i] in m
    ensures k in ApplyStates(m, states) <==> k in m || exists i :: 0 <= i < |states| && Generates(states[i], k)
    decreases |states|
  {
    if states != [] {
      var n := |states| - 1;
      var prefix := states[..n];
      StatesKeys(m, prefix, k);
      StatesKeepKeys(m, prefix);
      StateKeys(ApplyStates(m, prefix), states[n], k);
      SomeSplitsAtLast(states, prefix, s => Generates(s, k));
    }
  }

  /** Some element of `xs` satisfies `p` iff some element of its prefix does, or its last one. */
  lemma SomeSplitsAtLast(xs: seq<string>, prefix: seq<string>, p: string -> bool)
    requires xs != [] && prefix == xs[..|xs| - 1]
    ensures (exists i :: 0 <= i < |xs| && p(xs[i])) <==>
            (exists i :: 0 <= i < |prefix| && p(prefix[i])) || p(xs[|xs| - 1])
  {
    if exists i :: 0 <= i < |xs| && p(xs[i]) {
      var i :| 0 <= i < |xs| && p(xs[i]);
      if i < |prefix| {
        assert prefix[i] == xs[i];
      }
    }
    if exists i :: 0 <= i < |prefix| && p(prefix[i]) {
      var i :| 0 <= i < |prefix| && p(prefix[i]);
      assert xs[i] == prefix[i];
    }
  }

  // ---------------------------------------------------------------------
  // Which scores the output holds
  // ---------------------------------------------------------------------

  /** Every score of `m` is `init`'s score for that pattern or one the tool writes. */
  ghost predicate ScoresFrom(m: map<string, int>, init: map<string, int>) {
    forall k :: k in m ==> (k in init && m[k] == init[k]) || m[k] in Written
  }

  lemma {:induction false} UpgradeScores(m: map<string, int>, init: map<string, int>, state: string, p: string, ups: seq<(string, int)>)
    requires |p| > 0 && ScoresFrom(m, init)
    requires forall j :: 0 <= j < |ups| ==> ups[j].1 in Written
    ensures ScoresFrom(Upgrade(m, state, p, ups), init)
    decreases |ups|
  {
    if ups != [] {
      UpgradeScores(m, init, state, p, ups[..|ups| - 1]);
    }
  }

  lemma {:induction false} PatternsScores(m: map<string, int>, init: map<string, int>, state: string, side: Side, pats: seq<string>)
    requires NonEmpty(pats) && ScoresFrom(m, init)
    ensures ScoresFrom(ApplyPatterns(m, state, side, pats), init)
    decreases |pats|
  {
    if pats != [] {
      var n := |pats| - 1;
      var p := pats[n];
      PatternsScores(m, init, state, side, pats[..n]);
      var m' := ApplyPatterns(m, state, side, pats[..n]);
      if Contains(state, p) {
        var m1 := m'[state := if p in WinPatterns(side) then WinScore(side) else ThreatScore(side)];
        if p in CriticalUpgrades(side) {
          UpgradesWellFormed(side, p);
          UpgradeScores(m1, init, state, p, CriticalUpgrades(side)[p]);
        }
      }
    }
  }

  lemma {:induction false} StatesScores(m: map<string, int>, init: map<string, int>, states: seq<string>)
    requires ScoresFrom(m, init)
    ensures ScoresFrom(ApplyStates(m, states), init)
    decreases |states|
  {
    if states != [] {
      var n := |states| - 1;
      StatesScores(m, init, states[..n]);
      var m' := ApplyStates(m, states[..n]);
      SidePatternsNonEmpty(Opponent);
      SidePatternsNonEmpty(Ai);
      PatternsScores(m', init, states[n], Opponent, SidePatterns(Opponent));
      PatternsScores(ApplyPatterns(m', states[n], Opponent, SidePatterns(Opponent)), init, states[n], Ai, SidePatterns(Ai));
    }
  }

  // ---------------------------------------------------------------------
  // Every pattern keeps the length of the table it came from
  // ---------------------------------------------------------------------

  ghost predicate KeysOfLength(m: map<string, int>, n: nat) {
    forall k :: k in m ==> |k| == n
  }

  lemma {:induction false} UpgradeLength(m: map<string, int>, state: string, p: string, ups: seq<(string, int)>, n: nat)
    requires |p| > 0 && KeysOfLength(m, n) && |state| == n
    requires forall j :: 0 <= j < |ups| ==> |ups[j].0| == |p|
    ensures KeysOfLength(Upgrade(m, state, p, ups), n)
    decreases |ups|
  {
    if ups != [] {
      UpgradeLength(m, state, p, ups[..|ups| - 1], n);
      ReplaceAllLength(state, p, ups[|ups| - 1].0);
    }
  }

  /** One pattern step keeps every pattern at length `n`, given a state of that length. */
  lemma PatternStepLength(m: map<string, int>, state: string, side: Side, p: string, n: nat)
    requires |p| > 0 && KeysOfLength(m, n) && |state| == n
    ensures KeysOfLength(PatternStep(m, state, side, p), n)
  {
    if Contains(state, p) {
      var m1 := m[state := if p in WinPatterns(side) then WinScore(side) else ThreatScore(side)];
      if p in CriticalUpgrades(side) {
        UpgradesWellFormed(side, p);
        UpgradeLength(m1, state, p, CriticalUpgrades(side)[p], n);
      }
    }
  }

  lemma {:induction false} PatternsLength(m: map<string, int>, state: string, side: Side, pats: seq<string>, n: nat)
    requires NonEmpty(pats) && KeysOfLength(m, n) && |state| == n
    ensures KeysOfLength(ApplyPatterns(m, state, side, pats), n)
    decreases |pats|
  {
    if pats != [] {
      var k := |pats| - 1;
      PatternsLength(m, state, side, pats[..k], n);
      PatternStepLength(ApplyPatterns(m, state, side, pats[..k]), state, side, pats[k], n);
    }
  }

  /**
    A table whose patterns all have length `n` (the source keeps one table
    per line length) is turned into one whose patterns still all have
    length `n`.
  */
  lemma {:induction false} StatesLength(m: map<string, int>, states: seq<string>, n: nat)
    requires KeysOfLength(m, n) && forall i :: 0 <= i < |states| ==> |states[i]| == n
    ensures KeysOfLength(ApplyStates(m, states), n)
    decreases |states|
  {
    if states != [] {
      var k := |states| - 1;
      StatesLength(m, states[..k], n);
      StateLength(ApplyStates(m, states[..k]), states[k], n);
      ApplyStatesLast(m, states);
    }
  }

  /** The loop's last iteration is the one for the last state. */
  lemma ApplyStatesLast(m: map<string, int>, states: seq<string>)
    requires states != []
    ensures ApplyStates(m, states) == ApplyState(ApplyStates(m, states[..|states| - 1]), states[|states| - 1])
  {
  }

  /** One state's iteration keeps every pattern at length `n`, given a state of that length. */
  lemma StateLength(m: map<string, int>, state: string, n: nat)
    requires KeysOfLength(m, n) && |state| == n
    ensures KeysOfLength(ApplyState(m, state), n)
  {
    SidePatternsNonEmpty(Opponent);
    SidePatternsNonEmpty(Ai);
    PatternsLength(m, state, Opponent, SidePatterns(Opponent), n);
    PatternsLength(ApplyPatterns(m, state, Opponent, SidePatterns(Opponent)), state, Ai, SidePatterns(Ai), n);
  }

  // ---------------------------------------------------------------------
  // The score a state gets in its own iteration
  // ---------------------------------------------------------------------

  /** `state` contains one of `pats`. */
  predicate AnyIn(state: string, pats: seq<string>) {
    exists j :: 0 <= j < |pats| && Contains(state, pats[j])
  }

  /**
    The score a state ends its own iteration with: each matching pattern
    overwrites the last, so the AI's win beats any AI threat, which beats
    the opponent's win, which beats any opponent threat; a state matching
    none keeps `v`.
  */
  function StateScore(state: string, v: int): int {
    if Contains(state, "1111") then 10000
    else if AnyIn(state, SidePatterns(Ai)) then 200
    else if Contains(state, "2222") then -10000
    else if AnyIn(state, SidePatterns(Opponent)) then -200
    else v
  }

  /** The score of `state` after the patterns `pats`: the score of the last that matches, `v` if none does. */
  function LastScore(state: string, side: Side, pats: seq<string>, v: int): int
    decreases |pats|
  {
    if pats == [] then v
    else if Contains(state, pats[|pats| - 1]) then
      if pats[|pats| - 1] in WinPatterns(side) then WinScore(side) else ThreatScore(side)
    else LastScore(state, side, pats[..|pats| - 1], v)
  }

  /** Upgrades never write the state's own pattern, since each changes the state. */
  lemma {:induction false} UpgradeSparesState(m: map<string, int>, state: string, side: Side, p: string, ups: seq<(string, int)>)
    requires p in CriticalUpgrades(side) && state in m && Contains(state, p)
    requires forall j :: 0 <= j < |ups| ==> |ups[j].0| == |p| && ups[j].0 != p
    ensures |p| > 0 && state in Upgrade(m, state, p, ups) && Upgrade(m, state, p, ups)[state] == m[state]
    decreases |ups|
  {
    UpgradesWellFormed(side, p);
    if ups != [] {
      UpgradeSparesState(m, state, side, p, ups[..|ups| - 1]);
      ReplaceAllChanges(state, p, ups[|ups| - 1].0);
    }
  }

  lemma {:induction false} PatternsScore(m: map<string, int>, state: string, side: Side, pats: seq<string>)
    requires NonEmpty(pats) && state in m
    ensures state in ApplyPatterns(m, state, side, pats)
    ensures ApplyPatterns(m, state, side, pats)[state] == LastScore(state, side, pats, m[state])
    decreases |pats|
  {
    if pats != [] {
      var n := |pats| - 1;
      var p := pats[n];
      PatternsScore(m, state, side, pats[..n]);
      var m' := ApplyPatterns(m, state, side, pats[..n]);
      if Contains(state, p) {
        var m1 := m'[state := if p in WinPatterns(side) then WinScore(side) else ThreatScore(side)];
        if p in CriticalUpgrades(side) {
          UpgradesWellFormed(side, p);
          UpgradeSparesState(m1, state, side, p, CriticalUpgrades(side)[p]);
        }
      }
    }
  }

  /** Over patterns none of which is a win, the last match's score is the threat score. */
  lemma {:induction false} LastScoreOfThreats(state: string, side: Side, pats: seq<string>, v: int)
    requires forall j :: 0 <= j < |pats| ==> pats[j] !in WinPatterns(side)
    ensures LastScore(state, side, pats, v) == if AnyIn(state, pats) then ThreatScore(side) else v
    decreases |pats|
  {
    if pats != [] {
      var n := |pats| - 1;
      LastScoreOfThreats(state, side, pats[..n], v);
      if AnyIn(state, pats) && !Contains(state, pats[n]) {
        var j :| 0 <= j < |pats| && Contains(state, pats[j]);
        assert pats[..n][j] == pats[j];
      }
      if AnyIn(state, pats[..n]) {
        var j :| 0 <= j < n && Contains(state, pats[..n][j]);
        assert pats[..n][j] == pats[j];
      }
    }
  }

  lemma SideScore(state: string, side: Side, v: int)
    ensures LastScore(state, side, SidePatterns(side), v) ==
            if Contains(state, WinPatterns(side)[0]) then WinScore(side)
            else if AnyIn(state, SidePatterns(side)) then ThreatScore(side)
            else v
  {
    SidePatternsNonEmpty(side);
    var pats := SidePatterns(side);
    LastScoreOfThreats(state, side, pats[..8], v);
    if AnyIn(state, pats[..8]) {
      var j :| 0 <= j < 8 && Contains(state, pats[..8][j]);
      assert pats[..8][j] == pats[j];
    }
    if AnyIn(state, pats) && !Contains(state, pats[8]) {
      var j :| 0 <= j < |pats| && Contains(state, pats[j]);
      assert pats[..8][j] == pats[j];
    }
  }

  /**
    Right after its own iteration a state's score is 10000 if it holds the
    AI's four, else 200 if it holds any AI pattern, else -10000 if it holds
    the opponent's four, else -200 if it holds any opponent pattern, and
    otherwise what it was.
  */
  lemma StateScoreAfterIteration(m: map<string, int>, state: string)
    requires state in m
    ensures state in ApplyState(m, state)
    ensures ApplyState(m, state)[state] == StateScore(state, m[state])
  {
    SidePatternsNonEmpty(Opponent);
    SidePatternsNonEmpty(Ai);
    var m' := ApplyPatterns(m, state, Opponent, SidePatterns(Opponent));
    PatternsScore(m, state, Opponent, SidePatterns(Opponent));
    PatternsScore(m', state, Ai, SidePatterns(Ai));
    SideScore(state, Opponent, m[state]);
    SideScore(state, Ai, m'[state]);
  }
}
