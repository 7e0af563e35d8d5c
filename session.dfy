/** The game screen of NumberBondsGame.jsx: the state the component keeps, the click
    handlers that judge a match, the boss-mode interval and trigger, the level, play-time
    and badge effects, the reset, and the two entry points that build a new round.

    Every handler is specified by a pure step function over a snapshot of the state
    (GameState); the GameSession class keeps the same fields and its methods update them
    in place, each promising that its new snapshot is the step of the old one. Time is the
    `now` parameter (the value Date.now() would return), randomness the roll sequences the
    round builder consumes, and the timers are methods the caller invokes when they fire. */
module NumberBondsGame {
  import opened Util
  import opened GameConstants
  import opened Scoring
  import opened Badges
  import opened Problems
  import opened Storage
  import opened SettingsPanel

  /** A snapshot of the component's state. The multiplier is kept in tenths (10 means 1.0),
      the boss timer in ticks of the 100 ms interval (100 means 10 seconds). */
  datatype GameState = GameState(
    problems: seq<ProblemTile>,
    answers: seq<AnswerTile>,
    selectedProblem: Option<ProblemTile>,
    selectedAnswer: Option<AnswerTile>,
    removingItems: set<int>,
    pendingRemovals: seq<(int, int)>,
    isBossMode: bool,
    bossTimeLeft: int,
    bossColorIndex: int,
    problemStartTime: Option<int>,
    playerName: string,
    settings: GameSettings,
    showIntroModal: bool,
    score: int,
    streak: int,
    multiplier: int,
    earnedBadges: seq<string>,
    newBadge: Option<Badge>,
    stats: Stats,
    store: Store,
    nextId: int)

  /** What every handler keeps: the multiplier follows the streak (one tenth per consecutive
      solve, capped at 3.0), the boss timer is full whenever boss mode is off, the level never
      runs ahead of the score, and the statistics the game never updates stay at their
      initial values. */
  predicate ValidState(g: GameState) {
    && g.score >= 0
    && 0 <= g.streak <= g.stats.maxStreak
    && g.multiplier == Min(10 + g.streak, 30)
    && 0 <= g.bossColorIndex < |BossColors|
    && 0 <= g.bossTimeLeft <= BossTicks
    && (g.isBossMode || g.bossTimeLeft == BossTicks)
    && 1 <= g.stats.level <= LevelFor(g.score)
    && 0 <= g.stats.fastSolves <= g.stats.totalSolved
    && g.stats.playTime >= 0
    && g.stats.operationsUsed == {} && g.stats.maxVariables == 2
    && GeneratorReady(g.settings)
  }

  /** The state right after mounting, read from the store: no tiles yet, the stored name and
      settings, the stored badge list, and the intro panel open when no name is stored. */
  function InitialState(store: Store): GameState
    requires LoadSettings(store).Some?
  {
    GameState(
      [], [], None, None, {}, [],
      false, BossTicks, 0, None,
      LoadName(store), LoadSettings(store).value, LoadName(store) == "",
      0, 0, 10,
      LoadEarned(store), None, InitialStats,
      store, 0)
  }

  // ---------------------------------------------------------------- matching

  /** The bookkeeping of a correct match that took elapsed milliseconds: the points for the
      current multiplier and mode plus the speed bonus, the longer streak and its record, one
      more solve (and one more fast solve within five seconds), a tenth more multiplier, and
      both tiles marked as disappearing with their removal scheduled. */
  function Solved(g: GameState, problem: ProblemTile, answer: AnswerTile, elapsed: int): GameState
    requires 10 <= g.multiplier <= 30
  {
    var newStreak := g.streak + 1;
    g.(score := g.score + CalculateScore(g.multiplier, g.isBossMode, SpeedBonus(elapsed)),
       streak := newStreak,
       multiplier := NextMultiplier(g.multiplier),
       stats := g.stats.(
         maxStreak := Max(g.stats.maxStreak, newStreak),
         totalSolved := g.stats.totalSolved + 1,
         fastSolves := if elapsed <= 5000 then g.stats.fastSolves + 1 else g.stats.fastSolves),
       removingItems := g.removingItems + {problem.id, answer.id},
       pendingRemovals := g.pendingRemovals + [(problem.id, answer.id)])
  }

  /** A wrong match: the streak is lost and the multiplier drops back to 1.0. */
  function Missed(g: GameState): GameState {
    g.(streak := 0, multiplier := 10)
  }

  /** Both selection slots and the start time are emptied after every judgement. */
  function Deselected(g: GameState): GameState {
    g.(selectedProblem := None, selectedAnswer := None, problemStartTime := None)
  }

  /** `handleMatch(problem, answer)`; start is the problemStartTime the handler was created
      with, and an empty one counts as 0 (the epoch), as `Date.now() - null` does. */
  function JudgeMatch(g: GameState, problem: ProblemTile, answer: AnswerTile, now: int, start: Option<int>): GameState
    requires ValidState(g)
  {
    Deselected(
      if problem.problem.result == answer.value then Solved(g, problem, answer, now - start.GetOr(0))
      else Missed(g))
  }

  /** `handleProblemClick`: the start time is taken only when no problem was selected, a click
      on the selected problem deselects it, and a match is judged when both slots are then
      filled, with the start time from before the click. */
  function ProblemClick(g: GameState, problem: ProblemTile, now: int): GameState
    requires ValidState(g)
  {
    var started := if g.selectedProblem.None? then Some(now) else g.problemStartTime;
    var newSelected := if g.selectedProblem.Some? && g.selectedProblem.value.id == problem.id then None else Some(problem);
    var h := g.(problemStartTime := started, selectedProblem := newSelected);
    if newSelected.Some? && g.selectedAnswer.Some? then
      JudgeMatch(h, newSelected.value, g.selectedAnswer.value, now, g.problemStartTime)
    else h
  }

  /** `handleAnswerClick`: a click on the selected answer deselects it; a match is judged when
      a problem is selected and an answer is newly selected. */
  function AnswerClick(g: GameState, answer: AnswerTile, now: int): GameState
    requires ValidState(g)
  {
    var newSelected := if g.selectedAnswer.Some? && g.selectedAnswer.value.id == answer.id then None else Some(answer);
    var h := g.(selectedAnswer := newSelected);
    if g.selectedProblem.Some? && newSelected.Some? then
      JudgeMatch(h, g.selectedProblem.value, newSelected.value, now, g.problemStartTime)
    else h
  }

  /** `prev.filter((p) => p.id !== id)` on the problem tiles. */
  function WithoutProblem(ps: seq<ProblemTile>, id: int): (r: seq<ProblemTile>)
    ensures forall t :: t in r <==> t in ps && t.id != id
    ensures |r| <= |ps|
  {
    if ps == [] then []
    else (if ps[0].id == id then [] else [ps[0]]) + WithoutProblem(ps[1..], id)
  }

  /** `prev.filter((a) => a.id !== id)` on the answer tiles. */
  function WithoutAnswer(ts: seq<AnswerTile>, id: int): (r: seq<AnswerTile>)
    ensures forall t :: t in r <==> t in ts && t.id != id
    ensures |r| <= |ts|
  {
    if ts == [] then []
    else (if ts[0].id == id then [] else [ts[0]]) + WithoutAnswer(ts[1..], id)
  }

  /** The 500 ms timeout of a correct match: the oldest pending pair leaves the board. */
  function FinishRemoval(g: GameState): GameState
    requires g.pendingRemovals != []
  {
    var (problemId, answerId) := g.pendingRemovals[0];
    g.(problems := WithoutProblem(g.problems, problemId),
       answers := WithoutAnswer(g.answers, answerId),
       removingItems := g.removingItems - {problemId, answerId},
       pendingRemovals := g.pendingRemovals[1..])
  }

  // ---------------------------------------------------------------- boss mode

  /** One firing of the 100 ms boss interval: at zero, boss mode ends with a bonus of a fifth
      of the score and the timer refills; otherwise the timer drops by one tick. The colour
      index advances either way. */
  function BossTick(g: GameState): GameState
    requires g.score >= 0
  {
    var colored := g.(bossColorIndex := NextColorIndex(g.bossColorIndex));
    if g.bossTimeLeft <= 0 then
      colored.(isBossMode := false, score := g.score + BossBonus(g.score), bossTimeLeft := BossTicks)
    else
      colored.(bossTimeLeft := g.bossTimeLeft - 1)
  }

  /** The effect on [streak, isBossMode]: a streak of exactly 10 outside boss mode starts it. */
  function BossTrigger(g: GameState): GameState {
    if g.streak == BossStreakRequired && !g.isBossMode then
      g.(isBossMode := true, bossTimeLeft := BossTicks)
    else g
  }

  /** n firings of the interval; it is cleared as soon as boss mode is off. */
  function Ticks(g: GameState, n: nat): GameState
    requires g.score >= 0
    decreases n
  {
    if n == 0 || !g.isBossMode then g
    else
      var h := BossTick(g);
      assert h.score >= g.score;
      Ticks(h, n - 1)
  }

  // ---------------------------------------------------------------- progress

  /** The effect on [score, level]: the level is raised to floor(score / 1000) + 1 when that is higher. */
  function LevelCheck(g: GameState): GameState
    requires g.score >= 0
  {
    var newLevel := LevelFor(g.score);
    if newLevel > g.stats.level then g.(stats := g.stats.(level := newLevel)) else g
  }

  /** One firing of the one-second play-time interval. */
  function PlayTimeTick(g: GameState): GameState {
    g.(stats := g.stats.(playTime := g.stats.playTime + 1))
  }

  /** `checkBadges()`: one pass over the catalog against the current statistics and list;
      when something is added, the list is written to the store and the last badge added
      is the one announced. */
  function BadgeCheck(g: GameState): GameState {
    var added := NewlyEarned(Catalog, g.stats, g.earnedBadges);
    if added == [] then g
    else
      var earned := g.earnedBadges + added;
      g.(earnedBadges := earned,
         store := g.store["earnedBadges" := JsonStringList(earned)],
         newBadge := FindBadge(added[|added| - 1]))
  }

  // ---------------------------------------------------------------- rounds, saving, reset

  /** The state after generateProblemsAndAnswers() delivered round: its tiles replace the
      board, a short round widens the current settings, and the ids it used are consumed. */
  function WithRound(g: GameState, round: Round): GameState {
    g.(problems := round.problems,
       answers := round.answers,
       settings := if round.short then Widen(g.settings) else g.settings,
       nextId := g.nextId + 2 * |round.problems|)
  }

  /** The regeneration effect's condition: an empty board once the intro panel is closed. */
  predicate NeedsRound(g: GameState) {
    g.problems == [] && !g.showIntroModal
  }

  /** A successful save as the game sees it: the new name and settings, the written store,
      and the panel closed. */
  function Committed(g: GameState, c: Commit, saved: Store): GameState {
    g.(playerName := c.playerName, settings := c.settings, store := saved, showIntroModal := false)
  }

  /** `handleReset` after confirmation, before the new round: the store is emptied and score,
      streak, multiplier, badges, statistics and settings go back to their defaults. */
  function Cleared(g: GameState): GameState {
    g.(store := map[], score := 0, streak := 0, multiplier := 10, earnedBadges := [],
       stats := InitialStats, settings := DefaultSettings)
  }

  // ---------------------------------------------------------------- properties

  lemma InitialStateIsValid(store: Store)
    requires LoadSettings(store).Some? && GeneratorReady(LoadSettings(store).value)
    ensures ValidState(InitialState(store))
    ensures InitialState(store).showIntroModal <==> LoadName(store) == ""
  {
  }

  /** A correct match scores the points for the multiplier and mode from before the match
      plus the speed bonus for the time since the start (at least 100, or 300 in boss mode,
      on top of that bonus), extends the streak and its record, raises the multiplier a
      tenth, counts a solve (a fast one within five seconds) and queues both tiles for
      removal; a wrong one scores nothing and resets streak and multiplier; neither changes
      boss mode or the board, and both empty the selection. */
  lemma MatchOutcome(g: GameState, problem: ProblemTile, answer: AnswerTile, now: int, start: Option<int>)
    requires ValidState(g)
    ensures var h := JudgeMatch(g, problem, answer, now, start);
      && h.selectedProblem == None && h.selectedAnswer == None && h.problemStartTime == None
      && h.isBossMode == g.isBossMode && h.problems == g.problems && h.answers == g.answers
      && (problem.problem.result == answer.value ==>
            var elapsed := now - start.GetOr(0);
            && h.score == g.score + CalculateScore(g.multiplier, g.isBossMode, SpeedBonus(elapsed))
            && h.score >= g.score + 100 + SpeedBonus(elapsed)
            && (g.isBossMode ==> h.score >= g.score + 300 + SpeedBonus(elapsed))
            && h.streak == g.streak + 1 && h.multiplier == NextMultiplier(g.multiplier)
            && h.stats.maxStreak == Max(g.stats.maxStreak, g.streak + 1)
            && h.stats.totalSolved == g.stats.totalSolved + 1
            && h.stats.fastSolves == (if elapsed <= 5000 then g.stats.fastSolves + 1 else g.stats.fastSolves)
            && h.stats.(maxStreak := g.stats.maxStreak, totalSolved := g.stats.totalSolved,
                        fastSolves := g.stats.fastSolves) == g.stats
            && h.removingItems == g.removingItems + {problem.id, answer.id}
            && h.pendingRemovals == g.pendingRemovals + [(problem.id, answer.id)])
      && (problem.problem.result != answer.value ==>
            && h.score == g.score && h.streak == 0 && h.multiplier == 10
            && h.stats == g.stats && h.removingItems == g.removingItems
            && h.pendingRemovals == g.pendingRemovals)
  {
  }

  /** The setters of a correct match keep the invariant on their own. */
  lemma SolvedKeepsValid(g: GameState, problem: ProblemTile, answer: AnswerTile, elapsed: int)
    requires ValidState(g)
    ensures ValidState(Solved(g, problem, answer, elapsed))
  {
    var h := Solved(g, problem, answer, elapsed);
    LevelForMonotone(g.score, h.score);
  }

  lemma {:induction false} MatchKeepsValid(g: GameState, problem: ProblemTile, answer: AnswerTile, now: int, start: Option<int>)
    requires ValidState(g)
    ensures ValidState(JudgeMatch(g, problem, answer, now, start))
  {
    if problem.problem.result == answer.value {
      SolvedKeepsValid(g, problem, answer, now - start.GetOr(0));
    }
  }

  lemma ProblemClickKeepsValid(g: GameState, problem: ProblemTile, now: int)
    requires ValidState(g)
    ensures ValidState(ProblemClick(g, problem, now))
  {
    var started := if g.selectedProblem.None? then Some(now) else g.problemStartTime;
    var newProblem := if g.selectedProblem.Some? && g.selectedProblem.value.id == problem.id then None else Some(problem);
    var h := g.(problemStartTime := started, selectedProblem := newProblem);
    if newProblem.Some? && g.selectedAnswer.Some? {
      MatchKeepsValid(h, newProblem.value, g.selectedAnswer.value, now, g.problemStartTime);
    }
  }

  lemma AnswerClickKeepsValid(g: GameState, answer: AnswerTile, now: int)
    requires ValidState(g)
    ensures ValidState(AnswerClick(g, answer, now))
  {
    var newAnswer := if g.selectedAnswer.Some? && g.selectedAnswer.value.id == answer.id then None else Some(answer);
    var k := g.(selectedAnswer := newAnswer);
    if g.selectedProblem.Some? && newAnswer.Some? {
      MatchKeepsValid(k, g.selectedProblem.value, newAnswer.value, now, g.problemStartTime);
    }
  }

  /** A problem click judges a match exactly when an answer is waiting and the click did not
      deselect; otherwise only the selection (and, from an empty slot, the start time) move. */
  lemma ProblemClickCases(g: GameState, problem: ProblemTile, now: int)
    requires ValidState(g)
    ensures var h := ProblemClick(g, problem, now);
      var deselect := g.selectedProblem.Some? && g.selectedProblem.value.id == problem.id;
      && (deselect ==> h == g.(selectedProblem := None))
      && (!deselect && g.selectedAnswer.None? ==>
            h == g.(selectedProblem := Some(problem),
                    problemStartTime := if g.selectedProblem.None? then Some(now) else g.problemStartTime))
      && (!deselect && g.selectedAnswer.Some? ==>
            h.selectedProblem == None && h.selectedAnswer == None && h.problemStartTime == None
            && (h.streak == g.streak + 1 <==> problem.problem.result == g.selectedAnswer.value.value))
  {
  }

  /** An answer click judges a match exactly when a problem is waiting and the click did not deselect. */
  lemma AnswerClickCases(g: GameState, answer: AnswerTile, now: int)
    requires ValidState(g)
    ensures var h := AnswerClick(g, answer, now);
      var deselect := g.selectedAnswer.Some? && g.selectedAnswer.value.id == answer.id;
      && (deselect ==> h == g.(selectedAnswer := None))
      && (!deselect && g.selectedProblem.None? ==> h == g.(selectedAnswer := Some(answer)))
      && (!deselect && g.selectedProblem.Some? ==>
            h.selectedProblem == None && h.selectedAnswer == None && h.problemStartTime == None
            && (h.streak == g.streak + 1 <==> g.selectedProblem.value.problem.result == answer.value))
  {
  }

  /** Deselecting a problem keeps its start time: select it at t1, deselect it at t2, choose
      the right answer at t3 and select the problem again at t4, and the solve is timed from
      t1, because the handler judges with the start time from before the click. */
  lemma {:induction false} ReselectTimedFromFirstClick(g: GameState, problem: ProblemTile, answer: AnswerTile, t1: int, t2: int, t3: int, t4: int)
    requires ValidState(g) && g.selectedProblem.None? && g.selectedAnswer.None?
    requires problem.problem.result == answer.value
    ensures var h := ProblemClick(AnswerClick(ProblemClick(ProblemClick(g, problem, t1), problem, t2), answer, t3), problem, t4);
      h.score == g.score + CalculateScore(g.multiplier, g.isBossMode, SpeedBonus(t4 - t1)) && h.streak == g.streak + 1
  {
    var h1 := ProblemClick(g, problem, t1);
    assert h1 == g.(selectedProblem := Some(problem), problemStartTime := Some(t1));
    var h2 := ProblemClick(h1, problem, t2);
    assert h2 == h1.(selectedProblem := None);
    var h3 := AnswerClick(h2, answer, t3);
    assert h3 == h2.(selectedAnswer := Some(answer));
  }

  /** Choosing the answer first: the match is timed from the epoch, since the start time the
      handler sees is still empty, so a solve at any real clock reading earns no speed bonus. */
  lemma {:induction false} AnswerFirstEarnsNoSpeedBonus(g: GameState, answer: AnswerTile, problem: ProblemTile, t1: int, t2: int)
    requires ValidState(g) && g.selectedProblem.None? && g.selectedAnswer.None? && g.problemStartTime.None?
    requires problem.problem.result == answer.value && t2 > 12000
    ensures var h := ProblemClick(AnswerClick(g, answer, t1), problem, t2);
      h.score == g.score + CalculateScore(g.multiplier, g.isBossMode, 0) && h.streak == g.streak + 1
  {
    var h1 := AnswerClick(g, answer, t1);
    assert h1 == g.(selectedAnswer := Some(answer));
    SpeedBonusTable(t2);
  }

  /** The removal timeout of a match takes exactly the matched pair off the board. */
  lemma {:induction false} MatchThenRemoval(g: GameState, problem: ProblemTile, answer: AnswerTile, now: int, start: Option<int>)
    requires ValidState(g) && g.pendingRemovals == [] && problem.problem.result == answer.value
    ensures var h := FinishRemoval(JudgeMatch(g, problem, answer, now, start));
      && (forall t :: t in h.problems <==> t in g.problems && t.id != problem.id)
      && (forall t :: t in h.answers <==> t in g.answers && t.id != answer.id)
      && h.removingItems == g.removingItems - {problem.id, answer.id}
      && h.pendingRemovals == []
  {
    var m := JudgeMatch(g, problem, answer, now, start);
    assert m.pendingRemovals == [(problem.id, answer.id)];
  }

  lemma RemovalKeepsValid(g: GameState)
    requires ValidState(g) && g.pendingRemovals != []
    ensures ValidState(FinishRemoval(g))
    ensures |FinishRemoval(g).pendingRemovals| == |g.pendingRemovals| - 1
  {
  }

  /** Boss mode starts only from a streak of exactly 10, with a full timer. */
  lemma BossStartsAtTen(g: GameState)
    ensures BossTrigger(g).isBossMode && !g.isBossMode ==> g.streak == 10 && BossTrigger(g).bossTimeLeft == 100
    ensures g.isBossMode ==> BossTrigger(g) == g
  {
  }

  lemma BossStepsKeepValid(g: GameState)
    requires ValidState(g)
    ensures ValidState(BossTrigger(g))
    ensures g.isBossMode ==> ValidState(BossTick(g))
  {
    if g.isBossMode && g.bossTimeLeft <= 0 {
      LevelForMonotone(g.score, BossTick(g).score);
    }
  }

  /** A wrong answer never ends boss mode: only the interval does. */
  lemma WrongAnswerKeepsBossMode(g: GameState, problem: ProblemTile, answer: AnswerTile, now: int, start: Option<int>)
    requires ValidState(g) && problem.problem.result != answer.value
    ensures var h := JudgeMatch(g, problem, answer, now, start);
      h.isBossMode == g.isBossMode && h.bossTimeLeft == g.bossTimeLeft && BossTrigger(h) == h
  {
  }

  /** While time is left, each firing takes one tick off and leaves score and mode alone. */
  lemma {:induction false} BossTimerRunsDown(g: GameState, k: nat)
    requires g.isBossMode && g.score >= 0 && k <= g.bossTimeLeft
    ensures var h := Ticks(g, k);
      h.isBossMode && h.bossTimeLeft == g.bossTimeLeft - k && h.score == g.score
    decreases k
  {
    if k > 0 {
      BossTimerRunsDown(BossTick(g), k - 1);
    }
  }

  /** With t ticks left, boss mode ends on firing t + 1 (a full timer lasts 101 firings),
      adding a fifth of the score and refilling the timer. */
  lemma {:induction false} BossModeEnds(g: GameState)
    requires g.isBossMode && g.score >= 0 && g.bossTimeLeft >= 0
    ensures var h := Ticks(g, g.bossTimeLeft + 1);
      !h.isBossMode && h.bossTimeLeft == BossTicks && h.score == g.score + BossBonus(g.score)
    decreases g.bossTimeLeft
  {
    if g.bossTimeLeft > 0 {
      BossModeEnds(BossTick(g));
    }
  }

  /** A streak still at 10 when boss mode ends starts it again at once: the trigger effect
      sees the run it already rewarded. */
  lemma BossRestartsOnUnchangedStreak(g: GameState)
    requires ValidState(g) && g.isBossMode && g.bossTimeLeft == 0 && g.streak == 10
    ensures var h := BossTrigger(BossTick(g));
      h.isBossMode && h.bossTimeLeft == BossTicks && h.score == g.score + BossBonus(g.score) && h.streak == 10
  {
  }

  /** The level effect brings the level up to what the score earns and never lowers it. */
  lemma LevelCatchesUp(g: GameState)
    requires ValidState(g)
    ensures LevelCheck(g).stats.level == LevelFor(g.score)
    ensures LevelCheck(g).stats.level >= g.stats.level
    ensures ValidState(LevelCheck(g)) && ValidState(PlayTimeTick(g))
  {
  }

  /** A badge pass only appends catalog badges whose conditions hold, never takes one away,
      never awards the two badges whose statistics the game does not track, and a valid
      state stays valid. */
  lemma BadgeCheckGrows(g: GameState)
    requires ValidState(g)
    ensures var h := BadgeCheck(g);
      && h.earnedBadges == Pass(g.stats, g.earnedBadges)
      && |h.earnedBadges| >= |g.earnedBadges| && h.earnedBadges[..|g.earnedBadges|] == g.earnedBadges
      && ("explorer" in h.earnedBadges <==> "explorer" in g.earnedBadges)
      && ("variable-master" in h.earnedBadges <==> "variable-master" in g.earnedBadges)
      && ValidState(h)
  {
    PassOnlyAppends(g.stats, g.earnedBadges);
    ExplorerAndVariableMasterUnreachable(g.stats, g.earnedBadges);
    var h := BadgeCheck(g);
    assert h == g.(earnedBadges := h.earnedBadges, store := h.store, newBadge := h.newBadge);
  }

  /** The announced badge is the catalog badge of the last id the pass added, and a pass that
      adds nothing leaves the announcement as it was. */
  lemma BadgeCheckAnnounces(g: GameState)
    ensures var h := BadgeCheck(g);
      && (h.earnedBadges == g.earnedBadges ==> h.newBadge == g.newBadge && h.store == g.store)
      && (h.earnedBadges != g.earnedBadges ==>
            && h.newBadge.Some? && Id(h.newBadge.value) == h.earnedBadges[|h.earnedBadges| - 1]
            && h.store == g.store["earnedBadges" := JsonStringList(h.earnedBadges)])
  {
    var added := NewlyEarned(Catalog, g.stats, g.earnedBadges);
    if added != [] {
      LastAddedIsFound(g.stats, g.earnedBadges);
      assert (g.earnedBadges + added)[|g.earnedBadges + added| - 1] == added[|added| - 1];
    }
  }

  /** After a reset the store reads back as a fresh install: default settings, no badges and
      no name. */
  lemma ResetIsFreshInstall(g: GameState)
    requires ValidState(g)
    ensures ValidState(Cleared(g))
    ensures LoadSettings(Cleared(g).store) == Some(Cleared(g).settings)
    ensures LoadEarned(Cleared(g).store) == [] && LoadName(Cleared(g).store) == ""
    ensures Cleared(g).isBossMode == g.isBossMode && Cleared(g).problems == g.problems
  {
    EmptyStoreLoadsDefaults();
  }

  lemma RoundKeepsValid(g: GameState, round: Round)
    requires ValidState(g)
    ensures ValidState(WithRound(g, round))
    ensures round.short ==> WithRound(g, round).settings.maxNumber == g.settings.maxNumber + 5
  {
  }

  /** The `Object.values(BADGES).forEach` of checkBadges, over the given entries (the catalog,
      in its order): every badge is judged against the list as it was when the scan started; each one newly met queues an append to the list
      and is announced, so the announcement left standing is the last badge queued. */
  method ScanBadges(entries: seq<Badge>, s: Stats, earned: seq<string>, announced0: Option<Badge>)
    returns (queued: seq<string>, announced: Option<Badge>)
    ensures queued == NewlyEarned(entries, s, earned)
    ensures queued == [] ==> announced == announced0
    ensures queued != [] ==> announced.Some? && Id(announced.value) == queued[|queued| - 1]
  {
    queued, announced := [], announced0;
    var i := 0;
    while i < |entries|
      invariant 0 <= i <= |entries|
      invariant queued == NewlyEarned(entries[..i], s, earned)
      invariant queued == [] ==> announced == announced0
      invariant queued != [] ==> announced.Some? && Id(announced.value) == queued[|queued| - 1]
    {
      var badge := entries[i];
      NewlyEarnedSnoc(entries[..i], badge, s, earned);
      assert entries[..i + 1] == entries[..i] + [badge];
      if Id(badge) !in earned && Condition(badge, s, earned) {
        queued := queued + [Id(badge)];
        announced := Some(badge);
      }
      i := i + 1;
    }
    assert entries[..|entries|] == entries;
  }

  /** The queued `setEarnedBadges` updaters, run in order at the next render: each appends
      its id to the list and writes the list so far to the store as JSON. */
  method RunBadgeUpdaters(earned: seq<string>, store: Store, queued: seq<string>)
    returns (list: seq<string>, written: Store)
    ensures list == earned + queued
    ensures queued == [] ==> written == store
    ensures queued != [] ==> written == store["earnedBadges" := JsonStringList(list)]
  {
    list, written := earned, store;
    var j := 0;
    while j < |queued|
      invariant 0 <= j <= |queued|
      invariant list == earned + queued[..j]
      invariant written == if j == 0 then store else store["earnedBadges" := JsonStringList(list)]
    {
      assert queued[..j + 1] == queued[..j] + [queued[j]];
      list := list + [queued[j]];
      written := written["earnedBadges" := JsonStringList(list)];
      j := j + 1;
    }
    assert queued[..|queued|] == queued;
  }

  // ---------------------------------------------------------------- the component

  /** The component's state variables, grouped as its declarations are: the board (tiles,
      selection, disappearing tiles and their pending removals, the start time of the
      selected problem), boss mode, the player (name, settings and the intro panel), score
      and streak, and the badges. Statistics, the store and the id counter stand alone. */
  datatype Board = Board(
    problems: seq<ProblemTile>,
    answers: seq<AnswerTile>,
    selectedProblem: Option<ProblemTile>,
    selectedAnswer: Option<AnswerTile>,
    removingItems: set<int>,
    pendingRemovals: seq<(int, int)>,
    problemStartTime: Option<int>)

  datatype Boss = Boss(isBossMode: bool, bossTimeLeft: int, bossColorIndex: int)

  datatype Player = Player(playerName: string, settings: GameSettings, showIntroModal: bool)

  datatype Progress = Progress(score: int, streak: int, multiplier: int)

  datatype BadgeState = BadgeState(earnedBadges: seq<string>, newBadge: Option<Badge>)

  /** The component instance: its state variables as fields, its handlers as methods. */
  class GameSession {
    var board: Board
    var boss: Boss
    var player: Player
    var progress: Progress
    var badges: BadgeState
    var stats: Stats
    /** The browser's localStorage. */
    var store: Store
    /** The next tile id to hand out. */
    var nextId: int

    function View(): GameState
      reads this
    {
      GameState(
        board.problems, board.answers, board.selectedProblem, board.selectedAnswer,
        board.removingItems, board.pendingRemovals,
        boss.isBossMode, boss.bossTimeLeft, boss.bossColorIndex, board.problemStartTime,
        player.playerName, player.settings, player.showIntroModal,
        progress.score, progress.streak, progress.multiplier,
        badges.earnedBadges, badges.newBadge, stats, store, nextId)
    }

    predicate Valid()
      reads this
    {
      ValidState(View())
    }

    /** Mounting the component over the given store. */
    constructor (initialStore: Store)
      requires LoadSettings(initialStore).Some? && GeneratorReady(LoadSettings(initialStore).value)
      ensures View() == InitialState(initialStore)
      ensures Valid()
    {
      board := Board([], [], None, None, {}, [], None);
      boss := Boss(false, BossTicks, 0);
      player := Player(LoadName(initialStore), LoadSettings(initialStore).value, LoadName(initialStore) == "");
      progress := Progress(0, 0, 10);
      badges := BadgeState(LoadEarned(initialStore), None);
      stats := InitialStats;
      store := initialStore;
      nextId := 0;
    }

    method HandleMatch(problem: ProblemTile, answer: AnswerTile, now: int, start: Option<int>)
      requires Valid()
      modifies this
      ensures View() == JudgeMatch(old(View()), problem, answer, now, start)
      ensures Valid()
    {
      if problem.problem.result == answer.value {
        var elapsed := now - start.GetOr(0);
        var speedBonus := LookupSpeedBonus(elapsed);
        RecordSolve(problem, answer, elapsed, speedBonus);
      } else {
        progress := progress.(streak := 0, multiplier := 10);
      }
      board := board.(selectedProblem := None, selectedAnswer := None, problemStartTime := None);
      MatchKeepsValid(old(View()), problem, answer, now, start);
    }

    /** The setters of a correct match: score, streak and multiplier, the statistics, and
        the two tiles marked and queued for removal. */
    method RecordSolve(problem: ProblemTile, answer: AnswerTile, elapsed: int, speedBonus: int)
      requires 10 <= progress.multiplier <= 30 && speedBonus == SpeedBonus(elapsed)
      modifies this
      ensures View() == Solved(old(View()), problem, answer, elapsed)
      ensures old(Valid()) ==> Valid()
    {
      var newStreak := progress.streak + 1;
      stats := stats.(
        maxStreak := Max(stats.maxStreak, newStreak),
        totalSolved := stats.totalSolved + 1,
        fastSolves := if elapsed <= 5000 then stats.fastSolves + 1 else stats.fastSolves);
      progress := Progress(
        progress.score + CalculateScore(progress.multiplier, boss.isBossMode, speedBonus),
        newStreak,
        NextMultiplier(progress.multiplier));
      board := board.(
        removingItems := board.removingItems + {problem.id, answer.id},
        pendingRemovals := board.pendingRemovals + [(problem.id, answer.id)]);
      if old(Valid()) {
        SolvedKeepsValid(old(View()), problem, answer, elapsed);
      }
    }

    /** A click on a problem tile that is on the board and not disappearing. */
    method HandleProblemClick(problem: ProblemTile, now: int)
      requires Valid() && problem in board.problems && problem.id !in board.removingItems
      modifies this
      ensures View() == ProblemClick(old(View()), problem, now)
      ensures Valid()
    {
      var start := board.problemStartTime;
      var waiting := board.selectedAnswer;
      var newSelected := if board.selectedProblem.Some? && board.selectedProblem.value.id == problem.id then None else Some(problem);
      board := board.(
        problemStartTime := if board.selectedProblem.None? then Some(now) else start,
        selectedProblem := newSelected);
      if newSelected.Some? && waiting.Some? {
        HandleMatch(newSelected.value, waiting.value, now, start);
      }
      ProblemClickKeepsValid(old(View()), problem, now);
    }

    /** A click on an answer tile that is on the board and not disappearing. */
    method HandleAnswerClick(answer: AnswerTile, now: int)
      requires Valid() && answer in board.answers && answer.id !in board.removingItems
      modifies this
      ensures View() == AnswerClick(old(View()), answer, now)
      ensures Valid()
    {
      var waiting := board.selectedProblem;
      var newSelected := if board.selectedAnswer.Some? && board.selectedAnswer.value.id == answer.id then None else Some(answer);
      board := board.(selectedAnswer := newSelected);
      if waiting.Some? && newSelected.Some? {
        HandleMatch(waiting.value, newSelected.value, now, board.problemStartTime);
      }
      AnswerClickKeepsValid(old(View()), answer, now);
    }

    /** The oldest pending 500 ms removal timeout fires. */
    method RemovalTimeout()
      requires Valid() && board.pendingRemovals != []
      modifies this
      ensures View() == FinishRemoval(old(View()))
      ensures Valid()
    {
      RemovalKeepsValid(View());
      var (problemId, answerId) := board.pendingRemovals[0];
      board := board.(
        problems := WithoutProblem(board.problems, problemId),
        answers := WithoutAnswer(board.answers, answerId),
        removingItems := board.removingItems - {problemId, answerId},
        pendingRemovals := board.pendingRemovals[1..]);
    }

    /** The boss interval fires; it only runs while boss mode is on. */
    method Tick()
      requires Valid() && boss.isBossMode
      modifies this
      ensures View() == BossTick(old(View()))
      ensures Valid()
    {
      BossStepsKeepValid(View());
      if boss.bossTimeLeft <= 0 {
        progress := progress.(score := progress.score + BossBonus(progress.score));
        boss := Boss(false, BossTicks, NextColorIndex(boss.bossColorIndex));
      } else {
        boss := boss.(bossTimeLeft := boss.bossTimeLeft - 1, bossColorIndex := NextColorIndex(boss.bossColorIndex));
      }
    }

    /** The boss trigger effect runs. */
    method CheckBossTrigger()
      requires Valid()
      modifies this
      ensures View() == BossTrigger(old(View()))
      ensures Valid()
    {
      BossStepsKeepValid(View());
      if progress.streak == BossStreakRequired && !boss.isBossMode {
        boss := boss.(isBossMode := true, bossTimeLeft := BossTicks);
      }
    }

    /** The level effect runs. */
    method CheckLevel()
      requires Valid()
      modifies this
      ensures View() == LevelCheck(old(View()))
      ensures Valid()
    {
      LevelCatchesUp(View());
      var newLevel := LevelFor(progress.score);
      if newLevel > stats.level {
        stats := stats.(level := newLevel);
      }
    }

    /** The one-second play-time interval fires. */
    method PlayTimeSecond()
      requires Valid()
      modifies this
      ensures View() == PlayTimeTick(old(View()))
      ensures Valid()
    {
      LevelCatchesUp(View());
      stats := stats.(playTime := stats.playTime + 1);
    }

    /** `checkBadges()`: the catalog scan, then the queued updates to the list and the store. */
    method CheckBadges()
      requires Valid()
      modifies this
      ensures View() == BadgeCheck(old(View()))
      ensures Valid()
    {
      BadgeCheckGrows(View());
      var queued, announced := ScanBadges(Catalog, stats, badges.earnedBadges, badges.newBadge);
      if queued != [] {
        FindBadgeInvertsId(announced.value);
      }
      var earned, written := RunBadgeUpdaters(badges.earnedBadges, store, queued);
      badges := BadgeState(earned, announced);
      store := written;
    }

    /** The 3 s timeout that hides the announced badge. */
    method HideNewBadge()
      requires Valid()
      modifies this
      ensures View() == old(View()).(newBadge := None)
      ensures Valid()
    {
      badges := badges.(newBadge := None);
    }

    /** generateProblemsAndAnswers() as created with generatorSettings, widening the current
        settings when the round comes back short. */
    method BuildRound(generatorSettings: GameSettings, rolls: seq<seq<nat>>, shuffleRolls: seq<nat>) returns (round: Round)
      requires Valid() && GeneratorReady(generatorSettings)
      modifies this
      ensures RoundOk(generatorSettings, old(nextId), round)
      ensures View() == WithRound(old(View()), round)
      ensures Valid()
    {
      var attempts;
      round, attempts := GenerateProblemsAndAnswers(generatorSettings, rolls, shuffleRolls, nextId);
      RoundKeepsValid(View(), round);
      board := board.(problems := round.problems, answers := round.answers);
      if round.short {
        player := player.(settings := Widen(player.settings));
      }
      nextId := nextId + 2 * |round.problems|;
    }

    /** The regeneration effect (an empty board with the intro closed) or the loading
        screen's Start button: a round from the current settings. */
    method NewRound(rolls: seq<seq<nat>>, shuffleRolls: seq<nat>) returns (round: Round)
      requires Valid()
      modifies this
      ensures RoundOk(old(player.settings), old(nextId), round)
      ensures View() == WithRound(old(View()), round)
      ensures Valid()
    {
      round := BuildRound(player.settings, rolls, shuffleRolls);
    }

    /** The settings panel's onClose: the backdrop, the close button, or a save. */
    method ClosePanel()
      requires Valid()
      modifies this
      ensures View() == old(View()).(showIntroModal := false)
      ensures Valid()
    {
      player := player.(showIntroModal := false);
    }

    /** The panel's Save button with the form it holds. The name and settings are committed
        and stored, the panel closes, and the new round is built by the generator the panel
        was given, which still sees the settings from before the save; a short round widens
        the newly saved settings. */
    method Save(form: FormData, rolls: seq<seq<nat>>, shuffleRolls: seq<nat>) returns (round: Option<Round>)
      requires Valid() && GeneratorReady(form.settings)
      modifies this
      ensures !SaveEnabled(form) ==> round == None && View() == old(View())
      ensures SaveEnabled(form) ==>
        && round.Some?
        && RoundOk(old(player.settings), old(nextId), round.value)
        && View() == WithRound(
             Committed(old(View()), Commit(Trim(form.name), form.settings), SavedStore(old(store), Trim(form.name), form.settings)),
             round.value)
      ensures Valid()
    {
      var commit, saved := HandleSave(form, store);
      if commit.None? {
        return None;
      }
      var generatorSettings := player.settings;
      player := Player(commit.value.playerName, commit.value.settings, false);
      store := saved;
      var r := BuildRound(generatorSettings, rolls, shuffleRolls);
      round := Some(r);
    }

    /** `handleReset`; confirmed is the answer to the confirmation dialog. After
        localStorage.clear() and the setters, the new round is built from the settings before
        the reset; a short round widens the defaults. */
    method Reset(confirmed: bool, rolls: seq<seq<nat>>, shuffleRolls: seq<nat>) returns (round: Option<Round>)
      requires Valid()
      modifies this
      ensures !confirmed ==> round == None && View() == old(View())
      ensures confirmed ==>
        && round.Some?
        && RoundOk(old(player.settings), old(nextId), round.value)
        && View() == WithRound(Cleared(old(View())), round.value)
      ensures Valid()
    {
      if !confirmed {
        return None;
      }
      var generatorSettings := player.settings;
      ClearProgress();
      var r := BuildRound(generatorSettings, rolls, shuffleRolls);
      round := Some(r);
    }

    /** localStorage.clear() and the setters of handleReset. */
    method ClearProgress()
      requires Valid()
      modifies this
      ensures View() == Cleared(old(View()))
      ensures Valid()
    {
      ResetIsFreshInstall(View());
      store := map[];
      progress := Progress(0, 0, 10);
      badges := badges.(earnedBadges := []);
      stats := InitialStats;
      player := player.(settings := DefaultSettings);
    }
  }
}
