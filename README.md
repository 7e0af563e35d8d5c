# Number Bonds — a verified model of the game engine

Number Bonds is a browser arithmetic game. The player sees a board of problem
tiles (such as `3+4`) and a shuffled tray of answer tiles. They pair each problem
with its answer. A correct pair scores points: more for a longer streak, more
for a fast solve, and triple during the ten-second "boss mode" that a streak of
ten starts. Badges are awarded for reaching thresholds. A settings panel chooses
the number range, the operations, how many terms a problem has, and how many
problems a round holds. The name and settings persist in the browser's local
storage.

This project models the engine behind that screen and proves properties of it:

- `game_constants.dfy` (module `GameConstants`): the constant tables. These are
  the speed tiers, the boss-mode parameters, the difficulty presets and the
  operations.
- `scoring.dfy` (`Scoring`): the speed-bonus lookup, with its loop as a method;
  the score of a correct answer; the streak multiplier; the level; and the boss
  completion bonus.
- `badges.dfy` (`Badges`): the ten-badge catalog and its conditions; one badge
  check pass; the shelf lookup that shows earned badges; and the fixed point that
  repeated passes reach.
- `problems.dfy` (`Problems`): `generateProblem` and `generateProblemsAndAnswers`.
  Both are methods with their loops, proved against predicates that describe
  every problem and round the source can produce.
- `storage.dfy` (`Storage`): the settings store as a string map. It covers
  `parseInt`, `JSON.stringify`/`JSON.parse` of a list of strings, loading the
  settings and badges at start, and what a save writes.
- `settings_panel.dfy` (`SettingsPanel`): the panel's form. The preset,
  operation-toggle and term-count controls are functions. The save is a method
  with the loop that writes each field.
- `session.dfy` (`NumberBondsGame`): the game component.
  - A flat snapshot `GameState` and one pure step function per handler or
    effect. These cover the match judgement, the two click handlers, the removal
    timeout, the boss interval and trigger, the level and play-time effects, the
    badge check, the new round, save and reset.
  - The class `GameSession` holds the component's state variables as fields,
    grouped the way the component declares them. Each handler is a method that
    updates those fields in place. Each method promises that its new snapshot is
    the step of the old one, and that the state invariant still holds.

Modelling conventions:

- Time is the `now` parameter, in milliseconds (what `Date.now()` returns).
- Randomness is a sequence of rolls.
- The timers (the 500 ms removal, the 100 ms boss interval, the one-second
  play-time interval, the 3 s badge banner) are methods the caller invokes when
  they fire.
- Fractional quantities are rescaled to integers:
  - the streak multiplier in tenths (10 means 1.0, capped at 30);
  - the boss timer in ticks of its 100 ms interval (100 ticks = 10 s).

The handlers read state through React closures, and the model keeps each stale
read as the code has it:

- `handleMatch` times a solve from the start time seen before the click. When
  that is still `null`, `Date.now() - null` is the whole clock reading.
- Save and reset build the new round with the settings from before the change.
  The "+5 on the upper bound" after a short round applies to the settings being
  installed.
- A streak still at ten when boss mode ends starts boss mode again at once.

## Model

| member | source | states |
|---|---|---|
| GameConstants.SpeedTiersOrdered | src/constants/gameConstants.js:1-6 | the four speed tiers strictly ascend in time and strictly descend in bonus, and every bonus is positive |
| GameConstants.BossConstants | src/constants/gameConstants.js:8-13 | boss mode needs a streak of 10, lasts 10 s (100 ticks of 100 ms), triples the base score and cycles through 3 colours |
| GameConstants.PresetsWellFormed | src/constants/gameConstants.js:15-21 | every difficulty preset has 1 <= min < max and at least 3 problems, and problem counts strictly increase from Beginner to Expert |
| GameConstants.OperationsDistinct | src/constants/gameConstants.js:23-28 | there are four operation options with pairwise distinct values |
| GameConstants.NextColorIndex | src/components/NumberBondsGame.jsx:392 | the boss colour index stays within the palette and advances by one, wrapping from the last colour to the first |
| Scoring.SpeedBonus | src/components/NumberBondsGame.jsx:251-258 | the speed bonus is never negative |
| Scoring.FirstTierIsLargestQualifying | src/components/NumberBondsGame.jsx:251-258 | on a table ordered like the game's, the first-match scan yields the largest bonus among qualifying tiers, and 0 exactly when no tier qualifies |
| Scoring.SpeedBonusTable | src/constants/gameConstants.js:1-6 | the bonus is 0 exactly when the solve took more than 12 s; otherwise it is the bonus of a qualifying tier and at least every qualifying tier's bonus |
| Scoring.LookupSpeedBonus | src/components/NumberBondsGame.jsx:251-258 | the `for … of` scan with its `break` returns the bonus of the first qualifying tier |
| Scoring.CalculateScore | src/components/NumberBondsGame.jsx:121-128 | a correct answer earns at least 100 points plus the speed bonus, and at least 300 plus the bonus in boss mode |
| Scoring.BossModeTriplesBase | src/components/NumberBondsGame.jsx:121-128 | outside boss mode the points are 100 × multiplier + bonus; boss mode triples the base part and leaves the speed bonus untouched |
| Scoring.NextMultiplier | src/components/NumberBondsGame.jsx:270 | the multiplier grows by 0.1 per correct answer until it reaches its cap of 3.0, and never leaves 1.0..3.0 |
| Scoring.LevelFor | src/components/NumberBondsGame.jsx:427 | the level is the unique L >= 1 with (L - 1) × 1000 <= score < L × 1000 |
| Scoring.LevelForMonotone | src/components/NumberBondsGame.jsx:426-429 | a larger score never gives a lower level |
| Scoring.BossBonus | src/components/NumberBondsGame.jsx:384 | the boss completion bonus is the floor of a fifth of the score |
| Util.IntToString | src/components/SettingsPanel.jsx:102 | the decimal text `toString` writes is non-empty, and starts with a minus sign exactly for negative numbers |
| Badges.CatalogComplete | src/components/BadgesDisplay.jsx:4-99 | every badge is in the catalog |
| Badges.IdsDistinct | src/components/BadgesDisplay.jsx:4-99 | the catalog has ten badges with pairwise distinct ids |
| Badges.IdInjective | src/components/BadgesDisplay.jsx:4-99 | two badges with the same id are the same badge |
| Badges.BaseConditionIgnoresEarned | src/components/BadgesDisplay.jsx:4-60 | the seven threshold badges depend on the statistics only, never on the earned list |
| Badges.ConditionMonotone | src/components/BadgesDisplay.jsx:4-99 | with larger statistics and more badges earned, a condition that held still holds |
| Badges.SuperConditionMatchesRequired | src/components/BadgesDisplay.jsx:61-99 | a super badge's condition holds exactly when all of its required badges are earned, plus 100 solves for grand-explorer |
| Badges.DependenciesAcyclic | src/components/BadgesDisplay.jsx:61-99 | every required id names a badge of strictly lower rank, so the requirements never form a cycle |
| Badges.FindIn | src/components/BadgesDisplay.jsx:150 | the lookup finds a badge of the catalog that has the given id, or reports that none has it |
| Badges.FindBadgeInvertsId | src/components/BadgesDisplay.jsx:150 | looking up a badge's own id finds that badge |
| Badges.Shelf | src/components/BadgesDisplay.jsx:149-153 | the shelf shows no more badges than ids are earned, and only badges whose ids are earned |
| Badges.ShelfShowsKnownIds | src/components/BadgesDisplay.jsx:149-153 | when every earned id is a catalog id, the shelf shows exactly those badges in the earned order |
| Badges.NewlyEarned | src/components/NumberBondsGame.jsx:466-482 | one pass adds at most one id per catalog entry |
| Badges.NewlyEarnedMembers | src/components/NumberBondsGame.jsx:466-482 | an id is added exactly when its badge was not yet earned and its condition holds for the snapshot |
| Badges.LastAddedIsFound | src/components/NumberBondsGame.jsx:466-482 | the last id a pass adds names a catalog badge that the lookup finds |
| Badges.PassOnlyAppends | src/components/NumberBondsGame.jsx:470-474 | a pass keeps the old list as a prefix and only appends ids that were absent and whose conditions hold |
| Badges.PassMember | src/components/NumberBondsGame.jsx:466-482 | after a pass a badge is earned exactly when it was earned before or its condition held |
| Badges.PassFixedWhenSaturated | src/components/NumberBondsGame.jsx:484-486 | when every badge is earned or unmet, a pass changes nothing |
| Badges.PassesReachFixedPoint | src/components/NumberBondsGame.jsx:484-486 | with the statistics fixed, the list stops changing after at most three passes |
| Badges.FirstPassAwardsBaseOnly | src/components/NumberBondsGame.jsx:466-482 | from nothing, with every threshold met, one pass awards the required base badges and no super badge |
| Badges.SecondPassAwardsFirstSupers | src/components/NumberBondsGame.jsx:466-482 | the second pass awards math-master and grand-explorer but not ultimate-achiever |
| Badges.CascadeNeedsThreePasses | src/components/NumberBondsGame.jsx:484-486 | ultimate-achiever needs three passes: absent after two, present after three |
| Badges.ExplorerAndVariableMasterUnreachable | src/components/NumberBondsGame.jsx:105-113 | with the statistics the game keeps (no operation recorded, at most 2 terms), no pass ever awards explorer or variable-master |
| Problems.LabelsDistinct | src/components/NumberBondsGame.jsx:151-196 | the four operators carry four different operation labels |
| Problems.OperationsNameEveryOperator | src/components/NumberBondsGame.jsx:151-196 | the panel's four options select the four generator branches, each exactly once |
| Problems.OperatorForKnowsOnlyTheOptions | src/components/NumberBondsGame.jsx:151-196 | a name reaches a generator branch exactly when it is one of the panel's option values; everything else takes the default branch |
| Problems.Widen | src/components/NumberBondsGame.jsx:226-231 | a short round raises the upper bound by 5, changes nothing else, and keeps the settings usable |
| Problems.DivisionIsExact | src/components/NumberBondsGame.jsx:188-193 | a division problem's first part divides by its second with no remainder, and the quotient is its result |
| Problems.Outcomes | src/components/NumberBondsGame.jsx:140-146 | the values `floor(u × (hi − lo + 1)) + lo` can take form an interval with lo at one end, including for an empty or fractional range |
| Problems.PickNonZero | src/components/NumberBondsGame.jsx:140-146 | the retry loop returns a non-zero value of the range |
| Problems.PickNonZeroCovers | src/components/NumberBondsGame.jsx:140-146 | every non-zero value of the range can be drawn |
| Problems.Draw | src/components/NumberBondsGame.jsx:140-146 | `generateNonZeroNumber` returns a non-zero value among its outcomes |
| Problems.DrawInRange | src/components/NumberBondsGame.jsx:140-146 | a draw over an ordinary positive range lands within it |
| Problems.PartnerBound | src/components/NumberBondsGame.jsx:190 | the division partner's bound is non-negative for a non-negative upper bound |
| Problems.PartnerBoundMeaning | src/components/NumberBondsGame.jsx:190 | `Math.min(maxNumber / result, 12)` is 12 exactly when maxNumber >= 12 × result; otherwise it is the quotient, with a fractional part exactly when the division is inexact |
| Problems.RootSearch | src/components/NumberBondsGame.jsx:180 | the downward search finds the integer root: root^n <= m < (root + 1)^n |
| Problems.IntRoot | src/components/NumberBondsGame.jsx:180 | the multiplication cap `floor(m^(1/n))` is the integer n-th root of m, between 1 and m |
| Problems.ChosenOperation | src/components/NumberBondsGame.jsx:134-149 | the chosen operation is one of the enabled ones, or addition when none is enabled |
| Problems.EnabledOrDefault | src/components/NumberBondsGame.jsx:132-138 | the generator always chooses from at least one operation |
| Problems.GenerateProblem | src/components/NumberBondsGame.jsx:131-198 | the problem's result is the value of its expression, and the problem has the shape the chosen operation's branch produces |
| Problems.DrawParts | src/components/NumberBondsGame.jsx:152-157 | the addition and multiplication loops draw exactly the term count of numbers, each within the range |
| Problems.ChainExtends | src/components/NumberBondsGame.jsx:163-172 | each subtrahend the loop accepts keeps what remains of the first number positive |
| Problems.SubtractionParts | src/components/NumberBondsGame.jsx:161-176 | the subtraction loop draws a first number from the upper half of the range, then subtrahends that each fit under what remains, stopping early when none fits |
| Problems.MultiplicationStaysInRange | src/components/NumberBondsGame.jsx:179-186 | when the root cap is at least the lower bound, a product never exceeds the upper bound and is at least the lower bound |
| Problems.SubtractionAnswerPositive | src/components/NumberBondsGame.jsx:161-176 | a subtraction's answer is positive and no larger than its first number, which is at most the upper bound |
| Problems.Shuffle | src/components/NumberBondsGame.jsx:234-236 | the random sort returns a permutation of the tiles |
| Problems.Tray | src/components/NumberBondsGame.jsx:234-235 | the answer tiles before sorting hold the answers in set order, with distinct ids after those of the problems |
| Problems.ShuffledTray | src/components/NumberBondsGame.jsx:234-236 | after sorting, the tray holds the same multiset of values and still has distinct ids in range |
| Problems.ShuffledAnswers | src/components/NumberBondsGame.jsx:234-236 | the answer tray of a round holds each answer once, with distinct ids |
| Problems.GenerateProblemsAndAnswers | src/components/NumberBondsGame.jsx:201-240 | at most 100 attempts. The round has at most problemCount problems and is short exactly when it has fewer (then all 100 attempts were used). Every problem is generated from the settings and evaluates. Results and texts are pairwise distinct, and the answer tray holds the results exactly once each |
| Problems.AcceptKeepsDistinct | src/components/NumberBondsGame.jsx:213-223 | accepting a problem with a new result and a new text keeps results and texts distinct |
| Problems.OneTilePerResult | src/components/NumberBondsGame.jsx:201-240 | every problem of a round has exactly one answer tile, and every answer tile answers some problem |
| Storage.ParseInt | src/components/NumberBondsGame.jsx:67-71 | `parseInt` yields a number only from a non-empty text |
| Storage.ParseIntOfIntToString | src/components/NumberBondsGame.jsx:67-71 | the number a save writes as text reads back as the same number |
| Storage.ParseStringList | src/components/NumberBondsGame.jsx:63 | a parsed list holds only strings that need no escaping |
| Storage.ParseOfJsonStringList | src/components/NumberBondsGame.jsx:99 | `JSON.parse` of `JSON.stringify` of a list of plain strings gives the list back |
| Storage.IntOr | src/components/NumberBondsGame.jsx:67-71 | `parseInt(…) \|\| fallback` is the fallback or a non-zero number |
| Storage.LoadSettings | src/components/NumberBondsGame.jsx:61-72 | the loaded settings always enable at least one operation; an empty stored list falls back to addition |
| Storage.EmptyStoreLoadsDefaults | src/components/NumberBondsGame.jsx:61-103 | an empty store loads the default settings, no badges and no name |
| Storage.SavedStoreEntries | src/components/SettingsPanel.jsx:94-104 | each key the save writes holds exactly the text written for it, and every other key is untouched |
| Storage.LoadAfterSave | src/components/SettingsPanel.jsx:94-104 | saved settings with no zero field load back unchanged, a non-empty name loads back, and the badge list is untouched |
| SettingsPanel.SelectPreset | src/components/SettingsPanel.jsx:28-38 | a preset replaces the bounds and problem count and keeps the name, the operations and the term count |
| SettingsPanel.PresetChoices | src/components/SettingsPanel.jsx:28-38 | a later preset choice overrides an earlier one; a catalog preset gives settings the generator can use |
| SettingsPanel.RemoveMultiset | src/components/SettingsPanel.jsx:47 | the filter drops every copy of the operation and keeps everything else |
| SettingsPanel.RemoveFromDistinct | src/components/SettingsPanel.jsx:47 | on a list without repeats, the filter removes just that element and keeps the others in order |
| SettingsPanel.ToggleOperation | src/components/SettingsPanel.jsx:40-70 | the last enabled operation cannot be turned off. A present operation is filtered out and an absent one appended. Turning division on also sets 2 terms. Nothing else in the form changes |
| SettingsPanel.ToggleMembership | src/components/SettingsPanel.jsx:40-70 | a toggle flips the membership of the toggled operation only (unless it is the last one) and keeps the list non-empty and free of repeats |
| SettingsPanel.ToggleTwiceRestores | src/components/SettingsPanel.jsx:40-70 | turning an operation on and off again restores the form, unless turning division on changed the term count |
| SettingsPanel.SetVariableCount | src/components/SettingsPanel.jsx:72-83 | the typed text either leaves the form unchanged or sets the term count alone, to a value in 2..5 |
| SettingsPanel.SetVariableCountRange | src/components/SettingsPanel.jsx:72-83 | a typed number is applied exactly when it lies in 2..5 |
| SettingsPanel.ControlsKeepFormOk | src/components/SettingsPanel.jsx:28-83 | every control keeps the form invariant: at least one operation, no repeats, only known operations, 2 terms with division |
| SettingsPanel.ControlsKeepGeneratorReady | src/components/SettingsPanel.jsx:28-83 | every control keeps settings with positive bounds and at least one term |
| SettingsPanel.FormOkNeverDefaults | src/components/NumberBondsGame.jsx:149-196 | under the form invariant the generator never reaches its default branch |
| SettingsPanel.Trim | src/components/SettingsPanel.jsx:92 | the trimmed name is empty exactly when the name is all white space; otherwise it starts and ends with non-space |
| SettingsPanel.TrimIsSlice | src/components/SettingsPanel.jsx:92 | the trimmed name is the slice of the name between white space at both ends |
| SettingsPanel.TrimIdempotent | src/components/SettingsPanel.jsx:92 | trimming twice is trimming once |
| SettingsPanel.FieldTexts | src/components/SettingsPanel.jsx:98-104 | the save writes the JSON list for enabledOperations and the decimal text for every other field, under the field's own key |
| SettingsPanel.HandleSave | src/components/SettingsPanel.jsx:90-109 | a blank name commits and writes nothing; otherwise the trimmed name and the form's settings are committed and written to the store |
| SettingsPanel.SaveThenReload | src/components/SettingsPanel.jsx:90-109 | after a save, a reload starts with the saved settings and the trimmed name |
| SettingsPanel.FormOkIsStorable | src/components/SettingsPanel.jsx:96-104 | a form kept by the controls, with positive fields, survives the store unchanged |
| SettingsPanel.OperationNamePlain | src/constants/gameConstants.js:23-28 | the operation values need no escaping in JSON |
| NumberBondsGame.WithoutProblem | src/components/NumberBondsGame.jsx:280 | the filter keeps exactly the problem tiles with another id |
| NumberBondsGame.WithoutAnswer | src/components/NumberBondsGame.jsx:281 | the filter keeps exactly the answer tiles with another id |
| NumberBondsGame.InitialStateIsValid | src/components/NumberBondsGame.jsx:50-113 | the mounted state satisfies the state invariant, and the intro panel is open exactly when no name is stored |
| NumberBondsGame.MatchOutcome | src/components/NumberBondsGame.jsx:243-300 | after a judgement both selections and the start time are empty, and boss mode and the board are unchanged. A correct pair adds exactly the points for the multiplier and mode from before the match plus the speed bonus for the time since the start (so at least 100, or 300 in boss mode, on top of that bonus). It extends the streak, raises the multiplier a tenth, sets the record streak to the larger of the old record and the new streak, counts a solve, counts a fast solve exactly when it took 5 s or less, leaves the other statistics alone and queues the pair for removal. A wrong pair resets streak and multiplier and changes no score, statistic or removal |
| NumberBondsGame.MatchKeepsValid | src/components/NumberBondsGame.jsx:243-300 | a judgement keeps the state invariant |
| NumberBondsGame.ProblemClickKeepsValid | src/components/NumberBondsGame.jsx:302-318 | a problem click keeps the state invariant |
| NumberBondsGame.AnswerClickKeepsValid | src/components/NumberBondsGame.jsx:320-333 | an answer click keeps the state invariant |
| NumberBondsGame.ProblemClickCases | src/components/NumberBondsGame.jsx:302-318 | clicking the selected problem deselects it. Otherwise the problem is selected, with the start time set only from an empty slot. A waiting answer is judged at once, and the streak grows exactly when it is right |
| NumberBondsGame.AnswerClickCases | src/components/NumberBondsGame.jsx:320-333 | clicking the selected answer deselects it. Otherwise the answer is selected, and it is judged at once when a problem is waiting; the streak grows exactly when it is right |
| NumberBondsGame.ReselectTimedFromFirstClick | src/components/NumberBondsGame.jsx:302-318 | select, deselect, choose the answer, reselect: the solve is timed from the first selection |
| NumberBondsGame.AnswerFirstEarnsNoSpeedBonus | src/components/NumberBondsGame.jsx:302-333 | choosing the answer before the problem times the solve from the epoch, so it earns no speed bonus |
| NumberBondsGame.MatchThenRemoval | src/components/NumberBondsGame.jsx:278-289 | the removal timeout of a match takes exactly the matched pair off the board and out of the disappearing set |
| NumberBondsGame.RemovalKeepsValid | src/components/NumberBondsGame.jsx:278-289 | a removal keeps the state invariant and retires one pending removal |
| NumberBondsGame.BossStartsAtTen | src/components/NumberBondsGame.jsx:398-406 | boss mode starts only from a streak of exactly 10, with a full timer; the trigger does nothing during boss mode |
| NumberBondsGame.BossStepsKeepValid | src/components/NumberBondsGame.jsx:376-406 | the trigger and each boss tick keep the state invariant |
| NumberBondsGame.WrongAnswerKeepsBossMode | src/components/NumberBondsGame.jsx:290-295 | a wrong answer changes neither the boss mode nor its timer, and does not trigger it |
| NumberBondsGame.BossTimerRunsDown | src/components/NumberBondsGame.jsx:376-396 | while time is left, each firing takes one tick off and leaves score and mode alone |
| NumberBondsGame.BossModeEnds | src/components/NumberBondsGame.jsx:376-396 | with t ticks left, boss mode ends on firing t + 1, with the timer refilled and a bonus of a fifth of the score |
| NumberBondsGame.BossRestartsOnUnchangedStreak | src/components/NumberBondsGame.jsx:376-406 | a streak still at 10 when boss mode ends starts boss mode again with a full timer |
| NumberBondsGame.LevelCatchesUp | src/components/NumberBondsGame.jsx:426-463 | the level effect brings the level to what the score earns and never lowers it; it and the play-time tick keep the invariant |
| NumberBondsGame.BadgeCheckGrows | src/components/NumberBondsGame.jsx:466-482 | a badge check is one pass: it only appends, never awards explorer or variable-master, and keeps the invariant |
| NumberBondsGame.BadgeCheckAnnounces | src/components/NumberBondsGame.jsx:466-482 | a check that adds nothing changes nothing. Otherwise the announced badge is the last one added, and the store holds the JSON of the new list |
| NumberBondsGame.ResetIsFreshInstall | src/components/NumberBondsGame.jsx:489-518 | after a reset the state is valid and the store reads back as a fresh install. Boss mode and the board are left as they were |
| NumberBondsGame.RoundKeepsValid | src/components/NumberBondsGame.jsx:226-239 | installing a round keeps the invariant, and a short round raises the upper bound by 5 |
| NumberBondsGame.ScanBadges | src/components/NumberBondsGame.jsx:466-482 | the `forEach` queues exactly the pass's new ids; the announced badge is the last one queued, or the previous one when none is queued |
| NumberBondsGame.RunBadgeUpdaters | src/components/NumberBondsGame.jsx:470-474 | the queued updaters append the ids in order; after any of them the store holds the JSON of the final list |
| NumberBondsGame.InitialState | src/components/NumberBondsGame.jsx:50-113 | the mounted state: empty board, the stored name, settings and badges, intro open without a name; `InitialStateIsValid` proves it valid |
| NumberBondsGame.Solved | src/components/NumberBondsGame.jsx:261-288 | the setters of a correct match; `MatchOutcome` states each field and `SolvedKeepsValid` the invariant |
| NumberBondsGame.SolvedKeepsValid | src/components/NumberBondsGame.jsx:261-288 | the setters of a correct match keep the state invariant on their own |
| NumberBondsGame.Missed | src/components/NumberBondsGame.jsx:290-295 | a wrong match resets streak and multiplier; `MatchOutcome` and `WrongAnswerKeepsBossMode` state what it keeps |
| NumberBondsGame.JudgeMatch | src/components/NumberBondsGame.jsx:243-300 | `handleMatch` with the start time it was created with; specified by `MatchOutcome`, with `MatchKeepsValid` as its invariant |
| NumberBondsGame.ProblemClick | src/components/NumberBondsGame.jsx:302-318 | `handleProblemClick`; specified by `ProblemClickCases` and `ReselectTimedFromFirstClick`, with `ProblemClickKeepsValid` |
| NumberBondsGame.AnswerClick | src/components/NumberBondsGame.jsx:320-333 | `handleAnswerClick`; specified by `AnswerClickCases` and `AnswerFirstEarnsNoSpeedBonus`, with `AnswerClickKeepsValid` |
| NumberBondsGame.FinishRemoval | src/components/NumberBondsGame.jsx:279-288 | the 500 ms removal timeout; `MatchThenRemoval` shows it removes exactly the matched pair, `RemovalKeepsValid` that it keeps the invariant |
| NumberBondsGame.BossTick | src/components/NumberBondsGame.jsx:379-393 | one firing of the boss interval; `BossTimerRunsDown` and `BossModeEnds` state the countdown and its end, `BossStepsKeepValid` the invariant |
| NumberBondsGame.Ticks | src/components/NumberBondsGame.jsx:376-396 | repeated firings until the interval is cleared; used by `BossTimerRunsDown` and `BossModeEnds` |
| NumberBondsGame.BossTrigger | src/components/NumberBondsGame.jsx:398-406 | the trigger effect; `BossStartsAtTen` and `BossRestartsOnUnchangedStreak` state when it fires |
| NumberBondsGame.LevelCheck | src/components/NumberBondsGame.jsx:426-429 | the level effect; `LevelCatchesUp` shows the level becomes what the score earns and never falls |
| NumberBondsGame.PlayTimeTick | src/components/NumberBondsGame.jsx:454-463 | one second of play time; `LevelCatchesUp` shows it keeps the invariant |
| NumberBondsGame.BadgeCheck | src/components/NumberBondsGame.jsx:466-482 | `checkBadges`; `BadgeCheckGrows` shows it is one pass that only appends, `BadgeCheckAnnounces` what it announces and stores |
| NumberBondsGame.WithRound | src/components/NumberBondsGame.jsx:226-239 | a delivered round replaces the board and a short round widens the settings; `RoundKeepsValid` proves the invariant |
| NumberBondsGame.NeedsRound | src/components/NumberBondsGame.jsx:408-413 | the regeneration effect's condition: an empty board with the intro closed |
| NumberBondsGame.Committed | src/components/SettingsPanel.jsx:94-106 | a successful save as the game sees it: new name, settings and store, panel closed; used by `GameSession.Save` |
| NumberBondsGame.Cleared | src/components/NumberBondsGame.jsx:495-515 | the reset's setters; `ResetIsFreshInstall` shows the store then reads as a fresh install and the state stays valid |
| Badges.Condition | src/components/BadgesDisplay.jsx:4-99 | each badge's `condition(stats, earnedBadges)`; `ConditionMonotone`, `BaseConditionIgnoresEarned` and `SuperConditionMatchesRequired` state its properties |
| Badges.Pass | src/components/NumberBondsGame.jsx:466-482 | the earned list after one check; `PassOnlyAppends`, `PassMember` and `PassesReachFixedPoint` state what it does |
| Problems.OperatorFor | src/components/NumberBondsGame.jsx:151-196 | the `switch` on the operation name; `OperationsNameEveryOperator` and `OperatorForKnowsOnlyTheOptions` state which names reach which branch |
| Problems.Evaluates | src/components/NumberBondsGame.jsx:152-193 | a problem's result is the value of its parts under its operator (exact quotient for division); established by `GenerateProblem` and used by `DivisionIsExact` |
| Problems.Generated | src/components/NumberBondsGame.jsx:151-196 | the shape each branch of the generator produces; `GenerateProblem` establishes it, `MultiplicationStaysInRange` and `SubtractionAnswerPositive` draw its consequences |
| Problems.Signature | src/components/NumberBondsGame.jsx:215 | `p.parts.join(p.operation)`, the text the builder compares; `AcceptKeepsDistinct` keeps the texts distinct |
| Problems.RoundOk | src/components/NumberBondsGame.jsx:201-240 | what every built round guarantees; established by `GenerateProblemsAndAnswers`, with `OneTilePerResult` as a consequence |
| Storage.JsonStringList | src/components/SettingsPanel.jsx:100 | `JSON.stringify` of a list of strings; `ParseOfJsonStringList` shows the parser reads it back |
| Storage.LoadEarned | src/components/NumberBondsGame.jsx:97-103 | the stored badge list, no badges when unreadable; `EmptyStoreLoadsDefaults` and `LoadAfterSave` state its values |
| Storage.LoadName | src/components/NumberBondsGame.jsx:61 | the stored name or the empty name; `EmptyStoreLoadsDefaults` and `LoadAfterSave` state its values |
| Storage.SavedStore | src/components/SettingsPanel.jsx:94-104 | the store after a save; `SavedStoreEntries` gives every entry and `LoadAfterSave` the round trip |
| SettingsPanel.Remove | src/components/SettingsPanel.jsx:47 | `filter(op => op !== operation)`; `RemoveMultiset` and `RemoveFromDistinct` state what it removes and keeps |
| NumberBondsGame.GameSession.constructor | src/components/NumberBondsGame.jsx:50-113 | the mounted component holds the state read from the store, which is valid |
| NumberBondsGame.GameSession.HandleMatch | src/components/NumberBondsGame.jsx:243-300 | the new state is the judgement of the pair, and the invariant is kept |
| NumberBondsGame.GameSession.RecordSolve | src/components/NumberBondsGame.jsx:261-288 | the setters of a correct match produce the solved state and keep the invariant |
| NumberBondsGame.GameSession.HandleProblemClick | src/components/NumberBondsGame.jsx:302-318 | a click on an enabled problem tile is the problem-click step and keeps the invariant |
| NumberBondsGame.GameSession.HandleAnswerClick | src/components/NumberBondsGame.jsx:320-333 | a click on an enabled answer tile is the answer-click step and keeps the invariant |
| NumberBondsGame.GameSession.RemovalTimeout | src/components/NumberBondsGame.jsx:279-288 | the oldest pending removal fires |
| NumberBondsGame.GameSession.Tick | src/components/NumberBondsGame.jsx:376-396 | one boss interval firing |
| NumberBondsGame.GameSession.CheckBossTrigger | src/components/NumberBondsGame.jsx:398-406 | the boss trigger effect |
| NumberBondsGame.GameSession.CheckLevel | src/components/NumberBondsGame.jsx:426-451 | the level effect |
| NumberBondsGame.GameSession.PlayTimeSecond | src/components/NumberBondsGame.jsx:454-463 | one second of play time |
| NumberBondsGame.GameSession.CheckBadges | src/components/NumberBondsGame.jsx:466-486 | the catalog scan followed by the queued updaters is one badge pass |
| NumberBondsGame.GameSession.HideNewBadge | src/components/NumberBondsGame.jsx:478 | the 3 s timeout clears the announcement and nothing else |
| NumberBondsGame.GameSession.BuildRound | src/components/NumberBondsGame.jsx:201-240 | the round satisfies the round guarantees for the settings the builder was created with, and replaces the board |
| NumberBondsGame.GameSession.NewRound | src/components/NumberBondsGame.jsx:408-413 | the regeneration effect installs a round built from the current settings |
| NumberBondsGame.GameSession.ClosePanel | src/components/NumberBondsGame.jsx:580-583 | closing the panel closes the intro and nothing else |
| NumberBondsGame.GameSession.Save | src/components/SettingsPanel.jsx:90-109 | a blank name changes nothing. Otherwise the name, settings and store are committed, the panel closes, and a round built from the old settings is installed |
| NumberBondsGame.GameSession.Reset | src/components/NumberBondsGame.jsx:489-518 | declined, nothing changes; confirmed, the progress is cleared and a round built from the old settings is installed |
| NumberBondsGame.GameSession.ClearProgress | src/components/NumberBondsGame.jsx:495-515 | the store is emptied and score, streak, multiplier, badges, statistics and settings return to their defaults |

## Left out

- Sound, particles, ripples, celebrations, the screen shake and the rest of the DOM are not modelled: they have no effect on the game state.
- Timers and effects: the React scheduler is not modelled. Each timer or effect is a method the caller invokes, in any order. `PassesReachFixedPoint` shows that for a fixed set of statistics the badge effect settles within three runs.
- The boss interval is re-created whenever the score changes. This is left out: it restarts the 100 ms phase but not the countdown.
- Floating point is left out. The boss timer counts down by 0.1 s, and the multiplier grows by 0.1 and multiplies a score. Both are modelled as exact tenths, so the float drift is absent: the last tick before zero, and scores with a fraction such as 120.00000000000001.
- Problems.IntRoot: `Math.pow(m, 1/n)` can land just below an integer at a perfect power (1000^(1/3)). The model takes the exact integer root.
- Problems.Draw: the `do … while (num === 0)` retry loop is modelled by its outcome, one of the non-zero values the range can produce. A range holding only 0 would loop forever; the settings the game can hold never produce one.
- Problems.GenerateProblem and NumberBondsGame.GameSession.constructor: both require positive bounds and at least one term (`GeneratorReady`). The panel's presets and controls only produce such settings (`ControlsKeepGeneratorReady`). A hand-edited store with a negative bound is left out.
- Random tile ids (`Math.random().toString(36)`) are replaced by a counter, so ids are distinct by construction.
- `.sort(() => Math.random() - 0.5)` is modelled as some permutation chosen by the rolls. Its bias is not modelled.
- Storage.ParseStringList: `JSON.parse` is modelled for the compact list-of-strings text that `JSON.stringify` writes. Other JSON texts read as unreadable. An unreadable stored badge list reads as no badges. An unreadable operation list is the start-up failure `LoadSettings` returns as None.
- Storage.ParseInt: leading white space and the `0x` prefix (which `parseInt` without a radix reads as hexadecimal) are not modelled.
- `window.confirm` is the `confirmed` parameter of Reset.
- The loading screen and `isInitializing` are left out. Its Start button is modelled as NewRound.
- `showLevelUp` and its banner are left out, and so are `showSettings` (which only decides whether the panel is drawn) and `lastClickPosition`.
- `handleNameChange` and `handleTabChange` are left out: they only set the form's name text or the visible tab. The name is a field of the form passed to Save.
- React StrictMode's double effects (src/App.jsx) are not modelled. src/hooks/useSound.js is not part of this model.
- The component's state variables are grouped into records by what they describe, not by their comment sections: the tiles, selections and start time (Board), the boss-mode variables (Boss), the name, settings and intro flag (Player), score, streak and multiplier (Progress), and the badge list and announcement (BadgeState). The grouping changes no behaviour.
