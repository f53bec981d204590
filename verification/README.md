# Longitudinal audit engine and catalogue-name repair, in Dafny

This project models two Python tools of the Hefesto training engine.

**The longitudinal auditor** (`test/longitudinal/auditor_longitudinal.py`)
reads one JSON snapshot per training week and normalises each into a
`WeekData` record:
- the per-muscle volume;
- the number of prescriptions that allow failure on the last set;
- the phase, fatigue expectation and RIR target of the first `week_setup`
  decision.

It then runs seven checks over the timeline:
1. four invariant rules, which append P0/P1 violations to a shared list;
2. directionality (feedback signal against volume response);
3. stability (variance and chaotic swings);
4. reversibility (reduce-then-recover cycles);
5. failure usage (failure-rate ladder and a deload penalty);
6. traceability (required decision categories and decision density);
7. scores: a +50 base, −30 per P0 and −15 per P1, a clamp to [0, 100], and a
   verdict on the average.

The scoring caps what a run can reach. The three scores start at 0, so a
completed run scores at most 70, 50 and 70, an average of about 63. No run
therefore earns the top verdict, CORRECTO Y SEGURO, which needs an average of
80 (`Auditor.ReportCeiling`).

**The encoding repair** (`fix_utf8_encoding.py`) has two parts:
- `fix_corrupted_text` applies an ordered table of literal replacements to
  a string;
- `fix_exercise_names` walks a loaded JSON document in place and repairs
  every string stored directly under the key `'es'`.

Module layout:
- `Wrappers`: `Option` and `Result`.
- `Snapshot`: the JSON snapshot of one week.
- `WeekParse`: `_parse_week` and its loops.
- `Rules`: the fixed tables and classifiers.
- `Invariants`: the four rules as functions.
- `Analyses`: the later checks as functions.
- `Auditor`: the `LongitudinalAuditor` class. Each `check_*` step is a method
  over its fields, proved against those functions.
- `TextRepair`: `str.replace`, the replacement table and `fix_corrupted_text`.
- `ExerciseNames`: the in-place walk over a tree of mutable containers,
  proved against a value-level walk.

Python exceptions that end a run become error values:
- `KeyError` on a missing `weekNumber`, `plan` or `decisions` becomes
  `Malformed`.
- `IndexError` at `self.weeks[week_number - 2]` becomes `PreviousWeekMissing`.
- `IndexError` at `plan['weeks'][0]` for an empty `weeks` list becomes
  `EmptyFirstBlock`.
- `ZeroDivisionError` in `check_traceability` on an empty timeline becomes
  `NoWeeks`.

`FixCorruptedText` takes the replacement table as a parameter:
- `TextRepair.AsWritten` is the table the dictionary display at
  fix_utf8_encoding.py:28-41 actually evaluates to (`TextRepair.LiteralCollapses`);
- `TextRepair.Corrected` is the table it was evidently meant to hold (see Findings).

## Model

| member | source | states |
|---|---|---|
| WeekParse.Keys | test/longitudinal/auditor_longitudinal.py:88-99 | the keys of a volume dictionary: one per entry, the key of entry `e` at position `e` (insertion order) |
| WeekParse.Get | test/longitudinal/auditor_longitudinal.py:99 | `dict.get(k, default)` gives the default for a key the dictionary does not hold, and for a key it holds a value stored under that key |
| WeekParse.GetEntry | test/longitudinal/auditor_longitudinal.py:99 | in a dictionary without repeated keys, `get` on the key of entry `e` returns entry `e`'s value |
| WeekParse.Add | test/longitudinal/auditor_longitudinal.py:99 | `d[k] = d.get(k, 0) + n` keeps the keys distinct; a new key is appended at the end and an existing key keeps its place |
| WeekParse.AddValues | test/longitudinal/auditor_longitudinal.py:99 | adding `n` sets to a muscle raises the dictionary's total by `n` and changes the value of that muscle alone |
| WeekParse.VolumeOf | test/longitudinal/auditor_longitudinal.py:93-99 | the volume dictionary built from a plan's prescriptions has no repeated muscle |
| WeekParse.VolumeTotal | test/longitudinal/auditor_longitudinal.py:93-99 | the volumes add up to the total sets of all prescriptions of every block |
| WeekParse.VolumePerMuscle | test/longitudinal/auditor_longitudinal.py:93-99 | each muscle's volume is the sum of the sets of its own prescriptions (0 when it has none) |
| WeekParse.VolumeKeys | test/longitudinal/auditor_longitudinal.py:93-99 | a muscle is a key of the volume dictionary iff some prescription names it |
| WeekParse.NamesSnoc | test/longitudinal/auditor_longitudinal.py:96 | a muscle is named by the prescriptions iff it is named before the last one or by the last one |
| WeekParse.FailureCount | test/longitudinal/auditor_longitudinal.py:101-102 | `allow_failure_count` never exceeds the number of prescriptions |
| WeekParse.FailureCountExercises | test/longitudinal/auditor_longitudinal.py:101-104 | the counter and the exercise list advance together: the count equals the list's length |
| WeekParse.FailureExercises | test/longitudinal/auditor_longitudinal.py:101-104 | the list of exercises that allow failure is never longer than the prescription list |
| WeekParse.IntensifiedCount | test/longitudinal/auditor_longitudinal.py:106-107 | at most one intensification is counted per prescription |
| WeekParse.TallyOf | test/longitudinal/auditor_longitudinal.py:88-107 | in the counters of a prescription list, the separately counted failure prescriptions number exactly the names in the failure-exercise list |
| WeekParse.StepAll | test/longitudinal/auditor_longitudinal.py:93-107 | the prescription loop keeps the volume keys distinct from any starting tally with distinct keys |
| WeekParse.StepAllTally | test/longitudinal/auditor_longitudinal.py:93-107 | continuing the loop from the counters of `done` over `ps` gives the counters of `done + ps` |
| WeekParse.StepAllAppend | test/longitudinal/auditor_longitudinal.py:93-95 | walking `a + b` is walking `a` and then `b`, which lets the nested block/session loops be flattened |
| WeekParse.TallyStep | test/longitudinal/auditor_longitudinal.py:95-107 | one more prescription updates the counters of the prescriptions before it by one loop step |
| WeekParse.BlockPrescriptionsStep | test/longitudinal/auditor_longitudinal.py:93-95 | the prescriptions of one more block follow those of the blocks before it |
| WeekParse.SessionPrescriptionsStep | test/longitudinal/auditor_longitudinal.py:94-95 | the prescriptions of one more session follow those of the sessions before it |
| WeekParse.ScanSetup | test/longitudinal/auditor_longitudinal.py:74-85 | the decisions loop returns the phase, fatigue expectation and RIR target of the first `week_setup` decision, each falling back to its default |
| WeekParse.WalkPrescriptions | test/longitudinal/auditor_longitudinal.py:95-107 | the innermost loop leaves the counters the specification walk gives from its starting tally |
| WeekParse.CountPrescription | test/longitudinal/auditor_longitudinal.py:96-107 | one prescription updates the volume, the failure count and list, and the intensification count exactly as one loop step |
| WeekParse.WalkSessions | test/longitudinal/auditor_longitudinal.py:94-107 | the session loop leaves the counters of the starting tally continued over the prescriptions of all sessions |
| WeekParse.WalkPlan | test/longitudinal/auditor_longitudinal.py:93-107 | the three nested loops, with absent `weeks`, `sessions` or `prescriptions` read as empty, yield the counters of all the plan's prescriptions |
| WeekParse.ParseWeek | test/longitudinal/auditor_longitudinal.py:67-121 | `_parse_week` fails iff `weekNumber`, `plan` or `decisions` is missing. Otherwise the failure count is the length of the exercise list, the volumes sum to the total sets, no muscle repeats, and the intensification count is at most the number of prescriptions |
| WeekParse.SetupIgnoresLater | test/longitudinal/auditor_longitudinal.py:79-85 | decisions after the first `week_setup` do not affect the setup (the `break`) |
| WeekParse.SetupFromFirstEntry | test/longitudinal/auditor_longitudinal.py:79-85 | the setup values come from the context of the first `week_setup` decision, key by key, with the defaults for keys it lacks |
| WeekParse.SetupDefaults | test/longitudinal/auditor_longitudinal.py:75-77 | without a `week_setup` decision the values are `"unknown"`, `"normal"` and 2.5 |
| Snapshot.SessionPrescriptions | test/longitudinal/auditor_longitudinal.py:94-95 | a prescription is walked iff some session of the list holds it |
| Snapshot.BlockPrescriptions | test/longitudinal/auditor_longitudinal.py:93-95 | a prescription is walked iff some session of some block holds it |
| Rules.Mrv | test/longitudinal/auditor_longitudinal.py:166-175 | `MRV.get(muscle, 25)`: the listed limit for each of the eight listed muscles, 25 for any other; so every limit lies between 14 and 25 sets |
| Rules.SignalOf | test/longitudinal/auditor_longitudinal.py:258-267 | NEGATIVA iff fatigue ≥ 8 or adherence < 0.75; POSITIVA iff fatigue ≤ 5 and adherence ≥ 0.85 (the first branch never shadows it) |
| Rules.ResponseOf | test/longitudinal/auditor_longitudinal.py:269-278 | PROGRESIÓN iff Δ > 2, REDUCCIÓN iff Δ < −2, MANTIENE iff −2 ≤ Δ ≤ 2 |
| Rules.ResponseMonotone | test/longitudinal/auditor_longitudinal.py:269-278 | a larger volume change never gets a lower response |
| Rules.IsCoherent | test/longitudinal/auditor_longitudinal.py:289-296 | incoherent iff NEGATIVA meets PROGRESIÓN or POSITIVA meets REDUCCIÓN; AMBIGUA and MANTIENE are always coherent |
| Rules.HighFatigueCoherence | test/longitudinal/auditor_longitudinal.py:258-296 | after a fatigue of 8 or more, coherence holds iff the mean volume rises by at most 2 |
| Rules.SquaredDeviations | test/longitudinal/auditor_longitudinal.py:338 | the sum of squared deviations is never negative |
| Rules.Variance | test/longitudinal/auditor_longitudinal.py:333-338 | population variance is never negative and is 0 for fewer than two values |
| Rules.SumConstant | test/longitudinal/auditor_longitudinal.py:337 | the sum of `n` copies of `c` is `n·c` |
| Rules.DeviationsFromConstant | test/longitudinal/auditor_longitudinal.py:338 | a constant series has no deviation from its value |
| Rules.VarianceOfConstant | test/longitudinal/auditor_longitudinal.py:333-338 | a constant volume series has variance 0 |
| Rules.VarianceExample | test/longitudinal/auditor_longitudinal.py:333-338 | the series 10, 20, 10 has variance 200/9 |
| Rules.FailureAdjustment | test/longitudinal/auditor_longitudinal.py:382-394 | the failure-rate adjustment is one of −20, −10, 0, +20, and 0 when there are no prescriptions |
| Rules.FailureAdjustmentLadder | test/longitudinal/auditor_longitudinal.py:382-394 | with prescriptions, the adjustment is −20 above a 15 % rate, −10 above 10 %, +20 otherwise |
| Rules.FailureAdjustmentMonotone | test/longitudinal/auditor_longitudinal.py:382-394 | more failure prescriptions never earn a better adjustment |
| Rules.RateAbove | test/longitudinal/auditor_longitudinal.py:383-391 | the rate exceeds `b` % iff `100·failures > b·total` |
| Rules.Clamp | test/longitudinal/auditor_longitudinal.py:455-456 | the clamped score lies in [0, 100], equals the input inside it and the nearer bound outside it |
| Rules.VerdictOf | test/longitudinal/auditor_longitudinal.py:505-511 | CORRECTO Y SEGURO iff the score sum is ≥ 240 with no P0 violation; INCORRECTO iff the sum is < 180 |
| Rules.NarrativeOf | test/longitudinal/auditor_longitudinal.py:518-535 | the top narrative is chosen iff the score sum is ≥ 240, whatever the violations |
| Rules.NarrativeMatchesVerdict | test/longitudinal/auditor_longitudinal.py:505-535 | narrative and verdict agree without P0 violations; with one and an average ≥ 80 the narrative is the top one while the verdict is the middle one |
| Invariants.LookupOkMeaning | test/longitudinal/auditor_longitudinal.py:206-207 | every previous-week lookup stays in range iff no week number is `len(weeks) + 2` or more |
| Invariants.LookupFailsAt | test/longitudinal/auditor_longitudinal.py:206-207 | one out-of-range lookup makes the whole pass fail |
| Invariants.VolumeViolationsSnoc | test/longitudinal/auditor_longitudinal.py:174-183 | rule 1 on one more volume entry appends that entry's check |
| Invariants.ProgressionViolationsSnoc | test/longitudinal/auditor_longitudinal.py:210-221 | rule 4 on one more muscle appends that muscle's check |
| Invariants.VolumeRuleExact | test/longitudinal/auditor_longitudinal.py:174-183 | rule 1 yields exactly one violation for a muscle iff it is present with sets above its MRV; every one is P0 "Volumen > MRV" for that week |
| Invariants.ProgressionRuleExact | test/longitudinal/auditor_longitudinal.py:210-221 | rule 4 yields exactly one violation for a muscle iff it is present with volume above 1.1× the previous week's (0 if absent there); every one is P1 |
| Invariants.WeekVolumeCount | test/longitudinal/auditor_longitudinal.py:172-221 | among all of one week's violations, a muscle has exactly one "Volumen > MRV" iff its sets exceed its MRV (default 25) |
| Invariants.WeekProgressionCount | test/longitudinal/auditor_longitudinal.py:205-221 | among all of one week's violations, a muscle has exactly one "Progresión tras fatiga alta" iff the week at position `week_number − 2` reported fatigue ≥ 8 and the muscle grew by more than 10 % |
| Invariants.NoRuleNoCount | test/longitudinal/auditor_longitudinal.py:172-221 | violations of other rules never count for a rule |
| Invariants.DeloadFailureFlagged | test/longitudinal/auditor_longitudinal.py:185-193 | every deload week that permits failure has its P0 "Fallo en deload" violation in the list |
| Invariants.InPrefix | test/longitudinal/auditor_longitudinal.py:172-221 | a violation recorded while checking the first `j` weeks is still in the list after any later week |
| Invariants.WeekCountSplit | test/longitudinal/auditor_longitudinal.py:172-221 | a week's count of one rule's violations for a muscle is the sum of the counts in the parts the four rules append |
| Invariants.DeloadInWeek | test/longitudinal/auditor_longitudinal.py:185-193 | a deload week with failure carries the deload violation among its own |
| Invariants.VolumePrefixStep | test/longitudinal/auditor_longitudinal.py:174-183 | the rule-1 loop after `e + 1` entries has appended the check of entry `e` |
| Invariants.ProgressionPrefixStep | test/longitudinal/auditor_longitudinal.py:210-221 | the rule-4 loop after `e + 1` muscles has appended a P1 violation for muscle `e` iff its volume exceeds 1.1× the previous one |
| Analyses.TransitionsMeaning | test/longitudinal/auditor_longitudinal.py:242-287 | one transition per week with feedback that has a successor; each records its own coherence; after NEGATIVA it is coherent iff Δ ≤ 2 |
| Analyses.TransitionsOrder | test/longitudinal/auditor_longitudinal.py:242-287 | the transitions come in timeline order: the one out of a week `i − 1` with feedback sits at the position counting the earlier weeks with feedback, and pairs week `i − 1` with week `i` |
| Analyses.NoFeedbackNoTransitions | test/longitudinal/auditor_longitudinal.py:246-247 | without feedback no transition is evaluated |
| Analyses.VolumeSeries | test/longitudinal/auditor_longitudinal.py:305-306 | one volume per week, the muscle's volume or 0 |
| Analyses.SteadyTimeline | test/longitudinal/auditor_longitudinal.py:298-365 | a timeline with identical volumes every week has zero variance and no chaotic week, and, when its total volume is not negative, no reversible cycle |
| Analyses.SteadyVariance | test/longitudinal/auditor_longitudinal.py:304-309 | identical weekly volumes have variance 0 for every muscle |
| Analyses.SteadyNotReversible | test/longitudinal/auditor_longitudinal.py:358-361 | an unchanged non-negative total is never both reduced and recovered |
| Analyses.DerivedDistinct | test/longitudinal/auditor_longitudinal.py:93-99 | a normalised week's volume has no repeated muscle |
| Analyses.SessionsSizeCounts | test/longitudinal/auditor_longitudinal.py:379-380 | the prescription count of a block is the number of its prescriptions |
| Analyses.DeloadPenaltyCharged | test/longitudinal/auditor_longitudinal.py:185-193 | a deload week that permits failure is charged twice: once as a P0 violation (rule 2) and once by the −30 of lines 396-400 |
| Analyses.SingleBlockRateBounded | test/longitudinal/auditor_longitudinal.py:376-383 | when every plan has one block, the failure count never exceeds the prescription count |
| Analyses.TwoBlocksDoubleCount | test/longitudinal/auditor_longitudinal.py:376-386 | a two-block plan counts failure in both blocks but prescriptions in the first only: a rate of 200 % and −20 |
| Analyses.MissingFrom | test/longitudinal/auditor_longitudinal.py:424 | a required category is reported missing iff no decision logs it |
| Analyses.GapMeaning | test/longitudinal/auditor_longitudinal.py:422-428 | a week is penalised iff one of the three required categories is absent from its decisions |
| Analyses.TraceBonus | test/longitudinal/auditor_longitudinal.py:430-432 | the traceability bonus is 0 or 20 |
| Analyses.TraceBonusAverage | test/longitudinal/auditor_longitudinal.py:410-432 | the bonus is 20 iff the mean decisions per week is at least 30 |
| Analyses.MeanAtLeast | test/longitudinal/auditor_longitudinal.py:411 | the mean is at least `b` iff the total is at least `b·n` |
| Analyses.PenaltyCounts | test/longitudinal/auditor_longitudinal.py:446-452 | the penalty is 30 per P0 and 15 per P1, and every violation is one of the two |
| Analyses.NoP0 | test/longitudinal/auditor_longitudinal.py:506 | the P0 count is 0 iff no violation has severity P0 |
| Auditor.NormalizeAllDerived | test/longitudinal/auditor_longitudinal.py:59-63 | a load without error yields one week per document, each derived from its own snapshot |
| Auditor.NormalizeAllPrefixFails | test/longitudinal/auditor_longitudinal.py:59-63 | once a prefix fails, the whole load fails with the same error |
| Auditor.NormalizeStep | test/longitudinal/auditor_longitudinal.py:62-63 | parsing one more document appends its week |
| Auditor.NormalizeStepFails | test/longitudinal/auditor_longitudinal.py:62 | the first document that fails to parse decides the error |
| Auditor.ValidSnoc | test/longitudinal/auditor_longitudinal.py:63 | appending a parsed week keeps every week's volume keys distinct |
| Auditor.LongitudinalAuditor.constructor | test/longitudinal/auditor_longitudinal.py:45-53 | a new auditor has no weeks, no violations and all scores 0 |
| Auditor.LongitudinalAuditor.LoadWeeks | test/longitudinal/auditor_longitudinal.py:55-65 | succeeds iff every document parses, then appends their weeks in order; otherwise reports the first parse error, raised by some document `i`, with the weeks of documents before `i` already appended |
| Auditor.LongitudinalAuditor.AddViolation | test/longitudinal/auditor_longitudinal.py:539-547 | appends exactly one violation and keeps the list before it |
| Auditor.LongitudinalAuditor.CheckVolumeRule | test/longitudinal/auditor_longitudinal.py:173-183 | appends exactly rule 1's violations for the week, in entry order |
| Auditor.LongitudinalAuditor.CheckProgressionRule | test/longitudinal/auditor_longitudinal.py:208-221 | appends exactly rule 4's violations against the given previous week, in entry order |
| Auditor.LongitudinalAuditor.CheckWeek | test/longitudinal/auditor_longitudinal.py:172-221 | fails iff the week's previous-week lookup is out of range; otherwise appends that week's violations of all four rules |
| Auditor.LongitudinalAuditor.CheckInvariants | test/longitudinal/auditor_longitudinal.py:159-221 | on completion every previous-week lookup was in range and every week's violations are appended in timeline order; when it stops, some week's lookup is out of range (and by `Invariants.LookupFailsAt` the whole pass fails) |
| Auditor.LongitudinalAuditor.CheckWeekAt | test/longitudinal/auditor_longitudinal.py:172-221 | one pass of the week loop: completes iff week `i`'s lookup is in range, and then extends the list from the violations of the first `i` weeks to those of the first `i + 1` |
| Auditor.LongitudinalAuditor.CheckDirectionality | test/longitudinal/auditor_longitudinal.py:232-287 | returns the evaluated transitions and the three response counts, which together number the transitions |
| Auditor.LongitudinalAuditor.CheckStability | test/longitudinal/auditor_longitudinal.py:298-331 | the chest and back variances (non-negative), and the chaotic weeks listed in increasing order: exactly those where a watched muscle swung by more than 30 %, fewer than the weeks |
| Auditor.LongitudinalAuditor.ChaoticWeeks | test/longitudinal/auditor_longitudinal.py:314-326 | lists in increasing order exactly the positions where some watched muscle swung by more than 30 % of a non-zero previous volume |
| Auditor.LongitudinalAuditor.WeekSwings | test/longitudinal/auditor_longitudinal.py:317-326 | the inner loop with its `break` finds a swing iff some watched muscle swung |
| Auditor.LongitudinalAuditor.CheckReversibility | test/longitudinal/auditor_longitudinal.py:340-365 | lists in increasing order exactly the positions ending a high-fatigue, reduce-below-80 %, recover-above-105 % cycle |
| Auditor.LongitudinalAuditor.CheckFailureUsage | test/longitudinal/auditor_longitudinal.py:367-402 | completes iff every plan has a first block, then changes the scientific score by the ladder adjustment minus 30 per deload week with failure |
| Auditor.LongitudinalAuditor.FailureCounts | test/longitudinal/auditor_longitudinal.py:373-380 | completes iff every plan has a first block, then returns the failure count over all blocks and the prescription count over first blocks |
| Auditor.LongitudinalAuditor.ChargeDeloadFailures | test/longitudinal/auditor_longitudinal.py:396-400 | lowers the scientific score by 30 per deload week that permits failure |
| Auditor.LongitudinalAuditor.CountPrescriptions | test/longitudinal/auditor_longitudinal.py:379-380 | counts exactly the prescriptions of the given sessions |
| Auditor.LongitudinalAuditor.CheckTraceability | test/longitudinal/auditor_longitudinal.py:404-436 | fails iff there are no weeks (division by zero); otherwise returns the mean decisions per week and charges −5 per week with a gap, plus the bonus |
| Auditor.LongitudinalAuditor.CalculateScores | test/longitudinal/auditor_longitudinal.py:438-456 | each score becomes the clamp of itself + 50, minus the violation penalty for the scientific and clinical scores |
| Auditor.LongitudinalAuditor.Audit | test/longitudinal/auditor_longitudinal.py:553-560 | the steps after loading give exactly the outcome `AuditOf` defines |
| Auditor.LongitudinalAuditor.Score | test/longitudinal/auditor_longitudinal.py:554-560 | the steps after `check_invariants` give exactly the outcome `ScoreOf` defines |
| Auditor.LongitudinalAuditor.Adjust | test/longitudinal/auditor_longitudinal.py:554-558 | completes iff there are weeks and every plan has a first block; otherwise reports the step that raised; on completion the scientific and robustness scores have received their adjustments |
| Auditor.LongitudinalAuditor.Verdict | test/longitudinal/auditor_longitudinal.py:505-511 | the verdict on the current scores and violations, with the tier boundaries of `Rules.VerdictOf` |
| Auditor.ReportCeiling | test/longitudinal/auditor_longitudinal.py:382-511 | no completed run reaches CORRECTO Y SEGURO. It reaches USABLE only with no violation, the +20 failure band, no deload week with failure and the traceability bonus |
| Auditor.ScoreCeiling | test/longitudinal/auditor_longitudinal.py:438-511 | from fresh scores, the three clamped scores sum to less than 240, and to 180 or more only in the case above |
| Auditor.RunAudit | test/longitudinal/auditor_longitudinal.py:549-560 | `run_audit` on given documents: the first parse error, or the outcome of the audit over the loaded weeks |
| TextRepair.ReplaceAbsent | fix_utf8_encoding.py:45 | `str.replace` leaves a string alone when the pattern's first character is absent from it |
| TextRepair.ReplaceNotLonger | fix_utf8_encoding.py:45 | replacing a non-empty pattern by nothing longer never lengthens the string |
| TextRepair.ReplaceRemoves | fix_utf8_encoding.py:45 | replacing a one-character pattern by text without it removes it everywhere |
| TextRepair.ReplaceOther | fix_utf8_encoding.py:45 | a string shorter than the pattern, or different from a pattern of its length, is unchanged |
| TextRepair.ReplaceWhole | fix_utf8_encoding.py:45 | a string equal to the pattern becomes the replacement |
| TextRepair.ApplyTableAppend | fix_utf8_encoding.py:43-45 | applying a table in two parts is applying it whole |
| TextRepair.ApplyUnmarked | fix_utf8_encoding.py:43-45 | a string without the common first character of all patterns comes out unchanged |
| TextRepair.ApplyNotLonger | fix_utf8_encoding.py:43-45 | with non-empty patterns and replacements no longer than them, the result is never longer |
| TextRepair.PairTableMapsKeys | fix_utf8_encoding.py:28-45 | in a table of distinct two-character patterns with one-character replacements, each pattern alone becomes its own replacement |
| TextRepair.ShortUnchanged | fix_utf8_encoding.py:43-45 | a single character passes through a table of two-character patterns unchanged |
| TextRepair.DictFromLiteral | fix_utf8_encoding.py:28-41 | a dictionary display never holds more entries than it lists |
| TextRepair.Insert | fix_utf8_encoding.py:28-41 | storing a key grows the dictionary by one iff the key is new |
| TextRepair.InsertNew | fix_utf8_encoding.py:28-41 | a new key goes to the end |
| TextRepair.InsertExisting | fix_utf8_encoding.py:28-41 | a repeated key keeps its first position and takes the later value |
| TextRepair.DistinctLiteral | fix_utf8_encoding.py:28-41 | a display without repeated keys evaluates to its own pairs |
| TextRepair.DictStepNew | fix_utf8_encoding.py:28-41 | one more pair with a new key appends it |
| TextRepair.DictStepExisting | fix_utf8_encoding.py:28-41 | one more pair with a repeated key overwrites the value in place |
| TextRepair.LiteralFirstNine | fix_utf8_encoding.py:29-37 | after nine pairs the second bare `Ã` has overwritten the first: eight entries, `Ã`→`Í` seventh |
| TextRepair.LiteralFirstTen | fix_utf8_encoding.py:29-38 | after ten pairs the dictionary holds nine entries |
| TextRepair.LiteralCollapses | fix_utf8_encoding.py:28-41 | the twelve-pair display evaluates to an eleven-entry table with `Ã`→`Í` seventh |
| TextRepair.DeadAfterBareKey | fix_utf8_encoding.py:35-45 | as evaluated, the bare `Ã` entry removes every `Ã`, so the four entries after it never apply |
| TextRepair.AsWrittenBreaksE | fix_utf8_encoding.py:35-45 | as evaluated, the mis-encoded `É` (`Ã‰`) comes out as `Í‰` |
| TextRepair.ApplySkipsE | fix_utf8_encoding.py:29-34 | the six two-character entries before the bare key leave `Ã‰` unchanged |
| TextRepair.AsWrittenKeepsUnmarked | fix_utf8_encoding.py:28-45 | a string without `Ã` is returned unchanged |
| TextRepair.AsWrittenNotLonger | fix_utf8_encoding.py:28-45 | the repair never lengthens a string |
| TextRepair.CorrectedMapsKeys | fix_utf8_encoding.py:28-45 | with the keys corrected to the real Windows-1252 mis-encodings, each of the twelve becomes its intended letter |
| TextRepair.FixCorruptedText | fix_utf8_encoding.py:13-47 | a non-string is returned as given; a string comes back with the table applied entry by entry in order |
| ExerciseNames.FixTreeOnlyEs | fix_utf8_encoding.py:50-62 | the walk changes nothing but strings stored directly under `'es'`: same shape, same keys in the same order, every other scalar equal |
| ExerciseNames.FixEntriesOnlyEs | fix_utf8_encoding.py:52-57 | the dictionary loop changes only the values of `'es'` entries holding strings |
| ExerciseNames.FixItemsOnlyEs | fix_utf8_encoding.py:58-60 | the list loop keeps the length and changes items only under `'es'` |
| ExerciseNames.FixTreeUnmarked | fix_utf8_encoding.py:50-62 | a document whose `'es'` strings hold no `Ã` is left unchanged by a table of `Ã`-patterns |
| ExerciseNames.FixEntriesUnmarked | fix_utf8_encoding.py:52-57 | the same for the entries of one dictionary |
| ExerciseNames.FixItemsUnmarked | fix_utf8_encoding.py:58-60 | the same for the items of one list |
| ExerciseNames.FixEntriesAt | fix_utf8_encoding.py:53-57 | entry `i` of the walked dictionary keeps its key; its value is the repaired string under `'es'` and the walked value otherwise |
| ExerciseNames.FixItemsAt | fix_utf8_encoding.py:59-60 | item `i` of the walked list is the walk of item `i` |
| ExerciseNames.FixExerciseNames | fix_utf8_encoding.py:50-62 | returns the value it was given; a container then holds what the value-level walk makes of its old contents |
| ExerciseNames.FixContainer | fix_utf8_encoding.py:52-60 | after the loop over a dictionary or list, the container and every nested one hold the walk of their old contents |
| ExerciseNames.WalkedModel | fix_utf8_encoding.py:52-60 | once each entry or item holds its walked value, the container holds the walk of its old contents |
| ExerciseNames.FixAt | fix_utf8_encoding.py:54-60 | one loop step changes entry or item `i` alone, to its repaired or walked value |
| ExerciseNames.FixStringAt | fix_utf8_encoding.py:54-55 | `data[key] = fix_corrupted_text(value)` replaces that entry alone by its repair |
| ExerciseNames.FixChildAt | fix_utf8_encoding.py:56-60 | the recursive call repairs the nested container in place and leaves every other entry alone |
| ExerciseNames.Container.ItemsModel | fix_utf8_encoding.py:58-60 | the JSON items of a list container, one per value |
| ExerciseNames.Container.EntriesModel | fix_utf8_encoding.py:52-57 | the JSON entries of a dictionary container, one per key and value, in order |

## Left out

- Reading files is not modelled: `glob` over `week_*.json`, `open` and
  `json.load` (auditor_longitudinal.py:57-61). Documents are passed in as a
  sequence in sorted file order.
- All console output is left out: `reconstruct_timeline`, the tables and
  text of `generate_report`, the per-step `print`s and the free-text
  `details` of violations. What a step only prints is returned instead
  (transitions, variances, chaotic weeks, cycles, mean decisions).
- `main` of fix_utf8_encoding.py is not modelled: the file reading with its
  encoding fallbacks, the before/after counts, the backup and the write-back.
- Floating-point arithmetic is modelled as exact reals: means, variances,
  the failure rate, `1.1` and `0.3`. The comparisons `x > p·1.1` and
  `|Δ|/p > 0.3` on integer set counts could round differently only for
  counts far beyond any plan. The mean-volume change of the directionality
  check is the exception, in the next item.
- Analyses.TransitionOf: the mean change Δ is the exact difference of the
  two mean volumes, where Python subtracts two rounded float means. At the
  ±2 boundary the two disagree on ordinary inputs: with 22 and then 28 sets
  over three muscles, IEEE double arithmetic gives 28/3 − 22/3 =
  2.000000000000001, which is PROGRESIÓN (incoherent after NEGATIVA). The
  model gets exactly 2, which is MANTIENE (coherent). Only the transitions and
  counts of `Auditor.LongitudinalAuditor.CheckDirectionality` are affected,
  and the source only prints them; no score reads them.
- Set counts (`sets`) are integers. A snapshot with a fractional `sets`
  value is not modelled.
- Auditor.LongitudinalAuditor.CheckInvariants: when an `IndexError` ends the
  pass, its contract does not state the partial violation list. The
  exception ends `run_audit`, so nothing reads that list.
- `rir_target`, `allow_failure_exercises` and `intensification_count` are
  computed but never read by any check. They are modelled in `WeekData` and
  `ParseWeek`, and play no part in the scores.
- `raw_data` is represented only by its `plan`, the one part of it a check
  reads (auditor_longitudinal.py:379).
- A feedback value is a dictionary whose truthiness is "non-empty"
  (`Snapshot.Feedback.Truthy`). Only `fatigue` and `adherence` are read; a
  non-numeric value for them is not modelled.
- Names default to `'unknown'` when `muscleGroup` or `exercise` is absent. A
  present `muscleGroup` that is not a dictionary is not modelled.
- JSON numbers in `ExerciseNames` are integers, because the walk never looks
  at numbers.
- `str.replace` with an empty pattern is modelled (`TextRepair.InterleaveEmpty`),
  although no table here has one.

## Findings

| source | as written | input that shows it | evidently intended | confidence | as-written member | corrected member |
|---|---|---|---|---|---|---|
| fix_utf8_encoding.py:35-37 | the keys meant for `Á` and `Í` are both the bare `Ã`. The later value wins at the earlier position, so the table has 11 entries with `Ã`→`Í` seventh. That entry removes every `Ã`, and the four entries after it never apply. | `"Ã‰"` (mis-encoded `É`) becomes `"Í‰"` | twelve entries whose keys are the Windows-1252 readings of each letter's UTF-8 bytes: `Ã`+U+0081 for `Á` and `Ã`+U+008D for `Í`. The same reading gives `Ã`+U+201C for `Ó` and `Ã`+U+2018 for `Ñ`, where lines 38 and 40 have straight quotes. Each mis-encoding then becomes its own letter | not executed | TextRepair.AsWrittenBreaksE | TextRepair.CorrectedMapsKeys |
