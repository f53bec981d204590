/** The four invariant rules of `check_invariants` as functions of the timeline:
    which violations each week produces, in the order the auditor appends them
    (auditor_longitudinal.py:159-221, 539-547). */
module Invariants {
  import opened Wrappers
  import opened Snapshot
  import opened WeekParse
  import opened Rules

  datatype Severity = P0 | P1

  datatype Rule = VolumeOverMrv | FailureInDeload | FailureUnderHighFatigue | ProgressionAfterHighFatigue

  /** An entry of the violation list; the free-text `details` are not modelled. */
  datatype Violation = Violation(week: int, muscle: string, rule: Rule, severity: Severity)

  const NotApplicable := "N/A"

  /** `prev.feedback and prev.feedback.get('fatigue', 5.0) >= 8.0` */
  predicate HighFatigue(feedback: Option<Feedback>) {
    feedback.Some? && feedback.value.Truthy() && feedback.value.Fatigue() >= 8.0
  }

  /** Rule 1 for one entry of `volume_by_muscle`. */
  function VolumeCheck(week: int, entry: (string, int)): seq<Violation> {
    if entry.1 > Mrv(entry.0) then [Violation(week, entry.0, VolumeOverMrv, P0)] else []
  }

  /** Rule 1 over a week's volume entries, in order. */
  function VolumeViolations(week: int, v: Volume): seq<Violation> {
    if v == [] then [] else VolumeCheck(week, v[0]) + VolumeViolations(week, v[1..])
  }

  /** Rule 4 for one muscle of the current week: more than 10 % above the
      previous week's volume of that muscle (0 when it had none). */
  function ProgressionCheck(week: int, entry: (string, int), prev: Volume): seq<Violation> {
    if entry.1 as real > Get(prev, entry.0, 0) as real * 1.1
    then [Violation(week, entry.0, ProgressionAfterHighFatigue, P1)]
    else []
  }

  /** Rule 4 over the muscles of the current week, in order. */
  function ProgressionViolations(week: int, curr: Volume, prev: Volume): seq<Violation> {
    if curr == [] then [] else ProgressionCheck(week, curr[0], prev) + ProgressionViolations(week, curr[1..], prev)
  }

  /** `self.weeks[week.week_number - 2]` raises `IndexError` for this week. */
  predicate LookupFails(weeks: seq<WeekData>, w: WeekData) {
    w.weekNumber > 1 && w.weekNumber - 2 >= |weeks|
  }

  /** The previous-week lookups of the first `k` weeks stay inside the timeline. */
  predicate LookupOkUpTo(weeks: seq<WeekData>, k: nat)
    requires k <= |weeks|
  {
    k == 0 || (LookupOkUpTo(weeks, k - 1) && !LookupFails(weeks, weeks[k - 1]))
  }

  /** Every week's previous-week lookup stays inside the timeline. */
  predicate LookupOk(weeks: seq<WeekData>) {
    LookupOkUpTo(weeks, |weeks|)
  }

  /** The lookups succeed exactly when no week number exceeds the number of
      weeks by two or more. */
  lemma {:induction false} LookupOkMeaning(weeks: seq<WeekData>, k: nat)
    requires k <= |weeks|
    ensures LookupOkUpTo(weeks, k) <==> forall i :: 0 <= i < k ==> weeks[i].weekNumber < |weeks| + 2
  {
    if k > 0 {
      LookupOkMeaning(weeks, k - 1);
    }
  }

  /** One failing lookup makes the whole prefix fail. */
  lemma {:induction false} LookupFailsAt(weeks: seq<WeekData>, i: nat, k: nat)
    requires i < k <= |weeks| && LookupFails(weeks, weeks[i])
    ensures !LookupOkUpTo(weeks, k)
  {
    if i < k - 1 {
      LookupFailsAt(weeks, i, k - 1);
    }
  }

  /** Rules 2 and 3. */
  function DeloadCheck(w: WeekData): seq<Violation> {
    if w.phase == "deload" && w.allowFailureCount > 0
    then [Violation(w.weekNumber, NotApplicable, FailureInDeload, P0)]
    else []
  }

  function HighExpectationCheck(w: WeekData): seq<Violation> {
    if w.fatigueExpectation == "high" && w.allowFailureCount > 0
    then [Violation(w.weekNumber, NotApplicable, FailureUnderHighFatigue, P0)]
    else []
  }

  /** Rule 4 for a week: the previous week is the one at position
      `week_number - 2`, not the one before it in the timeline. */
  function ProgressionRule(weeks: seq<WeekData>, w: WeekData): seq<Violation> {
    if w.weekNumber > 1 && w.weekNumber - 2 < |weeks| && HighFatigue(weeks[w.weekNumber - 2].feedback)
    then ProgressionViolations(w.weekNumber, w.volumeByMuscle, weeks[w.weekNumber - 2].volumeByMuscle)
    else []
  }

  /** All violations one week adds, in the order of the four rules. */
  function WeekViolations(weeks: seq<WeekData>, w: WeekData): seq<Violation> {
    VolumeViolations(w.weekNumber, w.volumeByMuscle) + DeloadCheck(w) + HighExpectationCheck(w) + ProgressionRule(weeks, w)
  }

  /** The violations of the first `k` weeks of the timeline. */
  function InvariantViolations(weeks: seq<WeekData>, k: nat): seq<Violation>
    requires k <= |weeks|
  {
    if k == 0 then [] else InvariantViolations(weeks, k - 1) + WeekViolations(weeks, weeks[k - 1])
  }

  /** Checking week `i` after the first `i` weeks yields the violations of the
      first `i + 1` weeks. */
  lemma ViolationsStep(before: seq<Violation>, weeks: seq<WeekData>, i: nat)
    requires i < |weeks|
    ensures (before + InvariantViolations(weeks, i)) + WeekViolations(weeks, weeks[i]) == before + InvariantViolations(weeks, i + 1)
  {
    assert InvariantViolations(weeks, i + 1) == InvariantViolations(weeks, i) + WeekViolations(weeks, weeks[i]);
  }

  /** How many violations of `rule` name `muscle`. */
  function CountFor(vs: seq<Violation>, muscle: string, rule: Rule): nat {
    if vs == [] then 0
    else (if vs[0].muscle == muscle && vs[0].rule == rule then 1 else 0) + CountFor(vs[1..], muscle, rule)
  }

  lemma CountForSingle(x: Violation, muscle: string, rule: Rule)
    ensures CountFor([x], muscle, rule) == if x.muscle == muscle && x.rule == rule then 1 else 0
  {
    assert [x][1..] == [];
  }

  lemma {:induction false} CountForAppend(a: seq<Violation>, b: seq<Violation>, muscle: string, rule: Rule)
    ensures CountFor(a + b, muscle, rule) == CountFor(a, muscle, rule) + CountFor(b, muscle, rule)
  {
    if a == [] {
      assert a + b == b;
    } else {
      assert (a + b)[1..] == a[1..] + b;
      CountForAppend(a[1..], b, muscle, rule);
    }
  }

  lemma {:induction false} VolumeViolationsSnoc(week: int, v: Volume, e: (string, int))
    ensures VolumeViolations(week, v + [e]) == VolumeViolations(week, v) + VolumeCheck(week, e)
  {
    if v == [] {
      assert VolumeViolations(week, [e]) == VolumeCheck(week, e) + VolumeViolations(week, []);
    } else {
      assert (v + [e])[1..] == v[1..] + [e];
      VolumeViolationsSnoc(week, v[1..], e);
    }
  }

  lemma {:induction false} ProgressionViolationsSnoc(week: int, curr: Volume, e: (string, int), prev: Volume)
    ensures ProgressionViolations(week, curr + [e], prev) == ProgressionViolations(week, curr, prev) + ProgressionCheck(week, e, prev)
  {
    if curr == [] {
      assert ProgressionViolations(week, [e], prev) == ProgressionCheck(week, e, prev) + ProgressionViolations(week, [], prev);
    } else {
      assert (curr + [e])[1..] == curr[1..] + [e];
      ProgressionViolationsSnoc(week, curr[1..], e, prev);
    }
  }

  /** Rule 1 gives exactly one P0 violation for a muscle whose sets exceed its
      MRV, and none for any other muscle. */
  lemma {:induction false} VolumeRuleExact(week: int, v: Volume, m: string)
    requires DistinctKeys(v)
    ensures CountFor(VolumeViolations(week, v), m, VolumeOverMrv) == if m in Keys(v) && Get(v, m, 0) > Mrv(m) then 1 else 0
    ensures forall x :: x in VolumeViolations(week, v) ==> x.severity == P0 && x.rule == VolumeOverMrv && x.week == week
  {
    if v != [] {
      VolumeRuleExact(week, v[1..], m);
      CountForAppend(VolumeCheck(week, v[0]), VolumeViolations(week, v[1..]), m, VolumeOverMrv);
      var head := CountFor(VolumeCheck(week, v[0]), m, VolumeOverMrv);
      if v[0].0 == m {
        assert m !in Keys(v[1..]) && m in Keys(v);
        assert Get(v, m, 0) == v[0].1;
        if v[0].1 > Mrv(m) {
          CountForSingle(Violation(week, m, VolumeOverMrv, P0), m, VolumeOverMrv);
        }
      } else {
        assert head == 0;
        assert (m in Keys(v)) == (m in Keys(v[1..]));
        assert Get(v, m, 0) == Get(v[1..], m, 0);
      }
    }
  }

  /** Rule 4 gives exactly one P1 violation for a muscle of the current week
      whose volume is more than 10 % above the previous week's (0 if absent
      there), and none for any other muscle. */
  lemma {:induction false} ProgressionRuleExact(week: int, curr: Volume, prev: Volume, m: string)
    requires DistinctKeys(curr)
    ensures CountFor(ProgressionViolations(week, curr, prev), m, ProgressionAfterHighFatigue) ==
      if m in Keys(curr) && Get(curr, m, 0) as real > Get(prev, m, 0) as real * 1.1 then 1 else 0
    ensures forall x :: x in ProgressionViolations(week, curr, prev) ==> x.severity == P1 && x.rule == ProgressionAfterHighFatigue
  {
    if curr != [] {
      ProgressionRuleExact(week, curr[1..], prev, m);
      CountForAppend(ProgressionCheck(week, curr[0], prev), ProgressionViolations(week, curr[1..], prev), m, ProgressionAfterHighFatigue);
    }
  }

  /** A week's count for one muscle and rule is the sum over the four rule lists. */
  lemma WeekCountSplit(weeks: seq<WeekData>, w: WeekData, m: string, rule: Rule)
    ensures CountFor(WeekViolations(weeks, w), m, rule) ==
      CountFor(VolumeViolations(w.weekNumber, w.volumeByMuscle), m, rule) + CountFor(DeloadCheck(w), m, rule)
      + CountFor(HighExpectationCheck(w), m, rule) + CountFor(ProgressionRule(weeks, w), m, rule)
  {
    var a := VolumeViolations(w.weekNumber, w.volumeByMuscle);
    var b := DeloadCheck(w);
    var c := HighExpectationCheck(w);
    CountForAppend(a, b, m, rule);
    CountForAppend(a + b, c, m, rule);
    CountForAppend(a + b + c, ProgressionRule(weeks, w), m, rule);
  }

  /** For one week and muscle: exactly one P0 "Volumen > MRV" iff the muscle
      is present and its sets exceed the MRV (default 25). */
  lemma WeekVolumeCount(weeks: seq<WeekData>, w: WeekData, m: string)
    requires DistinctKeys(w.volumeByMuscle)
    ensures CountFor(WeekViolations(weeks, w), m, VolumeOverMrv) ==
      if m in Keys(w.volumeByMuscle) && Get(w.volumeByMuscle, m, 0) > Mrv(m) then 1 else 0
  {
    var n := w.weekNumber;
    WeekCountSplit(weeks, w, m, VolumeOverMrv);
    VolumeRuleExact(n, w.volumeByMuscle, m);
    if n > 1 && n - 2 < |weeks| && HighFatigue(weeks[n - 2].feedback) {
      ProgressionRuleExact(n, w.volumeByMuscle, weeks[n - 2].volumeByMuscle, m);
    }
    NoRuleNoCount(ProgressionRule(weeks, w), m, VolumeOverMrv);
  }

  /** For one week and muscle: exactly one P1 "Progresión tras fatiga alta"
      iff the week at position `week_number - 2` reported fatigue of 8 or more
      and the muscle, present this week, grew by more than 10 %. */
  lemma WeekProgressionCount(weeks: seq<WeekData>, w: WeekData, m: string)
    requires DistinctKeys(w.volumeByMuscle)
    ensures CountFor(WeekViolations(weeks, w), m, ProgressionAfterHighFatigue) ==
      if w.weekNumber > 1 && w.weekNumber - 2 < |weeks| && HighFatigue(weeks[w.weekNumber - 2].feedback)
         && m in Keys(w.volumeByMuscle)
         && Get(w.volumeByMuscle, m, 0) as real > Get(weeks[w.weekNumber - 2].volumeByMuscle, m, 0) as real * 1.1
      then 1 else 0
  {
    var n := w.weekNumber;
    WeekCountSplit(weeks, w, m, ProgressionAfterHighFatigue);
    VolumeRuleExact(n, w.volumeByMuscle, m);
    NoRuleNoCount(VolumeViolations(n, w.volumeByMuscle), m, ProgressionAfterHighFatigue);
    if n > 1 && n - 2 < |weeks| && HighFatigue(weeks[n - 2].feedback) {
      ProgressionRuleExact(n, w.volumeByMuscle, weeks[n - 2].volumeByMuscle, m);
    }
  }

  lemma {:induction false} NoRuleNoCount(vs: seq<Violation>, m: string, rule: Rule)
    requires forall x :: x in vs ==> x.rule != rule
    ensures CountFor(vs, m, rule) == 0
  {
    if vs != [] {
      assert vs[0] in vs;
      assert forall x :: x in vs[1..] ==> x in vs;
      NoRuleNoCount(vs[1..], m, rule);
    }
  }

  /** A deload week that permits failure always gets its P0 "Fallo en deload"
      violation in the full list. */
  lemma DeloadFailureFlagged(weeks: seq<WeekData>, i: nat, k: nat)
    requires i < k <= |weeks|
    requires weeks[i].phase == "deload" && weeks[i].allowFailureCount > 0
    ensures Violation(weeks[i].weekNumber, NotApplicable, FailureInDeload, P0) in InvariantViolations(weeks, k)
  {
    var x := Violation(weeks[i].weekNumber, NotApplicable, FailureInDeload, P0);
    DeloadInWeek(weeks, weeks[i]);
    InStep(weeks, i + 1, x);
    InPrefix(weeks, i + 1, k, x);
  }

  /** The violations of the first `j` weeks stay in the list as later weeks
      are checked. */
  lemma {:induction false} InPrefix(weeks: seq<WeekData>, j: nat, k: nat, x: Violation)
    requires j <= k <= |weeks| && x in InvariantViolations(weeks, j)
    ensures x in InvariantViolations(weeks, k)
  {
    if j < k {
      InPrefix(weeks, j, k - 1, x);
      InStep(weeks, k, x);
    }
  }

  /** A violation of the first `k - 1` weeks or of week `k - 1` is a
      violation of the first `k` weeks. */
  lemma InStep(weeks: seq<WeekData>, k: nat, x: Violation)
    requires 0 < k <= |weeks|
    requires x in InvariantViolations(weeks, k - 1) || x in WeekViolations(weeks, weeks[k - 1])
    ensures x in InvariantViolations(weeks, k)
  {
    var vs, last := InvariantViolations(weeks, k - 1), WeekViolations(weeks, weeks[k - 1]);
    assert InvariantViolations(weeks, k) == vs + last;
  }

  lemma DeloadInWeek(weeks: seq<WeekData>, w: WeekData)
    requires w.phase == "deload" && w.allowFailureCount > 0
    ensures Violation(w.weekNumber, NotApplicable, FailureInDeload, P0) in WeekViolations(weeks, w)
  {
    var front := VolumeViolations(w.weekNumber, w.volumeByMuscle) + DeloadCheck(w);
    assert front[|front| - 1] == Violation(w.weekNumber, NotApplicable, FailureInDeload, P0);
    assert WeekViolations(weeks, w) == front + (HighExpectationCheck(w) + ProgressionRule(weeks, w));
  }

  /** One more volume entry checked, on top of the violations `before`. */
  lemma VolumePrefixStep(before: seq<Violation>, week: int, v: Volume, e: nat)
    requires e < |v|
    ensures before + VolumeViolations(week, v[..e + 1]) == (before + VolumeViolations(week, v[..e])) + VolumeCheck(week, v[e])
  {
    assert v[..e + 1] == v[..e] + [v[e]];
    VolumeViolationsSnoc(week, v[..e], v[e]);
  }

  /** One more muscle checked against the previous week, on top of the
      violations `before`; the current volume read back is the entry's own. */
  lemma ProgressionPrefixStep(before: seq<Violation>, week: int, v: Volume, e: nat, prev: Volume, added: seq<Violation>)
    requires e < |v| && DistinctKeys(v)
    requires added ==
      if Get(v, v[e].0, 0) as real > Get(prev, v[e].0, 0) as real * 1.1
      then [Violation(week, v[e].0, ProgressionAfterHighFatigue, P1)] else []
    ensures before + ProgressionViolations(week, v[..e + 1], prev) ==
      (before + ProgressionViolations(week, v[..e], prev)) + added
  {
    assert v[..e + 1] == v[..e] + [v[e]];
    GetEntry(v, v[e].0, 0, e);
    ProgressionViolationsSnoc(week, v[..e], v[e], prev);
  }
}
