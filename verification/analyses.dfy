/** What the directionality, stability, reversibility, failure-usage,
    traceability and scoring steps compute, as functions of the timeline
    (auditor_longitudinal.py:232-456). */
module Analyses {
  import opened Wrappers
  import opened Snapshot
  import opened WeekParse
  import opened Rules
  import opened Invariants

  // ---------------------------------------------------------------- directionality

  /** One evaluated week transition of `check_directionality`. */
  datatype Transition = Transition(
    fromWeek: int, toWeek: int, signal: Signal, response: Response, delta: real, coherent: bool)

  predicate HasFeedback(w: WeekData) {
    w.feedback.Some? && w.feedback.value.Truthy()
  }

  function TransitionOf(prev: WeekData, curr: WeekData): Transition
    requires HasFeedback(prev)
  {
    var fb := prev.feedback.value;
    var delta := MeanVolume(curr.volumeByMuscle) - MeanVolume(prev.volumeByMuscle);
    var s := SignalOf(fb.Fatigue(), fb.Adherence());
    var r := ResponseOf(delta);
    Transition(prev.weekNumber, curr.weekNumber, s, r, delta, IsCoherent(s, r))
  }

  /** The transitions into weeks 1..k-1 whose previous week has feedback. */
  function Transitions(weeks: seq<WeekData>, k: nat): seq<Transition>
    requires k <= |weeks|
  {
    if k <= 1 then []
    else
      Transitions(weeks, k - 1) +
      (if HasFeedback(weeks[k - 2]) then [TransitionOf(weeks[k - 2], weeks[k - 1])] else [])
  }

  function CountResponse(ts: seq<Transition>, r: Response): nat {
    if ts == [] then 0 else CountResponse(ts[..|ts| - 1], r) + (if ts[|ts| - 1].response == r then 1 else 0)
  }

  /** Number of weeks among the first `k` that carry feedback. */
  function FeedbackWeeks(weeks: seq<WeekData>, k: nat): nat
    requires k <= |weeks|
  {
    if k == 0 then 0 else FeedbackWeeks(weeks, k - 1) + (if HasFeedback(weeks[k - 1]) then 1 else 0)
  }

  /** One transition per week with feedback that has a successor; each records
      the coherence of its own signal and response, and one that follows a
      fatigue of 8 or more is coherent exactly when the mean volume does not
      rise by more than 2 sets. */
  lemma {:induction false} TransitionsMeaning(weeks: seq<WeekData>, k: nat)
    requires 1 <= k <= |weeks|
    ensures |Transitions(weeks, k)| == FeedbackWeeks(weeks, k - 1)
    ensures forall t :: t in Transitions(weeks, k) ==> t.coherent == IsCoherent(t.signal, t.response)
    ensures forall t :: t in Transitions(weeks, k) && t.signal == Negativa ==> (t.coherent <==> t.delta <= 2.0)
  {
    if k > 1 {
      TransitionsMeaning(weeks, k - 1);
    }
  }

  /** The transitions come in timeline order: the one out of week `i - 1`
      sits at the position counting the weeks with feedback before it, and
      is that week's transition into week `i`. */
  lemma {:induction false} TransitionsOrder(weeks: seq<WeekData>, k: nat, i: nat)
    requires k <= |weeks| && 1 <= i < k && HasFeedback(weeks[i - 1])
    ensures FeedbackWeeks(weeks, i - 1) < |Transitions(weeks, k)|
    ensures Transitions(weeks, k)[FeedbackWeeks(weeks, i - 1)] == TransitionOf(weeks[i - 1], weeks[i])
  {
    TransitionsMeaning(weeks, k - 1);
    if i < k - 1 {
      TransitionsOrder(weeks, k - 1, i);
    }
  }

  /** Without feedback in any week no transition is evaluated. */
  lemma {:induction false} NoFeedbackNoTransitions(weeks: seq<WeekData>, k: nat)
    requires k <= |weeks|
    requires forall i :: 0 <= i < |weeks| ==> !HasFeedback(weeks[i])
    ensures Transitions(weeks, k) == []
  {
    if k > 1 {
      NoFeedbackNoTransitions(weeks, k - 1);
    }
  }

  // ---------------------------------------------------------------- stability

  /** The muscles whose week-to-week swings `check_stability` watches. */
  const Watched: seq<string> := ["chest", "back", "quads"]

  function Abs(x: int): nat { if x < 0 then -x else x }

  /** A change of more than 30 % of a non-zero previous volume. */
  predicate Swing(prev: int, curr: int) {
    prev > 0 && Abs(curr - prev) as real / prev as real > 0.3
  }

  predicate SwingOn(prev: WeekData, curr: WeekData, m: string) {
    Swing(Get(prev.volumeByMuscle, m, 0), Get(curr.volumeByMuscle, m, 0))
  }

  /** A week counted as chaotic: some watched muscle swung. */
  predicate IsChaotic(prev: WeekData, curr: WeekData) {
    exists j :: 0 <= j < |Watched| && SwingOn(prev, curr, Watched[j])
  }

  /** Position `i` of the timeline is a chaotic week. */
  predicate ChaoticAt(weeks: seq<WeekData>, i: int) {
    1 <= i < |weeks| && IsChaotic(weeks[i - 1], weeks[i])
  }

  /** `[w.volume_by_muscle.get(m, 0) for w in self.weeks]` */
  function VolumeSeries(weeks: seq<WeekData>, m: string): (xs: seq<real>)
    ensures |xs| == |weeks|
    ensures forall i :: 0 <= i < |weeks| ==> xs[i] == Get(weeks[i].volumeByMuscle, m, 0) as real
  {
    if weeks == [] then []
    else VolumeSeries(weeks[..|weeks| - 1], m) + [Get(weeks[|weeks| - 1].volumeByMuscle, m, 0) as real]
  }

  // ---------------------------------------------------------------- reversibility

  /** The reduce-then-recover pattern of `check_reversibility` on weeks i-2, i-1, i. */
  predicate ReversibleAt(weeks: seq<WeekData>, i: nat)
    requires 2 <= i < |weeks|
  {
    var before := Total(weeks[i - 2].volumeByMuscle) as real;
    var deload := Total(weeks[i - 1].volumeByMuscle) as real;
    var after := Total(weeks[i].volumeByMuscle) as real;
    HighFatigue(weeks[i - 2].feedback) && deload < before * 0.8 && after > deload * 1.05
  }

  /** A timeline whose weeks all carry the same volumes has zero variance for
      every muscle, no chaotic week and, when its total is not negative, no
      reversible cycle. */
  lemma SteadyTimeline(weeks: seq<WeekData>, m: string)
    requires forall i :: 0 <= i < |weeks| ==> weeks[i].volumeByMuscle == weeks[0].volumeByMuscle
    ensures Variance(VolumeSeries(weeks, m)) == 0.0
    ensures forall i :: 1 <= i < |weeks| ==> !IsChaotic(weeks[i - 1], weeks[i])
    ensures weeks != [] && Total(weeks[0].volumeByMuscle) >= 0 ==>
      forall i :: 2 <= i < |weeks| ==> !ReversibleAt(weeks, i)
  {
    if weeks != [] {
      SteadyVariance(weeks, m);
    }
    forall i | 1 <= i < |weeks|
      ensures !IsChaotic(weeks[i - 1], weeks[i])
    {
      assert forall j :: 0 <= j < |Watched| ==> !SwingOn(weeks[i - 1], weeks[i], Watched[j]);
    }
    if weeks != [] && Total(weeks[0].volumeByMuscle) >= 0 {
      forall i | 2 <= i < |weeks|
        ensures !ReversibleAt(weeks, i)
      {
        SteadyNotReversible(Total(weeks[0].volumeByMuscle) as real);
      }
    }
  }

  lemma SteadyVariance(weeks: seq<WeekData>, m: string)
    requires weeks != []
    requires forall i :: 0 <= i < |weeks| ==> weeks[i].volumeByMuscle == weeks[0].volumeByMuscle
    ensures Variance(VolumeSeries(weeks, m)) == 0.0
  {
    VarianceOfConstant(VolumeSeries(weeks, m), Get(weeks[0].volumeByMuscle, m, 0) as real);
  }

  lemma SteadyNotReversible(t: real)
    requires t >= 0.0
    ensures !(t < t * 0.8 && t > t * 1.05)
  {
  }

  // ---------------------------------------------------------------- failure usage

  /** `plan.get('weeks', [{}])[0]` raises `IndexError` exactly on an empty list. */
  predicate FirstBlockPresent(w: WeekData) {
    w.plan.weeks != Some([])
  }

  /** `sum(len(session.get('prescriptions', [])) for session in sessions)` */
  function SessionsSize(ss: seq<Session>): nat {
    if ss == [] then 0 else SessionsSize(ss[..|ss| - 1]) + |ss[|ss| - 1].prescriptions|
  }

  /** Prescriptions of the first block of `plan.weeks` (none when the key is absent). */
  function FirstBlockSize(plan: Plan): nat
    requires plan.weeks != Some([])
  {
    match plan.weeks
    case None => 0
    case Some(bs) => SessionsSize(bs[0].sessions)
  }

  /** The denominator of the failure rate: first blocks only. */
  function FirstBlockTotal(weeks: seq<WeekData>): nat
    requires forall i :: 0 <= i < |weeks| ==> FirstBlockPresent(weeks[i])
  {
    if weeks == [] then 0
    else
      var last := weeks[|weeks| - 1];
      assert FirstBlockPresent(last);
      FirstBlockTotal(weeks[..|weeks| - 1]) + FirstBlockSize(last.plan)
  }

  /** The numerator of the failure rate: `allow_failure_count`, which covers every block. */
  function FailureTotal(weeks: seq<WeekData>): nat {
    if weeks == [] then 0 else FailureTotal(weeks[..|weeks| - 1]) + weeks[|weeks| - 1].allowFailureCount
  }

  predicate DeloadWithFailure(w: WeekData) {
    w.phase == "deload" && w.allowFailureCount > 0
  }

  /** Weeks charged the separate −30 deload penalty. */
  function DeloadFailureWeeks(weeks: seq<WeekData>): nat {
    if weeks == [] then 0
    else DeloadFailureWeeks(weeks[..|weeks| - 1]) + (if DeloadWithFailure(weeks[|weeks| - 1]) then 1 else 0)
  }

  /** The counters of a normalised week are the ones its own plan determines. */
  predicate Derived(w: WeekData) {
    var ps := AllPrescriptions(w.plan);
    && w.volumeByMuscle == VolumeOf(ps)
    && w.allowFailureExercises == FailureExercises(ps)
    && w.allowFailureCount == FailureCount(ps)
    && w.intensificationCount == IntensifiedCount(ps)
    && w.phase == PhaseOf(FirstSetup(w.decisions))
    && w.fatigueExpectation == FatigueExpectationOf(FirstSetup(w.decisions))
    && w.rirTarget == RirTargetOf(FirstSetup(w.decisions))
  }

  lemma DerivedDistinct(w: WeekData)
    requires Derived(w)
    ensures DistinctKeys(w.volumeByMuscle)
  {
  }

  lemma NormalizeDerived(doc: Document)
    requires Normalize(doc).Success?
    ensures Derived(Normalize(doc).value)
    ensures Normalize(doc).value.weekNumber == doc.weekNumber.value
  {
  }

  lemma {:induction false} SessionsSizeCounts(ss: seq<Session>)
    ensures |SessionPrescriptions(ss)| == SessionsSize(ss)
  {
    if ss != [] {
      SessionsSizeCounts(ss[..|ss| - 1]);
    }
  }

  /** Each deload week that permits failure is charged once more on top of its violation. */
  lemma {:induction false} DeloadPenaltyCharged(weeks: seq<WeekData>, i: nat)
    requires i < |weeks| && DeloadWithFailure(weeks[i])
    ensures DeloadFailureWeeks(weeks) >= 1
    ensures Violation(weeks[i].weekNumber, NotApplicable, FailureInDeload, P0) in InvariantViolations(weeks, |weeks|)
  {
    DeloadFailureFlagged(weeks, i, |weeks|);
    if i < |weeks| - 1 {
      DeloadPenaltyCharged(weeks[..|weeks| - 1], i);
    }
  }

  /** When every plan holds exactly one block the two counts agree on what they
      cover, so the failure rate is at most 100 %. */
  lemma {:induction false} SingleBlockRateBounded(weeks: seq<WeekData>)
    requires forall i :: 0 <= i < |weeks| ==> Derived(weeks[i])
    requires forall i :: 0 <= i < |weeks| ==> weeks[i].plan.weeks.Some? && |weeks[i].plan.weeks.value| == 1
    ensures forall i :: 0 <= i < |weeks| ==> FirstBlockPresent(weeks[i])
    ensures FailureTotal(weeks) <= FirstBlockTotal(weeks)
  {
    if weeks != [] {
      var init := weeks[..|weeks| - 1];
      SingleBlockRateBounded(init);
      var w := weeks[|weeks| - 1];
      var bs := w.plan.weeks.value;
      assert bs[..0] == [];
      assert BlockPrescriptions(bs) == SessionPrescriptions(bs[0].sessions);
      SessionsSizeCounts(bs[0].sessions);
    }
  }

  /** With two blocks per plan the numerator counts both while the denominator
      counts only the first: one such week gives a rate of 200 %. */
  lemma TwoBlocksDoubleCount(p: Prescription)
    requires p.allowFailureOnLastSet
    ensures var b := Block([Session([p])]);
      var doc := Document(Some(1), None, Some(Plan(Some([b, b]))), Some([]));
      && Normalize(doc).Success?
      && FailureTotal([Normalize(doc).value]) == 2
      && FirstBlockTotal([Normalize(doc).value]) == 1
      && FailureAdjustment(2, 1) == -20
  {
    var b := Block([Session([p])]);
    var plan := Plan(Some([b, b]));
    TwoBlockPrescriptions(p);
    FailureExercisesPair(p);
    var doc := Document(Some(1), None, Some(plan), Some([]));
    var w := Normalize(doc).value;
    assert w.allowFailureCount == 2;
    assert [w][..0] == [];
    SingleSessionSize(p);
  }

  lemma TwoBlockPrescriptions(p: Prescription)
    ensures var b := Block([Session([p])]); AllPrescriptions(Plan(Some([b, b]))) == [p, p]
  {
    var b := Block([Session([p])]);
    var ss := [Session([p])];
    assert ss[..0] == [];
    assert SessionPrescriptions(ss) == [p];
    var bs := [b, b];
    assert bs[..1] == [b] && bs[..1][..0] == [];
    assert BlockPrescriptions(bs[..1]) == [p];
    assert BlockPrescriptions(bs) == [p] + [p];
  }

  lemma FailureExercisesPair(p: Prescription)
    requires p.allowFailureOnLastSet
    ensures FailureCount([p, p]) == 2
  {
    var ps := [p, p];
    assert ps[..1] == [p] && ps[..1][..0] == [];
  }

  lemma SingleSessionSize(p: Prescription)
    ensures SessionsSize([Session([p])]) == 1
  {
    var ss := [Session([p])];
    assert ss[..0] == [];
  }

  // ---------------------------------------------------------------- traceability

  /** The decision categories every week must log. */
  const Required: seq<string> := ["failure_policy_applied", "week_setup", "phase_periodization"]

  /** `{d.get('category') for d in week.decisions}` */
  function Categories(ds: seq<Decision>): set<Option<string>> {
    set d | d in ds :: d.category
  }

  /** `[cat for cat in required if cat not in categories]` */
  function MissingFrom(req: seq<string>, cats: set<Option<string>>): (missing: seq<string>)
    ensures forall c :: c in missing <==> c in req && Some(c) !in cats
  {
    if req == [] then []
    else (if Some(req[0]) !in cats then [req[0]] else []) + MissingFrom(req[1..], cats)
  }

  predicate HasGap(w: WeekData) {
    MissingFrom(Required, Categories(w.decisions)) != []
  }

  /** A week has a gap exactly when one of the three categories is absent from its decisions. */
  lemma GapMeaning(w: WeekData)
    ensures HasGap(w) <==> exists c :: c in Required && forall d :: d in w.decisions ==> d.category != Some(c)
  {
    if HasGap(w) {
      var c := MissingFrom(Required, Categories(w.decisions))[0];
      assert c in Required && Some(c) !in Categories(w.decisions);
    }
  }

  /** Weeks charged the −5 robustness penalty. */
  function GapWeeks(weeks: seq<WeekData>): nat {
    if weeks == [] then 0 else GapWeeks(weeks[..|weeks| - 1]) + (if HasGap(weeks[|weeks| - 1]) then 1 else 0)
  }

  /** `sum(len(w.decisions) for w in self.weeks)` */
  function DecisionTotal(weeks: seq<WeekData>): nat {
    if weeks == [] then 0 else DecisionTotal(weeks[..|weeks| - 1]) + |weeks[|weeks| - 1].decisions|
  }

  /** The traceability bonus, in whole numbers: at least 30 decisions per week. */
  function TraceBonus(weeks: seq<WeekData>): (b: int)
    ensures b == 0 || b == 20
  {
    if DecisionTotal(weeks) >= 30 * |weeks| then 20 else 0
  }

  /** The bonus is the one `check_traceability` grants on the mean decision count. */
  lemma TraceBonusAverage(weeks: seq<WeekData>)
    requires weeks != []
    ensures TraceBonus(weeks) == if DecisionTotal(weeks) as real / |weeks| as real >= 30.0 then 20 else 0
  {
    MeanAtLeast(DecisionTotal(weeks), |weeks|, 30);
  }

  lemma MeanAtLeast(total: nat, n: nat, bound: nat)
    requires n > 0
    ensures total >= bound * n <==> total as real / n as real >= bound as real
  {
    var avg := total as real / n as real;
    assert avg * n as real == total as real;
    ScaleCompare(bound as real, avg, n as real);
  }

  // ---------------------------------------------------------------- scores

  function P0Count(vs: seq<Violation>): nat {
    if vs == [] then 0 else P0Count(vs[..|vs| - 1]) + (if vs[|vs| - 1].severity == P0 then 1 else 0)
  }

  function P1Count(vs: seq<Violation>): nat {
    if vs == [] then 0 else P1Count(vs[..|vs| - 1]) + (if vs[|vs| - 1].severity == P1 then 1 else 0)
  }

  /** What the violations cost the scientific and clinical scores. */
  function Penalty(vs: seq<Violation>): nat {
    if vs == [] then 0
    else Penalty(vs[..|vs| - 1]) + (match vs[|vs| - 1].severity case P0 => 30 case P1 => 15)
  }

  /** Each P0 costs 30 and each P1 costs 15; no violation is free. */
  lemma {:induction false} PenaltyCounts(vs: seq<Violation>)
    ensures Penalty(vs) == 30 * P0Count(vs) + 15 * P1Count(vs)
    ensures P0Count(vs) + P1Count(vs) == |vs|
  {
    if vs != [] {
      PenaltyCounts(vs[..|vs| - 1]);
    }
  }

  /** No P0 is counted exactly when no violation has severity P0. */
  lemma {:induction false} NoP0(vs: seq<Violation>)
    ensures P0Count(vs) == 0 <==> forall i :: 0 <= i < |vs| ==> vs[i].severity != P0
  {
    if vs != [] {
      NoP0(vs[..|vs| - 1]);
      assert forall i :: 0 <= i < |vs| - 1 ==> vs[..|vs| - 1][i] == vs[i];
    }
  }
}
