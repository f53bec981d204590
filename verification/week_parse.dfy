/** Snapshot normalisation: one weekly document becomes a flat `WeekData`
    record (auditor_longitudinal.py, `WeekData` and `_parse_week`). */
module WeekParse {
  import opened Wrappers
  import opened Snapshot

  /** `volume_by_muscle`: a dictionary from muscle name to sets, kept as the
      ordered list of its entries because the auditor walks it in insertion order. */
  type Volume = seq<(string, int)>

  /** The muscles of `v`, in insertion order. */
  function Keys(v: Volume): (ks: seq<string>)
    ensures |ks| == |v|
    ensures forall e {:trigger ks[e]} :: 0 <= e < |v| ==> ks[e] == v[e].0
  {
    if v == [] then [] else [v[0].0] + Keys(v[1..])
  }

  /** No muscle has two entries: `v` is the item list of a dictionary. */
  predicate DistinctKeys(v: Volume) {
    v == [] || (v[0].0 !in Keys(v[1..]) && DistinctKeys(v[1..]))
  }

  /** `v.get(k, default)`: the value of the entry for `k`, or the default
      when there is none. */
  function Get(v: Volume, k: string, default: int): (r: int)
    ensures k !in Keys(v) ==> r == default
    ensures k in Keys(v) ==> (k, r) in v
  {
    if v == [] then default
    else if v[0].0 == k then v[0].1
    else Get(v[1..], k, default)
  }

  /** In a dictionary the value `get` returns for a present key is that
      key's own entry. */
  lemma {:induction false} GetEntry(v: Volume, k: string, default: int, e: nat)
    requires DistinctKeys(v) && e < |v| && v[e].0 == k
    ensures Get(v, k, default) == v[e].1
  {
    if e > 0 {
      assert Keys(v[1..])[e - 1] == k;
      GetEntry(v[1..], k, default, e - 1);
    }
  }

  /** Sum of the values, `sum(v.values())`. */
  function Total(v: Volume): int {
    if v == [] then 0 else v[0].1 + Total(v[1..])
  }

  /** `v[k] = v.get(k, 0) + n`: updates the entry of `k` where it is, or appends
      a new entry; nothing else changes. */
  function Add(v: Volume, k: string, n: int): (r: Volume)
    requires DistinctKeys(v)
    ensures DistinctKeys(r)
    ensures Keys(r) == if k in Keys(v) then Keys(v) else Keys(v) + [k]
  {
    if v == [] then [(k, n)]
    else if v[0].0 == k then [(k, v[0].1 + n)] + v[1..]
    else
      var r := [v[0]] + Add(v[1..], k, n);
      assert r[1..] == Add(v[1..], k, n);
      r
  }

  /** `Add` raises the total by `n` and the entry of `k` alone, by `n`. */
  lemma {:induction false} AddValues(v: Volume, k: string, n: int)
    requires DistinctKeys(v)
    ensures Total(Add(v, k, n)) == Total(v) + n
    ensures forall k', d :: Get(Add(v, k, n), k', d) == if k' == k then Get(v, k, 0) + n else Get(v, k', d)
  {
    if v != [] && v[0].0 != k {
      var r := Add(v, k, n);
      assert r[1..] == Add(v[1..], k, n);
      AddValues(v[1..], k, n);
    }
  }

  function MuscleOf(p: Prescription): string { p.muscle.GetOr("unknown") }
  function SetsOf(p: Prescription): int { p.sets.GetOr(0) }
  function ExerciseOf(p: Prescription): string { p.exercise.GetOr("unknown") }

  /** Sum of `sets` over a sequence of prescriptions. */
  function TotalSets(ps: seq<Prescription>): int {
    if ps == [] then 0 else TotalSets(ps[..|ps| - 1]) + SetsOf(ps[|ps| - 1])
  }

  /** Sum of `sets` over the prescriptions of one muscle. */
  function MuscleSets(ps: seq<Prescription>, m: string): int {
    if ps == [] then 0
    else MuscleSets(ps[..|ps| - 1], m) + (if MuscleOf(ps[|ps| - 1]) == m then SetsOf(ps[|ps| - 1]) else 0)
  }

  /** `volume_by_muscle` after walking `ps`. */
  function VolumeOf(ps: seq<Prescription>): (v: Volume)
    ensures DistinctKeys(v)
  {
    if ps == [] then []
    else
      var p := ps[|ps| - 1];
      Add(VolumeOf(ps[..|ps| - 1]), MuscleOf(p), SetsOf(p))
  }

  /** The entries of the volume map sum to the total sets of the week. */
  lemma {:induction false} VolumeTotal(ps: seq<Prescription>)
    ensures Total(VolumeOf(ps)) == TotalSets(ps)
  {
    if ps != [] {
      VolumeTotal(ps[..|ps| - 1]);
      AddValues(VolumeOf(ps[..|ps| - 1]), MuscleOf(ps[|ps| - 1]), SetsOf(ps[|ps| - 1]));
    }
  }

  /** Each muscle's entry holds the sets of exactly that muscle's prescriptions. */
  lemma {:induction false} VolumePerMuscle(ps: seq<Prescription>, m: string)
    ensures Get(VolumeOf(ps), m, 0) == MuscleSets(ps, m)
  {
    if ps != [] {
      VolumePerMuscle(ps[..|ps| - 1], m);
      AddValues(VolumeOf(ps[..|ps| - 1]), MuscleOf(ps[|ps| - 1]), SetsOf(ps[|ps| - 1]));
    }
  }

  /** Some prescription of the muscle is in `ps`. */
  predicate Names(ps: seq<Prescription>, m: string) {
    exists i :: 0 <= i < |ps| && MuscleOf(ps[i]) == m
  }

  /** The volume map has an entry for exactly the muscles some prescription names. */
  lemma {:induction false} VolumeKeys(ps: seq<Prescription>, m: string)
    ensures m in Keys(VolumeOf(ps)) <==> Names(ps, m)
  {
    if ps != [] {
      VolumeKeys(ps[..|ps| - 1], m);
      NamesSnoc(ps, m);
    }
  }

  /** A muscle is named by `ps` when the prefix or the last prescription names it. */
  lemma NamesSnoc(ps: seq<Prescription>, m: string)
    requires ps != []
    ensures Names(ps, m) <==> Names(ps[..|ps| - 1], m) || MuscleOf(ps[|ps| - 1]) == m
  {
    var init := ps[..|ps| - 1];
    if Names(init, m) {
      var i :| 0 <= i < |init| && MuscleOf(init[i]) == m;
      assert MuscleOf(ps[i]) == m;
    }
    if Names(ps, m) && MuscleOf(ps[|ps| - 1]) != m {
      var i :| 0 <= i < |ps| && MuscleOf(ps[i]) == m;
      assert i < |init| && MuscleOf(init[i]) == m;
    }
  }


  /** `allow_failure_exercises`: the exercise of every prescription with
      `allowFailureOnLastSet`, in order. */
  function FailureExercises(ps: seq<Prescription>): (es: seq<string>)
    ensures |es| <= |ps|
  {
    if ps == [] then []
    else
      var p := ps[|ps| - 1];
      FailureExercises(ps[..|ps| - 1]) + (if p.allowFailureOnLastSet then [ExerciseOf(p)] else [])
  }

  /** `allow_failure_count`: prescriptions with `allowFailureOnLastSet`. */
  function FailureCount(ps: seq<Prescription>): (n: nat)
    ensures n <= |ps|
  {
    if ps == [] then 0
    else FailureCount(ps[..|ps| - 1]) + (if ps[|ps| - 1].allowFailureOnLastSet then 1 else 0)
  }

  /** The counter and the exercise list advance together: one name per
      prescription counted. */
  lemma {:induction false} FailureCountExercises(ps: seq<Prescription>)
    ensures FailureCount(ps) == |FailureExercises(ps)|
  {
    if ps != [] {
      FailureCountExercises(ps[..|ps| - 1]);
    }
  }

  /** `intensification_count`: prescriptions with a non-empty `techniques` list. */
  function IntensifiedCount(ps: seq<Prescription>): (n: nat)
    ensures n <= |ps|
  {
    if ps == [] then 0
    else IntensifiedCount(ps[..|ps| - 1]) + (if ps[|ps| - 1].techniques != [] then 1 else 0)
  }

  const WeekSetup := "week_setup"
  const EmptyContext := Context(None, None, None)

  /** The context of the first `week_setup` decision (`{}` when it has no context). */
  function FirstSetup(ds: seq<Decision>): Option<Context> {
    if ds == [] then None
    else if ds[0].category == Some(WeekSetup) then Some(ds[0].context.GetOr(EmptyContext))
    else FirstSetup(ds[1..])
  }

  function PhaseOf(setup: Option<Context>): string {
    match setup
    case None => "unknown"
    case Some(c) => c.phase.GetOr("unknown")
  }

  function FatigueExpectationOf(setup: Option<Context>): string {
    match setup
    case None => "normal"
    case Some(c) => c.fatigueExpectation.GetOr("normal")
  }

  function RirTargetOf(setup: Option<Context>): real {
    match setup
    case None => 2.5
    case Some(c) => c.rirTarget.GetOr(2.5)
  }

  /** The normalised record of one week. `plan` stands for the raw document:
      it is the only part of it that is read again later. */
  datatype WeekData = WeekData(
    weekNumber: int,
    feedback: Option<Feedback>,
    phase: string,
    fatigueExpectation: string,
    rirTarget: real,
    volumeByMuscle: Volume,
    allowFailureCount: nat,
    allowFailureExercises: seq<string>,
    intensificationCount: nat,
    decisions: seq<Decision>,
    plan: Plan)

  /** A required key missing from a weekly document (a `KeyError`). */
  datatype ParseError = MissingKey(key: string)

  /** What `_parse_week` produces for a document. */
  function Normalize(doc: Document): Result<WeekData, ParseError> {
    if doc.weekNumber.None? then Failure(MissingKey("weekNumber"))
    else if doc.plan.None? then Failure(MissingKey("plan"))
    else if doc.decisions.None? then Failure(MissingKey("decisions"))
    else
      var ds := doc.decisions.value;
      var setup := FirstSetup(ds);
      var ps := AllPrescriptions(doc.plan.value);
      Success(WeekData(
        doc.weekNumber.value, doc.feedbackInput,
        PhaseOf(setup), FatigueExpectationOf(setup), RirTargetOf(setup),
        VolumeOf(ps), FailureCount(ps), FailureExercises(ps), IntensifiedCount(ps),
        ds, doc.plan.value))
  }

  /** The counters `_parse_week` keeps while it walks the prescriptions. */
  datatype Tally = Tally(
    volume: Volume,
    failureCount: nat,
    failureExercises: seq<string>,
    intensified: nat)

  /** The tally after walking `ps` from empty counters. */
  function TallyOf(ps: seq<Prescription>): (t: Tally)
    ensures t.failureCount == |t.failureExercises|
  {
    FailureCountExercises(ps);
    Tally(VolumeOf(ps), FailureCount(ps), FailureExercises(ps), IntensifiedCount(ps))
  }

  /** The counters after one more prescription: its sets join its muscle's
      entry, and the failure and intensification counters advance when it
      allows failure or lists techniques. */
  function Step(t: Tally, p: Prescription): Tally
    requires DistinctKeys(t.volume)
  {
    Tally(
      Add(t.volume, MuscleOf(p), SetsOf(p)),
      t.failureCount + (if p.allowFailureOnLastSet then 1 else 0),
      t.failureExercises + (if p.allowFailureOnLastSet then [ExerciseOf(p)] else []),
      t.intensified + (if p.techniques != [] then 1 else 0))
  }

  /** `Step` over each of `ps` in turn, from the counters `t`. */
  function StepAll(t: Tally, ps: seq<Prescription>): (r: Tally)
    requires DistinctKeys(t.volume)
    ensures DistinctKeys(r.volume)
    decreases |ps|
  {
    if ps == [] then t else StepAll(Step(t, ps[0]), ps[1..])
  }

  /** Stepping through `ps` from the counters of `done` gives the counters of
      `done + ps`. */
  lemma {:induction false} StepAllTally(done: seq<Prescription>, ps: seq<Prescription>)
    ensures StepAll(TallyOf(done), ps) == TallyOf(done + ps)
    decreases |ps|
  {
    if ps == [] {
      assert done + ps == done;
    } else {
      var next := done + [ps[0]];
      TallyStep(done, ps[0]);
      assert StepAll(TallyOf(done), ps) == StepAll(TallyOf(next), ps[1..]);
      StepAllTally(next, ps[1..]);
      ConsSplit(done, ps);
    }
  }

  /** Stepping through `a + b` is stepping through `a`, then through `b`. */
  lemma {:induction false} StepAllAppend(t: Tally, a: seq<Prescription>, b: seq<Prescription>)
    requires DistinctKeys(t.volume)
    ensures StepAll(t, a + b) == StepAll(StepAll(t, a), b)
    decreases |a|
  {
    if a == [] {
      assert a + b == b;
    } else {
      assert (a + b)[0] == a[0] && (a + b)[1..] == a[1..] + b;
      StepAllAppend(Step(t, a[0]), a[1..], b);
    }
  }

  /** Walking one more prescription is one `Step`. */
  lemma TallyStep(done: seq<Prescription>, p: Prescription)
    ensures TallyOf(done + [p]) == Step(TallyOf(done), p)
  {
    assert (done + [p])[..|done|] == done;
  }

  lemma ConsSplit<T>(done: seq<T>, ps: seq<T>)
    requires ps != []
    ensures (done + [ps[0]]) + ps[1..] == done + ps
  {
  }

  lemma BlockPrescriptionsStep(blocks: seq<Block>, b: nat)
    requires b < |blocks|
    ensures BlockPrescriptions(blocks[..b + 1]) == BlockPrescriptions(blocks[..b]) + SessionPrescriptions(blocks[b].sessions)
  {
    assert blocks[..b + 1][..b] == blocks[..b];
  }

  lemma SessionPrescriptionsStep(sessions: seq<Session>, s: nat)
    requires s < |sessions|
    ensures SessionPrescriptions(sessions[..s + 1]) == SessionPrescriptions(sessions[..s]) + sessions[s].prescriptions
  {
    assert sessions[..s + 1][..s] == sessions[..s];
  }

  /** The decision loop of `_parse_week`: the fields of the first `week_setup`
      context, each defaulting as the source does. */
  method ScanSetup(ds: seq<Decision>) returns (phase: string, fatigueExp: string, rirTarget: real)
    ensures phase == PhaseOf(FirstSetup(ds))
    ensures fatigueExp == FatigueExpectationOf(FirstSetup(ds))
    ensures rirTarget == RirTargetOf(FirstSetup(ds))
  {
    phase, fatigueExp, rirTarget := "unknown", "normal", 2.5;
    var i := 0;
    while i < |ds|
      invariant 0 <= i <= |ds|
      invariant FirstSetup(ds) == FirstSetup(ds[i..])
    {
      assert ds[i..][0] == ds[i];
      if ds[i].category == Some(WeekSetup) {
        var ctx := ds[i].context.GetOr(EmptyContext);
        phase := ctx.phase.GetOr(phase);
        fatigueExp := ctx.fatigueExpectation.GetOr(fatigueExp);
        rirTarget := ctx.rirTarget.GetOr(rirTarget);
        return;
      }
      assert ds[i..][1..] == ds[i + 1..];
      i := i + 1;
    }
  }

  /** The innermost loop of `_parse_week`: one session's prescriptions, on top of
      the counters `t0`. */
  method WalkPrescriptions(t0: Tally, ps: seq<Prescription>) returns (t: Tally)
    requires DistinctKeys(t0.volume)
    ensures t == StepAll(t0, ps)
  {
    t := t0;
    var k := 0;
    while k < |ps|
      invariant 0 <= k <= |ps|
      invariant DistinctKeys(t.volume)
      invariant StepAll(t, ps[k..]) == StepAll(t0, ps)
    {
      assert ps[k..][1..] == ps[k + 1..];
      t := CountPrescription(t, ps[k]);
      k := k + 1;
    }
  }

  /** The body of the innermost loop: one prescription's contribution. */
  method CountPrescription(t0: Tally, p: Prescription) returns (t: Tally)
    requires DistinctKeys(t0.volume)
    ensures t == Step(t0, p)
  {
    var volume := Add(t0.volume, MuscleOf(p), SetsOf(p));
    var failureCount, failureExercises := t0.failureCount, t0.failureExercises;
    if p.allowFailureOnLastSet {
      failureCount := failureCount + 1;
      failureExercises := failureExercises + [ExerciseOf(p)];
    }
    var intensified := t0.intensified;
    if p.techniques != [] {
      intensified := intensified + 1;
    }
    t := Tally(volume, failureCount, failureExercises, intensified);
  }

  /** The middle loop of `_parse_week`: the sessions of one block. */
  method WalkSessions(t0: Tally, sessions: seq<Session>) returns (t: Tally)
    requires DistinctKeys(t0.volume)
    ensures t == StepAll(t0, SessionPrescriptions(sessions))
  {
    t := t0;
    var s := 0;
    while s < |sessions|
      invariant 0 <= s <= |sessions|
      invariant t == StepAll(t0, SessionPrescriptions(sessions[..s]))
    {
      t := WalkPrescriptions(t, sessions[s].prescriptions);
      SessionPrescriptionsStep(sessions, s);
      StepAllAppend(t0, SessionPrescriptions(sessions[..s]), sessions[s].prescriptions);
      s := s + 1;
    }
    assert sessions[..s] == sessions;
  }

  /** The outer loop of `_parse_week`: every block of `plan.weeks` (none when
      absent), from empty counters. */
  method WalkPlan(plan: Plan) returns (t: Tally)
    ensures t == TallyOf(AllPrescriptions(plan))
  {
    var blocks := plan.weeks.GetOr([]);
    var t0 := Tally([], 0, [], 0);
    t := t0;
    var b := 0;
    while b < |blocks|
      invariant 0 <= b <= |blocks|
      invariant t == StepAll(t0, BlockPrescriptions(blocks[..b]))
    {
      t := WalkSessions(t, blocks[b].sessions);
      BlockPrescriptionsStep(blocks, b);
      StepAllAppend(t0, BlockPrescriptions(blocks[..b]), SessionPrescriptions(blocks[b].sessions));
      b := b + 1;
    }
    assert blocks[..b] == blocks;
    StepAllTally([], AllPrescriptions(plan));
    assert [] + AllPrescriptions(plan) == AllPrescriptions(plan);
  }

  /** `_parse_week`: the required keys, then the setup fields, then the counters. */
  method ParseWeek(doc: Document) returns (r: Result<WeekData, ParseError>)
    ensures r == Normalize(doc)
    ensures r.Failure? <==> doc.weekNumber.None? || doc.plan.None? || doc.decisions.None?
    ensures r.Success? ==>
      var w := r.value;
      var ps := AllPrescriptions(doc.plan.value);
      && w.allowFailureCount == |w.allowFailureExercises|
      && Total(w.volumeByMuscle) == TotalSets(ps)
      && DistinctKeys(w.volumeByMuscle)
      && w.intensificationCount <= |ps|
  {
    if doc.plan.Some? { VolumeTotal(AllPrescriptions(doc.plan.value)); }
    if doc.weekNumber.None? { return Failure(MissingKey("weekNumber")); }
    if doc.plan.None? { return Failure(MissingKey("plan")); }
    if doc.decisions.None? { return Failure(MissingKey("decisions")); }
    var ds := doc.decisions.value;
    var phase, fatigueExp, rirTarget := ScanSetup(ds);
    var t := WalkPlan(doc.plan.value);
    r := Success(WeekData(
      doc.weekNumber.value, doc.feedbackInput, phase, fatigueExp, rirTarget,
      t.volume, t.failureCount, t.failureExercises, t.intensified, ds, doc.plan.value));
  }

  /** Later `week_setup` entries never matter once one has been seen. */
  lemma {:induction false} SetupIgnoresLater(ds: seq<Decision>, more: seq<Decision>)
    requires FirstSetup(ds).Some?
    ensures FirstSetup(ds + more) == FirstSetup(ds)
  {
    assert (ds + more)[0] == ds[0];
    if ds[0].category != Some(WeekSetup) {
      assert (ds + more)[1..] == ds[1..] + more;
      SetupIgnoresLater(ds[1..], more);
    }
  }

  /** The setup fields come from the first `week_setup` decision, field by
      field, falling back to the defaults for a field that context lacks. */
  lemma {:induction false} SetupFromFirstEntry(ds: seq<Decision>, i: nat)
    requires i < |ds| && ds[i].category == Some(WeekSetup)
    requires forall j :: 0 <= j < i ==> ds[j].category != Some(WeekSetup)
    ensures var c := ds[i].context.GetOr(EmptyContext);
      && PhaseOf(FirstSetup(ds)) == c.phase.GetOr("unknown")
      && FatigueExpectationOf(FirstSetup(ds)) == c.fatigueExpectation.GetOr("normal")
      && RirTargetOf(FirstSetup(ds)) == c.rirTarget.GetOr(2.5)
  {
    if i > 0 {
      SetupFromFirstEntry(ds[1..], i - 1);
    }
  }

  /** Without any `week_setup` decision every setup field takes its default. */
  lemma {:induction false} SetupDefaults(ds: seq<Decision>)
    requires forall j :: 0 <= j < |ds| ==> ds[j].category != Some(WeekSetup)
    ensures PhaseOf(FirstSetup(ds)) == "unknown"
    ensures FatigueExpectationOf(FirstSetup(ds)) == "normal"
    ensures RirTargetOf(FirstSetup(ds)) == 2.5
  {
    if ds != [] {
      SetupDefaults(ds[1..]);
    }
  }
}
