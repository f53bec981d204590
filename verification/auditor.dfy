/** The longitudinal auditor (`LongitudinalAuditor` in
    auditor_longitudinal.py): the timeline of normalised weeks, the shared
    append-only violation list and the three scores, each `check_*` step a
    method over them. Printing is left out; what a step only prints is
    returned instead. */
module Auditor {
  import opened Wrappers
  import opened Snapshot
  import opened WeekParse
  import opened Rules
  import opened Invariants
  import opened Analyses

  /** What `_parse_week` makes of each document in turn, stopping at the first
      malformed one. */
  function NormalizeAll(docs: seq<Document>): Result<seq<WeekData>, ParseError> {
    if docs == [] then Success([])
    else
      match NormalizeAll(docs[..|docs| - 1])
      case Failure(e) => Failure(e)
      case Success(ws) =>
        match Normalize(docs[|docs| - 1])
        case Failure(e) => Failure(e)
        case Success(w) => Success(ws + [w])
  }

  lemma {:induction false} NormalizeAllDerived(docs: seq<Document>)
    requires NormalizeAll(docs).Success?
    ensures |NormalizeAll(docs).value| == |docs|
    ensures forall i :: 0 <= i < |docs| ==> Derived(NormalizeAll(docs).value[i])
  {
    if docs != [] {
      NormalizeAllDerived(docs[..|docs| - 1]);
      NormalizeDerived(docs[|docs| - 1]);
    }
  }

  lemma {:induction false} NormalizeAllPrefixFails(docs: seq<Document>, k: nat)
    requires k <= |docs| && NormalizeAll(docs[..k]).Failure?
    ensures NormalizeAll(docs) == NormalizeAll(docs[..k])
  {
    if k < |docs| {
      assert docs[..|docs| - 1][..k] == docs[..k];
      NormalizeAllPrefixFails(docs[..|docs| - 1], k);
    } else {
      assert docs[..k] == docs;
    }
  }

  /** Normalising one more document appends its week. */
  lemma NormalizeStep(docs: seq<Document>, i: nat, ws: seq<WeekData>, w: WeekData)
    requires i < |docs| && NormalizeAll(docs[..i]) == Success(ws) && Normalize(docs[i]) == Success(w)
    ensures NormalizeAll(docs[..i + 1]) == Success(ws + [w])
  {
    var p := docs[..i + 1];
    assert p[..|p| - 1] == docs[..i];
  }

  /** The first document that fails to normalise decides the error. */
  lemma NormalizeStepFails(docs: seq<Document>, i: nat, ws: seq<WeekData>, e: ParseError)
    requires i < |docs| && NormalizeAll(docs[..i]) == Success(ws) && Normalize(docs[i]) == Failure(e)
    ensures NormalizeAll(docs[..i + 1]) == Failure(e)
  {
    var p := docs[..i + 1];
    assert p[..|p| - 1] == docs[..i] && p[|p| - 1] == docs[i];
  }

  /** Appending a normalised week keeps every week's volume keys distinct. */
  lemma ValidSnoc(ws: seq<WeekData>, w: WeekData)
    requires forall i :: 0 <= i < |ws| ==> DistinctKeys(ws[i].volumeByMuscle)
    requires Derived(w)
    ensures forall i :: 0 <= i < |ws + [w]| ==> DistinctKeys((ws + [w])[i].volumeByMuscle)
  {
    DerivedDistinct(w);
  }

  class LongitudinalAuditor {
    var weeks: seq<WeekData>
    var violations: seq<Violation>
    var scientific: int
    var clinical: int
    var robustness: int

    /** Every loaded week maps each muscle to one volume entry, as the
        snapshot parser builds it. */
    ghost predicate Valid()
      reads this`weeks
    {
      forall i :: 0 <= i < |weeks| ==> DistinctKeys(weeks[i].volumeByMuscle)
    }

    /** `__init__`: no weeks, no violations, every score 0. */
    constructor ()
      ensures Valid()
      ensures weeks == [] && violations == []
      ensures scientific == 0 && clinical == 0 && robustness == 0
    {
      weeks := [];
      violations := [];
      scientific, clinical, robustness := 0, 0, 0;
    }

    /** The parsing half of `load_weeks`: appends each document's week in
        order; a malformed document stops the load, keeping the weeks of
        the documents before it. */
    method LoadWeeks(docs: seq<Document>) returns (err: Option<ParseError>)
      requires Valid()
      modifies this`weeks
      ensures Valid()
      ensures err.None? <==> NormalizeAll(docs).Success?
      ensures err.None? ==> weeks == old(weeks) + NormalizeAll(docs).value
      ensures err.Some? ==> err.value == NormalizeAll(docs).error
      ensures err.Some? ==> (exists i :: 0 <= i < |docs| && Normalize(docs[i]) == Failure(err.value) &&
                                 NormalizeAll(docs[..i]).Success? && weeks == old(weeks) + NormalizeAll(docs[..i]).value)
    {
      var i := 0;
      while i < |docs|
        invariant i <= |docs| && Valid()
        invariant NormalizeAll(docs[..i]).Success?
        invariant weeks == old(weeks) + NormalizeAll(docs[..i]).value
      {
        var r := ParseWeek(docs[i]);
        ghost var ws := NormalizeAll(docs[..i]).value;
        if r.Failure? {
          NormalizeStepFails(docs, i, ws, r.error);
          NormalizeAllPrefixFails(docs, i + 1);
          return Some(r.error);
        }
        NormalizeStep(docs, i, ws, r.value);
        ValidSnoc(weeks, r.value);
        weeks := weeks + [r.value];
        i := i + 1;
      }
      assert docs[..i] == docs;
      return None;
    }

    /** `_add_violation` */
    method AddViolation(week: int, muscle: string, rule: Rule, severity: Severity)
      modifies this`violations
      ensures violations == old(violations) + [Violation(week, muscle, rule, severity)]
    {
      violations := violations + [Violation(week, muscle, rule, severity)];
    }

    /** Invariant 1 of `check_invariants` for one week. */
    method CheckVolumeRule(w: WeekData)
      modifies this`violations
      ensures violations == old(violations) + VolumeViolations(w.weekNumber, w.volumeByMuscle)
    {
      var v := w.volumeByMuscle;
      var e := 0;
      while e < |v|
        invariant e <= |v|
        invariant violations == old(violations) + VolumeViolations(w.weekNumber, v[..e])
      {
        var (muscle, sets) := v[e];
        var mrv := Mrv(muscle);
        if sets > mrv {
          AddViolation(w.weekNumber, muscle, VolumeOverMrv, P0);
        }
        VolumePrefixStep(old(violations), w.weekNumber, v, e);
        e := e + 1;
      }
      assert v[..e] == v;
    }

    /** Invariant 4 of `check_invariants` for one week and its looked-up predecessor. */
    method CheckProgressionRule(w: WeekData, prev: WeekData)
      requires DistinctKeys(w.volumeByMuscle)
      modifies this`violations
      ensures violations == old(violations) + ProgressionViolations(w.weekNumber, w.volumeByMuscle, prev.volumeByMuscle)
    {
      var v := w.volumeByMuscle;
      var e := 0;
      while e < |v|
        invariant e <= |v|
        invariant violations == old(violations) + ProgressionViolations(w.weekNumber, v[..e], prev.volumeByMuscle)
      {
        var muscle := v[e].0;
        var currVol := Get(v, muscle, 0);
        var prevVol := Get(prev.volumeByMuscle, muscle, 0);
        ghost var added := if currVol as real > prevVol as real * 1.1
          then [Violation(w.weekNumber, muscle, ProgressionAfterHighFatigue, P1)] else [];
        ProgressionPrefixStep(old(violations), w.weekNumber, v, e, prev.volumeByMuscle, added);
        if currVol as real > prevVol as real * 1.1 {
          AddViolation(w.weekNumber, muscle, ProgressionAfterHighFatigue, P1);
        }
        e := e + 1;
      }
      assert v[..e] == v;
    }

    /** The body of the `check_invariants` loop for one week of `ws`: the four
        rules in order, stopping with `false` where the source raises
        `IndexError` after the first three. */
    method CheckWeek(ws: seq<WeekData>, week: WeekData) returns (ok: bool)
      requires DistinctKeys(week.volumeByMuscle)
      modifies this`violations
      ensures ok <==> !LookupFails(ws, week)
      ensures ok ==> violations == old(violations) + WeekViolations(ws, week)
      ensures !ok ==> violations == old(violations) + VolumeViolations(week.weekNumber, week.volumeByMuscle) + DeloadCheck(week) + HighExpectationCheck(week)
    {
      ghost var base := violations;
      CheckVolumeRule(week);
      if week.phase == "deload" && week.allowFailureCount > 0 {
        AddViolation(week.weekNumber, NotApplicable, FailureInDeload, P0);
      }
      if week.fatigueExpectation == "high" && week.allowFailureCount > 0 {
        AddViolation(week.weekNumber, NotApplicable, FailureUnderHighFatigue, P0);
      }
      ghost var a := VolumeViolations(week.weekNumber, week.volumeByMuscle);
      ghost var b := DeloadCheck(week);
      ghost var c := HighExpectationCheck(week);
      assert violations == ((base + a) + b) + c;
      if week.weekNumber > 1 {
        if week.weekNumber - 2 >= |ws| {
          return false;
        }
        var prev := ws[week.weekNumber - 2];
        if prev.feedback.Some? && prev.feedback.value.Truthy() && prev.feedback.value.Fatigue() >= 8.0 {
          CheckProgressionRule(week, prev);
        }
      }
      Assoc4(base, a, b, c, ProgressionRule(ws, week));
      return true;
    }

    /** `check_invariants`: appends every week's violations in order. It stops
        with `false` where the source raises `IndexError`, at a week whose
        `week_number - 2` lies beyond the timeline (by `LookupFailsAt` the
        lookups then fail as a whole). */
    method CheckInvariants() returns (ok: bool)
      requires Valid()
      modifies this`violations
      ensures ok ==> LookupOk(weeks) && violations == old(violations) + InvariantViolations(weeks, |weeks|)
      ensures !ok ==> exists i :: 0 <= i < |weeks| && LookupFails(weeks, weeks[i])
    {
      var ws := weeks;
      for i: nat := 0 to |ws|
        invariant LookupOkUpTo(ws, i)
        invariant violations == old(violations) + InvariantViolations(ws, i)
      {
        ok := CheckWeekAt(old(violations), ws, i);
        if !ok {
          return;
        }
      }
      return true;
    }

    /** One pass of the `check_invariants` loop, over week `i` of `ws`. */
    method CheckWeekAt(ghost base: seq<Violation>, ws: seq<WeekData>, i: nat) returns (ok: bool)
      requires i < |ws| && DistinctKeys(ws[i].volumeByMuscle) && LookupOkUpTo(ws, i)
      requires violations == base + InvariantViolations(ws, i)
      modifies this`violations
      ensures ok <==> !LookupFails(ws, ws[i])
      ensures ok ==> violations == base + InvariantViolations(ws, i + 1)
    {
      ok := CheckWeek(ws, ws[i]);
      if ok {
        ViolationsStep(base, ws, i);
      }
    }

    /** `check_directionality`: one transition per week whose predecessor has
        feedback, and the tally of the three responses over them. */
    method CheckDirectionality() returns (ts: seq<Transition>, progressions: nat, maintains: nat, regressions: nat)
      ensures ts == Transitions(weeks, |weeks|)
      ensures progressions == CountResponse(ts, Progresion)
      ensures maintains == CountResponse(ts, Mantiene)
      ensures regressions == CountResponse(ts, Reduccion)
      ensures progressions + maintains + regressions == |ts|
    {
      var ws := weeks;
      ts, progressions, maintains, regressions := [], 0, 0, 0;
      var i := if ws == [] then 0 else 1;
      while i < |ws|
        invariant i <= |ws| && (i >= 1 || ws == []) && ws == weeks
        invariant ts == Transitions(ws, i)
        invariant progressions == CountResponse(ts, Progresion)
        invariant maintains == CountResponse(ts, Mantiene)
        invariant regressions == CountResponse(ts, Reduccion)
        invariant progressions + maintains + regressions == |ts|
      {
        var week := ws[i];
        var prev := ws[i - 1];
        if !HasFeedback(prev) {
          i := i + 1;
          continue;
        }
        var fb := prev.feedback.value;
        var delta := MeanVolume(week.volumeByMuscle) - MeanVolume(prev.volumeByMuscle);
        var signal := SignalOf(fb.Fatigue(), fb.Adherence());
        var response := ResponseOf(delta);
        match response {
          case Progresion => progressions := progressions + 1;
          case Reduccion => regressions := regressions + 1;
          case Mantiene => maintains := maintains + 1;
        }
        var t := Transition(prev.weekNumber, week.weekNumber, signal, response, delta, IsCoherent(signal, response));
        assert (ts + [t])[..|ts|] == ts;
        ts := ts + [t];
        i := i + 1;
      }
    }

    /** `check_stability`: the chest and back variances, and the chaotic weeks,
        each counted once however many watched muscles swung. */
    method CheckStability() returns (chestVariance: real, backVariance: real, chaotic: seq<nat>, chaoticWeeks: nat)
      ensures chestVariance == Variance(VolumeSeries(weeks, "chest")) && chestVariance >= 0.0
      ensures backVariance == Variance(VolumeSeries(weeks, "back")) && backVariance >= 0.0
      ensures forall i :: i in chaotic <==> ChaoticAt(weeks, i)
      ensures forall a, b :: 0 <= a < b < |chaotic| ==> chaotic[a] < chaotic[b]
      ensures chaoticWeeks == |chaotic| && (weeks == [] || chaoticWeeks < |weeks|)
    {
      var ws := weeks;
      chestVariance := Variance(VolumeSeries(ws, "chest"));
      backVariance := Variance(VolumeSeries(ws, "back"));
      chaotic, chaoticWeeks := ChaoticWeeks(ws);
    }

    /** The counting loop of `check_stability`. */
    static method ChaoticWeeks(ws: seq<WeekData>) returns (chaotic: seq<nat>, chaoticWeeks: nat)
      ensures forall i :: i in chaotic <==> ChaoticAt(ws, i)
      ensures forall a, b :: 0 <= a < b < |chaotic| ==> chaotic[a] < chaotic[b]
      ensures chaoticWeeks == |chaotic| && (ws == [] || chaoticWeeks < |ws|)
    {
      chaotic, chaoticWeeks := [], 0;
      if ws == [] {
        return;
      }
      var i := 1;
      while i < |ws|
        invariant 1 <= i <= |ws|
        invariant forall j :: j in chaotic <==> 1 <= j < i && ChaoticAt(ws, j)
        invariant forall a, b :: 0 <= a < b < |chaotic| ==> chaotic[a] < chaotic[b]
        invariant forall a :: 0 <= a < |chaotic| ==> 1 <= chaotic[a] < i
        invariant chaoticWeeks == |chaotic| < i
      {
        var swung := WeekSwings(ws[i - 1], ws[i]);
        if swung {
          chaoticWeeks := chaoticWeeks + 1;
          chaotic := chaotic + [i];
        }
        i := i + 1;
      }
    }

    /** The inner loop of `check_stability` for one pair of weeks: stops at the
        first watched muscle that swung. */
    static method WeekSwings(prev: WeekData, curr: WeekData) returns (swung: bool)
      ensures swung <==> IsChaotic(prev, curr)
    {
      var j := 0;
      while j < |Watched|
        invariant 0 <= j <= |Watched|
        invariant forall j' :: 0 <= j' < j ==> !SwingOn(prev, curr, Watched[j'])
      {
        var muscle := Watched[j];
        var c := Get(curr.volumeByMuscle, muscle, 0);
        var p := Get(prev.volumeByMuscle, muscle, 0);
        if p > 0 {
          var changePct := Abs(c - p) as real / p as real;
          if changePct > 0.3 {
            return true;
          }
        }
        j := j + 1;
      }
      return false;
    }

    /** `check_reversibility`: the positions that end a reduce-then-recover cycle. */
    method CheckReversibility() returns (cycles: seq<nat>)
      ensures forall i :: i in cycles <==> 2 <= i < |weeks| && ReversibleAt(weeks, i)
      ensures forall a, b :: 0 <= a < b < |cycles| ==> cycles[a] < cycles[b]
    {
      var ws := weeks;
      cycles := [];
      var i := if |ws| < 2 then |ws| else 2;
      while i < |ws|
        invariant i <= |ws| && (i >= 2 || |ws| < 2) && ws == weeks
        invariant forall j :: j in cycles <==> 2 <= j < i && ReversibleAt(ws, j)
        invariant forall a, b :: 0 <= a < b < |cycles| ==> cycles[a] < cycles[b]
        invariant forall a :: 0 <= a < |cycles| ==> cycles[a] < i
      {
        var w2, w1, w0 := ws[i - 2], ws[i - 1], ws[i];
        if HighFatigue(w2.feedback) {
          var before := Total(w2.volumeByMuscle) as real;
          var deload := Total(w1.volumeByMuscle) as real;
          var after := Total(w0.volumeByMuscle) as real;
          if deload < before * 0.8 && after > deload * 1.05 {
            cycles := cycles + [i];
          }
        }
        i := i + 1;
      }
    }

    /** `check_failure_usage`: the failure-rate ladder over all weeks, then −30
        per deload week that permits failure. It stops with `false`, leaving the
        score alone, where the source raises `IndexError` on an empty
        `plan.weeks`. */
    method CheckFailureUsage() returns (ok: bool)
      modifies this`scientific
      ensures ok <==> forall i :: 0 <= i < |weeks| ==> FirstBlockPresent(weeks[i])
      ensures ok ==>
        scientific == old(scientific) + FailureAdjustment(FailureTotal(weeks), FirstBlockTotal(weeks)) - 30 * DeloadFailureWeeks(weeks)
      ensures !ok ==> scientific == old(scientific)
    {
      var withFailure, total;
      ok, withFailure, total := FailureCounts();
      if !ok {
        return;
      }
      if total > 0 {
        var failureRate := (withFailure as real / total as real) * 100.0;
        FailureAdjustmentLadder(withFailure, total);
        if failureRate > 15.0 {
          scientific := scientific - 20;
        } else if failureRate > 10.0 {
          scientific := scientific - 10;
        } else {
          scientific := scientific + 20;
        }
      }
      ChargeDeloadFailures();
    }

    /** The first loop of `check_failure_usage`: failure prescriptions over all
        weeks and prescriptions of each week's first block. It answers `false`
        at the first week whose `plan.weeks` is an empty list. */
    method FailureCounts() returns (ok: bool, withFailure: nat, total: nat)
      ensures ok <==> forall i :: 0 <= i < |weeks| ==> FirstBlockPresent(weeks[i])
      ensures ok ==> withFailure == FailureTotal(weeks) && total == FirstBlockTotal(weeks)
    {
      withFailure, total := 0, 0;
      var i := 0;
      while i < |weeks|
        invariant 0 <= i <= |weeks|
        invariant forall j :: 0 <= j < i ==> FirstBlockPresent(weeks[j])
        invariant withFailure == FailureTotal(weeks[..i])
        invariant total == FirstBlockTotal(weeks[..i])
      {
        var week := weeks[i];
        assert weeks[..i + 1][..i] == weeks[..i];
        withFailure := withFailure + week.allowFailureCount;
        var sessions: seq<Session>;
        match week.plan.weeks {
          case None =>
            sessions := [];
          case Some(bs) =>
            if bs == [] {
              return false, withFailure, total;
            }
            sessions := bs[0].sessions;
        }
        var n := CountPrescriptions(sessions);
        total := total + n;
        i := i + 1;
      }
      assert weeks[..i] == weeks;
      return true, withFailure, total;
    }

    /** The second loop of `check_failure_usage`: −30 per deload week that
        permits failure. */
    method ChargeDeloadFailures()
      modifies this`scientific
      ensures scientific == old(scientific) - 30 * DeloadFailureWeeks(weeks)
    {
      var i := 0;
      while i < |weeks|
        invariant 0 <= i <= |weeks|
        invariant scientific == old(scientific) - 30 * DeloadFailureWeeks(weeks[..i])
      {
        assert weeks[..i + 1][..i] == weeks[..i];
        var week := weeks[i];
        if week.phase == "deload" && week.allowFailureCount > 0 {
          scientific := scientific - 30;
        }
        i := i + 1;
      }
      assert weeks[..i] == weeks;
    }

    /** The inner loop of `check_failure_usage`: prescriptions over the sessions of one block. */
    static method CountPrescriptions(ss: seq<Session>) returns (n: nat)
      ensures n == SessionsSize(ss) == |SessionPrescriptions(ss)|
    {
      n := 0;
      var k := 0;
      while k < |ss|
        invariant 0 <= k <= |ss|
        invariant n == SessionsSize(ss[..k])
      {
        assert ss[..k + 1][..k] == ss[..k];
        n := n + |ss[k].prescriptions|;
        k := k + 1;
      }
      assert ss[..k] == ss;
      SessionsSizeCounts(ss);
    }

    /** `check_traceability`: −5 per week missing a required category, then
        +20 when the mean number of decisions per week is at least 30. It stops
        with `false`, leaving the score alone, where the source divides by zero
        on an empty timeline. */
    method CheckTraceability() returns (ok: bool, average: real)
      modifies this`robustness
      ensures ok <==> weeks != []
      ensures ok ==> average == DecisionTotal(weeks) as real / |weeks| as real
      ensures ok ==> robustness == old(robustness) - 5 * GapWeeks(weeks) + TraceBonus(weeks)
      ensures !ok ==> robustness == old(robustness)
    {
      var ws := weeks;
      var total := 0;
      var i := 0;
      while i < |ws|
        invariant 0 <= i <= |ws| && ws == weeks
        invariant total == DecisionTotal(ws[..i])
      {
        assert ws[..i + 1][..i] == ws[..i];
        total := total + |ws[i].decisions|;
        i := i + 1;
      }
      assert ws[..i] == ws;
      if |ws| == 0 {
        return false, 0.0;
      }
      average := total as real / |ws| as real;
      ghost var base := robustness;
      i := 0;
      while i < |ws|
        invariant 0 <= i <= |ws| && ws == weeks
        invariant robustness == base - 5 * GapWeeks(ws[..i])
      {
        assert ws[..i + 1][..i] == ws[..i];
        var categories := Categories(ws[i].decisions);
        var missing := MissingFrom(Required, categories);
        if missing != [] {
          robustness := robustness - 5;
        }
        i := i + 1;
      }
      assert ws[..i] == ws;
      TraceBonusAverage(ws);
      if average >= 30.0 {
        robustness := robustness + 20;
      }
      return true, average;
    }

    /** `calculate_scores`: +50 base on each score, −30 per P0 and −15 per P1
        on the scientific and clinical scores, then a single clamp to [0, 100]. */
    method CalculateScores()
      modifies this`scientific, this`clinical, this`robustness
      ensures scientific == Clamp(old(scientific) + 50 - Penalty(violations))
      ensures clinical == Clamp(old(clinical) + 50 - Penalty(violations))
      ensures robustness == Clamp(old(robustness) + 50)
    {
      scientific := scientific + 50;
      clinical := clinical + 50;
      robustness := robustness + 50;
      ghost var s0, c0 := scientific, clinical;
      var vs := violations;
      var i := 0;
      while i < |vs|
        invariant 0 <= i <= |vs| && vs == violations && robustness == old(robustness) + 50
        invariant scientific == s0 - Penalty(vs[..i]) && clinical == c0 - Penalty(vs[..i])
      {
        assert vs[..i + 1][..i] == vs[..i];
        match vs[i].severity {
          case P0 =>
            scientific := scientific - 30;
            clinical := clinical - 30;
          case P1 =>
            scientific := scientific - 15;
            clinical := clinical - 15;
        }
        i := i + 1;
      }
      assert vs[..i] == vs;
      scientific := Clamp(scientific);
      clinical := Clamp(clinical);
      robustness := Clamp(robustness);
    }

    /** Steps 3 to 5 of `run_audit`, whose findings are only printed: they
        change neither the violations nor the scores. */
    method Analyze() {
      var _, _, _, _ := CheckDirectionality();
      var _, _, _, _ := CheckStability();
      var _ := CheckReversibility();
    }

    /** The steps of `run_audit` after loading, from fresh scores and an empty
        violation list. */
    method Audit() returns (r: Result<Report, AuditError>)
      requires Valid() && violations == [] && scientific == 0 && clinical == 0 && robustness == 0
      modifies this`violations, this`scientific, this`clinical, this`robustness
      ensures r == AuditOf(weeks)
    {
      var ok := CheckInvariants();
      if !ok {
        ghost var i :| 0 <= i < |weeks| && LookupFails(weeks, weeks[i]);
        LookupFailsAt(weeks, i, |weeks|);
        return Failure(PreviousWeekMissing);
      }
      assert violations == [] + InvariantViolations(weeks, |weeks|);
      r := Score();
      assert violations == InvariantViolations(weeks, |weeks|);
    }

    /** The steps of `run_audit` after `check_invariants`: the print-only
        analyses, then the score adjustments and the verdict. */
    method Score() returns (r: Result<Report, AuditError>)
      requires scientific == 0 && clinical == 0 && robustness == 0
      modifies this`scientific, this`clinical, this`robustness
      ensures r == ScoreOf(weeks, violations)
    {
      var err := Adjust();
      if err.Some? {
        return Failure(err.value);
      }
      ghost var sci0, cli0, rob0 := scientific, clinical, robustness;
      CalculateScores();
      var report := Report(scientific, clinical, robustness, violations, Verdict());
      ReportFromScores(sci0, cli0, rob0, violations, report);
      ReportOfScores(weeks, violations, sci0, rob0);
      r := Success(report);
    }

    /** The steps of `run_audit` between `check_invariants` and
        `calculate_scores`: the print-only analyses, `check_failure_usage`
        and `check_traceability`, stopping at the first that raises. */
    method Adjust() returns (err: Option<AuditError>)
      modifies this`scientific, this`robustness
      ensures err.None? <==> FirstBlocksPresent(weeks) && weeks != []
      ensures err.Some? ==> err.value == if FirstBlocksPresent(weeks) then NoWeeks else EmptyFirstBlock
      ensures err.None? ==>
        && scientific == old(scientific) + FailureAdjustment(FailureTotal(weeks), FirstBlockTotal(weeks)) - 30 * DeloadFailureWeeks(weeks)
        && robustness == old(robustness) + TraceBonus(weeks) - 5 * GapWeeks(weeks)
    {
      Analyze();
      var ok := CheckFailureUsage();
      if !ok {
        return Some(EmptyFirstBlock);
      }
      var average;
      ok, average := CheckTraceability();
      if !ok {
        return Some(NoWeeks);
      }
      return None;
    }

    /** The verdict of `generate_report` on the current scores and violations. */
    function Verdict(): (v: Verdict)
      reads this
      ensures v == CorrectAndSafe <==> scientific + clinical + robustness >= 240 && P0Count(violations) == 0
      ensures v == IncorrectOrDangerous <==> scientific + clinical + robustness < 180
    {
      VerdictOf(scientific, clinical, robustness, P0Count(violations))
    }
  }

  /** Where a run stops early: a malformed document (`KeyError`), a previous
      week beyond the timeline or an empty `plan.weeks` (`IndexError`), or no
      weeks at all (`ZeroDivisionError`). */
  datatype AuditError = Malformed(cause: ParseError) | PreviousWeekMissing | EmptyFirstBlock | NoWeeks

  /** What a completed run reports. */
  datatype Report = Report(scientific: int, clinical: int, robustness: int, violations: seq<Violation>, verdict: Verdict)

  /** Every week's plan has a first block, or no `weeks` key at all. */
  predicate FirstBlocksPresent(weeks: seq<WeekData>) {
    forall i :: 0 <= i < |weeks| ==> FirstBlockPresent(weeks[i])
  }

  /** `calculate_scores` and the verdict of `generate_report`, from the
      scores the earlier steps left and the violation list. */
  function ReportFrom(sci0: int, cli0: int, rob0: int, vs: seq<Violation>): Report {
    var sci := Clamp(sci0 + 50 - Penalty(vs));
    var cli := Clamp(cli0 + 50 - Penalty(vs));
    var rob := Clamp(rob0 + 50);
    Report(sci, cli, rob, vs, VerdictOf(sci, cli, rob, P0Count(vs)))
  }

  /** A report holding the clamped scores and their verdict is `ReportFrom`. */
  lemma ReportFromScores(sci0: int, cli0: int, rob0: int, vs: seq<Violation>, r: Report)
    requires r.scientific == Clamp(sci0 + 50 - Penalty(vs)) && r.clinical == Clamp(cli0 + 50 - Penalty(vs))
    requires r.robustness == Clamp(rob0 + 50) && r.violations == vs
    requires r.verdict == VerdictOf(r.scientific, r.clinical, r.robustness, P0Count(vs))
    ensures r == ReportFrom(sci0, cli0, rob0, vs)
  {
  }

  /** `ReportOf` is `ReportFrom` on the scores the failure-usage and
      traceability steps leave. */
  lemma ReportOfScores(weeks: seq<WeekData>, vs: seq<Violation>, sci0: int, rob0: int)
    requires FirstBlocksPresent(weeks)
    requires sci0 == FailureAdjustment(FailureTotal(weeks), FirstBlockTotal(weeks)) - 30 * DeloadFailureWeeks(weeks)
    requires rob0 == TraceBonus(weeks) - 5 * GapWeeks(weeks)
    ensures ReportOf(weeks, vs) == ReportFrom(sci0, 0, rob0, vs)
  {
  }

  /** The report of a completed run over a loaded timeline and the violations
      `check_invariants` found in it, from fresh scores: the failure-usage
      and traceability adjustments, then `ReportFrom`. */
  function ReportOf(weeks: seq<WeekData>, vs: seq<Violation>): Report
    requires FirstBlocksPresent(weeks)
  {
    ReportFrom(
      FailureAdjustment(FailureTotal(weeks), FirstBlockTotal(weeks)) - 30 * DeloadFailureWeeks(weeks),
      0,
      TraceBonus(weeks) - 5 * GapWeeks(weeks),
      vs)
  }

  /** The outcome of the steps after `check_invariants`. */
  function ScoreOf(weeks: seq<WeekData>, vs: seq<Violation>): Result<Report, AuditError> {
    if !FirstBlocksPresent(weeks) then Failure(EmptyFirstBlock)
    else if weeks == [] then Failure(NoWeeks)
    else Success(ReportOf(weeks, vs))
  }

  /** The outcome of `run_audit` over a loaded timeline: the first step that
      raises decides the error. */
  function AuditOf(weeks: seq<WeekData>): Result<Report, AuditError> {
    if !LookupOk(weeks) then Failure(PreviousWeekMissing)
    else ScoreOf(weeks, InvariantViolations(weeks, |weeks|))
  }

  /** A completed run can never reach the top verdict (its scores stay at most
      70, 50 and 70), and it reaches the middle verdict only with no violation
      at all, the +20 failure-rate band, no deload week permitting failure and
      the traceability bonus. */
  lemma ReportCeiling(weeks: seq<WeekData>, vs: seq<Violation>)
    requires FirstBlocksPresent(weeks)
    ensures ReportOf(weeks, vs).verdict != CorrectAndSafe
    ensures ReportOf(weeks, vs).verdict == UsableWithRisk ==>
      && vs == []
      && FailureAdjustment(FailureTotal(weeks), FirstBlockTotal(weeks)) == 20
      && DeloadFailureWeeks(weeks) == 0
      && TraceBonus(weeks) == 20
  {
    ScoreCeiling(FailureAdjustment(FailureTotal(weeks), FirstBlockTotal(weeks)), DeloadFailureWeeks(weeks),
      GapWeeks(weeks), TraceBonus(weeks), vs);
  }

  /** `run_audit` on already loaded documents: a fresh auditor loads them,
      then runs every step in order. */
  method RunAudit(docs: seq<Document>) returns (r: Result<Report, AuditError>)
    ensures NormalizeAll(docs).Failure? ==> r == Failure(Malformed(NormalizeAll(docs).error))
    ensures NormalizeAll(docs).Success? ==> r == AuditOf(NormalizeAll(docs).value)
  {
    var auditor := new LongitudinalAuditor();
    var err := auditor.LoadWeeks(docs);
    if err.Some? {
      return Failure(Malformed(err.value));
    }
    ghost var ws := NormalizeAll(docs).value;
    assert auditor.weeks == ws by {
      assert [] + ws == ws;
    }
    r := auditor.Audit();
  }

  /** The arithmetic behind the verdict of a completed run. */
  lemma ScoreCeiling(adjustment: int, deloads: nat, gaps: nat, bonus: int, vs: seq<Violation>)
    requires adjustment in {-20, -10, 0, 20} && bonus in {0, 20}
    ensures var sci := Clamp(50 + adjustment - 30 * deloads - Penalty(vs));
      var cli := Clamp(50 - Penalty(vs));
      var rob := Clamp(50 - 5 * gaps + bonus);
      && sci + cli + rob < 240
      && (sci + cli + rob >= 180 ==> vs == [] && adjustment == 20 && deloads == 0 && bonus == 20)
  {
    PenaltyCounts(vs);
  }

  lemma Assoc4<T>(o: seq<T>, a: seq<T>, b: seq<T>, c: seq<T>, d: seq<T>)
    ensures (((o + a) + b) + c) + d == o + (((a + b) + c) + d)
  {
  }

}
