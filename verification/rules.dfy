/** The fixed classifications and arithmetic of the longitudinal audit:
    the MRV table, the signal and response classifiers and their coherence
    table, population variance, the failure-rate ladder, the clamp and the
    verdict tiers (auditor_longitudinal.py). Feedback values, means, rates
    and variances are exact reals. */
module Rules {
  import opened WeekParse

  /** The MRV reference dictionary of `check_invariants`: the maximum
      recoverable weekly sets of each listed muscle. */
  const MrvLimits: map<string, int> := map[
    "chest" := 22, "back" := 25, "shoulders" := 20, "quads" := 20,
    "hamstrings" := 16, "glutes" := 18, "biceps" := 14, "triceps" := 18]

  /** `MRV.get(muscle, 25)`: the listed limit of a listed muscle, the default
      25 for any other; every limit lies between 14 and 25 sets. */
  function Mrv(muscle: string): (r: int)
    ensures muscle in MrvLimits ==> r == MrvLimits[muscle]
    ensures muscle !in MrvLimits ==> r == 25
    ensures 14 <= r <= 25
  {
    if muscle in MrvLimits then MrvLimits[muscle] else 25
  }

  /** The physiological signal of a week's feedback. */
  datatype Signal = Negativa | Positiva | Ambigua

  /** The direction of the next week's mean volume. */
  datatype Response = Progresion | Reduccion | Mantiene

  /** The signal classification of `check_directionality`: NEGATIVA exactly on
      high fatigue or low adherence, POSITIVA exactly on low fatigue with high
      adherence (that branch is never shadowed by the first), AMBIGUA otherwise. */
  function SignalOf(fatigue: real, adherence: real): (s: Signal)
    ensures s == Negativa <==> fatigue >= 8.0 || adherence < 0.75
    ensures s == Positiva <==> fatigue <= 5.0 && adherence >= 0.85
  {
    if fatigue >= 8.0 || adherence < 0.75 then Negativa
    else if fatigue <= 5.0 && adherence >= 0.85 then Positiva
    else Ambigua
  }

  /** The response classification: MANTIENE exactly inside the ±2 band. */
  function ResponseOf(delta: real): (r: Response)
    ensures r == Progresion <==> delta > 2.0
    ensures r == Reduccion <==> delta < -2.0
    ensures r == Mantiene <==> -2.0 <= delta <= 2.0
  {
    if delta > 2.0 then Progresion
    else if delta < -2.0 then Reduccion
    else Mantiene
  }

  /** Position of a response on the volume axis. */
  function Rank(r: Response): int {
    match r
    case Reduccion => -1
    case Mantiene => 0
    case Progresion => 1
  }

  /** A larger change in mean volume never gets a lower response. */
  lemma ResponseMonotone(d1: real, d2: real)
    requires d1 <= d2
    ensures Rank(ResponseOf(d1)) <= Rank(ResponseOf(d2))
  {
  }

  /** `_is_coherent`: a NEGATIVA signal rejects only PROGRESIÓN, a POSITIVA signal
      rejects only REDUCCIÓN, and AMBIGUA accepts every response. */
  function IsCoherent(s: Signal, r: Response): (ok: bool)
    ensures !ok <==> (s == Negativa && r == Progresion) || (s == Positiva && r == Reduccion)
    ensures s == Ambigua ==> ok
    ensures r == Mantiene ==> ok
  {
    match s
    case Negativa => r == Reduccion || r == Mantiene
    case Positiva => r == Progresion || r == Mantiene
    case Ambigua => true
  }

  /** After a week of fatigue 8 or more the next week is coherent exactly when
      its mean volume does not rise by more than 2 sets. */
  lemma HighFatigueCoherence(fatigue: real, adherence: real, delta: real)
    requires fatigue >= 8.0
    ensures IsCoherent(SignalOf(fatigue, adherence), ResponseOf(delta)) <==> delta <= 2.0
  {
  }

  /** `sum(v.values()) / max(len(v), 1)`: the mean sets per muscle of a week. */
  function MeanVolume(v: Volume): real {
    Total(v) as real / (if |v| > 1 then |v| else 1) as real
  }

  function Sum(xs: seq<real>): real {
    if xs == [] then 0.0 else xs[0] + Sum(xs[1..])
  }

  lemma SquareNonNegative(d: real)
    ensures d * d >= 0.0
  {
    if d < 0.0 {
      assert d * d == (-d) * (-d);
    }
  }

  /** Sum of squared deviations from `m`; never negative. */
  function SquaredDeviations(xs: seq<real>, m: real): (r: real)
    ensures r >= 0.0
  {
    if xs == [] then 0.0
    else
      SquareNonNegative(xs[0] - m);
      (xs[0] - m) * (xs[0] - m) + SquaredDeviations(xs[1..], m)
  }

  /** `_variance`: population variance, 0 below two samples, never negative. */
  function Variance(xs: seq<real>): (r: real)
    ensures r >= 0.0
    ensures |xs| < 2 ==> r == 0.0
  {
    if |xs| < 2 then 0.0
    else
      var m := Sum(xs) / |xs| as real;
      SquaredDeviations(xs, m) / |xs| as real
  }

  predicate Constant(xs: seq<real>, c: real) {
    forall i :: 0 <= i < |xs| ==> xs[i] == c
  }

  lemma {:induction false} SumConstant(xs: seq<real>, c: real)
    requires Constant(xs, c)
    ensures Sum(xs) == |xs| as real * c
  {
    if xs != [] {
      SumConstant(xs[1..], c);
    }
  }

  lemma {:induction false} DeviationsFromConstant(xs: seq<real>, c: real)
    requires Constant(xs, c)
    ensures SquaredDeviations(xs, c) == 0.0
  {
    if xs != [] {
      DeviationsFromConstant(xs[1..], c);
    }
  }

  /** A constant series of weekly volumes has variance 0. */
  lemma VarianceOfConstant(xs: seq<real>, c: real)
    requires Constant(xs, c)
    ensures Variance(xs) == 0.0
  {
    if |xs| >= 2 {
      SumConstant(xs, c);
      assert Sum(xs) / |xs| as real == c;
      DeviationsFromConstant(xs, c);
    }
  }

  /** The chest series 10, 20, 10 has variance 200/9 (about 22.2). */
  lemma VarianceExample()
    ensures Variance([10.0, 20.0, 10.0]) == 200.0 / 9.0
  {
    var xs := [10.0, 20.0, 10.0];
    assert xs[1..] == [20.0, 10.0] && xs[1..][1..] == [10.0];
    assert Sum(xs) == 40.0;
    var m := 40.0 / 3.0;
    assert SquaredDeviations(xs, m) == 200.0 / 3.0;
  }

  /** `(total_with_failure / total_prescriptions) * 100` */
  function FailureRate(withFailure: nat, total: nat): real
    requires total > 0
  {
    (withFailure as real / total as real) * 100.0
  }

  /** The scientific-score change of the failure-rate ladder of
      `check_failure_usage`, in whole numbers: nothing without prescriptions,
      −20 when 100·f > 15·t, −10 when 100·f > 10·t, +20 otherwise. */
  function FailureAdjustment(withFailure: nat, total: nat): (d: int)
    ensures total == 0 ==> d == 0
    ensures d in {-20, -10, 0, 20}
  {
    if total == 0 then 0
    else if 100 * withFailure > 15 * total then -20
    else if 100 * withFailure > 10 * total then -10
    else 20
  }

  /** The whole-number bands are the ladder on the rate: −20 above 15 %,
      −10 above 10 %, +20 otherwise. */
  lemma FailureAdjustmentLadder(withFailure: nat, total: nat)
    requires total > 0
    ensures FailureAdjustment(withFailure, total) ==
      if FailureRate(withFailure, total) > 15.0 then -20
      else if FailureRate(withFailure, total) > 10.0 then -10
      else 20
  {
    RateAbove(withFailure, total, 15);
    RateAbove(withFailure, total, 10);
  }

  /** More failure prescriptions never earn a better adjustment. */
  lemma FailureAdjustmentMonotone(w1: nat, w2: nat, total: nat)
    requires w1 <= w2
    ensures FailureAdjustment(w2, total) <= FailureAdjustment(w1, total)
  {
  }

  /** The rate exceeds `bound` percent exactly when `100·f > bound·t`. */
  lemma RateAbove(withFailure: nat, total: nat, bound: nat)
    requires total > 0
    ensures FailureRate(withFailure, total) > bound as real <==> 100 * withFailure > bound * total
  {
    var f, t := withFailure as real, total as real;
    var q := f / t;
    assert q * t == f;
    var rate := q * 100.0;
    assert rate * t == 100.0 * f by {
      assert rate * t == (q * t) * 100.0;
    }
    ScaleCompare(rate, bound as real, t);
    assert (bound * total) as real == bound as real * t;
  }

  lemma ScaleCompare(x: real, y: real, t: real)
    requires t > 0.0
    ensures x > y <==> x * t > y * t
  {
    if x > y {
      assert (x - y) * t > 0.0;
    } else {
      assert (y - x) * t >= 0.0;
    }
  }

  /** `max(0, min(100, x))` */
  function Clamp(x: int): (r: int)
    ensures 0 <= r <= 100
    ensures 0 <= x <= 100 ==> r == x
    ensures x < 0 ==> r == 0
    ensures x > 100 ==> r == 100
  {
    if x < 0 then 0 else if x > 100 then 100 else x
  }

  /** The three verdicts of `generate_report`. */
  datatype Verdict = CorrectAndSafe | UsableWithRisk | IncorrectOrDangerous

  function Average(scientific: int, clinical: int, robustness: int): real {
    (scientific + clinical + robustness) as real / 3.0
  }

  /** The verdict: the top tier needs an average of 80 and no P0 violation,
      the middle tier an average of 60. */
  function VerdictOf(scientific: int, clinical: int, robustness: int, p0Count: nat): (v: Verdict)
    ensures v == CorrectAndSafe <==> scientific + clinical + robustness >= 240 && p0Count == 0
    ensures v == IncorrectOrDangerous <==> scientific + clinical + robustness < 180
  {
    var avg := Average(scientific, clinical, robustness);
    if avg >= 80.0 && p0Count == 0 then CorrectAndSafe
    else if avg >= 60.0 then UsableWithRisk
    else IncorrectOrDangerous
  }

  /** The closing narrative of `generate_report`, chosen by the average alone. */
  function NarrativeOf(scientific: int, clinical: int, robustness: int): (v: Verdict)
    ensures v == CorrectAndSafe <==> scientific + clinical + robustness >= 240
  {
    var avg := Average(scientific, clinical, robustness);
    if avg >= 80.0 then CorrectAndSafe
    else if avg >= 60.0 then UsableWithRisk
    else IncorrectOrDangerous
  }

  /** Narrative and verdict agree whenever there is no P0 violation; with a P0
      violation and an average of 80 or more they disagree. */
  lemma NarrativeMatchesVerdict(scientific: int, clinical: int, robustness: int, p0Count: nat)
    ensures p0Count == 0 ==> NarrativeOf(scientific, clinical, robustness) == VerdictOf(scientific, clinical, robustness, p0Count)
    ensures p0Count > 0 && scientific + clinical + robustness >= 240 ==>
      NarrativeOf(scientific, clinical, robustness) == CorrectAndSafe &&
      VerdictOf(scientific, clinical, robustness, p0Count) == UsableWithRisk
  {
  }
}
