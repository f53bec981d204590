/** The weekly snapshot document produced by the training engine, as the
    auditor reads it: `weekNumber`, an optional `feedbackInput`, a `plan`
    whose `weeks` blocks hold sessions of prescriptions, and the decision trace.
    Keys the auditor reads with a default are `Option`s or empty sequences. */
module Snapshot {
  import opened Wrappers

  /** One prescription of a session. `muscle` and `exercise` are the `name` of
      `muscleGroup` and `exercise` (absent when either level is missing);
      `techniques` is empty when the key is absent. */
  datatype Prescription = Prescription(
    muscle: Option<string>,
    exercise: Option<string>,
    sets: Option<int>,
    allowFailureOnLastSet: bool,
    techniques: seq<string>)

  datatype Session = Session(prescriptions: seq<Prescription>)

  /** One entry of `plan.weeks`. */
  datatype Block = Block(sessions: seq<Session>)

  /** `weeks` is `None` when the plan has no `weeks` key, which the auditor
      treats differently from an empty list. */
  datatype Plan = Plan(weeks: Option<seq<Block>>)

  /** The `context` of a decision, with the three keys the auditor reads. */
  datatype Context = Context(
    phase: Option<string>,
    fatigueExpectation: Option<string>,
    rirTarget: Option<real>)

  datatype Decision = Decision(category: Option<string>, context: Option<Context>)

  /** Subjective feedback. `otherKeys` records whether the object carries keys
      other than the two the auditor reads: an object with no key at all is
      falsy in Python and counts as "no feedback". */
  datatype Feedback = Feedback(fatigue: Option<real>, adherence: Option<real>, otherKeys: bool) {
    predicate Truthy() {
      fatigue.Some? || adherence.Some? || otherKeys
    }
    /** `feedback.get('fatigue', 5.0)` */
    function Fatigue(): real { fatigue.GetOr(5.0) }
    /** `feedback.get('adherence', 1.0)` */
    function Adherence(): real { adherence.GetOr(1.0) }
  }

  /** One weekly JSON document; the three required keys may be missing. */
  datatype Document = Document(
    weekNumber: Option<int>,
    feedbackInput: Option<Feedback>,
    plan: Option<Plan>,
    decisions: Option<seq<Decision>>)

  /** Every prescription of a sequence of sessions, in order. */
  function SessionPrescriptions(ss: seq<Session>): (ps: seq<Prescription>)
    ensures forall p :: p in ps <==> exists s :: s in ss && p in s.prescriptions
  {
    if ss == [] then []
    else
      var init := ss[..|ss| - 1];
      assert forall s :: s in ss <==> s in init || s == ss[|ss| - 1];
      SessionPrescriptions(init) + ss[|ss| - 1].prescriptions
  }

  /** Every prescription of every session of every block, in order. */
  function BlockPrescriptions(bs: seq<Block>): (ps: seq<Prescription>)
    ensures forall p :: p in ps <==> exists b, s :: b in bs && s in b.sessions && p in s.prescriptions
  {
    if bs == [] then []
    else
      var init := bs[..|bs| - 1];
      assert forall b :: b in bs <==> b in init || b == bs[|bs| - 1];
      BlockPrescriptions(init) + SessionPrescriptions(bs[|bs| - 1].sessions)
  }

  /** The prescriptions the snapshot parser walks: those of `plan.weeks`, none when absent. */
  function AllPrescriptions(plan: Plan): seq<Prescription> {
    BlockPrescriptions(plan.weeks.GetOr([]))
  }
}
