/** Approval workflows: the state of a workflow as its reviewers decide one step after another. */
module Workflow {
  import opened Common

  datatype Decision = Pending | Approved | Rejected

  datatype State = InReview | AllApproved | AnyRejected

  /** A workflow: its steps' decisions in sequence, its state, and the status mirrored into the file. */
  datatype Flow = Flow(steps: seq<Decision>, state: State, fileStatus: State)

  /** What the roll-up comment promises: any rejection rejects, all approvals approve, else still in review. */
  function RollUp(steps: seq<Decision>): State {
    if Rejected in steps then AnyRejected
    else if steps != [] && forall i | 0 <= i < |steps| :: steps[i] == Approved then AllApproved
    else InReview
  }

  /** `decide_step` by the step's own reviewer: the state only ever moves to a final one. */
  function Decide(f: Flow, i: nat, d: Decision): (Flow, Result<()>) {
    if d.Pending? then (f, Err(BadRequest))
    else if i >= |f.steps| then (f, Err(NotFound))
    else
      var steps := f.steps[i := d];
      var state := RollUp(steps);
      (if state.InReview? then f.(steps := steps) else Flow(steps, state, state), Ok(()))
  }

  datatype Choice = Choice(step: nat, decision: Decision)

  function Run(f: Flow, choices: seq<Choice>): Flow {
    if choices == [] then f
    else
      var last := choices[|choices| - 1];
      Decide(Run(f, choices[..|choices| - 1]), last.step, last.decision).0
  }

  ghost predicate Consistent(f: Flow) { f.state == RollUp(f.steps) && f.fileStatus == f.state }

  /** A decision leaves the state equal to the roll-up exactly when it does not take back what made it final. */
  lemma DecisionKeepsRollUpIff(f: Flow, i: nat, d: Decision)
    requires Consistent(f) && i < |f.steps| && !d.Pending?
    ensures Consistent(Decide(f, i, d).0) <==> f.state.InReview? || !RollUp(f.steps[i := d]).InReview?
  {
  }

  /** No step is decided twice. */
  predicate Once(choices: seq<Choice>) { forall i, j | 0 <= i < j < |choices| :: choices[i].step != choices[j].step }

  lemma {:induction false} UndecidedIsPending(n: nat, choices: seq<Choice>, step: nat)
    requires step < n && forall i | 0 <= i < |choices| :: choices[i].step != step
    ensures var f := Run(Started(n), choices); |f.steps| == n && f.steps[step] == Pending
  {
    if choices != [] { UndecidedIsPending(n, choices[..|choices| - 1], step); }
  }

  function Started(reviewers: nat): Flow { Flow(seq(reviewers, _ => Pending), InReview, InReview) }

  lemma PendingBecomes(f: Flow, i: nat, d: Decision)
    requires Consistent(f) && i < |f.steps| && f.steps[i] == Pending && !d.Pending?
    ensures Consistent(Decide(f, i, d).0)
  {
    var steps := f.steps[i := d];
    if f.state.AnyRejected? {
      var j :| 0 <= j < |f.steps| && f.steps[j] == Rejected;
      assert steps[j] == Rejected;
    }
  }

  /** While each step is decided at most once, the state and the file's status are the roll-up of the decisions. */
  lemma {:induction false} DecidedOnceIsRollUp(reviewers: nat, choices: seq<Choice>)
    requires Once(choices)
    ensures Consistent(Run(Started(reviewers), choices)) && |Run(Started(reviewers), choices).steps| == reviewers
  {
    if choices == [] {
      var f := Started(reviewers);
      assert forall d | d in f.steps :: d == Pending;
      assert reviewers > 0 ==> f.steps[0] == Pending;
    } else {
      var n := |choices| - 1;
      var before := choices[..n];
      var last := choices[n];
      assert forall i | 0 <= i < n :: before[i] == choices[i];
      DecidedOnceIsRollUp(reviewers, before);
      if last.step < reviewers && !last.decision.Pending? {
        UndecidedIsPending(reviewers, before, last.step);
        PendingBecomes(Run(Started(reviewers), before), last.step, last.decision);
      }
    }
  }

  /** Someone decided the step so. */
  ghost predicate Decided(choices: seq<Choice>, step: nat, d: Decision) {
    exists i :: 0 <= i < |choices| && choices[i] == Choice(step, d)
  }

  lemma {:induction false} StepIsItsChoice(n: nat, choices: seq<Choice>, step: nat, d: Decision)
    requires Once(choices) && step < n && !d.Pending?
    ensures |Run(Started(n), choices).steps| == n
    ensures Run(Started(n), choices).steps[step] == d <==> Decided(choices, step, d)
  {
    if choices != [] {
      var m := |choices| - 1;
      var before, last := choices[..m], choices[m];
      assert forall i | 0 <= i < m :: before[i] == choices[i];
      StepIsItsChoice(n, before, step, d);
      if Decided(before, step, d) {
        var i :| 0 <= i < m && before[i] == Choice(step, d);
        assert choices[i] == Choice(step, d);
      }
      if last == Choice(step, d) { assert choices[m] == Choice(step, d); }
      if last.step == step && !last.decision.Pending? { UndecidedIsPending(n, before, step); }
    }
  }

  /**
   While each step is decided at most once, the workflow is rejected exactly when some reviewer rejected, and approved
   exactly when there are reviewers and each of them approved.
   */
  lemma StateIsTheDecisions(reviewers: nat, choices: seq<Choice>)
    requires Once(choices)
    ensures var f := Run(Started(reviewers), choices);
            && f.fileStatus == f.state
            && (f.state.AnyRejected? <==> exists step: nat :: step < reviewers && Decided(choices, step, Rejected))
            && (f.state.AllApproved? <==>
                  reviewers > 0 && forall step: nat | step < reviewers :: Decided(choices, step, Approved))
  {
    var f := Run(Started(reviewers), choices);
    DecidedOnceIsRollUp(reviewers, choices);
    forall step: nat | step < reviewers
      ensures f.steps[step] == Rejected <==> Decided(choices, step, Rejected)
      ensures f.steps[step] == Approved <==> Decided(choices, step, Approved)
    {
      StepIsItsChoice(reviewers, choices, step, Rejected);
      StepIsItsChoice(reviewers, choices, step, Approved);
    }
    if Rejected in f.steps {
      var i :| 0 <= i < |f.steps| && f.steps[i] == Rejected;
      assert Decided(choices, i, Rejected);
    }
  }

  /** Whatever is decided and decided again, a standing rejection means rejected and full approval approved. */
  lemma {:induction false} FinalDecisionsShow(f: Flow, choices: seq<Choice>)
    requires Consistent(f)
    ensures var g := Run(f, choices);
            g.fileStatus == g.state && (RollUp(g.steps).InReview? || g.state == RollUp(g.steps))
  {
    if choices != [] { FinalDecisionsShow(f, choices[..|choices| - 1]); }
  }

  class Review {
    var reviewers: seq<string>
    var steps: seq<Decision>
    var state: State
    var fileStatus: State

    function View(): Flow
      reads this
    {
      Flow(steps, state, fileStatus)
    }

    constructor (fileStatus: State)
      ensures reviewers == [] && View() == Flow([], InReview, fileStatus)
    {
      reviewers, steps, state, this.fileStatus := [], [], InReview, fileStatus;
    }

    /** `start_workflow`: one pending step for each reviewer, in order. */
    method StartWorkflow(ids: seq<string>) returns (r: Result<()>)
      modifies this
      ensures r.Ok? <==> ids != []
      ensures r.Ok? ==> reviewers == ids && View() == Started(|ids|)
      ensures r.Err? ==> reviewers == old(reviewers) && View() == old(View())
    {
      if ids == [] { return Err(BadRequest); }
      reviewers, steps, state := [], [], InReview;
      for i := 0 to |ids|
        invariant reviewers == ids[..i] && |steps| == i && (forall j | 0 <= j < i :: steps[j] == Pending)
        invariant state == InReview
      {
        reviewers, steps := reviewers + [ids[i]], steps + [Pending];
      }
      fileStatus := InReview;
      r := Ok(());
    }

    /** `decide_step`: only the step's own reviewer decides; deciding again is allowed. */
    method DecideStep(user: string, i: nat, d: Decision) returns (r: Result<()>)
      requires |reviewers| == |steps|
      modifies this
      ensures reviewers == old(reviewers) && |reviewers| == |steps|
      ensures !d.Pending? && i < |steps| && reviewers[i] != user ==> r == Err(Forbidden) && View() == old(View())
      ensures d.Pending? || i >= |steps| || reviewers[i] == user ==> (View(), r) == Decide(old(View()), i, d)
    {
      if d.Pending? { return Err(BadRequest); }
      if i >= |steps| { return Err(NotFound); }
      if reviewers[i] != user { return Err(Forbidden); }
      steps := steps[i := d];
      var anyRejected := Rejected in steps;
      var allApproved := forall j | 0 <= j < |steps| :: steps[j] == Approved;
      if anyRejected {
        state, fileStatus := AnyRejected, AnyRejected;
      } else if allApproved {
        state, fileStatus := AllApproved, AllApproved;
      }
      r := Ok(());
    }
  }
}
