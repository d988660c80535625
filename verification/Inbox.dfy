/** The consumer inbox of one organization: each (consumer, event) has its effect applied exactly when its inbox
    row exists, also across restores that are reconciled by replaying an interval of events. */
module Inbox {
  import opened Results

  /** A fiscal event: its semantic id, kind, contract version and payload. */
  datatype Envelope = Envelope(id: nat, kind: nat, version: nat, payload: nat)

  /** (consumer context, semantic event id) */
  type Key = (nat, nat)

  /** `effects` counts how often each business effect has been applied; `markers` are the restores pending. */
  datatype State = State(inbox: map<Key, Envelope>, effects: map<Key, nat>, markers: set<nat>)

  datatype Error = Incompatible | RestorePending | ConflictingReplay | Inconsistent | HandlerFailed | EffectNotProven

  function Count(s: State, k: Key): nat {
    if k in s.effects then s.effects[k] else 0
  }

  /** How the handler and the optional effect check turn out. */
  datatype Outcome = Outcome(handlerOk: bool, verified: bool)

  /** The transaction of `processEventWithInbox`: the new state and whether the event was processed now. */
  function Process(s: State, ctx: nat, e: Envelope, isReconciliation: bool, o: Outcome): Result<(State, bool), Error> {
    var k := (ctx, e.id);
    if !isReconciliation && ctx in s.markers then Err(RestorePending)
    else if k in s.inbox then
      if s.inbox[k] != e then Err(ConflictingReplay)
      else if !o.verified then Err(Inconsistent)
      else Ok((s, false))
    else if !o.handlerOk then Err(HandlerFailed)
    else if !o.verified then Err(EffectNotProven)
    else Ok((s.(inbox := s.inbox[k := e], effects := s.effects[k := Count(s, k) + 1]), true))
  }

  /* Runs, with any number of reconciliations under way. */

  /** A reconciliation between two of its transactions. */
  datatype Job = Job(ctx: nat, events: seq<Envelope>, done: nat)

  datatype System = System(state: State, jobs: map<nat, Job>)

  datatype Step =
    | Deliver(ctx: nat, event: Envelope, outcome: Outcome)
    | MarkPending(ctx: nat)
    | ClearPending(ctx: nat)
    | StartReconcile(job: nat, ctx: nat, events: seq<Envelope>)
    | ReconcileNext(job: nat, outcome: Outcome)
    | ReconcileEnd(job: nat)
    | CrashJob(job: nat)

  function Next(y: System, step: Step): System {
    var s := y.state;
    match step
    case Deliver(ctx, e, o) =>
      (match Process(s, ctx, e, false, o) case Ok(r) => y.(state := r.0) case Err(_) => y)
    case MarkPending(ctx) => y.(state := s.(markers := s.markers + {ctx}))
    case ClearPending(ctx) => y.(state := s.(markers := s.markers - {ctx}))
    case StartReconcile(j, ctx, events) => if j in y.jobs then y else y.(jobs := y.jobs[j := Job(ctx, events, 0)])
    case ReconcileNext(j, o) =>
      if j !in y.jobs || y.jobs[j].done >= |y.jobs[j].events| then y else
        var job := y.jobs[j];
        (match Process(s, job.ctx, job.events[job.done], true, o)
         case Ok(r) => System(r.0, y.jobs[j := job.(done := job.done + 1)])
         case Err(_) => y.(jobs := y.jobs - {j}))
    case ReconcileEnd(j) =>
      if j !in y.jobs || y.jobs[j].done < |y.jobs[j].events| then y
      else System(s.(markers := s.markers - {y.jobs[j].ctx}), y.jobs - {j})
    case CrashJob(j) => y.(jobs := y.jobs - {j})
  }

  function Run(y: System, steps: seq<Step>): System {
    if steps == [] then y else Next(Run(y, steps[..|steps| - 1]), steps[|steps| - 1])
  }

  /** Inbox and effects agree: what a restore that brings both back together guarantees. */
  ghost predicate Agrees(s: State) {
    forall k: Key :: Count(s, k) == if k in s.inbox then 1 else 0
  }

  /** The event's row is there and its effect has been applied exactly once. */
  predicate Applied(s: State, ctx: nat, e: Envelope) {
    (ctx, e.id) in s.inbox && s.inbox[(ctx, e.id)] == e && Count(s, (ctx, e.id)) == 1
  }

  predicate JobOk(s: State, job: Job) {
    job.done <= |job.events| && forall i | 0 <= i < job.done :: Applied(s, job.ctx, job.events[i])
  }

  ghost predicate Inv(y: System) {
    Agrees(y.state) && forall j | j in y.jobs :: JobOk(y.state, y.jobs[j])
  }

  /** Rows and effects are never taken back. */
  ghost predicate Grows(s: State, t: State) {
    forall k | k in s.inbox :: k in t.inbox && t.inbox[k] == s.inbox[k]
  }

  lemma AppliedStays(s: State, t: State, ctx: nat, e: Envelope)
    requires Applied(s, ctx, e) && Grows(s, t) && Agrees(t)
    ensures Applied(t, ctx, e)
  {
  }

  lemma JobStaysOk(s: State, t: State, job: Job)
    requires JobOk(s, job) && Grows(s, t) && Agrees(t)
    ensures JobOk(t, job)
  {
    forall i | 0 <= i < job.done
      ensures Applied(t, job.ctx, job.events[i])
    {
      AppliedStays(s, t, job.ctx, job.events[i]);
    }
  }

  lemma ProcessKeeps(s: State, ctx: nat, e: Envelope, isReconciliation: bool, o: Outcome)
    requires Agrees(s) && Process(s, ctx, e, isReconciliation, o).Ok?
    ensures var t := Process(s, ctx, e, isReconciliation, o).value.0;
            Agrees(t) && Grows(s, t) && Applied(t, ctx, e) && t.markers == s.markers
  {
  }

  lemma StateStep(y: System, t: State)
    requires Inv(y) && Agrees(t) && Grows(y.state, t)
    ensures Inv(y.(state := t))
  {
    forall j | j in y.jobs
      ensures JobOk(t, y.jobs[j])
    {
      JobStaysOk(y.state, t, y.jobs[j]);
    }
  }

  lemma NextKeepsInv(y: System, step: Step)
    requires Inv(y)
    ensures Inv(Next(y, step)) && Grows(y.state, Next(y, step).state)
  {
    match step {
      case Deliver(ctx, e, o) =>
        if Process(y.state, ctx, e, false, o).Ok? {
          ProcessKeeps(y.state, ctx, e, false, o);
          StateStep(y, Process(y.state, ctx, e, false, o).value.0);
          hide Process;
        }
      case ReconcileNext(j, o) => ReconcileKeepsInv(y, j, o);
      case _ => MarkersKeepInv(y, step);
    }
  }

  lemma MarkersKeepInv(y: System, step: Step)
    requires Inv(y) && !step.Deliver? && !step.ReconcileNext?
    ensures Inv(Next(y, step)) && Grows(y.state, Next(y, step).state)
  {
    var t := Next(y, step).state;
    assert t.inbox == y.state.inbox && t.effects == y.state.effects;
    forall j | j in Next(y, step).jobs
      ensures JobOk(t, Next(y, step).jobs[j])
    {
      if j in y.jobs {
        JobStaysOk(y.state, t, y.jobs[j]);
      }
    }
  }

  lemma ReconcileKeepsInv(y: System, j: nat, o: Outcome)
    requires Inv(y)
    ensures var y' := Next(y, ReconcileNext(j, o)); Inv(y') && Grows(y.state, y'.state)
  {
    if j in y.jobs && y.jobs[j].done < |y.jobs[j].events| {
      var job := y.jobs[j];
      var e := job.events[job.done];
      if Process(y.state, job.ctx, e, true, o).Ok? {
        ProcessKeeps(y.state, job.ctx, e, true, o);
        var t := Process(y.state, job.ctx, e, true, o).value.0;
        StateStep(y, t);
        hide Process;
        assert JobOk(t, job.(done := job.done + 1));
      }
    }
  }

  /** From any state where inbox and effects were restored together, in every run and interleaving, each effect is
      applied at most once, and exactly when its inbox row is present. */
  lemma {:induction false} RunKeepsInv(y: System, steps: seq<Step>)
    requires Inv(y)
    ensures Inv(Run(y, steps)) && Grows(y.state, Run(y, steps).state)
  {
    if steps != [] {
      RunKeepsInv(y, steps[..|steps| - 1]);
      NextKeepsInv(Run(y, steps[..|steps| - 1]), steps[|steps| - 1]);
      hide Next, Inv;
    }
  }

  /** While a restore is pending for a consumer, its normal deliveries change nothing. */
  lemma PendingBlocksDeliveries(y: System, ctx: nat, e: Envelope, o: Outcome)
    requires ctx in y.state.markers
    ensures Next(y, Deliver(ctx, e, o)) == y
  {
  }

  /** When a reconciliation ends, every event of its interval is applied exactly once, whatever ran in between,
      and from then on; only then is the marker removed. */
  lemma ReconciledIntervalIsApplied(y: System, before: seq<Step>, j: nat, after: seq<Step>, i: nat)
    requires Inv(y) && j in Run(y, before).jobs
    requires var job := Run(y, before).jobs[j]; job.done == |job.events| && i < |job.events|
    ensures var job := Run(y, before).jobs[j];
            && job.ctx !in Next(Run(y, before), ReconcileEnd(j)).state.markers
            && Applied(Run(Next(Run(y, before), ReconcileEnd(j)), after).state, job.ctx, job.events[i])
  {
    RunKeepsInv(y, before);
    var r := Run(y, before);
    hide Run;
    var job := r.jobs[j];
    NextKeepsInv(r, ReconcileEnd(j));
    var ended := Next(r, ReconcileEnd(j));
    assert JobOk(r.state, job);
    AppliedStays(r.state, ended.state, job.ctx, job.events[i]);
    RunKeepsInv(ended, after);
    AppliedStays(ended.state, Run(ended, after).state, job.ctx, job.events[i]);
  }
}
