/** Restores over whole runs: what a pending marker blocks, how it goes away, and that a reconciliation can be run
    again amid everything else. */
module InboxRuns {
  import opened Inbox

  /* A pending restore blocks its consumer's deliveries. */

  /** The marker is set before every step. */
  ghost predicate PendingThroughout(y: System, steps: seq<Step>, ctx: nat) {
    forall n | 0 <= n < |steps| :: PendingAt(y, steps, n, ctx)
  }

  predicate PendingAt(y: System, steps: seq<Step>, n: nat, ctx: nat)
    requires n <= |steps|
  {
    ctx in Run(y, steps[..n]).state.markers
  }

  predicate IsDelivery(step: Step, ctx: nat) {
    step.Deliver? && step.ctx == ctx
  }

  function WithoutDeliveries(steps: seq<Step>, ctx: nat): seq<Step> {
    if steps == [] then [] else
      var n := |steps| - 1;
      WithoutDeliveries(steps[..n], ctx) + if IsDelivery(steps[n], ctx) then [] else [steps[n]]
  }

  /** While a restore is pending, a run with deliveries to that consumer is the run without them. */
  lemma {:induction false} PendingRunIgnoresDeliveries(y: System, steps: seq<Step>, ctx: nat)
    requires PendingThroughout(y, steps, ctx)
    ensures Run(y, steps) == Run(y, WithoutDeliveries(steps, ctx))
  {
    hide Next;
    if steps != [] {
      var n := |steps| - 1;
      PendingBefore(y, steps, ctx);
      PendingRunIgnoresDeliveries(y, steps[..n], ctx);
      var kept := WithoutDeliveries(steps[..n], ctx);
      if IsDelivery(steps[n], ctx) {
        assert steps[n] == Deliver(ctx, steps[n].event, steps[n].outcome);
        PendingBlocksDeliveries(Run(y, steps[..n]), ctx, steps[n].event, steps[n].outcome);
        assert kept + [] == kept;
      } else {
        assert (kept + [steps[n]])[..|kept|] == kept;
      }
    }
  }

  lemma PendingBefore(y: System, steps: seq<Step>, ctx: nat)
    requires PendingThroughout(y, steps, ctx) && steps != []
    ensures PendingThroughout(y, steps[..|steps| - 1], ctx) && ctx in Run(y, steps[..|steps| - 1]).state.markers
  {
    hide Run;
    var last := |steps| - 1;
    assert PendingAt(y, steps, last, ctx);
    forall n | 0 <= n < last
      ensures PendingAt(y, steps[..last], n, ctx)
    {
      assert PendingAt(y, steps, n, ctx);
      assert steps[..last][..n] == steps[..n];
    }
  }

  /* What a delivery does. */

  /** After any run, a delivery leaves its event applied exactly once if and only if the event's row is already there,
      or none of that id is, no restore is pending for the consumer, the handler succeeds and the effect is verified. */
  lemma DeliveredExactly(y: System, steps: seq<Step>, ctx: nat, e: Envelope, o: Outcome)
    requires Inv(y)
    ensures var s := Run(y, steps).state;
            var k := (ctx, e.id);
            Applied(Run(y, steps + [Deliver(ctx, e, o)]).state, ctx, e) <==>
              if k in s.inbox then s.inbox[k] == e else ctx !in s.markers && o.handlerOk && o.verified
  {
    RunKeepsInv(y, steps);
    var step := Deliver(ctx, e, o);
    assert (steps + [step])[..|steps|] == steps;
    var before := Run(y, steps);
    assert Run(y, steps + [step]) == Next(before, step);
    hide Run;
    assert Count(before.state, (ctx, e.id)) == if (ctx, e.id) in before.state.inbox then 1 else 0;
  }

  /* How a marker goes away. */

  /** The step ends a reconciliation of the consumer whose events have all been processed. */
  predicate EndsReconciliation(y: System, step: Step, ctx: nat) {
    && step.ReconcileEnd? && step.job in y.jobs && y.jobs[step.job].ctx == ctx
    && y.jobs[step.job].done >= |y.jobs[step.job].events|
  }

  lemma MarkerRemovedExactly(y: System, step: Step, ctx: nat)
    requires ctx in y.state.markers
    ensures ctx !in Next(y, step).state.markers <==> step == ClearPending(ctx) || EndsReconciliation(y, step, ctx)
  {
  }

  /** A marker that was set and is gone was cleared by hand, or by the end of a reconciliation that processed its
      whole interval; no failure, crash or delivery removes it. */
  lemma {:induction false} MarkerLeavesOnlyWhenDone(y: System, steps: seq<Step>, ctx: nat) returns (n: nat)
    requires ctx in y.state.markers && ctx !in Run(y, steps).state.markers
    ensures n < |steps| && ctx in Run(y, steps[..n]).state.markers
    ensures steps[n] == ClearPending(ctx) || EndsReconciliation(Run(y, steps[..n]), steps[n], ctx)
  {
    hide Next, EndsReconciliation;
    n := |steps| - 1;
    if ctx in Run(y, steps[..n]).state.markers {
      MarkerRemovedExactly(Run(y, steps[..n]), steps[n], ctx);
    } else {
      var last := n;
      n := MarkerLeavesOnlyWhenDone(y, steps[..last], ctx);
      assert steps[..last][..n] == steps[..n];
    }
  }

  /** In a run that never clears a marker by hand, a marker that is gone means that some interval of the consumer was
      reconciled: all its events are applied exactly once. */
  lemma MarkerGoneMeansApplied(y: System, steps: seq<Step>, ctx: nat) returns (n: nat, job: Job)
    requires Inv(y) && ctx in y.state.markers && ctx !in Run(y, steps).state.markers && ClearPending(ctx) !in steps
    ensures n < |steps| && EndsReconciliation(Run(y, steps[..n]), steps[n], ctx)
    ensures job == Run(y, steps[..n]).jobs[steps[n].job]
    ensures forall i | 0 <= i < |job.events| :: Applied(Run(y, steps).state, ctx, job.events[i])
  {
    n := MarkerLeavesOnlyWhenDone(y, steps, ctx);
    hide Run, Next;
    job := Run(y, steps[..n]).jobs[steps[n].job];
    RunKeepsInv(y, steps[..n]);
    assert JobOk(Run(y, steps[..n]).state, job);
    RunJoins(y, steps, n);
    RunKeepsInv(Run(y, steps[..n]), steps[n..]);
    forall i | 0 <= i < |job.events|
      ensures Applied(Run(y, steps).state, ctx, job.events[i])
    {
      AppliedStays(Run(y, steps[..n]).state, Run(y, steps).state, ctx, job.events[i]);
    }
  }

  lemma {:induction false} RunJoins(y: System, steps: seq<Step>, n: nat)
    requires n <= |steps|
    ensures Run(Run(y, steps[..n]), steps[n..]) == Run(y, steps)
    decreases |steps|
  {
    hide Next;
    if n == |steps| {
      assert steps[..n] == steps;
    } else {
      var last := |steps| - 1;
      RunJoins(y, steps[..last], n);
      assert steps[..last][..n] == steps[..n] && steps[n..][..last - n] == steps[..last][n..];
      assert steps[n..][last - n] == steps[last];
    }
  }

  /* Running a reconciliation again, amid everything else. */

  /** Each event id has one envelope. */
  type Source = nat -> Envelope

  predicate FromSource(source: Source, events: seq<Envelope>) {
    forall i | 0 <= i < |events| :: events[i] == source(events[i].id)
  }

  predicate StepFromSource(source: Source, step: Step) {
    && (step.Deliver? ==> step.event == source(step.event.id))
    && (step.StartReconcile? ==> FromSource(source, step.events))
  }

  ghost predicate Sourced(source: Source, y: System) {
    && (forall k | k in y.state.inbox :: y.state.inbox[k] == source(k.1))
    && (forall j | j in y.jobs :: FromSource(source, y.jobs[j].events))
  }

  lemma NextKeepsSourced(source: Source, y: System, step: Step)
    requires Sourced(source, y) && StepFromSource(source, step)
    ensures Sourced(source, Next(y, step))
  {
    if step.ReconcileNext? && step.job in y.jobs {
      var job := y.jobs[step.job];
      if job.done < |job.events| {
        assert job.events[job.done] == source(job.events[job.done].id);
      }
    }
  }

  predicate AllFromSource(source: Source, steps: seq<Step>) {
    forall n | 0 <= n < |steps| :: StepFromSource(source, steps[n])
  }

  /** No run, failures, crashes and clearing included, gives an event id a second envelope. */
  lemma {:induction false} RunKeepsSourced(source: Source, y: System, steps: seq<Step>)
    requires Sourced(source, y) && AllFromSource(source, steps)
    ensures Sourced(source, Run(y, steps))
  {
    hide Next, Sourced, StepFromSource;
    if steps != [] {
      var n := |steps| - 1;
      RunKeepsSourced(source, y, steps[..n]);
      NextKeepsSourced(source, Run(y, steps[..n]), steps[n]);
    }
  }

  const GOES_THROUGH := Outcome(true, true)

  /** The step lets job j go on: it neither crashes nor ends it, and its own event goes through. */
  predicate LetsGoOn(step: Step, j: nat) {
    && step != CrashJob(j) && step != ReconcileEnd(j)
    && (step.ReconcileNext? && step.job == j ==> step.outcome == GOES_THROUGH)
  }

  predicate Quiet(source: Source, steps: seq<Step>, j: nat) {
    forall n | 0 <= n < |steps| :: StepFromSource(source, steps[n]) && LetsGoOn(steps[n], j)
  }

  /** How often the job gets a turn. */
  function Turns(steps: seq<Step>, j: nat): nat {
    if steps == [] then 0 else
      var n := |steps| - 1;
      Turns(steps[..n], j) + if steps[n].ReconcileNext? && steps[n].job == j then 1 else 0
  }

  function Capped(job: Job, turns: nat): nat {
    if job.done + turns <= |job.events| then job.done + turns else |job.events|
  }

  /** The job has had so many turns and has not failed. */
  predicate Advanced(y: System, j: nat, job: Job, turns: nat) {
    j in y.jobs && y.jobs[j] == job.(done := Capped(job, turns))
  }

  lemma StepAdvances(source: Source, y: System, step: Step, j: nat, job: Job, turns: nat)
    requires Inv(y) && Sourced(source, y) && Advanced(y, j, job, turns) && job.done <= |job.events| && LetsGoOn(step, j)
    ensures Advanced(Next(y, step), j, job, turns + if step.ReconcileNext? && step.job == j then 1 else 0)
  {
    if step.ReconcileNext? && step.job == j {
      var now := y.jobs[j];
      if now.done < |now.events| {
        var e := now.events[now.done];
        assert e == source(e.id);
        assert (now.ctx, e.id) in y.state.inbox ==> y.state.inbox[(now.ctx, e.id)] == e;
        assert Process(y.state, now.ctx, e, true, GOES_THROUGH).Ok?;
      }
    }
  }

  /** A reconciliation whose own events go through advances with every turn, whatever deliveries, markers and other
      reconciliations do in between, from any state in which each event id has one envelope; in particular after any
      number of failed attempts. */
  lemma {:induction false} RerunAdvances(source: Source, y: System, steps: seq<Step>, j: nat)
    requires Inv(y) && Sourced(source, y) && j in y.jobs && Quiet(source, steps, j)
    ensures Sourced(source, Run(y, steps)) && Advanced(Run(y, steps), j, y.jobs[j], Turns(steps, j))
  {
    hide Next, Inv, Sourced, StepFromSource, LetsGoOn;
    var job := y.jobs[j];
    assert job.done <= |job.events| by { JobIsOk(y, j); }
    if steps != [] {
      var n := |steps| - 1;
      RerunAdvances(source, y, steps[..n], j);
      RunKeepsInv(y, steps[..n]);
      hide Advanced;
      StepAdvances(source, Run(y, steps[..n]), steps[n], j, job, Turns(steps[..n], j));
      NextKeepsSourced(source, Run(y, steps[..n]), steps[n]);
    }
  }

  lemma JobIsOk(y: System, j: nat)
    requires Inv(y) && j in y.jobs
    ensures y.jobs[j].done <= |y.jobs[j].events|
  {
    assert JobOk(y.state, y.jobs[j]);
  }

  /** After any run whatever, failed and crashed attempts included, a reconciliation that is under way and gets a turn
      for every remaining event ends: the marker is gone, and every event of the interval is applied exactly once, then
      and in every later run. */
  lemma RerunCompletes(source: Source, start: System, before: seq<Step>, steps: seq<Step>, j: nat, after: seq<Step>, i: nat)
    requires Inv(start) && Sourced(source, start) && AllFromSource(source, before)
    requires j in Run(start, before).jobs && Quiet(source, steps, j)
    requires var job := Run(start, before).jobs[j]; job.done + Turns(steps, j) >= |job.events| > i
    ensures var job := Run(start, before).jobs[j];
            var ended := Next(Run(Run(start, before), steps), ReconcileEnd(j));
            job.ctx !in ended.state.markers && Applied(Run(ended, after).state, job.ctx, job.events[i])
  {
    hide Run, Next, Inv, Sourced, Applied, Turns, AllFromSource;
    var y := Run(start, before);
    RunKeepsInv(start, before);
    RunKeepsSourced(source, start, before);
    RerunAdvances(source, y, steps, j);
    ReconciledIntervalIsApplied(y, steps, j, after, i);
  }
}
