/** The inbox service and its reconciliation loop, and why a failed reconciliation can simply be run again. */
module InboxService {
  import opened Results
  import opened Inbox

  /** What the handler and the effect check do with each event of one attempt. */
  type Attempt = Envelope -> Outcome

  const SUCCESS: Attempt := (_: Envelope) => Outcome(true, true)

  /** What processing an event leaves behind when it does not throw. */
  function Put(s: State, ctx: nat, e: Envelope): State {
    var k := (ctx, e.id);
    if k in s.inbox then s else s.(inbox := s.inbox[k := e], effects := s.effects[k := Count(s, k) + 1])
  }

  function PutAll(s: State, ctx: nat, events: seq<Envelope>): State {
    if events == [] then s else Put(PutAll(s, ctx, events[..|events| - 1]), ctx, events[|events| - 1])
  }

  /** The loop of `reconcileConsumerRestore` over the first n events: the state and the number of events processed,
      or the state at the failure. */
  function Reconcile(s: State, ctx: nat, events: seq<Envelope>, attempt: Attempt): Result<(State, nat), (State, Error)> {
    if events == [] then Ok((s, 0)) else
      var n := |events| - 1;
      match Reconcile(s, ctx, events[..n], attempt)
      case Err(e) => Err(e)
      case Ok((t, count)) =>
        match Process(t, ctx, events[n], true, attempt(events[n]))
        case Err(e) => Err((t, e))
        case Ok((u, processed)) => Ok((u, if processed then count + 1 else count))
  }

  lemma ProcessIsPut(s: State, ctx: nat, e: Envelope, o: Outcome)
    requires Process(s, ctx, e, true, o).Ok?
    ensures Process(s, ctx, e, true, o).value.0 == Put(s, ctx, e)
    ensures Process(s, ctx, e, true, o).value.1 <==> (ctx, e.id) !in s.inbox
    ensures (ctx, e.id) in Put(s, ctx, e).inbox && Put(s, ctx, e).inbox[(ctx, e.id)] == e
  {
  }

  /** The state after a reconciliation, and after a failed one the events before the failure. */
  lemma {:induction false} ReconcileIsPut(s: State, ctx: nat, events: seq<Envelope>, attempt: Attempt) returns (j: nat)
    ensures j <= |events|
    ensures match Reconcile(s, ctx, events, attempt)
            case Ok((t, count)) => j == |events| && t == PutAll(s, ctx, events) && count == |t.inbox| - |s.inbox|
            case Err((t, _)) => j < |events| && t == PutAll(s, ctx, events[..j])
  {
    if events == [] {
      j := 0;
    } else {
      var n := |events| - 1;
      j := ReconcileIsPut(s, ctx, events[..n], attempt);
      match Reconcile(s, ctx, events[..n], attempt) {
        case Err(_) =>
          assert events[..n][..j] == events[..j];
        case Ok((t, count)) =>
          if Process(t, ctx, events[n], true, attempt(events[n])).Ok? {
            ProcessIsPut(t, ctx, events[n], attempt(events[n]));
            j := n + 1;
          } else {
            j := n;
          }
          hide Process;
      }
    }
  }

  lemma {:induction false} PutAllGrows(s: State, ctx: nat, events: seq<Envelope>, n: nat)
    requires n <= |events|
    ensures Grows(s, PutAll(s, ctx, events[..n])) && Grows(PutAll(s, ctx, events[..n]), PutAll(s, ctx, events))
    decreases |events| - n, n
  {
    PutGrowsAll(s, ctx, events[..n]);
    if n < |events| {
      PutAllGrows(s, ctx, events, n + 1);
      assert events[..n + 1][..n] == events[..n];
    } else {
      assert events[..n] == events;
    }
  }

  lemma {:induction false} PutGrowsAll(s: State, ctx: nat, events: seq<Envelope>)
    ensures Grows(s, PutAll(s, ctx, events))
    ensures forall i | 0 <= i < |events| :: (ctx, events[i].id) in PutAll(s, ctx, events).inbox
  {
    if events != [] {
      PutGrowsAll(s, ctx, events[..|events| - 1]);
    }
  }

  /** Events whose rows are already there are passed over. */
  lemma {:induction false} PutAgain(s: State, ctx: nat, events: seq<Envelope>)
    requires forall i | 0 <= i < |events| :: (ctx, events[i].id) in s.inbox
    ensures PutAll(s, ctx, events) == s
  {
    if events != [] {
      PutAgain(s, ctx, events[..|events| - 1]);
    }
  }

  /** Starting over after the first j events ends where an undisturbed run ends. */
  lemma {:induction false} PutAllFromPrefix(s: State, ctx: nat, events: seq<Envelope>, j: nat, n: nat)
    requires j <= n <= |events|
    ensures PutAll(PutAll(s, ctx, events[..j]), ctx, events[..n]) == PutAll(s, ctx, events[..n])
    decreases n
  {
    if n == j {
      PutGrowsAll(s, ctx, events[..j]);
      PutAgain(PutAll(s, ctx, events[..j]), ctx, events[..j]);
    } else {
      PutAllFromPrefix(s, ctx, events, j, n - 1);
      assert events[..n][..n - 1] == events[..n - 1];
    }
  }

  /** Rows of the final state that the interval determines. */
  ghost predicate Settles(t: State, ctx: nat, events: seq<Envelope>) {
    forall i | 0 <= i < |events| :: (ctx, events[i].id) in t.inbox && t.inbox[(ctx, events[i].id)] == events[i]
  }

  lemma {:induction false} OkSettles(s: State, ctx: nat, events: seq<Envelope>, attempt: Attempt)
    requires Reconcile(s, ctx, events, attempt).Ok?
    ensures Settles(Reconcile(s, ctx, events, attempt).value.0, ctx, events)
  {
    if events != [] {
      var n := |events| - 1;
      OkSettles(s, ctx, events[..n], attempt);
      var t := Reconcile(s, ctx, events[..n], attempt).value.0;
      ProcessIsPut(t, ctx, events[n], attempt(events[n]));
      hide Process;
    }
  }

  /** If every row agrees with some settled state, an attempt in which nothing fails goes through. */
  lemma {:induction false} SettledGoesThrough(s: State, t: State, ctx: nat, events: seq<Envelope>)
    requires Settles(t, ctx, events) && Grows(s, t)
    ensures Reconcile(s, ctx, events, SUCCESS).Ok? && Grows(Reconcile(s, ctx, events, SUCCESS).value.0, t)
  {
    if events != [] {
      var n := |events| - 1;
      assert Settles(t, ctx, events[..n]);
      SettledGoesThrough(s, t, ctx, events[..n]);
      var u := Reconcile(s, ctx, events[..n], SUCCESS).value.0;
      assert SUCCESS(events[n]) == Outcome(true, true);
    }
  }

  /** A failed reconciliation can be rerun to the same end: if the interval can be reconciled at all, then after any
      failed attempt a rerun in which nothing fails succeeds and reaches the same state. */
  lemma RerunReachesSameEnd(s: State, ctx: nat, events: seq<Envelope>, attempt: Attempt)
    requires Reconcile(s, ctx, events, SUCCESS).Ok? && Reconcile(s, ctx, events, attempt).Err?
    ensures var failed := Reconcile(s, ctx, events, attempt).error.0;
            && failed.markers == s.markers
            && Reconcile(failed, ctx, events, SUCCESS).Ok?
            && Reconcile(failed, ctx, events, SUCCESS).value.0 == Reconcile(s, ctx, events, SUCCESS).value.0
  {
    var j := ReconcileIsPut(s, ctx, events, attempt);
    var _ := ReconcileIsPut(s, ctx, events, SUCCESS);
    OkSettles(s, ctx, events, SUCCESS);
    var failed, end := Reconcile(s, ctx, events, attempt).error.0, Reconcile(s, ctx, events, SUCCESS).value.0;
    hide Reconcile;
    PutAllGrows(s, ctx, events, j);
    SettledGoesThrough(failed, end, ctx, events);
    var _ := ReconcileIsPut(failed, ctx, events, SUCCESS);
    PutAllFromPrefix(s, ctx, events, j, |events|);
    assert events[..|events|] == events;
    PutAllKeepsMarkers(s, ctx, events[..j]);
  }

  lemma {:induction false} PutAllKeepsMarkers(s: State, ctx: nat, events: seq<Envelope>)
    ensures PutAll(s, ctx, events).markers == s.markers
  {
    if events != [] {
      PutAllKeepsMarkers(s, ctx, events[..|events| - 1]);
    }
  }

  lemma {:induction false} ReconcileStops(s: State, ctx: nat, events: seq<Envelope>, attempt: Attempt, n: nat)
    requires n <= |events| && Reconcile(s, ctx, events[..n], attempt).Err?
    ensures Reconcile(s, ctx, events, attempt) == Reconcile(s, ctx, events[..n], attempt)
  {
    hide Process;
    if n == |events| {
      assert events[..n] == events;
    } else {
      assert events[..|events| - 1][..n] == events[..n];
      ReconcileStops(s, ctx, events[..|events| - 1], attempt, n);
    }
  }

  lemma {:induction false} ReconcileKeeps(s: State, ctx: nat, events: seq<Envelope>, attempt: Attempt)
    requires Agrees(s)
    ensures var t := (match Reconcile(s, ctx, events, attempt) case Ok(r) => r.0 case Err(e) => e.0);
            Agrees(t) && Grows(s, t) && t.markers == s.markers
  {
    if events != [] {
      var n := |events| - 1;
      ReconcileKeeps(s, ctx, events[..n], attempt);
      if Reconcile(s, ctx, events[..n], attempt).Ok? {
        var t := Reconcile(s, ctx, events[..n], attempt).value.0;
        if Process(t, ctx, events[n], true, attempt(events[n])).Ok? {
          ProcessKeeps(t, ctx, events[n], true, attempt(events[n]));
        }
        hide Process, Agrees;
      }
    }
  }

  /* When an event, and an interval, goes through. */

  predicate Unblocked(s: State, ctx: nat, isReconciliation: bool) {
    isReconciliation || ctx !in s.markers
  }

  predicate Stored(s: State, ctx: nat, e: Envelope) {
    (ctx, e.id) in s.inbox && s.inbox[(ctx, e.id)] == e
  }

  /** Why an event is refused; every reason comes after the ones before it. */
  predicate ProcessRefusal(
    s: State, ctx: nat, e: Envelope, compatible: bool, isReconciliation: bool, o: Outcome, error: Error)
  {
    if !compatible then error == Incompatible
    else if !Unblocked(s, ctx, isReconciliation) then error == RestorePending
    else if (ctx, e.id) !in s.inbox then
      (error == HandlerFailed && !o.handlerOk) || (error == EffectNotProven && o.handlerOk && !o.verified)
    else if !Stored(s, ctx, e) then error == ConflictingReplay
    else error == Inconsistent && !o.verified
  }

  /** Event i goes through after the ones before it: its effect is verified, and it repeats its row or its handler
      succeeds. */
  predicate EventGoes(s: State, ctx: nat, events: seq<Envelope>, attempt: Attempt, i: nat)
    requires i < |events|
  {
    var t, e := PutAll(s, ctx, events[..i]), events[i];
    attempt(e).verified && if (ctx, e.id) in t.inbox then Stored(t, ctx, e) else attempt(e).handlerOk
  }

  predicate AllGo(s: State, ctx: nat, events: seq<Envelope>, attempt: Attempt) {
    forall i | 0 <= i < |events| :: EventGoes(s, ctx, events, attempt, i)
  }

  /** An interval is reconciled exactly when each of its events goes through. */
  lemma {:induction false} ReconcileExactly(s: State, ctx: nat, events: seq<Envelope>, attempt: Attempt)
    ensures Reconcile(s, ctx, events, attempt).Ok? <==> AllGo(s, ctx, events, attempt)
  {
    if events != [] {
      var n := |events| - 1;
      ReconcileExactly(s, ctx, events[..n], attempt);
      var _ := ReconcileIsPut(s, ctx, events[..n], attempt);
      AllGoNext(s, ctx, events, attempt);
      hide PutAll, AllGo;
    }
  }

  lemma AllGoNext(s: State, ctx: nat, events: seq<Envelope>, attempt: Attempt)
    requires events != []
    ensures var n := |events| - 1;
            AllGo(s, ctx, events, attempt) <==> AllGo(s, ctx, events[..n], attempt) && EventGoes(s, ctx, events, attempt, n)
  {
    hide PutAll;
    var n := |events| - 1;
    forall i | 0 <= i < n
      ensures EventGoes(s, ctx, events[..n], attempt, i) <==> EventGoes(s, ctx, events, attempt, i)
    {
      assert events[..n][..i] == events[..i];
    }
    hide EventGoes;
    if AllGo(s, ctx, events[..n], attempt) && EventGoes(s, ctx, events, attempt, n) {
      forall i | 0 <= i < |events|
        ensures EventGoes(s, ctx, events, attempt, i)
      {
        assert i < n ==> EventGoes(s, ctx, events[..n], attempt, i);
      }
    }
  }

  /** What the producer's durable source returned, with the checks on policy, interval, retention, tenant and
      compatibility summed up in `sound`. */
  datatype Snapshot = Snapshot(events: seq<Envelope>, sound: bool)

  datatype Acknowledged = Acknowledged(id: nat, kind: nat, version: nat)

  predicate Covers(events: seq<Envelope>, ack: Acknowledged) {
    exists i :: 0 <= i < |events| && events[i].id == ack.id && events[i].kind == ack.kind && events[i].version == ack.version
  }

  method AllCovered(events: seq<Envelope>, acks: seq<Acknowledged>) returns (covered: bool)
    ensures covered == forall a | 0 <= a < |acks| :: Covers(events, acks[a])
  {
    for a := 0 to |acks|
      invariant forall b | 0 <= b < a :: Covers(events, acks[b])
    {
      var found := false;
      for i := 0 to |events|
        invariant found ==> Covers(events, acks[a])
        invariant !found ==> forall k | 0 <= k < i :: !(events[k].id == acks[a].id && events[k].kind == acks[a].kind && events[k].version == acks[a].version)
      {
        if events[i].id == acks[a].id && events[i].kind == acks[a].kind && events[i].version == acks[a].version {
          found := true;
        }
      }
      if !found {
        return false;
      }
    }
    return true;
  }

  class ConsumerInboxService {
    var inbox: map<Key, Envelope>
    var effects: map<Key, nat>
    var markers: set<nat>

    function View(): State
      reads this
    {
      State(inbox, effects, markers)
    }

    constructor (restored: State)
      ensures View() == restored
    {
      inbox, effects, markers := restored.inbox, restored.effects, restored.markers;
    }

    method MarkConsumerRestorePending(ctx: nat)
      modifies this`markers
      ensures markers == old(markers) + {ctx}
    {
      markers := markers + {ctx};
    }

    method ClearConsumerRestorePending(ctx: nat)
      modifies this`markers
      ensures markers == old(markers) - {ctx}
    {
      markers := markers - {ctx};
    }

    /** `compatible` sums up the checks on version, identity and payload before the transaction. */
    method ProcessEventWithInbox(ctx: nat, e: Envelope, compatible: bool, isReconciliation: bool, o: Outcome)
      returns (result: Result<bool, Error>)
      requires Agrees(View())
      modifies this`inbox, this`effects
      ensures Agrees(View()) && Grows(old(View()), View())
      ensures !compatible ==> result == Err(Incompatible) && View() == old(View())
      ensures compatible ==>
                match Process(old(View()), ctx, e, isReconciliation, o)
                case Ok((t, processed)) => View() == t && result == Ok(processed)
                case Err(error) => View() == old(View()) && result == Err(error)
      ensures result == Ok(true) <==>
                compatible && Unblocked(old(View()), ctx, isReconciliation) && (ctx, e.id) !in old(inbox) && o == Outcome(true, true)
      ensures result == Ok(false) <==>
                compatible && Unblocked(old(View()), ctx, isReconciliation) && Stored(old(View()), ctx, e) && o.verified
      ensures result == Ok(true) ==> inbox == old(inbox)[(ctx, e.id) := e] && Applied(View(), ctx, e)
      ensures result != Ok(true) ==> View() == old(View())
      ensures result.Err? ==> ProcessRefusal(old(View()), ctx, e, compatible, isReconciliation, o, result.error)
    {
      if compatible && Process(View(), ctx, e, isReconciliation, o).Ok? {
        ProcessKeeps(View(), ctx, e, isReconciliation, o);
      }
      hide Agrees;
      if !compatible {
        return Err(Incompatible);
      }
      if !isReconciliation && ctx in markers {
        return Err(RestorePending);
      }
      var k := (ctx, e.id);
      if k in inbox {
        if inbox[k] != e {
          return Err(ConflictingReplay);
        }
        if !o.verified {
          return Err(Inconsistent);
        }
        return Ok(false);
      }
      var reserved := inbox[k := e];
      if !o.handlerOk {
        return Err(HandlerFailed);
      }
      var applied := effects[k := if k in effects then effects[k] + 1 else 1];
      if !o.verified {
        return Err(EffectNotProven);
      }
      inbox, effects := reserved, applied;
      return Ok(true);
    }

    /** The whole reconciliation, one transaction per event and one for the marker. On success every event of the
        interval is applied exactly once and the marker is gone; on failure the marker stays and nothing is lost. */
    method ReconcileConsumerRestore(ctx: nat, snapshot: Snapshot, acks: seq<Acknowledged>, attempt: Attempt)
      returns (result: Result<nat, Error>)
      requires Agrees(View())
      modifies this
      ensures Agrees(View()) && Grows(old(View()), View())
      ensures result.Ok? ==>
                && markers == old(markers) - {ctx} && result.value == |inbox| - |old(inbox)|
                && (forall i | 0 <= i < |snapshot.events| :: Applied(View(), ctx, snapshot.events[i]))
                && View() == PutAll(old(View()), ctx, snapshot.events).(markers := markers)
      ensures result.Err? ==> markers == old(markers)
      ensures result.Ok? <==>
                snapshot.sound && (forall a | 0 <= a < |acks| :: Covers(snapshot.events, acks[a]))
                && AllGo(old(View()), ctx, snapshot.events, attempt)
    {
      ReconcileExactly(View(), ctx, snapshot.events, attempt);
      hide Agrees, Applied, AllGo;
      if !snapshot.sound {
        return Err(Incompatible);
      }
      var covered := AllCovered(snapshot.events, acks);
      if !covered {
        return Err(Incompatible);
      }
      result := ReplayInterval(ctx, snapshot.events, attempt);
      if result.Err? {
        return;
      }
      IntervalApplied(old(View()), ctx, snapshot.events, attempt);
      AgreesWithoutMarkers(View(), markers - {ctx}, ctx, snapshot.events);
      markers := markers - {ctx};
    }

    /** The loop over the interval. */
    method ReplayInterval(ctx: nat, events: seq<Envelope>, attempt: Attempt) returns (result: Result<nat, Error>)
      requires Agrees(View())
      modifies this`inbox, this`effects
      ensures Agrees(View()) && Grows(old(View()), View())
      ensures match Reconcile(old(View()), ctx, events, attempt)
              case Ok((t, count)) => View() == t && result == Ok(count)
              case Err((t, e)) => View() == t && result == Err(e)
    {
      ReconcileKeeps(View(), ctx, events, attempt);
      hide Grows;
      var reconciledCount := 0;
      for i := 0 to |events|
        invariant Reconcile(old(View()), ctx, events[..i], attempt) == Ok((View(), reconciledCount))
        invariant Agrees(View())
      {
        hide Process, Agrees;
        assert events[..i + 1][..i] == events[..i];
        var processed := ProcessEventWithInbox(ctx, events[i], true, true, attempt(events[i]));
        if processed.Err? {
          ReconcileStops(old(View()), ctx, events, attempt, i + 1);
          return Err(processed.error);
        }
        if processed.value {
          reconciledCount := reconciledCount + 1;
        }
      }
      assert events[..|events|] == events;
      return Ok(reconciledCount);
    }
  }

  lemma IntervalApplied(s: State, ctx: nat, events: seq<Envelope>, attempt: Attempt)
    requires Agrees(s) && Reconcile(s, ctx, events, attempt).Ok?
    ensures var t := Reconcile(s, ctx, events, attempt).value.0;
            && t == PutAll(s, ctx, events)
            && Reconcile(s, ctx, events, attempt).value.1 == |t.inbox| - |s.inbox|
            && forall i | 0 <= i < |events| :: Applied(t, ctx, events[i])
  {
    OkSettles(s, ctx, events, attempt);
    ReconcileKeeps(s, ctx, events, attempt);
    var _ := ReconcileIsPut(s, ctx, events, attempt);
    hide Reconcile;
  }

  lemma AgreesWithoutMarkers(s: State, markers: set<nat>, ctx: nat, events: seq<Envelope>)
    requires Agrees(s)
    ensures Agrees(s.(markers := markers))
    ensures forall i | 0 <= i < |events| && Applied(s, ctx, events[i]) :: Applied(s.(markers := markers), ctx, events[i])
  {
  }
}
