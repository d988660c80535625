/** What holds over whole runs of the stamping protocol. */
module StampingRuns {
  import opened Results
  import opened Stamping

  /* Pinned XML and envelopes, for every connector. */

  /** All dispatches of one operation send the same XML. */
  lemma DispatchesSendOneXml(cfg: Config, steps: seq<Step>, i: nat, j: nat)
    requires var sent := Run(cfg, steps).dispatched; i < |sent| && j < |sent| && sent[i].key == sent[j].key
    ensures var sent := Run(cfg, steps).dispatched; sent[i].xml == sent[j].xml
  {
    EveryRunKeepsInv(cfg, steps);
    hide Run, TablesOk;
    var sent := Run(cfg, steps).dispatched;
    assert sent[i] in sent && sent[j] in sent;
  }

  /** A stamped invoice carries XML that was compared with the XML some operation of that invoice pinned. */
  lemma StampedIsFaithful(cfg: Config, steps: seq<Step>, i: nat)
    requires var t := Run(cfg, steps).tables; i in t.invoices && t.invoices[i].status == Stamped
    ensures exists key :: StampedBy(cfg, Run(cfg, steps).tables, i, key)
  {
    EveryRunKeepsInv(cfg, steps);
  }

  /** In every run two invoices that carry a uuid, stamped or cancelled, carry different ones. */
  lemma UuidsAreUnique(cfg: Config, steps: seq<Step>, i: nat, j: nat)
    requires var t := Run(cfg, steps).tables; i in t.invoices && j in t.invoices && i != j
    ensures var t := Run(cfg, steps).tables;
            && (t.invoices[i].status != Draft ==> t.invoices[i].uuid != "")
            && (t.invoices[i].uuid == t.invoices[j].uuid ==> t.invoices[i].uuid == "")
  {
    EveryRunKeepsInv(cfg, steps);
    hide Run;
    assert InvoiceOk(cfg, Run(cfg, steps).tables, i);
  }

  /** All events of one operation carry the same semantic id and the first payload stored for it. */
  lemma OneEnvelopePerOperation(cfg: Config, steps: seq<Step>, i: nat, j: nat)
    requires var o := Run(cfg, steps).tables.outbox; i < |o| && j < |o| && o[i].op == o[j].op
    ensures var o := Run(cfg, steps).tables.outbox;
            o[i].payload == o[j].payload && o[i].payload.semanticId == SemanticId(o[i].op, o[i].kind)
  {
    EveryRunKeepsInv(cfg, steps);
    hide Run;
    var o := Run(cfg, steps).tables.outbox;
    assert o[i] in o && o[j] in o;
  }

  /* At most one dispatch. */

  predicate Neither(cfg: Config) {
    !cfg.caps.lookup && !cfg.caps.idempotencyKey
  }

  predicate DispatchedOnce(s: State) {
    forall i, j | 0 <= i < j < |s.dispatched| :: s.dispatched[i].key != s.dispatched[j].key
  }

  predicate Dispatched(s: State, key: Key) {
    exists i :: 0 <= i < |s.dispatched| && s.dispatched[i].key == key
  }

  /** Only one caller ever holds an operation, and while it does the operation is in flight. */
  ghost predicate Once(s: State) {
    && (forall c, d | c in s.calls && d in s.calls && s.calls[c].key == s.calls[d].key :: c == d)
    && (forall c | c in s.calls :: CallAlone(s, s.calls[c]))
    && DispatchedOnce(s)
  }

  predicate CallAlone(s: State, call: Call) {
    && call.key in s.tables.ops && s.tables.ops[call.key].status == InFlight
    && (!call.sent ==> !Dispatched(s, call.key))
  }

  /** Without either capability an existing operation is never sent again. */
  lemma BeginIsFresh(cfg: Config, t: Tables, c: Command)
    requires Neither(cfg) && TablesOk(cfg, t)
    ensures var r := Begin(cfg, t, c);
            (r.Proceed? ==> c.key !in t.ops) && (r.Completed? ==> r.tables == t)
  {
    if c.invoice in t.invoices && t.invoices[c.invoice].status == Draft && c.key in t.ops
       && t.ops[c.key].request == StampRequest(c.invoice, t.invoices[c.invoice].facts) {
      RepairIsUnreachable(cfg, t, c.key);
      assert OpOk(cfg, t, c.key);
      assert Resume(cfg, t.ops[c.key], c).Stop?;
    }
    hide OpOk, TablesOk, Resume;
  }

  lemma BeginKeepsOnce(cfg: Config, s: State, caller: nat, c: Command)
    requires Neither(cfg) && Inv(cfg, s) && Once(s)
    ensures Once(Next(cfg, s, BeginStamp(caller, c)))
  {
    BeginIsFresh(cfg, s.tables, c);
    BeginIsSound(cfg, s.tables, c);
    hide TablesOk, Begin, Sound, Neither, Once, CallOk;
    var r := Begin(cfg, s.tables, c);
    if r.Proceed? && caller !in s.calls {
      NewCallKeepsOnce(cfg, s, caller, r.tables, r.call, c.invoice);
    }
  }

  lemma NewCallKeepsOnce(cfg: Config, s: State, caller: nat, t': Tables, call: Call, i: nat)
    requires Inv(cfg, s) && Once(s) && caller !in s.calls && call.key !in s.tables.ops
    requires Touches(s.tables, t', call.key, i) && t'.ops[call.key].status == InFlight
    ensures Once(s.(tables := t', calls := s.calls[caller := call]))
  {
    var s' := s.(tables := t');
    forall d | d in s.calls
      ensures s.calls[d].key != call.key && CallAlone(s', s.calls[d])
    {
      OldCallAlone(cfg, s, d, t', call.key, i);
    }
    FreshKey(cfg, s, call.key);
    assert CallAlone(s', call);
    hide Inv, Touches;
    AddCallKeepsOnce(s', caller, call);
  }

  lemma AddCallKeepsOnce(s: State, caller: nat, call: Call)
    requires Once(s) && caller !in s.calls && CallAlone(s, call)
    requires forall d | d in s.calls :: s.calls[d].key != call.key
    ensures Once(s.(calls := s.calls[caller := call]))
  {
  }

  lemma OldCallAlone(cfg: Config, s: State, d: nat, t': Tables, key: Key, i: nat)
    requires Inv(cfg, s) && Once(s) && d in s.calls && key !in s.tables.ops && Touches(s.tables, t', key, i)
    ensures s.calls[d].key != key && CallAlone(s.(tables := t'), s.calls[d])
  {
    hide TablesOk;
    assert CallOk(s.tables, s.calls[d]) && CallAlone(s, s.calls[d]);
  }

  lemma FreshKey(cfg: Config, s: State, key: Key)
    requires Inv(cfg, s) && key !in s.tables.ops
    ensures !Dispatched(s, key)
  {
    hide TablesOk;
    forall i | 0 <= i < |s.dispatched|
      ensures s.dispatched[i].key != key
    {
      assert s.dispatched[i] in s.dispatched;
    }
  }

  lemma SendKeepsOnce(cfg: Config, s: State, caller: nat)
    requires Once(s)
    ensures Once(Next(cfg, s, Send(caller)))
  {
    var s' := Next(cfg, s, Send(caller));
    if caller in s.calls && !s.calls[caller].sent {
      var call := s.calls[caller];
      assert CallAlone(s, call);
      forall i | 0 <= i < |s.dispatched|
        ensures s.dispatched[i].key != call.key
      {
        assert s.dispatched[i].key == call.key ==> Dispatched(s, call.key);
      }
      forall d | d in s'.calls
        ensures CallAlone(s', s'.calls[d])
      {
        assert CallAlone(s, s.calls[d]);
        if !s'.calls[d].sent {
          forall i | 0 <= i < |s'.dispatched|
            ensures s'.dispatched[i].key != s'.calls[d].key
          {
            assert i < |s.dispatched| ==> s'.dispatched[i] == s.dispatched[i];
          }
        }
      }
    }
  }

  /** Steps that leave the callers and the log alone and every held operation's status. */
  lemma OtherKeepsOnce(s: State, s': State)
    requires Once(s) && s'.calls.Keys <= s.calls.Keys && s'.dispatched == s.dispatched
    requires forall c | c in s'.calls :: s'.calls[c] == s.calls[c] && c in s.calls
    requires forall c | c in s'.calls ::
               s'.calls[c].key in s'.tables.ops && s'.tables.ops[s'.calls[c].key].status == InFlight
    ensures Once(s')
  {
    forall c | c in s'.calls
      ensures CallAlone(s', s'.calls[c])
    {
      assert CallAlone(s, s.calls[c]);
    }
  }

  /** Which operation rows a step may write, besides the stamping steps. */
  lemma StatusWrites(cfg: Config, s: State, step: Step, key: Key)
    requires Inv(cfg, s) && !step.BeginStamp? && key in s.tables.ops && s.tables.ops[key].kind == Stamp
    requires step.FinishStamp? && step.caller in s.calls ==> s.calls[step.caller].key != key
    ensures var t' := Next(cfg, s, step).tables;
            key in t'.ops && t'.ops[key].kind == Stamp && t'.ops[key].status == s.tables.ops[key].status
  {
    hide TablesOk;
    if step.FinishStamp? && step.caller in s.calls && Known(s.tables, s.calls[step.caller]) {
      FinishWritesOwn(cfg, s.tables, s.calls[step.caller], step.reply, step.subscribersOk, key);
      hide AfterFinish;
    }
  }

  lemma FinishWritesOwn(cfg: Config, t: Tables, call: Call, reply: Reply, ok: bool, key: Key)
    requires Known(t, call) && key in t.ops && key != call.key
    ensures var t' := AfterFinish(cfg, t, call, reply, ok); key in t'.ops && t'.ops[key] == t.ops[key]
  {
    hide Validates;
  }

  lemma NextKeepsOnce(cfg: Config, s: State, step: Step)
    requires Neither(cfg) && Inv(cfg, s) && Once(s)
    ensures Once(Next(cfg, s, step))
  {
    var s' := Next(cfg, s, step);
    if step.BeginStamp? {
      BeginKeepsOnce(cfg, s, step.caller, step.command);
    } else if step.Send? {
      SendKeepsOnce(cfg, s, step.caller);
    } else if s' != s {
      forall c | c in s'.calls
        ensures s'.calls[c].key in s'.tables.ops && s'.tables.ops[s'.calls[c].key].status == InFlight
      {
        assert CallOk(s.tables, s.calls[c]) && CallAlone(s, s.calls[c]);
        StatusWrites(cfg, s, step, s.calls[c].key);
      }
      OtherKeepsOnce(s, s');
    }
  }

  lemma {:induction false} EveryRunKeepsOnce(cfg: Config, steps: seq<Step>)
    requires Neither(cfg)
    ensures Inv(cfg, Run(cfg, steps)) && Once(Run(cfg, steps))
  {
    EveryRunKeepsInv(cfg, steps);
    if steps != [] {
      EveryRunKeepsOnce(cfg, steps[..|steps| - 1]);
      NextKeepsOnce(cfg, Run(cfg, steps[..|steps| - 1]), steps[|steps| - 1]);
      hide Next, Once, Inv;
    }
  }

  /** A connector with neither authoritative lookup nor idempotent replay: no operation reaches `timbrar` twice. */
  lemma AtMostOneDispatch(cfg: Config, steps: seq<Step>)
    requires Neither(cfg)
    ensures DispatchedOnce(Run(cfg, steps))
  {
    EveryRunKeepsOnce(cfg, steps);
  }

  /* The bound is exact: either capability lets one operation be sent twice. */

  function TwiceCommand(i: nat, key: Key): Command {
    Command(i, key, Some("<"), true, true, true, Answer(StampedConfirmed(Certificate("", "", "", true))), true)
  }

  /** Prepare, send, crash, prepare again, send again. A lookup answers "stamped" without a uuid. */
  function TwiceSteps(i: nat, key: Key): seq<Step> {
    var c := TwiceCommand(i, key);
    [CreateDraft(i, ""), BeginStamp(0, c), Send(0), Crash(0), BeginStamp(0, c), Send(0)]
  }

  lemma RunUnfolds(cfg: Config, steps: seq<Step>, step: Step)
    ensures Run(cfg, steps + [step]) == Next(cfg, Run(cfg, steps), step)
  {
    hide Next;
    assert (steps + [step])[..|steps|] == steps;
  }

  const DRAFT := Invoice(Draft, "", "", None)

  lemma AfterDraft(cfg: Config, i: nat)
    ensures Run(cfg, [CreateDraft(i, "")]) == State(Tables(map[i := DRAFT], map[], []), map[], [])
  {
    RunUnfolds(cfg, [], CreateDraft(i, ""));
    assert [] + [CreateDraft(i, "")] == [CreateDraft(i, "")];
    hide Begin, Finish, Replay, CommitCancel;
  }

  /** An operation in its first attempt. */
  function FirstAttempt(i: nat, xml: Xml): Op {
    NewOp(i, StampRequest(i, "")).(requestXml := Some(xml))
  }

  function FirstTables(i: nat, key: Key, xml: Xml): Tables {
    Tables(map[i := DRAFT], map[key := FirstAttempt(i, xml)], [])
  }

  /** A command that opens an operation. */
  predicate Opens(c: Command, i: nat, key: Key, xml: Xml) {
    c.invoice == i && c.key == key && c.generated == Some(xml) && c.enabled
  }

  lemma FirstBegin(cfg: Config, c: Command, i: nat, key: Key, xml: Xml)
    requires Opens(c, i, key, xml)
    ensures Begin(cfg, Tables(map[i := DRAFT], map[], []), c) == Proceed(FirstTables(i, key, xml), Call(key, i, xml, false))
  {
    hide BeginAgain;
  }

  lemma AfterFirstBegin(cfg: Config, c: Command, i: nat, key: Key, xml: Xml)
    requires Opens(c, i, key, xml)
    ensures Run(cfg, [CreateDraft(i, ""), BeginStamp(0, c)])
         == State(FirstTables(i, key, xml), map[0 := Call(key, i, xml, false)], [])
  {
    AfterDraft(cfg, i);
    FirstBegin(cfg, c, i, key, xml);
    RunUnfolds(cfg, [CreateDraft(i, "")], BeginStamp(0, c));
    assert [CreateDraft(i, "")] + [BeginStamp(0, c)] == [CreateDraft(i, ""), BeginStamp(0, c)];
    hide Begin, Run, FirstTables;
  }

  lemma AfterFirstSend(cfg: Config, c: Command, i: nat, key: Key, xml: Xml)
    requires Opens(c, i, key, xml)
    ensures Run(cfg, [CreateDraft(i, ""), BeginStamp(0, c), Send(0)])
         == State(FirstTables(i, key, xml), map[0 := Call(key, i, xml, true)], [Dispatch(key, xml)])
  {
    AfterFirstBegin(cfg, c, i, key, xml);
    var before := [CreateDraft(i, ""), BeginStamp(0, c)];
    RunUnfolds(cfg, before, Send(0));
    assert before + [Send(0)] == [CreateDraft(i, ""), BeginStamp(0, c), Send(0)];
    hide Begin, Run, FirstTables;
  }

  lemma SecondBegin(cfg: Config, i: nat, key: Key)
    requires !Neither(cfg)
    ensures Begin(cfg, FirstTables(i, key, "<"), TwiceCommand(i, key))
         == Proceed(FirstTables(i, key, "<").(ops := map[key := FirstAttempt(i, "<").(attempts := 2)]), Call(key, i, "<", false))
  {
    var op := FirstAttempt(i, "<");
    assert Resume(cfg, op, TwiceCommand(i, key)) == Redispatch;
    assert Attempted(FirstTables(i, key, "<"), key).ops == map[key := op.(attempts := 2)];
    assert map[key := op.(attempts := 2)][key := op.(attempts := 2)] == map[key := op.(attempts := 2)];
  }

  lemma AfterCrash(cfg: Config, c: Command, i: nat, key: Key, xml: Xml)
    requires Opens(c, i, key, xml)
    ensures Run(cfg, [CreateDraft(i, ""), BeginStamp(0, c), Send(0)] + [Crash(0)])
         == State(FirstTables(i, key, xml), map[], [Dispatch(key, xml)])
  {
    AfterFirstSend(cfg, c, i, key, xml);
    RunUnfolds(cfg, [CreateDraft(i, ""), BeginStamp(0, c), Send(0)], Crash(0));
    hide Run, FirstTables, Opens;
  }

  /** The dispatch log of that run: two dispatches of one operation. */
  lemma SentTwice(cfg: Config, i: nat, key: Key)
    requires !Neither(cfg)
    ensures var s := Run(cfg, TwiceSteps(i, key));
            s.dispatched == [Dispatch(key, "<"), Dispatch(key, "<")] && key in s.tables.ops && !DispatchedOnce(s)
  {
    var c := TwiceCommand(i, key);
    var four := [CreateDraft(i, ""), BeginStamp(0, c), Send(0)] + [Crash(0)];
    AfterCrash(cfg, c, i, key, "<");
    SecondBegin(cfg, i, key);
    hide Begin, Run, FirstTables, Neither, FirstAttempt, TwiceCommand;
    RunUnfolds(cfg, four, BeginStamp(0, c));
    RunUnfolds(cfg, four + [BeginStamp(0, c)], Send(0));
    assert four + [BeginStamp(0, c)] + [Send(0)] == TwiceSteps(i, key);
    var sent := Run(cfg, TwiceSteps(i, key)).dispatched;
    assert sent == [Dispatch(key, "<"), Dispatch(key, "<")];
    assert sent[0].key == sent[1].key;
  }

  /** At most one dispatch per operation in every run, exactly for connectors with neither capability. */
  lemma AtMostOnceExactly(cfg: Config)
    ensures (forall steps :: DispatchedOnce(Run(cfg, steps))) <==> Neither(cfg)
  {
    hide DispatchedOnce, Run;
    if Neither(cfg) {
      forall steps
        ensures DispatchedOnce(Run(cfg, steps))
      {
        AtMostOneDispatch(cfg, steps);
      }
    } else {
      SentTwice(cfg, 0, 0);
    }
  }

  /* Outcomes: final for such a connector, overwritable for others. */

  predicate HasOutcome(s: State, key: Key) {
    key in s.tables.ops && s.tables.ops[key].kind == Stamp && s.tables.ops[key].status != InFlight
  }

  predicate KeepsOutcome(s: State, s': State, key: Key) {
    HasOutcome(s, key) ==> key in s'.tables.ops && s'.tables.ops[key].status == s.tables.ops[key].status
  }

  /** With neither capability an outcome, once written, is never overwritten. */
  lemma OutcomeIsFinal(cfg: Config, steps: seq<Step>, step: Step, key: Key)
    requires Neither(cfg)
    ensures KeepsOutcome(Run(cfg, steps), Next(cfg, Run(cfg, steps), step), key)
  {
    EveryRunKeepsOnce(cfg, steps);
    var s := Run(cfg, steps);
    hide Run, Inv, Once, Next;
    if HasOutcome(s, key) {
      if step.BeginStamp? {
        BeginKeepsOutcome(cfg, s, step.caller, step.command, key);
      } else {
        NoCallHolds(s, key);
        StatusWrites(cfg, s, step, key);
      }
    }
  }

  lemma NoCallHolds(s: State, key: Key)
    requires Once(s) && HasOutcome(s, key)
    ensures forall c | c in s.calls :: s.calls[c].key != key
  {
    forall c | c in s.calls
      ensures s.calls[c].key != key
    {
      assert CallAlone(s, s.calls[c]);
    }
  }

  lemma BeginKeepsOutcome(cfg: Config, s: State, caller: nat, c: Command, key: Key)
    requires Neither(cfg) && Inv(cfg, s) && HasOutcome(s, key)
    ensures KeepsOutcome(s, Next(cfg, s, BeginStamp(caller, c)), key)
  {
    BeginIsFresh(cfg, s.tables, c);
    BeginIsSound(cfg, s.tables, c);
    hide Begin, TablesOk, Sound, Neither;
  }

  /** Two callers, a rejection for the second, then a late failure for the first. */
  function OverwriteSteps(): seq<Step> {
    var c := TwiceCommand(0, 0);
    [CreateDraft(0, ""), BeginStamp(0, c), Send(0), BeginStamp(1, c), Send(1), FinishStamp(1, Rejected, true)]
  }

  /** After the second caller has sent too. */
  lemma AfterSecondSend(cfg: Config)
    requires !Neither(cfg)
    ensures var c := TwiceCommand(0, 0);
            var s := Run(cfg, [CreateDraft(0, ""), BeginStamp(0, c), Send(0)] + [BeginStamp(1, c)] + [Send(1)]);
            && s.calls == map[0 := Call(0, 0, "<", true), 1 := Call(0, 0, "<", true)]
            && 0 in s.tables.ops && s.tables.ops[0].kind == Stamp && 0 in s.tables.invoices
  {
    var c := TwiceCommand(0, 0);
    var three := [CreateDraft(0, ""), BeginStamp(0, c), Send(0)];
    AfterFirstSend(cfg, c, 0, 0, "<");
    SecondBegin(cfg, 0, 0);
    RunUnfolds(cfg, three, BeginStamp(1, c));
    RunUnfolds(cfg, three + [BeginStamp(1, c)], Send(1));
    hide Begin, Run, Neither, TwiceCommand;
  }

  lemma RejectedOutcome(cfg: Config, s: State)
    requires s.calls == map[0 := Call(0, 0, "<", true), 1 := Call(0, 0, "<", true)]
    requires 0 in s.tables.ops && s.tables.ops[0].kind == Stamp && 0 in s.tables.invoices
    ensures var s' := Next(cfg, s, FinishStamp(1, Rejected, true));
            !KeepsOutcome(s', Next(cfg, s', FinishStamp(0, PacFailure, true)), 0)
  {
    hide Begin, Replay, CommitCancel, Record;
    var s' := Next(cfg, s, FinishStamp(1, Rejected, true));
    assert 0 in s'.calls && s'.calls[0] == Call(0, 0, "<", true) && s'.tables.ops[0].status == FailedTerminal;
  }

  lemma OutcomeOverwritten(cfg: Config)
    requires !Neither(cfg)
    ensures !KeepsOutcome(Run(cfg, OverwriteSteps()), Next(cfg, Run(cfg, OverwriteSteps()), FinishStamp(0, PacFailure, true)), 0)
  {
    var c := TwiceCommand(0, 0);
    hide Run, Next, Neither, KeepsOutcome, TwiceCommand;
    var five := [CreateDraft(0, ""), BeginStamp(0, c), Send(0)] + [BeginStamp(1, c)] + [Send(1)];
    AfterSecondSend(cfg);
    RejectedOutcome(cfg, Run(cfg, five));
    RunUnfolds(cfg, five, FinishStamp(1, Rejected, true));
    assert five + [FinishStamp(1, Rejected, true)] == OverwriteSteps();
  }

  /** Outcomes are final in every run exactly for connectors with neither capability. */
  lemma OutcomesFinalExactly(cfg: Config)
    ensures (forall steps, step, key :: KeepsOutcome(Run(cfg, steps), Next(cfg, Run(cfg, steps), step), key)) <==> Neither(cfg)
  {
    hide KeepsOutcome, Run, Next;
    if Neither(cfg) {
      forall steps, step, key
        ensures KeepsOutcome(Run(cfg, steps), Next(cfg, Run(cfg, steps), step), key)
      {
        OutcomeIsFinal(cfg, steps, step, key);
      }
    } else {
      OutcomeOverwritten(cfg);
    }
  }

  /* Cancelled invoices. */

  predicate IsCancelled(t: Tables, i: nat) {
    i in t.invoices && t.invoices[i].status == Cancelled
  }

  /** The reply that a live caller brings home records a stamp. */
  predicate LateStamp(cfg: Config, s: State, step: Step, i: nat) {
    && step.FinishStamp? && step.caller in s.calls && step.subscribersOk
    && s.calls[step.caller].sent && s.calls[step.caller].invoice == i
    && step.reply.Certified? && Validates(cfg, step.reply.certificate, s.calls[step.caller].xml)
    && UuidFree(s.tables, i, step.reply.certificate.uuid)
  }

  /** CANCELLED is left in one way only: by a certified reply, with a uuid no other invoice has, to a stamping call
      that outlived the cancellation. */
  lemma CancelledLeftExactlyByLateStamp(cfg: Config, s: State, step: Step, i: nat)
    requires Inv(cfg, s) && IsCancelled(s.tables, i)
    ensures var t' := Next(cfg, s, step).tables;
            i in t'.invoices && (IsCancelled(t', i) <==> !LateStamp(cfg, s, step, i))
  {
    hide TablesOk, CallOk, Validates, UuidFree;
    if step.BeginStamp? {
      BeginKeepsCancelled(cfg, s.tables, step.command, i);
      hide Begin;
    } else if step.FinishStamp? {
      if step.caller in s.calls && s.calls[step.caller].sent {
        CallIsKnown(s.tables, s.calls[step.caller]);
        FinishAndCancelled(cfg, s.tables, s.calls[step.caller], step.reply, step.subscribersOk, i);
        hide AfterFinish;
      }
    } else if step.ReplayEvent? {
      hide *;
      ReplayKeepsInvoices(cfg, s, step, i);
    } else if step.CommitCancellation? {
      hide *;
      CommitKeepsCancelled(cfg, s, step, i);
    } else {
      hide Begin, AfterFinish, Replay, CommitCancel;
    }
  }

  lemma ReplayKeepsInvoices(cfg: Config, s: State, step: Step, i: nat)
    requires step.ReplayEvent? && IsCancelled(s.tables, i)
    ensures IsCancelled(Next(cfg, s, step).tables, i) && !LateStamp(cfg, s, step, i)
  {
    hide Begin, AfterFinish, CommitCancel, Validates;
  }

  lemma CommitKeepsCancelled(cfg: Config, s: State, step: Step, i: nat)
    requires step.CommitCancellation? && IsCancelled(s.tables, i)
    ensures IsCancelled(Next(cfg, s, step).tables, i) && !LateStamp(cfg, s, step, i)
  {
    hide Begin, AfterFinish, Replay, Validates;
  }

  lemma BeginKeepsCancelled(cfg: Config, t: Tables, c: Command, i: nat)
    requires TablesOk(cfg, t) && IsCancelled(t, i)
    ensures var r := Begin(cfg, t, c); !r.Failed? ==> IsCancelled(r.tables, i)
    ensures Begin(cfg, t, c).Proceed? ==> c.invoice != i
  {
    hide Validates, Resume, TablesOk;
  }

  lemma FinishAndCancelled(cfg: Config, t: Tables, call: Call, reply: Reply, ok: bool, i: nat)
    requires TablesOk(cfg, t) && CallOk(t, call) && IsCancelled(t, i)
    ensures var t' := AfterFinish(cfg, t, call, reply, ok);
            && i in t'.invoices
            && (!IsCancelled(t', i)
                <==> ok && call.invoice == i && reply.Certified? && Validates(cfg, reply.certificate, call.xml)
                     && UuidFree(t, i, reply.certificate.uuid))
  {
    assert OpOk(cfg, t, call.key);
    if reply.Certified? {
      RecordIsRecorded(cfg, t, call.key, reply.certificate, ok);
    }
    hide Validates, TablesOk, OpOk, Record, UuidFree;
  }

  /** A live caller, before or after sending, holds XML to which some document is faithful. */
  ghost predicate CanStampLate(cfg: Config, s: State, i: nat) {
    exists caller, doc :: caller in s.calls && CanReturn(cfg, s.calls[caller], i, doc)
  }

  predicate CanReturn(cfg: Config, call: Call, i: nat, doc: string) {
    call.invoice == i && cfg.faithful(doc, call.xml)
  }

  lemma NoLateStampStays(cfg: Config, s: State, step: Step, i: nat)
    requires Inv(cfg, s) && IsCancelled(s.tables, i) && !CanStampLate(cfg, s, i)
    ensures IsCancelled(Next(cfg, s, step).tables, i) && !CanStampLate(cfg, Next(cfg, s, step), i)
  {
    CancelledLeftExactlyByLateStamp(cfg, s, step, i);
    if LateStamp(cfg, s, step, i) {
      LateStampIsPossible(cfg, s, step, i);
    }
    var s' := Next(cfg, s, step);
    forall caller, doc | caller in s'.calls
      ensures !CanReturn(cfg, s'.calls[caller], i, doc)
    {
      CallsAreOld(cfg, s, step, i, caller);
      if caller in s.calls && s'.calls[caller].invoice == i {
        assert !CanReturn(cfg, s.calls[caller], i, doc);
      }
      hide Next;
    }
  }

  lemma LateStampIsPossible(cfg: Config, s: State, step: Step, i: nat)
    requires LateStamp(cfg, s, step, i)
    ensures CanStampLate(cfg, s, i)
  {
    assert CanReturn(cfg, s.calls[step.caller], i, step.reply.certificate.xml);
  }

  /** While the invoice is cancelled no caller takes it up. */
  lemma CallsAreOld(cfg: Config, s: State, step: Step, i: nat, caller: nat)
    requires Inv(cfg, s) && IsCancelled(s.tables, i) && caller in Next(cfg, s, step).calls
    ensures var call := Next(cfg, s, step).calls[caller];
            call.invoice == i ==> caller in s.calls && s.calls[caller].invoice == i && s.calls[caller].xml == call.xml
  {
    hide TablesOk, CallOk, AfterFinish, Replay, CommitCancel;
    if step.BeginStamp? {
      BeginKeepsCancelled(cfg, s.tables, step.command, i);
      BeginIsSound(cfg, s.tables, step.command);
      hide Begin, Sound, Touches;
    } else {
      hide Begin;
    }
  }

  lemma {:induction false} StaysCancelled(cfg: Config, steps: seq<Step>, more: seq<Step>, i: nat)
    requires IsCancelled(Run(cfg, steps).tables, i) && !CanStampLate(cfg, Run(cfg, steps), i)
    ensures IsCancelled(Run(cfg, steps + more).tables, i) && !CanStampLate(cfg, Run(cfg, steps + more), i)
  {
    hide IsCancelled, CanStampLate, Run, Next, Inv;
    if more == [] {
      assert steps + more == steps;
    } else {
      var before := steps + more[..|more| - 1];
      StaysCancelled(cfg, steps, more[..|more| - 1], i);
      EveryRunKeepsInv(cfg, before);
      NoLateStampStays(cfg, Run(cfg, before), more[|more| - 1], i);
      RunUnfolds(cfg, before, more[|more| - 1]);
      assert before + [more[|more| - 1]] == steps + more;
    }
  }

  function Arrival(caller: nat, uuid: string, doc: string): Step {
    FinishStamp(caller, Certified(Certificate(uuid, doc, "", true)), true)
  }

  function LateReturn(caller: nat, uuid: string, doc: string): seq<Step> {
    [Send(caller), Arrival(caller, uuid, doc)]
  }

  lemma LateReturnStamps(cfg: Config, steps: seq<Step>, i: nat, caller: nat, uuid: string, doc: string)
    requires var s := Run(cfg, steps);
             && IsCancelled(s.tables, i) && caller in s.calls && CanReturn(cfg, s.calls[caller], i, doc)
             && uuid != "" && UuidFree(s.tables, i, uuid)
    ensures !IsCancelled(Run(cfg, steps + LateReturn(caller, uuid, doc)).tables, i)
  {
    hide UuidFree;
    var send, finish := Send(caller), Arrival(caller, uuid, doc);
    var s := Run(cfg, steps);
    var s' := Next(cfg, s, send);
    assert IsCancelled(s'.tables, i) && caller in s'.calls && s'.calls[caller] == s.calls[caller].(sent := true);
    assert LateStamp(cfg, s', finish, i);
    hide IsCancelled, Run, Next, Inv, LateStamp;
    RunUnfolds(cfg, steps, send);
    EveryRunKeepsInv(cfg, steps + [send]);
    RunUnfolds(cfg, steps + [send], finish);
    assert steps + [send] + [finish] == steps + LateReturn(caller, uuid, doc);
    CancelledLeftExactlyByLateStamp(cfg, s', finish, i);
  }

  /** The uuid an invoice was cancelled with is free for it. */
  lemma OwnUuidIsFree(cfg: Config, s: State, i: nat) returns (uuid: string)
    requires Inv(cfg, s) && IsCancelled(s.tables, i)
    ensures uuid != "" && UuidFree(s.tables, i, uuid)
  {
    hide UuidFree;
    assert InvoiceOk(cfg, s.tables, i);
    uuid := s.tables.invoices[i].uuid;
  }

  /** An invoice that is CANCELLED stays so in every continuation exactly when no live caller of it, sent or not yet
      sent, holds XML that a document could be faithful to. */
  lemma CancelledIsFinalExactly(cfg: Config, steps: seq<Step>, i: nat)
    requires IsCancelled(Run(cfg, steps).tables, i)
    ensures (forall more :: IsCancelled(Run(cfg, steps + more).tables, i)) <==> !CanStampLate(cfg, Run(cfg, steps), i)
  {
    var s := Run(cfg, steps);
    hide IsCancelled, Run, CanReturn;
    if CanStampLate(cfg, s, i) {
      var caller, doc :| caller in s.calls && CanReturn(cfg, s.calls[caller], i, doc);
      EveryRunKeepsInv(cfg, steps);
      var uuid := OwnUuidIsFree(cfg, s, i);
      hide UuidFree, Inv;
      LateReturnStamps(cfg, steps, i, caller, uuid, doc);
    } else {
      hide CanStampLate;
      forall more
        ensures IsCancelled(Run(cfg, steps + more).tables, i)
      {
        StaysCancelled(cfg, steps, more, i);
      }
    }
  }

  /* Two operations of one invoice. */

  /** Two callers prepare and send one draft invoice under two keys. */
  function TwoKeySteps(i: nat, key: Key, other: Key, xml: Xml): seq<Step> {
    [CreateDraft(i, ""), BeginStamp(0, Opening(i, key, xml)), Send(0), BeginStamp(1, Opening(i, other, xml)), Send(1)]
  }

  function Opening(i: nat, key: Key, xml: Xml): Command {
    Command(i, key, Some(xml), true, true, true, LookupFailed, true)
  }

  function TwoKeyTables(i: nat, key: Key, other: Key, xml: Xml): Tables {
    Tables(map[i := DRAFT], map[key := FirstAttempt(i, xml), other := FirstAttempt(i, xml)], [])
  }

  lemma OtherKeyBegin(cfg: Config, i: nat, key: Key, other: Key, xml: Xml)
    requires key != other
    ensures Begin(cfg, FirstTables(i, key, xml), Opening(i, other, xml))
         == Proceed(TwoKeyTables(i, key, other, xml), Call(other, i, xml, false))
  {
    hide BeginAgain;
    var t' := Begin(cfg, FirstTables(i, key, xml), Opening(i, other, xml)).tables;
    assert t'.ops == TwoKeyTables(i, key, other, xml).ops;
  }

  lemma AfterTwoKeys(cfg: Config, i: nat, key: Key, other: Key, xml: Xml)
    requires key != other
    ensures Run(cfg, TwoKeySteps(i, key, other, xml))
         == State(TwoKeyTables(i, key, other, xml),
                  map[0 := Call(key, i, xml, true), 1 := Call(other, i, xml, true)],
                  [Dispatch(key, xml), Dispatch(other, xml)])
  {
    var c := Opening(i, key, xml);
    var three := [CreateDraft(i, ""), BeginStamp(0, c), Send(0)];
    AfterFirstSend(cfg, c, i, key, xml);
    OtherKeyBegin(cfg, i, key, other, xml);
    RunUnfolds(cfg, three, BeginStamp(1, Opening(i, other, xml)));
    RunUnfolds(cfg, three + [BeginStamp(1, Opening(i, other, xml))], Send(1));
    assert three + [BeginStamp(1, Opening(i, other, xml))] + [Send(1)] == TwoKeySteps(i, key, other, xml);
    hide Begin, Run, TwoKeyTables, FirstTables, TwoKeySteps, Opening;
  }

  /** One of the two calls comes home, the invoice is cancelled, and the other call is still out. */
  function CancelSteps(uuid: string, doc: string, xml: Xml): seq<Step> {
    TwoKeySteps(0, 0, 1, xml) + [Arrival(0, uuid, doc), OpenCancellation(2, 0, ""), CommitCancellation(2, "", "", true)]
  }

  /** The only invoice is stamped and caller 1 is out. */
  predicate OtherOut(s: State, xml: Xml) {
    && s.tables.invoices.Keys == {0} && s.tables.invoices[0].status == Stamped
    && 1 in s.calls && s.calls[1].invoice == 0 && s.calls[1].xml == xml
  }

  lemma ArrivalStamps(cfg: Config, s: State, uuid: string, doc: string, xml: Xml)
    requires Inv(cfg, s) && cfg.faithful(doc, xml) && uuid != "" && s.tables.invoices.Keys == {0}
    requires 0 in s.calls && s.calls[0] == Call(0, 0, xml, true) && 1 in s.calls && s.calls[1] == Call(1, 0, xml, true)
    ensures var s' := Next(cfg, s, Arrival(0, uuid, doc)); OtherOut(s', xml) && s'.tables.ops.Keys == s.tables.ops.Keys
  {
    assert CallOk(s.tables, s.calls[0]);
    CallIsKnown(s.tables, s.calls[0]);
    OnlyInvoice(s.tables, uuid);
    ArrivalRecords(cfg, s.tables, s.calls[0], Certificate(uuid, doc, "", true));
    hide Inv, TablesOk, CallOk, AfterFinish, UuidFree, Validates;
  }

  lemma ArrivalRecords(cfg: Config, t: Tables, call: Call, cert: Certificate)
    requires TablesOk(cfg, t) && CallOk(t, call) && Validates(cfg, cert, call.xml) && UuidFree(t, call.invoice, cert.uuid)
    ensures AfterFinish(cfg, t, call, Certified(cert), true) == Recorded(t, call.key, cert)
  {
    RowsOk(cfg, t, call.key);
    hide TablesOk, UuidFree, Validates, InvoiceOk;
    RecordIsRecorded(cfg, t, call.key, cert, true);
    hide OpOk, Record, Recorded;
  }

  lemma CancellationCommits(cfg: Config, s: State, xml: Xml)
    requires Inv(cfg, s) && OtherOut(s, xml) && 2 !in s.tables.ops
    ensures var s' := Next(cfg, Next(cfg, s, OpenCancellation(2, 0, "")), CommitCancellation(2, "", "", true));
            IsCancelled(s'.tables, 0) && s'.calls == s.calls && s'.tables.invoices.Keys == {0}
  {
    hide *;
    NextKeepsInv(cfg, s, OpenCancellation(2, 0, ""));
    CancellationOpens(cfg, s, xml);
    OneCommit(cfg, Next(cfg, s, OpenCancellation(2, 0, "")));
  }

  lemma CancellationOpens(cfg: Config, s: State, xml: Xml)
    requires OtherOut(s, xml) && 2 !in s.tables.ops
    ensures var s' := Next(cfg, s, OpenCancellation(2, 0, ""));
            && Cancellation(s'.tables, 2) && s'.tables.ops[2].invoice == 0 && s'.calls == s.calls
            && s'.tables.invoices.Keys == {0}
  {
    hide Begin, AfterFinish, Replay, CommitCancel;
  }

  lemma OneCommit(cfg: Config, s: State)
    requires Inv(cfg, s) && Cancellation(s.tables, 2) && s.tables.ops[2].invoice == 0 && s.tables.invoices.Keys == {0}
    ensures var s' := Next(cfg, s, CommitCancellation(2, "", "", true));
            IsCancelled(s'.tables, 0) && s'.calls == s.calls && s'.tables.invoices.Keys == {0}
  {
    hide Begin, AfterFinish, Replay, CommitCancel;
    assert OpOk(cfg, s.tables, 2);
    CommitIsRecorded(cfg, s.tables, 2, "", "", true);
    hide Inv, TablesOk, OpOk;
  }

  lemma CancelStepsUnfold(cfg: Config, uuid: string, doc: string, xml: Xml)
    ensures var one := Run(cfg, TwoKeySteps(0, 0, 1, xml) + [Arrival(0, uuid, doc)]);
            && one == Next(cfg, Run(cfg, TwoKeySteps(0, 0, 1, xml)), Arrival(0, uuid, doc))
            && Run(cfg, CancelSteps(uuid, doc, xml))
            == Next(cfg, Next(cfg, one, OpenCancellation(2, 0, "")), CommitCancellation(2, "", "", true))
  {
    hide Next, Run, TwoKeySteps, Arrival;
    var six := TwoKeySteps(0, 0, 1, xml) + [Arrival(0, uuid, doc)];
    RunUnfolds(cfg, TwoKeySteps(0, 0, 1, xml), Arrival(0, uuid, doc));
    RunUnfolds(cfg, six, OpenCancellation(2, 0, ""));
    RunUnfolds(cfg, six + [OpenCancellation(2, 0, "")], CommitCancellation(2, "", "", true));
    assert six + [OpenCancellation(2, 0, "")] + [CommitCancellation(2, "", "", true)] == CancelSteps(uuid, doc, xml);
  }

  lemma TwoKeysOut(cfg: Config, xml: Xml)
    ensures var s := Run(cfg, TwoKeySteps(0, 0, 1, xml));
            && 0 in s.calls && s.calls[0] == Call(0, 0, xml, true) && 1 in s.calls && s.calls[1] == Call(1, 0, xml, true)
            && 2 !in s.tables.ops && s.tables.invoices.Keys == {0}
  {
    AfterTwoKeys(cfg, 0, 0, 1, xml);
    hide Run;
  }

  /** CANCELLED is not final: for every connector that accepts some document, a run that cancels an invoice and then
      stamps it, whatever uuids the two certificates carry. */
  lemma CancelledIsLeft(cfg: Config, doc: string, xml: Xml, uuid: string, late: string)
    requires cfg.faithful(doc, xml) && uuid != "" && late != ""
    ensures IsCancelled(Run(cfg, CancelSteps(uuid, doc, xml)).tables, 0)
    ensures !IsCancelled(Run(cfg, CancelSteps(uuid, doc, xml) + LateReturn(1, late, doc)).tables, 0)
  {
    var five := TwoKeySteps(0, 0, 1, xml);
    hide *;
    TwoKeysOut(cfg, xml);
    EveryRunKeepsInv(cfg, five);
    EveryRunKeepsInv(cfg, five + [Arrival(0, uuid, doc)]);
    CancelStepsUnfold(cfg, uuid, doc, xml);
    ArrivalStamps(cfg, Run(cfg, five), uuid, doc, xml);
    CancellationCommits(cfg, Run(cfg, five + [Arrival(0, uuid, doc)]), xml);
    OtherReturns(cfg, Run(cfg, five + [Arrival(0, uuid, doc)]), doc, xml);
    OnlyInvoice(Run(cfg, CancelSteps(uuid, doc, xml)).tables, late);
    LateReturnStamps(cfg, CancelSteps(uuid, doc, xml), 0, 1, late, doc);
  }

  lemma OnlyInvoice(t: Tables, uuid: string)
    requires t.invoices.Keys == {0}
    ensures UuidFree(t, 0, uuid)
  {
  }

  lemma OtherReturns(cfg: Config, s: State, doc: string, xml: Xml)
    requires OtherOut(s, xml) && cfg.faithful(doc, xml)
    ensures 1 in s.calls && CanReturn(cfg, s.calls[1], 0, doc)
  {
  }

  /* At most one dispatch per invoice. */

  /** No invoice is sent to the provider twice, under whatever keys. */
  ghost predicate InvoiceOnce(s: State) {
    forall a, b | 0 <= a < b < |s.dispatched| :: !SameInvoice(s.tables, s.dispatched[a].key, s.dispatched[b].key)
  }

  predicate SameInvoice(t: Tables, k: Key, k': Key) {
    k in t.ops && k' in t.ops && t.ops[k].invoice == t.ops[k'].invoice
  }

  /** Callers stamp an invoice only under keys allowed for it. */
  predicate UsesOnly(allowed: (nat, Key) -> bool, steps: seq<Step>) {
    forall n | 0 <= n < |steps| :: StepAllowed(allowed, steps[n])
  }

  predicate StepAllowed(allowed: (nat, Key) -> bool, step: Step) {
    step.BeginStamp? ==> allowed(step.command.invoice, step.command.key)
  }

  ghost predicate OneKeyEach(allowed: (nat, Key) -> bool) {
    forall i, k, k' :: allowed(i, k) && allowed(i, k') ==> k == k'
  }

  ghost predicate NoneAllowed(allowed: (nat, Key) -> bool) {
    forall i, k :: !allowed(i, k)
  }

  ghost predicate OpsAllowed(allowed: (nat, Key) -> bool, t: Tables) {
    forall k | k in t.ops && t.ops[k].kind == Stamp :: allowed(t.ops[k].invoice, k)
  }

  /** Stamp operations come from commands only. */
  lemma NextKeepsAllowed(cfg: Config, allowed: (nat, Key) -> bool, s: State, step: Step)
    requires Inv(cfg, s) && OpsAllowed(allowed, s.tables) && StepAllowed(allowed, step)
    ensures OpsAllowed(allowed, Next(cfg, s, step).tables)
  {
    var t' := Next(cfg, s, step).tables;
    hide TablesOk, CallOk;
    if step.BeginStamp? {
      BeginIsSound(cfg, s.tables, step.command);
      BeginCompletes(cfg, s.tables, step.command);
      hide Begin, Sound;
    } else {
      forall k | k in t'.ops && t'.ops[k].kind == Stamp
        ensures allowed(t'.ops[k].invoice, k)
      {
        OldOp(cfg, s, step, k);
      }
      hide Next;
    }
  }

  /** A completed first transaction opens no operation. */
  lemma BeginCompletes(cfg: Config, t: Tables, c: Command)
    requires TablesOk(cfg, t)
    ensures var r := Begin(cfg, t, c);
            r.Completed? ==> r.tables.ops.Keys == t.ops.Keys
                             && forall k | k in t.ops :: r.tables.ops[k].kind == t.ops[k].kind && r.tables.ops[k].invoice == t.ops[k].invoice
  {
    hide Validates, Resume, TablesOk;
  }

  /** Other steps neither open stamp operations nor move them to another invoice. */
  lemma OldOp(cfg: Config, s: State, step: Step, k: Key)
    requires Inv(cfg, s) && !step.BeginStamp?
    ensures var t' := Next(cfg, s, step).tables;
            k in t'.ops && t'.ops[k].kind == Stamp ==>
              k in s.tables.ops && s.tables.ops[k].kind == Stamp && s.tables.ops[k].invoice == t'.ops[k].invoice
  {
    hide TablesOk, CallOk, Validates;
    if step.FinishStamp? && step.caller in s.calls {
      CallIsKnown(s.tables, s.calls[step.caller]);
      FinishIsSound(cfg, s.tables, s.calls[step.caller], step.reply, step.subscribersOk);
      FinishKeys(cfg, s.tables, s.calls[step.caller], step.reply, step.subscribersOk);
      hide AfterFinish;
    }
  }

  lemma FinishKeys(cfg: Config, t: Tables, call: Call, reply: Reply, ok: bool)
    requires Known(t, call)
    ensures AfterFinish(cfg, t, call, reply, ok).ops.Keys == t.ops.Keys
  {
    hide Validates;
  }

  lemma {:induction false} RunKeepsAllowed(cfg: Config, allowed: (nat, Key) -> bool, steps: seq<Step>)
    requires UsesOnly(allowed, steps)
    ensures OpsAllowed(allowed, Run(cfg, steps).tables)
  {
    hide Next, Inv, StepAllowed;
    if steps != [] {
      var n := |steps| - 1;
      RunKeepsAllowed(cfg, allowed, steps[..n]);
      EveryRunKeepsInv(cfg, steps[..n]);
      hide OpsAllowed;
      NextKeepsAllowed(cfg, allowed, Run(cfg, steps[..n]), steps[n]);
    }
  }

  lemma DispatchAllowed(cfg: Config, allowed: (nat, Key) -> bool, s: State, n: nat)
    requires Inv(cfg, s) && OpsAllowed(allowed, s.tables) && n < |s.dispatched|
    ensures s.dispatched[n].key in s.tables.ops
    ensures allowed(s.tables.ops[s.dispatched[n].key].invoice, s.dispatched[n].key)
  {
    hide TablesOk;
    assert s.dispatched[n] in s.dispatched;
  }

  lemma OneKeyOneDispatch(cfg: Config, allowed: (nat, Key) -> bool, steps: seq<Step>)
    requires Neither(cfg) && OneKeyEach(allowed) && UsesOnly(allowed, steps)
    ensures InvoiceOnce(Run(cfg, steps))
  {
    hide Run, Neither, TablesOk, UsesOnly;
    AtMostOneDispatch(cfg, steps);
    RunKeepsAllowed(cfg, allowed, steps);
    EveryRunKeepsInv(cfg, steps);
    var s := Run(cfg, steps);
    forall a, b | 0 <= a < b < |s.dispatched|
      ensures !SameInvoice(s.tables, s.dispatched[a].key, s.dispatched[b].key)
    {
      DispatchAllowed(cfg, allowed, s, a);
      DispatchAllowed(cfg, allowed, s, b);
    }
  }

  lemma TwoDispatches(s: State)
    requires |s.dispatched| == 2 && SameInvoice(s.tables, s.dispatched[0].key, s.dispatched[1].key)
    ensures !InvoiceOnce(s)
  {
  }

  /** Whatever the connector, two keys let an invoice be sent twice. */
  lemma TwoKeysTwoDispatches(cfg: Config, i: nat, key: Key, other: Key)
    requires key != other
    ensures !InvoiceOnce(Run(cfg, TwoKeySteps(i, key, other, "<")))
  {
    AfterTwoKeys(cfg, i, key, other, "<");
    hide Run, TwoKeySteps;
    TwoDispatches(Run(cfg, TwoKeySteps(i, key, other, "<")));
  }

  lemma OneKeyTwoDispatches(cfg: Config, i: nat, key: Key)
    requires !Neither(cfg)
    ensures !InvoiceOnce(Run(cfg, TwiceSteps(i, key)))
  {
    hide Run, TwiceSteps, Neither;
    SentTwice(cfg, i, key);
    TwoDispatches(Run(cfg, TwiceSteps(i, key)));
  }

  /** Each invoice is dispatched at most once in every run of callers that use only allowed keys, exactly when no
      invoice has two keys and the connector has neither capability (or no key is allowed at all). */
  lemma PerInvoiceExactly(cfg: Config, allowed: (nat, Key) -> bool)
    ensures (forall steps | UsesOnly(allowed, steps) :: InvoiceOnce(Run(cfg, steps)))
       <==> OneKeyEach(allowed) && (Neither(cfg) || NoneAllowed(allowed))
  {
    hide InvoiceOnce, Run, Neither, UsesOnly;
    if NoneAllowed(allowed) {
      forall steps | UsesOnly(allowed, steps)
        ensures InvoiceOnce(Run(cfg, steps))
      {
        NothingDispatched(cfg, allowed, steps);
      }
    } else if !Neither(cfg) {
      var i, k :| allowed(i, k);
      OneKeyAllowed(allowed, i, k);
      OneKeyTwoDispatches(cfg, i, k);
    } else if OneKeyEach(allowed) {
      hide OneKeyEach;
      forall steps | UsesOnly(allowed, steps)
        ensures InvoiceOnce(Run(cfg, steps))
      {
        OneKeyOneDispatch(cfg, allowed, steps);
      }
    } else {
      var i, k, k' :| allowed(i, k) && allowed(i, k') && k != k';
      TwoKeysAllowed(allowed, i, k, k');
      TwoKeysTwoDispatches(cfg, i, k, k');
    }
  }

  lemma OneKeyAllowed(allowed: (nat, Key) -> bool, i: nat, k: Key)
    requires allowed(i, k)
    ensures UsesOnly(allowed, TwiceSteps(i, k))
  {
  }

  lemma TwoKeysAllowed(allowed: (nat, Key) -> bool, i: nat, k: Key, k': Key)
    requires allowed(i, k) && allowed(i, k')
    ensures UsesOnly(allowed, TwoKeySteps(i, k, k', "<"))
  {
  }

  lemma NothingDispatched(cfg: Config, allowed: (nat, Key) -> bool, steps: seq<Step>)
    requires NoneAllowed(allowed) && UsesOnly(allowed, steps)
    ensures InvoiceOnce(Run(cfg, steps))
  {
    hide Run, TablesOk, UsesOnly;
    RunKeepsAllowed(cfg, allowed, steps);
    EveryRunKeepsInv(cfg, steps);
    var s := Run(cfg, steps);
    if s.dispatched != [] {
      DispatchAllowed(cfg, allowed, s, 0);
    }
  }
}
