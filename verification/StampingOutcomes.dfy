/** Which answer of the provider leaves which status, over whole runs, and what can still be recovered. */
module StampingOutcomes {
  import opened Results
  import opened Stamping
  import opened StampingRuns

  /** What a step does to the status of a stamp operation. */
  datatype Write = Attempt | Recording | Rejection | Doubt

  function StatusOf(w: Write): Status {
    match w
    case Attempt => InFlight
    case Recording => Succeeded
    case Rejection => FailedTerminal
    case Doubt => ReconciliationRequired
  }

  /** A live caller that has sent operation `key` brings its reply home. */
  predicate Answers(s: State, step: Step, key: Key) {
    && step.FinishStamp? && step.caller in s.calls && s.calls[step.caller].sent && s.calls[step.caller].key == key
  }

  /** The reply certifies the XML that was sent. */
  predicate Certifies(cfg: Config, call: Call, reply: Reply) {
    && reply.Certified? && reply.certificate.uuid != "" && reply.certificate.genuine
    && cfg.faithful(reply.certificate.xml, call.xml)
  }

  /** What a reply to a call that was sent leaves, if anything. */
  function ReplyWrite(cfg: Config, t: Tables, call: Call, reply: Reply, subscribersOk: bool): Option<Write> {
    if reply == Rejected then Some(Rejection)
    else if !Certifies(cfg, call, reply) then Some(Doubt)
    else if subscribersOk && UuidFree(t, call.invoice, reply.certificate.uuid) then Some(Recording)
    else None
  }

  function WriteOf(cfg: Config, s: State, step: Step, key: Key): Option<Write> {
    if step.BeginStamp? && step.caller !in s.calls && step.command.key == key then
      match Begin(cfg, s.tables, step.command)
      case Failed(_) => None
      case Proceed(_, _) => Some(Attempt)
      case Completed(_) => if s.tables.invoices[step.command.invoice].status == Draft then Some(Recording) else None
    else if Answers(s, step, key) then ReplyWrite(cfg, s.tables, s.calls[step.caller], step.reply, step.subscribersOk)
    else None
  }

  /** The last write to the operation in a run. */
  function LastWrite(cfg: Config, steps: seq<Step>, key: Key): Option<Write> {
    if steps == [] then None else
      var n := |steps| - 1;
      var w := WriteOf(cfg, Run(cfg, steps[..n]), steps[n], key);
      if w.Some? then w else LastWrite(cfg, steps[..n], key)
  }

  predicate IsStamp(t: Tables, key: Key) {
    key in t.ops && t.ops[key].kind == Stamp
  }

  /** The row's status is the one of the write, and there is a row exactly when there is a write. */
  predicate Shows(t: Tables, key: Key, w: Option<Write>) {
    (IsStamp(t, key) <==> w.Some?) && (w.Some? ==> IsStamp(t, key) && t.ops[key].status == StatusOf(w.value))
  }

  lemma AnswerIsWritten(cfg: Config, t: Tables, call: Call, reply: Reply, subscribersOk: bool)
    requires TablesOk(cfg, t) && CallOk(t, call)
    ensures var t', w := AfterFinish(cfg, t, call, reply, subscribersOk), ReplyWrite(cfg, t, call, reply, subscribersOk);
            && IsStamp(t', call.key)
            && t'.ops[call.key].status == if w.Some? then StatusOf(w.value) else t.ops[call.key].status
  {
    hide TablesOk, UuidFree, AfterFinish;
    if Certifies(cfg, call, reply) {
      SuccessIsWritten(cfg, t, call, reply, subscribersOk);
    } else {
      FailureIsWritten(cfg, t, call, reply, subscribersOk);
    }
    hide Certifies;
  }

  lemma SuccessIsWritten(cfg: Config, t: Tables, call: Call, reply: Reply, subscribersOk: bool)
    requires TablesOk(cfg, t) && CallOk(t, call) && Certifies(cfg, call, reply)
    ensures AfterFinish(cfg, t, call, reply, subscribersOk)
         == if subscribersOk && UuidFree(t, call.invoice, reply.certificate.uuid)
            then Recorded(t, call.key, reply.certificate) else t
  {
    RowsOk(cfg, t, call.key);
    hide TablesOk, InvoiceOk, UuidFree;
    RecordIsRecorded(cfg, t, call.key, reply.certificate, subscribersOk);
    hide OpOk, Record, Recorded;
  }

  lemma FailureIsWritten(cfg: Config, t: Tables, call: Call, reply: Reply, subscribersOk: bool)
    requires Known(t, call) && !Certifies(cfg, call, reply)
    ensures AfterFinish(cfg, t, call, reply, subscribersOk)
         == WithStatus(t, call.key, if reply.Rejected? then FailedTerminal else ReconciliationRequired)
  {
    hide Record;
  }

  lemma NewAnswer(cfg: Config, s: State, step: Step, key: Key)
    requires Inv(cfg, s) && Answers(s, step, key)
    ensures IsStamp(s.tables, key) && IsStamp(Next(cfg, s, step).tables, key)
    ensures var w := WriteOf(cfg, s, step, key);
            Next(cfg, s, step).tables.ops[key].status == if w.Some? then StatusOf(w.value) else s.tables.ops[key].status
  {
    var call := s.calls[step.caller];
    assert CallOk(s.tables, call);
    CallIsKnown(s.tables, call);
    AnswerIsWritten(cfg, s.tables, call, step.reply, step.subscribersOk);
    hide Inv, TablesOk, AfterFinish, ReplyWrite, StatusOf, Begin;
  }

  lemma NewBegin(cfg: Config, s: State, step: Step, key: Key)
    requires Inv(cfg, s) && step.BeginStamp? && step.caller !in s.calls && step.command.key == key
    requires !Begin(cfg, s.tables, step.command).Failed?
    ensures var t', w := Next(cfg, s, step).tables, WriteOf(cfg, s, step, key);
            if w.Some? then IsStamp(t', key) && t'.ops[key].status == StatusOf(w.value) else t' == s.tables
  {
    var c := step.command;
    BeginIsSound(cfg, s.tables, c);
    if Begin(cfg, s.tables, c).Completed? && s.tables.invoices[c.invoice].status == Draft {
      BeginRecords(cfg, s.tables, c);
      hide Begin, TablesOk, Sound;
    } else if Begin(cfg, s.tables, c).Proceed? {
      hide Begin, TablesOk, Sound;
    } else {
      hide TablesOk, BeginAgain, Pin;
    }
  }

  /** A first transaction that completes from a draft has recorded the stamp. */
  lemma BeginRecords(cfg: Config, t: Tables, c: Command)
    requires TablesOk(cfg, t) && Begin(cfg, t, c).Completed? && t.invoices[c.invoice].status == Draft
    ensures var t' := Begin(cfg, t, c).tables;
            && IsStamp(t, c.key) && IsStamp(t', c.key) && t'.ops[c.key].status == Succeeded
            && t'.ops.Keys == t.ops.Keys && forall k | k in t.ops && k != c.key :: t'.ops[k] == t.ops[k]
  {
    RepairIsUnreachable(cfg, t, c.key);
    assert OpOk(cfg, t, c.key);
    hide TablesOk;
    var cert := Resume(cfg, t.ops[c.key], c).certificate;
    RecordIsRecorded(cfg, t, c.key, cert, c.subscribersOk);
    hide Record, Resume, Validates, UuidFree, OpOk;
  }

  lemma OtherKeyKept(cfg: Config, s: State, step: Step, key: Key)
    requires Inv(cfg, s) && !Answers(s, step, key)
    requires step.BeginStamp? ==> step.caller in s.calls || step.command.key != key
    ensures var t, t' := s.tables, Next(cfg, s, step).tables;
            (IsStamp(t, key) <==> IsStamp(t', key)) && (IsStamp(t, key) ==> t'.ops[key].status == t.ops[key].status)
  {
    hide TablesOk, CallOk, Validates;
    if step.BeginStamp? {
      if step.caller !in s.calls {
        OtherBeginKept(cfg, s.tables, step.command, key);
        hide Begin;
      }
    } else {
      OldOp(cfg, s, step, key);
      if IsStamp(s.tables, key) {
        if step.FinishStamp? && step.caller in s.calls && s.calls[step.caller].key == key {
          assert !s.calls[step.caller].sent;
        } else {
          StatusWrites(cfg, s, step, key);
        }
      }
      hide Begin, AfterFinish, Replay, CommitCancel;
    }
  }

  lemma OtherBeginKept(cfg: Config, t: Tables, c: Command, key: Key)
    requires TablesOk(cfg, t) && c.key != key
    ensures var r := Begin(cfg, t, c);
            !r.Failed? ==> (key in t.ops <==> key in r.tables.ops) && (key in t.ops ==> r.tables.ops[key] == t.ops[key])
  {
    hide Validates, Resume, TablesOk;
  }

  lemma NextShows(cfg: Config, s: State, step: Step, key: Key, w: Option<Write>)
    requires Inv(cfg, s) && Shows(s.tables, key, w)
    ensures var w' := WriteOf(cfg, s, step, key); Shows(Next(cfg, s, step).tables, key, if w'.Some? then w' else w)
  {
    if Answers(s, step, key) {
      NewAnswer(cfg, s, step, key);
      hide WriteOf, Next, Inv;
    } else if step.BeginStamp? && step.caller !in s.calls && step.command.key == key {
      if Begin(cfg, s.tables, step.command).Failed? {
        hide Begin, Inv;
      } else {
        NewBegin(cfg, s, step, key);
        hide WriteOf, Next, Inv;
      }
    } else {
      OtherKeyKept(cfg, s, step, key);
      assert WriteOf(cfg, s, step, key) == None;
      hide WriteOf, Next, Inv;
    }
  }

  /** In every run, an operation's status is the one of the last write to it: in flight after an attempt, SUCCEEDED
      after a certificate that was recorded, FAILED_TERMINAL after a rejection, and RECONCILIATION_REQUIRED after every
      other answer. */
  lemma {:induction false} StatusIsLastWrite(cfg: Config, steps: seq<Step>, key: Key)
    ensures Shows(Run(cfg, steps).tables, key, LastWrite(cfg, steps, key))
  {
    if steps != [] {
      var n := |steps| - 1;
      StatusIsLastWrite(cfg, steps[..n], key);
      EveryRunKeepsInv(cfg, steps[..n]);
      hide Shows, WriteOf, Next, Inv;
      NextShows(cfg, Run(cfg, steps[..n]), steps[n], key, LastWrite(cfg, steps[..n], key));
    }
  }

  /* The same, by position in the run. */

  predicate WritesAt(cfg: Config, steps: seq<Step>, n: nat, key: Key, w: Option<Write>)
    requires n < |steps|
  {
    WriteOf(cfg, Run(cfg, steps[..n]), steps[n], key) == w
  }

  /** Step n makes this write, and no later step writes. */
  predicate LastAt(cfg: Config, steps: seq<Step>, n: nat, key: Key, w: Write) {
    && n < |steps| && WritesAt(cfg, steps, n, key, Some(w))
    && forall m | n < m < |steps| :: WritesAt(cfg, steps, m, key, None)
  }

  lemma {:induction false} LastWriteIsLast(cfg: Config, steps: seq<Step>, key: Key, w: Write)
    ensures LastWrite(cfg, steps, key) == Some(w) <==> exists n :: LastAt(cfg, steps, n, key, w)
  {
    hide WriteOf, Run;
    if steps != [] {
      var last := |steps| - 1;
      LastWriteIsLast(cfg, steps[..last], key, w);
      assert WritesAt(cfg, steps, last, key, WriteOf(cfg, Run(cfg, steps[..last]), steps[last], key));
      if WritesAt(cfg, steps, last, key, None) {
        if n :| LastAt(cfg, steps[..last], n, key, w) {
          LastAtLonger(cfg, steps, n, key, w);
        }
        if n :| LastAt(cfg, steps, n, key, w) {
          LastAtShorter(cfg, steps, n, key, w);
        }
      } else {
        if WritesAt(cfg, steps, last, key, Some(w)) {
          assert LastAt(cfg, steps, last, key, w);
        }
      }
    }
  }

  lemma LastAtLonger(cfg: Config, steps: seq<Step>, n: nat, key: Key, w: Write)
    requires steps != [] && LastAt(cfg, steps[..|steps| - 1], n, key, w) && WritesAt(cfg, steps, |steps| - 1, key, None)
    ensures LastAt(cfg, steps, n, key, w)
  {
    hide WriteOf, Run;
    var front := steps[..|steps| - 1];
    assert front[..n] == steps[..n];
    forall m | n < m < |steps|
      ensures WritesAt(cfg, steps, m, key, None)
    {
      if m < |front| {
        assert WritesAt(cfg, front, m, key, None);
        assert front[..m] == steps[..m];
      }
    }
  }

  lemma LastAtShorter(cfg: Config, steps: seq<Step>, n: nat, key: Key, w: Write)
    requires LastAt(cfg, steps, n, key, w) && WritesAt(cfg, steps, |steps| - 1, key, None)
    ensures n < |steps| - 1 && LastAt(cfg, steps[..|steps| - 1], n, key, w)
  {
    hide WriteOf, Run;
    var front := steps[..|steps| - 1];
    assert n < |front|;
    assert front[..n] == steps[..n];
    forall m | n < m < |front|
      ensures WritesAt(cfg, front, m, key, None)
    {
      assert WritesAt(cfg, steps, m, key, None);
      assert front[..m] == steps[..m];
    }
  }

  /** Step n is the last to write the operation, and is a caller bringing home a rejection. */
  predicate RejectedLast(cfg: Config, steps: seq<Step>, n: nat, key: Key) {
    && n < |steps| && Answers(Run(cfg, steps[..n]), steps[n], key) && steps[n].reply == Rejected
    && forall m | n < m < |steps| :: WritesAt(cfg, steps, m, key, None)
  }

  lemma RejectionIsAnswer(cfg: Config, s: State, step: Step, key: Key)
    ensures WriteOf(cfg, s, step, key) == Some(Rejection) <==> Answers(s, step, key) && step.reply == Rejected
  {
    hide Begin, Certifies, UuidFree;
  }

  /** In every run a stamp operation is FAILED_TERMINAL exactly when the last outcome written for it was a rejection by
      the provider; a timeout, a failed call or evidence that does not hold never makes it so. */
  lemma TerminalExactly(cfg: Config, steps: seq<Step>, key: Key)
    ensures var t := Run(cfg, steps).tables;
            IsStamp(t, key) && t.ops[key].status == FailedTerminal <==> exists n :: RejectedLast(cfg, steps, n, key)
  {
    StatusIsLastWrite(cfg, steps, key);
    LastWriteIsLast(cfg, steps, key, Rejection);
    hide LastWrite, Run, WriteOf, Answers;
    forall n | 0 <= n < |steps|
      ensures LastAt(cfg, steps, n, key, Rejection) <==> RejectedLast(cfg, steps, n, key)
    {
      RejectionIsAnswer(cfg, Run(cfg, steps[..n]), steps[n], key);
    }
    hide LastAt, RejectedLast, IsStamp;
    if n :| LastAt(cfg, steps, n, key, Rejection) {
      LastAtInside(cfg, steps, n, key);
      assert RejectedLast(cfg, steps, n, key);
    }
    if n :| RejectedLast(cfg, steps, n, key) {
      RejectedInside(cfg, steps, n, key);
      assert LastAt(cfg, steps, n, key, Rejection);
    }
  }

  lemma LastAtInside(cfg: Config, steps: seq<Step>, n: nat, key: Key)
    requires LastAt(cfg, steps, n, key, Rejection)
    ensures n < |steps|
  {
  }

  lemma RejectedInside(cfg: Config, steps: seq<Step>, n: nat, key: Key)
    requires RejectedLast(cfg, steps, n, key)
    ensures n < |steps|
  {
  }

  /* Recovery by lookup. */

  /** The command repeats the operation's request, and its authorized lookup confirms a certificate for the pinned XML
      that can be recorded. */
  predicate Confirms(cfg: Config, t: Tables, c: Command, cert: Certificate) {
    && IsStamp(t, c.key) && c.invoice in t.invoices && t.invoices[c.invoice].status == Draft
    && t.ops[c.key].request == StampRequest(c.invoice, t.invoices[c.invoice].facts)
    && t.ops[c.key].requestXml.Some? && Certifies(cfg, Call(c.key, c.invoice, t.ops[c.key].requestXml.value, true), Certified(cert))
    && cfg.caps.lookup && c.authorized && c.lookup == Answer(StampedConfirmed(cert))
    && c.subscribersOk && UuidFree(t, c.invoice, cert.uuid)
  }

  /** The stamp is on the invoice and on the operation. */
  predicate StampedWith(t: Tables, c: Command, cert: Certificate) {
    && c.invoice in t.invoices && t.invoices[c.invoice].status == Stamped && t.invoices[c.invoice].uuid == cert.uuid
    && t.invoices[c.invoice].stampedXml == Some(cert.xml)
    && c.key in t.ops && t.ops[c.key].status == Succeeded && t.ops[c.key].externalUuid == cert.uuid
  }

  /** A confirming lookup stamps the invoice of a draft exactly when its operation has not failed terminally. */
  lemma LookupStampsExactly(cfg: Config, t: Tables, c: Command, cert: Certificate)
    requires TablesOk(cfg, t) && Confirms(cfg, t, c, cert)
    ensures Begin(cfg, t, c) == if t.ops[c.key].status == FailedTerminal then Failed(TerminalFailure)
                                else Completed(Recorded(t, c.key, cert))
    ensures t.ops[c.key].status != FailedTerminal ==> StampedWith(Recorded(t, c.key, cert), c, cert)
  {
    RepairIsUnreachable(cfg, t, c.key);
    RowsOk(cfg, t, c.key);
    hide TablesOk, InvoiceOk, UuidFree;
    RecordIsRecorded(cfg, t, c.key, cert, c.subscribersOk);
    hide Record;
  }

  /** A draft's operation that was sent and got any failing answer is stamped by a later confirming lookup exactly when
      that answer was not a rejection. */
  lemma FailureIsRecoverableExactly(
    cfg: Config, steps: seq<Step>, caller: nat, reply: Reply, subscribersOk: bool, c: Command, cert: Certificate)
    requires var s := Run(cfg, steps);
             && Answers(s, FinishStamp(caller, reply, subscribersOk), c.key) && !Certifies(cfg, s.calls[caller], reply)
             && Confirms(cfg, s.tables, c, cert)
    ensures var t := Run(cfg, steps + [FinishStamp(caller, reply, subscribersOk)] + [BeginStamp(caller, c)]).tables;
            && (reply != Rejected ==> StampedWith(t, c, cert))
            && (reply == Rejected ==> c.invoice in t.invoices && t.invoices[c.invoice].status == Draft)
  {
    var s, finish := Run(cfg, steps), FinishStamp(caller, reply, subscribersOk);
    EveryRunKeepsInv(cfg, steps);
    EveryRunKeepsInv(cfg, steps + [finish]);
    RunUnfolds(cfg, steps, finish);
    RunUnfolds(cfg, steps + [finish], BeginStamp(caller, c));
    hide Run, Next, Inv, Confirms, StampedWith, Certifies;
    AfterFailure(cfg, s, caller, reply, subscribersOk, c, cert);
    BeginAfterFailure(cfg, Next(cfg, s, finish), caller, c, cert);
  }

  lemma AfterFailure(cfg: Config, s: State, caller: nat, reply: Reply, subscribersOk: bool, c: Command, cert: Certificate)
    requires Inv(cfg, s) && Answers(s, FinishStamp(caller, reply, subscribersOk), c.key)
    requires !Certifies(cfg, s.calls[caller], reply) && Confirms(cfg, s.tables, c, cert)
    ensures var s' := Next(cfg, s, FinishStamp(caller, reply, subscribersOk));
            && caller !in s'.calls && Confirms(cfg, s'.tables, c, cert) && IsStamp(s'.tables, c.key)
            && (s'.tables.ops[c.key].status == FailedTerminal <==> reply == Rejected)
  {
    var call := s.calls[caller];
    assert CallOk(s.tables, call);
    CallIsKnown(s.tables, call);
    hide Inv, TablesOk, CallOk, AfterFinish, Certifies;
    FailureIsWritten(cfg, s.tables, call, reply, subscribersOk);
    var t' := WithStatus(s.tables, call.key, if reply.Rejected? then FailedTerminal else ReconciliationRequired);
    assert UuidFree(t', c.invoice, cert.uuid);
    hide UuidFree;
  }

  lemma BeginAfterFailure(cfg: Config, s: State, caller: nat, c: Command, cert: Certificate)
    requires Inv(cfg, s) && caller !in s.calls && Confirms(cfg, s.tables, c, cert)
    ensures var t := Next(cfg, s, BeginStamp(caller, c)).tables;
            if IsStamp(s.tables, c.key) && s.tables.ops[c.key].status == FailedTerminal
            then c.invoice in t.invoices && t.invoices[c.invoice].status == Draft
            else StampedWith(t, c, cert)
  {
    LookupStampsExactly(cfg, s.tables, c, cert);
    hide Begin, TablesOk, Recorded, StampedWith, UuidFree, Certifies;
  }
}
