/** The stamping service, statement by statement. A transaction works on a copy of the tables that is committed
    as a whole, or dropped when it throws. */
module StampingService {
  import opened Results
  import opened Stamping

  /** The tables differ by one event, and by its payload where its operation had none. */
  predicate OneMoreEvent(t: Tables, t': Tables, e: Event) {
    && t'.invoices == t.invoices && t'.outbox == t.outbox + [e]
    && e.op in t.ops && t'.ops == t.ops[e.op := t.ops[e.op].(payload := Some(e.payload))]
    && (t.ops[e.op].payload.Some? ==> e.payload == t.ops[e.op].payload.value)
    && e.payload.semanticId == SemanticId(e.op, e.kind)
  }

  /** The payload names an operation of that kind and invoice, and repeats the id of any payload stored before. */
  predicate MayEnqueue(t: Tables, kind: Kind, invoice: nat, payload: Payload) {
    var sid := payload.semanticId;
    && sid == SemanticId(sid.op, kind) && sid.op in t.ops && t.ops[sid.op].semanticId == Some(sid)
    && t.ops[sid.op].kind == kind && t.ops[sid.op].invoice == invoice
    && (t.ops[sid.op].payload.Some? ==> t.ops[sid.op].payload.value.semanticId == sid)
  }

  /** Operation, invoice and event agree on the certificate. */
  predicate StampRecorded(t: Tables, t': Tables, key: Key, invoice: nat, c: Certificate) {
    && key in t'.ops && t'.ops[key].status == Succeeded && t'.ops[key].invoice == invoice
    && t'.ops[key].externalUuid == c.uuid && t'.ops[key].stampedXml == Some(c.xml)
    && invoice in t'.invoices && t'.invoices[invoice].status == Stamped
    && t'.invoices[invoice].uuid == c.uuid && t'.invoices[invoice].stampedXml == Some(c.xml)
    && |t'.outbox| == |t.outbox| + 1 && t.outbox <= t'.outbox
    && t'.ops[key].payload.Some? && t'.outbox[|t.outbox|] == Event(key, Stamp, invoice, t'.ops[key].payload.value)
  }

  /** The UPDATEs that record a certified stamp, and its event. */
  method RecordStamp(t: Tables, key: Key, invoice: nat, c: Certificate, subscribersOk: bool)
    returns (result: Result<Tables, Error>)
    requires key in t.ops && invoice in t.invoices
    ensures result == Record(t, key, invoice, c, subscribersOk)
    ensures result.Ok? ==> StampRecorded(t, result.value, key, invoice, c)
    ensures result.Err? ==> result.error == if UuidFree(t, invoice, c.uuid) then EventIncompatible else UuidTaken
    ensures result.Ok? <==>
              && UuidFree(t, invoice, c.uuid) && subscribersOk && t.ops[key].kind == Stamp && t.ops[key].invoice == invoice
              && (t.ops[key].payload.Some? ==> t.ops[key].payload.value.semanticId == SemanticId(key, Stamp))
  {
    hide Enqueue, UuidFree;
    SameUuids(t, invoice, c.uuid);
    var working := t;
    var semanticEventId := SemanticId(key, Stamp);
    var op := working.ops[key];
    working := working.(ops := working.ops[key := op.(
      status := Succeeded, externalUuid := c.uuid, stampedXml := Some(c.xml), semanticId := Some(semanticEventId))]);
    var row := working.invoices[invoice];
    if !UuidFree(working, invoice, c.uuid) {
      return Err(UuidTaken);
    }
    working := working.(invoices := working.invoices[invoice := row.(
      status := Stamped, uuid := c.uuid, stampedXml := Some(c.xml))]);
    result := EnqueueFiscalEvent(working, Stamp, invoice, Payload(semanticEventId, c.uuid, c.details), subscribersOk);
  }

  /** The unique key looks at invoices only. */
  lemma SameUuids(t: Tables, invoice: nat, uuid: string)
    ensures forall t': Tables | t'.invoices == t.invoices :: UuidFree(t', invoice, uuid) <==> UuidFree(t, invoice, uuid)
  {
  }

  method EnqueueFiscalEvent(t: Tables, kind: Kind, invoice: nat, payload: Payload, subscribersOk: bool)
    returns (result: Result<Tables, Error>)
    ensures result == Enqueue(t, kind, invoice, payload, subscribersOk)
    ensures result.Ok? ==>
              |result.value.outbox| == |t.outbox| + 1 && OneMoreEvent(t, result.value, result.value.outbox[|t.outbox|])
    ensures result.Ok? ==>
              var e := result.value.outbox[|t.outbox|]; e.op == payload.semanticId.op && e.kind == kind && e.invoice == invoice
    ensures result.Ok? <==> subscribersOk && MayEnqueue(t, kind, invoice, payload)
    ensures result.Err? ==> result.error == EventIncompatible
  {
    if !subscribersOk {
      return Err(EventIncompatible);
    }
    var key := payload.semanticId.op;
    if key !in t.ops || t.ops[key].semanticId != Some(payload.semanticId) {
      return Err(EventIncompatible);
    }
    var row := t.ops[key];
    if row.kind != kind || row.invoice != invoice || payload.semanticId != SemanticId(key, row.kind) {
      return Err(EventIncompatible);
    }
    var working, durable := t, payload;
    if row.payload.Some? {
      durable := row.payload.value;
      if durable.semanticId != payload.semanticId {
        return Err(EventIncompatible);
      }
      assert t.ops[key := row.(payload := Some(durable))] == t.ops;
    } else {
      working := working.(ops := working.ops[key := row.(payload := Some(payload))]);
    }
    return Ok(working.(outbox := working.outbox + [Event(key, kind, invoice, durable)]));
  }

  function PinnedXml(t: Tables, key: Key): Option<Xml> {
    if key in t.ops then t.ops[key].requestXml else None
  }

  /** Signing and pinning, at the end of phase 1. */
  method PinXml(t: Tables, c: Command) returns (result: Begun)
    requires c.key in t.ops
    ensures result == Pin(t, c)
    ensures result.Proceed? ==>
              && c.generated == Some(result.call.xml) && PinnedXml(result.tables, c.key) == Some(result.call.xml)
              && (PinnedXml(t, c.key).Some? ==> PinnedXml(t, c.key) == Some(result.call.xml))
    ensures result == Failed(CredentialsMissing) <==> c.generated.None?
    ensures result == Failed(XmlChanged) <==>
              c.generated.Some? && PinnedXml(t, c.key).Some? && PinnedXml(t, c.key) != c.generated
    ensures result.Failed? ==> c.generated.None? || result.error == XmlChanged
    ensures result.Proceed? ==>
              && result.tables == t.(ops := t.ops[c.key := t.ops[c.key].(requestXml := c.generated)])
              && result.call == Call(c.key, c.invoice, c.generated.value, false)
    ensures !result.Completed?
  {
    if c.generated.None? {
      return Failed(CredentialsMissing);
    }
    var cfdiXml := c.generated.value;
    var op := t.ops[c.key];
    var working := t;
    if op.requestXml.None? {
      working := working.(ops := working.ops[c.key := op.(requestXml := Some(cfdiXml))]);
    } else {
      assert t.ops[c.key := op.(requestXml := Some(op.requestXml.value))] == t.ops;
    }
    if working.ops[c.key].requestXml != Some(cfdiXml) {
      return Failed(XmlChanged);
    }
    return Proceed(working, Call(c.key, c.invoice, cfdiXml, false));
  }

  /** An operation whose fate is unknown may be sent again: by a connector with idempotent replay, or after a lookup that
      found nothing when replay is allowed, or that answered neither. */
  predicate MayRedispatch(cfg: Config, c: Command) {
    && c.authorized
    && if cfg.caps.lookup then
         && c.lookup.Answer?
         && (|| c.lookup.outcome.Other?
             || (c.lookup.outcome.StampedConfirmed? && c.lookup.outcome.certificate.uuid == "")
             || (c.lookup.outcome.NotFoundConfirmed? && cfg.caps.replayAfterNotFound && c.replayAuthorized))
       else cfg.caps.idempotencyKey
  }

  /** Errors that say something about the operation, not about the invoice or the request. */
  predicate RecoveryError(e: Error) {
    e != InvoiceNotFound && e != InvalidState && e != IdempotencyConflict && e != StampingDisabled
  }

  /** The decision for an operation in flight or awaiting reconciliation. */
  method DecideRecovery(cfg: Config, c: Command) returns (decision: Recovery)
    ensures decision == Recover(cfg, c)
    ensures decision == Redispatch <==> MayRedispatch(cfg, c)
    ensures decision.Confirm? <==>
              && cfg.caps.lookup && c.authorized && c.lookup.Answer? && c.lookup.outcome.StampedConfirmed?
              && c.lookup.outcome.certificate.uuid != ""
    ensures decision.Confirm? ==> c.lookup.outcome.certificate == decision.certificate
    ensures decision == Stop(NotAuthorized) <==>
              && (cfg.caps.lookup || cfg.caps.idempotencyKey)
              && (!c.authorized || (cfg.caps.lookup && c.lookup == Answer(NotFoundConfirmed)
                                    && cfg.caps.replayAfterNotFound && !c.replayAuthorized))
    ensures decision == Stop(LookupUnavailable) <==> cfg.caps.lookup && c.authorized && c.lookup == LookupFailed
    ensures decision == Stop(EvidenceRejected) <==> cfg.caps.lookup && c.authorized && c.lookup == Unauthenticated
    ensures decision == Stop(TerminalFailure) <==>
              cfg.caps.lookup && c.authorized && c.lookup == Answer(RejectedConfirmed)
    ensures decision == Stop(NeedsReconciliation) <==>
              || (!cfg.caps.lookup && !cfg.caps.idempotencyKey)
              || (cfg.caps.lookup && c.authorized
                  && (c.lookup == Answer(StillPending) || c.lookup == Answer(Unknown)
                      || (c.lookup == Answer(NotFoundConfirmed) && !cfg.caps.replayAfterNotFound)))
    ensures decision.Stop? ==> RecoveryError(decision.error)
  {
    if cfg.caps.lookup {
      if !c.authorized {
        return Stop(NotAuthorized);
      }
      if c.lookup.LookupFailed? {
        return Stop(LookupUnavailable);
      }
      if c.lookup.Unauthenticated? {
        return Stop(EvidenceRejected);
      }
      var outcome := c.lookup.outcome;
      if outcome.StampedConfirmed? && outcome.certificate.uuid != "" {
        return Confirm(outcome.certificate);
      }
      if outcome.RejectedConfirmed? {
        return Stop(TerminalFailure);
      }
      if outcome.NotFoundConfirmed? {
        if !cfg.caps.replayAfterNotFound {
          return Stop(NeedsReconciliation);
        }
        if !c.replayAuthorized {
          return Stop(NotAuthorized);
        }
      } else if outcome.StillPending? || outcome.Unknown? {
        return Stop(NeedsReconciliation);
      }
    } else if cfg.caps.idempotencyKey {
      if !c.authorized {
        return Stop(NotAuthorized);
      }
    } else {
      return Stop(NeedsReconciliation);
    }
    return Redispatch;
  }

  /** An earlier attempt may be sent again, with the XML it pinned. */
  predicate MayResend(cfg: Config, op: Op, c: Command) {
    && op.status != FailedTerminal
    && (op.status == InFlight || op.status == ReconciliationRequired ==> MayRedispatch(cfg, c))
    && c.generated.Some? && (op.requestXml.Some? ==> op.requestXml == c.generated)
  }

  /** One more attempt of the operation, and nothing else. */
  predicate AttemptedAgain(t: Tables, t': Tables, c: Command)
    requires c.key in t.ops
  {
    var op := t.ops[c.key];
    t' == t.(ops := t.ops[c.key := op.(status := InFlight, attempts := op.attempts + 1, requestXml := c.generated)])
  }

  /** The row belongs to this draft invoice, unchanged. */
  predicate SameRequest(t: Tables, c: Command) {
    && c.key in t.ops && c.invoice in t.invoices && t.invoices[c.invoice].status == Draft
    && t.ops[c.key].request == StampRequest(c.invoice, t.invoices[c.invoice].facts)
  }

  /** Phase 1 for a key that already has an operation row with the same request. */
  method ResumeOperation(cfg: Config, t: Tables, c: Command) returns (result: Begun)
    requires c.key in t.ops && c.invoice in t.invoices
    ensures result == BeginAgain(cfg, t, c)
    ensures TablesOk(cfg, t) && SameRequest(t, c) ==> BegunOk(cfg, t, c, result)
    ensures t.ops[c.key].status == FailedTerminal ==> result == Failed(TerminalFailure)
    ensures result.Proceed? <==> MayResend(cfg, t.ops[c.key], c)
    ensures result.Proceed? ==> AttemptedAgain(t, result.tables, c) && result.call == Call(c.key, c.invoice, c.generated.value, false)
    ensures result.Failed? ==> RecoveryError(result.error)
  {
    hide Recover, Record, Pin, Validates, TablesOk, BegunOk, UuidFree;
    if TablesOk(cfg, t) && SameRequest(t, c) {
      BeginAgainIsSound(cfg, t, c);
    }
    var existingOp := t.ops[c.key];
    if existingOp.status == FailedTerminal {
      return Failed(TerminalFailure);
    }
    if existingOp.status == ReconciliationRequired || existingOp.status == InFlight {
      var decision := DecideRecovery(cfg, c);
      match decision {
        case Stop(e) =>
          return Failed(e);
        case Confirm(certificate) =>
          if existingOp.requestXml.None? || !Validates(cfg, certificate, existingOp.requestXml.value) {
            return Failed(EvidenceRejected);
          }
          var recorded := RecordStamp(t, c.key, c.invoice, certificate, c.subscribersOk);
          return match recorded case Ok(t') => Completed(t') case Err(e) => Failed(e);
        case Redispatch =>
      }
    }
    result := PinXml(Attempted(t, c.key), c);
  }

  predicate IsDraft(t: Tables, i: nat) {
    i in t.invoices && t.invoices[i].status == Draft
  }

  /** Phase 1: lock the invoice, find or insert the operation, sign and pin. */
  method PrepareStamp(cfg: Config, t: Tables, c: Command) returns (result: Begun)
    ensures result == Begin(cfg, t, c)
    ensures TablesOk(cfg, t) ==> BegunOk(cfg, t, c, result)
    ensures result == Failed(InvoiceNotFound) <==> c.invoice !in t.invoices
    ensures result == Failed(InvalidState) <==> c.invoice in t.invoices && t.invoices[c.invoice].status == Cancelled
    ensures c.invoice in t.invoices && t.invoices[c.invoice].status == Stamped ==> result == Completed(t)
    ensures result == Failed(IdempotencyConflict) <==> IsDraft(t, c.invoice) && c.key in t.ops && !SameRequest(t, c)
    ensures result == Failed(StampingDisabled) <==> IsDraft(t, c.invoice) && c.key !in t.ops && !c.enabled
    ensures IsDraft(t, c.invoice) && c.key !in t.ops && c.enabled ==> (result.Proceed? <==> c.generated.Some?)
    ensures result.Proceed? && c.key !in t.ops ==>
              && result.tables == t.(ops := t.ops[c.key := Op(
                   Stamp, c.invoice, StampRequest(c.invoice, t.invoices[c.invoice].facts), InFlight, 1, c.generated, "",
                   None, None, None)])
              && result.call == Call(c.key, c.invoice, c.generated.value, false)
    ensures TablesOk(cfg, t) && IsDraft(t, c.invoice) && SameRequest(t, c) ==>
              (result.Proceed? <==> MayResend(cfg, t.ops[c.key], c))
    ensures result.Proceed? ==> IsDraft(t, c.invoice)
  {
    hide BeginAgain, Pin, TablesOk, BegunOk, AttemptedAgain, MayResend;
    if TablesOk(cfg, t) {
      BeginIsSound(cfg, t, c);
      if c.key in t.ops && SameRequest(t, c) {
        RepairIsUnreachable(cfg, t, c.key);
      }
    }
    if c.invoice !in t.invoices {
      return Failed(InvoiceNotFound);
    }
    var current := t.invoices[c.invoice];
    if current.status == Stamped {
      return Completed(t);
    }
    if current.status != Draft {
      return Failed(InvalidState);
    }
    var request := StampRequest(c.invoice, current.facts);
    if c.key in t.ops {
      var existingOp := t.ops[c.key];
      if existingOp.request != request {
        return Failed(IdempotencyConflict);
      }
      if existingOp.status == Succeeded && existingOp.externalUuid != "" {
        var xml := if current.stampedXml.Some? then current.stampedXml else existingOp.stampedXml;
        return Completed(t.(invoices := t.invoices[c.invoice := current.(
          status := Stamped, uuid := existingOp.externalUuid, stampedXml := xml)]));
      }
      result := ResumeOperation(cfg, t, c);
    } else {
      if !c.enabled {
        return Failed(StampingDisabled);
      }
      result := PinXml(t.(ops := t.ops[c.key := NewOp(c.invoice, request)]), c);
    }
  }

  /** Nothing changes but the status of one operation. */
  predicate OnlyStatus(t: Tables, t': Tables, key: Key, status: Status) {
    key in t.ops && t' == t.(ops := t.ops[key := t.ops[key].(status := status)])
  }

  /** Phase 3: what the provider answered, written without looking at the current status. */
  method CommitOutcome(cfg: Config, t: Tables, call: Call, reply: Reply, subscribersOk: bool)
    returns (after: Tables, error: Option<Error>)
    requires call.key in t.ops && call.invoice in t.invoices
    ensures after == AfterFinish(cfg, t, call, reply, subscribersOk)
    ensures error.None? <==> Finish(cfg, t, call, reply, subscribersOk).Ok?
    ensures error.Some? ==> Finish(cfg, t, call, reply, subscribersOk).error == (after, error.value)
    ensures TablesOk(cfg, t) && CallOk(t, call) ==> Sound(cfg, t, after)
    ensures error.None? ==> reply.Certified? && StampRecorded(t, after, call.key, call.invoice, reply.certificate)
    ensures error == Some(EventIncompatible) || error == Some(UuidTaken) ==> after == t
    ensures error == Some(PacRejected) <==> reply.Rejected?
    ensures error == Some(PacTimeout) <==> reply.PacFailure? || reply.Timeout?
    ensures error == Some(EvidenceRejected) <==>
              reply.Uncorrelated? || (reply.Certified? && !Validates(cfg, reply.certificate, call.xml))
    ensures error == Some(PacRejected) ==> OnlyStatus(t, after, call.key, FailedTerminal)
    ensures error == Some(PacTimeout) || error == Some(EvidenceRejected) ==>
              OnlyStatus(t, after, call.key, ReconciliationRequired)
  {
    hide Record, Validates, TablesOk, CallOk, Sound;
    if TablesOk(cfg, t) && CallOk(t, call) {
      FinishIsSound(cfg, t, call, reply, subscribersOk);
    }
    if reply.PacFailure? || reply.Timeout? {
      return WithStatus(t, call.key, ReconciliationRequired), Some(PacTimeout);
    }
    if reply.Uncorrelated? {
      return WithStatus(t, call.key, ReconciliationRequired), Some(EvidenceRejected);
    }
    if reply.Rejected? {
      return WithStatus(t, call.key, FailedTerminal), Some(PacRejected);
    }
    if !Validates(cfg, reply.certificate, call.xml) {
      return WithStatus(t, call.key, ReconciliationRequired), Some(EvidenceRejected);
    }
    var recorded := RecordStamp(t, call.key, call.invoice, reply.certificate, subscribersOk);
    match recorded {
      case Ok(t') => return t', None;
      case Err(e) => return t, Some(e);
    }
  }

  class FiscalInvoicingService {
    var tables: Tables

    constructor ()
      ensures tables == EMPTY.tables
    {
      tables := Tables(map[], map[], []);
    }

    /** The first transaction of `stampFiscalInvoice`; the caller goes on to `timbrar` with what it returns. */
    method StampFiscalInvoice(cfg: Config, c: Command) returns (result: Result<Option<Call>, Error>)
      requires TablesOk(cfg, tables)
      modifies this
      ensures TablesOk(cfg, tables) && Extends(old(tables), tables)
      ensures match Begin(cfg, old(tables), c)
              case Failed(e) => result == Err(e) && tables == old(tables)
              case Completed(t) => result == Ok(None) && tables == t
              case Proceed(t, call) => result == Ok(Some(call)) && tables == t && CallOk(tables, call)
    {
      BeginIsSound(cfg, tables, c);
      SoundRefl(cfg, tables);
      hide Begin, TablesOk, CallOk, Extends, Touches;
      var begun := PrepareStamp(cfg, tables, c);
      match begun {
        case Failed(e) =>
          return Err(e);
        case Completed(t) =>
          tables := t;
          return Ok(None);
        case Proceed(t, call) =>
          tables := t;
          return Ok(Some(call));
      }
    }

    /** The last transaction, once the provider has answered. */
    method FinishFiscalInvoice(cfg: Config, call: Call, reply: Reply, subscribersOk: bool) returns (error: Option<Error>)
      requires TablesOk(cfg, tables) && CallOk(tables, call)
      modifies this
      ensures TablesOk(cfg, tables) && Extends(old(tables), tables)
      ensures tables == AfterFinish(cfg, old(tables), call, reply, subscribersOk)
      ensures error.None? ==> tables.ops[call.key].status == Succeeded && tables.invoices[call.invoice].status == Stamped
      ensures error.None? <==>
                && reply.Certified? && Validates(cfg, reply.certificate, call.xml) && subscribersOk
                && UuidFree(old(tables), call.invoice, reply.certificate.uuid)
      ensures reply.Rejected? ==> OnlyStatus(old(tables), tables, call.key, FailedTerminal)
      ensures !reply.Rejected? && !(reply.Certified? && Validates(cfg, reply.certificate, call.xml)) ==>
                OnlyStatus(old(tables), tables, call.key, ReconciliationRequired)
    {
      FinishIsSound(cfg, tables, call, reply, subscribersOk);
      SuccessIsRecorded(cfg, tables, call, reply, subscribersOk);
      hide TablesOk, CallOk, Extends, AfterFinish, Finish, Validates, UuidFree, OnlyStatus;
      var after;
      after, error := CommitOutcome(cfg, tables, call, reply, subscribersOk);
      tables := after;
    }

    method ReplayFiscalEvent(cfg: Config, key: Key, subscribersOk: bool) returns (error: Option<Error>)
      requires TablesOk(cfg, tables)
      modifies this
      ensures TablesOk(cfg, tables) && Extends(old(tables), tables)
      ensures tables == OrElse(Replay(old(tables), key, subscribersOk), old(tables))
      ensures error.None? <==> subscribersOk && HasEnvelope(old(tables), key)
      ensures error.None? ==> tables == Resent(old(tables), key)
      ensures error.Some? ==> tables == old(tables)
    {
      ReplayIsSound(cfg, tables, key, subscribersOk);
      ReplayExactly(cfg, tables, key, subscribersOk);
      hide TablesOk, Extends, Enqueue;
      if key !in tables.ops || tables.ops[key].status != Succeeded || tables.ops[key].payload.None? {
        return Some(EventIncompatible);
      }
      var op := tables.ops[key];
      var enqueued := EnqueueFiscalEvent(tables, op.kind, op.invoice, op.payload.value, subscribersOk);
      match enqueued {
        case Err(e) =>
          return Some(e);
        case Ok(t) =>
          tables := t;
          return None;
      }
    }
  }

  /** A finished operation whose event was stored. */
  predicate HasEnvelope(t: Tables, key: Key) {
    key in t.ops && t.ops[key].status == Succeeded && t.ops[key].payload.Some?
  }

  /** A replay goes through exactly for a SUCCEEDED operation with a stored event, and re-sends that event only. */
  lemma ReplayExactly(cfg: Config, t: Tables, key: Key, subscribersOk: bool)
    requires TablesOk(cfg, t)
    ensures Replay(t, key, subscribersOk).Ok? <==> subscribersOk && HasEnvelope(t, key)
    ensures Replay(t, key, subscribersOk).Ok? ==> Replay(t, key, subscribersOk).value == Resent(t, key)
  {
    if key in t.ops {
      assert OpOk(cfg, t, key);
      hide TablesOk;
      if Replay(t, key, subscribersOk).Ok? {
        ReplayResends(cfg, t, key, subscribersOk);
      }
    }
  }

  /** A cancellation commit goes through exactly for a compatible subscriber; then the operation is SUCCEEDED, the
      invoice CANCELLED, and one event is sent, the first one stored for the operation. */
  lemma CancelCommitsExactly(cfg: Config, t: Tables, key: Key, uuid: string, details: string, subscribersOk: bool)
    requires TablesOk(cfg, t) && Cancellation(t, key)
    ensures var r := CommitCancel(t, key, uuid, details, subscribersOk);
            && (r.Ok? <==> subscribersOk)
            && (r.Ok? ==>
                  && key in r.value.ops && r.value.ops[key].status == Succeeded && r.value.ops[key].payload.Some?
                  && (t.ops[key].payload.None? ==>
                        r.value.ops[key].payload == Some(Payload(SemanticId(key, Cancel), uuid, details)))
                  && t.ops[key].invoice in r.value.invoices
                  && r.value.invoices[t.ops[key].invoice] == t.invoices[t.ops[key].invoice].(status := Cancelled)
                  && r.value.outbox == t.outbox + [Event(key, Cancel, t.ops[key].invoice, r.value.ops[key].payload.value)])
  {
    assert OpOk(cfg, t, key);
    CommitIsRecorded(cfg, t, key, uuid, details, subscribersOk);
    hide TablesOk, OpOk, CommitCancel;
  }

  /** A commit without error leaves a succeeded operation and a stamped invoice. */
  lemma SuccessIsRecorded(cfg: Config, t: Tables, call: Call, reply: Reply, subscribersOk: bool)
    requires TablesOk(cfg, t) && CallOk(t, call)
    ensures Finish(cfg, t, call, reply, subscribersOk).Ok? <==>
              && reply.Certified? && Validates(cfg, reply.certificate, call.xml) && subscribersOk
              && UuidFree(t, call.invoice, reply.certificate.uuid)
    ensures Finish(cfg, t, call, reply, subscribersOk).Ok? ==>
              var t' := AfterFinish(cfg, t, call, reply, subscribersOk);
              && call.key in t'.ops && t'.ops[call.key].status == Succeeded
              && call.invoice in t'.invoices && t'.invoices[call.invoice].status == Stamped
  {
    assert OpOk(cfg, t, call.key);
    if reply.Certified? {
      RecordIsRecorded(cfg, t, call.key, reply.certificate, subscribersOk);
    }
    hide TablesOk, OpOk, Record, Validates, UuidFree;
  }
}
