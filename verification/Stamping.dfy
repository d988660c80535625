/** Fiscal stamping: prepare and commit, call the certification provider (PAC) outside the transaction, commit
    the outcome. One organization; tables, transactions and runs with crashes and concurrent callers. */
module Stamping {
  import opened Results

  /** An operation row is named by its idempotency key, which the table keeps unique. */
  type Key = nat
  type Xml = s: string | s != "" witness "<"

  datatype Kind = Stamp | Cancel
  datatype InvoiceStatus = Draft | Stamped | Cancelled
  datatype Status =
    | Pending | Ready | InFlight | Retryable | RetryableConfirmed | Succeeded | FailedTerminal | ReconciliationRequired

  /** What the request hash is taken over. `facts` are the invoice's series, folio, total and customer. */
  datatype Request = StampRequest(invoice: nat, facts: string) | CancelRequest(invoice: nat, uuid: string, details: string)

  datatype SemanticId = SemanticId(op: Key, kind: Kind)
  datatype Payload = Payload(semanticId: SemanticId, uuid: string, details: string)

  datatype Invoice = Invoice(status: InvoiceStatus, facts: string, uuid: string, stampedXml: Option<string>)

  datatype Op = Op(
    kind: Kind, invoice: nat, request: Request, status: Status, attempts: nat, requestXml: Option<Xml>,
    externalUuid: string, stampedXml: Option<string>, semanticId: Option<SemanticId>, payload: Option<Payload>)

  datatype Event = Event(op: Key, kind: Kind, invoice: nat, payload: Payload)

  datatype Tables = Tables(invoices: map<nat, Invoice>, ops: map<Key, Op>, outbox: seq<Event>)

  datatype Capabilities = Capabilities(lookup: bool, idempotencyKey: bool, replayAfterNotFound: bool)

  /** `faithful(stamped, pinned)` is the structural comparison of the two documents. */
  datatype Config = Config(caps: Capabilities, faithful: (string, string) -> bool)

  /** A certified result. `genuine` stands for authenticated evidence, provider identity and agreement with the
      attributes of the stamp. */
  datatype Certificate = Certificate(uuid: string, xml: string, details: string, genuine: bool)

  datatype Outcome =
    | StampedConfirmed(certificate: Certificate) | RejectedConfirmed | NotFoundConfirmed | StillPending | Unknown | Other

  datatype Lookup = LookupFailed | Unauthenticated | Answer(outcome: Outcome)

  datatype Reply = PacFailure | Uncorrelated | Timeout | Rejected | Certified(certificate: Certificate)

  /** A command, with what its environment answers: the generated XML (None when the issuer's certificate
      cannot be used), the kill switch, the two authorizations, the lookup and the subscribers. */
  datatype Command = Command(
    invoice: nat, key: Key, generated: Option<Xml>, enabled: bool, authorized: bool, replayAuthorized: bool,
    lookup: Lookup, subscribersOk: bool)

  datatype Error =
    | InvoiceNotFound | InvalidState | IdempotencyConflict | TerminalFailure | NotAuthorized | LookupUnavailable
    | EvidenceRejected | NeedsReconciliation | StampingDisabled | CredentialsMissing | XmlChanged
    | EventIncompatible | UuidTaken | PacTimeout | PacRejected

  /** A caller between phase 1 and phase 3. */
  datatype Call = Call(key: Key, invoice: nat, xml: Xml, sent: bool)

  datatype Begun = Failed(error: Error) | Completed(tables: Tables) | Proceed(tables: Tables, call: Call)

  /* Validation of a certified result against the pinned XML. */

  predicate Validates(cfg: Config, c: Certificate, pinned: Xml) {
    c.uuid != "" && c.genuine && cfg.faithful(c.xml, pinned)
  }

  /* The outbox. */

  /** `enqueueFiscalEvent`: the first payload stored for the operation is the one that is sent, always. */
  function Enqueue(t: Tables, kind: Kind, invoice: nat, payload: Payload, subscribersOk: bool): Result<Tables, Error> {
    var key := payload.semanticId.op;
    if !subscribersOk || key !in t.ops || t.ops[key].semanticId != Some(payload.semanticId) then Err(EventIncompatible)
    else
      var op := t.ops[key];
      if op.kind != kind || op.invoice != invoice || payload.semanticId != SemanticId(key, kind) then Err(EventIncompatible)
      else if op.payload.Some? && op.payload.value.semanticId != payload.semanticId then Err(EventIncompatible)
      else
        var durable := if op.payload.Some? then op.payload.value else payload;
        Ok(t.(ops := t.ops[key := op.(payload := Some(durable))],
              outbox := t.outbox + [Event(key, kind, invoice, durable)]))
  }

  function Replay(t: Tables, key: Key, subscribersOk: bool): Result<Tables, Error> {
    if key !in t.ops || t.ops[key].status != Succeeded || t.ops[key].payload.None? then Err(EventIncompatible)
    else Enqueue(t, t.ops[key].kind, t.ops[key].invoice, t.ops[key].payload.value, subscribersOk)
  }

  /** The unique key on `invoice_uuid`; "" stands for NULL. */
  predicate UuidFree(t: Tables, i: nat, uuid: string) {
    forall j | j in t.invoices && j != i :: t.invoices[j].uuid != uuid
  }

  /** The transaction that records a certified stamp: operation, invoice and event together. The other unique column
      the UPDATE writes, the provider reference, gets the invoice's own id. */
  function Record(t: Tables, key: Key, invoice: nat, c: Certificate, subscribersOk: bool): Result<Tables, Error>
    requires key in t.ops && invoice in t.invoices
  {
    var sid := SemanticId(key, Stamp);
    if !UuidFree(t, invoice, c.uuid) then Err(UuidTaken)
    else Enqueue(
      t.(ops := t.ops[key := t.ops[key].(
           status := Succeeded, externalUuid := c.uuid, stampedXml := Some(c.xml), semanticId := Some(sid))],
         invoices := t.invoices[invoice := t.invoices[invoice].(
           status := Stamped, uuid := c.uuid, stampedXml := Some(c.xml))]),
      Stamp, invoice, Payload(sid, c.uuid, c.details), subscribersOk)
  }

  /* Phase 1. */

  datatype Recovery = Stop(error: Error) | Confirm(certificate: Certificate) | Redispatch

  /** The recovery table for an operation whose fate is unknown. */
  function Recover(cfg: Config, c: Command): Recovery {
    if cfg.caps.lookup then
      if !c.authorized then Stop(NotAuthorized)
      else match c.lookup
        case LookupFailed => Stop(LookupUnavailable)
        case Unauthenticated => Stop(EvidenceRejected)
        case Answer(outcome) =>
          match outcome
          case StampedConfirmed(cert) => if cert.uuid != "" then Confirm(cert) else Redispatch
          case RejectedConfirmed => Stop(TerminalFailure)
          case NotFoundConfirmed =>
            if !cfg.caps.replayAfterNotFound then Stop(NeedsReconciliation)
            else if !c.replayAuthorized then Stop(NotAuthorized)
            else Redispatch
          case StillPending => Stop(NeedsReconciliation)
          case Unknown => Stop(NeedsReconciliation)
          case Other => Redispatch
    else if cfg.caps.idempotencyKey then (if c.authorized then Redispatch else Stop(NotAuthorized))
    else Stop(NeedsReconciliation)
  }

  /** What the row of an earlier attempt allows. */
  function Resume(cfg: Config, op: Op, c: Command): Recovery {
    if op.status == FailedTerminal then Stop(TerminalFailure)
    else if op.status == ReconciliationRequired || op.status == InFlight then Recover(cfg, c)
    else Redispatch
  }

  /** Sign and pin: the XML of the first attempt stays, and only that XML may be sent. */
  function Pin(t: Tables, c: Command): Begun
    requires c.key in t.ops
  {
    var op := t.ops[c.key];
    if c.generated.None? then Failed(CredentialsMissing)
    else
      var pinned := if op.requestXml.Some? then op.requestXml.value else c.generated.value;
      if pinned != c.generated.value then Failed(XmlChanged)
      else Proceed(t.(ops := t.ops[c.key := op.(requestXml := Some(pinned))]), Call(c.key, c.invoice, pinned, false))
  }

  function Attempted(t: Tables, key: Key): Tables
    requires key in t.ops
  {
    t.(ops := t.ops[key := t.ops[key].(status := InFlight, attempts := t.ops[key].attempts + 1)])
  }

  function BeginAgain(cfg: Config, t: Tables, c: Command): Begun
    requires c.key in t.ops && c.invoice in t.invoices
  {
    var op := t.ops[c.key];
    match Resume(cfg, op, c)
    case Stop(e) => Failed(e)
    case Confirm(cert) =>
      if op.requestXml.None? || !Validates(cfg, cert, op.requestXml.value) then Failed(EvidenceRejected)
      else (match Record(t, c.key, c.invoice, cert, c.subscribersOk)
            case Ok(t') => Completed(t')
            case Err(e) => Failed(e))
    case Redispatch => Pin(Attempted(t, c.key), c)
  }

  function NewOp(invoice: nat, request: Request): Op {
    Op(if request.StampRequest? then Stamp else Cancel, invoice, request, InFlight, 1, None, "", None, None, None)
  }

  /** `stampFiscalInvoice`, first transaction. */
  function Begin(cfg: Config, t: Tables, c: Command): Begun {
    if c.invoice !in t.invoices then Failed(InvoiceNotFound)
    else
      var inv := t.invoices[c.invoice];
      if inv.status == Stamped then Completed(t)
      else if inv.status != Draft then Failed(InvalidState)
      else
        var request := StampRequest(c.invoice, inv.facts);
        if c.key in t.ops then
          var op := t.ops[c.key];
          if op.request != request then Failed(IdempotencyConflict)
          else if op.status == Succeeded && op.externalUuid != "" then
            var xml := if inv.stampedXml.Some? then inv.stampedXml else op.stampedXml;
            Completed(t.(invoices := t.invoices[c.invoice := inv.(status := Stamped, uuid := op.externalUuid, stampedXml := xml)]))
          else BeginAgain(cfg, t, c)
        else if !c.enabled then Failed(StampingDisabled)
        else Pin(t.(ops := t.ops[c.key := NewOp(c.invoice, request)]), c)
  }

  /* Phase 3. */

  function WithStatus(t: Tables, key: Key, status: Status): Tables
    requires key in t.ops
  {
    t.(ops := t.ops[key := t.ops[key].(status := status)])
  }

  /** The outcome writes carry no guard on the status they overwrite. A failed commit changes nothing. */
  function Finish(cfg: Config, t: Tables, call: Call, reply: Reply, subscribersOk: bool): Result<Tables, (Tables, Error)>
    requires call.key in t.ops && call.invoice in t.invoices
  {
    match reply
    case PacFailure => Err((WithStatus(t, call.key, ReconciliationRequired), PacTimeout))
    case Uncorrelated => Err((WithStatus(t, call.key, ReconciliationRequired), EvidenceRejected))
    case Timeout => Err((WithStatus(t, call.key, ReconciliationRequired), PacTimeout))
    case Rejected => Err((WithStatus(t, call.key, FailedTerminal), PacRejected))
    case Certified(cert) =>
      if !Validates(cfg, cert, call.xml) then Err((WithStatus(t, call.key, ReconciliationRequired), EvidenceRejected))
      else (match Record(t, call.key, call.invoice, cert, subscribersOk)
            case Ok(t') => Ok(t')
            case Err(e) => Err((t, e)))
  }

  function AfterFinish(cfg: Config, t: Tables, call: Call, reply: Reply, subscribersOk: bool): Tables
    requires call.key in t.ops && call.invoice in t.invoices
  {
    match Finish(cfg, t, call, reply, subscribersOk)
    case Ok(t') => t'
    case Err(e) => e.0
  }

  /* Runs. */

  datatype Dispatch = Dispatch(key: Key, xml: Xml)

  datatype State = State(tables: Tables, calls: map<nat, Call>, dispatched: seq<Dispatch>)

  const EMPTY := State(Tables(map[], map[], []), map[], [])

  /** The cancellation steps are the writes `cancelFiscalInvoice` makes to the shared tables. A retry of a succeeded
      cancellation cancels an invoice that has become STAMPED again, and sends no event. */
  datatype Step =
    | CreateDraft(invoice: nat, facts: string)
    | BeginStamp(caller: nat, command: Command)
    | Send(caller: nat)
    | FinishStamp(caller: nat, reply: Reply, subscribersOk: bool)
    | Crash(caller: nat)
    | ReplayEvent(key: Key, subscribersOk: bool)
    | OpenCancellation(key: Key, invoice: nat, details: string)
    | WriteCancellation(key: Key, status: Status)
    | CommitCancellation(key: Key, uuid: string, details: string, subscribersOk: bool)
    | RetryCancellation(key: Key, details: string)

  function Opened(t: Tables, key: Key, i: nat, details: string): Tables
    requires i in t.invoices
  {
    t.(ops := t.ops[key := NewOp(i, CancelRequest(i, t.invoices[i].uuid, details))])
  }

  function CommitCancel(t: Tables, key: Key, uuid: string, details: string, subscribersOk: bool): Result<Tables, Error>
    requires key in t.ops && t.ops[key].invoice in t.invoices
  {
    var op, sid := t.ops[key], SemanticId(key, Cancel);
    Enqueue(
      t.(ops := t.ops[key := op.(status := Succeeded, semanticId := Some(sid))],
         invoices := t.invoices[op.invoice := t.invoices[op.invoice].(status := Cancelled)]),
      Cancel, op.invoice, Payload(sid, uuid, details), subscribersOk)
  }

  predicate Retriable(t: Tables, key: Key, details: string) {
    && Cancellation(t, key) && t.ops[key].status == Succeeded
    && t.invoices[t.ops[key].invoice].status == Stamped
    && t.ops[key].request == CancelRequest(t.ops[key].invoice, t.invoices[t.ops[key].invoice].uuid, details)
  }

  function Retried(t: Tables, key: Key): Tables
    requires Cancellation(t, key)
  {
    t.(invoices := t.invoices[t.ops[key].invoice := t.invoices[t.ops[key].invoice].(status := Cancelled)])
  }

  function OrElse(r: Result<Tables, Error>, t: Tables): Tables {
    match r case Ok(t') => t' case Err(_) => t
  }

  predicate Known(t: Tables, call: Call) {
    call.key in t.ops && call.invoice in t.invoices
  }

  predicate Cancellation(t: Tables, key: Key) {
    key in t.ops && t.ops[key].kind == Cancel && t.ops[key].invoice in t.invoices
  }

  function Next(cfg: Config, s: State, step: Step): State {
    var t := s.tables;
    match step
    case CreateDraft(i, facts) =>
      if i in t.invoices then s else s.(tables := t.(invoices := t.invoices[i := Invoice(Draft, facts, "", None)]))
    case BeginStamp(caller, c) =>
      if caller in s.calls then s else
        (match Begin(cfg, t, c)
         case Failed(_) => s
         case Completed(t') => s.(tables := t')
         case Proceed(t', call) => s.(tables := t', calls := s.calls[caller := call]))
    case Send(caller) =>
      if caller !in s.calls || s.calls[caller].sent then s else
        var call := s.calls[caller];
        s.(calls := s.calls[caller := call.(sent := true)], dispatched := s.dispatched + [Dispatch(call.key, call.xml)])
    case FinishStamp(caller, reply, subscribersOk) =>
      if caller !in s.calls || !s.calls[caller].sent || !Known(t, s.calls[caller]) then s else
        s.(tables := AfterFinish(cfg, t, s.calls[caller], reply, subscribersOk), calls := s.calls - {caller})
    case Crash(caller) => s.(calls := s.calls - {caller})
    case ReplayEvent(key, subscribersOk) => s.(tables := OrElse(Replay(t, key, subscribersOk), t))
    case OpenCancellation(key, i, details) =>
      if key in t.ops || i !in t.invoices || t.invoices[i].status != Stamped then s
      else s.(tables := Opened(t, key, i, details))
    case WriteCancellation(key, status) =>
      if !Cancellation(t, key) || status == Succeeded then s else s.(tables := WithStatus(t, key, status))
    case CommitCancellation(key, uuid, details, subscribersOk) =>
      if !Cancellation(t, key) then s
      else s.(tables := OrElse(CommitCancel(t, key, uuid, details, subscribersOk), t))
    case RetryCancellation(key, details) =>
      if !Retriable(t, key, details) then s else s.(tables := Retried(t, key))
  }

  function Run(cfg: Config, steps: seq<Step>): State {
    if steps == [] then EMPTY else Next(cfg, Run(cfg, steps[..|steps| - 1]), steps[|steps| - 1])
  }

  /* What every reachable state satisfies. */

  predicate StampStatus(status: Status) {
    status == InFlight || status == Succeeded || status == FailedTerminal || status == ReconciliationRequired
  }

  predicate OpOk(cfg: Config, t: Tables, key: Key)
    requires key in t.ops
  {
    var op := t.ops[key];
    && op.invoice in t.invoices && op.request.invoice == op.invoice
    && (op.kind == Stamp <==> op.request.StampRequest?)
    && (op.kind == Stamp ==> op.requestXml.Some? && StampStatus(op.status))
    && (op.semanticId.Some? ==> op.semanticId == Some(SemanticId(key, op.kind)))
    && (op.payload.Some? ==> op.semanticId == Some(op.payload.value.semanticId))
    && (op.kind == Stamp && op.status == Succeeded ==> SucceededOk(cfg, t, key))
    && (op.kind == Cancel && op.status == Succeeded ==> op.payload.Some?)
    && (op.kind == Cancel ==> t.invoices[op.invoice].status != Draft)
  }

  /** A succeeded stamp has a uuid, XML faithful to the pinned one, an envelope, and has left the draft state. */
  predicate SucceededOk(cfg: Config, t: Tables, key: Key)
    requires key in t.ops && t.ops[key].invoice in t.invoices && t.ops[key].requestXml.Some?
  {
    var op := t.ops[key];
    && op.externalUuid != "" && op.stampedXml.Some? && cfg.faithful(op.stampedXml.value, op.requestXml.value)
    && op.payload.Some? && t.invoices[op.invoice].status != Draft
  }

  /** Operation `key` pinned XML to which the invoice's stamped XML is faithful. */
  predicate StampedBy(cfg: Config, t: Tables, i: nat, key: Key)
    requires i in t.invoices
  {
    && key in t.ops && t.ops[key].kind == Stamp && t.ops[key].invoice == i && t.ops[key].requestXml.Some?
    && t.invoices[i].uuid != "" && t.invoices[i].stampedXml.Some?
    && cfg.faithful(t.invoices[i].stampedXml.value, t.ops[key].requestXml.value)
  }

  /** Cancellation `key` of the invoice has its envelope. */
  predicate CancelledBy(t: Tables, i: nat, key: Key) {
    key in t.ops && t.ops[key].kind == Cancel && t.ops[key].invoice == i && t.ops[key].payload.Some?
  }

  predicate EventOk(t: Tables, e: Event) {
    && e.op in t.ops && t.ops[e.op].payload == Some(e.payload)
    && e.kind == t.ops[e.op].kind && e.invoice == t.ops[e.op].invoice
    && e.payload.semanticId == SemanticId(e.op, e.kind)
  }

  ghost predicate InvoiceOk(cfg: Config, t: Tables, i: nat)
    requires i in t.invoices
  {
    && (t.invoices[i].status == Stamped ==> exists k :: StampedBy(cfg, t, i, k))
    && (t.invoices[i].status == Cancelled ==> t.invoices[i].uuid != "" && exists k :: CancelledBy(t, i, k))
  }

  /** No two invoices carry the same uuid. */
  predicate UuidsDiffer(t: Tables) {
    forall i | i in t.invoices :: t.invoices[i].uuid == "" || UuidFree(t, i, t.invoices[i].uuid)
  }

  ghost predicate TablesOk(cfg: Config, t: Tables) {
    && (forall k | k in t.ops :: OpOk(cfg, t, k))
    && (forall i | i in t.invoices :: InvoiceOk(cfg, t, i)) && UuidsDiffer(t)
    && (forall e | e in t.outbox :: EventOk(t, e))
  }

  predicate PinnedTo(t: Tables, key: Key, xml: Xml) {
    key in t.ops && t.ops[key].kind == Stamp && t.ops[key].requestXml == Some(xml)
  }

  predicate CallOk(t: Tables, call: Call) {
    PinnedTo(t, call.key, call.xml) && t.ops[call.key].invoice == call.invoice && call.invoice in t.invoices
  }

  ghost predicate Inv(cfg: Config, s: State) {
    && TablesOk(cfg, s.tables)
    && (forall c | c in s.calls :: CallOk(s.tables, s.calls[c]))
    && (forall d | d in s.dispatched :: PinnedTo(s.tables, d.key, d.xml))
  }

  /** What no later transaction undoes. */
  predicate OpExtends(a: Op, b: Op) {
    && a.kind == b.kind && a.invoice == b.invoice && a.request == b.request
    && (a.requestXml.Some? ==> b.requestXml == a.requestXml)
    && (a.payload.Some? ==> b.payload == a.payload)
  }

  ghost predicate Extends(t: Tables, t': Tables) {
    && (forall k | k in t.ops :: k in t'.ops && OpExtends(t.ops[k], t'.ops[k]))
    && (forall i | i in t.invoices :: i in t'.invoices && (t.invoices[i].status != Draft ==> t'.invoices[i].status != Draft))
    && t.outbox <= t'.outbox
  }

  /* Each transaction keeps the invariant. */

  /** A transaction that writes at most operation `key`, invoice `i` and the end of the outbox. */
  ghost predicate Touches(t: Tables, t': Tables, key: Key, i: nat) {
    && t'.ops.Keys == t.ops.Keys + {key} && (forall k | k in t.ops && k != key :: t'.ops[k] == t.ops[k])
    && t'.invoices.Keys == t.invoices.Keys + {i} && (forall j | j in t.invoices && j != i :: t'.invoices[j] == t.invoices[j])
  }

  ghost predicate Sound(cfg: Config, t: Tables, t': Tables) {
    TablesOk(cfg, t') && Extends(t, t')
  }

  lemma OtherOpsKept(cfg: Config, t: Tables, t': Tables, k: Key)
    requires k in t.ops && OpOk(cfg, t, k) && Extends(t, t') && t'.ops[k] == t.ops[k]
    ensures OpOk(cfg, t', k)
  {
    assert t.ops[k].invoice in t'.invoices;
  }

  lemma InvoiceKept(cfg: Config, t: Tables, t': Tables, i: nat)
    requires i in t.invoices && InvoiceOk(cfg, t, i) && Extends(t, t')
    requires i in t'.invoices && t'.invoices[i] == t.invoices[i]
    ensures InvoiceOk(cfg, t', i)
  {
    if t.invoices[i].status == Stamped {
      var k :| StampedBy(cfg, t, i, k);
      assert StampedBy(cfg, t', i, k);
    } else if t.invoices[i].status == Cancelled {
      var k :| CancelledBy(t, i, k);
      assert CancelledBy(t', i, k);
    }
  }

  lemma EventKept(t: Tables, t': Tables, e: Event)
    requires EventOk(t, e) && Extends(t, t')
    ensures EventOk(t', e)
  {
  }

  /** Invoice i keeps its uuid, or gets one that no other invoice has. */
  predicate UuidKept(t: Tables, t': Tables, i: nat) {
    && i in t'.invoices
    && ((i in t.invoices && t'.invoices[i].uuid == t.invoices[i].uuid) || t'.invoices[i].uuid == ""
        || UuidFree(t, i, t'.invoices[i].uuid))
  }

  lemma UuidsStayDifferent(t: Tables, t': Tables, key: Key, i: nat)
    requires UuidsDiffer(t) && Touches(t, t', key, i) && UuidKept(t, t', i)
    ensures UuidsDiffer(t')
  {
    forall a | a in t'.invoices && t'.invoices[a].uuid != ""
      ensures UuidFree(t', a, t'.invoices[a].uuid)
    {
      forall b | b in t'.invoices && b != a
        ensures t'.invoices[b].uuid != t'.invoices[a].uuid
      {
        DifferentUuids(t, t', key, i, a, b);
      }
    }
  }

  lemma DifferentUuids(t: Tables, t': Tables, key: Key, i: nat, a: nat, b: nat)
    requires UuidsDiffer(t) && Touches(t, t', key, i) && UuidKept(t, t', i)
    requires a in t'.invoices && b in t'.invoices && a != b && t'.invoices[a].uuid != ""
    ensures t'.invoices[b].uuid != t'.invoices[a].uuid
  {
    if a != i {
      assert a in t.invoices && UuidFree(t, a, t.invoices[a].uuid);
    }
    if b != i && t'.invoices[b].uuid != "" {
      assert b in t.invoices && UuidFree(t, b, t.invoices[b].uuid);
    }
  }

  lemma TouchKeeps(cfg: Config, t: Tables, t': Tables, key: Key, i: nat)
    requires TablesOk(cfg, t) && Extends(t, t') && Touches(t, t', key, i)
    requires OpOk(cfg, t', key) && InvoiceOk(cfg, t', i) && UuidKept(t, t', i)
    requires forall e | e in t'.outbox :: e in t.outbox || EventOk(t', e)
    ensures TablesOk(cfg, t')
  {
    UuidsStayDifferent(t, t', key, i);
    hide UuidsDiffer, UuidKept;
    forall k | k in t'.ops
      ensures OpOk(cfg, t', k)
    {
      if k != key {
        OtherOpsKept(cfg, t, t', k);
      }
    }
    forall j | j in t'.invoices
      ensures InvoiceOk(cfg, t', j)
    {
      if j != i {
        InvoiceKept(cfg, t, t', j);
      }
    }
    forall e | e in t'.outbox
      ensures EventOk(t', e)
    {
      if e in t.outbox {
        EventKept(t, t', e);
      }
    }
  }

  /** The tables after a stamp is recorded. */
  function Recorded(t: Tables, key: Key, c: Certificate): Tables
    requires key in t.ops && t.ops[key].invoice in t.invoices
  {
    var op, sid := t.ops[key], SemanticId(key, Stamp);
    var durable := if op.payload.Some? then op.payload.value else Payload(sid, c.uuid, c.details);
    Tables(
      t.invoices[op.invoice := t.invoices[op.invoice].(status := Stamped, uuid := c.uuid, stampedXml := Some(c.xml))],
      t.ops[key := op.(status := Succeeded, externalUuid := c.uuid, stampedXml := Some(c.xml), semanticId := Some(sid), payload := Some(durable))],
      t.outbox + [Event(key, Stamp, op.invoice, durable)])
  }

  /** Nothing but a uuid that another invoice has, or an incompatible subscriber, can make the recording fail. */
  lemma RecordIsRecorded(cfg: Config, t: Tables, key: Key, c: Certificate, subscribersOk: bool)
    requires key in t.ops && OpOk(cfg, t, key) && t.ops[key].kind == Stamp
    ensures Record(t, key, t.ops[key].invoice, c, subscribersOk)
         == if !UuidFree(t, t.ops[key].invoice, c.uuid) then Err(UuidTaken)
            else if subscribersOk then Ok(Recorded(t, key, c)) else Err(EventIncompatible)
  {
    var r := Record(t, key, t.ops[key].invoice, c, subscribersOk);
    hide UuidFree;
    if UuidFree(t, t.ops[key].invoice, c.uuid) && subscribersOk {
      assert r.value.ops == Recorded(t, key, c).ops;
    }
  }

  /** Everything `TouchKeeps` asks of a transaction on operation `key` and invoice `i`. */
  ghost predicate Ready(cfg: Config, t: Tables, t': Tables, key: Key, i: nat) {
    && Extends(t, t') && Touches(t, t', key, i) && OpOk(cfg, t', key) && InvoiceOk(cfg, t', i) && UuidKept(t, t', i)
    && forall e | e in t'.outbox :: e in t.outbox || EventOk(t', e)
  }

  lemma ReadyIsSound(cfg: Config, t: Tables, t': Tables, key: Key, i: nat)
    requires TablesOk(cfg, t) && Ready(cfg, t, t', key, i)
    ensures Sound(cfg, t, t')
  {
    TouchKeeps(cfg, t, t', key, i);
    hide TablesOk;
  }

  lemma RowsOk(cfg: Config, t: Tables, key: Key)
    requires TablesOk(cfg, t) && key in t.ops
    ensures OpOk(cfg, t, key) && t.ops[key].invoice in t.invoices && InvoiceOk(cfg, t, t.ops[key].invoice)
  {
    assert OpOk(cfg, t, key);
    hide UuidsDiffer;
  }

  lemma RecordedIsReady(cfg: Config, t: Tables, key: Key, c: Certificate)
    requires key in t.ops && OpOk(cfg, t, key) && t.ops[key].kind == Stamp
    requires Validates(cfg, c, t.ops[key].requestXml.value) && UuidFree(t, t.ops[key].invoice, c.uuid)
    ensures Ready(cfg, t, Recorded(t, key, c), key, t.ops[key].invoice)
  {
    hide UuidFree;
    var t', i := Recorded(t, key, c), t.ops[key].invoice;
    assert t'.outbox[..|t.outbox|] == t.outbox;
    assert StampedBy(cfg, t', i, key);
    assert EventOk(t', t'.outbox[|t.outbox|]);
  }

  lemma RecordedIsSound(cfg: Config, t: Tables, key: Key, c: Certificate)
    requires TablesOk(cfg, t) && key in t.ops && t.ops[key].kind == Stamp
    requires Validates(cfg, c, t.ops[key].requestXml.value) && UuidFree(t, t.ops[key].invoice, c.uuid)
    ensures Sound(cfg, t, Recorded(t, key, c))
  {
    RowsOk(cfg, t, key);
    hide TablesOk, InvoiceOk, UuidFree, Ready, Recorded, Sound, Validates;
    RecordedIsReady(cfg, t, key, c);
    ReadyIsSound(cfg, t, Recorded(t, key, c), key, t.ops[key].invoice);
  }

  lemma StatusIsReady(cfg: Config, t: Tables, key: Key, status: Status)
    requires key in t.ops && OpOk(cfg, t, key) && InvoiceOk(cfg, t, t.ops[key].invoice)
    requires if t.ops[key].kind == Stamp then status == ReconciliationRequired || status == FailedTerminal else status != Succeeded
    ensures Ready(cfg, t, WithStatus(t, key, status), key, t.ops[key].invoice)
  {
    hide UuidFree;
    var t', i := WithStatus(t, key, status), t.ops[key].invoice;
    assert Extends(t, t');
    InvoiceKept(cfg, t, t', i);
    hide InvoiceOk;
  }

  lemma StatusIsSound(cfg: Config, t: Tables, key: Key, status: Status)
    requires TablesOk(cfg, t) && key in t.ops
    requires if t.ops[key].kind == Stamp then status == ReconciliationRequired || status == FailedTerminal else status != Succeeded
    ensures Sound(cfg, t, WithStatus(t, key, status))
  {
    RowsOk(cfg, t, key);
    hide TablesOk, InvoiceOk, Ready, WithStatus, Sound;
    StatusIsReady(cfg, t, key, status);
    ReadyIsSound(cfg, t, WithStatus(t, key, status), key, t.ops[key].invoice);
  }

  /** The tables after a cancellation is committed. */
  function CancelRecorded(t: Tables, key: Key, uuid: string, details: string): Tables
    requires Cancellation(t, key)
  {
    var op, sid := t.ops[key], SemanticId(key, Cancel);
    var durable := if op.payload.Some? then op.payload.value else Payload(sid, uuid, details);
    Tables(
      t.invoices[op.invoice := t.invoices[op.invoice].(status := Cancelled)],
      t.ops[key := op.(status := Succeeded, semanticId := Some(sid), payload := Some(durable))],
      t.outbox + [Event(key, Cancel, op.invoice, durable)])
  }

  lemma CommitIsRecorded(cfg: Config, t: Tables, key: Key, uuid: string, details: string, subscribersOk: bool)
    requires Cancellation(t, key) && OpOk(cfg, t, key)
    ensures CommitCancel(t, key, uuid, details, subscribersOk)
         == if subscribersOk then Ok(CancelRecorded(t, key, uuid, details)) else Err(EventIncompatible)
  {
    var r := CommitCancel(t, key, uuid, details, subscribersOk);
    if subscribersOk {
      assert r.value.ops == CancelRecorded(t, key, uuid, details).ops;
    }
  }

  lemma CancelIsReady(cfg: Config, t: Tables, key: Key, uuid: string, details: string)
    requires Cancellation(t, key) && OpOk(cfg, t, key) && InvoiceOk(cfg, t, t.ops[key].invoice)
    ensures Ready(cfg, t, CancelRecorded(t, key, uuid, details), key, t.ops[key].invoice)
  {
    hide UuidFree;
    var t', i := CancelRecorded(t, key, uuid, details), t.ops[key].invoice;
    assert t'.outbox[..|t.outbox|] == t.outbox;
    assert CancelledBy(t', i, key);
    assert EventOk(t', t'.outbox[|t.outbox|]);
  }

  lemma CancelRecordedIsSound(cfg: Config, t: Tables, key: Key, uuid: string, details: string)
    requires TablesOk(cfg, t) && Cancellation(t, key)
    ensures Sound(cfg, t, CancelRecorded(t, key, uuid, details))
  {
    RowsOk(cfg, t, key);
    hide TablesOk, InvoiceOk, OpOk, Ready, CancelRecorded, Sound;
    CancelIsReady(cfg, t, key, uuid, details);
    ReadyIsSound(cfg, t, CancelRecorded(t, key, uuid, details), key, t.ops[key].invoice);
  }

  /** A cancellation commit stores or repeats the operation's one envelope. */
  lemma CancelIsSound(cfg: Config, t: Tables, key: Key, uuid: string, details: string, subscribersOk: bool)
    requires TablesOk(cfg, t) && Cancellation(t, key)
    ensures Sound(cfg, t, OrElse(CommitCancel(t, key, uuid, details, subscribersOk), t))
  {
    assert OpOk(cfg, t, key);
    CommitIsRecorded(cfg, t, key, uuid, details, subscribersOk);
    hide OpOk;
    CancelRecordedIsSound(cfg, t, key, uuid, details);
    SoundRefl(cfg, t);
    hide TablesOk, Sound, CommitCancel, CancelRecorded;
  }

  /** A retried cancellation finds the envelope of its first commit. */
  lemma RetryIsSound(cfg: Config, t: Tables, key: Key, details: string)
    requires TablesOk(cfg, t) && Retriable(t, key, details)
    ensures Sound(cfg, t, Retried(t, key))
  {
    RowsOk(cfg, t, key);
    hide TablesOk, InvoiceOk, OpOk, Ready, Retried, Sound;
    RetryIsReady(cfg, t, key, details);
    ReadyIsSound(cfg, t, Retried(t, key), key, t.ops[key].invoice);
  }

  lemma RetryIsReady(cfg: Config, t: Tables, key: Key, details: string)
    requires Retriable(t, key, details) && OpOk(cfg, t, key) && InvoiceOk(cfg, t, t.ops[key].invoice)
    ensures Ready(cfg, t, Retried(t, key), key, t.ops[key].invoice)
  {
    hide UuidFree;
    assert CancelledBy(Retried(t, key), t.ops[key].invoice, key);
  }

  function Resent(t: Tables, key: Key): Tables
    requires key in t.ops && t.ops[key].payload.Some?
  {
    t.(outbox := t.outbox + [Event(key, t.ops[key].kind, t.ops[key].invoice, t.ops[key].payload.value)])
  }

  lemma ReplayResends(cfg: Config, t: Tables, key: Key, subscribersOk: bool)
    requires key in t.ops && OpOk(cfg, t, key) && Replay(t, key, subscribersOk).Ok?
    ensures t.ops[key].payload.Some? && Replay(t, key, subscribersOk).value == Resent(t, key)
  {
    assert Replay(t, key, subscribersOk).value.ops == t.ops;
  }

  lemma ResentIsReady(cfg: Config, t: Tables, key: Key)
    requires key in t.ops && OpOk(cfg, t, key) && t.ops[key].payload.Some? && InvoiceOk(cfg, t, t.ops[key].invoice)
    ensures Ready(cfg, t, Resent(t, key), key, t.ops[key].invoice)
  {
    hide UuidFree;
    var t', i := Resent(t, key), t.ops[key].invoice;
    assert t'.outbox[..|t.outbox|] == t.outbox;
    assert Extends(t, t');
    assert EventOk(t', t'.outbox[|t.outbox|]);
    InvoiceKept(cfg, t, t', i);
    hide InvoiceOk;
  }

  lemma ReplayIsSound(cfg: Config, t: Tables, key: Key, subscribersOk: bool)
    requires TablesOk(cfg, t)
    ensures Sound(cfg, t, OrElse(Replay(t, key, subscribersOk), t))
  {
    SoundRefl(cfg, t);
    if Replay(t, key, subscribersOk).Ok? {
      RowsOk(cfg, t, key);
      hide TablesOk, Sound, Ready, InvoiceOk, Resent;
      ReplayResends(cfg, t, key, subscribersOk);
      hide Replay, OpOk;
      ResentIsReady(cfg, t, key);
      ReadyIsSound(cfg, t, Resent(t, key), key, t.ops[key].invoice);
    }
    hide TablesOk, Sound, Replay;
  }

  /** The tables in the middle of phase 1: a new or resumed stamp operation, not yet pinned. */
  predicate Pinnable(t: Tables, working: Tables, c: Command) {
    && c.invoice in t.invoices && t.invoices[c.invoice].status == Draft
    && c.key in working.ops && working == t.(ops := t.ops[c.key := working.ops[c.key]])
    && (c.key in t.ops ==> OpExtends(t.ops[c.key], working.ops[c.key]))
    && var op := working.ops[c.key];
    && op.kind == Stamp && op.status == InFlight && op.invoice == c.invoice && op.request.StampRequest?
    && op.request.invoice == c.invoice
    && (op.semanticId.Some? ==> op.semanticId == Some(SemanticId(c.key, Stamp)))
    && (op.payload.Some? ==> op.semanticId == Some(op.payload.value.semanticId))
  }

  lemma PinIsSound(cfg: Config, t: Tables, working: Tables, c: Command)
    requires TablesOk(cfg, t) && Pinnable(t, working, c)
    ensures BegunOk(cfg, t, c, Pin(working, c)) && !Pin(working, c).Completed?
  {
    hide UuidsDiffer, UuidFree;
    var r := Pin(working, c);
    if r.Proceed? {
      assert OpOk(cfg, r.tables, c.key);
      assert Extends(t, r.tables);
      TouchKeeps(cfg, t, r.tables, c.key, c.invoice);
    }
  }

  ghost predicate BegunOk(cfg: Config, t: Tables, c: Command, r: Begun) {
    match r
    case Failed(_) => true
    case Completed(t') => Sound(cfg, t, t')
    case Proceed(t', call) =>
      && Sound(cfg, t, t') && Touches(t, t', c.key, c.invoice)
      && CallOk(t', call) && call.key == c.key && call.invoice == c.invoice && !call.sent
      && t'.ops[c.key].status == InFlight
  }

  lemma SoundRefl(cfg: Config, t: Tables)
    requires TablesOk(cfg, t)
    ensures Sound(cfg, t, t)
  {
  }

  /** While its invoice is a draft, a stamp operation has not succeeded: the branch that repairs an invoice from
      a succeeded operation is never taken, because both rows are written in one transaction. */
  lemma RepairIsUnreachable(cfg: Config, t: Tables, key: Key)
    requires TablesOk(cfg, t) && key in t.ops && t.ops[key].request.StampRequest?
    requires t.invoices[t.ops[key].request.invoice].status == Draft
    ensures t.ops[key].status != Succeeded
  {
    assert OpOk(cfg, t, key);
  }

  lemma RecordIsSound(cfg: Config, t: Tables, key: Key, c: Certificate, subscribersOk: bool)
    requires TablesOk(cfg, t) && key in t.ops && t.ops[key].kind == Stamp
    requires Validates(cfg, c, t.ops[key].requestXml.value)
    ensures Sound(cfg, t, OrElse(Record(t, key, t.ops[key].invoice, c, subscribersOk), t))
  {
    assert OpOk(cfg, t, key);
    RecordIsRecorded(cfg, t, key, c, subscribersOk);
    hide OpOk, UuidFree;
    if UuidFree(t, t.ops[key].invoice, c.uuid) {
      RecordedIsSound(cfg, t, key, c);
    }
    SoundRefl(cfg, t);
    hide TablesOk, Sound, Record, Recorded, Validates;
  }

  lemma ConfirmIsSound(cfg: Config, t: Tables, c: Command, cert: Certificate)
    requires TablesOk(cfg, t) && c.key in t.ops && t.ops[c.key].kind == Stamp && t.ops[c.key].invoice == c.invoice
    requires Resume(cfg, t.ops[c.key], c) == Confirm(cert) && c.invoice in t.invoices
    ensures BegunOk(cfg, t, c, BeginAgain(cfg, t, c))
  {
    assert OpOk(cfg, t, c.key);
    hide OpOk;
    if Validates(cfg, cert, t.ops[c.key].requestXml.value) {
      RecordIsSound(cfg, t, c.key, cert, c.subscribersOk);
    }
    hide TablesOk, Sound, Record, Validates, Resume, Pin;
  }

  lemma RedispatchIsSound(cfg: Config, t: Tables, c: Command)
    requires TablesOk(cfg, t) && c.key in t.ops && c.invoice in t.invoices && t.invoices[c.invoice].status == Draft
    requires t.ops[c.key].request == StampRequest(c.invoice, t.invoices[c.invoice].facts)
    requires Resume(cfg, t.ops[c.key], c) == Redispatch
    ensures BegunOk(cfg, t, c, BeginAgain(cfg, t, c))
  {
    AttemptIsPinnable(cfg, t, c);
    hide TablesOk, Resume, Pinnable, Attempted, BegunOk, Pin;
    PinIsSound(cfg, t, Attempted(t, c.key), c);
  }

  lemma AttemptIsPinnable(cfg: Config, t: Tables, c: Command)
    requires TablesOk(cfg, t) && c.key in t.ops && c.invoice in t.invoices && t.invoices[c.invoice].status == Draft
    requires t.ops[c.key].request == StampRequest(c.invoice, t.invoices[c.invoice].facts)
    ensures Pinnable(t, Attempted(t, c.key), c)
  {
    assert OpOk(cfg, t, c.key);
    var t' := Attempted(t, c.key);
    assert t'.ops == t.ops[c.key := t'.ops[c.key]];
  }

  lemma BeginAgainIsSound(cfg: Config, t: Tables, c: Command)
    requires TablesOk(cfg, t) && c.key in t.ops && c.invoice in t.invoices && t.invoices[c.invoice].status == Draft
    requires t.ops[c.key].request == StampRequest(c.invoice, t.invoices[c.invoice].facts)
    ensures BegunOk(cfg, t, c, BeginAgain(cfg, t, c))
  {
    assert OpOk(cfg, t, c.key);
    hide OpOk, TablesOk, Resume, BegunOk;
    match Resume(cfg, t.ops[c.key], c) {
      case Stop(e) =>
        assert BegunOk(cfg, t, c, Failed(e)) by { FailedIsOk(cfg, t, c, e); }
      case Confirm(cert) => ConfirmIsSound(cfg, t, c, cert);
      case Redispatch => RedispatchIsSound(cfg, t, c);
    }
  }

  lemma FailedIsOk(cfg: Config, t: Tables, c: Command, e: Error)
    ensures BegunOk(cfg, t, c, Failed(e))
  {
  }

  lemma BeginIsSound(cfg: Config, t: Tables, c: Command)
    requires TablesOk(cfg, t)
    ensures BegunOk(cfg, t, c, Begin(cfg, t, c))
  {
    SoundRefl(cfg, t);
    if c.invoice in t.invoices && t.invoices[c.invoice].status == Draft {
      var request := StampRequest(c.invoice, t.invoices[c.invoice].facts);
      if c.key in t.ops && t.ops[c.key].request == request {
        RepairIsUnreachable(cfg, t, c.key);
        BeginAgainIsSound(cfg, t, c);
      } else if c.key !in t.ops {
        var t' := t.(ops := t.ops[c.key := NewOp(c.invoice, request)]);
        assert t'.ops == t.ops[c.key := t'.ops[c.key]];
        PinIsSound(cfg, t, t', c);
      }
    }
    hide TablesOk, Sound, BeginAgain, Pin, CallOk, Touches;
  }

  lemma FinishIsSound(cfg: Config, t: Tables, call: Call, reply: Reply, subscribersOk: bool)
    requires TablesOk(cfg, t) && CallOk(t, call)
    ensures Sound(cfg, t, AfterFinish(cfg, t, call, reply, subscribersOk))
  {
    hide TablesOk, Sound, Validates, Record, WithStatus;
    if reply.Certified? && Validates(cfg, reply.certificate, call.xml) {
      RecordIsSound(cfg, t, call.key, reply.certificate, subscribersOk);
    } else {
      StatusIsSound(cfg, t, call.key, if reply == Rejected then FailedTerminal else ReconciliationRequired);
    }
  }

  /* Every run. */

  lemma CallKept(t: Tables, t': Tables, call: Call)
    requires CallOk(t, call) && Extends(t, t')
    ensures CallOk(t', call)
  {
  }

  /** A sound transaction keeps the callers and the dispatch log in agreement with the pinned XML. */
  lemma SoundKeepsInv(cfg: Config, s: State, t': Tables)
    requires Inv(cfg, s) && Sound(cfg, s.tables, t')
    ensures Inv(cfg, s.(tables := t'))
  {
    hide TablesOk;
    forall c | c in s.calls
      ensures CallOk(t', s.calls[c])
    {
      CallKept(s.tables, t', s.calls[c]);
    }
  }

  lemma DraftIsSound(cfg: Config, t: Tables, i: nat, facts: string)
    requires TablesOk(cfg, t) && i !in t.invoices
    ensures Sound(cfg, t, t.(invoices := t.invoices[i := Invoice(Draft, facts, "", None)]))
  {
    var t' := t.(invoices := t.invoices[i := Invoice(Draft, facts, "", None)]);
    DraftKeepsUuids(t, i, facts);
    hide UuidsDiffer, InvoiceOk;
    assert Extends(t, t');
    forall k | k in t'.ops
      ensures OpOk(cfg, t', k)
    {
      OtherOpsKept(cfg, t, t', k);
    }
    hide OpOk;
    forall j | j in t'.invoices
      ensures InvoiceOk(cfg, t', j)
    {
      if j != i {
        InvoiceKept(cfg, t, t', j);
      } else {
        DraftIsOk(cfg, t', i);
      }
    }
  }

  lemma DraftIsOk(cfg: Config, t: Tables, i: nat)
    requires i in t.invoices && t.invoices[i].status == Draft
    ensures InvoiceOk(cfg, t, i)
  {
  }

  lemma DraftKeepsUuids(t: Tables, i: nat, facts: string)
    requires UuidsDiffer(t) && i !in t.invoices
    ensures UuidsDiffer(t.(invoices := t.invoices[i := Invoice(Draft, facts, "", None)]))
  {
    var t' := t.(invoices := t.invoices[i := Invoice(Draft, facts, "", None)]);
    forall a | a in t'.invoices && t'.invoices[a].uuid != ""
      ensures UuidFree(t', a, t'.invoices[a].uuid)
    {
      assert UuidFree(t, a, t.invoices[a].uuid);
    }
  }

  lemma OpenIsReady(cfg: Config, t: Tables, key: Key, i: nat, details: string)
    requires key !in t.ops && i in t.invoices && t.invoices[i].status == Stamped && InvoiceOk(cfg, t, i)
    ensures Ready(cfg, t, Opened(t, key, i, details), key, i)
  {
    hide UuidFree;
    var t' := Opened(t, key, i, details);
    assert Extends(t, t');
    InvoiceKept(cfg, t, t', i);
    hide InvoiceOk;
  }

  lemma OpenIsSound(cfg: Config, t: Tables, key: Key, i: nat, details: string)
    requires TablesOk(cfg, t) && key !in t.ops && i in t.invoices && t.invoices[i].status == Stamped
    ensures Sound(cfg, t, Opened(t, key, i, details))
  {
    assert InvoiceOk(cfg, t, i);
    hide TablesOk, InvoiceOk, Ready, Opened, Sound;
    OpenIsReady(cfg, t, key, i, details);
    ReadyIsSound(cfg, t, Opened(t, key, i, details), key, i);
  }

  lemma BeginKeepsInv(cfg: Config, s: State, caller: nat, c: Command)
    requires Inv(cfg, s)
    ensures Inv(cfg, Next(cfg, s, BeginStamp(caller, c)))
  {
    hide TablesOk, Sound, Begin, CallOk, Touches;
    BeginIsSound(cfg, s.tables, c);
    match Begin(cfg, s.tables, c) {
      case Failed(_) =>
      case Completed(t') => SoundKeepsInv(cfg, s, t');
      case Proceed(t', call) =>
        SoundKeepsInv(cfg, s, t');
        CallInKeepsInv(cfg, s.(tables := t'), caller, call);
    }
    hide Inv, BegunOk;
  }

  lemma CallInKeepsInv(cfg: Config, s: State, caller: nat, call: Call)
    requires Inv(cfg, s) && CallOk(s.tables, call)
    ensures Inv(cfg, s.(calls := s.calls[caller := call]))
  {
    hide TablesOk, CallOk, PinnedTo;
  }

  lemma CallIsKnown(t: Tables, call: Call)
    requires CallOk(t, call)
    ensures Known(t, call)
  {
  }

  lemma FinishKeepsInv(cfg: Config, s: State, caller: nat, reply: Reply, subscribersOk: bool)
    requires Inv(cfg, s)
    ensures Inv(cfg, Next(cfg, s, FinishStamp(caller, reply, subscribersOk)))
  {
    hide AfterFinish, TablesOk, Sound, CallOk, PinnedTo, Known;
    if caller in s.calls {
      CallIsKnown(s.tables, s.calls[caller]);
      FinishIsSound(cfg, s.tables, s.calls[caller], reply, subscribersOk);
      hide Inv;
      var t' := AfterFinish(cfg, s.tables, s.calls[caller], reply, subscribersOk);
      SoundKeepsInv(cfg, s, t');
      HangUpKeepsInv(cfg, s.(tables := t'), caller);
    }
  }

  lemma HangUpKeepsInv(cfg: Config, s: State, caller: nat)
    requires Inv(cfg, s)
    ensures Inv(cfg, s.(calls := s.calls - {caller}))
  {
    hide TablesOk, CallOk;
  }

  lemma SendKeepsInv(cfg: Config, s: State, caller: nat)
    requires Inv(cfg, s)
    ensures Inv(cfg, Next(cfg, s, Send(caller)))
  {
    hide TablesOk;
  }

  lemma OpenKeepsInv(cfg: Config, s: State, step: Step)
    requires Inv(cfg, s) && step.OpenCancellation?
    ensures Inv(cfg, Next(cfg, s, step))
  {
    var t, key, i := s.tables, step.key, step.invoice;
    hide TablesOk, CallOk, PinnedTo, Sound, Opened;
    if key !in t.ops && i in t.invoices && t.invoices[i].status == Stamped {
      OpenIsSound(cfg, t, key, i, step.details);
      hide Inv;
      SoundKeepsInv(cfg, s, Opened(t, key, i, step.details));
    }
  }

  lemma WriteKeepsInv(cfg: Config, s: State, step: Step)
    requires Inv(cfg, s) && step.WriteCancellation?
    ensures Inv(cfg, Next(cfg, s, step))
  {
    hide TablesOk, CallOk, PinnedTo, Sound, WithStatus;
    if Cancellation(s.tables, step.key) && step.status != Succeeded {
      StatusIsSound(cfg, s.tables, step.key, step.status);
      hide Inv;
      SoundKeepsInv(cfg, s, WithStatus(s.tables, step.key, step.status));
    }
  }

  lemma CommitKeepsInv(cfg: Config, s: State, step: Step)
    requires Inv(cfg, s) && step.CommitCancellation?
    ensures Inv(cfg, Next(cfg, s, step))
  {
    hide TablesOk, CallOk, PinnedTo, Sound, CommitCancel, OrElse;
    if Cancellation(s.tables, step.key) {
      CancelIsSound(cfg, s.tables, step.key, step.uuid, step.details, step.subscribersOk);
      hide Inv;
      SoundKeepsInv(cfg, s, OrElse(CommitCancel(s.tables, step.key, step.uuid, step.details, step.subscribersOk), s.tables));
    }
  }

  lemma RetryKeepsInv(cfg: Config, s: State, step: Step)
    requires Inv(cfg, s) && step.RetryCancellation?
    ensures Inv(cfg, Next(cfg, s, step))
  {
    hide TablesOk, CallOk, PinnedTo, Sound, Retried;
    if Retriable(s.tables, step.key, step.details) {
      RetryIsSound(cfg, s.tables, step.key, step.details);
      hide Inv, Retriable;
      SoundKeepsInv(cfg, s, Retried(s.tables, step.key));
    }
  }

  lemma NextKeepsInv(cfg: Config, s: State, step: Step)
    requires Inv(cfg, s)
    ensures Inv(cfg, Next(cfg, s, step))
  {
    match step {
      case CreateDraft(i, facts) =>
        if i !in s.tables.invoices {
          DraftIsSound(cfg, s.tables, i, facts);
          SoundKeepsInv(cfg, s, Next(cfg, s, step).tables);
        }
      case BeginStamp(caller, c) => BeginKeepsInv(cfg, s, caller, c);
      case Send(caller) => SendKeepsInv(cfg, s, caller);
      case FinishStamp(caller, reply, ok) => FinishKeepsInv(cfg, s, caller, reply, ok);
      case Crash(caller) =>
      case ReplayEvent(key, ok) =>
        ReplayIsSound(cfg, s.tables, key, ok);
        SoundKeepsInv(cfg, s, OrElse(Replay(s.tables, key, ok), s.tables));
      case OpenCancellation(_, _, _) => OpenKeepsInv(cfg, s, step);
      case WriteCancellation(_, _) => WriteKeepsInv(cfg, s, step);
      case CommitCancellation(_, _, _, _) => CommitKeepsInv(cfg, s, step);
      case RetryCancellation(_, _) => RetryKeepsInv(cfg, s, step);
    }
    hide TablesOk, Sound, Begin, AfterFinish, Replay, CommitCancel, CallOk, OrElse;
  }

  /** Every interleaving of callers, crashes, provider answers, cancellations and replays. */
  lemma {:induction false} EveryRunKeepsInv(cfg: Config, steps: seq<Step>)
    ensures Inv(cfg, Run(cfg, steps))
  {
    if steps != [] {
      EveryRunKeepsInv(cfg, steps[..|steps| - 1]);
      NextKeepsInv(cfg, Run(cfg, steps[..|steps| - 1]), steps[|steps| - 1]);
      hide Next, Inv;
    }
  }
}
