/** Folio leases of one (organization, branch, folio type): an allocator with epochs, fencing and
    disaster-recovery replacement. Each method is one database transaction. */
module Leases {
  import opened Results
  import opened Epochs

  const DEFAULT_BLOCK_SIZE: int := 500
  const MIN_BLOCK_SIZE: int := 10
  const MAX_BLOCK_SIZE: int := 5000
  const INITIAL_RANGE_START: int := 1

  datatype Status = Allocated | Active | Exhausted | Revoked | AbandonedContingencyRange | Reconciled

  datatype Lease = Lease(
    id: nat, epochId: string, fencingToken: string, rangeStart: int, rangeEnd: int, highWaterMark: int, status: Status)

  datatype Error =
    | InvalidBlockSize | ActiveLeaseExists(id: nat) | MalformedEpoch | DuplicateId | LeaseNotFound
    | LeaseRevoked | InvalidEpoch | InvalidFencingToken | FolioOutOfRange | HighWaterRegression

  datatype AllocateRequest = AllocateRequest(blockSize: Option<int>, isDisasterRecovery: bool, newId: nat, token: string)

  datatype Heartbeat = Heartbeat(leaseId: nat, epochId: string, fencingToken: string, currentFolio: int)

  /** The rows of `folio_leases` in this scope, in insertion order. */
  type Table = seq<Lease>

  predicate Open(l: Lease) {
    l.status == Active || l.status == Allocated
  }

  predicate ValidBlockSize(size: int) {
    MIN_BLOCK_SIZE <= size <= MAX_BLOCK_SIZE
  }

  /* The state every run reaches. */

  predicate Tiled(t: Table) {
    && (forall i | 0 <= i < |t| :: t[i].rangeStart <= t[i].rangeEnd)
    && (|t| > 0 ==> t[0].rangeStart == INITIAL_RANGE_START)
    && (forall i | 0 < i < |t| :: t[i].rangeStart == t[i - 1].rangeEnd + 1)
  }

  predicate Numbered(t: Table) {
    forall i | 0 <= i < |t| :: ParseEpoch(t[i].epochId) == Some(i + 1)
  }

  predicate OnlyNewestOpen(t: Table) {
    forall i | 0 <= i < |t| && Open(t[i]) :: i == |t| - 1
  }

  predicate MarksInRange(t: Table) {
    forall i | 0 <= i < |t| ::
      && t[i].rangeStart - 1 <= t[i].highWaterMark <= t[i].rangeEnd
      && (t[i].status == Exhausted <==> t[i].highWaterMark == t[i].rangeEnd)
      && (t[i].status == Active || t[i].status == Exhausted || t[i].status == AbandonedContingencyRange)
  }

  predicate DistinctIds(t: Table) {
    forall i, j | 0 <= i < j < |t| :: t[i].id != t[j].id
  }

  predicate Inv(t: Table) {
    Tiled(t) && Numbered(t) && OnlyNewestOpen(t) && MarksInRange(t) && DistinctIds(t)
  }

  /* What the two transactions do, as functions of the table. */

  /** The row an `ORDER BY range_end DESC` lists first among those satisfying the filter. */
  predicate IsFirstByRangeEnd(t: Table, k: nat, openOnly: bool) {
    && k < |t| && (openOnly ==> Open(t[k]))
    && forall i | 0 <= i < |t| && (openOnly ==> Open(t[i])) :: t[i].rangeEnd <= t[k].rangeEnd
  }

  /** The disaster-recovery replacement abandons the open lease, which is the newest one. */
  function Superseded(t: Table): Table {
    if t != [] && Open(t[|t| - 1]) then t[|t| - 1 := t[|t| - 1].(status := AbandonedContingencyRange)] else t
  }

  function NextStart(t: Table): int {
    if t == [] then INITIAL_RANGE_START else t[|t| - 1].rangeEnd + 1
  }

  function NewLease(t: Table, r: AllocateRequest): Lease
    requires FormatEpoch(|t| + 1).Some?
  {
    var start, size := NextStart(t), if r.blockSize.None? then DEFAULT_BLOCK_SIZE else r.blockSize.value;
    Lease(r.newId, FormatEpoch(|t| + 1).value, r.token, start, start + size - 1, start - 1, Active)
  }

  /** The primary key would reject the row. */
  predicate IdTaken(t: Table, id: nat) {
    exists l :: l in t && l.id == id
  }

  function AllocateError(t: Table, r: AllocateRequest): Option<Error> {
    if r.blockSize.Some? && !ValidBlockSize(r.blockSize.value) then Some(InvalidBlockSize)
    else if t != [] && Open(t[|t| - 1]) && !r.isDisasterRecovery then Some(ActiveLeaseExists(t[|t| - 1].id))
    else if FormatEpoch(|t| + 1).None? then Some(MalformedEpoch)
    else if IdTaken(t, r.newId) then Some(DuplicateId)
    else None
  }

  function AfterAllocate(t: Table, r: AllocateRequest): Table {
    if AllocateError(t, r).Some? then t else Superseded(t) + [NewLease(t, r)]
  }

  /** Why a heartbeat is refused, against the newest lease. */
  function HeartbeatError(t: Table, h: Heartbeat): Option<Error> {
    if t == [] then Some(LeaseNotFound) else
      var newest := t[|t| - 1];
      match CompareEpochs(h.epochId, newest.epochId)
      case None => Some(MalformedEpoch)
      case Some(c) =>
        if c < 0 then Some(LeaseRevoked)
        else if c > 0 then Some(InvalidEpoch)
        else if h.leaseId != newest.id then Some(LeaseRevoked)
        else if h.fencingToken != newest.fencingToken then Some(InvalidFencingToken)
        else if h.currentFolio < newest.rangeStart - 1 || h.currentFolio > newest.rangeEnd then Some(FolioOutOfRange)
        else if h.currentFolio < newest.highWaterMark then Some(HighWaterRegression)
        else if newest.status == Revoked || newest.status == AbandonedContingencyRange then Some(LeaseRevoked)
        else None
  }

  function AfterHeartbeat(t: Table, h: Heartbeat): Table {
    if HeartbeatError(t, h).Some? then t else
      var newest := t[|t| - 1];
      t[|t| - 1 := newest.(highWaterMark := h.currentFolio,
                           status := if h.currentFolio == newest.rangeEnd then Exhausted else Active)]
  }

  /* Runs. */

  datatype Event = Allocate(request: AllocateRequest) | Beat(heartbeat: Heartbeat)

  function Step(t: Table, e: Event): Table {
    match e
    case Allocate(r) => AfterAllocate(t, r)
    case Beat(h) => AfterHeartbeat(t, h)
  }

  function Run(t: Table, events: seq<Event>): Table {
    if events == [] then t else Step(Run(t, events[..|events| - 1]), events[|events| - 1])
  }

  lemma SupersedeKeepsInv(t: Table)
    requires Inv(t)
    ensures Inv(Superseded(t)) && NextStart(Superseded(t)) == NextStart(t) && |Superseded(t)| == |t|
    ensures forall i | 0 <= i < |t| :: !Open(Superseded(t)[i]) && Superseded(t)[i].id == t[i].id
  {
    hide ParseEpoch;
  }

  lemma AppendKeepsInv(t: Table, l: Lease)
    requires Inv(t) && forall i | 0 <= i < |t| :: !Open(t[i]) && t[i].id != l.id
    requires l.rangeStart == NextStart(t) && l.rangeStart <= l.rangeEnd && l.highWaterMark == l.rangeStart - 1
    requires ParseEpoch(l.epochId) == Some(|t| + 1) && l.status == Active
    ensures Inv(t + [l])
  {
    hide ParseEpoch;
    var n := t + [l];
    assert forall i | 0 <= i < |t| :: n[i] == t[i];
  }

  lemma AllocateKeepsInv(t: Table, r: AllocateRequest)
    requires Inv(t)
    ensures Inv(AfterAllocate(t, r))
  {
    if AllocateError(t, r).None? {
      ParseOfFormat(|t| + 1);
      hide ParseEpoch, FormatEpoch;
      SupersedeKeepsInv(t);
      assert forall i | 0 <= i < |t| :: t[i] in t;
      hide Inv, Superseded;
      AppendKeepsInv(Superseded(t), NewLease(t, r));
    }
  }

  lemma HeartbeatKeepsInv(t: Table, h: Heartbeat)
    requires Inv(t)
    ensures Inv(AfterHeartbeat(t, h))
  {
    hide ParseEpoch;
  }

  /** Every run of allocations, disaster-recovery replacements and heartbeats from an empty scope: the
      ranges tile 1..max in epoch order 1, 2, 3, ..., only the newest lease can be open, and every
      high-water mark stays in its range and reaches its end exactly on exhaustion. */
  lemma {:induction false} EveryRunKeepsInv(events: seq<Event>)
    ensures Inv(Run([], events))
  {
    if events != [] {
      var last := events[|events| - 1];
      EveryRunKeepsInv(events[..|events| - 1]);
      match last {
        case Allocate(r) => AllocateKeepsInv(Run([], events[..|events| - 1]), r);
        case Beat(h) => HeartbeatKeepsInv(Run([], events[..|events| - 1]), h);
      }
    }
  }

  /** Two leases never share a folio, and the leased folios are exactly 1..max. */
  lemma {:induction false} RangesAreOrdered(t: Table, i: nat, j: nat)
    requires Tiled(t) && i < j < |t|
    ensures t[i].rangeEnd < t[j].rangeStart
  {
    if i < j - 1 {
      RangesAreOrdered(t, i, j - 1);
    }
  }

  predicate Covers(l: Lease, folio: int) {
    l.rangeStart <= folio <= l.rangeEnd
  }

  lemma {:induction false} EachFolioHasOneLease(t: Table, folio: int)
    requires Tiled(t) && t != []
    ensures 1 <= folio <= t[|t| - 1].rangeEnd <==> exists i :: 0 <= i < |t| && Covers(t[i], folio)
    ensures forall i, j | 0 <= i < |t| && 0 <= j < |t| && Covers(t[i], folio) && Covers(t[j], folio) :: i == j
  {
    forall i, j | 0 <= i < j < |t|
      ensures t[i].rangeEnd < t[j].rangeStart
    {
      RangesAreOrdered(t, i, j);
    }
    if 1 <= folio <= t[|t| - 1].rangeEnd {
      FindCover(t, folio, |t| - 1);
    }
  }

  lemma {:induction false} FindCover(t: Table, folio: int, k: nat)
    requires Tiled(t) && k < |t| && 1 <= folio <= t[k].rangeEnd
    ensures exists i :: 0 <= i <= k && Covers(t[i], folio)
  {
    if folio < t[k].rangeStart {
      FindCover(t, folio, k - 1);
    } else {
      assert Covers(t[k], folio);
    }
  }

  /** In a tiled table the row listed first by range end is the last one inserted. */
  lemma FirstIsNewest(t: Table, k: nat)
    requires Tiled(t) && IsFirstByRangeEnd(t, k, false)
    ensures k == |t| - 1
  {
    if k < |t| - 1 {
      RangesAreOrdered(t, k, |t| - 1);
    }
  }

  lemma FirstOpenIsNewest(t: Table)
    requires Inv(t)
    ensures forall k: nat | IsFirstByRangeEnd(t, k, true) :: k == |t| - 1 && Open(t[k])
  {
  }

  /** Neither maximum is below zero, the loop's initial value. */
  predicate AreMaxima(t: Table, maxRangeEnd: int, maxEpoch: nat) {
    && (forall l | l in t :: l.rangeEnd <= maxRangeEnd)
    && (maxRangeEnd == 0 || exists l :: l in t && l.rangeEnd == maxRangeEnd)
    && (forall l | l in t :: ParseEpoch(l.epochId).Some? && ParseEpoch(l.epochId).value <= maxEpoch)
    && (maxEpoch == 0 || exists l :: l in t && ParseEpoch(l.epochId) == Some(maxEpoch))
  }

  lemma MaximaAreNewest(t: Table)
    requires Inv(t) && t != []
    ensures forall i | 0 <= i < |t| :: ParseEpoch(t[i].epochId).Some?
    ensures forall e, n: nat | AreMaxima(t, e, n) :: e == t[|t| - 1].rangeEnd && n == |t|
  {
    hide ParseEpoch;
    forall e, n: nat | AreMaxima(t, e, n)
      ensures e == t[|t| - 1].rangeEnd && n == |t|
    {
      var last := t[|t| - 1];
      assert last in t;
      forall i | 0 <= i < |t|
        ensures t[i].rangeEnd <= last.rangeEnd && last.rangeEnd >= 1
      {
        if i < |t| - 1 {
          RangesAreOrdered(t, i, |t| - 1);
        }
        EndIsPositive(t, |t| - 1);
      }
    }
  }

  lemma {:induction false} EndIsPositive(t: Table, i: nat)
    requires Tiled(t) && i < |t|
    ensures t[i].rangeEnd >= 1
  {
    if i > 0 {
      EndIsPositive(t, i - 1);
    }
  }

  lemma SameIds(t: Table, t': Table, id: nat)
    requires |t| == |t'| && forall i | 0 <= i < |t| :: t'[i].id == t[i].id
    ensures IdTaken(t, id) <==> IdTaken(t', id)
  {
    if l :| l in t && l.id == id {
      var i :| 0 <= i < |t| && t[i] == l;
      assert t'[i] in t';
    }
    if l :| l in t' && l.id == id {
      var i :| 0 <= i < |t| && t'[i] == l;
      assert t[i] in t;
    }
  }

  /* What is granted and what is refused. */

  predicate SomeOpen(t: Table) {
    exists i :: 0 <= i < |t| && Open(t[i])
  }

  /** The size is governed, no lease is open unless it is replaced, and the next generation and the id are usable. */
  predicate MayAllocate(t: Table, r: AllocateRequest) {
    && (r.blockSize.Some? ==> 10 <= r.blockSize.value <= 5000)
    && (SomeOpen(t) ==> r.isDisasterRecovery)
    && |t| < MAX_SAFE_INTEGER && forall i | 0 <= i < |t| :: t[i].id != r.newId
  }

  /** Why an allocation is refused. */
  predicate AllocateRefusal(t: Table, r: AllocateRequest, e: Error) {
    match e
    case InvalidBlockSize => r.blockSize.Some? && !(10 <= r.blockSize.value <= 5000)
    case ActiveLeaseExists(id) => !r.isDisasterRecovery && exists i :: 0 <= i < |t| && Open(t[i]) && t[i].id == id
    case MalformedEpoch => |t| >= MAX_SAFE_INTEGER
    case DuplicateId => exists i :: 0 <= i < |t| && t[i].id == r.newId
    case _ => false
  }

  /** A lease of the requested size, 500 by default, right after everything leased before, under the next generation;
      the lease it replaces is abandoned and no other row changes. */
  predicate Granted(t: Table, t': Table, r: AllocateRequest, l: Lease) {
    && |t'| == |t| + 1 && t'[|t|] == l
    && l.id == r.newId && l.fencingToken == r.token && ParseEpoch(l.epochId) == Some(|t| + 1)
    && l.rangeEnd - l.rangeStart + 1 == (if r.blockSize.Some? then r.blockSize.value else 500)
    && l.highWaterMark == l.rangeStart - 1 && l.status == Active
    && (forall i | 0 <= i < |t| :: t[i].rangeEnd < l.rangeStart)
    && (if t == [] then l.rangeStart == 1 else l.rangeStart == t[|t| - 1].rangeEnd + 1)
    && (forall i | 0 <= i < |t| ::
          t'[i] == if Open(t[i]) then t[i].(status := AbandonedContingencyRange) else t[i])
  }

  /** An allocation is accepted exactly when it may be, grants what was asked for, and otherwise says why not. */
  lemma AllocatedExactly(t: Table, r: AllocateRequest)
    requires Inv(t)
    ensures AllocateError(t, r).None? <==> MayAllocate(t, r)
    ensures AllocateError(t, r).None? ==> Granted(t, AfterAllocate(t, r), r, AfterAllocate(t, r)[|t|])
    ensures AllocateError(t, r).Some? ==> AfterAllocate(t, r) == t && AllocateRefusal(t, r, AllocateError(t, r).value)
  {
    OpenIsNewest(t);
    TakenIds(t, r.newId);
    hide IdTaken, ParseEpoch, Inv, Granted, SomeOpen;
    if AllocateError(t, r).None? {
      NewLeaseIsGranted(t, r);
    }
  }

  lemma NewLeaseIsGranted(t: Table, r: AllocateRequest)
    requires Inv(t) && AllocateError(t, r).None?
    ensures Granted(t, AfterAllocate(t, r), r, AfterAllocate(t, r)[|t|])
  {
    ParseOfFormat(|t| + 1);
    NewestEndsLast(t);
    SupersededRows(t);
    hide FormatEpoch, ParseEpoch, Inv, IdTaken, Superseded;
  }

  lemma SupersededRows(t: Table)
    requires Inv(t)
    ensures |Superseded(t)| == |t|
    ensures forall i | 0 <= i < |t| ::
              Superseded(t)[i] == if Open(t[i]) then t[i].(status := AbandonedContingencyRange) else t[i]
  {
    hide Tiled, Numbered, MarksInRange, DistinctIds;
  }

  lemma OpenIsNewest(t: Table)
    requires Inv(t)
    ensures SomeOpen(t) <==> t != [] && Open(t[|t| - 1])
  {
  }

  lemma TakenIds(t: Table, id: nat)
    ensures IdTaken(t, id) <==> exists i :: 0 <= i < |t| && t[i].id == id
  {
    if l :| l in t && l.id == id {
      var i :| 0 <= i < |t| && t[i] == l;
    }
    if i :| 0 <= i < |t| && t[i].id == id {
      assert t[i] in t;
    }
  }

  lemma NewestEndsLast(t: Table)
    requires Inv(t)
    ensures forall i | 0 <= i < |t| :: t[i].rangeEnd <= t[|t| - 1].rangeEnd
  {
    forall i | 0 <= i < |t|
      ensures t[i].rangeEnd <= t[|t| - 1].rangeEnd
    {
      if i < |t| - 1 {
        RangesAreOrdered(t, i, |t| - 1);
      }
    }
  }

  /** The heartbeat names the newest lease by id, generation and token, reports a folio from its mark to the end of its
      range, and the lease has not been abandoned. */
  predicate MayBeat(t: Table, h: Heartbeat) {
    && t != []
    && var newest := t[|t| - 1];
    && h.leaseId == newest.id && h.epochId == newest.epochId && h.fencingToken == newest.fencingToken
    && newest.highWaterMark <= h.currentFolio <= newest.rangeEnd && newest.status != AbandonedContingencyRange
  }

  /** The mark moves to the folio, which exhausts the lease exactly at the end of its range; no other row changes. */
  predicate Beaten(t: Table, t': Table, h: Heartbeat) {
    && t != [] && |t'| == |t| && t'[..|t| - 1] == t[..|t| - 1]
    && t'[|t| - 1] == t[|t| - 1].(highWaterMark := h.currentFolio, status := t'[|t| - 1].status)
    && (t'[|t| - 1].status == Exhausted <==> h.currentFolio == t[|t| - 1].rangeEnd)
    && (t'[|t| - 1].status == Active <==> h.currentFolio < t[|t| - 1].rangeEnd)
  }

  /** Why a heartbeat is refused: fenced by an older generation or another id comes before the token, the token before
      the folio. */
  predicate BeatRefusal(t: Table, h: Heartbeat, e: Error) {
    if t == [] then e == LeaseNotFound else
      var newest := t[|t| - 1];
      var generation := ParseEpoch(h.epochId);
      match e
      case MalformedEpoch => generation.None?
      case InvalidEpoch => generation.Some? && generation.value > |t|
      case LeaseRevoked =>
        && generation.Some? && generation.value <= |t|
        && (generation.value < |t| || h.leaseId != newest.id || newest.status == AbandonedContingencyRange)
      case InvalidFencingToken => h.epochId == newest.epochId && h.leaseId == newest.id && h.fencingToken != newest.fencingToken
      case FolioOutOfRange =>
        && h.epochId == newest.epochId && h.leaseId == newest.id && h.fencingToken == newest.fencingToken
        && !(newest.rangeStart - 1 <= h.currentFolio <= newest.rangeEnd)
      case HighWaterRegression =>
        && h.epochId == newest.epochId && h.leaseId == newest.id && h.fencingToken == newest.fencingToken
        && newest.rangeStart - 1 <= h.currentFolio < newest.highWaterMark
      case _ => false
  }

  /** A heartbeat is accepted exactly when it may be, moves the mark and nothing else, and otherwise says why not. */
  lemma BeatenExactly(t: Table, h: Heartbeat)
    requires Inv(t)
    ensures HeartbeatError(t, h).None? <==> MayBeat(t, h)
    ensures HeartbeatError(t, h).None? ==> Beaten(t, AfterHeartbeat(t, h), h)
    ensures HeartbeatError(t, h).Some? ==> AfterHeartbeat(t, h) == t && BeatRefusal(t, h, HeartbeatError(t, h).value)
  {
    if t != [] {
      var newest := t[|t| - 1];
      assert ParseEpoch(newest.epochId) == Some(|t|);
      if ParseEpoch(h.epochId).Some? {
        CompareIsZeroOnlyOnEqualTexts(h.epochId, newest.epochId);
      }
      hide ParseEpoch, Numbered, DistinctIds, OnlyNewestOpen;
    }
  }

  /* Fencing: what a later run can do to an old lease. */

  /** `t'` is what may follow `t`: rows are only appended, identities and ranges are frozen, marks never
      decrease and a lease that is not the newest never changes again. */
  predicate Follows(t: Table, t': Table) {
    && |t| <= |t'|
    && (forall i | 0 <= i < |t| :: SameLease(t[i], t'[i]) && t[i].highWaterMark <= t'[i].highWaterMark)
    && (forall i | 0 <= i < |t| - 1 :: t'[i] == t[i])
  }

  predicate SameLease(a: Lease, b: Lease) {
    a.(highWaterMark := b.highWaterMark, status := b.status) == b
  }

  lemma StepFollows(t: Table, e: Event)
    ensures Follows(t, Step(t, e))
  {
    hide ParseEpoch, FormatEpoch;
  }

  lemma {:induction false} RunFollows(t: Table, events: seq<Event>)
    ensures Follows(t, Run(t, events))
  {
    if events != [] {
      RunFollows(t, events[..|events| - 1]);
      StepFollows(Run(t, events[..|events| - 1]), events[|events| - 1]);
      hide Step;
    }
  }

  /** Once another lease has been allocated after lease `i`, no heartbeat bearing lease i's id or epoch
      is ever accepted again, whatever else happens; and lease i's own row never changes. */
  lemma SupersededHolderIsFenced(before: seq<Event>, i: nat, after: seq<Event>, h: Heartbeat)
    requires var t := Run([], before); i < |t| - 1 && (h.leaseId == t[i].id || h.epochId == t[i].epochId)
    ensures var t, now := Run([], before), Run(Run([], before), after);
            && AfterHeartbeat(now, h) == now
            && i < |now| && now[i] == t[i]
  {
    var t := Run([], before);
    RunJoins([], before, after);
    EveryRunKeepsInv(before + after);
    RunFollows(t, after);
    hide Run;
    var now := Run(t, after);
    assert now[i] == t[i];
    assert ParseEpoch(now[|now| - 1].epochId) == Some(|now|);
    if h.epochId == t[i].epochId {
      assert ParseEpoch(h.epochId) == Some(i + 1);
    } else {
      assert now[i].id != now[|now| - 1].id;
    }
    hide ParseEpoch;
  }

  lemma {:induction false} RunJoins(t: Table, a: seq<Event>, b: seq<Event>)
    ensures Run(t, a + b) == Run(Run(t, a), b)
  {
    if b == [] {
      assert a + b == a;
    } else {
      RunJoins(t, a, b[..|b| - 1]);
      assert (a + b)[..|a + b| - 1] == a + b[..|b| - 1];
    }
  }

  /* The transactions, on a working copy of the table that is committed as a whole. */

  /** `historicalRes.rows.find(...)` over rows ordered by range_end descending. */
  method FirstOpen(rows: Table) returns (k: Option<nat>)
    ensures k.Some? ==> IsFirstByRangeEnd(rows, k.value, true)
    ensures k.None? ==> forall i | 0 <= i < |rows| :: !Open(rows[i])
  {
    k := None;
    for i := 0 to |rows|
      invariant k.Some? ==> k.value < i && Open(rows[k.value])
      invariant k.None? ==> forall j | 0 <= j < i :: !Open(rows[j])
      invariant k.Some? ==> forall j | 0 <= j < i && Open(rows[j]) :: rows[j].rangeEnd <= rows[k.value].rangeEnd
    {
      if Open(rows[i]) && (k.None? || rows[i].rangeEnd > rows[k.value].rangeEnd) {
        k := Some(i);
      }
    }
  }

  /** The loop over all historical rows; a malformed epoch throws. */
  method MaxRangeAndEpoch(rows: Table) returns (maxima: Option<(int, nat)>)
    ensures maxima.Some? <==> forall i | 0 <= i < |rows| :: ParseEpoch(rows[i].epochId).Some?
    ensures maxima.Some? ==> AreMaxima(rows, maxima.value.0, maxima.value.1)
  {
    var maxRangeEnd, maxEpoch := 0, 0;
    for i := 0 to |rows|
      invariant forall j | 0 <= j < i :: ParseEpoch(rows[j].epochId).Some?
      invariant AreMaxima(rows[..i], maxRangeEnd, maxEpoch)
    {
      assert rows[..i + 1] == rows[..i] + [rows[i]];
      var rEnd := rows[i].rangeEnd;
      if rEnd > maxRangeEnd {
        maxRangeEnd := rEnd;
      }
      var epNum := ParseEpoch(rows[i].epochId);
      if epNum.None? {
        return None;
      }
      if epNum.value > maxEpoch {
        maxEpoch := epNum.value;
      }
    }
    assert rows[..|rows|] == rows;
    return Some((maxRangeEnd, maxEpoch));
  }

  /** The newest row: `ORDER BY range_end DESC LIMIT 1`. */
  method Newest(rows: Table) returns (k: nat)
    requires rows != []
    ensures IsFirstByRangeEnd(rows, k, false)
  {
    k := 0;
    for i := 1 to |rows|
      invariant k < i
      invariant forall j | 0 <= j < i :: rows[j].rangeEnd <= rows[k].rangeEnd
    {
      if rows[i].rangeEnd > rows[k].rangeEnd {
        k := i;
      }
    }
  }

  /** The check for an existing open lease, and the UPDATE that abandons it in disaster recovery. */
  method SupersedeOpen(rows: Table, isDisasterRecovery: bool) returns (result: Result<Table, Error>)
    requires Inv(rows)
    ensures result == if rows != [] && Open(rows[|rows| - 1]) && !isDisasterRecovery
                      then Err(ActiveLeaseExists(rows[|rows| - 1].id)) else Ok(Superseded(rows))
  {
    FirstOpenIsNewest(rows);
    hide Inv, IsFirstByRangeEnd;
    var active := FirstOpen(rows);
    if active.None? {
      return Ok(rows);
    }
    var lease := rows[active.value];
    if !isDisasterRecovery {
      return Err(ActiveLeaseExists(lease.id));
    }
    return Ok(rows[active.value := lease.(status := AbandonedContingencyRange)]);
  }

  /** Where the next range starts and which epoch it gets. */
  method NextSlot(rows: Table) returns (rangeStart: int, epochNumber: nat)
    requires Inv(rows)
    ensures rangeStart == NextStart(rows) && epochNumber == |rows| + 1
  {
    if rows == [] {
      return INITIAL_RANGE_START, 1;
    }
    MaximaAreNewest(rows);
    hide Inv, ParseEpoch, AreMaxima;
    var maxima := MaxRangeAndEpoch(rows);
    return maxima.value.0 + 1, maxima.value.1 + 1;
  }

  /** The INSERT; the primary key rejects an id that is taken. */
  method InsertLease(rows: Table, l: Lease) returns (result: Result<Table, Error>)
    ensures result == if IdTaken(rows, l.id) then Err(DuplicateId) else Ok(rows + [l])
  {
    for i := 0 to |rows|
      invariant forall k | 0 <= k < i :: rows[k].id != l.id
    {
      if rows[i].id == l.id {
        assert rows[i] in rows;
        return Err(DuplicateId);
      }
    }
    return Ok(rows + [l]);
  }

  /** The body of `allocateLease` between BEGIN and COMMIT. */
  method AllocateBlock(rows: Table, r: AllocateRequest, blockSize: int) returns (result: Result<Table, Error>)
    requires Inv(rows) && AllocateError(rows, r) != Some(InvalidBlockSize)
    requires blockSize == if r.blockSize.Some? then r.blockSize.value else DEFAULT_BLOCK_SIZE
    ensures result == match AllocateError(rows, r)
                      case Some(e) => Err(e)
                      case None => Ok(AfterAllocate(rows, r))
    ensures result.Ok? <==> MayAllocate(rows, r)
    ensures result.Ok? ==> |result.value| == |rows| + 1 && Granted(rows, result.value, r, result.value[|rows|])
    ensures result.Err? ==> AllocateRefusal(rows, r, result.error)
  {
    hide Inv, ParseEpoch, FormatEpoch, IdTaken, Superseded, NextStart, ValidBlockSize, MayAllocate, Granted, AllocateRefusal;
    AllocatedExactly(rows, r);
    assert
      && Inv(Superseded(rows)) && NextStart(Superseded(rows)) == NextStart(rows)
      && |Superseded(rows)| == |rows| && IdTaken(Superseded(rows), r.newId) == IdTaken(rows, r.newId)
    by {
      SupersedeKeepsInv(rows);
      SameIds(rows, Superseded(rows), r.newId);
    }
    var working :- SupersedeOpen(rows, r.isDisasterRecovery);
    var rangeStart, epochNumber := NextSlot(working);
    var nextEpoch := FormatEpoch(epochNumber);
    if nextEpoch.None? {
      return Err(MalformedEpoch);
    }
    result := InsertLease(
      working,
      Lease(r.newId, nextEpoch.value, r.token, rangeStart, rangeStart + blockSize - 1, rangeStart - 1, Active));
  }

  /** The body of `heartbeat` between BEGIN and COMMIT. */
  method HeartbeatNewest(rows: Table, h: Heartbeat) returns (result: Result<Table, Error>)
    requires Inv(rows)
    ensures result == match HeartbeatError(rows, h)
                      case Some(e) => Err(e)
                      case None => Ok(AfterHeartbeat(rows, h))
    ensures result.Ok? <==> MayBeat(rows, h)
    ensures result.Ok? ==> Beaten(rows, result.value, h)
    ensures result.Err? ==> BeatRefusal(rows, h, result.error)
  {
    BeatenExactly(rows, h);
    hide MayBeat, Beaten, BeatRefusal;
    if rows == [] {
      return Err(LeaseNotFound);
    }
    var k := Newest(rows);
    FirstIsNewest(rows, k);
    hide Inv, IsFirstByRangeEnd, CompareEpochs;
    var lease := rows[k];
    var comparison := CompareEpochs(h.epochId, lease.epochId);
    if comparison.None? {
      return Err(MalformedEpoch);
    }
    if comparison.value < 0 {
      return Err(LeaseRevoked);
    }
    if comparison.value > 0 {
      return Err(InvalidEpoch);
    }
    if h.leaseId != lease.id {
      return Err(LeaseRevoked);
    }
    if h.fencingToken != lease.fencingToken {
      return Err(InvalidFencingToken);
    }
    if h.currentFolio < lease.rangeStart - 1 || h.currentFolio > lease.rangeEnd {
      return Err(FolioOutOfRange);
    }
    if h.currentFolio < lease.highWaterMark {
      return Err(HighWaterRegression);
    }
    if lease.status == Revoked || lease.status == AbandonedContingencyRange {
      return Err(LeaseRevoked);
    }
    var newStatus := if h.currentFolio == lease.rangeEnd then Exhausted else Active;
    return Ok(rows[k := lease.(highWaterMark := h.currentFolio, status := newStatus)]);
  }

  /** The service over the table it owns; an error commits nothing. */
  class CloudLeaseManager {
    var rows: Table

    constructor ()
      ensures rows == []
    {
      rows := [];
    }

    /** `allocateLease`. */
    method AllocateLease(r: AllocateRequest) returns (result: Result<Lease, Error>)
      requires Inv(rows)
      modifies this
      ensures Inv(rows) && rows == AfterAllocate(old(rows), r)
      ensures result == match AllocateError(old(rows), r)
                        case Some(e) => Err(e)
                        case None => Ok(rows[|rows| - 1])
      ensures result.Ok? <==> MayAllocate(old(rows), r)
      ensures result.Ok? ==> Granted(old(rows), rows, r, result.value)
      ensures result.Err? ==> rows == old(rows) && AllocateRefusal(old(rows), r, result.error)
    {
      AllocateKeepsInv(rows, r);
      AllocatedExactly(rows, r);
      hide Inv, MayAllocate, Granted, AllocateRefusal;
      if r.blockSize.Some? && !ValidBlockSize(r.blockSize.value) {
        return Err(InvalidBlockSize);
      }
      var blockSize := if r.blockSize.Some? then r.blockSize.value else DEFAULT_BLOCK_SIZE;
      var working :- AllocateBlock(rows, r, blockSize);
      rows := working;
      return Ok(rows[|rows| - 1]);
    }

    /** `heartbeat`. */
    method HeartbeatLease(h: Heartbeat) returns (result: Result<int, Error>)
      requires Inv(rows)
      modifies this
      ensures Inv(rows) && rows == AfterHeartbeat(old(rows), h)
      ensures result == match HeartbeatError(old(rows), h)
                        case Some(e) => Err(e)
                        case None => Ok(h.currentFolio)
      ensures result.Ok? <==> MayBeat(old(rows), h)
      ensures result.Ok? ==> Beaten(old(rows), rows, h)
      ensures result.Err? ==> rows == old(rows) && BeatRefusal(old(rows), h, result.error)
    {
      HeartbeatKeepsInv(rows, h);
      BeatenExactly(rows, h);
      hide Inv, MayBeat, Beaten, BeatRefusal;
      var working :- HeartbeatNewest(rows, h);
      rows := working;
      return Ok(h.currentFolio);
    }
  }
}
