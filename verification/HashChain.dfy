/** The tamper-evident audit chain: each record's hash covers its canonical payload, which covers the previous
    record's hash. The digest is a parameter; nothing is assumed about it beyond its 64 lowercase hex digits. */
module HashChain {
  import opened Results
  import opened Decimal
  import opened JsonText

  type Str = t: Text | WellFormed(t) witness []

  /** The hashed fields of an audit record. */
  datatype Hashed = Hashed(
    organizationId: Str, branchId: Option<Str>, sequenceNumber: int, clientTimestamp: Option<Str>,
    serverTimestamp: Str, eventType: Str, action: Str, entityName: Str, entityId: Option<Str>,
    actorId: Option<Str>, stationId: Option<Str>, metadata: Tree, previousRecordHash: Text)

  /** `other` stands for the columns that are not hashed (severity, source, request id). */
  datatype Record = Record(hashed: Hashed, recordHash: Text, other: nat)

  type Digest = Text -> Text

  predicate IsHex(t: Text) {
    |t| == 64 && forall i | 0 <= i < 64 :: 48 <= t[i] <= 57 || 97 <= t[i] <= 102
  }

  ghost predicate GivesHex(hash: Digest) {
    forall t :: IsHex(hash(t))
  }

  function Repeat(u: Unit, n: nat): Text {
    seq(n, _ => u)
  }

  const GENESIS_HASH: Text := Repeat(48, 64)
  const GENESIS_SEQUENCE_NUMBER := 1

  /* The canonical payload. */

  function Ascii(s: string): Text {
    if s == [] then [] else [if s[0] < '\U{80}' then s[0] as int else 63] + Ascii(s[1..])
  }

  function Decimals(n: int): string {
    if n < 0 then "-" + Digits(-n) else Digits(n)
  }

  lemma {:induction false} AsciiDigits(s: string)
    requires forall i | 0 <= i < |s| :: IsDigit(s[i]) || s[i] == '-'
    ensures |Ascii(s)| == |s| && NumberUnits(Ascii(s)) && forall i | 0 <= i < |s| :: Ascii(s)[i] == s[i] as int
  {
    if s != [] {
      AsciiDigits(s[1..]);
    }
  }

  lemma DecimalsShape(n: int)
    ensures var s := Decimals(n);
            s != [] && (IsDigit(s[0]) || s[0] == '-') && forall i | 0 <= i < |s| :: IsDigit(s[i]) || s[i] == '-'
  {
    hide Digits;
  }

  function NumberText(n: int): Number {
    DecimalsShape(n);
    AsciiDigits(Decimals(n));
    Ascii(Decimals(n))
  }

  lemma NumberTextIsInjective(m: int, n: int)
    requires NumberText(m) == NumberText(n)
    ensures m == n
  {
    DecimalsShape(m);
    DecimalsShape(n);
    AsciiDigits(Decimals(m));
    AsciiDigits(Decimals(n));
    var s, t := Decimals(m), Decimals(n);
    forall i | 0 <= i < |s|
      ensures s[i] == t[i]
    {
      assert Ascii(s)[i] == s[i] as int && Ascii(t)[i] == t[i] as int;
    }
    assert s == t;
    hide Ascii;
    SameDecimals(m, n);
  }

  lemma SameDecimals(m: int, n: int)
    requires Decimals(m) == Decimals(n)
    ensures m == n
  {
    DigitsStart(m);
    DigitsStart(n);
    ValueOfDigits(if m < 0 then -m else m);
    ValueOfDigits(if n < 0 then -n else n);
    hide Digits, Value;
    if m < 0 {
      assert Decimals(m)[1..] == Digits(-m) && Decimals(n)[1..] == Digits(-n);
    }
  }

  lemma DigitsStart(n: int)
    ensures Decimals(n) != [] && (Decimals(n)[0] == '-' <==> n < 0)
  {
    hide Digits;
  }

  function OptionTree(o: Option<Str>): Tree {
    match o case None => TNull case Some(s) => TString(s)
  }

  /** The member values in key order, action first and stationId last. */
  function Values(r: Hashed): seq<Tree> {
    [TString(r.action), OptionTree(r.actorId), OptionTree(r.branchId), OptionTree(r.clientTimestamp),
     OptionTree(r.entityId), TString(r.entityName), TString(r.eventType), TString(r.organizationId),
     TString(r.previousRecordHash), r.metadata, TNumber(NumberText(r.sequenceNumber)), TString(r.serverTimestamp),
     OptionTree(r.stationId)]
  }

  function KeyName(i: nat): string {
    if i == 0 then "action" else if i == 1 then "actorId" else if i == 2 then "branchId"
    else if i == 3 then "clientTimestamp" else if i == 4 then "entityId" else if i == 5 then "entityName"
    else if i == 6 then "eventType" else if i == 7 then "organizationId" else if i == 8 then "previousRecordHash"
    else if i == 9 then "redactedMetadata" else if i == 10 then "sequenceNumber"
    else if i == 11 then "serverTimestamp" else "stationId"
  }

  function Key(i: nat): Text {
    Ascii(KeyName(i))
  }

  function Payload(r: Hashed): Tree {
    var values := Values(r);
    TObject(seq(|values|, i requires 0 <= i < |values| => Member(Key(i), values[i])))
  }

  function CanonicalPayload(r: Hashed): Text {
    Write(Payload(r))
  }

  lemma SameValues(a: Hashed, b: Hashed)
    requires Values(a) == Values(b)
    ensures a == b
  {
    hide NumberText, OptionTree;
    var x, y := Values(a), Values(b);
    SameOption(a.actorId, b.actorId) by { assert x[1] == y[1]; }
    SameOption(a.branchId, b.branchId) by { assert x[2] == y[2]; }
    SameOption(a.clientTimestamp, b.clientTimestamp) by { assert x[3] == y[3]; }
    SameOption(a.entityId, b.entityId) by { assert x[4] == y[4]; }
    SameOption(a.stationId, b.stationId) by { assert x[12] == y[12]; }
    NumberTextIsInjective(a.sequenceNumber, b.sequenceNumber) by { assert x[10] == y[10]; }
    assert x[0] == y[0] && x[5] == y[5] && x[6] == y[6] && x[7] == y[7] && x[8] == y[8] && x[9] == y[9] && x[11] == y[11];
  }

  lemma SameOption(o: Option<Str>, p: Option<Str>)
    requires OptionTree(o) == OptionTree(p)
    ensures o == p
  {
  }

  /** Two records with the same canonical payload agree on every hashed field. */
  lemma PayloadDeterminesFields(a: Hashed, b: Hashed)
    requires CanonicalPayload(a) == CanonicalPayload(b)
    ensures a == b
  {
    hide Write, Key, Values;
    WriteIsInjective(Payload(a), Payload(b));
    var x, y := Values(a), Values(b);
    var p, q := Payload(a).members, Payload(b).members;
    assert |x| == |p| && |y| == |q|;
    forall i | 0 <= i < |x|
      ensures x[i] == y[i]
    {
      assert p[i].value == x[i] && q[i].value == y[i];
    }
    assert x == y;
    SameValues(a, b);
  }

  /* Verification. */

  datatype Code =
    | WrongStreamBinding | MalformedHash | DuplicateSequence | ReorderedEvents | SequenceGap | WrongPreviousHash
    | PayloadModified

  predicate RecordHashOk(hash: Digest, r: Record) {
    IsHex(r.recordHash) && r.recordHash == hash(CanonicalPayload(r.hashed))
  }

  /** What the loop checks at index i. */
  predicate LinkOk(hash: Digest, records: seq<Record>, start: Text, i: nat)
    requires i < |records|
  {
    var r, first := records[i], records[0];
    && r.hashed.organizationId == first.hashed.organizationId && r.hashed.branchId == first.hashed.branchId
    && IsHex(r.hashed.previousRecordHash)
    && (i > 0 ==> r.hashed.sequenceNumber == records[i - 1].hashed.sequenceNumber + 1)
    && r.hashed.previousRecordHash == (if i == 0 then start else records[i - 1].recordHash)
    && RecordHashOk(hash, r)
  }

  predicate ChainOk(hash: Digest, records: seq<Record>, start: Text) {
    forall i | 0 <= i < |records| :: LinkOk(hash, records, start, i)
  }

  /** What each code says about the record at index i. */
  predicate Explains(hash: Digest, records: seq<Record>, start: Text, i: nat, code: Code)
    requires i < |records|
  {
    var r, first := records[i].hashed, records[0].hashed;
    match code
    case WrongStreamBinding => r.organizationId != first.organizationId || r.branchId != first.branchId
    case MalformedHash => !IsHex(records[i].recordHash) || !IsHex(r.previousRecordHash)
    case DuplicateSequence => i > 0 && r.sequenceNumber == records[i - 1].hashed.sequenceNumber
    case ReorderedEvents => i > 0 && r.sequenceNumber < records[i - 1].hashed.sequenceNumber
    case SequenceGap => i > 0 && r.sequenceNumber > records[i - 1].hashed.sequenceNumber + 1
    case WrongPreviousHash => r.previousRecordHash != if i == 0 then start else records[i - 1].recordHash
    case PayloadModified => IsHex(records[i].recordHash) && records[i].recordHash != hash(CanonicalPayload(r))
  }

  /** The order of the checks. */
  function Rank(code: Code): nat {
    match code
    case WrongStreamBinding => 0
    case MalformedHash => 1
    case DuplicateSequence => 2
    case ReorderedEvents => 3
    case SequenceGap => 4
    case WrongPreviousHash => 5
    case PayloadModified => 6
  }

  /** The code is true of the record, and no code that is checked before it is. */
  ghost predicate FirstReason(hash: Digest, records: seq<Record>, start: Text, i: nat, code: Code)
    requires i < |records|
  {
    && Explains(hash, records, start, i, code)
    && forall other | Rank(other) < Rank(code) :: !Explains(hash, records, start, i, other)
  }

  /** The failure is at the first record that does not link, for the first reason that applies. */
  ghost predicate FailsAt(hash: Digest, records: seq<Record>, start: Text, i: nat, code: Code) {
    && i < |records| && !LinkOk(hash, records, start, i) && FirstReason(hash, records, start, i, code)
    && forall k | 0 <= k < i :: LinkOk(hash, records, start, k)
  }

  method VerifyRecordHash(hash: Digest, r: Record) returns (ok: bool)
    ensures ok == RecordHashOk(hash, r)
  {
    hide CanonicalPayload;
    if !IsHex(r.recordHash) {
      return false;
    }
    var expectedHash := hash(CanonicalPayload(r.hashed));
    return r.recordHash == expectedHash;
  }

  /** The checks on one record, in order. */
  method CheckRecord(hash: Digest, records: seq<Record>, i: nat, previousHash: Text, ghost start: Text)
    returns (code: Option<Code>)
    requires i < |records| && previousHash == if i == 0 then start else records[i - 1].recordHash
    ensures code.None? <==> LinkOk(hash, records, start, i)
    ensures code.Some? ==> FirstReason(hash, records, start, i, code.value)
  {
    hide CanonicalPayload, IsHex;
    var record, first := records[i], records[0];
    if record.hashed.organizationId != first.hashed.organizationId || record.hashed.branchId != first.hashed.branchId {
      return Some(WrongStreamBinding);
    }
    if !IsHex(record.recordHash) || !IsHex(record.hashed.previousRecordHash) {
      return Some(MalformedHash);
    }
    if i > 0 {
      var prevSeq := records[i - 1].hashed.sequenceNumber;
      if record.hashed.sequenceNumber == prevSeq {
        return Some(DuplicateSequence);
      }
      if record.hashed.sequenceNumber < prevSeq {
        return Some(ReorderedEvents);
      }
      if record.hashed.sequenceNumber != prevSeq + 1 {
        return Some(SequenceGap);
      }
    }
    if record.hashed.previousRecordHash != previousHash {
      return Some(WrongPreviousHash);
    }
    var ok := VerifyRecordHash(hash, record);
    if !ok {
      return Some(PayloadModified);
    }
    return None;
  }

  /** Accepts exactly the unbroken chains, and otherwise points at the first record that breaks it. */
  method VerifyAuditHashChain(hash: Digest, records: seq<Record>, start: Text) returns (failure: Option<(nat, Code)>)
    ensures failure.None? <==> ChainOk(hash, records, start)
    ensures failure.Some? ==> FailsAt(hash, records, start, failure.value.0, failure.value.1)
  {
    hide LinkOk, FirstReason;
    var previousHash := start;
    for i := 0 to |records|
      invariant forall k | 0 <= k < i :: LinkOk(hash, records, start, k)
      invariant previousHash == if i == 0 then start else records[i - 1].recordHash
    {
      var code := CheckRecord(hash, records, i, previousHash, start);
      if code.Some? {
        return Some((i, code.value));
      }
      previousHash := records[i].recordHash;
    }
    return None;
  }

  /* A record and its hash. */

  /** Two different texts with the same digest. */
  predicate Collide(hash: Digest, x: Text, y: Text) {
    x != y && hash(x) == hash(y)
  }

  /** Records with the same hash have the same hashed fields, or their payloads collide. */
  lemma SameHashSameFields(hash: Digest, a: Record, b: Record)
    requires RecordHashOk(hash, a) && RecordHashOk(hash, b) && a.recordHash == b.recordHash
    ensures a.hashed == b.hashed || Collide(hash, CanonicalPayload(a.hashed), CanonicalPayload(b.hashed))
  {
    hide CanonicalPayload;
    if CanonicalPayload(a.hashed) == CanonicalPayload(b.hashed) {
      PayloadDeterminesFields(a.hashed, b.hashed);
    }
  }

  /** A record that verifies stops verifying when any hashed field changes, short of a collision of the two payloads,
      and when its hash changes; a change of the fields outside the hash goes unnoticed. */
  lemma TamperIsDetectedExactly(hash: Digest, r: Record, hashed: Hashed, recordHash: Text, other: nat)
    requires RecordHashOk(hash, r)
    ensures RecordHashOk(hash, Record(hashed, r.recordHash, other))
       <==> hashed == r.hashed || Collide(hash, CanonicalPayload(r.hashed), CanonicalPayload(hashed))
    ensures RecordHashOk(hash, Record(r.hashed, recordHash, other)) <==> recordHash == r.recordHash
  {
    var changed := Record(hashed, r.recordHash, other);
    hide CanonicalPayload, IsHex;
    if RecordHashOk(hash, changed) {
      SameHashSameFields(hash, r, changed);
    }
  }

  /* Streams built by the logger. */

  /** What a caller logs; the ids are as passed, the timestamps and the redacted metadata as persisted. */
  datatype Input = Input(
    organizationId: Str, branchId: Option<Str>, clientTimestamp: Option<Str>, serverTimestamp: Str, eventType: Str,
    action: Str, entityName: Str, entityId: Option<Str>, actorId: Option<Str>, stationId: Option<Str>, metadata: Tree,
    other: nat)

  /** The hashed fields of the next event of a stream. */
  function NextFields(stream: seq<Record>, e: Input): Hashed {
    var n := |stream|;
    var (sequenceNumber, previous) :=
      if n == 0 then (GENESIS_SEQUENCE_NUMBER, GENESIS_HASH)
      else (stream[n - 1].hashed.sequenceNumber + 1, stream[n - 1].recordHash);
    Hashed(
      e.organizationId, e.branchId, sequenceNumber, e.clientTimestamp, e.serverTimestamp, e.eventType, e.action,
      e.entityName, e.entityId, e.actorId, e.stationId, e.metadata, previous)
  }

  /** How a UUID column gives an id back: any spelling goes in, one comes out. */
  type Column = Str -> Str

  function ReadOption(column: Column, o: Option<Str>): Option<Str> {
    match o case None => None case Some(s) => Some(column(s))
  }

  /** Organization, branch, actor and station are UUID columns. */
  function ReadBack(column: Column, h: Hashed): Hashed {
    h.(organizationId := column(h.organizationId), branchId := ReadOption(column, h.branchId),
       actorId := ReadOption(column, h.actorId), stationId := ReadOption(column, h.stationId))
  }

  /** The row: the hash covers the fields as passed, the columns hold them as they read back. */
  function NextRecord(hash: Digest, column: Column, stream: seq<Record>, e: Input): Record {
    var hashed := NextFields(stream, e);
    Record(ReadBack(column, hashed), hash(CanonicalPayload(hashed)), e.other)
  }

  function Logged(hash: Digest, column: Column, events: seq<Input>): seq<Record> {
    if events == [] then [] else
      var before := Logged(hash, column, events[..|events| - 1]);
      before + [NextRecord(hash, column, before, events[|events| - 1])]
  }

  /** Every column of the row holds what the caller passed for it, ids as the columns spell them. */
  predicate RowHolds(column: Column, e: Input, row: Record) {
    && row.other == e.other
    && row.hashed.organizationId == column(e.organizationId) && row.hashed.branchId == ReadOption(column, e.branchId)
    && row.hashed.actorId == ReadOption(column, e.actorId) && row.hashed.stationId == ReadOption(column, e.stationId)
    && row.hashed.eventType == e.eventType && row.hashed.action == e.action
    && row.hashed.entityName == e.entityName && row.hashed.entityId == e.entityId
    && row.hashed.clientTimestamp == e.clientTimestamp && row.hashed.serverTimestamp == e.serverTimestamp
    && row.hashed.metadata == e.metadata
  }

  lemma NextRowHolds(hash: Digest, column: Column, stream: seq<Record>, e: Input)
    ensures RowHolds(column, e, NextRecord(hash, column, stream, e))
  {
    hide CanonicalPayload;
  }

  /** The event goes to the stream of this organization and branch. */
  predicate InStream(column: Column, org: Str, branch: Option<Str>, e: Input) {
    column(e.organizationId) == org && ReadOption(column, e.branchId) == branch
  }

  /** The ids are spelled as they read back. */
  predicate Stable(column: Column, e: Input) {
    && column(e.organizationId) == e.organizationId && ReadOption(column, e.branchId) == e.branchId
    && ReadOption(column, e.actorId) == e.actorId && ReadOption(column, e.stationId) == e.stationId
  }

  /** The payload that is hashed and the one that is read back collide. */
  predicate ReadBackCollides(hash: Digest, column: Column, stream: seq<Record>, e: Input) {
    var h := NextFields(stream, e);
    Collide(hash, CanonicalPayload(h), CanonicalPayload(ReadBack(column, h)))
  }

  /** The rows are bound to their stream, numbered and linked; whether the hashes hold is another matter. */
  predicate StreamOk(org: Str, branch: Option<Str>, stream: seq<Record>) {
    forall i | 0 <= i < |stream| :: RowOk(org, branch, stream, i)
  }

  predicate RowOk(org: Str, branch: Option<Str>, stream: seq<Record>, i: nat)
    requires i < |stream|
  {
    var r := stream[i];
    && r.hashed.organizationId == org && r.hashed.branchId == branch && IsHex(r.recordHash)
    && r.hashed.sequenceNumber == GENESIS_SEQUENCE_NUMBER + i
    && r.hashed.previousRecordHash == if i == 0 then GENESIS_HASH else stream[i - 1].recordHash
  }

  predicate HashesOk(hash: Digest, stream: seq<Record>) {
    forall i | 0 <= i < |stream| :: RecordHashOk(hash, stream[i])
  }

  lemma RowLinksExactly(hash: Digest, org: Str, branch: Option<Str>, stream: seq<Record>, i: nat)
    requires StreamOk(org, branch, stream) && i < |stream|
    ensures LinkOk(hash, stream, GENESIS_HASH, i) <==> RecordHashOk(hash, stream[i])
  {
    assert RowOk(org, branch, stream, i) && RowOk(org, branch, stream, 0);
    if i > 0 {
      assert RowOk(org, branch, stream, i - 1);
    } else {
      assert IsHex(GENESIS_HASH);
    }
    hide CanonicalPayload, IsHex;
  }

  /** Such a stream is an unbroken chain exactly when every record hash holds. */
  lemma StreamVerifiesExactly(hash: Digest, org: Str, branch: Option<Str>, stream: seq<Record>)
    requires StreamOk(org, branch, stream)
    ensures ChainOk(hash, stream, GENESIS_HASH) <==> HashesOk(hash, stream)
  {
    hide LinkOk, RecordHashOk, StreamOk;
    forall i | 0 <= i < |stream|
      ensures LinkOk(hash, stream, GENESIS_HASH, i) <==> RecordHashOk(hash, stream[i])
    {
      RowLinksExactly(hash, org, branch, stream, i);
    }
  }

  lemma StableReadsBack(column: Column, stream: seq<Record>, e: Input)
    ensures ReadBack(column, NextFields(stream, e)) == NextFields(stream, e) <==> Stable(column, e)
  {
  }

  /** A logged record verifies when it is read back exactly when its ids were spelled as the columns give them back,
      or the two payloads collide. */
  lemma ReadBackVerifiesExactly(hash: Digest, column: Column, stream: seq<Record>, e: Input)
    requires GivesHex(hash)
    ensures RecordHashOk(hash, NextRecord(hash, column, stream, e)) <==>
              Stable(column, e) || ReadBackCollides(hash, column, stream, e)
  {
    StableReadsBack(column, stream, e);
    var h := NextFields(stream, e);
    var passed := Record(h, hash(CanonicalPayload(h)), e.other);
    assert RecordHashOk(hash, passed);
    hide NextFields, ReadBack, Stable, CanonicalPayload, IsHex, RecordHashOk;
    TamperIsDetectedExactly(hash, passed, ReadBack(column, h), passed.recordHash, e.other);
  }

  lemma AppendKeepsStream(hash: Digest, column: Column, org: Str, branch: Option<Str>, stream: seq<Record>, e: Input)
    requires GivesHex(hash) && StreamOk(org, branch, stream) && InStream(column, org, branch, e)
    ensures StreamOk(org, branch, stream + [NextRecord(hash, column, stream, e)])
  {
    var after := stream + [NextRecord(hash, column, stream, e)];
    hide CanonicalPayload, IsHex;
    forall i | 0 <= i < |after|
      ensures RowOk(org, branch, after, i)
    {
      if i < |stream| {
        assert RowOk(org, branch, stream, i);
      } else if i > 0 {
        assert RowOk(org, branch, stream, i - 1);
      }
    }
  }

  /** Logging one more event keeps a stream verifiable exactly when that event's ids read back unchanged. */
  lemma AppendVerifiesExactly(hash: Digest, column: Column, org: Str, branch: Option<Str>, stream: seq<Record>, e: Input)
    requires GivesHex(hash) && StreamOk(org, branch, stream) && InStream(column, org, branch, e)
    ensures var after := stream + [NextRecord(hash, column, stream, e)];
            && StreamOk(org, branch, after)
            && (ChainOk(hash, after, GENESIS_HASH) <==>
                  ChainOk(hash, stream, GENESIS_HASH) && (Stable(column, e) || ReadBackCollides(hash, column, stream, e)))
  {
    hide StreamOk, ChainOk, NextRecord, Stable, ReadBackCollides, RecordHashOk, InStream;
    var record := NextRecord(hash, column, stream, e);
    AppendKeepsStream(hash, column, org, branch, stream, e);
    StreamVerifiesExactly(hash, org, branch, stream);
    StreamVerifiesExactly(hash, org, branch, stream + [record]);
    ReadBackVerifiesExactly(hash, column, stream, e);
    HashesOfMore(hash, stream, record);
  }

  lemma HashesOfMore(hash: Digest, stream: seq<Record>, record: Record)
    ensures HashesOk(hash, stream + [record]) <==> HashesOk(hash, stream) && RecordHashOk(hash, record)
  {
    hide RecordHashOk;
    var after := stream + [record];
    assert after[|stream|] == record && forall i | 0 <= i < |stream| :: after[i] == stream[i];
  }

  /** Event i of the list reads back with a hash that holds. */
  predicate ReadsBack(hash: Digest, column: Column, events: seq<Input>, i: nat)
    requires i < |events|
  {
    Stable(column, events[i]) || ReadBackCollides(hash, column, Logged(hash, column, events[..i]), events[i])
  }

  predicate AllReadBack(hash: Digest, column: Column, events: seq<Input>) {
    forall i | 0 <= i < |events| :: ReadsBack(hash, column, events, i)
  }

  /** A stream built by the logger, whatever it logs: numbered and linked always, and verified exactly when every
      event's ids read back as they were passed, or a pair of payloads collides. */
  lemma {:induction false} LoggedStreamsVerifyExactly(
    hash: Digest, column: Column, org: Str, branch: Option<Str>, events: seq<Input>)
    requires GivesHex(hash) && forall i | 0 <= i < |events| :: InStream(column, org, branch, events[i])
    ensures StreamOk(org, branch, Logged(hash, column, events))
    ensures ChainOk(hash, Logged(hash, column, events), GENESIS_HASH) <==> AllReadBack(hash, column, events)
  {
    hide NextRecord, InStream, Stable, ReadBackCollides, LinkOk, RowOk;
    if events != [] {
      var n := |events| - 1;
      LoggedStreamsVerifyExactly(hash, column, org, branch, events[..n]);
      AppendVerifiesExactly(hash, column, org, branch, Logged(hash, column, events[..n]), events[n]);
      AllButLastReadBack(hash, column, events);
      hide ChainOk, StreamOk, AllReadBack;
    }
  }

  lemma AllButLastReadBack(hash: Digest, column: Column, events: seq<Input>)
    requires events != []
    ensures var n := |events| - 1;
            AllReadBack(hash, column, events) <==> AllReadBack(hash, column, events[..n]) && ReadsBack(hash, column, events, n)
  {
    hide Logged, Stable, ReadBackCollides;
    var n := |events| - 1;
    forall i | 0 <= i < n
      ensures ReadsBack(hash, column, events[..n], i) <==> ReadsBack(hash, column, events, i)
    {
      assert events[..n][..i] == events[..i] && events[..n][i] == events[i];
    }
    hide ReadsBack;
    if AllReadBack(hash, column, events[..n]) && ReadsBack(hash, column, events, n) {
      forall i | 0 <= i < |events|
        ensures ReadsBack(hash, column, events, i)
      {
        assert i < n ==> ReadsBack(hash, column, events[..n], i);
      }
    }
  }

  /** In particular, with ids that read back unchanged every stream verifies. */
  lemma LoggedStreamsVerify(hash: Digest, column: Column, org: Str, branch: Option<Str>, events: seq<Input>)
    requires GivesHex(hash)
    requires forall i | 0 <= i < |events| :: InStream(column, org, branch, events[i]) && Stable(column, events[i])
    ensures StreamOk(org, branch, Logged(hash, column, events))
    ensures ChainOk(hash, Logged(hash, column, events), GENESIS_HASH)
  {
    hide StreamOk, ChainOk, Logged, Stable, InStream;
    LoggedStreamsVerifyExactly(hash, column, org, branch, events);
  }

  /** Upper-case hex digits come back in lower case. */
  function LowerHex(t: Text): (r: Text)
    ensures |r| == |t|
  {
    seq(|t|, i requires 0 <= i < |t| => if 65 <= t[i] <= 70 then t[i] + 32 else t[i])
  }

  predicate IsPlain(t: Text) {
    forall i | 0 <= i < |t| :: !NeedsSlowPath(t[i])
  }

  /** Ids are plain text. */
  function LowerCase(s: Str): Str {
    if IsPlain(LowerHex(s)) then
      FastPathIsSlowPath(LowerHex(s));
      LowerHex(s)
    else s
  }

  /** A stream whose one event names its organization with an upper-case digit does not verify, short of a collision. */
  lemma UpperCaseIdDoesNotVerify(hash: Digest, e: Input, k: nat)
    requires GivesHex(hash) && IsPlain(e.organizationId) && k < |e.organizationId| && 65 <= e.organizationId[k] <= 70
    ensures ChainOk(hash, Logged(hash, LowerCase, [e]), GENESIS_HASH) ==> ReadBackCollides(hash, LowerCase, [], e)
  {
    assert IsPlain(LowerHex(e.organizationId));
    assert LowerCase(e.organizationId)[k] != e.organizationId[k];
    assert !Stable(LowerCase, e);
    assert [e][..0] == [] && Logged(hash, LowerCase, []) == [];
    var org, branch := LowerCase(e.organizationId), ReadOption(LowerCase, e.branchId);
    assert InStream(LowerCase, org, branch, e);
    hide ChainOk, Logged, Stable, InStream, ReadBackCollides, LowerCase;
    LoggedStreamsVerifyExactly(hash, LowerCase, org, branch, [e]);
    if ChainOk(hash, Logged(hash, LowerCase, [e]), GENESIS_HASH) {
      assert ReadsBack(hash, LowerCase, [e], 0);
    }
  }

  /** One audit stream of the cloud logger, as the table holds it. */
  class CloudAuditStream {
    const hash: Digest
    const column: Column
    const org: Str
    const branch: Option<Str>
    var records: seq<Record>

    constructor (hash: Digest, column: Column, org: Str, branch: Option<Str>)
      ensures this.hash == hash && this.column == column && this.org == org && this.branch == branch && records == []
    {
      this.hash, this.column, this.org, this.branch, records := hash, column, org, branch, [];
    }

    /** The head of the stream: `ORDER BY sequence_number DESC LIMIT 1`. */
    method Head() returns (head: Option<Record>)
      requires StreamOk(org, branch, records)
      ensures head == if records == [] then None else Some(records[|records| - 1])
    {
      hide IsHex;
      head := None;
      for i := 0 to |records|
        invariant head == if i == 0 then None else Some(records[i - 1])
      {
        assert RowOk(org, branch, records, i) && (i > 0 ==> RowOk(org, branch, records, i - 1));
        if head.None? || records[i].hashed.sequenceNumber > head.value.hashed.sequenceNumber {
          head := Some(records[i]);
        }
      }
    }

    /** The stream stays verifiable exactly when the ids read back as they were passed. */
    method LogAuditEvent(e: Input)
      requires GivesHex(hash) && StreamOk(org, branch, records) && InStream(column, org, branch, e)
      modifies this`records
      ensures StreamOk(org, branch, records)
      ensures records == old(records) + [NextRecord(hash, column, old(records), e)]
      ensures RowHolds(column, e, records[|old(records)|])
      ensures ChainOk(hash, records, GENESIS_HASH) <==>
                && ChainOk(hash, old(records), GENESIS_HASH)
                && (Stable(column, e) || ReadBackCollides(hash, column, old(records), e))
    {
      AppendVerifiesExactly(hash, column, org, branch, records, e);
      NextRowHolds(hash, column, records, e);
      hide StreamOk, CanonicalPayload, ChainOk, Stable, ReadBackCollides, ReadBack, RowHolds;
      var head := Head();
      var sequenceNumber, previousRecordHash := GENESIS_SEQUENCE_NUMBER, GENESIS_HASH;
      if head.Some? {
        sequenceNumber, previousRecordHash := head.value.hashed.sequenceNumber + 1, head.value.recordHash;
      }
      var hashed := Hashed(
        e.organizationId, e.branchId, sequenceNumber, e.clientTimestamp, e.serverTimestamp, e.eventType, e.action,
        e.entityName, e.entityId, e.actorId, e.stationId, e.metadata, previousRecordHash);
      var recordHash := hash(CanonicalPayload(hashed));
      records := records + [Record(ReadBack(column, hashed), recordHash, e.other)];
    }

    /** Whatever the table holds: valid exactly when it is an unbroken chain from genesis; for the rows the logger
        writes, exactly when every record hash holds. */
    method VerifyStreamChain() returns (valid: bool)
      ensures valid == ChainOk(hash, records, GENESIS_HASH)
      ensures StreamOk(org, branch, records) ==> (valid <==> HashesOk(hash, records))
    {
      hide LinkOk, StreamOk, HashesOk, ChainOk;
      if StreamOk(org, branch, records) {
        StreamVerifiesExactly(hash, org, branch, records);
      }
      var failure := VerifyAuditHashChain(hash, records, GENESIS_HASH);
      return failure.None?;
    }
  }

  /* Checkpoints. */

  datatype Checkpoint = Checkpoint(startSequence: int, endSequence: int, startHash: Text, endHash: Text, count: nat)

  function CreateCloudCheckpoint(records: seq<Record>): Result<Checkpoint, ()> {
    if records == [] then Err(()) else
      var first, last := records[0], records[|records| - 1];
      Ok(Checkpoint(first.hashed.sequenceNumber, last.hashed.sequenceNumber, first.recordHash, last.recordHash, |records|))
  }

  predicate MatchesCheckpoint(hash: Digest, c: Checkpoint, records: seq<Record>) {
    && records != [] && |records| == c.count
    && records[0].hashed.sequenceNumber == c.startSequence && records[|records| - 1].hashed.sequenceNumber == c.endSequence
    && records[0].recordHash == c.startHash && records[|records| - 1].recordHash == c.endHash
    && ChainOk(hash, records, records[0].hashed.previousRecordHash)
  }

  method VerifyCloudCheckpoint(hash: Digest, c: Checkpoint, records: seq<Record>) returns (valid: bool)
    ensures valid == MatchesCheckpoint(hash, c, records)
  {
    hide LinkOk, ChainOk;
    if |records| == 0 || |records| != c.count {
      return false;
    }
    var first, last := records[0], records[|records| - 1];
    if first.hashed.sequenceNumber != c.startSequence || last.hashed.sequenceNumber != c.endSequence
       || first.recordHash != c.startHash || last.recordHash != c.endHash {
      return false;
    }
    var failure := VerifyAuditHashChain(hash, records, first.hashed.previousRecordHash);
    return failure.None?;
  }

  /** A checkpoint taken from a slice verifies against it exactly when the slice is an unbroken chain. */
  lemma CheckpointOfChain(hash: Digest, records: seq<Record>)
    requires records != []
    ensures MatchesCheckpoint(hash, CreateCloudCheckpoint(records).value, records)
       <==> ChainOk(hash, records, records[0].hashed.previousRecordHash)
  {
    hide ChainOk;
  }

  predicate AgreeFrom(a: seq<Record>, b: seq<Record>, k: nat) {
    |a| == |b| && forall i | k <= i < |a| :: a[i].hashed == b[i].hashed && a[i].recordHash == b[i].recordHash
  }

  predicate SomeCollision(hash: Digest, a: seq<Record>, b: seq<Record>) {
    |a| == |b| && exists i :: 0 <= i < |a| && Collide(hash, CanonicalPayload(a[i].hashed), CanonicalPayload(b[i].hashed))
  }

  /** From the last record back to the first, each hash pins the record before it. */
  lemma {:induction false} PinnedBack(hash: Digest, a: seq<Record>, b: seq<Record>, startA: Text, startB: Text, k: nat)
    requires |a| == |b| && k < |a| && ChainOk(hash, a, startA) && ChainOk(hash, b, startB)
    requires a[|a| - 1].recordHash == b[|b| - 1].recordHash
    ensures AgreeFrom(a, b, k) || SomeCollision(hash, a, b)
    decreases |a| - k
  {
    hide *;
    LinkFacts(hash, a, startA, k);
    LinkFacts(hash, b, startB, k);
    if k < |a| - 1 {
      PinnedBack(hash, a, b, startA, startB, k + 1);
    } else {
      AgreeAtEnd(a, b);
    }
    if !SomeCollision(hash, a, b) {
      AgreeNext(a, b, k);
      SameHashSameFields(hash, a[k], b[k]);
      NoCollisionAt(hash, a, b, k);
    }
  }

  lemma AgreeAtEnd(a: seq<Record>, b: seq<Record>)
    requires |a| == |b|
    ensures AgreeFrom(a, b, |a|)
  {
  }

  /** Agreement after index k gives equal hashes at k, and with equal fields there, agreement from k on. */
  lemma AgreeNext(a: seq<Record>, b: seq<Record>, k: nat)
    requires |a| == |b| && k < |a| && AgreeFrom(a, b, k + 1)
    requires if k + 1 == |a| then a[k].recordHash == b[k].recordHash
             else a[k].recordHash == a[k + 1].hashed.previousRecordHash && b[k].recordHash == b[k + 1].hashed.previousRecordHash
    ensures a[k].recordHash == b[k].recordHash && (a[k].hashed == b[k].hashed ==> AgreeFrom(a, b, k))
  {
  }

  lemma LinkFacts(hash: Digest, records: seq<Record>, start: Text, k: nat)
    requires k < |records| && ChainOk(hash, records, start)
    ensures RecordHashOk(hash, records[k])
    ensures k + 1 < |records| ==> records[k + 1].hashed.previousRecordHash == records[k].recordHash
  {
    hide CanonicalPayload, IsHex;
    assert LinkOk(hash, records, start, k);
    assert k + 1 < |records| ==> LinkOk(hash, records, start, k + 1);
  }

  lemma NoCollisionAt(hash: Digest, a: seq<Record>, b: seq<Record>, k: nat)
    requires |a| == |b| && k < |a| && !SomeCollision(hash, a, b)
    ensures !Collide(hash, CanonicalPayload(a[k].hashed), CanonicalPayload(b[k].hashed))
  {
    hide CanonicalPayload;
  }

  /** Two slices that verify against the same checkpoint agree on every hashed field at every index, unless they
      exhibit a collision of the digest. */
  lemma CheckpointPinsRecords(hash: Digest, c: Checkpoint, a: seq<Record>, b: seq<Record>)
    requires MatchesCheckpoint(hash, c, a) && MatchesCheckpoint(hash, c, b)
    ensures AgreeFrom(a, b, 0) || SomeCollision(hash, a, b)
  {
    hide ChainOk, AgreeFrom, SomeCollision;
    PinnedBack(hash, a, b, a[0].hashed.previousRecordHash, b[0].hashed.previousRecordHash, 0);
  }
}
