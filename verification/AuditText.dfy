/** The text that is hashed is the one the canonicalizer writes, however the payload object was put together. */
module AuditText {
  import opened Results
  import opened Ordering
  import opened JsonText
  import opened Canonical
  import opened CanonicalLaws
  import opened HashChain

  /** Any object graph that stands for a record's payload serializes, if at all, to the text that is hashed; and two
      graphs with the same text stand for records that agree on every hashed field. */
  lemma PayloadText(h: Heap, v: Value, r: Hashed, g: Heap, w: Value, q: Hashed)
    requires Unfold(h, v, {}) == Payload(r) && Unfold(g, w, {}) == Payload(q)
    requires Serialize(h, v).Ok? && Serialize(g, w).Ok?
    ensures Serialize(h, v) == Ok(CanonicalPayload(r))
    ensures Serialize(h, v) == Serialize(g, w) <==> r == q
  {
    hide Unfold, Payload, Write, SerValue;
    ValueIsWritten(h, v, {});
    ValueIsWritten(g, w, {});
    if Serialize(h, v) == Serialize(g, w) {
      hide CanonicalPayload;
      PayloadDeterminesFields(r, q);
    }
  }

  /* The object literal that is canonicalized. */

  function OptionValue(o: Option<Str>): Value {
    match o case None => Null case Some(s) => Str(s)
  }

  /** The members of the literal, with `metadata` the value of the redacted metadata. */
  function Fields(r: Hashed, metadata: Value): seq<Value> {
    [Str(r.action), OptionValue(r.actorId), OptionValue(r.branchId), OptionValue(r.clientTimestamp),
     OptionValue(r.entityId), Str(r.entityName), Str(r.eventType), Str(r.organizationId),
     Str(r.previousRecordHash), metadata, Num(NumberText(r.sequenceNumber)), Str(r.serverTimestamp),
     OptionValue(r.stationId)]
  }

  function PayloadKeys(): seq<Text> {
    seq(13, i requires 0 <= i < 13 => Key(i))
  }

  /** The object at `ref` has these members, inserted in any order, and its metadata stands for the record's. */
  ghost predicate IsLiteral(h: Heap, ref: nat, r: Hashed, metadata: Value) {
    && ref in h && h[ref].Rec? && DistinctKeys(h[ref].keys) && multiset(h[ref].keys) == multiset(PayloadKeys())
    && (forall i | 0 <= i < 13 :: Field(h[ref].fields, Key(i)) == Fields(r, metadata)[i])
    && !metadata.Undef? && Unfold(h, metadata, {ref}) == r.metadata
  }

  /* The keys of the payload are in key order. */

  predicate IsAscii(s: string) {
    forall i | 0 <= i < |s| :: s[i] < '\U{80}'
  }

  /** Texts that first differ at k are ordered as they are there. */
  lemma {:induction false} FirstDifference(s: string, t: string, k: nat)
    requires DifferAt(s, t, k)
    ensures Before(Ascii(s), Ascii(t))
    decreases k
  {
    if k > 0 {
      assert s[0] == s[..k][0] && t[0] == t[..k][0];
      assert s[1..][..k - 1] == s[..k][1..] && t[1..][..k - 1] == t[..k][1..];
      FirstDifference(s[1..], t[1..], k - 1);
    }
    assert Ascii(s)[1..] == Ascii(s[1..]) && Ascii(t)[1..] == Ascii(t[1..]);
  }

  /** The names first differ at k. */
  predicate DifferAt(s: string, t: string, k: nat) {
    IsAscii(s) && IsAscii(t) && k < |s| && k < |t| && s[..k] == t[..k] && s[k] < t[k]
  }

  lemma FirstNames()
    ensures DifferAt("action", "actorId", 3) && DifferAt("actorId", "branchId", 0)
    ensures DifferAt("branchId", "clientTimestamp", 0)
  {
  }

  lemma EntityNames()
    ensures DifferAt("clientTimestamp", "entityId", 0) && DifferAt("entityId", "entityName", 6)
    ensures DifferAt("entityName", "eventType", 1)
  {
  }

  lemma MiddleNames()
    ensures DifferAt("eventType", "organizationId", 0) && DifferAt("organizationId", "previousRecordHash", 0)
    ensures DifferAt("previousRecordHash", "redactedMetadata", 0)
  {
  }

  lemma LastNames()
    ensures DifferAt("redactedMetadata", "sequenceNumber", 0) && DifferAt("sequenceNumber", "serverTimestamp", 2)
    ensures DifferAt("serverTimestamp", "stationId", 1)
  {
  }

  /** Where the names of neighbouring keys first differ. */
  function Difference(i: nat): nat {
    if i == 0 then 3 else if i == 4 then 6 else if i == 5 || i == 11 then 1 else if i == 10 then 2 else 0
  }

  lemma NamesDiffer(i: nat)
    requires i < 12
    ensures DifferAt(KeyName(i), KeyName(i + 1), Difference(i))
  {
    hide DifferAt;
    FirstNames();
    EntityNames();
    MiddleNames();
    LastNames();
  }

  lemma KeysAscend(i: nat)
    requires i < 12
    ensures Before(Key(i), Key(i + 1))
  {
    hide Before, Ascii, KeyName, Difference;
    NamesDiffer(i);
    FirstDifference(KeyName(i), KeyName(i + 1), Difference(i));
  }

  lemma {:induction false} KeysInOrder(i: nat, j: nat)
    requires i < j < 13
    ensures Before(Key(i), Key(j))
    decreases j
  {
    hide Before, Key;
    KeysAscend(j - 1);
    if i < j - 1 {
      KeysInOrder(i, j - 1);
      BeforeIsOrder(Key(i), Key(j - 1), Key(j));
    }
  }

  /** Whatever order they were inserted in, the keys are sorted into this one. */
  lemma KeysAreSorted(keys: seq<Text>)
    requires DistinctKeys(keys) && multiset(keys) == multiset(PayloadKeys())
    ensures Sort(Before, keys) == PayloadKeys()
  {
    hide Before, Key, Sort;
    var p := PayloadKeys();
    forall i, j | 0 <= i < j < |p|
      ensures Before(p[i], p[j]) && p[i] != p[j]
    {
      KeysInOrder(i, j);
      BeforeIsOrder(p[i], p[i], p[i]);
    }
    KeysAreOrdered(p);
    KeysAreOrdered(keys);
    SortedStays(keys, p);
  }

  lemma SortedStays(keys: seq<Text>, p: seq<Text>)
    requires multiset(keys) == multiset(p) && StrictOrder(Before) && Sorted(Before, p)
    requires Comparable(Before, p) && Comparable(Before, keys)
    ensures Sort(Before, keys) == p
  {
    hide Before, Sort, StrictOrder, Comparable, Sorted;
    SortForgetsOrder(Before, p, keys);
    SortKeeps(Before, p);
    SortSorts(Before, p);
    SortedIsUnique(Before, Sort(Before, p), p);
  }

  lemma FieldUnfolds(h: Heap, ref: nat, r: Hashed, metadata: Value, i: nat)
    requires IsLiteral(h, ref, r, metadata) && i < 13
    ensures Unfold(h, Fields(r, metadata)[i], {ref}) == Values(r)[i] && !Fields(r, metadata)[i].Undef?
  {
    hide NumberText, Key, PayloadKeys;
  }

  lemma PayloadShape(r: Hashed)
    ensures |Values(r)| == 13 && Payload(r).TObject? && |Payload(r).members| == 13
    ensures forall i | 0 <= i < 13 :: Payload(r).members[i] == Member(Key(i), Values(r)[i])
  {
    hide Key, NumberText, OptionTree;
  }

  lemma {:induction false} MembersUnfold(h: Heap, ref: nat, r: Hashed, metadata: Value, i: nat, first: bool)
    requires IsLiteral(h, ref, r, metadata) && i <= 13
    ensures UnfoldMembers(h, RecFrame(ref, PayloadKeys(), h[ref].fields, i, first), {ref}) == Payload(r).members[i..]
    decreases 13 - i
  {
    PayloadShape(r);
    hide Key, Fields, Values, Unfold, Payload;
    if i < 13 {
      FieldUnfolds(h, ref, r, metadata, i);
      MembersUnfold(h, ref, r, metadata, i + 1, false);
      assert Payload(r).members[i..] == [Payload(r).members[i]] + Payload(r).members[i + 1..];
    }
  }

  /** The literal stands for the payload. */
  lemma LiteralUnfolds(h: Heap, ref: nat, r: Hashed, metadata: Value)
    requires IsLiteral(h, ref, r, metadata)
    ensures Unfold(h, Obj(ref), {}) == Payload(r)
  {
    PayloadShape(r);
    hide Key, Sort, UnfoldMembers, Payload;
    KeysAreSorted(h[ref].keys);
    MembersUnfold(h, ref, r, metadata, 0, true);
    assert {} + {ref} == {ref};
    assert Payload(r).members[0..] == Payload(r).members;
  }

  /** `buildCanonicalAuditPayload`: whatever order the members are written in, a literal that serializes gives the
      text that is hashed, and literals of records that differ in any hashed field give different texts. */
  lemma LiteralText(h: Heap, ref: nat, r: Hashed, metadata: Value, g: Heap, ref': nat, q: Hashed, metadata': Value)
    requires IsLiteral(h, ref, r, metadata) && IsLiteral(g, ref', q, metadata')
    requires Serialize(h, Obj(ref)).Ok? && Serialize(g, Obj(ref')).Ok?
    ensures Serialize(h, Obj(ref)) == Ok(CanonicalPayload(r))
    ensures Serialize(h, Obj(ref)) == Serialize(g, Obj(ref')) <==> r == q
  {
    hide *;
    LiteralUnfolds(h, ref, r, metadata);
    LiteralUnfolds(g, ref', q, metadata');
    PayloadText(h, Obj(ref), r, g, Obj(ref'), q);
  }

  /* What the payload says under each key. */

  function MemberOf(members: seq<Member>, key: Text): Option<Tree> {
    if members == [] then None
    else if members[0].key == key then Some(members[0].value)
    else MemberOf(members[1..], key)
  }

  lemma {:induction false} MemberAt(members: seq<Member>, i: nat)
    requires i < |members| && forall j, k | 0 <= j < k < |members| :: members[j].key != members[k].key
    ensures MemberOf(members, members[i].key) == Some(members[i].value)
  {
    if i > 0 {
      MemberAt(members[1..], i - 1);
    }
  }

  lemma PayloadAt(r: Hashed, i: nat)
    requires i < 13
    ensures MemberOf(Payload(r).members, Key(i)) == Some(Values(r)[i])
  {
    PayloadShape(r);
    hide Key, Values, Payload, MemberOf, Before;
    var members := Payload(r).members;
    forall j, k | 0 <= j < k < |members|
      ensures members[j].key != members[k].key
    {
      KeysInOrder(j, k);
      BeforeIsOrder(members[j].key, members[j].key, members[j].key);
    }
    MemberAt(members, i);
  }

  function Under(r: Hashed, name: string): Option<Tree> {
    MemberOf(Payload(r).members, Ascii(name))
  }

  /** The hashed text carries each field under its own name, absent ids and timestamps as null. */
  lemma PayloadNames(r: Hashed)
    ensures Under(r, "action") == Some(TString(r.action)) && Under(r, "actorId") == Some(OptionTree(r.actorId))
    ensures Under(r, "branchId") == Some(OptionTree(r.branchId))
    ensures Under(r, "clientTimestamp") == Some(OptionTree(r.clientTimestamp))
    ensures Under(r, "entityId") == Some(OptionTree(r.entityId)) && Under(r, "entityName") == Some(TString(r.entityName))
    ensures Under(r, "eventType") == Some(TString(r.eventType))
    ensures Under(r, "organizationId") == Some(TString(r.organizationId))
    ensures Under(r, "previousRecordHash") == Some(TString(r.previousRecordHash))
    ensures Under(r, "redactedMetadata") == Some(r.metadata)
    ensures Under(r, "sequenceNumber") == Some(TNumber(NumberText(r.sequenceNumber)))
    ensures Under(r, "serverTimestamp") == Some(TString(r.serverTimestamp))
    ensures Under(r, "stationId") == Some(OptionTree(r.stationId))
  {
    hide Payload, MemberOf, Ascii, NumberText, OptionTree;
    forall i | 0 <= i < 13
      ensures Under(r, KeyName(i)) == Some(Values(r)[i])
    {
      PayloadAt(r, i);
    }
    hide Under;
    assert Under(r, KeyName(0)) == Some(Values(r)[0]) && Under(r, KeyName(1)) == Some(Values(r)[1]);
    assert Under(r, KeyName(2)) == Some(Values(r)[2]) && Under(r, KeyName(3)) == Some(Values(r)[3]);
    assert Under(r, KeyName(4)) == Some(Values(r)[4]) && Under(r, KeyName(5)) == Some(Values(r)[5]);
    assert Under(r, KeyName(6)) == Some(Values(r)[6]) && Under(r, KeyName(7)) == Some(Values(r)[7]);
    assert Under(r, KeyName(8)) == Some(Values(r)[8]) && Under(r, KeyName(9)) == Some(Values(r)[9]);
    assert Under(r, KeyName(10)) == Some(Values(r)[10]) && Under(r, KeyName(11)) == Some(Values(r)[11]);
    assert Under(r, KeyName(12)) == Some(Values(r)[12]);
  }
}
