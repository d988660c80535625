/** What `undefined` means inside a container: null in an array, no member in an object. */
module CanonicalHoles {
  import opened Results
  import opened Ordering
  import opened JsonText
  import opened Canonical
  import opened CanonicalLaws

  predicate Present(fields: map<Text, Value>, key: Text) {
    key in fields && !fields[key].Undef?
  }

  /** The keys whose values are not undefined. */
  function Kept(keys: seq<Text>, fields: map<Text, Value>): seq<Text> {
    if keys == [] then []
    else (if Present(fields, keys[0]) then [keys[0]] else []) + Kept(keys[1..], fields)
  }

  function WithNulls(elems: seq<Value>): seq<Value> {
    seq(|elems|, i requires 0 <= i < |elems| => if elems[i].Undef? then Null else elems[i])
  }

  function DefinedFields(fields: map<Text, Value>): map<Text, Value> {
    map key | key in fields && Present(fields, key) :: fields[key]
  }

  /** The container with null for every undefined element and without its undefined members. */
  function Defined(n: Node): Node {
    match n
    case Arr(elems) => Arr(WithNulls(elems))
    case Rec(keys, fields) => Rec(Kept(keys, fields), DefinedFields(fields))
  }

  function DefinedHeap(h: Heap): Heap {
    map r | r in h :: Defined(h[r])
  }

  predicate OwnKeys(h: Heap) {
    forall r | r in h && h[r].Rec? :: DistinctKeys(h[r].keys)
  }

  /* Leaving keys out commutes with sorting them. */

  lemma {:induction false} KeptCounts(keys: seq<Text>, fields: map<Text, Value>, key: Text)
    ensures multiset(Kept(keys, fields))[key] == if Present(fields, key) then multiset(keys)[key] else 0
  {
    if keys != [] {
      assert keys == [keys[0]] + keys[1..];
      KeptCounts(keys[1..], fields, key);
    }
  }

  lemma KeptMember(keys: seq<Text>, fields: map<Text, Value>, key: Text)
    ensures key in Kept(keys, fields) <==> key in keys && Present(fields, key)
  {
    KeptCounts(keys, fields, key);
    assert key in keys <==> key in multiset(keys);
    assert key in Kept(keys, fields) <==> key in multiset(Kept(keys, fields));
  }

  lemma {:induction false} KeptIsSorted(keys: seq<Text>, fields: map<Text, Value>)
    requires Sorted(Before, keys)
    ensures Sorted(Before, Kept(keys, fields))
  {
    hide Before;
    if keys != [] {
      var tail := Kept(keys[1..], fields);
      KeptIsSorted(keys[1..], fields);
      forall j | 0 <= j < |tail|
        ensures Before(keys[0], tail[j])
      {
        KeptMember(keys[1..], fields, tail[j]);
        var i :| 0 <= i < |keys| - 1 && keys[1..][i] == tail[j];
        assert keys[i + 1] == tail[j];
      }
    }
  }

  lemma {:induction false} KeptIsDistinct(keys: seq<Text>, fields: map<Text, Value>)
    requires DistinctKeys(keys)
    ensures DistinctKeys(Kept(keys, fields))
  {
    if keys != [] {
      KeptIsDistinct(keys[1..], fields);
      KeptMember(keys[1..], fields, keys[0]);
    }
  }

  lemma SortedKept(keys: seq<Text>, fields: map<Text, Value>)
    requires DistinctKeys(keys)
    ensures Sort(Before, Kept(keys, fields)) == Kept(Sort(Before, keys), fields)
  {
    hide Before, StrictOrder, Comparable, Sort, Sorted, Kept, DistinctKeys;
    var sorted, kept := Sort(Before, keys), Kept(keys, fields);
    KeptIsDistinct(keys, fields);
    Ordered(keys);
    Ordered(kept);
    SortSorts(Before, keys);
    SortSorts(Before, kept);
    KeptIsSorted(sorted, fields);
    SortKeeps(Before, keys);
    SortKeeps(Before, kept);
    forall key
      ensures multiset(Kept(sorted, fields))[key] == multiset(kept)[key]
    {
      KeptCounts(sorted, fields, key);
      KeptCounts(keys, fields, key);
    }
    SortedIsUnique(Before, Sort(Before, kept), Kept(sorted, fields));
  }

  lemma Ordered(keys: seq<Text>)
    requires DistinctKeys(keys)
    ensures StrictOrder(Before) && Comparable(Before, keys)
  {
    hide Before, StrictOrder, Comparable;
    KeysAreOrdered(keys);
  }

  /* Both serializations go side by side. */

  /** The frame g is what is left of f without undefined values. */
  predicate Follows(f: Frame, g: Frame) {
    match (f, g)
    case (ArrFrame(_, elems, i), ArrFrame(_, others, j)) => others == WithNulls(elems) && i == j
    case (RecFrame(_, keys, fields, i, first), RecFrame(_, others, defined, j, second)) =>
      && i <= |keys| && j <= |others| && others[j..] == Kept(keys[i..], fields)
      && defined == DefinedFields(fields) && first == second
    case _ => false
  }

  lemma NewFrameFollows(h: Heap, r: nat)
    requires OwnKeys(h) && r in h
    ensures Follows(NewFrame(h, r), NewFrame(DefinedHeap(h), r))
  {
    if h[r].Rec? {
      SortedKept(h[r].keys, h[r].fields);
      hide Sort, Before, Kept;
      var f, g := NewFrame(h, r), NewFrame(DefinedHeap(h), r);
      assert f.keys[0..] == f.keys && g.keys[0..] == g.keys;
    }
  }

  lemma SkipFollows(f: Frame, g: Frame)
    requires Follows(f, g) && f.RecFrame? && f.index < |f.keys| && Field(f.fields, f.keys[f.index]).Undef?
    ensures Follows(Advance(f, f.first), g)
  {
    assert f.keys[f.index..][1..] == f.keys[f.index + 1..];
  }

  lemma StepFollows(f: Frame, g: Frame)
    requires Follows(f, g) && f.RecFrame? && f.index < |f.keys| && !Field(f.fields, f.keys[f.index]).Undef?
    ensures g.index < |g.keys| && g.keys[g.index] == f.keys[f.index]
    ensures Field(g.fields, g.keys[g.index]) == Field(f.fields, f.keys[f.index])
    ensures Follows(Advance(f, false), Advance(g, false))
  {
    var keys := f.keys[f.index..];
    assert keys[1..] == f.keys[f.index + 1..];
    assert g.keys[g.index..] == [keys[0]] + Kept(keys[1..], f.fields);
    assert g.keys[g.index..][0] == g.keys[g.index];
    assert g.keys[g.index..][1..] == g.keys[g.index + 1..];
  }

  lemma EndFollows(f: Frame, g: Frame)
    requires Follows(f, g) && Remaining(f) == 0
    ensures Remaining(g) == 0
  {
  }

  lemma {:induction false} RestIsSame(h: Heap, f: Frame, g: Frame, seen: set<nat>)
    requires OwnKeys(h) && Follows(f, g)
    ensures Rest(h, f, seen) == Rest(DefinedHeap(h), g, seen)
    decreases h.Keys - seen, Remaining(f), 1
  {
    var k := DefinedHeap(h);
    hide Before, Sort, Kept, OwnKeys, DefinedHeap, DefinedFields;
    if Remaining(f) == 0 {
      EndFollows(f, g);
    } else if f.ArrFrame? {
      var v := Hole(f.elems[f.index]);
      ValueIsSame(h, v, seen);
      RestIsSame(h, Advance(f, false), Advance(g, false), seen);
      hide SerValue;
      assert Hole(g.elems[g.index]) == v;
      assert RestElems(h, f, seen) == RestElems(k, g, seen);
    } else {
      var key, v := f.keys[f.index], Field(f.fields, f.keys[f.index]);
      if v.Undef? {
        SkipFollows(f, g);
        RestIsSame(h, Advance(f, f.first), g, seen);
      } else {
        StepFollows(f, g);
        ValueIsSame(h, v, seen);
        MemberIsSame(h, key, v, seen);
        RestIsSame(h, Advance(f, false), Advance(g, false), seen);
        hide SerValue, SerMember, Follows;
        assert RestFields(h, f, seen) == RestFields(k, g, seen);
      }
    }
  }

  lemma MemberIsSame(h: Heap, key: Text, v: Value, seen: set<nat>)
    requires SerValue(h, v, seen) == SerValue(DefinedHeap(h), v, seen)
    ensures SerMember(h, key, v, seen) == SerMember(DefinedHeap(h), key, v, seen)
  {
    hide SerValue, SerString, Defined;
  }

  lemma {:induction false} ValueIsSame(h: Heap, v: Value, seen: set<nat>)
    requires OwnKeys(h)
    ensures SerValue(h, v, seen) == SerValue(DefinedHeap(h), v, seen)
    decreases h.Keys - seen, 0, 0
  {
    hide Rest, SerPrimitive, Defined, OwnKeys;
    if v.Obj? && Refusal(h, v.ref, seen).None? {
      Shrinks(h, v.ref, seen);
      NewFrameFollows(h, v.ref);
      RestIsSame(h, NewFrame(h, v.ref), NewFrame(DefinedHeap(h), v.ref), seen + {v.ref});
      hide NewFrame;
      SameOpening(h, v.ref);
    }
  }

  lemma SameOpening(h: Heap, r: nat)
    requires r in h
    ensures Opening(NewFrame(h, r)) == Opening(NewFrame(DefinedHeap(h), r))
  {
  }

  /** Undefined elements are written as null and undefined members not at all: the text, or the error, is that of the
      graph in which they are null and absent. */
  lemma UndefinedIsForgotten(h: Heap, v: Value)
    requires OwnKeys(h)
    ensures Serialize(h, v) == Serialize(DefinedHeap(h), v)
  {
    hide SerValue, OwnKeys, DefinedHeap;
    ValueIsSame(h, v, {});
  }
}
