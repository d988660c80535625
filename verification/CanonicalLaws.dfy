/** What canonical texts promise: key insertion order is forgotten, only true cycles throw, and a text determines
    the value it came from. */
module CanonicalLaws {
  import opened Results
  import opened Ordering
  import opened JsonText
  import opened Canonical

  /* Key insertion order (RFC 8785 section 3.2.3). */

  predicate DistinctKeys(keys: seq<Text>) {
    forall i, j | 0 <= i < j < |keys| :: keys[i] != keys[j]
  }

  /** The same node up to the order in which an object's keys were inserted. */
  predicate SameNode(a: Node, b: Node) {
    match (a, b)
    case (Arr(x), Arr(y)) => x == y
    case (Rec(k, f), Rec(l, g)) => f == g && multiset(k) == multiset(l) && DistinctKeys(k) && DistinctKeys(l)
    case _ => false
  }

  predicate SameHeap(h: Heap, g: Heap) {
    h.Keys == g.Keys && forall r | r in h :: SameNode(h[r], g[r])
  }

  lemma SameFrame(h: Heap, g: Heap, r: nat)
    requires SameHeap(h, g) && r in h
    ensures NewFrame(h, r) == NewFrame(g, r)
  {
    assert SameNode(h[r], g[r]);
    hide Before, StrictOrder, Comparable, Sort;
    if h[r].Rec? {
      KeysAreOrdered(h[r].keys);
      KeysAreOrdered(g[r].keys);
      SortForgetsOrder(Before, h[r].keys, g[r].keys);
    }
  }

  lemma {:induction false} SameRest(h: Heap, g: Heap, f: Frame, seen: set<nat>)
    requires SameHeap(h, g)
    ensures Rest(h, f, seen) == Rest(g, f, seen)
    decreases h.Keys - seen, Remaining(f), 1
  {
    hide SameHeap, Before;
    if Remaining(f) > 0 {
      match f {
        case ArrFrame(_, elems, i) =>
          SameValue(h, g, Hole(elems[i]), seen);
          SameRest(h, g, Advance(f, false), seen);
          hide SerValue;
        case RecFrame(_, keys, fields, i, first) =>
          var v := Field(fields, keys[i]);
          SameValue(h, g, v, seen);
          SameRefusal(h, g, v, seen);
          SameRest(h, g, Advance(f, first && v.Undef?), seen);
          hide SerValue, SerString;
          assert SerMember(h, keys[i], v, seen) == SerMember(g, keys[i], v, seen);
          assert RestFields(h, f, seen) == RestFields(g, f, seen);
      }
    }
  }

  lemma SameRefusal(h: Heap, g: Heap, v: Value, seen: set<nat>)
    requires SameHeap(h, g)
    ensures v.Obj? ==> Refusal(h, v.ref, seen) == Refusal(g, v.ref, seen)
  {
  }

  lemma {:induction false} SameValue(h: Heap, g: Heap, v: Value, seen: set<nat>)
    requires SameHeap(h, g)
    ensures SerValue(h, v, seen) == SerValue(g, v, seen)
    decreases h.Keys - seen, 0, 0
  {
    hide Rest, SerPrimitive;
    SameRefusal(h, g, v, seen);
    if v.Obj? && Refusal(h, v.ref, seen).None? {
      Shrinks(h, v.ref, seen);
      SameFrame(h, g, v.ref);
      hide SameHeap, NewFrame;
      SameRest(h, g, NewFrame(h, v.ref), seen + {v.ref});
    }
  }

  /** The canonical text does not depend on the order in which keys were inserted. */
  lemma KeyOrderIsForgotten(h: Heap, g: Heap, v: Value)
    requires SameHeap(h, g)
    ensures Serialize(h, v) == Serialize(g, v)
  {
    hide SameHeap, SerValue;
    SameValue(h, g, v, {});
  }

  /* A text determines the value. */

  /** The plain JSON value behind v: undefined members dropped, members in key order, sharing unfolded. */
  function Unfold(h: Heap, v: Value, seen: set<nat>): Tree
    decreases h.Keys - seen, 0, 0
  {
    match v
    case Bool(b) => TBool(b)
    case Num(n) => TNumber(n)
    case Str(s) => TString(s)
    case Obj(r) =>
      if Refusal(h, r, seen).Some? then TNull else
        Shrinks(h, r, seen);
        var f := NewFrame(h, r);
        if f.ArrFrame? then TArray(UnfoldElems(h, f, seen + {r})) else TObject(UnfoldMembers(h, f, seen + {r}))
    case _ => TNull
  }

  function UnfoldElems(h: Heap, f: Frame, seen: set<nat>): seq<Tree>
    requires f.ArrFrame?
    decreases h.Keys - seen, Remaining(f), 1
  {
    if f.index >= |f.elems| then [] else
      [Unfold(h, Hole(f.elems[f.index]), seen)] + UnfoldElems(h, Advance(f, false), seen)
  }

  function UnfoldMembers(h: Heap, f: Frame, seen: set<nat>): seq<Member>
    requires f.RecFrame?
    decreases h.Keys - seen, Remaining(f), 1
  {
    if f.index >= |f.keys| then [] else
      var key := f.keys[f.index];
      var v := Field(f.fields, key);
      if v.Undef? then UnfoldMembers(h, Advance(f, f.first), seen)
      else [Member(key, Unfold(h, v, seen))] + UnfoldMembers(h, Advance(f, false), seen)
  }

  /** A text that is produced is the text of the unfolded value. */
  lemma {:induction false} ValueIsWritten(h: Heap, v: Value, seen: set<nat>)
    requires SerValue(h, v, seen).Ok?
    ensures SerValue(h, v, seen).value == Write(Unfold(h, v, seen))
    decreases h.Keys - seen, 0, 0
  {
    hide Quoted, JsonText.WellFormed;
    if v.Obj? {
      Shrinks(h, v.ref, seen);
      hide Rest, UnfoldElems, UnfoldMembers;
      var f := NewFrame(h, v.ref);
      if f.ArrFrame? {
        ElemsAreWritten(h, f, seen + {v.ref});
      } else {
        MembersAreWritten(h, f, seen + {v.ref});
      }
    }
  }

  lemma {:induction false} ElemsAreWritten(h: Heap, f: Frame, seen: set<nat>)
    requires f.ArrFrame? && Rest(h, f, seen).Ok?
    ensures Rest(h, f, seen).value == WriteElems(UnfoldElems(h, f, seen), f.index == 0)
    decreases h.Keys - seen, Remaining(f), 1
  {
    hide SerValue, Unfold, Write;
    if f.index < |f.elems| {
      var v, next := Hole(f.elems[f.index]), Advance(f, false);
      ValueIsWritten(h, v, seen);
      ElemsAreWritten(h, next, seen);
      var t, u := SerValue(h, v, seen).value, Rest(h, next, seen).value;
      assert Rest(h, f, seen).value == Separator(f.index == 0) + (t + u);
      var elems, rest := UnfoldElems(h, f, seen), UnfoldElems(h, next, seen);
      assert elems[1..] == rest && elems[0] == Unfold(h, v, seen);
    }
  }

  lemma {:induction false} MembersAreWritten(h: Heap, f: Frame, seen: set<nat>)
    requires f.RecFrame? && Rest(h, f, seen).Ok?
    ensures Rest(h, f, seen).value == WriteMembers(UnfoldMembers(h, f, seen), f.first)
    decreases h.Keys - seen, Remaining(f), 1
  {
    hide SerValue, Unfold, Write, Quoted;
    if f.index < |f.keys| {
      var key := f.keys[f.index];
      var v := Field(f.fields, key);
      if v.Undef? {
        MembersAreWritten(h, Advance(f, f.first), seen);
      } else {
        var next := Advance(f, false);
        MemberIsWritten(h, key, v, seen);
        MembersAreWritten(h, next, seen);
        var t, u := SerMember(h, key, v, seen).value, Rest(h, next, seen).value;
        assert Rest(h, f, seen).value == Separator(f.first) + (t + u);
        hide SerMember, WriteMember;
        var members, rest := UnfoldMembers(h, f, seen), UnfoldMembers(h, next, seen);
        assert members[1..] == rest && members[0] == Member(key, Unfold(h, v, seen));
      }
    }
  }

  lemma {:induction false} MemberIsWritten(h: Heap, key: Text, v: Value, seen: set<nat>)
    requires SerMember(h, key, v, seen).Ok?
    ensures SerMember(h, key, v, seen).value == WriteMember(Member(key, Unfold(h, v, seen)))
    decreases h.Keys - seen, 0, 1
  {
    ValueIsWritten(h, v, seen);
    hide SerValue, Unfold, Write, Quoted, JsonText.WellFormed;
    assert Quoted(key) + ([COLON] + SerValue(h, v, seen).value) == Quoted(key) + [COLON] + SerValue(h, v, seen).value;
  }

  /** Values with the same canonical text are the same plain JSON value. */
  lemma CanonicalIsInjective(h: Heap, v: Value, g: Heap, w: Value)
    requires Serialize(h, v).Ok? && Serialize(h, v) == Serialize(g, w)
    ensures Unfold(h, v, {}) == Unfold(g, w, {})
  {
    hide SerValue, Unfold, Write;
    ValueIsWritten(h, v, {});
    ValueIsWritten(g, w, {});
    WriteIsInjective(Unfold(h, v, {}), Unfold(g, w, {}));
  }

  /* Cycles. */

  /** Container s is an element or a member of container r. */
  predicate Edge(h: Heap, r: nat, s: nat) {
    && r in h
    && match h[r]
       case Arr(elems) => Obj(s) in elems
       case Rec(keys, fields) => exists k :: 0 <= k < |keys| && Field(fields, keys[k]) == Obj(s)
  }

  predicate Walk(h: Heap, w: seq<nat>) {
    forall i | 0 <= i < |w| - 1 :: Edge(h, w[i], w[i + 1])
  }

  /** A walk from the root whose last container occurs in it before. */
  predicate IsCycleWalk(h: Heap, root: nat, w: seq<nat>) {
    |w| > 1 && w[0] == root && Walk(h, w) && w[|w| - 1] in w[..|w| - 1]
  }

  ghost predicate CycleReachable(h: Heap, root: nat) {
    exists w :: IsCycleWalk(h, root, w)
  }

  function Elems(path: seq<nat>): set<nat> {
    set r | r in path
  }

  /** The frame is a position in its own container. */
  predicate FrameOf(h: Heap, f: Frame) {
    && f.ref in h
    && match f
       case ArrFrame(_, elems, _) => h[f.ref] == Arr(elems)
       case RecFrame(_, keys, fields, _, _) => h[f.ref].Rec? && keys == Sort(Before, h[f.ref].keys) && fields == h[f.ref].fields
  }

  /** The value at the frame's position, if the serializer looks into it. */
  function Current(f: Frame): Value
    requires Remaining(f) > 0
  {
    if f.ArrFrame? then Hole(f.elems[f.index]) else Field(f.fields, f.keys[f.index])
  }

  function Forward(f: Frame): Frame
    requires Remaining(f) > 0
  {
    Advance(f, f.RecFrame? && f.first && Current(f).Undef?)
  }

  lemma CurrentIsEdge(h: Heap, f: Frame)
    requires FrameOf(h, f) && Remaining(f) > 0 && Current(f).Obj?
    ensures Edge(h, f.ref, Current(f).ref)
  {
    if f.RecFrame? {
      var keys := h[f.ref].keys;
      SortKeeps(Before, keys);
      hide Sort, Before;
      SameMembers(f.keys, keys, f.keys[f.index]);
      var k :| 0 <= k < |keys| && keys[k] == f.keys[f.index];
    } else {
      assert f.elems[f.index] in f.elems;
    }
  }

  lemma WalkNext(h: Heap, w: seq<nat>, s: nat)
    requires w != [] && Walk(h, w) && Edge(h, w[|w| - 1], s)
    ensures Walk(h, w + [s]) && Elems(w + [s]) == Elems(w) + {s}
  {
    hide Edge;
  }

  /** An error of the rest comes from the current value or from what follows it. */
  lemma RestError(h: Heap, f: Frame, seen: set<nat>)
    requires Remaining(f) > 0
    ensures var v := Current(f);
            && (Rest(h, f, seen) == Err(Circular) ==>
                  (v.Obj? && SerValue(h, v, seen) == Err(Circular)) || Rest(h, Forward(f), seen) == Err(Circular))
            && (Rest(h, f, seen).Ok? ==> (v.Obj? ==> SerValue(h, v, seen).Ok?) && Rest(h, Forward(f), seen).Ok?)
  {
    hide Quoted, JsonText.WellFormed, Before;
    var v := Current(f);
    if f.ArrFrame? {
      assert Rest(h, f, seen) == Prepend(Separator(f.index == 0), Both(SerValue(h, v, seen), Rest(h, Forward(f), seen)));
    } else if v.Undef? {
      assert Rest(h, f, seen) == Rest(h, Forward(f), seen);
    } else {
      var key := f.keys[f.index];
      assert Rest(h, f, seen) == Prepend(Separator(f.first), Both(SerMember(h, key, v, seen), Rest(h, Forward(f), seen)));
      assert SerMember(h, key, v, seen) == Err(Circular) ==> SerValue(h, v, seen) == Err(Circular);
    }
    assert SerValue(h, v, seen) == Err(Circular) ==> v.Obj?;
    hide Rest;
  }

  lemma {:induction false} CircularIsCycle(h: Heap, f: Frame, path: seq<nat>)
    requires FrameOf(h, f) && path != [] && path[|path| - 1] == f.ref && Walk(h, path)
    requires Rest(h, f, Elems(path)) == Err(Circular)
    ensures CycleReachable(h, path[0])
    decreases h.Keys - Elems(path), Remaining(f)
  {
    if Remaining(f) > 0 {
      RestError(h, f, Elems(path));
      var v := Current(f);
      if v.Obj? && SerValue(h, v, Elems(path)) == Err(Circular) {
        CurrentIsEdge(h, f);
        WalkNext(h, path, v.ref);
        hide Edge, Rest, Before, Sort;
        var w := path + [v.ref];
        if v.ref in path {
          assert w[..|path|] == path;
          assert IsCycleWalk(h, path[0], w);
        } else {
          Shrinks(h, v.ref, Elems(path));
          CircularIsCycle(h, NewFrame(h, v.ref), w);
        }
      } else {
        hide Edge, Rest, Before, Sort, SerValue;
        CircularIsCycle(h, Forward(f), path);
      }
    }
  }

  /** A complete text has passed through every child container. */
  lemma {:induction false} ChildVisited(h: Heap, f: Frame, seen: set<nat>, k: nat)
    requires FrameOk(f) && Rest(h, f, seen).Ok? && f.index <= k
    requires if f.ArrFrame? then k < |f.elems| && f.elems[k].Obj? else k < |f.keys| && Field(f.fields, f.keys[k]).Obj?
    ensures var r := (if f.ArrFrame? then f.elems[k] else Field(f.fields, f.keys[k])).ref;
            r !in seen && r in h && Rest(h, NewFrame(h, r), seen + {r}).Ok?
    decreases Remaining(f)
  {
    RestError(h, f, seen);
    if k > f.index {
      hide Rest, SerValue;
      ChildVisited(h, Forward(f), seen, k);
    } else {
      hide Rest;
    }
  }

  lemma EdgeVisited(h: Heap, r: nat, s: nat, seen: set<nat>)
    requires r in h && Rest(h, NewFrame(h, r), seen).Ok? && Edge(h, r, s)
    ensures s !in seen && s in h && Rest(h, NewFrame(h, s), seen + {s}).Ok?
  {
    var f := NewFrame(h, r);
    hide Rest;
    match h[r] {
      case Arr(elems) =>
        var k :| 0 <= k < |elems| && elems[k] == Obj(s);
        ChildVisited(h, f, seen, k);
      case Rec(keys, fields) =>
        var k :| 0 <= k < |keys| && Field(fields, keys[k]) == Obj(s);
        SortKeeps(Before, keys);
        SameMembers(Sort(Before, keys), keys, keys[k]);
        hide Sort, Before;
        var j :| 0 <= j < |f.keys| && f.keys[j] == keys[k];
        ChildVisited(h, f, seen, j);
    }
  }

  lemma {:induction false} WalkVisited(h: Heap, root: nat, w: seq<nat>)
    requires root in h && Rest(h, NewFrame(h, root), {root}).Ok? && w != [] && w[0] == root && Walk(h, w)
    ensures w[|w| - 1] in h && w[|w| - 1] !in w[..|w| - 1]
    ensures Rest(h, NewFrame(h, w[|w| - 1]), Elems(w)).Ok?
    decreases |w|
  {
    var n := |w| - 1;
    hide Rest, NewFrame, Edge;
    if n == 0 {
      assert w == [root] && Elems([root]) == {root};
    } else {
      WalkVisited(h, root, w[..n]);
      assert Edge(h, w[n - 1], w[n - 1 + 1]);
      EdgeVisited(h, w[n - 1], w[n], Elems(w[..n]));
      assert w[..n] + [w[n]] == w;
      assert Elems(w) == Elems(w[..n]) + {w[n]};
    }
  }

  /** Only true cycles throw: `Circular` means a cycle is reachable, and a text means none is. Shared containers
      that lie on no cycle are written wherever they occur. */
  lemma OnlyCyclesThrow(h: Heap, root: nat)
    requires root in h
    ensures Serialize(h, Obj(root)) == Err(Circular) ==> CycleReachable(h, root)
    ensures Serialize(h, Obj(root)).Ok? ==> !CycleReachable(h, root)
  {
    assert Elems([root]) == {root} && {} + {root} == {root};
    if Serialize(h, Obj(root)) == Err(Circular) {
      assert FrameOf(h, NewFrame(h, root));
      hide Rest, Before, Sort;
      CircularIsCycle(h, NewFrame(h, root), [root]);
    } else if Serialize(h, Obj(root)).Ok? {
      hide Rest, Before, Sort;
      if w :| IsCycleWalk(h, root, w) {
        WalkVisited(h, root, w);
      }
    }
  }

  /* A graph of plain values: finite numbers, well-formed strings and keys, no dangling reference. */

  predicate PlainValue(h: Heap, v: Value) {
    !v.NotFinite? && (v.Str? ==> JsonText.WellFormed(v.s)) && (v.Obj? ==> v.ref in h)
  }

  predicate PlainNode(h: Heap, n: Node) {
    match n
    case Arr(elems) => forall k | 0 <= k < |elems| :: PlainValue(h, elems[k])
    case Rec(keys, fields) =>
      forall k | 0 <= k < |keys| :: JsonText.WellFormed(keys[k]) && PlainValue(h, Field(fields, keys[k]))
  }

  predicate PlainHeap(h: Heap) {
    forall r | r in h :: PlainNode(h, h[r])
  }

  predicate OkOrCircular(r: Result<Text, Error>) {
    r.Ok? || r.error == Circular
  }

  lemma CurrentIsPlain(h: Heap, f: Frame)
    requires PlainHeap(h) && FrameOf(h, f) && Remaining(f) > 0
    ensures PlainValue(h, Current(f)) && (f.RecFrame? ==> JsonText.WellFormed(f.keys[f.index]))
  {
    assert PlainNode(h, h[f.ref]);
    hide JsonText.WellFormed;
    if f.RecFrame? {
      var keys := h[f.ref].keys;
      SortKeeps(Before, keys);
      hide Sort, Before;
      SameMembers(f.keys, keys, f.keys[f.index]);
      var k :| 0 <= k < |keys| && keys[k] == f.keys[f.index];
    }
  }

  lemma {:induction false} PlainRest(h: Heap, f: Frame, seen: set<nat>)
    requires PlainHeap(h) && FrameOf(h, f)
    ensures OkOrCircular(Rest(h, f, seen))
    decreases h.Keys - seen, Remaining(f), 1
  {
    if Remaining(f) > 0 {
      CurrentIsPlain(h, f);
      hide PlainHeap, JsonText.WellFormed, Before, Sort;
      var v := Current(f);
      if !v.Undef? {
        PlainValueIsOk(h, v, seen);
      }
      PlainRest(h, Forward(f), seen);
      hide SerValue;
      if f.ArrFrame? {
        assert Rest(h, f, seen) == Prepend(Separator(f.index == 0), Both(SerValue(h, v, seen), Rest(h, Forward(f), seen)));
      } else if v.Undef? {
        assert Rest(h, f, seen) == Rest(h, Forward(f), seen);
      } else {
        var key := f.keys[f.index];
        assert OkOrCircular(SerMember(h, key, v, seen));
        assert Rest(h, f, seen) == Prepend(Separator(f.first), Both(SerMember(h, key, v, seen), Rest(h, Forward(f), seen)));
      }
    }
  }

  lemma {:induction false} PlainValueIsOk(h: Heap, v: Value, seen: set<nat>)
    requires PlainHeap(h) && PlainValue(h, v) && !v.Undef?
    ensures OkOrCircular(SerValue(h, v, seen))
    decreases h.Keys - seen, 0, 0
  {
    hide PlainHeap, Rest, Before, Sort;
    if v.Obj? && v.ref !in seen {
      Shrinks(h, v.ref, seen);
      PlainRest(h, NewFrame(h, v.ref), seen + {v.ref});
    }
  }

  /** For plain values the serializer throws exactly when a cycle is reachable. */
  lemma CircularExactly(h: Heap, root: nat)
    requires PlainHeap(h) && root in h
    ensures Serialize(h, Obj(root)) == Err(Circular) <==> CycleReachable(h, root)
    ensures Serialize(h, Obj(root)).Ok? <==> !CycleReachable(h, root)
  {
    OnlyCyclesThrow(h, root);
    hide SerValue, CycleReachable;
    PlainValueIsOk(h, Obj(root), {});
  }
}
