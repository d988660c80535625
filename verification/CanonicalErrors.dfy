/** Exactly which object graphs have a canonical text. */
module CanonicalErrors {
  import opened Results
  import opened Ordering
  import opened JsonText
  import opened Canonical
  import opened CanonicalLaws

  /** Every high surrogate is followed by a low one, and every low one follows a high one. */
  predicate Paired(s: Text) {
    forall i | 0 <= i < |s| :: PairedAt(s, i)
  }

  predicate PairedAt(s: Text, i: nat)
    requires i < |s|
  {
    && (0xD800 <= s[i] <= 0xDBFF ==> i + 1 < |s| && 0xDC00 <= s[i + 1] <= 0xDFFF)
    && (0xDC00 <= s[i] <= 0xDFFF ==> i > 0 && 0xD800 <= s[i - 1] <= 0xDBFF)
  }

  /** A finite number, a string without lone surrogates, or a reference that exists. */
  predicate Writable(h: Heap, v: Value) {
    !v.NotFinite? && (v.Str? ==> Paired(v.s)) && (v.Obj? ==> v.ref in h)
  }

  /** Everything the container writes can be written; members that are undefined are not written. */
  predicate WritableNode(h: Heap, n: Node) {
    match n
    case Arr(elems) => forall k | 0 <= k < |elems| :: Writable(h, elems[k])
    case Rec(keys, fields) => forall k | 0 <= k < |keys| :: WritableMember(h, fields, keys[k])
  }

  predicate WritableMember(h: Heap, fields: map<Text, Value>, key: Text) {
    Field(fields, key).Undef? || (Paired(key) && Writable(h, Field(fields, key)))
  }

  predicate WalkFrom(h: Heap, root: nat, w: seq<nat>) {
    w != [] && w[0] == root && Walk(h, w)
  }

  ghost predicate AllWritable(h: Heap, root: nat) {
    forall w | WalkFrom(h, root, w) :: w[|w| - 1] in h && WritableNode(h, h[w[|w| - 1]])
  }

  /** What the frame is at can be written. */
  predicate CurrentWritable(h: Heap, f: Frame)
    requires Remaining(f) > 0
  {
    if f.ArrFrame? then Writable(h, f.elems[f.index]) else WritableMember(h, f.fields, f.keys[f.index])
  }

  lemma PairedIsWellFormed(s: Text)
    ensures Paired(s) <==> JsonText.WellFormed(s)
  {
    forall i: nat | i < |s|
      ensures PairedAt(s, i) <==> NotAlone(s, i)
    {
    }
  }

  lemma PrimitiveExactly(h: Heap, v: Value)
    requires !v.Obj? && !v.Undef?
    ensures SerPrimitive(v).Ok? <==> Writable(h, v)
  {
    if v.Str? {
      PairedIsWellFormed(v.s);
    }
    hide Paired, JsonText.WellFormed, Quoted;
  }

  /** One step of a container: its text is complete exactly when the current position can be written, a container
      there has a complete text of its own, and so has the rest. */
  lemma RestExactly(h: Heap, f: Frame, seen: set<nat>)
    requires Remaining(f) > 0
    ensures var v := Current(f);
            Rest(h, f, seen).Ok? <==>
              CurrentWritable(h, f) && (v.Obj? ==> SerValue(h, v, seen).Ok?) && Rest(h, Forward(f), seen).Ok?
  {
    var v := Current(f);
    hide Before, Quoted, Paired, JsonText.WellFormed;
    if !v.Obj? && !v.Undef? {
      PrimitiveExactly(h, v);
    }
    if f.ArrFrame? {
      assert Rest(h, f, seen) == Prepend(Separator(f.index == 0), Both(SerValue(h, v, seen), Rest(h, Forward(f), seen)));
      HoleIsWritable(h, f.elems[f.index]);
    } else if v.Undef? {
      assert Rest(h, f, seen) == Rest(h, Forward(f), seen);
    } else {
      var key := f.keys[f.index];
      PairedIsWellFormed(key);
      MemberExactly(h, key, v, seen);
      assert Rest(h, f, seen) == Prepend(Separator(f.first), Both(SerMember(h, key, v, seen), Rest(h, Forward(f), seen)));
    }
    hide Rest, SerMember, SerPrimitive;
  }

  lemma HoleIsWritable(h: Heap, v: Value)
    ensures Writable(h, v) <==> Writable(h, Hole(v))
  {
    hide Paired;
  }

  lemma MemberExactly(h: Heap, key: Text, v: Value, seen: set<nat>)
    ensures SerMember(h, key, v, seen).Ok? <==> JsonText.WellFormed(key) && SerValue(h, v, seen).Ok?
  {
    hide Rest, Quoted, JsonText.WellFormed, SerPrimitive;
  }

  /* What has a text is writable. */

  lemma {:induction false} PositionIsWritable(h: Heap, f: Frame, seen: set<nat>, k: nat)
    requires Rest(h, f, seen).Ok? && f.index <= k < if f.ArrFrame? then |f.elems| else |f.keys|
    ensures if f.ArrFrame? then Writable(h, f.elems[k]) else WritableMember(h, f.fields, f.keys[k])
    decreases Remaining(f)
  {
    RestExactly(h, f, seen);
    hide Rest, SerValue;
    if k > f.index {
      PositionIsWritable(h, Forward(f), seen, k);
    }
  }

  lemma NodeIsWritable(h: Heap, r: nat, seen: set<nat>)
    requires r in h && Rest(h, NewFrame(h, r), seen).Ok?
    ensures WritableNode(h, h[r])
  {
    var f := NewFrame(h, r);
    hide Rest, Before, Writable, WritableMember;
    match h[r] {
      case Arr(elems) =>
        forall k | 0 <= k < |elems|
          ensures Writable(h, elems[k])
        {
          PositionIsWritable(h, f, seen, k);
        }
      case Rec(keys, fields) =>
        SortKeeps(Before, keys);
        forall k | 0 <= k < |keys|
          ensures WritableMember(h, fields, keys[k])
        {
          SameMembers(Sort(Before, keys), keys, keys[k]);
          var j :| 0 <= j < |f.keys| && f.keys[j] == keys[k];
          PositionIsWritable(h, f, seen, j);
        }
    }
  }

  /* What has no text has a fault. */

  lemma CurrentOfWritable(h: Heap, f: Frame)
    requires FrameOf(h, f) && Remaining(f) > 0 && WritableNode(h, h[f.ref])
    ensures CurrentWritable(h, f)
  {
    hide Writable, WritableMember;
    if f.RecFrame? {
      var keys := h[f.ref].keys;
      SortKeeps(Before, keys);
      hide Sort, Before;
      SameMembers(f.keys, keys, f.keys[f.index]);
      var k :| 0 <= k < |keys| && keys[k] == f.keys[f.index];
      assert WritableMember(h, f.fields, keys[k]);
    }
  }

  lemma {:induction false} FaultIsReachable(h: Heap, f: Frame, path: seq<nat>)
    requires FrameOf(h, f) && path != [] && path[|path| - 1] == f.ref && Walk(h, path)
    requires Rest(h, f, Elems(path)).Err? && AllWritable(h, path[0])
    ensures CycleReachable(h, path[0])
    decreases h.Keys - Elems(path), Remaining(f)
  {
    if Remaining(f) > 0 {
      assert WalkFrom(h, path[0], path);
      CurrentOfWritable(h, f);
      RestExactly(h, f, Elems(path));
      var v := Current(f);
      if v.Obj? && SerValue(h, v, Elems(path)).Err? {
        CurrentIsEdge(h, f);
        WalkNext(h, path, v.ref);
        CurrentRef(h, f);
        hide Edge, Rest, Before, Sort, AllWritable, Walk;
        var w := path + [v.ref];
        if v.ref in path {
          RepeatIsCycle(h, path, v.ref);
        } else {
          Shrinks(h, v.ref, Elems(path));
          FaultIsReachable(h, NewFrame(h, v.ref), w);
        }
      } else {
        hide Edge, Rest, Before, Sort, SerValue, AllWritable;
        FaultIsReachable(h, Forward(f), path);
      }
    }
  }

  lemma CurrentRef(h: Heap, f: Frame)
    requires Remaining(f) > 0 && CurrentWritable(h, f) && Current(f).Obj?
    ensures Current(f).ref in h
  {
    hide Paired;
  }

  lemma RepeatIsCycle(h: Heap, path: seq<nat>, r: nat)
    requires path != [] && Walk(h, path + [r]) && r in path
    ensures CycleReachable(h, path[0])
  {
    var w := path + [r];
    assert w[..|path|] == path;
    assert IsCycleWalk(h, path[0], w);
  }

  /** An object graph has a canonical text exactly when no cycle can be reached and everything reachable can be
      written: finite numbers, no lone surrogates in strings or in the keys of members that are written, no dangling
      reference. */
  lemma SerializesExactly(h: Heap, root: nat)
    requires root in h
    ensures Serialize(h, Obj(root)).Ok? <==> !CycleReachable(h, root) && AllWritable(h, root)
  {
    OnlyCyclesThrow(h, root);
    assert Elems([root]) == {root} && {} + {root} == {root};
    hide Before, Sort, CycleReachable;
    if Serialize(h, Obj(root)).Ok? {
      hide Rest;
      forall w | WalkFrom(h, root, w)
        ensures w[|w| - 1] in h && WritableNode(h, h[w[|w| - 1]])
      {
        WalkVisited(h, root, w);
        NodeIsWritable(h, w[|w| - 1], Elems(w));
      }
    } else if AllWritable(h, root) {
      assert Walk(h, [root]) && FrameOf(h, NewFrame(h, root));
      hide Rest, AllWritable, Walk;
      FaultIsReachable(h, NewFrame(h, root), [root]);
    }
  }

  /** Outside containers only finite numbers, well-formed strings, booleans and null have a text. */
  lemma PrimitiveSerializesExactly(h: Heap, v: Value)
    requires !v.Obj?
    ensures Serialize(h, v).Ok? <==> !v.Undef? && Writable(h, v)
  {
    if !v.Undef? {
      PrimitiveExactly(h, v);
    }
    hide Writable;
  }
}
