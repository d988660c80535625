/** RFC 8785 canonical JSON over an object graph: a recursive serializer, and the explicit-stack loop that
    computes the same text. */
module Canonical {
  import opened Results
  import opened Ordering
  import opened JsonText

  /** A JavaScript value; containers are references into a heap, so they may be shared or cyclic. */
  datatype Value =
    | Null | Bool(b: bool) | Num(n: Number) | NotFinite | Str(s: Text) | Undef | Obj(ref: nat)

  /** An array, or an object with its own keys in insertion order. */
  datatype Node = Arr(elems: seq<Value>) | Rec(keys: seq<Text>, fields: map<Text, Value>)

  type Heap = map<nat, Node>

  /** `Undefined`: the source returns undefined instead of a text. `Dangling`: no JavaScript value has one. */
  datatype Error = Circular | NotFiniteNumber | LoneSurrogate | Undefined | Dangling

  /* Key order. */

  predicate Before(a: Text, b: Text) {
    if a == [] then b != []
    else b != [] && (a[0] < b[0] || (a[0] == b[0] && Before(a[1..], b[1..])))
  }

  /** Up to index k the texts agree, and there a has the smaller code unit. */
  predicate SmallerAt(a: Text, b: Text, k: nat) {
    k < |a| && k < |b| && a[..k] == b[..k] && a[k] < b[k]
  }

  lemma SameStart(a: Text, b: Text, k: nat)
    requires 0 < k <= |a| && k <= |b| && a[..k] == b[..k]
    ensures a[0] == b[0]
  {
    assert a[..k][0] == a[0] && b[..k][0] == b[0];
  }

  /** Keys are ordered by their first different code unit, a proper prefix before its extensions. */
  lemma {:induction false} BeforeExactly(a: Text, b: Text)
    ensures Before(a, b) <==> (|a| < |b| && a == b[..|a|]) || exists k :: SmallerAt(a, b, k)
  {
    if a != [] && b != [] {
      if a[0] == b[0] {
        BeforeExactly(a[1..], b[1..]);
        assert a == [a[0]] + a[1..] && b == [b[0]] + b[1..];
        if |a| < |b| {
          assert b[..|a|] == [b[0]] + b[1..][..|a| - 1];
          assert a == b[..|a|] <==> a[1..] == b[1..][..|a| - 1];
        }
        if k: nat :| SmallerAt(a[1..], b[1..], k) {
          assert a[..k + 1] == [a[0]] + a[1..][..k] && b[..k + 1] == [b[0]] + b[1..][..k];
          assert SmallerAt(a, b, k + 1);
        }
        if k: nat :| SmallerAt(a, b, k) {
          assert a[1..][..k - 1] == a[..k][1..] && b[1..][..k - 1] == b[..k][1..];
          assert SmallerAt(a[1..], b[1..], k - 1);
        }
      } else {
        assert SmallerAt(a, b, 0) <==> a[0] < b[0];
        forall k: nat | SmallerAt(a, b, k)
          ensures k == 0
        {
          if k > 0 {
            SameStart(a, b, k);
          }
        }
      }
    }
  }

  lemma {:induction false} BeforeIsOrder(a: Text, b: Text, c: Text)
    ensures !Before(a, a)
    ensures Before(a, b) && Before(b, c) ==> Before(a, c)
    ensures a == b || Before(a, b) || Before(b, a)
  {
    if a != [] {
      BeforeIsOrder(a[1..], if b == [] then [] else b[1..], if c == [] then [] else c[1..]);
      if b != [] && a[0] == b[0] && a[1..] == b[1..] {
        assert a == [a[0]] + a[1..] && b == [b[0]] + b[1..];
      }
    }
  }

  lemma KeysAreOrdered(keys: seq<Text>)
    requires forall i, j | 0 <= i < j < |keys| :: keys[i] != keys[j]
    ensures StrictOrder(Before) && Comparable(Before, keys)
  {
    hide Before;
    forall a
      ensures !Before(a, a)
    {
      BeforeIsOrder(a, a, a);
    }
    forall a, b, c | Before(a, b) && Before(b, c)
      ensures Before(a, c)
    {
      BeforeIsOrder(a, b, c);
    }
    forall i, j | 0 <= i < j < |keys|
      ensures Before(keys[i], keys[j]) || Before(keys[j], keys[i])
    {
      BeforeIsOrder(keys[i], keys[j], keys[i]);
    }
  }

  /* The recursive serializer. */

  /** A container being written, from its next position on. */
  datatype Frame =
    | ArrFrame(ref: nat, elems: seq<Value>, index: nat)
    | RecFrame(ref: nat, keys: seq<Text>, fields: map<Text, Value>, index: nat, first: bool)

  function NewFrame(h: Heap, r: nat): Frame
    requires r in h
  {
    match h[r]
    case Arr(elems) => ArrFrame(r, elems, 0)
    case Rec(keys, fields) => RecFrame(r, Sort(Before, keys), fields, 0, true)
  }

  /** The frame after its next position; `first` tells whether no member has been written yet. */
  function Advance(f: Frame, first: bool): Frame {
    match f
    case ArrFrame(r, elems, i) => ArrFrame(r, elems, i + 1)
    case RecFrame(r, keys, fields, i, _) => RecFrame(r, keys, fields, i + 1, first)
  }

  function Opening(f: Frame): Text {
    if f.ArrFrame? then [OPEN_ARRAY] else [OPEN_OBJECT]
  }

  function SerString(s: Text): Result<Text, Error> {
    if WellFormed(s) then Ok(Quoted(s)) else Err(LoneSurrogate)
  }

  function SerPrimitive(v: Value): Result<Text, Error>
    requires !v.Obj?
  {
    match v
    case Null => Ok(NULL)
    case Bool(b) => Ok(if b then TRUE else FALSE)
    case Num(n) => Ok(n)
    case NotFinite => Err(NotFiniteNumber)
    case Str(s) => SerString(s)
    case Undef => Err(Undefined)
  }

  /** Array elements that are undefined are written as null. */
  function Hole(v: Value): Value {
    if v.Undef? then Null else v
  }

  function Field(fields: map<Text, Value>, key: Text): Value {
    if key in fields then fields[key] else Undef
  }

  /** Why a container may not be entered. */
  function Refusal(h: Heap, r: nat, seen: set<nat>): Option<Error> {
    if r in seen then Some(Circular) else if r !in h then Some(Dangling) else None
  }

  function Prepend(p: Text, r: Result<Text, Error>): Result<Text, Error> {
    match r case Ok(t) => Ok(p + t) case Err(e) => Err(e)
  }

  function Both(a: Result<Text, Error>, b: Result<Text, Error>): Result<Text, Error> {
    match a case Err(e) => Err(e) case Ok(t) => Prepend(t, b)
  }

  function SerValue(h: Heap, v: Value, seen: set<nat>): Result<Text, Error>
    decreases h.Keys - seen, 0, 0
  {
    if !v.Obj? then SerPrimitive(v)
    else match Refusal(h, v.ref, seen)
      case Some(e) => Err(e)
      case None =>
        Shrinks(h, v.ref, seen);
        Prepend(Opening(NewFrame(h, v.ref)), Rest(h, NewFrame(h, v.ref), seen + {v.ref}))
  }

  lemma Shrinks(h: Heap, r: nat, seen: set<nat>)
    requires r in h && r !in seen
    ensures h.Keys - (seen + {r}) < h.Keys - seen
  {
    assert r in h.Keys - seen && r !in h.Keys - (seen + {r});
  }

  /** The rest of a container's text, up to and including its closing bracket. */
  function Rest(h: Heap, f: Frame, seen: set<nat>): Result<Text, Error>
    decreases h.Keys - seen, Remaining(f), 1
  {
    match f
    case ArrFrame(_, elems, i) => if i >= |elems| then Ok([CLOSE_ARRAY]) else RestElems(h, f, seen)
    case RecFrame(_, keys, _, i, _) => if i >= |keys| then Ok([CLOSE_OBJECT]) else RestFields(h, f, seen)
  }

  function Remaining(f: Frame): nat {
    if f.ArrFrame? then (if f.index < |f.elems| then |f.elems| - f.index else 0)
    else (if f.index < |f.keys| then |f.keys| - f.index else 0)
  }

  function RestElems(h: Heap, f: Frame, seen: set<nat>): Result<Text, Error>
    requires f.ArrFrame? && f.index < |f.elems|
    decreases h.Keys - seen, Remaining(f), 0
  {
    Prepend(
      Separator(f.index == 0),
      Both(SerValue(h, Hole(f.elems[f.index]), seen), Rest(h, Advance(f, false), seen)))
  }

  /** Members whose value is undefined are skipped. */
  function RestFields(h: Heap, f: Frame, seen: set<nat>): Result<Text, Error>
    requires f.RecFrame? && f.index < |f.keys|
    decreases h.Keys - seen, Remaining(f), 0
  {
    var key := f.keys[f.index];
    var v := Field(f.fields, key);
    if v.Undef? then Rest(h, Advance(f, f.first), seen)
    else Prepend(
      Separator(f.first),
      Both(SerMember(h, key, v, seen), Rest(h, Advance(f, false), seen)))
  }

  /** A container is entered before its key is written, so a refusal comes first. */
  function SerMember(h: Heap, key: Text, v: Value, seen: set<nat>): Result<Text, Error>
    decreases h.Keys - seen, 0, 1
  {
    if v.Obj? && Refusal(h, v.ref, seen).Some? then Err(Refusal(h, v.ref, seen).value)
    else Both(SerString(key), Prepend([COLON], SerValue(h, v, seen)))
  }

  /** The text of a value. */
  function Serialize(h: Heap, v: Value): Result<Text, Error> {
    SerValue(h, v, {})
  }

  /* How much work is left, for termination. */

  function WorkOf(h: Heap, v: Value, seen: set<nat>): nat
    decreases h.Keys - seen, 0, 0
  {
    if !v.Obj? || Refusal(h, v.ref, seen).Some? then 0 else
      Shrinks(h, v.ref, seen);
      1 + Work(h, NewFrame(h, v.ref), seen + {v.ref})
  }

  function Work(h: Heap, f: Frame, seen: set<nat>): nat
    decreases h.Keys - seen, Remaining(f), 1
  {
    match f
    case ArrFrame(_, elems, i) =>
      if i >= |elems| then 1 else WorkOf(h, Hole(elems[i]), seen) + Work(h, Advance(f, false), seen)
    case RecFrame(_, keys, fields, i, first) =>
      if i >= |keys| then 1 else
        WorkOf(h, Field(fields, keys[i]), seen)
        + Work(h, Advance(f, first && Field(fields, keys[i]).Undef?), seen)
  }

  /* The loop. */

  method SerializeString(s: Text) returns (result: Result<Text, Error>)
    ensures result == SerString(s)
  {
    if |s| < 5000 {
      var slow := false;
      for i := 0 to |s|
        invariant !slow ==> forall k | 0 <= k < i :: !NeedsSlowPath(s[k])
      {
        if NeedsSlowPath(s[i]) {
          slow := true;
        }
      }
      if !slow {
        FastPathIsSlowPath(s);
        return Ok([QUOTE] + s + [QUOTE]);
      }
    }
    if !WellFormed(s) {
      return Err(LoneSurrogate);
    }
    return Ok(Quoted(s));
  }

  method SerializePrimitive(v: Value) returns (result: Result<Text, Error>)
    requires !v.Obj?
    ensures result == SerPrimitive(v)
  {
    match v {
      case Null => return Ok(NULL);
      case Bool(b) => return Ok(if b then TRUE else FALSE);
      case Num(n) => return Ok(n);
      case NotFinite => return Err(NotFiniteNumber);
      case Str(s) => result := SerializeString(s);
      case Undef => return Err(Undefined);
    }
  }

  /** How a pass over one container ends: complete, at a child container to enter, or by throwing. */
  datatype Move = Done | Push(child: Frame) | Throw(error: Error)

  /** The texts that the pass stands for, before and after. */
  ghost predicate Advanced(h: Heap, f: Frame, seen: set<nat>, result: Text, f': Frame, result': Text, move: Move) {
    match move
    case Done => Prepend(result, Rest(h, f, seen)) == Ok(result')
    case Throw(e) => Rest(h, f, seen) == Err(e)
    case Push(child) =>
      && f'.ref == f.ref && child.ref !in seen && child.ref in h && child == NewFrame(h, child.ref)
      && Prepend(result, Rest(h, f, seen)) == Prepend(result', Both(Rest(h, child, seen + {child.ref}), Rest(h, f', seen)))
      && Work(h, f, seen) > Work(h, f', seen) + Work(h, child, seen + {child.ref})
  }

  lemma PrependTwice(p: Text, q: Text, r: Result<Text, Error>)
    ensures Prepend(p, Prepend(q, r)) == Prepend(p + q, r)
  {
    if r.Ok? {
      assert p + (q + r.value) == (p + q) + r.value;
    }
  }

  lemma PrependBoth(p: Text, a: Result<Text, Error>, b: Result<Text, Error>)
    ensures Prepend(p, Both(a, b)) == Both(Prepend(p, a), b)
    ensures a.Ok? ==> Both(a, b) == Prepend(a.value, b)
  {
    if a.Ok? {
      PrependTwice(p, a.value, b);
    }
  }

  /** The inner loop over an array. */
  method AdvanceArray(h: Heap, start: Frame, seen: set<nat>, before: Text) returns (f: Frame, result: Text, move: Move)
    requires start.ArrFrame? && start.index <= |start.elems|
    ensures f.ArrFrame? && f.index <= |f.elems| && Advanced(h, start, seen, before, f, result, move)
  {
    f, result := start, before;
    while f.index < |f.elems|
      invariant f.ArrFrame? && f.ref == start.ref && f.elems == start.elems && f.index <= |f.elems|
      invariant Prepend(before, Rest(h, start, seen)) == Prepend(result, Rest(h, f, seen))
      invariant Work(h, start, seen) >= Work(h, f, seen)
      decreases |f.elems| - f.index
    {
      ghost var rest := Rest(h, Advance(f, false), seen);
      var val := Hole(f.elems[f.index]);
      var separator := Separator(f.index == 0);
      ElementStep(h, f, seen, result);
      f := Advance(f, false);
      if !val.Obj? {
        var text := SerializePrimitive(val);
        if text.Err? {
          return f, result, Throw(text.error);
        }
        result := result + separator + text.value;
      } else {
        if Refusal(h, val.ref, seen).Some? {
          return f, result, Throw(Refusal(h, val.ref, seen).value);
        }
        ChildStep(h, val.ref, seen, result + separator, rest);
        var child := NewFrame(h, val.ref);
        result := result + separator + Opening(child);
        return f, result, Push(child);
      }
    }
    return f, result + [CLOSE_ARRAY], Done;
  }

  /** One element of an array: what its text contributes. */
  lemma ElementStep(h: Heap, f: Frame, seen: set<nat>, result: Text)
    requires f.ArrFrame? && f.index < |f.elems|
    ensures var v, next := Hole(f.elems[f.index]), Advance(f, false);
            var p := result + Separator(f.index == 0);
            && Work(h, f, seen) == WorkOf(h, v, seen) + Work(h, next, seen)
            && Prepend(result, Rest(h, f, seen)) == Both(Prepend(p, SerValue(h, v, seen)), Rest(h, next, seen))
  {
    var v, next := Hole(f.elems[f.index]), Advance(f, false);
    var s, r := SerValue(h, v, seen), Rest(h, next, seen);
    assert Rest(h, f, seen) == Prepend(Separator(f.index == 0), Both(s, r));
    hide Rest, SerValue, Both, Prepend;
    PrependTwice(result, Separator(f.index == 0), Both(s, r));
    PrependBoth(result + Separator(f.index == 0), s, r);
  }

  /** Entering a child: its opening bracket now, the rest of it before the rest of the parent. */
  lemma ChildStep(h: Heap, r: nat, seen: set<nat>, p: Text, rest: Result<Text, Error>)
    requires Refusal(h, r, seen).None?
    ensures var child := NewFrame(h, r);
            && Both(Prepend(p, SerValue(h, Obj(r), seen)), rest)
               == Prepend(p + Opening(child), Both(Rest(h, child, seen + {r}), rest))
            && WorkOf(h, Obj(r), seen) == 1 + Work(h, child, seen + {r})
  {
    var child := NewFrame(h, r);
    var inner := Rest(h, child, seen + {r});
    assert SerValue(h, Obj(r), seen) == Prepend(Opening(child), inner);
    hide Rest, SerValue, Both, Prepend;
    PrependTwice(p, Opening(child), inner);
    PrependBoth(p + Opening(child), inner, rest);
  }

  /** One member of an object. */
  lemma MemberStep(h: Heap, f: Frame, seen: set<nat>, result: Text)
    requires f.RecFrame? && f.index < |f.keys|
    ensures var key := f.keys[f.index];
            var v := Field(f.fields, key);
            var next := Advance(f, f.first && v.Undef?);
            && Work(h, f, seen) == WorkOf(h, v, seen) + Work(h, next, seen)
            && (v.Undef? ==> Rest(h, f, seen) == Rest(h, next, seen))
            && (!v.Undef? ==>
                  Prepend(result, Rest(h, f, seen))
                  == Both(Prepend(result + Separator(f.first), SerMember(h, key, v, seen)), Rest(h, next, seen)))
  {
    var key := f.keys[f.index];
    var v := Field(f.fields, key);
    var next := Advance(f, f.first && v.Undef?);
    if !v.Undef? {
      var s, r := SerMember(h, key, v, seen), Rest(h, next, seen);
      assert Rest(h, f, seen) == Prepend(Separator(f.first), Both(s, r));
      hide Rest, SerMember, Both, Prepend;
      PrependTwice(result, Separator(f.first), Both(s, r));
      PrependBoth(result + Separator(f.first), s, r);
    }
  }

  /** The key and the colon are written before the value. */
  lemma KeyStep(h: Heap, key: Text, v: Value, seen: set<nat>, p: Text, rest: Result<Text, Error>)
    requires v.Obj? ==> Refusal(h, v.ref, seen).None?
    ensures var k := SerString(key);
            && (k.Err? ==> SerMember(h, key, v, seen) == Err(k.error))
            && (k.Ok? ==> Both(Prepend(p, SerMember(h, key, v, seen)), rest)
                          == Both(Prepend(p + k.value + [COLON], SerValue(h, v, seen)), rest))
  {
    var k := SerString(key);
    if k.Ok? {
      var s := SerValue(h, v, seen);
      assert SerMember(h, key, v, seen) == Prepend(k.value, Prepend([COLON], s));
      hide SerValue, Prepend, Both, SerMember, SerString;
      PrependTwice(k.value, [COLON], s);
      PrependTwice(p, k.value + [COLON], s);
      assert p + (k.value + [COLON]) == p + k.value + [COLON];
    }
  }

  /** The inner loop over the sorted keys of an object. */
  method AdvanceObject(h: Heap, start: Frame, seen: set<nat>, before: Text) returns (f: Frame, result: Text, move: Move)
    requires start.RecFrame? && start.index <= |start.keys|
    ensures f.RecFrame? && f.index <= |f.keys| && Advanced(h, start, seen, before, f, result, move)
  {
    f, result := start, before;
    while f.index < |f.keys|
      invariant f.RecFrame? && f.ref == start.ref && f.index <= |f.keys|
      invariant Prepend(before, Rest(h, start, seen)) == Prepend(result, Rest(h, f, seen))
      invariant Work(h, start, seen) >= Work(h, f, seen)
      decreases |f.keys| - f.index
    {
      hide Rest, Work, WorkOf, SerMember, SerValue, SerString;
      MemberStep(h, f, seen, result);
      var key := f.keys[f.index];
      var val := Field(f.fields, key);
      var separator := Separator(f.first);
      f := Advance(f, f.first && val.Undef?);
      if val.Undef? {
        continue;
      }
      var outcome;
      result, outcome := WriteMemberStart(h, key, val, seen, result + separator, Rest(h, f, seen));
      if outcome.Some? {
        return f, result, outcome.value;
      }
    }
    return f, result + [CLOSE_OBJECT], Done;
  }

  /** One member that is present: all of it, or all up to the opening bracket of a child container. */
  method WriteMemberStart(h: Heap, key: Text, val: Value, seen: set<nat>, before: Text, ghost rest: Result<Text, Error>)
    returns (result: Text, outcome: Option<Move>)
    requires !val.Undef?
    ensures outcome.None? ==> Both(Prepend(before, SerMember(h, key, val, seen)), rest) == Prepend(result, rest)
    ensures outcome.Some? ==> !outcome.value.Done?
    ensures outcome.Some? && outcome.value.Throw? ==> SerMember(h, key, val, seen) == Err(outcome.value.error)
    ensures outcome.Some? && outcome.value.Push? ==>
              var child := outcome.value.child;
              && child.ref !in seen && child.ref in h && child == NewFrame(h, child.ref)
              && WorkOf(h, val, seen) == 1 + Work(h, child, seen + {child.ref})
              && Both(Prepend(before, SerMember(h, key, val, seen)), rest)
                 == Prepend(result, Both(Rest(h, child, seen + {child.ref}), rest))
  {
    if val.Obj? && Refusal(h, val.ref, seen).Some? {
      return before, Some(Throw(Refusal(h, val.ref, seen).value));
    }
    KeyStep(h, key, val, seen, before, rest);
    hide SerMember, Rest, Work, WorkOf, SerString;
    var k := SerializeString(key);
    if k.Err? {
      return before, Some(Throw(k.error));
    }
    result := before + k.value + [COLON];
    if !val.Obj? {
      var text := SerializePrimitive(val);
      if text.Err? {
        return result, Some(Throw(text.error));
      }
      PrependBoth(result, text, rest);
      return result + text.value, None;
    }
    hide SerValue;
    ChildStep(h, val.ref, seen, result, rest);
    var child := NewFrame(h, val.ref);
    return result + Opening(child), Some(Push(child));
  }

  /** `Set` of the containers on the stack: the current path. */
  function Refs(stack: seq<Frame>): set<nat> {
    set f | f in stack :: f.ref
  }

  predicate DistinctRefs(stack: seq<Frame>) {
    forall i, j | 0 <= i < j < |stack| :: stack[i].ref != stack[j].ref
  }

  /** The text that a stack of unfinished containers still stands for. */
  function Finish(h: Heap, stack: seq<Frame>, result: Text): Result<Text, Error>
    decreases |stack|
  {
    if stack == [] then Ok(result) else
      var n := |stack| - 1;
      match Rest(h, stack[n], Refs(stack))
      case Err(e) => Err(e)
      case Ok(t) => Finish(h, stack[..n], result + t)
  }

  function TotalWork(h: Heap, stack: seq<Frame>): nat
    decreases |stack|
  {
    if stack == [] then 0 else
      TotalWork(h, stack[..|stack| - 1]) + Work(h, stack[|stack| - 1], Refs(stack))
  }

  predicate FrameOk(f: Frame) {
    f.index <= if f.ArrFrame? then |f.elems| else |f.keys|
  }

  lemma RefsOfPush(stack: seq<Frame>, f: Frame)
    ensures Refs(stack + [f]) == Refs(stack) + {f.ref}
  {
    assert forall g :: g in stack + [f] <==> g in stack || g == f;
  }

  /** The top frame is replaced by a later one of the same container, and a child goes on top. */
  lemma PushStep(h: Heap, stack: seq<Frame>, top: Frame, child: Frame, before: Text, after: Text)
    requires stack != [] && DistinctRefs(stack)
    requires Advanced(h, stack[|stack| - 1], Refs(stack), before, top, after, Push(child))
    ensures var s := stack[..|stack| - 1] + [top] + [child];
            && DistinctRefs(s) && Refs(s) == Refs(stack) + {child.ref}
            && Finish(h, s, after) == Finish(h, stack, before) && TotalWork(h, s) < TotalWork(h, stack)
  {
    var f, below := stack[|stack| - 1], stack[..|stack| - 1];
    assert stack == below + [f];
    PushRefs(below, f, top, child);
    hide Refs, Rest, Work;
    PushText(h, below, f, top, child, before, after);
    PushWork(h, below, f, top, child);
  }

  lemma PushRefs(below: seq<Frame>, f: Frame, top: Frame, child: Frame)
    requires DistinctRefs(below + [f]) && top.ref == f.ref && child.ref !in Refs(below + [f])
    ensures DistinctRefs(below + [top] + [child])
    ensures Refs(below + [top]) == Refs(below + [f]) && Refs(below + [top] + [child]) == Refs(below + [f]) + {child.ref}
  {
    RefsOfPush(below, f);
    RefsOfPush(below, top);
    RefsOfPush(below + [top], child);
    ChildIsNew(below + [f], child.ref);
    hide Refs;
    var s, was := below + [top] + [child], below + [f];
    forall i | 0 <= i < |was|
      ensures s[i].ref == was[i].ref
    {
    }
    forall i, j | 0 <= i < j < |s|
      ensures s[i].ref != s[j].ref
    {
      assert s[i].ref == was[i].ref;
      assert j < |was| ==> s[j].ref == was[j].ref;
    }
  }

  lemma PushText(h: Heap, below: seq<Frame>, f: Frame, top: Frame, child: Frame, before: Text, after: Text)
    requires Refs(below + [top]) == Refs(below + [f]) && Refs(below + [top] + [child]) == Refs(below + [f]) + {child.ref}
    requires Prepend(before, Rest(h, f, Refs(below + [f])))
          == Prepend(after, Both(Rest(h, child, Refs(below + [f]) + {child.ref}), Rest(h, top, Refs(below + [f]))))
    ensures Finish(h, below + [top] + [child], after) == Finish(h, below + [f], before)
  {
    hide Refs, Rest, Finish, Prepend, Both;
    FinishTwo(h, below, top, child, after);
    FinishOne(h, below, f, before);
  }

  lemma PushWork(h: Heap, below: seq<Frame>, f: Frame, top: Frame, child: Frame)
    requires Refs(below + [top]) == Refs(below + [f]) && Refs(below + [top] + [child]) == Refs(below + [f]) + {child.ref}
    requires Work(h, f, Refs(below + [f])) > Work(h, top, Refs(below + [f])) + Work(h, child, Refs(below + [f]) + {child.ref})
    ensures TotalWork(h, below + [top] + [child]) < TotalWork(h, below + [f])
  {
    hide Refs, Work;
    WorkOfPush(h, below, f);
    WorkOfPush(h, below, top);
    WorkOfPush(h, below + [top], child);
  }

  lemma WorkOfPush(h: Heap, below: seq<Frame>, f: Frame)
    ensures TotalWork(h, below + [f]) == TotalWork(h, below) + Work(h, f, Refs(below + [f]))
  {
    hide Refs, Work;
    assert (below + [f])[..|below|] == below;
  }

  lemma ChildIsNew(stack: seq<Frame>, r: nat)
    requires r !in Refs(stack)
    ensures forall i | 0 <= i < |stack| :: stack[i].ref != r
  {
    forall i | 0 <= i < |stack|
      ensures stack[i].ref != r
    {
      assert stack[i] in stack;
    }
  }

  lemma FinishOne(h: Heap, below: seq<Frame>, f: Frame, result: Text)
    ensures Finish(h, below + [f], result)
         == match Prepend(result, Rest(h, f, Refs(below + [f]))) case Err(e) => Err(e) case Ok(t) => Finish(h, below, t)
  {
    hide Rest, Refs;
    assert (below + [f])[..|below|] == below;
  }

  lemma FinishTwo(h: Heap, below: seq<Frame>, f: Frame, g: Frame, result: Text)
    ensures Finish(h, below + [f] + [g], result)
         == match Prepend(result, Both(Rest(h, g, Refs(below + [f] + [g])), Rest(h, f, Refs(below + [f]))))
            case Err(e) => Err(e)
            case Ok(t) => Finish(h, below, t)
  {
    hide Rest, Refs, Finish;
    var s := below + [f] + [g];
    var a, b := Rest(h, g, Refs(s)), Rest(h, f, Refs(below + [f]));
    FinishOne(h, below + [f], g, result);
    if a.Ok? {
      FinishOne(h, below, f, result + a.value);
      PrependTwice(result, a.value, b);
    }
  }

  /** `seen` is exactly the path from the root to the container being written. */
  predicate OnPath(stack: seq<Frame>, seen: set<nat>) {
    seen == Refs(stack) && DistinctRefs(stack) && forall i | 0 <= i < |stack| :: FrameOk(stack[i])
  }

  /** One turn of the outer loop: finish the container on top, or stop at a child and put it on top. */
  method Turn(h: Heap, stack: seq<Frame>, seen: set<nat>, text: Text)
    returns (stack': seq<Frame>, seen': set<nat>, text': Text, error: Option<Error>)
    requires stack != [] && OnPath(stack, seen)
    ensures error.Some? ==> Finish(h, stack, text) == Err(error.value)
    ensures error.None? ==>
              && OnPath(stack', seen') && TotalWork(h, stack') < TotalWork(h, stack)
              && Finish(h, stack', text') == Finish(h, stack, text)
  {
    hide Rest, Work, Finish, TotalWork, Refs;
    stack', seen', error := stack, seen, None;
    var frame := stack[|stack| - 1];
    var next, move;
    if frame.ArrFrame? {
      next, text', move := AdvanceArray(h, frame, seen, text);
    } else {
      next, text', move := AdvanceObject(h, frame, seen, text);
    }
    match move {
      case Throw(e) =>
        ThrowStep(h, stack, text, e);
        error := Some(e);
      case Push(child) =>
        PushStep(h, stack, next, child, text, text');
        stack' := stack[..|stack| - 1] + [next] + [child];
        seen' := seen + {child.ref};
        FramesOk(stack[..|stack| - 1], next, child);
      case Done =>
        PopStep(h, stack, text, text');
        stack' := stack[..|stack| - 1];
        seen' := seen - {frame.ref};
    }
  }

  lemma FramesOk(below: seq<Frame>, next: Frame, child: Frame)
    requires (forall i | 0 <= i < |below| :: FrameOk(below[i])) && FrameOk(next) && child.index == 0
    ensures var s := below + [next] + [child]; forall i | 0 <= i < |s| :: FrameOk(s[i])
  {
  }

  /** The loop with its explicit stack computes the recursive serializer's result, on every object graph. */
  method Canonicalize(h: Heap, v: Value) returns (result: Result<Text, Error>)
    ensures result == Serialize(h, v)
  {
    if !v.Obj? {
      result := SerializePrimitive(v);
      return;
    }
    var seen: set<nat> := {};
    if Refusal(h, v.ref, seen).Some? {
      return Err(Refusal(h, v.ref, seen).value);
    }
    seen := seen + {v.ref};
    var root := NewFrame(h, v.ref);
    var text := Opening(root);
    var stack := [root];
    StartStep(h, v.ref);
    hide Rest, Work, Finish, TotalWork, Refs, SerValue;
    while stack != []
      invariant OnPath(stack, seen)
      invariant Finish(h, stack, text) == Serialize(h, v)
      decreases TotalWork(h, stack)
    {
      hide OnPath, Serialize;
      var error;
      stack, seen, text, error := Turn(h, stack, seen, text);
      if error.Some? {
        return Err(error.value);
      }
    }
    FinishNone(h, text);
    return Ok(text);
  }

  lemma FinishNone(h: Heap, text: Text)
    ensures Finish(h, [], text) == Ok(text)
  {
  }

  lemma StartStep(h: Heap, r: nat)
    requires r in h
    ensures var root := NewFrame(h, r);
            Refs([root]) == {r} && FrameOk(root) && Finish(h, [root], Opening(root)) == Serialize(h, Obj(r))
  {
    var root := NewFrame(h, r);
    assert Refs([root]) == {r};
    assert {} + {r} == {r};
    hide Rest, Refs;
    FinishOne(h, [], root, Opening(root));
    assert [] + [root] == [root];
  }

  lemma ThrowStep(h: Heap, stack: seq<Frame>, text: Text, e: Error)
    requires stack != [] && Rest(h, stack[|stack| - 1], Refs(stack)) == Err(e)
    ensures Finish(h, stack, text) == Err(e)
  {
    hide Rest, Refs;
  }

  lemma PopStep(h: Heap, stack: seq<Frame>, before: Text, after: Text)
    requires stack != [] && DistinctRefs(stack)
    requires Prepend(before, Rest(h, stack[|stack| - 1], Refs(stack))) == Ok(after)
    ensures var s := stack[..|stack| - 1];
            && DistinctRefs(s) && Refs(s) == Refs(stack) - {stack[|stack| - 1].ref}
            && Finish(h, s, after) == Finish(h, stack, before) && TotalWork(h, s) < TotalWork(h, stack)
  {
    var n, f := |stack| - 1, stack[|stack| - 1];
    var below := stack[..n];
    assert stack == below + [f];
    RefsOfPush(below, f);
    assert f.ref !in Refs(below) by {
      forall g | g in below
        ensures g.ref != f.ref
      {
        var i :| 0 <= i < n && below[i] == g;
        assert stack[i] == g;
      }
    }
    WorkIsPositive(h, f, Refs(stack));
    hide Refs, Rest, Work;
    FinishOne(h, below, f, before);
  }

  lemma {:induction false} WorkIsPositive(h: Heap, f: Frame, seen: set<nat>)
    ensures Work(h, f, seen) >= 1
    decreases Remaining(f)
  {
    hide WorkOf;
    if Remaining(f) > 0 {
      WorkIsPositive(h, Advance(f, if f.ArrFrame? then false else f.first && Field(f.fields, f.keys[f.index]).Undef?), seen);
    }
  }
}
