/** Canonical JSON texts as sequences of UTF-16 code units, and why a text determines the value it stands for. */
module JsonText {
  type Unit = i: int | 0 <= i < 0x1_0000
  type Text = seq<Unit>

  const QUOTE: Unit := 34
  const COMMA: Unit := 44
  const COLON: Unit := 58
  const OPEN_ARRAY: Unit := 91
  const BACKSLASH: Unit := 92
  const CLOSE_ARRAY: Unit := 93
  const OPEN_OBJECT: Unit := 123
  const CLOSE_OBJECT: Unit := 125
  const NULL: Text := [110, 117, 108, 108]
  const TRUE: Text := [116, 114, 117, 101]
  const FALSE: Text := [102, 97, 108, 115, 101]

  /* Strings. */

  function Hex(d: int): Unit
    requires 0 <= d < 16
  {
    if d < 10 then 48 + d else 87 + d
  }

  function UnHex(u: Unit): int {
    if 48 <= u <= 57 then u - 48 else if 97 <= u <= 102 then u - 87 else 0
  }

  /** How `JSON.stringify` writes one code unit of a well-formed string. */
  function Escape(u: Unit): Text {
    if u == QUOTE then [BACKSLASH, QUOTE]
    else if u == BACKSLASH then [BACKSLASH, BACKSLASH]
    else if u == 8 then [BACKSLASH, 98]
    else if u == 9 then [BACKSLASH, 116]
    else if u == 10 then [BACKSLASH, 110]
    else if u == 12 then [BACKSLASH, 102]
    else if u == 13 then [BACKSLASH, 114]
    else if u < 32 then [BACKSLASH, 117, 48, 48, Hex(u / 16), Hex(u % 16)]
    else [u]
  }

  function Escaped(s: Text): Text {
    if s == [] then [] else Escape(s[0]) + Escaped(s[1..])
  }

  function Quoted(s: Text): Text {
    [QUOTE] + Escaped(s) + [QUOTE]
  }

  predicate IsHigh(u: Unit) {
    0xD800 <= u <= 0xDBFF
  }

  predicate IsLow(u: Unit) {
    0xDC00 <= u <= 0xDFFF
  }

  /** No lone surrogate. */
  predicate WellFormed(s: Text) {
    forall i | 0 <= i < |s| :: NotAlone(s, i)
  }

  predicate NotAlone(s: Text, i: nat)
    requires i < |s|
  {
    && (IsHigh(s[i]) ==> i + 1 < |s| && IsLow(s[i + 1]))
    && (IsLow(s[i]) ==> i > 0 && IsHigh(s[i - 1]))
  }

  /** A quote, a backslash, a control character or a surrogate. */
  predicate NeedsSlowPath(u: Unit) {
    u == QUOTE || u == BACKSLASH || u < 32 || IsHigh(u) || IsLow(u)
  }

  /** The fast path skips the escaping, and the well-formedness test, without changing anything. */
  lemma {:induction false} FastPathIsSlowPath(s: Text)
    requires forall i | 0 <= i < |s| :: !NeedsSlowPath(s[i])
    ensures Escaped(s) == s && WellFormed(s)
  {
    if s != [] {
      FastPathIsSlowPath(s[1..]);
      assert Escape(s[0]) == [s[0]];
    }
  }

  /** The unit that an escape stands for, and how long the escape is. */
  function DecodeOne(t: Text): (Unit, nat)
    requires t != []
  {
    if t[0] != BACKSLASH || |t| < 2 then (t[0], 1)
    else if t[1] == 98 then (8, 2)
    else if t[1] == 116 then (9, 2)
    else if t[1] == 110 then (10, 2)
    else if t[1] == 102 then (12, 2)
    else if t[1] == 114 then (13, 2)
    else if t[1] == 117 && |t| >= 6 then (16 * UnHex(t[4]) + UnHex(t[5]), 6)
    else (t[1], 2)
  }

  lemma DecodeEscape(u: Unit, rest: Text)
    ensures Escape(u) != [] && DecodeOne(Escape(u) + rest) == (u, |Escape(u)|)
  {
    var t := Escape(u) + rest;
    assert t[..|Escape(u)|] == Escape(u);
  }

  lemma EscapeUnique(u: Unit, v: Unit, p: Text, q: Text)
    requires Escape(u) + p == Escape(v) + q
    ensures u == v && p == q
  {
    DecodeEscape(u, p);
    DecodeEscape(v, q);
    hide Escape, DecodeOne;
    assert (Escape(u) + p)[|Escape(u)|..] == p && (Escape(v) + q)[|Escape(v)|..] == q;
  }

  /** The closing quote comes first exactly when the string is empty. */
  lemma EscapedStart(s: Text, x: Text)
    ensures var t := Escaped(s) + ([QUOTE] + x); t != [] && (t[0] == QUOTE <==> s == [])
  {
    if s != [] {
      assert Escape(s[0]) != [] && Escape(s[0])[0] != QUOTE;
      hide Escape;
    }
  }

  lemma {:induction false} EscapedUnique(s: Text, t: Text, x: Text, y: Text)
    requires Escaped(s) + ([QUOTE] + x) == Escaped(t) + ([QUOTE] + y)
    ensures s == t && x == y
  {
    EscapedStart(s, x);
    EscapedStart(t, y);
    hide Escape;
    if s == [] {
      assert Escaped(s) + ([QUOTE] + x) == [QUOTE] + x && Escaped(t) + ([QUOTE] + y) == [QUOTE] + y;
      assert x == ([QUOTE] + x)[1..] && y == ([QUOTE] + y)[1..];
    } else {
      var p, q := Escaped(s[1..]) + ([QUOTE] + x), Escaped(t[1..]) + ([QUOTE] + y);
      assert Escaped(s) + ([QUOTE] + x) == Escape(s[0]) + p && Escaped(t) + ([QUOTE] + y) == Escape(t[0]) + q;
      EscapeUnique(s[0], t[0], p, q);
      EscapedUnique(s[1..], t[1..], x, y);
      assert s == [s[0]] + s[1..] && t == [t[0]] + t[1..];
    }
  }

  /** A quoted string can be read off the front of a text in one way only. */
  lemma QuotedUnique(s: Text, t: Text, x: Text, y: Text)
    requires Quoted(s) + x == Quoted(t) + y
    ensures s == t && x == y
  {
    hide Escaped;
    assert Quoted(s) + x == [QUOTE] + (Escaped(s) + ([QUOTE] + x));
    assert Quoted(t) + y == [QUOTE] + (Escaped(t) + ([QUOTE] + y));
    assert ([QUOTE] + (Escaped(s) + ([QUOTE] + x)))[1..] == Escaped(s) + ([QUOTE] + x);
    assert ([QUOTE] + (Escaped(t) + ([QUOTE] + y)))[1..] == Escaped(t) + ([QUOTE] + y);
    EscapedUnique(s, t, x, y);
  }

  /* Numbers, by the text `JSON.stringify` gives them. */

  predicate NumberUnit(u: Unit) {
    48 <= u <= 57 || u == 45 || u == 43 || u == 46 || u == 101
  }

  predicate IsNumber(t: Text) {
    t != [] && (48 <= t[0] <= 57 || t[0] == 45) && NumberUnits(t)
  }

  type Number = t: Text | IsNumber(t) witness [48]

  /** What may follow a value inside a text. */
  predicate Boundary(x: Text) {
    x == [] || x[0] == COMMA || x[0] == CLOSE_ARRAY || x[0] == CLOSE_OBJECT
  }

  predicate NumberUnits(t: Text) {
    forall i | 0 <= i < |t| :: NumberUnit(t[i])
  }

  lemma NumberStart(m: Text, x: Text)
    requires NumberUnits(m) && Boundary(x)
    ensures m != [] <==> m + x != [] && NumberUnit((m + x)[0])
  {
    if m == [] {
      assert m + x == x;
    }
  }

  /** A number can be read off the front of a text in one way only, given what may follow it. */
  lemma {:induction false} NumberUnique(m: Text, n: Text, x: Text, y: Text)
    requires NumberUnits(m) && NumberUnits(n) && Boundary(x) && Boundary(y) && m + x == n + y
    ensures m == n && x == y
  {
    NumberStart(m, x);
    NumberStart(n, y);
    if m == [] {
      assert m + x == x && n + y == y;
    } else {
      assert m[0] == (m + x)[0] == (n + y)[0] == n[0];
      assert m[1..] + x == (m + x)[1..] == (n + y)[1..] == n[1..] + y;
      NumberUnique(m[1..], n[1..], x, y);
      assert m == [m[0]] + m[1..] && n == [n[0]] + n[1..];
    }
  }

  /* Values as trees. */

  /** A plain JSON value; object members are listed in the order they are written. */
  datatype Tree =
    | TNull | TBool(b: bool) | TNumber(n: Number) | TString(s: Text) | TArray(elems: seq<Tree>) | TObject(members: seq<Member>)

  datatype Member = Member(key: Text, value: Tree)

  function Write(t: Tree): Text
    decreases t
  {
    match t
    case TNull => NULL
    case TBool(b) => if b then TRUE else FALSE
    case TNumber(n) => n
    case TString(s) => Quoted(s)
    case TArray(elems) => [OPEN_ARRAY] + WriteElems(elems, true)
    case TObject(members) => [OPEN_OBJECT] + WriteMembers(members, true)
  }

  function Separator(first: bool): Text {
    if first then [] else [COMMA]
  }

  /** The rest of an array, up to and including its closing bracket. */
  function WriteElems(elems: seq<Tree>, first: bool): Text
    decreases elems
  {
    if elems == [] then [CLOSE_ARRAY] else Separator(first) + Write(elems[0]) + WriteElems(elems[1..], false)
  }

  function WriteMembers(members: seq<Member>, first: bool): Text
    decreases members
  {
    if members == [] then [CLOSE_OBJECT] else Separator(first) + WriteMember(members[0]) + WriteMembers(members[1..], false)
  }

  function WriteMember(m: Member): Text
    decreases m
  {
    Quoted(m.key) + [COLON] + Write(m.value)
  }

  /** Which kind of value a text starts with. */
  function KindOf(u: Unit): nat {
    if u == 110 then 0 else if u == 116 then 1 else if u == 102 then 2
    else if 48 <= u <= 57 || u == 45 then 3
    else if u == QUOTE then 4 else if u == OPEN_ARRAY then 5 else if u == OPEN_OBJECT then 6 else 7
  }

  function Kind(t: Tree): nat {
    match t
    case TNull => 0
    case TBool(b) => if b then 1 else 2
    case TNumber(_) => 3
    case TString(_) => 4
    case TArray(_) => 5
    case TObject(_) => 6
  }

  lemma WriteStart(t: Tree, x: Text)
    ensures Write(t) != [] && (Write(t) + x)[0] == Write(t)[0] && KindOf(Write(t)[0]) == Kind(t)
  {
    hide WriteElems, WriteMembers, Escaped;
    if t.TNumber? {
      assert IsNumber(t.n);
    }
  }

  /** No two values have texts that agree up to a boundary, so the canonical text determines the value. */
  lemma {:induction false} WriteUnique(a: Tree, b: Tree, x: Text, y: Text)
    requires Boundary(x) && Boundary(y) && Write(a) + x == Write(b) + y
    ensures a == b && x == y
    decreases a
  {
    WriteStart(a, x);
    WriteStart(b, y);
    assert Kind(a) == Kind(b);
    match a {
      case TNull => Cut(NULL, x, y);
      case TBool(p) => Cut(if p then TRUE else FALSE, x, y);
      case TNumber(n) => NumberUnique(n, b.n, x, y);
      case TString(s) => QuotedUnique(s, b.s, x, y);
      case TArray(elems) =>
        hide WriteElems;
        CutStart(OPEN_ARRAY, WriteElems(elems, true), WriteElems(b.elems, true), x, y);
        ElemsUnique(elems, b.elems, true, x, y);
      case TObject(members) =>
        hide WriteMembers;
        CutStart(OPEN_OBJECT, WriteMembers(members, true), WriteMembers(b.members, true), x, y);
        MembersUnique(members, b.members, true, x, y);
    }
  }

  lemma CutStart(u: Unit, s: Text, t: Text, x: Text, y: Text)
    requires [u] + s + x == [u] + t + y
    ensures s + x == t + y
  {
    assert [u] + s + x == [u] + (s + x) && [u] + t + y == [u] + (t + y);
    Cut([u], s + x, t + y);
  }

  /* The JSON grammar (RFC 8259, sections 2 to 7), unit by unit. */

  lemma WritesArrays(x: Tree, y: Tree)
    ensures Write(TNull) == [110, 117, 108, 108] && Write(TBool(true)) == [116, 114, 117, 101]
    ensures Write(TBool(false)) == [102, 97, 108, 115, 101]
    ensures Write(TArray([])) == [91, 93] && Write(TArray([x, y])) == [91] + Write(x) + [44] + Write(y) + [93]
  {
    TwoElems(x, y);
    hide WriteElems;
    assert [91] + (Write(x) + [44] + Write(y) + [93]) == [91] + Write(x) + [44] + Write(y) + [93];
  }

  lemma WritesObjects(x: Tree, y: Tree, j: Text, k: Text)
    ensures Write(TObject([])) == [123, 125]
    ensures Write(TObject([Member(j, x), Member(k, y)]))
         == [123] + ([34] + Escaped(j) + [34] + [58] + Write(x)) + [44] + ([34] + Escaped(k) + [34] + [58] + Write(y)) + [125]
  {
    TwoMembers(Member(j, x), Member(k, y));
    hide WriteMembers, Escaped;
    var m, n := WriteMember(Member(j, x)), WriteMember(Member(k, y));
    assert m == [34] + Escaped(j) + [34] + [58] + Write(x);
    assert n == [34] + Escaped(k) + [34] + [58] + Write(y);
    assert [123] + (m + [44] + n + [125]) == [123] + m + [44] + n + [125];
  }

  lemma TwoElems(x: Tree, y: Tree)
    ensures WriteElems([], true) == [93] && WriteElems([x, y], true) == Write(x) + [44] + Write(y) + [93]
  {
    hide Write;
    assert [x, y][1..] == [y] && [y][1..] == [];
    assert WriteElems([y], false) == [44] + Write(y) + [93];
  }

  lemma TwoMembers(m: Member, n: Member)
    ensures WriteMembers([], true) == [125] && WriteMembers([m, n], true) == WriteMember(m) + [44] + WriteMember(n) + [125]
  {
    hide WriteMember;
    assert [m, n][1..] == [n] && [n][1..] == [];
    assert WriteMembers([n], false) == [44] + WriteMember(n) + [125];
  }

  lemma Cut(p: Text, x: Text, y: Text)
    requires p + x == p + y
    ensures x == y
  {
    assert x == (p + x)[|p|..] && y == (p + y)[|p|..];
  }

  lemma WriteElemsStart(elems: seq<Tree>, first: bool, x: Text)
    ensures var t := WriteElems(elems, first) + x;
            t != [] && (t[0] == CLOSE_ARRAY <==> elems == []) && (elems != [] && !first ==> t[0] == COMMA)
    ensures Boundary(WriteElems(elems, false) + x)
  {
    if elems != [] {
      WriteStart(elems[0], WriteElems(elems[1..], false) + x);
      hide Write;
    }
  }

  lemma {:induction false} ElemsUnique(a: seq<Tree>, b: seq<Tree>, first: bool, x: Text, y: Text)
    requires WriteElems(a, first) + x == WriteElems(b, first) + y
    ensures a == b && x == y
    decreases a
  {
    hide *;
    WriteElemsStart(a, first, x);
    WriteElemsStart(b, first, y);
    if a == [] {
      WriteElemsEnd(x);
      WriteElemsEnd(y);
      Cut([CLOSE_ARRAY], x, y);
    } else {
      var p, q := WriteElems(a[1..], false) + x, WriteElems(b[1..], false) + y;
      WriteElemsStart(a[1..], false, x);
      WriteElemsStart(b[1..], false, y);
      WriteElemsUnfold(a, first, x);
      WriteElemsUnfold(b, first, y);
      Cut(Separator(first), Write(a[0]) + p, Write(b[0]) + q);
      WriteUnique(a[0], b[0], p, q);
      ElemsUnique(a[1..], b[1..], false, x, y);
      assert a == [a[0]] + a[1..] && b == [b[0]] + b[1..];
    }
  }

  lemma WriteElemsEnd(x: Text)
    ensures WriteElems([], true) + x == [CLOSE_ARRAY] + x && WriteElems([], false) + x == [CLOSE_ARRAY] + x
  {
  }

  lemma WriteElemsUnfold(s: seq<Tree>, first: bool, x: Text)
    requires s != []
    ensures WriteElems(s, first) + x == Separator(first) + (Write(s[0]) + (WriteElems(s[1..], false) + x))
  {
    hide Write;
  }

  lemma WriteMembersStart(members: seq<Member>, first: bool, x: Text)
    ensures var t := WriteMembers(members, first) + x;
            t != [] && (t[0] == CLOSE_OBJECT <==> members == []) && (members != [] && !first ==> t[0] == COMMA)
    ensures Boundary(WriteMembers(members, false) + x)
  {
    hide Write, Escaped;
  }

  lemma {:induction false} MembersUnique(a: seq<Member>, b: seq<Member>, first: bool, x: Text, y: Text)
    requires WriteMembers(a, first) + x == WriteMembers(b, first) + y
    ensures a == b && x == y
    decreases a
  {
    hide *;
    WriteMembersStart(a, first, x);
    WriteMembersStart(b, first, y);
    if a == [] {
      WriteMembersEnd(x);
      WriteMembersEnd(y);
      Cut([CLOSE_OBJECT], x, y);
    } else {
      var p, q := WriteMembers(a[1..], false) + x, WriteMembers(b[1..], false) + y;
      WriteMembersStart(a[1..], false, x);
      WriteMembersStart(b[1..], false, y);
      WriteMembersUnfold(a, first, x);
      WriteMembersUnfold(b, first, y);
      Cut(Separator(first), WriteMember(a[0]) + p, WriteMember(b[0]) + q);
      MemberUnique(a[0], b[0], p, q);
      MembersUnique(a[1..], b[1..], false, x, y);
      assert a == [a[0]] + a[1..] && b == [b[0]] + b[1..];
    }
  }

  lemma WriteMembersEnd(x: Text)
    ensures WriteMembers([], true) + x == [CLOSE_OBJECT] + x && WriteMembers([], false) + x == [CLOSE_OBJECT] + x
  {
  }

  lemma WriteMembersUnfold(s: seq<Member>, first: bool, x: Text)
    requires s != []
    ensures WriteMembers(s, first) + x == Separator(first) + (WriteMember(s[0]) + (WriteMembers(s[1..], false) + x))
  {
    hide WriteMember;
  }

  lemma {:induction false} MemberUnique(a: Member, b: Member, x: Text, y: Text)
    requires Boundary(x) && Boundary(y) && WriteMember(a) + x == WriteMember(b) + y
    ensures a == b && x == y
    decreases a
  {
    hide Quoted, Write;
    var p, q := Write(a.value) + x, Write(b.value) + y;
    assert WriteMember(a) + x == Quoted(a.key) + ([COLON] + p);
    assert WriteMember(b) + y == Quoted(b.key) + ([COLON] + q);
    QuotedUnique(a.key, b.key, [COLON] + p, [COLON] + q);
    Cut([COLON], p, q);
    WriteUnique(a.value, b.value, x, y);
  }

  /** Canonical JSON is injective: equal texts, equal values. */
  lemma WriteIsInjective(a: Tree, b: Tree)
    requires Write(a) == Write(b)
    ensures a == b
  {
    hide Write;
    assert Write(a) + [] == Write(b) + [];
    WriteUnique(a, b, [], []);
  }
}
