/** The structural comparison between a submitted CFDI 4.0 document and the stamped one that came back. */
module XmlFidelity {
  import opened Results
  import opened Ordering

  const CFDI_NS := "http://www.sat.gob.mx/cfd/4"
  const TFD_NS := "http://www.sat.gob.mx/TimbreFiscalDigital"
  const TFD_NAME := "TimbreFiscalDigital"

  /** A parsed element. `ns` is "" when no namespace is bound; attributes are in document order. */
  datatype Node = Node(name: string, prefix: string, ns: string, attributes: seq<(string, string)>, ordered: seq<Item>)

  datatype Item = Elem(node: Node) | Text(text: string)

  /** The nested arrays whose JSON texts are compared. */
  datatype Canon =
    | CanonElem(name: string, ns: string, attributes: seq<(string, string)>, ordered: seq<Canon>)
    | CanonText(text: string)

  datatype Error = NotCfdi | StampMissing | StampRepeated | StampMisplaced | Differs

  predicate IsTfd(n: Node) {
    n.name == TFD_NAME && n.ns == TFD_NS
  }

  predicate IsComplemento(n: Node) {
    n.name == "Complemento" && n.ns == CFDI_NS
  }

  function Children(s: seq<Item>): seq<Node> {
    if s == [] then [] else ChildOf(s[0]) + Children(s[1..])
  }

  function ChildOf(item: Item): seq<Node> {
    if item.Elem? then [item.node] else []
  }

  predicate HasComplemento(n: Node) {
    exists c :: c in Children(n.ordered) && IsComplemento(c)
  }

  function Attribute(attributes: seq<(string, string)>, name: string): Option<string> {
    if attributes == [] then None
    else if attributes[0].0 == name then Some(attributes[0].1)
    else Attribute(attributes[1..], name)
  }

  predicate IsCfdi40(n: Node) {
    n.name == "Comprobante" && n.ns == CFDI_NS && Attribute(n.attributes, "Version") == Some("4.0")
  }

  /** What the XML parser guarantees: no element repeats an attribute name. */
  predicate WellFormed(n: Node) {
    DistinctNames(n.attributes) && forall i | 0 <= i < |n.ordered| :: WellFormedItem(n.ordered[i])
  }

  predicate WellFormedItem(item: Item) {
    item.Elem? ==> WellFormed(item.node)
  }

  predicate DistinctNames(attributes: seq<(string, string)>) {
    forall i, j | 0 <= i < j < |attributes| :: attributes[i].0 != attributes[j].0
  }

  /* Canonical form, for any collation of attribute names. */

  ghost predicate Collation(lt: (string, string) -> bool) {
    StrictOrder(lt) && forall a, b :: a == b || lt(a, b) || lt(b, a)
  }

  function ByName(lt: (string, string) -> bool): ((string, string), (string, string)) -> bool {
    (x: (string, string), y: (string, string)) => lt(x.0, y.0)
  }

  function Business(attributes: seq<(string, string)>): seq<(string, string)> {
    if attributes == [] then []
    else (if "xmlns" <= attributes[0].0 then [] else [attributes[0]]) + Business(attributes[1..])
  }

  function CanonNode(lt: (string, string) -> bool, n: Node): Canon
    decreases n
  {
    CanonElem(n.name, n.ns, Sort(ByName(lt), Business(n.attributes)), CanonItems(lt, n.ordered))
  }

  function CanonItems(lt: (string, string) -> bool, s: seq<Item>): seq<Canon>
    decreases s
  {
    if s == [] then [] else [CanonItem(lt, s[0])] + CanonItems(lt, s[1..])
  }

  function CanonItem(lt: (string, string) -> bool, item: Item): Canon
    decreases item
  {
    match item
    case Elem(n) => CanonNode(lt, n)
    case Text(t) => CanonText(t)
  }

  /* What is taken away from the stamped document before the comparison. */

  function WithoutTfd(n: Node): Node
    decreases n
  {
    n.(ordered := WithoutTfdItems(n.ordered))
  }

  function WithoutTfdItems(s: seq<Item>): seq<Item>
    decreases s
  {
    if s == [] then [] else WithoutTfdItem(s[0]) + WithoutTfdItems(s[1..])
  }

  function WithoutTfdItem(item: Item): seq<Item>
    decreases item
  {
    if item.Text? then [item] else if IsTfd(item.node) then [] else [Elem(WithoutTfd(item.node))]
  }

  predicate IsEmptyComplemento(n: Node) {
    IsComplemento(n) && Children(n.ordered) == []
  }

  function DropEmpty(n: Node): Node
    decreases n
  {
    n.(ordered := DropEmptyItems(n.ordered))
  }

  function DropEmptyItems(s: seq<Item>): seq<Item>
    decreases s
  {
    if s == [] then [] else DropEmptyItem(s[0]) + DropEmptyItems(s[1..])
  }

  function DropEmptyItem(item: Item): seq<Item>
    decreases item
  {
    if item.Text? then [item] else if IsEmptyComplemento(item.node) then [] else [Elem(DropEmpty(item.node))]
  }

  /** Remove every TFD and, if the original had no root Complemento, every Complemento left without elements. */
  function Strip(n: Node, originalHadComplement: bool): Node {
    if originalHadComplement then WithoutTfd(n) else DropEmpty(WithoutTfd(n))
  }

  /* Sameness up to prefixes, xmlns declarations and attribute order. */

  predicate SameNode(a: Node, b: Node)
    decreases a
  {
    && a.name == b.name && a.ns == b.ns
    && multiset(Business(a.attributes)) == multiset(Business(b.attributes))
    && |a.ordered| == |b.ordered|
    && forall i | 0 <= i < |a.ordered| :: SameItem(a.ordered[i], b.ordered[i])
  }

  predicate SameItem(a: Item, b: Item)
    decreases a
  {
    match (a, b)
    case (Elem(m), Elem(n)) => SameNode(m, n)
    case (Text(s), Text(t)) => s == t
    case _ => false
  }

  lemma {:induction false} BusinessIsSublist(attributes: seq<(string, string)>)
    ensures forall e | e in Business(attributes) :: e in attributes
    ensures DistinctNames(attributes) ==> DistinctNames(Business(attributes))
  {
    if attributes != [] {
      BusinessIsSublist(attributes[1..]);
      if DistinctNames(attributes) {
        var rest := Business(attributes[1..]);
        forall i | 0 <= i < |rest|
          ensures rest[i].0 != attributes[0].0
        {
          assert rest[i] in attributes[1..];
        }
      }
    }
  }

  lemma ByNameSorts(lt: (string, string) -> bool, s: seq<(string, string)>)
    requires Collation(lt) && DistinctNames(s)
    ensures StrictOrder(ByName(lt)) && Comparable(ByName(lt), s)
  {
    var before := ByName(lt);
    forall a
      ensures !before(a, a)
    {
      assert !lt(a.0, a.0);
    }
    forall a, b, c | before(a, b) && before(b, c)
      ensures before(a, c)
    {
      assert lt(a.0, b.0) && lt(b.0, c.0);
    }
  }

  lemma AttributesDecide(lt: (string, string) -> bool, a: seq<(string, string)>, b: seq<(string, string)>)
    requires Collation(lt) && DistinctNames(a) && DistinctNames(b)
    ensures Sort(ByName(lt), Business(a)) == Sort(ByName(lt), Business(b))
            <==> multiset(Business(a)) == multiset(Business(b))
  {
    BusinessIsSublist(a);
    BusinessIsSublist(b);
    ByNameSorts(lt, Business(a));
    ByNameSorts(lt, Business(b));
    hide Collation, StrictOrder, Comparable, ByName, Business, DistinctNames;
    SortForgetsOrder(ByName(lt), Business(a), Business(b));
  }

  lemma {:induction false} CanonItemsAt(lt: (string, string) -> bool, s: seq<Item>)
    ensures |CanonItems(lt, s)| == |s|
    ensures forall i | 0 <= i < |s| :: CanonItems(lt, s)[i] == CanonItem(lt, s[i])
  {
    if s != [] {
      CanonItemsAt(lt, s[1..]);
      hide CanonItem;
    }
  }

  /** Equal canonical forms mean the same document up to prefixes, xmlns attributes and attribute order. */
  lemma {:induction false} CanonDecides(lt: (string, string) -> bool, a: Node, b: Node)
    requires Collation(lt) && WellFormed(a) && WellFormed(b)
    ensures CanonNode(lt, a) == CanonNode(lt, b) <==> SameNode(a, b)
    decreases a
  {
    AttributesDecide(lt, a.attributes, b.attributes);
    CanonItemsAt(lt, a.ordered);
    CanonItemsAt(lt, b.ordered);
    if |a.ordered| == |b.ordered| {
      forall i | 0 <= i < |a.ordered|
        ensures CanonItem(lt, a.ordered[i]) == CanonItem(lt, b.ordered[i]) <==> SameItem(a.ordered[i], b.ordered[i])
      {
        ItemDecides(lt, a.ordered[i], b.ordered[i]);
      }
    }
    hide SameItem, CanonItem, CanonItems, Business, Sort;
  }

  lemma {:induction false} ItemDecides(lt: (string, string) -> bool, a: Item, b: Item)
    requires Collation(lt) && WellFormedItem(a) && WellFormedItem(b)
    ensures CanonItem(lt, a) == CanonItem(lt, b) <==> SameItem(a, b)
    decreases a
  {
    if a.Elem? && b.Elem? {
      CanonDecides(lt, a.node, b.node);
    }
  }

  /* The code: one pass that strips and canonicalizes at once. */

  function NonTfd(nodes: seq<Node>): seq<Node> {
    if nodes == [] then [] else (if IsTfd(nodes[0]) then [] else [nodes[0]]) + NonTfd(nodes[1..])
  }

  /** The items that one child contributes to the comparison. */
  function Kept(item: Item, isStamped: bool, originalHadComplement: bool): seq<Item> {
    if !isStamped then [item]
    else if originalHadComplement then WithoutTfdItem(item)
    else DropEmptyItems(WithoutTfdItem(item))
  }

  function KeptItems(s: seq<Item>, isStamped: bool, originalHadComplement: bool): seq<Item> {
    if !isStamped then s
    else if originalHadComplement then WithoutTfdItems(s)
    else DropEmptyItems(WithoutTfdItems(s))
  }

  lemma {:induction false} WithoutTfdJoins(a: seq<Item>, b: seq<Item>)
    ensures WithoutTfdItems(a + b) == WithoutTfdItems(a) + WithoutTfdItems(b)
  {
    if a == [] {
      assert a + b == b;
    } else {
      assert (a + b)[1..] == a[1..] + b;
      WithoutTfdJoins(a[1..], b);
      hide WithoutTfdItem;
    }
  }

  lemma {:induction false} DropEmptyJoins(a: seq<Item>, b: seq<Item>)
    ensures DropEmptyItems(a + b) == DropEmptyItems(a) + DropEmptyItems(b)
  {
    if a == [] {
      assert a + b == b;
    } else {
      assert (a + b)[1..] == a[1..] + b;
      DropEmptyJoins(a[1..], b);
      hide DropEmptyItem;
    }
  }

  lemma {:induction false} CanonJoins(lt: (string, string) -> bool, a: seq<Item>, b: seq<Item>)
    ensures CanonItems(lt, a + b) == CanonItems(lt, a) + CanonItems(lt, b)
  {
    if a == [] {
      assert a + b == b;
    } else {
      assert (a + b)[1..] == a[1..] + b;
      CanonJoins(lt, a[1..], b);
      hide CanonItem;
    }
  }

  lemma KeptNext(s: seq<Item>, item: Item, isStamped: bool, originalHadComplement: bool)
    ensures KeptItems(s + [item], isStamped, originalHadComplement)
         == KeptItems(s, isStamped, originalHadComplement) + Kept(item, isStamped, originalHadComplement)
  {
    WithoutTfdJoins(s, [item]);
    assert WithoutTfdItems([item]) == WithoutTfdItem(item);
    DropEmptyJoins(WithoutTfdItems(s), WithoutTfdItem(item));
    hide WithoutTfdItem, DropEmptyItems, WithoutTfdItems;
  }

  lemma {:induction false} RemainingChildren(s: seq<Item>)
    ensures Children(WithoutTfdItems(s)) == [] <==> NonTfd(Children(s)) == []
  {
    if s != [] {
      RemainingChildren(s[1..]);
      ChildrenJoin(WithoutTfdItem(s[0]), WithoutTfdItems(s[1..]));
      NonTfdJoin(ChildOf(s[0]), Children(s[1..]));
    }
  }

  lemma {:induction false} ChildrenJoin(a: seq<Item>, b: seq<Item>)
    ensures Children(a + b) == Children(a) + Children(b)
  {
    if a == [] {
      assert a + b == b;
    } else {
      assert (a + b)[1..] == a[1..] + b;
      ChildrenJoin(a[1..], b);
      hide ChildOf;
    }
  }

  lemma {:induction false} NonTfdJoin(a: seq<Node>, b: seq<Node>)
    ensures NonTfd(a + b) == NonTfd(a) + NonTfd(b)
  {
    if a == [] {
      assert a + b == b;
    } else {
      assert (a + b)[1..] == a[1..] + b;
      NonTfdJoin(a[1..], b);
    }
  }

  /** The child is left out exactly when it is a TFD, or a Complemento whose element children are all TFDs
      while the original had none. */
  lemma KeptChild(child: Node, isStamped: bool, originalHadComplement: bool)
    ensures Kept(Elem(child), isStamped, originalHadComplement)
         == if isStamped && (IsTfd(child)
                || (IsComplemento(child) && !originalHadComplement && NonTfd(Children(child.ordered)) == []))
            then []
            else [Elem(if isStamped then Strip(child, originalHadComplement) else child)]
  {
    RemainingChildren(child.ordered);
    var w := WithoutTfd(child);
    assert DropEmptyItems([Elem(w)]) == DropEmptyItem(Elem(w)) + DropEmptyItems([]);
  }

  lemma CanonOne(lt: (string, string) -> bool, item: Item)
    ensures CanonItems(lt, [item]) == [CanonItem(lt, item)]
  {
    hide CanonItem;
  }

  /** One pass over the tree computes the canonical form of the stripped document. */
  method CanonicalizeNode(lt: (string, string) -> bool, node: Node, isStamped: bool, originalHadComplement: bool)
    returns (canon: Canon)
    ensures canon == CanonNode(lt, if isStamped then Strip(node, originalHadComplement) else node)
    decreases node
  {
    var canonicalOrdered: seq<Canon> := [];
    for i := 0 to |node.ordered|
      invariant canonicalOrdered == CanonItems(lt, KeptItems(node.ordered[..i], isStamped, originalHadComplement))
    {
      var item := node.ordered[i];
      assert node.ordered[..i + 1] == node.ordered[..i] + [item];
      KeptNext(node.ordered[..i], item, isStamped, originalHadComplement);
      CanonJoins(lt, KeptItems(node.ordered[..i], isStamped, originalHadComplement),
                 Kept(item, isStamped, originalHadComplement));
      var more := CanonicalizeItem(lt, item, isStamped, originalHadComplement);
      canonicalOrdered := canonicalOrdered + more;
    }
    assert node.ordered[..|node.ordered|] == node.ordered;
    canon := CanonElem(node.name, node.ns, Sort(ByName(lt), Business(node.attributes)), canonicalOrdered);
  }

  method CanonicalizeItem(lt: (string, string) -> bool, item: Item, isStamped: bool, originalHadComplement: bool)
    returns (canon: seq<Canon>)
    ensures canon == CanonItems(lt, Kept(item, isStamped, originalHadComplement))
    decreases item
  {
    match item {
      case Text(t) =>
        CanonOne(lt, item);
        assert DropEmptyItems([item]) == [item];
        return [CanonText(t)];
      case Elem(child) =>
        KeptChild(child, isStamped, originalHadComplement);
        hide Kept;
        if isStamped && IsTfd(child) {
          return [];
        }
        if isStamped && IsComplemento(child) && !originalHadComplement {
          var nonTfdChildren := NonTfd(Children(child.ordered));
          if nonTfdChildren == [] {
            return [];
          }
        }
        var c := CanonicalizeNode(lt, child, isStamped, originalHadComplement);
        CanonOne(lt, Elem(if isStamped then Strip(child, originalHadComplement) else child));
        return [c];
    }
  }

  /* Finding the stamp. */

  function LowerCase(s: string): string {
    if s == [] then [] else
      [if 'A' <= s[0] <= 'Z' then (s[0] as int + 32) as char else s[0]] + LowerCase(s[1..])
  }

  predicate SameName(a: string, b: string) {
    LowerCase(a) == LowerCase(b)
  }

  /** All elements with the given local name, in document order. */
  function Named(n: Node, name: string): seq<Node>
    decreases n
  {
    (if SameName(n.name, name) then [n] else []) + NamedItems(n.ordered, name)
  }

  function NamedItems(s: seq<Item>, name: string): seq<Node>
    decreases s
  {
    if s == [] then [] else NamedItem(s[0], name) + NamedItems(s[1..], name)
  }

  function NamedItem(item: Item, name: string): seq<Node>
    decreases item
  {
    if item.Elem? then Named(item.node, name) else []
  }

  lemma {:induction false} NamedJoins(a: seq<Item>, b: seq<Item>, name: string)
    ensures NamedItems(a + b, name) == NamedItems(a, name) + NamedItems(b, name)
  {
    if a == [] {
      assert a + b == b;
    } else {
      assert (a + b)[1..] == a[1..] + b;
      NamedJoins(a[1..], b, name);
      hide NamedItem;
    }
  }

  method FindNodesByName(root: Node, name: string) returns (result: seq<Node>)
    ensures result == Named(root, name)
  {
    result := Traverse(root, name, []);
  }

  /** Depth first, appending to the list found so far. */
  method Traverse(n: Node, name: string, found: seq<Node>) returns (result: seq<Node>)
    ensures result == found + Named(n, name)
    decreases n
  {
    result := found;
    if SameName(n.name, name) {
      result := result + [n];
    }
    ghost var own := result;
    for i := 0 to |n.ordered|
      invariant result == own + NamedItems(n.ordered[..i], name)
    {
      assert n.ordered[..i + 1] == n.ordered[..i] + [n.ordered[i]];
      NamedJoins(n.ordered[..i], [n.ordered[i]], name);
      assert NamedItems([n.ordered[i]], name) == NamedItem(n.ordered[i], name);
      if n.ordered[i].Elem? {
        result := Traverse(n.ordered[i].node, name, result);
      }
    }
    assert n.ordered[..|n.ordered|] == n.ordered;
  }

  /* The verdict. */

  predicate Placed(root: Node, timbre: Node) {
    && IsTfd(timbre)
    && exists c :: c in Children(root.ordered) && IsComplemento(c) && timbre in Children(c.ordered)
  }

  /** A stamped document is accepted exactly when it is a CFDI 4.0 with one TFD, inside a root Complemento,
      whose removal leaves the submitted document. */
  predicate Accepted(stamped: Node, original: Node) {
    && IsCfdi40(stamped)
    && |Named(stamped, TFD_NAME)| == 1 && Placed(stamped, Named(stamped, TFD_NAME)[0])
    && SameNode(Strip(stamped, HasComplemento(original)), original)
  }

  method HoldsTimbre(nodes: seq<Node>, timbre: Node) returns (found: bool)
    ensures found <==> exists c :: c in nodes && IsComplemento(c) && timbre in Children(c.ordered)
  {
    for i := 0 to |nodes|
      invariant forall k | 0 <= k < i :: !(IsComplemento(nodes[k]) && timbre in Children(nodes[k].ordered))
    {
      if IsComplemento(nodes[i]) && timbre in Children(nodes[i].ordered) {
        return true;
      }
    }
    return false;
  }

  method HasRootComplemento(n: Node) returns (has: bool)
    ensures has == HasComplemento(n)
  {
    var nodes := Children(n.ordered);
    for i := 0 to |nodes|
      invariant forall k | 0 <= k < i :: !IsComplemento(nodes[k])
    {
      if IsComplemento(nodes[i]) {
        return true;
      }
    }
    return false;
  }

  /** The comparison of both canonical forms. */
  method MatchesOriginal(lt: (string, string) -> bool, root: Node, original: Node) returns (same: bool)
    requires Collation(lt) && WellFormed(root) && WellFormed(original)
    ensures same == SameNode(Strip(root, HasComplemento(original)), original)
  {
    var had := HasRootComplemento(original);
    StripKeepsWellFormed(root, had);
    CanonDecides(lt, Strip(root, had), original);
    hide SameNode, CanonNode, Strip, WellFormed;
    var canonicalStamped := CanonicalizeNode(lt, root, true, had);
    var canonicalOriginal := CanonicalizeNode(lt, original, false, had);
    same := canonicalStamped == canonicalOriginal;
  }

  /** The structural part of `validateAndExtractTimbreFiscalDigital`, returning the stamp it found. */
  method ValidateStructure(lt: (string, string) -> bool, root: Node, original: Node)
    returns (result: Result<Node, Error>)
    requires Collation(lt) && WellFormed(root) && WellFormed(original)
    ensures result.Ok? <==> Accepted(root, original)
    ensures result.Ok? ==> Named(root, TFD_NAME) == [result.value]
    ensures result == Err(NotCfdi) <==> !IsCfdi40(root)
    ensures result == Err(StampMissing) <==> IsCfdi40(root) && Named(root, TFD_NAME) == []
    ensures result == Err(StampRepeated) <==> IsCfdi40(root) && |Named(root, TFD_NAME)| > 1
    ensures result == Err(StampMisplaced) <==>
              IsCfdi40(root) && |Named(root, TFD_NAME)| == 1 && !Placed(root, Named(root, TFD_NAME)[0])
    ensures result == Err(Differs) ==> !SameNode(Strip(root, HasComplemento(original)), original)
  {
    hide SameNode, Strip, WellFormed, Collation, Named, HasComplemento;
    if !IsCfdi40(root) {
      return Err(NotCfdi);
    }
    var timbreNodes := FindNodesByName(root, TFD_NAME);
    if |timbreNodes| == 0 {
      return Err(StampMissing);
    }
    if |timbreNodes| > 1 {
      return Err(StampRepeated);
    }
    var timbre := timbreNodes[0];
    var held := HoldsTimbre(Children(root.ordered), timbre);
    if !held || !IsTfd(timbre) {
      return Err(StampMisplaced);
    }
    var same := MatchesOriginal(lt, root, original);
    if !same {
      return Err(Differs);
    }
    return Ok(timbre);
  }

  /* What an accepted document looks like. */

  /** x is the element n or an element inside it. */
  predicate Within(x: Node, n: Node)
    decreases n
  {
    x == n || exists i :: 0 <= i < |n.ordered| && WithinItem(x, n.ordered[i])
  }

  predicate WithinItem(x: Node, item: Item)
    decreases item
  {
    item.Elem? && Within(x, item.node)
  }

  /** The search finds exactly the elements with the name, wherever they are. */
  lemma {:induction false} NamedExactly(n: Node, name: string, x: Node)
    ensures x in Named(n, name) <==> Within(x, n) && SameName(x.name, name)
    decreases n
  {
    hide SameName;
    ItemsNamedExactly(n.ordered, name, x);
    hide NamedItems, WithinItem;
  }

  lemma {:induction false} ItemsNamedExactly(s: seq<Item>, name: string, x: Node)
    ensures x in NamedItems(s, name) <==>
              (exists i :: 0 <= i < |s| && WithinItem(x, s[i])) && SameName(x.name, name)
    decreases s
  {
    hide SameName;
    if s != [] {
      ItemNamedExactly(s[0], name, x);
      ItemsNamedExactly(s[1..], name, x);
      hide NamedItem, WithinItem;
      if i :| 0 <= i < |s[1..]| && WithinItem(x, s[1..][i]) {
        assert WithinItem(x, s[i + 1]);
      }
      if i :| 0 <= i < |s| && WithinItem(x, s[i]) {
        assert i > 0 ==> WithinItem(x, s[1..][i - 1]);
      }
    }
  }

  lemma {:induction false} ItemNamedExactly(item: Item, name: string, x: Node)
    ensures x in NamedItem(item, name) <==> WithinItem(x, item) && SameName(x.name, name)
    decreases item
  {
    if item.Elem? {
      NamedExactly(item.node, name, x);
      hide Named, SameName;
    }
  }

  lemma {:induction false} AttributeExactly(attributes: seq<(string, string)>, name: string, value: string)
    requires DistinctNames(attributes)
    ensures Attribute(attributes, name) == Some(value) <==> (name, value) in attributes
  {
    if attributes != [] {
      AttributeExactly(attributes[1..], name, value);
      assert attributes == [attributes[0]] + attributes[1..];
      if (name, value) in attributes[1..] {
        var i :| 0 <= i < |attributes[1..]| && attributes[1..][i] == (name, value);
        assert attributes[i + 1] == (name, value) && attributes[0].0 != name;
      }
    }
  }

  /** Child j of child i of the root is a TimbreFiscalDigital, in a Complemento. */
  predicate StampedAt(root: Node, i: nat, j: nat, timbre: Node) {
    && i < |root.ordered| && root.ordered[i].Elem?
    && root.ordered[i].node.name == "Complemento" && root.ordered[i].node.ns == "http://www.sat.gob.mx/cfd/4"
    && j < |root.ordered[i].node.ordered| && root.ordered[i].node.ordered[j] == Elem(timbre)
    && timbre.name == "TimbreFiscalDigital" && timbre.ns == "http://www.sat.gob.mx/TimbreFiscalDigital"
  }

  lemma {:induction false} ChildExactly(s: seq<Item>, x: Node)
    ensures x in Children(s) <==> exists i :: 0 <= i < |s| && s[i] == Elem(x)
  {
    if s != [] {
      ChildExactly(s[1..], x);
      if i :| 0 <= i < |s[1..]| && s[1..][i] == Elem(x) {
        assert s[i + 1] == Elem(x);
      }
      if i :| 0 <= i < |s| && s[i] == Elem(x) {
        assert i > 0 ==> s[1..][i - 1] == Elem(x);
      }
    }
  }

  lemma PlacedExactly(root: Node, timbre: Node)
    ensures Placed(root, timbre) <==> exists i, j :: StampedAt(root, i, j, timbre)
  {
    if Placed(root, timbre) {
      var c :| c in Children(root.ordered) && IsComplemento(c) && timbre in Children(c.ordered);
      ChildExactly(root.ordered, c);
      ChildExactly(c.ordered, timbre);
      hide Children;
      var i :| 0 <= i < |root.ordered| && root.ordered[i] == Elem(c);
      var j :| 0 <= j < |c.ordered| && c.ordered[j] == Elem(timbre);
      assert StampedAt(root, i, j, timbre);
    }
    if i: nat, j: nat :| StampedAt(root, i, j, timbre) {
      var c := root.ordered[i].node;
      ChildExactly(root.ordered, c);
      ChildExactly(c.ordered, timbre);
      hide Children;
      assert root.ordered[i] == Elem(c) && IsComplemento(c) && IsTfd(timbre);
    }
  }

  /** Acceptance, spelled out: a Comprobante of the CFDI 4.0 namespace with Version 4.0; one element of whatever case
      named TimbreFiscalDigital, and it is a real one inside a Complemento of the root; and what is left without it is
      the submitted document. */
  lemma AcceptedExactly(stamped: Node, original: Node)
    requires WellFormed(stamped)
    ensures Accepted(stamped, original) <==>
              && stamped.name == "Comprobante" && stamped.ns == "http://www.sat.gob.mx/cfd/4"
              && ("Version", "4.0") in stamped.attributes
              && |Named(stamped, TFD_NAME)| == 1 && (exists i, j :: StampedAt(stamped, i, j, Named(stamped, TFD_NAME)[0]))
              && SameNode(Strip(stamped, HasComplemento(original)), original)
  {
    AttributeExactly(stamped.attributes, "Version", "4.0");
    if |Named(stamped, TFD_NAME)| == 1 {
      PlacedExactly(stamped, Named(stamped, TFD_NAME)[0]);
    }
    hide Named, Placed, StampedAt, SameNode, Strip, HasComplemento, Attribute;
  }

  lemma {:induction false} StripKeepsWellFormed(n: Node, had: bool)
    requires WellFormed(n)
    ensures WellFormed(Strip(n, had))
  {
    WithoutTfdKeeps(n);
    DropEmptyKeeps(WithoutTfd(n));
  }

  predicate WellFormedItems(s: seq<Item>) {
    forall i | 0 <= i < |s| :: WellFormedItem(s[i])
  }

  lemma {:induction false} WithoutTfdKeeps(n: Node)
    requires WellFormed(n)
    ensures WellFormed(WithoutTfd(n))
    decreases n
  {
    WithoutTfdItemsKeep(n.ordered);
  }

  lemma {:induction false} WithoutTfdItemsKeep(s: seq<Item>)
    requires WellFormedItems(s)
    ensures WellFormedItems(WithoutTfdItems(s))
    decreases s
  {
    if s != [] {
      WithoutTfdItemKeeps(s[0]);
      WithoutTfdItemsKeep(s[1..]);
      hide WellFormedItem, WithoutTfdItem;
    }
  }

  lemma {:induction false} WithoutTfdItemKeeps(item: Item)
    requires WellFormedItem(item)
    ensures WellFormedItems(WithoutTfdItem(item))
    decreases item
  {
    if item.Elem? {
      WithoutTfdKeeps(item.node);
    }
  }

  lemma {:induction false} DropEmptyKeeps(n: Node)
    requires WellFormed(n)
    ensures WellFormed(DropEmpty(n))
    decreases n
  {
    DropEmptyItemsKeep(n.ordered);
  }

  lemma {:induction false} DropEmptyItemsKeep(s: seq<Item>)
    requires WellFormedItems(s)
    ensures WellFormedItems(DropEmptyItems(s))
    decreases s
  {
    if s != [] {
      DropEmptyItemKeeps(s[0]);
      DropEmptyItemsKeep(s[1..]);
      hide WellFormedItem, DropEmptyItem;
    }
  }

  lemma {:induction false} DropEmptyItemKeeps(item: Item)
    requires WellFormedItem(item)
    ensures WellFormedItems(DropEmptyItem(item))
    decreases item
  {
    if item.Elem? {
      DropEmptyKeeps(item.node);
    }
  }

  /* Honest stamping: one TFD is inserted between two items of the submitted document. */

  function InsertAt(s: seq<Item>, i: nat, item: Item): seq<Item>
    requires i <= |s|
  {
    if i == 0 then [item] + s else [s[0]] + InsertAt(s[1..], i - 1, item)
  }

  /** The TFD goes into the Complemento found at index k of the root. */
  function StampInside(original: Node, k: nat, j: nat, timbre: Node): Node
    requires k < |original.ordered| && original.ordered[k].Elem?
    requires j <= |original.ordered[k].node.ordered|
  {
    var c := original.ordered[k].node;
    original.(ordered := original.ordered[k := Elem(c.(ordered := InsertAt(c.ordered, j, Elem(timbre))))])
  }

  /** A new Complemento, holding the TFD and perhaps white space, goes into the root. */
  function StampAppended(original: Node, i: nat, complemento: Node): Node
    requires i <= |original.ordered|
  {
    original.(ordered := InsertAt(original.ordered, i, Elem(complemento)))
  }

  predicate IsNewComplemento(c: Node, timbre: Node) {
    IsComplemento(c) && Children(c.ordered) == [timbre]
  }

  /** A stamp element with no other stamp inside. */
  predicate IsOneTfd(t: Node) {
    IsTfd(t) && NamedItems(t.ordered, TFD_NAME) == []
  }

  predicate HasEmptyComplemento(n: Node)
    decreases n
  {
    exists i :: 0 <= i < |n.ordered| && EmptyComplementoIn(n.ordered[i])
  }

  predicate EmptyComplementoIn(item: Item)
    decreases item
  {
    item.Elem? && (IsEmptyComplemento(item.node) || HasEmptyComplemento(item.node))
  }

  lemma {:induction false} NothingToRemove(n: Node)
    requires NamedItems(n.ordered, TFD_NAME) == []
    ensures WithoutTfd(n) == n
    decreases n
  {
    NothingToRemoveItems(n.ordered);
  }

  lemma {:induction false} NothingToRemoveItems(s: seq<Item>)
    requires NamedItems(s, TFD_NAME) == []
    ensures WithoutTfdItems(s) == s
    decreases s
  {
    if s != [] {
      NothingToRemoveItem(s[0]);
      NothingToRemoveItems(s[1..]);
      hide WithoutTfdItem, NamedItem;
    }
  }

  lemma {:induction false} NothingToRemoveItem(item: Item)
    requires NamedItem(item, TFD_NAME) == []
    ensures WithoutTfdItem(item) == [item]
    decreases item
  {
    if item.Elem? {
      NothingToRemove(item.node);
    }
  }

  lemma {:induction false} NothingToDrop(n: Node)
    requires !HasEmptyComplemento(n)
    ensures DropEmpty(n) == n
    decreases n
  {
    NothingToDropItems(n.ordered);
  }

  lemma {:induction false} NothingToDropItems(s: seq<Item>)
    requires forall i | 0 <= i < |s| :: !EmptyComplementoIn(s[i])
    ensures DropEmptyItems(s) == s
    decreases s
  {
    if s != [] {
      NothingToDropItem(s[0]);
      NothingToDropItems(s[1..]);
      hide DropEmptyItem, EmptyComplementoIn;
    }
  }

  lemma {:induction false} NothingToDropItem(item: Item)
    requires !EmptyComplementoIn(item)
    ensures DropEmptyItem(item) == [item]
    decreases item
  {
    if item.Elem? {
      NothingToDrop(item.node);
    }
  }

  /** Sameness is reflexive, and it preserves the number of items. */
  lemma {:induction false} SameIsReflexive(n: Node)
    ensures SameNode(n, n)
    decreases n
  {
    forall i | 0 <= i < |n.ordered|
      ensures SameItem(n.ordered[i], n.ordered[i])
    {
      SameItemIsReflexive(n.ordered[i]);
    }
  }

  lemma {:induction false} SameItemIsReflexive(item: Item)
    ensures SameItem(item, item)
    decreases item
  {
    if item.Elem? {
      SameIsReflexive(item.node);
    }
  }

  function Size(n: Node): nat
    decreases n
  {
    1 + SizeItems(n.ordered)
  }

  function SizeItems(s: seq<Item>): nat
    decreases s
  {
    if s == [] then 0 else SizeItem(s[0]) + SizeItems(s[1..])
  }

  function SizeItem(item: Item): nat
    decreases item
  {
    if item.Elem? then Size(item.node) else 1
  }

  lemma {:induction false} SameSize(a: Node, b: Node)
    requires SameNode(a, b)
    ensures Size(a) == Size(b)
    decreases a
  {
    SameSizeItems(a.ordered, b.ordered);
  }

  lemma {:induction false} SameSizeItems(a: seq<Item>, b: seq<Item>)
    requires |a| == |b| && forall i | 0 <= i < |a| :: SameItem(a[i], b[i])
    ensures SizeItems(a) == SizeItems(b)
    decreases a
  {
    if a != [] {
      SameSizeItem(a[0], b[0]);
      SameSizeItems(a[1..], b[1..]);
      hide SizeItem, SameItem;
    }
  }

  lemma {:induction false} SameSizeItem(a: Item, b: Item)
    requires SameItem(a, b)
    ensures SizeItem(a) == SizeItem(b)
    decreases a
  {
    if a.Elem? {
      SameSize(a.node, b.node);
    }
  }

  lemma {:induction false} DropEmptyShrinks(n: Node)
    ensures Size(DropEmpty(n)) <= Size(n)
    ensures HasEmptyComplemento(n) ==> Size(DropEmpty(n)) < Size(n)
    decreases n
  {
    DropEmptyItemsShrinks(n.ordered);
  }

  lemma {:induction false} DropEmptyItemsShrinks(s: seq<Item>)
    ensures SizeItems(DropEmptyItems(s)) <= SizeItems(s)
    ensures (exists i :: 0 <= i < |s| && EmptyComplementoIn(s[i])) ==> SizeItems(DropEmptyItems(s)) < SizeItems(s)
    decreases s
  {
    if s != [] {
      DropEmptyItemShrinks(s[0]);
      DropEmptyItemsShrinks(s[1..]);
      SizeJoins(DropEmptyItem(s[0]), DropEmptyItems(s[1..]));
      hide EmptyComplementoIn, DropEmptyItem, SizeItem;
      if i :| 0 <= i < |s| && EmptyComplementoIn(s[i]) {
        assert i > 0 ==> s[i] == s[1..][i - 1];
      }
    }
  }

  lemma {:induction false} DropEmptyItemShrinks(item: Item)
    ensures SizeItems(DropEmptyItem(item)) <= SizeItem(item)
    ensures EmptyComplementoIn(item) ==> SizeItems(DropEmptyItem(item)) < SizeItem(item)
    decreases item
  {
    if item.Elem? {
      DropEmptyShrinks(item.node);
      if !IsEmptyComplemento(item.node) {
        assert SizeItems([Elem(DropEmpty(item.node))]) == SizeItem(Elem(DropEmpty(item.node))) + SizeItems([]);
      }
    }
  }

  lemma {:induction false} SizeJoins(a: seq<Item>, b: seq<Item>)
    ensures SizeItems(a + b) == SizeItems(a) + SizeItems(b)
  {
    if a == [] {
      assert a + b == b;
    } else {
      assert (a + b)[1..] == a[1..] + b;
      SizeJoins(a[1..], b);
      hide SizeItem;
    }
  }

  lemma {:induction false} ChildAt(s: seq<Item>, i: nat)
    requires i < |s| && s[i].Elem?
    ensures s[i].node in Children(s)
  {
    if i > 0 {
      ChildAt(s[1..], i - 1);
    }
  }

  lemma {:induction false} RemovesInserted(s: seq<Item>, i: nat, item: Item)
    requires i <= |s| && NamedItems(s, TFD_NAME) == [] && WithoutTfdItem(item) == []
    ensures WithoutTfdItems(InsertAt(s, i, item)) == s
  {
    if i == 0 {
      NothingToRemoveItems(s);
    } else {
      NothingToRemoveItem(s[0]);
      RemovesInserted(s[1..], i - 1, item);
      hide NamedItem, WithoutTfdItem;
    }
  }

  lemma {:induction false} KeepsInserted(s: seq<Item>, i: nat, item: Item, left: Item)
    requires i <= |s| && NamedItems(s, TFD_NAME) == [] && WithoutTfdItem(item) == [left]
    ensures WithoutTfdItems(InsertAt(s, i, item)) == InsertAt(s, i, left)
  {
    if i == 0 {
      NothingToRemoveItems(s);
    } else {
      NothingToRemoveItem(s[0]);
      KeepsInserted(s[1..], i - 1, item, left);
      hide NamedItem, WithoutTfdItem;
    }
  }

  lemma {:induction false} NamedInserted(s: seq<Item>, i: nat, item: Item)
    requires i <= |s| && NamedItems(s, TFD_NAME) == []
    ensures NamedItems(InsertAt(s, i, item), TFD_NAME) == NamedItem(item, TFD_NAME)
  {
    hide NamedItem;
    if i > 0 {
      NamedInserted(s[1..], i - 1, item);
    }
  }

  lemma {:induction false} DropsInserted(s: seq<Item>, i: nat, item: Item)
    requires i <= |s| && DropEmptyItem(item) == []
    ensures DropEmptyItems(InsertAt(s, i, item)) == DropEmptyItems(s)
  {
    hide DropEmptyItem;
    if i > 0 {
      DropsInserted(s[1..], i - 1, item);
    }
  }

  lemma {:induction false} ChildInserted(s: seq<Item>, i: nat, item: Item)
    requires i <= |s| && item.Elem?
    ensures item.node in Children(InsertAt(s, i, item))
  {
    if i > 0 {
      ChildInserted(s[1..], i - 1, item);
    }
  }

  lemma {:induction false} RemovesReplacement(s: seq<Item>, k: nat, item: Item)
    requires k < |s| && NamedItems(s, TFD_NAME) == [] && WithoutTfdItem(item) == [s[k]]
    ensures WithoutTfdItems(s[k := item]) == s
  {
    var t := s[k := item];
    if k == 0 {
      NothingToRemoveItems(s[1..]);
      assert t[1..] == s[1..];
    } else {
      NothingToRemoveItem(s[0]);
      RemovesReplacement(s[1..], k - 1, item);
      assert t[1..] == s[1..][k - 1 := item];
      hide NamedItem, WithoutTfdItem;
    }
  }

  lemma {:induction false} NamedReplacement(s: seq<Item>, k: nat, item: Item)
    requires k < |s| && NamedItems(s, TFD_NAME) == []
    ensures NamedItems(s[k := item], TFD_NAME) == NamedItem(item, TFD_NAME)
    ensures NamedItem(s[k], TFD_NAME) == []
  {
    hide NamedItem;
    var t := s[k := item];
    if k == 0 {
      assert t[1..] == s[1..];
    } else {
      NamedReplacement(s[1..], k - 1, item);
      assert t[1..] == s[1..][k - 1 := item];
    }
  }

  /** A Complemento is not itself a stamp; what it holds decides. */
  lemma ComplementoItem(c: Node)
    requires IsComplemento(c)
    ensures NamedItem(Elem(c), TFD_NAME) == NamedItems(c.ordered, TFD_NAME)
    ensures WithoutTfdItem(Elem(c)) == [Elem(c.(ordered := WithoutTfdItems(c.ordered)))]
  {
    NotStamps(c);
    hide NamedItems, WithoutTfdItems, SameName, IsTfd, IsComplemento;
  }

  lemma NotStamps(c: Node)
    requires IsComplemento(c)
    ensures !SameName(c.name, TFD_NAME) && !IsTfd(c)
  {
    NotCalledStamp(c);
  }

  lemma StampItem(timbre: Node)
    requires IsOneTfd(timbre)
    ensures NamedItem(Elem(timbre), TFD_NAME) == [timbre] && WithoutTfdItem(Elem(timbre)) == []
  {
    hide NamedItems, WithoutTfdItems, LowerCase;
  }

  /** A document whose Complemento receives one TFD is always accepted. */
  lemma StampInsideAccepted(original: Node, k: nat, j: nat, timbre: Node)
    requires IsCfdi40(original) && Named(original, TFD_NAME) == []
    requires k < |original.ordered| && original.ordered[k].Elem? && IsComplemento(original.ordered[k].node)
    requires j <= |original.ordered[k].node.ordered| && IsOneTfd(timbre)
    ensures Accepted(StampInside(original, k, j, timbre), original)
  {
    hide IsCfdi40, IsComplemento, IsOneTfd, Children, SameNode, SameName;
    InsideIsOnlyStamp(original, k, j, timbre);
    InsideIsRemoved(original, k, j, timbre);
    InsideIsPlaced(original, k, j, timbre);
    SameIsReflexive(original);
    assert IsCfdi40(StampInside(original, k, j, timbre)) by {
      InsideIsCfdi(original, k, j, timbre);
    }
    hide Named, Strip, WithoutTfd, StampInside, Placed, HasComplemento;
  }

  lemma InsideIsCfdi(original: Node, k: nat, j: nat, timbre: Node)
    requires IsCfdi40(original)
    requires k < |original.ordered| && original.ordered[k].Elem? && j <= |original.ordered[k].node.ordered|
    ensures IsCfdi40(StampInside(original, k, j, timbre))
  {
    hide InsertAt, Attribute;
  }

  lemma InsideIsOnlyStamp(original: Node, k: nat, j: nat, timbre: Node)
    requires Named(original, TFD_NAME) == [] && IsOneTfd(timbre)
    requires k < |original.ordered| && original.ordered[k].Elem? && IsComplemento(original.ordered[k].node)
    requires j <= |original.ordered[k].node.ordered|
    ensures Named(StampInside(original, k, j, timbre), TFD_NAME) == [timbre]
  {
    var s, c := original.ordered, original.ordered[k].node;
    var c' := c.(ordered := InsertAt(c.ordered, j, Elem(timbre)));
    hide IsComplemento, IsOneTfd, SameName, NamedItems, NamedItem, InsertAt;
    NamedReplacement(s, k, Elem(c'));
    ComplementoItem(c);
    ComplementoItem(c') by { assert IsComplemento(c') by { SameKind(c, c'); } }
    NamedInserted(c.ordered, j, Elem(timbre));
    StampItem(timbre);
  }

  lemma SameKind(c: Node, d: Node)
    requires IsComplemento(c) && c.name == d.name && c.ns == d.ns
    ensures IsComplemento(d)
  {
  }

  lemma InsideIsRemoved(original: Node, k: nat, j: nat, timbre: Node)
    requires Named(original, TFD_NAME) == [] && IsOneTfd(timbre)
    requires k < |original.ordered| && original.ordered[k].Elem? && IsComplemento(original.ordered[k].node)
    requires j <= |original.ordered[k].node.ordered|
    ensures WithoutTfd(StampInside(original, k, j, timbre)) == original
  {
    var s, c := original.ordered, original.ordered[k].node;
    var c' := c.(ordered := InsertAt(c.ordered, j, Elem(timbre)));
    hide IsComplemento, IsOneTfd, SameName, NamedItems, NamedItem, InsertAt, WithoutTfdItems, WithoutTfdItem;
    NamedReplacement(s, k, Elem(c'));
    ComplementoItem(c);
    ComplementoItem(c') by { SameKind(c, c'); }
    StampItem(timbre);
    RemovesInserted(c.ordered, j, Elem(timbre));
    RemovesReplacement(s, k, Elem(c'));
  }

  lemma InsideIsPlaced(original: Node, k: nat, j: nat, timbre: Node)
    requires k < |original.ordered| && original.ordered[k].Elem? && IsComplemento(original.ordered[k].node)
    requires j <= |original.ordered[k].node.ordered| && IsOneTfd(timbre)
    ensures Placed(StampInside(original, k, j, timbre), timbre) && HasComplemento(original)
  {
    var c := original.ordered[k].node;
    var c' := c.(ordered := InsertAt(c.ordered, j, Elem(timbre)));
    var stamped := StampInside(original, k, j, timbre);
    hide IsTfd, InsertAt, Children, IsComplemento;
    SameKind(c, c');
    ChildInserted(c.ordered, j, Elem(timbre));
    ChildAt(stamped.ordered, k);
    ChildAt(original.ordered, k);
  }

  lemma {:induction false} NewComplementoContents(s: seq<Item>, timbre: Node)
    requires Children(s) == [timbre] && IsOneTfd(timbre)
    ensures NamedItems(s, TFD_NAME) == [timbre] && Children(WithoutTfdItems(s)) == []
  {
    hide IsOneTfd, NamedItem, WithoutTfdItem;
    if s[0].Elem? {
      StampItem(timbre);
      assert Children(s) == [s[0].node] + Children(s[1..]);
      assert Children(s)[0] == s[0].node && |Children(s[1..])| == 0;
      NoChildren(s[1..]);
      assert WithoutTfdItems(s) == s[1..];
    } else {
      NewComplementoContents(s[1..], timbre);
      TextItem(s[0]);
    }
  }

  lemma TextItem(item: Item)
    requires item.Text?
    ensures NamedItem(item, TFD_NAME) == [] && WithoutTfdItem(item) == [item] && DropEmptyItem(item) == [item]
  {
  }

  lemma {:induction false} NoChildren(s: seq<Item>)
    requires Children(s) == []
    ensures NamedItems(s, TFD_NAME) == [] && WithoutTfdItems(s) == s
  {
    hide NamedItem, WithoutTfdItem;
    if s != [] {
      assert Children(s) == ChildOf(s[0]) + Children(s[1..]);
      NoChildren(s[1..]);
      TextItem(s[0]);
      hide Children;
      assert [s[0]] + s[1..] == s;
    }
  }

  /** What is left of a document that gained a new Complemento. */
  lemma AppendedIsRemoved(original: Node, i: nat, c: Node, timbre: Node)
    requires Named(original, TFD_NAME) == [] && i <= |original.ordered|
    requires IsNewComplemento(c, timbre) && IsOneTfd(timbre)
    ensures Strip(StampAppended(original, i, c), false) == DropEmpty(original)
  {
    var w := c.(ordered := WithoutTfdItems(c.ordered));
    EmptiedComplemento(c, timbre);
    hide IsOneTfd, NamedItems, NamedItem, WithoutTfdItems, WithoutTfdItem, InsertAt, SameName, IsNewComplemento,
      DropEmptyItem, DropEmptyItems;
    KeepsInserted(original.ordered, i, Elem(c), Elem(w));
    DropsInserted(original.ordered, i, Elem(w));
  }

  lemma EmptiedComplemento(c: Node, timbre: Node)
    requires IsNewComplemento(c, timbre) && IsOneTfd(timbre)
    ensures var w := c.(ordered := WithoutTfdItems(c.ordered));
            WithoutTfdItem(Elem(c)) == [Elem(w)] && DropEmptyItem(Elem(w)) == []
  {
    hide WithoutTfdItem, WithoutTfdItems, IsComplemento;
    NewComplementoContents(c.ordered, timbre);
    ComplementoItem(c);
    SameKind(c, c.(ordered := WithoutTfdItems(c.ordered)));
  }

  lemma AppendedIsOnlyStamp(original: Node, i: nat, c: Node, timbre: Node)
    requires Named(original, TFD_NAME) == [] && i <= |original.ordered|
    requires IsNewComplemento(c, timbre) && IsOneTfd(timbre)
    ensures Named(StampAppended(original, i, c), TFD_NAME) == [timbre]
    ensures Placed(StampAppended(original, i, c), timbre)
  {
    NewComplementoContents(c.ordered, timbre);
    ChildInserted(original.ordered, i, Elem(c));
    hide NamedItems, NamedItem, InsertAt, Children, SameName, WithoutTfdItems;
    ComplementoItem(c);
    NamedInserted(original.ordered, i, Elem(c));
  }

  /** A document without a root Complemento that gains one around the TFD is accepted exactly when no
      Complemento without elements sits deeper inside it. */
  lemma StampAppendedAccepted(original: Node, i: nat, c: Node, timbre: Node)
    requires IsCfdi40(original) && Named(original, TFD_NAME) == [] && !HasComplemento(original)
    requires i <= |original.ordered| && IsNewComplemento(c, timbre) && IsOneTfd(timbre)
    ensures Accepted(StampAppended(original, i, c), original) <==> !HasEmptyComplemento(original)
  {
    hide IsOneTfd, IsNewComplemento, SameName, Attribute, Children;
    AppendedIsRemoved(original, i, c, timbre);
    AppendedIsOnlyStamp(original, i, c, timbre);
    DroppingIsVisible(original);
    hide Named, Strip, HasEmptyComplemento, SameNode, HasComplemento, DropEmpty, Placed;
  }

  /* A Complemento without elements inside the only other child of the root. */

  const EMPTY_COMPLEMENTO := Node("Complemento", "cfdi", CFDI_NS, [], [])
  const CONCEPTOS := Node("Conceptos", "cfdi", CFDI_NS, [], [Elem(EMPTY_COMPLEMENTO)])
  const NESTED := Node("Comprobante", "cfdi", CFDI_NS, [("Version", "4.0")], [Elem(CONCEPTOS)])
  const TIMBRE := Node(TFD_NAME, "tfd", TFD_NS, [], [])
  const NEW_COMPLEMENTO := Node("Complemento", "cfdi", CFDI_NS, [], [Elem(TIMBRE)])

  /** A CFDI 4.0 that comes back with nothing but its stamp added, and is refused. */
  lemma NestedComplementoRejected()
    ensures IsCfdi40(NESTED) && Named(NESTED, TFD_NAME) == [] && !HasComplemento(NESTED)
    ensures IsNewComplemento(NEW_COMPLEMENTO, TIMBRE) && IsOneTfd(TIMBRE)
    ensures !Accepted(StampAppended(NESTED, 1, NEW_COMPLEMENTO), NESTED)
  {
    NestedKinds();
    hide IsCfdi40, IsComplemento, SameName, IsTfd;
    NestedShape(NESTED, CONCEPTOS, EMPTY_COMPLEMENTO);
    NewShape(NEW_COMPLEMENTO, TIMBRE);
    hide *;
    StampAppendedAccepted(NESTED, 1, NEW_COMPLEMENTO, TIMBRE);
  }

  lemma NestedKinds()
    ensures IsCfdi40(NESTED) && IsComplemento(EMPTY_COMPLEMENTO) && IsComplemento(NEW_COMPLEMENTO) && IsTfd(TIMBRE)
    ensures !IsComplemento(CONCEPTOS)
    ensures !SameName(NESTED.name, TFD_NAME) && !SameName(CONCEPTOS.name, TFD_NAME)
    ensures !SameName(EMPTY_COMPLEMENTO.name, TFD_NAME)
  {
    hide LowerCase, SameName;
    NotCalledStamp(NESTED);
    NotCalledStamp(CONCEPTOS);
    NotCalledStamp(EMPTY_COMPLEMENTO);
    assert |CONCEPTOS.name| == 9;
  }

  lemma NestedShape(root: Node, child: Node, inner: Node)
    requires root.ordered == [Elem(child)] && child.ordered == [Elem(inner)] && inner.ordered == []
    requires IsComplemento(inner) && !IsComplemento(child)
    requires !SameName(root.name, TFD_NAME) && !SameName(child.name, TFD_NAME) && !SameName(inner.name, TFD_NAME)
    ensures Named(root, TFD_NAME) == [] && !HasComplemento(root) && HasEmptyComplemento(root)
  {
    hide IsComplemento, SameName;
    assert root.ordered[1..] == [] && child.ordered[1..] == [];
    assert Children(root.ordered) == [child];
    assert EmptyComplementoIn(child.ordered[0]);
    assert EmptyComplementoIn(root.ordered[0]);
    hide HasEmptyComplemento, Children;
    assert NamedItems([], TFD_NAME) == [];
    assert Named(inner, TFD_NAME) == [];
    assert NamedItems(child.ordered, TFD_NAME) == [];
    assert Named(child, TFD_NAME) == [];
    assert NamedItems(root.ordered, TFD_NAME) == [];
  }

  lemma NewShape(c: Node, timbre: Node)
    requires c.ordered == [Elem(timbre)] && timbre.ordered == [] && IsComplemento(c) && IsTfd(timbre)
    ensures IsNewComplemento(c, timbre) && IsOneTfd(timbre)
  {
    hide IsComplemento, IsTfd;
    assert c.ordered[1..] == [];
    assert Children([]) == [];
    assert Children(c.ordered) == [timbre];
  }

  lemma NotCalledStamp(n: Node)
    requires n.name != "" && n.name[0] == 'C'
    ensures !SameName(n.name, TFD_NAME)
  {
    assert TFD_NAME[0] == 'T';
    assert LowerCase(n.name)[0] != LowerCase(TFD_NAME)[0];
  }

  lemma DroppingIsVisible(n: Node)
    ensures SameNode(DropEmpty(n), n) <==> !HasEmptyComplemento(n)
  {
    if HasEmptyComplemento(n) {
      DropEmptyShrinks(n);
      if SameNode(DropEmpty(n), n) {
        SameSize(DropEmpty(n), n);
      }
    } else {
      NothingToDrop(n);
      SameIsReflexive(n);
    }
  }

  /** The document with the text node at index i cut in two. */
  function Halves(original: Node, i: nat, first: string, second: string): (halves: Node)
    requires i < |original.ordered|
    ensures |halves.ordered| == |original.ordered| + 1
  {
    InsertLength(original.ordered[i := Text(second)], i, Text(first));
    original.(ordered := InsertAt(original.ordered[i := Text(second)], i, Text(first)))
  }

  /** A Complemento inserted inside a text node is never accepted: the text comes back in two pieces. */
  lemma SplitTextRejected(original: Node, i: nat, first: string, second: string, c: Node, timbre: Node)
    requires Named(original, TFD_NAME) == [] && !HasComplemento(original)
    requires i < |original.ordered| && original.ordered[i] == Text(first + second) && first != "" && second != ""
    requires IsNewComplemento(c, timbre) && IsOneTfd(timbre)
    ensures !Accepted(StampAppended(Halves(original, i, first, second), i + 1, c), original)
  {
    hide *;
    var halves := Halves(original, i, first, second);
    SplitHasNoStamp(original, i, first, second);
    NoRootDrop(original, i, first, second);
    AppendedIsRemoved(halves, i + 1, c, timbre);
    LongerIsRejected(StampAppended(halves, i + 1, c), original);
  }

  /** The document with a text node of the Complemento at index k cut in two. */
  function CutInside(original: Node, k: nat, j: nat, first: string, second: string): (cut: Node)
    requires k < |original.ordered| && original.ordered[k].Elem? && j < |original.ordered[k].node.ordered|
    ensures |cut.ordered| == |original.ordered|
    ensures cut.ordered[k].Elem? && |cut.ordered[k].node.ordered| == |original.ordered[k].node.ordered| + 1
    ensures cut.ordered[k].node.name == original.ordered[k].node.name
    ensures cut.ordered[k].node.ns == original.ordered[k].node.ns
  {
    original.(ordered := original.ordered[k := Elem(Halves(original.ordered[k].node, j, first, second))])
  }

  /** Nor is a TFD inserted inside a text node of the Complemento. */
  lemma SplitTextInsideRejected(original: Node, k: nat, j: nat, first: string, second: string, timbre: Node)
    requires Named(original, TFD_NAME) == []
    requires k < |original.ordered| && original.ordered[k].Elem? && IsComplemento(original.ordered[k].node)
    requires j < |original.ordered[k].node.ordered| && first != "" && second != ""
    requires original.ordered[k].node.ordered[j] == Text(first + second) && IsOneTfd(timbre)
    ensures !Accepted(StampInside(CutInside(original, k, j, first, second), k, j + 1, timbre), original)
  {
    hide Halves, Children, Named, IsComplemento, IsOneTfd, IsCfdi40, StampInside, CutInside;
    var cut := CutInside(original, k, j, first, second);
    CutHasNoStamp(original, k, j, first, second);
    SameKind(original.ordered[k].node, cut.ordered[k].node);
    InsideIsRemoved(cut, k, j + 1, timbre);
    ChildAt(original.ordered, k);
    hide WithoutTfd;
    CutIsVisible(original, cut, k);
    hide SameNode;
  }

  lemma CutIsVisible(original: Node, cut: Node, k: nat)
    requires k < |original.ordered| == |cut.ordered| && original.ordered[k].Elem? && cut.ordered[k].Elem?
    requires |original.ordered[k].node.ordered| != |cut.ordered[k].node.ordered|
    ensures !SameNode(cut, original)
  {
    assert !SameItem(cut.ordered[k], original.ordered[k]);
  }

  lemma CutHasNoStamp(original: Node, k: nat, j: nat, first: string, second: string)
    requires Named(original, TFD_NAME) == []
    requires k < |original.ordered| && original.ordered[k].Elem? && j < |original.ordered[k].node.ordered|
    ensures Named(CutInside(original, k, j, first, second), TFD_NAME) == []
  {
    var c := original.ordered[k].node;
    var c' := Halves(c, j, first, second);
    hide NamedItems, Halves, SameName;
    NamedReplacement(original.ordered, k, Elem(c'));
    SplitHasNoStamp(c, j, first, second);
  }

  lemma LongerIsRejected(stamped: Node, original: Node)
    requires !HasComplemento(original) && |Strip(stamped, false).ordered| != |original.ordered|
    ensures !Accepted(stamped, original)
  {
    hide Strip, HasComplemento, IsCfdi40, Placed, Named;
  }

  lemma SplitHasNoStamp(original: Node, i: nat, first: string, second: string)
    requires Named(original, TFD_NAME) == [] && i < |original.ordered|
    ensures Named(Halves(original, i, first, second), TFD_NAME) == []
  {
    hide NamedItems, InsertAt, SameName;
    NamedReplacement(original.ordered, i, Text(second));
    NamedInserted(original.ordered[i := Text(second)], i, Text(first));
  }

  lemma {:induction false} InsertLength(s: seq<Item>, i: nat, item: Item)
    requires i <= |s|
    ensures |InsertAt(s, i, item)| == |s| + 1
  {
    if i > 0 {
      InsertLength(s[1..], i - 1, item);
    }
  }

  lemma NoRootDrop(original: Node, i: nat, first: string, second: string)
    requires !HasComplemento(original) && i < |original.ordered|
    ensures |DropEmpty(Halves(original, i, first, second)).ordered| == |original.ordered| + 1
  {
    var s := original.ordered;
    forall k | 0 <= k < |s| && s[k].Elem?
      ensures !IsComplemento(s[k].node)
    {
      ChildAt(s, k);
    }
    hide HasComplemento, IsComplemento;
    DropsNone(s[i := Text(second)], i, Text(first));
  }

  lemma {:induction false} DropsNone(s: seq<Item>, i: nat, item: Item)
    requires i <= |s| && item.Text? && forall k | 0 <= k < |s| && s[k].Elem? :: !IsComplemento(s[k].node)
    ensures |DropEmptyItems(InsertAt(s, i, item))| == |s| + 1
  {
    hide IsComplemento, DropEmpty;
    if i > 0 {
      DropsNone(s[1..], i - 1, item);
    } else {
      DropsNothing(s);
    }
  }

  lemma {:induction false} DropsNothing(s: seq<Item>)
    requires forall k | 0 <= k < |s| && s[k].Elem? :: !IsComplemento(s[k].node)
    ensures |DropEmptyItems(s)| == |s|
  {
    hide IsComplemento, DropEmpty;
    if s != [] {
      DropsNothing(s[1..]);
    }
  }
}
