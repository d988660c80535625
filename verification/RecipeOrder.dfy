/** The explosion does not depend on the order in which recipes list their items. */
module RecipeOrder {
  import opened Recipes
  import opened RecipeSums
  import opened Ordering
  import Money

  predicate SameRecipe(r: Recipe, q: Recipe) {
    r.yieldQuantity == q.yieldQuantity && multiset(r.items) == multiset(q.items)
  }

  /** The same book with the items of each recipe in another order. */
  predicate Reordered(a: Book, b: Book) {
    a.Keys == b.Keys && forall id | id in a :: SameRecipe(a[id], b[id])
  }

  lemma SumNext(f: Item -> Amount, items: seq<Item>, item: Item)
    ensures SumOver(f, items + [item]) == Plus(SumOver(f, items), f(item))
  {
    assert (items + [item])[..|items|] == items;
  }

  lemma {:induction false} SumWithout(f: Item -> Amount, items: seq<Item>, k: nat)
    requires k < |items|
    ensures SumOver(f, items) == Plus(SumOver(f, items[..k] + items[k + 1..]), f(items[k]))
  {
    hide Plus;
    var n := |items| - 1;
    assert items == items[..n] + [items[n]];
    SumNext(f, items[..n], items[n]);
    if k == n {
      assert items[..k] + items[k + 1..] == items[..n];
    } else {
      SumWithout(f, items[..n], k);
      var rest := items[..n][..k] + items[..n][k + 1..];
      assert items[..k] + items[k + 1..] == rest + [items[n]];
      SumNext(f, rest, items[n]);
      Swap(SumOver(f, rest), f(items[k]), f(items[n]));
    }
  }

  lemma Swap(a: Amount, b: Amount, c: Amount)
    ensures Plus(Plus(a, b), c) == Plus(Plus(a, c), b)
  {
  }

  lemma Without(s: seq<Item>, k: nat)
    requires k < |s|
    ensures multiset(s[..k] + s[k + 1..]) == multiset(s) - multiset{s[k]}
  {
    assert s == s[..k] + [s[k]] + s[k + 1..];
    assert multiset(s) == multiset(s[..k]) + multiset{s[k]} + multiset(s[k + 1..]);
  }

  lemma {:induction false} SumPermuted(f: Item -> Amount, a: seq<Item>, b: seq<Item>)
    requires multiset(a) == multiset(b)
    ensures SumOver(f, a) == SumOver(f, b)
  {
    assert |multiset(a)| == |a| && |multiset(b)| == |b|;
    if a != [] {
      var n := |a| - 1;
      assert a[n] in multiset(b);
      var k :| 0 <= k < |b| && b[k] == a[n];
      var rest := b[..k] + b[k + 1..];
      Without(a, n);
      Without(b, k);
      assert a[..n] + a[n + 1..] == a[..n];
      SumPermuted(f, a[..n], rest);
      SumWithout(f, b, k);
    }
  }

  lemma {:induction false} SumCongruent(f: Item -> Amount, g: Item -> Amount, items: seq<Item>)
    requires forall item | item in items :: f(item) == g(item)
    ensures SumOver(f, items) == SumOver(g, items)
  {
    if items != [] {
      SumCongruent(f, g, items[..|items| - 1]);
    }
  }

  lemma {:induction false} SameAmount(a: Book, b: Book, id: nat, factor: int, stack: seq<nat>, x: nat)
    requires Reordered(a, b) && id in a && a[id].yieldQuantity > 0
    ensures id in b && b[id].yieldQuantity > 0
    ensures RecipeAmount(a, id, factor, stack, x) == RecipeAmount(b, id, factor, stack, x)
    decreases a.Keys - Elems(stack), 1
  {
    hide Effective;
    assert SameRecipe(a[id], b[id]);
    var y := a[id].yieldQuantity;
    var f := (item: Item) => ItemAmount(a, y, item, factor, stack, x);
    var g := (item: Item) => ItemAmount(b, y, item, factor, stack, x);
    forall item | item in a[id].items
      ensures f(item) == g(item)
    {
      SameItemAmount(a, b, y, item, factor, stack, x);
    }
    SumCongruent(f, g, a[id].items);
    SumPermuted(g, a[id].items, b[id].items);
    hide ItemAmount, SumOver;
  }

  lemma {:induction false} SameItemAmount(a: Book, b: Book, y: int, item: Item, factor: int, stack: seq<nat>, x: nat)
    requires Reordered(a, b) && y > 0
    ensures ItemAmount(a, y, item, factor, stack, x) == ItemAmount(b, y, item, factor, stack, x)
    decreases a.Keys - Elems(stack), 0
  {
    hide Effective, RecipeAmount;
    if item.Sub? && item.id !in stack && item.id in a {
      assert SameRecipe(a[item.id], b[item.id]);
      if a[item.id].yieldQuantity > 0 {
        Shrinks(a, stack, item.id);
        SameAmount(a, b, item.id, Effective(factor, item.gross, y), stack + [item.id], x);
      }
    }
  }

  /* Cycles do not depend on the order either. */

  lemma SameEdge(a: Book, b: Book, u: nat, v: nat)
    requires Reordered(a, b)
    ensures Edge(a, u, v) ==> Edge(b, u, v)
  {
    if Edge(a, u, v) {
      assert SameRecipe(a[u], b[u]);
      var k :| 0 <= k < |a[u].items| && a[u].items[k].Sub? && a[u].items[k].id == v;
      assert a[u].items[k] in multiset(b[u].items);
      var j :| 0 <= j < |b[u].items| && b[u].items[j] == a[u].items[k];
    }
  }

  lemma SameCycles(a: Book, b: Book, root: nat)
    requires Reordered(a, b)
    ensures CycleReachable(a, root) ==> CycleReachable(b, root)
  {
    hide Edge, Reordered;
    if w :| IsCycleWalk(a, root, w) {
      forall i | 0 <= i < |w| - 1
        ensures Edge(b, w[i], w[i + 1])
      {
        SameEdge(a, b, w[i], w[i + 1]);
      }
      assert IsCycleWalk(b, root, w);
    }
  }

  lemma ReorderedBack(a: Book, b: Book)
    requires Reordered(a, b) && WellFormed(a)
    ensures Reordered(b, a) && WellFormed(b)
  {
    forall id | id in b
      ensures SameRecipe(b[id], a[id])
    {
      assert SameRecipe(a[id], b[id]);
    }
    forall id, k | id in b && 0 <= k < |b[id].items|
      ensures WellFormedItem(b, b[id].items[k])
    {
      assert SameRecipe(a[id], b[id]);
      assert b[id].items[k] in multiset(a[id].items);
      var j :| 0 <= j < |a[id].items| && a[id].items[j] == b[id].items[k];
      assert WellFormedItem(a, a[id].items[j]);
    }
  }

  /* Which ingredients the result lists. */

  predicate HasIngredient(book: Book, id: nat, x: nat) {
    id in book && exists k :: 0 <= k < |book[id].items| && book[id].items[k].Ingredient? && book[id].items[k].id == x
  }

  predicate UseWalk(book: Book, id: nat, x: nat, w: seq<nat>) {
    w != [] && w[0] == id && Walk(book, w) && HasIngredient(book, w[|w| - 1], x)
  }

  /** Some recipe reachable from id names ingredient x. */
  ghost predicate Uses(book: Book, id: nat, x: nat) {
    exists w :: UseWalk(book, id, x, w)
  }

  ghost predicate ItemUses(book: Book, item: Item, x: nat) {
    (item.Ingredient? && item.id == x) || (item.Sub? && Uses(book, item.id, x))
  }

  ghost predicate UsesUpTo(book: Book, id: nat, n: nat, x: nat)
    requires id in book && n <= |book[id].items|
  {
    exists k :: 0 <= k < n && ItemUses(book, book[id].items[k], x)
  }

  lemma UsesItems(book: Book, id: nat, x: nat)
    requires id in book
    ensures Uses(book, id, x) <==> UsesUpTo(book, id, |book[id].items|, x)
  {
    var items := book[id].items;
    if w :| UseWalk(book, id, x, w) {
      if |w| == 1 {
        var k :| 0 <= k < |items| && items[k].Ingredient? && items[k].id == x;
        assert ItemUses(book, items[k], x);
      } else {
        assert Edge(book, w[0], w[0 + 1]);
        var k :| 0 <= k < |items| && items[k].Sub? && items[k].id == w[1];
        TailWalk(book, w);
        assert UseWalk(book, w[1], x, w[1..]);
        assert ItemUses(book, items[k], x);
      }
    }
    if k :| 0 <= k < |items| && ItemUses(book, items[k], x) {
      if items[k].Ingredient? {
        assert UseWalk(book, id, x, [id]);
      } else {
        var w :| UseWalk(book, items[k].id, x, w);
        assert Edge(book, id, w[0]);
        assert UseWalk(book, id, x, [id] + w) by {
          HeadWalk(book, id, w);
        }
      }
    }
  }

  lemma TailWalk(book: Book, w: seq<nat>)
    requires |w| > 1 && Walk(book, w)
    ensures Walk(book, w[1..])
  {
    hide Edge;
    forall i | 0 <= i < |w[1..]| - 1
      ensures Edge(book, w[1..][i], w[1..][i + 1])
    {
      assert Edge(book, w[i + 1], w[i + 1 + 1]);
    }
  }

  lemma HeadWalk(book: Book, id: nat, w: seq<nat>)
    requires w != [] && Walk(book, w) && Edge(book, id, w[0])
    ensures Walk(book, [id] + w)
  {
    hide Edge;
    var v := [id] + w;
    forall i | 0 <= i < |v| - 1
      ensures Edge(book, v[i], v[i + 1])
    {
      if i > 0 {
        assert Edge(book, w[i - 1], w[i - 1 + 1]);
      }
    }
  }

  ghost predicate AccOk(acc: Acc) {
    && (forall id :: id in acc.amounts <==> id in acc.keys)
    && (forall i, j | 0 <= i < j < |acc.keys| :: acc.keys[i] != acc.keys[j])
  }

  /** Every ingredient that a reachable recipe names gets a key, and no other. */
  lemma {:induction false} KeysExact(book: Book, id: nat, factor: int, stack: seq<nat>, acc: Acc)
    requires id in book && AccOk(acc) && ExplodeRecipe(book, id, factor, stack, acc).Ok?
    ensures AccOk(ExplodeRecipe(book, id, factor, stack, acc).value)
    ensures forall x :: x in ExplodeRecipe(book, id, factor, stack, acc).value.amounts <==> x in acc.amounts || Uses(book, id, x)
    decreases book.Keys - Elems(stack), |book[id].items| + 1, 0
  {
    hide Effective, Uses, AccOk;
    assert book[id].items[..|book[id].items|] == book[id].items;
    forall x
      ensures Uses(book, id, x) <==> UsesUpTo(book, id, |book[id].items|, x)
    {
      UsesItems(book, id, x);
    }
    hide UsesUpTo, ExplodeItems;
    ItemsKeys(book, id, |book[id].items|, factor, stack, acc);
  }

  lemma {:induction false} ItemsKeys(book: Book, id: nat, n: nat, factor: int, stack: seq<nat>, acc: Acc)
    requires id in book && book[id].yieldQuantity > 0 && n <= |book[id].items| && AccOk(acc)
    requires ExplodeItems(book, book[id].yieldQuantity, book[id].items[..n], factor, stack, acc).Ok?
    ensures var after := ExplodeItems(book, book[id].yieldQuantity, book[id].items[..n], factor, stack, acc).value;
            AccOk(after) && forall x :: x in after.amounts <==> x in acc.amounts || UsesUpTo(book, id, n, x)
    decreases book.Keys - Elems(stack), n, 1
  {
    hide Effective, Uses, AccOk, ItemUses;
    if n > 0 {
      var y, items := book[id].yieldQuantity, book[id].items;
      assert items[..n][..n - 1] == items[..n - 1];
      var before := ExplodeItems(book, y, items[..n - 1], factor, stack, acc).value;
      ItemsKeys(book, id, n - 1, factor, stack, acc);
      ItemKeys(book, y, items[n - 1], factor, stack, before);
      hide ExplodeItem;
    }
  }

  lemma {:induction false} ItemKeys(book: Book, y: int, item: Item, factor: int, stack: seq<nat>, acc: Acc)
    requires y > 0 && AccOk(acc) && ExplodeItem(book, y, item, factor, stack, acc).Ok?
    ensures var after := ExplodeItem(book, y, item, factor, stack, acc).value;
            AccOk(after) && forall x :: x in after.amounts <==> x in acc.amounts || ItemUses(book, item, x)
    decreases book.Keys - Elems(stack), 0, 0
  {
    hide Effective, Uses, ExplodeRecipe;
    if item.Sub? {
      Shrinks(book, stack, item.id);
      KeysExact(book, item.id, Effective(factor, item.gross, y), stack + [item.id], acc);
    }
  }

  /** The result: one entry per key, sorted by ingredient id. */
  function Listed(acc: Acc): seq<(nat, Amount)> {
    var ids := Sort(Ascending, acc.keys);
    seq(|ids|, i requires 0 <= i < |ids| => (ids[i], Get(acc, ids[i])))
  }

  /** Every amount fits DECIMAL(12,4). */
  predicate AllInRange(list: seq<(nat, Amount)>) {
    forall k | 0 <= k < |list| :: Money.InRange(list[k].1.net) && Money.InRange(list[k].1.gross)
  }

  lemma SameKeysSameOrder(a: Acc, b: Acc)
    requires AccOk(a) && AccOk(b) && forall x :: x in a.amounts <==> x in b.amounts
    ensures Sort(Ascending, a.keys) == Sort(Ascending, b.keys)
  {
    forall x
      ensures multiset(a.keys)[x] == multiset(b.keys)[x]
    {
      CountOne(a.keys, x);
      CountOne(b.keys, x);
    }
    SortForgetsOrder(Ascending, a.keys, b.keys);
  }

  lemma {:induction false} CountOne(s: seq<nat>, x: nat)
    requires forall i, j | 0 <= i < j < |s| :: s[i] != s[j]
    ensures multiset(s)[x] == if x in s then 1 else 0
  {
    if s != [] {
      var n := |s| - 1;
      CountOne(s[..n], x);
      assert s == s[..n] + [s[n]];
    }
  }

  lemma SameUses(a: Book, b: Book, id: nat, x: nat)
    requires Reordered(a, b) && Uses(a, id, x)
    ensures Uses(b, id, x)
  {
    hide Edge, Reordered, HasIngredient;
    var w :| UseWalk(a, id, x, w);
    forall i | 0 <= i < |w| - 1
      ensures Edge(b, w[i], w[i + 1])
    {
      SameEdge(a, b, w[i], w[i + 1]);
    }
    SameIngredient(a, b, w[|w| - 1], x);
    assert UseWalk(b, id, x, w);
  }

  lemma SameIngredient(a: Book, b: Book, id: nat, x: nat)
    requires Reordered(a, b) && HasIngredient(a, id, x)
    ensures HasIngredient(b, id, x)
  {
    assert SameRecipe(a[id], b[id]);
    var k :| 0 <= k < |a[id].items| && a[id].items[k].Ingredient? && a[id].items[k].id == x;
    assert a[id].items[k] in multiset(b[id].items);
    var j :| 0 <= j < |b[id].items| && b[id].items[j] == a[id].items[k];
  }

  /** With items in another order the explosion succeeds or fails alike, with the same amounts. */
  lemma SameOutcome(a: Book, b: Book, root: nat, factor: int)
    requires Reordered(a, b) && WellFormed(a) && root in a
    ensures root in b
    ensures var r, q := ExplodeRecipe(a, root, factor, [root], EMPTY), ExplodeRecipe(b, root, factor, [root], EMPTY);
            (r.Ok? <==> q.Ok?) && (r.Ok? ==> forall x :: Get(r.value, x) == Get(q.value, x))
  {
    ReorderedBack(a, b);
    SameCycles(a, b, root);
    SameCycles(b, a, root);
    hide CycleReachable, Effective, RecipeAmount, ExplodeRecipe, Get, Plus, WellFormed, Reordered;
    CycleErrorExactly(a, root, factor);
    CycleErrorExactly(b, root, factor);
    if ExplodeRecipe(a, root, factor, [root], EMPTY).Ok? {
      forall x
        ensures Get(ExplodeRecipe(a, root, factor, [root], EMPTY).value, x)
             == Get(ExplodeRecipe(b, root, factor, [root], EMPTY).value, x)
      {
        ExplodeAdds(a, root, factor, [root], EMPTY, x);
        ExplodeAdds(b, root, factor, [root], EMPTY, x);
        SameAmount(a, b, root, factor, [root], x);
      }
    }
  }

  /** The list of exploded ingredients does not depend on the order of items in any recipe. */
  lemma OrderDoesNotMatter(a: Book, b: Book, root: nat, factor: int)
    requires Reordered(a, b) && WellFormed(a) && root in a
    ensures root in b
    ensures var r, q := ExplodeRecipe(a, root, factor, [root], EMPTY), ExplodeRecipe(b, root, factor, [root], EMPTY);
            (r.Ok? <==> q.Ok?) && (r.Ok? ==> Listed(r.value) == Listed(q.value))
  {
    SameOutcome(a, b, root, factor);
    ReorderedBack(a, b);
    hide Effective, ExplodeRecipe, Get, WellFormed, Reordered, Uses;
    var r, q := ExplodeRecipe(a, root, factor, [root], EMPTY), ExplodeRecipe(b, root, factor, [root], EMPTY);
    if r.Ok? {
      assert AccOk(EMPTY);
      KeysExact(a, root, factor, [root], EMPTY);
      KeysExact(b, root, factor, [root], EMPTY);
      forall x
        ensures Uses(a, root, x) <==> Uses(b, root, x)
      {
        if Uses(a, root, x) {
          SameUses(a, b, root, x);
        }
        if Uses(b, root, x) {
          SameUses(b, a, root, x);
        }
      }
      hide AccOk;
      SameKeysSameOrder(r.value, q.value);
      hide Sort;
    }
  }
}
