/** What the explosion accumulates: for each ingredient, the sum over all root-to-leaf paths. */
module RecipeSums {
  import opened Recipes

  function SumOver(f: Item -> Amount, items: seq<Item>): Amount {
    if items == [] then ZERO else Plus(SumOver(f, items[..|items| - 1]), f(items[|items| - 1]))
  }

  /** What one item contributes of ingredient x; nothing where the explosion would throw. */
  function ItemAmount(book: Book, y: int, item: Item, factor: int, stack: seq<nat>, x: nat): Amount
    requires y > 0
    decreases book.Keys - Elems(stack), 0
  {
    match item
    case Malformed => ZERO
    case Ingredient(i, net, gross) =>
      if i == x then Amount(Effective(factor, net, y), Effective(factor, gross, y)) else ZERO
    case Sub(s, net, gross) =>
      if s in stack || s !in book || book[s].yieldQuantity <= 0 then ZERO
      else
        Shrinks(book, stack, s);
        RecipeAmount(book, s, Effective(factor, gross, y), stack + [s], x)
  }

  function RecipeAmount(book: Book, id: nat, factor: int, stack: seq<nat>, x: nat): Amount
    requires id in book && book[id].yieldQuantity > 0
    decreases book.Keys - Elems(stack), 1
  {
    SumOver((item: Item) => ItemAmount(book, book[id].yieldQuantity, item, factor, stack, x), book[id].items)
  }

  /** The contribution of the first n items. */
  function PartAmount(book: Book, id: nat, n: nat, factor: int, stack: seq<nat>, x: nat): Amount
    requires id in book && book[id].yieldQuantity > 0 && n <= |book[id].items|
  {
    SumOver((item: Item) => ItemAmount(book, book[id].yieldQuantity, item, factor, stack, x), book[id].items[..n])
  }

  lemma PartNext(book: Book, id: nat, n: nat, factor: int, stack: seq<nat>, x: nat)
    requires id in book && book[id].yieldQuantity > 0 && n < |book[id].items|
    ensures PartAmount(book, id, n + 1, factor, stack, x)
         == Plus(PartAmount(book, id, n, factor, stack, x),
                 ItemAmount(book, book[id].yieldQuantity, book[id].items[n], factor, stack, x))
    ensures PartAmount(book, id, 0, factor, stack, x) == ZERO
    ensures PartAmount(book, id, |book[id].items|, factor, stack, x) == RecipeAmount(book, id, factor, stack, x)
  {
    hide Effective;
    hide ItemAmount;
    var items := book[id].items;
    assert items[..n + 1][..n] == items[..n];
    assert items[..|items|] == items;
  }

  lemma PartWhole(book: Book, id: nat, factor: int, stack: seq<nat>, x: nat)
    requires id in book && book[id].yieldQuantity > 0
    ensures PartAmount(book, id, 0, factor, stack, x) == ZERO
    ensures PartAmount(book, id, |book[id].items|, factor, stack, x) == RecipeAmount(book, id, factor, stack, x)
  {
    hide Effective;
    hide ItemAmount;
    assert book[id].items[..|book[id].items|] == book[id].items;
  }

  lemma PlusLaws(a: Amount, b: Amount, c: Amount)
    ensures Plus(Plus(a, b), c) == Plus(a, Plus(b, c)) && Plus(a, ZERO) == a && Plus(ZERO, a) == a
  {
  }

  lemma GetAdd(acc: Acc, id: nat, a: Amount, x: nat)
    ensures Get(Add(acc, id, a), x) == if x == id then Plus(Get(acc, x), a) else Get(acc, x)
  {
  }

  /** The accumulator grows by the recipe's amount, ingredient by ingredient. */
  lemma {:induction false} ExplodeAdds(book: Book, id: nat, factor: int, stack: seq<nat>, acc: Acc, x: nat)
    requires id in book && ExplodeRecipe(book, id, factor, stack, acc).Ok?
    ensures book[id].yieldQuantity > 0
    ensures Get(ExplodeRecipe(book, id, factor, stack, acc).value, x) == Plus(Get(acc, x), RecipeAmount(book, id, factor, stack, x))
    decreases book.Keys - Elems(stack), |book[id].items| + 1, 0
  {
    hide Effective;
    var items := book[id].items;
    assert items[..|items|] == items;
    PartWhole(book, id, factor, stack, x);
    hide RecipeAmount, PartAmount, ExplodeItems;
    ItemsAdd(book, id, |items|, factor, stack, acc, x);
  }

  lemma {:induction false} ItemsAdd(book: Book, id: nat, n: nat, factor: int, stack: seq<nat>, acc: Acc, x: nat)
    requires id in book && book[id].yieldQuantity > 0 && n <= |book[id].items|
    requires ExplodeItems(book, book[id].yieldQuantity, book[id].items[..n], factor, stack, acc).Ok?
    ensures Get(ExplodeItems(book, book[id].yieldQuantity, book[id].items[..n], factor, stack, acc).value, x)
         == Plus(Get(acc, x), PartAmount(book, id, n, factor, stack, x))
    decreases book.Keys - Elems(stack), n, 1
  {
    hide Effective, Get, Plus, PartAmount, ItemAmount, ExplodeItem;
    if n == 0 {
      PartWhole(book, id, factor, stack, x);
      PlusLaws(Get(acc, x), ZERO, ZERO);
    } else {
      var y, items := book[id].yieldQuantity, book[id].items;
      assert items[..n][..n - 1] == items[..n - 1];
      var before := ExplodeItems(book, y, items[..n - 1], factor, stack, acc).value;
      ItemsAdd(book, id, n - 1, factor, stack, acc, x);
      PartNext(book, id, n - 1, factor, stack, x);
      ItemAdds(book, y, items[n - 1], factor, stack, before, x);
      PlusLaws(Get(acc, x), PartAmount(book, id, n - 1, factor, stack, x), ItemAmount(book, y, items[n - 1], factor, stack, x));
      hide ExplodeItems;
    }
  }

  lemma {:induction false} ItemAdds(book: Book, y: int, item: Item, factor: int, stack: seq<nat>, acc: Acc, x: nat)
    requires y > 0 && ExplodeItem(book, y, item, factor, stack, acc).Ok?
    ensures Get(ExplodeItem(book, y, item, factor, stack, acc).value, x)
         == Plus(Get(acc, x), ItemAmount(book, y, item, factor, stack, x))
    decreases book.Keys - Elems(stack), 0, 0
  {
    hide Effective, Get, Plus, Add, RecipeAmount, ExplodeRecipe;
    if item.Sub? {
      Shrinks(book, stack, item.id);
      ExplodeAdds(book, item.id, Effective(factor, item.gross, y), stack + [item.id], acc, x);
    } else {
      GetAdd(acc, item.id, Amount(Effective(factor, item.net, y), Effective(factor, item.gross, y)), x);
      PlusLaws(Get(acc, x), ZERO, ZERO);
    }
  }

  /* Paths. */

  /** A path is the list of item positions followed from the root down to an ingredient. */
  type Path = seq<nat>

  predicate LeafPath(book: Book, id: nat, path: Path)
    decreases |path|
  {
    && path != [] && id in book && path[0] < |book[id].items|
    && match book[id].items[path[0]]
       case Malformed => false
       case Ingredient(_, _, _) => |path| == 1
       case Sub(s, _, _) => LeafPath(book, s, path[1..])
  }

  /** What a path delivers of ingredient x: the factor is scaled at each step down. */
  function PathAmount(book: Book, id: nat, factor: int, path: Path, x: nat): Amount
    decreases |path|
  {
    if path == [] || id !in book || book[id].yieldQuantity <= 0 || path[0] >= |book[id].items| then ZERO
    else
      var y := book[id].yieldQuantity;
      match book[id].items[path[0]]
      case Malformed => ZERO
      case Ingredient(i, net, gross) =>
        if i == x then Amount(Effective(factor, net, y), Effective(factor, gross, y)) else ZERO
      case Sub(s, net, gross) => PathAmount(book, s, Effective(factor, gross, y), path[1..], x)
  }

  function SumPaths(book: Book, id: nat, factor: int, paths: seq<Path>, x: nat): Amount {
    if paths == [] then ZERO else
      Plus(PathAmount(book, id, factor, paths[0], x), SumPaths(book, id, factor, paths[1..], x))
  }

  function Under(k: nat, paths: seq<Path>): seq<Path> {
    seq(|paths|, i requires 0 <= i < |paths| => [k] + paths[i])
  }

  /** All paths below the first n items, in traversal order. */
  function PathsUpTo(book: Book, id: nat, n: nat, stack: seq<nat>): seq<Path>
    requires id in book && n <= |book[id].items|
    decreases book.Keys - Elems(stack), n, 1
  {
    if n == 0 then [] else
      PathsUpTo(book, id, n - 1, stack)
      + match book[id].items[n - 1]
        case Malformed => []
        case Ingredient(_, _, _) => [[n - 1]]
        case Sub(s, _, _) =>
          if s in stack || s !in book then [] else
            Shrinks(book, stack, s);
            Under(n - 1, AllPaths(book, s, stack + [s]))
  }

  function AllPaths(book: Book, id: nat, stack: seq<nat>): seq<Path>
    requires id in book
    decreases book.Keys - Elems(stack), |book[id].items| + 1, 0
  {
    PathsUpTo(book, id, |book[id].items|, stack)
  }

  lemma {:induction false} SumPathsJoin(book: Book, id: nat, factor: int, a: seq<Path>, b: seq<Path>, x: nat)
    ensures SumPaths(book, id, factor, a + b, x) == Plus(SumPaths(book, id, factor, a, x), SumPaths(book, id, factor, b, x))
  {
    hide PathAmount, Plus;
    if a == [] {
      assert a + b == b;
      PlusLaws(SumPaths(book, id, factor, b, x), ZERO, ZERO);
    } else {
      SumPathsJoin(book, id, factor, a[1..], b, x);
      assert (a + b)[1..] == a[1..] + b && (a + b)[0] == a[0];
      PlusLaws(PathAmount(book, id, factor, a[0], x), SumPaths(book, id, factor, a[1..], x), SumPaths(book, id, factor, b, x));
    }
  }

  lemma {:induction false} SumUnder(book: Book, id: nat, k: nat, factor: int, paths: seq<Path>, x: nat)
    requires id in book && book[id].yieldQuantity > 0 && k < |book[id].items| && book[id].items[k].Sub?
    ensures SumPaths(book, id, factor, Under(k, paths), x)
         == SumPaths(book, book[id].items[k].id, Effective(factor, book[id].items[k].gross, book[id].yieldQuantity), paths, x)
  {
    hide Effective;
    if paths != [] {
      SumUnder(book, id, k, factor, paths[1..], x);
      var all := Under(k, paths);
      assert all[0] == [k] + paths[0] && all[0][1..] == paths[0];
      assert all[1..] == Under(k, paths[1..]);
    }
  }

  predicate PositiveYields(book: Book) {
    forall r | r in book :: book[r].yieldQuantity > 0
  }

  /** The paths below item n. */
  function ItemPaths(book: Book, id: nat, n: nat, stack: seq<nat>): seq<Path>
    requires id in book && n < |book[id].items|
  {
    match book[id].items[n]
    case Malformed => []
    case Ingredient(_, _, _) => [[n]]
    case Sub(s, _, _) => if s in stack || s !in book then [] else Under(n, AllPaths(book, s, stack + [s]))
  }

  lemma PathsNext(book: Book, id: nat, n: nat, stack: seq<nat>)
    requires id in book && n < |book[id].items|
    ensures PathsUpTo(book, id, n + 1, stack) == PathsUpTo(book, id, n, stack) + ItemPaths(book, id, n, stack)
  {
  }

  lemma {:induction false} PathsSum(book: Book, id: nat, n: nat, factor: int, stack: seq<nat>, x: nat)
    requires id in book && n <= |book[id].items| && PositiveYields(book)
    ensures SumPaths(book, id, factor, PathsUpTo(book, id, n, stack), x) == PartAmount(book, id, n, factor, stack, x)
    decreases book.Keys - Elems(stack), n, 1
  {
    hide *;
    if n == 0 {
      PathsSumZero(book, id, factor, stack, x);
    } else {
      PathsSum(book, id, n - 1, factor, stack, x);
      ItemPathsSum(book, id, n - 1, factor, stack, x);
      PathsSumNext(book, id, n - 1, factor, stack, x);
    }
  }

  lemma PathsSumZero(book: Book, id: nat, factor: int, stack: seq<nat>, x: nat)
    requires id in book && PositiveYields(book)
    ensures SumPaths(book, id, factor, PathsUpTo(book, id, 0, stack), x) == PartAmount(book, id, 0, factor, stack, x)
  {
    hide PartAmount;
    PartWhole(book, id, factor, stack, x);
  }

  lemma PathsSumNext(book: Book, id: nat, n: nat, factor: int, stack: seq<nat>, x: nat)
    requires id in book && n < |book[id].items| && PositiveYields(book)
    requires SumPaths(book, id, factor, PathsUpTo(book, id, n, stack), x) == PartAmount(book, id, n, factor, stack, x)
    requires SumPaths(book, id, factor, ItemPaths(book, id, n, stack), x)
          == ItemAmount(book, book[id].yieldQuantity, book[id].items[n], factor, stack, x)
    ensures SumPaths(book, id, factor, PathsUpTo(book, id, n + 1, stack), x)
         == PartAmount(book, id, n + 1, factor, stack, x)
  {
    assert book[id].yieldQuantity > 0;
    hide *;
    PartNext(book, id, n, factor, stack, x);
    PathsNext(book, id, n, stack);
    SumPathsJoin(book, id, factor, PathsUpTo(book, id, n, stack), ItemPaths(book, id, n, stack), x);
  }

  lemma {:induction false} ItemPathsSum(book: Book, id: nat, n: nat, factor: int, stack: seq<nat>, x: nat)
    requires id in book && n < |book[id].items| && PositiveYields(book)
    ensures SumPaths(book, id, factor, ItemPaths(book, id, n, stack), x)
         == ItemAmount(book, book[id].yieldQuantity, book[id].items[n], factor, stack, x)
    decreases book.Keys - Elems(stack), n, 2
  {
    hide Effective;
    var item, y := book[id].items[n], book[id].yieldQuantity;
    if item.Sub? {
      if item.id !in stack && item.id in book {
        hide SumPaths, PathsUpTo, RecipeAmount, PartAmount;
        Shrinks(book, stack, item.id);
        var f, inner := Effective(factor, item.gross, y), stack + [item.id];
        PathsSum(book, item.id, |book[item.id].items|, f, inner, x);
        PartWhole(book, item.id, f, inner, x);
        SumUnder(book, id, n, factor, AllPaths(book, item.id, inner), x);
      }
    } else if item.Ingredient? {
      SumOne(book, id, factor, [n], x);
    }
  }

  lemma SumOne(book: Book, id: nat, factor: int, path: Path, x: nat)
    ensures SumPaths(book, id, factor, [path], x) == PathAmount(book, id, factor, path, x)
  {
    hide PathAmount;
    assert SumPaths(book, id, factor, [], x) == ZERO;
  }

  /* The list of paths is complete and without repetition. */

  lemma InUnder(k: nat, paths: seq<Path>, p: Path)
    ensures p in Under(k, paths) <==> p != [] && p[0] == k && p[1..] in paths
  {
    var all := Under(k, paths);
    if p in all {
      var i :| 0 <= i < |all| && all[i] == p;
      assert p[1..] == paths[i];
    }
    if p != [] && p[0] == k && p[1..] in paths {
      var i :| 0 <= i < |paths| && paths[i] == p[1..];
      assert all[i] == p;
    }
  }

  /** The explosion from here, with this stack, meets no cycle. */
  ghost predicate Explodes(book: Book, id: nat, stack: seq<nat>)
    requires id in book
  {
    exists factor, acc :: ExplodeRecipe(book, id, factor, stack, acc).Ok?
  }

  lemma SubExplodes(book: Book, id: nat, stack: seq<nat>, k: nat)
    requires id in book && Explodes(book, id, stack) && k < |book[id].items| && book[id].items[k].Sub?
    ensures var s := book[id].items[k].id; s !in stack && s in book && Explodes(book, s, stack + [s])
  {
    var factor, acc :| ExplodeRecipe(book, id, factor, stack, acc).Ok?;
    hide ExplodeItem, Effective;
    var f, a := ItemsVisited(book, book[id].yieldQuantity, book[id].items, factor, stack, acc, k);
  }

  lemma {:induction false} PathsExact(book: Book, id: nat, n: nat, stack: seq<nat>, p: Path)
    requires id in book && Explodes(book, id, stack) && n <= |book[id].items|
    ensures p in PathsUpTo(book, id, n, stack) <==> LeafPath(book, id, p) && p[0] < n
    decreases book.Keys - Elems(stack), n, 1
  {
    hide *;
    if n == 0 {
      NoPaths(book, id, stack);
      LeafStart(book, id, p);
    } else {
      PathsExact(book, id, n - 1, stack, p);
      ItemPathsExact(book, id, n - 1, stack, p);
      PathsNext(book, id, n - 1, stack);
    }
  }

  lemma NoPaths(book: Book, id: nat, stack: seq<nat>)
    requires id in book
    ensures PathsUpTo(book, id, 0, stack) == []
  {
  }

  lemma {:induction false} ItemPathsExact(book: Book, id: nat, n: nat, stack: seq<nat>, p: Path)
    requires id in book && Explodes(book, id, stack) && n < |book[id].items|
    ensures p in ItemPaths(book, id, n, stack) <==> LeafPath(book, id, p) && p[0] == n
    decreases book.Keys - Elems(stack), n, 2
  {
    hide Explodes, PathsUpTo;
    var item := book[id].items[n];
    if item.Sub? {
      SubExplodes(book, id, stack, n);
      Shrinks(book, stack, item.id);
      var inner := stack + [item.id];
      InUnder(n, AllPaths(book, item.id, inner), p);
      if p != [] {
        PathsExact(book, item.id, |book[item.id].items|, inner, p[1..]);
      }
      hide Under;
    } else {
      assert |p| == 1 && p[0] == n <==> p == [n];
    }
  }

  predicate Distinct(paths: seq<Path>) {
    forall i, j | 0 <= i < j < |paths| :: paths[i] != paths[j]
  }

  lemma {:induction false} PathsDistinct(book: Book, id: nat, n: nat, stack: seq<nat>)
    requires id in book && Explodes(book, id, stack) && n <= |book[id].items|
    ensures Distinct(PathsUpTo(book, id, n, stack))
    decreases book.Keys - Elems(stack), n, 1
  {
    hide Explodes;
    if n > 0 {
      hide *;
      PathsDistinct(book, id, n - 1, stack);
      ItemPathsDistinct(book, id, n - 1, stack);
      DistinctNext(book, id, n - 1, stack);
    }
  }

  lemma DistinctNext(book: Book, id: nat, n: nat, stack: seq<nat>)
    requires id in book && Explodes(book, id, stack) && n < |book[id].items|
    requires Distinct(PathsUpTo(book, id, n, stack)) && Distinct(ItemPaths(book, id, n, stack))
    ensures Distinct(PathsUpTo(book, id, n + 1, stack))
  {
    hide *;
    var a, b := PathsUpTo(book, id, n, stack), ItemPaths(book, id, n, stack);
    PathsNext(book, id, n, stack);
    forall i, j | 0 <= i < |a| && 0 <= j < |b|
      ensures a[i] != b[j]
    {
      assert a[i] in a && b[j] in b;
      PathsExact(book, id, n, stack, a[i]);
      ItemPathsExact(book, id, n, stack, b[j]);
    }
    DistinctJoin(a, b);
  }

  lemma DistinctJoin(a: seq<Path>, b: seq<Path>)
    requires Distinct(a) && Distinct(b) && forall i, j | 0 <= i < |a| && 0 <= j < |b| :: a[i] != b[j]
    ensures Distinct(a + b)
  {
  }

  lemma {:induction false} ItemPathsDistinct(book: Book, id: nat, n: nat, stack: seq<nat>)
    requires id in book && Explodes(book, id, stack) && n < |book[id].items|
    ensures Distinct(ItemPaths(book, id, n, stack))
    decreases book.Keys - Elems(stack), n, 2
  {
    hide Explodes, PathsUpTo;
    var item := book[id].items[n];
    if item.Sub? {
      SubExplodes(book, id, stack, n);
      Shrinks(book, stack, item.id);
      var below := AllPaths(book, item.id, stack + [item.id]);
      PathsDistinct(book, item.id, |book[item.id].items|, stack + [item.id]);
      var all := Under(n, below);
      forall i, j | 0 <= i < j < |all|
        ensures all[i] != all[j]
      {
        assert all[i][1..] == below[i] && all[j][1..] == below[j];
      }
    }
  }

  /** A successful explosion holds, for each ingredient, the sum over all root-to-leaf paths, each counted once. */
  lemma ExplosionSumsPaths(book: Book, root: nat, factor: int, x: nat)
    requires WellFormed(book) && root in book && ExplodeRecipe(book, root, factor, [root], EMPTY).Ok?
    ensures Get(ExplodeRecipe(book, root, factor, [root], EMPTY).value, x)
         == SumPaths(book, root, factor, AllPaths(book, root, [root]), x)
    ensures Distinct(AllPaths(book, root, [root]))
    ensures forall p: Path :: p in AllPaths(book, root, [root]) <==> LeafPath(book, root, p)
  {
    ExplosionIsPathSum(book, root, factor, x);
    assert Explodes(book, root, [root]);
    hide *;
    PathsDistinct(book, root, |book[root].items|, [root]);
    AllIsUpTo(book, root, [root]);
    forall p: Path
      ensures p in AllPaths(book, root, [root]) <==> LeafPath(book, root, p)
    {
      PathsExact(book, root, |book[root].items|, [root], p);
      LeafStart(book, root, p);
    }
  }

  lemma AllIsUpTo(book: Book, id: nat, stack: seq<nat>)
    requires id in book
    ensures AllPaths(book, id, stack) == PathsUpTo(book, id, |book[id].items|, stack)
  {
  }

  lemma LeafStart(book: Book, id: nat, p: Path)
    ensures LeafPath(book, id, p) ==> p != [] && id in book && p[0] < |book[id].items|
  {
  }

  lemma ExplosionIsPathSum(book: Book, root: nat, factor: int, x: nat)
    requires WellFormed(book) && root in book && ExplodeRecipe(book, root, factor, [root], EMPTY).Ok?
    ensures Get(ExplodeRecipe(book, root, factor, [root], EMPTY).value, x)
         == SumPaths(book, root, factor, AllPaths(book, root, [root]), x)
  {
    assert Get(EMPTY, x) == ZERO;
    assert PositiveYields(book);
    hide Effective, ExplodeRecipe, SumPaths, PathsUpTo, PartAmount, RecipeAmount, Get, Plus, WellFormed;
    ExplodeAdds(book, root, factor, [root], EMPTY, x);
    PathsSum(book, root, |book[root].items|, factor, [root], x);
    PartWhole(book, root, factor, [root], x);
    PlusLaws(RecipeAmount(book, root, factor, [root], x), ZERO, ZERO);
  }
}
