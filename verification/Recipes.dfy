/** Recipe explosion over a book of recipes that may share subrecipes and may contain cycles. Quantities are
    scale-4 integers. */
module Recipes {
  import opened Results
  import Money

  /** `Malformed`: both or neither of ingredient and subrecipe. */
  datatype Item = Ingredient(id: nat, net: int, gross: int) | Sub(id: nat, net: int, gross: int) | Malformed
  datatype Recipe = Recipe(yieldQuantity: int, items: seq<Item>)

  /** What the recipe resolver answers. */
  type Book = map<nat, Recipe>

  datatype Error = ZeroDivisor(id: nat) | InvalidItem | Cycle(path: seq<nat>) | NotFound(id: nat) | OutOfRange

  datatype Amount = Amount(net: int, gross: int)

  /** The accumulator: a Map with its keys in insertion order. */
  datatype Acc = Acc(keys: seq<nat>, amounts: map<nat, Amount>)

  const EMPTY := Acc([], map[])

  function Plus(a: Amount, b: Amount): Amount {
    Amount(a.net + b.net, a.gross + b.gross)
  }

  const ZERO := Amount(0, 0)

  function Get(acc: Acc, id: nat): Amount {
    if id in acc.amounts then acc.amounts[id] else ZERO
  }

  function Add(acc: Acc, id: nat, a: Amount): Acc {
    Acc(if id in acc.amounts then acc.keys else acc.keys + [id], acc.amounts[id := Plus(Get(acc, id), a)])
  }

  /** Factor times quantity over yield, rounding after each operation. */
  function Effective(factor: int, quantity: int, yieldQuantity: int): int
    requires yieldQuantity > 0
  {
    Money.RoundDiv(Money.RoundDiv(factor * quantity, Money.SCALE_FACTOR) * Money.SCALE_FACTOR, yieldQuantity)
  }

  function Elems(stack: seq<nat>): set<nat> {
    set x | x in stack
  }

  /** Explodes recipe `id`, the last id on the stack, into the accumulator. */
  function ExplodeRecipe(book: Book, id: nat, factor: int, stack: seq<nat>, acc: Acc): Result<Acc, Error>
    requires id in book
    decreases book.Keys - Elems(stack), |book[id].items| + 1, 0
  {
    if book[id].yieldQuantity <= 0 then Err(ZeroDivisor(id))
    else ExplodeItems(book, book[id].yieldQuantity, book[id].items, factor, stack, acc)
  }

  function ExplodeItems(book: Book, y: int, items: seq<Item>, factor: int, stack: seq<nat>, acc: Acc): Result<Acc, Error>
    requires y > 0
    decreases book.Keys - Elems(stack), |items|, 1
  {
    if items == [] then Ok(acc) else
      match ExplodeItems(book, y, items[..|items| - 1], factor, stack, acc)
      case Err(e) => Err(e)
      case Ok(before) => ExplodeItem(book, y, items[|items| - 1], factor, stack, before)
  }

  function ExplodeItem(book: Book, y: int, item: Item, factor: int, stack: seq<nat>, acc: Acc): Result<Acc, Error>
    requires y > 0
    decreases book.Keys - Elems(stack), 0, 0
  {
    match item
    case Malformed => Err(InvalidItem)
    case Ingredient(x, net, gross) => Ok(Add(acc, x, Amount(Effective(factor, net, y), Effective(factor, gross, y))))
    case Sub(s, net, gross) =>
      if s in stack then Err(Cycle(stack + [s]))
      else if s !in book then Err(NotFound(s))
      else
        Shrinks(book, stack, s);
        ExplodeRecipe(book, s, Effective(factor, gross, y), stack + [s], acc)
  }

  /** The termination measure: recipes of the book that are not on the stack. */
  lemma Shrinks(book: Book, stack: seq<nat>, s: nat)
    requires s in book && s !in stack
    ensures book.Keys - Elems(stack + [s]) < book.Keys - Elems(stack)
  {
    assert s in book.Keys - Elems(stack) && s !in book.Keys - Elems(stack + [s]);
  }

  /* Walks in the recipe graph. */

  predicate Edge(book: Book, a: nat, b: nat) {
    a in book && exists k :: 0 <= k < |book[a].items| && book[a].items[k].Sub? && book[a].items[k].id == b
  }

  predicate Walk(book: Book, w: seq<nat>) {
    forall i | 0 <= i < |w| - 1 :: Edge(book, w[i], w[i + 1])
  }

  /** A walk from the root whose last id occurs in it before. */
  predicate IsCycleWalk(book: Book, root: nat, w: seq<nat>) {
    |w| > 1 && w[0] == root && Walk(book, w) && w[|w| - 1] in w[..|w| - 1]
  }

  ghost predicate CycleReachable(book: Book, root: nat) {
    exists w :: IsCycleWalk(book, root, w)
  }

  predicate WellFormedItem(book: Book, item: Item) {
    !item.Malformed? && (item.Sub? ==> item.id in book)
  }

  /** All recipes valid and resolvable. */
  predicate WellFormed(book: Book) {
    forall id | id in book ::
      book[id].yieldQuantity > 0 && forall k | 0 <= k < |book[id].items| :: WellFormedItem(book, book[id].items[k])
  }

  lemma WalkNext(book: Book, w: seq<nat>, s: nat)
    requires w != [] && Walk(book, w) && Edge(book, w[|w| - 1], s)
    ensures Walk(book, w + [s])
  {
    hide Edge;
  }

  predicate ReportsCycle(book: Book, stack: seq<nat>, e: Error) {
    e.Cycle? && stack != [] && IsCycleWalk(book, stack[0], e.path)
  }

  /* Errors: over a well-formed book only cycles, and the path reported is a real one. */

  lemma {:induction false} RecipeErrorIsCycle(book: Book, id: nat, factor: int, stack: seq<nat>, acc: Acc)
    requires WellFormed(book) && id in book && stack != [] && stack[|stack| - 1] == id && Walk(book, stack)
    requires ExplodeRecipe(book, id, factor, stack, acc).Err?
    ensures ReportsCycle(book, stack, ExplodeRecipe(book, id, factor, stack, acc).error)
    decreases book.Keys - Elems(stack), |book[id].items| + 1, 0
  {
    assert book[id].items[..|book[id].items|] == book[id].items;
    hide ReportsCycle, Walk, ExplodeItems, WellFormedItem;
    ItemsErrorIsCycle(book, id, |book[id].items|, factor, stack, acc);
  }

  lemma {:induction false} ItemsErrorIsCycle(book: Book, id: nat, n: nat, factor: int, stack: seq<nat>, acc: Acc)
    requires WellFormed(book) && id in book && stack != [] && stack[|stack| - 1] == id && Walk(book, stack)
    requires n <= |book[id].items|
    requires ExplodeItems(book, book[id].yieldQuantity, book[id].items[..n], factor, stack, acc).Err?
    ensures ReportsCycle(book, stack,
              ExplodeItems(book, book[id].yieldQuantity, book[id].items[..n], factor, stack, acc).error)
    decreases book.Keys - Elems(stack), n, 1
  {
    var y, items := book[id].yieldQuantity, book[id].items;
    assert items[..n][..n - 1] == items[..n - 1];
    var before := ExplodeItems(book, y, items[..n - 1], factor, stack, acc);
    if before.Err? {
      ItemsErrorIsCycle(book, id, n - 1, factor, stack, acc);
    } else {
      var item := items[n - 1];
      assert WellFormedItem(book, item);
      assert item.Sub?;
      assert Edge(book, id, item.id);
      WalkNext(book, stack, item.id);
      hide Edge;
      if item.id in stack {
        assert (stack + [item.id])[..|stack|] == stack;
      } else {
        Shrinks(book, stack, item.id);
        RecipeErrorIsCycle(book, item.id, Effective(factor, item.gross, y), stack + [item.id], before.value);
      }
    }
  }

  /* Success: every walk from the root is free of repetitions. */

  /** A successful explosion has passed through every subrecipe. */
  lemma {:induction false} ItemsVisited(book: Book, y: int, items: seq<Item>, factor: int, stack: seq<nat>, acc: Acc, k: nat)
    returns (factor': int, acc': Acc)
    requires y > 0 && ExplodeItems(book, y, items, factor, stack, acc).Ok? && k < |items| && items[k].Sub?
    ensures items[k].id !in stack && items[k].id in book
    ensures ExplodeRecipe(book, items[k].id, factor', stack + [items[k].id], acc').Ok?
    decreases |items|
  {
    var n := |items| - 1;
    var before := ExplodeItems(book, y, items[..n], factor, stack, acc).value;
    if k == n {
      factor', acc' := Effective(factor, items[n].gross, y), before;
    } else {
      factor', acc' := ItemsVisited(book, y, items[..n], factor, stack, acc, k);
    }
  }

  /** If exploding the root succeeds, so does exploding at the end of any walk from it, and the walk is simple. */
  lemma {:induction false} WalkVisited(book: Book, root: nat, factor: int, acc: Acc, w: seq<nat>)
    returns (factor': int, acc': Acc)
    requires root in book && ExplodeRecipe(book, root, factor, [root], acc).Ok?
    requires w != [] && w[0] == root && Walk(book, w)
    ensures w[|w| - 1] in book && ExplodeRecipe(book, w[|w| - 1], factor', w, acc').Ok?
    ensures w[|w| - 1] !in w[..|w| - 1]
    decreases |w|
  {
    var n := |w| - 1;
    if n == 0 {
      factor', acc' := factor, acc;
      assert w == [root];
    } else {
      var f, a := WalkVisited(book, root, factor, acc, w[..n]);
      var last := w[n - 1];
      assert w[..n][n - 1] == last;
      assert Edge(book, w[n - 1], w[n - 1 + 1]);
      var k :| 0 <= k < |book[last].items| && book[last].items[k].Sub? && book[last].items[k].id == w[n];
      factor', acc' := ItemsVisited(book, book[last].yieldQuantity, book[last].items, f, w[..n], a, k);
      assert w[..n] + [w[n]] == w;
    }
  }

  /** Explosion fails exactly when a cycle is reachable from the root, and then reports a walk from the root
      that ends in an id it has passed before. */
  lemma CycleErrorExactly(book: Book, root: nat, factor: int)
    requires WellFormed(book) && root in book
    ensures ExplodeRecipe(book, root, factor, [root], EMPTY).Err? <==> CycleReachable(book, root)
    ensures var r := ExplodeRecipe(book, root, factor, [root], EMPTY);
            r.Err? ==> r.error.Cycle? && IsCycleWalk(book, root, r.error.path)
  {
    if ExplodeRecipe(book, root, factor, [root], EMPTY).Err? {
      RecipeErrorIsCycle(book, root, factor, [root], EMPTY);
    } else if w :| IsCycleWalk(book, root, w) {
      var _, _ := WalkVisited(book, root, factor, EMPTY, w);
    }
    hide ExplodeRecipe;
  }
}
