/** When explosion and costing go through, over books of any kind: missing, malformed, cyclic or without a yield. */
module RecipeErrors {
  import opened Results
  import opened Ordering
  import opened Recipes
  import opened RecipeSums
  import opened RecipeOrder
  import opened RecipeCost
  import Money

  predicate WalkFrom(book: Book, root: nat, w: seq<nat>) {
    w != [] && w[0] == root && Walk(book, w)
  }

  /** The recipe is there, has a yield, and each of its items is an ingredient or a recipe of the book. */
  predicate SoundRecipe(book: Book, id: nat) {
    && id in book && book[id].yieldQuantity > 0
    && forall k | 0 <= k < |book[id].items| :: WellFormedItem(book, book[id].items[k])
  }

  ghost predicate AllReachableSound(book: Book, root: nat) {
    forall w | WalkFrom(book, root, w) :: SoundRecipe(book, w[|w| - 1])
  }

  /** A walk from the root leads to what the error names. */
  predicate Faulty(book: Book, root: nat, e: Error, w: seq<nat>) {
    && WalkFrom(book, root, w)
    && var last := w[|w| - 1];
    match e
    case ZeroDivisor(id) => id == last && id in book && book[id].yieldQuantity <= 0
    case InvalidItem => last in book && Malformed in book[last].items
    case NotFound(id) => Edge(book, last, id) && id !in book
    case Cycle(path) => path == w && |w| > 1 && w[|w| - 1] in w[..|w| - 1]
    case OutOfRange => false
  }

  ghost predicate Explained(book: Book, root: nat, e: Error) {
    exists w :: Faulty(book, root, e, w)
  }

  /* Every error is explained. */

  lemma {:induction false} RecipeErrorExplained(book: Book, id: nat, factor: int, stack: seq<nat>, acc: Acc)
    requires id in book && stack != [] && stack[|stack| - 1] == id && Walk(book, stack)
    requires ExplodeRecipe(book, id, factor, stack, acc).Err?
    ensures Explained(book, stack[0], ExplodeRecipe(book, id, factor, stack, acc).error)
    decreases book.Keys - Elems(stack), |book[id].items| + 1, 0
  {
    if book[id].yieldQuantity <= 0 {
      assert Faulty(book, stack[0], ZeroDivisor(id), stack);
    } else {
      assert book[id].items[..|book[id].items|] == book[id].items;
      hide Explained, Walk, ExplodeItems;
      ItemsErrorExplained(book, id, |book[id].items|, factor, stack, acc);
    }
  }

  lemma {:induction false} ItemsErrorExplained(book: Book, id: nat, n: nat, factor: int, stack: seq<nat>, acc: Acc)
    requires id in book && book[id].yieldQuantity > 0 && stack != [] && stack[|stack| - 1] == id && Walk(book, stack)
    requires n <= |book[id].items|
    requires ExplodeItems(book, book[id].yieldQuantity, book[id].items[..n], factor, stack, acc).Err?
    ensures Explained(book, stack[0],
              ExplodeItems(book, book[id].yieldQuantity, book[id].items[..n], factor, stack, acc).error)
    decreases book.Keys - Elems(stack), n, 1
  {
    var y, items := book[id].yieldQuantity, book[id].items;
    assert items[..n][..n - 1] == items[..n - 1];
    hide Explained, Effective;
    if ExplodeItems(book, y, items[..n - 1], factor, stack, acc).Err? {
      ItemsErrorExplained(book, id, n - 1, factor, stack, acc);
    } else {
      var before, item := ExplodeItems(book, y, items[..n - 1], factor, stack, acc).value, items[n - 1];
      ItemErrorExplained(book, id, n - 1, stack);
      hide Faulty, Walk;
      if item.Sub? && item.id !in stack && item.id in book {
        Shrinks(book, stack, item.id);
        RecipeErrorExplained(book, item.id, Effective(factor, item.gross, y), stack + [item.id], before);
      }
    }
  }

  /** What one item can be refused for, and how the walk goes on below it. */
  lemma ItemErrorExplained(book: Book, id: nat, k: nat, stack: seq<nat>)
    requires id in book && stack != [] && stack[|stack| - 1] == id && Walk(book, stack) && k < |book[id].items|
    ensures var item := book[id].items[k];
            && (item.Malformed? ==> Explained(book, stack[0], InvalidItem))
            && (item.Sub? ==> Walk(book, stack + [item.id]))
            && (item.Sub? && item.id in stack ==> Explained(book, stack[0], Cycle(stack + [item.id])))
            && (item.Sub? && item.id !in book ==> Explained(book, stack[0], NotFound(item.id)))
  {
    var item := book[id].items[k];
    if item.Malformed? {
      assert Faulty(book, stack[0], InvalidItem, stack);
    } else if item.Sub? {
      assert Edge(book, id, item.id);
      WalkNext(book, stack, item.id);
      if item.id in stack {
        assert (stack + [item.id])[..|stack|] == stack;
        assert Faulty(book, stack[0], Cycle(stack + [item.id]), stack + [item.id]);
      }
      if item.id !in book {
        assert Faulty(book, stack[0], NotFound(item.id), stack);
      }
    }
  }

  /* What succeeds is sound. */

  lemma {:induction false} ItemsAreWellFormed(book: Book, y: int, items: seq<Item>, factor: int, stack: seq<nat>, acc: Acc)
    requires y > 0 && ExplodeItems(book, y, items, factor, stack, acc).Ok?
    ensures forall k | 0 <= k < |items| :: WellFormedItem(book, items[k])
  {
    if items != [] {
      ItemsAreWellFormed(book, y, items[..|items| - 1], factor, stack, acc);
      hide Effective, ExplodeRecipe;
    }
  }

  lemma WalkIsSound(book: Book, root: nat, factor: int, w: seq<nat>)
    requires root in book && ExplodeRecipe(book, root, factor, [root], EMPTY).Ok? && WalkFrom(book, root, w)
    ensures SoundRecipe(book, w[|w| - 1]) && w[|w| - 1] !in w[..|w| - 1]
  {
    var f, a := WalkVisited(book, root, factor, EMPTY, w);
    var id := w[|w| - 1];
    hide ExplodeItems;
    ItemsAreWellFormed(book, book[id].yieldQuantity, book[id].items, f, w, a);
  }

  lemma FaultIsUnsound(book: Book, root: nat, e: Error, w: seq<nat>)
    requires Faulty(book, root, e, w) && !e.Cycle?
    ensures !SoundRecipe(book, w[|w| - 1])
  {
    var last := w[|w| - 1];
    if e.NotFound? {
      var k :| 0 <= k < |book[last].items| && book[last].items[k].Sub? && book[last].items[k].id == e.id;
      assert !WellFormedItem(book, book[last].items[k]);
    } else if e.InvalidItem? {
      var k :| 0 <= k < |book[last].items| && book[last].items[k] == Malformed;
      assert !WellFormedItem(book, book[last].items[k]);
    }
  }

  /** Over any book, the explosion of a recipe succeeds exactly when no cycle can be reached from it and every recipe
      that can be reached is sound; otherwise the error names a fault, and a walk from the root leads to it. */
  lemma ExplodesExactly(book: Book, root: nat, factor: int)
    requires root in book
    ensures ExplodeRecipe(book, root, factor, [root], EMPTY).Ok? <==>
              !CycleReachable(book, root) && AllReachableSound(book, root)
    ensures ExplodeRecipe(book, root, factor, [root], EMPTY).Err? ==>
              Explained(book, root, ExplodeRecipe(book, root, factor, [root], EMPTY).error)
  {
    var r := ExplodeRecipe(book, root, factor, [root], EMPTY);
    if r.Ok? {
      forall w | WalkFrom(book, root, w)
        ensures SoundRecipe(book, w[|w| - 1]) && !IsCycleWalk(book, root, w)
      {
        WalkIsSound(book, root, factor, w);
      }
    } else {
      RecipeErrorExplained(book, root, factor, [root], EMPTY);
      var w :| Faulty(book, root, r.error, w);
      if r.error.Cycle? {
        assert IsCycleWalk(book, root, w);
      } else {
        FaultIsUnsound(book, root, r.error, w);
      }
    }
  }

  /* The list. */

  predicate ListedOnce(list: seq<(nat, Amount)>) {
    forall i, j | 0 <= i < j < |list| :: list[i].0 < list[j].0
  }

  predicate Lists(list: seq<(nat, Amount)>, x: nat, a: Amount) {
    exists k :: 0 <= k < |list| && list[k] == (x, a)
  }

  lemma ListedOfAcc(acc: Acc, x: nat)
    requires AccOk(acc)
    ensures ListedOnce(Listed(acc))
    ensures x in acc.amounts <==> Lists(Listed(acc), x, Get(acc, x))
    ensures forall k | 0 <= k < |Listed(acc)| :: Listed(acc)[k].1 == Get(acc, Listed(acc)[k].0)
  {
    var ids := Sort(Ascending, acc.keys);
    assert StrictOrder(Ascending) && Comparable(Ascending, acc.keys);
    SortSorts(Ascending, acc.keys);
    SortKeeps(Ascending, acc.keys);
    SameMembers(ids, acc.keys, x);
    forall i, j | 0 <= i < j < |ids|
      ensures ids[i] < ids[j]
    {
      assert Ascending(ids[i], ids[j]);
    }
    hide Sort, Get;
    var list := Listed(acc);
    if x in ids {
      var k :| 0 <= k < |ids| && ids[k] == x;
      assert list[k] == (x, Get(acc, x));
    }
  }

  /** The exploded list has each ingredient at most once, in ascending order; it lists an ingredient exactly when a
      reachable recipe names it, with the sum over all paths to it. */
  lemma ListExactly(book: Book, root: nat, factor: int, x: nat)
    requires root in book && ExplodeRecipe(book, root, factor, [root], EMPTY).Ok?
    ensures book[root].yieldQuantity > 0
    ensures var list := Listed(ExplodeRecipe(book, root, factor, [root], EMPTY).value);
            && ListedOnce(list)
            && (Uses(book, root, x) <==> Lists(list, x, RecipeAmount(book, root, factor, [root], x)))
            && ((exists k :: 0 <= k < |list| && list[k].0 == x) ==> Uses(book, root, x))
  {
    hide Effective, Uses;
    var acc := ExplodeRecipe(book, root, factor, [root], EMPTY).value;
    assert AccOk(EMPTY);
    KeysExact(book, root, factor, [root], EMPTY);
    ExplodeAdds(book, root, factor, [root], EMPTY, x);
    hide AccOk, ExplodeRecipe, RecipeAmount;
    ListedOfAcc(acc, x);
    hide Listed, ListedOnce;
    var list := Listed(acc);
    if k :| 0 <= k < |list| && list[k].0 == x {
      assert list[k] == (x, Get(acc, x));
    }
  }

  /* Each rounding. */

  /** An effective quantity is rounded twice: factor times quantity to four decimals, and that over the yield. */
  lemma EffectiveRoundsTwice(factor: int, quantity: int, y: int) returns (product: int)
    requires y > 0
    ensures Money.NearestAwayFromZero(factor * quantity, Money.SCALE_FACTOR, product)
    ensures Money.NearestAwayFromZero(product * Money.SCALE_FACTOR, y, Effective(factor, quantity, y))
  {
    product := Money.RoundDiv(factor * quantity, Money.SCALE_FACTOR);
    Money.RoundDivIsNearest(factor * quantity, Money.SCALE_FACTOR);
    Money.RoundDivIsNearest(product * Money.SCALE_FACTOR, y);
    hide Money.RoundDiv, Money.NearestAwayFromZero;
  }

  /** The lines of a batch. */
  function LineSum(book: Book, items: seq<Item>, stack: seq<nat>, costs: Costs): int {
    if items == [] then 0 else
      LineSum(book, items[..|items| - 1], stack, costs)
      + match CostItem(book, items[|items| - 1], stack, costs) case Ok(line) => line case Err(_) => 0
  }

  lemma {:induction false} BatchIsLineSum(book: Book, items: seq<Item>, stack: seq<nat>, costs: Costs)
    requires CostItems(book, items, stack, costs).Ok?
    ensures CostItems(book, items, stack, costs).value == LineSum(book, items, stack, costs)
    ensures forall k | 0 <= k < |items| :: CostItem(book, items[k], stack, costs).Ok?
  {
    hide CostItem;
    if items != [] {
      BatchIsLineSum(book, items[..|items| - 1], stack, costs);
    }
  }

  /** A cost that is found: the batch is the plain sum of its lines, and the unit cost the batch over the yield, rounded
      once. */
  lemma CostIsBatchOverYield(book: Book, id: nat, stack: seq<nat>, costs: Costs)
    requires id in book && CostRecipe(book, id, stack, costs).Ok?
    ensures var cost, y := CostRecipe(book, id, stack, costs).value, book[id].yieldQuantity;
            && y > 0 && cost.total == LineSum(book, book[id].items, stack, costs)
            && Money.NearestAwayFromZero(cost.total * Money.SCALE_FACTOR, y, cost.unit)
  {
    BatchIsLineSum(book, book[id].items, stack, costs);
    var total := CostItems(book, book[id].items, stack, costs).value;
    Money.RoundDivIsNearest(total * Money.SCALE_FACTOR, book[id].yieldQuantity);
    hide CostItems, LineSum, Money.RoundDiv, Money.NearestAwayFromZero, Money.InRange;
  }

  /** A line costs its gross quantity times the unit cost, rounded once: the ingredient's average cost, or the unit cost
      of the subrecipe. */
  lemma LineIsNearest(book: Book, item: Item, stack: seq<nat>, costs: Costs)
    requires CostItem(book, item, stack, costs).Ok?
    ensures !item.Malformed? && item.gross >= 0
    ensures item.Ingredient? ==>
              && costs(item.id).Some? && costs(item.id).value >= 0
              && Money.NearestAwayFromZero(
                   item.gross * costs(item.id).value, Money.SCALE_FACTOR, CostItem(book, item, stack, costs).value)
    ensures item.Sub? ==>
              && item.id in book && item.id !in stack && CostRecipe(book, item.id, stack + [item.id], costs).Ok?
              && Money.NearestAwayFromZero(
                   item.gross * CostRecipe(book, item.id, stack + [item.id], costs).value.unit, Money.SCALE_FACTOR,
                   CostItem(book, item, stack, costs).value)
  {
    hide CostRecipe, Money.InRange;
    if item.Ingredient? {
      Money.RoundDivIsNearest(item.gross * costs(item.id).value, Money.SCALE_FACTOR);
    } else {
      Money.RoundDivIsNearest(item.gross * CostRecipe(book, item.id, stack + [item.id], costs).value.unit, Money.SCALE_FACTOR);
    }
    hide Money.RoundDiv, Money.NearestAwayFromZero;
  }

  /* Costing. */

  /** The line cannot be costed for itself. */
  predicate BadLine(item: Item, costs: Costs) {
    || item.Malformed? || item.gross < 0
    || (item.Ingredient? && (costs(item.id).None? || costs(item.id).value < 0))
  }

  predicate SomeBadLine(items: seq<Item>, costs: Costs) {
    exists k :: 0 <= k < |items| && BadLine(items[k], costs)
  }

  /** The line's cost cannot be stored. */
  predicate LineOverflows(book: Book, item: Item, w: seq<nat>, costs: Costs) {
    && !BadLine(item, costs)
    && if item.Ingredient? then LineCost(item.gross, costs(item.id).value).Err?
       else
         && item.id in book && item.id !in w && CostRecipe(book, item.id, w + [item.id], costs).Ok?
         && LineCost(item.gross, CostRecipe(book, item.id, w + [item.id], costs).value.unit).Err?
  }

  /** A line, the batch or the unit cost of the recipe at the end of the walk cannot be stored. */
  predicate Overflows(book: Book, w: seq<nat>, costs: Costs) {
    && w != [] && w[|w| - 1] in book
    && var items, y := book[w[|w| - 1]].items, book[w[|w| - 1]].yieldQuantity;
    && y > 0
    && (|| (exists k :: 0 <= k < |items| && LineOverflows(book, items[k], w, costs))
        || (CostItems(book, items, w, costs).Ok?
            && var total := CostItems(book, items, w, costs).value;
            !(Money.InRange(total) && Money.InRange(Money.RoundDiv(total * Money.SCALE_FACTOR, y)))))
  }

  predicate CostFaulty(book: Book, root: nat, costs: Costs, e: Error, w: seq<nat>) {
    && WalkFrom(book, root, w)
    && match e
       case InvalidItem => w[|w| - 1] in book && SomeBadLine(book[w[|w| - 1]].items, costs)
       case OutOfRange => Overflows(book, w, costs)
       case _ => Faulty(book, root, e, w)
  }

  ghost predicate CostExplained(book: Book, root: nat, costs: Costs, e: Error) {
    exists w :: CostFaulty(book, root, costs, e, w)
  }

  lemma {:induction false} CostErrorExplained(book: Book, id: nat, stack: seq<nat>, costs: Costs)
    requires id in book && stack != [] && stack[|stack| - 1] == id && Walk(book, stack)
    requires CostRecipe(book, id, stack, costs).Err?
    ensures CostExplained(book, stack[0], costs, CostRecipe(book, id, stack, costs).error)
    decreases book.Keys - Elems(stack), |book[id].items| + 1, 0
  {
    hide Money.RoundDiv, Money.InRange, Walk;
    if book[id].yieldQuantity <= 0 {
      assert Faulty(book, stack[0], ZeroDivisor(id), stack);
      assert CostFaulty(book, stack[0], costs, ZeroDivisor(id), stack);
    } else if CostItems(book, book[id].items, stack, costs).Err? {
      assert book[id].items[..|book[id].items|] == book[id].items;
      hide CostExplained, CostItems;
      CostItemsExplained(book, id, |book[id].items|, stack, costs);
    } else {
      hide CostItems;
      assert CostFaulty(book, stack[0], costs, OutOfRange, stack);
    }
  }

  lemma {:induction false} CostItemsExplained(book: Book, id: nat, n: nat, stack: seq<nat>, costs: Costs)
    requires id in book && book[id].yieldQuantity > 0 && stack != [] && stack[|stack| - 1] == id && Walk(book, stack)
    requires n <= |book[id].items| && CostItems(book, book[id].items[..n], stack, costs).Err?
    ensures CostExplained(book, stack[0], costs, CostItems(book, book[id].items[..n], stack, costs).error)
    decreases book.Keys - Elems(stack), n, 1
  {
    var items := book[id].items;
    assert items[..n][..n - 1] == items[..n - 1];
    hide CostExplained, CostItem;
    if CostItems(book, items[..n - 1], stack, costs).Err? {
      CostItemsExplained(book, id, n - 1, stack, costs);
    } else {
      CostLineExplained(book, id, n - 1, stack, costs);
    }
  }

  lemma {:induction false} CostLineExplained(book: Book, id: nat, k: nat, stack: seq<nat>, costs: Costs)
    requires id in book && book[id].yieldQuantity > 0 && stack != [] && stack[|stack| - 1] == id && Walk(book, stack)
    requires k < |book[id].items| && CostItem(book, book[id].items[k], stack, costs).Err?
    ensures CostExplained(book, stack[0], costs, CostItem(book, book[id].items[k], stack, costs).error)
    decreases book.Keys - Elems(stack), 0, 0
  {
    var item := book[id].items[k];
    if BadLine(item, costs) {
      assert CostFaulty(book, stack[0], costs, InvalidItem, stack);
    } else if LineOverflows(book, item, stack, costs) {
      LineOverflowExplained(book, id, k, stack, costs);
    } else {
      ItemErrorExplained(book, id, k, stack);
      hide CostExplained, Explained, Walk, LineCost;
      if item.id !in stack && item.id in book {
        Shrinks(book, stack, item.id);
        CostErrorExplained(book, item.id, stack + [item.id], costs);
      } else {
        SameFault(book, stack[0], costs, CostItem(book, item, stack, costs).error);
      }
    }
  }

  lemma LineOverflowExplained(book: Book, id: nat, k: nat, stack: seq<nat>, costs: Costs)
    requires id in book && book[id].yieldQuantity > 0 && stack != [] && stack[|stack| - 1] == id && Walk(book, stack)
    requires k < |book[id].items| && LineOverflows(book, book[id].items[k], stack, costs)
    ensures CostItem(book, book[id].items[k], stack, costs) == Err(OutOfRange)
    ensures CostExplained(book, stack[0], costs, OutOfRange)
  {
    hide Walk, CostItems, Money.RoundDiv, Money.InRange;
    assert Overflows(book, stack, costs);
    assert CostFaulty(book, stack[0], costs, OutOfRange, stack);
    hide CostRecipe;
  }

  lemma SameFault(book: Book, root: nat, costs: Costs, e: Error)
    requires !e.InvalidItem? && !e.OutOfRange?
    ensures Explained(book, root, e) ==> CostExplained(book, root, costs, e)
  {
    if w :| Faulty(book, root, e, w) {
      assert CostFaulty(book, root, costs, e, w);
    }
  }

  /** If costing the root succeeds, so does costing at the end of any walk from it, and the walk is simple. */
  lemma {:induction false} CostVisited(book: Book, root: nat, costs: Costs, w: seq<nat>)
    requires root in book && CostRecipe(book, root, [root], costs).Ok? && WalkFrom(book, root, w)
    ensures w[|w| - 1] in book && CostRecipe(book, w[|w| - 1], w, costs).Ok? && w[|w| - 1] !in w[..|w| - 1]
    decreases |w|
  {
    var n := |w| - 1;
    if n == 0 {
      assert w == [root];
    } else {
      var last := w[n - 1];
      assert Edge(book, w[n - 1], w[n - 1 + 1]);
      CostVisited(book, root, costs, w[..n]);
      assert w[..n][n - 1] == last && w[..n] + [w[n]] == w;
      var k :| 0 <= k < |book[last].items| && book[last].items[k].Sub? && book[last].items[k].id == w[n];
      BatchIsLineSum(book, book[last].items, w[..n], costs);
      hide CostItems, Money.RoundDiv, Money.InRange;
      assert CostItem(book, book[last].items[k], w[..n], costs).Ok?;
    }
  }

  /** A recipe whose costing succeeds has no fault of its own. */
  lemma CostedHasNoFault(book: Book, root: nat, costs: Costs, e: Error, w: seq<nat>)
    requires WalkFrom(book, root, w) && w[|w| - 1] in book && CostRecipe(book, w[|w| - 1], w, costs).Ok?
    requires w[|w| - 1] !in w[..|w| - 1]
    ensures !CostFaulty(book, root, costs, e, w)
  {
    var id := w[|w| - 1];
    var items := book[id].items;
    BatchIsLineSum(book, items, w, costs);
    hide CostItems, Money.RoundDiv, Money.InRange, Walk;
    forall k | 0 <= k < |items|
      ensures !BadLine(items[k], costs) && !LineOverflows(book, items[k], w, costs) && WellFormedItem(book, items[k])
    {
      assert CostItem(book, items[k], w, costs).Ok?;
      hide CostRecipe, LineCost;
    }
    hide BadLine, LineOverflows, CostItem;
    assert SoundRecipe(book, id);
    if CostFaulty(book, root, costs, e, w) && !e.InvalidItem? && !e.OutOfRange? {
      if !e.Cycle? {
        FaultIsUnsound(book, root, e, w);
      }
    }
  }

  /** Over any book and any costs, costing a recipe succeeds exactly when no walk from it leads to a fault: a cycle, a
      recipe that is missing or has no yield, a malformed, negative or uncosted line, or an amount that cannot be
      stored. Otherwise the error names such a fault. */
  lemma CostsExactly(book: Book, root: nat, costs: Costs)
    requires root in book
    ensures CostRecipe(book, root, [root], costs).Ok? <==> forall e :: !CostExplained(book, root, costs, e)
    ensures CostRecipe(book, root, [root], costs).Err? ==>
              CostExplained(book, root, costs, CostRecipe(book, root, [root], costs).error)
  {
    hide CostFaulty;
    if CostRecipe(book, root, [root], costs).Ok? {
      forall e, w
        ensures !CostFaulty(book, root, costs, e, w)
      {
        if CostFaulty(book, root, costs, e, w) {
          FaultIsOnWalk(book, root, costs, e, w);
          CostVisited(book, root, costs, w);
          CostedHasNoFault(book, root, costs, e, w);
        }
      }
    } else {
      CostErrorExplained(book, root, [root], costs);
    }
  }

  lemma FaultIsOnWalk(book: Book, root: nat, costs: Costs, e: Error, w: seq<nat>)
    requires CostFaulty(book, root, costs, e, w)
    ensures WalkFrom(book, root, w)
  {
  }
}
