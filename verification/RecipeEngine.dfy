/** The recipe engine as written: recursion that updates a shared accumulator and pushes and pops a shared stack. */
module RecipeEngine {
  import opened Results
  import opened Ordering
  import opened Recipes
  import opened RecipeOrder
  import opened RecipeCost
  import Money

  lemma {:induction false} ExplodeStops(
    book: Book, y: int, items: seq<Item>, factor: int, stack: seq<nat>, acc: Acc, n: nat)
    requires y > 0 && n <= |items| && ExplodeItems(book, y, items[..n], factor, stack, acc).Err?
    ensures ExplodeItems(book, y, items, factor, stack, acc) == ExplodeItems(book, y, items[..n], factor, stack, acc)
  {
    hide ExplodeItem;
    if n == |items| {
      assert items[..n] == items;
    } else {
      assert items[..|items| - 1][..n] == items[..n];
      ExplodeStops(book, y, items[..|items| - 1], factor, stack, acc, n);
    }
  }

  lemma {:induction false} CostStops(book: Book, items: seq<Item>, stack: seq<nat>, costs: Costs, n: nat)
    requires n <= |items| && CostItems(book, items[..n], stack, costs).Err?
    ensures CostItems(book, items, stack, costs) == CostItems(book, items[..n], stack, costs)
  {
    hide CostItem;
    if n == |items| {
      assert items[..n] == items;
    } else {
      assert items[..|items| - 1][..n] == items[..n];
      CostStops(book, items[..|items| - 1], stack, costs, n);
    }
  }

  /** One explosion: the accumulator and the ids being expanded. */
  class Explosion {
    const book: Book
    var acc: Acc
    var visitedStack: seq<nat>

    constructor (book: Book, root: nat)
      ensures this.book == book && acc == EMPTY && visitedStack == [root]
    {
      this.book, acc, visitedStack := book, EMPTY, [root];
    }

    method ExplodeRecursive(id: nat, factor: int) returns (error: Option<Error>)
      requires id in book
      modifies this
      ensures visitedStack == old(visitedStack)
      ensures match ExplodeRecipe(book, id, factor, old(visitedStack), old(acc))
              case Ok(after) => error.None? && acc == after
              case Err(e) => error == Some(e)
      decreases book.Keys - Elems(visitedStack), |book[id].items| + 1
    {
      hide ExplodeItem, Effective;
      var y, items := book[id].yieldQuantity, book[id].items;
      if y <= 0 {
        return Some(ZeroDivisor(id));
      }
      for i := 0 to |items|
        invariant visitedStack == old(visitedStack)
        invariant ExplodeItems(book, y, items[..i], factor, old(visitedStack), old(acc)) == Ok(acc)
      {
        assert items[..i + 1][..i] == items[..i];
        ghost var before := acc;
        error := ExplodeOne(y, items[i], factor);
        if error.Some? {
          ExplodeStops(book, y, items, factor, old(visitedStack), old(acc), i + 1);
          return;
        }
      }
      assert items[..|items|] == items;
      return None;
    }

    /** The body of the loop over items. */
    method ExplodeOne(y: int, item: Item, factor: int) returns (error: Option<Error>)
      requires y > 0
      modifies this
      ensures visitedStack == old(visitedStack)
      ensures match ExplodeItem(book, y, item, factor, old(visitedStack), old(acc))
              case Ok(after) => error.None? && acc == after
              case Err(e) => error == Some(e)
      decreases book.Keys - Elems(visitedStack), 0
    {
      hide Effective, ExplodeRecipe;
      if item.Malformed? {
        return Some(InvalidItem);
      }
      var effectiveNet := Effective(factor, item.net, y);
      var effectiveGross := Effective(factor, item.gross, y);
      if item.Ingredient? {
        acc := Add(acc, item.id, Amount(effectiveNet, effectiveGross));
        return None;
      }
      if item.id in visitedStack {
        return Some(Cycle(visitedStack + [item.id]));
      }
      if item.id !in book {
        return Some(NotFound(item.id));
      }
      Shrinks(book, visitedStack, item.id);
      visitedStack := visitedStack + [item.id];
      error := ExplodeRecursive(item.id, effectiveGross);
      visitedStack := visitedStack[..|visitedStack| - 1];
    }
  }

  /** `explodeIngredients`: the sorted list, or the first error, or a total that does not fit DECIMAL(12,4). */
  method ExplodeIngredients(book: Book, root: nat) returns (result: Result<seq<(nat, Amount)>, Error>)
    requires root in book
    ensures match ExplodeRecipe(book, root, Money.SCALE_FACTOR, [root], EMPTY)
            case Err(e) => result == Err(e)
            case Ok(acc) => result == if AllInRange(Listed(acc)) then Ok(Listed(acc)) else Err(OutOfRange)
  {
    hide ExplodeRecipe, Money.InRange, Sort;
    var explosion := new Explosion(book, root);
    var error := explosion.ExplodeRecursive(root, Money.SCALE_FACTOR);
    if error.Some? {
      return Err(error.value);
    }
    var list := Listed(explosion.acc);
    for i := 0 to |list|
      invariant forall k | 0 <= k < i :: Money.InRange(list[k].1.net) && Money.InRange(list[k].1.gross)
    {
      if !Money.InRange(list[i].1.net) || !Money.InRange(list[i].1.gross) {
        return Err(OutOfRange);
      }
    }
    return Ok(list);
  }

  /** One costing: the ids being costed. */
  class Costing {
    const book: Book
    const costs: Costs
    var visitedStack: seq<nat>

    constructor (book: Book, costs: Costs, root: nat)
      ensures this.book == book && this.costs == costs && visitedStack == [root]
    {
      this.book, this.costs, visitedStack := book, costs, [root];
    }

    method CalculateCostRecursive(id: nat) returns (result: Result<Cost, Error>)
      requires id in book
      modifies this
      ensures visitedStack == old(visitedStack)
      ensures result == CostRecipe(book, id, old(visitedStack), costs)
      decreases book.Keys - Elems(visitedStack), |book[id].items| + 1
    {
      hide CostItem, Money.RoundDiv, Money.InRange;
      var y, items := book[id].yieldQuantity, book[id].items;
      if y <= 0 {
        return Err(ZeroDivisor(id));
      }
      var totalBatchCost := 0;
      for i := 0 to |items|
        invariant visitedStack == old(visitedStack)
        invariant CostItems(book, items[..i], old(visitedStack), costs) == Ok(totalBatchCost)
      {
        assert items[..i + 1][..i] == items[..i];
        var line := CostOne(items[i]);
        if line.Err? {
          CostStops(book, items, old(visitedStack), costs, i + 1);
          return Err(line.error);
        }
        totalBatchCost := totalBatchCost + line.value;
      }
      assert items[..|items|] == items;
      var unitCost := Money.RoundDiv(totalBatchCost * Money.SCALE_FACTOR, y);
      if !Money.InRange(totalBatchCost) || !Money.InRange(unitCost) {
        return Err(OutOfRange);
      }
      return Ok(Cost(totalBatchCost, unitCost));
    }

    method CostOne(item: Item) returns (result: Result<int, Error>)
      modifies this
      ensures visitedStack == old(visitedStack)
      ensures result == CostItem(book, item, old(visitedStack), costs)
      decreases book.Keys - Elems(visitedStack), 0
    {
      hide LineCost, CostRecipe;
      if item.Malformed? || item.gross < 0 {
        return Err(InvalidItem);
      }
      if item.Ingredient? {
        var cost := costs(item.id);
        if cost.None? || cost.value < 0 {
          return Err(InvalidItem);
        }
        return LineCost(item.gross, cost.value);
      }
      if item.id in visitedStack {
        return Err(Cycle(visitedStack + [item.id]));
      }
      if item.id !in book {
        return Err(NotFound(item.id));
      }
      Shrinks(book, visitedStack, item.id);
      visitedStack := visitedStack + [item.id];
      var sub := CalculateCostRecursive(item.id);
      visitedStack := visitedStack[..|visitedStack| - 1];
      if sub.Err? {
        return Err(sub.error);
      }
      return LineCost(item.gross, sub.value.unit);
    }
  }

  method CalculateRecipeCost(book: Book, root: nat, costs: Costs) returns (result: Result<Cost, Error>)
    requires root in book
    ensures result == CostRecipe(book, root, [root], costs)
  {
    hide CostRecipe;
    var costing := new Costing(book, costs, root);
    result := costing.CalculateCostRecursive(root);
  }
}
