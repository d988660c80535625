/** Recipe costing, and its agreement with the explosion: exact over the reals, and within a rounding bound over
    scale-4 integers. */
module RecipeCost {
  import opened Results
  import opened Recipes
  import opened RecipeSums
  import Money

  /** The current average cost of an ingredient, if there is one. */
  type Costs = nat -> Option<int>

  datatype Cost = Cost(total: int, unit: int)

  function CostRecipe(book: Book, id: nat, stack: seq<nat>, costs: Costs): Result<Cost, Error>
    requires id in book
    decreases book.Keys - Elems(stack), |book[id].items| + 1, 0
  {
    var y := book[id].yieldQuantity;
    if y <= 0 then Err(ZeroDivisor(id)) else
      match CostItems(book, book[id].items, stack, costs)
      case Err(e) => Err(e)
      case Ok(total) =>
        var unit := Money.RoundDiv(total * Money.SCALE_FACTOR, y);
        if Money.InRange(total) && Money.InRange(unit) then Ok(Cost(total, unit)) else Err(OutOfRange)
  }

  function CostItems(book: Book, items: seq<Item>, stack: seq<nat>, costs: Costs): Result<int, Error>
    decreases book.Keys - Elems(stack), |items|, 1
  {
    if items == [] then Ok(0) else
      match CostItems(book, items[..|items| - 1], stack, costs)
      case Err(e) => Err(e)
      case Ok(before) =>
        match CostItem(book, items[|items| - 1], stack, costs)
        case Err(e) => Err(e)
        case Ok(line) => Ok(before + line)
  }

  function LineCost(gross: int, unitCost: int): Result<int, Error> {
    var line := Money.RoundDiv(gross * unitCost, Money.SCALE_FACTOR);
    if Money.InRange(line) then Ok(line) else Err(OutOfRange)
  }

  function CostItem(book: Book, item: Item, stack: seq<nat>, costs: Costs): Result<int, Error>
    decreases book.Keys - Elems(stack), 0, 0
  {
    if item.Malformed? || item.gross < 0 then Err(InvalidItem)
    else if item.Ingredient? then
      match costs(item.id)
      case None => Err(InvalidItem)
      case Some(c) => if c < 0 then Err(InvalidItem) else LineCost(item.gross, c)
    else if item.id in stack then Err(Cycle(stack + [item.id]))
    else if item.id !in book then Err(NotFound(item.id))
    else
      Shrinks(book, stack, item.id);
      match CostRecipe(book, item.id, stack + [item.id], costs)
      case Err(e) => Err(e)
      case Ok(sub) => LineCost(item.gross, sub.unit)
  }

  /* The exact counterparts: no rounding, quantities as real numbers. */

  /** Every leaf of the explosion with its exact gross quantity. */
  function Leaves(book: Book, id: nat, factor: real, stack: seq<nat>): seq<(nat, real)>
    requires id in book && PositiveYields(book)
    decreases book.Keys - Elems(stack), |book[id].items| + 1, 0
  {
    LeavesUpTo(book, id, |book[id].items|, factor, stack)
  }

  function LeavesUpTo(book: Book, id: nat, n: nat, factor: real, stack: seq<nat>): seq<(nat, real)>
    requires id in book && PositiveYields(book) && n <= |book[id].items|
    decreases book.Keys - Elems(stack), n, 1
  {
    if n == 0 then [] else
      LeavesUpTo(book, id, n - 1, factor, stack)
      + ItemLeaves(book, book[id].yieldQuantity, book[id].items[n - 1], factor, stack)
  }

  function ItemLeaves(book: Book, y: int, item: Item, factor: real, stack: seq<nat>): seq<(nat, real)>
    requires PositiveYields(book) && y > 0
    decreases book.Keys - Elems(stack), 0, 0
  {
    match item
    case Malformed => []
    case Ingredient(x, _, gross) => [(x, Share(factor, gross, y))]
    case Sub(s, _, gross) =>
      if s in stack || s !in book then [] else
        Shrinks(book, stack, s);
        Leaves(book, s, Share(factor, gross, y), stack + [s])
  }

  /** Factor times quantity over yield. */
  function Share(factor: real, gross: int, y: int): real
    requires y > 0
  {
    factor * gross as real / y as real
  }

  function UnitCost(book: Book, id: nat, stack: seq<nat>, costs: nat -> real): real
    requires id in book && PositiveYields(book)
    decreases book.Keys - Elems(stack), |book[id].items| + 1, 0
  {
    BatchUpTo(book, id, |book[id].items|, stack, costs) / book[id].yieldQuantity as real
  }

  /** The batch cost of the first n items. */
  function BatchUpTo(book: Book, id: nat, n: nat, stack: seq<nat>, costs: nat -> real): real
    requires id in book && PositiveYields(book) && n <= |book[id].items|
    decreases book.Keys - Elems(stack), n, 1
  {
    if n == 0 then 0.0 else
      BatchUpTo(book, id, n - 1, stack, costs) + ItemCost(book, book[id].items[n - 1], stack, costs)
  }

  function ItemCost(book: Book, item: Item, stack: seq<nat>, costs: nat -> real): real
    requires PositiveYields(book)
    decreases book.Keys - Elems(stack), 0, 0
  {
    match item
    case Malformed => 0.0
    case Ingredient(x, _, gross) => gross as real * costs(x)
    case Sub(s, _, gross) =>
      if s in stack || s !in book then 0.0 else
        Shrinks(book, stack, s);
        gross as real * UnitCost(book, s, stack + [s], costs)
  }

  function Price(quantity: real, cost: real): real {
    quantity * cost
  }

  lemma PriceAdds(a: real, b: real, cost: real)
    ensures Price(a + b, cost) == Price(a, cost) + Price(b, cost) && Price(0.0, cost) == 0.0
  {
  }

  /** The worth of a list of quantities at the given costs. */
  function Worth(leaves: seq<(nat, real)>, costs: nat -> real): real {
    if leaves == [] then 0.0 else Price(leaves[0].1, costs(leaves[0].0)) + Worth(leaves[1..], costs)
  }

  lemma {:induction false} WorthJoins(a: seq<(nat, real)>, b: seq<(nat, real)>, costs: nat -> real)
    ensures Worth(a + b, costs) == Worth(a, costs) + Worth(b, costs)
  {
    hide Price;
    if a == [] {
      assert a + b == b;
    } else {
      assert (a + b)[1..] == a[1..] + b;
      WorthJoins(a[1..], b, costs);
    }
  }

  lemma ShareScales(factor: real, gross: int, y: int, c: real)
    requires y > 0
    ensures Price(Share(factor, gross, y), c) == factor * (gross as real * c) / y as real
  {
  }

  lemma ShareAdds(factor: real, a: real, b: real, y: int)
    requires y > 0
    ensures factor * a / y as real + factor * b / y as real == factor * (a + b) / y as real
  {
  }

  lemma ShareOfUnit(factor: real, batch: real, y: int)
    requires y > 0
    ensures factor * batch / y as real == factor * (batch / y as real)
  {
  }

  /** The first n items: what they explode into is worth the factor's share of their batch cost. */
  ghost predicate PartAgrees(book: Book, id: nat, n: nat, factor: real, stack: seq<nat>, costs: nat -> real)
    requires id in book && PositiveYields(book) && n <= |book[id].items|
  {
    Worth(LeavesUpTo(book, id, n, factor, stack), costs)
    == factor * BatchUpTo(book, id, n, stack, costs) / book[id].yieldQuantity as real
  }

  ghost predicate ItemAgrees(book: Book, y: int, item: Item, factor: real, stack: seq<nat>, costs: nat -> real)
    requires PositiveYields(book) && y > 0
  {
    Worth(ItemLeaves(book, y, item, factor, stack), costs) == factor * ItemCost(book, item, stack, costs) / y as real
  }

  /** The exploded quantities are worth the factor times the unit cost. */
  lemma {:induction false} LeavesAreWorthCost(book: Book, id: nat, factor: real, stack: seq<nat>, costs: nat -> real)
    requires id in book && PositiveYields(book)
    ensures Worth(Leaves(book, id, factor, stack), costs) == factor * UnitCost(book, id, stack, costs)
    decreases book.Keys - Elems(stack), |book[id].items| + 1, 0
  {
    var n, y := |book[id].items|, book[id].yieldQuantity;
    hide Worth, LeavesUpTo, BatchUpTo, PositiveYields;
    PartIsWorthCost(book, id, n, factor, stack, costs);
    ShareOfUnit(factor, BatchUpTo(book, id, n, stack, costs), y);
  }

  lemma {:induction false} PartIsWorthCost(book: Book, id: nat, n: nat, factor: real, stack: seq<nat>, costs: nat -> real)
    requires id in book && PositiveYields(book) && n <= |book[id].items|
    ensures book[id].yieldQuantity > 0 && PartAgrees(book, id, n, factor, stack, costs)
    decreases book.Keys - Elems(stack), n, 1
  {
    assert book[id].yieldQuantity > 0;
    hide *;
    if n == 0 {
      NoPartIsWorthCost(book, id, factor, stack, costs);
    } else {
      var y, item := book[id].yieldQuantity, book[id].items[n - 1];
      PartIsWorthCost(book, id, n - 1, factor, stack, costs);
      ItemIsWorthCost(book, y, item, factor, stack, costs);
      PartNextIsWorthCost(book, id, n, factor, stack, costs);
    }
  }

  lemma NoPartIsWorthCost(book: Book, id: nat, factor: real, stack: seq<nat>, costs: nat -> real)
    requires id in book && PositiveYields(book) && book[id].yieldQuantity > 0
    ensures PartAgrees(book, id, 0, factor, stack, costs)
  {
  }

  lemma PartNextIsWorthCost(book: Book, id: nat, n: nat, factor: real, stack: seq<nat>, costs: nat -> real)
    requires id in book && PositiveYields(book) && 0 < n <= |book[id].items| && book[id].yieldQuantity > 0
    requires PartAgrees(book, id, n - 1, factor, stack, costs)
    requires ItemAgrees(book, book[id].yieldQuantity, book[id].items[n - 1], factor, stack, costs)
    ensures PartAgrees(book, id, n, factor, stack, costs)
  {
    hide Worth, ItemLeaves, ItemCost, PositiveYields;
    var y, item := book[id].yieldQuantity, book[id].items[n - 1];
    var a, b := LeavesUpTo(book, id, n - 1, factor, stack), ItemLeaves(book, y, item, factor, stack);
    var p, q := BatchUpTo(book, id, n - 1, stack, costs), ItemCost(book, item, stack, costs);
    assert LeavesUpTo(book, id, n, factor, stack) == a + b && BatchUpTo(book, id, n, stack, costs) == p + q;
    hide LeavesUpTo, BatchUpTo;
    WorthJoins(a, b, costs);
    ShareAdds(factor, p, q, y);
  }

  lemma {:induction false} ItemIsWorthCost(book: Book, y: int, item: Item, factor: real, stack: seq<nat>, costs: nat -> real)
    requires PositiveYields(book) && y > 0
    ensures ItemAgrees(book, y, item, factor, stack, costs)
    decreases book.Keys - Elems(stack), 0, 0
  {
    hide Share, Worth, Leaves, UnitCost, Price;
    match item {
      case Malformed => WorthOfFew(0, 0.0, costs);
      case Ingredient(x, _, gross) =>
        ShareScales(factor, gross, y, costs(x));
        WorthOfFew(x, Share(factor, gross, y), costs);
      case Sub(s, _, gross) =>
        if s !in stack && s in book {
          Shrinks(book, stack, s);
          LeavesAreWorthCost(book, s, Share(factor, gross, y), stack + [s], costs);
          SubAgrees(factor, gross, y, UnitCost(book, s, stack + [s], costs));
        } else {
          WorthOfFew(0, 0.0, costs);
        }
    }
  }

  lemma SubAgrees(factor: real, gross: int, y: int, unit: real)
    requires y > 0
    ensures Share(factor, gross, y) * unit == factor * (gross as real * unit) / y as real
  {
    ShareScales(factor, gross, y, unit);
  }

  lemma WorthOfFew(x: nat, quantity: real, costs: nat -> real)
    ensures Worth([], costs) == 0.0 && Worth([(x, quantity)], costs) == Price(quantity, costs(x))
  {
    hide Price;
    var one := [(x, quantity)];
    assert one[1..] == [];
  }

  /* Aggregating by ingredient does not change the worth. */

  function Quantity(leaves: seq<(nat, real)>, x: nat): real {
    if leaves == [] then 0.0 else (if leaves[0].0 == x then leaves[0].1 else 0.0) + Quantity(leaves[1..], x)
  }

  function WorthOf(ids: seq<nat>, leaves: seq<(nat, real)>, costs: nat -> real): real {
    if ids == [] then 0.0 else Price(Quantity(leaves, ids[0]), costs(ids[0])) + WorthOf(ids[1..], leaves, costs)
  }

  lemma {:induction false} WorthOfOneMore(ids: seq<nat>, leaf: (nat, real), rest: seq<(nat, real)>, costs: nat -> real)
    requires forall i, j | 0 <= i < j < |ids| :: ids[i] != ids[j]
    ensures WorthOf(ids, [leaf] + rest, costs)
         == WorthOf(ids, rest, costs) + if leaf.0 in ids then Price(leaf.1, costs(leaf.0)) else 0.0
  {
    hide Quantity, Price;
    if ids != [] {
      WorthOfOneMore(ids[1..], leaf, rest, costs);
      QuantityNext(leaf, rest, ids[0]);
      PriceAdds(leaf.1, Quantity(rest, ids[0]), costs(ids[0]));
      assert leaf.0 in ids <==> leaf.0 == ids[0] || leaf.0 in ids[1..];
    }
  }

  lemma QuantityNext(leaf: (nat, real), rest: seq<(nat, real)>, x: nat)
    ensures Quantity([leaf] + rest, x) == (if leaf.0 == x then leaf.1 else 0.0) + Quantity(rest, x)
  {
    assert ([leaf] + rest)[1..] == rest;
  }

  lemma {:induction false} AggregationKeepsWorth(leaves: seq<(nat, real)>, ids: seq<nat>, costs: nat -> real)
    requires forall i, j | 0 <= i < j < |ids| :: ids[i] != ids[j]
    requires forall k | 0 <= k < |leaves| :: leaves[k].0 in ids
    ensures WorthOf(ids, leaves, costs) == Worth(leaves, costs)
  {
    hide Price, Quantity;
    if leaves == [] {
      WorthOfNone(ids, costs);
    } else {
      AggregationKeepsWorth(leaves[1..], ids, costs);
      WorthOfOneMore(ids, leaves[0], leaves[1..], costs);
      assert [leaves[0]] + leaves[1..] == leaves;
    }
  }

  lemma {:induction false} WorthOfNone(ids: seq<nat>, costs: nat -> real)
    ensures WorthOf(ids, [], costs) == 0.0
  {
    hide Price;
    if ids != [] {
      WorthOfNone(ids[1..], costs);
      PriceAdds(0.0, 0.0, costs(ids[0]));
    }
  }

  /** Exactly: the sum over ingredients of exploded gross quantity times cost is the unit cost. */
  lemma ExplosionAndCostingAgree(book: Book, root: nat, ids: seq<nat>, costs: nat -> real)
    requires root in book && PositiveYields(book)
    requires forall i, j | 0 <= i < j < |ids| :: ids[i] != ids[j]
    requires forall k | 0 <= k < |Leaves(book, root, 1.0, [root])| :: Leaves(book, root, 1.0, [root])[k].0 in ids
    ensures WorthOf(ids, Leaves(book, root, 1.0, [root]), costs) == UnitCost(book, root, [root], costs)
  {
    hide *;
    LeavesAreWorthCost(book, root, 1.0, [root], costs);
    AggregationKeepsWorth(Leaves(book, root, 1.0, [root]), ids, costs);
  }
}
