/** How far rounding takes the explosion and the costing from exact arithmetic, over recipes of any depth. */
module RecipeRounding {
  import opened Recipes
  import opened RecipeSums
  import opened RecipeCost
  import Money

  const F: real := Money.SCALE_FACTOR as real

  function Size(x: real): real {
    if x < 0.0 then -x else x
  }

  /** a and b are at most e apart. */
  predicate Near(a: real, b: real, e: real) {
    Size(a - b) <= e
  }

  lemma NearAdds(a: real, b: real, e: real, c: real, d: real, f: real)
    requires Near(a, b, e) && Near(c, d, f)
    ensures Near(a + c, b + d, e + f)
  {
  }

  lemma NearVia(a: real, b: real, c: real, e: real, f: real)
    requires Near(a, b, e) && Near(b, c, f)
    ensures Near(a, c, e + f)
  {
  }

  function Times(a: real, b: real): real {
    a * b
  }

  /** A distance multiplied by a factor. */
  lemma NearTimes(a: real, b: real, e: real, k: real)
    requires Near(a, b, e)
    ensures Near(Times(a, k), Times(b, k), Times(e, Size(k)))
  {
    var d := a - b;
    assert Times(a, k) - Times(b, k) == d * k;
    SizeTimes(d, k);
    Monotone(Size(d), e, Size(k));
  }

  lemma SizeTimes(a: real, b: real)
    ensures Size(a * b) == Size(a) * Size(b)
  {
  }

  lemma Monotone(a: real, b: real, k: real)
    requires a <= b && k >= 0.0
    ensures a * k <= Times(b, k)
  {
  }

  /* One rounding. */

  lemma RoundingIsNear(a: int, b: int)
    requires b > 0
    ensures Near(Money.RoundDiv(a, b) as real, a as real / b as real, 0.5)
  {
    Money.RoundDivIsNearest(a, b);
    var q := Money.RoundDiv(a, b);
    hide Money.RoundDiv;
    var product := b * q;
    assert 2 * Money.Abs(product - a) <= b;
    QuotientIsNear(a as real, b as real, q as real);
  }

  lemma QuotientIsNear(a: real, b: real, q: real)
    requires b > 0.0 && Near(2.0 * (b * q), 2.0 * a, b)
    ensures Near(q, a / b, 0.5)
  {
    var d := q - a / b;
    assert b * d == b * q - a;
    SizeTimes(b, d);
    if Size(d) > 0.5 {
      StrictlyMore(b, Size(d));
    }
  }

  lemma StrictlyMore(b: real, m: real)
    requires b > 0.0 && m > 0.5
    ensures 2.0 * (b * m) > b
  {
    assert b * m == b * 0.5 + b * (m - 0.5);
    assert b * (m - 0.5) > 0.0;
  }

  /* One item of a recipe. */

  /** The error of the two roundings of an effective quantity. */
  function StepSlack(y: int): real
    requires y > 0
  {
    Times(0.5, F / y as real) + 0.5
  }

  /** An error in the factor, passed on through a share, and the error of its own rounding. */
  function ShareSlack(slack: real, gross: int, y: int): real
    requires y > 0
  {
    Times(slack, Size(gross as real / y as real)) + StepSlack(y)
  }

  lemma EffectiveIsNear(factor: int, gross: int, y: int)
    requires y > 0
    ensures Near(Effective(factor, gross, y) as real, Share(factor as real, gross, y), StepSlack(y))
  {
    var f := Money.SCALE_FACTOR;
    var p := Money.RoundDiv(factor * gross, f);
    RoundingIsNear(factor * gross, f);
    RoundingIsNear(p * f, y);
    hide Money.RoundDiv;
    NearTimes(p as real, (factor * gross) as real / F, 0.5, F / y as real);
    Scaling(p, factor, gross, y);
    hide Share, Times;
    NearVia(Effective(factor, gross, y) as real, (p * f) as real / y as real, Share(factor as real, gross, y),
            0.5, Times(0.5, F / y as real));
  }

  lemma Scaling(p: int, factor: int, gross: int, y: int)
    requires y > 0
    ensures Times(p as real, F / y as real) == (p * Money.SCALE_FACTOR) as real / y as real
    ensures Times((factor * gross) as real / F, F / y as real) == Share(factor as real, gross, y)
    ensures Size(F / y as real) == F / y as real
  {
    var yr := y as real;
    assert (p * Money.SCALE_FACTOR) as real == p as real * F;
    assert (factor * gross) as real == factor as real * gross as real;
    var n := factor as real * gross as real;
    assert n / F * (F / yr) == n / yr;
  }

  lemma ShareIsNear(a: real, b: real, e: real, gross: int, y: int)
    requires y > 0 && Near(a, b, e)
    ensures Near(Share(a, gross, y), Share(b, gross, y), Times(e, Size(gross as real / y as real)))
  {
    var k := gross as real / y as real;
    NearTimes(a, b, e, k);
    assert Times(a, k) == Share(a, gross, y) && Times(b, k) == Share(b, gross, y);
  }

  lemma ItemIsNear(factor: int, exact: real, slack: real, gross: int, y: int)
    requires y > 0 && Near(factor as real, exact, slack)
    ensures Near(Effective(factor, gross, y) as real, Share(exact, gross, y), ShareSlack(slack, gross, y))
  {
    hide Effective, Share, Times, Near, StepSlack;
    EffectiveIsNear(factor, gross, y);
    ShareIsNear(factor as real, exact, slack, gross, y);
    NearVia(Effective(factor, gross, y) as real, Share(factor as real, gross, y), Share(exact, gross, y),
            StepSlack(y), Times(slack, Size(gross as real / y as real)));
  }

  /* The explosion. */

  /** How far the exploded amount of ingredient x may be off, when the factor is off by `slack`. */
  function Slack(book: Book, id: nat, slack: real, stack: seq<nat>, x: nat): real
    requires id in book && PositiveYields(book)
    decreases book.Keys - Elems(stack), |book[id].items| + 1, 0
  {
    SlackUpTo(book, id, |book[id].items|, slack, stack, x)
  }

  function SlackUpTo(book: Book, id: nat, n: nat, slack: real, stack: seq<nat>, x: nat): real
    requires id in book && PositiveYields(book) && n <= |book[id].items|
    decreases book.Keys - Elems(stack), n, 1
  {
    if n == 0 then 0.0 else
      SlackUpTo(book, id, n - 1, slack, stack, x)
      + ItemSlack(book, book[id].yieldQuantity, book[id].items[n - 1], slack, stack, x)
  }

  function ItemSlack(book: Book, y: int, item: Item, slack: real, stack: seq<nat>, x: nat): real
    requires PositiveYields(book) && y > 0
    decreases book.Keys - Elems(stack), 0, 0
  {
    match item
    case Malformed => 0.0
    case Ingredient(i, _, gross) => if i == x then ShareSlack(slack, gross, y) else 0.0
    case Sub(s, _, gross) =>
      if s in stack || s !in book then 0.0 else
        Shrinks(book, stack, s);
        Slack(book, s, ShareSlack(slack, gross, y), stack + [s], x)
  }

  lemma {:induction false} QuantityJoins(a: seq<(nat, real)>, b: seq<(nat, real)>, x: nat)
    ensures Quantity(a + b, x) == Quantity(a, x) + Quantity(b, x)
  {
    if a == [] {
      assert a + b == b;
    } else {
      assert (a + b)[1..] == a[1..] + b;
      QuantityJoins(a[1..], b, x);
    }
  }

  lemma QuantityOfOne(i: nat, q: real, x: nat)
    ensures Quantity([], x) == 0.0 && Quantity([(i, q)], x) == if i == x then q else 0.0
  {
    var one := [(i, q)];
    assert one[1..] == [];
  }

  /** The rounded amount of an ingredient is near the exact quantity, however deep the recipe. */
  lemma {:induction false} AmountIsNear(
    book: Book, id: nat, factor: int, exact: real, slack: real, stack: seq<nat>, x: nat)
    requires id in book && PositiveYields(book) && Near(factor as real, exact, slack) && book[id].yieldQuantity > 0
    ensures Near(RecipeAmount(book, id, factor, stack, x).gross as real, Quantity(Leaves(book, id, exact, stack), x),
                 Slack(book, id, slack, stack, x))
    decreases book.Keys - Elems(stack), |book[id].items| + 1, 0
  {
    var n := |book[id].items|;
    assert Leaves(book, id, exact, stack) == LeavesUpTo(book, id, n, exact, stack);
    assert Slack(book, id, slack, stack, x) == SlackUpTo(book, id, n, slack, stack, x);
    hide *;
    PartWhole(book, id, factor, stack, x);
    PartIsNear(book, id, n, factor, exact, slack, stack, x);
  }

  lemma {:induction false} PartIsNear(
    book: Book, id: nat, n: nat, factor: int, exact: real, slack: real, stack: seq<nat>, x: nat)
    requires id in book && PositiveYields(book) && book[id].yieldQuantity > 0 && n <= |book[id].items|
    requires Near(factor as real, exact, slack)
    ensures Near(PartAmount(book, id, n, factor, stack, x).gross as real, Quantity(LeavesUpTo(book, id, n, exact, stack), x),
                 SlackUpTo(book, id, n, slack, stack, x))
    decreases book.Keys - Elems(stack), n, 1
  {
    hide *;
    if n == 0 {
      NoPartIsNear(book, id, factor, exact, slack, stack, x);
    } else {
      PartIsNear(book, id, n - 1, factor, exact, slack, stack, x);
      ItemAmountIsNear(book, book[id].yieldQuantity, book[id].items[n - 1], factor, exact, slack, stack, x);
      PartNextIsNear(book, id, n, factor, exact, slack, stack, x);
    }
  }

  lemma NoPartIsNear(book: Book, id: nat, factor: int, exact: real, slack: real, stack: seq<nat>, x: nat)
    requires id in book && PositiveYields(book) && book[id].yieldQuantity > 0
    ensures Near(PartAmount(book, id, 0, factor, stack, x).gross as real, Quantity(LeavesUpTo(book, id, 0, exact, stack), x),
                 SlackUpTo(book, id, 0, slack, stack, x))
  {
    hide ItemAmount, PositiveYields;
  }

  lemma PartNextIsNear(book: Book, id: nat, n: nat, factor: int, exact: real, slack: real, stack: seq<nat>, x: nat)
    requires id in book && PositiveYields(book) && book[id].yieldQuantity > 0 && 0 < n <= |book[id].items|
    requires Near(PartAmount(book, id, n - 1, factor, stack, x).gross as real,
                  Quantity(LeavesUpTo(book, id, n - 1, exact, stack), x), SlackUpTo(book, id, n - 1, slack, stack, x))
    requires var y, item := book[id].yieldQuantity, book[id].items[n - 1];
             Near(ItemAmount(book, y, item, factor, stack, x).gross as real,
                  Quantity(ItemLeaves(book, y, item, exact, stack), x), ItemSlack(book, y, item, slack, stack, x))
    ensures Near(PartAmount(book, id, n, factor, stack, x).gross as real, Quantity(LeavesUpTo(book, id, n, exact, stack), x),
                 SlackUpTo(book, id, n, slack, stack, x))
  {
    var y, item := book[id].yieldQuantity, book[id].items[n - 1];
    PartNext(book, id, n - 1, factor, stack, x);
    hide PartAmount, ItemAmount, ItemLeaves, ItemSlack, Near, Quantity, PositiveYields;
    QuantityJoins(LeavesUpTo(book, id, n - 1, exact, stack), ItemLeaves(book, y, item, exact, stack), x);
    NearAdds(PartAmount(book, id, n - 1, factor, stack, x).gross as real,
             Quantity(LeavesUpTo(book, id, n - 1, exact, stack), x), SlackUpTo(book, id, n - 1, slack, stack, x),
             ItemAmount(book, y, item, factor, stack, x).gross as real,
             Quantity(ItemLeaves(book, y, item, exact, stack), x), ItemSlack(book, y, item, slack, stack, x));
  }

  lemma {:induction false} ItemAmountIsNear(
    book: Book, y: int, item: Item, factor: int, exact: real, slack: real, stack: seq<nat>, x: nat)
    requires PositiveYields(book) && y > 0 && Near(factor as real, exact, slack)
    ensures Near(ItemAmount(book, y, item, factor, stack, x).gross as real,
                 Quantity(ItemLeaves(book, y, item, exact, stack), x), ItemSlack(book, y, item, slack, stack, x))
    decreases book.Keys - Elems(stack), 0, 0
  {
    hide Share, Effective, ShareSlack, Slack, Leaves, RecipeAmount, Quantity;
    match item {
      case Malformed => QuantityOfOne(0, 0.0, x);
      case Ingredient(i, _, gross) =>
        ItemIsNear(factor, exact, slack, gross, y);
        QuantityOfOne(i, Share(exact, gross, y), x);
      case Sub(s, _, gross) =>
        if s !in stack && s in book {
          Shrinks(book, stack, s);
          ItemIsNear(factor, exact, slack, gross, y);
          hide Near;
          AmountIsNear(book, s, Effective(factor, gross, y), Share(exact, gross, y), ShareSlack(slack, gross, y),
                       stack + [s], x);
        } else {
          QuantityOfOne(0, 0.0, x);
        }
    }
  }

  /** What `explodeIngredients` finds of each ingredient is near its exact quantity. */
  lemma ExplosionIsNear(book: Book, root: nat, x: nat)
    requires root in book && PositiveYields(book) && ExplodeRecipe(book, root, Money.SCALE_FACTOR, [root], EMPTY).Ok?
    ensures Near(Get(ExplodeRecipe(book, root, Money.SCALE_FACTOR, [root], EMPTY).value, x).gross as real,
                 Quantity(Leaves(book, root, F, [root]), x), Slack(book, root, 0.0, [root], x))
  {
    hide Effective, Leaves, Slack, RecipeAmount, Quantity, ExplodeRecipe, PositiveYields;
    ExplodeAdds(book, root, Money.SCALE_FACTOR, [root], EMPTY, x);
    AmountIsNear(book, root, Money.SCALE_FACTOR, F, 0.0, [root], x);
  }

  /* The costing. */

  function RealCosts(costs: Costs): nat -> real {
    (x: nat) => match costs(x) case Some(c) => c as real case None => 0.0
  }

  /** How far the unit cost may be off. */
  function CostSlack(book: Book, id: nat, stack: seq<nat>): real
    requires id in book && PositiveYields(book)
    decreases book.Keys - Elems(stack), |book[id].items| + 1, 0
  {
    0.5 + Times(CostSlackUpTo(book, id, |book[id].items|, stack), F / book[id].yieldQuantity as real)
  }

  function CostSlackUpTo(book: Book, id: nat, n: nat, stack: seq<nat>): real
    requires id in book && PositiveYields(book) && n <= |book[id].items|
    decreases book.Keys - Elems(stack), n, 1
  {
    if n == 0 then 0.0 else
      CostSlackUpTo(book, id, n - 1, stack) + CostItemSlack(book, book[id].items[n - 1], stack)
  }

  function CostItemSlack(book: Book, item: Item, stack: seq<nat>): real
    requires PositiveYields(book)
    decreases book.Keys - Elems(stack), 0, 0
  {
    match item
    case Malformed => 0.0
    case Ingredient(_, _, _) => 0.5
    case Sub(s, _, gross) =>
      if s in stack || s !in book then 0.0 else
        Shrinks(book, stack, s);
        0.5 + Times(CostSlack(book, s, stack + [s]), Size(gross as real / F))
  }

  /** A line of the batch: rounded, with a cost that may itself be off. */
  lemma LineIsNear(gross: int, cost: int, exact: real, slack: real)
    requires Near(cost as real, exact, slack) && LineCost(gross, cost).Ok?
    ensures Near(LineCost(gross, cost).value as real, gross as real * exact / F, 0.5 + Times(slack, Size(gross as real / F)))
  {
    RoundingIsNear(gross * cost, Money.SCALE_FACTOR);
    var k := gross as real / F;
    NearTimes(cost as real, exact, slack, k);
    LineScales(gross, cost, exact);
    hide Money.RoundDiv, Times, Near;
    NearVia(LineCost(gross, cost).value as real, Times(cost as real, k), Times(exact, k), 0.5, Times(slack, Size(k)));
  }

  lemma LineScales(gross: int, cost: int, exact: real)
    ensures Times(cost as real, gross as real / F) == (gross * cost) as real / F
    ensures Times(exact, gross as real / F) == gross as real * exact / F
  {
    assert (gross * cost) as real == gross as real * cost as real;
  }

  /** The unit cost of a batch whose total may be off. */
  lemma UnitIsNear(total: int, batch: real, slack: real, y: int)
    requires y > 0 && Near(total as real, batch / F, slack)
    ensures Near(Money.RoundDiv(total * Money.SCALE_FACTOR, y) as real, batch / y as real, 0.5 + Times(slack, F / y as real))
  {
    RoundingIsNear(total * Money.SCALE_FACTOR, y);
    var k := F / y as real;
    NearTimes(total as real, batch / F, slack, k);
    UnitScales(total, batch, y);
    var unit := Money.RoundDiv(total * Money.SCALE_FACTOR, y) as real;
    hide Money.RoundDiv, Times, Near;
    NearVia(unit, Times(total as real, k), Times(batch / F, k), 0.5, Times(slack, Size(k)));
  }

  lemma UnitScales(total: int, batch: real, y: int)
    requires y > 0
    ensures Times(total as real, F / y as real) == (total * Money.SCALE_FACTOR) as real / y as real
    ensures Times(batch / F, F / y as real) == batch / y as real
    ensures Size(F / y as real) == F / y as real
  {
    assert (total * Money.SCALE_FACTOR) as real == total as real * F;
  }

  /** The rounded unit cost is near the exact one, however deep the recipe. */
  lemma {:induction false} CostIsNear(book: Book, id: nat, stack: seq<nat>, costs: Costs)
    requires id in book && PositiveYields(book) && CostRecipe(book, id, stack, costs).Ok?
    ensures Near(CostRecipe(book, id, stack, costs).value.unit as real, UnitCost(book, id, stack, RealCosts(costs)),
                 CostSlack(book, id, stack))
    decreases book.Keys - Elems(stack), |book[id].items| + 1, 0
  {
    var y, items := book[id].yieldQuantity, book[id].items;
    assert items[..|items|] == items;
    hide CostItems, BatchUpTo, CostSlackUpTo, Money.RoundDiv, Near, PositiveYields, Money.InRange, RealCosts;
    BatchIsNear(book, id, |items|, stack, costs);
    UnitIsNear(CostItems(book, items, stack, costs).value, BatchUpTo(book, id, |items|, stack, RealCosts(costs)),
               CostSlackUpTo(book, id, |items|, stack), y);
  }

  lemma {:induction false} BatchIsNear(book: Book, id: nat, n: nat, stack: seq<nat>, costs: Costs)
    requires id in book && PositiveYields(book) && n <= |book[id].items|
    requires CostItems(book, book[id].items[..n], stack, costs).Ok?
    ensures Near(CostItems(book, book[id].items[..n], stack, costs).value as real,
                 BatchUpTo(book, id, n, stack, RealCosts(costs)) / F, CostSlackUpTo(book, id, n, stack))
    decreases book.Keys - Elems(stack), n, 1
  {
    hide CostItem, ItemCost, CostItemSlack, Near, PositiveYields, RealCosts;
    if n == 0 {
      assert Near(0.0, 0.0 / F, 0.0) by { NothingIsNear(); }
    } else {
      var items, item := book[id].items, book[id].items[n - 1];
      assert items[..n][..n - 1] == items[..n - 1];
      BatchIsNear(book, id, n - 1, stack, costs);
      CostItemIsNear(book, item, stack, costs);
      var before, exact := CostItems(book, items[..n - 1], stack, costs).value, BatchUpTo(book, id, n - 1, stack, RealCosts(costs));
      var line, cost := CostItem(book, item, stack, costs).value, ItemCost(book, item, stack, RealCosts(costs));
      NearAdds(before as real, exact / F, CostSlackUpTo(book, id, n - 1, stack),
               line as real, cost / F, CostItemSlack(book, item, stack));
      assert exact / F + cost / F == (exact + cost) / F;
    }
  }

  lemma NothingIsNear()
    ensures Near(0.0, 0.0 / F, 0.0)
  {
  }

  lemma {:induction false} CostItemIsNear(book: Book, item: Item, stack: seq<nat>, costs: Costs)
    requires PositiveYields(book) && CostItem(book, item, stack, costs).Ok?
    ensures Near(CostItem(book, item, stack, costs).value as real, ItemCost(book, item, stack, RealCosts(costs)) / F,
                 CostItemSlack(book, item, stack))
    decreases book.Keys - Elems(stack), 0, 0
  {
    hide LineCost, CostRecipe, UnitCost, CostSlack, PositiveYields;
    if item.Ingredient? {
      IngredientIsNear(item.gross, costs, item.id);
      hide Near;
    } else {
      Shrinks(book, stack, item.id);
      hide Near, RealCosts;
      CostIsNear(book, item.id, stack + [item.id], costs);
      LineIsNear(item.gross, CostRecipe(book, item.id, stack + [item.id], costs).value.unit,
                 UnitCost(book, item.id, stack + [item.id], RealCosts(costs)), CostSlack(book, item.id, stack + [item.id]));
    }
  }

  lemma IngredientIsNear(gross: int, costs: Costs, x: nat)
    requires costs(x).Some? && LineCost(gross, costs(x).value).Ok?
    ensures Near(LineCost(gross, costs(x).value).value as real, gross as real * RealCosts(costs)(x) / F, 0.5)
  {
    var c := costs(x).value;
    hide LineCost;
    LineIsNear(gross, c, c as real, 0.0);
    assert Times(0.0, Size(gross as real / F)) == 0.0;
  }

  /* Explosion and costing together. */

  /** Exploded gross quantity times cost, summed over the ingredients. */
  function ExplodedWorth(ids: seq<nat>, acc: Acc, costs: nat -> real): real {
    if ids == [] then 0.0 else Price(Get(acc, ids[0]).gross as real, costs(ids[0])) + ExplodedWorth(ids[1..], acc, costs)
  }

  function WorthSlack(book: Book, root: nat, ids: seq<nat>, costs: nat -> real): real
    requires root in book && PositiveYields(book)
  {
    if ids == [] then 0.0 else
      Times(Slack(book, root, 0.0, [root], ids[0]), Size(costs(ids[0]))) + WorthSlack(book, root, ids[1..], costs)
  }

  lemma {:induction false} WorthIsNear(book: Book, root: nat, ids: seq<nat>, costs: nat -> real)
    requires root in book && PositiveYields(book) && ExplodeRecipe(book, root, Money.SCALE_FACTOR, [root], EMPTY).Ok?
    ensures Near(ExplodedWorth(ids, ExplodeRecipe(book, root, Money.SCALE_FACTOR, [root], EMPTY).value, costs),
                 WorthOf(ids, Leaves(book, root, F, [root]), costs), WorthSlack(book, root, ids, costs))
  {
    hide ExplodeRecipe, Leaves, Slack, Quantity, PositiveYields, Get;
    if ids != [] {
      WorthIsNear(book, root, ids[1..], costs);
      ExplosionIsNear(book, root, ids[0]);
      var acc := ExplodeRecipe(book, root, Money.SCALE_FACTOR, [root], EMPTY).value;
      var leaves, c := Leaves(book, root, F, [root]), costs(ids[0]);
      NearTimes(Get(acc, ids[0]).gross as real, Quantity(leaves, ids[0]), Slack(book, root, 0.0, [root], ids[0]), c);
      PriceIsTimes(Get(acc, ids[0]).gross as real, c);
      PriceIsTimes(Quantity(leaves, ids[0]), c);
      hide Near, Price, Times;
      NearAdds(Price(Get(acc, ids[0]).gross as real, c), Price(Quantity(leaves, ids[0]), c),
               Times(Slack(book, root, 0.0, [root], ids[0]), Size(c)),
               ExplodedWorth(ids[1..], acc, costs), WorthOf(ids[1..], leaves, costs), WorthSlack(book, root, ids[1..], costs));
    }
  }

  lemma PriceIsTimes(q: real, c: real)
    ensures Price(q, c) == Times(q, c)
  {
  }

  /** With rounding, the sum over ingredients of exploded gross quantity times cost differs from F times the unit cost
      by no more than the slacks of the recipe tree, whatever its depth. */
  lemma RoundedExplosionAndCostingAgree(book: Book, root: nat, ids: seq<nat>, costs: Costs)
    requires root in book && PositiveYields(book)
    requires ExplodeRecipe(book, root, Money.SCALE_FACTOR, [root], EMPTY).Ok? && CostRecipe(book, root, [root], costs).Ok?
    requires forall i, j | 0 <= i < j < |ids| :: ids[i] != ids[j]
    requires forall k | 0 <= k < |Leaves(book, root, F, [root])| :: Leaves(book, root, F, [root])[k].0 in ids
    ensures Near(ExplodedWorth(ids, ExplodeRecipe(book, root, Money.SCALE_FACTOR, [root], EMPTY).value, RealCosts(costs)),
                 Times(CostRecipe(book, root, [root], costs).value.unit as real, F),
                 WorthSlack(book, root, ids, RealCosts(costs)) + Times(CostSlack(book, root, [root]), F))
  {
    hide ExplodedWorth, WorthOf, Worth, WorthSlack, CostSlack, Near, Times, ExplodeRecipe, CostRecipe, Leaves, UnitCost,
      RealCosts, PositiveYields;
    var c := RealCosts(costs);
    WorthIsNear(book, root, ids, c);
    AggregationKeepsWorth(Leaves(book, root, F, [root]), ids, c);
    LeavesAreWorthCost(book, root, F, [root], c);
    CostIsNear(book, root, [root], costs);
    var worth, unit := WorthOf(ids, Leaves(book, root, F, [root]), c), CostRecipe(book, root, [root], costs).value.unit;
    ScaledCost(worth, unit as real, UnitCost(book, root, [root], c), CostSlack(book, root, [root]));
    NearVia(ExplodedWorth(ids, ExplodeRecipe(book, root, Money.SCALE_FACTOR, [root], EMPTY).value, c),
            worth, Times(unit as real, F), WorthSlack(book, root, ids, c), Times(CostSlack(book, root, [root]), F));
  }

  lemma ScaledCost(worth: real, unit: real, exact: real, slack: real)
    requires Near(unit, exact, slack) && worth == F * exact
    ensures Near(worth, Times(unit, F), Times(slack, F))
  {
    NearTimes(unit, exact, slack, F);
  }
}
