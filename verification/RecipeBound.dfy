/** How far rounding can drive explosion and costing apart, for a recipe of ingredients only. */
module RecipeBound {
  import opened Results
  import opened Recipes
  import opened RecipeOrder
  import opened RecipeCost
  import Money

  const F: int := Money.SCALE_FACTOR

  predicate OneLevel(items: seq<Item>) {
    forall k | 0 <= k < |items| :: items[k].Ingredient?
  }

  /** The cost used for an ingredient; costing fails when there is none. */
  function CostOf(costs: Costs, x: nat): int {
    match costs(x) case Some(c) => c case None => 0
  }

  function SumCosts(items: seq<Item>, costs: Costs): int
    requires OneLevel(items)
  {
    if items == [] then 0 else SumCosts(items[..|items| - 1], costs) + CostOf(costs, items[|items| - 1].id)
  }

  function Times(a: int, b: int): int {
    a * b
  }

  /** Exploded gross quantity times cost, summed over the keys of the accumulator. */
  function Value(keys: seq<nat>, acc: Acc, costs: Costs): int {
    if keys == [] then 0 else
      Value(keys[..|keys| - 1], acc, costs) + Times(Get(acc, keys[|keys| - 1]).gross, CostOf(costs, keys[|keys| - 1]))
  }

  lemma {:induction false} ValueOfOthers(keys: seq<nat>, acc: Acc, id: nat, a: Amount, costs: Costs)
    requires id !in keys
    ensures Value(keys, Add(acc, id, a), costs) == Value(keys, acc, costs)
  {
    hide Times;
    if keys != [] {
      ValueOfOthers(keys[..|keys| - 1], acc, id, a, costs);
    }
  }

  lemma TimesAdds(a: int, b: int, c: int)
    ensures Times(a + b, c) == Times(a, c) + Times(b, c) && Times(0, c) == 0
  {
  }

  lemma {:induction false} ValueOfKnown(keys: seq<nat>, acc: Acc, id: nat, a: Amount, costs: Costs)
    requires id in keys && forall i, j | 0 <= i < j < |keys| :: keys[i] != keys[j]
    ensures Value(keys, Add(acc, id, a), costs) == Value(keys, acc, costs) + Times(a.gross, CostOf(costs, id))
  {
    hide Times, CostOf;
    var n := |keys| - 1;
    if keys[n] == id {
      ValueOfOthers(keys[..n], acc, id, a, costs);
      TimesAdds(Get(acc, id).gross, a.gross, CostOf(costs, id));
    } else {
      ValueOfKnown(keys[..n], acc, id, a, costs);
    }
  }

  /** Adding a leaf adds its worth. */
  lemma ValueAdds(acc: Acc, id: nat, a: Amount, costs: Costs)
    requires AccOk(acc)
    ensures var after := Add(acc, id, a);
            Value(after.keys, after, costs) == Value(acc.keys, acc, costs) + Times(a.gross, CostOf(costs, id))
  {
    hide Times, CostOf;
    if id in acc.keys {
      ValueOfKnown(acc.keys, acc, id, a, costs);
    } else {
      ValueOfOthers(acc.keys, acc, id, a, costs);
      TimesAdds(0, a.gross, CostOf(costs, id));
      assert (acc.keys + [id])[..|acc.keys|] == acc.keys;
    }
  }

  lemma Distributes(c: int, p: int, q: int)
    ensures c * (p - q) == c * p - c * q
  {
  }

  lemma ScaledBound(c: int, d: int, bound: int)
    requires c >= 0 && 2 * Money.Abs(d) <= bound
    ensures 2 * Money.Abs(c * d) <= c * bound
  {
    assert Money.Abs(c * d) == c * Money.Abs(d) by {
      if d < 0 {
        assert c * d == -(c * -d);
        assert c * -d >= 0;
      } else {
        assert c * d >= 0;
      }
    }
    assert c * (2 * Money.Abs(d)) <= c * bound;
  }

  /** n items worth v after the explosion and `total` after costing, at costs adding up to `sum`. */
  predicate CloseBy(y: int, v: int, total: int, sum: int, n: int) {
    2 * Money.Abs(y * v - F * F * total) <= y * sum + n * F * F
  }

  /** One item: e is the exploded quantity, t the line cost, g the gross quantity, c the cost. */
  lemma ItemBound(e: int, t: int, g: int, c: int, y: int)
    requires y > 0 && c >= 0
    requires 2 * Money.Abs(y * e - g * F) <= y && 2 * Money.Abs(F * t - g * c) <= F
    ensures CloseBy(y, Times(e, c), t, c, 1)
  {
    var d1, d2 := y * e - g * F, F * t - g * c;
    ScaledBound(c, d1, y);
    ScaledBound(F, d2, F);
    Rearranged(e, t, g, c, y);
    hide Times;
    Combine(c * d1, F * d2, y * Times(e, c) - F * F * t, c * y, F * F);
  }

  lemma Rearranged(e: int, t: int, g: int, c: int, y: int)
    ensures y * Times(e, c) - F * F * t == c * (y * e - g * F) - F * (F * t - g * c)
  {
    Distributes(c, y * e, g * F);
    assert c * (y * e) == y * (e * c) && c * (g * F) == F * (g * c);
  }

  lemma Combine(a: int, b: int, d: int, p: int, q: int)
    requires d == a - b && 2 * Money.Abs(a) <= p && 2 * Money.Abs(b) <= q
    ensures 2 * Money.Abs(d) <= p + q
  {
  }

  lemma AbsOfDifference(a: int, b: int, d: int)
    requires d == a - b
    ensures Money.Abs(d) <= Money.Abs(a) + Money.Abs(b)
  {
  }

  lemma EffectiveError(g: int, y: int)
    requires y > 0
    ensures 2 * Money.Abs(y * Effective(F, g, y) - g * F) <= y
  {
    Money.RoundDivExact(g, F);
    Money.RoundDivIsNearest(g * F, y);
    hide Money.RoundDiv;
  }

  /** What the first n items of both recursions have computed. */
  ghost predicate Close(y: int, items: seq<Item>, acc: Acc, total: int, costs: Costs)
    requires OneLevel(items)
  {
    CloseBy(y, Value(acc.keys, acc, costs), total, SumCosts(items, costs), |items|)
  }

  lemma CloseNext(y: int, v: int, total: int, sum: int, n: nat, w: int, t: int, c: int)
    requires CloseBy(y, v, total, sum, n) && CloseBy(y, w, t, c, 1)
    ensures CloseBy(y, v + w, total + t, sum + c, n + 1)
  {
    assert y * (v + w) == y * v + y * w && y * (sum + c) == y * sum + y * c;
  }

  lemma {:induction false} ItemsAreClose(book: Book, y: int, items: seq<Item>, stack: seq<nat>, costs: Costs)
    requires y > 0 && OneLevel(items) && CostItems(book, items, stack, costs).Ok?
    ensures ExplodeItems(book, y, items, F, stack, EMPTY).Ok?
    ensures AccOk(ExplodeItems(book, y, items, F, stack, EMPTY).value)
    ensures Close(y, items, ExplodeItems(book, y, items, F, stack, EMPTY).value, CostItems(book, items, stack, costs).value, costs)
  {
    hide Close, AccOk;
    if items != [] {
      var n := |items| - 1;
      var rest, item := items[..n], items[n];
      assert OneLevel(rest) && CostItems(book, rest, stack, costs).Ok? && CostItem(book, item, stack, costs).Ok?;
      hide CostItem, ExplodeItem, OneLevel;
      ItemsAreClose(book, y, rest, stack, costs);
      var acc, total := ExplodeItems(book, y, rest, F, stack, EMPTY).value, CostItems(book, rest, stack, costs).value;
      StepIsClose(book, y, rest, item, stack, costs, acc, total, CostItem(book, item, stack, costs).value);
      assert rest + [item] == items;
    } else {
      NothingIsClose(y, costs);
    }
  }

  lemma NothingIsClose(y: int, costs: Costs)
    ensures AccOk(EMPTY) && Close(y, [], EMPTY, 0, costs)
  {
  }

  /** A successful line cost is the rounded product with a cost that is not negative. */
  lemma LineIsRounded(book: Book, item: Item, stack: seq<nat>, costs: Costs)
    requires item.Ingredient? && CostItem(book, item, stack, costs).Ok?
    ensures CostOf(costs, item.id) >= 0
    ensures 2 * Money.Abs(F * CostItem(book, item, stack, costs).value - item.gross * CostOf(costs, item.id)) <= F
  {
    Money.RoundDivIsNearest(item.gross * CostOf(costs, item.id), F);
    hide Money.RoundDiv;
  }

  lemma ItemIsClose(book: Book, y: int, item: Item, stack: seq<nat>, costs: Costs)
    requires y > 0 && item.Ingredient? && CostItem(book, item, stack, costs).Ok?
    ensures var c := CostOf(costs, item.id);
            CloseBy(y, Times(Effective(F, item.gross, y), c), CostItem(book, item, stack, costs).value, c, 1)
  {
    hide Effective, Times, CostOf, CostItem, CloseBy;
    LineIsRounded(book, item, stack, costs);
    EffectiveError(item.gross, y);
    ItemBound(Effective(F, item.gross, y), CostItem(book, item, stack, costs).value, item.gross, CostOf(costs, item.id), y);
  }

  lemma AddKeepsAcc(acc: Acc, id: nat, a: Amount)
    requires AccOk(acc)
    ensures AccOk(Add(acc, id, a))
  {
  }

  lemma StepIsClose(
    book: Book, y: int, rest: seq<Item>, item: Item, stack: seq<nat>, costs: Costs, acc: Acc, total: int, line: int)
    requires y > 0 && OneLevel(rest) && item.Ingredient? && AccOk(acc) && Close(y, rest, acc, total, costs)
    requires CostItem(book, item, stack, costs) == Ok(line)
    ensures OneLevel(rest + [item]) && ExplodeItem(book, y, item, F, stack, acc).Ok?
    ensures AccOk(ExplodeItem(book, y, item, F, stack, acc).value)
    ensures Close(y, rest + [item], ExplodeItem(book, y, item, F, stack, acc).value, total + line, costs)
  {
    hide Effective, Times, Value, CostOf, Add, Get, AccOk, CostItem, CloseBy;
    ItemIsClose(book, y, item, stack, costs);
    var c := CostOf(costs, item.id);
    var a := Amount(Effective(F, item.net, y), Effective(F, item.gross, y));
    AddKeepsAcc(acc, item.id, a);
    ValueAdds(acc, item.id, a, costs);
    SumCostsNext(rest, item, costs);
    hide SumCosts;
    CloseNext(y, Value(acc.keys, acc, costs), total, SumCosts(rest, costs), |rest|, Times(a.gross, c), line, c);
  }

  lemma SumCostsNext(rest: seq<Item>, item: Item, costs: Costs)
    requires OneLevel(rest) && item.Ingredient?
    ensures OneLevel(rest + [item]) && SumCosts(rest + [item], costs) == SumCosts(rest, costs) + CostOf(costs, item.id)
  {
    assert (rest + [item])[..|rest|] == rest;
  }

  /** With n items, yield Y, unit cost U and the exploded quantities e at costs c:
      2Y|Σ e·c − U·F| <= Y·Σ c + n·F² + F·Y. */
  lemma OneLevelBound(book: Book, id: nat, costs: Costs)
    requires id in book && OneLevel(book[id].items) && CostRecipe(book, id, [id], costs).Ok?
    ensures ExplodeRecipe(book, id, F, [id], EMPTY).Ok?
    ensures var acc, unit := ExplodeRecipe(book, id, F, [id], EMPTY).value, CostRecipe(book, id, [id], costs).value.unit;
            var y, items := book[id].yieldQuantity, book[id].items;
            2 * y * Money.Abs(Value(acc.keys, acc, costs) - unit * F) <= y * SumCosts(items, costs) + |items| * F * F + F * y
  {
    var y, items := book[id].yieldQuantity, book[id].items;
    ItemsAreClose(book, y, items, [id], costs);
    var acc, cost := ExplodeRecipe(book, id, F, [id], EMPTY).value, CostRecipe(book, id, [id], costs).value;
    Money.RoundDivIsNearest(cost.total * F, y);
    hide Money.RoundDiv, ExplodeItems, CostItems;
    UnitBound(y, Value(acc.keys, acc, costs), cost.total, cost.unit, y * SumCosts(items, costs) + |items| * F * F);
  }

  lemma UnitBound(y: int, v: int, total: int, unit: int, bound: int)
    requires y > 0 && 2 * Money.Abs(y * v - F * F * total) <= bound && 2 * Money.Abs(y * unit - total * F) <= y
    ensures 2 * y * Money.Abs(v - unit * F) <= bound + F * y
  {
    var d1, d2 := y * v - F * F * total, y * unit - total * F;
    ScaledBound(F, d2, y);
    Distributes(F, y * unit, total * F);
    assert F * (total * F) == F * F * total && F * (y * unit) == y * (unit * F);
    Distributes(y, v, unit * F);
    AbsOfDifference(d1, F * d2, y * (v - unit * F));
    assert Money.Abs(y * (v - unit * F)) == y * Money.Abs(v - unit * F) by {
      AbsOfProduct(y, v - unit * F);
    }
  }

  lemma AbsOfProduct(y: int, d: int)
    requires y > 0
    ensures Money.Abs(y * d) == y * Money.Abs(d)
  {
    if d < 0 {
      assert y * d < 0 && y * -d == -(y * d);
    }
  }
}
