/** What an order takes when its dishes come from the recipe engine. The explosion is per unit of product, and the
    depletion divides the ordered quantity by the yield once more. */
module DepletionYield {
  import opened Results
  import opened Ordering
  import opened StockLedger
  import opened Depletion
  import opened DepletionEffect
  import opened DepletionExact
  import Recipes
  import RecipeSums
  import RecipeOrder
  import Money

  const F := Money.SCALE_FACTOR

  /** The gross quantities of the exploded list, which are what depletion uses. */
  function Grosses(list: seq<(nat, Recipes.Amount)>): seq<(nat, int)> {
    seq(|list|, i requires 0 <= i < |list| => (list[i].0, list[i].1.gross))
  }

  /** `explodeIngredients`: absent when the explosion throws. */
  function Exploded(book: Recipes.Book, id: nat): Option<seq<(nat, int)>>
    requires id in book
  {
    match Recipes.ExplodeRecipe(book, id, F, [id], Recipes.EMPTY)
    case Err(_) => None
    case Ok(acc) => if RecipeOrder.AllInRange(RecipeOrder.Listed(acc)) then Some(Grosses(RecipeOrder.Listed(acc))) else None
  }

  /** The dishes of a book; a product goes by the id of its recipe. */
  function Kitchen(book: Recipes.Book): Menu {
    (product: nat) => if product in book then Some(Dish(book[product].yieldQuantity, Exploded(book, product))) else None
  }

  /** Gross quantity of an ingredient per unit of a product, as the explosion sums it over all paths. */
  function PerUnit(book: Recipes.Book, product: nat, id: nat): int {
    if product in book && book[product].yieldQuantity > 0
    then RecipeSums.RecipeAmount(book, product, F, [product], id).gross else 0
  }

  /** What a line takes of an ingredient when recipe and modifiers are multiplied by a factor. */
  function LineAt(book: Recipes.Book, line: Line, impact: Impact, id: nat, factor: int): int {
    if line.quantity <= 0 then 0
    else
      Money.MultiplyScale4(if id in impact.removed then 0 else PerUnit(book, line.product, id), factor)
      + Total(Scaled(impact.added, factor), id)
  }

  function YieldOf(book: Recipes.Book, product: nat): int {
    if product in book && book[product].yieldQuantity > 0 then book[product].yieldQuantity else 1
  }

  /** The factor the code uses: the quantity over the yield. */
  function LineTaken(book: Recipes.Book, line: Line, impact: Impact, id: nat): int {
    LineAt(book, line, impact, id, Money.RoundDiv(line.quantity * F, YieldOf(book, line.product)))
  }

  function OrderTaken(book: Recipes.Book, lines: seq<Line>, impacts: seq<Impact>, id: nat): int
    requires |lines| == |impacts|
  {
    if lines == [] then 0 else
      var n := |lines| - 1;
      OrderTaken(book, lines[..n], impacts[..n], id) + LineTaken(book, lines[n], impacts[n], id)
  }

  /** What the line should take: its quantity times the amounts per unit. */
  function LineNeeds(book: Recipes.Book, line: Line, impact: Impact, id: nat): int {
    LineAt(book, line, impact, id, line.quantity)
  }

  function OrderNeeds(book: Recipes.Book, lines: seq<Line>, impacts: seq<Impact>, id: nat): int
    requires |lines| == |impacts|
  {
    if lines == [] then 0 else
      var n := |lines| - 1;
      OrderNeeds(book, lines[..n], impacts[..n], id) + LineNeeds(book, lines[n], impacts[n], id)
  }

  /** The modifiers of an order, line by line. */
  function Impacts(e: Event, menu: Menu, resolver: Option<Resolver>): (r: seq<Impact>)
    ensures |r| == |e.lines|
  {
    match Resolve(e, menu, resolver)
    case Resolved(impacts) => impacts
    case _ => seq(|e.lines|, _ => NO_IMPACT)
  }

  /* From the explosion to the ingredient list. */

  lemma ExplosionIsAscending(acc: Recipes.Acc)
    requires RecipeOrder.AccOk(acc)
    ensures AscendingIds(Grosses(RecipeOrder.Listed(acc)))
  {
    AscendingIsOrder(acc.keys);
    SortSorts(Ascending, acc.keys);
    var ids := Sort(Ascending, acc.keys);
    forall i, j | 0 <= i < j < |ids|
      ensures ids[i] < ids[j]
    {
      assert Ascending(ids[i], ids[j]);
    }
    hide Sort, Recipes.Get;
  }

  lemma ExplosionTotal(acc: Recipes.Acc, id: nat)
    requires RecipeOrder.AccOk(acc)
    ensures Total(Grosses(RecipeOrder.Listed(acc)), id) == Recipes.Get(acc, id).gross
  {
    ExplosionIsAscending(acc);
    var items, ids := Grosses(RecipeOrder.Listed(acc)), Sort(Ascending, acc.keys);
    SortKeeps(Ascending, acc.keys);
    SameMembers(ids, acc.keys, id);
    hide Sort;
    if id in acc.keys {
      var k :| 0 <= k < |ids| && ids[k] == id;
      assert items[k] == (id, Recipes.Get(acc, id).gross);
      TotalOfDistinct(items, k);
    } else {
      TotalAbsent(items, id);
    }
  }

  /** The list of a dish holds each ingredient once, with the amount per unit. */
  lemma DishList(book: Recipes.Book, product: nat, id: nat)
    requires product in book && Exploded(book, product).Some?
    ensures AscendingIds(Exploded(book, product).value)
    ensures Total(Exploded(book, product).value, id) == PerUnit(book, product, id)
  {
    hide Recipes.Effective, RecipeOrder.Uses, Sort, RecipeOrder.AllInRange;
    var acc := Recipes.ExplodeRecipe(book, product, F, [product], Recipes.EMPTY).value;
    assert RecipeOrder.AccOk(Recipes.EMPTY);
    RecipeOrder.KeysExact(book, product, F, [product], Recipes.EMPTY);
    RecipeSums.ExplodeAdds(book, product, F, [product], Recipes.EMPTY, id);
    hide RecipeOrder.AccOk, Recipes.ExplodeRecipe, RecipeSums.RecipeAmount;
    ExplosionIsAscending(acc);
    ExplosionTotal(acc, id);
  }

  lemma {:induction false} ScaledTotal(items: seq<(nat, int)>, factor: int, id: nat)
    requires AscendingIds(items)
    ensures Total(Scaled(items, factor), id) == Money.MultiplyScale4(Total(items, id), factor)
  {
    if items == [] {
      Money.RoundDivExact(0, F);
    } else {
      var n := |items| - 1;
      ScaledTotal(items[..n], factor, id);
      Money.RoundDivExact(0, F);
      assert Scaled(items, factor)[..|Scaled(items, factor)| - 1] == Scaled(items[..n], factor);
      if items[n].0 == id {
        TotalAbsent(items[..n], id);
      }
      hide Money.RoundDiv;
    }
  }

  lemma {:induction false} KeptIds(items: seq<(nat, int)>, removed: set<nat>)
    requires AscendingIds(items)
    ensures AscendingIds(Kept(items, removed))
    ensures forall k | 0 <= k < |Kept(items, removed)| :: items != [] && Kept(items, removed)[k].0 <= items[|items| - 1].0
  {
    if items != [] {
      KeptIds(items[..|items| - 1], removed);
    }
  }

  lemma {:induction false} KeptTotal(items: seq<(nat, int)>, removed: set<nat>, id: nat)
    ensures Total(Kept(items, removed), id) == if id in removed then 0 else Total(items, id)
  {
    if items != [] {
      var n := |items| - 1;
      KeptTotal(items[..n], removed, id);
      var before := Kept(items[..n], removed);
      if items[n].0 in removed {
        assert Kept(items, removed) == before;
      } else {
        assert Kept(items, removed)[..|before|] == before;
      }
    }
  }

  lemma LineTotal(book: Recipes.Book, line: Line, impact: Impact, id: nat)
    requires LineItems(Kitchen(book), line, impact).Ok?
    ensures Total(LineItems(Kitchen(book), line, impact).value, id) == LineTaken(book, line, impact, id)
  {
    hide Exploded, PerUnit, Money.RoundDiv, Total, Kept, Scaled, Money.MultiplyScale4;
    if line.quantity > 0 {
      var dish := Kitchen(book)(line.product).value;
      ExplodedYields(book, line.product);
      var list, factor := dish.exploded.value, Money.RoundDiv(line.quantity * F, dish.yieldQuantity);
      DishList(book, line.product, id);
      KeptIds(list, impact.removed);
      KeptTotal(list, impact.removed, id);
      ScaledTotal(Kept(list, impact.removed), factor, id);
      TotalOfSum(Scaled(Kept(list, impact.removed), factor), Scaled(impact.added, factor), id);
    } else {
      TotalAbsent([], id);
    }
  }

  lemma ExplodedYields(book: Recipes.Book, product: nat)
    requires product in book && Exploded(book, product).Some?
    ensures book[product].yieldQuantity > 0
  {
  }

  lemma {:induction false} LinesTotal(book: Recipes.Book, lines: seq<Line>, impacts: seq<Impact>, id: nat)
    requires |lines| == |impacts| && RawItems(Kitchen(book), lines, impacts).Ok?
    ensures Total(RawItems(Kitchen(book), lines, impacts).value, id) == OrderTaken(book, lines, impacts, id)
  {
    hide LineItems, LineTaken, Kitchen;
    if lines != [] {
      var n := |lines| - 1;
      LinesTotal(book, lines[..n], impacts[..n], id);
      LineTotal(book, lines[n], impacts[n], id);
      TotalOfSum(RawItems(Kitchen(book), lines[..n], impacts[..n]).value,
                 LineItems(Kitchen(book), lines[n], impacts[n]).value, id);
      hide Total;
    }
  }

  /** An applied order takes, for each line, the amounts per unit of recipe and modifiers times the quantity divided
      once more by the yield. */
  lemma OrderTakes(s: State, e: Event, book: Recipes.Book, resolver: Option<Resolver>, a: Aggregate)
    requires Apply(s, e, Kitchen(book), resolver).Applied?
    ensures Sum(Apply(s, e, Kitchen(book), resolver).state.ledger, a)
         == Sum(s.ledger, a)
            - if InWarehouse(a, e) then OrderTaken(book, e.lines, Impacts(e, Kitchen(book), resolver), a.ingredient) else 0
  {
    AppliedTakesRequirements(s, e, Kitchen(book), resolver, a);
    hide Kitchen, HasMovements, HasEvent, TotalsInRange, Aggregated, Deplete, Sum, OrderTaken, Total, Resolve;
    LinesTotal(book, e.lines, Impacts(e, Kitchen(book), resolver), a.ingredient);
    hide RawItems;
  }

  /* When that is the quantity times the amount per unit. */

  /** All dishes the order asks for have this yield. */
  predicate AllYield(book: Recipes.Book, lines: seq<Line>, y: int) {
    forall i | 0 <= i < |lines| ::
      lines[i].quantity > 0 ==> lines[i].product in book && book[lines[i].product].yieldQuantity == y
  }

  ghost predicate TakesNeeds(s: State, e: Event, book: Recipes.Book, resolver: Option<Resolver>) {
    Apply(s, e, Kitchen(book), resolver).Applied? ==>
      forall a | InWarehouse(a, e) ::
        Sum(Apply(s, e, Kitchen(book), resolver).state.ledger, a)
        == Sum(s.ledger, a) - OrderNeeds(book, e.lines, Impacts(e, Kitchen(book), resolver), a.ingredient)
  }

  lemma {:induction false} UnitYieldTakesNeeds(book: Recipes.Book, lines: seq<Line>, impacts: seq<Impact>, id: nat)
    requires |lines| == |impacts| && AllYield(book, lines, F)
    ensures OrderTaken(book, lines, impacts, id) == OrderNeeds(book, lines, impacts, id)
  {
    hide PerUnit, Scaled, Total, Money.MultiplyScale4;
    if lines != [] {
      var n := |lines| - 1;
      UnitYieldTakesNeeds(book, lines[..n], impacts[..n], id);
      Money.RoundDivExact(lines[n].quantity, F);
      hide Money.RoundDiv;
    }
  }

  /** One recipe of yield y that uses y of the only ingredient. */
  function OneDish(y: int): Recipes.Book {
    map[0 := Recipes.Recipe(y, [Recipes.Ingredient(0, y, y)])]
  }

  /** An order for one full yield of it. */
  function OneYield(y: int): Event {
    Event(0, 0, 0, [Line(0, y, [])])
  }

  /** What exploding it gives: 1.0000 per unit. */
  function OneUnit(): Recipes.Acc {
    Recipes.Acc([0], map[0 := Recipes.Amount(F, F)])
  }

  lemma OneDishEffective(y: int)
    requires y > 0
    ensures Recipes.Effective(F, y, y) == F
  {
    Money.RoundDivExact(y, F);
    Money.RoundDivExact(F, y);
    assert y * F == F * y;
    hide Money.RoundDiv;
  }

  lemma OneItemExplodes(book: Recipes.Book, y: int)
    requires y > 0
    ensures Recipes.ExplodeItem(book, y, Recipes.Ingredient(0, y, y), F, [0], Recipes.EMPTY) == Ok(OneUnit())
  {
    OneDishEffective(y);
    hide Recipes.Effective;
    var added := Recipes.Add(Recipes.EMPTY, 0, Recipes.Amount(F, F));
    assert added.keys == [0] && added.amounts == map[0 := Recipes.Amount(F, F)];
  }

  lemma OneDishExplodes(y: int)
    requires y > 0
    ensures Recipes.ExplodeRecipe(OneDish(y), 0, F, [0], Recipes.EMPTY) == Ok(OneUnit())
  {
    var book, item := OneDish(y), Recipes.Ingredient(0, y, y);
    OneItemExplodes(book, y);
    hide Recipes.ExplodeItem, OneUnit;
    assert book[0].items == [item] && [item][..0] == [];
    assert Recipes.ExplodeItems(book, y, [], F, [0], Recipes.EMPTY) == Ok(Recipes.EMPTY);
    assert Recipes.ExplodeItems(book, y, [item], F, [0], Recipes.EMPTY) == Ok(OneUnit());
    hide Recipes.ExplodeItems;
  }

  lemma OneUnitListed()
    ensures RecipeOrder.Listed(OneUnit()) == [(0, Recipes.Amount(F, F))]
    ensures RecipeOrder.AllInRange(RecipeOrder.Listed(OneUnit()))
    ensures Grosses(RecipeOrder.Listed(OneUnit())) == [(0, F)]
  {
    assert Sort(Ascending, [0]) == [0];
    hide Sort;
  }

  lemma OneDishIsOne(y: int)
    requires y > 0
    ensures Exploded(OneDish(y), 0) == Some([(0, F)])
    ensures PerUnit(OneDish(y), 0, 0) == F
  {
    OneDishExplodes(y);
    OneUnitListed();
    hide Recipes.ExplodeRecipe, OneUnit, RecipeOrder.Listed, RecipeOrder.AllInRange, Grosses, PerUnit;
    assert Exploded(OneDish(y), 0) == Some([(0, F)]);
    hide Exploded;
    DishList(OneDish(y), 0, 0);
    assert Total([(0, F)], 0) == F;
  }

  lemma OneYieldItems(y: int)
    requires y > 0
    ensures LineItems(Kitchen(OneDish(y)), Line(0, y, []), NO_IMPACT) == Ok([(0, F)])
  {
    OneDishIsOne(y);
    Money.RoundDivExact(F, y);
    Money.RoundDivExact(F, F);
    assert y * F == F * y;
    hide Money.RoundDiv, Exploded;
    assert Kept([], {}) == [];
    assert [(0, F)][..0] == [];
    assert Kept([(0, F)], {}) == [(0, F)];
    assert Scaled([], F) == [];
    assert Scaled([(0, F)], F) == [(0, F)];
    hide Kept, Scaled;
    assert Kitchen(OneDish(y))(0) == Some(Dish(y, Some([(0, F)])));
    assert Money.RoundDiv(y * F, y) == F;
    assert NO_IMPACT.added == [] && [(0, F)] + [] == [(0, F)];
  }

  lemma OneYieldRaw(y: int)
    requires y > 0
    ensures RawItems(Kitchen(OneDish(y)), [Line(0, y, [])], [NO_IMPACT]) == Ok([(0, F)])
  {
    OneYieldItems(y);
    hide Kitchen, LineItems;
    var menu, lines, impacts := Kitchen(OneDish(y)), [Line(0, y, [])], [NO_IMPACT];
    assert lines[..0] == [] && impacts[..0] == [];
    assert RawItems(menu, [], []) == Ok([]);
    assert [] + [(0, F)] == [(0, F)];
  }

  lemma OneItem()
    ensures Aggregated([(0, F)]) == [(0, F)] && TotalsInRange([(0, F)])
  {
    var raw: seq<(nat, int)> := [(0, F)];
    assert raw[..0] == [] && raw[..1] == raw;
    assert Ids(raw) == [0];
    assert Sort(Ascending, [0]) == [0];
    hide Sort;
    assert Total(raw, 0) == F;
    assert TotalInRangeAt(raw, 0);
  }

  lemma OneItemDepletes(e: Event)
    ensures Deplete([], e, [(0, F)]).Ok?
  {
    var totals: seq<(nat, int)> := [(0, F)];
    assert totals[..0] == [];
    assert Deplete([], e, []) == Ok([]);
    EmptyBalance(Aggregate(e.branch, e.warehouse, 0), e.order);
    hide NextRow;
  }

  lemma EmptyBalance(a: Aggregate, order: nat)
    ensures NextRow([], a, ConsumoKds, order, -F).balanceAfter == -F
  {
  }

  lemma OneYieldApplies(y: int)
    requires y > 0
    ensures Apply(EMPTY, OneYield(y), Kitchen(OneDish(y)), None).Applied?
  {
    OneYieldRaw(y);
    OneItem();
    OneItemDepletes(OneYield(y));
    hide Kitchen, RawItems, Aggregated, TotalsInRange, Deplete;
    assert Resolve(OneYield(y), Kitchen(OneDish(y)), None).impacts == [NO_IMPACT];
  }

  /** One full yield takes the amount per unit, 1.0000, not the y the recipe uses. */
  lemma OneYieldTakesOneUnit(y: int)
    requires y > 0
    ensures var r := Apply(EMPTY, OneYield(y), Kitchen(OneDish(y)), None);
            r.Applied? && Sum(r.state.ledger, Aggregate(0, 0, 0)) == -F
    ensures OrderNeeds(OneDish(y), OneYield(y).lines, [NO_IMPACT], 0) == y
    ensures Impacts(OneYield(y), Kitchen(OneDish(y)), None) == [NO_IMPACT]
  {
    OneYieldApplies(y);
    OneYieldAmounts(y);
    hide Apply, Kitchen, OrderTaken, OrderNeeds, OneDish;
    assert Impacts(OneYield(y), Kitchen(OneDish(y)), None) == [NO_IMPACT];
    OrderTakes(EMPTY, OneYield(y), OneDish(y), None, Aggregate(0, 0, 0));
  }

  lemma OneYieldAmounts(y: int)
    requires y > 0
    ensures OrderTaken(OneDish(y), OneYield(y).lines, [NO_IMPACT], 0) == F
    ensures OrderNeeds(OneDish(y), OneYield(y).lines, [NO_IMPACT], 0) == y
  {
    OneDishIsOne(y);
    Money.RoundDivExact(F, y);
    Money.RoundDivExact(F, F);
    Money.RoundDivExact(y, F);
    assert y * F == F * y;
    hide Money.RoundDiv, PerUnit;
    assert Total(Scaled(NO_IMPACT.added, F), 0) == 0 && Total(Scaled(NO_IMPACT.added, y), 0) == 0;
    hide Total, Scaled;
    assert OneYield(y).lines[..0] == [] && [NO_IMPACT][..0] == [];
  }

  /** Orders take quantity times the amounts per unit, for every book, every order over dishes of yield y and all
      modifiers, exactly when y is 1.0000. */
  lemma TakenIsPerUnitExactly(y: int)
    requires y > 0
    ensures (forall s: State, e: Event, book, resolver | AllYield(book, e.lines, y) :: TakesNeeds(s, e, book, resolver))
       <==> y == F
  {
    if y == F {
      forall s: State, e: Event, book, resolver | AllYield(book, e.lines, y)
        ensures TakesNeeds(s, e, book, resolver)
      {
        UnitYield(s, e, book, resolver);
      }
    } else {
      OneYieldTakesOneUnit(y);
      assert AllYield(OneDish(y), OneYield(y).lines, y);
      assert InWarehouse(Aggregate(0, 0, 0), OneYield(y));
      hide Apply, Kitchen, OrderNeeds, Sum, OneDish, Impacts;
      assert !TakesNeeds(EMPTY, OneYield(y), OneDish(y), None);
    }
  }

  lemma UnitYield(s: State, e: Event, book: Recipes.Book, resolver: Option<Resolver>)
    requires AllYield(book, e.lines, F)
    ensures TakesNeeds(s, e, book, resolver)
  {
    hide Apply, Kitchen, OrderNeeds, OrderTaken, Sum, AllYield, Impacts;
    if Apply(s, e, Kitchen(book), resolver).Applied? {
      forall a | InWarehouse(a, e)
        ensures Sum(Apply(s, e, Kitchen(book), resolver).state.ledger, a)
             == Sum(s.ledger, a) - OrderNeeds(book, e.lines, Impacts(e, Kitchen(book), resolver), a.ingredient)
      {
        OrderTakes(s, e, book, resolver, a);
        UnitYieldTakesNeeds(book, e.lines, Impacts(e, Kitchen(book), resolver), a.ingredient);
      }
    }
  }
}
