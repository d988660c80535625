/** The inventory service, loop by loop. A transaction works on copies that are committed as a whole. */
module DepletionService {
  import opened Results
  import opened Ordering
  import opened StockLedger
  import opened Depletion
  import opened DepletionRuns
  import opened DepletionExact
  import Money

  /* Errors stop the loops at the first failing element. */

  lemma {:induction false} ResolveStops(menu: Menu, resolve: Resolver, lines: seq<Line>, n: nat)
    requires n <= |lines| && !ResolveLines(menu, resolve, lines[..n]).Resolved?
    ensures ResolveLines(menu, resolve, lines) == ResolveLines(menu, resolve, lines[..n])
  {
    hide ResolveLine;
    if n == |lines| {
      assert lines[..n] == lines;
    } else {
      assert lines[..|lines| - 1][..n] == lines[..n];
      ResolveStops(menu, resolve, lines[..|lines| - 1], n);
    }
  }

  lemma {:induction false} RawStops(menu: Menu, lines: seq<Line>, impacts: seq<Impact>, n: nat)
    requires n <= |lines| == |impacts| && RawItems(menu, lines[..n], impacts[..n]).Err?
    ensures RawItems(menu, lines, impacts) == RawItems(menu, lines[..n], impacts[..n])
  {
    hide LineItems;
    if n == |lines| {
      assert lines[..n] == lines && impacts[..n] == impacts;
    } else {
      var k := |lines| - 1;
      assert lines[..k][..n] == lines[..n] && impacts[..k][..n] == impacts[..n];
      RawStops(menu, lines[..k], impacts[..k], n);
    }
  }

  lemma {:induction false} DepleteStops(ledger: Ledger, e: Event, totals: seq<(nat, int)>, n: nat)
    requires n <= |totals| && Deplete(ledger, e, totals[..n]).Err?
    ensures Deplete(ledger, e, totals) == Deplete(ledger, e, totals[..n])
  {
    if n == |totals| {
      assert totals[..n] == totals;
    } else {
      assert totals[..|totals| - 1][..n] == totals[..n];
      DepleteStops(ledger, e, totals[..|totals| - 1], n);
    }
  }

  lemma {:induction false} ImpactStops(resolve: Resolver, product: nat, modifiers: seq<nat>, n: nat)
    requires n <= |modifiers| && LineImpact(resolve, product, modifiers[..n]).None?
    ensures LineImpact(resolve, product, modifiers).None?
  {
    if n == |modifiers| {
      assert modifiers[..n] == modifiers;
    } else {
      assert modifiers[..|modifiers| - 1][..n] == modifiers[..n];
      ImpactStops(resolve, product, modifiers[..|modifiers| - 1], n);
    }
  }

  /** The inner loop over the modifiers of one line. */
  method ResolveModifiers(resolve: Resolver, product: nat, modifiers: seq<nat>) returns (result: Option<Impact>)
    ensures result == LineImpact(resolve, product, modifiers)
  {
    var removed: set<nat>, added: seq<(nat, int)> := {}, [];
    for i := 0 to |modifiers|
      invariant LineImpact(resolve, product, modifiers[..i]) == Some(Impact(removed, added))
    {
      assert modifiers[..i + 1][..i] == modifiers[..i];
      var impact := resolve(product, modifiers[i]);
      if impact.None? {
        ImpactStops(resolve, product, modifiers, i + 1);
        return None;
      }
      removed := removed + impact.value.removed;
      added := added + impact.value.added;
    }
    assert modifiers[..|modifiers|] == modifiers;
    return Some(Impact(removed, added));
  }

  /** Resolves every modifier before anything is written. */
  method ResolveAll(menu: Menu, resolve: Resolver, lines: seq<Line>) returns (result: Resolution)
    ensures result == ResolveLines(menu, resolve, lines)
  {
    hide LineImpact;
    var impacts: seq<Impact> := [];
    for i := 0 to |lines|
      invariant ResolveLines(menu, resolve, lines[..i]) == Resolved(impacts)
    {
      assert lines[..i + 1][..i] == lines[..i];
      var line := lines[i];
      if line.modifiers == [] {
        impacts := impacts + [NO_IMPACT];
      } else {
        if menu(line.product).None? {
          ResolveStops(menu, resolve, lines, i + 1);
          return NoRecipe;
        }
        var impact := ResolveModifiers(resolve, line.product, line.modifiers);
        if impact.None? {
          ResolveStops(menu, resolve, lines, i + 1);
          return Unresolved;
        }
        impacts := impacts + [impact.value];
      }
    }
    assert lines[..|lines|] == lines;
    return Resolved(impacts);
  }

  lemma ScaledNext(items: seq<(nat, int)>, item: (nat, int), factor: int)
    ensures Scaled(items + [item], factor)
         == Scaled(items, factor) + [(item.0, Money.RoundDiv(item.1 * factor, Money.SCALE_FACTOR))]
  {
    hide Money.RoundDiv;
    assert (items + [item])[..|items|] == items;
  }

  lemma KeptNext(items: seq<(nat, int)>, item: (nat, int), removed: set<nat>)
    ensures Kept(items + [item], removed) == if item.0 in removed then Kept(items, removed) else Kept(items, removed) + [item]
  {
    assert (items + [item])[..|items|] == items;
  }

  /** The ingredients of one line: the exploded ones that were not removed, then the added ones. */
  method CollectLine(exploded: seq<(nat, int)>, impact: Impact, factor: int) returns (items: seq<(nat, int)>)
    ensures items == Scaled(Kept(exploded, impact.removed), factor) + Scaled(impact.added, factor)
  {
    hide Money.RoundDiv, Kept, Scaled;
    items := [];
    assert Scaled(Kept([], impact.removed), factor) == [] by { EmptyLists(impact.removed, factor); }
    for i := 0 to |exploded|
      invariant items == Scaled(Kept(exploded[..i], impact.removed), factor)
    {
      assert exploded[..i + 1] == exploded[..i] + [exploded[i]];
      KeptNext(exploded[..i], exploded[i], impact.removed);
      if exploded[i].0 in impact.removed {
        continue;
      }
      ScaledNext(Kept(exploded[..i], impact.removed), exploded[i], factor);
      items := items + [(exploded[i].0, Money.RoundDiv(exploded[i].1 * factor, Money.SCALE_FACTOR))];
    }
    assert exploded[..|exploded|] == exploded;
    ghost var kept := items;
    EmptyLists(impact.removed, factor);
    for i := 0 to |impact.added|
      invariant items == kept + Scaled(impact.added[..i], factor)
    {
      assert impact.added[..i + 1] == impact.added[..i] + [impact.added[i]];
      ScaledNext(impact.added[..i], impact.added[i], factor);
      items := items + [(impact.added[i].0, Money.RoundDiv(impact.added[i].1 * factor, Money.SCALE_FACTOR))];
    }
    assert impact.added[..|impact.added|] == impact.added;
  }

  lemma EmptyLists(removed: set<nat>, factor: int)
    ensures Kept([], removed) == [] && Scaled([], factor) == []
  {
  }

  method CollectIngredients(menu: Menu, lines: seq<Line>, impacts: seq<Impact>)
    returns (result: Result<seq<(nat, int)>, Error>)
    requires |lines| == |impacts|
    ensures result == RawItems(menu, lines, impacts)
  {
    hide Money.RoundDiv, Kept, Scaled;
    var raw: seq<(nat, int)> := [];
    for i := 0 to |lines|
      invariant RawItems(menu, lines[..i], impacts[..i]) == Ok(raw)
    {
      assert lines[..i + 1][..i] == lines[..i] && impacts[..i + 1][..i] == impacts[..i];
      var line := lines[i];
      if line.quantity <= 0 {
        assert raw + [] == raw;
        continue;
      }
      if RawItems(menu, lines[..i + 1], impacts[..i + 1]).Err? {
        RawStops(menu, lines, impacts, i + 1);
      }
      var recipe := menu(line.product);
      if recipe.None? {
        return Err(RecipeNotFound);
      }
      if recipe.value.yieldQuantity == 0 {
        return Err(RangeError);
      }
      var itemScaleFactor := Money.RoundDiv(line.quantity * Money.SCALE_FACTOR, recipe.value.yieldQuantity);
      if recipe.value.exploded.None? {
        return Err(RecipeInvalid);
      }
      var more := CollectLine(recipe.value.exploded.value, impacts[i], itemScaleFactor);
      raw := raw + more;
    }
    assert lines[..|lines|] == lines && impacts[..|impacts|] == impacts;
    return Ok(raw);
  }

  lemma TotalNext(items: seq<(nat, int)>, item: (nat, int), id: nat)
    ensures Total(items + [item], id) == Total(items, id) + if item.0 == id then item.1 else 0
  {
    assert (items + [item])[..|items|] == items;
  }

  lemma IdsNext(items: seq<(nat, int)>, item: (nat, int))
    ensures Ids(items + [item]) == if item.0 in Ids(items) then Ids(items) else Ids(items) + [item.0]
  {
    assert (items + [item])[..|items|] == items;
  }

  /** The map holds, for the ids seen so far, their totals so far. */
  ghost predicate SummedUp(items: seq<(nat, int)>, totals: map<nat, int>, keys: seq<nat>) {
    && keys == Ids(items) && (forall id :: id in totals <==> id in keys)
    && (forall id :: (if id in totals then totals[id] else 0) == Total(items, id))
  }

  lemma SummedUpNext(items: seq<(nat, int)>, item: (nat, int), totals: map<nat, int>, keys: seq<nat>)
    requires SummedUp(items, totals, keys)
    ensures var sum := (if item.0 in totals then totals[item.0] else 0) + item.1;
            && sum == Total(items + [item], item.0)
            && SummedUp(items + [item], totals[item.0 := sum], if item.0 in totals then keys else keys + [item.0])
  {
    IdsNext(items, item);
    hide Total, Ids;
    forall id
      ensures Total(items + [item], id) == Total(items, id) + if item.0 == id then item.1 else 0
    {
      TotalNext(items, item, id);
    }
  }

  /** The summing loop. */
  method SumByIngredient(items: seq<(nat, int)>) returns (result: Result<(map<nat, int>, seq<nat>), Error>)
    ensures result.Ok? <==> TotalsInRange(items)
    ensures result.Ok? ==> SummedUp(items, result.value.0, result.value.1)
    ensures result.Err? ==> result.error == RangeError
  {
    var totals: map<nat, int>, keys: seq<nat> := map[], [];
    assert SummedUp([], totals, keys) && TotalsInRange([]);
    hide SummedUp, Total, TotalsInRange, Money.InRange;
    for i := 0 to |items|
      invariant SummedUp(items[..i], totals, keys)
      invariant TotalsInRange(items[..i])
    {
      var item := items[i];
      assert items[..i + 1] == items[..i] + [item];
      SummedUpNext(items[..i], item, totals, keys);
      InRangeNext(items[..i], item);
      var sum := (if item.0 in totals then totals[item.0] else 0) + item.1;
      if !Money.InRange(sum) {
        InRangeBefore(items, i + 1);
        return Err(RangeError);
      }
      keys := if item.0 in totals then keys else keys + [item.0];
      totals := totals[item.0 := sum];
    }
    assert items[..|items|] == items;
    return Ok((totals, keys));
  }

  lemma InRangeNext(items: seq<(nat, int)>, item: (nat, int))
    ensures TotalsInRange(items + [item]) <==> TotalsInRange(items) && Money.InRange(Total(items + [item], item.0))
  {
    hide Total, Money.InRange;
    var after := items + [item];
    assert after[..|items| + 1] == after;
    forall n | 0 <= n < |items|
      ensures TotalInRangeAt(after, n) == TotalInRangeAt(items, n)
    {
      assert after[..n + 1] == items[..n + 1];
    }
    assert TotalInRangeAt(after, |items|) == Money.InRange(Total(after, item.0));
    hide TotalInRangeAt;
  }

  lemma InRangeBefore(items: seq<(nat, int)>, k: nat)
    requires k <= |items| && !TotalsInRange(items[..k])
    ensures !TotalsInRange(items)
  {
    hide Total, Money.InRange;
    var n :| 0 <= n < k && !TotalInRangeAt(items[..k], n);
    assert items[..k][..n + 1] == items[..n + 1];
    assert !TotalInRangeAt(items, n);
  }

  /** `aggregateIngredientQuantities`: sum into a map, then list its keys in ascending order. */
  method AggregateIngredientQuantities(items: seq<(nat, int)>) returns (result: Result<seq<(nat, int)>, Error>)
    ensures result == if TotalsInRange(items) then Ok(Aggregated(items)) else Err(RangeError)
  {
    hide TotalsInRange, Total, Ids, Sort;
    var summed :- SumByIngredient(items);
    var (totals, keys) := summed;
    KeysStay(keys);
    var sortedIds := Sort(Ascending, keys);
    var list := seq(|sortedIds|, i requires 0 <= i < |sortedIds| && sortedIds[i] in totals => (sortedIds[i], totals[sortedIds[i]]));
    assert list == Aggregated(items);
    return Ok(list);
  }

  lemma KeysStay(keys: seq<nat>)
    ensures forall id :: id in Sort(Ascending, keys) ==> id in keys
  {
    SortKeeps(Ascending, keys);
    forall id | id in Sort(Ascending, keys)
      ensures id in keys
    {
      SameMembers(Sort(Ascending, keys), keys, id);
    }
  }

  /** The loop that locks each aggregate and inserts its movement. */
  method InsertMovements(ledger: Ledger, e: Event, totals: seq<(nat, int)>) returns (result: Result<Ledger, Error>)
    ensures result == Deplete(ledger, e, totals)
  {
    hide Sum, MaxSequence, Money.InRange;
    var rows := ledger;
    for i := 0 to |totals|
      invariant Deplete(ledger, e, totals[..i]) == Ok(rows)
    {
      assert totals[..i + 1][..i] == totals[..i];
      var (ingredient, total) := totals[i];
      if total == 0 {
        continue;
      }
      var aggregate := Aggregate(e.branch, e.warehouse, ingredient);
      var priorBalance := Sum(rows, aggregate);
      var nextSequence := MaxSequence(rows, aggregate) + 1;
      var balanceAfter := priorBalance + -total;
      if !Money.InRange(-total) || !Money.InRange(balanceAfter) {
        DepleteStops(ledger, e, totals, i + 1);
        return Err(RangeError);
      }
      rows := rows + [Row(aggregate, ConsumoKds, e.order, -total, balanceAfter, nextSequence)];
    }
    assert totals[..|totals|] == totals;
    return Ok(rows);
  }

  method FindMovement(ledger: Ledger, branch: nat, warehouse: nat, order: nat) returns (found: bool)
    ensures found == HasMovements(ledger, branch, warehouse, order)
  {
    for i := 0 to |ledger|
      invariant forall k | 0 <= k < i :: !OfOrder(ledger[k], branch, warehouse, order)
    {
      if OfOrder(ledger[i], branch, warehouse, order) {
        return true;
      }
    }
    return false;
  }

  method FindEvent(outbox: seq<OutboxRow>, branch: nat, order: nat) returns (found: bool)
    ensures found == HasEvent(outbox, branch, order)
  {
    for i := 0 to |outbox|
      invariant forall k | 0 <= k < i :: !(outbox[k].branch == branch && outbox[k].order == order)
    {
      if outbox[i].branch == branch && outbox[i].order == order {
        return true;
      }
    }
    return false;
  }

  method AnyModifiers(lines: seq<Line>) returns (found: bool)
    ensures found == HasModifiers(lines)
  {
    for i := 0 to |lines|
      invariant forall k | 0 <= k < i :: lines[k].modifiers == []
    {
      if lines[i].modifiers != [] {
        return true;
      }
    }
    return false;
  }

  /** From resolved modifiers to movements and one outbox event. */
  method ConsumeOrder(s: State, e: Event, menu: Menu, impacts: seq<Impact>) returns (result: Outcome)
    requires |impacts| == |e.lines|
    ensures result == Consume(s, e, menu, impacts)
  {
    hide RawItems, TotalsInRange, Aggregated, Deplete;
    var raw := CollectIngredients(menu, e.lines, impacts);
    if raw.Err? {
      return Failed(raw.error);
    }
    var totals := AggregateIngredientQuantities(raw.value);
    if totals.Err? {
      return Failed(totals.error);
    }
    var ledger := InsertMovements(s.ledger, e, totals.value);
    if ledger.Err? {
      return Failed(ledger.error);
    }
    var event := OutboxRow(e.branch, e.order, e.warehouse, ledger.value[|s.ledger|..]);
    return Applied(s.(ledger := ledger.value, outbox := s.outbox + [event]));
  }

  /** The body run under the source-event lock. */
  method ApplyLocked(s: State, e: Event, menu: Menu, resolver: Option<Resolver>) returns (result: Outcome)
    ensures result == Apply(s, e, menu, resolver)
  {
    hide HasMovements, HasEvent, HasModifiers, ResolveLines, Consume;
    var moved := FindMovement(s.ledger, e.branch, e.warehouse, e.order);
    if moved {
      var sent := FindEvent(s.outbox, e.branch, e.order);
      return if sent then Duplicate else Failed(IntegrityError);
    }
    var hasModifiers := AnyModifiers(e.lines);
    if hasModifiers && resolver.None? {
      return Quarantine(s, e);
    }
    var impacts: seq<Impact>;
    if resolver.Some? {
      var resolution := ResolveAll(menu, resolver.value, e.lines);
      match resolution {
        case Unresolved => return Quarantine(s, e);
        case NoRecipe => return Failed(RecipeNotFound);
        case Resolved(all) => impacts := all;
      }
    } else {
      impacts := seq(|e.lines|, _ => NO_IMPACT);
    }
    result := ConsumeOrder(s, e, menu, impacts);
  }

  class InventoryService {
    var ledger: Ledger
    var wastes: map<nat, nat>
    var quarantine: map<(nat, nat), Held>
    var outbox: seq<OutboxRow>

    function View(): State
      reads this
    {
      State(ledger, wastes, quarantine, outbox)
    }

    constructor ()
      ensures View() == EMPTY
    {
      ledger, wastes, quarantine, outbox := [], map[], map[], [];
    }

    method Commit(s: State)
      modifies this
      ensures View() == s
    {
      ledger, wastes, quarantine, outbox := s.ledger, s.wastes, s.quarantine, s.outbox;
    }

    method OnKdsOrderProduced(e: Event, menu: Menu, resolver: Option<Resolver>) returns (result: Outcome)
      requires Inv(View())
      modifies this
      ensures Inv(View()) && View() == Next(old(View()), Deliver(e, menu, resolver))
      ensures result == Apply(old(View()), e, menu, resolver) && result != Failed(IntegrityError)
      ensures result.Applied? <==> MayApply(old(View()), e, menu, resolver)
      ensures result == Duplicate <==> HasMovements(old(ledger), e.branch, e.warehouse, e.order)
      ensures result == Duplicate || result.Failed? ==> View() == old(View())
    {
      ApplyKeepsInv(View(), e, menu, resolver);
      AppliedExactly(View(), e, menu, resolver);
      DuplicateExactly(View(), e, menu, resolver);
      hide Apply, Inv, MayApply, HasMovements;
      result := ApplyLocked(View(), e, menu, resolver);
      if result.Quarantined? || result.Applied? {
        Commit(result.state);
      }
    }

    method ReplayQuarantinedDepletion(id: (nat, nat), menu: Menu, resolve: Resolver) returns (error: Option<Error>)
      requires Inv(View())
      modifies this
      ensures Inv(View()) && View() == Next(old(View()), ReplayHeld(id, menu, resolve))
      ensures error.None? <==> Replay(old(View()), id, menu, resolve).Ok?
      ensures error == Some(QuarantineNotFound) <==> id !in old(quarantine)
      ensures error.Some? ==> View() == old(View())
      ensures error.None? ==>
                var e := old(quarantine)[id].event;
                && id in quarantine && quarantine[id].event == e
                && (quarantine[id].status == Replayed <==>
                      HasMovements(old(ledger), e.branch, e.warehouse, e.order) || OrderResolves(e, menu, Some(resolve)))
    {
      ReplayKeepsInv(View(), id, menu, resolve);
      ReplayExactly(View(), id, menu, resolve);
      hide Apply, Inv, HasMovements, OrderResolves;
      if id !in quarantine {
        return Some(QuarantineNotFound);
      }
      var held := quarantine[id];
      var result := ApplyLocked(View(), held.event, menu, Some(resolve));
      match result {
        case Failed(e) =>
          return Some(e);
        case Quarantined(s) =>
          Commit(s);
        case Duplicate =>
          quarantine := quarantine[id := held.(status := Replayed)];
        case Applied(s) =>
          Commit(s);
          quarantine := quarantine[id := held.(status := Replayed)];
      }
      return None;
    }

    method RegisterWaste(c: WasteCommand) returns (result: Result<Row, Error>)
      requires Inv(View())
      modifies this
      ensures Inv(View()) && View() == Next(old(View()), Step.RegisterWaste(c))
      ensures match Waste(old(View()), c) case Ok(r) => result == Ok(r.1) case Err(e) => result == Err(e)
      ensures c.quantity > 0 && c.id in old(wastes) ==> View() == old(View()) && result == Ok(ledger[wastes[c.id]])
      ensures c.id !in old(wastes) ==> (result.Ok? <==> WasteFits(old(View()), c))
      ensures c.id !in old(wastes) && result.Ok? ==> WasteDone(old(View()), View(), c, result.value)
      ensures result.Err? ==> View() == old(View()) && result.error == if c.quantity <= 0 then InvalidWaste else RangeError
    {
      WasteKeepsInv(View(), c);
      WasteRecorded(View(), c);
      if c.id !in wastes {
        FreshWasteExactly(View(), c, c.aggregate);
      }
      hide Inv, Sum, MaxSequence, Money.InRange, WasteFits, WasteDone;
      if c.quantity <= 0 {
        return Err(InvalidWaste);
      }
      if c.id in wastes {
        return Ok(ledger[wastes[c.id]]);
      }
      var priorBalance := Sum(ledger, c.aggregate);
      var nextSequence := MaxSequence(ledger, c.aggregate) + 1;
      var balanceAfter := priorBalance + -c.quantity;
      if !Money.InRange(-c.quantity) || !Money.InRange(balanceAfter) {
        return Err(RangeError);
      }
      var row := Row(c.aggregate, Merma, c.id, -c.quantity, balanceAfter, nextSequence);
      wastes := wastes[c.id := |ledger|];
      ledger := ledger + [row];
      return Ok(row);
    }
  }

  /** A recorded waste command always finds its movement again. */
  lemma WasteRecorded(s: State, c: WasteCommand)
    requires Inv(s)
    ensures c.id in s.wastes ==> s.wastes[c.id] < |s.ledger| && s.ledger[s.wastes[c.id]].kind == Merma
                                 && s.ledger[s.wastes[c.id]].reference == c.id
  {
  }
}
