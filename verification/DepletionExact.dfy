/** When depletion, replay and waste go through, and what each leaves behind. */
module DepletionExact {
  import opened Results
  import opened StockLedger
  import opened Depletion
  import opened DepletionRuns
  import opened DepletionEffect
  import Money

  /** The amounts DECIMAL(12,4) holds. */
  predicate Storable(x: int) {
    -999_999_999_999 <= x <= 999_999_999_999
  }

  /* Waste. */

  predicate WasteFits(s: State, c: WasteCommand) {
    c.quantity > 0 && Storable(c.quantity) && Storable(Sum(s.ledger, c.aggregate) - c.quantity)
  }

  /** One movement more: the wasted quantity leaves the aggregate. */
  predicate WasteDone(s: State, s': State, c: WasteCommand, row: Row) {
    && s' == s.(ledger := s.ledger + [row], wastes := s.wastes[c.id := |s.ledger|])
    && row.aggregate == c.aggregate && row.kind == Merma && row.reference == c.id
    && row.delta == -c.quantity && row.balanceAfter == Sum(s.ledger, c.aggregate) - c.quantity
  }

  /** A waste under a new id goes through exactly when its quantity is positive and quantity and new balance fit; then
      the stock of its aggregate falls by the quantity and no other stock changes. */
  lemma FreshWasteExactly(s: State, c: WasteCommand, a: Aggregate)
    requires c.id !in s.wastes
    ensures Waste(s, c).Ok? <==> WasteFits(s, c)
    ensures Waste(s, c) == Err(InvalidWaste) <==> c.quantity <= 0
    ensures Waste(s, c) == Err(RangeError) <==> c.quantity > 0 && !WasteFits(s, c)
    ensures Waste(s, c).Ok? ==>
              var (s', row) := Waste(s, c).value;
              && WasteDone(s, s', c, row)
              && Sum(s'.ledger, a) == Sum(s.ledger, a) - if a == c.aggregate then c.quantity else 0
  {
    var row := NextRow(s.ledger, c.aggregate, Merma, c.id, -c.quantity);
    SumNext(s.ledger, row, a);
    hide Sum, MaxSequence;
  }

  /** In every run, a repeated waste command changes nothing and finds the movement of the first. */
  lemma RepeatedWasteChangesNothing(steps: seq<Step>, c: WasteCommand, more: seq<Step>, again: WasteCommand)
    requires var s := Run(EMPTY, steps); Waste(s, c).Ok? && c.id !in s.wastes
    requires again.id == c.id && again.quantity > 0
    ensures var s := Run(Next(Run(EMPTY, steps), RegisterWaste(c)), more);
            Waste(s, again) == Ok((s, Waste(Run(EMPTY, steps), c).value.1))
  {
    var s := Run(EMPTY, steps);
    EveryRunKeepsInv(steps);
    NextKeepsInv(s, RegisterWaste(c));
    var s' := Next(s, RegisterWaste(c));
    RunKeepsInv(s', more);
    FreshWasteExactly(s, c, c.aggregate);
    hide Run, Inv, NextRow, Sum, Money.InRange;
    assert s'.ledger[|s.ledger|] == Waste(s, c).value.1;
  }

  /* Modifiers. */

  predicate RemovedBySome(resolve: Resolver, product: nat, modifiers: seq<nat>, x: nat) {
    exists i :: 0 <= i < |modifiers| && resolve(product, modifiers[i]).Some?
                && x in resolve(product, modifiers[i]).value.removed
  }

  function AddedByAll(resolve: Resolver, product: nat, modifiers: seq<nat>, x: nat): int {
    if modifiers == [] then 0 else
      AddedByAll(resolve, product, modifiers[..|modifiers| - 1], x)
      + match resolve(product, modifiers[|modifiers| - 1]) case None => 0 case Some(impact) => Total(impact.added, x)
  }

  /** The modifiers of a line together remove what any of them removes and add what all of them add. */
  lemma {:induction false} ImpactCombines(resolve: Resolver, product: nat, modifiers: seq<nat>, x: nat)
    requires LineImpact(resolve, product, modifiers).Some?
    ensures var impact := LineImpact(resolve, product, modifiers).value;
            && (x in impact.removed <==> RemovedBySome(resolve, product, modifiers, x))
            && Total(impact.added, x) == AddedByAll(resolve, product, modifiers, x)
  {
    if modifiers != [] {
      var n := |modifiers| - 1;
      ImpactCombines(resolve, product, modifiers[..n], x);
      RemovedNext(resolve, product, modifiers, x);
      hide RemovedBySome, Total;
      TotalOfSum(LineImpact(resolve, product, modifiers[..n]).value.added, resolve(product, modifiers[n]).value.added, x);
    }
  }

  lemma RemovedNext(resolve: Resolver, product: nat, modifiers: seq<nat>, x: nat)
    requires modifiers != []
    ensures var n := |modifiers| - 1; var last := resolve(product, modifiers[n]);
            RemovedBySome(resolve, product, modifiers, x) <==>
              RemovedBySome(resolve, product, modifiers[..n], x) || (last.Some? && x in last.value.removed)
  {
    var n := |modifiers| - 1;
    var front := modifiers[..n];
    if i :| 0 <= i < n && resolve(product, front[i]).Some? && x in resolve(product, front[i]).value.removed {
      assert modifiers[i] == front[i];
    }
    if i :| 0 <= i <= n && resolve(product, modifiers[i]).Some? && x in resolve(product, modifiers[i]).value.removed {
      assert i < n ==> modifiers[i] == front[i];
    }
  }

  /** What the modifiers of one line do. */
  function ImpactOf(resolver: Option<Resolver>, line: Line): Option<Impact> {
    if line.modifiers == [] then Some(NO_IMPACT)
    else if resolver.None? then None
    else LineImpact(resolver.value, line.product, line.modifiers)
  }

  lemma {:induction false} LinesKeepOwnImpact(menu: Menu, resolve: Resolver, lines: seq<Line>)
    requires ResolveLines(menu, resolve, lines).Resolved?
    ensures var impacts := ResolveLines(menu, resolve, lines).impacts;
            forall i | 0 <= i < |lines| :: ImpactOf(Some(resolve), lines[i]) == Some(impacts[i])
  {
    if lines != [] {
      var n := |lines| - 1;
      LinesKeepOwnImpact(menu, resolve, lines[..n]);
      hide LineImpact;
      var one := ResolveLine(menu, resolve, lines[n]);
      assert ImpactOf(Some(resolve), lines[n]) == Some(one.impacts[0]);
      hide ResolveLine, ImpactOf;
      assert lines == lines[..n] + [lines[n]];
    }
  }

  predicate OrderResolves(e: Event, menu: Menu, resolver: Option<Resolver>) {
    if resolver.None? then !HasModifiers(e.lines)
    else forall i | 0 <= i < |e.lines| :: LineResolves(e.lines[i], menu, resolver.value)
  }

  /** An order resolves exactly when each of its lines does, each with the impact of its own modifiers. */
  lemma ResolvesExactly(e: Event, menu: Menu, resolver: Option<Resolver>)
    ensures Resolve(e, menu, resolver).Resolved? <==> OrderResolves(e, menu, resolver)
    ensures var r := Resolve(e, menu, resolver);
            r.Resolved? ==> forall i | 0 <= i < |e.lines| :: ImpactOf(resolver, e.lines[i]) == Some(r.impacts[i])
  {
    if resolver.Some? {
      ResolveExactly(menu, resolver.value, e.lines);
      if ResolveLines(menu, resolver.value, e.lines).Resolved? {
        LinesKeepOwnImpact(menu, resolver.value, e.lines);
      }
      hide LineResolves, ImpactOf, ResolveLines;
    }
  }

  /* Orders. */

  /** Why a line cannot be exploded, if it cannot. */
  predicate LineFails(menu: Menu, line: Line, error: Error) {
    && line.quantity > 0
    && match menu(line.product)
       case None => error == RecipeNotFound
       case Some(dish) =>
         (dish.yieldQuantity == 0 && error == RangeError)
         || (dish.yieldQuantity != 0 && dish.exploded.None? && error == RecipeInvalid)
  }

  /** The line is skipped, or its product has a recipe with a yield and an explosion. */
  predicate LineExplodes(menu: Menu, line: Line) {
    line.quantity > 0 ==>
      && menu(line.product).Some? && menu(line.product).value.yieldQuantity != 0
      && menu(line.product).value.exploded.Some?
  }

  lemma LineItemsExactly(menu: Menu, line: Line, impact: Impact)
    ensures LineItems(menu, line, impact).Ok? <==> LineExplodes(menu, line)
    ensures LineItems(menu, line, impact).Err? ==> LineFails(menu, line, LineItems(menu, line, impact).error)
  {
    hide Scaled, Kept, Money.RoundDiv;
  }

  predicate FailsFirst(menu: Menu, lines: seq<Line>, n: nat, error: Error) {
    n < |lines| && LineFails(menu, lines[n], error) && forall i | 0 <= i < n :: LineExplodes(menu, lines[i])
  }

  /** The list is collected exactly when every line explodes; otherwise the first line that does not says why. */
  lemma {:induction false} RawItemsExactly(menu: Menu, lines: seq<Line>, impacts: seq<Impact>)
    requires |lines| == |impacts|
    ensures RawItems(menu, lines, impacts).Ok? <==> forall i | 0 <= i < |lines| :: LineExplodes(menu, lines[i])
    ensures RawItems(menu, lines, impacts).Err? ==>
              exists n :: FailsFirst(menu, lines, n, RawItems(menu, lines, impacts).error)
  {
    if lines != [] {
      var n := |lines| - 1;
      var r := RawItems(menu, lines[..n], impacts[..n]);
      RawItemsExactly(menu, lines[..n], impacts[..n]);
      LineItemsExactly(menu, lines[n], impacts[n]);
      hide LineItems, LineExplodes, LineFails;
      assert lines == lines[..n] + [lines[n]];
      if r.Err? {
        var k :| FailsFirst(menu, lines[..n], k, r.error);
        assert FailsFirst(menu, lines, k, r.error);
      } else if RawItems(menu, lines, impacts).Err? {
        assert FailsFirst(menu, lines, n, RawItems(menu, lines, impacts).error);
      }
    }
  }

  /** The movement and the balance after it can be stored. */
  predicate Fits(ledger: Ledger, e: Event, id: nat, total: int) {
    total == 0 || (Storable(total) && Storable(Sum(ledger, Aggregate(e.branch, e.warehouse, id)) - total))
  }

  predicate TotalsFit(ledger: Ledger, e: Event, totals: seq<(nat, int)>) {
    forall k | 0 <= k < |totals| :: Fits(ledger, e, totals[k].0, totals[k].1)
  }

  predicate AscendingIds(items: seq<(nat, int)>) {
    forall i, j | 0 <= i < j < |items| :: items[i].0 < items[j].0
  }

  lemma {:induction false} DepleteExactly(ledger: Ledger, e: Event, totals: seq<(nat, int)>)
    requires AscendingIds(totals)
    ensures Deplete(ledger, e, totals).Ok? <==> TotalsFit(ledger, e, totals)
    ensures Deplete(ledger, e, totals).Err? ==> Deplete(ledger, e, totals).error == RangeError
  {
    if totals != [] {
      var n := |totals| - 1;
      assert totals == totals[..n] + [totals[n]];
      assert TotalsFit(ledger, e, totals) <==>
               TotalsFit(ledger, e, totals[..n]) && Fits(ledger, e, totals[n].0, totals[n].1);
      DepleteExactly(ledger, e, totals[..n]);
      hide TotalsFit, AscendingIds;
      if Deplete(ledger, e, totals[..n]).Ok? {
        SumBefore(ledger, e, totals);
        hide Sum, MaxSequence;
      }
    }
  }

  /** The movements before the last are of other ingredients. */
  lemma SumBefore(ledger: Ledger, e: Event, totals: seq<(nat, int)>)
    requires AscendingIds(totals) && totals != [] && Deplete(ledger, e, totals[..|totals| - 1]).Ok?
    ensures var n := |totals| - 1; var a := Aggregate(e.branch, e.warehouse, totals[n].0);
            Sum(Deplete(ledger, e, totals[..n]).value, a) == Sum(ledger, a)
  {
    hide Deplete, Sum;
    var n := |totals| - 1;
    DepleteStock(ledger, e, totals[..n], Aggregate(e.branch, e.warehouse, totals[n].0));
    TotalAbsent(totals[..n], totals[n].0);
  }

  ghost predicate AllFit(ledger: Ledger, e: Event, raw: seq<(nat, int)>) {
    forall id: nat :: Fits(ledger, e, id, Total(raw, id))
  }

  lemma TotalsFitExactly(ledger: Ledger, e: Event, raw: seq<(nat, int)>)
    ensures Deplete(ledger, e, Aggregated(raw)).Ok? <==> AllFit(ledger, e, raw)
    ensures Deplete(ledger, e, Aggregated(raw)).Err? ==> Deplete(ledger, e, Aggregated(raw)).error == RangeError
  {
    AggregatedIsAscending(raw);
    var a := Aggregated(raw);
    hide Aggregated;
    DepleteExactly(ledger, e, a);
    hide Deplete, Fits;
    if Deplete(ledger, e, a).Ok? {
      forall id: nat
        ensures Fits(ledger, e, id, Total(raw, id))
      {
        if forall k | 0 <= k < |raw| :: raw[k].0 != id {
          TotalAbsent(raw, id);
          ZeroFits(ledger, e, id);
        } else {
          var k :| 0 <= k < |raw| && raw[k].0 == id;
          var i :| 0 <= i < |a| && a[i].0 == raw[k].0;
          assert Fits(ledger, e, a[i].0, a[i].1);
        }
      }
    } else {
      var k :| 0 <= k < |a| && !Fits(ledger, e, a[k].0, a[k].1);
      assert !Fits(ledger, e, a[k].0, Total(raw, a[k].0));
    }
  }

  lemma ZeroFits(ledger: Ledger, e: Event, id: nat)
    ensures Fits(ledger, e, id, 0)
  {
  }

  ghost predicate MayApply(s: State, e: Event, menu: Menu, resolver: Option<Resolver>) {
    && !HasMovements(s.ledger, e.branch, e.warehouse, e.order)
    && OrderResolves(e, menu, resolver) && (forall i | 0 <= i < |e.lines| :: LineExplodes(menu, e.lines[i]))
    && TotalsInRange(Requirements(e, menu, resolver)) && AllFit(s.ledger, e, Requirements(e, menu, resolver))
  }

  /** An order is applied exactly when it has no movements yet, its modifiers resolve, its lines explode, and all its
      totals, the running ones included, and the new balances can be stored. */
  lemma AppliedExactly(s: State, e: Event, menu: Menu, resolver: Option<Resolver>)
    ensures Apply(s, e, menu, resolver).Applied? <==> MayApply(s, e, menu, resolver)
  {
    ResolvesExactly(e, menu, resolver);
    hide HasMovements, HasEvent, OrderResolves, LineExplodes, TotalsInRange, AllFit;
    if Resolve(e, menu, resolver).Resolved? {
      var impacts := Resolve(e, menu, resolver).impacts;
      RawItemsExactly(menu, e.lines, impacts);
      TotalsFitExactly(s.ledger, e, Requirements(e, menu, resolver));
      hide Resolve, RawItems, Aggregated, Deplete;
    }
  }

  /** Why an order fails: a modified line without a recipe, the first line that does not explode, or an amount that
      cannot be stored. Nothing else makes it fail while ledger and outbox agree. */
  lemma FailureExplained(s: State, e: Event, menu: Menu, resolver: Option<Resolver>)
    requires Inv(s) && Apply(s, e, menu, resolver).Failed?
    ensures !HasMovements(s.ledger, e.branch, e.warehouse, e.order)
    ensures var error := Apply(s, e, menu, resolver).error;
            || (error == RecipeNotFound && !OrderResolves(e, menu, resolver))
            || (OrderResolves(e, menu, resolver) && exists n :: FailsFirst(menu, e.lines, n, error))
            || (error == RangeError && OrderResolves(e, menu, resolver)
                && (forall i | 0 <= i < |e.lines| :: LineExplodes(menu, e.lines[i]))
                && !(TotalsInRange(Requirements(e, menu, resolver)) && AllFit(s.ledger, e, Requirements(e, menu, resolver))))
  {
    ApplyKeepsInv(s, e, menu, resolver);
    if HasMovements(s.ledger, e.branch, e.warehouse, e.order) {
      MovedHasEvent(s, e);
    }
    ResolvesExactly(e, menu, resolver);
    hide Inv, HasMovements, HasEvent, OrderResolves, LineExplodes, LineFails, TotalsInRange, AllFit;
    if Resolve(e, menu, resolver).Resolved? {
      var impacts := Resolve(e, menu, resolver).impacts;
      RawItemsExactly(menu, e.lines, impacts);
      TotalsFitExactly(s.ledger, e, Requirements(e, menu, resolver));
      hide Resolve, RawItems, Aggregated, Deplete;
    }
  }

  /** A delivery is a duplicate exactly when the order has movements in its warehouse. */
  lemma DuplicateExactly(s: State, e: Event, menu: Menu, resolver: Option<Resolver>)
    requires Inv(s)
    ensures Apply(s, e, menu, resolver) == Duplicate <==> HasMovements(s.ledger, e.branch, e.warehouse, e.order)
  {
    if HasMovements(s.ledger, e.branch, e.warehouse, e.order) {
      MovedHasEvent(s, e);
    }
    hide Inv, HasMovements, HasEvent, Resolve, RawItems, Aggregated, Deplete, TotalsInRange;
  }

  lemma MovedHasEvent(s: State, e: Event)
    requires Inv(s) && HasMovements(s.ledger, e.branch, e.warehouse, e.order)
    ensures HasEvent(s.outbox, e.branch, e.order)
  {
    var i :| 0 <= i < |s.ledger| && OfOrder(s.ledger[i], e.branch, e.warehouse, e.order);
    assert s.ledger[i].kind == ConsumoKds;
  }

  /* What is sent. */

  /** The outbox row of an applied order carries exactly the movements it wrote. */
  lemma AppliedSendsMovements(s: State, e: Event, menu: Menu, resolver: Option<Resolver>)
    requires Apply(s, e, menu, resolver).Applied?
    ensures var s' := Apply(s, e, menu, resolver).state;
            && |s'.outbox| == |s.outbox| + 1 && s'.outbox[..|s.outbox|] == s.outbox
            && var row := s'.outbox[|s.outbox|];
            && row.branch == e.branch && row.order == e.order && row.warehouse == e.warehouse
            && s'.ledger == s.ledger + row.movements && s'.wastes == s.wastes && s'.quarantine == s.quarantine
  {
    hide Resolve, RawItems, TotalsInRange, HasMovements, HasEvent, Aggregated;
    var s' := Apply(s, e, menu, resolver).state;
    assert s.ledger <= s'.ledger;
    assert s'.ledger == s.ledger + s'.ledger[|s.ledger|..];
  }

  predicate Sent(outbox: seq<OutboxRow>, row: Row) {
    exists i :: 0 <= i < |outbox| && row in outbox[i].movements && outbox[i].branch == row.aggregate.branch
                && outbox[i].order == row.reference && outbox[i].warehouse == row.aggregate.warehouse
  }

  /** Every consumption is in the outbox row of its order, and the outbox tells of nothing else. */
  predicate OutboxOk(s: State) {
    && (forall i | 0 <= i < |s.ledger| && s.ledger[i].kind == ConsumoKds :: Sent(s.outbox, s.ledger[i]))
    && (forall i | 0 <= i < |s.outbox| :: AllIn(s.outbox[i].movements, s.ledger))
  }

  predicate AllIn(movements: seq<Row>, ledger: Ledger) {
    forall k | 0 <= k < |movements| :: movements[k] in ledger
  }

  lemma SentStays(outbox: seq<OutboxRow>, row: OutboxRow, r: Row)
    requires Sent(outbox, r)
    ensures Sent(outbox + [row], r)
  {
    var i :| 0 <= i < |outbox| && r in outbox[i].movements && outbox[i].branch == r.aggregate.branch
             && outbox[i].order == r.reference && outbox[i].warehouse == r.aggregate.warehouse;
    assert (outbox + [row])[i] == outbox[i];
  }

  lemma AppendKeepsOutbox(s: State, s': State, row: OutboxRow)
    requires OutboxOk(s) && s'.outbox == s.outbox + [row] && s'.ledger == s.ledger + row.movements
    requires forall k | 0 <= k < |row.movements| :: OfOrder(row.movements[k], row.branch, row.warehouse, row.order)
    ensures OutboxOk(s')
  {
    forall i | 0 <= i < |s'.ledger| && s'.ledger[i].kind == ConsumoKds
      ensures Sent(s'.outbox, s'.ledger[i])
    {
      if i < |s.ledger| {
        SentStays(s.outbox, row, s.ledger[i]);
      } else {
        assert s'.outbox[|s.outbox|] == row && s'.ledger[i] == row.movements[i - |s.ledger|];
      }
    }
    forall i | 0 <= i < |s'.outbox|
      ensures AllIn(s'.outbox[i].movements, s'.ledger)
    {
      assert i < |s.outbox| ==> AllIn(s.outbox[i].movements, s.ledger);
    }
  }

  lemma ApplyKeepsOutbox(s: State, e: Event, menu: Menu, resolver: Option<Resolver>)
    requires Inv(s) && OutboxOk(s)
    ensures OutboxOk(AfterApply(s, Apply(s, e, menu, resolver)))
  {
    QuarantinedExactly(s, e, menu, resolver);
    if Apply(s, e, menu, resolver).Applied? {
      AppliedSendsMovements(s, e, menu, resolver);
      var s' := Apply(s, e, menu, resolver).state;
      ConsumeKeepsInv(s, e, menu, Resolve(e, menu, resolver).impacts);
      hide Inv, Consume, Resolve, OutboxOk, HasMovements, HasEvent;
      var row := s'.outbox[|s.outbox|];
      assert s'.outbox == s.outbox + [row];
      forall k | 0 <= k < |row.movements|
        ensures OfOrder(row.movements[k], row.branch, row.warehouse, row.order)
      {
        assert s'.ledger[|s.ledger| + k] == row.movements[k];
      }
      AppendKeepsOutbox(s, s', row);
    }
  }

  lemma WasteKeepsOutbox(s: State, c: WasteCommand)
    requires OutboxOk(s)
    ensures OutboxOk(Next(s, RegisterWaste(c)))
  {
    var s' := Next(s, RegisterWaste(c));
    hide Sum, MaxSequence, Sent;
    forall i | 0 <= i < |s'.outbox|
      ensures AllIn(s'.outbox[i].movements, s'.ledger)
    {
      assert AllIn(s.outbox[i].movements, s.ledger);
    }
  }

  lemma NextKeepsOutbox(s: State, step: Step)
    requires Inv(s) && OutboxOk(s)
    ensures OutboxOk(Next(s, step))
  {
    match step {
      case Deliver(e, menu, resolver) =>
        ApplyKeepsOutbox(s, e, menu, resolver);
        hide Apply, OutboxOk, Inv;
      case ReplayHeld(id, menu, resolve) =>
        if id in s.quarantine {
          ApplyKeepsOutbox(s, s.quarantine[id].event, menu, Some(resolve));
          hide Apply, Inv;
        }
      case RegisterWaste(c) => WasteKeepsOutbox(s, c);
    }
  }

  /** In every run each consumption in the ledger is in the outbox row of its order and warehouse, and every movement
      an outbox row carries is in the ledger. */
  lemma {:induction false} OutboxMatchesLedger(steps: seq<Step>)
    ensures OutboxOk(Run(EMPTY, steps))
  {
    if steps != [] {
      OutboxMatchesLedger(steps[..|steps| - 1]);
      EveryRunKeepsInv(steps[..|steps| - 1]);
      NextKeepsOutbox(Run(EMPTY, steps[..|steps| - 1]), steps[|steps| - 1]);
      hide Next, Inv, OutboxOk;
    }
  }

  /* Replays. */

  /** A replay fails exactly when there is no such record or the depletion fails; otherwise the record is REPLAYED, with
      its event, exactly when the modifiers resolve now or the order had been depleted before. */
  lemma ReplayExactly(s: State, id: (nat, nat), menu: Menu, resolve: Resolver)
    requires Inv(s)
    ensures Replay(s, id, menu, resolve) == Err(QuarantineNotFound) <==> id !in s.quarantine
    ensures id in s.quarantine ==>
              var e, r := s.quarantine[id].event, Replay(s, id, menu, resolve);
              && (r.Err? <==> Apply(s, e, menu, Some(resolve)).Failed?)
              && (r.Err? ==> r.error == Apply(s, e, menu, Some(resolve)).error)
              && (r.Ok? ==> id in r.value.quarantine && r.value.quarantine[id].event == e)
              && (r.Ok? ==> (r.value.quarantine[id].status == Replayed <==>
                               HasMovements(s.ledger, e.branch, e.warehouse, e.order) || OrderResolves(e, menu, Some(resolve))))
              && (r.Ok? ==> forall other | other in s.quarantine && other != id ::
                              other in r.value.quarantine && r.value.quarantine[other] == s.quarantine[other])
  {
    if id in s.quarantine {
      var e := s.quarantine[id].event;
      ResolvesExactly(e, menu, Some(resolve));
      ApplyErrors(s, e, menu, Some(resolve));
      hide Inv, Consume, HasMovements, HasEvent, OrderResolves, Resolve, ImpactOf;
    }
  }

  lemma ApplyErrors(s: State, e: Event, menu: Menu, resolver: Option<Resolver>)
    ensures Apply(s, e, menu, resolver) != Failed(QuarantineNotFound)
  {
    if Resolve(e, menu, resolver).Resolved? {
      var impacts := Resolve(e, menu, resolver).impacts;
      RawItemsExactly(menu, e.lines, impacts);
      hide Resolve, LineExplodes;
      if RawItems(menu, e.lines, impacts).Ok? {
        TotalsFitExactly(s.ledger, e, RawItems(menu, e.lines, impacts).value);
      } else {
        var n :| FailsFirst(menu, e.lines, n, RawItems(menu, e.lines, impacts).error);
      }
      hide RawItems, Aggregated, Deplete, AllFit, TotalsInRange;
    }
  }

  /** A replay that goes through takes from the stock what the recorded order requires now, unless the order had been
      depleted before or is quarantined again. */
  lemma ReplayTakes(s: State, id: (nat, nat), menu: Menu, resolve: Resolver, a: Aggregate)
    requires Inv(s) && Replay(s, id, menu, resolve).Ok?
    ensures id in s.quarantine
    ensures var e := s.quarantine[id].event;
            var taken := InWarehouse(a, e) && OrderResolves(e, menu, Some(resolve))
                         && !HasMovements(s.ledger, e.branch, e.warehouse, e.order);
            Sum(Replay(s, id, menu, resolve).value.ledger, a)
            == Sum(s.ledger, a) - if taken then Total(Requirements(e, menu, Some(resolve)), a.ingredient) else 0
  {
    var e := s.quarantine[id].event;
    ResolvesExactly(e, menu, Some(resolve));
    if Apply(s, e, menu, Some(resolve)).Applied? {
      AppliedTakesRequirements(s, e, menu, Some(resolve), a);
    }
    QuarantinedExactly(s, e, menu, Some(resolve));
    hide Inv, Consume, HasMovements, HasEvent, OrderResolves, Resolve, ImpactOf, Sum, Total, Requirements, Unresolvable;
  }
}
