/** How much stock an order takes: exactly the totals of its ingredient list, from its own warehouse only. */
module DepletionEffect {
  import opened Results
  import opened StockLedger
  import opened Depletion
  import opened DepletionRuns
  import Money

  lemma {:induction false} TotalAbsent(items: seq<(nat, int)>, id: nat)
    requires forall k | 0 <= k < |items| :: items[k].0 != id
    ensures Total(items, id) == 0
  {
    if items != [] {
      TotalAbsent(items[..|items| - 1], id);
    }
  }

  lemma {:induction false} TotalOfSum(a: seq<(nat, int)>, b: seq<(nat, int)>, id: nat)
    ensures Total(a + b, id) == Total(a, id) + Total(b, id)
  {
    if b == [] {
      assert a + b == a;
    } else {
      assert (a + b)[..|a + b| - 1] == a + b[..|b| - 1];
      TotalOfSum(a, b[..|b| - 1], id);
    }
  }

  lemma {:induction false} TotalOfDistinct(items: seq<(nat, int)>, k: nat)
    requires k < |items| && forall i, j | 0 <= i < j < |items| :: items[i].0 < items[j].0
    ensures Total(items, items[k].0) == items[k].1
  {
    var n := |items| - 1;
    if k == n {
      TotalAbsent(items[..n], items[k].0);
    } else {
      TotalOfDistinct(items[..n], k);
    }
  }

  /** Aggregation neither loses nor invents quantity. */
  lemma AggregationConserves(raw: seq<(nat, int)>, id: nat)
    ensures Total(Aggregated(raw), id) == Total(raw, id)
  {
    AggregatedIsAscending(raw);
    var a := Aggregated(raw);
    hide Aggregated;
    if k :| 0 <= k < |a| && a[k].0 == id {
      TotalOfDistinct(a, k);
    } else {
      TotalAbsent(a, id);
      forall k | 0 <= k < |raw|
        ensures raw[k].0 != id
      {
        var i :| 0 <= i < |a| && a[i].0 == raw[k].0;
      }
      TotalAbsent(raw, id);
    }
  }

  predicate InWarehouse(a: Aggregate, e: Event) {
    a.branch == e.branch && a.warehouse == e.warehouse
  }

  lemma SumNext(rows: Ledger, row: Row, a: Aggregate)
    ensures Sum(rows + [row], a) == Sum(rows, a) + if row.aggregate == a then row.delta else 0
  {
    assert (rows + [row])[..|rows|] == rows;
  }

  lemma {:induction false} DepleteStock(ledger: Ledger, e: Event, totals: seq<(nat, int)>, a: Aggregate)
    requires Deplete(ledger, e, totals).Ok?
    ensures Sum(Deplete(ledger, e, totals).value, a)
         == Sum(ledger, a) - if InWarehouse(a, e) then Total(totals, a.ingredient) else 0
  {
    if totals != [] {
      var n := |totals| - 1;
      DepleteStock(ledger, e, totals[..n], a);
      var rows := Deplete(ledger, e, totals[..n]).value;
      if totals[n].1 != 0 {
        SumNext(rows, NextRow(rows, Aggregate(e.branch, e.warehouse, totals[n].0), ConsumoKds, e.order, -totals[n].1), a);
      }
      hide Sum;
    }
  }

  /** The ingredient list of an order that is applied. */
  function Requirements(e: Event, menu: Menu, resolver: Option<Resolver>): seq<(nat, int)> {
    match Resolve(e, menu, resolver)
    case Resolved(impacts) =>
      (match RawItems(menu, e.lines, impacts) case Ok(raw) => raw case Err(_) => [])
    case _ => []
  }

  /** An applied order lowers the stock of each ingredient in its warehouse by exactly what the order requires,
      and touches no other stock. */
  lemma AppliedTakesRequirements(s: State, e: Event, menu: Menu, resolver: Option<Resolver>, a: Aggregate)
    requires Apply(s, e, menu, resolver).Applied?
    ensures Sum(Apply(s, e, menu, resolver).state.ledger, a)
         == Sum(s.ledger, a) - if InWarehouse(a, e) then Total(Requirements(e, menu, resolver), a.ingredient) else 0
  {
    var raw := Requirements(e, menu, resolver);
    hide Resolve, RawItems, TotalsInRange, HasMovements, HasEvent;
    DepleteStock(s.ledger, e, Aggregated(raw), a);
    AggregationConserves(raw, a.ingredient);
  }

  /* Redelivery. */

  ghost predicate NoTotal(raw: seq<(nat, int)>) {
    forall id: nat :: Total(raw, id) == 0
  }

  /** The order requires some ingredient in an amount other than zero. */
  ghost predicate MovesSomething(e: Event, menu: Menu, resolver: Option<Resolver>) {
    !NoTotal(Requirements(e, menu, resolver))
  }

  predicate AllZero(totals: seq<(nat, int)>) {
    forall k | 0 <= k < |totals| :: totals[k].1 == 0
  }

  /** A list moves nothing exactly when all its totals are zero. */
  lemma {:induction false} DepletesExactly(ledger: Ledger, e: Event, totals: seq<(nat, int)>)
    ensures AllZero(totals) ==> Deplete(ledger, e, totals) == Ok(ledger)
    ensures Deplete(ledger, e, totals).Ok? && !AllZero(totals) ==> |Deplete(ledger, e, totals).value| > |ledger|
  {
    if totals != [] {
      DepletesExactly(ledger, e, totals[..|totals| - 1]);
      hide NextRow, Money.InRange;
    }
  }

  lemma ZeroTotals(raw: seq<(nat, int)>)
    ensures AllZero(Aggregated(raw)) <==> NoTotal(raw)
  {
    AggregatedIsAscending(raw);
    var a := Aggregated(raw);
    hide Aggregated;
    if NoTotal(raw) {
      assert AllZero(a);
    } else {
      var id: nat :| Total(raw, id) != 0;
      if forall k | 0 <= k < |raw| :: raw[k].0 != id {
        TotalAbsent(raw, id);
        assert false;
      }
      var k :| 0 <= k < |raw| && raw[k].0 == id;
      var i :| 0 <= i < |a| && a[i].0 == raw[k].0;
    }
  }

  /** An applied order writes movements exactly when it requires something. */
  lemma AppliedMovesExactly(s: State, e: Event, menu: Menu, resolver: Option<Resolver>)
    requires Apply(s, e, menu, resolver).Applied?
    ensures Apply(s, e, menu, resolver).state.ledger != s.ledger <==> MovesSomething(e, menu, resolver)
  {
    var raw := Requirements(e, menu, resolver);
    hide Resolve, RawItems, TotalsInRange, HasMovements, HasEvent;
    ZeroTotals(raw);
    DepletesExactly(s.ledger, e, Aggregated(raw));
    hide Aggregated, Deplete, AllZero, NoTotal;
  }

  /** An order that requires nothing is applied in every state that has no movement of it, with no movement and one
      more outbox row. */
  lemma NothingIsAppliedAgain(s: State, t: State, e: Event, menu: Menu, resolver: Option<Resolver>)
    requires Apply(s, e, menu, resolver).Applied? && !MovesSomething(e, menu, resolver)
    requires !HasMovements(t.ledger, e.branch, e.warehouse, e.order)
    ensures Apply(t, e, menu, resolver) == Applied(t.(outbox := t.outbox + [OutboxRow(e.branch, e.order, e.warehouse, [])]))
  {
    var raw := Requirements(e, menu, resolver);
    hide Resolve, RawItems, TotalsInRange, HasMovements, HasEvent;
    ZeroTotals(raw);
    DepletesExactly(t.ledger, e, Aggregated(raw));
    hide Aggregated, Deplete, AllZero, NoTotal;
    assert t.ledger[|t.ledger|..] == [];
  }

  /** A redelivery is recognised as a duplicate exactly when the order requires something, which the caller can tell
      from the order, the recipes and the modifiers. Then it is recognised in every later state too, whatever the
      recipes have become; otherwise it is applied again, with a second outbox row. */
  lemma RedeliveryIsDuplicateExactly(
    s: State, e: Event, menu: Menu, resolver: Option<Resolver>, menu': Menu, resolver': Option<Resolver>, later: seq<Step>)
    requires Inv(s) && Apply(s, e, menu, resolver).Applied?
    ensures var s' := Apply(s, e, menu, resolver).state;
            && (Apply(s', e, menu, resolver) == Duplicate <==> MovesSomething(e, menu, resolver))
            && (MovesSomething(e, menu, resolver) ==> Apply(Run(s', later), e, menu', resolver') == Duplicate)
            && (!MovesSomething(e, menu, resolver) ==>
                  Apply(s', e, menu, resolver) == Applied(s'.(outbox := s'.outbox + [OutboxRow(e.branch, e.order, e.warehouse, [])])))
  {
    AppliedMovesExactly(s, e, menu, resolver);
    var s' := Apply(s, e, menu, resolver).state;
    hide MovesSomething;
    if MovesSomething(e, menu, resolver) {
      MovedIsDuplicate(s, e, menu, resolver, menu', resolver', later);
      MovedIsDuplicate(s, e, menu, resolver, menu, resolver, []);
      hide Apply;
    } else {
      assert !HasMovements(s.ledger, e.branch, e.warehouse, e.order);
      hide Apply, HasMovements;
      NothingIsAppliedAgain(s, s', e, menu, resolver);
    }
  }

  lemma MovedIsDuplicate(
    s: State, e: Event, menu: Menu, resolver: Option<Resolver>, menu': Menu, resolver': Option<Resolver>, later: seq<Step>)
    requires Inv(s) && Apply(s, e, menu, resolver).Applied? && Apply(s, e, menu, resolver).state.ledger != s.ledger
    ensures Apply(Run(Apply(s, e, menu, resolver).state, later), e, menu', resolver') == Duplicate
  {
    ApplyKeepsInv(s, e, menu, resolver);
    var s' := Apply(s, e, menu, resolver).state;
    ConsumeKeepsInv(s, e, menu, Resolve(e, menu, resolver).impacts);
    RunKeepsInv(s', later);
    hide Run, Inv, Consume, Resolve, HasMovements, HasEvent;
    EventStays(s'.outbox, Run(s', later).outbox, e.branch, e.order);
    SomeMovement(s, s', e);
    MovementsStay(s'.ledger, Run(s', later).ledger, e.branch, e.warehouse, e.order);
  }

  /** An order without lines, delivered twice, is applied twice. */
  lemma EmptyOrderAppliedTwice(branch: nat, warehouse: nat, order: nat, menu: Menu)
    ensures var e := Event(branch, warehouse, order, []);
            var first := Apply(EMPTY, e, menu, None);
            && first.Applied? && Apply(first.state, e, menu, None).Applied?
            && |Apply(first.state, e, menu, None).state.outbox| == 2
  {
    var e := Event(branch, warehouse, order, []);
    assert Resolve(e, menu, None).impacts == [];
    assert RawItems(menu, [], []) == Ok([]);
    assert Aggregated([]) == [];
    var first := Apply(EMPTY, e, menu, None);
    assert first.Applied? && Requirements(e, menu, None) == [];
    assert !MovesSomething(e, menu, None);
    hide Apply, MovesSomething, Requirements;
    assert !HasMovements([], branch, warehouse, order);
    hide HasMovements;
    FirstDelivery(e, menu);
    NothingIsAppliedAgain(EMPTY, first.state, e, menu, None);
  }

  lemma FirstDelivery(e: Event, menu: Menu)
    requires e.lines == [] && Apply(EMPTY, e, menu, None).Applied?
    ensures Apply(EMPTY, e, menu, None).state.ledger == [] && |Apply(EMPTY, e, menu, None).state.outbox| == 1
  {
    assert RawItems(menu, [], []) == Ok([]);
    assert Aggregated([]) == [];
  }
}
