/** What holds in every run of deliveries, quarantines, replays and wastes. */
module DepletionRuns {
  import opened Results
  import opened StockLedger
  import opened Depletion

  /** Tables only grow. */
  predicate Grows(s: State, s': State) {
    && s.ledger <= s'.ledger && s.outbox <= s'.outbox
    && (forall c | c in s.wastes :: c in s'.wastes && s'.wastes[c] == s.wastes[c])
  }

  lemma EventStays(a: seq<OutboxRow>, b: seq<OutboxRow>, branch: nat, order: nat)
    requires a <= b && HasEvent(a, branch, order)
    ensures HasEvent(b, branch, order)
  {
    var i :| 0 <= i < |a| && a[i].branch == branch && a[i].order == order;
    assert b[i] == a[i];
  }

  lemma OldRowsOk(s: State, s': State)
    requires RowsOk(s) && Grows(s, s')
    ensures forall i | 0 <= i < |s.ledger| ::
              && (s.ledger[i].kind == ConsumoKds ==> HasEvent(s'.outbox, s.ledger[i].aggregate.branch, s.ledger[i].reference))
              && (s.ledger[i].kind == Merma ==> s.ledger[i].reference in s'.wastes && s'.wastes[s.ledger[i].reference] == i)
  {
    hide HasEvent;
    forall i | 0 <= i < |s.ledger| && s.ledger[i].kind == ConsumoKds
      ensures HasEvent(s'.outbox, s.ledger[i].aggregate.branch, s.ledger[i].reference)
    {
      EventStays(s.outbox, s'.outbox, s.ledger[i].aggregate.branch, s.ledger[i].reference);
    }
  }

  lemma QuarantineStaysOk(s: State, s': State)
    requires QuarantineOk(s) && Grows(s, s') && s'.quarantine == s.quarantine
    ensures QuarantineOk(s')
  {
    hide HasEvent;
    forall id | id in s'.quarantine && s'.quarantine[id].status == Replayed
      ensures HasEvent(s'.outbox, id.0, id.1)
    {
      EventStays(s.outbox, s'.outbox, id.0, id.1);
    }
  }

  /** The state after the movements of an order that had none. */
  lemma AppendedRowsOk(s: State, s': State, e: Event, totals: seq<(nat, int)>)
    requires RowsOk(s) && WastesOk(s) && s.ledger <= s'.ledger && s.wastes == s'.wastes && s.outbox <= s'.outbox
    requires HasEvent(s'.outbox, e.branch, e.order)
    requires forall i | |s.ledger| <= i < |s'.ledger| :: NewRow(s'.ledger[i], e, totals)
    ensures RowsOk(s') && WastesOk(s')
  {
    OldRowsOk(s, s');
    hide HasEvent;
    assert forall i | 0 <= i < |s.ledger| :: s'.ledger[i] == s.ledger[i];
    forall i | |s.ledger| <= i < |s'.ledger|
      ensures OfOrder(s'.ledger[i], e.branch, e.warehouse, e.order)
    {
      assert NewRow(s'.ledger[i], e, totals);
    }
  }

  lemma AppendedMovementsUnique(a: Ledger, b: Ledger, e: Event, totals: seq<(nat, int)>)
    requires MovementsUnique(a) && a <= b && !HasMovements(a, e.branch, e.warehouse, e.order)
    requires forall i | |a| <= i < |b| :: NewRow(b[i], e, totals)
    requires forall i, j | |a| <= i < j < |b| :: b[i].aggregate.ingredient < b[j].aggregate.ingredient
    ensures MovementsUnique(b)
  {
    forall i, j | 0 <= i < j < |b|
      ensures !SameMovement(b[i], b[j])
    {
      if j < |a| {
        assert b[i] == a[i] && b[j] == a[j];
      } else {
        assert NewRow(b[j], e, totals);
        if i < |a| {
          assert b[i] == a[i] && !OfOrder(a[i], e.branch, e.warehouse, e.order);
        }
      }
    }
  }

  lemma NewEvent(outbox: seq<OutboxRow>, row: OutboxRow)
    ensures HasEvent(outbox + [row], row.branch, row.order) && outbox <= outbox + [row]
  {
    assert (outbox + [row])[|outbox|] == row;
  }

  lemma ConsumeKeepsInv(s: State, e: Event, menu: Menu, impacts: seq<Impact>)
    requires Inv(s) && |impacts| == |e.lines| && !HasMovements(s.ledger, e.branch, e.warehouse, e.order)
    requires Consume(s, e, menu, impacts).Applied?
    ensures var s' := Consume(s, e, menu, impacts).state;
            && Inv(s') && Grows(s, s') && s'.quarantine == s.quarantine && HasEvent(s'.outbox, e.branch, e.order)
            && forall i | |s.ledger| <= i < |s'.ledger| :: OfOrder(s'.ledger[i], e.branch, e.warehouse, e.order)
  {
    var raw := RawItems(menu, e.lines, impacts).value;
    var totals, s' := Aggregated(raw), Consume(s, e, menu, impacts).state;
    DepleteShape(s.ledger, e, totals);
    AggregatedIsAscending(raw);
    DepleteAscends(s.ledger, e, totals);
    NewEvent(s.outbox, OutboxRow(e.branch, e.order, e.warehouse, s'.ledger[|s.ledger|..]));
    hide RawItems, Aggregated, Deplete, LedgerOk, HasEvent, HasMovements, TotalsInRange, Total;
    AppendedRowsOk(s, s', e, totals);
    AppendedMovementsUnique(s.ledger, s'.ledger, e, totals);
    QuarantineStaysOk(s, s');
    forall i | |s.ledger| <= i < |s'.ledger|
      ensures OfOrder(s'.ledger[i], e.branch, e.warehouse, e.order)
    {
      assert NewRow(s'.ledger[i], e, totals);
    }
  }

  lemma HeldKeepsInv(s: State, id: (nat, nat), held: Held)
    requires Inv(s) && held.event.branch == id.0 && held.event.order == id.1
    requires held.status == Replayed ==> HasEvent(s.outbox, id.0, id.1)
    ensures Inv(s.(quarantine := s.quarantine[id := held]))
  {
    hide HasEvent, LedgerOk, MovementsUnique;
  }

  /** What one order's transaction does, in full. */
  lemma ApplyKeepsInv(s: State, e: Event, menu: Menu, resolver: Option<Resolver>)
    requires Inv(s)
    ensures var r := Apply(s, e, menu, resolver);
            && Inv(AfterApply(s, r)) && Grows(s, AfterApply(s, r)) && r != Failed(IntegrityError)
            && (r.Duplicate? ==> HasEvent(s.outbox, e.branch, e.order))
            && (r.Quarantined? ==> r.state.ledger == s.ledger && r.state.outbox == s.outbox && r.state.wastes == s.wastes)
            && (r.Applied? ==> r.state.quarantine == s.quarantine && HasEvent(r.state.outbox, e.branch, e.order))
  {
    if HasMovements(s.ledger, e.branch, e.warehouse, e.order) {
      var i :| 0 <= i < |s.ledger| && OfOrder(s.ledger[i], e.branch, e.warehouse, e.order);
      assert s.ledger[i].kind == ConsumoKds;
    } else {
      match Resolve(e, menu, resolver) {
        case Resolved(impacts) =>
          ConsumeErrors(s, e, menu, impacts);
          if Consume(s, e, menu, impacts).Applied? {
            ConsumeKeepsInv(s, e, menu, impacts);
          }
        case Unresolved => HeldKeepsInv(s, (e.branch, e.order), Held(e, Pending));
        case NoRecipe =>
      }
    }
    hide Inv, Consume, Resolve, HasMovements, HasEvent;
  }

  lemma ConsumeErrors(s: State, e: Event, menu: Menu, impacts: seq<Impact>)
    requires |impacts| == |e.lines|
    ensures var r := Consume(s, e, menu, impacts); r.Applied? || (r.Failed? && r.error != IntegrityError)
  {
    RawErrors(menu, e.lines, impacts);
    if RawItems(menu, e.lines, impacts).Ok? {
      DepleteErrors(s.ledger, e, Aggregated(RawItems(menu, e.lines, impacts).value));
    }
    hide RawItems, Deplete, Aggregated, TotalsInRange;
  }

  lemma {:induction false} RawErrors(menu: Menu, lines: seq<Line>, impacts: seq<Impact>)
    requires |lines| == |impacts|
    ensures RawItems(menu, lines, impacts) != Err(IntegrityError)
  {
    if lines != [] {
      RawErrors(menu, lines[..|lines| - 1], impacts[..|lines| - 1]);
      hide Scaled, Kept;
    }
  }

  lemma {:induction false} DepleteErrors(ledger: Ledger, e: Event, totals: seq<(nat, int)>)
    ensures Deplete(ledger, e, totals) != Err(IntegrityError)
  {
    if totals != [] {
      DepleteErrors(ledger, e, totals[..|totals| - 1]);
    }
  }

  lemma ReplayKeepsInv(s: State, id: (nat, nat), menu: Menu, resolve: Resolver)
    requires Inv(s)
    ensures var s' := Next(s, ReplayHeld(id, menu, resolve)); Inv(s') && Grows(s, s')
  {
    if id in s.quarantine {
      var held := s.quarantine[id];
      ApplyKeepsInv(s, held.event, menu, Some(resolve));
      hide Apply, HasEvent, LedgerOk, MovementsUnique, RowsOk, WastesOk;
      match Apply(s, held.event, menu, Some(resolve)) {
        case Duplicate => HeldKeepsInv(s, id, held.(status := Replayed));
        case Applied(s') => HeldKeepsInv(s', id, held.(status := Replayed));
        case _ =>
      }
    }
  }

  lemma WasteKeepsInv(s: State, c: WasteCommand)
    requires Inv(s)
    ensures var s' := Next(s, RegisterWaste(c)); Inv(s') && Grows(s, s')
  {
    if c.quantity > 0 && c.id !in s.wastes && Waste(s, c).Ok? {
      var s', row := Waste(s, c).value.0, Waste(s, c).value.1;
      AppendKeepsLedger(s.ledger, c.aggregate, Merma, c.id, -c.quantity);
      hide LedgerOk, HasEvent, NextRow;
      OldRowsOk(s, s');
      QuarantineStaysOk(s, s');
      WasteIsUnique(s, row);
    }
  }

  lemma WasteIsUnique(s: State, row: Row)
    requires RowsOk(s) && MovementsUnique(s.ledger) && row.kind == Merma && row.reference !in s.wastes
    ensures MovementsUnique(s.ledger + [row])
  {
    hide HasEvent;
    var after := s.ledger + [row];
    forall i | 0 <= i < |s.ledger|
      ensures !SameMovement(s.ledger[i], row)
    {
    }
  }

  lemma NextKeepsInv(s: State, step: Step)
    requires Inv(s)
    ensures Inv(Next(s, step)) && Grows(s, Next(s, step))
  {
    match step {
      case Deliver(e, menu, resolver) =>
        ApplyKeepsInv(s, e, menu, resolver);
        hide Apply;
      case ReplayHeld(id, menu, resolve) => ReplayKeepsInv(s, id, menu, resolve);
      case RegisterWaste(c) => WasteKeepsInv(s, c);
    }
  }

  lemma {:induction false} RunKeepsInv(s: State, steps: seq<Step>)
    requires Inv(s)
    ensures Inv(Run(s, steps)) && Grows(s, Run(s, steps))
  {
    if steps != [] {
      RunKeepsInv(s, steps[..|steps| - 1]);
      NextKeepsInv(Run(s, steps[..|steps| - 1]), steps[|steps| - 1]);
      hide Next, Inv;
    }
  }

  /** Ledger numbering and balances, outbox, waste and quarantine agreement, in every run. */
  lemma EveryRunKeepsInv(steps: seq<Step>)
    ensures Inv(Run(EMPTY, steps))
  {
    RunKeepsInv(EMPTY, steps);
  }

  /* At most one depletion per order and warehouse. */

  /** The step from s to s' wrote movements of this order in this warehouse. */
  predicate Depletes(s: State, s': State, branch: nat, warehouse: nat, order: nat) {
    exists i :: |s.ledger| <= i < |s'.ledger| && OfOrder(s'.ledger[i], branch, warehouse, order)
  }

  lemma MovementsStay(a: Ledger, b: Ledger, branch: nat, warehouse: nat, order: nat)
    requires a <= b && HasMovements(a, branch, warehouse, order)
    ensures HasMovements(b, branch, warehouse, order)
  {
    var i :| 0 <= i < |a| && OfOrder(a[i], branch, warehouse, order);
    assert OfOrder(b[i], branch, warehouse, order);
  }

  lemma ApplyDepletesOnce(s: State, e: Event, menu: Menu, resolver: Option<Resolver>, branch: nat, warehouse: nat, order: nat)
    requires Inv(s) && Depletes(s, AfterApply(s, Apply(s, e, menu, resolver)), branch, warehouse, order)
    ensures !HasMovements(s.ledger, branch, warehouse, order)
  {
    ApplyKeepsInv(s, e, menu, resolver);
    var s' := AfterApply(s, Apply(s, e, menu, resolver));
    var i :| |s.ledger| <= i < |s'.ledger| && OfOrder(s'.ledger[i], branch, warehouse, order);
    var impacts := Resolve(e, menu, resolver).impacts;
    ConsumeKeepsInv(s, e, menu, impacts);
    hide Consume, Resolve, Inv;
    assert OfOrder(s'.ledger[i], e.branch, e.warehouse, e.order);
  }

  lemma NextDepletesOnce(s: State, step: Step, branch: nat, warehouse: nat, order: nat)
    requires Inv(s) && Depletes(s, Next(s, step), branch, warehouse, order)
    ensures !HasMovements(s.ledger, branch, warehouse, order)
  {
    match step {
      case Deliver(e, menu, resolver) =>
        hide Apply, Inv, HasMovements;
        ApplyDepletesOnce(s, e, menu, resolver, branch, warehouse, order);
      case ReplayHeld(id, menu, resolve) =>
        hide Apply, Inv, HasMovements;
        ApplyDepletesOnce(s, s.quarantine[id].event, menu, Some(resolve), branch, warehouse, order);
      case RegisterWaste(c) =>
        assert false;
    }
  }

  /** In every run, once a step has depleted stock for an order in a warehouse, no later step does. */
  lemma DepletesAtMostOnce(
    before: seq<Step>, first: Step, between: seq<Step>, second: Step, branch: nat, warehouse: nat, order: nat)
    requires var s := Run(EMPTY, before); Depletes(s, Next(s, first), branch, warehouse, order)
    ensures var s := Run(Next(Run(EMPTY, before), first), between); !Depletes(s, Next(s, second), branch, warehouse, order)
  {
    var s := Run(EMPTY, before);
    EveryRunKeepsInv(before);
    hide Run, Inv, Next;
    NextKeepsInv(s, first);
    var s1 := Next(s, first);
    RunKeepsInv(s1, between);
    var s2 := Run(s1, between);
    var i :| |s.ledger| <= i < |s1.ledger| && OfOrder(s1.ledger[i], branch, warehouse, order);
    assert HasMovements(s1.ledger, branch, warehouse, order);
    MovementsStay(s1.ledger, s2.ledger, branch, warehouse, order);
    hide HasMovements;
    if Depletes(s2, Next(s2, second), branch, warehouse, order) {
      NextDepletesOnce(s2, second, branch, warehouse, order);
    }
  }

  lemma SomeMovement(s: State, s': State, e: Event)
    requires s.ledger <= s'.ledger && s'.ledger != s.ledger
    requires forall i | |s.ledger| <= i < |s'.ledger| :: OfOrder(s'.ledger[i], e.branch, e.warehouse, e.order)
    ensures HasMovements(s'.ledger, e.branch, e.warehouse, e.order)
  {
    assert s'.ledger == s'.ledger[..|s'.ledger|] && s.ledger == s'.ledger[..|s.ledger|];
    assert OfOrder(s'.ledger[|s.ledger|], e.branch, e.warehouse, e.order);
  }

  /* Quarantine. */

  /** Some line has a modifier and, in line order, an unresolvable one comes before any missing recipe. */
  predicate Unresolvable(e: Event, menu: Menu, resolver: Option<Resolver>) {
    if resolver.None? then HasModifiers(e.lines) else
      exists n :: 0 <= n < |e.lines| && StopsAt(e.lines, menu, resolver.value, n)
  }

  predicate LineResolves(line: Line, menu: Menu, resolve: Resolver) {
    line.modifiers == []
    || (menu(line.product).Some? && forall k | 0 <= k < |line.modifiers| :: resolve(line.product, line.modifiers[k]).Some?)
  }

  predicate StopsAt(lines: seq<Line>, menu: Menu, resolve: Resolver, n: nat)
    requires n < |lines|
  {
    && (forall k | 0 <= k < n :: LineResolves(lines[k], menu, resolve))
    && lines[n].modifiers != [] && menu(lines[n].product).Some?
    && exists k :: 0 <= k < |lines[n].modifiers| && resolve(lines[n].product, lines[n].modifiers[k]).None?
  }

  lemma {:induction false} ImpactExactly(resolve: Resolver, product: nat, modifiers: seq<nat>)
    ensures LineImpact(resolve, product, modifiers).Some?
       <==> forall k | 0 <= k < |modifiers| :: resolve(product, modifiers[k]).Some?
  {
    if modifiers != [] {
      var n := |modifiers| - 1;
      ImpactExactly(resolve, product, modifiers[..n]);
      assert forall k | 0 <= k < n :: modifiers[..n][k] == modifiers[k];
    }
  }

  lemma {:induction false} ResolveExactly(menu: Menu, resolve: Resolver, lines: seq<Line>)
    ensures ResolveLines(menu, resolve, lines).Resolved?
       <==> forall k | 0 <= k < |lines| :: LineResolves(lines[k], menu, resolve)
    ensures ResolveLines(menu, resolve, lines).Unresolved?
       <==> exists n :: 0 <= n < |lines| && StopsAt(lines, menu, resolve, n)
  {
    if lines != [] {
      var n, rest := |lines| - 1, lines[..|lines| - 1];
      ResolveExactly(menu, resolve, rest);
      ImpactExactly(resolve, lines[n].product, lines[n].modifiers);
      hide LineImpact;
      assert forall k | 0 <= k < n :: rest[k] == lines[k];
      forall k | 0 <= k < n
        ensures StopsAt(rest, menu, resolve, k) == StopsAt(lines, menu, resolve, k)
      {
      }
      assert StopsAt(lines, menu, resolve, n)
        <==> ResolveLines(menu, resolve, rest).Resolved? && ResolveLine(menu, resolve, lines[n]).Unresolved?;
      hide StopsAt, LineResolves, ResolveLine;
      if k :| 0 <= k < |rest| && StopsAt(rest, menu, resolve, k) {
        assert StopsAt(lines, menu, resolve, k);
      }
      if k :| 0 <= k < |lines| && StopsAt(lines, menu, resolve, k) {
        assert k < n ==> StopsAt(rest, menu, resolve, k);
      }
    }
  }

  /** An order is quarantined exactly when it has not been depleted and a modifier cannot be resolved; it then
      adds no ledger row and no outbox row. */
  lemma QuarantinedExactly(s: State, e: Event, menu: Menu, resolver: Option<Resolver>)
    ensures Apply(s, e, menu, resolver).Quarantined?
       <==> !HasMovements(s.ledger, e.branch, e.warehouse, e.order) && Unresolvable(e, menu, resolver)
    ensures Apply(s, e, menu, resolver).Quarantined? ==>
              var s' := Apply(s, e, menu, resolver).state;
              && s'.ledger == s.ledger && s'.outbox == s.outbox && s'.wastes == s.wastes
              && s'.quarantine == s.quarantine[(e.branch, e.order) := Held(e, Pending)]
  {
    if resolver.Some? {
      ResolveExactly(menu, resolver.value, e.lines);
    }
    hide ResolveLines, StopsAt, HasMovements, LineResolves;
    if Resolve(e, menu, resolver).Resolved? {
      ConsumeErrors(s, e, menu, Resolve(e, menu, resolver).impacts);
      hide Consume;
    }
  }

  /** A replayed quarantine record has its outbox row, and every order with movements has one, in every run. */
  lemma OutboxIsComplete(steps: seq<Step>, id: (nat, nat))
    ensures var s := Run(EMPTY, steps);
            && (id in s.quarantine && s.quarantine[id].status == Replayed ==> HasEvent(s.outbox, id.0, id.1))
            && forall w | HasMovements(s.ledger, id.0, w, id.1) :: HasEvent(s.outbox, id.0, id.1)
  {
    EveryRunKeepsInv(steps);
    var s := Run(EMPTY, steps);
    hide Run, LedgerOk, HasEvent;
    forall w | HasMovements(s.ledger, id.0, w, id.1)
      ensures HasEvent(s.outbox, id.0, id.1)
    {
      var i :| 0 <= i < |s.ledger| && OfOrder(s.ledger[i], id.0, w, id.1);
      assert s.ledger[i].kind == ConsumoKds;
    }
  }
}
