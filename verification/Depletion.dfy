/** Kitchen (KDS) stock depletion: recipes become ledger movements and one outbox event, at most once per order;
    orders whose modifiers cannot be resolved are quarantined and replayed later. One organization. */
module Depletion {
  import opened Results
  import opened Ordering
  import opened StockLedger
  import Money

  /** A modifier stands for its id and quantity. Quantities are scale-4 integers. */
  datatype Line = Line(product: nat, quantity: int, modifiers: seq<nat>)
  datatype Event = Event(branch: nat, warehouse: nat, order: nat, lines: seq<Line>)

  /** A product's recipe: its yield and its explosion per unit, absent when the explosion throws. */
  datatype Dish = Dish(yieldQuantity: int, exploded: Option<seq<(nat, int)>>)
  datatype Impact = Impact(removed: set<nat>, added: seq<(nat, int)>)

  type Menu = nat -> Option<Dish>
  type Resolver = (nat, nat) -> Option<Impact>

  datatype HeldStatus = Pending | Replayed
  datatype Held = Held(event: Event, status: HeldStatus)
  datatype OutboxRow = OutboxRow(branch: nat, order: nat, warehouse: nat, movements: seq<Row>)

  datatype State = State(
    ledger: Ledger, wastes: map<nat, nat>, quarantine: map<(nat, nat), Held>, outbox: seq<OutboxRow>)

  datatype Error =
    | IntegrityError | RecipeNotFound | RecipeInvalid | RangeError | QuarantineNotFound | InvalidWaste

  /* What an order consumes. */

  const NO_IMPACT := Impact({}, [])

  /** All modifiers of one line, or None when one of them cannot be resolved. */
  function LineImpact(resolve: Resolver, product: nat, modifiers: seq<nat>): Option<Impact> {
    if modifiers == [] then Some(NO_IMPACT) else
      match LineImpact(resolve, product, modifiers[..|modifiers| - 1])
      case None => None
      case Some(before) =>
        match resolve(product, modifiers[|modifiers| - 1])
        case None => None
        case Some(impact) => Some(Impact(before.removed + impact.removed, before.added + impact.added))
  }

  datatype Resolution = Resolved(impacts: seq<Impact>) | Unresolved | NoRecipe

  function ResolveLine(menu: Menu, resolve: Resolver, line: Line): (r: Resolution)
    ensures r.Resolved? ==> |r.impacts| == 1
  {
    if line.modifiers == [] then Resolved([NO_IMPACT])
    else if menu(line.product).None? then NoRecipe
    else match LineImpact(resolve, line.product, line.modifiers)
      case None => Unresolved
      case Some(impact) => Resolved([impact])
  }

  /** Line by line, stopping at the first failure. */
  function ResolveLines(menu: Menu, resolve: Resolver, lines: seq<Line>): (r: Resolution)
    ensures r.Resolved? ==> |r.impacts| == |lines|
  {
    if lines == [] then Resolved([]) else
      match ResolveLines(menu, resolve, lines[..|lines| - 1])
      case Resolved(impacts) =>
        (match ResolveLine(menu, resolve, lines[|lines| - 1])
         case Resolved(one) => Resolved(impacts + one)
         case failure => failure)
      case failure => failure
  }

  predicate HasModifiers(lines: seq<Line>) {
    exists i :: 0 <= i < |lines| && lines[i].modifiers != []
  }

  function Kept(items: seq<(nat, int)>, removed: set<nat>): seq<(nat, int)> {
    if items == [] then [] else
      Kept(items[..|items| - 1], removed) + if items[|items| - 1].0 in removed then [] else [items[|items| - 1]]
  }

  function Scaled(items: seq<(nat, int)>, factor: int): seq<(nat, int)> {
    if items == [] then [] else
      Scaled(items[..|items| - 1], factor)
      + [(items[|items| - 1].0, Money.RoundDiv(items[|items| - 1].1 * factor, Money.SCALE_FACTOR))]
  }

  /** The item's scale factor divides by the yield, although the explosion already did. */
  function LineItems(menu: Menu, line: Line, impact: Impact): Result<seq<(nat, int)>, Error> {
    if line.quantity <= 0 then Ok([])
    else match menu(line.product)
      case None => Err(RecipeNotFound)
      case Some(dish) =>
        if dish.yieldQuantity == 0 then Err(RangeError)
        else match dish.exploded
          case None => Err(RecipeInvalid)
          case Some(exploded) =>
            var factor := Money.RoundDiv(line.quantity * Money.SCALE_FACTOR, dish.yieldQuantity);
            Ok(Scaled(Kept(exploded, impact.removed), factor) + Scaled(impact.added, factor))
  }

  function RawItems(menu: Menu, lines: seq<Line>, impacts: seq<Impact>): Result<seq<(nat, int)>, Error>
    requires |lines| == |impacts|
  {
    if lines == [] then Ok([]) else
      var n := |lines| - 1;
      match RawItems(menu, lines[..n], impacts[..n])
      case Err(e) => Err(e)
      case Ok(raw) =>
        match LineItems(menu, lines[n], impacts[n])
        case Err(e) => Err(e)
        case Ok(more) => Ok(raw + more)
  }

  /* Aggregation by ingredient. */

  function Total(raw: seq<(nat, int)>, ingredient: nat): int {
    if raw == [] then 0 else
      Total(raw[..|raw| - 1], ingredient) + if raw[|raw| - 1].0 == ingredient then raw[|raw| - 1].1 else 0
  }

  /** Ingredient ids in order of first appearance, as the keys of a Map. */
  function Ids(raw: seq<(nat, int)>): seq<nat> {
    if raw == [] then [] else
      var before, last := Ids(raw[..|raw| - 1]), raw[|raw| - 1];
      if last.0 in before then before else before + [last.0]
  }

  function WithTotals(raw: seq<(nat, int)>, ids: seq<nat>): seq<(nat, int)> {
    seq(|ids|, i requires 0 <= i < |ids| => (ids[i], Total(raw, ids[i])))
  }

  /** Every running total stays within DECIMAL(12,4). */
  predicate TotalsInRange(raw: seq<(nat, int)>) {
    forall n | 0 <= n < |raw| :: TotalInRangeAt(raw, n)
  }

  predicate TotalInRangeAt(raw: seq<(nat, int)>, n: nat)
    requires n < |raw|
  {
    Money.InRange(Total(raw[..n + 1], raw[n].0))
  }

  function Aggregated(raw: seq<(nat, int)>): seq<(nat, int)> {
    WithTotals(raw, Sort(Ascending, Ids(raw)))
  }

  lemma {:induction false} IdsAreDistinct(raw: seq<(nat, int)>)
    ensures forall i, j | 0 <= i < j < |Ids(raw)| :: Ids(raw)[i] != Ids(raw)[j]
    ensures forall k | 0 <= k < |raw| :: raw[k].0 in Ids(raw)
    ensures forall id | id in Ids(raw) :: exists k :: 0 <= k < |raw| && raw[k].0 == id
  {
    if raw != [] {
      var rest := raw[..|raw| - 1];
      IdsAreDistinct(rest);
      forall id | id in Ids(raw)
        ensures exists k :: 0 <= k < |raw| && raw[k].0 == id
      {
        if id in Ids(rest) {
          var k :| 0 <= k < |rest| && rest[k].0 == id;
          assert raw[k].0 == id;
        } else {
          assert raw[|raw| - 1].0 == id;
        }
      }
    }
  }

  lemma AscendingIsOrder(s: seq<nat>)
    requires forall i, j | 0 <= i < j < |s| :: s[i] != s[j]
    ensures StrictOrder(Ascending) && Comparable(Ascending, s)
  {
  }

  /** One entry per ingredient of the list, in strictly ascending order, with its exact total. */
  lemma AggregatedIsAscending(raw: seq<(nat, int)>)
    ensures var a := Aggregated(raw);
            && (forall i, j | 0 <= i < j < |a| :: a[i].0 < a[j].0)
            && (forall i | 0 <= i < |a| :: a[i].1 == Total(raw, a[i].0))
            && (forall k | 0 <= k < |raw| :: exists i :: 0 <= i < |a| && a[i].0 == raw[k].0)
  {
    var ids := Ids(raw);
    IdsAreDistinct(raw);
    AscendingIsOrder(ids);
    SortSorts(Ascending, ids);
    SortKeeps(Ascending, ids);
    var sorted := Sort(Ascending, ids);
    forall i, j | 0 <= i < j < |sorted|
      ensures sorted[i] < sorted[j]
    {
      assert Ascending(sorted[i], sorted[j]);
    }
    hide Ids, Sort;
    var a := Aggregated(raw);
    forall k | 0 <= k < |raw|
      ensures exists i :: 0 <= i < |a| && a[i].0 == raw[k].0
    {
      SameMembers(sorted, ids, raw[k].0);
      var i :| 0 <= i < |sorted| && sorted[i] == raw[k].0;
      assert a[i].0 == raw[k].0;
    }
  }

  /* Ledger movements. */

  /** One movement per ingredient with a total other than zero. Rows are only appended. */
  function Deplete(ledger: Ledger, e: Event, totals: seq<(nat, int)>): (r: Result<Ledger, Error>)
    ensures r.Ok? ==> ledger <= r.value
  {
    if totals == [] then Ok(ledger) else
      match Deplete(ledger, e, totals[..|totals| - 1])
      case Err(error) => Err(error)
      case Ok(rows) =>
        var (ingredient, total) := totals[|totals| - 1];
        if total == 0 then Ok(rows) else
          var row := NextRow(rows, Aggregate(e.branch, e.warehouse, ingredient), ConsumoKds, e.order, -total);
          if !Money.InRange(-total) || !Money.InRange(row.balanceAfter) then Err(RangeError) else Ok(rows + [row])
  }

  /* The transactions. */

  /** The row is a movement of this order in this warehouse. */
  predicate OfOrder(row: Row, branch: nat, warehouse: nat, order: nat) {
    && row.kind == ConsumoKds && row.reference == order
    && row.aggregate.branch == branch && row.aggregate.warehouse == warehouse
  }

  predicate HasMovements(ledger: Ledger, branch: nat, warehouse: nat, order: nat) {
    exists i :: 0 <= i < |ledger| && OfOrder(ledger[i], branch, warehouse, order)
  }

  predicate HasEvent(outbox: seq<OutboxRow>, branch: nat, order: nat) {
    exists i :: 0 <= i < |outbox| && outbox[i].branch == branch && outbox[i].order == order
  }

  datatype Outcome = Failed(error: Error) | Duplicate | Quarantined(state: State) | Applied(state: State)

  function Quarantine(s: State, e: Event): Outcome {
    Quarantined(s.(quarantine := s.quarantine[(e.branch, e.order) := Held(e, Pending)]))
  }

  function Consume(s: State, e: Event, menu: Menu, impacts: seq<Impact>): Outcome
    requires |impacts| == |e.lines|
  {
    match RawItems(menu, e.lines, impacts)
    case Err(error) => Failed(error)
    case Ok(raw) =>
      if !TotalsInRange(raw) then Failed(RangeError)
      else match Deplete(s.ledger, e, Aggregated(raw))
        case Err(error) => Failed(error)
        case Ok(ledger) =>
          Applied(s.(ledger := ledger,
                     outbox := s.outbox + [OutboxRow(e.branch, e.order, e.warehouse, ledger[|s.ledger|..])]))
  }

  /** Without a resolver only lines without modifiers get this far. */
  function Resolve(e: Event, menu: Menu, resolver: Option<Resolver>): (r: Resolution)
    ensures r.Resolved? ==> |r.impacts| == |e.lines|
  {
    if resolver.Some? then ResolveLines(menu, resolver.value, e.lines)
    else if HasModifiers(e.lines) then Unresolved
    else Resolved(seq(|e.lines|, _ => NO_IMPACT))
  }

  /** `applyKdsDepletionLockedWithClient`. */
  function Apply(s: State, e: Event, menu: Menu, resolver: Option<Resolver>): Outcome {
    if HasMovements(s.ledger, e.branch, e.warehouse, e.order) then
      if HasEvent(s.outbox, e.branch, e.order) then Duplicate else Failed(IntegrityError)
    else
      match Resolve(e, menu, resolver)
      case Unresolved => Quarantine(s, e)
      case NoRecipe => Failed(RecipeNotFound)
      case Resolved(impacts) => Consume(s, e, menu, impacts)
  }

  /** `replayQuarantinedDepletion`: the state after it, or why it is rolled back. */
  function Replay(s: State, id: (nat, nat), menu: Menu, resolve: Resolver): Result<State, Error> {
    if id !in s.quarantine then Err(QuarantineNotFound)
    else
      var held := s.quarantine[id];
      match Apply(s, held.event, menu, Some(resolve))
      case Failed(e) => Err(e)
      case Quarantined(s') => Ok(s')
      case Duplicate => Ok(s.(quarantine := s.quarantine[id := held.(status := Replayed)]))
      case Applied(s') => Ok(s'.(quarantine := s'.quarantine[id := held.(status := Replayed)]))
  }

  datatype WasteCommand = WasteCommand(id: nat, aggregate: Aggregate, quantity: int)

  /** `registerWaste`: the new state and the movement, or the movement recorded before. */
  function Waste(s: State, c: WasteCommand): Result<(State, Row), Error> {
    if c.quantity <= 0 then Err(InvalidWaste)
    else if c.id in s.wastes then
      if s.wastes[c.id] < |s.ledger| then Ok((s, s.ledger[s.wastes[c.id]])) else Err(IntegrityError)
    else
      var row := NextRow(s.ledger, c.aggregate, Merma, c.id, -c.quantity);
      if !Money.InRange(-c.quantity) || !Money.InRange(row.balanceAfter) then Err(RangeError)
      else Ok((s.(ledger := s.ledger + [row], wastes := s.wastes[c.id := |s.ledger|]), row))
  }

  /* Runs. */

  datatype Step =
    | Deliver(event: Event, menu: Menu, resolver: Option<Resolver>)
    | ReplayHeld(id: (nat, nat), menu: Menu, resolve: Resolver)
    | RegisterWaste(command: WasteCommand)

  const EMPTY := State([], map[], map[], [])

  function AfterApply(s: State, r: Outcome): State {
    match r
    case Failed(_) => s
    case Duplicate => s
    case Quarantined(s') => s'
    case Applied(s') => s'
  }

  function Next(s: State, step: Step): State {
    match step
    case Deliver(e, menu, resolver) => AfterApply(s, Apply(s, e, menu, resolver))
    case ReplayHeld(id, menu, resolve) => (match Replay(s, id, menu, resolve) case Ok(s') => s' case Err(_) => s)
    case RegisterWaste(c) => (match Waste(s, c) case Ok(r) => r.0 case Err(_) => s)
  }

  function Run(s: State, steps: seq<Step>): State {
    if steps == [] then s else Next(Run(s, steps[..|steps| - 1]), steps[|steps| - 1])
  }

  /* The invariant. */

  predicate SameMovement(a: Row, b: Row) {
    a.aggregate == b.aggregate && a.kind == b.kind && a.reference == b.reference
  }

  predicate RowsOk(s: State) {
    forall i | 0 <= i < |s.ledger| ::
      && Money.InRange(s.ledger[i].balanceAfter) && s.ledger[i].delta != 0
      && (s.ledger[i].kind == ConsumoKds ==> HasEvent(s.outbox, s.ledger[i].aggregate.branch, s.ledger[i].reference))
      && (s.ledger[i].kind == Merma ==> s.ledger[i].reference in s.wastes && s.wastes[s.ledger[i].reference] == i)
  }

  predicate WastesOk(s: State) {
    forall c | c in s.wastes ::
      s.wastes[c] < |s.ledger| && s.ledger[s.wastes[c]].kind == Merma && s.ledger[s.wastes[c]].reference == c
  }

  predicate MovementsUnique(ledger: Ledger) {
    forall i, j | 0 <= i < j < |ledger| :: !SameMovement(ledger[i], ledger[j])
  }

  predicate QuarantineOk(s: State) {
    forall id | id in s.quarantine ::
      && s.quarantine[id].event.branch == id.0 && s.quarantine[id].event.order == id.1
      && (s.quarantine[id].status == Replayed ==> HasEvent(s.outbox, id.0, id.1))
  }

  predicate Inv(s: State) {
    LedgerOk(s.ledger) && RowsOk(s) && WastesOk(s) && MovementsUnique(s.ledger) && QuarantineOk(s)
  }

  /** The movements a depletion appends. */
  predicate NewRow(row: Row, e: Event, totals: seq<(nat, int)>) {
    && OfOrder(row, e.branch, e.warehouse, e.order) && Money.InRange(row.balanceAfter) && row.delta != 0
    && exists k :: 0 <= k < |totals| && totals[k].0 == row.aggregate.ingredient
  }

  lemma {:induction false} DepleteShape(ledger: Ledger, e: Event, totals: seq<(nat, int)>)
    requires LedgerOk(ledger) && Deplete(ledger, e, totals).Ok?
    ensures var rows := Deplete(ledger, e, totals).value;
            LedgerOk(rows) && forall i | |ledger| <= i < |rows| :: NewRow(rows[i], e, totals)
  {
    if totals != [] {
      var n := |totals| - 1;
      DepleteShape(ledger, e, totals[..n]);
      var rows, after := Deplete(ledger, e, totals[..n]).value, Deplete(ledger, e, totals).value;
      hide LedgerOk;
      forall i | |ledger| <= i < |rows|
        ensures NewRow(rows[i], e, totals)
      {
        var k :| 0 <= k < n && totals[..n][k].0 == rows[i].aggregate.ingredient;
        assert totals[k].0 == rows[i].aggregate.ingredient;
      }
      if totals[n].1 != 0 {
        AppendKeepsLedger(rows, Aggregate(e.branch, e.warehouse, totals[n].0), ConsumoKds, e.order, -totals[n].1);
        assert totals[n].0 == after[|rows|].aggregate.ingredient;
        assert NewRow(after[|rows|], e, totals);
      }
    }
  }

  /** Ascending totals give ascending movements, so no ingredient is moved twice. */
  lemma {:induction false} DepleteAscends(ledger: Ledger, e: Event, totals: seq<(nat, int)>)
    requires LedgerOk(ledger) && Deplete(ledger, e, totals).Ok?
    requires forall i, j | 0 <= i < j < |totals| :: totals[i].0 < totals[j].0
    ensures var rows := Deplete(ledger, e, totals).value;
            forall i, j | |ledger| <= i < j < |rows| :: rows[i].aggregate.ingredient < rows[j].aggregate.ingredient
  {
    if totals != [] {
      var n := |totals| - 1;
      DepleteAscends(ledger, e, totals[..n]);
      DepleteShape(ledger, e, totals[..n]);
      var rows := Deplete(ledger, e, totals[..n]).value;
      hide LedgerOk;
      forall i | |ledger| <= i < |rows|
        ensures rows[i].aggregate.ingredient < totals[n].0
      {
        assert NewRow(rows[i], e, totals[..n]);
      }
    }
  }
}
