/** Concurrent waste, depletion and replay transactions over their locks: no circular wait, and some transaction
    can always go on. Advisory lock hashing is taken as injective. */
module LockOrder {
  import opened Results
  import opened Depletion
  import DepletionEffect
  import StockLedger

  /** Advisory locks, the quarantine row, and the waste command's unique-index entry. */
  datatype Lock =
    | SourceEvent(branch: nat, order: nat)
    | QuarantineRow(branch: nat, order: nat)
    | StockAggregate(branch: nat, warehouse: nat, ingredient: nat)
    | WasteCommandId(id: nat)

  /* One order on all locks. */

  function Rank(l: Lock): (nat, nat, nat, nat) {
    match l
    case SourceEvent(b, o) => (0, b, o, 0)
    case QuarantineRow(b, o) => (1, b, o, 0)
    case StockAggregate(b, w, i) => (2, b, w, i)
    case WasteCommandId(c) => (3, c, 0, 0)
  }

  predicate Below(a: Lock, b: Lock) {
    var x, y := Rank(a), Rank(b);
    || x.0 < y.0
    || (x.0 == y.0 && (x.1 < y.1 || (x.1 == y.1 && (x.2 < y.2 || (x.2 == y.2 && x.3 < y.3)))))
  }

  lemma BelowIsTotalOrder(a: Lock, b: Lock, c: Lock)
    ensures !Below(a, a) && (Below(a, b) && Below(b, c) ==> Below(a, c)) && (a == b || Below(a, b) || Below(b, a))
  {
  }

  predicate AscendingPlan(plan: seq<Lock>) {
    forall i, j | 0 <= i < j < |plan| :: Below(plan[i], plan[j])
  }

  /* What each transaction locks, in order. */

  function WastePlan(c: WasteCommand): seq<Lock> {
    [StockAggregate(c.aggregate.branch, c.aggregate.warehouse, c.aggregate.ingredient), WasteCommandId(c.id)]
  }

  /** One aggregate lock per ingredient that moves, in the order of the list. */
  function AggregateLocks(e: Event, totals: seq<(nat, int)>): seq<Lock> {
    if totals == [] then [] else
      AggregateLocks(e, totals[..|totals| - 1])
      + if totals[|totals| - 1].1 == 0 then [] else [StockAggregate(e.branch, e.warehouse, totals[|totals| - 1].0)]
  }

  /** A delivery ends in movements of this ingredient list, or (None) in the quarantine upsert. */
  function DeliveryPlan(e: Event, raw: Option<seq<(nat, int)>>): seq<Lock> {
    [SourceEvent(e.branch, e.order)]
    + match raw case Some(items) => AggregateLocks(e, Aggregated(items)) case None => [QuarantineRow(e.branch, e.order)]
  }

  /** A replay locks its record before it depletes; if it is quarantined again it already holds the row. */
  function ReplayPlan(e: Event, raw: Option<seq<(nat, int)>>): seq<Lock> {
    [SourceEvent(e.branch, e.order), QuarantineRow(e.branch, e.order)]
    + match raw case Some(items) => AggregateLocks(e, Aggregated(items)) case None => []
  }

  lemma {:induction false} AggregateLocksAscend(e: Event, totals: seq<(nat, int)>)
    requires forall i, j | 0 <= i < j < |totals| :: totals[i].0 < totals[j].0
    ensures var locks := AggregateLocks(e, totals);
            && AscendingPlan(locks)
            && forall k | 0 <= k < |locks| ::
                 && locks[k].StockAggregate? && locks[k].branch == e.branch && locks[k].warehouse == e.warehouse
                 && exists i :: 0 <= i < |totals| && totals[i].0 == locks[k].ingredient
  {
    if totals != [] {
      var n := |totals| - 1;
      AggregateLocksAscend(e, totals[..n]);
      var before, locks := AggregateLocks(e, totals[..n]), AggregateLocks(e, totals);
      forall k | 0 <= k < |before|
        ensures before[k].ingredient < totals[n].0 && exists i :: 0 <= i < |totals| && totals[i].0 == before[k].ingredient
      {
        var i :| 0 <= i < n && totals[..n][i].0 == before[k].ingredient;
        assert totals[i].0 == before[k].ingredient;
      }
      assert totals[n].1 != 0 ==> locks[|before|].ingredient == totals[n].0;
    }
  }

  /** Source event, then quarantine row, then aggregates in ascending ingredient order. */
  lemma EveryPlanAscends(c: WasteCommand, e: Event, raw: Option<seq<(nat, int)>>)
    ensures AscendingPlan(WastePlan(c)) && AscendingPlan(DeliveryPlan(e, raw)) && AscendingPlan(ReplayPlan(e, raw))
  {
    if raw.Some? {
      AggregatedIsAscending(raw.value);
      AggregateLocksAscend(e, Aggregated(raw.value));
    }
    hide Aggregated, AggregateLocks;
  }

  /* The plans cover what the transactions write. */

  function LockOf(a: StockLedger.Aggregate): Lock {
    StockAggregate(a.branch, a.warehouse, a.ingredient)
  }

  lemma {:induction false} DepleteIsLocked(ledger: StockLedger.Ledger, e: Event, totals: seq<(nat, int)>)
    requires Deplete(ledger, e, totals).Ok?
    ensures var rows := Deplete(ledger, e, totals).value;
            forall i | |ledger| <= i < |rows| :: LockOf(rows[i].aggregate) in AggregateLocks(e, totals)
  {
    if totals != [] {
      DepleteIsLocked(ledger, e, totals[..|totals| - 1]);
    }
  }

  /** Every movement an applied order writes is under the lock of its aggregate, and the order under the lock of its
      source event, whether it is delivered or replayed; a replay also holds its record. */
  lemma MovementsAreLocked(s: State, e: Event, menu: Menu, resolver: Option<Resolver>)
    requires Apply(s, e, menu, resolver).Applied?
    ensures var raw, rows := Some(DepletionEffect.Requirements(e, menu, resolver)), Apply(s, e, menu, resolver).state.ledger;
            && SourceEvent(e.branch, e.order) in DeliveryPlan(e, raw) && SourceEvent(e.branch, e.order) in ReplayPlan(e, raw)
            && QuarantineRow(e.branch, e.order) in ReplayPlan(e, raw)
            && forall i | |s.ledger| <= i < |rows| ::
                 LockOf(rows[i].aggregate) in DeliveryPlan(e, raw) && LockOf(rows[i].aggregate) in ReplayPlan(e, raw)
  {
    var raw := DepletionEffect.Requirements(e, menu, resolver);
    hide Resolve, RawItems, TotalsInRange, HasMovements, HasEvent;
    DepleteIsLocked(s.ledger, e, Aggregated(raw));
    hide Aggregated, AggregateLocks, Deplete;
  }

  /** A quarantined order holds its record, and a waste its aggregate and its command id. */
  lemma OtherWritesAreLocked(e: Event, c: WasteCommand)
    ensures QuarantineRow(e.branch, e.order) in DeliveryPlan(e, None) && QuarantineRow(e.branch, e.order) in ReplayPlan(e, None)
    ensures LockOf(c.aggregate) in WastePlan(c) && WasteCommandId(c.id) in WastePlan(c)
  {
    assert DeliveryPlan(e, None)[1] == QuarantineRow(e.branch, e.order);
    assert ReplayPlan(e, None)[1] == QuarantineRow(e.branch, e.order);
    assert WastePlan(c)[0] == LockOf(c.aggregate) && WastePlan(c)[1] == WasteCommandId(c.id);
  }

  /* Transactions over locks. */

  /** Idle, or holding the first `taken` locks of its plan. */
  datatype Tx = Idle | Running(plan: seq<Lock>, taken: nat)

  type System = seq<Tx>

  predicate Holds(t: Tx, l: Lock) {
    t.Running? && t.taken <= |t.plan| && l in t.plan[..t.taken]
  }

  predicate Waiting(t: Tx) {
    t.Running? && t.taken < |t.plan|
  }

  function Wanted(t: Tx): Lock
    requires Waiting(t)
  {
    t.plan[t.taken]
  }

  predicate Free(s: System, i: nat, l: Lock) {
    forall j | 0 <= j < |s| && j != i :: !Holds(s[j], l)
  }

  /** The plans a transaction may start with are those above. */
  datatype Work =
    | WasteWork(command: WasteCommand)
    | DeliveryWork(event: Event, raw: Option<seq<(nat, int)>>)
    | ReplayWork(event: Event, raw: Option<seq<(nat, int)>>)

  function PlanOf(w: Work): seq<Lock> {
    match w
    case WasteWork(c) => WastePlan(c)
    case DeliveryWork(e, raw) => DeliveryPlan(e, raw)
    case ReplayWork(e, raw) => ReplayPlan(e, raw)
  }

  /** Begin, take the next lock, or end (commit or rollback, releasing everything). */
  datatype Step = Begin(tx: nat, work: Work) | Acquire(tx: nat) | End(tx: nat)

  function Next(s: System, step: Step): System {
    if step.tx >= |s| then s else
      var t := s[step.tx];
      match step
      case Begin(i, w) => if t.Idle? then s[i := Running(PlanOf(w), 0)] else s
      case Acquire(i) => if Waiting(t) && Free(s, i, Wanted(t)) then s[i := t.(taken := t.taken + 1)] else s
      case End(i) => s[i := Idle]
  }

  function Run(n: nat, steps: seq<Step>): System {
    if steps == [] then seq(n, _ => Idle) else Next(Run(n, steps[..|steps| - 1]), steps[|steps| - 1])
  }

  predicate Disciplined(t: Tx) {
    t.Running? ==> AscendingPlan(t.plan) && t.taken <= |t.plan|
  }

  ghost predicate Inv(s: System) {
    && (forall i | 0 <= i < |s| :: Disciplined(s[i]))
    && (forall i, j, l | 0 <= i < j < |s| && Holds(s[i], l) :: !Holds(s[j], l))
  }

  lemma PlanAscends(w: Work)
    ensures AscendingPlan(PlanOf(w))
  {
    match w {
      case WasteWork(c) => EveryPlanAscends(c, Event(0, 0, 0, []), None);
      case DeliveryWork(e, raw) => EveryPlanAscends(WasteCommand(0, StockLedger.Aggregate(0, 0, 0), 0), e, raw);
      case ReplayWork(e, raw) => EveryPlanAscends(WasteCommand(0, StockLedger.Aggregate(0, 0, 0), 0), e, raw);
    }
  }

  lemma NextKeepsInv(s: System, step: Step)
    requires Inv(s)
    ensures Inv(Next(s, step)) && |Next(s, step)| == |s|
  {
    if step.tx < |s| {
      var i, t := step.tx, s[step.tx];
      if step.Begin? {
        PlanAscends(step.work);
      }
      hide PlanOf, Below;
      if step.Acquire? && Waiting(t) && Free(s, i, Wanted(t)) {
        var t' := t.(taken := t.taken + 1);
        forall l | Holds(t', l)
          ensures Holds(t, l) || l == Wanted(t)
        {
          assert t'.plan[..t'.taken] == t.plan[..t.taken] + [Wanted(t)];
        }
      }
    }
  }

  /** No lock is ever held twice, and every transaction follows an ascending plan. */
  lemma {:induction false} EveryRunKeepsInv(n: nat, steps: seq<Step>)
    ensures Inv(Run(n, steps)) && |Run(n, steps)| == n
  {
    if steps != [] {
      EveryRunKeepsInv(n, steps[..|steps| - 1]);
      NextKeepsInv(Run(n, steps[..|steps| - 1]), steps[|steps| - 1]);
      hide Next, Inv;
    }
  }

  /* No circular wait. */

  /** i waits for a lock that j holds. */
  predicate WaitsFor(s: System, i: nat, j: nat)
    requires i < |s| && j < |s|
  {
    Waiting(s[i]) && i != j && Holds(s[j], Wanted(s[i]))
  }

  lemma HeldIsBelowWanted(t: Tx, l: Lock)
    requires Disciplined(t) && Waiting(t) && Holds(t, l)
    ensures Below(l, Wanted(t))
  {
    hide Below;
    var k :| 0 <= k < t.taken && t.plan[..t.taken][k] == l;
    assert t.plan[k] == l;
  }

  function After(cycle: seq<nat>, k: nat): nat
    requires k < |cycle|
  {
    if k + 1 == |cycle| then cycle[0] else cycle[k + 1]
  }

  predicate IsCycle(s: System, cycle: seq<nat>) {
    && cycle != [] && (forall k | 0 <= k < |cycle| :: cycle[k] < |s|)
    && (forall k | 0 <= k < |cycle| :: WaitsFor(s, cycle[k], After(cycle, k)))
  }

  /** Whoever is waited for, and waits, wants a higher lock. */
  lemma WantedRises(s: System, cycle: seq<nat>, k: nat)
    requires Inv(s) && IsCycle(s, cycle) && k < |cycle|
    ensures Waiting(s[cycle[k]]) && Waiting(s[After(cycle, k)])
    ensures Below(Wanted(s[cycle[k]]), Wanted(s[After(cycle, k)]))
  {
    hide Below;
    var next := if k + 1 == |cycle| then 0 else k + 1;
    assert WaitsFor(s, cycle[k], After(cycle, k)) && WaitsFor(s, cycle[next], After(cycle, next));
    assert Disciplined(s[cycle[next]]);
    HeldIsBelowWanted(s[cycle[next]], Wanted(s[cycle[k]]));
  }

  lemma {:induction false} ChainRises(s: System, cycle: seq<nat>, k: nat)
    requires Inv(s) && IsCycle(s, cycle) && 0 < k < |cycle|
    ensures Waiting(s[cycle[0]]) && Waiting(s[cycle[k]]) && Below(Wanted(s[cycle[0]]), Wanted(s[cycle[k]]))
  {
    WantedRises(s, cycle, k - 1);
    hide Below, Inv, IsCycle;
    if k > 1 {
      ChainRises(s, cycle, k - 1);
      BelowIsTotalOrder(Wanted(s[cycle[0]]), Wanted(s[cycle[k - 1]]), Wanted(s[cycle[k]]));
    }
  }

  /** In no reachable state do transactions wait for each other in a circle. */
  lemma NoCircularWait(n: nat, steps: seq<Step>, cycle: seq<nat>)
    ensures !IsCycle(Run(n, steps), cycle)
  {
    EveryRunKeepsInv(n, steps);
    var s := Run(n, steps);
    hide Run;
    if IsCycle(s, cycle) {
      var k := |cycle| - 1;
      WantedRises(s, cycle, k);
      if k > 0 {
        ChainRises(s, cycle, k);
      }
      BelowIsTotalOrder(Wanted(s[cycle[0]]), Wanted(s[cycle[k]]), Wanted(s[cycle[0]]));
      hide Below, Inv, IsCycle;
      assert false;
    }
  }

  /* Progress. */

  /** The transaction holds all it needs, or its next lock is free. */
  predicate CanGo(s: System, i: nat)
    requires i < |s|
  {
    s[i].Running? && (Waiting(s[i]) ==> Free(s, i, Wanted(s[i])))
  }

  /** Among the first n transactions, one that wants the highest lock. */
  lemma {:induction false} HighestWaiting(s: System, n: nat) returns (m: nat)
    requires n <= |s| && exists i :: 0 <= i < n && Waiting(s[i])
    ensures m < n && Waiting(s[m])
    ensures forall i | 0 <= i < n && Waiting(s[i]) :: !Below(Wanted(s[m]), Wanted(s[i]))
  {
    hide Below;
    if i :| 0 <= i < n - 1 && Waiting(s[i]) {
      m := HighestWaiting(s, n - 1);
      if Waiting(s[n - 1]) && Below(Wanted(s[m]), Wanted(s[n - 1])) {
        forall i | 0 <= i < n && Waiting(s[i])
          ensures !Below(Wanted(s[n - 1]), Wanted(s[i]))
        {
          BelowIsTotalOrder(Wanted(s[m]), Wanted(s[n - 1]), Wanted(s[i]));
          BelowIsTotalOrder(Wanted(s[i]), Wanted(s[i]), Wanted(s[i]));
        }
        m := n - 1;
      }
    } else {
      m := n - 1;
      BelowIsTotalOrder(Wanted(s[m]), Wanted(s[m]), Wanted(s[m]));
    }
  }

  /** In every reachable state with a running transaction, some running transaction is not blocked. */
  lemma SomeoneCanGo(n: nat, steps: seq<Step>, r: nat) returns (i: nat)
    requires r < |Run(n, steps)| && Run(n, steps)[r].Running?
    ensures i < |Run(n, steps)| && CanGo(Run(n, steps), i)
  {
    EveryRunKeepsInv(n, steps);
    var s := Run(n, steps);
    hide Run, Below;
    if !Waiting(s[r]) {
      return r;
    }
    var m := HighestWaiting(s, |s|);
    if Free(s, m, Wanted(s[m])) {
      return m;
    }
    var j :| 0 <= j < |s| && j != m && Holds(s[j], Wanted(s[m]));
    if Waiting(s[j]) {
      assert Disciplined(s[j]);
      HeldIsBelowWanted(s[j], Wanted(s[m]));
      assert false;
    }
    return j;
  }
}
