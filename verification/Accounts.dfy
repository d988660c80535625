/** Payable and receivable accounts of one organization: payments, reversals and repeats, with balances and
    statuses kept beside an append-only list of transactions. Amounts are scale-4 integers. */
module Accounts {
  import opened Results

  datatype Side = Payable | Receivable
  datatype Status = Pending | Partial | Paid | Overdue | Cancelled | Defaulted

  datatype Account = Account(branch: nat, total: int, balance: int, status: Status)

  /** A reversal names the transaction it reverses by its position. */
  datatype Kind = Apply | Reversal(of: nat)
  datatype Tx = Tx(account: nat, branch: nat, kind: Kind, amount: int, reference: nat, date: nat)

  datatype State = State(accounts: map<nat, Account>, txs: seq<Tx>)

  datatype Error =
    | ReferenceRequired | ReferenceConflict | NotFound | BranchMismatch | NotPositive | InvalidState | Overpayment
    | TransactionNotFound | NotAnApply | AlreadyReversed | ExceedsTotal

  /* The domain rules. */

  /** New balance and status after a payment or settlement. */
  function ApplyAmount(side: Side, balance: int, status: Status, amount: int): Result<(int, Status), Error> {
    if amount <= 0 then Err(NotPositive)
    else if status == Paid then Err(InvalidState)
    else if status == (if side == Payable then Cancelled else Defaulted) then Err(InvalidState)
    else if amount > balance then Err(Overpayment)
    else
      var rest := balance - amount;
      Ok((rest, if rest == 0 then Paid else if side == Payable then Partial else status))
  }

  /** New balance and status after a compensating reversal. */
  function ReverseAmount(side: Side, total: int, balance: int, status: Status, amount: int): Result<(int, Status), Error> {
    if amount <= 0 then Err(NotPositive)
    else if status == (if side == Payable then Cancelled else Defaulted) then Err(InvalidState)
    else if balance + amount > total then Err(ExceedsTotal)
    else Ok((balance + amount, if side == Receivable || balance + amount == total then Pending else Partial))
  }

  /** The status a payable must have at each balance. */
  function PayableStatus(total: int, balance: int): Status {
    if balance == 0 then Paid else if balance == total then Pending else Partial
  }

  /** A reversal undoes a payment: balance restored, and for a payable the status too. */
  lemma ReverseUndoesApply(side: Side, total: int, balance: int, status: Status, amount: int)
    requires 0 < balance <= total && ApplyAmount(side, balance, status, amount).Ok?
    requires side == Payable ==> status == PayableStatus(total, balance)
    requires side == Receivable ==> status == Pending
    ensures var (b, st) := ApplyAmount(side, balance, status, amount).value;
            ReverseAmount(side, total, b, st, amount) == Ok((balance, status))
  {
  }

  /* The transactions. */

  datatype ApplyCommand = ApplyCommand(account: nat, branch: nat, amount: int, reference: Option<nat>, date: Option<nat>)
  datatype ReverseCommand = ReverseCommand(account: nat, branch: nat, original: nat, reference: Option<nat>, date: Option<nat>)

  /** The transaction that already carries this reference. */
  function Find(txs: seq<Tx>, reference: nat): (r: Option<nat>)
    ensures r.Some? ==> r.value < |txs| && txs[r.value].reference == reference
    ensures r.None? ==> forall k | 0 <= k < |txs| :: txs[k].reference != reference
  {
    if txs == [] then None
    else if txs[|txs| - 1].reference == reference then Some(|txs| - 1)
    else Find(txs[..|txs| - 1], reference)
  }

  predicate DateMatches(persisted: nat, explicit: Option<nat>) {
    explicit.None? || explicit.value == persisted
  }

  predicate SameApply(t: Tx, c: ApplyCommand) {
    t.account == c.account && t.branch == c.branch && t.kind == Apply && t.amount == c.amount && DateMatches(t.date, c.date)
  }

  predicate SameReverse(t: Tx, c: ReverseCommand) {
    t.account == c.account && t.branch == c.branch && t.kind == Reversal(c.original) && DateMatches(t.date, c.date)
  }

  /** The sum of the reversals of transaction i. */
  function TotalReversed(txs: seq<Tx>, i: nat): int {
    if txs == [] then 0 else
      var t := txs[|txs| - 1];
      TotalReversed(txs[..|txs| - 1], i) + if t.kind == Reversal(i) then t.amount else 0
  }

  predicate IsReversed(txs: seq<Tx>, i: nat) {
    exists k :: 0 <= k < |txs| && txs[k].kind == Reversal(i)
  }

  /** Payables compare sums, receivables look for a reversal row. */
  predicate FullyReversed(side: Side, txs: seq<Tx>, i: nat)
    requires i < |txs|
  {
    if side == Payable then TotalReversed(txs, i) >= txs[i].amount else IsReversed(txs, i)
  }

  datatype Applied = Done(state: State) | Duplicate

  function DateOf(explicit: Option<nat>, now: nat): nat {
    if explicit.Some? then explicit.value else now
  }

  /** Applying a payment: the new state, or that it was applied before. `now` is the database clock. */
  function Pay(side: Side, s: State, c: ApplyCommand, now: nat): Result<Applied, Error> {
    if c.reference.None? then Err(ReferenceRequired)
    else match Find(s.txs, c.reference.value)
      case Some(i) => if SameApply(s.txs[i], c) then Ok(Duplicate) else Err(ReferenceConflict)
      case None =>
        if c.account !in s.accounts then Err(NotFound)
        else
          var a := s.accounts[c.account];
          if a.branch != c.branch then Err(BranchMismatch)
          else match ApplyAmount(side, a.balance, a.status, c.amount)
            case Err(e) => Err(e)
            case Ok((balance, status)) =>
              Ok(Done(State(s.accounts[c.account := a.(balance := balance, status := status)],
                            s.txs + [Tx(c.account, c.branch, Apply, c.amount, c.reference.value, DateOf(c.date, now))])))
  }

  /** Reversing a payment in full. */
  function Reverse(side: Side, s: State, c: ReverseCommand, now: nat): Result<Applied, Error> {
    if c.reference.None? then Err(ReferenceRequired)
    else match Find(s.txs, c.reference.value)
      case Some(i) => if SameReverse(s.txs[i], c) then Ok(Duplicate) else Err(ReferenceConflict)
      case None =>
        if c.account !in s.accounts then Err(NotFound)
        else
          var a := s.accounts[c.account];
          if a.branch != c.branch then Err(BranchMismatch)
          else if c.original >= |s.txs| || s.txs[c.original].account != c.account then Err(TransactionNotFound)
          else if s.txs[c.original].kind != Apply then Err(NotAnApply)
          else if FullyReversed(side, s.txs, c.original) then Err(AlreadyReversed)
          else match ReverseAmount(side, a.total, a.balance, a.status, s.txs[c.original].amount)
            case Err(e) => Err(e)
            case Ok((balance, status)) =>
              Ok(Done(State(s.accounts[c.account := a.(balance := balance, status := status)],
                            s.txs + [Tx(c.account, c.branch, Reversal(c.original), s.txs[c.original].amount,
                                        c.reference.value, DateOf(c.date, now))])))
  }

  /* Runs. */

  /** The tables require a positive total. */
  datatype Step =
    | Open(id: nat, branch: nat, total: int)
    | DoPay(pay: ApplyCommand, now: nat)
    | DoReverse(reverse: ReverseCommand, now: nat)

  const EMPTY := State(map[], [])

  function After(s: State, r: Result<Applied, Error>): State {
    match r
    case Ok(Done(t)) => t
    case _ => s
  }

  function Next(side: Side, s: State, step: Step): State {
    match step
    case Open(id, branch, total) =>
      if id in s.accounts || total <= 0 then s
      else s.(accounts := s.accounts[id := Account(branch, total, total, Pending)])
    case DoPay(c, now) => After(s, Pay(side, s, c, now))
    case DoReverse(c, now) => After(s, Reverse(side, s, c, now))
  }

  function Run(side: Side, steps: seq<Step>): State {
    if steps == [] then EMPTY else Next(side, Run(side, steps[..|steps| - 1]), steps[|steps| - 1])
  }

  /* What every run keeps. */

  /** What the account has been paid by the first n transactions that no transaction of the list reverses. */
  function Unreversed(txs: seq<Tx>, account: nat, n: nat): int
    requires n <= |txs|
  {
    if n == 0 then 0 else
      var t := txs[n - 1];
      Unreversed(txs, account, n - 1)
      + if t.kind == Apply && t.account == account && !IsReversed(txs, n - 1) then t.amount else 0
  }

  predicate TxOk(s: State, i: nat)
    requires i < |s.txs|
  {
    var t := s.txs[i];
    && t.account in s.accounts && t.amount > 0
    && (t.kind.Reversal? ==>
          && t.kind.of < i && s.txs[t.kind.of].kind == Apply && s.txs[t.kind.of].account == t.account
          && s.txs[t.kind.of].amount == t.amount)
  }

  /** No payment is reversed twice and no reference is used twice. */
  predicate Unique(txs: seq<Tx>) {
    forall i, j | 0 <= i < j < |txs| ::
      && txs[i].reference != txs[j].reference
      && (txs[i].kind.Reversal? ==> txs[j].kind != txs[i].kind)
  }

  predicate AccountOk(side: Side, s: State, id: nat)
    requires id in s.accounts
  {
    var a := s.accounts[id];
    && 0 < a.total && 0 <= a.balance <= a.total
    && a.balance == a.total - Unreversed(s.txs, id, |s.txs|)
    && (side == Payable ==> a.status == PayableStatus(a.total, a.balance))
    && (side == Receivable ==> (a.status == Paid || a.status == Pending) && (a.status == Paid <==> a.balance == 0))
  }

  predicate Inv(side: Side, s: State) {
    && (forall i | 0 <= i < |s.txs| :: TxOk(s, i)) && Unique(s.txs)
    && (forall id | id in s.accounts :: AccountOk(side, s, id))
  }

  lemma ReversedNext(txs: seq<Tx>, t: Tx, i: nat)
    ensures IsReversed(txs + [t], i) <==> IsReversed(txs, i) || t.kind == Reversal(i)
  {
    var after := txs + [t];
    if k :| 0 <= k < |txs| && txs[k].kind == Reversal(i) {
      assert after[k].kind == Reversal(i);
    }
    if t.kind == Reversal(i) {
      assert after[|txs|].kind == Reversal(i);
    }
  }

  /** Appending a transaction changes what an account has been paid only at the payment it reverses. */
  lemma {:induction false} UnreversedPart(txs: seq<Tx>, t: Tx, account: nat, n: nat)
    requires n <= |txs| && (t.kind.Reversal? ==> t.kind.of < |txs|)
    ensures Unreversed(txs + [t], account, n)
         == Unreversed(txs, account, n)
            - if t.kind.Reversal? && t.kind.of < n && txs[t.kind.of].kind == Apply && txs[t.kind.of].account == account
                 && !IsReversed(txs, t.kind.of)
              then txs[t.kind.of].amount else 0
  {
    if n > 0 {
      UnreversedPart(txs, t, account, n - 1);
      ReversedNext(txs, t, n - 1);
      hide IsReversed;
    }
  }

  lemma UnreversedNext(txs: seq<Tx>, t: Tx, account: nat)
    requires t.kind.Reversal? ==> t.kind.of < |txs| && txs[t.kind.of].kind == Apply && !IsReversed(txs, t.kind.of)
    requires !IsReversed(txs, |txs|)
    ensures Unreversed(txs + [t], account, |txs| + 1)
         == Unreversed(txs, account, |txs|)
            + (if t.kind == Apply && t.account == account then t.amount else 0)
            - (if t.kind.Reversal? && txs[t.kind.of].account == account then txs[t.kind.of].amount else 0)
  {
    UnreversedPart(txs, t, account, |txs|);
    ReversedNext(txs, t, |txs|);
    hide IsReversed;
    assert (txs + [t])[|txs|] == t;
  }

  /** A payment that has been reversed was reversed by its whole amount, so both tests agree. */
  lemma {:induction false} ReversedInFull(s: State, i: nat, n: nat)
    requires n <= |s.txs| && i < |s.txs| && Unique(s.txs) && forall k | 0 <= k < |s.txs| :: TxOk(s, k)
    ensures TotalReversed(s.txs[..n], i) == if IsReversed(s.txs[..n], i) then s.txs[i].amount else 0
  {
    if n > 0 {
      ReversedInFull(s, i, n - 1);
      var before, t := s.txs[..n - 1], s.txs[n - 1];
      assert s.txs[..n] == before + [t] && s.txs[..n][..n - 1] == before;
      ReversedNext(before, t, i);
      if t.kind == Reversal(i) {
        assert TxOk(s, n - 1);
        forall k | 0 <= k < n - 1
          ensures before[k].kind != Reversal(i)
        {
          assert before[k] == s.txs[k];
        }
      }
    }
  }

  lemma FullyReversedExactly(side: Side, s: State, i: nat)
    requires i < |s.txs| && Unique(s.txs) && forall k | 0 <= k < |s.txs| :: TxOk(s, k)
    ensures FullyReversed(side, s.txs, i) <==> IsReversed(s.txs, i)
  {
    ReversedInFull(s, i, |s.txs|);
    assert s.txs[..|s.txs|] == s.txs;
    assert TxOk(s, i);
    hide IsReversed, TotalReversed;
  }

  /** An unreversed payment is part of what the account has been paid. */
  lemma {:induction false} PaymentIsPart(s: State, i: nat, n: nat)
    requires n <= |s.txs| && forall k | 0 <= k < |s.txs| :: TxOk(s, k)
    ensures Unreversed(s.txs, s.txs[i].account, n) >= 0
    ensures i < n && s.txs[i].kind == Apply && !IsReversed(s.txs, i) ==>
              Unreversed(s.txs, s.txs[i].account, n) >= s.txs[i].amount
    requires i < |s.txs|
  {
    hide IsReversed;
    if n > 0 {
      PaymentIsPart(s, i, n - 1);
      assert TxOk(s, n - 1);
    }
  }

  lemma NotYetReversed(s: State)
    requires forall k | 0 <= k < |s.txs| :: TxOk(s, k)
    ensures !IsReversed(s.txs, |s.txs|)
  {
    forall k | 0 <= k < |s.txs|
      ensures s.txs[k].kind != Reversal(|s.txs|)
    {
      assert TxOk(s, k);
    }
  }

  /** Other accounts keep their balance law. */
  lemma OtherAccounts(side: Side, s: State, t: State, tx: Tx, id: nat)
    requires Inv(side, s) && t.txs == s.txs + [tx] && id in s.accounts && id in t.accounts
    requires t.accounts[id] == s.accounts[id] && tx.account != id
    requires tx.kind.Reversal? ==> tx.kind.of < |s.txs| && s.txs[tx.kind.of].kind == Apply
                                   && !IsReversed(s.txs, tx.kind.of) && s.txs[tx.kind.of].account == tx.account
    ensures AccountOk(side, t, id)
  {
    assert AccountOk(side, s, id);
    NotYetReversed(s);
    UnreversedNext(s.txs, tx, id);
    hide IsReversed, Unreversed;
  }

  lemma TxsStayOk(s: State, t: State, tx: Tx)
    requires (forall k | 0 <= k < |s.txs| :: TxOk(s, k)) && Unique(s.txs) && t.txs == s.txs + [tx]
    requires (forall id | id in s.accounts :: id in t.accounts) && tx.account in t.accounts && tx.amount > 0
    requires forall k | 0 <= k < |s.txs| :: s.txs[k].reference != tx.reference
    requires tx.kind.Reversal? ==>
               && tx.kind.of < |s.txs| && s.txs[tx.kind.of].kind == Apply && s.txs[tx.kind.of].account == tx.account
               && s.txs[tx.kind.of].amount == tx.amount && !IsReversed(s.txs, tx.kind.of)
    ensures (forall k | 0 <= k < |t.txs| :: TxOk(t, k)) && Unique(t.txs)
  {
    forall k | 0 <= k < |t.txs|
      ensures TxOk(t, k)
    {
      if k < |s.txs| {
        assert TxOk(s, k) && t.txs[k] == s.txs[k];
      }
    }
    if tx.kind.Reversal? {
      forall i | 0 <= i < |s.txs|
        ensures s.txs[i].kind != tx.kind
      {
      }
    }
  }

  lemma PayKeepsInv(side: Side, s: State, c: ApplyCommand, now: nat)
    requires Inv(side, s)
    ensures Inv(side, After(s, Pay(side, s, c, now)))
  {
    var r := Pay(side, s, c, now);
    if r.Ok? && r.value.Done? {
      var t, tx := r.value.state, r.value.state.txs[|s.txs|];
      assert AccountOk(side, s, c.account);
      TxsStayOk(s, t, tx);
      NotYetReversed(s);
      UnreversedNext(s.txs, tx, c.account);
      hide IsReversed, Unreversed, Unique;
      forall id | id in t.accounts
        ensures AccountOk(side, t, id)
      {
        if id != c.account {
          OtherAccounts(side, s, t, tx, id);
        }
      }
    }
  }

  lemma ReverseKeepsInv(side: Side, s: State, c: ReverseCommand, now: nat)
    requires Inv(side, s)
    ensures Inv(side, After(s, Reverse(side, s, c, now)))
  {
    var r := Reverse(side, s, c, now);
    if r.Ok? && r.value.Done? {
      var t, tx := r.value.state, r.value.state.txs[|s.txs|];
      assert AccountOk(side, s, c.account) && TxOk(s, c.original);
      FullyReversedExactly(side, s, c.original);
      TxsStayOk(s, t, tx);
      NotYetReversed(s);
      UnreversedNext(s.txs, tx, c.account);
      hide IsReversed, Unreversed, Unique, FullyReversed;
      forall id | id in t.accounts
        ensures AccountOk(side, t, id)
      {
        if id != c.account {
          OtherAccounts(side, s, t, tx, id);
        }
      }
    }
  }

  lemma OpenKeepsInv(side: Side, s: State, id: nat, branch: nat, total: int)
    requires Inv(side, s)
    ensures Inv(side, Next(side, s, Open(id, branch, total)))
  {
    var t := Next(side, s, Open(id, branch, total));
    if id !in s.accounts && total > 0 {
      NothingPaid(s, id, |s.txs|);
      hide Unique, IsReversed;
      forall k | 0 <= k < |t.txs|
        ensures TxOk(t, k)
      {
        assert TxOk(s, k);
      }
      forall other | other in s.accounts
        ensures AccountOk(side, t, other)
      {
        assert AccountOk(side, s, other);
      }
    }
  }

  lemma {:induction false} NothingPaid(s: State, id: nat, n: nat)
    requires n <= |s.txs| && id !in s.accounts && forall k | 0 <= k < |s.txs| :: TxOk(s, k)
    ensures Unreversed(s.txs, id, n) == 0
  {
    hide IsReversed;
    if n > 0 {
      NothingPaid(s, id, n - 1);
      assert TxOk(s, n - 1);
    }
  }

  /** Every run of payments, reversals and repeats: the balance is the total less the unreversed payments and stays
      between zero and the total; the status says which; no payment is reversed twice and no reference used twice. */
  lemma {:induction false} EveryRunKeepsInv(side: Side, steps: seq<Step>)
    ensures Inv(side, Run(side, steps))
  {
    if steps != [] {
      EveryRunKeepsInv(side, steps[..|steps| - 1]);
      var s := Run(side, steps[..|steps| - 1]);
      match steps[|steps| - 1] {
        case Open(id, branch, total) => OpenKeepsInv(side, s, id, branch, total);
        case DoPay(c, now) => PayKeepsInv(side, s, c, now);
        case DoReverse(c, now) => ReverseKeepsInv(side, s, c, now);
      }
      hide Inv, Pay, Reverse;
    }
  }

  /** The guard against a balance above the total never fires. */
  lemma ExceedsTotalNeverFires(side: Side, s: State, c: ReverseCommand, now: nat)
    requires Inv(side, s)
    ensures Reverse(side, s, c, now) != Err(ExceedsTotal)
  {
    if c.original < |s.txs| && c.account in s.accounts && s.txs[c.original].account == c.account {
      assert AccountOk(side, s, c.account) && TxOk(s, c.original);
      FullyReversedExactly(side, s, c.original);
      PaymentIsPart(s, c.original, |s.txs|);
      hide IsReversed, Unreversed, Unique, FullyReversed;
    }
  }

  /* When a payment or a reversal goes through. */

  predicate Fresh(s: State, reference: Option<nat>) {
    reference.Some? && forall k | 0 <= k < |s.txs| :: s.txs[k].reference != reference.value
  }

  /** A known account of the branch that owes at least the amount. */
  predicate MayPay(s: State, c: ApplyCommand) {
    && c.account in s.accounts && s.accounts[c.account].branch == c.branch
    && 0 < c.amount <= s.accounts[c.account].balance
  }

  /** The amount leaves the balance, which is PAID at zero and not before; one transaction is added. */
  predicate Payment(side: Side, s: State, t: State, c: ApplyCommand, now: nat)
    requires c.account in s.accounts && c.reference.Some?
  {
    var a := s.accounts[c.account];
    && t.accounts.Keys == s.accounts.Keys
    && (forall id | id in s.accounts && id != c.account :: t.accounts[id] == s.accounts[id])
    && t.accounts[c.account].branch == a.branch && t.accounts[c.account].total == a.total
    && t.accounts[c.account].balance == a.balance - c.amount
    && (t.accounts[c.account].status == Paid <==> c.amount == a.balance)
    && t.txs == s.txs + [Tx(c.account, c.branch, Apply, c.amount, c.reference.value,
                            if c.date.Some? then c.date.value else now)]
  }

  predicate PayRefusal(s: State, c: ApplyCommand, e: Error) {
    if c.account !in s.accounts then e == NotFound
    else if s.accounts[c.account].branch != c.branch then e == BranchMismatch
    else if c.amount <= 0 then e == NotPositive
    else if s.accounts[c.account].balance == 0 then e == InvalidState
    else e == Overpayment && c.amount > s.accounts[c.account].balance
  }

  /** A payment under a fresh reference goes through exactly when it may, for every amount up to the balance, and
      otherwise says why not. */
  lemma PaysExactly(side: Side, s: State, c: ApplyCommand, now: nat)
    requires Inv(side, s) && Fresh(s, c.reference)
    ensures Pay(side, s, c, now).Ok? <==> MayPay(s, c)
    ensures Pay(side, s, c, now).Ok? ==>
              Pay(side, s, c, now).value.Done? && Payment(side, s, Pay(side, s, c, now).value.state, c, now)
    ensures Pay(side, s, c, now).Err? ==> PayRefusal(s, c, Pay(side, s, c, now).error)
  {
    FindsNone(s.txs, c.reference.value);
    hide Find, Unique, IsReversed, Unreversed;
    if c.account in s.accounts {
      assert AccountOk(side, s, c.account);
    }
    hide TxOk;
  }

  lemma FindsNone(txs: seq<Tx>, reference: nat)
    requires forall k | 0 <= k < |txs| :: txs[k].reference != reference
    ensures Find(txs, reference) == None
  {
  }

  /** An unreversed payment of a known account and branch. */
  predicate MayReverse(s: State, c: ReverseCommand) {
    && c.account in s.accounts && s.accounts[c.account].branch == c.branch
    && c.original < |s.txs| && s.txs[c.original].account == c.account && s.txs[c.original].kind == Apply
    && !IsReversed(s.txs, c.original)
  }

  /** The whole amount comes back to the balance; one transaction is added, which names the payment. */
  predicate Compensation(side: Side, s: State, t: State, c: ReverseCommand, now: nat)
    requires c.account in s.accounts && c.original < |s.txs| && c.reference.Some?
  {
    var a, amount := s.accounts[c.account], s.txs[c.original].amount;
    && t.accounts.Keys == s.accounts.Keys
    && (forall id | id in s.accounts && id != c.account :: t.accounts[id] == s.accounts[id])
    && t.accounts[c.account].branch == a.branch && t.accounts[c.account].total == a.total
    && t.accounts[c.account].balance == a.balance + amount && t.accounts[c.account].status != Paid
    && t.txs == s.txs + [Tx(c.account, c.branch, Reversal(c.original), amount, c.reference.value,
                            if c.date.Some? then c.date.value else now)]
  }

  predicate ReverseRefusal(s: State, c: ReverseCommand, e: Error) {
    if c.account !in s.accounts then e == NotFound
    else if s.accounts[c.account].branch != c.branch then e == BranchMismatch
    else if c.original >= |s.txs| || s.txs[c.original].account != c.account then e == TransactionNotFound
    else if s.txs[c.original].kind.Reversal? then e == NotAnApply
    else e == AlreadyReversed && IsReversed(s.txs, c.original)
  }

  /** A reversal under a fresh reference goes through exactly when its original is an unreversed payment of that
      account, and otherwise says why not. */
  lemma ReversesExactly(side: Side, s: State, c: ReverseCommand, now: nat)
    requires Inv(side, s) && Fresh(s, c.reference)
    ensures Reverse(side, s, c, now).Ok? <==> MayReverse(s, c)
    ensures Reverse(side, s, c, now).Ok? ==>
              Reverse(side, s, c, now).value.Done? && Compensation(side, s, Reverse(side, s, c, now).value.state, c, now)
    ensures Reverse(side, s, c, now).Err? ==> ReverseRefusal(s, c, Reverse(side, s, c, now).error)
  {
    FindsNone(s.txs, c.reference.value);
    if c.account in s.accounts {
      assert AccountOk(side, s, c.account);
      if c.original < |s.txs| && s.txs[c.original].account == c.account {
        assert TxOk(s, c.original);
        FullyReversedExactly(side, s, c.original);
        PaymentIsPart(s, c.original, |s.txs|);
      }
    }
    hide Find, Unique, IsReversed, Unreversed, FullyReversed;
  }

  /** In every run the whole balance of an account that owes something can be paid, and that leaves it at zero and
      PAID. */
  lemma BalanceCanBePaid(side: Side, steps: seq<Step>, c: ApplyCommand, now: nat)
    requires var s := Run(side, steps);
             && Fresh(s, c.reference) && c.account in s.accounts && s.accounts[c.account].branch == c.branch
             && c.amount == s.accounts[c.account].balance > 0
    ensures var s' := Run(side, steps + [DoPay(c, now)]);
            c.account in s'.accounts && s'.accounts[c.account].balance == 0 && s'.accounts[c.account].status == Paid
  {
    EveryRunKeepsInv(side, steps);
    PaysExactly(side, Run(side, steps), c, now);
    assert (steps + [DoPay(c, now)])[..|steps|] == steps;
    hide Inv, Pay, Fresh;
  }

  /** In every run an unreversed payment can be reversed, which restores the balance it had before that payment less
      what was paid since. */
  lemma PaymentCanBeReversed(side: Side, steps: seq<Step>, c: ReverseCommand, now: nat)
    requires var s := Run(side, steps); Fresh(s, c.reference) && MayReverse(s, c)
    ensures var s, s' := Run(side, steps), Run(side, steps + [DoReverse(c, now)]);
            && c.account in s'.accounts && IsReversed(s'.txs, c.original)
            && s'.accounts[c.account].balance == s.accounts[c.account].balance + s.txs[c.original].amount
  {
    EveryRunKeepsInv(side, steps);
    var s := Run(side, steps);
    ReversesExactly(side, s, c, now);
    assert (steps + [DoReverse(c, now)])[..|steps|] == steps;
    hide Inv, Reverse, Fresh;
    var s' := Run(side, steps + [DoReverse(c, now)]);
    assert s'.txs[|s.txs|].kind == Reversal(c.original);
  }

  /* What a reference settles, it settles for good. */

  lemma NextKeepsTxs(side: Side, s: State, step: Step)
    ensures s.txs <= Next(side, s, step).txs
  {
    hide Find, FullyReversed;
  }

  lemma {:induction false} RunKeepsTxs(side: Side, steps: seq<Step>, more: seq<Step>)
    ensures Run(side, steps).txs <= Run(side, steps + more).txs
  {
    hide Next;
    if more == [] {
      assert steps + more == steps;
    } else {
      var n := |more| - 1;
      RunKeepsTxs(side, steps, more[..n]);
      assert (steps + more)[..|steps| + n] == steps + more[..n];
      NextKeepsTxs(side, Run(side, steps + more[..n]), more[n]);
    }
  }

  lemma FindsTheOne(side: Side, s: State, k: nat)
    requires Inv(side, s) && k < |s.txs|
    ensures Find(s.txs, s.txs[k].reference) == Some(k)
  {
    var r := Find(s.txs, s.txs[k].reference);
    hide Find;
  }

  /** A reference that some run has used is settled: in every later state a command that repeats the transaction is
      answered as a duplicate, any other is refused, and neither changes anything. */
  lemma ReferenceIsSettled(
    side: Side, steps: seq<Step>, more: seq<Step>, k: nat, pay: ApplyCommand, reverse: ReverseCommand, now: nat)
    requires k < |Run(side, steps).txs|
    requires pay.reference == reverse.reference == Some(Run(side, steps).txs[k].reference)
    ensures var tx, s := Run(side, steps).txs[k], Run(side, steps + more);
            && Pay(side, s, pay, now) == (if SameApply(tx, pay) then Ok(Duplicate) else Err(ReferenceConflict))
            && Reverse(side, s, reverse, now) == (if SameReverse(tx, reverse) then Ok(Duplicate) else Err(ReferenceConflict))
            && After(s, Pay(side, s, pay, now)) == After(s, Reverse(side, s, reverse, now)) == s
  {
    hide Run, Inv, Find, FullyReversed, SameApply, SameReverse;
    RunKeepsTxs(side, steps, more);
    EveryRunKeepsInv(side, steps + more);
    FindsTheOne(side, Run(side, steps + more), k);
  }

  lemma PaidIsLast(side: Side, s: State, c: ApplyCommand, now: nat)
    requires Pay(side, s, c, now).Ok?
    ensures var t := After(s, Pay(side, s, c, now));
            exists k :: 0 <= k < |t.txs| && c.reference == Some(t.txs[k].reference) && SameApply(t.txs[k], c)
  {
    var t := After(s, Pay(side, s, c, now));
    var found := Find(s.txs, c.reference.value);
    hide Find;
    var k := if found.Some? then found.value else |s.txs|;
    assert c.reference == Some(t.txs[k].reference) && SameApply(t.txs[k], c);
  }

  lemma ReversedIsLast(side: Side, s: State, c: ReverseCommand, now: nat)
    requires Reverse(side, s, c, now).Ok?
    ensures var t := After(s, Reverse(side, s, c, now));
            exists k :: 0 <= k < |t.txs| && c.reference == Some(t.txs[k].reference) && SameReverse(t.txs[k], c)
  {
    var t := After(s, Reverse(side, s, c, now));
    var found := Find(s.txs, c.reference.value);
    hide Find, FullyReversed;
    var k := if found.Some? then found.value else |s.txs|;
    assert c.reference == Some(t.txs[k].reference) && SameReverse(t.txs[k], c);
  }

  /** A payment that went through is answered as a duplicate in every later state, whatever ran in between. */
  lemma PaidIsDuplicateLater(side: Side, steps: seq<Step>, c: ApplyCommand, now: nat, more: seq<Step>, later: nat)
    requires Pay(side, Run(side, steps), c, now).Ok?
    ensures Pay(side, Run(side, steps + [DoPay(c, now)] + more), c, later) == Ok(Duplicate)
  {
    var s, done := Run(side, steps), steps + [DoPay(c, now)];
    assert done[..|steps|] == steps;
    assert Run(side, done) == After(s, Pay(side, s, c, now));
    PaidIsLast(side, s, c, now);
    hide Run, Pay, After, SameApply;
    var t := Run(side, done);
    var k :| 0 <= k < |t.txs| && c.reference == Some(t.txs[k].reference) && SameApply(t.txs[k], c);
    ReferenceIsSettled(side, done, more, k, c, ReverseCommand(0, 0, 0, c.reference, None), later);
  }

  /** So is a reversal. */
  lemma ReversedIsDuplicateLater(side: Side, steps: seq<Step>, c: ReverseCommand, now: nat, more: seq<Step>, later: nat)
    requires Reverse(side, Run(side, steps), c, now).Ok?
    ensures Reverse(side, Run(side, steps + [DoReverse(c, now)] + more), c, later) == Ok(Duplicate)
  {
    var s, done := Run(side, steps), steps + [DoReverse(c, now)];
    assert done[..|steps|] == steps;
    assert Run(side, done) == After(s, Reverse(side, s, c, now));
    ReversedIsLast(side, s, c, now);
    hide Run, Reverse, After, SameReverse;
    var t := Run(side, done);
    var k :| 0 <= k < |t.txs| && c.reference == Some(t.txs[k].reference) && SameReverse(t.txs[k], c);
    ReferenceIsSettled(side, done, more, k, ApplyCommand(0, 0, 0, c.reference, None), c, later);
  }

  /** A payment is reversed at most once: after a reversal, in every later state, every command is answered without a
      second one. */
  lemma ReversedOnce(side: Side, steps: seq<Step>, more: seq<Step>, c: ReverseCommand, now: nat)
    requires c.original < |Run(side, steps).txs| && IsReversed(Run(side, steps).txs, c.original)
    ensures var s := Run(side, steps + more);
            After(s, Reverse(side, s, c, now)) == s && IsReversed(s.txs, c.original)
  {
    var s := Run(side, steps + more);
    var k :| 0 <= k < |Run(side, steps).txs| && Run(side, steps).txs[k].kind == Reversal(c.original);
    RunKeepsTxs(side, steps, more);
    EveryRunKeepsInv(side, steps + more);
    hide Run;
    assert s.txs[k].kind == Reversal(c.original);
    FullyReversedExactly(side, s, c.original);
    hide IsReversed, FullyReversed;
  }

  /* The service. */

  class FinanceService {
    const side: Side
    var accounts: map<nat, Account>
    var txs: seq<Tx>

    function View(): State
      reads this
    {
      State(accounts, txs)
    }

    constructor (side: Side)
      ensures this.side == side && View() == EMPTY
    {
      this.side, accounts, txs := side, map[], [];
    }

    /** `applyAccountsPayablePayment` and `settleReceivable`; the result says whether it was applied before. */
    method ApplyPayment(c: ApplyCommand, now: nat) returns (result: Result<bool, Error>)
      requires Inv(side, View())
      modifies this
      ensures Inv(side, View()) && View() == After(old(View()), Pay(side, old(View()), c, now))
      ensures match Pay(side, old(View()), c, now)
              case Ok(r) => result == Ok(r.Duplicate?)
              case Err(e) => result == Err(e)
      ensures result == Err(ReferenceRequired) <==> c.reference.None?
      ensures Fresh(old(View()), c.reference) ==>
                && (result == Ok(false) <==> MayPay(old(View()), c)) && result != Ok(true)
                && (result.Ok? ==> Payment(side, old(View()), View(), c, now))
                && (result.Err? ==> View() == old(View()) && PayRefusal(old(View()), c, result.error))
    {
      PayKeepsInv(side, View(), c, now);
      if Fresh(View(), c.reference) {
        PaysExactly(side, View(), c, now);
      }
      hide Inv, Find, Fresh, MayPay, Payment, PayRefusal;
      if c.reference.None? {
        return Err(ReferenceRequired);
      }
      var existing := Find(txs, c.reference.value);
      if existing.Some? {
        if !SameApply(txs[existing.value], c) {
          return Err(ReferenceConflict);
        }
        return Ok(true);
      }
      if c.account !in accounts {
        return Err(NotFound);
      }
      var current := accounts[c.account];
      if current.branch != c.branch {
        return Err(BranchMismatch);
      }
      var changed :- ApplyAmount(side, current.balance, current.status, c.amount);
      txs := txs + [Tx(c.account, c.branch, Apply, c.amount, c.reference.value, DateOf(c.date, now))];
      accounts := accounts[c.account := current.(balance := changed.0, status := changed.1)];
      return Ok(false);
    }

    /** `reverseAccountsPayablePayment` and the receivable reversal. */
    method ReversePayment(c: ReverseCommand, now: nat) returns (result: Result<bool, Error>)
      requires Inv(side, View())
      modifies this
      ensures Inv(side, View()) && View() == After(old(View()), Reverse(side, old(View()), c, now))
      ensures match Reverse(side, old(View()), c, now)
              case Ok(r) => result == Ok(r.Duplicate?)
              case Err(e) => result == Err(e) && e != ExceedsTotal
      ensures result == Err(ReferenceRequired) <==> c.reference.None?
      ensures Fresh(old(View()), c.reference) ==>
                && (result == Ok(false) <==> MayReverse(old(View()), c)) && result != Ok(true)
                && (result.Ok? ==> Compensation(side, old(View()), View(), c, now))
                && (result.Err? ==> View() == old(View()) && ReverseRefusal(old(View()), c, result.error))
    {
      ReverseKeepsInv(side, View(), c, now);
      ExceedsTotalNeverFires(side, View(), c, now);
      if Fresh(View(), c.reference) {
        ReversesExactly(side, View(), c, now);
      }
      hide Inv, Find, FullyReversed, Fresh, MayReverse, Compensation, ReverseRefusal;
      if c.reference.None? {
        return Err(ReferenceRequired);
      }
      var existing := Find(txs, c.reference.value);
      if existing.Some? {
        if !SameReverse(txs[existing.value], c) {
          return Err(ReferenceConflict);
        }
        return Ok(true);
      }
      if c.account !in accounts {
        return Err(NotFound);
      }
      var current := accounts[c.account];
      if current.branch != c.branch {
        return Err(BranchMismatch);
      }
      if c.original >= |txs| || txs[c.original].account != c.account {
        return Err(TransactionNotFound);
      }
      var payment := txs[c.original];
      if payment.kind != Apply {
        return Err(NotAnApply);
      }
      if FullyReversed(side, txs, c.original) {
        return Err(AlreadyReversed);
      }
      var changed :- ReverseAmount(side, current.total, current.balance, current.status, payment.amount);
      txs := txs + [Tx(c.account, c.branch, Reversal(c.original), payment.amount, c.reference.value, DateOf(c.date, now))];
      accounts := accounts[c.account := current.(balance := changed.0, status := changed.1)];
      return Ok(false);
    }
  }
}
