/** The append-only stock ledger: per (branch, warehouse, ingredient) a numbered list of deltas with running
    balances, all amounts scale-4 integers. */
module StockLedger {
  datatype Aggregate = Aggregate(branch: nat, warehouse: nat, ingredient: nat)
  datatype Kind = Merma | ConsumoKds

  datatype Row = Row(aggregate: Aggregate, kind: Kind, reference: nat, delta: int, balanceAfter: int, sequenceNumber: int)

  type Ledger = seq<Row>

  /** `COALESCE(SUM(quantity_delta), 0)`. */
  function Sum(rows: Ledger, a: Aggregate): int {
    if rows == [] then 0 else
      var last := rows[|rows| - 1];
      Sum(rows[..|rows| - 1], a) + if last.aggregate == a then last.delta else 0
  }

  /** `COALESCE(MAX(movement_sequence_number), 0)`. */
  function MaxSequence(rows: Ledger, a: Aggregate): int {
    if rows == [] then 0 else
      var rest, last := MaxSequence(rows[..|rows| - 1], a), rows[|rows| - 1];
      if last.aggregate == a && last.sequenceNumber > rest then last.sequenceNumber else rest
  }

  function Count(rows: Ledger, a: Aggregate): nat {
    if rows == [] then 0 else
      Count(rows[..|rows| - 1], a) + if rows[|rows| - 1].aggregate == a then 1 else 0
  }

  function NextRow(rows: Ledger, a: Aggregate, kind: Kind, reference: nat, delta: int): Row {
    Row(a, kind, reference, delta, Sum(rows, a) + delta, MaxSequence(rows, a) + 1)
  }

  /** Every row carries the balance up to and including itself and its own position within the aggregate. */
  predicate LedgerOk(rows: Ledger) {
    forall i | 0 <= i < |rows| :: RowOk(rows, i)
  }

  predicate RowOk(rows: Ledger, i: nat)
    requires i < |rows|
  {
    && rows[i].balanceAfter == Sum(rows[..i + 1], rows[i].aggregate)
    && rows[i].sequenceNumber == Count(rows[..i], rows[i].aggregate) + 1
  }

  lemma RowsBefore(rows: Ledger, n: nat)
    requires LedgerOk(rows) && n <= |rows|
    ensures LedgerOk(rows[..n])
  {
    forall i | 0 <= i < n
      ensures RowOk(rows[..n], i)
    {
      assert RowOk(rows, i);
      assert rows[..n][..i] == rows[..i] && rows[..n][..i + 1] == rows[..i + 1];
    }
  }

  /** The next sequence number is one more than the number of rows. */
  lemma {:induction false} MaxSequenceIsCount(rows: Ledger, a: Aggregate)
    requires LedgerOk(rows)
    ensures MaxSequence(rows, a) == Count(rows, a)
  {
    if rows != [] {
      var n := |rows| - 1;
      RowsBefore(rows, n);
      MaxSequenceIsCount(rows[..n], a);
      assert RowOk(rows, n);
    }
  }

  lemma AppendKeepsLedger(rows: Ledger, a: Aggregate, kind: Kind, reference: nat, delta: int)
    requires LedgerOk(rows)
    ensures LedgerOk(rows + [NextRow(rows, a, kind, reference, delta)])
  {
    var row := NextRow(rows, a, kind, reference, delta);
    var after := rows + [row];
    MaxSequenceIsCount(rows, a);
    forall i | 0 <= i < |after|
      ensures RowOk(after, i)
    {
      if i < |rows| {
        assert RowOk(rows, i);
        assert after[..i] == rows[..i] && after[..i + 1] == rows[..i + 1];
      } else {
        assert after[..i] == rows && after[..i + 1] == after;
      }
    }
  }

  lemma {:induction false} CountGrows(rows: Ledger, a: Aggregate, i: nat, j: nat)
    requires i <= j <= |rows|
    ensures Count(rows[..i], a) <= Count(rows[..j], a)
  {
    if i < j {
      CountGrows(rows, a, i, j - 1);
      assert rows[..j][..j - 1] == rows[..j - 1];
    }
  }

  /** Within an aggregate the numbers increase with the rows, so the unique key on them never fires. */
  lemma SequenceIncreases(rows: Ledger, i: nat, j: nat)
    requires LedgerOk(rows) && i < j < |rows| && rows[i].aggregate == rows[j].aggregate
    ensures rows[i].sequenceNumber < rows[j].sequenceNumber
  {
    var a := rows[i].aggregate;
    CountGrows(rows, a, i + 1, j);
    assert rows[..i + 1][..i] == rows[..i];
    assert RowOk(rows, i) && RowOk(rows, j);
  }

  /** The numbers are 1..n without gaps. */
  lemma {:induction false} NumberedWithoutGaps(rows: Ledger, a: Aggregate, n: int)
    requires LedgerOk(rows)
    ensures 1 <= n <= Count(rows, a) <==> exists i :: 0 <= i < |rows| && rows[i].aggregate == a && rows[i].sequenceNumber == n
  {
    if rows != [] {
      var last := |rows| - 1;
      RowsBefore(rows, last);
      NumberedWithoutGaps(rows[..last], a, n);
      assert RowOk(rows, last);
      if i :| 0 <= i < last && rows[..last][i].aggregate == a && rows[..last][i].sequenceNumber == n {
        assert rows[i] == rows[..last][i];
      }
      if i :| 0 <= i < |rows| && rows[i].aggregate == a && rows[i].sequenceNumber == n {
        assert i < last ==> rows[..last][i] == rows[i];
      }
      if rows[last].aggregate == a && n == Count(rows, a) {
        assert rows[last].sequenceNumber == n;
      }
    }
  }

  /** The stock query equals the balance on the aggregate's last row. */
  lemma {:induction false} StockIsLastBalance(rows: Ledger, i: nat)
    requires LedgerOk(rows) && i < |rows| && forall j | i < j < |rows| :: rows[j].aggregate != rows[i].aggregate
    ensures Sum(rows, rows[i].aggregate) == rows[i].balanceAfter
  {
    assert RowOk(rows, i);
    SumStays(rows, rows[i].aggregate, i + 1);
  }

  lemma {:induction false} SumStays(rows: Ledger, a: Aggregate, n: nat)
    requires n <= |rows| && forall j | n <= j < |rows| :: rows[j].aggregate != a
    ensures Sum(rows, a) == Sum(rows[..n], a)
  {
    if n == |rows| {
      assert rows[..n] == rows;
    } else {
      SumStays(rows[..|rows| - 1], a, n);
      assert rows[..|rows| - 1][..n] == rows[..n];
    }
  }
}
