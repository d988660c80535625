/** Proportional bill splitting: the last subaccount absorbs the rounding residue. */
module BillSplit {
  import opened Results
  import opened Money

  /** An item assigned to a subaccount; its subtotal is a scale-4 integer. */
  datatype Assignment = Assignment(index: int, item: string, subtotal: int)

  datatype SubAccount = SubAccount(
    index: int, items: seq<Assignment>, gross: int, discount: int, tip: int, toPay: int)

  datatype Field = Gross | Discount | Tip | ToPay

  datatype Mode = Equal | ByItem | CustomPercent

  datatype Split = Split(subs: seq<SubAccount>, sum: int, residue: int, balanced: bool)

  function Get(f: Field, s: SubAccount): int {
    match f
    case Gross => s.gross
    case Discount => s.discount
    case Tip => s.tip
    case ToPay => s.toPay
  }

  function Sum(f: Field, subs: seq<SubAccount>): int {
    if subs == [] then 0 else Sum(f, subs[..|subs| - 1]) + Get(f, subs[|subs| - 1])
  }

  lemma SumNext(subs: seq<SubAccount>, s: SubAccount)
    ensures forall f :: Sum(f, subs + [s]) == Sum(f, subs) + Get(f, s)
  {
    assert (subs + [s])[..|subs|] == subs;
  }

  function Times(k: int, x: int): int {
    k * x
  }

  lemma TimesNext(k: int, x: int)
    ensures Times(0, x) == 0 && Times(k + 1, x) == Times(k, x) + x
  {
  }

  /** BigInt division truncates toward zero. */
  function TruncDiv(a: int, b: int): int
    requires b != 0
  {
    var q := Abs(a) / Abs(b);
    if (a < 0) != (b < 0) then -q else q
  }

  /** What is left after n - 1 truncated shares differs from a share by less than n units, and never
      has the sign opposite to the amount. */
  lemma ResidueIsSmall(amount: int, n: nat)
    requires n >= 1
    ensures var share := TruncDiv(amount, n); var last := amount - Times(n - 1, share);
            && Abs(last - share) < n
            && (amount >= 0 ==> last >= share >= 0)
            && (amount <= 0 ==> last <= share <= 0)
  {
    var share, q := TruncDiv(amount, n), Abs(amount) / n;
    assert Abs(amount) == n * q + Abs(amount) % n;
    if amount < 0 {
      assert share == -q && n * share == -(n * q);
    }
    assert amount - (n - 1) * share - share == amount - n * share;
  }

  /** `Math.max(1, splitCount || 2)`. */
  function People(splitCount: Option<int>): (n: nat)
    ensures n >= 1
  {
    var requested := if splitCount.None? || splitCount.value == 0 then 2 else splitCount.value;
    if requested < 1 then 1 else requested
  }

  /** The EQUAL branch. */
  method EqualSplit(total: int, discount: int, tip: int, n: nat) returns (subs: seq<SubAccount>)
    requires n >= 1
    ensures |subs| == n
    ensures Sum(ToPay, subs) == total && Sum(Discount, subs) == discount && Sum(Tip, subs) == tip
    ensures forall i | 0 <= i < n :: subs[i].index == i && subs[i].items == [] && subs[i].gross == subs[i].toPay
    ensures forall i | 0 <= i < n - 1 ::
              subs[i].toPay == TruncDiv(total, n) && subs[i].discount == TruncDiv(discount, n) && subs[i].tip == TruncDiv(tip, n)
    ensures Abs(subs[n - 1].toPay - TruncDiv(total, n)) < n
    ensures Abs(subs[n - 1].discount - TruncDiv(discount, n)) < n
    ensures Abs(subs[n - 1].tip - TruncDiv(tip, n)) < n
    ensures total >= 0 ==> subs[n - 1].toPay >= TruncDiv(total, n) >= 0
  {
    var baseAmount, baseDiscount, baseTip := TruncDiv(total, n), TruncDiv(discount, n), TruncDiv(tip, n);
    ResidueIsSmall(total, n);
    ResidueIsSmall(discount, n);
    ResidueIsSmall(tip, n);
    TimesNext(0, baseAmount);
    TimesNext(0, baseDiscount);
    TimesNext(0, baseTip);
    hide TruncDiv, Times, Sum, Abs;
    var paid, discounted, tipped := 0, 0, 0;
    subs := [];
    assert forall f :: Sum(f, subs) == 0 by { EmptySum(); }
    for i := 0 to n - 1
      invariant |subs| == i
      invariant Sum(ToPay, subs) == paid == Times(i, baseAmount)
      invariant Sum(Discount, subs) == discounted == Times(i, baseDiscount)
      invariant Sum(Tip, subs) == tipped == Times(i, baseTip)
      invariant forall k | 0 <= k < i :: subs[k].index == k && subs[k].items == [] && subs[k].gross == subs[k].toPay
      invariant forall k | 0 <= k < i :: subs[k].toPay == baseAmount && subs[k].discount == baseDiscount && subs[k].tip == baseTip
    {
      TimesNext(i, baseAmount);
      TimesNext(i, baseDiscount);
      TimesNext(i, baseTip);
      paid, discounted, tipped := paid + baseAmount, discounted + baseDiscount, tipped + baseTip;
      var s := SubAccount(i, [], baseAmount, baseDiscount, baseTip, baseAmount);
      SumNext(subs, s);
      subs := subs + [s];
    }
    // the last subaccount absorbs the residue
    var subTotal, subDiscount, subTip := total - paid, discount - discounted, tip - tipped;
    var s := SubAccount(n - 1, [], subTotal, subDiscount, subTip, subTotal);
    SumNext(subs, s);
    subs := subs + [s];
  }

  lemma EmptySum()
    ensures forall f :: Sum(f, []) == 0
  {
  }

  /* BY_ITEM. */

  function ItemsOf(assignments: seq<Assignment>, index: int): seq<Assignment> {
    if assignments == [] then [] else
      var front, last := assignments[..|assignments| - 1], assignments[|assignments| - 1];
      ItemsOf(front, index) + if last.index == index then [last] else []
  }

  function SubtotalOf(items: seq<Assignment>): int {
    if items == [] then 0 else SubtotalOf(items[..|items| - 1]) + items[|items| - 1].subtotal
  }

  lemma SubtotalNext(items: seq<Assignment>, item: Assignment)
    ensures SubtotalOf(items + [item]) == SubtotalOf(items) + item.subtotal
    ensures SubtotalOf(items + []) == SubtotalOf(items)
  {
    assert (items + [item])[..|items|] == items;
    assert items + [] == items;
  }

  function Indices(assignments: seq<Assignment>): set<int> {
    set a | a in assignments :: a.index
  }

  predicate Ascending(xs: seq<int>) {
    forall i, j | 0 <= i < j < |xs| :: xs[i] < xs[j]
  }

  function Elements(xs: seq<int>): set<int> {
    set x | x in xs
  }

  /** Grouping loses nothing: the groups' subtotals add up to the subtotal of all the items. */
  lemma {:induction false} GroupsPartition(assignments: seq<Assignment>, order: seq<int>)
    requires Ascending(order) && Elements(order) == Indices(assignments)
    ensures GroupSum(assignments, order) == SubtotalOf(assignments)
  {
    GroupSumAny(assignments, order);
  }

  function GroupSum(assignments: seq<Assignment>, order: seq<int>): int {
    if order == [] then 0
    else GroupSum(assignments, order[..|order| - 1]) + SubtotalOf(ItemsOf(assignments, order[|order| - 1]))
  }

  lemma {:induction false} GroupSumAny(assignments: seq<Assignment>, order: seq<int>)
    requires Ascending(order) && Indices(assignments) <= Elements(order)
    ensures GroupSum(assignments, order) == SubtotalOf(assignments)
  {
    if assignments == [] {
      NoItems(order);
    } else {
      var front, last := assignments[..|assignments| - 1], assignments[|assignments| - 1];
      assert Indices(front) <= Indices(assignments);
      GroupSumAny(front, order);
      assert last.index in Indices(assignments);
      OneMoreItem(assignments, order);
    }
  }

  lemma {:induction false} NoItems(order: seq<int>)
    ensures GroupSum([], order) == 0
  {
    if order != [] {
      NoItems(order[..|order| - 1]);
    }
  }

  /** One more assignment changes exactly its own group, wherever that group stands in the order. */
  lemma {:induction false} OneMoreItem(assignments: seq<Assignment>, order: seq<int>)
    requires Ascending(order) && assignments != []
    ensures var front, last := assignments[..|assignments| - 1], assignments[|assignments| - 1];
            GroupSum(assignments, order) == GroupSum(front, order) + if last.index in order then last.subtotal else 0
  {
    hide SubtotalOf, ItemsOf;
    if order != [] {
      var front, last := assignments[..|assignments| - 1], assignments[|assignments| - 1];
      var rest, index := order[..|order| - 1], order[|order| - 1];
      OneMoreItem(assignments, rest);
      assert order == rest + [index];
      assert index !in rest;
      OneMoreInGroup(assignments, index);
    }
  }

  lemma OneMoreInGroup(assignments: seq<Assignment>, index: int)
    requires assignments != []
    ensures var front, last := assignments[..|assignments| - 1], assignments[|assignments| - 1];
            SubtotalOf(ItemsOf(assignments, index)) ==
              SubtotalOf(ItemsOf(front, index)) + if last.index == index then last.subtotal else 0
  {
    SubtotalNext(ItemsOf(assignments[..|assignments| - 1], index), assignments[|assignments| - 1]);
    hide SubtotalOf;
  }

  /** `Array.from(groups.keys()).sort((a, b) => a - b)`. */
  method SortIndices(keys: seq<int>) returns (sorted: seq<int>)
    requires forall i, j | 0 <= i < j < |keys| :: keys[i] != keys[j]
    ensures Ascending(sorted) && Elements(sorted) == Elements(keys)
  {
    sorted := [];
    for i := 0 to |keys|
      invariant Ascending(sorted) && Elements(sorted) == Elements(keys[..i])
    {
      var at := 0;
      assert keys[i] !in Elements(keys[..i]);
      while at < |sorted| && sorted[at] < keys[i]
        invariant 0 <= at <= |sorted|
        invariant forall k | 0 <= k < at :: sorted[k] < keys[i]
      {
        at := at + 1;
      }
      ElementsInsert(sorted, at, keys[i]);
      ElementsInsert(keys[..i], i, keys[i]);
      assert keys[..i][..i] + [keys[i]] + keys[..i][i..] == keys[..i + 1];
      sorted := sorted[..at] + [keys[i]] + sorted[at..];
    }
    assert keys[..|keys|] == keys;
  }

  lemma ElementsInsert(xs: seq<int>, at: nat, x: int)
    requires at <= |xs|
    ensures Elements(xs[..at] + [x] + xs[at..]) == Elements(xs) + {x}
  {
    assert xs == xs[..at] + xs[at..];
  }

  /** The grouping loop: one list of items per index, in assignment order; `keys` is the map's
      insertion order. */
  method Group(assignments: seq<Assignment>) returns (groups: map<int, seq<Assignment>>, keys: seq<int>)
    ensures groups.Keys == Indices(assignments) == Elements(keys)
    ensures forall i, j | 0 <= i < j < |keys| :: keys[i] != keys[j]
    ensures forall index | index in groups :: groups[index] == ItemsOf(assignments, index)
  {
    hide ItemsOf;
    groups, keys := map[], [];
    for i := 0 to |assignments|
      invariant groups.Keys == Indices(assignments[..i]) == Elements(keys)
      invariant forall i, j | 0 <= i < j < |keys| :: keys[i] != keys[j]
      invariant forall index | index in groups :: groups[index] == ItemsOf(assignments[..i], index)
    {
      var a := assignments[i];
      ItemsNext(assignments, i);
      NotIndexed(assignments[..i], a.index);
      if a.index !in groups {
        assert a.index !in Elements(keys);
        keys := keys + [a.index];
        groups := groups[a.index := [a]];
      } else {
        groups := groups[a.index := groups[a.index] + [a]];
      }
    }
    assert assignments[..|assignments|] == assignments;
  }

  lemma ItemsNext(assignments: seq<Assignment>, i: nat)
    requires i < |assignments|
    ensures forall index :: ItemsOf(assignments[..i + 1], index)
                         == ItemsOf(assignments[..i], index) + if assignments[i].index == index then [assignments[i]] else []
    ensures Indices(assignments[..i + 1]) == Indices(assignments[..i]) + {assignments[i].index}
  {
    var upto := assignments[..i + 1];
    assert upto[..i] == assignments[..i];
    assert upto == assignments[..i] + [assignments[i]];
  }

  lemma {:induction false} NotIndexed(assignments: seq<Assignment>, index: int)
    ensures index !in Indices(assignments) ==> ItemsOf(assignments, index) == []
  {
    if assignments != [] {
      var front, last := assignments[..|assignments| - 1], assignments[|assignments| - 1];
      NotIndexed(front, index);
      assert last in assignments;
      assert Indices(front) <= Indices(assignments);
    }
  }

  /** The share of a proportional amount, as the source rounds it. */
  function Prorated(amount: int, gross: int, all: int): int {
    TruncDiv(amount * gross, if all == 0 then 1 else all)
  }

  predicate OwnBill(s: SubAccount) {
    s.toPay == s.gross - s.discount + s.tip
  }

  /* How far the last share, which takes what is left, is from its own proration. */

  /** By how much `all` times a share misses the amount's product with the gross. */
  function Miss(all: int, share: int, amount: int, gross: int): int {
    all * share - amount * gross
  }

  lemma MissAdds(all: int, s: int, s': int, amount: int, g: int, g': int)
    ensures Miss(all, s + s', amount, g + g') == Miss(all, s, amount, g) + Miss(all, s', amount, g')
    ensures Miss(all, 0, amount, 0) == 0 && Miss(all, amount, amount, all) == 0
  {
  }

  lemma ProratedMisses(amount: int, gross: int, all: int)
    requires all != 0
    ensures Abs(Miss(all, Prorated(amount, gross, all), amount, gross)) < Abs(all)
  {
    TruncMisses(amount * gross, all);
    hide TruncDiv;
  }

  lemma TruncMisses(a: int, b: int)
    requires b != 0
    ensures Abs(b * TruncDiv(a, b) - a) < Abs(b)
  {
    var q, r := Abs(a) / Abs(b), Abs(a) % Abs(b);
    assert Abs(a) == Abs(b) * q + r;
    SignedProduct(a, b, q);
    hide TruncDiv;
    assert TruncDiv(a, b) == if (a < 0) != (b < 0) then -1 * q else 1 * q by { TruncIsSigned(a, b); }
  }

  lemma TruncIsSigned(a: int, b: int)
    requires b != 0
    ensures var q := Abs(a) / Abs(b); TruncDiv(a, b) == if (a < 0) != (b < 0) then -1 * q else 1 * q
  {
  }

  predicate ProratedUpTo(f: Field, subs: seq<SubAccount>, amount: int, all: int, n: nat) {
    n <= |subs| && forall i | 0 <= i < n :: Get(f, subs[i]) == Prorated(amount, subs[i].gross, all)
  }

  lemma {:induction false} SharesMiss(f: Field, subs: seq<SubAccount>, amount: int, all: int, n: nat)
    requires ProratedUpTo(f, subs, amount, all, n) && all != 0
    ensures Abs(Miss(all, Sum(f, subs[..n]), amount, Sum(Gross, subs[..n]))) <= Times(n, Abs(all) - 1)
  {
    hide Miss, Times, Prorated;
    TimesNext(n - 1, Abs(all) - 1);
    if n == 0 {
      MissAdds(all, 0, 0, amount, 0, 0);
    } else {
      SharesMiss(f, subs, amount, all, n - 1);
      assert subs[..n][..n - 1] == subs[..n - 1];
      ProratedMisses(amount, subs[n - 1].gross, all);
      MissAdds(all, Sum(f, subs[..n - 1]), Get(f, subs[n - 1]), amount, Sum(Gross, subs[..n - 1]), subs[n - 1].gross);
      hide Sum;
    }
  }

  lemma SmallMultiple(all: int, d: int, n: nat)
    requires all != 0 && n >= 1 && Abs(all * d) <= Times(n, Abs(all) - 1)
    ensures Abs(d) < n
  {
    var a, m := Abs(all), Abs(d);
    assert Abs(all * d) == a * m;
    if m >= n {
      LargeMultiple(a, m, n);
    }
  }

  lemma LargeMultiple(a: nat, m: nat, n: nat)
    requires a >= 1 && m >= n >= 1
    ensures a * m > Times(n, a - 1)
  {
    assert a * m == a * n + a * (m - n);
    assert a * (m - n) >= 0;
    assert a * n == Times(n, a - 1) + n;
  }

  /** What is left for the last share is within |subs| units of its own proration, unless the items come to zero, when
      it is off by the whole amount. */
  lemma LastShareIsClose(f: Field, subs: seq<SubAccount>, amount: int, all: int)
    requires subs != [] && Sum(f, subs) == amount && Sum(Gross, subs) == all
    requires ProratedUpTo(f, subs, amount, all, |subs| - 1)
    ensures CloseShare(Get(f, subs[|subs| - 1]), subs[|subs| - 1].gross, amount, all, |subs|)
  {
    var n, last := |subs| - 1, subs[|subs| - 1];
    if all == 0 {
      ZeroShares(f, subs, amount, n);
      LastOfZero(amount, Sum(Gross, subs[..n]), last.gross, Sum(f, subs[..n]), Get(f, last));
    } else {
      SharesMiss(f, subs, amount, all, n);
      ProratedMisses(amount, last.gross, all);
      MissAdds(all, Sum(f, subs[..n]), Get(f, last), amount, Sum(Gross, subs[..n]), last.gross);
      hide Sum, Prorated;
      TimesNext(n, Abs(all) - 1);
      MissDiffers(all, Get(f, last), Prorated(amount, last.gross, all), amount, last.gross);
      hide Miss, Times;
      SmallMultiple(all, Get(f, last) - Prorated(amount, last.gross, all), n + 1);
    }
  }

  predicate CloseShare(share: int, gross: int, amount: int, all: int, n: nat) {
    if all == 0 then share - Prorated(amount, gross, all) == amount else Abs(share - Prorated(amount, gross, all)) < n
  }

  lemma MissDiffers(all: int, s: int, p: int, amount: int, g: int)
    ensures all * (s - p) == Miss(all, s, amount, g) - Miss(all, p, amount, g)
  {
  }

  lemma ProratedOfZero(amount: int, gross: int)
    ensures Prorated(amount, gross, 0) == amount * gross
  {
    var p := amount * gross;
    assert TruncDiv(p, 1) == p;
  }

  lemma {:induction false} ZeroShares(f: Field, subs: seq<SubAccount>, amount: int, n: nat)
    requires ProratedUpTo(f, subs, amount, 0, n)
    ensures Sum(f, subs[..n]) == amount * Sum(Gross, subs[..n])
  {
    hide Prorated;
    if n > 0 {
      ZeroShares(f, subs, amount, n - 1);
      assert subs[..n][..n - 1] == subs[..n - 1];
      ProratedOfZero(amount, subs[n - 1].gross);
    }
  }

  lemma LastOfZero(amount: int, before: int, gross: int, shared: int, share: int)
    requires before + gross == 0 && shared + share == amount && shared == amount * before
    ensures CloseShare(share, gross, amount, 0, 1)
  {
    ProratedOfZero(amount, gross);
    hide Prorated;
    assert amount * before + amount * gross == amount * (before + gross);
  }

  /** The BY_ITEM branch. */
  method ItemSplit(total: int, discount: int, tip: int, assignments: seq<Assignment>) returns (subs: seq<SubAccount>)
    ensures forall i, j | 0 <= i < j < |subs| :: subs[i].index < subs[j].index
    ensures (set s | s in subs :: s.index) == Indices(assignments)
    ensures forall s | s in subs :: HoldsItems(s, assignments)
    ensures Sum(Gross, subs) == SubtotalOf(assignments)
    ensures assignments == [] <==> subs == []
    ensures subs != [] ==> Sum(ToPay, subs) == total && Sum(Discount, subs) == discount && Sum(Tip, subs) == tip
    ensures forall i | 0 <= i < |subs| - 1 :: Charged(subs[i], discount, tip, SubtotalOf(assignments))
    ensures subs != [] ==>
              (OwnBill(subs[|subs| - 1]) <==> total == SubtotalOf(assignments) - discount + tip)
    ensures subs != [] ==> LastIsClose(subs, discount, tip, SubtotalOf(assignments))
  {
    var groups, keys := Group(assignments);
    var order := SortIndices(keys);
    GroupsPartition(assignments, order);
    EmptyTogether(assignments, order);
    hide ItemsOf, SubtotalOf, Sum, GroupSum, TruncDiv, HoldsItems, Charged, OwnBill, Indices, Elements, LastIsClose;

    var subTotals, grossAll := GrossTotals(assignments, groups, order);
    subs := Apportion(total, discount, tip, assignments, groups, subTotals, order, grossAll);
    IndexSet(subs, order);
    if subs != [] {
      LastSharesAreClose(subs, discount, tip, grossAll);
    }
  }

  predicate LastIsClose(subs: seq<SubAccount>, discount: int, tip: int, all: int)
    requires subs != []
  {
    var last := subs[|subs| - 1];
    CloseShare(last.discount, last.gross, discount, all, |subs|) && CloseShare(last.tip, last.gross, tip, all, |subs|)
  }

  lemma LastSharesAreClose(subs: seq<SubAccount>, discount: int, tip: int, all: int)
    requires subs != [] && Sum(Gross, subs) == all && Sum(Discount, subs) == discount && Sum(Tip, subs) == tip
    requires forall i | 0 <= i < |subs| - 1 :: Charged(subs[i], discount, tip, all)
    ensures LastIsClose(subs, discount, tip, all)
  {
    hide Sum, Prorated, OwnBill, CloseShare;
    LastShareIsClose(Discount, subs, discount, all);
    LastShareIsClose(Tip, subs, tip, all);
  }

  lemma EmptyTogether(assignments: seq<Assignment>, order: seq<int>)
    requires Elements(order) == Indices(assignments)
    ensures order == [] <==> assignments == []
  {
    if assignments != [] {
      assert assignments[0].index in Indices(assignments);
    }
    if order != [] {
      assert order[0] in Elements(order);
    }
  }

  lemma IndexSet(subs: seq<SubAccount>, order: seq<int>)
    requires |subs| == |order| && forall i | 0 <= i < |subs| :: subs[i].index == order[i]
    ensures (set s | s in subs :: s.index) == Elements(order)
  {
    forall x | x in Elements(order)
      ensures x in set s | s in subs :: s.index
    {
      var i :| 0 <= i < |order| && order[i] == x;
      assert subs[i] in subs;
    }
  }

  /** The gross subtotal of every group and of the whole bill. */
  method GrossTotals(ghost assignments: seq<Assignment>, groups: map<int, seq<Assignment>>, order: seq<int>)
    returns (subTotals: map<int, int>, grossAll: int)
    requires groups.Keys == Elements(order)
    requires forall index | index in groups :: groups[index] == ItemsOf(assignments, index)
    ensures subTotals.Keys == Elements(order) && grossAll == GroupSum(assignments, order)
    ensures forall index | index in subTotals :: subTotals[index] == SubtotalOf(ItemsOf(assignments, index))
  {
    hide ItemsOf, SubtotalOf;
    subTotals, grossAll := map[], 0;
    for i := 0 to |order|
      invariant grossAll == GroupSum(assignments, order[..i])
      invariant subTotals.Keys == Elements(order[..i])
      invariant forall index | index in subTotals :: subTotals[index] == SubtotalOf(ItemsOf(assignments, index))
    {
      GroupSumNext(assignments, order, i);
      var subTotal := AddUp(groups[order[i]]);
      subTotals := subTotals[order[i] := subTotal];
      grossAll := grossAll + subTotal;
    }
    assert order[..|order|] == order;
  }

  method AddUp(items: seq<Assignment>) returns (subTotal: int)
    ensures subTotal == SubtotalOf(items)
  {
    subTotal := 0;
    for k := 0 to |items|
      invariant subTotal == SubtotalOf(items[..k])
    {
      assert items[..k + 1][..k] == items[..k];
      subTotal := subTotal + items[k].subtotal;
    }
    assert items[..|items|] == items;
  }

  lemma GroupSumNext(assignments: seq<Assignment>, order: seq<int>, i: nat)
    requires i < |order|
    ensures GroupSum(assignments, order[..i + 1]) == GroupSum(assignments, order[..i]) + SubtotalOf(ItemsOf(assignments, order[i]))
    ensures Elements(order[..i + 1]) == Elements(order[..i]) + {order[i]}
    ensures order[i] in Elements(order)
  {
    assert order[..i + 1][..i] == order[..i];
    assert order[..i + 1] == order[..i] + [order[i]];
  }

  /** A subaccount before the last one, or the last one when `total` is what the items come to. */
  predicate Charged(s: SubAccount, discount: int, tip: int, all: int) {
    OwnBill(s) && s.discount == Prorated(discount, s.gross, all) && s.tip == Prorated(tip, s.gross, all)
  }

  predicate HoldsItems(s: SubAccount, assignments: seq<Assignment>) {
    s.items == ItemsOf(assignments, s.index) && s.gross == SubtotalOf(s.items)
  }

  /** The apportioning loop. */
  method Apportion(total: int, discount: int, tip: int, ghost assignments: seq<Assignment>,
                   groups: map<int, seq<Assignment>>, subTotals: map<int, int>, order: seq<int>, grossAll: int)
    returns (subs: seq<SubAccount>)
    requires groups.Keys == subTotals.Keys == Elements(order)
    requires forall index | index in groups :: groups[index] == ItemsOf(assignments, index)
    requires forall index | index in subTotals :: subTotals[index] == SubtotalOf(ItemsOf(assignments, index))
    requires grossAll == GroupSum(assignments, order)
    ensures |subs| == |order|
    ensures forall i | 0 <= i < |subs| :: subs[i].index == order[i] && HoldsItems(subs[i], assignments)
    ensures Sum(Gross, subs) == grossAll
    ensures subs != [] ==> Sum(ToPay, subs) == total && Sum(Discount, subs) == discount && Sum(Tip, subs) == tip
    ensures forall i | 0 <= i < |subs| - 1 :: Charged(subs[i], discount, tip, grossAll)
    ensures subs != [] ==> (OwnBill(subs[|subs| - 1]) <==> total == grossAll - discount + tip)
  {
    EmptySum();
    hide TruncDiv, ItemsOf, SubtotalOf, Sum, GroupSum;
    var divisor := if grossAll == 0 then 1 else grossAll;
    var paid, discounted, tipped := 0, 0, 0;
    subs := [];
    assert GroupSum(assignments, order[..0]) == 0 by { GroupSumEmpty(assignments); }
    for i := 0 to |order|
      invariant |subs| == i
      invariant forall k | 0 <= k < i :: subs[k].index == order[k] && HoldsItems(subs[k], assignments)
      invariant Sum(Gross, subs) == GroupSum(assignments, order[..i])
      invariant Sum(ToPay, subs) == paid && Sum(Discount, subs) == discounted && Sum(Tip, subs) == tipped
      invariant i < |order| ==> paid == Sum(Gross, subs) - discounted + tipped
      invariant forall k | 0 <= k < i && k < |order| - 1 :: Charged(subs[k], discount, tip, grossAll)
      invariant 0 < i == |order| ==> paid == total && discounted == discount && tipped == tip
      invariant 0 < i == |order| ==>
                  (OwnBill(subs[i - 1]) <==> total == Sum(Gross, subs) - discount + tip)
    {
      GroupSumNext(assignments, order, i);
      var index, isLast := order[i], i == |order| - 1;
      var subItems, subGross := groups[index], subTotals[index];
      var subDiscount := if isLast then discount - discounted else TruncDiv(discount * subGross, divisor);
      var subTip := if isLast then tip - tipped else TruncDiv(tip * subGross, divisor);
      discounted, tipped := discounted + subDiscount, tipped + subTip;
      var rawNet := subGross - subDiscount + subTip;
      var subTotal := if isLast then total - paid else rawNet;
      paid := paid + subTotal;
      var s := SubAccount(index, subItems, subGross, subDiscount, subTip, subTotal);
      SumNext(subs, s);
      subs := subs + [s];
    }
    assert order[..|order|] == order;
  }

  lemma GroupSumEmpty(assignments: seq<Assignment>)
    ensures GroupSum(assignments, []) == 0
  {
  }

  /** Equal shares for as many people as were asked for: two by default, never fewer than one. */
  predicate SplitEqually(subs: seq<SubAccount>, splitCount: Option<int>, total: int, discount: int, tip: int) {
    && |subs| == (if splitCount.None? || splitCount.value == 0 then 2 else if splitCount.value < 1 then 1 else splitCount.value)
    && Sum(ToPay, subs) == total && Sum(Discount, subs) == discount && Sum(Tip, subs) == tip
    && forall i | 0 <= i < |subs| - 1 ::
         && subs[i].toPay == TruncDiv(total, |subs|) && subs[i].discount == TruncDiv(discount, |subs|)
         && subs[i].tip == TruncDiv(tip, |subs|)
  }

  /** One share per index that was assigned, each with its own items. */
  predicate SplitByItem(subs: seq<SubAccount>, assignments: seq<Assignment>, total: int, discount: int, tip: int) {
    && (set s | s in subs :: s.index) == Indices(assignments) && (forall s | s in subs :: HoldsItems(s, assignments))
    && (assignments != [] ==> Sum(ToPay, subs) == total && Sum(Discount, subs) == discount && Sum(Tip, subs) == tip)
    && (forall i | 0 <= i < |subs| - 1 :: Charged(subs[i], discount, tip, SubtotalOf(assignments)))
    && (subs != [] ==> LastIsClose(subs, discount, tip, SubtotalOf(assignments)))
  }

  /** `calculateProportionalSplit`: balanced exactly when somebody was charged or nothing was due. */
  method CalculateProportionalSplit(mode: Mode, splitCount: Option<int>, assignments: seq<Assignment>,
                                    total: int, discount: int, tip: int) returns (r: Split)
    ensures r.sum == Sum(ToPay, r.subs) && r.residue == total - r.sum && (r.balanced <==> r.residue == 0)
    ensures r.balanced <==> (mode == Equal || (mode == ByItem && assignments != []) || total == 0)
    ensures mode == Equal ==> SplitEqually(r.subs, splitCount, total, discount, tip)
    ensures mode == ByItem ==> SplitByItem(r.subs, assignments, total, discount, tip)
    ensures mode == CustomPercent ==> r.subs == []
  {
    hide TruncDiv, HoldsItems, Charged, LastIsClose, SubtotalOf;
    var subs := [];
    match mode {
      case Equal =>
        subs := EqualSplit(total, discount, tip, People(splitCount));
        assert SplitEqually(subs, splitCount, total, discount, tip);
      case ByItem =>
        subs := ItemSplit(total, discount, tip, assignments);
        assert SplitByItem(subs, assignments, total, discount, tip);
      case CustomPercent =>
    }
    hide SplitEqually, SplitByItem;
    var sum := 0;
    for i := 0 to |subs|
      invariant sum == Sum(ToPay, subs[..i])
    {
      assert subs[..i + 1][..i] == subs[..i];
      sum := sum + subs[i].toPay;
    }
    assert subs[..|subs|] == subs;
    return Split(subs, sum, total - sum, total - sum == 0);
  }
}
