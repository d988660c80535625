/** Line and invoice taxes as exact scale-4 numbers, and the laws they satisfy. */
module TaxRules {
  import opened Results
  import opened Money

  /** A tax scheme whose rate has been read from its text (or failed to read). */
  datatype Scheme = Scheme(rate: Result<int, Error>, isInclusive: bool)

  datatype Totals = Totals(subtotal: int, tax: int, total: int)

  datatype Line = Line(totals: Totals, parts: seq<int>)

  datatype Item = Item(unitPrice: Result<int, Error>, quantity: Result<int, Error>, schemes: seq<Scheme>)

  /* Billing arithmetic checks the range of its operands, never of its result. */

  function Add(x: int, y: int): Result<int, Error> {
    if InRange(x) && InRange(y) then Ok(x + y) else Err(OutOfRange)
  }

  function Sub(x: int, y: int): Result<int, Error> {
    if InRange(x) && InRange(y) then Ok(x - y) else Err(OutOfRange)
  }

  function Mul(x: int, y: int): Result<int, Error> {
    if InRange(x) && InRange(y) then Ok(RoundDiv(x * y, SCALE_FACTOR)) else Err(OutOfRange)
  }

  function Div(x: int, y: int): Result<int, Error> {
    if !InRange(x) || !InRange(y) then Err(OutOfRange)
    else if y == 0 then Err(DivisionByZero)
    else Ok(RoundDiv(x * SCALE_FACTOR, y))
  }

  function RateTotal(schemes: seq<Scheme>): Result<int, Error> {
    if schemes == [] then Ok(0) else
      var sofar :- RateTotal(schemes[..|schemes| - 1]);
      var rate :- schemes[|schemes| - 1].rate;
      Add(sofar, rate)
  }

  function Parts(base: int, schemes: seq<Scheme>): Result<seq<int>, Error> {
    if schemes == [] then Ok([]) else
      var sofar :- Parts(base, schemes[..|schemes| - 1]);
      var rate :- schemes[|schemes| - 1].rate;
      var amount :- Mul(base, rate);
      Ok(sofar + [amount])
  }

  function ExclusiveParts(base: int, schemes: seq<Scheme>): Result<(int, seq<int>), Error> {
    if schemes == [] then Ok((0, [])) else
      var (sofar, parts) :- ExclusiveParts(base, schemes[..|schemes| - 1]);
      var rate :- schemes[|schemes| - 1].rate;
      var amount :- Mul(base, rate);
      var tax :- Add(sofar, amount);
      Ok((tax, parts + [amount]))
  }

  predicate AnyInclusive(schemes: seq<Scheme>) {
    exists i :: 0 <= i < |schemes| && schemes[i].isInclusive
  }

  function InclusiveLine(raw: int, schemes: seq<Scheme>): Result<Line, Error> {
    var rates :- RateTotal(schemes);
    var divisor :- Add(SCALE_FACTOR, rates);
    var subtotal :- Div(raw, divisor);
    var tax :- Sub(raw, subtotal);
    var parts :- Parts(subtotal, schemes);
    Ok(Line(Totals(subtotal, tax, raw), parts))
  }

  function ExclusiveLine(raw: int, schemes: seq<Scheme>): Result<Line, Error> {
    var (tax, parts) :- ExclusiveParts(raw, schemes);
    var total :- Add(raw, tax);
    Ok(Line(Totals(raw, tax, total), parts))
  }

  function LineTaxes(item: Item): Result<Line, Error> {
    var unitPrice :- item.unitPrice;
    var quantity :- item.quantity;
    var raw :- Mul(unitPrice, quantity);
    if item.schemes == [] then Ok(Line(Totals(raw, 0, raw), []))
    else if AnyInclusive(item.schemes) then InclusiveLine(raw, item.schemes)
    else ExclusiveLine(raw, item.schemes)
  }

  function SumLines(lines: seq<Result<Line, Error>>): Result<Totals, Error> {
    if lines == [] then Ok(Totals(0, 0, 0)) else
      var sofar :- SumLines(lines[..|lines| - 1]);
      var line :- lines[|lines| - 1];
      var subtotal :- Add(sofar.subtotal, line.totals.subtotal);
      var tax :- Add(sofar.tax, line.totals.tax);
      var total :- Add(sofar.total, line.totals.total);
      Ok(Totals(subtotal, tax, total))
  }

  function Lines(items: seq<Item>): seq<Result<Line, Error>> {
    seq(|items|, i requires 0 <= i < |items| => LineTaxes(items[i]))
  }

  function InvoiceTaxes(items: seq<Item>): Result<Totals, Error> {
    SumLines(Lines(items))
  }

  /* The laws. */

  predicate Balanced(t: Totals) {
    t.subtotal + t.tax == t.total
  }

  function Sum(xs: seq<int>): int {
    if xs == [] then 0 else Sum(xs[..|xs| - 1]) + xs[|xs| - 1]
  }

  lemma {:induction false} ExclusiveIsSum(base: int, schemes: seq<Scheme>)
    requires ExclusiveParts(base, schemes).Ok?
    ensures ExclusiveParts(base, schemes).value.0 == Sum(ExclusiveParts(base, schemes).value.1)
    ensures Parts(base, schemes) == Ok(ExclusiveParts(base, schemes).value.1)
  {
    if schemes != [] {
      ExclusiveIsSum(base, schemes[..|schemes| - 1]);
      var parts := ExclusiveParts(base, schemes).value.1;
      assert parts[..|parts| - 1] == ExclusiveParts(base, schemes[..|schemes| - 1]).value.1;
    }
  }

  /** Whenever a line succeeds, subtotal + tax == total exactly; in exclusive mode the tax is the exact
      sum of a breakdown that rounds each rate of the subtotal. */
  lemma LineBalances(item: Item)
    requires LineTaxes(item).Ok?
    ensures var line := LineTaxes(item).value;
            && Balanced(line.totals)
            && (!AnyInclusive(item.schemes) ==> line.totals.tax == Sum(line.parts))
            && Parts(line.totals.subtotal, item.schemes) == Ok(line.parts)
  {
    var raw := Mul(item.unitPrice.value, item.quantity.value).value;
    if item.schemes != [] && !AnyInclusive(item.schemes) {
      ExclusiveIsSum(raw, item.schemes);
    }
  }

  lemma {:induction false} SumOfBalanced(lines: seq<Result<Line, Error>>)
    requires SumLines(lines).Ok?
    requires forall i | 0 <= i < |lines| && lines[i].Ok? :: Balanced(lines[i].value.totals)
    ensures Balanced(SumLines(lines).value)
  {
    if lines != [] {
      SumOfBalanced(lines[..|lines| - 1]);
    }
  }

  /** Whenever an invoice succeeds, its three accumulators balance exactly too. */
  lemma InvoiceBalances(items: seq<Item>)
    requires InvoiceTaxes(items).Ok?
    ensures Balanced(InvoiceTaxes(items).value)
  {
    forall i | 0 <= i < |items| && LineTaxes(items[i]).Ok?
      ensures Balanced(LineTaxes(items[i]).value.totals)
    {
      LineBalances(items[i]);
    }
    hide LineTaxes;
    SumOfBalanced(Lines(items));
  }

  /* What the amounts are, each fixed by one rounding. */

  function SumRates(schemes: seq<Scheme>): int {
    if schemes == [] then 0 else
      SumRates(schemes[..|schemes| - 1]) + match schemes[|schemes| - 1].rate case Ok(r) => r case Err(_) => 0
  }

  lemma {:induction false} RatesAreSummed(schemes: seq<Scheme>)
    requires RateTotal(schemes).Ok?
    ensures RateTotal(schemes).value == SumRates(schemes)
  {
    if schemes != [] {
      RatesAreSummed(schemes[..|schemes| - 1]);
    }
  }

  /** The line amount: the total when some scheme is inclusive, otherwise the subtotal. */
  function LineAmount(item: Item, line: Line): int {
    if AnyInclusive(item.schemes) then line.totals.total else line.totals.subtotal
  }

  /** The amount is price times quantity, rounded once; with inclusive schemes the subtotal is that amount over one plus
      the rates, rounded once. */
  lemma LineAmountIsNearest(item: Item)
    requires LineTaxes(item).Ok?
    ensures item.unitPrice.Ok? && item.quantity.Ok?
    ensures var line := LineTaxes(item).value;
            && NearestAwayFromZero(item.unitPrice.value * item.quantity.value, SCALE_FACTOR, LineAmount(item, line))
            && (AnyInclusive(item.schemes) ==>
                  && SCALE_FACTOR + SumRates(item.schemes) != 0
                  && NearestAwayFromZero(
                       line.totals.total * SCALE_FACTOR, SCALE_FACTOR + SumRates(item.schemes), line.totals.subtotal))
  {
    var product := item.unitPrice.value * item.quantity.value;
    RoundDivIsNearest(product, SCALE_FACTOR);
    var raw := RoundDiv(product, SCALE_FACTOR);
    hide RoundDiv, InRange, NearestAwayFromZero, ExclusiveParts, Parts, RateTotal, SumRates;
    if AnyInclusive(item.schemes) {
      RatesAreSummed(item.schemes);
      RoundDivIsNearest(raw * SCALE_FACTOR, SCALE_FACTOR + SumRates(item.schemes));
    }
  }

  /** One amount per scheme: its rate of the subtotal, rounded once. */
  lemma {:induction false} PartsAreNearest(base: int, schemes: seq<Scheme>)
    requires Parts(base, schemes).Ok?
    ensures var parts := Parts(base, schemes).value;
            && |parts| == |schemes|
            && forall i | 0 <= i < |schemes| ::
                 schemes[i].rate.Ok? && NearestAwayFromZero(base * schemes[i].rate.value, SCALE_FACTOR, parts[i])
  {
    if schemes != [] {
      var n := |schemes| - 1;
      PartsAreNearest(base, schemes[..n]);
      RoundDivIsNearest(base * schemes[n].rate.value, SCALE_FACTOR);
      hide RoundDiv, NearestAwayFromZero, InRange;
    }
  }

  /** When a line succeeds: price, quantity and all rates can be read, and no operand on the way is out of range. */
  predicate RatesRead(schemes: seq<Scheme>) {
    forall i | 0 <= i < |schemes| :: schemes[i].rate.Ok? && InRange(schemes[i].rate.value)
  }

  predicate RateSumsFit(schemes: seq<Scheme>) {
    forall k | 0 <= k < |schemes| :: InRange(SumRates(schemes[..k]))
  }

  lemma {:induction false} RateTotalExactly(schemes: seq<Scheme>)
    ensures RateTotal(schemes).Ok? <==> RatesRead(schemes) && RateSumsFit(schemes)
  {
    if schemes != [] {
      var n := |schemes| - 1;
      var front := schemes[..n];
      RateTotalExactly(front);
      if RateTotal(front).Ok? {
        RatesAreSummed(front);
      }
      assert schemes == front + [schemes[n]];
      assert RatesRead(schemes) <==> RatesRead(front) && schemes[n].rate.Ok? && InRange(schemes[n].rate.value);
      assert forall k | 0 <= k < n :: schemes[..k] == front[..k];
      assert RateSumsFit(schemes) <==> RateSumsFit(front) && InRange(SumRates(front));
      hide InRange, RatesRead, RateSumsFit, SumRates;
    }
  }

  lemma {:induction false} PartsExactly(base: int, schemes: seq<Scheme>)
    ensures Parts(base, schemes).Ok? <==> (schemes == [] || InRange(base)) && RatesRead(schemes)
  {
    if schemes != [] {
      var n := |schemes| - 1;
      PartsExactly(base, schemes[..n]);
      assert schemes == schemes[..n] + [schemes[n]];
      hide InRange, RoundDiv;
    }
  }

  /** An inclusive line succeeds exactly when every rate is read, no running sum of them leaves the range, one plus
      their sum is neither zero nor out of range, and amount and subtotal are in range. */
  lemma InclusiveExactly(raw: int, schemes: seq<Scheme>)
    requires schemes != []
    ensures InclusiveLine(raw, schemes).Ok? <==>
              var divisor := SCALE_FACTOR + SumRates(schemes);
              && RatesRead(schemes) && RateSumsFit(schemes) && InRange(SumRates(schemes))
              && InRange(raw) && InRange(divisor) && divisor != 0 && InRange(RoundDiv(raw * SCALE_FACTOR, divisor))
  {
    RateTotalExactly(schemes);
    if RateTotal(schemes).Ok? {
      RatesAreSummed(schemes);
      var divisor := SCALE_FACTOR + SumRates(schemes);
      if divisor != 0 {
        PartsExactly(RoundDiv(raw * SCALE_FACTOR, divisor), schemes);
      }
    }
    assert InRange(SCALE_FACTOR);
    hide RoundDiv, InRange, Parts, RateTotal, SumRates, RatesRead, RateSumsFit;
  }

  predicate PartSumsFit(parts: seq<int>) {
    forall k | 0 <= k < |parts| :: InRange(parts[k]) && InRange(Sum(parts[..k]))
  }

  lemma {:induction false} ExclusivePartsExactly(base: int, schemes: seq<Scheme>)
    ensures ExclusiveParts(base, schemes).Ok? <==> Parts(base, schemes).Ok? && PartSumsFit(Parts(base, schemes).value)
  {
    if schemes != [] {
      var n := |schemes| - 1;
      ExclusivePartsExactly(base, schemes[..n]);
      if Parts(base, schemes).Ok? {
        var front, parts := Parts(base, schemes[..n]).value, Parts(base, schemes).value;
        assert parts == front + [parts[|front|]];
        assert parts[..|front|] == front && forall k | 0 <= k < |front| :: parts[..k] == front[..k];
        assert PartSumsFit(parts) <==> PartSumsFit(front) && InRange(parts[|front|]) && InRange(Sum(front));
        if ExclusiveParts(base, schemes[..n]).Ok? {
          ExclusiveIsSum(base, schemes[..n]);
        }
      }
      hide InRange, RoundDiv, Sum, PartSumsFit;
    }
  }

  /** An exclusive line succeeds exactly when the amount is in range, every rate is read, and neither a part, a running
      sum of parts, nor the tax leaves the range. */
  lemma ExclusiveExactly(raw: int, schemes: seq<Scheme>)
    requires schemes != []
    ensures ExclusiveLine(raw, schemes).Ok? <==>
              && InRange(raw) && RatesRead(schemes) && Parts(raw, schemes).Ok?
              && PartSumsFit(Parts(raw, schemes).value) && InRange(Sum(Parts(raw, schemes).value))
  {
    PartsExactly(raw, schemes);
    ExclusivePartsExactly(raw, schemes);
    if ExclusiveParts(raw, schemes).Ok? {
      ExclusiveIsSum(raw, schemes);
    }
    hide InRange, Parts, ExclusiveParts, PartSumsFit, Sum, RatesRead;
  }

  /* Invoices. */

  datatype Field = SubtotalField | TaxField | TotalField

  function Get(f: Field, t: Totals): int {
    match f case SubtotalField => t.subtotal case TaxField => t.tax case TotalField => t.total
  }

  /** The plain sum of one field over the lines. */
  function FieldSum(f: Field, lines: seq<Result<Line, Error>>): int {
    if lines == [] then 0 else
      FieldSum(f, lines[..|lines| - 1])
      + match lines[|lines| - 1] case Ok(line) => Get(f, line.totals) case Err(_) => 0
  }

  predicate FieldFits(f: Field, lines: seq<Result<Line, Error>>) {
    forall k | 0 <= k < |lines| ::
      InRange(FieldSum(f, lines[..k])) && (lines[k].Ok? ==> InRange(Get(f, lines[k].value.totals)))
  }

  predicate AllOk(lines: seq<Result<Line, Error>>) {
    forall k | 0 <= k < |lines| :: lines[k].Ok?
  }

  lemma {:induction false} SumLinesIsSum(lines: seq<Result<Line, Error>>, f: Field)
    requires SumLines(lines).Ok?
    ensures AllOk(lines) && Get(f, SumLines(lines).value) == FieldSum(f, lines)
  {
    if lines != [] {
      SumLinesIsSum(lines[..|lines| - 1], f);
      hide InRange;
    }
  }

  lemma {:induction false} SumLinesExactly(lines: seq<Result<Line, Error>>)
    ensures SumLines(lines).Ok? <==> AllOk(lines) && AllFit(lines)
  {
    if lines == [] {
      assert AllOk(lines) && AllFit(lines);
    } else {
      SumLinesExactly(lines[..|lines| - 1]);
      hide InRange, AllFit, AllOk;
      if SumLines(lines[..|lines| - 1]).Ok? && lines[|lines| - 1].Ok? {
        NextLineFits(lines);
        LastFits(lines);
        hide SumLines;
      }
      AllButLast(lines);
    }
  }

  ghost predicate AllFit(lines: seq<Result<Line, Error>>) {
    forall f :: FieldFits(f, lines)
  }

  lemma AllButLast(lines: seq<Result<Line, Error>>)
    requires lines != []
    ensures var n := |lines| - 1;
            && (AllOk(lines) <==> AllOk(lines[..n]) && lines[n].Ok?)
            && (AllFit(lines) ==> AllFit(lines[..n]))
  {
    hide InRange, FieldSum;
    var n := |lines| - 1;
    assert lines == lines[..n] + [lines[n]];
    if AllFit(lines) {
      forall f
        ensures FieldFits(f, lines[..n])
      {
        FitsNext(f, lines);
        assert FieldFits(f, lines);
      }
    }
  }

  /** Once the lines before it fit, the last line decides. */
  lemma LastFits(lines: seq<Result<Line, Error>>)
    requires lines != [] && SumLines(lines[..|lines| - 1]).Ok? && lines[|lines| - 1].Ok? && AllFit(lines[..|lines| - 1])
    ensures var t, u := SumLines(lines[..|lines| - 1]).value, lines[|lines| - 1].value.totals;
            AllFit(lines) <==> forall f :: InRange(Get(f, t)) && InRange(Get(f, u))
  {
    hide InRange, FieldSum, FieldFits, SumLines;
    var front, t, u := lines[..|lines| - 1], SumLines(lines[..|lines| - 1]).value, lines[|lines| - 1].value.totals;
    forall f
      ensures FieldFits(f, lines) <==> InRange(Get(f, t)) && InRange(Get(f, u))
    {
      FitsNext(f, lines);
      SumLinesIsSum(front, f);
      assert FieldFits(f, front);
    }
  }

  lemma FitsNext(f: Field, lines: seq<Result<Line, Error>>)
    requires lines != []
    ensures var n := |lines| - 1; var front := lines[..n];
            FieldFits(f, lines) <==>
              FieldFits(f, front) && InRange(FieldSum(f, front)) && (lines[n].Ok? ==> InRange(Get(f, lines[n].value.totals)))
  {
    hide InRange, FieldSum;
    var n := |lines| - 1;
    var front := lines[..n];
    assert forall k | 0 <= k < n :: lines[..k] == front[..k] && lines[k] == front[k];
  }

  lemma NextLineFits(lines: seq<Result<Line, Error>>)
    requires lines != [] && SumLines(lines[..|lines| - 1]).Ok? && lines[|lines| - 1].Ok?
    ensures var t, u := SumLines(lines[..|lines| - 1]).value, lines[|lines| - 1].value.totals;
            SumLines(lines).Ok? <==> forall f :: InRange(Get(f, t)) && InRange(Get(f, u))
  {
    hide InRange;
    var t, u := SumLines(lines[..|lines| - 1]).value, lines[|lines| - 1].value.totals;
    assert Get(SubtotalField, t) == t.subtotal && Get(TaxField, t) == t.tax && Get(TotalField, t) == t.total;
    assert Get(SubtotalField, u) == u.subtotal && Get(TaxField, u) == u.tax && Get(TotalField, u) == u.total;
  }

  /** Each of an invoice's three totals is the plain sum of that field over its lines; it succeeds exactly when every
      line does and no summand or running sum leaves the range. */
  lemma InvoiceIsSum(items: seq<Item>, f: Field)
    ensures InvoiceTaxes(items).Ok? <==> AllOk(Lines(items)) && AllFit(Lines(items))
    ensures InvoiceTaxes(items).Ok? ==> Get(f, InvoiceTaxes(items).value) == FieldSum(f, Lines(items))
  {
    SumLinesExactly(Lines(items));
    if InvoiceTaxes(items).Ok? {
      SumLinesIsSum(Lines(items), f);
    }
    hide LineTaxes, SumLines, FieldSum, AllFit, AllOk;
  }

  /** F * (sum of parts) misses subtotal * (sum of rates) by at most F/2 per scheme. */
  lemma {:induction false} PartsNearSum(base: int, schemes: seq<Scheme>)
    requires Parts(base, schemes).Ok? && RateTotal(schemes).Ok?
    ensures 2 * Abs(SCALE_FACTOR * Sum(Parts(base, schemes).value) - base * RateTotal(schemes).value)
            <= |schemes| * SCALE_FACTOR
  {
    if schemes != [] {
      var front, rate := schemes[..|schemes| - 1], schemes[|schemes| - 1].rate.value;
      PartsNearSum(base, front);
      hide RoundDiv, InRange, Abs;
      var parts, sofar := Parts(base, schemes).value, RateTotal(front).value;
      assert parts[..|parts| - 1] == Parts(base, front).value;
      RoundDivIsNearest(base * rate, SCALE_FACTOR);
      AddPart(base, sofar, Sum(Parts(base, front).value), rate, parts[|parts| - 1], |front|);
    }
  }

  lemma AddPart(base: int, rates: int, sum: int, rate: int, amount: int, n: nat)
    requires 2 * Abs(SCALE_FACTOR * sum - base * rates) <= n * SCALE_FACTOR
    requires NearestAwayFromZero(base * rate, SCALE_FACTOR, amount)
    ensures 2 * Abs(SCALE_FACTOR * (sum + amount) - base * (rates + rate)) <= (n + 1) * SCALE_FACTOR
  {
    assert base * (rates + rate) == base * rates + base * rate;
  }

  /** Inclusive mode: with divisor D = F + (sum of rates) and n schemes, the breakdown misses the tax
      by so little that 2F * |breakdown - tax| <= n*F + |D|. */
  lemma InclusiveBreakdownIsClose(raw: int, schemes: seq<Scheme>)
    requires InclusiveLine(raw, schemes).Ok?
    ensures var line := InclusiveLine(raw, schemes).value;
            2 * Abs(SCALE_FACTOR * Sum(line.parts) - SCALE_FACTOR * line.totals.tax)
            <= |schemes| * SCALE_FACTOR + Abs(SCALE_FACTOR + RateTotal(schemes).value)
  {
    hide RoundDiv, RateTotal, Parts, Sum;
    var line, rates := InclusiveLine(raw, schemes).value, RateTotal(schemes).value;
    RoundDivIsNearest(raw * SCALE_FACTOR, SCALE_FACTOR + rates);
    PartsNearSum(line.totals.subtotal, schemes);
    InclusiveArithmetic(raw, rates, line.totals.subtotal, Sum(line.parts), |schemes|);
  }

  lemma InclusiveArithmetic(raw: int, rates: int, s: int, partSum: int, n: nat)
    requires 2 * Abs(SCALE_FACTOR * partSum - s * rates) <= n * SCALE_FACTOR
    requires 2 * Abs((SCALE_FACTOR + rates) * s - raw * SCALE_FACTOR) <= Abs(SCALE_FACTOR + rates)
    ensures 2 * Abs(SCALE_FACTOR * partSum - SCALE_FACTOR * (raw - s)) <= n * SCALE_FACTOR + Abs(SCALE_FACTOR + rates)
  {
    assert (SCALE_FACTOR + rates) * s == SCALE_FACTOR * s + s * rates;
  }

  /* An error on a prefix is the error of the whole list. */

  lemma {:induction false} RateErrorStays(schemes: seq<Scheme>, k: nat)
    requires k <= |schemes| && RateTotal(schemes[..k]).Err?
    ensures RateTotal(schemes) == RateTotal(schemes[..k])
    decreases |schemes|
  {
    if k < |schemes| {
      assert schemes[..|schemes| - 1][..k] == schemes[..k];
      RateErrorStays(schemes[..|schemes| - 1], k);
    } else {
      assert schemes[..k] == schemes;
    }
  }

  lemma {:induction false} PartsErrorStays(base: int, schemes: seq<Scheme>, k: nat)
    requires k <= |schemes| && Parts(base, schemes[..k]).Err?
    ensures Parts(base, schemes) == Parts(base, schemes[..k])
    decreases |schemes|
  {
    if k < |schemes| {
      assert schemes[..|schemes| - 1][..k] == schemes[..k];
      PartsErrorStays(base, schemes[..|schemes| - 1], k);
    } else {
      assert schemes[..k] == schemes;
    }
  }

  lemma {:induction false} ExclusiveErrorStays(base: int, schemes: seq<Scheme>, k: nat)
    requires k <= |schemes| && ExclusiveParts(base, schemes[..k]).Err?
    ensures ExclusiveParts(base, schemes) == ExclusiveParts(base, schemes[..k])
    decreases |schemes|
  {
    if k < |schemes| {
      assert schemes[..|schemes| - 1][..k] == schemes[..k];
      ExclusiveErrorStays(base, schemes[..|schemes| - 1], k);
    } else {
      assert schemes[..k] == schemes;
    }
  }

  lemma {:induction false} SumErrorStays(lines: seq<Result<Line, Error>>, k: nat)
    requires k <= |lines| && SumLines(lines[..k]).Err?
    ensures SumLines(lines) == SumLines(lines[..k])
    decreases |lines|
  {
    if k < |lines| {
      assert lines[..|lines| - 1][..k] == lines[..k];
      SumErrorStays(lines[..|lines| - 1], k);
    } else {
      assert lines[..k] == lines;
    }
  }
}
