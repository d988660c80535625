/** The tax calculator over canonical decimal strings: every string it computes is the print of the
    exact number that `TaxRules` prescribes, and every exception is the one prescribed there. */
module Tax {
  import opened Results
  import M = Money
  import R = TaxRules

  datatype Scheme = Scheme(code: string, rate: string, isInclusive: bool)

  datatype TaxPart = TaxPart(code: string, rate: string, amount: string)

  datatype Totals = Totals(subtotal: string, taxAmount: string, totalAmount: string)

  datatype Line = Line(totals: Totals, breakdown: seq<TaxPart>)

  datatype Item = Item(unitPrice: string, quantity: string, schemes: seq<Scheme>)

  /* Billing arithmetic: parse both operands, compute, print. */

  function Add(a: string, b: string): Result<string, M.Error> {
    var x :- M.Parse(a);
    var y :- M.Parse(b);
    Ok(M.Format(x + y))
  }

  function Sub(a: string, b: string): Result<string, M.Error> {
    var x :- M.Parse(a);
    var y :- M.Parse(b);
    Ok(M.Format(x - y))
  }

  function Mul(amount: string, rate: string): Result<string, M.Error> {
    var x :- M.Parse(amount);
    var y :- M.Parse(rate);
    Ok(M.Format(M.RoundDiv(x * y, M.SCALE_FACTOR)))
  }

  function Div(amount: string, divisor: string): Result<string, M.Error> {
    var x :- M.Parse(amount);
    var y :- M.Parse(divisor);
    if y == 0 then Err(M.DivisionByZero) else Ok(M.Format(M.RoundDiv(x * M.SCALE_FACTOR, y)))
  }

  function Print(r: Result<int, M.Error>): Result<string, M.Error> {
    if r.Ok? then Ok(M.Format(r.value)) else Err(r.error)
  }

  /** `Denotes(s, x)`: the text s was printed from x, so reading it back gives x or a range error. */
  predicate Denotes(s: string, x: int) {
    M.Parse(s) == if M.InRange(x) then Ok(x) else Err(M.OutOfRange)
  }

  lemma FormatDenotes(x: int)
    ensures Denotes(M.Format(x), x)
  {
    M.ParseFormat(x);
  }

  lemma ParsedDenotes(s: string)
    requires M.Parse(s).Ok?
    ensures M.InRange(M.Parse(s).value) && Denotes(s, M.Parse(s).value)
  {
  }

  lemma ArithmeticDenotes(a: string, x: int, b: string, y: int)
    requires Denotes(a, x) && Denotes(b, y)
    ensures Add(a, b) == Print(R.Add(x, y))
    ensures Sub(a, b) == Print(R.Sub(x, y))
    ensures Mul(a, b) == Print(R.Mul(x, y))
    ensures Div(a, b) == Print(R.Div(x, y))
  {
  }

  lemma ConstantsDenote()
    ensures Denotes("0.0000", 0) && M.Format(0) == "0.0000"
    ensures Denotes("1.0000", M.SCALE_FACTOR)
  {
    FormatDenotes(0);
    FormatDenotes(10000);
    M.FormatConstants();
  }

  /* Reading inputs and printing results. */

  function ReadScheme(s: Scheme): R.Scheme {
    R.Scheme(M.Parse(s.rate), s.isInclusive)
  }

  function ReadSchemes(schemes: seq<Scheme>): (r: seq<R.Scheme>) {
    seq(|schemes|, i requires 0 <= i < |schemes| => ReadScheme(schemes[i]))
  }

  function ReadItem(item: Item): R.Item {
    R.Item(M.Parse(item.unitPrice), M.Parse(item.quantity), ReadSchemes(item.schemes))
  }

  function ReadItems(items: seq<Item>): seq<R.Item> {
    seq(|items|, i requires 0 <= i < |items| => ReadItem(items[i]))
  }

  function PrintTotals(t: R.Totals): Totals {
    Totals(M.Format(t.subtotal), M.Format(t.tax), M.Format(t.total))
  }

  function PrintParts(parts: seq<int>, schemes: seq<Scheme>): seq<TaxPart>
    requires |parts| <= |schemes|
  {
    seq(|parts|, i requires 0 <= i < |parts| =>
      TaxPart(schemes[i].code, schemes[i].rate, M.Format(parts[i])))
  }

  predicate Prints(r: Result<Line, M.Error>, expected: Result<R.Line, M.Error>, schemes: seq<Scheme>) {
    match (r, expected)
    case (Ok(line), Ok(e)) =>
      && line.totals == PrintTotals(e.totals)
      && |e.parts| == |schemes|
      && line.breakdown == PrintParts(e.parts, schemes)
    case (Err(x), Err(y)) => x == y
    case _ => false
  }

  /** The rate loop of the inclusive branch. */
  method SumRates(schemes: seq<Scheme>) returns (r: Result<string, M.Error>)
    ensures r == Print(R.RateTotal(ReadSchemes(schemes)))
  {
    hide M.Parse, M.Format, M.InRange, Add;
    ghost var read := ReadSchemes(schemes);
    ConstantsDenote();
    var totalRate := "0.0000";
    ghost var rates := 0;
    for i := 0 to |schemes|
      invariant R.RateTotal(read[..i]) == Ok(rates) && totalRate == M.Format(rates)
    {
      assert read[..i + 1][..i] == read[..i];
      if R.RateTotal(read[..i + 1]).Err? {
        R.RateErrorStays(read, i + 1);
      }
      var rate :- M.Parse(schemes[i].rate);
      ParsedDenotes(schemes[i].rate);
      FormatDenotes(rates);
      ArithmeticDenotes(totalRate, rates, schemes[i].rate, rate);
      totalRate :- Add(totalRate, schemes[i].rate);
      rates := rates + rate;
    }
    assert read[..|schemes|] == read;
    return Ok(totalRate);
  }

  /** The breakdown map of the inclusive branch, which runs after every rate has been read. */
  method Breakdown(subtotal: string, ghost s: int, schemes: seq<Scheme>) returns (r: Result<seq<TaxPart>, M.Error>)
    requires subtotal == M.Format(s) && R.RateTotal(ReadSchemes(schemes)).Ok?
    ensures match R.Parts(s, ReadSchemes(schemes))
            case Ok(parts) => |parts| == |schemes| && r == Ok(PrintParts(parts, schemes))
            case Err(e) => r == Err(e)
  {
    hide M.Parse, M.Format, M.InRange, M.RoundDiv, Mul;
    ghost var read := ReadSchemes(schemes);
    FormatDenotes(s);
    var breakdown := [];
    ghost var parts: seq<int> := [];
    for i := 0 to |schemes|
      invariant R.Parts(s, read[..i]) == Ok(parts) && |parts| == i && breakdown == PrintParts(parts, schemes)
    {
      assert read[..i + 1][..i] == read[..i];
      if R.Parts(s, read[..i + 1]).Err? {
        R.PartsErrorStays(s, read, i + 1);
      }
      RatesWereRead(read, i);
      MulReads(subtotal, s, schemes[i].rate);
      var taxPart :- Mul(subtotal, schemes[i].rate);
      parts := parts + [R.Mul(s, M.Parse(schemes[i].rate).value).value];
      breakdown := breakdown + [TaxPart(schemes[i].code, schemes[i].rate, taxPart)];
    }
    assert read[..|schemes|] == read;
    return Ok(breakdown);
  }

  lemma RatesWereRead(schemes: seq<R.Scheme>, i: nat)
    requires i < |schemes| && R.RateTotal(schemes).Ok?
    ensures schemes[i].rate.Ok?
  {
    if R.RateTotal(schemes[..i + 1]).Err? {
      R.RateErrorStays(schemes, i + 1);
    }
  }

  /** The inclusive branch of `calculateItemTaxes`. */
  method InclusiveLine(raw: string, ghost x: int, schemes: seq<Scheme>) returns (r: Result<Line, M.Error>)
    requires raw == M.Format(x)
    ensures Prints(r, R.InclusiveLine(x, ReadSchemes(schemes)), schemes)
  {
    hide M.Parse, M.Format, M.RoundDiv, M.InRange, Add, Sub, Mul, Div, R.RateTotal, R.Parts;
    ghost var read := ReadSchemes(schemes);
    ConstantsDenote();
    FormatDenotes(x);
    var totalRate :- SumRates(schemes);
    ghost var rates := R.RateTotal(read).value;
    FormatDenotes(rates);
    ArithmeticDenotes("1.0000", M.SCALE_FACTOR, totalRate, rates);
    var divisor :- Add("1.0000", totalRate);
    ghost var d := M.SCALE_FACTOR + rates;
    FormatDenotes(d);
    ArithmeticDenotes(raw, x, divisor, d);
    var subtotal :- Div(raw, divisor);
    ghost var s := R.Div(x, d).value;
    FormatDenotes(s);
    ArithmeticDenotes(raw, x, subtotal, s);
    var totalTax :- Sub(raw, subtotal);
    var breakdown :- Breakdown(subtotal, s, schemes);
    return Ok(Line(Totals(subtotal, totalTax, raw), breakdown));
  }

  lemma MulReads(subtotal: string, s: int, rate: string)
    requires Denotes(subtotal, s)
    ensures M.Parse(rate).Ok? ==> Mul(subtotal, rate) == Print(R.Mul(s, M.Parse(rate).value))
    ensures M.Parse(rate).Err? && M.InRange(s) ==> Mul(subtotal, rate) == Err(M.Parse(rate).error)
  {
  }

  /** The exclusive branch of `calculateItemTaxes`. */
  method ExclusiveLine(raw: string, ghost x: int, schemes: seq<Scheme>) returns (r: Result<Line, M.Error>)
    requires raw == M.Format(x)
    ensures Prints(r, R.ExclusiveLine(x, ReadSchemes(schemes)), schemes)
  {
    hide M.Parse, M.Format, M.RoundDiv, M.InRange, Add, Sub, Mul, Div;
    ghost var read := ReadSchemes(schemes);
    ConstantsDenote();
    FormatDenotes(x);
    var totalTax, breakdown := "0.0000", [];
    ghost var tax, parts := 0, [];
    for i := 0 to |schemes|
      invariant R.ExclusiveParts(x, read[..i]) == Ok((tax, parts)) && |parts| == i
      invariant totalTax == M.Format(tax) && breakdown == PrintParts(parts, schemes)
    {
      assert read[..i + 1][..i] == read[..i];
      if R.ExclusiveParts(x, read[..i + 1]).Err? {
        R.ExclusiveErrorStays(x, read, i + 1);
      }
      var rate :- M.Parse(schemes[i].rate);
      MulReads(raw, x, schemes[i].rate);
      var taxPart :- Mul(raw, schemes[i].rate);
      ghost var part := R.Mul(x, rate).value;
      FormatDenotes(part);
      FormatDenotes(tax);
      ArithmeticDenotes(totalTax, tax, taxPart, part);
      totalTax :- Add(totalTax, taxPart);
      tax, parts := tax + part, parts + [part];
      breakdown := breakdown + [TaxPart(schemes[i].code, schemes[i].rate, taxPart)];
    }
    assert read[..|schemes|] == read;
    FormatDenotes(tax);
    ArithmeticDenotes(raw, x, totalTax, tax);
    var totalAmount :- Add(raw, totalTax);
    return Ok(Line(Totals(raw, totalTax, totalAmount), breakdown));
  }

  predicate AnyInclusive(schemes: seq<Scheme>) {
    exists i :: 0 <= i < |schemes| && schemes[i].isInclusive
  }

  /** The line amount, total or subtotal, is the print of price times quantity rounded once. */
  ghost predicate Priced(item: Item, line: Line) {
    && M.Parse(item.unitPrice).Ok? && M.Parse(item.quantity).Ok?
    && exists amount ::
         && M.NearestAwayFromZero(M.Parse(item.unitPrice).value * M.Parse(item.quantity).value, M.SCALE_FACTOR, amount)
         && M.Format(amount) == if AnyInclusive(item.schemes) then line.totals.totalAmount else line.totals.subtotal
  }

  lemma PrintedIsPriced(item: Item, line: Line)
    requires Prints(Ok(line), R.LineTaxes(ReadItem(item)), item.schemes)
    ensures Priced(item, line)
  {
    var read := ReadItem(item);
    R.LineAmountIsNearest(read);
    assert R.AnyInclusive(read.schemes) <==> AnyInclusive(item.schemes) by {
      if i :| 0 <= i < |item.schemes| && item.schemes[i].isInclusive {
        assert read.schemes[i].isInclusive;
      }
      if i :| 0 <= i < |read.schemes| && read.schemes[i].isInclusive {
        assert item.schemes[i].isInclusive;
      }
    }
    hide M.Parse, M.Format, M.NearestAwayFromZero, R.LineTaxes, R.AnyInclusive, AnyInclusive;
    var amount := R.LineAmount(read, R.LineTaxes(read).value);
    assert M.Format(amount) == if AnyInclusive(item.schemes) then line.totals.totalAmount else line.totals.subtotal;
  }

  /** `calculateItemTaxes`. */
  method CalculateItemTaxes(item: Item) returns (r: Result<Line, M.Error>)
    ensures Prints(r, R.LineTaxes(ReadItem(item)), item.schemes)
    ensures r.Ok? ==> Priced(item, r.value)
  {
    r := TaxItem(item);
    hide Prints, Priced;
    if r.Ok? {
      PrintedIsPriced(item, r.value);
    }
  }

  method TaxItem(item: Item) returns (r: Result<Line, M.Error>)
    ensures Prints(r, R.LineTaxes(ReadItem(item)), item.schemes)
  {
    hide M.Parse, M.Format, M.RoundDiv, Mul, R.InclusiveLine, R.ExclusiveLine;
    ghost var read := ReadSchemes(item.schemes);
    var price :- M.Parse(item.unitPrice);
    var quantity :- M.Parse(item.quantity);
    ParsedDenotes(item.unitPrice);
    ParsedDenotes(item.quantity);
    ArithmeticDenotes(item.unitPrice, price, item.quantity, quantity);
    var raw := Mul(item.unitPrice, item.quantity).value;
    ghost var x := M.RoundDiv(price * quantity, M.SCALE_FACTOR);
    if item.schemes == [] {
      ConstantsDenote();
      return Ok(Line(Totals(raw, "0.0000", raw), []));
    }
    if AnyInclusive(item.schemes) {
      ghost var i :| 0 <= i < |item.schemes| && item.schemes[i].isInclusive;
      assert read[i].isInclusive;
      r := InclusiveLine(raw, x, item.schemes);
    } else {
      r := ExclusiveLine(raw, x, item.schemes);
    }
  }

  /** `calculateInvoiceTaxes`. */
  method CalculateInvoiceTaxes(items: seq<Item>) returns (r: Result<Totals, M.Error>)
    ensures r == match R.InvoiceTaxes(ReadItems(items))
                 case Ok(t) => Ok(PrintTotals(t))
                 case Err(e) => Err(e)
  {
    hide M.Parse, M.Format, M.RoundDiv, M.InRange, Add, R.LineTaxes;
    ghost var read := ReadItems(items);
    ghost var lines := R.Lines(read);
    ConstantsDenote();
    var subtotal, taxAmount, totalAmount := "0.0000", "0.0000", "0.0000";
    ghost var sums := R.Totals(0, 0, 0);
    for i := 0 to |items|
      invariant R.SumLines(lines[..i]) == Ok(sums)
      invariant Totals(subtotal, taxAmount, totalAmount) == PrintTotals(sums)
    {
      assert lines[..i + 1][..i] == lines[..i];
      if R.SumLines(lines[..i + 1]).Err? {
        R.SumErrorStays(lines, i + 1);
      }
      var line :- CalculateItemTaxes(items[i]);
      ghost var t := R.LineTaxes(read[i]).value.totals;
      TotalsDenote(sums, t);
      subtotal :- Add(subtotal, line.totals.subtotal);
      taxAmount :- Add(taxAmount, line.totals.taxAmount);
      totalAmount :- Add(totalAmount, line.totals.totalAmount);
      sums := R.Totals(sums.subtotal + t.subtotal, sums.tax + t.tax, sums.total + t.total);
    }
    assert lines[..|items|] == lines;
    return Ok(Totals(subtotal, taxAmount, totalAmount));
  }

  lemma TotalsDenote(s: R.Totals, t: R.Totals)
    ensures Add(M.Format(s.subtotal), M.Format(t.subtotal)) == Print(R.Add(s.subtotal, t.subtotal))
    ensures Add(M.Format(s.tax), M.Format(t.tax)) == Print(R.Add(s.tax, t.tax))
    ensures Add(M.Format(s.total), M.Format(t.total)) == Print(R.Add(s.total, t.total))
  {
    FormatDenotes(s.subtotal); FormatDenotes(t.subtotal);
    FormatDenotes(s.tax); FormatDenotes(t.tax);
    FormatDenotes(s.total); FormatDenotes(t.total);
    ArithmeticDenotes(M.Format(s.subtotal), s.subtotal, M.Format(t.subtotal), t.subtotal);
    ArithmeticDenotes(M.Format(s.tax), s.tax, M.Format(t.tax), t.tax);
    ArithmeticDenotes(M.Format(s.total), s.total, M.Format(t.total), t.total);
  }
}
