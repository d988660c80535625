/** Exact scale-4 money: half-away-from-zero division and the canonical decimal strings. */
module Money {
  import opened Results
  import opened Decimal

  const SCALE_FACTOR: int := 10000
  const MIN_SCALE4: int := -999_999_999_999
  const MAX_SCALE4: int := 999_999_999_999

  datatype Error = InvalidFormat | OutOfRange | DivisionByZero

  function Abs(x: int): nat {
    if x < 0 then -x else x
  }

  /** `roundDiv`: sign(a*b) * floor((|a| + floor(|b|/2)) / |b|). */
  function RoundDiv(a: int, b: int): int
    requires b != 0
  {
    var sign := if (a < 0) != (b < 0) then -1 else 1;
    var quotient := (Abs(a) + Abs(b) / 2) / Abs(b);
    sign * quotient
  }

  /** `q` is a nearest integer to a/b, and on a tie the one farther from zero. */
  predicate NearestAwayFromZero(a: int, b: int, q: int) {
    && 2 * Abs(b * q - a) <= Abs(b)
    && (2 * Abs(b * q - a) == Abs(b) ==> if a < 0 then b * q < a else b * q > a)
  }

  lemma QuotientBounds(x: nat, y: nat)
    requires y > 0
    ensures -(y as int) < 2 * (y * ((x + y / 2) / y) - x) <= y
  {
    var q := (x + y / 2) / y;
    assert x + y / 2 == y * q + (x + y / 2) % y;
  }

  /** The product b * RoundDiv(a, b) has the sign of a and the size |b| * |quotient|. */
  lemma SignedProduct(a: int, b: int, q: int)
    requires b != 0
    ensures b * (if (a < 0) != (b < 0) then -1 * q else 1 * q)
         == if a < 0 then -(Abs(b) * q) else Abs(b) * q
  {
    assert b * (-1 * q) == -(b * q);
  }

  lemma NearestFromSizes(a: int, b: int, r: int, size: int)
    requires b * r == if a < 0 then -size else size
    requires -(Abs(b) as int) < 2 * (size - Abs(a)) <= Abs(b)
    ensures NearestAwayFromZero(a, b, r)
    ensures Abs(b * r - a) <= Abs(b) / 2
  {
    var product := b * r;
    assert Abs(product - a) == Abs(size - Abs(a));
  }

  /** The result is the mathematically rounded quotient, ties away from zero. */
  lemma RoundDivIsNearest(a: int, b: int)
    requires b != 0
    ensures NearestAwayFromZero(a, b, RoundDiv(a, b))
    ensures Abs(b * RoundDiv(a, b) - a) <= Abs(b) / 2
  {
    var q := (Abs(a) + Abs(b) / 2) / Abs(b);
    QuotientBounds(Abs(a), Abs(b));
    SignedProduct(a, b, q);
    var r := RoundDiv(a, b);
    assert r == if (a < 0) != (b < 0) then -1 * q else 1 * q;
    NearestFromSizes(a, b, r, Abs(b) * q);
  }

  /** At most one integer meets the specification, so `RoundDivIsNearest` pins `RoundDiv` down. */
  lemma NearestIsUnique(a: int, b: int, p: int, q: int)
    requires b != 0
    requires NearestAwayFromZero(a, b, p) && NearestAwayFromZero(a, b, q)
    ensures p == q
  {
    if p != q {
      MultipleIsLarge(b, p - q);
      assert b * (p - q) == b * p - b * q;
      var x, y, step := b * p, b * q, Abs(b);
      TieOnOneSide(a, step, x, y);
    }
  }

  /** Two points within half a step of `a`, on the same outward side when they tie, are less than a
      step apart. */
  lemma TieOnOneSide(a: int, step: nat, x: int, y: int)
    requires step > 0
    requires 2 * Abs(x - a) <= step && 2 * Abs(y - a) <= step
    requires 2 * Abs(x - a) == step ==> if a < 0 then x < a else x > a
    requires 2 * Abs(y - a) == step ==> if a < 0 then y < a else y > a
    ensures Abs(x - y) < step
  {
  }

  lemma MultipleIsLarge(b: int, k: int)
    requires k != 0
    ensures Abs(b * k) >= Abs(b)
  {
    if k > 0 {
      assert b * k == b + b * (k - 1);
      SameSign(b, k - 1);
    } else {
      assert b * k == -(b + b * (-k - 1));
      SameSign(b, -k - 1);
    }
  }

  lemma SameSign(b: int, k: nat)
    ensures b >= 0 ==> b * k >= 0
    ensures b <= 0 ==> b * k <= 0
  {
  }

  /** Rounding is the identity on exact multiples. */
  lemma RoundDivExact(q: int, b: int)
    requires b != 0
    ensures RoundDiv(b * q, b) == q
  {
    RoundDivIsNearest(b * q, b);
    NearestIsUnique(b * q, b, RoundDiv(b * q, b), q);
  }

  predicate InRange(x: int) {
    MIN_SCALE4 <= x <= MAX_SCALE4
  }

  /** `scaledBigIntToDecimalString`. */
  function Format(scaled: int): string {
    var sign := if scaled < 0 then "-" else "";
    var abs := Abs(scaled);
    sign + Digits(abs / 10000) + "." + PadStart(Digits(abs % 10000), 4)
  }

  function Unsigned(s: string): string {
    if |s| > 0 && s[0] == '-' then s[1..] else s
  }

  /** The expression ^-?\d+\.\d{4}$ without its sign. */
  predicate UnsignedShape(clean: string) {
    && |clean| >= 6
    && clean[|clean| - 5] == '.'
    && AllDigits(clean[..|clean| - 5])
    && AllDigits(clean[|clean| - 4..])
  }

  predicate WellFormed(s: string) {
    UnsignedShape(Unsigned(s))
  }

  function Whole(s: string): string
    requires WellFormed(s)
  {
    Unsigned(s)[..|Unsigned(s)| - 5]
  }

  function Fraction(s: string): string
    requires WellFormed(s)
  {
    Unsigned(s)[|Unsigned(s)| - 4..]
  }

  /** The amount a well-formed string denotes, before any range check. */
  function Amount(s: string): int
    requires WellFormed(s)
  {
    var scaled := Value(Whole(s)) * 10000 + Value(Fraction(s));
    if s[0] == '-' then -scaled else scaled
  }

  /** `decimalStringToScaledBigInt`. */
  function Parse(s: string): Result<int, Error> {
    if !WellFormed(s) then Err(InvalidFormat)
    else if !InRange(Amount(s)) then Err(OutOfRange)
    else Ok(Amount(s))
  }

  /** A sign, a run of digits, a dot and four digits make a well-formed text denoting the number
      they spell. */
  lemma AmountOfParts(negative: bool, whole: string, fraction: string)
    requires AllDigits(whole) && |whole| > 0 && AllDigits(fraction) && |fraction| == 4
    ensures var s := (if negative then "-" else "") + whole + "." + fraction;
            && WellFormed(s)
            && Whole(s) == whole && Fraction(s) == fraction
            && (s[0] == '-' <==> negative)
            && var n := Value(whole) * 10000 + Value(fraction); Amount(s) == if negative then -n else n
  {
    var clean := whole + "." + fraction;
    var s := (if negative then "-" else "") + whole + "." + fraction;
    assert IsDigit(whole[0]);
    assert Unsigned(s) == clean;
    assert clean[..|clean| - 5] == whole && clean[|clean| - 4..] == fraction;
  }

  lemma FractionText(n: nat)
    requires n < 10000
    ensures var f := PadStart(Digits(n), 4); AllDigits(f) && |f| == 4 && Value(f) == n
  {
    assert Power10(4) == 10000;
    DigitsLength(n, 4);
    ValueOfDigits(n);
    ValueOfPadStart(Digits(n), 4);
  }

  /** Every integer prints as a well-formed string that denotes it, without leading zeros. */
  lemma FormatDenotes(x: int)
    ensures CanonicalText(Format(x)) && Amount(Format(x)) == x
  {
    var whole, fraction := Abs(x) / 10000, Abs(x) % 10000;
    FractionText(fraction);
    ValueOfDigits(whole);
    AmountOfParts(x < 0, Digits(whole), PadStart(Digits(fraction), 4));
    assert whole * 10000 + fraction == Abs(x);
  }

  lemma FormatConstants()
    ensures Format(0) == "0.0000" && Format(10000) == "1.0000"
  {
    assert ['0'] + "0" == "00" && ['0'] + "00" == "000" && ['0'] + "000" == "0000";
    assert PadStart("0", 4) == PadStart("00", 4) == PadStart("000", 4) == "0000";
  }

  /** Formatting then parsing returns the amount exactly when it is in range, and fails otherwise. */
  lemma ParseFormat(x: int)
    ensures Parse(Format(x)) == if InRange(x) then Ok(x) else Err(OutOfRange)
  {
    FormatDenotes(x);
  }

  predicate CanonicalText(s: string) {
    && WellFormed(s)
    && Canonical(Whole(s))
    && (s[0] == '-' ==> Amount(s) != 0)
  }

  /** The partner: parsing then formatting returns the same text exactly for the texts without
      redundant leading zeros or a signed zero. */
  lemma FormatParse(s: string)
    requires WellFormed(s)
    ensures Format(Amount(s)) == s <==> CanonicalText(s)
  {
    if CanonicalText(s) {
      FormatCanonical(s);
    } else {
      FormatDenotes(Amount(s));
    }
  }

  lemma TextOfParts(s: string)
    requires WellFormed(s)
    ensures AllDigits(Whole(s)) && AllDigits(Fraction(s)) && |Fraction(s)| == 4
    ensures s == (if s[0] == '-' then "-" else "") + Whole(s) + "." + Fraction(s)
  {
    var clean := Unsigned(s);
    assert clean == Whole(s) + "." + Fraction(s);
    assert s == (if s[0] == '-' then "-" else "") + clean;
  }

  lemma FormatCanonical(s: string)
    requires CanonicalText(s)
    ensures Format(Amount(s)) == s
  {
    TextOfParts(s);
    var w, f, negative := Value(Whole(s)), Value(Fraction(s)), s[0] == '-';
    var n: int := w * 10000 + f;
    assert Amount(s) == if negative then -n else n;
    DigitsOfValue(Whole(s));
    PadToFour(Fraction(s));
    FormatOfParts(negative, w, f);
  }

  lemma FormatOfParts(negative: bool, w: nat, f: nat)
    requires f < 10000 && (negative ==> w * 10000 + f != 0)
    ensures var n := w * 10000 + f;
            Format(if negative then -n else n) == (if negative then "-" else "") + Digits(w) + "." + PadStart(Digits(f), 4)
  {
    SplitAmount(w, f);
    FormatSigned(negative, w * 10000 + f);
  }

  lemma SplitAmount(w: nat, f: nat)
    requires f < 10000
    ensures (w * 10000 + f) / 10000 == w && (w * 10000 + f) % 10000 == f
  {
  }

  lemma FormatSigned(negative: bool, n: nat)
    requires negative ==> n != 0
    ensures Format(if negative then -(n as int) else n)
         == (if negative then "-" else "") + Digits(n / 10000) + "." + PadStart(Digits(n % 10000), 4)
  {
    hide Digits, PadStart;
  }

  lemma {:induction false} PadToFour(s: string)
    requires AllDigits(s) && |s| == 4
    ensures Value(s) < 10000 && PadStart(Digits(Value(s)), 4) == s
  {
    ValueBelowPower(s);
    assert Power10(4) == 10000;
    StripZeros(s, 0);
  }

  /** Dropping leading zeros and padding back restores the text. */
  lemma {:induction false} StripZeros(s: string, k: nat)
    requires AllDigits(s) && |s| == 4 && k < 4
    requires forall i | 0 <= i < k :: s[i] == '0'
    requires Value(s) == Value(s[k..])
    ensures PadStart(Digits(Value(s)), 4) == s
    decreases 4 - k
  {
    var rest := s[k..];
    if Canonical(rest) {
      DigitsOfValue(rest);
      PadZeros(rest, s);
    } else {
      assert rest[0] == '0' && |rest| > 1;
      assert rest == ['0'] + s[k + 1..];
      ValueOfLeadingZero(s[k + 1..]);
      StripZeros(s, k + 1);
    }
  }

  lemma {:induction false} PadZeros(t: string, s: string)
    requires |s| == 4 && |t| <= 4 && s[4 - |t|..] == t
    requires forall i | 0 <= i < 4 - |t| :: s[i] == '0'
    ensures PadStart(t, 4) == s
    decreases 4 - |t|
  {
    if |t| < 4 {
      assert s[4 - |t| - 1..] == ['0'] + t;
      PadZeros(['0'] + t, s);
    }
  }

  /** `multiplyScale4`: (a*b)/10000, rounded. */
  function MultiplyScale4(a: int, b: int): int {
    RoundDiv(a * b, SCALE_FACTOR)
  }
}
