/** Epoch identifiers `ep_1`, `ep_2`, ...: the canonical text of a lease generation. */
module Epochs {
  import opened Results
  import opened Decimal

  const MAX_SAFE_INTEGER: nat := 9007199254740991

  /** `parseEpochNumber`: ^ep_([1-9]\d*)$ within the safe integers; `None` is the thrown error. */
  function ParseEpoch(s: string): Option<nat> {
    if |s| > 3 && s[..3] == "ep_" && AllDigits(s[3..]) && s[3] != '0' && Value(s[3..]) <= MAX_SAFE_INTEGER
    then Some(Value(s[3..])) else None
  }

  /** `formatEpochId`; `None` is the thrown error. */
  function FormatEpoch(n: nat): Option<string> {
    if 0 < n <= MAX_SAFE_INTEGER then Some("ep_" + Digits(n)) else None
  }

  /** `compareEpochs`: numeric, never lexical; fails when either text is malformed. */
  function CompareEpochs(a: string, b: string): Option<int> {
    match (ParseEpoch(a), ParseEpoch(b))
    case (Some(x), Some(y)) => Some(x as int - y)
    case _ => None
  }

  lemma ParseOfFormat(n: nat)
    requires FormatEpoch(n).Some?
    ensures ParseEpoch(FormatEpoch(n).value) == Some(n)
  {
    ValueOfDigits(n);
    var s := "ep_" + Digits(n);
    assert s[..3] == "ep_" && s[3..] == Digits(n);
  }

  /** A generation has one text only, so comparing numbers and comparing texts agree on equality. */
  lemma FormatOfParse(s: string)
    requires ParseEpoch(s).Some?
    ensures FormatEpoch(ParseEpoch(s).value) == Some(s)
  {
    DigitsOfValue(s[3..]);
    assert s == s[..3] + s[3..];
  }

  lemma CompareIsZeroOnlyOnEqualTexts(a: string, b: string)
    requires CompareEpochs(a, b).Some?
    ensures CompareEpochs(a, b).value == 0 <==> a == b
  {
    FormatOfParse(a);
    FormatOfParse(b);
  }

  /** Epochs compare as their generations do: the difference has the sign of older, same, newer. */
  lemma ComparesGenerations(m: nat, n: nat)
    requires FormatEpoch(m).Some? && FormatEpoch(n).Some?
    ensures var c := CompareEpochs(FormatEpoch(m).value, FormatEpoch(n).value);
            c.Some? && (c.value < 0 <==> m < n) && (c.value > 0 <==> m > n)
  {
    ParseOfFormat(m);
    ParseOfFormat(n);
    hide ParseEpoch, FormatEpoch;
  }

  /** The first generation is written "ep_1". */
  lemma FirstGeneration()
    ensures FormatEpoch(1) == Some("ep_1") && ParseEpoch("ep_1") == Some(1)
  {
    assert Digits(1) == "1";
    assert "ep_" + "1" == "ep_1";
    ParseOfFormat(1);
  }
}
