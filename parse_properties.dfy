/**
 * What parse_yes_no promises, stated over ParseYesNoSpec (which the method
 * ParseYesNo is proved to compute).
 */
module ParseProperties {
  import opened Wrappers
  import opened PyValues
  import opened Parse

  /** Every reason recorded while decoding is overwritten by "not binary YES/NO". */
  lemma DecodingReasonsOverwritten(market: Market, lib: Builtins)
    requires Parseable(market, lib)
    requires DecodingReason(market, lib).Some?
    ensures ParseYesNoSpec(market, lib) == Rejected(NotBinary)
  {
  }

  /** "not binary YES/NO" is returned exactly when some decoded field is not of length two. */
  lemma NotBinaryExactly(market: Market, lib: Builtins)
    requires Parseable(market, lib)
    ensures ParseYesNoSpec(market, lib).reason == Some(NotBinary)
        <==> !Binary(Outcomes(market, lib), Prices(market, lib), TokenIds(market, lib))
    ensures ParseYesNoSpec(market, lib).reason == Some(NotBinary)
        ==> ParseYesNoSpec(market, lib) == Rejected(NotBinary)
  {
  }

  /** The returned reason reads as None, "not binary YES/NO" or "invalid price…". */
  lemma ReasonMessages(market: Market, lib: Builtins)
    requires Parseable(market, lib)
    ensures var r := ParseYesNoSpec(market, lib).reason;
      r.None? || Message(r.value) == "not binary YES/NO" || "invalid price" <= Message(r.value)
  {
  }

  /**
   * On success the YES side sits at index 0 exactly when the first label
   * lower-cases to "yes", and at 1 otherwise; the NO side is the other index;
   * tokens and prices are read at those same indices.
   */
  lemma SidesFollowFirstLabel(market: Market, lib: Builtins)
    requires Parseable(market, lib)
    requires ParseYesNoSpec(market, lib).reason.None?
    ensures var o, p, t := Outcomes(market, lib), Prices(market, lib), TokenIds(market, lib);
      var r := ParseYesNoSpec(market, lib);
      Binary(o, p, t) && Index(o, 0).Ok? && Index(o, 0).value.Str? &&
      var y := if Lower(Index(o, 0).value.s) == "yes" then 0 else 1;
      Index(t, y) == Ok(r.yesToken) && Index(t, 1 - y) == Ok(r.noToken) &&
      Index(p, y).Ok? && r.yesPrice == ToFloat(Index(p, y).value, lib.floatOfStr) &&
      Index(p, 1 - y).Ok? && r.noPrice == ToFloat(Index(p, 1 - y).value, lib.floatOfStr)
  {
  }

  /** Without `clobTokenIds`, a truthy `conditionId` is both the YES and the NO token. */
  lemma ConditionIdFallback(market: Market, lib: Builtins)
    requires Parseable(market, lib)
    requires Get(market, "clobTokenIds").Null? && Truthy(Get(market, "conditionId"))
    requires ParseYesNoSpec(market, lib).reason.None?
    ensures ParseYesNoSpec(market, lib).yesToken == Get(market, "conditionId")
    ensures ParseYesNoSpec(market, lib).noToken == Get(market, "conditionId")
  {
  }

  /** Without `clobTokenIds` and without a truthy `conditionId` the token list is empty: not binary. */
  lemma NoTokenSource(market: Market, lib: Builtins)
    requires Parseable(market, lib)
    requires Get(market, "clobTokenIds").Null? && !Truthy(Get(market, "conditionId"))
    ensures TokenIds(market, lib) == List([])
    ensures ParseYesNoSpec(market, lib) == Rejected(NotBinary)
  {
  }

  /**
   * A binary market whose tokens and prices can be indexed, but whose YES or
   * NO price `float()` rejects, loses its tokens too.
   */
  lemma UnconvertiblePriceResetsAll(market: Market, lib: Builtins)
    requires Parseable(market, lib)
    requires var o, p, t := Outcomes(market, lib), Prices(market, lib), TokenIds(market, lib);
      Binary(o, p, t) && Index(o, 0).Ok? && Index(o, 0).value.Str? &&
      var y := if Lower(Index(o, 0).value.s) == "yes" then 0 else 1;
      Index(t, y).Ok? && Index(t, 1 - y).Ok? && Index(p, y).Ok? && Index(p, 1 - y).Ok? &&
      (ToFloat(Index(p, y).value, lib.floatOfStr).None? ||
       ToFloat(Index(p, 1 - y).value, lib.floatOfStr).None?)
    ensures ParseYesNoSpec(market, lib) == Rejected(InvalidPrice(Unconvertible))
  {
  }

  /**
   * A first label that cannot be read (the outcomes decode to a dict: KeyError 0)
   * or has no `.lower()` (AttributeError) is an "invalid price" too, with every
   * value reset.
   */
  lemma LabelWithoutLower(market: Market, lib: Builtins)
    requires Parseable(market, lib)
    requires Binary(Outcomes(market, lib), Prices(market, lib), TokenIds(market, lib))
    ensures var first := Index(Outcomes(market, lib), 0);
      first.Err? ==> ParseYesNoSpec(market, lib) == Rejected(InvalidPrice(Raised(KeyError(0))))
    ensures var first := Index(Outcomes(market, lib), 0);
      first.Ok? && !first.value.Str? ==>
        ParseYesNoSpec(market, lib) == Rejected(InvalidPrice(Raised(AttributeError(TypeName(first.value)))))
  {
  }

  function SampleMarket(labels: seq<string>): Market {
    map[
      "outcomes" := List(seq(|labels|, i requires 0 <= i < |labels| => Str(labels[i]))),
      "outcomePrices" := List([Str("0.65"), Str("0.35")]),
      "clobTokenIds" := List([Str("T1"), Str("T2")])]
  }

  /** `["Yes","No"]`, `["0.65","0.35"]`, `["T1","T2"]` parse to (0.65, 0.35, "T1", "T2", None). */
  lemma ExampleYesNo(lib: Builtins)
    requires lib.floatOfStr("0.65") == Some(0.65) && lib.floatOfStr("0.35") == Some(0.35)
    ensures Parseable(SampleMarket(["Yes", "No"]), lib)
    ensures ParseYesNoSpec(SampleMarket(["Yes", "No"]), lib)
         == Parsed(Some(0.65), Some(0.35), Str("T1"), Str("T2"), None)
  {
    assert Lower("Yes") == "yes";
  }

  /** With `["No","Yes"]` the sides swap. */
  lemma ExampleNoYes(lib: Builtins)
    requires lib.floatOfStr("0.65") == Some(0.65) && lib.floatOfStr("0.35") == Some(0.35)
    ensures Parseable(SampleMarket(["No", "Yes"]), lib)
    ensures ParseYesNoSpec(SampleMarket(["No", "Yes"]), lib)
         == Parsed(Some(0.35), Some(0.65), Str("T2"), Str("T1"), None)
  {
    assert Lower("No") != "yes";
  }

  /** Any other label pair is still accepted, with the YES side at index 1. */
  lemma ExampleUpDown(lib: Builtins)
    requires lib.floatOfStr("0.65") == Some(0.65) && lib.floatOfStr("0.35") == Some(0.35)
    ensures Parseable(SampleMarket(["Up", "Down"]), lib)
    ensures ParseYesNoSpec(SampleMarket(["Up", "Down"]), lib)
         == Parsed(Some(0.35), Some(0.65), Str("T2"), Str("T1"), None)
  {
    assert Lower("Up") != "yes";
  }

  /** Three outcome labels: not binary, whatever the other fields hold. */
  lemma ExampleThreeOutcomes(lib: Builtins)
    ensures Parseable(SampleMarket(["A", "B", "C"]), lib)
    ensures ParseYesNoSpec(SampleMarket(["A", "B", "C"]), lib) == Rejected(NotBinary)
  {
  }
}
