/**
 * The outcome parser of src/core/parse.py: one raw market mapping becomes
 * (yes_price, no_price, yes_token, no_token, invalid_reason).  The fields
 * `outcomes`, `outcomePrices` and `clobTokenIds` may each be missing, a list,
 * or a JSON-encoded string; token ids fall back to a duplicated `conditionId`;
 * the market must be binary; the YES side is chosen from the first outcome
 * label; and any failure while reading the two sides resets all four values.
 */
module Parse {
  import opened Wrappers
  import opened PyValues

  /** A raw market as the listings endpoint returns it: field name to value. */
  type Market = map<string, Value>

  /** `market.get(key)`: an absent key reads as None. */
  function Get(market: Market, key: string): Value {
    if key in market then market[key] else Null
  }

  /** The library parsing the parser relies on, taken as given. */
  datatype Builtins = Builtins(
    jsonLoads: string -> Option<Value>,  // json.loads; None where it raises
    floatOfStr: string -> Option<real>)  // float(s); None where it raises ValueError

  /** Why reading the two sides failed. */
  datatype PriceError =
    | Unconvertible           // float() raised ValueError or TypeError
    | Raised(error: PyError)  // any other exception inside the try block

  /** The `invalid_reason` values the parser can assign. */
  datatype Reason =
    | MissingOutcomes
    | InvalidOutcomesJson
    | MissingOutcomePrices
    | InvalidOutcomePricesJson
    | MissingTokenIds
    | InvalidTokenIdsJson
    | NotBinary
    | InvalidPrice(cause: PriceError)

  function DecimalText(n: nat): string {
    if n < 10 then [('0' as int + n) as char] else DecimalText(n / 10) + DecimalText(n % 10)
  }

  /** `str(e)` for the exceptions the try block can raise. */
  function ErrorText(e: PyError): string {
    match e
    case KeyError(key) => DecimalText(key)
    case AttributeError(typeName) => "'" + typeName + "' object has no attribute 'lower'"
  }

  /**
   * The reason as the source spells it.  For an unconvertible price the source
   * goes on to append the repr of `outcomePrices`; that rendering is not modelled.
   */
  function Message(r: Reason): string {
    match r
    case MissingOutcomes => "missing outcomes"
    case InvalidOutcomesJson => "invalid outcomes JSON"
    case MissingOutcomePrices => "missing outcomePrices"
    case InvalidOutcomePricesJson => "invalid outcomePrices JSON"
    case MissingTokenIds => "missing clobTokenIds and conditionId"
    case InvalidTokenIdsJson => "invalid clobTokenIds JSON"
    case NotBinary => "not binary YES/NO"
    case InvalidPrice(Unconvertible) => "invalid price: could not convert prices "
    case InvalidPrice(Raised(e)) => "invalid price: " + ErrorText(e)
  }

  /** The parser's five outputs; a token id of `Null` is `None`. */
  datatype Parsed = Parsed(
    yesPrice: Option<real>,
    noPrice: Option<real>,
    yesToken: Value,
    noToken: Value,
    reason: Option<Reason>)

  /** Both sides of a clean binary market. */
  datatype Sides = Sides(yesPrice: real, noPrice: real, yesToken: Value, noToken: Value)

  /** What a list-or-JSON-string field stands for: absent is [], a string is decoded, failing to []. */
  function DecodeField(raw: Value, lib: Builtins): Value {
    match raw
    case Null => List([])
    case Str(text) => (match lib.jsonLoads(text) case Some(v) => v case None => List([]))
    case _ => raw
  }

  /** The token list: `clobTokenIds` decoded, or else a truthy `conditionId` twice, or else []. */
  function DecodeTokenIds(raw: Value, conditionId: Value, lib: Builtins): Value {
    if raw.Null? then
      if Truthy(conditionId) then List([conditionId, conditionId]) else List([])
    else
      DecodeField(raw, lib)
  }

  function Outcomes(market: Market, lib: Builtins): Value {
    DecodeField(Get(market, "outcomes"), lib)
  }

  function Prices(market: Market, lib: Builtins): Value {
    DecodeField(Get(market, "outcomePrices"), lib)
  }

  function TokenIds(market: Market, lib: Builtins): Value {
    DecodeTokenIds(Get(market, "clobTokenIds"), Get(market, "conditionId"), lib)
  }

  /**
   * The binary check's `len` calls do not raise: each decoded field that the
   * short-circuiting `or` reaches has a length.
   */
  predicate Parseable(market: Market, lib: Builtins) {
    var o, p, t := Outcomes(market, lib), Prices(market, lib), TokenIds(market, lib);
    Sized(o) && (Len(o) == 2 ==> Sized(p) && (Len(p) == 2 ==> Sized(t)))
  }

  /** All three decoded fields have exactly two elements. */
  predicate Binary(o: Value, p: Value, t: Value) {
    Sized(o) && Sized(p) && Sized(t) && Len(o) == 2 && Len(p) == 2 && Len(t) == 2
  }

  /**
   * The reason the decoding steps record before the binary check: "missing"
   * reasons only when none is set yet, "invalid JSON" reasons unconditionally.
   */
  function DecodingReason(market: Market, lib: Builtins): Option<Reason> {
    var outcomes := Get(market, "outcomes");
    var afterOutcomes :=
      if outcomes.Null? then Some(MissingOutcomes)
      else if outcomes.Str? && lib.jsonLoads(outcomes.s).None? then Some(InvalidOutcomesJson)
      else None;
    var prices := Get(market, "outcomePrices");
    var afterPrices :=
      if prices.Null? then (if afterOutcomes.None? then Some(MissingOutcomePrices) else afterOutcomes)
      else if prices.Str? && lib.jsonLoads(prices.s).None? then Some(InvalidOutcomePricesJson)
      else afterOutcomes;
    var tokens := Get(market, "clobTokenIds");
    if tokens.Null? then
      if Truthy(Get(market, "conditionId")) || afterPrices.Some? then afterPrices
      else Some(MissingTokenIds)
    else if tokens.Str? && lib.jsonLoads(tokens.s).None? then Some(InvalidTokenIdsJson)
    else afterPrices
  }

  /** The index of the YES side: 0 when the first label lower-cases to "yes", else 1. */
  function YesIndex(outcomes: Value): (r: Result<nat, PyError>)
    requires Sized(outcomes) && Len(outcomes) == 2
    ensures r.Ok? ==> r.value < 2
  {
    match Index(outcomes, 0)
    case Err(e) => Err(e)
    case Ok(first) =>
      if first.Str? then Ok(if Lower(first.s) == "yes" then 0 else 1)
      else Err(AttributeError(TypeName(first)))
  }

  /** The price-reading `try` block: tokens, then prices, at the YES and NO indices. */
  function ReadSides(o: Value, p: Value, t: Value, lib: Builtins): Result<Sides, PriceError>
    requires Binary(o, p, t)
  {
    match YesIndex(o)
    case Err(e) => Err(Raised(e))
    case Ok(yesIdx) =>
      var noIdx := 1 - yesIdx;
      match Index(t, yesIdx)
      case Err(e) => Err(Raised(e))
      case Ok(yesToken) =>
        match Index(t, noIdx)
        case Err(e) => Err(Raised(e))
        case Ok(noToken) =>
          match Index(p, yesIdx)
          case Err(e) => Err(Raised(e))
          case Ok(yesRaw) =>
            match ToFloat(yesRaw, lib.floatOfStr)
            case None => Err(Unconvertible)
            case Some(yesPrice) =>
              match Index(p, noIdx)
              case Err(e) => Err(Raised(e))
              case Ok(noRaw) =>
                match ToFloat(noRaw, lib.floatOfStr)
                case None => Err(Unconvertible)
                case Some(noPrice) => Ok(Sides(yesPrice, noPrice, yesToken, noToken))
  }

  /** All four values reset to None, with a reason. */
  function Rejected(reason: Reason): Parsed {
    Parsed(None, None, Null, Null, Some(reason))
  }

  /**
   * What parse_yes_no returns.  A reason comes with no values at all; no
   * reason comes with both prices; and the only reasons that survive are
   * "not binary" and "invalid price".
   */
  function ParseYesNoSpec(market: Market, lib: Builtins): (r: Parsed)
    requires Parseable(market, lib)
    ensures r.reason.Some? ==> r.yesPrice.None? && r.noPrice.None? && r.yesToken.Null? && r.noToken.Null?
    ensures r.reason.None? ==> r.yesPrice.Some? && r.noPrice.Some?
    ensures r.reason.None? || r.reason == Some(NotBinary) || r.reason.value.InvalidPrice?
  {
    var o, p, t := Outcomes(market, lib), Prices(market, lib), TokenIds(market, lib);
    if !Binary(o, p, t) then Rejected(NotBinary)
    else
      match ReadSides(o, p, t, lib)
      case Ok(s) => Parsed(Some(s.yesPrice), Some(s.noPrice), s.yesToken, s.noToken, None)
      case Err(e) => Rejected(InvalidPrice(e))
  }

  /**
   * parse_yes_no as the source runs it: decode each field in turn, recording
   * the first reason; test for a binary market; then read the two sides,
   * resetting everything when that raises.
   */
  method ParseYesNo(market: Market, lib: Builtins) returns (r: Parsed)
    requires Parseable(market, lib)
    ensures r == ParseYesNoSpec(market, lib)
  {
    var invalidReason: Option<Reason> := None;
    var yesPrice: Option<real>, noPrice: Option<real> := None, None;
    var yesToken, noToken := Null, Null;

    var outcomes := Get(market, "outcomes");
    if outcomes.Null? {
      outcomes := List([]);
      invalidReason := Some(MissingOutcomes);
    } else if outcomes.Str? {
      match lib.jsonLoads(outcomes.s) {
        case Some(v) =>
          outcomes := v;
        case None =>
          outcomes := List([]);
          invalidReason := Some(InvalidOutcomesJson);
      }
    }

    var outcomePrices := Get(market, "outcomePrices");
    if outcomePrices.Null? {
      outcomePrices := List([]);
      if invalidReason.None? {
        invalidReason := Some(MissingOutcomePrices);
      }
    } else if outcomePrices.Str? {
      match lib.jsonLoads(outcomePrices.s) {
        case Some(v) =>
          outcomePrices := v;
        case None =>
          outcomePrices := List([]);
          invalidReason := Some(InvalidOutcomePricesJson);
      }
    }

    var tokenIds := Get(market, "clobTokenIds");
    if tokenIds.Null? {
      var conditionId := Get(market, "conditionId");
      if Truthy(conditionId) {
        tokenIds := List([conditionId, conditionId]);
      } else {
        tokenIds := List([]);
        if invalidReason.None? {
          invalidReason := Some(MissingTokenIds);
        }
      }
    } else if tokenIds.Str? {
      match lib.jsonLoads(tokenIds.s) {
        case Some(v) =>
          tokenIds := v;
        case None =>
          tokenIds := List([]);
          invalidReason := Some(InvalidTokenIdsJson);
      }
    }

    assert invalidReason == DecodingReason(market, lib);
    assert outcomes == Outcomes(market, lib);
    assert outcomePrices == Prices(market, lib);
    assert tokenIds == TokenIds(market, lib);
    if Len(outcomes) != 2 || Len(outcomePrices) != 2 || Len(tokenIds) != 2 {
      invalidReason := Some(NotBinary);
    } else {
      var failure;
      yesPrice, noPrice, yesToken, noToken, failure := TryReadSides(outcomes, outcomePrices, tokenIds, lib);
      if failure.Some? {
        invalidReason := Some(InvalidPrice(failure.value));
        yesPrice, noPrice := None, None;
        yesToken, noToken := Null, Null;
      }
    }
    r := Parsed(yesPrice, noPrice, yesToken, noToken, invalidReason);
  }

  /**
   * The try block of parse_yes_no, statement by statement: `failure` holds the
   * exception that ends it early, and the outputs hold whatever was assigned
   * before that point.
   */
  method TryReadSides(outcomes: Value, outcomePrices: Value, tokenIds: Value, lib: Builtins)
    returns (yesPrice: Option<real>, noPrice: Option<real>, yesToken: Value, noToken: Value,
             failure: Option<PriceError>)
    requires Binary(outcomes, outcomePrices, tokenIds)
    ensures failure.None? <==> ReadSides(outcomes, outcomePrices, tokenIds, lib).Ok?
    ensures failure.Some? ==> failure == Some(ReadSides(outcomes, outcomePrices, tokenIds, lib).error)
    ensures failure.None? ==>
      var s := ReadSides(outcomes, outcomePrices, tokenIds, lib).value;
      yesPrice == Some(s.yesPrice) && noPrice == Some(s.noPrice) &&
      yesToken == s.yesToken && noToken == s.noToken
  {
    yesPrice, noPrice, yesToken, noToken, failure := None, None, Null, Null, None;
    var yesIdx: nat := 0;
    match Index(outcomes, 0) {
      case Err(e) =>
        failure := Some(Raised(e));
      case Ok(first) =>
        if first.Str? {
          yesIdx := if Lower(first.s) == "yes" then 0 else 1;
        } else {
          failure := Some(Raised(AttributeError(TypeName(first))));
        }
    }
    var noIdx: nat := 1 - yesIdx;
    if failure.None? {
      match Index(tokenIds, yesIdx) {
        case Err(e) => failure := Some(Raised(e));
        case Ok(token) => yesToken := token;
      }
    }
    if failure.None? {
      match Index(tokenIds, noIdx) {
        case Err(e) => failure := Some(Raised(e));
        case Ok(token) => noToken := token;
      }
    }
    if failure.None? {
      match Index(outcomePrices, yesIdx) {
        case Err(e) =>
          failure := Some(Raised(e));
        case Ok(raw) =>
          yesPrice := ToFloat(raw, lib.floatOfStr);
          if yesPrice.None? { failure := Some(Unconvertible); }
      }
    }
    if failure.None? {
      match Index(outcomePrices, noIdx) {
        case Err(e) =>
          failure := Some(Raised(e));
        case Ok(raw) =>
          noPrice := ToFloat(raw, lib.floatOfStr);
          if noPrice.None? { failure := Some(Unconvertible); }
      }
    }
  }
}
