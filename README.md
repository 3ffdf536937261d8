# Polymarket market normalisation and selection core, in Dafny

This project models the record-normalisation and selection pipeline of the
polymarket-gamma dashboard (`src/core`):

- **Outcome parser** (`parse_yes_no`): a raw, loosely typed market mapping
  becomes `(yes_price, no_price, yes_token, no_token, invalid_reason)`. The
  fields `outcomes`, `outcomePrices` and `clobTokenIds` may each be missing, a
  list, or a JSON-encoded string. Token ids fall back to a duplicated
  `conditionId`. All three lists must have two elements. The YES side is chosen
  by a case-insensitive test of the first outcome label. Any error while
  reading the two sides resets all four values.
- **Candidate filter** (`is_candidate`): order book enabled, active and not
  closed, closing within `(0, 48]` hours, both token ids truthy.
- **Focus selector** (`pick_focus`): one left-to-right scan fills a crypto
  slot and a sports slot. Each slot takes the first candidate whose
  lower-cased category or question contains one of its keywords. The slots
  are tested independently, so one record can fill both. The scan stops once
  both slots are filled.
- **Record assembly** (`app.py`): parser output and `bool()`-coerced flags
  become a `MarketRecord`. The candidates are the records the filter accepts,
  and the focus is picked from them.

Files, one module each:

| file | module | models |
|---|---|---|
| `wrappers.dfy` | `Wrappers` | `Option` (Python's `None`) and `Result` (an operation that may raise) |
| `py_values.dfy` | `PyValues` | Python values (`None`, bool, int, float, str, list, dict) and the built-ins the core uses: truthiness, `len`, indexing, `float()`, `str.lower()`, substring `in` |
| `parse.dfy` | `Parse` | `parse_yes_no`: the method `ParseYesNo` follows the source statement by statement and is proved to compute `ParseYesNoSpec` |
| `parse_properties.dfy` | `ParseProperties` | what the parser promises, as lemmas over `ParseYesNoSpec` |
| `models.dfy` | `Models` | the `MarketRecord` dataclass |
| `filters.dfy` | `Filters` | `is_candidate` and its properties |
| `select_focus.dfy` | `SelectFocus` | `pick_focus`: the method `PickFocus` keeps the source's scan with its early exit and is proved to compute the full-scan `Focus` |
| `focus_properties.dfy` | `FocusProperties` | what the selector promises, as lemmas over `Focus` |
| `assembly.dfy` | `Assembly` | `load_data`, the candidate list, and lemmas that span the parser, the filter and the selector |

Library behaviour is taken as given. `json.loads` and `float(str)` are the two
oracle fields of `Parse.Builtins`, each returning `None` where the library
raises. `hours_to_close`, applied to a market's `endDate`, is a function
parameter of `Assembly.LoadData`.

Where a reader might expect otherwise, the model follows the code:

- A label pair other than yes/no is not rejected as "not binary". Any first
  label that does not lower-case to `"yes"` puts YES at index 1, with no
  reason (`ParseProperties.ExampleUpDown`).
- One record that matches both keyword sets fills both slots, because the two
  `if`s are independent. It comes back twice
  (`FocusProperties.DoubleMatchTwice`, `FocusProperties.ExampleOneRecordTwice`).
- A later decoding error can overwrite an earlier reason. Only the "missing …"
  reasons check for an earlier reason; the "invalid … JSON" reasons overwrite
  unconditionally (`Parse.DecodingReason`, which `Parse.ParseYesNo` asserts
  equal to its local reason before the binary check). Either way, the binary
  check overwrites every such reason.
- A candidate needs both token ids truthy, not merely non-None, so an
  empty-string id is rejected too (`Filters.EachConditionRejects`).

## Model

| member | source | states |
|---|---|---|
| `Parse.ParseYesNo` | src/core/parse.py:16-86 | the source's sequence of reassignments, including the "first reason" guards and the reset in the exception handlers, returns exactly `ParseYesNoSpec` |
| `Parse.TryReadSides` | src/core/parse.py:69-84 | the try block raises exactly when `ReadSides` fails, with the same error; otherwise it yields the sides `ReadSides` gives |
| `Parse.ParseYesNoSpec` | src/core/parse.py:18-86 | a non-None reason comes with all four values None; a None reason comes with both prices present; the only reasons returned are "not binary YES/NO" and "invalid price" |
| `Parse.DecodeField` | src/core/parse.py:23-45 | a missing field reads as `[]`, a string is replaced by what `json.loads` gives for it or by `[]` when that raises, and any other value is kept as it is |
| `Parse.DecodeTokenIds` | src/core/parse.py:48-63 | without `clobTokenIds` the token list is a truthy `conditionId` twice, or `[]`; otherwise `clobTokenIds` is decoded like the other fields |
| `Parse.DecodingReason` | src/core/parse.py:22-63 | the reason recorded before the binary check: "missing …" only when no reason is set yet, "invalid … JSON" unconditionally; `Parse.ParseYesNo` asserts its local reason equals it |
| `Parse.ReadSides` | src/core/parse.py:69-76 | the try block: YES index from the first label, then the YES and NO tokens, then each price through `float()`, stopping at the first KeyError, AttributeError or failed conversion |
| `Parse.Message` | src/core/parse.py:24-82 | each reason as the source spells it; an exception reason is "invalid price: " followed by `str(e)` |
| `Parse.YesIndex` | src/core/parse.py:70 | the YES index, when the first label can be lower-cased, is 0 or 1 |
| `PyValues.Index` | src/core/parse.py:70-76 | indexing a decoded field below its length raises exactly when the field is a dict (KeyError on the integer index), and gives a list's own element |
| `PyValues.ToFloat` | src/core/parse.py:75-76 | `float()` rejects None, lists and dicts, and keeps a float as it is |
| `PyValues.Lower` | src/core/select_focus.py:10-11 | lower-casing keeps the length and maps each character on its own |
| `PyValues.Truthy` | src/core/filters.py:10 | Python truthiness: None, False, zero, and the empty string, list and dict are falsy; everything else is truthy |
| `PyValues.Contains` | src/core/select_focus.py:16 | `keyword in text`: the keyword is a prefix of the text or occurs in the text after its first character |
| `ParseProperties.DecodingReasonsOverwritten` | src/core/parse.py:23-67 | any reason recorded while decoding ("missing …", "invalid … JSON") ends as "not binary YES/NO" with every value None |
| `ParseProperties.NotBinaryExactly` | src/core/parse.py:66-67 | the reason is "not binary YES/NO" if and only if some decoded field does not have length 2; then all four values are None |
| `ParseProperties.ReasonMessages` | src/core/parse.py:24-84 | the returned reason is None, exactly "not binary YES/NO", or a message starting "invalid price" |
| `ParseProperties.SidesFollowFirstLabel` | src/core/parse.py:70-76 | on success YES is index 0 exactly when the first label lower-cases to "yes" and 1 otherwise; NO is the other index; tokens and prices are read at those indices |
| `ParseProperties.ConditionIdFallback` | src/core/parse.py:48-53 | without `clobTokenIds`, a truthy `conditionId` is both the YES and the NO token of a clean parse |
| `ParseProperties.NoTokenSource` | src/core/parse.py:48-67 | without `clobTokenIds` and a truthy `conditionId`, the token list is empty and the market is "not binary YES/NO" |
| `ParseProperties.UnconvertiblePriceResetsAll` | src/core/parse.py:75-80 | when the tokens and prices can be indexed (a list or a string) but `float()` rejects the YES or NO price, the reason is "invalid price" and both tokens are reset to None with the prices |
| `ParseProperties.LabelWithoutLower` | src/core/parse.py:70-84 | a first label that cannot be read (outcomes decoded to a dict: KeyError 0) or has no `.lower()` (AttributeError) yields an "invalid price" reason for that exception, with all four values None |
| `ParseProperties.ExampleYesNo` | src/core/parse.py:66-76 | `["Yes","No"]`, `["0.65","0.35"]`, `["T1","T2"]` parse to `(0.65, 0.35, "T1", "T2", None)` |
| `ParseProperties.ExampleNoYes` | src/core/parse.py:70-76 | with `["No","Yes"]` the sides swap: `(0.35, 0.65, "T2", "T1", None)` |
| `ParseProperties.ExampleUpDown` | src/core/parse.py:70-71 | any other label pair is accepted with YES at index 1 |
| `ParseProperties.ExampleThreeOutcomes` | src/core/parse.py:66-67 | three outcome labels give "not binary YES/NO" |
| `Filters.CandidateExactly` | src/core/filters.py:1-12 | `is_candidate` holds if and only if all five conditions hold |
| `Filters.EachConditionRejects` | src/core/filters.py:2-11 | order book disabled, inactive or closed, no hours, or a None or empty YES or NO token: each alone rejects |
| `Filters.WindowBoundaries` | src/core/filters.py:8-9 | the window is `0 < h <= 48`: 0, 48.01 and negative hours are out; 0.01 and 48 are in |
| `Filters.IsCandidate` | src/core/filters.py:1-12 | the early-return chain: order book, active and not closed, hours present, hours in `(0, 48]`, both tokens truthy |
| `PyValues.ContainsAt` | src/core/select_focus.py:16 | the substring test `keyword in text` holds exactly when the keyword occurs at some offset |
| `SelectFocus.SearchText` | src/core/select_focus.py:10-11 | `(v or "").lower()`: a falsy field reads as the empty string, a string is lower-cased |
| `SelectFocus.Hit` | src/core/select_focus.py:16 | a keyword hits when it occurs in the lower-cased category or in the lower-cased question |
| `SelectFocus.Matches` | src/core/select_focus.py:15-18 | the keyword list is scanned in order until some keyword hits |
| `SelectFocus.MatchesSomeKeyword` | src/core/select_focus.py:15-16 | a record matches a keyword list exactly when some keyword of it occurs in the lower-cased category or question |
| `SelectFocus.AnyKeywordHits` | src/core/select_focus.py:15-18 | the keyword loop with its `break` reports a hit exactly when the record matches the keyword list |
| `SelectFocus.FirstMatch` | src/core/select_focus.py:9-25 | the slot's index is a matching candidate with no matching candidate before it, or there is no match at all |
| `SelectFocus.Focus` | src/core/select_focus.py:31-36 | the crypto slot followed by the sports slot, each the first matching candidate, an empty slot omitted |
| `SelectFocus.PickFocus` | src/core/select_focus.py:1-36 | the scan, with its early exit once both slots are filled, returns exactly the full-scan result `Focus` |
| `FocusProperties.FocusShape` | src/core/select_focus.py:31-36 | at most two records come back, each drawn from the candidates |
| `FocusProperties.CryptoPickIsFirst` | src/core/select_focus.py:9-18 | the first candidate matching a crypto keyword comes back first |
| `FocusProperties.SportsPickIsFirst` | src/core/select_focus.py:20-25 | the first candidate matching a sports keyword comes back last, whatever the crypto slot holds |
| `FocusProperties.BothSlotsFilled` | src/core/select_focus.py:31-35 | with both picks, the result is the crypto pick followed by the sports pick |
| `FocusProperties.DoubleMatchTwice` | src/core/select_focus.py:14-25 | a record that is the first match for both keyword sets comes back twice |
| `FocusProperties.EmptyExactly` | src/core/select_focus.py:6-36 | the result is empty if and only if no candidate matches either keyword set |
| `FocusProperties.PrefixSuffices` | src/core/select_focus.py:27-29 | scanning only a prefix that already holds both matches gives the same result as scanning the whole list |
| `FocusProperties.ExampleCryptoThenSports` | src/core/select_focus.py:9-36 | a "Crypto" record and then a "Sports" record both come back, crypto first |
| `FocusProperties.ExampleOneRecordTwice` | src/core/select_focus.py:14-25 | a record with category "Crypto" and question "Sports" fills both slots |
| `FocusProperties.ExampleEmpty` | src/core/select_focus.py:6-7 | no candidates give an empty result |
| `Assembly.LoadData` | app.py:17-43 | one record per raw market, in order, each assembled from that market's parse and its hours to close |
| `Assembly.Assemble` | app.py:25-40 | the record's text fields are the market's own, its flags are `bool()` of the market's, and its tokens, prices and reason are the parser's |
| `Assembly.KeptPositions` | app.py:48 | the positions the comprehension keeps, each below the length of the input |
| `Assembly.KeptPositionsIncreasing` | app.py:48 | the kept positions are strictly increasing: each once, in input order |
| `Assembly.KeptPositionsExactly` | app.py:48 | a position is kept if and only if the filter accepts the element there |
| `Assembly.Filter` | app.py:48 | the comprehension's result is the input read off the kept positions, one element per position, in order |
| `Assembly.FilterMembers` | app.py:48 | the comprehension's result holds exactly the accepted elements of the input |
| `Assembly.Candidates` | app.py:48 | the candidates are the accepted records in input order and with their multiplicity: the record at each kept position, where the kept positions are strictly increasing and are exactly those the filter accepts |
| `Assembly.InvalidNeverCandidate` | src/core/filters.py:10-11 | a record built from a parse that carries a reason is never a candidate, because its tokens are None |
| `Assembly.CandidateParsedCleanly` | src/core/filters.py:2-11 | every candidate record comes from a parse with no reason and with both prices |
| `Assembly.TokensDecideCandidacy` | src/core/filters.py:2-11 | with the flags set and 10 hours to close, a parsed market is a candidate if and only if both of its token ids are truthy |
| `Assembly.FocusIsClean` | app.py:48-70 | every record the focus shows is a candidate with a clean parse and both prices |

## Left out

- `hours_to_close` (src/core/parse.py:4-14) reads the wall clock and parses ISO-8601 dates with floating-point division and rounding. It is a function parameter of `Assembly.LoadData`, applied to `endDate`.
- The internals of `json.loads` and `float(str)` are library parsing. They are the oracle fields of `Parse.Builtins`.
- Floating point: prices and hours are `real`. NaN, infinities and rounding are not modelled. `float()` of an integer too large for a double raises OverflowError in Python; the model converts every integer.
- PyValues.Lower: folds ASCII letters only. For the test against `"yes"` this is exact: apart from KELVIN SIGN (U+212A), which becomes `k`, no non-ASCII character lower-cases to a single ASCII letter. For keyword search, a KELVIN SIGN in "hockey" is not folded to `k`, so such a text does not match where Python would match it.
- Parse.ParseYesNo: requires `Parseable`. When a decoded field the `or` of line 66 reaches has no `len()` (JSON `null`, a number or a bool), the source raises TypeError out of `parse_yes_no`; the model leaves that exception out.
- SelectFocus.PickFocus: requires every candidate's category and question to be a string or falsy (`AllSearchable`), following the `Optional[str]` annotations of those fields at src/core/models.py:8-9. The source lower-cases only the candidates its scan reaches, so the requires is stronger than the source's demand: a record after the early exit at src/core/select_focus.py:28-29 is never lower-cased, and on a crypto record, then a sports record, then a record whose category is the integer 5, the source returns the first two normally while the requires excludes that input. On a record the scan does reach, a truthy non-string field makes `.lower()` raise AttributeError out of `pick_focus`; the model leaves that exception out.
- Parse.Message: for "invalid price: could not convert prices …" the repr of `outcomePrices` that the source appends is not rendered.
- The field `clob_token_ids` of `MarketRecord` is never set by the assembly; it is always None.
- src/clients/clob.py, src/api/clob.py and api.py are wrappers over a trading SDK and HTTP routes. src/clients/gamma.py and src/client/gamma.py are HTTP fetches. All of these are network I/O.
- The Streamlit and pandas presentation in app.py (tables, the price toggle, rendering the focus) is UI.
