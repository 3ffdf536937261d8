/**
 * The glue of app.py that feeds the core: each raw market becomes a record
 * from the parser's output and `bool()`-coerced flags (lines 22-41), the
 * candidates are the records the filter accepts (line 48), and the focus is
 * picked from those (line 70).
 */
module Assembly {
  import opened Wrappers
  import opened PyValues
  import opened Parse
  import opened Models
  import opened Filters
  import opened SelectFocus

  /** The record for one raw market, given the parser's output and the hours to close. */
  function Assemble(market: Market, parsed: Parsed, hours: Option<real>): MarketRecord {
    MarketRecord(
      id := Get(market, "id"),
      slug := Get(market, "slug"),
      question := Get(market, "question"),
      category := Get(market, "category"),
      endDate := Get(market, "endDate"),
      hoursToClose := hours,
      enableOrderBook := Truthy(Get(market, "enableOrderBook")),
      active := Truthy(Get(market, "active")),
      closed := Truthy(Get(market, "closed")),
      yesTokenId := parsed.yesToken,
      noTokenId := parsed.noToken,
      yesPrice := parsed.yesPrice,
      noPrice := parsed.noPrice,
      invalidReason := parsed.reason,
      clobTokenIds := None)
  }

  /** The record app.py builds for `market`; `hoursToClose` is hours_to_close at the time of loading. */
  function RecordOf(market: Market, lib: Builtins, hoursToClose: Value -> Option<real>): MarketRecord
    requires Parseable(market, lib)
  {
    Assemble(market, ParseYesNoSpec(market, lib), hoursToClose(Get(market, "endDate")))
  }

  /** load_data: one record per raw market, in order. */
  method LoadData(markets: seq<Market>, lib: Builtins, hoursToClose: Value -> Option<real>)
    returns (records: seq<MarketRecord>)
    requires forall i :: 0 <= i < |markets| ==> Parseable(markets[i], lib)
    ensures |records| == |markets|
    ensures forall i :: 0 <= i < |markets| ==> records[i] == RecordOf(markets[i], lib, hoursToClose)
  {
    records := [];
    for i := 0 to |markets|
      invariant |records| == i
      invariant forall j :: 0 <= j < i ==> records[j] == RecordOf(markets[j], lib, hoursToClose)
    {
      var m := markets[i];
      var parsed := ParseYesNo(m, lib);
      var rec := Assemble(m, parsed, hoursToClose(Get(m, "endDate")));
      records := records + [rec];
    }
  }

  /** Positions strictly increasing: each at most once, in order. */
  predicate Increasing(ps: seq<nat>) {
    forall k, l :: 0 <= k < l < |ps| ==> ps[k] < ps[l]
  }

  /** The positions of the elements `keep` accepts, in increasing order. */
  function KeptPositions<T>(xs: seq<T>, keep: T -> bool): (ps: seq<nat>)
    ensures forall k :: 0 <= k < |ps| ==> ps[k] < |xs|
  {
    if xs == [] then []
    else
      var n := |xs| - 1;
      KeptPositions(xs[..n], keep) + (if keep(xs[n]) then [n] else [])
  }

  /** The kept positions are listed each once, in increasing order. */
  lemma {:induction false} KeptPositionsIncreasing<T>(xs: seq<T>, keep: T -> bool)
    ensures Increasing(KeptPositions(xs, keep))
  {
    if xs != [] {
      KeptPositionsIncreasing(xs[..|xs| - 1], keep);
    }
  }

  /** A position is listed exactly when `keep` accepts the element there. */
  lemma {:induction false} KeptPositionsExactly<T>(xs: seq<T>, keep: T -> bool, i: nat)
    requires i < |xs|
    ensures i in KeptPositions(xs, keep) <==> keep(xs[i])
  {
    var n := |xs| - 1;
    var front := KeptPositions(xs[..n], keep);
    assert KeptPositions(xs, keep) == front + (if keep(xs[n]) then [n] else []);
    assert n !in front;
    if i < n {
      assert xs[..n][i] == xs[i];
      KeptPositionsExactly(xs[..n], keep, i);
    }
  }

  /**
   * `[x for x in xs if keep(x)]`: the elements at the kept positions, in
   * input order and with their multiplicity.
   */
  function Filter<T>(xs: seq<T>, keep: T -> bool): (ys: seq<T>)
    ensures |ys| == |KeptPositions(xs, keep)|
    ensures forall k :: 0 <= k < |ys| ==> ys[k] == xs[KeptPositions(xs, keep)[k]]
  {
    if xs == [] then []
    else
      var n := |xs| - 1;
      var front := Filter(xs[..n], keep);
      assert forall k :: 0 <= k < |front| ==> xs[..n][KeptPositions(xs[..n], keep)[k]] == xs[KeptPositions(xs[..n], keep)[k]];
      front + (if keep(xs[n]) then [xs[n]] else [])
  }

  /** The filtered list holds exactly the accepted elements. */
  lemma FilterMembers<T>(xs: seq<T>, keep: T -> bool)
    ensures forall y :: y in Filter(xs, keep) ==> y in xs && keep(y)
    ensures forall x :: x in xs && keep(x) ==> x in Filter(xs, keep)
  {
    var ys, ps := Filter(xs, keep), KeptPositions(xs, keep);
    forall y | y in ys
      ensures y in xs && keep(y)
    {
      var k :| 0 <= k < |ys| && ys[k] == y;
      KeptPositionsExactly(xs, keep, ps[k]);
    }
    forall x | x in xs && keep(x)
      ensures x in ys
    {
      var i :| 0 <= i < |xs| && xs[i] == x;
      KeptPositionsExactly(xs, keep, i);
      var k :| 0 <= k < |ps| && ps[k] == i;
      assert ys[k] == x;
    }
  }

  /**
   * `candidates = [r for r in records if is_candidate(r)]`: the accepted
   * records, in input order and with their multiplicity, so that "the first
   * candidate" is the first accepted record.
   */
  function Candidates(records: seq<MarketRecord>): (cs: seq<MarketRecord>)
    ensures var ps := KeptPositions(records, IsCandidate);
      |cs| == |ps| && forall k :: 0 <= k < |cs| ==> cs[k] == records[ps[k]]
    ensures Increasing(KeptPositions(records, IsCandidate))
    ensures forall i :: 0 <= i < |records| ==>
      (i in KeptPositions(records, IsCandidate) <==> IsCandidate(records[i]))
    ensures forall r :: r in cs ==> r in records && IsCandidate(r)
    ensures forall r :: r in records && IsCandidate(r) ==> r in cs
  {
    FilterMembers(records, IsCandidate);
    KeptPositionsIncreasing(records, IsCandidate);
    forall i | 0 <= i < |records|
      ensures i in KeptPositions(records, IsCandidate) <==> IsCandidate(records[i])
    {
      KeptPositionsExactly(records, IsCandidate, i);
    }
    Filter(records, IsCandidate)
  }

  /** A market whose parse carries a reason never becomes a candidate: its tokens are None. */
  lemma InvalidNeverCandidate(market: Market, lib: Builtins, hours: Option<real>)
    requires Parseable(market, lib)
    requires ParseYesNoSpec(market, lib).reason.Some?
    ensures !IsCandidate(Assemble(market, ParseYesNoSpec(market, lib), hours))
  {
  }

  /** Every candidate comes from a clean parse, with both prices. */
  lemma CandidateParsedCleanly(market: Market, lib: Builtins, hours: Option<real>)
    requires Parseable(market, lib)
    requires IsCandidate(Assemble(market, ParseYesNoSpec(market, lib), hours))
    ensures ParseYesNoSpec(market, lib).reason.None?
    ensures ParseYesNoSpec(market, lib).yesPrice.Some? && ParseYesNoSpec(market, lib).noPrice.Some?
  {
  }

  /**
   * With the flags set and ten hours to close, a market is a candidate
   * exactly when both token ids the parser returns are truthy.
   */
  lemma TokensDecideCandidacy(market: Market, lib: Builtins)
    requires Parseable(market, lib)
    requires Truthy(Get(market, "enableOrderBook")) && Truthy(Get(market, "active"))
    requires !Truthy(Get(market, "closed"))
    ensures var parsed := ParseYesNoSpec(market, lib);
      (IsCandidate(Assemble(market, parsed, Some(10.0))) <==>
       Truthy(parsed.yesToken) && Truthy(parsed.noToken))
  {
  }

  /** Every record the focus shows is a candidate with a clean parse and both prices. */
  lemma FocusIsClean(markets: seq<Market>, lib: Builtins, hoursToClose: Value -> Option<real>,
                     records: seq<MarketRecord>)
    requires forall i :: 0 <= i < |markets| ==> Parseable(markets[i], lib)
    requires |records| == |markets|
    requires forall i :: 0 <= i < |markets| ==> records[i] == RecordOf(markets[i], lib, hoursToClose)
    requires AllSearchable(Candidates(records))
    ensures forall r :: r in Focus(Candidates(records)) ==>
      IsCandidate(r) && r.invalidReason.None? && r.yesPrice.Some? && r.noPrice.Some?
  {
    var cs := Candidates(records);
    forall r | r in Focus(cs)
      ensures IsCandidate(r) && r.invalidReason.None? && r.yesPrice.Some? && r.noPrice.Some?
    {
      assert r in cs;
      var i :| 0 <= i < |records| && records[i] == r;
      CandidateParsedCleanly(markets[i], lib, hoursToClose(Get(markets[i], "endDate")));
    }
  }
}
