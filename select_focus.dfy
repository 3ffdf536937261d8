/**
 * The focus selector of src/core/select_focus.py: one scan over the
 * candidates fills a crypto slot and a sports slot, each with the first
 * candidate whose lower-cased category or question contains one of the
 * slot's keywords.  The two slots are tested independently, so one record may
 * fill both.
 */
module SelectFocus {
  import opened Wrappers
  import opened PyValues
  import opened Models

  const CryptoKeywords: seq<string> := ["crypto", "bitcoin", "ethereum", "btc", "eth", "cryptocurrency"]
  const SportsKeywords: seq<string> :=
    ["sport", "football", "basketball", "soccer", "tennis", "baseball", "hockey", "nfl"]

  /** `(v or "").lower()` does not raise: a truthy value is a string. */
  predicate TextLike(v: Value) {
    Truthy(v) ==> v.Str?
  }

  /** Both searched fields of a record can be lower-cased. */
  predicate Searchable(m: MarketRecord) {
    TextLike(m.category) && TextLike(m.question)
  }

  predicate AllSearchable(cs: seq<MarketRecord>) {
    forall i :: 0 <= i < |cs| ==> Searchable(cs[i])
  }

  /** `(v or "").lower()`: None and other falsy values read as "". */
  function SearchText(v: Value): string
    requires TextLike(v)
  {
    Lower(if Truthy(v) then v.s else "")
  }

  /** `keyword in category_lower or keyword in question_lower`. */
  predicate Hit(m: MarketRecord, keyword: string)
    requires Searchable(m)
  {
    Contains(SearchText(m.category), keyword) || Contains(SearchText(m.question), keyword)
  }

  /** Some keyword of the list occurs in the record's category or question. */
  predicate Matches(m: MarketRecord, keywords: seq<string>)
    requires Searchable(m)
  {
    keywords != [] && (Hit(m, keywords[0]) || Matches(m, keywords[1..]))
  }

  /** Matches means a hit at some position of the keyword list. */
  lemma {:induction false} MatchesSomeKeyword(m: MarketRecord, keywords: seq<string>)
    requires Searchable(m)
    ensures Matches(m, keywords) <==> exists j :: 0 <= j < |keywords| && Hit(m, keywords[j])
  {
    if keywords != [] {
      MatchesSomeKeyword(m, keywords[1..]);
      if exists j :: 0 <= j < |keywords| && Hit(m, keywords[j]) {
        var j :| 0 <= j < |keywords| && Hit(m, keywords[j]);
        if j > 0 {
          assert keywords[1..][j - 1] == keywords[j];
        }
      }
      if Matches(m, keywords[1..]) {
        var j :| 0 <= j < |keywords| - 1 && Hit(m, keywords[1..][j]);
        assert Hit(m, keywords[j + 1]);
      }
    }
  }

  /** No candidate before index `n` matches. */
  ghost predicate NoneMatchBefore(cs: seq<MarketRecord>, keywords: seq<string>, n: nat)
    requires AllSearchable(cs) && n <= |cs|
  {
    forall j :: 0 <= j < n ==> !Matches(cs[j], keywords)
  }

  /** Candidate `k` matches and none before it does. */
  ghost predicate FirstMatchIs(cs: seq<MarketRecord>, keywords: seq<string>, k: nat)
    requires AllSearchable(cs)
  {
    k < |cs| && Matches(cs[k], keywords) && NoneMatchBefore(cs, keywords, k)
  }

  /** The index of the first candidate that matches, if any. */
  function FirstMatch(cs: seq<MarketRecord>, keywords: seq<string>): (r: Option<nat>)
    requires AllSearchable(cs)
    ensures r.Some? ==> r.value < |cs| && Matches(cs[r.value], keywords)
    ensures r.Some? ==> forall j :: 0 <= j < r.value ==> !Matches(cs[j], keywords)
    ensures r.None? ==> forall j :: 0 <= j < |cs| ==> !Matches(cs[j], keywords)
  {
    if cs == [] then None
    else if Matches(cs[0], keywords) then Some(0)
    else
      assert forall j :: 0 < j < |cs| ==> cs[j] == cs[1..][j - 1];
      match FirstMatch(cs[1..], keywords)
      case None => None
      case Some(k) => Some(k + 1)
  }

  /** One slot: the first matching candidate, or nothing. */
  function Slot(cs: seq<MarketRecord>, keywords: seq<string>): seq<MarketRecord>
    requires AllSearchable(cs)
  {
    match FirstMatch(cs, keywords)
    case None => []
    case Some(i) => [cs[i]]
  }

  /** What pick_focus returns: the crypto slot, then the sports slot, unfilled slots omitted. */
  function Focus(cs: seq<MarketRecord>): seq<MarketRecord>
    requires AllSearchable(cs)
  {
    Slot(cs, CryptoKeywords) + Slot(cs, SportsKeywords)
  }

  /** The first candidate that matches and has no earlier match is the one FirstMatch finds. */
  lemma FirstMatchAt(cs: seq<MarketRecord>, keywords: seq<string>, i: nat)
    requires AllSearchable(cs)
    requires FirstMatchIs(cs, keywords, i)
    ensures FirstMatch(cs, keywords) == Some(i)
  {
  }

  /** When no candidate matches, FirstMatch finds nothing. */
  lemma NoMatchAnywhere(cs: seq<MarketRecord>, keywords: seq<string>)
    requires AllSearchable(cs) && NoneMatchBefore(cs, keywords, |cs|)
    ensures FirstMatch(cs, keywords) == None
  {
  }

  /** A candidate that does not match extends the run of non-matching ones. */
  lemma NoneMatchExtend(cs: seq<MarketRecord>, keywords: seq<string>, n: nat)
    requires AllSearchable(cs) && n < |cs|
    requires NoneMatchBefore(cs, keywords, n) && !Matches(cs[n], keywords)
    ensures NoneMatchBefore(cs, keywords, n + 1)
  {
  }

  /** The keyword loop of one slot: whether some keyword hits, stopping at the first that does. */
  method AnyKeywordHits(market: MarketRecord, keywords: seq<string>) returns (found: bool)
    requires Searchable(market)
    ensures found == Matches(market, keywords)
  {
    var categoryLower := SearchText(market.category);
    var questionLower := SearchText(market.question);
    found := false;
    var k := 0;
    while k < |keywords|
      invariant 0 <= k <= |keywords|
      invariant Matches(market, keywords) == Matches(market, keywords[k..])
    {
      assert keywords[k..][1..] == keywords[k + 1..];
      if Contains(categoryLower, keywords[k]) || Contains(questionLower, keywords[k]) {
        found := true;
        break;
      }
      k := k + 1;
    }
  }

  /**
   * pick_focus as the source runs it: a left-to-right scan testing each
   * unfilled slot, leaving the scan as soon as both slots are filled.  Its
   * result is that of the full scan.
   */
  method PickFocus(candidates: seq<MarketRecord>) returns (result: seq<MarketRecord>)
    requires AllSearchable(candidates)
    ensures result == Focus(candidates)
  {
    var crypto: Option<MarketRecord> := None;
    var sports: Option<MarketRecord> := None;
    ghost var cryptoAt: nat := 0;
    ghost var sportsAt: nat := 0;
    var i := 0;
    while i < |candidates|
      invariant 0 <= i <= |candidates|
      invariant crypto.None? ==> NoneMatchBefore(candidates, CryptoKeywords, i)
      invariant crypto.Some? ==> FirstMatchIs(candidates, CryptoKeywords, cryptoAt)
      invariant crypto.Some? ==> cryptoAt < |candidates| && crypto.value == candidates[cryptoAt]
      invariant sports.None? ==> NoneMatchBefore(candidates, SportsKeywords, i)
      invariant sports.Some? ==> FirstMatchIs(candidates, SportsKeywords, sportsAt)
      invariant sports.Some? ==> sportsAt < |candidates| && sports.value == candidates[sportsAt]
    {
      var market := candidates[i];
      if crypto.None? {
        var hit := AnyKeywordHits(market, CryptoKeywords);
        if hit {
          crypto, cryptoAt := Some(market), i;
        }
      }
      if sports.None? {
        var hit := AnyKeywordHits(market, SportsKeywords);
        if hit {
          sports, sportsAt := Some(market), i;
        }
      }
      if crypto.Some? && sports.Some? {
        break;
      }
      if crypto.None? {
        NoneMatchExtend(candidates, CryptoKeywords, i);
      }
      if sports.None? {
        NoneMatchExtend(candidates, SportsKeywords, i);
      }
      i := i + 1;
    }

    if crypto.Some? {
      FirstMatchAt(candidates, CryptoKeywords, cryptoAt);
    } else {
      NoMatchAnywhere(candidates, CryptoKeywords);
    }
    if sports.Some? {
      FirstMatchAt(candidates, SportsKeywords, sportsAt);
    } else {
      NoMatchAnywhere(candidates, SportsKeywords);
    }
    result := [];
    if crypto.Some? {
      result := result + [crypto.value];
    }
    if sports.Some? {
      result := result + [sports.value];
    }
  }
}
