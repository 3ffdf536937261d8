/** What pick_focus promises, stated over Focus (which PickFocus is proved to compute). */
module FocusProperties {
  import opened Wrappers
  import opened PyValues
  import opened Models
  import opened SelectFocus

  /** At most two records come back, each one of the candidates. */
  lemma FocusShape(cs: seq<MarketRecord>)
    requires AllSearchable(cs)
    ensures |Focus(cs)| <= 2
    ensures forall r :: r in Focus(cs) ==> r in cs
  {
  }

  /** The crypto pick, when there is one, is the first crypto match and comes first. */
  lemma CryptoPickIsFirst(cs: seq<MarketRecord>, i: nat)
    requires AllSearchable(cs) && FirstMatchIs(cs, CryptoKeywords, i)
    ensures |Focus(cs)| >= 1 && Focus(cs)[0] == cs[i]
  {
    FirstMatchAt(cs, CryptoKeywords, i);
  }

  /** The sports pick, when there is one, is the first sports match and comes last. */
  lemma SportsPickIsFirst(cs: seq<MarketRecord>, i: nat)
    requires AllSearchable(cs) && FirstMatchIs(cs, SportsKeywords, i)
    ensures |Focus(cs)| >= 1 && Focus(cs)[|Focus(cs)| - 1] == cs[i]
  {
    FirstMatchAt(cs, SportsKeywords, i);
  }

  /** With both picks, the result is exactly the crypto pick followed by the sports pick. */
  lemma BothSlotsFilled(cs: seq<MarketRecord>, c: nat, s: nat)
    requires AllSearchable(cs)
    requires FirstMatchIs(cs, CryptoKeywords, c) && FirstMatchIs(cs, SportsKeywords, s)
    ensures Focus(cs) == [cs[c], cs[s]]
  {
    FirstMatchAt(cs, CryptoKeywords, c);
    FirstMatchAt(cs, SportsKeywords, s);
  }

  /** A record that is the first match for both keyword sets fills both slots and comes back twice. */
  lemma DoubleMatchTwice(cs: seq<MarketRecord>, i: nat)
    requires AllSearchable(cs)
    requires FirstMatchIs(cs, CryptoKeywords, i) && FirstMatchIs(cs, SportsKeywords, i)
    ensures Focus(cs) == [cs[i], cs[i]]
  {
    BothSlotsFilled(cs, i, i);
  }

  /** The result is empty exactly when no candidate matches either keyword set. */
  lemma EmptyExactly(cs: seq<MarketRecord>)
    requires AllSearchable(cs)
    ensures Focus(cs) == [] <==>
      forall i :: 0 <= i < |cs| ==> !Matches(cs[i], CryptoKeywords) && !Matches(cs[i], SportsKeywords)
  {
  }

  /**
   * Scanning only up to a prefix that already holds a crypto match and a
   * sports match gives the same result as scanning the whole list: the early
   * exit changes nothing.
   */
  lemma PrefixSuffices(cs: seq<MarketRecord>, n: nat, c: nat, s: nat)
    requires AllSearchable(cs) && n <= |cs|
    requires c < n && Matches(cs[c], CryptoKeywords)
    requires s < n && Matches(cs[s], SportsKeywords)
    ensures AllSearchable(cs[..n]) && Focus(cs[..n]) == Focus(cs)
  {
    var prefix := cs[..n];
    var c0 := FirstMatch(cs, CryptoKeywords).value;
    var s0 := FirstMatch(cs, SportsKeywords).value;
    assert c0 <= c && s0 <= s;
    assert FirstMatchIs(prefix, CryptoKeywords, c0);
    assert FirstMatchIs(prefix, SportsKeywords, s0);
    BothSlotsFilled(prefix, c0, s0);
    BothSlotsFilled(cs, c0, s0);
  }

  /** A record with the given category and question and nothing else of note. */
  function Sample(category: string, question: Value): MarketRecord {
    MarketRecord(Null, Null, question, Str(category), Null, Some(10.0), true, true, false,
                 Str("T1"), Str("T2"), None, None, None, None)
  }

  /** A record whose category is "Crypto" matches the crypto keywords. */
  lemma CryptoCategoryMatches(question: Value)
    requires TextLike(question)
    ensures Searchable(Sample("Crypto", question))
    ensures Matches(Sample("Crypto", question), CryptoKeywords)
  {
    var m := Sample("Crypto", question);
    assert SearchText(m.category) == "crypto" by {
      assert Lower("Crypto") == "crypto";
    }
    PrefixContained("crypto", "crypto");
    assert Hit(m, CryptoKeywords[0]);
  }

  /** A record whose category, or question, is "Sports" matches the sports keywords. */
  lemma SportsTextMatches(m: MarketRecord)
    requires Searchable(m)
    requires m.category == Str("Sports") || m.question == Str("Sports")
    ensures Matches(m, SportsKeywords)
  {
    assert Lower("Sports") == "sports";
    PrefixContained("sports", "sport");
    assert Hit(m, SportsKeywords[0]);
  }

  /** No sports keyword occurs in "crypto" or in "". */
  lemma NoSportsKeywordIn(j: nat)
    requires j < |SportsKeywords|
    ensures !Contains("crypto", SportsKeywords[j]) && !Contains("", SportsKeywords[j])
  {
    var k := SportsKeywords[j];
    assert k != [] && k[0] in {'s', 'f', 'b', 't', 'h', 'n'} && (k[0] == 't' ==> |k| == 6);
    FirstCharAbsent("crypto", k);
    FirstCharAbsent("", k);
  }

  /** No sports keyword occurs in a record whose only text is the category "Crypto". */
  lemma CryptoRecordIsNotSports()
    ensures Searchable(Sample("Crypto", Null)) && !Matches(Sample("Crypto", Null), SportsKeywords)
  {
    var m := Sample("Crypto", Null);
    assert SearchText(m.category) == "crypto" by {
      assert Lower("Crypto") == "crypto";
    }
    assert SearchText(m.question) == "";
    forall j | 0 <= j < |SportsKeywords|
      ensures !Hit(m, SportsKeywords[j])
    {
      NoSportsKeywordIn(j);
    }
    MatchesSomeKeyword(m, SportsKeywords);
  }

  /** A "Crypto" record then a "Sports" record: both come back, crypto first. */
  lemma ExampleCryptoThenSports()
    ensures AllSearchable([Sample("Crypto", Null), Sample("Sports", Null)])
    ensures Focus([Sample("Crypto", Null), Sample("Sports", Null)])
         == [Sample("Crypto", Null), Sample("Sports", Null)]
  {
    var crypto, sports := Sample("Crypto", Null), Sample("Sports", Null);
    var cs := [crypto, sports];
    assert AllSearchable(cs);
    assert FirstMatchIs(cs, CryptoKeywords, 0) by {
      CryptoCategoryMatches(Null);
    }
    assert FirstMatchIs(cs, SportsKeywords, 1) by {
      SportsTextMatches(sports);
      CryptoRecordIsNotSports();
    }
    BothSlotsFilled(cs, 0, 1);
  }

  /** One record whose category is crypto and whose question is about sport fills both slots. */
  lemma ExampleOneRecordTwice()
    ensures AllSearchable([Sample("Crypto", Str("Sports"))])
    ensures Focus([Sample("Crypto", Str("Sports"))])
         == [Sample("Crypto", Str("Sports")), Sample("Crypto", Str("Sports"))]
  {
    var both := Sample("Crypto", Str("Sports"));
    CryptoCategoryMatches(Str("Sports"));
    SportsTextMatches(both);
    assert FirstMatchIs([both], CryptoKeywords, 0);
    assert FirstMatchIs([both], SportsKeywords, 0);
    DoubleMatchTwice([both], 0);
  }

  /** No candidates, no picks. */
  lemma ExampleEmpty()
    ensures Focus([]) == []
  {
  }
}
