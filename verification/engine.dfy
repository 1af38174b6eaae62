/**
  The search-and-suggest engine: pure functions over the fixed corpus of
  firm records. The tag universe is every distinct industry string, sorted;
  suggestions are the first eight tags of that universe containing the query
  case-insensitively; a search keeps, in corpus order, the records one of
  whose industries contains the query case-insensitively.
 */
module Engine {
  import opened Text
  import opened StringOrder
  import opened Seqs
  import opened Records

  /** The suggestion list is cut to this many entries. */
  const MaxSuggestions: nat := 8

  /** `t` is an industry of some record of the corpus. */
  predicate IsIndustryOf(corpus: seq<VC>, t: String)
  {
    exists vc :: vc in corpus && t in vc.industries
  }

  /** `corpus.flatMap(vc => vc.industries)`: all industry strings, record by
      record, repeats included. */
  function AllIndustries(corpus: seq<VC>): (r: seq<String>)
    ensures forall t :: t in r <==> IsIndustryOf(corpus, t)
  {
    if |corpus| == 0 then []
    else
      var rest := AllIndustries(corpus[1..]);
      assert forall vc :: vc in corpus <==> vc == corpus[0] || vc in corpus[1..];
      corpus[0].industries + rest
  }

  /** `Array.from(new Set(allIndustries)).sort()`: the tag universe. */
  function TagUniverse(corpus: seq<VC>): seq<String>
  {
    Sort(Dedup(AllIndustries(corpus)))
  }

  /** The tag universe holds every industry of every record, exactly once,
      nothing else, in ascending order (duplicates are only exact,
      case-sensitive repeats). */
  lemma TagUniverseSpec(corpus: seq<VC>)
    ensures forall t :: t in TagUniverse(corpus) <==> IsIndustryOf(corpus, t)
    ensures NoDuplicates(TagUniverse(corpus))
    ensures StrictlySorted(TagUniverse(corpus))
  {
    var d := Dedup(AllIndustries(corpus));
    var u := Sort(d);
    assert forall t :: t in u <==> t in multiset(u);
    assert forall t :: t in d <==> t in multiset(d);
    PermutationKeepsNoDuplicates(d, u);
    SortedDistinctIsStrict(u);
  }

  /** The tag universe is the only strictly ascending listing of the
      corpus's industries: whichever way one lists them in order, one gets it. */
  lemma TagUniverseCanonical(corpus: seq<VC>, listing: seq<String>)
    requires StrictlySorted(listing)
    requires forall t :: t in listing <==> IsIndustryOf(corpus, t)
    ensures listing == TagUniverse(corpus)
  {
    TagUniverseSpec(corpus);
    StrictlySortedUnique(listing, TagUniverse(corpus));
  }

  /** The suggestion effect's list: empty for the empty query, otherwise
      `allIndustries.filter(matching).slice(0, 8)`. */
  function Suggest(corpus: seq<VC>, query: String): seq<String>
  {
    if |query| > 0 then
      Take(Filter(TagUniverse(corpus), t => ContainsIgnoringCase(t, query)), MaxSuggestions)
    else []
  }

  /** Suggestions are at most eight distinct corpus industries, each
      containing the query case-insensitively, in ascending order; the empty
      query suggests nothing. */
  lemma SuggestSound(corpus: seq<VC>, query: String)
    ensures |query| == 0 ==> Suggest(corpus, query) == []
    ensures |Suggest(corpus, query)| <= MaxSuggestions
    ensures forall k :: 0 <= k < |Suggest(corpus, query)| ==>
      IsIndustryOf(corpus, Suggest(corpus, query)[k]) && ContainsIgnoringCase(Suggest(corpus, query)[k], query)
    ensures StrictlySorted(Suggest(corpus, query))
  {
    if |query| > 0 {
      var u := TagUniverse(corpus);
      var f := Filter(u, t => ContainsIgnoringCase(t, query));
      TagUniverseSpec(corpus);
      FilterKeepsOrder(u, t => ContainsIgnoringCase(t, query), Less);
      var r := Suggest(corpus, query);
      assert r == f[..|r|];
      forall k | 0 <= k < |r|
        ensures IsIndustryOf(corpus, r[k]) && ContainsIgnoringCase(r[k], query)
      {
        assert r[k] == f[k] && f[k] in f;
      }
    }
  }

  /** No matching industry is passed over: one that is not suggested sorts
      after all eight suggestions, so the list is exactly the (at most)
      eight smallest matching tags. */
  lemma SuggestComplete(corpus: seq<VC>, query: String, tag: String)
    requires |query| > 0 && IsIndustryOf(corpus, tag) && ContainsIgnoringCase(tag, query)
    requires tag !in Suggest(corpus, query)
    ensures |Suggest(corpus, query)| == MaxSuggestions
    ensures forall k :: 0 <= k < |Suggest(corpus, query)| ==> Less(Suggest(corpus, query)[k], tag)
  {
    var u := TagUniverse(corpus);
    var f := Filter(u, t => ContainsIgnoringCase(t, query));
    TagUniverseSpec(corpus);
    FilterKeepsOrder(u, t => ContainsIgnoringCase(t, query), Less);
    assert tag in f;
    var j :| 0 <= j < |f| && f[j] == tag;
    var r := Suggest(corpus, query);
    assert r == f[..|r|];
    forall k | 0 <= k < |r|
      ensures Less(r[k], tag)
    {
      assert r[k] == f[k];
    }
  }

  /** A record is a hit when one of its industries contains the query
      case-insensitively. */
  predicate RecordMatches(vc: VC, query: String)
  {
    exists t :: t in vc.industries && ContainsIgnoringCase(t, query)
  }

  /** The deferred body of `handleSearch`: the corpus filtered by `RecordMatches`. */
  function Search(corpus: seq<VC>, query: String): seq<VC>
  {
    Filter(corpus, vc => RecordMatches(vc, query))
  }

  /** A record is a result exactly when it is in the corpus and matches, as
      many times as the corpus holds it, and the results keep corpus order
      (they are a subsequence of the corpus). */
  lemma SearchSpec(corpus: seq<VC>, query: String)
    ensures forall vc :: vc in Search(corpus, query) <==> vc in corpus && RecordMatches(vc, query)
    ensures forall vc ::
      multiset(Search(corpus, query))[vc] == if RecordMatches(vc, query) then multiset(corpus)[vc] else 0
    ensures IsSubsequence(Search(corpus, query), corpus)
    ensures |Search(corpus, query)| <= |corpus|
  {
    FilterIsSubsequence(corpus, vc => RecordMatches(vc, query));
    forall vc
      ensures multiset(Search(corpus, query))[vc] == if RecordMatches(vc, query) then multiset(corpus)[vc] else 0
    {
      FilterCount(corpus, vc => RecordMatches(vc, query), vc);
    }
  }

  /** Searching a corpus in two parts and joining the results gives the
      results of searching the whole: every hit is reported in corpus order. */
  lemma SearchConcat(front: seq<VC>, back: seq<VC>, query: String)
    ensures Search(front + back, query) == Search(front, query) + Search(back, query)
  {
    FilterConcat(front, back, vc => RecordMatches(vc, query));
  }

  /** Repeating a search over its own results returns the same results. */
  lemma SearchIdempotent(corpus: seq<VC>, query: String)
    ensures Search(Search(corpus, query), query) == Search(corpus, query)
  {
    FilterIdempotent(corpus, vc => RecordMatches(vc, query));
  }
}
