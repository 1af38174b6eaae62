/**
  Worked examples: small corpora on which the engine's and the form's
  behaviour can be stated outright.
 */
module Scenarios {
  import opened Text
  import opened StringOrder
  import opened Records
  import opened Engine
  import Form

  /** A record with only an id and industries filled in. */
  function Firm(id: String, industries: seq<String>): VC
  {
    VC(id, "", industries, "", "", false, "", "", "", "", "")
  }

  /** A string without upper-case letters is its own lower-case form. */
  lemma LowerOfLowerCase(s: String)
    requires forall i :: 0 <= i < |s| ==> !IsUpper(s[i])
    ensures Lower(s) == s
  {
  }

  /** `needle` does not occur in `hay` when no position of `hay` holds its first character. */
  lemma AbsentFirstChar(hay: String, needle: String)
    requires |needle| > 0
    requires forall i :: 0 <= i < |hay| ==> hay[i] != needle[0]
    ensures !Contains(hay, needle)
  {
  }

  /** A case-insensitive match found at the start of the lower-cased tag. */
  lemma MatchAtStart(tag: String, query: String, lowTag: String, lowQuery: String)
    requires Lower(tag) == lowTag && Lower(query) == lowQuery && lowQuery <= lowTag
    ensures ContainsIgnoringCase(tag, query)
  {
    assert OccursAt(lowTag, lowQuery, 0);
  }

  /** No case-insensitive match when the lower-cased tag lacks the query's first character. */
  lemma NoMatch(tag: String, query: String, lowTag: String, lowQuery: String)
    requires Lower(tag) == lowTag && Lower(query) == lowQuery && |lowQuery| > 0
    requires forall i :: 0 <= i < |lowTag| ==> lowTag[i] != lowQuery[0]
    ensures !ContainsIgnoringCase(tag, query)
  {
    AbsentFirstChar(lowTag, lowQuery);
  }

  lemma FinFacts()
    ensures ContainsIgnoringCase("fintech", "fin")
    ensures ContainsIgnoringCase("FinOps", "fin")
    ensures !ContainsIgnoringCase("healthcare", "fin")
    ensures !ContainsIgnoringCase("SaaS", "fin")
  {
    LowerOfLowerCase("fintech");
    LowerOfLowerCase("fin");
    LowerOfLowerCase("healthcare");
    assert Lower("FinOps") == "finops";
    assert Lower("SaaS") == "saas";
    MatchAtStart("fintech", "fin", "fintech", "fin");
    MatchAtStart("FinOps", "fin", "finops", "fin");
    NoMatch("healthcare", "fin", "healthcare", "fin");
    NoMatch("SaaS", "fin", "saas", "fin");
  }

  lemma XyzFacts()
    ensures !ContainsIgnoringCase("fintech", "xyz")
    ensures !ContainsIgnoringCase("SaaS", "xyz")
    ensures !ContainsIgnoringCase("healthcare", "xyz")
  {
    LowerOfLowerCase("fintech");
    LowerOfLowerCase("xyz");
    LowerOfLowerCase("healthcare");
    assert Lower("SaaS") == "saas";
    NoMatch("fintech", "xyz", "fintech", "xyz");
    NoMatch("SaaS", "xyz", "saas", "xyz");
    NoMatch("healthcare", "xyz", "healthcare", "xyz");
  }

  /** A record with two industries matches exactly when one of the two does. */
  lemma RecordMatchesOfTwo(vc: VC, x: String, y: String, query: String)
    requires vc.industries == [x, y]
    ensures RecordMatches(vc, query) <==> ContainsIgnoringCase(x, query) || ContainsIgnoringCase(y, query)
  {
    assert x in vc.industries && y in vc.industries;
    assert forall t :: t in vc.industries ==> t == x || t == y;
  }

  /** A record with one industry matches exactly when that industry does. */
  lemma RecordMatchesOfOne(vc: VC, x: String, query: String)
    requires vc.industries == [x]
    ensures RecordMatches(vc, query) <==> ContainsIgnoringCase(x, query)
  {
    assert x in vc.industries;
  }

  /** A search for "fin" finds only the fintech firm; a search for "xyz"
      finds nothing. */
  lemma SearchExample(a: VC, b: VC)
    requires a == Firm("1", ["fintech", "SaaS"]) && b == Firm("2", ["healthcare"])
    ensures Search([a, b], "fin") == [a]
    ensures Search([a, b], "xyz") == []
  {
    SearchOfPair(a, b, "fin");
    SearchOfPair(a, b, "xyz");
    FinFacts();
    XyzFacts();
    RecordMatchesOfTwo(a, "fintech", "SaaS", "fin");
    RecordMatchesOfTwo(a, "fintech", "SaaS", "xyz");
    RecordMatchesOfOne(b, "healthcare", "fin");
    RecordMatchesOfOne(b, "healthcare", "xyz");
  }

  /** Searching a two-record corpus: each record in turn, kept when it matches. */
  lemma SearchOfPair(a: VC, b: VC, query: String)
    ensures Search([a, b], query)
      == (if RecordMatches(a, query) then [a] else []) + (if RecordMatches(b, query) then [b] else [])
  {
    assert [a, b] == [a] + [b];
    SearchConcat([a], [b], query);
    assert [a][1..] == [] && [b][1..] == [];
  }

  /** When exactly two industries of a corpus match a query, the suggestions
      are those two, the smaller first. */
  lemma SuggestTwo(corpus: seq<VC>, query: String, a: String, b: String)
    requires |query| > 0 && Less(a, b)
    requires IsIndustryOf(corpus, a) && ContainsIgnoringCase(a, query)
    requires IsIndustryOf(corpus, b) && ContainsIgnoringCase(b, query)
    requires forall t :: IsIndustryOf(corpus, t) && ContainsIgnoringCase(t, query) ==> t == a || t == b
    ensures Suggest(corpus, query) == [a, b]
  {
    var r := Suggest(corpus, query);
    SuggestSound(corpus, query);
    assert forall k :: 0 <= k < |r| ==> r[k] == a || r[k] == b;
    AtMostTwo(r, a, b);
    if a !in r {
      SuggestComplete(corpus, query, a);
      assert false;
    }
    if b !in r {
      SuggestComplete(corpus, query, b);
      assert false;
    }
    SortedPair(r, a, b);
  }

  /** A strictly sorted sequence drawn from two values has at most two elements. */
  lemma AtMostTwo(r: seq<String>, a: String, b: String)
    requires StrictlySorted(r)
    requires forall k :: 0 <= k < |r| ==> r[k] == a || r[k] == b
    ensures |r| <= 2
  {
    if |r| > 2 {
      assert Less(r[0], r[1]) && Less(r[1], r[2]) && Less(r[0], r[2]);
      LessIrreflexive(a);
      LessIrreflexive(b);
      assert false;
    }
  }

  /** A strictly sorted sequence holding `a` and `b` and nothing else is
      `[a, b]` when `a` sorts first. */
  lemma SortedPair(r: seq<String>, a: String, b: String)
    requires StrictlySorted(r) && Less(a, b) && a in r && b in r
    requires forall k :: 0 <= k < |r| ==> r[k] == a || r[k] == b
    ensures r == [a, b]
  {
    var expected := [a, b];
    LessIrreflexive(a);
    LessIrreflexive(b);
    assert StrictlySorted(expected);
    forall x
      ensures x in r <==> x in expected
    {
      if x in r {
        var k :| 0 <= k < |r| && r[k] == x;
      }
    }
    StrictlySortedUnique(r, expected);
  }

  /** The industries of a two-record corpus are those of its two records. */
  lemma IndustriesOfPair(corpus: seq<VC>, x: VC, y: VC, t: String)
    requires corpus == [x, y]
    ensures IsIndustryOf(corpus, t) <==> t in x.industries || t in y.industries
  {
    assert x in corpus && y in corpus;
    assert forall vc :: vc in corpus ==> vc == x || vc == y;
  }

  /** With the industries "fintech", "FinOps" and "healthcare", typing "fin"
      suggests "FinOps" before "fintech": both match regardless of case, and
      upper case sorts first. */
  lemma SuggestExample(corpus: seq<VC>)
    requires corpus == [Firm("1", ["fintech", "FinOps"]), Firm("2", ["healthcare"])]
    ensures Suggest(corpus, "fin") == ["FinOps", "fintech"]
  {
    FinFacts();
    assert Less("FinOps", "fintech");
    SuggestOfPairCorpus(corpus, "fin", "FinOps", "fintech", "healthcare");
  }

  /** A corpus of a firm tagged `b` and `a` and a firm tagged `c`, where only
      `a` and `b` match: the suggestions are `a` then `b`. */
  lemma SuggestOfPairCorpus(corpus: seq<VC>, query: String, a: String, b: String, c: String)
    requires corpus == [Firm("1", [b, a]), Firm("2", [c])]
    requires |query| > 0 && Less(a, b)
    requires ContainsIgnoringCase(a, query) && ContainsIgnoringCase(b, query) && !ContainsIgnoringCase(c, query)
    ensures Suggest(corpus, query) == [a, b]
  {
    var x, y := corpus[0], corpus[1];
    IndustriesOfPair(corpus, x, y, a);
    IndustriesOfPair(corpus, x, y, b);
    forall t | IsIndustryOf(corpus, t) && ContainsIgnoringCase(t, query)
      ensures t == a || t == b
    {
      IndustriesOfPair(corpus, x, y, t);
    }
    SuggestTwo(corpus, query, a, b);
  }

  /** Three suggestions, nothing selected: ArrowDown selects 0, 1, 2 and
      then wraps to 0. */
  lemma ArrowDownExample()
    ensures Form.AdvanceTimes(-1, 3, 1) == 0
    ensures Form.AdvanceTimes(-1, 3, 2) == 1
    ensures Form.AdvanceTimes(-1, 3, 3) == 2
    ensures Form.AdvanceTimes(-1, 3, 4) == 0
  {
    Form.AdvanceCycles(3, 1);
    Form.AdvanceCycles(3, 2);
    Form.AdvanceCycles(3, 3);
  }
}
