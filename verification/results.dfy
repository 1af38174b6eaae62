/**
  Which of the four result views the page shows: the loading spinner, the
  explicit "nothing found" message, the list of result cards under a count
  heading, or the pre-search prompt.
 */
module Results {
  import opened Text
  import opened Records

  /** The heading above the cards: how many firms, the noun in singular or
      plural, and the query they were found for. */
  datatype Heading = Heading(count: nat, noun: String, query: String)

  datatype View =
    | Loading(query: String)
    | NoResults(query: String)
    | Found(heading: Heading, cards: seq<VC>)
    | Prompt

  /** "Venture Capital Firm", with a plural suffix unless there is exactly one. */
  function FirmNoun(count: nat): String
  {
    "Venture Capital Firm" + (if count != 1 then "s" else "")
  }

  /** The view for the given loading flag, has-searched flag, results and query. */
  function SelectView(isLoading: bool, hasSearched: bool, results: seq<VC>, query: String): View
  {
    if isLoading then Loading(query)
    else if hasSearched && |results| == 0 then NoResults(query)
    else if hasSearched && |results| > 0 then
      Found(Heading(|results|, FirmNoun(|results|), query), results)
    else Prompt
  }

  /** Exactly one view is chosen, each under its own condition: loading wins
      over everything; a search that found nothing is told apart from never
      having searched; results are shown one card per result in result
      order under a heading that counts them; and while has-searched is
      false (before any search, or after the input is emptied) the prompt
      shows whatever the results hold. */
  lemma SelectViewCases(isLoading: bool, hasSearched: bool, results: seq<VC>, query: String)
    ensures var v := SelectView(isLoading, hasSearched, results, query);
      && (v.Loading? <==> isLoading)
      && (v.NoResults? <==> !isLoading && hasSearched && |results| == 0)
      && (v.Found? <==> !isLoading && hasSearched && |results| > 0)
      && (v.Prompt? <==> !isLoading && !hasSearched)
      && (v.Found? ==> v.cards == results && v.heading == Heading(|results|, FirmNoun(|results|), query))
      && (v.Loading? || v.NoResults? ==> v.query == query)
  {
  }

  /** The noun ends in the plural "s" exactly when the count is not one. */
  lemma FirmNounPlural(count: nat)
    ensures |FirmNoun(count)| > 0
    ensures FirmNoun(count)[|FirmNoun(count)| - 1] == 's' <==> count != 1
    ensures FirmNoun(count)[..20] == "Venture Capital Firm"
  {
  }
}
