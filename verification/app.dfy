/**
  The page-level search state and the handlers that change it: the
  suggestion effect, starting and settling a search (the simulated latency
  becomes two transitions), choosing a suggestion, and editing the query.
 */
module AppShell {
  import opened Text
  import opened Seqs
  import opened Records
  import opened Engine

  /** The search-state record together with the separate has-searched flag. */
  datatype Shell = Shell(state: SearchState, hasSearched: bool)

  /** The state on first render: empty query, nothing found, nothing pending. */
  function Initial(): Shell
  {
    Shell(SearchState("", [], false, [], false), false)
  }

  /** The suggestion effect, run after the query changes: a non-empty query
      gets its suggestions and shows them, the empty query clears and hides them. */
  function RefreshSuggestions(corpus: seq<VC>, sh: Shell): Shell
  {
    if |sh.state.query| > 0 then
      sh.(state := sh.state.(suggestions := Suggest(corpus, sh.state.query), showSuggestions := true))
    else
      sh.(state := sh.state.(suggestions := [], showSuggestions := false))
  }

  /** The effect leaves exactly the suggestions of the current query, shown
      exactly when the query is non-empty, and touches nothing else. */
  lemma RefreshSuggestionsSpec(corpus: seq<VC>, sh: Shell)
    ensures RefreshSuggestions(corpus, sh).state.suggestions == Suggest(corpus, sh.state.query)
    ensures RefreshSuggestions(corpus, sh).state.showSuggestions <==> |sh.state.query| > 0
    ensures |sh.state.query| == 0 ==> RefreshSuggestions(corpus, sh).state.suggestions == []
    ensures |RefreshSuggestions(corpus, sh).state.suggestions| <= MaxSuggestions
    ensures RefreshSuggestions(corpus, sh).state.query == sh.state.query
    ensures RefreshSuggestions(corpus, sh).state.results == sh.state.results
    ensures RefreshSuggestions(corpus, sh).state.isLoading == sh.state.isLoading
    ensures RefreshSuggestions(corpus, sh).hasSearched == sh.hasSearched
  {
    SuggestSound(corpus, sh.state.query);
  }

  /** The immediate half of `handleSearch`: only the loading flag is raised. */
  function BeginSearch(sh: Shell): (r: Shell)
    ensures r.state.isLoading
    ensures r.(state := r.state.(isLoading := sh.state.isLoading)) == sh
  {
    sh.(state := sh.state.(isLoading := true))
  }

  /** The deferred half of `handleSearch`, run when the timer for `query`
      fires: results replaced, loading cleared, suggestions hidden, and the
      has-searched flag raised. */
  function SettleSearch(corpus: seq<VC>, sh: Shell, query: String): Shell
  {
    Shell(sh.state.(results := Search(corpus, query), isLoading := false, showSuggestions := false), true)
  }

  /** Settling installs exactly the matching records, each as often as the
      corpus holds it, in corpus order; it raises has-searched even when
      nothing matched, and leaves the query and the suggestion list as they
      were. */
  lemma SettleSearchSpec(corpus: seq<VC>, sh: Shell, query: String)
    ensures var r := SettleSearch(corpus, sh, query);
      && (forall vc :: vc in r.state.results <==> vc in corpus && RecordMatches(vc, query))
      && (forall vc :: multiset(r.state.results)[vc] == if RecordMatches(vc, query) then multiset(corpus)[vc] else 0)
      && IsSubsequence(r.state.results, corpus)
      && !r.state.isLoading && !r.state.showSuggestions && r.hasSearched
      && r.state.query == sh.state.query && r.state.suggestions == sh.state.suggestions
  {
    SearchSpec(corpus, query);
  }

  /** Settling overwrites everything beginning changed: a search that was
      begun and then settled ends where settling alone would, and the query
      and suggestions of the starting state survive both steps. */
  lemma BeginThenSettle(corpus: seq<VC>, sh: Shell, query: String)
    ensures SettleSearch(corpus, BeginSearch(sh), query) == SettleSearch(corpus, sh, query)
    ensures SettleSearch(corpus, BeginSearch(sh), query).state.query == sh.state.query
    ensures SettleSearch(corpus, BeginSearch(sh), query).state.suggestions == sh.state.suggestions
  {
  }

  /** `handleSuggestionClick`: the suggestion becomes the query and a search
      for it begins. */
  function SuggestionClick(sh: Shell, suggestion: String): (r: Shell)
    ensures r.state.query == suggestion && r.state.isLoading
    ensures r.state.results == sh.state.results && r.hasSearched == sh.hasSearched
    ensures r.(state := r.state.(query := sh.state.query, isLoading := sh.state.isLoading)) == sh
  {
    BeginSearch(sh.(state := sh.state.(query := suggestion)))
  }

  /** `handleInputChange`: the query follows the input; emptying the input
      also drops the results and the has-searched flag. */
  function InputChange(sh: Shell, value: String): Shell
  {
    var typed := sh.(state := sh.state.(query := value));
    if value == "" then typed.(state := typed.state.(results := []), hasSearched := false)
    else typed
  }

  /** Emptying the input returns to the never-searched state without
      starting a search; any other edit changes the query alone. */
  lemma InputChangeSpec(sh: Shell, value: String)
    ensures InputChange(sh, value).state.query == value
    ensures InputChange(sh, value).state.isLoading == sh.state.isLoading
    ensures InputChange(sh, value).state.suggestions == sh.state.suggestions
    ensures value == "" ==> InputChange(sh, value).state.results == [] && !InputChange(sh, value).hasSearched
    ensures value != "" ==> InputChange(sh, value) == sh.(state := sh.state.(query := value))
  {
  }
}
