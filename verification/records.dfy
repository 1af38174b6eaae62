/**
  The records the directory holds and the search state the page keeps,
  as declared by the application's type definitions.
 */
module Records {
  import opened Text

  /** One venture-capital firm. Every field is free text except the
      e-mail validation flag; `industries` is the ordered list of tags the
      search matches against. */
  datatype VC = VC(
    id: String,
    name: String,
    industries: seq<String>,
    website: String,
    email: String,
    emailValidated: bool,
    lastValidated: String,
    country: String,
    description: String,
    founded: String,
    aum: String)

  /** The page's search state: the query text, the current results, the
      loading flag, the current suggestion list and whether it is shown. */
  datatype SearchState = SearchState(
    query: String,
    results: seq<VC>,
    isLoading: bool,
    suggestions: seq<String>,
    showSuggestions: bool)
}
