# VCFinder search core, modelled in Dafny

VCFinder is a single-page directory of venture-capital firms. A user types an
industry into a search box. The page suggests industry tags as they type. A
search lists the firms that invest in a matching industry, after a simulated
latency. This project models the part of the page that has logic rather than
markup:

- **The record types** (`Records`): the firm record `VC` and the page's
  `SearchState`.
- **The search and suggest engine** (`Engine`, on top of `Text`,
  `StringOrder` and `Seqs`):
  - the tag universe, which holds every distinct industry string, sorted with
    JavaScript's default string order;
  - the suggestion list, which holds the first eight tags containing the query,
    ignoring case;
  - the search, which keeps the records that have a matching industry, in
    corpus order.
- **The page's state transitions** (`AppShell`):
  - the suggestion effect;
  - `handleSearch`, split into a *begin* transition and a *settle* transition
    because the 800 ms timer is modelled as two steps;
  - `handleSuggestionClick` and `handleInputChange`.
- **The search form's selection machine** (`Form`):
  - the selected-suggestion index, where -1 means nothing is selected, and the
    focus flag;
  - the key, submit, click, hover, clear and focus handlers;
  - the reset of the selection when the suggestion list is replaced;
  - when the dropdown is visible and when the submit button is disabled.
- **The result view selection** (`Results`): loading, no results, result
  cards under a count heading, or the pre-search prompt.
- **The whole page as one state machine** (`Page`):
  - each user event runs the form handler, then the page callback, then the
    effects a changed query triggers;
  - pending search timers are a first-in, first-out queue of queries;
  - an invariant proved over every run of events says two things: the selected
    index is always -1 or inside the current list, which keeps the source's
    unchecked reads of `suggestions[selectedSuggestionIndex]` in bounds; and the
    list shown is always the one the current query calls for.
  - the effects as the source actually runs them, after every render
    (`Page.StepAsWritten`), are modelled as well; see "## Findings".
- **Worked examples** (`Scenarios`): small corpora on which search,
  suggestion and ArrowDown navigation are stated outright.

Modelling choices:

- The corpus is a parameter. It is a fixed `seq<VC>` that every function
  takes; loading it from JSON is not modelled.
- `toLowerCase` is ASCII lower-casing (`Text.LowerChar`).
- `String.prototype.includes` is substring occurrence (`Text.Contains`). The
  empty needle occurs in every string.
- `String.prototype.trim` removes the ECMAScript white-space and
  line-terminator characters from both ends (`Text.IsWhitespace`).
- The default `Array.prototype.sort` is lexicographic order on character
  codes (`StringOrder.Less`), so upper-case ASCII letters sort before
  lower-case ones. The sort itself is an insertion sort. Its result is proved
  to be the unique sorted permutation, so the choice of algorithm does not
  show.
- `new Set(...)` followed by `Array.from` keeps the first occurrence of each
  string, in order (`Seqs.Dedup`). The de-duplication is exact and
  case-sensitive.
- The timer is a pair of transitions. `handleSearch` raises the loading flag
  and appends its query to `Page.PageState.pending`. The event `TimerFires`
  settles the oldest pending query. All timers have the same delay, so they
  fire in the order they were scheduled.
- Pressing Enter first runs `handleKeyDown`. If that handler did not call
  `preventDefault`, the browser submits the form, but only when the submit
  button is enabled (`Page.Step`).
- Events are delivered only when the rendered page can deliver them
  (`Page.Enabled`):
  - suggestion clicks and hovers only on rendered entries;
  - the clear button only for a non-empty query;
  - the popular-industry buttons only while has-searched is false (before any search, or after the input is emptied);
  - a timer only when one is pending.

## Model

| member | source | states |
|---|---|---|
| Records.VC | src/types/vc.ts:1-13 | the firm record, field for field; `industries` is the ordered tag list the search and the tag universe read |
| Records.SearchState | src/types/vc.ts:15-21 | the page's search state: query, results, loading flag, suggestion list and whether it is shown |
| Text.ContainsIgnoringCase | src/App.tsx:31 | defines `tag.toLowerCase().includes(query.toLowerCase())` as containment of the lower-cased strings; its contract is `Text.ContainsIgnoringCaseProperties` |
| StringOrder.Less | src/App.tsx:26 | defines the default sort comparator on strings; its contracts are `StringOrder.LessIsLexicographic`, `StringOrder.LessIrreflexive`, `StringOrder.LessAsymmetric`, `StringOrder.LessTransitive` and `StringOrder.LessTotal` |
| Engine.RecordMatches | src/App.tsx:54-56 | defines `vc.industries.some(...)`: some industry of the record contains the query case-insensitively; used by `Engine.SearchSpec` |
| AppShell.RefreshSuggestions | src/App.tsx:28-46 | defines the suggestion effect's body; its contract is `AppShell.RefreshSuggestionsSpec` |
| Results.FirmNoun | src/components/SearchResults.tsx:47 | defines the heading's noun; its contract is `Results.FirmNounPlural` |
| Text.Lower | src/App.tsx:31 | lower-casing keeps the length, maps each character on its own, and leaves no upper-case letter |
| Text.LowerIdempotent | src/App.tsx:31 | lower-casing an already lower-cased string changes nothing |
| Text.LowerConcat | src/App.tsx:31 | lower-casing distributes over concatenation |
| Text.Contains | src/App.tsx:31 | `includes` is true exactly when the needle occurs at some position of the haystack |
| Text.ContainsIgnoringCaseProperties | src/App.tsx:31 | case-insensitive containment ignores the case of either argument, and every string contains itself and the empty string |
| Text.LeadingWhitespace | src/components/SearchForm.tsx:52-53 | counts the leading whitespace: every counted character is whitespace and the next one is not |
| Text.TrailingWhitespace | src/components/SearchForm.tsx:52-53 | counts the trailing whitespace: every counted character is whitespace and the one before is not |
| Text.TrimStart | src/components/SearchForm.tsx:52-53 | the result is a suffix of the input, only whitespace was removed, and it does not start with whitespace |
| Text.TrimEnd | src/components/SearchForm.tsx:52-53 | the result is a prefix of the input, only whitespace was removed, and it does not end with whitespace |
| Text.Trim | src/components/SearchForm.tsx:52-53 | the trimmed query is a slice of the query with only whitespace around it, and it neither starts nor ends with whitespace |
| Text.TrimProperties | src/components/SearchForm.tsx:52 | a query trims to empty exactly when it is all whitespace, and trimming is idempotent |
| Text.TrimIdle | src/components/SearchForm.tsx:53 | a string without whitespace at either end is its own trim |
| StringOrder.LessIsLexicographic | src/App.tsx:26 | the sort order is textbook lexicographic order, in both directions: either a proper prefix, or a smaller code at the first difference |
| StringOrder.LessIrreflexive | src/App.tsx:26 | no string sorts before itself |
| StringOrder.LessAsymmetric | src/App.tsx:26 | two strings are never each before the other |
| StringOrder.LessTransitive | src/App.tsx:26 | the sort order is transitive |
| StringOrder.LessTotal | src/App.tsx:26 | any two different strings are ordered one way or the other |
| StringOrder.Insert | src/App.tsx:26 | insertion adds exactly the one element and keeps a sorted list sorted |
| StringOrder.Sort | src/App.tsx:26 | `sort()` returns a sorted permutation of its input |
| StringOrder.SortedHeadIsLeast | src/App.tsx:26 | the head of a sorted list sorts no later than any of its elements |
| StringOrder.SortedPermutationUnique | src/App.tsx:26 | two sorted permutations of the same strings are equal, so the sort algorithm cannot be told apart |
| StringOrder.SortedDistinctIsStrict | src/App.tsx:24-26 | a sorted list without repeats is strictly ascending |
| StringOrder.StrictlySortedUnique | src/App.tsx:24-26 | two strictly ascending lists with the same members are equal |
| Seqs.Filter | src/App.tsx:30-32 | the filtered list holds exactly the elements that satisfy the predicate, and it is no longer than the input |
| Seqs.FilterIsSubsequence | src/App.tsx:53-57 | filtering only deletes elements and keeps the order of the rest |
| Seqs.FilterCount | src/App.tsx:53-57 | filtering keeps every copy of an accepted element and drops every copy of a rejected one |
| Seqs.FilterConcat | src/App.tsx:53-57 | filtering a concatenation is the concatenation of the filtered parts |
| Seqs.FilterIdempotent | src/App.tsx:53-57 | filtering twice by the same predicate is filtering once |
| Seqs.FilterKeepsOrder | src/App.tsx:30-32 | any ordering relation between earlier and later elements survives filtering |
| Seqs.Take | src/App.tsx:36 | `slice(0, n)` returns a prefix of length n, or the whole list when it is shorter |
| Seqs.Dedup | src/App.tsx:24-25 | a `Set` built from a list holds each of its elements exactly once, and nothing else |
| Seqs.DedupKeepsDistinct | src/App.tsx:24-25 | de-duplicating a list without repeats returns it unchanged |
| Seqs.PermutationKeepsNoDuplicates | src/App.tsx:24-26 | sorting a list without repeats cannot create repeats |
| Engine.AllIndustries | src/App.tsx:25 | the flattened industry list holds exactly the industries of the corpus's records |
| Engine.TagUniverseSpec | src/App.tsx:24-26 | the tag universe holds every industry of every record exactly once and nothing else, in strictly ascending order |
| Engine.TagUniverseCanonical | src/App.tsx:24-26 | any strictly ascending listing of the corpus's industries is the tag universe |
| Engine.SuggestSound | src/App.tsx:29-36 | the empty query suggests nothing; otherwise at most eight suggestions, each a corpus industry containing the query case-insensitively, in strictly ascending order |
| Engine.SuggestComplete | src/App.tsx:30-36 | a matching industry left out of the suggestions sorts after all of them, and the list then holds exactly eight, so the suggestions are the smallest matching tags |
| Engine.SearchSpec | src/App.tsx:53-57 | a record is a result exactly when it is in the corpus and one of its industries contains the query case-insensitively, as many times as the corpus holds it, and the results are a subsequence of the corpus |
| Engine.SearchConcat | src/App.tsx:53-57 | searching two parts of the corpus and joining the results is searching the whole, so results follow corpus order |
| Engine.SearchIdempotent | src/App.tsx:53-57 | searching the results again for the same query returns them unchanged |
| AppShell.RefreshSuggestionsSpec | src/App.tsx:28-46 | after the suggestion effect the list is that of the current query, shown exactly when the query is non-empty, at most eight long, and nothing else changed |
| AppShell.BeginSearch | src/App.tsx:49 | beginning a search raises the loading flag and changes nothing else |
| AppShell.SettleSearchSpec | src/App.tsx:52-66 | settling installs exactly the matching records, each as often as the corpus holds it, in corpus order, ends loading, hides the suggestions and raises has-searched even for no results, leaving query and suggestions alone |
| AppShell.BeginThenSettle | src/App.tsx:48-67 | a search begun and then settled ends where settling alone would, and query and suggestions survive |
| AppShell.SuggestionClick | src/App.tsx:70-73 | choosing a suggestion makes it the query and starts loading, and changes nothing else |
| AppShell.InputChangeSpec | src/App.tsx:75-81 | emptying the input drops the results and has-searched without starting a search; any other edit changes only the query |
| Results.SelectViewCases | src/components/SearchResults.tsx:19-73 | exactly one of four views: loading whenever loading; no-results exactly when searched with none found; cards exactly when searched with some found, one card per result in order under a heading that counts them and names the query; the prompt exactly when not searched |
| Results.FirmNounPlural | src/components/SearchResults.tsx:47 | the heading's noun ends in the plural "s" exactly when the count is not one |
| Form.NextIndex | src/components/SearchForm.tsx:64-69 | ArrowDown lands inside a non-empty list from any valid selection, including none |
| Form.PrevIndex | src/components/SearchForm.tsx:71-76 | ArrowUp lands inside a non-empty list from any valid selection, including none |
| Form.IndexArithmetic | src/components/SearchForm.tsx:64-76 | ArrowDown is the successor modulo the list length, ArrowUp the predecessor (from none it goes to the last entry), and the two undo each other |
| Form.AdvanceWraps | src/components/SearchForm.tsx:64-69 | up to a full round of ArrowDowns moves that many places forward, wrapping past the end |
| Form.AdvanceCompose | src/components/SearchForm.tsx:64-69 | a presses of ArrowDown and then b more are a + b presses |
| Form.AdvanceCycles | src/components/SearchForm.tsx:64-69 | from no selection the k-th ArrowDown selects entry k - 1, and the press after the last entry selects the first again |
| Form.SubmitSpec | src/components/SearchForm.tsx:45-58 | submitting picks a suggestion exactly when the selection is valid, and then exactly the selected entry; it never edits the input; it always clears the selection and the focus |
| Form.SubmitSearchesTrimmedQuery | src/components/SearchForm.tsx:49-54 | without a valid selection, submitting searches exactly the trimmed query when it is non-blank, and calls nothing exactly when the query is blank |
| Form.KeyDown | src/components/SearchForm.tsx:60-109 | every key keeps the selection valid; a picked or filled-in value is one of the listed suggestions; no key searches |
| Form.KeyDownSpec | src/components/SearchForm.tsx:60-109 | with the list hidden or empty every key is a no-op; otherwise ArrowDown and ArrowUp set the selection to the next and previous index (`Form.IndexArithmetic`), inside the list, and change nothing else; Tab fills in the selected or the first suggestion, Escape keeps the query, and Enter picks exactly the selected entry |
| Form.HandlersKeepSelectionValid | src/components/SearchForm.tsx:111-132 | submit, typing, clicking, clearing, focusing, dismissing, list replacement and hovering over a rendered entry all keep the selection -1 or inside the list |
| Form.ConfirmingHidesDropdown | src/components/SearchForm.tsx:45-122 | after submitting, clicking a suggestion, dismissing, emptying the input, Escape, Tab or Enter on a selection, the dropdown is not rendered |
| Page.InitialInv | src/App.tsx:9-17 | the first render satisfies the page invariant and shows the pre-search prompt |
| Page.ApplyKeepsInv | src/components/SearchForm.tsx:41-43 | a handler outcome whose selection is valid, followed by the page callback and the effects, keeps the page invariant |
| Page.Step | src/components/SearchForm.tsx:78-107 | every deliverable event keeps the page invariant, in particular the selection bounds that the Tab and Enter reads rely on |
| Page.Run | src/components/SearchForm.tsx:24-132 | any run of events from an invariant state ends in an invariant state |
| Page.ReachableStatesKeepSelectionInBounds | src/components/SearchForm.tsx:81-102 | in every reachable state the selection is -1 or inside the list, and the list is the current query's suggestions |
| Page.SubmitShowsLoading | src/App.tsx:48-49 | clicking an enabled submit button shows the loading view at once, schedules one more timer, for the selected suggestion if any and for the trimmed query otherwise, and closes the dropdown |
| Page.TimerSettles | src/App.tsx:52-67 | when the oldest timer fires its query's results replace the old ones; loading ends; has-searched is raised; the view is no-results exactly when nothing matched and otherwise one card per result |
| Page.ClearingReturnsToPrompt | src/components/SearchForm.tsx:128-132 | clearing the query after a finished search returns to the prompt with no results, no suggestions and no new timer; the clear button leaves the input focused with nothing selected |
| Page.TypingShowsSuggestions | src/components/SearchForm.tsx:111-116 | typing a new non-empty query shows its suggestions, focuses the input and clears the selection; the dropdown opens exactly when something matches |
| Page.EnterWithoutSelectionSubmits | src/components/SearchForm.tsx:99-107 | Enter with nothing selected is a click on the submit button when that is enabled, and nothing otherwise |
| Page.OverlappingSearches | src/App.tsx:48-67 | Enter on a selected suggestion starts a second search while one is loading; when the older timer fires, loading ends and the older query's results show |
| Page.EditingKeepsShownResults | src/App.tsx:75-81 | after a search, typing a different non-empty query keeps the old result cards on screen under a heading that names the new query, and starts no search |
| Engine.TagUniverse | src/App.tsx:24-26 | defines the tag universe as the sorted de-duplicated industry list; its contract is `Engine.TagUniverseSpec` |
| Engine.Suggest | src/App.tsx:29-44 | defines the suggestion list of a query; its contracts are `Engine.SuggestSound` and `Engine.SuggestComplete` |
| Engine.Search | src/App.tsx:53-57 | defines the deferred search as a filter of the corpus; its contracts are `Engine.SearchSpec`, `Engine.SearchConcat` and `Engine.SearchIdempotent` |
| AppShell.SettleSearch | src/App.tsx:52-67 | defines the timer's settle transition; its contract is `AppShell.SettleSearchSpec` |
| AppShell.InputChange | src/App.tsx:75-81 | defines `handleInputChange` on the page state; its contract is `AppShell.InputChangeSpec` |
| Results.SelectView | src/components/SearchResults.tsx:19-73 | defines which of the four views renders; its contract is `Results.SelectViewCases` |
| Form.Submit | src/components/SearchForm.tsx:45-58 | defines `handleSubmit`; its contracts are `Form.SubmitSpec` and `Form.SubmitSearchesTrimmedQuery` |
| Form.InputChange | src/components/SearchForm.tsx:111-116 | defines the input's change handler: the value is passed on, focus follows a non-empty value, the selection is cleared; stated in `Page.TypingShowsSuggestions` and `Form.HandlersKeepSelectionValid` |
| Form.SuggestionClick | src/components/SearchForm.tsx:118-122 | defines the click on a suggestion: it is picked, focus and selection are cleared; stated in `Form.ConfirmingHidesDropdown` |
| Form.Hover | src/components/SearchForm.tsx:124-126 | defines hovering over an entry, which selects it; stated in `Form.HandlersKeepSelectionValid` |
| Form.Clear | src/components/SearchForm.tsx:128-132 | defines `clearSearch`: the input is emptied, the selection cleared, and the focus handler of the pre-clear render runs; stated in `Page.ClearingReturnsToPrompt` |
| Form.Focus | src/components/SearchForm.tsx:148 | defines the input's focus handler, focused exactly for a non-empty query; stated in `Form.HandlersKeepSelectionValid` |
| Form.Dismiss | src/components/SearchForm.tsx:28-38 | defines the mouse press outside the list: focus and selection cleared; stated in `Form.ConfirmingHidesDropdown` |
| Form.SuggestionsReplaced | src/components/SearchForm.tsx:40-43 | defines the selection reset on a new suggestion list; stated in `Page.TypingShowsSuggestions` and `Page.RenderLoopClearsSelection` |
| Form.DropdownVisible | src/components/SearchForm.tsx:178 | defines when the dropdown renders; used by `Page.SubmitShowsLoading` and `Form.ConfirmingHidesDropdown` |
| Form.SubmitDisabled | src/components/SearchForm.tsx:167 | defines when the submit button is disabled; used by `Page.Enabled` and `Page.EnterWithoutSelectionSubmits` |
| Page.Enabled | src/components/SearchForm.tsx:153-187 | defines which events the rendered page can deliver; every lemma about `Page.Step` assumes it |
| Page.Dispatch | src/App.tsx:48-81 | defines how each form callback reaches the page's handlers; stated in `Page.SubmitShowsLoading` and `Page.OverlappingSearches` |
| Page.RunEffects | src/App.tsx:28-46 | defines the effects run when the query changed; `Page.EffectsKeepInv` states that they restore the invariant |
| Page.EffectsKeepInv | src/App.tsx:28-46 | the effects restore the page invariant after any change that keeps the list and covers loading by a pending timer |
| Page.EffectsEveryRender | src/App.tsx:28-46 | the effects as written, run after every render: the selection is cleared, the list is that of the current query, shown exactly when the query is non-empty, and nothing else changes |
| Page.StepAsWritten | src/App.tsx:24-46 | an event followed by the effects as written keeps the page invariant |
| Page.RenderLoopClearsSelection | src/components/SearchForm.tsx:40-69 | as written, ArrowDown on a shown, non-empty list leaves nothing selected |
| Page.ArrowDownMovesSelection | src/components/SearchForm.tsx:64-69 | with the effects run on a change of query, ArrowDown selects the next entry, wrapping, inside the list; the page state is otherwise unchanged, the focus flag included |
| Page.ArrowUpMovesSelection | src/components/SearchForm.tsx:71-76 | ArrowUp selects the previous entry, from none or the first to the last, inside the list, and nothing else changes |
| Page.RenderLoopReopensSuggestions | src/App.tsx:28-67 | as written, a search settling while the query is non-empty leaves the suggestions shown; run on a change of query, they stay hidden |
| Page.ClearLeavesFocus | src/components/SearchForm.tsx:128-148 | the clear button empties the query, forgets the search and leaves the input focused, because `focus()` runs the focus handler of the render that still had a query |
| Page.PopularFromFocus | src/App.tsx:70-73 | a popular-industry click on a focused input while has-searched is false (before any search, or after the input is emptied) makes the industry the query and opens the dropdown exactly when it has suggestions |
| Page.ClearThenPopularShowsSuggestions | src/components/SearchForm.tsx:128-132 | after the clear button, a popular-industry click opens the dropdown exactly when the industry has suggestions |
| Scenarios.SearchExample | src/App.tsx:53-57 | on a two-firm corpus "fin" finds only the fintech firm and "xyz" finds nothing |
| Scenarios.SuggestTwo | src/App.tsx:30-36 | when exactly two industries match, the suggestions are those two, the smaller first |
| Scenarios.SuggestExample | src/App.tsx:24-36 | with the industries "fintech", "FinOps" and "healthcare", "fin" suggests "FinOps" before "fintech" |
| Scenarios.ArrowDownExample | src/components/SearchForm.tsx:64-69 | with three suggestions and none selected, ArrowDown selects 0, 1, 2 and then 0 again |

## Left out

- Theme handling (`localStorage`, `matchMedia`, the `dark` class) and scroll tracking with the back-to-top buttons are browser side effects with no search logic.
- All JSX markup and class names are left out. So is the fixed list of popular-industry buttons: it is modelled only as the event `Page.PopularClick`, which carries any industry.
- `src/components/VCCard.tsx` is not part of this model. It covers the clipboard, regular-expression highlighting and locale date formatting.
- Loading the corpus from JSON is left out: the corpus is a parameter.
- The 800 ms latency is left out. Only the order in which timers fire is kept, as a queue.
- Form.Clear: assumes the click on the clear button took the focus away from the input, so that `focus()` runs the input's focus handler. A browser that leaves the focus on the input fires no focus event, and there the focus flag keeps its earlier value.
- Escape's `blur()` call is not modelled: Escape already clears the focus flag.
- Page.Step: runs the suggestion effect only when the query changes, which is what the effect is evidently for. The source runs it after every render, because its dependency `allIndustries` is rebuilt on every render; that behaviour is `Page.StepAsWritten`, and its two visible consequences are listed under "## Findings". React's render scheduling itself is outside this model.
- Text.Lower: models `toLowerCase` on ASCII letters only. Full Unicode case mapping, which can also change the length, is not modelled.
- StringOrder.Less: compares characters by code point. JavaScript compares UTF-16 code units, and the two orders differ only for characters above U+FFFF.
- Text.IsWhitespace: lists the ECMAScript white-space characters explicitly. Unicode versions that add space separators are not tracked.

## Findings

| source | as written | input that shows it | evidently intended | confidence | as-written member | corrected member |
|---|---|---|---|---|---|---|
| src/App.tsx:46 | the suggestion effect depends on `allIndustries`, a new array on every render, so it runs after every render and hands the form a new suggestion array; the form's reset effect (src/components/SearchForm.tsx:41-43) then clears the selection | a shown, non-empty suggestion list, then ArrowDown | ArrowDown selects the next suggestion and it stays selected | high; not executed | Page.RenderLoopClearsSelection | Page.ArrowDownMovesSelection |
| src/App.tsx:46 | the same effect sets `showSuggestions` back to true after settling a search set it to false (src/App.tsx:63) | a pending search whose timer fires while the query is non-empty | the suggestion list stays hidden after a search settles | high; not executed | Page.RenderLoopReopensSuggestions | Page.TimerSettles |
