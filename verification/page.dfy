/**
  The whole search page as one state machine: the page's search state, the
  form's selection and focus, and the queue of search timers still to fire.
  Each user event runs the form's handler, passes its callback to the page's
  handler, and then runs the effects a changed query triggers (new
  suggestions, and the form's selection reset on a new suggestion list).
  The one invariant worth having: the selected index is always -1 or an index
  into the current suggestion list.
 */
module Page {
  import opened Text
  import opened Records
  import opened Engine
  import AppShell
  import Form
  import Results

  /** `pending` holds the query of every search timer not yet fired, oldest
      first; all timers have the same delay, so they fire in this order. */
  datatype PageState = PageState(shell: AppShell.Shell, form: Form.FormState, pending: seq<String>)

  datatype Event =
    | Type(value: String)              // the input's change event
    | Press(key: Form.Key)             // a key press in the input
    | SubmitClick                      // a click on the submit button
    | SuggestionClick(index: int)      // a click on a rendered suggestion
    | SuggestionHover(index: int)      // the mouse entering a rendered suggestion
    | ClearClick                       // a click on the clear button
    | FocusInput                       // the input gaining focus
    | MouseDownOutside                 // a mouse press anywhere outside the suggestion list
    | PopularClick(industry: String)   // a click on one of the popular-industry buttons
    | TimerFires                       // the oldest pending search timer firing

  function Initial(): PageState
  {
    PageState(AppShell.Initial(), Form.Initial(), [])
  }

  /** What the page renders the form with. */
  function PropsOf(pg: PageState): Form.Props
  {
    var st := pg.shell.state;
    Form.Props(st.suggestions, st.showSuggestions, st.isLoading, st.query)
  }

  /** The result view on screen. */
  function ViewOf(pg: PageState): Results.View
  {
    var st := pg.shell.state;
    Results.SelectView(st.isLoading, pg.shell.hasSearched, st.results, st.query)
  }

  /** Events the rendered page can deliver: the submit button only when not
      disabled, suggestion entries only while the dropdown is rendered and
      only for their own indices, the clear button only for a non-empty
      query, the popular-industry buttons only while has-searched is false
      (before any search, or after the input is emptied), and a timer only
      when one is pending. */
  predicate Enabled(pg: PageState, e: Event)
  {
    var props := PropsOf(pg);
    match e
    case SubmitClick => !Form.SubmitDisabled(props)
    case SuggestionClick(i) => Form.DropdownVisible(props, pg.form) && 0 <= i < |props.suggestions|
    case SuggestionHover(i) => Form.DropdownVisible(props, pg.form) && 0 <= i < |props.suggestions|
    case ClearClick => |props.query| > 0
    case PopularClick(_) => !pg.shell.hasSearched
    case TimerFires => |pg.pending| > 0
    case _ => true
  }

  /** Passes a form callback to the page: `onSearch` begins a search and
      schedules its timer, `onSuggestionClick` sets the query and does the
      same, `onInputChange` edits the query. */
  function Dispatch(pg: PageState, call: Form.Call): PageState
  {
    match call
    case NoCall => pg
    case SearchFor(q) => pg.(shell := AppShell.BeginSearch(pg.shell), pending := pg.pending + [q])
    case PickSuggestion(s) => pg.(shell := AppShell.SuggestionClick(pg.shell, s), pending := pg.pending + [s])
    case ChangeInput(v) => pg.(shell := AppShell.InputChange(pg.shell, v))
  }

  /** The effects after a render: if the query changed, the suggestion
      effect recomputes the list, and the form, seeing a new list, clears
      its selection. */
  function RunEffects(corpus: seq<VC>, before: PageState, after: PageState): PageState
  {
    if after.shell.state.query != before.shell.state.query then
      after.(shell := AppShell.RefreshSuggestions(corpus, after.shell),
             form := Form.SuggestionsReplaced(after.form))
    else after
  }

  /** Applies a form handler's outcome: its new form state, its callback,
      then the effects. */
  function Apply(corpus: seq<VC>, pg: PageState, o: Form.Outcome): PageState
  {
    RunEffects(corpus, pg, Dispatch(pg.(form := o.form), o.call))
  }

  /** What holds on every page state reachable from the initial one. */
  ghost predicate Inv(corpus: seq<VC>, pg: PageState)
  {
    var st := pg.shell.state;
    && Form.ValidSelection(pg.form.selected, |st.suggestions|)
    && st.suggestions == Suggest(corpus, st.query)
    && (st.showSuggestions ==> |st.query| > 0)
    && (st.isLoading ==> |pg.pending| > 0)
    && (!pg.shell.hasSearched ==> st.results == [])
    && (st.results == [] || exists q :: st.results == Search(corpus, q))
  }

  lemma InitialInv(corpus: seq<VC>)
    ensures Inv(corpus, Initial())
    ensures ViewOf(Initial()).Prompt?
  {
  }

  /** The effects restore the invariant after any change that keeps the
      suggestion list, keeps loading covered by a pending timer, and either
      keeps the results or drops them. */
  lemma EffectsKeepInv(corpus: seq<VC>, pg: PageState, d: PageState)
    requires Inv(corpus, pg)
    requires Form.ValidSelection(d.form.selected, |pg.shell.state.suggestions|)
    requires d.shell.state.suggestions == pg.shell.state.suggestions
    requires d.shell.state.showSuggestions == pg.shell.state.showSuggestions
    requires d.shell.state.isLoading ==> |d.pending| > 0
    requires !d.shell.hasSearched ==> d.shell.state.results == []
    requires d.shell.state.results == [] || d.shell.state.results == pg.shell.state.results
    ensures Inv(corpus, RunEffects(corpus, pg, d))
  {
    if d.shell.state.query != pg.shell.state.query {
      AppShell.RefreshSuggestionsSpec(corpus, d.shell);
    } else {
      assert RunEffects(corpus, pg, d) == d;
    }
  }

  /** Applying a handler outcome keeps the invariant as long as the outcome's
      selection is valid for the current list. */
  lemma ApplyKeepsInv(corpus: seq<VC>, pg: PageState, o: Form.Outcome)
    requires Inv(corpus, pg)
    requires Form.ValidSelection(o.form.selected, |pg.shell.state.suggestions|)
    ensures Inv(corpus, Apply(corpus, pg, o))
  {
    var st := pg.shell.state;
    var d := Dispatch(pg.(form := o.form), o.call);
    // Case split on the callback; the solver needs it.
    match o.call {
      case NoCall =>
      case SearchFor(q) =>
      case PickSuggestion(q) =>
      case ChangeInput(v) =>
    }
    EffectsKeepInv(corpus, pg, d);
  }

  /** One event. Key presses run the key handler; an Enter the handler did
      not claim (no `preventDefault`) submits the form, as a browser does,
      unless the submit button is disabled. */
  function Step(corpus: seq<VC>, pg: PageState, e: Event): (r: PageState)
    requires Inv(corpus, pg) && Enabled(pg, e)
    ensures Inv(corpus, r)
  {
    var props := PropsOf(pg);
    match e
    case Type(v) =>
      ApplyKeepsInv(corpus, pg, Form.InputChange(pg.form, v));
      Apply(corpus, pg, Form.InputChange(pg.form, v))
    case Press(k) =>
      var o := Form.KeyDown(props, pg.form, k);
      if k == Form.Enter && !o.prevented && !Form.SubmitDisabled(props) then
        ApplyKeepsInv(corpus, pg, Form.Submit(props, pg.form));
        Apply(corpus, pg, Form.Submit(props, pg.form))
      else
        ApplyKeepsInv(corpus, pg, o);
        Apply(corpus, pg, o)
    case SubmitClick =>
      ApplyKeepsInv(corpus, pg, Form.Submit(props, pg.form));
      Apply(corpus, pg, Form.Submit(props, pg.form))
    case SuggestionClick(i) =>
      var o := Form.SuggestionClick(pg.form, props.suggestions[i]);
      ApplyKeepsInv(corpus, pg, o);
      Apply(corpus, pg, o)
    case SuggestionHover(i) =>
      pg.(form := Form.Hover(pg.form, i))
    case ClearClick =>
      ApplyKeepsInv(corpus, pg, Form.Clear(props, pg.form));
      Apply(corpus, pg, Form.Clear(props, pg.form))
    case FocusInput =>
      pg.(form := Form.Focus(props, pg.form))
    case MouseDownOutside =>
      if Form.DropdownVisible(props, pg.form) then pg.(form := Form.Dismiss(pg.form)) else pg
    case PopularClick(industry) =>
      // The popular-industry buttons call the page's handler directly, not the form's.
      ApplyKeepsInv(corpus, pg, Form.Outcome(pg.form, Form.PickSuggestion(industry), false));
      Apply(corpus, pg, Form.Outcome(pg.form, Form.PickSuggestion(industry), false))
    case TimerFires =>
      var settled := AppShell.SettleSearch(corpus, pg.shell, pg.pending[0]);
      pg.(shell := settled, pending := pg.pending[1..])
  }

  /** Runs a sequence of events, each one only if the page can deliver it then. */
  function Run(corpus: seq<VC>, pg: PageState, events: seq<Event>): (r: PageState)
    requires Inv(corpus, pg)
    ensures Inv(corpus, r)
    decreases |events|
  {
    if |events| == 0 then pg
    else
      var next := if Enabled(pg, events[0]) then Step(corpus, pg, events[0]) else pg;
      Run(corpus, next, events[1..])
  }

  /** In every state the page can reach, the selected index is -1 or inside
      the suggestion list, so the reads of `suggestions[selected]` that Tab
      and Enter make are in bounds; and the suggestions on screen are always
      the ones the current query calls for. */
  lemma ReachableStatesKeepSelectionInBounds(corpus: seq<VC>, events: seq<Event>)
    ensures var pg := Run(corpus, Initial(), events);
      && -1 <= pg.form.selected < |pg.shell.state.suggestions|
      && pg.shell.state.suggestions == Suggest(corpus, pg.shell.state.query)
  {
    InitialInv(corpus);
  }

  /** Submitting through the button always starts a search: the page shows
      the loading view at once, one more timer is pending, for the selected
      suggestion if there is one and for the trimmed query otherwise, and the
      dropdown is closed. */
  lemma SubmitShowsLoading(corpus: seq<VC>, pg: PageState)
    requires Inv(corpus, pg) && Enabled(pg, SubmitClick)
    ensures ViewOf(Step(corpus, pg, SubmitClick)).Loading?
    ensures Step(corpus, pg, SubmitClick).pending == pg.pending +
      [if pg.form.selected >= 0 then pg.shell.state.suggestions[pg.form.selected] else Trim(pg.shell.state.query)]
    ensures !Form.DropdownVisible(PropsOf(Step(corpus, pg, SubmitClick)), Step(corpus, pg, SubmitClick).form)
  {
    var props := PropsOf(pg);
    var o := Form.Submit(props, pg.form);
    assert o.call.PickSuggestion? || o.call.SearchFor?;
    var d := Dispatch(pg.(form := o.form), o.call);
    assert d.shell.state.isLoading && !d.form.isFocused;
    assert |d.pending| == |pg.pending| + 1;
    var r := Step(corpus, pg, SubmitClick);
    assert r == RunEffects(corpus, pg, d);
    assert r.shell.state.isLoading && !r.form.isFocused && r.pending == d.pending;
  }

  /** When the oldest timer fires, its query's results replace the old ones
      (exactly the matching records, in corpus order), loading ends, the
      has-searched flag is raised even for an empty result, and the view is
      the no-results message or one card per result; the query and the
      suggestions stay as they were. */
  lemma TimerSettles(corpus: seq<VC>, pg: PageState)
    requires Inv(corpus, pg) && |pg.pending| > 0
    ensures var r := Step(corpus, pg, TimerFires);
      && r.shell.state.results == Search(corpus, pg.pending[0])
      && r.pending == pg.pending[1..]
      && r.shell.hasSearched && !r.shell.state.isLoading && !r.shell.state.showSuggestions
      && r.shell.state.query == pg.shell.state.query
      && r.shell.state.suggestions == pg.shell.state.suggestions
      && (ViewOf(r).NoResults? <==> Search(corpus, pg.pending[0]) == [])
      && (ViewOf(r).Found? <==> Search(corpus, pg.pending[0]) != [])
      && (ViewOf(r).Found? ==> ViewOf(r).cards == Search(corpus, pg.pending[0]))
  {
    var r := Step(corpus, pg, TimerFires);
    Results.SelectViewCases(false, true, r.shell.state.results, r.shell.state.query);
  }

  /** Clearing the query after a finished search, by the clear button or by
      deleting the text, goes straight back to the pre-search view: no new
      timer, no loading, no results, no suggestions. The clear button also
      leaves the input focused with nothing selected. */
  lemma ClearingReturnsToPrompt(corpus: seq<VC>, pg: PageState, e: Event)
    requires Inv(corpus, pg) && !pg.shell.state.isLoading
    requires e == ClearClick || e == Type("")
    requires Enabled(pg, e)
    ensures ViewOf(Step(corpus, pg, e)) == Results.Prompt
    ensures Step(corpus, pg, e).pending == pg.pending
    ensures Step(corpus, pg, e).shell.state.results == []
    ensures Step(corpus, pg, e).shell.state.suggestions == []
    ensures e == ClearClick ==> Step(corpus, pg, e).form == Form.FormState(-1, true)
  {
    var props := PropsOf(pg);
    var o := if e == ClearClick then Form.Clear(props, pg.form) else Form.InputChange(pg.form, "");
    assert o.call == Form.ChangeInput("");
    var d := Dispatch(pg.(form := o.form), o.call);
    assert d.shell.state.query == "" && !d.shell.hasSearched && !d.shell.state.isLoading;
    if pg.shell.state.query == "" {
      assert pg.shell.state.suggestions == [];
    } else {
      AppShell.RefreshSuggestionsSpec(corpus, d.shell);
    }
  }

  /** After the clear button, a click on a popular industry opens the
      dropdown whenever that industry has suggestions: the clear left the
      input focused, and the new query brings its list. */
  lemma ClearThenPopularShowsSuggestions(corpus: seq<VC>, pg: PageState, industry: String)
    requires Inv(corpus, pg) && |pg.shell.state.query| > 0 && industry != ""
    ensures var c := Step(corpus, pg, ClearClick);
      && Enabled(c, PopularClick(industry))
      && var r := Step(corpus, c, PopularClick(industry));
        && r.shell.state.query == industry
        && r.shell.state.suggestions == Suggest(corpus, industry)
        && (Form.DropdownVisible(PropsOf(r), r.form) <==> Suggest(corpus, industry) != [])
  {
    ClearLeavesFocus(corpus, pg);
    PopularFromFocus(corpus, Step(corpus, pg, ClearClick), industry);
  }

  /** The clear button empties the query, forgets the search, and leaves the
      input focused. */
  lemma ClearLeavesFocus(corpus: seq<VC>, pg: PageState)
    requires Inv(corpus, pg) && |pg.shell.state.query| > 0
    ensures var c := Step(corpus, pg, ClearClick);
      c.shell.state.query == "" && !c.shell.hasSearched && c.form.isFocused
  {
    var o := Form.Clear(PropsOf(pg), pg.form);
    var d := Dispatch(pg.(form := o.form), o.call);
    var c := Step(corpus, pg, ClearClick);
    assert c == RunEffects(corpus, pg, d);
  }

  /** A popular-industry click on a focused input while has-searched is
      false (before any search, or after the input is emptied) makes the
      industry the query and opens its suggestions. */
  lemma PopularFromFocus(corpus: seq<VC>, c: PageState, industry: String)
    requires Inv(corpus, c) && !c.shell.hasSearched && c.form.isFocused
    requires industry != "" && c.shell.state.query == ""
    ensures Enabled(c, PopularClick(industry))
    ensures var r := Step(corpus, c, PopularClick(industry));
      && r.shell.state.query == industry
      && r.shell.state.suggestions == Suggest(corpus, industry)
      && (Form.DropdownVisible(PropsOf(r), r.form) <==> Suggest(corpus, industry) != [])
  {
    var o := Form.Outcome(c.form, Form.PickSuggestion(industry), false);
    var d := Dispatch(c.(form := o.form), o.call);
    AppShell.RefreshSuggestionsSpec(corpus, d.shell);
    var r := Step(corpus, c, PopularClick(industry));
    assert r == RunEffects(corpus, c, d);
  }

  /** Typing a new non-empty query shows its suggestions, focuses the input
      and clears the selection; the dropdown opens exactly when some
      industry matches. */
  lemma TypingShowsSuggestions(corpus: seq<VC>, pg: PageState, v: String)
    requires Inv(corpus, pg) && v != "" && v != pg.shell.state.query
    ensures var r := Step(corpus, pg, Type(v));
      && r.shell.state.query == v
      && r.shell.state.suggestions == Suggest(corpus, v)
      && r.shell.state.showSuggestions
      && r.form == Form.FormState(-1, true)
      && r.pending == pg.pending
      && (Form.DropdownVisible(PropsOf(r), r.form) <==> Suggest(corpus, v) != [])
  {
    var d := Dispatch(pg.(form := Form.InputChange(pg.form, v).form), Form.ChangeInput(v));
    AppShell.RefreshSuggestionsSpec(corpus, d.shell);
  }

  /** Enter with nothing selected is the submit button's click when that is
      enabled, and does nothing when it is disabled. */
  lemma EnterWithoutSelectionSubmits(corpus: seq<VC>, pg: PageState)
    requires Inv(corpus, pg) && pg.form.selected == -1
    ensures Enabled(pg, SubmitClick) ==> Step(corpus, pg, Press(Form.Enter)) == Step(corpus, pg, SubmitClick)
    ensures !Enabled(pg, SubmitClick) ==> Step(corpus, pg, Press(Form.Enter)) == pg
  {
    var o := Form.KeyDown(PropsOf(pg), pg.form, Form.Enter);
    assert o == Form.Outcome(pg.form, Form.NoCall, false);
  }

  /** Enter on a selected suggestion starts a search for it even while an
      earlier search is loading (the disabled submit button does not stop
      it), so two timers can be pending at once; when the older one fires,
      loading ends and its results show although the newer search has not
      finished. */
  lemma OverlappingSearches(corpus: seq<VC>, pg: PageState)
    requires Inv(corpus, pg) && pg.shell.state.isLoading
    requires pg.shell.state.showSuggestions && 0 <= pg.form.selected < |pg.shell.state.suggestions|
    ensures var r := Step(corpus, pg, Press(Form.Enter));
      && |r.pending| == |pg.pending| + 1 >= 2
      && r.pending[|r.pending| - 1] == pg.shell.state.suggestions[pg.form.selected]
      && var s := Step(corpus, r, TimerFires);
        && !s.shell.state.isLoading && |s.pending| >= 1
        && s.shell.state.results == Search(corpus, pg.pending[0])
  {
    var picked := pg.shell.state.suggestions[pg.form.selected];
    var o := Form.KeyDown(PropsOf(pg), pg.form, Form.Enter);
    assert o.call == Form.PickSuggestion(picked) && o.prevented;
    var d := Dispatch(pg.(form := o.form), o.call);
    assert d.pending == pg.pending + [picked];
    var r := Step(corpus, pg, Press(Form.Enter));
    assert r == RunEffects(corpus, pg, d);
    assert r.pending == d.pending;
    assert r.pending[0] == pg.pending[0];
    var s := Step(corpus, r, TimerFires);
    assert s.shell == AppShell.SettleSearch(corpus, r.shell, r.pending[0]);
  }

  /** Editing the query after a search does not touch the results: typing a
      different non-empty query keeps the old cards on screen, now under a
      heading that names the new query, until another search settles. */
  lemma EditingKeepsShownResults(corpus: seq<VC>, pg: PageState, v: String)
    requires Inv(corpus, pg) && ViewOf(pg).Found?
    requires v != "" && v != pg.shell.state.query
    ensures var r := Step(corpus, pg, Type(v));
      && ViewOf(r).Found?
      && ViewOf(r).cards == pg.shell.state.results
      && ViewOf(r).heading.query == v
      && r.pending == pg.pending
  {
    var d := Dispatch(pg.(form := Form.InputChange(pg.form, v).form), Form.ChangeInput(v));
    assert d.shell.state.results == pg.shell.state.results && d.shell.hasSearched;
    AppShell.RefreshSuggestionsSpec(corpus, d.shell);
    var r := Step(corpus, pg, Type(v));
    assert r == RunEffects(corpus, pg, d);
    Results.SelectViewCases(pg.shell.state.isLoading, pg.shell.hasSearched, pg.shell.state.results, pg.shell.state.query);
    Results.SelectViewCases(r.shell.state.isLoading, r.shell.hasSearched, r.shell.state.results, r.shell.state.query);
  }

  /** The effects as the page is written: the suggestion effect depends on
      `allIndustries`, an array built afresh on every render, so it runs
      after every render of the page, not only after a change of query; and
      since it always stores a new object, the page keeps rendering. Each
      pass recomputes the suggestions and shows them for any non-empty query,
      and the form, handed a new suggestion array each time, clears its
      selection. */
  function EffectsEveryRender(corpus: seq<VC>, pg: PageState): (r: PageState)
    ensures r.form.selected == -1
    ensures r.shell.state.suggestions == Suggest(corpus, pg.shell.state.query)
    ensures r.shell.state.showSuggestions <==> |pg.shell.state.query| > 0
    ensures r.shell.state.query == pg.shell.state.query && r.shell.state.results == pg.shell.state.results
    ensures r.shell.state.isLoading == pg.shell.state.isLoading && r.shell.hasSearched == pg.shell.hasSearched
    ensures r.pending == pg.pending && r.form.isFocused == pg.form.isFocused
  {
    AppShell.RefreshSuggestionsSpec(corpus, pg.shell);
    pg.(shell := AppShell.RefreshSuggestions(corpus, pg.shell), form := Form.SuggestionsReplaced(pg.form))
  }

  /** One event on the page as written: the event as `Step` handles it, then
      the effects that every render runs. The invariant still holds. */
  function StepAsWritten(corpus: seq<VC>, pg: PageState, e: Event): (r: PageState)
    requires Inv(corpus, pg) && Enabled(pg, e)
    ensures Inv(corpus, r)
  {
    EffectsEveryRender(corpus, Step(corpus, pg, e))
  }

  /** As written, ArrowDown cannot select anything that stays selected: the
      next pass of the effects clears the index it set. */
  lemma RenderLoopClearsSelection(corpus: seq<VC>, pg: PageState)
    requires Inv(corpus, pg)
    requires pg.shell.state.showSuggestions && |pg.shell.state.suggestions| > 0
    ensures StepAsWritten(corpus, pg, Press(Form.ArrowDown)).form.selected == -1
  {
  }

  /** With the effects run only on a change of query, ArrowDown moves the
      selection to the next suggestion, wrapping at the end, and nothing
      else changes. */
  lemma ArrowDownMovesSelection(corpus: seq<VC>, pg: PageState)
    requires Inv(corpus, pg)
    requires pg.shell.state.showSuggestions && |pg.shell.state.suggestions| > 0
    ensures var r := Step(corpus, pg, Press(Form.ArrowDown));
      && r == pg.(form := pg.form.(selected := Form.NextIndex(pg.form.selected, |pg.shell.state.suggestions|)))
      && 0 <= r.form.selected < |pg.shell.state.suggestions|
  {
    var o := Form.KeyDown(PropsOf(pg), pg.form, Form.ArrowDown);
    assert o.call == Form.NoCall;
    var r := Step(corpus, pg, Press(Form.ArrowDown));
    assert r == RunEffects(corpus, pg, Dispatch(pg.(form := o.form), o.call));
  }

  /** ArrowUp moves the selection to the previous suggestion, from none or
      from the first to the last, and nothing else changes. */
  lemma ArrowUpMovesSelection(corpus: seq<VC>, pg: PageState)
    requires Inv(corpus, pg)
    requires pg.shell.state.showSuggestions && |pg.shell.state.suggestions| > 0
    ensures var r := Step(corpus, pg, Press(Form.ArrowUp));
      && r == pg.(form := pg.form.(selected := Form.PrevIndex(pg.form.selected, |pg.shell.state.suggestions|)))
      && 0 <= r.form.selected < |pg.shell.state.suggestions|
  {
    var o := Form.KeyDown(PropsOf(pg), pg.form, Form.ArrowUp);
    assert o.call == Form.NoCall;
    var r := Step(corpus, pg, Press(Form.ArrowUp));
    assert r == RunEffects(corpus, pg, Dispatch(pg.(form := o.form), o.call));
  }

  /** As written, a search that settles while the query is non-empty leaves
      the suggestion list shown: settling hides it, and the next pass of the
      effects shows it again. With the effects run only on a change of query
      (`Step`), it stays hidden. */
  lemma RenderLoopReopensSuggestions(corpus: seq<VC>, pg: PageState)
    requires Inv(corpus, pg) && |pg.pending| > 0 && |pg.shell.state.query| > 0
    ensures StepAsWritten(corpus, pg, TimerFires).shell.state.showSuggestions
    ensures !Step(corpus, pg, TimerFires).shell.state.showSuggestions
  {
  }
}
