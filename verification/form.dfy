/**
  The search form's own state and handlers: the keyboard-selected suggestion
  index (-1 for none) and the focus flag. Each handler returns the new form
  state, the callback it makes into the page (search, pick a suggestion,
  change the input, or none) and whether it suppressed the key's default
  action.
 */
module Form {
  import opened Text

  /** What the page hands the form on each render. */
  datatype Props = Props(suggestions: seq<String>, showSuggestions: bool, isLoading: bool, query: String)

  datatype FormState = FormState(selected: int, isFocused: bool)

  /** The callback a handler makes: `onSearch`, `onSuggestionClick`,
      `onInputChange`, or none. */
  datatype Call =
    | NoCall
    | SearchFor(query: String)
    | PickSuggestion(suggestion: String)
    | ChangeInput(value: String)

  /** A handler's result; `prevented` records a `preventDefault` call. */
  datatype Outcome = Outcome(form: FormState, call: Call, prevented: bool)

  datatype Key = ArrowDown | ArrowUp | Tab | Escape | Enter | OtherKey

  function Initial(): FormState
  {
    FormState(-1, false)
  }

  /** The selection invariant: no selection, or an index into the list. */
  predicate ValidSelection(selected: int, count: int)
  {
    -1 <= selected < count
  }

  /** ArrowDown: the next index, wrapping from the last back to the first. */
  function NextIndex(selected: int, count: int): (r: int)
    ensures count > 0 && selected >= -1 ==> 0 <= r < count
  {
    if selected < count - 1 then selected + 1 else 0
  }

  /** ArrowUp: the previous index, wrapping from the first (or from no
      selection) to the last. */
  function PrevIndex(selected: int, count: int): (r: int)
    ensures count > 0 && selected <= count ==> 0 <= r < count
  {
    if selected > 0 then selected - 1 else count - 1
  }

  /** On a valid selection ArrowDown is the successor modulo the list length
      (no selection counts as one before the first entry) and ArrowUp the
      predecessor; the two undo each other. */
  lemma IndexArithmetic(selected: int, count: int)
    requires count > 0 && ValidSelection(selected, count)
    ensures NextIndex(selected, count) == (selected + 1) % count
    ensures selected >= 0 ==> PrevIndex(selected, count) == (selected + count - 1) % count
    ensures selected == -1 ==> PrevIndex(selected, count) == count - 1
    ensures selected >= 0 ==> PrevIndex(NextIndex(selected, count), count) == selected
    ensures selected >= 0 ==> NextIndex(PrevIndex(selected, count), count) == selected
  {
    if selected < count - 1 {
      ModOfRange(selected + 1, count);
    } else {
      ModOfShift(0, count);
    }
    if selected >= 1 {
      ModOfShift(selected - 1, count);
    } else if selected == 0 {
      ModOfRange(count - 1, count);
    }
  }

  lemma ModOfRange(x: int, m: int)
    requires 0 <= x < m
    ensures x % m == x
  {
  }

  lemma ModOfShift(x: int, m: int)
    requires 0 <= x < m
    ensures (x + m) % m == x
  {
    ModOfRange(x, m);
  }

  /** The index reached after pressing ArrowDown `presses` times. */
  function AdvanceTimes(selected: int, count: int, presses: nat): int
  {
    if presses == 0 then selected else NextIndex(AdvanceTimes(selected, count, presses - 1), count)
  }

  /** From a selected entry, `presses` ArrowDowns (at most one full round)
      move that many places forward, wrapping past the end to the start. */
  lemma {:induction false} AdvanceWraps(selected: int, count: int, presses: nat)
    requires 0 <= selected < count && presses <= count
    ensures AdvanceTimes(selected, count, presses)
      == if selected + presses < count then selected + presses else selected + presses - count
  {
    if presses > 0 {
      AdvanceWraps(selected, count, presses - 1);
    }
  }

  /** Pressing ArrowDown `a` times and then `b` more times is pressing it `a + b` times. */
  lemma {:induction false} AdvanceCompose(selected: int, count: int, a: nat, b: nat)
    ensures AdvanceTimes(AdvanceTimes(selected, count, a), count, b) == AdvanceTimes(selected, count, a + b)
  {
    if b > 0 {
      AdvanceCompose(selected, count, a, b - 1);
    }
  }

  /** Starting with no selection, ArrowDown visits every entry in list order
      and after the last entry wraps round to the first: the k-th press
      (1 <= k <= count) selects entry k - 1, and the press after that
      selects entry 0 again. */
  lemma AdvanceCycles(count: int, presses: nat)
    requires count > 0 && 1 <= presses <= count
    ensures AdvanceTimes(-1, count, presses) == presses - 1
    ensures AdvanceTimes(-1, count, count + 1) == 0
  {
    AdvanceCompose(-1, count, 1, presses - 1);
    AdvanceWraps(0, count, presses - 1);
    AdvanceCompose(-1, count, 1, count);
    AdvanceWraps(0, count, count);
  }

  /** `handleSubmit`: a valid selection is picked; otherwise a non-blank
      query is searched, trimmed; otherwise nothing is called. The
      selection and focus are reset either way. */
  function Submit(p: Props, f: FormState): Outcome
  {
    var reset := FormState(-1, false);
    if 0 <= f.selected < |p.suggestions| then
      Outcome(reset, PickSuggestion(p.suggestions[f.selected]), true)
    else if Trim(p.query) != "" then
      Outcome(reset, SearchFor(Trim(p.query)), true)
    else
      Outcome(reset, NoCall, true)
  }

  /** Submitting picks a suggestion exactly when the selection is valid,
      and then one that is listed; it never edits the input, and it always
      clears the selection and the focus. */
  lemma SubmitSpec(p: Props, f: FormState)
    ensures Submit(p, f).form == FormState(-1, false)
    ensures Submit(p, f).call.PickSuggestion? <==> 0 <= f.selected < |p.suggestions|
    ensures Submit(p, f).call.PickSuggestion? ==> Submit(p, f).call.suggestion in p.suggestions
    ensures 0 <= f.selected < |p.suggestions| ==> Submit(p, f).call == PickSuggestion(p.suggestions[f.selected])
    ensures !Submit(p, f).call.ChangeInput?
  {
  }

  /** Without a valid selection, submitting searches only for a non-blank
      query, already trimmed, and calls nothing for a blank one. */
  lemma SubmitSearchesTrimmedQuery(p: Props, f: FormState)
    ensures Submit(p, f).call.SearchFor? ==>
      Submit(p, f).call.query != "" && Trim(Submit(p, f).call.query) == Submit(p, f).call.query
    ensures Submit(p, f).call.NoCall? <==> !(0 <= f.selected < |p.suggestions|) && AllWhitespace(p.query)
    ensures Submit(p, f).call.SearchFor? ==> Submit(p, f).call.query == Trim(p.query)
    ensures !(0 <= f.selected < |p.suggestions|) && !AllWhitespace(p.query) ==>
      Submit(p, f).call == SearchFor(Trim(p.query))
  {
    if !(0 <= f.selected < |p.suggestions|) {
      TrimProperties(p.query);
      var t := Trim(p.query);
      if t != "" {
        assert Submit(p, f).call == SearchFor(t);
      } else {
        assert Submit(p, f).call == NoCall;
      }
    }
  }

  /** `handleKeyDown`. With the list hidden or empty no key does anything;
      otherwise arrows move the selection, Tab fills the input with the
      selected (or first) suggestion, Escape clears selection and focus, and
      Enter picks the selected suggestion when there is one. The selection
      invariant is what keeps the reads of `suggestions[selected]` in bounds. */
  function KeyDown(p: Props, f: FormState, key: Key): (o: Outcome)
    requires ValidSelection(f.selected, |p.suggestions|)
    ensures ValidSelection(o.form.selected, |p.suggestions|)
    ensures o.call.PickSuggestion? ==> o.call.suggestion in p.suggestions
    ensures o.call.ChangeInput? ==> o.call.value in p.suggestions
    ensures !o.call.SearchFor?
  {
    var n := |p.suggestions|;
    if !p.showSuggestions || n == 0 then Outcome(f, NoCall, false)
    else match key
      case ArrowDown => Outcome(f.(selected := NextIndex(f.selected, n)), NoCall, true)
      case ArrowUp => Outcome(f.(selected := PrevIndex(f.selected, n)), NoCall, true)
      case Tab =>
        if f.selected >= 0 then
          Outcome(FormState(-1, false), ChangeInput(p.suggestions[f.selected]), true)
        else if n > 0 then
          Outcome(FormState(-1, false), ChangeInput(p.suggestions[0]), true)
        else Outcome(f, NoCall, false)
      case Escape => Outcome(FormState(-1, false), NoCall, false)
      case Enter =>
        if f.selected >= 0 then
          Outcome(FormState(-1, false), PickSuggestion(p.suggestions[f.selected]), true)
        else Outcome(f, NoCall, false)
      case OtherKey => Outcome(f, NoCall, false)
  }

  /** Key-by-key behaviour with the list shown and non-empty: ArrowDown and
      ArrowUp move the selection to the next or previous entry (see
      `IndexArithmetic`), inside the list, and change nothing else; Tab
      fills the input with the selected suggestion or the first one and
      never searches; Escape keeps
      the query; Enter picks exactly the selected suggestion. With the list
      hidden or empty every key leaves everything as it was. */
  lemma KeyDownSpec(p: Props, f: FormState, key: Key)
    requires ValidSelection(f.selected, |p.suggestions|)
    ensures var o := KeyDown(p, f, key);
      && (!p.showSuggestions || |p.suggestions| == 0 ==> o == Outcome(f, NoCall, false))
      && (p.showSuggestions && |p.suggestions| > 0 ==>
        && (key == ArrowDown ==>
              o == Outcome(f.(selected := NextIndex(f.selected, |p.suggestions|)), NoCall, true)
              && 0 <= o.form.selected < |p.suggestions|)
        && (key == ArrowUp ==>
              o == Outcome(f.(selected := PrevIndex(f.selected, |p.suggestions|)), NoCall, true)
              && 0 <= o.form.selected < |p.suggestions|)
        && (key == Tab ==>
              o.call == ChangeInput(p.suggestions[if f.selected >= 0 then f.selected else 0])
              && o.form == FormState(-1, false))
        && (key == Escape ==> o.call == NoCall && o.form == FormState(-1, false))
        && (key == Enter && f.selected >= 0 ==>
              o.call == PickSuggestion(p.suggestions[f.selected])
              && o.form == FormState(-1, false) && o.prevented)
        && (key == Enter && f.selected < 0 ==> o == Outcome(f, NoCall, false)))
  {
  }

  /** `handleInputChange`: pass the value up, focus exactly when it is
      non-empty, clear the selection. */
  function InputChange(f: FormState, value: String): Outcome
  {
    Outcome(FormState(-1, |value| > 0), ChangeInput(value), false)
  }

  /** `handleSuggestionClick`: pick the clicked suggestion, clear selection and focus. */
  function SuggestionClick(f: FormState, suggestion: String): Outcome
  {
    Outcome(FormState(-1, false), PickSuggestion(suggestion), false)
  }

  /** `handleSuggestionHover`: the hovered entry becomes the selection. */
  function Hover(f: FormState, index: int): FormState
  {
    f.(selected := index)
  }

  /** `clearSearch`: empty the input, clear the selection, and move the
      focus back to the input. That focus runs the input's focus handler of
      the render the click happened in, so it sees the query from before the
      clear; the clear button is only rendered for a non-empty query, so the
      form ends up focused. */
  function Clear(p: Props, f: FormState): Outcome
  {
    Outcome(Focus(p, f.(selected := -1)), ChangeInput(""), false)
  }

  /** The input's focus handler: focused exactly when the query is non-empty. */
  function Focus(p: Props, f: FormState): FormState
  {
    f.(isFocused := |p.query| > 0)
  }

  /** A mouse press outside the suggestion list: unfocus and clear the selection. */
  function Dismiss(f: FormState): FormState
  {
    FormState(-1, false)
  }

  /** The effect run when a new suggestion list arrives: clear the selection. */
  function SuggestionsReplaced(f: FormState): FormState
  {
    f.(selected := -1)
  }

  /** Every handler keeps the selection invariant for a list of `n`
      suggestions: the ones that reset it leave -1, and hovering only ever
      names a rendered entry. */
  lemma HandlersKeepSelectionValid(p: Props, f: FormState, value: String, suggestion: String, index: int)
    requires ValidSelection(f.selected, |p.suggestions|)
    ensures ValidSelection(Submit(p, f).form.selected, |p.suggestions|)
    ensures ValidSelection(InputChange(f, value).form.selected, |p.suggestions|)
    ensures ValidSelection(SuggestionClick(f, suggestion).form.selected, |p.suggestions|)
    ensures ValidSelection(Clear(p, f).form.selected, |p.suggestions|)
    ensures ValidSelection(Focus(p, f).selected, |p.suggestions|)
    ensures ValidSelection(Dismiss(f).selected, |p.suggestions|)
    ensures ValidSelection(SuggestionsReplaced(f).selected, 0)
    ensures 0 <= index < |p.suggestions| ==> ValidSelection(Hover(f, index).selected, |p.suggestions|)
  {
  }

  /** The dropdown is rendered when suggestions are to be shown, the input
      is focused and the list is non-empty. */
  predicate DropdownVisible(p: Props, f: FormState)
  {
    p.showSuggestions && f.isFocused && |p.suggestions| > 0
  }

  /** The submit button is disabled for a blank query or while loading. */
  predicate SubmitDisabled(p: Props)
  {
    Trim(p.query) == "" || p.isLoading
  }

  /** Every handler that confirms, fills, dismisses or escapes leaves the
      dropdown hidden, and so does a clearing edit. */
  lemma ConfirmingHidesDropdown(p: Props, f: FormState, key: Key, suggestion: String)
    requires ValidSelection(f.selected, |p.suggestions|)
    ensures !DropdownVisible(p, Submit(p, f).form)
    ensures !DropdownVisible(p, SuggestionClick(f, suggestion).form)
    ensures !DropdownVisible(p, Dismiss(f))
    ensures !DropdownVisible(p, InputChange(f, "").form)
    ensures key == Escape || key == Tab || (key == Enter && f.selected >= 0) ==>
      !DropdownVisible(p, KeyDown(p, f, key).form)
  {
  }
}
