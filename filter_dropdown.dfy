/**
 * The multi-select filter dropdown of the operating-room dashboard
 * (src/components/ui/FilterDropdown.tsx), together with the page state that
 * feeds it (src/pages/EfficiencyMetrics.tsx).
 *
 * The dropdown keeps no selection of its own.  The page stores the selected
 * specialties and passes them in as `selectedOptions`.  Every click computes a
 * new selection and hands it to the `onSelectionChange` callback, and the page
 * stores whatever it is handed.  A click handler is modelled as a function
 * returning what it hands to the callback: `None` when the dropdown was given
 * no callback, `Some(s)` when it emits `s`.
 */
module FilterDropdown {
  import opened Wrappers
  import opened Decimal

  /** A selection as the page stores it: an ordered list, duplicates allowed. */
  type Selection = seq<string>

  /** The fixed catalogue of surgical specialties, in listed order. */
  const Specialties: seq<string> := [
    "General Surgery",
    "Orthopedic Surgery",
    "Urology",
    "Gynecology",
    "Cardiac Surgery",
    "Neurosurgery",
    "Plastic Surgery",
    "Vascular Surgery"
  ]

  const SelectAllText: string := "Select all"
  const SelectedSuffix: string := " selected"

  /**
   * What the component's event handlers and its rendering read: the option
   * list actually shown and the selection actually shown.
   */
  datatype View = View(actual: seq<string>, selected: Selection)

  // ---------------------------------------------------------------------------
  // Defaulting of the props
  // ---------------------------------------------------------------------------

  /** The option list shown: the caller's options, or the catalogue when there are none. */
  function ActualOptions(options: seq<string>): (r: seq<string>)
    ensures r != []
    ensures options != [] ==> r == options
    ensures options == [] ==> r == Specialties
  {
    if |options| > 0 then options else Specialties
  }

  /**
   * The view as the component computes it.  An absent `selectedOptions` prop
   * defaults to `[]`, and an empty selection, stored or absent, is shown as a
   * copy of every option.
   */
  function ViewOf(options: seq<string>, selectedOptions: Selection): (v: View)
    ensures v.actual == ActualOptions(options)
    ensures v.selected != []
    ensures selectedOptions != [] ==> v.selected == selectedOptions
    ensures selectedOptions == [] ==> v.selected == v.actual
  {
    var actual := ActualOptions(options);
    View(actual, if |selectedOptions| > 0 then selectedOptions else actual)
  }

  // ---------------------------------------------------------------------------
  // Sequence operations used by the handlers
  // ---------------------------------------------------------------------------

  /** `s` with every occurrence of `x` dropped, the others kept in order. */
  function RemoveAll(s: Selection, x: string): (r: Selection)
    ensures forall y :: y in r <==> y in s && y != x
    ensures forall y :: y != x ==> multiset(r)[y] == multiset(s)[y]
    ensures multiset(r)[x] == 0
    ensures |r| == |s| - multiset(s)[x]
  {
    if s == [] then []
    else
      assert s == [s[0]] + s[1..];
      if s[0] == x then RemoveAll(s[1..], x)
      else [s[0]] + RemoveAll(s[1..], x)
  }

  /** Removal distributes over concatenation: the relative order of what is kept is the input's. */
  lemma {:induction false} RemoveAllConcat(a: Selection, b: Selection, x: string)
    ensures RemoveAll(a + b, x) == RemoveAll(a, x) + RemoveAll(b, x)
  {
    if a == [] {
      assert a + b == b;
    } else {
      assert (a + b)[0] == a[0];
      assert (a + b)[1..] == a[1..] + b;
      RemoveAllConcat(a[1..], b, x);
    }
  }

  /** Removing an element that does not occur changes nothing. */
  lemma {:induction false} RemoveAllAbsent(s: Selection, x: string)
    requires x !in s
    ensures RemoveAll(s, x) == s
  {
    if s != [] {
      assert s[0] != x;
      RemoveAllAbsent(s[1..], x);
      assert s == [s[0]] + s[1..];
    }
  }

  /** The new selection after a click on `option`: remove it if shown as selected, append it otherwise. */
  function Toggle(selected: Selection, option: string): (r: Selection)
    ensures option in r <==> option !in selected
    ensures forall y :: y != option ==> (y in r <==> y in selected)
  {
    if option in selected then RemoveAll(selected, option) else selected + [option]
  }

  /** Toggling an absent option appends it: the earlier elements are kept and the length grows by one. */
  lemma ToggleAbsentAppends(selected: Selection, option: string)
    requires option !in selected
    ensures |Toggle(selected, option)| == |selected| + 1
    ensures Toggle(selected, option)[..|selected|] == selected
    ensures Toggle(selected, option)[|selected|] == option
  {
  }

  /** Toggling a present option removes every occurrence of it, and only those. */
  lemma TogglePresentRemovesAll(selected: Selection, option: string)
    requires option in selected
    ensures Toggle(selected, option) == RemoveAll(selected, option)
    ensures |Toggle(selected, option)| == |selected| - multiset(selected)[option]
    ensures forall y :: y != option ==> multiset(Toggle(selected, option))[y] == multiset(selected)[y]
  {
  }

  /** Round trip: toggling an absent option twice gives back the original selection. */
  lemma {:induction false} ToggleTwice(selected: Selection, option: string)
    requires option !in selected
    ensures Toggle(Toggle(selected, option), option) == selected
  {
    assert option in selected + [option];
    RemoveAllConcat(selected, [option], option);
    RemoveAllAbsent(selected, option);
    assert RemoveAll([option], option) == [];
  }

  // ---------------------------------------------------------------------------
  // Event handlers and rendering, over the view the component computed
  // ---------------------------------------------------------------------------

  /** Click on one option: what the handler hands to the callback. */
  function OnSelect(hasCallback: bool, v: View, option: string): (r: Option<Selection>)
    ensures r.None? <==> !hasCallback
    ensures r.Some? ==> r.value == Toggle(v.selected, option)
  {
    if !hasCallback then None else Some(Toggle(v.selected, option))
  }

  /**
   * The "Select all" box is checked when as many entries are shown as selected
   * as there are options; in particular whenever every option is shown as
   * selected, in option order.
   */
  predicate SelectAllChecked(v: View)
    ensures v.selected == v.actual ==> SelectAllChecked(v)
    ensures SelectAllChecked(v) ==> |v.selected| == |v.actual|
  {
    |v.selected| == |v.actual|
  }

  /** An option's box is checked when the option occurs, once or more, in the shown selection. */
  predicate OptionChecked(v: View, option: string)
    ensures OptionChecked(v, option) <==> multiset(v.selected)[option] > 0
  {
    option in v.selected
  }

  /** Click on "Select all": clear a full selection, otherwise select a copy of every option. */
  function OnSelectAll(hasCallback: bool, v: View): (r: Option<Selection>)
    requires v.actual != []
    ensures r.None? <==> !hasCallback
    ensures hasCallback ==> (r == Some([]) <==> SelectAllChecked(v))
    ensures hasCallback && !SelectAllChecked(v) ==> r == Some(v.actual)
  {
    if !hasCallback then None
    else if |v.selected| == |v.actual| then Some([])
    else Some(v.actual)
  }

  /**
   * The text on the dropdown button: the placeholder for an empty selection,
   * "Select all" for a full one, the decimal count followed by " selected"
   * otherwise.
   */
  function ButtonLabel(placeholder: string, v: View): (r: string)
    ensures |v.selected| == 0 ==> r == placeholder
    ensures 0 < |v.selected| && SelectAllChecked(v) ==> r == SelectAllText
    ensures 0 < |v.selected| && !SelectAllChecked(v) ==>
      && |r| > |SelectedSuffix|
      && r[|r| - |SelectedSuffix|..] == SelectedSuffix
      && '0' <= r[0] <= '9'
      && r[..|r| - |SelectedSuffix|] == DecimalString(|v.selected|)
  {
    if |v.selected| == 0 then placeholder
    else if |v.selected| == |v.actual| then SelectAllText
    else DecimalString(|v.selected|) + SelectedSuffix
  }

  /**
   * The button label as the component computes it: "Select all" exactly when
   * the select-all box is checked, "<n> selected" otherwise; the caller's
   * placeholder label never shows, since the shown selection is never empty.
   */
  lemma ButtonLabelCases(placeholder: string, options: seq<string>, selectedOptions: Selection)
    ensures var v := ViewOf(options, selectedOptions);
      && (ButtonLabel(placeholder, v) == SelectAllText <==> SelectAllChecked(v))
      && (!SelectAllChecked(v) ==> ButtonLabel(placeholder, v) == DecimalString(|v.selected|) + SelectedSuffix)
  {
    var v := ViewOf(options, selectedOptions);
    if !SelectAllChecked(v) {
      var digits := DecimalString(|v.selected|);
      assert (digits + SelectedSuffix)[0] == digits[0];
      assert SelectAllText[0] == 'S';
    }
  }

  /** Fullness is decided by length: a selection with a duplicate can check "Select all" while an option stays unchecked. */
  lemma FullByLengthNotBySet()
    ensures var v := ViewOf(["A", "B"], ["A", "A"]);
      SelectAllChecked(v) && !OptionChecked(v, "B") && ButtonLabel("L", v) == SelectAllText
  {
  }

  // ---------------------------------------------------------------------------
  // The page that owns the selection
  // ---------------------------------------------------------------------------

  /** The page's initial selection: a copy of the whole catalogue. */
  const InitialSelection: Selection := Specialties

  /** At start every specialty is shown as selected and the button reads "Select all". */
  lemma InitialStateShowsAll(placeholder: string, option: string)
    requires option in Specialties
    ensures var v := ViewOf(Specialties, InitialSelection);
      SelectAllChecked(v) && OptionChecked(v, option) && ButtonLabel(placeholder, v) == SelectAllText
  {
  }

  /** The page stores what the dropdown emits; nothing emitted leaves it unchanged. */
  function Store(state: Selection, emitted: Option<Selection>): (r: Selection)
    ensures emitted.None? ==> r == state
    ensures emitted.Some? ==> r == emitted.value
  {
    match emitted
    case None => state
    case Some(s) => s
  }

  /** Without a callback neither kind of click changes the stored selection. */
  lemma NoCallbackIsNoOp(options: seq<string>, state: Selection, option: string)
    ensures Store(state, OnSelect(false, ViewOf(options, state), option)) == state
    ensures Store(state, OnSelectAll(false, ViewOf(options, state))) == state
  {
  }

  /** Clicking an option that is not selected, and then clicking it again, restores the stored selection. */
  lemma ClickTwiceRestores(options: seq<string>, state: Selection, option: string)
    requires state != [] && option !in state
    ensures var once := Store(state, OnSelect(true, ViewOf(options, state), option));
      Store(once, OnSelect(true, ViewOf(options, once), option)) == state
  {
    ToggleTwice(state, option);
  }

  /**
   * A click flips that option's checkbox and no other, as long as the click
   * does not empty the selection.
   */
  lemma ClickFlipsOneCheckbox(options: seq<string>, state: Selection, option: string, other: string)
    requires Toggle(ViewOf(options, state).selected, option) != []
    requires other != option
    ensures var next := Store(state, OnSelect(true, ViewOf(options, state), option));
      && OptionChecked(ViewOf(options, next), option) == !OptionChecked(ViewOf(options, state), option)
      && OptionChecked(ViewOf(options, next), other) == OptionChecked(ViewOf(options, state), other)
  {
  }

  /**
   * As written: once the selection is full, "Select all" emits `[]`; the page
   * stores it, the dropdown shows it as full again, and the next click emits
   * `[]` once more, so a cleared selection can never be seen.
   */
  lemma ClearIsShownAsFull(placeholder: string, options: seq<string>)
    ensures var full := ActualOptions(options);
      var cleared := Store(full, OnSelectAll(true, ViewOf(options, full)));
      && cleared == []
      && ViewOf(options, cleared).selected == full
      && ButtonLabel(placeholder, ViewOf(options, cleared)) == SelectAllText
      && SelectAllChecked(ViewOf(options, cleared))
      && OnSelectAll(true, ViewOf(options, cleared)) == Some([])
  {
  }

  /** As written: unchecking the only selected option shows every option as checked. */
  lemma UncheckLastChecksAll(options: seq<string>, option: string, other: string)
    requires other in ActualOptions(options)
    ensures var next := Store([option], OnSelect(true, ViewOf(options, [option]), option));
      next == [] && OptionChecked(ViewOf(options, next), other)
  {
    assert RemoveAll([option], option) == [];
  }

  // ---------------------------------------------------------------------------
  // Corrected defaulting
  // ---------------------------------------------------------------------------

  /**
   * Corrected view: only an absent `selectedOptions` prop means "everything
   * selected"; a stored empty selection is shown as empty.
   */
  function ViewOfFixed(options: seq<string>, selectedOptions: Option<Selection>): (v: View)
    ensures v.actual == ActualOptions(options)
    ensures selectedOptions.None? ==> v.selected == v.actual
    ensures selectedOptions.Some? ==> v.selected == selectedOptions.value
  {
    var actual := ActualOptions(options);
    match selectedOptions
    case None => View(actual, actual)
    case Some(s) => View(actual, s)
  }

  /**
   * With the corrected view, "Select all" on a full selection clears it
   * visibly (placeholder label, nothing checked), and a second click selects
   * every option again.
   */
  lemma SelectAllTogglesWhenFixed(placeholder: string, options: seq<string>, option: string)
    ensures var full := ActualOptions(options);
      var cleared := Store(full, OnSelectAll(true, ViewOfFixed(options, Some(full))));
      var again := Store(cleared, OnSelectAll(true, ViewOfFixed(options, Some(cleared))));
      && cleared == []
      && ButtonLabel(placeholder, ViewOfFixed(options, Some(cleared))) == placeholder
      && !SelectAllChecked(ViewOfFixed(options, Some(cleared)))
      && !OptionChecked(ViewOfFixed(options, Some(cleared)), option)
      && again == full
  {
  }
}
