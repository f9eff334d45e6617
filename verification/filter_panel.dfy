/** The events of `src/components/FilterPanel.tsx`. The panel holds no state:
    each event builds a new filter state and hands it to `onFilterChange`,
    which is `App.Directory.HandleFilterChange`. */
module FilterPanel {
  import opened CompanyTypes
  import opened Pipeline

  /** `handleReset`: the state the directory starts in. */
  function ResetFilters(): (r: FilterState)
    ensures IsNeutral(r)
    ensures ActiveCount(r) == 0
  {
    FilterState("", All, All, All)
  }

  /** After a reset the directory lists every company, in directory order. */
  lemma ResetShowsEverything(cs: seq<Company>)
    ensures FilterCompanies(cs, ResetFilters()) == cs
  {
    NeutralFilterKeepsAll(cs, ResetFilters());
  }

  /** `onFilterChange({ ...filters, field: value })`: the search box and the
      three selectors each replace their own field. */
  function Edit(f: FilterState, field: FilterField, value: string): (r: FilterState)
    ensures FieldValue(r, field) == value
    ensures forall other :: other != field ==> FieldValue(r, other) == FieldValue(f, other)
  {
    match field
    case SearchField => f.(search := value)
    case IndustryField => f.(industry := value)
    case LocationField => f.(location := value)
    case EmployeeCountField => f.(employeeCount := value)
  }

  /** Re-selecting the current value changes nothing, and of two edits of
      the same field only the later one counts. */
  lemma EditLaws(f: FilterState, field: FilterField, a: string, b: string)
    ensures Edit(f, field, FieldValue(f, field)) == f
    ensures Edit(Edit(f, field, a), field, b) == Edit(f, field, b)
  {
  }

  /** A selector's options: `All` first, then the vocabulary in its order. */
  function SelectorOptions(vocabulary: seq<string>): (r: seq<string>)
    ensures |r| == |vocabulary| + 1
    ensures r[0] == All
    ensures forall i :: 0 <= i < |vocabulary| ==> r[i + 1] == vocabulary[i]
  {
    [All] + vocabulary
  }

  /** Choosing the first option of a selector clears that field and any other
      option constrains it, provided the vocabulary does not itself hold the
      sentinel; the other fields keep their activity. */
  lemma ChoosingAnOption(f: FilterState, field: FilterField, vocabulary: seq<string>, i: nat)
    requires field != SearchField
    requires All !in vocabulary
    requires i < |SelectorOptions(vocabulary)|
    ensures IsActive(Edit(f, field, SelectorOptions(vocabulary)[i]), field) <==> i > 0
    ensures forall other :: other != field ==>
      (IsActive(Edit(f, field, SelectorOptions(vocabulary)[i]), other) <==> IsActive(f, other))
  {
  }

  /** The count badge and the "Clear All" button are rendered for a
      positive `activeFilterCount`. */
  predicate ShowsClearControls(activeFilterCount: int)
  {
    activeFilterCount > 0
  }

  /** The badge and the button are shown exactly when some field constrains
      the list, and a click on the button hides them again. */
  lemma ClearControlsIffFiltered(f: FilterState)
    ensures ShowsClearControls(ActiveCount(f)) <==> !IsNeutral(f)
    ensures ShowsClearControls(ActiveCount(f)) <==> exists field :: IsActive(f, field)
    ensures !ShowsClearControls(ActiveCount(ResetFilters()))
  {
  }
}
