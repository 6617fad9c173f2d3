/**
 * The list logic of the multi-select control (frontend/src/components/UI/MultiSelect.tsx):
 * which options show as chosen, which are still offered, and the new list of chosen values
 * handed to `onChange` when one is clicked or removed.
 */
module MultiSelect {
  import opened Lists

  /** An option: the value it stands for and the label shown (`label` is a Dafny keyword). */
  datatype SelectOption = SelectOption(value: string, caption: string)

  /** The options whose value is chosen, in the order of `options`. */
  function SelectedOptions(options: seq<SelectOption>, selected: seq<string>): (r: seq<SelectOption>)
    ensures forall o :: o in r <==> o in options && o.value in selected
  {
    Filter(options, (o: SelectOption) => o.value in selected)
  }

  /** The options still offered in the dropdown: those whose value is not chosen. */
  function AvailableOptions(options: seq<SelectOption>, selected: seq<string>): (r: seq<SelectOption>)
    ensures forall o :: o in r <==> o in options && o.value !in selected
  {
    Filter(options, (o: SelectOption) => o.value !in selected)
  }

  /** Every option shows exactly once: either as a chip or in the dropdown, never both. */
  lemma OptionsPartitioned(options: seq<SelectOption>, selected: seq<string>)
    ensures multiset(SelectedOptions(options, selected)) + multiset(AvailableOptions(options, selected))
            == multiset(options)
    ensures |SelectedOptions(options, selected)| + |AvailableOptions(options, selected)| == |options|
    ensures forall o :: !(o in SelectedOptions(options, selected) && o in AvailableOptions(options, selected))
  {
    FilterPartition(options, (o: SelectOption) => o.value in selected,
                    (o: SelectOption) => o.value !in selected);
  }

  /** `handleRemoveOption`: every occurrence of `value` leaves the list; the rest stay. */
  function Remove(selected: seq<string>, value: string): (r: seq<string>)
    ensures |r| <= |selected|
    ensures forall v :: v in r <==> v in selected && v != value
  {
    Filter(selected, (v: string) => v != value)
  }

  /** Removing a value that is not chosen changes nothing. */
  lemma RemoveAbsent(selected: seq<string>, value: string)
    requires value !in selected
    ensures Remove(selected, value) == selected
  {
    FilterKeepsAll(selected, (v: string) => v != value);
  }

  /**
   * `handleToggleOption`: a chosen value is removed, any other appended at the end, so a
   * value is chosen afterwards exactly when it was not before (when it is the clicked one).
   */
  function Toggle(selected: seq<string>, value: string): (r: seq<string>)
    ensures forall v :: v in r <==> (if v == value then value !in selected else v in selected)
    ensures value !in selected ==> r == selected + [value]
    ensures value in selected ==> |r| < |selected|
  {
    if value in selected then
      var r := Remove(selected, value);
      assert |r| < |selected| by {
        var k :| 0 <= k < |selected| && selected[k] == value;
        FilterPartition(selected, (v: string) => v != value, (v: string) => v == value);
        assert value in Filter(selected, (v: string) => v == value);
      }
      r
    else
      selected + [value]
  }

  /** Choosing a value and clicking it again gives back the list it started from. */
  lemma ToggleTwiceRestores(selected: seq<string>, value: string)
    requires value !in selected
    ensures Toggle(Toggle(selected, value), value) == selected
  {
    FilterUndoesAppend(selected, value, (v: string) => v != value);
  }
}
