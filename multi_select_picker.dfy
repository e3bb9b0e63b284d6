/**
 * The selection logic of components/multiSelectPicker.tsx: tapping an
 * entry toggles it in the list of selected strings, and an entry is drawn
 * as selected when the list includes it.
 */
module MultiSelectPicker {
  import Lists

  /** `selectedItem => selectedItem !== item`. */
  function Differs(item: string): string -> bool {
    (s: string) => s != item
  }

  /**
   * `handleSelect(item)`: the one list handed to `onSelectionChange`. A
   * selected item is removed everywhere it occurs; an unselected one is
   * appended. The old list itself is left as it was.
   */
  function HandleSelect(selected: seq<string>, item: string): (r: seq<string>)
    ensures item in r <==> item !in selected
    ensures forall k :: 0 <= k < |selected| && selected[k] != item ==> selected[k] in r
    ensures forall k :: 0 <= k < |r| && r[k] != item ==> r[k] in selected
    ensures item in selected ==> r == Lists.Filter(selected, Differs(item))
    ensures item in selected ==> multiset(r) == multiset(selected)[item := 0]
    ensures item in selected ==> |r| == |selected| - multiset(selected)[item]
    ensures item !in selected ==> r == selected + [item] && |r| == |selected| + 1
  {
    if Lists.Includes(selected, item) then
      var r := Lists.Filter(selected, Differs(item));
      forall x ensures multiset(r)[x] == multiset(selected)[item := 0][x] {
        Lists.FilterCount(selected, Differs(item), x);
      }
      assert |multiset(selected)[item := 0]| == |selected| - multiset(selected)[item] by {
        assert multiset(selected) == multiset(selected)[item := 0] + multiset{}[item := multiset(selected)[item]];
      }
      r
    else
      selected + [item]
  }

  /** `selectedItems.includes(item)` in `renderItem`. */
  function IsSelected(selected: seq<string>, item: string): (b: bool)
    ensures b <==> exists k :: 0 <= k < |selected| && selected[k] == item
  {
    Lists.Includes(selected, item)
  }

  /** A toggle flips the item's own selection and no other entry's. */
  lemma ToggleFlipsOnlyItem(selected: seq<string>, item: string, other: string)
    requires other != item
    ensures IsSelected(HandleSelect(selected, item), item) == !IsSelected(selected, item)
    ensures IsSelected(HandleSelect(selected, item), other) == IsSelected(selected, other)
  {
    var r := HandleSelect(selected, item);
    if other in selected {
      var k :| 0 <= k < |selected| && selected[k] == other;
    }
    if other in r {
      var k :| 0 <= k < |r| && r[k] == other;
    }
  }

  /** Toggling an unselected item twice gives back exactly the original list. */
  lemma {:induction false} ToggleTwiceRestores(selected: seq<string>, item: string)
    requires item !in selected
    ensures HandleSelect(HandleSelect(selected, item), item) == selected
  {
    Lists.FilterConcat(selected, [item], Differs(item));
    assert Lists.Filter([item], Differs(item)) == [];
    assert Lists.Filter(selected, Differs(item)) == selected;
  }

  /**
   * Toggling a selected item twice does not restore the list: all its
   * occurrences are dropped and it comes back once, at the end.
   */
  lemma {:induction false} ToggleTwiceMovesToEnd(selected: seq<string>, item: string)
    requires item in selected
    ensures HandleSelect(HandleSelect(selected, item), item) == Lists.Filter(selected, Differs(item)) + [item]
  {
  }
}
