/**
 * Editor utilities: wildcard filtering with an index map back into the
 * unfiltered list and the selection bookkeeping built on it
 * (EditorsUtils.FilterElements, TextEditor.ListWithFilter), the list-edit
 * arithmetic of ListEditor.Edit, and EnumEditor's "modified" flag.
 *
 * The regular-expression match built from a wildcard filter is host library
 * code, so it is the parameter `matches(filter, value)`. ImGui widgets are
 * oracles: a button press is a boolean, a list-box click an optional index,
 * a combo box the index it leaves selected. The `ref`/`out` parameters of the
 * C# methods are the fields of the returned value.
 */
module Editors {
  import opened Wrappers

  /** The filtered elements and, for each, its index in the unfiltered list. */
  datatype Filtered = Filtered(filtered: seq<string>, indexes: seq<int>)

  /** The `ref index` / `selection` pair after a filter, and the returned "changed" flag. */
  datatype Selection = Selection(index: int, selection: int, changed: bool)

  predicate StrictlyIncreasing(s: seq<int>) {
    forall i, j :: 0 <= i < j < |s| ==> s[i] < s[j]
  }

  /** 0, 1, ..., n - 1. */
  function Range(n: nat): (r: seq<int>)
    ensures |r| == n
    ensures forall i :: 0 <= i < n ==> r[i] == i
  {
    if n == 0 then [] else Range(n - 1) + [n - 1]
  }

  /** The indexes, from `from` on, of the elements the filter keeps, in order. */
  function KeptIndexes(filter: string, elements: seq<string>, matches: (string, string) -> bool, from: nat): (r: seq<int>)
    ensures forall k :: 0 <= k < |r| ==> from <= r[k] < |elements|
    ensures StrictlyIncreasing(r)
    ensures forall i :: from <= i < |elements| ==> (i in r <==> matches(filter, elements[i]))
    decreases |elements| - from
  {
    if from >= |elements| then []
    else if matches(filter, elements[from]) then [from] + KeptIndexes(filter, elements, matches, from + 1)
    else KeptIndexes(filter, elements, matches, from + 1)
  }

  /**
   * FilterElements(filter, elements, out filtered, out indexes): the empty
   * filter keeps everything; otherwise exactly the matching elements, in their
   * original order, each with its original index.
   */
  function FilterElements(filter: string, elements: seq<string>, matches: (string, string) -> bool): (r: Filtered)
    ensures |r.filtered| == |r.indexes|
    ensures filter == "" ==> r.filtered == elements && r.indexes == Range(|elements|)
    ensures StrictlyIncreasing(r.indexes)
    ensures forall k :: 0 <= k < |r.indexes| ==> 0 <= r.indexes[k] < |elements| && r.filtered[k] == elements[r.indexes[k]]
    ensures filter != "" ==> forall i :: 0 <= i < |elements| ==> (i in r.indexes <==> matches(filter, elements[i]))
  {
    if filter == "" then Filtered(elements, Range(|elements|))
    else
      var indexes := KeptIndexes(filter, elements, matches, 0);
      Filtered(seq(|indexes|, k requires 0 <= k < |indexes| => elements[indexes[k]]), indexes)
  }

  /** Every position of a strictly increasing sequence of non-negative numbers is at most its entry. */
  lemma {:induction false} PositionAtMostEntry(s: seq<int>, k: int)
    requires StrictlyIncreasing(s) && forall i :: 0 <= i < |s| ==> 0 <= s[i]
    requires 0 <= k < |s|
    ensures k <= s[k]
  {
    if k > 0 {
      PositionAtMostEntry(s, k - 1);
    }
  }

  /**
   * `Match(filter, params values)`: true as soon as one value matches,
   * false when none does.
   */
  method MatchAny(filter: string, values: seq<string>, matches: (string, string) -> bool) returns (b: bool)
    ensures b <==> exists i :: 0 <= i < |values| && matches(filter, values[i])
  {
    var i := 0;
    while i < |values|
      invariant 0 <= i <= |values|
      invariant forall j :: 0 <= j < i ==> !matches(filter, values[j])
    {
      if matches(filter, values[i]) {
        return true;
      }
      i := i + 1;
    }
    return false;
  }

  /**
   * FilterElements(..., ref index, out selection) of VSImGui/source/Utils and
   * VSImGui_DebugTools, as written: an index the filter dropped resets both to
   * 0; a kept index becomes the selection itself, and the index is replaced by
   * `indexes[index]` (ElementAt throws when that position does not exist).
   */
  function SelectByIndex(indexes: seq<int>, index: int): (r: Result<Selection>)
    ensures index !in indexes ==> r == Ok(Selection(0, 0, true))
    ensures index in indexes && !(0 <= index < |indexes|) ==> r == Err(IndexOutOfRange)
    ensures index in indexes && 0 <= index < |indexes| ==>
      r.Ok? && r.value.selection == index && r.value.index == indexes[index] && r.value.changed == (indexes[index] != index)
  {
    if index !in indexes then Ok(Selection(0, 0, true))
    else if !(0 <= index < |indexes|) then Err(IndexOutOfRange)
    else Ok(Selection(indexes[index], index, indexes[index] != index))
  }

  /**
   * On the output of FilterElements the as-written selection only ever moves
   * the index forward, and leaves it alone exactly when the filter kept every
   * element before it.
   */
  lemma SelectByIndexMovesForward(filter: string, elements: seq<string>, matches: (string, string) -> bool, index: int)
    requires var ix := FilterElements(filter, elements, matches).indexes; index in ix && index < |ix|
    ensures var r := SelectByIndex(FilterElements(filter, elements, matches).indexes, index);
      r.Ok? && index <= r.value.index && (r.value.changed <==> r.value.index != index)
  {
    var ix := FilterElements(filter, elements, matches).indexes;
    var k :| 0 <= k < |ix| && ix[k] == index;
    assert 0 <= ix[k];
    PositionAtMostEntry(ix, index);
  }

  /**
   * FilterElements(..., ref index, ref selection) of VSImGui/src/Utils, as
   * written: the index is kept, and the selection becomes the index itself.
   */
  function SelectKeepIndex(indexes: seq<int>, index: int, selection: int): (r: Selection)
    ensures index !in indexes ==> r == Selection(0, 0, true)
    ensures index in indexes ==> r.index == index && r.selection == index && r.changed == (selection != index)
  {
    if index !in indexes then Selection(0, 0, true)
    else if selection != index then Selection(index, index, true)
    else Selection(index, selection, false)
  }

  /** The position of `index` in `indexes`: where Where/FirstOrDefault finds it. */
  function PositionOf(indexes: seq<int>, index: int): (k: int)
    requires index in indexes
    ensures 0 <= k < |indexes| && indexes[k] == index
    ensures forall j :: 0 <= j < k ==> indexes[j] != index
  {
    if indexes[0] == index then 0 else 1 + PositionOf(indexes[1..], index)
  }

  /**
   * The selection bookkeeping as evidently intended: a kept index stays, and
   * the selection is its position in the filtered list, so the filtered list
   * shows the same element the index names.
   */
  function SelectCorrected(indexes: seq<int>, index: int, selection: int): (r: Selection)
    ensures index !in indexes ==> r == Selection(0, 0, true)
    ensures index in indexes ==>
      && r.index == index
      && 0 <= r.selection < |indexes| && indexes[r.selection] == index
      && r.changed == (r.selection != selection)
  {
    if index !in indexes then Selection(0, 0, true)
    else
      var k := PositionOf(indexes, index);
      Selection(index, k, k != selection)
  }

  /**
   * The as-written selection of VSImGui/source/Utils names another element or
   * throws: dropping "a" from ["a", "b"] and selecting "b" (index 1) throws,
   * and dropping "a" from ["a", "b", "c"] moves a selected "b" to "c".
   */
  lemma SelectByIndexCounterexample()
    ensures FilterElements("b", ["a", "b"], (f: string, v: string) => v == f).indexes == [1]
    ensures SelectByIndex([1], 1) == Err(IndexOutOfRange)
    ensures SelectByIndex([1, 2], 1) == Ok(Selection(2, 1, true))
    ensures SelectCorrected([1], 1, 0) == Selection(1, 0, false)
    ensures SelectCorrected([1, 2], 1, 0) == Selection(1, 0, false)
  {
    var m := (f: string, v: string) => v == f;
    var es := ["a", "b"];
    assert KeptIndexes("b", es, m, 2) == [];
    assert KeptIndexes("b", es, m, 1) == [1];
    assert KeptIndexes("b", es, m, 0) == [1];
  }

  /**
   * TextEditor.ListWithFilter as written: filter, keep the index, let the list
   * box change the selection (`clicked`), and read the value through the
   * selection. With nothing kept, the read throws.
   */
  function ListWithFilter(filter: string, elements: seq<string>, matches: (string, string) -> bool, index: int, clicked: Option<int>): (r: Result<(int, string)>)
    ensures var f := FilterElements(filter, elements, matches);
      var sel := if clicked.Some? then clicked.value else SelectKeepIndex(f.indexes, index, index).selection;
      && (r.Ok? <==> 0 <= sel < |f.indexes|)
      && (r.Ok? ==> r.value.0 == SelectKeepIndex(f.indexes, index, index).index)
      && (r.Ok? ==> r.value.1 == elements[f.indexes[sel]])
      && (r.Err? ==> r.error == IndexOutOfRange)
  {
    var f := FilterElements(filter, elements, matches);
    var s := SelectKeepIndex(f.indexes, index, index);
    var sel := if clicked.Some? then clicked.value else s.selection;
    if 0 <= sel < |f.indexes| then Ok((s.index, elements[f.indexes[sel]])) else Err(IndexOutOfRange)
  }

  /** ListWithFilter over the corrected selection: without a click, a kept index reads its own element. */
  function ListWithFilterCorrected(filter: string, elements: seq<string>, matches: (string, string) -> bool, index: int, clicked: Option<int>): (r: Result<(int, string)>)
    ensures var f := FilterElements(filter, elements, matches);
      clicked.None? && index in f.indexes ==> r == Ok((index, elements[index]))
  {
    var f := FilterElements(filter, elements, matches);
    var s := SelectCorrected(f.indexes, index, index);
    var sel := if clicked.Some? then clicked.value else s.selection;
    if 0 <= sel < |f.indexes| then Ok((s.index, elements[f.indexes[sel]])) else Err(IndexOutOfRange)
  }

  /** With "a" filtered out of ["a", "b", "c"], the as-written list reads "c" for a selected "b"; the corrected one reads "b". */
  lemma ListWithFilterCounterexample()
    ensures ListWithFilter("x", ["a", "b", "c"], (f: string, v: string) => v != "a", 1, None) == Ok((1, "c"))
    ensures ListWithFilterCorrected("x", ["a", "b", "c"], (f: string, v: string) => v != "a", 1, None) == Ok((1, "b"))
  {
    var m := (f: string, v: string) => v != "a";
    var es := ["a", "b", "c"];
    assert KeptIndexes("x", es, m, 3) == [];
    assert KeptIndexes("x", es, m, 2) == [2];
    assert KeptIndexes("x", es, m, 1) == [1, 2];
    assert KeptIndexes("x", es, m, 0) == [1, 2];
    assert PositionOf([1, 2], 1) == 0;
  }

  /** The edited list, the clamped selection, and the element handed to the remove callback, if any. */
  datatype EditOutcome = EditOutcome(list: seq<string>, selected: int, removed: Option<(string, int)>)

  function Max(a: int, b: int): int { if a < b then b else a }

  /** A selection past the end moves to the last element (or 0 for an empty list); others stay. */
  function ClampSelected(selected: int, n: nat): (s: int)
    ensures selected < n ==> s == selected
    ensures selected >= n ==> s == Max(0, n - 1)
  {
    if selected >= n then Max(0, n - 1) else selected
  }

  /**
   * The elements at positions up to `selected`, then `x`, then the rest:
   * the new value lands right after the selected one (at the front when the
   * selection is negative).
   */
  function InsertAfter(list: seq<string>, selected: int, x: string): (r: seq<string>)
    ensures var at := if selected < 0 then 0 else if selected < |list| then selected + 1 else |list|;
      && |r| == |list| + 1
      && r[..at] == list[..at] && r[at] == x && r[at + 1..] == list[at..]
  {
    var at := if selected < 0 then 0 else if selected < |list| then selected + 1 else |list|;
    list[..at] + [x] + list[at..]
  }

  /** The list without the element at position `i`. */
  function RemoveEntry(list: seq<string>, i: int): (r: seq<string>)
    requires 0 <= i < |list|
    ensures |r| == |list| - 1
    ensures r[..i] == list[..i] && r[i..] == list[i + 1..]
  {
    list[..i] + list[i + 1..]
  }

  /** Removing the element just inserted gives back the list. */
  lemma RemoveUndoesInsert(list: seq<string>, selected: int, x: string)
    requires 0 <= selected < |list|
    ensures RemoveEntry(InsertAfter(list, selected, x), selected + 1) == list
  {
    var r := InsertAfter(list, selected, x);
    assert RemoveEntry(r, selected + 1) == r[..selected + 1] + r[selected + 2..];
    assert list == list[..selected + 1] + list[selected + 1..];
  }

  /**
   * The list after the Add button: unchanged when it was not pressed;
   * otherwise the callback's value, or a copy of the selected element when
   * there is no callback or it returns null (`added == None`), appended or
   * inserted right after the selection.
   */
  function AfterAdd(list: seq<string>, s: int, addPressed: bool, added: Option<string>, appendToEnd: bool): (r: seq<string>)
    requires addPressed && added.None? ==> 0 <= s < |list|
    ensures !addPressed ==> r == list
    ensures addPressed ==> var x := if added.Some? then added.value else list[s];
      && |r| == |list| + 1
      && multiset(r) == multiset(list) + multiset{x}
      && (appendToEnd ==> r[..|list|] == list && r[|list|] == x)
  {
    if !addPressed then list
    else
      var x := if added.Some? then added.value else list[s];
      if appendToEnd then list + [x]
      else
        var at := if s < 0 then 0 else if s < |list| then s + 1 else |list|;
        assert list == list[..at] + list[at..];
        InsertAfter(list, s, x)
  }

  /** ImGui.ListBox: a click on a displayed item selects it; without one the selection stays. */
  function ListBoxSelect(selected: int, n: nat, clicked: Option<int>): (s: int)
    ensures clicked.Some? && 0 <= clicked.value < n ==> s == clicked.value
    ensures !(clicked.Some? && 0 <= clicked.value < n) ==> s == selected
  {
    if clicked.Some? && 0 <= clicked.value < n then clicked.value else selected
  }

  /**
   * ListEditor.Edit with `ref list` (VSImGui/source/Utils): clamp the
   * selection; on Add, extend the list as AfterAdd says; on Remove, enabled
   * only for a non-empty list, hand the selected element and its position to
   * the callback and drop it; clamp again; finally the list box may select
   * the item the user clicked (`clicked`). Indexing outside the list throws.
   */
  function Edit(list: seq<string>, selected: int, addPressed: bool, removePressed: bool, added: Option<string>, appendToEnd: bool, clicked: Option<int>): (r: Result<EditOutcome>)
    ensures var s := ClampSelected(selected, |list|);
      && (addPressed && added.None? && !(0 <= s < |list|) ==> r == Err(IndexOutOfRange))
      && (!(addPressed && added.None?) || 0 <= s < |list| ==>
           var a := AfterAdd(list, s, addPressed, added, appendToEnd);
           && (removePressed && a != [] && !(0 <= s < |a|) ==> r == Err(IndexOutOfRange))
           && (removePressed && a != [] && 0 <= s < |a| ==>
                r.Ok? && r.value.list == RemoveEntry(a, s) && r.value.removed == Some((a[s], s)))
           && (!removePressed || a == [] ==> r.Ok? && r.value.list == a && r.value.removed.None?))
      && (r.Ok? ==> r.value.selected == ListBoxSelect(ClampSelected(s, |r.value.list|), |r.value.list|, clicked))
  {
    var s := ClampSelected(selected, |list|);
    if addPressed && added.None? && !(0 <= s < |list|) then Err(IndexOutOfRange)
    else
      var afterAdd := AfterAdd(list, s, addPressed, added, appendToEnd);
      if removePressed && afterAdd != [] then
        if 0 <= s < |afterAdd| then
          var rest := RemoveEntry(afterAdd, s);
          Ok(EditOutcome(rest, ListBoxSelect(ClampSelected(s, |rest|), |rest|, clicked), Some((afterAdd[s], s))))
        else Err(IndexOutOfRange)
      else Ok(EditOutcome(afterAdd, ListBoxSelect(ClampSelected(s, |afterAdd|), |afterAdd|, clicked), None))
  }

  /**
   * From a non-negative selection, Edit fails only when Add copies the
   * selected element of an empty list, and the selection comes out inside the
   * edited list, or 0 for an empty one.
   */
  lemma EditKeepsSelectionInRange(list: seq<string>, selected: int, addPressed: bool, removePressed: bool, added: Option<string>, appendToEnd: bool, clicked: Option<int>)
    requires 0 <= selected
    ensures var r := Edit(list, selected, addPressed, removePressed, added, appendToEnd, clicked);
      && (r.Err? <==> addPressed && added.None? && list == [])
      && (r.Ok? ==> 0 <= r.value.selected && (r.value.selected < |r.value.list| || (r.value.list == [] && r.value.selected == 0)))
  {
  }

  /** Remove drops exactly the selected element, which the callback receives with its position. */
  lemma EditRemoveDropsSelected(list: seq<string>, selected: int)
    requires 0 <= selected < |list|
    ensures Edit(list, selected, false, true, None, false, None) ==
      Ok(EditOutcome(RemoveEntry(list, selected), ClampSelected(selected, |list| - 1), Some((list[selected], selected))))
  {
  }

  /**
   * ListEditor.Edit with a by-value list (VSImGui/source/Utils, which always
   * appends, and VSImGui_DebugTools, which honours `appendToEnd`): the
   * caller's list is never changed, so what comes back is the selection and
   * the (value, index) pair handed to the remove callback.
   */
  function EditDetached(list: seq<string>, selected: int, addPressed: bool, removePressed: bool, added: string, appendToEnd: bool, clicked: Option<int>): (r: Result<(int, Option<(string, int)>)>)
    ensures var e := Edit(list, selected, addPressed, removePressed, Some(added), appendToEnd, clicked);
      && (r.Ok? <==> e.Ok?)
      && (r.Ok? ==> r.value.0 == e.value.selected && r.value.1 == e.value.removed)
  {
    match Edit(list, selected, addPressed, removePressed, Some(added), appendToEnd, clicked)
    case Ok(e) => Ok((e.selected, e.removed))
    case Err(err) => Err(err)
  }

  /**
   * EnumEditor.Combo(..., ref bool modified) of VSImGui/source/Utils: raise the
   * flag when the combo box picked another index, never clear it.
   */
  function ComboModified(oldIndex: int, newIndex: int, modified: bool): (m: bool)
    ensures m <==> modified || newIndex != oldIndex
  {
    if newIndex != oldIndex then true else modified
  }

  /** EnumEditor.Combo(..., ref bool modified) of VSImGui_DebugTools and VSImGui/src/Utils, as written. */
  function ComboModifiedInverted(oldIndex: int, newIndex: int, modified: bool): (m: bool)
    ensures m <==> newIndex == oldIndex
  {
    newIndex == oldIndex
  }

  /**
   * `bool Combo(ref value)` starts from `modified = false`: the corrected flag
   * reports a change exactly when there was one, the as-written one exactly
   * when there was none.
   */
  lemma ComboModifiedCounterexample(oldIndex: int, newIndex: int)
    ensures ComboModified(oldIndex, newIndex, false) <==> newIndex != oldIndex
    ensures ComboModifiedInverted(oldIndex, newIndex, false) <==> !ComboModified(oldIndex, newIndex, false)
  {
  }
}
