/**
 * The table picker: clicking a table's card toggles it in the list of
 * selected table names, which the component hands to its callback.
 */
module TableSelection {

  /** `selected.filter(t => t !== name)`. */
  function Without(selected: seq<string>, name: string): (r: seq<string>)
    ensures forall t :: t in r <==> t in selected && t != name
    ensures multiset(r) == multiset(selected)[name := 0]
    decreases |selected|
  {
    if selected == [] then []
    else
      var rest := Without(selected[1..], name);
      assert selected == [selected[0]] + selected[1..];
      if selected[0] == name then rest else [selected[0]] + rest
  }

  /** The new selection after a click on `name`: a selected table is removed
      (every copy of it), any other is appended at the end. */
  function HandleTableClick(selected: seq<string>, name: string): (r: seq<string>)
    ensures name in r <==> name !in selected
    ensures forall t :: t != name ==> (t in r <==> t in selected)
    ensures name !in selected ==> r == selected + [name]
    ensures name in selected ==> multiset(r) == multiset(selected)[name := 0]
  {
    if name in selected then Without(selected, name) else selected + [name]
  }

  lemma {:induction false} WithoutAbsent(selected: seq<string>, name: string)
    requires name !in selected
    ensures Without(selected, name) == selected
    decreases |selected|
  {
    if selected != [] {
      WithoutAbsent(selected[1..], name);
    }
  }

  /** Removal works piece by piece, so the remaining tables keep their order. */
  lemma {:induction false} WithoutAppend(a: seq<string>, b: seq<string>, name: string)
    ensures Without(a + b, name) == Without(a, name) + Without(b, name)
    decreases |a|
  {
    if a == [] {
      assert a + b == b;
    } else {
      assert (a + b)[0] == a[0];
      assert (a + b)[1..] == a[1..] + b;
      WithoutAppend(a[1..], b, name);
    }
  }

  /** Picking an unselected table and clicking it again restores the selection. */
  lemma ClickTwiceRestores(selected: seq<string>, name: string)
    requires name !in selected
    ensures HandleTableClick(HandleTableClick(selected, name), name) == selected
  {
    WithoutAppend(selected, [name], name);
    WithoutAbsent(selected, name);
  }

  /** Clicking a selected table twice moves it to the end of the selection:
      the other tables keep their order and it follows them, once. */
  lemma ClickTwiceMovesToEnd(selected: seq<string>, name: string)
    requires name in selected
    ensures HandleTableClick(HandleTableClick(selected, name), name) == Without(selected, name) + [name]
    ensures multiset(HandleTableClick(HandleTableClick(selected, name), name))[name] == 1
  {
  }
}
