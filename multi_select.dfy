/** The multi-select dropdown used for both filters: clicking an option toggles its value in
    the selection it was given and hands the new list to its `onChange` callback; the trigger
    button shows a summary of the selection. */
module MultiSelect {
  import opened Seqs
  import opened Text

  /** `{ label, value }`; `label` is a reserved word in Dafny, so the label is called `text`. */
  datatype SelectOption = SelectOption(text: string, value: string)

  /** `handleSelect(value)`: a selected value is removed (every occurrence), any other value is
      appended; the given list itself is never changed. */
  function Toggle(selected: seq<string>, value: string): (r: seq<string>)
    ensures value in selected ==> value !in r && IsSubsequence(r, selected)
    ensures value in selected ==> forall x :: x != value ==> multiset(r)[x] == multiset(selected)[x]
    ensures value !in selected ==> r == selected + [value]
  {
    if value in selected then
      var p := (item: string) => item != value;
      FilterIsSubsequence(selected, p);
      FilterMembers(selected, p);
      RemoveKeepsOthers(selected, value);
      Filter(selected, p)
    else selected + [value]
  }

  lemma {:induction false} RemoveKeepsOthers(selected: seq<string>, value: string)
    ensures forall x :: x != value ==>
      multiset(Filter(selected, (item: string) => item != value))[x] == multiset(selected)[x]
  {
    forall x | x != value
      ensures multiset(Filter(selected, (item: string) => item != value))[x] == multiset(selected)[x]
    {
      FilterMultiplicity(selected, (item: string) => item != value, x);
    }
  }

  /** A click flips the clicked value's membership and leaves every other value's alone. */
  lemma {:induction false} ToggleMembers(selected: seq<string>, value: string)
    ensures forall x :: x in Toggle(selected, value) <==> if x == value then x !in selected else x in selected
  {
    var r := Toggle(selected, value);
    forall x | x != value
      ensures x in r <==> x in selected
    {
      if value in selected {
        assert multiset(r)[x] == multiset(selected)[x];
      }
    }
  }

  /** Clicking an unselected option twice gives back the original selection. */
  lemma {:induction false} ToggleTwiceRestores(selected: seq<string>, value: string)
    requires value !in selected
    ensures Toggle(Toggle(selected, value), value) == selected
  {
    var p := (item: string) => item != value;
    FilterAppend(selected, [value], p);
    FilterKeepsAll(selected, p);
    assert Filter([value], p) == [];
  }

  /** Clicking the same option twice never changes which values are selected. */
  lemma {:induction false} ToggleTwiceSameMembers(selected: seq<string>, value: string)
    ensures forall x :: x in Toggle(Toggle(selected, value), value) <==> x in selected
  {
    if value !in selected {
      ToggleTwiceRestores(selected, value);
    } else {
      FilterMembers(selected, (item: string) => item != value);
    }
  }

  /** `options.find((opt) => opt.value === v)`: the first option with that value. */
  function Find(options: seq<SelectOption>, v: string): (r: Option<SelectOption>)
    ensures r.None? <==> forall i :: 0 <= i < |options| ==> options[i].value != v
    ensures r.Some? ==> exists i :: 0 <= i < |options| && options[i] == r.value && r.value.value == v &&
                                    forall j :: 0 <= j < i ==> options[j].value != v
  {
    if options == [] then None
    else if options[0].value == v then Some(options[0])
    else
      var r := Find(options[1..], v);
      assert r.Some? ==> exists i :: 1 <= i < |options| && options[i] == r.value && r.value.value == v &&
                                      forall j :: 0 <= j < i ==> options[j].value != v by {
        if r.Some? {
          var i :| 0 <= i < |options[1..]| && options[1..][i] == r.value && r.value.value == v &&
                   forall j :: 0 <= j < i ==> options[1..][j].value != v;
          assert options[i + 1] == r.value;
          assert forall j :: 0 <= j < i + 1 ==> options[j].value != v by {
            forall j | 0 <= j < i + 1 ensures options[j].value != v {
              if j > 0 { assert options[j] == options[1..][j - 1]; }
            }
          }
        }
      }
      r
  }

  /** The trigger text: `All <label>s` for an empty selection, the label of the single selected
      option (nothing when no option carries that value), or `<n> <label>s selected`. */
  function DisplayLabel(options: seq<SelectOption>, selected: seq<string>, triggerLabel: string): (r: Option<string>)
    ensures |selected| == 0 ==> r == Some("All " + triggerLabel + "s")
    ensures |selected| == 1 ==> (r.Some? <==> exists i :: 0 <= i < |options| && options[i].value == selected[0])
    ensures |selected| == 1 && r.Some? ==>
      exists i :: 0 <= i < |options| && options[i].value == selected[0] && r.value == options[i].text &&
                  forall j :: 0 <= j < i ==> options[j].value != selected[0]
    ensures |selected| >= 2 ==> r.Some? && r.value == NatToDecimal(|selected|) + " " + triggerLabel + "s selected"
  {
    if |selected| == 0 then Some("All " + triggerLabel + "s")
    else if |selected| == 1 then
      match Find(options, selected[0])
      case Some(opt) => Some(opt.text)
      case None => None
    else Some(NatToDecimal(|selected|) + " " + triggerLabel + "s selected")
  }
}
