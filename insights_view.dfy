/** The filter state of the insights view and the two dropdowns wired to it. The state is the
    fetched rows and the two remembered selections; everything else is derived from it on
    every render. The supplier dropdown is given `selectedSuppliers` and writes its toggle back
    there; the test dropdown is given the reconciled `validSelectedTests` and writes its toggle
    of that list back into `selectedTests`. */
module InsightsView {
  import opened Seqs
  import opened CoaRows
  import opened MultiSelect
  import opened InsightsFilters

  datatype InsightsState = InsightsState(allData: seq<Row>, selectedSuppliers: seq<string>, selectedTests: seq<string>)

  /** The state before any click: both selections empty ("All"). */
  function Mount(allData: seq<Row>): InsightsState
  {
    InsightsState(allData, [], [])
  }

  function TestOpts(st: InsightsState): seq<SelectOption>
  {
    TestOptions(st.allData, st.selectedSuppliers)
  }

  /** `validSelectedTests` of the state. */
  function ValidTests(st: InsightsState): seq<string>
  {
    ValidSelectedTests(st.selectedTests, TestOpts(st))
  }

  /** `filteredData` of the state, the rows the charts are drawn from. */
  function WorkingSet(st: InsightsState): seq<Row>
  {
    FilteredData(st.allData, st.selectedSuppliers, ValidTests(st))
  }

  /** A click on `value` in the supplier dropdown. */
  function ClickSupplier(st: InsightsState, value: string): (r: InsightsState)
    ensures r.allData == st.allData && r.selectedTests == st.selectedTests
    ensures forall x :: x in r.selectedSuppliers <==> if x == value then x !in st.selectedSuppliers else x in st.selectedSuppliers
  {
    ToggleMembers(st.selectedSuppliers, value);
    st.(selectedSuppliers := Toggle(st.selectedSuppliers, value))
  }

  /** A click on `value` in the test dropdown: the toggle acts on the reconciled list, and its
      result replaces the remembered one. */
  function ClickTest(st: InsightsState, value: string): (r: InsightsState)
    ensures r.allData == st.allData && r.selectedSuppliers == st.selectedSuppliers
    ensures forall x :: x in r.selectedTests <==> if x == value then x !in ValidTests(st) else x in ValidTests(st)
  {
    ToggleMembers(ValidTests(st), value);
    st.(selectedTests := Toggle(ValidTests(st), value))
  }

  /** Before any click the charts see every row. */
  lemma {:induction false} MountShowsEverything(allData: seq<Row>)
    ensures ValidTests(Mount(allData)) == []
    ensures WorkingSet(Mount(allData)) == allData
  {
  }

  /** After a click in the test dropdown the remembered selection holds only tests that were in
      effect, plus the clicked one: a remembered test that was not on offer is forgotten. */
  lemma {:induction false} ClickTestKeepsOnlyEffective(st: InsightsState, value: string)
    ensures forall t :: t in ClickTest(st, value).selectedTests ==> t in ValidTests(st) || t == value
    ensures forall t :: t in ClickTest(st, value).selectedTests && t != value ==>
      t in st.selectedTests && t in Values(TestOpts(st))
    ensures value in ValidTests(st) <==> value !in ClickTest(st, value).selectedTests
  {
    var valid := ValidTests(st);
    var r := ClickTest(st, value).selectedTests;
    if value in valid {
      forall t | t in r ensures t in valid {
        assert multiset(r)[t] == multiset(valid)[t];
      }
    }
  }

  /** Clicking an offered test leaves no stale entry: the remembered selection is then exactly
      the selection in effect. */
  lemma {:induction false} ClickOfferedTestIsEffective(st: InsightsState, value: string)
    requires value in Values(TestOpts(st))
    ensures ValidTests(ClickTest(st, value)) == ClickTest(st, value).selectedTests
  {
    var st' := ClickTest(st, value);
    ClickTestKeepsOnlyEffective(st, value);
    assert TestOpts(st') == TestOpts(st);
    FilterKeepsAll(st'.selectedTests, (test: string) => test in Values(TestOpts(st')));
  }

  /** Clicking a supplier twice gives back the same options, the same tests in effect and the
      same working set: the remembered test selection is untouched by supplier clicks. */
  lemma {:induction false} SupplierRoundTrip(st: InsightsState, value: string)
    ensures ClickSupplier(ClickSupplier(st, value), value).selectedTests == st.selectedTests
    ensures TestOpts(ClickSupplier(ClickSupplier(st, value), value)) == TestOpts(st)
    ensures ValidTests(ClickSupplier(ClickSupplier(st, value), value)) == ValidTests(st)
    ensures WorkingSet(ClickSupplier(ClickSupplier(st, value), value)) == WorkingSet(st)
  {
    var st' := ClickSupplier(ClickSupplier(st, value), value);
    ToggleTwiceSameMembers(st.selectedSuppliers, value);
    TestOptionsDependOnMembersOnly(st.allData, st'.selectedSuppliers, st.selectedSuppliers);
    FilteredDataDependsOnMembersOnly(st.allData, st'.selectedSuppliers, st.selectedSuppliers, ValidTests(st));
  }

  /** The state after the supplier dropdown has been clicked on each value of `clicks` in turn. */
  function ClickSuppliers(st: InsightsState, clicks: seq<string>): InsightsState
    decreases |clicks|
  {
    if clicks == [] then st else ClickSuppliers(ClickSupplier(st, clicks[0]), clicks[1..])
  }

  /** Supplier clicks change the supplier selection only. */
  lemma {:induction false} ClickSuppliersKeepsTests(st: InsightsState, clicks: seq<string>)
    ensures ClickSuppliers(st, clicks).allData == st.allData
    ensures ClickSuppliers(st, clicks).selectedTests == st.selectedTests
    decreases |clicks|
  {
    if clicks != [] {
      ClickSuppliersKeepsTests(ClickSupplier(st, clicks[0]), clicks[1..]);
    }
  }

  /** Any sequence of supplier clicks that ends on the same suppliers as it started from, in
      whatever order, brings back every remembered test that is on offer again and the same
      working set, since no test was clicked in between. */
  lemma {:induction false} IntentSurvivesSupplierChanges(st: InsightsState, clicks: seq<string>)
    requires forall x :: x in ClickSuppliers(st, clicks).selectedSuppliers <==> x in st.selectedSuppliers
    ensures ClickSuppliers(st, clicks).selectedTests == st.selectedTests
    ensures ValidTests(ClickSuppliers(st, clicks)) == ValidTests(st)
    ensures WorkingSet(ClickSuppliers(st, clicks)) == WorkingSet(st)
  {
    var back := ClickSuppliers(st, clicks);
    ClickSuppliersKeepsTests(st, clicks);
    assert back == st.(selectedSuppliers := back.selectedSuppliers);
    TestOptionsDependOnMembersOnly(st.allData, back.selectedSuppliers, st.selectedSuppliers);
    FilteredDataDependsOnMembersOnly(st.allData, back.selectedSuppliers, st.selectedSuppliers, ValidTests(st));
  }

  /** With a single test in effect the test dropdown always has a label to show: the test in
      effect is one of the options. */
  lemma {:induction false} TestLabelAlwaysFound(st: InsightsState)
    requires |ValidTests(st)| == 1
    ensures DisplayLabel(TestOpts(st), ValidTests(st), "Test").Some?
  {
    assert ValidTests(st)[0] in ValidTests(st);
    var k :| 0 <= k < |TestOpts(st)| && Values(TestOpts(st))[k] == ValidTests(st)[0];
  }

  /** Two suppliers with one test each, both selected, test T2 remembered. */
  const RowA: Row := Row("1", Some("A"), None, Some("T1"), Some(Pass), None)
  const RowB: Row := Row("2", Some("B"), None, Some("T2"), Some(Fail), None)
  const Scenario: InsightsState := InsightsState([RowA, RowB], ["A", "B"], ["T2"])

  /** Deselecting B hides T2. */
  lemma {:induction false} DeselectingHides()
    ensures ClickSupplier(Scenario, "B").selectedSuppliers == ["A"]
    ensures ValidTests(ClickSupplier(Scenario, "B")) == []
  {
    var hidden := ClickSupplier(Scenario, "B");
    assert hidden.selectedSuppliers == ["A"];
    assert Supplier(RowA) == "A" && Supplier(RowB) == "B" && Test(RowA) == "T1";
    assert "T2" !in Values(TestOpts(hidden));
    if ValidTests(hidden) != [] {
      assert ValidTests(hidden)[0] in ValidTests(hidden);
    }
  }

  /** Selecting B again, whatever the remembered tests, offers T2 again. */
  lemma {:induction false} ReselectingOffers(st: InsightsState)
    requires st.allData == [RowA, RowB] && st.selectedSuppliers == ["A"]
    ensures ClickSupplier(st, "B").selectedSuppliers == ["A", "B"]
    ensures "T2" in Values(TestOpts(ClickSupplier(st, "B")))
  {
    var back := ClickSupplier(st, "B");
    assert back.selectedSuppliers == ["A", "B"];
    assert SupplierSelected(back.selectedSuppliers, back.allData[1]) && Test(back.allData[1]) == "T2";
  }

  /** In the scenario above, deselecting supplier B hides T2 and selecting B again brings it
      back, since supplier clicks leave the remembered tests alone. */
  lemma {:induction false} ReselectingRestoresHiddenTests()
    ensures "T2" !in ValidTests(ClickSupplier(Scenario, "B"))
    ensures "T2" in ValidTests(ClickSupplier(ClickSupplier(Scenario, "B"), "B"))
  {
    DeselectingHides();
    ReselectingOffers(ClickSupplier(Scenario, "B"));
  }

  /** But a click on test T1 while B is deselected rewrites the remembered selection from the
      reconciled (empty) list, so T2 is gone for good when B is selected again. */
  lemma {:induction false} ClickingATestForgetsHiddenTests()
    ensures "T2" !in ClickSupplier(ClickTest(ClickSupplier(Scenario, "B"), "T1"), "B").selectedTests
    ensures "T2" !in ValidTests(ClickSupplier(ClickTest(ClickSupplier(Scenario, "B"), "T1"), "B"))
  {
    var hidden := ClickSupplier(Scenario, "B");
    DeselectingHides();
    var clicked := ClickTest(hidden, "T1");
    assert clicked.selectedTests == ["T1"];
  }
}
