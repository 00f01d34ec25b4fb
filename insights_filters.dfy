/** The derived values of the insights view that feed the charts: the supplier and test option
    lists, the reconciled test selection and the working set of rows. Each is recomputed from
    its inputs alone, so each is a function. An empty selection means "All". */
module InsightsFilters {
  import opened Seqs
  import opened Text
  import opened CoaRows
  import opened MultiSelect

  function Values(options: seq<SelectOption>): (vs: seq<string>)
    ensures |vs| == |options|
    ensures forall i :: 0 <= i < |options| ==> vs[i] == options[i].value
  {
    seq(|options|, i requires 0 <= i < |options| => options[i].value)
  }

  /** `.map((s) => ({ label: s, value: s }))`. */
  function AsOptions(names: seq<string>): (r: seq<SelectOption>)
    ensures Values(r) == names
    ensures forall i :: 0 <= i < |r| ==> r[i].text == r[i].value
  {
    seq(|names|, i requires 0 <= i < |names| => SelectOption(names[i], names[i]))
  }

  function SupplierLabels(rows: seq<Row>): (r: seq<string>)
    ensures |r| == |rows| && forall i :: 0 <= i < |rows| ==> r[i] == Supplier(rows[i])
  {
    seq(|rows|, i requires 0 <= i < |rows| => Supplier(rows[i]))
  }

  function TestLabels(rows: seq<Row>): (r: seq<string>)
    ensures |r| == |rows| && forall i :: 0 <= i < |rows| ==> r[i] == Test(rows[i])
  {
    seq(|rows|, i requires 0 <= i < |rows| => Test(rows[i]))
  }

  /** `Array.from(new Set(labels)).sort()` as options. */
  function SortedDistinctOptions(labels: seq<string>): (r: seq<SelectOption>)
    ensures StrictlySorted(Values(r))
    ensures forall x :: x in Values(r) <==> x in labels
    ensures forall i :: 0 <= i < |r| ==> r[i].text == r[i].value
  {
    var distinct := Dedup(labels);
    SortDistinct(distinct);
    var sorted := Sort(distinct);
    assert forall x :: x in sorted <==> x in multiset(sorted);
    assert forall x :: x in distinct <==> x in multiset(distinct);
    AsOptions(sorted)
  }

  /** `supplierOptions`: every supplier label occurring in the data, once each, ascending. It
      reads only the rows, not the selection. */
  function SupplierOptions(allData: seq<Row>): (r: seq<SelectOption>)
    ensures StrictlySorted(Values(r))
    ensures forall s :: s in Values(r) <==> exists i :: 0 <= i < |allData| && Supplier(allData[i]) == s
    ensures forall i :: 0 <= i < |r| ==> r[i].text == r[i].value
  {
    var labels := SupplierLabels(allData);
    assert forall s :: s in labels <==> exists i :: 0 <= i < |allData| && labels[i] == s;
    SortedDistinctOptions(labels)
  }

  predicate SupplierSelected(selectedSuppliers: seq<string>, row: Row)
  {
    Supplier(row) in selectedSuppliers
  }

  /** The rows the test options are drawn from: all rows when no supplier is selected, else the
      rows of the selected suppliers. */
  function SupplierScope(allData: seq<Row>, selectedSuppliers: seq<string>): (r: seq<Row>)
    ensures forall row :: row in r <==> row in allData && (|selectedSuppliers| == 0 || SupplierSelected(selectedSuppliers, row))
  {
    if |selectedSuppliers| == 0 then allData
    else
      FilterMembers(allData, row => SupplierSelected(selectedSuppliers, row));
      Filter(allData, row => SupplierSelected(selectedSuppliers, row))
  }

  /** `testOptions`: the test labels of the rows in the supplier scope, once each, ascending. */
  function TestOptions(allData: seq<Row>, selectedSuppliers: seq<string>): (r: seq<SelectOption>)
    ensures StrictlySorted(Values(r))
    ensures forall t :: t in Values(r) <==>
      exists i :: 0 <= i < |allData| && Test(allData[i]) == t &&
                  (|selectedSuppliers| == 0 || SupplierSelected(selectedSuppliers, allData[i]))
    ensures forall i :: 0 <= i < |r| ==> r[i].text == r[i].value
  {
    var scope := SupplierScope(allData, selectedSuppliers);
    var labels := TestLabels(scope);
    assert forall t :: t in labels <==> exists i :: 0 <= i < |scope| && labels[i] == t;
    forall t | (exists i :: 0 <= i < |allData| && Test(allData[i]) == t &&
                  (|selectedSuppliers| == 0 || SupplierSelected(selectedSuppliers, allData[i])))
      ensures t in labels
    {
      var i :| 0 <= i < |allData| && Test(allData[i]) == t &&
               (|selectedSuppliers| == 0 || SupplierSelected(selectedSuppliers, allData[i]));
      assert allData[i] in scope;
      var j :| 0 <= j < |scope| && scope[j] == allData[i];
      assert labels[j] == t;
    }
    forall t | t in labels
      ensures exists i :: 0 <= i < |allData| && Test(allData[i]) == t &&
                (|selectedSuppliers| == 0 || SupplierSelected(selectedSuppliers, allData[i]))
    {
      var j :| 0 <= j < |scope| && labels[j] == t;
      assert scope[j] in allData;
      var i :| 0 <= i < |allData| && allData[i] == scope[j];
    }
    SortedDistinctOptions(labels)
  }

  /** `validSelectedTests`: the remembered test selection restricted, in order, to the tests on
      offer. The remembered selection itself is not changed. */
  function ValidSelectedTests(selectedTests: seq<string>, testOptions: seq<SelectOption>): (r: seq<string>)
    ensures IsSubsequence(r, selectedTests)
    ensures forall t :: t in r <==> t in selectedTests && t in Values(testOptions)
  {
    var p := (test: string) => test in Values(testOptions);
    FilterIsSubsequence(selectedTests, p);
    FilterMembers(selectedTests, p);
    Filter(selectedTests, p)
  }

  /** A row passes the filter when it satisfies both clauses; an empty list imposes nothing. */
  predicate RowMatches(selectedSuppliers: seq<string>, validSelectedTests: seq<string>, row: Row)
  {
    (|selectedSuppliers| == 0 || Supplier(row) in selectedSuppliers) &&
    (|validSelectedTests| == 0 || Test(row) in validSelectedTests)
  }

  /** `filteredData`, the working set shared by the three charts. */
  function FilteredData(allData: seq<Row>, selectedSuppliers: seq<string>, validSelectedTests: seq<string>): (r: seq<Row>)
    ensures IsSubsequence(r, allData)
    ensures forall row :: row in r <==> row in allData && RowMatches(selectedSuppliers, validSelectedTests, row)
    ensures |selectedSuppliers| == 0 && |validSelectedTests| == 0 ==> r == allData
  {
    var p := (row: Row) => RowMatches(selectedSuppliers, validSelectedTests, row);
    FilterIsSubsequence(allData, p);
    FilterMembers(allData, p);
    var r := Filter(allData, p);
    assert |selectedSuppliers| == 0 && |validSelectedTests| == 0 ==> r == allData by {
      if |selectedSuppliers| == 0 && |validSelectedTests| == 0 {
        FilterKeepsAll(allData, p);
      }
    }
    r
  }

  /** `supplierOptions` is the only strictly ascending list of the suppliers in the data, so the
      order in which the set was built cannot matter. */
  lemma {:induction false} SupplierOptionsUnique(allData: seq<Row>, names: seq<string>)
    requires StrictlySorted(names)
    requires forall s :: s in names <==> exists i :: 0 <= i < |allData| && Supplier(allData[i]) == s
    ensures Values(SupplierOptions(allData)) == names
  {
    StrictlySortedUnique(Values(SupplierOptions(allData)), names);
  }

  /** Every offered supplier, selected alone, leaves a non-empty working set: the options and
      the filter use the same labels. */
  lemma {:induction false} SupplierOptionSelectsRows(allData: seq<Row>, s: string)
    requires s in Values(SupplierOptions(allData))
    ensures FilteredData(allData, [s], []) != []
  {
    var i :| 0 <= i < |allData| && Supplier(allData[i]) == s;
    assert RowMatches([s], [], allData[i]);
  }

  /** A supplier selected alone keeps only its own rows. */
  lemma {:induction false} SupplierSelectionKeepsItsRows(allData: seq<Row>, s: string)
    ensures forall row :: row in FilteredData(allData, [s], []) ==> Supplier(row) == s
  {
  }

  /** Every offered test, selected alone under the current supplier selection, leaves a
      non-empty working set. */
  lemma {:induction false} TestOptionSelectsRows(allData: seq<Row>, selectedSuppliers: seq<string>, t: string)
    requires t in Values(TestOptions(allData, selectedSuppliers))
    ensures FilteredData(allData, selectedSuppliers, [t]) != []
  {
    var i :| 0 <= i < |allData| && Test(allData[i]) == t &&
             (|selectedSuppliers| == 0 || SupplierSelected(selectedSuppliers, allData[i]));
    assert RowMatches(selectedSuppliers, [t], allData[i]);
  }

  /** A test selected alone keeps only rows with that test. */
  lemma {:induction false} TestSelectionKeepsItsRows(allData: seq<Row>, selectedSuppliers: seq<string>, t: string)
    ensures forall row :: row in FilteredData(allData, selectedSuppliers, [t]) ==> Test(row) == t
  {
  }

  /** The test options depend on which suppliers are selected, not on their order or repetition. */
  lemma {:induction false} TestOptionsDependOnMembersOnly(allData: seq<Row>, a: seq<string>, b: seq<string>)
    requires forall x :: x in a <==> x in b
    ensures TestOptions(allData, a) == TestOptions(allData, b)
  {
    assert |a| == 0 <==> |b| == 0 by {
      if |a| != 0 { assert a[0] in a; }
      if |b| != 0 { assert b[0] in b; }
    }
    if |a| != 0 {
      FilterCongruent(allData, row => SupplierSelected(a, row), row => SupplierSelected(b, row));
    }
  }

  /** Likewise the working set. */
  lemma {:induction false} FilteredDataDependsOnMembersOnly(allData: seq<Row>, a: seq<string>, b: seq<string>, tests: seq<string>)
    requires forall x :: x in a <==> x in b
    ensures FilteredData(allData, a, tests) == FilteredData(allData, b, tests)
  {
    assert |a| == 0 <==> |b| == 0 by {
      if |a| != 0 { assert a[0] in a; }
      if |b| != 0 { assert b[0] in b; }
    }
    FilterCongruent(allData, row => RowMatches(a, tests, row), row => RowMatches(b, tests, row));
  }
}
