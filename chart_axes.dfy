/** The y-axis bounds of the two bar charts: the largest bar, found with a `reduce` that starts
    from 0 and keeps the larger of the running maximum and the next bar. With no bars the bound
    is 0. */
module ChartAxes {
  import opened Seqs
  import opened CoaRows
  import SC = SupplierChart
  import PC = ProductChart

  function Max(a: nat, b: nat): nat
  {
    if a >= b then a else b
  }

  /** `maxFailures`: the tallest supplier bar, or 0 without bars. */
  function MaxFailures(s: seq<SC.SupplierFailures>): (r: nat)
    ensures forall e :: e in s ==> e.failures <= r
    ensures s == [] ==> r == 0
    ensures s != [] ==> exists e :: e in s && e.failures == r
    decreases |s|
  {
    if s == [] then 0
    else
      var last := s[|s| - 1];
      assert s == s[..|s| - 1] + [last];
      Max(MaxFailures(s[..|s| - 1]), last.failures)
  }

  /** `maxResults`: the tallest product bar (pass + fail + unknown), or 0 without bars. */
  function MaxResults(s: seq<PC.ProductResults>): (r: nat)
    ensures forall e :: e in s ==> PC.Height(e) <= r
    ensures s == [] ==> r == 0
    ensures s != [] ==> exists e :: e in s && PC.Height(e) == r
    decreases |s|
  {
    if s == [] then 0
    else
      var last := s[|s| - 1];
      assert s == s[..|s| - 1] + [last];
      Max(MaxResults(s[..|s| - 1]), PC.Height(last))
  }

  /** The bars are sorted largest first, so the bound is the first bar. */
  lemma {:induction false} MaxFailuresIsFirstBar(data: seq<Row>)
    requires SC.FailuresBySupplier(data) != []
    ensures MaxFailures(SC.FailuresBySupplier(data)) == SC.FailuresBySupplier(data)[0].failures
  {
    var r := SC.FailuresBySupplier(data);
    var e :| e in r && e.failures == MaxFailures(r);
    var k :| 0 <= k < |r| && r[k] == e;
    assert k == 0 || r[0].failures >= r[k].failures;
  }

  /** The supplier bound is at least the number of failing rows of any one supplier. */
  lemma {:induction false} MaxFailuresBoundsSuppliers(data: seq<Row>)
    ensures forall s :: SC.FailCount(data, s) <= MaxFailures(SC.FailuresBySupplier(data))
  {
    forall s | SC.FailCount(data, s) > 0
      ensures SC.FailCount(data, s) <= MaxFailures(SC.FailuresBySupplier(data))
    {
      SupplierHasBar(data, s);
    }
  }

  /** A supplier with failing rows has a bar of that height. */
  lemma {:induction false} SupplierHasBar(data: seq<Row>, s: string)
    requires SC.FailCount(data, s) > 0
    ensures exists e :: e in SC.FailuresBySupplier(data) && e.failures == SC.FailCount(data, s)
  {
    var r := SC.FailuresBySupplier(data);
    SC.FailuresBySupplierNames(data);
    SC.FailuresBySupplierCounts(data);
    SC.FailCountPositive(data, s);
    var k :| 0 <= k < |r| && SC.Names(r)[k] == s;
    assert r[k] in r;
  }

  /** The supplier bound is 0 exactly when no row fails. */
  lemma {:induction false} MaxFailuresZero(data: seq<Row>)
    ensures MaxFailures(SC.FailuresBySupplier(data)) == 0 <==> SC.FailSuppliers(data) == []
  {
    var r := SC.FailuresBySupplier(data);
    if SC.FailSuppliers(data) != [] {
      var s := SC.FailSuppliers(data)[0];
      SC.FailCountPositive(data, s);
      SupplierHasBar(data, s);
    }
    if r != [] {
      SC.FailuresBySupplierNames(data);
      SC.FailuresBySupplierCounts(data);
      assert r[0] in r;
      assert SC.Names(r)[0] in SC.Names(r);
    }
  }

  /** The product bound is the largest number of rows of any one product, and 0 exactly when
      the working set is empty. */
  lemma {:induction false} MaxResultsBoundsProducts(data: seq<Row>)
    ensures forall name :: PC.RowCount(data, name) <= MaxResults(PC.ResultsByProduct(data))
    ensures MaxResults(PC.ResultsByProduct(data)) == 0 <==> data == []
  {
    var r := PC.ResultsByProduct(data);
    PC.ResultsByProductContents(data);
    forall name | PC.RowCount(data, name) > 0
      ensures PC.RowCount(data, name) <= MaxResults(r)
    {
      PC.OutcomesPartitionRows(data, name);
      assert name in Dedup(PC.ProductsOf(data));
      var k :| 0 <= k < |r| && PC.Names(r)[k] == name;
      assert r[k] in r;
    }
    if data != [] {
      var name := Product(data[|data| - 1]);
      assert name in PC.ProductsOf(data);
      PC.OutcomesPartitionRows(data, name);
    }
  }
}
