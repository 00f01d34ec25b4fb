/** The "Results by Product" stacked bar chart: one bar per product label in the working set,
    in order of the product's first row, split into pass, fail and unknown counts. A row whose
    `test_result` is `null` (or anything other than pass or fail) counts as unknown. */
module ProductChart {
  import opened Seqs
  import opened OrderedMaps
  import opened CoaRows

  /** The per-product `{ pass, fail, unknown }` object. */
  datatype Counts = Counts(pass: nat, fail: nat, unknown: nat)

  /** One bar: `{ name, pass, fail, unknown }`. */
  datatype ProductResults = ProductResults(name: string, pass: nat, fail: nat, unknown: nat)

  /** The three segments of a bar. */
  datatype Outcome = Passed | Failed | Other

  /** Which counter a row increments: the `if / else if / else` on `test_result`. */
  function OutcomeOf(result: Option<TestResult>): Outcome
  {
    if result == Some(Pass) then Passed
    else if result == Some(Fail) then Failed
    else Other
  }

  function Zero(): Counts
  {
    Counts(0, 0, 0)
  }

  /** `stats.pass++`, `stats.fail++` or `stats.unknown++`. */
  function Bump(c: Counts, result: Option<TestResult>): Counts
  {
    match OutcomeOf(result)
    case Passed => c.(pass := c.pass + 1)
    case Failed => c.(fail := c.fail + 1)
    case Other => c.(unknown := c.unknown + 1)
  }

  /** One visit of the `forEach`: the row's product gets a zeroed counter if it has none, then
      the row's counter goes up by one. */
  function CountResult(m: OrderedMap<Counts>, row: Row): OrderedMap<Counts>
  {
    Put(m, Product(row), Bump(GetOr(Get(m, Product(row)), Zero()), row.testResult))
  }

  /** The `products` map after the `forEach` has visited `rows`. */
  function ProductTally(rows: seq<Row>): OrderedMap<Counts>
    decreases |rows|
  {
    if rows == [] then [] else CountResult(ProductTally(rows[..|rows| - 1]), rows[|rows| - 1])
  }

  /** The product label of every row, in row order. */
  function ProductsOf(rows: seq<Row>): seq<string>
    decreases |rows|
  {
    if rows == [] then [] else ProductsOf(rows[..|rows| - 1]) + [Product(rows[|rows| - 1])]
  }

  /** The number of rows with product label `name` and the given outcome. */
  function OutcomeCount(rows: seq<Row>, name: string, o: Outcome): nat
    decreases |rows|
  {
    if rows == [] then 0
    else
      var row := rows[|rows| - 1];
      OutcomeCount(rows[..|rows| - 1], name, o) +
        if Product(row) == name && OutcomeOf(row.testResult) == o then 1 else 0
  }

  /** The number of rows with product label `name`. */
  function RowCount(rows: seq<Row>, name: string): nat
    decreases |rows|
  {
    if rows == [] then 0
    else RowCount(rows[..|rows| - 1], name) + if Product(rows[|rows| - 1]) == name then 1 else 0
  }

  function CountsOf(rows: seq<Row>, name: string): Counts
  {
    Counts(OutcomeCount(rows, name, Passed), OutcomeCount(rows, name, Failed), OutcomeCount(rows, name, Other))
  }

  function Size(c: Counts): nat
  {
    c.pass + c.fail + c.unknown
  }

  /** Every row is in exactly one segment of its product's bar. */
  lemma {:induction false} OutcomesPartitionRows(rows: seq<Row>, name: string)
    ensures Size(CountsOf(rows, name)) == RowCount(rows, name)
    ensures RowCount(rows, name) > 0 <==> name in ProductsOf(rows)
    decreases |rows|
  {
    if rows != [] {
      var pre := rows[..|rows| - 1];
      OutcomesPartitionRows(pre, name);
    }
  }

  /** The map's keys are the product labels, in order of first occurrence. */
  lemma {:induction false} ProductTallyKeys(rows: seq<Row>)
    ensures Keys(ProductTally(rows)) == Dedup(ProductsOf(rows))
    decreases |rows|
  {
    if rows != [] {
      var pre := rows[..|rows| - 1];
      var row := rows[|rows| - 1];
      var m := ProductTally(pre);
      var k := Product(row);
      var c := Bump(GetOr(Get(m, k), Zero()), row.testResult);
      ProductTallyKeys(pre);
      PutKeepsFirstOccurrenceOrder(m, ProductsOf(pre), k, c);
    }
  }

  /** What one visit does to the counter of `name`. */
  lemma {:induction false} CountResultGet(m: OrderedMap<Counts>, row: Row, name: string)
    ensures Get(CountResult(m, row), name) ==
            if Product(row) == name then Some(Bump(GetOr(Get(m, name), Zero()), row.testResult)) else Get(m, name)
  {
    GetPut(m, Product(row), Bump(GetOr(Get(m, Product(row)), Zero()), row.testResult), name);
  }

  /** What one more row does to the reference counts of `name`. */
  lemma {:induction false} CountsOfSnoc(rows: seq<Row>, name: string)
    requires rows != []
    ensures var row := rows[|rows| - 1];
            CountsOf(rows, name) ==
            if Product(row) == name then Bump(CountsOf(rows[..|rows| - 1], name), row.testResult)
            else CountsOf(rows[..|rows| - 1], name)
  {
  }

  /** A product with no rows has all counts zero. */
  lemma {:induction false} NoRowsNoCounts(rows: seq<Row>, name: string)
    requires RowCount(rows, name) == 0
    ensures CountsOf(rows, name) == Zero()
  {
    OutcomesPartitionRows(rows, name);
  }

  /** The map holds, for each product that occurs, its three counts. */
  lemma {:induction false} ProductTallyGet(rows: seq<Row>, name: string)
    ensures Get(ProductTally(rows), name) == if RowCount(rows, name) > 0 then Some(CountsOf(rows, name)) else None
    decreases |rows|
  {
    if rows != [] {
      var pre := rows[..|rows| - 1];
      var row := rows[|rows| - 1];
      ProductTallyGet(pre, name);
      CountResultGet(ProductTally(pre), row, name);
      CountsOfSnoc(rows, name);
      if RowCount(pre, name) == 0 {
        NoRowsNoCounts(pre, name);
      }
    }
  }

  lemma {:induction false} BumpSize(c: Counts, result: Option<TestResult>)
    ensures Size(Bump(c, result)) == Size(c) + 1
  {
  }

  /** Sum of the bar heights of a counts map. */
  function TotalCounts(m: OrderedMap<Counts>): nat
  {
    if m == [] then 0 else Size(m[0].1) + TotalCounts(m[1..])
  }

  lemma {:induction false} TotalCountsPut(m: OrderedMap<Counts>, k: string, c: Counts)
    ensures TotalCounts(Put(m, k, c)) + Size(GetOr(Get(m, k), Zero())) == TotalCounts(m) + Size(c)
  {
    if m != [] && m[0].0 != k {
      TotalCountsPut(m[1..], k, c);
    }
  }

  lemma {:induction false} ProductTallyTotal(rows: seq<Row>)
    ensures TotalCounts(ProductTally(rows)) == |rows|
    decreases |rows|
  {
    if rows != [] {
      var pre := rows[..|rows| - 1];
      var row := rows[|rows| - 1];
      var m := ProductTally(pre);
      var before := GetOr(Get(m, Product(row)), Zero());
      ProductTallyTotal(pre);
      TotalCountsPut(m, Product(row), Bump(before, row.testResult));
      BumpSize(before, row.testResult);
    }
  }

  /** `Array.from(products.entries()).map(([name, counts]) => ({ name, ...counts }))`. */
  function ToResults(m: OrderedMap<Counts>): (r: seq<ProductResults>)
    ensures |r| == |m|
    ensures forall i :: 0 <= i < |m| ==>
      r[i] == ProductResults(m[i].0, m[i].1.pass, m[i].1.fail, m[i].1.unknown)
  {
    seq(|m|, i requires 0 <= i < |m| => ProductResults(m[i].0, m[i].1.pass, m[i].1.fail, m[i].1.unknown))
  }

  function Names(s: seq<ProductResults>): (r: seq<string>)
    ensures |r| == |s| && forall i :: 0 <= i < |s| ==> r[i] == s[i].name
  {
    seq(|s|, i requires 0 <= i < |s| => s[i].name)
  }

  /** The height of a bar: `item.pass + item.fail + item.unknown`. */
  function Height(e: ProductResults): nat
  {
    e.pass + e.fail + e.unknown
  }

  function TotalHeight(s: seq<ProductResults>): nat
  {
    if s == [] then 0 else Height(s[0]) + TotalHeight(s[1..])
  }

  /** `processResultsByProduct` as a value. */
  function ResultsByProduct(data: seq<Row>): seq<ProductResults>
  {
    ToResults(ProductTally(data))
  }

  /** `processResultsByProduct(data)`: for each row, create the product's counter if it is
      missing, then increment the counter the row's result selects; list the map's entries. */
  method ProcessResultsByProduct(data: seq<Row>) returns (r: seq<ProductResults>)
    ensures r == ResultsByProduct(data)
    ensures Names(r) == Dedup(ProductsOf(data))
  {
    var products: OrderedMap<Counts> := [];
    for i := 0 to |data|
      invariant products == ProductTally(data[..i])
    {
      var row := data[i];
      assert data[..i + 1][..i] == data[..i];
      var product := Product(row);
      ghost var before := products;
      if Get(products, product).None? {
        products := Put(products, product, Zero());
        GetPut(before, product, Zero(), product);
        PutPut(before, product, Zero(), Bump(Zero(), row.testResult));
      }
      var stats := Get(products, product).value;
      products := Put(products, product, Bump(stats, row.testResult));
    }
    assert data[..|data|] == data;
    r := ToResults(products);
    ResultsByProductContents(data);
  }

  /** One bar per product label, in order of the label's first row (so no label twice); each
      bar's segments count that product's passing, failing and other rows, and the bar's height
      is its number of rows, at least 1. */
  lemma {:induction false} ResultsByProductContents(data: seq<Row>)
    ensures Names(ResultsByProduct(data)) == Dedup(ProductsOf(data))
    ensures forall e :: e in ResultsByProduct(data) ==>
      e.pass == OutcomeCount(data, e.name, Passed) &&
      e.fail == OutcomeCount(data, e.name, Failed) &&
      e.unknown == OutcomeCount(data, e.name, Other) &&
      Height(e) == RowCount(data, e.name) >= 1
  {
    var m := ProductTally(data);
    var r := ResultsByProduct(data);
    ProductTallyKeys(data);
    assert Names(r) == Keys(m);
    forall e | e in r
      ensures e.pass == OutcomeCount(data, e.name, Passed) &&
              e.fail == OutcomeCount(data, e.name, Failed) &&
              e.unknown == OutcomeCount(data, e.name, Other) &&
              Height(e) == RowCount(data, e.name) >= 1
    {
      var k :| 0 <= k < |r| && r[k] == e;
      GetDistinct(m, k);
      ProductTallyGet(data, e.name);
      OutcomesPartitionRows(data, e.name);
    }
  }

  /** Every row lands in exactly one bar: the heights add up to the number of rows. */
  lemma {:induction false} ResultsByProductTotal(data: seq<Row>)
    ensures TotalHeight(ResultsByProduct(data)) == |data|
  {
    ProductTallyTotal(data);
    ResultsTotal(ProductTally(data));
  }

  lemma {:induction false} ResultsTotal(m: OrderedMap<Counts>)
    ensures TotalHeight(ToResults(m)) == TotalCounts(m)
  {
    if m != [] {
      assert ToResults(m)[1..] == ToResults(m[1..]);
      ResultsTotal(m[1..]);
    }
  }
}
