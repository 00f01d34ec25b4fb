/** The "Failure Trend Over Time" line chart: the failing rows of the working set that carry
    a parseable `coa_date`, counted per calendar month and listed in ascending month order as
    a single series named "Failures". A failing row whose date is missing, empty or does not
    parse is left out of this chart (its exception is caught and logged) but still counts in
    the supplier chart. */
module TrendChart {
  import opened Seqs
  import opened Text
  import opened OrderedMaps
  import opened CoaRows
  import opened MonthKeys
  import SC = SupplierChart

  /** The grouping key a row contributes, if any: failing, with a non-empty date that the date
      library can parse. */
  function DatedFailKey(row: Row): (r: Option<string>)
    ensures r.Some? <==> IsFail(row) && row.coaDate.Some? && ParseIsoDate(row.coaDate.value).Some?
    ensures r.Some? ==> IsMonthKey(r.value) && r == MonthKey(row.coaDate.value)
  {
    if IsFail(row) && row.coaDate.Some? && row.coaDate.value != "" then MonthKey(row.coaDate.value)
    else None
  }

  /** The month keys of the rows that contribute, in row order. */
  function FailMonths(rows: seq<Row>): seq<string>
    decreases |rows|
  {
    if rows == [] then []
    else
      var rest := FailMonths(rows[..|rows| - 1]);
      match DatedFailKey(rows[|rows| - 1])
      case Some(k) => rest + [k]
      case None => rest
  }

  /** The number of contributing rows in month `k`. */
  function MonthCount(rows: seq<Row>, k: string): nat
    decreases |rows|
  {
    if rows == [] then 0
    else MonthCount(rows[..|rows| - 1], k) + if DatedFailKey(rows[|rows| - 1]) == Some(k) then 1 else 0
  }

  /** One visit of the `forEach`. */
  function CountMonth(m: OrderedMap<nat>, row: Row): OrderedMap<nat>
  {
    match DatedFailKey(row)
    case Some(k) => Put(m, k, GetOr(Get(m, k), 0) + 1)
    case None => m
  }

  /** The `failuresByMonth` map after the `forEach` has visited `rows`. */
  function MonthTally(rows: seq<Row>): OrderedMap<nat>
    decreases |rows|
  {
    if rows == [] then [] else CountMonth(MonthTally(rows[..|rows| - 1]), rows[|rows| - 1])
  }

  /** Every contributed key is a grouping key. */
  lemma {:induction false} FailMonthsAreKeys(rows: seq<Row>)
    ensures forall k :: k in FailMonths(rows) ==> IsMonthKey(k)
    decreases |rows|
  {
    if rows != [] {
      FailMonthsAreKeys(rows[..|rows| - 1]);
    }
  }

  lemma {:induction false} MonthCountPositive(rows: seq<Row>, k: string)
    ensures MonthCount(rows, k) > 0 <==> k in FailMonths(rows)
    decreases |rows|
  {
    if rows != [] {
      MonthCountPositive(rows[..|rows| - 1], k);
    }
  }

  lemma {:induction false} MonthTallyKeys(rows: seq<Row>)
    ensures Keys(MonthTally(rows)) == Dedup(FailMonths(rows))
    decreases |rows|
  {
    if rows != [] {
      var pre := rows[..|rows| - 1];
      var row := rows[|rows| - 1];
      var m := MonthTally(pre);
      MonthTallyKeys(pre);
      var key := DatedFailKey(row);
      if key.Some? {
        var k := key.value;
        PutKeepsFirstOccurrenceOrder(m, FailMonths(pre), k, GetOr(Get(m, k), 0) + 1);
      }
    }
  }

  lemma {:induction false} CountMonthGet(m: OrderedMap<nat>, row: Row, k: string)
    ensures Get(CountMonth(m, row), k) ==
            if DatedFailKey(row) == Some(k) then Some(GetOr(Get(m, k), 0) + 1) else Get(m, k)
  {
    match DatedFailKey(row)
    case Some(key) => GetPut(m, key, GetOr(Get(m, key), 0) + 1, k);
    case None =>
  }

  lemma {:induction false} MonthTallyGet(rows: seq<Row>, k: string)
    ensures Get(MonthTally(rows), k) == if MonthCount(rows, k) > 0 then Some(MonthCount(rows, k)) else None
    decreases |rows|
  {
    if rows != [] {
      MonthTallyGet(rows[..|rows| - 1], k);
      CountMonthGet(MonthTally(rows[..|rows| - 1]), rows[|rows| - 1], k);
    }
  }

  lemma {:induction false} MonthTallySum(rows: seq<Row>)
    ensures SumValues(MonthTally(rows)) == |FailMonths(rows)|
    decreases |rows|
  {
    if rows != [] {
      var pre := rows[..|rows| - 1];
      var m := MonthTally(pre);
      MonthTallySum(pre);
      match DatedFailKey(rows[|rows| - 1])
      case Some(k) =>
        MonthTallyGet(pre, k);
        SumValuesPut(m, k, GetOr(Get(m, k), 0) + 1);
      case None =>
    }
  }

  lemma {:induction false} MonthTallyHasMonthKeys(rows: seq<Row>)
    ensures forall i :: 0 <= i < |MonthTally(rows)| ==> IsMonthKey(MonthTally(rows)[i].0)
  {
    MonthTallyKeys(rows);
    FailMonthsAreKeys(rows);
    var m := MonthTally(rows);
    forall i | 0 <= i < |m| ensures IsMonthKey(m[i].0) {
      assert Keys(m)[i] in Dedup(FailMonths(rows));
    }
  }

  /** `{ x, y, iso }` before sorting. */
  datatype TrendPoint = TrendPoint(x: string, y: nat, iso: string)

  /** `{ x, y }`, a point of the series. */
  datatype Point = Point(x: string, y: nat)

  /** `{ id, data }`. */
  datatype Series = Series(id: string, data: seq<Point>)

  /** `Array.from(failuresByMonth.entries()).map(...)`: each key with its display label and
      count. */
  function ToPoints(m: OrderedMap<nat>): (r: seq<TrendPoint>)
    requires forall i :: 0 <= i < |m| ==> IsMonthKey(m[i].0)
    ensures |r| == |m|
    ensures forall i :: 0 <= i < |m| ==> r[i] == TrendPoint(MonthLabel(m[i].0), m[i].1, m[i].0)
  {
    seq(|m|, i requires 0 <= i < |m| => TrendPoint(MonthLabel(m[i].0), m[i].1, m[i].0))
  }

  function Isos(s: seq<TrendPoint>): (r: seq<string>)
    ensures |r| == |s| && forall i :: 0 <= i < |s| ==> r[i] == s[i].iso
  {
    seq(|s|, i requires 0 <= i < |s| => s[i].iso)
  }

  /** One step of the sort by `iso`: `e` goes in front of the first point whose key is not
      smaller. The keys are distinct, so no two points compare equal. */
  function InsertByIso(s: seq<TrendPoint>, e: TrendPoint): seq<TrendPoint>
  {
    if s == [] then [e]
    else if Le(e.iso, s[0].iso) then [e] + s
    else [s[0]] + InsertByIso(s[1..], e)
  }

  /** `.sort((a, b) => a.iso.localeCompare(b.iso))`. */
  function SortByIso(s: seq<TrendPoint>): seq<TrendPoint>
  {
    if s == [] then [] else InsertByIso(SortByIso(s[..|s| - 1]), s[|s| - 1])
  }

  /** Sorting the points sorts their keys. */
  lemma {:induction false} InsertByIsoKeys(s: seq<TrendPoint>, e: TrendPoint)
    requires Sorted(Isos(s))
    ensures Isos(InsertByIso(s, e)) == Insert(Isos(s), e.iso)
  {
    if s != [] && !Le(e.iso, s[0].iso) {
      var rest := InsertByIso(s[1..], e);
      assert Isos(s[1..]) == Isos(s)[1..];
      InsertByIsoKeys(s[1..], e);
      assert Isos([s[0]] + rest) == [s[0].iso] + Isos(rest);
    } else if s != [] {
      assert Isos([e] + s) == [e.iso] + Isos(s);
    }
  }

  lemma {:induction false} SortByIsoKeys(s: seq<TrendPoint>)
    ensures Isos(SortByIso(s)) == Sort(Isos(s))
    decreases |s|
  {
    if s != [] {
      var pre := s[..|s| - 1];
      SortByIsoKeys(pre);
      InsertByIsoKeys(SortByIso(pre), s[|s| - 1]);
      assert Isos(s)[..|s| - 1] == Isos(pre);
    }
  }

  /** Sorting neither adds nor loses a point, nor changes the total. */
  lemma {:induction false} InsertByIsoMembers(s: seq<TrendPoint>, e: TrendPoint)
    ensures forall x :: x in InsertByIso(s, e) <==> x in s || x == e
    ensures SumY(InsertByIso(s, e)) == SumY(s) + e.y
  {
    if s != [] && !Le(e.iso, s[0].iso) {
      var rest := InsertByIso(s[1..], e);
      InsertByIsoMembers(s[1..], e);
      assert s == [s[0]] + s[1..];
      assert ([s[0]] + rest)[1..] == rest;
    } else if s != [] {
      assert ([e] + s)[1..] == s;
    }
  }

  lemma {:induction false} SortByIsoMembers(s: seq<TrendPoint>)
    ensures forall x :: x in SortByIso(s) <==> x in s
    ensures SumY(SortByIso(s)) == SumY(s)
    decreases |s|
  {
    if s != [] {
      var pre := s[..|s| - 1];
      SortByIsoMembers(pre);
      InsertByIsoMembers(SortByIso(pre), s[|s| - 1]);
      assert s == pre + [s[|s| - 1]];
      SumYAppend(pre, [s[|s| - 1]]);
    }
  }

  function SumY(s: seq<TrendPoint>): nat
  {
    if s == [] then 0 else s[0].y + SumY(s[1..])
  }

  lemma {:induction false} SumYAppend(a: seq<TrendPoint>, b: seq<TrendPoint>)
    ensures SumY(a + b) == SumY(a) + SumY(b)
  {
    if a == [] {
      assert a + b == b;
    } else {
      assert (a + b)[1..] == a[1..] + b;
      SumYAppend(a[1..], b);
    }
  }

  lemma {:induction false} SumYPoints(m: OrderedMap<nat>)
    requires forall i :: 0 <= i < |m| ==> IsMonthKey(m[i].0)
    ensures SumY(ToPoints(m)) == SumValues(m)
  {
    if m != [] {
      assert ToPoints(m)[1..] == ToPoints(m[1..]);
      SumYPoints(m[1..]);
    }
  }

  /** `chartData.map((d) => ({ x: d.x, y: d.y }))`. */
  function Strip(s: seq<TrendPoint>): (r: seq<Point>)
    ensures |r| == |s| && forall i :: 0 <= i < |s| ==> r[i] == Point(s[i].x, s[i].y)
  {
    seq(|s|, i requires 0 <= i < |s| => Point(s[i].x, s[i].y))
  }

  /** The sorted points of the chart, with their keys. */
  function TrendPoints(data: seq<Row>): seq<TrendPoint>
  {
    MonthTallyHasMonthKeys(data);
    SortByIso(ToPoints(MonthTally(data)))
  }

  /** `processFailureTrend` as a value. */
  function FailureTrend(data: seq<Row>): seq<Series>
  {
    if |MonthTally(data)| == 0 then [] else [Series("Failures", Strip(TrendPoints(data)))]
  }

  /** `processFailureTrend(data)`. */
  method ProcessFailureTrend(data: seq<Row>) returns (r: seq<Series>)
    ensures r == FailureTrend(data)
    ensures r == [] <==> FailMonths(data) == []
  {
    var failuresByMonth: OrderedMap<nat> := [];
    for i := 0 to |data|
      invariant failuresByMonth == MonthTally(data[..i])
    {
      var row := data[i];
      assert data[..i + 1][..i] == data[..i];
      if IsFail(row) && row.coaDate.Some? && row.coaDate.value != "" {
        var monthKey := MonthKey(row.coaDate.value);
        if monthKey.Some? {
          var key := monthKey.value;
          failuresByMonth := Put(failuresByMonth, key, GetOr(Get(failuresByMonth, key), 0) + 1);
        }
      }
    }
    assert data[..|data|] == data;
    MonthTallyKeys(data);
    if |failuresByMonth| == 0 {
      return [];
    }
    MonthTallyHasMonthKeys(data);
    var chartData := SortByIso(ToPoints(failuresByMonth));
    r := [Series("Failures", Strip(chartData))];
  }

  /** The chart is empty exactly when no failing row has a parseable date; otherwise it is the
      single series "Failures". */
  lemma {:induction false} FailureTrendShape(data: seq<Row>)
    ensures FailureTrend(data) == [] <==> FailMonths(data) == []
    ensures FailureTrend(data) != [] ==>
      |FailureTrend(data)| == 1 && FailureTrend(data)[0].id == "Failures" &&
      FailureTrend(data)[0].data == Strip(TrendPoints(data))
  {
    MonthTallyKeys(data);
    if FailMonths(data) != [] {
      assert FailMonths(data)[0] in Dedup(FailMonths(data));
    }
  }

  /** Sorting points with distinct keys puts the keys in strictly ascending order and keeps
      the set of keys. */
  lemma {:induction false} SortByIsoStrict(ps: seq<TrendPoint>)
    requires NoDups(Isos(ps))
    ensures StrictlySorted(Isos(SortByIso(ps)))
    ensures forall k :: k in Isos(SortByIso(ps)) <==> k in Isos(ps)
  {
    SortByIsoKeys(ps);
    SortDistinct(Isos(ps));
    var sorted := Sort(Isos(ps));
    assert forall k :: k in sorted <==> k in multiset(sorted);
    assert forall k :: k in Isos(ps) <==> k in multiset(Isos(ps));
  }

  /** The points are in strictly ascending month order, one per month with contributing rows. */
  lemma {:induction false} TrendPointsSorted(data: seq<Row>)
    ensures StrictlySorted(Isos(TrendPoints(data)))
    ensures forall k :: k in Isos(TrendPoints(data)) <==> k in FailMonths(data)
  {
    var m := MonthTally(data);
    MonthTallyHasMonthKeys(data);
    MonthTallyKeys(data);
    var ps := ToPoints(m);
    assert Isos(ps) == Keys(m);
    SortByIsoStrict(ps);
  }

  /** Each point is labelled with its month and carries the month's number of failing rows,
      at least 1. */
  lemma {:induction false} TrendPointsEntries(data: seq<Row>)
    ensures forall p :: p in TrendPoints(data) ==>
      IsMonthKey(p.iso) && p.x == MonthLabel(p.iso) && p.y == MonthCount(data, p.iso) >= 1
  {
    var m := MonthTally(data);
    MonthTallyHasMonthKeys(data);
    MonthTallyKeys(data);
    var ps := ToPoints(m);
    SortByIsoMembers(ps);
    forall p | p in TrendPoints(data)
      ensures IsMonthKey(p.iso) && p.x == MonthLabel(p.iso) && p.y == MonthCount(data, p.iso) >= 1
    {
      var k :| 0 <= k < |ps| && ps[k] == p;
      GetDistinct(m, k);
      MonthTallyGet(data, p.iso);
    }
  }

  /** The counts add up to the number of failing rows with a parseable date. */
  lemma {:induction false} TrendPointsTotal(data: seq<Row>)
    ensures SumY(TrendPoints(data)) == |FailMonths(data)|
  {
    var m := MonthTally(data);
    MonthTallyHasMonthKeys(data);
    SortByIsoMembers(ToPoints(m));
    SumYPoints(m);
    MonthTallySum(data);
  }

  /** A failing row whose date is missing or does not parse changes nothing in this chart,
      while the supplier chart still counts it. */
  lemma {:induction false} UnparseableDateIsSkipped(data: seq<Row>, row: Row)
    requires IsFail(row) && (row.coaDate.None? || MonthKey(row.coaDate.value).None?)
    ensures SC.FailSuppliers(data + [row]) == SC.FailSuppliers(data) + [Supplier(row)]
    ensures FailMonths(data + [row]) == FailMonths(data)
    ensures MonthTally(data + [row]) == MonthTally(data)
    ensures FailureTrend(data + [row]) == FailureTrend(data)
  {
    assert (data + [row])[..|data|] == data;
  }
}
