/** The "Failures by Supplier" bar chart: one bar per supplier with at least one failing row
    in the working set, tallied in a map in row order and then sorted by failure count,
    largest first. The sort is stable, so equal counts keep the map's insertion order, which
    is the order in which each supplier's first failing row appears. */
module SupplierChart {
  import opened Seqs
  import opened Text
  import opened OrderedMaps
  import opened CoaRows

  /** One bar: `{ name, failures }`. */
  datatype SupplierFailures = SupplierFailures(name: string, failures: nat)

  /** The supplier label of each failing row, in row order. */
  function FailSuppliers(rows: seq<Row>): seq<string>
    decreases |rows|
  {
    if rows == [] then []
    else
      var rest := FailSuppliers(rows[..|rows| - 1]);
      var row := rows[|rows| - 1];
      if IsFail(row) then rest + [Supplier(row)] else rest
  }

  /** The number of failing rows whose supplier label is `s`. */
  function FailCount(rows: seq<Row>, s: string): nat
    decreases |rows|
  {
    if rows == [] then 0
    else
      var row := rows[|rows| - 1];
      FailCount(rows[..|rows| - 1], s) + if IsFail(row) && Supplier(row) == s then 1 else 0
  }

  /** A supplier has failures exactly when it occurs among the failing rows' suppliers. */
  lemma {:induction false} FailCountPositive(rows: seq<Row>, s: string)
    ensures FailCount(rows, s) > 0 <==> s in FailSuppliers(rows)
    decreases |rows|
  {
    if rows != [] {
      FailCountPositive(rows[..|rows| - 1], s);
    }
  }

  /** One visit of the `forEach`: a failing row adds one to its supplier's count. */
  function CountFailure(m: OrderedMap<nat>, row: Row): OrderedMap<nat>
  {
    if IsFail(row) then Put(m, Supplier(row), GetOr(Get(m, Supplier(row)), 0) + 1) else m
  }

  /** The `failures` map after the `forEach` has visited `rows`. */
  function FailTally(rows: seq<Row>): OrderedMap<nat>
    decreases |rows|
  {
    if rows == [] then [] else CountFailure(FailTally(rows[..|rows| - 1]), rows[|rows| - 1])
  }

  /** The tally's keys are the suppliers that failed, in order of their first failure. */
  lemma {:induction false} FailTallyKeys(rows: seq<Row>)
    ensures Keys(FailTally(rows)) == Dedup(FailSuppliers(rows))
    decreases |rows|
  {
    if rows != [] {
      var pre := rows[..|rows| - 1];
      var row := rows[|rows| - 1];
      var m := FailTally(pre);
      FailTallyKeys(pre);
      if IsFail(row) {
        var k := Supplier(row);
        var v := GetOr(Get(m, k), 0) + 1;
        assert FailTally(rows) == Put(m, k, v);
        assert FailSuppliers(rows) == FailSuppliers(pre) + [k];
        PutKeepsFirstOccurrenceOrder(m, FailSuppliers(pre), k, v);
      } else {
        assert FailTally(rows) == m;
        assert FailSuppliers(rows) == FailSuppliers(pre);
      }
    }
  }

  /** The tally maps each supplier that failed to its number of failing rows. */
  lemma {:induction false} FailTallyGet(rows: seq<Row>, s: string)
    ensures Get(FailTally(rows), s) == if FailCount(rows, s) > 0 then Some(FailCount(rows, s)) else None
    decreases |rows|
  {
    if rows != [] {
      var pre := rows[..|rows| - 1];
      var row := rows[|rows| - 1];
      var m := FailTally(pre);
      FailTallyGet(pre, s);
      if IsFail(row) {
        var k := Supplier(row);
        FailTallyGet(pre, k);
        GetPut(m, k, GetOr(Get(m, k), 0) + 1, s);
      }
    }
  }

  /** The counts add up to the number of failing rows. */
  lemma {:induction false} FailTallySum(rows: seq<Row>)
    ensures SumValues(FailTally(rows)) == |FailSuppliers(rows)|
    decreases |rows|
  {
    if rows != [] {
      var pre := rows[..|rows| - 1];
      var row := rows[|rows| - 1];
      FailTallySum(pre);
      if IsFail(row) {
        var m := FailTally(pre);
        var k := Supplier(row);
        FailTallyGet(pre, k);
        SumValuesPut(m, k, GetOr(Get(m, k), 0) + 1);
      }
    }
  }

  /** `Array.from(failures.entries()).map(([name, failures]) => ({ name, failures }))`. */
  function ToEntries(m: OrderedMap<nat>): (r: seq<SupplierFailures>)
    ensures |r| == |m|
    ensures forall i :: 0 <= i < |m| ==> r[i] == SupplierFailures(m[i].0, m[i].1)
  {
    seq(|m|, i requires 0 <= i < |m| => SupplierFailures(m[i].0, m[i].1))
  }

  function Names(s: seq<SupplierFailures>): (r: seq<string>)
    ensures |r| == |s| && forall i :: 0 <= i < |s| ==> r[i] == s[i].name
  {
    seq(|s|, i requires 0 <= i < |s| => s[i].name)
  }

  function SumFailures(s: seq<SupplierFailures>): nat
  {
    if s == [] then 0 else s[0].failures + SumFailures(s[1..])
  }

  predicate NonIncreasing(s: seq<SupplierFailures>)
  {
    forall i, j :: 0 <= i < j < |s| ==> s[i].failures >= s[j].failures
  }

  lemma {:induction false} ConsNonIncreasing(x: SupplierFailures, t: seq<SupplierFailures>)
    requires NonIncreasing(t)
    requires forall k :: 0 <= k < |t| ==> x.failures >= t[k].failures
    ensures NonIncreasing([x] + t)
  {
    forall i, j | 0 <= i < j < |[x] + t| ensures ([x] + t)[i].failures >= ([x] + t)[j].failures {
      assert ([x] + t)[j] == t[j - 1];
      if i > 0 {
        assert ([x] + t)[i] == t[i - 1];
      }
    }
  }

  /** One step of a stable sort with comparator `b.failures - a.failures`: `e`, which came
      after everything in `s`, goes in front of the first entry with fewer failures. */
  function InsertByFailures(s: seq<SupplierFailures>, e: SupplierFailures): (r: seq<SupplierFailures>)
    requires NonIncreasing(s)
    ensures NonIncreasing(r)
    ensures |r| == |s| + 1
    ensures forall x :: x in r <==> x in s || x == e
  {
    if s == [] then [e]
    else if s[0].failures < e.failures then
      ConsNonIncreasing(e, s);
      [e] + s
    else
      var rest := InsertByFailures(s[1..], e);
      assert s == [s[0]] + s[1..];
      assert forall k :: 0 <= k < |rest| ==> s[0].failures >= rest[k].failures by {
        forall k | 0 <= k < |rest| ensures s[0].failures >= rest[k].failures {
          assert rest[k] in rest;
          if rest[k] != e {
            var n :| 0 <= n < |s[1..]| && s[1..][n] == rest[k];
            assert s[n + 1] == rest[k];
          }
        }
      }
      ConsNonIncreasing(s[0], rest);
      [s[0]] + rest
  }

  /** The stable descending sort of the entries. */
  function SortByFailures(s: seq<SupplierFailures>): (r: seq<SupplierFailures>)
    ensures NonIncreasing(r)
    ensures |r| == |s|
    ensures forall x :: x in r <==> x in s
  {
    if s == [] then [] else
    assert s == s[..|s| - 1] + [s[|s| - 1]];
    InsertByFailures(SortByFailures(s[..|s| - 1]), s[|s| - 1])
  }

  /** Inserting adds the entry's name to the names. */
  lemma {:induction false} InsertByFailuresNames(s: seq<SupplierFailures>, e: SupplierFailures)
    requires NonIncreasing(s)
    ensures multiset(Names(InsertByFailures(s, e))) == multiset(Names(s)) + multiset{e.name}
  {
    if s == [] {
    } else if s[0].failures < e.failures {
      assert Names([e] + s) == [e.name] + Names(s);
    } else {
      var rest := InsertByFailures(s[1..], e);
      InsertByFailuresNames(s[1..], e);
      assert Names([s[0]] + rest) == [s[0].name] + Names(rest);
      assert Names(s) == [s[0].name] + Names(s[1..]);
    }
  }

  /** Inserting adds the entry's count to the total. */
  lemma {:induction false} InsertByFailuresSum(s: seq<SupplierFailures>, e: SupplierFailures)
    requires NonIncreasing(s)
    ensures SumFailures(InsertByFailures(s, e)) == SumFailures(s) + e.failures
  {
    if s == [] {
    } else if s[0].failures < e.failures {
      assert ([e] + s)[1..] == s;
    } else {
      var rest := InsertByFailures(s[1..], e);
      InsertByFailuresSum(s[1..], e);
      assert ([s[0]] + rest)[1..] == rest;
    }
  }

  /** Sorting keeps the names and the total count. */
  lemma {:induction false} SortByFailuresNames(s: seq<SupplierFailures>)
    ensures multiset(Names(SortByFailures(s))) == multiset(Names(s))
    ensures SumFailures(SortByFailures(s)) == SumFailures(s)
    decreases |s|
  {
    if s != [] {
      var pre := s[..|s| - 1];
      var last := s[|s| - 1];
      SortByFailuresNames(pre);
      InsertByFailuresNames(SortByFailures(pre), last);
      InsertByFailuresSum(SortByFailures(pre), last);
      assert s == pre + [last];
      assert Names(s) == Names(pre) + [last.name];
      SumFailuresAppend(pre, [last]);
    }
  }

  /** The predicate "has exactly `v` failures". */
  function HasFailures(v: nat): SupplierFailures -> bool
  {
    (e: SupplierFailures) => e.failures == v
  }

  lemma {:induction false} InsertByFailuresStable(s: seq<SupplierFailures>, e: SupplierFailures, v: nat)
    requires NonIncreasing(s)
    ensures Filter(InsertByFailures(s, e), HasFailures(v)) ==
            Filter(s, HasFailures(v)) + if e.failures == v then [e] else []
  {
    if s == [] {
    } else if s[0].failures < e.failures {
      assert ([e] + s)[1..] == s;
      if e.failures == v {
        FilterNone(s, HasFailures(v));
      }
    } else {
      var rest := InsertByFailures(s[1..], e);
      assert ([s[0]] + rest)[1..] == rest;
      InsertByFailuresStable(s[1..], e, v);
    }
  }

  /** Stability: the entries with any given count come out in the order they went in. */
  lemma {:induction false} SortByFailuresStable(s: seq<SupplierFailures>, v: nat)
    ensures Filter(SortByFailures(s), HasFailures(v)) == Filter(s, HasFailures(v))
    decreases |s|
  {
    if s != [] {
      var pre := s[..|s| - 1];
      var last := s[|s| - 1];
      var p := HasFailures(v);
      var sp := SortByFailures(pre);
      var tail := if last.failures == v then [last] else [];
      SortByFailuresStable(pre, v);
      InsertByFailuresStable(sp, last, v);
      assert SortByFailures(s) == InsertByFailures(sp, last);
      assert Filter(SortByFailures(s), p) == Filter(pre, p) + tail;
      assert s == pre + [last];
      FilterAppend(pre, [last], p);
      assert Filter([last], p) == tail;
    }
  }

  lemma {:induction false} SumFailuresAppend(a: seq<SupplierFailures>, b: seq<SupplierFailures>)
    ensures SumFailures(a + b) == SumFailures(a) + SumFailures(b)
  {
    if a == [] {
      assert a + b == b;
    } else {
      assert (a + b)[1..] == a[1..] + b;
      SumFailuresAppend(a[1..], b);
    }
  }

  lemma {:induction false} SumFailuresEntries(m: OrderedMap<nat>)
    ensures SumFailures(ToEntries(m)) == SumValues(m)
  {
    if m != [] {
      assert ToEntries(m)[1..] == ToEntries(m[1..]);
      SumFailuresEntries(m[1..]);
    }
  }

  /** `processFailuresBySupplier` as a value. */
  function FailuresBySupplier(data: seq<Row>): seq<SupplierFailures>
  {
    SortByFailures(ToEntries(FailTally(data)))
  }

  /** `processFailuresBySupplier(data)`: tally the failing rows per supplier in a map, in row
      order, then list the map's entries sorted by count, largest first. */
  method ProcessFailuresBySupplier(data: seq<Row>) returns (r: seq<SupplierFailures>)
    ensures r == FailuresBySupplier(data)
    ensures NonIncreasing(r)
    ensures forall s :: s in Names(r) <==> s in FailSuppliers(data)
  {
    var failures: OrderedMap<nat> := [];
    for i := 0 to |data|
      invariant failures == FailTally(data[..i])
    {
      var row := data[i];
      assert data[..i + 1][..i] == data[..i];
      if IsFail(row) {
        var supplier := Supplier(row);
        failures := Put(failures, supplier, GetOr(Get(failures, supplier), 0) + 1);
      }
    }
    assert data[..|data|] == data;
    r := SortByFailures(ToEntries(failures));
    FailuresBySupplierNames(data);
  }

  /** Every bar belongs to a supplier that failed, every supplier that failed has a bar, and
      no supplier has two. */
  lemma {:induction false} FailuresBySupplierNames(data: seq<Row>)
    ensures forall s :: s in Names(FailuresBySupplier(data)) <==> s in FailSuppliers(data)
    ensures NoDups(Names(FailuresBySupplier(data)))
  {
    var es := ToEntries(FailTally(data));
    var r := FailuresBySupplier(data);
    FailTallyKeys(data);
    assert Names(es) == Keys(FailTally(data));
    SortByFailuresNames(es);
    NoDupsMultiset(Names(es));
    NoDupsMultiset(Names(r));
    assert forall s :: s in Names(r) <==> s in multiset(Names(r));
    assert forall s :: s in Names(es) <==> s in multiset(Names(es));
  }

  /** Each bar carries its supplier's number of failing rows, which is at least 1. */
  lemma {:induction false} FailuresBySupplierCounts(data: seq<Row>)
    ensures forall e :: e in FailuresBySupplier(data) ==> e.failures == FailCount(data, e.name) >= 1
  {
    var m := FailTally(data);
    var es := ToEntries(m);
    FailTallyKeys(data);
    forall e | e in FailuresBySupplier(data)
      ensures e.failures == FailCount(data, e.name) >= 1
    {
      var k :| 0 <= k < |es| && es[k] == e;
      GetDistinct(m, k);
      FailTallyGet(data, e.name);
    }
  }

  /** The bar heights add up to the number of failing rows. */
  lemma {:induction false} FailuresBySupplierTotal(data: seq<Row>)
    ensures SumFailures(FailuresBySupplier(data)) == |FailSuppliers(data)|
  {
    SortByFailuresNames(ToEntries(FailTally(data)));
    SumFailuresEntries(FailTally(data));
    FailTallySum(data);
  }

  lemma {:induction false} DistinctNamesDistinctEntries(s: seq<SupplierFailures>)
    requires NoDups(Names(s))
    ensures NoDups(s)
  {
    forall a, b | 0 <= a < b < |s| ensures s[a] != s[b] {
      assert Names(s)[a] != Names(s)[b];
    }
  }

  /** Sorting entries with distinct names keeps entries of equal count in their input order. */
  lemma {:induction false} SortKeepsTieOrder(es: seq<SupplierFailures>, i: int, j: int)
    requires NoDups(Names(es))
    requires 0 <= i < j < |SortByFailures(es)|
    requires SortByFailures(es)[i].failures == SortByFailures(es)[j].failures
    ensures SortByFailures(es)[i] in es && SortByFailures(es)[j] in es
    ensures IndexOf(es, SortByFailures(es)[i]) < IndexOf(es, SortByFailures(es)[j])
  {
    var r := SortByFailures(es);
    var p := HasFailures(r[i].failures);
    SortByFailuresNames(es);
    NoDupsMultiset(Names(es));
    NoDupsMultiset(Names(r));
    DistinctNamesDistinctEntries(r);
    DistinctNamesDistinctEntries(es);
    // Position among the entries with this count: the same before and after sorting.
    FilterIndexOrder(r, p, i, j);
    SortByFailuresStable(es, r[i].failures);
    var f := Filter(es, p);
    FilterMembers(es, p);
    assert r[i] in es && r[j] in es;
    assert r[i] in f && r[j] in f;
    // Position among all entries.
    FilterIsSubsequence(es, p);
    SubsequenceIndexOrder(f, es, IndexOf(f, r[i]), IndexOf(f, r[j]));
  }

  /** Suppliers with equal failure counts appear in the order in which their first failing row
      occurs in the data. */
  lemma {:induction false} TiesInFirstFailureOrder(data: seq<Row>, i: int, j: int)
    requires 0 <= i < j < |FailuresBySupplier(data)|
    requires FailuresBySupplier(data)[i].failures == FailuresBySupplier(data)[j].failures
    ensures IndexOf(FailSuppliers(data), FailuresBySupplier(data)[i].name) <
            IndexOf(FailSuppliers(data), FailuresBySupplier(data)[j].name)
  {
    var m := FailTally(data);
    var es := ToEntries(m);
    var r := FailuresBySupplier(data);
    FailTallyKeys(data);
    assert Names(es) == Keys(m);
    SortKeepsTieOrder(es, i, j);
    var ki := IndexOf(es, r[i]);
    var kj := IndexOf(es, r[j]);
    assert Dedup(FailSuppliers(data))[ki] == r[i].name;
    assert Dedup(FailSuppliers(data))[kj] == r[j].name;
    DedupFirstOccurrenceOrder(FailSuppliers(data));
  }
}
