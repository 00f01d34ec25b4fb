/** The date handling of the failure-trend chart: a `coa_date` value (a Postgres `date`,
    `YYYY-MM-DD`) is parsed, truncated to the first of its month and printed as the ISO
    grouping key `yyyy-MM-01`; a key is printed for display as `MMM yyyy` with English month
    abbreviations. Only the `YYYY-MM-DD` shape is accepted; everything else is unparseable. */
module MonthKeys {
  import opened Seqs
  import opened Text

  datatype Date = Date(year: nat, month: nat, day: nat)

  /** Gregorian leap years, the rule the date library applies. */
  predicate IsLeapYear(y: nat)
  {
    y % 400 == 0 || (y % 4 == 0 && y % 100 != 0)
  }

  function DaysInMonth(y: nat, m: nat): (n: nat)
    requires 1 <= m <= 12
    ensures 28 <= n <= 31
  {
    if m == 2 then (if IsLeapYear(y) then 29 else 28)
    else if m == 4 || m == 6 || m == 9 || m == 11 then 30
    else 31
  }

  /** The date-only ISO shape: four digits, dash, two digits, dash, two digits. */
  predicate HasDateShape(s: string)
  {
    |s| == 10 && s[4] == '-' && s[7] == '-' &&
    AllDigits(s[..4]) && AllDigits(s[5..7]) && AllDigits(s[8..])
  }

  /** `parseISO` on a date-only string, with the range checks it makes on month and day. */
  function ParseIsoDate(s: string): (r: Option<Date>)
    ensures r.Some? ==> HasDateShape(s)
    ensures r.Some? ==> 1 <= r.value.month <= 12 && 1 <= r.value.day <= DaysInMonth(r.value.year, r.value.month)
    ensures r.Some? ==> r.value == Date(DecimalValue(s[..4]), DecimalValue(s[5..7]), DecimalValue(s[8..]))
    ensures (HasDateShape(s) && 1 <= DecimalValue(s[5..7]) <= 12 &&
             1 <= DecimalValue(s[8..]) <= DaysInMonth(DecimalValue(s[..4]), DecimalValue(s[5..7]))) ==> r.Some?
  {
    if !HasDateShape(s) then None
    else
      var y := DecimalValue(s[..4]);
      var m := DecimalValue(s[5..7]);
      var d := DecimalValue(s[8..]);
      if 1 <= m <= 12 && 1 <= d <= DaysInMonth(y, m) then Some(Date(y, m, d)) else None
  }

  /** A grouping key: a valid date on the first of a month, in a year the formatter prints
      as written (year 0 is printed as year 1). */
  predicate IsMonthKey(k: string)
  {
    ParseIsoDate(k).Some? && ParseIsoDate(k).value.day == 1 && ParseIsoDate(k).value.year >= 1
  }

  /** Reading `yyyy-MM-01` back gives the first of that month. */
  lemma {:induction false} ParseMonthKey(year: string, month: string)
    requires |year| == 4 && AllDigits(year) && |month| == 2 && AllDigits(month)
    requires 1 <= DecimalValue(month) <= 12
    ensures ParseIsoDate(year + "-" + month + "-01") == Some(Date(DecimalValue(year), DecimalValue(month), 1))
  {
    var k := year + "-" + month + "-01";
    assert k[..4] == year && k[5..7] == month;
    assert k[8..] == ['0', '1'];
    DecimalValueOf2(k[8..]);
  }

  /** `format(startOfMonth(parseISO(d)), "yyyy-MM-dd")`, or `None` where the formatter throws on
      an invalid date. The year token prints year 0 (1 BC) as `0001`. */
  function MonthKey(d: string): (r: Option<string>)
    ensures r.Some? <==> ParseIsoDate(d).Some?
    ensures r.Some? ==> IsMonthKey(r.value)
    ensures r.Some? ==> ParseIsoDate(r.value).value.month == ParseIsoDate(d).value.month
    ensures r.Some? ==>
      ParseIsoDate(r.value).value.year == if ParseIsoDate(d).value.year == 0 then 1 else ParseIsoDate(d).value.year
  {
    match ParseIsoDate(d)
    case None => None
    case Some(date) =>
      var year := if date.year == 0 then ['0', '0', '0', '1'] else d[..4];
      assert DecimalValue(year) == if date.year == 0 then 1 else date.year by {
        if date.year == 0 {
          DecimalValueSnoc([], '0');
          assert [] + ['0'] == ['0'];
          DecimalValueSnoc(['0'], '0');
          assert ['0'] + ['0'] == ['0', '0'];
          DecimalValueSnoc(['0', '0'], '0');
          assert ['0', '0'] + ['0'] == ['0', '0', '0'];
          DecimalValueSnoc(['0', '0', '0'], '1');
          assert ['0', '0', '0'] + ['1'] == year;
        }
      }
      ParseMonthKey(year, d[5..7]);
      Some(year + "-" + d[5..7] + "-01")
  }

  /** Truncating to the month is idempotent: a key is its own key. */
  lemma {:induction false} MonthKeyIdempotent(k: string)
    requires IsMonthKey(k)
    ensures MonthKey(k) == Some(k)
  {
    assert k[8..] == [k[8], k[9]];
    DecimalValueOf2(k[8..]);
    assert k == k[..4] + "-" + k[5..7] + "-01";
  }

  const MonthAbbrevs: seq<string> :=
    ["Jan", "Feb", "Mar", "Apr", "May", "Jun", "Jul", "Aug", "Sep", "Oct", "Nov", "Dec"]

  /** Two-digit month `MM` of a month number. */
  function MonthDigits(m: nat): (r: string)
    requires 1 <= m <= 12
    ensures |r| == 2 && AllDigits(r) && DecimalValue(r) == m
  {
    var r := [DigitChar(m / 10), DigitChar(m % 10)];
    DecimalValueOf2(r);
    r
  }

  /** `format(parseISO(k), "MMM yyyy")`, for instance `Jan 2024` for `2024-01-01`. */
  function MonthLabel(k: string): (r: string)
    requires IsMonthKey(k)
    ensures |r| == 8
  {
    MonthAbbrevs[ParseIsoDate(k).value.month - 1] + " " + k[..4]
  }

  /** Reads a `MMM yyyy` label back as a grouping key. */
  function KeyOfLabel(s: string): Option<string>
  {
    if |s| == 8 && s[3] == ' ' && s[..3] in MonthAbbrevs then
      var m := IndexOf(MonthAbbrevs, s[..3]) + 1;
      Some(s[4..] + "-" + MonthDigits(m) + "-01")
    else None
  }

  /** The display label loses nothing: the key can be recovered from it, so distinct months
      get distinct labels. */
  lemma {:induction false} MonthLabelRoundTrip(k: string)
    requires IsMonthKey(k)
    ensures KeyOfLabel(MonthLabel(k)) == Some(k)
  {
    var m := ParseIsoDate(k).value.month;
    var text := MonthLabel(k);
    assert text[..3] == MonthAbbrevs[m - 1];
    assert text[4..] == k[..4];
    MonthAbbrevsDistinct();
    assert IndexOf(MonthAbbrevs, text[..3]) == m - 1;
    MonthDigitsOfValue(k[5..7]);
    MonthKeyIdempotent(k);
  }

  lemma {:induction false} MonthDigitsOfValue(s: string)
    requires |s| == 2 && AllDigits(s) && 1 <= DecimalValue(s) <= 12
    ensures MonthDigits(DecimalValue(s)) == s
  {
    DecimalValueOf2(s);
    DecimalValueOf2(MonthDigits(DecimalValue(s)));
  }

  lemma {:induction false} MonthAbbrevsDistinct()
    ensures NoDups(MonthAbbrevs)
  {
  }

  /** A key and its label, deterministically: two keys with one label are the same key. */
  lemma {:induction false} MonthLabelInjective(k1: string, k2: string)
    requires IsMonthKey(k1) && IsMonthKey(k2)
    requires MonthLabel(k1) == MonthLabel(k2)
    ensures k1 == k2
  {
    MonthLabelRoundTrip(k1);
    MonthLabelRoundTrip(k2);
  }
}
