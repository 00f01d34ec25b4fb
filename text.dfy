/** Strings as the pipeline uses them: the default ordering of JavaScript's `Array.prototype.sort`
    (lexicographic by UTF-16 code unit), sorting, ASCII case folding, substring search
    (`includes`) and decimal numerals (template-literal interpolation of a count). */
module Text {
  import opened Seqs

  /** The UTF-16 code units of a character: itself below U+10000, otherwise a high and a low
      surrogate. */
  function Units(c: char): (r: seq<int>)
    ensures 1 <= |r| <= 2
  {
    var v := c as int;
    if v < 0x10000 then [v]
    else [0xD800 + (v - 0x10000) / 0x400, 0xDC00 + (v - 0x10000) % 0x400]
  }

  /** The UTF-16 encoding of a string. */
  function Utf16(s: string): seq<int>
  {
    if s == [] then [] else Units(s[0]) + Utf16(s[1..])
  }

  /** Lexicographic order on code-unit sequences; a prefix comes first. This is how JavaScript
      compares two strings. */
  predicate LeUnits(a: seq<int>, b: seq<int>)
    decreases |a|
  {
    a == [] || (b != [] && (a[0] < b[0] || (a[0] == b[0] && LeUnits(a[1..], b[1..]))))
  }

  /** The place of a character in code-unit order: characters below U+D800 first, then every
      character above U+FFFF (their high surrogates start at 0xD800), then U+E000 to U+FFFF. */
  function UnitRank(c: char): nat
  {
    var v := c as int;
    if v < 0xD800 then v
    else if v < 0x10000 then v + 0x100000
    else v - 0x10000 + 0xD800
  }

  /** Lexicographic order on strings by `UnitRank`, character by character; a prefix comes
      first. `LeIsCodeUnitOrder` shows it is the code-unit order. */
  predicate Le(a: string, b: string)
    decreases |a|
  {
    a == [] || (b != [] && (UnitRank(a[0]) < UnitRank(b[0]) || (a[0] == b[0] && Le(a[1..], b[1..]))))
  }

  /** Different characters have different ranks. */
  lemma {:induction false} UnitRankInjective(c: char, d: char)
    requires c != d
    ensures UnitRank(c) != UnitRank(d)
  {
    assert c as int != d as int;
  }

  /** A surrogate pair orders like the character it encodes. */
  lemma {:induction false} SurrogateOrder(v: int, w: int)
    requires 0x10000 <= v < w <= 0x10FFFF
    ensures (v - 0x10000) / 0x400 < (w - 0x10000) / 0x400 ||
            ((v - 0x10000) / 0x400 == (w - 0x10000) / 0x400 && (v - 0x10000) % 0x400 < (w - 0x10000) % 0x400)
  {
    var d, e := v - 0x10000, w - 0x10000;
    assert d == 0x400 * (d / 0x400) + d % 0x400;
    assert e == 0x400 * (e / 0x400) + e % 0x400;
  }

  /** Comparing the encodings of two strings that start with `c` and `d`: equal characters
      leave the decision to the rest; different characters decide it by their ranks, within
      their own code units. */
  lemma {:induction false} UnitsStep(c: char, d: char, x: seq<int>, y: seq<int>)
    ensures LeUnits(Units(c) + x, Units(d) + y) == if c == d then LeUnits(x, y) else UnitRank(c) < UnitRank(d)
  {
    var cu, du := Units(c) + x, Units(d) + y;
    var v, w := c as int, d as int;
    if c == d {
      if v < 0x10000 {
        assert cu[1..] == x && du[1..] == y;
      } else {
        assert cu[1..][1..] == x && du[1..][1..] == y;
      }
    } else if v >= 0x10000 && w >= 0x10000 {
      if v < w {
        SurrogateOrder(v, w);
      } else {
        SurrogateOrder(w, v);
      }
      if cu[0] == du[0] {
        assert cu[1..][0] == cu[1] && du[1..][0] == du[1];
      }
    }
  }

  /** `Le` is exactly JavaScript's comparison of the UTF-16 encodings. */
  lemma {:induction false} LeIsCodeUnitOrder(a: string, b: string)
    ensures Le(a, b) <==> LeUnits(Utf16(a), Utf16(b))
    decreases |a|
  {
    if a != [] && b != [] {
      UnitsStep(a[0], b[0], Utf16(a[1..]), Utf16(b[1..]));
      LeIsCodeUnitOrder(a[1..], b[1..]);
    }
  }

  predicate Lt(a: string, b: string)
  {
    Le(a, b) && a != b
  }

  predicate Sorted(s: seq<string>)
  {
    forall i, j :: 0 <= i < j < |s| ==> Le(s[i], s[j])
  }

  predicate StrictlySorted(s: seq<string>)
  {
    forall i, j :: 0 <= i < j < |s| ==> Lt(s[i], s[j])
  }

  lemma {:induction false} LeTotalAt(a: string, b: string)
    ensures Le(a, b) || Le(b, a)
    decreases |a|
  {
    if a != [] && b != [] {
      if a[0] == b[0] {
        LeTotalAt(a[1..], b[1..]);
      } else {
        UnitRankInjective(a[0], b[0]);
      }
    }
  }

  lemma {:induction false} LeReflexive(a: string)
    ensures Le(a, a)
    decreases |a|
  {
    if a != [] {
      LeReflexive(a[1..]);
    }
  }

  lemma {:induction false} LeAntisymmetricAt(a: string, b: string)
    requires Le(a, b) && Le(b, a)
    ensures a == b
    decreases |a|
  {
    if a != [] {
      LeAntisymmetricAt(a[1..], b[1..]);
      assert a == [a[0]] + a[1..] && b == [b[0]] + b[1..];
    }
  }

  lemma {:induction false} LeTransitiveAt(a: string, b: string, c: string)
    requires Le(a, b) && Le(b, c)
    ensures Le(a, c)
    decreases |a|
  {
    if a != [] && a[0] == b[0] && b[0] == c[0] {
      LeTransitiveAt(a[1..], b[1..], c[1..]);
    }
  }

  /** An emoji sorts before a full-width letter, although its scalar value is the larger one:
      its high surrogate 0xD83D is below 0xFF26. */
  lemma {:induction false} AstralBeforeFullwidth()
    ensures Lt("\U{1F600} Labs", "\U{FF26}\U{FF4F}\U{FF4F}")
  {
  }

  /** `Le` is a total order, so sorting by it has a unique answer. */
  lemma {:induction false} LeIsTotalOrder()
    ensures forall a, b :: Le(a, b) || Le(b, a)
    ensures forall a, b :: Le(a, b) && Le(b, a) ==> a == b
    ensures forall a, b, c :: Le(a, b) && Le(b, c) ==> Le(a, c)
  {
    forall a, b ensures Le(a, b) || Le(b, a) { LeTotalAt(a, b); }
    forall a, b | Le(a, b) && Le(b, a) ensures a == b { LeAntisymmetricAt(a, b); }
    forall a, b, c | Le(a, b) && Le(b, c) ensures Le(a, c) { LeTransitiveAt(a, b, c); }
  }

  function Insert(s: seq<string>, x: string): (r: seq<string>)
    requires Sorted(s)
    ensures Sorted(r)
    ensures multiset(r) == multiset(s) + multiset{x}
  {
    if s == [] then [x]
    else if Le(x, s[0]) then
      LeBelowSorted(x, s);
      [x] + s
    else
      assert s == [s[0]] + s[1..];
      var rest := Insert(s[1..], x);
      LeTotalAt(x, s[0]);
      HeadBelowInsert(s, x, rest);
      [s[0]] + rest
  }

  lemma {:induction false} LeBelowSorted(x: string, s: seq<string>)
    requires Sorted(s) && s != [] && Le(x, s[0])
    ensures forall k :: 0 <= k < |s| ==> Le(x, s[k])
  {
    forall k | 0 < k < |s| ensures Le(x, s[k]) {
      LeTransitiveAt(x, s[0], s[k]);
    }
  }

  lemma {:induction false} HeadBelowInsert(s: seq<string>, x: string, rest: seq<string>)
    requires Sorted(s) && s != [] && Le(s[0], x) && Sorted(rest)
    requires multiset(rest) == multiset(s[1..]) + multiset{x}
    ensures Sorted([s[0]] + rest)
  {
    forall k | 0 <= k < |rest| ensures Le(s[0], rest[k]) {
      assert rest[k] in multiset(rest);
      if rest[k] != x {
        assert rest[k] in s[1..];
      }
    }
  }

  /** `Array.prototype.sort()` with the default comparator. */
  function Sort(s: seq<string>): (r: seq<string>)
    ensures Sorted(r)
    ensures multiset(r) == multiset(s)
  {
    if s == [] then [] else
    assert s == s[..|s| - 1] + [s[|s| - 1]];
    Insert(Sort(s[..|s| - 1]), s[|s| - 1])
  }

  lemma {:induction false} NoDupsMultiset(s: seq<string>)
    ensures NoDups(s) <==> forall x :: multiset(s)[x] <= 1
  {
    if s != [] {
      NoDupsMultiset(s[1..]);
      assert s == [s[0]] + s[1..];
      if NoDups(s) {
        assert s[0] !in s[1..];
        assert NoDups(s[1..]);
      }
      if forall x :: multiset(s)[x] <= 1 {
        assert forall x :: multiset(s[1..])[x] <= 1 by {
          forall x ensures multiset(s[1..])[x] <= 1 {
            assert multiset(s)[x] == multiset([s[0]])[x] + multiset(s[1..])[x];
          }
        }
        assert multiset(s)[s[0]] == 1 + multiset(s[1..])[s[0]];
        assert s[0] !in s[1..];
        forall i, j | 0 <= i < j < |s| ensures s[i] != s[j] {
          if i > 0 {
            assert s[i] == s[1..][i - 1] && s[j] == s[1..][j - 1];
          } else {
            assert s[j] in s[1..];
          }
        }
      }
    }
  }

  /** Sorting a duplicate-free list gives a strictly ascending one. */
  lemma {:induction false} SortDistinct(s: seq<string>)
    requires NoDups(s)
    ensures StrictlySorted(Sort(s))
  {
    var r := Sort(s);
    NoDupsMultiset(s);
    NoDupsMultiset(r);
  }

  /** Two strictly ascending lists with the same elements are the same list. */
  lemma {:induction false} StrictlySortedUnique(a: seq<string>, b: seq<string>)
    requires StrictlySorted(a) && StrictlySorted(b)
    requires forall x :: x in a <==> x in b
    ensures a == b
  {
    assert a == [] <==> b == [] by {
      if a != [] { assert a[0] in a; }
      if b != [] { assert b[0] in b; }
    }
    if a != [] {
      assert a[0] in a && b[0] in b;
      var i := IndexOf(b, a[0]);
      var j := IndexOf(a, b[0]);
      LeReflexive(a[0]);
      assert Le(b[0], a[0]) by { if i > 0 { assert Lt(b[0], b[i]); } }
      assert Le(a[0], b[0]) by { if j > 0 { assert Lt(a[0], a[j]); } }
      LeAntisymmetricAt(a[0], b[0]);
      assert forall x :: x in a[1..] <==> x in a && x != a[0];
      assert forall x :: x in b[1..] <==> x in b && x != b[0];
      StrictlySortedUnique(a[1..], b[1..]);
      assert a == [a[0]] + a[1..] && b == [b[0]] + b[1..];
    }
  }

  // ---- ASCII case folding -------------------------------------------------------------

  function LowerChar(c: char): char
  {
    if 'A' <= c <= 'Z' then (c as int + 32) as char else c
  }

  /** `toLowerCase()` restricted to ASCII letters: same length, every letter folded. */
  function Lower(s: string): (r: string)
    ensures |r| == |s|
    ensures forall i :: 0 <= i < |s| ==> r[i] == LowerChar(s[i])
    ensures forall i :: 0 <= i < |s| ==> !('A' <= r[i] <= 'Z')
  {
    seq(|s|, i requires 0 <= i < |s| => LowerChar(s[i]))
  }

  lemma {:induction false} LowerIdempotent(s: string)
    ensures Lower(Lower(s)) == Lower(s)
  {
  }

  // ---- substring search -----------------------------------------------------------------

  predicate StartsWith(s: string, prefix: string)
  {
    |prefix| <= |s| && s[..|prefix|] == prefix
  }

  /** `s.includes(needle)`. */
  predicate Contains(s: string, needle: string)
    decreases |s|
  {
    StartsWith(s, needle) || (s != [] && Contains(s[1..], needle))
  }

  /** `needle` occurs in `s` starting at position `k`. */
  predicate OccursAt(s: string, needle: string, k: int)
  {
    0 <= k && k + |needle| <= |s| && s[k..k + |needle|] == needle
  }

  /** `Contains` finds exactly the positions where `needle` occurs. */
  lemma {:induction false} ContainsAt(s: string, needle: string)
    ensures Contains(s, needle) <==> exists k :: OccursAt(s, needle, k)
    decreases |s|
  {
    if StartsWith(s, needle) {
      assert OccursAt(s, needle, 0);
    } else if s != [] {
      ContainsAt(s[1..], needle);
      if Contains(s[1..], needle) {
        var k :| OccursAt(s[1..], needle, k);
        assert s[1..][k..k + |needle|] == s[k + 1..k + 1 + |needle|];
        assert OccursAt(s, needle, k + 1);
      }
      forall k | OccursAt(s, needle, k)
        ensures Contains(s[1..], needle)
      {
        assert k != 0;
        assert s[1..][k - 1..k - 1 + |needle|] == s[k..k + |needle|];
        assert OccursAt(s[1..], needle, k - 1);
      }
    }
  }

  lemma {:induction false} ContainsEmpty(s: string)
    ensures Contains(s, "")
  {
    assert StartsWith(s, "");
  }

  // ---- decimal numerals -----------------------------------------------------------------

  predicate IsDigit(c: char)
  {
    '0' <= c <= '9'
  }

  predicate AllDigits(s: string)
  {
    forall i :: 0 <= i < |s| ==> IsDigit(s[i])
  }

  function DigitValue(c: char): (d: nat)
    requires IsDigit(c)
    ensures d < 10
  {
    c as int - '0' as int
  }

  function DigitChar(d: nat): (c: char)
    requires d < 10
    ensures IsDigit(c) && DigitValue(c) == d
  {
    ('0' as int + d) as char
  }

  /** The number a string of decimal digits denotes. */
  function DecimalValue(s: string): nat
    requires AllDigits(s)
  {
    if s == [] then 0 else 10 * DecimalValue(s[..|s| - 1]) + DigitValue(s[|s| - 1])
  }

  lemma {:induction false} DecimalValueSnoc(s: string, c: char)
    requires AllDigits(s) && IsDigit(c)
    ensures AllDigits(s + [c])
    ensures DecimalValue(s + [c]) == 10 * DecimalValue(s) + DigitValue(c)
  {
    assert (s + [c])[..|s|] == s;
  }

  lemma {:induction false} DecimalValueOf2(s: string)
    requires |s| == 2 && AllDigits(s)
    ensures DecimalValue(s) == 10 * DigitValue(s[0]) + DigitValue(s[1])
  {
    DecimalValueSnoc([], s[0]);
    assert [] + [s[0]] == [s[0]];
    DecimalValueSnoc([s[0]], s[1]);
    assert [s[0]] + [s[1]] == s;
  }

  /** `${n}`: the shortest decimal numeral for `n`, without leading zeros. */
  function NatToDecimal(n: nat): (r: string)
    ensures |r| >= 1 && AllDigits(r)
    ensures r[0] == '0' ==> r == "0"
    ensures DecimalValue(r) == n
  {
    if n < 10 then [DigitChar(n)]
    else
      var prefix := NatToDecimal(n / 10);
      var r := prefix + [DigitChar(n % 10)];
      assert r[..|r| - 1] == prefix;
      r
  }
}
