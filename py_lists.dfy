/**
 * Python list semantics the knit graph code relies on: `list.insert`, indexing with
 * negative positions, `list.index`, dictionary-key insertion order and `sorted`,
 * plus the sequence vocabulary (ranges, flattening) the rest of the model uses.
 */
module PyLists {
  import opened Basics

  predicate Distinct<T(==)>(s: seq<T>) {
    forall i, j :: 0 <= i < j < |s| ==> s[i] != s[j]
  }

  /** The two lists hold the same elements, ignoring order and repetition. */
  ghost predicate SameElements(a: seq<int>, b: seq<int>) {
    forall x :: x in a <==> x in b
  }

  predicate StrictlyIncreasing(s: seq<int>) {
    forall i, j :: 0 <= i < j < |s| ==> s[i] < s[j]
  }

  predicate NonDecreasing(s: seq<int>) {
    forall i, j :: 0 <= i < j < |s| ==> s[i] <= s[j]
  }

  /** The lo, lo+1, ..., hi-1 of Python's `range(lo, hi)`. */
  function Range(lo: int, hi: int): (r: seq<int>)
    ensures |r| == if hi < lo then 0 else hi - lo
    ensures forall i :: 0 <= i < |r| ==> r[i] == lo + i
  {
    if hi <= lo then [] else seq(hi - lo, i => lo + i)
  }

  lemma RangeFacts(lo: int, hi: int)
    ensures StrictlyIncreasing(Range(lo, hi))
    ensures forall x :: x in Range(lo, hi) <==> lo <= x < hi
  {
    var r := Range(lo, hi);
    forall x | lo <= x < hi ensures x in r {
      assert r[x - lo] == x;
    }
  }

  /** Extending a range by its next element. */
  lemma RangeSnoc(lo: int, hi: int)
    requires lo <= hi
    ensures Range(lo, hi) + [hi] == Range(lo, hi + 1)
  {
  }

  /** One more id at the end of a range, the range given by its first id and its size. */
  lemma RangeNext(lo: int, i: nat, j: nat)
    requires j == i + 1
    ensures Range(lo, lo + j) == Range(lo, lo + i) + [lo + i]
  {
    RangeSnoc(lo, lo + i);
  }

  lemma RangeStep(lo: int, hi: int, hi': int)
    requires lo <= hi && hi' == hi + 1
    ensures Range(lo, hi') == Range(lo, hi) + [hi]
  {
    RangeSnoc(lo, hi);
  }

  lemma RangeLength(lo: int, i: nat)
    ensures |Range(lo, lo + i)| == i
  {
  }

  // ---------------------------------------------------------------------------
  // list.insert(i, x)

  /** Where `list.insert(i, x)` puts `x` in a list of length `n`: a negative `i`
      counts from the end, and a position outside the list is clamped to it. */
  function InsertionIndex(n: nat, i: int): (k: nat)
    ensures k <= n
  {
    if i < 0 then (if n + i < 0 then 0 else n + i) else if i > n then n else i
  }

  /** The list after `s.insert(i, x)`. */
  function Insert<T>(s: seq<T>, i: int, x: T): (r: seq<T>)
    ensures |r| == |s| + 1
    ensures r[InsertionIndex(|s|, i)] == x
  {
    var k := InsertionIndex(|s|, i);
    s[..k] + [x] + s[k..]
  }

  function RemoveAt<T>(s: seq<T>, k: nat): (r: seq<T>)
    requires k < |s|
    ensures |r| == |s| - 1
  {
    s[..k] + s[k + 1..]
  }

  /** Inserting shifts the later elements one place and keeps the order of the old ones. */
  lemma InsertShifts<T>(s: seq<T>, i: int, x: T)
    ensures var r, k := Insert(s, i, x), InsertionIndex(|s|, i);
      && (forall j :: 0 <= j < k ==> r[j] == s[j])
      && (forall j :: k <= j < |s| ==> r[j + 1] == s[j])
      && RemoveAt(r, k) == s
      && multiset(r) == multiset(s) + multiset{x}
  {
    var r, k := Insert(s, i, x), InsertionIndex(|s|, i);
    assert r == s[..k] + [x] + s[k..];
    assert RemoveAt(r, k) == s[..k] + s[k..];
    assert s[..k] + s[k..] == s;
    calc {
      multiset(r);
      multiset(s[..k]) + multiset{x} + multiset(s[k..]);
      { assert s == s[..k] + s[k..]; }
      multiset(s) + multiset{x};
    }
  }

  /** Python's `insert` with an index at or past the end appends. */
  lemma InsertPastEndAppends<T>(s: seq<T>, i: int, x: T)
    requires i >= |s|
    ensures Insert(s, i, x) == s + [x]
  {
  }

  // ---------------------------------------------------------------------------
  // indexing and list.index

  /** `s[i]`, which raises `IndexError` (here: None) outside `-|s| <= i < |s|`. */
  function At<T>(s: seq<T>, i: int): (r: Option<T>)
    ensures r.Some? <==> -|s| <= i < |s|
  {
    if 0 <= i < |s| then Some(s[i])
    else if -|s| <= i < 0 then Some(s[|s| + i])
    else None
  }

  /** `s.index(x)`: the first position holding `x`; `ValueError` (here: None) when absent. */
  function IndexOf<T(==)>(s: seq<T>, x: T): (r: Option<nat>)
    ensures r.None? <==> x !in s
    ensures r.Some? ==> r.value < |s| && s[r.value] == x && x !in s[..r.value]
  {
    if s == [] then None
    else if s[0] == x then Some(0)
    else
      match IndexOf(s[1..], x)
      case None => None
      case Some(k) =>
        assert s[1..][..k] == s[1..k + 1];
        assert s[..k + 1] == [s[0]] + s[1..k + 1];
        Some(k + 1)
  }

  /** `index` and indexing undo each other. */
  lemma {:induction false} IndexOfAt<T>(s: seq<T>, x: T, k: int)
    ensures IndexOf(s, x) == Some(k) ==> At(s, k) == Some(x)
    ensures 0 <= k < |s| && s[k] == x ==> IndexOf(s, x).Some? && IndexOf(s, x).value <= k
    ensures Distinct(s) && 0 <= k < |s| ==> IndexOf(s, s[k]) == Some(k)
  {
    if Distinct(s) && 0 <= k < |s| {
      var j := IndexOf(s, s[k]).value;
      assert s[j] == s[k];
    }
    if 0 <= k < |s| && s[k] == x {
      var j := IndexOf(s, x).value;
    }
  }

  // ---------------------------------------------------------------------------
  // dictionary keys in insertion order

  /** The keys of a dict after `d[x] = ...`: a new key goes last, an old one keeps its place. */
  function AppendNew(s: seq<int>, x: int): (r: seq<int>)
    ensures forall y :: y in r <==> y in s || y == x
    ensures |r| >= |s| && r[..|s|] == s
  {
    if x in s then s else s + [x]
  }

  /** A new key keeps the keys without repeats. */
  lemma AppendNewDistinct(s: seq<int>, x: int)
    requires Distinct(s)
    ensures Distinct(AppendNew(s, x))
  {
  }

  // ---------------------------------------------------------------------------
  // flattening a list of rows

  function Flatten<T>(rows: seq<seq<T>>): seq<T>
  {
    if rows == [] then [] else Flatten(rows[..|rows| - 1]) + rows[|rows| - 1]
  }

  /** A list without repeats has as many distinct elements as entries. */
  lemma {:induction false} DistinctElements(s: seq<int>)
    requires Distinct(s)
    ensures |set x | x in s| == |s|
  {
    if s != [] {
      var t := s[..|s| - 1];
      var x := s[|s| - 1];
      assert Distinct(t);
      DistinctElements(t);
      assert s == t + [x];
      assert x !in t;
      assert (set y | y in s) == (set y | y in t) + {x};
    }
  }

  /** Dropping the last row drops its loops from the end. */
  lemma FlattenSnoc<T>(rows: seq<seq<T>>, row: seq<T>)
    ensures Flatten(rows + [row]) == Flatten(rows) + row
  {
    assert (rows + [row])[..|rows|] == rows;
  }

  lemma FlattenPrefix<T>(rows: seq<seq<T>>, m: nat)
    requires 0 < m <= |rows|
    ensures Flatten(rows[..m]) == Flatten(rows[..m - 1]) + rows[m - 1]
  {
    assert rows[..m][..m - 1] == rows[..m - 1];
  }

  lemma {:induction false} FlattenAppend<T>(a: seq<seq<T>>, b: seq<seq<T>>)
    ensures Flatten(a + b) == Flatten(a) + Flatten(b)
    decreases |b|
  {
    if b == [] {
      assert a + b == a;
    } else {
      var b' := b[..|b| - 1];
      var last := b[|b| - 1];
      assert (a + b)[..|a + b| - 1] == a + b' && (a + b)[|a + b| - 1] == last;
      assert Flatten(a + b) == Flatten(a + b') + last;
      FlattenAppend(a, b');
      assert Flatten(b) == Flatten(b') + last;
    }
  }

  /** Each row is a contiguous slice of the flattened list. */
  lemma {:induction false} FlattenSplit<T>(rows: seq<seq<T>>, k: nat)
    requires k < |rows|
    ensures Flatten(rows) == Flatten(rows[..k]) + rows[k] + Flatten(rows[k + 1..])
  {
    assert rows == rows[..k] + [rows[k]] + rows[k + 1..];
    FlattenAppend(rows[..k] + [rows[k]], rows[k + 1..]);
    FlattenAppend(rows[..k], [rows[k]]);
    assert [rows[k]][..0] == [];
  }

  /** Every row of an ascending flattened list is ascending. */
  lemma RowsOfIncreasing(rows: seq<seq<int>>, k: nat)
    requires k < |rows|
    requires StrictlyIncreasing(Flatten(rows))
    ensures StrictlyIncreasing(rows[k])
  {
    FlattenSplit(rows, k);
    MiddleIncreasing(Flatten(rows[..k]), rows[k], Flatten(rows[k + 1..]));
  }

  lemma MiddleIncreasing(a: seq<int>, m: seq<int>, b: seq<int>)
    requires StrictlyIncreasing(a + m + b)
    ensures StrictlyIncreasing(m)
  {
    var f := a + m + b;
    forall i, j | 0 <= i < j < |m| ensures m[i] < m[j] {
      assert m[i] == f[|a| + i] && m[j] == f[|a| + j];
    }
  }

  // ---------------------------------------------------------------------------
  // sorted(...)

  function InsertSorted(s: seq<int>, x: int): (r: seq<int>)
    requires NonDecreasing(s)
    ensures NonDecreasing(r)
    ensures forall y :: y in r ==> y in s || y == x
    ensures multiset(r) == multiset(s) + multiset{x}
  {
    if s == [] then [x]
    else if x <= s[0] then [x] + s
    else
      var t := InsertSorted(s[1..], x);
      assert s == [s[0]] + s[1..];
      ConsNonDecreasing(s[0], t);
      [s[0]] + t
  }

  lemma ConsNonDecreasing(h: int, t: seq<int>)
    requires NonDecreasing(t)
    requires forall y :: y in t ==> h <= y
    ensures NonDecreasing([h] + t)
  {
    var r := [h] + t;
    forall i, j | 0 <= i < j < |r| ensures r[i] <= r[j] {
      if i > 0 {
        assert r[i] == t[i - 1] && r[j] == t[j - 1];
      } else {
        assert r[j] == t[j - 1] && t[j - 1] in t;
      }
    }
  }

  /** Python's `sorted` on a list of integers. */
  function Sort(s: seq<int>): (r: seq<int>)
    ensures NonDecreasing(r)
    ensures multiset(r) == multiset(s)
  {
    if s == [] then []
    else
      assert s == s[..|s| - 1] + [s[|s| - 1]];
      InsertSorted(Sort(s[..|s| - 1]), s[|s| - 1])
  }

  /** Sorting distinct ids gives a strictly ascending list of the same ids. */
  lemma SortDistinct(s: seq<int>)
    requires Distinct(s)
    ensures StrictlyIncreasing(Sort(s))
    ensures forall x :: x in Sort(s) <==> x in s
  {
    var r := Sort(s);
    assert forall x :: x in r <==> x in multiset(r);
    assert forall x :: x in s <==> x in multiset(s);
    forall i, j | 0 <= i < j < |r| ensures r[i] < r[j] {
      if r[i] == r[j] {
        DuplicateCount(r, i, j);
        DistinctCount(s, r[i]);
      }
    }
  }

  lemma DuplicateCount(r: seq<int>, i: nat, j: nat)
    requires i < j < |r| && r[i] == r[j]
    ensures multiset(r)[r[i]] >= 2
  {
    assert r == r[..i] + [r[i]] + r[i + 1..j] + [r[j]] + r[j + 1..];
  }

  lemma {:induction false} DistinctCount(s: seq<int>, x: int)
    requires Distinct(s)
    ensures multiset(s)[x] <= 1
  {
    if s != [] {
      var t := s[..|s| - 1];
      assert s == t + [s[|s| - 1]];
      assert Distinct(t);
      DistinctCount(t, x);
      if x == s[|s| - 1] {
        assert x !in t;
      }
    }
  }

  /** `sorted` leaves an already ascending list as it is. */
  lemma {:induction false} SortIncreasing(s: seq<int>)
    requires StrictlyIncreasing(s)
    ensures Sort(s) == s
  {
    if s != [] {
      var t := s[..|s| - 1];
      SortIncreasing(t);
      InsertSortedLast(t, s[|s| - 1]);
      assert t + [s[|s| - 1]] == s;
    }
  }

  lemma {:induction false} InsertSortedLast(s: seq<int>, x: int)
    requires StrictlyIncreasing(s)
    requires forall y :: y in s ==> y < x
    ensures InsertSorted(s, x) == s + [x]
  {
    if s != [] {
      var t := s[1..];
      assert s[0] in s;
      forall i, j | 0 <= i < j < |t| ensures t[i] < t[j] {
        assert t[i] == s[i + 1] && t[j] == s[j + 1];
      }
      forall y | y in t ensures y < x {
        assert y in s;
      }
      InsertSortedLast(t, x);
      assert s == [s[0]] + t;
      assert [s[0]] + (t + [x]) == s + [x];
    }
  }

  // ---------------------------------------------------------------------------
  // str of an int

  predicate IsDigit(c: char) {
    '0' as int <= c as int <= '9' as int
  }

  function Digit(d: nat): (c: char)
    requires d < 10
    ensures IsDigit(c) && (c as int) - ('0' as int) == d
  {
    ('0' as int + d) as char
  }

  /** The decimal digits of a natural number, most significant first, with no leading zero. */
  function NatStr(n: nat): (s: string)
    ensures |s| >= 1 && forall i :: 0 <= i < |s| ==> IsDigit(s[i])
    ensures |s| > 1 ==> s[0] != '0'
  {
    if n < 10 then [Digit(n)] else NatStr(n / 10) + [Digit(n % 10)]
  }

  /** Python's `str(n)` for an int: its decimal digits, after a '-' when negative. */
  function Str(n: int): (s: string)
    ensures s != [] && (n < 0 <==> s[0] == '-')
  {
    if n < 0 then "-" + NatStr(-n) else NatStr(n)
  }

  /** The value of a string of decimal digits. */
  function DigitsValue(s: string): nat
    requires forall i :: 0 <= i < |s| ==> IsDigit(s[i])
  {
    if s == [] then 0 else DigitsValue(s[..|s| - 1]) * 10 + DigitValue(s[|s| - 1])
  }

  function DigitValue(c: char): (d: nat)
    requires IsDigit(c)
    ensures d < 10
  {
    (c as int) - ('0' as int)
  }

  /** Reading back the digits gives the number. */
  lemma {:induction false} NatStrRoundTrip(n: nat)
    ensures DigitsValue(NatStr(n)) == n
  {
    if n >= 10 {
      NatStrRoundTrip(n / 10);
      var s := NatStr(n);
      assert s[..|s| - 1] == NatStr(n / 10);
    }
  }

  /** `int(str(n)) == n`: the sign and the digits give the number back. */
  lemma StrRoundTrip(n: int)
    ensures var s := Str(n);
      if n < 0 then s[1..] == NatStr(-n) && DigitsValue(s[1..]) == -n
      else s == NatStr(n) && DigitsValue(s) == n
  {
    if n < 0 {
      NatStrRoundTrip(-n);
      assert Str(n)[1..] == NatStr(-n);
    } else {
      NatStrRoundTrip(n);
    }
  }
}
