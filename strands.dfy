/**
 * A yarn's strand as a sequence of loop ids: the successor and predecessor links of
 * the yarn's list-shaped graph, and the two splices that insert a loop next to a
 * neighbour.
 */
module Strands {
  import opened Basics
  import opened PyLists

  /** The loop the strand links `x` to, if any. */
  function NextOn(s: seq<int>, x: int): (r: Option<int>)
    ensures r.Some? ==> r.value in s
  {
    match IndexOf(s, x)
    case None => None
    case Some(k) => if k + 1 < |s| then Some(s[k + 1]) else None
  }

  /** The loop the strand links to `x`, if any. */
  function PrevOn(s: seq<int>, x: int): (r: Option<int>)
    ensures r.Some? ==> r.value in s
  {
    match IndexOf(s, x)
    case None => None
    case Some(k) => if k > 0 then Some(s[k - 1]) else None
  }

  /** The strand with `x` spliced in right after position `k`. */
  function SpliceAfter(s: seq<int>, k: nat, x: int): (t: seq<int>)
    requires k < |s|
    ensures |t| == |s| + 1
  {
    s[..k + 1] + [x] + s[k + 1..]
  }

  /** The strand with `x` spliced in right before position `k`. */
  function SpliceBefore(s: seq<int>, k: nat, x: int): (t: seq<int>)
    requires k < |s|
    ensures |t| == |s| + 1
  {
    s[..k] + [x] + s[k..]
  }

  /** The links of a distinct strand, read by position. */
  lemma LinksAt(s: seq<int>, k: nat)
    requires Distinct(s) && k < |s|
    ensures NextOn(s, s[k]) == if k + 1 < |s| then Some(s[k + 1]) else None
    ensures PrevOn(s, s[k]) == if k > 0 then Some(s[k - 1]) else None
  {
    IndexOfAt(s, s[k], k);
  }

  lemma NotOnStrand(s: seq<int>, x: int)
    requires x !in s
    ensures NextOn(s, x).None? && PrevOn(s, x).None?
  {
  }

  /** Where the old loops sit after splicing `x` in at position `m`. */
  lemma SplicedAt(s: seq<int>, m: nat, x: int, t: seq<int>)
    requires Distinct(s) && m <= |s| && x !in s
    requires t == s[..m] + [x] + s[m..]
    ensures Distinct(t) && |t| == |s| + 1 && t[m] == x
    ensures forall i :: 0 <= i < m ==> t[i] == s[i]
    ensures forall i :: m <= i < |s| ==> t[i + 1] == s[i]
  {
    forall i, j | 0 <= i < j < |t| ensures t[i] != t[j] {
      if j == m {
        assert t[i] in s;
      } else if i == m {
        assert t[j] in s;
      } else {
        var i' := if i < m then i else i - 1;
        var j' := if j < m then j else j - 1;
        assert t[i] == s[i'] && t[j] == s[j'];
      }
    }
  }

  /** A link from an old loop survives the splice unless the new loop lands right after it. */
  lemma {:induction false} SpliceKeepsNext(s: seq<int>, m: nat, x: int, y: int)
    requires Distinct(s) && m <= |s| && x !in s && y != x
    requires !(m > 0 && y == s[m - 1])
    ensures NextOn(s[..m] + [x] + s[m..], y) == NextOn(s, y)
  {
    var t := s[..m] + [x] + s[m..];
    SplicedAt(s, m, x, t);
    if y in s {
      var i := IndexOf(s, y).value;
      LinksAt(s, i);
      if i < m {
        assert t[i] == y;
        LinksAt(t, i);
        assert i + 1 < m;
        assert t[i + 1] == s[i + 1];
      } else {
        assert t[i + 1] == y;
        LinksAt(t, i + 1);
        if i + 1 < |s| {
          assert t[i + 2] == s[i + 1];
        }
      }
    } else {
      assert y !in t;
      NotOnStrand(s, y);
      NotOnStrand(t, y);
    }
  }

  /** A link into an old loop survives the splice unless the new loop lands right before it. */
  lemma {:induction false} SpliceKeepsPrev(s: seq<int>, m: nat, x: int, y: int)
    requires Distinct(s) && m <= |s| && x !in s && y != x
    requires !(m < |s| && y == s[m])
    ensures PrevOn(s[..m] + [x] + s[m..], y) == PrevOn(s, y)
  {
    var t := s[..m] + [x] + s[m..];
    SplicedAt(s, m, x, t);
    if y in s {
      var i := IndexOf(s, y).value;
      LinksAt(s, i);
      if i < m {
        assert t[i] == y;
        LinksAt(t, i);
        if i > 0 {
          assert t[i - 1] == s[i - 1];
        }
      } else {
        assert i > m;
        assert t[i + 1] == y;
        LinksAt(t, i + 1);
        assert t[i] == s[i - 1];
      }
    } else {
      assert y !in t;
      NotOnStrand(s, y);
      NotOnStrand(t, y);
    }
  }

  /** The new loop's own links after the splice at position `m`. */
  lemma {:induction false} SpliceNewLinks(s: seq<int>, m: nat, x: int)
    requires Distinct(s) && m <= |s| && x !in s
    ensures var t := s[..m] + [x] + s[m..];
      && NextOn(t, x) == (if m < |s| then Some(s[m]) else None)
      && PrevOn(t, x) == (if m > 0 then Some(s[m - 1]) else None)
      && (m > 0 ==> NextOn(t, s[m - 1]) == Some(x))
      && (m < |s| ==> PrevOn(t, s[m]) == Some(x))
  {
    var t := s[..m] + [x] + s[m..];
    SplicedAt(s, m, x, t);
    LinksAt(t, m);
    if m > 0 {
      LinksAt(t, m - 1);
    }
    if m < |s| {
      LinksAt(t, m + 1);
    }
  }

  /**
   * Inserting after the neighbour at position `k`: the neighbour now links to the new
   * loop, the new loop links to the neighbour's old successor, and every other link is
   * unchanged.
   */
  lemma SpliceAfterLinks(s: seq<int>, k: nat, x: int)
    requires Distinct(s) && k < |s| && x !in s
    ensures var t := SpliceAfter(s, k, x);
      && Distinct(t)
      && NextOn(t, s[k]) == Some(x)
      && PrevOn(t, x) == Some(s[k])
      && NextOn(t, x) == NextOn(s, s[k])
      && (NextOn(s, s[k]).Some? ==> PrevOn(t, NextOn(s, s[k]).value) == Some(x))
      && (forall y :: y != s[k] && y != x ==> NextOn(t, y) == NextOn(s, y))
      && (forall y :: y != x && Some(y) != NextOn(s, s[k]) ==> PrevOn(t, y) == PrevOn(s, y))
  {
    var t := SpliceAfter(s, k, x);
    assert t == s[..k + 1] + [x] + s[k + 1..];
    SplicedAt(s, k + 1, x, t);
    SpliceNewLinks(s, k + 1, x);
    LinksAt(s, k);
    forall y | y != s[k] && y != x ensures NextOn(t, y) == NextOn(s, y) {
      SpliceKeepsNext(s, k + 1, x, y);
    }
    forall y | y != x && Some(y) != NextOn(s, s[k]) ensures PrevOn(t, y) == PrevOn(s, y) {
      SpliceKeepsPrev(s, k + 1, x, y);
    }
  }

  /**
   * Inserting before the neighbour at position `k`: the new loop links to the
   * neighbour, the neighbour's old predecessor links to the new loop, and every other
   * link is unchanged.
   */
  lemma SpliceBeforeLinks(s: seq<int>, k: nat, x: int)
    requires Distinct(s) && k < |s| && x !in s
    ensures var t := SpliceBefore(s, k, x);
      && Distinct(t)
      && NextOn(t, x) == Some(s[k])
      && PrevOn(t, s[k]) == Some(x)
      && PrevOn(t, x) == PrevOn(s, s[k])
      && (PrevOn(s, s[k]).Some? ==> NextOn(t, PrevOn(s, s[k]).value) == Some(x))
      && (forall y :: y != x && Some(y) != PrevOn(s, s[k]) ==> NextOn(t, y) == NextOn(s, y))
      && (forall y :: y != s[k] && y != x ==> PrevOn(t, y) == PrevOn(s, y))
  {
    var t := SpliceBefore(s, k, x);
    SplicedAt(s, k, x, t);
    SpliceNewLinks(s, k, x);
    LinksAt(s, k);
    forall y | y != x && Some(y) != PrevOn(s, s[k]) ensures NextOn(t, y) == NextOn(s, y) {
      SpliceKeepsNext(s, k, x, y);
    }
    forall y | y != s[k] && y != x ensures PrevOn(t, y) == PrevOn(s, y) {
      SpliceKeepsPrev(s, k, x, y);
    }
  }
}
