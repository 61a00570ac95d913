/**
 * The single ascending pass of `get_courses`, as a function of the sorted loop ids and
 * each loop's graph predecessors. A loop joins the open course unless one of its
 * predecessors is already in it, in which case the open course is closed and the loop
 * starts the next one.
 */
module CoursePartition {
  import opened PyLists

  /** The courses closed so far and the course still open. */
  datatype PassState = PassState(closed: seq<seq<int>>, open: seq<int>)

  /** Some graph predecessor of `x` is a member of `course`. */
  predicate HasParentIn(preds: map<int, seq<int>>, x: int, course: seq<int>) {
    x in preds && exists p :: p in preds[x] && p in course
  }

  /** No loop has a predecessor among the loops placed before it in its own course. */
  ghost predicate NoEarlierParent(rows: seq<seq<int>>, preds: map<int, seq<int>>) {
    forall k :: 0 <= k < |rows| ==> RowNoEarlierParent(rows[k], preds)
  }

  /** No loop of the course has a predecessor among the loops before it. */
  ghost predicate RowNoEarlierParent(row: seq<int>, preds: map<int, seq<int>>) {
    forall i :: 0 <= i < |row| ==> !HasParentIn(preds, row[i], row[..i])
  }

  /** Reading the predecessors through another map with the same elements changes nothing. */
  lemma NoEarlierParentSameElements(rows: seq<seq<int>>, preds: map<int, seq<int>>, other: map<int, seq<int>>)
    requires forall x :: x in preds <==> x in other
    requires forall x :: x in preds ==> SameElements(preds[x], other[x])
    ensures NoEarlierParent(rows, preds) <==> NoEarlierParent(rows, other)
  {
    forall k, i | 0 <= k < |rows| && 0 <= i < |rows[k]|
      ensures HasParentIn(preds, rows[k][i], rows[k][..i]) <==> HasParentIn(other, rows[k][i], rows[k][..i])
    {
      var x := rows[k][i];
      if x in preds {
        assert forall p :: p in preds[x] <==> p in other[x];
      }
    }
  }

  /** The state of the pass after visiting `ids` in order. */
  function Scan(ids: seq<int>, preds: map<int, seq<int>>): PassState
    decreases |ids|
  {
    if ids == [] then PassState([], [])
    else
      var s := Scan(ids[..|ids| - 1], preds);
      var x := ids[|ids| - 1];
      if HasParentIn(preds, x, s.open) then PassState(s.closed + [s.open], [x])
      else PassState(s.closed, s.open + [x])
  }

  /** The courses `get_courses` returns, as lists of loop ids. */
  function Partition(ids: seq<int>, preds: map<int, seq<int>>): seq<seq<int>> {
    var s := Scan(ids, preds);
    s.closed + [s.open]
  }

  /** Every loop ends up in some course, in visiting order, exactly once. */
  lemma {:induction false} ScanCovers(ids: seq<int>, preds: map<int, seq<int>>)
    ensures Flatten(Scan(ids, preds).closed) + Scan(ids, preds).open == ids
    decreases |ids|
  {
    if ids != [] {
      var pre := ids[..|ids| - 1];
      var s := Scan(pre, preds);
      var x := ids[|ids| - 1];
      ScanCovers(pre, preds);
      assert ids == pre + [x];
      if HasParentIn(preds, x, s.open) {
        FlattenAppend(s.closed, [s.open]);
        assert [s.open][..0] == [];
      }
    }
  }

  /** The courses, concatenated, are the visited ids. */
  lemma PartitionCovers(ids: seq<int>, preds: map<int, seq<int>>)
    ensures Flatten(Partition(ids, preds)) == ids
  {
    var s := Scan(ids, preds);
    ScanCovers(ids, preds);
    FlattenAppend(s.closed, [s.open]);
    assert [s.open][..0] == [];
  }

  /** With no loops the pass still returns one (empty) course. */
  lemma PartitionOfNothing(preds: map<int, seq<int>>)
    ensures Partition([], preds) == [[]]
  {
  }

  /**
   * The invariants of the pass: the open course is empty only before the first loop,
   * every closed course and the open one are non-empty, each course after the first
   * begins with a loop that has a predecessor in the course before it, and no loop has
   * a predecessor among the loops placed before it in its own course.
   */
  ghost predicate PassInvariant(s: PassState, preds: map<int, seq<int>>, started: bool) {
    var rows := s.closed + [s.open];
    && (started ==> s.open != [])
    && (!started ==> s.closed == [] && s.open == [])
    && (forall k :: 0 <= k < |s.closed| ==> s.closed[k] != [])
    && (forall k :: 1 <= k < |rows| ==> rows[k] != [] && HasParentIn(preds, rows[k][0], rows[k - 1]))
    && NoEarlierParent(rows, preds)
  }

  lemma {:induction false} ScanInvariant(ids: seq<int>, preds: map<int, seq<int>>)
    ensures PassInvariant(Scan(ids, preds), preds, ids != [])
    decreases |ids|
  {
    if ids != [] {
      var pre := ids[..|ids| - 1];
      var s := Scan(pre, preds);
      var x := ids[|ids| - 1];
      ScanInvariant(pre, preds);
      var rows := s.closed + [s.open];
      if HasParentIn(preds, x, s.open) {
        var t := PassState(s.closed + [s.open], [x]);
        var rows' := t.closed + [t.open];
        assert rows' == rows + [[x]];
        assert s.open != [];
        forall k, i | 0 <= k < |rows'| && 0 <= i < |rows'[k]|
          ensures !HasParentIn(preds, rows'[k][i], rows'[k][..i])
        {
          if k == |rows| {
            assert rows'[k][..i] == [];
          } else {
            assert rows'[k] == rows[k];
          }
        }
        forall k | 1 <= k < |rows'| ensures rows'[k] != [] && HasParentIn(preds, rows'[k][0], rows'[k - 1]) {
          if k < |rows| {
            assert rows'[k] == rows[k] && rows'[k - 1] == rows[k - 1];
          } else {
            assert rows'[k - 1] == s.open;
          }
        }
      } else {
        var t := PassState(s.closed, s.open + [x]);
        var rows' := t.closed + [t.open];
        var last := |rows| - 1;
        assert rows[last] == s.open;
        assert rows' == rows[..last] + [s.open + [x]];
        forall k, i | 0 <= k < |rows'| && 0 <= i < |rows'[k]|
          ensures !HasParentIn(preds, rows'[k][i], rows'[k][..i])
        {
          if k < last {
            assert rows'[k] == rows[k];
          } else if i < |s.open| {
            assert rows'[k][..i] == s.open[..i];
            assert rows'[k][i] == s.open[i];
          } else {
            assert rows'[k][..i] == s.open;
          }
        }
        forall k | 1 <= k < |rows'| ensures rows'[k] != [] && HasParentIn(preds, rows'[k][0], rows'[k - 1]) {
          assert rows'[k - 1] == rows[k - 1];
          if k < last {
            assert rows'[k] == rows[k];
          } else {
            assert s.open != [];
            assert rows'[k][0] == s.open[0];
          }
        }
      }
    }
  }

  /** When there are loops, no course is empty. */
  lemma PartitionRowsNonEmpty(ids: seq<int>, preds: map<int, seq<int>>)
    requires ids != []
    ensures forall k :: 0 <= k < |Partition(ids, preds)| ==> Partition(ids, preds)[k] != []
  {
    ScanInvariant(ids, preds);
  }

  /** A new course starts exactly at a loop with a predecessor in the course before it. */
  lemma PartitionBreaks(ids: seq<int>, preds: map<int, seq<int>>)
    ensures var rows := Partition(ids, preds);
      forall k :: 1 <= k < |rows| ==> rows[k] != [] && HasParentIn(preds, rows[k][0], rows[k - 1])
  {
    ScanInvariant(ids, preds);
  }

  /** No loop has a predecessor among the loops placed before it in its course. */
  lemma PartitionNoEarlierParent(ids: seq<int>, preds: map<int, seq<int>>)
    ensures NoEarlierParent(Partition(ids, preds), preds)
  {
    ScanInvariant(ids, preds);
  }

  /**
   * If the ids ascend and every edge runs from a smaller id to a larger one, then no
   * loop shares a course with any of its predecessors.
   */
  lemma NoParentInOwnCourse(ids: seq<int>, preds: map<int, seq<int>>, k: nat, i: nat, j: nat)
    requires StrictlyIncreasing(ids)
    requires forall x, p :: x in ids && x in preds && p in preds[x] ==> p < x
    requires k < |Partition(ids, preds)|
    requires i < |Partition(ids, preds)[k]| && j < |Partition(ids, preds)[k]|
    ensures var row := Partition(ids, preds)[k];
      row[i] in preds ==> row[j] !in preds[row[i]]
  {
    var rows := Partition(ids, preds);
    var row := rows[k];
    PartitionCovers(ids, preds);
    RowsOfIncreasing(rows, k);
    PartitionNoEarlierParent(ids, preds);
    FlattenSplit(rows, k);
    assert row[i] in ids;
    if row[i] in preds {
      if j < i {
        assert row[..i][j] == row[j];
        assert row[j] in row[..i];
      } else if j > i {
        assert row[i] < row[j];
      }
    }
  }

  // ---------------------------------------------------------------------------
  // When the ids already come in rows, the pass finds exactly those rows.

  /**
   * The rows `rows` are what the pass finds when each row after the first starts with a
   * loop that has a predecessor in the row before it, and no loop has a predecessor
   * earlier in its own row.
   */
  ghost predicate RowsBreakAsCourses(rows: seq<seq<int>>, preds: map<int, seq<int>>) {
    && |rows| >= 1
    && (forall k :: 0 <= k < |rows| ==> rows[k] != [])
    && (forall k :: 1 <= k < |rows| ==> HasParentIn(preds, rows[k][0], rows[k - 1]))
    && NoEarlierParent(rows, preds)
  }

  /** One more step of the pass. */
  lemma ScanSnoc(pre: seq<int>, x: int, preds: map<int, seq<int>>)
    ensures var s := Scan(pre, preds);
      Scan(pre + [x], preds) ==
        if HasParentIn(preds, x, s.open) then PassState(s.closed + [s.open], [x])
        else PassState(s.closed, s.open + [x])
  {
    assert (pre + [x])[..|pre|] == pre;
  }

  lemma {:induction false} ScanOfRows(rows: seq<seq<int>>, preds: map<int, seq<int>>, m: nat, i: nat)
    requires RowsBreakAsCourses(rows, preds)
    requires m < |rows| && 1 <= i <= |rows[m]|
    ensures Scan(Flatten(rows[..m]) + rows[m][..i], preds) == PassState(rows[..m], rows[m][..i])
    decreases m, i
  {
    if i > 1 {
      ScanOfRows(rows, preds, m, i - 1);
      assert !HasParentIn(preds, rows[m][i - 1], rows[m][..i - 1]);
      ScanWithinRow(rows, preds, m, i);
    } else if m == 0 {
      var x := rows[m][0];
      assert Flatten(rows[..m]) + rows[m][..i] == [] + [x];
      ScanSnoc([], x, preds);
      assert !HasParentIn(preds, x, []);
    } else {
      ScanOfRows(rows, preds, m - 1, |rows[m - 1]|);
      ScanIntoRow(rows, preds, m);
    }
  }

  /** A loop after the first of its row joins the open course. */
  lemma ScanWithinRow(rows: seq<seq<int>>, preds: map<int, seq<int>>, m: nat, i: nat)
    requires m < |rows| && 1 < i <= |rows[m]|
    requires !HasParentIn(preds, rows[m][i - 1], rows[m][..i - 1])
    requires Scan(Flatten(rows[..m]) + rows[m][..i - 1], preds) == PassState(rows[..m], rows[m][..i - 1])
    ensures Scan(Flatten(rows[..m]) + rows[m][..i], preds) == PassState(rows[..m], rows[m][..i])
  {
    var x := rows[m][i - 1];
    var pre := Flatten(rows[..m]) + rows[m][..i - 1];
    assert rows[m][..i] == rows[m][..i - 1] + [x];
    assert Flatten(rows[..m]) + rows[m][..i] == pre + [x];
    ScanSnoc(pre, x, preds);
  }

  /** The first loop of a row after the first closes the open course and opens its own. */
  lemma ScanIntoRow(rows: seq<seq<int>>, preds: map<int, seq<int>>, m: nat)
    requires 0 < m < |rows| && rows[m] != []
    requires HasParentIn(preds, rows[m][0], rows[m - 1])
    requires Scan(Flatten(rows[..m - 1]) + rows[m - 1][..|rows[m - 1]|], preds)
      == PassState(rows[..m - 1], rows[m - 1][..|rows[m - 1]|])
    ensures Scan(Flatten(rows[..m]) + rows[m][..1], preds) == PassState(rows[..m], rows[m][..1])
  {
    var x := rows[m][0];
    var prev := rows[m - 1];
    assert prev[..|prev|] == prev;
    FlattenPrefix(rows, m);
    assert rows[..m] == rows[..m - 1] + [prev];
    assert rows[m][..1] == [x];
    ScanSnoc(Flatten(rows[..m - 1]) + prev, x, preds);
  }

  /** Under `RowsBreakAsCourses`, the pass over the concatenated rows returns the rows. */
  lemma PartitionOfRows(rows: seq<seq<int>>, preds: map<int, seq<int>>)
    requires RowsBreakAsCourses(rows, preds)
    ensures Partition(Flatten(rows), preds) == rows
  {
    var m := |rows| - 1;
    assert rows == rows[..m] + [rows[m]];
    FlattenAppend(rows[..m], [rows[m]]);
    assert [rows[m]][..0] == [];
    assert rows[m][..|rows[m]|] == rows[m];
    ScanOfRows(rows, preds, m, |rows[m]|);
  }

  /**
   * The rows of the sorted ids of distinct nodes hold only nodes, and no row holds
   * one twice.
   */
  lemma SortedPartitionRows(nodes: seq<int>, keys: set<int>, preds: map<int, seq<int>>, rows: seq<seq<int>>)
    requires Distinct(nodes) && rows == Partition(Sort(nodes), preds)
    requires forall x :: x in nodes ==> x in keys && x in preds
    ensures forall x :: x in Sort(nodes) ==> x in keys && x in preds
    ensures forall k, x :: 0 <= k < |rows| && x in rows[k] ==> x in keys
    ensures forall k :: 0 <= k < |rows| ==> Distinct(rows[k])
  {
    var ids := Sort(nodes);
    SortDistinct(nodes);
    PartitionCovers(ids, preds);
    forall k, x | 0 <= k < |rows| && x in rows[k] ensures x in keys {
      FlattenSplit(rows, k);
    }
    forall k | 0 <= k < |rows| ensures Distinct(rows[k]) {
      RowsOfIncreasing(rows, k);
    }
  }

  /**
   * When every parent stack holds the predecessors, no row of the partition holds a
   * loop together with one of its parents.
   */
  lemma MatchedPartition(ids: seq<int>, preds: map<int, seq<int>>, parents: map<int, seq<int>>)
    requires forall x :: x in preds <==> x in parents
    requires forall x :: x in preds ==> SameElements(parents[x], preds[x])
    ensures NoEarlierParent(Partition(ids, preds), parents)
  {
    PartitionNoEarlierParent(ids, preds);
    NoEarlierParentSameElements(Partition(ids, preds), preds, parents);
  }

  /** A loop with no parent before it extends a prefix of a row that has none either. */
  lemma RowPrefixStep(row: seq<int>, s: nat, preds: map<int, seq<int>>)
    requires s < |row|
    requires RowNoEarlierParent(row[..s], preds)
    requires !HasParentIn(preds, row[s], row[..s])
    ensures RowNoEarlierParent(row[..s + 1], preds)
  {
    var next := row[..s + 1];
    forall i | 0 <= i < |next| ensures !HasParentIn(preds, next[i], next[..i]) {
      assert next[..i] == row[..i];
      if i < s {
        assert row[..s][i] == row[i] && row[..s][..i] == row[..i];
      }
    }
  }
}
