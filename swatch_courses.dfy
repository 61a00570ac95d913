/**
 * The courses `get_courses` finds in a generated swatch: every loop of a worked course
 * is pulled only through loops of earlier courses, and the first loop of each worked
 * course through the last loop of the course below, so the pass splits the loops into
 * exactly the courses the generator made, and no course holds a loop with its parent.
 */
module SwatchCourses {
  import opened Basics
  import opened PyLists
  import opened KnitGraphs
  import opened CoursePartition
  import opened StitchPlans
  import opened SwatchLogs
  import opened Swatches
  import opened SwatchPatterns

  /** Every parent on the stack the calls leave is one of the loops pulled through. */
  lemma {:induction false} StackSources(pulls: seq<Pull>)
    ensures forall p :: p in StackOf(pulls) ==> p in Sources(pulls)
    decreases |pulls|
  {
    if pulls != [] {
      var front := pulls[..|pulls| - 1];
      StackSources(front);
      assert Sources(pulls) == Sources(front) + [pulls[|pulls| - 1].parent];
    }
  }

  /** `reversed(course)[i]` is a loop of the course, or -1 outside it. */
  lemma RevAtIn(course: seq<int>, i: int)
    ensures RevAt(course, i) == -1 || RevAt(course, i) in course
  {
  }

  /** A worked course pulls its loops only through loops of the course it is worked from. */
  lemma PullsFrom(pattern: Pattern, k: nat, j: int, prev: seq<int>)
    ensures forall p :: p in Sources(PullsAt(pattern, k, j, prev)) ==> p == -1 || p in prev
    ensures k == 0 ==> PullsAt(pattern, k, j, prev) == []
  {
    var i := j;
    var i', i'' := i + 1, i - 1;
    RevAtIn(prev, i);
    RevAtIn(prev, i');
    RevAtIn(prev, i'');
  }

  /** The first loop of a worked course is pulled first through `reversed(prev)[0]`, the last loop of `prev`. */
  lemma FirstPull(pattern: Pattern, k: nat, prev: seq<int>)
    requires k >= 1 && |prev| >= 1
    ensures var pulls := PullsAt(pattern, k, 0, prev);
      |pulls| >= 1 && pulls[0].parent == prev[|prev| - 1]
  {
  }

  /** The order a course is handed on in holds the loops of the course. */
  lemma OrderMembers(pattern: Pattern, k: nat, row: seq<int>)
    ensures |CourseOrder(pattern, k, row)| == |row|
    ensures forall x :: x in CourseOrder(pattern, k, row) <==> x in row
  {
    CablePermutes(row);
    assert forall x :: x in CableOrder(row) <==> x in multiset(CableOrder(row));
    assert forall x :: x in row <==> x in multiset(row);
  }

  /** The course below course `k >= 1`, in the order it is handed on: `w` loops, all of the course before `k`. */
  lemma {:induction false} Below(pattern: Pattern, w: nat, h: nat, k: nat)
    requires 1 <= k < h
    ensures var prev, rows := PrevCourse(pattern, MintedRows(w, h), k), MintedRows(w, h);
      && |prev| == w
      && (forall p :: p in prev ==> p in rows[k - 1])
      && (forall p :: p in prev ==> p < k * w)
  {
    var rows := MintedRows(w, h);
    var k0 := k - 1;
    var lo := k0 * w;
    assert lo + w == k * w;
    MintedAt(w, h, k0, 0);
    RangeFacts(lo, lo + w);
    OrderMembers(pattern, k0, rows[k0]);
  }

  /**
   * A loop that has received the calls of place `j` of course `k`, worked from `prev`,
   * whose loops all lie below `lo` and in `below`: its predecessors and its parents lie
   * below `lo`, and the first loop of a worked course has a predecessor in `below`.
   */
  lemma LoopBelow(pattern: Pattern, k: nat, j: nat, prev: seq<int>, below: seq<int>, lo: int, x: int,
                  parents: map<int, seq<int>>, pred: map<int, seq<int>>, edges: map<(int, int), StitchEdge>)
    requires Realizes(x, PullsAt(pattern, k, j, prev), parents, pred, edges)
    requires 0 <= lo && forall p :: p in prev ==> p < lo && p in below
    requires k >= 1 && j == 0 ==> |prev| >= 1
    ensures x in pred && x in parents
    ensures forall p :: p in pred[x] ==> p < lo
    ensures forall p :: p in parents[x] ==> p < lo
    ensures k >= 1 && j == 0 ==> |pred[x]| >= 1 && pred[x][0] in below
  {
    var pulls := PullsAt(pattern, k, j, prev);
    PullsFrom(pattern, k, j, prev);
    StackSources(pulls);
    if k >= 1 && j == 0 {
      FirstPull(pattern, k, prev);
      var last := prev[|prev| - 1];
      assert last in prev;
      assert pred[x][0] == pulls[0].parent == last;
    }
  }

  /**
   * A realized course of the ids `lo`, ..., `lo + w - 1`, worked from loops below `lo`
   * that all lie in `below`: no loop has a predecessor or a parent earlier in the
   * course, and a worked course starts with a loop that has a predecessor in `below`.
   */
  lemma CourseBreaks(pattern: Pattern, k: nat, prev: seq<int>, row: seq<int>, below: seq<int>, lo: int, w: nat,
                     parents: map<int, seq<int>>, pred: map<int, seq<int>>, edges: map<(int, int), StitchEdge>)
    requires CourseRealized(pattern, k, prev, row, parents, pred, edges)
    requires w >= 1 && 0 <= lo && row == Range(lo, lo + w)
    requires forall p :: p in prev ==> p < lo && p in below
    requires k >= 1 ==> |prev| >= 1
    ensures row != [] && RowNoEarlierParent(row, pred) && RowNoEarlierParent(row, parents)
    ensures k >= 1 ==> HasParentIn(pred, row[0], below)
  {
    RangeFacts(lo, lo + w);
    forall i | 0 <= i < |row| ensures !HasParentIn(pred, row[i], row[..i]) && !HasParentIn(parents, row[i], row[..i]) {
      LoopBelow(pattern, k, i, prev, below, lo, row[i], parents, pred, edges);
      assert forall y :: y in row[..i] ==> y in row;
    }
    if k >= 1 {
      LoopBelow(pattern, k, 0, prev, below, lo, row[0], parents, pred, edges);
      assert pred[row[0]][0] in pred[row[0]];
    }
  }

  /** A realized course `k` of a swatch breaks as `get_courses` breaks it, and holds no loop with its parent. */
  lemma SwatchCourseBreaks(pattern: Pattern, w: nat, h: nat, parents: map<int, seq<int>>,
                           pred: map<int, seq<int>>, edges: map<(int, int), StitchEdge>, k: nat)
    requires w >= 1 && k < h
    requires CourseRealized(pattern, k, PrevCourse(pattern, MintedRows(w, h), k), MintedRows(w, h)[k], parents, pred, edges)
    ensures var rows := MintedRows(w, h);
      && rows[k] != [] && RowNoEarlierParent(rows[k], pred) && RowNoEarlierParent(rows[k], parents)
      && (k >= 1 ==> HasParentIn(pred, rows[k][0], rows[k - 1]))
  {
    var rows := MintedRows(w, h);
    MintedAt(w, h, k, 0);
    var prev := PrevCourse(pattern, rows, k);
    var lo := k * w;
    var below := if k >= 1 then rows[k - 1] else [];
    if k >= 1 {
      Below(pattern, w, h, k);
    }
    CourseBreaks(pattern, k, prev, rows[k], below, lo, w, parents, pred, edges);
  }

  /** The courses of a swatch break as `get_courses` breaks them, and no course holds a loop with its parent. */
  lemma SwatchBreaks(pattern: Pattern, w: nat, h: nat, parents: map<int, seq<int>>,
                     pred: map<int, seq<int>>, edges: map<(int, int), StitchEdge>)
    requires w >= 1 && h >= 1 && Swatch(pattern, MintedRows(w, h), parents, pred, edges)
    ensures RowsBreakAsCourses(MintedRows(w, h), pred)
    ensures NoEarlierParent(MintedRows(w, h), parents)
  {
    var rows := MintedRows(w, h);
    forall k | 0 <= k < |rows|
      ensures rows[k] != [] && RowNoEarlierParent(rows[k], pred) && RowNoEarlierParent(rows[k], parents)
      ensures k >= 1 ==> HasParentIn(pred, rows[k][0], rows[k - 1])
    {
      SwatchAt(pattern, rows, parents, pred, edges, k);
      SwatchCourseBreaks(pattern, w, h, parents, pred, edges, k);
    }
  }

  /**
   * `get_courses` on a swatch of `h >= 1` courses of `w >= 1` loops: the pass over the
   * sorted ids returns exactly the generator's courses, and filling them succeeds.
   */
  lemma SwatchCourseRows(g: KnitGraph, pattern: Pattern, w: nat, h: nat)
    requires w >= 1 && h >= 1 && g.nodes == Range(0, h * w)
    requires Swatch(pattern, MintedRows(w, h), g.ParentMap(), g.pred, g.edges)
    ensures CoursePartition.Partition(Sort(g.nodes), g.pred) == MintedRows(w, h)
    ensures CoursePartition.NoEarlierParent(MintedRows(w, h), g.ParentMap())
  {
    var n := h * w;
    RangeFacts(0, n);
    SortIncreasing(g.nodes);
    FlattenMinted(w, h);
    SwatchBreaks(pattern, w, h, g.ParentMap(), g.pred, g.edges);
    PartitionOfRows(MintedRows(w, h), g.pred);
  }

  /**
   * `get_courses()` on a generated swatch of `h` courses of `w` loops: course `k` holds the
   * loops `k * w`, ..., `k * w + w - 1` in order; a swatch with no loops gives one empty course.
   */
  method SwatchCourseList(g: KnitGraph, ghost pattern: Pattern, ghost w: nat, ghost h: nat)
    returns (courses: seq<Course>)
    requires h >= 1 && g.Valid() && g.nodes == Range(0, h * w)
    requires Swatch(pattern, MintedRows(w, h), g.ParentMap(), g.pred, g.edges)
    ensures w >= 1 ==> |courses| == h
    ensures w >= 1 ==> forall k :: 0 <= k < h ==> courses[k].order == Range(k * w, k * w + w)
    ensures w == 0 ==> |courses| == 1 && courses[0].order == []
  {
    if w == 0 {
      assert g.nodes == [];
      PartitionOfNothing(g.pred);
      assert RowNoEarlierParent([], g.ParentMap());
    } else {
      SwatchCourseRows(g, pattern, w, h);
    }
    var r := g.GetCourses();
    courses := r.value;
    if w >= 1 {
      forall k | 0 <= k < h ensures courses[k].order == Range(k * w, k * w + w) {
        MintedAt(w, h, k, 0);
      }
    }
  }

  /** `jersey_knit(width, height).get_courses()`. */
  method JerseyRows(width: int, height: int) returns (courses: seq<Course>)
    ensures width >= 1 ==> |courses| == Courses(height)
    ensures width >= 1 ==> forall k :: 0 <= k < Courses(height) ==> courses[k].order == Range(k * width, k * width + width)
    ensures width <= 0 ==> |courses| == 1 && courses[0].order == []
  {
    var g := JerseyKnit(width, height);
    courses := SwatchCourseList(g, Jersey, Count(width), Courses(height));
  }

  /** `seed_stitch(width, height).get_courses()`, or the generator's assertion error. */
  method SeedRows(width: int, height: int) returns (r: Result<seq<Course>>)
    ensures r.Err? <==> width <= 0 || height <= 1
    ensures r.Ok? ==> |r.value| == height
    ensures r.Ok? ==> forall k :: 0 <= k < height ==> r.value[k].order == Range(k * width, k * width + width)
  {
    var made := SeedStitch(width, height);
    if made.Err? {
      return Err(made.error);
    }
    var courses := SwatchCourseList(made.value, Seed, Count(width), Courses(height));
    return Ok(courses);
  }

  /** `kp_rib(width, height).get_courses()`, or the generator's assertion error. */
  method RibRows(width: int, height: int) returns (r: Result<seq<Course>>)
    ensures r.Err? <==> width <= 0 || height <= 1 || RibWidth > width
    ensures r.Ok? ==> |r.value| == height
    ensures r.Ok? ==> forall k :: 0 <= k < height ==> r.value[k].order == Range(k * width, k * width + width)
  {
    var made := KpRib(width, height);
    if made.Err? {
      return Err(made.error);
    }
    var courses := SwatchCourseList(made.value, Rib, Count(width), Courses(height));
    return Ok(courses);
  }

  /** `lace(width, height).get_courses()`, or the generator's assertion error. */
  method LaceRows(width: int, height: int) returns (r: Result<seq<Course>>)
    ensures r.Err? <==> width % 6 != 0
    ensures r.Ok? && width >= 1 ==> |r.value| == Courses(height)
    ensures r.Ok? && width >= 1 ==> forall k :: 0 <= k < Courses(height) ==> r.value[k].order == Range(k * width, k * width + width)
    ensures r.Ok? && width <= 0 ==> |r.value| == 1 && r.value[0].order == []
  {
    var made := LaceSwatch(width, height);
    if made.Err? {
      return Err(made.error);
    }
    var courses := SwatchCourseList(made.value, Lace, Count(width), Courses(height));
    return Ok(courses);
  }

  /** `cable(width, height).get_courses()`, or the generator's assertion error. */
  method CableRows(width: int, height: int) returns (r: Result<seq<Course>>)
    ensures r.Err? <==> width % 5 != 0
    ensures r.Ok? && width >= 1 ==> |r.value| == Courses(height)
    ensures r.Ok? && width >= 1 ==> forall k :: 0 <= k < Courses(height) ==> r.value[k].order == Range(k * width, k * width + width)
    ensures r.Ok? && width <= 0 ==> |r.value| == 1 && r.value[0].order == []
  {
    var made := CableSwatch(width, height);
    if made.Err? {
      return Err(made.error);
    }
    var courses := SwatchCourseList(made.value, Cable, Count(width), Courses(height));
    return Ok(courses);
  }
}
