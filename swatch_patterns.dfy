/**
 * The seed stitch, rib, lace and cable generators. Seed stitch and rib build their own
 * first row, adding each new loop to the graph a second time, and read the stitch
 * below a parent back from the graph; lace pulls some loops through two parents and
 * leaves others without any; cable hands a reordered course to the next one. Each
 * keeps the log of its mutations, as `Swatches` does for jersey.
 */
module SwatchPatterns {
  import opened Basics
  import opened PyLists
  import opened PullDirections
  import opened KnitGraphs
  import opened StitchPlans
  import opened SwatchLogs
  import opened Swatches

  // ---------------------------------------------------------------------------
  // steps shared by the patterns

  /** The calls a place asks for, made after its loop is added, complete that place. */
  lemma {:induction false} PlacedAll(base: seq<Op>, pattern: Pattern, k: nat, prev: seq<int>, n: int, j: nat, j': nat,
                                     c: int, pulls: seq<Pull>)
    requires c == n + j && j' == j + 1 && pulls == PullsAt(pattern, k, j, prev)
    ensures base + CourseOps(pattern, k, prev, n, j) + PlaceOps(c, pulls) == base + CourseOps(pattern, k, prev, n, j')
  {
    CourseStep(base, pattern, k, prev, n, j, pulls);
  }

  /** A new loop and one call into it place it with that call. */
  lemma {:induction false} PlaceOpsOne(ops: seq<Op>, c: int, pull: Pull)
    ensures ops + [MakeLoop] + [PullLoop(c, pull)] == ops + PlaceOps(c, [pull])
  {
    PlaceStart(ops, c);
    PlaceMore(ops, c, [], pull);
    assert [] + [pull] == [pull];
  }

  /** A new loop and two calls into it place it with those calls, in order. */
  lemma {:induction false} PlaceOpsTwo(ops: seq<Op>, c: int, first: Pull, second: Pull)
    ensures ops + [MakeLoop] + [PullLoop(c, first)] + [PullLoop(c, second)] == ops + PlaceOps(c, [first, second])
  {
    PlaceOpsOne(ops, c, first);
    PlaceMore(ops, c, [first], second);
    assert [first] + [second] == [first, second];
  }

  /**
   * Midway through course `k >= 2` of a seed stitch or rib swatch, the loop
   * `p = reversed(prev)[j]` of the course below, its place `i` in course `k0 = k - 1`,
   * still has the parent and the incoming edge its own place gave it.
   */
  lemma {:induction false} Underneath(pattern: Pattern, w: nat, k: nat, k0: nat, j: nat, i: nat, n: int, prev: seq<int>,
                                      a: seq<Op>, p: int)
    requires pattern != Cable && 2 <= k && k == k0 + 1 && j < w && i == w - 1 - j && n == k * w
    requires prev == LastCourse(pattern, w, k) && p == RevAt(prev, j)
    requires a == SwatchOps(pattern, w, k) + CourseOps(pattern, k, prev, n, j)
    ensures var s := Replay(a);
      && 0 <= p < |s.nodes| && Realizes(p, PullsAt(pattern, k0, i, LastCourse(pattern, w, k0)), s.parents, s.pred, s.edges)
  {
    CourseAt(pattern, k, prev, w, n, j);
    Progress(pattern, w, k, j);
    var s := Replay(a);
    UnderneathId(pattern, w, k, k0, j, i, prev, p);
    Earlier(pattern, w, k, k0, Range(n, n + j), s, i, p);
    BuiltNodes(pattern, MintedRows(w, k), prev, Range(n, n + j), s);
    MintedCount(w, k, n);
  }

  /** Outside cable, `reversed(prev)[j]` for course `k` is loop `i = w - 1 - j` of course `k0 = k - 1`. */
  lemma UnderneathId(pattern: Pattern, w: nat, k: nat, k0: nat, j: nat, i: nat, prev: seq<int>, p: int)
    requires pattern != Cable && 1 <= k && k == k0 + 1 && j < w && i == w - 1 - j
    requires prev == LastCourse(pattern, w, k) && p == RevAt(prev, j)
    ensures p == k0 * w + i
  {
    LastCourseMinted(pattern, w, k);
    var lo := (k - 1) * w;
    RevAtRange(lo, w, j);
    assert lo == k0 * w;
  }

  /** A new loop leaves the predecessors and the incoming edges of the loops before it as they were. */
  lemma {:induction false} UnderMade(a: seq<Op>, ops: seq<Op>, p: int, pulls: seq<Pull>)
    requires ops == a + [MakeLoop]
    requires var s := Replay(a); 0 <= p < |s.nodes| && Realizes(p, pulls, s.parents, s.pred, s.edges)
    ensures var t := Replay(ops);
      && p in t.pred && t.pred[p] == Sources(pulls)
      && forall i :: 0 <= i < |pulls| ==> (pulls[i].parent, p) in t.edges && t.edges[(pulls[i].parent, p)] == pulls[i].edge
  {
    RunSnoc(Blank, a, MakeLoop);
  }

  /** Seed stitch, from course 2 on: the stitch of place `j` turns over the stitch read back from its parent. */
  lemma {:induction false} SeedUnder(g: KnitGraph, y: Yarn, w: nat, k: nat, j: nat, n: int, prev: seq<int>, ops: seq<Op>)
    requires 2 <= k && j < w && n == k * w && prev == LastCourse(Seed, w, k)
    requires ops == SwatchOps(Seed, w, k) + CourseOps(Seed, k, prev, n, j) + [MakeLoop]
    requires Mirrors(g, y, Replay(ops))
    ensures var p := RevAt(prev, j);
      && p in g.pred && |g.pred[p]| > 0 && (g.pred[p][0], p) in g.edges
      && PullsAt(Seed, k, j, prev) == [Pull(p, Plain(Opposite(g.edges[(g.pred[p][0], p)].pullDirection)), None)]
  {
    var a := SwatchOps(Seed, w, k) + CourseOps(Seed, k, prev, n, j);
    var k0, i, p := k - 1, w - 1 - j, RevAt(prev, j);
    var pulls := PullsAt(Seed, k0, i, LastCourse(Seed, w, k0));
    Underneath(Seed, w, k, k0, j, i, n, prev, a, p);
    UnderMade(a, ops, p, pulls);
    SeedTurns(w, k, k0, j, i, prev, p, pulls);
    assert Opened(0);
  }

  /** The one call of place `i` of course `k0` gives the stitch that place `j` of course `k` reads back. */
  lemma {:induction false} SeedTurns(w: nat, k: nat, k0: nat, j: nat, i: nat, prev: seq<int>, p: int, pulls: seq<Pull>)
    requires 2 <= k && k == k0 + 1 && j < w && i == w - 1 - j
    requires prev == LastCourse(Seed, w, k) && p == RevAt(prev, j) && pulls == PullsAt(Seed, k0, i, LastCourse(Seed, w, k0))
    ensures |pulls| == 1 && Sources(pulls)[0] == pulls[0].parent
    ensures PullsAt(Seed, k, j, prev) == [Pull(p, Plain(Opposite(pulls[0].edge.pullDirection)), None)]
  {
    LastCourseFacts(Seed, w, k);
    LastCourseFacts(Seed, w, k0);
  }

  /** Rib, from course 2 on: the stitch of place `j` copies the stitch read back from its parent. */
  lemma {:induction false} RibUnder(g: KnitGraph, y: Yarn, w: nat, k: nat, j: nat, n: int, prev: seq<int>, ops: seq<Op>)
    requires 2 <= k && j < w && n == k * w && prev == LastCourse(Rib, w, k)
    requires ops == SwatchOps(Rib, w, k) + CourseOps(Rib, k, prev, n, j) + [MakeLoop]
    requires Mirrors(g, y, Replay(ops))
    ensures var p := RevAt(prev, j);
      && p in g.pred && |g.pred[p]| > 0 && (g.pred[p][0], p) in g.edges
      && PullsAt(Rib, k, j, prev) == [Pull(p, Plain(g.edges[(g.pred[p][0], p)].pullDirection), None)]
  {
    var a := SwatchOps(Rib, w, k) + CourseOps(Rib, k, prev, n, j);
    var k0, i, p := k - 1, w - 1 - j, RevAt(prev, j);
    var pulls := PullsAt(Rib, k0, i, LastCourse(Rib, w, k0));
    Underneath(Rib, w, k, k0, j, i, n, prev, a, p);
    UnderMade(a, ops, p, pulls);
    RibCopies(w, k, k0, j, i, prev, p, pulls);
    assert Opened(0);
  }

  /** The one call of place `i` of course `k0` gives the stitch that place `j` of course `k` reads back. */
  lemma {:induction false} RibCopies(w: nat, k: nat, k0: nat, j: nat, i: nat, prev: seq<int>, p: int, pulls: seq<Pull>)
    requires 2 <= k && k == k0 + 1 && j < w && i == w - 1 - j
    requires prev == LastCourse(Rib, w, k) && p == RevAt(prev, j) && pulls == PullsAt(Rib, k0, i, LastCourse(Rib, w, k0))
    ensures |pulls| == 1 && Sources(pulls)[0] == pulls[0].parent
    ensures PullsAt(Rib, k, j, prev) == [Pull(p, Plain(pulls[0].edge.pullDirection), None)]
  {
    LastCourseFacts(Rib, w, k);
    LastCourseFacts(Rib, w, k0);
  }

  /**
   * The first row of seed stitch and rib: a new graph and a yarn `"yarn"`, and `width`
   * loops added to the end of the yarn, each then added to the graph once more.
   */
  method FirstRow(width: int) returns (g: KnitGraph, y: Yarn, firstRow: seq<int>, ghost log: seq<Op>)
    ensures fresh(g) && fresh(y)
    ensures log == Mints(Count(width)) && Mirrors(g, y, Replay(log))
    ensures firstRow == Range(0, Count(width))
  {
    g := new KnitGraph();
    y := new Yarn("yarn", null, 2, 30, Some("green"));
    g.AddYarn(y);
    log := [];
    assert Replay(log) == Blank;
    firstRow := [];
    var i := 0;
    while i < width
      invariant 0 <= i <= Count(width)
      invariant fresh(g) && fresh(y)
      invariant log == Mints(i) && Mirrors(g, y, Replay(log)) && |g.nodes| == i
      invariant firstRow == Range(0, i)
    {
      var loopId, loop;
      loopId, loop, log := AddToEnd(g, y, log);
      firstRow := firstRow + [loopId];
      AddAgain(g, y, loop, Replay(log));
      MintsSnoc(i);
      var i' := i + 1;
      RangeStep(0, i, i');
      i := i';
    }
  }

  /** `add_loop_to_end`, `add_loop` of the new loop, then `connect_loops` from a loop of the graph. */
  method PlaceAgain(g: KnitGraph, y: Yarn, parentId: int, pullDirection: PullDirection, ghost log: seq<Op>)
    returns (childId: int, ghost log': seq<Op>)
    requires Mirrors(g, y, Replay(log)) && 0 <= parentId < |g.nodes|
    modifies g, y
    ensures log' == log + [MakeLoop] + [PullLoop(childId, Pull(parentId, Plain(pullDirection), None))]
    ensures Mirrors(g, y, Replay(log'))
    ensures childId == old(|g.nodes|) && |g.nodes| == childId + 1
  {
    var child;
    childId, child, log' := AddToEnd(g, y, log);
    AddAgain(g, y, child, Replay(log'));
    log' := Connect(g, y, parentId, childId, pullDirection, None, 0, 0, log');
  }

  // ---------------------------------------------------------------------------
  // seed stitch

  /**
   * `seed_stitch(width, height)`: a failed assertion unless `width > 0` and
   * `height > 1`; otherwise the first row, a course alternating knit and purl by
   * position, and courses that each turn over the stitch below.
   */
  method SeedStitch(width: int, height: int) returns (r: Result<KnitGraph>)
    ensures r.Err? <==> width <= 0 || height <= 1
    ensures r.Err? ==> r.error == BadDimensions
    ensures r.Ok? ==> var g := r.value;
      && fresh(g) && g.Valid() && g.nodes == Range(0, Courses(height) * Count(width))
      && Swatch(Seed, MintedRows(Count(width), Courses(height)), g.ParentMap(), g.pred, g.edges)
  {
    var unusedGraph, unusedYarn, unusedCourse;
    ghost var unusedLog;
    unusedGraph, unusedYarn, unusedCourse, unusedLog := CastOn(width);
    if width <= 0 || height <= 1 {
      return Err(BadDimensions);
    }
    var g, y, firstRow;
    ghost var log;
    g, y, firstRow, log := FirstRow(width);
    CastOnOps(Seed, Count(width));
    FirstCourse(Seed, Count(width));
    var nextRow;
    nextRow, log := SeedFirstCourse(g, y, firstRow, Count(width), log);
    log := SeedCourses(g, y, nextRow, height, Count(width), log);
    Finished(g, y, Seed, Count(width), Courses(height));
    r := Ok(g);
  }

  /** The first worked course: knit at the even positions of `reversed(priorRow)`, purl at the odd ones. */
  method SeedFirstCourse(g: KnitGraph, y: Yarn, priorRow: seq<int>, ghost w: nat, ghost log: seq<Op>)
    returns (nextRow: seq<int>, ghost log': seq<Op>)
    requires log == SwatchOps(Seed, w, 1) && priorRow == LastCourse(Seed, w, 1)
    requires Mirrors(g, y, Replay(log))
    modifies g, y
    ensures log' == SwatchOps(Seed, w, 2) && nextRow == LastCourse(Seed, w, 2)
    ensures Mirrors(g, y, Replay(log'))
  {
    ghost var n := |g.nodes|;
    CourseStart(g, y, Seed, w, 1, n);
    nextRow, log' := SeedFirstPlaces(g, y, priorRow, n, log);
    assert |g.nodes| == n + w;
    CourseDone(Seed, w, 1, 2, n, log, log');
    NextMinted(Seed, w, 1, 2, n, nextRow);
  }

  method SeedFirstPlaces(g: KnitGraph, y: Yarn, priorRow: seq<int>, ghost n: int, ghost log: seq<Op>)
    returns (nextRow: seq<int>, ghost log': seq<Op>)
    requires |g.nodes| == n && Mirrors(g, y, Replay(log))
    requires forall x :: x in priorRow ==> 0 <= x < n
    modifies g, y
    ensures log' == log + CourseOps(Seed, 1, priorRow, n, |priorRow|) && Mirrors(g, y, Replay(log'))
    ensures |g.nodes| == n + |priorRow| && nextRow == Range(n, |g.nodes|)
  {
    nextRow := [];
    log' := log;
    var reversedRow := Reversed(priorRow);
    var column := 0;
    while column < |reversedRow|
      invariant 0 <= column <= |priorRow|
      invariant log' == log + CourseOps(Seed, 1, priorRow, n, column)
      invariant Mirrors(g, y, Replay(log')) && |g.nodes| == n + column && nextRow == Range(n, |g.nodes|)
    {
      var parentId := reversedRow[column];
      RevIn(priorRow, column);
      SeedFirstPulls(priorRow, column);
      ghost var c := |g.nodes|;
      var column' := column + 1;
      var pullDirection := if column % 2 == 0 then BtF else FtB;
      var childId;
      childId, log' := PlaceAgain(g, y, parentId, pullDirection, log');
      PlacedOne(log, Seed, 1, priorRow, n, column, column', childId, Pull(parentId, Plain(pullDirection), None));
      RangeStep(n, c, |g.nodes|);
      nextRow := nextRow + [childId];
      column := column';
    }
  }

  /** The courses of `range(2, height)`, each worked from the one before. */
  method SeedCourses(g: KnitGraph, y: Yarn, nextRow: seq<int>, height: int, ghost w: nat, ghost log: seq<Op>)
    returns (ghost log': seq<Op>)
    requires height > 1 && log == SwatchOps(Seed, w, 2) && nextRow == LastCourse(Seed, w, 2)
    requires Mirrors(g, y, Replay(log))
    modifies g, y
    ensures log' == SwatchOps(Seed, w, Courses(height)) && Mirrors(g, y, Replay(log'))
  {
    var row := nextRow;
    log' := log;
    var r := 2;
    while r < height
      invariant 2 <= r <= Courses(height)
      invariant log' == SwatchOps(Seed, w, r) && row == LastCourse(Seed, w, r)
      invariant Mirrors(g, y, Replay(log'))
    {
      var r' := r + 1;
      row, log' := SeedCourse(g, y, row, w, r, r', log');
      r := r';
    }
    assert r == Courses(height);
  }

  /** One later seed course: each new loop turns over the stitch of its parent. */
  method SeedCourse(g: KnitGraph, y: Yarn, priorRow: seq<int>, ghost w: nat, ghost k: nat, ghost h: nat, ghost log: seq<Op>)
    returns (nextRow: seq<int>, ghost log': seq<Op>)
    requires 2 <= k && h == k + 1 && log == SwatchOps(Seed, w, k) && priorRow == LastCourse(Seed, w, k)
    requires Mirrors(g, y, Replay(log))
    modifies g, y
    ensures log' == SwatchOps(Seed, w, h) && nextRow == LastCourse(Seed, w, h)
    ensures Mirrors(g, y, Replay(log'))
  {
    ghost var n := |g.nodes|;
    CourseStart(g, y, Seed, w, k, n);
    nextRow, log' := SeedPlaces(g, y, priorRow, w, k, n, log);
    assert |g.nodes| == n + w;
    CourseDone(Seed, w, k, h, n, log, log');
    NextMinted(Seed, w, k, h, n, nextRow);
  }

  method SeedPlaces(g: KnitGraph, y: Yarn, priorRow: seq<int>, ghost w: nat, ghost k: nat, ghost n: int, ghost log: seq<Op>)
    returns (nextRow: seq<int>, ghost log': seq<Op>)
    requires 2 <= k && n == k * w && |g.nodes| == n && priorRow == LastCourse(Seed, w, k) && |priorRow| == w
    requires log == SwatchOps(Seed, w, k) && Mirrors(g, y, Replay(log))
    requires forall x :: x in priorRow ==> 0 <= x < n
    modifies g, y
    ensures log' == log + CourseOps(Seed, k, priorRow, n, w) && Mirrors(g, y, Replay(log'))
    ensures |g.nodes| == n + w && nextRow == Range(n, |g.nodes|)
  {
    nextRow := [];
    log' := log;
    var reversedRow := Reversed(priorRow);
    var j := 0;
    while j < |reversedRow|
      invariant 0 <= j <= w
      invariant log' == log + CourseOps(Seed, k, priorRow, n, j)
      invariant Mirrors(g, y, Replay(log')) && |g.nodes| == n + j && nextRow == Range(n, |g.nodes|)
    {
      var parentId := reversedRow[j];
      RevIn(priorRow, j);
      ghost var c := |g.nodes|;
      var j' := j + 1;
      var childId;
      childId, log' := SeedPlace(g, y, parentId, w, k, j, n, priorRow, log, log');
      PlacedAll(log, Seed, k, priorRow, n, j, j', childId, PullsAt(Seed, k, j, priorRow));
      RangeStep(n, c, |g.nodes|);
      nextRow := nextRow + [childId];
      j := j';
    }
  }

  /** One loop of a later seed course: added, added again, and pulled through its parent with the stitch below turned over. */
  method SeedPlace(g: KnitGraph, y: Yarn, parentId: int, ghost w: nat, ghost k: nat, ghost j: nat, ghost n: int,
                   ghost priorRow: seq<int>, ghost base: seq<Op>, ghost log: seq<Op>)
    returns (childId: int, ghost log': seq<Op>)
    requires 2 <= k && j < w && n == k * w && priorRow == LastCourse(Seed, w, k) && parentId == RevAt(priorRow, j)
    requires base == SwatchOps(Seed, w, k) && log == base + CourseOps(Seed, k, priorRow, n, j)
    requires Mirrors(g, y, Replay(log)) && 0 <= parentId < |g.nodes|
    modifies g, y
    ensures log' == log + PlaceOps(childId, PullsAt(Seed, k, j, priorRow)) && Mirrors(g, y, Replay(log'))
    ensures childId == old(|g.nodes|) && |g.nodes| == childId + 1
  {
    var child;
    childId, child, log' := AddToEnd(g, y, log);
    AddAgain(g, y, child, Replay(log'));
    SeedUnder(g, y, w, k, j, n, priorRow, log');
    var grandParent := g.pred[parentId][0];
    var parentPullDirection := g.edges[(grandParent, parentId)].pullDirection;
    var pullDirection := Opposite(parentPullDirection);
    log' := Connect(g, y, parentId, childId, pullDirection, None, 0, 0, log');
    PlaceOpsOne(log, childId, Pull(parentId, Plain(pullDirection), None));
  }

  // ---------------------------------------------------------------------------
  // rib

  /**
   * `kp_rib(width, height)`: a failed assertion unless `width > 0`, `height > 1` and
   * the rib width 1 is at most `width`; otherwise the first row, a course knitting the
   * even columns and purling the odd ones, and courses that each copy the stitch below.
   */
  method KpRib(width: int, height: int) returns (r: Result<KnitGraph>)
    ensures r.Err? <==> width <= 0 || height <= 1 || RibWidth > width
    ensures r.Err? ==> r.error == BadDimensions
    ensures r.Ok? ==> var g := r.value;
      && fresh(g) && g.Valid() && g.nodes == Range(0, Courses(height) * Count(width))
      && Swatch(Rib, MintedRows(Count(width), Courses(height)), g.ParentMap(), g.pred, g.edges)
  {
    var unusedGraph, unusedYarn, unusedCourse;
    ghost var unusedLog;
    unusedGraph, unusedYarn, unusedCourse, unusedLog := CastOn(width);
    if width <= 0 || height <= 1 || RibWidth > width {
      return Err(BadDimensions);
    }
    var g, y, firstRow;
    ghost var log;
    g, y, firstRow, log := FirstRow(width);
    CastOnOps(Rib, Count(width));
    FirstCourse(Rib, Count(width));
    var nextRow;
    nextRow, log := RibFirstCourse(g, y, firstRow, Count(width), log);
    log := RibCourses(g, y, nextRow, height, Count(width), log);
    Finished(g, y, Rib, Count(width), Courses(height));
    r := Ok(g);
  }

  /** The first worked course: across `priorRow` from its end, knit in the even columns and purl in the odd ones. */
  method RibFirstCourse(g: KnitGraph, y: Yarn, priorRow: seq<int>, ghost w: nat, ghost log: seq<Op>)
    returns (nextRow: seq<int>, ghost log': seq<Op>)
    requires log == SwatchOps(Rib, w, 1) && priorRow == LastCourse(Rib, w, 1)
    requires Mirrors(g, y, Replay(log))
    modifies g, y
    ensures log' == SwatchOps(Rib, w, 2) && nextRow == LastCourse(Rib, w, 2)
    ensures Mirrors(g, y, Replay(log'))
  {
    ghost var n := |g.nodes|;
    CourseStart(g, y, Rib, w, 1, n);
    nextRow, log' := RibFirstPlaces(g, y, priorRow, n, log);
    assert |g.nodes| == n + w;
    CourseDone(Rib, w, 1, 2, n, log, log');
    NextMinted(Rib, w, 1, 2, n, nextRow);
  }

  method RibFirstPlaces(g: KnitGraph, y: Yarn, priorRow: seq<int>, ghost n: int, ghost log: seq<Op>)
    returns (nextRow: seq<int>, ghost log': seq<Op>)
    requires |g.nodes| == n && Mirrors(g, y, Replay(log))
    requires forall x :: x in priorRow ==> 0 <= x < n
    modifies g, y
    ensures log' == log + CourseOps(Rib, 1, priorRow, n, |priorRow|) && Mirrors(g, y, Replay(log'))
    ensures |g.nodes| == n + |priorRow| && nextRow == Range(n, |g.nodes|)
  {
    nextRow := [];
    log' := log;
    var j := 0;
    while j < |priorRow|
      invariant 0 <= j <= |priorRow|
      invariant log' == log + CourseOps(Rib, 1, priorRow, n, j)
      invariant Mirrors(g, y, Replay(log')) && |g.nodes| == n + j && nextRow == Range(n, |g.nodes|)
    {
      var column := |priorRow| - 1 - j;
      var parentId := priorRow[column];
      assert parentId in priorRow;
      RibFirstPulls(priorRow, j);
      ghost var c := |g.nodes|;
      var j' := j + 1;
      var ribId := column / RibWidth;
      var pullDirection := if ribId % 2 == 0 then BtF else FtB;
      var childId;
      childId, log' := PlaceAgain(g, y, parentId, pullDirection, log');
      PlacedOne(log, Rib, 1, priorRow, n, j, j', childId, Pull(parentId, Plain(pullDirection), None));
      RangeStep(n, c, |g.nodes|);
      nextRow := nextRow + [childId];
      j := j';
    }
  }

  /** The courses of `range(2, height)`, each worked from the one before. */
  method RibCourses(g: KnitGraph, y: Yarn, nextRow: seq<int>, height: int, ghost w: nat, ghost log: seq<Op>)
    returns (ghost log': seq<Op>)
    requires height > 1 && log == SwatchOps(Rib, w, 2) && nextRow == LastCourse(Rib, w, 2)
    requires Mirrors(g, y, Replay(log))
    modifies g, y
    ensures log' == SwatchOps(Rib, w, Courses(height)) && Mirrors(g, y, Replay(log'))
  {
    var row := nextRow;
    log' := log;
    var r := 2;
    while r < height
      invariant 2 <= r <= Courses(height)
      invariant log' == SwatchOps(Rib, w, r) && row == LastCourse(Rib, w, r)
      invariant Mirrors(g, y, Replay(log'))
    {
      var r' := r + 1;
      row, log' := RibCourse(g, y, row, w, r, r', log');
      r := r';
    }
    assert r == Courses(height);
  }

  /** One later rib course: each new loop copies the stitch of its parent. */
  method RibCourse(g: KnitGraph, y: Yarn, priorRow: seq<int>, ghost w: nat, ghost k: nat, ghost h: nat, ghost log: seq<Op>)
    returns (nextRow: seq<int>, ghost log': seq<Op>)
    requires 2 <= k && h == k + 1 && log == SwatchOps(Rib, w, k) && priorRow == LastCourse(Rib, w, k)
    requires Mirrors(g, y, Replay(log))
    modifies g, y
    ensures log' == SwatchOps(Rib, w, h) && nextRow == LastCourse(Rib, w, h)
    ensures Mirrors(g, y, Replay(log'))
  {
    ghost var n := |g.nodes|;
    CourseStart(g, y, Rib, w, k, n);
    nextRow, log' := RibPlaces(g, y, priorRow, w, k, n, log);
    assert |g.nodes| == n + w;
    CourseDone(Rib, w, k, h, n, log, log');
    NextMinted(Rib, w, k, h, n, nextRow);
  }

  method RibPlaces(g: KnitGraph, y: Yarn, priorRow: seq<int>, ghost w: nat, ghost k: nat, ghost n: int, ghost log: seq<Op>)
    returns (nextRow: seq<int>, ghost log': seq<Op>)
    requires 2 <= k && n == k * w && |g.nodes| == n && priorRow == LastCourse(Rib, w, k) && |priorRow| == w
    requires log == SwatchOps(Rib, w, k) && Mirrors(g, y, Replay(log))
    requires forall x :: x in priorRow ==> 0 <= x < n
    modifies g, y
    ensures log' == log + CourseOps(Rib, k, priorRow, n, w) && Mirrors(g, y, Replay(log'))
    ensures |g.nodes| == n + w && nextRow == Range(n, |g.nodes|)
  {
    nextRow := [];
    log' := log;
    var reversedRow := Reversed(priorRow);
    var j := 0;
    while j < |reversedRow|
      invariant 0 <= j <= w
      invariant log' == log + CourseOps(Rib, k, priorRow, n, j)
      invariant Mirrors(g, y, Replay(log')) && |g.nodes| == n + j && nextRow == Range(n, |g.nodes|)
    {
      var parentId := reversedRow[j];
      RevIn(priorRow, j);
      ghost var c := |g.nodes|;
      var j' := j + 1;
      var childId;
      childId, log' := RibPlace(g, y, parentId, w, k, j, n, priorRow, log, log');
      PlacedAll(log, Rib, k, priorRow, n, j, j', childId, PullsAt(Rib, k, j, priorRow));
      RangeStep(n, c, |g.nodes|);
      nextRow := nextRow + [childId];
      j := j';
    }
  }

  /** One loop of a later rib course: added, added again, and pulled through its parent with the stitch below. */
  method RibPlace(g: KnitGraph, y: Yarn, parentId: int, ghost w: nat, ghost k: nat, ghost j: nat, ghost n: int,
                  ghost priorRow: seq<int>, ghost base: seq<Op>, ghost log: seq<Op>)
    returns (childId: int, ghost log': seq<Op>)
    requires 2 <= k && j < w && n == k * w && priorRow == LastCourse(Rib, w, k) && parentId == RevAt(priorRow, j)
    requires base == SwatchOps(Rib, w, k) && log == base + CourseOps(Rib, k, priorRow, n, j)
    requires Mirrors(g, y, Replay(log)) && 0 <= parentId < |g.nodes|
    modifies g, y
    ensures log' == log + PlaceOps(childId, PullsAt(Rib, k, j, priorRow)) && Mirrors(g, y, Replay(log'))
    ensures childId == old(|g.nodes|) && |g.nodes| == childId + 1
  {
    var child;
    childId, child, log' := AddToEnd(g, y, log);
    AddAgain(g, y, child, Replay(log'));
    RibUnder(g, y, w, k, j, n, priorRow, log');
    var grandParent := g.pred[parentId][0];
    var parentPullDirection := g.edges[(grandParent, parentId)].pullDirection;
    log' := Connect(g, y, parentId, childId, parentPullDirection, None, 0, 0, log');
    PlaceOpsOne(log, childId, Pull(parentId, Plain(parentPullDirection), None));
  }

  // ---------------------------------------------------------------------------
  // lace

  /**
   * `lace(width, height)`: a failed assertion unless `width` is a multiple of 6;
   * otherwise the cast-on, then courses that knit across on even rows and work the
   * lace repeat on odd ones.
   */
  method LaceSwatch(width: int, height: int) returns (r: Result<KnitGraph>)
    ensures r.Err? <==> width % 6 != 0
    ensures r.Err? ==> r.error == BadDimensions
    ensures r.Ok? ==> var g := r.value;
      && fresh(g) && g.Valid() && g.nodes == Range(0, Courses(height) * Count(width))
      && Swatch(Lace, MintedRows(Count(width), Courses(height)), g.ParentMap(), g.pred, g.edges)
  {
    if width % 6 != 0 {
      return Err(BadDimensions);
    }
    var g, y, lastCourse;
    ghost var log;
    g, y, lastCourse, log := CastOn(width);
    CastOnOps(Lace, Count(width));
    FirstCourse(Lace, Count(width));
    log := LaceCourses(g, y, lastCourse, height, Count(width), log);
    Finished(g, y, Lace, Count(width), Courses(height));
    r := Ok(g);
  }

  /** The courses of `range(1, height)`, each worked from the one before. */
  method LaceCourses(g: KnitGraph, y: Yarn, lastCourse: seq<int>, height: int, ghost w: nat, ghost log: seq<Op>)
    returns (ghost log': seq<Op>)
    requires w % 6 == 0 && log == SwatchOps(Lace, w, 1) && lastCourse == LastCourse(Lace, w, 1)
    requires Mirrors(g, y, Replay(log))
    modifies g, y
    ensures log' == SwatchOps(Lace, w, Courses(height)) && Mirrors(g, y, Replay(log'))
  {
    var course := lastCourse;
    log' := log;
    var r := 1;
    while r < height
      invariant 1 <= r <= Courses(height)
      invariant log' == SwatchOps(Lace, w, r) && course == LastCourse(Lace, w, r)
      invariant Mirrors(g, y, Replay(log'))
    {
      var r' := r + 1;
      course, log' := LaceCourse(g, y, course, r, r', w, log');
      r := r';
    }
    assert r == Courses(height);
  }

  /** Course `r`: plain knits when `r` is even, the lace repeat when it is odd. */
  method LaceCourse(g: KnitGraph, y: Yarn, lastCourse: seq<int>, r: int, ghost h: nat, ghost w: nat, ghost log: seq<Op>)
    returns (newCourse: seq<int>, ghost log': seq<Op>)
    requires 1 <= r && h == r + 1 && w % 6 == 0 && log == SwatchOps(Lace, w, r) && lastCourse == LastCourse(Lace, w, r)
    requires Mirrors(g, y, Replay(log))
    modifies g, y
    ensures log' == SwatchOps(Lace, w, h) && newCourse == LastCourse(Lace, w, h)
    ensures Mirrors(g, y, Replay(log'))
  {
    ghost var n := |g.nodes|;
    CourseStart(g, y, Lace, w, r, n);
    newCourse, log' := LacePlaces(g, y, lastCourse, r, n, log);
    assert |g.nodes| == n + w;
    CourseDone(Lace, w, r, h, n, log, log');
    NextMinted(Lace, w, r, h, n, newCourse);
  }

  method LacePlaces(g: KnitGraph, y: Yarn, lastCourse: seq<int>, r: int, ghost n: int, ghost log: seq<Op>)
    returns (newCourse: seq<int>, ghost log': seq<Op>)
    requires 1 <= r && |lastCourse| % 6 == 0 && |g.nodes| == n && Mirrors(g, y, Replay(log))
    requires forall x :: x in lastCourse ==> 0 <= x < n
    modifies g, y
    ensures log' == log + CourseOps(Lace, r, lastCourse, n, |lastCourse|) && Mirrors(g, y, Replay(log'))
    ensures |g.nodes| == n + |lastCourse| && newCourse == Range(n, |g.nodes|)
  {
    newCourse := [];
    log' := log;
    var reversedCourse := Reversed(lastCourse);
    var i := 0;
    while i < |reversedCourse|
      invariant 0 <= i <= |lastCourse|
      invariant log' == log + CourseOps(Lace, r, lastCourse, n, i)
      invariant Mirrors(g, y, Replay(log')) && |g.nodes| == n + i && newCourse == Range(n, |g.nodes|)
    {
      var parentLoopId := reversedCourse[i];
      ghost var c := |g.nodes|;
      var i' := i + 1;
      var loopId;
      loopId, log' := LacePlace(g, y, reversedCourse, i, parentLoopId, r, lastCourse, log');
      PlacedAll(log, Lace, r, lastCourse, n, i, i', loopId, PullsAt(Lace, r, i, lastCourse));
      RangeStep(n, c, |g.nodes|);
      newCourse := newCourse + [loopId];
      i := i';
    }
  }

  /**
   * Place `i` of course `r`: a new loop, then, on odd courses, a knit at places 0 and
   * 5 of each repeat, two loops stacked into it at places 1 and 4, and none at the
   * yarn-overs, places 2 and 3.
   */
  method LacePlace(g: KnitGraph, y: Yarn, reversedCourse: seq<int>, i: int, parentLoopId: int, r: int,
                   ghost lastCourse: seq<int>, ghost log: seq<Op>)
    returns (loopId: int, ghost log': seq<Op>)
    requires 1 <= r && reversedCourse == Reversed(lastCourse) && |lastCourse| % 6 == 0
    requires 0 <= i < |lastCourse| && parentLoopId == reversedCourse[i]
    requires forall x :: x in lastCourse ==> 0 <= x < |g.nodes|
    requires Mirrors(g, y, Replay(log))
    modifies g, y
    ensures log' == log + PlaceOps(loopId, PullsAt(Lace, r, i, lastCourse)) && Mirrors(g, y, Replay(log'))
    ensures loopId == old(|g.nodes|) && |g.nodes| == loopId + 1
  {
    RevIn(lastCourse, i);
    LacePullsAt(r, lastCourse, i);
    var loop;
    loopId, loop, log' := AddToEnd(g, y, log);
    if r % 2 == 0 {
      log' := Connect(g, y, parentLoopId, loopId, BtF, None, 0, 0, log');
      PlaceOpsOne(log, loopId, Pull(parentLoopId, Plain(BtF), None));
    } else {
      log' := LaceOdd(g, y, reversedCourse, i, parentLoopId, loopId, lastCourse, log, log');
    }
  }

  /** A decrease's second parent lies inside a course of whole repeats of six. */
  lemma Neighbours(n: int, i: int)
    requires n % 6 == 0 && 0 <= i < n
    ensures i % 6 == 1 ==> i + 1 < n
    ensures i % 6 == 4 ==> 1 <= i
  {
  }

  /** The calls into `loopId`, the `i`-th new loop of an odd lace course, after `add_loop_to_end` made it. */
  method LaceOdd(g: KnitGraph, y: Yarn, reversedCourse: seq<int>, i: int, parentLoopId: int, loopId: int,
                 ghost lastCourse: seq<int>, ghost base: seq<Op>, ghost log: seq<Op>)
    returns (ghost log': seq<Op>)
    requires reversedCourse == Reversed(lastCourse) && |lastCourse| % 6 == 0
    requires 0 <= i < |lastCourse| && parentLoopId == reversedCourse[i]
    requires forall x :: x in lastCourse ==> 0 <= x < |g.nodes|
    requires 0 <= loopId < |g.nodes| && loopId in g.loops
    requires log == base + [MakeLoop] && Mirrors(g, y, Replay(log))
    modifies g`edges, g`succ, g`pred, g.loops[loopId]
    ensures log' == base + PlaceOps(loopId, LacePulls(lastCourse, i)) && Mirrors(g, y, Replay(log'))
  {
    RevIn(lastCourse, i);
    Neighbours(|lastCourse|, i);
    if i % 6 == 0 || i % 6 == 5 {
      log' := Connect(g, y, parentLoopId, loopId, BtF, None, 0, 0, log);
      PlaceOpsOne(base, loopId, Pull(parentLoopId, Plain(BtF), None));
    } else if i % 6 == 1 {
      log' := LaceDecreaseOnto(g, y, reversedCourse, i, parentLoopId, loopId, lastCourse, base, log);
    } else if i % 6 == 4 {
      log' := LaceDecreaseUnder(g, y, reversedCourse, i, parentLoopId, loopId, lastCourse, base, log);
    } else {
      log' := log;
      PlaceStart(base, loopId);
    }
  }

  /** Place 1 of a lace repeat: its parent stacked at 1, then the next loop of the course at 0. */
  method LaceDecreaseOnto(g: KnitGraph, y: Yarn, reversedCourse: seq<int>, i: int, parentLoopId: int, loopId: int,
                 ghost lastCourse: seq<int>, ghost base: seq<Op>, ghost log: seq<Op>)
    returns (ghost log': seq<Op>)
    requires reversedCourse == Reversed(lastCourse) && |lastCourse| % 6 == 0
    requires 0 <= i < |lastCourse| && i % 6 == 1 && parentLoopId == reversedCourse[i]
    requires forall x :: x in lastCourse ==> 0 <= x < |g.nodes|
    requires 0 <= loopId < |g.nodes| && loopId in g.loops
    requires log == base + [MakeLoop] && Mirrors(g, y, Replay(log))
    modifies g`edges, g`succ, g`pred, g.loops[loopId]
    ensures log' == base + PlaceOps(loopId, LacePulls(lastCourse, i)) && Mirrors(g, y, Replay(log'))
  {
    Neighbours(|lastCourse|, i);
    var next := i + 1;
    var nextParent := reversedCourse[next];
    RevIn(lastCourse, i);
    RevIn(lastCourse, next);
    log' := Decrease(g, y, loopId, Pull(parentLoopId, Plain(BtF), Some(1)), Pull(nextParent, StitchEdge(BtF, 0, 1), Some(0)), base, log);
  }

  /** Place 4 of a lace repeat: the loop before its parent stacked at 0, then its parent at 1. */
  method LaceDecreaseUnder(g: KnitGraph, y: Yarn, reversedCourse: seq<int>, i: int, parentLoopId: int, loopId: int,
                 ghost lastCourse: seq<int>, ghost base: seq<Op>, ghost log: seq<Op>)
    returns (ghost log': seq<Op>)
    requires reversedCourse == Reversed(lastCourse) && |lastCourse| % 6 == 0
    requires 0 <= i < |lastCourse| && i % 6 == 4 && parentLoopId == reversedCourse[i]
    requires forall x :: x in lastCourse ==> 0 <= x < |g.nodes|
    requires 0 <= loopId < |g.nodes| && loopId in g.loops
    requires log == base + [MakeLoop] && Mirrors(g, y, Replay(log))
    modifies g`edges, g`succ, g`pred, g.loops[loopId]
    ensures log' == base + PlaceOps(loopId, LacePulls(lastCourse, i)) && Mirrors(g, y, Replay(log'))
  {
    Neighbours(|lastCourse|, i);
    var before := i - 1;
    var priorParent := reversedCourse[before];
    RevIn(lastCourse, i);
    RevIn(lastCourse, before);
    log' := Decrease(g, y, loopId, Pull(priorParent, StitchEdge(BtF, 0, -1), Some(0)), Pull(parentLoopId, Plain(BtF), Some(1)), base, log);
  }

  /** The two `connect_loops` calls of a lace decrease: two parents stacked into the new loop `childId`, in order. */
  method Decrease(g: KnitGraph, y: Yarn, childId: int, first: Pull, second: Pull, ghost base: seq<Op>, ghost log: seq<Op>)
    returns (ghost log': seq<Op>)
    requires log == base + [MakeLoop] && Mirrors(g, y, Replay(log))
    requires 0 <= first.parent < |g.nodes| && 0 <= second.parent < |g.nodes| && 0 <= childId < |g.nodes| && childId in g.loops
    modifies g`edges, g`succ, g`pred, g.loops[childId]
    ensures log' == base + PlaceOps(childId, [first, second]) && Mirrors(g, y, Replay(log'))
  {
    log' := Connect(g, y, first.parent, childId, first.edge.pullDirection, first.position, first.edge.depth,
                    first.edge.parentOffset, log);
    log' := Connect(g, y, second.parent, childId, second.edge.pullDirection, second.position, second.edge.depth,
                    second.edge.parentOffset, log');
    PlaceOpsTwo(base, childId, first, second);
  }

  // ---------------------------------------------------------------------------
  // cable

  /**
   * `cable(width, height)`: a failed assertion unless `width` is a multiple of 5;
   * otherwise the cast-on, then courses that knit across on even rows and cross two
   * loops over one in each repeat on odd ones, handing the crossed order on.
   */
  method CableSwatch(width: int, height: int) returns (r: Result<KnitGraph>)
    ensures r.Err? <==> width % 5 != 0
    ensures r.Err? ==> r.error == BadDimensions
    ensures r.Ok? ==> var g := r.value;
      && fresh(g) && g.Valid() && g.nodes == Range(0, Courses(height) * Count(width))
      && Swatch(Cable, MintedRows(Count(width), Courses(height)), g.ParentMap(), g.pred, g.edges)
  {
    if width % 5 != 0 {
      return Err(BadDimensions);
    }
    var g, y, lastCourse;
    ghost var log;
    g, y, lastCourse, log := CastOn(width);
    CastOnOps(Cable, Count(width));
    FirstCourse(Cable, Count(width));
    log := CableCourses(g, y, lastCourse, height, Count(width), log);
    Finished(g, y, Cable, Count(width), Courses(height));
    r := Ok(g);
  }

  /** The courses of `range(1, height)`, each worked from the one handed on before it. */
  method CableCourses(g: KnitGraph, y: Yarn, lastCourse: seq<int>, height: int, ghost w: nat, ghost log: seq<Op>)
    returns (ghost log': seq<Op>)
    requires log == SwatchOps(Cable, w, 1) && lastCourse == LastCourse(Cable, w, 1)
    requires Mirrors(g, y, Replay(log))
    modifies g, y
    ensures log' == SwatchOps(Cable, w, Courses(height)) && Mirrors(g, y, Replay(log'))
  {
    var course := lastCourse;
    log' := log;
    var r := 1;
    while r < height
      invariant 1 <= r <= Courses(height)
      invariant log' == SwatchOps(Cable, w, r) && course == LastCourse(Cable, w, r)
      invariant Mirrors(g, y, Replay(log'))
    {
      var r' := r + 1;
      course, log' := CableCourse(g, y, course, r, r', w, log');
      r := r';
    }
    assert r == Courses(height);
  }

  /** Course `r`, handed on in its cable order when it has one. */
  method CableCourse(g: KnitGraph, y: Yarn, lastCourse: seq<int>, r: int, ghost h: nat, ghost w: nat, ghost log: seq<Op>)
    returns (newCourse: seq<int>, ghost log': seq<Op>)
    requires 1 <= r && h == r + 1 && log == SwatchOps(Cable, w, r) && lastCourse == LastCourse(Cable, w, r)
    requires Mirrors(g, y, Replay(log))
    modifies g, y
    ensures log' == SwatchOps(Cable, w, h) && newCourse == LastCourse(Cable, w, h)
    ensures Mirrors(g, y, Replay(log'))
  {
    ghost var n := |g.nodes|;
    CourseStart(g, y, Cable, w, r, n);
    var cableCourse;
    newCourse, cableCourse, log' := CablePlaces(g, y, lastCourse, r, n, log);
    assert |g.nodes| == n + w;
    CourseDone(Cable, w, r, h, n, log, log');
    NextCable(w, r, h, n, newCourse, cableCourse);
    if |cableCourse| > 0 {
      newCourse := cableCourse;
    }
  }

  method CablePlaces(g: KnitGraph, y: Yarn, lastCourse: seq<int>, r: int, ghost n: int, ghost log: seq<Op>)
    returns (newCourse: seq<int>, cableCourse: seq<int>, ghost log': seq<Op>)
    requires 1 <= r && |g.nodes| == n && Mirrors(g, y, Replay(log))
    requires forall x :: x in lastCourse ==> 0 <= x < n
    modifies g, y
    ensures log' == log + CourseOps(Cable, r, lastCourse, n, |lastCourse|) && Mirrors(g, y, Replay(log'))
    ensures |g.nodes| == n + |lastCourse| && newCourse == Range(n, |g.nodes|)
    ensures cableCourse == if r % 2 == 1 then CableOrder(newCourse) else []
  {
    newCourse := [];
    cableCourse := [];
    log' := log;
    var reservedCourse := Reversed(lastCourse);
    var l := 0;
    while l < |reservedCourse|
      invariant 0 <= l <= |lastCourse|
      invariant log' == log + CourseOps(Cable, r, lastCourse, n, l)
      invariant Mirrors(g, y, Replay(log')) && |g.nodes| == n + l && newCourse == Range(n, |g.nodes|)
      invariant cableCourse == if r % 2 == 1 then CableOrder(newCourse) else []
    {
      var parentLoopId := reservedCourse[l];
      ghost var c := |g.nodes|;
      var l' := l + 1;
      var loopId;
      loopId, cableCourse, log' := CablePlace(g, y, reservedCourse, l, parentLoopId, r, cableCourse, lastCourse, log');
      PlacedAll(log, Cable, r, lastCourse, n, l, l', loopId, PullsAt(Cable, r, l, lastCourse));
      RangeStep(n, c, |g.nodes|);
      CableSnoc(newCourse, loopId);
      newCourse := newCourse + [loopId];
      l := l';
    }
  }

  /**
   * Place `l` of course `r`: a new loop, knit through its parent; on odd courses,
   * places 2 and 3 of each repeat cross behind and go before the last loop of the
   * cable list, and place 1 crosses in front.
   */
  method CablePlace(g: KnitGraph, y: Yarn, reservedCourse: seq<int>, l: int, parentLoopId: int, r: int,
                    cableCourse: seq<int>, ghost lastCourse: seq<int>, ghost log: seq<Op>)
    returns (loopId: int, cableCourse': seq<int>, ghost log': seq<Op>)
    requires 1 <= r && reservedCourse == Reversed(lastCourse)
    requires 0 <= l < |lastCourse| && parentLoopId == reservedCourse[l]
    requires forall x :: x in lastCourse ==> 0 <= x < |g.nodes|
    requires Mirrors(g, y, Replay(log))
    modifies g, y
    ensures log' == log + PlaceOps(loopId, PullsAt(Cable, r, l, lastCourse)) && Mirrors(g, y, Replay(log'))
    ensures loopId == old(|g.nodes|) && |g.nodes| == loopId + 1
    ensures cableCourse' == if r % 2 == 1 then CableStep(cableCourse, l, loopId) else cableCourse
  {
    RevIn(lastCourse, l);
    CablePullsAt(r, lastCourse, l);
    var loop;
    loopId, loop, log' := AddToEnd(g, y, log);
    cableCourse' := cableCourse;
    if r % 2 == 0 {
      log' := Connect(g, y, parentLoopId, loopId, BtF, None, 0, 0, log');
      PlaceOpsOne(log, loopId, Pull(parentLoopId, Plain(BtF), None));
    } else if l % 5 == 0 || l % 5 == 4 {
      log' := Connect(g, y, parentLoopId, loopId, BtF, None, 0, 0, log');
      cableCourse' := cableCourse + [loopId];
      PlaceOpsOne(log, loopId, Pull(parentLoopId, Plain(BtF), None));
    } else if l % 5 == 3 || l % 5 == 2 {
      cableCourse' := Insert(cableCourse, -1, loopId);
      log' := Connect(g, y, parentLoopId, loopId, BtF, None, -1, 1, log');
      PlaceOpsOne(log, loopId, Pull(parentLoopId, StitchEdge(BtF, -1, 1), None));
    } else {
      // l % 5 == 1
      cableCourse' := cableCourse + [loopId];
      log' := Connect(g, y, parentLoopId, loopId, BtF, None, 1, -2, log');
      PlaceOpsOne(log, loopId, Pull(parentLoopId, StitchEdge(BtF, 1, -2), None));
    }
  }
}
