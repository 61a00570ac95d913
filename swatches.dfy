/**
 * The swatch generators, over the knit graph and yarn classes. Each casts on a course
 * of loops on one yarn, then works course after course across the last one in
 * reverse, adding each new loop to the end of the yarn and connecting it to its
 * parents. Each generator keeps, as ghost state, the log of the mutations it has made
 * (`SwatchLogs`), and the graph and the yarn always show that log's replay; the
 * finished log is the pattern's, whose replay is the pattern's swatch.
 */
module Swatches {
  import opened Basics
  import opened PyLists
  import opened PullDirections
  import opened KnitGraphs
  import opened StitchPlans
  import opened SwatchLogs

  /** The number of elements of `range(0, n)`. */
  function Count(n: int): nat {
    if n < 0 then 0 else n
  }

  /** The courses a generator makes: the cast-on course, then one for each of `range(1, height)`. */
  function Courses(height: int): nat {
    if height < 1 then 1 else height
  }

  /** `[*reversed(s)]`. */
  function Reversed(s: seq<int>): (r: seq<int>)
    ensures |r| == |s| && forall i :: 0 <= i < |s| ==> r[i] == RevAt(s, i)
  {
    seq(|s|, i requires 0 <= i < |s| => s[|s| - 1 - i])
  }

  /**
   * The graph and the yarn show the sketch `s`. Only what this module proves about
   * one mutation needs the content (`Shows`); the generators hand it along.
   */
  ghost predicate Mirrors(g: KnitGraph, y: Yarn, s: Sketch)
    reads g, y, g.loops.Values
  {
    forall k :: Opened(k) ==> Shows(g, y, s)
  }

  /**
   * The graph's nodes, predecessor lists, edges and parent stacks are the sketch's, the
   * yarn holds the same loops in the same order and ends at the last one, and the ids
   * were minted 0, 1, 2, ...
   */
  ghost predicate Shows(g: KnitGraph, y: Yarn, s: Sketch)
    reads g, y, g.loops.Values
  {
    && g.Valid() && y.Valid() && y.Tracked()
    && g.nodes == s.nodes && y.nodes == s.nodes && y.strand == s.nodes
    && Consecutive(s.nodes) && g.lastLoopId == |s.nodes| - 1
    && g.pred == s.pred && g.edges == s.edges && g.ParentMap() == s.parents
  }

  /** `yarn.add_loop_to_end(knit_graph=g)`: a new loop with the next id, at the end of the yarn and in the graph. */
  method AddToEnd(g: KnitGraph, y: Yarn, ghost log: seq<Op>) returns (loopId: int, loop: Loop, ghost log': seq<Op>)
    requires Mirrors(g, y, Replay(log))
    modifies g, y
    ensures log' == log + [MakeLoop] && Mirrors(g, y, Replay(log'))
    ensures loopId == |old(g.nodes)| && |g.nodes| == loopId + 1 && fresh(loop) && loop.loopId == loopId && loop.yarn == y
    ensures g.loops == old(g.loops)[loopId := loop]
    ensures g.yarns == old(g.yarns)[y.yarnId := y]
  {
    loopId, loop := NewLoop(g, y, Replay(log));
    log' := log + [MakeLoop];
    RunSnoc(Blank, log, MakeLoop);
  }

  /** `add_loop_to_end` on a graph and a yarn that show `s`: they show `s` with one more loop. */
  method NewLoop(g: KnitGraph, y: Yarn, ghost s: Sketch) returns (loopId: int, loop: Loop)
    requires Mirrors(g, y, s)
    modifies g, y
    ensures Mirrors(g, y, Apply(s, MakeLoop))
    ensures loopId == |old(g.nodes)| && |g.nodes| == loopId + 1 && fresh(loop) && loop.loopId == loopId && loop.yarn == y
    ensures g.loops == old(g.loops)[loopId := loop]
    ensures g.yarns == old(g.yarns)[y.yarnId := y]
  {
    assert Opened(0);
    ConsecutiveRange(s.nodes);
    ConsecutiveSnoc(s.nodes);
    loopId, loop := Make(g, y);
  }

  /** `yarn.add_loop_to_end(knit_graph=g)` on a yarn that ends at the graph's last loop, as far as the mirror needs it. */
  method Make(g: KnitGraph, y: Yarn) returns (loopId: int, loop: Loop)
    requires g.Valid() && y.Valid() && y.Tracked() && g.lastLoopId + 1 !in y.strand
    modifies g, y
    ensures g.Valid() && y.Valid() && y.Tracked()
    ensures loopId == old(g.lastLoopId) + 1 && loopId !in old(g.loops)
    ensures fresh(loop) && loop.loopId == loopId && loop.yarn == y && loop.parents == []
    ensures y.nodes == old(y.nodes) + [loopId] && y.strand == old(y.strand) + [loopId]
    ensures g.nodes == old(g.nodes) + [loopId] && g.loops == old(g.loops)[loopId := loop]
    ensures g.edges == old(g.edges) && g.lastLoopId == loopId && g.yarns == old(g.yarns)[y.yarnId := y]
    ensures g.pred == old(g.pred)[loopId := []] && g.ParentMap() == old(g.ParentMap())[loopId := []]
  {
    ghost var loops, pm := g.loops, g.ParentMap();
    var r := y.AddLoopToEnd(None, g);
    loopId, loop := r.value.0, r.value.1;
    assert forall x :: x in loops ==> g.loops[x] == loops[x];
    Extended(g, loopId, loop, loops, pm);
  }

  /** The parent stacks once a new loop `c` with no parents joined the loops `loops` and no other loop changed. */
  lemma Extended(g: KnitGraph, c: int, loop: Loop, loops: map<int, Loop>, pm: map<int, seq<int>>)
    requires c !in loops && g.loops == loops[c := loop] && loop.parents == []
    requires forall x :: x in pm <==> x in loops
    requires forall x :: x in loops ==> g.loops[x].parents == pm[x]
    ensures g.ParentMap() == pm[c := []]
  {
    var pm' := g.ParentMap();
    assert forall x :: x in pm' <==> x in pm[c := []];
    assert forall x :: x in pm' ==> pm'[x] == pm[c := []][x];
  }

  /** The parent stacks once the loop `c` took the stack `stack` and no other loop changed. */
  lemma Restacked(g: KnitGraph, c: int, stack: seq<int>, pm: map<int, seq<int>>)
    requires c in g.loops && g.loops[c].parents == stack
    requires forall x :: x in pm <==> x in g.loops
    requires forall x :: x in g.loops && x != c ==> g.loops[x].parents == pm[x]
    ensures g.ParentMap() == pm[c := stack]
  {
    var pm' := g.ParentMap();
    assert forall x :: x in pm' <==> x in pm[c := stack];
    assert forall x :: x in pm' ==> pm'[x] == pm[c := stack][x];
  }

  /** `g.connect_loops(parentId, childId, ...)` on two loops of the graph. */
  method Connect(g: KnitGraph, y: Yarn, parentId: int, childId: int, pullDirection: PullDirection,
                 stackPosition: Option<int>, depth: int, parentOffset: int, ghost log: seq<Op>)
    returns (ghost log': seq<Op>)
    requires Mirrors(g, y, Replay(log))
    requires 0 <= parentId < |g.nodes| && 0 <= childId < |g.nodes| && childId in g.loops
    modifies g`edges, g`succ, g`pred, g.loops[childId]
    ensures log' == log + [PullLoop(childId, Pull(parentId, StitchEdge(pullDirection, depth, parentOffset), stackPosition))]
    ensures Mirrors(g, y, Replay(log')) && g.loops == old(g.loops)
  {
    Stitch(g, y, parentId, childId, pullDirection, stackPosition, depth, parentOffset, Replay(log));
    log' := log + [PullLoop(childId, Pull(parentId, StitchEdge(pullDirection, depth, parentOffset), stackPosition))];
    RunSnoc(Blank, log, PullLoop(childId, Pull(parentId, StitchEdge(pullDirection, depth, parentOffset), stackPosition)));
  }

  /** `connect_loops` on a graph and a yarn that show `s`: they show `s` with one more stitch. */
  method Stitch(g: KnitGraph, y: Yarn, parentId: int, childId: int, pullDirection: PullDirection,
                stackPosition: Option<int>, depth: int, parentOffset: int, ghost s: Sketch)
    requires Mirrors(g, y, s)
    requires 0 <= parentId < |g.nodes| && 0 <= childId < |g.nodes| && childId in g.loops
    modifies g`edges, g`succ, g`pred, g.loops[childId]
    ensures Mirrors(g, y, Apply(s, PullLoop(childId, Pull(parentId, StitchEdge(pullDirection, depth, parentOffset), stackPosition))))
    ensures g.loops == old(g.loops)
  {
    assert Opened(0);
    ConsecutiveRange(s.nodes);
    ghost var pull := Pull(parentId, StitchEdge(pullDirection, depth, parentOffset), stackPosition);
    ghost var yarnShows := y.Valid() && y.Tracked() && y.nodes == s.nodes && y.strand == s.nodes;
    Link(g, parentId, childId, pullDirection, stackPosition, depth, parentOffset);
    assert yarnShows;
    ApplyPull(s, childId, pull, Apply(s, PullLoop(childId, pull)));
    assert Shows(g, y, Apply(s, PullLoop(childId, pull)));
  }

  /** `connect_loops` on two loops of the graph, as far as the mirror needs it. */
  method Link(g: KnitGraph, parentId: int, childId: int, pullDirection: PullDirection,
              stackPosition: Option<int>, depth: int, parentOffset: int)
    requires g.Valid() && parentId in g.loops && childId in g.loops
    modifies g`edges, g`succ, g`pred, g.loops[childId]
    ensures g.Valid() && g.loops == old(g.loops) && g.nodes == old(g.nodes) && g.lastLoopId == old(g.lastLoopId)
    ensures g.edges == old(g.edges)[(parentId, childId) := StitchEdge(pullDirection, depth, parentOffset)]
    ensures g.pred == old(g.pred)[childId := AppendNew(old(g.pred[childId]), parentId)]
    ensures g.ParentMap() == old(g.ParentMap())[childId := Stacked(old(g.ParentMap())[childId], parentId, stackPosition)]
  {
    ghost var pm, loops := g.ParentMap(), g.loops;
    var r := g.ConnectLoops(parentId, childId, pullDirection, stackPosition, depth, parentOffset);
    assert r.Pass? && g.loops == loops;
    Restacked(g, childId, Stacked(pm[childId], parentId, stackPosition), pm);
  }

  /** One `connect_loops` call on a loop of the sketch. */
  lemma ApplyPull(s: Sketch, c: int, pull: Pull, s': Sketch)
    requires c in s.parents && c in s.pred && s' == Apply(s, PullLoop(c, pull))
    ensures s'.nodes == s.nodes && s'.edges == s.edges[(pull.parent, c) := pull.edge]
    ensures s'.parents == s.parents[c := Stacked(s.parents[c], pull.parent, pull.position)]
    ensures s'.pred == s.pred[c := AppendNew(s.pred[c], pull.parent)]
  {
  }

  /** `g.add_loop(loop)` on a loop already added: the graph and the yarn show the same sketch. */
  method AddAgain(g: KnitGraph, y: Yarn, loop: Loop, ghost s: Sketch)
    requires Mirrors(g, y, s) && loop.yarn == y
    requires loop.loopId in g.loops && g.loops[loop.loopId] == loop
    modifies g`nodes, g`loops, g`succ, g`pred, g`yarns, g`lastLoopId
    ensures Mirrors(g, y, s) && g.loops == old(g.loops) && g.nodes == old(g.nodes)
    ensures g.yarns == old(g.yarns)[y.yarnId := y]
  {
    assert Opened(0);
    Readd(g, loop);
  }

  /** `g.add_loop(loop)` on a loop of the graph that is on its yarn: nothing it shows changes. */
  method Readd(g: KnitGraph, loop: Loop)
    requires g.Valid() && loop.loopId in g.loops && g.loops[loop.loopId] == loop && loop.yarn.Contains(LoopItem(loop))
    modifies g`nodes, g`loops, g`succ, g`pred, g`yarns, g`lastLoopId
    ensures g.Valid() && g.loops == old(g.loops) && g.nodes == old(g.nodes) && g.pred == old(g.pred)
    ensures g.edges == old(g.edges) && g.lastLoopId == old(g.lastLoopId) && g.ParentMap() == old(g.ParentMap())
    ensures g.yarns == old(g.yarns)[loop.yarn.yarnId := loop.yarn]
  {
    ghost var pm := g.ParentMap();
    var r := g.AddLoop(LoopItem(loop));
    assert g.loops == old(g.loops);
    ghost var pm' := g.ParentMap();
    assert forall x :: x in pm' <==> x in pm;
    assert forall x :: x in pm' ==> pm'[x] == pm[x];
  }

  /** `cast_on(width)`: a new graph and a yarn `"yarn"` holding `width` new loops, with no stitches. */
  method CastOn(width: int) returns (g: KnitGraph, y: Yarn, course: seq<int>, ghost log: seq<Op>)
    ensures fresh(g) && fresh(y)
    ensures log == Mints(Count(width)) && Mirrors(g, y, Replay(log))
    ensures course == y.Loops() && course == Range(0, Count(width))
    ensures y.yarnId == "yarn" && g.yarns == map["yarn" := y]
  {
    g := new KnitGraph();
    y := new Yarn("yarn", null, 2, 30, Some("green"));
    g.AddYarn(y);
    log := [];
    assert Replay(log) == Blank;
    var i := 0;
    while i < width
      invariant 0 <= i <= Count(width)
      invariant fresh(g) && fresh(y)
      invariant log == Mints(i) && Mirrors(g, y, Replay(log)) && |g.nodes| == i
      invariant y.yarnId == "yarn" && g.yarns == map["yarn" := y]
    {
      var loopId, loop;
      loopId, loop, log := AddToEnd(g, y, log);
      MintsSnoc(i);
      i := i + 1;
    }
    course := y.Loops();
    assert Opened(0);
    ConsecutiveRange(y.nodes);
  }

  // ---------------------------------------------------------------------------
  // the steps every generator takes

  /** The cast-on course is the course the first worked course is worked from. */
  lemma {:induction false} FirstCourse(pattern: Pattern, w: nat)
    ensures LastCourse(pattern, w, 1) == Range(0, w)
  {
    MintedAt(w, 1, 0, 0);
  }

  /** A course starts on the `k * w` loops of the courses before it, and is worked from `w` of them. */
  lemma {:induction false} CourseStart(g: KnitGraph, y: Yarn, pattern: Pattern, w: nat, k: nat, n: int)
    requires 1 <= k && n == |g.nodes|
    requires Mirrors(g, y, Replay(SwatchOps(pattern, w, k)))
    ensures n == k * w && |LastCourse(pattern, w, k)| == w
    ensures forall x :: x in LastCourse(pattern, w, k) ==> 0 <= x < n
  {
    assert Opened(0);
    SwatchLength(pattern, w, k);
    LastCourseFacts(pattern, w, k);
  }

  /** A loop placed with the one call its place asks for completes that place. */
  lemma {:induction false} PlacedOne(base: seq<Op>, pattern: Pattern, k: nat, prev: seq<int>, n: int, j: nat, j': nat,
                                     c: int, pull: Pull)
    requires c == n + j && j' == j + 1 && PullsAt(pattern, k, j, prev) == [pull]
    ensures base + CourseOps(pattern, k, prev, n, j) + [MakeLoop] + [PullLoop(c, pull)]
            == base + CourseOps(pattern, k, prev, n, j')
  {
    var ops := base + CourseOps(pattern, k, prev, n, j);
    PlaceStart(ops, c);
    PlaceMore(ops, c, [], pull);
    assert [] + [pull] == [pull];
    CourseStep(base, pattern, k, prev, n, j, [pull]);
  }

  /** The loop `reversed(course)[i]` is a loop of the course. */
  lemma RevIn(course: seq<int>, i: int)
    requires 0 <= i < |course|
    ensures RevAt(course, i) in course
  {
  }

  /** `add_loop_to_end` and then `connect_loops` from a loop of the graph to the new loop. */
  method PlaceOne(g: KnitGraph, y: Yarn, parentId: int, pullDirection: PullDirection, stackPosition: Option<int>,
                  depth: int, parentOffset: int, ghost log: seq<Op>)
    returns (loopId: int, ghost log': seq<Op>)
    requires Mirrors(g, y, Replay(log)) && 0 <= parentId < |g.nodes|
    modifies g, y
    ensures log' == log + [MakeLoop] + [PullLoop(loopId, Pull(parentId, StitchEdge(pullDirection, depth, parentOffset), stackPosition))]
    ensures Mirrors(g, y, Replay(log'))
    ensures loopId == old(|g.nodes|) && |g.nodes| == loopId + 1
  {
    var loop;
    loopId, loop, log' := AddToEnd(g, y, log);
    log' := Connect(g, y, parentId, loopId, pullDirection, stackPosition, depth, parentOffset, log');
  }

  /** A finished course extends the log of the swatch. */
  lemma {:induction false} CourseDone(pattern: Pattern, w: nat, k: nat, h: nat, n: int, log: seq<Op>, log': seq<Op>)
    requires h == k + 1 && n == k * w && log == SwatchOps(pattern, w, k)
    requires log' == log + CourseOps(pattern, k, LastCourse(pattern, w, k), n, w)
    ensures log' == SwatchOps(pattern, w, h)
  {
    SwatchOpsNext(pattern, w, k, h);
    CourseAt(pattern, k, LastCourse(pattern, w, k), w, n, w);
  }

  /** A finished swatch: the graph holds the pattern's swatch of `h` courses of `w` loops. */
  lemma {:induction false} Finished(g: KnitGraph, y: Yarn, pattern: Pattern, w: nat, h: nat)
    requires Mirrors(g, y, Replay(SwatchOps(pattern, w, h)))
    ensures g.Valid() && g.nodes == Range(0, h * w)
    ensures Swatch(pattern, MintedRows(w, h), g.ParentMap(), g.pred, g.edges)
  {
    assert Opened(0);
    var s := Replay(SwatchOps(pattern, w, h));
    SwatchReplayed(pattern, w, h);
    SameSwatch(pattern, MintedRows(w, h), s.parents, s.pred, s.edges, g.ParentMap(), g.pred, g.edges);
  }

  lemma SameSwatch(pattern: Pattern, rows: seq<seq<int>>, parents: map<int, seq<int>>, pred: map<int, seq<int>>,
                   edges: map<(int, int), StitchEdge>, parents': map<int, seq<int>>, pred': map<int, seq<int>>,
                   edges': map<(int, int), StitchEdge>)
    requires parents' == parents && pred' == pred && edges' == edges
    requires Swatch(pattern, rows, parents, pred, edges)
    ensures Swatch(pattern, rows, parents', pred', edges')
  {
  }

  // ---------------------------------------------------------------------------
  // jersey

  /**
   * `jersey_knit(width, height)`: after the cast-on, each course pulls one new loop
   * knit-wise through each loop of the last course, taken in reverse.
   */
  method JerseyKnit(width: int, height: int) returns (g: KnitGraph)
    ensures fresh(g) && g.Valid()
    ensures g.nodes == Range(0, Courses(height) * Count(width))
    ensures Swatch(Jersey, MintedRows(Count(width), Courses(height)), g.ParentMap(), g.pred, g.edges)
  {
    var y, lastCourse;
    ghost var log;
    g, y, lastCourse, log := CastOn(width);
    CastOnOps(Jersey, Count(width));
    FirstCourse(Jersey, Count(width));
    log := JerseyCourses(g, y, lastCourse, height, Count(width), log);
    Finished(g, y, Jersey, Count(width), Courses(height));
  }

  /** The courses of `range(1, height)`, each worked from the one before. */
  method JerseyCourses(g: KnitGraph, y: Yarn, lastCourse: seq<int>, height: int, ghost w: nat, ghost log: seq<Op>)
    returns (ghost log': seq<Op>)
    requires log == SwatchOps(Jersey, w, 1) && lastCourse == LastCourse(Jersey, w, 1)
    requires Mirrors(g, y, Replay(log))
    modifies g, y
    ensures log' == SwatchOps(Jersey, w, Courses(height)) && Mirrors(g, y, Replay(log'))
  {
    var course := lastCourse;
    log' := log;
    var r := 1;
    while r < height
      invariant 1 <= r <= Courses(height)
      invariant log' == SwatchOps(Jersey, w, r) && course == LastCourse(Jersey, w, r)
      invariant Mirrors(g, y, Replay(log'))
    {
      var r' := r + 1;
      course, log' := JerseyCourse(g, y, course, w, r, r', log');
      r := r';
    }
    assert r == Courses(height);
  }

  /** One jersey course: a new loop knit through each loop of `lastCourse`, taken in reverse. */
  method JerseyCourse(g: KnitGraph, y: Yarn, lastCourse: seq<int>, ghost w: nat, ghost k: nat, ghost h: nat, ghost log: seq<Op>)
    returns (newCourse: seq<int>, ghost log': seq<Op>)
    requires 1 <= k && h == k + 1 && log == SwatchOps(Jersey, w, k) && lastCourse == LastCourse(Jersey, w, k)
    requires Mirrors(g, y, Replay(log))
    modifies g, y
    ensures log' == SwatchOps(Jersey, w, h) && newCourse == LastCourse(Jersey, w, h)
    ensures Mirrors(g, y, Replay(log'))
  {
    ghost var n := |g.nodes|;
    CourseStart(g, y, Jersey, w, k, n);
    newCourse, log' := JerseyPlaces(g, y, lastCourse, k, n, log);
    assert |g.nodes| == n + w;
    CourseDone(Jersey, w, k, h, n, log, log');
    NextMinted(Jersey, w, k, h, n, newCourse);
  }

  /** The loops of a jersey course: one new loop knit through each loop of `lastCourse`, taken in reverse. */
  method JerseyPlaces(g: KnitGraph, y: Yarn, lastCourse: seq<int>, ghost k: nat, ghost n: int, ghost log: seq<Op>)
    returns (newCourse: seq<int>, ghost log': seq<Op>)
    requires 1 <= k && |g.nodes| == n && Mirrors(g, y, Replay(log))
    requires forall x :: x in lastCourse ==> 0 <= x < n
    modifies g, y
    ensures log' == log + CourseOps(Jersey, k, lastCourse, n, |lastCourse|) && Mirrors(g, y, Replay(log'))
    ensures |g.nodes| == n + |lastCourse| && newCourse == Range(n, |g.nodes|)
  {
    newCourse := [];
    log' := log;
    var reversedCourse := Reversed(lastCourse);
    var j := 0;
    while j < |reversedCourse|
      invariant 0 <= j <= |lastCourse|
      invariant log' == log + CourseOps(Jersey, k, lastCourse, n, j)
      invariant Mirrors(g, y, Replay(log')) && |g.nodes| == n + j && newCourse == Range(n, |g.nodes|)
    {
      var parentId := reversedCourse[j];
      RevIn(lastCourse, j);
      JerseyPulls(k, lastCourse, j);
      ghost var c := |g.nodes|;
      var j' := j + 1;
      var loopId;
      loopId, log' := PlaceOne(g, y, parentId, BtF, None, 0, 0, log');
      PlacedOne(log, Jersey, k, lastCourse, n, j, j', loopId, Pull(parentId, Plain(BtF), None));
      RangeStep(n, c, |g.nodes|);
      newCourse := newCourse + [loopId];
      j := j';
    }
  }
}
