/**
 * The swatch generators as logs of the mutations they make. A generator does nothing
 * to the graph but add loops to the end of its yarn and connect pairs of loops, so
 * its effect is the replay of a list of those two operations on the parts of the
 * graph they touch. The log of each pattern is defined course by course, and its
 * replay is proved to be the swatch the pattern describes (`StitchPlans.Swatch`).
 */
module SwatchLogs {
  import opened Basics
  import opened PyLists
  import opened PullDirections
  import opened KnitGraphs
  import opened StitchPlans

  /** One mutation: a new loop added to the end of the yarn, or one `connect_loops` call into `child`. */
  datatype Op = MakeLoop | PullLoop(child: int, pull: Pull)

  /** What the mutations leave behind: the loop ids in order, the parent stacks, the predecessor lists and the edges. */
  datatype Sketch = Sketch(nodes: seq<int>, parents: map<int, seq<int>>, pred: map<int, seq<int>>,
                           edges: map<(int, int), StitchEdge>)

  function Get(m: map<int, seq<int>>, x: int): seq<int> {
    if x in m then m[x] else []
  }

  /** The effect of one mutation. A new loop takes the next id and has no parents yet. */
  function Apply(s: Sketch, op: Op): (r: Sketch)
    ensures op.MakeLoop? ==> r.nodes == s.nodes + [|s.nodes|] && r.edges == s.edges
    ensures op.MakeLoop? ==> r.parents == s.parents[|s.nodes| := []] && r.pred == s.pred[|s.nodes| := []]
    ensures op.PullLoop? ==> r.nodes == s.nodes && r.edges == s.edges[(op.pull.parent, op.child) := op.pull.edge]
  {
    match op
    case MakeLoop =>
      var c := |s.nodes|;
      Sketch(s.nodes + [c], s.parents[c := []], s.pred[c := []], s.edges)
    case PullLoop(c, pull) =>
      Sketch(s.nodes, s.parents[c := Stacked(Get(s.parents, c), pull.parent, pull.position)],
             s.pred[c := AppendNew(Get(s.pred, c), pull.parent)], s.edges[(pull.parent, c) := pull.edge])
  }

  /** The mutations `ops`, in order, from `s`. */
  function Run(s: Sketch, ops: seq<Op>): Sketch
    decreases |ops|
  {
    if ops == [] then s else Apply(Run(s, ops[..|ops| - 1]), ops[|ops| - 1])
  }

  /** A new graph: no loops, no edges. */
  const Blank: Sketch := Sketch([], map[], map[], map[])

  function Replay(ops: seq<Op>): Sketch {
    Run(Blank, ops)
  }

  lemma {:induction false} RunSnoc(s: Sketch, ops: seq<Op>, op: Op)
    ensures Run(s, ops + [op]) == Apply(Run(s, ops), op)
  {
    assert (ops + [op])[..|ops|] == ops;
  }

  lemma {:induction false} RunConcat(s: Sketch, a: seq<Op>, b: seq<Op>)
    ensures Run(s, a + b) == Run(Run(s, a), b)
    decreases |b|
  {
    if b == [] {
      assert a + b == a;
    } else {
      var b', op := b[..|b| - 1], b[|b| - 1];
      assert a + b == (a + b') + [op];
      RunSnoc(s, a + b', op);
      RunSnoc(Run(s, a), b', op);
      RunConcat(s, a, b');
    }
  }

  // ---------------------------------------------------------------------------
  // the logs of the patterns

  /** The `connect_loops` calls into `c`, in order. */
  function Links(c: int, pulls: seq<Pull>): (r: seq<Op>)
    ensures |r| == |pulls| && forall i {:trigger r[i]} :: 0 <= i < |pulls| ==> r[i] == PullLoop(c, pulls[i])
    decreases |pulls|
  {
    if pulls == [] then [] else Links(c, pulls[..|pulls| - 1]) + [PullLoop(c, pulls[|pulls| - 1])]
  }

  /** Placing loop `c`: it is added to the yarn, then pulled through its parents. */
  function PlaceOps(c: int, pulls: seq<Pull>): seq<Op> {
    [MakeLoop] + Links(c, pulls)
  }

  /** The first `j` loops of course `k`, worked from `prev`, with ids from `n` on. */
  function CourseOps(pattern: Pattern, k: nat, prev: seq<int>, n: int, j: nat): seq<Op> {
    if j == 0 then []
    else CourseOps(pattern, k, prev, n, j - 1) + PlaceOps(n + j - 1, PullsAt(pattern, k, j - 1, prev))
  }

  /** The course the next one is worked from, once `h` courses of `w` loops are done. */
  function LastCourse(pattern: Pattern, w: nat, h: nat): seq<int> {
    PrevCourse(pattern, MintedRows(w, h), h)
  }

  /** The mutations that make the first `h` courses of a swatch `w` loops wide. */
  function SwatchOps(pattern: Pattern, w: nat, h: nat): seq<Op> {
    if h == 0 then []
    else SwatchOps(pattern, w, h - 1) + CourseOps(pattern, h - 1, LastCourse(pattern, w, h - 1), (h - 1) * w, w)
  }

  /** `n` loops added to the end of the yarn, as the cast-on does. */
  function Mints(n: nat): (r: seq<Op>)
    ensures |r| == n && forall i :: 0 <= i < n ==> r[i] == MakeLoop
  {
    seq(n, i => MakeLoop)
  }

  // ---------------------------------------------------------------------------
  // steps of the logs as the generators take them

  /** The cast-on is the first course of every pattern. */
  lemma {:induction false} CastOnOps(pattern: Pattern, w: nat)
    ensures SwatchOps(pattern, w, 1) == Mints(w)
  {
    CastOnCourse(pattern, w);
    assert SwatchOps(pattern, w, 1) == [] + CourseOps(pattern, 0, [], 0, w);
  }

  lemma {:induction false} CastOnCourse(pattern: Pattern, j: nat)
    ensures CourseOps(pattern, 0, [], 0, j) == Mints(j)
  {
    if j > 0 {
      CastOnCourse(pattern, j - 1);
      assert PullsAt(pattern, 0, j - 1, []) == [];
      assert Links(j - 1, []) == [];
      assert Mints(j - 1) + [MakeLoop] == Mints(j);
    }
  }

  lemma {:induction false} MintsSnoc(n: nat)
    ensures Mints(n) + [MakeLoop] == Mints(n + 1)
  {
  }

  /** A loop added to the yarn starts its placement. */
  lemma {:induction false} PlaceStart(ops: seq<Op>, c: int)
    ensures ops + [MakeLoop] == ops + PlaceOps(c, [])
  {
    assert Links(c, []) == [];
  }

  /** One more call into the loop being placed. */
  lemma {:induction false} PlaceMore(ops: seq<Op>, c: int, pulls: seq<Pull>, pull: Pull)
    ensures ops + PlaceOps(c, pulls) + [PullLoop(c, pull)] == ops + PlaceOps(c, pulls + [pull])
  {
    assert Links(c, pulls + [pull]) == Links(c, pulls) + [PullLoop(c, pull)];
  }

  /** A loop placed with the calls its pattern gives it completes one more place of its course. */
  lemma {:induction false} CourseStep(base: seq<Op>, pattern: Pattern, k: nat, prev: seq<int>, n: int, j: nat, pulls: seq<Pull>)
    requires pulls == PullsAt(pattern, k, j, prev)
    ensures base + CourseOps(pattern, k, prev, n, j) + PlaceOps(n + j, pulls)
            == base + CourseOps(pattern, k, prev, n, j + 1)
  {
    assert n + (j + 1) - 1 == n + j;
  }

  /** The stitch a jersey course gives its `j`-th loop. */
  lemma {:induction false} JerseyPulls(k: nat, prev: seq<int>, j: nat)
    requires k >= 1
    ensures PullsAt(Jersey, k, j, prev) == [Pull(RevAt(prev, j), Plain(BtF), None)]
  {
  }

  /** The first worked seed course knits the even places and purls the odd ones. */
  lemma {:induction false} SeedFirstPulls(prev: seq<int>, j: nat)
    ensures PullsAt(Seed, 1, j, prev) == [Pull(RevAt(prev, j), Plain(if j % 2 == 0 then BtF else FtB), None)]
  {
  }

  /** The first worked rib course knits the even columns of `prev` and purls the odd ones. */
  lemma {:induction false} RibFirstPulls(prev: seq<int>, j: nat)
    requires j < |prev|
    ensures var column := |prev| - 1 - j;
      PullsAt(Rib, 1, j, prev) == [Pull(prev[column], Plain(if (column / RibWidth) % 2 == 0 then BtF else FtB), None)]
  {
  }

  lemma {:induction false} LacePullsAt(k: nat, prev: seq<int>, j: nat)
    requires k >= 1
    ensures PullsAt(Lace, k, j, prev) == if k % 2 == 0 then [Pull(RevAt(prev, j), Plain(BtF), None)] else LacePulls(prev, j)
  {
  }

  lemma {:induction false} CablePullsAt(k: nat, prev: seq<int>, j: nat)
    requires k >= 1
    ensures PullsAt(Cable, k, j, prev) == [Pull(RevAt(prev, j), if k % 2 == 0 then Plain(BtF) else CableEdge(j), None)]
  {
  }

  /** The cable list after one more loop of an odd course. */
  lemma {:induction false} CableSnoc(row: seq<int>, c: int)
    ensures CableOrder(row + [c]) == CableStep(CableOrder(row), |row|, c)
  {
    assert (row + [c])[..|row|] == row;
  }

  // ---------------------------------------------------------------------------
  // the courses a swatch hands on

  /** The ids 0, 1, 2, ... in order. */
  predicate Consecutive(s: seq<int>) {
    forall i :: 0 <= i < |s| ==> s[i] == i
  }

  /** Minting the next id keeps the ids consecutive. */
  lemma {:induction false} ConsecutiveSnoc(s: seq<int>)
    requires Consecutive(s)
    ensures AppendNew(s, |s|) == s + [|s|] && Consecutive(s + [|s|])
  {
    ConsecutiveRange(s);
  }

  lemma {:induction false} ConsecutiveRange(s: seq<int>)
    requires Consecutive(s)
    ensures s == Range(0, |s|) && forall x :: x in s <==> 0 <= x < |s|
  {
    RangeFacts(0, |s|);
  }

  /** Splitting consecutive ids: the first part is below the second. */
  lemma {:induction false} ConsecutiveParts(a: seq<int>, b: seq<int>)
    requires Consecutive(a + b)
    ensures Consecutive(a)
    ensures forall x :: x in a ==> 0 <= x < |a|
    ensures forall x :: x in b ==> |a| <= x < |a| + |b|
  {
    var s := a + b;
    forall i | 0 <= i < |a| ensures a[i] == i {
      assert s[i] == a[i];
    }
    forall x | x in a ensures 0 <= x < |a| {
      var i :| 0 <= i < |a| && a[i] == x;
      assert s[i] == a[i];
    }
    forall x | x in b ensures |a| <= x < |a| + |b| {
      var i :| 0 <= i < |b| && b[i] == x;
      assert s[|a| + i] == b[i];
    }
  }

  /** The cable order of a course is a reordering of it. */
  lemma {:induction false} CablePermutes(row: seq<int>)
    ensures multiset(CableOrder(row)) == multiset(row)
    decreases |row|
  {
    if row != [] {
      var t, x := row[..|row| - 1], row[|row| - 1];
      CablePermutes(t);
      if (|row| - 1) % 5 == 2 || (|row| - 1) % 5 == 3 {
        InsertShifts(CableOrder(t), -1, x);
      }
      assert row == t + [x];
    }
  }

  /** Reordering a list without repeats gives one without repeats. */
  lemma {:induction false} DistinctReordered(s: seq<int>, t: seq<int>)
    requires Distinct(s) && multiset(s) == multiset(t)
    ensures Distinct(t)
  {
    forall i, j | 0 <= i < j < |t| ensures t[i] != t[j] {
      if t[i] == t[j] {
        DuplicateCount(t, i, j);
        DistinctCount(s, t[i]);
      }
    }
  }

  /** After `h >= 1` courses, the course handed on holds the ids of the last course, without repeats. */
  lemma {:induction false} LastCourseFacts(pattern: Pattern, w: nat, h: nat)
    requires h >= 1
    ensures var last := LastCourse(pattern, w, h);
      && |last| == w && Distinct(last)
      && (forall x :: x in last <==> (h - 1) * w <= x < h * w)
      && forall x :: x in last ==> x >= 0
  {
    var lo := (h - 1) * w;
    assert lo >= 0 && lo + w == h * w;
    MintedAt(w, h, h - 1, 0);
    OrderFacts(pattern, h - 1, lo, w);
  }

  /** A minted course, in the order it is handed on, holds its ids once each. */
  lemma {:induction false} OrderFacts(pattern: Pattern, k: nat, lo: int, w: nat)
    ensures var row, last := Range(lo, lo + w), CourseOrder(pattern, k, Range(lo, lo + w));
      && |last| == w && Distinct(last)
      && forall x :: x in last <==> lo <= x < lo + w
  {
    var row := Range(lo, lo + w);
    RangeFacts(lo, lo + w);
    assert Distinct(row);
    var last := CourseOrder(pattern, k, row);
    if last != row {
      CablePermutes(row);
      DistinctReordered(row, last);
      assert forall x :: x in last <==> x in multiset(last);
      assert forall x :: x in row <==> x in multiset(row);
    }
  }

  /** Outside cable, a course is handed on as it was minted. */
  lemma {:induction false} LastCourseMinted(pattern: Pattern, w: nat, h: nat)
    requires pattern != Cable && h >= 1
    ensures LastCourse(pattern, w, h) == Range((h - 1) * w, (h - 1) * w + w)
  {
    MintedAt(w, h, h - 1, 0);
  }

  /** The course handed on after a jersey, seed, rib or lace course is that course. */
  lemma {:induction false} NextMinted(pattern: Pattern, w: nat, k: nat, h: nat, n: int, newCourse: seq<int>)
    requires pattern != Cable && h == k + 1 && n == k * w && newCourse == Range(n, n + w)
    ensures LastCourse(pattern, w, h) == newCourse
  {
    LastCourseMinted(pattern, w, h);
  }

  /** The course handed on after a cable course: its cable order when that has any loops. */
  lemma {:induction false} NextCable(w: nat, k: nat, h: nat, n: int, newCourse: seq<int>, cableCourse: seq<int>)
    requires h == k + 1 && n == k * w && newCourse == Range(n, n + w)
    requires cableCourse == if k % 2 == 1 then CableOrder(newCourse) else []
    ensures LastCourse(Cable, w, h) == if |cableCourse| > 0 then cableCourse else newCourse
  {
    MintedAt(w, h, k, 0);
  }

  // ---------------------------------------------------------------------------
  // the replay builds the swatch

  /**
   * A swatch in progress: the finished courses `rows`, then `row`, the placed loops
   * of the next course, worked from `prev`, all carrying what the pattern gives them.
   */
  ghost predicate Built(pattern: Pattern, rows: seq<seq<int>>, prev: seq<int>, row: seq<int>, s: Sketch) {
    forall k :: Opened(k) ==> Laid(pattern, rows, prev, row, s)
  }

  /**
   * A guard: `Built` unfolds into `Laid` only where a proof names `Opened`, so the
   * steps that only hand a swatch in progress along do not carry its whole content.
   */
  ghost predicate Opened(k: int) { true }

  /** The content of `Built`. */
  ghost predicate Laid(pattern: Pattern, rows: seq<seq<int>>, prev: seq<int>, row: seq<int>, s: Sketch) {
    && s.nodes == Flatten(rows) + row && Consecutive(s.nodes)
    && Swatch(pattern, rows, s.parents, s.pred, s.edges)
    && CourseRealized(pattern, |rows|, prev, row, s.parents, s.pred, s.edges)
  }

  /** A loop being placed: it is the last id, and it has received the calls `pulls`. */
  ghost predicate Pending(pattern: Pattern, rows: seq<seq<int>>, prev: seq<int>, row: seq<int>, c: int,
                          pulls: seq<Pull>, s: Sketch) {
    && s.nodes == Flatten(rows) + row + [c] && Consecutive(s.nodes)
    && Swatch(pattern, rows, s.parents, s.pred, s.edges)
    && CourseRealized(pattern, |rows|, prev, row, s.parents, s.pred, s.edges)
    && Realizes(c, pulls, s.parents, s.pred, s.edges)
  }

  lemma {:induction false} MakeBuilt(pattern: Pattern, rows: seq<seq<int>>, prev: seq<int>, row: seq<int>, s: Sketch)
    requires Built(pattern, rows, prev, row, s)
    ensures Pending(pattern, rows, prev, row, |s.nodes|, [], Apply(s, MakeLoop))
  {
    assert Opened(0);
    var c := |s.nodes|;
    ConsecutiveSnoc(s.nodes);
    ConsecutiveParts(Flatten(rows), row);
    FlattenFresh(rows, c);
    Minted(pattern, rows, |rows|, prev, row, s.parents, s.pred, s.edges, c);
  }

  /** The loops of a swatch in progress: those of its finished courses, then those placed. */
  lemma {:induction false} BuiltNodes(pattern: Pattern, rows: seq<seq<int>>, prev: seq<int>, row: seq<int>, s: Sketch)
    requires Built(pattern, rows, prev, row, s)
    ensures s.nodes == Flatten(rows) + row
  {
    assert Opened(0);
  }

  /** The last of consecutive ids is in neither part before it. */
  lemma {:induction false} LastFresh(a: seq<int>, b: seq<int>, c: int)
    requires Consecutive(a + b + [c])
    ensures c !in a && c !in b
  {
    ConsecutiveParts(a + b, [c]);
    assert c in [c];
    assert forall x :: x in a || x in b ==> x in a + b;
  }

  /** An id above every id of the finished courses is not among them. */
  lemma {:induction false} FlattenFresh(rows: seq<seq<int>>, c: int)
    requires forall x :: x in Flatten(rows) ==> x < c
    ensures c !in Flatten(rows)
  {
  }

  /** The calls into the loop being placed, made in order. */
  lemma {:induction false} LinksPending(pattern: Pattern, rows: seq<seq<int>>, prev: seq<int>, row: seq<int>,
                                        c: int, pulls: seq<Pull>, i: nat, s: Sketch)
    requires i <= |pulls| && OneCallPerParent(pulls)
    requires Pending(pattern, rows, prev, row, c, [], s)
    ensures Pending(pattern, rows, prev, row, c, pulls[..i], Run(s, Links(c, pulls[..i])))
  {
    if i == 0 {
      assert Links(c, pulls[..0]) == [];
    } else {
      var done, pull := pulls[..i - 1], pulls[i - 1];
      assert pulls[..i] == done + [pull];
      assert Links(c, pulls[..i]) == Links(c, done) + [PullLoop(c, pull)];
      RunSnoc(s, Links(c, done), PullLoop(c, pull));
      NextPull(pulls, i - 1);
      LinksPending(pattern, rows, prev, row, c, pulls, i - 1, s);
      var t := Run(s, Links(c, done));
      LastFresh(Flatten(rows), row, c);
      assert Get(t.parents, c) == t.parents[c] && Get(t.pred, c) == t.pred[c];
      Pulled(pattern, rows, |rows|, prev, row, t.parents, t.pred, t.edges, c, done, pull);
    }
  }

  /** The calls made so far, and the next one, whose parent is not among theirs. */
  lemma {:induction false} NextPull(pulls: seq<Pull>, i: nat)
    requires i < |pulls| && OneCallPerParent(pulls)
    ensures pulls[..i] + [pulls[i]] == pulls[..i + 1] && pulls[i].parent !in Sources(pulls[..i])
    decreases |pulls|
  {
    var front := pulls[..|pulls| - 1];
    if i < |front| {
      NextPull(front, i);
      assert front[..i] == pulls[..i] && front[i] == pulls[i] && front[..i + 1] == pulls[..i + 1];
    } else {
      assert pulls[..i] == front;
    }
  }

  /** Placing a loop with the calls the pattern gives its place completes that place. */
  lemma {:induction false} PlaceBuilt(pattern: Pattern, rows: seq<seq<int>>, prev: seq<int>, row: seq<int>, s: Sketch,
                   c: int, pulls: seq<Pull>, next: seq<int>, t: Sketch)
    requires c == |s.nodes| && pulls == PullsAt(pattern, |rows|, |row|, prev) && OneCallPerParent(pulls)
    requires next == row + [c] && t == Run(s, PlaceOps(c, pulls))
    requires Built(pattern, rows, prev, row, s)
    ensures Built(pattern, rows, prev, next, t)
  {
    PlacePending(pattern, rows, prev, row, pulls, s);
    PendingDone(pattern, rows, prev, row, c, t);
  }

  /** Making a loop and pulling it through its parents leaves it pending with all its calls. */
  lemma {:induction false} PlacePending(pattern: Pattern, rows: seq<seq<int>>, prev: seq<int>, row: seq<int>, pulls: seq<Pull>, s: Sketch)
    requires OneCallPerParent(pulls)
    requires Built(pattern, rows, prev, row, s)
    ensures Pending(pattern, rows, prev, row, |s.nodes|, pulls, Run(s, PlaceOps(|s.nodes|, pulls)))
  {
    var c := |s.nodes|;
    var s1 := Apply(s, MakeLoop);
    RunSnoc(s, [], MakeLoop);
    assert Run(s, [MakeLoop]) == s1;
    assert pulls[..|pulls|] == pulls;
    RunConcat(s, [MakeLoop], Links(c, pulls));
    MakeBuilt(pattern, rows, prev, row, s);
    LinksPending(pattern, rows, prev, row, c, pulls, |pulls|, s1);
  }

  /** A pending loop with the calls its place asks for joins the course. */
  lemma {:induction false} PendingDone(pattern: Pattern, rows: seq<seq<int>>, prev: seq<int>, row: seq<int>, c: int, t: Sketch)
    requires Pending(pattern, rows, prev, row, c, PullsAt(pattern, |rows|, |row|, prev), t)
    ensures Built(pattern, rows, prev, row + [c], t)
  {
    assert t.nodes == Flatten(rows) + (row + [c]);
    CourseSnoc(pattern, |rows|, prev, row, t.parents, t.pred, t.edges, c);
  }

  /** At most one call, or two through different parents, pull through no parent twice. */
  lemma {:induction false} PairFresh(pulls: seq<Pull>)
    requires |pulls| <= 1 || (|pulls| == 2 && pulls[0].parent != pulls[1].parent)
    ensures OneCallPerParent(pulls)
  {
    if |pulls| == 1 {
      assert pulls[..|pulls| - 1] == [];
      assert Sources(pulls[..|pulls| - 1]) == [];
    }
    if |pulls| == 2 {
      var first := pulls[..|pulls| - 1];
      assert first == [pulls[0]];
      assert first[..|first| - 1] == [];
      assert OneCallPerParent(first);
      assert Sources(first) == [pulls[0].parent];
    }
  }

  /** A course's calls never pull a loop twice through the same parent. */
  lemma {:induction false} PullsFresh(pattern: Pattern, k: nat, j: nat, prev: seq<int>)
    requires k == 0 || (Distinct(prev) && (forall x :: x in prev ==> x >= 0) && j < |prev|)
    ensures OneCallPerParent(PullsAt(pattern, k, j, prev))
  {
    var pulls := PullsAt(pattern, k, j, prev);
    if k != 0 && pattern == Lace && k % 2 == 1 && (j % 6 == 1 || j % 6 == 4) {
      assert pulls == LacePulls(prev, j);
      var a := prev[|prev| - 1 - j];
      assert a in prev;
      if j % 6 == 1 {
        if j + 1 < |prev| {
          assert prev[|prev| - 1 - (j + 1)] != a;
        }
      } else {
        assert prev[|prev| - 1 - (j - 1)] != a;
      }
    } else {
      assert |pulls| <= 1;
    }
    PairFresh(pulls);
  }

  /** No place of the course after `k` finished courses pulls its loop twice through one parent. */
  lemma {:induction false} CourseFresh(pattern: Pattern, w: nat, k: nat)
    ensures forall i :: 0 <= i < w ==> OneCallPerParent(PullsAt(pattern, k, i, LastCourse(pattern, w, k)))
  {
    if k >= 1 {
      LastCourseFacts(pattern, w, k);
    }
    forall i | 0 <= i < w
      ensures OneCallPerParent(PullsAt(pattern, k, i, LastCourse(pattern, w, k)))
    {
      PullsFresh(pattern, k, i, LastCourse(pattern, w, k));
    }
  }

  /** The first `j` places of a course, from a finished swatch whose `n` loops are those of `rows`. */
  lemma {:induction false} CourseBuilt(pattern: Pattern, rows: seq<seq<int>>, prev: seq<int>, n: int, s: Sketch, j: nat)
    requires n == |Flatten(rows)|
    requires forall i :: 0 <= i < j ==> OneCallPerParent(PullsAt(pattern, |rows|, i, prev))
    requires Built(pattern, rows, prev, [], s)
    ensures Built(pattern, rows, prev, Range(n, n + j), Run(s, CourseOps(pattern, |rows|, prev, n, j)))
  {
    if j == 0 {
      assert Range(n, n) == [];
    } else {
      var i := j - 1;
      CourseBuilt(pattern, rows, prev, n, s, i);
      PlaceNext(pattern, rows, prev, n, s, i, j);
    }
  }

  /** Place `i` of a course, after the places before it. */
  lemma {:induction false} PlaceNext(pattern: Pattern, rows: seq<seq<int>>, prev: seq<int>, n: int, s: Sketch, i: nat, j: nat)
    requires j == i + 1 && n == |Flatten(rows)|
    requires OneCallPerParent(PullsAt(pattern, |rows|, i, prev))
    requires Built(pattern, rows, prev, Range(n, n + i), Run(s, CourseOps(pattern, |rows|, prev, n, i)))
    ensures Built(pattern, rows, prev, Range(n, n + j), Run(s, CourseOps(pattern, |rows|, prev, n, j)))
  {
    PlaceAt(pattern, rows, prev, n, Run(s, CourseOps(pattern, |rows|, prev, n, i)), i, j);
    NextOps(s, pattern, |rows|, prev, n, i, j);
  }

  /** Place `i` of a course, on a swatch holding the places before it. */
  lemma {:induction false} PlaceAt(pattern: Pattern, rows: seq<seq<int>>, prev: seq<int>, n: int, t: Sketch, i: nat, j: nat)
    requires j == i + 1 && n == |Flatten(rows)|
    requires OneCallPerParent(PullsAt(pattern, |rows|, i, prev))
    requires Built(pattern, rows, prev, Range(n, n + i), t)
    ensures Built(pattern, rows, prev, Range(n, n + j), Run(t, PlaceOps(n + i, PullsAt(pattern, |rows|, i, prev))))
  {
    RangeNext(n, i, j);
    RangeLength(n, i);
    BuiltNodes(pattern, rows, prev, Range(n, n + i), t);
    NextId(t, n, i, PullsAt(pattern, |rows|, i, prev));
    PlaceBuilt(pattern, rows, prev, Range(n, n + i), t, |t.nodes|, PullsAt(pattern, |rows|, i, prev), Range(n, n + j),
               Run(t, PlaceOps(n + i, PullsAt(pattern, |rows|, i, prev))));
  }

  /** The id of the next loop, written as the log of a course writes it. */
  lemma {:induction false} NextId(t: Sketch, n: int, i: nat, pulls: seq<Pull>)
    requires |t.nodes| == n + i
    ensures [|t.nodes|] == [n + i] && PlaceOps(|t.nodes|, pulls) == PlaceOps(n + i, pulls)
  {
  }

  /** The log of the first `i + 1` places is that of the first `i` and then that of place `i`. */
  lemma {:induction false} NextOps(s: Sketch, pattern: Pattern, k: nat, prev: seq<int>, n: int, i: nat, j: nat)
    requires j == i + 1
    ensures Run(s, CourseOps(pattern, k, prev, n, j))
            == Run(Run(s, CourseOps(pattern, k, prev, n, i)), PlaceOps(n + i, PullsAt(pattern, k, i, prev)))
  {
    CourseOpsNext(pattern, k, prev, n, i, j);
    RunConcat(s, CourseOps(pattern, k, prev, n, i), PlaceOps(n + i, PullsAt(pattern, k, i, prev)));
  }

  /** One more place of a course adds its loop's log to the course's. */
  lemma {:induction false} CourseOpsNext(pattern: Pattern, k: nat, prev: seq<int>, n: int, i: nat, j: nat)
    requires j == i + 1
    ensures CourseOps(pattern, k, prev, n, j) == CourseOps(pattern, k, prev, n, i) + PlaceOps(n + i, PullsAt(pattern, k, i, prev))
  {
    assert j - 1 == i && n + j - 1 == n + i;
  }

  /** The log of `h` courses replays into the swatch of `h` minted courses. */
  lemma {:induction false} SwatchBuilt(pattern: Pattern, w: nat, h: nat)
    ensures Built(pattern, MintedRows(w, h), LastCourse(pattern, w, h), [], Replay(SwatchOps(pattern, w, h)))
  {
    if h == 0 {
      Started(pattern, w);
    } else {
      var k := h - 1;
      SwatchBuilt(pattern, w, k);
      StepBuilt(pattern, w, k, h);
    }
  }

  /** One more course: from the swatch of `k` courses to that of `h`, its successor. */
  lemma {:induction false} StepBuilt(pattern: Pattern, w: nat, k: nat, h: nat)
    requires h == k + 1
    requires Built(pattern, MintedRows(w, k), LastCourse(pattern, w, k), [], Replay(SwatchOps(pattern, w, k)))
    ensures Built(pattern, MintedRows(w, h), LastCourse(pattern, w, h), [], Replay(SwatchOps(pattern, w, h)))
  {
    ReplayStep(pattern, w, k, h);
    CourseOnto(pattern, w, k, h, Replay(SwatchOps(pattern, w, k)));
  }

  /** An empty log leaves a new graph, an empty swatch. */
  lemma {:induction false} Started(pattern: Pattern, w: nat)
    ensures Built(pattern, MintedRows(w, 0), LastCourse(pattern, w, 0), [], Replay(SwatchOps(pattern, w, 0)))
  {
    assert Replay([]) == Blank;
  }

  /** Replaying the log of `k + 1` courses replays that of `k` courses and then course `k`. */
  lemma {:induction false} ReplayStep(pattern: Pattern, w: nat, k: nat, h: nat)
    requires h == k + 1
    ensures Replay(SwatchOps(pattern, w, h))
            == Run(Replay(SwatchOps(pattern, w, k)), CourseOps(pattern, k, LastCourse(pattern, w, k), k * w, w))
  {
    SwatchOpsNext(pattern, w, k, h);
    RunConcat(Blank, SwatchOps(pattern, w, k), CourseOps(pattern, k, LastCourse(pattern, w, k), k * w, w));
  }

  /** The log of `k + 1` courses is that of `k` courses and then that of course `k`. */
  lemma {:induction false} SwatchOpsNext(pattern: Pattern, w: nat, k: nat, h: nat)
    requires h == k + 1
    ensures SwatchOps(pattern, w, h) == SwatchOps(pattern, w, k) + CourseOps(pattern, k, LastCourse(pattern, w, k), k * w, w)
  {
    assert h - 1 == k;
  }

  /** The ids minted for `k + 1` courses: those for `k`, then one more course. */
  lemma {:induction false} MintedNext(w: nat, k: nat, h: nat)
    requires h == k + 1
    ensures MintedRows(w, h) == MintedRows(w, k) + [Range(k * w, k * w + w)]
  {
    assert h - 1 == k && h * w == k * w + w;
  }

  /** The minted courses before course `k` hold `n` loops. */
  lemma {:induction false} MintedCount(w: nat, k: nat, n: int)
    requires n == k * w
    ensures |Flatten(MintedRows(w, k))| == n
  {
    FlattenMinted(w, k);
  }

  /** The first `j` places of course `k`, written with its first id as a variable. */
  lemma {:induction false} CourseAt(pattern: Pattern, k: nat, prev: seq<int>, w: nat, n: int, j: nat)
    requires n == k * w
    ensures Range(n, n + j) == Range(k * w, k * w + j) && CourseOps(pattern, k, prev, n, j) == CourseOps(pattern, k, prev, k * w, j)
  {
  }

  /** Course `k`, worked onto the swatch of the courses before it. */
  lemma {:induction false} CourseOnto(pattern: Pattern, w: nat, k: nat, h: nat, s: Sketch)
    requires h == k + 1
    requires Built(pattern, MintedRows(w, k), LastCourse(pattern, w, k), [], s)
    ensures Built(pattern, MintedRows(w, h), LastCourse(pattern, w, h), [],
                  Run(s, CourseOps(pattern, k, LastCourse(pattern, w, k), k * w, w)))
  {
    CourseFrom(pattern, w, k, s, w);
    MintedNext(w, k, h);
    FinishCourse(pattern, MintedRows(w, k), LastCourse(pattern, w, k), Range(k * w, k * w + w), LastCourse(pattern, w, h),
                 Run(s, CourseOps(pattern, k, LastCourse(pattern, w, k), k * w, w)));
  }

  /** The first `j` places of course `k`, worked onto the swatch of the courses before it. */
  lemma {:induction false} CourseFrom(pattern: Pattern, w: nat, k: nat, s: Sketch, j: nat)
    requires j <= w
    requires Built(pattern, MintedRows(w, k), LastCourse(pattern, w, k), [], s)
    ensures Built(pattern, MintedRows(w, k), LastCourse(pattern, w, k), Range(k * w, k * w + j),
                  Run(s, CourseOps(pattern, k, LastCourse(pattern, w, k), k * w, j)))
  {
    var n := k * w;
    MintedCount(w, k, n);
    CourseFresh(pattern, w, k);
    CourseBuilt(pattern, MintedRows(w, k), LastCourse(pattern, w, k), n, s, j);
    CourseAt(pattern, k, LastCourse(pattern, w, k), w, n, j);
  }

  /** A finished course joins the swatch; the next course has no loops yet. */
  lemma {:induction false} FinishCourse(pattern: Pattern, rows: seq<seq<int>>, prev: seq<int>, row: seq<int>, next: seq<int>, t: Sketch)
    requires prev == PrevCourse(pattern, rows, |rows|) && Built(pattern, rows, prev, row, t)
    ensures Built(pattern, rows + [row], next, [], t)
  {
    assert Opened(0);
    FlattenSnoc(rows, row);
    SwatchSnoc(pattern, rows, row, t.parents, t.pred, t.edges);
  }

  /** The log of `h` courses of `w` loops adds `h * w` loops. */
  lemma {:induction false} SwatchLength(pattern: Pattern, w: nat, h: nat)
    ensures |Replay(SwatchOps(pattern, w, h)).nodes| == h * w
  {
    SwatchReplayed(pattern, w, h);
    assert 0 <= h * w;
  }

  /**
   * The log of `h` courses of `w` loops adds the loops `0 .. h * w - 1`, in order, and
   * replays into the swatch of `h` minted courses.
   */

  lemma {:induction false} SwatchReplayed(pattern: Pattern, w: nat, h: nat)
    ensures var s := Replay(SwatchOps(pattern, w, h));
      s.nodes == Range(0, h * w) && Swatch(pattern, MintedRows(w, h), s.parents, s.pred, s.edges)
  {
    SwatchBuilt(pattern, w, h);
    assert Opened(0);
    FlattenMinted(w, h);
  }

  /** Midway through course `k`, loop `i` of course `k0 = k - 1`, the loop `p`, still holds the calls the pattern gave it. */
  lemma {:induction false} Earlier(pattern: Pattern, w: nat, k: nat, k0: nat, row: seq<int>, s: Sketch, i: nat, p: int)
    requires k == k0 + 1 && i < w && p == k0 * w + i
    requires Built(pattern, MintedRows(w, k), LastCourse(pattern, w, k), row, s)
    ensures Realizes(p, PullsAt(pattern, k0, i, LastCourse(pattern, w, k0)), s.parents, s.pred, s.edges)
  {
    var rows := MintedRows(w, k);
    BuiltSwatch(pattern, rows, LastCourse(pattern, w, k), row, s);
    SwatchAt(pattern, rows, s.parents, s.pred, s.edges, k0);
    MintedAt(w, k, k0, i);
    PrevMinted(pattern, w, k, k0);
    PlaceRealized(pattern, k0, LastCourse(pattern, w, k0), rows[k0], s.parents, s.pred, s.edges, i, p);
  }

  /** A swatch in progress holds its finished courses. */
  lemma BuiltSwatch(pattern: Pattern, rows: seq<seq<int>>, prev: seq<int>, row: seq<int>, s: Sketch)
    requires Built(pattern, rows, prev, row, s)
    ensures Swatch(pattern, rows, s.parents, s.pred, s.edges)
  {
    assert Opened(0);
  }

  /** Among the minted courses of a later swatch, course `k0` is worked from the course handed on after `k0` courses. */
  lemma {:induction false} PrevMinted(pattern: Pattern, w: nat, k: nat, k0: nat)
    requires k0 < k
    ensures PrevCourse(pattern, MintedRows(w, k), k0) == LastCourse(pattern, w, k0)
  {
    if k0 >= 1 {
      MintedAt(w, k, k0 - 1, 0);
      MintedAt(w, k0, k0 - 1, 0);
    }
  }

  /** One place of a realized course. */
  lemma PlaceRealized(pattern: Pattern, k: nat, prev: seq<int>, row: seq<int>, parents: map<int, seq<int>>,
                      pred: map<int, seq<int>>, edges: map<(int, int), StitchEdge>, i: nat, x: int)
    requires CourseRealized(pattern, k, prev, row, parents, pred, edges) && i < |row| && x == row[i]
    ensures Realizes(x, PullsAt(pattern, k, i, prev), parents, pred, edges)
  {
  }

  /** Midway through course `k`: the finished courses and the first `j` places of course `k`. */
  lemma {:induction false} Progress(pattern: Pattern, w: nat, k: nat, j: nat)
    requires j <= w
    ensures Built(pattern, MintedRows(w, k), LastCourse(pattern, w, k), Range(k * w, k * w + j),
                  Replay(SwatchOps(pattern, w, k) + CourseOps(pattern, k, LastCourse(pattern, w, k), k * w, j)))
  {
    SwatchBuilt(pattern, w, k);
    CourseFrom(pattern, w, k, Replay(SwatchOps(pattern, w, k)), j);
    RunConcat(Blank, SwatchOps(pattern, w, k), CourseOps(pattern, k, LastCourse(pattern, w, k), k * w, j));
  }
}
