/**
 * What the swatch generators build, as values: the loop ids each course mints, the
 * `connect_loops` calls each new loop receives, and the parent stacks, predecessor
 * lists and edge attributes those calls leave behind.
 */
module StitchPlans {
  import opened Basics
  import opened PyLists
  import opened PullDirections
  import opened KnitGraphs

  /** One `connect_loops` call on a new loop: the parent, the edge attributes and the stack position. */
  datatype Pull = Pull(parent: int, edge: StitchEdge, position: Option<int>)

  /** The attributes `connect_loops` gives an edge by default: depth 0 and no offset. */
  function Plain(d: PullDirection): StitchEdge {
    StitchEdge(d, 0, 0)
  }

  /** The parent stack a new loop ends with after the calls, in order. */
  function StackOf(pulls: seq<Pull>): seq<int>
    decreases |pulls|
  {
    if pulls == [] then []
    else
      var last := pulls[|pulls| - 1];
      Stacked(StackOf(pulls[..|pulls| - 1]), last.parent, last.position)
  }

  /** The parents in call order, the order in which the graph lists a loop's predecessors. */
  function Sources(pulls: seq<Pull>): (r: seq<int>)
    ensures |r| == |pulls| && forall i {:trigger r[i]} :: 0 <= i < |pulls| ==> r[i] == pulls[i].parent
    decreases |pulls|
  {
    if pulls == [] then [] else Sources(pulls[..|pulls| - 1]) + [pulls[|pulls| - 1].parent]
  }

  /** No two calls pull the loop through the same parent. */
  predicate OneCallPerParent(pulls: seq<Pull>)
    decreases |pulls|
  {
    pulls == [] ||
    (OneCallPerParent(pulls[..|pulls| - 1]) && pulls[|pulls| - 1].parent !in Sources(pulls[..|pulls| - 1]))
  }

  /** Loop `c` has received exactly the calls `pulls`: its stack, its predecessors and its incoming edges show them. */
  ghost predicate Realizes(c: int, pulls: seq<Pull>, parents: map<int, seq<int>>,
                           pred: map<int, seq<int>>, edges: map<(int, int), StitchEdge>)
  {
    && c in parents && parents[c] == StackOf(pulls)
    && c in pred && pred[c] == Sources(pulls)
    && forall i :: 0 <= i < |pulls| ==> (pulls[i].parent, c) in edges && edges[(pulls[i].parent, c)] == pulls[i].edge
  }

  // ---------------------------------------------------------------------------
  // the patterns

  datatype Pattern = Jersey | Seed | Rib | Lace | Cable

  /**
   * `reversed(course)[i]`; outside the course -1, which is never a loop id. Past the end
   * Python raises instead, but the lace width check keeps every place inside the course
   * (`SourcesInside`).
   */
  function RevAt(course: seq<int>, i: int): int {
    if 0 <= i < |course| then course[|course| - 1 - i] else -1
  }

  /** Seed stitch: the first worked course alternates knit and purl by position; each later stitch turns its parent's stitch over. */
  function SeedDirection(w: int, k: nat, j: int): PullDirection
    decreases k
  {
    if k <= 1 then (if j % 2 == 0 then BtF else FtB)
    else Opposite(SeedDirection(w, k - 1, w - 1 - j))
  }

  const RibWidth: int := 1

  /** Rib: the first worked course knits the even columns of the course below and purls the odd ones; each later stitch copies its parent's. */
  function RibDirection(w: int, k: nat, j: int): PullDirection
    decreases k
  {
    if k <= 1 then (if ((w - 1 - j) / RibWidth) % 2 == 0 then BtF else FtB)
    else RibDirection(w, k - 1, w - 1 - j)
  }

  /** The calls the `i`-th loop of an odd lace course receives: a repeat of knit, decrease, two yarn-overs, decrease, knit. */
  function LacePulls(prev: seq<int>, i: int): seq<Pull> {
    if i % 6 == 0 || i % 6 == 5 then [Pull(RevAt(prev, i), Plain(BtF), None)]
    else if i % 6 == 1 then
      [Pull(RevAt(prev, i), Plain(BtF), Some(1)), Pull(RevAt(prev, i + 1), StitchEdge(BtF, 0, 1), Some(0))]
    else if i % 6 == 4 then
      [Pull(RevAt(prev, i - 1), StitchEdge(BtF, 0, -1), Some(0)), Pull(RevAt(prev, i), Plain(BtF), Some(1))]
    else []
  }

  /** The edge of the `l`-th stitch of an odd cable course: two loops crossed behind, one crossed in front. */
  function CableEdge(l: int): StitchEdge {
    if l % 5 == 0 || l % 5 == 4 then Plain(BtF)
    else if l % 5 == 2 || l % 5 == 3 then StitchEdge(BtF, -1, 1)
    else StitchEdge(BtF, 1, -2)
  }

  /**
   * The calls the `j`-th loop of course `k` receives, given `prev`, the course it is
   * worked from. The new loops of a course are worked across `prev` in reverse.
   */
  function PullsAt(pattern: Pattern, k: nat, j: int, prev: seq<int>): seq<Pull> {
    var p := RevAt(prev, j);
    if k == 0 then []
    else match pattern
      case Jersey => [Pull(p, Plain(BtF), None)]
      case Seed => [Pull(p, Plain(SeedDirection(|prev|, k, j)), None)]
      case Rib => [Pull(p, Plain(RibDirection(|prev|, k, j)), None)]
      case Lace => if k % 2 == 0 then [Pull(p, Plain(BtF), None)] else LacePulls(prev, j)
      case Cable => if k % 2 == 0 then [Pull(p, Plain(BtF), None)] else [Pull(p, CableEdge(j), None)]
  }

  /**
   * When lace courses are whole repeats of six, every loop a worked course is pulled
   * through is a loop of the course it is worked from, never the -1 outside it.
   */
  lemma SourcesInside(pattern: Pattern, k: nat, j: int, prev: seq<int>)
    requires 1 <= k && 0 <= j < |prev| && (pattern == Lace ==> |prev| % 6 == 0)
    ensures forall p :: p in Sources(PullsAt(pattern, k, j, prev)) ==> p in prev
  {
    var pulls := PullsAt(pattern, k, j, prev);
    var here := prev[|prev| - 1 - j];
    assert here in prev;
    if pattern == Lace && k % 2 == 1 && (j % 6 == 1 || j % 6 == 4) {
      var other := if j % 6 == 1 then j + 1 else j - 1;
      assert 0 <= other < |prev|;
      assert prev[|prev| - 1 - other] in prev;
      assert Sources(pulls) == [pulls[0].parent, pulls[1].parent] by {
        assert pulls[..1][..0] == [];
        assert pulls[..|pulls| - 1] == pulls[..1];
      }
    } else if |pulls| == 1 {
      assert Sources(pulls) == [pulls[0].parent] by {
        assert pulls[..0] == [];
      }
    }
  }

  /** Without whole repeats the decrease at place 7 of an 8-loop course reaches past the course. */
  lemma LaceNeedsRepeats()
    ensures var pulls := PullsAt(Lace, 1, 7, Range(0, 8));
      |pulls| == 2 && pulls[1].parent == -1 && -1 !in Range(0, 8)
  {
    var prev := Range(0, 8);
    assert RevAt(prev, 8) == -1;
    RangeFacts(0, 8);
  }

  /** The cable course list after placing `x`, the `l`-th new loop: the crossed loops go before the last one. */
  function CableStep(course: seq<int>, l: int, x: int): seq<int> {
    if l % 5 == 2 || l % 5 == 3 then Insert(course, -1, x) else course + [x]
  }

  /** The order in which an odd cable course is handed to the next one. */
  function CableOrder(row: seq<int>): (r: seq<int>)
    ensures |r| == |row|
    decreases |row|
  {
    if row == [] then []
    else CableStep(CableOrder(row[..|row| - 1]), |row| - 1, row[|row| - 1])
  }

  /** The order in which course `k`, minted as `row`, is handed to the next course. */
  function CourseOrder(pattern: Pattern, k: nat, row: seq<int>): seq<int> {
    var cable := if pattern == Cable && k % 2 == 1 then CableOrder(row) else [];
    if |cable| > 0 then cable else row
  }

  /** The course that course `k` of `rows` is worked from. */
  function PrevCourse(pattern: Pattern, rows: seq<seq<int>>, k: nat): seq<int>
    requires k <= |rows|
  {
    if k == 0 then [] else CourseOrder(pattern, k - 1, rows[k - 1])
  }

  /** Every loop of the course `row`, course `k`, has received the calls the pattern gives it. */
  ghost predicate CourseRealized(pattern: Pattern, k: nat, prev: seq<int>, row: seq<int>,
                                 parents: map<int, seq<int>>, pred: map<int, seq<int>>,
                                 edges: map<(int, int), StitchEdge>)
  {
    forall j :: 0 <= j < |row| ==> Realizes(row[j], PullsAt(pattern, k, j, prev), parents, pred, edges)
  }

  /** Every course of `rows` is realized, each worked from the one before it. */
  ghost predicate Swatch(pattern: Pattern, rows: seq<seq<int>>, parents: map<int, seq<int>>,
                         pred: map<int, seq<int>>, edges: map<(int, int), StitchEdge>)
    decreases |rows|
  {
    rows == [] ||
    (&& Swatch(pattern, rows[..|rows| - 1], parents, pred, edges)
     && CourseRealized(pattern, |rows| - 1, PrevCourse(pattern, rows, |rows| - 1), rows[|rows| - 1], parents, pred, edges))
  }

  /** Each course of a swatch is realized, worked from the one before it. */
  lemma {:induction false} SwatchAt(pattern: Pattern, rows: seq<seq<int>>, parents: map<int, seq<int>>,
                                    pred: map<int, seq<int>>, edges: map<(int, int), StitchEdge>, k: nat)
    requires Swatch(pattern, rows, parents, pred, edges) && k < |rows|
    ensures CourseRealized(pattern, k, PrevCourse(pattern, rows, k), rows[k], parents, pred, edges)
    decreases |rows|
  {
    if k < |rows| - 1 {
      var front := rows[..|rows| - 1];
      SwatchAt(pattern, front, parents, pred, edges, k);
      assert front[k] == rows[k];
      assert PrevCourse(pattern, front, k) == PrevCourse(pattern, rows, k) by {
        if k > 0 {
          assert front[k - 1] == rows[k - 1];
        }
      }
    }
  }

  /** The ids minted for `h` courses of `w` loops: consecutive, course after course. */
  function MintedRows(w: nat, h: nat): (rows: seq<seq<int>>)
    ensures |rows| == h
  {
    if h == 0 then [] else MintedRows(w, h - 1) + [Range((h - 1) * w, h * w)]
  }

  // ---------------------------------------------------------------------------
  // keeping a swatch realized while loops are added and connected

  /** Changing the state of other loops leaves what `x` has received as it was. */
  lemma {:induction false} RealizesFrame(x: int, pulls: seq<Pull>, parents: map<int, seq<int>>, pred: map<int, seq<int>>,
                      edges: map<(int, int), StitchEdge>, c: int, p: seq<int>, q: seq<int>,
                      edges': map<(int, int), StitchEdge>)
    requires Realizes(x, pulls, parents, pred, edges) && x != c
    requires forall u, v :: v != c && (u, v) in edges ==> (u, v) in edges' && edges'[(u, v)] == edges[(u, v)]
    ensures Realizes(x, pulls, parents[c := p], pred[c := q], edges')
  {
    forall i | 0 <= i < |pulls|
      ensures (pulls[i].parent, x) in edges' && edges'[(pulls[i].parent, x)] == pulls[i].edge
    {
      assert (pulls[i].parent, x) in edges;
    }
  }

  lemma {:induction false} CourseFrame(pattern: Pattern, k: nat, prev: seq<int>, row: seq<int>, parents: map<int, seq<int>>,
                    pred: map<int, seq<int>>, edges: map<(int, int), StitchEdge>, c: int, p: seq<int>,
                    q: seq<int>, edges': map<(int, int), StitchEdge>)
    requires CourseRealized(pattern, k, prev, row, parents, pred, edges) && c !in row
    requires forall u, v :: v != c && (u, v) in edges ==> (u, v) in edges' && edges'[(u, v)] == edges[(u, v)]
    ensures CourseRealized(pattern, k, prev, row, parents[c := p], pred[c := q], edges')
  {
    forall j | 0 <= j < |row|
      ensures Realizes(row[j], PullsAt(pattern, k, j, prev), parents[c := p], pred[c := q], edges')
    {
      RealizesFrame(row[j], PullsAt(pattern, k, j, prev), parents, pred, edges, c, p, q, edges');
    }
  }

  lemma {:induction false} SwatchFrame(pattern: Pattern, rows: seq<seq<int>>, parents: map<int, seq<int>>,
                                       pred: map<int, seq<int>>, edges: map<(int, int), StitchEdge>, c: int, p: seq<int>,
                                       q: seq<int>, edges': map<(int, int), StitchEdge>)
    requires Swatch(pattern, rows, parents, pred, edges) && c !in Flatten(rows)
    requires forall u, v :: v != c && (u, v) in edges ==> (u, v) in edges' && edges'[(u, v)] == edges[(u, v)]
    ensures Swatch(pattern, rows, parents[c := p], pred[c := q], edges')
    decreases |rows|
  {
    if rows != [] {
      var front, last := rows[..|rows| - 1], rows[|rows| - 1];
      assert Flatten(rows) == Flatten(front) + last;
      SwatchFrame(pattern, front, parents, pred, edges, c, p, q, edges');
      CourseFrame(pattern, |rows| - 1, PrevCourse(pattern, rows, |rows| - 1), last, parents, pred, edges, c, p, q, edges');
    }
  }

  /**
   * A new loop with no calls yet realizes the empty list of calls, and the loops
   * already placed keep what they have received.
   */
  lemma {:induction false} Minted(pattern: Pattern, rows: seq<seq<int>>, k: nat, prev: seq<int>, row: seq<int>,
               parents: map<int, seq<int>>, pred: map<int, seq<int>>, edges: map<(int, int), StitchEdge>, c: int)
    requires Swatch(pattern, rows, parents, pred, edges) && c !in Flatten(rows)
    requires CourseRealized(pattern, k, prev, row, parents, pred, edges) && c !in row
    ensures Swatch(pattern, rows, parents[c := []], pred[c := []], edges)
    ensures CourseRealized(pattern, k, prev, row, parents[c := []], pred[c := []], edges)
    ensures Realizes(c, [], parents[c := []], pred[c := []], edges)
  {
    SwatchFrame(pattern, rows, parents, pred, edges, c, [], [], edges);
    CourseFrame(pattern, k, prev, row, parents, pred, edges, c, [], [], edges);
  }

  /** One more call on the new loop `c`, from a parent it has not been pulled through yet. */
  lemma {:induction false} RealizesPull(c: int, pulls: seq<Pull>, pull: Pull, parents: map<int, seq<int>>,
                     pred: map<int, seq<int>>, edges: map<(int, int), StitchEdge>)
    requires Realizes(c, pulls, parents, pred, edges) && pull.parent !in Sources(pulls)
    ensures Realizes(c, pulls + [pull], parents[c := Stacked(parents[c], pull.parent, pull.position)],
                     pred[c := AppendNew(pred[c], pull.parent)], edges[(pull.parent, c) := pull.edge])
  {
    var next := pulls + [pull];
    assert next[..|next| - 1] == pulls;
    assert StackOf(next) == Stacked(StackOf(pulls), pull.parent, pull.position);
    assert Sources(next) == Sources(pulls) + [pull.parent];
    EdgesPull(c, pulls, pull, edges);
  }

  /** The edge of one more call is added, and the edges of the calls before it stay. */
  lemma {:induction false} EdgesPull(c: int, pulls: seq<Pull>, pull: Pull, edges: map<(int, int), StitchEdge>)
    requires pull.parent !in Sources(pulls)
    requires forall i :: 0 <= i < |pulls| ==> (pulls[i].parent, c) in edges && edges[(pulls[i].parent, c)] == pulls[i].edge
    ensures var next, edges' := pulls + [pull], edges[(pull.parent, c) := pull.edge];
      forall i :: 0 <= i < |next| ==> (next[i].parent, c) in edges' && edges'[(next[i].parent, c)] == next[i].edge
  {
    var next, edges' := pulls + [pull], edges[(pull.parent, c) := pull.edge];
    forall i | 0 <= i < |next| ensures (next[i].parent, c) in edges' && edges'[(next[i].parent, c)] == next[i].edge {
      if i < |pulls| {
        assert next[i] == pulls[i];
        assert Sources(pulls)[i] == pulls[i].parent;
      } else {
        assert next[i] == pull;
      }
    }
  }

  /** One more call on the new loop `c`; the loops already placed keep what they have received. */
  lemma {:induction false} Pulled(pattern: Pattern, rows: seq<seq<int>>, k: nat, prev: seq<int>, row: seq<int>,
               parents: map<int, seq<int>>, pred: map<int, seq<int>>, edges: map<(int, int), StitchEdge>,
               c: int, pulls: seq<Pull>, pull: Pull)
    requires Swatch(pattern, rows, parents, pred, edges) && c !in Flatten(rows)
    requires CourseRealized(pattern, k, prev, row, parents, pred, edges) && c !in row
    requires Realizes(c, pulls, parents, pred, edges) && pull.parent !in Sources(pulls)
    ensures var parents', pred' := parents[c := Stacked(parents[c], pull.parent, pull.position)],
                                   pred[c := AppendNew(pred[c], pull.parent)];
      var edges' := edges[(pull.parent, c) := pull.edge];
      && Swatch(pattern, rows, parents', pred', edges')
      && CourseRealized(pattern, k, prev, row, parents', pred', edges')
      && Realizes(c, pulls + [pull], parents', pred', edges')
  {
    var p, q := Stacked(parents[c], pull.parent, pull.position), AppendNew(pred[c], pull.parent);
    var edges' := edges[(pull.parent, c) := pull.edge];
    SwatchFrame(pattern, rows, parents, pred, edges, c, p, q, edges');
    CourseFrame(pattern, k, prev, row, parents, pred, edges, c, p, q, edges');
    RealizesPull(c, pulls, pull, parents, pred, edges);
  }

  /** A loop that has received all its calls completes one more place of its course. */
  lemma {:induction false} CourseSnoc(pattern: Pattern, k: nat, prev: seq<int>, row: seq<int>, parents: map<int, seq<int>>,
                   pred: map<int, seq<int>>, edges: map<(int, int), StitchEdge>, c: int)
    requires CourseRealized(pattern, k, prev, row, parents, pred, edges)
    requires Realizes(c, PullsAt(pattern, k, |row|, prev), parents, pred, edges)
    ensures CourseRealized(pattern, k, prev, row + [c], parents, pred, edges)
  {
    var plans := seq(|row| + 1, j => PullsAt(pattern, k, j, prev));
    RealizedSnoc(row, c, plans, parents, pred, edges);
  }

  /** Loops that each have received the calls planned for their place, one loop more. */
  lemma {:induction false} RealizedSnoc(row: seq<int>, c: int, plans: seq<seq<Pull>>, parents: map<int, seq<int>>,
                                        pred: map<int, seq<int>>, edges: map<(int, int), StitchEdge>)
    requires |plans| == |row| + 1
    requires forall j :: 0 <= j < |row| ==> Realizes(row[j], plans[j], parents, pred, edges)
    requires Realizes(c, plans[|row|], parents, pred, edges)
    ensures forall j :: 0 <= j < |row| + 1 ==> Realizes((row + [c])[j], plans[j], parents, pred, edges)
  {
    var row' := row + [c];
    forall j | 0 <= j < |row'| ensures Realizes(row'[j], plans[j], parents, pred, edges) {
      var x := if j < |row| then row[j] else c;
      assert row'[j] == x;
      RealizesAt(row, c, plans, parents, pred, edges, j, x);
    }
  }

  /** Place `j` of the longer row holds a loop realizing the calls planned for it. */
  lemma RealizesAt(row: seq<int>, c: int, plans: seq<seq<Pull>>, parents: map<int, seq<int>>,
                   pred: map<int, seq<int>>, edges: map<(int, int), StitchEdge>, j: int, x: int)
    requires |plans| == |row| + 1 && 0 <= j <= |row| && x == if j < |row| then row[j] else c
    requires forall j :: 0 <= j < |row| ==> Realizes(row[j], plans[j], parents, pred, edges)
    requires Realizes(c, plans[|row|], parents, pred, edges)
    ensures Realizes(x, plans[j], parents, pred, edges)
  {
  }

  /** A completed course worked from the last one extends the swatch. */
  lemma {:induction false} SwatchSnoc(pattern: Pattern, rows: seq<seq<int>>, row: seq<int>, parents: map<int, seq<int>>,
                   pred: map<int, seq<int>>, edges: map<(int, int), StitchEdge>)
    requires Swatch(pattern, rows, parents, pred, edges)
    requires CourseRealized(pattern, |rows|, PrevCourse(pattern, rows, |rows|), row, parents, pred, edges)
    ensures Swatch(pattern, rows + [row], parents, pred, edges)
  {
    var rows' := rows + [row];
    assert rows'[..|rows|] == rows;
    assert PrevCourse(pattern, rows', |rows|) == PrevCourse(pattern, rows, |rows|) by {
      if |rows| > 0 {
        assert rows'[|rows| - 1] == rows[|rows| - 1];
      }
    }
  }

  /** The minted courses cover the ids from 0 on, in order. */
  lemma {:induction false} FlattenMinted(w: nat, h: nat)
    ensures Flatten(MintedRows(w, h)) == Range(0, h * w)
  {
    if h > 0 {
      FlattenMinted(w, h - 1);
      assert (h - 1) * w + w == h * w;
      assert Range(0, (h - 1) * w) + Range((h - 1) * w, h * w) == Range(0, h * w);
    }
  }

  /** The `j`-th loop of minted course `k` has id `k * w + j`. */
  lemma {:induction false} MintedAt(w: nat, h: nat, k: nat, j: nat)
    requires k < h
    ensures MintedRows(w, h)[k] == Range(k * w, k * w + w)
    ensures j < w ==> MintedRows(w, h)[k][j] == k * w + j
  {
    if k < h - 1 {
      MintedAt(w, h - 1, k, j);
    } else {
      assert (h - 1) * w + w == h * w;
    }
  }

  // ---------------------------------------------------------------------------
  // what single places end with

  /** The stack one call leaves on a loop without parents. */
  lemma StackOfOne(a: Pull)
    ensures StackOf([a]) == Stacked([], a.parent, a.position)
  {
    assert [a][..0] == [];
  }

  /** The stack two calls leave on a loop without parents. */
  lemma StackOfTwo(a: Pull, b: Pull)
    ensures StackOf([a, b]) == Stacked(Stacked([], a.parent, a.position), b.parent, b.position)
  {
    assert [a, b][..1] == [a];
    StackOfOne(a);
  }

  /** A decrease: the first parent pushed at position 1 of the empty stack, the second at position 0 under it. */
  lemma DecreaseStack(a: Pull, b: Pull)
    requires a.position == Some(1) && b.position == Some(0)
    ensures StackOf([a, b]) == [b.parent, a.parent]
  {
    StackOfTwo(a, b);
    assert Stacked([], a.parent, a.position) == [a.parent];
  }

  /** A decrease the other way round: the first parent at the bottom, the second pushed at position 1 on top. */
  lemma DecreaseStackOnTop(a: Pull, b: Pull)
    requires a.position == Some(0) && b.position == Some(1)
    ensures StackOf([a, b]) == [a.parent, b.parent]
  {
    StackOfTwo(a, b);
    assert Stacked([], a.parent, a.position) == [a.parent];
  }

  /**
   * The parent stacks of an odd lace course: a decrease at place 1 of a repeat stacks
   * `reversed(prev)[i + 1]` under `reversed(prev)[i]` (the first call, at position 1 of
   * an empty stack, appends), one at place 4 stacks `reversed(prev)[i - 1]` under it,
   * the knits hold their one parent and the yarn-overs none.
   */
  lemma LaceStacks(prev: seq<int>, i: int)
    ensures i % 6 == 1 ==> StackOf(LacePulls(prev, i)) == [RevAt(prev, i + 1), RevAt(prev, i)]
    ensures i % 6 == 4 ==> StackOf(LacePulls(prev, i)) == [RevAt(prev, i - 1), RevAt(prev, i)]
    ensures i % 6 == 0 || i % 6 == 5 ==> StackOf(LacePulls(prev, i)) == [RevAt(prev, i)]
    ensures i % 6 == 2 || i % 6 == 3 ==> StackOf(LacePulls(prev, i)) == []
  {
    var pulls := LacePulls(prev, i);
    if i % 6 == 1 {
      DecreaseStack(pulls[0], pulls[1]);
      assert pulls == [pulls[0], pulls[1]];
    } else if i % 6 == 4 {
      DecreaseStackOnTop(pulls[0], pulls[1]);
      assert pulls == [pulls[0], pulls[1]];
    } else if i % 6 == 0 || i % 6 == 5 {
      StackOfOne(pulls[0]);
      assert pulls == [pulls[0]];
    }
  }

  /** A loop that received the one knit call from `p` has `p` as its only parent and predecessor. */
  lemma KnitThrough(x: int, p: int, parents: map<int, seq<int>>, pred: map<int, seq<int>>,
                    edges: map<(int, int), StitchEdge>)
    requires Realizes(x, [Pull(p, Plain(BtF), None)], parents, pred, edges)
    ensures x in parents && parents[x] == [p]
    ensures x in pred && pred[x] == [p]
    ensures (p, x) in edges && edges[(p, x)] == Plain(BtF)
  {
    StackOfOne(Pull(p, Plain(BtF), None));
    assert [Pull(p, Plain(BtF), None)][0].parent == p;
  }

  /**
   * In a jersey swatch, loop `j` of course `k >= 1` has exactly one parent, loop
   * `w - 1 - j` of the course below, knit through it.
   */
  lemma JerseyParent(w: nat, h: nat, parents: map<int, seq<int>>, pred: map<int, seq<int>>,
                     edges: map<(int, int), StitchEdge>, k: nat, j: nat, lo: int, x: int, p: int)
    requires Swatch(Jersey, MintedRows(w, h), parents, pred, edges) && 1 <= k < h && j < w
    requires lo == k * w && x == lo + j && p == lo - 1 - j
    ensures x in parents && parents[x] == [p]
    ensures x in pred && pred[x] == [p]
    ensures (p, x) in edges && edges[(p, x)] == Plain(BtF)
  {
    SwatchAt(Jersey, MintedRows(w, h), parents, pred, edges, k);
    JerseyCourseParent(w, h, parents, pred, edges, k, j, lo, x, p);
  }

  /** Loop `j` of a realized jersey course `k >= 1` has exactly one parent, loop `w - 1 - j` of the course below. */
  lemma JerseyCourseParent(w: nat, h: nat, parents: map<int, seq<int>>, pred: map<int, seq<int>>,
                           edges: map<(int, int), StitchEdge>, k: nat, j: nat, lo: int, x: int, p: int)
    requires 1 <= k < h && j < w && lo == k * w && x == lo + j && p == lo - 1 - j
    requires CourseRealized(Jersey, k, PrevCourse(Jersey, MintedRows(w, h), k), MintedRows(w, h)[k], parents, pred, edges)
    ensures x in parents && parents[x] == [p]
    ensures x in pred && pred[x] == [p]
    ensures (p, x) in edges && edges[(p, x)] == Plain(BtF)
  {
    JerseyPlace(w, h, k, j, lo, x, p);
    KnitThrough(x, p, parents, pred, edges);
  }

  /** Place `j` of jersey course `k >= 1` is loop `k * w + j`, knit through loop `k * w - 1 - j`. */
  lemma JerseyPlace(w: nat, h: nat, k: nat, j: nat, lo: int, x: int, p: int)
    requires 1 <= k < h && j < w && lo == k * w && x == lo + j && p == lo - 1 - j
    ensures var rows := MintedRows(w, h);
      && |rows[k]| == w && rows[k][j] == x
      && PullsAt(Jersey, k, j, PrevCourse(Jersey, rows, k)) == [Pull(p, Plain(BtF), None)]
  {
    MintedRow(w, h, k, lo);
    var lo0 := lo - w;
    LowerRow(k, w, lo);
    MintedRow(w, h, k - 1, lo0);
    var rows := MintedRows(w, h);
    WorkedFrom(Jersey, rows, k, rows[k - 1]);
    JerseyPullsOf(k, j, Range(lo0, lo0 + w), p);
  }

  /** Minted course `k` of `w` loops starts at `lo == k * w`. */
  lemma MintedRow(w: nat, h: nat, k: nat, lo: int)
    requires k < h && lo == k * w
    ensures MintedRows(w, h)[k] == Range(lo, lo + w)
  {
    MintedAt(w, h, k, 0);
  }

  /** The course below the one starting at `k * w` starts `w` ids earlier. */
  lemma LowerRow(k: nat, w: nat, lo: int)
    requires k >= 1 && lo == k * w
    ensures lo - w == (k - 1) * w
  {
  }

  /** Courses of every pattern but cable are handed on in the order they are minted. */
  lemma WorkedFrom(pattern: Pattern, rows: seq<seq<int>>, k: nat, below: seq<int>)
    requires pattern != Cable && 1 <= k <= |rows| && below == rows[k - 1]
    ensures PrevCourse(pattern, rows, k) == below
  {
  }

  /** `reversed(range(lo, lo + w))[j]` is `lo + w - 1 - j`. */
  lemma RevAtRange(lo: int, w: nat, j: nat)
    requires j < w
    ensures RevAt(Range(lo, lo + w), j) == lo + w - 1 - j
  {
  }

  /** A jersey loop worked from `prev` is knit through `reversed(prev)[j]`. */
  lemma JerseyPullsOf(k: nat, j: nat, prev: seq<int>, p: int)
    requires k >= 1 && j < |prev| && prev[|prev| - 1 - j] == p
    ensures PullsAt(Jersey, k, j, prev) == [Pull(p, Plain(BtF), None)]
  {
  }

  /**
   * In a lace swatch, loop `i` of an odd course `k` starting at `lo`, worked from `prev`
   * (the `w` loops before `lo`): the decrease at place 1 holds `reversed(prev)[i + 1]`
   * under `reversed(prev)[i]`, the one at place 4 `reversed(prev)[i - 1]` under it, the
   * knits their one parent `reversed(prev)[i]`, the yarn-overs none.
   */
  lemma LaceParent(w: nat, h: nat, parents: map<int, seq<int>>, pred: map<int, seq<int>>,
                   edges: map<(int, int), StitchEdge>, k: nat, i: nat, lo: int, x: int, prev: seq<int>)
    requires Swatch(Lace, MintedRows(w, h), parents, pred, edges) && 1 <= k < h && k % 2 == 1
    requires i < w && lo == k * w && x == lo + i && prev == PrevCourse(Lace, MintedRows(w, h), k)
    ensures prev == Range(lo - w, lo)
    ensures x in parents
    ensures i % 6 == 1 ==> parents[x] == [RevAt(prev, i + 1), RevAt(prev, i)]
    ensures i % 6 == 4 ==> parents[x] == [RevAt(prev, i - 1), RevAt(prev, i)]
    ensures i % 6 == 0 || i % 6 == 5 ==> parents[x] == [RevAt(prev, i)]
    ensures i % 6 == 2 || i % 6 == 3 ==> parents[x] == []
  {
    SwatchAt(Lace, MintedRows(w, h), parents, pred, edges, k);
    LaceCourseParent(w, h, parents, pred, edges, k, i, lo, x, prev);
  }

  /** Loop `i` of a realized odd lace course `k` holds the parents its calls stack. */
  lemma LaceCourseParent(w: nat, h: nat, parents: map<int, seq<int>>, pred: map<int, seq<int>>,
                         edges: map<(int, int), StitchEdge>, k: nat, i: nat, lo: int, x: int, prev: seq<int>)
    requires 1 <= k < h && k % 2 == 1 && i < w && lo == k * w && x == lo + i
    requires prev == PrevCourse(Lace, MintedRows(w, h), k)
    requires CourseRealized(Lace, k, prev, MintedRows(w, h)[k], parents, pred, edges)
    ensures prev == Range(lo - w, lo)
    ensures x in parents
    ensures i % 6 == 1 ==> parents[x] == [RevAt(prev, i + 1), RevAt(prev, i)]
    ensures i % 6 == 4 ==> parents[x] == [RevAt(prev, i - 1), RevAt(prev, i)]
    ensures i % 6 == 0 || i % 6 == 5 ==> parents[x] == [RevAt(prev, i)]
    ensures i % 6 == 2 || i % 6 == 3 ==> parents[x] == []
  {
    LacePlace(w, h, k, i, lo, x, prev);
    assert parents[x] == StackOf(LacePulls(prev, i));
    LaceStacks(prev, i);
  }

  /** Place `i` of odd lace course `k` is loop `k * w + i`, worked from the `w` loops before it. */
  lemma LacePlace(w: nat, h: nat, k: nat, i: nat, lo: int, x: int, prev: seq<int>)
    requires 1 <= k < h && k % 2 == 1 && i < w && lo == k * w && x == lo + i
    requires prev == PrevCourse(Lace, MintedRows(w, h), k)
    ensures var rows := MintedRows(w, h);
      && |rows[k]| == w && rows[k][i] == x && prev == Range(lo - w, lo)
      && PullsAt(Lace, k, i, prev) == LacePulls(prev, i)
  {
    MintedRow(w, h, k, lo);
    var lo0 := lo - w;
    LowerRow(k, w, lo);
    MintedRow(w, h, k - 1, lo0);
    var rows := MintedRows(w, h);
    WorkedFrom(Lace, rows, k, rows[k - 1]);
    LaceOddPulls(k, i, prev);
  }

  /** An odd lace course makes the repeat's calls. */
  lemma LaceOddPulls(k: nat, i: int, prev: seq<int>)
    requires k % 2 == 1
    ensures PullsAt(Lace, k, i, prev) == LacePulls(prev, i)
  {
  }

  /**
   * In a lace swatch, the edges into loop `i` of an odd course `k`: the decrease at
   * place 1 is pulled through `reversed(prev)[i]` and then through `reversed(prev)[i + 1]`
   * with offset 1, the one at place 4 through `reversed(prev)[i - 1]` with offset -1 and
   * then through `reversed(prev)[i]`; each knit through its one parent; the yarn-overs
   * through nothing.
   */
  lemma LaceEdges(w: nat, h: nat, parents: map<int, seq<int>>, pred: map<int, seq<int>>,
                  edges: map<(int, int), StitchEdge>, k: nat, i: nat, lo: int, x: int, prev: seq<int>)
    requires Swatch(Lace, MintedRows(w, h), parents, pred, edges) && 1 <= k < h && k % 2 == 1
    requires i < w && lo == k * w && x == lo + i && prev == PrevCourse(Lace, MintedRows(w, h), k)
    ensures prev == Range(lo - w, lo) && x in pred
    ensures i % 6 == 1 ==>
      && pred[x] == [RevAt(prev, i), RevAt(prev, i + 1)]
      && (RevAt(prev, i), x) in edges && edges[(RevAt(prev, i), x)] == StitchEdge(BtF, 0, 0)
      && (RevAt(prev, i + 1), x) in edges && edges[(RevAt(prev, i + 1), x)] == StitchEdge(BtF, 0, 1)
    ensures i % 6 == 4 ==>
      && pred[x] == [RevAt(prev, i - 1), RevAt(prev, i)]
      && (RevAt(prev, i - 1), x) in edges && edges[(RevAt(prev, i - 1), x)] == StitchEdge(BtF, 0, -1)
      && (RevAt(prev, i), x) in edges && edges[(RevAt(prev, i), x)] == StitchEdge(BtF, 0, 0)
    ensures i % 6 == 0 || i % 6 == 5 ==>
      && pred[x] == [RevAt(prev, i)]
      && (RevAt(prev, i), x) in edges && edges[(RevAt(prev, i), x)] == StitchEdge(BtF, 0, 0)
    ensures i % 6 == 2 || i % 6 == 3 ==> pred[x] == []
  {
    SwatchAt(Lace, MintedRows(w, h), parents, pred, edges, k);
    LaceCourseEdges(w, h, parents, pred, edges, k, i, lo, x, prev);
  }

  /** The edges into loop `i` of a realized odd lace course `k` are those its calls make. */
  lemma LaceCourseEdges(w: nat, h: nat, parents: map<int, seq<int>>, pred: map<int, seq<int>>,
                        edges: map<(int, int), StitchEdge>, k: nat, i: nat, lo: int, x: int, prev: seq<int>)
    requires 1 <= k < h && k % 2 == 1 && i < w && lo == k * w && x == lo + i
    requires prev == PrevCourse(Lace, MintedRows(w, h), k)
    requires CourseRealized(Lace, k, prev, MintedRows(w, h)[k], parents, pred, edges)
    ensures prev == Range(lo - w, lo) && x in pred
    ensures i % 6 == 1 ==>
      && pred[x] == [RevAt(prev, i), RevAt(prev, i + 1)]
      && (RevAt(prev, i), x) in edges && edges[(RevAt(prev, i), x)] == StitchEdge(BtF, 0, 0)
      && (RevAt(prev, i + 1), x) in edges && edges[(RevAt(prev, i + 1), x)] == StitchEdge(BtF, 0, 1)
    ensures i % 6 == 4 ==>
      && pred[x] == [RevAt(prev, i - 1), RevAt(prev, i)]
      && (RevAt(prev, i - 1), x) in edges && edges[(RevAt(prev, i - 1), x)] == StitchEdge(BtF, 0, -1)
      && (RevAt(prev, i), x) in edges && edges[(RevAt(prev, i), x)] == StitchEdge(BtF, 0, 0)
    ensures i % 6 == 0 || i % 6 == 5 ==>
      && pred[x] == [RevAt(prev, i)]
      && (RevAt(prev, i), x) in edges && edges[(RevAt(prev, i), x)] == StitchEdge(BtF, 0, 0)
    ensures i % 6 == 2 || i % 6 == 3 ==> pred[x] == []
  {
    LacePlace(w, h, k, i, lo, x, prev);
    var pulls := LacePulls(prev, i);
    assert Realizes(x, pulls, parents, pred, edges);
    if |pulls| > 0 {
      assert (pulls[0].parent, x) in edges && edges[(pulls[0].parent, x)] == pulls[0].edge;
    }
    if |pulls| > 1 {
      assert (pulls[1].parent, x) in edges && edges[(pulls[1].parent, x)] == pulls[1].edge;
    }
  }

  /**
   * In a cable swatch, loop `l` of an odd course `k` is pulled through loop
   * `k * w - 1 - l` alone: knit at places 0 and 4 of the repeat, crossed behind with
   * depth -1 and offset 1 at places 2 and 3, crossed in front with depth 1 and
   * offset -2 at place 1.
   */
  lemma CableEdges(w: nat, h: nat, parents: map<int, seq<int>>, pred: map<int, seq<int>>,
                   edges: map<(int, int), StitchEdge>, k: nat, l: nat, lo: int, x: int, p: int)
    requires Swatch(Cable, MintedRows(w, h), parents, pred, edges) && 1 <= k < h && k % 2 == 1
    requires l < w && lo == k * w && x == lo + l && p == lo - 1 - l
    ensures x in parents && parents[x] == [p]
    ensures x in pred && pred[x] == [p]
    ensures (p, x) in edges
    ensures l % 5 == 0 || l % 5 == 4 ==> edges[(p, x)] == StitchEdge(BtF, 0, 0)
    ensures l % 5 == 2 || l % 5 == 3 ==> edges[(p, x)] == StitchEdge(BtF, -1, 1)
    ensures l % 5 == 1 ==> edges[(p, x)] == StitchEdge(BtF, 1, -2)
  {
    SwatchAt(Cable, MintedRows(w, h), parents, pred, edges, k);
    CableCourseEdges(w, h, parents, pred, edges, k, l, lo, x, p);
  }

  /** Loop `l` of a realized odd cable course `k` is pulled through its one parent with the cable edge of place `l`. */
  lemma CableCourseEdges(w: nat, h: nat, parents: map<int, seq<int>>, pred: map<int, seq<int>>,
                         edges: map<(int, int), StitchEdge>, k: nat, l: nat, lo: int, x: int, p: int)
    requires 1 <= k < h && k % 2 == 1 && l < w && lo == k * w && x == lo + l && p == lo - 1 - l
    requires CourseRealized(Cable, k, PrevCourse(Cable, MintedRows(w, h), k), MintedRows(w, h)[k], parents, pred, edges)
    ensures x in parents && parents[x] == [p]
    ensures x in pred && pred[x] == [p]
    ensures (p, x) in edges && edges[(p, x)] == CableEdge(l)
  {
    CablePlace(w, h, k, l, lo, x, p);
    var pull := Pull(p, CableEdge(l), None);
    assert Realizes(x, [pull], parents, pred, edges);
    StackOfOne(pull);
    assert [pull][0].parent == p;
  }

  /** Place `l` of odd cable course `k` is loop `k * w + l`, worked from the course below in minted order. */
  lemma CablePlace(w: nat, h: nat, k: nat, l: nat, lo: int, x: int, p: int)
    requires 1 <= k < h && k % 2 == 1 && l < w && lo == k * w && x == lo + l && p == lo - 1 - l
    ensures var rows := MintedRows(w, h);
      && |rows[k]| == w && rows[k][l] == x
      && PullsAt(Cable, k, l, PrevCourse(Cable, rows, k)) == [Pull(p, CableEdge(l), None)]
  {
    MintedRow(w, h, k, lo);
    var lo0 := lo - w;
    LowerRow(k, w, lo);
    MintedRow(w, h, k - 1, lo0);
    var rows := MintedRows(w, h);
    assert PrevCourse(Cable, rows, k) == Range(lo0, lo0 + w);
    RevAtRange(lo0, w, l);
  }
}
