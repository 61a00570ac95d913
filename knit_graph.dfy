/**
 * Loops, yarns, courses and the knit graph.
 *
 * The four classes live in one module because they refer to one another: a loop holds
 * its yarn, inserting a loop into a yarn registers it with the knit graph, and the
 * knit graph asks a yarn whether it holds a loop.
 *
 * The knit graph's directed graph is kept as owned state: the node ids in insertion
 * order, the loop stored on each node, the attributes of each stitch edge, and the
 * successor and predecessor lists of each node in edge-insertion order. A yarn's
 * list-shaped graph is kept as its node ids in insertion order and its strand, the
 * order in which its links run.
 */
module KnitGraphs {
  import opened Basics
  import opened PyLists
  import opened Strands
  import opened PullDirections
  import CoursePartition

  /** The ways the operations below fail. */
  datatype Error =
    | LoopNotFound(id: int)       // an id that is not a node of the knit graph
    | NotALoopOrId                // an argument that is neither a loop nor an int
    | NegativeLoopId(id: int)     // the Loop constructor's assertion
    | NoKnitGraph                 // a loop id cannot be minted without a knit graph
    | LoopNotOnItsYarn(id: int)   // add_loop's own-yarn check, which ends in a KeyError
    | ParentInCourse(id: int)     // Course.add_loop's assertion
    | IndexOutOfRange(index: int) // IndexError
    | NotInCourse                 // ValueError from list.index
    | UnknownProperty(name: string) // KeyError on the attributes of a stitch edge
    | BadDimensions               // a swatch generator's assertion on its width or height

  datatype Result<T> = Ok(value: T) | Err(error: Error)

  datatype Outcome = Pass | Fail(error: Error)

  /** The needle holding a loop. Needles belong to the machine model, which is not part of this model. */
  type Needle = nat

  /** The attributes of a stitch edge. */
  datatype StitchEdge = StitchEdge(pullDirection: PullDirection, depth: int, parentOffset: int)

  /** One attribute of a stitch edge. */
  datatype EdgeValue = DirectionValue(direction: PullDirection) | IntValue(n: int)

  /** An argument documented as "a loop or a loop id"; anything else is `OtherItem`. */
  datatype Item = IntItem(id: int) | LoopItem(loop: Loop) | OtherItem

  /** The loop id an argument stands for: an int is itself, a loop gives its id. */
  function ItemId(item: Item): (r: Option<int>)
    ensures r.None? <==> item.OtherItem?
    ensures item.IntItem? ==> r == Some(item.id)
    ensures item.LoopItem? ==> r == Some(item.loop.loopId)
  {
    match item
    case IntItem(id) => Some(id)
    case LoopItem(loop) => Some(loop.loopId)
    case OtherItem => None
  }

  /** The attribute called `name` of a stitch edge, if there is one. */
  function Attribute(e: StitchEdge, name: string): (r: Option<EdgeValue>)
    ensures r.Some? <==> name == "pull_direction" || name == "depth" || name == "parent_offset"
    ensures name == "pull_direction" ==> r == Some(DirectionValue(e.pullDirection))
    ensures name == "depth" ==> r == Some(IntValue(e.depth))
    ensures name == "parent_offset" ==> r == Some(IntValue(e.parentOffset))
  {
    if name == "pull_direction" then Some(DirectionValue(e.pullDirection))
    else if name == "depth" then Some(IntValue(e.depth))
    else if name == "parent_offset" then Some(IntValue(e.parentOffset))
    else None
  }

  /** The parent stack after pushing `parent`: on top by default, else at a Python insertion position. */
  function Stacked(parents: seq<int>, parent: int, stackPosition: Option<int>): (r: seq<int>)
    ensures |r| == |parents| + 1
    ensures multiset(r) == multiset(parents) + multiset{parent}
    ensures forall x :: x in r <==> x in parents || x == parent
    ensures stackPosition.None? ==> r[..|parents|] == parents && r[|parents|] == parent
    ensures stackPosition.Some? ==> r[InsertionIndex(|parents|, stackPosition.value)] == parent
  {
    if stackPosition.None? then parents + [parent]
    else
      InsertShifts(parents, stackPosition.value, parent);
      Insert(parents, stackPosition.value, parent)
  }

  /** The last loop of a strand, if it has any. */
  function LastOf(s: seq<int>): (r: Option<int>)
    ensures r.None? <==> s == []
    ensures r.Some? ==> r.value in s
  {
    if s == [] then None else Some(s[|s| - 1])
  }

  /** The strand after inserting `x` next to `neighbor`, after or before it; with no neighbour, `x` starts the strand. */
  function Inserted(s: seq<int>, neighbor: Option<int>, after: bool, x: int): (t: seq<int>)
    requires neighbor.Some? ==> neighbor.value in s
    ensures |t| == |s| + 1
  {
    match neighbor
    case None => s + [x]
    case Some(n) =>
      var k := IndexOf(s, n).value;
      if after then SpliceAfter(s, k, x) else SpliceBefore(s, k, x)
  }

  /** Splicing a new loop in at position `m`: the strand stays distinct, and its end moves to the new loop exactly when the new loop has no successor. */
  lemma SplicedEnd(s: seq<int>, m: nat, x: int)
    requires Distinct(s) && m <= |s| && x !in s
    ensures var t := s[..m] + [x] + s[m..];
      && Distinct(t)
      && (forall y :: y in t <==> y in s || y == x)
      && LastOf(t) == (if NextOn(t, x).None? then Some(x) else LastOf(s))
  {
    var t := s[..m] + [x] + s[m..];
    SplicedAt(s, m, x, t);
    assert s == s[..m] + s[m..];
    LinksAt(t, m);
    if m < |s| {
      assert t[|t| - 1] == s[|s| - 1];
    }
  }

  /**
   * What an insertion does to the strand: it is still distinct, holds exactly one new
   * loop, the new loop is linked to the neighbour on the requested side, and the end of
   * the strand moves to the new loop exactly when the new loop has no successor.
   */
  lemma InsertedLinks(s: seq<int>, neighbor: Option<int>, after: bool, x: int)
    requires Distinct(s) && x !in s
    requires neighbor.Some? ==> neighbor.value in s
    requires neighbor.None? ==> s == []
    ensures var t := Inserted(s, neighbor, after, x);
      && Distinct(t)
      && (forall y :: y in t <==> y in s || y == x)
      && (neighbor.Some? && after ==> NextOn(t, neighbor.value) == Some(x) && PrevOn(t, x) == neighbor)
      && (neighbor.Some? && !after ==> PrevOn(t, neighbor.value) == Some(x) && NextOn(t, x) == neighbor)
      && LastOf(t) == (if NextOn(t, x).None? then Some(x) else LastOf(s))
  {
    if neighbor.None? {
      assert Inserted(s, neighbor, after, x) == s[..0] + [x] + s[0..];
      SplicedEnd(s, 0, x);
    } else {
      var k := IndexOf(s, neighbor.value).value;
      if after {
        SpliceAfterLinks(s, k, x);
        assert Inserted(s, neighbor, after, x) == s[..k + 1] + [x] + s[k + 1..];
        SplicedEnd(s, k + 1, x);
      } else {
        SpliceBeforeLinks(s, k, x);
        SplicedEnd(s, k, x);
      }
    }
  }

  /** Inserting after the last loop appends: the new loop follows the old end and ends the strand. */
  lemma InsertedAtEnd(s: seq<int>, x: int)
    requires Distinct(s) && x !in s
    ensures Inserted(s, LastOf(s), true, x) == s + [x]
    ensures PrevOn(s + [x], x) == LastOf(s) && NextOn(s + [x], x).None?
  {
    if s != [] {
      IndexOfAt(s, s[|s| - 1], |s| - 1);
      assert s[..|s|] == s && s[|s|..] == [];
    }
    SplicedAt(s, |s|, x, s + [x]);
    LinksAt(s + [x], |s|);
  }

  // ---------------------------------------------------------------------------

  /** A single loop: its id, the yarn it is made on, its stack of parents and its needle. */
  class Loop {
    const loopId: nat
    const yarn: Yarn
    /** Parent loop ids, bottom of the stack first. */
    var parents: seq<int>
    var holdingNeedle: Option<Needle>

    constructor (loopId: nat, yarn: Yarn, holdingNeedle: Option<Needle>)
      ensures this.loopId == loopId && this.yarn == yarn
      ensures parents == [] && this.holdingNeedle == holdingNeedle
    {
      this.loopId := loopId;
      this.yarn := yarn;
      this.parents := [];
      this.holdingNeedle := holdingNeedle;
    }

    /** Pushes a parent onto the stack: on top by default, else at `stackPosition`. */
    method AddParentLoop(parent: int, stackPosition: Option<int>)
      modifies this`parents
      ensures parents == Stacked(old(parents), parent, stackPosition)
    {
      if stackPosition.Some? {
        parents := Insert(parents, stackPosition.value, parent);
      } else {
        parents := parents + [parent];
      }
    }

    method PutOnNeedle(needle: Needle)
      modifies this`holdingNeedle
      ensures holdingNeedle == Some(needle) && OnNeedle()
    {
      holdingNeedle := Some(needle);
    }

    method DropFromNeedle()
      modifies this`holdingNeedle
      ensures holdingNeedle == None && !OnNeedle()
    {
      holdingNeedle := None;
    }

    predicate OnNeedle()
      reads this
    {
      holdingNeedle.Some?
    }

    /** The id one below this loop's, when the graph has a node with it. */
    function PriorLoopId(g: KnitGraph): (r: Option<int>)
      reads g
      ensures r.Some? <==> loopId - 1 in g.loops
      ensures r.Some? ==> r.value + 1 == loopId
      ensures g.Valid() && r.Some? ==> g.loops[r.value].loopId + 1 == loopId
    {
      if loopId - 1 in g.loops then Some(loopId - 1) else None
    }

    /** The id one above this loop's, when the graph has a node with it. */
    function NextLoopId(g: KnitGraph): (r: Option<int>)
      reads g
      ensures r.Some? <==> loopId + 1 in g.loops
      ensures r.Some? ==> r.value == loopId + 1
      ensures g.Valid() && loopId in g.loops && r.Some? ==> g.loops[r.value].PriorLoopId(g) == Some(loopId)
    {
      if loopId + 1 in g.loops then Some(loopId + 1) else None
    }

    /** Loop equality: another loop with the same id on the very same yarn. */
    predicate Equals(other: Item) {
      other.LoopItem? && other.loop.loopId == loopId && other.loop.yarn == yarn
    }

    predicate Less(other: Loop) {
      loopId < other.loopId
    }

    predicate Greater(other: Loop) {
      loopId > other.loopId
    }
  }

  // ---------------------------------------------------------------------------

  /** A yarn: the loops made on it, kept as a list from its first loop to its last. */
  class Yarn {
    const yarnId: string
    const size: int
    const plies: int
    const color: Option<string>
    /** Node ids in insertion order, the order in which iterating the yarn visits them. */
    var nodes: seq<int>
    /** The loops in the order the yarn's links run. */
    var strand: seq<int>
    var lastLoopId: Option<int>

    /** The node list and the strand hold the same distinct loops. */
    ghost predicate Valid()
      reads this
    {
      && Distinct(nodes) && Distinct(strand)
      && |nodes| == |strand|
      && (forall x :: x in nodes <==> x in strand)
    }

    /** The recorded last loop is the end of the strand. */
    predicate Tracked()
      reads this
    {
      lastLoopId == LastOf(strand)
    }

    constructor (yarnId: string, lastLoop: Loop?, size: int, plies: int, color: Option<string>)
      ensures Valid() && nodes == [] && strand == []
      ensures lastLoopId == if lastLoop == null then None else Some(lastLoop.loopId)
      ensures Tracked() <==> lastLoop == null
      ensures this.yarnId == yarnId && this.size == size && this.plies == plies && this.color == color
    {
      this.yarnId := yarnId;
      this.size := size;
      this.plies := plies;
      this.color := color;
      nodes := [];
      strand := [];
      lastLoopId := if lastLoop == null then None else Some(lastLoop.loopId);
    }

    /** A yarn named after its size, plies and colour, as `"2-30 green"`. */
    static method YarnByType(color: string, lastLoop: Loop?, size: int, plies: int) returns (y: Yarn)
      ensures fresh(y) && y.Valid() && y.strand == []
      ensures y.yarnId == Str(size) + "-" + Str(plies) + " " + color
      ensures y.size == size && y.plies == plies && y.color == Some(color)
      ensures y.lastLoopId == if lastLoop == null then None else Some(lastLoop.loopId)
    {
      y := new Yarn(Str(size) + "-" + Str(plies) + " " + color, lastLoop, size, plies, Some(color));
    }

    /** A new, empty yarn of the same type, named after this one. */
    method CutYarn() returns (y: Yarn)
      ensures fresh(y) && y.Valid() && y.strand == [] && y.lastLoopId == None && y.Tracked()
      ensures y.yarnId == yarnId + "_cut" && y.size == size && y.plies == plies && y.color == color
    {
      y := new Yarn(yarnId + "_cut", null, size, plies, color);
    }

    /** Whether a loop, or a loop id, is on this yarn. */
    predicate Contains(item: Item)
      reads this
    {
      ItemId(item).Some? && ItemId(item).value in nodes
    }

    /** Membership is membership of the strand; a loop is on the yarn exactly when its id is. */
    lemma ContainsStrand(item: Item)
      requires Valid()
      ensures Contains(item) <==> ItemId(item).Some? && ItemId(item).value in strand
      ensures item.LoopItem? ==> (Contains(item) <==> Contains(IntItem(item.loop.loopId)))
    {
    }

    function Length(): (n: nat)
      reads this
      ensures Valid() ==> n == |strand|
    {
      |nodes|
    }

    /** The ids in the order iterating the yarn yields them: each loop on the strand once. */
    function Loops(): (r: seq<int>)
      reads this
      ensures Valid() ==> Distinct(r) && |r| == |strand| && forall x :: x in r <==> x in strand
    {
      nodes
    }

    /** The loop after `id` along the yarn. */
    function Next(id: int): (r: Option<int>)
      reads this
      ensures r.Some? ==> Contains(IntItem(r.value)) || !Valid()
      ensures Valid() && id !in strand ==> r.None?
    {
      if id in strand then NextOn(strand, id) else None
    }

    /** The loop before `id` along the yarn. */
    function Prev(id: int): (r: Option<int>)
      reads this
      ensures r.Some? ==> Contains(IntItem(r.value)) || !Valid()
      ensures Valid() && id !in strand ==> r.None?
    {
      if id in strand then PrevOn(strand, id) else None
    }

    /**
     * The yarn after `loop` was placed next to `neighbor`: its node was appended, the
     * strand has it on the requested side of the neighbour, and the recorded last loop
     * moved to it exactly when it has no successor.
     */
    twostate predicate Placed(new loop: Loop, neighbor: Option<int>, after: bool)
      requires neighbor.Some? ==> neighbor.value in old(strand)
      reads this
    {
      && nodes == old(nodes) + [loop.loopId]
      && strand == Inserted(old(strand), neighbor, after, loop.loopId)
      && (neighbor.Some? && after ==> Next(neighbor.value) == Some(loop.loopId) && Prev(loop.loopId) == neighbor)
      && (neighbor.Some? && !after ==> Prev(neighbor.value) == Some(loop.loopId) && Next(loop.loopId) == neighbor)
      && lastLoopId == (if Next(loop.loopId).None? then Some(loop.loopId) else old(lastLoopId))
    }

    /**
     * Makes a loop and inserts it next to `neighbor`, after or before it. Without an
     * explicit id the new id is one past the graph's last loop id. With a graph, the
     * loop is also added to the graph.
     */
    method InsertLoop(neighbor: Option<int>, insertAfter: bool, loopId: Option<int>, g: KnitGraph?)
      returns (r: Result<(int, Loop)>)
      requires Valid()
      requires neighbor.Some? ==> neighbor.value in strand
      requires neighbor.None? ==> strand == []
      requires loopId.Some? ==> loopId.value !in strand
      requires g != null ==> g.Valid()
      requires loopId.None? && g != null ==> g.lastLoopId + 1 !in strand
      modifies this, g
      ensures Valid()
      ensures r.Ok? <==> (loopId.None? ==> g != null) && (loopId.Some? ==> loopId.value >= 0)
      ensures loopId.None? && g == null ==> r == Err(NoKnitGraph)
      ensures loopId.Some? && loopId.value < 0 ==> r == Err(NegativeLoopId(loopId.value))
      ensures r.Err? ==> unchanged(this) && (g != null ==> unchanged(g))
      ensures r.Ok? ==>
        var (id, loop) := r.value;
        && (loopId.Some? ==> id == loopId.value)
        && (loopId.None? && g != null ==> id == old(g.lastLoopId) + 1 && id !in old(g.loops))
        && fresh(loop) && loop.loopId == id && loop.yarn == this
        && loop.parents == [] && loop.holdingNeedle == None
        && Placed(loop, neighbor, insertAfter)
        && (old(Tracked()) ==> Tracked())
        && (g != null ==> g.Valid() && g.Registered(loop))
        && (g != null && old(g.ParentsMatch()) && id !in old(g.loops) ==> g.ParentsMatch())
    {
      var id: int;
      if loopId.None? {
        if g == null {
          return Err(NoKnitGraph);
        }
        id := g.lastLoopId + 1;
      } else {
        id := loopId.value;
      }
      if id < 0 {
        return Err(NegativeLoopId(id));
      }
      var loop := MakeLoop(neighbor, insertAfter, id, g);
      return Ok((id, loop));
    }

    /**
     * Creates loop `id` on this yarn, adds it to the graph when there is one, and links
     * it in. Adding to the graph reads only the yarn's node list, so the model links the
     * loop into the strand first; the resulting state is the same.
     */
    method MakeLoop(neighbor: Option<int>, after: bool, id: nat, g: KnitGraph?) returns (loop: Loop)
      requires Valid() && id !in strand
      requires neighbor.Some? ==> neighbor.value in strand
      requires neighbor.None? ==> strand == []
      requires g != null ==> g.Valid()
      modifies this, g
      ensures Valid() && Placed(loop, neighbor, after) && (old(Tracked()) ==> Tracked())
      ensures fresh(loop) && loop.loopId == id && loop.yarn == this
      ensures loop.parents == [] && loop.holdingNeedle == None
      ensures g != null ==> g.Valid() && g.Registered(loop)
      ensures g != null && old(g.ParentsMatch()) && id !in old(g.loops) ==> g.ParentsMatch()
    {
      if g != null {
        loop := PlaceOnGraph(neighbor, after, id, g);
      } else {
        loop := PlaceLoop(neighbor, after, id);
      }
    }

    /** `MakeLoop` with a graph to add the new loop to. */
    method PlaceOnGraph(neighbor: Option<int>, after: bool, id: nat, g: KnitGraph) returns (loop: Loop)
      requires Valid() && id !in strand
      requires neighbor.Some? ==> neighbor.value in strand
      requires neighbor.None? ==> strand == []
      requires g.Valid()
      modifies this, g
      ensures Valid() && Placed(loop, neighbor, after) && (old(Tracked()) ==> Tracked())
      ensures fresh(loop) && loop.loopId == id && loop.yarn == this
      ensures loop.parents == [] && loop.holdingNeedle == None
      ensures g.Valid() && g.Registered(loop)
      ensures old(g.ParentsMatch()) && id !in old(g.loops) ==> g.ParentsMatch()
    {
      ghost var matched := g.ParentsMatch() && id !in g.loops;
      loop := PlaceLoop(neighbor, after, id);
      assert matched ==> g.ParentsMatch() && id !in g.loops;
      Register(loop, g);
    }

    /** Creates loop `id` on this yarn and links it in next to `neighbor`. */
    method PlaceLoop(neighbor: Option<int>, after: bool, id: nat) returns (loop: Loop)
      requires Valid() && id !in strand
      requires neighbor.Some? ==> neighbor.value in strand
      requires neighbor.None? ==> strand == []
      modifies this
      ensures Valid() && Placed(loop, neighbor, after) && (old(Tracked()) ==> Tracked())
      ensures fresh(loop) && loop.loopId == id && loop.yarn == this
      ensures loop.parents == [] && loop.holdingNeedle == None
    {
      loop := new Loop(id, this, None);
      nodes := nodes + [id];
      LinkIn(neighbor, after, id);
    }

    /** Adds a loop made on this yarn to the knit graph; the loop is on the yarn, so the addition completes. */
    method Register(loop: Loop, g: KnitGraph)
      requires g.Valid() && loop.yarn == this && loop.loopId in nodes
      modifies g
      ensures g.Valid() && g.Registered(loop)
      ensures old(g.ParentsMatch()) && loop.loopId !in old(g.loops) && loop.parents == [] ==> g.ParentsMatch()
    {
      var added := g.AddLoop(LoopItem(loop));
    }

    /** Links a new loop into the strand next to `neighbor`, moving the recorded end when it has no successor. */
    method LinkIn(neighbor: Option<int>, after: bool, id: int)
      requires Distinct(strand) && id !in strand
      requires neighbor.Some? ==> neighbor.value in strand
      requires neighbor.None? ==> strand == []
      modifies this`strand, this`lastLoopId
      ensures strand == Inserted(old(strand), neighbor, after, id)
      ensures Distinct(strand) && forall y :: y in strand <==> y in old(strand) || y == id
      ensures neighbor.Some? && after ==> Next(neighbor.value) == Some(id) && Prev(id) == neighbor
      ensures neighbor.Some? && !after ==> Prev(neighbor.value) == Some(id) && Next(id) == neighbor
      ensures lastLoopId == (if Next(id).None? then Some(id) else old(lastLoopId))
      ensures old(Tracked()) ==> Tracked()
    {
      InsertedLinks(strand, neighbor, after, id);
      strand := Inserted(strand, neighbor, after, id);
      if NextOn(strand, id).None? {
        lastLoopId := Some(id);
      }
    }

    /** Makes a loop at the end of the yarn, after the recorded last loop. */
    method AddLoopToEnd(loopId: Option<int>, g: KnitGraph?) returns (r: Result<(int, Loop)>)
      requires Valid() && Tracked()
      requires loopId.Some? ==> loopId.value !in strand
      requires g != null ==> g.Valid()
      requires loopId.None? && g != null ==> g.lastLoopId + 1 !in strand
      modifies this, g
      ensures Valid() && Tracked()
      ensures r.Ok? <==> (loopId.None? ==> g != null) && (loopId.Some? ==> loopId.value >= 0)
      ensures r.Err? ==> unchanged(this) && (g != null ==> unchanged(g))
      ensures r.Ok? ==>
        var (id, loop) := r.value;
        && (loopId.Some? ==> id == loopId.value)
        && (loopId.None? && g != null ==> id == old(g.lastLoopId) + 1 && id !in old(g.loops))
        && fresh(loop) && loop.loopId == id && loop.yarn == this && loop.parents == []
        && nodes == old(nodes) + [id]
        && strand == old(strand) + [id]
        && lastLoopId == Some(id)
        && Prev(id) == old(lastLoopId)
        && (g != null ==> g.Valid() && g.Registered(loop))
        && (g != null && old(g.ParentsMatch()) && id !in old(g.loops) ==> g.ParentsMatch())
    {
      ghost var s := strand;
      r := InsertLoop(lastLoopId, true, loopId, g);
      if r.Ok? {
        InsertedAtEnd(s, r.value.0);
        assert strand == s + [r.value.0];
      }
    }
  }

  // ---------------------------------------------------------------------------

  /** A course: loops in order, with a map from their ids to the loops. */
  class Course {
    var order: seq<int>
    var members: map<int, Loop>

    /** The map holds exactly the ordered ids, each mapped to its own loop. */
    ghost predicate Valid()
      reads this
    {
      && (forall x :: x in members <==> x in order)
      && (forall x :: x in members ==> members[x].loopId == x)
    }

    constructor ()
      ensures Valid() && order == [] && members == map[]
    {
      order := [];
      members := map[];
    }

    /**
     * Adds a loop at `index`, or at the end. Refused, with nothing changed, when one of
     * the loop's parents is already on the course.
     */
    method AddLoop(loop: Loop, index: Option<int>) returns (r: Outcome)
      modifies this
      ensures r.Fail? <==> exists p :: p in loop.parents && p in old(members)
      ensures r.Fail? ==> r == Fail(ParentInCourse(loop.loopId)) && unchanged(this)
      ensures r.Pass? ==> members == old(members)[loop.loopId := loop]
      ensures r.Pass? && index.None? ==> order == old(order) + [loop.loopId]
      ensures r.Pass? && index.Some? ==> order == Insert(old(order), index.value, loop.loopId)
      ensures old(Valid()) && (r.Pass? ==> loop.loopId !in old(members)) ==> Valid()
    {
      var clash := HoldsParentOf(loop);
      if clash {
        return Fail(ParentInCourse(loop.loopId));
      }
      members := members[loop.loopId := loop];
      if index.Some? {
        InsertShifts(order, index.value, loop.loopId);
        order := Insert(order, index.value, loop.loopId);
      } else {
        order := order + [loop.loopId];
      }
      return Pass;
    }

    /** Whether one of the loop's parents is already on the course, checked parent by parent. */
    method HoldsParentOf(loop: Loop) returns (clash: bool)
      ensures clash <==> exists p :: p in loop.parents && p in members
    {
      var i := 0;
      while i < |loop.parents|
        invariant 0 <= i <= |loop.parents|
        invariant forall j :: 0 <= j < i ==> loop.parents[j] !in members
      {
        var p := loop.parents[i];
        if p in members {
          assert p in loop.parents && p in members;
          return true;
        }
        i := i + 1;
      }
      forall p | p in loop.parents ensures p !in members {
        var j :| 0 <= j < |loop.parents| && loop.parents[j] == p;
      }
      return false;
    }

    /** The id at a Python index, negative ones counting from the end. */
    function GetItem(index: int): (r: Result<int>)
      reads this
      ensures r.Ok? <==> -|order| <= index < |order|
      ensures r.Err? ==> r == Err(IndexOutOfRange(index))
      ensures r.Ok? && index >= 0 ==> r.value == order[index]
      ensures r.Ok? && index < 0 ==> r.value == order[|order| + index]
      ensures Valid() && r.Ok? ==> Contains(IntItem(r.value))
    {
      match At(order, index)
      case None => Err(IndexOutOfRange(index))
      case Some(x) => Ok(x)
    }

    /** The position of a loop, or of a loop id, on the course. */
    function Index(item: Item): (r: Result<nat>)
      reads this
      ensures r.Ok? <==> ItemId(item).Some? && ItemId(item).value in order
      ensures r.Err? ==> r == Err(NotInCourse)
      ensures r.Ok? ==> r.value < |order| && order[r.value] == ItemId(item).value
      ensures r.Ok? ==> GetItem(r.value) == Ok(ItemId(item).value)
    {
      match ItemId(item)
      case None => Err(NotInCourse)
      case Some(id) =>
        match IndexOf(order, id)
        case None => Err(NotInCourse)
        case Some(k) => Ok(k)
    }

    /** Whether a loop, or a loop id, is on the course. */
    predicate Contains(item: Item)
      reads this
    {
      ItemId(item).Some? && ItemId(item).value in members
    }

    /** On a valid course, holding an id means having a position for it. */
    lemma ContainsIndex(item: Item)
      requires Valid()
      ensures Contains(item) <==> Index(item).Ok?
    {
    }

    /** On a course whose ids are distinct, `GetItem` and `Index` undo each other. */
    lemma IndexGetItem(k: nat)
      requires Distinct(order) && k < |order|
      ensures Index(IntItem(order[k])) == Ok(k)
    {
      IndexOfAt(order, order[k], k);
    }

    function Length(): nat
      reads this
    {
      |order|
    }

    /** The length of a valid course with distinct ids is its number of members. */
    lemma LengthMembers()
      requires Valid() && Distinct(order)
      ensures Length() == |members|
    {
      DistinctKeys(order, members);
    }

    /** The ids in the order iterating the course yields them. */
    function Loops(): (r: seq<int>)
      reads this
      ensures |r| == Length()
      ensures Valid() ==> forall x :: x in r <==> Contains(IntItem(x))
    {
      order
    }
  }

  /** A map whose keys are the elements of a distinct list has as many keys as the list has elements. */
  lemma DistinctKeys<V>(s: seq<int>, m: map<int, V>)
    requires Distinct(s)
    requires forall x :: x in m <==> x in s
    ensures |m| == |s|
  {
    DistinctElements(s);
    var elems := set x | x in s;
    assert forall x :: x in m.Keys <==> x in elems;
    assert m.Keys == elems;
  }

  // ---------------------------------------------------------------------------

  /**
   * The shape of a knit graph's state: the node list holds each node once, every node
   * has a successor and a predecessor list without repeats, the edges are exactly the
   * adjacency links, and the last loop id is the largest node id (-1 on an empty graph).
   */
  ghost predicate WellFormed(nodes: seq<int>, ids: set<int>, edges: map<(int, int), StitchEdge>,
                             succ: map<int, seq<int>>, pred: map<int, seq<int>>, last: int)
  {
    && Distinct(nodes)
    && (forall x :: x in ids <==> x in nodes)
    && (forall x :: x in succ <==> x in ids)
    && (forall x :: x in pred <==> x in ids)
    && (forall x :: x in succ ==> Distinct(succ[x]))
    && (forall x :: x in pred ==> Distinct(pred[x]))
    && (forall p, c :: (p, c) in edges ==> p in succ && c in pred && c in succ[p] && p in pred[c])
    && (forall p, c :: p in succ && c in succ[p] ==> (p, c) in edges)
    && (forall p, c :: c in pred && p in pred[c] ==> (p, c) in edges)
    && (forall x :: x in ids ==> 0 <= x <= last)
    && (last == -1 || last in ids)
  }

  /** Adding a node with a non-negative id keeps the state well formed. */
  lemma AddNodeWellFormed(nodes: seq<int>, ids: set<int>, edges: map<(int, int), StitchEdge>,
                          succ: map<int, seq<int>>, pred: map<int, seq<int>>, last: int, id: int)
    requires WellFormed(nodes, ids, edges, succ, pred, last)
    requires id >= 0
    ensures WellFormed(AppendNew(nodes, id), ids + {id}, edges,
                       if id in succ then succ else succ[id := []],
                       if id in pred then pred else pred[id := []],
                       if id > last then id else last)
  {
    AppendNewDistinct(nodes, id);
  }

  /** Adding or replacing an edge between two nodes keeps the state well formed. */
  lemma AddEdgeWellFormed(nodes: seq<int>, ids: set<int>, edges: map<(int, int), StitchEdge>,
                          succ: map<int, seq<int>>, pred: map<int, seq<int>>, last: int,
                          p: int, c: int, e: StitchEdge)
    requires WellFormed(nodes, ids, edges, succ, pred, last)
    requires p in ids && c in ids
    ensures WellFormed(nodes, ids, edges[(p, c) := e],
                       succ[p := AppendNew(succ[p], c)], pred[c := AppendNew(pred[c], p)], last)
  {
    AppendNewDistinct(succ[p], c);
    AppendNewDistinct(pred[c], p);
  }

  /** The knit graph: loops as nodes and stitch edges from parent loops to child loops. */
  class KnitGraph {
    /** Node ids in insertion order. */
    var nodes: seq<int>
    /** The loop stored on each node. */
    var loops: map<int, Loop>
    /** The attributes of each stitch edge (parent id, child id). */
    var edges: map<(int, int), StitchEdge>
    /** The children of each node, in edge-insertion order. */
    var succ: map<int, seq<int>>
    /** The parents of each node, in edge-insertion order. */
    var pred: map<int, seq<int>>
    var lastLoopId: int
    var yarns: map<string, Yarn>

    /** The graph's state is well formed and each node stores the loop with its id. */
    ghost predicate Valid()
      reads this`nodes, this`loops, this`edges, this`succ, this`pred, this`lastLoopId
    {
      && WellFormed(nodes, loops.Keys, edges, succ, pred, lastLoopId)
      && Keyed()
    }

    /** Every loop is stored under its own id. */
    predicate Keyed()
      reads this`loops
    {
      forall x :: x in loops ==> loops[x].loopId == x
    }

    /** Every loop's parent stack holds exactly the node's predecessors in the graph. */
    ghost predicate ParentsMatch()
      reads this`loops, this`pred, loops.Values
    {
      forall c :: c in loops && c in pred ==> SameElements(loops[c].parents, pred[c])
    }

    /** The parent stack of every loop, by id. */
    ghost function ParentMap(): (m: map<int, seq<int>>)
      reads this`loops, loops.Values
      ensures forall x :: x in m <==> x in loops
      ensures forall x :: x in m ==> m[x] == loops[x].parents
    {
      map x | x in loops :: loops[x].parents
    }

    /** `parents` holds the parent stack of every loop, by id. */
    ghost predicate StacksAre(parents: map<int, seq<int>>)
      reads this`loops, loops.Values
    {
      forall x :: x in loops ==> x in parents && parents[x] == loops[x].parents
    }

    /** What adding `loop` does: its node is added (or updated in place) and its yarn registered. */
    twostate predicate Noded(new loop: Loop)
      reads this
    {
      && nodes == AppendNew(old(nodes), loop.loopId)
      && loops == old(loops)[loop.loopId := loop]
      && edges == old(edges)
      && succ == (if loop.loopId in old(succ) then old(succ) else old(succ)[loop.loopId := []])
      && pred == (if loop.loopId in old(pred) then old(pred) else old(pred)[loop.loopId := []])
      && yarns == old(yarns)[loop.yarn.yarnId := loop.yarn]
    }

    /** A completed addition: the node is in and the last loop id is the largest id seen. */
    twostate predicate Registered(new loop: Loop)
      reads this
    {
      && Noded(loop)
      && lastLoopId == (if loop.loopId > old(lastLoopId) then loop.loopId else old(lastLoopId))
    }

    constructor ()
      ensures Valid() && ParentsMatch()
      ensures nodes == [] && loops == map[] && edges == map[] && succ == map[] && pred == map[]
      ensures lastLoopId == -1 && yarns == map[]
    {
      nodes := [];
      loops := map[];
      edges := map[];
      succ := map[];
      pred := map[];
      lastLoopId := -1;
      yarns := map[];
    }

    /**
     * Adds a loop as a node; anything that is not a loop is ignored. The loop's yarn is
     * always (re-)registered under its id. A loop that is not on its own yarn is refused
     * after its node and its yarn are in, with the last loop id untouched.
     */
    method AddLoop(item: Item) returns (r: Outcome)
      requires Valid()
      modifies this`nodes, this`loops, this`succ, this`pred, this`yarns, this`lastLoopId
      ensures !item.LoopItem? ==> r == Pass && unchanged(this)
      ensures item.LoopItem? ==> Noded(item.loop)
      ensures item.LoopItem? ==>
        (r.Fail? <==> !item.loop.yarn.Contains(item)) &&
        (r.Fail? ==> r == Fail(LoopNotOnItsYarn(item.loop.loopId)) && lastLoopId == old(lastLoopId))
      ensures r.Pass? ==> Valid()
      ensures r.Pass? && item.LoopItem? ==>
        lastLoopId == (if item.loop.loopId > old(lastLoopId) then item.loop.loopId else old(lastLoopId))
      ensures r.Pass? && item.LoopItem? && old(ParentsMatch()) &&
        SameElements(item.loop.parents, if item.loop.loopId in old(pred) then old(pred[item.loop.loopId]) else [])
        ==> ParentsMatch()
    {
      if !item.LoopItem? {
        return Pass;
      }
      var loop := item.loop;
      var id := loop.loopId;
      Enter(loop);
      if !loop.yarn.Contains(item) {
        return Fail(LoopNotOnItsYarn(id));
      }
      RaiseLast(id);
      return Pass;
    }

    /** The node and the yarn of `AddLoop`, before the yarn is asked about the loop. */
    method Enter(loop: Loop)
      requires Valid()
      modifies this`nodes, this`loops, this`succ, this`pred, this`yarns
      ensures Noded(loop)
      ensures WellFormed(nodes, loops.Keys, edges, succ, pred,
                         if loop.loopId > lastLoopId then loop.loopId else lastLoopId)
      ensures Keyed()
      ensures old(ParentsMatch()) &&
        SameElements(loop.parents, if loop.loopId in old(pred) then old(pred[loop.loopId]) else [])
        ==> ParentsMatch()
    {
      AddNode(loop);
      ghost var matched := ParentsMatch();
      AddYarn(loop.yarn);
      assert matched ==> ParentsMatch();
    }

    /** The last loop id becomes the largest id seen, which makes a graph with `id` in it valid. */
    method RaiseLast(id: int)
      requires WellFormed(nodes, loops.Keys, edges, succ, pred, if id > lastLoopId then id else lastLoopId) && Keyed()
      modifies this`lastLoopId
      ensures lastLoopId == (if id > old(lastLoopId) then id else old(lastLoopId)) && Valid()
    {
      if id > lastLoopId {
        lastLoopId := id;
      }
    }

    /** The node half of `AddLoop`: the loop is stored under its id with empty adjacency. */
    method AddNode(loop: Loop)
      requires Valid()
      modifies this`nodes, this`loops, this`succ, this`pred
      ensures nodes == AppendNew(old(nodes), loop.loopId)
      ensures loops == old(loops)[loop.loopId := loop]
      ensures succ == (if loop.loopId in old(succ) then old(succ) else old(succ)[loop.loopId := []])
      ensures pred == (if loop.loopId in old(pred) then old(pred) else old(pred)[loop.loopId := []])
      ensures WellFormed(nodes, loops.Keys, edges, succ, pred,
                         if loop.loopId > lastLoopId then loop.loopId else lastLoopId)
      ensures Keyed()
      ensures old(ParentsMatch()) &&
        SameElements(loop.parents, if loop.loopId in old(pred) then old(pred[loop.loopId]) else [])
        ==> ParentsMatch()
    {
      var id := loop.loopId;
      AddNodeWellFormed(nodes, loops.Keys, edges, succ, pred, lastLoopId, id);
      nodes := AppendNew(nodes, id);
      loops := loops[id := loop];
      assert loops.Keys == old(loops.Keys) + {id};
      if id !in succ {
        succ := succ[id := []];
      }
      if id !in pred {
        pred := pred[id := []];
      }
    }

    method AddYarn(yarn: Yarn)
      modifies this`yarns
      ensures yarns == old(yarns)[yarn.yarnId := yarn]
      ensures nodes == old(nodes) && loops == old(loops) && edges == old(edges) && succ == old(succ) && pred == old(pred)
      ensures lastLoopId == old(lastLoopId)
    {
      yarns := yarns[yarn.yarnId := yarn];
    }

    /**
     * Adds the stitch edge from `parentId` to `childId` with its attributes, replacing
     * the attributes of an existing edge, and pushes the parent onto the child's parent
     * stack. Refused, with nothing changed, unless both loops are nodes.
     */
    method ConnectLoops(parentId: int, childId: int, pullDirection: PullDirection,
                        stackPosition: Option<int>, depth: int, parentOffset: int)
      returns (r: Outcome)
      requires Valid()
      modifies this`edges, this`succ, this`pred, if childId in loops then {loops[childId]} else {}
      ensures Valid()
      ensures nodes == old(nodes) && loops == old(loops) && lastLoopId == old(lastLoopId) && yarns == old(yarns)
      ensures r.Fail? <==> parentId !in old(loops) || childId !in old(loops)
      ensures r.Fail? ==>
        r == Fail(LoopNotFound(if parentId !in old(loops) then parentId else childId)) &&
        unchanged(this) && (childId in old(loops) ==> unchanged(old(loops[childId])))
      ensures r.Pass? ==>
        && edges == old(edges)[(parentId, childId) := StitchEdge(pullDirection, depth, parentOffset)]
        && succ == old(succ)[parentId := AppendNew(old(succ[parentId]), childId)]
        && pred == old(pred)[childId := AppendNew(old(pred[childId]), parentId)]
      ensures r.Pass? ==> loops[childId].parents == Stacked(old(loops[childId].parents), parentId, stackPosition)
      ensures r.Pass? ==> forall x :: x in loops && x != childId ==> loops[x].parents == old(loops[x].parents)
      ensures r.Pass? ==> forall x :: x in loops ==> loops[x].holdingNeedle == old(loops[x].holdingNeedle)
      ensures r.Pass? ==> GetStitchEdge(IntItem(parentId), IntItem(childId)) == Some(StitchEdge(pullDirection, depth, parentOffset))
      ensures old(ParentsMatch()) ==> ParentsMatch()
    {
      if parentId !in loops {
        return Fail(LoopNotFound(parentId));
      }
      if childId !in loops {
        return Fail(LoopNotFound(childId));
      }
      Join(parentId, childId, StitchEdge(pullDirection, depth, parentOffset), stackPosition);
      return Pass;
    }

    /** What `ConnectLoops` does once both loops are known nodes. */
    method Join(parentId: int, childId: int, e: StitchEdge, stackPosition: Option<int>)
      requires Valid() && parentId in loops && childId in loops
      modifies this`edges, this`succ, this`pred, loops[childId]
      ensures Valid()
      ensures nodes == old(nodes) && loops == old(loops) && lastLoopId == old(lastLoopId) && yarns == old(yarns)
      ensures edges == old(edges)[(parentId, childId) := e]
      ensures succ == old(succ)[parentId := AppendNew(old(succ[parentId]), childId)]
      ensures pred == old(pred)[childId := AppendNew(old(pred[childId]), parentId)]
      ensures loops[childId].parents == Stacked(old(loops[childId].parents), parentId, stackPosition)
      ensures forall x :: x in loops && x != childId ==> loops[x].parents == old(loops[x].parents)
      ensures forall x :: x in loops ==> loops[x].holdingNeedle == old(loops[x].holdingNeedle)
      ensures old(ParentsMatch()) ==> ParentsMatch()
    {
      ghost var pm, matched := ParentMap(), ParentsMatch();
      AddEdge(parentId, childId, e);
      var child := loops[childId];
      child.AddParentLoop(parentId, stackPosition);
      assert Valid();
      if matched {
        forall c | c in loops && c in pred ensures SameElements(loops[c].parents, pred[c]) {
          if c != childId {
            assert loops[c].parents == pm[c] && pred[c] == old(pred[c]);
          }
        }
      }
    }

    /** The edge-and-adjacency half of `ConnectLoops`: loops are untouched. */
    method AddEdge(parentId: int, childId: int, e: StitchEdge)
      requires Valid() && parentId in loops && childId in loops
      modifies this`edges, this`succ, this`pred
      ensures Valid()
      ensures nodes == old(nodes) && loops == old(loops) && lastLoopId == old(lastLoopId) && yarns == old(yarns)
      ensures edges == old(edges)[(parentId, childId) := e]
      ensures succ == old(succ)[parentId := AppendNew(old(succ[parentId]), childId)]
      ensures pred == old(pred)[childId := AppendNew(old(pred[childId]), parentId)]
    {
      AddEdgeWellFormed(nodes, loops.Keys, edges, succ, pred, lastLoopId, parentId, childId, e);
      edges := edges[(parentId, childId) := e];
      succ := succ[parentId := AppendNew(succ[parentId], childId)];
      pred := pred[childId := AppendNew(pred[childId], parentId)];
    }

    /** Whether a loop, or a loop id, is a node. */
    predicate Contains(item: Item)
      reads this
    {
      ItemId(item).Some? && ItemId(item).value in loops
    }

    /** A node is exactly an id that was added; a loop is in when its id is. */
    lemma ContainsNodes(item: Item)
      requires Valid()
      ensures Contains(item) <==> ItemId(item).Some? && ItemId(item).value in nodes
      ensures Contains(item) ==> GetLoop(ItemId(item).value).Ok?
    {
    }

    /** The loop stored on a node. */
    function GetLoop(id: int): (r: Result<Loop>)
      reads this
      ensures r.Ok? <==> Contains(IntItem(id))
      ensures r.Err? ==> r == Err(LoopNotFound(id))
      ensures Valid() && r.Ok? ==> r.value.loopId == id
    {
      if id in loops then Ok(loops[id]) else Err(LoopNotFound(id))
    }

    /** The attributes of the stitch edge between two loops or ids, if it exists. */
    function GetStitchEdge(parent: Item, child: Item): (r: Option<StitchEdge>)
      reads this
      ensures r.Some? <==> ItemId(parent).Some? && ItemId(child).Some? && (ItemId(parent).value, ItemId(child).value) in edges
      ensures Valid() && r.Some? ==>
        var (p, c) := (ItemId(parent).value, ItemId(child).value);
        c in succ[p] && p in pred[c] && Contains(parent) && Contains(child)
    {
      match (ItemId(parent), ItemId(child))
      case (Some(p), Some(c)) => if (p, c) in edges then Some(edges[(p, c)]) else None
      case _ => None
    }

    /** One attribute of a stitch edge: none without the edge, a key error for an unknown name. */
    function GetStitchProperty(parent: Item, child: Item, name: string): (r: Result<Option<EdgeValue>>)
      reads this
      ensures r == Ok(None) <==> GetStitchEdge(parent, child).None?
      ensures r.Err? <==> GetStitchEdge(parent, child).Some? && Attribute(GetStitchEdge(parent, child).value, name).None?
      ensures r.Err? ==> r == Err(UnknownProperty(name))
      ensures GetStitchEdge(parent, child).Some? && name == "pull_direction" ==>
        r == Ok(Some(DirectionValue(GetStitchEdge(parent, child).value.pullDirection)))
    {
      match GetStitchEdge(parent, child)
      case None => Ok(None)
      case Some(e) =>
        match Attribute(e, name)
        case None => Err(UnknownProperty(name))
        case Some(v) => Ok(Some(v))
    }

    /** The first child of a loop, or none when nothing is pulled through it. */
    function GetChildLoop(item: Item): (r: Result<Option<int>>)
      reads this
      ensures Valid() ==> (r.Ok? <==> Contains(item))
      ensures item.OtherItem? ==> r == Err(NotALoopOrId)
      ensures Valid() && r.Ok? && r.value.Some? ==>
        GetStitchEdge(item, IntItem(r.value.value)).Some? && r.value.value == succ[ItemId(item).value][0]
      ensures Valid() && r == Ok(None) ==> forall c :: GetStitchEdge(item, IntItem(c)).None?
    {
      match ItemId(item)
      case None => Err(NotALoopOrId)
      case Some(id) =>
        if id !in succ then Err(LoopNotFound(id))
        else if succ[id] == [] then Ok(None)
        else Ok(Some(succ[id][0]))
    }

    /**
     * Splits the loops into courses: one pass over the ids in increasing order starts a
     * new course at each loop with a predecessor on the current one. The courses are
     * then filled with the graph's loops, which fails if a loop's parent stack holds a
     * loop of its own course.
     */
    method GetCourses() returns (r: Result<seq<Course>>)
      requires Valid()
      ensures var rows := CoursePartition.Partition(Sort(nodes), pred);
        && (r.Ok? <==> CoursePartition.NoEarlierParent(rows, old(ParentMap())))
        && (r.Err? ==> r.error.ParentInCourse?)
        && (r.Ok? ==> Fills(r.value, rows) && forall k :: 0 <= k < |r.value| ==> fresh(r.value[k]))
    {
      ghost var pm := ParentMap();
      var ids := Sort(nodes);
      CoursePartition.SortedPartitionRows(nodes, loops.Keys, pred, CoursePartition.Partition(ids, pred));
      var rows := PassOverIds(ids, pred);
      r := FillCourses(rows, pm);
    }

    /**
     * In a graph whose parent stacks hold exactly the predecessors, no loop shares a
     * course with one of its parents, so `GetCourses` succeeds.
     */
    lemma MatchedCoursesSucceed()
      requires Valid() && ParentsMatch()
      ensures CoursePartition.NoEarlierParent(CoursePartition.Partition(Sort(nodes), pred), ParentMap())
    {
      CoursePartition.MatchedPartition(Sort(nodes), pred, ParentMap());
    }

    /** The pass of `get_courses` over the sorted ids, tracking the current course as a set. */
    static method PassOverIds(ids: seq<int>, pred: map<int, seq<int>>) returns (rows: seq<seq<int>>)
      requires forall x :: x in ids ==> x in pred
      ensures rows == CoursePartition.Partition(ids, pred)
    {
      var closed: seq<seq<int>> := [];
      var current: seq<int> := [];
      var currentSet: set<int> := {};
      var i := 0;
      while i < |ids|
        invariant 0 <= i <= |ids|
        invariant CoursePartition.Scan(ids[..i], pred) == CoursePartition.PassState(closed, current)
        invariant forall y :: y in currentSet <==> y in current
      {
        var x := ids[i];
        var noParents := true;
        var ps := pred[x];
        var j := 0;
        while j < |ps|
          invariant 0 <= j <= |ps|
          invariant noParents
          invariant forall t :: 0 <= t < j ==> ps[t] !in current
          invariant forall y :: y in currentSet <==> y in current
        {
          if ps[j] in currentSet {
            noParents := false;
            break;
          }
          j := j + 1;
        }
        if !noParents {
          assert ps == pred[x];
          var q := ps[j];
          assert q in pred[x];
          assert q in current;
          assert exists q' :: q' in pred[x] && q' in current;
        } else {
          forall p | p in ps ensures p !in current {
            var t :| 0 <= t < |ps| && ps[t] == p;
          }
        }
        assert noParents <==> !CoursePartition.HasParentIn(pred, x, current);
        assert ids[..i + 1] == ids[..i] + [x];
        CoursePartition.ScanSnoc(ids[..i], x, pred);
        if noParents {
          currentSet := currentSet + {x};
          current := current + [x];
        } else {
          closed := closed + [current];
          current := [x];
          currentSet := {x};
        }
        i := i + 1;
      }
      assert ids[..|ids|] == ids;
      rows := closed + [current];
    }

    /** The courses hold the rows, in order, as distinct objects storing the graph's loops. */
    ghost predicate Fills(courses: seq<Course>, rows: seq<seq<int>>)
      reads this`loops, courses
    {
      && |courses| == |rows|
      && (forall k :: 0 <= k < |rows| ==> courses[k].Valid() && courses[k].order == rows[k])
      && (forall k, x :: 0 <= k < |rows| && x in courses[k].members ==> x in loops && courses[k].members[x] == loops[x])
      && (forall i, j :: 0 <= i < j < |rows| ==> courses[i] != courses[j])
    }

    /** Fills one new course per row with the graph's loops, in row order. */
    method FillCourses(rows: seq<seq<int>>, ghost parents: map<int, seq<int>>) returns (r: Result<seq<Course>>)
      requires Keyed() && StacksAre(parents)
      requires forall k, x :: 0 <= k < |rows| && x in rows[k] ==> x in loops
      requires forall k :: 0 <= k < |rows| ==> Distinct(rows[k])
      ensures r.Ok? <==> CoursePartition.NoEarlierParent(rows, parents)
      ensures r.Err? ==> r.error.ParentInCourse?
      ensures r.Ok? ==> Fills(r.value, rows) && forall k :: 0 <= k < |r.value| ==> fresh(r.value[k])
    {
      var courses: seq<Course> := [];
      var k := 0;
      while k < |rows|
        invariant 0 <= k <= |rows| && |courses| == k
        invariant forall t :: 0 <= t < k ==> fresh(courses[t])
        invariant forall t :: 0 <= t < k ==> courses[t].Valid() && courses[t].order == rows[t]
        invariant forall t, x :: 0 <= t < k && x in courses[t].members ==> x in loops && courses[t].members[x] == loops[x]
        invariant forall i, j :: 0 <= i < j < k ==> courses[i] != courses[j]
        invariant forall t :: 0 <= t < k ==> CoursePartition.RowNoEarlierParent(rows[t], parents)
      {
        var c := FillCourse(rows[k], parents);
        if c.Err? {
          return Err(c.error);
        }
        courses := courses + [c.value];
        k := k + 1;
      }
      return Ok(courses);
    }

    /** Fills a new course with the graph's loops of one row, in order. */
    method FillCourse(row: seq<int>, ghost parents: map<int, seq<int>>) returns (r: Result<Course>)
      requires Keyed() && StacksAre(parents)
      requires forall x :: x in row ==> x in loops
      requires Distinct(row)
      ensures r.Ok? <==> CoursePartition.RowNoEarlierParent(row, parents)
      ensures r.Err? ==> r.error.ParentInCourse?
      ensures r.Ok? ==> fresh(r.value) && r.value.Valid() && r.value.order == row
      ensures r.Ok? ==> forall x :: x in r.value.members ==> x in loops && r.value.members[x] == loops[x]
    {
      var c := new Course();
      var s := 0;
      while s < |row|
        modifies c
        invariant 0 <= s <= |row|
        invariant c.Valid() && c.order == row[..s]
        invariant forall x :: x in c.members ==> x in loops && c.members[x] == loops[x]
        invariant CoursePartition.RowNoEarlierParent(row[..s], parents)
      {
        var x := row[s];
        var loop := loops[x];
        assert row[..s + 1] == row[..s] + [x];
        var added := c.AddLoop(loop, None);
        if added.Fail? {
          assert CoursePartition.HasParentIn(parents, row[s], row[..s]);
          return Err(added.error);
        }
        CoursePartition.RowPrefixStep(row, s, parents);
        s := s + 1;
      }
      assert row[..|row|] == row;
      return Ok(c);
    }
  }
}
