# Knit graphs in Dafny

A model of the Knitgraph package. The package stores a knitted fabric as a graph:

- **Loops** are the nodes, keyed by integer id.
- **Stitch edges** run from a parent loop to the child loop pulled through it. Each edge carries a pull direction (`BtF`, knit, or `FtB`, purl), a cable `depth` and a `parent_offset`.
- **Yarns** are strands. Each one holds a sequence of loops in the order they were made.
- **Courses** are rows. `get_courses` rebuilds them by one ascending pass over the loop ids. A new course starts at the first loop that has a parent in the open course.
- **Generators** build the standard swatches: cast-on, jersey, seed, rib, lace and cable. Each one works course after course across the previous course in reverse.

## How the model is built

Each module follows one source file:

- `PullDirections` models `Pull_Direction.py`.
- `KnitGraphs` holds the classes `Loop`, `Yarn`, `Course` and `KnitGraph`, from `Loop.py`, `Yarn.py` and `Knit_Graph.py`.
- `Swatches` and `SwatchPatterns` model `generate_knit_graphs.py`.
- `Basics`, `PyLists` and `Strands` provide values: Python's `list.insert`, `index`, `sorted`, `str(int)` and `range` semantics, and a yarn as a list of ids.

**The graph.**
- The networkx `DiGraph` is replaced by owned state: a node list, the `loops` map from id to `Loop`, an edge map from `(parent, child)` to `StitchEdge`, and successor and predecessor lists in insertion order.
- `KnitGraph.Valid()` ties these together. `ParentsMatch()` states that every loop's parent stack holds exactly that loop's predecessors.
- A yarn's `yarn_graph` is its list of loop ids in strand order (`strand`), plus the node insertion order that iterating the yarn visits (`nodes`).

**Failures.**
- Every Python `assert` and raised exception in the core is an error result (`Result`/`Outcome`) carrying the cause.
- This covers connect_loops on a missing loop, a course that already holds a parent, a missing loop on lookup, a missing knit graph when minting an id, and the generators' size checks.

**Courses.**
- `get_courses` is a loop whose ghost state follows `CoursePartition.Partition`, a value definition of the same one-pass split.
- `CoursePartition` proves what the split means: it covers the sorted ids, it breaks only at a loop with a parent in the course before, it puts no loop after one of its parents in the same course, and it is unique (`PartitionOfRows`).

**Generators.**
- The generators are methods over `KnitGraph` and `Yarn`. Their nested for-loops become nested methods: one per course loop and one per stitch.
- The methods call `Yarn.AddLoopToEnd`, `KnitGraph.ConnectLoops` and `KnitGraph.AddLoop` as the source does. Seed and rib read the parent's pull direction back from the graph's predecessor list and edge data.
- Alongside the objects, each generator keeps a ghost log of the mutations made so far (`SwatchLogs.Op`). The graph and the yarn always show the log's replay (`Swatches.Shows`).
- `SwatchLogs` defines each pattern's log course by course and proves that its replay is the pattern's swatch. `StitchPlans.Swatch` states, per loop, the exact parent stack, predecessor list and edge attributes.
- On top of that:
  - `SwatchCourses` shows that `get_courses` on each generated graph returns the rows of `width` loops that the docstrings promise.
  - `StitchPlans` states the lace decreases and jersey stitches on the generated graph.
  - `SwatchPatterns.SeedUnder` and `RibUnder` state the direction rule against the graph's own edges.

**What the code does where the documentation says otherwise.** The model follows the code:
- `Loop.__eq__` also compares yarns.
- `get_courses` returns only the list of courses, not the dictionary its docstring mentions.
- `Knit_Graph.add_loop` registers the loop's yarn again on every call, because `loop.yarn not in self.yarns` compares a `Yarn` against string keys (Knit_Graph.py:97).
- When a loop is not on its yarn, line 102 indexes `yarns` by the `Yarn` object, and the model reports that as the failure `LoopNotOnItsYarn`.
- `seed_stitch` and `kp_rib` build and then discard a cast-on graph before building their own.

## Model

| member | source | states |
|---|---|---|
| PullDirections.Opposite | Pull_Direction.py:10-17 | BtF becomes FtB and FtB becomes BtF; the result always differs from the argument |
| PullDirections.OppositeInvolution | Pull_Direction.py:10-17 | turning a direction over twice gives it back |
| PullDirections.Name | Pull_Direction.py:19-20 | the name is "Knit" exactly for BtF and "Purl" exactly for FtB |
| KnitGraphs.ItemId | Knit_Graph.py:216-221 | an int stands for itself, a loop for its id, and anything else for no loop |
| KnitGraphs.Attribute | Knit_Graph.py:257-258 | an edge's `pull_direction`, `depth` and `parent_offset` read back as stored, and any other name is unknown |
| KnitGraphs.Stacked | Loop.py:75-78 | the stack grows by one parent and keeps its multiset otherwise; the parent goes on top by default, else at Python's insertion index |
| KnitGraphs.InsertedLinks | Yarn.py:133-148 | splicing after a neighbour puts the new loop right after it, splicing before puts it right before; the strand stays duplicate-free and the end moves only when the new loop has no successor |
| KnitGraphs.InsertedAtEnd | Yarn.py:88 | inserting after the last loop appends, and the new loop's predecessor is the old last loop |
| KnitGraphs.Loop.constructor | Loop.py:24-39 | the new loop has the given id, yarn and needle, and an empty parent stack |
| KnitGraphs.Loop.AddParentLoop | Loop.py:67-78 | the parent stack becomes the old one with the parent appended, or inserted at the position with list.insert semantics |
| KnitGraphs.Loop.PutOnNeedle | Loop.py:41-45 | the loop is held by that needle and is on a needle |
| KnitGraphs.Loop.DropFromNeedle | Loop.py:47-51 | the loop is held by no needle and is not on a needle |
| KnitGraphs.Loop.PriorLoopId | Loop.py:87-96 | the id one below, exactly when the graph has it, and that loop's id is one below |
| KnitGraphs.Loop.NextLoopId | Loop.py:98-107 | the id one above, exactly when the graph has it; that loop's prior id is this one |
| KnitGraphs.Yarn.constructor | Yarn.py:24-40 | an empty yarn with the given id, size, plies and colour; its last loop is the given loop's id, so it is consistent exactly when none is given |
| KnitGraphs.Yarn.YarnByType | Yarn.py:42-52 | a new, empty yarn whose id is `"<size>-<plies> <color>"`, with that size, plies and colour |
| KnitGraphs.Yarn.CutYarn | Yarn.py:180-184 | a new, empty yarn named `yarn_id + "_cut"` with the same size, plies and colour |
| KnitGraphs.Yarn.ContainsStrand | Yarn.py:153-164 | an int or a loop is on the yarn exactly when its id is on the strand, and a loop exactly when its id is |
| KnitGraphs.Yarn.Length | Yarn.py:67-68 | the length is the number of loops on the strand |
| KnitGraphs.Yarn.Loops | Yarn.py:166-167 | iteration visits every loop of the yarn once, and nothing else |
| KnitGraphs.Yarn.InsertLoop | Yarn.py:90-150 | fails exactly without a graph to mint from or with a negative id, changing nothing; else mints `last_loop_id + 1`, a fresh id, or takes the given one, splices the new loop on the requested side, moves the end only when the new loop has no successor, and registers the loop in the graph |
| KnitGraphs.Yarn.MakeLoop | Yarn.py:123-131 | a new loop with the id, on this yarn, spliced in, and registered in the graph when one is given |
| KnitGraphs.Yarn.PlaceOnGraph | Yarn.py:127-131 | the loop is on the yarn and registered in the graph, and the graph's stacks still match its predecessors |
| KnitGraphs.Yarn.PlaceLoop | Yarn.py:123-127 | a new loop with the id and no parents, spliced into the strand |
| KnitGraphs.Yarn.Register | Yarn.py:130-131 | the loop becomes a node of the graph with its yarn registered |
| KnitGraphs.Yarn.LinkIn | Yarn.py:133-148 | the strand gains the id next to the neighbour on the requested side; the last loop moves to it exactly when it has no successor |
| KnitGraphs.Yarn.AddLoopToEnd | Yarn.py:79-88 | the same failures as insert_loop; else the strand and the node list gain the new id at the end, it becomes the yarn's last loop, and its predecessor is the old last loop |
| KnitGraphs.Course.constructor | Knit_Graph.py:14-16 | an empty course |
| KnitGraphs.Course.AddLoop | Knit_Graph.py:18-30 | fails exactly when a parent of the loop is already in the course, changing nothing; else the loop is a member and its id is appended, or inserted at the index |
| KnitGraphs.Course.HoldsParentOf | Knit_Graph.py:24-25 | true exactly when some parent of the loop is a member |
| KnitGraphs.Course.GetItem | Knit_Graph.py:32-33 | Python indexing of the ordered ids, negative indices from the end; out of range is an error |
| KnitGraphs.Course.Index | Knit_Graph.py:35-43 | the position of the id, or the loop's id, in the order; indexing there gives it back; absent is an error |
| KnitGraphs.Course.ContainsIndex | Knit_Graph.py:45-48 | membership holds exactly when `index` finds the loop |
| KnitGraphs.Course.IndexGetItem | Knit_Graph.py:32-43 | with distinct ids, `index` of the id at position k is k |
| KnitGraphs.Course.LengthMembers | Knit_Graph.py:53-54 | the length equals the number of members |
| KnitGraphs.Course.Loops | Knit_Graph.py:50-51 | iteration has length `len` and visits exactly the members |
| KnitGraphs.KnitGraph.constructor | Knit_Graph.py:78-82 | an empty graph, `last_loop_id` -1, no yarns |
| KnitGraphs.KnitGraph.AddLoop | Knit_Graph.py:84-109 | anything but a loop changes nothing; a loop becomes a node with its yarn registered; it fails exactly when the loop is not on its yarn; else `last_loop_id` becomes the larger of the old value and the id |
| KnitGraphs.KnitGraph.Enter | Knit_Graph.py:94-98 | the loop is a node with its yarn registered, and the graph stays well formed |
| KnitGraphs.KnitGraph.RaiseLast | Knit_Graph.py:105-106 | `last_loop_id` becomes the larger of the old value and the id |
| KnitGraphs.KnitGraph.AddNode | Knit_Graph.py:94 | the node list gains the id once, the loop is stored under it, and its edge lists start empty |
| KnitGraphs.KnitGraph.AddYarn | Knit_Graph.py:111-116 | the yarn is stored under its id and nothing else changes |
| KnitGraphs.KnitGraph.ConnectLoops | Knit_Graph.py:118-143 | fails exactly when an endpoint is missing, changing nothing; else stores the edge attributes, lists the child after the parent's successors and the parent after the child's predecessors, stacks the parent on the child, leaves every other loop alone, and the edge reads back as given |
| KnitGraphs.KnitGraph.Join | Knit_Graph.py:136-143 | the edge and both adjacency lists are updated, the child's stack gets the parent, nothing else changes |
| KnitGraphs.KnitGraph.AddEdge | Knit_Graph.py:136 | networkx add_edge: the attributes are overwritten, and each endpoint is listed once in the other's adjacency |
| KnitGraphs.AddNodeWellFormed | Knit_Graph.py:94 | adding a node keeps the graph well formed |
| KnitGraphs.AddEdgeWellFormed | Knit_Graph.py:136 | adding an edge between two nodes keeps the graph well formed |
| KnitGraphs.KnitGraph.ContainsNodes | Knit_Graph.py:210-221 | an int or a loop is in the graph exactly when its id is a node, and then lookup succeeds |
| KnitGraphs.KnitGraph.GetLoop | Knit_Graph.py:223-240 | the loop with that id, exactly when it is in the graph; otherwise an error |
| KnitGraphs.KnitGraph.GetStitchEdge | Knit_Graph.py:242-262 | the edge's attributes exactly when there is a parent-to-child edge, which links two nodes |
| KnitGraphs.KnitGraph.GetStitchProperty | Knit_Graph.py:256-260 | None exactly when there is no edge; an unknown property is an error; `pull_direction` reads back the stored direction |
| KnitGraphs.KnitGraph.GetChildLoop | Knit_Graph.py:264-274 | the first successor in insertion order, which is a child; None only when no edge leaves the loop; an error for what is not a loop or id in the graph |
| KnitGraphs.KnitGraph.GetCourses | Knit_Graph.py:145-207 | fails exactly when some loop has a parent before it in its own course; else returns new courses holding exactly the rows of the one-pass split of the sorted ids |
| KnitGraphs.KnitGraph.MatchedCoursesSucceed | Knit_Graph.py:172-205 | when stacks match predecessors, filling the courses never meets a parent in its own course |
| KnitGraphs.KnitGraph.FillCourses | Knit_Graph.py:197-207 | fills one new course per row, failing exactly when a row holds a loop after one of its parents |
| KnitGraphs.KnitGraph.FillCourse | Knit_Graph.py:201-205 | a new course whose order is the row and whose members are the graph's loops, or the failure of the first clash |
| CoursePartition.PartitionCovers | Knit_Graph.py:170-195 | the courses, concatenated, are the ids visited |
| CoursePartition.PartitionOfNothing | Knit_Graph.py:195-198 | no ids give one empty course |
| CoursePartition.PartitionRowsNonEmpty | Knit_Graph.py:181-189 | with some ids, no course is empty |
| CoursePartition.PartitionBreaks | Knit_Graph.py:175-189 | every course after the first starts with a loop that has a parent in the course before |
| CoursePartition.PartitionNoEarlierParent | Knit_Graph.py:175-183 | no loop has a parent before it in its own course |
| CoursePartition.NoParentInOwnCourse | Knit_Graph.py:171-189 | when ids ascend and every edge goes to a larger id, no loop shares a course with one of its parents |
| CoursePartition.PartitionOfRows | Knit_Graph.py:171-195 | rows that break exactly where the pass breaks are the pass's result, so the split is unique |
| CoursePartition.SortedPartitionRows | Knit_Graph.py:171 | the sorted ids are the nodes; each course is duplicate-free and holds only nodes |
| CoursePartition.MatchedPartition | Knit_Graph.py:24-25 | a parent map with the same elements as the predecessor lists sees no clash either |
| PyLists.InsertShifts | Loop.py:76 | list.insert keeps the elements before the index, shifts the rest up by one, and removing the new element gives the list back |
| PyLists.InsertPastEndAppends | Loop.py:76 | an insertion index past the end appends |
| PyLists.IndexOfAt | Knit_Graph.py:43 | list.index finds the first position of the element, and indexing there gives it back |
| PyLists.SortDistinct | Knit_Graph.py:171 | sorting distinct ids makes them strictly ascending and keeps the same elements |
| PyLists.SortIncreasing | Knit_Graph.py:171 | sorting ids that already ascend changes nothing |
| PyLists.StrRoundTrip | Yarn.py:52 | the decimal text of an int reads back as that int |
| PyLists.AppendNew | Knit_Graph.py:136 | networkx adjacency: an element already listed is not added again, and the list only grows |
| Strands.SpliceAfterLinks | Yarn.py:135-139 | after splicing in after a loop, the new loop follows it and precedes its old successor, and no other link changes |
| Strands.SpliceBeforeLinks | Yarn.py:140-144 | after splicing in before a loop, the new loop precedes it and follows its old predecessor, and no other link changes |
| StitchPlans.SourcesInside | generate_knit_graphs.py:168-175 | with lace courses in whole repeats of six, every parent a stitch is pulled through is in the course below |
| StitchPlans.LaceNeedsRepeats | generate_knit_graphs.py:157 | without whole repeats, a lace decrease reaches past the course: an 8-loop course pulls its 8th loop through -1 |
| StitchPlans.LaceStacks | generate_knit_graphs.py:168-175 | a lace stitch at 1 mod 6 ends with parents `[rc[i+1], rc[i]]`, one at 4 mod 6 with `[rc[i-1], rc[i]]`, one at 0 or 5 mod 6 with `[rc[i]]`, and yarn-overs with none |
| StitchPlans.DecreaseStack | generate_knit_graphs.py:171-172 | a parent placed at position 1 of an empty stack and a second at position 0 leave the second at the bottom |
| StitchPlans.DecreaseStackOnTop | generate_knit_graphs.py:174-175 | a parent placed at position 0 and a second at position 1 leave the first at the bottom |
| StitchPlans.KnitThrough | generate_knit_graphs.py:30 | a stitch with one plain knit call has exactly that parent, that predecessor and a plain BtF edge |
| StitchPlans.JerseyParent | generate_knit_graphs.py:25-31 | in a jersey swatch the j-th loop of course k has exactly one parent, loop `k*w - 1 - j` of the course below, pulled BtF with depth 0 and offset 0 |
| StitchPlans.LaceParent | generate_knit_graphs.py:159-176 | on an odd course of a lace swatch, the course below is the previous row of ids, and each loop's parent stack is its lace stack |
| StitchPlans.LaceEdges | generate_knit_graphs.py:165-175 | on an odd course of a lace swatch, with `rc` the reversed course below, the decrease at i%6==1 has predecessors `[rc[i], rc[i+1]]` with edges Plain(BtF) and offset 1 on the second, the one at i%6==4 has `[rc[i-1], rc[i]]` with offset -1 on the first, knits have their one BtF edge, and yarn-overs have no predecessor |
| StitchPlans.CableEdges | generate_knit_graphs.py:195-206 | on an odd course of a cable swatch, loop `l` has the single parent `k*w - 1 - l`, whose edge has depth 0 and offset 0 at l%5 in {0,4}, depth -1 and offset 1 at l%5 in {2,3}, depth 1 and offset -2 at l%5 == 1 |
| StitchPlans.MintedAt | Yarn.py:118-120 | course k of a swatch w wide holds the ids `k*w` to `k*w + w - 1` |
| StitchPlans.FlattenMinted | Yarn.py:118-120 | the courses together hold the ids 0 to `h*w - 1`, in order |
| SwatchLogs.Apply | Yarn.py:79-88 | a new loop takes the next id and has no parents; a connect call stores the edge and leaves the nodes alone |
| SwatchLogs.CastOnOps | generate_knit_graphs.py:12-13 | the first course of every pattern is `width` new loops |
| SwatchLogs.CablePermutes | generate_knit_graphs.py:198-209 | the order an odd cable course hands on is a permutation of the course |
| SwatchLogs.LastCourseFacts | generate_knit_graphs.py:31 | the course handed on after h courses holds the ids `(h-1)*w` to `h*w - 1`, each once |
| SwatchLogs.SwatchLength | generate_knit_graphs.py:24-31 | h courses of w loops make `h*w` loops |
| SwatchLogs.SwatchBuilt | generate_knit_graphs.py:24-31 | the log of h courses replays to the pattern's swatch on the minted rows, with no loop pending |
| SwatchLogs.SwatchReplayed | generate_knit_graphs.py:24-31 | the log of h courses replays to nodes 0 to `h*w - 1`, every loop with exactly the stack, predecessors and edges its pattern gives it |
| Swatches.AddToEnd | generate_knit_graphs.py:28 | the new loop takes the next id on the yarn and in the graph, and the graph shows the log extended by it |
| Swatches.NewLoop | Yarn.py:79-88 | the graph and yarn show one more new loop |
| Swatches.Make | Yarn.py:113-131 | the new id is `last_loop_id + 1`, fresh, appended to the yarn and the graph with no edges and an empty stack, and becomes the last one |
| Swatches.Connect | generate_knit_graphs.py:30 | the graph shows the log extended by the connect call |
| Swatches.Stitch | Knit_Graph.py:118-143 | the graph and yarn show one more connect call |
| Swatches.Link | Knit_Graph.py:136-143 | the edge and predecessor list gain the call, and the child's stack gains the parent |
| Swatches.AddAgain | generate_knit_graphs.py:60 | adding a loop that is already placed again changes nothing the log shows |
| Swatches.Readd | Knit_Graph.py:92-109 | add_loop on a loop already in the graph changes only the yarn registration |
| Swatches.CastOn | generate_knit_graphs.py:7-14 | a new graph with one yarn `"yarn"` and the loops 0 to `width - 1`, no edges, and returns exactly the yarn's loops |
| Swatches.PlaceOne | generate_knit_graphs.py:28-30 | one new loop at the next id, connected once, shown in the log |
| Swatches.Finished | generate_knit_graphs.py:32 | the finished graph has the nodes 0 to `h*w - 1` and is the pattern's swatch |
| Swatches.JerseyKnit | generate_knit_graphs.py:17-32 | a new graph whose nodes are 0 to `h*w - 1` and which is the jersey swatch: every loop of a later course knit BtF through the loop opposite it in the course below |
| Swatches.JerseyCourses | generate_knit_graphs.py:25-31 | after the loop the graph shows the jersey log of all the courses |
| Swatches.JerseyCourse | generate_knit_graphs.py:26-31 | one more course of the jersey log, and the course handed on |
| Swatches.JerseyPlaces | generate_knit_graphs.py:27-30 | the new course is the next w ids, worked across the last course in reverse |
| SwatchPatterns.SeedStitch | generate_knit_graphs.py:35-88 | fails exactly when `width <= 0` or `height <= 1`; else a new graph whose nodes are 0 to `h*w - 1` and which is the seed swatch |
| SwatchPatterns.FirstRow | generate_knit_graphs.py:49-60 | a new graph and yarn with the loops 0 to `width - 1` and no edges |
| SwatchPatterns.PlaceAgain | generate_knit_graphs.py:66-72 | one new loop at the next id, added again and connected once |
| SwatchPatterns.SeedFirstCourse | generate_knit_graphs.py:63-72 | the second course alternates BtF and FtB by column |
| SwatchPatterns.SeedFirstPlaces | generate_knit_graphs.py:65-72 | the course is the next w ids, worked across the first row in reverse |
| SwatchPatterns.SeedCourses | generate_knit_graphs.py:75-86 | after the loop the graph shows the seed log of all the courses |
| SwatchPatterns.SeedCourse | generate_knit_graphs.py:76-86 | one more course of the seed log, and the course handed on |
| SwatchPatterns.SeedPlaces | generate_knit_graphs.py:78-86 | the course is the next w ids, each turned over from its parent |
| SwatchPatterns.SeedPlace | generate_knit_graphs.py:79-86 | the new loop is pulled through its parent in the direction the pattern gives |
| SwatchPatterns.SeedUnder | generate_knit_graphs.py:84-86 | the seed direction is the opposite of the direction of the parent's first incoming edge, as the graph records it |
| SwatchPatterns.SeedTurns | generate_knit_graphs.py:84-86 | the seed rule turns over the direction the parent was made with |
| SwatchPatterns.KpRib | generate_knit_graphs.py:91-148 | fails exactly when `width <= 0`, `height <= 1` or the rib is wider than the swatch; else a new graph whose nodes are 0 to `h*w - 1` and which is the rib swatch |
| SwatchPatterns.RibFirstCourse | generate_knit_graphs.py:121-134 | the second course knits even columns of the course below and purls odd ones |
| SwatchPatterns.RibFirstPlaces | generate_knit_graphs.py:125-134 | the course is the next w ids, worked across the first row in reverse |
| SwatchPatterns.RibCourses | generate_knit_graphs.py:137-146 | after the loop the graph shows the rib log of all the courses |
| SwatchPatterns.RibCourse | generate_knit_graphs.py:138-146 | one more course of the rib log, and the course handed on |
| SwatchPatterns.RibPlaces | generate_knit_graphs.py:140-146 | the course is the next w ids, each copying its parent |
| SwatchPatterns.RibPlace | generate_knit_graphs.py:141-146 | the new loop is pulled through its parent in the direction the pattern gives |
| SwatchPatterns.RibUnder | generate_knit_graphs.py:144-146 | the rib direction is the direction of the parent's first incoming edge, as the graph records it |
| SwatchPatterns.RibCopies | generate_knit_graphs.py:144-146 | the rib rule copies the direction the parent was made with |
| SwatchPatterns.LaceSwatch | generate_knit_graphs.py:151-177 | fails exactly when `width % 6 != 0`; else a new graph whose nodes are 0 to `h*w - 1` and which is the lace swatch |
| SwatchPatterns.LaceCourses | generate_knit_graphs.py:159-176 | after the loop the graph shows the lace log of all the courses |
| SwatchPatterns.LaceCourse | generate_knit_graphs.py:160-176 | one more course of the lace log, and the course handed on |
| SwatchPatterns.LacePlaces | generate_knit_graphs.py:161-175 | the course is the next w ids, worked across the last course in reverse |
| SwatchPatterns.LacePlace | generate_knit_graphs.py:163-175 | the new loop receives knit-across calls on even courses and its lace calls on odd ones |
| SwatchPatterns.Neighbours | generate_knit_graphs.py:172-174 | in whole repeats of six, the neighbour a decrease reaches is inside the course |
| SwatchPatterns.LaceOdd | generate_knit_graphs.py:167-175 | the new loop of an odd course receives exactly its lace calls |
| SwatchPatterns.LaceDecreaseOnto | generate_knit_graphs.py:170-172 | a decrease at 1 mod 6 receives its two calls in order |
| SwatchPatterns.LaceDecreaseUnder | generate_knit_graphs.py:173-175 | a decrease at 4 mod 6 receives its two calls in order |
| SwatchPatterns.Decrease | generate_knit_graphs.py:171-175 | two connect calls into one loop, in order |
| SwatchPatterns.CableSwatch | generate_knit_graphs.py:180-210 | fails exactly when `width % 5 != 0`; else a new graph whose nodes are 0 to `h*w - 1` and which is the cable swatch |
| SwatchPatterns.CableCourses | generate_knit_graphs.py:188-209 | after the loop the graph shows the cable log of all the courses |
| SwatchPatterns.CableCourse | generate_knit_graphs.py:189-209 | one more course of the cable log; an odd course hands on its cable order |
| SwatchPatterns.CablePlaces | generate_knit_graphs.py:191-206 | the course is the next w ids, and on an odd course the cable list is their cable order |
| SwatchPatterns.CablePlace | generate_knit_graphs.py:193-206 | the new loop receives its cable call, and the cable list grows by the loop, before its last entry for crossed stitches |
| SwatchCourses.SwatchBreaks | Knit_Graph.py:171-192 | the minted rows of any swatch break exactly as `get_courses` breaks them, and no loop shares a course with a parent |
| SwatchCourses.SwatchCourseRows | Knit_Graph.py:145-207 | on a generated swatch the one-pass split of the sorted ids is the minted rows, with no clash |
| SwatchCourses.SwatchCourseList | Knit_Graph.py:145-207 | `get_courses` on a generated swatch returns h courses, course k holding the ids `k*w` to `k*w + w - 1`; one empty course for an empty swatch |
| SwatchCourses.JerseyRows | generate_knit_graphs.py:17-22 | `get_courses` on `jersey_knit(width, height)` gives `height` courses of `width` loops in creation order |
| SwatchCourses.SeedRows | generate_knit_graphs.py:35-40 | seed_stitch fails exactly on its size checks; else `get_courses` gives `height` courses of `width` loops |
| SwatchCourses.RibRows | generate_knit_graphs.py:91-96 | kp_rib fails exactly on its size checks; else `get_courses` gives `height` courses of `width` loops |
| SwatchCourses.LaceRows | generate_knit_graphs.py:151-156 | lace fails exactly when the width is no multiple of 6; else `get_courses` gives its courses of `width` loops |
| SwatchCourses.CableRows | generate_knit_graphs.py:180-185 | cable fails exactly when the width is no multiple of 5; else `get_courses` gives its courses of `width` loops |

## Left out

- networkx itself is not modelled. Its node, adjacency and attribute maps are owned fields, with insertion order kept for successors, predecessors and yarn iteration.
- `Yarn.last_needle` and the `Needle` class depend on the `knit_script` package, which is not part of this model; a needle is an opaque value.
- `Yarn.__getitem__` is not modelled: Yarn.py:178 reads `.loop` from a node-attribute dict, which raises.
- `get_courses` also builds `loop_ids_to_course_dict`, but never returns it, so it is not modelled.
- `__str__` and `__repr__` are not modelled, apart from `Pull_Direction.__str__`.
- `is_twisted` and `layer` are not modelled: all they do is store a value.
- `KnitGraphs.Loop.parents` holds parent ids, not `Loop` objects. Every reader of the stack in the core uses only the ids (Knit_Graph.py:25, 143).
- `KnitGraphs.Loop.constructor`: it takes a `nat` id, so the non-negativity assert at Loop.py:35 is a precondition. `Yarn.InsertLoop` reports a negative id as an error before a loop is built.
- `KnitGraphs.Loop.Less` and `KnitGraphs.Loop.Greater` are predicates comparing ids; they have no contract of their own, so they get no row. The same holds for `Loop.Equals`, which requires an equal id and the very same yarn.
- `KnitGraphs.Yarn.InsertLoop` does not model the `loop` argument (Yarn.py:114-117, 123): the loop is always minted. Callers in the core never pass one, and the assert on that path compares against a possibly-None `last_loop_id`.
- `KnitGraphs.Yarn.InsertLoop` requires that the neighbour is on the strand, that no neighbour means an empty yarn, and that the id is fresh. Outside these, networkx would raise after the node and an edge were already added (Yarn.py:127-141), or leave a loop detached from the strand. Those half-done states are not modelled.
- `KnitGraphs.Yarn.AddLoopToEnd` requires `Tracked()`, so the yarn's recorded last loop must be the end of its strand. A yarn built with a `last_loop` it does not hold (Yarn.py:36-39) is excluded.
- `KnitGraphs.KnitGraph.AddLoop` keeps a single `loops` map for both Python's `self.loops` dict and the node payload. On the failing path (the error at Knit_Graph.py:102) the model's map holds the loop, while Python has set only the node attribute.
- `RibWidth` is the constant 1 that `kp_rib` fixes at generate_knit_graphs.py:104.
- `SwatchPatterns.RibFirstPlaces` divides `column / RibWidth` on naturals, where generate_knit_graphs.py:129 divides as floats and truncates with `int`. The two agree for every column below 2^53, so float rounding on larger columns is not modelled.
- Parameter defaults (`width=10`, `height=10`, `size=2` and so on) are not modelled; every argument is explicit.
- `SwatchPatterns.SeedStitch` and `SwatchPatterns.KpRib` build the cast-on of generate_knit_graphs.py:41 and :97 with `CastOn` and discard it, as the source does. The model states nothing about that discarded graph.
- `Swatches.AddAgain` and `Swatches.Readd` model the generators' repeated `add_loop` calls (generate_knit_graphs.py:60, 68, 81, 119, 128, 143). Both are proved to change nothing the log shows, only the yarn registration.
- The generators' ghost log and its replay (`SwatchLogs.Replay`) describe what the graph and yarn hold, and say nothing about aliasing with other graphs. The log mints by node count; `Swatches.Shows` ties this to `last_loop_id + 1`.
- `Swatches.Mirrors` wraps `Shows` in a quantifier over a trivially true gate (`SwatchLogs.Opened`). This keeps the content out of the proofs of the generators' loops; it states the same thing.
