# acd2d core in Dafny

acd2d computes an approximate convex decomposition of a simple polygon, with or without
holes. This project models two parts of it.

**The decomposition driver** (class `cd_2d`, in `decomposition.dfy`, module
`Decomposition`):
- A work queue of polygon groups is drained pass by pass.
- Each pass swaps the whole queue out and looks at every group of that snapshot.
  - A hole is merged into its boundary, and the group is queued again.
  - A boundary whose concavity witness is missing or below the tolerance is moved to the
    done list.
  - Any other boundary is cut into two groups, which are queued for the next pass.
- `decomposeAll` repeats passes until the queue is empty, or for at most 100 passes.
- There are two failure modes.
  - Strict (`decompose*`): a cut failure escapes.
  - Lenient (`maybe_decompose*`): a cut failure drops the group.
  - A failed hole merge escapes in both modes.

The class is modelled as `Decomposition.Decomposer`, whose fields are the three lists and
the settings. The constructor, `AddPolygon` and `Destroy` state their effect on the fields
directly. Each decomposing method is proved equal to a specification function: `OutStep`,
`InStep`, `GroupStep`, `PassFrom`/`Pass` or `RunFrom`/`DecomposeAllSpec`. Lemmas about
those functions state what a pass and a whole run promise.

The geometry collaborators are fields of a `Geometry` value of total functions:
- validity, copying, the next ring's kind, cutting and hole merging.

The concavity measure is `Option<Group -> Option<Witness>>`, where `None` is a null
measure pointer.

**The triangle dual graph** (`src/edge_visibility/acd2d_ev_function.cpp`, in
`dual_graph.dfy`, module `DualGraph`):
- `find` and `add` on the per-vertex buckets of directed edges.
- `dualT`, which does the following:
  - allocates one triangle record per index triple in the arena (`ev_tri_buffer`,
    modelled as class `TriBuffer`) and copies the triple into it;
  - records every unmatched directed edge, links two triangles when an edge meets its
    reverse, putting each in the other's first free neighbour slot;
  - returns the seed triangle.
- The control shape of `triangulate`.

Triangle pointers are arena indices, with `Null` = -1.

`DualT` is proved equal to the specification function `DualSpec`, which is built from
`EdgeStep`, `EdgesFrom` and `Built`. Lemmas over `Built` then show the following:
- The records hold the triples.
- The seed is the last triangle with the closing edge.
- Neighbour slots follow the log of matches.
- Every match joins two triangles that share an edge traversed in opposite directions.
- Conversely, when no directed edge occurs twice in the input, every two triangles that
  share an edge in opposite directions were matched.
- `DualTNeighbours` and `DualTNeighboursAreSharedEdges` restate these facts for the
  output of `DualT` itself.

The comment on `dualT` (`src/edge_visibility/acd2d_ev_function.cpp:32`) says it returns
the triangle containing edge (0, N-1). The code overwrites the seed on every closing edge
it sees, so it returns the **last** such triangle. The model follows the code.

## Model

| member | source | states |
|---|---|---|
| Decomposition.Decomposer.constructor | src/acd2d_core.cpp:19-23 | the diagonal flag is the argument, alpha = 0, beta = 1, and all three lists start empty |
| Decomposition.Decomposer.AddPolygon | src/acd2d_core.cpp:33-44 | a valid group is appended to the queue as a copy; an invalid one leaves the queue unchanged |
| Decomposition.Decomposer.Destroy | src/acd2d_core.cpp:46-50 | the queue and the done list become empty; the diagonal log is not touched |
| Decomposition.Decomposer.DecomposeAll | src/acd2d_core.cpp:53-66 | the new lists and the failure flag are those of the strict run specification, from the clamped tolerance, with at most 100 passes |
| Decomposition.Decomposer.MaybeDecomposeAll | src/acd2d_core.cpp:67-76 | the same, for the lenient run |
| Decomposition.Decomposer.Decompose | src/acd2d_core.cpp:78-99 | one strict pass: the queue is swapped out, a null measure discards it, the tolerance is clamped, and each group of the snapshot is processed in order until one fails |
| Decomposition.Decomposer.MaybeDecompose | src/acd2d_core.cpp:101-117 | one lenient pass, with the same structure |
| Decomposition.Decomposer.DecomposeGroup | src/acd2d_core.cpp:119-131 | a group whose next ring is a hole goes to the hole merge; otherwise it goes to the strict boundary step |
| Decomposition.Decomposer.MaybeDecomposeGroup | src/acd2d_core.cpp:133-141 | a hole goes to the hole merge; otherwise the group goes to the lenient boundary step |
| Decomposition.Decomposer.DecomposeOut | src/acd2d_core.cpp:143-175 | no witness, or a concavity below the tolerance, finalizes the group; otherwise the cut's two groups are queued and its diagonal is logged when logging is on; a failed cut reports failure with the lists untouched |
| Decomposition.Decomposer.MaybeDecomposeOut | src/acd2d_core.cpp:178-209 | always succeeds; a failed cut leaves all lists unchanged, dropping the group |
| Decomposition.Decomposer.DecomposeIn | src/acd2d_core.cpp:211-227 | a successful merge queues the merged group and logs the bridge when logging is on; a failed merge reports failure with the lists untouched |
| Decomposition.Clamp | src/acd2d_core.cpp:56 | the tolerance is at least 1e-20, and a tolerance already at least 1e-20 is kept |
| Decomposition.GroupStepByFate | src/acd2d_core.cpp:119-227 | one group's step aborts exactly when its fate is Failed, and then leaves the lists unchanged; otherwise the done list gains the group iff it is finalized, the queue gains 1 entry for a merge and 2 for a split, and the log gains one diagonal per merge or split when logging is on |
| Decomposition.GroupStepContents | src/acd2d_core.cpp:119-227 | on normal return, one group's step appends exactly the groups it makes to the queue: the merged group, the two cut halves, or none. It appends exactly its diagonal to the log when logging is on |
| Decomposition.PassFromContents | src/acd2d_core.cpp:90-98 | on normal return, a pass appends to the queue the groups made by the snapshot's groups, concatenated in snapshot order, and to the log their diagonals |
| Decomposition.PassGrows | src/acd2d_core.cpp:78-99 | a pass keeps the done list and the diagonal log it started from as prefixes |
| Decomposition.PassFromAccounts | src/acd2d_core.cpp:90-98 | a pass over a snapshot only grows the lists and aborts iff some group fails; on return the done list gains exactly the snapshot's finalized groups in order, the queue gains merges + 2·splits entries, and the log gains merges + splits entries when logging is on |
| Decomposition.FatesPartition | src/acd2d_core.cpp:143-227 | every group has exactly one fate; a strict pass drops nothing; a lenient failure can only be a failed hole merge |
| Decomposition.StrictPassLosesNoGroup | src/acd2d_core.cpp:78-99 | a strict pass that returns loses no group of its snapshot: D ≤ n ≤ D + T and T ≤ 2(n − D), for D finalized and T queued |
| Decomposition.LenientPassAbortsOnlyOnMerge | src/acd2d_core.cpp:101-117 | a lenient pass aborts only if some group of the snapshot is a hole whose merge fails |
| Decomposition.PassFinalizesSnapshot | src/acd2d_core.cpp:80-81 | a pass finalizes exactly the finalized groups of the swapped-out snapshot, in order; its new queue is exactly the merged groups and cut halves of the snapshot, in snapshot order (one per merge, two per split); the log gains exactly their diagonals |
| Decomposition.RunFromBounds | src/acd2d_core.cpp:57-65 | the do-while runs at least one more pass and at most up to 100 in total; on normal return the queue is empty or the cap was reached; the done list and the log only grow |
| Decomposition.DecomposeAllBounds | src/acd2d_core.cpp:53-66 | decomposeAll runs 1..100 passes and ends with an empty queue or at the cap; earlier results are kept |
| Decomposition.NonPositiveToleranceIsMinimum | src/acd2d_core.cpp:56 | a tolerance at or below 0 behaves exactly like 1e-20 |
| Decomposition.NullMeasureDiscardsQueue | src/acd2d_core.cpp:83-87 | with a null measure, decomposeAll makes one pass that empties the queue and changes nothing else |
| Decomposition.ConvexGroupIsKept | src/acd2d_core.cpp:148-153 | a single boundary group with no concavity witness comes out unchanged as the one new result, after one pass and with no diagonal |
| DualGraph.Find | src/edge_visibility/acd2d_ev_function.cpp:24-30 | the linear search returns the triangle of the first entry with the key, or Null |
| DualGraph.LookupNull | src/edge_visibility/acd2d_ev_function.cpp:24-30 | the search misses iff no entry of the bucket has the key |
| DualGraph.LookupEntry | src/edge_visibility/acd2d_ev_function.cpp:27-28 | a hit is the triangle of an entry with the key, and no earlier entry has the key |
| DualGraph.Add | src/edge_visibility/acd2d_ev_function.cpp:18-22 | the entry is appended to the chosen bucket, and no other bucket changes |
| DualGraph.TriBuffer.GetNew | src/edge_visibility/acd2d_ev_function.cpp:43 | a fresh record with every field null is appended, and its index is returned |
| DualGraph.TriBuffer.FillFirstNull | src/edge_visibility/acd2d_ev_function.cpp:58-59 | only the neighbour slots of record k change: the first null slot gets x, and a full record is left as it is |
| DualGraph.FillFirstFill | src/edge_visibility/acd2d_ev_function.cpp:58-59 | filling the first free slot of slots that hold a list of partners gives the slots of that list extended by one |
| DualGraph.ConnectKeeps | src/edge_visibility/acd2d_ev_function.cpp:58-59 | linking two triangles changes no vertex id and no other record |
| DualGraph.EdgeStepFacts | src/edge_visibility/acd2d_ev_function.cpp:46-51 | an edge visit writes v[ie] of the current record and no other vertex id, and makes the current record the seed iff the edge joins vertex 0 and vertex psize-1 |
| DualGraph.LookupIn | src/edge_visibility/acd2d_ev_function.cpp:53 | a hit in a table whose entries name records of this call names such a record |
| DualGraph.BuiltRanged | src/edge_visibility/acd2d_ev_function.cpp:40-61 | every bucket entry and every match names a record allocated by this call |
| DualGraph.DualCopiesTriples | src/edge_visibility/acd2d_ev_function.cpp:42-48 | records already in the arena are untouched; exactly one record per triple is appended, holding that triple as its vertex ids |
| DualGraph.DualSeedIsLastClosing | src/edge_visibility/acd2d_ev_function.cpp:35-37 | the seed is Null iff no triple has an edge joining 0 and psize-1, and otherwise it is the record of the last triple that has one |
| DualGraph.PartnersAreJoined | src/edge_visibility/acd2d_ev_function.cpp:57-59 | b is among a's partners iff some match joined a and b |
| DualGraph.BuiltSlots | src/edge_visibility/acd2d_ev_function.cpp:57-59 | every allocated record's neighbour slots hold its first three match partners, in match order, with the rest null |
| DualGraph.DualSlots | src/edge_visibility/acd2d_ev_function.cpp:58-59 | slot i is filled iff the record took part in more than i matches; a filled slot names a record of this call that a match joined it with |
| DualGraph.DualLinksSymmetric | src/edge_visibility/acd2d_ev_function.cpp:58-59 | adjacency is symmetric: a is a neighbour of b iff b is a neighbour of a, for records with at most three matches each |
| DualGraph.BuiltConsistent | src/edge_visibility/acd2d_ev_function.cpp:53-59 | every bucket entry records an edge of its triangle, and every match joined two triangles that share an edge traversed in opposite directions (the converse is BuiltJoinsSharedEdges) |
| DualGraph.DualNeighboursShareEdge | src/edge_visibility/acd2d_ev_function.cpp:53-59 | a filled neighbour slot names a triangle that shares one of the record's edges, traversed in the opposite direction |
| DualGraph.EdgeLookup | src/edge_visibility/acd2d_ev_function.cpp:53-54 | with no repeated directed edge, the lookup of an edge misses iff its reverse has not occurred earlier, and otherwise finds the triangle where the reverse occurred |
| DualGraph.BuiltComplete | src/edge_visibility/acd2d_ev_function.cpp:53-59 | after it triangles: every bucket entry was made by an earlier edge; every edge whose reverse had not yet occurred is in the bucket of its end; every edge whose reverse occurred earlier matched the two triangles |
| DualGraph.SharedEdgeJoined | src/edge_visibility/acd2d_ev_function.cpp:53-59 | a later triangle that has the reverse of an earlier triangle's edge was matched with it |
| DualGraph.JoinedShared | src/edge_visibility/acd2d_ev_function.cpp:53-59 | two matched triangles share an edge, traversed in opposite directions |
| DualGraph.BuiltJoinsSharedEdges | src/edge_visibility/acd2d_ev_function.cpp:53-59 | with no repeated directed edge, triangles i < j were matched iff they share an edge, traversed in opposite directions |
| DualGraph.SlotsHoldJoined | src/edge_visibility/acd2d_ev_function.cpp:58-59 | a record with at most three partners holds b in its slots iff a match joined it with b |
| DualGraph.DualTNeighbours | src/edge_visibility/acd2d_ev_function.cpp:33-63 | in dualT's output, slot i of a new record is filled iff the record took part in more than i matches; a filled slot names a new record whose triple shares one of its edges, reversed |
| DualGraph.DualTNeighboursAreSharedEdges | src/edge_visibility/acd2d_ev_function.cpp:33-63 | in dualT's output, with no repeated directed edge: records i < j were matched iff their triples share a reversed edge; i is in j's slots iff they share one, when j has at most three matches; and the neighbour relation is symmetric, for records with at most three matches each |
| DualGraph.DualT | src/edge_visibility/acd2d_ev_function.cpp:33-63 | the arena and the returned seed are those of the dual-graph specification on the first tsize triples |
| DualGraph.NewTable | src/edge_visibility/acd2d_ev_function.cpp:40 | a fresh table of psize empty buckets |
| DualGraph.BuildTriangle | src/edge_visibility/acd2d_ev_function.cpp:42-61 | one pass of the triangle loop takes the state after it triangles to the state after it + 1 |
| DualGraph.VisitTriangle | src/edge_visibility/acd2d_ev_function.cpp:43-60 | the loop body allocates the current record and visits its three edges, as the specification does |
| DualGraph.VisitEdge | src/edge_visibility/acd2d_ev_function.cpp:46-59 | an edge visit is one specification step, and every entry and match still names a record of this call |
| DualGraph.MatchEdge | src/edge_visibility/acd2d_ev_function.cpp:53-59 | the reverse edge is looked up; a miss records the edge in the end vertex's bucket and leaves the arena alone, while a hit leaves the table alone and links both triangles |
| DualGraph.Triangulate | src/edge_visibility/acd2d_ev_function.cpp:79-82 | an empty index list gives Null and leaves the arena unchanged; otherwise the result is dualT on the list's |indices|/3 triples |

## Left out

- Decomposition.Decomposer.MaybeDecomposeOut: on the boundary path, only `cutPolys` is modelled as failing.
  - `polys.next()`, `findOutMost`, `findCW` and `find_a_good_cutline` are modelled as total.
  - On the hole path, a failure of any of `findOutMost`, `getCW`, `find_a_good_cutline_for_hole` or `mergeHole` is `MergeFailed`. Nothing on that path is caught, in either mode.
  - In the source, a throw from `polys.next()`, `findOutMost`, `findCW` or `find_a_good_cutline`, all of which run outside the lenient `try`, escapes `maybe_decompose`.
  - So does a throw that does not derive from `std::exception`.
  - The following rely on this failure model: `MaybeDecomposeOut`'s `ensures ok`, `LenientPassAbortsOnlyOnMerge`, and the last clause of `FatesPartition`.
- Geometry is not modelled. Polygon validity, copying, `buildDependency`, `findOutMost`,
  `findCW`, `getCW`, the cut-line searches, `cutPolys` and `mergeHole` are not part of this
  model. They are opaque total functions of a `Geometry` value.
  - As a result, the claim that a merge reduces the number of holes is not modelled.
  - Neither is the claim that a pass makes progress.
- Exceptions are modelled as a `false` result. The lists are left as they were when the
  exception was raised. The rethrow as `runtime_error` and the exception messages are not
  modelled.
- Error messages written to `cerr` are left out.
- Double-precision arithmetic is left out. The tolerance, the concavity and alpha/beta
  are `real`, and 1e-20 is exact.
- Decomposition.Decomposer.DecomposeIn: the tolerance argument `d` of `decompose_IN` is
  unused in the source, so it is not a parameter.
- The `cd_2d` destructor only calls `destroy`. Memory release is not modelled.
- Earcut (`mapbox::earcut`) is not part of this model. Its output, the flat index list,
  is an input to `Triangulate`. So are the copying of vertex positions into its input and
  the index width.
- DualGraph.DualT: the first-triangle pointer `first_T` is written but never read in the
  source, so it is left out.
- DualGraph.DualT: pointers into `ev_tri_buffer` are indices into a `seq` of records. The
  arena's capacity and the pointer stability of the real buffer are not modelled.
- DualGraph.DualT: the requirement that ids lie in `0..psize-1` is a precondition. The
  source indexes `hash` with them and would be out of bounds otherwise.
- DualGraph.DualLinksSymmetric: symmetry is stated for records that took part in at most
  three matches each. A fourth match of a triangle, which a valid triangulation never
  produces, is dropped by the slot loop on that side only.
  - DualGraph.DualTNeighboursAreSharedEdges keeps this degree bound as a hypothesis for
    its slot clauses. The bound is not derived from the input.
- DualGraph.BuiltJoinsSharedEdges: completeness assumes that no directed edge occurs twice
  in the input triples (`NoRepeatedEdge`). A consistently oriented triangulation of a
  simple polygon has this property, but the triangulator is not modelled, so it is not
  proved here.
  - With a repeated edge, the lookup returns the first recorded occurrence. The model
    follows the code in that case but states no completeness.
- DualGraph.FillFirstNull: the source's null pointer is the index -1.
  - The arena helper `FillAt` ignores an index outside the arena.
  - `BuiltRanged` proves that dualT never produces such an index.
- The count of N−2 triangles for an N-vertex ring, and the claim that each internal edge
  is shared by exactly two triangles, are properties of the triangulator. They are not
  proved here.
- The log of matches (`links`) is ghost state. It exists only to state the slot and
  symmetry properties, and the source has no such list.
- The dual-graph invariant lemmas are stated for `Built` on an index list whose ids are
  all valid. `DualTNeighbours` and `DualTNeighboursAreSharedEdges` apply them to the
  first `3*tsize` ids of dualT's input.
