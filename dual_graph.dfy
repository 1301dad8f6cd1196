/** The triangle dual graph of acd2d's edge-visibility code: `add`, `find`, `dualT` and
    the control shape of `triangulate`.

    Triangles live in an arena (ev_tri_buffer) and are named by their index; a neighbour
    slot holds the index of the neighbouring triangle or Null.  The ear-clipping
    triangulator is not modelled: its output, a flat sequence of vertex-index triples,
    is an input here.
 */
module DualGraph {

  const Null: int := -1

  /** A bucket entry (pair<int, ev_triangle*>): the start vertex of a recorded directed
      edge and the triangle that has it. */
  datatype Edge = Edge(pid: int, tri: nat)

  /** One bucket (EV) of the per-vertex table. */
  type Bucket = seq<Edge>

  /** A fixed array of three ints: the vertex ids v[3] or the neighbour slots t[3] of a
      triangle record. */
  datatype Three = Three(x0: int, x1: int, x2: int)

  /** Element i of a three-array. */
  function Get(s: Three, i: nat): int
    requires i < 3
  {
    if i == 0 then s.x0 else if i == 1 then s.x1 else s.x2
  }

  /** s with element i replaced by x. */
  function Set(s: Three, i: nat, x: int): Three
    requires i < 3
  {
    if i == 0 then s.(x0 := x) else if i == 1 then s.(x1 := x) else s.(x2 := x)
  }

  /** x is one of the three elements of s. */
  predicate Holds(s: Three, x: int) {
    s.x0 == x || s.x1 == x || s.x2 == x
  }

  /** A triangle record (ev_triangle): vertex ids v and neighbour slots t. */
  datatype Tri = Tri(v: Three, t: Three)

  /** A fresh record from the arena: no vertex written yet, every neighbour slot null. */
  function NullTri(): Tri {
    Tri(Three(Null, Null, Null), Three(Null, Null, Null))
  }

  /** A match found by dualT: triangle `cur` was linked to the earlier triangle `nei`. */
  datatype Link = Link(cur: nat, nei: nat)

  /** The state of dualT: the arena, the bucket table, the seed, and (for the proofs)
      the log of matches in the order they were made. */
  datatype DualState = DualState(tris: seq<Tri>, hash: seq<Bucket>, seed: int, links: seq<Link>)

  // ---------------------------------------------------------------------------
  // add and find

  /** The triangle of the first entry of `ev` whose key is `pid`, or Null. */
  function Lookup(ev: Bucket, pid: int): (r: int)
    ensures r == Null || 0 <= r
  {
    if ev == [] then Null
    else if ev[0].pid == pid then ev[0].tri
    else Lookup(ev[1..], pid)
  }

  /** The search misses iff no entry has the key. */
  lemma {:induction false} LookupNull(ev: Bucket, pid: int)
    ensures Lookup(ev, pid) == Null <==> forall k :: 0 <= k < |ev| ==> ev[k].pid != pid
  {
    if ev != [] && ev[0].pid != pid {
      LookupNull(ev[1..], pid);
      assert forall k :: 0 < k < |ev| ==> ev[k] == ev[1..][k - 1];
    }
  }

  /** A hit is the triangle of the first entry with the key. */
  lemma {:induction false} LookupEntry(ev: Bucket, pid: int) returns (k: nat)
    requires Lookup(ev, pid) != Null
    ensures k < |ev| && ev[k].pid == pid && ev[k].tri == Lookup(ev, pid)
    ensures forall j :: 0 <= j < k ==> ev[j].pid != pid
  {
    if ev[0].pid == pid {
      k := 0;
    } else {
      var k' := LookupEntry(ev[1..], pid);
      k := k' + 1;
    }
  }

  /** find: linear search of a bucket. */
  method Find(ev: Bucket, pid: int) returns (r: int)
    ensures r == Lookup(ev, pid)
  {
    var i := 0;
    while i < |ev|
      invariant i <= |ev|
      invariant Lookup(ev[i..], pid) == Lookup(ev, pid)
    {
      if ev[i].pid == pid {
        return ev[i].tri;
      }
      assert ev[i..][1..] == ev[i + 1..];
      i := i + 1;
    }
    return Null;
  }

  /** add: append the entry (pid, t) to bucket b of the table; nothing else changes. */
  method Add(hash: array<Bucket>, b: nat, pid: int, t: nat)
    requires b < hash.Length
    modifies hash
    ensures hash[..] == old(hash[..])[b := old(hash[b]) + [Edge(pid, t)]]
  {
    hash[b] := hash[b] + [Edge(pid, t)];
  }

  // ---------------------------------------------------------------------------
  // Neighbour slots

  /** Store x in the first null slot of s; a full s is left as it is. */
  function FillFirst(s: Three, x: int): Three {
    if Get(s, 0) == Null then Set(s, 0, x)
    else if Get(s, 1) == Null then Set(s, 1, x)
    else if Get(s, 2) == Null then Set(s, 2, x)
    else s
  }

  /** The arena of triangle records (ev_tri_buffer). */
  class TriBuffer {
    var tris: seq<Tri>

    constructor ()
      ensures tris == []
    {
      tris := [];
    }

    /** getNew: append a fresh record and return its index. */
    method GetNew() returns (k: nat)
      modifies this
      ensures k == |old(tris)| && tris == old(tris) + [NullTri()]
    {
      k := |tris|;
      tris := tris + [NullTri()];
    }

    /** The slot loop of dualT: the first null neighbour slot of triangle k gets x. */
    method FillFirstNull(k: nat, x: int)
      requires k < |tris|
      modifies this
      ensures tris == old(tris)[k := old(tris)[k].(t := FillFirst(old(tris)[k].t, x))]
    {
      var i := 0;
      while i < 3
        invariant i <= 3 && tris == old(tris)
        invariant forall j :: 0 <= j < i ==> Get(tris[k].t, j) != Null
      {
        if Get(tris[k].t, i) == Null {
          tris := tris[k := tris[k].(t := Set(tris[k].t, i, x))];
          return;
        }
        i := i + 1;
      }
    }
  }

  // ---------------------------------------------------------------------------
  // Specification of dualT

  /** Every id in t names one of psize vertices. */
  predicate ValidIds(t: seq<int>, psize: nat) {
    forall j :: 0 <= j < |t| ==> 0 <= t[j] < psize
  }

  /** t holds at least tsize triples, and all its ids are vertex ids. */
  predicate ValidInput(t: seq<int>, tsize: nat, psize: nat) {
    3 * tsize <= |t| && ValidIds(t, psize)
  }

  /** The index of the end of edge ie < 3 of triangle it, it*3 + (ie+1) mod 3, with the
      wrap-around written out. */
  function EdgeEnd(it: nat, ie: nat): nat {
    if ie == 2 then it * 3 else it * 3 + ie + 1
  }

  /** {a, b} is the edge joining vertex 0 and vertex `last`. */
  predicate Closing(a: int, b: int, last: int) {
    (a == 0 && b == last) || (a == last && b == 0)
  }

  predicate ClosingEdge(t: seq<int>, it: nat, ie: nat, last: int)
    requires ie < 3 && 3 * it + 3 <= |t|
  {
    Closing(t[it * 3 + ie], t[EdgeEnd(it, ie)], last)
  }

  /** One of edges ie, .., 2 of triple `it` joins vertex 0 and vertex `last`. */
  predicate ClosingFrom(t: seq<int>, it: nat, ie: nat, last: int)
    requires 3 * it + 3 <= |t|
  {
    || (ie <= 0 && ClosingEdge(t, it, 0, last))
    || (ie <= 1 && ClosingEdge(t, it, 1, last))
    || (ie <= 2 && ClosingEdge(t, it, 2, last))
  }

  /** Triple `it` has an edge joining vertex 0 and vertex psize-1, in either direction. */
  predicate HasClosingEdge(t: seq<int>, it: nat, psize: nat)
    requires 3 * it + 3 <= |t|
  {
    ClosingEdge(t, it, 0, psize - 1) || ClosingEdge(t, it, 1, psize - 1) || ClosingEdge(t, it, 2, psize - 1)
  }

  /** What a step of dualT on record `cur` needs of the state: one bucket per vertex, and
      the record. */
  predicate Fits(st: DualState, psize: nat, cur: nat) {
    |st.hash| == psize && cur < |st.tris|
  }

  /** The invariant of dualT's state: every bucket entry and every match names a record
      in [lo, hi), the records this call has allocated. */
  predicate Ranged(st: DualState, lo: nat, hi: nat) {
    EntriesIn(st.hash, lo, hi) && MatchesIn(st.links, lo, hi)
  }

  /** Entry e of bucket b.  The invariants on the table below are stated through it, so
      that they are used only where a proof names an entry. */
  function Entry(hash: seq<Bucket>, b: nat, e: nat): Edge
    requires b < |hash| && e < |hash[b]|
  {
    hash[b][e]
  }

  predicate EntriesIn(hash: seq<Bucket>, lo: nat, hi: nat) {
    forall b, e :: 0 <= b < |hash| && 0 <= e < |hash[b]| ==> lo <= Entry(hash, b, e).tri < hi
  }

  /** Appending an entry in range keeps every entry in range. */
  lemma EntriesInAdd(hash: seq<Bucket>, lo: nat, hi: nat, y: nat, x: int, k: nat)
    requires EntriesIn(hash, lo, hi) && y < |hash| && lo <= k < hi
    ensures EntriesIn(hash[y := hash[y] + [Edge(x, k)]], lo, hi)
  {
    var h: seq<Bucket> := hash[y := hash[y] + [Edge(x, k)]];
    forall b: int, e: int | 0 <= b < |h| && 0 <= e < |h[b]|
      ensures lo <= Entry(h, b, e).tri < hi
    {
      if b != y || e < |hash[y]| {
        assert Entry(h, b, e) == Entry(hash, b, e);
      }
    }
  }

  /** A hit in a table whose entries are in [lo, hi) is in [lo, hi). */
  lemma LookupIn(hash: seq<Bucket>, lo: nat, hi: nat, b: nat, pid: int)
    requires EntriesIn(hash, lo, hi) && b < |hash|
    ensures Lookup(hash[b], pid) != Null ==> lo <= Lookup(hash[b], pid) < hi
  {
    if Lookup(hash[b], pid) != Null {
      var j := LookupEntry(hash[b], pid);
      assert Entry(hash, b, j).tri == Lookup(hash[b], pid);
    }
  }

  predicate MatchesIn(links: seq<Link>, lo: nat, hi: nat) {
    forall i :: 0 <= i < |links| ==> lo <= links[i].cur < hi && lo <= links[i].nei < hi
  }

  function Alloc(st: DualState): DualState {
    st.(tris := st.tris + [NullTri()])
  }

  /** The slot loop of dualT on record k of the arena; an index outside the arena, which
      dualT never produces (see Ranged), leaves the arena alone. */
  function FillAt(a: seq<Tri>, k: int, x: int): (r: seq<Tri>)
    ensures |r| == |a|
  {
    if 0 <= k < |a| then a[k := a[k].(t := FillFirst(a[k].t, x))] else a
  }

  /** The two slot loops of dualT for a match of cur with nei. */
  function Connect(a: seq<Tri>, cur: int, nei: int): (r: seq<Tri>)
    ensures |r| == |a|
  {
    FillAt(FillAt(a, cur, nei), nei, cur)
  }

  /** Connect writes slots only: every vertex id stays, and so does every record other
      than the two it links. */
  lemma ConnectKeeps(a: seq<Tri>, cur: int, nei: int)
    ensures var r := Connect(a, cur, nei);
      forall k :: 0 <= k < |a| ==> r[k].v == a[k].v && (k != cur && k != nei ==> r[k] == a[k])
  {
  }

  /** One pass of the inner loop of dualT: edge ie of triangle it (record base + it). */
  function EdgeStep(t: seq<int>, psize: nat, base: nat, st: DualState, it: nat, ie: nat): (r: DualState)
    requires ie < 3 && ValidInput(t, it + 1, psize) && Fits(st, psize, base + it)
    ensures Fits(r, psize, base + it) && |r.tris| == |st.tris|
  {
    var cur := base + it;
    var vid1 := t[it * 3 + ie];
    var vid2 := t[EdgeEnd(it, ie)];
    var tris := st.tris[cur := st.tris[cur].(v := Set(st.tris[cur].v, ie, vid1))];
    var seed := if Closing(vid1, vid2, psize - 1) then cur else st.seed;
    var nei := Lookup(st.hash[vid1], vid2);
    if nei == Null then
      DualState(tris, st.hash[vid2 := st.hash[vid2] + [Edge(vid1, cur)]], seed, st.links)
    else
      DualState(Connect(tris, cur, nei), st.hash, seed, st.links + [Link(cur, nei)])
  }

  /** Edges ie, .., 2 of triangle it: the rest of the inner loop of dualT. */
  function EdgesFrom(t: seq<int>, psize: nat, base: nat, st: DualState, it: nat, ie: nat): (r: DualState)
    requires ie <= 3 && ValidInput(t, it + 1, psize) && Fits(st, psize, base + it)
    ensures Fits(r, psize, base + it) && |r.tris| == |st.tris|
    decreases 3 - ie, st
  {
    if ie == 3 then st
    else EdgesFrom(t, psize, base, EdgeStep(t, psize, base, st, it, ie), it, ie + 1)
  }

  /** psize empty buckets: the table dualT starts from. */
  function NoBuckets(n: nat): (r: seq<Bucket>)
    ensures |r| == n
  {
    if n == 0 then [] else NoBuckets(n - 1) + [[]]
  }

  lemma {:induction false} NoBucketsEmpty(n: nat)
    ensures forall b :: 0 <= b < n ==> NoBuckets(n)[b] == []
  {
    if n > 0 {
      NoBucketsEmpty(n - 1);
      assert forall b :: 0 <= b < n - 1 ==> NoBuckets(n)[b] == NoBuckets(n - 1)[b];
    }
  }

  /** dualT after its first `it` triangles, on an arena that held tris0. */
  function Built(t: seq<int>, psize: nat, tris0: seq<Tri>, it: nat): (r: DualState)
    requires ValidInput(t, it, psize)
    ensures |r.hash| == psize && |r.tris| == |tris0| + it
  {
    if it == 0 then DualState(tris0, NoBuckets(psize), Null, [])
    else EdgesFrom(t, psize, |tris0|, Alloc(Built(t, psize, tris0, it - 1)), it - 1, 0)
  }

  /** dualT(t, tsize, psize, buf) on an arena that held tris0: it reads the first tsize
      triples of t and no more. */
  function DualSpec(t: seq<int>, tsize: nat, psize: nat, tris0: seq<Tri>): DualState
    requires 3 * tsize <= |t| && ValidIds(t[..3 * tsize], psize)
  {
    Built(t[..3 * tsize], psize, tris0, tsize)
  }

  lemma BuiltUnfold(t: seq<int>, psize: nat, tris0: seq<Tri>, it: nat)
    requires 0 < it && ValidInput(t, it, psize)
    ensures Built(t, psize, tris0, it)
            == EdgesFrom(t, psize, |tris0|, Alloc(Built(t, psize, tris0, it - 1)), it - 1, 0)
  {
  }

  // ---------------------------------------------------------------------------
  // Every entry and match names a record of this call

  lemma EdgeStepRanged(t: seq<int>, psize: nat, base: nat, hi: nat, st: DualState, it: nat, ie: nat)
    requires ie < 3 && ValidInput(t, it + 1, psize) && Fits(st, psize, base + it)
    requires base + it < hi && Ranged(st, base, hi)
    ensures Ranged(EdgeStep(t, psize, base, st, it, ie), base, hi)
  {
    var vid1 := t[it * 3 + ie];
    var vid2 := t[EdgeEnd(it, ie)];
    LookupIn(st.hash, base, hi, vid1, vid2);
    if Lookup(st.hash[vid1], vid2) == Null {
      EntriesInAdd(st.hash, base, hi, vid2, vid1, base + it);
    }
  }

  lemma {:induction false} EdgesFromRanged(t: seq<int>, psize: nat, base: nat, hi: nat, st: DualState, it: nat, ie: nat)
    requires ie <= 3 && ValidInput(t, it + 1, psize) && Fits(st, psize, base + it)
    requires base + it < hi && Ranged(st, base, hi)
    ensures Ranged(EdgesFrom(t, psize, base, st, it, ie), base, hi)
    decreases 3 - ie
  {
    if ie < 3 {
      EdgeStepRanged(t, psize, base, hi, st, it, ie);
      EdgesFromRanged(t, psize, base, hi, EdgeStep(t, psize, base, st, it, ie), it, ie + 1);
    }
  }

  lemma AllocRanged(st: DualState, lo: nat, hi: nat)
    requires 0 < hi && Ranged(st, lo, hi - 1)
    ensures Ranged(Alloc(st), lo, hi)
  {
  }

  /** Triangle it - 1 names only records up to its own. */
  lemma TriangleRanged(t: seq<int>, psize: nat, base: nat, st: DualState, it: nat)
    requires 0 < it && ValidInput(t, it, psize) && |st.hash| == psize && |st.tris| == base + it - 1
    requires Ranged(st, base, base + it - 1)
    ensures Ranged(EdgesFrom(t, psize, base, Alloc(st), it - 1, 0), base, base + it)
  {
    AllocRanged(st, base, base + it);
    EdgesFromRanged(t, psize, base, base + it, Alloc(st), it - 1, 0);
  }

  lemma StartRanged(t: seq<int>, psize: nat, tris0: seq<Tri>)
    requires ValidIds(t, psize)
    ensures Ranged(Built(t, psize, tris0, 0), |tris0|, |tris0|)
  {
    NoBucketsEmpty(psize);
  }

  /** The records dualT allocates are the only ones its table and its matches name. */
  lemma {:induction false} BuiltRanged(t: seq<int>, psize: nat, tris0: seq<Tri>, it: nat)
    requires ValidInput(t, it, psize)
    ensures Ranged(Built(t, psize, tris0, it), |tris0|, |tris0| + it)
  {
    if it == 0 {
      StartRanged(t, psize, tris0);
    } else {
      var st := Built(t, psize, tris0, it - 1);
      BuiltRanged(t, psize, tris0, it - 1);
      assert Ranged(st, |tris0|, |tris0| + it - 1);
      TriangleRanged(t, psize, |tris0|, st, it);
      BuiltUnfold(t, psize, tris0, it);
    }
  }

  // ---------------------------------------------------------------------------
  // Vertex ids and the records the arena held

  /** Triple i of t, as the vertex ids of a record. */
  function TripleOf(t: seq<int>, i: nat): Three
    requires 3 * i + 3 <= |t|
  {
    Three(t[i * 3], t[i * 3 + 1], t[i * 3 + 2])
  }

  /** The vertex ids of record k.  Copied is stated through it. */
  function VertsOf(tris: seq<Tri>, k: nat): Three
    requires k < |tris|
  {
    tris[k].v
  }

  /** The arena holds tris0 followed by one record per triple of the first `it`, whose
      vertex ids are that triple. */
  predicate Copied(t: seq<int>, tris0: seq<Tri>, tris: seq<Tri>, it: nat)
    requires 3 * it <= |t|
  {
    && |tris| == |tris0| + it
    && tris[..|tris0|] == tris0
    && forall k :: |tris0| <= k < |tris| ==> VertsOf(tris, k) == TripleOf(t, k - |tris0|)
  }

  /** Edge ie of triangle it writes v[ie] of record base + it and no other vertex id, and
      makes that record the seed iff the edge joins vertex 0 and vertex psize-1. */
  lemma EdgeStepFacts(t: seq<int>, psize: nat, base: nat, st: DualState, it: nat, ie: nat)
    requires ie < 3 && ValidInput(t, it + 1, psize) && Fits(st, psize, base + it)
    ensures var r := EdgeStep(t, psize, base, st, it, ie);
      && (forall k :: 0 <= k < |r.tris| && k != base + it ==> r.tris[k].v == st.tris[k].v)
      && r.tris[base + it].v == Set(st.tris[base + it].v, ie, t[it * 3 + ie])
      && r.seed == if ClosingEdge(t, it, ie, psize - 1) then base + it else st.seed
  {
    var cur := base + it;
    var tris := st.tris[cur := st.tris[cur].(v := Set(st.tris[cur].v, ie, t[it * 3 + ie]))];
    ConnectKeeps(tris, cur, Lookup(st.hash[t[it * 3 + ie]], t[EdgeEnd(it, ie)]));
  }

  /** Edges ie, .., 2 of triangle it write v[ie..3) of its record from the triple, leave
      every other vertex id alone, and make it the seed iff one of those edges joins
      vertex 0 and vertex psize-1. */
  lemma {:induction false} EdgesFromFacts(t: seq<int>, psize: nat, base: nat, st: DualState, it: nat, ie: nat)
    requires ie <= 3 && ValidInput(t, it + 1, psize) && Fits(st, psize, base + it)
    ensures var r := EdgesFrom(t, psize, base, st, it, ie);
      var v, v0 := r.tris[base + it].v, st.tris[base + it].v;
      && (forall k :: 0 <= k < |r.tris| && k != base + it ==> r.tris[k].v == st.tris[k].v)
      && (forall j :: 0 <= j < 3 ==> Get(v, j) == if j < ie then Get(v0, j) else t[it * 3 + j])
      && r.seed == if ClosingFrom(t, it, ie, psize - 1) then base + it else st.seed
    decreases 3 - ie
  {
    if ie < 3 {
      EdgeStepFacts(t, psize, base, st, it, ie);
      EdgesFromFacts(t, psize, base, EdgeStep(t, psize, base, st, it, ie), it, ie + 1);
    }
  }

  /** An edge step of a state whose matches and entries are records of this call leaves
      the records before them alone. */
  lemma EdgeStepPrefix(t: seq<int>, psize: nat, base: nat, st: DualState, it: nat, ie: nat)
    requires ie < 3 && ValidInput(t, it + 1, psize) && Fits(st, psize, base + it)
    requires Ranged(st, base, |st.tris|)
    ensures EdgeStep(t, psize, base, st, it, ie).tris[..base] == st.tris[..base]
  {
    var cur := base + it;
    var vid1 := t[it * 3 + ie];
    var nei := Lookup(st.hash[vid1], t[EdgeEnd(it, ie)]);
    LookupIn(st.hash, base, |st.tris|, vid1, t[EdgeEnd(it, ie)]);
    var tris := st.tris[cur := st.tris[cur].(v := Set(st.tris[cur].v, ie, vid1))];
    ConnectKeeps(tris, cur, nei);
    var r := EdgeStep(t, psize, base, st, it, ie);
    assert forall k :: 0 <= k < base ==> r.tris[k] == st.tris[k];
  }

  lemma {:induction false} EdgesFromPrefix(t: seq<int>, psize: nat, base: nat, st: DualState, it: nat, ie: nat)
    requires ie <= 3 && ValidInput(t, it + 1, psize) && Fits(st, psize, base + it)
    requires Ranged(st, base, |st.tris|)
    ensures EdgesFrom(t, psize, base, st, it, ie).tris[..base] == st.tris[..base]
    decreases 3 - ie
  {
    if ie < 3 {
      EdgeStepPrefix(t, psize, base, st, it, ie);
      EdgeStepRanged(t, psize, base, |st.tris|, st, it, ie);
      EdgesFromPrefix(t, psize, base, EdgeStep(t, psize, base, st, it, ie), it, ie + 1);
    }
  }

  /** Triangle i copies triple i into its fresh record and leaves every other record's
      vertex ids, and the records the arena held, alone. */
  lemma TriangleCopies(t: seq<int>, psize: nat, tris0: seq<Tri>, st: DualState, i: nat)
    requires ValidInput(t, i + 1, psize) && |st.hash| == psize
    requires Copied(t, tris0, st.tris, i) && Ranged(st, |tris0|, |st.tris|)
    ensures Copied(t, tris0, EdgesFrom(t, psize, |tris0|, Alloc(st), i, 0).tris, i + 1)
  {
    var base := |tris0|;
    var a := Alloc(st);
    AllocRanged(st, base, |a.tris|);
    EdgesFromFacts(t, psize, base, a, i, 0);
    EdgesFromPrefix(t, psize, base, a, i, 0);
    var r := EdgesFrom(t, psize, base, a, i, 0);
    NewRecordCopies(t, r.tris[base + i].v, i);
    assert a.tris[..base] == st.tris[..base];
    CopiedExtend(t, tris0, st.tris, r.tris, i);
  }

  /** Vertex ids that agree with triple i element by element are triple i. */
  lemma NewRecordCopies(t: seq<int>, v: Three, i: nat)
    requires 3 * i + 3 <= |t|
    requires forall j :: 0 <= j < 3 ==> Get(v, j) == t[i * 3 + j]
    ensures v == TripleOf(t, i)
  {
    assert Get(v, 0) == t[i * 3] && Get(v, 1) == t[i * 3 + 1] && Get(v, 2) == t[i * 3 + 2];
  }

  lemma CopiedExtend(t: seq<int>, tris0: seq<Tri>, tris: seq<Tri>, tris': seq<Tri>, i: nat)
    requires 3 * i + 3 <= |t| && Copied(t, tris0, tris, i)
    requires |tris'| == |tris| + 1 && tris'[..|tris0|] == tris[..|tris0|]
    requires forall k :: 0 <= k < |tris| ==> tris'[k].v == tris[k].v
    requires tris'[|tris|].v == TripleOf(t, i)
    ensures Copied(t, tris0, tris', i + 1)
  {
    forall k | |tris0| <= k < |tris'|
      ensures VertsOf(tris', k) == TripleOf(t, k - |tris0|)
    {
      if k < |tris| {
        assert VertsOf(tris', k) == VertsOf(tris, k);
      }
    }
  }

  /** dualT leaves the records the arena held alone, allocates one record per triple
      after them, and record |tris0| + i holds triple i as its vertex ids. */
  lemma {:induction false} DualCopiesTriples(t: seq<int>, psize: nat, tris0: seq<Tri>, it: nat)
    requires ValidInput(t, it, psize)
    ensures Copied(t, tris0, Built(t, psize, tris0, it).tris, it)
  {
    if it > 0 {
      var st := Built(t, psize, tris0, it - 1);
      DualCopiesTriples(t, psize, tris0, it - 1);
      BuiltRanged(t, psize, tris0, it - 1);
      TriangleCopies(t, psize, tris0, st, it - 1);
      BuiltUnfold(t, psize, tris0, it);
    }
  }

  // ---------------------------------------------------------------------------
  // The seed

  /** The seed is Null iff none of the first `it` triples has an edge joining vertex 0 and
      vertex psize-1; otherwise it is the record of the last one that has. */
  predicate SeedIsLastClosing(t: seq<int>, psize: nat, base: nat, it: nat, seed: int)
    requires 3 * it <= |t|
  {
    && (seed == Null <==> forall i :: 0 <= i < it ==> !HasClosingEdge(t, i, psize))
    && (seed != Null ==>
          && base <= seed < base + it
          && HasClosingEdge(t, seed - base, psize)
          && forall i :: seed - base < i < it ==> !HasClosingEdge(t, i, psize))
  }

  /** Triangle i becomes the seed iff it has a closing edge. */
  lemma TriangleSeed(t: seq<int>, psize: nat, base: nat, st: DualState, it: nat)
    requires 0 < it && ValidInput(t, it, psize) && |st.hash| == psize && |st.tris| == base + it - 1
    requires SeedIsLastClosing(t, psize, base, it - 1, st.seed)
    ensures SeedIsLastClosing(t, psize, base, it, EdgesFrom(t, psize, base, Alloc(st), it - 1, 0).seed)
  {
    var i := it - 1;
    EdgesFromFacts(t, psize, base, Alloc(st), i, 0);
    SeedExtend(t, psize, base, i, st.seed, EdgesFrom(t, psize, base, Alloc(st), i, 0).seed);
  }

  lemma SeedExtend(t: seq<int>, psize: nat, base: nat, i: nat, seed: int, seed': int)
    requires 3 * i + 3 <= |t| && SeedIsLastClosing(t, psize, base, i, seed)
    requires seed' == if HasClosingEdge(t, i, psize) then base + i else seed
    ensures SeedIsLastClosing(t, psize, base, i + 1, seed')
  {
  }

  lemma StartSeed(t: seq<int>, psize: nat, tris0: seq<Tri>)
    requires ValidIds(t, psize)
    ensures SeedIsLastClosing(t, psize, |tris0|, 0, Built(t, psize, tris0, 0).seed)
  {
  }

  /** The seed dualT returns is Null iff no triple has an edge joining vertex 0 and vertex
      psize-1, and otherwise the record of the last triple that has one. */
  lemma {:induction false} DualSeedIsLastClosing(t: seq<int>, psize: nat, tris0: seq<Tri>, it: nat)
    requires ValidInput(t, it, psize)
    ensures SeedIsLastClosing(t, psize, |tris0|, it, Built(t, psize, tris0, it).seed)
  {
    if it == 0 {
      StartSeed(t, psize, tris0);
    } else {
      var st := Built(t, psize, tris0, it - 1);
      DualSeedIsLastClosing(t, psize, tris0, it - 1);
      TriangleSeed(t, psize, |tris0|, st, it);
      BuiltUnfold(t, psize, tris0, it);
    }
  }

  // ---------------------------------------------------------------------------
  // Neighbour slots follow the match log

  /** Slot i of a record whose matches, in order, are p. */
  function At(p: seq<nat>, i: nat): int {
    if i < |p| then p[i] else Null
  }

  /** The neighbour slots of a record whose matches, in order, are p: its first three
      partners, padded with Null. */
  function Fill(p: seq<nat>): Three {
    Three(At(p, 0), At(p, 1), At(p, 2))
  }

  /** The triangles matched with k, in the order the matches were made (a triangle matched
      with itself appears twice). */
  function Partners(links: seq<Link>, k: nat): seq<nat>
    decreases |links|
  {
    if links == [] then []
    else
      var l := links[|links| - 1];
      Partners(links[..|links| - 1], k)
        + (if l.cur == k then [l.nei] else []) + (if l.nei == k then [l.cur] else [])
  }

  /** A match joined a and b (in either role). */
  predicate Joined(links: seq<Link>, a: nat, b: nat) {
    exists i :: 0 <= i < |links| && ((links[i].cur == a && links[i].nei == b) || (links[i].cur == b && links[i].nei == a))
  }

  /** b is a partner of a exactly when some match joined them. */
  lemma {:induction false} PartnersAreJoined(links: seq<Link>, a: nat, b: nat)
    ensures b in Partners(links, a) <==> Joined(links, a, b)
    decreases |links|
  {
    if links != [] {
      var init := links[..|links| - 1];
      PartnersAreJoined(init, a, b);
      assert forall j :: 0 <= j < |init| ==> init[j] == links[j];
    }
  }

  lemma PartnersSnoc(links: seq<Link>, l: Link, k: nat)
    ensures Partners(links + [l], k)
            == Partners(links, k) + (if l.cur == k then [l.nei] else []) + (if l.nei == k then [l.cur] else [])
  {
    assert (links + [l])[..|links|] == links;
  }

  /** A record no match names has no partners. */
  lemma NoPartners(links: seq<Link>, lo: nat, k: nat)
    requires MatchesIn(links, lo, k)
    ensures Partners(links, k) == []
  {
    if Partners(links, k) != [] {
      PartnersAreJoined(links, k, Partners(links, k)[0]);
    }
  }

  /** The slot loop on the slots of partners p adds x as the next partner. */
  lemma FillFirstFill(p: seq<nat>, x: nat)
    ensures FillFirst(Fill(p), x) == Fill(p + [x])
  {
    var f := Fill(p);
    if |p| == 0 {
      assert Get(f, 0) == Null;
    } else if |p| == 1 {
      assert Get(f, 0) != Null && Get(f, 1) == Null;
    } else if |p| == 2 {
      assert Get(f, 0) != Null && Get(f, 1) != Null && Get(f, 2) == Null;
    } else {
      assert forall i :: 0 <= i < 3 ==> Get(f, i) != Null;
    }
  }

  /** The neighbour slots of record k.  SlotsLogged is stated through it. */
  function SlotsOf(tris: seq<Tri>, k: nat): Three
    requires k < |tris|
  {
    tris[k].t
  }

  /** Every record from base on holds its first three partners in the log, in order. */
  predicate SlotsLogged(tris: seq<Tri>, links: seq<Link>, base: nat) {
    forall k :: base <= k < |tris| ==> SlotsOf(tris, k) == Fill(Partners(links, k))
  }

  /** Record k after the two slot loops for a match of cur with nei. */
  lemma SlotsLinkAt(tris: seq<Tri>, links: seq<Link>, base: nat, cur: nat, nei: nat, k: nat)
    requires SlotsLogged(tris, links, base)
    requires base <= cur < |tris| && base <= nei < |tris| && base <= k < |tris|
    ensures SlotsOf(Connect(tris, cur, nei), k) == Fill(Partners(links + [Link(cur, nei)], k))
  {
    var l := Link(cur, nei);
    PartnersSnoc(links, l, k);
    var p := Partners(links, k);
    assert SlotsOf(tris, k) == Fill(p);
    var c := Connect(tris, cur, nei);
    if k == cur && k == nei {
      FillFirstFill(p, nei);
      FillFirstFill(p + [nei], cur);
      assert c[k].t == FillFirst(FillFirst(Fill(p), nei), cur);
      assert Partners(links + [l], k) == p + [nei] + [cur];
    } else if k == cur {
      FillFirstFill(p, nei);
      assert c[k].t == FillFirst(Fill(p), nei);
      assert Partners(links + [l], k) == p + [nei];
    } else if k == nei {
      FillFirstFill(p, cur);
      assert c[k].t == FillFirst(Fill(p), cur);
      assert Partners(links + [l], k) == p + [cur];
    } else {
      assert c[k] == tris[k];
      assert Partners(links + [l], k) == p;
    }
  }

  /** Logging a match of cur with nei is what the two slot loops of dualT do. */
  lemma SlotsLink(tris: seq<Tri>, links: seq<Link>, base: nat, cur: nat, nei: nat)
    requires SlotsLogged(tris, links, base) && base <= cur < |tris| && base <= nei < |tris|
    ensures SlotsLogged(Connect(tris, cur, nei), links + [Link(cur, nei)], base)
  {
    var c := Connect(tris, cur, nei);
    forall k | base <= k < |c|
      ensures SlotsOf(c, k) == Fill(Partners(links + [Link(cur, nei)], k))
    {
      SlotsLinkAt(tris, links, base, cur, nei, k);
    }
  }

  lemma EdgeStepSlots(t: seq<int>, psize: nat, base: nat, st: DualState, it: nat, ie: nat)
    requires ie < 3 && ValidInput(t, it + 1, psize) && Fits(st, psize, base + it)
    requires Ranged(st, base, |st.tris|) && SlotsLogged(st.tris, st.links, base)
    ensures var r := EdgeStep(t, psize, base, st, it, ie); SlotsLogged(r.tris, r.links, base)
  {
    var cur := base + it;
    var vid1 := t[it * 3 + ie];
    var vid2 := t[EdgeEnd(it, ie)];
    var tris := st.tris[cur := st.tris[cur].(v := Set(st.tris[cur].v, ie, vid1))];
    forall k | base <= k < |tris|
      ensures SlotsOf(tris, k) == Fill(Partners(st.links, k))
    {
      assert SlotsOf(tris, k) == SlotsOf(st.tris, k);
    }
    LookupIn(st.hash, base, |st.tris|, vid1, vid2);
    var nei := Lookup(st.hash[vid1], vid2);
    if nei != Null {
      SlotsLink(tris, st.links, base, cur, nei);
    }
  }

  lemma {:induction false} EdgesFromSlots(t: seq<int>, psize: nat, base: nat, st: DualState, it: nat, ie: nat)
    requires ie <= 3 && ValidInput(t, it + 1, psize) && Fits(st, psize, base + it)
    requires Ranged(st, base, |st.tris|) && SlotsLogged(st.tris, st.links, base)
    ensures var r := EdgesFrom(t, psize, base, st, it, ie); SlotsLogged(r.tris, r.links, base)
    decreases 3 - ie
  {
    if ie < 3 {
      EdgeStepSlots(t, psize, base, st, it, ie);
      EdgeStepRanged(t, psize, base, |st.tris|, st, it, ie);
      EdgesFromSlots(t, psize, base, EdgeStep(t, psize, base, st, it, ie), it, ie + 1);
    }
  }

  /** A fresh record has no partners, so it has the slots its partners give it. */
  lemma AllocSlots(st: DualState, base: nat)
    requires MatchesIn(st.links, base, |st.tris|) && SlotsLogged(st.tris, st.links, base)
    ensures SlotsLogged(Alloc(st).tris, st.links, base)
  {
    var a := Alloc(st).tris;
    NoPartners(st.links, base, |st.tris|);
    forall k | base <= k < |a|
      ensures SlotsOf(a, k) == Fill(Partners(st.links, k))
    {
      if k < |st.tris| {
        assert SlotsOf(a, k) == SlotsOf(st.tris, k);
      }
    }
  }

  lemma TriangleSlots(t: seq<int>, psize: nat, base: nat, st: DualState, it: nat)
    requires 0 < it && ValidInput(t, it, psize) && |st.hash| == psize && |st.tris| == base + it - 1
    requires Ranged(st, base, |st.tris|) && SlotsLogged(st.tris, st.links, base)
    ensures var r := EdgesFrom(t, psize, base, Alloc(st), it - 1, 0); SlotsLogged(r.tris, r.links, base)
  {
    AllocSlots(st, base);
    AllocRanged(st, base, base + it);
    EdgesFromSlots(t, psize, base, Alloc(st), it - 1, 0);
  }

  /** Every record dualT allocates holds, as neighbour slots, the first three triangles
      it was matched with, in the order of the matches. */
  lemma {:induction false} BuiltSlots(t: seq<int>, psize: nat, tris0: seq<Tri>, it: nat)
    requires ValidInput(t, it, psize)
    ensures var r := Built(t, psize, tris0, it); SlotsLogged(r.tris, r.links, |tris0|)
  {
    if it > 0 {
      var st := Built(t, psize, tris0, it - 1);
      BuiltSlots(t, psize, tris0, it - 1);
      BuiltRanged(t, psize, tris0, it - 1);
      TriangleSlots(t, psize, |tris0|, st, it);
      BuiltUnfold(t, psize, tris0, it);
    }
  }

  lemma SlotFacts(links: seq<Link>, p: seq<nat>, k: nat, i: nat)
    requires p == Partners(links, k) && i < 3
    ensures Get(Fill(p), i) != Null <==> i < |p|
    ensures i < |p| ==> Get(Fill(p), i) == p[i] && Joined(links, k, p[i])
  {
    if i < |p| {
      PartnersAreJoined(links, k, p[i]);
    }
  }

  /** Slot filling: a record's slots are filled front to back, one per match it took part
      in, and stop at three; every filled slot names a record of this call that a match
      joined it with. */
  lemma DualSlots(r: DualState, base: nat, k: nat, i: nat)
    requires SlotsLogged(r.tris, r.links, base) && MatchesIn(r.links, base, |r.tris|)
    requires base <= k < |r.tris| && i < 3
    ensures var s := Get(r.tris[k].t, i);
      && (s != Null <==> i < |Partners(r.links, k)|)
      && (s != Null ==> base <= s < |r.tris| && Joined(r.links, k, s))
  {
    var p := Partners(r.links, k);
    SlotFacts(r.links, p, k, i);
    assert SlotsOf(r.tris, k) == Fill(p);
    if i < |p| {
      var j :| 0 <= j < |r.links| && ((r.links[j].cur == k && r.links[j].nei == p[i]) || (r.links[j].cur == p[i] && r.links[j].nei == k));
    }
  }

  /** b is in the slots of a record whose partners are p iff it is one of the first three. */
  lemma InFill(p: seq<nat>, b: nat)
    requires |p| <= 3
    ensures Holds(Fill(p), b) <==> b in p
  {
  }

  /** Adjacency symmetry: for two records that each took part in at most three matches
      (true of the triangles of a simple polygon), a is a neighbour of b iff b is a
      neighbour of a. */
  lemma DualLinksSymmetric(tris: seq<Tri>, links: seq<Link>, base: nat, a: nat, b: nat)
    requires SlotsLogged(tris, links, base) && base <= a < |tris| && base <= b < |tris|
    requires |Partners(links, a)| <= 3 && |Partners(links, b)| <= 3
    ensures Holds(tris[a].t, b) <==> Holds(tris[b].t, a)
  {
    var pa, pb := Partners(links, a), Partners(links, b);
    PartnersAreJoined(links, a, b);
    PartnersAreJoined(links, b, a);
    InFill(pa, b);
    InFill(pb, a);
    assert SlotsOf(tris, a) == Fill(pa);
    assert SlotsOf(tris, b) == Fill(pb);
  }

  // ---------------------------------------------------------------------------
  // Matches are shared edges

  /** Triple k has the directed edge x -> y. */
  predicate HasEdge(t: seq<int>, k: int, x: int, y: int) {
    && 0 <= k && 3 * k + 3 <= |t|
    && ((t[k * 3] == x && t[k * 3 + 1] == y)
        || (t[k * 3 + 1] == x && t[k * 3 + 2] == y)
        || (t[k * 3 + 2] == x && t[k * 3] == y))
  }

  /** Triples i and j have an edge in common, traversed in opposite directions. */
  ghost predicate SharesReversedEdge(t: seq<int>, i: int, j: int) {
    exists x, y :: HasEdge(t, i, x, y) && HasEdge(t, j, y, x)
  }

  /** Every bucket entry (x, k) in bucket y records the edge x -> y of triangle k. */
  predicate HashOk(t: seq<int>, base: nat, hash: seq<Bucket>) {
    forall b, e :: 0 <= b < |hash| && 0 <= e < |hash[b]| ==> HasEdge(t, Entry(hash, b, e).tri - base, Entry(hash, b, e).pid, b)
  }

  /** Every match joined two triangles sharing a reversed edge. */
  ghost predicate LinksOk(t: seq<int>, base: nat, links: seq<Link>) {
    forall i :: 0 <= i < |links| ==> SharesReversedEdge(t, links[i].cur - base, links[i].nei - base)
  }

  ghost predicate Consistent(t: seq<int>, base: nat, st: DualState) {
    HashOk(t, base, st.hash) && LinksOk(t, base, st.links)
  }

  lemma HashOkAdd(t: seq<int>, base: nat, hash: seq<Bucket>, y: nat, x: int, k: nat)
    requires HashOk(t, base, hash) && y < |hash| && HasEdge(t, k - base, x, y)
    ensures HashOk(t, base, hash[y := hash[y] + [Edge(x, k)]])
  {
    var h: seq<Bucket> := hash[y := hash[y] + [Edge(x, k)]];
    forall b: int, e: int | 0 <= b < |h| && 0 <= e < |h[b]|
      ensures HasEdge(t, Entry(h, b, e).tri - base, Entry(h, b, e).pid, b)
    {
      if b != y || e < |hash[y]| {
        assert Entry(h, b, e) == Entry(hash, b, e);
      }
    }
  }

  lemma LinksOkAdd(t: seq<int>, base: nat, links: seq<Link>, l: Link)
    requires LinksOk(t, base, links) && SharesReversedEdge(t, l.cur - base, l.nei - base)
    ensures LinksOk(t, base, links + [l])
  {
    forall i | 0 <= i < |links| + 1
      ensures SharesReversedEdge(t, (links + [l])[i].cur - base, (links + [l])[i].nei - base)
    {
      if i < |links| {
        assert (links + [l])[i] == links[i];
      }
    }
  }

  lemma EdgeStepConsistent(t: seq<int>, psize: nat, base: nat, st: DualState, it: nat, ie: nat)
    requires ie < 3 && ValidInput(t, it + 1, psize)
    requires Fits(st, psize, base + it) && Consistent(t, base, st)
    ensures Consistent(t, base, EdgeStep(t, psize, base, st, it, ie))
  {
    var cur := base + it;
    var vid1 := t[it * 3 + ie];
    var vid2 := t[EdgeEnd(it, ie)];
    assert HasEdge(t, cur - base, vid1, vid2);
    var nei := Lookup(st.hash[vid1], vid2);
    if nei == Null {
      HashOkAdd(t, base, st.hash, vid2, vid1, cur);
    } else {
      var j := LookupEntry(st.hash[vid1], vid2);
      assert Entry(st.hash, vid1, j) == Edge(vid2, nei);
      assert HasEdge(t, nei - base, vid2, vid1);
      LinksOkAdd(t, base, st.links, Link(cur, nei));
    }
  }

  lemma {:induction false} EdgesFromConsistent(t: seq<int>, psize: nat, base: nat, st: DualState, it: nat, ie: nat)
    requires ie <= 3 && ValidInput(t, it + 1, psize)
    requires Fits(st, psize, base + it) && Consistent(t, base, st)
    ensures Consistent(t, base, EdgesFrom(t, psize, base, st, it, ie))
    decreases 3 - ie
  {
    if ie < 3 {
      EdgeStepConsistent(t, psize, base, st, it, ie);
      EdgesFromConsistent(t, psize, base, EdgeStep(t, psize, base, st, it, ie), it, ie + 1);
    }
  }

  lemma TriangleConsistent(t: seq<int>, psize: nat, base: nat, st: DualState, it: nat)
    requires 0 < it && ValidInput(t, it, psize) && |st.hash| == psize && |st.tris| == base + it - 1
    requires Consistent(t, base, st)
    ensures Consistent(t, base, EdgesFrom(t, psize, base, Alloc(st), it - 1, 0))
  {
    EdgesFromConsistent(t, psize, base, Alloc(st), it - 1, 0);
  }

  lemma StartConsistent(t: seq<int>, psize: nat, tris0: seq<Tri>)
    requires ValidIds(t, psize)
    ensures Consistent(t, |tris0|, Built(t, psize, tris0, 0))
  {
    NoBucketsEmpty(psize);
  }

  /** Every entry of dualT's table records an edge of its triangle, and every match it
      made joined two triangles with a shared edge. */
  lemma {:induction false} BuiltConsistent(t: seq<int>, psize: nat, tris0: seq<Tri>, it: nat)
    requires ValidInput(t, it, psize)
    ensures Consistent(t, |tris0|, Built(t, psize, tris0, it))
  {
    if it == 0 {
      StartConsistent(t, psize, tris0);
    } else {
      var st := Built(t, psize, tris0, it - 1);
      BuiltConsistent(t, psize, tris0, it - 1);
      assert Consistent(t, |tris0|, st);
      TriangleConsistent(t, psize, |tris0|, st, it);
      BuiltUnfold(t, psize, tris0, it);
    }
  }

  /** Two triangles a match joined share an edge, in either order. */
  lemma JoinedShares(t: seq<int>, base: nat, links: seq<Link>, a: nat, b: nat)
    requires LinksOk(t, base, links) && Joined(links, a, b)
    ensures SharesReversedEdge(t, a - base, b - base)
  {
    var j :| 0 <= j < |links| && ((links[j].cur == a && links[j].nei == b) || (links[j].cur == b && links[j].nei == a));
    var x, y :| HasEdge(t, links[j].cur - base, x, y) && HasEdge(t, links[j].nei - base, y, x);
    if links[j].cur == b {
      assert HasEdge(t, a - base, y, x) && HasEdge(t, b - base, x, y);
    }
  }

  /** The dual graph's edges are shared polygon edges: a filled neighbour slot of record k
      names a record whose triple has one of k's edges, traversed the other way. */
  lemma DualNeighboursShareEdge(t: seq<int>, base: nat, r: DualState, k: nat, i: nat)
    requires LinksOk(t, base, r.links) && SlotsLogged(r.tris, r.links, base)
    requires base <= k < |r.tris| && i < 3
    ensures var s := Get(r.tris[k].t, i); s != Null ==> SharesReversedEdge(t, k - base, s - base)
  {
    var p := Partners(r.links, k);
    SlotFacts(r.links, p, k, i);
    assert SlotsOf(r.tris, k) == Fill(p);
    if i < |p| {
      JoinedShares(t, base, r.links, k, p[i]);
    }
  }

  // ---------------------------------------------------------------------------
  // Shared edges are matches

  /** The start of edge e of triple k.  Position 3k + e is edge e of triple k. */
  function Src(t: seq<int>, k: nat, e: nat): int
    requires e < 3 && 3 * k + 3 <= |t|
  {
    t[k * 3 + e]
  }

  /** The end of edge e of triple k. */
  function Dst(t: seq<int>, k: nat, e: nat): int
    requires e < 3 && 3 * k + 3 <= |t|
  {
    t[EdgeEnd(k, e)]
  }

  /** No directed edge occurs at two positions of the first `it` triples (true of the
      triangles of a simple polygon, which are consistently oriented). */
  predicate NoRepeatedEdge(t: seq<int>, it: nat)
    requires 3 * it <= |t|
  {
    forall k1: nat, e1: nat, k2: nat, e2: nat ::
      k1 < it && e1 < 3 && k2 < it && e2 < 3
      && Src(t, k1, e1) == Src(t, k2, e2) && Dst(t, k1, e1) == Dst(t, k2, e2)
      ==> k1 == k2 && e1 == e2
  }

  /** The directed edge x -> y occurs at a position before n. */
  ghost predicate EdgeBefore(t: seq<int>, x: int, y: int, n: nat) {
    exists k: nat, e: nat :: e < 3 && 3 * k + e < n && 3 * k + 3 <= |t| && Src(t, k, e) == x && Dst(t, k, e) == y
  }

  /** Every bucket entry was made at a position before n: entry (x, base + k) of bucket
      y is the edge x -> y of triple k. */
  ghost predicate Sourced(t: seq<int>, base: nat, hash: seq<Bucket>, n: nat) {
    forall b, i :: 0 <= b < |hash| && 0 <= i < |hash[b]| ==> MadeBefore(t, base, b, Entry(hash, b, i), n)
  }

  /** Entry x of bucket b is the edge x.pid -> b of a triple at a position before n. */
  ghost predicate MadeBefore(t: seq<int>, base: nat, b: int, x: Edge, n: nat) {
    exists k: nat, e: nat :: e < 3 && 3 * k + e < n && 3 * k + 3 <= |t| && x.tri == base + k
                             && Src(t, k, e) == x.pid && Dst(t, k, e) == b
  }

  /** Every edge x -> y before position n whose reverse had not occurred before it is an
      entry of the bucket of y. */
  ghost predicate Recorded(t: seq<int>, base: nat, hash: seq<Bucket>, n: nat) {
    forall k: nat, e: nat ::
      e < 3 && 3 * k + e < n && 3 * k + 3 <= |t| && 0 <= Dst(t, k, e) < |hash|
      && !EdgeBefore(t, Dst(t, k, e), Src(t, k, e), 3 * k + e)
      ==> Edge(Src(t, k, e), base + k) in hash[Dst(t, k, e)]
  }

  /** Every edge before position n whose reverse occurred earlier joined the two
      triangles. */
  ghost predicate Matched(t: seq<int>, base: nat, links: seq<Link>, n: nat) {
    forall k: nat, e: nat, k': nat, e': nat ::
      e < 3 && e' < 3 && 3 * k' + e' < 3 * k + e < n && 3 * k + 3 <= |t|
      && Src(t, k', e') == Dst(t, k, e) && Dst(t, k', e') == Src(t, k, e)
      ==> Joined(links, base + k, base + k')
  }

  ghost predicate Complete(t: seq<int>, base: nat, st: DualState, n: nat) {
    Sourced(t, base, st.hash, n) && Recorded(t, base, st.hash, n) && Matched(t, base, st.links, n)
  }

  /** A hit names a triangle where the reversed edge occurred before position n. */
  lemma LookupSource(t: seq<int>, base: nat, hash: seq<Bucket>, x: nat, y: int, n: nat) returns (k: nat, e: nat)
    requires x < |hash| && Sourced(t, base, hash, n) && Lookup(hash[x], y) != Null
    ensures e < 3 && 3 * k + e < n && 3 * k + 3 <= |t| && Src(t, k, e) == y && Dst(t, k, e) == x
    ensures Lookup(hash[x], y) == base + k
  {
    var j := LookupEntry(hash[x], y);
    assert MadeBefore(t, base, x, Entry(hash, x, j), n);
    k, e :| e < 3 && 3 * k + e < n && 3 * k + 3 <= |t| && Entry(hash, x, j).tri == base + k
            && Src(t, k, e) == Entry(hash, x, j).pid && Dst(t, k, e) == x;
  }

  /** The reversed edge y -> x at position 3k' + e', before edge ie of triangle it, was
      recorded: its own reverse is the current edge, which occurs nowhere else. */
  lemma ReverseRecorded(t: seq<int>, psize: nat, base: nat, hash: seq<Bucket>, it: nat, ie: nat, k': nat, e': nat)
    requires ie < 3 && ValidInput(t, it + 1, psize) && |hash| == psize && NoRepeatedEdge(t, it + 1)
    requires Recorded(t, base, hash, 3 * it + ie)
    requires e' < 3 && 3 * k' + e' < 3 * it + ie
    requires Src(t, k', e') == Dst(t, it, ie) && Dst(t, k', e') == Src(t, it, ie)
    ensures Edge(Dst(t, it, ie), base + k') in hash[Src(t, it, ie)]
  {
  }

  /** The lookup of edge ie of triangle it finds the triangle of every earlier occurrence
      of the reversed edge. */
  ghost predicate FindsReverse(t: seq<int>, base: nat, hash: seq<Bucket>, it: nat, ie: nat)
    requires ie < 3 && 3 * it + 3 <= |t| && 0 <= Src(t, it, ie) < |hash|
  {
    forall k': nat, e': nat :: e' < 3 && 3 * k' + e' < 3 * it + ie
      && Src(t, k', e') == Dst(t, it, ie) && Dst(t, k', e') == Src(t, it, ie)
      ==> Lookup(hash[Src(t, it, ie)], Dst(t, it, ie)) == base + k'
  }

  /** What the lookup of edge ie of triangle it finds: nothing iff the reverse edge has
      not occurred yet, and otherwise the triangle where it occurred. */
  lemma EdgeLookup(t: seq<int>, psize: nat, base: nat, hash: seq<Bucket>, it: nat, ie: nat)
    requires ie < 3 && ValidInput(t, it + 1, psize) && |hash| == psize && NoRepeatedEdge(t, it + 1)
    requires Sourced(t, base, hash, 3 * it + ie) && Recorded(t, base, hash, 3 * it + ie)
    ensures Lookup(hash[Src(t, it, ie)], Dst(t, it, ie)) == Null <==> !EdgeBefore(t, Dst(t, it, ie), Src(t, it, ie), 3 * it + ie)
    ensures FindsReverse(t, base, hash, it, ie)
  {
    var x, y := Src(t, it, ie), Dst(t, it, ie);
    var n := 3 * it + ie;
    if Lookup(hash[x], y) != Null {
      var k, e := LookupSource(t, base, hash, x, y, n);
      assert EdgeBefore(t, y, x, n);
    }
    if EdgeBefore(t, y, x, n) {
      var k': nat, e': nat :| e' < 3 && 3 * k' + e' < n && 3 * k' + 3 <= |t| && Src(t, k', e') == y && Dst(t, k', e') == x;
      ReverseRecorded(t, psize, base, hash, it, ie, k', e');
      LookupNull(hash[x], y);
    }
  }

  lemma SourcedStep(t: seq<int>, psize: nat, base: nat, st: DualState, it: nat, ie: nat)
    requires ie < 3 && ValidInput(t, it + 1, psize) && Fits(st, psize, base + it)
    requires Sourced(t, base, st.hash, 3 * it + ie)
    ensures Sourced(t, base, EdgeStep(t, psize, base, st, it, ie).hash, 3 * it + ie + 1)
  {
    var h := EdgeStep(t, psize, base, st, it, ie).hash;
    var x, y := Src(t, it, ie), Dst(t, it, ie);
    forall b, i | 0 <= b < |h| && 0 <= i < |h[b]|
      ensures MadeBefore(t, base, b, Entry(h, b, i), 3 * it + ie + 1)
    {
      if i < |st.hash[b]| {
        assert Entry(h, b, i) == Entry(st.hash, b, i);
        assert MadeBefore(t, base, b, Entry(st.hash, b, i), 3 * it + ie);
      } else {
        assert Entry(h, b, i) == Edge(x, base + it) && b == y;
        assert Src(t, it, ie) == Entry(h, b, i).pid && Dst(t, it, ie) == b;
      }
    }
  }

  lemma RecordedStep(t: seq<int>, psize: nat, base: nat, st: DualState, it: nat, ie: nat)
    requires ie < 3 && ValidInput(t, it + 1, psize) && Fits(st, psize, base + it) && NoRepeatedEdge(t, it + 1)
    requires Sourced(t, base, st.hash, 3 * it + ie) && Recorded(t, base, st.hash, 3 * it + ie)
    ensures Recorded(t, base, EdgeStep(t, psize, base, st, it, ie).hash, 3 * it + ie + 1)
  {
    var h := EdgeStep(t, psize, base, st, it, ie).hash;
    EdgeLookup(t, psize, base, st.hash, it, ie);
    forall k: nat, e: nat |
      e < 3 && 3 * k + e < 3 * it + ie + 1 && 3 * k + 3 <= |t| && 0 <= Dst(t, k, e) < |h|
      && !EdgeBefore(t, Dst(t, k, e), Src(t, k, e), 3 * k + e)
      ensures Edge(Src(t, k, e), base + k) in h[Dst(t, k, e)]
    {
      var b := Dst(t, k, e);
      if 3 * k + e < 3 * it + ie {
        assert Edge(Src(t, k, e), base + k) in st.hash[b];
        assert st.hash[b] <= h[b];
      } else {
        assert k == it && e == ie;
      }
    }
  }

  lemma MatchedStep(t: seq<int>, psize: nat, base: nat, st: DualState, it: nat, ie: nat)
    requires ie < 3 && ValidInput(t, it + 1, psize) && Fits(st, psize, base + it)
    requires Matched(t, base, st.links, 3 * it + ie) && FindsReverse(t, base, st.hash, it, ie)
    ensures Matched(t, base, EdgeStep(t, psize, base, st, it, ie).links, 3 * it + ie + 1)
  {
    var r := EdgeStep(t, psize, base, st, it, ie);
    forall k: nat, e: nat, k': nat, e': nat |
      e < 3 && e' < 3 && 3 * k' + e' < 3 * k + e < 3 * it + ie + 1 && 3 * k + 3 <= |t|
      && Src(t, k', e') == Dst(t, k, e) && Dst(t, k', e') == Src(t, k, e)
      ensures Joined(r.links, base + k, base + k')
    {
      if 3 * k + e < 3 * it + ie {
        var j :| 0 <= j < |st.links| && ((st.links[j].cur == base + k && st.links[j].nei == base + k')
                                         || (st.links[j].cur == base + k' && st.links[j].nei == base + k));
        assert r.links[j] == st.links[j];
      } else {
        assert k == it && e == ie;
        assert r.links[|st.links|] == Link(base + k, base + k');
      }
    }
  }

  lemma EdgeStepComplete(t: seq<int>, psize: nat, base: nat, st: DualState, it: nat, ie: nat)
    requires ie < 3 && ValidInput(t, it + 1, psize) && Fits(st, psize, base + it) && NoRepeatedEdge(t, it + 1)
    requires Complete(t, base, st, 3 * it + ie)
    ensures Complete(t, base, EdgeStep(t, psize, base, st, it, ie), 3 * it + ie + 1)
  {
    SourcedStep(t, psize, base, st, it, ie);
    RecordedStep(t, psize, base, st, it, ie);
    EdgeLookup(t, psize, base, st.hash, it, ie);
    MatchedStep(t, psize, base, st, it, ie);
  }

  lemma {:induction false} EdgesFromComplete(t: seq<int>, psize: nat, base: nat, st: DualState, it: nat, ie: nat)
    requires ie <= 3 && ValidInput(t, it + 1, psize) && Fits(st, psize, base + it) && NoRepeatedEdge(t, it + 1)
    requires Complete(t, base, st, 3 * it + ie)
    ensures Complete(t, base, EdgesFrom(t, psize, base, st, it, ie), 3 * it + 3)
    decreases 3 - ie
  {
    if ie < 3 {
      EdgeStepComplete(t, psize, base, st, it, ie);
      EdgesFromComplete(t, psize, base, EdgeStep(t, psize, base, st, it, ie), it, ie + 1);
    }
  }

  lemma TriangleComplete(t: seq<int>, psize: nat, base: nat, st: DualState, it: nat)
    requires 0 < it && ValidInput(t, it, psize) && |st.hash| == psize && |st.tris| == base + it - 1
    requires NoRepeatedEdge(t, it) && Complete(t, base, st, 3 * (it - 1))
    ensures Complete(t, base, EdgesFrom(t, psize, base, Alloc(st), it - 1, 0), 3 * it)
  {
    var st' := Alloc(st);
    assert st'.hash == st.hash && st'.links == st.links;
    assert Complete(t, base, st', 3 * (it - 1) + 0);
    EdgesFromComplete(t, psize, base, st', it - 1, 0);
    assert 3 * (it - 1) + 3 == 3 * it;
  }

  lemma NoRepeatedEdgePrefix(t: seq<int>, it: nat, m: nat)
    requires m <= it && 3 * it <= |t| && NoRepeatedEdge(t, it)
    ensures NoRepeatedEdge(t, m)
  {
  }

  lemma StartComplete(t: seq<int>, psize: nat, tris0: seq<Tri>)
    requires ValidIds(t, psize)
    ensures Complete(t, |tris0|, Built(t, psize, tris0, 0), 0)
  {
    NoBucketsEmpty(psize);
  }

  /** After `it` triangles the table holds every unmatched edge and every edge that met
      its reverse made a match. */
  lemma {:induction false} BuiltComplete(t: seq<int>, psize: nat, tris0: seq<Tri>, it: nat)
    requires ValidInput(t, it, psize) && NoRepeatedEdge(t, it)
    ensures Complete(t, |tris0|, Built(t, psize, tris0, it), 3 * it)
  {
    if it == 0 {
      StartComplete(t, psize, tris0);
    } else {
      var st := Built(t, psize, tris0, it - 1);
      NoRepeatedEdgePrefix(t, it, it - 1);
      BuiltComplete(t, psize, tris0, it - 1);
      TriangleComplete(t, psize, |tris0|, st, it);
      BuiltUnfold(t, psize, tris0, it);
    }
  }


  /** An edge x -> y of triple k is edge e of it for some e. */
  lemma HasEdgeAt(t: seq<int>, k: nat, x: int, y: int) returns (e: nat)
    requires HasEdge(t, k, x, y)
    ensures e < 3 && 3 * k + 3 <= |t| && Src(t, k, e) == x && Dst(t, k, e) == y
  {
    if t[k * 3] == x && t[k * 3 + 1] == y {
      e := 0;
    } else if t[k * 3 + 1] == x && t[k * 3 + 2] == y {
      e := 1;
    } else {
      e := 2;
    }
  }

  /** A later triangle with the reverse of an earlier triangle's edge was matched with it. */
  lemma SharedEdgeJoined(t: seq<int>, base: nat, links: seq<Link>, it: nat, i: nat, j: nat)
    requires 3 * it <= |t| && Matched(t, base, links, 3 * it) && i < j < it
    requires SharesReversedEdge(t, i, j)
    ensures Joined(links, base + j, base + i)
  {
    var x, y :| HasEdge(t, i, x, y) && HasEdge(t, j, y, x);
    var e1 := HasEdgeAt(t, i, x, y);
    var e2 := HasEdgeAt(t, j, y, x);
    assert 3 * i + e1 < 3 * j + e2 < 3 * it;
  }

  /** Matched triangles share an edge, traversed in opposite directions. */
  lemma JoinedShared(t: seq<int>, base: nat, links: seq<Link>, i: nat, j: nat)
    requires LinksOk(t, base, links) && Joined(links, base + j, base + i)
    ensures SharesReversedEdge(t, i, j)
  {
    JoinedShares(t, base, links, base + j, base + i);
    var x, y :| HasEdge(t, j, x, y) && HasEdge(t, i, y, x);
    assert HasEdge(t, i, y, x) && HasEdge(t, j, x, y);
  }

  /** dualT finds every neighbour: when no directed edge repeats, two triangles were
      matched iff their triples share an edge, traversed in opposite directions. */
  lemma BuiltJoinsSharedEdges(t: seq<int>, psize: nat, tris0: seq<Tri>, it: nat, i: nat, j: nat)
    requires ValidInput(t, it, psize) && NoRepeatedEdge(t, it) && i < j < it
    ensures Joined(Built(t, psize, tris0, it).links, |tris0| + j, |tris0| + i) <==> SharesReversedEdge(t, i, j)
  {
    var r := Built(t, psize, tris0, it);
    BuiltComplete(t, psize, tris0, it);
    BuiltConsistent(t, psize, tris0, it);
    if SharesReversedEdge(t, i, j) {
      SharedEdgeJoined(t, |tris0|, r.links, it, i, j);
    }
    if Joined(r.links, |tris0| + j, |tris0| + i) {
      JoinedShared(t, |tris0|, r.links, i, j);
    }
  }

  // ---------------------------------------------------------------------------
  // The graph dualT returns

  /** The neighbour slots dualT leaves in record k (a record of this call): slot i is
      filled iff k took part in more than i matches, and a filled slot names a record of
      this call whose triple shares one of k's edges, traversed the other way. */
  lemma DualTNeighbours(t: seq<int>, tsize: nat, psize: nat, tris0: seq<Tri>, k: nat, i: nat)
    requires 3 * tsize <= |t| && ValidIds(t[..3 * tsize], psize)
    requires |tris0| <= k < |tris0| + tsize && i < 3
    ensures var r := DualSpec(t, tsize, psize, tris0); var s := Get(r.tris[k].t, i);
      && (s != Null <==> i < |Partners(r.links, k)|)
      && (s != Null ==> |tris0| <= s < |tris0| + tsize && SharesReversedEdge(t[..3 * tsize], k - |tris0|, s - |tris0|))
  {
    var ids := t[..3 * tsize];
    var r := Built(ids, psize, tris0, tsize);
    BuiltSlots(ids, psize, tris0, tsize);
    BuiltRanged(ids, psize, tris0, tsize);
    BuiltConsistent(ids, psize, tris0, tsize);
    DualSlots(r, |tris0|, k, i);
    DualNeighboursShareEdge(ids, |tris0|, r, k, i);
  }

  /** A record with at most three partners holds b in its slots iff a match joined them. */
  lemma SlotsHoldJoined(tris: seq<Tri>, links: seq<Link>, base: nat, a: nat, b: nat)
    requires SlotsLogged(tris, links, base) && base <= b < |tris| && |Partners(links, b)| <= 3
    ensures Holds(tris[b].t, a) <==> Joined(links, b, a)
  {
    PartnersAreJoined(links, b, a);
    InFill(Partners(links, b), a);
    assert SlotsOf(tris, b) == Fill(Partners(links, b));
  }

  /** In the graph dualT returns, when no directed edge repeats, record |tris0| + i is a
      neighbour of record |tris0| + j (i < j) iff their triples share an edge traversed in
      opposite directions, provided record |tris0| + j took part in at most three
      matches; and the neighbour relation is symmetric for records with at most three
      matches each. */
  lemma DualTNeighboursAreSharedEdges(t: seq<int>, tsize: nat, psize: nat, tris0: seq<Tri>, i: nat, j: nat)
    requires 3 * tsize <= |t| && ValidIds(t[..3 * tsize], psize)
    requires NoRepeatedEdge(t[..3 * tsize], tsize) && i < j < tsize
    ensures var r := DualSpec(t, tsize, psize, tris0); var a, b := |tris0| + i, |tris0| + j;
      && (Joined(r.links, b, a) <==> SharesReversedEdge(t[..3 * tsize], i, j))
      && (|Partners(r.links, b)| <= 3 ==> (Holds(r.tris[b].t, a) <==> SharesReversedEdge(t[..3 * tsize], i, j)))
      && (|Partners(r.links, a)| <= 3 && |Partners(r.links, b)| <= 3 ==> (Holds(r.tris[a].t, b) <==> Holds(r.tris[b].t, a)))
  {
    var ids := t[..3 * tsize];
    var r := Built(ids, psize, tris0, tsize);
    var a, b := |tris0| + i, |tris0| + j;
    BuiltJoinsSharedEdges(ids, psize, tris0, tsize, i, j);
    BuiltSlots(ids, psize, tris0, tsize);
    if |Partners(r.links, b)| <= 3 {
      SlotsHoldJoined(r.tris, r.links, |tris0|, a, b);
    }
    if |Partners(r.links, a)| <= 3 && |Partners(r.links, b)| <= 3 {
      DualLinksSymmetric(r.tris, r.links, |tris0|, a, b);
    }
  }

  // ---------------------------------------------------------------------------
  // The imperative code

  /** dualT: allocate one record per triple, copy the triple into it, link triangles that
      share an edge, and return the last triangle with an edge joining vertex 0 and
      vertex psize-1 (or Null). */
  method DualT(t: seq<int>, tsize: nat, psize: nat, buf: TriBuffer) returns (seed: int)
    requires 3 * tsize <= |t| && ValidIds(t[..3 * tsize], psize)
    modifies buf
    ensures var r := DualSpec(t, tsize, psize, old(buf.tris)); buf.tris == r.tris && seed == r.seed
  {
    var ids := t[..3 * tsize];
    ghost var tris0 := buf.tris;
    ghost var base := |buf.tris|;
    seed := Null;
    var hash := NewTable(psize);
    ghost var links: seq<Link> := [];
    var it := 0;
    while it < tsize
      invariant it <= tsize && hash.Length == psize
      invariant DualState(buf.tris, hash[..], seed, links) == Built(ids, psize, tris0, it)
    {
      seed, links := BuildTriangle(ids, psize, tris0, it, hash, buf, seed, links);
      it := it + 1;
    }
    ghost var r := DualSpec(t, tsize, psize, tris0);
    assert r == Built(ids, psize, tris0, tsize);
  }

  /** The table of dualT: psize empty buckets. */
  method NewTable(psize: nat) returns (hash: array<Bucket>)
    ensures fresh(hash) && hash[..] == NoBuckets(psize)
  {
    hash := new Bucket[psize](_ => []);
    assert forall b :: 0 <= b < psize ==> hash[b] == [];
    NoBucketsEmpty(psize);
  }

  /** One pass of the triangle loop of dualT takes the state after `it` triangles to the
      state after it + 1. */
  method BuildTriangle(t: seq<int>, psize: nat, ghost tris0: seq<Tri>, it: nat, hash: array<Bucket>,
                       buf: TriBuffer, seed: int, ghost links: seq<Link>)
    returns (seed': int, ghost links': seq<Link>)
    requires ValidInput(t, it + 1, psize) && hash.Length == psize
    requires DualState(buf.tris, hash[..], seed, links) == Built(t, psize, tris0, it)
    modifies buf, hash
    ensures DualState(buf.tris, hash[..], seed', links') == Built(t, psize, tris0, it + 1)
  {
    BuiltRanged(t, psize, tris0, it);
    seed', links' := VisitTriangle(t, psize, |tris0|, it, hash, buf, seed, links);
    BuiltUnfold(t, psize, tris0, it + 1);
  }

  /** The body of the triangle loop of dualT: allocate record base + it and visit its
      three edges. */
  method VisitTriangle(t: seq<int>, psize: nat, ghost base: nat, it: nat, hash: array<Bucket>,
                       buf: TriBuffer, seed: int, ghost links: seq<Link>)
    returns (seed': int, ghost links': seq<Link>)
    requires ValidInput(t, it + 1, psize) && hash.Length == psize && base + it == |buf.tris|
    requires Ranged(DualState(buf.tris, hash[..], seed, links), base, |buf.tris|)
    modifies buf, hash
    ensures DualState(buf.tris, hash[..], seed', links')
            == EdgesFrom(t, psize, base, Alloc(DualState(old(buf.tris), old(hash[..]), seed, links)), it, 0)
  {
    ghost var st0 := Alloc(DualState(buf.tris, hash[..], seed, links));
    AllocRanged(DualState(buf.tris, hash[..], seed, links), base, |buf.tris| + 1);
    var cur := buf.GetNew();
    seed', links' := seed, links;
    var ie := 0;
    while ie < 3
      invariant ie <= 3 && cur == base + it && hash.Length == psize
      invariant Fits(DualState(buf.tris, hash[..], seed', links'), psize, cur)
      invariant EdgesFrom(t, psize, base, DualState(buf.tris, hash[..], seed', links'), it, ie)
                == EdgesFrom(t, psize, base, st0, it, 0)
      invariant Ranged(DualState(buf.tris, hash[..], seed', links'), base, |buf.tris|)
    {
      seed', links' := VisitEdge(t, psize, base, it, ie, cur, hash, buf, seed', links');
      ie := ie + 1;
    }
  }

  /** The body of the edge loop of dualT: edge ie of triangle cur = base + it. */
  method VisitEdge(t: seq<int>, psize: nat, ghost base: nat, it: nat, ie: nat, cur: nat, hash: array<Bucket>,
                   buf: TriBuffer, seed: int, ghost links: seq<Link>)
    returns (seed': int, ghost links': seq<Link>)
    requires ie < 3 && ValidInput(t, it + 1, psize) && cur == base + it && hash.Length == psize
    requires Fits(DualState(buf.tris, hash[..], seed, links), psize, cur)
    requires Ranged(DualState(buf.tris, hash[..], seed, links), base, |buf.tris|)
    modifies buf, hash
    ensures var r := EdgeStep(t, psize, base, DualState(old(buf.tris), old(hash[..]), seed, links), it, ie);
      DualState(buf.tris, hash[..], seed', links') == r && Ranged(r, base, |buf.tris|)
  {
    ghost var st := DualState(buf.tris, hash[..], seed, links);
    EdgeStepRanged(t, psize, base, |buf.tris|, st, it, ie);
    var last := psize - 1;
    var vid1 := t[it * 3 + ie];
    var vid2 := t[it * 3 + (ie + 1) % 3];
    assert vid2 == t[EdgeEnd(it, ie)];
    LookupIn(hash[..], base, |buf.tris|, vid1, vid2);
    buf.tris := buf.tris[cur := buf.tris[cur].(v := Set(buf.tris[cur].v, ie, vid1))];
    seed' := seed;
    if (vid1 == 0 && vid2 == last) || (vid1 == last && vid2 == 0) {
      seed' := cur;
    }
    var nei := MatchEdge(hash, buf, vid1, vid2, cur);
    links' := if nei == Null then links else links + [Link(cur, nei)];
  }

  /** The matching half of an edge visit: look the reversed edge (vid2, vid1) up in the
      bucket of vid1; an unmatched edge (vid1, vid2) is recorded in the bucket of vid2, a
      matched one links record cur and the record that holds it, each in its first free
      neighbour slot. */
  method MatchEdge(hash: array<Bucket>, buf: TriBuffer, vid1: nat, vid2: nat, cur: nat) returns (nei: int)
    requires vid1 < hash.Length && vid2 < hash.Length && cur < |buf.tris|
    requires Lookup(hash[vid1], vid2) < |buf.tris|
    modifies buf, hash
    ensures nei == Lookup(old(hash[vid1]), vid2)
    ensures nei == Null ==> hash[..] == old(hash[..])[vid2 := old(hash[vid2]) + [Edge(vid1, cur)]]
                            && buf.tris == old(buf.tris)
    ensures nei != Null ==> hash[..] == old(hash[..]) && buf.tris == Connect(old(buf.tris), cur, nei)
  {
    nei := Find(hash[vid1], vid2);
    if nei == Null {
      Add(hash, vid2, vid1, cur);
    } else {
      buf.FillFirstNull(cur, nei);
      buf.FillFirstNull(nei, cur);
    }
  }

  /** triangulate: the triangulator's index list (an input here) is turned into a dual
      graph, or Null when it is empty. */
  method Triangulate(indices: seq<int>, polysize: nat, buf: TriBuffer) returns (seed: int)
    requires forall j :: 0 <= j < |indices| ==> 0 <= indices[j] < polysize
    modifies buf
    ensures |indices| == 0 ==> seed == Null && buf.tris == old(buf.tris)
    ensures |indices| > 0 ==>
              var r := DualSpec(indices, |indices| / 3, polysize, old(buf.tris));
              buf.tris == r.tris && seed == r.seed
  {
    if |indices| > 0 {
      seed := DualT(indices, |indices| / 3, polysize, buf);
    } else {
      seed := Null;
    }
  }
}
