/** The decomposition driver of acd2d (class cd_2d): a work queue of polygon groups that
    is drained pass by pass.  Each pass swaps the whole queue out, then routes every group
    of that snapshot by the kind of its next ring: a hole is merged into the boundary and
    the group is queued again; a boundary is either finalized (moved to the done list) or
    cut into two groups that are queued for the next pass.

    The geometry (witness search, cut-line search, cutting, hole merging, validity and
    copying of groups) lives in collaborators whose code is not part of this model; they
    are given here as total functions of a `Geometry` value and of a concavity `Measure`.
 */
module Decomposition {

  datatype Option<T> = None | Some(value: T)

  /** A point of the plane; the two end points of a diagonal. */
  datatype Point = Point(x: real, y: real)

  /** A cut or a hole bridge (cd_diagonal), logged in creation order. */
  datatype Diagonal = Diagonal(from: Point, to: Point)

  /** A polygon group (cd_polygon): one boundary ring with its holes.  Its geometry is
      only seen through the collaborators, so the driver handles it as an opaque value. */
  datatype Group = Group(handle: int)

  /** The kind of the ring that cd_polygon::next selects (cd_poly::POUT or PIN). */
  datatype RingKind = Boundary | Hole

  /** The concavity witness returned by findCW: a vertex and its concavity. */
  datatype Witness = Witness(vertex: int, concavity: real)

  /** find_a_good_cutline followed by cutPolys: two sub-groups and the diagonal of the
      cut, or a failure of cutPolys (it throws).  The cut-line search itself is taken to
      be total: a throw from it, outside the lenient try block, is not modelled. */
  datatype CutOutcome = CutOk(first: Group, second: Group, dia: Diagonal) | CutFailed

  /** findOutMost, getCW, find_a_good_cutline_for_hole and mergeHole: the group with the
      hole merged into its boundary and the bridge diagonal, or a failure of any of them
      (nothing on this path is caught, in either mode). */
  datatype MergeOutcome = MergeOk(merged: Group, dia: Diagonal) | MergeFailed

  /** An IConcavityMeasure, applied through findCW to the outermost ring of a group;
      None is the null witness pointer (the ring is already convex). */
  type Measure = Group -> Option<Witness>

  /** The geometry collaborators the driver calls. `copy` stands for copying a group into
      the engine's buffer followed by buildDependency. */
  datatype Geometry = Geometry(
    valid: Group -> bool,
    copy: Group -> Group,
    nextKind: Group -> RingKind,
    cut: (Group, Witness, real, real) -> CutOutcome,
    merge: Group -> MergeOutcome)

  /** Strict: decompose* rethrow a cut failure.  Lenient: maybe_decompose* drop the group. */
  datatype Mode = Strict | Lenient

  /** Everything a pass depends on besides the tolerance and the three lists. */
  datatype Env = Env(geo: Geometry, measure: Option<Measure>, alpha: real, beta: real,
                     store: bool, mode: Mode)

  /** The three member lists: todo_list, done_list and dia_list. */
  datatype Queues = Queues(todo: seq<Group>, done: seq<Group>, dias: seq<Diagonal>)

  /** The lists after a step: Continue on normal return, Abort when a failure escapes
      (the lists are then as they were when it was raised). */
  datatype Step = Continue(queues: Queues) | Abort(queues: Queues)

  /** The outcome of decomposeAll together with the number of passes that returned. */
  datatype Run = Run(step: Step, passes: nat)

  /** What one pass does to one group of its snapshot. */
  datatype Fate = Finalized | Merged | Split | Dropped | Failed

  const IterLimit: nat := 100
  const MinTolerance: real := 0.00000000000000000001

  predicate IsPrefix<T(==)>(a: seq<T>, b: seq<T>) {
    |a| <= |b| && b[..|a|] == a
  }

  /** t extends all three lists of s. */
  predicate Grows(s: Queues, t: Queues) {
    IsPrefix(s.todo, t.todo) && IsPrefix(s.done, t.done) && IsPrefix(s.dias, t.dias)
  }

  /** `if (d < 1e-20) d = 1e-20;` */
  function Clamp(d: real): (r: real)
    ensures r >= MinTolerance
    ensures d >= MinTolerance ==> r == d
    ensures d <= 0.0 ==> r == MinTolerance
  {
    if d < MinTolerance then MinTolerance else d
  }

  // ---------------------------------------------------------------------------
  // Specification of one group, one pass and a whole run

  /** decompose_OUT (Strict) and maybe_decompose_OUT (Lenient). */
  function OutStep(env: Env, d: real, s: Queues, g: Group): Step
    requires env.measure.Some?
  {
    match env.measure.value(g)
    case None => Continue(s.(done := s.done + [g]))
    case Some(w) =>
      if w.concavity < d then Continue(s.(done := s.done + [g]))
      else match env.geo.cut(g, w, env.alpha, env.beta)
        case CutFailed => if env.mode == Strict then Abort(s) else Continue(s)
        case CutOk(a, b, dia) =>
          Continue(Queues(s.todo + [a, b], s.done, if env.store then s.dias + [dia] else s.dias))
  }

  /** decompose_IN: a merge failure is never caught, in either mode. */
  function InStep(env: Env, s: Queues, g: Group): Step {
    match env.geo.merge(g)
    case MergeFailed => Abort(s)
    case MergeOk(h, dia) =>
      Continue(Queues(s.todo + [h], s.done, if env.store then s.dias + [dia] else s.dias))
  }

  /** decompose(d, polys) and maybe_decompose(d, polys). */
  function GroupStep(env: Env, d: real, s: Queues, g: Group): Step
    requires env.measure.Some?
  {
    if env.geo.nextKind(g) == Hole then InStep(env, s, g) else OutStep(env, d, s, g)
  }

  /** The loop of a pass over the (rest of the) swapped-out snapshot `ps`. */
  function PassFrom(env: Env, d: real, s: Queues, ps: seq<Group>): Step
    requires env.measure.Some?
    decreases |ps|
  {
    if ps == [] then Continue(s)
    else match GroupStep(env, d, s, ps[0])
      case Abort(t) => Abort(t)
      case Continue(t) => PassFrom(env, d, t, ps[1..])
  }

  /** decompose(d, measure) and maybe_decompose(d, measure): swap the queue out, give up
      on a null measure, clamp the tolerance and run the snapshot. */
  function Pass(env: Env, d: real, s: Queues): Step {
    var s0 := s.(todo := []);
    if env.measure.None? then Continue(s0) else PassFrom(env, Clamp(d), s0, s.todo)
  }

  /** The do-while loop of decomposeAll from iteration `iter` on. */
  function RunFrom(env: Env, d: real, s: Queues, iter: nat): Run
    requires iter < IterLimit
    decreases IterLimit - iter
  {
    match Pass(env, d, s)
    case Abort(t) => Run(Abort(t), iter)
    case Continue(t) =>
      if t.todo != [] && iter + 1 < IterLimit then RunFrom(env, d, t, iter + 1)
      else Run(Continue(t), iter + 1)
  }

  /** decomposeAll / maybe_decomposeAll. */
  function DecomposeAllSpec(env: Env, d: real, s: Queues): Run {
    RunFrom(env, Clamp(d), s, 0)
  }

  // ---------------------------------------------------------------------------
  // Reference classification of a group and its accounting over a snapshot

  /** What happens to `g` in a pass, read off the collaborators' answers alone. */
  function FateOf(env: Env, d: real, g: Group): Fate
    requires env.measure.Some?
  {
    if env.geo.nextKind(g) == Hole then
      (if env.geo.merge(g).MergeOk? then Merged else Failed)
    else match env.measure.value(g)
      case None => Finalized
      case Some(w) =>
        if w.concavity < d then Finalized
        else if env.geo.cut(g, w, env.alpha, env.beta).CutOk? then Split
        else if env.mode == Strict then Failed
        else Dropped
  }

  /** The number of groups of `ps` with fate `f`. */
  function Count(env: Env, d: real, ps: seq<Group>, f: Fate): nat
    requires env.measure.Some?
  {
    if ps == [] then 0
    else (if FateOf(env, d, ps[0]) == f then 1 else 0) + Count(env, d, ps[1..], f)
  }

  /** The groups of `ps` that are finalized, in order. */
  function FinalizedIn(env: Env, d: real, ps: seq<Group>): seq<Group>
    requires env.measure.Some?
  {
    if ps == [] then []
    else (if FateOf(env, d, ps[0]) == Finalized then [ps[0]] else []) + FinalizedIn(env, d, ps[1..])
  }

  /** The groups one group of a pass puts on the queue: the merged group, the two halves
      of a cut, or none. */
  function Made(env: Env, d: real, g: Group): seq<Group>
    requires env.measure.Some?
  {
    if env.geo.nextKind(g) == Hole then
      (match env.geo.merge(g) case MergeOk(h, _) => [h] case MergeFailed => [])
    else match env.measure.value(g)
      case None => []
      case Some(w) =>
        if w.concavity < d then []
        else match env.geo.cut(g, w, env.alpha, env.beta)
          case CutOk(a, b, _) => [a, b]
          case CutFailed => []
  }

  /** The diagonal one group of a pass logs: the bridge of a merge or the diagonal of a
      cut, when logging is on. */
  function Logged(env: Env, d: real, g: Group): seq<Diagonal>
    requires env.measure.Some?
  {
    if !env.store then []
    else if env.geo.nextKind(g) == Hole then
      (match env.geo.merge(g) case MergeOk(_, dia) => [dia] case MergeFailed => [])
    else match env.measure.value(g)
      case None => []
      case Some(w) =>
        if w.concavity < d then []
        else match env.geo.cut(g, w, env.alpha, env.beta)
          case CutOk(_, _, dia) => [dia]
          case CutFailed => []
  }

  /** The groups a pass over `ps` queues, in snapshot order. */
  function MadeIn(env: Env, d: real, ps: seq<Group>): seq<Group>
    requires env.measure.Some?
  {
    if ps == [] then [] else Made(env, d, ps[0]) + MadeIn(env, d, ps[1..])
  }

  /** The diagonals a pass over `ps` logs, in snapshot order. */
  function LoggedIn(env: Env, d: real, ps: seq<Group>): seq<Diagonal>
    requires env.measure.Some?
  {
    if ps == [] then [] else Logged(env, d, ps[0]) + LoggedIn(env, d, ps[1..])
  }

  /** How many queue entries a group of fate `f` adds. */
  function Requeued(f: Fate): nat {
    if f == Merged then 1 else if f == Split then 2 else 0
  }

  /** One group: the step aborts exactly on fate Failed and leaves the lists alone then;
      otherwise it finalizes the group unchanged, queues one or two groups, or (lenient
      cut failure) adds nothing, and logs a diagonal iff it merged or split and logging
      is on. */
  lemma GroupStepByFate(env: Env, d: real, s: Queues, g: Group)
    requires env.measure.Some?
    ensures var r := GroupStep(env, d, s, g); var f := FateOf(env, d, g);
      && (r.Abort? <==> f == Failed)
      && (r.Abort? ==> r.queues == s)
      && (r.Continue? ==>
            && r.queues.done == s.done + (if f == Finalized then [g] else [])
            && IsPrefix(s.todo, r.queues.todo)
            && |r.queues.todo| == |s.todo| + Requeued(f)
            && IsPrefix(s.dias, r.queues.dias)
            && |r.queues.dias| == |s.dias| + (if env.store && (f == Merged || f == Split) then 1 else 0))
  {
  }

  /** One group, by contents: on normal return the queue gains exactly the groups it
      makes and the log exactly the diagonal it logs. */
  lemma GroupStepContents(env: Env, d: real, s: Queues, g: Group)
    requires env.measure.Some?
    ensures var r := GroupStep(env, d, s, g);
      r.Continue? ==> r.queues.todo == s.todo + Made(env, d, g) && r.queues.dias == s.dias + Logged(env, d, g)
  {
  }

  /** One pass over a snapshot, by contents: on normal return the queue gains exactly the
      merged groups and the cut halves of the snapshot, and the log exactly their
      diagonals, both in snapshot order. */
  lemma {:induction false} PassFromContents(env: Env, d: real, s: Queues, ps: seq<Group>)
    requires env.measure.Some?
    ensures var r := PassFrom(env, d, s, ps);
      r.Continue? ==> r.queues.todo == s.todo + MadeIn(env, d, ps)
                      && r.queues.dias == s.dias + LoggedIn(env, d, ps)
    decreases |ps|
  {
    if ps != [] {
      GroupStepContents(env, d, s, ps[0]);
      match GroupStep(env, d, s, ps[0])
      case Abort(t) =>
      case Continue(t) =>
        PassFromContents(env, d, t, ps[1..]);
    }
  }

  /** One pass over a snapshot: it aborts iff some group of the snapshot fails; the lists
      only grow; on normal return the done list gains exactly the finalized groups of the
      snapshot, in order, the queue gains one entry per merge and two per split, and the
      diagonal log one entry per merge or split when logging is on. */
  lemma {:induction false} PassFromAccounts(env: Env, d: real, s: Queues, ps: seq<Group>)
    requires env.measure.Some?
    ensures var r := PassFrom(env, d, s, ps);
      && Grows(s, r.queues)
      && (r.Continue? <==> Count(env, d, ps, Failed) == 0)
      && (r.Continue? ==>
            && r.queues.done == s.done + FinalizedIn(env, d, ps)
            && |r.queues.todo| == |s.todo| + Count(env, d, ps, Merged) + 2 * Count(env, d, ps, Split)
            && |r.queues.dias| == |s.dias|
                 + (if env.store then Count(env, d, ps, Merged) + Count(env, d, ps, Split) else 0))
    decreases |ps|
  {
    if ps != [] {
      GroupStepByFate(env, d, s, ps[0]);
      match GroupStep(env, d, s, ps[0])
      case Abort(t) =>
      case Continue(t) =>
        PassFromAccounts(env, d, t, ps[1..]);
        var r := PassFrom(env, d, t, ps[1..]);
        PrefixTrans(s.todo, t.todo, r.queues.todo);
        PrefixTrans(s.done, t.done, r.queues.done);
        PrefixTrans(s.dias, t.dias, r.queues.dias);
        if r.Continue? {
          assert FinalizedIn(env, d, ps)
              == (if FateOf(env, d, ps[0]) == Finalized then [ps[0]] else []) + FinalizedIn(env, d, ps[1..]);
        }
    }
  }

  lemma PrefixTrans<T>(a: seq<T>, b: seq<T>, c: seq<T>)
    requires IsPrefix(a, b) && IsPrefix(b, c)
    ensures IsPrefix(a, c)
  {
    assert c[..|a|] == c[..|b|][..|a|];
  }

  /** Every group of a snapshot has exactly one fate; a strict pass drops none. */
  lemma {:induction false} FatesPartition(env: Env, d: real, ps: seq<Group>)
    requires env.measure.Some?
    ensures Count(env, d, ps, Finalized) + Count(env, d, ps, Merged) + Count(env, d, ps, Split)
            + Count(env, d, ps, Dropped) + Count(env, d, ps, Failed) == |ps|
    ensures |FinalizedIn(env, d, ps)| == Count(env, d, ps, Finalized)
    ensures env.mode == Strict ==> Count(env, d, ps, Dropped) == 0
    ensures env.mode == Lenient && Count(env, d, ps, Failed) != 0 ==>
              exists i :: 0 <= i < |ps| && env.geo.nextKind(ps[i]) == Hole && env.geo.merge(ps[i]).MergeFailed?
    decreases |ps|
  {
    if ps != [] {
      FatesPartition(env, d, ps[1..]);
      if env.mode == Lenient && Count(env, d, ps, Failed) != 0 {
        if FateOf(env, d, ps[0]) != Failed {
          var i :| 0 <= i < |ps[1..]| && env.geo.nextKind(ps[1..][i]) == Hole && env.geo.merge(ps[1..][i]).MergeFailed?;
          assert ps[i + 1] == ps[1..][i];
        }
      }
    }
  }

  /** A strict pass that returns loses no group of its snapshot: with D groups finalized
      and T groups queued, every one of the n snapshot groups was finalized, merged (one
      entry) or split (two entries), so D <= n <= D + T and T <= 2 (n - D). */
  lemma StrictPassLosesNoGroup(env: Env, d: real, s: Queues)
    requires env.mode == Strict && env.measure.Some?
    requires Pass(env, d, s).Continue?
    ensures var t := Pass(env, d, s).queues;
      && IsPrefix(s.done, t.done)
      && |t.done| - |s.done| <= |s.todo| <= |t.done| - |s.done| + |t.todo|
      && |t.todo| <= 2 * (|s.todo| - (|t.done| - |s.done|))
  {
    PassFromAccounts(env, Clamp(d), s.(todo := []), s.todo);
    FatesPartition(env, Clamp(d), s.todo);
  }

  /** A lenient pass aborts only when a hole merge fails. */
  lemma LenientPassAbortsOnlyOnMerge(env: Env, d: real, s: Queues)
    requires env.mode == Lenient
    requires Pass(env, d, s).Abort?
    ensures exists i :: 0 <= i < |s.todo| && env.geo.nextKind(s.todo[i]) == Hole
                        && env.geo.merge(s.todo[i]).MergeFailed?
  {
    PassFromAccounts(env, Clamp(d), s.(todo := []), s.todo);
    FatesPartition(env, Clamp(d), s.todo);
  }

  /** A pass only processes its snapshot: whatever the queue held, the done list gains
      exactly the snapshot's finalized groups, the new queue holds exactly the groups made
      in this pass (it starts empty), one per merge and two per split, and the log gains
      exactly their diagonals. */
  lemma PassFinalizesSnapshot(env: Env, d: real, s: Queues)
    requires env.measure.Some?
    requires Pass(env, d, s).Continue?
    ensures Pass(env, d, s).queues.done == s.done + FinalizedIn(env, Clamp(d), s.todo)
    ensures Pass(env, d, s).queues.todo == MadeIn(env, Clamp(d), s.todo)
    ensures Pass(env, d, s).queues.dias == s.dias + LoggedIn(env, Clamp(d), s.todo)
    ensures |Pass(env, d, s).queues.todo|
            == Count(env, Clamp(d), s.todo, Merged) + 2 * Count(env, Clamp(d), s.todo, Split)
  {
    PassFromAccounts(env, Clamp(d), s.(todo := []), s.todo);
    PassFromContents(env, Clamp(d), s.(todo := []), s.todo);
  }

  /** decomposeAll runs at least one and at most 100 passes; on normal return the queue
      is empty or all 100 passes ran; a failure escapes before the 100th pass returns;
      the done list and the diagonal log only grow. */
  lemma {:induction false} RunFromBounds(env: Env, d: real, s: Queues, iter: nat)
    requires iter < IterLimit
    ensures var r := RunFrom(env, d, s, iter);
      && iter <= r.passes <= IterLimit
      && (r.step.Continue? ==> iter < r.passes && (r.step.queues.todo == [] || r.passes == IterLimit))
      && (r.step.Abort? ==> r.passes < IterLimit)
      && IsPrefix(s.done, r.step.queues.done) && IsPrefix(s.dias, r.step.queues.dias)
    decreases IterLimit - iter
  {
    PassGrows(env, d, s);
    match Pass(env, d, s)
    case Abort(t) =>
    case Continue(t) =>
      if t.todo != [] && iter + 1 < IterLimit {
        RunFromBounds(env, d, t, iter + 1);
        var r := RunFrom(env, d, t, iter + 1);
        PrefixTrans(s.done, t.done, r.step.queues.done);
        PrefixTrans(s.dias, t.dias, r.step.queues.dias);
      }
  }

  /** A pass keeps the done list and the log it started from. */
  lemma PassGrows(env: Env, d: real, s: Queues)
    ensures IsPrefix(s.done, Pass(env, d, s).queues.done) && IsPrefix(s.dias, Pass(env, d, s).queues.dias)
  {
    if env.measure.Some? {
      PassFromAccounts(env, Clamp(d), s.(todo := []), s.todo);
    }
  }

  /** The whole of decomposeAll: 1..100 passes, ending with an empty queue or at the cap. */
  lemma DecomposeAllBounds(env: Env, d: real, s: Queues)
    ensures var r := DecomposeAllSpec(env, d, s);
      && r.passes <= IterLimit
      && (r.step.Continue? ==> 1 <= r.passes && (r.step.queues.todo == [] || r.passes == IterLimit))
      && IsPrefix(s.done, r.step.queues.done)
  {
    RunFromBounds(env, Clamp(d), s, 0);
  }

  /** A tolerance at or below zero behaves exactly like 1e-20. */
  lemma NonPositiveToleranceIsMinimum(env: Env, d: real, s: Queues)
    requires d <= 0.0
    ensures DecomposeAllSpec(env, d, s) == DecomposeAllSpec(env, MinTolerance, s)
  {
  }

  /** With a null measure decomposeAll runs one pass that discards the queue. */
  lemma NullMeasureDiscardsQueue(env: Env, d: real, s: Queues)
    requires env.measure.None?
    ensures DecomposeAllSpec(env, d, s) == Run(Continue(Queues([], s.done, s.dias)), 1)
  {
  }

  /** A single group whose boundary has no witness comes out unchanged as the one new
      result, with no diagonal, after one pass. */
  lemma ConvexGroupIsKept(env: Env, d: real, g: Group, done: seq<Group>, dias: seq<Diagonal>)
    requires env.measure.Some? && env.geo.nextKind(g) == Boundary && env.measure.value(g).None?
    ensures DecomposeAllSpec(env, d, Queues([g], done, dias)) == Run(Continue(Queues([], done + [g], dias)), 1)
  {
    var t := Queues([], done + [g], dias);
    assert [g][1..] == [];
    assert PassFrom(env, Clamp(d), Queues([], done, dias), [g]) == PassFrom(env, Clamp(d), t, []);
  }

  // ---------------------------------------------------------------------------
  // The driver object

  /** cd_2d: the three lists, the cut blend parameters, the diagonal flag and the measure
      of the current pass. */
  class Decomposer {
    var todo: seq<Group>
    var done: seq<Group>
    var dias: seq<Diagonal>
    var alpha: real
    var beta: real
    var storeDiagonals: bool
    var measure: Option<Measure>

    function State(): Queues
      reads this
    {
      Queues(todo, done, dias)
    }

    function EnvFor(geo: Geometry, mode: Mode): Env
      reads this`measure, this`alpha, this`beta, this`storeDiagonals
    {
      Env(geo, measure, alpha, beta, storeDiagonals, mode)
    }

    constructor (saveDiagonal: bool)
      ensures storeDiagonals == saveDiagonal && alpha == 0.0 && beta == 1.0
      ensures todo == [] && done == [] && dias == []
    {
      storeDiagonals := saveDiagonal;
      alpha, beta := 0.0, 1.0;
      todo, done, dias := [], [], [];
      measure := None;
    }

    /** Queue a copy of a valid group; an invalid one is rejected. */
    method AddPolygon(poly: Group, geo: Geometry)
      modifies this`todo
      ensures todo == if geo.valid(poly) then old(todo) + [geo.copy(poly)] else old(todo)
    {
      if geo.valid(poly) {
        todo := todo + [geo.copy(poly)];
      }
    }

    /** Clear the queue and the result list (the diagonal log is kept). */
    method Destroy()
      modifies this`todo, this`done
      ensures todo == [] && done == []
    {
      todo := [];
      done := [];
    }

    method DecomposeAll(d: real, m: Option<Measure>, geo: Geometry) returns (ok: bool)
      modifies this`todo, this`done, this`dias, this`measure
      ensures measure == m
      ensures var r := DecomposeAllSpec(Env(geo, m, alpha, beta, storeDiagonals, Strict), d, old(State()));
              ok == r.step.Continue? && State() == r.step.queues
    {
      var tol := Clamp(d);
      ghost var env := Env(geo, m, alpha, beta, storeDiagonals, Strict);
      ghost var s0 := State();
      var iter := 0;
      while true
        invariant iter < IterLimit
        invariant RunFrom(env, tol, s0, 0) == RunFrom(env, tol, State(), iter)
        decreases IterLimit - iter
      {
        ghost var pre := State();
        ok := Decompose(tol, m, geo);
        if !ok {
          return;
        }
        iter := iter + 1;
        if todo == [] || iter >= IterLimit {
          assert RunFrom(env, tol, pre, iter - 1) == Run(Continue(State()), iter);
          break;
        }
      }
    }

    method MaybeDecomposeAll(d: real, m: Option<Measure>, geo: Geometry) returns (ok: bool)
      modifies this`todo, this`done, this`dias, this`measure
      ensures measure == m
      ensures var r := DecomposeAllSpec(Env(geo, m, alpha, beta, storeDiagonals, Lenient), d, old(State()));
              ok == r.step.Continue? && State() == r.step.queues
    {
      var tol := Clamp(d);
      ghost var env := Env(geo, m, alpha, beta, storeDiagonals, Lenient);
      ghost var s0 := State();
      var iter := 0;
      while true
        invariant iter < IterLimit
        invariant RunFrom(env, tol, s0, 0) == RunFrom(env, tol, State(), iter)
        decreases IterLimit - iter
      {
        ghost var pre := State();
        ok := MaybeDecompose(tol, m, geo);
        if !ok {
          return;
        }
        iter := iter + 1;
        if todo == [] || iter >= IterLimit {
          assert RunFrom(env, tol, pre, iter - 1) == Run(Continue(State()), iter);
          break;
        }
      }
    }

    /** One strict pass. */
    method Decompose(d: real, m: Option<Measure>, geo: Geometry) returns (ok: bool)
      modifies this`todo, this`done, this`dias, this`measure
      ensures measure == m
      ensures var r := Pass(Env(geo, m, alpha, beta, storeDiagonals, Strict), d, old(State()));
              ok == r.Continue? && State() == r.queues
    {
      var ps := todo;
      todo := [];
      measure := m;
      if m.None? {
        return true;
      }
      var tol := Clamp(d);
      ghost var env := EnvFor(geo, Strict);
      ghost var s0 := State();
      ok := true;
      var i := 0;
      while i < |ps|
        invariant i <= |ps| && measure == m
        invariant PassFrom(env, tol, s0, ps) == PassFrom(env, tol, State(), ps[i..])
      {
        assert ps[i..][1..] == ps[i + 1..];
        ok := DecomposeGroup(tol, ps[i], geo);
        if !ok {
          return;
        }
        i := i + 1;
      }
    }

    /** One lenient pass. */
    method MaybeDecompose(d: real, m: Option<Measure>, geo: Geometry) returns (ok: bool)
      modifies this`todo, this`done, this`dias, this`measure
      ensures measure == m
      ensures var r := Pass(Env(geo, m, alpha, beta, storeDiagonals, Lenient), d, old(State()));
              ok == r.Continue? && State() == r.queues
    {
      var ps := todo;
      todo := [];
      measure := m;
      if m.None? {
        return true;
      }
      var tol := Clamp(d);
      ghost var env := EnvFor(geo, Lenient);
      ghost var s0 := State();
      ok := true;
      var i := 0;
      while i < |ps|
        invariant i <= |ps| && measure == m
        invariant PassFrom(env, tol, s0, ps) == PassFrom(env, tol, State(), ps[i..])
      {
        assert ps[i..][1..] == ps[i + 1..];
        ok := MaybeDecomposeGroup(tol, ps[i], geo);
        if !ok {
          return;
        }
        i := i + 1;
      }
    }

    method DecomposeGroup(d: real, g: Group, geo: Geometry) returns (ok: bool)
      requires measure.Some?
      modifies this`todo, this`done, this`dias
      ensures var r := GroupStep(EnvFor(geo, Strict), d, old(State()), g);
              ok == r.Continue? && State() == r.queues
    {
      if geo.nextKind(g) == Hole {
        ok := DecomposeIn(g, geo);
      } else {
        ok := DecomposeOut(d, g, geo);
      }
    }

    method MaybeDecomposeGroup(d: real, g: Group, geo: Geometry) returns (ok: bool)
      requires measure.Some?
      modifies this`todo, this`done, this`dias
      ensures var r := GroupStep(EnvFor(geo, Lenient), d, old(State()), g);
              ok == r.Continue? && State() == r.queues
    {
      if geo.nextKind(g) == Hole {
        ok := DecomposeIn(g, geo);
      } else {
        ok := MaybeDecomposeOut(d, g, geo);
      }
    }

    method DecomposeOut(d: real, g: Group, geo: Geometry) returns (ok: bool)
      requires measure.Some?
      modifies this`todo, this`done, this`dias
      ensures var r := OutStep(EnvFor(geo, Strict), d, old(State()), g);
              ok == r.Continue? && State() == r.queues
    {
      var r := measure.value(g);
      if r.None? {
        done := done + [g];
        return true;
      }
      if r.value.concavity < d {
        done := done + [g];
        return true;
      }
      match geo.cut(g, r.value, alpha, beta)
      case CutFailed =>
        return false;
      case CutOk(first, second, dia) =>
        if storeDiagonals {
          dias := dias + [dia];
        }
        todo := todo + [first, second];
        return true;
    }

    method MaybeDecomposeOut(d: real, g: Group, geo: Geometry) returns (ok: bool)
      requires measure.Some?
      modifies this`todo, this`done, this`dias
      ensures ok
      ensures State() == OutStep(EnvFor(geo, Lenient), d, old(State()), g).queues
    {
      ok := true;
      var r := measure.value(g);
      if r.None? {
        done := done + [g];
        return;
      }
      if r.value.concavity < d {
        done := done + [g];
        return;
      }
      match geo.cut(g, r.value, alpha, beta)
      case CutFailed =>
        return;
      case CutOk(first, second, dia) =>
        if storeDiagonals {
          dias := dias + [dia];
        }
        todo := todo + [first, second];
    }

    /** decompose_IN: merge the hole and queue the group again. */
    method DecomposeIn(g: Group, geo: Geometry) returns (ok: bool)
      modifies this`todo, this`dias
      ensures var r := InStep(EnvFor(geo, Strict), old(State()), g);
              ok == r.Continue? && State() == r.queues
    {
      match geo.merge(g)
      case MergeFailed =>
        return false;
      case MergeOk(merged, dia) =>
        todo := todo + [merged];
        if storeDiagonals {
          dias := dias + [dia];
        }
        return true;
    }
  }
}
