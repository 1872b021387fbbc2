/** The pipeline driven by the consumer group: the events of the resource travel in a partition among other messages,
    the partition's holder works through it, and an assignment restarts it at the committed offset. Where that is a
    restart of the pipeline, every run converges; where it is not, a run goes stale. */
module Redelivery {
  import opened Tuples
  import opened Representations
  import opened RelationDiff
  import opened TupleWriter
  import opened ResourceHistory
  import P = Pipeline
  import V = Convergence
  import O = ConsumerOffsets

  datatype Setup = Setup(defs: seq<RelationDef>, key: ReporterResourceKey, partition: nat)

  /** log: the messages of the partition, true for the events of this resource; reached: the offset its holder is at, or
      the last holder was. */
  datatype World = World(tables: Tables, store: set<RelationsTuple>, group: O.Group, log: seq<bool>, reached: nat)

  const INIT := World(EMPTY, {}, O.Group(map[], map[], {}), [], 0)

  datatype Step =
    | Transact(c: Command)
    | Publish(own: bool)            // a message arrives in the partition
    | Outside(store: set<RelationsTuple>)
      // an event of the resource: processing fails after some calls, or succeeds; keep says whether its offset is
      // stored
    | Attempt(m: nat, seen: Tables, t: TuplesToReplicate, calls: nat)
    | Handle(m: nat, seen: Tables, t: TuplesToReplicate, keep: bool)
      // the same for a message of another resource
    | AttemptOther(m: nat, other: ReporterResourceKey, t: TuplesToReplicate, calls: nat)
    | HandleOther(m: nat, other: ReporterResourceKey, t: TuplesToReplicate, keep: bool)
    | Coordinate(step: O.Step)      // anything else the group does

  /** How many of the first messages are events of this resource. */
  function Own(log: seq<bool>, offset: nat): nat
    requires offset <= |log|
  {
    if offset == 0 then 0 else Own(log, offset - 1) + (if log[offset - 1] then 1 else 0)
  }

  /** What the pipeline sees of the world. */
  function View(w: World): P.State
    requires w.reached <= |w.log|
  {
    P.State(w.tables, w.store, Own(w.log, w.reached))
  }

  /** The member is about to process a message of the partition, own or not. That a holder is always at the point
      reached is part of the invariant below. */
  predicate Polls(u: Setup, w: World, m: nat, own: bool) {
    && O.Holds(w.group, m, u.partition) && w.group.members[m].position[u.partition] == w.reached
    && w.reached < |w.log| && w.log[w.reached] == own
  }

  ghost predicate Next(u: Setup, w: World, step: Step, w': World) {
    match step
    case Transact(c) => w' == w.(tables := After(w.tables, c))
    case Publish(own) =>
      Own(w.log, |w.log|) + (if own then 1 else 0) <= |w.tables.outbox| && w' == w.(log := w.log + [own])
    case Outside(store) => (forall x | About(u.key, x) :: x in store <==> x in w.store) && w' == w.(store := store)
    case Attempt(m, seen, t, calls) =>
      && Polls(u, w, m, true) && w' == w.(store := w'.store)
      && P.Next(u.defs, u.key, View(w), P.Attempt(seen, t, calls), View(w'))
    case Handle(m, seen, t, keep) =>
      && Polls(u, w, m, true) && w' == w.(store := w'.store, group := w'.group, reached := w.reached + 1)
      && O.Next(w.group, O.Process(m, u.partition, keep), w'.group)
      && P.Next(u.defs, u.key, View(w), P.Complete(seen, t), View(w'))
    case AttemptOther(m, other, t, calls) =>
      && Polls(u, w, m, false) && WritesAbout(other, t) && calls <= |Writes(t.Creates(), t.Deletes())|
      && w' == w.(store := PerformAll(w.store, Writes(t.Creates(), t.Deletes())[..calls]))
    case HandleOther(m, other, t, keep) =>
      && Polls(u, w, m, false) && WritesAbout(other, t) && O.Next(w.group, O.Process(m, u.partition, keep), w'.group)
      && w' == w.(store := PerformAll(w.store, Writes(t.Creates(), t.Deletes())), group := w'.group,
          reached := w.reached + 1)
    case Coordinate(step) =>
      && !O.Processes(step, u.partition) && O.Exclusive(w.group, step, u.partition) && O.Next(w.group, step, w'.group)
      && w' == w.(group := w'.group,
                  reached := if O.Assigns(step, u.partition) then O.StartOf(w.group, u.partition) else w.reached)
  }

  predicate Restarts(u: Setup, step: Step) {
    step.Coordinate? && O.Assigns(step.step, u.partition)
  }

  // ---------- what every run keeps ----------

  ghost predicate Inv(u: Setup, w: World) {
    && Consistent(w.tables) && w.reached <= |w.log| && Own(w.log, |w.log|) <= |w.tables.outbox|
    && O.HolderAt(w.group, u.partition, w.reached) && O.Within(w.group, u.partition, |w.log|)
  }

  lemma {:induction false} OwnPrefix(log: seq<bool>, more: seq<bool>, offset: nat)
    requires offset <= |log|
    ensures Own(log + more, offset) == Own(log, offset)
  {
    if offset > 0 {
      OwnPrefix(log, more, offset - 1);
    }
  }

  lemma {:induction false} OwnMonotone(log: seq<bool>, a: nat, b: nat)
    requires a <= b <= |log|
    ensures Own(log, a) <= Own(log, b)
    decreases b
  {
    if a < b {
      OwnMonotone(log, a, b - 1);
    }
  }

  /** Not more events below one offset than below another exactly when it is no later, or only other messages lie
      between. */
  lemma {:induction false} OwnLeqIff(log: seq<bool>, a: nat, b: nat)
    requires a <= |log| && b <= |log|
    ensures Own(log, a) <= Own(log, b) <==> a <= b || forall k | b <= k < a :: !log[k]
    decreases a + b
  {
    if a < b {
      OwnLeqIff(log, a, b - 1);
    } else if a > b {
      OwnLeqIff(log, a - 1, b);
      OwnMonotone(log, b, a - 1);
    }
  }

  lemma ProcessKeepsInv(u: Setup, w: World, m: nat, keep: bool, w': World)
    requires Inv(u, w) && O.Holds(w.group, m, u.partition) && w.reached < |w.log|
    requires O.Next(w.group, O.Process(m, u.partition, keep), w'.group)
    requires w'.tables == w.tables && w'.log == w.log && w'.reached == w.reached + 1
    ensures Inv(u, w')
  {
    var step := O.Process(m, u.partition, keep);
    O.StepKeepsHolder(w.group, step, w'.group, u.partition, w.reached);
    O.ProcessKeepsWithin(w.group, step, w'.group, u.partition, |w.log|);
  }

  lemma CoordinateKeepsInv(u: Setup, w: World, step: O.Step, w': World)
    requires Inv(u, w) && Next(u, w, Coordinate(step), w')
    ensures Inv(u, w')
  {
    O.StepKeepsHolder(w.group, step, w'.group, u.partition, w.reached);
    O.StepKeepsWithin(w.group, step, w'.group, u.partition, |w.log|);
  }

  lemma PublishKeepsInv(u: Setup, w: World, own: bool, w': World)
    requires Inv(u, w) && Next(u, w, Publish(own), w')
    ensures Inv(u, w')
  {
    OwnPrefix(w.log, [own], |w.log|);
  }

  lemma StepKeepsInv(u: Setup, w: World, step: Step, w': World)
    requires Inv(u, w) && Next(u, w, step, w') && |w.tables.outbox| < UINT_RANGE - 1
    ensures Inv(u, w')
  {
    match step
    case Transact(c) => V.TransactionGrows(w.tables, c);
    case Publish(own) => PublishKeepsInv(u, w, own, w');
    case Handle(m, _, _, keep) => ProcessKeepsInv(u, w, m, keep, w');
    case HandleOther(m, _, _, keep) => ProcessKeepsInv(u, w, m, keep, w');
    case Coordinate(s) => CoordinateKeepsInv(u, w, s, w');
    case _ =>
  }

  // ---------- the pipeline inside ----------

  /** No event of the resource lies between the point reached and the committed offset ahead of it. */
  ghost predicate SkipsNothing(u: Setup, w: World) {
    var start := O.StartOf(w.group, u.partition);
    start <= w.reached || forall k | w.reached <= k < start && k < |w.log| :: !w.log[k]
  }

  /** A restart at the committed offset is a restart of the pipeline exactly when that offset is not ahead of the point
      reached, or only other resources' messages lie between. */
  lemma RestartIff(u: Setup, w: World, step: Step, w': World)
    requires Inv(u, w) && Next(u, w, step, w') && Restarts(u, step)
    ensures w'.reached <= |w'.log|
    ensures P.Next(u.defs, u.key, View(w), P.Restart(View(w').pos), View(w')) <==> SkipsNothing(u, w)
  {
    CoordinateKeepsInv(u, w, step.step, w');
    OwnLeqIff(w.log, O.StartOf(w.group, u.partition), w.reached);
  }

  predicate OfAnother(step: Step) {
    step.AttemptOther? || step.HandleOther?
  }

  /** A message of a resource with another object, processed or not, is the doing of an outside writer. */
  lemma OtherIsOutside(u: Setup, w: World, step: Step, w': World)
    requires w.reached <= |w.log| && w'.reached <= |w'.log|
    requires Next(u, w, step, w') && OfAnother(step) && ObjectOf(step.other) != ObjectOf(u.key)
    ensures P.Next(u.defs, u.key, View(w), P.Outside(w'.store), View(w'))
  {
    forall x | About(u.key, x) ensures x in w'.store <==> x in w.store {
      OtherObjectUnaffected(step.other, u.key, w.store, step.t, if step.AttemptOther? then step.calls else 0, x);
    }
  }

  /** Every other step is a step of the pipeline, or invisible to it. */
  lemma StepIsPipelineStep(u: Setup, w: World, step: Step, w': World) returns (seen: bool, s: P.Step)
    requires Inv(u, w) && Inv(u, w') && Next(u, w, step, w') && (Restarts(u, step) ==> SkipsNothing(u, w))
    requires OfAnother(step) ==> ObjectOf(step.other) != ObjectOf(u.key)
    ensures if seen then P.Next(u.defs, u.key, View(w), s, View(w')) else View(w') == View(w)
  {
    seen, s := true, P.Restart(0);
    match step
    case Transact(c) => s := P.Transact(c);
    case Outside(store) => s := P.Outside(store);
    case Attempt(_, tables, t, calls) => s := P.Attempt(tables, t, calls);
    case Handle(_, tables, t, _) => s := P.Complete(tables, t);
    case Publish(own) =>
      OwnPrefix(w.log, [own], w.reached);
      seen := false;
    case AttemptOther(m, other, t, calls) =>
      OtherIsOutside(u, w, step, w');
      s := P.Outside(w'.store);
    case HandleOther(m, other, t, keep) =>
      OtherIsOutside(u, w, step, w');
      s := P.Outside(w'.store);
    case Coordinate(_) =>
      if Restarts(u, step) {
        RestartIff(u, w, step, w');
        s := P.Restart(View(w').pos);
      } else {
        seen := false;
      }
  }

  // ---------- convergence ----------

  ghost predicate IsRun(u: Setup, run: seq<World>, steps: seq<Step>) {
    && |run| == |steps| + 1 && run[0] == INIT
    && (forall i | 0 <= i < |run| :: |run[i].tables.outbox| < UINT_RANGE - 1)
    && (forall i | 0 <= i < |steps| :: Next(u, run[i], steps[i], run[i + 1]))
  }

  lemma {:induction false} RunKeepsInv(u: Setup, run: seq<World>, steps: seq<Step>, i: nat)
    requires IsRun(u, run, steps) && i < |run|
    ensures Inv(u, run[i])
  {
    if i > 0 {
      RunKeepsInv(u, run, steps, i - 1);
      StepKeepsInv(u, run[i - 1], steps[i - 1], run[i]);
    }
  }

  /** None of the first n steps restarts beyond an event of the resource. */
  ghost predicate NeverSkips(u: Setup, run: seq<World>, steps: seq<Step>, n: nat)
    requires n <= |steps| < |run|
  {
    forall j | 0 <= j < n && Restarts(u, steps[j]) :: SkipsNothing(u, run[j])
  }

  /** None of the first n steps processes a message of a resource with the same object. */
  ghost predicate NeverShares(u: Setup, steps: seq<Step>, n: nat)
    requires n <= |steps|
  {
    forall j | 0 <= j < n && OfAnother(steps[j]) :: ObjectOf(steps[j].other) != ObjectOf(u.key)
  }

  lemma {:induction false} RunIsPipelineRun(u: Setup, run: seq<World>, steps: seq<Step>, i: nat)
    returns (states: seq<P.State>, moves: seq<P.Step>)
    requires IsRun(u, run, steps) && i < |run| && NeverSkips(u, run, steps, i) && NeverShares(u, steps, i)
    ensures Inv(u, run[i]) && V.IsRun(u.defs, u.key, states, moves) && states[|states| - 1] == View(run[i])
  {
    RunKeepsInv(u, run, steps, i);
    if i == 0 {
      states, moves := [P.INIT], [];
    } else {
      states, moves := RunIsPipelineRun(u, run, steps, i - 1);
      var seen, s := StepIsPipelineStep(u, run[i - 1], steps[i - 1], run[i]);
      if seen {
        V.AppendStep(u.defs, u.key, states, moves, s, View(run[i]));
        states, moves := states + [View(run[i])], moves + [s];
      }
    }
  }

  /** All events of the resource are published and processed. */
  predicate CaughtUp(w: World) {
    w.reached <= |w.log| && Own(w.log, w.reached) == |w.tables.outbox|
  }

  /** Replay convergence for the consumer group, whatever members crash, join, leave and commit: if no restart has gone
      beyond an event, and no other resource has the same object, then whenever the holder has caught up, the store
      holds what a clean pass would have left; that is the projection of the last representation if and only if no tuple
      has outlived a delete; and nothing is stale. */
  lemma GroupConverges(u: Setup, run: seq<World>, steps: seq<Step>, i: nat)
    requires Unambiguous(u.defs) && IsRun(u, run, steps) && i < |run| && CaughtUp(run[i])
    requires NeverSkips(u, run, steps, i) && NeverShares(u, steps, i)
    ensures var w := run[i];
            var s, last := View(w), V.LastProjection(u.defs, u.key, w.tables);
            && V.StoreIs(u.key, s, P.CleanPass(u.defs, u.key, w.tables, |w.tables.outbox|))
            && (V.StoreIs(u.key, s, last) <==> !exists d: nat, x :: V.OutlivedADelete(u.defs, u.key, w.tables, d, x))
            && (forall x | About(u.key, x) && x in w.store :: x in last)
  {
    var states, moves := RunIsPipelineRun(u, run, steps, i);
    var n := |states| - 1;
    V.ReplayConverges(u.defs, u.key, states, moves, n);
    V.ConvergesToLastProjectionIff(u.defs, u.key, states, moves, n);
    forall x | About(u.key, x) && x in run[i].store ensures x in V.LastProjection(u.defs, u.key, run[i].tables) {
      V.NothingStale(u.defs, u.key, states, moves, n, x);
    }
  }

  // ---------- when no restart skips ----------

  /** Every assignment of the partition among the first n steps finds no member remembering an offset beyond its start.
      */
  ghost predicate AllHarmless(u: Setup, run: seq<World>, steps: seq<Step>, n: nat)
    requires n <= |steps| < |run|
  {
    forall j | 0 <= j < n && Restarts(u, steps[j]) :: O.Harmless(run[j].group, u.partition)
  }

  /** Nothing committed or remembered is beyond the point reached. */
  ghost predicate Behind(u: Setup, w: World) {
    O.Within(w.group, u.partition, w.reached)
  }

  lemma StepStaysBehind(u: Setup, w: World, step: Step, w': World)
    requires Inv(u, w) && Next(u, w, step, w') && Behind(u, w)
    requires Restarts(u, step) ==> O.Harmless(w.group, u.partition)
    ensures Behind(u, w')
  {
    var p := u.partition;
    match step
    case Handle(m, _, _, keep) => O.ProcessKeepsWithin(w.group, O.Process(m, p, keep), w'.group, p, w.reached);
    case HandleOther(m, _, _, keep) => O.ProcessKeepsWithin(w.group, O.Process(m, p, keep), w'.group, p, w.reached);
    case Coordinate(s) =>
      if Restarts(u, step) {
        O.AssignWithinIff(w.group, s, w'.group, p);
      } else {
        O.StepKeepsWithin(w.group, s, w'.group, p, w.reached);
      }
    case _ =>
  }

  /** One step of a run, on its own. */
  lemma StepAtStaysBehind(u: Setup, run: seq<World>, steps: seq<Step>, i: nat)
    requires IsRun(u, run, steps) && i < |steps| && Inv(u, run[i]) && Behind(u, run[i])
             && AllHarmless(u, run, steps, i + 1)
    ensures Behind(u, run[i + 1])
  {
    assert Restarts(u, steps[i]) ==> O.Harmless(run[i].group, u.partition);
    StepStaysBehind(u, run[i], steps[i], run[i + 1]);
  }

  lemma {:induction false} HarmlessStaysBehind(u: Setup, run: seq<World>, steps: seq<Step>, i: nat)
    requires IsRun(u, run, steps) && i < |run| && AllHarmless(u, run, steps, i)
    ensures Behind(u, run[i])
  {
    if i > 0 {
      HarmlessStaysBehind(u, run, steps, i - 1);
      RunKeepsInv(u, run, steps, i - 1);
      StepAtStaysBehind(u, run, steps, i - 1);
    }
  }

  /** The condition on the offsets is enough: with harmless assignments no restart is ahead at all. */
  lemma HarmlessNeverSkips(u: Setup, run: seq<World>, steps: seq<Step>, n: nat)
    requires IsRun(u, run, steps) && n <= |steps| && AllHarmless(u, run, steps, n)
    ensures NeverSkips(u, run, steps, n)
  {
    forall j | 0 <= j < n && Restarts(u, steps[j]) ensures SkipsNothing(u, run[j]) {
      HarmlessStaysBehind(u, run, steps, j);
    }
  }
}
