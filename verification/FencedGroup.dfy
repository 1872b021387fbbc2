/** The consumer group without the assumption that a partition has one holder: a member may go on processing after the
    partition was given to another. Every backend call carries the member's lock token, and the fence decides. */
module FencedGroup {
  import opened Tuples
  import opened Representations
  import opened RelationDiff
  import opened TupleWriter
  import opened ResourceHistory
  import P = Pipeline
  import V = Convergence
  import O = ConsumerOffsets
  import F = Fencing
  import R = Redelivery

  datatype Setup = Setup(defs: seq<RelationDef>, key: ReporterResourceKey, partition: nat, lock: string)

  /** tokens: what each member carries since its last assignment; holder: the token stored for the lock; front: the
      offset of the member with that token, or where it last was. */
  datatype World = World(tables: Tables, store: set<RelationsTuple>, group: O.Group, log: seq<bool>,
                         locks: F.Locks, tokens: map<nat, string>, holder: string, front: nat)

  datatype Step =
    | Transact(c: Command)
    | Publish(own: bool)
    | Outside(store: set<RelationsTuple>)
    | Attempt(m: nat, seen: Tables, t: TuplesToReplicate, calls: nat)
    | Handle(m: nat, seen: Tables, t: TuplesToReplicate, keep: bool)
    | HandleOther(m: nat, other: ReporterResourceKey, t: TuplesToReplicate, calls: nat, done: bool, keep: bool)
    | Coordinate(step: O.Step)       // a revoked or assigned member polls again only with a new token
    | Acquire(m: nat, p: nat)        // its acquisition has succeeded
    | FailToAcquire(m: nat)          // it has failed, and the member goes on with an empty token
    | OtherLock(other': F.Step)      // anything else that happens to locks

  /** A member polls a message of the partition. */
  predicate Polls(u: Setup, w: World, m: nat, own: bool) {
    && O.Holds(w.group, m, u.partition) && m in w.tokens
    && var q := w.group.members[m].position[u.partition]; q < |w.log| && w.log[q] == own
  }

  function Offset(u: Setup, w: World, m: nat): nat
    requires O.Holds(w.group, m, u.partition)
  {
    w.group.members[m].position[u.partition]
  }

  /** Calls are refused unless the fence holds for the member's token; no calls, nothing to refuse. */
  ghost predicate Allowed(u: Setup, w: World, m: nat, calls: nat)
    requires m in w.tokens
  {
    calls > 0 ==> F.FenceHolds(w.locks, u.lock, w.tokens[m])
  }

  /** Where the front is after the member has processed a message. */
  function FrontAfter(u: Setup, w: World, m: nat): nat
    requires O.Holds(w.group, m, u.partition) && m in w.tokens
  {
    if w.tokens[m] == w.holder then Offset(u, w, m) + 1 else w.front
  }

  function PosOf(u: Setup, w: World, m: nat): nat
    requires O.Holds(w.group, m, u.partition) && Offset(u, w, m) <= |w.log|
  {
    R.Own(w.log, Offset(u, w, m))
  }

  /** What another resource's message does to the store. */
  ghost predicate OtherWrites(w: World, other: ReporterResourceKey, t: TuplesToReplicate, calls: nat,
                              store: set<RelationsTuple>) {
    && WritesAbout(other, t) && calls <= |Writes(t.Creates(), t.Deletes())|
    && store == PerformAll(w.store, Writes(t.Creates(), t.Deletes())[..calls])
  }

  predicate Reassigns(u: Setup, step: O.Step) {
    (step.Assign? || step.Revoke?) && step.partition == u.partition
  }

  ghost predicate Next(u: Setup, w: World, step: Step, w': World) {
    match step
    case Transact(c) => w' == w.(tables := After(w.tables, c))
    case Publish(own) =>
      R.Own(w.log, |w.log|) + (if own then 1 else 0) <= |w.tables.outbox| && w' == w.(log := w.log + [own])
    case Outside(store) => (forall x | About(u.key, x) :: x in store <==> x in w.store) && w' == w.(store := store)
    case Attempt(m, seen, t, calls) =>
      && Polls(u, w, m, true) && Allowed(u, w, m, calls) && w' == w.(store := w'.store)
      && P.Next(u.defs, u.key, P.State(w.tables, w.store, PosOf(u, w, m)), P.Attempt(seen, t, calls),
                P.State(w.tables, w'.store, PosOf(u, w, m)))
    case Handle(m, seen, t, keep) =>
      && Polls(u, w, m, true) && Allowed(u, w, m, |Writes(t.Creates(), t.Deletes())|)
      && O.Next(w.group, O.Process(m, u.partition, keep), w'.group)
      && w' == w.(store := w'.store, group := w'.group, front := FrontAfter(u, w, m))
      && P.Next(u.defs, u.key, P.State(w.tables, w.store, PosOf(u, w, m)), P.Complete(seen, t),
                P.State(w.tables, w'.store, PosOf(u, w, m) + 1))
    case HandleOther(m, other, t, calls, done, keep) =>
      && Polls(u, w, m, false) && OtherWrites(w, other, t, calls, w'.store)
      && if done then
           && O.Next(w.group, O.Process(m, u.partition, keep), w'.group)
           && w' == w.(store := w'.store, group := w'.group, front := FrontAfter(u, w, m))
         else w' == w.(store := w'.store)
    case Coordinate(s) =>
      && !O.Processes(s, u.partition) && O.Next(w.group, s, w'.group)
      && w' == w.(group := w'.group, tokens := if Reassigns(u, s) then w.tokens - {s.m} else w.tokens)
    case Acquire(m, p) =>
      && O.Holds(w.group, m, u.partition) && p in w.locks.pending && w.locks.pending[p].lock == u.lock
      && F.Next(w.locks, F.Swap(p), w'.locks)
      && var token := w.locks.pending[p].token;
         w' == w.(locks := w'.locks, tokens := w.tokens[m := token], holder := token, front := Offset(u, w, m))
    case FailToAcquire(m) => w' == w.(tokens := w.tokens[m := ""])
    case OtherLock(s) =>
      && (s.Swap? && s.p in w.locks.pending ==> w.locks.pending[s.p].lock != u.lock)
      && F.Next(w.locks, s, w'.locks) && w' == w.(locks := w'.locks)
  }

  // ---------- what every run keeps ----------

  /** No holder of the partition is beyond the log. */
  ghost predicate PositionsUpTo(g: O.Group, p: nat, n: nat) {
    forall m | O.Holds(g, m, p) :: g.members[m].position[p] <= n
  }

  /** Tokens were issued and are not waiting to be stored; the one stored is carried by at most one member, which holds
      the partition at the front or has lost it. */
  ghost predicate TokensInv(u: Setup, w: World) {
    && F.Inv(w.locks) && F.Guarded(w.locks, u.lock, w.holder) && w.holder in w.locks.issued
    && (forall m | m in w.tokens && w.tokens[m] != "" ::
          w.tokens[m] in w.locks.issued && forall p | p in w.locks.pending :: w.locks.pending[p].token != w.tokens[m])
    && (forall m, k | m in w.tokens && k in w.tokens && w.tokens[m] == w.holder == w.tokens[k] :: m == k)
  }

  ghost predicate AtFront(u: Setup, w: World) {
    forall m | m in w.tokens && w.tokens[m] == w.holder && O.Holds(w.group, m, u.partition) ::
        Offset(u, w, m) == w.front
  }

  ghost predicate LogInv(u: Setup, w: World) {
    && Consistent(w.tables) && w.front <= |w.log| && R.Own(w.log, |w.log|) <= |w.tables.outbox|
    && PositionsUpTo(w.group, u.partition, |w.log|) && O.Within(w.group, u.partition, |w.log|)
  }

  ghost predicate Inv(u: Setup, w: World) {
    LogInv(u, w) && TokensInv(u, w) && AtFront(u, w)
  }

  /** A member that holds the partition held it before, at the same offset, unless the step gave it. */
  lemma HeldBefore(g: O.Group, s: O.Step, g': O.Group, p: nat, n: nat)
    requires O.Next(g, s, g') && !O.Processes(s, p) && O.StartOf(g, p) <= n && PositionsUpTo(g, p, n)
    ensures PositionsUpTo(g', p, n)
    ensures forall m | O.Holds(g', m, p) && !(O.Assigns(s, p) && s.m == m) ::
              O.Holds(g, m, p) && g'.members[m].position[p] == g.members[m].position[p]
  {
    forall m | O.Holds(g', m, p) && !(O.Assigns(s, p) && s.m == m)
      ensures O.Holds(g, m, p) && g'.members[m].position[p] == g.members[m].position[p]
    {
    }
  }

  lemma CoordinateKeepsInv(u: Setup, w: World, s: O.Step, w': World)
    requires Inv(u, w) && Next(u, w, Coordinate(s), w')
    ensures Inv(u, w')
  {
    O.StepKeepsWithin(w.group, s, w'.group, u.partition, |w.log|);
    HeldBefore(w.group, s, w'.group, u.partition, |w.log|);
  }

  lemma ProcessKeepsInv(u: Setup, w: World, m: nat, keep: bool, w': World)
    requires Inv(u, w) && O.Holds(w.group, m, u.partition) && m in w.tokens && Offset(u, w, m) < |w.log|
    requires O.Next(w.group, O.Process(m, u.partition, keep), w'.group)
    requires w' == w.(store := w'.store, group := w'.group, front := FrontAfter(u, w, m))
    ensures Inv(u, w')
  {
    var p := u.partition;
    O.ProcessKeepsWithin(w.group, O.Process(m, p, keep), w'.group, p, |w.log|);
    forall k | O.Holds(w'.group, k, p) && k != m ensures O.Holds(w.group, k, p) && Offset(u, w', k) == Offset(u, w, k) {
    }
    assert Offset(u, w', m) == Offset(u, w, m) + 1;
  }

  lemma AcquireKeepsTokens(u: Setup, w: World, m: nat, p: nat, w': World)
    requires TokensInv(u, w) && Next(u, w, Acquire(m, p), w')
    ensures TokensInv(u, w')
  {
    F.StepKeepsInv(w.locks, F.Swap(p), w'.locks);
    F.StepKeepsGuarded(w.locks, F.Swap(p), w'.locks, u.lock, w.holder);
  }

  lemma AcquireKeepsInv(u: Setup, w: World, m: nat, p: nat, w': World)
    requires Inv(u, w) && Next(u, w, Acquire(m, p), w')
    ensures Inv(u, w')
  {
    AcquireKeepsTokens(u, w, m, p, w');
  }

  lemma OtherLockKeepsTokens(u: Setup, w: World, s: F.Step, w': World)
    requires TokensInv(u, w) && Next(u, w, OtherLock(s), w')
    ensures TokensInv(u, w')
  {
    F.StepKeepsInv(w.locks, s, w'.locks);
    F.StepKeepsGuarded(w.locks, s, w'.locks, u.lock, w.holder);
  }

  lemma PublishKeepsInv(u: Setup, w: World, own: bool, w': World)
    requires Inv(u, w) && Next(u, w, Publish(own), w')
    ensures Inv(u, w')
  {
    R.OwnPrefix(w.log, [own], |w.log|);
  }

  lemma TransactKeepsInv(u: Setup, w: World, c: Command, w': World)
    requires Inv(u, w) && Next(u, w, Transact(c), w') && |w.tables.outbox| < UINT_RANGE - 1
    ensures Inv(u, w')
  {
    V.TransactionGrows(w.tables, c);
  }

  lemma StoreKeepsInv(u: Setup, w: World, w': World)
    requires Inv(u, w) && w' == w.(store := w'.store)
    ensures Inv(u, w')
  {
  }

  lemma FailureKeepsInv(u: Setup, w: World, m: nat, w': World)
    requires Inv(u, w) && Next(u, w, FailToAcquire(m), w')
    ensures Inv(u, w')
  {
  }

  lemma StepKeepsInv(u: Setup, w: World, step: Step, w': World)
    requires Inv(u, w) && Next(u, w, step, w') && |w.tables.outbox| < UINT_RANGE - 1
    ensures Inv(u, w')
  {
    match step
    case Transact(c) => TransactKeepsInv(u, w, c, w');
    case Publish(own) => PublishKeepsInv(u, w, own, w');
    case Handle(m, _, _, keep) => ProcessKeepsInv(u, w, m, keep, w');
    case HandleOther(m, _, _, _, done, keep) =>
      if done {
        ProcessKeepsInv(u, w, m, keep, w');
      } else {
        StoreKeepsInv(u, w, w');
      }
    case Coordinate(s) => CoordinateKeepsInv(u, w, s, w');
    case Acquire(m, p) => AcquireKeepsInv(u, w, m, p, w');
    case OtherLock(s) => OtherLockKeepsTokens(u, w, s, w');
    case FailToAcquire(m) => FailureKeepsInv(u, w, m, w');
    case _ => StoreKeepsInv(u, w, w');
  }

  // ---------- the pipeline inside ----------

  /** What the pipeline sees: the events the front has passed. */
  function View(w: World): P.State
    requires w.front <= |w.log|
  {
    P.State(w.tables, w.store, R.Own(w.log, w.front))
  }

  /** No member goes on with an empty token. */
  predicate AllFenced(w: World) {
    forall m | m in w.tokens :: w.tokens[m] != ""
  }

  /** Once the next member has swapped the version, a former holder's calls are refused: only the member whose token is
      stored gets a call through, and it is at the front. */
  lemma OnlyHolderWrites(u: Setup, w: World, m: nat, calls: nat)
    requires Inv(u, w) && AllFenced(w) && u.lock != "" && m in w.tokens && O.Holds(w.group, m, u.partition)
    requires Allowed(u, w, m, calls) && calls > 0
    ensures w.tokens[m] == w.holder && Offset(u, w, m) == w.front
  {
    var v :| v in w.locks.versions && v.lock == u.lock && v.token == w.tokens[m];
    assert v in F.VersionsOf(w.locks, u.lock);
  }

  /** The acquisition does not start beyond an event of the resource that the front has not passed. */
  ghost predicate SkipsNothing(u: Setup, w: World, m: nat)
    requires O.Holds(w.group, m, u.partition)
  {
    Offset(u, w, m) <= w.front || forall k | w.front <= k < Offset(u, w, m) && k < |w.log| :: !w.log[k]
  }

  /** What the theorem needs of a step: acquisitions succeed and skip nothing, and no other resource has the object. */
  ghost predicate Good(u: Setup, w: World, step: Step) {
    && !step.FailToAcquire?
    && (step.Acquire? && O.Holds(w.group, step.m, u.partition) ==> SkipsNothing(u, w, step.m))
    && (step.HandleOther? ==> ObjectOf(step.other) != ObjectOf(u.key))
  }

  lemma AttemptView(u: Setup, w: World, step: Step, w': World)
    requires Inv(u, w) && AllFenced(w) && u.lock != "" && Next(u, w, step, w') && step.Attempt?
    ensures View(w') == View(w) || P.Next(u.defs, u.key, View(w), P.Attempt(step.seen, step.t, step.calls), View(w'))
  {
    if step.calls == 0 {
      assert Writes(step.t.Creates(), step.t.Deletes())[..0] == [];
    } else {
      OnlyHolderWrites(u, w, step.m, step.calls);
    }
  }

  lemma FormerHolderView(u: Setup, w: World, step: Step, w': World)
    requires Inv(u, w) && AllFenced(w) && u.lock != "" && Next(u, w, step, w') && step.Handle?
    requires w.tokens[step.m] != w.holder
    ensures View(w') == View(w)
  {
    var ws := Writes(step.t.Creates(), step.t.Deletes());
    if |ws| > 0 {
      OnlyHolderWrites(u, w, step.m, |ws|);
    }
    assert ws == [];
  }

  lemma HolderView(u: Setup, w: World, step: Step, w': World)
    requires w.front <= |w.log| && AtFront(u, w) && Next(u, w, step, w') && step.Handle?
    requires w.tokens[step.m] == w.holder && w'.front <= |w'.log|
    ensures P.Next(u.defs, u.key, View(w), P.Complete(step.seen, step.t), View(w'))
  {
    assert Offset(u, w, step.m) == w.front;
  }

  lemma OtherView(u: Setup, w: World, step: Step, w': World)
    requires w.front <= |w.log| && AtFront(u, w) && Next(u, w, step, w') && step.HandleOther? && Good(u, w, step)
    requires w'.front <= |w'.log|
    ensures P.Next(u.defs, u.key, View(w), P.Outside(w'.store), View(w'))
  {
    forall x | About(u.key, x) ensures x in w'.store <==> x in w.store {
      OtherObjectUnaffected(step.other, u.key, w.store, step.t, step.calls, x);
    }
  }

  /** Acquiring is restarting the pipeline at the member's offset, exactly when that skips nothing. */
  lemma AcquireIff(u: Setup, w: World, step: Step, w': World)
    requires Inv(u, w) && Next(u, w, step, w') && step.Acquire?
    ensures w'.front <= |w'.log|
    ensures P.Next(u.defs, u.key, View(w), P.Restart(View(w').pos), View(w')) <==> SkipsNothing(u, w, step.m)
  {
    R.OwnLeqIff(w.log, Offset(u, w, step.m), w.front);
  }

  lemma StepIsPipelineStep(u: Setup, w: World, step: Step, w': World) returns (seen: bool, s: P.Step)
    requires Inv(u, w) && Inv(u, w') && AllFenced(w) && u.lock != "" && Next(u, w, step, w') && Good(u, w, step)
    ensures if seen then P.Next(u.defs, u.key, View(w), s, View(w')) else View(w') == View(w)
  {
    seen, s := false, P.Restart(0);
    match step
    case Transact(c) => seen, s := true, P.Transact(c);
    case Outside(store) => seen, s := true, P.Outside(store);
    case Attempt(_, tables, t, calls) =>
      AttemptView(u, w, step, w');
      seen, s := View(w') != View(w), P.Attempt(tables, t, calls);
    case Handle(m, tables, t, _) =>
      if w.tokens[m] == w.holder {
        HolderView(u, w, step, w');
        seen, s := true, P.Complete(tables, t);
      } else {
        FormerHolderView(u, w, step, w');
      }
    case HandleOther(_, _, _, _, _, _) =>
      OtherView(u, w, step, w');
      seen, s := true, P.Outside(w'.store);
    case Publish(own) => R.OwnPrefix(w.log, [own], w.front);
    case Acquire(m, p) =>
      AcquireIff(u, w, step, w');
      seen, s := true, P.Restart(View(w').pos);
    case _ =>
  }

  // ---------- convergence without exclusivity ----------

  /** Nothing has happened yet, and the lock has one version and no acquirer with an empty read. */
  ghost predicate Initial(u: Setup, w: World) {
    && w == World(EMPTY, {}, O.Group(map[], map[], {}), [], w.locks, map[], w.holder, 0)
    && TokensInv(u, w) && u.lock != ""
  }

  ghost predicate IsPath(u: Setup, run: seq<World>, steps: seq<Step>) {
    && |run| == |steps| + 1
    && (forall i | 0 <= i < |run| :: |run[i].tables.outbox| < UINT_RANGE - 1)
    && (forall i | 0 <= i < |steps| :: Next(u, run[i], steps[i], run[i + 1]))
  }

  ghost predicate IsRun(u: Setup, run: seq<World>, steps: seq<Step>) {
    IsPath(u, run, steps) && Initial(u, run[0])
  }

  lemma InitialInv(u: Setup, w: World)
    requires Initial(u, w)
    ensures Inv(u, w)
  {
  }

  lemma StepAtKeepsInv(u: Setup, run: seq<World>, steps: seq<Step>, i: nat)
    requires IsPath(u, run, steps) && i < |steps| && Inv(u, run[i])
    ensures Inv(u, run[i + 1])
  {
    StepKeepsInv(u, run[i], steps[i], run[i + 1]);
  }

  lemma {:induction false} PathKeepsInv(u: Setup, run: seq<World>, steps: seq<Step>, i: nat)
    requires IsPath(u, run, steps) && Inv(u, run[0]) && i < |run|
    ensures Inv(u, run[i])
  {
    if i > 0 {
      PathKeepsInv(u, run, steps, i - 1);
      StepAtKeepsInv(u, run, steps, i - 1);
    }
  }

  lemma RunKeepsInv(u: Setup, run: seq<World>, steps: seq<Step>, i: nat)
    requires IsRun(u, run, steps) && i < |run|
    ensures Inv(u, run[i])
  {
    InitialInv(u, run[0]);
    PathKeepsInv(u, run, steps, i);
  }

  ghost predicate AllGood(u: Setup, run: seq<World>, steps: seq<Step>, n: nat)
    requires n <= |steps| < |run|
  {
    forall j | 0 <= j < n :: Good(u, run[j], steps[j])
  }

  lemma StepKeepsFenced(u: Setup, w: World, step: Step, w': World)
    requires Inv(u, w) && AllFenced(w) && Next(u, w, step, w') && Good(u, w, step)
    ensures AllFenced(w')
  {
  }

  lemma {:induction false} RunIsPipelineRun(u: Setup, run: seq<World>, steps: seq<Step>, i: nat)
    returns (states: seq<P.State>, moves: seq<P.Step>)
    requires IsRun(u, run, steps) && i < |run| && AllGood(u, run, steps, i)
    ensures Inv(u, run[i]) && AllFenced(run[i])
    ensures V.IsRun(u.defs, u.key, states, moves) && states[|states| - 1] == View(run[i])
  {
    RunKeepsInv(u, run, steps, i);
    if i == 0 {
      states, moves := [P.INIT], [];
    } else {
      states, moves := RunIsPipelineRun(u, run, steps, i - 1);
      StepKeepsFenced(u, run[i - 1], steps[i - 1], run[i]);
      var seen, s := StepIsPipelineStep(u, run[i - 1], steps[i - 1], run[i]);
      if seen {
        V.AppendStep(u.defs, u.key, states, moves, s, View(run[i]));
        states, moves := states + [View(run[i])], moves + [s];
      }
    }
  }

  predicate CaughtUp(w: World) {
    w.front <= |w.log| && R.Own(w.log, w.front) == |w.tables.outbox|
  }

  /** Whoever else still believes to hold the partition: as long as acquisitions succeed and skip nothing, and no other
      resource has the object, a store is one clean pass once the member with the stored token has caught up, is the
      last projection if and only if no tuple has outlived a delete, and holds nothing stale. */
  lemma FencedConverges(u: Setup, run: seq<World>, steps: seq<Step>, i: nat)
    requires Unambiguous(u.defs) && IsRun(u, run, steps) && i < |run| && CaughtUp(run[i]) && AllGood(u, run, steps, i)
    ensures var w := run[i];
            var s, last := View(w), V.LastProjection(u.defs, u.key, w.tables);
            && V.StoreIs(u.key, s, P.CleanPass(u.defs, u.key, w.tables, |w.tables.outbox|))
            && (V.StoreIs(u.key, s, last) <==> !exists d: nat, x :: V.OutlivedADelete(u.defs, u.key, w.tables, d, x))
            && (forall x | About(u.key, x) && x in w.store :: x in last)
  {
    var states, moves := RunIsPipelineRun(u, run, steps, i);
    var n := |states| - 1;
    V.ReplayConverges(u.defs, u.key, states, moves, n);
    V.ConvergesToLastProjectionIff(u.defs, u.key, states, moves, n);
    forall x | About(u.key, x) && x in run[i].store ensures x in V.LastProjection(u.defs, u.key, run[i].tables) {
      V.NothingStale(u.defs, u.key, states, moves, n, x);
    }
  }
}
