/** Reporting a resource again after it was deleted. The use case finds the tombstoned resource and sends an
    "updated" event, whose diff is taken against the representation before the delete. */
module Revival {
  import opened Tuples
  import opened Representations
  import opened RelationDiff
  import opened ResourceHistory
  import opened RowSelection
  import opened Pipeline
  import opened Convergence
  import opened Progress

  /** The outbox ends with a delete and a report that brought a common representation. */
  predicate JustRevived(t: Tables) {
    var n := |t.outbox|;
    n >= 2 && t.outbox[n - 2].op.Deleted? && t.outbox[n - 1].commonVersion.Some?
  }

  /** Before the last event the second newest representation was projected, after it the newest one. */
  lemma LastTwo(defs: seq<RelationDef>, key: ReporterResourceKey, t: Tables, x: RelationsTuple)
    requires Ordered(t) && JustRevived(t)
    ensures |t.commons| > 0
    ensures Projected(defs, key, t, |t.outbox|, x) <==> x in LastProjection(defs, key, t)
    ensures Projected(defs, key, t, |t.outbox| - 1, x) <==> x in ProjectionAfter(defs, key, t.commons, |t.commons| - 1)
  {
  }

  /** A tuple has outlived a delete exactly when both hold it. */
  lemma OutlivedIffInBoth(defs: seq<RelationDef>, key: ReporterResourceKey, t: Tables, x: RelationsTuple)
    requires Ordered(t) && JustRevived(t)
    ensures (exists d: nat :: OutlivedADelete(defs, key, t, d, x)) <==>
            Projected(defs, key, t, |t.outbox| - 1, x) && Projected(defs, key, t, |t.outbox|, x)
  {
    var n := |t.outbox|;
    if d: nat :| OutlivedADelete(defs, key, t, d, x) {
      assert d != n - 1;
    }
    if Projected(defs, key, t, n - 1, x) && Projected(defs, key, t, n, x) {
      assert OutlivedADelete(defs, key, t, n - 2, x);
    }
  }

  lemma RevivedOutlives(defs: seq<RelationDef>, key: ReporterResourceKey, t: Tables)
    requires Ordered(t) && JustRevived(t)
    ensures |t.commons| > 0
    ensures (exists d: nat, x :: OutlivedADelete(defs, key, t, d, x)) <==>
            !(LastProjection(defs, key, t) !! ProjectionAfter(defs, key, t.commons, |t.commons| - 1))
  {
    assert |t.commons| > 0;
    var last, before := LastProjection(defs, key, t), ProjectionAfter(defs, key, t.commons, |t.commons| - 1);
    if d: nat, x :| OutlivedADelete(defs, key, t, d, x) {
      LastTwo(defs, key, t, x);
      OutlivedIffInBoth(defs, key, t, x);
      assert x in last && x in before;
    }
    if x :| x in last && x in before {
      LastTwo(defs, key, t, x);
      OutlivedIffInBoth(defs, key, t, x);
    }
  }

  /** After delete and re-report, the converged store is the projection of the new representation exactly when that
      shares no tuple with the projection of the representation before it. */
  lemma RevivalIff(defs: seq<RelationDef>, key: ReporterResourceKey, run: seq<State>, steps: seq<Step>, i: nat)
    requires Unambiguous(defs) && IsRun(defs, key, run, steps) && i < |run| && CaughtUp(run[i])
    requires JustRevived(run[i].tables)
    ensures var t := run[i].tables;
            && |t.commons| > 0
            && (StoreIs(key, run[i], LastProjection(defs, key, t)) <==>
                LastProjection(defs, key, t) !! ProjectionAfter(defs, key, t.commons, |t.commons| - 1))
  {
    EveryStateSettled(defs, key, run, steps, i);
    ConvergesToLastProjectionIff(defs, key, run, steps, i);
    RevivedOutlives(defs, key, run[i].tables);
  }

  const IN_W: Data := map["workspace_id" := Str("w")]

  // The tables after each of three transactions: report in workspace w, delete, report in workspace w again.

  predicate Reported1(t: Tables) {
    && t.commons == map[0 := IN_W] && |t.outbox| == 1 && t.outbox[0].commonVersion == Some(0)
    && t.reporter.Some? && !t.reporter.value.tombstone
  }

  predicate Deleted2(t: Tables) {
    && t.commons == map[0 := IN_W] && |t.outbox| == 2 && t.outbox[0].commonVersion == Some(0) && t.outbox[1].op.Deleted?
  }

  predicate Revived3(t: Tables) {
    && t.commons == map[0 := IN_W, 1 := IN_W] && |t.outbox| == 3
    && t.outbox[0].commonVersion == Some(0) && t.outbox[1].op.Deleted? && t.outbox[2].commonVersion == Some(1)
    && t.reporter.Some? && !t.reporter.value.tombstone
  }

  const AGAIN: Command := Report(None, Some(IN_W))

  lemma FirstTransaction()
    ensures Consistent(After(EMPTY, AGAIN)) && Reported1(After(EMPTY, AGAIN))
  {
  }

  lemma SecondTransaction(t: Tables)
    requires Consistent(t) && Reported1(t)
    ensures Consistent(After(t, Delete)) && Deleted2(After(t, Delete))
  {
    TransactionStep(t, Delete);
    assert After(t, Delete).outbox[0] == t.outbox[0];
  }

  lemma ThirdTransaction(t: Tables)
    requires Consistent(t) && Deleted2(t)
    ensures Consistent(After(t, AGAIN)) && Revived3(After(t, AGAIN))
  {
    assert "workspace_id" in IN_W;
    TransactionStep(t, AGAIN);
    assert After(t, AGAIN).outbox[0] == t.outbox[0] && After(t, AGAIN).outbox[1] == t.outbox[1];
  }

  lemma NotInCleanPass(key: ReporterResourceKey, t: Tables)
    requires Consistent(t) && Revived3(t)
    ensures var x := TupleFor(key, WORKSPACE_DEF, "w");
            && x in LastProjection([WORKSPACE_DEF], key, t) && x !in CleanPass([WORKSPACE_DEF], key, t, 3)
  {
  }

  lemma PrependTransaction(key: ReporterResourceKey, t: Tables, c: Command, run: seq<State>, steps: seq<Step>)
    returns (run': seq<State>, steps': seq<Step>)
    requires IsPath([WORKSPACE_DEF], key, run, steps) && run[0] == State(After(t, c), {}, 0)
             && |t.outbox| < UINT_RANGE - 1
    ensures IsPath([WORKSPACE_DEF], key, run', steps') && run'[0] == State(t, {}, 0)
    ensures steps' == [Transact(c)] + steps && run'[|run'| - 1] == run[|run| - 1]
  {
    PrependStep([WORKSPACE_DEF], key, State(t, {}, 0), Transact(c), run, steps);
    run', steps' := [State(t, {}, 0)] + run, [Transact(c)] + steps;
  }

  lemma ThreeTransactions() returns (t1: Tables, t2: Tables, t3: Tables)
    ensures t1 == After(EMPTY, AGAIN) && t2 == After(t1, Delete) && t3 == After(t2, AGAIN)
    ensures |t1.outbox| == 1 && |t2.outbox| == 2 && Consistent(t3) && Revived3(t3)
  {
    t1 := After(EMPTY, AGAIN);
    FirstTransaction();
    t2 := After(t1, Delete);
    SecondTransaction(t1);
    t3 := After(t2, AGAIN);
    ThirdTransaction(t2);
  }

  lemma Lookups(key: ReporterResourceKey, t: Tables)
    requires Consistent(t) && Revived3(t)
    ensures forall i | 0 <= i < 3 :: FetchFor(t.commons, t.outbox[i]).Some?
  {
  }

  lemma RevivalRun(key: ReporterResourceKey) returns (run: seq<State>, steps: seq<Step>)
    ensures IsRun([WORKSPACE_DEF], key, run, steps) && CaughtUp(run[|run| - 1])
    ensures |steps| >= 3 && steps[..3] == [Transact(AGAIN), Transact(Delete), Transact(AGAIN)]
    ensures Consistent(run[|run| - 1].tables) && Revived3(run[|run| - 1].tables)
  {
    var t1, t2, t3 := ThreeTransactions();
    Lookups(key, t3);
    run, steps := CanCatchUp([WORKSPACE_DEF], key, State(t3, {}, 0));
    run, steps := PrependTransaction(key, t2, AGAIN, run, steps);
    run, steps := PrependTransaction(key, t1, Delete, run, steps);
    run, steps := PrependTransaction(key, EMPTY, AGAIN, run, steps);
  }

  /** Report in workspace w, delete, report in workspace w again: after an undisturbed run the resource is live,
      its last representation is in w, and the store has no workspace tuple for it. */
  lemma RevivedResourceLosesItsTuple(key: ReporterResourceKey) returns (run: seq<State>, steps: seq<Step>)
    ensures IsRun([WORKSPACE_DEF], key, run, steps) && CaughtUp(run[|run| - 1])
    ensures |steps| >= 3 && steps[..3] == [Transact(AGAIN), Transact(Delete), Transact(AGAIN)]
    ensures var s := run[|run| - 1];
            var x := TupleFor(key, WORKSPACE_DEF, "w");
            && s.tables.reporter.Some? && !s.tables.reporter.value.tombstone
            && x in LastProjection([WORKSPACE_DEF], key, s.tables) && x !in s.store
  {
    run, steps := RevivalRun(key);
    ReplayConverges([WORKSPACE_DEF], key, run, steps, |run| - 1);
    NotInCleanPass(key, run[|run| - 1].tables);
  }
}
