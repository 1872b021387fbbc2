/** Several resources, each with its own tables and its own place in its own outbox, replicated into one store. A tuple
    names its object without the reporter instance, so resources whose keys differ in nothing else write the same
    tuples. */
module SharedStore {
  import opened Tuples
  import opened Representations
  import opened RelationDiff
  import opened TupleWriter
  import opened ResourceHistory
  import opened RowSelection
  import opened Progress
  import P = Pipeline
  import V = Convergence

  /** The relation definitions of each resource type. */
  type Schema = string -> seq<RelationDef>

  datatype Replica = Replica(tables: Tables, pos: nat)

  datatype Fleet = Fleet(store: set<RelationsTuple>, replicas: map<ReporterResourceKey, Replica>)

  datatype Step =
    | Of(key: ReporterResourceKey, step: P.Step)   // one of the resources
    | Foreign(store: set<RelationsTuple>)          // writers of tuples about none of them

  function DefsOf(schema: Schema, key: ReporterResourceKey): seq<RelationDef> {
    schema(key.resourceType)
  }

  function Init(keys: set<ReporterResourceKey>): Fleet {
    Fleet({}, map k | k in keys :: Replica(EMPTY, 0))
  }

  /** What the pipeline of one resource sees. */
  function View(f: Fleet, key: ReporterResourceKey): P.State
    requires key in f.replicas
  {
    P.State(f.replicas[key].tables, f.store, f.replicas[key].pos)
  }

  ghost predicate Next(schema: Schema, f: Fleet, step: Step, f': Fleet) {
    match step
    case Of(key, s) =>
      && key in f.replicas && !s.Outside? && f'.replicas.Keys == f.replicas.Keys
      && (forall k | k in f.replicas && k != key :: f'.replicas[k] == f.replicas[k])
      && P.Next(DefsOf(schema, key), key, View(f, key), s, View(f', key))
    case Foreign(store) =>
      && (forall k, x | k in f.replicas && About(k, x) :: x in store <==> x in f.store) && f' == f.(store := store)
  }

  ghost predicate IsRun(schema: Schema, keys: set<ReporterResourceKey>, run: seq<Fleet>, steps: seq<Step>) {
    && |run| == |steps| + 1 && run[0] == Init(keys)
    && (forall i, k | 0 <= i < |run| && k in run[i].replicas :: |run[i].replicas[k].tables.outbox| < UINT_RANGE - 1)
    && (forall i | 0 <= i < |steps| :: Next(schema, run[i], steps[i], run[i + 1]))
  }

  lemma StepKeepsKeys(schema: Schema, f: Fleet, step: Step, f': Fleet)
    requires Next(schema, f, step, f')
    ensures f'.replicas.Keys == f.replicas.Keys
  {
  }

  lemma {:induction false} RunKeepsKeys(schema: Schema, keys: set<ReporterResourceKey>, run: seq<Fleet>,
                                        steps: seq<Step>,
                                        i: nat)
    requires IsRun(schema, keys, run, steps) && i < |run|
    ensures run[i].replicas.Keys == keys
  {
    if i > 0 {
      RunKeepsKeys(schema, keys, run, steps, i - 1);
      StepKeepsKeys(schema, run[i - 1], steps[i - 1], run[i]);
    }
  }

  // ---------- resources that do not meet ----------

  /** Two keys write the same tuples exactly when they agree in everything but the reporter instance. */
  lemma SameObjectIff(a: ReporterResourceKey, b: ReporterResourceKey)
    ensures ObjectOf(a) == ObjectOf(b) <==> a == b.(reporterInstanceId := a.reporterInstanceId)
  {
  }

  /** Different resources that write any tuples have different objects. */
  ghost predicate Separate(schema: Schema, keys: set<ReporterResourceKey>) {
    forall a, b | a in keys && b in keys && a != b && DefsOf(schema, a) != [] :: ObjectOf(a) != ObjectOf(b)
  }

  /** What another resource writes, all of it or a part, leaves the tuples about this one alone. */
  lemma OthersWrites(defs: seq<RelationDef>, other: ReporterResourceKey, key: ReporterResourceKey, f: P.State,
                     seen: Tables,
                     t: TuplesToReplicate, calls: nat, x: RelationsTuple)
    requires P.DiffFor(defs, other, seen, f.pos, t) && calls <= |Writes(t.Creates(), t.Deletes())|
    requires ObjectOf(other) != ObjectOf(key) || defs == []
    requires About(key, x)
    ensures x in PerformAll(f.store, Writes(t.Creates(), t.Deletes())[..calls]) <==> x in f.store
    ensures x in PerformAll(f.store, Writes(t.Creates(), t.Deletes())) <==> x in f.store
  {
    if defs == [] {
      assert Writes(t.Creates(), t.Deletes()) == [];
    } else {
      OtherObjectUnaffected(other, key, f.store, t, calls, x);
    }
  }

  /** A step of another resource is, for this one, the doing of an outside writer. */
  lemma OtherIsOutside(schema: Schema, f: Fleet, other: ReporterResourceKey, step: P.Step, f': Fleet,
                       key: ReporterResourceKey)
    requires Next(schema, f, Of(other, step), f') && key in f.replicas && key != other
    requires ObjectOf(other) != ObjectOf(key) || DefsOf(schema, other) == []
    ensures P.Next(DefsOf(schema, key), key, View(f, key), P.Outside(f'.store), View(f', key))
  {
    forall x | About(key, x) ensures x in f'.store <==> x in f.store {
      if step.Attempt? {
        OthersWrites(DefsOf(schema, other), other, key, View(f, other), step.seen, step.t, step.calls, x);
      } else if step.Complete? {
        OthersWrites(DefsOf(schema, other), other, key, View(f, other), step.seen, step.t, 0, x);
      }
    }
  }

  lemma StepIsPipelineStep(schema: Schema, f: Fleet, step: Step, f': Fleet, key: ReporterResourceKey)
    returns (s: P.Step)
    requires Next(schema, f, step, f') && key in f.replicas && Separate(schema, f.replicas.Keys)
    ensures P.Next(DefsOf(schema, key), key, View(f, key), s, View(f', key))
  {
    match step
    case Of(k, own) =>
      if k == key {
        s := own;
      } else {
        s := P.Outside(f'.store);
        OtherIsOutside(schema, f, k, own, f', key);
      }
    case Foreign(store) => s := P.Outside(store);
  }

  lemma {:induction false} RunIsPipelineRun(schema: Schema, keys: set<ReporterResourceKey>, run: seq<Fleet>,
                                            steps: seq<Step>,
                                            i: nat, key: ReporterResourceKey)
    returns (states: seq<P.State>, moves: seq<P.Step>)
    requires IsRun(schema, keys, run, steps) && i < |run| && key in keys && Separate(schema, keys)
    ensures run[i].replicas.Keys == keys
    ensures V.IsRun(DefsOf(schema, key), key, states, moves) && states[|states| - 1] == View(run[i], key)
  {
    RunKeepsKeys(schema, keys, run, steps, i);
    if i == 0 {
      states, moves := [P.INIT], [];
    } else {
      states, moves := RunIsPipelineRun(schema, keys, run, steps, i - 1, key);
      var s := StepIsPipelineStep(schema, run[i - 1], steps[i - 1], run[i], key);
      V.AppendStep(DefsOf(schema, key), key, states, moves, s, View(run[i], key));
      states, moves := states + [View(run[i], key)], moves + [s];
    }
  }

  /** The store holds for the resource what a clean pass over its outbox leaves. */
  ghost predicate IsClean(schema: Schema, f: Fleet, key: ReporterResourceKey)
    requires key in f.replicas
  {
    var t := f.replicas[key].tables;
    V.StoreIs(key, View(f, key), P.CleanPass(DefsOf(schema, key), key, t, |t.outbox|))
  }

  predicate CaughtUp(f: Fleet, key: ReporterResourceKey) {
    key in f.replicas && V.CaughtUp(View(f, key))
  }

  /** Every interleaving converges for each resource, when they are separate; the store then is the last projection of
      each that has no tuple outlive a delete, and holds nothing stale about any. */
  lemma FleetConverges(schema: Schema, keys: set<ReporterResourceKey>, run: seq<Fleet>, steps: seq<Step>, i: nat,
                       key: ReporterResourceKey)
    requires IsRun(schema, keys, run, steps) && i < |run| && key in keys && Separate(schema, keys)
    requires Unambiguous(DefsOf(schema, key)) && CaughtUp(run[i], key)
    ensures IsClean(schema, run[i], key)
    ensures var defs, t := DefsOf(schema, key), run[i].replicas[key].tables;
            && (V.StoreIs(key, View(run[i], key), V.LastProjection(defs, key, t)) <==>
                !exists d: nat, x :: V.OutlivedADelete(defs, key, t, d, x))
            && (forall x | About(key, x) && x in run[i].store :: x in V.LastProjection(defs, key, t))
  {
    var defs := DefsOf(schema, key);
    var states, moves := RunIsPipelineRun(schema, keys, run, steps, i, key);
    var n := |states| - 1;
    V.ReplayConverges(defs, key, states, moves, n);
    V.ConvergesToLastProjectionIff(defs, key, states, moves, n);
    forall x | About(key, x) && x in run[i].store
      ensures x in V.LastProjection(defs, key, run[i].replicas[key].tables) {
      V.NothingStale(defs, key, states, moves, n, x);
    }
  }

  // ---------- resources that do ----------

  function Last(run: seq<Fleet>): Fleet
    requires run != []
  {
    run[|run| - 1]
  }

  function Moved(f: Fleet, key: ReporterResourceKey, s: P.State): Fleet {
    Fleet(s.store, f.replicas[key := Replica(s.tables, s.pos)])
  }

  lemma ExtendRun(schema: Schema, keys: set<ReporterResourceKey>, run: seq<Fleet>, steps: seq<Step>, step: Step,
                  f': Fleet)
    requires IsRun(schema, keys, run, steps) && Next(schema, Last(run), step, f')
    requires forall k | k in f'.replicas :: |f'.replicas[k].tables.outbox| < UINT_RANGE - 1
    ensures IsRun(schema, keys, run + [f'], steps + [step])
  {
    var run', steps' := run + [f'], steps + [step];
    forall i | 0 <= i < |steps'| ensures Next(schema, run'[i], steps'[i], run'[i + 1]) {
      if i < |steps| {
        assert run'[i] == run[i] && steps'[i] == steps[i] && run'[i + 1] == run[i + 1];
      }
    }
  }

  /** One resource moves on, in a run of all. */
  lemma MoveOf(schema: Schema, keys: set<ReporterResourceKey>, run: seq<Fleet>, steps: seq<Step>,
               key: ReporterResourceKey,
               step: P.Step, s': P.State) returns (run': seq<Fleet>, steps': seq<Step>)
    requires IsRun(schema, keys, run, steps) && key in Last(run).replicas && !step.Outside?
    requires P.Next(DefsOf(schema, key), key, View(Last(run), key), step, s') && |s'.tables.outbox| < UINT_RANGE - 1
    ensures IsRun(schema, keys, run', steps') && Last(run') == Moved(Last(run), key, s')
  {
    var f' := Moved(Last(run), key, s');
    ExtendRun(schema, keys, run, steps, Of(key, step), f');
    run', steps' := run + [f'], steps + [Of(key, step)];
  }

  /** What an event decides about a tuple. */
  ghost predicate Decides(defs: seq<RelationDef>, key: ReporterResourceKey, r: Replica, x: RelationsTuple,
                          was: bool, now: bool)
    requires r.pos < |r.tables.outbox|
  {
    var before, after := P.Projected(defs, key, r.tables, r.pos, x), P.Projected(defs, key, r.tables, r.pos + 1, x);
    if r.tables.outbox[r.pos].op.Deleted? then now <==> was && !P.Projected(defs, key, r.tables, |r.tables.outbox|, x)
    else if before == after then now == was
    else now == after
  }

  /** The event at the resource's place, carried out. */
  lemma CompleteOf(schema: Schema, keys: set<ReporterResourceKey>, run: seq<Fleet>, steps: seq<Step>,
                   key: ReporterResourceKey,
                   x: RelationsTuple)
    returns (run': seq<Fleet>, steps': seq<Step>)
    requires IsRun(schema, keys, run, steps) && key in Last(run).replicas && Unambiguous(DefsOf(schema, key))
             && About(key, x)
    requires var r := Last(run).replicas[key];
             && Consistent(r.tables) && r.pos < |r.tables.outbox| < UINT_RANGE - 1
             && FetchFor(r.tables.commons, r.tables.outbox[r.pos]).Some?
    ensures IsRun(schema, keys, run', steps')
    ensures var r := Last(run).replicas[key];
            && Last(run').replicas == Last(run).replicas[key := r.(pos := r.pos + 1)]
            && Decides(DefsOf(schema, key), key, r, x, x in Last(run).store, x in Last(run').store)
  {
    var defs, s := DefsOf(schema, key), View(Last(run), key);
    var t, s' := OneMore(defs, key, s);
    run', steps' := MoveOf(schema, keys, run, steps, key, P.Complete(s.tables, t), s');
    if s.tables.outbox[s.pos].op.Deleted? {
      P.DeleteEffect(defs, key, s, s.tables, t, 0, x);
    } else {
      P.ReportEffect(defs, key, s, s.tables, t, 0, x);
    }
  }

  function Value(d: RelationDef): Data { map[d.fieldName := Holding(d)] }

  function ReportOf(d: RelationDef): Command { Report(None, Some(Value(d))) }

  /** The tables after the first report, which the tuple is projected from. */
  ghost predicate IsReported(defs: seq<RelationDef>, d: RelationDef, key: ReporterResourceKey, t: Tables) {
    && Consistent(t) && t.commons == map[0 := Value(d)] && |t.outbox| == 1 && t.outbox[0].commonVersion == Some(0)
    && t.outbox[0].op.Created? && t.reporter.Some? && !t.reporter.value.tombstone
    && !P.Projected(defs, key, t, 0, TupleFor(key, d, "x")) && P.Projected(defs, key, t, 1, TupleFor(key, d, "x"))
  }

  lemma ValueIsProjected(defs: seq<RelationDef>, d: RelationDef, key: ReporterResourceKey, commons: map<nat, Data>)
    requires d in defs && commons == map[0 := Value(d)]
    ensures TupleFor(key, d, "x") in P.ProjectionAfter(defs, key, commons, 1)
  {
    var r := RepresentationAt(commons, 0);
    assert 0 in commons && d.fieldName in Value(d);
    ValuesMeaning(d, r, "x");
    assert d.multiValued ==> Str("x") in Holding(d).items;
    assert "x" in Values(d, r);
  }

  lemma Reported(defs: seq<RelationDef>, d: RelationDef, key: ReporterResourceKey)
    requires d in defs
    ensures IsReported(defs, d, key, After(EMPTY, ReportOf(d)))
  {
    var t := After(EMPTY, ReportOf(d));
    assert d.fieldName in Value(d);
    TransactionStep(EMPTY, ReportOf(d));
    ValueIsProjected(defs, d, key, t.commons);
    assert Numbered(t.outbox, 1) == 1;
  }

  lemma ReportedThenDeleted(defs: seq<RelationDef>, d: RelationDef, key: ReporterResourceKey, t: Tables)
    requires d in defs && IsReported(defs, d, key, t)
    ensures var t' := After(t, Delete);
            && Consistent(t') && |t'.outbox| == 2 && t'.outbox[1].op.Deleted?
              && FetchFor(t'.commons, t'.outbox[1]).Some?
            && P.Projected(defs, key, t', 2, TupleFor(key, d, "x"))
  {
    var t' := After(t, Delete);
    TransactionStep(t, Delete);
    assert t'.outbox[0] == t.outbox[0] && Numbered(t'.outbox, 1) == 1 && Numbered(t'.outbox, 2) == 1;
    ValueIsProjected(defs, d, key, t'.commons);
    assert 0 in t'.commons;
    DeleteLookup(t', t'.outbox[1]);
  }

  /** Two resources of the fleet that differ in the reporter instance only, with a relation definition. */
  ghost predicate Twins(schema: Schema, keys: set<ReporterResourceKey>, a: ReporterResourceKey, b: ReporterResourceKey,
                        d: RelationDef)
  {
    && a in keys && b in keys && a != b && ObjectOf(a) == ObjectOf(b) && d in DefsOf(schema, a)
    && Unambiguous(DefsOf(schema, a))
  }

  /** One of the resources is reported for the first time and replicated, which brings the tuple. */
  lemma ReportAndReplicate(schema: Schema, keys: set<ReporterResourceKey>, run: seq<Fleet>, steps: seq<Step>,
                           key: ReporterResourceKey, d: RelationDef)
    returns (run': seq<Fleet>, steps': seq<Step>)
    requires IsRun(schema, keys, run, steps) && key in Last(run).replicas
             && Last(run).replicas[key] == Replica(EMPTY, 0)
    requires d in DefsOf(schema, key) && Unambiguous(DefsOf(schema, key))
    ensures IsRun(schema, keys, run', steps') && TupleFor(key, d, "x") in Last(run').store
    ensures Last(run').replicas == Last(run).replicas[key := Replica(After(EMPTY, ReportOf(d)), 1)]
  {
    var t := After(EMPTY, ReportOf(d));
    Reported(DefsOf(schema, key), d, key);
    run', steps' := MoveOf(schema, keys, run, steps, key, P.Transact(ReportOf(d)), P.State(t, Last(run).store, 0));
    run', steps' := CompleteOf(schema, keys, run', steps', key, TupleFor(key, d, "x"));
  }

  lemma ReplicateDelete(schema: Schema, keys: set<ReporterResourceKey>, run: seq<Fleet>, steps: seq<Step>,
                        key: ReporterResourceKey, t: Tables, x: RelationsTuple)
    returns (run': seq<Fleet>, steps': seq<Step>)
    requires IsRun(schema, keys, run, steps) && Unambiguous(DefsOf(schema, key)) && About(key, x)
    requires key in Last(run).replicas && Last(run).replicas[key] == Replica(t, 1)
    requires Consistent(t) && |t.outbox| == 2 && t.outbox[1].op.Deleted? && FetchFor(t.commons, t.outbox[1]).Some?
    requires P.Projected(DefsOf(schema, key), key, t, 2, x)
    ensures IsRun(schema, keys, run', steps') && x !in Last(run').store
    ensures forall k | k in Last(run).replicas && k != key ::
              k in Last(run').replicas && Last(run').replicas[k] == Last(run).replicas[k]
  {
    run', steps' := CompleteOf(schema, keys, run, steps, key, x);
  }

  /** It is deleted, and that is replicated, which takes the tuple away. */
  lemma DeleteAndReplicate(schema: Schema, keys: set<ReporterResourceKey>, run: seq<Fleet>, steps: seq<Step>,
                           key: ReporterResourceKey, d: RelationDef, t: Tables)
    returns (run': seq<Fleet>, steps': seq<Step>)
    requires IsRun(schema, keys, run, steps) && d in DefsOf(schema, key) && Unambiguous(DefsOf(schema, key))
    requires key in Last(run).replicas && Last(run).replicas[key] == Replica(t, 1)
             && IsReported(DefsOf(schema, key), d, key, t)
    ensures IsRun(schema, keys, run', steps') && TupleFor(key, d, "x") !in Last(run').store
    ensures forall k | k in Last(run).replicas && k != key ::
              k in Last(run').replicas && Last(run').replicas[k] == Last(run).replicas[k]
  {
    var t' := After(t, Delete);
    ReportedThenDeleted(DefsOf(schema, key), d, key, t);
    run', steps' := MoveOf(schema, keys, run, steps, key, P.Transact(Delete), P.State(t', Last(run).store, 1));
    run', steps' := ReplicateDelete(schema, keys, run', steps', key, t', TupleFor(key, d, "x"));
  }

  /** Both are reported with the same value and one of them is deleted: the other is caught up and was never deleted,
      and its tuple is gone. */
  lemma TwinLosesTuple(schema: Schema, keys: set<ReporterResourceKey>, a: ReporterResourceKey, b: ReporterResourceKey,
                       d: RelationDef) returns (run: seq<Fleet>, steps: seq<Step>)
    requires Twins(schema, keys, a, b, d)
    ensures IsRun(schema, keys, run, steps) && CaughtUp(Last(run), a)
    ensures var t := Last(run).replicas[a].tables;
            && Consistent(t) && P.NoDelete(t, 0) && t.reporter.Some? && !t.reporter.value.tombstone
            && TupleFor(a, d, "x") in V.LastProjection(DefsOf(schema, a), a, t)
              && TupleFor(a, d, "x") !in Last(run).store
  {
    Reported(DefsOf(schema, a), d, a);
    Reported(DefsOf(schema, b), d, b);
    run, steps := [Init(keys)], [];
    run, steps := ReportAndReplicate(schema, keys, run, steps, a, d);
    run, steps := ReportAndReplicate(schema, keys, run, steps, b, d);
    run, steps := DeleteAndReplicate(schema, keys, run, steps, b, d, After(EMPTY, ReportOf(d)));
  }

  ghost predicate AlwaysClean(schema: Schema, keys: set<ReporterResourceKey>) {
    forall run: seq<Fleet>, steps, i: nat, key |
      IsRun(schema, keys, run, steps) && i < |run| && CaughtUp(run[i], key) ::
      IsClean(schema, run[i], key)
  }

  lemma TwinsAreNotClean(schema: Schema, keys: set<ReporterResourceKey>, a: ReporterResourceKey, b: ReporterResourceKey,
                         d: RelationDef)
    requires Twins(schema, keys, a, b, d)
    ensures !AlwaysClean(schema, keys)
  {
    var run, steps := TwinLosesTuple(schema, keys, a, b, d);
    var f, x, t := Last(run), TupleFor(a, d, "x"), Last(run).replicas[a].tables;
    V.CleanPassMembers(DefsOf(schema, a), a, t, |t.outbox|, x);
    assert !IsClean(schema, run[|run| - 1], a);
  }

  /** Every interleaving of the resources' transactions, attempts, completions, redeliveries and restarts converges for
      each of them, if and only if no two that write tuples differ in the reporter instance only. */
  lemma FleetConvergesIff(schema: Schema, keys: set<ReporterResourceKey>)
    requires forall k | k in keys :: Unambiguous(DefsOf(schema, k))
    ensures AlwaysClean(schema, keys) <==> Separate(schema, keys)
  {
    if Separate(schema, keys) {
      forall run: seq<Fleet>, steps, i: nat, key | IsRun(schema, keys, run, steps) && i < |run| && CaughtUp(run[i], key)
        ensures IsClean(schema, run[i], key)
      {
        RunKeepsKeys(schema, keys, run, steps, i);
        FleetConverges(schema, keys, run, steps, i, key);
      }
    } else {
      var a, b :| a in keys && b in keys && a != b && DefsOf(schema, a) != [] && ObjectOf(a) == ObjectOf(b);
      TwinsAreNotClean(schema, keys, a, b, DefsOf(schema, a)[0]);
    }
  }
}
