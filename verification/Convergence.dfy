/** Whatever crashes, redeliveries and delays a run contains, as long as its restarts go back: once the consumer has
    caught up, the store holds what one clean pass over the outbox would have left; and when that is the projection of
    the last representation. */
module Convergence {
  import opened Tuples
  import opened Representations
  import opened RelationDiff
  import opened TupleWriter
  import opened ResourceHistory
  import opened RowSelection
  import opened Pipeline

  lemma {:induction false} CleanPassKept(defs: seq<RelationDef>, key: ReporterResourceKey, t: Tables, t': Tables,
                                         k: nat)
    requires Grown(t, t') && k <= |t.outbox|
    ensures CleanPass(defs, key, t', k) == CleanPass(defs, key, t, k)
  {
    if k > 0 {
      CleanPassKept(defs, key, t, t', k - 1);
      assert t'.outbox[k - 1] == t.outbox[k - 1];
      CountKept(t, t', k);
      var c := Numbered(t.outbox, k);
      ProjectionKept(defs, key, t, t', c);
      if c > 0 {
        ProjectionKept(defs, key, t, t', c - 1);
      }
    }
  }

  // ---------- the clean pass, tuple by tuple ----------

  /** The last event decides about the tuples it touches. */
  lemma CleanPassStep(defs: seq<RelationDef>, key: ReporterResourceKey, t: Tables, k: nat, x: RelationsTuple)
    requires 0 < k <= |t.outbox| && Ordered(t)
    ensures var before, after := Projected(defs, key, t, k - 1, x), Projected(defs, key, t, k, x);
            var now, was := x in CleanPass(defs, key, t, k), x in CleanPass(defs, key, t, k - 1);
            if t.outbox[k - 1].op.Deleted? then before == after && (now <==> was && !before)
            else if before == after then now == was
            else now == after
  {
  }

  /** The clean pass holds the projected tuples that have not stayed projected ever since some delete. */
  lemma {:induction false} CleanPassMembers(defs: seq<RelationDef>, key: ReporterResourceKey, t: Tables, k: nat,
                                            x: RelationsTuple)
    requires k <= |t.outbox| && Ordered(t)
    ensures x in CleanPass(defs, key, t, k) <==>
            && Projected(defs, key, t, k, x)
            && forall d: nat | d < k && t.outbox[d].op.Deleted? :: exists i: nat ::
                d < i <= k && !Projected(defs, key, t, i, x)
  {
    if k > 0 {
      CleanPassMembers(defs, key, t, k - 1, x);
      CleanPassStep(defs, key, t, k, x);
      if x in CleanPass(defs, key, t, k) {
        assert !t.outbox[k - 1].op.Deleted?;
        forall d: nat | d < k && t.outbox[d].op.Deleted?
          ensures exists i: nat :: d < i <= k && !Projected(defs, key, t, i, x) {
          if Projected(defs, key, t, k - 1, x) {
            var i: nat :| d < i <= k - 1 && !Projected(defs, key, t, i, x);
          }
        }
      }
    }
  }

  // ---------- every step keeps every tuple settled ----------

  lemma TransactionGrows(t: Tables, c: Command)
    requires Consistent(t) && |t.outbox| < UINT_RANGE - 1
    ensures Grown(t, After(t, c))
    ensures After(t, c) == t || |After(t, c).outbox| == |t.outbox| + 1
  {
    TransactionStep(t, c);
    StepKeeps(t, c);
  }

  lemma SteadyBefore(defs: seq<RelationDef>, key: ReporterResourceKey, t: Tables, t': Tables, pos: nat,
                     x: RelationsTuple, b: bool)
    requires Grown(t, t') && Steady(defs, key, t', pos, x, b)
    ensures Steady(defs, key, t, pos, x, b)
  {
    forall i: nat | pos <= i <= |t.outbox| ensures Projected(defs, key, t, i, x) == b {
      ProjectedKept(defs, key, t, t', i, x);
    }
  }

  lemma NoDeleteBefore(t: Tables, t': Tables, pos: nat)
    requires t.outbox <= t'.outbox && NoDelete(t', pos)
    ensures NoDelete(t, pos)
  {
  }

  /** One more event, and not a delete, changes nothing about a tuple that is projected all along. */
  lemma GrowthKeepsCleanPass(defs: seq<RelationDef>, key: ReporterResourceKey, t: Tables, t': Tables, pos: nat,
                             x: RelationsTuple)
    requires Grown(t, t') && |t'.outbox| == |t.outbox| + 1 && pos <= |t.outbox|
    requires Steady(defs, key, t', pos, x, true) && NoDelete(t', pos)
    ensures x in CleanPass(defs, key, t', |t'.outbox|) <==> x in CleanPass(defs, key, t, |t.outbox|)
  {
    var n := |t.outbox|;
    assert Projected(defs, key, t', n, x) && Projected(defs, key, t', n + 1, x);
    CleanPassKept(defs, key, t, t', n);
    CleanPassStep(defs, key, t', n + 1, x);
  }

  lemma GrowthSettles(defs: seq<RelationDef>, key: ReporterResourceKey, s: State, t': Tables, x: RelationsTuple)
    requires Grown(s.tables, t') && |t'.outbox| == |s.tables.outbox| + 1 && s.pos <= |s.tables.outbox|
    requires Settled(defs, key, s, x)
    ensures Settled(defs, key, s.(tables := t'), x)
  {
    if Steady(defs, key, t', s.pos, x, false) {
      SteadyBefore(defs, key, s.tables, t', s.pos, x, false);
    }
    if Steady(defs, key, t', s.pos, x, true) && NoDelete(t', s.pos) {
      SteadyBefore(defs, key, s.tables, t', s.pos, x, true);
      NoDeleteBefore(s.tables, t', s.pos);
      GrowthKeepsCleanPass(defs, key, s.tables, t', s.pos, x);
    }
  }

  /** Between the first and the last event, a steady tuple stays as the clean pass has it. */
  lemma {:induction false} CleanPassSteady(defs: seq<RelationDef>, key: ReporterResourceKey, t: Tables, from: nat,
                                           upto: nat, x: RelationsTuple)
    requires from <= upto <= |t.outbox| && Ordered(t)
    requires Steady(defs, key, t, from, x, true) && NoDelete(t, from)
    ensures x in CleanPass(defs, key, t, upto) <==> x in CleanPass(defs, key, t, from)
    decreases upto
  {
    if from < upto {
      CleanPassSteady(defs, key, t, from, upto - 1, x);
      CleanPassStep(defs, key, t, upto, x);
      assert Projected(defs, key, t, upto - 1, x) && Projected(defs, key, t, upto, x);
    }
  }

  lemma AttemptSettles(defs: seq<RelationDef>, key: ReporterResourceKey, s: State, seen: Tables,
                       t: TuplesToReplicate, calls: nat,
                       x: RelationsTuple)
    requires Unambiguous(defs) && About(key, x)
    requires Calculated(defs, key, s, seen, t) && calls <= |Writes(t.Creates(), t.Deletes())|
    requires Settled(defs, key, s, x)
    ensures Settled(defs, key, s.(store := PerformAll(s.store, Writes(t.Creates(), t.Deletes())[..calls])), x)
  {
    if s.tables.outbox[s.pos].op.Deleted? {
      DeleteEffect(defs, key, s, seen, t, calls, x);
    } else {
      ReportEffect(defs, key, s, seen, t, calls, x);
      forall b | Steady(defs, key, s.tables, s.pos, x, b)
        ensures Projected(defs, key, s.tables, s.pos, x) == Projected(defs, key, s.tables, s.pos + 1, x)
      {
      }
    }
  }

  /** Steady from the next event on, and not changed by this one: steady from this one on. */
  lemma SteadyFromHere(defs: seq<RelationDef>, key: ReporterResourceKey, t: Tables, pos: nat, x: RelationsTuple,
                       b: bool)
    requires pos < |t.outbox| && Steady(defs, key, t, pos + 1, x, b)
    ensures forall m: nat | pos < m <= |t.outbox| :: Projected(defs, key, t, m, x) == b
    ensures Projected(defs, key, t, pos, x) == b ==> Steady(defs, key, t, pos, x, b)
  {
  }

  lemma ReportSettles(defs: seq<RelationDef>, key: ReporterResourceKey, s: State, s': State, x: RelationsTuple)
    requires Ordered(s.tables) && s.pos < |s.tables.outbox| && !s.tables.outbox[s.pos].op.Deleted?
    requires s'.tables == s.tables && s'.pos == s.pos + 1 && Settled(defs, key, s, x)
    requires var before, after := Projected(defs, key, s.tables, s.pos, x),
               Projected(defs, key, s.tables, s.pos + 1, x);
             if before == after then x in s'.store <==> x in s.store else x in s'.store <==> after
    ensures Settled(defs, key, s', x)
  {
    var t := s.tables;
    if Steady(defs, key, t, s.pos + 1, x, false) {
      SteadyFromHere(defs, key, t, s.pos, x, false);
    }
    if Steady(defs, key, t, s.pos + 1, x, true) && NoDelete(t, s.pos + 1) {
      SteadyFromHere(defs, key, t, s.pos, x, true);
      assert NoDelete(t, s.pos);
      CleanPassSteady(defs, key, t, s.pos + 1, |t.outbox|, x);
      CleanPassStep(defs, key, t, s.pos + 1, x);
    }
  }

  lemma DeleteSettles(defs: seq<RelationDef>, key: ReporterResourceKey, s: State, s': State, m: nat, x: RelationsTuple)
    requires Ordered(s.tables) && s.pos < |s.tables.outbox| && s.tables.outbox[s.pos].op.Deleted?
    requires s'.tables == s.tables && s'.pos == s.pos + 1 && Settled(defs, key, s, x)
    requires s.pos < m <= |s.tables.outbox|
             && (x in s'.store <==> x in s.store && !Projected(defs, key, s.tables, m, x))
    ensures Settled(defs, key, s', x)
  {
    var t := s.tables;
    CleanPassStep(defs, key, t, s.pos + 1, x);
    if Steady(defs, key, t, s.pos + 1, x, false) {
      SteadyFromHere(defs, key, t, s.pos, x, false);
    }
    if Steady(defs, key, t, s.pos + 1, x, true) && NoDelete(t, s.pos + 1) {
      SteadyFromHere(defs, key, t, s.pos, x, true);
      CleanPassSteady(defs, key, t, s.pos + 1, |t.outbox|, x);
    }
  }

  lemma CompleteSettles(defs: seq<RelationDef>, key: ReporterResourceKey, s: State, seen: Tables,
                        t: TuplesToReplicate, s': State,
                        x: RelationsTuple)
    requires Unambiguous(defs) && About(key, x) && Settled(defs, key, s, x)
    requires Next(defs, key, s, Complete(seen, t), s')
    ensures Settled(defs, key, s', x)
  {
    if s.tables.outbox[s.pos].op.Deleted? {
      DeleteEffect(defs, key, s, seen, t, 0, x);
      DeleteSettles(defs, key, s, s', |seen.outbox|, x);
    } else {
      ReportEffect(defs, key, s, seen, t, 0, x);
      ReportSettles(defs, key, s, s', x);
    }
  }

  lemma RestartSettles(defs: seq<RelationDef>, key: ReporterResourceKey, s: State, at: nat, x: RelationsTuple)
    requires at <= s.pos && Settled(defs, key, s, x)
    ensures Settled(defs, key, s.(pos := at), x)
  {
  }

  lemma StepKeepsInv(defs: seq<RelationDef>, key: ReporterResourceKey, s: State, step: Step, s': State)
    requires Unambiguous(defs) && Inv(defs, key, s) && |s.tables.outbox| < UINT_RANGE - 1
    requires Next(defs, key, s, step, s')
    ensures Inv(defs, key, s')
  {
    match step {
      case Transact(c) => TransactionGrows(s.tables, c);
      case _ =>
    }
    forall x | About(key, x) ensures Settled(defs, key, s', x) {
      match step {
        case Transact(c) =>
          if s'.tables != s.tables {
            GrowthSettles(defs, key, s, s'.tables, x);
          }
        case Attempt(seen, t, calls) => AttemptSettles(defs, key, s, seen, t, calls, x);
        case Complete(seen, t) => CompleteSettles(defs, key, s, seen, t, s', x);
        case Restart(at) => RestartSettles(defs, key, s, at, x);
        case Outside(store) =>
      }
    }
  }

  // ---------- whole runs ----------

  ghost predicate IsPath(defs: seq<RelationDef>, key: ReporterResourceKey, run: seq<State>, steps: seq<Step>) {
    && |run| == |steps| + 1
    && (forall i | 0 <= i < |run| :: |run[i].tables.outbox| < UINT_RANGE - 1)
    && (forall i | 0 <= i < |steps| :: Next(defs, key, run[i], steps[i], run[i + 1]))
  }

  lemma AppendStep(defs: seq<RelationDef>, key: ReporterResourceKey, run: seq<State>, steps: seq<Step>, step: Step,
                   s': State)
    requires IsPath(defs, key, run, steps) && Next(defs, key, run[|run| - 1], step, s')
             && |s'.tables.outbox| < UINT_RANGE - 1
    ensures IsPath(defs, key, run + [s'], steps + [step])
  {
    var run', steps' := run + [s'], steps + [step];
    forall i | 0 <= i < |steps'| ensures Next(defs, key, run'[i], steps'[i], run'[i + 1]) {
      if i < |steps| {
        assert run'[i] == run[i] && steps'[i] == steps[i] && run'[i + 1] == run[i + 1];
      } else {
        assert run'[i] == run[|run| - 1] && steps'[i] == step && run'[i + 1] == s';
      }
    }
  }

  /** A run: any interleaving of the steps from the empty pipeline, counters below their range. */
  ghost predicate IsRun(defs: seq<RelationDef>, key: ReporterResourceKey, run: seq<State>, steps: seq<Step>) {
    IsPath(defs, key, run, steps) && run[0] == INIT
  }

  lemma InitSettled(defs: seq<RelationDef>, key: ReporterResourceKey)
    ensures Inv(defs, key, INIT)
  {
  }

  lemma {:induction false} PathStaysSettled(defs: seq<RelationDef>, key: ReporterResourceKey, run: seq<State>,
                                            steps: seq<Step>, i: nat)
    requires Unambiguous(defs) && IsPath(defs, key, run, steps) && i < |run| && Inv(defs, key, run[0])
    ensures Inv(defs, key, run[i])
  {
    if i > 0 {
      PathStaysSettled(defs, key, run, steps, i - 1);
      StepKeepsInv(defs, key, run[i - 1], steps[i - 1], run[i]);
    }
  }

  lemma EveryStateSettled(defs: seq<RelationDef>, key: ReporterResourceKey, run: seq<State>, steps: seq<Step>, i: nat)
    requires Unambiguous(defs) && IsRun(defs, key, run, steps) && i < |run|
    ensures Inv(defs, key, run[i])
  {
    InitSettled(defs, key);
    PathStaysSettled(defs, key, run, steps, i);
  }

  predicate CaughtUp(s: State) {
    s.pos == |s.tables.outbox|
  }

  /** The tuples about the resource that the store holds are exactly these. */
  ghost predicate StoreIs(key: ReporterResourceKey, s: State, tuples: set<RelationsTuple>) {
    forall x | About(key, x) :: x in s.store <==> x in tuples
  }

  lemma SettledTupleAtEnd(defs: seq<RelationDef>, key: ReporterResourceKey, s: State, x: RelationsTuple)
    requires Ordered(s.tables) && CaughtUp(s) && Settled(defs, key, s, x)
    ensures x in s.store <==> x in CleanPass(defs, key, s.tables, |s.tables.outbox|)
  {
    CleanPassMembers(defs, key, s.tables, |s.tables.outbox|, x);
  }

  lemma SettledAtEnd(defs: seq<RelationDef>, key: ReporterResourceKey, s: State)
    requires Inv(defs, key, s) && CaughtUp(s)
    ensures StoreIs(key, s, CleanPass(defs, key, s.tables, |s.tables.outbox|))
  {
    forall x | About(key, x) ensures x in s.store <==> x in CleanPass(defs, key, s.tables, |s.tables.outbox|) {
      SettledTupleAtEnd(defs, key, s, x);
    }
  }

  /** Replay convergence: in every run, whenever the consumer has caught up, the store holds the clean pass. */
  lemma ReplayConverges(defs: seq<RelationDef>, key: ReporterResourceKey, run: seq<State>, steps: seq<Step>, i: nat)
    requires Unambiguous(defs) && IsRun(defs, key, run, steps) && i < |run| && CaughtUp(run[i])
    ensures StoreIs(key, run[i], CleanPass(defs, key, run[i].tables, |run[i].tables.outbox|))
  {
    EveryStateSettled(defs, key, run, steps, i);
    SettledAtEnd(defs, key, run[i]);
  }

  /** The projection of the newest persisted representation. */
  function LastProjection(defs: seq<RelationDef>, key: ReporterResourceKey, t: Tables): set<RelationsTuple> {
    ProjectionAfter(defs, key, t.commons, |t.commons|)
  }

  /** Some tuple has been projected at every event since a delete: no later diff has re-created it. */
  ghost predicate OutlivedADelete(defs: seq<RelationDef>, key: ReporterResourceKey, t: Tables, d: nat,
                                  x: RelationsTuple) {
    d < |t.outbox| && t.outbox[d].op.Deleted? && Steady(defs, key, t, d + 1, x, true)
  }

  lemma SinceDelete(defs: seq<RelationDef>, key: ReporterResourceKey, t: Tables, x: RelationsTuple)
    requires Ordered(t)
    ensures (exists d: nat :: OutlivedADelete(defs, key, t, d, x)) <==>
            !forall d: nat | d < |t.outbox| && t.outbox[d].op.Deleted? ::
                exists i: nat :: d < i <= |t.outbox| && !Projected(defs, key, t, i, x)
  {
    if d: nat :| OutlivedADelete(defs, key, t, d, x) {
      assert forall i: nat | d < i <= |t.outbox| :: Projected(defs, key, t, i, x);
    } else {
      forall d: nat | d < |t.outbox| && t.outbox[d].op.Deleted?
        ensures exists i: nat :: d < i <= |t.outbox| && !Projected(defs, key, t, i, x)
      {
        assert !OutlivedADelete(defs, key, t, d, x);
      }
    }
  }

  /** Exactly when the converged store is the projection of the last representation: no projected tuple has
      outlived a delete. In particular always, when the resource was never deleted. */
  lemma ConvergesToLastProjectionIff(defs: seq<RelationDef>, key: ReporterResourceKey, run: seq<State>,
                                     steps: seq<Step>, i: nat)
    requires Unambiguous(defs) && IsRun(defs, key, run, steps) && i < |run| && CaughtUp(run[i])
    ensures StoreIs(key, run[i], LastProjection(defs, key, run[i].tables)) <==>
            !exists d: nat, x :: OutlivedADelete(defs, key, run[i].tables, d, x)
    ensures NoDelete(run[i].tables, 0) ==> StoreIs(key, run[i], LastProjection(defs, key, run[i].tables))
  {
    var s, t, n := run[i], run[i].tables, |run[i].tables.outbox|;
    EveryStateSettled(defs, key, run, steps, i);
    ReplayConverges(defs, key, run, steps, i);
    forall x | About(key, x)
      ensures x in s.store <==>
                x in LastProjection(defs, key, t) && !exists d: nat :: OutlivedADelete(defs, key, t, d, x)
    {
      CleanPassMembers(defs, key, t, n, x);
      SinceDelete(defs, key, t, x);
    }
    forall d: nat, x | OutlivedADelete(defs, key, t, d, x) ensures About(key, x) && x in LastProjection(defs, key, t) {
      assert Projected(defs, key, t, n, x);
      ProjectionIsAbout(defs, key, RepresentationAt(t.commons, |t.commons| - 1));
    }
  }

  /** No stale grants: a caught-up store never holds a tuple outside the last projection, and none at all once the
      last event is a delete. */
  lemma NothingStale(defs: seq<RelationDef>, key: ReporterResourceKey, run: seq<State>, steps: seq<Step>, i: nat,
                     x: RelationsTuple)
    requires Unambiguous(defs) && IsRun(defs, key, run, steps) && i < |run| && CaughtUp(run[i])
    requires About(key, x) && x in run[i].store
    ensures x in LastProjection(defs, key, run[i].tables)
    ensures run[i].tables.reporter.Some? && !run[i].tables.reporter.value.tombstone
  {
    var t, n := run[i].tables, |run[i].tables.outbox|;
    ReplayConverges(defs, key, run, steps, i);
    EveryStateSettled(defs, key, run, steps, i);
    CleanPassMembers(defs, key, t, n, x);
    CleanPassStep(defs, key, t, n, x);
  }
}
