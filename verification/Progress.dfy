/** When the consumer can get through the outbox, and where it is stuck. */
module Progress {
  import opened Tuples
  import opened Representations
  import opened RelationDiff
  import opened TupleWriter
  import opened ResourceHistory
  import opened RowSelection
  import opened Pipeline
  import opened Convergence

  predicate NoTransaction(steps: seq<Step>) {
    forall i | 0 <= i < |steps| :: !steps[i].Transact?
  }

  ghost predicate LookupsSucceed(t: Tables, from: nat, upto: nat)
    requires upto <= |t.outbox|
  {
    forall i: nat | from <= i < upto :: FetchFor(t.commons, t.outbox[i]).Some?
  }

  lemma PrependStep(defs: seq<RelationDef>, key: ReporterResourceKey, s: State, step: Step, run: seq<State>,
                    steps: seq<Step>)
    requires IsPath(defs, key, run, steps) && Next(defs, key, s, step, run[0]) && |s.tables.outbox| < UINT_RANGE - 1
    ensures IsPath(defs, key, [s] + run, [step] + steps)
  {
    forall i | 0 <= i < |steps| + 1 ensures Next(defs, key, ([s] + run)[i], ([step] + steps)[i], ([s] + run)[i + 1]) {
      if i > 0 {
        assert Next(defs, key, run[i - 1], steps[i - 1], run[i]);
      }
    }
  }

  /** The next event, carried out. */
  lemma OneMore(defs: seq<RelationDef>, key: ReporterResourceKey, s: State) returns (t: TuplesToReplicate, s': State)
    requires Consistent(s.tables) && s.pos < |s.tables.outbox|
             && FetchFor(s.tables.commons, s.tables.outbox[s.pos]).Some?
    ensures Calculated(defs, key, s, s.tables, t) && Next(defs, key, s, Complete(s.tables, t), s')
    ensures s' == s.(store := PerformAll(s.store, Writes(t.Creates(), t.Deletes())), pos := s.pos + 1)
  {
    var f := FetchFor(s.tables.commons, s.tables.outbox[s.pos]).value;
    t := SomeDiff(defs, key, f.current, f.previous);
    s' := s.(store := PerformAll(s.store, Writes(t.Creates(), t.Deletes())), pos := s.pos + 1);
  }

  /** Undisturbed, the consumer catches up whenever every remaining lookup succeeds. */
  lemma {:induction false} CanCatchUp(defs: seq<RelationDef>, key: ReporterResourceKey, s: State)
    returns (run: seq<State>, steps: seq<Step>)
    requires Consistent(s.tables) && s.pos <= |s.tables.outbox| < UINT_RANGE - 1
    requires LookupsSucceed(s.tables, s.pos, |s.tables.outbox|)
    ensures IsPath(defs, key, run, steps) && run[0] == s && NoTransaction(steps)
    ensures CaughtUp(run[|run| - 1]) && run[|run| - 1].tables == s.tables
    decreases |s.tables.outbox| - s.pos
  {
    if s.pos == |s.tables.outbox| {
      run, steps := [s], [];
    } else {
      var t, s' := OneMore(defs, key, s);
      var rest, restSteps := CanCatchUp(defs, key, s');
      PrependStep(defs, key, s, Complete(s.tables, t), rest, restSteps);
      run, steps := [s] + rest, [Complete(s.tables, t)] + restSteps;
    }
  }

  /** A lookup that succeeded goes on succeeding. */
  lemma LookupKept(seen: Tables, t: Tables, i: nat)
    requires Grown(seen, t) && i < |seen.outbox| && FetchFor(seen.commons, seen.outbox[i]).Some?
    ensures FetchFor(t.commons, t.outbox[i]).Some?
  {
    assert t.outbox[i] == seen.outbox[i];
    if t.outbox[i].op.Deleted? {
      DeleteLookup(seen, seen.outbox[i]);
      DeleteLookup(t, t.outbox[i]);
      assert 0 in seen.commons;
    }
  }

  /** Back, in place, or past one event whose lookup succeeds. */
  ghost predicate Passes(s: State, s': State) {
    && s'.tables == s.tables
    && (s'.pos <= s.pos ||
        (s'.pos == s.pos + 1 <= |s.tables.outbox| && FetchFor(s.tables.commons, s.tables.outbox[s.pos]).Some?))
  }

  lemma PassesOne(defs: seq<RelationDef>, key: ReporterResourceKey, s: State, step: Step, s': State)
    requires Next(defs, key, s, step, s') && !step.Transact?
    ensures Passes(s, s')
  {
    if step.Complete? {
      LookupKept(step.seen, s.tables, s.pos);
    }
  }

  ghost predicate PassChain(run: seq<State>) {
    forall i | 0 <= i < |run| - 1 :: Passes(run[i], run[i + 1])
  }

  lemma {:induction false} ChainLookups(run: seq<State>, i: nat)
    requires PassChain(run) && i < |run| && run[0].pos <= |run[0].tables.outbox|
    ensures run[i].tables == run[0].tables && run[i].pos <= |run[0].tables.outbox|
    ensures LookupsSucceed(run[0].tables, run[0].pos, run[i].pos)
  {
    if i > 0 {
      ChainLookups(run, i - 1);
      assert Passes(run[i - 1], run[i]);
    }
  }

  /** Without a transaction, the consumer passes only events whose lookups succeed. */
  lemma PassedLookups(defs: seq<RelationDef>, key: ReporterResourceKey, run: seq<State>, steps: seq<Step>, i: nat)
    requires IsPath(defs, key, run, steps) && NoTransaction(steps) && i < |run| && run[0].pos <= |run[0].tables.outbox|
    ensures run[i].tables == run[0].tables && run[i].pos <= |run[0].tables.outbox|
    ensures LookupsSucceed(run[0].tables, run[0].pos, run[i].pos)
  {
    forall j | 0 <= j < |run| - 1 ensures Passes(run[j], run[j + 1]) {
      PassesOne(defs, key, run[j], steps[j], run[j + 1]);
    }
    ChainLookups(run, i);
  }

  /** Without another transaction, the end of the outbox can be reached. */
  ghost predicate CanReachEnd(defs: seq<RelationDef>, key: ReporterResourceKey, s: State) {
    exists run, steps ::
        IsPath(defs, key, run, steps) && run[0] == s && NoTransaction(steps) && CaughtUp(run[|run| - 1])
  }

  lemma LookupsSucceedIff(t: Tables, from: nat)
    requires Consistent(t)
    ensures LookupsSucceed(t, from, |t.outbox|) <==> t.commons != map[] || NoDelete(t, from)
  {
    forall i: nat | from <= i < |t.outbox|
      ensures FetchFor(t.commons, t.outbox[i]).Some? <==> t.commons != map[] || !t.outbox[i].op.Deleted?
    {
      if t.outbox[i].op.Deleted? {
        DeleteLookup(t, t.outbox[i]);
      }
    }
  }

  /** Progress, exactly: without another transaction the consumer can catch up if and only if a common representation
      was ever persisted or no delete event remains. */
  lemma CatchUpIff(defs: seq<RelationDef>, key: ReporterResourceKey, s: State)
    requires Consistent(s.tables) && s.pos <= |s.tables.outbox| < UINT_RANGE - 1
    ensures CanReachEnd(defs, key, s) <==> LookupsSucceed(s.tables, s.pos, |s.tables.outbox|)
    ensures CanReachEnd(defs, key, s) <==> s.tables.commons != map[] || NoDelete(s.tables, s.pos)
  {
    if LookupsSucceed(s.tables, s.pos, |s.tables.outbox|) {
      var run, steps := CanCatchUp(defs, key, s);
    }
    if CanReachEnd(defs, key, s) {
      var run, steps :| IsPath(defs, key, run, steps) && run[0] == s && NoTransaction(steps)
        && CaughtUp(run[|run| - 1]);
      PassedLookups(defs, key, run, steps, |run| - 1);
    }
    LookupsSucceedIff(s.tables, s.pos);
  }

  // ---------- from which states every continuation converges ----------

  ghost predicate IsClean(defs: seq<RelationDef>, key: ReporterResourceKey, s: State) {
    StoreIs(key, s, CleanPass(defs, key, s.tables, |s.tables.outbox|))
  }

  /** However it goes on from here, restarts going back, a caught-up store is one clean pass. */
  ghost predicate AlwaysConverges(defs: seq<RelationDef>, key: ReporterResourceKey, s: State) {
    forall run: seq<State>, steps | IsPath(defs, key, run, steps) && run[0] == s && CaughtUp(run[|run| - 1]) ::
      IsClean(defs, key, run[|run| - 1])
  }

  /** Nothing ahead touches the tuple. */
  ghost predicate Untouched(defs: seq<RelationDef>, key: ReporterResourceKey, t: Tables, from: nat,
                            x: RelationsTuple, b: bool) {
    Steady(defs, key, t, from, x, b) && (b ==> NoDelete(t, from))
  }

  lemma CompleteKeeps(defs: seq<RelationDef>, key: ReporterResourceKey, s: State, t: TuplesToReplicate,
                      x: RelationsTuple, b: bool)
    requires Unambiguous(defs) && About(key, x) && Calculated(defs, key, s, s.tables, t)
    requires Untouched(defs, key, s.tables, s.pos, x, b)
    ensures x in PerformAll(s.store, Writes(t.Creates(), t.Deletes())) <==> x in s.store
  {
    assert Projected(defs, key, s.tables, s.pos, x) == Projected(defs, key, s.tables, s.pos + 1, x) == b;
    assert Projected(defs, key, s.tables, |s.tables.outbox|, x) == b;
    if s.tables.outbox[s.pos].op.Deleted? {
      DeleteEffect(defs, key, s, s.tables, t, 0, x);
    } else {
      ReportEffect(defs, key, s, s.tables, t, 0, x);
    }
  }

  /** Undisturbed, the consumer catches up and leaves an untouched tuple alone. */
  lemma {:induction false} CatchUpKeeps(defs: seq<RelationDef>, key: ReporterResourceKey, s: State,
                                        x: RelationsTuple, b: bool)
    returns (run: seq<State>, steps: seq<Step>)
    requires Unambiguous(defs) && About(key, x) && Consistent(s.tables) && s.pos <= |s.tables.outbox| < UINT_RANGE - 1
    requires LookupsSucceed(s.tables, s.pos, |s.tables.outbox|) && Untouched(defs, key, s.tables, s.pos, x, b)
    ensures IsPath(defs, key, run, steps) && run[0] == s
    ensures CaughtUp(run[|run| - 1]) && run[|run| - 1].tables == s.tables
            && (x in run[|run| - 1].store <==> x in s.store)
    decreases |s.tables.outbox| - s.pos
  {
    if s.pos == |s.tables.outbox| {
      run, steps := [s], [];
    } else {
      var t, s' := OneMore(defs, key, s);
      CompleteKeeps(defs, key, s, t, x, b);
      var rest, restSteps := CatchUpKeeps(defs, key, s', x, b);
      PrependStep(defs, key, s, Complete(s.tables, t), rest, restSteps);
      run, steps := [s] + rest, [Complete(s.tables, t)] + restSteps;
    }
  }

  lemma UnsettledDiverges(defs: seq<RelationDef>, key: ReporterResourceKey, s: State, x: RelationsTuple)
    requires Unambiguous(defs) && About(key, x) && Consistent(s.tables) && s.pos <= |s.tables.outbox| < UINT_RANGE - 1
    requires LookupsSucceed(s.tables, s.pos, |s.tables.outbox|) && !Settled(defs, key, s, x)
    ensures !AlwaysConverges(defs, key, s)
  {
    var b := Projected(defs, key, s.tables, s.pos, x);
    assert Untouched(defs, key, s.tables, s.pos, x, b);
    var run, steps := CatchUpKeeps(defs, key, s, x, b);
    CleanPassMembers(defs, key, s.tables, |s.tables.outbox|, x);
    assert !IsClean(defs, key, run[|run| - 1]);
  }

  /** Which states replication recovers from, exactly. When the end can be reached, every continuation converges if and
      only if every tuple that nothing ahead touches is already right. A restart ahead of the point reached is survived
      exactly when it leaves such a state. */
  lemma ConvergesFromIff(defs: seq<RelationDef>, key: ReporterResourceKey, s: State)
    requires Unambiguous(defs) && Consistent(s.tables) && s.pos <= |s.tables.outbox| < UINT_RANGE - 1
    requires s.tables.commons != map[] || NoDelete(s.tables, s.pos)
    ensures AlwaysConverges(defs, key, s) <==> forall x | About(key, x) :: Settled(defs, key, s, x)
  {
    LookupsSucceedIff(s.tables, s.pos);
    if forall x | About(key, x) :: Settled(defs, key, s, x) {
      forall run: seq<State>, steps | IsPath(defs, key, run, steps) && run[0] == s && CaughtUp(run[|run| - 1])
        ensures IsClean(defs, key, run[|run| - 1])
      {
        PathStaysSettled(defs, key, run, steps, |run| - 1);
        SettledAtEnd(defs, key, run[|run| - 1]);
      }
    } else {
      var x :| About(key, x) && !Settled(defs, key, s, x);
      UnsettledDiverges(defs, key, s, x);
    }
  }

  // ---------- deleted before any common representation ----------

  ghost function DeletedWithoutCommon(data: Data): Tables {
    After(After(EMPTY, Report(Some(data), None)), Delete)
  }

  /** Reported with reporter data only, then deleted: a delete event whose lookup fails. */
  lemma DeletedWithoutCommonFails(data: Data)
    ensures var t := DeletedWithoutCommon(data);
            && Consistent(t) && t.commons == map[] && |t.outbox| == 2 && t.outbox[1].op.Deleted?
            && FetchFor(t.commons, t.outbox[1]).None?
  {
    var c := Report(Some(data), None);
    TransactionStep(EMPTY, c);
    TransactionStep(After(EMPTY, c), Delete);
    DeleteLookup(DeletedWithoutCommon(data), DeletedWithoutCommon(data).outbox[1]);
  }

  /** At or before a delete event, with nothing for its lookup to find. */
  ghost predicate Stuck(s: State, d: nat) {
    && Consistent(s.tables) && s.tables.commons == map[]
    && s.pos <= d < |s.tables.outbox| && s.tables.outbox[d].op.Deleted?
  }

  lemma PassingIsStuck(s: State, s': State, d: nat)
    requires Stuck(s, d) && Passes(s, s')
    ensures Stuck(s', d)
  {
    DeleteLookup(s.tables, s.tables.outbox[d]);
  }

  lemma ConsumerIsStuck(defs: seq<RelationDef>, key: ReporterResourceKey, s: State, step: Step, s': State, d: nat)
    requires Stuck(s, d) && Next(defs, key, s, step, s') && !step.Transact?
    ensures Stuck(s', d)
  {
    PassesOne(defs, key, s, step, s');
    PassingIsStuck(s, s', d);
  }

  lemma TransactionLeavesStuck(defs: seq<RelationDef>, key: ReporterResourceKey, s: State, step: Step, s': State,
                               d: nat)
    requires Stuck(s, d) && Next(defs, key, s, step, s') && step.Transact?
    requires |s.tables.outbox| < UINT_RANGE - 1 && s'.tables.commons == map[]
    ensures Stuck(s', d)
  {
    TransactionGrows(s.tables, step.c);
  }

  /** Whatever the consumer and further transactions do, no run passes a delete event as long as no common
      representation is persisted. */
  lemma {:induction false} StuckAtDelete(defs: seq<RelationDef>, key: ReporterResourceKey, run: seq<State>,
                                         steps: seq<Step>, d: nat, i: nat)
    requires IsPath(defs, key, run, steps) && i < |run| && Stuck(run[0], d)
    requires forall j | 0 <= j <= i :: run[j].tables.commons == map[]
    ensures Stuck(run[i], d)
  {
    if i > 0 {
      StuckAtDelete(defs, key, run, steps, d, i - 1);
      if steps[i - 1].Transact? {
        TransactionLeavesStuck(defs, key, run[i - 1], steps[i - 1], run[i], d);
      } else {
        ConsumerIsStuck(defs, key, run[i - 1], steps[i - 1], run[i], d);
      }
    }
  }
}
