/** ProcessMessage: from a message to the backend calls, as the consumer runs it. */
module MessageProcessing {
  import opened Tuples
  import opened Representations
  import opened RelationDiff
  import opened TupleWriter
  import opened ResourceHistory
  import opened RowSelection
  import opened Pipeline
  import opened Convergence

  /** ORDER BY version DESC LIMIT 1; no row leaves the zero value, which NewRepresentations rejects. */
  method FindLatestRepresentations(rows: seq<CommonRow>, ghost commons: map<nat, Data>)
    returns (r: Option<Representations>)
    requires RowsOf(rows, commons)
    ensures r == Latest(commons)
  {
    ghost var m := MaxVersion(commons.Keys);
    assert m.Some? ==> CommonRow(m.value, commons[m.value]) in rows;
    if rows == [] {
      return NewRepresentations(map[], Some(0), map[], None);
    }
    var best := rows[0];
    for i := 0 to |rows|
      invariant best in rows
      invariant forall j | 0 <= j < i :: rows[j].version <= best.version
    {
      if rows[i].version > best.version {
        best := rows[i];
      }
    }
    assert best.version in commons.Keys;
    assert best.version == m.value;
    r := NewRepresentations(best.data, Some(best.version), map[], None);
  }

  method FetchRepresentations(rows: seq<CommonRow>, ghost commons: map<nat, Data>, e: TupleEvent)
    returns (f: Option<Fetched>)
    requires RowsOf(rows, commons)
    requires e.commonVersion.Some? ==> e.commonVersion.value < UINT_RANGE
    ensures f == if e.op.Deleted? || SelectionFilled(commons, e.commonVersion, e.op) then FetchFor(commons, e) else None
  {
    if e.op.Deleted? {
      var latest := FindLatestRepresentations(rows, commons);
      f := if latest.None? then None else Some(Fetched(None, latest));
    } else {
      f := FindCurrentAndPreviousVersionedRepresentations(rows, commons, e.commonVersion, e.op);
    }
  }

  // ---------- the dispatch on the operation ----------

  /** A creation only creates and a deletion only deletes, whatever the diff says. */
  function CreatesFor(op: Operation, t: TuplesToReplicate): seq<RelationsTuple> {
    if op.Deleted? then [] else t.Creates()
  }

  function DeletesFor(op: Operation, t: TuplesToReplicate): seq<RelationsTuple> {
    if op.Created? then [] else t.Deletes()
  }

  function Calls(op: Operation, t: TuplesToReplicate): seq<Write> {
    Writes(CreatesFor(op, t), DeletesFor(op, t))
  }

  /** The tuple list of a deletion is dereferenced without a check. A creation returns the token of its one reply, an
      update the first token given, a deletion none; and a failure has met exactly one call that was not answered. */
  method Execute(backend: Backend, op: Operation, t: TuplesToReplicate)
    returns (ok: bool, token: string, ghost done: nat, ghost calls: nat)
    requires op.Deleted? ==> t.tuplesToDelete.Some?
    modifies backend
    ensures done <= |Calls(op, t)| && backend.tuples == PerformAll(old(backend.tuples), Calls(op, t)[..done])
    ensures ok <==> (op.Created? ==> t.Creates() != []) && AllDone(old(backend.script), |Calls(op, t)|)
    ensures ok ==> done == |Calls(op, t)|
    ensures ok && op.Created? ==> token == OutcomeAt(old(backend.script), 0).token
    ensures ok && op.Deleted? ==> token == ""
    ensures ok && !op.Deleted? ==> token == FirstToken(old(backend.script), 0, |Calls(op, t)|)
    ensures backend.script == Drop(old(backend.script), calls)
    ensures ok ==> Failures(backend.script) == Failures(old(backend.script))
    ensures !ok && (op.Created? ==> t.Creates() != []) ==>
              Failures(backend.script) == Failures(old(backend.script)) - 1 && |backend.script| < |old(backend.script)|
  {
    match op
    case Created =>
      ok, token, done := backend.CreateTuple(t.Creates());
      calls := |Calls(op, t)|;
      if t.Creates() != [] {
        assert FirstToken(old(backend.script), 1, 1) == "";
        FailuresAfter(old(backend.script), 0);
        if ok {
          FailuresAfter(old(backend.script), 1);
        }
      }
    case Updated =>
      ok, token, done, calls := backend.UpdateTuple(t.Creates(), t.Deletes());
      FailuresAfter(old(backend.script), if ok then calls else calls - 1);
    case Deleted =>
      ok, token, done, calls := backend.DeleteTuple(t.tuplesToDelete.value);
      token := "";
      FailuresAfter(old(backend.script), if ok then calls else calls - 1);
  }

  predicate Within(attempts: seq<nat>, calls: nat) {
    forall i | 0 <= i < |attempts| :: attempts[i] <= calls
  }

  /** The store after several attempts, each of which got as far as the given number of calls. */
  function AfterAttempts(store: set<RelationsTuple>, ws: seq<Write>, attempts: seq<nat>): set<RelationsTuple>
    requires Within(attempts, |ws|)
  {
    if attempts == [] then store
    else PerformAll(AfterAttempts(store, ws, attempts[..|attempts| - 1]), ws[..attempts[|attempts| - 1]])
  }

  lemma {:induction false} RetriesAreIdempotent(store: set<RelationsTuple>, creates: seq<RelationsTuple>,
                                                deletes: seq<RelationsTuple>, attempts: seq<nat>)
    requires Within(attempts, |Writes(creates, deletes)|)
    ensures var ws := Writes(creates, deletes);
            PerformAll(AfterAttempts(store, ws, attempts), ws) == PerformAll(store, ws)
  {
    if attempts != [] {
      var init := attempts[..|attempts| - 1];
      RetriesAreIdempotent(store, creates, deletes, init);
      RetryIsIdempotent(AfterAttempts(store, Writes(creates, deletes), init), creates, deletes,
          attempts[|attempts| - 1]);
    }
  }

  /** The state of the retry loop: the attempts so far, and the calls they have used. */
  ghost predicate Tried(store: set<RelationsTuple>, script: Script, ws: seq<Write>, attempts: seq<nat>, used: nat,
                        store': set<RelationsTuple>, script': Script, tried: nat)
  {
    && Within(attempts, |ws|) && store' == AfterAttempts(store, ws, attempts)
    && script' == Drop(script, used) && Failures(script') + tried == Failures(script)
  }

  lemma TriedAgain(store: set<RelationsTuple>, script: Script, ws: seq<Write>, attempts: seq<nat>, used: nat,
                   store': set<RelationsTuple>, script': Script, tried: nat, done: nat, calls: nat)
    requires Tried(store, script, ws, attempts, used, store', script', tried) && done <= |ws|
    requires Failures(Drop(script', calls)) == Failures(script') - 1
    ensures Tried(store, script, ws, attempts + [done], used + calls, PerformAll(store', ws[..done]),
                  Drop(script', calls), tried + 1)
  {
    assert (attempts + [done])[..|attempts|] == attempts;
    DropIsLater(script, used, calls);
  }

  lemma TriedWithSuccess(store: set<RelationsTuple>, script: Script, op: Operation, t: TuplesToReplicate,
                         attempts: seq<nat>, used: nat, store': set<RelationsTuple>, script': Script, tried: nat)
    requires Tried(store, script, Calls(op, t), attempts, used, store', script', tried)
    ensures PerformAll(store', Calls(op, t)[..|Calls(op, t)|]) == PerformAll(store, Calls(op, t))
    ensures FirstToken(script', 0, |Calls(op, t)|) == FirstToken(script, used, used + |Calls(op, t)|)
  {
    RetriesAreIdempotent(store, CreatesFor(op, t), DeletesFor(op, t), attempts);
    assert Calls(op, t)[..|Calls(op, t)|] == Calls(op, t);
    TokenAfter(script, used, 0, |Calls(op, t)|);
  }

  /** Retry around the dispatched operation; maxRetries == -1 means no limit, and then an operation that can never
      succeed would be tried for ever. Success has the clean effect, however many interrupted attempts came before.
      Every failed attempt meets exactly one call that is not answered: it gives up after exactly maxRetries of them,
      and succeeds if fewer come. */
  method Retry(backend: Backend, op: Operation, t: TuplesToReplicate, maxRetries: int)
    returns (ok: bool, token: string, ghost attempts: seq<nat>, ghost used: nat)
    requires op.Deleted? ==> t.tuplesToDelete.Some?
    requires op.Created? ==> t.Creates() != []
    modifies backend
    ensures Within(attempts, |Calls(op, t)|)
    ensures backend.tuples == if ok then PerformAll(old(backend.tuples), Calls(op, t))
                              else AfterAttempts(old(backend.tuples), Calls(op, t), attempts)
    ensures ok ==> AllDone(Drop(old(backend.script), used), |Calls(op, t)|)
    ensures token == if ok && !op.Deleted? then FirstToken(old(backend.script), used, used + |Calls(op, t)|) else ""
    ensures maxRetries == -1 ==> ok
    ensures Failures(backend.script) <= Failures(old(backend.script))
    ensures !ok ==>
              Failures(old(backend.script)) - Failures(backend.script) == if maxRetries < 0 then 0 else maxRetries
    ensures ok && maxRetries != -1 ==> Failures(old(backend.script)) - Failures(backend.script) < maxRetries
  {
    ghost var ws := Calls(op, t);
    var tried := 0;
    attempts, used := [], 0;
    while maxRetries == -1 || tried < maxRetries
      invariant Tried(old(backend.tuples), old(backend.script), ws, attempts, used, backend.tuples, backend.script,
                  tried)
      invariant maxRetries != -1 ==> tried <= if maxRetries < 0 then 0 else maxRetries
      decreases |backend.script|
    {
      ghost var store, script := backend.tuples, backend.script;
      ghost var done, calls;
      ok, token, done, calls := Execute(backend, op, t);
      if ok {
        TriedWithSuccess(old(backend.tuples), old(backend.script), op, t, attempts, used, store, script, tried);
        return;
      }
      TriedAgain(old(backend.tuples), old(backend.script), ws, attempts, used, store, script, tried, done, calls);
      attempts, used := attempts + [done], used + calls;
      tried := tried + 1;
    }
    ok, token := false, "";
  }

  /** For the representations fetched for an event, dispatching on its operation loses nothing of the diff, and meets
      no missing list. */
  lemma DispatchIsComplete(defs: seq<RelationDef>, key: ReporterResourceKey, commons: map<nat, Data>, e: TupleEvent,
                           t: TuplesToReplicate)
    requires FetchFor(commons, e).Some?
    requires var f := FetchFor(commons, e).value; IsDiff(t, defs, key, f.current, f.previous)
    ensures Calls(e.op, t) == Writes(t.Creates(), t.Deletes())
    ensures !t.IsEmpty() ==> (e.op.Deleted? ==> t.tuplesToDelete.Some?) && (e.op.Created? ==> t.Creates() != [])
  {
  }

  /** A run of attempts at the event at pos, as the pipeline sees them. */
  lemma {:induction false} AttemptsAreSteps(defs: seq<RelationDef>, key: ReporterResourceKey, s: State, seen: Tables,
                                            t: TuplesToReplicate, attempts: seq<nat>)
    returns (run: seq<State>, steps: seq<Step>)
    requires Calculated(defs, key, s, seen, t) && |s.tables.outbox| < UINT_RANGE - 1
    requires Within(attempts, |Writes(t.Creates(), t.Deletes())|)
    ensures IsPath(defs, key, run, steps) && run[0] == s
    ensures run[|run| - 1] == s.(store := AfterAttempts(s.store, Writes(t.Creates(), t.Deletes()), attempts))
  {
    if attempts == [] {
      run, steps := [s], [];
    } else {
      var n := |attempts| - 1;
      var before, beforeSteps := AttemptsAreSteps(defs, key, s, seen, t, attempts[..n]);
      var s' := s.(store := AfterAttempts(s.store, Writes(t.Creates(), t.Deletes()), attempts));
      assert Next(defs, key, before[|before| - 1], Attempt(seen, t, attempts[n]), s') by {
        assert Calculated(defs, key, before[|before| - 1], seen, t);
      }
      AppendStep(defs, key, before, beforeSteps, Attempt(seen, t, attempts[n]), s');
      run, steps := before + [s'], beforeSteps + [Attempt(seen, t, attempts[n])];
    }
  }

  /** A Complete step: with the tables as they were when the message was looked up, and however they have grown since.
      */
  ghost predicate Completed(defs: seq<RelationDef>, key: ReporterResourceKey, tables: Tables, pos: nat,
                            t: TuplesToReplicate,
                            store: set<RelationsTuple>, store': set<RelationsTuple>)
  {
    forall now | Grown(tables, now) ::
      Next(defs, key, State(now, store, pos), Complete(tables, t), State(now, store', pos + 1))
  }

  lemma DiffCompletes(defs: seq<RelationDef>, key: ReporterResourceKey, tables: Tables, pos: nat, t: TuplesToReplicate,
                      store: set<RelationsTuple>)
    requires DiffFor(defs, key, tables, pos, t)
    ensures Completed(defs, key, tables, pos, t, store, PerformAll(store, Writes(t.Creates(), t.Deletes())))
  {
  }

  /** A message as it arrives: of an unknown operation, with a payload that does not parse, or an event. */
  datatype Message = Unknown | Unparsable(op: Operation) | Event(event: TupleEvent)

  /** What became of a diff's calls, in as many attempts as it took or was allowed: all of them or some prefixes, the
      token, and why it may have failed: with a limit, after that many calls that were not answered. */
  ghost predicate Replicated(store: set<RelationsTuple>, script: Script, op: Operation, ws: seq<Write>, maxRetries: int,
                             store': set<RelationsTuple>, ok: bool, token: string, attempts: seq<nat>, used: nat)
  {
    && Within(attempts, |ws|)
    && store' == (if ok then PerformAll(store, ws) else AfterAttempts(store, ws, attempts))
    && token == (if ok && !op.Deleted? then FirstToken(script, used, used + |ws|) else "")
    && (!ok ==> maxRetries != -1 && Failures(script) >= maxRetries)
  }

  /** An empty diff makes no calls and succeeds; any other is carried out with retries. */
  method Replicate(backend: Backend, op: Operation, t: TuplesToReplicate, maxRetries: int)
    returns (ok: bool, token: string, ghost attempts: seq<nat>, ghost used: nat)
    requires Calls(op, t) == Writes(t.Creates(), t.Deletes())
    requires !t.IsEmpty() ==> (op.Deleted? ==> t.tuplesToDelete.Some?) && (op.Created? ==> t.Creates() != [])
    modifies backend
    ensures Replicated(old(backend.tuples), old(backend.script), op, Writes(t.Creates(), t.Deletes()), maxRetries,
                       backend.tuples, ok, token, attempts, used)
  {
    if t.IsEmpty() {
      assert Writes(t.Creates(), t.Deletes()) == [];
      return true, "", [], 0;
    }
    ok, token, attempts, used := Retry(backend, op, t, maxRetries);
  }

  /** Look up, calculate, replicate; a failed lookup makes no calls. */
  method ProcessRelationsOperation(defs: seq<RelationDef>, key: ReporterResourceKey, e: TupleEvent,
                                   rows: seq<CommonRow>,
                                   backend: Backend, maxRetries: int, ghost tables: Tables, ghost pos: nat)
    returns (ok: bool, token: string, ghost t: TuplesToReplicate, ghost attempts: seq<nat>, ghost used: nat)
    requires RowsOf(rows, tables.commons) && pos < |tables.outbox| && e == tables.outbox[pos]
    requires e.commonVersion.Some? ==> e.commonVersion.value < UINT_RANGE
    modifies backend
    ensures FetchFor(tables.commons, e).None?
            || !(e.op.Deleted? || SelectionFilled(tables.commons, e.commonVersion, e.op)) ==>
              !ok && token == "" && attempts == [] && backend.tuples == old(backend.tuples)
    ensures FetchFor(tables.commons, e).Some?
            && (e.op.Deleted? || SelectionFilled(tables.commons, e.commonVersion, e.op)) ==>
              && DiffFor(defs, key, tables, pos, t)
              && Replicated(old(backend.tuples), old(backend.script), e.op, Writes(t.Creates(), t.Deletes()),
                  maxRetries,
                            backend.tuples, ok, token, attempts, used)
  {
    token, t, attempts, used := "", TuplesToReplicate(None, None), [], 0;
    var f := FetchRepresentations(rows, tables.commons, e);
    if f.None? {
      return false, token, t, attempts, used;
    }
    var tuples := CalculateTuplesFromRelationDefs(defs, f.value.current, f.value.previous, key);
    t := tuples;
    DispatchIsComplete(defs, key, tables.commons, e, t);
    ok, token, attempts, used := Replicate(backend, e.op, tuples, maxRetries);
  }

  /** A message is dropped when its operation is unknown or relations are off, and refused when it does not parse; both
      leave the backend alone. Otherwise success carries out the calculated diff in full, however often it had to be
      retried: a Complete step of the pipeline. Failure leaves a number of Attempt steps, none if the lookup failed; and
      with unlimited retries, or more than there are calls to come that are not answered, a failed lookup is the only
      failure. */
  method ProcessMessage(defs: seq<RelationDef>, key: ReporterResourceKey, message: Message, relationsEnabled: bool,
                        rows: seq<CommonRow>, backend: Backend, maxRetries: int, ghost tables: Tables, ghost pos: nat)
    returns (ok: bool, token: string, ghost t: TuplesToReplicate, ghost attempts: seq<nat>, ghost used: nat)
    requires RowsOf(rows, tables.commons)
    requires message.Event? ==> pos < |tables.outbox| && message.event == tables.outbox[pos]
    requires message.Event? && message.event.commonVersion.Some? ==> message.event.commonVersion.value < UINT_RANGE
    modifies backend
    ensures message.Unknown? || !relationsEnabled ==> ok && token == "" && backend.tuples == old(backend.tuples)
    ensures message.Unparsable? && relationsEnabled ==> !ok && token == "" && backend.tuples == old(backend.tuples)
    ensures message.Event? && relationsEnabled && ok ==>
              Completed(defs, key, tables, pos, t, old(backend.tuples), backend.tuples)
    ensures message.Event? && relationsEnabled && (ok || attempts != []) ==>
              && DiffFor(defs, key, tables, pos, t)
              && Replicated(old(backend.tuples), old(backend.script), message.event.op,
                  Writes(t.Creates(), t.Deletes()),
                            maxRetries, backend.tuples, ok, token, attempts, used)
    ensures message.Event? && relationsEnabled && !ok && attempts == [] ==>
              token == "" && backend.tuples == old(backend.tuples)
    ensures message.Event? && relationsEnabled && FetchFor(tables.commons, message.event).None? ==>
              !ok && attempts == []
    ensures message.Event? && relationsEnabled && Contiguous(tables)
            && (maxRetries == -1 || Failures(old(backend.script)) < maxRetries) ==>
              (ok <==> FetchFor(tables.commons, message.event).Some?)
  {
    if message.Unknown? || !relationsEnabled {
      return true, "", TuplesToReplicate(None, None), [], 0;
    }
    if message.Unparsable? {
      return false, "", TuplesToReplicate(None, None), [], 0;
    }
    ok, token, t, attempts, used :=
      ProcessRelationsOperation(defs, key, message.event, rows, backend, maxRetries, tables, pos);
    if ok {
      DiffCompletes(defs, key, tables, pos, t, old(backend.tuples));
    }
  }
}
