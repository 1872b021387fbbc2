/** The whole replication pipeline for one resource: transactions append to the outbox, a consumer works through it
    and writes to the relations backend. Attempts may stop after any backend call, the consumer may restart at any
    earlier event, transactions may run ahead of the consumer, and other writers may change everything that is not
    about this resource. */
module Pipeline {
  import opened Tuples
  import opened Representations
  import opened RelationDiff
  import opened TupleWriter
  import opened ResourceHistory
  import opened RowSelection

  datatype State = State(tables: Tables, store: set<RelationsTuple>, pos: nat)

  datatype Step =
    | Transact(c: Command)                                      // a report or delete transaction
    | Attempt(seen: Tables, t: TuplesToReplicate, calls: nat)   // the event at pos, abandoned after some backend calls
    | Complete(seen: Tables, t: TuplesToReplicate)              // the event at pos, carried out
    | Restart(at: nat)                                          // redelivery from an earlier event
    | Outside(store: set<RelationsTuple>)                       // other writers

  /** t' is t after more transactions. */
  ghost predicate Grown(t: Tables, t': Tables) {
    Consistent(t) && Consistent(t') && t.outbox <= t'.outbox && Keeps(t, t')
  }

  /** t is a result of the tuple calculation for an event, from the tables as they are. */
  ghost predicate DiffFor(defs: seq<RelationDef>, key: ReporterResourceKey, seen: Tables, pos: nat,
                          t: TuplesToReplicate) {
    && pos < |seen.outbox|
    && var f := FetchFor(seen.commons, seen.outbox[pos]);
       f.Some? && IsDiff(t, defs, key, f.value.current, f.value.previous)
  }

  /** The tables may have been read at any time before: other transactions may have committed since. */
  ghost predicate Calculated(defs: seq<RelationDef>, key: ReporterResourceKey, s: State, seen: Tables,
                             t: TuplesToReplicate) {
    Grown(seen, s.tables) && DiffFor(defs, key, seen, s.pos, t)
  }

  ghost predicate Next(defs: seq<RelationDef>, key: ReporterResourceKey, s: State, step: Step, s': State) {
    match step
    case Transact(c) => s' == s.(tables := After(s.tables, c))
    case Attempt(seen, t, calls) =>
      && Calculated(defs, key, s, seen, t) && calls <= |Writes(t.Creates(), t.Deletes())|
      && s' == s.(store := PerformAll(s.store, Writes(t.Creates(), t.Deletes())[..calls]))
    case Complete(seen, t) =>
      && Calculated(defs, key, s, seen, t)
      && s' == s.(store := PerformAll(s.store, Writes(t.Creates(), t.Deletes())), pos := s.pos + 1)
    case Restart(at) => at <= s.pos && s' == s.(pos := at)
    case Outside(store) => (forall x | About(key, x) :: x in store <==> x in s.store) && s' == s.(store := store)
  }

  const INIT := State(EMPTY, {}, 0)

  // ---------- what each event stands for ----------

  /** The projection of the representation persisted last among the first c ones. */
  function ProjectionAfter(defs: seq<RelationDef>, key: ReporterResourceKey, commons: map<nat, Data>,
                           c: nat): set<RelationsTuple> {
    if c == 0 then {} else Projection(defs, key, RepresentationAt(commons, c - 1))
  }

  /** Is x in the projection current after the first k events? */
  ghost predicate Projected(defs: seq<RelationDef>, key: ReporterResourceKey, t: Tables, k: nat, x: RelationsTuple)
    requires k <= |t.outbox|
  {
    x in ProjectionAfter(defs, key, t.commons, Numbered(t.outbox, k))
  }

  /** One clean pass over the first k events, each applied once and in order, each delete seeing the projection
      current at its place in the outbox. */
  ghost function CleanPass(defs: seq<RelationDef>, key: ReporterResourceKey, t: Tables, k: nat): set<RelationsTuple>
    requires k <= |t.outbox|
  {
    if k == 0 then {}
    else
      var before := CleanPass(defs, key, t, k - 1);
      var c := Numbered(t.outbox, k);
      if t.outbox[k - 1].op.Deleted? then before - ProjectionAfter(defs, key, t.commons, c)
      else if t.outbox[k - 1].commonVersion.None? then before
      else
        var old', new' := ProjectionAfter(defs, key, t.commons, c - 1), ProjectionAfter(defs, key, t.commons, c);
        before + (new' - old') - (old' - new')
  }

  /** x is in the projection at every event from here to the end (b), or at none of them (!b). */
  ghost predicate Steady(defs: seq<RelationDef>, key: ReporterResourceKey, t: Tables, from: nat, x: RelationsTuple,
                         b: bool) {
    forall i: nat | from <= i <= |t.outbox| :: Projected(defs, key, t, i, x) == b
  }

  predicate NoDelete(t: Tables, from: nat) {
    forall i: nat | from <= i < |t.outbox| :: !t.outbox[i].op.Deleted?
  }

  /** The invariant of a single tuple: if nothing still to be (re)played would touch it, it is already right. */
  ghost predicate Settled(defs: seq<RelationDef>, key: ReporterResourceKey, s: State, x: RelationsTuple) {
    && (Steady(defs, key, s.tables, s.pos, x, false) ==> x !in s.store)
    && (Steady(defs, key, s.tables, s.pos, x, true) && NoDelete(s.tables, s.pos) ==>
          (x in s.store <==> x in CleanPass(defs, key, s.tables, |s.tables.outbox|)))
  }

  ghost predicate Inv(defs: seq<RelationDef>, key: ReporterResourceKey, s: State) {
    && Consistent(s.tables) && s.pos <= |s.tables.outbox|
    && forall x | About(key, x) :: Settled(defs, key, s, x)
  }

  // ---------- growing tables do not change the past ----------

  lemma CountKept(t: Tables, t': Tables, k: nat)
    requires Grown(t, t') && k <= |t.outbox|
    ensures Numbered(t'.outbox, k) == Numbered(t.outbox, k) <= |t.commons|
  {
    assert t'.outbox == t.outbox + t'.outbox[|t.outbox|..];
    NumberedPrefix(t.outbox, t'.outbox[|t.outbox|..], k);
    NumberedMonotone(t.outbox, k, |t.outbox|);
  }

  lemma ProjectionKept(defs: seq<RelationDef>, key: ReporterResourceKey, t: Tables, t': Tables, c: nat)
    requires Grown(t, t') && c <= |t.commons|
    ensures ProjectionAfter(defs, key, t'.commons, c) == ProjectionAfter(defs, key, t.commons, c)
  {
    assert c > 0 ==> c - 1 in t.commons;
  }

  lemma ProjectedKept(defs: seq<RelationDef>, key: ReporterResourceKey, t: Tables, t': Tables, k: nat,
                      x: RelationsTuple)
    requires Grown(t, t') && k <= |t.outbox|
    ensures Projected(defs, key, t', k, x) == Projected(defs, key, t, k, x)
  {
    CountKept(t, t', k);
    ProjectionKept(defs, key, t, t', Numbered(t.outbox, k));
  }

  // ---------- the effect of one event on one tuple ----------

  /** What carrying out a diff, or a part of it, does to a tuple about the key. */
  lemma WritesOnTuple(defs: seq<RelationDef>, key: ReporterResourceKey, f: Fetched, t: TuplesToReplicate,
                      store: set<RelationsTuple>, calls: nat, x: RelationsTuple)
    requires Unambiguous(defs) && IsDiff(t, defs, key, f.current, f.previous) && About(key, x)
    requires calls <= |Writes(t.Creates(), t.Deletes())|
    ensures var cur, prev := Projection(defs, key, f.current), Projection(defs, key, f.previous);
            var part := PerformAll(store, Writes(t.Creates(), t.Deletes())[..calls]);
            var whole := PerformAll(store, Writes(t.Creates(), t.Deletes()));
            && ((x in cur <==> x in prev) ==> (x in part <==> x in store) && (x in whole <==> x in store))
            && (x in cur && x !in prev ==> x in whole)
            && (x !in cur && x in prev ==> x !in whole && (x in part ==> x in store))
  {
    GainedIsDifference(defs, key, f.previous, f.current);
    GainedIsDifference(defs, key, f.current, f.previous);
    ProjectionIsAbout(defs, key, f.previous);
    DirectEffect(store, t.Creates(), t.Deletes(), calls, x);
  }

  /** The fetched representations of a report event: the projections before and after it. */
  lemma ReportProjections(defs: seq<RelationDef>, key: ReporterResourceKey, t: Tables, i: nat)
    requires Consistent(t) && i < |t.outbox| && !t.outbox[i].op.Deleted?
    ensures var f := FetchFor(t.commons, t.outbox[i]);
            && f.Some?
            && (t.outbox[i].commonVersion.Some? ==>
                  && Projection(defs, key, f.value.current)
                    == ProjectionAfter(defs, key, t.commons, Numbered(t.outbox, i + 1))
                  && Projection(defs, key, f.value.previous)
                    == ProjectionAfter(defs, key, t.commons, Numbered(t.outbox, i)))
            && (t.outbox[i].commonVersion.None? ==> f.value == Fetched(None, None))
  {
    if t.outbox[i].commonVersion.Some? {
      PreviousIsThePrecedingOne(t, i);
    }
  }

  /** What the fetched projections say about a tuple: with a common version, what holds before and after the event. */
  lemma NumberedOnTuple(defs: seq<RelationDef>, key: ReporterResourceKey, t: Tables, i: nat, x: RelationsTuple)
    requires Consistent(t) && i < |t.outbox| && !t.outbox[i].op.Deleted? && t.outbox[i].commonVersion.Some?
    ensures var f := FetchFor(t.commons, t.outbox[i]);
            && f.Some?
            && (x in Projection(defs, key, f.value.current) <==> Projected(defs, key, t, i + 1, x))
            && (x in Projection(defs, key, f.value.previous) <==> Projected(defs, key, t, i, x))
  {
    ReportProjections(defs, key, t, i);
  }

  /** Without one, nothing; and nothing changes. */
  lemma UnnumberedOnTuple(defs: seq<RelationDef>, key: ReporterResourceKey, t: Tables, i: nat, x: RelationsTuple)
    requires i < |t.outbox| && !t.outbox[i].op.Deleted? && t.outbox[i].commonVersion.None?
    ensures var f := FetchFor(t.commons, t.outbox[i]);
            f.Some? && x !in Projection(defs, key, f.value.current) && x !in Projection(defs, key, f.value.previous)
    ensures Projected(defs, key, t, i + 1, x) == Projected(defs, key, t, i, x)
  {
  }

  /** Looked up in earlier tables, a report event still tells the projections before and after it, as far as they
      differ. */
  lemma FetchedOnTuple(defs: seq<RelationDef>, key: ReporterResourceKey, seen: Tables, t: Tables, i: nat,
                       x: RelationsTuple)
    requires Grown(seen, t) && i < |seen.outbox| && !seen.outbox[i].op.Deleted?
    ensures var f := FetchFor(seen.commons, seen.outbox[i]);
            var before, after := Projected(defs, key, t, i, x), Projected(defs, key, t, i + 1, x);
            && f.Some?
            && ((x in Projection(defs, key, f.value.current) <==> x in Projection(defs, key, f.value.previous)) <==>
                before == after)
            && (before != after ==> (x in Projection(defs, key, f.value.current) <==> after))
  {
    if seen.outbox[i].commonVersion.Some? {
      NumberedOnTuple(defs, key, seen, i, x);
    } else {
      UnnumberedOnTuple(defs, key, seen, i, x);
    }
    ProjectedKept(defs, key, seen, t, i, x);
    ProjectedKept(defs, key, seen, t, i + 1, x);
  }

  /** The same for a delete event: nothing, and the newest projection. */
  lemma DeleteProjections(defs: seq<RelationDef>, key: ReporterResourceKey, t: Tables, i: nat)
    requires Consistent(t) && i < |t.outbox| && t.outbox[i].op.Deleted? && FetchFor(t.commons, t.outbox[i]).Some?
    ensures var f := FetchFor(t.commons, t.outbox[i]).value;
            && Projection(defs, key, f.current) == {}
            && Projection(defs, key, f.previous)
              == ProjectionAfter(defs, key, t.commons, Numbered(t.outbox, |t.outbox|))
  {
    DeleteLookup(t, t.outbox[i]);
  }

  /** A report event sets the tuples its diff touches and leaves the others alone, also when it is cut short. */
  lemma ReportEffect(defs: seq<RelationDef>, key: ReporterResourceKey, s: State, seen: Tables, t: TuplesToReplicate,
                     calls: nat,
                     x: RelationsTuple)
    requires Unambiguous(defs) && About(key, x)
    requires Calculated(defs, key, s, seen, t) && !s.tables.outbox[s.pos].op.Deleted?
    requires calls <= |Writes(t.Creates(), t.Deletes())|
    ensures var before, after := Projected(defs, key, s.tables, s.pos, x), Projected(defs, key, s.tables, s.pos + 1, x);
            var part := PerformAll(s.store, Writes(t.Creates(), t.Deletes())[..calls]);
            var whole := PerformAll(s.store, Writes(t.Creates(), t.Deletes()));
            && (before == after ==> (x in part <==> x in s.store) && (x in whole <==> x in s.store))
            && (before != after ==> (x in whole <==> after))
  {
    FetchedOnTuple(defs, key, seen, s.tables, s.pos, x);
    var f := FetchFor(seen.commons, seen.outbox[s.pos]).value;
    WritesOnTuple(defs, key, f, t, s.store, calls, x);
  }

  /** A delete event removes the projection that was newest when it was looked up, which may be ahead of the event and
      behind what has been persisted since. */
  lemma DeleteEffect(defs: seq<RelationDef>, key: ReporterResourceKey, s: State, seen: Tables, t: TuplesToReplicate,
                     calls: nat,
                     x: RelationsTuple)
    requires Unambiguous(defs) && About(key, x)
    requires Calculated(defs, key, s, seen, t) && s.tables.outbox[s.pos].op.Deleted?
    requires calls <= |Writes(t.Creates(), t.Deletes())|
    ensures var part := PerformAll(s.store, Writes(t.Creates(), t.Deletes())[..calls]);
            var whole := PerformAll(s.store, Writes(t.Creates(), t.Deletes()));
            && (x in part ==> x in s.store)
            && (x in whole <==> x in s.store && !Projected(defs, key, s.tables, |seen.outbox|, x))
  {
    DeleteProjections(defs, key, seen, s.pos);
    ProjectedKept(defs, key, seen, s.tables, |seen.outbox|, x);
    var f := FetchFor(seen.commons, seen.outbox[s.pos]).value;
    WritesOnTuple(defs, key, f, t, s.store, calls, x);
  }
}
