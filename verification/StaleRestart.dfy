/** A run that goes stale. Three events are processed, the commit on revocation fails, the partition comes back at its
    beginning, the first event is replayed, the remembered offsets are committed after all, and the next consumer starts
    behind the second event, which would have taken the replayed tuple away again. */
module StaleRestart {
  import opened Tuples
  import opened Representations
  import opened RelationDiff
  import opened TupleWriter
  import opened ResourceHistory
  import opened RowSelection
  import opened MessageProcessing
  import opened Redelivery
  import P = Pipeline
  import V = Convergence
  import O = ConsumerOffsets

  ghost predicate Reachable(u: Setup, w: World) {
    exists run, steps :: IsRun(u, run, steps) && run[|run| - 1] == w
  }

  ghost predicate Happens(u: Setup, w: World) {
    Reachable(u, w) && |w.tables.outbox| <= 3
  }

  lemma ExtendRun(u: Setup, run: seq<World>, steps: seq<Step>, step: Step, w': World)
    requires IsRun(u, run, steps) && Next(u, run[|run| - 1], step, w') && |w'.tables.outbox| < UINT_RANGE - 1
    ensures IsRun(u, run + [w'], steps + [step])
  {
    forall i | 0 <= i <= |steps| ensures Next(u, (run + [w'])[i], (steps + [step])[i], (run + [w'])[i + 1]) {
      if i < |steps| {
        assert Next(u, run[i], steps[i], run[i + 1]);
      }
    }
  }

  lemma HappensNext(u: Setup, w: World, step: Step, w': World)
    requires Happens(u, w) && Next(u, w, step, w') && |w'.tables.outbox| <= 3
    ensures Happens(u, w')
  {
    var run, steps :| IsRun(u, run, steps) && run[|run| - 1] == w;
    ExtendRun(u, run, steps, step, w');
    var run' := run + [w'];
    assert run'[|run'| - 1] == w';
  }

  lemma InitHappens(u: Setup)
    ensures Happens(u, INIT)
  {
    assert IsRun(u, [INIT], []) && [INIT][|[INIT]| - 1] == INIT;
  }

  // ---------- three events ----------

  const IN_W1: Data := map["workspace_id" := Str("w1")]
  const IN_W2: Data := map["workspace_id" := Str("w2")]

  /** In workspace w1, then in w2, then reporter data only. */
  predicate First(t: Tables) {
    t.commons == map[0 := IN_W1] && |t.outbox| == 1 && t.outbox[0].commonVersion == Some(0) && !t.outbox[0].op.Deleted?
  }

  predicate Second(t: Tables) {
    && t.commons == map[0 := IN_W1, 1 := IN_W2] && |t.outbox| == 2
    && t.outbox[0].commonVersion == Some(0) && t.outbox[1].commonVersion == Some(1)
    && !t.outbox[0].op.Deleted? && !t.outbox[1].op.Deleted?
  }

  predicate Third(t: Tables) {
    && t.commons == map[0 := IN_W1, 1 := IN_W2] && |t.outbox| == 3
    && t.outbox[0].commonVersion == Some(0) && t.outbox[1].commonVersion == Some(1) && t.outbox[2].commonVersion == None
    && !t.outbox[0].op.Deleted? && !t.outbox[1].op.Deleted? && !t.outbox[2].op.Deleted?
  }

  const REPORT1: Command := Report(None, Some(IN_W1))
  const REPORT2: Command := Report(None, Some(IN_W2))
  const REPORT3: Command := Report(Some(map[]), None)

  lemma Reports1()
    ensures Consistent(After(EMPTY, REPORT1)) && First(After(EMPTY, REPORT1))
  {
    assert "workspace_id" in IN_W1;
    TransactionStep(EMPTY, REPORT1);
  }

  lemma Reports2(t: Tables)
    requires Consistent(t) && First(t)
    ensures Consistent(After(t, REPORT2)) && Second(After(t, REPORT2))
  {
    assert "workspace_id" in IN_W2;
    TransactionStep(t, REPORT2);
    assert After(t, REPORT2).outbox[0] == t.outbox[0];
  }

  lemma Reports3(t: Tables)
    requires Consistent(t) && Second(t)
    ensures Consistent(After(t, REPORT3)) && Third(After(t, REPORT3))
  {
    TransactionStep(t, REPORT3);
    assert After(t, REPORT3).outbox[0] == t.outbox[0] && After(t, REPORT3).outbox[1] == t.outbox[1];
  }

  lemma ThreeReports(u: Setup) returns (w: World)
    ensures Happens(u, w) && Consistent(w.tables) && Third(w.tables) && w == INIT.(tables := w.tables)
  {
    InitHappens(u);
    var w1 := INIT.(tables := After(EMPTY, REPORT1));
    Reports1();
    HappensNext(u, INIT, Transact(REPORT1), w1);
    var w2 := w1.(tables := After(w1.tables, REPORT2));
    Reports2(w1.tables);
    HappensNext(u, w1, Transact(REPORT2), w2);
    w := w2.(tables := After(w2.tables, REPORT3));
    Reports3(w2.tables);
    HappensNext(u, w2, Transact(REPORT3), w);
  }

  lemma PublishOne(u: Setup, w: World) returns (w': World)
    requires Happens(u, w) && Own(w.log, |w.log|) < |w.tables.outbox|
    ensures Happens(u, w') && w' == w.(log := w.log + [true]) && Own(w'.log, |w'.log|) == Own(w.log, |w.log|) + 1
  {
    w' := w.(log := w.log + [true]);
    HappensNext(u, w, Publish(true), w');
    OwnPrefix(w.log, [true], |w.log|);
  }

  lemma ThreePublished(u: Setup) returns (w: World)
    ensures Happens(u, w) && Consistent(w.tables) && Third(w.tables) && w.log == [true, true, true]
            && w.group == INIT.group
  {
    w := ThreeReports(u);
    w := PublishOne(u, w);
    w := PublishOne(u, w);
    w := PublishOne(u, w);
  }

  // ---------- a group of one ----------

  /** The one member, what it holds and remembers, and what is committed. */
  ghost predicate Alone(w: World, m: nat, position: map<nat, nat>, stored: seq<O.TopicPartition>,
                        inFlight: seq<seq<O.TopicPartition>>, committed: map<nat, nat>)
  {
    && w.group.committed == committed && w.group.members.Keys == {m}
    && w.group.members[m].position == position && w.group.members[m].stored == stored
      && w.group.members[m].inFlight == inFlight
  }

  lemma Coordinated(u: Setup, w: World, step: O.Step, g: O.Group) returns (w': World)
    requires Happens(u, w) && !O.Processes(step, u.partition) && O.Exclusive(w.group, step, u.partition)
    requires O.Next(w.group, step, g)
    ensures Happens(u, w')
    ensures w' == w.(group := g, reached := w'.reached)
    ensures w'.reached == if O.Assigns(step, u.partition) then O.StartOf(w.group, u.partition) else w.reached
  {
    w' := w.(group := g,
        reached := if O.Assigns(step, u.partition) then O.StartOf(w.group, u.partition) else w.reached);
    HappensNext(u, w, Coordinate(step), w');
  }

  /** A step of the one member that leaves it as c. */
  function With(w: World, m: nat, c: O.Member): O.Group { w.group.(members := w.group.members[m := c]) }

  lemma Assigned(u: Setup, w: World, m: nat) returns (w': World)
    requires Happens(u, w) && u.partition == 0 && w.group.members.Keys == {m} && w.group.members[m].position == map[]
    ensures Happens(u, w') && Next(u, w, Coordinate(O.Assign(m, 0)), w')
            && w' == w.(group := w'.group, reached := O.StartOf(w.group, 0))
    ensures Alone(w', m, map[0 := O.StartOf(w.group, 0)], w.group.members[m].stored, w.group.members[m].inFlight,
              w.group.committed)
  {
    var c := w.group.members[m];
    w' := Coordinated(u, w, O.Assign(m, 0), With(w, m, c.(position := c.position[0 := O.StartOf(w.group, 0)])));
  }

  lemma JoinAndAssign(u: Setup, w: World, m: nat) returns (w': World)
    requires Happens(u, w) && u.partition == 0 && w.group.members == map[]
    ensures Happens(u, w') && w' == w.(group := w'.group, reached := O.StartOf(w.group, 0))
    ensures Alone(w', m, map[0 := O.StartOf(w.group, 0)], [], [], w.group.committed)
  {
    var w1 := Coordinated(u, w, O.Join(m), With(w, m, O.NEW_MEMBER));
    w' := Assigned(u, w1, m);
  }

  lemma Taken(u: Setup, w: World, m: nat, position: map<nat, nat>, stored: seq<O.TopicPartition>,
              committed: map<nat, nat>)
    returns (w': World)
    requires Happens(u, w) && stored != [] && Alone(w, m, position, stored, [], committed)
    ensures Happens(u, w') && w' == w.(group := w'.group) && Alone(w', m, position, [], [stored], committed)
  {
    var c := w.group.members[m];
    assert c.inFlight + [c.stored] == [stored];
    w' := Coordinated(u, w, O.Take(m), With(w, m, c.(stored := [], inFlight := c.inFlight + [c.stored])));
  }

  lemma CommitFailed(u: Setup, w: World, m: nat, position: map<nat, nat>, stored: seq<O.TopicPartition>,
                     committed: map<nat, nat>)
    returns (w': World)
    requires Happens(u, w) && Alone(w, m, position, [], [stored], committed)
    ensures Happens(u, w') && w' == w.(group := w'.group) && Alone(w', m, position, stored, [], committed)
  {
    var c := w.group.members[m];
    assert O.Without(c.inFlight, 0) == [] && c.inFlight[0] + c.stored == stored;
    w' := Coordinated(u, w, O.CommitFail(m, 0),
        With(w, m, c.(inFlight := O.Without(c.inFlight, 0), stored := c.inFlight[0] + c.stored)));
  }

  lemma Committed(u: Setup, w: World, m: nat, position: map<nat, nat>, stored: seq<O.TopicPartition>,
                  tp: O.TopicPartition)
    returns (w': World)
    requires Happens(u, w) && tp in stored && Alone(w, m, position, [], [stored], map[])
    ensures Happens(u, w') && w' == w.(group := w'.group)
            && Alone(w', m, position, [], [], map[tp.partition := tp.offset])
  {
    var g := O.BatchCommits(w.group, m, 0, tp);
    w' := Coordinated(u, w, O.CommitOk(m, 0), g);
    assert O.Without([stored], 0) == [];
  }

  lemma Revoked(u: Setup, w: World, m: nat, o: nat, stored: seq<O.TopicPartition>, committed: map<nat, nat>)
    returns (w': World)
    requires Happens(u, w) && Alone(w, m, map[0 := o], stored, [], committed)
    ensures Happens(u, w') && w' == w.(group := w'.group) && Alone(w', m, map[], stored, [], committed)
  {
    var c := w.group.members[m];
    w' := Coordinated(u, w, O.Revoke(m, 0), With(w, m, c.(position := c.position - {0})));
  }

  lemma Left(u: Setup, w: World, m: nat) returns (w': World)
    requires Happens(u, w) && w.group.members.Keys == {m}
    ensures Happens(u, w') && w' == w.(group := w.group.(members := map[]))
  {
    w' := Coordinated(u, w, O.Leave(m), w.group.(members := w.group.members - {m}));
  }

  // ---------- processing ----------

  const LOG := [true, true, true]

  lemma OwnIsOffset(o: nat)
    requires o <= 3
    ensures Own(LOG, o) == o
  {
    assert Own(LOG, 0) == 0 && Own(LOG, 1) == 1 && Own(LOG, 2) == 2 && Own(LOG, 3) == 3;
  }

  ghost predicate Moves(u: Setup, t: Tables, o: nat, x: RelationsTuple, was: bool, now: bool)
    requires o < |t.outbox|
  {
    var before, after := P.Projected(u.defs, u.key, t, o, x), P.Projected(u.defs, u.key, t, o + 1, x);
    if before == after then now == was else now == after
  }

  lemma DiffExists(u: Setup, tables: Tables, o: nat) returns (t: TuplesToReplicate)
    requires o < |tables.outbox| && !tables.outbox[o].op.Deleted?
    ensures P.DiffFor(u.defs, u.key, tables, o, t)
  {
    var f := FetchFor(tables.commons, tables.outbox[o]).value;
    t := SomeDiff(u.defs, u.key, f.current, f.previous);
  }

  lemma EventMoves(u: Setup, tables: Tables, store: set<RelationsTuple>, o: nat, t: TuplesToReplicate,
                   x: RelationsTuple)
    requires Unambiguous(u.defs) && About(u.key, x) && Consistent(tables) && o < |tables.outbox|
             && !tables.outbox[o].op.Deleted?
    requires P.DiffFor(u.defs, u.key, tables, o, t)
    ensures Moves(u, tables, o, x, x in store, x in PerformAll(store, Writes(t.Creates(), t.Deletes())))
  {
    P.ReportEffect(u.defs, u.key, P.State(tables, store, o), tables, t, 0, x);
  }

  /** Some correct diff of the event, carried out: a tuple that the event decides about is then decided. */
  lemma EventCompletes(u: Setup, tables: Tables, store: set<RelationsTuple>, o: nat, x: RelationsTuple)
    returns (t: TuplesToReplicate, store': set<RelationsTuple>)
    requires Unambiguous(u.defs) && About(u.key, x) && Consistent(tables) && o < |tables.outbox|
             && !tables.outbox[o].op.Deleted?
    ensures P.Next(u.defs, u.key, P.State(tables, store, o), P.Complete(tables, t), P.State(tables, store', o + 1))
    ensures Moves(u, tables, o, x, x in store, x in store')
  {
    t := DiffExists(u, tables, o);
    store' := PerformAll(store, Writes(t.Creates(), t.Deletes()));
    DiffCompletes(u.defs, u.key, tables, o, t, store);
    assert P.Grown(tables, tables);
    EventMoves(u, tables, store, o, t, x);
  }

  lemma MemberAdvances(w: World, m: nat, o: nat, stored: seq<O.TopicPartition>, committed: map<nat, nat>, keep: bool)
    returns (g: O.Group)
    requires Alone(w, m, map[0 := o], stored, [], committed)
    ensures O.Next(w.group, O.Process(m, 0, keep), g)
    ensures Alone(w.(group := g), m, map[0 := o + 1], if keep then stored + [O.TopicPartition(0, o)] else stored,
              [], committed)
  {
    var c := w.group.members[m];
    g := With(w, m, O.Advanced(c, 0, keep)).(processed := w.group.processed + {O.TopicPartition(0, o)});
    assert c.position[0 := o + 1] == map[0 := o + 1];
  }

  lemma HandleIsStep(u: Setup, w: World, m: nat, o: nat, keep: bool, t: TuplesToReplicate, w': World)
    requires o < 3 && w.log == LOG && w.reached == o && O.Holds(w.group, m, u.partition)
             && w.group.members[m].position[u.partition] == o
    requires w' == w.(store := w'.store, group := w'.group, reached := o + 1)
    requires O.Next(w.group, O.Process(m, u.partition, keep), w'.group)
    requires P.Next(u.defs, u.key, P.State(w.tables, w.store, o), P.Complete(w.tables, t),
               P.State(w.tables, w'.store, o + 1))
    ensures Next(u, w, Handle(m, w.tables, t, keep), w')
  {
    OwnIsOffset(o);
    OwnIsOffset(o + 1);
  }

  /** The member at offset o processes that event. */
  lemma Handled(u: Setup, w: World, m: nat, o: nat, stored: seq<O.TopicPartition>, committed: map<nat, nat>,
                keep: bool, x: RelationsTuple)
    returns (w': World)
    requires Happens(u, w) && u.partition == 0 && Unambiguous(u.defs) && w.log == LOG && About(u.key, x)
    requires Consistent(w.tables) && |w.tables.outbox| == 3 && P.NoDelete(w.tables, 0)
    requires o < 3 && w.reached == o && Alone(w, m, map[0 := o], stored, [], committed)
    ensures Happens(u, w') && w' == w.(store := w'.store, group := w'.group, reached := o + 1)
    ensures Alone(w', m, map[0 := o + 1], if keep then stored + [O.TopicPartition(0, o)] else stored, [], committed)
    ensures Moves(u, w.tables, o, x, x in w.store, x in w'.store)
  {
    var t, store' := EventCompletes(u, w.tables, w.store, o, x);
    var g := MemberAdvances(w, m, o, stored, committed, keep);
    w' := w.(store := store', group := g, reached := o + 1);
    HandleIsStep(u, w, m, o, keep, t, w');
    HappensNext(u, w, Handle(m, w.tables, t, keep), w');
  }

  // ---------- the run ----------

  function Stale(key: ReporterResourceKey): RelationsTuple { TupleFor(key, WORKSPACE_DEF, "w1") }

  function Live(key: ReporterResourceKey): Setup { Setup([WORKSPACE_DEF], key, 0) }

  function A(): O.TopicPartition { O.TopicPartition(0, 0) }

  function B(): O.TopicPartition { O.TopicPartition(0, 1) }

  function C(): O.TopicPartition { O.TopicPartition(0, 2) }

  /** The tuple is in the projection after the first event, and at no other time. */
  lemma ProjectedOnce(key: ReporterResourceKey, t: Tables)
    requires Third(t)
    ensures var u, x := Live(key), Stale(key);
            && !P.Projected(u.defs, u.key, t, 0, x) && P.Projected(u.defs, u.key, t, 1, x)
            && !P.Projected(u.defs, u.key, t, 2, x) && !P.Projected(u.defs, u.key, t, 3, x)
  {
    var u, x := Live(key), Stale(key);
    assert Numbered(t.outbox, 1) == 1 && Numbered(t.outbox, 2) == 2 && Numbered(t.outbox, 3) == 2;
    var r1, r2 := RepresentationAt(t.commons, 0), RepresentationAt(t.commons, 1);
    assert 0 in t.commons && 1 in t.commons && "workspace_id" in IN_W1 && "workspace_id" in IN_W2;
    assert WORKSPACE_DEF in u.defs && "w1" in Values(WORKSPACE_DEF, r1) && Values(WORKSPACE_DEF, r2) == {"w2"};
    assert x !in Projection(u.defs, key, r2) by {
      assert forall v | v in Values(WORKSPACE_DEF, r2) :: TupleFor(key, WORKSPACE_DEF, v) != x;
    }
  }

  /** The three events are there, and published. */
  ghost predicate Ready(w: World) {
    Consistent(w.tables) && Third(w.tables) && w.log == LOG
  }

  lemma NoDeletes(t: Tables)
    requires Third(t)
    ensures P.NoDelete(t, 0)
  {
  }

  lemma StaleMoves(key: ReporterResourceKey, t: Tables, o: nat, was: bool, now: bool)
    requires Third(t) && o < 3 && Moves(Live(key), t, o, Stale(key), was, now)
    ensures now <==> o == 0 || (o == 2 && was)
  {
    ProjectedOnce(key, t);
  }

  /** Processing an event, with what it means for the tuple: the first one brings it, the second takes it away. */
  lemma Processed(key: ReporterResourceKey, w: World, m: nat, o: nat, stored: seq<O.TopicPartition>,
                  committed: map<nat, nat>, keep: bool)
    returns (w': World)
    requires Happens(Live(key), w) && Ready(w) && o < 3 && w.reached == o
             && Alone(w, m, map[0 := o], stored, [], committed)
    ensures Happens(Live(key), w') && w' == w.(store := w'.store, group := w'.group, reached := o + 1)
    ensures Alone(w', m, map[0 := o + 1], if keep then stored + [O.TopicPartition(0, o)] else stored, [], committed)
    ensures Stale(key) in w'.store <==> o == 0 || (o == 2 && Stale(key) in w.store)
  {
    NoDeletes(w.tables);
    w' := Handled(Live(key), w, m, o, stored, committed, keep, Stale(key));
    StaleMoves(key, w.tables, o, Stale(key) in w.store, Stale(key) in w'.store);
  }

  /** The three events processed and stored by member 0, one after the other. */
  lemma OneProcessed(key: ReporterResourceKey) returns (w: World)
    ensures Happens(Live(key), w) && Ready(w) && w.reached == 1 && Alone(w, 0, map[0 := 1], [A()], [], map[])
  {
    w := ThreePublished(Live(key));
    w := JoinAndAssign(Live(key), w, 0);
    w := Processed(key, w, 0, 0, [], map[], true);
    assert [] + [A()] == [A()];
  }

  lemma AllProcessed(key: ReporterResourceKey) returns (w: World)
    ensures Happens(Live(key), w) && Ready(w) && Alone(w, 0, map[0 := 3], [A(), B(), C()], [], map[])
  {
    w := OneProcessed(key);
    w := Processed(key, w, 0, 1, [A()], map[], true);
    assert [A()] + [B()] == [A(), B()];
    w := Processed(key, w, 0, 2, [A(), B()], map[], true);
    assert [A(), B()] + [C()] == [A(), B(), C()];
  }

  /** The commit on revocation fails, so all three are still remembered. */
  lemma NotCommitted(key: ReporterResourceKey) returns (w: World)
    ensures Happens(Live(key), w) && Ready(w) && Alone(w, 0, map[0 := 3], [A(), B(), C()], [], map[])
  {
    w := AllProcessed(key);
    w := Taken(Live(key), w, 0, map[0 := 3], [A(), B(), C()], map[]);
    w := CommitFailed(Live(key), w, 0, map[0 := 3], [A(), B(), C()], map[]);
  }

  /** Assigned again, at the beginning. */
  lemma AssignedAgain(key: ReporterResourceKey) returns (w: World)
    ensures Happens(Live(key), w) && Ready(w) && w.reached == 0 && Alone(w, 0, map[0 := 0], [A(), B(), C()], [], map[])
  {
    w := NotCommitted(key);
    w := Revoked(Live(key), w, 0, 3, [A(), B(), C()], map[]);
    w := Assigned(Live(key), w, 0);
  }

  /** The first event is replayed, and the token update fails: its offset is not stored. Then shutdown commits what is
      remembered. */
  lemma FirstReplayed(key: ReporterResourceKey) returns (w: World)
    ensures Happens(Live(key), w) && Ready(w) && Stale(key) in w.store && w.reached == 1
    ensures Alone(w, 0, map[0 := 1], [], [], map[0 := 2])
  {
    w := AssignedAgain(key);
    w := Processed(key, w, 0, 0, [A(), B(), C()], map[], false);
    w := Taken(Live(key), w, 0, map[0 := 1], [A(), B(), C()], map[]);
    w := Committed(Live(key), w, 0, map[0 := 1], [A(), B(), C()], C());
  }

  /** The next consumer joins. */
  lemma NextJoined(key: ReporterResourceKey) returns (w: World)
    ensures Happens(Live(key), w) && Ready(w) && Stale(key) in w.store && w.reached == 1
    ensures Alone(w, 1, map[], [], [], map[0 := 2])
  {
    w := FirstReplayed(key);
    w := Left(Live(key), w, 0);
    w := Coordinated(Live(key), w, O.Join(1), With(w, 1, O.NEW_MEMBER));
  }

  /** Its assignment starts at the third event: ahead of the point reached, beyond the second. */
  lemma RestartedAhead(key: ReporterResourceKey) returns (w: World, w': World)
    ensures Happens(Live(key), w) && Happens(Live(key), w') && Next(Live(key), w, Coordinate(O.Assign(1, 0)), w')
    ensures O.StartOf(w.group, 0) > w.reached && !SkipsNothing(Live(key), w)
    ensures Ready(w') && Stale(key) in w'.store && w'.reached == 2 && Alone(w', 1, map[0 := 2], [], [], map[0 := 2])
  {
    w := NextJoined(key);
    w' := Assigned(Live(key), w, 1);
    assert w.log[1];
  }

  /** A restart ahead of the point reached leaves a stale grant: the world is caught up, and the store holds a tuple
      that the last representation does not have. */
  lemma StaleAfterRestart(key: ReporterResourceKey) returns (w: World)
    ensures Reachable(Live(key), w) && CaughtUp(w) && About(key, Stale(key))
    ensures Stale(key) in w.store && Stale(key) !in V.LastProjection([WORKSPACE_DEF], key, w.tables)
  {
    var before, after := RestartedAhead(key);
    w := Processed(key, after, 1, 2, [], map[0 := 2], true);
    OwnIsOffset(3);
    ProjectedOnce(key, w.tables);
  }
}
