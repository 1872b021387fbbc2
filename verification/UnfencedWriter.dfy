/** A run in which the fence does not help. A member is slow in writing the first event; the partition is given to
    another, whose acquisition fails and which goes on with an empty token: the version stays the first member's, and
    the fence lets both through. */
module UnfencedWriter {
  import opened Tuples
  import opened RelationDiff
  import opened TupleWriter
  import opened ResourceHistory
  import opened FencedGroup
  import P = Pipeline
  import V = Convergence
  import O = ConsumerOffsets
  import F = Fencing
  import R = Redelivery
  import S = StaleRestart

  function Live(key: ReporterResourceKey): Setup { Setup([WORKSPACE_DEF], key, 0, "l") }

  function Start(): World {
    World(EMPTY, {}, O.Group(map[], map[], {}), [], F.Locks({F.Version("l", "i")}, map[], {"i"}), map[], "i", 0)
  }

  // The run is put together step by step inside any set of worlds that contains the start and is closed under steps;
  // the
  // set of the worlds that occur in runs is one.

  ghost predicate Closed(u: Setup, ws: iset<World>) {
    && Start() in ws
    && forall w, step, w' | w in ws && Next(u, w, step, w') && |w'.tables.outbox| <= 3 :: w' in ws
  }

  ghost predicate In(u: Setup, ws: iset<World>, w: World) {
    Closed(u, ws) && w in ws && |w.tables.outbox| <= 3
  }

  predicate Small(u: Setup) {
    u.partition == 0 && u.lock == "l"
  }

  lemma Then(u: Setup, ws: iset<World>, w: World, step: Step, w': World)
    requires In(u, ws, w) && Next(u, w, step, w') && |w'.tables.outbox| <= 3
    ensures In(u, ws, w')
  {
  }

  lemma ThreeReports(u: Setup, ws: iset<World>) returns (t: Tables)
    requires Closed(u, ws)
    ensures Consistent(t) && S.Third(t) && In(u, ws, Start().(tables := t))
  {
    var t1 := After(EMPTY, S.REPORT1);
    S.Reports1();
    Then(u, ws, Start(), Transact(S.REPORT1), Start().(tables := t1));
    var t2 := After(t1, S.REPORT2);
    S.Reports2(t1);
    Then(u, ws, Start().(tables := t1), Transact(S.REPORT2), Start().(tables := t2));
    t := After(t2, S.REPORT3);
    S.Reports3(t2);
    Then(u, ws, Start().(tables := t2), Transact(S.REPORT3), Start().(tables := t));
  }

  lemma PublishOne(u: Setup, ws: iset<World>, w: World) returns (w': World)
    requires In(u, ws, w) && Small(u) && R.Own(w.log, |w.log|) < |w.tables.outbox|
    ensures In(u, ws, w') && w' == w.(log := w.log + [true]) && R.Own(w'.log, |w'.log|) == R.Own(w.log, |w.log|) + 1
  {
    w' := w.(log := w.log + [true]);
    Then(u, ws, w, Publish(true), w');
    R.OwnPrefix(w.log, [true], |w.log|);
  }

  /** The three events, published; nobody has joined yet. */
  lemma Published(u: Setup, ws: iset<World>) returns (w: World)
    requires Closed(u, ws) && Small(u)
    ensures In(u, ws, w) && Consistent(w.tables) && S.Third(w.tables) && w == Start().(tables := w.tables, log := S.LOG)
  {
    var t := ThreeReports(u, ws);
    w := Start().(tables := t);
    w := PublishOne(u, ws, w);
    w := PublishOne(u, ws, w);
    w := PublishOne(u, ws, w);
  }

  function At(o: nat): O.Member { O.NEW_MEMBER.(position := map[0 := o]) }

  lemma JoinAndAssign(u: Setup, ws: iset<World>, w: World, m: nat) returns (w': World)
    requires In(u, ws, w) && Small(u) && m !in w.group.members && m !in w.tokens && w.group.committed == map[]
    ensures In(u, ws, w') && w' == w.(group := w.group.(members := w.group.members[m := At(0)]))
  {
    var g := w.group.(members := w.group.members[m := O.NEW_MEMBER]);
    Then(u, ws, w, Coordinate(O.Join(m)), w.(group := g));
    var g' := g.(members := g.members[m := At(0)]);
    w' := w.(group := g');
    assert w.tokens - {m} == w.tokens;
    Then(u, ws, w.(group := g), Coordinate(O.Assign(m, 0)), w');
  }

  /** The first member has the lock. */
  lemma Acquired(u: Setup, ws: iset<World>, w: World) returns (w': World)
    requires In(u, ws, w) && Small(u) && w.locks == Start().locks && w.tokens == map[]
    requires O.Holds(w.group, 0, 0) && w.group.members[0] == At(0)
    ensures In(u, ws, w') && w' == w.(locks := w'.locks, tokens := map[0 := "a"], holder := "a", front := 0)
    ensures F.FenceHolds(w'.locks, "l", "a") && F.FenceHolds(w'.locks, "l", "")
  {
    var a := F.Pending("l", "a", Some("i"));
    var reading := F.Locks({F.Version("l", "i")}, map[0 := a], {"i", "a"});
    assert F.Held(w.locks, "l", "i");
    Then(u, ws, w, OtherLock(F.Read(0, a)), w.(locks := reading));
    var locks := F.Locks({F.Version("l", "a")}, map[], {"i", "a"});
    assert reading.pending - {0} == map[];
    assert F.Next(reading, F.Swap(0), locks);
    w' := w.(locks := locks, tokens := map[0 := "a"], holder := "a", front := 0);
    Then(u, ws, w.(locks := reading), Acquire(0, 0), w');
    assert F.Version("l", "a") in locks.versions;
  }

  /** The events are there, and two members that both think the partition theirs, the second without a token and at o.
      */
  ghost predicate Two(w: World, o: nat) {
    && Consistent(w.tables) && S.Third(w.tables) && w.log == S.LOG && w.holder == "a"
    && w.group.members.Keys == {0, 1} && w.group.members[0] == At(0) && w.group.members[1].position == map[0 := o]
    && w.tokens == map[0 := "a", 1 := ""] && F.FenceHolds(w.locks, "l", "a") && F.FenceHolds(w.locks, "l", "")
  }

  lemma TwoMembers(u: Setup, ws: iset<World>) returns (w: World)
    requires Closed(u, ws) && Small(u)
    ensures In(u, ws, w) && Two(w, 0)
  {
    w := Published(u, ws);
    w := JoinAndAssign(u, ws, w, 0);
    w := Acquired(u, ws, w);
    w := JoinAndAssign(u, ws, w, 1);
    var w' := w.(tokens := w.tokens[1 := ""]);
    Then(u, ws, w, FailToAcquire(1), w');
    w := w';
  }

  lemma Advances(w: World, o: nat) returns (g: O.Group)
    requires Two(w, o)
    ensures O.Next(w.group, O.Process(1, 0, true), g) && Two(w.(group := g), o + 1)
  {
    var c := w.group.members[1];
    g := w.group.(members := w.group.members[1 := O.Advanced(c, 0, true)],
                  processed := w.group.processed + {O.TopicPartition(0, o)});
    assert c.position[0 := o + 1] == map[0 := o + 1];
  }

  lemma HandleIsStep(u: Setup, w: World, o: nat, t: TuplesToReplicate, w': World)
    requires Small(u) && o < 3 && w.log == S.LOG && w.holder != "" && w' == w.(store := w'.store, group := w'.group)
    requires O.Holds(w.group, 1, 0) && w.group.members[1].position[0] == o
             && O.Next(w.group, O.Process(1, 0, true), w'.group)
    requires 1 in w.tokens && w.tokens[1] == "" && F.FenceHolds(w.locks, "l", "")
    requires P.Next(u.defs, u.key, P.State(w.tables, w.store, o), P.Complete(w.tables, t),
               P.State(w.tables, w'.store, o + 1))
    ensures Next(u, w, Handle(1, w.tables, t, true), w')
  {
    S.OwnIsOffset(o);
  }

  /** The second member processes an event: its empty token passes the fence. */
  lemma SecondProcesses(key: ReporterResourceKey, ws: iset<World>, w: World, o: nat) returns (w': World)
    requires In(Live(key), ws, w) && Two(w, o) && o < 3
    ensures In(Live(key), ws, w') && Two(w', o + 1)
  {
    S.NoDeletes(w.tables);
    var t, store' := S.EventCompletes(S.Live(key), w.tables, w.store, o, S.Stale(key));
    var g := Advances(w, o);
    w' := w.(store := store', group := g);
    HandleIsStep(Live(key), w, o, t, w');
    Then(Live(key), ws, w, Handle(1, w.tables, t, true), w');
  }

  /** The first member's call for the first event goes through at last: the version is still its own. */
  lemma FirstWrites(key: ReporterResourceKey, ws: iset<World>, w: World) returns (w': World)
    requires In(Live(key), ws, w) && Two(w, 3)
    ensures In(Live(key), ws, w') && Two(w', 3) && S.Stale(key) in w'.store
  {
    var u, r, x := Live(key), S.Live(key), S.Stale(key);
    S.NoDeletes(w.tables);
    S.OwnIsOffset(0);
    var t := S.DiffExists(r, w.tables, 0);
    var calls := Writes(t.Creates(), t.Deletes());
    assert calls[..|calls|] == calls;
    w' := w.(store := PerformAll(w.store, calls));
    Then(u, ws, w, Attempt(0, w.tables, t, |calls|), w');
    S.EventMoves(r, w.tables, w.store, 0, t, x);
    S.StaleMoves(key, w.tables, 0, x in w.store, x in w'.store);
  }

  lemma Stays(key: ReporterResourceKey, ws: iset<World>) returns (w: World)
    requires Closed(Live(key), ws)
    ensures In(Live(key), ws, w) && Two(w, 3) && S.Stale(key) in w.store
  {
    w := TwoMembers(Live(key), ws);
    w := SecondProcesses(key, ws, w, 0);
    w := SecondProcesses(key, ws, w, 1);
    w := SecondProcesses(key, ws, w, 2);
    w := FirstWrites(key, ws, w);
  }

  // ---------- as a run ----------

  /** Some run from the start leads there. */
  ghost predicate Occurs(u: Setup, w: World) {
    exists run, steps :: IsPath(u, run, steps) && run[0] == Start() && run[|run| - 1] == w
  }

  lemma ExtendPath(u: Setup, run: seq<World>, steps: seq<Step>, step: Step, w': World)
    requires IsPath(u, run, steps) && Next(u, run[|run| - 1], step, w') && |w'.tables.outbox| < UINT_RANGE - 1
    ensures IsPath(u, run + [w'], steps + [step])
  {
    var run', steps' := run + [w'], steps + [step];
    forall i | 0 <= i < |steps'| ensures Next(u, run'[i], steps'[i], run'[i + 1]) {
      if i < |steps| {
        assert Next(u, run[i], steps[i], run[i + 1]);
      }
    }
  }

  lemma OccursThen(u: Setup, w: World, step: Step, w': World)
    requires Occurs(u, w) && Next(u, w, step, w') && |w'.tables.outbox| <= 3
    ensures Occurs(u, w')
  {
    var run, steps :| IsPath(u, run, steps) && run[0] == Start() && run[|run| - 1] == w;
    ExtendPath(u, run, steps, step, w');
    var run' := run + [w'];
    assert run'[0] == Start() && run'[|run'| - 1] == w';
  }

  lemma StartOccurs(u: Setup)
    requires Small(u)
    ensures Initial(u, Start()) && Occurs(u, Start())
  {
    assert F.VersionsOf(Start().locks, "l") == {F.Version("l", "i")};
    assert IsPath(u, [Start()], []) && [Start()][|[Start()]| - 1] == Start();
  }

  lemma RunsAreClosed(u: Setup)
    requires Small(u)
    ensures Closed(u, iset w | Occurs(u, w))
  {
    var ws := iset w | Occurs(u, w);
    StartOccurs(u);
    forall w, step, w' | w in ws && Next(u, w, step, w') && |w'.tables.outbox| <= 3 ensures w' in ws {
      OccursThen(u, w, step, w');
    }
  }

  /** The second member has processed every event, and the store has a tuple that the last representation does not have.
      */
  ghost predicate IsStale(key: ReporterResourceKey, w: World) {
    && O.Holds(w.group, 1, 0) && Offset(Live(key), w, 1) == |w.log| && R.Own(w.log, |w.log|) == |w.tables.outbox|
    && About(key, S.Stale(key)) && S.Stale(key) in w.store
    && S.Stale(key) !in V.LastProjection([WORKSPACE_DEF], key, w.tables)
  }

  lemma TwoIsStale(key: ReporterResourceKey, w: World)
    requires Two(w, 3) && S.Stale(key) in w.store
    ensures IsStale(key, w)
  {
    S.OwnIsOffset(3);
    S.ProjectedOnce(key, w.tables);
  }

  /** When the acquisition of the partition's new holder fails, both members' calls pass the fence, and a run ends
      stale. */
  lemma UnfencedGoesStale(key: ReporterResourceKey) returns (w: World)
    ensures Initial(Live(key), Start()) && Occurs(Live(key), w) && IsStale(key, w)
  {
    StartOccurs(Live(key));
    RunsAreClosed(Live(key));
    w := Stays(key, iset w | Occurs(Live(key), w));
    TwoIsStale(key, w);
  }
}
