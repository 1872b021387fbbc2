/** Offsets: processed messages are remembered, taken in batches, committed or put back, while the consumer loop, a
    shutdown and a rebalance may all be committing, and members come, restart and go. */
module ConsumerOffsets {
  datatype TopicPartition = TopicPartition(partition: nat, offset: nat)

  /** One consumer of the group. */
  datatype Member = Member(
    position: map<nat, nat>,               // assigned partitions, and the next offset to poll
    stored: seq<TopicPartition>,           // OffsetStorage
    inFlight: seq<seq<TopicPartition>>,    // batches taken by commits whose call has not returned
    appended: multiset<TopicPartition>,    // everything ever stored
    acked: multiset<TopicPartition>)       // everything whose commit call returned success

  datatype Group = Group(
    members: map<nat, Member>,
    committed: map<nat, nat>,              // what the broker has, by partition
    processed: set<TopicPartition>)        // messages for which ProcessMessage has succeeded

  datatype Step =
    | Join(m: nat)                                   // a consumer is created (or re-created after an error)
    | Assign(m: nat, partition: nat)                 // polling starts at the committed offset
    | Revoke(m: nat, partition: nat)
    | Process(m: nat, partition: nat, store: bool)   // success; the offset is not stored if the token update failed
    | Stop(m: nat)                                   // a message failed: the loop ends, nothing more is polled
    | Take(m: nat)                                   // commitStoredOffsets takes the stored offsets
    | CommitOk(m: nat, batch: nat)
    | CommitFail(m: nat, batch: nat)                 // restored; the broker may have applied it all the same
    | Leave(m: nat)

  const NEW_MEMBER := Member(map[], [], [], multiset{}, multiset{})

  function StartOf(g: Group, partition: nat): nat {
    if partition in g.committed then g.committed[partition] else 0
  }

  function Without<T>(s: seq<T>, i: nat): seq<T>
    requires i < |s|
  {
    s[..i] + s[i + 1..]
  }

  /** A commit of the batch: the broker keeps one of the batch's offsets for each partition it names. */
  ghost predicate Applies(committed: map<nat, nat>, batch: seq<TopicPartition>, committed': map<nat, nat>) {
    && committed.Keys <= committed'.Keys
    && forall p | p in committed' ::
        (p in committed && committed'[p] == committed[p]) || TopicPartition(p, committed'[p]) in batch
  }

  /** The member after processing a message of the partition. */
  function Advanced(c: Member, p: nat, store: bool): Member
    requires p in c.position
  {
    var tp := TopicPartition(p, c.position[p]);
    var c' := c.(position := c.position[p := c.position[p] + 1]);
    if store then c'.(stored := c.stored + [tp], appended := c.appended + multiset{tp}) else c'
  }

  /** A step of an existing member. */
  ghost predicate MemberStep(g: Group, c: Member, step: Step, g': Group)
    requires !step.Join? && !step.Leave?
  {
    match step
    case Assign(m, p) => g' == g.(members := g.members[m := c.(position := c.position[p := StartOf(g, p)])])
    case Revoke(m, p) => g' == g.(members := g.members[m := c.(position := c.position - {p})])
    case Process(m, p, store) =>
      && p in c.position
      && var tp := TopicPartition(p, c.position[p]);
         g' == g.(processed := g.processed + {tp}, members := g.members[m := Advanced(c, p, store)])
    case Stop(m) => g' == g.(members := g.members[m := c.(position := map[])])
    case Take(m) =>
      c.stored != [] && g' == g.(members := g.members[m := c.(stored := [], inFlight := c.inFlight + [c.stored])])
    case CommitOk(m, b) =>
      && b < |c.inFlight| && Applies(g.committed, c.inFlight[b], g'.committed)
      && g' == g.(committed := g'.committed,
                  members := g.members[m := c.(inFlight := Without(c.inFlight, b),
                      acked := c.acked + multiset(c.inFlight[b]))])
    case CommitFail(m, b) =>
      && b < |c.inFlight| && Applies(g.committed, c.inFlight[b], g'.committed)
      && g' == g.(committed := g'.committed,
                  members := g.members[m := c.(inFlight := Without(c.inFlight, b), stored := c.inFlight[b] + c.stored)])
  }

  ghost predicate Next(g: Group, step: Step, g': Group) {
    match step
    case Join(m) => m !in g.members && g' == g.(members := g.members[m := NEW_MEMBER])
    case Leave(m) => m in g.members && g' == g.(members := g.members - {m})
    case _ =>
      step.m in g.members && MemberStep(g, g.members[step.m], step, g')
  }

  ghost predicate IsRun(run: seq<Group>, steps: seq<Step>) {
    && |run| == |steps| + 1 && run[0] == Group(map[], map[], {})
    && forall i | 0 <= i < |steps| :: Next(run[i], steps[i], run[i + 1])
  }

  // ---------- committed offsets ----------

  /** Every message of the partition below the offset has been processed. */
  ghost predicate DoneBelow(processed: set<TopicPartition>, partition: nat, offset: nat) {
    forall o: nat | o < offset :: TopicPartition(partition, o) in processed
  }

  ghost predicate DoneThrough(processed: set<TopicPartition>, tps: seq<TopicPartition>) {
    forall tp | tp in tps :: DoneBelow(processed, tp.partition, tp.offset + 1)
  }

  ghost predicate MemberSafe(processed: set<TopicPartition>, c: Member) {
    && (forall p | p in c.position :: DoneBelow(processed, p, c.position[p]))
    && DoneThrough(processed, c.stored)
    && (forall b | 0 <= b < |c.inFlight| :: DoneThrough(processed, c.inFlight[b]))
  }

  ghost predicate Safe(g: Group) {
    && (forall m | m in g.members :: MemberSafe(g.processed, g.members[m]))
    && (forall p | p in g.committed :: DoneBelow(g.processed, p, g.committed[p] + 1))
  }

  lemma MemberStillSafe(processed: set<TopicPartition>, processed': set<TopicPartition>, c: Member)
    requires processed <= processed' && MemberSafe(processed, c)
    ensures MemberSafe(processed', c)
  {
  }

  lemma ProcessedMemberSafe(processed: set<TopicPartition>, c: Member, p: nat, store: bool)
    requires MemberSafe(processed, c) && p in c.position
    ensures var tp := TopicPartition(p, c.position[p]);
            var c' := c.(position := c.position[p := c.position[p] + 1]);
            && MemberSafe(processed + {tp}, c') && MemberSafe(processed + {tp}, c'.(stored := c.stored + [tp]))
  {
  }

  lemma BatchSafe(g: Group, m: nat, b: nat, g': Group)
    requires Safe(g) && m in g.members && b < |g.members[m].inFlight|
    requires Applies(g.committed, g.members[m].inFlight[b], g'.committed) && g'.processed == g.processed
    ensures forall p | p in g'.committed :: DoneBelow(g.processed, p, g'.committed[p] + 1)
    ensures MemberSafe(g.processed, g.members[m].(inFlight := Without(g.members[m].inFlight, b)))
    ensures MemberSafe(g.processed, g.members[m].(inFlight := Without(g.members[m].inFlight, b),
                                                  stored := g.members[m].inFlight[b] + g.members[m].stored))
  {
  }

  lemma StepKeepsSafe(g: Group, step: Step, g': Group)
    requires Safe(g) && Next(g, step, g')
    ensures Safe(g')
  {
    match step
    case Process(m, p, store) =>
      ProcessedMemberSafe(g.processed, g.members[m], p, store);
      forall k | k in g.members ensures MemberSafe(g'.processed, g.members[k]) {
        MemberStillSafe(g.processed, g'.processed, g.members[k]);
      }
    case CommitOk(m, b) => BatchSafe(g, m, b, g');
    case CommitFail(m, b) => BatchSafe(g, m, b, g');
    case _ =>
  }

  lemma {:induction false} RunIsSafe(run: seq<Group>, steps: seq<Step>, i: nat)
    requires IsRun(run, steps) && i < |run|
    ensures Safe(run[i])
  {
    if i > 0 {
      RunIsSafe(run, steps, i - 1);
      StepKeepsSafe(run[i - 1], steps[i - 1], run[i]);
    }
  }

  /** No message is ever skipped: one that has not been processed is at or ahead of every member's position, ahead of
      the committed offset, and in no stored or pending batch, at every moment of every run. */
  lemma UnprocessedIsNeverSkipped(run: seq<Group>, steps: seq<Step>, i: nat, tp: TopicPartition)
    requires IsRun(run, steps) && i < |run| && tp !in run[i].processed
    ensures tp.partition in run[i].committed ==> run[i].committed[tp.partition] < tp.offset
    ensures forall m | m in run[i].members && tp.partition in run[i].members[m].position ::
              run[i].members[m].position[tp.partition] <= tp.offset
    ensures StartOf(run[i], tp.partition) <= tp.offset
  {
    RunIsSafe(run, steps, i);
    var g := run[i];
    forall m | m in g.members && tp.partition in g.members[m].position
      ensures g.members[m].position[tp.partition] <= tp.offset
    {
      assert MemberSafe(g.processed, g.members[m]);
      assert DoneBelow(g.processed, tp.partition, g.members[m].position[tp.partition]);
    }
    if tp.partition in g.committed {
      assert DoneBelow(g.processed, tp.partition, g.committed[tp.partition] + 1);
    }
  }

  // ---------- conservation ----------

  /** How often an offset occurs in the batches. */
  function Count(batches: seq<seq<TopicPartition>>, tp: TopicPartition): nat {
    if batches == [] then 0 else multiset(batches[0])[tp] + Count(batches[1..], tp)
  }

  lemma {:induction false} CountConcat(a: seq<seq<TopicPartition>>, b: seq<seq<TopicPartition>>, tp: TopicPartition)
    ensures Count(a + b, tp) == Count(a, tp) + Count(b, tp)
  {
    if a == [] {
      assert a + b == b;
    } else {
      CountConcat(a[1..], b, tp);
      assert (a + b)[0] == a[0] && (a + b)[1..] == a[1..] + b;
    }
  }

  lemma CountWithout(batches: seq<seq<TopicPartition>>, i: nat, tp: TopicPartition)
    requires i < |batches|
    ensures Count(batches, tp) == multiset(batches[i])[tp] + Count(Without(batches, i), tp)
  {
    CountConcat(batches[..i], batches[i..], tp);
    CountConcat(batches[..i], batches[i + 1..], tp);
    assert batches == batches[..i] + batches[i..];
    assert batches[i..][1..] == batches[i + 1..];
  }

  predicate ConservedFor(c: Member, tp: TopicPartition) {
    c.appended[tp] == multiset(c.stored)[tp] + Count(c.inFlight, tp) + c.acked[tp]
  }

  /** Every stored offset is still stored, in a pending commit, or acknowledged, as often as it was stored. */
  ghost predicate Conserved(c: Member) {
    forall tp :: ConservedFor(c, tp)
  }

  lemma MemberConserves(g: Group, c: Member, step: Step, g': Group, tp: TopicPartition)
    requires !step.Join? && !step.Leave? && MemberStep(g, c, step, g') && ConservedFor(c, tp)
    ensures ConservedFor(g'.members[step.m], tp)
  {
    match step
    case Take(_) =>
      CountConcat(c.inFlight, [c.stored], tp);
      assert [c.stored][1..] == [];
    case CommitOk(_, b) => CountWithout(c.inFlight, b, tp);
    case CommitFail(_, b) => CountWithout(c.inFlight, b, tp);
    case _ =>
  }

  lemma StepConserves(g: Group, step: Step, g': Group, m: nat)
    requires Next(g, step, g') && m in g'.members
    requires m in g.members ==> Conserved(g.members[m])
    ensures Conserved(g'.members[m])
  {
    if m in g.members && step.m == m && !step.Join? && !step.Leave? {
      forall tp ensures ConservedFor(g'.members[m], tp) {
        assert ConservedFor(g.members[m], tp);
        MemberConserves(g, g.members[m], step, g', tp);
      }
    }
  }

  /** Offset conservation, for every member in every run: none is lost, and none is acknowledged more often than it
      was stored. */
  lemma {:induction false} OffsetsAreConserved(run: seq<Group>, steps: seq<Step>, i: nat, m: nat)
    requires IsRun(run, steps) && i < |run| && m in run[i].members
    ensures Conserved(run[i].members[m])
    ensures forall tp :: run[i].members[m].acked[tp] <= run[i].members[m].appended[tp]
    decreases i
  {
    if i > 0 {
      if m in run[i - 1].members {
        OffsetsAreConserved(run, steps, i - 1, m);
      }
      StepConserves(run[i - 1], steps[i - 1], run[i], m);
    }
    forall tp ensures run[i].members[m].acked[tp] <= run[i].members[m].appended[tp] {
      assert ConservedFor(run[i].members[m], tp);
    }
  }

  // ---------- when redelivery goes back, not forward ----------

  /** The partition's offsets among these are at most o. */
  ghost predicate UpTo(tps: seq<TopicPartition>, p: nat, o: nat) {
    forall tp | tp in tps && tp.partition == p :: tp.offset <= o
  }

  /** Stored or in a pending batch, the member remembers no offset of the partition beyond o. */
  ghost predicate RemembersUpTo(c: Member, p: nat, o: nat) {
    UpTo(c.stored, p, o) && forall b | 0 <= b < |c.inFlight| :: UpTo(c.inFlight[b], p, o)
  }

  /** Nothing committed or remembered of the partition, by whichever member, is beyond o. */
  ghost predicate Within(g: Group, p: nat, o: nat) {
    && (p in g.committed ==> g.committed[p] <= o)
    && forall m | m in g.members :: RemembersUpTo(g.members[m], p, o)
  }

  predicate Assigns(step: Step, p: nat) { step.Assign? && step.partition == p }

  predicate Processes(step: Step, p: nat) { step.Process? && step.partition == p }

  lemma MemberStepWithin(g: Group, c: Member, step: Step, g': Group, p: nat, o: nat)
    requires !step.Join? && !step.Leave? && MemberStep(g, c, step, g') && !Processes(step, p)
    requires RemembersUpTo(c, p, o) && (p in g.committed ==> g.committed[p] <= o)
    ensures RemembersUpTo(g'.members[step.m], p, o) && (p in g'.committed ==> g'.committed[p] <= o)
  {
    if step.CommitOk? || step.CommitFail? {
      assert UpTo(c.inFlight[step.batch], p, o);
    }
  }

  /** Every step but the processing of one of the partition's messages keeps what is within o within o. */
  lemma StepKeepsWithin(g: Group, step: Step, g': Group, p: nat, o: nat)
    requires Next(g, step, g') && Within(g, p, o) && !Processes(step, p)
    ensures Within(g', p, o)
  {
    if !step.Join? && !step.Leave? {
      MemberStepWithin(g, g.members[step.m], step, g', p, o);
    }
  }

  lemma ProcessKeepsWithin(g: Group, step: Step, g': Group, p: nat, o: nat)
    requires Next(g, step, g') && Within(g, p, o) && Processes(step, p) && g.members[step.m].position[p] <= o
    ensures Within(g', p, o) && Within(g', p, o + 1)
  {
  }

  /** Nothing remembered of the partition is beyond the offset that polling would start at. */
  ghost predicate Harmless(g: Group, p: nat) {
    forall m | m in g.members :: RemembersUpTo(g.members[m], p, StartOf(g, p))
  }

  /** An assignment leaves nothing beyond its starting point exactly when it is harmless. */
  lemma AssignWithinIff(g: Group, step: Step, g': Group, p: nat)
    requires Next(g, step, g') && Assigns(step, p)
    ensures Within(g', p, StartOf(g, p)) <==> Harmless(g, p)
  {
    var c, c' := g.members[step.m], g'.members[step.m];
    assert c'.stored == c.stored && c'.inFlight == c.inFlight;
    forall m | m in g.members
      ensures RemembersUpTo(g'.members[m], p, StartOf(g, p)) <==> RemembersUpTo(g.members[m], p, StartOf(g, p)) {
    }
  }

  ghost predicate IsPath(run: seq<Group>, steps: seq<Step>) {
    |run| == |steps| + 1 && forall i | 0 <= i < |steps| :: Next(run[i], steps[i], run[i + 1])
  }

  predicate Quiet(steps: seq<Step>, p: nat) {
    forall i | 0 <= i < |steps| :: !Assigns(steps[i], p) && !Processes(steps[i], p)
  }

  predicate CommittedUpTo(g: Group, p: nat, o: nat) {
    p in g.committed ==> g.committed[p] <= o
  }

  /** Whatever else the members do before the partition's next message or assignment, its committed offset stays
      within o. */
  ghost predicate NeverAhead(g: Group, p: nat, o: nat) {
    forall run: seq<Group>, steps | IsPath(run, steps) && Quiet(steps, p) && run[0] == g ::
        CommittedUpTo(run[|run| - 1], p, o)
  }

  lemma {:induction false} PathKeepsWithin(run: seq<Group>, steps: seq<Step>, p: nat, o: nat, i: nat)
    requires IsPath(run, steps) && Quiet(steps, p) && Within(run[0], p, o) && i < |run|
    ensures Within(run[i], p, o)
  {
    if i > 0 {
      PathKeepsWithin(run, steps, p, o, i - 1);
      StepKeepsWithin(run[i - 1], steps[i - 1], run[i], p, o);
    }
  }

  /** A pending offset can be committed. */
  lemma BatchCommits(g: Group, m: nat, b: nat, tp: TopicPartition) returns (g': Group)
    requires m in g.members && b < |g.members[m].inFlight| && tp in g.members[m].inFlight[b]
    ensures Next(g, CommitOk(m, b), g') && g'.committed == g.committed[tp.partition := tp.offset]
    ensures var c := g.members[m];
            g'.members
              == g.members[m := c.(inFlight := Without(c.inFlight, b), acked := c.acked + multiset(c.inFlight[b]))]
  {
    var c := g.members[m];
    g' := g.(committed := g.committed[tp.partition := tp.offset],
             members := g.members[m := c.(inFlight := Without(c.inFlight, b),
                 acked := c.acked + multiset(c.inFlight[b]))]);
  }

  /** And so can a stored one, once it is taken. */
  lemma StoredCommits(g: Group, m: nat, tp: TopicPartition) returns (g': Group, g'': Group, b: nat)
    requires m in g.members && tp in g.members[m].stored
    ensures Next(g, Take(m), g') && Next(g', CommitOk(m, b), g'')
    ensures tp.partition in g''.committed && g''.committed[tp.partition] == tp.offset
  {
    var c := g.members[m];
    g' := g.(members := g.members[m := c.(stored := [], inFlight := c.inFlight + [c.stored])]);
    b := |c.inFlight|;
    g'' := BatchCommits(g', m, b, tp);
  }

  lemma SomeGetsAhead(g: Group, m: nat, p: nat, o: nat)
    requires m in g.members && !RemembersUpTo(g.members[m], p, o)
    ensures !NeverAhead(g, p, o)
  {
    var c := g.members[m];
    if tp :| tp in c.stored && tp.partition == p && tp.offset > o {
      var g', g'', b := StoredCommits(g, m, tp);
      var run, steps := [g, g', g''], [Take(m), CommitOk(m, b)];
      assert IsPath(run, steps) && Quiet(steps, p) && run[|run| - 1] == g'';
    } else {
      var b :| 0 <= b < |c.inFlight| && !UpTo(c.inFlight[b], p, o);
      var tp :| tp in c.inFlight[b] && tp.partition == p && tp.offset > o;
      var g' := BatchCommits(g, m, b, tp);
      var run, steps := [g, g'], [CommitOk(m, b)];
      assert IsPath(run, steps) && Quiet(steps, p) && run[|run| - 1] == g';
    }
  }

  /** The committed offset can get ahead of o exactly when it is, or some member still remembers an offset that is. */
  lemma NeverAheadIff(g: Group, p: nat, o: nat)
    ensures NeverAhead(g, p, o) <==> Within(g, p, o)
  {
    if Within(g, p, o) {
      forall run: seq<Group>, steps | IsPath(run, steps) && Quiet(steps, p) && run[0] == g
        ensures CommittedUpTo(run[|run| - 1], p, o)
      {
        PathKeepsWithin(run, steps, p, o, |run| - 1);
      }
    } else if p in g.committed && g.committed[p] > o {
      assert IsPath([g], []) && Quiet([], p) && [g][|[g]| - 1] == g;
    } else {
      var m :| m in g.members && !RemembersUpTo(g.members[m], p, o);
      SomeGetsAhead(g, m, p, o);
    }
  }

  /** The offset the partition's holder has got to: where the last assignment started, plus what it has processed. */
  function OffsetAfter(run: seq<Group>, steps: seq<Step>, p: nat, i: nat): nat
    requires i <= |steps| < |run|
  {
    if i == 0 then 0
    else
      var g, step := run[i - 1], steps[i - 1];
      if Assigns(step, p) then StartOf(g, p)
      else if Processes(step,
          p) && step.m in g.members && p in g.members[step.m].position then g.members[step.m].position[p] + 1
      else OffsetAfter(run, steps, p, i - 1)
  }

  predicate Holds(g: Group, m: nat, p: nat) {
    m in g.members && p in g.members[m].position
  }

  /** The broker gives a partition to one member at a time. */
  ghost predicate Exclusive(g: Group, step: Step, p: nat) {
    Assigns(step, p) ==> forall m | Holds(g, m, p) :: m == step.m
  }

  ghost predicate AllExclusive(run: seq<Group>, steps: seq<Step>, p: nat)
    requires |steps| < |run|
  {
    forall j | 0 <= j < |steps| :: Exclusive(run[j], steps[j], p)
  }

  /** At most one member holds the partition, and it is at o. */
  ghost predicate HolderAt(g: Group, p: nat, o: nat) {
    && (forall m | Holds(g, m, p) :: g.members[m].position[p] == o)
    && (forall m, k | Holds(g, m, p) && Holds(g, k, p) :: m == k)
  }

  lemma StepKeepsHolder(g: Group, step: Step, g': Group, p: nat, o: nat)
    requires Next(g, step, g') && Exclusive(g, step, p) && HolderAt(g, p, o)
    ensures HolderAt(g', p, if Assigns(step, p) then StartOf(g, p) else if Processes(step, p) then o + 1 else o)
  {
    forall m | Holds(g', m, p) && m != step.m ensures Holds(g, m, p) {}
    if !step.Join? && !step.Leave? && !step.Assign? && Holds(g', step.m, p) {
      assert Holds(g, step.m, p);
    }
  }

  lemma {:induction false} HolderIsAtReached(run: seq<Group>, steps: seq<Step>, p: nat, i: nat)
    requires IsRun(run, steps) && AllExclusive(run, steps, p) && i < |run|
    ensures HolderAt(run[i], p, OffsetAfter(run, steps, p, i))
  {
    if i > 0 {
      HolderIsAtReached(run, steps, p, i - 1);
      var g, step := run[i - 1], steps[i - 1];
      StepKeepsHolder(g, step, run[i], p, OffsetAfter(run, steps, p, i - 1));
      if Processes(step, p) {
        assert Holds(g, step.m, p);
      }
    }
  }

  /** Every assignment of the partition among the first n steps was harmless. */
  ghost predicate AllHarmless(run: seq<Group>, steps: seq<Step>, p: nat, n: nat)
    requires n <= |steps| < |run|
  {
    forall j | 0 <= j < n && Assigns(steps[j], p) :: Harmless(run[j], p)
  }

  lemma {:induction false} HarmlessStaysWithin(run: seq<Group>, steps: seq<Step>, p: nat, i: nat)
    requires IsRun(run, steps) && AllExclusive(run, steps, p) && i < |run| && AllHarmless(run, steps, p, i)
    ensures Within(run[i], p, OffsetAfter(run, steps, p, i))
  {
    if i > 0 {
      HarmlessStaysWithin(run, steps, p, i - 1);
      var g, step, o := run[i - 1], steps[i - 1], OffsetAfter(run, steps, p, i - 1);
      assert Next(g, step, run[i]);
      if Assigns(step, p) {
        AssignWithinIff(g, step, run[i], p);
      } else if Processes(step, p) {
        HolderIsAtReached(run, steps, p, i - 1);
        assert Holds(g, step.m, p);
        ProcessKeepsWithin(g, step, run[i], p, o);
      } else {
        StepKeepsWithin(g, step, run[i], p, o);
      }
    }
  }

  /** As long as every assignment was harmless, a restart would begin at or before the point the holder has got to:
      redelivery repeats messages and leaves none of the repetition out. */
  lemma RedeliveryGoesBack(run: seq<Group>, steps: seq<Step>, p: nat, i: nat)
    requires IsRun(run, steps) && AllExclusive(run, steps, p) && i < |run| && AllHarmless(run, steps, p, i)
    ensures StartOf(run[i], p) <= OffsetAfter(run, steps, p, i)
    ensures forall m | Holds(run[i], m, p) :: StartOf(run[i], p) <= run[i].members[m].position[p]
  {
    HarmlessStaysWithin(run, steps, p, i);
    HolderIsAtReached(run, steps, p, i);
  }

  /** And exactly then: at no moment of a run can the committed offset get ahead of the holder, by whatever the members
      do with the offsets they remember, if and only if every assignment was harmless. */
  lemma RedeliveryGoesBackIff(run: seq<Group>, steps: seq<Step>, p: nat)
    requires IsRun(run, steps) && AllExclusive(run, steps, p)
    ensures (forall i: nat | i < |run| :: NeverAhead(run[i], p, OffsetAfter(run, steps, p, i))) <==>
            AllHarmless(run, steps, p, |steps|)
  {
    forall i: nat | i < |run|
      ensures NeverAhead(run[i], p, OffsetAfter(run, steps, p, i)) <==>
                Within(run[i], p, OffsetAfter(run, steps, p, i)) {
      NeverAheadIff(run[i], p, OffsetAfter(run, steps, p, i));
    }
    if AllHarmless(run, steps, p, |steps|) {
      forall i: nat | i < |run| ensures Within(run[i], p, OffsetAfter(run, steps, p, i)) {
        HarmlessStaysWithin(run, steps, p, i);
      }
    } else {
      var j :| 0 <= j < |steps| && Assigns(steps[j], p) && !Harmless(run[j], p);
      AssignWithinIff(run[j], steps[j], run[j + 1], p);
      assert OffsetAfter(run, steps, p, j + 1) == StartOf(run[j], p);
      assert !Within(run[j + 1], p, OffsetAfter(run, steps, p, j + 1));
    }
  }

  /** g can be reached by some run. */
  ghost predicate Reachable(g: Group) {
    exists run, steps :: IsRun(run, steps) && run[|run| - 1] == g
  }

  lemma ReachableStep(g: Group, step: Step, g': Group)
    requires Reachable(g) && Next(g, step, g')
    ensures Reachable(g')
  {
    var run, steps :| IsRun(run, steps) && run[|run| - 1] == g;
    var run', steps' := run + [g'], steps + [step];
    forall i | 0 <= i < |steps'| ensures Next(run'[i], steps'[i], run'[i + 1]) {
      if i < |steps| {
        assert Next(run[i], steps[i], run[i + 1]);
      }
    }
    assert IsRun(run', steps') && run'[|run'| - 1] == g';
  }

  /** A sole member with one partition. */
  function Solo(c: Member, committed: map<nat, nat>, processed: set<TopicPartition>): Group {
    Group(map[0 := c], committed, processed)
  }

  lemma SoloStep(c: Member, committed: map<nat, nat>, processed: set<TopicPartition>, step: Step, g': Group)
    requires Reachable(Solo(c, committed, processed)) && step.m == 0 && !step.Join? && !step.Leave?
    requires MemberStep(Solo(c, committed, processed), c, step, g')
    ensures Reachable(g')
  {
    ReachableStep(Solo(c, committed, processed), step, g');
  }

  lemma TwoProcessed(c: Member)
    requires c.position == map[0 := 2] && c.stored == [TopicPartition(0, 0), TopicPartition(0, 1)] && c.inFlight == []
    requires c.appended == multiset{TopicPartition(0, 0)} + multiset{TopicPartition(0, 1)} && c.acked == multiset{}
    ensures Reachable(Solo(c, map[], {TopicPartition(0, 0), TopicPartition(0, 1)}))
  {
    var a, b := TopicPartition(0, 0), TopicPartition(0, 1);
    var g0 := Group(map[], map[], {});
    assert IsRun([g0], []) && [g0][|[g0]| - 1] == g0;
    ReachableStep(g0, Join(0), Solo(NEW_MEMBER, map[], {}));
    var c1 := NEW_MEMBER.(position := map[0 := 0]);
    SoloStep(NEW_MEMBER, map[], {}, Assign(0, 0), Solo(c1, map[], {}));
    var c2 := Member(map[0 := 1], [a], [], multiset{a}, multiset{});
    assert c1.position[0 := 1] == c2.position && c1.stored + [a] == c2.stored
      && c1.appended + multiset{a} == c2.appended;
    assert {} + {a} == {a};
    SoloStep(c1, map[], {}, Process(0, 0, true), Solo(c2, map[], {a}));
    assert c2.position[0 := 2] == c.position && c2.stored + [b] == c.stored;
    assert {a} + {b} == {a, b};
    SoloStep(c2, map[], {a}, Process(0, 0, true), Solo(c, map[], {a, b}));
  }

  /** It can get ahead: offsets kept over a revocation are committed after the partition came back. */
  lemma StaleOffsetsCommitAhead() returns (g: Group)
    ensures Reachable(g) && 0 in g.members && 0 in g.members[0].position && StartOf(g, 0) > g.members[0].position[0]
  {
    var a, b := TopicPartition(0, 0), TopicPartition(0, 1);
    var done := {a, b};
    var c := Member(map[0 := 2], [a, b], [], multiset{a} + multiset{b}, multiset{});
    TwoProcessed(c);
    var c1 := c.(position := map[]);
    assert c.position - {0} == map[];
    SoloStep(c, map[], done, Revoke(0, 0), Solo(c1, map[], done));
    var c2 := c.(position := map[0 := 0]);
    SoloStep(c1, map[], done, Assign(0, 0), Solo(c2, map[], done));
    var c3 := c2.(stored := [], inFlight := [[a, b]]);
    assert c2.inFlight + [c2.stored] == c3.inFlight;
    SoloStep(c2, map[], done, Take(0), Solo(c3, map[], done));
    var c4 := c3.(inFlight := Without([[a, b]], 0), acked := c3.acked + multiset([a, b]));
    g := Solo(c4, map[0 := 1], done);
    assert [a, b][1] == b;
    SoloStep(c3, map[], done, CommitOk(0, 0), g);
  }

  // ---------- commitStoredOffsets as code ----------

  class OffsetStorage {
    var offsets: seq<TopicPartition>

    constructor ()
      ensures offsets == []
    {
      offsets := [];
    }

    /** Remember a processed message; a commit is due at every multiple of the modulo. */
    method Store(tp: TopicPartition, commitModulo: nat) returns (shouldCommit: bool)
      requires commitModulo > 0
      modifies this
      ensures offsets == old(offsets) + [tp] && (shouldCommit <==> tp.offset % commitModulo == 0)
    {
      offsets := offsets + [tp];
      shouldCommit := tp.offset % commitModulo == 0;
    }

    /** The first locked region: take everything. */
    method Take() returns (batch: seq<TopicPartition>)
      modifies this
      ensures batch == old(offsets) && offsets == []
    {
      batch := offsets;
      offsets := [];
    }

    /** The second, after a failed commit: put the batch back in front of what arrived meanwhile. */
    method Restore(batch: seq<TopicPartition>)
      modifies this
      ensures offsets == batch + old(offsets)
    {
      if offsets == [] {
        offsets := batch;
      } else {
        offsets := batch + offsets;
      }
    }

    /** commitStoredOffsets, with the offsets other threads store while the commit call is out. */
    method CommitStoredOffsets(succeeds: bool, meanwhile: seq<TopicPartition>)
      returns (ok: bool, committed: seq<TopicPartition>)
      modifies this
      ensures ok <==> succeeds || old(offsets) == []
      ensures committed + offsets == old(offsets) + (if old(offsets) == [] then [] else meanwhile)
      ensures committed == if succeeds then old(offsets) else []
    {
      if offsets == [] {
        return true, [];
      }
      var batch := Take();
      offsets := offsets + meanwhile;
      if !succeeds {
        Restore(batch);
        return false, [];
      }
      return true, batch;
    }
  }
}
