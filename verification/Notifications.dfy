/** Read-after-write: the consumer notifies the transaction id of every message it has processed, a listener hands each
    notification to all subscriptions, and a request waits on its own subscription for its own id. */
module Notifications {
  const BUFFER := 2

  /** A non-blocking send on a bounded channel: dropped if full. */
  function Offer(buffer: seq<string>, payload: string): seq<string> {
    if |buffer| < BUFFER then buffer + [payload] else buffer
  }

  datatype Outcome = Waiting | Notified | Cancelled

  /** A subscription with its history: the payloads distributed while it was registered, those its waiter took out of
      the buffer, and how many found the buffer full. */
  datatype Sub = Sub(txId: string, since: nat, offered: seq<string>, taken: seq<string>, buffer: seq<string>,
                     drops: nat, outcome: Outcome, unsubscribed: bool)

  /** processed: ids of the messages processed so far; sent: notifications not yet received by the listener;
      distributed: those it has handed out; registered: the subscription of each id, an index into subs. */
  datatype State = State(processed: set<string>, sent: seq<string>, distributed: seq<string>,
                         subs: seq<Sub>, registered: map<string, nat>)

  const INIT := State({}, [], [], [], map[])

  datatype Step =
    | Process(txId: string, notified: bool)   // ProcessMessage succeeds; the notification may be skipped or fail
    | Lose                                    // a notification never reaches the listener
    | Distribute
    | Subscribe(txId': string)
    | Receive(id: nat)                        // one turn of BlockForNotification
    | Cancel(id: nat)                         // the waiter's context ends
    | Unsubscribe(id: nat)

  function Offered(sub: Sub, payload: string): Sub {
    sub.(offered := sub.offered + [payload], buffer := Offer(sub.buffer, payload),
         drops := if |sub.buffer| < BUFFER then sub.drops else sub.drops + 1)
  }

  predicate Registered(s: State, id: nat) {
    id < |s.subs| && s.subs[id].txId in s.registered && s.registered[s.subs[id].txId] == id
  }

  function Received(sub: Sub): Sub
    requires sub.buffer != []
  {
    sub.(taken := sub.taken + [sub.buffer[0]], buffer := sub.buffer[1..],
         outcome := if sub.buffer[0] == sub.txId then Notified else Waiting)
  }

  /** The next notification is offered to every registered subscription. */
  function Distributed(s: State): State
    requires s.sent != []
  {
    s.(sent := s.sent[1..], distributed := s.distributed + [s.sent[0]],
       subs := seq(|s.subs|, i requires 0 <= i < |s.subs| =>
                   if Registered(s, i) then Offered(s.subs[i], s.sent[0]) else s.subs[i]))
  }

  ghost predicate Next(s: State, step: Step, s': State) {
    match step
    case Process(txId, notified) =>
      s' == s.(processed := s.processed + {txId}, sent := if notified && txId != "" then s.sent + [txId] else s.sent)
    case Lose => s.sent != [] && s' == s.(sent := s.sent[1..])
    case Distribute => s.sent != [] && s' == Distributed(s)
    case Subscribe(txId) =>
      s' == s.(subs := s.subs + [Sub(txId, |s.distributed|, [], [], [], 0, Waiting, false)],
               registered := s.registered[txId := |s.subs|])
    case Receive(id) =>
      && id < |s.subs| && s.subs[id].outcome.Waiting? && s.subs[id].buffer != []
      && s' == s.(subs := s.subs[id := Received(s.subs[id])])
    case Cancel(id) =>
      && id < |s.subs| && s.subs[id].outcome.Waiting?
      && s' == s.(subs := s.subs[id := s.subs[id].(outcome := Cancelled)])
    case Unsubscribe(id) =>
      // Removes whatever is registered for the id, and only the first time.
      && id < |s.subs|
      && s' == if s.subs[id].unsubscribed then s
               else s.(registered := s.registered - {s.subs[id].txId},
                       subs := s.subs[id := s.subs[id].(unsubscribed := true)])
  }

  // ---------- the buffer of one subscription ----------

  predicate Subsequence(a: seq<string>, b: seq<string>)
    decreases |b|
  {
    a != [] ==>
      && b != []
      && ((a[|a| - 1] == b[|b| - 1] && Subsequence(a[..|a| - 1], b[..|b| - 1])) || Subsequence(a, b[..|b| - 1]))
  }

  /** The first payloads, as many as the buffer holds. */
  function First(offered: seq<string>): seq<string> {
    if |offered| < BUFFER then offered else offered[..BUFFER]
  }

  predicate SubInv(sub: Sub) {
    && |sub.buffer| <= BUFFER
    && Subsequence(sub.taken + sub.buffer, sub.offered)
    && |sub.taken| + |sub.buffer| + sub.drops == |sub.offered|
    && (sub.taken == [] ==> sub.buffer == First(sub.offered))
    && (sub.outcome.Notified? <==> sub.txId in sub.taken)
  }

  lemma SubsequenceGrows(a: seq<string>, b: seq<string>, x: string)
    requires Subsequence(a, b)
    ensures Subsequence(a, b + [x]) && Subsequence(a + [x], b + [x])
  {
  }

  lemma {:induction false} SubsequenceMembers(a: seq<string>, b: seq<string>, x: string)
    requires Subsequence(a, b) && x in a
    ensures x in b
    decreases |b|
  {
    var b' := b[..|b| - 1];
    if Subsequence(a, b') {
      SubsequenceMembers(a, b', x);
    } else if x != a[|a| - 1] {
      assert a == a[..|a| - 1] + [a[|a| - 1]];
      SubsequenceMembers(a[..|a| - 1], b', x);
    }
  }

  lemma {:induction false} SubsequenceSize(a: seq<string>, b: seq<string>)
    requires Subsequence(a, b)
    ensures |a| <= |b| && (|a| == |b| ==> a == b)
    decreases |b|
  {
    if a != [] {
      var b' := b[..|b| - 1];
      if Subsequence(a, b') {
        SubsequenceSize(a, b');
      } else {
        SubsequenceSize(a[..|a| - 1], b');
        assert a == a[..|a| - 1] + [a[|a| - 1]] && b == b' + [b[|b| - 1]];
      }
    }
  }

  lemma OfferedPrefix(offered: seq<string>, payload: string)
    ensures Offer(First(offered), payload) == First(offered + [payload])
  {
  }

  lemma OfferedKeeps(sub: Sub, payload: string)
    requires SubInv(sub)
    ensures SubInv(Offered(sub, payload))
  {
    SubsequenceGrows(sub.taken + sub.buffer, sub.offered, payload);
    var r := Offered(sub, payload);
    if |sub.buffer| < BUFFER {
      assert r.taken + r.buffer == sub.taken + sub.buffer + [payload];
    }
    if sub.taken == [] {
      OfferedPrefix(sub.offered, payload);
    }
  }

  lemma ReceivedKeeps(sub: Sub)
    requires SubInv(sub) && sub.outcome.Waiting? && sub.buffer != []
    ensures SubInv(Received(sub))
  {
    assert Received(sub).taken + Received(sub).buffer == sub.taken + sub.buffer;
  }

  // ---------- every reachable state ----------

  /** What a subscription was offered is a stretch of what was distributed, up to now while it is registered. */
  predicate Placed(s: State, id: nat)
    requires id < |s.subs|
  {
    var sub := s.subs[id];
    && sub.since + |sub.offered| <= |s.distributed|
    && sub.offered == s.distributed[sub.since..sub.since + |sub.offered|]
    && (Registered(s, id) ==> sub.since + |sub.offered| == |s.distributed|)
  }

  ghost predicate Inv(s: State) {
    && (forall p | p in s.sent || p in s.distributed :: p in s.processed && p != "")
    && (forall id | 0 <= id < |s.subs| :: SubInv(s.subs[id]) && Placed(s, id))
    && (forall t | t in s.registered :: s.registered[t] < |s.subs|)
  }

  lemma DistributeKeeps(s: State, s': State)
    requires Inv(s) && Next(s, Distribute, s')
    ensures Inv(s')
  {
    assert s.sent[0] in s.sent;
    forall id | 0 <= id < |s'.subs| ensures SubInv(s'.subs[id]) && Placed(s', id) {
      assert SubInv(s.subs[id]) && Placed(s, id);
      assert Registered(s', id) == Registered(s, id);
      if Registered(s, id) {
        OfferedKeeps(s.subs[id], s.sent[0]);
      }
    }
  }

  lemma SubscribeKeeps(s: State, txId: string, s': State)
    requires Inv(s) && Next(s, Subscribe(txId), s')
    ensures Inv(s')
  {
  }

  lemma OthersKept(s: State, s': State, id: nat)
    requires Inv(s) && id < |s.subs| && s'.distributed == s.distributed && s'.registered.Keys <= s.registered.Keys
    requires forall t | t in s'.registered :: s'.registered[t] == s.registered[t]
    requires |s'.subs| == |s.subs| && s'.subs == s.subs[id := s'.subs[id]]
    requires SubInv(s'.subs[id]) && s'.subs[id].txId == s.subs[id].txId
    requires s'.subs[id].since == s.subs[id].since && s'.subs[id].offered == s.subs[id].offered
    ensures forall i | 0 <= i < |s'.subs| :: SubInv(s'.subs[i]) && Placed(s', i)
    ensures forall t | t in s'.registered :: s'.registered[t] < |s'.subs|
  {
  }

  lemma StepKeepsInv(s: State, step: Step, s': State)
    requires Inv(s) && Next(s, step, s')
    ensures Inv(s')
  {
    match step
    case Distribute => DistributeKeeps(s, s');
    case Receive(id) =>
      ReceivedKeeps(s.subs[id]);
      OthersKept(s, s', id);
    case Cancel(id) => OthersKept(s, s', id);
    case Unsubscribe(id) => OthersKept(s, s', id);
    case Subscribe(txId) => SubscribeKeeps(s, txId, s');
    case _ =>
      forall i | 0 <= i < |s'.subs| ensures SubInv(s'.subs[i]) && Placed(s', i) {
        assert SubInv(s.subs[i]) && Placed(s, i);
      }
  }

  ghost predicate IsRun(run: seq<State>, steps: seq<Step>) {
    && |run| == |steps| + 1 && run[0] == INIT
    && forall i | 0 <= i < |steps| :: Next(run[i], steps[i], run[i + 1])
  }

  lemma {:induction false} RunKeepsInv(run: seq<State>, steps: seq<Step>, i: nat)
    requires IsRun(run, steps) && i < |run|
    ensures Inv(run[i])
  {
    if i > 0 {
      RunKeepsInv(run, steps, i - 1);
      StepKeepsInv(run[i - 1], steps[i - 1], run[i]);
    }
  }

  /** Read after write: in every run, a waiter that returns without error has had its own message processed, and its
      notification was distributed after it subscribed. */
  lemma NotifiedMeansProcessed(run: seq<State>, steps: seq<Step>, i: nat, id: nat)
    requires IsRun(run, steps) && i < |run| && id < |run[i].subs|
    requires run[i].subs[id].outcome.Notified?
    ensures run[i].subs[id].txId in run[i].processed && run[i].subs[id].since <= |run[i].distributed|
    ensures run[i].subs[id].txId in run[i].distributed[run[i].subs[id].since..]
  {
    RunKeepsInv(run, steps, i);
    var s, sub := run[i], run[i].subs[id];
    assert SubInv(sub) && Placed(s, id);
    SubsequenceMembers(sub.taken + sub.buffer, sub.offered, sub.txId);
    var k :| 0 <= k < |sub.offered| && sub.offered[k] == sub.txId;
    assert s.distributed[sub.since..][k] == sub.txId;
  }

  /** In every run a subscription holds at most two payloads, and what it holds and has handed over is, in order, part
      of what was distributed since it subscribed; it is all of it exactly when nothing found the buffer full. */
  lemma BufferIsSubsequence(run: seq<State>, steps: seq<Step>, i: nat, id: nat)
    requires IsRun(run, steps) && i < |run| && id < |run[i].subs|
    ensures var sub := run[i].subs[id];
            && |sub.buffer| <= BUFFER && sub.since <= |run[i].distributed|
            && sub.offered <= run[i].distributed[sub.since..]
            && (Registered(run[i], id) ==> sub.offered == run[i].distributed[sub.since..])
            && Subsequence(sub.taken + sub.buffer, sub.offered)
            && (sub.taken + sub.buffer == sub.offered <==> sub.drops == 0)
  {
    RunKeepsInv(run, steps, i);
    var sub := run[i].subs[id];
    assert SubInv(sub) && Placed(run[i], id);
    SubsequenceSize(sub.taken + sub.buffer, sub.offered);
  }

  /** A request subscribes before its transaction and waits after it. At that moment its buffer is
      the first two payloads distributed since, whichever requests they belong to: its own notification is there if and
      only if it was one of those. */
  lemma WaitingIsFirstTwo(run: seq<State>, steps: seq<Step>, i: nat, id: nat)
    requires IsRun(run, steps) && i < |run| && Registered(run[i], id) && run[i].subs[id].taken == []
    ensures run[i].subs[id].since <= |run[i].distributed|
    ensures run[i].subs[id].buffer == First(run[i].distributed[run[i].subs[id].since..])
  {
    BufferIsSubsequence(run, steps, i, id);
    RunKeepsInv(run, steps, i);
    assert SubInv(run[i].subs[id]);
  }

  // So a processed and notified transaction may never be seen by its waiter: two others came first.

  const WAITER := Sub("a", 0, [], [], [], 0, Waiting, false)
  const CROWDED := WAITER.(offered := ["b", "c", "a"], buffer := ["b", "c"], drops := 1)

  function WithWaiter(processed: set<string>, sent: seq<string>, distributed: seq<string>, sub: Sub): State {
    State(processed, sent, distributed, [sub], map["a" := 0])
  }

  lemma Processing()
    ensures Next(INIT, Subscribe("a"), WithWaiter({}, [], [], WAITER))
    ensures Next(WithWaiter({}, [], [], WAITER), Process("b", true), WithWaiter({"b"}, ["b"], [], WAITER))
    ensures Next(WithWaiter({"b"}, ["b"], [], WAITER), Process("c", true),
              WithWaiter({"b", "c"}, ["b", "c"], [], WAITER))
    ensures Next(WithWaiter({"b", "c"}, ["b", "c"], [], WAITER), Process("a", true),
                 WithWaiter({"b", "c", "a"}, ["b", "c", "a"], [], WAITER))
  {
  }

  lemma Distributing(processed: set<string>, sent: seq<string>, distributed: seq<string>, sub: Sub)
    requires sent != [] && sub.txId == "a"
    ensures Next(WithWaiter(processed, sent, distributed, sub), Distribute,
                 WithWaiter(processed, sent[1..], distributed + [sent[0]], Offered(sub, sent[0])))
  {
  }

  ghost predicate Reachable(s: State) {
    exists run, steps :: IsRun(run, steps) && run[|run| - 1] == s
  }

  lemma ReachableStep(s: State, step: Step, s': State)
    requires Reachable(s) && Next(s, step, s')
    ensures Reachable(s')
  {
    var run, steps :| IsRun(run, steps) && run[|run| - 1] == s;
    assert IsRun(run + [s'], steps + [step]);
  }

  lemma AllProcessed()
    ensures Reachable(WithWaiter({"b", "c", "a"}, ["b", "c", "a"], [], WAITER))
  {
    assert IsRun([INIT], []);
    Processing();
    ReachableStep(INIT, Subscribe("a"), WithWaiter({}, [], [], WAITER));
    ReachableStep(WithWaiter({}, [], [], WAITER), Process("b", true), WithWaiter({"b"}, ["b"], [], WAITER));
    ReachableStep(WithWaiter({"b"}, ["b"], [], WAITER), Process("c", true),
        WithWaiter({"b", "c"}, ["b", "c"], [], WAITER));
    ReachableStep(WithWaiter({"b", "c"}, ["b", "c"], [], WAITER), Process("a", true),
                  WithWaiter({"b", "c", "a"}, ["b", "c", "a"], [], WAITER));
  }

  lemma ReachableDistribution(processed: set<string>, sent: seq<string>, distributed: seq<string>, sub: Sub)
    requires sent != [] && sub.txId == "a" && Reachable(WithWaiter(processed, sent, distributed, sub))
    ensures Reachable(WithWaiter(processed, sent[1..], distributed + [sent[0]], Offered(sub, sent[0])))
  {
    Distributing(processed, sent, distributed, sub);
    ReachableStep(WithWaiter(processed, sent, distributed, sub), Distribute,
                  WithWaiter(processed, sent[1..], distributed + [sent[0]], Offered(sub, sent[0])));
  }

  lemma CrowdedOut()
    ensures Reachable(WithWaiter({"b", "c", "a"}, [], ["b", "c", "a"], CROWDED))
    ensures CROWDED.txId !in CROWDED.taken + CROWDED.buffer
  {
    var all, one := {"b", "c", "a"}, Offered(WAITER, "b");
    AllProcessed();
    ReachableDistribution(all, ["b", "c", "a"], [], WAITER);
    assert ["b", "c", "a"][1..] == ["c", "a"] && [] + ["b"] == ["b"];
    ReachableDistribution(all, ["c", "a"], ["b"], one);
    assert ["c", "a"][1..] == ["a"] && ["b"] + ["c"] == ["b", "c"];
    ReachableDistribution(all, ["a"], ["b", "c"], Offered(one, "c"));
  }

  // ---------- who is offered what ----------

  /** A new subscription takes the place of an older one for the same id: from then on it is the one that is offered
      payloads, and the older one keeps what it has. */
  lemma SubscribeReplaces(s: State, txId: string, s1: State, s2: State)
    requires Next(s, Subscribe(txId), s1) && Next(s1, Distribute, s2)
    ensures |s2.subs| == |s.subs| + 1 && s2.subs[|s.subs|].txId == txId && s2.subs[|s.subs|].buffer == [s.sent[0]]
    ensures forall k | 0 <= k < |s.subs| && s.subs[k].txId == txId :: s2.subs[k] == s.subs[k]
  {
  }

  /** After the first Unsubscribe no subscription for its id is offered anything, and a second one changes nothing. */
  lemma UnsubscribeStops(s: State, id: nat, s1: State, s2: State, s3: State)
    requires Next(s, Unsubscribe(id), s1) && !s.subs[id].unsubscribed
    requires Next(s1, Distribute, s2) && Next(s1, Unsubscribe(id), s3)
    ensures forall k | 0 <= k < |s.subs| && s.subs[k].txId == s.subs[id].txId ::
              s2.subs[k].buffer == s.subs[k].buffer && s2.subs[k].offered == s.subs[k].offered
    ensures s3 == s1
  {
  }

  /** A subscription with room is offered the payload while it is the registered one, whoever else is. */
  lemma RegisteredIsOffered(s: State, s': State, id: nat)
    requires Next(s, Distribute, s') && Registered(s, id) && |s.subs[id].buffer| < 2
    ensures s'.subs[id].buffer == s.subs[id].buffer + [s.sent[0]] && s'.sent == s.sent[1..]
  {
  }

  /** Messages without a transaction id are processed and never notified. */
  lemma EmptyIdIsNeverNotified(run: seq<State>, steps: seq<Step>, i: nat)
    requires IsRun(run, steps) && i < |run|
    ensures "" !in run[i].sent && "" !in run[i].distributed
  {
    RunKeepsInv(run, steps, i);
  }
}
