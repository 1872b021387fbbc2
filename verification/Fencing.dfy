/** Fencing locks: AcquireLock reads the lock's version tuple and swaps it for a fresh one in a second call, and every
    fenced write carries its token as a precondition. The calls of all acquirers interleave freely. */
module Fencing {
  import opened Tuples

  /** A version tuple: lock id and token. */
  datatype Version = Version(lock: string, token: string)

  /** An acquirer between its read and its write. */
  datatype Pending = Pending(lock: string, token: string, seen: Option<string>)

  /** issued remembers every token generated so far; tokens are random UUIDs, so a new one is never among them. */
  datatype Locks = Locks(versions: set<Version>, pending: map<nat, Pending>, issued: set<string>)

  datatype Step =
    | Read(p: nat, acquirer: Pending)   // generate a token, read the current version
    | Swap(p: nat)                      // the write went through
    | GiveUp(p: nat)                    // the write was refused, or never arrived
    | FencedWrite(lock: string, token: string)

  predicate Held(s: Locks, lock: string, token: string) {
    Version(lock, token) in s.versions
  }

  function VersionsOf(s: Locks, lock: string): set<Version> {
    set v | v in s.versions && v.lock == lock
  }

  /** The write precondition: some version tuple matches, where an empty id or token matches anything. */
  predicate FenceHolds(s: Locks, lock: string, token: string) {
    exists v | v in s.versions :: (lock == "" || v.lock == lock) && (token == "" || v.token == token)
  }

  ghost predicate Next(s: Locks, step: Step, s': Locks) {
    match step
    case Read(p, a) =>
      && p !in s.pending && a.token !in s.issued && a.token != ""
      && (if a.seen.Some? then Held(s, a.lock, a.seen.value) else VersionsOf(s, a.lock) == {})
      && s' == s.(pending := s.pending[p := a], issued := s.issued + {a.token})
    case Swap(p) =>
      && p in s.pending
      && var a := s.pending[p];
         && (a.seen.Some? ==> Held(s, a.lock, a.seen.value))
         && s' == s.(pending := s.pending - {p},
                     versions := (if a.seen.Some? then s.versions - {Version(a.lock, a.seen.value)} else s.versions)
                                 + {Version(a.lock, a.token)})
    case GiveUp(p) => p in s.pending && s' == s.(pending := s.pending - {p})
    case FencedWrite(lock, token) => FenceHolds(s, lock, token) && s' == s
  }

  /** Tokens are used once: those of waiting acquirers are pairwise different and not yet stored, and no token is
      stored for two locks. */
  ghost predicate Inv(s: Locks) {
    && (forall v | v in s.versions :: v.token in s.issued && v.token != "")
    && (forall v, w | v in s.versions && w in s.versions && v.token == w.token :: v == w)
    && (forall p | p in s.pending :: s.pending[p].token in s.issued && s.pending[p].token != "")
    && (forall p, v | p in s.pending && v in s.versions :: s.pending[p].token != v.token)
    && (forall p, q | p in s.pending && q in s.pending && s.pending[p].token == s.pending[q].token :: p == q)
  }

  ghost predicate IsRun(run: seq<Locks>, steps: seq<Step>) {
    && |run| == |steps| + 1 && Inv(run[0])
    && forall i | 0 <= i < |steps| :: Next(run[i], steps[i], run[i + 1])
  }

  lemma StepKeepsInv(s: Locks, step: Step, s': Locks)
    requires Inv(s) && Next(s, step, s')
    ensures Inv(s')
  {
  }

  lemma {:induction false} RunKeepsInv(run: seq<Locks>, steps: seq<Step>, i: nat)
    requires IsRun(run, steps) && i < |run|
    ensures Inv(run[i])
  {
    if i > 0 {
      RunKeepsInv(run, steps, i - 1);
      StepKeepsInv(run[i - 1], steps[i - 1], run[i]);
    }
  }

  // ---------- how many versions a lock has ----------

  /** Is this step an acquisition of the lock whose read had found no version? */
  predicate FirstAcquisition(s: Locks, step: Step, lock: string) {
    step.Swap? && step.p in s.pending && s.pending[step.p].lock == lock && s.pending[step.p].seen.None?
  }

  function FirstAcquisitions(run: seq<Locks>, steps: seq<Step>, lock: string, i: nat): nat
    requires i <= |steps| < |run|
  {
    if i == 0 then 0
    else FirstAcquisitions(run, steps, lock,
        i - 1) + (if FirstAcquisition(run[i - 1], steps[i - 1], lock) then 1 else 0)
  }

  /** What a step does to the versions of a lock. */
  lemma VersionsAfter(s: Locks, step: Step, s': Locks, lock: string)
    requires Inv(s) && Next(s, step, s')
    ensures if step.Swap? && s.pending[step.p].lock == lock then
              var a := s.pending[step.p];
              && Version(lock, a.token) !in VersionsOf(s, lock)
              && (a.seen.Some? ==> Version(lock, a.seen.value) in VersionsOf(s, lock))
              && VersionsOf(s', lock)
                 == (if a.seen.Some? then VersionsOf(s, lock) - {Version(lock, a.seen.value)} else VersionsOf(s, lock))
                    + {Version(lock, a.token)}
            else VersionsOf(s', lock) == VersionsOf(s, lock)
  {
  }

  lemma StepCount(s: Locks, step: Step, s': Locks, lock: string)
    requires Inv(s) && Next(s, step, s')
    ensures |VersionsOf(s', lock)| == |VersionsOf(s, lock)| + if FirstAcquisition(s, step, lock) then 1 else 0
  {
    VersionsAfter(s, step, s', lock);
  }

  /** Conservation: over every run, a lock's version tuples are those it had plus one for each acquisition that had
      read an empty lock. So tokens are exclusive exactly when these sum to one. */
  lemma {:induction false} VersionsAreConserved(run: seq<Locks>, steps: seq<Step>, lock: string, i: nat)
    requires IsRun(run, steps) && i < |run|
    ensures |VersionsOf(run[i], lock)| == |VersionsOf(run[0], lock)| + FirstAcquisitions(run, steps, lock, i)
  {
    if i > 0 {
      VersionsAreConserved(run, steps, lock, i - 1);
      RunKeepsInv(run, steps, i - 1);
      StepCount(run[i - 1], steps[i - 1], run[i], lock);
    }
  }

  /** Two acquirers that both read the lock before its first version both succeed, and both tokens are good. */
  lemma FirstAcquisitionsRace(lock: string, a: string, b: string) returns (run: seq<Locks>, steps: seq<Step>)
    requires a != b && a != "" && b != ""
    ensures IsRun(run, steps) && run[0] == Locks({}, map[], {})
    ensures var s := run[|run| - 1]; FenceHolds(s, lock, a) && FenceHolds(s, lock, b)
  {
    var pa, pb := Pending(lock, a, None), Pending(lock, b, None);
    var s0 := Locks({}, map[], {});
    var s1 := Locks({}, map[0 := pa], {a});
    var s2 := Locks({}, map[0 := pa, 1 := pb], {a, b});
    var s3 := Locks({Version(lock, a)}, map[1 := pb], {a, b});
    var s4 := Locks({Version(lock, a), Version(lock, b)}, map[], {a, b});
    assert s1.pending[1 := pb] == s2.pending && s2.pending - {0} == s3.pending && s3.pending - {1} == s4.pending;
    run := [s0, s1, s2, s3, s4];
    steps := [Read(0, pa), Read(1, pb), Swap(0), Swap(1)];
    assert Version(lock, a) in s4.versions && Version(lock, b) in s4.versions;
  }

  // ---------- one holder at a time ----------

  /** The lock has exactly this version, and no acquirer is waiting with an empty read. */
  ghost predicate Guarded(s: Locks, lock: string, holder: string) {
    && VersionsOf(s, lock) == {Version(lock, holder)}
    && forall p | p in s.pending && s.pending[p].lock == lock :: s.pending[p].seen.Some?
  }

  /** The token of the latest successful acquirer, or the one the lock started with. */
  function HolderAfter(run: seq<Locks>, steps: seq<Step>, lock: string, initial: string, i: nat): string
    requires i <= |steps| < |run|
  {
    if i == 0 then initial
    else
      var s, step := run[i - 1], steps[i - 1];
      if step.Swap? && step.p in s.pending && s.pending[step.p].lock == lock then s.pending[step.p].token
      else HolderAfter(run, steps, lock, initial, i - 1)
  }

  lemma StepKeepsGuarded(s: Locks, step: Step, s': Locks, lock: string, holder: string)
    requires Inv(s) && Next(s, step, s') && Guarded(s, lock, holder)
    ensures Guarded(s', lock, if step.Swap? && s.pending[step.p].lock == lock then s.pending[step.p].token else holder)
  {
    VersionsAfter(s, step, s', lock);
    assert Version(lock, holder) in VersionsOf(s, lock);
  }

  /** Mutual exclusion over every interleaving: the lock always has exactly one version, that of the latest acquirer. */
  lemma {:induction false} RunKeepsGuarded(run: seq<Locks>, steps: seq<Step>, lock: string, initial: string, i: nat)
    requires IsRun(run, steps) && i < |run| && Guarded(run[0], lock, initial)
    ensures Guarded(run[i], lock, HolderAfter(run, steps, lock, initial, i))
  {
    if i > 0 {
      RunKeepsGuarded(run, steps, lock, initial, i - 1);
      RunKeepsInv(run, steps, i - 1);
      StepKeepsGuarded(run[i - 1], steps[i - 1], run[i], lock, HolderAfter(run, steps, lock, initial, i - 1));
    }
  }

  ghost predicate OneVersion(s: Locks, lock: string) {
    |VersionsOf(s, lock)| == 1
  }

  lemma OneElement(vs: set<Version>, v: Version)
    requires |vs| == 1 && v in vs
    ensures vs == {v}
  {
    assert |vs - {v}| == 0;
  }

  ghost function TheToken(s: Locks, lock: string): (token: string)
    requires OneVersion(s, lock)
    ensures VersionsOf(s, lock) == {Version(lock, token)}
  {
    var v :| v in VersionsOf(s, lock);
    OneElement(VersionsOf(s, lock), v);
    v.token
  }

  /** One version for ever, however the acquisitions interleave: exactly the locks that have one and whose waiting
      acquirers have all read it. */
  lemma OneVersionForEverIff(s: Locks, lock: string)
    requires Inv(s)
    ensures (forall run, steps, i: nat | IsRun(run, steps) && run[0] == s && i < |run| :: OneVersion(run[i], lock)) <==>
            exists holder :: Guarded(s, lock, holder)
  {
    if holder :| Guarded(s, lock, holder) {
      forall run, steps, i: nat | IsRun(run, steps) && run[0] == s && i < |run| ensures OneVersion(run[i], lock) {
        RunKeepsGuarded(run, steps, lock, holder, i);
      }
    } else {
      assert IsRun([s], []) && [s][0] == s;
      if OneVersion(s, lock) {
        assert Guarded(s, lock, TheToken(s, lock))
          || exists p :: p in s.pending && s.pending[p].lock == lock && s.pending[p].seen.None?;
        var p :| p in s.pending && s.pending[p].lock == lock && s.pending[p].seen.None?;
        var s' := s.(pending := s.pending - {p}, versions := s.versions + {Version(lock, s.pending[p].token)});
        var run, steps := [s, s'], [Swap(p)];
        assert Next(s, Swap(p), s') && IsRun(run, steps);
        StepCount(s, Swap(p), s', lock);
        assert !OneVersion(run[1], lock);
      }
    }
  }

  /** Which fenced writes get through. With the lock's id: those of the latest acquirer, and those whose token is empty,
      as it is after a failed acquisition. With no id, as after a revocation: those whose token is stored for any lock,
      and with no token either every one, since this lock has a version. */
  lemma FencedWriteIff(run: seq<Locks>, steps: seq<Step>, lock: string, initial: string, i: nat, token: string)
    requires IsRun(run, steps) && i < |run| && Guarded(run[0], lock, initial)
    ensures lock != "" ==>
              (FenceHolds(run[i], lock, token) <==> token == "" || token == HolderAfter(run, steps, lock, initial, i))
    ensures FenceHolds(run[i], "", token) <==> token == "" || exists v | v in run[i].versions :: v.token == token
  {
    RunKeepsGuarded(run, steps, lock, initial, i);
    var holder := HolderAfter(run, steps, lock, initial, i);
    assert Version(lock, holder) in VersionsOf(run[i], lock);
    if v :| v in run[i].versions && v.lock == lock && (token == "" || v.token == token) {
      assert v in VersionsOf(run[i], lock);
    }
  }

  // ---------- superseded tokens ----------

  /** A token that was issued, is not stored for any lock and is not waiting to be stored. */
  ghost predicate Superseded(s: Locks, token: string) {
    && token in s.issued
    && (forall v | v in s.versions :: v.token != token)
    && (forall p | p in s.pending :: s.pending[p].token != token)
  }

  lemma {:induction false} SupersededForever(run: seq<Locks>, steps: seq<Step>, token: string, i: nat, j: nat)
    requires IsRun(run, steps) && i <= j < |run| && Superseded(run[i], token)
    ensures Superseded(run[j], token)
    decreases j
  {
    if i < j {
      SupersededForever(run, steps, token, i, j - 1);
      assert Next(run[j - 1], steps[j - 1], run[j]);
    }
  }

  /** The step that replaced it. */
  lemma {:induction false} ReplacedAt(run: seq<Locks>, steps: seq<Step>, lock: string, token: string, i: nat,
                                      k: nat) returns (m: nat)
    requires IsRun(run, steps) && i < k < |run|
    requires Held(run[i], lock, token) && !Held(run[k], lock, token)
    ensures i < m <= k && Superseded(run[m], token)
    decreases k
  {
    if Held(run[k - 1], lock, token) {
      m := k;
      RunKeepsInv(run, steps, k - 1);
      RunKeepsInv(run, steps, k);
      var s, s', step := run[k - 1], run[k], steps[k - 1];
      assert Next(s, step, s');
      var a := s.pending[step.p];
      assert s.versions - {Version(lock, token)} + {Version(a.lock, a.token)} == s'.versions;
      assert forall v | v in s.versions && v.token == token :: v == Version(lock, token);
    } else {
      m := ReplacedAt(run, steps, lock, token, i, k - 1);
    }
  }

  /** A stored token that has been replaced never validates a write again, whoever acquires the lock later and
      however the acquisitions race. */
  lemma ReplacedTokenNeverReturns(run: seq<Locks>, steps: seq<Step>, lock: string, token: string, i: nat, k: nat,
                                  j: nat)
    requires IsRun(run, steps) && i < k <= j < |run|
    requires Held(run[i], lock, token) && !Held(run[k], lock, token)
    ensures token != "" && !FenceHolds(run[j], lock, token) && !FenceHolds(run[j], "", token)
  {
    RunKeepsInv(run, steps, i);
    assert Version(lock, token) in run[i].versions;
    var m := ReplacedAt(run, steps, lock, token, i, k);
    SupersededForever(run, steps, token, m, j);
  }
}
