/** How the consumer turns a diff into backend calls, one by one, and what survives when some fail. */
module TupleWriter {
  import opened Tuples
  import opened Representations
  import opened RelationDiff

  /** One atomic backend call: upsert a batch, or delete by filter. */
  datatype Write = Touch(tuples: seq<RelationsTuple>) | DeleteBy(filter: TupleFilter)

  function Perform(store: set<RelationsTuple>, w: Write): set<RelationsTuple> {
    match w
    case Touch(ts) => store + set t | t in ts
    case DeleteBy(f) => set t | t in store && !Matches(t, f)
  }

  function PerformAll(store: set<RelationsTuple>, ws: seq<Write>): set<RelationsTuple> {
    if ws == [] then store else Perform(PerformAll(store, ws[..|ws| - 1]), ws[|ws| - 1])
  }

  /** The calls UpdateTuple makes: one upsert if there is anything to create, then one deletion per tuple. */
  function Writes(creates: seq<RelationsTuple>, deletes: seq<RelationsTuple>): seq<Write> {
    (if creates == [] then [] else [Touch(creates)])
    + seq(|deletes|, i requires 0 <= i < |deletes| => DeleteBy(TupleToFilter(deletes[i])))
  }

  /** Is t deleted by one of the calls? */
  ghost predicate Hit(t: RelationsTuple, ws: seq<Write>) {
    exists i | 0 <= i < |ws| :: ws[i].DeleteBy? && Matches(t, ws[i].filter)
  }

  /** A prefix of the calls leaves what was there or has been created, minus what has been deleted. */
  lemma {:induction false} PrefixEffect(store: set<RelationsTuple>, creates: seq<RelationsTuple>,
                                        deletes: seq<RelationsTuple>,
                                        k: nat, t: RelationsTuple)
    requires k <= |Writes(creates, deletes)|
    ensures t in PerformAll(store, Writes(creates, deletes)[..k]) <==>
            (t in store || (k > 0 && t in creates)) && !Hit(t, Writes(creates, deletes)[..k])
  {
    var ws := Writes(creates, deletes);
    if k > 0 {
      PrefixEffect(store, creates, deletes, k - 1, t);
      assert ws[..k][..k - 1] == ws[..k - 1];
      assert ws[..k][k - 1] == ws[k - 1];
      assert Hit(t, ws[..k]) <==> Hit(t, ws[..k - 1]) || (ws[k - 1].DeleteBy? && Matches(t, ws[k - 1].filter)) by {
        assert ws[..k] == ws[..k - 1] + [ws[k - 1]];
      }
      if k == 1 && creates != [] {
        assert ws[0] == Touch(creates);
      } else {
        assert ws[k - 1].DeleteBy?;
      }
    }
  }

  lemma HitIsDeletion(creates: seq<RelationsTuple>, deletes: seq<RelationsTuple>, k: nat, t: RelationsTuple)
    requires k <= |Writes(creates, deletes)|
    ensures Hit(t, Writes(creates, deletes)[..k]) ==> exists d | d in deletes :: Matches(t, TupleToFilter(d))
  {
  }

  /** All the calls together. */
  lemma FullEffect(store: set<RelationsTuple>, creates: seq<RelationsTuple>, deletes: seq<RelationsTuple>,
                   t: RelationsTuple)
    ensures t in PerformAll(store, Writes(creates, deletes)) <==>
            (t in store || t in creates) && forall d | d in deletes :: !Matches(t, TupleToFilter(d))
  {
    var ws := Writes(creates, deletes);
    PrefixEffect(store, creates, deletes, |ws|, t);
    HitIsDeletion(creates, deletes, |ws|, t);
    assert ws[..|ws|] == ws;
    var first := |ws| - |deletes|;
    if !Hit(t, ws) {
      forall d | d in deletes ensures !Matches(t, TupleToFilter(d)) {
        var i :| 0 <= i < |deletes| && deletes[i] == d;
        assert ws[first + i] == DeleteBy(TupleToFilter(deletes[i]));
      }
    }
    assert |ws| == 0 ==> creates == [];
  }

  /** The same for a direct tuple and direct deletions, where a filter deletes just its own tuple. */
  lemma DirectEffect(store: set<RelationsTuple>, creates: seq<RelationsTuple>, deletes: seq<RelationsTuple>, k: nat,
                     x: RelationsTuple)
    requires k <= |Writes(creates, deletes)| && Direct(x) && forall d | d in deletes :: Direct(d)
    ensures x in PerformAll(store, Writes(creates, deletes)) <==> (x in store || x in creates) && x !in deletes
    ensures x in PerformAll(store, Writes(creates, deletes)[..k]) ==> x in store || x in creates
    ensures x in store && x !in deletes ==> x in PerformAll(store, Writes(creates, deletes)[..k])
  {
    FullEffect(store, creates, deletes, x);
    PrefixEffect(store, creates, deletes, k, x);
    HitIsDeletion(creates, deletes, k, x);
    forall d | d in deletes ensures Matches(x, TupleToFilter(d)) <==> x == d {
      FilterIsExactOnDirectTuples(d, x);
    }
  }

  /** Starting over after any interrupted attempt gives what one clean attempt would have given. */
  lemma RetryIsIdempotent(store: set<RelationsTuple>, creates: seq<RelationsTuple>, deletes: seq<RelationsTuple>,
                          k: nat)
    requires k <= |Writes(creates, deletes)|
    ensures PerformAll(PerformAll(store, Writes(creates, deletes)[..k]), Writes(creates, deletes))
            == PerformAll(store, Writes(creates, deletes))
  {
    var ws := Writes(creates, deletes);
    var partial := PerformAll(store, ws[..k]);
    forall t ensures t in PerformAll(partial, ws) <==> t in PerformAll(store, ws) {
      FullEffect(partial, creates, deletes, t);
      FullEffect(store, creates, deletes, t);
      PrefixEffect(store, creates, deletes, k, t);
      HitIsDeletion(creates, deletes, k, t);
    }
  }

  /** One more deletion. */
  lemma NextWrite(store: set<RelationsTuple>, creates: seq<RelationsTuple>, deletes: seq<RelationsTuple>, i: nat)
    requires i < |deletes|
    ensures var ws := Writes(creates, deletes);
            var k := |ws| - |deletes| + i;
            PerformAll(store, ws[..k + 1]) == Perform(PerformAll(store, ws[..k]), DeleteBy(TupleToFilter(deletes[i])))
  {
    var ws := Writes(creates, deletes);
    var k := |ws| - |deletes| + i;
    assert ws[..k + 1][..k] == ws[..k] && ws[..k + 1][k] == ws[k];
  }

  lemma {:induction false} PerformConcat(store: set<RelationsTuple>, a: seq<Write>, b: seq<Write>)
    ensures PerformAll(PerformAll(store, a), b) == PerformAll(store, a + b)
    decreases |b|
  {
    if b == [] {
      assert a + b == a;
    } else {
      PerformConcat(store, a, b[..|b| - 1]);
      assert (a + b)[..|a + b| - 1] == a + b[..|b| - 1];
    }
  }

  /** The calls are those of the creation, then those of the deletions. */
  lemma CreatesFirst(store: set<RelationsTuple>, creates: seq<RelationsTuple>, deletes: seq<RelationsTuple>, c: nat,
                     d: nat)
    requires c <= |Writes(creates, [])| && d <= |deletes| && (d > 0 ==> c == |Writes(creates, [])|)
    ensures c + d <= |Writes(creates, deletes)|
    ensures PerformAll(PerformAll(store, Writes(creates, [])[..c]), Writes([], deletes)[..d])
            == PerformAll(store, Writes(creates, deletes)[..c + d])
  {
    PerformConcat(store, Writes(creates, [])[..c], Writes([], deletes)[..d]);
    assert Writes(creates, [])[..c] + Writes([], deletes)[..d] == Writes(creates, deletes)[..c + d];
  }

  /** What the backend does with the next call: carry it out and answer with a consistency token, refuse it, or carry it
      out and lose the reply. */
  datatype Outcome = Done(token: string) | Refused | ReplyLost

  /** The outcomes to come; after the last one every call is carried out. */
  type Script = seq<Outcome>

  function OutcomeAt(script: Script, i: nat): Outcome {
    if i < |script| then script[i] else Done("")
  }

  function Drop(script: Script, n: nat): Script {
    if n <= |script| then script[n..] else []
  }

  lemma DropIsLater(script: Script, n: nat, i: nat)
    ensures OutcomeAt(Drop(script, n), i) == OutcomeAt(script, n + i) && Drop(Drop(script, n), i) == Drop(script, n + i)
  {
  }

  /** The first n calls are all answered. */
  predicate AllDone(script: Script, n: nat) {
    forall i: nat | i < n :: OutcomeAt(script, i).Done?
  }

  /** The first token among the replies to calls i to n that is not empty. */
  function FirstToken(script: Script, i: nat, n: nat): string
    decreases n - i
  {
    if i >= n then ""
    else
      var o := OutcomeAt(script, i);
      if o.Done? && o.token != "" then o.token else FirstToken(script, i + 1, n)
  }

  /** The first token is one that was given, and all before it are empty; or all are, and it is empty too. */
  lemma {:induction false} FirstTokenMeaning(script: Script, i: nat, n: nat)
    requires i <= n && AllDone(script, n)
    ensures var token := FirstToken(script, i, n);
            if token == "" then forall k: nat | i <= k < n :: OutcomeAt(script, k).token == ""
            else exists k: nat | i <= k < n ::
                   OutcomeAt(script, k).token == token && forall j: nat | i <= j < k :: OutcomeAt(script, j).token == ""
    decreases n - i
  {
    if i < n && OutcomeAt(script, i).token == "" {
      FirstTokenMeaning(script, i + 1, n);
    }
  }

  /** How many of the calls to come will not be answered. */
  function Failures(script: Script): nat {
    if script == [] then 0 else Failures(script[1..]) + (if script[0].Done? then 0 else 1)
  }

  /** Answered calls leave them all to come; one that is not answered uses one up. */
  lemma {:induction false} FailuresAfter(script: Script, calls: nat)
    requires AllDone(script, calls)
    ensures Failures(Drop(script, calls)) == Failures(script)
    ensures !OutcomeAt(script, calls).Done? ==> Failures(Drop(script, calls + 1)) == Failures(script) - 1
    decreases calls
  {
    if calls == 0 {
      assert script != [] ==> Drop(script, 1) == script[1..];
    } else if script != [] {
      assert OutcomeAt(script, 0).Done?;
      forall i: nat | i < calls - 1 ensures OutcomeAt(script[1..], i).Done? {
        assert OutcomeAt(script, i + 1).Done?;
      }
      FailuresAfter(script[1..], calls - 1);
      assert Drop(script, calls) == Drop(script[1..], calls - 1) && Drop(script, calls + 1) == Drop(script[1..], calls);
    }
  }

  lemma {:induction false} TokenAfter(script: Script, c: nat, i: nat, n: nat)
    ensures FirstToken(Drop(script, c), i, n) == FirstToken(script, c + i, c + n)
    decreases n - i
  {
    if i < n {
      DropIsLater(script, c, i);
      TokenAfter(script, c, i + 1, n);
    }
  }

  /** What the replies after the first c say. */
  lemma {:induction false} AnsweredAfter(script: Script, c: nat, n: nat)
    ensures AllDone(script, c) ==> (AllDone(script, c + n) <==> AllDone(Drop(script, c), n))
    ensures FirstToken(Drop(script, c), 0, n) == FirstToken(script, c, c + n)
  {
    forall i: nat ensures OutcomeAt(Drop(script, c), i) == OutcomeAt(script, c + i) {
      DropIsLater(script, c, i);
    }
    if AllDone(script, c) && AllDone(Drop(script, c), n) {
      forall i: nat | i < c + n ensures OutcomeAt(script, i).Done? {
        if i >= c {
          assert OutcomeAt(Drop(script, c), i - c).Done?;
        }
      }
    }
    TokenAfter(script, c, 0, n);
  }

  /** Calls made in order up to the first failure: some prefix of them has taken effect, all of them on success, which
      is exactly when all are answered; the token is then the first one given. */
  ghost predicate Made(store: set<RelationsTuple>, script: Script, ws: seq<Write>, store': set<RelationsTuple>,
                       script': Script, ok: bool, token: string, done: nat, calls: nat)
  {
    && done <= calls <= |ws| && store' == PerformAll(store, ws[..done])
    && script' == Drop(script, calls)
    && (!ok ==> calls > 0 && AllDone(script, calls - 1) && !OutcomeAt(script, calls - 1).Done?)
    && (ok <==> AllDone(script, |ws|))
    && (ok ==> done == calls == |ws| && token == FirstToken(script, 0, |ws|))
  }

  /** The first i deletions have been made and answered. */
  ghost predicate Deleting(store: set<RelationsTuple>, script: Script, deletes: seq<RelationsTuple>, i: nat,
                           store': set<RelationsTuple>, script': Script, token: string)
    requires i <= |deletes|
  {
    && script' == Drop(script, i) && AllDone(script, i) && store' == PerformAll(store, Writes([], deletes)[..i])
    && FirstToken(script, 0, |deletes|) == if token != "" then token else FirstToken(script, i, |deletes|)
  }

  lemma DeletingOneMore(store: set<RelationsTuple>, script: Script, deletes: seq<RelationsTuple>, i: nat,
                        store': set<RelationsTuple>, script': Script, token: string)
    requires i < |deletes| && Deleting(store, script, deletes, i, store', script', token) && OutcomeAt(script', 0).Done?
    ensures Deleting(store, script, deletes, i + 1, Perform(store', DeleteBy(TupleToFilter(deletes[i]))),
              Drop(script', 1),
                     if token != "" then token else OutcomeAt(script', 0).token)
  {
    NextWrite(store, [], deletes, i);
    DropIsLater(script, i, 0);
    DropIsLater(script, i, 1);
  }

  lemma DeletingStops(store: set<RelationsTuple>, script: Script, deletes: seq<RelationsTuple>, i: nat,
                      store': set<RelationsTuple>, script': Script, token: string)
    requires i < |deletes| && Deleting(store, script, deletes, i, store', script', token)
             && !OutcomeAt(script', 0).Done?
    ensures var refused := OutcomeAt(script', 0).Refused?;
            Made(store, script, Writes([], deletes),
                 if refused then store' else Perform(store', DeleteBy(TupleToFilter(deletes[i]))), Drop(script', 1),
                 false, "", if refused then i else i + 1, i + 1)
  {
    NextWrite(store, [], deletes, i);
    DropIsLater(script, i, 0);
    DropIsLater(script, i, 1);
  }

  lemma DeletingEnds(store: set<RelationsTuple>, script: Script, deletes: seq<RelationsTuple>,
                     store': set<RelationsTuple>, script': Script, token: string)
    requires Deleting(store, script, deletes, |deletes|, store', script', token)
    ensures Made(store, script, Writes([], deletes), store', script', true, token, |deletes|, |deletes|)
  {
  }

  /** A creation that has not succeeded, or with nothing to delete after it. */
  lemma MadeCreation(store: set<RelationsTuple>, script: Script, creates: seq<RelationsTuple>,
                     deletes: seq<RelationsTuple>, done: nat)
    requires creates != [] && done <= 1 && (OutcomeAt(script, 0).Done? ==> done == 1 && deletes == [])
    ensures var o := OutcomeAt(script, 0);
            Made(store, script, Writes(creates, deletes), PerformAll(store, Writes(creates, [])[..done]),
                Drop(script, 1),
                 o.Done?, if o.Done? then o.token else "", done, 1)
  {
    CreatesFirst(store, creates, deletes, done, 0);
    assert AllDone(script, |Writes(creates, deletes)|) ==> OutcomeAt(script, 0).Done?;
    assert FirstToken(script, 1, 1) == "";
  }

  lemma MadeReplies(script: Script, n: nat)
    requires OutcomeAt(script, 0).Done?
    ensures AllDone(script, 1 + n) <==> AllDone(Drop(script, 1), n)
    ensures FirstToken(script, 0, 1 + n) ==
            var first := OutcomeAt(script, 0).token; if first != "" then first else FirstToken(Drop(script, 1), 0, n)
  {
    AnsweredAfter(script, 1, n);
    assert AllDone(script, 1);
  }

  /** A creation that has succeeded, and then the deletions. */
  lemma MadeTogether(store: set<RelationsTuple>, script: Script, creates: seq<RelationsTuple>,
                     deletes: seq<RelationsTuple>,
                     store': set<RelationsTuple>, script': Script, ok: bool, given: string, done: nat, calls: nat)
    requires creates != [] && OutcomeAt(script, 0).Done?
    requires Made(PerformAll(store, Writes(creates, [])[..1]), Drop(script, 1), Writes([], deletes), store',
               script', ok,
                  given, done, calls)
    ensures var first := OutcomeAt(script, 0).token;
            Made(store, script, Writes(creates, deletes), store', script', ok, if first != "" then first else given,
                 1 + done, 1 + calls)
  {
    CreatesFirst(store, creates, deletes, 1, done);
    DropIsLater(script, 1, calls);
    MadeReplies(script, |deletes|);
    if !ok {
      DropIsLater(script, 1, calls - 1);
      MadeReplies(script, calls - 1);
    }
  }

  class Backend {
    var tuples: set<RelationsTuple>
    var script: Script

    constructor (script: Script)
      ensures tuples == {} && this.script == script
    {
      tuples := {};
      this.script := script;
    }

    method Call(w: Write) returns (ok: bool, token: string)
      modifies this
      ensures var o := OutcomeAt(old(script), 0);
              && (ok <==> o.Done?) && token == (if ok then o.token else "")
              && tuples == if o.Refused? then old(tuples) else Perform(old(tuples), w)
      ensures script == Drop(old(script), 1)
    {
      var outcome := OutcomeAt(script, 0);
      if !outcome.Refused? {
        tuples := Perform(tuples, w);
      }
      script := Drop(script, 1);
      ok := outcome.Done?;
      token := if ok then outcome.token else "";
    }

    /** CreateTuple: an empty list is an error and reaches no backend. */
    method CreateTuple(creates: seq<RelationsTuple>) returns (ok: bool, token: string, ghost done: nat)
      modifies this
      ensures done <= |Writes(creates, [])|
      ensures tuples == PerformAll(old(tuples), Writes(creates, [])[..done])
      ensures ok <==> creates != [] && OutcomeAt(old(script), 0).Done?
      ensures ok ==> done == |Writes(creates, [])|
      ensures token == if ok then OutcomeAt(old(script), 0).token else ""
      ensures script == if creates == [] then old(script) else Drop(old(script), 1)
    {
      if creates == [] {
        return false, "", 0;
      }
      done := if OutcomeAt(script, 0).Refused? then 0 else 1;
      assert Writes(creates, [])[..1] == [Touch(creates)];
      ok, token := Call(Touch(creates));
    }

    /** DeleteTuple: one call for each tuple. */
    method DeleteTuple(deletes: seq<RelationsTuple>)
      returns (ok: bool, token: string, ghost done: nat, ghost calls: nat)
      modifies this
      ensures Made(old(tuples), old(script), Writes([], deletes), tuples, script, ok, token, done, calls)
    {
      token := "";
      for i := 0 to |deletes|
        invariant Deleting(old(tuples), old(script), deletes, i, tuples, script, token)
      {
        ghost var before, outcomes := tuples, script;
        var deleted, given := Call(DeleteBy(TupleToFilter(deletes[i])));
        if !deleted {
          DeletingStops(old(tuples), old(script), deletes, i, before, outcomes, token);
          return false, "", if OutcomeAt(outcomes, 0).Refused? then i else i + 1, i + 1;
        }
        DeletingOneMore(old(tuples), old(script), deletes, i, before, outcomes, token);
        if token == "" {
          token := given;
        }
      }
      DeletingEnds(old(tuples), old(script), deletes, tuples, script, token);
      ok, done, calls := true, |deletes|, |deletes|;
    }

    /** UpdateTuple: the creation, if there is anything to create, and then the deletions. */
    method UpdateTuple(creates: seq<RelationsTuple>, deletes: seq<RelationsTuple>)
      returns (ok: bool, token: string, ghost done: nat, ghost calls: nat)
      modifies this
      ensures Made(old(tuples), old(script), Writes(creates, deletes), tuples, script, ok, token, done, calls)
    {
      if creates == [] {
        ok, token, done, calls := DeleteTuple(deletes);
        return;
      }
      ok, token, done := CreateTuple(creates);
      calls := 1;
      if !ok || deletes == [] {
        MadeCreation(old(tuples), old(script), creates, deletes, done);
        return;
      }
      var given;
      ok, given, done, calls := DeleteTuple(deletes);
      MadeTogether(old(tuples), old(script), creates, deletes, tuples, script, ok, given, done, calls);
      done, calls := 1 + done, 1 + calls;
      if token == "" {
        token := given;
      }
    }
  }

  /** With unambiguous definitions, diffing definition by definition is diffing the projections. */
  lemma GainedIsDifference(defs: seq<RelationDef>, key: ReporterResourceKey, from: Option<Representations>,
                           to: Option<Representations>)
    requires Unambiguous(defs)
    ensures Gained(defs, key, from, to) == Projection(defs, key, to) - Projection(defs, key, from)
  {
  }

  predicate About(key: ReporterResourceKey, t: RelationsTuple) {
    Direct(t) && t.obj == ObjectOf(key)
  }

  predicate Elsewhere(key: ReporterResourceKey, t: RelationsTuple) {
    t.obj.resourceType != key.resourceType || t.obj.resourceId != key.localResourceId
    || ReporterTypeOf(t.obj) != Some(key.reporterType)
  }

  lemma ProjectionIsAbout(defs: seq<RelationDef>, key: ReporterResourceKey, r: Option<Representations>)
    ensures forall t | t in Projection(defs, key, r) :: About(key, t)
  {
  }

  /** The tuples to create and delete are about the key. */
  ghost predicate WritesAbout(key: ReporterResourceKey, t: TuplesToReplicate) {
    forall d | d in t.Creates() || d in t.Deletes() :: About(key, d)
  }

  /** What one resource writes, all of it or a part, leaves the tuples about another object alone. */
  lemma OtherObjectUnaffected(other: ReporterResourceKey, key: ReporterResourceKey, store: set<RelationsTuple>,
                              t: TuplesToReplicate, calls: nat, x: RelationsTuple)
    requires WritesAbout(other, t) && calls <= |Writes(t.Creates(), t.Deletes())|
    requires ObjectOf(other) != ObjectOf(key) && About(key, x)
    ensures x in PerformAll(store, Writes(t.Creates(), t.Deletes())[..calls]) <==> x in store
    ensures x in PerformAll(store, Writes(t.Creates(), t.Deletes())) <==> x in store
  {
    DirectEffect(store, t.Creates(), t.Deletes(), calls, x);
  }

  /** Diff correctness: on a store whose tuples about the key are the previous projection, carrying out the diff
      leaves the current projection, and every tuple about another object stays as it was. */
  lemma DiffApplied(defs: seq<RelationDef>, key: ReporterResourceKey, current: Option<Representations>,
                    previous: Option<Representations>, t: TuplesToReplicate, store: set<RelationsTuple>)
    requires Unambiguous(defs) && IsDiff(t, defs, key, current, previous)
    requires forall x | About(key, x) :: x in store <==> x in Projection(defs, key, previous)
    ensures var after := PerformAll(store, Writes(t.Creates(), t.Deletes()));
            && (forall x | About(key, x) :: x in after <==> x in Projection(defs, key, current))
            && (forall x | Elsewhere(key, x) :: x in after <==> x in store)
    ensures forall x | x in t.Creates() :: x !in t.Deletes()
  {
    GainedIsDifference(defs, key, previous, current);
    GainedIsDifference(defs, key, current, previous);
    ProjectionIsAbout(defs, key, current);
    ProjectionIsAbout(defs, key, previous);
    var after := PerformAll(store, Writes(t.Creates(), t.Deletes()));
    forall x | About(key, x) ensures x in after <==> x in Projection(defs, key, current) {
      DirectEffect(store, t.Creates(), t.Deletes(), 0, x);
    }
    forall x | Elsewhere(key, x) ensures x in after <==> x in store {
      FullEffect(store, t.Creates(), t.Deletes(), x);
    }
  }

  /** Whatever list order the diff comes in, carrying it out turns one projection into the other. */
  ghost predicate DiffSound(defs: seq<RelationDef>, key: ReporterResourceKey, current: Option<Representations>,
                            previous: Option<Representations>)
  {
    forall t | IsDiff(t, defs, key, current, previous) ::
      PerformAll(Projection(defs, key, previous), Writes(t.Creates(), t.Deletes())) == Projection(defs, key, current)
  }

  lemma {:induction false} Enumerate<T(!new)>(elements: set<T>) returns (s: seq<T>)
    ensures Lists(s, elements)
    decreases |elements|
  {
    s := [];
    if elements != {} {
      var x :| x in elements;
      var rest := Enumerate(elements - {x});
      s := [x] + rest;
    }
  }

  lemma SomeDiff(defs: seq<RelationDef>, key: ReporterResourceKey, current: Option<Representations>,
                 previous: Option<Representations>) returns (t: TuplesToReplicate)
    ensures IsDiff(t, defs, key, current, previous)
  {
    var creates := Enumerate(Gained(defs, key, previous, current));
    var deletes := Enumerate(Gained(defs, key, current, previous));
    t := NewTuplesToReplicate(creates, deletes);
    assert creates != [] ==> creates[0] in creates;
    assert deletes != [] ==> deletes[0] in deletes;
  }

  lemma DiffOfProjections(defs: seq<RelationDef>, key: ReporterResourceKey, current: Option<Representations>,
                          previous: Option<Representations>, t: TuplesToReplicate)
    requires Unambiguous(defs) && IsDiff(t, defs, key, current, previous)
    ensures PerformAll(Projection(defs, key, previous), Writes(t.Creates(), t.Deletes()))
            == Projection(defs, key, current)
  {
    var store := Projection(defs, key, previous);
    var after := PerformAll(store, Writes(t.Creates(), t.Deletes()));
    DiffApplied(defs, key, current, previous, t, store);
    ProjectionIsAbout(defs, key, previous);
    ProjectionIsAbout(defs, key, current);
    GainedIsDifference(defs, key, previous, current);
    forall x ensures x in after <==> x in Projection(defs, key, current) {
      FullEffect(store, t.Creates(), t.Deletes(), x);
    }
  }

  /** A JSON field from which the definition reads the one value "x". */
  function Holding(d: RelationDef): Json {
    if d.multiValued then Arr([Str("x")]) else Str("x")
  }

  function Common(data: Data): Option<Representations> {
    Some(Representations(data, Some(0), map[], None))
  }

  /** Two different definitions with one target: a value leaves one field and stays (or arrives) in the other,
      and the deletion takes the tuple the projection still has. */
  lemma AmbiguityLosesTuple(defs: seq<RelationDef>, d: RelationDef, e: RelationDef, key: ReporterResourceKey)
    requires d in defs && e in defs && SameTarget(d, e) && d != e
    ensures exists current, previous :: !DiffSound(defs, key, current, previous)
  {
    var current := Common(map[e.fieldName := Holding(e)]);
    var previous := if d.fieldName == e.fieldName then Common(map[d.fieldName := Holding(d)])
                    else Common(map[d.fieldName := Holding(d), e.fieldName := Holding(e)]);
    var x := TupleFor(key, e, "x");
    assert e.fieldName in current.value.commonData && d.fieldName in previous.value.commonData;
    ValuesMeaning(e, current, "x");
    ValuesMeaning(d, current, "x");
    ValuesMeaning(d, previous, "x");
    assert d.multiValued ==> Str("x") in Holding(d).items;
    assert e.multiValued ==> Str("x") in Holding(e).items;
    assert "x" in Values(e, current) && x in Projection(defs, key, current);
    assert x == TupleFor(key, d, "x") && x in Gained(defs, key, current, previous);
    var t := SomeDiff(defs, key, current, previous);
    FullEffect(Projection(defs, key, previous), t.Creates(), t.Deletes(), x);
    assert Matches(x, TupleToFilter(x));
    assert !DiffSound(defs, key, current, previous);
  }

  /** The promise holds for every pair of representations exactly when no two different definitions share a
      relation, a subject namespace and a subject type. */
  lemma DiffSoundIffUnambiguous(defs: seq<RelationDef>, key: ReporterResourceKey)
    ensures (forall current, previous :: DiffSound(defs, key, current, previous)) <==> Unambiguous(defs)
  {
    if Unambiguous(defs) {
      forall current, previous ensures DiffSound(defs, key, current, previous) {
        forall t | IsDiff(t, defs, key, current, previous)
          ensures PerformAll(Projection(defs, key, previous), Writes(t.Creates(), t.Deletes()))
                  == Projection(defs, key, current)
        {
          ProjectionIsAbout(defs, key, previous);
          ProjectionIsAbout(defs, key, current);
          DiffOfProjections(defs, key, current, previous, t);
        }
      }
    } else {
      var d, e :| d in defs && e in defs && SameTarget(d, e) && d != e;
      AmbiguityLosesTuple(defs, d, e, key);
    }
  }
}
