/** SimpleRelationsRepository: the in-memory tuple store with a version per mutation, retained snapshots, and reads at
    least as fresh as a token. It is proved to refine the history of all its versions. */
module SnapshotStore {
  import opened Tuples
  import opened Iteration
  import opened TupleWriter

  datatype TupleKey = TupleKey(
    resourceNamespace: string, resourceType: string, resourceId: string, relation: string,
    subjectNamespace: string, subjectType: string, subjectId: string)

  /** Subject relations and reporter instances are not part of the key; a missing reporter is the empty namespace. */
  function NamespaceOf(r: ResourceReference): string {
    if r.reporter.Some? then r.reporter.value.reporterType else ""
  }

  function KeyOf(t: RelationsTuple): TupleKey {
    TupleKey(NamespaceOf(t.obj), t.obj.resourceType, t.obj.resourceId, t.relation,
             NamespaceOf(t.subject.resource), t.subject.resource.resourceType, t.subject.resource.resourceId)
  }

  /** Which fields make up the key; a reference without a reporter has the empty namespace. */
  lemma KeyFields(resourceType: string, resourceId: string, namespace: string, relation: string, subjectType: string,
                  subjectId: string, subjectNamespace: string, instance: Option<string>,
                      subjectRelation: Option<string>)
    ensures var obj := ResourceReference(resourceType, resourceId, Some(ReporterReference(namespace, instance)));
            var subject := ResourceReference(subjectType, subjectId,
                Some(ReporterReference(subjectNamespace, instance)));
            var k := KeyOf(RelationsTuple(obj, relation, SubjectReference(subject, subjectRelation)));
            && k == TupleKey(namespace, resourceType, resourceId, relation, subjectNamespace, subjectType, subjectId)
            && KeyOf(RelationsTuple(obj.(reporter := None), relation,
                                    SubjectReference(subject.(reporter := None), subjectRelation)))
               == TupleKey("", resourceType, resourceId, relation, "", subjectType, subjectId)
  {
  }

  predicate Accepts(wanted: Option<string>, actual: string) {
    wanted.None? || wanted.value == actual
  }

  predicate MatchesKey(k: TupleKey, f: TupleFilter) {
    && Accepts(f.reporterType, k.resourceNamespace) && Accepts(f.objectType, k.resourceType)
    && Accepts(f.objectId, k.resourceId) && Accepts(f.relation, k.relation)
    && (f.subject.Some? ==>
          && Accepts(f.subject.value.reporterType, k.subjectNamespace)
            && Accepts(f.subject.value.subjectType, k.subjectType)
          && Accepts(f.subject.value.subjectId, k.subjectId))
  }

  /** A consistency token: absent, not a number, or a version. */
  datatype Token = NoToken | Malformed | At(version: int)

  function Requested(token: Token): int {
    if token.At? then token.version else 0
  }

  /** The mutations that advance the version. */
  datatype Mutation = Add(keys: set<TupleKey>) | Remove(filter: TupleFilter)

  function Mutate(tuples: set<TupleKey>, m: Mutation): set<TupleKey> {
    match m
    case Add(keys) => tuples + keys
    case Remove(f) => set k | k in tuples && !MatchesKey(k, f)
  }

  /** The state at each version, the first being version 1: what the mutations leave, one after the other. */
  function StateAt(log: seq<Mutation>, version: int): set<TupleKey>
    requires 1 <= version <= |log| + 1
    decreases version
  {
    if version == 1 then {} else Mutate(StateAt(log, version - 1), log[version - 2])
  }

  lemma {:induction false} StateAtPrefix(log: seq<Mutation>, m: Mutation, version: int)
    requires 1 <= version <= |log| + 1
    ensures StateAt(log + [m], version) == StateAt(log, version)
    decreases version
  {
    if version > 1 {
      StateAtPrefix(log, m, version - 1);
    }
  }

  // ---------- sorting and searching the available versions ----------

  predicate Sorted(s: seq<int>) {
    forall i, j | 0 <= i < j < |s| :: s[i] <= s[j]
  }

  /** One step of slices.Sort, as an insertion. */
  function Insert(s: seq<int>, v: int): (r: seq<int>)
    requires Sorted(s)
    ensures Sorted(r) && forall x :: x in r <==> x in s || x == v
  {
    if s == [] then [v]
    else if v <= s[0] then [v] + s
    else
      var tail := Insert(s[1..], v);
      assert s == [s[0]] + s[1..];
      assert forall x | x in s[1..] :: s[0] <= x;
      assert forall i | 0 <= i < |tail| :: tail[i] in tail;
      [s[0]] + tail
  }

  /** slices.BinarySearch: the first index whose element is not below the target. */
  method BinarySearch(s: seq<int>, target: int) returns (idx: nat)
    requires Sorted(s)
    ensures idx <= |s|
    ensures forall i | 0 <= i < idx :: s[i] < target
    ensures forall i | idx <= i < |s| :: s[i] >= target
  {
    var lo, hi := 0, |s|;
    while lo < hi
      invariant 0 <= lo <= hi <= |s|
      invariant forall i | 0 <= i < lo :: s[i] < target
      invariant forall i | hi <= i < |s| :: s[i] >= target
    {
      var mid := (lo + hi) / 2;
      if s[mid] < target {
        lo := mid + 1;
      } else {
        hi := mid;
      }
    }
    idx := lo;
  }

  lemma Smallest(versions: seq<int>, idx: nat, available: set<int>, requested: int)
    requires Sorted(versions) && (forall v :: v in versions <==> v in available) && idx < |versions|
    requires forall i | 0 <= i < idx :: versions[i] < requested
    requires forall i | idx <= i < |versions| :: versions[i] >= requested
    ensures versions[idx] in available && forall w | w in available && w >= requested :: versions[idx] <= w
  {
    assert versions[idx] in versions && versions[idx] in available;
    forall w | w in available && w >= requested ensures versions[idx] <= w {
      assert w in versions;
    }
  }

  /** The operations of the store, for sequences of them. */
  datatype Operation =
    | Retain
    | Release(v: int)
    | Clear
    | GrantTo(subjectId: string, relation: string, namespace: string, resourceType: string, resourceId: string)
    | CreateAll(ts: seq<RelationsTuple>)
    | DeleteWith(filter: TupleFilter)

  // ---------- what a token guarantees ----------

  predicate AddsKey(m: Mutation, k: TupleKey) { m.Add? && k in m.keys }

  predicate RemovesKey(m: Mutation, k: TupleKey) { m.Remove? && MatchesKey(k, m.filter) }

  /** The state at a version holds exactly the keys added by some mutation and matched by no deletion since. */
  lemma {:induction false} PresentIff(log: seq<Mutation>, k: TupleKey, v: int)
    requires 1 <= v <= |log| + 1
    ensures k in StateAt(log, v) <==>
            exists i | 0 <= i < v - 1 :: AddsKey(log[i], k) && forall j | i < j < v - 1 :: !RemovesKey(log[j], k)
    decreases v
  {
    if v > 1 {
      PresentIff(log, k, v - 1);
      if k in StateAt(log, v - 1) && !RemovesKey(log[v - 2], k) {
        var i :| 0 <= i < v - 2 && AddsKey(log[i], k) && forall j | i < j < v - 2 :: !RemovesKey(log[j], k);
        assert forall j | i < j < v - 1 :: !RemovesKey(log[j], k);
      }
    }
  }

  /** Read your writes, whichever snapshots are retained: any state at or after a creation has what was created, as long
      as no deletion since then has matched it. */
  lemma ReadYourWrites(log: seq<Mutation>, k: TupleKey, written: int, v: int)
    requires 2 <= written <= v <= |log| + 1 && AddsKey(log[written - 2], k)
    requires forall i | written - 1 <= i < |log| :: !RemovesKey(log[i], k)
    ensures k in StateAt(log, v)
  {
    PresentIff(log, k, v);
  }

  /** And dually, any state at or after a deletion lacks what was deleted, until that is written again. */
  lemma DeletesAreSeen(log: seq<Mutation>, k: TupleKey, removed: int, v: int)
    requires 2 <= removed <= v <= |log| + 1 && RemovesKey(log[removed - 2], k)
    requires forall i | removed - 1 <= i < |log| :: !AddsKey(log[i], k)
    ensures k !in StateAt(log, v)
  {
    PresentIff(log, k, v);
  }

  /** No deletion among the operations matches the key. */
  predicate Spared(k: TupleKey, ops: seq<Operation>) {
    forall op | op in ops && op.DeleteWith? :: !MatchesKey(k, op.filter)
  }

  // ---------- the store ----------

  class SimpleRelationsRepository {
    var version: int
    var tuples: set<TupleKey>
    var snapshots: map<int, set<TupleKey>>
    // Set by tests to make the two operations fail.
    var createTuplesError: bool
    var deleteTuplesError: bool
    // All mutations since the last reset: the specification's view of the store.
    ghost var log: seq<Mutation>

    /** The store refines its log: the tuples are the last state, and every snapshot is the state at its version. */
    ghost predicate Valid()
      reads this
    {
      && version == |log| + 1 && tuples == StateAt(log, version)
      && forall v | v in snapshots :: 1 <= v <= version && snapshots[v] == StateAt(log, v)
    }

    ghost function Available(): set<int>
      reads this
    {
      snapshots.Keys + {version}
    }

    constructor ()
      ensures Valid() && log == [] && snapshots == map[] && !createTuplesError && !deleteTuplesError
    {
      version, tuples, snapshots, log := 1, {}, map[], [];
      createTuplesError, deleteTuplesError := false, false;
    }

    method Reset()
      modifies this
      ensures Valid() && log == [] && snapshots == map[] && !createTuplesError && !deleteTuplesError
    {
      version, tuples, snapshots, log := 1, {}, map[], [];
      createTuplesError, deleteTuplesError := false, false;
    }

    method RetainCurrentSnapshot() returns (v: int)
      requires Valid()
      modifies this`snapshots
      ensures Valid() && v == version && snapshots == old(snapshots)[version := tuples]
    {
      snapshots := snapshots[version := tuples];
      v := version;
    }

    method ReleaseSnapshot(v: int)
      requires Valid()
      modifies this`snapshots
      ensures Valid() && snapshots == old(snapshots) - {v}
    {
      snapshots := snapshots - {v};
    }

    method ClearSnapshots()
      requires Valid()
      modifies this`snapshots
      ensures Valid() && snapshots == map[]
    {
      snapshots := map[];
    }

    ghost method Record(m: Mutation)
      requires version == |log| + 2 && tuples == Mutate(StateAt(log, |log| + 1), m)
      requires forall v | v in snapshots :: 1 <= v <= |log| + 1 && snapshots[v] == StateAt(log, v)
      modifies this`log
      ensures Valid() && log == old(log) + [m]
    {
      forall v | 1 <= v <= |log| + 1 ensures StateAt(log + [m], v) == StateAt(log, v) {
        StateAtPrefix(log, m, v);
      }
      log := log + [m];
    }

    method Grant(subjectId: string, relation: string, namespace: string, resourceType: string, resourceId: string)
      requires Valid()
      modifies this`tuples, this`version, this`log
      ensures Valid()
      ensures var k := TupleKey(namespace, resourceType, resourceId, relation, "rbac", "principal", subjectId);
              log == old(log) + [Add({k})]
    {
      var k := TupleKey(namespace, resourceType, resourceId, relation, "rbac", "principal", subjectId);
      tuples := tuples + {k};
      version := version + 1;
      Record(Add({k}));
    }

    method CreateTuples(ts: seq<RelationsTuple>) returns (ok: bool, token: Token)
      requires Valid()
      modifies this`tuples, this`version, this`log
      ensures Valid() && (ok <==> !createTuplesError)
      ensures token == if ok then At(version) else NoToken
      ensures log == if ok then old(log) + [Add(set t | t in ts :: KeyOf(t))] else old(log)
    {
      if createTuplesError {
        return false, NoToken;
      }
      ghost var before := tuples;
      for i := 0 to |ts|
        invariant tuples == before + set t | t in ts[..i] :: KeyOf(t)
        invariant version == old(version) && log == old(log)
      {
        tuples := tuples + {KeyOf(ts[i])};
        assert ts[..i + 1] == ts[..i] + [ts[i]];
      }
      assert ts[..|ts|] == ts;
      version := version + 1;
      Record(Add(set t | t in ts :: KeyOf(t)));
      ok, token := true, At(version);
    }

    method DeleteTuples(f: TupleFilter) returns (ok: bool, token: Token)
      requires Valid()
      modifies this`tuples, this`version, this`log
      ensures Valid() && (ok <==> !deleteTuplesError)
      ensures token == if ok then At(version) else NoToken
      ensures log == if ok then old(log) + [Remove(f)] else old(log)
    {
      if deleteTuplesError {
        return false, NoToken;
      }
      ghost var before := tuples;
      var rest := tuples;
      while rest != {}
        invariant rest <= before
        invariant forall k | k in before :: k in tuples <==> k in rest || !MatchesKey(k, f)
        invariant tuples <= before
        invariant version == old(version) && log == old(log)
        decreases |rest|
      {
        var k := Pick(rest);
        rest := rest - {k};
        if MatchesKey(k, f) {
          tuples := tuples - {k};
        }
      }
      version := version + 1;
      Record(Remove(f));
      ok, token := true, At(version);
    }

    /** The versions that can be read, sorted. */
    method AvailableVersions() returns (versions: seq<int>)
      requires Valid()
      ensures Sorted(versions) && forall v :: v in versions <==> v in Available()
    {
      versions := [];
      var rest: set<int> := snapshots.Keys;
      while rest != {}
        invariant rest <= snapshots.Keys && Sorted(versions)
        invariant forall v :: v in versions <==> v in snapshots.Keys - rest
        decreases |rest|
      {
        var v := Pick(rest);
        rest := rest - {v};
        versions := Insert(versions, v);
      }
      versions := Insert(versions, version);
    }

    /** The state of the version is read when the token asks for at least n: the smallest available version not below n,
        or the current one if n is beyond it. */
    ghost predicate ReadsFrom(n: int, v: int)
      reads this
    {
      && 1 <= v <= version
      && if n > version then v == version
         else v in Available() && n <= v && forall w | w in Available() && n <= w :: v <= w
    }

    /** Without a version in the token, absent or malformed, the oldest available state is read. */
    method GetTuplesForToken(token: Token) returns (r: set<TupleKey>)
      requires Valid()
      ensures token.At? ==> exists v :: ReadsFrom(token.version, v) && r == StateAt(log, v)
      ensures !token.At? ==>
                exists v :: v in Available() && (forall w | w in Available() :: v <= w) && 1 <= v <= version
                            && r == StateAt(log, v)
    {
      var requested := Requested(token);
      var versions := AvailableVersions();
      var idx := BinarySearch(versions, requested);
      assert version in versions;
      if idx < |versions| {
        var found := versions[idx];
        assert found in versions;
        Smallest(versions, idx, Available(), requested);
        r := if found == version then tuples else snapshots[found];
        assert token.At? ==> ReadsFrom(token.version, found);
      } else {
        r := tuples;
        assert token.At? ==> ReadsFrom(token.version, version);
      }
    }

    /** A read at least as fresh as the token answers from the state of the chosen version. */
    method Check(object': ResourceReference, relation: string, subject: SubjectReference, token: Token)
      returns (allowed: bool)
      requires Valid()
      ensures var k := KeyOf(RelationsTuple(object', relation, subject));
              && (token.At? ==> exists v :: ReadsFrom(token.version, v) && (allowed <==> k in StateAt(log, v)))
              && (!token.At? ==>
                    exists v :: v in Available() && (forall w | w in Available() :: v <= w) && 1 <= v <= version
                                && (allowed <==> k in StateAt(log, v)))
    {
      var state := GetTuplesForToken(token);
      allowed := KeyOf(RelationsTuple(object', relation, subject)) in state;
    }

    /** Without a token a check may be stale: retain the current state, create, and the check does not see the creation.
        */
    method StaleCheck(t: RelationsTuple, malformed: bool) returns (created: bool, allowed: bool)
      requires Valid()
      modifies this`tuples, this`version, this`log, this`snapshots
      ensures Valid() && (created <==> !createTuplesError)
      ensures old(snapshots) == map[] && KeyOf(t) !in old(tuples) ==> !allowed
    {
      var kept := RetainCurrentSnapshot();
      var token;
      created, token := CreateTuples([t]);
      allowed := Check(t.obj, t.relation, t.subject, if malformed then Malformed else NoToken);
      if created {
        StateAtPrefix(old(log), log[|old(log)|], kept);
      }
    }

    /** Any other operation on the store. */
    method Do(op: Operation)
      requires Valid()
      modifies this`tuples, this`version, this`log, this`snapshots
      ensures Valid() && old(log) <= log
      ensures forall i | |old(log)| <= i < |log| :: log[i].Remove? ==> op == DeleteWith(log[i].filter)
    {
      match op
      case Retain => var _ := RetainCurrentSnapshot();
      case Release(v) => ReleaseSnapshot(v);
      case Clear => ClearSnapshots();
      case GrantTo(s, relation, namespace, resourceType, id) => Grant(s, relation, namespace, resourceType, id);
      case CreateAll(ts) => var _, _ := CreateTuples(ts);
      case DeleteWith(f) => var _, _ := DeleteTuples(f);
    }

    /** Read your writes, on the object: whatever operations come between, a check with the token of a creation allows
        each created tuple, unless one of them is a deletion that matches it. */
    method CreateThenCheck(ts: seq<RelationsTuple>, t: RelationsTuple, between: seq<Operation>)
      returns (created: bool, allowed: bool)
      requires Valid()
      modifies this`tuples, this`version, this`log, this`snapshots
      ensures Valid() && (created <==> !createTuplesError)
      ensures created && t in ts && Spared(KeyOf(t), between) ==> allowed
    {
      var token;
      created, token := CreateTuples(ts);
      ghost var written, k := version, KeyOf(t);
      ghost var spared := Spared(k, between);
      ghost var was := log;
      for i := 0 to |between|
        invariant Valid() && was <= log
        invariant spared ==> forall j | |was| <= j < |log| :: !RemovesKey(log[j], k)
      {
        assert between[i] in between;
        Do(between[i]);
      }
      allowed := Check(t.obj, t.relation, t.subject, token);
      if created && t in ts && spared {
        assert AddsKey(log[written - 2], k);
        var v :| ReadsFrom(written, v) && (allowed <==> k in StateAt(log, v));
        ReadYourWrites(log, k, written, v);
      }
    }
  }

  // ---------- the store as a backend of replication ----------

  function Keys(tuples: set<RelationsTuple>): set<TupleKey> {
    set t | t in tuples :: KeyOf(t)
  }

  function MutationOf(w: Write): Mutation {
    match w
    case Touch(ts) => Add(set t | t in ts :: KeyOf(t))
    case DeleteBy(f) => Remove(f)
  }

  /** The calls that replication makes: a deletion says nothing about subject relations. */
  predicate Plain(w: Write) {
    match w
    case Touch(ts) => forall t | t in ts :: Direct(t)
    case DeleteBy(f) => f.subject.Some? ==> f.subject.value.relation.None?
  }

  /** On direct tuples the two readings of a filter agree. */
  lemma FiltersAgree(t: RelationsTuple, f: TupleFilter)
    requires Direct(t) && (f.subject.Some? ==> f.subject.value.relation.None?)
    ensures MatchesKey(KeyOf(t), f) <==> Matches(t, f)
  {
  }

  lemma KeysOfPerformed(tuples: set<RelationsTuple>, w: Write)
    requires Plain(w) && forall t | t in tuples :: Direct(t)
    ensures Keys(Perform(tuples, w)) == Mutate(Keys(tuples), MutationOf(w))
    ensures forall t | t in Perform(tuples, w) :: Direct(t)
  {
    if w.DeleteBy? {
      forall t | t in tuples ensures MatchesKey(KeyOf(t), w.filter) <==> Matches(t, w.filter) {
        FiltersAgree(t, w.filter);
      }
    }
  }

  function MutateAll(keys: set<TupleKey>, ws: seq<Write>): set<TupleKey> {
    if ws == [] then keys else Mutate(MutateAll(keys, ws[..|ws| - 1]), MutationOf(ws[|ws| - 1]))
  }

  /** Carrying out replication's calls on this store, one mutation for each, leaves the keys of the tuples that the
      backend would hold: everything proved about replication holds with this store as the backend. */
  lemma {:induction false} StoreIsABackend(tuples: set<RelationsTuple>, ws: seq<Write>)
    requires (forall w | w in ws :: Plain(w)) && forall t | t in tuples :: Direct(t)
    ensures Keys(PerformAll(tuples, ws)) == MutateAll(Keys(tuples), ws)
    ensures forall t | t in PerformAll(tuples, ws) :: Direct(t)
  {
    if ws != [] {
      StoreIsABackend(tuples, ws[..|ws| - 1]);
      assert ws[|ws| - 1] in ws;
      KeysOfPerformed(PerformAll(tuples, ws[..|ws| - 1]), ws[|ws| - 1]);
    }
  }

  /** And the keys tell direct tuples apart. */
  lemma KeysAreFaithful(tuples: set<RelationsTuple>, t: RelationsTuple)
    requires Direct(t) && forall u | u in tuples :: Direct(u)
    ensures KeyOf(t) in Keys(tuples) <==> t in tuples
  {
    forall u | u in tuples && KeyOf(u) == KeyOf(t) ensures u == t {
      assert u.obj == t.obj && u.subject == t.subject;
    }
  }
}
