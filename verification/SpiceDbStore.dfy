/** SpiceDB as the backend of replication: a set of relationships, changed by encoded upserts and encoded filters. */
module SpiceDbStore {
  import opened Tuples
  import opened Representations
  import opened RelationDiff
  import opened TupleWriter
  import opened SpiceDbCodec

  function Encoded(tuples: set<RelationsTuple>): set<Relationship> {
    set t | t in tuples :: Encode(t)
  }

  /** One call; a filter that cannot be encoded is an error and changes nothing. */
  function Call(store: set<Relationship>, w: Write): set<Relationship> {
    match w
    case Touch(ts) => store + set t | t in ts :: Encode(t)
    case DeleteBy(f) =>
      var filter := EncodeFilter(f);
      if filter.Ok? then set r | r in store && !Selects(filter.value, r) else store
  }

  function CallAll(store: set<Relationship>, ws: seq<Write>): set<Relationship> {
    if ws == [] then store else Call(CallAll(store, ws[..|ws| - 1]), ws[|ws| - 1])
  }

  // ---------- the refinement ----------

  /** A call as replication makes it for faithful tuples: upserts of them, and deletions of those with ids. */
  ghost predicate Regular(w: Write) {
    match w
    case Touch(ts) => forall t | t in ts :: Written(t)
    case DeleteBy(f) => exists d :: Written(d) && HasIds(d) && f == TupleToFilter(d)
  }

  lemma OneCall(tuples: set<RelationsTuple>, w: Write)
    requires Regular(w) && forall t | t in tuples :: Written(t)
    ensures Encoded(Perform(tuples, w)) == Call(Encoded(tuples), w)
    ensures forall t | t in Perform(tuples, w) :: Written(t)
  {
    if w.DeleteBy? {
      var d :| Written(d) && HasIds(d) && w.filter == TupleToFilter(d);
      DeletesExactlyIff(d);
      forall t | t in tuples ensures Selects(EncodeFilter(w.filter).value, Encode(t)) <==> Matches(t, w.filter) {
        FilterReadingsAgree(d, t);
      }
    }
  }

  /** On faithful tuples SpiceDB refines the modelled backend: after any calls of replication whose deletions have ids,
      it holds the encodings of exactly the tuples the backend holds. */
  lemma {:induction false} SpiceDbIsABackend(tuples: set<RelationsTuple>, ws: seq<Write>)
    requires (forall i | 0 <= i < |ws| :: Regular(ws[i])) && forall t | t in tuples :: Written(t)
    ensures Encoded(PerformAll(tuples, ws)) == CallAll(Encoded(tuples), ws)
    ensures forall t | t in PerformAll(tuples, ws) :: Written(t)
  {
    if ws != [] {
      SpiceDbIsABackend(tuples, ws[..|ws| - 1]);
      OneCall(PerformAll(tuples, ws[..|ws| - 1]), ws[|ws| - 1]);
    }
  }

  // ---------- the diff, on SpiceDB ----------

  /** What is left of a definition's target after the encoding. */
  predicate SameEncodedTarget(d: RelationDef, e: RelationDef) {
    && AddRelationPrefix(d.relationName) == AddRelationPrefix(e.relationName)
    && d.subjectNamespace + "/" + d.subjectResourceType == e.subjectNamespace + "/" + e.subjectResourceType
  }

  /** The two read the same values from every representation. */
  predicate SameSource(d: RelationDef, e: RelationDef) {
    d.fieldName == e.fieldName && d.multiValued == e.multiValued
  }

  predicate EncodedUnambiguous(defs: seq<RelationDef>) {
    forall d, e | d in defs && e in defs && SameEncodedTarget(d, e) :: SameSource(d, e)
  }

  /** No definition takes an empty subject id from the representation. */
  predicate NoEmptyValue(defs: seq<RelationDef>, r: Option<Representations>) {
    forall d | d in defs :: "" !in Values(d, r)
  }

  lemma SameRelationshipIff(key: ReporterResourceKey, d: RelationDef, v: string, e: RelationDef, w: string)
    ensures Encode(TupleFor(key, d, v)) == Encode(TupleFor(key, e, w)) <==> SameEncodedTarget(d, e) && v == w
  {
  }

  lemma FilterSelectsIff(key: ReporterResourceKey, d: RelationDef, v: string, e: RelationDef, w: string)
    ensures EncodeFilter(TupleToFilter(TupleFor(key, d, v))).Ok?
    ensures Selects(EncodeFilter(TupleToFilter(TupleFor(key, d, v))).value, Encode(TupleFor(key, e, w))) <==>
            SameEncodedTarget(d, e) && (v == "" || v == w)
  {
  }

  /** The deletion of the tuple takes the relationship. */
  predicate Takes(d: RelationsTuple, r: Relationship) {
    var f := EncodeFilter(TupleToFilter(d));
    f.Ok? && Selects(f.value, r)
  }

  lemma CreatesEffect(store: set<Relationship>, creates: seq<RelationsTuple>, r: Relationship)
    ensures r in CallAll(store, Writes(creates, [])) <==> r in store || exists t :: t in creates && Encode(t) == r
  {
    var ws := Writes(creates, []);
    assert ws == if creates == [] then [] else [Touch(creates)];
    assert creates != [] ==> CallAll(store, ws[..0]) == store;
  }

  predicate NoneTakes(deletes: seq<RelationsTuple>, r: Relationship) {
    forall i | 0 <= i < |deletes| :: !Takes(deletes[i], r)
  }

  /** One more deletion. */
  lemma DeleteEffect(store: set<Relationship>, creates: seq<RelationsTuple>, deletes: seq<RelationsTuple>,
                     d: RelationsTuple, r: Relationship)
    ensures r in CallAll(store, Writes(creates, deletes + [d])) <==>
            r in CallAll(store, Writes(creates, deletes)) && !Takes(d, r)
  {
    var ws := Writes(creates, deletes + [d]);
    assert ws[..|ws| - 1] == Writes(creates, deletes) && ws[|ws| - 1] == DeleteBy(TupleToFilter(d));
  }

  lemma NoneTakesMore(deletes: seq<RelationsTuple>, d: RelationsTuple, r: Relationship)
    ensures NoneTakes(deletes + [d], r) <==> NoneTakes(deletes, r) && !Takes(d, r)
  {
    if NoneTakes(deletes + [d], r) {
      assert (deletes + [d])[|deletes|] == d;
      assert forall i | 0 <= i < |deletes| :: (deletes + [d])[i] == deletes[i];
    }
  }

  lemma {:induction false} CallsEffect(store: set<Relationship>, creates: seq<RelationsTuple>,
                                       deletes: seq<RelationsTuple>, r: Relationship)
    ensures r in CallAll(store, Writes(creates, deletes)) <==>
            (r in store || exists t :: t in creates && Encode(t) == r) && NoneTakes(deletes, r)
    decreases |deletes|
  {
    if deletes == [] {
      CreatesEffect(store, creates, r);
    } else {
      var init, d := deletes[..|deletes| - 1], deletes[|deletes| - 1];
      assert deletes == init + [d];
      CallsEffect(store, creates, init, r);
      DeleteEffect(store, creates, init, d, r);
      NoneTakesMore(init, d, r);
    }
  }

  lemma SameValues(d: RelationDef, e: RelationDef, r: Option<Representations>)
    requires SameSource(d, e)
    ensures Values(d, r) == Values(e, r)
  {
  }

  /** With unambiguous encoded targets, what a relationship says about a representation. */
  lemma ProjectedIff(defs: seq<RelationDef>, key: ReporterResourceKey, d: RelationDef, v: string,
                     r: Option<Representations>)
    requires EncodedUnambiguous(defs) && d in defs
    ensures Encode(TupleFor(key, d, v)) in Encoded(Projection(defs, key, r)) <==> v in Values(d, r)
  {
    forall e, w | e in defs && w in Values(e, r) && Encode(TupleFor(key, e, w)) == Encode(TupleFor(key, d, v))
      ensures v in Values(d, r)
    {
      SameRelationshipIff(key, e, w, d, v);
      SameValues(e, d, r);
    }
  }

  lemma GainedIff(defs: seq<RelationDef>, key: ReporterResourceKey, d: RelationDef, v: string,
                  from: Option<Representations>, to: Option<Representations>)
    requires EncodedUnambiguous(defs) && d in defs
    ensures Encode(TupleFor(key, d, v)) in Encoded(Gained(defs, key, from, to)) <==>
              v in Values(d, to) && v !in Values(d, from)
  {
    var r := Encode(TupleFor(key, d, v));
    forall e, w | e in defs && w in Values(e, to) && w !in Values(e, from) && Encode(TupleFor(key, e, w)) == r
      ensures v in Values(d, to) && v !in Values(d, from)
    {
      SameRelationshipIff(key, e, w, d, v);
      SameValues(e, d, to);
      SameValues(e, d, from);
    }
  }

  /** A deletion by the diff takes a relationship of the resource exactly when it is the one of a lost tuple. */
  lemma TakenIff(defs: seq<RelationDef>, key: ReporterResourceKey, d: RelationDef, v: string, t: TuplesToReplicate,
                 current: Option<Representations>, previous: Option<Representations>)
    requires d in defs && IsDiff(t, defs, key, current, previous) && NoEmptyValue(defs, previous)
    ensures var r := Encode(TupleFor(key, d, v));
            (exists i | 0 <= i < |t.Deletes()| ::
                Takes(t.Deletes()[i], r)) <==> r in Encoded(Gained(defs, key, current, previous))
  {
    var r, lost := Encode(TupleFor(key, d, v)), Gained(defs, key, current, previous);
    forall y | y in lost ensures Takes(y, r) <==> Encode(y) == r {
      var e, w :| e in defs && w in Values(e, previous) && w !in Values(e, current) && y == TupleFor(key, e, w);
      FilterSelectsIff(key, e, w, d, v);
      SameRelationshipIff(key, e, w, d, v);
    }
    if i :| 0 <= i < |t.Deletes()| && Takes(t.Deletes()[i], r) {
      assert t.Deletes()[i] in t.Deletes();
    }
    if r in Encoded(lost) {
      var y :| y in lost && Encode(y) == r;
      assert y in t.Deletes();
    }
  }

  /** Whatever list order the diff comes in, carrying it out turns the relationships of one projection into the other's.
      */
  ghost predicate Sound(defs: seq<RelationDef>, key: ReporterResourceKey, current: Option<Representations>,
                        previous: Option<Representations>)
  {
    forall t | IsDiff(t, defs, key, current, previous) ::
      CallAll(Encoded(Projection(defs, key, previous)), Writes(t.Creates(), t.Deletes()))
        == Encoded(Projection(defs, key, current))
  }

  lemma CreatesAreGained(defs: seq<RelationDef>, key: ReporterResourceKey, t: TuplesToReplicate,
                         current: Option<Representations>, previous: Option<Representations>, r: Relationship)
    requires IsDiff(t, defs, key, current, previous)
    ensures (exists x :: x in t.Creates() && Encode(x) == r) <==> r in Encoded(Gained(defs, key, previous, current))
  {
  }

  lemma OneRelationship(defs: seq<RelationDef>, key: ReporterResourceKey, t: TuplesToReplicate,
                        current: Option<Representations>, previous: Option<Representations>, d: RelationDef, v: string)
    requires EncodedUnambiguous(defs) && d in defs && IsDiff(t, defs, key, current, previous)
             && NoEmptyValue(defs, previous)
    ensures Encode(TupleFor(key, d, v)) in CallAll(Encoded(Projection(defs, key, previous)),
              Writes(t.Creates(), t.Deletes()))
            <==> v in Values(d, current)
  {
    var r := Encode(TupleFor(key, d, v));
    CallsEffect(Encoded(Projection(defs, key, previous)), t.Creates(), t.Deletes(), r);
    CreatesAreGained(defs, key, t, current, previous, r);
    TakenIff(defs, key, d, v, t, current, previous);
    ProjectedIff(defs, key, d, v, previous);
    GainedIff(defs, key, d, v, previous, current);
    GainedIff(defs, key, d, v, current, previous);
  }

  /** Every relationship there is comes from a definition. */
  lemma FromDefinition(defs: seq<RelationDef>, key: ReporterResourceKey, t: TuplesToReplicate,
                       current: Option<Representations>,
                       previous: Option<Representations>, r: Relationship) returns (d: RelationDef, v: string)
    requires IsDiff(t, defs, key, current, previous)
    requires r in CallAll(Encoded(Projection(defs, key, previous)), Writes(t.Creates(), t.Deletes()))
    ensures d in defs && r == Encode(TupleFor(key, d, v))
  {
    CallsEffect(Encoded(Projection(defs, key, previous)), t.Creates(), t.Deletes(), r);
    if x :| x in Projection(defs, key, previous) && Encode(x) == r {
      d, v :| d in defs && v in Values(d, previous) && x == TupleFor(key, d, v);
    } else {
      var x :| x in t.Creates() && Encode(x) == r;
      assert x in Gained(defs, key, previous, current);
      d, v :| d in defs && v in Values(d, current) && v !in Values(d, previous) && x == TupleFor(key, d, v);
    }
  }

  lemma UnambiguousIsSound(defs: seq<RelationDef>, key: ReporterResourceKey, current: Option<Representations>,
                           previous: Option<Representations>)
    requires EncodedUnambiguous(defs) && NoEmptyValue(defs, previous)
    ensures Sound(defs, key, current, previous)
  {
    forall t | IsDiff(t, defs, key, current, previous)
      ensures CallAll(Encoded(Projection(defs, key, previous)), Writes(t.Creates(), t.Deletes()))
              == Encoded(Projection(defs, key, current))
    {
      var before, after := Encoded(Projection(defs, key, previous)), Encoded(Projection(defs, key, current));
      var result := CallAll(before, Writes(t.Creates(), t.Deletes()));
      forall r | r in result ensures r in after {
        var d, v := FromDefinition(defs, key, t, current, previous, r);
        OneRelationship(defs, key, t, current, previous, d, v);
        ProjectedIff(defs, key, d, v, current);
      }
      forall r | r in after ensures r in result {
        var x :| x in Projection(defs, key, current) && Encode(x) == r;
        var d, v :| d in defs && v in Values(d, current) && x == TupleFor(key, d, v);
        OneRelationship(defs, key, t, current, previous, d, v);
      }
    }
  }

  /** A relationship the current projection has, and the deletion of a lost tuple takes. */
  lemma LosesRelationship(defs: seq<RelationDef>, key: ReporterResourceKey, current: Option<Representations>,
                          previous: Option<Representations>, d: RelationDef, v: string, e: RelationDef, w: string)
    requires d in defs && v in Values(d, previous) && v !in Values(d, current)
    requires e in defs && w in Values(e, current) && SameEncodedTarget(d, e) && (v == "" || v == w)
    ensures !Sound(defs, key, current, previous)
  {
    var t := SomeDiff(defs, key, current, previous);
    var r, lost := Encode(TupleFor(key, e, w)), TupleFor(key, d, v);
    assert TupleFor(key, e, w) in Projection(defs, key, current);
    assert lost in Gained(defs, key, current, previous) && lost in t.Deletes();
    var i :| 0 <= i < |t.Deletes()| && t.Deletes()[i] == lost;
    FilterSelectsIff(key, d, v, e, w);
    assert Takes(t.Deletes()[i], r);
    CallsEffect(Encoded(Projection(defs, key, previous)), t.Creates(), t.Deletes(), r);
  }

  /** Representations in which only the fields of one or two definitions have a value, "x". */
  lemma OnlyX(r: Option<Representations>, g: RelationDef, v: string)
    requires r.Some?
             && forall f | f in r.value.commonData ::
                 r.value.commonData[f] == Str("x") || r.value.commonData[f] == Arr([Str("x")])
    ensures v in Values(g, r) ==> v == "x"
  {
    ValuesMeaning(g, r, v);
  }

  lemma AmbiguityLosesRelationship(defs: seq<RelationDef>, key: ReporterResourceKey, d: RelationDef, e: RelationDef)
    requires d in defs && e in defs && SameEncodedTarget(d, e) && !SameSource(d, e)
    ensures exists current, previous ::
              NoEmptyValue(defs, current) && NoEmptyValue(defs, previous) && !Sound(defs, key, current, previous)
  {
    var current := Common(map[e.fieldName := Holding(e)]);
    var previous := if d.fieldName == e.fieldName then Common(map[d.fieldName := Holding(d)])
                    else Common(map[d.fieldName := Holding(d), e.fieldName := Holding(e)]);
    assert e.fieldName in current.value.commonData && d.fieldName in previous.value.commonData;
    ValuesMeaning(e, current, "x");
    ValuesMeaning(d, current, "x");
    ValuesMeaning(d, previous, "x");
    assert d.multiValued ==> Str("x") in Holding(d).items;
    assert e.multiValued ==> Str("x") in Holding(e).items;
    LosesRelationship(defs, key, current, previous, d, "x", e, "x");
    forall g | g in defs ensures "" !in Values(g, current) && "" !in Values(g, previous) {
      OnlyX(current, g, "");
      OnlyX(previous, g, "");
    }
  }

  /** An empty value in a list: when it goes, its deletion takes all the others of the definition along. */
  lemma EmptyValueTakesAll(defs: seq<RelationDef>, key: ReporterResourceKey, d: RelationDef)
    requires d in defs && d.multiValued
    ensures exists current, previous :: NoEmptyValue(defs, current) && !Sound(defs, key, current, previous)
  {
    var current := Common(map[d.fieldName := Arr([Str("x")])]);
    var previous := Common(map[d.fieldName := Arr([Str(""), Str("x")])]);
    assert d.fieldName in current.value.commonData && d.fieldName in previous.value.commonData;
    assert Str("x") in [Str("x")] && Str("") in [Str(""), Str("x")];
    ValuesMeaning(d, current, "x");
    ValuesMeaning(d, current, "");
    ValuesMeaning(d, previous, "");
    LosesRelationship(defs, key, current, previous, d, "", d, "x");
    forall g | g in defs ensures "" !in Values(g, current) {
      OnlyX(current, g, "");
    }
  }

  /** The diff's promise on SpiceDB, exactly. For representations without empty values it holds if and only if
      definitions whose targets are encoded alike, prefix and slashes included, read the same field; for all
      representations, if and only if moreover none of them reads a list. */
  lemma SoundIff(defs: seq<RelationDef>, key: ReporterResourceKey)
    ensures (forall current, previous | NoEmptyValue(defs, current) && NoEmptyValue(defs, previous) ::
               Sound(defs, key, current, previous)) <==> EncodedUnambiguous(defs)
    ensures (forall current, previous :: Sound(defs, key, current, previous)) <==>
            EncodedUnambiguous(defs) && forall d | d in defs :: !d.multiValued
  {
    if EncodedUnambiguous(defs) {
      forall current, previous | NoEmptyValue(defs, previous) ensures Sound(defs, key, current, previous) {
        UnambiguousIsSound(defs, key, current, previous);
      }
    } else {
      var d, e :| d in defs && e in defs && SameEncodedTarget(d, e) && !SameSource(d, e);
      AmbiguityLosesRelationship(defs, key, d, e);
    }
    if d :| d in defs && d.multiValued {
      EmptyValueTakesAll(defs, key, d);
    }
  }

  /** So a prefix in a definition's name is enough to lose a tuple that the modelled backend keeps. */
  lemma PrefixedNamesCollide(d: RelationDef)
    requires d.relationName == "x"
    ensures var e := d.(relationName := "t_x", fieldName := d.fieldName + "2");
            Unambiguous([d, e]) && DistinctTargets([d, e]) && !EncodedUnambiguous([d, e])
  {
    var e := d.(relationName := "t_x", fieldName := d.fieldName + "2");
    assert d in [d, e] && e in [d, e] && SameEncodedTarget(d, e);
    assert |e.fieldName| == |d.fieldName| + 1;
  }
}
