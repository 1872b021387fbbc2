/** From two consecutive representations to the tuples to create and to delete. */
module RelationDiff {
  import opened Tuples
  import opened Representations
  import opened Iteration

  /** A sequence that lists a set: every element, each once, in whatever order. */
  ghost predicate Lists<T(!new)>(s: seq<T>, elements: set<T>) {
    && (forall x :: x in s <==> x in elements)
    && (forall i, j | 0 <= i < j < |s| :: s[i] != s[j])
  }

  /** The tuples some definition gains from one representation to the other. Read with the arguments
      swapped, the tuples some definition loses. */
  function Gained(defs: seq<RelationDef>, key: ReporterResourceKey, from: Option<Representations>,
                  to: Option<Representations>)
    : set<RelationsTuple>
  {
    set d, v | d in defs && v in Values(d, to) && v !in Values(d, from) :: TupleFor(key, d, v)
  }

  function ToSet(values: seq<string>): set<string> {
    set v | v in values
  }

  /** The loop `for v := range wanted`, in an arbitrary order: a tuple for each value not in present. */
  method MissingTuples(key: ReporterResourceKey, d: RelationDef, wanted: set<string>, present: set<string>)
    returns (tuples: seq<RelationsTuple>)
    ensures Lists(tuples, set v | v in wanted && v !in present :: TupleFor(key, d, v))
  {
    tuples := [];
    var rest := wanted;
    while rest != {}
      invariant rest <= wanted
      invariant Lists(tuples, set v | v in wanted - rest && v !in present :: TupleFor(key, d, v))
      decreases |rest|
    {
      ghost var before := set v | v in wanted - rest && v !in present :: TupleFor(key, d, v);
      var v := Pick(rest);
      rest := rest - {v};
      ghost var after := set w | w in wanted - rest && w !in present :: TupleFor(key, d, w);
      if v !in present {
        tuples := tuples + [TupleFor(key, d, v)];
        assert after == before + {TupleFor(key, d, v)};
      } else {
        assert after == before;
      }
    }
  }

  method DiffRelationValues(key: ReporterResourceKey, d: RelationDef, current: seq<string>, previous: seq<string>)
    returns (creates: seq<RelationsTuple>, deletes: seq<RelationsTuple>)
    ensures Lists(creates, set v | v in current && v !in previous :: TupleFor(key, d, v))
    ensures Lists(deletes, set v | v in previous && v !in current :: TupleFor(key, d, v))
  {
    var previousSet := {};
    for i := 0 to |previous|
      invariant previousSet == ToSet(previous[..i])
    {
      previousSet := previousSet + {previous[i]};
      assert previous[..i + 1] == previous[..i] + [previous[i]];
    }
    var currentSet := {};
    for i := 0 to |current|
      invariant currentSet == ToSet(current[..i])
    {
      currentSet := currentSet + {current[i]};
      assert current[..i + 1] == current[..i] + [current[i]];
    }
    assert previous[..|previous|] == previous && current[..|current|] == current;
    creates := MissingTuples(key, d, currentSet, previousSet);
    deletes := MissingTuples(key, d, previousSet, currentSet);
  }

  /** nil pointers for empty lists, as NewTuplesToReplicate builds them. */
  datatype TuplesToReplicate = TuplesToReplicate(
    tuplesToCreate: Option<seq<RelationsTuple>>, tuplesToDelete: Option<seq<RelationsTuple>>)
  {
    predicate IsEmpty() {
      !(tuplesToCreate.Some? && |tuplesToCreate.value| > 0) && !(tuplesToDelete.Some? && |tuplesToDelete.value| > 0)
    }

    function Creates(): seq<RelationsTuple> {
      if tuplesToCreate.Some? then tuplesToCreate.value else []
    }

    function Deletes(): seq<RelationsTuple> {
      if tuplesToDelete.Some? then tuplesToDelete.value else []
    }
  }

  function NewTuplesToReplicate(creates: seq<RelationsTuple>, deletes: seq<RelationsTuple>): TuplesToReplicate {
    TuplesToReplicate(if |creates| > 0 then Some(creates) else None, if |deletes| > 0 then Some(deletes) else None)
  }

  /** What a tuple calculation promises: the gained tuples to create, the lost ones to delete,
      and a pointer that is set exactly when its list is non-empty. */
  ghost predicate IsDiff(t: TuplesToReplicate, defs: seq<RelationDef>, key: ReporterResourceKey,
                         current: Option<Representations>, previous: Option<Representations>)
  {
    && (t.tuplesToCreate.Some? <==> Gained(defs, key, previous, current) != {})
    && (t.tuplesToDelete.Some? <==> Gained(defs, key, current, previous) != {})
    && (forall x :: x in t.Creates() <==> x in Gained(defs, key, previous, current))
    && (forall x :: x in t.Deletes() <==> x in Gained(defs, key, current, previous))
  }

  function FieldValues(d: RelationDef, r: Option<Representations>): (vs: seq<string>)
    ensures ToSet(vs) == Values(d, r)
  {
    if d.multiValued then StringSlice(r, d.fieldName)
    else if StringField(r, d.fieldName) != "" then [StringField(r, d.fieldName)] else []
  }

  lemma GainedBySnoc(defs: seq<RelationDef>, d: RelationDef, key: ReporterResourceKey,
                     from: Option<Representations>, to: Option<Representations>)
    ensures Gained(defs + [d], key, from, to) == Gained(defs, key, from, to) + Gained([d], key, from, to)
  {
  }

  lemma GainedByOne(d: RelationDef, key: ReporterResourceKey, from: Option<Representations>,
                    to: Option<Representations>)
    ensures Gained([d], key, from, to)
            == set v | v in FieldValues(d, to) && v !in FieldValues(d, from) :: TupleFor(key, d, v)
  {
  }

  /** Definitions with different targets never produce a common tuple. */
  lemma TargetsSeparate(defs: seq<RelationDef>, d: RelationDef, key: ReporterResourceKey,
                        from: Option<Representations>, to: Option<Representations>)
    requires forall e | e in defs :: !SameTarget(e, d)
    ensures Gained(defs, key, from, to) !! Gained([d], key, from, to)
  {
  }

  lemma ListsConcat<T(!new)>(s: seq<T>, t: seq<T>, a: set<T>, b: set<T>)
    requires Lists(s, a) && Lists(t, b) && a !! b
    ensures Lists(s + t, a + b)
  {
    forall i, j | 0 <= i < j < |s + t| ensures (s + t)[i] != (s + t)[j] {
      if i < |s| <= j {
        assert s[i] in s && t[j - |s|] in t;
      }
    }
  }

  /** The body of the loop over the definitions: the values of one definition, and their difference. */
  method DiffOfDefinition(d: RelationDef, current: Option<Representations>, previous: Option<Representations>,
                          key: ReporterResourceKey)
    returns (creates: seq<RelationsTuple>, deletes: seq<RelationsTuple>)
    ensures Lists(creates, Gained([d], key, previous, current))
    ensures Lists(deletes, Gained([d], key, current, previous))
  {
    var currentValues, previousValues := [], [];
    if d.multiValued {
      currentValues := StringSliceField(current, d.fieldName);
      previousValues := StringSliceField(previous, d.fieldName);
    } else {
      if StringField(current, d.fieldName) != "" {
        currentValues := [StringField(current, d.fieldName)];
      }
      if StringField(previous, d.fieldName) != "" {
        previousValues := [StringField(previous, d.fieldName)];
      }
    }
    creates, deletes := DiffRelationValues(key, d, currentValues, previousValues);
    GainedByOne(d, key, previous, current);
    GainedByOne(d, key, current, previous);
  }

  lemma AppendDefinition(defs: seq<RelationDef>, i: nat, key: ReporterResourceKey, from: Option<Representations>,
                         to: Option<Representations>, sofar: seq<RelationsTuple>, more: seq<RelationsTuple>)
    requires i < |defs|
    requires forall x :: x in sofar <==> x in Gained(defs[..i], key, from, to)
    requires Lists(more, Gained([defs[i]], key, from, to))
    ensures forall x :: x in sofar + more <==> x in Gained(defs[..i + 1], key, from, to)
    ensures DistinctTargets(defs) && Lists(sofar, Gained(defs[..i], key, from, to)) ==>
              Lists(sofar + more, Gained(defs[..i + 1], key, from, to))
  {
    assert defs[..i + 1] == defs[..i] + [defs[i]];
    GainedBySnoc(defs[..i], defs[i], key, from, to);
    if DistinctTargets(defs) && Lists(sofar, Gained(defs[..i], key, from, to)) {
      TargetsSeparate(defs[..i], defs[i], key, from, to);
      ListsConcat(sofar, more, Gained(defs[..i], key, from, to), Gained([defs[i]], key, from, to));
    }
  }

  method CalculateTuplesFromRelationDefs(defs: seq<RelationDef>, current: Option<Representations>,
                                         previous: Option<Representations>, key: ReporterResourceKey)
    returns (t: TuplesToReplicate)
    ensures IsDiff(t, defs, key, current, previous)
    ensures DistinctTargets(defs) ==>
              && Lists(t.Creates(), Gained(defs, key, previous, current))
              && Lists(t.Deletes(), Gained(defs, key, current, previous))
  {
    var creates, deletes := [], [];
    for i := 0 to |defs|
      invariant forall x :: x in creates <==> x in Gained(defs[..i], key, previous, current)
      invariant forall x :: x in deletes <==> x in Gained(defs[..i], key, current, previous)
      invariant DistinctTargets(defs) ==> Lists(creates, Gained(defs[..i], key, previous, current))
      invariant DistinctTargets(defs) ==> Lists(deletes, Gained(defs[..i], key, current, previous))
    {
      var c, x := DiffOfDefinition(defs[i], current, previous, key);
      AppendDefinition(defs, i, key, previous, current, creates, c);
      AppendDefinition(defs, i, key, current, previous, deletes, x);
      creates := creates + c;
      deletes := deletes + x;
    }
    assert defs[..|defs|] == defs;
    t := NewTuplesToReplicate(creates, deletes);
    assert |creates| > 0 ==> creates[0] in creates;
    assert |deletes| > 0 ==> deletes[0] in deletes;
  }

  /** The dispatch on the operation type relies on these: with nothing current there is nothing to create
      and a non-empty result has a delete list to dereference; with nothing previous, the converse. */
  lemma DispatchNeverMeetsNil(t: TuplesToReplicate, defs: seq<RelationDef>, key: ReporterResourceKey,
                              current: Option<Representations>, previous: Option<Representations>)
    requires IsDiff(t, defs, key, current, previous)
    ensures current.None? ==> t.tuplesToCreate.None? && (!t.IsEmpty() <==> t.tuplesToDelete.Some?)
    ensures previous.None? ==> t.tuplesToDelete.None? && (!t.IsEmpty() <==> t.tuplesToCreate.Some?)
  {
  }

  /** The single definition the hand-written workspace schema amounts to. */
  const WORKSPACE_DEF := RelationDef("workspace_id", "workspace", "rbac", "workspace", false)

  function WorkspaceID(r: Option<Representations>): string {
    StringField(r, "workspace_id")
  }

  function DefaultSchemaTuples(current: Option<Representations>, previous: Option<Representations>,
                               key: ReporterResourceKey): TuplesToReplicate
  {
    var currentId, previousId := WorkspaceID(current), WorkspaceID(previous);
    if previousId != "" && previousId == currentId then TuplesToReplicate(None, None)
    else
      NewTuplesToReplicate(
        if currentId != "" then [TupleFor(key, WORKSPACE_DEF, currentId)] else [],
        if previousId != "" then [TupleFor(key, WORKSPACE_DEF, previousId)] else [])
  }

  /** A list of a set with at most one element is determined. */
  lemma ListsAtMostOne<T(!new)>(s: seq<T>, elements: set<T>, x: T)
    requires Lists(s, elements) && elements <= {x}
    ensures s == if elements == {} then [] else [x]
  {
    forall i | 0 <= i < |s| ensures s[i] == x && i == 0 && elements != {} {
      assert s[i] in s && s[0] in s;
    }
    if |s| > 0 {
      assert s[|s| - 1] == x;
    }
    if elements != {} {
      var y :| y in elements;
      assert y in s;
    }
  }

  /** The hand-written workspace schema and the general engine agree on every input, nil included:
      any result the engine may return for the workspace definition is the hand-written one. */
  lemma DefaultSchemaEqualsEngine(t: TuplesToReplicate, current: Option<Representations>,
                                  previous: Option<Representations>, key: ReporterResourceKey)
    requires IsDiff(t, [WORKSPACE_DEF], key, current, previous)
    requires Lists(t.Creates(), Gained([WORKSPACE_DEF], key, previous, current))
    requires Lists(t.Deletes(), Gained([WORKSPACE_DEF], key, current, previous))
    ensures t == DefaultSchemaTuples(current, previous, key)
  {
    var cur, prev := WorkspaceID(current), WorkspaceID(previous);
    GainedByOne(WORKSPACE_DEF, key, previous, current);
    GainedByOne(WORKSPACE_DEF, key, current, previous);
    ListsAtMostOne(t.Creates(), Gained([WORKSPACE_DEF], key, previous, current), TupleFor(key, WORKSPACE_DEF, cur));
    ListsAtMostOne(t.Deletes(), Gained([WORKSPACE_DEF], key, current, previous), TupleFor(key, WORKSPACE_DEF, prev));
    assert cur in FieldValues(WORKSPACE_DEF, current) <==> cur != "";
    assert prev in FieldValues(WORKSPACE_DEF, previous) <==> prev != "";
    if cur != "" && cur != prev {
      assert TupleFor(key, WORKSPACE_DEF, cur) in Gained([WORKSPACE_DEF], key, previous, current);
    }
    if prev != "" && cur != prev {
      assert TupleFor(key, WORKSPACE_DEF, prev) in Gained([WORKSPACE_DEF], key, current, previous);
    }
  }

  /** The other direction: the hand-written result is one the engine may return. */
  lemma DefaultSchemaIsDiff(current: Option<Representations>, previous: Option<Representations>,
                            key: ReporterResourceKey)
    ensures IsDiff(DefaultSchemaTuples(current, previous, key), [WORKSPACE_DEF], key, current, previous)
  {
    var cur, prev := WorkspaceID(current), WorkspaceID(previous);
    GainedByOne(WORKSPACE_DEF, key, previous, current);
    GainedByOne(WORKSPACE_DEF, key, current, previous);
    if cur != "" && cur != prev {
      assert cur in FieldValues(WORKSPACE_DEF, current);
      assert TupleFor(key, WORKSPACE_DEF, cur) in Gained([WORKSPACE_DEF], key, previous, current);
    }
    if prev != "" && cur != prev {
      assert prev in FieldValues(WORKSPACE_DEF, previous);
      assert TupleFor(key, WORKSPACE_DEF, prev) in Gained([WORKSPACE_DEF], key, current, previous);
    }
  }

  // ---------- spelled out ----------

  /** The tuple that puts the resource in the workspace. */
  function WorkspaceTuple(resourceType: string, localResourceId: string, reporterType: string, workspace: string)
    : RelationsTuple
  {
    RelationsTuple(
      ResourceReference(resourceType, localResourceId, Some(ReporterReference(reporterType, None))), "workspace",
      SubjectReference(ResourceReference("workspace", workspace, Some(ReporterReference("rbac", None))), None))
  }

  /** A representation whose workspace is w; none if that is empty. */
  predicate InWorkspace(r: Option<Representations>, w: string) {
    if w == "" then r.None? || r.value.commonData == map[] || "workspace_id" !in r.value.commonData
    else && r.Some? && r.value.commonVersion.Some? && "workspace_id" in r.value.commonData
         && r.value.commonData["workspace_id"] == Str(w)
  }

  /** What the workspace schema does, field by field: nothing for an unchanged workspace, otherwise the new tuple is
      created and the old one deleted, if there are any. */
  lemma WorkspaceSchemaSpelledOut(current: Option<Representations>, previous: Option<Representations>,
                                  key: ReporterResourceKey, now: string, before: string)
    requires InWorkspace(current, now) && InWorkspace(previous, before)
    ensures var tuple := (w: string) => WorkspaceTuple(key.resourceType, key.localResourceId, key.reporterType, w);
            DefaultSchemaTuples(current, previous, key) ==
            if now == before then TuplesToReplicate(None, None)
            else TuplesToReplicate(if now != "" then Some([tuple(now)]) else None,
                                   if before != "" then Some([tuple(before)]) else None)
  {
  }

  /** What the engine's tuples look like, field by field: those gained and lost by some definition. */
  lemma GainedSpelledOut(defs: seq<RelationDef>, key: ReporterResourceKey, from: Option<Representations>,
                         to: Option<Representations>, t: RelationsTuple)
    ensures t in Gained(defs, key, from, to) <==>
            exists d, v :: d in defs && v in Values(d, to) && v !in Values(d, from) &&
              t == RelationsTuple(
                     ResourceReference(key.resourceType, key.localResourceId,
                         Some(ReporterReference(key.reporterType, None))),
                     d.relationName,
                     SubjectReference(
                       ResourceReference(d.subjectResourceType, v,
                           Some(ReporterReference(d.subjectNamespace, None))), None))
  {
  }
}
