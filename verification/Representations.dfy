/** Common representations, the fields relation definitions read from them, and the set of
    tuples a representation stands for (its projection). */
module Representations {
  import opened Tuples

  datatype Json =
    Null | Bool(b: bool) | Number(n: int) | Str(s: string) | Arr(items: seq<Json>) | Obj(fields: map<string, Json>)

  type Data = map<string, Json>

  /** One point in time of a resource's common (and reporter) data. A missing *Representations is None. */
  datatype Representations = Representations(
    commonData: Data, commonVersion: Option<nat>, reporterData: Data, reporterVersion: Option<nat>)
  {
    predicate HasCommon() {
      commonData != map[] && commonVersion.Some?
    }
  }

  datatype RelationDef = RelationDef(
    fieldName: string, relationName: string, subjectNamespace: string, subjectResourceType: string, multiValued: bool)

  /** NewRepresentations: None stands for the returned error. */
  function NewRepresentations(common: Data, cv: Option<nat>, reporter: Data, rv: Option<nat>): Option<Representations> {
    var hasCommon := common != map[] && cv.Some?;
    var hasReporter := reporter != map[] && rv.Some?;
    if !hasCommon && !hasReporter then None
    else if (common != map[]) != cv.Some? then None
    else if (reporter != map[]) != rv.Some? then None
    else Some(Representations(common, cv, reporter, rv))
  }

  /** It is accepted exactly when there is data, and data and version come together for either kind. */
  lemma NewRepresentationsIff(common: Data, cv: Option<nat>, reporter: Data, rv: Option<nat>)
    ensures NewRepresentations(common, cv, reporter, rv) ==
            if (common == map[] <==> cv.None?) && (reporter == map[] <==> rv.None?) && !(cv.None? && rv.None?)
            then Some(Representations(common, cv, reporter, rv)) else None
  {
  }

  function StringField(r: Option<Representations>, field: string): string {
    if r.Some? && r.value.HasCommon() && field in r.value.commonData && r.value.commonData[field].Str? then
      r.value.commonData[field].s
    else ""
  }

  /** The strings among the items, in order; other items are skipped. */
  function Strings(items: seq<Json>): seq<string> {
    if items == [] then []
    else
      var last := items[|items| - 1];
      Strings(items[..|items| - 1]) + (if last.Str? then [last.s] else [])
  }

  /** In order: of a string, that string; of anything else, nothing; of two lists, first the one, then the other. */
  lemma {:induction false} StringsInOrder(a: seq<Json>, b: seq<Json>, j: Json)
    ensures Strings([j]) == match j case Str(s) => [s] case _ => []
    ensures Strings(a + b) == Strings(a) + Strings(b)
    decreases |b|
  {
    assert [j][..0] == [];
    if b == [] {
      assert a + b == a;
    } else {
      StringsInOrder(a, b[..|b| - 1], j);
      assert (a + b)[..|a + b| - 1] == a + b[..|b| - 1];
    }
  }

  function StringSlice(r: Option<Representations>, field: string): seq<string> {
    if r.Some? && r.value.HasCommon() && field in r.value.commonData && r.value.commonData[field].Arr? then
      Strings(r.value.commonData[field].items)
    else []
  }

  method StringSliceField(r: Option<Representations>, field: string) returns (result: seq<string>)
    ensures result == StringSlice(r, field)
  {
    if r.None? || !r.value.HasCommon() {
      return [];
    }
    if field !in r.value.commonData || !r.value.commonData[field].Arr? {
      return [];
    }
    var arr := r.value.commonData[field].items;
    result := [];
    for i := 0 to |arr|
      invariant result == Strings(arr[..i])
    {
      assert arr[..i + 1][..i] == arr[..i];
      if arr[i].Str? {
        result := result + [arr[i].s];
      }
    }
    assert arr[..|arr|] == arr;
  }

  lemma {:induction false} StringsMembers(items: seq<Json>, v: string)
    ensures v in Strings(items) <==> Str(v) in items
  {
    if items != [] {
      var init := items[..|items| - 1];
      StringsMembers(init, v);
      assert items == init + [items[|items| - 1]];
    }
  }

  /** The subject ids a definition takes from a representation. */
  function Values(d: RelationDef, r: Option<Representations>): (vs: set<string>) {
    if d.multiValued then set v | v in StringSlice(r, d.fieldName)
    else if StringField(r, d.fieldName) != "" then {StringField(r, d.fieldName)} else {}
  }

  /** What membership of Values means in terms of the stored JSON. */
  lemma ValuesMeaning(d: RelationDef, r: Option<Representations>, v: string)
    ensures v in Values(d, r) <==>
            && r.Some? && r.value.commonVersion.Some? && d.fieldName in r.value.commonData
            && var field := r.value.commonData[d.fieldName];
               if d.multiValued then field.Arr? && Str(v) in field.items else field == Str(v) && v != ""
  {
    if r.Some? && r.value.HasCommon() && d.fieldName in r.value.commonData && r.value.commonData[d.fieldName].Arr? {
      StringsMembers(r.value.commonData[d.fieldName].items, v);
    }
  }

  function TupleFor(key: ReporterResourceKey, d: RelationDef, v: string): RelationsTuple {
    TupleForSubject(key, d.relationName, d.subjectNamespace, d.subjectResourceType, v)
  }

  /** The tuples a representation stands for. */
  function Projection(defs: seq<RelationDef>, key: ReporterResourceKey,
                      r: Option<Representations>): set<RelationsTuple> {
    set d, v | d in defs && v in Values(d, r) :: TupleFor(key, d, v)
  }

  /** Two definitions write into the same family of tuples. */
  predicate SameTarget(d: RelationDef, e: RelationDef) {
    d.relationName == e.relationName && d.subjectNamespace == e.subjectNamespace
    && d.subjectResourceType == e.subjectResourceType
  }

  /** No two different definitions write into the same family of tuples. */
  predicate Unambiguous(defs: seq<RelationDef>) {
    forall d, e | d in defs && e in defs && SameTarget(d, e) :: d == e
  }

  predicate DistinctTargets(defs: seq<RelationDef>) {
    forall i, j | 0 <= i < j < |defs| :: !SameTarget(defs[i], defs[j])
  }
}
