/** Tuples as SpiceDB relationships: a reporter namespace becomes part of the type, a relation gets a prefix, and a
    missing subject relation is the empty string. */
module SpiceDbCodec {
  import opened Tuples
  import opened Text

  const RELATION_PREFIX := "t_"

  datatype ObjectReference = ObjectReference(objectType: string, objectId: string)

  datatype Relationship =
    Relationship(resource: ObjectReference, relation: string, subject: ObjectReference, optionalRelation: string)

  datatype Decoded<+T> = Ok(value: T) | InvalidType

  function SpiceDbType(r: ResourceReference): string {
    if r.reporter.None? then r.resourceType else r.reporter.value.reporterType + "/" + r.resourceType
  }

  function ToResourceReference(o: ObjectReference): Decoded<ResourceReference> {
    var parts := Split(o.objectType, '/');
    if |parts| == 1 then Ok(ResourceReference(parts[0], o.objectId, None))
    else if |parts| == 2 then Ok(ResourceReference(parts[1], o.objectId, Some(ReporterReference(parts[0], None))))
    else InvalidType
  }

  function AddRelationPrefix(relation: string): string {
    if HasPrefix(relation, RELATION_PREFIX) then relation else RELATION_PREFIX + relation
  }

  function StripRelationPrefix(relation: string): string {
    if HasPrefix(relation, RELATION_PREFIX) then relation[|RELATION_PREFIX|..] else relation
  }

  function Reference(r: ResourceReference): ObjectReference {
    ObjectReference(SpiceDbType(r), r.resourceId)
  }

  /** relationsTupleToSpiceDBRelationship; a subject relation is not prefixed. */
  function Encode(t: RelationsTuple): Relationship {
    Relationship(Reference(t.obj), AddRelationPrefix(t.relation), Reference(t.subject.resource),
                 if t.subject.relation.Some? then t.subject.relation.value else "")
  }

  /** spicedbReadTuplesStream.Recv. */
  function Decode(r: Relationship): Decoded<RelationsTuple> {
    var obj := ToResourceReference(r.resource);
    if obj.InvalidType? then InvalidType
    else
      var subject := ToResourceReference(r.subject);
      if subject.InvalidType? then InvalidType
      else
        var subjectRelation := if r.optionalRelation != "" then Some(r.optionalRelation) else None;
        Ok(RelationsTuple(obj.value, StripRelationPrefix(r.relation), SubjectReference(subject.value, subjectRelation)))
  }

  /** A tuple on the wire, field by field. */
  lemma EncodedFields(namespace: string, resourceType: string, resourceId: string, relation: string,
                      subjectNamespace: string, subjectType: string, subjectId: string, subjectRelation: Option<string>)
    ensures var obj := ResourceReference(resourceType, resourceId, Some(ReporterReference(namespace, None)));
            var subject := ResourceReference(subjectType, subjectId, Some(ReporterReference(subjectNamespace, None)));
            var r := Encode(RelationsTuple(obj, relation, SubjectReference(subject, subjectRelation)));
            && r.resource == ObjectReference(namespace + "/" + resourceType, resourceId)
            && r.subject == ObjectReference(subjectNamespace + "/" + subjectType, subjectId)
            && r.relation
              == (if |relation| >= 2 && relation[0] == 't' && relation[1] == '_' then relation else "t_" + relation)
            && r.optionalRelation == (if subjectRelation == None then "" else subjectRelation.value)
            && Reference(obj.(reporter := None)) == ObjectReference(resourceType, resourceId)
  {
  }

  predicate PlainTypes(r: ResourceReference) {
    '/' !in r.resourceType && (r.reporter.Some? ==> '/' !in r.reporter.value.reporterType)
  }

  /** What is left of a reference after the wire: reporter instances are dropped. */
  function WithoutInstance(r: ResourceReference): ResourceReference {
    if r.reporter.Some? then r.(reporter := Some(r.reporter.value.(instanceId := None))) else r
  }

  function Canonical(t: RelationsTuple): RelationsTuple {
    RelationsTuple(
      WithoutInstance(t.obj), StripRelationPrefix(t.relation),
      SubjectReference(WithoutInstance(t.subject.resource),
                       if t.subject.relation == Some("") then None else t.subject.relation))
  }

  /** The parts a type is written from. */
  function TypeParts(r: ResourceReference): (parts: seq<string>)
    ensures |parts| >= 1 && SpiceDbType(r) == Join(parts, '/')
    ensures PlainTypes(r) <==> Parts(parts, '/')
  {
    if r.reporter.None? then [r.resourceType]
    else
      var parts := [r.reporter.value.reporterType, r.resourceType];
      assert Join(parts[1..], '/') == r.resourceType;
      parts
  }

  /** A reference decodes to itself without its instance exactly when its types have no slash. */
  lemma ReferenceRoundTripIff(r: ResourceReference)
    ensures ToResourceReference(Reference(r)) == Ok(WithoutInstance(r)) <==> PlainTypes(r)
  {
    var parts := TypeParts(r);
    if PlainTypes(r) {
      SplitJoin(parts, '/');
    } else {
      JoinSplit(SpiceDbType(r), '/');
    }
  }

  lemma PrefixRoundTrip(relation: string)
    ensures StripRelationPrefix(AddRelationPrefix(relation)) == StripRelationPrefix(relation)
    ensures StripRelationPrefix(relation) == relation <==> !HasPrefix(relation, RELATION_PREFIX)
  {
  }

  /** Reading back a written tuple gives its canonical form exactly when no type has a slash. */
  lemma ReadBackIff(t: RelationsTuple)
    ensures Decode(Encode(t)) == Ok(Canonical(t)) <==> PlainTypes(t.obj) && PlainTypes(t.subject.resource)
  {
    ReferenceRoundTripIff(t.obj);
    ReferenceRoundTripIff(t.subject.resource);
    PrefixRoundTrip(t.relation);
  }

  predicate NoInstance(r: ResourceReference) {
    r.reporter.Some? ==> r.reporter.value.instanceId.None?
  }

  predicate Faithful(t: RelationsTuple) {
    && PlainTypes(t.obj) && PlainTypes(t.subject.resource)
    && NoInstance(t.obj) && NoInstance(t.subject.resource)
    && !HasPrefix(t.relation, RELATION_PREFIX) && t.subject.relation != Some("")
  }

  /** Whatever is read has plain types and no instance, hence is not a written tuple that had either. */
  lemma DecodedIsPlain(r: Relationship)
    ensures var d := Decode(r);
            d.Ok? ==> && PlainTypes(d.value.obj) && PlainTypes(d.value.subject.resource)
                      && NoInstance(d.value.obj) && NoInstance(d.value.subject.resource)
  {
    JoinSplit(r.resource.objectType, '/');
    JoinSplit(r.subject.objectType, '/');
  }

  /** The round trip: a tuple is read back as it was written if and only if it is faithful. */
  lemma RoundTripIff(t: RelationsTuple)
    ensures Decode(Encode(t)) == Ok(t) <==> Faithful(t)
  {
    ReadBackIff(t);
    PrefixRoundTrip(t.relation);
    if Decode(Encode(t)) == Ok(t) {
      DecodedIsPlain(Encode(t));
    }
  }

  lemma SameReference(a: ResourceReference, b: ResourceReference)
    requires WithoutInstance(a) == WithoutInstance(b)
    ensures Reference(a) == Reference(b)
  {
  }

  lemma SamePrefixed(a: string, b: string)
    requires StripRelationPrefix(a) == StripRelationPrefix(b)
    ensures AddRelationPrefix(a) == AddRelationPrefix(b)
  {
  }

  /** Two tuples with plain types share a stored relationship exactly when they have the same canonical form. */
  lemma CollideIff(a: RelationsTuple, b: RelationsTuple)
    requires PlainTypes(a.obj) && PlainTypes(a.subject.resource) && PlainTypes(b.obj) && PlainTypes(b.subject.resource)
    ensures Encode(a) == Encode(b) <==> Canonical(a) == Canonical(b)
  {
    ReadBackIff(a);
    ReadBackIff(b);
    if Canonical(a) == Canonical(b) {
      SameReference(a.obj, b.obj);
      SameReference(a.subject.resource, b.subject.resource);
      SamePrefixed(a.relation, b.relation);
    }
  }

  lemma RewriteReference(o: ObjectReference)
    requires ToResourceReference(o).Ok?
    ensures Reference(ToResourceReference(o).value) == o
  {
    JoinSplit(o.objectType, '/');
    var parts := Split(o.objectType, '/');
    if |parts| == 2 {
      assert Join(parts[1..], '/') == parts[1];
    }
  }

  /** Writing back what was read gives the stored relationship exactly when its relation has the prefix once. */
  lemma RewriteIff(r: Relationship)
    requires Decode(r).Ok?
    ensures Encode(Decode(r).value) == r <==>
            HasPrefix(r.relation, RELATION_PREFIX) && !HasPrefix(StripRelationPrefix(r.relation), RELATION_PREFIX)
  {
    RewriteReference(r.resource);
    RewriteReference(r.subject);
  }

  // ---------- deletion filters ----------

  datatype SubjectFilter = SubjectFilter(subjectType: string, optionalSubjectId: string,
      optionalRelation: Option<string>)

  datatype RelationshipFilter = RelationshipFilter(
    resourceType: string, optionalResourceId: string, optionalRelation: string,
        optionalSubjectFilter: Option<SubjectFilter>)

  function OrEmpty(o: Option<string>): string {
    if o.Some? then o.value else ""
  }

  /** A type is given with its namespace or not at all. */
  function FilterType(namespace: Option<string>, name: Option<string>): Decoded<string> {
    if namespace.Some? != name.Some? then InvalidType
    else Ok(if namespace.Some? then namespace.value + "/" + name.value else "")
  }

  /** tupleFilterToSpiceDBFilter. */
  function EncodeFilter(f: TupleFilter): Decoded<RelationshipFilter> {
    var resourceType := FilterType(f.reporterType, f.objectType);
    if resourceType.InvalidType? then InvalidType
    else
      var relation := if f.relation.Some? then AddRelationPrefix(f.relation.value) else "";
      if f.subject.None? then Ok(RelationshipFilter(resourceType.value, OrEmpty(f.objectId), relation, None))
      else
        var s := f.subject.value;
        var subjectType := FilterType(s.reporterType, s.subjectType);
        if subjectType.InvalidType? then InvalidType
        else
          Ok(RelationshipFilter(resourceType.value, OrEmpty(f.objectId), relation,
                                Some(SubjectFilter(subjectType.value, OrEmpty(s.subjectId), s.relation))))
  }

  /** In SpiceDB an empty field of a filter selects everything. */
  predicate Selects(f: RelationshipFilter, r: Relationship) {
    && (f.resourceType == "" || f.resourceType == r.resource.objectType)
    && (f.optionalResourceId == "" || f.optionalResourceId == r.resource.objectId)
    && (f.optionalRelation == "" || f.optionalRelation == r.relation)
    && (f.optionalSubjectFilter.Some? ==>
          var s := f.optionalSubjectFilter.value;
          && (s.subjectType == "" || s.subjectType == r.subject.objectType)
          && (s.optionalSubjectId == "" || s.optionalSubjectId == r.subject.objectId)
          && (s.optionalRelation.Some? ==> s.optionalRelation.value == r.optionalRelation))
  }

  /** A faithful tuple that replication writes. */
  predicate Written(t: RelationsTuple) {
    Direct(t) && Faithful(t)
  }

  predicate HasIds(t: RelationsTuple) {
    t.obj.resourceId != "" && t.subject.resource.resourceId != ""
  }

  lemma SelectedFields(d: RelationsTuple, t: RelationsTuple)
    requires Written(d) && Written(t)
    ensures EncodeFilter(TupleToFilter(d)).Ok?
    ensures Selects(EncodeFilter(TupleToFilter(d)).value, Encode(t)) <==>
            && SpiceDbType(d.obj) == SpiceDbType(t.obj)
              && SpiceDbType(d.subject.resource) == SpiceDbType(t.subject.resource)
            && d.relation == t.relation
            && (d.obj.resourceId == "" || d.obj.resourceId == t.obj.resourceId)
            && (d.subject.resource.resourceId == "" || d.subject.resource.resourceId == t.subject.resource.resourceId)
  {
    PrefixRoundTrip(d.relation);
    PrefixRoundTrip(t.relation);
  }

  lemma SameType(a: ResourceReference, b: ResourceReference)
    requires PlainTypes(a) && PlainTypes(b) && NoInstance(a) && NoInstance(b) && SpiceDbType(a) == SpiceDbType(b)
    ensures a.resourceType == b.resourceType && a.reporter == b.reporter
  {
    ReferenceRoundTripIff(a);
    ReferenceRoundTripIff(b);
  }

  /** Deleting "by tuple" in SpiceDB takes, among the tuples replication writes, that tuple and no other if and only if
      neither of its ids is empty: an empty id in the filter selects every one. */
  lemma DeletesExactlyIff(d: RelationsTuple)
    requires Written(d)
    ensures EncodeFilter(TupleToFilter(d)).Ok?
    ensures (forall t | Written(t) ::
              Selects(EncodeFilter(TupleToFilter(d)).value, Encode(t)) <==> t == d) <==> HasIds(d)
  {
    SelectedFields(d, d);
    if HasIds(d) {
      forall t | Written(t) ensures Selects(EncodeFilter(TupleToFilter(d)).value, Encode(t)) <==> t == d {
        SelectedFields(d, t);
        if Selects(EncodeFilter(TupleToFilter(d)).value, Encode(t)) {
          SameType(d.obj, t.obj);
          SameType(d.subject.resource, t.subject.resource);
        }
      }
    } else {
      var t := if d.obj.resourceId == "" then d.(obj := d.obj.(resourceId := "x"))
               else d.(subject := d.subject.(resource := d.subject.resource.(resourceId := "x")));
      SelectedFields(d, t);
      assert Written(t) && t != d;
    }
  }

  /** With ids, SpiceDB and the model of the backend agree on what the deletion of a tuple selects. */
  lemma FilterReadingsAgree(d: RelationsTuple, t: RelationsTuple)
    requires Written(d) && Written(t) && HasIds(d)
    ensures EncodeFilter(TupleToFilter(d)).Ok?
    ensures Selects(EncodeFilter(TupleToFilter(d)).value, Encode(t)) <==> Matches(t, TupleToFilter(d))
  {
    DeletesExactlyIff(d);
    FilterIsExactOnDirectTuples(d, t);
  }

  /** A filter on the wire, field by field: absent fields are empty, and a type without its namespace, or the other way
      round, is refused. */
  lemma EncodedFilterFields(f: TupleFilter)
    ensures f.objectType.Some? != f.reporterType.Some? ==> EncodeFilter(f).InvalidType?
    ensures f.subject.Some? && f.subject.value.subjectType.Some? != f.subject.value.reporterType.Some? ==>
              EncodeFilter(f).InvalidType?
    ensures EncodeFilter(f).Ok? ==>
              var r := EncodeFilter(f).value;
              && r.resourceType == (if f.objectType.Some? then f.reporterType.value + "/" + f.objectType.value else "")
              && r.optionalResourceId == (if f.objectId.Some? then f.objectId.value else "")
              && (f.relation.None? ==> r.optionalRelation == "")
              && (f.relation.Some? ==> r.optionalRelation == AddRelationPrefix(f.relation.value))
              && (r.optionalSubjectFilter.Some? <==> f.subject.Some?)
    ensures EncodeFilter(f).Ok? && f.subject.Some? ==>
              var s, r := f.subject.value, EncodeFilter(f).value.optionalSubjectFilter.value;
              && r.subjectType == (if s.subjectType.Some? then s.reporterType.value + "/" + s.subjectType.value else "")
              && r.optionalSubjectId == (if s.subjectId.Some? then s.subjectId.value else "")
              && r.optionalRelation == s.relation
  {
  }

  predicate HasReporters(t: RelationsTuple) {
    t.obj.reporter.Some? && t.subject.resource.reporter.Some?
  }

  /** The same for faithful tuples with subject relations: the filter of a tuple with one selects only that relation,
      and the filter of one without selects any, in both readings. */
  lemma FilterReadingsAgreeOnFaithful(d: RelationsTuple, t: RelationsTuple)
    requires Faithful(d) && Faithful(t) && HasReporters(d) && HasReporters(t) && HasIds(d)
    ensures EncodeFilter(TupleToFilter(d)).Ok?
    ensures Selects(EncodeFilter(TupleToFilter(d)).value, Encode(t)) <==> Matches(t, TupleToFilter(d))
  {
    PrefixRoundTrip(d.relation);
    PrefixRoundTrip(t.relation);
    if SpiceDbType(d.obj) == SpiceDbType(t.obj) {
      SameType(d.obj, t.obj);
    }
    if SpiceDbType(d.subject.resource) == SpiceDbType(t.subject.resource) {
      SameType(d.subject.resource, t.subject.resource);
    }
  }
}
