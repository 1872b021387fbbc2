/** The values that flow from the inventory to the relations backend: resource and
    subject references, relationship tuples, and the filters used to delete them. */
module Tuples {

  datatype Option<+T> = None | Some(value: T)

  datatype ReporterReference = ReporterReference(reporterType: string, instanceId: Option<string>)

  datatype ResourceReference =
    ResourceReference(resourceType: string, resourceId: string, reporter: Option<ReporterReference>)

  /** A subject is a resource, or (with a relation) the set of subjects of that resource. */
  datatype SubjectReference = SubjectReference(resource: ResourceReference, relation: Option<string>)

  datatype RelationsTuple = RelationsTuple(obj: ResourceReference, relation: string, subject: SubjectReference)

  datatype ReporterResourceKey =
    ReporterResourceKey(localResourceId: string, resourceType: string, reporterType: string, reporterInstanceId: string)

  /** In a filter, None matches anything. */
  datatype TupleSubjectFilter = TupleSubjectFilter(
    subjectType: Option<string>, reporterType: Option<string>, subjectId: Option<string>, relation: Option<string>)

  datatype TupleFilter = TupleFilter(
    objectType: Option<string>, reporterType: Option<string>, objectId: Option<string>,
    relation: Option<string>, subject: Option<TupleSubjectFilter>)

  /** The object every tuple of a reported resource hangs on; the reporter instance is not part of it. */
  function ObjectOf(key: ReporterResourceKey): ResourceReference {
    ResourceReference(key.resourceType, key.localResourceId, Some(ReporterReference(key.reporterType, None)))
  }

  function TupleForSubject(key: ReporterResourceKey, relation: string, namespace: string, subjectType: string,
                           subjectId: string): RelationsTuple {
    RelationsTuple(
      ObjectOf(key), relation,
      SubjectReference(ResourceReference(subjectType, subjectId, Some(ReporterReference(namespace, None))), None))
  }

  function ReporterTypeOf(r: ResourceReference): Option<string> {
    if r.reporter.Some? then Some(r.reporter.value.reporterType) else None
  }

  function TupleToFilter(t: RelationsTuple): TupleFilter {
    TupleFilter(
      Some(t.obj.resourceType), ReporterTypeOf(t.obj), Some(t.obj.resourceId), Some(t.relation),
      Some(TupleSubjectFilter(
        Some(t.subject.resource.resourceType), ReporterTypeOf(t.subject.resource),
        Some(t.subject.resource.resourceId), t.subject.relation)))
  }

  predicate FieldMatches(wanted: Option<string>, actual: Option<string>) {
    wanted.None? || wanted == actual
  }

  /** Which stored tuples a filter selects; an absent subject relation in the filter selects every one. */
  predicate Matches(t: RelationsTuple, f: TupleFilter) {
    && FieldMatches(f.objectType, Some(t.obj.resourceType))
    && FieldMatches(f.reporterType, ReporterTypeOf(t.obj))
    && FieldMatches(f.objectId, Some(t.obj.resourceId))
    && FieldMatches(f.relation, Some(t.relation))
    && (f.subject.Some? ==>
          var s := f.subject.value;
          && FieldMatches(s.subjectType, Some(t.subject.resource.resourceType))
          && FieldMatches(s.reporterType, ReporterTypeOf(t.subject.resource))
          && FieldMatches(s.subjectId, Some(t.subject.resource.resourceId))
          && FieldMatches(s.relation, t.subject.relation))
  }

  /** A tuple that names a direct subject and carries no reporter instances: the only kind replication writes. */
  predicate Direct(t: RelationsTuple) {
    && t.obj.reporter.Some? && t.obj.reporter.value.instanceId.None?
    && t.subject.resource.reporter.Some? && t.subject.resource.reporter.value.instanceId.None?
    && t.subject.relation.None?
  }

  /** Deleting "by tuple" is exact among direct tuples: the filter made from d selects t just when t is d. */
  lemma FilterIsExactOnDirectTuples(d: RelationsTuple, t: RelationsTuple)
    requires Direct(d) && Direct(t)
    ensures Matches(t, TupleToFilter(d)) <==> t == d
  {
  }

  /** What else such a deletion takes along: exactly the tuples that differ from d in the subject
      relation or in a reporter instance only. */
  lemma FilterCollateral(d: RelationsTuple, t: RelationsTuple)
    requires Direct(d) && t.obj.reporter.Some? && t.subject.resource.reporter.Some?
    ensures Matches(t, TupleToFilter(d)) <==>
            d == t.(obj := t.obj.(reporter := Some(ReporterReference(t.obj.reporter.value.reporterType, None))),
                    subject := SubjectReference(
                      t.subject.resource.(
                        reporter := Some(ReporterReference(t.subject.resource.reporter.value.reporterType, None))),
                      None))
  {
  }

  /** The filter made from a tuple, field by field: reporter instances are dropped, a missing reporter or subject
      relation stays open. */
  lemma FilterFields(resourceType: string, resourceId: string, reporter: Option<ReporterReference>, relation: string,
                     subjectType: string, subjectId: string, subjectReporter: Option<ReporterReference>,
                     subjectRelation: Option<string>)
    ensures var f := TupleToFilter(RelationsTuple(
                       ResourceReference(resourceType, resourceId, reporter), relation,
                       SubjectReference(ResourceReference(subjectType, subjectId, subjectReporter), subjectRelation)));
            && f.objectType == Some(resourceType) && f.objectId == Some(resourceId) && f.relation == Some(relation)
            && (reporter.None? ==> f.reporterType.None?)
            && (reporter.Some? ==> f.reporterType == Some(reporter.value.reporterType))
            && f.subject.Some? && f.subject.value.subjectType == Some(subjectType)
            && f.subject.value.subjectId == Some(subjectId) && f.subject.value.relation == subjectRelation
            && (subjectReporter.None? ==> f.subject.value.reporterType.None?)
            && (subjectReporter.Some? ==> f.subject.value.reporterType == Some(subjectReporter.value.reporterType))
  {
  }

  /** What a filter selects, field by field: every given field must be that of the tuple. */
  lemma MatchesIff(t: RelationsTuple, f: TupleFilter)
    requires t.obj.reporter.Some? && t.subject.resource.reporter.Some?
    ensures Matches(t, f) <==>
            && f.objectType in {None, Some(t.obj.resourceType)} && f.objectId in {None, Some(t.obj.resourceId)}
            && f.reporterType in {None, Some(t.obj.reporter.value.reporterType)}
              && f.relation in {None, Some(t.relation)}
            && (f.subject.Some? ==>
                  var s, of := f.subject.value, t.subject.resource;
                  && s.subjectType in {None, Some(of.resourceType)} && s.subjectId in {None, Some(of.resourceId)}
                  && s.reporterType in {None, Some(of.reporter.value.reporterType)}
                  && (s.relation == None || s.relation == t.subject.relation))
  {
  }
}
