/** The resource aggregate and its repository as the code has them, objects whose methods assign fields in place,
    proved against the value-level transactions of ResourceHistory. */
module ResourceAggregate {
  import opened Tuples
  import opened Representations
  import opened ResourceHistory
  import opened Iteration

  class ReporterResource {
    var representationVersion: nat
    var generation: nat
    var tombstone: bool

    function State(): ReporterState
      reads this
    {
      ReporterState(representationVersion, generation, tombstone)
    }

    constructor (s: ReporterState)
      ensures State() == s
    {
      representationVersion, generation, tombstone := s.version, s.generation, s.tombstone;
    }

    method Update()
      modifies this
      ensures State() == ReporterUpdated(old(State()))
    {
      representationVersion := Increment(representationVersion);
      if tombstone {
        StartNewGeneration();
      }
    }

    method StartNewGeneration()
      modifies this
      ensures State() == ReporterState(0, Increment(old(generation)), false)
    {
      tombstone := false;
      generation := Increment(generation);
      representationVersion := 0;
    }

    method Delete()
      modifies this
      ensures State() == ReporterDeleted(old(State()))
    {
      representationVersion := Increment(representationVersion);
      tombstone := true;
    }
  }

  class Resource {
    var commonVersion: Option<nat>
    var lastCommonVersion: Option<nat>
    const reporter: ReporterResource
    var report: PendingReport
    var deleted: Option<(nat, nat)>

    function State(): ResourceState
      reads this, reporter
    {
      ResourceState(commonVersion, lastCommonVersion, reporter.State(), report, deleted)
    }

    /** DeserializeResource, and NewResource once it has validated its arguments. */
    constructor (s: ResourceState)
      ensures State() == s && fresh(reporter)
    {
      commonVersion, lastCommonVersion, report, deleted := s.commonVersion, s.lastCommonVersion, s.report, s.deleted;
      reporter := new ReporterResource(s.reporter);
    }

    /** The versions move before the representations are validated: a rejected update leaves them moved. */
    method Update(reporterData: Option<Data>, commonData: Option<Data>) returns (ok: bool)
      modifies this, reporter
      ensures (State(), ok) == UpdatedState(old(State()), reporterData, commonData)
    {
      var cv: Option<nat> := None;
      if HasData(commonData) {
        if commonVersion.Some? {
          cv := Some(Increment(commonVersion.value));
        } else if lastCommonVersion.Some? {
          cv := Some(Increment(lastCommonVersion.value));
        } else {
          cv := Some(0);
        }
        commonVersion := cv;
        lastCommonVersion := cv;
      } else {
        commonVersion := None;
      }
      reporter.Update();
      var event := NewPendingReport(reporterData, commonData, reporter.State(), cv);
      if event.None? {
        return false;
      }
      report := event.value;
      ok := true;
    }

    /** Deleting a tombstoned resource is dropped. */
    method Delete()
      modifies this, reporter
      ensures State() == DeletedState(old(State()))
    {
      if reporter.tombstone {
        return;
      }
      reporter.Delete();
      deleted := Some((reporter.generation, reporter.representationVersion));
    }
  }

  /** The MAX subquery, row by row in whatever order. */
  method LastCommonVersion(commons: map<nat, Data>) returns (m: Option<nat>)
    ensures m == MaxVersion(commons.Keys)
  {
    m := None;
    var rest := commons.Keys;
    while rest != {}
      invariant rest <= commons.Keys
      invariant m.None? <==> rest == commons.Keys
      invariant m.Some? ==> m.value in commons
      invariant forall v | v in commons && v !in rest :: m.Some? && v <= m.value
      decreases |rest|
    {
      var v := Pick(rest);
      rest := rest - {v};
      if m.None? || m.value < v {
        m := Some(v);
      }
    }
    ghost var spec := MaxVersion(commons.Keys);
    assert spec.Some? ==> spec.value in commons;
  }

  /** Load, one operation, save: each in a transaction that a failure rolls back. */
  class Inventory {
    var tables: Tables

    constructor ()
      ensures tables == EMPTY
    {
      tables := EMPTY;
    }

    method FindResource() returns (r: Resource)
      requires Found(tables)
      ensures fresh(r) && fresh(r.reporter) && r.State() == Load(tables)
    {
      var last := LastCommonVersion(tables.commons);
      r := new Resource(ResourceState(tables.resource.value, last, tables.reporter.value, PendingReport(None, None),
          None));
    }

    /** The rows are written one after the other in a transaction, and the first duplicate key, or an event without any
        version, rolls all of them back. */
    method Save(r: Resource, op: Operation) returns (ok: bool)
      modifies this
      ensures ok <==> SaveState(old(tables), old(r.State()), op).Some?
      ensures tables == if ok then SaveState(old(tables), old(r.State()), op).value else old(tables)
    {
      var tx := tables.(resource := Some(r.commonVersion));
      tx := tx.(reporter := Some(r.reporter.State()));
      var reporterRow := r.report.reporter;
      if r.deleted.Some? {
        reporterRow := Some((r.deleted.value, ReporterRow(map[], None, true)));
      }
      if reporterRow.Some? {
        if reporterRow.value.0 in tx.reporterRows {
          return false;
        }
        tx := tx.(reporterRows := tx.reporterRows[reporterRow.value.0 := reporterRow.value.1]);
      }
      if r.report.common.Some? {
        var (version, data) := r.report.common.value;
        if version in tx.commons {
          return false;
        }
        tx := tx.(commons := tx.commons[version := data]);
      }
      if !op.Deleted? || r.deleted.Some? {
        var event := EventOf(r, op);
        if event.commonVersion.None? && event.reporterVersion.None? {
          return false;
        }
        tx := tx.(outbox := tx.outbox + [event]);
      }
      tables := tx;
      ok := true;
    }

    /** The event to publish: of the delete, or of the report. */
    function EventOf(r: Resource, op: Operation): TupleEvent
      reads r
      requires op.Deleted? ==> r.deleted.Some?
    {
      if op.Deleted? then TupleEvent(op, None, Some(r.deleted.value.1))
      else
        TupleEvent(op, if r.report.common.Some? then Some(r.report.common.value.0) else None,
                   if r.report.reporter.Some? then Some(r.report.reporter.value.0.1) else None)
    }

    method ReportResource(reporterData: Option<Data>, commonData: Option<Data>) returns (ok: bool)
      modifies this
      ensures tables == After(old(tables), Report(reporterData, commonData))
      ensures ok <==> Transaction(old(tables), Report(reporterData, commonData)).Some?
    {
      if !Found(tables) {
        var s := NewState(reporterData, commonData);
        if s.None? {
          return false;
        }
        var created := new Resource(s.value);
        ok := Save(created, Created);
      } else {
        var r := FindResource();
        ok := r.Update(reporterData, commonData);
        if ok {
          ok := Save(r, Updated);
        }
      }
    }

    method DeleteResource() returns (ok: bool)
      modifies this
      ensures tables == After(old(tables), Command.Delete)
      ensures ok <==> Transaction(old(tables), Command.Delete).Some?
    {
      if !Found(tables) {
        return false;
      }
      var r := FindResource();
      r.Delete();
      ok := Save(r, Deleted);
    }
  }
}
