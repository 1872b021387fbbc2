/** The version state machine of one resource with one reporter resource: the aggregate, the tables it is
    saved to, and the report and delete transactions. Timestamps, hrefs and transaction ids are dropped. */
module ResourceHistory {
  import opened Tuples
  import opened Representations

  // Versions and generations are 64-bit unsigned and wrap around.
  const UINT_RANGE: nat := 0x1_0000_0000_0000_0000

  function Increment(v: nat): nat {
    (v + 1) % UINT_RANGE
  }

  datatype Operation = Created | Updated | Deleted

  /** The message the consumer receives. */
  datatype TupleEvent = TupleEvent(op: Operation, commonVersion: Option<nat>, reporterVersion: Option<nat>)

  datatype ReporterState = ReporterState(version: nat, generation: nat, tombstone: bool)

  /** A row of reporter_representations; its key is (generation, version). */
  datatype ReporterRow = ReporterRow(data: Data, commonVersion: Option<nat>, tombstone: bool)

  datatype Tables = Tables(
    resource: Option<Option<nat>>,                  // resource.common_version, once the resource exists
    reporter: Option<ReporterState>,                // reporter_resources
    commons: map<nat, Data>,                        // common_representations, by version
    reporterRows: map<(nat, nat), ReporterRow>,     // reporter_representations
    outbox: seq<TupleEvent>)

  const EMPTY := Tables(None, None, map[], map[], [])

  /** The pending writes an operation leaves on the aggregate: at most one row for each table. */
  datatype PendingReport = PendingReport(reporter: Option<((nat, nat), ReporterRow)>, common: Option<(nat, Data)>)

  datatype ResourceState = ResourceState(
    commonVersion: Option<nat>, lastCommonVersion: Option<nat>, reporter: ReporterState,
    report: PendingReport, deleted: Option<(nat, nat)>)

  datatype Command = Report(reporterData: Option<Data>, commonData: Option<Data>) | Delete

  // ---------- the aggregate, as values ----------

  function ReporterUpdated(r: ReporterState): ReporterState {
    if r.tombstone then ReporterState(0, Increment(r.generation), false)
    else r.(version := Increment(r.version))
  }

  function ReporterDeleted(r: ReporterState): ReporterState {
    r.(version := Increment(r.version), tombstone := true)
  }

  predicate HasData(common: Option<Data>) {
    common.Some? && common.value != map[]
  }

  /** resourceEventAndRepresentations; None is the error. */
  function NewPendingReport(reporter: Option<Data>, common: Option<Data>, r: ReporterState,
                            cv: Option<nat>): Option<PendingReport> {
    if reporter.None? && common.None? then None
    else if common == Some(map[]) then None
    else
      Some(PendingReport(
        if reporter.Some? then Some(((r.generation, r.version), ReporterRow(reporter.value, cv, false))) else None,
        if common.Some? then Some((if cv.Some? then cv.value else 0, common.value)) else None))
  }

  function NextCommonVersion(commonVersion: Option<nat>, lastCommonVersion: Option<nat>): nat {
    if commonVersion.Some? then Increment(commonVersion.value)
    else if lastCommonVersion.Some? then Increment(lastCommonVersion.value)
    else 0
  }

  /** NewResource. */
  function NewState(reporterData: Option<Data>, commonData: Option<Data>): Option<ResourceState> {
    var reporter := if reporterData.None? && commonData.Some? then Some(map[]) else reporterData;
    var cv := if HasData(commonData) then Some(0) else None;
    var r := ReporterState(0, 0, false);
    var report := NewPendingReport(reporter, commonData, r, cv);
    if report.None? then None else Some(ResourceState(cv, cv, r, report.value, None))
  }

  /** A new resource starts at common version 0 if it has common data, which is then also the last one. */
  lemma NewStateVersions(reporterData: Option<Data>, commonData: Option<Data>)
    requires NewState(reporterData, commonData).Some?
    ensures var s := NewState(reporterData, commonData).value;
            && s.commonVersion == s.lastCommonVersion == (if commonData == None then None else Some(0))
            && s.reporter == ReporterState(0, 0, false) && s.deleted == None
  {
  }

  /** Resource.Update: the state it leaves, also when it fails. */
  function UpdatedState(s: ResourceState, reporterData: Option<Data>, commonData: Option<Data>): (ResourceState, bool) {
    var cv := if HasData(commonData) then Some(NextCommonVersion(s.commonVersion, s.lastCommonVersion)) else None;
    var s' := s.(commonVersion := cv, lastCommonVersion := if cv.Some? then cv else s.lastCommonVersion,
                 reporter := ReporterUpdated(s.reporter));
    var report := NewPendingReport(reporterData, commonData, s'.reporter, cv);
    if report.None? then (s', false) else (s'.(report := report.value), true)
  }

  /** The common version moves on from the current one, or from the last one if there is none; without common data it is
      cleared, and the last one stays, so that the next update goes on from there. */
  lemma CommonVersionMoves(s: ResourceState, v: nat, reporterData: Option<Data>, commonData: Option<Data>)
    requires v < 0xFFFF_FFFF_FFFF_FFFF
    requires s.commonVersion == Some(v) || (s.commonVersion == None && s.lastCommonVersion == Some(v))
    ensures var s' := UpdatedState(s, reporterData, commonData).0;
            if commonData == None || commonData == Some(map[])
            then s'.commonVersion == None && s'.lastCommonVersion == s.lastCommonVersion
            else s'.commonVersion == Some(v + 1) && s'.lastCommonVersion == Some(v + 1)
    ensures commonData != None && commonData != Some(map[]) ==>
              UpdatedState(s.(commonVersion := None, lastCommonVersion := None), reporterData,
                  commonData).0.commonVersion
              == Some(0)
  {
  }

  function DeletedState(s: ResourceState): ResourceState {
    if s.reporter.tombstone then s
    else
      var r := ReporterDeleted(s.reporter);
      s.(reporter := r, deleted := Some((r.generation, r.version)))
  }

  // ---------- the repository and the two transactions, as values ----------

  /** SELECT MAX(version). */
  ghost function MaxVersion(versions: set<nat>): (m: Option<nat>)
    ensures m.None? <==> versions == {}
    ensures m.Some? ==> m.value in versions && forall v | v in versions :: v <= m.value
  {
    if versions == {} then None
    else
      var v :| v in versions;
      var rest := MaxVersion(versions - {v});
      assert forall w | w in versions :: w == v || w in versions - {v};
      if rest.Some? && rest.value > v then rest else Some(v)
  }

  /** FindResourceByKeys joins both tables: it finds the resource when both rows exist. */
  predicate Found(t: Tables) {
    t.resource.Some? && t.reporter.Some?
  }

  ghost function Load(t: Tables): ResourceState
    requires Found(t)
  {
    ResourceState(t.resource.value, MaxVersion(t.commons.Keys), t.reporter.value, PendingReport(None, None), None)
  }

  /** Save; None is a duplicate key (or an event without any version), which rolls the transaction back. */
  function SaveState(t: Tables, s: ResourceState, op: Operation): Option<Tables> {
    var deletedRow := ReporterRow(map[], None, true);
    var reporterRow := if s.deleted.Some? then Some((s.deleted.value, deletedRow)) else s.report.reporter;
    if reporterRow.Some? && reporterRow.value.0 in t.reporterRows then None
    else if s.report.common.Some? && s.report.common.value.0 in t.commons then None
    else
      var t' := t.(
                resource := Some(s.commonVersion), reporter := Some(s.reporter),
                reporterRows := if reporterRow.Some? then t.reporterRows[reporterRow.value.0 := reporterRow.value.1]
                                else t.reporterRows,
                commons := if s.report.common.Some? then t.commons[s.report.common.value.0 := s.report.common.value.1]
                           else t.commons);
      if op.Deleted? then
        if s.deleted.None? then Some(t')
        else Some(t'.(outbox := t.outbox + [TupleEvent(Deleted, None, Some(s.deleted.value.1))]))
      else
        var cv := if s.report.common.Some? then Some(s.report.common.value.0) else None;
        var rv := if s.report.reporter.Some? then Some(s.report.reporter.value.0.1) else None;
        if cv.None? && rv.None? then None
        else Some(t'.(outbox := t.outbox + [TupleEvent(op, cv, rv)]))
  }

  /** When saving fails, for any tables: a reporter row or a common version that exists already, or a report event
      without any version. */
  lemma SaveFailsIff(t: Tables, s: ResourceState, op: Operation)
    ensures SaveState(t, s, op).None? <==>
            || (s.deleted.Some? && s.deleted.value in t.reporterRows)
            || (s.deleted.None? && s.report.reporter.Some? && s.report.reporter.value.0 in t.reporterRows)
            || (s.report.common.Some? && s.report.common.value.0 in t.commons)
            || (op != Deleted && s.report.common.None? && s.report.reporter.None?)
  {
  }

  /** What saving writes, for any tables: the two rows of the resource, the row of the delete or else of the report, the
      common row, and one event with the versions of the rows, except for a delete without effect. */
  lemma SaveWrites(t: Tables, s: ResourceState, op: Operation)
    requires SaveState(t, s, op).Some?
    ensures var t' := SaveState(t, s, op).value;
            && t'.resource == Some(s.commonVersion) && t'.reporter == Some(s.reporter)
            && (s.deleted.Some? ==>
                t'.reporterRows == t.reporterRows[s.deleted.value := ReporterRow(map[], None, true)])
            && (s.deleted.None? && s.report.reporter.None? ==> t'.reporterRows == t.reporterRows)
            && (s.deleted.None? && s.report.reporter.Some? ==>
                  t'.reporterRows == t.reporterRows[s.report.reporter.value.0 := s.report.reporter.value.1])
            && (s.report.common.None? ==> t'.commons == t.commons)
            && (s.report.common.Some? ==> t'.commons == t.commons[s.report.common.value.0 := s.report.common.value.1])
            && (op == Deleted && s.deleted.None? ==> t'.outbox == t.outbox)
            && (op == Deleted && s.deleted.Some? ==>
                  t'.outbox == t.outbox + [TupleEvent(Deleted, None, Some(s.deleted.value.1))])
            && (op != Deleted ==>
                  && |t'.outbox| == |t.outbox| + 1 && t.outbox <= t'.outbox && t'.outbox[|t.outbox|].op == op
                  && (s.report.common.Some? ==> t'.outbox[|t.outbox|].commonVersion == Some(s.report.common.value.0))
                  && (s.report.common.None? ==> t'.outbox[|t.outbox|].commonVersion == None)
                  && (s.report.reporter.Some? ==>
                      t'.outbox[|t.outbox|].reporterVersion == Some(s.report.reporter.value.0.1))
                  && (s.report.reporter.None? ==> t'.outbox[|t.outbox|].reporterVersion == None))
  {
  }

  /** ReportResource's and Delete's transactions; None leaves the tables as they were. */
  ghost function Transaction(t: Tables, c: Command): Option<Tables> {
    match c
    case Report(reporterData, commonData) =>
      if !Found(t) then
        var s := NewState(reporterData, commonData);
        if s.None? then None else SaveState(t, s.value, Created)
      else
        var (s, ok) := UpdatedState(Load(t), reporterData, commonData);
        if !ok then None else SaveState(t, s, Updated)
    case Delete =>
      if !Found(t) then None else SaveState(t, DeletedState(Load(t)), Deleted)
  }

  ghost function After(t: Tables, c: Command): Tables {
    var r := Transaction(t, c);
    if r.Some? then r.value else t
  }

  // ---------- what every run keeps ----------

  /** How many of the first k events carry a common version. */
  function Numbered(outbox: seq<TupleEvent>, k: nat): nat
    requires k <= |outbox|
  {
    if k == 0 then 0 else Numbered(outbox, k - 1) + (if outbox[k - 1].commonVersion.Some? then 1 else 0)
  }

  predicate Before(a: (nat, nat), b: (nat, nat)) {
    a.0 < b.0 || (a.0 == b.0 && a.1 < b.1)
  }

  function KeyOf(r: ReporterState): (nat, nat) {
    (r.generation, r.version)
  }

  /** Common versions are 0, 1, 2, ... without gaps, and the row's common_version is the last of them or absent. */
  ghost predicate Contiguous(t: Tables) {
    && (forall v: nat :: v in t.commons <==> v < |t.commons|)
    && (forall v | v in t.commons :: t.commons[v] != map[])
    && (t.resource.Some? && t.resource.value.Some? ==> t.resource.value.value + 1 == |t.commons|)
  }

  /** The outbox starts with the created event, and its common versions count up from 0 to the last persisted one. */
  ghost predicate Ordered(t: Tables) {
    && (forall i | 0 <= i < |t.outbox| :: t.outbox[i].op.Created? <==> i == 0)
    && (forall i | 0 <= i < |t.outbox| && t.outbox[i].commonVersion.Some? ::
          !t.outbox[i].op.Deleted? && t.outbox[i].commonVersion.value == Numbered(t.outbox, i))
    && Numbered(t.outbox, |t.outbox|) == |t.commons|
  }

  /** No persisted reporter row is newer than the current (generation, version); counters are bounded by the events. */
  ghost predicate ReporterBounded(t: Tables)
    requires t.reporter.Some?
  {
    && (forall k | k in t.reporterRows :: k == KeyOf(t.reporter.value) || Before(k, KeyOf(t.reporter.value)))
    && t.reporter.value.version < |t.outbox| && t.reporter.value.generation < |t.outbox|
    && (t.reporter.value.tombstone <==> t.outbox[|t.outbox| - 1].op.Deleted?)
  }

  ghost predicate Consistent(t: Tables) {
    && (t.resource.Some? <==> t.reporter.Some?)
    && (t.resource.None? ==> t == EMPTY)
    && Contiguous(t) && Ordered(t)
    && (t.reporter.Some? ==> t.outbox != [] && ReporterBounded(t))
  }

  /** Which commands the code accepts: the reason never has to do with stored keys. */
  predicate Acceptable(t: Tables, c: Command) {
    match c
    case Report(reporterData, commonData) => (reporterData.Some? || commonData.Some?) && commonData != Some(map[])
    case Delete => Found(t)
  }

  lemma MaxOfContiguous(t: Tables)
    requires Contiguous(t)
    ensures MaxVersion(t.commons.Keys) == if |t.commons| == 0 then None else Some(|t.commons| - 1)
  {
    if |t.commons| > 0 {
      assert |t.commons| - 1 in t.commons;
    } else {
      assert t.commons.Keys == {};
    }
  }

  lemma {:induction false} NumberedPrefix(outbox: seq<TupleEvent>, more: seq<TupleEvent>, k: nat)
    requires k <= |outbox|
    ensures Numbered(outbox + more, k) == Numbered(outbox, k)
  {
    if k > 0 {
      NumberedPrefix(outbox, more, k - 1);
    }
  }

  lemma {:induction false} NumberedBound(outbox: seq<TupleEvent>, k: nat)
    requires k <= |outbox|
    ensures Numbered(outbox, k) <= k
  {
    if k > 0 {
      NumberedBound(outbox, k - 1);
    }
  }

  /** What an accepted command does to consistent tables. */
  ghost predicate Effect(t: Tables, c: Command, t': Tables)
    requires Consistent(t) && Consistent(t')
  {
    match c
    case Report(reporterData, commonData) =>
      // a new common representation takes the next version, and nothing else is ever overwritten
      && t'.commons == (if HasData(commonData) then t.commons[|t.commons| := commonData.value] else t.commons)
      && |t'.outbox| == |t.outbox| + 1 && t.outbox <= t'.outbox
      && t'.outbox[|t.outbox|].commonVersion == (if HasData(commonData) then Some(|t.commons|) else None)
      && t'.outbox[|t.outbox|].op == (if t.resource.None? then Created else Updated)
      && t'.resource == Some(if HasData(commonData) then Some(|t.commons|) else None)
      // the reporter key moves to the next version, or for a tombstoned one to version 0 of the next generation
      && !t'.reporter.value.tombstone
      && (t.reporter.Some? ==>
            && Before(KeyOf(t.reporter.value), KeyOf(t'.reporter.value))
            && KeyOf(t'.reporter.value) ==
               if t.reporter.value.tombstone then (t.reporter.value.generation + 1, 0)
               else (t.reporter.value.generation, t.reporter.value.version + 1))
      && (forall k | k in t.reporterRows :: k in t'.reporterRows && t'.reporterRows[k] == t.reporterRows[k])
      && t'.reporterRows.Keys <= t.reporterRows.Keys + {KeyOf(t'.reporter.value)}
    case Delete =>
      if t.reporter.Some? && t.reporter.value.tombstone then t' == t
      else
        && t.reporter.Some?
          && t'.reporter == Some(ReporterState(t.reporter.value.version + 1, t.reporter.value.generation, true))
        && t'.commons == t.commons && t'.resource == t.resource
        && |t'.outbox| == |t.outbox| + 1 && t.outbox <= t'.outbox && t'.outbox[|t.outbox|].op.Deleted?
        && KeyOf(t'.reporter.value) !in t.reporterRows
        && t'.reporterRows == t.reporterRows[KeyOf(t'.reporter.value) := ReporterRow(map[], None, true)]
  }

  lemma AppendedOrdered(t: Tables, t': Tables, e: TupleEvent)
    requires Ordered(t) && t'.outbox == t.outbox + [e]
    requires e.op.Created? <==> t.outbox == []
    requires if e.commonVersion.Some?
             then !e.op.Deleted? && e.commonVersion.value == |t.commons| && |t'.commons| == |t.commons| + 1
             else |t'.commons| == |t.commons|
    ensures Ordered(t')
  {
    forall k | 0 <= k <= |t.outbox| ensures Numbered(t'.outbox, k) == Numbered(t.outbox, k) {
      NumberedPrefix(t.outbox, [e], k);
    }
  }

  /** The reporter key of an accepted report: fresh, and above every persisted one. */
  lemma FreshReporterKey(t: Tables, r': ReporterState)
    requires t.reporter.Some? && t.outbox != [] && ReporterBounded(t) && |t.outbox| < UINT_RANGE - 1
    requires r' == ReporterUpdated(t.reporter.value)
             || (!t.reporter.value.tombstone && r' == ReporterDeleted(t.reporter.value))
    ensures Before(KeyOf(t.reporter.value), KeyOf(r')) && r'.version <= |t.outbox| && r'.generation <= |t.outbox|
    ensures KeyOf(r') !in t.reporterRows
    ensures forall k | k in t.reporterRows :: Before(k, KeyOf(r'))
  {
  }

  lemma ContiguousExtended(t: Tables, t': Tables, commonData: Option<Data>)
    requires Contiguous(t) && commonData != Some(map[])
    requires t'.commons == if commonData.Some? then t.commons[|t.commons| := commonData.value] else t.commons
    requires t'.resource == Some(if commonData.Some? then Some(|t.commons|) else None)
    ensures Contiguous(t')
    ensures |t'.commons| == |t.commons| + if commonData.Some? then 1 else 0
  {
    assert |t.commons| !in t.commons;
  }

  /** The tables an accepted report leaves, spelled out. */
  ghost predicate ReportShape(t: Tables, reporterData: Option<Data>, commonData: Option<Data>, r': ReporterState,
                              op: Operation, t': Tables) {
    var cv := if commonData.Some? then Some(|t.commons|) else None;
    && t'.resource == Some(cv) && t'.reporter == Some(r')
    && t'.commons == (if commonData.Some? then t.commons[|t.commons| := commonData.value] else t.commons)
    && t'.reporterRows ==
       (if reporterData.Some? then t.reporterRows[KeyOf(r') := ReporterRow(reporterData.value, cv, false)]
        else t.reporterRows)
    && t'.outbox == t.outbox + [TupleEvent(op, cv, if reporterData.Some? then Some(r'.version) else None)]
  }

  lemma CreateShape(reporterData: Option<Data>, commonData: Option<Data>)
    requires Acceptable(EMPTY, Report(reporterData, commonData))
    ensures var r := Transaction(EMPTY, Report(reporterData, commonData));
            var reporter := if reporterData.None? then Some(map[]) else reporterData;
            r.Some? && ReportShape(EMPTY, reporter, commonData, ReporterState(0, 0, false), Created, r.value)
  {
  }

  lemma UpdateShape(t: Tables, reporterData: Option<Data>, commonData: Option<Data>)
    requires Consistent(t) && t.resource.Some? && |t.outbox| < UINT_RANGE - 1
    requires Acceptable(t, Report(reporterData, commonData))
    ensures var r := Transaction(t, Report(reporterData, commonData));
            r.Some? && ReportShape(t, reporterData, commonData, ReporterUpdated(t.reporter.value), Updated, r.value)
  {
    NumberedBound(t.outbox, |t.outbox|);
    MaxOfContiguous(t);
    FreshReporterKey(t, ReporterUpdated(t.reporter.value));
    var n := |t.commons|;
    assert n !in t.commons;
    var s := Load(t);
    assert commonData.Some? ==> NextCommonVersion(s.commonVersion, s.lastCommonVersion) == n;
  }

  lemma UnacceptableReport(t: Tables, reporterData: Option<Data>, commonData: Option<Data>)
    requires !Acceptable(t, Report(reporterData, commonData))
    ensures Transaction(t, Report(reporterData, commonData)).None?
  {
  }

  lemma ShapeIsConsistent(t: Tables, reporterData: Option<Data>, commonData: Option<Data>, r': ReporterState,
                          op: Operation, t': Tables)
    requires Consistent(t) && ReportShape(t, reporterData, commonData, r', op, t')
    requires commonData != Some(map[]) && !r'.tombstone
    requires op == if t.resource.None? then Created else Updated
    requires r'.version <= |t.outbox| && r'.generation <= |t.outbox|
    requires forall k | k in t.reporterRows :: Before(k, KeyOf(r'))
    ensures Consistent(t')
  {
    ContiguousExtended(t, t', commonData);
    AppendedOrdered(t, t', t'.outbox[|t.outbox|]);
  }

  lemma ShapeHasEffect(t: Tables, c: Command, reporterData: Option<Data>, r': ReporterState, op: Operation, t': Tables)
    requires Consistent(t) && Consistent(t') && c.Report? && c.commonData != Some(map[])
    requires ReportShape(t, reporterData, c.commonData, r', op, t')
    requires op == (if t.resource.None? then Created else Updated) && !r'.tombstone
    requires t.reporter.Some? ==> r' == ReporterUpdated(t.reporter.value) && Before(KeyOf(t.reporter.value), KeyOf(r'))
    requires t.reporter.Some? ==>
               t.reporter.value.generation + 1 < UINT_RANGE && t.reporter.value.version + 1 < UINT_RANGE
    requires KeyOf(r') !in t.reporterRows
    ensures Effect(t, c, t')
  {
  }

  lemma CreateStep(reporterData: Option<Data>, commonData: Option<Data>)
    requires Acceptable(EMPTY, Report(reporterData, commonData))
    ensures var r := Transaction(EMPTY, Report(reporterData, commonData));
            r.Some? && Consistent(r.value) && Effect(EMPTY, Report(reporterData, commonData), r.value)
  {
    var c := Report(reporterData, commonData);
    var reporter := if reporterData.None? then Some(map[]) else reporterData;
    var r' := ReporterState(0, 0, false);
    CreateShape(reporterData, commonData);
    var t' := Transaction(EMPTY, c).value;
    ShapeIsConsistent(EMPTY, reporter, commonData, r', Created, t');
    ShapeHasEffect(EMPTY, c, reporter, r', Created, t');
  }

  lemma UpdateStep(t: Tables, reporterData: Option<Data>, commonData: Option<Data>)
    requires Consistent(t) && t.resource.Some? && |t.outbox| < UINT_RANGE - 1
    requires Acceptable(t, Report(reporterData, commonData))
    ensures var r := Transaction(t, Report(reporterData, commonData));
            r.Some? && Consistent(r.value) && Effect(t, Report(reporterData, commonData), r.value)
  {
    var c := Report(reporterData, commonData);
    var r' := ReporterUpdated(t.reporter.value);
    UpdateShape(t, reporterData, commonData);
    FreshReporterKey(t, r');
    var t' := Transaction(t, c).value;
    ShapeIsConsistent(t, reporterData, commonData, r', Updated, t');
    ShapeHasEffect(t, c, reporterData, r', Updated, t');
  }

  /** The tables an effective delete leaves, spelled out. */
  ghost predicate DeleteShape(t: Tables, r': ReporterState, t': Tables) {
    t' == t.(reporter := Some(r'),
             reporterRows := t.reporterRows[KeyOf(r') := ReporterRow(map[], None, true)],
             outbox := t.outbox + [TupleEvent(Deleted, None, Some(r'.version))])
  }

  lemma EffectiveDeleteShape(t: Tables)
    requires t.resource.Some? && t.reporter.Some? && !t.reporter.value.tombstone
    requires KeyOf(ReporterDeleted(t.reporter.value)) !in t.reporterRows
    ensures var r := Transaction(t, Delete);
            r.Some? && DeleteShape(t, ReporterDeleted(t.reporter.value), r.value)
  {
  }

  lemma DeleteShapeStep(t: Tables, r': ReporterState, t': Tables)
    requires Consistent(t) && t.reporter.Some? && !t.reporter.value.tombstone && DeleteShape(t, r', t')
    requires r' == ReporterState(t.reporter.value.version + 1, t.reporter.value.generation, true)
    requires KeyOf(r') !in t.reporterRows && forall k | k in t.reporterRows :: Before(k, KeyOf(r'))
    ensures Consistent(t') && Effect(t, Delete, t')
  {
    AppendedOrdered(t, t', t'.outbox[|t.outbox|]);
  }

  lemma DeleteStep(t: Tables)
    requires Consistent(t) && t.resource.Some? && |t.outbox| < UINT_RANGE - 1
    ensures var r := Transaction(t, Delete);
            r.Some? && Consistent(r.value) && Effect(t, Delete, r.value)
  {
    if !t.reporter.value.tombstone {
      var r' := ReporterDeleted(t.reporter.value);
      FreshReporterKey(t, r');
      EffectiveDeleteShape(t);
      DeleteShapeStep(t, r', Transaction(t, Delete).value);
    }
  }

  /** Every transaction on consistent tables: it fails only for the input's sake (no key ever collides), keeps the
      tables consistent, and has the stated effect. */
  lemma TransactionStep(t: Tables, c: Command)
    requires Consistent(t) && |t.outbox| < UINT_RANGE - 1
    ensures Transaction(t, c).Some? <==> Acceptable(t, c)
    ensures Transaction(t, c).Some? ==> Consistent(Transaction(t, c).value) && Effect(t, c, Transaction(t, c).value)
  {
    match c
    case Report(reporterData, commonData) =>
      if !Acceptable(t, c) {
        UnacceptableReport(t, reporterData, commonData);
      } else if t.resource.None? {
        CreateStep(reporterData, commonData);
      } else {
        UpdateStep(t, reporterData, commonData);
      }
    case Delete =>
      if t.resource.Some? {
        DeleteStep(t);
      }
  }

  ghost function Run(cs: seq<Command>): Tables {
    if cs == [] then EMPTY else After(Run(cs[..|cs| - 1]), cs[|cs| - 1])
  }

  /** The data of the common representations accepted so far, in order. */
  function Reported(cs: seq<Command>): seq<Data> {
    if cs == [] then []
    else
      var c := cs[|cs| - 1];
      Reported(cs[..|cs| - 1]) + (if c.Report? && HasData(c.commonData) then [c.commonData.value] else [])
  }

  /** The common representations are these, in order, under versions 0, 1, 2, ... */
  ghost predicate Holds(t: Tables, reported: seq<Data>) {
    |t.commons| == |reported| && forall v: nat | v < |reported| :: v in t.commons && t.commons[v] == reported[v]
  }

  /** The common representations after a command. */
  lemma CommonsAfter(t: Tables, c: Command)
    requires Consistent(t) && |t.outbox| < UINT_RANGE - 1
    ensures After(t, c).commons
            == if c.Report? && HasData(c.commonData) then t.commons[|t.commons| := c.commonData.value] else t.commons
    ensures |After(t, c).outbox| <= |t.outbox| + 1
  {
    TransactionStep(t, c);
  }

  lemma HoldsOneMore(t: Tables, t': Tables, reported: seq<Data>, data: Data)
    requires Contiguous(t) && Holds(t, reported) && t'.commons == t.commons[|t.commons| := data]
    ensures Holds(t', reported + [data])
  {
    assert |t.commons| !in t.commons;
  }

  lemma StepHolds(t: Tables, c: Command, reported: seq<Data>)
    requires Consistent(t) && |t.outbox| < UINT_RANGE - 1 && Holds(t, reported)
    ensures Consistent(After(t, c)) && |After(t, c).outbox| <= |t.outbox| + 1
    ensures Holds(After(t, c), if c.Report? && HasData(c.commonData) then reported + [c.commonData.value] else reported)
  {
    TransactionStep(t, c);
    var grows := c.Report? && HasData(c.commonData);
    CommonsAfter(t, c);
    if grows {
      HoldsOneMore(t, After(t, c), reported, c.commonData.value);
    }
  }

  /** Over every run shorter than the counter range: the tables stay consistent, and the common representations are
      exactly the accepted ones, in order, under versions 0, 1, 2, ... */
  lemma {:induction false} EveryRunIsConsistent(cs: seq<Command>)
    requires |cs| < UINT_RANGE - 1
    ensures Consistent(Run(cs)) && |Run(cs).outbox| <= |cs|
    ensures Holds(Run(cs), Reported(cs))
  {
    if cs != [] {
      var init := cs[..|cs| - 1];
      EveryRunIsConsistent(init);
      StepHolds(Run(init), cs[|cs| - 1], Reported(init));
    }
  }

  /** Whatever t has in the two history tables, t' has too, unchanged. */
  ghost predicate Keeps(t: Tables, t': Tables) {
    && (forall k | k in t.reporterRows :: k in t'.reporterRows && t'.reporterRows[k] == t.reporterRows[k])
    && (forall v | v in t.commons :: v in t'.commons && t'.commons[v] == t.commons[v])
  }

  lemma StepKeeps(t: Tables, c: Command)
    requires Consistent(t) && |t.outbox| < UINT_RANGE - 1
    ensures Keeps(t, After(t, c))
  {
    TransactionStep(t, c);
    assert |t.commons| !in t.commons;
  }

  /** A key once persisted is never written again, in any continuation of a run. */
  lemma {:induction false} RowsAreWrittenOnce(cs: seq<Command>, more: seq<Command>)
    requires |cs| + |more| < UINT_RANGE - 1
    ensures Keeps(Run(cs), Run(cs + more))
  {
    if more == [] {
      assert cs + more == cs;
    } else {
      var init := more[..|more| - 1];
      RowsAreWrittenOnce(cs, init);
      EveryRunIsConsistent(cs + init);
      assert (cs + more)[..|cs + more| - 1] == cs + init;
      StepKeeps(Run(cs + init), more[|more| - 1]);
    }
  }

  // ---------- generations and versions, counted ----------

  /** The accepted reports (true) and the deletes that have an effect (false), in order. */
  function Effective(cs: seq<Command>): seq<bool> {
    if cs == [] then []
    else
      var before, c := Effective(cs[..|cs| - 1]), cs[|cs| - 1];
      if c.Report? then
        if (c.reporterData.Some? || c.commonData.Some?) && c.commonData != Some(map[]) then before + [true] else before
      else if before != [] && before[|before| - 1] then before + [false]
      else before
  }

  /** Is the k-th of them a report that follows a delete? */
  predicate Revives(es: seq<bool>, k: nat)
    requires k < |es|
  {
    k > 0 && es[k] && !es[k - 1]
  }

  /** How many reports among the first k follow a delete. */
  function Revivals(es: seq<bool>, k: nat): nat
    requires k <= |es|
  {
    if k == 0 then 0 else Revivals(es, k - 1) + if Revives(es, k - 1) then 1 else 0
  }

  /** How many of the first k came after the first report of the current generation. */
  function SinceRevival(es: seq<bool>, k: nat): nat
    requires 0 < k <= |es|
  {
    if k == 1 || Revives(es, k - 1) then 0 else 1 + SinceRevival(es, k - 1)
  }

  lemma {:induction false} CountsKept(es: seq<bool>, e: bool, k: nat)
    requires k <= |es|
    ensures Revivals(es + [e], k) == Revivals(es, k) && (k > 0 ==> SinceRevival(es + [e], k) == SinceRevival(es, k))
  {
    if k > 0 {
      CountsKept(es, e, k - 1);
    }
  }

  ghost predicate Counted(t: Tables, es: seq<bool>) {
    && |t.outbox| == |es| && (t.reporter.Some? <==> es != [])
    && (es != [] ==>
          t.reporter.value == ReporterState(SinceRevival(es, |es|), Revivals(es, |es|), !es[|es| - 1]))
  }

  lemma CountOneMore(t: Tables, t': Tables, es: seq<bool>, e: bool)
    requires Counted(t, es) && |t'.outbox| == |t.outbox| + 1 && t'.reporter.Some? && t'.reporter.value.tombstone == !e
    requires es == [] ==> e && KeyOf(t'.reporter.value) == (0, 0)
    requires es != [] && e && !es[|es| - 1] ==> KeyOf(t'.reporter.value) == (t.reporter.value.generation + 1, 0)
    requires es != [] && !(e && !es[|es| - 1]) ==>
               KeyOf(t'.reporter.value) == (t.reporter.value.generation, t.reporter.value.version + 1)
    ensures Counted(t', es + [e])
  {
    var es' := es + [e];
    CountsKept(es, e, |es|);
    assert es' != [] && es'[|es'| - 1] == e && (es != [] ==> es'[|es'| - 2] == es[|es| - 1]);
  }

  /** The first report starts at version 0 of generation 0. */
  lemma FirstReportState(reporterData: Option<Data>, commonData: Option<Data>)
    requires Acceptable(EMPTY, Report(reporterData, commonData))
    ensures After(EMPTY, Report(reporterData, commonData)).reporter == Some(ReporterState(0, 0, false))
  {
    CreateShape(reporterData, commonData);
  }

  lemma StepCounted(t: Tables, c: Command, es: seq<bool>, es': seq<bool>)
    requires Consistent(t) && |t.outbox| < UINT_RANGE - 1 && Counted(t, es)
    requires es' == if c.Report? && Acceptable(t, c) then es + [true]
                    else if c.Delete? && es != [] && es[|es| - 1] then es + [false] else es
    ensures Counted(After(t, c), es')
  {
    TransactionStep(t, c);
    if c.Report? && Acceptable(t, c) {
      if es == [] {
        FirstReportState(c.reporterData, c.commonData);
      }
      CountOneMore(t, After(t, c), es, true);
    } else if c.Delete? && es != [] && es[|es| - 1] {
      CountOneMore(t, After(t, c), es, false);
    }
  }

  /** Over every run: the generation is the number of accepted reports that follow a delete, and the version the number
      of accepted reports and effective deletes since the generation began. */
  lemma {:induction false} EveryRunIsCounted(cs: seq<Command>)
    requires |cs| < UINT_RANGE - 1
    ensures Counted(Run(cs), Effective(cs))
  {
    if cs != [] {
      var init := cs[..|cs| - 1];
      EveryRunIsConsistent(init);
      EveryRunIsCounted(init);
      StepCounted(Run(init), cs[|cs| - 1], Effective(init), Effective(cs));
    }
  }

  /** Counters are 64 bits wide: they wrap around at the end and nowhere else. */
  lemma IncrementWraps(v: nat)
    requires v <= 0xFFFF_FFFF_FFFF_FFFF
    ensures Increment(v) == if v == 0xFFFF_FFFF_FFFF_FFFF then 0 else v + 1
  {
  }
}
