/** Which persisted representations the consumer looks at for an event. */
module RowSelection {
  import opened Tuples
  import opened Representations
  import opened ResourceHistory

  /** The current and the previous representation handed to the tuple calculation. */
  datatype Fetched = Fetched(current: Option<Representations>, previous: Option<Representations>)

  datatype CommonRow = CommonRow(version: nat, data: Data)

  function RepresentationAt(commons: map<nat, Data>, v: nat): Option<Representations> {
    if v in commons then Some(Representations(commons[v], Some(v), map[], None)) else None
  }

  /** cv - 1 on a 64-bit unsigned counter. */
  function WrappingDecrement(v: nat): nat {
    if v == 0 then UINT_RANGE - 1 else v - 1
  }

  predicate Selected(version: nat, cv: nat, op: Operation) {
    version == cv || (!op.Created? && version == WrappingDecrement(cv))
  }

  /** No selected row is empty. */
  ghost predicate SelectionFilled(commons: map<nat, Data>, cv: Option<nat>, op: Operation) {
    cv.Some? ==>
      && (cv.value in commons ==> commons[cv.value] != map[])
      && (!op.Created? && cv.value > 0 && cv.value - 1 in commons ==> commons[cv.value - 1] != map[])
      && (!op.Created? && cv.value == 0 && 0xFFFF_FFFF_FFFF_FFFF in commons ==> commons[0xFFFF_FFFF_FFFF_FFFF] != map[])
  }

  /** The query result: the rows of the table in whatever order, possibly repeated by the join. */
  ghost predicate RowsOf(rows: seq<CommonRow>, commons: map<nat, Data>) {
    && (forall r | r in rows :: r.version in commons && commons[r.version] == r.data)
    && (forall v | v in commons :: CommonRow(v, commons[v]) in rows)
  }

  /** What the row loop amounts to: version cv is current; version cv - 1, if there is one and the event is not
      a creation, is previous. */
  function CurrentAndPrevious(commons: map<nat, Data>, cv: Option<nat>, op: Operation): Fetched {
    if cv.None? then Fetched(None, None)
    else Fetched(RepresentationAt(commons, cv.value),
                 if !op.Created? && cv.value > 0 then RepresentationAt(commons, cv.value - 1) else None)
  }

  /** The lookup fails exactly when a selected row has empty data; no such row is ever persisted. */
  method FindCurrentAndPreviousVersionedRepresentations(rows: seq<CommonRow>, ghost commons: map<nat, Data>,
                                                        cv: Option<nat>, op: Operation)
    returns (result: Option<Fetched>)
    requires RowsOf(rows, commons)
    requires cv.Some? ==> cv.value < UINT_RANGE
    ensures result.Some? ==> result.value == CurrentAndPrevious(commons, cv, op)
    ensures result.Some? <==> SelectionFilled(commons, cv, op)
  {
    if cv.None? {
      return Some(Fetched(None, None));
    }
    var current: Option<Representations>, previous: Option<Representations> := None, None;
    for i := 0 to |rows|
      invariant current.Some? ==> current == RepresentationAt(commons, cv.value)
      invariant previous.Some? ==> cv.value > 0 && !op.Created? && previous == RepresentationAt(commons, cv.value - 1)
      invariant forall j | 0 <= j < i && Selected(rows[j].version, cv.value, op) :: rows[j].data != map[]
      invariant forall j | 0 <= j < i && rows[j].version == cv.value :: current.Some?
      invariant forall j | 0 <= j < i && cv.value > 0 && !op.Created? && rows[j].version == cv.value - 1 ::
                  previous.Some?
    {
      var row := rows[i];
      assert row in rows;
      if Selected(row.version, cv.value, op) {
        var rep := NewRepresentations(row.data, Some(row.version), map[], None);
        if rep.None? {
          return None;
        }
        if row.version == cv.value {
          current := rep;
        } else if cv.value > 0 && row.version == cv.value - 1 {
          previous := rep;
        }
      }
    }
    result := Some(Fetched(current, previous));
    assert forall v | v in commons :: CommonRow(v, commons[v]) in rows;
    if cv.value in commons {
      assert CommonRow(cv.value, commons[cv.value]) in rows;
    }
    if cv.value > 0 && cv.value - 1 in commons {
      assert CommonRow(cv.value - 1, commons[cv.value - 1]) in rows;
    }
  }

  /** FindLatestRepresentations (ORDER BY version DESC LIMIT 1): with no row at all, the empty result is rejected
      by NewRepresentations, which is the error None. */
  ghost function Latest(commons: map<nat, Data>): Option<Representations> {
    var m := MaxVersion(commons.Keys);
    if m.None? then NewRepresentations(map[], Some(0), map[], None)
    else NewRepresentations(commons[m.value], m, map[], None)
  }

  /** The representations the consumer fetches for an event; None is an error, after which the consumer stops. */
  ghost function FetchFor(commons: map<nat, Data>, e: TupleEvent): Option<Fetched> {
    if e.op.Deleted? then
      var latest := Latest(commons);
      if latest.None? then None else Some(Fetched(None, latest))
    else Some(CurrentAndPrevious(commons, e.commonVersion, e.op))
  }

  lemma {:induction false} NumberedMonotone(outbox: seq<TupleEvent>, i: nat, j: nat)
    requires i <= j <= |outbox|
    ensures Numbered(outbox, i) <= Numbered(outbox, j)
    decreases j
  {
    if i < j {
      NumberedMonotone(outbox, i, j - 1);
    }
  }

  /** Contiguity is what makes "version - 1" the previously persisted representation, whenever the lookup happens. */
  lemma PreviousIsThePrecedingOne(t: Tables, i: nat)
    requires Consistent(t) && i < |t.outbox| && !t.outbox[i].op.Deleted? && t.outbox[i].commonVersion.Some?
    ensures var f := FetchFor(t.commons, t.outbox[i]);
            var n := Numbered(t.outbox, i);
            && f.Some? && n < |t.commons|
            && f.value.current == RepresentationAt(t.commons, n) && f.value.current.Some?
            && f.value.previous == (if n == 0 then None else RepresentationAt(t.commons, n - 1))
            && (n > 0 ==> f.value.previous.Some?)
  {
    NumberedMonotone(t.outbox, i + 1, |t.outbox|);
    if t.outbox[i].op.Created? {
      assert i == 0;
    }
  }

  /** A delete event finds a representation exactly when one was ever persisted; before that its lookup fails. */
  lemma DeleteLookup(t: Tables, e: TupleEvent)
    requires Consistent(t) && e.op.Deleted?
    ensures FetchFor(t.commons, e) ==
            if t.commons == map[] then None else Some(Fetched(None, RepresentationAt(t.commons, |t.commons| - 1)))
  {
  }

  /** The pair for an event, spelled out: a creation has no previous representation, and neither has version 0. */
  lemma CurrentAndPreviousSpelledOut(commons: map<nat, Data>, cv: nat, op: Operation)
    ensures var f := CurrentAndPrevious(commons, Some(cv), op);
            && (f.current.Some? <==> cv in commons)
            && (cv in commons ==> f.current == Some(Representations(commons[cv], Some(cv), map[], None)))
            && (f.previous.Some? <==> op != Created && cv > 0 && cv - 1 in commons)
            && (f.previous.Some? ==> f.previous == Some(Representations(commons[cv - 1], Some(cv - 1), map[], None)))
    ensures CurrentAndPrevious(commons, None, op) == Fetched(None, None)
  {
  }
}
