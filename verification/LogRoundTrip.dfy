/** From a batch of log records to the attribute table filed for them, and back through the id column. */
module LogRoundTrip {
  import opened Wrappers
  import opened Values
  import opened GroupDelta
  import opened Sorting
  import opened AttrTable
  import opened AttrStore
  import opened AttrBuilder
  import opened LogIds
  import opened LogOptimizer
  import AttrRoundTrip

  /** The owners whose attributes these visits file: each under the number of owners before it. */
  function OwnersOf(vs: seq<Visit>): seq<AttrRoundTrip.Owner> {
    if vs == [] then []
    else
      OwnersOf(Init(vs)) +
      if Last(vs).start && Last(vs).owner != [] then [AttrRoundTrip.Owner(Filings(Init(vs)), Last(vs).owner)] else []
  }

  lemma {:induction false} OwnersAreNumbered(vs: seq<Visit>)
    ensures |OwnersOf(vs)| == Filings(vs)
    ensures forall i :: 0 <= i < |OwnersOf(vs)| ==> OwnersOf(vs)[i].id == i
  {
    if vs != [] {
      OwnersAreNumbered(Init(vs));
    }
  }

  /** What the accumulator holds after the visits is what filing these owners one by one gives. */
  lemma {:induction false} FiledAreOwners(vs: seq<Visit>)
    ensures AttrRoundTrip.RowsOf(OwnersOf(vs)) == FiledRows(vs, false)
  {
    if vs != [] {
      var before, v := OwnersOf(Init(vs)), Last(vs);
      FiledAreOwners(Init(vs));
      hide RowsFor;
      assert RowsFor(Filings(Init(vs)), [], false) == [] by {
        NoRows(Filings(Init(vs)));
      }
      if v.start && v.owner != [] {
        var all := before + [AttrRoundTrip.Owner(Filings(Init(vs)), v.owner)];
        assert all[..|all| - 1] == before;
      } else {
        assert before + [] == before;
      }
    }
  }

  lemma NoRows(id: nat)
    ensures RowsFor(id, [], false) == []
  {
  }

  /** A visit that files something files it under its own id. */
  lemma {:induction false} OwnerOfVisit(vs: seq<Visit>, i: nat)
    requires i < |vs| && vs[i].start && vs[i].owner != []
    ensures Trace(vs)[i].Some? && Trace(vs)[i].value < |OwnersOf(vs)|
    ensures OwnersOf(vs)[Trace(vs)[i].value] == AttrRoundTrip.Owner(Trace(vs)[i].value, vs[i].owner)
  {
    OwnersAreNumbered(Init(vs));
    if i < |vs| - 1 {
      OwnerOfVisit(Init(vs), i);
    }
  }

  lemma {:induction false} NoIdWithoutOwner(vs: seq<Visit>, i: nat)
    requires i < |vs| && vs[i].start && vs[i].owner == []
    ensures Trace(vs)[i].None?
  {
    if i < |vs| - 1 {
      NoIdWithoutOwner(Init(vs), i);
    }
  }

  lemma {:induction false} LogVisitAt(logs: seq<FlattenedLog>, i: nat)
    requires i < |logs|
    ensures |LogVisits(logs)| == |logs| && LogVisits(logs)[i] == Visit(true, logs[i].log.attrs)
  {
    LogVisitsLength(logs);
    if i < |logs| - 1 {
      LogVisitAt(Init(logs), i);
    }
  }

  lemma {:induction false} LogVisitsLength(logs: seq<FlattenedLog>)
    ensures |LogVisits(logs)| == |logs|
  {
    if logs != [] {
      LogVisitsLength(Init(logs));
    }
  }

  // ---------------------------------------------------------------- Tidy attributes

  /** Unique keys, and no empty value that would be written. */
  predicate Tidy(es: seq<Entry>) {
    DistinctKeys(es) && forall e :: e in es && e.key != "" ==> !e.value.Empty?
  }

  predicate AllTidy(all: seq<ResourceLogs>) {
    forall r, s, l :: r in all && s in r.scopes && l in s.logs ==> Tidy(l.attrs)
  }

  predicate TidyRecords(logs: seq<FlattenedLog>) {
    forall f :: f in logs ==> Tidy(f.log.attrs)
  }

  lemma {:induction false} TidyLogs(rs: ResScope, logs: seq<Log>)
    requires forall l :: l in logs ==> Tidy(l.attrs)
    ensures TidyRecords(FlattenLogs(rs, logs))
  {
    hide Tidy;
    if logs != [] {
      assert forall l :: l in Init(logs) ==> l in logs;
      TidyLogs(rs, Init(logs));
    }
  }

  lemma {:induction false} TidyScopes(resID: nat, r: Owner, scopes: seq<ScopeLogs>, ids: map<string, nat>)
    requires forall s, l :: s in scopes && l in s.logs ==> Tidy(l.attrs)
    ensures TidyRecords(FlattenScopes(resID, r, scopes, ids))
  {
    hide Tidy, FlattenLogs;
    if scopes != [] {
      assert forall s :: s in Init(scopes) ==> s in scopes;
      TidyScopes(resID, r, Init(scopes), ids);
      TidyLogs(ResScope(resID, r, IdOf(ids, Last(scopes).scope.key), Last(scopes).scope), Last(scopes).logs);
    }
  }

  lemma {:induction false} TidyFlattened(all: seq<ResourceLogs>, resIDs: map<string, nat>, scopeIDs: map<string, nat>)
    requires AllTidy(all)
    ensures TidyRecords(Flatten(all, resIDs, scopeIDs))
  {
    hide Tidy, FlattenScopes;
    if all != [] {
      assert forall r :: r in Init(all) ==> r in all;
      TidyFlattened(Init(all), resIDs, scopeIDs);
      TidyScopes(IdOf(resIDs, Last(all).resource.key), Last(all).resource, Last(all).scopes, scopeIDs);
    }
  }

  lemma TidySorted(flat: seq<FlattenedLog>, logs: seq<FlattenedLog>)
    requires TidyRecords(flat) && SortOutcome(flat, logs, ByIds)
    ensures TidyRecords(logs)
  {
    SameMembers(flat, logs);
    hide Tidy;
  }

  predicate TidyVisits(vs: seq<Visit>) {
    forall v :: v in vs ==> Tidy(v.owner)
  }

  lemma {:induction false} TidyOwners(vs: seq<Visit>, o: AttrRoundTrip.Owner)
    requires TidyVisits(vs) && o in OwnersOf(vs)
    ensures Tidy(o.attrs)
  {
    hide Tidy;
    assert Last(vs) in vs && forall v :: v in Init(vs) ==> v in vs;
    if o in OwnersOf(Init(vs)) {
      TidyOwners(Init(vs), o);
    }
  }

  lemma TidyLogVisits(logs: seq<FlattenedLog>)
    requires TidyRecords(logs)
    ensures TidyVisits(LogVisits(logs))
  {
    hide Tidy, LogVisits;
    LogVisitsLength(logs);
    forall v | v in LogVisits(logs) ensures Tidy(v.owner) {
      var i :| 0 <= i < |LogVisits(logs)| && LogVisits(logs)[i] == v;
      LogVisitAt(logs, i);
      assert logs[i] in logs;
    }
  }

  /** Tidy records make owners that an attribute table restores. */
  lemma LogOwnersAreProper(m: nat, vs: seq<Visit>)
    requires TidyVisits(vs) && Filings(vs) <= m
    ensures AttrRoundTrip.Proper(m, OwnersOf(vs))
  {
    OwnersAreNumbered(vs);
    hide Tidy, OwnersOf, Filings;
    var owners := OwnersOf(vs);
    forall i | 0 <= i < |owners| ensures Tidy(owners[i].attrs) {
      TidyOwners(vs, owners[i]);
    }
    TidyMeansProper(m, owners);
  }

  lemma TidyMeansProper(m: nat, owners: seq<AttrRoundTrip.Owner>)
    requires |owners| <= m && forall i :: 0 <= i < |owners| ==> owners[i].id == i && Tidy(owners[i].attrs)
    ensures AttrRoundTrip.Proper(m, owners)
  {
    hide DistinctKeys;
  }

  // ---------------------------------------------------------------- The round trip

  /** A record without attributes has no id; any other finds its own attributes under its id. */
  ghost predicate RecordRestored(store: Attributes, id: Option<nat>, f: FlattenedLog) {
    && (id.None? <==> f.log.attrs == [])
    && (id.Some? ==> forall k :: AttrRoundTrip.Restored(store, AttrRoundTrip.Owner(id.value, f.log.attrs), k))
  }

  lemma RecordsRestored(store: Attributes, logs: seq<FlattenedLog>, i: nat)
    requires AttrRoundTrip.AllRestored(store, OwnersOf(LogVisits(logs))) && i < |logs|
    ensures |Trace(LogVisits(logs))| == |logs| && RecordRestored(store, Trace(LogVisits(logs))[i], logs[i])
  {
    var vs := LogVisits(logs);
    LogVisitAt(logs, i);
    hide AttrRoundTrip.Restored, OwnersOf, Trace, LogVisits;
    if logs[i].log.attrs == [] {
      NoIdWithoutOwner(vs, i);
    } else {
      OwnerOfVisit(vs, i);
    }
  }

  /** A batch of log records whose attributes have unique keys and no empty values.  Unless an
      accumulator runs out of groups, the id column of the records and the table built of their
      attributes together give back every record's own attributes. */
  method WriteThenReadLogs(lb: LogsBuilder, b: AttrsBuilder, all: seq<ResourceLogs>)
    returns (ok: bool, store: Attributes, ghost logs: seq<FlattenedLog>, ghost resIDs: map<string, nat>,
            ghost scopeIDs: map<string, nat>)
    requires b.Valid() && b.m == M16 && lb.logAccu == b.accumulator && b.accumulator.maxCount <= 0xFFFF
    requires lb.Apart() && lb.Clean(lb.logAccu, lb.ib) && lb.Clean(lb.resourceAccu, lb.rb)
    requires lb.Clean(lb.scopeAccu, lb.scb) && lb.ib.Valid() && lb.rb.Valid() && lb.scb.Valid()
    requires AllTidy(all)
    modifies b, b.sorter, b.dicts, lb.logAccu, lb.resourceAccu, lb.scopeAccu, lb.ib, lb.rb, lb.scb
    ensures SortOutcome(Flatten(all, resIDs, scopeIDs), logs, ByIds)
    ensures EveryRecordOnce(all, resIDs, scopeIDs, logs)
    ensures ok <==> lb.Fits(logs)
    ensures ok && lb.ib.present ==> AllRecordsRestored(store, Readings(lb.ib.cells), all, resIDs, scopeIDs, logs)
    ensures ok && lb.ib.present ==>
        && |Readings(lb.ib.cells)| == |logs|
        && forall i :: 0 <= i < |logs| ==> RecordRestored(store, Readings(lb.ib.cells)[i], logs[i])
  {
    hide AllTidy, TidyRecords, TidyVisits, Flatten, SortOutcome, ByIds, Dense, Known, EveryRecordOnce;
    hide AllRecordsRestored, OwnersFiled;
    ok, logs, resIDs, scopeIDs := lb.Append(all);
    if !ok {
      store := map[];
      return;
    }
    ghost var vs := LogVisits(logs);
    TidyFlattened(all, resIDs, scopeIDs);
    TidySorted(Flatten(all, resIDs, scopeIDs), logs);
    TidyLogVisits(logs);
    LogOwnersAreProper(M16, vs);
    FiledAreOwners(vs);
    hide OwnersOf, AttrRoundTrip.RowsOf, AttrRoundTrip.Proper, AttrRoundTrip.AllRestored, LogVisits, FiledRows, Trace;
    hide RecordRestored, Filings, Readings;
    store := AttrRoundTrip.BuildAndLoad(b, OwnersOf(vs));
    forall i | 0 <= i < |logs|
      ensures |Trace(vs)| == |logs| && RecordRestored(store, Trace(vs)[i], logs[i])
    {
      RecordsRestored(store, logs, i);
    }
    TraceLength(logs);
    if lb.ib.present {
      InputsRestored(store, Readings(lb.ib.cells), all, resIDs, scopeIDs, logs);
    }
  }

  /** Every record of the batch is among those handed on, and is restored there. */
  ghost predicate AllRecordsRestored(store: Attributes, ids: seq<Option<nat>>, all: seq<ResourceLogs>,
                                     resIDs: map<string, nat>, scopeIDs: map<string, nat>, logs: seq<FlattenedLog>)
  {
    forall p :: IsPosition(all, p) ==> PositionRestored(store, ids, all, resIDs, scopeIDs, logs, p)
  }

  ghost predicate PositionRestored(store: Attributes, ids: seq<Option<nat>>, all: seq<ResourceLogs>,
                                   resIDs: map<string, nat>, scopeIDs: map<string, nat>, logs: seq<FlattenedLog>,
                                   p: Position)
  {
    && |ids| == |logs|
    && exists i ::
         0 <= i < |logs| && Carries(all, resIDs, scopeIDs, p, logs[i]) && RecordRestored(store, ids[i], logs[i])
  }

  lemma InputsRestored(store: Attributes, ids: seq<Option<nat>>, all: seq<ResourceLogs>, resIDs: map<string, nat>,
                       scopeIDs: map<string, nat>, logs: seq<FlattenedLog>)
    requires EveryRecordOnce(all, resIDs, scopeIDs, logs) && |ids| == |logs|
    requires forall i :: 0 <= i < |logs| ==> RecordRestored(store, ids[i], logs[i])
    ensures AllRecordsRestored(store, ids, all, resIDs, scopeIDs, logs)
  {
    hide RecordRestored, Carries, IsPosition;
    var at :| Placed(all, resIDs, scopeIDs, logs, at);
    forall p | IsPosition(all, p) ensures PositionRestored(store, ids, all, resIDs, scopeIDs, logs, p) {
      var i :| 0 <= i < |at| && at[i] == p;
      assert Carries(all, resIDs, scopeIDs, at[i], logs[i]);
    }
  }

  lemma TraceLength(logs: seq<FlattenedLog>)
    ensures |Trace(LogVisits(logs))| == |logs|
  {
    LogVisitsLength(logs);
  }
}
