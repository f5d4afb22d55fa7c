/** Log records: dense ids for resources and scopes, attribute filing, and the delta id columns. */
module LogIds {
  import opened Wrappers
  import opened Values
  import opened Sorting
  import opened GroupDelta
  import opened AttrTable
  import opened LogOptimizer

  // ---------------------------------------------------------------- Delta columns

  function CellSum(cells: seq<Option<nat>>): nat {
    if cells == [] then 0
    else CellSum(cells[..|cells| - 1]) + (if cells[|cells| - 1].Some? then cells[|cells| - 1].value else 0)
  }

  /** What a delta column says: at each cell that is not null, the sum of the cells so far. */
  function Readings(cells: seq<Option<nat>>): (vs: seq<Option<nat>>)
    ensures |vs| == |cells|
  {
    if cells == [] then []
    else Readings(cells[..|cells| - 1]) + [if cells[|cells| - 1].Some? then Some(CellSum(cells)) else None]
  }

  lemma ReadingsSnoc(cells: seq<Option<nat>>, c: Option<nat>)
    ensures CellSum(cells + [c]) == CellSum(cells) + (if c.Some? then c.value else 0)
    ensures Readings(cells + [c]) == Readings(cells) + [if c.Some? then Some(CellSum(cells + [c])) else None]
  {
    assert (cells + [c])[..|cells|] == cells;
  }

  class DeltaBuilder {
    const present: bool
    const maxDelta: nat
    var cells: seq<Option<nat>>
    var prev: nat
    var updateRequests: nat

    ghost predicate Valid()
      reads this
    {
      (!present ==> cells == []) && (cells != [] ==> prev == CellSum(cells))
    }

    /** False where the original panics. */
    method Append(value: nat) returns (ok: bool)
      requires Valid()
      modifies this
      ensures Valid()
      ensures !present ==> ok && cells == [] && updateRequests == old(updateRequests) + 1
      ensures present ==> updateRequests == old(updateRequests)
      ensures present ==> (ok <==> old(cells) == [] || 0 <= value - old(prev) <= maxDelta)
      ensures present && ok ==> Readings(cells) == Readings(old(cells)) + [Some(value)] && prev == value
      ensures present && !ok ==> cells == old(cells) && prev == old(prev)
    {
      if !present {
        updateRequests := updateRequests + 1;
        return true;
      }
      if cells == [] {
        ReadingsSnoc(cells, Some(value));
        cells := cells + [Some(value)];
      } else {
        if value < prev {
          return false;
        }
        var delta := value - prev;
        if delta > maxDelta {
          return false;
        }
        ReadingsSnoc(cells, Some(delta));
        cells := cells + [Some(delta)];
      }
      prev := value;
      ok := true;
    }

    method AppendNull()
      requires Valid()
      modifies this
      ensures Valid() && updateRequests == old(updateRequests)
      ensures !present ==> cells == []
      ensures present ==>
          Readings(cells) == Readings(old(cells)) + [None] && prev == if old(cells) == [] then 0 else old(prev)
    {
      if present {
        if cells == [] {
          prev := 0;
        }
        ReadingsSnoc(cells, None);
        cells := cells + [None];
      }
    }
  }

  // ---------------------------------------------------------------- Ids of a run of visits

  /** One log record seen from one accumulator: does an owner of attributes start here, and which? */
  datatype Visit = Visit(start: bool, owner: seq<Entry>)

  /** How many attribute maps have been filed. */
  function Filings(vs: seq<Visit>): nat {
    if vs == [] then 0 else Filings(Init(vs)) + (if Last(vs).start && Last(vs).owner != [] then 1 else 0)
  }

  /** The id in force after these visits; none if the current owner has no attributes. */
  function Current(vs: seq<Visit>): Option<nat> {
    if vs == [] then None
    else if !Last(vs).start then Current(Init(vs))
    else if Last(vs).owner == [] then None
    else Some(Filings(Init(vs)))
  }

  function Trace(vs: seq<Visit>): (t: seq<Option<nat>>)
    ensures |t| == |vs|
  {
    if vs == [] then [] else Trace(Init(vs)) + [Current(vs)]
  }

  /** The rows filed for these visits, each owner under the number of owners filed before it. */
  function FiledRows(vs: seq<Visit>, keepEmpty: bool): seq<Row> {
    if vs == [] then [] else
      FiledRows(Init(vs), keepEmpty) +
      (if Last(vs).start then RowsFor(Filings(Init(vs)), Last(vs).owner, keepEmpty) else [])
  }

  lemma Snoc(vs: seq<Visit>, v: Visit, keepEmpty: bool)
    ensures Filings(vs + [v]) == Filings(vs) + (if v.start && v.owner != [] then 1 else 0)
    ensures Current(vs + [v]) == if !v.start then Current(vs) else if v.owner == [] then None else Some(Filings(vs))
    ensures Trace(vs + [v]) == Trace(vs) + [Current(vs + [v])]
    ensures FiledRows(vs + [v], keepEmpty)
         == FiledRows(vs, keepEmpty) + (if v.start then RowsFor(Filings(vs), v.owner, keepEmpty) else [])
  {
    assert Init(vs + [v]) == vs;
  }

  function LastNonNull(t: seq<Option<nat>>): Option<nat> {
    if t == [] then None else if Last(t).Some? then Last(t) else LastNonNull(Init(t))
  }

  /** An id that may follow: zero at first, later the previous one or the next. */
  predicate Follows(previous: Option<nat>, id: nat) {
    if previous.None? then id == 0 else id == previous.value || id == previous.value + 1
  }

  /** Ids that start at zero, never decrease and never skip one. */
  predicate Gapless(t: seq<Option<nat>>) {
    t == [] || (Gapless(Init(t)) && (Last(t).Some? ==> Follows(LastNonNull(Init(t)), Last(t).value)))
  }

  lemma {:induction false} CurrentIsNewest(vs: seq<Visit>)
    ensures Current(vs).Some? ==> Current(vs).value + 1 == Filings(vs)
  {
    if vs != [] && !Last(vs).start {
      CurrentIsNewest(Init(vs));
    }
  }

  lemma {:induction false} LastNonNullIsNewest(vs: seq<Visit>)
    ensures LastNonNull(Trace(vs)) == if Filings(vs) == 0 then None else Some(Filings(vs) - 1)
  {
    if vs != [] {
      LastNonNullIsNewest(Init(vs));
      CurrentIsNewest(vs);
      assert Init(Trace(vs)) == Trace(Init(vs));
    }
  }

  /** The ids handed to a delta column never need a delta above one. */
  lemma {:induction false} TraceIsGapless(vs: seq<Visit>)
    ensures Gapless(Trace(vs))
  {
    if vs != [] {
      TraceIsGapless(Init(vs));
      LastNonNullIsNewest(Init(vs));
      CurrentIsNewest(vs);
      assert Init(Trace(vs)) == Trace(Init(vs));
    }
  }

  /** The rows under this id stand together and are exactly this owner's. */
  ghost predicate FiledUnder(rows: seq<Row>, id: nat, es: seq<Entry>, keepEmpty: bool) {
    exists lo: nat, hi: nat :: StandsAt(rows, id, es, keepEmpty, lo, hi)
  }

  ghost predicate StandsAt(rows: seq<Row>, id: nat, es: seq<Entry>, keepEmpty: bool, lo: nat, hi: nat) {
    && lo <= hi <= |rows| && RowsAre(rows[lo..hi], id, es, keepEmpty)
    && forall r :: 0 <= r < |rows| && !(lo <= r < hi) ==> rows[r].parentId != id
  }

  lemma {:induction false} RowsForIds(id: nat, es: seq<Entry>, keepEmpty: bool)
    ensures forall i :: 0 <= i < |RowsFor(id, es, keepEmpty)| ==> RowsFor(id, es, keepEmpty)[i].parentId == id
  {
    if es != [] {
      RowsForIds(id, es[1..], keepEmpty);
    }
  }

  lemma {:induction false} FiledIds(vs: seq<Visit>, keepEmpty: bool)
    ensures forall r :: 0 <= r < |FiledRows(vs, keepEmpty)| ==> FiledRows(vs, keepEmpty)[r].parentId < Filings(vs)
  {
    if vs != [] {
      FiledIds(Init(vs), keepEmpty);
      RowsForIds(Filings(Init(vs)), Last(vs).owner, keepEmpty);
      assert Last(vs).owner == [] ==> RowsFor(Filings(Init(vs)), Last(vs).owner, keepEmpty) == [];
    }
  }

  lemma StandsBefore(rows: seq<Row>, id: nat, es: seq<Entry>, keepEmpty: bool, more: seq<Row>)
    requires FiledUnder(rows, id, es, keepEmpty) && forall i :: 0 <= i < |more| ==> more[i].parentId != id
    ensures FiledUnder(rows + more, id, es, keepEmpty)
  {
    hide RowsAre;
    var lo: nat, hi: nat :| StandsAt(rows, id, es, keepEmpty, lo, hi);
    assert (rows + more)[lo..hi] == rows[lo..hi];
    assert StandsAt(rows + more, id, es, keepEmpty, lo, hi);
  }

  lemma StandsLast(rows: seq<Row>, id: nat, es: seq<Entry>, keepEmpty: bool)
    requires forall i :: 0 <= i < |rows| ==> rows[i].parentId != id
    ensures FiledUnder(rows + RowsFor(id, es, keepEmpty), id, es, keepEmpty)
  {
    var all := rows + RowsFor(id, es, keepEmpty);
    RowsForAre(id, es, keepEmpty);
    hide RowsAre, RowsFor;
    assert all[|rows|..|all|] == RowsFor(id, es, keepEmpty);
    assert StandsAt(all, id, es, keepEmpty, |rows|, |all|);
  }

  /** An owner with attributes is filed, all of it and once, under the number of owners before it. */
  lemma {:induction false} VisitFiled(vs: seq<Visit>, keepEmpty: bool, i: nat)
    requires i < |vs| && vs[i].start && vs[i].owner != []
    ensures Trace(vs)[i] == Some(Filings(vs[..i])) && Filings(vs[..i]) < Filings(vs)
    ensures FiledUnder(FiledRows(vs, keepEmpty), Filings(vs[..i]), vs[i].owner, keepEmpty)
  {
    var n := |vs| - 1;
    FiledIds(Init(vs), keepEmpty);
    hide FiledUnder;
    if i < n {
      VisitFiled(Init(vs), keepEmpty, i);
      assert Init(vs)[..i] == vs[..i];
      RowsForIds(Filings(Init(vs)), Last(vs).owner, keepEmpty);
      StandsBefore(FiledRows(Init(vs), keepEmpty), Filings(vs[..i]), vs[i].owner, keepEmpty,
                   if Last(vs).start then RowsFor(Filings(Init(vs)), Last(vs).owner, keepEmpty) else []);
    } else {
      assert vs[..i] == Init(vs);
      StandsLast(FiledRows(Init(vs), keepEmpty), Filings(Init(vs)), vs[i].owner, keepEmpty);
    }
  }

  lemma {:induction false} TraceAt(vs: seq<Visit>, i: nat)
    requires i < |vs|
    ensures vs[i].start && vs[i].owner == [] ==> Trace(vs)[i] == None
    ensures !vs[i].start ==> Trace(vs)[i] == if i == 0 then None else Trace(vs)[i - 1]
  {
    if i < |vs| - 1 {
      TraceAt(Init(vs), i);
    } else if i > 0 {
      assert Trace(vs)[i - 1] == Trace(Init(vs))[i - 1] == Current(Init(vs));
    }
  }

  /** The accumulator after these visits. */
  ghost predicate AccAt(acc: Accumulator, vs: seq<Visit>, keepEmpty: bool)
    reads acc
  {
    acc.attrsMapCount == Filings(vs) <= acc.maxCount && acc.attrs == FiledRows(vs, keepEmpty)
  }

  /** The id column, where the schema has it, after these visits. */
  ghost predicate IdsAt(ids: DeltaBuilder, vs: seq<Visit>)
    reads ids
  {
    && ids.Valid() && ids.maxDelta >= 1
    && (ids.present ==> Readings(ids.cells) == Trace(vs))
    && (ids.present && vs != [] ==> ids.prev == if Filings(vs) == 0 then 0 else Filings(vs) - 1)
  }

  function IdNumber(id: Option<nat>): int {
    if id.Some? then id.value else -1
  }

  /** The id of a log record, or a null; the column accepts it whatever came before. */
  method AppendLogID(ids: DeltaBuilder, log: seq<Entry>, id: nat, ghost vs: seq<Visit>, ghost next: seq<Visit>)
    requires IdsAt(ids, vs) && id == Filings(vs) && next == vs + [Visit(true, log)]
    modifies ids
    ensures IdsAt(ids, next)
  {
    Snoc(vs, Visit(true, log), false);
    assert Filings([]) == 0;
    hide Filings, Current, Trace;
    if log == [] {
      ids.AppendNull();
    } else {
      var ok := ids.Append(id);
      assert ok;
    }
  }

  method FileLog(acc: Accumulator, id: nat, log: seq<Entry>, ghost vs: seq<Visit>, ghost next: seq<Visit>)
      returns (ok: bool)
    requires AccAt(acc, vs, false) && id == Filings(vs) && next == vs + [Visit(true, log)]
    modifies acc
    ensures ok <==> Filings(next) <= acc.maxCount
    ensures ok ==> AccAt(acc, next, false)
  {
    Snoc(vs, Visit(true, log), false);
    assert FiledRows(vs, false) + [] == FiledRows(vs, false);
    ok := true;
    if log != [] {
      var filed := acc.AppendWithID(id, log);
      ok := !filed.Overflow?;
    }
  }

  /** Files the attributes of a resource or a scope where one starts, and appends its id to each record. */
  method FileOwner(acc: Accumulator, ids: DeltaBuilder, start: bool, owner: seq<Entry>, current: int,
                   ghost vs: seq<Visit>, ghost next: seq<Visit>) returns (ok: bool, id: int)
    requires AccAt(acc, vs, true) && IdsAt(ids, vs) && next == vs + [Visit(start, owner)]
    requires start || current == IdNumber(Current(vs))
    modifies acc, ids
    ensures ok <==> Filings(next) <= acc.maxCount
    ensures ok ==> AccAt(acc, next, true) && IdsAt(ids, next) && id == IdNumber(Current(next))
  {
    Snoc(vs, Visit(start, owner), true);
    assert FiledRows(vs, true) + [] == FiledRows(vs, true);
    CurrentIsNewest(next);
    CurrentIsNewest(vs);
    hide Filings, Current, Trace, FiledRows;
    ok, id := true, current;
    if start {
      var filed := acc.Append(owner);
      if filed.Overflow? {
        return false, id;
      }
      id := filed.id;
    }
    if id >= 0 {
      ok := ids.Append(id);
    } else {
      ids.AppendNull();
    }
  }

  // ---------------------------------------------------------------- Appending log records

  /** A log record always owns its attributes. */
  function LogVisits(logs: seq<FlattenedLog>): seq<Visit> {
    if logs == [] then [] else LogVisits(Init(logs)) + [Visit(true, Last(logs).log.attrs)]
  }

  function LastResource(logs: seq<FlattenedLog>): int {
    if logs == [] then -1 else Last(logs).rs.resourceLogsId
  }

  function LastScope(logs: seq<FlattenedLog>): int {
    if logs == [] then -1 else Last(logs).rs.scopeLogsId
  }

  /** A resource starts where its number differs from that of the record before. */
  function ResourceVisits(logs: seq<FlattenedLog>): seq<Visit> {
    if logs == [] then [] else
      var rs := Last(logs).rs;
      ResourceVisits(Init(logs)) + [Visit(rs.resourceLogsId != LastResource(Init(logs)), rs.resource.attrs)]
  }

  function ScopeVisits(logs: seq<FlattenedLog>): seq<Visit> {
    if logs == [] then [] else
      var rs := Last(logs).rs;
      ScopeVisits(Init(logs)) + [Visit(rs.scopeLogsId != LastScope(Init(logs)), rs.scope.attrs)]
  }

  lemma OneMoreRecord(done: seq<FlattenedLog>, f: FlattenedLog, now: seq<FlattenedLog>)
    requires now == done + [f]
    ensures LogVisits(now) == LogVisits(done) + [Visit(true, f.log.attrs)]
    ensures ResourceVisits(now)
        == ResourceVisits(done) + [Visit(f.rs.resourceLogsId != LastResource(done), f.rs.resource.attrs)]
    ensures ScopeVisits(now) == ScopeVisits(done) + [Visit(f.rs.scopeLogsId != LastScope(done), f.rs.scope.attrs)]
    ensures LastResource(now) == f.rs.resourceLogsId && LastScope(now) == f.rs.scopeLogsId
  {
    assert Init(now) == done && Last(now) == f;
  }

  /** Adding one in 16 bits. */
  function Increment(id: nat): nat {
    (id + 1) % 0x1_0000
  }

  lemma IncrementSmall(id: nat)
    requires id < 0xFFFF
    ensures Increment(id) == id + 1
  {
  }

  /** The loop's variables after these records. */
  ghost predicate Remembered(done: seq<FlattenedLog>, resLogID: int, resID: int, scopeLogID: int, scopeID: int) {
    && resLogID == LastResource(done) && scopeLogID == LastScope(done)
    && resID == IdNumber(Current(ResourceVisits(done))) && scopeID == IdNumber(Current(ScopeVisits(done)))
  }

  /** What a column of owner ids and the rows of an accumulator say about the owners of these records: where
      an owner with attributes starts, a new id, larger than all before, under which exactly its rows stand;
      where one without starts, a null; and elsewhere the id of the record before. */
  ghost predicate OwnersFiled(ids: seq<Option<nat>>, rows: seq<Row>, keepEmpty: bool, starts: seq<bool>,
                              owners: seq<seq<Entry>>)
  {
    && |ids| == |starts| == |owners|
    && forall i :: 0 <= i < |owners| ==> OwnerFiled(ids, rows, keepEmpty, starts, owners, i)
  }

  ghost predicate OwnerFiled(ids: seq<Option<nat>>, rows: seq<Row>, keepEmpty: bool, starts: seq<bool>,
                             owners: seq<seq<Entry>>, i: nat)
    requires |ids| == |starts| == |owners| && i < |owners|
  {
    if starts[i] then
      if owners[i] == [] then ids[i] == None
      else
        && ids[i].Some? && FiledUnder(rows, ids[i].value, owners[i], keepEmpty)
        && forall j :: 0 <= j < i && ids[j].Some? ==> ids[j].value < ids[i].value
    else i > 0 && ids[i] == ids[i - 1]
  }

  lemma {:induction false} TraceBelow(vs: seq<Visit>, i: nat)
    requires i < |vs| && Trace(vs)[i].Some?
    ensures Trace(vs)[i].value < Filings(vs[..i + 1])
  {
    var n := |vs| - 1;
    if i < n {
      TraceBelow(Init(vs), i);
      assert Init(vs)[..i + 1] == vs[..i + 1];
    } else {
      assert vs[..i + 1] == vs;
      CurrentIsNewest(vs);
    }
  }

  lemma {:induction false} FilingsMonotone(vs: seq<Visit>, i: nat, j: nat)
    requires i <= j <= |vs|
    ensures Filings(vs[..i]) <= Filings(vs[..j])
    decreases j
  {
    if i < j {
      assert Init(vs[..j]) == vs[..j - 1];
      FilingsMonotone(vs, i, j - 1);
    }
  }

  lemma VisitsFiled(vs: seq<Visit>, keepEmpty: bool, starts: seq<bool>, owners: seq<seq<Entry>>)
    requires |vs| == |starts| == |owners| && forall i :: 0 <= i < |vs| ==> vs[i] == Visit(starts[i], owners[i])
    requires vs != [] ==> starts[0]
    ensures OwnersFiled(Trace(vs), FiledRows(vs, keepEmpty), keepEmpty, starts, owners)
  {
    hide Trace, FiledRows, FiledUnder, Filings;
    var ids, rows := Trace(vs), FiledRows(vs, keepEmpty);
    forall i | 0 <= i < |owners| ensures OwnerFiled(ids, rows, keepEmpty, starts, owners, i) {
      TraceAt(vs, i);
      if starts[i] && owners[i] != [] {
        VisitFiled(vs, keepEmpty, i);
        forall j | 0 <= j < i && ids[j].Some? ensures ids[j].value < ids[i].value {
          TraceBelow(vs, j);
          FilingsMonotone(vs, j + 1, i);
        }
      }
    }
  }

  /** A resource starts at the first record and wherever the resource number changes. */
  function ResourceStartsIn(logs: seq<FlattenedLog>): seq<bool> {
    seq(|logs|, i requires 0 <= i < |logs| =>
      i == 0 || logs[i].rs.resourceLogsId != logs[i - 1].rs.resourceLogsId)
  }

  function ScopeStartsIn(logs: seq<FlattenedLog>): seq<bool> {
    seq(|logs|, i requires 0 <= i < |logs| => i == 0 || logs[i].rs.scopeLogsId != logs[i - 1].rs.scopeLogsId)
  }

  function Always(n: nat): seq<bool> {
    seq(n, _ => true)
  }

  function ResourceAttrs(logs: seq<FlattenedLog>): seq<seq<Entry>> {
    seq(|logs|, i requires 0 <= i < |logs| => logs[i].rs.resource.attrs)
  }

  function ScopeAttrs(logs: seq<FlattenedLog>): seq<seq<Entry>> {
    seq(|logs|, i requires 0 <= i < |logs| => logs[i].rs.scope.attrs)
  }

  function LogAttrs(logs: seq<FlattenedLog>): seq<seq<Entry>> {
    seq(|logs|, i requires 0 <= i < |logs| => logs[i].log.attrs)
  }

  lemma {:induction false} VisitsAt(logs: seq<FlattenedLog>, i: nat)
    requires i < |logs|
    ensures |LogVisits(logs)| == |ResourceVisits(logs)| == |ScopeVisits(logs)| == |logs|
    ensures LogVisits(logs)[i] == Visit(true, logs[i].log.attrs)
    ensures ResourceVisits(logs)[i] == Visit(ResourceStartsIn(logs)[i], logs[i].rs.resource.attrs)
    ensures ScopeVisits(logs)[i] == Visit(ScopeStartsIn(logs)[i], logs[i].rs.scope.attrs)
  {
    VisitCounts(logs);
    VisitCounts(Init(logs));
    if i < |logs| - 1 {
      VisitsAt(Init(logs), i);
    }
  }

  lemma {:induction false} VisitCounts(logs: seq<FlattenedLog>)
    ensures |LogVisits(logs)| == |ResourceVisits(logs)| == |ScopeVisits(logs)| == |logs|
  {
    if logs != [] {
      VisitCounts(Init(logs));
    }
  }

  /** The resource accumulator, seen through the resource ids these records are given. */
  lemma ResourcesFiled(logs: seq<FlattenedLog>)
    ensures OwnersFiled(Trace(ResourceVisits(logs)), FiledRows(ResourceVisits(logs), true), true,
                        ResourceStartsIn(logs), ResourceAttrs(logs))
  {
    VisitCounts(logs);
    forall i | 0 <= i < |logs|
      ensures ResourceVisits(logs)[i] == Visit(ResourceStartsIn(logs)[i], ResourceAttrs(logs)[i])
    {
      VisitsAt(logs, i);
    }
    assert logs != [] ==> ResourceStartsIn(logs)[0];
    hide OwnersFiled, Trace, FiledRows, ResourceVisits;
    VisitsFiled(ResourceVisits(logs), true, ResourceStartsIn(logs), ResourceAttrs(logs));
  }

  lemma ScopesFiled(logs: seq<FlattenedLog>)
    ensures OwnersFiled(Trace(ScopeVisits(logs)), FiledRows(ScopeVisits(logs), true), true,
                        ScopeStartsIn(logs), ScopeAttrs(logs))
  {
    VisitCounts(logs);
    forall i | 0 <= i < |logs| ensures ScopeVisits(logs)[i] == Visit(ScopeStartsIn(logs)[i], ScopeAttrs(logs)[i]) {
      VisitsAt(logs, i);
    }
    assert logs != [] ==> ScopeStartsIn(logs)[0];
    hide OwnersFiled, Trace, FiledRows, ScopeVisits;
    VisitsFiled(ScopeVisits(logs), true, ScopeStartsIn(logs), ScopeAttrs(logs));
  }

  lemma LogsFiled(logs: seq<FlattenedLog>)
    ensures OwnersFiled(Trace(LogVisits(logs)), FiledRows(LogVisits(logs), false), false,
                        Always(|logs|), LogAttrs(logs))
  {
    VisitCounts(logs);
    forall i | 0 <= i < |logs| ensures LogVisits(logs)[i] == Visit(Always(|logs|)[i], LogAttrs(logs)[i]) {
      VisitsAt(logs, i);
    }
    assert logs != [] ==> Always(|logs|)[0];
    hide OwnersFiled, Trace, FiledRows, LogVisits;
    VisitsFiled(LogVisits(logs), false, Always(|logs|), LogAttrs(logs));
  }

  /** Where an owner's attributes do not change between its starts, every record reads the id of its own. */
  lemma {:induction false} EveryRecordOwned(ids: seq<Option<nat>>, rows: seq<Row>, keepEmpty: bool, starts: seq<bool>,
                                            owners: seq<seq<Entry>>, i: nat)
    requires OwnersFiled(ids, rows, keepEmpty, starts, owners) && i < |owners|
    requires forall j :: 0 < j < |owners| && !starts[j] ==> owners[j] == owners[j - 1]
    ensures owners[i] == [] <==> ids[i] == None
    ensures owners[i] != [] ==> FiledUnder(rows, ids[i].value, owners[i], keepEmpty)
  {
    hide FiledUnder;
    assert OwnerFiled(ids, rows, keepEmpty, starts, owners, i);
    if !starts[i] {
      EveryRecordOwned(ids, rows, keepEmpty, starts, owners, i - 1);
    }
  }

  class LogsBuilder {
    const logAccu: Accumulator
    const resourceAccu: Accumulator
    const scopeAccu: Accumulator
    const ib: DeltaBuilder
    const rb: DeltaBuilder
    const scb: DeltaBuilder

    ghost predicate Apart()
    {
      && logAccu != resourceAccu && resourceAccu != scopeAccu && scopeAccu != logAccu
      && ib != rb && rb != scb && scb != ib
    }

    /** As a batch begins: accumulators reset, id columns empty. */
    ghost predicate Clean(acc: Accumulator, ids: DeltaBuilder)
      reads acc, ids
    {
      acc.attrs == [] && acc.attrsMapCount == 0 && ids.cells == [] && ids.maxDelta == 1
    }

    constructor (logAccu: Accumulator, resourceAccu: Accumulator, scopeAccu: Accumulator,
                 ib: DeltaBuilder, rb: DeltaBuilder, scb: DeltaBuilder)
      ensures this.logAccu == logAccu && this.resourceAccu == resourceAccu && this.scopeAccu == scopeAccu
      ensures this.ib == ib && this.rb == rb && this.scb == scb
    {
      this.logAccu, this.resourceAccu, this.scopeAccu := logAccu, resourceAccu, scopeAccu;
      this.ib, this.rb, this.scb := ib, rb, scb;
    }

    /** What filing all the records needs: no accumulator runs out of groups. */
    ghost predicate Fits(logs: seq<FlattenedLog>)
    {
      && Filings(LogVisits(logs)) <= logAccu.maxCount
      && Filings(ResourceVisits(logs)) <= resourceAccu.maxCount
      && Filings(ScopeVisits(logs)) <= scopeAccu.maxCount
    }

    ghost predicate Filed(logs: seq<FlattenedLog>)
      reads logAccu, resourceAccu, scopeAccu, ib, rb, scb
    {
      && AccAt(logAccu, LogVisits(logs), false) && IdsAt(ib, LogVisits(logs))
      && AccAt(resourceAccu, ResourceVisits(logs), true) && IdsAt(rb, ResourceVisits(logs))
      && AccAt(scopeAccu, ScopeVisits(logs), true) && IdsAt(scb, ScopeVisits(logs))
    }

    /** The same as the id columns read: each record's ids, and the rows that stand under them. */
    ghost predicate Readable(logs: seq<FlattenedLog>)
      reads logAccu, resourceAccu, scopeAccu, ib, rb, scb
    {
      && (ib.present ==> OwnersFiled(Readings(ib.cells), logAccu.attrs, false, Always(|logs|), LogAttrs(logs)))
      && (rb.present ==>
            OwnersFiled(Readings(rb.cells), resourceAccu.attrs, true, ResourceStartsIn(logs), ResourceAttrs(logs)))
      && (scb.present ==>
            OwnersFiled(Readings(scb.cells), scopeAccu.attrs, true, ScopeStartsIn(logs), ScopeAttrs(logs)))
    }

    lemma FiledIsReadable(logs: seq<FlattenedLog>)
      requires Filed(logs)
      ensures Readable(logs)
    {
      ResourcesFiled(logs);
      ScopesFiled(logs);
      LogsFiled(logs);
      hide OwnersFiled, Trace, FiledRows, ResourceVisits, ScopeVisits, LogVisits, Filings, Readings;
    }

    /** One record: its id, its resource, its scope, its attributes, in this order. */
    method AppendOne(f: FlattenedLog, logID: nat, resLogID: int, resID: int, scopeLogID: int, scopeID: int,
                     ghost done: seq<FlattenedLog>, ghost now: seq<FlattenedLog>)
      returns (ok: bool, nextResID: int, nextScopeID: int)
      requires Apart() && Filed(done) && logID == Filings(LogVisits(done)) && now == done + [f]
      requires Remembered(done, resLogID, resID, scopeLogID, scopeID)
      modifies logAccu, resourceAccu, scopeAccu, ib, rb, scb
      ensures ok <==> Fits(now)
      ensures ok ==> Filed(now) && Remembered(now, f.rs.resourceLogsId, nextResID, f.rs.scopeLogsId, nextScopeID)
    {
      OneMoreRecord(done, f, now);
      hide Filings, Current, LogVisits, ResourceVisits, ScopeVisits, LastResource, LastScope, AccAt, IdsAt, IdNumber;
      nextScopeID := scopeID;
      AppendLogID(ib, f.log.attrs, logID, LogVisits(done), LogVisits(now));
      ok, nextResID := FileOwner(resourceAccu, rb, resLogID != f.rs.resourceLogsId, f.rs.resource.attrs, resID,
                                 ResourceVisits(done), ResourceVisits(now));
      if !ok {
        return;
      }
      ok, nextScopeID := FileOwner(scopeAccu, scb, scopeLogID != f.rs.scopeLogsId, f.rs.scope.attrs, scopeID,
                                   ScopeVisits(done), ScopeVisits(now));
      if !ok {
        return;
      }
      ok := FileLog(logAccu, logID, f.log.attrs, LogVisits(done), LogVisits(now));
    }

    /** These records are filed, and the loop variables remember the last of them. */
    ghost predicate FiledUpTo(done: seq<FlattenedLog>, logID: nat, resLogID: int, resID: int, scopeLogID: int,
                              scopeID: int)
      reads logAccu, resourceAccu, scopeAccu, ib, rb, scb
    {
      && Filed(done) && logID == Filings(LogVisits(done))
      && Remembered(done, resLogID, resID, scopeLogID, scopeID)
    }

    lemma StartsFiled()
      requires Clean(logAccu, ib) && Clean(resourceAccu, rb) && Clean(scopeAccu, scb)
      requires ib.Valid() && rb.Valid() && scb.Valid()
      ensures FiledUpTo([], 0, -1, -1, -1, -1)
    {
    }

    /** One record of the loop, and the counter for the next one. */
    method AppendNext(f: FlattenedLog, logID: nat, resLogID: int, resID: int, scopeLogID: int, scopeID: int,
                      ghost done: seq<FlattenedLog>, ghost now: seq<FlattenedLog>)
      returns (ok: bool, nextLogID: nat, nextResID: int, nextScopeID: int)
      requires Apart() && FiledUpTo(done, logID, resLogID, resID, scopeLogID, scopeID)
      requires now == done + [f] && logAccu.maxCount <= 0xFFFF
      modifies logAccu, resourceAccu, scopeAccu, ib, rb, scb
      ensures ok <==> Fits(now)
      ensures ok ==> FiledUpTo(now, nextLogID, f.rs.resourceLogsId, nextResID, f.rs.scopeLogsId, nextScopeID)
    {
      hide Filed, Filings, Fits, LogVisits, Increment, Remembered, Apart;
      nextLogID := logID;
      ok, nextResID, nextScopeID := AppendOne(f, logID, resLogID, resID, scopeLogID, scopeID, done, now);
      if ok {
        NextLogID(done, f, now);
        if f.log.attrs != [] {
          nextLogID := Increment(logID);
        }
      }
    }

    /** False where an accumulator panics; the id columns never do. */
    method AppendRecords(logs: seq<FlattenedLog>) returns (ok: bool)
      requires Apart() && Clean(logAccu, ib) && Clean(resourceAccu, rb) && Clean(scopeAccu, scb)
      requires ib.Valid() && rb.Valid() && scb.Valid() && logAccu.maxCount <= 0xFFFF
      modifies logAccu, resourceAccu, scopeAccu, ib, rb, scb
      ensures ok <==> Fits(logs)
      ensures ok ==> Filed(logs) && Readable(logs)
    {
      var logID: nat := 0;
      var resLogID: int, scopeLogID: int, resID: int, scopeID: int := -1, -1, -1, -1;
      hide *;
      StartsFiled();
      for i := 0 to |logs|
        invariant FiledUpTo(logs[..i], logID, resLogID, resID, scopeLogID, scopeID)
      {
        ghost var done, now := logs[..i], logs[..i + 1];
        assert now == done + [logs[i]];
        ok, logID, resID, scopeID := AppendNext(logs[i], logID, resLogID, resID, scopeLogID, scopeID, done, now);
        if !ok {
          PrefixFits(logs, now);
          return;
        }
        resLogID, scopeLogID := logs[i].rs.resourceLogsId, logs[i].rs.scopeLogsId;
      }
      assert logs[..|logs|] == logs;
      AllFiled(logs, logID, resLogID, resID, scopeLogID, scopeID);
      FiledIsReadable(logs);
      ok := true;
    }

    lemma AllFiled(logs: seq<FlattenedLog>, logID: nat, resLogID: int, resID: int, scopeLogID: int, scopeID: int)
      requires FiledUpTo(logs, logID, resLogID, resID, scopeLogID, scopeID)
      ensures Filed(logs) && Fits(logs)
    {
      FiledFits(logs);
      hide Filed, Fits;
    }

    /** A whole batch: numbered, flattened, sorted and appended. */
    method Append(all: seq<ResourceLogs>)
      returns (ok: bool, ghost logs: seq<FlattenedLog>, ghost resIDs: map<string, nat>,
              ghost scopeIDs: map<string, nat>)
      requires Apart() && Clean(logAccu, ib) && Clean(resourceAccu, rb) && Clean(scopeAccu, scb)
      requires ib.Valid() && rb.Valid() && scb.Valid() && logAccu.maxCount <= 0xFFFF
      modifies logAccu, resourceAccu, scopeAccu, ib, rb, scb
      ensures Dense(resIDs) && Dense(scopeIDs) && Known(all, resIDs, scopeIDs)
      ensures SortOutcome(Flatten(all, resIDs, scopeIDs), logs, ByIds)
      ensures EveryRecordOnce(all, resIDs, scopeIDs, logs)
      ensures ok <==> Fits(logs)
      ensures ok ==> Filed(logs) && Readable(logs)
    {
      hide Dense, Known, Flatten, SortOutcome, ByIds, Clean, Filed, Fits, Apart, EveryRecordOnce, Readable, FirstCome;
      var records, rs, ss := Optimize(all);
      logs, resIDs, scopeIDs := records, rs, ss;
      ok := AppendRecords(records);
    }

    lemma FiledFits(logs: seq<FlattenedLog>)
      requires Filed(logs)
      ensures Fits(logs)
    {
    }

    /** The 16-bit counter does not wrap while the accumulator has room. */
    lemma NextLogID(done: seq<FlattenedLog>, f: FlattenedLog, now: seq<FlattenedLog>)
      requires now == done + [f] && Fits(now) && logAccu.maxCount <= 0xFFFF
      ensures var n := Filings(LogVisits(done));
          Filings(LogVisits(now)) == if f.log.attrs == [] then n else Increment(n)
    {
      OneMoreRecord(done, f, now);
      Snoc(LogVisits(done), Visit(true, f.log.attrs), false);
      hide Filings, LogVisits, ResourceVisits, ScopeVisits, Increment;
      if Filings(LogVisits(done)) < 0xFFFF {
        IncrementSmall(Filings(LogVisits(done)));
      }
    }

    lemma PrefixFits(logs: seq<FlattenedLog>, done: seq<FlattenedLog>)
      requires done <= logs
      ensures Fits(logs) ==> Fits(done)
      decreases |logs|
    {
      if |done| < |logs| {
        PrefixFits(Init(logs), done);
      } else {
        assert done == logs;
      }
    }
  }

  // ---------------------------------------------------------------- Sorting

  predicate ResourcesInOrder(logs: seq<FlattenedLog>) {
    forall i, j :: 0 <= i < j < |logs| ==> logs[i].rs.resourceLogsId <= logs[j].rs.resourceLogsId
  }

  lemma SortingOrdersResources(s: seq<FlattenedLog>, t: seq<FlattenedLog>)
    requires SortOutcome(s, t, ByIds)
    ensures ResourcesInOrder(t)
  {
    ByIdsIsWeakOrder(s);
    forall i, j | 0 <= i < j < |t| ensures t[i].rs.resourceLogsId <= t[j].rs.resourceLogsId {
      assert !ByIds(t[j], t[i]);
    }
  }

  /** How often the attributes of a resource are handed to the accumulator. */
  function ResourceStarts(logs: seq<FlattenedLog>, id: nat): nat {
    if logs == [] then 0 else
      var now := Last(logs).rs.resourceLogsId;
      ResourceStarts(Init(logs), id) + (if now == id && now != LastResource(Init(logs)) then 1 else 0)
  }

  function ScopeStarts(logs: seq<FlattenedLog>, id: nat): nat {
    if logs == [] then 0 else
      var now := Last(logs).rs.scopeLogsId;
      ScopeStarts(Init(logs), id) + (if now == id && now != LastScope(Init(logs)) then 1 else 0)
  }

  predicate HasResource(logs: seq<FlattenedLog>, id: nat) {
    exists i :: 0 <= i < |logs| && logs[i].rs.resourceLogsId == id
  }

  lemma HasResourceSnoc(logs: seq<FlattenedLog>, id: nat)
    requires logs != []
    ensures HasResource(logs, id) <==> HasResource(Init(logs), id) || Last(logs).rs.resourceLogsId == id
  {
    if HasResource(Init(logs), id) {
      var i :| 0 <= i < |Init(logs)| && Init(logs)[i].rs.resourceLogsId == id;
      assert logs[i].rs.resourceLogsId == id;
    }
  }

  /** In resource order every resource that has records is filed once, and no other. */
  lemma {:induction false} EachResourceOnce(logs: seq<FlattenedLog>, id: nat)
    requires ResourcesInOrder(logs)
    ensures ResourceStarts(logs, id) == if HasResource(logs, id) then 1 else 0
  {
    if logs != [] {
      var init := Init(logs);
      EachResourceOnce(init, id);
      HasResourceSnoc(logs, id);
      if HasResource(init, id) {
        var i :| 0 <= i < |init| && init[i].rs.resourceLogsId == id;
        assert Last(init).rs.resourceLogsId >= id;
      } else if init != [] {
        assert init[|init| - 1].rs.resourceLogsId == Last(init).rs.resourceLogsId;
      }
    }
  }

  predicate HasScope(logs: seq<FlattenedLog>, id: nat) {
    exists i :: 0 <= i < |logs| && logs[i].rs.scopeLogsId == id
  }

  /** A record of another scope between two records of this one. */
  predicate GapAt(logs: seq<FlattenedLog>, id: nat, i: nat, j: nat, k: nat) {
    && i < j < k < |logs|
    && logs[i].rs.scopeLogsId == id && logs[j].rs.scopeLogsId != id && logs[k].rs.scopeLogsId == id
  }

  ghost predicate HasGap(logs: seq<FlattenedLog>, id: nat) {
    exists i: nat, j: nat, k: nat :: GapAt(logs, id, i, j, k)
  }

  lemma HasScopeSnoc(logs: seq<FlattenedLog>, id: nat)
    requires logs != []
    ensures HasScope(logs, id) <==> HasScope(Init(logs), id) || Last(logs).rs.scopeLogsId == id
  {
    if HasScope(Init(logs), id) {
      var i :| 0 <= i < |Init(logs)| && Init(logs)[i].rs.scopeLogsId == id;
      assert logs[i].rs.scopeLogsId == id;
    }
  }

  /** A gap is an old one, or one that the last record closes. */
  lemma HasGapSnoc(logs: seq<FlattenedLog>, id: nat)
    requires logs != []
    ensures HasGap(logs, id) <==>
              || HasGap(Init(logs), id)
              || (Last(logs).rs.scopeLogsId == id && LastScope(Init(logs)) != id && HasScope(Init(logs), id))
  {
    var init, n := Init(logs), |logs| - 1;
    if i: nat, j: nat, k: nat :| GapAt(logs, id, i, j, k) {
      if k < n {
        assert GapAt(init, id, i, j, k);
      } else {
        assert init[i].rs.scopeLogsId == id;
        if LastScope(init) == id {
          assert GapAt(init, id, i, j, n - 1);
        }
      }
    }
    if i: nat, j: nat, k: nat :| GapAt(init, id, i, j, k) {
      assert GapAt(logs, id, i, j, k);
    }
    if Last(logs).rs.scopeLogsId == id && LastScope(init) != id && HasScope(init, id) {
      var i :| 0 <= i < |init| && init[i].rs.scopeLogsId == id;
      assert GapAt(logs, id, i, n - 1, n);
    }
  }

  /** A scope is handed to the accumulator once exactly when its records are contiguous. */
  lemma {:induction false} ScopeStartsOnce(logs: seq<FlattenedLog>, id: nat)
    ensures ScopeStarts(logs, id) == 0 <==> !HasScope(logs, id)
    ensures ScopeStarts(logs, id) <= 1 <==> !HasGap(logs, id)
  {
    if logs != [] {
      var init := Init(logs);
      ScopeStartsOnce(init, id);
      HasScopeSnoc(logs, id);
      HasGapSnoc(logs, id);
      if LastScope(init) == id {
        assert init[|init| - 1].rs.scopeLogsId == id;
      }
    }
  }

  predicate PairLess(f: FlattenedLog, g: FlattenedLog) {
    || f.rs.resourceLogsId < g.rs.resourceLogsId
    || (f.rs.resourceLogsId == g.rs.resourceLogsId && f.rs.scopeLogsId < g.rs.scopeLogsId)
  }

  /** A record of another scope whose resource and scope numbers come strictly between those of two
      records of this scope. */
  predicate Interrupts(f: FlattenedLog, g: FlattenedLog, h: FlattenedLog, id: nat) {
    f.rs.scopeLogsId == id && g.rs.scopeLogsId != id && h.rs.scopeLogsId == id && PairLess(f, g) && PairLess(g, h)
  }

  ghost predicate Interrupted(logs: seq<FlattenedLog>, id: nat) {
    exists f, g, h :: f in logs && g in logs && h in logs && Interrupts(f, g, h, id)
  }

  lemma GapIffInterrupted(s: seq<FlattenedLog>, t: seq<FlattenedLog>, id: nat)
    requires SortOutcome(s, t, ByIds)
    ensures HasGap(t, id) <==> Interrupted(s, id)
  {
    ByIdsIsWeakOrder(s);
    SameMembers(s, t);
    hide SortOutcome, WeakOrderOn;
    if i: nat, j: nat, k: nat :| GapAt(t, id, i, j, k) {
      assert !ByIds(t[j], t[i]) && !ByIds(t[k], t[j]);
      assert Interrupts(t[i], t[j], t[k], id);
      assert t[i] in s && t[j] in s && t[k] in s;
    }
    if f, g, h :| f in s && g in s && h in s && Interrupts(f, g, h, id) {
      assert f in t && g in t && h in t;
      var i :| 0 <= i < |t| && t[i] == f;
      var j :| 0 <= j < |t| && t[j] == g;
      var k :| 0 <= k < |t| && t[k] == h;
      PairsStayInOrder(t, i, j);
      PairsStayInOrder(t, j, k);
      assert GapAt(t, id, i, j, k);
    }
  }

  lemma PairsStayInOrder(t: seq<FlattenedLog>, i: nat, j: nat)
    requires Sorted(t, ByIds) && i < |t| && j < |t| && PairLess(t[i], t[j])
    ensures i < j
  {
    assert ByIds(t[i], t[j]);
  }

  /** After sorting, a scope that has records is handed to the accumulator exactly once if and only if no
      record of another scope has numbers between two of its own. */
  lemma ScopeOnceIff(s: seq<FlattenedLog>, t: seq<FlattenedLog>, id: nat)
    requires SortOutcome(s, t, ByIds) && HasScope(t, id)
    ensures ScopeStarts(t, id) == 1 <==> !Interrupted(s, id)
  {
    GapIffInterrupted(s, t, id);
    ScopeStartsOnce(t, id);
  }

  // ---------------------------------------------------------------- Optimized records

  /** For the records that Optimize hands on: two share a resource number exactly when they share the
      text that identifies it, so do scopes, and each resource is handed to the accumulator once. */
  lemma OptimizedRecords(all: seq<ResourceLogs>, logs: seq<FlattenedLog>, resIDs: map<string, nat>,
      scopeIDs: map<string, nat>)
    requires Dense(resIDs) && Dense(scopeIDs) && Known(all, resIDs, scopeIDs)
    requires SortOutcome(Flatten(all, resIDs, scopeIDs), logs, ByIds)
    ensures forall f, g :: f in logs && g in logs ==>
              && (f.rs.resourceLogsId == g.rs.resourceLogsId <==> f.rs.resource.key == g.rs.resource.key)
              && (f.rs.scopeLogsId == g.rs.scopeLogsId <==> f.rs.scope.key == g.rs.scope.key)
    ensures forall f :: f in logs ==> ResourceStarts(logs, f.rs.resourceLogsId) == 1
  {
    SameMembers(Flatten(all, resIDs, scopeIDs), logs);
    forall f | f in logs ensures NumberedBy(f, resIDs, scopeIDs) {
      FlattenIsNumbered(all, resIDs, scopeIDs, f);
    }
    SortingOrdersResources(Flatten(all, resIDs, scopeIDs), logs);
    hide Flatten, Known, ResourceStarts, SortOutcome;
    forall f | f in logs ensures ResourceStarts(logs, f.rs.resourceLogsId) == 1 {
      EachResourceOnce(logs, f.rs.resourceLogsId);
      var i :| 0 <= i < |logs| && logs[i] == f;
      assert HasResource(logs, f.rs.resourceLogsId);
    }
  }

  /** A batch in which one scope occurs under two resources and another under the first of them. */
  function SharedScope(r: Owner, q: Owner, a: Owner, b: Owner, x: Log, y: Log, z: Log): seq<ResourceLogs> {
    [ResourceLogs(r, [ScopeLogs(a, [x]), ScopeLogs(b, [y])]), ResourceLogs(q, [ScopeLogs(a, [z])])]
  }

  lemma SharedScopeNumbers(r: Owner, q: Owner, a: Owner, b: Owner, x: Log, y: Log, z: Log)
    requires r.key != q.key && a.key != b.key
    ensures var all := SharedScope(r, q, a, b, x, y, z);
      && ResourceNumbers(all) == map[r.key := 0, q.key := 1]
      && ScopeNumbers(all) == map[a.key := 0, b.key := 1]
  {
    var all := SharedScope(r, q, a, b, x, y, z);
    var first, second := all[0].scopes, all[1].scopes;
    assert Init(all) == [all[0]] && Init([all[0]]) == [];
    assert ResourceNumbers([all[0]]) == map[r.key := 0];
    assert Init(first) == [first[0]] && Init([first[0]]) == [] && Init(second) == [];
    assert NumberScopes(map[], [first[0]]) == map[a.key := 0];
    assert NumberScopes(map[], first) == map[a.key := 0, b.key := 1];
    assert ScopeNumbers([all[0]]) == map[a.key := 0, b.key := 1];
    assert NumberScopes(ScopeNumbers([all[0]]), []) == ScopeNumbers([all[0]]);
    assert ScopeNumbers(all) == NumberScopes(ScopeNumbers([all[0]]), second);
  }

  lemma SharedScopeFlat(r: Owner, q: Owner, a: Owner, b: Owner, x: Log, y: Log, z: Log, rs: map<string, nat>,
      ss: map<string, nat>)
    requires rs == map[r.key := 0, q.key := 1] && ss == map[a.key := 0, b.key := 1] && r.key != q.key && a.key != b.key
    ensures Flatten(SharedScope(r, q, a, b, x, y, z), rs, ss) ==
            [FlattenedLog(ResScope(0, r, 0, a), x), FlattenedLog(ResScope(0, r, 1, b), y),
                FlattenedLog(ResScope(1, q, 0, a), z)]
  {
    var all := SharedScope(r, q, a, b, x, y, z);
    var first, second := all[0].scopes, all[1].scopes;
    var f, g, h := FlattenedLog(ResScope(0, r, 0, a), x), FlattenedLog(ResScope(0, r, 1, b), y),
        FlattenedLog(ResScope(1, q, 0, a), z);
    assert Init(all) == [all[0]] && Init([all[0]]) == [];
    assert Init(first) == [first[0]] && Init([first[0]]) == [] && Init(second) == [];
    assert FlattenLogs(f.rs, [x]) == [f] && FlattenLogs(g.rs, [y]) == [g] && FlattenLogs(h.rs, [z]) == [h];
    assert FlattenScopes(0, r, [first[0]], ss) == [f];
    assert FlattenScopes(0, r, first, ss) == [f, g];
    assert FlattenScopes(1, q, second, ss) == [h];
    assert Flatten([all[0]], rs, ss) == [f, g];
    assert Flatten(all, rs, ss) == Flatten([all[0]], rs, ss) + FlattenScopes(1, q, second, ss);
    assert [f, g] + [h] == [f, g, h];
  }

  lemma RepeatsWhenInterrupted(f: FlattenedLog, g: FlattenedLog, h: FlattenedLog, logs: seq<FlattenedLog>, id: nat)
    requires SortOutcome([f, g, h], logs, ByIds) && Interrupts(f, g, h, id)
    ensures ScopeStarts(logs, id) > 1
  {
    var flat := [f, g, h];
    assert flat[0] == f && flat[1] == g && flat[2] == h;
    SameMembers(flat, logs);
    hide ByIds, ScopeStarts, SortOutcome;
    assert f in logs;
    var i :| 0 <= i < |logs| && logs[i] == f;
    assert HasScope(logs, id);
    ScopeOnceIff(flat, logs, id);
    ScopeStartsOnce(logs, id);
  }

  /** What Optimize hands on for such a batch files the shared scope more than once. */
  lemma ScopesCanRepeat(r: Owner, q: Owner, a: Owner, b: Owner, x: Log, y: Log, z: Log, logs: seq<FlattenedLog>)
    requires r.key != q.key && a.key != b.key
    requires var all := SharedScope(r, q, a, b, x, y, z);
             SortOutcome(Flatten(all, ResourceNumbers(all), ScopeNumbers(all)), logs, ByIds)
    ensures ScopeStarts(logs, 0) > 1
  {
    var all := SharedScope(r, q, a, b, x, y, z);
    SharedScopeNumbers(r, q, a, b, x, y, z);
    SharedScopeFlat(r, q, a, b, x, y, z, ResourceNumbers(all), ScopeNumbers(all));
    hide Flatten, ResourceNumbers, ScopeNumbers, SharedScope, ByIds, ScopeStarts, SortOutcome;
    var f, g := FlattenedLog(ResScope(0, r, 0, a), x), FlattenedLog(ResScope(0, r, 1, b), y);
    RepeatsWhenInterrupted(f, g, FlattenedLog(ResScope(1, q, 0, a), z), logs, 0);
  }
}
