/** The reverse pivot: from a record of dynamic columns back to a map of attributes per parent. */
module DynStore {
  import opened Wrappers
  import opened Values
  import opened GroupDelta
  import opened DynAttrs

  type Store = map<nat, seq<Entry>>

  /** UnsupportedFeeder is a panic in the code; the others are returned. */
  datatype DynError = MissingTypeMetadata | InvalidAttrName | UnsupportedFeeder | ParentIDMissing | WrongType

  datatype Feeder = Feeder(attrName: string, kind: Kind, cells: seq<Option<Value>>)

  /** The columns of a record have one length, and the parent id column holds numbers. */
  ghost predicate IsRecord(record: seq<Field>, n: nat) {
    forall i :: 0 <= i < |record| ==>
      if record[i].name == PARENT_ID then
        && record[i].data.IdCells? && |record[i].data.ids| == n
        && forall j :: 0 <= j < n ==> record[i].data.ids[j] < M32
      else record[i].data.AttrCells? && |record[i].data.cells| == n
  }

  function FeederOf(f: Field): Result<Feeder, DynError>
    requires f.data.AttrCells?
  {
    if f.meta.None? then Err(MissingTypeMetadata)
    else if FeederType(f.meta.value).None? then Err(UnsupportedFeeder)
    else
      var t := FeederType(f.meta.value).value;
      var name := AttrName(f.name, t);
      if name.None? then Err(InvalidAttrName) else Ok(Feeder(name.value, t, f.data.cells))
  }

  ghost function FeedersOf(record: seq<Field>, n: nat): (r: Result<seq<Feeder>, DynError>)
    requires IsRecord(record, n)
    ensures r.Ok? ==> forall i :: 0 <= i < |r.value| ==> |r.value[i].cells| == n
  {
    if record == [] then Ok([]) else
      var rest := FeedersOf(record[..|record| - 1], n);
      var last := record[|record| - 1];
      if rest.Err? || last.name == PARENT_ID then rest
      else if FeederOf(last).Err? then Err(FeederOf(last).error)
      else Ok(rest.value + [FeederOf(last).value])
  }

  ghost function ParentOf(record: seq<Field>, n: nat): (r: Option<seq<nat>>)
    requires IsRecord(record, n)
    ensures r.Some? ==> |r.value| == n && forall j :: 0 <= j < n ==> r.value[j] < M32
  {
    if record == [] then None
    else if record[|record| - 1].name == PARENT_ID then Some(record[|record| - 1].data.ids)
    else ParentOf(record[..|record| - 1], n)
  }

  /** The attributes of one row: every non-null cell, put under its column's attribute name. */
  ghost function ReadRow(feeders: seq<Feeder>, row: nat): Result<seq<Entry>, DynError>
    requires forall i :: 0 <= i < |feeders| ==> row < |feeders[i].cells|
  {
    if feeders == [] then Ok([]) else
      var rest := ReadRow(feeders[..|feeders| - 1], row);
      var last := feeders[|feeders| - 1];
      if rest.Err? || last.cells[row].None? then rest
      else
        var v := last.cells[row].value;
        if IsColumnValue(v) && KindOf(v) == last.kind then Ok(PutEntry(rest.value, last.attrName, v))
        else Err(WrongType)
  }

  /** Parent ids as running sums, modulo 2^32. */
  function RunningId(ds: seq<nat>, row: nat): (id: nat)
    requires row < |ds| && forall j :: 0 <= j < |ds| ==> ds[j] < M32
    ensures id < M32
  {
    Add(M32, if row == 0 then 0 else RunningId(ds, row - 1), ds[row])
  }

  ghost function ReadRows(feeders: seq<Feeder>, ds: seq<nat>, n: nat): Result<Store, DynError>
    requires n <= |ds| && forall j :: 0 <= j < |ds| ==> ds[j] < M32
    requires forall i :: 0 <= i < |feeders| ==> n <= |feeders[i].cells|
  {
    if n == 0 then Ok(map[]) else
      var rest := ReadRows(feeders, ds, n - 1);
      if rest.Err? then rest else
        var attrs := ReadRow(feeders, n - 1);
        if attrs.Err? then Err(attrs.error) else Ok(rest.value[RunningId(ds, n - 1) := attrs.value])
  }

  ghost function StoreOf(record: seq<Field>, n: nat): Result<Store, DynError>
    requires IsRecord(record, n)
  {
    var feeders := FeedersOf(record, n);
    if feeders.Err? then Err(feeders.error) else
      var ids := ParentOf(record, n);
      if ids.None? then Err(ParentIDMissing) else ReadRows(feeders.value, ids.value, n)
  }

  method CreateFeeders(record: seq<Field>, n: nat) returns (r: Result<seq<Feeder>, DynError>, ids: Option<seq<nat>>)
    requires IsRecord(record, n)
    ensures r == FeedersOf(record, n)
    ensures r.Ok? ==> ids == ParentOf(record, n)
  {
    var feeders: seq<Feeder> := [];
    ids := None;
    for i := 0 to |record|
      invariant FeedersOf(record[..i], n) == Ok(feeders) && ids == ParentOf(record[..i], n)
    {
      assert record[..i + 1][..i] == record[..i];
      if record[i].name == PARENT_ID {
        ids := Some(record[i].data.ids);
      } else {
        var f := FeederOf(record[i]);
        if f.Err? {
          FeederErrorIsFinal(record, n, i + 1);
          return Err(f.error), ids;
        }
        feeders := feeders + [f.value];
      }
    }
    assert record[..|record|] == record;
    return Ok(feeders), ids;
  }

  lemma {:induction false} FeederErrorIsFinal(record: seq<Field>, n: nat, i: nat)
    requires IsRecord(record, n) && i <= |record| && FeedersOf(record[..i], n).Err?
    ensures FeedersOf(record, n) == FeedersOf(record[..i], n)
    decreases |record|
  {
    if i < |record| {
      assert record[..|record| - 1][..i] == record[..i];
      FeederErrorIsFinal(record[..|record| - 1], n, i);
    } else {
      assert record[..i] == record;
    }
  }

  method UpdateAttrs(feeders: seq<Feeder>, row: nat) returns (r: Result<seq<Entry>, DynError>)
    requires forall i :: 0 <= i < |feeders| ==> row < |feeders[i].cells|
    ensures r == ReadRow(feeders, row)
  {
    var attrs: seq<Entry> := [];
    for i := 0 to |feeders|
      invariant ReadRow(feeders[..i], row) == Ok(attrs)
    {
      assert feeders[..i + 1][..i] == feeders[..i];
      var cell := feeders[i].cells[row];
      if cell.Some? {
        if IsColumnValue(cell.value) && KindOf(cell.value) == feeders[i].kind {
          attrs := PutEntry(attrs, feeders[i].attrName, cell.value);
        } else {
          RowErrorIsFinal(feeders, row, i + 1);
          return Err(WrongType);
        }
      }
    }
    assert feeders[..|feeders|] == feeders;
    return Ok(attrs);
  }

  lemma {:induction false} RowErrorIsFinal(feeders: seq<Feeder>, row: nat, i: nat)
    requires forall i :: 0 <= i < |feeders| ==> row < |feeders[i].cells|
    requires i <= |feeders| && ReadRow(feeders[..i], row).Err?
    ensures ReadRow(feeders, row) == ReadRow(feeders[..i], row)
    decreases |feeders|
  {
    if i < |feeders| {
      assert feeders[..|feeders| - 1][..i] == feeders[..i];
      RowErrorIsFinal(feeders[..|feeders| - 1], row, i);
    } else {
      assert feeders[..i] == feeders;
    }
  }

  /** The row loop: the running parent id, and the map that the feeders make of each row. */
  method ReadAllRows(feeders: seq<Feeder>, deltas: seq<nat>, n: nat) returns (r: Result<Store, DynError>)
    requires n <= |deltas| && forall j :: 0 <= j < |deltas| ==> deltas[j] < M32
    requires forall i :: 0 <= i < |feeders| ==> n <= |feeders[i].cells|
    ensures r == ReadRows(feeders, deltas, n)
  {
    assert ReadRows(feeders, deltas, 0) == Ok(map[]);
    hide ReadRow, ReadRows, Add, RunningId;
    var store: Store := map[];
    var parentID: nat := 0;
    for row := 0 to n
      invariant row > 0 ==> parentID == RunningId(deltas, row - 1)
      invariant row == 0 ==> parentID == 0
      invariant ReadRows(feeders, deltas, row) == Ok(store)
    {
      ReadRowsNext(feeders, deltas, row);
      parentID := Add(M32, parentID, deltas[row]);
      var attrs := UpdateAttrs(feeders, row);
      if attrs.Err? {
        ReadErrorIsFinal(feeders, deltas, row + 1, n);
        return Err(attrs.error);
      }
      store := store[parentID := attrs.value];
    }
    r := Ok(store);
  }

  method DynAttrsStoreFromRecord(record: seq<Field>, n: nat) returns (r: Result<Store, DynError>)
    requires IsRecord(record, n)
    ensures r == StoreOf(record, n)
  {
    var feeders, ids := CreateFeeders(record, n);
    if feeders.Err? {
      return Err(feeders.error);
    }
    if ids.None? {
      return Err(ParentIDMissing);
    }
    r := ReadAllRows(feeders.value, ids.value, n);
  }

  lemma ReadRowsNext(feeders: seq<Feeder>, ds: seq<nat>, row: nat)
    requires row < |ds| && (forall j :: 0 <= j < |ds| ==> ds[j] < M32)
    requires forall i :: 0 <= i < |feeders| ==> row < |feeders[i].cells|
    ensures RunningId(ds, row) == Add(M32, if row == 0 then 0 else RunningId(ds, row - 1), ds[row])
    ensures var rest, attrs := ReadRows(feeders, ds, row), ReadRow(feeders, row);
            ReadRows(feeders, ds, row + 1) ==
            if rest.Err? then rest
            else if attrs.Err? then Err(attrs.error)
            else Ok(rest.value[RunningId(ds, row) := attrs.value])
  {
    hide Add, ReadRow;
  }

  lemma {:induction false} ReadErrorIsFinal(feeders: seq<Feeder>, ds: seq<nat>, i: nat, n: nat)
    requires i <= n <= |ds| && (forall j :: 0 <= j < |ds| ==> ds[j] < M32)
    requires (forall i :: 0 <= i < |feeders| ==> n <= |feeders[i].cells|) && ReadRows(feeders, ds, i).Err?
    ensures ReadRows(feeders, ds, n) == ReadRows(feeders, ds, i)
  {
    if i < n {
      ReadErrorIsFinal(feeders, ds, i, n - 1);
    }
  }

  // ---------------------------------------------------------------- Round trip

  /** What survives of a map under a key: everything but empty values and empty byte slices. */
  function Kept(es: seq<Entry>, k: string): Option<Value> {
    var v := Get(es, k);
    if v.Some? && (v.value.Empty? || v.value == Bytes([])) then None else v
  }

  lemma {:induction false} SumOfDeltas(prev: nat, ids: seq<nat>, row: nat)
    requires row < |ids| && prev < M32 && forall j :: 0 <= j < |ids| ==> ids[j] < M32
    ensures Deltas(prev, ids)[row] == Sub(M32, ids[row], if row == 0 then prev else ids[row - 1])
    decreases row
  {
    if row > 0 {
      SumOfDeltas(ids[0], ids[1..], row - 1);
    }
  }

  /** Running sums of deltas are the ids, across any number of wrap-arounds. */
  lemma {:induction false} SumsAreIds(ids: seq<nat>, row: nat)
    requires row < |ids| && forall j :: 0 <= j < |ids| ==> ids[j] < M32
    ensures RunningId(Deltas(0, ids), row) == ids[row]
  {
    SumOfDeltas(0, ids, row);
    if row > 0 {
      SumsAreIds(ids, row - 1);
    }
  }

  /** The key of a column, read off its name. */
  function KeyOf(c: Column): string {
    var name := AttrName(c.name, c.kind);
    if name.Some? then name.value else ""
  }

  lemma KeyOfColumn(c: Column)
    requires WellNamed(c)
    ensures c.name == ColName(KeyOf(c), c.kind) && AttrName(c.name, c.kind) == Some(KeyOf(c))
    ensures FeederType(MetaType(c.kind)) == Some(c.kind) && c.name != PARENT_ID
  {
    var k :| c.name == ColName(k, c.kind);
    AttrNameOfColName(k, c.kind);
  }

  function ColumnFeeder(c: Column, rows: seq<Appended>): (f: Feeder)
    ensures |f.cells| == |rows|
  {
    Feeder(KeyOf(c), c.kind, History(rows, c.name))
  }

  function ColumnFeeders(columns: seq<Column>, rows: seq<Appended>): (fs: seq<Feeder>)
    ensures |fs| == |columns|
    ensures forall i :: 0 <= i < |fs| ==> fs[i] == ColumnFeeder(columns[i], rows)
  {
    seq(|columns|, i requires 0 <= i < |columns| => ColumnFeeder(columns[i], rows))
  }

  lemma RecordOfIsRecord(record: seq<Field>, colIdx: map<string, nat>, columns: seq<Column>, rows: seq<Appended>)
    requires RecordOf(record, colIdx, columns, rows)
    ensures IsRecord(record, |rows|)
  {
    hide History, ColName;
    assert forall j :: 0 <= j < |IdsOf(rows)| ==> IdsOf(rows)[j] < M32;
    forall i | 0 < i < |record|
      ensures record[i].name != PARENT_ID && record[i].data.AttrCells? && |record[i].data.cells| == |rows|
    {
      KeyOfColumn(columns[i - 1]);
      assert record[(i - 1) + 1] == Field(columns[i - 1].name, Some(MetaType(columns[i - 1].kind)),
          AttrCells(History(rows, columns[i - 1].name)));
    }
  }

  lemma FeederOfColumn(c: Column, rows: seq<Appended>)
    requires WellNamed(c)
    ensures c.name != PARENT_ID
    ensures FeederOf(Field(c.name, Some(MetaType(c.kind)), AttrCells(History(rows, c.name))))
        == Ok(ColumnFeeder(c, rows))
  {
    hide History, ColName;
    KeyOfColumn(c);
  }

  lemma RecordParts(record: seq<Field>, colIdx: map<string, nat>, columns: seq<Column>, rows: seq<Appended>)
    requires RecordOf(record, colIdx, columns, rows)
    ensures |record| == |columns| + 1 && record[0] == Field(PARENT_ID, None, IdCells(Deltas(0, IdsOf(rows))))
    ensures forall i :: 0 <= i < |columns| ==> WellNamed(columns[i])
    ensures forall i :: 0 <= i < |columns| ==>
              record[i + 1]
                  == Field(columns[i].name, Some(MetaType(columns[i].kind)), AttrCells(History(rows, columns[i].name)))
  {
  }

  lemma FeedersNext(columns: seq<Column>, rows: seq<Appended>, n: nat)
    requires n < |columns|
    ensures ColumnFeeders(columns[..n + 1], rows)
        == ColumnFeeders(columns[..n], rows) + [ColumnFeeder(columns[n], rows)]
  {
    hide ColumnFeeder;
  }

  /** A record that Build made has one feeder per column, and the delta column as its parent ids. */
  lemma {:induction false} FeedersOfRecord(record: seq<Field>, colIdx: map<string, nat>, columns: seq<Column>,
      rows: seq<Appended>, n: nat)
    requires RecordOf(record, colIdx, columns, rows) && n < |record|
    requires IsRecord(record[..n + 1], |rows|)
    ensures FeedersOf(record[..n + 1], |rows|) == Ok(ColumnFeeders(columns[..n], rows))
    ensures ParentOf(record[..n + 1], |rows|) == Some(Deltas(0, IdsOf(rows)))
  {
    RecordParts(record, colIdx, columns, rows);
    hide RecordOf, History, Deltas, MetaType, ColumnFeeder, FeederOf, IdsOf;
    assert record[..n + 1][..n] == record[..n] && record[..n + 1][n] == record[n];
    if n == 0 {
      assert FeedersOf(record[..0], |rows|) == Ok([]);
      assert ColumnFeeders(columns[..0], rows) == [];
    } else {
      IsRecordPrefix(record, n, n + 1, |rows|);
      FeedersOfRecord(record, colIdx, columns, rows, n - 1);
      var c := columns[n - 1];
      FeederOfColumn(c, rows);
      FeedersNext(columns, rows, n - 1);
      assert record[(n - 1) + 1] == Field(c.name, Some(MetaType(c.kind)), AttrCells(History(rows, c.name)));
      hide IsRecord, WellNamed, ColumnFeeders;
    }
  }

  lemma IsRecordPrefix(record: seq<Field>, i: nat, n: nat, len: nat)
    requires i <= n <= |record| && IsRecord(record[..n], len)
    ensures IsRecord(record[..i], len)
  {
    forall j | 0 <= j < i ensures record[..i][j] == record[..n][j] {
    }
  }

  lemma EntryNamesCell(es: seq<Entry>, k: string, t: Kind)
    requires Get(es, k).Some? && IsColumnValue(Get(es, k).value) && KindOf(Get(es, k).value) == t
    ensures CellIn(es, ColName(k, t)).Some?
  {
    CellInSome(es, ColName(k, t));
    hide ColName;
    var i := IndexOf(es, k);
    assert Named(es[i], ColName(k, t));
  }

  /** The one attribute that can put a value into a column is the entry under the column's key. */
  lemma {:induction false} CellIsEntry(es: seq<Entry>, k: string, t: Kind)
    requires Appendable(es)
    ensures var cell := NullOr(CellIn(es, ColName(k, t)));
            && (cell.Some? ==> Kept(es, k) == cell && IsColumnValue(cell.value) && KindOf(cell.value) == t)
            && (cell.None? && Kept(es, k).Some? ==> KindOf(Kept(es, k).value) != t)
  {
    var name := ColName(k, t);
    CellInSome(es, name);
    if CellIn(es, name).Some? {
      var i := CellAtIndex(es, name);
      ColNameInjective(es[i].key, KindOf(es[i].value), k, t);
      GetAt(es, i);
    } else if Get(es, k).Some? && IsColumnValue(Get(es, k).value) && KindOf(Get(es, k).value) == t {
      EntryNamesCell(es, k, t);
    }
    if Kept(es, k).Some? {
      var i := IndexOf(es, k);
    }
  }

  lemma {:induction false} CellAtIndex(es: seq<Entry>, name: string) returns (i: nat)
    requires CellIn(es, name).Some?
    ensures i < |es| && Named(es[i], name) && CellIn(es, name) == Some(Cell(es[i].value))
  {
    if Named(es[|es| - 1], name) {
      i := |es| - 1;
    } else {
      i := CellAtIndex(es[..|es| - 1], name);
    }
  }

  /** acc holds only what survives of es. */
  ghost predicate PartOf(acc: seq<Entry>, es: seq<Entry>) {
    DistinctKeys(acc) && forall k :: Get(acc, k).Some? ==> Get(acc, k) == Kept(es, k)
  }

  lemma PutKept(acc: seq<Entry>, es: seq<Entry>, key: string, v: Value)
    requires PartOf(acc, es) && Kept(es, key) == Some(v)
    ensures PartOf(PutEntry(acc, key, v), es) && Get(PutEntry(acc, key, v), key).Some?
    ensures forall k :: Get(acc, k).Some? ==> Get(PutEntry(acc, key, v), k).Some?
  {
    PutEntryMeaning(acc, key, v);
    hide Kept, Get, PutEntry;
  }

  /** One row, read from the first n columns. */
  ghost function ReadColumns(columns: seq<Column>, rows: seq<Appended>, row: nat, n: nat): Result<seq<Entry>, DynError>
    requires row < |rows| && n <= |columns|
  {
    ReadRow(ColumnFeeders(columns[..n], rows), row)
  }

  lemma ReadColumnsNext(columns: seq<Column>, rows: seq<Appended>, row: nat, n: nat)
    requires row < |rows| && n < |columns|
    ensures var rest, cell := ReadColumns(columns, rows, row, n), History(rows, columns[n].name)[row];
            ReadColumns(columns, rows, row, n + 1) ==
            if rest.Err? || cell.None? then rest
            else if IsColumnValue(cell.value) && KindOf(cell.value) == columns[n].kind
            then Ok(PutEntry(rest.value, KeyOf(columns[n]), cell.value)) else Err(WrongType)
  {
    var fs := ColumnFeeders(columns[..n + 1], rows);
    assert fs[..n] == ColumnFeeders(columns[..n], rows);
    hide History, KeyOf, PutEntry, KindOf, IsColumnValue;
  }

  /** The first n columns of a row give what survives of its map, for the keys they carry. */
  ghost predicate RowRead(columns: seq<Column>, rows: seq<Appended>, row: nat, n: nat, attrs: seq<Entry>)
    requires row < |rows| && n <= |columns|
  {
    && PartOf(attrs, rows[row].attrs)
    && forall i :: 0 <= i < n && History(rows, columns[i].name)[row].Some? ==> Get(attrs, KeyOf(columns[i])).Some?
  }

  lemma {:induction false} ReadRowMeaning(columns: seq<Column>, rows: seq<Appended>, row: nat, n: nat)
    requires row < |rows| && n <= |columns| && Appendable(rows[row].attrs)
    requires forall i :: 0 <= i < |columns| ==> WellNamed(columns[i])
    ensures var r := ReadColumns(columns, rows, row, n); r.Ok? && RowRead(columns, rows, row, n, r.value)
  {
    ReadNoColumns(columns, rows, row);
    hide ColName, AttrName, KeyOf, History, CellIn, Kept, WellNamed, ReadColumns, PartOf, Get, RowRead;
    if n > 0 {
      var c, es := columns[n - 1], rows[row].attrs;
      ReadRowMeaning(columns, rows, row, n - 1);
      ReadColumnsNext(columns, rows, row, n - 1);
      KeyOfColumn(c);
      HistoryAt(rows, c.name, row);
      CellIsEntry(es, KeyOf(c), c.kind);
      RowReadNext(columns, rows, row, n - 1, ReadColumns(columns, rows, row, n - 1).value);
    }
  }

  lemma ReadNoColumns(columns: seq<Column>, rows: seq<Appended>, row: nat)
    requires row < |rows|
    ensures ReadColumns(columns, rows, row, 0) == Ok([]) && RowRead(columns, rows, row, 0, [])
  {
    hide KeyOf, History;
    NothingIsPart(rows[row].attrs);
  }

  lemma RowReadNext(columns: seq<Column>, rows: seq<Appended>, row: nat, n: nat, attrs: seq<Entry>)
    requires row < |rows| && n < |columns| && RowRead(columns, rows, row, n, attrs)
    requires var cell := History(rows, columns[n].name)[row];
        cell.Some? ==> Kept(rows[row].attrs, KeyOf(columns[n])) == cell
    ensures var cell := History(rows, columns[n].name)[row];
            RowRead(columns, rows, row, n + 1,
                    if cell.None? then attrs else PutEntry(attrs, KeyOf(columns[n]), cell.value))
  {
    hide KeyOf, History, PartOf, Get, Kept;
    var cell := History(rows, columns[n].name)[row];
    if cell.Some? {
      PutKept(attrs, rows[row].attrs, KeyOf(columns[n]), cell.value);
    }
  }

  lemma NothingIsPart(es: seq<Entry>)
    ensures PartOf([], es)
  {
  }

  /** So a whole row gives back exactly what survives of its map. */
  lemma ReadWholeRow(colIdx: map<string, nat>, columns: seq<Column>, rows: seq<Appended>, row: nat)
    requires row < |rows| && Appendable(rows[row].attrs) && Indexes(colIdx, columns) && Covers(colIdx, rows)
    requires forall i :: 0 <= i < |columns| ==> WellNamed(columns[i])
    ensures var r := ReadColumns(columns, rows, row, |columns|);
            r.Ok? && Restores(r.value, rows[row].attrs)
  {
    var es := rows[row].attrs;
    ReadRowMeaning(columns, rows, row, |columns|);
    hide ReadColumns;
    var r := ReadColumns(columns, rows, row, |columns|);
    forall k ensures Get(r.value, k) == Kept(es, k) {
      if Kept(es, k).Some? {
        var i := IndexOf(es, k);
        var t := KindOf(es[i].value);
        CellIsEntry(es, k, t);
        var c := columns[colIdx[ColName(k, t)]];
        HistoryAt(rows, c.name, row);
        KeyOfColumn(c);
        ColNameInjective(KeyOf(c), c.kind, k, t);
      }
    }
  }

  /** Under every key exactly what survives of the map. */
  ghost predicate Restores(attrs: seq<Entry>, es: seq<Entry>) {
    DistinctKeys(attrs) && forall k :: Get(attrs, k) == Kept(es, k)
  }

  /** Row i is the last of the first n rows with its id. */
  predicate IsLast(rows: seq<Appended>, i: nat, n: nat)
    requires i < n <= |rows|
  {
    forall j :: i < j < n ==> rows[j].id != rows[i].id
  }

  predicate IsParent(rows: seq<Appended>, id: nat, n: nat)
    requires n <= |rows|
  {
    exists i :: 0 <= i < n && rows[i].id == id
  }

  /** What the store should hold after the first n rows: for every id, its last row. */
  ghost predicate Holds(store: Store, rows: seq<Appended>, n: nat)
    requires n <= |rows|
  {
    && (forall id :: id in store ==> IsParent(rows, id, n))
    && (forall i :: 0 <= i < n && IsLast(rows, i, n) ==>
        rows[i].id in store && Restores(store[rows[i].id], rows[i].attrs))
  }

  lemma ParentNext(rows: seq<Appended>, id: nat, n: nat)
    requires n < |rows| && (IsParent(rows, id, n) || id == rows[n].id)
    ensures IsParent(rows, id, n + 1)
  {
  }

  lemma HoldsNext(store: Store, rows: seq<Appended>, n: nat, attrs: seq<Entry>)
    requires n < |rows| && Holds(store, rows, n) && Restores(attrs, rows[n].attrs)
    ensures Holds(store[rows[n].id := attrs], rows, n + 1)
  {
    hide Restores, IsParent;
    var after := store[rows[n].id := attrs];
    forall i | 0 <= i < n + 1 && IsLast(rows, i, n + 1)
      ensures rows[i].id in after && Restores(after[rows[i].id], rows[i].attrs)
    {
      if i < n {
        assert IsLast(rows, i, n) && rows[n].id != rows[i].id;
      }
    }
    hide IsLast;
    forall id | id in after ensures IsParent(rows, id, n + 1) {
      ParentNext(rows, id, n);
    }
  }

  predicate IdsFit(rows: seq<Appended>) {
    forall i :: 0 <= i < |rows| ==> rows[i].id < M32
  }

  ghost function ReadBack(columns: seq<Column>, rows: seq<Appended>, n: nat): Result<Store, DynError>
    requires n <= |rows| && IdsFit(rows)
  {
    ReadRows(ColumnFeeders(columns, rows), Deltas(0, IdsOf(rows)), n)
  }

  lemma ReadNothingBack(columns: seq<Column>, rows: seq<Appended>)
    requires IdsFit(rows)
    ensures ReadBack(columns, rows, 0) == Ok(map[]) && Holds(map[], rows, 0)
  {
    hide Restores, IdsFit;
  }

  lemma ReadBackNext(columns: seq<Column>, rows: seq<Appended>, n: nat)
    requires n < |rows| && IdsFit(rows)
    ensures var rest, attrs := ReadBack(columns, rows, n), ReadColumns(columns, rows, n, |columns|);
            ReadBack(columns, rows, n + 1) ==
            if rest.Err? then rest
            else if attrs.Err? then Err(attrs.error)
            else Ok(rest.value[rows[n].id := attrs.value])
  {
    assert columns[..|columns|] == columns;
    SumsAreIds(IdsOf(rows), n);
    ReadRowsNext(ColumnFeeders(columns, rows), Deltas(0, IdsOf(rows)), n);
    hide ReadRows, ReadRow, RunningId;
  }

  lemma {:induction false} ReadRowsHolds(colIdx: map<string, nat>, columns: seq<Column>, rows: seq<Appended>, n: nat)
    requires n <= |rows| && Indexes(colIdx, columns) && Covers(colIdx, rows) && IdsFit(rows)
    requires forall i :: 0 <= i < |columns| ==> WellNamed(columns[i])
    requires forall i :: 0 <= i < |rows| ==> Appendable(rows[i].attrs)
    ensures var r := ReadBack(columns, rows, n); r.Ok? && Holds(r.value, rows, n)
  {
    hide ReadBack, ReadColumns, Covers, Indexes, WellNamed, Appendable, Restores, Holds, IdsFit;
    if n == 0 {
      ReadNothingBack(columns, rows);
    } else {
      ReadRowsHolds(colIdx, columns, rows, n - 1);
      ReadWholeRow(colIdx, columns, rows, n - 1);
      ReadBackNext(columns, rows, n - 1);
      HoldsNext(ReadBack(columns, rows, n - 1).value, rows, n - 1, ReadColumns(columns, rows, n - 1, |columns|).value);
    }
  }

  /** The dynamic-column round trip: from any record that Build makes, whatever batches went before,
      the store has exactly the parents of this batch and, for each, exactly what survives of the map
      it was last appended with, including columns first seen mid-batch and columns carried over. */
  lemma DynRoundTrip(record: seq<Field>, colIdx: map<string, nat>, columns: seq<Column>, rows: seq<Appended>)
    requires RecordOf(record, colIdx, columns, rows)
    requires forall i :: 0 <= i < |rows| ==> Appendable(rows[i].attrs)
    ensures IsRecord(record, |rows|) && StoreOf(record, |rows|).Ok?
    ensures Holds(StoreOf(record, |rows|).value, rows, |rows|)
  {
    RecordOfIsRecord(record, colIdx, columns, rows);
    assert record[..|record|] == record && columns[..|columns|] == columns;
    FeedersOfRecord(record, colIdx, columns, rows, |columns|);
    ReadRowsHolds(colIdx, columns, rows, |rows|);
  }

  /** These attributes are that map, its empty values aside. */
  ghost predicate LosesOnlyEmpty(attrs: seq<Entry>, es: seq<Entry>) {
    forall k :: Get(attrs, k) == if Get(es, k) == Some(Empty) then None else Get(es, k)
  }

  predicate HasEmptyBytes(es: seq<Entry>) {
    exists i :: 0 <= i < |es| && es[i].value == Bytes([])
  }

  lemma KeptAllIff(attrs: seq<Entry>, es: seq<Entry>)
    requires Appendable(es) && Restores(attrs, es)
    ensures LosesOnlyEmpty(attrs, es) <==> !HasEmptyBytes(es)
  {
    forall i | 0 <= i < |es| ensures Get(es, es[i].key) == Some(es[i].value) {
      GetAt(es, i);
    }
    if HasEmptyBytes(es) {
      var i :| 0 <= i < |es| && es[i].value == Bytes([]);
      assert Kept(es, es[i].key).None?;
    } else {
      forall k ensures Get(attrs, k) == if Get(es, k) == Some(Empty) then None else Get(es, k) {
        if Get(es, k).Some? {
          var i := IndexOf(es, k);
        }
      }
    }
  }

  /** The store has the map a parent was last appended with, but for its empty values, exactly when
      that map holds no empty byte slice. */
  lemma NothingLostIff(store: Store, rows: seq<Appended>, i: nat)
    requires i < |rows| && Holds(store, rows, |rows|) && IsLast(rows, i, |rows|) && Appendable(rows[i].attrs)
    ensures rows[i].id in store
    ensures LosesOnlyEmpty(store[rows[i].id], rows[i].attrs) <==> !HasEmptyBytes(rows[i].attrs)
  {
    hide Appendable, Restores, LosesOnlyEmpty, HasEmptyBytes, IsLast;
    KeptAllIff(store[rows[i].id], rows[i].attrs);
  }

  /** The rows a batch adds: maps with nothing but empty values are passed over. */
  function Recorded(batch: seq<Appended>): seq<Appended> {
    if batch == [] then []
    else
      var last := batch[|batch| - 1];
      Recorded(batch[..|batch| - 1]) + (if AllEmpty(last.attrs) then [] else [last])
  }

  lemma {:induction false} RecordedIff(batch: seq<Appended>, row: Appended)
    ensures row in Recorded(batch) <==> row in batch && !AllEmpty(row.attrs)
  {
    if batch != [] {
      RecordedIff(batch[..|batch| - 1], row);
      assert batch == batch[..|batch| - 1] + [batch[|batch| - 1]];
    }
  }

  predicate DistinctIds(rows: seq<Appended>) {
    forall i, j :: 0 <= i < j < |rows| ==> rows[i].id != rows[j].id
  }

  lemma {:induction false} RecordedDistinct(batch: seq<Appended>)
    requires DistinctIds(batch)
    ensures DistinctIds(Recorded(batch))
  {
    if batch != [] {
      var n := |batch| - 1;
      RecordedDistinct(batch[..n]);
      forall i | 0 <= i < |Recorded(batch[..n])| ensures Recorded(batch[..n])[i].id != batch[n].id {
        var row := Recorded(batch[..n])[i];
        RecordedIff(batch[..n], row);
        var j :| 0 <= j < n && batch[..n][j] == row;
      }
    }
  }

  /** What the store has for a parent, which is nothing when it does not know the parent. */
  function Stored(store: Store, id: nat): seq<Entry> {
    if id in store then store[id] else []
  }

  ghost predicate Intact(store: Store, row: Appended) {
    LosesOnlyEmpty(Stored(store, row.id), row.attrs)
  }

  lemma RowIntactIff(store: Store, batch: seq<Appended>, i: nat)
    requires i < |batch| && DistinctIds(batch) && Appendable(batch[i].attrs)
    requires Holds(store, Recorded(batch), |Recorded(batch)|)
    ensures Intact(store, batch[i]) <==> !HasEmptyBytes(batch[i].attrs)
  {
    var row, rows := batch[i], Recorded(batch);
    RecordedIff(batch, row);
    RecordedDistinct(batch);
    if AllEmpty(row.attrs) {
      if row.id in store {
        var j :| 0 <= j < |rows| && rows[j].id == row.id;
        RecordedIff(batch, rows[j]);
        assert false;
      }
      forall k | Get(row.attrs, k).Some? ensures Get(row.attrs, k) == Some(Empty) {
        var j := IndexOf(row.attrs, k);
      }
    } else {
      var j :| 0 <= j < |rows| && rows[j] == row;
      hide Recorded, Appendable, Holds, LosesOnlyEmpty, HasEmptyBytes;
      assert IsLast(rows, j, |rows|);
      NothingLostIff(store, rows, j);
    }
  }

  /** A batch of different parents is read back without loss exactly when it has no empty byte slice. */
  ghost predicate LossIff(store: Store, batch: seq<Appended>) {
    (forall i :: 0 <= i < |batch| ==> Intact(store, batch[i]))
    <==> forall i :: 0 <= i < |batch| ==> !HasEmptyBytes(batch[i].attrs)
  }

  lemma BatchLossIff(store: Store, batch: seq<Appended>)
    requires DistinctIds(batch) && forall i :: 0 <= i < |batch| ==> Appendable(batch[i].attrs)
    requires Holds(store, Recorded(batch), |Recorded(batch)|)
    ensures LossIff(store, batch)
  {
    hide Recorded, Appendable, Holds, Intact, HasEmptyBytes, DistinctIds;
    forall i | 0 <= i < |batch| ensures Intact(store, batch[i]) <==> !HasEmptyBytes(batch[i].attrs) {
      RowIntactIff(store, batch, i);
    }
  }

  /** One batch through a builder that any earlier batches have left behind: it always loads. */
  method WriteThenRead(b: DynAttrsBuilder, batch: seq<Appended>) returns (r: Result<Store, DynError>)
    requires b.Valid() && b.rows == []
    requires forall i :: 0 <= i < |batch| ==> batch[i].id < M32 && Appendable(batch[i].attrs)
    modifies b
    ensures b.Valid() && b.rows == []
    ensures r.Ok? && Holds(r.value, Recorded(batch), |Recorded(batch)|)
    ensures DistinctIds(batch) ==> LossIff(r.value, batch)
  {
    hide LossIff, DistinctIds, Appendable, AllEmpty, Holds, StoreOf, IsRecord, RecordOf, Loading, Attached;
    for i := 0 to |batch|
      invariant b.Valid() && b.rows == Recorded(batch[..i])
    {
      assert batch[..i + 1][..i] == batch[..i];
      b.Append(batch[i].id, batch[i].attrs);
    }
    assert batch[..|batch|] == batch;
    ghost var rows := b.rows;
    var rowCount := |b.parentIDs|;
    RowsAreAppendable(batch);
    var record := b.Build();
    DynRoundTrip(record, b.colIdx, b.columns, rows);
    r := DynAttrsStoreFromRecord(record, rowCount);
    if DistinctIds(batch) {
      BatchLossIff(r.value, batch);
    }
  }

  lemma {:induction false} RowsAreAppendable(batch: seq<Appended>)
    requires forall i :: 0 <= i < |batch| ==> Appendable(batch[i].attrs)
    ensures forall i :: 0 <= i < |Recorded(batch)| ==> Appendable(Recorded(batch)[i].attrs)
  {
    if batch != [] {
      RowsAreAppendable(batch[..|batch| - 1]);
    }
  }
}
