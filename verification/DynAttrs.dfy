/** Attributes pivoted into one column per (key, type), reused over many batches, and pivoted back. */
module DynAttrs {
  import opened Wrappers
  import opened Values
  import opened Sorting
  import opened GroupDelta

  // ---------------------------------------------------------------- Column names

  /** The Go column types.  Map and slice columns are not implemented by the code. */
  datatype Kind = KBool | KInt | KDouble | KStr | KBytes

  predicate IsColumnValue(v: Value) {
    v.Bool? || v.Int? || v.Double? || v.Str? || v.Bytes?
  }

  function KindOf(v: Value): Kind
    requires IsColumnValue(v)
  {
    match v
    case Bool(_) => KBool
    case Int(_) => KInt
    case Double(_) => KDouble
    case Str(_) => KStr
    case Bytes(_) => KBytes
  }

  function TypeName(t: Kind): string {
    match t
    case KBool => "bool"
    case KInt => "i64"
    case KDouble => "f64"
    case KStr => "str"
    case KBytes => "bytes"
  }

  function MetaType(t: Kind): string {
    match t
    case KBool => "bool"
    case KInt => "i64_dict"
    case KDouble => "f64"
    case KStr => "str_dict"
    case KBytes => "bytes_dict"
  }

  function ColName(k: string, t: Kind): string {
    k + "_" + TypeName(t)
  }

  const PARENT_ID := "parent_id"

  predicate HasSuffix(s: string, suffix: string) {
    |suffix| <= |s| && s[|s| - |suffix|..] == suffix
  }

  function TrimSuffix(s: string, suffix: string): string {
    if HasSuffix(s, suffix) then s[..|s| - |suffix|] else s
  }

  /** The metadata types a reader exists for, with the name each column of that type ends in. */
  function FeederType(mType: string): Option<Kind> {
    if mType == "bool" then Some(KBool)
    else if mType == "i64" || mType == "i64_dict" then Some(KInt)
    else if mType == "f64" then Some(KDouble)
    else if mType == "str" || mType == "str_dict" then Some(KStr)
    else if mType == "bytes" || mType == "bytes_dict" then Some(KBytes)
    else None
  }

  function AttrName(fieldName: string, t: Kind): Option<string> {
    if HasSuffix(fieldName, "_" + TypeName(t)) then Some(TrimSuffix(fieldName, "_" + TypeName(t))) else None
  }

  lemma NoUnderscore(t: Kind)
    ensures '_' !in TypeName(t)
  {
  }

  lemma TypeNamesDiffer(t: Kind, u: Kind)
    requires t != u
    ensures TypeName(t) != TypeName(u)
  {
    assert TypeName(t)[0] != TypeName(u)[0] || TypeName(t)[1] != TypeName(u)[1];
  }

  lemma UnderscoreInside(k: string, t: Kind, l: string, u: Kind)
    requires ColName(k, t) == ColName(l, u) && |TypeName(t)| < |TypeName(u)|
    ensures '_' in TypeName(u)
  {
    hide TypeName;
    var name := ColName(k, t);
    var a, b := |TypeName(t)|, |TypeName(u)|;
    assert name[|name| - 1 - a] == '_';
    assert name[|name| - 1 - a] == TypeName(u)[b - 1 - a];
  }

  lemma SplitName(k: string, t: Kind)
    ensures var name, n := ColName(k, t), |TypeName(t)|;
        name[|name| - n..] == TypeName(t) && name[..|name| - n - 1] == k
  {
    hide TypeName;
  }

  /** A column name determines the key and the type, whatever underscores the key contains. */
  lemma ColNameInjective(k: string, t: Kind, l: string, u: Kind)
    requires ColName(k, t) == ColName(l, u)
    ensures k == l && t == u
  {
    NoUnderscore(t);
    NoUnderscore(u);
    hide TypeName;
    if |TypeName(t)| < |TypeName(u)| {
      UnderscoreInside(k, t, l, u);
    } else if |TypeName(u)| < |TypeName(t)| {
      UnderscoreInside(l, u, k, t);
    } else {
      SplitName(k, t);
      SplitName(l, u);
      if t != u {
        TypeNamesDiffer(t, u);
      }
    }
  }

  lemma EndsDiffer(a: string, b: string)
    requires |a| >= 2 && |b| >= 2 && (a[|a| - 1] != b[|b| - 1] || a[|a| - 2] != b[|b| - 2])
    ensures a != b
  {
  }

  /** Reading a field's name back gives the key, and no column is mistaken for the parent id. */
  lemma AttrNameOfColName(k: string, t: Kind)
    ensures FeederType(MetaType(t)) == Some(t)
    ensures AttrName(ColName(k, t), t) == Some(k)
    ensures ColName(k, t) != PARENT_ID
  {
    var name := ColName(k, t);
    assert name == k + ("_" + TypeName(t));
    assert name[|k|..] == "_" + TypeName(t) && name[..|k|] == k;
    assert name[|name| - 1] == TypeName(t)[|TypeName(t)| - 1];
    assert name[|name| - 2] == TypeName(t)[|TypeName(t)| - 2];
    EndsDiffer(name, PARENT_ID);
  }

  // ---------------------------------------------------------------- What the columns should hold

  /** A batch row: the parent and the attributes it was appended with. */
  datatype Appended = Appended(id: nat, attrs: seq<Entry>)

  /** An empty byte slice is a nil slice, which is written as a null. */
  function Cell(v: Value): Option<Value> {
    if v == Bytes([]) then None else Some(v)
  }

  predicate Named(e: Entry, name: string) {
    IsColumnValue(e.value) && ColName(e.key, KindOf(e.value)) == name
  }

  /** The cell an attribute map puts in the column of this name, if it has an attribute for it. */
  function CellIn(es: seq<Entry>, name: string): Option<Option<Value>> {
    if es == [] then None
    else if Named(es[|es| - 1], name) then Some(Cell(es[|es| - 1].value))
    else CellIn(es[..|es| - 1], name)
  }

  function NullOr(c: Option<Option<Value>>): Option<Value> {
    if c.Some? then c.value else None
  }

  /** A whole column, back-filled with nulls from the first row of the batch. */
  function History(rows: seq<Appended>, name: string): (h: seq<Option<Value>>)
    ensures |h| == |rows|
  {
    if rows == [] then [] else
      History(rows[..|rows| - 1], name) + [NullOr(CellIn(rows[|rows| - 1].attrs, name))]
  }

  /** A map that Append accepts: unique keys, and neither map nor slice values. */
  ghost predicate Appendable(es: seq<Entry>) {
    DistinctKeys(es) && forall i :: 0 <= i < |es| ==> es[i].value.Empty? || IsColumnValue(es[i].value)
  }

  predicate AllEmpty(es: seq<Entry>) {
    forall i :: 0 <= i < |es| ==> es[i].value.Empty?
  }

  lemma {:induction false} CellInSome(es: seq<Entry>, name: string)
    ensures CellIn(es, name).Some? <==> exists i :: 0 <= i < |es| && Named(es[i], name)
  {
    if es != [] {
      var init := es[..|es| - 1];
      CellInSome(init, name);
      if i :| 0 <= i < |es| && Named(es[i], name) {
        assert i < |es| - 1 ==> init[i] == es[i];
      }
      if i :| 0 <= i < |init| && Named(init[i], name) {
        assert Named(es[i], name);
      }
    }
  }

  lemma {:induction false} HistoryOfUnseen(rows: seq<Appended>, name: string)
    requires forall i :: 0 <= i < |rows| ==> CellIn(rows[i].attrs, name).None?
    ensures History(rows, name) == seq(|rows|, _ => None)
  {
    if rows != [] {
      HistoryOfUnseen(rows[..|rows| - 1], name);
    }
  }

  lemma {:induction false} HistoryAt(rows: seq<Appended>, name: string, i: nat)
    requires i < |rows|
    ensures History(rows, name)[i] == NullOr(CellIn(rows[i].attrs, name))
  {
    if i < |rows| - 1 {
      HistoryAt(rows[..|rows| - 1], name, i);
    }
  }

  // ---------------------------------------------------------------- The builder

  /** slot is the record-builder column that SetBuilder attached. */
  datatype Column = Column(name: string, kind: Kind, values: seq<Option<Value>>, slot: nat)

  datatype Cells = IdCells(ids: seq<nat>) | AttrCells(cells: seq<Option<Value>>)

  datatype Field = Field(name: string, meta: Option<string>, data: Cells)

  predicate ByName(a: Column, b: Column) {
    CompareStrings(a.name, b.name) < 0
  }

  predicate SameNames(a: seq<Column>, b: seq<Column>) {
    |a| == |b| && forall i :: 0 <= i < |a| ==> a[i].name == b[i].name && a[i].kind == b[i].kind
  }

  lemma ByNameIsWeakOrder(s: seq<Column>)
    ensures WeakOrderOn(s, ByName)
  {
    forall a, b, c | a in s && b in s && c in s
      ensures ByName(a, b) ==> !ByName(b, a)
      ensures ByName(a, c) ==> ByName(a, b) || ByName(b, c)
    {
      StringLess(a.name, b.name, c.name);
    }
  }

  /** Every column's name before those of the columns after it. */
  ghost predicate NamesInOrder(columns: seq<Column>) {
    forall i, j :: 0 <= i < j < |columns| ==>
        columns[i].name == columns[j].name || StringBefore(columns[i].name, columns[j].name)
  }

  lemma SortedNamesInOrder(columns: seq<Column>)
    requires Sorted(columns, ByName)
    ensures NamesInOrder(columns)
  {
    hide CompareStrings, StringBefore;
    forall i, j | 0 <= i < j < |columns|
      ensures columns[i].name == columns[j].name || StringBefore(columns[i].name, columns[j].name)
    {
      assert !ByName(columns[j], columns[i]);
      StringsInOrder(columns[i].name, columns[j].name);
      StringOrder(columns[i].name, columns[j].name, columns[i].name);
    }
  }

  lemma SortedByNames(a: seq<Column>, b: seq<Column>)
    requires Sorted(a, ByName) && SameNames(b, a)
    ensures Sorted(b, ByName)
  {
    forall i, j | 0 <= i < j < |b| ensures !ByName(b[j], b[i]) {
      assert !ByName(a[j], a[i]);
    }
  }

  /** colIdx is the exact inverse of the column list. */
  ghost predicate Indexes(colIdx: map<string, nat>, columns: seq<Column>) {
    && (forall i :: 0 <= i < |columns| ==> columns[i].name in colIdx && colIdx[columns[i].name] == i)
    && (forall n :: n in colIdx ==> colIdx[n] < |columns| && columns[colIdx[n]].name == n)
  }

  /** Every attribute of these rows has a column. */
  ghost predicate Covers(colIdx: map<string, nat>, rows: seq<Appended>) {
    forall i, n :: 0 <= i < |rows| && CellIn(rows[i].attrs, n).Some? ==> n in colIdx
  }

  ghost predicate WellNamed(c: Column) {
    exists k :: c.name == ColName(k, c.kind)
  }

  /** The record builder has one column per attribute column, in the same order. */
  ghost predicate Attached(columns: seq<Column>, fields: seq<(string, string)>) {
    |fields| == |columns|
    && forall i :: 0 <= i < |columns| ==>
        fields[i] == (columns[i].name, MetaType(columns[i].kind)) && columns[i].slot == i
  }

  function FieldsOf(columns: seq<Column>): (fs: seq<(string, string)>)
    ensures |fs| == |columns|
    ensures forall i :: 0 <= i < |columns| ==> fs[i] == (columns[i].name, MetaType(columns[i].kind))
  {
    seq(|columns|, i requires 0 <= i < |columns| => (columns[i].name, MetaType(columns[i].kind)))
  }

  function RecordFields(fields: seq<(string, string)>, built: seq<seq<Option<Value>>>): (r: seq<Field>)
    requires |fields| == |built|
    ensures |r| == |fields|
    ensures forall i :: 0 <= i < |r| ==> r[i] == Field(fields[i].0, Some(fields[i].1), AttrCells(built[i]))
  {
    seq(|fields|, i requires 0 <= i < |fields| => Field(fields[i].0, Some(fields[i].1), AttrCells(built[i])))
  }

  ghost function Tail(c: Option<Option<Value>>): seq<Option<Value>> {
    if c.Some? then [c.value] else []
  }

  /** A column while one map is being appended: its history, and this map's cell if already seen. */
  ghost predicate PartlyFilled(c: Column, rows: seq<Appended>, done: seq<Entry>) {
    WellNamed(c) && c.values == History(rows, c.name) + Tail(CellIn(done, c.name))
  }

  /** All columns, when the entries done of the current map have been appended. */
  ghost predicate Loading(colIdx: map<string, nat>, columns: seq<Column>, rows: seq<Appended>, done: seq<Entry>) {
    && Indexes(colIdx, columns) && Covers(colIdx, rows)
    && (forall n :: CellIn(done, n).Some? ==> n in colIdx)
    && (forall i :: 0 <= i < |columns| ==> PartlyFilled(columns[i], rows, done))
  }

  function NewColumn(name: string, t: Kind, currRow: nat): Column {
    Column(name, t, seq(currRow, _ => None), 0)
  }

  lemma LoadingNewColumn(colIdx: map<string, nat>, columns: seq<Column>, rows: seq<Appended>, done: seq<Entry>,
      k: string, t: Kind)
    requires Loading(colIdx, columns, rows, done) && ColName(k, t) !in colIdx
    ensures Loading(colIdx[ColName(k, t) := |columns|], columns + [NewColumn(ColName(k, t), t, |rows|)], rows, done)
  {
    var name := ColName(k, t);
    HistoryOfUnseen(rows, name);
    assert CellIn(done, name).None?;
    assert WellNamed(NewColumn(name, t, |rows|));
    hide History, CellIn, ColName;
  }

  lemma PartlyFilledNext(c: Column, rows: seq<Appended>, done: seq<Entry>, e: Entry)
    requires PartlyFilled(c, rows, done) && IsColumnValue(e.value)
    ensures Named(e, c.name) && CellIn(done, c.name).None? ==>
              PartlyFilled(c.(values := c.values + [Cell(e.value)]), rows, done + [e])
    ensures !Named(e, c.name) ==> PartlyFilled(c, rows, done + [e])
  {
    CellInAppend(done, e, c.name);
    WellNamedKept(c, c.(values := c.values + [Cell(e.value)]));
    hide CellIn, History, Named, WellNamed;
  }

  lemma LoadingValue(colIdx: map<string, nat>, columns: seq<Column>, rows: seq<Appended>, done: seq<Entry>, e: Entry,
      idx: nat)
    requires Loading(colIdx, columns, rows, done) && idx < |columns| && IsColumnValue(e.value)
    requires columns[idx].name == ColName(e.key, KindOf(e.value)) && CellIn(done, columns[idx].name).None?
    ensures var loaded := columns[idx].(values := columns[idx].values + [Cell(e.value)]);
            Loading(colIdx, columns[idx := loaded], rows, done + [e])
  {
    CellsAppend(done, e);
    hide CellIn, History, ColName, Cell, Covers, PartlyFilled;
    var after := columns[idx := columns[idx].(values := columns[idx].values + [Cell(e.value)])];
    forall i | 0 <= i < |after| ensures PartlyFilled(after[i], rows, done + [e]) {
      PartlyFilledNext(columns[i], rows, done, e);
      assert colIdx[columns[i].name] == i && colIdx[columns[idx].name] == idx;
    }
    KeepsIndexes(colIdx, columns, after);
    hide Indexes;
  }

  lemma KeepsIndexes(colIdx: map<string, nat>, columns: seq<Column>, after: seq<Column>)
    requires Indexes(colIdx, columns) && |after| == |columns|
    requires forall i :: 0 <= i < |after| ==> after[i].name == columns[i].name
    ensures Indexes(colIdx, after)
  {
  }

  lemma NotSeenYet(attrs: seq<Entry>, i: nat)
    requires Appendable(attrs) && i < |attrs|
    ensures var e := attrs[i];
      e.value.Empty? || (IsColumnValue(e.value) && CellIn(attrs[..i], ColName(e.key, KindOf(e.value))).None?)
  {
    if IsColumnValue(attrs[i].value) {
      var name := ColName(attrs[i].key, KindOf(attrs[i].value));
      CellInSome(attrs[..i], name);
      if j :| 0 <= j < i && Named(attrs[..i][j], name) {
        ColNameInjective(attrs[j].key, KindOf(attrs[j].value), attrs[i].key, KindOf(attrs[i].value));
      }
    }
  }

  lemma AllEmptySnoc(es: seq<Entry>, e: Entry)
    ensures AllEmpty(es + [e]) <==> AllEmpty(es) && e.value.Empty?
  {
    assert (es + [e])[|es|] == e && forall i :: 0 <= i < |es| ==> (es + [e])[i] == es[i];
  }

  lemma {:induction false} EmptiesHaveNoCells(es: seq<Entry>, name: string)
    requires AllEmpty(es)
    ensures CellIn(es, name).None?
  {
    if es != [] {
      EmptiesHaveNoCells(es[..|es| - 1], name);
    }
  }

  lemma CellInAppend(done: seq<Entry>, e: Entry, name: string)
    ensures CellIn(done + [e], name) == if Named(e, name) then Some(Cell(e.value)) else CellIn(done, name)
  {
    assert (done + [e])[..|done|] == done;
  }

  lemma CellsAppend(done: seq<Entry>, e: Entry)
    requires IsColumnValue(e.value)
    ensures forall n ::
              CellIn(done + [e], n) ==
              if n == ColName(e.key, KindOf(e.value)) then Some(Cell(e.value)) else CellIn(done, n)
  {
    hide ColName;
    forall n
      ensures CellIn(done + [e], n)
           == if n == ColName(e.key, KindOf(e.value)) then Some(Cell(e.value)) else CellIn(done, n)
    {
      CellInAppend(done, e, n);
    }
  }

  /** Each id as its difference from the one before, modulo 2^32. */
  function Deltas(prev: nat, ids: seq<nat>): (ds: seq<nat>)
    requires prev < M32 && forall i :: 0 <= i < |ids| ==> ids[i] < M32
    ensures |ds| == |ids| && forall i :: 0 <= i < |ds| ==> ds[i] < M32
    decreases |ids|
  {
    if ids == [] then [] else [Sub(M32, ids[0], prev)] + Deltas(ids[0], ids[1..])
  }

  /** The columns that the values of a map are appended to. */
  function ColumnNames(es: seq<Entry>): set<string> {
    set i | 0 <= i < |es| && IsColumnValue(es[i].value) :: ColName(es[i].key, KindOf(es[i].value))
  }

  function ColumnNameOf(e: Entry): set<string> {
    if IsColumnValue(e.value) then {ColName(e.key, KindOf(e.value))} else {}
  }

  lemma ColumnNamesSnoc(es: seq<Entry>, e: Entry)
    ensures ColumnNames(es + [e]) == ColumnNames(es) + ColumnNameOf(e)
  {
    hide ColName;
    var all := es + [e];
    assert all[|es|] == e && forall i :: 0 <= i < |es| ==> all[i] == es[i];
    forall n | n in ColumnNames(es) ensures n in ColumnNames(all) {
      var i :| 0 <= i < |es| && IsColumnValue(es[i].value) && n == ColName(es[i].key, KindOf(es[i].value));
      assert all[i] == es[i];
    }
  }

  /** The columns known before and those of these attributes; new if one of them was, or some column before. */
  ghost predicate ColumnsAre(keys: set<string>, isNew: bool, known: set<string>, wasNew: bool, es: seq<Entry>) {
    keys == known + ColumnNames(es) && isNew == (wasNew || !(ColumnNames(es) <= known))
  }

  lemma ColumnsAreAtStart(keys: set<string>, isNew: bool)
    ensures ColumnsAre(keys, isNew, keys, isNew, []) && AllEmpty([])
  {
  }

  lemma ColumnsAreNext(keys: set<string>, isNew: bool, known: set<string>, wasNew: bool, es: seq<Entry>, e: Entry)
    requires ColumnsAre(keys, isNew, known, wasNew, es)
    ensures !IsColumnValue(e.value) ==> ColumnsAre(keys, isNew, known, wasNew, es + [e])
    ensures IsColumnValue(e.value) ==>
              var name := ColName(e.key, KindOf(e.value));
              ColumnsAre(keys + {name}, isNew || name !in keys, known, wasNew, es + [e])
  {
    ColumnNamesSnoc(es, e);
    hide ColumnNames, ColName;
  }

  class DynAttrsBuilder {
    var newColumn: bool
    var schemaUpdateCount: nat
    var parentIDs: seq<nat>
    var colIdx: map<string, nat>
    var columns: seq<Column>
    var fields: seq<(string, string)>
    /** The rows appended since the last Build. */
    ghost var rows: seq<Appended>

    ghost predicate Valid()
      reads this
    {
      && |parentIDs| == |rows|
      && (forall i :: 0 <= i < |rows| ==> parentIDs[i] == rows[i].id < M32 && Appendable(rows[i].attrs))
      && Loading(colIdx, columns, rows, [])
      && (!newColumn ==> Attached(columns, fields))
    }

    constructor ()
      ensures Valid() && rows == [] && colIdx == map[] && newColumn && schemaUpdateCount == 0
    {
      newColumn, schemaUpdateCount := true, 0;
      parentIDs, colIdx, columns, fields, rows := [], map[], [], [], [];
    }

    /** The cell of one attribute, in a column found or made and back-filled with nulls. */
    method AppendValue(ghost done: seq<Entry>, e: Entry)
      requires IsColumnValue(e.value) && |parentIDs| == |rows|
      requires Loading(colIdx, columns, rows, done) && CellIn(done, ColName(e.key, KindOf(e.value))).None?
      requires !newColumn ==> Attached(columns, fields)
      modifies this`colIdx, this`columns, this`newColumn
      ensures colIdx.Keys == old(colIdx).Keys + {ColName(e.key, KindOf(e.value))}
      ensures newColumn == (old(newColumn) || ColName(e.key, KindOf(e.value)) !in old(colIdx))
      ensures Loading(colIdx, columns, rows, done + [e])
      ensures !newColumn ==> Attached(columns, fields)
    {
      hide Loading;
      var name := ColName(e.key, KindOf(e.value));
      LoadingIndexes(colIdx, columns, rows, done);
      if name !in colIdx {
        LoadingNewColumn(colIdx, columns, rows, done, e.key, KindOf(e.value));
        colIdx := colIdx[name := |columns|];
        columns := columns + [NewColumn(name, KindOf(e.value), |parentIDs|)];
        newColumn := true;
        LoadingIndexes(colIdx, columns, rows, done);
      }
      var idx := colIdx[name];
      LoadingValue(colIdx, columns, rows, done, e, idx);
      columns := columns[idx := columns[idx].(values := columns[idx].values + [Cell(e.value)])];
    }

    /** The i-th attribute into its column, the columns being those known at the start and those of the attributes
        before it; an empty value is passed over. */
    method AppendEntry(ghost known: set<string>, ghost wasNew: bool, attrs: seq<Entry>, i: nat) returns (added: bool)
      requires i < |attrs| && Appendable(attrs) && |parentIDs| == |rows|
      requires Loading(colIdx, columns, rows, attrs[..i])
      requires ColumnsAre(colIdx.Keys, newColumn, known, wasNew, attrs[..i])
      requires !newColumn ==> Attached(columns, fields)
      modifies this`colIdx, this`columns, this`newColumn
      ensures Loading(colIdx, columns, rows, attrs[..i + 1])
      ensures ColumnsAre(colIdx.Keys, newColumn, known, wasNew, attrs[..i + 1])
      ensures !newColumn ==> Attached(columns, fields)
      ensures added <==> !attrs[i].value.Empty?
      ensures AllEmpty(attrs[..i + 1]) <==> AllEmpty(attrs[..i]) && !added
    {
      hide Loading, Attached, ColumnsAre, CellIn, ColName, AllEmpty, Appendable;
      ghost var done, keys, isNew := attrs[..i], colIdx.Keys, newColumn;
      var e := attrs[i];
      assert attrs[..i + 1] == done + [e];
      NotSeenYet(attrs, i);
      AllEmptySnoc(done, e);
      ColumnsAreNext(keys, isNew, known, wasNew, done, e);
      if e.value.Empty? {
        LoadingEmpty(colIdx, columns, rows, done, e);
        return false;
      }
      AppendValue(done, e);
      added := true;
    }

    /** Every attribute of the map into its column. */
    method AppendAll(attrs: seq<Entry>) returns (addedCount: nat)
      requires |parentIDs| == |rows| && Loading(colIdx, columns, rows, []) && Appendable(attrs)
      requires !newColumn ==> Attached(columns, fields)
      modifies this`colIdx, this`columns, this`newColumn
      ensures ColumnsAre(colIdx.Keys, newColumn, old(colIdx).Keys, old(newColumn), attrs)
      ensures Loading(colIdx, columns, rows, attrs)
      ensures !newColumn ==> Attached(columns, fields)
      ensures addedCount == 0 <==> AllEmpty(attrs)
    {
      hide Loading, Attached, ColumnsAre, AllEmpty, Appendable;
      ColumnsAreAtStart(colIdx.Keys, newColumn);
      addedCount := 0;
      for i := 0 to |attrs|
        invariant ColumnsAre(colIdx.Keys, newColumn, old(colIdx).Keys, old(newColumn), attrs[..i])
        invariant addedCount == 0 <==> AllEmpty(attrs[..i])
        invariant Loading(colIdx, columns, rows, attrs[..i])
        invariant !newColumn ==> Attached(columns, fields)
      {
        var added := AppendEntry(old(colIdx).Keys, old(newColumn), attrs, i);
        if added {
          addedCount := addedCount + 1;
        }
      }
      assert attrs[..|attrs|] == attrs;
    }

    method PadColumns()
      requires !newColumn ==> Attached(columns, fields)
      modifies this`columns
      ensures |columns| == |old(columns)|
      ensures forall i :: 0 <= i < |columns| ==> columns[i] == Padded(old(columns)[i], |parentIDs|)
      ensures !newColumn ==> Attached(columns, fields)
    {
      for j := 0 to |columns|
        invariant |columns| == |old(columns)|
        invariant forall i :: 0 <= i < |columns| ==>
                    columns[i] == if i < j then Padded(old(columns)[i], |parentIDs|) else old(columns)[i]
      {
        if |columns[j].values| < |parentIDs| {
          columns := columns[j := columns[j].(values := columns[j].values + [None])];
        }
      }
    }

    method Append(parentID: nat, attrs: seq<Entry>)
      requires Valid() && parentID < M32 && Appendable(attrs)
      modifies this
      ensures Valid()
      ensures rows == if AllEmpty(attrs) then old(rows) else old(rows) + [Appended(parentID, attrs)]
      ensures colIdx.Keys == old(colIdx).Keys + ColumnNames(attrs)
      ensures newColumn == (old(newColumn) || !(ColumnNames(attrs) <= old(colIdx).Keys))
    {
      hide Loading, Attached, Padded;
      if attrs == [] {
        return;
      }
      var addedCount := AppendAll(attrs);
      if addedCount == 0 {
        LoadingNothing(colIdx, columns, rows, attrs);
        return;
      }
      parentIDs := parentIDs + [parentID];
      ghost var loaded := columns;
      PadColumns();
      PaddedIsNextRow(colIdx, loaded, rows, Appended(parentID, attrs), columns);
      rows := rows + [Appended(parentID, attrs)];
    }

    /** Columns in name order, and the index rebuilt to match. */
    method SortColumns()
      requires Loading(colIdx, columns, rows, [])
      modifies this`columns, this`colIdx
      ensures Loading(colIdx, columns, rows, []) && Sorted(columns, ByName) && NamesInOrder(columns)
      ensures multiset(columns) == multiset(old(columns)) && colIdx.Keys == old(colIdx).Keys
    {
      ByNameIsWeakOrder(columns);
      hide Loading, ByName, Indexes, WeakOrderOn, Sorted, NamesInOrder;
      ghost var before, index := columns, colIdx;
      columns := SortSlice(columns, ByName);
      LoadingIndexes(index, before, rows, []);
      DistinctNames(index, before, columns);
      Reindex();
      LoadingSorted(index, before, rows, colIdx, columns);
      SortedNamesInOrder(columns);
    }

    method Reindex()
      requires forall i, j :: 0 <= i < j < |columns| ==> columns[i].name != columns[j].name
      requires forall i :: 0 <= i < |columns| ==> columns[i].name in colIdx
      modifies this`colIdx
      ensures colIdx.Keys == old(colIdx).Keys
      ensures forall j :: 0 <= j < |columns| ==> columns[j].name in colIdx && colIdx[columns[j].name] == j
    {
      for i := 0 to |columns|
        invariant colIdx.Keys == old(colIdx).Keys
        invariant forall j :: 0 <= j < i ==> columns[j].name in colIdx && colIdx[columns[j].name] == j
      {
        colIdx := colIdx[columns[i].name := i];
      }
    }

    /** A fresh record builder: one field per column, each column attached to its own. */
    method CreateBuilder()
      requires Loading(colIdx, columns, rows, [])
      modifies this`columns, this`fields
      ensures Loading(colIdx, columns, rows, []) && Attached(columns, fields)
      ensures |columns| == |old(columns)| && forall i :: 0 <= i < |columns| ==>
          columns[i] == old(columns)[i].(slot := i)
    {
      hide Loading;
      ghost var before := columns;
      fields := FieldsOf(columns);
      for j := 0 to |columns|
        invariant |columns| == |before| && fields == FieldsOf(before)
        invariant forall i :: 0 <= i < |columns| ==> columns[i] == if i < j then before[i].(slot := i) else before[i]
      {
        columns := columns[j := columns[j].(slot := j)];
      }
      LoadingReattached(colIdx, before, rows, columns);
    }

    /** The record of what was appended since the last Build, with no column new since then. */
    method EmitRecord() returns (record: seq<Field>)
      requires Valid() && !newColumn
      ensures RecordOf(record, colIdx, columns, rows)
    {
      hide Loading, RecordOf, Indexes, Covers, Deltas, Appendable;
      var ids := BuildParentIDs();
      var built := CollectColumns();
      record := [Field(PARENT_ID, None, IdCells(ids))] + RecordFields(fields, built);
      assert parentIDs == IdsOf(rows);
      BuiltIsRecord(record, colIdx, columns, rows, ids);
    }

    /** One record of what was appended since the last Build; the columns stay, emptied. */
    method Build() returns (record: seq<Field>)
      requires Valid()
      modifies this
      ensures Valid() && rows == [] && !newColumn
      ensures RecordOf(record, colIdx, columns, old(rows))
      ensures colIdx.Keys == old(colIdx).Keys
      ensures schemaUpdateCount == old(schemaUpdateCount) + (if old(newColumn) then 1 else 0)
      ensures if old(newColumn) then Sorted(columns, ByName) && NamesInOrder(columns)
              else SameNames(columns, old(columns)) && colIdx == old(colIdx)
    {
      hide Loading, RecordOf, Indexes, Covers, Deltas, Appendable, Attached, ByName, Sorted, NamesInOrder;
      if newColumn {
        SortColumns();
        ghost var ordered := columns;
        CreateBuilder();
        SortedByNames(ordered, columns);
        newColumn := false;
        schemaUpdateCount := schemaUpdateCount + 1;
      }
      record := EmitRecord();
      ghost var built := columns;
      Reset();
      if old(newColumn) {
        SortedByNames(built, columns);
        SortedNamesInOrder(columns);
      }
      RecordKeepsNames(record, colIdx, built, columns, old(rows));
    }

    /** Each column is written to the record-builder column it was attached to. */
    method CollectColumns() returns (built: seq<seq<Option<Value>>>)
      requires Attached(columns, fields)
      ensures |built| == |columns| && forall j :: 0 <= j < |columns| ==> built[j] == columns[j].values
    {
      built := seq(|fields|, _ => []);
      for i := 0 to |columns|
        invariant |built| == |fields|
        invariant forall j :: 0 <= j < |columns| ==> built[j] == if j < i then columns[j].values else []
      {
        built := built[columns[i].slot := built[columns[i].slot] + columns[i].values];
      }
    }

    method BuildParentIDs() returns (ds: seq<nat>)
      requires forall i :: 0 <= i < |parentIDs| ==> parentIDs[i] < M32
      ensures ds == Deltas(0, parentIDs)
    {
      ds := [];
      var prevParentID: nat := 0;
      for i := 0 to |parentIDs|
        invariant prevParentID < M32
        invariant ds + Deltas(prevParentID, parentIDs[i..]) == Deltas(0, parentIDs)
      {
        assert parentIDs[i..][0] == parentIDs[i] && parentIDs[i..][1..] == parentIDs[i + 1..];
        ds := ds + [Sub(M32, parentIDs[i], prevParentID)];
        prevParentID := parentIDs[i];
      }
      assert parentIDs[|parentIDs|..] == [];
    }

    method Reset()
      requires Valid()
      modifies this`parentIDs, this`columns, this`rows
      ensures Valid() && rows == [] && |columns| == |old(columns)|
      ensures forall i :: 0 <= i < |columns| ==> columns[i] == old(columns)[i].(values := [])
    {
      hide Loading;
      parentIDs := [];
      for j := 0 to |columns|
        invariant parentIDs == [] && rows == old(rows) && |columns| == |old(columns)|
        invariant forall i :: 0 <= i < |columns| ==>
            columns[i] == if i < j then old(columns)[i].(values := []) else old(columns)[i]
      {
        columns := columns[j := columns[j].(values := [])];
      }
      LoadingEmptied(colIdx, old(columns), rows, columns);
      rows := [];
    }
  }

  /** What Build returns for these rows: delta parent ids, then the history of every column. */
  ghost predicate RecordOf(record: seq<Field>, colIdx: map<string, nat>, columns: seq<Column>, rows: seq<Appended>) {
    && |record| == |columns| + 1
    && (forall i :: 0 <= i < |rows| ==> rows[i].id < M32)
    && record[0] == Field(PARENT_ID, None, IdCells(Deltas(0, IdsOf(rows))))
    && (forall i :: 0 <= i < |columns| ==>
         && WellNamed(columns[i])
         && record[i + 1]
             == Field(columns[i].name, Some(MetaType(columns[i].kind)), AttrCells(History(rows, columns[i].name))))
    && Indexes(colIdx, columns) && Covers(colIdx, rows)
  }

  function IdsOf(rows: seq<Appended>): (ids: seq<nat>)
    ensures |ids| == |rows| && forall i :: 0 <= i < |rows| ==> ids[i] == rows[i].id
  {
    seq(|rows|, i requires 0 <= i < |rows| => rows[i].id)
  }

  lemma BuiltIsRecord(record: seq<Field>, colIdx: map<string, nat>, columns: seq<Column>, rows: seq<Appended>,
      ids: seq<nat>)
    requires Loading(colIdx, columns, rows, []) && |record| == |columns| + 1
    requires (forall i :: 0 <= i < |rows| ==> rows[i].id < M32) && ids == Deltas(0, IdsOf(rows))
    requires record[0] == Field(PARENT_ID, None, IdCells(ids))
    requires forall i :: 0 <= i < |columns| ==>
               record[i + 1] == Field(columns[i].name, Some(MetaType(columns[i].kind)), AttrCells(columns[i].values))
    ensures RecordOf(record, colIdx, columns, rows)
  {
    hide History, WellNamed, Deltas;
    forall i | 0 <= i < |columns| ensures WellNamed(columns[i]) && columns[i].values == History(rows, columns[i].name) {
      assert PartlyFilled(columns[i], rows, []);
      NoCellsInNothing(columns[i].name);
    }
  }

  lemma RecordKeepsNames(record: seq<Field>, colIdx: map<string, nat>, before: seq<Column>, columns: seq<Column>,
      rows: seq<Appended>)
    requires RecordOf(record, colIdx, before, rows) && |columns| == |before|
    requires forall i :: 0 <= i < |columns| ==> columns[i] == before[i].(values := [])
    ensures RecordOf(record, colIdx, columns, rows)
  {
    hide WellNamed, History, Deltas, Covers;
    forall i | 0 <= i < |columns| ensures WellNamed(columns[i]) {
      WellNamedKept(before[i], columns[i]);
    }
  }

  /** Distinct names stay distinct under any permutation, and are still all there. */
  lemma DistinctNames(colIdx: map<string, nat>, before: seq<Column>, after: seq<Column>)
    requires Indexes(colIdx, before) && multiset(before) == multiset(after)
    ensures forall i, j :: 0 <= i < j < |after| ==> after[i].name != after[j].name
    ensures forall i :: 0 <= i < |after| ==> after[i].name in colIdx && after[i] == before[colIdx[after[i].name]]
    ensures forall n :: n in colIdx ==> before[colIdx[n]] in after
    ensures |before| == |after|
  {
    SameMembers(before, after);
    forall i | 0 <= i < |after|
      ensures after[i].name in colIdx && after[i] == before[colIdx[after[i].name]]
    {
      assert after[i] in before;
      var k :| 0 <= k < |before| && before[k] == after[i];
    }
    forall n | n in colIdx ensures before[colIdx[n]] in after {
      assert before[colIdx[n]] in before;
    }
    forall i, j | 0 <= i < j < |after| ensures after[i].name != after[j].name {
      NoRepeats(before, after, i, j);
    }
  }

  lemma LoadingSorted(index: map<string, nat>, before: seq<Column>, rows: seq<Appended>, colIdx: map<string, nat>,
      columns: seq<Column>)
    requires Loading(index, before, rows, []) && multiset(before) == multiset(columns)
    requires colIdx.Keys == index.Keys && forall j :: 0 <= j < |columns| ==>
        columns[j].name in colIdx && colIdx[columns[j].name] == j
    ensures Loading(colIdx, columns, rows, [])
  {
    DistinctNames(index, before, columns);
    hide History, CellIn, WellNamed;
    forall i | 0 <= i < |columns| ensures PartlyFilled(columns[i], rows, []) {
      assert PartlyFilled(before[index[columns[i].name]], rows, []);
    }
    forall n | n in colIdx ensures colIdx[n] < |columns| && columns[colIdx[n]].name == n {
      var j :| 0 <= j < |columns| && columns[j] == before[index[n]];
    }
  }

  lemma LoadingReattached(colIdx: map<string, nat>, before: seq<Column>, rows: seq<Appended>, columns: seq<Column>)
    requires Loading(colIdx, before, rows, []) && |columns| == |before|
    requires forall i :: 0 <= i < |columns| ==> columns[i] == before[i].(slot := i)
    ensures Loading(colIdx, columns, rows, [])
  {
    hide History, CellIn, WellNamed;
    forall i | 0 <= i < |columns| ensures PartlyFilled(columns[i], rows, []) {
      assert PartlyFilled(before[i], rows, []);
      WellNamedKept(before[i], columns[i]);
    }
  }

  lemma LoadingEmptied(colIdx: map<string, nat>, before: seq<Column>, rows: seq<Appended>, columns: seq<Column>)
    requires Loading(colIdx, before, rows, []) && |columns| == |before|
    requires forall i :: 0 <= i < |columns| ==> columns[i] == before[i].(values := [])
    ensures Loading(colIdx, columns, [], [])
  {
    assert Covers(colIdx, []);
    KeepsIndexes(colIdx, before, columns);
    hide CellIn, WellNamed, Indexes, Covers;
    forall i | 0 <= i < |columns| ensures PartlyFilled(columns[i], [], []) {
      assert PartlyFilled(before[i], rows, []);
      WellNamedKept(before[i], columns[i]);
      NoCellsInNothing(columns[i].name);
    }
  }

  lemma LoadingIndexes(colIdx: map<string, nat>, columns: seq<Column>, rows: seq<Appended>, done: seq<Entry>)
    requires Loading(colIdx, columns, rows, done)
    ensures Indexes(colIdx, columns)
  {
  }

  lemma LoadingEmpty(colIdx: map<string, nat>, columns: seq<Column>, rows: seq<Appended>, done: seq<Entry>, e: Entry)
    requires Loading(colIdx, columns, rows, done) && e.value.Empty?
    ensures Loading(colIdx, columns, rows, done + [e])
  {
    forall n ensures CellIn(done + [e], n) == CellIn(done, n) {
      CellInAppend(done, e, n);
    }
    hide CellIn, History, WellNamed;
    forall i | 0 <= i < |columns| ensures PartlyFilled(columns[i], rows, done + [e]) {
      assert PartlyFilled(columns[i], rows, done);
    }
  }

  lemma LoadingNothing(colIdx: map<string, nat>, columns: seq<Column>, rows: seq<Appended>, done: seq<Entry>)
    requires Loading(colIdx, columns, rows, done) && AllEmpty(done)
    ensures Loading(colIdx, columns, rows, [])
  {
    forall n ensures CellIn(done, n).None? {
      EmptiesHaveNoCells(done, n);
    }
    hide History, WellNamed;
    forall i | 0 <= i < |columns| ensures PartlyFilled(columns[i], rows, []) {
      assert PartlyFilled(columns[i], rows, done);
    }
  }

  /** The column once every one that this map did not reach has been given a null. */
  function Padded(c: Column, n: nat): Column {
    if |c.values| < n then c.(values := c.values + [None]) else c
  }

  /** Padding turns the columns of a partly appended map into the columns of one more row. */
  lemma PaddedIsNextRow(colIdx: map<string, nat>, columns: seq<Column>, rows: seq<Appended>, row: Appended,
      padded: seq<Column>)
    requires Loading(colIdx, columns, rows, row.attrs) && |padded| == |columns|
    requires forall i :: 0 <= i < |columns| ==> padded[i] == Padded(columns[i], |rows| + 1)
    ensures Loading(colIdx, padded, rows + [row], [])
  {
    hide WellNamed, History, CellIn, Padded, PartlyFilled;
    forall i | 0 <= i < |columns|
      ensures PartlyFilled(padded[i], rows + [row], []) && padded[i].name == columns[i].name
    {
      PaddedColumn(columns[i], rows, row);
    }
    CellsOfNextRow(colIdx, rows, row);
    forall n ensures CellIn([], n).None? {
      NoCellsInNothing(n);
    }
  }

  lemma PaddedColumn(c: Column, rows: seq<Appended>, row: Appended)
    requires PartlyFilled(c, rows, row.attrs)
    ensures var d := Padded(c, |rows| + 1); PartlyFilled(d, rows + [row], []) && d.name == c.name
  {
    hide WellNamed;
    HistoryAppend(rows, row, c.name);
    WellNamedKept(c, Padded(c, |rows| + 1));
    NoCellsInNothing(c.name);
  }

  lemma CellsOfNextRow(colIdx: map<string, nat>, rows: seq<Appended>, row: Appended)
    requires Covers(colIdx, rows) && forall n :: CellIn(row.attrs, n).Some? ==> n in colIdx
    ensures Covers(colIdx, rows + [row])
  {
    hide CellIn;
    forall i, n | 0 <= i < |rows + [row]| && CellIn((rows + [row])[i].attrs, n).Some? ensures n in colIdx {
      if i < |rows| {
        assert CellIn(rows[i].attrs, n).Some?;
      }
    }
  }

  lemma NoCellsInNothing(n: string)
    ensures CellIn([], n).None?
  {
  }

  lemma WellNamedKept(c: Column, d: Column)
    requires WellNamed(c) && d.name == c.name && d.kind == c.kind
    ensures WellNamed(d)
  {
    var k :| c.name == ColName(k, c.kind);
    assert d.name == ColName(k, d.kind);
  }

  lemma HistoryAppend(rows: seq<Appended>, row: Appended, name: string)
    ensures History(rows + [row], name) == History(rows, name) + [NullOr(CellIn(row.attrs, name))]
  {
    assert (rows + [row])[..|rows|] == rows;
  }
}
