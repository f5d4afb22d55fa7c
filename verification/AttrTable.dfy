/** The attribute table: accumulated rows, and nine columns written in step. */
module AttrTable {
  import opened Wrappers
  import opened Values
  import opened GroupDelta
  import opened Sorting
  import opened AttrOrder
  import opened Selections
  import Cbor

  // ---------------------------------------------------------------- Accumulating

  /** One row per entry; AppendWithID leaves out entries with an empty key, Append does not. */
  function RowsFor(id: nat, es: seq<Entry>, keepEmpty: bool): seq<Row> {
    if es == [] then [] else
      (if es[0].key == "" && !keepEmpty then [] else [Row(id, es[0].key, es[0].value)])
          + RowsFor(id, es[1..], keepEmpty)
  }

  function EntryRows(id: nat, es: seq<Entry>): (rows: seq<Row>)
    ensures |rows| == |es| && forall i :: 0 <= i < |es| ==> rows[i] == Row(id, es[i].key, es[i].value)
  {
    seq(|es|, i requires 0 <= i < |es| => Row(id, es[i].key, es[i].value))
  }

  function GetsRow(es: seq<Entry>, keepEmpty: bool): (keep: seq<bool>)
    ensures |keep| == |es| && forall i :: 0 <= i < |es| ==> (keep[i] <==> keepEmpty || es[i].key != "")
  {
    seq(|es|, i requires 0 <= i < |es| => keepEmpty || es[i].key != "")
  }

  /** These rows are one for every entry that gets one, in the order of the entries, and no others. */
  ghost predicate RowsAre(rows: seq<Row>, id: nat, es: seq<Entry>, keepEmpty: bool) {
    Selects(rows, EntryRows(id, es), GetsRow(es, keepEmpty))
  }

  lemma {:induction false} RowsForAre(id: nat, es: seq<Entry>, keepEmpty: bool)
    ensures RowsAre(RowsFor(id, es, keepEmpty), id, es, keepEmpty)
  {
    if es == [] {
      SelectsNothing<Row>();
      assert EntryRows(id, es) == [] && GetsRow(es, keepEmpty) == [];
    } else {
      var x, kept := Row(id, es[0].key, es[0].value), keepEmpty || es[0].key != "";
      RowsForAre(id, es[1..], keepEmpty);
      SelectsCons(x, kept, RowsFor(id, es[1..], keepEmpty), EntryRows(id, es[1..]), GetsRow(es[1..], keepEmpty));
      assert RowsFor(id, es, keepEmpty) == (if kept then [x] else []) + RowsFor(id, es[1..], keepEmpty);
      hide Selects, RowsFor;
      assert EntryRows(id, es) == [x] + EntryRows(id, es[1..]);
      assert GetsRow(es, keepEmpty) == [kept] + GetsRow(es[1..], keepEmpty);
    }
  }

  /** Append files every entry, whatever its key. */
  lemma RowsKeepAll(id: nat, es: seq<Entry>)
    ensures |RowsFor(id, es, true)| == |es|
    ensures forall i :: 0 <= i < |es| ==> RowsFor(id, es, true)[i] == Row(id, es[i].key, es[i].value)
  {
    RowsForAre(id, es, true);
    SelectsAll(RowsFor(id, es, true), EntryRows(id, es), GetsRow(es, true));
  }

  /** Filed(-1) is the id of an empty map; Overflow is the panic when every id is taken. */
  datatype Filing = Filed(id: int) | Overflow

  class Accumulator {
    const maxCount: nat
    var attrsMapCount: nat
    var attrs: seq<Row>

    constructor (maxCount: nat)
      ensures this.maxCount == maxCount && attrsMapCount == 0 && attrs == []
    {
      this.maxCount := maxCount;
      attrsMapCount, attrs := 0, [];
    }

    method Append(es: seq<Entry>) returns (r: Filing)
      modifies this
      ensures es == [] ==> r == Filed(-1) && attrs == old(attrs) && attrsMapCount == old(attrsMapCount)
      ensures es != [] && old(attrsMapCount) == maxCount ==>
          r == Overflow && attrs == old(attrs) && attrsMapCount == old(attrsMapCount)
      ensures es != [] && old(attrsMapCount) != maxCount ==>
                && r == Filed(old(attrsMapCount)) && attrsMapCount == old(attrsMapCount) + 1
                && attrs == old(attrs) + RowsFor(old(attrsMapCount), es, true)
                && |attrs| == |old(attrs)| + |es| && old(attrs) <= attrs
                && forall i :: 0 <= i < |es| ==>
                     attrs[|old(attrs)| + i] == Row(old(attrsMapCount), es[i].key, es[i].value)
    {
      RowsKeepAll(attrsMapCount, es);
      if es == [] {
        return Filed(-1);
      }
      if attrsMapCount == maxCount {
        return Overflow;
      }
      for i := 0 to |es|
        invariant attrsMapCount == old(attrsMapCount)
        invariant attrs + RowsFor(attrsMapCount, es[i..], true) == old(attrs) + RowsFor(attrsMapCount, es, true)
      {
        assert es[i..][1..] == es[i + 1..];
        attrs := attrs + [Row(attrsMapCount, es[i].key, es[i].value)];
      }
      assert attrs == old(attrs) + RowsFor(attrsMapCount, es, true);
      attrsMapCount := attrsMapCount + 1;
      return Filed(attrsMapCount - 1);
    }

    method AppendWithID(id: nat, es: seq<Entry>) returns (r: Filing)
      modifies this
      ensures es == [] ==> r == Filed(id) && attrs == old(attrs) && attrsMapCount == old(attrsMapCount)
      ensures es != [] && old(attrsMapCount) == maxCount ==>
          r == Overflow && attrs == old(attrs) && attrsMapCount == old(attrsMapCount)
      ensures es != [] && old(attrsMapCount) != maxCount ==>
                && r == Filed(id) && attrsMapCount == old(attrsMapCount) + 1
                && attrs == old(attrs) + RowsFor(id, es, false)
                && old(attrs) <= attrs && RowsAre(attrs[|old(attrs)|..], id, es, false)
    {
      hide RowsAre;
      RowsForAre(id, es, false);
      if es == [] {
        return Filed(id);
      }
      if attrsMapCount == maxCount {
        return Overflow;
      }
      for i := 0 to |es|
        invariant attrsMapCount == old(attrsMapCount)
        invariant attrs + RowsFor(id, es[i..], false) == old(attrs) + RowsFor(id, es, false)
      {
        assert es[i..][1..] == es[i + 1..];
        if es[i].key != "" {
          attrs := attrs + [Row(id, es[i].key, es[i].value)];
        }
      }
      attrsMapCount := attrsMapCount + 1;
      return Filed(id);
    }

    method Reset()
      modifies this
      ensures attrsMapCount == 0 && attrs == []
    {
      attrsMapCount, attrs := 0, [];
    }
  }

  // ---------------------------------------------------------------- Columns

  /** An optional column is absent until some row needs it. */
  datatype Column<T> = Absent | Present(cells: seq<Option<T>>)

  function Push<T>(c: Column<T>, cell: Option<T>): Column<T> {
    if c.Present? then Present(c.cells + [cell]) else Absent
  }

  datatype Columns = Columns(
    parentId: seq<nat>, key: seq<Option<string>>, typ: seq<nat>, str: seq<Option<string>>,
    i64: Column<int64>, f64: Column<Float>, bool_: Column<bool>,
    bin: Column<seq<byte>>, ser: Column<seq<Cbor.Token>>)

  /** Which optional columns the record builder currently has. */
  datatype Schema = Schema(i64: bool, f64: bool, bool_: bool, bin: bool, ser: bool)

  /** A new record builder has none of them. */
  const NO_COLUMNS := Schema(false, false, false, false, false)

  function NewColumn<T>(present: bool): Column<T> {
    if present then Present([]) else Absent
  }

  function NewColumns(s: Schema): Columns {
    Columns([], [], [], [], NewColumn(s.i64), NewColumn(s.f64), NewColumn(s.bool_), NewColumn(s.bin), NewColumn(s.ser))
  }

  /** Empty strings and empty byte slices are stored as nulls. */
  function StringCell(s: string): Option<string> {
    if s == "" then None else Some(s)
  }

  function BytesCell(b: seq<byte>): Option<seq<byte>> {
    if b == [] then None else Some(b)
  }

  function StrOf(v: Value): Option<string> { if v.Str? then StringCell(v.s) else None }
  function IntOf(v: Value): Option<int64> { if v.Int? then Some(v.i) else None }
  function DoubleOf(v: Value): Option<Float> { if v.Double? then Some(v.d) else None }
  function BoolOf(v: Value): Option<bool> { if v.Bool? then Some(v.b) else None }
  function BinOf(v: Value): Option<seq<byte>> { if v.Bytes? then BytesCell(v.bytes) else None }
  function SerOf(v: Value): Option<seq<Cbor.Token>> { if v.Map? || v.Slice? then Some(Cbor.Tokens(v)) else None }

  /** An empty value gets a parent id and a key and nothing else. */
  function AppendRow(c: Columns, code: nat, row: Row): Columns {
    var v := row.value;
    if v.Empty? then c.(parentId := c.parentId + [code], key := c.key + [StringCell(row.key)])
    else Columns(c.parentId + [code], c.key + [StringCell(row.key)], c.typ + [TypeCode(v)], c.str + [StrOf(v)],
                 Push(c.i64, IntOf(v)), Push(c.f64, DoubleOf(v)), Push(c.bool_, BoolOf(v)),
                 Push(c.bin, BinOf(v)), Push(c.ser, SerOf(v)))
  }

  function Fill(s: Schema, codes: seq<nat>, rows: seq<Row>): Columns
    requires |codes| == |rows|
  {
    if rows == [] then NewColumns(s) else
      var n := |rows| - 1;
      AppendRow(Fill(s, codes[..n], rows[..n]), codes[n], rows[n])
  }

  /** The schema with the column that a value of this type is written to. */
  function Require(s: Schema, v: Value): Schema {
    match v
    case Int(_) => s.(i64 := true)
    case Double(_) => s.(f64 := true)
    case Bool(_) => s.(bool_ := true)
    case Bytes(_) => s.(bin := true)
    case Map(_) => s.(ser := true)
    case Slice(_) => s.(ser := true)
    case _ => s
  }

  predicate Has(rows: seq<Row>, code: nat) {
    exists i :: 0 <= i < |rows| && TypeCode(rows[i].value) == code
  }

  predicate HasEmpty(rows: seq<Row>) {
    Has(rows, 0)
  }

  /** The schema with every column that these rows need. */
  function RequireAll(s: Schema, rows: seq<Row>): Schema {
    Schema(s.i64 || Has(rows, 2), s.f64 || Has(rows, 3), s.bool_ || Has(rows, 4), s.bin || Has(rows, 7),
           s.ser || Has(rows, 5) || Has(rows, 6))
  }

  /** A column is in the grown schema exactly if it was before or some row has a value of its type. */
  lemma RequireAllMeaning(s: Schema, rows: seq<Row>)
    ensures var t := RequireAll(s, rows);
      && (t.i64 <==> s.i64 || exists r :: r in rows && r.value.Int?)
      && (t.f64 <==> s.f64 || exists r :: r in rows && r.value.Double?)
      && (t.bool_ <==> s.bool_ || exists r :: r in rows && r.value.Bool?)
      && (t.bin <==> s.bin || exists r :: r in rows && r.value.Bytes?)
      && (t.ser <==> s.ser || exists r :: r in rows && (r.value.Map? || r.value.Slice?))
  {
    forall code ensures Has(rows, code) <==> exists r :: r in rows && TypeCode(r.value) == code {
      if i :| 0 <= i < |rows| && TypeCode(rows[i].value) == code {
        assert rows[i] in rows;
      }
    }
    forall r | r in rows ensures Has(rows, TypeCode(r.value)) {
      var i :| 0 <= i < |rows| && rows[i] == r;
    }
  }

  lemma HasAppend(rows: seq<Row>, row: Row, code: nat)
    ensures Has(rows + [row], code) <==> Has(rows, code) || TypeCode(row.value) == code
  {
    var all := rows + [row];
    if i :| 0 <= i < |rows| && TypeCode(rows[i].value) == code {
      assert TypeCode(all[i].value) == code;
    }
    assert all[|rows|] == row;
  }

  lemma RequireAppend(s: Schema, rows: seq<Row>, row: Row)
    ensures RequireAll(s, rows + [row]) == Require(RequireAll(s, rows), row.value)
  {
    HasAppend(rows, row, 2);
    HasAppend(rows, row, 3);
    HasAppend(rows, row, 4);
    HasAppend(rows, row, 5);
    HasAppend(rows, row, 6);
    HasAppend(rows, row, 7);
    hide Has;
  }

  lemma HasPermuted(rows: seq<Row>, rows': seq<Row>, code: nat)
    requires multiset(rows) == multiset(rows')
    ensures Has(rows, code) <==> Has(rows', code)
  {
    SameMembers(rows, rows');
    if i :| 0 <= i < |rows| && TypeCode(rows[i].value) == code {
      assert rows[i] in rows';
    }
    if i :| 0 <= i < |rows'| && TypeCode(rows'[i].value) == code {
      assert rows'[i] in rows;
    }
  }

  lemma RequireAllPermuted(s: Schema, rows: seq<Row>, rows': seq<Row>)
    requires multiset(rows) == multiset(rows')
    ensures RequireAll(s, rows') == RequireAll(s, rows)
  {
    forall code | 2 <= code <= 7 ensures Has(rows, code) <==> Has(rows', code) {
      HasPermuted(rows, rows', code);
    }
    hide Has;
  }

  lemma RequireNothing(s: Schema)
    ensures RequireAll(s, []) == s
  {
  }

  lemma RequireAllTwice(s: Schema, rows: seq<Row>)
    ensures RequireAll(RequireAll(s, rows), rows) == RequireAll(s, rows)
  {
    hide Has;
  }

  predicate ColumnLength<T>(c: Column<T>, n: nat) {
    c.Present? ==> |c.cells| == n
  }

  /** What a record needs: every column of one length. */
  predicate Lockstep(c: Columns) {
    var n := |c.parentId|;
    && |c.key| == n && |c.typ| == n && |c.str| == n
    && ColumnLength(c.i64, n) && ColumnLength(c.f64, n) && ColumnLength(c.bool_, n)
    && ColumnLength(c.bin, n) && ColumnLength(c.ser, n)
  }

  lemma AppendRowLengths(c: Columns, code: nat, row: Row)
    ensures var d := AppendRow(c, code, row); var n := |d.typ|;
            && |d.parentId| == |c.parentId| + 1 && |d.key| == |c.key| + 1
            && (if row.value.Empty? then d == c.(parentId := d.parentId, key := d.key)
                else |d.typ| == |c.typ| + 1 && |d.str| == |c.str| + 1 && PushedTo(c, d))
  {
    hide StringCell, StrOf, IntOf, DoubleOf, BoolOf, BinOf, SerOf, TypeCode;
  }

  /** The optional columns that are there are one longer, and no others are there. */
  predicate PushedTo(c: Columns, d: Columns) {
    && OneLonger(c.i64, d.i64) && OneLonger(c.f64, d.f64) && OneLonger(c.bool_, d.bool_)
    && OneLonger(c.bin, d.bin) && OneLonger(c.ser, d.ser)
  }

  predicate OneLonger<T>(c: Column<T>, d: Column<T>) {
    c.Present? == d.Present? && (c.Present? ==> |d.cells| == |c.cells| + 1)
  }

  lemma {:induction false} FillLengths(s: Schema, codes: seq<nat>, rows: seq<Row>)
    requires |codes| == |rows|
    ensures var c := Fill(s, codes, rows);
            && |c.parentId| == |c.key| == |rows| && |c.typ| == |c.str| <= |rows|
            && ColumnLength(c.i64, |c.typ|) && ColumnLength(c.f64, |c.typ|) && ColumnLength(c.bool_, |c.typ|)
            && ColumnLength(c.bin, |c.typ|) && ColumnLength(c.ser, |c.typ|)
            && (|c.typ| == |rows| <==> !HasEmpty(rows))
            && c.i64.Present? == s.i64 && c.f64.Present? == s.f64 && c.bool_.Present? == s.bool_
            && c.bin.Present? == s.bin && c.ser.Present? == s.ser
  {
    if rows != [] {
      var n := |rows| - 1;
      FillLengths(s, codes[..n], rows[..n]);
      AppendRowLengths(Fill(s, codes[..n], rows[..n]), codes[n], rows[n]);
      hide Has, AppendRow;
      assert rows == rows[..n] + [rows[n]];
      HasAppend(rows[..n], rows[n], 0);
    }
  }

  /** The nine columns stay in step exactly when no row holds an empty value. */
  lemma LockstepIff(s: Schema, codes: seq<nat>, rows: seq<Row>)
    requires |codes| == |rows|
    ensures Lockstep(Fill(s, codes, rows)) <==> !HasEmpty(rows)
  {
    FillLengths(s, codes, rows);
  }

  lemma {:induction false} ParentColumn(s: Schema, codes: seq<nat>, rows: seq<Row>)
    requires |codes| == |rows|
    ensures Fill(s, codes, rows).parentId == codes
  {
    if rows != [] {
      var n := |rows| - 1;
      ParentColumn(s, codes[..n], rows[..n]);
      hide Push, StringCell, TypeCode, StrOf, IntOf, DoubleOf, BoolOf, BinOf, SerOf;
      assert codes == codes[..n] + [codes[n]];
    }
  }

  function AppendCells(c: Columns, code: nat, s: Option<string>, i: Option<int64>, d: Option<Float>,
                       b: Option<bool>, bin: Option<seq<byte>>, ser: Option<seq<Cbor.Token>>): Columns {
    c.(typ := c.typ + [code], str := c.str + [s], i64 := Push(c.i64, i), f64 := Push(c.f64, d),
       bool_ := Push(c.bool_, b), bin := Push(c.bin, bin), ser := Push(c.ser, ser))
  }

  /** Row by row, the builders stay in step by writing a null wherever the value is not. */
  method AppendToColumns(c: Columns, code: nat, row: Row) returns (r: Columns)
    ensures r == AppendRow(c, code, row)
  {
    var v := row.value;
    r := c.(parentId := c.parentId + [code], key := c.key + [StringCell(row.key)]);
    match v {
      case Str(s) => r := AppendCells(r, 1, StringCell(s), None, None, None, None, None);
      case Int(x) => r := AppendCells(r, 2, None, Some(x), None, None, None, None);
      case Double(d) => r := AppendCells(r, 3, None, None, Some(d), None, None, None);
      case Bool(b) => r := AppendCells(r, 4, None, None, None, Some(b), None, None);
      case Bytes(b) => r := AppendCells(r, 7, None, None, None, None, BytesCell(b), None);
      case Slice(_) => r := AppendCells(r, 6, None, None, None, None, None, Some(Cbor.Tokens(v)));
      case Map(_) => r := AppendCells(r, 5, None, None, None, None, None, Some(Cbor.Tokens(v)));
      case Empty =>
    }
  }

  lemma FillNext(s: Schema, codes: seq<nat>, rows: seq<Row>, i: nat)
    requires |codes| == |rows| && i < |rows|
    ensures Fill(s, codes[..i + 1], rows[..i + 1]) == AppendRow(Fill(s, codes[..i], rows[..i]), codes[i], rows[i])
  {
    hide AppendRow;
    assert rows[..i + 1][..i] == rows[..i] && codes[..i + 1][..i] == codes[..i];
  }
}
