/** Rebuilding the attributes of every parent from the columns of an attribute table alone. */
module AttrStore {
  import opened Wrappers
  import opened Values
  import opened GroupDelta
  import opened Sorting
  import opened AttrOrder
  import opened AttrTable
  import Cbor

  type Attributes = map<nat, seq<Entry>>

  // ---------------------------------------------------------------- Reading one row

  function CellAt<T>(c: Column<T>, i: nat): Option<T> {
    if c.Present? && i < |c.cells| then c.cells[i] else None
  }

  /** A missing column and a null both read as the zero value. */
  function Or<T>(cell: Option<T>, zero: T): T {
    if cell.Some? then cell.value else zero
  }

  predicate IsNested(code: nat) {
    code == 5 || code == 6
  }

  ghost predicate CellReadable(c: Columns, i: nat)
    requires i < |c.typ|
  {
    IsNested(c.typ[i]) ==> Cbor.Readable(Or(CellAt(c.ser, i), []))
  }

  /** v is what row i's type code and cells say, for a nested value up to the order of map entries. */
  ghost predicate ReadsValue(c: Columns, i: nat, v: Value)
    requires i < |c.typ| && i < |c.str|
  {
    match c.typ[i]
    case 1 => v == Str(Or(c.str[i], ""))
    case 2 => v == Int(Or(CellAt(c.i64, i), 0))
    case 3 => v == Double(Or(CellAt(c.f64, i), Num(0.0)))
    case 4 => v == Bool(Or(CellAt(c.bool_, i), false))
    case 7 => v == Bytes(Or(CellAt(c.bin, i), []))
    case 5 => Cbor.ReadsAs(Or(CellAt(c.ser, i), []), v)
    case 6 => Cbor.ReadsAs(Or(CellAt(c.ser, i), []), v)
    case _ => v == Empty
  }

  ghost predicate ReadsRow(c: Columns, i: nat, row: Row)
    requires Lockstep(c) && i < |c.parentId|
  {
    row.parentId == c.parentId[i] && row.key == Or(c.key[i], "") && ReadsValue(c, i, row.value)
  }

  method ReadValue(c: Columns, i: nat) returns (v: Option<Value>)
    requires i < |c.typ| && i < |c.str|
    ensures v.Some? <==> CellReadable(c, i)
    ensures v.Some? ==> ReadsValue(c, i, v.value)
  {
    match c.typ[i] {
      case 1 => v := Some(Str(Or(c.str[i], "")));
      case 2 => v := Some(Int(Or(CellAt(c.i64, i), 0)));
      case 3 => v := Some(Double(Or(CellAt(c.f64, i), Num(0.0))));
      case 4 => v := Some(Bool(Or(CellAt(c.bool_, i), false)));
      case 7 => v := Some(Bytes(Or(CellAt(c.bin, i), [])));
      case 5 =>
        var r := Cbor.Deserialize(Or(CellAt(c.ser, i), []));
        v := if r.Ok? then Some(r.value) else None;
      case 6 =>
        var r := Cbor.Deserialize(Or(CellAt(c.ser, i), []));
        v := if r.Ok? then Some(r.value) else None;
      case _ => v := Some(Empty);
    }
  }

  // ---------------------------------------------------------------- The store

  function File(store: Attributes, row: Row): Attributes {
    store[row.parentId := PutEntry(if row.parentId in store then store[row.parentId] else [], row.key, row.value)]
  }

  function FileAll(rows: seq<Row>): Attributes {
    if rows == [] then map[] else File(FileAll(rows[..|rows| - 1]), rows[|rows| - 1])
  }

  lemma FileNothing()
    ensures FileAll([]) == map[]
  {
  }

  lemma FileAppend(rows: seq<Row>, row: Row)
    ensures FileAll(rows + [row]) == File(FileAll(rows), row)
  {
    assert (rows + [row])[..|rows|] == rows;
  }

  function DecodeState(m: nat, st: GroupState, cells: seq<Row>): (r: GroupState)
    requires st.parentId < m && forall i :: 0 <= i < |cells| ==> cells[i].parentId < m
    ensures r.parentId < m
    decreases |cells|
  {
    if cells == [] then st else
      var d := DecodeStep(m, st, cells[0].parentId, cells[0].key, cells[0].value);
      if d.None? then st else DecodeState(m, d.value.0, cells[1..])
  }

  /** Decoding one more row continues from the state the others left. */
  lemma {:induction false} DecodeAppend(m: nat, st: GroupState, cells: seq<Row>, cell: Row)
    requires st.parentId < m && cell.parentId < m && forall i :: 0 <= i < |cells| ==> cells[i].parentId < m
    requires DecodeAll(m, st, cells).Some?
    ensures var d := DecodeStep(m, DecodeState(m, st, cells), cell.parentId, cell.key, cell.value);
            && (d.Some? ==>
                 && DecodeAll(m, st, cells + [cell])
                     == Some(DecodeAll(m, st, cells).value + [cell.(parentId := d.value.1)])
                 && DecodeState(m, st, cells + [cell]) == d.value.0)
            && (d.None? ==> DecodeAll(m, st, cells + [cell]) == None)
    decreases |cells|
  {
    if cells == [] {
      assert cells + [cell] == [cell] && [cell][1..] == [];
      forall last: Row ensures [] + [last] == [last] + [] {
      }
    } else {
      var d := DecodeStep(m, st, cells[0].parentId, cells[0].key, cells[0].value);
      DecodeAppend(m, d.value.0, cells[1..], cell);
      assert (cells + [cell])[1..] == cells[1..] + [cell];
      var rest := DecodeAll(m, d.value.0, cells[1..]).value;
      var first := cells[0].(parentId := d.value.1);
      var next := DecodeStep(m, DecodeState(m, st, cells), cell.parentId, cell.key, cell.value);
      if next.Some? {
        var last := cell.(parentId := next.value.1);
        assert [first] + (rest + [last]) == ([first] + rest) + [last];
        assert DecodeAll(m, st, cells + [cell]) == Some([first] + (rest + [last]));
      }
    }
  }

  lemma {:induction false} DecodeStateHasValue(m: nat, st: GroupState, cells: seq<Row>)
    requires st.parentId < m && forall i :: 0 <= i < |cells| ==> cells[i].parentId < m
    requires DecodeAll(m, st, cells).Some? && (cells != [] || st.value.Some?)
    ensures DecodeState(m, st, cells).value.Some?
    decreases |cells|
  {
    if cells != [] {
      var d := DecodeStep(m, st, cells[0].parentId, cells[0].key, cells[0].value);
      DecodeStateHasValue(m, d.value.0, cells[1..]);
    }
  }

  datatype Loaded = Loaded(store: Attributes) | Malformed | Crash

  /** Attributes16StoreFrom and Attributes32StoreFrom.  seen is the rows as read. */
  method StoreFrom(m: nat, c: Columns) returns (r: Loaded, ghost seen: seq<Row>)
    requires m > 0 && Lockstep(c) && forall i :: 0 <= i < |c.parentId| ==> c.parentId[i] < m
    ensures r.Crash? <==> c.parentId != [] && Or(c.key[0], "") == "" && CellReadable(c, 0)
    ensures r.Malformed? <==> !r.Crash? && exists i :: 0 <= i < |c.typ| && !CellReadable(c, i)
    ensures r.Loaded? ==> ReadsAll(c, seen)
                          && DecodeAll(m, START, seen).Some? && r.store == FileAll(DecodeAll(m, START, seen).value)
  {
    hide Equal, SameGroup, FileAll, File, ReadsValue;
    seen := [];
    var store: Attributes := map[];
    FileNothing();
    var decoder := new ParentIdDecoder(m);
    for i := 0 to |c.parentId|
      invariant decoder.prevParentID < m && decoder.m == m && fresh(decoder)
      invariant |seen| == i && forall j :: 0 <= j < i ==>
          CellReadable(c, j) && ReadsRow(c, j, seen[j]) && seen[j].parentId < m
      invariant i > 0 ==> Or(c.key[0], "") != ""
      invariant DecodeAll(m, START, seen).Some? && decoder.State() == DecodeState(m, START, seen)
      invariant store == FileAll(DecodeAll(m, START, seen).value)
    {
      var key := Or(c.key[i], "");
      var value := ReadValue(c, i);
      if value == None {
        return Malformed, seen;
      }
      ghost var row := Row(c.parentId[i], key, value.value);
      DecodeAppend(m, START, seen, row);
      if i > 0 {
        DecodeStateHasValue(m, START, seen);
      }
      var id := decoder.Decode(c.parentId[i], key, value.value);
      if id == None {
        return Crash, seen;
      }
      FileAppend(DecodeAll(m, START, seen).value, Row(id.value, key, value.value));
      store := File(store, Row(id.value, key, value.value));
      seen := seen + [row];
    }
    return Loaded(store), seen;
  }

  ghost predicate ReadsAll(c: Columns, seen: seq<Row>)
    requires Lockstep(c)
  {
    |seen| == |c.parentId| && forall i :: 0 <= i < |seen| ==> ReadsRow(c, i, seen[i])
  }

  // ---------------------------------------------------------------- What the columns hold

  lemma FillStep(s: Schema, codes: seq<nat>, rows: seq<Row>)
    requires |codes| == |rows| > 0
    ensures var n := |rows| - 1;
            Fill(s, codes, rows) == AppendRow(Fill(s, codes[..n], rows[..n]), codes[n], rows[n])
  {
  }

  lemma {:induction false} FillAt(s: Schema, codes: seq<nat>, rows: seq<Row>, i: nat)
    requires |codes| == |rows| && !HasEmpty(rows) && i < |rows|
    ensures var c := Fill(s, codes, rows);
            var v := rows[i].value;
            && |c.parentId| == |c.key| == |c.typ| == |c.str| == |rows|
            && c.parentId[i] == codes[i] && c.key[i] == StringCell(rows[i].key)
            && c.typ[i] == TypeCode(v) && c.str[i] == StrOf(v)
            && (s.i64 ==> CellAt(c.i64, i) == IntOf(v)) && (s.f64 ==> CellAt(c.f64, i) == DoubleOf(v))
            && (s.bool_ ==> CellAt(c.bool_, i) == BoolOf(v)) && (s.bin ==> CellAt(c.bin, i) == BinOf(v))
            && (s.ser ==> CellAt(c.ser, i) == SerOf(v))
  {
    hide Cbor.Tokens, Fill;
    var n := |rows| - 1;
    FillStep(s, codes, rows);
    FillLengths(s, codes, rows);
    FillLengths(s, codes[..n], rows[..n]);
    assert rows == rows[..n] + [rows[n]];
    HasAppend(rows[..n], rows[n], 0);
    if i < n {
      FillAt(s, codes[..n], rows[..n], i);
    }
  }

  /** The cells of one row: its code, its key, its type, and its value in the one column for that type, where an
      empty text and empty bytes are null like everything in the other columns. */
  lemma CellsOfRow(s: Schema, codes: seq<nat>, rows: seq<Row>, i: nat)
    requires |codes| == |rows| && !HasEmpty(rows) && i < |rows| && RequireAll(s, rows) == s
    ensures var c := Fill(s, codes, rows);
            var v := rows[i].value;
            && Lockstep(c) && |c.parentId| == |rows| && c.parentId[i] == codes[i]
            && c.key[i] == (if rows[i].key == "" then None else Some(rows[i].key))
            && c.str[i] == (if v.Str? && v.s != "" then Some(v.s) else None)
            && CellAt(c.i64, i) == (if v.Int? then Some(v.i) else None)
            && CellAt(c.f64, i) == (if v.Double? then Some(v.d) else None)
            && CellAt(c.bool_, i) == (if v.Bool? then Some(v.b) else None)
            && CellAt(c.bin, i) == (if v.Bytes? && v.bytes != [] then Some(v.bytes) else None)
            && CellAt(c.ser, i) == (if v.Map? || v.Slice? then Some(Cbor.Tokens(v)) else None)
  {
    hide Cbor.Tokens, RequireAll;
    FillLengths(s, codes, rows);
    FillAt(s, codes, rows, i);
    RowNeedsItsColumn(s, rows, i);
    AbsentStaysAbsent(s, codes, rows);
    hide Fill;
  }

  lemma {:induction false} AbsentStaysAbsent(s: Schema, codes: seq<nat>, rows: seq<Row>)
    requires |codes| == |rows|
    ensures var c := Fill(s, codes, rows);
            && c.i64.Present? == s.i64 && c.f64.Present? == s.f64 && c.bool_.Present? == s.bool_
            && c.bin.Present? == s.bin && c.ser.Present? == s.ser
  {
    hide Cbor.Tokens;
    if rows != [] {
      AbsentStaysAbsent(s, codes[..|rows| - 1], rows[..|rows| - 1]);
    }
  }

  /** v' is what comes back for v: itself, or for a nested value some reading of its CBOR tokens. */
  ghost predicate ComesBackAs(v: Value, v': Value) {
    if IsScalar(v) then v' == v else Cbor.ReadsAs(Cbor.Tokens(v), v')
  }

  lemma ReadsWhatWasWritten(s: Schema, codes: seq<nat>, rows: seq<Row>, seen: Row, i: nat)
    requires |codes| == |rows| && !HasEmpty(rows) && i < |rows| && Require(s, rows[i].value) == s
    requires Lockstep(Fill(s, codes, rows)) && i < |Fill(s, codes, rows).parentId|
    requires ReadsRow(Fill(s, codes, rows), i, seen)
    ensures seen.parentId == codes[i] && seen.key == rows[i].key && ComesBackAs(rows[i].value, seen.value)
  {
    hide Fill, Cbor.Tokens, Cbor.ReadsAs;
    FillAt(s, codes, rows, i);
    assert !rows[i].value.Empty? by {
      assert TypeCode(rows[i].value) != 0;
    }
  }

  lemma ComesBackAlike(v: Value, v': Value)
    requires !v.Empty? && ComesBackAs(v, v')
    ensures Alike(v, v')
  {
    if !IsScalar(v) {
      Cbor.WrittenIsReadable(v);
    }
  }

  lemma RowNeedsItsColumn(s: Schema, rows: seq<Row>, i: nat)
    requires RequireAll(s, rows) == s && i < |rows|
    ensures Require(s, rows[i].value) == s
  {
    assert Has(rows, TypeCode(rows[i].value));
  }

  /** seen is rows, parent ids and all, with each value as it comes back. */
  ghost predicate SameRows(rows: seq<Row>, back: seq<Row>) {
    |rows| == |back|
    && forall i :: 0 <= i < |rows| ==>
         back[i].parentId == rows[i].parentId && back[i].key == rows[i].key && ComesBackAs(rows[i].value, back[i].value)
  }

  /** The table round trip, row by row: decoding the columns recovers every row, whatever the order
      the sorter left them in and wherever the parent-id deltas wrapped. */
  lemma TableRoundTrip(m: nat, s: Schema, rows: seq<Row>, seen: seq<Row>)
    requires m > 0 && (forall i :: 0 <= i < |rows| ==> rows[i].parentId < m)
    requires !HasEmpty(rows) && RequireAll(s, rows) == s
    requires rows != [] ==> rows[0].key != ""
    requires Lockstep(Fill(s, EncodeAll(m, START, rows), rows))
        && ReadsAll(Fill(s, EncodeAll(m, START, rows), rows), seen)
    ensures forall i :: 0 <= i < |seen| ==> seen[i].parentId < m
    ensures DecodeAll(m, START, seen).Some? && SameRows(rows, DecodeAll(m, START, seen).value)
  {
    hide Fill, RequireAll, DecodeAll;
    var codes := EncodeAll(m, START, rows);
    FillLengths(s, codes, rows);
    forall i | 0 <= i < |rows|
      ensures seen[i].parentId == codes[i] && seen[i].key == rows[i].key
      ensures ComesBackAs(rows[i].value, seen[i].value) && Alike(rows[i].value, seen[i].value)
    {
      RowNeedsItsColumn(s, rows, i);
      ReadsWhatWasWritten(s, codes, rows, seen[i], i);
      assert TypeCode(rows[i].value) != 0;
      ComesBackAlike(rows[i].value, seen[i].value);
    }
    hide Alike, ComesBackAs, EncodeAll;
    assert seen == WithIds(seen, codes);
    GroupDeltaRoundTrip(m, START, START, rows, seen);
  }

  // ---------------------------------------------------------------- What the store holds

  ghost function Lookup(store: Attributes, id: nat, k: string): Option<Value> {
    if id in store then Get(store[id], k) else None
  }

  ghost predicate StoreInv(store: Attributes) {
    forall id :: id in store ==> DistinctKeys(store[id])
  }

  lemma FileMeaning(store: Attributes, row: Row, id: nat, k: string)
    requires StoreInv(store)
    ensures StoreInv(File(store, row))
    ensures Lookup(File(store, row), id, k) ==
              if id == row.parentId && k == row.key then Some(row.value) else Lookup(store, id, k)
  {
    PutEntryMeaning(if row.parentId in store then store[row.parentId] else [], row.key, row.value);
  }

  /** The value of the last row of a parent under a key. */
  ghost function LastValue(rows: seq<Row>, id: nat, k: string): (r: Option<Value>)
    ensures r.Some? ==> Row(id, k, r.value) in rows
  {
    if rows == [] then None else
      var last := rows[|rows| - 1];
      if last.parentId == id && last.key == k then Some(last.value) else LastValue(rows[..|rows| - 1], id, k)
  }

  /** The store finds under a parent and a key what was filed there last, and nothing else. */
  lemma {:induction false} FileAllMeaning(rows: seq<Row>, id: nat, k: string)
    ensures StoreInv(FileAll(rows))
    ensures Lookup(FileAll(rows), id, k) == LastValue(rows, id, k)
    ensures id in FileAll(rows) ==> FileAll(rows)[id] != []
  {
    if rows != [] {
      var n := |rows| - 1;
      FileAllMeaning(rows[..n], id, k);
      FileMeaning(FileAll(rows[..n]), rows[n], id, k);
    }
  }

  lemma {:induction false} LastValueExists(rows: seq<Row>, i: nat)
    requires i < |rows|
    ensures LastValue(rows, rows[i].parentId, rows[i].key).Some?
  {
    var n := |rows| - 1;
    if i < n {
      LastValueExists(rows[..n], i);
    }
  }
}
