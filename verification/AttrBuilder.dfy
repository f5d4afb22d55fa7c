/** Building attribute tables: a record builder whose schema and dictionaries outlive every batch. */
module AttrBuilder {
  import opened Wrappers
  import opened Values
  import opened GroupDelta
  import opened Sorting
  import opened AttrOrder
  import opened AttrTable
  import opened Dictionaries
  import Cbor

  // ---------------------------------------------------------------- Dictionary columns

  /** The columns with a dictionary are, in order: key, string, int, bytes and serialized value. */
  const DICTIONARIES: nat := 5

  datatype DictValue = Text(s: string) | Number(i: int64) | Raw(bytes: seq<byte>) | Nested(tokens: seq<Cbor.Token>)

  function AsText(s: Option<string>): Option<DictValue> {
    if s.Some? then Some(Text(s.value)) else None
  }

  /** What a row adds to the dictionary of column k, if anything. */
  function Puts(row: Row, k: nat): Option<DictValue> {
    var v := row.value;
    if k == 0 then AsText(StringCell(row.key))
    else if k == 1 then AsText(StrOf(v))
    else if k == 2 then (if v.Int? then Some(Number(v.i)) else None)
    else if k == 3 then (if v.Bytes? && v.bytes != [] then Some(Raw(v.bytes)) else None)
    else if v.Map? || v.Slice? then Some(Nested(Cbor.Tokens(v))) else None
  }

  predicate InSchema(s: Schema, k: nat) {
    k < 2 || (k == 2 && s.i64) || (k == 3 && s.bin) || (k == 4 && s.ser)
  }

  /** The different values that these rows add to the dictionary of column k. */
  function Distinct(rows: seq<Row>, k: nat): set<DictValue> {
    set r | r in rows && Puts(r, k).Some? :: Puts(r, k).value
  }

  lemma DistinctSnoc(rows: seq<Row>, row: Row, k: nat)
    ensures Distinct(rows + [row], k) == Distinct(rows, k) + (if Puts(row, k).Some? then {Puts(row, k).value} else {})
  {
    hide Puts;
    assert forall r :: r in rows + [row] <==> r in rows || r == row;
  }

  lemma DistinctPermuted(rows: seq<Row>, rows': seq<Row>, k: nat)
    requires multiset(rows) == multiset(rows')
    ensures Distinct(rows, k) == Distinct(rows', k)
  {
    SameMembers(rows, rows');
    hide Puts;
  }

  type Memo = set<DictValue>


  /** What a record builder keeps from batch to batch: its optional columns, the indexes of its
      dictionaries and the values these hold. */
  datatype RecordState = RecordState(schema: Schema, dicts: seq<Dict>, memos: seq<Memo>) {
    ghost predicate Valid() {
      |dicts| == |memos| == DICTIONARIES && forall k :: 0 <= k < DICTIONARIES ==> dicts[k].Valid()
    }
  }

  const NO_MEMOS: seq<Memo> := [{}, {}, {}, {}, {}]

  /** The dictionaries after these rows. */
  function Filled(s: Schema, memos: seq<Memo>, rows: seq<Row>): (after: seq<Memo>)
    requires |memos| == DICTIONARIES
    ensures |after| == DICTIONARIES
  {
    seq(DICTIONARIES, k requires 0 <= k < DICTIONARIES =>
      if InSchema(s, k) then memos[k] + Distinct(rows, k) else memos[k])
  }

  /** The indexes after making a record with these dictionaries. */
  function RaiseAll(s: Schema, dicts: seq<Dict>, memos: seq<Memo>): (raised: seq<Dict>)
    requires |dicts| == |memos| == DICTIONARIES && forall k :: 0 <= k < DICTIONARIES ==> dicts[k].Valid()
    ensures |raised| == DICTIONARIES
  {
    seq(DICTIONARIES, k requires 0 <= k < DICTIONARIES =>
      if InSchema(s, k) then Raise(dicts[k], |memos[k]|) else dicts[k])
  }

  function PutRow(s: Schema, memos: seq<Memo>, row: Row): seq<Memo>
    requires |memos| == DICTIONARIES
  {
    seq(DICTIONARIES, k requires 0 <= k < DICTIONARIES =>
      if InSchema(s, k) && Puts(row, k).Some? then memos[k] + {Puts(row, k).value} else memos[k])
  }

  lemma FillOneMore(s: Schema, memos: seq<Memo>, rows: seq<Row>, row: Row)
    requires |memos| == DICTIONARIES
    ensures Filled(s, memos, rows + [row]) == PutRow(s, Filled(s, memos, rows), row)
  {
    var put := PutRow(s, Filled(s, memos, rows), row);
    forall k | 0 <= k < DICTIONARIES ensures Filled(s, memos, rows + [row])[k] == put[k] {
      DistinctSnoc(rows, row, k);
    }
  }

  lemma NothingFilled(s: Schema, memos: seq<Memo>)
    requires |memos| == DICTIONARIES
    ensures Filled(s, memos, []) == memos
  {
    forall k | 0 <= k < DICTIONARIES ensures Filled(s, memos, [])[k] == memos[k] {
      assert Distinct([], k) == {};
    }
  }

  // ---------------------------------------------------------------- What dictionaries hold, seen from the columns

  function Texts(cells: seq<Option<string>>): set<DictValue> {
    set i | 0 <= i < |cells| && cells[i].Some? :: Text(cells[i].value)
  }

  function Numbers(cells: seq<Option<int64>>): set<DictValue> {
    set i | 0 <= i < |cells| && cells[i].Some? :: Number(cells[i].value)
  }

  function Raws(cells: seq<Option<seq<byte>>>): set<DictValue> {
    set i | 0 <= i < |cells| && cells[i].Some? :: Raw(cells[i].value)
  }

  function Nesteds(cells: seq<Option<seq<Cbor.Token>>>): set<DictValue> {
    set i | 0 <= i < |cells| && cells[i].Some? :: Nested(cells[i].value)
  }

  predicate HasColumn(c: Columns, k: nat) {
    k < 2 || (k == 2 && c.i64.Present?) || (k == 3 && c.bin.Present?) || (k == 4 && c.ser.Present?)
  }

  /** The different values in the cells of the k-th column that has a dictionary. */
  function CellsOf(c: Columns, k: nat): set<DictValue>
    requires HasColumn(c, k)
  {
    if k == 0 then Texts(c.key)
    else if k == 1 then Texts(c.str)
    else if k == 2 then Numbers(c.i64.cells)
    else if k == 3 then Raws(c.bin.cells)
    else Nesteds(c.ser.cells)
  }

  lemma CellsNext(c: Columns, code: nat, row: Row, k: nat)
    ensures HasColumn(AppendRow(c, code, row), k) <==> HasColumn(c, k)
    ensures HasColumn(c, k) ==> CellsOf(AppendRow(c, code, row), k)
                                == CellsOf(c, k) + if Puts(row, k).Some? then {Puts(row, k).value} else {}
  {
    var d := AppendRow(c, code, row);
    if k == 0 {
      TextsSnoc(c.key, StringCell(row.key));
    } else if row.value.Empty? {
    } else if k == 1 {
      TextsSnoc(c.str, StrOf(row.value));
    } else if k == 2 && c.i64.Present? {
      NumbersSnoc(c.i64.cells, IntOf(row.value));
    } else if k == 3 && c.bin.Present? {
      RawsSnoc(c.bin.cells, BinOf(row.value));
    } else if k == 4 && c.ser.Present? {
      NestedsSnoc(c.ser.cells, SerOf(row.value));
    }
    hide Texts, Numbers, Raws, Nesteds, Cbor.Tokens;
  }

  lemma TextsSnoc(cells: seq<Option<string>>, cell: Option<string>)
    ensures Texts(cells + [cell]) == Texts(cells) + if cell.Some? then {Text(cell.value)} else {}
  {
    forall i | 0 <= i < |cells| ensures (cells + [cell])[i] == cells[i] {
    }
    assert (cells + [cell])[|cells|] == cell;
  }

  lemma NumbersSnoc(cells: seq<Option<int64>>, cell: Option<int64>)
    ensures Numbers(cells + [cell]) == Numbers(cells) + if cell.Some? then {Number(cell.value)} else {}
  {
    forall i | 0 <= i < |cells| ensures (cells + [cell])[i] == cells[i] {
    }
    assert (cells + [cell])[|cells|] == cell;
  }

  lemma RawsSnoc(cells: seq<Option<seq<byte>>>, cell: Option<seq<byte>>)
    ensures Raws(cells + [cell]) == Raws(cells) + if cell.Some? then {Raw(cell.value)} else {}
  {
    forall i | 0 <= i < |cells| ensures (cells + [cell])[i] == cells[i] {
    }
    assert (cells + [cell])[|cells|] == cell;
  }

  lemma NestedsSnoc(cells: seq<Option<seq<Cbor.Token>>>, cell: Option<seq<Cbor.Token>>)
    ensures Nesteds(cells + [cell]) == Nesteds(cells) + if cell.Some? then {Nested(cell.value)} else {}
  {
    forall i | 0 <= i < |cells| ensures (cells + [cell])[i] == cells[i] {
    }
    assert (cells + [cell])[|cells|] == cell;
  }

  /** The values that rows add to a dictionary are the values in the cells they are written to. */
  lemma {:induction false} DistinctAreCells(s: Schema, codes: seq<nat>, rows: seq<Row>, k: nat)
    requires |codes| == |rows| && k < DICTIONARIES
    ensures HasColumn(Fill(s, codes, rows), k) <==> InSchema(s, k)
    ensures InSchema(s, k) ==> CellsOf(Fill(s, codes, rows), k) == Distinct(rows, k)
  {
    if rows == [] {
      assert Distinct([], k) == {};
    } else {
      var n := |rows| - 1;
      DistinctAreCells(s, codes[..n], rows[..n], k);
      CellsNext(Fill(s, codes[..n], rows[..n]), codes[n], rows[n], k);
      DistinctSnoc(rows[..n], rows[n], k);
      assert rows == rows[..n] + [rows[n]];
      hide AppendRow, Puts, CellsOf, HasColumn, Distinct, InSchema;
    }
  }

  /** Every dictionary holds what it held and exactly the values in the cells of its column. */
  ghost predicate HoldsCells(memos: seq<Memo>, before: seq<Memo>, c: Columns) {
    && |memos| == |before| == DICTIONARIES
    && forall k :: 0 <= k < DICTIONARIES ==> memos[k] == before[k] + if HasColumn(c, k) then CellsOf(c, k) else {}
  }

  lemma FilledHoldsCells(s: Schema, codes: seq<nat>, rows: seq<Row>, before: seq<Memo>)
    requires |codes| == |rows| && |before| == DICTIONARIES
    ensures HoldsCells(Filled(s, before, rows), before, Fill(s, codes, rows))
  {
    forall k | 0 <= k < DICTIONARIES
      ensures Filled(s, before, rows)[k]
           == before[k] + if HasColumn(Fill(s, codes, rows), k) then CellsOf(Fill(s, codes, rows), k) else {}
    {
      DistinctAreCells(s, codes, rows, k);
      hide HasColumn, CellsOf, Distinct, InSchema, Fill;
    }
  }

  // ---------------------------------------------------------------- One attempt

  predicate IdsBelow(m: nat, rows: seq<Row>) {
    forall i :: 0 <= i < |rows| ==> rows[i].parentId < m
  }

  /** Ragged is the panic over columns of different lengths. */
  datatype Built = Record(columns: Columns) | NotUpToDate | Ragged

  /** A new schema starts with empty dictionaries. */
  function AfterTry(st: RecordState, rows: seq<Row>): RecordState
    requires st.Valid()
  {
    var wanted, memos := RequireAll(st.schema, rows), Filled(st.schema, st.memos, rows);
    if wanted != st.schema then RecordState(wanted, st.dicts, NO_MEMOS)
    else if HasEmpty(rows) then st.(memos := memos)
    else
      var raised := RaiseAll(st.schema, st.dicts, memos);
      if raised != st.dicts then RecordState(st.schema, raised, NO_MEMOS) else st.(memos := memos)
  }

  /** The attempt ends in a schema update: for a missing column or, failing that, a full dictionary. */
  predicate Fails(st: RecordState, rows: seq<Row>)
    requires st.Valid()
  {
    || RequireAll(st.schema, rows) != st.schema
    || (!HasEmpty(rows) && RaiseAll(st.schema, st.dicts, Filled(st.schema, st.memos, rows)) != st.dicts)
  }

  ghost function TryOutcome(m: nat, st: RecordState, rows: seq<Row>): Built
    requires st.Valid() && m > 0 && IdsBelow(m, rows)
  {
    if Fails(st, rows) then NotUpToDate
    else if HasEmpty(rows) then Ragged
    else Record(Fill(st.schema, EncodeAll(m, START, rows), rows))
  }

  lemma TryKeepsValid(st: RecordState, rows: seq<Row>)
    requires st.Valid()
    ensures AfterTry(st, rows).Valid() && AfterTry(st, rows).schema == RequireAll(st.schema, rows)
  {
    var memos := Filled(st.schema, st.memos, rows);
    hide RequireAll, HasEmpty, Raise, Filled, Dict.Valid;
    forall k | 0 <= k < DICTIONARIES ensures Raise(st.dicts[k], |memos[k]|).Valid() {
      RaiseMeaning(st.dicts[k], |memos[k]|);
    }
  }

  /** The order of the rows makes no difference to any of this. */
  lemma TryPermuted(st: RecordState, rows: seq<Row>, rows': seq<Row>)
    requires st.Valid() && multiset(rows) == multiset(rows')
    ensures AfterTry(st, rows) == AfterTry(st, rows') && (Fails(st, rows) <==> Fails(st, rows'))
  {
    RequireAllPermuted(st.schema, rows, rows');
    HasPermuted(rows, rows', 0);
    forall k | 0 <= k < DICTIONARIES ensures Distinct(rows, k) == Distinct(rows', k) {
      DistinctPermuted(rows, rows', k);
    }
    hide RequireAll, Has, Distinct, InSchema;
    assert Filled(st.schema, st.memos, rows) == Filled(st.schema, st.memos, rows');
  }

  // ---------------------------------------------------------------- Attempts in a row

  ghost function AfterTries(st: RecordState, rows: seq<Row>, n: nat): (after: RecordState)
    requires st.Valid()
    ensures after.Valid()
  {
    if n == 0 then st
    else
      var before := AfterTries(st, rows, n - 1);
      TryKeepsValid(before, rows);
      AfterTry(before, rows)
  }

  /** A dictionary that was raised for these rows, whatever else it held, is not full for them alone. */
  lemma RaisedEnough(st: RecordState, rows: seq<Row>)
    requires st.Valid()
    ensures var raised := RaiseAll(st.schema, st.dicts, Filled(st.schema, st.memos, rows));
      && RecordState(st.schema, raised, NO_MEMOS).Valid()
      && RaiseAll(st.schema, raised, Filled(st.schema, NO_MEMOS, rows)) == raised
  {
    var memos, own := Filled(st.schema, st.memos, rows), Filled(st.schema, NO_MEMOS, rows);
    var raised := RaiseAll(st.schema, st.dicts, memos);
    forall k | 0 <= k < DICTIONARIES
      ensures raised[k].Valid() && (InSchema(st.schema, k) ==> Raise(raised[k], |own[k]|) == raised[k])
    {
      if InSchema(st.schema, k) {
        assert own[k] <= memos[k];
        SubsetSize(own[k], memos[k]);
        RaisedHolds(st.dicts[k], |memos[k]|, |own[k]|);
      }
    }
    hide Raise, Filled, InSchema;
    assert RaiseAll(st.schema, raised, own) == raised;
  }

  /** How many attempts fail: one if columns are missing, and one if then a dictionary is full. */
  function FailuresOf(st: RecordState, rows: seq<Row>): nat
    requires st.Valid()
  {
    var grown := if RequireAll(st.schema, rows) == st.schema then st else AfterTry(st, rows);
    TryKeepsValid(st, rows);
    (if grown != st then 1 else 0) + (if Fails(grown, rows) then 1 else 0)
  }

  /** After a missing column a second attempt can only fail on a dictionary, and after that none does. */
  lemma AttemptsThatFail(st: RecordState, rows: seq<Row>)
    requires st.Valid()
    ensures FailuresOf(st, rows) <= 2
    ensures forall n :: 0 <= n < FailuresOf(st, rows) ==> Fails(AfterTries(st, rows, n), rows)
    ensures !Fails(AfterTries(st, rows, FailuresOf(st, rows)), rows)
  {
    var first := AfterTries(st, rows, 1);
    assert AfterTries(st, rows, 0) == st && AfterTries(st, rows, 1) == AfterTry(st, rows);
    assert AfterTries(st, rows, 2) == AfterTry(first, rows);
    RequireAllTwice(st.schema, rows);
    var grown := if RequireAll(st.schema, rows) == st.schema then st else first;
    RaisedEnough(grown, rows);
    hide RequireAll, HasEmpty, RaiseAll, Filled;
  }

  lemma FirstTry(st: RecordState, rows: seq<Row>)
    requires st.Valid()
    ensures AfterTries(st, rows, 0) == st && AfterTries(st, rows, 1) == AfterTry(st, rows)
    ensures FailuresOf(st, rows) <= 2
  {
    AttemptsThatFail(st, rows);
    hide AfterTry, FailuresOf;
    assert AfterTries(st, rows, 0) == st;
  }

  lemma OneMoreFailure(m: nat, st: RecordState, rows: seq<Row>, n: nat)
    requires st.Valid() && m > 0 && IdsBelow(m, rows) && n <= FailuresOf(st, rows)
    requires TryOutcome(m, AfterTries(st, rows, n), rows) == NotUpToDate
    ensures n < FailuresOf(st, rows) <= 2
  {
    AttemptsThatFail(st, rows);
    hide Fails, FailuresOf, AfterTries, Fill, HasEmpty;
  }

  lemma {:induction false} TriesPermuted(st: RecordState, rows: seq<Row>, rows': seq<Row>, n: nat)
    requires st.Valid() && multiset(rows) == multiset(rows')
    ensures AfterTries(st, rows, n) == AfterTries(st, rows', n)
  {
    hide AfterTry, Fails, RecordState.Valid;
    if n > 0 {
      TriesPermuted(st, rows, rows', n - 1);
      TryPermuted(AfterTries(st, rows, n - 1), rows, rows');
    }
  }

  lemma FailuresPermuted(st: RecordState, rows: seq<Row>, rows': seq<Row>)
    requires st.Valid() && multiset(rows) == multiset(rows')
    ensures FailuresOf(st, rows) == FailuresOf(st, rows')
  {
    TryPermuted(st, rows, rows');
    RequireAllPermuted(st.schema, rows, rows');
    TryKeepsValid(st, rows);
    TryPermuted(AfterTry(st, rows), rows, rows');
    hide AfterTry, Fails, RequireAll, RecordState.Valid;
  }

  lemma Retried(st: RecordState, initial: seq<Row>, before: seq<Row>, now: seq<Row>, n: nat)
    requires st.Valid() && SortOutcome(initial, before, AttrLess) && SortOutcome(before, now, AttrLess)
    ensures SortOutcome(initial, now, AttrLess) && FailuresOf(st, before) == FailuresOf(st, now)
    ensures AfterTries(st, before, n) == AfterTries(st, now, n)
    ensures AfterTries(st, now, n + 1) == AfterTry(AfterTries(st, now, n), now)
  {
    SortOutcomeTransitive(initial, before, now, AttrLess);
    PermutedAttrs(before, now);
    TriesPermuted(st, before, now, n);
    FailuresPermuted(st, before, now);
    hide FailuresOf, AfterTry, SortOutcome;
    assert AfterTries(st, now, n + 1) == AfterTry(AfterTries(st, now, n), now);
  }

  /** The attempt that does not fail leaves the schema that the rows need. */
  lemma Finished(m: nat, st: RecordState, rows: seq<Row>, n: nat)
    requires st.Valid() && m > 0 && IdsBelow(m, rows) && n <= FailuresOf(st, rows)
    requires TryOutcome(m, AfterTries(st, rows, n), rows) != NotUpToDate
    ensures n == FailuresOf(st, rows)
    ensures var last := AfterTries(st, rows, n);
            && last.schema == RequireAll(st.schema, rows) == AfterTries(st, rows, n + 1).schema
            && TryOutcome(m, last, rows) == if HasEmpty(rows) then Ragged
                                            else Record(Fill(last.schema, EncodeAll(m, START, rows), rows))
  {
    AttemptsThatFail(st, rows);
    assert !Fails(AfterTries(st, rows, n), rows);
    TriesSchema(st, rows, n);
    TriesSchema(st, rows, n + 1);
    hide FailuresOf, AfterTries, Fill, HasEmpty, RequireAll;
  }

  /** What these rows find in the dictionaries: nothing, once a missing column has renewed them. */
  function MemosMet(st: RecordState, s: Schema): (memos: seq<Memo>)
    requires |st.memos| == DICTIONARIES
    ensures |memos| == DICTIONARIES
  {
    if s == st.schema then st.memos else NO_MEMOS
  }

  /** The index of dictionary k after a build that returned c. */
  ghost predicate IndexAfter(st: RecordState, last: RecordState, c: Columns, k: nat)
    requires st.Valid() && last.Valid() && k < DICTIONARIES
  {
    if HasColumn(c, k)
    then last.dicts[k] == Raise(st.dicts[k], |MemosMet(st, last.schema)[k] + CellsOf(c, k)|)
         && last.dicts[k].Holds(|last.memos[k]|)
    else last.dicts[k] == st.dicts[k]
  }

  /** What a build leaves behind, in terms of the table it returns: the dictionaries hold the values of its
      cells, on top of what they held unless an attempt failed; each index is the old one raised for the
      values it met; and an attempt failed for new columns, and one for raised indexes. */
  ghost predicate LeftBehind(st: RecordState, last: RecordState, failures: nat, c: Columns) {
    && st.Valid() && last.Valid()
    && HoldsCells(last.memos, if failures == 0 then st.memos else NO_MEMOS, c)
    && (forall k :: 0 <= k < DICTIONARIES ==> IndexAfter(st, last, c, k))
    && failures == (if last.schema != st.schema then 1 else 0) + (if last.dicts != st.dicts then 1 else 0)
  }

  lemma Settled(st: RecordState, rows: seq<Row>, codes: seq<nat>)
    requires st.Valid() && !HasEmpty(rows) && |codes| == |rows|
    ensures var n := FailuresOf(st, rows);
            LeftBehind(st, AfterTries(st, rows, n + 1), n, Fill(RequireAll(st.schema, rows), codes, rows))
  {
    var n := FailuresOf(st, rows);
    SettledBy(st, rows);
    hide AfterTries, FailuresOf, RequireAll, Fill, RaiseAll, Filled, LeftBehind, HasEmpty;
    SettledAs(st, AfterTries(st, rows, n + 1), n, rows, codes);
  }

  lemma SettledAs(st: RecordState, last: RecordState, n: nat, rows: seq<Row>, codes: seq<nat>)
    requires st.Valid() && last.Valid() && |codes| == |rows|
    requires last.memos == Filled(last.schema, if n == 0 then st.memos else NO_MEMOS, rows)
    requires last.dicts == RaiseAll(last.schema, st.dicts, Filled(last.schema, MemosMet(st, last.schema), rows))
    requires n == (if last.schema != st.schema then 1 else 0) + (if last.dicts != st.dicts then 1 else 0)
    ensures LeftBehind(st, last, n, Fill(last.schema, codes, rows))
  {
    var base := if n == 0 then st.memos else NO_MEMOS;
    FilledHoldsCells(last.schema, codes, rows, base);
    hide HoldsCells, Fill, RaiseAll, Filled, IndexAfter, MemosMet, RecordState.Valid;
    forall k | 0 <= k < DICTIONARIES ensures IndexAfter(st, last, Fill(last.schema, codes, rows), k) {
      IndexSettled(st, last, rows, codes, base, k);
    }
  }

  lemma IndexSettled(st: RecordState, last: RecordState, rows: seq<Row>, codes: seq<nat>, base: seq<Memo>, k: nat)
    requires st.Valid() && last.Valid() && |codes| == |rows| && k < DICTIONARIES && |base| == DICTIONARIES
    requires last.memos == Filled(last.schema, base, rows)
    requires last.dicts == RaiseAll(last.schema, st.dicts, Filled(last.schema, MemosMet(st, last.schema), rows))
    requires base == st.memos ==> last.schema == st.schema || base == NO_MEMOS
    requires base == st.memos || base == NO_MEMOS
    ensures IndexAfter(st, last, Fill(last.schema, codes, rows), k)
  {
    var s := last.schema;
    DistinctAreCells(s, codes, rows, k);
    var met := MemosMet(st, s)[k] + Distinct(rows, k);
    RaiseMeaning(st.dicts[k], |met|);
    hide HasColumn, CellsOf, Distinct, Fill, Raise;
    if InSchema(s, k) {
      assert last.memos[k] <= met;
      SubsetSize(last.memos[k], met);
    }
  }

  lemma SettledTable(m: nat, st: RecordState, rows: seq<Row>)
    requires st.Valid() && m > 0 && IdsBelow(m, rows) && !HasEmpty(rows)
    ensures var n := FailuresOf(st, rows);
            LeftBehind(st, AfterTries(st, rows, n + 1), n,
                       Fill(RequireAll(st.schema, rows), EncodeAll(m, START, rows), rows))
  {
    Settled(st, rows, EncodeAll(m, START, rows));
  }

  lemma SettledBy(st: RecordState, rows: seq<Row>)
    requires st.Valid() && !HasEmpty(rows)
    ensures var n, s := FailuresOf(st, rows), RequireAll(st.schema, rows);
      var last := AfterTries(st, rows, n + 1);
      && last.schema == s
      && last.memos == Filled(s, if n == 0 then st.memos else NO_MEMOS, rows)
      && last.dicts == RaiseAll(s, st.dicts, Filled(s, MemosMet(st, s), rows))
      && n == (if s != st.schema then 1 else 0) + (if last.dicts != st.dicts then 1 else 0)
  {
    var first := AfterTries(st, rows, 1);
    assert AfterTries(st, rows, 0) == st && first == AfterTry(st, rows);
    var second := AfterTries(st, rows, 2);
    assert second == AfterTry(first, rows) && AfterTries(st, rows, 3) == AfterTry(second, rows);
    RequireAllTwice(st.schema, rows);
    var grown := if RequireAll(st.schema, rows) == st.schema then st else first;
    RaisedEnough(grown, rows);
    hide RequireAll, HasEmpty, RaiseAll, Filled;
  }

  lemma {:induction false} TriesSchema(st: RecordState, rows: seq<Row>, n: nat)
    requires st.Valid()
    ensures AfterTries(st, rows, n).schema == if n == 0 then st.schema else RequireAll(st.schema, rows)
  {
    hide AfterTry, RequireAll, RecordState.Valid;
    if n > 0 {
      TriesSchema(st, rows, n - 1);
      TryKeepsValid(AfterTries(st, rows, n - 1), rows);
      RequireAllTwice(st.schema, rows);
    }
  }

  /** What a build of NaN-free rows emits, however the sort arranged them: in each group of equal
      attributes one absolute parent id, at its first row, and then plain differences. */
  lemma EmittedParentIds(m: nat, st: RecordState, accumulated: seq<Row>, rows: seq<Row>, c: Columns, i: nat)
    requires m > 0 && NoNaN(accumulated) && SortOutcome(accumulated, rows, AttrLess)
    requires IdsBelow(m, rows) && i < |rows|
    requires st.Valid() && TryOutcome(m, st, rows) == Record(c)
    ensures |c.parentId| == |rows|
    ensures if forall j :: 0 <= j < i ==> !SameAttr(rows[j], rows[i])
            then c.parentId[i] == rows[i].parentId
            else i > 0 && SameAttr(rows[i - 1], rows[i]) && rows[i - 1].parentId <= rows[i].parentId
                 && c.parentId[i] == rows[i].parentId - rows[i - 1].parentId
  {
    AttrLessIsWeakOrder(accumulated);
    SameMembers(accumulated, rows);
    forall k | 0 <= k < |rows| ensures !IsNaN(rows[k].value) {
      assert rows[k] in accumulated;
    }
    hide AttrLess, WeakOrderOn, Fill, Fails;
    ParentColumn(st.schema, EncodeAll(m, START, rows), rows);
    SortedGroups(m, rows, i);
  }

  lemma PermutedAttrs(s: seq<Row>, t: seq<Row>)
    requires SortOutcome(s, t, AttrLess)
    ensures multiset(s) == multiset(t)
  {
  }

  lemma SortKeepsIds(s: seq<Row>, t: seq<Row>, m: nat)
    requires multiset(s) == multiset(t) && IdsBelow(m, s)
    ensures IdsBelow(m, t)
  {
    SameMembers(s, t);
    forall i | 0 <= i < |t| ensures t[i].parentId < m {
      assert t[i] in s;
    }
  }

  // ---------------------------------------------------------------- The builder

  class AttrsBuilder {
    const m: nat
    const sorter: Sorter
    const accumulator: Accumulator
    const dicts: seq<DictionaryField>
    var schema: Schema
    var memos: seq<Memo>

    ghost predicate Valid()
      reads this, dicts
    {
      && m > 0 && sorter.m == m && |dicts| == |memos| == DICTIONARIES
      && (forall i, j :: 0 <= i < j < DICTIONARIES ==> dicts[i] != dicts[j])
      && (forall k :: 0 <= k < DICTIONARIES ==> dicts[k].State().Valid())
    }

    ghost function Indexes(): (ds: seq<Dict>)
      requires Valid()
      reads this, dicts
      ensures |ds| == DICTIONARIES && forall k :: 0 <= k < DICTIONARIES ==> ds[k] == dicts[k].State()
    {
      [dicts[0].State(), dicts[1].State(), dicts[2].State(), dicts[3].State(), dicts[4].State()]
    }

    ghost function State(): (st: RecordState)
      requires Valid()
      reads this, dicts
      ensures st.Valid()
    {
      RecordState(schema, Indexes(), memos)
    }

    /** Keys start with an 8-bit index and the other dictionaries with a 16-bit one, configuration permitting. */
    constructor (m: nat, maxCount: nat, maxCard: nat)
      requires m > 0
      ensures Valid() && fresh(sorter) && fresh(accumulator) && fresh(dicts)
      ensures this.m == m && accumulator.maxCount == maxCount
      ensures accumulator.attrs == [] && accumulator.attrsMapCount == 0
      ensures schema == NO_COLUMNS && memos == NO_MEMOS
      ensures Indexes()[0] == NewDict(0xFF, maxCard)
      ensures forall k :: 1 <= k < DICTIONARIES ==> Indexes()[k] == NewDict(0xFFFF, maxCard)
    {
      hide NewDict, Dict.Valid;
      this.m := m;
      sorter := new Sorter(m);
      accumulator := new Accumulator(maxCount);
      var key := new DictionaryField(0xFF, maxCard);
      var str := new DictionaryField(0xFFFF, maxCard);
      var i64 := new DictionaryField(0xFFFF, maxCard);
      var bin := new DictionaryField(0xFFFF, maxCard);
      var ser := new DictionaryField(0xFFFF, maxCard);
      dicts := [key, str, i64, bin, ser];
      schema, memos := NO_COLUMNS, NO_MEMOS;
    }

    method Reset()
      modifies accumulator
      ensures accumulator.attrs == [] && accumulator.attrsMapCount == 0
    {
      accumulator.Reset();
    }

    /** The append loop: one row at a time into nine builders and five dictionaries, noting missing columns. */
    method FillColumns() returns (c: Columns, wanted: Schema)
      requires Valid() && IdsBelow(m, accumulator.attrs) && sorter.State() == START
      modifies sorter, this`memos
      ensures Valid() && memos == Filled(schema, old(memos), accumulator.attrs)
      ensures HoldsCells(memos, old(memos), c)
      ensures c == Fill(schema, EncodeAll(m, START, accumulator.attrs), accumulator.attrs)
      ensures wanted == RequireAll(schema, accumulator.attrs)
    {
      hide RequireAll, Has, AppendRow, Require, EncodeStep, Filled, Puts;
      var attrs := accumulator.attrs;
      c, wanted := NewColumns(schema), schema;
      ghost var codes := EncodeAll(m, START, attrs);
      RequireNothing(schema);
      NothingFilled(schema, memos);
      assert c == Fill(schema, codes[..0], attrs[..0]);
      hide Fill, NewColumns;
      for i := 0 to |attrs|
        invariant sorter.prevParentID < m
        invariant EncodeAll(m, sorter.State(), attrs[i..]) == codes[i..]
        invariant c == Fill(schema, codes[..i], attrs[..i])
        invariant wanted == RequireAll(schema, attrs[..i])
        invariant memos == Filled(schema, old(memos), attrs[..i])
      {
        var v := attrs[i].value;
        assert attrs[i..][0] == attrs[i] && attrs[i..][1..] == attrs[i + 1..];
        var code := sorter.Encode(attrs[i].parentId, attrs[i].key, v);
        assert code == codes[i..][0] && codes[i..][1..] == codes[i + 1..];
        c := AppendToColumns(c, code, attrs[i]);
        wanted := Require(wanted, v);
        FillOneMore(schema, old(memos), attrs[..i], attrs[i]);
        memos := PutRow(schema, memos, attrs[i]);
        RequireAppend(schema, attrs[..i], attrs[i]);
        assert attrs[..i + 1] == attrs[..i] + [attrs[i]];
        FillNext(schema, codes, attrs, i);
      }
      assert attrs[..|attrs|] == attrs && codes[..|attrs|] == codes;
      FilledHoldsCells(schema, codes, attrs, old(memos));
      hide HoldsCells;
    }

    /** True if no dictionary is full: the others have been raised or given up. */
    method DetectDictionaryOverflow() returns (upToDate: bool)
      requires Valid()
      modifies dicts
      ensures Valid() && Indexes() == RaiseAll(schema, old(Indexes()), memos)
      ensures upToDate <==> Indexes() == old(Indexes())
    {
      hide Raise, Dict.Valid;
      ghost var before := Indexes();
      upToDate := true;
      for k := 0 to DICTIONARIES
        invariant Valid()
        invariant forall j :: 0 <= j < k ==>
            dicts[j].State() == if InSchema(schema, j) then Raise(before[j], |memos[j]|) else before[j]
        invariant forall j :: k <= j < DICTIONARIES ==> dicts[j].State() == before[j]
        invariant upToDate <==> forall j :: 0 <= j < k ==> dicts[j].State() == before[j]
      {
        if InSchema(schema, k) {
          var changed := dicts[k].SetCardinality(|memos[k]|);
          upToDate := upToDate && !changed;
        }
      }
    }

    method TryBuild() returns (r: Built)
      requires Valid() && IdsBelow(m, accumulator.attrs)
      modifies this, sorter, accumulator`attrs, dicts
      ensures Valid() && IdsBelow(m, accumulator.attrs)
      ensures SortOutcome(old(accumulator.attrs), accumulator.attrs, AttrLess)
      ensures State() == AfterTry(old(State()), accumulator.attrs)
      ensures r == TryOutcome(m, old(State()), accumulator.attrs)
    {
      hide RequireAll, Has, SortOutcome, Fill, EncodeAll, AttrLess, Filled, RaiseAll, HoldsCells, Lockstep, HasEmpty;
      accumulator.attrs := SortSlice(accumulator.attrs, AttrLess);
      SortKeepsIds(old(accumulator.attrs), accumulator.attrs, m);
      sorter.Reset();
      var c, wanted := FillColumns();
      LockstepIff(schema, EncodeAll(m, START, accumulator.attrs), accumulator.attrs);
      if wanted != schema {
        schema, memos := wanted, NO_MEMOS;
        return NotUpToDate;
      }
      if !Lockstep(c) {
        return Ragged;
      }
      var upToDate := DetectDictionaryOverflow();
      if !upToDate {
        memos := NO_MEMOS;
        return NotUpToDate;
      }
      return Record(c);
    }

    /** Retries until the schema fits.  The panic after five failures in a row is never met: whatever
        earlier batches have left behind, at most two attempts fail. */
    method Build() returns (r: Built, ghost failures: nat)
      requires Valid() && IdsBelow(m, accumulator.attrs)
      modifies this, sorter, accumulator`attrs, dicts
      ensures Valid() && IdsBelow(m, accumulator.attrs)
      ensures SortOutcome(old(accumulator.attrs), accumulator.attrs, AttrLess)
      ensures failures == FailuresOf(old(State()), accumulator.attrs) <= 2
      ensures State() == AfterTries(old(State()), accumulator.attrs, failures + 1)
      ensures schema == RequireAll(old(schema), accumulator.attrs)
      ensures r.Record? ==> LeftBehind(old(State()), State(), failures, r.columns)
      ensures r == if HasEmpty(accumulator.attrs) then Ragged
                   else Record(Fill(schema, EncodeAll(m, START, accumulator.attrs), accumulator.attrs))
    {
      hide RequireAll, Has, SortOutcome, Fill, EncodeAll, AttrLess, Filled, RaiseAll, AfterTry, AfterTries, Fails;
      hide FailuresOf, TryOutcome, RecordState.Valid, Dict.Valid, IdsBelow, HasEmpty, LeftBehind;
      ghost var st := State();
      r := TryBuild();
      var schemaNotUpToDateCount := 0;
      failures := 0;
      FirstTry(st, accumulator.attrs);
      while r == NotUpToDate
        invariant Valid() && IdsBelow(m, accumulator.attrs)
        invariant SortOutcome(old(accumulator.attrs), accumulator.attrs, AttrLess)
        invariant failures == schemaNotUpToDateCount <= FailuresOf(st, accumulator.attrs) <= 2
        invariant State() == AfterTries(st, accumulator.attrs, failures + 1)
        invariant r == TryOutcome(m, AfterTries(st, accumulator.attrs, failures), accumulator.attrs)
        decreases 2 - failures, if r == NotUpToDate then 1 else 0
      {
        OneMoreFailure(m, st, accumulator.attrs, failures);
        schemaNotUpToDateCount := schemaNotUpToDateCount + 1;
        failures := failures + 1;
        if schemaNotUpToDateCount > 5 {
          assert false;
        }
        ghost var before := accumulator.attrs;
        r := TryBuild();
        Retried(st, old(accumulator.attrs), before, accumulator.attrs, failures);
      }
      Finished(m, st, accumulator.attrs, failures);
      if !HasEmpty(accumulator.attrs) {
        SettledTable(m, st, accumulator.attrs);
      }
    }
  }
}
