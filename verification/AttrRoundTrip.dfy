/** End to end: attributes filed under parent ids, sorted, written as a table, and read back. */
module AttrRoundTrip {
  import opened Wrappers
  import opened Values
  import opened GroupDelta
  import opened Sorting
  import opened AttrOrder
  import opened AttrTable
  import opened AttrStore
  import opened AttrBuilder
  import Cbor

  /** One AppendWithID call. */
  datatype Owner = Owner(id: nat, attrs: seq<Entry>)

  /** The rows the accumulator holds after these calls. */
  function RowsOf(owners: seq<Owner>): seq<Row> {
    if owners == [] then []
    else
      var last := owners[|owners| - 1];
      RowsOf(owners[..|owners| - 1]) + RowsFor(last.id, last.attrs, false)
  }

  /** Ids of the table's width, each used once; maps with unique keys; no empty value to be written. */
  ghost predicate Proper(m: nat, owners: seq<Owner>) {
    && (forall i :: 0 <= i < |owners| ==> owners[i].id < m && DistinctKeys(owners[i].attrs))
    && (forall i, j :: 0 <= i < j < |owners| ==> owners[i].id != owners[j].id)
    && (forall i, e :: 0 <= i < |owners| && e in owners[i].attrs && e.key != "" ==> !e.value.Empty?)
  }

  lemma {:induction false} RowsForMeaning(id: nat, es: seq<Entry>, r: Row)
    ensures r in RowsFor(id, es, false) <==> r.parentId == id && r.key != "" && Entry(r.key, r.value) in es
  {
    if es != [] {
      RowsForMeaning(id, es[1..], r);
      assert es == [es[0]] + es[1..];
    }
  }

  ghost predicate Owns(o: Owner, r: Row) {
    r.parentId == o.id && r.key != "" && Entry(r.key, r.value) in o.attrs
  }

  lemma {:induction false} RowsOfMeaning(owners: seq<Owner>, r: Row)
    ensures r in RowsOf(owners) <==> exists i :: 0 <= i < |owners| && Owns(owners[i], r)
  {
    if owners != [] {
      var n := |owners| - 1;
      RowsOfMeaning(owners[..n], r);
      RowsForMeaning(owners[n].id, owners[n].attrs, r);
      hide RowsFor;
      if i :| 0 <= i < |owners| && Owns(owners[i], r) {
        assert i < n ==> owners[..n][i] == owners[i];
      }
      if i :| 0 <= i < |owners[..n]| && Owns(owners[..n][i], r) {
        assert Owns(owners[i], r);
      }
    }
  }

  lemma EntryIsGet(es: seq<Entry>, e: Entry)
    requires DistinctKeys(es) && e in es
    ensures Get(es, e.key) == Some(e.value)
  {
    var i :| 0 <= i < |es| && es[i] == e;
    GetAt(es, i);
  }

  /** What an owner's map has under a key that is written at all. */
  function Written(es: seq<Entry>, k: string): Option<Value> {
    if k == "" then None else Get(es, k)
  }

  /** A row of the table is an owner's entry and the other way round. */
  lemma RowsAreEntries(m: nat, owners: seq<Owner>, rows: seq<Row>, i: nat, r: Row)
    requires Proper(m, owners) && multiset(RowsOf(owners)) == multiset(rows) && i < |owners|
    requires r.parentId == owners[i].id
    ensures r in rows <==> Written(owners[i].attrs, r.key) == Some(r.value)
  {
    SameMembers(RowsOf(owners), rows);
    RowsOfMeaning(owners, r);
    if r in rows {
      var j :| 0 <= j < |owners| && Owns(owners[j], r);
      assert j == i;
      EntryIsGet(owners[i].attrs, Entry(r.key, r.value));
    }
    if Written(owners[i].attrs, r.key) == Some(r.value) {
      assert Owns(owners[i], r);
    }
  }

  lemma RowIsWritable(m: nat, owners: seq<Owner>, r: Row)
    requires Proper(m, owners) && r in RowsOf(owners)
    ensures r.parentId < m && r.key != "" && !r.value.Empty?
  {
    RowsOfMeaning(owners, r);
    var j :| 0 <= j < |owners| && Owns(owners[j], r);
  }

  lemma RowsAreWritable(m: nat, owners: seq<Owner>, rows: seq<Row>)
    requires Proper(m, owners) && multiset(RowsOf(owners)) == multiset(rows)
    ensures !HasEmpty(rows)
    ensures forall i :: 0 <= i < |rows| ==> rows[i].parentId < m && rows[i].key != ""
  {
    hide RowsOf, Proper;
    SameMembers(RowsOf(owners), rows);
    forall i | 0 <= i < |rows|
      ensures rows[i].parentId < m && rows[i].key != "" && TypeCode(rows[i].value) != 0
    {
      assert rows[i] in RowsOf(owners);
      RowIsWritable(m, owners, rows[i]);
    }
  }

  /** What the store gives for a parent and a key is what comes back of that parent's own value. */
  ghost predicate Restored(store: Attributes, o: Owner, k: string) {
    match Written(o.attrs, k)
    case None => Lookup(store, o.id, k) == None
    case Some(v) => Lookup(store, o.id, k).Some? && ComesBackAs(v, Lookup(store, o.id, k).value)
  }

  lemma LookupRestored(m: nat, owners: seq<Owner>, rows: seq<Row>, back: seq<Row>, i: nat, k: string)
    requires Proper(m, owners) && multiset(RowsOf(owners)) == multiset(rows) && i < |owners|
    requires SameRows(rows, back)
    ensures Restored(FileAll(back), owners[i], k)
  {
    hide ComesBackAs;
    var o := owners[i];
    FileAllMeaning(back, o.id, k);
    var found := LastValue(back, o.id, k);
    if found.Some? {
      var j :| 0 <= j < |back| && back[j] == Row(o.id, k, found.value);
      assert rows[j] in rows;
      RowsAreEntries(m, owners, rows, i, rows[j]);
    }
    var w := Written(o.attrs, k);
    if w.Some? {
      RowsAreEntries(m, owners, rows, i, Row(o.id, k, w.value));
      var j :| 0 <= j < |rows| && rows[j] == Row(o.id, k, w.value);
      LastValueExists(back, j);
    }
  }

  lemma OnlyOwners(m: nat, owners: seq<Owner>, rows: seq<Row>, back: seq<Row>, id: nat)
    requires Proper(m, owners) && multiset(RowsOf(owners)) == multiset(rows)
    requires SameRows(rows, back) && id in FileAll(back)
    ensures exists i, k :: 0 <= i < |owners| && owners[i].id == id && Written(owners[i].attrs, k).Some?
  {
    FileAllMeaning(back, id, "");
    var k := FileAll(back)[id][0].key;
    FileAllMeaning(back, id, k);
    var v := LastValue(back, id, k).value;
    var j :| 0 <= j < |back| && back[j] == Row(id, k, v);
    SameMembers(RowsOf(owners), rows);
    assert rows[j] in RowsOf(owners);
    RowsOfMeaning(owners, rows[j]);
    var i :| 0 <= i < |owners| && Owns(owners[i], rows[j]);
    RowsAreEntries(m, owners, rows, i, rows[j]);
  }

  /** The columns that a successful Build of these rows returns. */
  function Table(m: nat, s: Schema, rows: seq<Row>): Columns
    requires m > 0 && forall i :: 0 <= i < |rows| ==> rows[i].parentId < m
  {
    Fill(s, EncodeAll(m, START, rows), rows)
  }

  /** The attribute table round trip.  Whatever order the rows were sorted in and however often the
      schema had to grow first, the store built from the columns alone has exactly the owners with
      something to write, and under each of them exactly its own attributes. */
  lemma AttributesRoundTrip(m: nat, owners: seq<Owner>, rows: seq<Row>, s: Schema, seen: seq<Row>)
    requires m > 0 && Proper(m, owners) && SortOutcome(RowsOf(owners), rows, AttrLess)
    requires RequireAll(s, rows) == s
    requires forall i :: 0 <= i < |rows| ==> rows[i].parentId < m
    requires Lockstep(Table(m, s, rows)) && ReadsAll(Table(m, s, rows), seen)
    ensures forall i :: 0 <= i < |seen| ==> seen[i].parentId < m
    ensures DecodeAll(m, START, seen).Some?
    ensures var store := FileAll(DecodeAll(m, START, seen).value);
            && StoreInv(store)
            && (forall i, k :: 0 <= i < |owners| ==> Restored(store, owners[i], k))
            && (forall id :: id in store ==>
                exists i, k :: 0 <= i < |owners| && owners[i].id == id && Written(owners[i].attrs, k).Some?)
  {
    hide AttrLess, Fill, EncodeAll, DecodeAll, FileAll, RequireAll, Restored, Lockstep, ReadsAll, SameRows;
    RowsAreWritable(m, owners, rows);
    TableRoundTrip(m, s, rows, seen);
    var back := DecodeAll(m, START, seen).value;
    FileAllMeaning(back, 0, "");
    forall i, k | 0 <= i < |owners| ensures Restored(FileAll(back), owners[i], k) {
      LookupRestored(m, owners, rows, back, i, k);
    }
    forall id | id in FileAll(back)
      ensures exists i, k :: 0 <= i < |owners| && owners[i].id == id && Written(owners[i].attrs, k).Some?
    {
      OnlyOwners(m, owners, rows, back, id);
    }
  }

  function NonEmptyKeys(es: seq<Entry>): seq<Entry> {
    if es == [] then [] else (if es[0].key == "" then [] else [es[0]]) + NonEmptyKeys(es[1..])
  }

  lemma {:induction false} NonEmptyKeysGet(es: seq<Entry>, k: string)
    ensures Get(NonEmptyKeys(es), k) == Written(es, k)
  {
    if es != [] {
      NonEmptyKeysGet(es[1..], k);
      var rest := NonEmptyKeys(es[1..]);
      assert [] + rest == rest && ([es[0]] + rest)[1..] == rest;
    }
  }

  /** Nested values survive CBOR when their own maps have unique keys and hold no empty bytes. */
  ghost predicate Faithful(v: Value) {
    IsScalar(v) || (Unique(v) && Cbor.NoEmptyBytes(v))
  }

  lemma FaithfulComesBack(v: Value, v': Value)
    requires Faithful(v) && ComesBackAs(v, v')
    ensures TreeOf(v') == TreeOf(v)
  {
    if !IsScalar(v) {
      Cbor.WrittenIsReadable(v);
      Cbor.ReadBackTree(v);
    }
  }

  /** So an owner whose nested values are faithful gets back exactly its own map. */
  lemma OwnerMapRestored(store: Attributes, o: Owner)
    requires forall k :: Restored(store, o, k)
    requires forall e :: e in o.attrs && e.key != "" ==> Faithful(e.value)
    ensures o.id in store ==> TreeOf(Map(store[o.id])) == TreeOf(Map(NonEmptyKeys(o.attrs)))
    ensures o.id !in store ==> forall k :: Written(o.attrs, k) == None
  {
    hide ComesBackAs, Faithful;
    if o.id in store {
      var m, n := TreeOfEntries(store[o.id]), TreeOfEntries(NonEmptyKeys(o.attrs));
      forall k ensures k in m <==> k in n
               ensures k in m && k in n ==> m[k] == n[k]
      {
        TreeOfEntriesIsGet(store[o.id], k);
        TreeOfEntriesIsGet(NonEmptyKeys(o.attrs), k);
        NonEmptyKeysGet(o.attrs, k);
        assert Restored(store, o, k);
        if Written(o.attrs, k).Some? {
          FaithfulComesBack(Written(o.attrs, k).value, Lookup(store, o.id, k).value);
        }
      }
      assert m.Keys == n.Keys && m == n;
    } else {
      forall k ensures Written(o.attrs, k) == None {
        assert Restored(store, o, k);
      }
    }
  }

  // ---------------------------------------------------------------- The whole pipeline

  method FileOwners(acc: Accumulator, owners: seq<Owner>)
    requires acc.attrs == [] && acc.attrsMapCount == 0 && |owners| <= acc.maxCount
    modifies acc
    ensures acc.attrs == RowsOf(owners)
  {
    for i := 0 to |owners|
      invariant acc.attrs == RowsOf(owners[..i]) && acc.attrsMapCount <= i
    {
      assert owners[..i + 1][..i] == owners[..i];
      assert RowsFor(owners[i].id, [], false) == [];
      var filed := acc.AppendWithID(owners[i].id, owners[i].attrs);
    }
    assert owners[..|owners|] == owners;
  }

  /** What Build writes for such rows can be read: ids of the width, non-empty keys, readable cells. */
  lemma TableIsReadable(m: nat, s: Schema, rows: seq<Row>)
    requires m > 0 && !HasEmpty(rows) && RequireAll(s, rows) == s
    requires forall i :: 0 <= i < |rows| ==> rows[i].parentId < m && rows[i].key != ""
    ensures var c := Table(m, s, rows);
      && |c.parentId| == |c.key| == |c.typ| == |rows|
      && (forall i :: 0 <= i < |rows| ==> c.parentId[i] < m && c.key[i] == Some(rows[i].key) && CellReadable(c, i))
  {
    var codes := EncodeAll(m, START, rows);
    FillLengths(s, codes, rows);
    hide Fill, EncodeAll, RequireAll, HasEmpty, Cbor.Tokens, Cbor.Readable;
    forall i | 0 <= i < |rows|
      ensures var c := Table(m, s, rows);
              c.parentId[i] < m && c.key[i] == Some(rows[i].key) && CellReadable(c, i)
    {
      FillAt(s, codes, rows, i);
      RowNeedsItsColumn(s, rows, i);
      Cbor.WrittenIsReadable(rows[i].value);
    }
  }

  /** A table that StoreFrom accepts. */
  ghost predicate Loadable(m: nat, c: Columns) {
    && m > 0 && Lockstep(c) && (forall i :: 0 <= i < |c.parentId| ==> c.parentId[i] < m)
    && (c.parentId != [] ==> Or(c.key[0], "") != "")
    && (forall i :: 0 <= i < |c.typ| ==> CellReadable(c, i))
  }

  lemma BuiltIsLoadable(m: nat, owners: seq<Owner>, first: Schema, rows: seq<Row>)
    requires m > 0 && Proper(m, owners) && SortOutcome(RowsOf(owners), rows, AttrLess)
    ensures !HasEmpty(rows) && forall i :: 0 <= i < |rows| ==> rows[i].parentId < m
    ensures var s := RequireAll(first, rows);
            RequireAll(s, rows) == s && Lockstep(Table(m, s, rows)) && Loadable(m, Table(m, s, rows))
  {
    hide RowsOf, Proper, Fill, EncodeAll, CellReadable;
    var s := RequireAll(first, rows);
    PermutedAttrs(RowsOf(owners), rows);
    RowsAreWritable(m, owners, rows);
    RequireAllTwice(first, rows);
    TableIsReadable(m, s, rows);
    LockstepIff(s, EncodeAll(m, START, rows), rows);
  }

  /** The store holds the owners that have something to write, each with its own attributes. */
  ghost predicate AllRestored(store: Attributes, owners: seq<Owner>) {
    && StoreInv(store)
    && (forall i, k :: 0 <= i < |owners| ==> Restored(store, owners[i], k))
    && (forall id :: id in store ==>
        exists i, k :: 0 <= i < |owners| && owners[i].id == id && Written(owners[i].attrs, k).Some?)
  }

  method LoadTable(m: nat, c: Columns) returns (store: Attributes, ghost seen: seq<Row>)
    requires Loadable(m, c)
    ensures ReadsAll(c, seen) && DecodeAll(m, START, seen).Some? && store == FileAll(DecodeAll(m, START, seen).value)
  {
    var loaded: Loaded;
    loaded, seen := StoreFrom(m, c);
    store := loaded.store;
  }

  predicate AnyColumnEntry(es: seq<Entry>) {
    exists e :: e in es && e.key != "" && !e.value.Str?
  }

  /** Some owner has a value that the record has no column for when it is new: anything but a string. */
  predicate NeedsColumn(owners: seq<Owner>) {
    exists i :: 0 <= i < |owners| && AnyColumnEntry(owners[i].attrs)
  }

  /** A first build has to grow its schema exactly for such owners, whatever order the rows are in. */
  lemma SchemaGrowsIff(m: nat, owners: seq<Owner>, rows: seq<Row>)
    requires Proper(m, owners) && multiset(RowsOf(owners)) == multiset(rows)
    ensures RequireAll(NO_COLUMNS, rows) != NO_COLUMNS <==> NeedsColumn(owners)
  {
    SameMembers(RowsOf(owners), rows);
    hide RowsOf, Proper;
    if RequireAll(NO_COLUMNS, rows) != NO_COLUMNS {
      var j :| 0 <= j < |rows| && TypeCode(rows[j].value) >= 2;
      assert rows[j] in RowsOf(owners);
      RowsOfMeaning(owners, rows[j]);
      var i :| 0 <= i < |owners| && Owns(owners[i], rows[j]);
      assert AnyColumnEntry(owners[i].attrs);
    }
    if NeedsColumn(owners) {
      var i :| 0 <= i < |owners| && AnyColumnEntry(owners[i].attrs);
      var e :| e in owners[i].attrs && e.key != "" && !e.value.Str?;
      var row := Row(owners[i].id, e.key, e.value);
      assert Owns(owners[i], row);
      RowsOfMeaning(owners, row);
      RowIsWritable(m, owners, row);
      var j :| 0 <= j < |rows| && rows[j] == row;
      assert Has(rows, TypeCode(row.value));
    }
  }

  /** One batch through a builder, whatever earlier batches have left behind in its schema and its
      dictionaries: accumulate, build and load.  It always works. */
  method WriteThenRead(b: AttrsBuilder, owners: seq<Owner>) returns (store: Attributes)
    requires b.Valid() && b.accumulator.attrs == [] && b.accumulator.attrsMapCount == 0
    requires Proper(b.m, owners) && |owners| <= b.accumulator.maxCount
    modifies b, b.sorter, b.accumulator, b.dicts
    ensures b.Valid() && b.accumulator.attrs == [] && b.accumulator.attrsMapCount == 0
    ensures AllRestored(store, owners)
  {
    FileOwners(b.accumulator, owners);
    store := BuildAndLoad(b, owners);
    b.Reset();
  }

  method BuildAndLoad(b: AttrsBuilder, ghost owners: seq<Owner>) returns (store: Attributes)
    requires b.Valid() && Proper(b.m, owners) && b.accumulator.attrs == RowsOf(owners)
    modifies b, b.sorter, b.accumulator`attrs, b.dicts
    ensures b.Valid() && AllRestored(store, owners)
  {
    RowsAreWritable(b.m, owners, b.accumulator.attrs);
    assert b.m > 0;
    hide Proper, HasEmpty, RequireAll, Fill, EncodeAll, Lockstep, ReadsAll, CellReadable, RowsOf, SortOutcome;
    hide DecodeAll, FileAll, Restored, Loadable, FailuresOf, AfterTries, LeftBehind;
    ghost var before := b.schema;
    var built, failures := b.Build();
    BuiltIsLoadable(b.m, owners, before, b.accumulator.attrs);
    ghost var seen: seq<Row>;
    store, seen := LoadTable(b.m, built.columns);
    AttributesRoundTrip(b.m, owners, b.accumulator.attrs, b.schema, seen);
  }

  /** Batch after batch through one builder: every one of them is restored from its own table. */
  method WriteAndReadAll(b: AttrsBuilder, batches: seq<seq<Owner>>) returns (stores: seq<Attributes>)
    requires b.Valid() && b.accumulator.attrs == [] && b.accumulator.attrsMapCount == 0
    requires forall i :: 0 <= i < |batches| ==> Proper(b.m, batches[i]) && |batches[i]| <= b.accumulator.maxCount
    modifies b, b.sorter, b.accumulator, b.dicts
    ensures |stores| == |batches| && forall i :: 0 <= i < |batches| ==> AllRestored(stores[i], batches[i])
  {
    hide Proper, AllRestored;
    stores := [];
    for i := 0 to |batches|
      invariant b.Valid() && b.accumulator.attrs == [] && b.accumulator.attrsMapCount == 0
      invariant |stores| == i && forall j :: 0 <= j < i ==> AllRestored(stores[j], batches[j])
    {
      var store := WriteThenRead(b, batches[i]);
      stores := stores + [store];
    }
  }

  /** Attributes16: 16-bit parent ids and up to 65535 maps, under any dictionary configuration. */
  method WriteThenRead16(maxCard: nat, batches: seq<seq<Owner>>) returns (stores: seq<Attributes>)
    requires forall i :: 0 <= i < |batches| ==> Proper(M16, batches[i]) && |batches[i]| <= 0xFFFF
    ensures |stores| == |batches| && forall i :: 0 <= i < |batches| ==> AllRestored(stores[i], batches[i])
  {
    hide Proper, AllRestored;
    var b := new AttrsBuilder(M16, 0xFFFF, maxCard);
    stores := WriteAndReadAll(b, batches);
  }

  /** Attributes32: 32-bit parent ids and up to 4294967295 maps. */
  method WriteThenRead32(maxCard: nat, batches: seq<seq<Owner>>) returns (stores: seq<Attributes>)
    requires forall i :: 0 <= i < |batches| ==> Proper(M32, batches[i]) && |batches[i]| <= 0xFFFF_FFFF
    ensures |stores| == |batches| && forall i :: 0 <= i < |batches| ==> AllRestored(stores[i], batches[i])
  {
    hide Proper, AllRestored;
    var b := new AttrsBuilder(M32, 0xFFFF_FFFF, maxCard);
    stores := WriteAndReadAll(b, batches);
  }
}
