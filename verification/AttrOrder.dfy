/** The default order of attribute rows: value type, key, value, parent id. */
module AttrOrder {
  import opened Wrappers
  import opened Values
  import opened GroupDelta
  import opened Sorting

  predicate AttrLess(a: Row, b: Row) {
    if TypeCode(a.value) == TypeCode(b.value) then
      if a.key == b.key then
        var cmp := Compare(a.value, b.value);
        if cmp == 0 then a.parentId < b.parentId else cmp < 0
      else CompareStrings(a.key, b.key) < 0
    else TypeCode(a.value) < TypeCode(b.value)
  }

  /** The order of rows: by value type, then key, then value, then parent id; maps and slices under one key
      are in no order. */
  ghost predicate RowBefore(a: Row, b: Row) {
    || TypeCode(a.value) < TypeCode(b.value)
    || (TypeCode(a.value) == TypeCode(b.value) && StringBefore(a.key, b.key))
    || (a.key == b.key && ValueBefore(a.value, b.value))
    || (a.key == b.key && a.value == b.value && IsScalar(a.value) && !IsNaN(a.value) && a.parentId < b.parentId)
  }

  lemma AttrLessMeaning(a: Row, b: Row)
    ensures AttrLess(a, b) <==> RowBefore(a, b)
  {
    StringsInOrder(a.key, b.key);
    StringOrder(a.key, b.key, a.key);
    if TypeCode(a.value) == TypeCode(b.value) {
      CompareMeaning(a.value, b.value);
    }
    EqualMeaning(a.value, b.value);
    hide Compare, CompareStrings, StringBefore, BytesBefore, Equal;
    assert StringBefore(a.key, b.key) ==> a.key != b.key;
  }

  predicate NoNaN(rows: seq<Row>) {
    forall i :: 0 <= i < |rows| ==> !IsNaN(rows[i].value)
  }

  /** Not-less is total and transitive on any three NaN-free rows, whatever mix of types they have. */
  lemma AttrLessLaws(a: Row, b: Row, c: Row)
    requires !IsNaN(a.value) && !IsNaN(b.value) && !IsNaN(c.value)
    ensures AttrLess(a, b) ==> !AttrLess(b, a)
    ensures AttrLess(a, c) ==> AttrLess(a, b) || AttrLess(b, c)
  {
    StringOrder(a.key, b.key, c.key);
    StringOrder(c.key, b.key, a.key);
    StringOrder(c.key, a.key, b.key);
    if TypeCode(a.value) == TypeCode(b.value) && IsScalar(a.value) {
      CompareIsTotalOrder(a.value, b.value, b.value);
    }
    if TypeCode(a.value) == TypeCode(b.value) == TypeCode(c.value) && IsScalar(a.value) {
      CompareIsTotalOrder(c.value, b.value, a.value);
      CompareIsTotalOrder(c.value, a.value, b.value);
      CompareIsTotalOrder(a.value, b.value, c.value);
      hide Compare, CompareStrings;
    } else {
      hide CompareStrings;
    }
  }

  /** The default comparator is a strict weak order on NaN-free rows of mixed types. */
  lemma AttrLessIsWeakOrder(rows: seq<Row>)
    requires NoNaN(rows)
    ensures WeakOrderOn(rows, AttrLess)
  {
    hide AttrLess;
    forall a, b, c | a in rows && b in rows && c in rows
      ensures AttrLess(a, b) ==> !AttrLess(b, a)
      ensures AttrLess(a, c) ==> AttrLess(a, b) || AttrLess(b, c)
    {
      AttrLessLaws(a, b, c);
    }
  }

  /** A NaN under the key of two other doubles that are in order. */
  predicate Straddles(a: Row, b: Row, c: Row) {
    a.key == b.key == c.key && a.value.Double? && IsNaN(b.value) && c.value.Double? && AttrLess(a, c)
  }

  ghost predicate NaNStraddled(rows: seq<Row>) {
    exists a, b, c :: a in rows && b in rows && c in rows && Straddles(a, b, c)
  }

  lemma AttrLessIsAsymmetric(a: Row, b: Row)
    ensures AttrLess(a, b) ==> !AttrLess(b, a)
  {
    if !IsNaN(a.value) && !IsNaN(b.value) {
      AttrLessLaws(a, b, b);
    } else {
      StringOrder(a.key, b.key, a.key);
      hide CompareStrings;
    }
  }

  /** Even with NaN, a row can only come between two ordered rows without being ordered with either
      when it is a NaN that they straddle. */
  lemma AttrLessWithNaN(a: Row, b: Row, c: Row)
    requires AttrLess(a, c)
    ensures !AttrLess(a, b) && !AttrLess(b, c) <==> Straddles(a, b, c)
  {
    StringLess(a.key, b.key, c.key);
    StringOrder(a.key, b.key, c.key);
    if !IsNaN(a.value) && !IsNaN(b.value) && !IsNaN(c.value) {
      AttrLessLaws(a, b, c);
    } else if a.key == b.key == c.key {
      hide CompareStrings;
    } else {
      StringOrder(a.key, c.key, b.key);
      StringOrder(b.key, c.key, a.key);
      hide Compare, CompareStrings;
    }
  }

  /** The comparator is a strict weak order on a table exactly when no NaN in it is straddled. */
  lemma WeakOrderIff(rows: seq<Row>)
    ensures WeakOrderOn(rows, AttrLess) <==> !NaNStraddled(rows)
  {
    hide AttrLess;
    forall a, b, c | a in rows && b in rows && c in rows
      ensures AttrLess(a, b) ==> !AttrLess(b, a)
      ensures AttrLess(a, c) ==> (!AttrLess(a, b) && !AttrLess(b, c) <==> Straddles(a, b, c))
    {
      AttrLessIsAsymmetric(a, b);
      if AttrLess(a, c) {
        AttrLessWithNaN(a, b, c);
      }
    }
    hide Straddles;
  }

  /** Such tables exist under any key: a NaN between 1 and 2. */
  lemma NaNBreaksTheOrder(key: string)
    ensures var a, b, c := Row(0, key, Double(Num(1.0))), Row(0, key, Double(NaN)), Row(0, key, Double(Num(2.0)));
            !WeakOrderOn([a, b, c], AttrLess)
  {
    var a, b, c := Row(0, key, Double(Num(1.0))), Row(0, key, Double(NaN)), Row(0, key, Double(Num(2.0)));
    var rows := [a, b, c];
    assert a == rows[0] && b == rows[1] && c == rows[2] && Straddles(a, b, c);
    WeakOrderIff(rows);
  }

  /** So a sorted table in which no NaN is straddled has no row before one that should precede it. */
  lemma TableInOrder(rows: seq<Row>, sorted: seq<Row>, i: nat, j: nat)
    requires !NaNStraddled(rows) && SortOutcome(rows, sorted, AttrLess) && i < j < |sorted|
    ensures !RowBefore(sorted[j], sorted[i])
  {
    WeakOrderIff(rows);
    AttrLessMeaning(sorted[j], sorted[i]);
    hide AttrLess, RowBefore, NaNStraddled, WeakOrderOn;
  }

  // ---------------------------------------------------------------- Groups in a sorted column

  predicate SameAttr(a: Row, b: Row) {
    a.key == b.key && Equal(a.value, b.value)
  }

  /** The encoder compares each row with the one before it, whatever opened the group. */
  lemma {:induction false} CodesAt(m: nat, st: GroupState, rows: seq<Row>, i: nat)
    requires st.parentId < m && (forall i :: 0 <= i < |rows| ==> rows[i].parentId < m) && i < |rows|
    ensures EncodeAll(m, st, rows)[i] ==
            if i == 0 then EncodeStep(m, st, rows[0]).1
            else if SameAttr(rows[i - 1], rows[i]) then Sub(m, rows[i].parentId, rows[i - 1].parentId)
            else rows[i].parentId
    decreases i
  {
    if i > 0 {
      var after := EncodeStep(m, st, rows[0]).0;
      assert after == GroupState(rows[0].parentId, rows[0].key, Some(rows[0].value));
      CodesAt(m, after, rows[1..], i - 1);
    }
  }

  lemma SortedNeighbours(a: Row, b: Row, c: Row)
    requires !IsNaN(a.value) && !IsNaN(b.value) && !IsNaN(c.value)
    requires !AttrLess(b, a) && !AttrLess(c, b) && SameAttr(a, c)
    ensures SameAttr(a, b) && SameAttr(b, c) && b.parentId <= c.parentId
  {
    StringOrder(a.key, b.key, c.key);
    StringOrder(b.key, c.key, a.key);
    CompareIsTotalOrder(a.value, c.value, a.value);
    if TypeCode(a.value) == TypeCode(b.value) {
      CompareIsTotalOrder(a.value, b.value, c.value);
      CompareIsTotalOrder(b.value, c.value, a.value);
      CompareIsTotalOrder(c.value, b.value, a.value);
    }
    hide CompareStrings;
  }

  /** After a NaN-free sort, equal attributes are contiguous: a row opens a group, and carries its
      absolute parent id, exactly when no earlier row has its key and value; every other row carries
      the plain, never wrapping, difference from the row before. */
  lemma SortedGroups(m: nat, rows: seq<Row>, i: nat)
    requires m > 0 && (forall i :: 0 <= i < |rows| ==> rows[i].parentId < m) && i < |rows|
    requires NoNaN(rows) && Sorted(rows, AttrLess)
    ensures if forall j :: 0 <= j < i ==> !SameAttr(rows[j], rows[i])
            then EncodeAll(m, START, rows)[i] == rows[i].parentId
            else i > 0 && SameAttr(rows[i - 1], rows[i]) && rows[i - 1].parentId <= rows[i].parentId
                 && EncodeAll(m, START, rows)[i] == rows[i].parentId - rows[i - 1].parentId
  {
    CodesAt(m, START, rows, i);
    hide EncodeAll, AttrLess;
    if j :| 0 <= j < i && SameAttr(rows[j], rows[i]) {
      if j < i - 1 {
        SortedNeighbours(rows[j], rows[i - 1], rows[i]);
      } else {
        AdjacentIds(rows[j], rows[i]);
      }
    }
  }

  lemma AdjacentIds(a: Row, b: Row)
    requires !IsNaN(a.value) && !AttrLess(b, a) && SameAttr(a, b)
    ensures a.parentId <= b.parentId
  {
    CompareIsTotalOrder(b.value, a.value, a.value);
  }

  // ---------------------------------------------------------------- The first row

  /** A row with an empty key whose type code is no larger than any other row's. */
  ghost predicate EmptyKeyComesFirst(rows: seq<Row>) {
    exists r :: r in rows && r.key == "" && LeastType(rows, r)
  }

  predicate LeastType(rows: seq<Row>, r: Row) {
    forall q :: q in rows ==> TypeCode(r.value) <= TypeCode(q.value)
  }

  lemma EmptyKeyIsLess(a: Row, b: Row)
    requires TypeCode(a.value) <= TypeCode(b.value) && a.key == "" && b.key != ""
    ensures AttrLess(a, b)
  {
    assert CompareStrings(a.key, b.key) == -1;
  }

  /** Where no NaN is straddled the decoder crashes exactly when an empty key is among the accumulated
      rows of least type code, whatever the sort does. */
  lemma AccumulatedCrashIff(m: nat, rows: seq<Row>, sorted: seq<Row>, seen: seq<Row>)
    requires !NaNStraddled(rows) && SortOutcome(rows, sorted, AttrLess)
    requires m > 0 && (forall i :: 0 <= i < |sorted| ==> sorted[i].parentId < m) && AlikeRows(sorted, seen)
    ensures DecodeAll(m, START, WithIds(seen, EncodeAll(m, START, sorted))).None? <==> EmptyKeyComesFirst(rows)
  {
    DecodeCrashesIff(m, sorted, seen);
    WeakOrderIff(rows);
    SameMembers(rows, sorted);
    hide DecodeAll, EncodeAll, WithIds, AlikeRows, NaNStraddled, WeakOrderOn;
    if sorted != [] && sorted[0].key == "" {
      forall q | q in rows ensures TypeCode(sorted[0].value) <= TypeCode(q.value) {
        var j :| 0 <= j < |sorted| && sorted[j] == q;
      }
      assert sorted[0] in rows && LeastType(rows, sorted[0]);
    }
    if r :| r in rows && r.key == "" && LeastType(rows, r) {
      var j :| 0 <= j < |sorted| && sorted[j] == r;
      FirstKeyEmpty(sorted, j);
    }
  }

  lemma FirstKeyEmpty(sorted: seq<Row>, j: nat)
    requires j < |sorted| && Sorted(sorted, AttrLess) && sorted[j].key == "" && LeastType(sorted, sorted[j])
    ensures sorted[0].key == ""
  {
    assert sorted[0] in sorted;
    if sorted[0].key != "" {
      assert j > 0 && !AttrLess(sorted[j], sorted[0]);
      hide AttrLess;
      EmptyKeyIsLess(sorted[j], sorted[0]);
    }
  }
}
