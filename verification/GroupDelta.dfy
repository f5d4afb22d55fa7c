/** Parent ids as deltas within a group of equal (key, value) rows, and their decoding.

    The 16-bit and the 32-bit code are copies; both are modelled here over a modulus m. */
module GroupDelta {
  import opened Wrappers
  import opened Values

  datatype Row = Row(parentId: nat, key: string, value: Value)

  /** The previous row's parent id, and the key and value that opened its group. */
  datatype GroupState = GroupState(parentId: nat, key: string, value: Option<Value>)

  const START := GroupState(0, "", None)

  const M16: nat := 0x1_0000
  const M32: nat := 0x1_0000_0000

  /** Unsigned subtraction and addition of m-valued words, with wrap-around. */
  function Sub(m: nat, a: nat, b: nat): (r: nat)
    requires b <= m + a
  {
    if a >= b then a - b else a - b + m
  }

  function Add(m: nat, a: nat, b: nat): nat {
    if a + b >= m then a + b - m else a + b
  }

  /** Subtraction and addition modulo the width of an id. */
  lemma SubAddMeaning(m: nat, a: nat, b: nat)
    requires a < m && b < m
    ensures Sub(m, a, b) < m && (Sub(m, a, b) == a - b || Sub(m, a, b) == a - b + m)
    ensures Add(m, a, b) < m && (Add(m, a, b) == a + b || Add(m, a, b) == a + b - m)
  {
  }

  predicate SameGroup(st: GroupState, key: string, value: Value) {
    st.value.Some? && st.key == key && Equal(st.value.value, value)
  }

  function EncodeStep(m: nat, st: GroupState, row: Row): (r: (GroupState, nat))
    requires st.parentId < m && row.parentId < m
    ensures r.0.parentId < m && r.1 < m
  {
    if SameGroup(st, row.key, row.value) then
      (st.(parentId := row.parentId), Sub(m, row.parentId, st.parentId))
    else (GroupState(row.parentId, row.key, Some(row.value)), row.parentId)
  }

  /** None is the crash of comparing with a previous value that does not exist yet. */
  function DecodeStep(m: nat, st: GroupState, code: nat, key: string, value: Value): (r: Option<(GroupState, nat)>)
    requires st.parentId < m && code < m
    ensures r.Some? ==> r.value.0.parentId < m && r.value.1 < m
  {
    if st.key == key && st.value.None? then None
    else if SameGroup(st, key, value) then
      var id := Add(m, st.parentId, code);
      Some((st.(parentId := id), id))
    else Some((GroupState(code, key, Some(value)), code))
  }

  class Sorter {
    const m: nat
    var prevParentID: nat
    var prevKey: string
    var prevValue: Option<Value>

    ghost function State(): GroupState
      reads this
    {
      GroupState(prevParentID, prevKey, prevValue)
    }

    constructor (m: nat)
      requires m > 0
      ensures this.m == m && State() == START
    {
      this.m := m;
      prevParentID, prevKey, prevValue := 0, "", None;
    }

    method Reset()
      modifies this
      ensures State() == START
    {
      prevParentID, prevKey, prevValue := 0, "", None;
    }

    method Encode(parentID: nat, key: string, value: Value) returns (code: nat)
      requires prevParentID < m && parentID < m
      modifies this
      ensures prevParentID < m && code < m
      ensures (State(), code) == EncodeStep(m, old(State()), Row(parentID, key, value))
    {
      if prevValue != None && prevKey == key && Equal(prevValue.value, value) {
        code := Sub(m, parentID, prevParentID);
        prevParentID := parentID;
      } else {
        prevKey, prevValue, prevParentID := key, Some(value), parentID;
        code := parentID;
      }
    }
  }

  class ParentIdDecoder {
    const m: nat
    var prevParentID: nat
    var prevKey: string
    var prevValue: Option<Value>

    ghost function State(): GroupState
      reads this
    {
      GroupState(prevParentID, prevKey, prevValue)
    }

    constructor (m: nat)
      requires m > 0
      ensures this.m == m && State() == START
    {
      this.m := m;
      prevParentID, prevKey, prevValue := 0, "", None;
    }

    method Decode(code: nat, key: string, value: Value) returns (id: Option<nat>)
      requires prevParentID < m && code < m
      modifies this
      ensures prevParentID < m && (id.Some? ==> id.value < m)
      ensures match DecodeStep(m, old(State()), code, key, value)
              case None => id == None
              case Some((after, p)) => State() == after && id == Some(p)
    {
      if prevKey == key {
        if prevValue == None {
          return None;
        }
        if Equal(prevValue.value, value) {
          prevParentID := Add(m, prevParentID, code);
          return Some(prevParentID);
        }
      }
      prevKey, prevValue, prevParentID := key, Some(value), code;
      return Some(code);
    }
  }

  // ---------------------------------------------------------------- Whole columns

  function EncodeAll(m: nat, st: GroupState, rows: seq<Row>): (codes: seq<nat>)
    requires st.parentId < m && forall i :: 0 <= i < |rows| ==> rows[i].parentId < m
    ensures |codes| == |rows| && forall i :: 0 <= i < |codes| ==> codes[i] < m
    decreases |rows|
  {
    if rows == [] then [] else
      var (after, code) := EncodeStep(m, st, rows[0]);
      [code] + EncodeAll(m, after, rows[1..])
  }

  /** cells are rows whose parentId is still the stored code. */
  function DecodeAll(m: nat, st: GroupState, cells: seq<Row>): (r: Option<seq<Row>>)
    requires st.parentId < m && forall i :: 0 <= i < |cells| ==> cells[i].parentId < m
    decreases |cells|
    ensures r.Some? ==> |r.value| == |cells|
  {
    if cells == [] then Some([]) else
      var d := DecodeStep(m, st, cells[0].parentId, cells[0].key, cells[0].value);
      if d.None? then None else
        var rest := DecodeAll(m, d.value.0, cells[1..]);
        if rest.None? then None else Some([cells[0].(parentId := d.value.1)] + rest.value)
  }

  /** v' is v as the decoder may see it: the same scalar, or some map or slice for a map or slice. */
  predicate Alike(v: Value, v': Value) {
    if IsScalar(v) then v' == v else !IsScalar(v')
  }

  predicate AlikeRows(rows: seq<Row>, rows': seq<Row>) {
    |rows| == |rows'|
    && forall i :: 0 <= i < |rows| ==> rows'[i].key == rows[i].key && Alike(rows[i].value, rows'[i].value)
  }

  function WithIds(rows: seq<Row>, ids: seq<nat>): (r: seq<Row>)
    requires |rows| == |ids|
    ensures |r| == |rows|
    ensures forall i :: 0 <= i < |r| ==> r[i] == rows[i].(parentId := ids[i])
  {
    if rows == [] then [] else [rows[0].(parentId := ids[0])] + WithIds(rows[1..], ids[1..])
  }

  function Ids(rows: seq<Row>): (ids: seq<nat>)
    ensures |ids| == |rows| && forall i :: 0 <= i < |ids| ==> ids[i] == rows[i].parentId
  {
    if rows == [] then [] else [rows[0].parentId] + Ids(rows[1..])
  }

  lemma AlikeGroups(st: GroupState, st': GroupState, row: Row, seen: Row)
    requires st.value.Some? && st'.value.Some? && st.key == st'.key && row.key == seen.key
    requires Alike(st.value.value, st'.value.value) && Alike(row.value, seen.value)
    ensures SameGroup(st, row.key, row.value) <==> SameGroup(st', seen.key, seen.value)
  {
  }

  /** Decoding recovers every parent id across wrap-around, from rows that need only be alike. */
  lemma {:induction false} GroupDeltaRoundTrip(m: nat, st: GroupState, st': GroupState, rows: seq<Row>, seen: seq<Row>)
    requires st.parentId < m && forall i :: 0 <= i < |rows| ==> rows[i].parentId < m
    requires st'.parentId < m
    requires AlikeRows(rows, seen)
    requires st'.parentId == st.parentId && st'.key == st.key
    requires match st.value case None => st'.value == None && (rows != [] ==> rows[0].key != st.key)
                            case Some(v) => st'.value.Some? && Alike(v, st'.value.value)
    ensures DecodeAll(m, st', WithIds(seen, EncodeAll(m, st, rows))) ==
            Some(WithIds(seen, Ids(rows)))
    decreases |rows|
  {
    if rows != [] {
      if st.value.Some? {
        AlikeGroups(st, st', rows[0], seen[0]);
      } else {
        assert !SameGroup(st, rows[0].key, rows[0].value) && !SameGroup(st', seen[0].key, seen[0].value);
      }
      hide Equal, SameGroup;
      var (after, code) := EncodeStep(m, st, rows[0]);
      var d := DecodeStep(m, st', code, seen[0].key, seen[0].value);
      assert d.Some? && d.value.1 == rows[0].parentId;
      GroupDeltaRoundTrip(m, after, d.value.0, rows[1..], seen[1..]);
      assert WithIds(seen, EncodeAll(m, st, rows))[1..] == WithIds(seen[1..], EncodeAll(m, after, rows[1..]));
    }
  }

  /** From the initial state the decoder crashes exactly when the first key is empty. */
  lemma DecodeCrashesIff(m: nat, rows: seq<Row>, seen: seq<Row>)
    requires m > 0 && (forall i :: 0 <= i < |rows| ==> rows[i].parentId < m) && AlikeRows(rows, seen)
    ensures DecodeAll(m, START, WithIds(seen, EncodeAll(m, START, rows))).None? <==> rows != [] && rows[0].key == ""
  {
    if rows == [] || rows[0].key != "" {
      GroupDeltaRoundTrip(m, START, START, rows, seen);
    }
  }
}
