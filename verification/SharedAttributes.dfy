/** Attributes shared by several items: intersecting them, and filing what is left over. */
module SharedAttributes {
  import opened Wrappers
  import opened Values
  import opened GroupDelta
  import opened AttrTable
  import opened Selections

  /** The attributes that the map has as well, with equal values. */
  function Common(attributes: map<string, Value>, es: seq<Entry>): map<string, Value> {
    map k | k in attributes && Get(es, k).Some? && ValuesEqual(attributes[k], Get(es, k).value) :: attributes[k]
  }

  function CommonTo(attributes: map<string, Value>, other: map<string, Value>): map<string, Value> {
    map k | k in attributes && k in other && ValuesEqual(attributes[k], other[k]) :: attributes[k]
  }

  /** Assigning entry after entry: a later entry under the same key wins. */
  function MapOf(es: seq<Entry>): map<string, Value> {
    if es == [] then map[] else MapOf(es[..|es| - 1])[es[|es| - 1].key := es[|es| - 1].value]
  }

  /** The value of a key is the one of its last entry. */
  lemma {:induction false} LastEntryWins(es: seq<Entry>, k: string)
    ensures k in MapOf(es) <==> exists i :: 0 <= i < |es| && es[i].key == k
    ensures forall i :: 0 <= i < |es| && es[i].key == k && (forall j :: i < j < |es| ==> es[j].key != k) ==>
              k in MapOf(es) && MapOf(es)[k] == es[i].value
    decreases |es|
  {
    if es != [] {
      var init, last := es[..|es| - 1], es[|es| - 1];
      LastEntryWins(init, k);
      assert forall i :: 0 <= i < |init| ==> init[i] == es[i];
      if i :| 0 <= i < |es| && es[i].key == k {
        assert i == |es| - 1 || init[i].key == k;
      }
    }
  }

  lemma {:induction false} MapOfMeaning(es: seq<Entry>, k: string)
    requires DistinctKeys(es)
    ensures k in MapOf(es) <==> Get(es, k).Some?
    ensures k in MapOf(es) ==> MapOf(es)[k] == Get(es, k).value
  {
    if es != [] {
      var init, last := es[..|es| - 1], es[|es| - 1];
      MapOfMeaning(init, k);
      GetLast(es, k);
      assert es == init + [last];
    }
  }

  lemma {:induction false} GetLast(es: seq<Entry>, k: string)
    requires es != []
    ensures var g := Get(es[..|es| - 1], k);
            Get(es, k) == if g.Some? then g else if es[|es| - 1].key == k then Some(es[|es| - 1].value) else None
  {
    if |es| > 1 {
      GetLast(es[1..], k);
      assert es[1..][..|es| - 2] == es[..|es| - 1][1..];
    }
  }

  lemma {:induction false} PutThenGet(es: seq<Entry>, k: string, v: Value)
    ensures forall q :: Get(PutEntry(es, k, v), q) == if q == k then Some(v) else Get(es, q)
  {
    if es != [] && es[0].key != k {
      PutThenGet(es[1..], k, v);
    }
  }

  class Shared {
    var attributes: map<string, Value>

    constructor (es: seq<Entry>)
      ensures attributes == MapOf(es)
    {
      var m: map<string, Value> := map[];
      for i := 0 to |es|
        invariant m == MapOf(es[..i])
      {
        assert es[..i + 1][..i] == es[..i];
        m := m[es[i].key := es[i].value];
      }
      assert es[..|es|] == es;
      attributes := m;
    }

    /** Deletes, in any order, what the map does not have with an equal value. */
    method IntersectWithMap(es: seq<Entry>) returns (n: nat)
      modifies this
      ensures attributes == Common(old(attributes), es) && n == |attributes|
    {
      hide Get, ValuesEqual;
      ghost var was, goal := attributes, Common(attributes, es);
      var todo := attributes.Keys;
      while todo != {}
        invariant todo <= attributes.Keys <= was.Keys
        invariant forall k :: k in attributes ==> attributes[k] == was[k]
        invariant forall k :: k in was && k !in todo ==> (k in attributes <==> k in goal)
        decreases |todo|
      {
        var k :| k in todo;
        todo := todo - {k};
        var other := Get(es, k);
        if other.Some? {
          if !ValuesEqual(attributes[k], other.value) {
            attributes := attributes - {k};
          }
        } else {
          attributes := attributes - {k};
        }
      }
      assert attributes.Keys == goal.Keys;
      n := |attributes|;
    }

    method IntersectWith(other: Shared) returns (n: nat)
      modifies this
      ensures attributes == CommonTo(old(attributes), old(other.attributes)) && n == |attributes|
    {
      hide ValuesEqual;
      ghost var was, theirs, goal := attributes, other.attributes, CommonTo(attributes, other.attributes);
      var todo := attributes.Keys;
      while todo != {}
        invariant todo <= attributes.Keys <= was.Keys
        invariant forall k :: k in attributes ==> attributes[k] == was[k]
        invariant forall k :: k in was && k !in todo ==> (k in attributes <==> k in goal)
        invariant other != this ==> other.attributes == theirs
        decreases |todo|
      {
        var k :| k in todo;
        todo := todo - {k};
        if k in other.attributes {
          if !ValuesEqual(attributes[k], other.attributes[k]) {
            attributes := attributes - {k};
          }
        } else {
          attributes := attributes - {k};
        }
      }
      assert attributes.Keys == goal.Keys;
      n := |attributes|;
    }

    /** Puts every shared attribute into the map, in any order. */
    method CopyTo(es: seq<Entry>) returns (r: seq<Entry>)
      ensures forall k :: Get(r, k) == if k in attributes then Some(attributes[k]) else Get(es, k)
    {
      r := es;
      var todo := attributes.Keys;
      while todo != {}
        invariant todo <= attributes.Keys
        invariant forall k :: Get(r, k) == if k in attributes && k !in todo then Some(attributes[k]) else Get(es, k)
        decreases |todo|
      {
        var k :| k in todo;
        todo := todo - {k};
        ghost var before := r;
        r := PutEntry(r, k, attributes[k]);
        PutThenGet(before, k, attributes[k]);
      }
    }
  }

  // ---------------------------------------------------------------- What an intersection is

  function CommonToAll(attributes: map<string, Value>, maps: seq<seq<Entry>>): map<string, Value>
    decreases maps
  {
    if maps == [] then attributes else CommonToAll(Common(attributes, maps[0]), maps[1..])
  }

  predicate Agrees(v: Value, es: seq<Entry>, k: string) {
    Get(es, k).Some? && ValuesEqual(v, Get(es, k).value)
  }

  /** After any number of intersections exactly the attributes that every map agrees with are left, as
      they were; so the result is a sub-map of each, and the order of the maps does not matter. */
  lemma {:induction false} CommonToAllIff(attributes: map<string, Value>, maps: seq<seq<Entry>>, k: string)
    ensures k in CommonToAll(attributes, maps) <==>
              k in attributes && forall i :: 0 <= i < |maps| ==> Agrees(attributes[k], maps[i], k)
    ensures k in CommonToAll(attributes, maps) ==> CommonToAll(attributes, maps)[k] == attributes[k]
    decreases maps
  {
    if maps != [] {
      CommonToAllIff(Common(attributes, maps[0]), maps[1..], k);
      assert forall i :: 0 < i < |maps| ==> maps[i] == maps[1..][i - 1];
      if && k in Common(attributes, maps[0])
         && forall i :: 0 <= i < |maps[1..]| ==> Agrees(attributes[k], maps[1..][i], k)
      {
        assert Agrees(attributes[k], maps[0], k);
      }
    }
  }

  /** It does not matter either which of two maps the sharing starts from. */
  lemma StartFromEither(es: seq<Entry>, fs: seq<Entry>, k: string)
    requires DistinctKeys(es) && DistinctKeys(fs) && Unique(Map(es)) && Unique(Map(fs))
    ensures k in Common(MapOf(es), fs) <==> k in Common(MapOf(fs), es)
  {
    MapOfMeaning(es, k);
    MapOfMeaning(fs, k);
    if Get(es, k).Some? && Get(fs, k).Some? {
      var i := IndexOf(es, k);
      var j := IndexOf(fs, k);
      var v, w := es[i].value, fs[j].value;
      ValuesEqualIsTreeEquality(v, w);
      ValuesEqualIsTreeEquality(w, v);
    }
  }

  // ---------------------------------------------------------------- Filing what is not shared

  function SharedKeys(s: Option<map<string, Value>>): set<string> {
    if s.Some? then s.value.Keys else {}
  }

  /** The non-empty keys in neither set, in map order, as rows. */
  function Unshared(id: nat, es: seq<Entry>, sh: set<string>): seq<Row> {
    if es == [] then []
    else
      var first := if es[0].key == "" || es[0].key in sh then [] else [Row(id, es[0].key, es[0].value)];
      first + Unshared(id, es[1..], sh)
  }

  /** The number of rows the code expects to append. */
  function Expected(es: seq<Entry>, s: Option<map<string, Value>>, m: Option<map<string, Value>>): int {
    |es| - (if s.Some? then |s.value| else 0) - (if m.Some? then |m.value| else 0)
  }

  function AtMost<T>(rows: seq<T>, n: int): seq<T> {
    if n >= |rows| then rows else if n <= 0 then [] else rows[..n]
  }

  /** The rows appended: none if none is expected, and otherwise the loop stops when the count is used
      up, but only after a row. */
  function Appended(id: nat, es: seq<Entry>, s: Option<map<string, Value>>, m: Option<map<string, Value>>): seq<Row> {
    var n := Expected(es, s, m);
    if n == 0 then [] else AtMost(Unshared(id, es, SharedKeys(s) + SharedKeys(m)), if n > 1 then n else 1)
  }

  function AsRows(id: nat, es: seq<Entry>): seq<Row> {
    seq(|es|, i requires 0 <= i < |es| => Row(id, es[i].key, es[i].value))
  }

  function NotShared(es: seq<Entry>, sh: set<string>): seq<bool> {
    seq(|es|, i requires 0 <= i < |es| => es[i].key != "" && es[i].key !in sh)
  }

  lemma {:induction false} UnsharedSelects(id: nat, es: seq<Entry>, sh: set<string>)
    ensures Selects(Unshared(id, es, sh), AsRows(id, es), NotShared(es, sh))
  {
    hide Selects;
    if es == [] {
      SelectsNothing<Row>();
      assert AsRows(id, es) == [] && NotShared(es, sh) == [];
    } else {
      UnsharedSelects(id, es[1..], sh);
      var row, kept := Row(id, es[0].key, es[0].value), es[0].key != "" && es[0].key !in sh;
      SelectsCons(row, kept, Unshared(id, es[1..], sh), AsRows(id, es[1..]), NotShared(es[1..], sh));
      assert AsRows(id, es) == [row] + AsRows(id, es[1..]);
      assert NotShared(es, sh) == [kept] + NotShared(es[1..], sh);
    }
  }

  /** What is appended, said by entries: those not shared and with a key, in map order, of which the first as many
      as there are entries beyond the shared ones, though at least one unless that is zero. */
  lemma AppendedMeaning(id: nat, es: seq<Entry>, s: Option<map<string, Value>>, m: Option<map<string, Value>>)
      returns (all: seq<Row>)
    ensures Selects(all, AsRows(id, es), NotShared(es, SharedKeys(s) + SharedKeys(m)))
    ensures var left := |es| - (if s.Some? then |s.value| else 0) - (if m.Some? then |m.value| else 0);
            var n := if left == 0 then 0 else if left < 1 then 1 else left;
            Appended(id, es, s, m) == all[..if n < |all| then n else |all|]
  {
    all := Unshared(id, es, SharedKeys(s) + SharedKeys(m));
    UnsharedSelects(id, es, SharedKeys(s) + SharedKeys(m));
    assert all[..0] == [] && all[..|all|] == all;
  }

  predicate IsShared(key: string, s: Option<map<string, Value>>, m: Option<map<string, Value>>) {
    (s.Some? && key in s.value) || (m.Some? && key in m.value)
  }

  /** What the loop still appends from entry i on, with the count at n. */
  function Rest(id: nat, es: seq<Entry>, i: nat, s: Option<map<string, Value>>, m: Option<map<string, Value>>,
      n: int): seq<Row>
    requires i <= |es|
  {
    AtMost(Unshared(id, es[i..], SharedKeys(s) + SharedKeys(m)), if n > 1 then n else 1)
  }

  lemma RestStep(id: nat, es: seq<Entry>, i: nat, s: Option<map<string, Value>>, m: Option<map<string, Value>>, n: int)
    requires i < |es|
    ensures Rest(id, es, i, s, m, n) ==
            if es[i].key == "" || IsShared(es[i].key, s, m) then Rest(id, es, i + 1, s, m, n)
            else [Row(id, es[i].key, es[i].value)] + (if n > 1 then Rest(id, es, i + 1, s, m, n - 1) else [])
  {
    assert es[i..][1..] == es[i + 1..] && es[i..][0] == es[i];
  }

  lemma RestEnds(id: nat, es: seq<Entry>, s: Option<map<string, Value>>, m: Option<map<string, Value>>, n: int)
    ensures n == Expected(es, s, m) && n != 0 ==> Rest(id, es, 0, s, m, n) == Appended(id, es, s, m)
    ensures Rest(id, es, |es|, s, m, n) == []
  {
    assert es[0..] == es && es[|es|..] == [];
  }

  lemma NothingExpected(id: nat, es: seq<Entry>, s: Option<map<string, Value>>, m: Option<map<string, Value>>)
    requires Expected(es, s, m) == 0
    ensures Appended(id, es, s, m) == []
  {
  }

  /** What is there and what is still to come make up what is wanted. */
  predicate Ahead<T(==)>(there: seq<T>, toCome: seq<T>, wanted: seq<T>) {
    there + toCome == wanted
  }

  lemma AheadIs<T>(there: seq<T>, toCome: seq<T>, wanted: seq<T>)
    ensures Ahead(there, toCome, wanted) <==> there + toCome == wanted
  {
  }

  lemma Advance<T>(there: seq<T>, x: T, toCome: seq<T>, wanted: seq<T>)
    requires Ahead(there, [x] + toCome, wanted)
    ensures Ahead(there + [x], toCome, wanted)
  {
    assert there + [x] + toCome == there + ([x] + toCome);
  }

  method AppendUniqueAttributesWithID(acc: Accumulator, id: nat, es: seq<Entry>,
                                      s: Option<map<string, Value>>, m: Option<map<string, Value>>) returns (r: Filing)
    modifies acc
    ensures Expected(es, s, m) != 0 && old(acc.attrsMapCount) == acc.maxCount ==>
              r == Overflow && acc.attrs == old(acc.attrs) && acc.attrsMapCount == old(acc.attrsMapCount)
    ensures Expected(es, s, m) == 0 || old(acc.attrsMapCount) != acc.maxCount ==>
              && r == Filed(id) && acc.attrs == old(acc.attrs) + Appended(id, es, s, m)
              && acc.attrsMapCount == old(acc.attrsMapCount) + (if Expected(es, s, m) == 0 then 0 else 1)
  {
    var uniqueAttrsCount := |es|;
    if s.Some? {
      uniqueAttrsCount := uniqueAttrsCount - |s.value|;
    }
    if m.Some? {
      uniqueAttrsCount := uniqueAttrsCount - |m.value|;
    }
    assert uniqueAttrsCount == Expected(es, s, m);
    hide Rest, Appended, Expected, IsShared, Ahead;
    if uniqueAttrsCount == 0 {
      NothingExpected(id, es, s, m);
      return Filed(id);
    }
    if acc.attrsMapCount == acc.maxCount {
      return Overflow;
    }
    RestEnds(id, es, s, m, uniqueAttrsCount);
    ghost var wanted := acc.attrs + Appended(id, es, s, m);
    var i, go := 0, true;
    assert Ahead(acc.attrs, Rest(id, es, 0, s, m, uniqueAttrsCount), wanted) by {
      AheadIs(acc.attrs, Rest(id, es, 0, s, m, uniqueAttrsCount), wanted);
    }
    while i < |es| && go
      invariant i <= |es| && acc.attrsMapCount == old(acc.attrsMapCount)
      invariant Ahead(acc.attrs, if go then Rest(id, es, i, s, m, uniqueAttrsCount) else [], wanted)
    {
      RestStep(id, es, i, s, m, uniqueAttrsCount);
      if es[i].key != "" && !IsShared(es[i].key, s, m) {
        Advance(acc.attrs, Row(id, es[i].key, es[i].value),
                if uniqueAttrsCount > 1 then Rest(id, es, i + 1, s, m, uniqueAttrsCount - 1) else [], wanted);
        acc.attrs := acc.attrs + [Row(id, es[i].key, es[i].value)];
        uniqueAttrsCount := uniqueAttrsCount - 1;
        go := uniqueAttrsCount > 0;
      }
      i := i + 1;
    }
    RestEnds(id, es, s, m, uniqueAttrsCount);
    AheadIs(acc.attrs, [], wanted);
    assert acc.attrs + [] == acc.attrs;
    acc.attrsMapCount := acc.attrsMapCount + 1;
    r := Filed(id);
  }

  // ---------------------------------------------------------------- When nothing is lost

  /** One if the map has an empty key that is not shared: it is counted and then skipped. */
  function Skipped(es: seq<Entry>, sh: set<string>): nat {
    if "" !in sh && Get(es, "").Some? then 1 else 0
  }

  function UnsharedKeys(es: seq<Entry>, sh: set<string>): set<string> {
    set e | e in es && e.key !in sh && e.key != "" :: e.key
  }

  lemma UnsharedKeysCons(es: seq<Entry>, sh: set<string>)
    requires es != []
    ensures var here := if es[0].key == "" || es[0].key in sh then {} else {es[0].key};
            UnsharedKeys(es, sh) == here + UnsharedKeys(es[1..], sh)
  {
    assert es == [es[0]] + es[1..];
  }

  lemma UnsharedKeysAreKeys(es: seq<Entry>, sh: set<string>)
    ensures forall k :: k in UnsharedKeys(es, sh) ==> k in AllKeys(es)
  {
  }

  lemma {:induction false} UnsharedCounts(id: nat, es: seq<Entry>, sh: set<string>)
    requires DistinctKeys(es)
    ensures |Unshared(id, es, sh)| == |UnsharedKeys(es, sh)|
  {
    if es == [] {
      assert UnsharedKeys(es, sh) == {};
    } else {
      UnsharedKeysCons(es, sh);
      DistinctKeysCons(es);
      UnsharedKeysAreKeys(es[1..], sh);
      hide UnsharedKeys, DistinctKeys, AllKeys;
      UnsharedCounts(id, es[1..], sh);
    }
  }

  /** Every key of the map is shared, unshared, or the empty key that is skipped. */
  lemma KeysSplit(es: seq<Entry>, sh: set<string>)
    requires sh <= AllKeys(es)
    ensures AllKeys(es) == sh + UnsharedKeys(es, sh) + (if Skipped(es, sh) == 1 then {""} else {})
    ensures "" !in UnsharedKeys(es, sh) && sh !! UnsharedKeys(es, sh)
  {
    GetKnowsKeys(es, "");
    hide Get;
    var all := sh + UnsharedKeys(es, sh) + (if Skipped(es, sh) == 1 then {""} else {});
    forall k | k in AllKeys(es) ensures k in all {
      var e :| e in es && e.key == k;
    }
  }

  lemma KeysPartition(id: nat, es: seq<Entry>, sh: set<string>)
    requires DistinctKeys(es) && sh <= AllKeys(es)
    ensures |es| == |sh| + |Unshared(id, es, sh)| + Skipped(es, sh)
  {
    KeyCountIff(es);
    UnsharedCounts(id, es, sh);
    KeysSplit(es, sh);
    assert Skipped(es, sh) == 1 ==> "" !in sh;
    hide DistinctKeys, Unshared, UnsharedKeys, AllKeys, Skipped;
    var u := UnsharedKeys(es, sh);
    assert |sh + u| == |sh| + |u|;
    if Skipped(es, sh) == 1 {
      assert |sh + u + {""}| == |sh + u| + 1;
    }
  }

  lemma AtMostIsAll<T>(rows: seq<T>, n: int)
    ensures AtMost(rows, n) == rows <==> rows == [] || n >= |rows|
  {
    assert AtMost(rows, n) == rows ==> |AtMost(rows, n)| == |rows|;
  }

  /** For any map and any shared sets, all the unshared rows are appended exactly when there are none, or
      the counter starts no lower than their number, or there is one and the counter starts below zero. */
  lemma AllUnsharedAppendedIff(id: nat, es: seq<Entry>, s: Option<map<string, Value>>, m: Option<map<string, Value>>)
    ensures var rows, counter := Unshared(id, es, SharedKeys(s) + SharedKeys(m)), Expected(es, s, m);
            Appended(id, es, s, m) == rows <==>
              rows == [] || counter >= |rows| || (|rows| == 1 && counter < 0)
  {
    var rows, n := Unshared(id, es, SharedKeys(s) + SharedKeys(m)), Expected(es, s, m);
    AtMostIsAll(rows, if n > 1 then n else 1);
    assert Appended(id, es, s, m) == if n == 0 then [] else AtMost(rows, if n > 1 then n else 1);
    hide Appended, AtMost, Unshared, Expected, SharedKeys;
  }

  /** With shared sets taken from the map that is: there are no unshared rows, or the two sets overlap in
      at most the keys that were counted and skipped, or one row is wanted and the overlap is larger still. */
  lemma OverlapLosesRowsIff(id: nat, es: seq<Entry>, s: Option<map<string, Value>>, m: Option<map<string, Value>>)
    requires DistinctKeys(es) && SharedKeys(s) <= AllKeys(es) && SharedKeys(m) <= AllKeys(es)
    ensures var sh := SharedKeys(s) + SharedKeys(m); var twice := |SharedKeys(s) * SharedKeys(m)|;
            var rows := Unshared(id, es, sh);
            Appended(id, es, s, m) == rows <==>
              || rows == [] || twice <= Skipped(es, sh)
              || (|rows| == 1 && twice > 1 + Skipped(es, sh))
  {
    var a, b := SharedKeys(s), SharedKeys(m);
    KeysPartition(id, es, a + b);
    SizeOfUnion(a, b);
    AllUnsharedAppendedIff(id, es, s, m);
    assert Expected(es, s, m) == |es| - |a| - |b|;
    hide Appended, AtMost, Unshared, Expected, SharedKeys, Skipped, AllKeys, DistinctKeys;
  }

  lemma SizeOfUnion<T>(a: set<T>, b: set<T>)
    ensures |a + b| == |a| + |b| - |a * b|
  {
  }

  lemma {:induction false} UnsharedMember(id: nat, es: seq<Entry>, sh: set<string>, row: Row)
    requires DistinctKeys(es)
    ensures row in Unshared(id, es, sh) <==>
              row.parentId == id && row.key != "" && row.key !in sh && Get(es, row.key) == Some(row.value)
  {
    if es != [] {
      UnsharedMember(id, es[1..], sh, row);
      GetKnowsKeys(es[1..], es[0].key);
    }
  }

  predicate RowKeysDistinct(rows: seq<Row>) {
    forall i, j :: 0 <= i < j < |rows| ==> rows[i].key != rows[j].key
  }

  lemma {:induction false} UnsharedDistinct(id: nat, es: seq<Entry>, sh: set<string>)
    requires DistinctKeys(es)
    ensures RowKeysDistinct(Unshared(id, es, sh))
  {
    if es != [] {
      var rest := Unshared(id, es[1..], sh);
      UnsharedDistinct(id, es[1..], sh);
      forall j | 0 <= j < |rest| ensures rest[j].key != es[0].key {
        assert rest[j] in rest;
        UnsharedMember(id, es[1..], sh, rest[j]);
      }
    }
  }

  /** What intersecting leaves: keys of the map, with equal values. */
  ghost predicate IsSubMap(s: Option<map<string, Value>>, es: seq<Entry>) {
    forall k :: k in SharedKeys(s) ==> Agrees(s.value[k], es, k)
  }

  lemma SubMapKeys(s: Option<map<string, Value>>, es: seq<Entry>)
    requires IsSubMap(s, es)
    ensures SharedKeys(s) <= AllKeys(es)
  {
    forall k | k in SharedKeys(s) ensures k in AllKeys(es) {
      GetKnowsKeys(es, k);
    }
  }

  /** Every attribute with a non-empty key is in exactly one place: in one of two disjoint shared sets,
      with an equal value, or in one row, as it was; and nothing else is anywhere. */
  lemma SharedAndAppendedRebuild(id: nat, es: seq<Entry>, s: Option<map<string, Value>>, m: Option<map<string, Value>>)
    requires DistinctKeys(es) && IsSubMap(s, es) && IsSubMap(m, es) && SharedKeys(s) !! SharedKeys(m)
    ensures forall k :: k in SharedKeys(s) ==> Agrees(s.value[k], es, k)
    ensures forall k :: k in SharedKeys(m) ==> Agrees(m.value[k], es, k)
    ensures var rows := Appended(id, es, s, m);
      && RowKeysDistinct(rows)
      && forall row :: row in rows <==>
           && row.parentId == id && row.key != "" && Get(es, row.key) == Some(row.value)
           && row.key !in SharedKeys(s) && row.key !in SharedKeys(m)
  {
    SubMapKeys(s, es);
    SubMapKeys(m, es);
    assert SharedKeys(s) * SharedKeys(m) == {};
    OverlapLosesRowsIff(id, es, s, m);
    var sh := SharedKeys(s) + SharedKeys(m);
    UnsharedDistinct(id, es, sh);
    forall row ensures row in Unshared(id, es, sh) <==>
        row.parentId == id && row.key != "" && row.key !in sh && Get(es, row.key) == Some(row.value) {
      UnsharedMember(id, es, sh, row);
    }
    hide Appended, Unshared, Get, SharedKeys, AllKeys, DistinctKeys, RowKeysDistinct, Agrees;
  }
}
