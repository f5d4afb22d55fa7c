/** pcommon.Value trees: the two equalities and the ordering that the code uses on them. */
module Values {
  import Words
  import opened Wrappers

  type int64 = Words.Int64

  type byte = x: int | 0 <= x < 256

  /** Exact numbers and NaN; rounding, infinities and the sign of zero are not modelled. */
  datatype Float = NaN | Num(r: real)

  datatype Value =
    | Empty
    | Str(s: string)
    | Int(i: int64)
    | Double(d: Float)
    | Bool(b: bool)
    | Map(entries: seq<Entry>)
    | Slice(elems: seq<Value>)
    | Bytes(bytes: seq<byte>)

  datatype Entry = Entry(key: string, value: Value)

  /** The numeric codes of pcommon.ValueType. */
  function TypeCode(v: Value): nat {
    match v
    case Empty => 0
    case Str(_) => 1
    case Int(_) => 2
    case Double(_) => 3
    case Bool(_) => 4
    case Map(_) => 5
    case Slice(_) => 6
    case Bytes(_) => 7
  }

  predicate FloatEq(a: Float, b: Float) {
    a.Num? && b.Num? && a.r == b.r
  }

  predicate IsNaN(v: Value) {
    v.Double? && v.d.NaN?
  }

  predicate IsScalar(v: Value) {
    v.Str? || v.Int? || v.Double? || v.Bool? || v.Bytes?
  }

  // ---------------------------------------------------------------- Equal and Compare

  /** The grouping equality: maps, slices and empty values are equal to nothing. */
  predicate Equal(a: Value, b: Value) {
    match a
    case Int(i) => b.Int? && i == b.i
    case Double(d) => b.Double? && FloatEq(d, b.d)
    case Bool(x) => b.Bool? && x == b.b
    case Str(s) => b.Str? && s == b.s
    case Bytes(s) => b.Bytes? && s == b.bytes
    case Map(_) => false
    case Slice(_) => false
    case Empty => false
  }

  /** strings.Compare and bytes.Compare, by the code of the first element that differs. */
  function CompareSeq<T>(a: seq<T>, b: seq<T>, code: T -> int): int {
    if a == [] then (if b == [] then 0 else -1)
    else if b == [] then 1
    else if code(a[0]) < code(b[0]) then -1
    else if code(a[0]) > code(b[0]) then 1
    else CompareSeq(a[1..], b[1..], code)
  }

  function CompareStrings(a: string, b: string): int {
    CompareSeq(a, b, (c: char) => c as int)
  }

  function CompareBytes(a: seq<byte>, b: seq<byte>): int {
    CompareSeq(a, b, (x: byte) => x as int)
  }

  /** Compare as written: 1 whenever the types differ or the type has no order, NaN above everything. */
  function Compare(a: Value, b: Value): int {
    match a
    case Int(i) => if b.Int? then (if i == b.i then 0 else if i < b.i then -1 else 1) else 1
    case Double(d) =>
      if b.Double? then
        (if FloatEq(d, b.d) then 0 else if d.Num? && b.d.Num? && d.r < b.d.r then -1 else 1)
      else 1
    case Bool(x) =>
      var y := b.Bool? && b.b;
      if x == y then 0 else if x then 1 else -1
    case Str(s) => if b.Str? then CompareStrings(s, b.s) else 1
    case Bytes(s) => if b.Bytes? then CompareBytes(s, b.bytes) else 1
    case Map(_) => 1
    case Slice(_) => 1
    case Empty => 1
  }

  lemma {:induction false} CompareSeqLaws<T>(a: seq<T>, b: seq<T>, c: seq<T>, code: T -> int)
    requires forall x, y :: code(x) == code(y) ==> x == y
    ensures CompareSeq(a, b, code) == 0 <==> a == b
    ensures CompareSeq(b, a, code) == -CompareSeq(a, b, code)
    ensures CompareSeq(a, b, code) <= 0 && CompareSeq(b, c, code) <= 0 ==> CompareSeq(a, c, code) <= 0
    ensures -1 <= CompareSeq(a, b, code) <= 1
  {
    if a != [] && b != [] {
      if c != [] {
        CompareSeqLaws(a[1..], b[1..], c[1..], code);
      } else {
        CompareSeqLaws(a[1..], b[1..], [], code);
      }
      assert a == [a[0]] + a[1..] && b == [b[0]] + b[1..];
    }
  }

  lemma StringOrder(a: string, b: string, c: string)
    ensures CompareStrings(a, b) == 0 <==> a == b
    ensures CompareStrings(b, a) == -CompareStrings(a, b)
    ensures CompareStrings(a, b) <= 0 && CompareStrings(b, c) <= 0 ==> CompareStrings(a, c) <= 0
  {
    CompareSeqLaws(a, b, c, (x: char) => x as int);
  }

  /** So comparing by any string is a strict weak order. */
  lemma StringLess(a: string, b: string, c: string)
    ensures CompareStrings(a, b) < 0 ==> !(CompareStrings(b, a) < 0)
    ensures CompareStrings(a, c) < 0 ==> CompareStrings(a, b) < 0 || CompareStrings(b, c) < 0
  {
    StringOrder(a, b, c);
    StringOrder(c, b, a);
    StringOrder(a, c, b);
  }

  /** A proper start of the other, or smaller at the first place where they differ. */
  ghost predicate ComesBefore<T>(a: seq<T>, b: seq<T>, code: T -> int) {
    a < b || exists i :: SmallerAt(a, b, code, i)
  }

  predicate SmallerAt<T(==)>(a: seq<T>, b: seq<T>, code: T -> int, i: int) {
    0 <= i < |a| && i < |b| && a[..i] == b[..i] && code(a[i]) < code(b[i])
  }

  lemma {:induction false} CompareSeqMeaning<T>(a: seq<T>, b: seq<T>, code: T -> int)
    requires forall x, y :: code(x) == code(y) ==> x == y
    ensures CompareSeq(a, b, code) < 0 <==> ComesBefore(a, b, code)
  {
    if a == [] || b == [] {
      assert a == [] && b != [] ==> a < b;
    } else if a[0] == b[0] {
      var x, y := a[1..], b[1..];
      CompareSeqMeaning(x, y, code);
      if ComesBefore(x, y, code) && !(x < y) {
        var i :| SmallerAt(x, y, code, i);
        assert a[..i + 1] == [a[0]] + x[..i] && b[..i + 1] == [b[0]] + y[..i];
        assert SmallerAt(a, b, code, i + 1);
      }
      if ComesBefore(a, b, code) && !(a < b) {
        var i :| SmallerAt(a, b, code, i);
        assert x[..i - 1] == a[..i][1..] && y[..i - 1] == b[..i][1..];
        assert SmallerAt(x, y, code, i - 1);
      }
      assert a == [a[0]] + x && b == [b[0]] + y;
    } else {
      assert code(a[0]) < code(b[0]) ==> SmallerAt(a, b, code, 0);
      if i :| SmallerAt(a, b, code, i) {
        assert i > 0 ==> a[..i][0] == b[..i][0];
      }
    }
  }

  /** Strings by the code of the first character that differs, bytes likewise. */
  ghost predicate StringBefore(a: string, b: string) {
    ComesBefore(a, b, (c: char) => c as int)
  }

  ghost predicate BytesBefore(a: seq<byte>, b: seq<byte>) {
    ComesBefore(a, b, (x: byte) => x as int)
  }

  lemma StringsInOrder(a: string, b: string)
    ensures CompareStrings(a, b) < 0 <==> StringBefore(a, b)
    ensures CompareStrings(a, b) <= 0 <==> a == b || StringBefore(a, b)
  {
    CompareSeqMeaning(a, b, (c: char) => c as int);
    StringOrder(a, b, a);
  }

  lemma BytesInOrder(a: seq<byte>, b: seq<byte>)
    ensures CompareBytes(a, b) < 0 <==> BytesBefore(a, b)
    ensures CompareBytes(a, b) == 0 <==> a == b
    ensures -1 <= CompareBytes(a, b) <= 1
  {
    CompareSeqMeaning(a, b, (x: byte) => x as int);
    CompareSeqLaws(a, b, a, (x: byte) => x as int);
  }

  /** The order that values of one type are put in: numbers by size, false before true. */
  ghost predicate ValueBefore(a: Value, b: Value) {
    || (a.Str? && b.Str? && StringBefore(a.s, b.s))
    || (a.Int? && b.Int? && a.i < b.i)
    || (a.Double? && b.Double? && a.d.Num? && b.d.Num? && a.d.r < b.d.r)
    || (a.Bool? && b.Bool? && !a.b && b.b)
    || (a.Bytes? && b.Bytes? && BytesBefore(a.bytes, b.bytes))
  }

  /** Within one type Compare is below zero exactly for values in this order, NaN included. */
  lemma CompareMeaning(a: Value, b: Value)
    requires TypeCode(a) == TypeCode(b)
    ensures Compare(a, b) < 0 <==> ValueBefore(a, b)
    ensures Compare(a, b) == 0 <==> Equal(a, b)
  {
    if a.Str? {
      StringsInOrder(a.s, b.s);
      StringOrder(a.s, b.s, a.s);
    }
    if a.Bytes? {
      BytesInOrder(a.bytes, b.bytes);
    }
    hide CompareStrings, CompareBytes, StringBefore, BytesBefore;
  }

  /** Across types Compare is 1, except that it takes anything else for false when comparing a boolean. */
  lemma CompareAcrossTypes(a: Value, b: Value)
    requires TypeCode(a) != TypeCode(b)
    ensures Compare(a, b) == if a == Bool(false) then 0 else 1
  {
  }

  /** The grouping equality is equality of scalars, and no NaN is equal to anything. */
  lemma EqualMeaning(a: Value, b: Value)
    ensures Equal(a, b) <==> a == b && IsScalar(a) && !IsNaN(a)
  {
  }

  /** The codes of the original's value types. */
  lemma TypeCodes(v: Value)
    ensures v.Empty? <==> TypeCode(v) == 0
    ensures v.Str? <==> TypeCode(v) == 1
    ensures v.Int? <==> TypeCode(v) == 2
    ensures v.Double? <==> TypeCode(v) == 3
    ensures v.Bool? <==> TypeCode(v) == 4
    ensures v.Map? <==> TypeCode(v) == 5
    ensures v.Slice? <==> TypeCode(v) == 6
    ensures v.Bytes? <==> TypeCode(v) == 7
  {
  }

  /** Within one scalar type and away from NaN, Compare is a total order and Equal is its zero. */
  lemma CompareIsTotalOrder(a: Value, b: Value, c: Value)
    requires IsScalar(a) && TypeCode(a) == TypeCode(b) == TypeCode(c)
    requires !IsNaN(a) && !IsNaN(b) && !IsNaN(c)
    ensures Compare(a, b) == 0 <==> a == b
    ensures Equal(a, b) <==> Compare(a, b) == 0
    ensures Compare(b, a) == -Compare(a, b)
    ensures Compare(a, b) <= 0 && Compare(b, c) <= 0 ==> Compare(a, c) <= 0
  {
    match a
    case Str(s) => StringOrder(s, b.s, c.s);
    case Bytes(s) => CompareSeqLaws(s, b.bytes, c.bytes, (x: byte) => x as int);
    case _ =>
  }

  /** Maps, slices and empty values compare as 1 both ways round and are not Equal even to themselves. */
  lemma CompareHasNoOrderOffScalars(a: Value, b: Value)
    requires !IsScalar(a)
    ensures Compare(a, b) == 1 && !Equal(a, b) && !Equal(b, a)
  {
  }

  // ---------------------------------------------------------------- ValuesEqual

  /** Map.Get: the first entry under the key. */
  function Get(es: seq<Entry>, k: string): (r: Option<Value>)
    ensures r.Some? ==> Entry(k, r.value) in es
  {
    if es == [] then None else if es[0].key == k then Some(es[0].value) else Get(es[1..], k)
  }

  predicate ValuesEqual(v: Value, av: Value) {
    match v
    case Empty => av.Empty?
    case Str(s) => av.Str? && s == av.s
    case Bool(b) => av.Bool? && b == av.b
    case Int(i) => av.Int? && i == av.i
    case Double(d) => av.Double? && FloatEq(d, av.d)
    case Bytes(b) => av.Bytes? && b == av.bytes
    case Slice(vs) =>
      av.Slice? && |vs| == |av.elems| && forall i :: 0 <= i < |vs| ==> ValuesEqual(vs[i], av.elems[i])
    case Map(vm) =>
      && av.Map? && |vm| == |av.entries|
      && forall i :: 0 <= i < |vm| ==>
           var g := Get(av.entries, vm[i].key); g.Some? && ValuesEqual(vm[i].value, g.value)
  }

  predicate DistinctKeys(es: seq<Entry>) {
    forall i, j :: 0 <= i < j < |es| ==> es[i].key != es[j].key
  }

  predicate Unique(v: Value) {
    match v
    case Map(es) => DistinctKeys(es) && forall i :: 0 <= i < |es| ==> Unique(es[i].value)
    case Slice(vs) => forall i :: 0 <= i < |vs| ==> Unique(vs[i])
    case _ => true
  }

  /** What a value denotes once the order of map entries is forgotten. */
  datatype Tree =
    | TEmpty
    | TStr(s: string)
    | TInt(i: int64)
    | TDouble(d: Float)
    | TBool(b: bool)
    | TMap(m: map<string, Tree>)
    | TSlice(elems: seq<Tree>)
    | TBytes(bytes: seq<byte>)

  function TreeOf(v: Value): Tree
    decreases v
  {
    match v
    case Empty => TEmpty
    case Str(s) => TStr(s)
    case Int(i) => TInt(i)
    case Double(d) => TDouble(d)
    case Bool(b) => TBool(b)
    case Map(es) => TMap(TreeOfEntries(es))
    case Slice(vs) => TSlice(TreesOf(vs))
    case Bytes(b) => TBytes(b)
  }

  function TreesOf(vs: seq<Value>): (ts: seq<Tree>)
    decreases vs
  {
    if vs == [] then [] else [TreeOf(vs[0])] + TreesOf(vs[1..])
  }

  function TreeOfEntries(es: seq<Entry>): map<string, Tree>
    decreases es
  {
    if es == [] then map[] else TreeOfEntries(es[1..])[es[0].key := TreeOf(es[0].value)]
  }

  lemma {:induction false} TreesOfIndex(vs: seq<Value>)
    ensures |TreesOf(vs)| == |vs|
    ensures forall i :: 0 <= i < |vs| ==> TreesOf(vs)[i] == TreeOf(vs[i])
  {
    if vs != [] {
      TreesOfIndex(vs[1..]);
    }
  }

  /** The denoted map has the keys that Get finds and the values that Get finds. */
  lemma {:induction false} TreeOfEntriesIsGet(es: seq<Entry>, k: string)
    ensures k in TreeOfEntries(es) <==> Get(es, k).Some?
    ensures k in TreeOfEntries(es) ==> TreeOfEntries(es)[k] == TreeOf(Get(es, k).value)
  {
    if es != [] {
      TreeOfEntriesIsGet(es[1..], k);
    }
  }

  lemma {:induction false} GetAt(es: seq<Entry>, i: nat)
    requires DistinctKeys(es) && i < |es|
    ensures Get(es, es[i].key) == Some(es[i].value)
  {
    if i > 0 {
      GetAt(es[1..], i - 1);
    }
  }

  /** Get finds the first entry under the key, and nothing only if there is none. */
  lemma {:induction false} GetIsFirst(es: seq<Entry>, k: string)
    ensures Get(es, k).None? <==> forall i :: 0 <= i < |es| ==> es[i].key != k
    ensures forall i :: 0 <= i < |es| && es[i].key == k && (forall j :: 0 <= j < i ==> es[j].key != k) ==>
              Get(es, k) == Some(es[i].value)
  {
    if es != [] && es[0].key != k {
      GetIsFirst(es[1..], k);
      forall i | 0 <= i < |es| && es[i].key == k && forall j :: 0 <= j < i ==> es[j].key != k
        ensures Get(es, k) == Some(es[i].value)
      {
        assert es[1..][i - 1] == es[i] && forall j :: 0 <= j < i - 1 ==> es[1..][j] == es[j + 1];
      }
    }
  }

  lemma {:induction false} TreeOfEntriesSize(es: seq<Entry>)
    requires DistinctKeys(es)
    ensures |TreeOfEntries(es)| == |es|
  {
    if es != [] {
      var rest := TreeOfEntries(es[1..]);
      TreeOfEntriesSize(es[1..]);
      TreeOfEntriesIsGet(es[1..], es[0].key);
      assert TreeOfEntries(es).Keys == rest.Keys + {es[0].key};
      assert |rest| == |rest.Keys| && |TreeOfEntries(es)| == |TreeOfEntries(es).Keys|;
    }
  }

  /** Map.Put: a key already there keeps its place and takes the new value. */
  function PutEntry(es: seq<Entry>, k: string, v: Value): seq<Entry> {
    if es == [] then [Entry(k, v)]
    else if es[0].key == k then [Entry(k, v)] + es[1..]
    else [es[0]] + PutEntry(es[1..], k, v)
  }

  lemma {:induction false} PutEntryMeaning(es: seq<Entry>, k: string, v: Value)
    requires DistinctKeys(es)
    ensures DistinctKeys(PutEntry(es, k, v))
    ensures forall q :: Get(PutEntry(es, k, v), q) == if q == k then Some(v) else Get(es, q)
    ensures forall e :: e in PutEntry(es, k, v) ==> e == Entry(k, v) || e in es
  {
    if es != [] && es[0].key != k {
      PutEntryMeaning(es[1..], k, v);
      var rest := PutEntry(es[1..], k, v);
      assert PutEntry(es, k, v) == [es[0]] + rest;
      forall j | 0 <= j < |rest| ensures rest[j].key != es[0].key {
        assert rest[j] in rest;
      }
    }
  }

  /** A key that is there keeps its place, a new one goes to the end, and no other entry moves. */
  lemma {:induction false} PutEntryPlace(es: seq<Entry>, k: string, v: Value, i: nat)
    requires i <= |es| && (i < |es| ==> es[i].key == k) && forall j :: 0 <= j < i ==> es[j].key != k
    ensures PutEntry(es, k, v) == es[..i] + [Entry(k, v)] + (if i < |es| then es[i + 1..] else [])
  {
    if i > 0 {
      PutEntryPlace(es[1..], k, v, i - 1);
      assert es[..i] == [es[0]] + es[1..][..i - 1];
    }
  }

  lemma SubsetOfSameSize<T>(a: set<T>, b: set<T>)
    requires a <= b && |a| == |b|
    ensures a == b
  {
    assert |b - a| == |b| - |a|;
  }

  /** The pigeonhole step: a map contained in another of the same size is that map. */
  lemma SubmapOfSameSize<K, V>(a: map<K, V>, b: map<K, V>)
    requires |a| == |b| && forall k :: k in a ==> k in b && a[k] == b[k]
    ensures a == b
  {
    SubsetOfSameSize(a.Keys, b.Keys);
    assert a.Keys == b.Keys;
  }

  ghost predicate TreeNaNFree(t: Tree)
    decreases t
  {
    match t
    case TMap(m) => forall k :: k in m ==> TreeNaNFree(m[k])
    case TSlice(ts) => forall i :: 0 <= i < |ts| ==> TreeNaNFree(ts[i])
    case TDouble(d) => d.Num?
    case _ => true
  }

  /** What the induction proves of two values: equal exactly when they denote one NaN-free tree. */
  ghost predicate Agree(v: Value, w: Value) {
    ValuesEqual(v, w) <==> TreeOf(v) == TreeOf(w) && TreeNaNFree(TreeOf(v))
  }

  /** ValuesEqual is exactly equality up to the order of map entries, for NaN-free values. */
  lemma {:induction false} ValuesEqualIsTreeEquality(v: Value, w: Value)
    requires Unique(v) && Unique(w)
    ensures ValuesEqual(v, w) <==> TreeOf(v) == TreeOf(w) && TreeNaNFree(TreeOf(v))
    decreases v
  {
    match v
    case Slice(vs) =>
      TreesOfIndex(vs);
      if w.Slice? {
        TreesOfIndex(w.elems);
        if |vs| == |w.elems| {
          forall i | 0 <= i < |vs| ensures Agree(vs[i], w.elems[i]) {
            ValuesEqualIsTreeEquality(vs[i], w.elems[i]);
          }
          SlicesEqual(vs, w.elems);
        }
      }
    case Map(es) =>
      if w.Map? {
        forall i | 0 <= i < |es| && Get(w.entries, es[i].key).Some?
          ensures Agree(es[i].value, Get(w.entries, es[i].key).value)
        {
          var g := Get(w.entries, es[i].key).value;
          assert Entry(es[i].key, g) in w.entries;
          ValuesEqualIsTreeEquality(es[i].value, g);
        }
        MapsEqual(es, w.entries);
      }
    case _ =>
  }

  lemma SlicesEqual(vs: seq<Value>, ws: seq<Value>)
    requires |vs| == |ws|
    requires forall i :: 0 <= i < |vs| ==> Agree(vs[i], ws[i])
    ensures Agree(Slice(vs), Slice(ws))
  {
    TreesOfIndex(vs);
    TreesOfIndex(ws);
    hide TreesOf;
    if ValuesEqual(Slice(vs), Slice(ws)) {
      assert forall i :: 0 <= i < |vs| ==> ValuesEqual(vs[i], ws[i]);
      assert TreesOf(vs) == TreesOf(ws);
    } else if TreesOf(vs) == TreesOf(ws) && TreeNaNFree(TreeOf(Slice(vs))) {
      forall i | 0 <= i < |vs| ensures ValuesEqual(vs[i], ws[i]) {
        assert TreesOf(vs)[i] == TreesOf(ws)[i];
        assert Agree(vs[i], ws[i]);
      }
    }
  }

  lemma MapsEqual(es: seq<Entry>, fs: seq<Entry>)
    requires DistinctKeys(es) && DistinctKeys(fs)
    requires forall i :: 0 <= i < |es| && Get(fs, es[i].key).Some? ==> Agree(es[i].value, Get(fs, es[i].key).value)
    ensures Agree(Map(es), Map(fs))
  {
    hide TreeOfEntries, Get;
    var m, n := TreeOfEntries(es), TreeOfEntries(fs);
    TreeOfEntriesSize(es);
    TreeOfEntriesSize(fs);
    if ValuesEqual(Map(es), Map(fs)) {
      forall k | k in m ensures k in n && m[k] == n[k] && TreeNaNFree(m[k]) {
        TreeOfEntriesIsGet(es, k);
        TreeOfEntriesIsGet(fs, k);
        var i := IndexOf(es, k);
        var g := Get(fs, es[i].key);
        assert g.Some? && ValuesEqual(es[i].value, g.value);
        assert Agree(es[i].value, g.value);
      }
      SubmapOfSameSize(m, n);
    } else if m == n && TreeNaNFree(TMap(m)) {
      forall i | 0 <= i < |es|
        ensures Get(fs, es[i].key).Some? && ValuesEqual(es[i].value, Get(fs, es[i].key).value)
      {
        GetAt(es, i);
        TreeOfEntriesIsGet(es, es[i].key);
        TreeOfEntriesIsGet(fs, es[i].key);
        assert Agree(es[i].value, Get(fs, es[i].key).value);
      }
    }
  }

  lemma IndexOf(es: seq<Entry>, k: string) returns (i: nat)
    requires Get(es, k).Some?
    ensures i < |es| && es[i] == Entry(k, Get(es, k).value)
  {
    i :| 0 <= i < |es| && es[i] == Entry(k, Get(es, k).value);
  }

  /** Hence, on values with unique keys, it is symmetric and transitive, and reflexive where NaN-free. */
  lemma ValuesEqualIsEquivalence(u: Value, v: Value, w: Value)
    requires Unique(u) && Unique(v) && Unique(w)
    ensures ValuesEqual(u, u) <==> TreeNaNFree(TreeOf(u))
    ensures ValuesEqual(u, v) <==> ValuesEqual(v, u)
    ensures ValuesEqual(u, v) && ValuesEqual(v, w) ==> ValuesEqual(u, w)
  {
    ValuesEqualIsTreeEquality(u, u);
    ValuesEqualIsTreeEquality(u, v);
    ValuesEqualIsTreeEquality(v, u);
    ValuesEqualIsTreeEquality(v, w);
    ValuesEqualIsTreeEquality(u, w);
  }

  function AllKeys(es: seq<Entry>): set<string> {
    set e | e in es :: e.key
  }

  lemma {:induction false} GetKnowsKeys(es: seq<Entry>, k: string)
    ensures Get(es, k).Some? <==> k in AllKeys(es)
  {
    if es != [] {
      GetKnowsKeys(es[1..], k);
      assert es == [es[0]] + es[1..];
      assert AllKeys(es) == {es[0].key} + AllKeys(es[1..]);
    }
  }

  /** A map has as many keys as entries exactly when they are distinct. */
  lemma {:induction false} KeyCountIff(es: seq<Entry>)
    ensures |AllKeys(es)| <= |es|
    ensures |AllKeys(es)| == |es| <==> DistinctKeys(es)
  {
    if es != [] {
      var rest := es[1..];
      KeyCountIff(rest);
      assert es == [es[0]] + rest;
      assert AllKeys(es) == {es[0].key} + AllKeys(rest);
      DistinctKeysCons(es);
      hide DistinctKeys;
      if es[0].key in AllKeys(rest) {
        assert {es[0].key} + AllKeys(rest) == AllKeys(rest);
      } else {
        assert |{es[0].key} + AllKeys(rest)| == 1 + |AllKeys(rest)|;
      }
    }
  }

  lemma DistinctKeysCons(es: seq<Entry>)
    requires es != []
    ensures DistinctKeys(es) <==> DistinctKeys(es[1..]) && es[0].key !in AllKeys(es[1..])
  {
    if DistinctKeys(es[1..]) && es[0].key !in AllKeys(es[1..]) {
      forall i, j | 0 <= i < j < |es| ensures es[i].key != es[j].key {
        assert es[1..][j - 1] in es[1..] && es[1..][j - 1] == es[j];
        if i > 0 {
          assert es[1..][i - 1] == es[i];
        }
      }
    }
  }

  /** Looking the other way round gives the same answer exactly when the first value's keys are unique
      too, given that the second's are. */
  lemma {:induction false} SymmetricIff(v: Value, w: Value)
    requires Unique(w) && ValuesEqual(v, w)
    ensures ValuesEqual(w, v) <==> Unique(v)
    decreases v
  {
    if Unique(v) {
      ValuesEqualIsEquivalence(v, w, w);
    } else {
      match v
      case Slice(vs) =>
        var i :| 0 <= i < |vs| && !Unique(vs[i]);
        SymmetricIff(vs[i], w.elems[i]);
      case Map(vm) =>
        if ValuesEqual(w, v) {
          KeysFoundBothWays(vm, w.entries);
          var i :| 0 <= i < |vm| && !Unique(vm[i].value);
          var j := IndexOf(w.entries, vm[i].key);
          GetAt(vm, i);
          SymmetricIff(vm[i].value, w.entries[j].value);
        }
    }
  }

  /** The pigeonhole again: if every key of a map with distinct keys is in one as long, that has distinct keys. */
  lemma KeysFoundBothWays(es: seq<Entry>, fs: seq<Entry>)
    requires |es| == |fs| && DistinctKeys(fs) && forall i :: 0 <= i < |fs| ==> Get(es, fs[i].key).Some?
    ensures DistinctKeys(es)
  {
    KeyCountIff(es);
    KeyCountIff(fs);
    forall k | k in AllKeys(fs) ensures k in AllKeys(es) {
      var e :| e in fs && e.key == k;
      var i :| 0 <= i < |fs| && fs[i] == e;
      GetKnowsKeys(es, k);
    }
    hide AllKeys, DistinctKeys;
    SubsetSize(AllKeys(fs), AllKeys(es));
  }

  lemma SubsetSize<T>(a: set<T>, b: set<T>)
    requires a <= b
    ensures |a| <= |b|
  {
    assert |b - a| == |b| - |a|;
  }

  lemma MissingKey(es: seq<Entry>, fs: seq<Entry>, i: nat)
    requires i < |es| && Get(fs, es[i].key).None?
    ensures !ValuesEqual(Map(es), Map(fs))
  {
  }

  /** Without unique keys the one-sided lookup is not symmetric. */
  lemma ValuesEqualNeedsUniqueKeys()
    ensures exists v, w :: ValuesEqual(v, w) && !ValuesEqual(w, v) && TreeNaNFree(TreeOf(v))
  {
    var a, b := Entry("a", Bool(true)), Entry("b", Bool(true));
    var v, w := Map([a, a]), Map([a, b]);
    assert "a" != "b" by {
      assert "a"[0] != "b"[0];
    }
    assert [a, a][1..] == [a] && [a][1..] == [];
    assert Get([a, b], "a") == Some(Bool(true));
    assert Get([a, a], "b") == Get([a], "b") == Get([], "b") == None;
    assert Get(v.entries, w.entries[1].key).None?;
    assert Get(w.entries, v.entries[0].key) == Get(w.entries, v.entries[1].key) == Some(Bool(true));
    MissingKey(w.entries, v.entries, 1);
    assert ValuesEqual(v, w);
    assert TreeOfEntries([a]) == map["a" := TBool(true)];
    assert TreeOfEntries([a, a]) == TreeOfEntries([a])["a" := TBool(true)] == TreeOfEntries([a]);
    assert TreeOf(v) == TMap(map["a" := TBool(true)]);
  }
}
