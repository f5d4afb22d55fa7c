/** The textual schema id: what it forgets, and why it otherwise tells every two schemas apart. */
module SchemaId {
  import opened Values
  import opened Sorting
  import opened Decimals
  import opened Wrappers

  datatype Primitive =
    | Bool | U8 | U16 | U32 | U64 | I8 | I16 | I32 | I64 | F32 | F64 | Utf8 | Binary

  datatype DataType =
    | Prim(p: Primitive)
    | Timestamp(unit: nat)
    | Duration(unit: nat)
    | FixedSizeBinary(width: nat)
    | Struct(fields: seq<Field>)
    | List(elem: Field)
    | Dictionary(index: DataType, value: DataType)
    | Union(sparse: bool, fields: seq<Field>, codes: seq<int>)
    | MapType(key: Field, item: Field)
    | Unsupported(description: string)

  datatype Field = Field(name: string, typ: DataType, nullable: bool, metadata: map<string, string>)

  // ---------------------------------------------------------------- What the id is about

  /** A type without nullability, metadata, element names, units and union codes, fields in name order. */
  datatype Shape =
    | SPrim(p: Primitive)
    | STimestamp
    | SDuration
    | SFixed(width: nat)
    | SStruct(fields: seq<SField>)
    | SList(elem: Shape)
    | SDict(index: Shape, value: Shape)
    | SUnion(sparse: bool, fields: seq<SField>)
    | SMap(key: Shape, item: Shape)
    | SUnsupported

  datatype SField = SField(name: string, shape: Shape)

  predicate ByName(a: SField, b: SField) {
    CompareStrings(a.name, b.name) < 0
  }

  predicate ByFieldName(a: Field, b: Field) {
    CompareStrings(a.name, b.name) < 0
  }

  function ShapeOf(t: DataType): Shape
    decreases t
  {
    match t
    case Prim(p) => SPrim(p)
    case Timestamp(_) => STimestamp
    case Duration(_) => SDuration
    case FixedSizeBinary(w) => SFixed(w)
    case Struct(fs) => SStruct(SortBy(ShapesOf(fs), ByName))
    case List(e) => SList(ShapeOf(e.typ))
    case Dictionary(i, v) => SDict(ShapeOf(i), ShapeOf(v))
    case Union(s, fs, _) => SUnion(s, SortBy(ShapesOf(fs), ByName))
    case MapType(k, v) => SMap(ShapeOf(k.typ), ShapeOf(v.typ))
    case Unsupported(_) => SUnsupported
  }

  function ShapesOf(fs: seq<Field>): (ss: seq<SField>)
    ensures |ss| == |fs|
    decreases fs
  {
    if fs == [] then [] else [SField(fs[0].name, ShapeOf(fs[0].typ))] + ShapesOf(fs[1..])
  }

  // ---------------------------------------------------------------- Printing

  function Sig(p: Primitive): string {
    match p
    case Bool => "Bol"
    case U8 => "U8"
    case U16 => "U16"
    case U32 => "U32"
    case U64 => "U64"
    case I8 => "I8"
    case I16 => "I16"
    case I32 => "I32"
    case I64 => "I64"
    case F32 => "F32"
    case F64 => "F64"
    case Utf8 => "Str"
    case Binary => "Bin"
  }

  function Print(s: Shape): string
    decreases s
  {
    match s
    case SPrim(p) => Sig(p)
    case STimestamp => "Tns"
    case SDuration => "Dur"
    case SFixed(w) => "FSB<" + Decimal(w) + ">"
    case SStruct(fs) => "{" + PrintFields(fs) + "}"
    case SList(e) => "[" + Print(e) + "]"
    case SDict(i, v) => "Dic<" + Print(i) + "," + Print(v) + ">"
    case SUnion(sparse, fs) => (if sparse then "SU{" else "DU{") + PrintFields(fs) + "}"
    case SMap(k, v) => "Map<" + Print(k) + "," + Print(v) + ">"
    case SUnsupported => ""
  }

  function PrintFields(fs: seq<SField>): string
    decreases fs
  {
    if fs == [] then ""
    else
      var f := fs[0];
      assert f.shape < f;
      f.name + ":" + Print(f.shape) + (if |fs| == 1 then "" else "," + PrintFields(fs[1..]))
  }

  /** The text of each simple type. */
  lemma PrintedSimpleTypes()
    ensures Print(SPrim(Primitive.Bool)) == "Bol" && Print(SPrim(Utf8)) == "Str" && Print(SPrim(Binary)) == "Bin"
    ensures Print(SPrim(U8)) == "U8" && Print(SPrim(U16)) == "U16" && Print(SPrim(U32)) == "U32"
    ensures Print(SPrim(I8)) == "I8" && Print(SPrim(I16)) == "I16" && Print(SPrim(I32)) == "I32"
    ensures Print(SPrim(U64)) == "U64" && Print(SPrim(I64)) == "I64"
    ensures Print(SPrim(F32)) == "F32" && Print(SPrim(F64)) == "F64"
    ensures Print(STimestamp) == "Tns" && Print(SDuration) == "Dur" && Print(SFixed(16)) == "FSB<16>"
  {
    assert Decimal(16) == "16";
  }

  /** The text of each kind of container. */
  lemma PrintedContainers(u8: Shape, str: Shape)
    requires Print(u8) == "U8" && Print(str) == "Str"
    ensures Print(SList(u8)) == "[U8]"
    ensures Print(SDict(u8, str)) == "Dic<U8,Str>" && Print(SMap(str, u8)) == "Map<Str,U8>"
  {
    hide Sig;
  }

  lemma PrintedFields(u8: Shape, str: Shape, fs: seq<SField>)
    requires Print(u8) == "U8" && Print(str) == "Str" && fs == [SField("a", u8), SField("b", str)]
    ensures PrintFields(fs) == "a:U8,b:Str"
  {
    hide Sig;
    assert fs[1..] == [SField("b", str)];
    assert PrintFields(fs[1..]) == "b:Str";
  }

  lemma PrintedStructs(fs: seq<SField>)
    requires PrintFields(fs) == "a:U8,b:Str"
    ensures Print(SStruct(fs)) == "{a:U8,b:Str}"
    ensures Print(SUnion(true, fs)) == "SU{a:U8,b:Str}" && Print(SUnion(false, fs)) == "DU{a:U8,b:Str}"
  {
    hide PrintFields;
  }

  function IdOf(schema: seq<Field>): string {
    PrintFields(SortBy(ShapesOf(schema), ByName))
  }

  // ---------------------------------------------------------------- Sorting by name

  ghost predicate Increasing(s: seq<SField>) {
    forall i, j :: 0 <= i < j < |s| ==> CompareStrings(s[i].name, s[j].name) < 0
  }

  ghost predicate Distinct(s: seq<SField>) {
    forall i, j :: 0 <= i < j < |s| ==> s[i].name != s[j].name
  }

  lemma ByNameIsWeakOrder(s: seq<SField>)
    ensures WeakOrderOn(s, ByName)
  {
    forall a, b, c | a in s && b in s && c in s
      ensures ByName(a, b) ==> !ByName(b, a)
      ensures ByName(a, c) ==> ByName(a, b) || ByName(b, c)
    {
      StringLess(a.name, b.name, c.name);
    }
  }

  /** An increasing sequence is determined by its members. */
  lemma {:induction false} IncreasingUnique(s: seq<SField>, t: seq<SField>)
    requires Increasing(s) && Increasing(t) && forall x :: x in s <==> x in t
    ensures s == t
  {
    if t != [] {
      var first := t[0];
      assert first in t;
    }
    if s != [] {
      assert s[0] in t;
      var j :| 0 <= j < |t| && t[j] == s[0];
      assert t[0] in s;
      var i :| 0 <= i < |s| && s[i] == t[0];
      StringOrder(s[0].name, t[0].name, s[0].name);
      assert s[0] == t[0];
      forall x ensures x in s[1..] <==> x in t[1..] {
        IncreasingTail(s, x);
        IncreasingTail(t, x);
      }
      IncreasingUnique(s[1..], t[1..]);
    }
  }

  lemma IncreasingTail(s: seq<SField>, x: SField)
    requires s != [] && Increasing(s)
    ensures x in s[1..] <==> x in s && x != s[0]
  {
    if x in s[1..] {
      var i :| 0 <= i < |s[1..]| && s[1..][i] == x;
      StringOrder(s[0].name, s[0].name, s[0].name);
      assert s[i + 1] == x;
    }
  }

  lemma SortedIsIncreasing(s: seq<SField>)
    requires Distinct(s)
    ensures Increasing(SortBy(s, ByName)) && forall x :: x in SortBy(s, ByName) <==> x in s
  {
    ByNameIsWeakOrder(s);
    SortByOutcome(s, ByName);
    OutcomeIsIncreasing(s, SortBy(s, ByName));
  }

  lemma OutcomeIsIncreasing(s: seq<SField>, t: seq<SField>)
    requires Distinct(s) && multiset(s) == multiset(t) && Sorted(t, ByName)
    ensures Increasing(t) && forall x :: x in t <==> x in s
  {
    SameMembers(s, t);
    DistinctPermuted(s, t);
    forall i, j | 0 <= i < j < |t| ensures CompareStrings(t[i].name, t[j].name) < 0 {
      assert !ByName(t[j], t[i]);
      StringOrder(t[i].name, t[j].name, t[i].name);
    }
  }

  lemma DistinctPermuted(s: seq<SField>, t: seq<SField>)
    requires Distinct(s) && multiset(s) == multiset(t)
    ensures Distinct(t)
  {
    SameMembers(s, t);
    forall i, j | 0 <= i < j < |t| ensures t[i].name != t[j].name {
      assert t[i] in s && t[j] in s;
      NoRepeats(s, t, i, j);
    }
  }

  // ---------------------------------------------------------------- Unique decodability

  /** A name that a reader can find the end of: no colon, and no closing brace in front. */
  predicate NameOk(n: string) {
    (forall i :: 0 <= i < |n| ==> n[i] != ':') && (n != [] ==> n[0] != '}')
  }

  predicate NamesOk(s: Shape)
    decreases s
  {
    match s
    case SStruct(fs) => FieldNamesOk(fs)
    case SList(e) => NamesOk(e)
    case SDict(i, v) => NamesOk(i) && NamesOk(v)
    case SUnion(_, fs) => FieldNamesOk(fs)
    case SMap(k, v) => NamesOk(k) && NamesOk(v)
    case SUnsupported => false
    case _ => true
  }

  predicate FieldNamesOk(fs: seq<SField>)
    decreases fs
  {
    forall i :: 0 <= i < |fs| ==> NameOk(fs[i].name) && NamesOk(fs[i].shape)
  }

  lemma SeparatorInside(c: char, m: string, x: string, n: string, y: string)
    requires m + [c] + x == n + [c] + y && |m| < |n|
    ensures c in n
  {
    assert (m + [c] + x)[|m|] == c;
    assert n[|m|] == c;
  }

  /** A separator that neither prefix contains splits a text in one way only. */
  lemma SplitAt(c: char, m: string, x: string, n: string, y: string)
    requires c !in m && c !in n && m + [c] + x == n + [c] + y
    ensures m == n && x == y
  {
    if |m| < |n| {
      SeparatorInside(c, m, x, n, y);
    } else if |n| < |m| {
      SeparatorInside(c, n, y, m, x);
    } else {
      var t := m + [c] + x;
      assert m == t[..|m|] && n == t[..|n|];
      assert x == t[|m| + 1..] && y == t[|n| + 1..];
    }
  }

  /** The first two characters of a printed type say which kind of type it is. */
  function Tag(s: Shape): int {
    match s
    case SPrim(p) =>
      (match p case Bool => 0 case U8 => 1 case U16 => 2 case U32 => 3 case U64 => 4 case I8 => 5 case I16 => 6
               case I32 => 7 case I64 => 8 case F32 => 9 case F64 => 10 case Utf8 => 11 case Binary => 12)
    case STimestamp => 13
    case SDuration => 14
    case SFixed(_) => 15
    case SStruct(_) => 16
    case SList(_) => 17
    case SDict(_, _) => 18
    case SUnion(sparse, _) => if sparse then 19 else 20
    case SMap(_, _) => 21
    case SUnsupported => 22
  }

  function TagRead(a: char, b: char): int {
    if a == '{' then 16
    else if a == '[' then 17
    else if a == 'T' then 13
    else if a == 'M' then 21
    else if a == 'B' then (if b == 'o' then 0 else 12)
    else if a == 'U' then (if b == '8' then 1 else if b == '1' then 2 else if b == '3' then 3 else 4)
    else if a == 'I' then (if b == '8' then 5 else if b == '1' then 6 else if b == '3' then 7 else 8)
    else if a == 'F' then (if b == '3' then 9 else if b == '6' then 10 else 15)
    else if a == 'S' then (if b == 't' then 11 else 19)
    else if b == 'u' then 14 else if b == 'i' then 18 else 20
  }

  lemma TagIsRead(s: Shape)
    requires NamesOk(s)
    ensures |Print(s)| >= 2 && Tag(s) == TagRead(Print(s)[0], Print(s)[1])
  {
    hide Decimal, PrintFields;
  }

  lemma SameTag(s: Shape, r: string, s': Shape, r': string)
    requires NamesOk(s) && NamesOk(s') && Print(s) + r == Print(s') + r'
    ensures Tag(s) == Tag(s')
  {
    TagIsRead(s);
    TagIsRead(s');
    hide Print, Tag, TagRead;
    assert (Print(s) + r)[0] == Print(s)[0] && (Print(s) + r)[1] == Print(s)[1];
    assert (Print(s') + r')[0] == Print(s')[0] && (Print(s') + r')[1] == Print(s')[1];
  }

  lemma {:induction false} DigitsEnd(w: nat)
    ensures '>' !in Decimal(w)
  {
    DecimalIsDigits(w);
  }

  lemma Regroup3(a: string, b: string, c: string, r: string)
    ensures a + b + c + r == a + (b + (c + r))
  {
  }

  lemma Regroup5(a: string, b: string, c: string, d: string, e: string, r: string)
    ensures a + b + c + d + e + r == a + (b + (c + (d + (e + r))))
  {
  }

  /** No printed type is a proper start of another, so a type can be read off the front of a text. */
  lemma {:induction false} PrintDecodes(s: Shape, r: string, s': Shape, r': string)
    requires NamesOk(s) && NamesOk(s') && Print(s) + r == Print(s') + r'
    ensures s == s' && r == r'
    decreases s
  {
    SameTag(s, r, s', r');
    hide Decimal, TagRead;
    match s
    case SFixed(w) => FixedDecodes(w, r, s'.width, r');
    case SStruct(fs) => BracedDecodes("{", fs, r, s'.fields, r');
    case SUnion(sparse, fs) => BracedDecodes(if sparse then "SU{" else "DU{", fs, r, s'.fields, r');
    case SList(e) =>
      Regroup3("[", Print(e), "]", r);
      Regroup3("[", Print(s'.elem), "]", r');
      SameHead("[", Print(e) + ("]" + r), Print(s'.elem) + ("]" + r'));
      PrintDecodes(e, "]" + r, s'.elem, "]" + r');
      SameHead("]", r, r');
    case SDict(i, v) => PairDecodes(s, "Dic<", i, v, r, s'.index, s'.value, r');
    case SMap(k, v) => PairDecodes(s, "Map<", k, v, r, s'.key, s'.item, r');
    case _ => SameHead(Print(s), r, r');
  }

  lemma {:induction false} PairDecodes(s: Shape, h: string, a: Shape, b: Shape, r: string, a': Shape, b': Shape,
      r': string)
    requires a < s && b < s && NamesOk(a) && NamesOk(b) && NamesOk(a') && NamesOk(b')
    requires h + Print(a) + "," + Print(b) + ">" + r == h + Print(a') + "," + Print(b') + ">" + r'
    ensures a == a' && b == b' && r == r'
    decreases s, 0
  {
    hide Print, NamesOk;
    Regroup5(h, Print(a), ",", Print(b), ">", r);
    Regroup5(h, Print(a'), ",", Print(b'), ">", r');
    SameHead(h, Print(a) + ("," + (Print(b) + (">" + r))), Print(a') + ("," + (Print(b') + (">" + r'))));
    PrintDecodes(a, "," + (Print(b) + (">" + r)), a', "," + (Print(b') + (">" + r')));
    SameHead(",", Print(b) + (">" + r), Print(b') + (">" + r'));
    PrintDecodes(b, ">" + r, b', ">" + r');
    SameHead(">", r, r');
  }

  lemma {:induction false} BracedDecodes(h: string, fs: seq<SField>, r: string, fs': seq<SField>, r': string)
    requires FieldNamesOk(fs) && FieldNamesOk(fs')
    requires h + PrintFields(fs) + "}" + r == h + PrintFields(fs') + "}" + r'
    ensures fs == fs' && r == r'
    decreases fs
  {
    hide PrintFields, FieldNamesOk;
    Regroup3(h, PrintFields(fs), "}", r);
    Regroup3(h, PrintFields(fs'), "}", r');
    SameHead(h, PrintFields(fs) + ("}" + r), PrintFields(fs') + ("}" + r'));
    FieldsDecode(fs, r, fs', r');
  }

  lemma SameHead(h: string, r: string, r': string)
    requires h + r == h + r'
    ensures r == r'
  {
    assert r == (h + r)[|h|..] && r' == (h + r')[|h|..];
  }

  lemma FixedDecodes(w: nat, r: string, w': nat, r': string)
    requires Print(SFixed(w)) + r == Print(SFixed(w')) + r'
    ensures w == w' && r == r'
  {
    DigitsEnd(w);
    DigitsEnd(w');
    hide Decimal;
    Regroup3("FSB<", Decimal(w), ">", r);
    Regroup3("FSB<", Decimal(w'), ">", r');
    assert Decimal(w) + (['>'] + r) == Decimal(w) + ['>'] + r && Decimal(w') + (['>'] + r') == Decimal(w') + ['>'] + r';
    SameHead("FSB<", Decimal(w) + ['>'] + r, Decimal(w') + ['>'] + r');
    SplitAt('>', Decimal(w), r, Decimal(w'), r');
    DecimalInjective(w, w');
  }

  function AfterField(fs: seq<SField>): string
    requires fs != []
  {
    if |fs| == 1 then "" else "," + PrintFields(fs[1..])
  }

  lemma FirstField(fs: seq<SField>, r: string)
    requires fs != []
    ensures PrintFields(fs) + r == fs[0].name + [':'] + (Print(fs[0].shape) + (AfterField(fs) + r))
  {
    PrintFirst(fs);
    hide Print, PrintFields, AfterField;
    Regroup4(fs[0].name, [':'], Print(fs[0].shape), AfterField(fs), r);
  }

  lemma PrintFirst(fs: seq<SField>)
    requires fs != []
    ensures PrintFields(fs) == fs[0].name + [':'] + Print(fs[0].shape) + AfterField(fs)
  {
    hide Print;
    assert ":" == [':'];
  }

  lemma Regroup4(a: string, b: string, c: string, d: string, r: string)
    ensures a + b + c + d + r == a + b + (c + (d + r))
  {
  }

  /** The first names end at the first colon, and what follows the two texts agrees. */
  lemma FirstNameDecodes(fs: seq<SField>, z: string, fs': seq<SField>, z': string)
    requires fs != [] && fs' != [] && NameOk(fs[0].name) && NameOk(fs'[0].name)
    requires PrintFields(fs) + z == PrintFields(fs') + z'
    ensures fs[0].name == fs'[0].name
    ensures Print(fs[0].shape) + (AfterField(fs) + z) == Print(fs'[0].shape) + (AfterField(fs') + z')
  {
    FirstField(fs, z);
    FirstField(fs', z');
    hide Print, PrintFields, AfterField;
    var n, n' := fs[0].name, fs'[0].name;
    assert ':' !in n && ':' !in n';
    hide NameOk;
    SplitAt(':', n, Print(fs[0].shape) + (AfterField(fs) + z), n', Print(fs'[0].shape) + (AfterField(fs') + z'));
  }

  /** A comma or a brace tells whether a field list goes on. */
  lemma RestDecodes(fs: seq<SField>, z: string, fs': seq<SField>, z': string)
    requires fs != [] && fs' != [] && z != [] && z' != [] && z[0] == '}' && z'[0] == '}'
    requires AfterField(fs) + z == AfterField(fs') + z'
    ensures PrintFields(fs[1..]) + z == PrintFields(fs'[1..]) + z'
    ensures |fs| == 1 <==> |fs'| == 1
  {
    AfterFieldStart(fs, z);
    AfterFieldStart(fs', z');
    hide AfterField, PrintFields;
    if |fs| > 1 && |fs'| > 1 {
      SameHead([','], PrintFields(fs[1..]) + z, PrintFields(fs'[1..]) + z');
    }
  }

  lemma AfterFieldStart(fs: seq<SField>, z: string)
    requires fs != [] && z != []
    ensures AfterField(fs) + z != []
    ensures |fs| == 1 ==> AfterField(fs) + z == z == PrintFields(fs[1..]) + z
    ensures |fs| > 1 ==> AfterField(fs) + z == [','] + (PrintFields(fs[1..]) + z)
  {
    if |fs| == 1 {
      assert AfterField(fs) == [] && PrintFields(fs[1..]) == [];
    } else {
      var p := PrintFields(fs[1..]);
      assert AfterField(fs) == [','] + p;
      hide AfterField, PrintFields;
      assert [','] + p + z == [','] + (p + z);
    }
  }

  /** A brace-terminated field list can be read off the front of a text, field by field. */
  lemma {:induction false} FieldsDecode(fs: seq<SField>, r: string, fs': seq<SField>, r': string)
    requires FieldNamesOk(fs) && FieldNamesOk(fs')
    requires PrintFields(fs) + ("}" + r) == PrintFields(fs') + ("}" + r')
    ensures fs == fs' && r == r'
    decreases fs, 0
  {
    if fs == [] || fs' == [] {
      EmptyFieldsDecode(fs, r, fs', r');
      assert PrintFields(fs) + ("}" + r) == "}" + r && PrintFields(fs') + ("}" + r') == "}" + r';
      SameHead("}", r, r');
    } else {
      var f, f' := fs[0], fs'[0];
      assert f.shape < f;
      assert NameOk(f.name) && NameOk(f'.name) && NamesOk(f.shape) && NamesOk(f'.shape);
      assert FieldNamesOk(fs[1..]) && FieldNamesOk(fs'[1..]);
      hide Print, PrintFields, NamesOk, FieldNamesOk, NameOk, AfterField;
      FirstNameDecodes(fs, "}" + r, fs', "}" + r');
      PrintDecodes(f.shape, AfterField(fs) + ("}" + r), f'.shape, AfterField(fs') + ("}" + r'));
      RestDecodes(fs, "}" + r, fs', "}" + r');
      FieldsDecode(fs[1..], r, fs'[1..], r');
      assert fs == [f] + fs[1..] && fs' == [f'] + fs'[1..];
    }
  }

  lemma EmptyFieldsDecode(fs: seq<SField>, r: string, fs': seq<SField>, r': string)
    requires FieldNamesOk(fs) && FieldNamesOk(fs') && (fs == [] || fs' == [])
    requires PrintFields(fs) + ("}" + r) == PrintFields(fs') + ("}" + r')
    ensures fs == [] && fs' == []
  {
    hide Print;
    if fs != [] {
      FirstIsNotBrace(fs, "}" + r);
    }
    if fs' != [] {
      FirstIsNotBrace(fs', "}" + r');
    }
  }

  lemma FirstIsNotBrace(fs: seq<SField>, rest: string)
    requires fs != [] && FieldNamesOk(fs)
    ensures PrintFields(fs) + rest != [] && (PrintFields(fs) + rest)[0] != '}'
  {
    hide Print;
    assert NameOk(fs[0].name);
    assert PrintFields(fs)[0] == (if fs[0].name == [] then ':' else fs[0].name[0]);
  }

  // ---------------------------------------------------------------- Same up to order

  predicate DistinctNames(fs: seq<Field>) {
    forall i, j :: 0 <= i < j < |fs| ==> fs[i].name != fs[j].name
  }

  /** Supported types whose field names differ from each other at every level. */
  predicate SeparateType(t: DataType)
    decreases t
  {
    match t
    case Struct(fs) => SeparateFields(fs)
    case List(e) => SeparateType(e.typ)
    case Dictionary(i, v) => SeparateType(i) && SeparateType(v)
    case Union(_, fs, _) => SeparateFields(fs)
    case MapType(k, v) => SeparateType(k.typ) && SeparateType(v.typ)
    case Unsupported(_) => false
    case _ => true
  }

  predicate SeparateFields(fs: seq<Field>)
    decreases fs
  {
    DistinctNames(fs) && forall i :: 0 <= i < |fs| ==> SeparateType(fs[i].typ)
  }

  /** Types with readable field names at every level. */
  predicate ReadableType(t: DataType)
    decreases t
  {
    match t
    case Struct(fs) => ReadableFields(fs)
    case List(e) => ReadableType(e.typ)
    case Dictionary(i, v) => ReadableType(i) && ReadableType(v)
    case Union(_, fs, _) => ReadableFields(fs)
    case MapType(k, v) => ReadableType(k.typ) && ReadableType(v.typ)
    case _ => true
  }

  predicate ReadableFields(fs: seq<Field>)
    decreases fs
  {
    forall i :: 0 <= i < |fs| ==> NameOk(fs[i].name) && ReadableType(fs[i].typ)
  }

  /** One type tree, up to the order of fields at each level and to what the id leaves out. */
  ghost predicate SameType(t: DataType, u: DataType)
    decreases t
  {
    match t
    case Prim(p) => u.Prim? && p == u.p
    case Timestamp(_) => u.Timestamp?
    case Duration(_) => u.Duration?
    case FixedSizeBinary(w) => u.FixedSizeBinary? && w == u.width
    case Struct(fs) => u.Struct? && SameFields(fs, u.fields)
    case List(e) => u.List? && SameType(e.typ, u.elem.typ)
    case Dictionary(i, v) => u.Dictionary? && SameType(i, u.index) && SameType(v, u.value)
    case Union(s, fs, _) => u.Union? && s == u.sparse && SameFields(fs, u.fields)
    case MapType(k, v) => u.MapType? && SameType(k.typ, u.key.typ) && SameType(v.typ, u.item.typ)
    case Unsupported(_) => u.Unsupported?
  }

  ghost predicate SameFields(fs: seq<Field>, gs: seq<Field>)
    decreases fs
  {
    && (forall i :: 0 <= i < |fs| ==> HasSame(fs[i], gs))
    && (forall j :: 0 <= j < |gs| ==> HasName(fs, gs[j].name))
  }

  /** Some field of gs has the name of f and, up to order, its type. */
  ghost predicate HasSame(f: Field, gs: seq<Field>)
    decreases f
  {
    exists j :: 0 <= j < |gs| && gs[j].name == f.name && SameType(f.typ, gs[j].typ)
  }

  predicate HasName(fs: seq<Field>, n: string) {
    exists i :: 0 <= i < |fs| && fs[i].name == n
  }

  function FieldShape(f: Field): SField {
    SField(f.name, ShapeOf(f.typ))
  }

  lemma {:induction false} ShapesOfIndex(fs: seq<Field>)
    ensures forall i :: 0 <= i < |fs| ==> ShapesOf(fs)[i] == FieldShape(fs[i])
  {
    if fs != [] {
      ShapesOfIndex(fs[1..]);
    }
  }

  lemma SortedShapes(fs: seq<Field>)
    requires DistinctNames(fs)
    ensures var s := SortBy(ShapesOf(fs), ByName);
            && Increasing(s)
            && ShapesAre(fs, s)
  {
    ShapesOfIndex(fs);
    SortedIsIncreasing(ShapesOf(fs));
    hide FieldShape, SortBy, ByName, ShapesOf, Increasing, CompareStrings;
    forall i | 0 <= i < |fs| ensures FieldShape(fs[i]) in ShapesOf(fs) {
      assert ShapesOf(fs)[i] in ShapesOf(fs);
    }
    forall x | x in ShapesOf(fs) ensures IsShapeOfOne(fs, x) {
      var i :| 0 <= i < |ShapesOf(fs)| && ShapesOf(fs)[i] == x;
    }
  }

  /** s holds the shapes of these fields and no others. */
  ghost predicate ShapesAre(fs: seq<Field>, s: seq<SField>) {
    && (forall i :: 0 <= i < |fs| ==> FieldShape(fs[i]) in s)
    && (forall x :: x in s ==> IsShapeOfOne(fs, x))
  }

  ghost predicate IsShapeOfOne(fs: seq<Field>, x: SField) {
    exists i :: 0 <= i < |fs| && x == FieldShape(fs[i])
  }

  /** Shapes are equal exactly when the types are the same up to order. */
  lemma {:induction false} SameShapeIff(t: DataType, u: DataType)
    requires SeparateType(t) && SeparateType(u)
    ensures SameType(t, u) <==> ShapeOf(t) == ShapeOf(u)
    decreases t
  {
    match t
    case Struct(fs) =>
      if u.Struct? {
        SameShapesIff(fs, u.fields);
      }
    case Union(s, fs, _) =>
      if u.Union? {
        SameShapesIff(fs, u.fields);
      }
    case List(e) =>
      if u.List? {
        SameShapeIff(e.typ, u.elem.typ);
      }
    case Dictionary(i, v) =>
      if u.Dictionary? {
        SameShapeIff(i, u.index);
        SameShapeIff(v, u.value);
      }
    case MapType(k, v) =>
      if u.MapType? {
        SameShapeIff(k.typ, u.key.typ);
        SameShapeIff(v.typ, u.item.typ);
      }
    case _ =>
  }

  lemma {:induction false} SameShapesIff(fs: seq<Field>, gs: seq<Field>)
    requires SeparateFields(fs) && SeparateFields(gs)
    ensures SameFields(fs, gs) <==> SortBy(ShapesOf(fs), ByName) == SortBy(ShapesOf(gs), ByName)
    decreases fs
  {
    forall i, j | 0 <= i < |fs| && 0 <= j < |gs|
      ensures Matches(fs[i], gs[j]) <==> FieldShape(fs[i]) == FieldShape(gs[j])
    {
      var f := fs[i];
      assert f.typ < f;
      SameShapeIff(f.typ, gs[j].typ);
    }
    SortedShapes(fs);
    SortedShapes(gs);
    assert Agree(fs, gs);
    hide ShapeOf, SameType, SortBy, ByName, SeparateType, FieldShape, SameFields, ShapesAre, Agree, Increasing;
    SameMembersIff(fs, gs, SortBy(ShapesOf(fs), ByName), SortBy(ShapesOf(gs), ByName));
  }

  ghost predicate Matches(f: Field, g: Field) {
    f.name == g.name && SameType(f.typ, g.typ)
  }

  /** Matching fields and equal shapes go together. */
  ghost predicate Agree(fs: seq<Field>, gs: seq<Field>) {
    forall i, j :: 0 <= i < |fs| && 0 <= j < |gs| ==>
        (Matches(fs[i], gs[j]) <==> FieldShape(fs[i]) == FieldShape(gs[j]))
  }

  lemma SameMembersIff(fs: seq<Field>, gs: seq<Field>, s: seq<SField>, t: seq<SField>)
    requires Agree(fs, gs) && DistinctNames(gs) && Increasing(s) && Increasing(t)
    requires ShapesAre(fs, s) && ShapesAre(gs, t)
    ensures SameFields(fs, gs) <==> s == t
  {
    hide Agree, DistinctNames, Increasing, ShapesAre;
    if SameFields(fs, gs) {
      hide SameFields;
      forall x ensures x in s <==> x in t {
        SameFieldsMember(fs, gs, s, t, x);
      }
      IncreasingUnique(s, t);
    } else if s == t {
      hide HasSame, HasName;
      forall i | 0 <= i < |fs| ensures HasSame(fs[i], gs) {
        ShapeFound(fs, gs, s, i);
      }
      forall j | 0 <= j < |gs| ensures HasName(fs, gs[j].name) {
        NameFound(fs, gs, s, j);
      }
    }
  }

  lemma ShapeFound(fs: seq<Field>, gs: seq<Field>, s: seq<SField>, i: nat)
    requires Agree(fs, gs) && ShapesAre(fs, s) && ShapesAre(gs, s) && i < |fs|
    ensures HasSame(fs[i], gs)
  {
    hide SameType, ShapeOf;
    assert IsShapeOfOne(gs, FieldShape(fs[i]));
    var j :| 0 <= j < |gs| && FieldShape(fs[i]) == FieldShape(gs[j]);
    assert Matches(fs[i], gs[j]);
  }

  lemma NameFound(fs: seq<Field>, gs: seq<Field>, s: seq<SField>, j: nat)
    requires Agree(fs, gs) && ShapesAre(fs, s) && ShapesAre(gs, s) && j < |gs|
    ensures HasName(fs, gs[j].name)
  {
    hide SameType, ShapeOf;
    assert IsShapeOfOne(fs, FieldShape(gs[j]));
    var i :| 0 <= i < |fs| && FieldShape(gs[j]) == FieldShape(fs[i]);
    assert Matches(fs[i], gs[j]);
  }

  lemma SameFieldsMember(fs: seq<Field>, gs: seq<Field>, s: seq<SField>, t: seq<SField>, x: SField)
    requires Agree(fs, gs) && DistinctNames(gs) && ShapesAre(fs, s) && ShapesAre(gs, t) && SameFields(fs, gs)
    ensures x in s <==> x in t
  {
    hide SameType, ShapeOf, HasSame, HasName, IsShapeOfOne;
    if x in s {
      var i := ShapeIndex(fs, x);
      var j := SameIndex(fs[i], gs);
    }
    if x in t {
      var j := ShapeIndex(gs, x);
      var i := NameIndex(fs, gs[j].name);
      var k := SameIndex(fs[i], gs);
    }
  }

  lemma ShapeIndex(fs: seq<Field>, x: SField) returns (i: nat)
    requires IsShapeOfOne(fs, x)
    ensures i < |fs| && x == FieldShape(fs[i])
  {
    i :| 0 <= i < |fs| && x == FieldShape(fs[i]);
  }

  lemma SameIndex(f: Field, gs: seq<Field>) returns (j: nat)
    requires HasSame(f, gs)
    ensures j < |gs| && Matches(f, gs[j])
  {
    j :| 0 <= j < |gs| && gs[j].name == f.name && SameType(f.typ, gs[j].typ);
  }

  lemma NameIndex(fs: seq<Field>, n: string) returns (i: nat)
    requires HasName(fs, n)
    ensures i < |fs| && fs[i].name == n
  {
    i :| 0 <= i < |fs| && fs[i].name == n;
  }

  lemma {:induction false} ReadableNamesOk(t: DataType)
    requires SeparateType(t) && ReadableType(t)
    ensures NamesOk(ShapeOf(t))
    decreases t
  {
    match t
    case Struct(fs) => ReadableFieldsNamesOk(fs);
    case List(e) => ReadableNamesOk(e.typ);
    case Dictionary(i, v) =>
      ReadableNamesOk(i);
      ReadableNamesOk(v);
    case Union(_, fs, _) => ReadableFieldsNamesOk(fs);
    case MapType(k, v) =>
      ReadableNamesOk(k.typ);
      ReadableNamesOk(v.typ);
    case _ =>
  }

  lemma {:induction false} ReadableFieldsNamesOk(fs: seq<Field>)
    requires SeparateFields(fs) && ReadableFields(fs)
    ensures FieldNamesOk(SortBy(ShapesOf(fs), ByName))
    decreases fs
  {
    forall i | 0 <= i < |fs| ensures NamesOk(ShapeOf(fs[i].typ)) {
      var f := fs[i];
      assert f.typ < f;
      ReadableNamesOk(f.typ);
    }
    SortedShapes(fs);
    hide ShapeOf, NamesOk, NameOk;
    var s := SortBy(ShapesOf(fs), ByName);
    forall i | 0 <= i < |s| ensures NameOk(s[i].name) && NamesOk(s[i].shape) {
      assert s[i] in s;
    }
  }

  /** Permuting fields at any level, or changing what the printer leaves out, leaves the id alone,
      whatever characters the names hold. */
  lemma SameFieldsSameId(a: seq<Field>, b: seq<Field>)
    requires SeparateFields(a) && SeparateFields(b) && SameFields(a, b)
    ensures IdOf(a) == IdOf(b)
  {
    SameShapesIff(a, b);
  }

  /** The schema id identifies a schema: two schemas have one id exactly when they are the same type
      tree up to the order of fields at every level and to what the printer leaves out. */
  lemma IdsEqualIff(a: seq<Field>, b: seq<Field>)
    requires SeparateFields(a) && SeparateFields(b) && ReadableFields(a) && ReadableFields(b)
    ensures IdOf(a) == IdOf(b) <==> SameFields(a, b)
  {
    SameShapesIff(a, b);
    var s, t := SortBy(ShapesOf(a), ByName), SortBy(ShapesOf(b), ByName);
    if IdOf(a) == IdOf(b) {
      ReadableFieldsNamesOk(a);
      ReadableFieldsNamesOk(b);
      FieldsDecode(s, "", t, "");
    }
  }

  lemma InOrder(ss: seq<SField>)
    requires Increasing(ss)
    ensures SortBy(ss, ByName) == ss
  {
    forall i, j | 0 <= i < j < |ss| ensures ss[i].name != ss[j].name {
      StringOrder(ss[i].name, ss[j].name, ss[i].name);
    }
    SortedIsIncreasing(ss);
    IncreasingUnique(SortBy(ss, ByName), ss);
  }

  function Nested(name: string, fs: seq<Field>): Field {
    Field(name, Struct(fs), false, map[])
  }

  function Byte(name: string): Field {
    Field(name, Prim(U8), false, map[])
  }

  lemma OneField(f: Field)
    ensures SortBy(ShapesOf([f]), ByName) == [FieldShape(f)]
    ensures PrintFields([FieldShape(f)]) == f.name + ":" + Print(ShapeOf(f.typ))
  {
    ShapesOfIndex([f]);
    hide ShapeOf, Print;
    var s := [FieldShape(f)];
    assert ShapesOf([f]) == s;
    InOrder(s);
    assert PrintFields(s) == f.name + ":" + Print(ShapeOf(f.typ)) + "";
  }

  lemma TwoFields(f: Field, g: Field)
    requires CompareStrings(f.name, g.name) < 0
    ensures SortBy(ShapesOf([f, g]), ByName) == [FieldShape(f), FieldShape(g)]
    ensures PrintFields([FieldShape(f), FieldShape(g)])
        == f.name + ":" + Print(ShapeOf(f.typ)) + ("," + (g.name + ":" + Print(ShapeOf(g.typ))))
  {
    ShapesOfIndex([f, g]);
    OneField(g);
    hide ShapeOf, Print, CompareStrings;
    var s := [FieldShape(f), FieldShape(g)];
    assert ShapesOf([f, g]) == s && s[1..] == [FieldShape(g)];
    InOrder(s);
  }

  lemma ThreeFields(f: Field, g: Field, h: Field)
    requires CompareStrings(f.name, g.name) < 0 && CompareStrings(g.name, h.name) < 0
    requires CompareStrings(f.name, h.name) < 0
    ensures SortBy(ShapesOf([f, g, h]), ByName) == [FieldShape(f), FieldShape(g), FieldShape(h)]
    ensures PrintFields([FieldShape(f), FieldShape(g), FieldShape(h)])
        == f.name + ":" + Print(ShapeOf(f.typ))
           + ("," + (g.name + ":" + Print(ShapeOf(g.typ)) + ("," + (h.name + ":" + Print(ShapeOf(h.typ))))))
  {
    ShapesOfIndex([f, g, h]);
    TwoFields(g, h);
    hide ShapeOf, Print, CompareStrings;
    var s := [FieldShape(f), FieldShape(g), FieldShape(h)];
    assert ShapesOf([f, g, h]) == s && s[1..] == [FieldShape(g), FieldShape(h)];
    InOrder(s);
  }

  lemma PrintNested(name: string, fs: seq<Field>, text: string)
    requires PrintFields(SortBy(ShapesOf(fs), ByName)) == text
    ensures Print(ShapeOf(Nested(name, fs).typ)) == "{" + text + "}"
  {
    hide PrintFields, ShapesOf, SortBy, ByName;
  }

  lemma NoFields(name: string)
    ensures Print(ShapeOf(Nested(name, []).typ)) == "{}"
  {
    assert SortBy(ShapesOf([]), ByName) == [] && PrintFields([]) == "";
    PrintNested(name, [], "");
  }

  /** With a colon in a name two different schemas share an id. */
  lemma ColonsMakeIdsAmbiguous(a: seq<Field>, b: seq<Field>)
    requires a == [Byte("a"), Byte("b")] && b == [Byte("a:U8,b")]
    ensures IdOf(a) == IdOf(b) == "a:U8,b:U8" && !SameFields(a, b)
  {
    assert CompareStrings("a", "b") == -1;
    hide ShapeOf, ShapesOf, SortBy, ByName, PrintFields, Print, CompareStrings;
    PrintsByte("a");
    PrintsByte("b");
    PrintsByte("a:U8,b");
    TwoFields(a[0], a[1]);
    OneField(b[0]);
    assert |b[0].name| != |a[0].name|;
    assert !HasSame(a[0], b);
  }

  /** Nor does a brace in front of a name leave ids unique, although no name holds a colon. */
  lemma BracesMakeIdsAmbiguous(a: seq<Field>, b: seq<Field>)
    requires a == [Nested("a", [Nested("a", []), Byte("b")]), Nested("c", [Byte("},d")])]
    requires b == [Nested("a", [Nested("a", [Byte("},b")]), Nested("c", []), Byte("d")])]
    ensures IdOf(a) == IdOf(b) == "a:{a:{},b:U8},c:{},d:U8}" && !SameFields(a, b)
  {
    assert CompareStrings("a", "b") == -1 && CompareStrings("a", "c") == -1;
    assert CompareStrings("a", "d") == -1 && CompareStrings("c", "d") == -1;
    BracesOnTheRight(a);
    BracesOnTheLeft(b);
    assert !HasSame(a[1], b) by {
      assert a[1].name[0] == 'c' && b[0].name[0] == 'a';
    }
  }

  lemma BracesOnTheRight(a: seq<Field>)
    requires a == [Nested("a", [Nested("a", []), Byte("b")]), Nested("c", [Byte("},d")])]
    requires CompareStrings("a", "b") == -1 && CompareStrings("a", "c") == -1
    ensures IdOf(a) == "a:{a:{},b:U8},c:{},d:U8}"
  {
    hide ShapeOf, ShapesOf, SortBy, ByName, CompareStrings, PrintFields, Print;
    NothingInside();
    BraceInside();
    TwoFields(a[0], a[1]);
    assert a == [a[0], a[1]];
    assert "a" + ":" + "{a:{},b:U8}" + ("," + ("c" + ":" + "{},d:U8}")) == "a:{a:{},b:U8},c:{},d:U8}";
  }

  lemma NothingInside()
    requires CompareStrings("a", "b") == -1
    ensures Print(ShapeOf(Nested("a", [Nested("a", []), Byte("b")]).typ)) == "{a:{},b:U8}"
  {
    hide ShapeOf, ShapesOf, SortBy, ByName, CompareStrings, PrintFields, Print;
    NoFields("a");
    PrintsByte("b");
    TwoFields(Nested("a", []), Byte("b"));
    PrintNested("a", [Nested("a", []), Byte("b")], "a:{},b:U8");
  }

  lemma BraceInside()
    ensures Print(ShapeOf(Nested("c", [Byte("},d")]).typ)) == "{},d:U8}"
  {
    hide ShapeOf, ShapesOf, SortBy, ByName, PrintFields, Print;
    PrintsByte("},d");
    OneField(Byte("},d"));
    PrintNested("c", [Byte("},d")], "},d:U8");
  }

  lemma BracesOnTheLeft(b: seq<Field>)
    requires b == [Nested("a", [Nested("a", [Byte("},b")]), Nested("c", []), Byte("d")])]
    requires CompareStrings("a", "c") == -1 && CompareStrings("a", "d") == -1 && CompareStrings("c", "d") == -1
    ensures IdOf(b) == "a:{a:{},b:U8},c:{},d:U8}"
  {
    hide ShapeOf, ShapesOf, SortBy, ByName, CompareStrings, PrintFields, Print;
    var inner := [Nested("a", [Byte("},b")]), Nested("c", []), Byte("d")];
    BracesInside(inner);
    PrintNested("a", inner, "a:{},b:U8},c:{},d:U8");
    OneField(b[0]);
  }

  lemma BracesInside(inner: seq<Field>)
    requires inner == [Nested("a", [Byte("},b")]), Nested("c", []), Byte("d")]
    requires CompareStrings("a", "c") == -1 && CompareStrings("a", "d") == -1 && CompareStrings("c", "d") == -1
    ensures PrintFields(SortBy(ShapesOf(inner), ByName)) == "a:{},b:U8},c:{},d:U8"
  {
    hide ShapeOf, ShapesOf, SortBy, ByName, CompareStrings, PrintFields, Print;
    BraceFirst();
    NoFields("c");
    PrintsByte("d");
    ThreeFields(inner[0], inner[1], inner[2]);
    assert inner == [inner[0], inner[1], inner[2]];
    assert "a" + ":" + "{},b:U8}" + ("," + ("c" + ":" + "{}" + ("," + ("d" + ":" + "U8")))) == "a:{},b:U8},c:{},d:U8";
  }

  lemma BraceFirst()
    ensures Print(ShapeOf(Nested("a", [Byte("},b")]).typ)) == "{},b:U8}"
  {
    hide ShapeOf, ShapesOf, SortBy, ByName, PrintFields, Print;
    PrintsByte("},b");
    OneField(Byte("},b"));
    PrintNested("a", [Byte("},b")], "},b:U8");
  }

  lemma PrintsByte(name: string)
    ensures Print(ShapeOf(Byte(name).typ)) == "U8"
  {
  }

  // ---------------------------------------------------------------- The imperative printer

  predicate Supported(t: DataType)
    decreases t
  {
    match t
    case Struct(fs) => SupportedFields(fs)
    case List(e) => Supported(e.typ)
    case Dictionary(i, v) => Supported(i) && Supported(v)
    case Union(_, fs, _) => SupportedFields(fs)
    case MapType(k, v) => Supported(k.typ) && Supported(v.typ)
    case Unsupported(_) => false
    case _ => true
  }

  predicate SupportedFields(fs: seq<Field>)
    decreases fs
  {
    forall i :: 0 <= i < |fs| ==> Supported(fs[i].typ)
  }

  lemma SortedDistinctNames(fs: seq<Field>, t: seq<Field>)
    requires DistinctNames(fs) && multiset(fs) == multiset(t)
    ensures DistinctNames(t)
  {
    SameMembers(fs, t);
    forall i, j | 0 <= i < j < |t| ensures t[i].name != t[j].name {
      assert t[i] in fs && t[j] in fs;
      NoRepeats(fs, t, i, j);
    }
  }

  lemma ByFieldNameIsWeakOrder(s: seq<Field>)
    ensures WeakOrderOn(s, ByFieldName)
  {
    forall a, b, c | a in s && b in s && c in s
      ensures ByFieldName(a, b) ==> !ByFieldName(b, a)
      ensures ByFieldName(a, c) ==> ByFieldName(a, b) || ByFieldName(b, c)
    {
      StringLess(a.name, b.name, c.name);
    }
  }

  /** Sorting fields by name and then forgetting what the id leaves out gives the canonical order. */
  lemma SortThenShape(fs: seq<Field>, t: seq<Field>)
    requires DistinctNames(fs) && SortOutcome(fs, t, ByFieldName)
    ensures ShapesOf(t) == SortBy(ShapesOf(fs), ByName)
  {
    ByFieldNameIsWeakOrder(fs);
    SortedDistinctNames(fs, t);
    ShapesOfIndex(t);
    SortedShapes(fs);
    hide ShapeOf, SortBy, CompareStrings, ByName;
    var s, c := ShapesOf(t), SortBy(ShapesOf(fs), ByName);
    forall i, j | 0 <= i < j < |s| ensures CompareStrings(s[i].name, s[j].name) < 0 {
      assert s[i] == FieldShape(t[i]) && s[j] == FieldShape(t[j]);
      assert !ByFieldName(t[j], t[i]);
      StringOrder(t[i].name, t[j].name, t[i].name);
    }
    forall x ensures x in s <==> x in c {
      SameShapeMembers(fs, t, c, x);
    }
    IncreasingUnique(s, c);
  }

  lemma SameShapeMembers(fs: seq<Field>, t: seq<Field>, c: seq<SField>, x: SField)
    requires multiset(fs) == multiset(t) && ShapesAre(fs, c)
    ensures x in ShapesOf(t) <==> x in c
  {
    SameMembers(fs, t);
    ShapesOfIndex(t);
    hide ShapeOf, ShapesOf;
    if x in ShapesOf(t) {
      var i :| 0 <= i < |ShapesOf(t)| && ShapesOf(t)[i] == x;
      assert t[i] in fs;
    }
    if x in c {
      var i := ShapeIndex(fs, x);
      assert fs[i] in t;
      var k :| 0 <= k < |t| && t[k] == fs[i];
      assert ShapesOf(t)[k] == x;
    }
  }

  // ---------------------------------------------------------------- Any order the sort may leave

  /** A shape the printer may see in this type: equal names leave the sort a choice of orders. */
  ghost predicate MayShape(t: DataType, s: Shape)
    decreases t
  {
    match t
    case Prim(p) => s == SPrim(p)
    case Timestamp(_) => s == STimestamp
    case Duration(_) => s == SDuration
    case FixedSizeBinary(w) => s == SFixed(w)
    case Struct(fs) => s.SStruct? && MayList(fs, s.fields)
    case List(e) => s.SList? && MayShape(e.typ, s.elem)
    case Dictionary(i, v) => s.SDict? && MayShape(i, s.index) && MayShape(v, s.value)
    case Union(sparse, fs, _) => s.SUnion? && s.sparse == sparse && MayList(fs, s.fields)
    case MapType(k, v) => s.SMap? && MayShape(k.typ, s.key) && MayShape(v.typ, s.item)
    case Unsupported(_) => false
  }

  ghost predicate MayList(fs: seq<Field>, ss: seq<SField>)
    decreases fs, 1
  {
    exists t :: SortOutcome(fs, t, ByFieldName) && Listed(fs, t, ss)
  }

  /** Field by field, ss is what the printer may see in t, all of whose fields are among `from`. */
  ghost predicate Listed(from: seq<Field>, t: seq<Field>, ss: seq<SField>)
    decreases from, 0
  {
    |ss| == |t| && forall i :: 0 <= i < |t| ==> t[i] in from && ListedAs(from, t[i], ss[i])
  }

  ghost predicate ListedAs(from: seq<Field>, f: Field, s: SField)
    requires f in from
    decreases f
  {
    s.name == f.name && MayShape(f.typ, s.shape)
  }

  /** A text that this type, or this list of fields, may be given. */
  ghost predicate MayText(t: DataType, x: string) {
    exists s :: MayShape(t, s) && Print(s) == x
  }

  ghost predicate MayId(fs: seq<Field>, x: string) {
    exists ss :: MayList(fs, ss) && PrintFields(ss) == x
  }

  /** The same fields with the same types up to order at every level, names repeated or not. */
  ghost predicate SameTree(a: seq<Field>, b: seq<Field>) {
    exists ss :: MayList(a, ss) && MayList(b, ss)
  }

  lemma {:induction false} ReadableShape(t: DataType, s: Shape)
    requires ReadableType(t) && MayShape(t, s)
    ensures NamesOk(s)
    decreases t
  {
    match t
    case Struct(fs) => ReadableList(fs, s.fields);
    case List(e) => ReadableShape(e.typ, s.elem);
    case Dictionary(i, v) =>
      ReadableShape(i, s.index);
      ReadableShape(v, s.value);
    case Union(_, fs, _) => ReadableList(fs, s.fields);
    case MapType(k, v) =>
      ReadableShape(k.typ, s.key);
      ReadableShape(v.typ, s.item);
    case _ =>
  }

  lemma {:induction false} ReadableList(fs: seq<Field>, ss: seq<SField>)
    requires ReadableFields(fs) && MayList(fs, ss)
    ensures FieldNamesOk(ss)
    decreases fs, 1
  {
    hide SortOutcome, NameOk, NamesOk, MayShape, ReadableType;
    var t :| SortOutcome(fs, t, ByFieldName) && Listed(fs, t, ss);
    forall i | 0 <= i < |ss| ensures NameOk(ss[i].name) && NamesOk(ss[i].shape) {
      var f := t[i];
      assert ListedAs(fs, f, ss[i]) && f.typ < f;
      ReadableShape(f.typ, ss[i].shape);
    }
  }

  /** Two schemas may be given one id exactly when they are the same tree. */
  lemma MayShareIdIff(a: seq<Field>, b: seq<Field>)
    requires ReadableFields(a) && ReadableFields(b)
    ensures (exists x :: MayId(a, x) && MayId(b, x)) <==> SameTree(a, b)
  {
    hide ReadableFields, MayList, PrintFields;
    if x :| MayId(a, x) && MayId(b, x) {
      var ss :| MayList(a, ss) && PrintFields(ss) == x;
      var us :| MayList(b, us) && PrintFields(us) == x;
      ReadableList(a, ss);
      ReadableList(b, us);
      FieldsDecode(ss, "", us, "");
    }
    if ss :| MayList(a, ss) && MayList(b, ss) {
      assert MayId(a, PrintFields(ss)) && MayId(b, PrintFields(ss));
    }
  }

  /** Where names differ the printer sees the canonical shape and no other. */
  lemma {:induction false} MayShapeIff(t: DataType, s: Shape)
    requires SeparateType(t)
    ensures MayShape(t, s) <==> s == ShapeOf(t)
    decreases t
  {
    match t
    case Struct(fs) =>
      if s.SStruct? {
        MayListIff(fs, s.fields);
      }
    case List(e) =>
      if s.SList? {
        MayShapeIff(e.typ, s.elem);
      }
    case Dictionary(i, v) =>
      if s.SDict? {
        MayShapeIff(i, s.index);
        MayShapeIff(v, s.value);
      }
    case Union(_, fs, _) =>
      if s.SUnion? {
        MayListIff(fs, s.fields);
      }
    case MapType(k, v) =>
      if s.SMap? {
        MayShapeIff(k.typ, s.key);
        MayShapeIff(v.typ, s.item);
      }
    case _ =>
  }

  lemma {:induction false} MayListIff(fs: seq<Field>, ss: seq<SField>)
    requires SeparateFields(fs)
    ensures MayList(fs, ss) <==> ss == SortBy(ShapesOf(fs), ByName)
    decreases fs, 1
  {
    hide SortOutcome, SortBy, ShapeOf, MayShape, SeparateType, DistinctNames, Listed, ByFieldName, ByName;
    if MayList(fs, ss) {
      var t :| SortOutcome(fs, t, ByFieldName) && Listed(fs, t, ss);
      OutcomeMembers(fs, t);
      ListedIff(fs, t, ss);
      SortThenShape(fs, t);
    }
    if ss == SortBy(ShapesOf(fs), ByName) {
      var t := SortBy(fs, ByFieldName);
      SortByOutcome(fs, ByFieldName);
      OutcomeMembers(fs, t);
      SortThenShape(fs, t);
      ListedIff(fs, t, ss);
    }
  }

  lemma OutcomeMembers(fs: seq<Field>, t: seq<Field>)
    requires SortOutcome(fs, t, ByFieldName)
    ensures forall f :: f in t <==> f in fs
  {
    SameMembers(fs, t);
  }

  lemma {:induction false} ListedIff(from: seq<Field>, t: seq<Field>, ss: seq<SField>)
    requires forall f :: f in t ==> f in from && SeparateType(f.typ)
    ensures Listed(from, t, ss) <==> ss == ShapesOf(t)
    decreases from, 0
  {
    ShapesOfIndex(t);
    hide MayShape, ShapeOf, ShapesOf, SeparateType;
    if |ss| == |t| {
      forall i | 0 <= i < |t| ensures ListedAs(from, t[i], ss[i]) <==> ss[i] == FieldShape(t[i]) {
        var f := t[i];
        assert f in from && f.typ < f;
        MayShapeIff(f.typ, ss[i].shape);
      }
    }
  }

  /** So where names differ, the same tree is what SameFields says. */
  lemma SameTreeIff(a: seq<Field>, b: seq<Field>)
    requires SeparateFields(a) && SeparateFields(b)
    ensures SameTree(a, b) <==> SameFields(a, b)
  {
    SameShapesIff(a, b);
    hide MayList, SortBy, ByName, SameFields, SeparateFields;
    var s := SortBy(ShapesOf(a), ByName);
    MayListIff(a, s);
    MayListIff(b, s);
    if ss :| MayList(a, ss) && MayList(b, ss) {
      MayListIff(a, ss);
      MayListIff(b, ss);
    }
  }

  // ---------------------------------------------------------------- Matching fields, names repeated or not

  /** One type tree: at each level the fields can be rearranged so that names and types match. */
  ghost predicate AlikeType(t: DataType, u: DataType)
    decreases t
  {
    match t
    case Prim(p) => u.Prim? && p == u.p
    case Timestamp(_) => u.Timestamp?
    case Duration(_) => u.Duration?
    case FixedSizeBinary(w) => u.FixedSizeBinary? && w == u.width
    case Struct(fs) => u.Struct? && AlikeFields(fs, u.fields)
    case List(e) => u.List? && AlikeType(e.typ, u.elem.typ)
    case Dictionary(i, v) => u.Dictionary? && AlikeType(i, u.index) && AlikeType(v, u.value)
    case Union(s, fs, _) => u.Union? && s == u.sparse && AlikeFields(fs, u.fields)
    case MapType(k, v) => u.MapType? && AlikeType(k.typ, u.key.typ) && AlikeType(v.typ, u.item.typ)
    case Unsupported(_) => false
  }

  ghost predicate AlikeFields(fs: seq<Field>, gs: seq<Field>)
    decreases fs, 1
  {
    exists t, u :: multiset(t) == multiset(fs) && multiset(u) == multiset(gs) && Matched(fs, t, u)
  }

  ghost predicate Matched(from: seq<Field>, t: seq<Field>, u: seq<Field>)
    decreases from, 0
  {
    |t| == |u| && forall i :: 0 <= i < |t| ==> t[i] in from && MatchedAs(from, t[i], u[i])
  }

  ghost predicate MatchedAs(from: seq<Field>, f: Field, g: Field)
    requires f in from
    decreases f
  {
    f.name == g.name && AlikeType(f.typ, g.typ)
  }

  /** Types that may be printed alike match. */
  lemma {:induction false} CommonShapeMatches(t: DataType, u: DataType, s: Shape)
    requires MayShape(t, s) && MayShape(u, s)
    ensures AlikeType(t, u)
    decreases t
  {
    match t
    case Struct(fs) => CommonListMatches(fs, u.fields, s.fields);
    case List(e) => CommonShapeMatches(e.typ, u.elem.typ, s.elem);
    case Dictionary(i, v) =>
      CommonShapeMatches(i, u.index, s.index);
      CommonShapeMatches(v, u.value, s.value);
    case Union(_, fs, _) => CommonListMatches(fs, u.fields, s.fields);
    case MapType(k, v) =>
      CommonShapeMatches(k.typ, u.key.typ, s.key);
      CommonShapeMatches(v.typ, u.item.typ, s.item);
    case _ =>
  }

  lemma {:induction false} CommonListMatches(fs: seq<Field>, gs: seq<Field>, ss: seq<SField>)
    requires MayList(fs, ss) && MayList(gs, ss)
    ensures AlikeFields(fs, gs)
    decreases fs, 1
  {
    hide MayShape, AlikeType, Sorted, WeakOrderOn;
    var t: seq<Field> :| SortOutcome(fs, t, ByFieldName) && Listed(fs, t, ss);
    var u: seq<Field> :| SortOutcome(gs, u, ByFieldName) && Listed(gs, u, ss);
    forall i | 0 <= i < |t| ensures MatchedAs(fs, t[i], u[i]) {
      var f := t[i];
      assert ListedAs(fs, f, ss[i]) && ListedAs(gs, u[i], ss[i]) && f.typ < f;
      CommonShapeMatches(f.typ, u[i].typ, ss[i].shape);
    }
    assert Matched(fs, t, u);
  }

  /** Types that match may be printed alike. */
  lemma {:induction false} MatchesHaveCommonShape(t: DataType, u: DataType) returns (s: Shape)
    requires AlikeType(t, u)
    ensures MayShape(t, s) && MayShape(u, s)
    decreases t
  {
    match t {
      case Prim(p) => s := SPrim(p);
      case Timestamp(_) => s := STimestamp;
      case Duration(_) => s := SDuration;
      case FixedSizeBinary(w) => s := SFixed(w);
      case Struct(fs) =>
        var ss := MatchesHaveCommonList(fs, u.fields);
        s := SStruct(ss);
      case List(e) =>
        var inner := MatchesHaveCommonShape(e.typ, u.elem.typ);
        s := SList(inner);
      case Dictionary(i, v) =>
        var x := MatchesHaveCommonShape(i, u.index);
        var y := MatchesHaveCommonShape(v, u.value);
        s := SDict(x, y);
      case Union(sparse, fs, _) =>
        var ss := MatchesHaveCommonList(fs, u.fields);
        s := SUnion(sparse, ss);
      case MapType(k, v) =>
        var x := MatchesHaveCommonShape(k.typ, u.key.typ);
        var y := MatchesHaveCommonShape(v.typ, u.item.typ);
        s := SMap(x, y);
    }
  }

  lemma {:induction false} MatchesHaveCommonList(fs: seq<Field>, gs: seq<Field>) returns (ss: seq<SField>)
    requires AlikeFields(fs, gs)
    ensures MayList(fs, ss) && MayList(gs, ss)
    decreases fs, 1
  {
    hide MayShape, AlikeType, Sorted, WeakOrderOn, ByFieldName;
    var t: seq<Field>, u: seq<Field> :| multiset(t) == multiset(fs) && multiset(u) == multiset(gs) && Matched(fs, t, u);
    var t', u' := SortMatched(fs, t, u);
    SameMembers(gs, u');
    ss := ListMatched(fs, gs, t', u');
    assert SortOutcome(fs, t', ByFieldName) && SortOutcome(gs, u', ByFieldName);
  }

  lemma {:induction false} ListMatched(fs: seq<Field>, gs: seq<Field>, t: seq<Field>, u: seq<Field>)
    returns (ss: seq<SField>)
    requires Matched(fs, t, u) && forall g :: g in u ==> g in gs
    ensures Listed(fs, t, ss) && Listed(gs, u, ss)
    decreases fs, 0, |t|
  {
    hide MayShape, AlikeType;
    if t == [] {
      ss := [];
    } else {
      var n := |t| - 1;
      var init := ListMatched(fs, gs, t[..n], u[..n]);
      var f, g := t[n], u[n];
      assert MatchedAs(fs, f, g) && f.typ < f;
      var last := MatchesHaveCommonShape(f.typ, g.typ);
      ss := init + [SField(f.name, last)];
      assert ListedAs(fs, f, ss[n]) && ListedAs(gs, g, ss[n]);
      ListedSnoc(fs, t, init, ss[n]);
      ListedSnoc(gs, u, init, ss[n]);
    }
  }

  lemma ListedSnoc(from: seq<Field>, t: seq<Field>, ss: seq<SField>, s: SField)
    requires t != [] && Listed(from, t[..|t| - 1], ss) && t[|t| - 1] in from && ListedAs(from, t[|t| - 1], s)
    ensures Listed(from, t, ss + [s])
  {
    hide MayShape;
    forall i | 0 <= i < |t| ensures t[i] in from && ListedAs(from, t[i], (ss + [s])[i]) {
      if i < |t| - 1 {
        assert t[..|t| - 1][i] == t[i] && ListedAs(from, t[..|t| - 1][i], ss[i]);
      }
    }
  }

  function Firsts<A, B>(ps: seq<(A, B)>): (r: seq<A>)
    ensures |r| == |ps| && forall i :: 0 <= i < |ps| ==> r[i] == ps[i].0
  {
    if ps == [] then [] else [ps[0].0] + Firsts(ps[1..])
  }

  function Seconds<A, B>(ps: seq<(A, B)>): (r: seq<B>)
    ensures |r| == |ps| && forall i :: 0 <= i < |ps| ==> r[i] == ps[i].1
  {
    if ps == [] then [] else [ps[0].1] + Seconds(ps[1..])
  }

  lemma PairsOfOthers<A, B>(ps: seq<(A, B)>, k: nat)
    requires k < |ps|
    ensures Firsts(Others(ps, k)) == Others(Firsts(ps), k)
    ensures Seconds(Others(ps, k)) == Others(Seconds(ps), k)
  {
    hide Firsts, Seconds, Others;
  }

  lemma {:induction false} PairsPermuted<A, B>(ps: seq<(A, B)>, qs: seq<(A, B)>)
    requires multiset(ps) == multiset(qs)
    ensures multiset(Firsts(ps)) == multiset(Firsts(qs)) && multiset(Seconds(ps)) == multiset(Seconds(qs))
    decreases |ps|
  {
    SameMembers(ps, qs);
    if ps != [] {
      assert ps[0] in ps;
      var k :| 0 <= k < |qs| && qs[k] == ps[0];
      assert |Others(ps, 0)| < |ps|;
      assert Firsts(ps)[0] == Firsts(qs)[k] && Seconds(ps)[0] == Seconds(qs)[k];
      PairsOfOthers(ps, 0);
      PairsOfOthers(qs, k);
      hide Firsts, Seconds, Others;
      TakeOut(ps, 0);
      TakeOut(qs, k);
      PairsPermuted(Others(ps, 0), Others(qs, k));
      TakeOut(Firsts(ps), 0);
      TakeOut(Firsts(qs), k);
      TakeOut(Seconds(ps), 0);
      TakeOut(Seconds(qs), k);
    }
  }

  predicate ByFirstName(p: (Field, Field), q: (Field, Field)) {
    ByFieldName(p.0, q.0)
  }

  lemma ByFirstNameIsWeakOrder(ps: seq<(Field, Field)>)
    ensures WeakOrderOn(ps, ByFirstName)
  {
    forall a, b, c | a in ps && b in ps && c in ps
      ensures ByFirstName(a, b) ==> !ByFirstName(b, a)
      ensures ByFirstName(a, c) ==> ByFirstName(a, b) || ByFirstName(b, c)
    {
      StringLess(a.0.name, b.0.name, c.0.name);
    }
  }

  function Zip<A, B>(t: seq<A>, u: seq<B>): (ps: seq<(A, B)>)
    requires |t| == |u|
    ensures |ps| == |t| && Firsts(ps) == t && Seconds(ps) == u
  {
    if t == [] then [] else [(t[0], u[0])] + Zip(t[1..], u[1..])
  }

  lemma SortPairs(ps: seq<(Field, Field)>) returns (qs: seq<(Field, Field)>)
    ensures multiset(Firsts(qs)) == multiset(Firsts(ps)) && multiset(Seconds(qs)) == multiset(Seconds(ps))
    ensures Sorted(qs, ByFirstName) && forall q :: q in qs <==> q in ps
  {
    qs := SortBy(ps, ByFirstName);
    ByFirstNameIsWeakOrder(ps);
    SortByOutcome(ps, ByFirstName);
    hide SortBy, WeakOrderOn, Firsts, Seconds, ByFirstName, Sorted;
    PairsPermuted(ps, qs);
    SameMembers(ps, qs);
  }

  /** Matched fields still match when both sides are sorted by name. */
  lemma SortMatched(from: seq<Field>, t: seq<Field>, u: seq<Field>) returns (t': seq<Field>, u': seq<Field>)
    requires Matched(from, t, u)
    ensures multiset(t') == multiset(t) && multiset(u') == multiset(u) && Matched(from, t', u')
    ensures Sorted(t', ByFieldName) && Sorted(u', ByFieldName)
  {
    var ps := Zip(t, u);
    var qs := SortPairs(ps);
    t', u' := Firsts(qs), Seconds(qs);
    MatchedPairs(from, ps);
    MatchedPairs(from, qs);
    hide Matched, MatchedAs, Firsts, Seconds, Zip, ByFirstName, ByFieldName, Sorted;
    MatchedSorted(from, qs);
  }

  ghost predicate AllMatched(from: seq<Field>, ps: seq<(Field, Field)>) {
    forall p :: p in ps ==> p.0 in from && MatchedAs(from, p.0, p.1)
  }

  lemma MatchedPairs(from: seq<Field>, ps: seq<(Field, Field)>)
    ensures Matched(from, Firsts(ps), Seconds(ps)) <==> AllMatched(from, ps)
  {
    hide MatchedAs, Firsts, Seconds;
    var t, u := Firsts(ps), Seconds(ps);
    if AllMatched(from, ps) {
      forall i | 0 <= i < |t| ensures t[i] in from && MatchedAs(from, t[i], u[i]) {
        assert ps[i] in ps;
      }
    }
    if Matched(from, t, u) {
      forall p | p in ps ensures p.0 in from && MatchedAs(from, p.0, p.1) {
        var i :| 0 <= i < |ps| && ps[i] == p;
        assert t[i] in from;
      }
    }
  }

  lemma MatchedSorted(from: seq<Field>, qs: seq<(Field, Field)>)
    requires Sorted(qs, ByFirstName) && Matched(from, Firsts(qs), Seconds(qs))
    ensures Sorted(Firsts(qs), ByFieldName) && Sorted(Seconds(qs), ByFieldName)
  {
    var t, u := Firsts(qs), Seconds(qs);
    hide AlikeType, Firsts, Seconds, CompareStrings;
    forall i, j | 0 <= i < j < |t| ensures !ByFieldName(t[j], t[i]) && !ByFieldName(u[j], u[i]) {
      assert !ByFirstName(qs[j], qs[i]);
      assert MatchedAs(from, t[i], u[i]) && MatchedAs(from, t[j], u[j]);
    }
  }

  /** The same tree means just this: fields matched by name and type at each level. */
  lemma SameTreeIsAlike(a: seq<Field>, b: seq<Field>)
    ensures SameTree(a, b) <==> AlikeFields(a, b)
  {
    hide MayList, AlikeFields;
    if ss :| MayList(a, ss) && MayList(b, ss) {
      CommonListMatches(a, b, ss);
    }
    if AlikeFields(a, b) {
      var ss := MatchesHaveCommonList(a, b);
    }
  }

  // ---------------------------------------------------------------- Appending to the text

  /** The fields of a printed list are in the order of their names. */
  ghost predicate InNameOrder(ss: seq<SField>) {
    forall i, j :: 0 <= i < j < |ss| ==> ss[i].name == ss[j].name || StringBefore(ss[i].name, ss[j].name)
  }

  lemma {:induction false} ListInNameOrder(fs: seq<Field>, ss: seq<SField>)
    requires MayList(fs, ss)
    ensures InNameOrder(ss)
  {
    hide MayShape, StringBefore;
    var t: seq<Field> :| SortOutcome(fs, t, ByFieldName) && Listed(fs, t, ss);
    ByFieldNameIsWeakOrder(fs);
    forall i, j | 0 <= i < j < |ss| ensures ss[i].name == ss[j].name || StringBefore(ss[i].name, ss[j].name) {
      assert !ByFieldName(t[j], t[i]) && ListedAs(fs, t[i], ss[i]) && ListedAs(fs, t[j], ss[j]);
      StringsInOrder(ss[j].name, ss[i].name);
      StringsInOrder(ss[i].name, ss[j].name);
      StringOrder(ss[i].name, ss[j].name, ss[i].name);
    }
  }

  /** A text of these fields, written in the order of their names. */
  ghost predicate OrderedId(fs: seq<Field>, x: string) {
    exists ss :: MayList(fs, ss) && InNameOrder(ss) && PrintFields(ss) == x
  }

  lemma IdIsOrdered(fs: seq<Field>, x: string)
    requires MayId(fs, x)
    ensures OrderedId(fs, x)
  {
    hide MayList, InNameOrder, PrintFields;
    var ss :| MayList(fs, ss) && PrintFields(ss) == x;
    ListInNameOrder(fs, ss);
  }

  function FieldText(f: SField): string {
    f.name + ":" + Print(f.shape)
  }

  /** What the loop appends for one more field. */
  lemma PrintOne(f: SField)
    ensures PrintFields([]) == "" && PrintFields([f]) == FieldText(f)
  {
    hide Print;
  }

  lemma AfterSnoc(s: seq<SField>, f: SField)
    requires s != []
    ensures AfterField(s + [f]) == "," + PrintFields(s[1..] + [f])
    ensures AfterField(s) == if s[1..] == [] then "" else "," + PrintFields(s[1..])
  {
    hide PrintFields;
    assert (s + [f])[1..] == s[1..] + [f];
  }

  lemma {:induction false} PrintSnoc(s: seq<SField>, f: SField)
    ensures PrintFields(s + [f]) == PrintFields(s) + (if s == [] then "" else ",") + FieldText(f)
  {
    hide PrintFields, Print, FieldText, AfterField;
    PrintOne(f);
    var last := FieldText(f);
    if s == [] {
      assert s + [f] == [f];
    } else {
      PrintFirst(s);
      PrintFirst(s + [f]);
      PrintSnoc(s[1..], f);
      AfterSnoc(s, f);
      var h, p := s[0].name + [':'] + Print(s[0].shape), PrintFields(s[1..]);
      assert s[1..] == [] ==> h + "" + "," + last == h + ("," + last);
      assert h + ("," + p) + "," + last == h + ("," + (p + "," + last));
    }
  }

  lemma StructText(fs: seq<Field>, x: string)
    requires MayId(fs, x)
    ensures MayText(Struct(fs), "{" + x + "}")
  {
    hide MayList, PrintFields;
    var ss :| MayList(fs, ss) && PrintFields(ss) == x;
    assert MayShape(Struct(fs), SStruct(ss)) && Print(SStruct(ss)) == "{" + x + "}";
  }

  lemma UnionText(sparse: bool, fs: seq<Field>, codes: seq<int>, x: string)
    requires MayId(fs, x)
    ensures MayText(Union(sparse, fs, codes), (if sparse then "SU{" else "DU{") + x + "}")
  {
    hide MayList, PrintFields;
    var ss :| MayList(fs, ss) && PrintFields(ss) == x;
    assert MayShape(Union(sparse, fs, codes), SUnion(sparse, ss));
    assert Print(SUnion(sparse, ss)) == (if sparse then "SU{" else "DU{") + x + "}";
  }

  lemma ListText(e: Field, x: string)
    requires MayText(e.typ, x)
    ensures MayText(List(e), "[" + x + "]")
  {
    var s :| MayShape(e.typ, s) && Print(s) == x;
    assert MayShape(List(e), SList(s)) && Print(SList(s)) == "[" + x + "]";
  }

  lemma DictionaryText(i: DataType, v: DataType, x: string, y: string)
    requires MayText(i, x) && MayText(v, y)
    ensures MayText(Dictionary(i, v), "Dic<" + x + "," + y + ">")
  {
    var s :| MayShape(i, s) && Print(s) == x;
    var u :| MayShape(v, u) && Print(u) == y;
    assert MayShape(Dictionary(i, v), SDict(s, u)) && Print(SDict(s, u)) == "Dic<" + x + "," + y + ">";
  }

  lemma MapText(k: Field, v: Field, x: string, y: string)
    requires MayText(k.typ, x) && MayText(v.typ, y)
    ensures MayText(MapType(k, v), "Map<" + x + "," + y + ">")
  {
    var s :| MayShape(k.typ, s) && Print(s) == x;
    var u :| MayShape(v.typ, u) && Print(u) == y;
    assert MayShape(MapType(k, v), SMap(s, u)) && Print(SMap(s, u)) == "Map<" + x + "," + y + ">";
  }

  lemma NothingListed(from: seq<Field>)
    ensures Listed(from, [], []) && PrintFields([]) == ""
  {
  }

  lemma ListOneMore(from: seq<Field>, fields: seq<Field>, i: nat, seen: seq<SField>, one: string)
      returns (more: seq<SField>)
    requires i < |fields| && fields[i] in from && Listed(from, fields[..i], seen)
    requires exists x :: MayText(fields[i].typ, x) && one == fields[i].name + ":" + x
    ensures Listed(from, fields[..i + 1], more)
    ensures PrintFields(more) == PrintFields(seen) + (if i > 0 then "," else "") + one
  {
    var f := fields[i];
    var x :| MayText(f.typ, x) && one == f.name + ":" + x;
    var s :| MayShape(f.typ, s) && Print(s) == x;
    more := seen + [SField(f.name, s)];
    PrintSnoc(seen, SField(f.name, s));
    hide MayShape, Print, PrintFields;
    forall k | 0 <= k < i + 1 ensures fields[..i + 1][k] in from && ListedAs(from, fields[..i + 1][k], more[k]) {
      if k < i {
        assert fields[..i][k] == fields[k] && ListedAs(from, fields[..i][k], seen[k]);
      }
    }
  }

  lemma IdFromList(fs: seq<Field>, fields: seq<Field>, x: string)
    requires SortOutcome(fs, fields, ByFieldName)
    requires exists ss :: Listed(fs, fields, ss) && PrintFields(ss) == x
    ensures MayId(fs, x)
  {
    hide SortOutcome, Listed, PrintFields;
    var ss :| Listed(fs, fields, ss) && PrintFields(ss) == x;
    assert MayList(fs, ss);
  }

  lemma LeafText(t: DataType)
    ensures t.Prim? ==> MayText(t, Sig(t.p))
    ensures t.Timestamp? ==> MayText(t, "Tns")
    ensures t.Duration? ==> MayText(t, "Dur")
    ensures t.FixedSizeBinary? ==> MayText(t, "FSB<" + Decimal(t.width) + ">")
  {
    match t
    case Prim(p) => assert MayShape(t, SPrim(p)) && Print(SPrim(p)) == Sig(p);
    case Timestamp(_) => assert MayShape(t, STimestamp) && Print(STimestamp) == "Tns";
    case Duration(_) => assert MayShape(t, SDuration) && Print(SDuration) == "Dur";
    case FixedSizeBinary(w) => assert MayShape(t, SFixed(w)) && Print(SFixed(w)) == "FSB<" + Decimal(w) + ">";
    case _ =>
  }

  lemma {:induction false} SeparateIsSupported(t: DataType)
    requires SeparateType(t)
    ensures Supported(t)
    decreases t
  {
    match t
    case Struct(fs) => SeparateAreSupported(fs);
    case List(e) => SeparateIsSupported(e.typ);
    case Dictionary(i, v) =>
      SeparateIsSupported(i);
      SeparateIsSupported(v);
    case Union(_, fs, _) => SeparateAreSupported(fs);
    case MapType(k, v) =>
      SeparateIsSupported(k.typ);
      SeparateIsSupported(v.typ);
    case _ =>
  }

  lemma {:induction false} SeparateAreSupported(fs: seq<Field>)
    requires SeparateFields(fs)
    ensures SupportedFields(fs)
    decreases fs
  {
    forall i | 0 <= i < |fs| ensures Supported(fs[i].typ) {
      var f := fs[i];
      assert f.typ < f;
      SeparateIsSupported(f.typ);
    }
  }

  /** Where names differ a type, and a list of fields, may be given its canonical text only. */
  lemma CanonicalText(t: DataType, x: string)
    requires SeparateType(t) && MayText(t, x)
    ensures x == Print(ShapeOf(t))
  {
    hide MayShape, Print, ShapeOf, SeparateType;
    var s :| MayShape(t, s) && Print(s) == x;
    MayShapeIff(t, s);
  }

  lemma CanonicalId(fs: seq<Field>, x: string)
    requires SeparateFields(fs) && MayId(fs, x)
    ensures x == PrintFields(SortBy(ShapesOf(fs), ByName))
  {
    hide MayList, PrintFields, SortBy, ShapesOf, ByName, SeparateFields;
    var ss :| MayList(fs, ss) && PrintFields(ss) == x;
    MayListIff(fs, ss);
  }

  method FieldToID(f: Field) returns (id: Option<string>)
    ensures id.Some? <==> Supported(f.typ)
    ensures id.Some? ==> exists x :: MayText(f.typ, x) && id.value == f.name + ":" + x
    ensures SeparateType(f.typ) ==> id == Some(f.name + ":" + Print(ShapeOf(f.typ)))
    decreases f
  {
    hide MayText, Print, ShapeOf, SeparateType;
    var t := DataTypeToID(f.typ);
    id := if t.None? then None else Some(f.name + ":" + t.value);
  }

  /** The text of one type, or None where an unsupported type makes the original panic. */
  method DataTypeToID(t: DataType) returns (id: Option<string>)
    ensures id.Some? <==> Supported(t)
    ensures id.Some? ==> MayText(t, id.value)
    ensures SeparateType(t) ==> id == Some(Print(ShapeOf(t)))
    decreases t
  {
    LeafText(t);
    hide MayText, MayId, Print, ShapeOf, SeparateType, Decimal;
    if SeparateType(t) {
      SeparateIsSupported(t);
    }
    match t {
      case Prim(p) => id := Some(Sig(p));
      case Timestamp(_) => id := Some("Tns");
      case Duration(_) => id := Some("Dur");
      case FixedSizeBinary(w) => id := Some("FSB<" + Decimal(w) + ">");
      case Struct(fs) =>
        var inner := FieldsToID(fs);
        id := if inner.None? then None else Some("{" + inner.value + "}");
        if inner.Some? {
          StructText(fs, inner.value);
        }
      case List(e) =>
        var inner := DataTypeToID(e.typ);
        id := if inner.None? then None else Some("[" + inner.value + "]");
        if inner.Some? {
          ListText(e, inner.value);
        }
      case Dictionary(i, v) =>
        var first := DataTypeToID(i);
        var second := DataTypeToID(v);
        id := if first.None? || second.None? then None else Some("Dic<" + first.value + "," + second.value + ">");
        if first.Some? && second.Some? {
          DictionaryText(i, v, first.value, second.value);
        }
      case Union(sparse, fs, codes) =>
        var inner := FieldsToID(fs);
        id := if inner.None? then None else Some((if sparse then "SU{" else "DU{") + inner.value + "}");
        if inner.Some? {
          UnionText(sparse, fs, codes, inner.value);
        }
      case MapType(k, v) =>
        var first := DataTypeToID(k.typ);
        var second := DataTypeToID(v.typ);
        id := if first.None? || second.None? then None else Some("Map<" + first.value + "," + second.value + ">");
        if first.Some? && second.Some? {
          MapText(k, v, first.value, second.value);
        }
      case Unsupported(_) => id := None;
    }
    if SeparateType(t) {
      CanonicalText(t, id.value);
    }
  }

  /** The ids of these fields, taken from the field list `from`, with commas between them. */
  method JoinFieldIDs(fields: seq<Field>, ghost from: seq<Field>) returns (id: Option<string>)
    requires forall f :: f in fields ==> f in from
    ensures id.Some? <==> SupportedFields(fields)
    ensures id.Some? ==> exists ss :: Listed(from, fields, ss) && PrintFields(ss) == id.value
    ensures (forall f :: f in fields ==> SeparateType(f.typ)) ==> id == Some(PrintFields(ShapesOf(fields)))
    decreases from, 0
  {
    hide ShapeOf, ShapesOf, Print, PrintFields, Supported, SeparateType, Listed, MayShape;
    ghost var seen: seq<SField> := [];
    NothingListed(from);
    var text := "";
    var i := 0;
    while i < |fields|
      invariant 0 <= i <= |fields|
      invariant forall k :: 0 <= k < i ==> Supported(fields[k].typ)
      invariant Listed(from, fields[..i], seen) && text == PrintFields(seen)
    {
      var f := fields[i];
      assert f in from;
      var one := FieldToID(f);
      if one.None? {
        if SeparateType(f.typ) {
          SeparateIsSupported(f.typ);
        }
        return None;
      }
      seen := ListOneMore(from, fields, i, seen, one.value);
      text := text + (if i > 0 then "," else "") + one.value;
      i := i + 1;
    }
    assert fields[..i] == fields;
    if forall f :: f in fields ==> SeparateType(f.typ) {
      ListedIff(from, fields, seen);
    }
    id := Some(text);
  }

  /** Sorts a copy of the fields by name and appends them one by one. */
  method FieldsToID(fs: seq<Field>) returns (id: Option<string>)
    ensures id.Some? <==> SupportedFields(fs)
    ensures id.Some? ==> MayId(fs, id.value) && OrderedId(fs, id.value)
    ensures SeparateFields(fs) ==> id == Some(PrintFields(SortBy(ShapesOf(fs), ByName)))
    decreases fs, 1
  {
    var fields := SortSlice(fs, ByFieldName);
    SameMembers(fs, fields);
    id := JoinFieldIDs(fields, fs);
    if id.Some? {
      IdFromList(fs, fields, id.value);
      IdIsOrdered(fs, id.value);
    }
    hide OrderedId;
    hide Listed, MayList, MayShape;
    hide ShapesOf, Print, PrintFields, SortBy, SortOutcome, DistinctNames, Supported, SeparateType, ByFieldName;
    if SupportedFields(fields) {
      forall j | 0 <= j < |fs| ensures Supported(fs[j].typ) {
        assert fs[j] in fields;
      }
    } else {
      var j :| 0 <= j < |fields| && !Supported(fields[j].typ);
      assert fields[j] in fs;
    }
    if SeparateFields(fs) {
      SeparateAreSupported(fs);
      CanonicalId(fs, id.value);
    }
  }

  method SchemaToID(schema: seq<Field>) returns (id: Option<string>)
    ensures id.Some? <==> SupportedFields(schema)
    ensures id.Some? ==> MayId(schema, id.value) && OrderedId(schema, id.value)
    ensures SeparateFields(schema) ==> id == Some(IdOf(schema))
  {
    id := FieldsToID(schema);
  }
}
