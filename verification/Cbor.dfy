/** CBOR serialisation of nested values: the recursive writer, the parser's view, the recursive reader.

    The CBOR library is a stream of tokens (RFC 8949, section 3): containers are written with
    indefinite length and end at a Break (section 3.2.2), so nesting is recovered by the parser. */
module Cbor {
  import opened Wrappers
  import opened Values

  datatype Token =
    | TextString(s: string)
    | Unsigned(n: nat)
    | Negative(i: int)
    | Float64(d: Float)
    | Simple(b: bool)
    | Null
    | ByteString(bytes: seq<byte>)
    | ArrayStart
    | MapStart
    | Break

  // ---------------------------------------------------------------- Writing

  /** The tokens of a value.  An empty byte slice is a nil slice, which the library writes as null. */
  function Tokens(v: Value): (ts: seq<Token>)
    ensures ts != [] && ts[0] != Break
    decreases v
  {
    match v
    case Str(s) => [TextString(s)]
    case Int(i) => [if i >= 0 then Unsigned(i) else Negative(i)]
    case Double(d) => [Float64(d)]
    case Bool(b) => [Simple(b)]
    case Map(es) => [MapStart] + EntryTokens(es) + [Break]
    case Slice(vs) => [ArrayStart] + ElementTokens(vs) + [Break]
    case Bytes(b) => [if b == [] then Null else ByteString(b)]
    case Empty => [Null]
  }

  function EntryTokens(es: seq<Entry>): seq<Token>
    decreases es
  {
    if es == [] then [] else [TextString(es[0].key)] + Tokens(es[0].value) + EntryTokens(es[1..])
  }

  function ElementTokens(vs: seq<Value>): seq<Token>
    decreases vs
  {
    if vs == [] then [] else Tokens(vs[0]) + ElementTokens(vs[1..])
  }

  class Encoder {
    var out: seq<Token>

    constructor ()
      ensures out == []
    {
      out := [];
    }

    method Encode(v: Value)
      modifies this
      ensures out == old(out) + Tokens(v)
      decreases v
    {
      match v
      case Str(s) => out := out + [TextString(s)];
      case Int(i) => out := out + [if i >= 0 then Unsigned(i) else Negative(i)];
      case Double(d) => out := out + [Float64(d)];
      case Bool(b) => out := out + [Simple(b)];
      case Map(es) => EncodeMap(es);
      case Slice(vs) => EncodeSlice(vs);
      case Bytes(b) => out := out + [if b == [] then Null else ByteString(b)];
      case Empty => out := out + [Null];
    }

    method EncodeMap(es: seq<Entry>)
      modifies this
      ensures out == old(out) + Tokens(Map(es))
      decreases es
    {
      hide Tokens;
      out := out + [MapStart];
      ghost var start := out;
      for i := 0 to |es|
        invariant out + EntryTokens(es[i..]) == start + EntryTokens(es)
      {
        assert es[i..][0] == es[i] && es[i..][1..] == es[i + 1..];
        ghost var before := out;
        out := out + [TextString(es[i].key)];
        assert es[i].value < es[i];
        Encode(es[i].value);
        assert out + EntryTokens(es[i + 1..]) == before + EntryTokens(es[i..]);
      }
      assert es[|es|..] == [] && out == start + EntryTokens(es);
      out := out + [Break];
      MapTokens(es);
      assert out == old(out) + ([MapStart] + EntryTokens(es) + [Break]);
    }

    method EncodeSlice(vs: seq<Value>)
      modifies this
      ensures out == old(out) + Tokens(Slice(vs))
      decreases vs
    {
      hide Tokens;
      out := out + [ArrayStart];
      ghost var start := out;
      for i := 0 to |vs|
        invariant out + ElementTokens(vs[i..]) == start + ElementTokens(vs)
      {
        assert vs[i..][0] == vs[i] && vs[i..][1..] == vs[i + 1..];
        ghost var before := out;
        Encode(vs[i]);
        assert out + ElementTokens(vs[i + 1..]) == before + ElementTokens(vs[i..]);
      }
      assert vs[|vs|..] == [] && out == start + ElementTokens(vs);
      out := out + [Break];
      SliceTokens(vs);
      assert out == old(out) + ([ArrayStart] + ElementTokens(vs) + [Break]);
    }
  }

  /** The text of a map is that of its entries, each once and in order: a key, then its value. */
  lemma {:induction false} EntriesInOrder(es: seq<Entry>, e: Entry, fs: seq<Entry>)
    ensures EntryTokens(es + [e] + fs) == EntryTokens(es) + [TextString(e.key)] + Tokens(e.value) + EntryTokens(fs)
  {
    hide Tokens;
    var all := es + [e] + fs;
    if es == [] {
      assert all[0] == e && all[1..] == fs;
      assert EntryTokens(es) + [TextString(e.key)] == [TextString(e.key)];
    } else {
      assert all[0] == es[0] && all[1..] == es[1..] + [e] + fs;
      EntriesInOrder(es[1..], e, fs);
      var head := [TextString(es[0].key)] + Tokens(es[0].value);
      Regroup(head, EntryTokens(es[1..]), [TextString(e.key)]);
      Regroup(head, EntryTokens(es[1..]) + [TextString(e.key)], Tokens(e.value));
      Regroup(head, EntryTokens(es[1..]) + [TextString(e.key)] + Tokens(e.value), EntryTokens(fs));
    }
  }

  /** The text of a slice is that of its elements, each once and in order. */
  lemma {:induction false} ElementsInOrder(vs: seq<Value>, v: Value, ws: seq<Value>)
    ensures ElementTokens(vs + [v] + ws) == ElementTokens(vs) + Tokens(v) + ElementTokens(ws)
  {
    hide Tokens;
    var all := vs + [v] + ws;
    if vs == [] {
      assert all[0] == v && all[1..] == ws;
      assert ElementTokens(vs) + Tokens(v) == Tokens(v);
    } else {
      assert all[0] == vs[0] && all[1..] == vs[1..] + [v] + ws;
      ElementsInOrder(vs[1..], v, ws);
      Regroup(Tokens(vs[0]), ElementTokens(vs[1..]), Tokens(v));
      Regroup(Tokens(vs[0]), ElementTokens(vs[1..]) + Tokens(v), ElementTokens(ws));
    }
  }

  lemma MapTokens(es: seq<Entry>)
    ensures Tokens(Map(es)) == [MapStart] + EntryTokens(es) + [Break]
  {
  }

  lemma SliceTokens(vs: seq<Value>)
    ensures Tokens(Slice(vs)) == [ArrayStart] + ElementTokens(vs) + [Break]
  {
  }

  // ---------------------------------------------------------------- Parsing

  /** What the library hands to the reader.  Other stands for any type the reader does not know. */
  datatype Item =
    | Text(s: string)
    | UintItem(n: nat)
    | IntItem(i: int64)
    | FloatItem(d: Float)
    | BoolItem(b: bool)
    | Nil
    | BytesItem(bytes: seq<byte>)
    | Array(elems: seq<Item>)
    | Object(pairs: seq<Pair>)
    | Other

  datatype Pair = Pair(key: Item, value: Item)

  /** Assignment into a map: a repeated key keeps its place and takes the new value. */
  function Put(ps: seq<Pair>, k: Item, v: Item): (r: seq<Pair>)
    ensures |ps| <= |r| <= |ps| + 1
  {
    if ps == [] then [Pair(k, v)]
    else if ps[0].key == k then [Pair(k, v)] + ps[1..]
    else [ps[0]] + Put(ps[1..], k, v)
  }

  datatype Parsed<+T> = Fail | Parsed(value: T, rest: seq<Token>)

  function ParseItem(ts: seq<Token>): (r: Parsed<Item>)
    ensures r.Parsed? ==> |r.rest| < |ts|
    decreases |ts|, 0
  {
    if ts == [] then Fail else
      match ts[0]
      case TextString(s) => Parsed(Text(s), ts[1..])
      case Unsigned(n) => Parsed(UintItem(n), ts[1..])
      case Negative(i) =>
        Parsed(if -0x8000_0000_0000_0000 <= i < 0 then IntItem(i) else Other, ts[1..])
      case Float64(d) => Parsed(FloatItem(d), ts[1..])
      case Simple(b) => Parsed(BoolItem(b), ts[1..])
      case Null => Parsed(Nil, ts[1..])
      case ByteString(b) => Parsed(BytesItem(b), ts[1..])
      case ArrayStart =>
        var es := ParseElements(ts[1..]);
        if es.Fail? then Fail else Parsed(Array(es.value), es.rest)
      case MapStart =>
        var ps := ParsePairs(ts[1..], []);
        if ps.Fail? then Fail else Parsed(Object(ps.value), ps.rest)
      case Break => Fail
  }

  function ParseElements(ts: seq<Token>): (r: Parsed<seq<Item>>)
    ensures r.Parsed? ==> |r.rest| < |ts|
    decreases |ts|, 1
  {
    if ts == [] then Fail
    else if ts[0] == Break then Parsed([], ts[1..])
    else
      var e := ParseItem(ts);
      if e.Fail? then Fail else
        var es := ParseElements(e.rest);
        if es.Fail? then Fail else Parsed([e.value] + es.value, es.rest)
  }

  function ParsePairs(ts: seq<Token>, acc: seq<Pair>): (r: Parsed<seq<Pair>>)
    ensures r.Parsed? ==> |r.rest| < |ts|
    decreases |ts|, 1
  {
    if ts == [] then Fail
    else if ts[0] == Break then Parsed(acc, ts[1..])
    else
      var k := ParseItem(ts);
      if k.Fail? then Fail else
        var v := ParseItem(k.rest);
        if v.Fail? then Fail else ParsePairs(v.rest, Put(acc, k.value, v.value))
  }

  /** What the parser recovers from a written value. */
  function ItemOf(v: Value): Item
    decreases v
  {
    match v
    case Str(s) => Text(s)
    case Int(i) => if i >= 0 then UintItem(i) else IntItem(i)
    case Double(d) => FloatItem(d)
    case Bool(b) => BoolItem(b)
    case Map(es) => Object(PairsOf(es, []))
    case Slice(vs) => Array(ItemsOf(vs))
    case Bytes(b) => if b == [] then Nil else BytesItem(b)
    case Empty => Nil
  }

  function ItemsOf(vs: seq<Value>): seq<Item>
    decreases vs
  {
    if vs == [] then [] else [ItemOf(vs[0])] + ItemsOf(vs[1..])
  }

  function PairsOf(es: seq<Entry>, acc: seq<Pair>): (r: seq<Pair>)
    decreases es
  {
    if es == [] then acc else PairsOf(es[1..], Put(acc, Text(es[0].key), ItemOf(es[0].value)))
  }

  /** Nested break-terminated arrays and maps parse back unambiguously, whatever follows them. */
  lemma {:induction false} ParseWritten(v: Value, rest: seq<Token>)
    ensures ParseItem(Tokens(v) + rest) == Parsed(ItemOf(v), rest)
    decreases v
  {
    hide ParsePairs, ParseElements, PairsOf, ItemsOf, EntryTokens, ElementTokens;
    var ts := Tokens(v) + rest;
    match v
    case Map(es) =>
      assert ts[1..] == EntryTokens(es) + ([Break] + rest);
      ParseWrittenPairs(es, [], rest);
    case Slice(vs) =>
      assert ts[1..] == ElementTokens(vs) + ([Break] + rest);
      ParseWrittenElements(vs, rest);
    case _ =>
      assert ts[1..] == rest;
  }

  lemma {:induction false} ParseWrittenElements(vs: seq<Value>, rest: seq<Token>)
    ensures ParseElements(ElementTokens(vs) + ([Break] + rest)) == Parsed(ItemsOf(vs), rest)
    decreases vs
  {
    var ts := ElementTokens(vs) + ([Break] + rest);
    if vs == [] {
      assert ts[1..] == rest;
    } else {
      var tail := ElementTokens(vs[1..]) + ([Break] + rest);
      assert ts == Tokens(vs[0]) + tail;
      ParseWritten(vs[0], tail);
      ParseWrittenElements(vs[1..], rest);
    }
  }

  lemma EntryTokensFirst(es: seq<Entry>, rest: seq<Token>)
    requires es != []
    ensures var ts := EntryTokens(es) + rest;
            ts != [] && ts[0] == TextString(es[0].key) && ts[1..] == Tokens(es[0].value) + (EntryTokens(es[1..]) + rest)
  {
    assert EntryTokens(es) == [TextString(es[0].key)] + Tokens(es[0].value) + EntryTokens(es[1..]);
    hide Tokens, EntryTokens;
    HeadOfFour(TextString(es[0].key), Tokens(es[0].value), EntryTokens(es[1..]), rest);
  }

  lemma HeadOfFour(t: Token, a: seq<Token>, b: seq<Token>, c: seq<Token>)
    ensures ([t] + a + b + c)[0] == t && ([t] + a + b + c)[1..] == a + (b + c)
  {
  }

  lemma {:induction false} ParseWrittenPairs(es: seq<Entry>, acc: seq<Pair>, rest: seq<Token>)
    ensures ParsePairs(EntryTokens(es) + ([Break] + rest), acc) == Parsed(PairsOf(es, acc), rest)
    decreases es
  {
    var ts := EntryTokens(es) + ([Break] + rest);
    if es == [] {
      assert ts[1..] == rest;
    } else {
      var tail := EntryTokens(es[1..]) + ([Break] + rest);
      EntryTokensFirst(es, [Break] + rest);
      hide EntryTokens, Tokens, Put, ItemOf, ParseItem;
      ParseWritten(es[0].value, tail);
      ParseWrittenPairs(es[1..], Put(acc, Text(es[0].key), ItemOf(es[0].value)), rest);
    }
  }

  // ---------------------------------------------------------------- Reading

  datatype DecodeError = InvalidTypeConversion | InvalidKeyMap | UnsupportedCborType | Malformed

  ghost predicate DistinctPairs(ps: seq<Pair>) {
    forall i, j :: 0 <= i < j < |ps| ==> ps[i].key != ps[j].key
  }

  /** Maps the library builds have each key once. */
  ghost predicate GoValue(item: Item) {
    match item
    case Array(es) => forall i :: 0 <= i < |es| ==> GoValue(es[i])
    case Object(ps) => DistinctPairs(ps) && forall i :: 0 <= i < |ps| ==> GoValue(ps[i].value)
    case _ => true
  }

  /** When reading succeeds: every unsigned fits int64, every key is text, every type is known. */
  ghost predicate Decodable(item: Item) {
    match item
    case UintItem(n) => n < 0x8000_0000_0000_0000
    case Array(es) => forall i :: 0 <= i < |es| ==> Decodable(es[i])
    case Object(ps) => forall i :: 0 <= i < |ps| ==> ps[i].key.Text? && Decodable(ps[i].value)
    case Other => false
    case _ => true
  }

  /** What reading builds, up to the order in which map entries are visited. */
  ghost function DecodedTree(item: Item): Tree
    requires Decodable(item)
    decreases item
  {
    match item
    case Text(s) => TStr(s)
    case UintItem(n) => TInt(n)
    case IntItem(i) => TInt(i)
    case FloatItem(d) => TDouble(d)
    case BoolItem(b) => TBool(b)
    case Nil => TEmpty
    case BytesItem(b) => TBytes(b)
    case Array(es) => TSlice(DecodedTrees(es))
    case Object(ps) => TMap(DecodedPairs(ps))
  }

  ghost function DecodedTrees(es: seq<Item>): (ts: seq<Tree>)
    requires forall i :: 0 <= i < |es| ==> Decodable(es[i])
    ensures |ts| == |es| && forall i :: 0 <= i < |es| ==> ts[i] == DecodedTree(es[i])
    decreases es
  {
    if es == [] then [] else [DecodedTree(es[0])] + DecodedTrees(es[1..])
  }

  ghost function DecodedPairs(ps: seq<Pair>): map<string, Tree>
    requires forall i :: 0 <= i < |ps| ==> ps[i].key.Text? && Decodable(ps[i].value)
    decreases ps
  {
    if ps == [] then map[] else
      var p := ps[0];
      assert p.value < p;
      DecodedPairs(ps[1..])[p.key.s := DecodedTree(p.value)]
  }

  lemma {:induction false} DecodedPairsKeys(ps: seq<Pair>, k: string)
    requires Decodable(Object(ps))
    ensures k in DecodedPairs(ps) <==> exists i :: 0 <= i < |ps| && ps[i].key == Text(k)
  {
    if ps != [] {
      DecodedPairsKeys(ps[1..], k);
      if i :| 0 <= i < |ps[1..]| && ps[1..][i].key == Text(k) {
        assert ps[i + 1].key == Text(k);
      }
      if i :| 0 < i < |ps| && ps[i].key == Text(k) {
        assert ps[1..][i - 1].key == Text(k);
      }
    }
  }

  function Without<T>(s: seq<T>, i: nat): seq<T>
    requires i < |s|
  {
    s[..i] + s[i + 1..]
  }

  lemma WithoutKeepsTheRest(ps: seq<Pair>, i: nat)
    requires i < |ps|
    ensures forall p :: p in ps <==> p == ps[i] || p in Without(ps, i)
    ensures DistinctPairs(ps) ==> DistinctPairs(Without(ps, i))
    ensures DistinctPairs(ps) ==> forall p :: p in Without(ps, i) ==> p.key != ps[i].key
    ensures Decodable(Object(ps)) <==> ps[i].key.Text? && Decodable(ps[i].value) && Decodable(Object(Without(ps, i)))
  {
    var rest := Without(ps, i);
    forall p | p in ps ensures p == ps[i] || p in rest {
      var j :| 0 <= j < |ps| && ps[j] == p;
      assert j < i ==> rest[j] == p;
      assert j > i ==> rest[j - 1] == p;
    }
    assert forall j :: 0 <= j < |rest| ==> rest[j] == ps[if j < i then j else j + 1];
    if ps[i].key.Text? && Decodable(ps[i].value) && Decodable(Object(rest)) {
      forall j | 0 <= j < |ps| ensures ps[j].key.Text? && Decodable(ps[j].value) {
        assert j < i ==> ps[j] == rest[j];
        assert j > i ==> ps[j] == rest[j - 1];
      }
    }
  }

  /** Taking any one pair out of a map and putting it back gives the map. */
  lemma {:induction false} TakePair(ps: seq<Pair>, i: nat)
    requires DistinctPairs(ps) && Decodable(Object(ps)) && i < |ps|
    ensures Decodable(Object(Without(ps, i)))
    ensures ps[i].key.s !in DecodedPairs(Without(ps, i))
    ensures DecodedPairs(ps) == DecodedPairs(Without(ps, i))[ps[i].key.s := DecodedTree(ps[i].value)]
  {
    var rest := Without(ps, i);
    WithoutKeepsTheRest(ps, i);
    DecodedPairsKeys(rest, ps[i].key.s);
    if i == 0 {
      assert rest == ps[1..];
    } else {
      assert rest[0] == ps[0] && rest[1..] == Without(ps[1..], i - 1);
      assert DistinctPairs(ps[1..]) && Decodable(Object(ps[1..]));
      hide DecodedTree, DistinctPairs;
      TakePair(ps[1..], i - 1);
    }
  }

  lemma {:induction false} AppendEntry(es: seq<Entry>, e: Entry)
    requires e.key !in TreeOfEntries(es)
    ensures TreeOfEntries(es + [e]) == TreeOfEntries(es)[e.key := TreeOf(e.value)]
  {
    hide TreeOf;
    if es == [] {
      assert ([] + [e])[1..] == [];
    } else {
      AppendEntry(es[1..], e);
      assert (es + [e])[1..] == es[1..] + [e];
    }
  }

  /** Reads an item into a fresh value; the entries of a map are visited in any order at all. */
  method Decode(item: Item) returns (r: Result<Value, DecodeError>)
    requires GoValue(item)
    ensures r.Ok? <==> Decodable(item)
    ensures r.Ok? ==> Unique(r.value) && TreeOf(r.value) == DecodedTree(item)
    decreases item
  {
    match item
    case Text(s) => return Ok(Str(s));
    case UintItem(n) =>
      if n >= 0x8000_0000_0000_0000 {
        return Err(InvalidTypeConversion);
      }
      return Ok(Int(n));
    case IntItem(i) => return Ok(Int(i));
    case FloatItem(d) => return Ok(Double(d));
    case BoolItem(b) => return Ok(Bool(b));
    case Nil => return Ok(Empty);
    case BytesItem(b) => return Ok(Bytes(b));
    case Array(es) => r := DecodeArray(es);
    case Object(ps) => r := DecodeObject(ps);
    case Other => return Err(UnsupportedCborType);
  }

  method DecodeArray(es: seq<Item>) returns (r: Result<Value, DecodeError>)
    requires GoValue(Array(es))
    ensures r.Ok? <==> Decodable(Array(es))
    ensures r.Ok? ==> Unique(r.value) && TreeOf(r.value) == DecodedTree(Array(es))
    decreases es
  {
    var out: seq<Value> := [];
    for i := 0 to |es|
      invariant |out| == i
      invariant forall j :: 0 <= j < i ==> Decodable(es[j]) && Unique(out[j]) && TreeOf(out[j]) == DecodedTree(es[j])
    {
      var v := Decode(es[i]);
      if v.Err? {
        return v;
      }
      out := out + [v.value];
    }
    TreesOfIndex(out);
    return Ok(Slice(out));
  }

  method DecodeObject(ps: seq<Pair>) returns (r: Result<Value, DecodeError>)
    requires GoValue(Object(ps))
    ensures r.Ok? <==> Decodable(Object(ps))
    ensures r.Ok? ==> Unique(r.value) && TreeOf(r.value) == DecodedTree(Object(ps))
    decreases ps, 0
  {
    var todo, entries: seq<Entry> := ps, [];
    while todo != []
      invariant forall p :: p in todo ==> p in ps
      invariant DistinctPairs(todo)
      invariant Decodable(Object(todo)) <==> Decodable(Object(ps))
      invariant forall e: Entry, p: Pair :: e in entries && p in todo ==> p.key != Text(e.key)
      invariant DistinctKeys(entries) && forall j :: 0 <= j < |entries| ==> Unique(entries[j].value)
      invariant Decodable(Object(ps)) ==> Splits(ps, todo, entries)
      decreases |todo|
    {
      var i: nat :| i < |todo|;
      var p := todo[i];
      WithoutKeepsTheRest(todo, i);
      if !p.key.Text? {
        return Err(InvalidKeyMap);
      }
      assert p in ps && p.value < p;
      var v := Decode(p.value);
      if v.Err? {
        return v;
      }
      MoveEntry(ps, todo, entries, i, v.value);
      todo := Without(todo, i);
      entries := entries + [Entry(p.key.s, v.value)];
    }
    return Ok(Map(entries));
  }

  /** The pairs still to visit and the entries already built make up the map ps. */
  ghost predicate Splits(ps: seq<Pair>, todo: seq<Pair>, entries: seq<Entry>)
    requires Decodable(Object(ps))
  {
    && Decodable(Object(todo))
    && DecodedPairs(todo).Keys !! TreeOfEntries(entries).Keys
    && DecodedPairs(todo) + TreeOfEntries(entries) == DecodedPairs(ps)
  }

  lemma MoveEntry(ps: seq<Pair>, todo: seq<Pair>, entries: seq<Entry>, i: nat, v: Value)
    requires i < |todo| && DistinctPairs(todo) && todo[i].key.Text?
    requires Decodable(todo[i].value) && TreeOf(v) == DecodedTree(todo[i].value)
    requires Decodable(Object(ps)) ==> Splits(ps, todo, entries)
    ensures Decodable(Object(ps)) ==> Splits(ps, Without(todo, i), entries + [Entry(todo[i].key.s, v)])
  {
    hide DecodedPairs, TreeOfEntries, DecodedTree, TreeOf;
    if Decodable(Object(ps)) {
      TakePair(todo, i);
      AppendEntry(entries, Entry(todo[i].key.s, v));
    }
  }

  // ---------------------------------------------------------------- Serialize and Deserialize

  lemma {:induction false} PutKeepsDistinct(ps: seq<Pair>, k: Item, v: Item)
    requires DistinctPairs(ps)
    ensures DistinctPairs(Put(ps, k, v))
    ensures forall p :: p in Put(ps, k, v) ==> p == Pair(k, v) || p in ps
  {
    if ps != [] && ps[0].key != k {
      PutKeepsDistinct(ps[1..], k, v);
      var rest := Put(ps[1..], k, v);
      assert Put(ps, k, v) == [ps[0]] + rest;
      forall j | 0 <= j < |rest| ensures rest[j].key != ps[0].key {
        assert rest[j] in rest;
      }
    }
  }

  lemma {:induction false} ParsedIsGoValue(ts: seq<Token>)
    ensures ParseItem(ts).Parsed? ==> GoValue(ParseItem(ts).value)
    decreases |ts|, 0
  {
    if ts != [] {
      ParsedElementsAreGoValues(ts[1..]);
      ParsedPairsAreGoValue(ts[1..], []);
    }
  }

  lemma {:induction false} ParsedElementsAreGoValues(ts: seq<Token>)
    ensures ParseElements(ts).Parsed? ==> GoValue(Array(ParseElements(ts).value))
    decreases |ts|, 1
  {
    if ts != [] && ts[0] != Break {
      ParsedIsGoValue(ts);
      if ParseItem(ts).Parsed? {
        ParsedElementsAreGoValues(ParseItem(ts).rest);
      }
    }
  }

  lemma {:induction false} ParsedPairsAreGoValue(ts: seq<Token>, acc: seq<Pair>)
    requires GoValue(Object(acc))
    ensures ParsePairs(ts, acc).Parsed? ==> GoValue(Object(ParsePairs(ts, acc).value))
    decreases |ts|, 1
  {
    if ts != [] && ts[0] != Break {
      var k := ParseItem(ts);
      if k.Parsed? {
        ParsedIsGoValue(k.rest);
        var v := ParseItem(k.rest);
        if v.Parsed? {
          PutKeepsDistinct(acc, k.value, v.value);
          assert forall p :: p in acc ==> GoValue(p.value);
          ParsedPairsAreGoValue(v.rest, Put(acc, k.value, v.value));
        }
      }
    }
  }

  method Serialize(v: Value) returns (ts: seq<Token>)
    ensures ts == Tokens(v)
  {
    var enc := new Encoder();
    enc.Encode(v);
    ts := enc.out;
  }

  ghost predicate Readable(ts: seq<Token>) {
    ParseItem(ts).Parsed? && Decodable(ParseItem(ts).value)
  }

  /** out is a possible result of reading the stream: right up to the order of map entries. */
  ghost predicate ReadsAs(ts: seq<Token>, out: Value) {
    Readable(ts) && Unique(out) && TreeOf(out) == DecodedTree(ParseItem(ts).value)
  }

  /** Reads the first item of the stream. */
  method Deserialize(ts: seq<Token>) returns (r: Result<Value, DecodeError>)
    ensures r.Ok? <==> Readable(ts)
    ensures r.Ok? ==> ReadsAs(ts, r.value)
  {
    var p := ParseItem(ts);
    if p.Fail? {
      return Err(Malformed);
    }
    ParsedIsGoValue(ts);
    r := Decode(p.value);
  }

  // ---------------------------------------------------------------- Round trip

  predicate NoEmptyBytes(v: Value) {
    match v
    case Bytes(b) => b != []
    case Map(es) => forall i :: 0 <= i < |es| ==> NoEmptyBytes(es[i].value)
    case Slice(vs) => forall i :: 0 <= i < |vs| ==> NoEmptyBytes(vs[i])
    case _ => true
  }

  lemma {:induction false} ItemsOfIndex(vs: seq<Value>)
    ensures |ItemsOf(vs)| == |vs|
    ensures forall i :: 0 <= i < |vs| ==> ItemsOf(vs)[i] == ItemOf(vs[i])
  {
    if vs != [] {
      ItemsOfIndex(vs[1..]);
    }
  }

  predicate KeyIn(ps: seq<Pair>, k: Item) {
    exists i :: 0 <= i < |ps| && ps[i].key == k
  }

  lemma {:induction false} PutCounts(ps: seq<Pair>, k: Item, v: Item)
    ensures KeyIn(ps, k) ==> |Put(ps, k, v)| == |ps|
    ensures !KeyIn(ps, k) ==> Put(ps, k, v) == ps + [Pair(k, v)]
    ensures forall q :: KeyIn(Put(ps, k, v), q) <==> q == k || KeyIn(ps, q)
    ensures forall p :: p in Put(ps, k, v) ==> p == Pair(k, v) || p in ps
  {
    if ps != [] && ps[0].key != k {
      PutCounts(ps[1..], k, v);
      assert ps == [ps[0]] + ps[1..];
      KeyInCons(ps[0], ps[1..]);
      KeyInCons(ps[0], Put(ps[1..], k, v));
    } else if ps != [] {
      assert ps == [ps[0]] + ps[1..];
      KeyInCons(ps[0], ps[1..]);
      KeyInCons(Pair(k, v), ps[1..]);
    } else {
      KeyInCons(Pair(k, v), []);
      assert [Pair(k, v)] == [Pair(k, v)] + [];
    }
  }

  lemma KeyInCons(p: Pair, ps: seq<Pair>)
    ensures forall q :: KeyIn([p] + ps, q) <==> q == p.key || KeyIn(ps, q)
  {
    forall q | KeyIn(ps, q) ensures KeyIn([p] + ps, q) {
      var i :| 0 <= i < |ps| && ps[i].key == q;
      assert ([p] + ps)[i + 1].key == q;
    }
    assert ([p] + ps)[0] == p;
  }

  function PlainPairs(es: seq<Entry>): (ps: seq<Pair>)
    ensures |ps| == |es|
  {
    if es == [] then [] else [Pair(Text(es[0].key), ItemOf(es[0].value))] + PlainPairs(es[1..])
  }

  /** Parsing keeps one pair per entry exactly when the keys are distinct, and then keeps them all. */
  lemma {:induction false} PairsOfCounts(es: seq<Entry>, acc: seq<Pair>)
    ensures |PairsOf(es, acc)| <= |acc| + |es|
    ensures |PairsOf(es, acc)| == |acc| + |es| <==>
              DistinctKeys(es) && forall i :: 0 <= i < |es| ==> !KeyIn(acc, Text(es[i].key))
    ensures |PairsOf(es, acc)| == |acc| + |es| ==> PairsOf(es, acc) == acc + PlainPairs(es)
  {
    if es != [] {
      var k, v := Text(es[0].key), ItemOf(es[0].value);
      PutCounts(acc, k, v);
      PairsOfCounts(es[1..], Put(acc, k, v));
      KeysApart(es, acc, Put(acc, k, v));
      hide DistinctKeys, KeyIn, Put;
    }
  }

  /** Distinct keys that are not there yet: the first is not, and the others are not after it was put. */
  lemma KeysApart(es: seq<Entry>, acc: seq<Pair>, next: seq<Pair>)
    requires es != []
    requires forall q :: KeyIn(next, q) <==> q == Text(es[0].key) || KeyIn(acc, q)
    ensures (DistinctKeys(es) && forall i :: 0 <= i < |es| ==> !KeyIn(acc, Text(es[i].key))) <==>
              && !KeyIn(acc, Text(es[0].key)) && DistinctKeys(es[1..])
              && forall i :: 0 <= i < |es[1..]| ==> !KeyIn(next, Text(es[1..][i].key))
  {
    hide KeyIn;
    assert forall i :: 0 < i < |es| ==> es[i] == es[1..][i - 1];
  }

  /** Whatever was written can be read. */
  lemma {:induction false} WrittenIsDecodable(v: Value)
    ensures Decodable(ItemOf(v))
    decreases v
  {
    match v
    case Map(es) =>
      forall i | 0 <= i < |es| ensures Decodable(ItemOf(es[i].value)) {
        WrittenIsDecodable(es[i].value);
      }
      PairsOfDecodable(es, []);
    case Slice(vs) =>
      ItemsOfIndex(vs);
      forall i | 0 <= i < |vs| ensures Decodable(ItemOf(vs[i])) {
        WrittenIsDecodable(vs[i]);
      }
    case _ =>
  }

  lemma {:induction false} PairsOfDecodable(es: seq<Entry>, acc: seq<Pair>)
    requires Decodable(Object(acc)) && forall i :: 0 <= i < |es| ==> Decodable(ItemOf(es[i].value))
    ensures Decodable(Object(PairsOf(es, acc)))
  {
    if es != [] {
      PutCounts(acc, Text(es[0].key), ItemOf(es[0].value));
      assert forall p :: p in acc ==> p.key.Text? && Decodable(p.value);
      assert forall p :: p in Put(acc, Text(es[0].key), ItemOf(es[0].value)) ==> p.key.Text? && Decodable(p.value);
      PairsOfDecodable(es[1..], Put(acc, Text(es[0].key), ItemOf(es[0].value)));
    }
  }

  lemma {:induction false} PlainPairsTree(es: seq<Entry>)
    requires Decodable(Object(PlainPairs(es)))
    requires forall i :: 0 <= i < |es| ==>
               Decodable(ItemOf(es[i].value)) && DecodedTree(ItemOf(es[i].value)) == TreeOf(es[i].value)
    ensures DecodedPairs(PlainPairs(es)) == TreeOfEntries(es)
  {
    if es != [] {
      assert PlainPairs(es)[1..] == PlainPairs(es[1..]);
      PlainPairsTree(es[1..]);
    }
  }

  lemma {:induction false} ReadBackTree(v: Value)
    requires Unique(v) && NoEmptyBytes(v)
    ensures Decodable(ItemOf(v)) && DecodedTree(ItemOf(v)) == TreeOf(v)
    decreases v
  {
    WrittenIsDecodable(v);
    match v
    case Map(es) =>
      PairsOfCounts(es, []);
      assert [] + PlainPairs(es) == PlainPairs(es);
      forall i | 0 <= i < |es|
        ensures Decodable(ItemOf(es[i].value)) && DecodedTree(ItemOf(es[i].value)) == TreeOf(es[i].value)
      {
        ReadBackTree(es[i].value);
      }
      PlainPairsTree(es);
    case Slice(vs) =>
      ItemsOfIndex(vs);
      TreesOfIndex(vs);
      forall i | 0 <= i < |vs|
        ensures Decodable(ItemOf(vs[i])) && DecodedTree(ItemOf(vs[i])) == TreeOf(vs[i])
      {
        ReadBackTree(vs[i]);
      }
      assert DecodedTrees(ItemsOf(vs)) == TreesOf(vs);
    case _ =>
  }

  lemma {:induction false} DecodedPairsSize(ps: seq<Pair>)
    requires Decodable(Object(ps))
    ensures |DecodedPairs(ps)| <= |ps|
  {
    if ps != [] {
      DecodedPairsSize(ps[1..]);
      var m := DecodedPairs(ps[1..]);
      assert DecodedPairs(ps).Keys == m.Keys + {ps[0].key.s};
      assert |m| == |m.Keys| && |DecodedPairs(ps)| == |DecodedPairs(ps).Keys|;
    }
  }

  lemma {:induction false} PlainPairLookup(es: seq<Entry>, i: nat)
    requires DistinctKeys(es) && i < |es| && Decodable(Object(PlainPairs(es)))
    ensures Decodable(ItemOf(es[i].value))
    ensures es[i].key in DecodedPairs(PlainPairs(es))
    ensures DecodedPairs(PlainPairs(es))[es[i].key] == DecodedTree(ItemOf(es[i].value))
  {
    hide DecodedTree, ItemOf;
    var ps := PlainPairs(es);
    assert ps[0] == Pair(Text(es[0].key), ItemOf(es[0].value)) && ps[1..] == PlainPairs(es[1..]);
    if i > 0 {
      PlainPairLookup(es[1..], i - 1);
    }
  }

  lemma {:induction false} EqualMeansFaithful(v: Value, out: Value)
    requires Unique(out) && Decodable(ItemOf(v)) && TreeOf(out) == DecodedTree(ItemOf(v))
    requires ValuesEqual(v, out)
    ensures Unique(v) && NoEmptyBytes(v)
    decreases v
  {
    match v
    case Slice(vs) =>
      ItemsOfIndex(vs);
      TreesOfIndex(out.elems);
      forall i | 0 <= i < |vs| ensures Unique(vs[i]) && NoEmptyBytes(vs[i]) {
        assert TreesOf(out.elems)[i] == DecodedTrees(ItemsOf(vs))[i];
        EqualMeansFaithful(vs[i], out.elems[i]);
      }
    case Map(es) =>
      EqualMapHasDistinctKeys(es, out.entries);
      forall i | 0 <= i < |es| ensures Unique(es[i].value) && NoEmptyBytes(es[i].value) {
        var g := Get(out.entries, es[i].key).value;
        assert Entry(es[i].key, g) in out.entries;
        TreeOfEntriesIsGet(out.entries, es[i].key);
        PlainPairLookup(es, i);
        EqualMeansFaithful(es[i].value, g);
      }
    case _ =>
  }

  lemma EqualMapHasDistinctKeys(es: seq<Entry>, fs: seq<Entry>)
    requires Decodable(ItemOf(Map(es))) && |es| == |fs| && DistinctKeys(fs)
    requires TreeOfEntries(fs) == DecodedPairs(PairsOf(es, []))
    ensures DistinctKeys(es) && PairsOf(es, []) == PlainPairs(es)
  {
    TreeOfEntriesSize(fs);
    DecodedPairsSize(PairsOf(es, []));
    PairsOfCounts(es, []);
    assert [] + PlainPairs(es) == PlainPairs(es);
  }

  /** Whatever is written can be read, and parses to exactly the item it stands for. */
  lemma WrittenIsReadable(v: Value)
    ensures Readable(Tokens(v)) && ParseItem(Tokens(v)) == Parsed(ItemOf(v), [])
  {
    assert Tokens(v) + [] == Tokens(v);
    ParseWritten(v, []);
    WrittenIsDecodable(v);
  }

  /** Reading back gives an equal value exactly when the value has unique keys, no empty byte slice
      and no NaN; every int64, in particular, comes back through the unsigned path. */
  lemma RoundTripIff(v: Value, out: Value)
    requires ReadsAs(Tokens(v), out)
    ensures ValuesEqual(v, out) <==> Unique(v) && NoEmptyBytes(v) && TreeNaNFree(TreeOf(v))
  {
    WrittenIsReadable(v);
    if ValuesEqual(v, out) {
      EqualMeansFaithful(v, out);
      ValuesEqualIsTreeEquality(v, out);
    } else if Unique(v) && NoEmptyBytes(v) {
      ReadBackTree(v);
      ValuesEqualIsTreeEquality(v, out);
    }
  }
}
