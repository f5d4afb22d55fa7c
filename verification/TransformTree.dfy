/** The transform tree: how it is built, and how RemoveOptional makes the schema grow. */
module TransformTree {
  import Dictionaries
  import opened Wrappers
  import opened Decimals
  import opened SchemaTransform
  import opened Selections

  // ---------------------------------------------------------------- RemoveOptional

  function WithoutNoField(ts: seq<Transform>): seq<Transform> {
    if ts == [] then []
    else (if ts[0].NoField? then [] else [ts[0]]) + WithoutNoField(ts[1..])
  }

  function Cleared(ts: seq<Transform>): seq<Transform> {
    var kept := WithoutNoField(ts);
    if kept == [] then [Identity] else kept
  }

  /** RemoveOptional on the node found by these child indexes. */
  function RemoveAt(node: Node, at: seq<nat>): (r: Node)
    ensures |r.children| == |node.children|
    decreases |at|
  {
    if at == [] then node.(transforms := Cleared(node.transforms))
    else if at[0] < |node.children|
    then node.(children := node.children[at[0] := RemoveAt(node.children[at[0]], at[1..])])
    else node
  }

  function NoFields(ts: seq<Transform>): nat {
    if ts == [] then 0 else (if ts[0].NoField? then 1 else 0) + NoFields(ts[1..])
  }

  function Count(node: Node): nat
    decreases node, 1
  {
    NoFields(node.transforms) + CountAll(node.children)
  }

  function CountAll(nodes: seq<Node>): nat
    decreases nodes, 0
  {
    if nodes == [] then 0 else Count(nodes[0]) + CountAll(nodes[1..])
  }

  /** The NoField transforms of the node found by these child indexes. */
  function NoFieldsAt(node: Node, at: seq<nat>): nat
    decreases |at|
  {
    if at == [] then NoFields(node.transforms)
    else if at[0] < |node.children| then NoFieldsAt(node.children[at[0]], at[1..])
    else 0
  }

  lemma {:induction false} ClearedMeaning(ts: seq<Transform>, t: Type)
    ensures NoField !in Cleared(ts) && NoFields(Cleared(ts)) == 0
    ensures TypeAfter(Cleared(ts), t) == TypeAfter(ts, t)
  {
    WithoutNoFieldMeaning(ts, t);
    assert TypeAfter([Identity], t) == t by {
      assert [Identity][1..] == [];
    }
    assert NoFields([Identity]) == 0 by {
      assert [Identity][1..] == [];
    }
  }

  lemma {:induction false} WithoutNoFieldMeaning(ts: seq<Transform>, t: Type)
    ensures NoField !in WithoutNoField(ts) && NoFields(WithoutNoField(ts)) == 0
    ensures TypeAfter(WithoutNoField(ts), t) == TypeAfter(ts, t)
    ensures forall x :: x in WithoutNoField(ts) <==> x in ts && !x.NoField?
  {
    if ts != [] {
      WithoutNoFieldMeaning(ts[1..], TypeStep(ts[0], t));
      if ts[0].NoField? {
        assert WithoutNoField(ts) == WithoutNoField(ts[1..]);
      } else {
        assert WithoutNoField(ts)[1..] == WithoutNoField(ts[1..]);
      }
    }
  }

  /** Which transforms are not a NoField. */
  function Others(ts: seq<Transform>): seq<bool> {
    seq(|ts|, i requires 0 <= i < |ts| => ts[i] != NoField)
  }

  /** The other transforms stay in order, and an Identity stands in where there were none. */
  lemma {:induction false} ClearedSelects(ts: seq<Transform>)
    ensures Selects(WithoutNoField(ts), ts, Others(ts))
    ensures Cleared(ts) == [Identity] || (Selects(Cleared(ts), ts, Others(ts)) && Cleared(ts) != [])
    ensures (exists i :: 0 <= i < |ts| && ts[i] != NoField) ==> Selects(Cleared(ts), ts, Others(ts))
  {
    WithoutNoFieldMeaning(ts, Leaf(""));
    hide Selects;
    if ts == [] {
      SelectsNothing<Transform>();
      assert Others(ts) == [];
    } else {
      ClearedSelects(ts[1..]);
      SelectsCons(ts[0], ts[0] != NoField, WithoutNoField(ts[1..]), ts[1..], Others(ts[1..]));
      assert ts == [ts[0]] + ts[1..] && Others(ts) == [ts[0] != NoField] + Others(ts[1..]);
      if i :| 0 <= i < |ts| && ts[i] != NoField {
        assert ts[i] in WithoutNoField(ts);
      }
    }
  }

  lemma {:induction false} CountUpdate(nodes: seq<Node>, i: nat, n: Node)
    requires i < |nodes|
    ensures CountAll(nodes[i := n]) == CountAll(nodes) - Count(nodes[i]) + Count(n)
    ensures Count(nodes[i]) <= CountAll(nodes)
  {
    if i > 0 {
      assert nodes[i := n][1..] == nodes[1..][i - 1 := n];
      CountUpdate(nodes[1..], i - 1, n);
    } else {
      assert nodes[i := n][1..] == nodes[1..];
    }
  }

  /** RemoveOptional takes away exactly the NoField transforms of its own node, so it makes progress
      exactly when there was one. */
  lemma {:induction false} RemoveAtCounts(node: Node, at: seq<nat>)
    ensures Count(RemoveAt(node, at)) == Count(node) - NoFieldsAt(node, at)
    decreases |at|
  {
    if at == [] {
      ClearedMeaning(node.transforms, Leaf(""));
    } else if at[0] < |node.children| {
      RemoveAtCounts(node.children[at[0]], at[1..]);
      CountUpdate(node.children, at[0], RemoveAt(node.children[at[0]], at[1..]));
    }
  }

  function Run(node: Node, calls: seq<seq<nat>>): Node
    decreases calls
  {
    if calls == [] then node else Run(RemoveAt(node, calls[0]), calls[1..])
  }

  /** How many of the calls found a NoField to remove. */
  function Effective(node: Node, calls: seq<seq<nat>>): nat
    decreases calls
  {
    if calls == [] then 0
    else (if NoFieldsAt(node, calls[0]) > 0 then 1 else 0) + Effective(RemoveAt(node, calls[0]), calls[1..])
  }

  /** However often RemoveOptional is called, it makes progress at most once per NoField. */
  lemma {:induction false} EffectiveBounded(node: Node, calls: seq<seq<nat>>)
    ensures Effective(node, calls) + Count(Run(node, calls)) <= Count(node)
    decreases calls
  {
    if calls != [] {
      RemoveAtCounts(node, calls[0]);
      EffectiveBounded(RemoveAt(node, calls[0]), calls[1..]);
    }
  }

  lemma {:induction false} NothingToClear(ts: seq<Transform>)
    requires NoFields(ts) == 0
    ensures WithoutNoField(ts) == ts
  {
    if ts != [] {
      NothingToClear(ts[1..]);
    }
  }

  /** A call that finds no NoField leaves what the field becomes as it was. */
  lemma {:induction false} IdleCall(f: Field, node: Node, at: seq<nat>)
    requires NoFieldsAt(node, at) == 0
    ensures FieldOutcome(f, RemoveAt(node, at)) == FieldOutcome(f, node)
    decreases |at|
  {
    if at == [] {
      NothingToClear(node.transforms);
      assert [Identity][1..] == [];
      assert ApplyAll(Cleared(node.transforms), f) == ApplyAll(node.transforms, f);
    } else {
      var g := ApplyAll(node.transforms, f);
      if g.Some? && |Members(g.value.typ)| <= |node.children| {
        IdleMembers(Members(g.value.typ), node, at);
      }
    }
  }

  lemma {:induction false} IdleMembers(fs: seq<Field>, node: Node, at: seq<nat>)
    requires at != [] && NoFieldsAt(node, at) == 0 && |fs| <= |node.children|
    ensures Outcomes(fs, RemoveAt(node, at).children) == Outcomes(fs, node.children)
    decreases |at|, 0
  {
    var after := RemoveAt(node, at);
    forall i | 0 <= i < |fs| ensures FieldOutcome(fs[i], after.children[i]) == FieldOutcome(fs[i], node.children[i]) {
      if i == at[0] {
        IdleCall(fs[i], node.children[i], at[1..]);
      }
    }
  }

  /** How many of the calls leave another schema, or another panic, than they found. */
  function Changes(fields: seq<Field>, node: Node, calls: seq<seq<nat>>): nat
    decreases calls
  {
    if calls == [] then 0
    else
      var after := RemoveAt(node, calls[0]);
      (if SchemaOutcome(fields, after) != SchemaOutcome(fields, node) then 1 else 0)
          + Changes(fields, after, calls[1..])
  }

  lemma IdleSchema(fields: seq<Field>, node: Node, at: seq<nat>)
    requires NoFieldsAt(node, at) == 0
    ensures SchemaOutcome(fields, RemoveAt(node, at)) == SchemaOutcome(fields, node)
  {
    hide FieldOutcome;
    if at != [] && |fields| <= |node.children| {
      IdleMembers(fields, node, at);
    }
  }

  /** Only a call that removes a NoField can change the schema, so it changes at most once per NoField. */
  lemma {:induction false} ChangesBounded(fields: seq<Field>, node: Node, calls: seq<seq<nat>>)
    ensures Changes(fields, node, calls) <= Effective(node, calls)
    ensures Changes(fields, node, calls) + Count(Run(node, calls)) <= Count(node)
    decreases calls
  {
    hide SchemaOutcome, RemoveAt, NoFieldsAt, Count;
    EffectiveBounded(node, calls);
    if calls != [] {
      if NoFieldsAt(node, calls[0]) == 0 {
        IdleSchema(fields, node, calls[0]);
      }
      ChangesBounded(fields, RemoveAt(node, calls[0]), calls[1..]);
    }
  }

  /** b is a, with RemoveOptional done on any of its nodes. */
  ghost predicate Grown(a: Node, b: Node)
    decreases a
  {
    && a.name == b.name && |a.children| == |b.children|
    && (b.transforms == a.transforms || b.transforms == Cleared(a.transforms))
    && forall i :: 0 <= i < |a.children| ==> Grown(a.children[i], b.children[i])
  }

  lemma {:induction false} GrownReflexive(a: Node)
    ensures Grown(a, a)
    decreases a
  {
    forall i | 0 <= i < |a.children| ensures Grown(a.children[i], a.children[i]) {
      GrownReflexive(a.children[i]);
    }
  }

  lemma {:induction false} RemoveAtGrows(a: Node, at: seq<nat>)
    ensures Grown(a, RemoveAt(a, at))
    decreases |at|
  {
    forall i | 0 <= i < |a.children| ensures Grown(a.children[i], a.children[i]) {
      GrownReflexive(a.children[i]);
    }
    if at != [] && at[0] < |a.children| {
      RemoveAtGrows(a.children[at[0]], at[1..]);
    }
  }

  lemma GrownType(a: Node, b: Node, t: Type)
    requires Grown(a, b)
    ensures TypeAfter(b.transforms, t) == TypeAfter(a.transforms, t)
    ensures NoField !in a.transforms ==> NoField !in b.transforms
  {
    ClearedMeaning(a.transforms, t);
  }

  lemma {:induction false} GrownLives(a: Node, b: Node, t: Type)
    requires Grown(a, b) && Lives(t, a)
    ensures Lives(t, b)
    decreases a
  {
    GrownType(a, b, t);
    var u := TypeAfter(a.transforms, t);
    if u.Map? && |a.children| >= 2 {
      GrownLives(a.children[0], b.children[0], u.key.typ);
      GrownLives(a.children[1], b.children[1], u.item.typ);
    }
  }

  /** RemoveOptional never takes a path away. */
  lemma {:induction false} GrownReaches(a: Node, b: Node, t: Type, p: seq<Step>)
    requires Grown(a, b) && Reaches(t, a, p)
    ensures Reaches(t, b, p)
    decreases |p|
  {
    if p != [] {
      GrownType(a, b, t);
      var u := TypeAfter(a.transforms, t);
      assert SomeLeads(u, a, p);
      var i :| 0 <= i < |Members(u)| && LeadsLiving(u, a, i, p);
      GrownLives(a.children[i], b.children[i], Members(u)[i].typ);
      GrownReaches(a.children[i], b.children[i], Members(u)[i].typ, p[1..]);
      assert LeadsLiving(u, b, i, p);
      assert SomeLeads(u, b, p);
    }
  }

  // ---------------------------------------------------------------- Trees that fit their prototype

  /** No members here, nor under a dictionary. */
  predicate Flat(t: Type) {
    Members(t) == [] && (t.Dictionary? ==> Flat(t.value))
  }

  /** The shape NewTransformTreeFrom gives the tree, with dictionaries on leaves and living list elements. */
  predicate Fits(t: Type, node: Node)
    decreases node
  {
    && |node.children| == |Members(t)|
    && (Members(t) != [] ==> forall x :: x in node.transforms ==> !x.Dict?)
    && (Members(t) == [] ==> Flat(t))
    && (t.Union? ==> |t.codes| == |t.fields|)
    && (t.List? ==> Lives(t.elem.typ, node.children[0]))
    && forall i :: 0 <= i < |Members(t)| ==> Fits(Members(t)[i].typ, node.children[i])
  }

  lemma {:induction false} TypeAfterFlat(ts: seq<Transform>, t: Type)
    requires Flat(t)
    ensures Flat(TypeAfter(ts, t))
  {
    if ts != [] {
      TypeAfterFlat(ts[1..], TypeStep(ts[0], t));
    }
  }

  lemma FittingType(t: Type, node: Node)
    requires Fits(t, node)
    ensures Members(TypeAfter(node.transforms, t)) == Members(t)
    ensures Members(t) != [] ==> TypeAfter(node.transforms, t) == t
  {
    if Members(t) == [] {
      TypeAfterFlat(node.transforms, t);
    } else {
      NoDictionaryNoChange(node.transforms, t);
    }
  }

  /** On a tree that fits, building the schema never panics. */
  lemma {:induction false} FitsNeverPanics(f: Field, node: Node)
    requires Fits(f.typ, node)
    ensures !FieldOutcome(f, node).Panics?
    decreases node
  {
    ApplyAllMeaning(node.transforms, f);
    if NoField !in node.transforms {
      FittingType(f.typ, node);
      var u := TypeAfter(node.transforms, f.typ);
      var outs := Outcomes(Members(u), node.children);
      forall i | 0 <= i < |outs| ensures !outs[i].Panics? {
        FitsNeverPanics(Members(u)[i], node.children[i]);
      }
      if u.List? {
        assert !outs[0].Panics?;
        KeptIffLives(u.elem, node.children[0]);
      }
    }
  }

  lemma {:induction false} GrownFits(a: Node, b: Node, t: Type)
    requires Grown(a, b) && Fits(t, a)
    ensures Fits(t, b)
    decreases a
  {
    WithoutNoFieldMeaning(a.transforms, t);
    forall i | 0 <= i < |Members(t)| ensures Fits(Members(t)[i].typ, b.children[i]) {
      GrownFits(a.children[i], b.children[i], Members(t)[i].typ);
    }
    if t.List? {
      GrownLives(a.children[0], b.children[0], t.elem.typ);
    }
  }

  // ---------------------------------------------------------------- Building the tree

  predicate HasKey(m: seq<Entry>, key: string) {
    exists e :: e in m && e.key == key
  }

  /** The value of the first entry with this key. */
  function FirstValue(m: seq<Entry>, key: string): string
    requires HasKey(m, key)
  {
    if m[0].key == key then m[0].value else FirstValue(m[1..], key)
  }

  /** Narrowest index a dictionary starts with; none when the configured cardinality is zero. */
  function InitialWidth(smallest: nat, maxCard: nat): Option<nat> {
    if maxCard == 0 then None else Some(Dictionaries.FindIndex(if maxCard < smallest then maxCard else smallest))
  }

  function MarkedMinimum(mark: string): nat {
    if mark == "16" then 0xFFFF else 0xFF
  }

  function Join(path: string, name: string): string {
    if path == "" then name else path + "." + name
  }

  function OptionalTransforms(f: Field): seq<Transform> {
    if HasKey(f.metadata, "#optional") then [NoField] else []
  }

  function MarkTransforms(path: string, f: Field, n: nat, maxCard: nat): seq<Transform> {
    if HasKey(f.metadata, "#dictionary")
    then [Dict(Decimal(n), path, InitialWidth(MarkedMinimum(FirstValue(f.metadata, "#dictionary")), maxCard))]
    else []
  }

  function TypeTransforms(path: string, f: Field, n: nat, maxCard: nat): seq<Transform> {
    if f.typ.Dictionary? then [Dict(Decimal(n), path, InitialWidth(0xFF, maxCard))] else []
  }

  /** The transforms of one field whose dictionaries are numbered from n. */
  function OwnTransforms(path: string, f: Field, n: nat, maxCard: nat): seq<Transform> {
    var marked := MarkTransforms(path, f, n, maxCard);
    var first := OptionalTransforms(f) + marked;
    (if first == [] then [Identity] else first) + TypeTransforms(path, f, n + |marked|, maxCard)
  }

  function OwnDicts(f: Field): nat {
    (if HasKey(f.metadata, "#dictionary") then 1 else 0) + (if f.typ.Dictionary? then 1 else 0)
  }

  function DictCount(f: Field): nat
    decreases TypeSize(f.typ), 1
  {
    MembersSmaller(f.typ);
    if Members(f.typ) == [] then OwnDicts(f) else OwnDicts(f) + DictCounts(Members(f.typ))
  }

  function DictCounts(fs: seq<Field>): nat
    decreases FieldsSize(fs), 0
  {
    if fs == [] then 0 else DictCount(fs[0]) + DictCounts(fs[1..])
  }

  function NodeFor(path: string, f: Field, n: nat, maxCard: nat): Node
    decreases TypeSize(f.typ), 1
  {
    MembersSmaller(f.typ);
    var full := Join(path, f.name);
    Node(f.name, OwnTransforms(full, f, n, maxCard),
         if Members(f.typ) == [] then [] else NodesFor(full, Members(f.typ), n + OwnDicts(f), maxCard))
  }

  function NodesFor(path: string, fs: seq<Field>, n: nat, maxCard: nat): (nodes: seq<Node>)
    ensures |nodes| == |fs|
    decreases FieldsSize(fs), 0
  {
    if fs == [] then []
    else [NodeFor(path, fs[0], n, maxCard)] + NodesFor(path, fs[1..], n + DictCount(fs[0]), maxCard)
  }

  /** The tree of a whole prototype; its root has no transforms. */
  function TreeFor(fields: seq<Field>, maxCard: nat): Node {
    Node("", [], NodesFor("", fields, 0, maxCard))
  }

  // ---------------------------------------------------------------- Prototypes

  /** Not optional and, for a map, with a key and an item that are not optional either. */
  predicate Required(f: Field) {
    !HasKey(f.metadata, "#optional") && (f.typ.Map? ==> Required(f.typ.key) && Required(f.typ.item))
  }

  /** Dictionaries are marked on leaves only, and list elements are required. */
  predicate Plain(f: Field)
    decreases TypeSize(f.typ)
  {
    MembersSmaller(f.typ);
    && (if Members(f.typ) == [] then Flat(f.typ) else !HasKey(f.metadata, "#dictionary"))
    && (f.typ.Union? ==> |f.typ.codes| == |f.typ.fields|)
    && (f.typ.List? ==> Required(f.typ.elem))
    && forall i :: 0 <= i < |Members(f.typ)| ==> Plain(Members(f.typ)[i])
  }

  /** A path of the prototype on which every field is required. */
  ghost predicate RequiredPath(t: Type, p: seq<Step>)
    decreases |p|, 2
  {
    p == [] || SomeRequired(t, p)
  }

  ghost predicate SomeRequired(t: Type, p: seq<Step>)
    requires p != []
    decreases |p|, 1
  {
    exists i :: 0 <= i < |Members(t)| && LeadsRequired(t, i, p)
  }

  ghost predicate LeadsRequired(t: Type, i: nat, p: seq<Step>)
    requires i < |Members(t)| && p != []
    decreases |p|, 0
  {
    StepOf(t, i) == p[0] && Required(Members(t)[i]) && RequiredPath(Members(t)[i].typ, p[1..])
  }

  lemma {:induction false} NodesForIndex(path: string, fs: seq<Field>, n: nat, maxCard: nat, i: nat) returns (m: nat)
    requires i < |fs|
    ensures NodesFor(path, fs, n, maxCard)[i] == NodeFor(path, fs[i], m, maxCard)
    decreases i
  {
    hide NodeFor, DictCount;
    if i == 0 {
      m := n;
    } else {
      m := NodesForIndex(path, fs[1..], n + DictCount(fs[0]), maxCard, i - 1);
    }
  }

  lemma NodeForParts(path: string, f: Field, n: nat, maxCard: nat)
    ensures var node := NodeFor(path, f, n, maxCard);
      && node.transforms == OwnTransforms(Join(path, f.name), f, n, maxCard)
      && node.children == NodesFor(Join(path, f.name), Members(f.typ), n + OwnDicts(f), maxCard)
  {
    hide OwnTransforms, Join;
  }

  lemma NewNodeChild(path: string, f: Field, n: nat, maxCard: nat, i: nat) returns (m: nat)
    requires i < |Members(f.typ)|
    ensures |NodeFor(path, f, n, maxCard).children| == |Members(f.typ)|
    ensures NodeFor(path, f, n, maxCard).children[i] == NodeFor(Join(path, f.name), Members(f.typ)[i], m, maxCard)
  {
    NodeForParts(path, f, n, maxCard);
    hide NodeFor, NodesFor, OwnTransforms, Join;
    m := NodesForIndex(Join(path, f.name), Members(f.typ), n + OwnDicts(f), maxCard, i);
  }

  // ---------------------------------------------------------------- What a fresh tree is

  ghost predicate FirstUnder(m: seq<Entry>, key: string, i: nat) {
    i < |m| && m[i].key == key && forall j :: 0 <= j < i ==> m[j].key != key
  }

  predicate DictAt(t: Transform, path: string, width: Option<nat>) {
    t.Dict? && t.path == path && t.width == width
  }

  /** The index a dictionary starts with, 8 or 16 bits wide, for the value of its mark. */
  function WidthFor(mark: string, maxCard: nat): Option<nat> {
    if maxCard == 0 then None else if mark == "16" && maxCard > 255 then Some(1) else Some(0)
  }

  /** The transforms of a field by what it is marked with: NoField first, the marked dictionary next, Identity where
      there is neither, and the dictionary of a dictionary type last. */
  ghost predicate FreshTransforms(path: string, f: Field, ts: seq<Transform>, maxCard: nat) {
    var optional := exists e :: e in f.metadata && e.key == "#optional";
    var marked := exists e :: e in f.metadata && e.key == "#dictionary";
    && |ts| == (if optional then 1 else 0) + (if marked then 1 else 0) +
               (if !optional && !marked then 1 else 0) + (if f.typ.Dictionary? then 1 else 0)
    && (optional ==> ts[0] == NoField)
    && (!optional && !marked ==> ts[0] == Identity)
    && (forall i: nat :: FirstUnder(f.metadata, "#dictionary", i) ==>
          DictAt(ts[if optional then 1 else 0], path, WidthFor(f.metadata[i].value, maxCard)))
    && (f.typ.Dictionary? ==> DictAt(ts[|ts| - 1], path, WidthFor("", maxCard)))
  }

  /** Every node bears the name of its field, the transforms of its field at its path, and a node per member. */
  ghost predicate Fresh(path: string, f: Field, node: Node, maxCard: nat)
    decreases node
  {
    && node.name == f.name && FreshTransforms(path, f, node.transforms, maxCard)
    && |node.children| == |Members(f.typ)|
    && forall i :: 0 <= i < |node.children| ==>
         var name := Members(f.typ)[i].name;
         Fresh(if path == "" then name else path + "." + name, Members(f.typ)[i], node.children[i], maxCard)
  }

  /** Every dictionary transform of the tree is the registered one of its id. */
  ghost predicate Registered(node: Node, registry: map<string, Transform>)
    decreases node
  {
    && (forall d :: d in node.transforms && d.Dict? ==> d.id in registry && registry[d.id] == d)
    && forall i :: 0 <= i < |node.children| ==> Registered(node.children[i], registry)
  }

  lemma {:induction false} FirstValueMeaning(m: seq<Entry>, key: string, i: nat)
    requires FirstUnder(m, key, i)
    ensures HasKey(m, key) && FirstValue(m, key) == m[i].value
  {
    assert m[i] in m;
    if i > 0 {
      assert m[0].key != key;
      FirstValueMeaning(m[1..], key, i - 1);
    }
  }

  lemma OwnTransformsFresh(path: string, f: Field, n: nat, maxCard: nat)
    ensures FreshTransforms(path, f, OwnTransforms(path, f, n, maxCard), maxCard)
  {
    forall i: nat | FirstUnder(f.metadata, "#dictionary", i)
      ensures HasKey(f.metadata, "#dictionary") && FirstValue(f.metadata, "#dictionary") == f.metadata[i].value
    {
      FirstValueMeaning(f.metadata, "#dictionary", i);
    }
    InitialWidthMeaning(maxCard);
    hide Decimal, FirstValue, FirstUnder, InitialWidth, MarkedMinimum, WidthFor;
  }

  lemma InitialWidthMeaning(maxCard: nat)
    ensures InitialWidth(0xFF, maxCard) == WidthFor("", maxCard)
    ensures forall mark :: InitialWidth(MarkedMinimum(mark), maxCard) == WidthFor(mark, maxCard)
  {
  }

  lemma {:induction false} NodeIsFresh(path: string, f: Field, n: nat, maxCard: nat)
    ensures Fresh(if path == "" then f.name else path + "." + f.name, f, NodeFor(path, f, n, maxCard), maxCard)
    decreases TypeSize(f.typ)
  {
    MembersSmaller(f.typ);
    var full, node := Join(path, f.name), NodeFor(path, f, n, maxCard);
    OwnTransformsFresh(full, f, n, maxCard);
    NodeForParts(path, f, n, maxCard);
    assert node.name == f.name;
    hide NodeFor, NodesFor, OwnTransforms, FreshTransforms;
    forall i | 0 <= i < |Members(f.typ)|
      ensures var name := Members(f.typ)[i].name;
        Fresh(if full == "" then name else full + "." + name, Members(f.typ)[i], node.children[i], maxCard)
    {
      var m := NewNodeChild(path, f, n, maxCard, i);
      NodeIsFresh(full, Members(f.typ)[i], m, maxCard);
    }
  }

  /** What a fresh node's transforms say about it. */
  lemma OwnTransformsMeaning(path: string, f: Field, n: nat, maxCard: nat)
    ensures NoField in OwnTransforms(path, f, n, maxCard) <==> HasKey(f.metadata, "#optional")
    ensures OwnDicts(f) == 0 ==> forall x :: x in OwnTransforms(path, f, n, maxCard) ==> !x.Dict?
  {
    hide HasKey, FirstValue, InitialWidth, Decimal;
  }

  lemma {:induction false} NewNodeLives(path: string, f: Field, n: nat, maxCard: nat)
    requires Plain(f)
    ensures Lives(f.typ, NodeFor(path, f, n, maxCard)) <==> Required(f)
    decreases TypeSize(f.typ)
  {
    MembersSmaller(f.typ);
    var full, node := Join(path, f.name), NodeFor(path, f, n, maxCard);
    OwnTransformsMeaning(full, f, n, maxCard);
    NodeForParts(path, f, n, maxCard);
    hide NodeFor, NodesFor, OwnTransforms, Join, HasKey;
    if Members(f.typ) == [] {
      TypeAfterFlat(node.transforms, f.typ);
    } else {
      NoDictionaryNoChange(node.transforms, f.typ);
      if f.typ.Map? {
        var m := NewNodeChild(path, f, n, maxCard, 0);
        NewNodeLives(full, f.typ.key, m, maxCard);
        var l := NewNodeChild(path, f, n, maxCard, 1);
        NewNodeLives(full, f.typ.item, l, maxCard);
      }
    }
  }

  lemma {:induction false} NewNodeFits(path: string, f: Field, n: nat, maxCard: nat)
    requires Plain(f)
    ensures Fits(f.typ, NodeFor(path, f, n, maxCard))
    decreases TypeSize(f.typ)
  {
    MembersSmaller(f.typ);
    var full, node := Join(path, f.name), NodeFor(path, f, n, maxCard);
    OwnTransformsMeaning(full, f, n, maxCard);
    NodeForParts(path, f, n, maxCard);
    hide NodeFor, NodesFor, OwnTransforms, Join, HasKey, Lives;
    forall i | 0 <= i < |Members(f.typ)| ensures Fits(Members(f.typ)[i].typ, node.children[i]) {
      var m := NewNodeChild(path, f, n, maxCard, i);
      NewNodeFits(full, Members(f.typ)[i], m, maxCard);
    }
    if f.typ.List? {
      var m := NewNodeChild(path, f, n, maxCard, 0);
      NewNodeLives(full, f.typ.elem, m, maxCard);
    }
  }

  /** In a fresh tree the living paths are the required ones. */
  lemma {:induction false} NewNodeReaches(path: string, f: Field, n: nat, maxCard: nat, p: seq<Step>)
    requires Plain(f)
    ensures Reaches(f.typ, NodeFor(path, f, n, maxCard), p) <==> RequiredPath(f.typ, p)
    decreases |p|, 1
  {
    if p != [] {
      var node, t := NodeFor(path, f, n, maxCard), f.typ;
      NewNodeFits(path, f, n, maxCard);
      FittingType(t, node);
      hide Plain, Fits, NodeFor, NodesFor, TypeAfter, Lives, Required, LeadsLiving, LeadsRequired, Reaches,
          RequiredPath;
      forall i | 0 <= i < |Members(t)| ensures LeadsLiving(t, node, i, p) <==> LeadsRequired(t, i, p) {
        NewMemberLeads(path, f, n, maxCard, i, p);
      }
      ReachesByMembers(t, node, p);
    }
  }

  lemma {:induction false} NewMemberLeads(path: string, f: Field, n: nat, maxCard: nat, i: nat, p: seq<Step>)
    requires Plain(f) && p != [] && i < |Members(f.typ)|
    ensures LeadsLiving(f.typ, NodeFor(path, f, n, maxCard), i, p) <==> LeadsRequired(f.typ, i, p)
    decreases |p|, 0
  {
    var full, g := Join(path, f.name), Members(f.typ)[i];
    assert Plain(g);
    hide Plain, NodeFor, NodesFor, Join, Lives, Required, Reaches, RequiredPath, StepOf, Members;
    var m := NewNodeChild(path, f, n, maxCard, i);
    NewNodeLives(full, g, m, maxCard);
    NewNodeReaches(full, g, m, maxCard, p[1..]);
  }

  lemma ReachesByMembers(t: Type, node: Node, p: seq<Step>)
    requires p != [] && Members(TypeAfter(node.transforms, t)) == Members(t)
    requires Members(t) != [] ==> TypeAfter(node.transforms, t) == t
    requires forall i :: 0 <= i < |Members(t)| ==> (LeadsLiving(t, node, i, p) <==> LeadsRequired(t, i, p))
    ensures Reaches(t, node, p) <==> RequiredPath(t, p)
  {
    var u := TypeAfter(node.transforms, t);
    assert Reaches(t, node, p) <==> SomeLeads(u, node, p);
    hide TypeAfter, Lives, Required, LeadsLiving, LeadsRequired;
    if SomeLeads(u, node, p) {
      var i :| 0 <= i < |Members(u)| && LeadsLiving(u, node, i, p);
      assert LeadsRequired(t, i, p);
    }
    assert RequiredPath(t, p) <==> SomeRequired(t, p);
    if SomeRequired(t, p) {
      var i :| 0 <= i < |Members(t)| && LeadsRequired(t, i, p);
      assert LeadsLiving(u, node, i, p);
    }
  }

  // ---------------------------------------------------------------- Whole schemas

  predicate PlainSchema(fields: seq<Field>) {
    forall i :: 0 <= i < |fields| ==> Plain(fields[i])
  }

  lemma TreeFits(fields: seq<Field>, maxCard: nat)
    requires PlainSchema(fields)
    ensures Fits(Struct(fields), TreeFor(fields, maxCard))
  {
    var nodes := NodesFor("", fields, 0, maxCard);
    forall i | 0 <= i < |fields| ensures Fits(fields[i].typ, nodes[i]) {
      var m := NodesForIndex("", fields, 0, maxCard, i);
      NewNodeFits("", fields[i], m, maxCard);
    }
  }

  /** The first schema holds exactly the paths on which nothing is optional. */
  lemma InitialPaths(fields: seq<Field>, maxCard: nat, p: seq<Step>)
    requires PlainSchema(fields)
    ensures SchemaOutcome(fields, TreeFor(fields, maxCard)).Some?
    ensures HasPath(Struct(SchemaOutcome(fields, TreeFor(fields, maxCard)).value), p)
        <==> RequiredPath(Struct(fields), p)
  {
    var root, t := TreeFor(fields, maxCard), Struct(fields);
    TreeFits(fields, maxCard);
    FitsNeverPanics(Field("", t, false, []), root);
    SchemaAsField(fields, root);
    SchemaPathsIff(fields, root, p);
    if p != [] {
      forall i | 0 <= i < |fields| ensures LeadsLiving(t, root, i, p) <==> LeadsRequired(t, i, p) {
        var m := NodesForIndex("", fields, 0, maxCard, i);
        NewNodeLives("", fields[i], m, maxCard);
        NewNodeReaches("", fields[i], m, maxCard, p[1..]);
      }
      hide Plain, Fits, NodesFor, Lives, Required, SchemaOutcome;
      ReachesByMembers(t, root, p);
    }
  }

  /** RemoveOptional leaves the root alone: it belongs to no builder. */
  predicate BelowRoot(calls: seq<seq<nat>>) {
    forall i :: 0 <= i < |calls| ==> calls[i] != []
  }

  lemma {:induction false} RunFits(t: Type, node: Node, calls: seq<seq<nat>>)
    requires Fits(t, node)
    ensures Fits(t, Run(node, calls))
    decreases calls
  {
    if calls != [] {
      RemoveAtGrows(node, calls[0]);
      GrownFits(node, RemoveAt(node, calls[0]), t);
      RunFits(t, RemoveAt(node, calls[0]), calls[1..]);
    }
  }

  lemma {:induction false} RunKeepsRoot(node: Node, calls: seq<seq<nat>>)
    requires BelowRoot(calls)
    ensures Run(node, calls).transforms == node.transforms
    decreases calls
  {
    if calls != [] {
      RunKeepsRoot(RemoveAt(node, calls[0]), calls[1..]);
      assert calls[0] != [];
    }
  }

  lemma PlainRunsBuild(fields: seq<Field>, maxCard: nat, calls: seq<seq<nat>>)
    requires PlainSchema(fields) && BelowRoot(calls)
    ensures SchemaOutcome(fields, Run(TreeFor(fields, maxCard), calls)).Some?
  {
    var t, root := Struct(fields), Run(TreeFor(fields, maxCard), calls);
    TreeFits(fields, maxCard);
    RunFits(t, TreeFor(fields, maxCard), calls);
    RunKeepsRoot(TreeFor(fields, maxCard), calls);
    hide Fits, PlainSchema, FieldOutcome, SchemaOutcome, Run;
    FitsNeverPanics(Field("", t, false, []), root);
    SchemaAsField(fields, root);
  }

  /** After any RemoveOptional calls one more loses no path of the schema; and where dictionaries are
      marked on leaves only and list elements are required, there always is a schema. */
  lemma SchemaOnlyGrows(fields: seq<Field>, maxCard: nat, calls: seq<seq<nat>>, at: seq<nat>, p: seq<Step>)
    requires BelowRoot(calls) && at != []
    ensures var before := Run(TreeFor(fields, maxCard), calls); var after := RemoveAt(before, at);
      && (PlainSchema(fields) ==> SchemaOutcome(fields, before).Some? && SchemaOutcome(fields, after).Some?)
      && (SchemaOutcome(fields, before).Some? && SchemaOutcome(fields, after).Some? ==>
            (HasPath(Struct(SchemaOutcome(fields, before).value), p) ==>
              HasPath(Struct(SchemaOutcome(fields, after).value), p)))
  {
    var t, first := Struct(fields), TreeFor(fields, maxCard);
    var before := Run(first, calls);
    var after := RemoveAt(before, at);
    if PlainSchema(fields) {
      PlainRunsBuild(fields, maxCard, calls);
      RunSnoc(first, calls, at);
      PlainRunsBuild(fields, maxCard, calls + [at]);
    }
    RunKeepsRoot(first, calls);
    RemoveAtGrows(before, at);
    assert before.transforms == [] && after.transforms == [];
    hide Grown, PlainSchema, SchemaOutcome, Run, RemoveAt, HasPath, Reaches;
    if SchemaOutcome(fields, before).Some? && SchemaOutcome(fields, after).Some? {
      SchemaPathsIff(fields, before, p);
      SchemaPathsIff(fields, after, p);
      if Reaches(t, before, p) {
        GrownReaches(before, after, t, p);
      }
    }
  }

  lemma {:induction false} RunSnoc(node: Node, calls: seq<seq<nat>>, at: seq<nat>)
    ensures Run(node, calls + [at]) == RemoveAt(Run(node, calls), at)
    decreases calls
  {
    if calls == [] {
      assert [at][1..] == [] && calls + [at] == [at];
    } else {
      RunSnoc(RemoveAt(node, calls[0]), calls[1..], at);
      assert (calls + [at])[1..] == calls[1..] + [at];
    }
  }

  // ---------------------------------------------------------------- Compaction in place

  lemma {:induction false} WithoutNoFieldSnoc(ts: seq<Transform>, t: Transform)
    ensures WithoutNoField(ts + [t]) == WithoutNoField(ts) + (if t.NoField? then [] else [t])
  {
    if ts == [] {
      assert (ts + [t])[1..] == [];
    } else {
      WithoutNoFieldSnoc(ts[1..], t);
      assert (ts + [t])[1..] == ts[1..] + [t];
      Regroup(if ts[0].NoField? then [] else [ts[0]], WithoutNoField(ts[1..]), if t.NoField? then [] else [t]);
    }
  }

  /** The transforms of one node: the first `used` elements of a buffer that is compacted in place. */
  class TransformNode {
    var buffer: array<Transform>
    var used: nat

    ghost predicate Valid()
      reads this
    {
      used <= buffer.Length
    }

    ghost function Transforms(): seq<Transform>
      requires Valid()
      reads this, buffer
    {
      buffer[..used]
    }

    method RemoveOptional()
      requires Valid()
      modifies this, buffer
      ensures Valid() && Transforms() == Cleared(old(Transforms()))
    {
      ghost var ts := Transforms();
      var n := 0;
      for i := 0 to used
        invariant n <= i && used == old(used) && buffer == old(buffer)
        invariant buffer[..n] == WithoutNoField(ts[..i])
        invariant forall k :: i <= k < used ==> buffer[k] == ts[k]
      {
        WithoutNoFieldSnoc(ts[..i], ts[i]);
        assert ts[..i + 1] == ts[..i] + [ts[i]];
        var transform := buffer[i];
        if !transform.NoField? {
          buffer[n] := transform;
          n := n + 1;
        }
      }
      assert ts[..used] == ts;
      if n == 0 {
        buffer := new Transform[1];
        buffer[0] := Identity;
        used := 1;
      } else {
        used := n;
      }
    }
  }

  lemma FieldsAreFresh(fields: seq<Field>, maxCard: nat)
    ensures var root := TreeFor(fields, maxCard);
      |root.children| == |fields| &&
      forall i :: 0 <= i < |fields| ==> Fresh(fields[i].name, fields[i], root.children[i], maxCard)
  {
    hide Fresh, NodeFor;
    forall i | 0 <= i < |fields|
      ensures Fresh(fields[i].name, fields[i], TreeFor(fields, maxCard).children[i], maxCard)
    {
      var m := NodesForIndex("", fields, 0, maxCard, i);
      NodeIsFresh("", fields[i], m, maxCard);
    }
  }

  // ---------------------------------------------------------------- Dictionary registration

  function DictsIn(ts: seq<Transform>): seq<Transform> {
    if ts == [] then []
    else (if ts[0].Dict? then [ts[0]] else []) + DictsIn(ts[1..])
  }

  /** The dictionary transforms of a tree, parents first. */
  function Dicts(node: Node): seq<Transform>
    decreases node, 1
  {
    DictsIn(node.transforms) + DictsOfAll(node.children)
  }

  function DictsOfAll(nodes: seq<Node>): seq<Transform>
    decreases nodes, 0
  {
    if nodes == [] then [] else Dicts(nodes[0]) + DictsOfAll(nodes[1..])
  }

  lemma {:induction false} DictsSnoc(nodes: seq<Node>, node: Node)
    ensures DictsOfAll(nodes + [node]) == DictsOfAll(nodes) + Dicts(node)
  {
    if nodes == [] {
      assert (nodes + [node])[1..] == [];
    } else {
      DictsSnoc(nodes[1..], node);
      assert (nodes + [node])[1..] == nodes[1..] + [node];
      Regroup(Dicts(nodes[0]), DictsOfAll(nodes[1..]), Dicts(node));
    }
  }

  lemma {:induction false} NodesForSnoc(path: string, fs: seq<Field>, n: nat, maxCard: nat, i: nat)
    requires i < |fs|
    ensures NodesFor(path, fs[..i + 1], n, maxCard)
         == NodesFor(path, fs[..i], n, maxCard) + [NodeFor(path, fs[i], n + DictCounts(fs[..i]), maxCard)]
    ensures DictCounts(fs[..i + 1]) == DictCounts(fs[..i]) + DictCount(fs[i])
    decreases i
  {
    hide NodeFor, DictCount;
    if i == 0 {
      assert fs[..1][1..] == [] && fs[..1][0] == fs[0];
    } else {
      NodesForSnoc(path, fs[1..], n + DictCount(fs[0]), maxCard, i - 1);
      assert fs[..i + 1][1..] == fs[1..][..i] && fs[..i][1..] == fs[1..][..i - 1];
      assert fs[..i + 1][0] == fs[0] && fs[..i][0] == fs[0];
    }
  }

  ghost predicate NumberedBelow(id: string, n: nat) {
    exists i: nat :: i < n && id == Decimal(i)
  }

  ghost predicate Numbered(created: seq<Transform>) {
    forall i :: 0 <= i < |created| ==> created[i].Dict? && created[i].id == Decimal(i)
  }

  ghost predicate Holds(registry: map<string, Transform>, created: seq<Transform>) {
    forall d :: d in created && d.Dict? ==> d.id in registry && registry[d.id] == d
  }

  ghost predicate OnlyBelow(registry: map<string, Transform>, n: nat) {
    forall id :: id in registry ==> NumberedBelow(id, n)
  }

  /** The registry holds these transforms, each under its own number, and nothing else. */
  ghost predicate Registers(registry: map<string, Transform>, created: seq<Transform>) {
    |registry| == |created| && Numbered(created) && Holds(registry, created) && OnlyBelow(registry, |created|)
  }

  lemma FreshNumber(registry: map<string, Transform>, n: nat)
    requires OnlyBelow(registry, n)
    ensures Decimal(n) !in registry
  {
    hide Decimal;
    if Decimal(n) in registry {
      var i: nat :| i < n && Decimal(n) == Decimal(i);
      DecimalInjective(n, i);
    }
  }

  lemma OnlyBelowNext(registry: map<string, Transform>, n: nat, d: Transform)
    requires OnlyBelow(registry, n)
    ensures OnlyBelow(registry[Decimal(n) := d], n + 1)
  {
    hide Decimal;
    var next := registry[Decimal(n) := d];
    forall id | id in next ensures NumberedBelow(id, n + 1) {
      if id in registry {
        var i: nat :| i < n && id == Decimal(i);
      }
    }
  }

  lemma NumberedNext(created: seq<Transform>, d: Transform)
    requires Numbered(created) && d.Dict? && d.id == Decimal(|created|)
    ensures Numbered(created + [d])
  {
    hide Decimal;
    var next := created + [d];
    forall i | 0 <= i < |next| ensures next[i].Dict? && next[i].id == Decimal(i) {
      if i < |created| {
        assert next[i] == created[i];
      } else {
        assert i == |created| && next[i] == d;
      }
    }
  }

  lemma HoldsNext(registry: map<string, Transform>, created: seq<Transform>, d: Transform)
    requires Holds(registry, created) && d.Dict? && d.id !in registry
    ensures Holds(registry[d.id := d], created + [d]) && |registry[d.id := d]| == |registry| + 1
  {
  }

  lemma RegisterNext(registry: map<string, Transform>, created: seq<Transform>, d: Transform)
    requires Registers(registry, created) && d.Dict? && d.id == Decimal(|created|)
    ensures Registers(registry[d.id := d], created + [d])
  {
    hide Decimal, Numbered, Holds, OnlyBelow;
    FreshNumber(registry, |created|);
    OnlyBelowNext(registry, |created|, d);
    NumberedNext(created, d);
    HoldsNext(registry, created, d);
  }

  lemma OwnTransformsJoin(path: string, f: Field, n: nat, maxCard: nat, marked: seq<Transform>, typed: seq<Transform>)
    requires marked == MarkTransforms(path, f, n, maxCard) && typed == TypeTransforms(path, f, n + |marked|, maxCard)
    ensures var first := OptionalTransforms(f) + marked;
            OwnTransforms(path, f, n, maxCard) == (if first == [] then [Identity] else first) + typed
    ensures DictsIn(OwnTransforms(path, f, n, maxCard)) == marked + typed && |marked + typed| == OwnDicts(f)
  {
    DictsInOne(NoField);
    DictsInOne(Identity);
    OwnDictionary(marked);
    OwnDictionary(typed);
    hide HasKey, FirstValue, InitialWidth, Decimal, DictsIn;
    var first := OptionalTransforms(f) + marked;
    DictsInAppend(OptionalTransforms(f), marked);
    DictsInAppend(first, typed);
    DictsInAppend([Identity], typed);
  }

  lemma DictsInOne(d: Transform)
    ensures DictsIn([]) == []
    ensures DictsIn([d]) == if d.Dict? then [d] else []
  {
    assert [d][1..] == [];
  }

  lemma OwnDictionary(ts: seq<Transform>)
    requires |ts| <= 1 && forall t :: t in ts ==> t.Dict?
    ensures DictsIn(ts) == ts
  {
    if ts != [] {
      DictsInOne(ts[0]);
      assert ts == [ts[0]];
    }
  }

  lemma {:induction false} DictsInHas(ts: seq<Transform>, d: Transform)
    requires d in ts && d.Dict?
    ensures d in DictsIn(ts)
  {
    if ts[0] != d {
      DictsInHas(ts[1..], d);
    }
  }

  lemma {:induction false} DictsHas(nodes: seq<Node>, i: nat, d: Transform)
    requires i < |nodes| && d in Dicts(nodes[i])
    ensures d in DictsOfAll(nodes)
  {
    if i > 0 {
      DictsHas(nodes[1..], i - 1, d);
    }
  }

  /** A registry of all dictionary transforms of a tree has each under its id. */
  lemma {:induction false} TreeRegistered(node: Node, registry: map<string, Transform>)
    requires forall d :: d in Dicts(node) && d.Dict? ==> d.id in registry && registry[d.id] == d
    ensures Registered(node, registry)
    decreases node
  {
    forall d | d in node.transforms && d.Dict? ensures d.id in registry && registry[d.id] == d {
      DictsInHas(node.transforms, d);
    }
    forall i | 0 <= i < |node.children| ensures Registered(node.children[i], registry) {
      forall d | d in Dicts(node.children[i]) ensures d in Dicts(node) {
        DictsHas(node.children, i, d);
      }
      TreeRegistered(node.children[i], registry);
    }
  }

  /** Builds the tree and fills the registry of dictionary transforms, numbering them by its size. */
  class TreeBuilder {
    var dictNodes: map<string, Transform>
    const maxCard: nat
    ghost var created: seq<Transform>

    ghost predicate Valid()
      reads this
    {
      Registers(dictNodes, created)
    }

    constructor (maxCard: nat)
      ensures Valid() && created == [] && this.maxCard == maxCard
    {
      this.maxCard := maxCard;
      dictNodes, created := map[], [];
    }

    method NewDictionary(path: string, width: Option<nat>) returns (d: Transform)
      requires Valid()
      modifies this
      ensures Valid() && created == old(created) + [d] && d == Dict(Decimal(|old(created)|), path, width)
    {
      d := Dict(Decimal(|dictNodes|), path, width);
      RegisterNext(dictNodes, created, d);
      dictNodes := dictNodes[d.id := d];
      created := created + [d];
    }

    method NewMarkedDictionary(path: string, f: Field) returns (ts: seq<Transform>)
      requires Valid()
      modifies this
      ensures Valid() && ts == MarkTransforms(path, f, |old(created)|, maxCard)
      ensures created == old(created) + ts
    {
      hide Registers, InitialWidth, Decimal;
      ts := [];
      if HasKey(f.metadata, "#dictionary") {
        var d := NewDictionary(path, InitialWidth(MarkedMinimum(FirstValue(f.metadata, "#dictionary")), maxCard));
        ts := [d];
      }
    }

    method NewTypeDictionary(path: string, f: Field) returns (ts: seq<Transform>)
      requires Valid()
      modifies this
      ensures Valid() && ts == TypeTransforms(path, f, |old(created)|, maxCard)
      ensures created == old(created) + ts
    {
      hide Registers, InitialWidth, Decimal;
      ts := [];
      if f.typ.Dictionary? {
        var d := NewDictionary(path, InitialWidth(0xFF, maxCard));
        ts := [d];
      }
    }

    method NewTransforms(path: string, f: Field) returns (transforms: seq<Transform>)
      requires Valid()
      modifies this
      ensures Valid() && transforms == OwnTransforms(path, f, |old(created)|, maxCard)
      ensures created == old(created) + DictsIn(transforms) && |created| == |old(created)| + OwnDicts(f)
    {
      hide Registers, DictsIn, MarkTransforms, TypeTransforms, OptionalTransforms, OwnDicts, OwnTransforms;
      ghost var before := created;
      var marked := NewMarkedDictionary(path, f);
      transforms := OptionalTransforms(f) + marked;
      if transforms == [] {
        transforms := [Identity];
      }
      var typed := NewTypeDictionary(path, f);
      OwnTransformsJoin(path, f, |before|, maxCard, marked, typed);
      transforms := transforms + typed;
      Regroup(before, marked, typed);
    }

    method NewTransformNode(path: string, f: Field) returns (node: Node)
      requires Valid()
      modifies this
      ensures Valid() && node == NodeFor(path, f, |old(created)|, maxCard)
      ensures created == old(created) + Dicts(node) && |created| == |old(created)| + DictCount(f)
      decreases TypeSize(f.typ), 1
    {
      hide Registers, OwnTransforms, DictsIn, HasKey;
      var full := Join(path, f.name);
      var transforms := NewTransforms(full, f);
      MembersSmaller(f.typ);
      NodeForParts(path, f, |old(created)|, maxCard);
      hide NodeFor, NodesFor, Join;
      var children := [];
      if Members(f.typ) != [] {
        children := NewTransformNodes(full, Members(f.typ));
      }
      node := Node(f.name, transforms, children);
    }

    method NewTransformNodes(path: string, fs: seq<Field>) returns (nodes: seq<Node>)
      requires Valid()
      modifies this
      ensures Valid() && nodes == NodesFor(path, fs, |old(created)|, maxCard)
      ensures created == old(created) + DictsOfAll(nodes) && |created| == |old(created)| + DictCounts(fs)
      decreases FieldsSize(fs), 0
    {
      hide NodeFor, DictCount, Registers;
      nodes := [];
      for i := 0 to |fs|
        invariant Valid() && nodes == NodesFor(path, fs[..i], |old(created)|, maxCard)
        invariant created == old(created) + DictsOfAll(nodes) && |created| == |old(created)| + DictCounts(fs[..i])
      {
        ElementSmaller(fs, i);
        var child := NewTransformNode(path, fs[i]);
        NodesForSnoc(path, fs, |old(created)|, maxCard, i);
        DictsSnoc(nodes, child);
        nodes := nodes + [child];
      }
      assert fs[..|fs|] == fs;
    }

    /** The tree of a prototype, all of its dictionary transforms registered under different ids. */
    method NewTransformTreeFrom(fields: seq<Field>) returns (root: Node)
      requires Valid() && created == []
      modifies this
      ensures root == TreeFor(fields, maxCard)
      ensures Registers(dictNodes, Dicts(root))
      ensures |root.children| == |fields| && root.transforms == []
      ensures forall i :: 0 <= i < |fields| ==> Fresh(fields[i].name, fields[i], root.children[i], maxCard)
      ensures Registered(root, dictNodes) && |dictNodes| == DictCounts(fields)
    {
      var nodes := NewTransformNodes("", fields);
      root := Node("", [], nodes);
      assert DictsIn([]) == [];
      assert Dicts(root) == created;
      TreeRegistered(root, dictNodes);
      FieldsAreFresh(fields, maxCard);
    }
  }

  lemma {:induction false} DictsInAppend(ts: seq<Transform>, us: seq<Transform>)
    ensures DictsIn(ts + us) == DictsIn(ts) + DictsIn(us)
  {
    if ts == [] {
      assert ts + us == us;
    } else {
      DictsInAppend(ts[1..], us);
      assert (ts + us)[1..] == ts[1..] + us;
      Regroup(if ts[0].Dict? then [ts[0]] else [], DictsIn(ts[1..]), DictsIn(us));
    }
  }
}
