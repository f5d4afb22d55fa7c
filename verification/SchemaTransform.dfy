/** Building a schema from its prototype and a transform tree: which fields exist. */
module SchemaTransform {
  import opened Wrappers
  import opened Selections

  datatype Entry = Entry(key: string, value: string)

  datatype Field = Field(name: string, typ: Type, nullable: bool, metadata: seq<Entry>)

  datatype Type =
    | Leaf(kind: string)
    | Dictionary(width: nat, value: Type)
    | Struct(fields: seq<Field>)
    | List(elem: Field)
    | Union(sparse: bool, fields: seq<Field>, codes: seq<int>)
    | Map(key: Field, item: Field)

  /** A dictionary transform has an index width, or none once the dictionary is given up. */
  datatype Transform = NoField | Identity | Dict(id: string, path: string, width: Option<nat>)

  datatype Node = Node(name: string, transforms: seq<Transform>, children: seq<Node>)

  /** One way down: into a struct field, a list, a union branch with its type code, or half of a map. */
  datatype Step = Named(name: string) | Elem | Branch(name: string, code: int) | Key | Item

  // ---------------------------------------------------------------- Types and their members

  function Members(t: Type): seq<Field> {
    match t
    case Leaf(_) => []
    case Dictionary(_, _) => []
    case Struct(fs) => fs
    case List(e) => [e]
    case Union(_, fs, _) => fs
    case Map(k, v) => [k, v]
  }

  function CodeAt(codes: seq<int>, i: nat): int {
    if i < |codes| then codes[i] else 0
  }

  function StepOf(t: Type, i: nat): Step
    requires i < |Members(t)|
  {
    match t
    case List(_) => Elem
    case Union(_, fs, codes) => Branch(fs[i].name, CodeAt(codes, i))
    case Map(_, _) => if i == 0 then Key else Item
    case _ => Named(Members(t)[i].name)
  }

  function TypeSize(t: Type): nat {
    match t
    case Leaf(_) => 0
    case Dictionary(_, v) => 1 + TypeSize(v)
    case Struct(fs) => 1 + FieldsSize(fs)
    case List(e) => 2 + TypeSize(e.typ)
    case Union(_, fs, _) => 1 + FieldsSize(fs)
    case Map(k, v) => 3 + TypeSize(k.typ) + TypeSize(v.typ)
  }

  function FieldsSize(fs: seq<Field>): nat {
    if fs == [] then 0
    else
      var f := fs[0];
      assert f.typ < f;
      1 + TypeSize(f.typ) + FieldsSize(fs[1..])
  }

  lemma {:induction false} ElementSmaller(fs: seq<Field>, i: nat)
    requires i < |fs|
    ensures TypeSize(fs[i].typ) < FieldsSize(fs)
  {
    if i > 0 {
      ElementSmaller(fs[1..], i - 1);
    }
  }

  lemma MembersSmaller(t: Type)
    ensures FieldsSize(Members(t)) <= TypeSize(t)
    ensures Members(t) != [] ==> FieldsSize(Members(t)) < TypeSize(t)
    ensures forall i :: 0 <= i < |Members(t)| ==> TypeSize(Members(t)[i].typ) < TypeSize(t)
  {
    match t {
      case List(e) =>
        assert Members(t)[1..] == [];
        assert FieldsSize(Members(t)) == 1 + TypeSize(e.typ) + FieldsSize([]);
      case Map(k, v) =>
        assert Members(t)[1..] == [v] && [v][1..] == [];
        assert FieldsSize([v]) == 1 + TypeSize(v.typ) + FieldsSize([]);
        assert FieldsSize(Members(t)) == 1 + TypeSize(k.typ) + FieldsSize([v]);
      case _ =>
    }
    forall i | 0 <= i < |Members(t)| ensures TypeSize(Members(t)[i].typ) < TypeSize(t) {
      ElementSmaller(Members(t), i);
    }
  }

  /** A path of steps that a type offers. */
  ghost predicate HasPath(t: Type, p: seq<Step>)
    decreases |p|
  {
    p == [] || exists i :: 0 <= i < |Members(t)| && LeadsTo(t, i, p)
  }

  ghost predicate LeadsTo(t: Type, i: nat, p: seq<Step>)
    requires i < |Members(t)| && p != []
    decreases |p|, 0
  {
    StepOf(t, i) == p[0] && HasPath(Members(t)[i].typ, p[1..])
  }

  // ---------------------------------------------------------------- Transforming one field

  function Apply(tr: Transform, f: Field): Option<Field> {
    match tr
    case NoField => None
    case Identity => Some(f)
    case Dict(id, _, width) =>
      var base := Undictionaried(f.typ);
      if width.None? then Some(f.(typ := base))
      else Some(f.(typ := Dictionary(width.value, base), metadata := f.metadata + [Entry("dictId", id)]))
  }

  function ApplyAll(ts: seq<Transform>, f: Field): Option<Field> {
    if ts == [] then Some(f)
    else
      var g := Apply(ts[0], f);
      if g.None? then None else ApplyAll(ts[1..], g.value)
  }

  predicate IsMarker(key: string) {
    key == "#optional" || key == "#dictionary"
  }

  function CleanMetadata(m: seq<Entry>): seq<Entry> {
    if m == [] then []
    else (if IsMarker(m[0].key) then [] else [m[0]]) + CleanMetadata(m[1..])
  }

  /** What becomes of a prototype field: the original may also panic on it. */
  datatype Outcome = Panics | Removed | Kept(field: Field)

  function Collect(outs: seq<Outcome>): seq<Field> {
    if outs == [] then []
    else (if outs[0].Kept? then [outs[0].field] else []) + Collect(outs[1..])
  }

  function CollectCodes(outs: seq<Outcome>, codes: seq<int>): seq<int>
    requires |outs| == |codes|
  {
    if outs == [] then []
    else (if outs[0].Kept? then [codes[0]] else []) + CollectCodes(outs[1..], codes[1..])
  }

  function Pad(codes: seq<int>, n: nat): (r: seq<int>)
    ensures |r| == n
  {
    seq(n, i requires 0 <= i < n => CodeAt(codes, i))
  }

  predicate AnyPanics(outs: seq<Outcome>) {
    exists i :: 0 <= i < |outs| && outs[i].Panics?
  }

  /** A kept branch whose type code is missing. */
  predicate CodeMissing(outs: seq<Outcome>, codes: seq<int>) {
    exists i :: |codes| <= i < |outs| && outs[i].Kept?
  }

  /** The type around the outcomes of its members, with the names the list and map types give theirs. */
  function Rebuild(t: Type, outs: seq<Outcome>): Option<Type>
    requires |outs| == |Members(t)| && !AnyPanics(outs)
    requires t.List? ==> outs[0].Kept?
  {
    match t
    case Struct(_) => Some(Struct(Collect(outs)))
    case List(_) => Some(List(Field("item", outs[0].field.typ, true, [])))
    case Union(sparse, _, codes) => Some(Union(sparse, Collect(outs), CollectCodes(outs, Pad(codes, |outs|))))
    case Map(_, _) =>
      if outs[0].Kept? && outs[1].Kept?
      then Some(Map(Field("key", outs[0].field.typ, false, outs[0].field.metadata),
                    Field("value", outs[1].field.typ, true, outs[1].field.metadata)))
      else None
    case _ => Some(t)
  }

  function Outcomes(fs: seq<Field>, nodes: seq<Node>): (outs: seq<Outcome>)
    requires |fs| <= |nodes|
    ensures |outs| == |fs|
    decreases nodes, 1
  {
    seq(|fs|, i requires 0 <= i < |fs| => FieldOutcome(fs[i], nodes[i]))
  }

  function FieldOutcome(f: Field, node: Node): Outcome
    decreases node, 0
  {
    var g := ApplyAll(node.transforms, f);
    if g.None? then Removed
    else
      var t := g.value.typ;
      if |node.children| < |Members(t)| then Panics
      else
        var outs := Outcomes(Members(t), node.children);
        if AnyPanics(outs) || (t.List? && outs[0].Removed?) || (t.Union? && CodeMissing(outs, t.codes)) then Panics
        else
          var r := Rebuild(t, outs);
          if r.None? then Removed
          else Kept(Field(g.value.name, r.value, g.value.nullable, CleanMetadata(g.value.metadata)))
  }

  // ---------------------------------------------------------------- Which fields exist

  /** The type without its outermost dictionary. */
  function Undictionaried(t: Type): Type {
    if t.Dictionary? then t.value else t
  }

  function TypeStep(tr: Transform, t: Type): Type {
    match tr
    case Dict(_, _, None) => Undictionaried(t)
    case Dict(_, _, Some(width)) => Dictionary(width, Undictionaried(t))
    case _ => t
  }

  /** The type a field has after the transforms of its node, were none of them a NoField. */
  function TypeAfter(ts: seq<Transform>, t: Type): Type {
    if ts == [] then t else TypeAfter(ts[1..], TypeStep(ts[0], t))
  }

  /** No NoField on the node and, for a map, neither on its key nor on its item. */
  predicate Lives(t: Type, node: Node)
    decreases node
  {
    var u := TypeAfter(node.transforms, t);
    && NoField !in node.transforms
    && (u.Map? && |node.children| >= 2 ==> Lives(u.key.typ, node.children[0]) && Lives(u.item.typ, node.children[1]))
  }

  /** A path of the prototype with a living node at every step. */
  ghost predicate Reaches(t: Type, node: Node, p: seq<Step>)
    decreases |p|, 2
  {
    p == [] || SomeLeads(TypeAfter(node.transforms, t), node, p)
  }

  ghost predicate SomeLeads(u: Type, node: Node, p: seq<Step>)
    requires p != []
    decreases |p|, 1
  {
    exists i :: 0 <= i < |Members(u)| && LeadsLiving(u, node, i, p)
  }

  ghost predicate LeadsLiving(u: Type, node: Node, i: nat, p: seq<Step>)
    requires i < |Members(u)| && p != []
    decreases |p|, 0
  {
    && StepOf(u, i) == p[0] && i < |node.children|
    && Lives(Members(u)[i].typ, node.children[i]) && Reaches(Members(u)[i].typ, node.children[i], p[1..])
  }

  lemma {:induction false} ApplyAllMeaning(ts: seq<Transform>, f: Field)
    ensures ApplyAll(ts, f).None? <==> NoField in ts
    ensures ApplyAll(ts, f).Some? ==>
              var g := ApplyAll(ts, f).value;
              g.name == f.name && g.nullable == f.nullable && g.typ == TypeAfter(ts, f.typ)
  {
    if ts != [] {
      var g := Apply(ts[0], f);
      if g.Some? {
        ApplyAllMeaning(ts[1..], g.value);
      }
    }
  }

  /** A member of the rebuilt type for each kept member, reached by the same step, and no others. */
  ghost predicate Answers(v: Type, j: nat, step: Step, t: Type) {
    j < |Members(v)| && StepOf(v, j) == step && Members(v)[j].typ == t
  }

  ghost predicate HasMember(v: Type, step: Step, t: Type) {
    exists j: nat :: Answers(v, j, step, t)
  }

  ghost predicate ComesFrom(u: Type, outs: seq<Outcome>, v: Type, j: nat)
    requires |outs| == |Members(u)|
  {
    j < |Members(v)| && exists i :: 0 <= i < |outs| && outs[i].Kept? && Answers(v, j, StepOf(u, i), outs[i].field.typ)
  }

  /** Index of the k-th member within the kept ones. */
  function Rank(outs: seq<Outcome>, k: nat): nat
    requires k <= |outs|
  {
    if k == 0 then 0 else (if outs[0].Kept? then 1 else 0) + Rank(outs[1..], k - 1)
  }

  lemma {:induction false} CollectForward(outs: seq<Outcome>, codes: seq<int>, i: nat)
    requires |outs| == |codes| && i < |outs| && outs[i].Kept?
    ensures var j := Rank(outs, i);
            && |CollectCodes(outs, codes)| == |Collect(outs)|
            && j < |Collect(outs)| && Collect(outs)[j] == outs[i].field && CollectCodes(outs, codes)[j] == codes[i]
  {
    CollectLengths(outs, codes);
    if i > 0 {
      CollectForward(outs[1..], codes[1..], i - 1);
    }
  }

  lemma {:induction false} CollectLengths(outs: seq<Outcome>, codes: seq<int>)
    requires |outs| == |codes|
    ensures |CollectCodes(outs, codes)| == |Collect(outs)|
  {
    if outs != [] {
      CollectLengths(outs[1..], codes[1..]);
    }
  }

  lemma {:induction false} CollectBack(outs: seq<Outcome>, codes: seq<int>, j: nat) returns (i: nat)
    requires |outs| == |codes| && j < |Collect(outs)|
    ensures |CollectCodes(outs, codes)| == |Collect(outs)|
    ensures i < |outs| && outs[i].Kept? && Collect(outs)[j] == outs[i].field && CollectCodes(outs, codes)[j] == codes[i]
  {
    CollectLengths(outs, codes);
    if outs[0].Kept? && j == 0 {
      i := 0;
    } else {
      var k := CollectBack(outs[1..], codes[1..], if outs[0].Kept? then j - 1 else j);
      i := k + 1;
    }
  }

  predicate NamesKept(fs: seq<Field>, outs: seq<Outcome>) {
    |outs| == |fs| && forall i :: 0 <= i < |fs| && outs[i].Kept? ==> outs[i].field.name == fs[i].name
  }

  lemma RebuiltForward(u: Type, outs: seq<Outcome>, i: nat)
    requires NamesKept(Members(u), outs) && !AnyPanics(outs) && (u.List? ==> outs[0].Kept?)
    requires u.Union? ==> !CodeMissing(outs, u.codes)
    requires Rebuild(u, outs).Some? && i < |outs| && outs[i].Kept?
    ensures HasMember(Rebuild(u, outs).value, StepOf(u, i), outs[i].field.typ)
  {
    var v := Rebuild(u, outs).value;
    match u
    case Struct(_) =>
      CollectForward(outs, Pad([], |outs|), i);
      assert Answers(v, Rank(outs, i), StepOf(u, i), outs[i].field.typ);
    case Union(_, _, codes) =>
      CollectForward(outs, Pad(codes, |outs|), i);
      assert Answers(v, Rank(outs, i), StepOf(u, i), outs[i].field.typ);
    case List(_) =>
      assert Answers(v, i, StepOf(u, i), outs[i].field.typ);
    case Map(_, _) =>
      assert Answers(v, i, StepOf(u, i), outs[i].field.typ);
    case _ =>
  }

  lemma RebuiltBack(u: Type, outs: seq<Outcome>, j: nat)
    requires NamesKept(Members(u), outs) && !AnyPanics(outs) && (u.List? ==> outs[0].Kept?)
    requires u.Union? ==> !CodeMissing(outs, u.codes)
    requires Rebuild(u, outs).Some? && j < |Members(Rebuild(u, outs).value)|
    ensures ComesFrom(u, outs, Rebuild(u, outs).value, j)
  {
    var v := Rebuild(u, outs).value;
    match u
    case Struct(_) =>
      var i := CollectBack(outs, Pad([], |outs|), j);
      assert Answers(v, j, StepOf(u, i), outs[i].field.typ);
    case Union(_, _, codes) =>
      var i := CollectBack(outs, Pad(codes, |outs|), j);
      assert Answers(v, j, StepOf(u, i), outs[i].field.typ);
    case List(_) =>
      assert Answers(v, j, StepOf(u, j), outs[j].field.typ);
    case Map(_, _) =>
      assert Answers(v, j, StepOf(u, j), outs[j].field.typ);
    case _ =>
  }

  /** A field is kept exactly when its node lives. */
  lemma {:induction false} KeptIffLives(f: Field, node: Node)
    requires !FieldOutcome(f, node).Panics?
    ensures FieldOutcome(f, node).Kept? <==> Lives(f.typ, node)
    ensures FieldOutcome(f, node).Kept? ==> FieldOutcome(f, node).field.name == f.name
    decreases node
  {
    ApplyAllMeaning(node.transforms, f);
    var u := TypeAfter(node.transforms, f.typ);
    if NoField !in node.transforms && u.Map? {
      var outs := Outcomes(Members(u), node.children);
      assert !outs[0].Panics? && !outs[1].Panics?;
      KeptIffLives(u.key, node.children[0]);
      KeptIffLives(u.item, node.children[1]);
    }
  }

  /** A list that exists is built without panic exactly when its element exists. */
  lemma ListPanicsIff(f: Field, node: Node)
    requires TypeAfter(node.transforms, f.typ).List? && NoField !in node.transforms && node.children != []
    requires !FieldOutcome(TypeAfter(node.transforms, f.typ).elem, node.children[0]).Panics?
    ensures FieldOutcome(f, node).Panics? <==> !Lives(TypeAfter(node.transforms, f.typ).elem.typ, node.children[0])
  {
    ApplyAllMeaning(node.transforms, f);
    var u := TypeAfter(node.transforms, f.typ);
    var outs := Outcomes(Members(u), node.children);
    KeptIffLives(u.elem, node.children[0]);
    assert outs == [FieldOutcome(u.elem, node.children[0])];
  }

  /** What is known about the outcome of one member, for paths continuing with q. */
  ghost predicate MemberSettled(f: Field, node: Node, out: Outcome, q: seq<Step>) {
    && (out.Kept? <==> Lives(f.typ, node))
    && (out.Kept? ==> out.field.name == f.name)
    && (out.Kept? ==> (HasPath(out.field.typ, q) <==> Reaches(f.typ, node, q)))
  }

  ghost predicate AllSettled(fs: seq<Field>, nodes: seq<Node>, outs: seq<Outcome>, q: seq<Step>) {
    |outs| == |fs| <= |nodes| && forall i :: 0 <= i < |fs| ==> MemberSettled(fs[i], nodes[i], outs[i], q)
  }

  lemma {:induction false} MembersSettle(fs: seq<Field>, nodes: seq<Node>, q: seq<Step>)
    requires |fs| <= |nodes| && !AnyPanics(Outcomes(fs, nodes))
    ensures AllSettled(fs, nodes, Outcomes(fs, nodes), q)
    decreases |q|, 1
  {
    var outs := Outcomes(fs, nodes);
    forall i | 0 <= i < |fs| ensures MemberSettled(fs[i], nodes[i], outs[i], q) {
      assert outs[i] == FieldOutcome(fs[i], nodes[i]) && !outs[i].Panics?;
      KeptIffLives(fs[i], nodes[i]);
      if outs[i].Kept? {
        PathsIff(fs[i], nodes[i], q);
      }
    }
  }

  /** The paths of a kept field are exactly the prototype's paths that are alive at every step. */
  lemma {:induction false} PathsIff(f: Field, node: Node, p: seq<Step>)
    requires FieldOutcome(f, node).Kept?
    ensures HasPath(FieldOutcome(f, node).field.typ, p) <==> Reaches(f.typ, node, p)
    decreases |p|, 0
  {
    if p != [] {
      ApplyAllMeaning(node.transforms, f);
      var u := TypeAfter(node.transforms, f.typ);
      var outs := Outcomes(Members(u), node.children);
      MembersSettle(Members(u), node.children, p[1..]);
      var v := Rebuild(u, outs).value;
      assert FieldOutcome(f, node).field.typ == v;
      assert Reaches(f.typ, node, p) <==> SomeLeads(u, node, p);
      hide FieldOutcome, Rebuild, ApplyAll, TypeAfter, AnyPanics, CodeMissing, Outcomes, Lives;
      PathsOverMembers(u, node, outs, v, p);
    }
  }

  lemma PathsOverMembers(u: Type, node: Node, outs: seq<Outcome>, v: Type, p: seq<Step>)
    requires p != [] && AllSettled(Members(u), node.children, outs, p[1..])
    requires !AnyPanics(outs) && (u.List? ==> outs[0].Kept?) && (u.Union? ==> !CodeMissing(outs, u.codes))
    requires Rebuild(u, outs) == Some(v)
    ensures HasPath(v, p) <==> SomeLeads(u, node, p)
  {
    hide Rebuild, AnyPanics, CodeMissing, Lives, Members, StepOf;
    assert NamesKept(Members(u), outs);
    assert HasPath(v, p) <==> exists j :: 0 <= j < |Members(v)| && LeadsTo(v, j, p);
    if HasPath(v, p) {
      var j :| 0 <= j < |Members(v)| && LeadsTo(v, j, p);
      RebuiltBack(u, outs, j);
      var i :| 0 <= i < |outs| && outs[i].Kept? && Answers(v, j, StepOf(u, i), outs[i].field.typ);
      assert MemberSettled(Members(u)[i], node.children[i], outs[i], p[1..]);
      assert LeadsLiving(u, node, i, p);
    }
    if i :| 0 <= i < |Members(u)| && LeadsLiving(u, node, i, p) {
      assert MemberSettled(Members(u)[i], node.children[i], outs[i], p[1..]);
      RebuiltForward(u, outs, i);
      var j :| Answers(v, j, StepOf(u, i), outs[i].field.typ);
      assert LeadsTo(v, j, p);
    }
  }

  // ---------------------------------------------------------------- What a kept field is

  /** The last dictionary transform decides: its width around the bare type, or the bare type alone. */
  lemma {:induction false} LastDictionaryDecides(a: seq<Transform>, d: Transform, b: seq<Transform>, t: Type)
    requires d.Dict? && forall i :: 0 <= i < |b| ==> !b[i].Dict?
    ensures TypeAfter(a + [d] + b, t) ==
            if d.width.None? then Undictionaried(TypeAfter(a, t))
            else Dictionary(d.width.value, Undictionaried(TypeAfter(a, t)))
    ensures !Undictionaried(t).Dictionary? ==> Undictionaried(TypeAfter(a, t)) == Undictionaried(t)
  {
    if a == [] {
      assert (a + [d] + b)[0] == d && (a + [d] + b)[1..] == b;
      NoDictionaryNoChange(b, TypeStep(d, t));
    } else {
      assert (a + [d] + b)[0] == a[0] && (a + [d] + b)[1..] == a[1..] + [d] + b;
      LastDictionaryDecides(a[1..], d, b, TypeStep(a[0], t));
    }
  }

  /** Without a dictionary transform the type stays. */
  lemma {:induction false} NoDictionaryNoChange(ts: seq<Transform>, t: Type)
    requires forall i :: 0 <= i < |ts| ==> !ts[i].Dict?
    ensures TypeAfter(ts, t) == t
  {
    if ts != [] {
      NoDictionaryNoChange(ts[1..], t);
    }
  }

  /** The entries there could be, the prototype's and one for each transform, and which of them there are. */
  function Offered(m: seq<Entry>, ts: seq<Transform>): seq<Entry> {
    m + seq(|ts|, i requires 0 <= i < |ts| => Entry("dictId", if ts[i].Dict? then ts[i].id else ""))
  }

  function Stays(m: seq<Entry>, ts: seq<Transform>): seq<bool> {
    seq(|m|, i requires 0 <= i < |m| => m[i].key != "#optional" && m[i].key != "#dictionary") +
    seq(|ts|, i requires 0 <= i < |ts| => ts[i].Dict? && ts[i].width.Some?)
  }

  /** The prototype's entries but the two markers, then the id of every dictionary that was applied. */
  ghost predicate MetadataIs(r: seq<Entry>, m: seq<Entry>, ts: seq<Transform>) {
    Selects(r, Offered(m, ts), Stays(m, ts))
  }

  /** Which members live. */
  function Alive(fs: seq<Field>, nodes: seq<Node>): seq<bool>
    requires |fs| <= |nodes|
  {
    seq(|fs|, i requires 0 <= i < |fs| => Lives(fs[i].typ, nodes[i]))
  }

  /** The name and nullability of the prototype, its metadata as transformed, and the type built from its type. */
  ghost predicate FieldBuilt(f: Field, node: Node, g: Field)
    decreases node, 1
  {
    && g.name == f.name && g.nullable == f.nullable && MetadataIs(g.metadata, f.metadata, node.transforms)
    && TypeBuilt(TypeAfter(node.transforms, f.typ), node, g.typ)
  }

  /** The living members, in order, each built from its own prototype and node. */
  ghost predicate MembersBuilt(fs: seq<Field>, nodes: seq<Node>, gs: seq<Field>)
    decreases nodes, 2
  {
    && |fs| <= |nodes| && |gs| == |Chosen(Alive(fs, nodes), |fs|)|
    && forall i :: 0 <= i < |fs| && Alive(fs, nodes)[i] ==>
         var j := |Chosen(Alive(fs, nodes), i)|;
         j < |gs| && FieldBuilt(fs[i], nodes[i], gs[j])
  }

  /** A branch keeps its code. */
  ghost predicate CodesKept(fs: seq<Field>, nodes: seq<Node>, codes: seq<int>, r: seq<int>) {
    && |fs| <= |nodes| && |r| == |Chosen(Alive(fs, nodes), |fs|)|
    && forall i :: 0 <= i < |fs| && Alive(fs, nodes)[i] ==>
         var j := |Chosen(Alive(fs, nodes), i)|;
         j < |r| && i < |codes| && r[j] == codes[i]
  }

  /** What the type u becomes under the children of a node. */
  ghost predicate TypeBuilt(u: Type, node: Node, v: Type)
    decreases node, 0
  {
    var nodes := node.children;
    match u
    case Leaf(kind) => v == Leaf(kind)
    case Dictionary(width, value) => v == Dictionary(width, value)
    case Struct(fs) => v.Struct? && MembersBuilt(fs, nodes, v.fields)
    case Union(sparse, fs, codes) =>
      && v.Union? && v.sparse == sparse
      && MembersBuilt(fs, nodes, v.fields) && CodesKept(fs, nodes, codes, v.codes)
    case List(e) =>
      && v.List? && v.elem.name == "item" && v.elem.nullable && v.elem.metadata == []
      && nodes != [] && Lives(e.typ, nodes[0])
      && TypeBuilt(TypeAfter(nodes[0].transforms, e.typ), nodes[0], v.elem.typ)
    case Map(k, e) =>
      && v.Map? && |nodes| >= 2 && Lives(k.typ, nodes[0]) && Lives(e.typ, nodes[1])
      && v.key.name == "key" && !v.key.nullable && MetadataIs(v.key.metadata, k.metadata, nodes[0].transforms)
      && v.item.name == "value" && v.item.nullable && MetadataIs(v.item.metadata, e.metadata, nodes[1].transforms)
      && TypeBuilt(TypeAfter(nodes[0].transforms, k.typ), nodes[0], v.key.typ)
      && TypeBuilt(TypeAfter(nodes[1].transforms, e.typ), nodes[1], v.item.typ)
  }

  function Keeps(outs: seq<Outcome>): seq<bool> {
    seq(|outs|, i requires 0 <= i < |outs| => outs[i].Kept?)
  }

  function FieldOf(out: Outcome): Field {
    if out.Kept? then out.field else Field("", Leaf(""), false, [])
  }

  function FieldsOf(outs: seq<Outcome>): seq<Field> {
    seq(|outs|, i requires 0 <= i < |outs| => FieldOf(outs[i]))
  }

  lemma {:induction false} CollectSelects(outs: seq<Outcome>, codes: seq<int>)
    requires |outs| == |codes|
    ensures Selects(Collect(outs), FieldsOf(outs), Keeps(outs))
    ensures Selects(CollectCodes(outs, codes), codes, Keeps(outs))
  {
    hide Selects;
    if outs == [] {
      SelectsNothing<Field>();
      SelectsNothing<int>();
      assert FieldsOf(outs) == [] && Keeps(outs) == [] && codes == [];
    } else {
      CollectSelects(outs[1..], codes[1..]);
      SelectsCons(FieldOf(outs[0]), outs[0].Kept?, Collect(outs[1..]), FieldsOf(outs[1..]), Keeps(outs[1..]));
      SelectsCons(codes[0], outs[0].Kept?, CollectCodes(outs[1..], codes[1..]), codes[1..], Keeps(outs[1..]));
      assert FieldsOf(outs) == [FieldOf(outs[0])] + FieldsOf(outs[1..]);
      assert Keeps(outs) == [outs[0].Kept?] + Keeps(outs[1..]) && codes == [codes[0]] + codes[1..];
    }
  }

  /** The ids of the dictionaries applied. */
  function Ids(ts: seq<Transform>): seq<Entry> {
    if ts == [] then []
    else (if ts[0].Dict? && ts[0].width.Some? then [Entry("dictId", ts[0].id)] else []) + Ids(ts[1..])
  }

  lemma {:induction false} ApplyAllMetadata(ts: seq<Transform>, f: Field)
    requires ApplyAll(ts, f).Some?
    ensures ApplyAll(ts, f).value.metadata == f.metadata + Ids(ts)
  {
    if ts != [] {
      var g := Apply(ts[0], f).value;
      ApplyAllMetadata(ts[1..], g);
      var own := if ts[0].Dict? && ts[0].width.Some? then [Entry("dictId", ts[0].id)] else [];
      assert g.metadata == f.metadata + own;
      Regroup(f.metadata, own, Ids(ts[1..]));
    }
  }

  lemma {:induction false} IdsSelected(ts: seq<Transform>)
    ensures Selects(Ids(ts), Offered([], ts), Stays([], ts))
  {
    hide Selects;
    if ts == [] {
      SelectsNothing<Entry>();
      assert Offered([], ts) == [] && Stays([], ts) == [];
    } else {
      IdsSelected(ts[1..]);
      var e := Entry("dictId", if ts[0].Dict? then ts[0].id else "");
      SelectsCons(e, ts[0].Dict? && ts[0].width.Some?, Ids(ts[1..]), Offered([], ts[1..]), Stays([], ts[1..]));
      assert Offered([], ts) == [e] + Offered([], ts[1..]);
      assert Stays([], ts) == [ts[0].Dict? && ts[0].width.Some?] + Stays([], ts[1..]);
    }
  }

  /** Cleaning keeps everything but the two markers, in order. */
  lemma {:induction false} CleanSelects(m: seq<Entry>)
    ensures MetadataIs(CleanMetadata(m), m, [])
  {
    hide Selects;
    if m == [] {
      SelectsNothing<Entry>();
      assert Offered(m, []) == [] && Stays(m, []) == [];
    } else {
      CleanSelects(m[1..]);
      SelectsCons(m[0], !IsMarker(m[0].key), CleanMetadata(m[1..]), Offered(m[1..], []), Stays(m[1..], []));
      assert Offered(m, []) == [m[0]] + Offered(m[1..], []);
      assert Stays(m, []) == [!IsMarker(m[0].key)] + Stays(m[1..], []);
    }
  }

  lemma {:induction false} CleanWithIds(m: seq<Entry>, ts: seq<Transform>)
    ensures CleanMetadata(m + Ids(ts)) == CleanMetadata(m) + Ids(ts)
  {
    if m != [] {
      assert (m + Ids(ts))[0] == m[0] && (m + Ids(ts))[1..] == m[1..] + Ids(ts);
      CleanWithIds(m[1..], ts);
      Regroup(if IsMarker(m[0].key) then [] else [m[0]], CleanMetadata(m[1..]), Ids(ts));
    } else {
      assert m + Ids(ts) == Ids(ts);
      IdsAreNoMarkers(ts);
    }
  }

  lemma {:induction false} IdsAreNoMarkers(ts: seq<Transform>)
    ensures CleanMetadata(Ids(ts)) == Ids(ts)
  {
    if ts != [] {
      IdsAreNoMarkers(ts[1..]);
      if ts[0].Dict? && ts[0].width.Some? {
        assert Ids(ts)[0].key == "dictId" && Ids(ts)[1..] == Ids(ts[1..]);
      } else {
        assert Ids(ts) == Ids(ts[1..]);
      }
    }
  }

  /** The metadata of a kept field. */
  lemma MetadataMeaning(ts: seq<Transform>, f: Field)
    requires ApplyAll(ts, f).Some?
    ensures MetadataIs(CleanMetadata(ApplyAll(ts, f).value.metadata), f.metadata, ts)
  {
    hide Selects;
    var m := f.metadata;
    ApplyAllMetadata(ts, f);
    CleanWithIds(m, ts);
    CleanSelects(m);
    IdsSelected(ts);
    SelectsAppend(CleanMetadata(m), Offered(m, []), Stays(m, []), Ids(ts), Offered([], ts), Stays([], ts));
    assert Offered(m, ts) == Offered(m, []) + Offered([], ts) && Stays(m, ts) == Stays(m, []) + Stays([], ts);
  }

  /** Whatever is kept is built: its type, name, nullability and metadata, and those of every field in it. */
  lemma {:induction false} KeptIsBuilt(f: Field, node: Node)
    requires FieldOutcome(f, node).Kept?
    ensures FieldBuilt(f, node, FieldOutcome(f, node).field)
    decreases node, 0
  {
    ApplyAllMeaning(node.transforms, f);
    MetadataMeaning(node.transforms, f);
    var u := TypeAfter(node.transforms, f.typ);
    var outs := Outcomes(Members(u), node.children);
    if !u.Leaf? && !u.Dictionary? {
      MembersAreBuilt(Members(u), node.children, if u.Union? then u.codes else Pad([], |outs|));
    }
    var v := Rebuild(u, outs).value;
    assert FieldOutcome(f, node).field == Field(f.name, v, f.nullable, FieldOutcome(f, node).field.metadata);
    if u.List? {
      assert outs[0] == FieldOutcome(u.elem, node.children[0]);
      KeptIsBuilt(u.elem, node.children[0]);
      KeptIffLives(u.elem, node.children[0]);
    } else if u.Map? {
      assert outs[0] == FieldOutcome(u.key, node.children[0]) && outs[1] == FieldOutcome(u.item, node.children[1]);
      KeptIsBuilt(u.key, node.children[0]);
      KeptIsBuilt(u.item, node.children[1]);
      KeptIffLives(u.key, node.children[0]);
      KeptIffLives(u.item, node.children[1]);
    }
    assert TypeBuilt(u, node, v);
  }

  lemma {:induction false} MembersAreBuilt(fs: seq<Field>, nodes: seq<Node>, codes: seq<int>)
    requires |fs| <= |nodes| && !AnyPanics(Outcomes(fs, nodes))
    ensures MembersBuilt(fs, nodes, Collect(Outcomes(fs, nodes)))
    ensures !CodeMissing(Outcomes(fs, nodes), codes) ==>
              CodesKept(fs, nodes, codes, CollectCodes(Outcomes(fs, nodes), Pad(codes, |fs|)))
    decreases nodes, 1
  {
    var outs := Outcomes(fs, nodes);
    forall i | 0 <= i < |fs|
      ensures outs[i] == FieldOutcome(fs[i], nodes[i]) && (outs[i].Kept? <==> Lives(fs[i].typ, nodes[i]))
      ensures outs[i].Kept? ==> FieldBuilt(fs[i], nodes[i], outs[i].field)
    {
      assert !outs[i].Panics?;
      KeptIffLives(fs[i], nodes[i]);
      if outs[i].Kept? {
        KeptIsBuilt(fs[i], nodes[i]);
      }
    }
    assert Keeps(outs) == Alive(fs, nodes);
    CollectSelects(outs, Pad(codes, |fs|));
  }

  /** Nothing else could be built: what a field becomes is determined. */
  lemma {:induction false} BuiltOnce(f: Field, node: Node, g: Field, h: Field)
    requires FieldBuilt(f, node, g) && FieldBuilt(f, node, h)
    ensures g == h
    decreases node, 1
  {
    hide Selects, TypeBuilt;
    TypeBuiltOnce(TypeAfter(node.transforms, f.typ), node, g.typ, h.typ);
    SelectsOne(g.metadata, h.metadata, Offered(f.metadata, node.transforms), Stays(f.metadata, node.transforms));
  }

  lemma {:induction false} TypeBuiltOnce(u: Type, node: Node, v: Type, w: Type)
    requires TypeBuilt(u, node, v) && TypeBuilt(u, node, w)
    ensures v == w
    decreases node, 0
  {
    hide Selects;
    var nodes := node.children;
    match u
    case Struct(fs) =>
      MembersBuiltOnce(fs, nodes, v.fields, w.fields);
    case Union(_, fs, codes) =>
      MembersBuiltOnce(fs, nodes, v.fields, w.fields);
      CodesKeptOnce(fs, nodes, codes, v.codes, w.codes);
    case List(e) =>
      TypeBuiltOnce(TypeAfter(nodes[0].transforms, e.typ), nodes[0], v.elem.typ, w.elem.typ);
    case Map(k, e) =>
      var m, n := nodes[0], nodes[1];
      TypeBuiltOnce(TypeAfter(m.transforms, k.typ), m, v.key.typ, w.key.typ);
      TypeBuiltOnce(TypeAfter(n.transforms, e.typ), n, v.item.typ, w.item.typ);
      SelectsOne(v.key.metadata, w.key.metadata, Offered(k.metadata, m.transforms), Stays(k.metadata, m.transforms));
      SelectsOne(v.item.metadata, w.item.metadata, Offered(e.metadata, n.transforms), Stays(e.metadata, n.transforms));
    case _ =>
  }

  lemma {:induction false} MembersBuiltOnce(fs: seq<Field>, nodes: seq<Node>, gs: seq<Field>, hs: seq<Field>)
    requires MembersBuilt(fs, nodes, gs) && MembersBuilt(fs, nodes, hs)
    ensures gs == hs
    decreases nodes, 2
  {
    var keep := Alive(fs, nodes);
    forall j | 0 <= j < |gs| ensures gs[j] == hs[j] {
      var i := ChosenAs(keep, j);
      BuiltOnce(fs[i], nodes[i], gs[j], hs[j]);
    }
  }

  lemma CodesKeptOnce(fs: seq<Field>, nodes: seq<Node>, codes: seq<int>, r: seq<int>, s: seq<int>)
    requires CodesKept(fs, nodes, codes, r) && CodesKept(fs, nodes, codes, s)
    ensures r == s
  {
    var keep := Alive(fs, nodes);
    forall j | 0 <= j < |r| ensures r[j] == s[j] {
      var i := ChosenAs(keep, j);
    }
  }

  /** Where no panic happens, a field is kept as g exactly when its node lives and g is what it builds. */
  lemma KeptAsIff(f: Field, node: Node, g: Field)
    requires !FieldOutcome(f, node).Panics?
    ensures FieldOutcome(f, node) == Outcome.Kept(g) <==> Lives(f.typ, node) && FieldBuilt(f, node, g)
  {
    KeptIffLives(f, node);
    hide FieldOutcome, FieldBuilt, Lives;
    var out := FieldOutcome(f, node);
    if out.Kept? {
      KeptIsBuilt(f, node);
      if FieldBuilt(f, node, g) {
        BuiltOnce(f, node, g, out.field);
      }
    }
  }

  // ---------------------------------------------------------------- Whole schemas

  /** The fields of the new schema, or None where the original panics. */
  function SchemaOutcome(fields: seq<Field>, root: Node): Option<seq<Field>> {
    if |root.children| < |fields| then None
    else
      var outs := Outcomes(fields, root.children);
      if AnyPanics(outs) then None else Some(Collect(outs))
  }

  lemma SchemaAsField(fields: seq<Field>, root: Node)
    requires root.transforms == []
    ensures var out := FieldOutcome(Field("", Struct(fields), false, []), root);
      && (out.Panics? <==> SchemaOutcome(fields, root).None?)
      && !out.Removed?
      && (out.Kept? ==> out.field.typ == Struct(SchemaOutcome(fields, root).value))
  {
  }

  /** The field paths of the new schema are the prototype's paths with no NoField on them or above them. */
  lemma SchemaPathsIff(fields: seq<Field>, root: Node, p: seq<Step>)
    requires root.transforms == [] && SchemaOutcome(fields, root).Some?
    ensures HasPath(Struct(SchemaOutcome(fields, root).value), p) <==> Reaches(Struct(fields), root, p)
  {
    SchemaAsField(fields, root);
    PathsIff(Field("", Struct(fields), false, []), root, p);
  }

  // ---------------------------------------------------------------- The loops of the original

  lemma {:induction false} CleanSnoc(m: seq<Entry>, e: Entry)
    ensures CleanMetadata(m + [e]) == CleanMetadata(m) + (if IsMarker(e.key) then [] else [e])
  {
    if m == [] {
      assert (m + [e])[1..] == [];
    } else {
      CleanSnoc(m[1..], e);
      assert (m + [e])[1..] == m[1..] + [e];
      Regroup(if IsMarker(m[0].key) then [] else [m[0]], CleanMetadata(m[1..]), if IsMarker(e.key) then [] else [e]);
    }
  }

  /** Cleaning drops the two transformation markers and nothing else. */
  lemma {:induction false} CleanIff(m: seq<Entry>, e: Entry)
    ensures e in CleanMetadata(m) <==> e in m && !IsMarker(e.key)
  {
    if m != [] {
      CleanIff(m[1..], e);
    }
  }

  method CleanedMetadata(m: seq<Entry>) returns (r: seq<Entry>)
    ensures r == CleanMetadata(m)
  {
    r := [];
    for i := 0 to |m|
      invariant r == CleanMetadata(m[..i])
    {
      CleanSnoc(m[..i], m[i]);
      assert m[..i + 1] == m[..i] + [m[i]];
      if !IsMarker(m[i].key) {
        r := r + [m[i]];
      }
    }
    assert m[..|m|] == m;
  }

  lemma {:induction false} CollectSnoc(outs: seq<Outcome>, codes: seq<int>, out: Outcome, code: int)
    requires |outs| == |codes|
    ensures Collect(outs + [out]) == Collect(outs) + (if out.Kept? then [out.field] else [])
    ensures CollectCodes(outs + [out], codes + [code]) == CollectCodes(outs, codes) + (if out.Kept? then [code] else [])
  {
    if outs == [] {
      assert (outs + [out])[1..] == [] && (codes + [code])[1..] == [];
    } else {
      CollectSnoc(outs[1..], codes[1..], out, code);
      assert (outs + [out])[1..] == outs[1..] + [out] && (codes + [code])[1..] == codes[1..] + [code];
      Regroup(if outs[0].Kept? then [outs[0].field] else [], Collect(outs[1..]), if out.Kept? then [out.field] else []);
      Regroup(if outs[0].Kept? then [codes[0]] else [], CollectCodes(outs[1..], codes[1..]),
              if out.Kept? then [code] else []);
    }
  }

  /** The fields that are not removed, or None where the original panics. */
  method KeepFields(fs: seq<Field>, nodes: seq<Node>) returns (kept: Option<seq<Field>>)
    ensures |nodes| < |fs| ==> kept.None?
    ensures |fs| <= |nodes| ==>
        kept == if AnyPanics(Outcomes(fs, nodes)) then None else Some(Collect(Outcomes(fs, nodes)))
    decreases nodes, 0
  {
    var newFields := [];
    ghost var outs := [];
    for i := 0 to |fs|
      invariant i <= |nodes| && |outs| == i && !AnyPanics(outs)
      invariant |fs| <= |nodes| ==> outs == Outcomes(fs, nodes)[..i]
      invariant newFields == Collect(outs)
    {
      if i >= |nodes| {
        return None;
      }
      var out := NewFieldFrom(fs[i], nodes[i]);
      assert |fs| <= |nodes| ==> Outcomes(fs, nodes)[i] == out;
      if out.Panics? {
        return None;
      }
      CollectSnoc(outs, Pad([], |outs|), out, 0);
      outs := outs + [out];
      if out.Kept? {
        newFields := newFields + [out.field];
      }
    }
    assert |fs| <= |nodes| ==> outs == Outcomes(fs, nodes);
    kept := Some(newFields);
  }

  lemma PadNext(codes: seq<int>, n: nat)
    ensures Pad(codes, n + 1) == Pad(codes, n) + [CodeAt(codes, n)]
  {
  }

  /** As KeepFields, with the type codes of the branches that stay. */
  method KeepBranches(fs: seq<Field>, codes: seq<int>, nodes: seq<Node>) returns (kept: Option<(seq<Field>, seq<int>)>)
    ensures |nodes| < |fs| ==> kept.None?
    ensures |fs| <= |nodes| ==>
              var outs := Outcomes(fs, nodes);
              kept == if AnyPanics(outs) || CodeMissing(outs, codes) then None
                      else Some((Collect(outs), CollectCodes(outs, Pad(codes, |outs|))))
    decreases nodes, 0
  {
    var newFields, newCodes := [], [];
    ghost var outs := [];
    assert Collect(outs) == [] && CollectCodes(outs, Pad(codes, 0)) == [];
    hide FieldOutcome, Collect, CollectCodes, Pad;
    for i := 0 to |fs|
      invariant i <= |nodes| && |outs| == i && !AnyPanics(outs) && !CodeMissing(outs, codes)
      invariant |fs| <= |nodes| ==> outs == Outcomes(fs, nodes)[..i]
      invariant newFields == Collect(outs) && newCodes == CollectCodes(outs, Pad(codes, i))
    {
      if i >= |nodes| {
        return None;
      }
      var out := NewFieldFrom(fs[i], nodes[i]);
      assert |fs| <= |nodes| ==> Outcomes(fs, nodes)[i] == out;
      if out.Panics? || (out.Kept? && i >= |codes|) {
        return None;
      }
      CollectSnoc(outs, Pad(codes, i), out, CodeAt(codes, i));
      PadNext(codes, i);
      outs := outs + [out];
      if out.Kept? {
        newFields, newCodes := newFields + [out.field], newCodes + [codes[i]];
      }
    }
    assert |fs| <= |nodes| ==> outs == Outcomes(fs, nodes);
    kept := Some((newFields, newCodes));
  }

  method NewFieldFrom(prototype: Field, node: Node) returns (out: Outcome)
    ensures out == FieldOutcome(prototype, node)
    ensures out.Kept? ==> FieldBuilt(prototype, node, out.field)
    decreases node, 1
  {
    if FieldOutcome(prototype, node).Kept? {
      KeptIsBuilt(prototype, node);
    }
    hide FieldBuilt;
    var field := prototype;
    for i := 0 to |node.transforms|
      invariant ApplyAll(node.transforms, prototype) == ApplyAll(node.transforms[i..], field)
    {
      var next := Apply(node.transforms[i], field);
      if next.None? {
        return Removed;
      }
      field := next.value;
    }
    var metadata := CleanedMetadata(field.metadata);
    var nodes := node.children;
    match field.typ
    case Struct(fs) =>
      var kept := KeepFields(fs, nodes);
      out := if kept.None? then Panics else Kept(Field(field.name, Struct(kept.value), field.nullable, metadata));
    case Union(sparse, fs, codes) =>
      var kept := KeepBranches(fs, codes, nodes);
      out := if kept.None? then Panics
             else Kept(Field(field.name, Union(sparse, kept.value.0, kept.value.1), field.nullable, metadata));
    case List(elem) =>
      if nodes == [] {
        return Panics;
      }
      var e := NewFieldFrom(elem, nodes[0]);
      assert Outcomes([elem], nodes) == [e];
      out := if e.Kept?
             then Kept(Field(field.name, List(Field("item", e.field.typ, true, [])), field.nullable, metadata))
             else Panics;
    case Map(key, item) =>
      if |nodes| < 2 {
        return Panics;
      }
      var k := NewFieldFrom(key, nodes[0]);
      var v := NewFieldFrom(item, nodes[1]);
      assert Outcomes([key, item], nodes) == [k, v];
      if k.Panics? || v.Panics? {
        assert [k, v][0].Panics? || [k, v][1].Panics?;
        return Panics;
      }
      if k.Removed? || v.Removed? {
        return Removed;
      }
      out := Kept(Field(field.name,
                        Map(Field("key", k.field.typ, false, k.field.metadata),
                            Field("value", v.field.typ, true, v.field.metadata)),
                        field.nullable, metadata));
    case _ =>
      out := Kept(Field(field.name, field.typ, field.nullable, metadata));
  }

  method NewSchemaFrom(fields: seq<Field>, metadata: seq<Entry>, root: Node)
      returns (schema: Option<(seq<Field>, seq<Entry>)>)
    ensures schema == if SchemaOutcome(fields, root).None? then None
                      else Some((SchemaOutcome(fields, root).value, CleanMetadata(metadata)))
    ensures schema.Some? ==>
              MembersBuilt(fields, root.children, schema.value.0) && MetadataIs(schema.value.1, metadata, [])
  {
    CleanSelects(metadata);
    if SchemaOutcome(fields, root).Some? {
      MembersAreBuilt(fields, root.children, Pad([], |fields|));
    }
    var kept := KeepFields(fields, root.children);
    var clean := CleanedMetadata(metadata);
    schema := if kept.None? then None else Some((kept.value, clean));
  }
}
