/**
 The items of one rustdoc document and the references a walk follows through them, with the
 effect of a walk: which items end up with a node, and which containment edges are collected.
 */
module ItemTree {
  import opened Bytes

  type Id = nat

  /** Types wrap one another; only a path names an item. */
  datatype Type = ResolvedPath(id: Id) | Wrapped(inner: Type) | OtherType

  datatype Inner =
    | Module(items: seq<Id>)
    | Struct(fields: seq<Id>, impls: seq<Id>)
    | Enum(variants: seq<Id>, impls: seq<Id>)
    | Union(fields: seq<Id>, impls: seq<Id>)
    | Trait(items: seq<Id>)
    | Variant(fields: seq<Id>)
    | Impl(noise: bool, items: seq<Id>, ofTrait: Option<Id>)
    | StructField(ty: Type)
    | Function(inputs: seq<Type>, output: Option<Type>)
    | TypeAlias(ty: Type)
    | Static(ty: Type)
    | Constant(ty: Type)
    | TraitAlias
    | AssocConst
    | Macro
    | ProcMacro
    | Primitive
    | AssocType
    | Unmodelled

  datatype Item = Item(name: Option<string>, inner: Inner, derived: bool, file: Option<string>, line: Option<nat>)

  /** What a summary says an item is; the kinds that get no tag of their own are one. */
  datatype ItemKind =
    | ModuleKind | StructKind | FieldKind | EnumKind | VariantKind | UnionKind | FunctionKind | TraitKind
    | TraitAliasKind | TypeAliasKind | ConstantKind | AssocConstKind | StaticKind | MacroKind | ProcAttributeKind
    | ProcDeriveKind | PrimitiveKind | AssocTypeKind | ExternTypeKind | OtherKind

  datatype Summary = Summary(path: seq<string>, kind: ItemKind)

  datatype Krate = Krate(index: map<Id, Item>, root: Id, paths: map<Id, Summary>)

  datatype EdgeSpec = EdgeSpec(source: string, target: string, relation: string)

  function KindOf(inner: Inner): Option<string> {
    match inner
    case Module(_) => Some("module")
    case Struct(_, _) => Some("struct")
    case StructField(_) => Some("field")
    case Enum(_, _) => Some("enum")
    case Variant(_) => Some("variant")
    case Union(_, _) => Some("union")
    case Function(_, _) => Some("function")
    case Trait(_) => Some("trait")
    case TypeAlias(_) => Some("type")
    case Constant(_) => Some("const")
    case Static(_) => Some("static")
    case TraitAlias => Some("trait")
    case AssocConst => Some("const")
    case Macro => Some("macro")
    case ProcMacro => Some("macro")
    case Primitive => Some("type")
    case AssocType => Some("type")
    case Impl(_, _, _) => None
    case Unmodelled => None
  }

  /** The tag of a referenced item, from its summary. */
  function SummaryTag(kind: ItemKind): string {
    match kind
    case ModuleKind => "module"
    case StructKind => "struct"
    case FieldKind => "field"
    case EnumKind => "enum"
    case VariantKind => "variant"
    case UnionKind => "union"
    case FunctionKind => "function"
    case TraitKind => "trait"
    case TraitAliasKind => "trait"
    case TypeAliasKind => "type"
    case ConstantKind => "const"
    case AssocConstKind => "const"
    case StaticKind => "static"
    case MacroKind => "macro"
    case ProcAttributeKind => "macro"
    case ProcDeriveKind => "macro"
    case PrimitiveKind => "type"
    case AssocTypeKind => "type"
    case ExternTypeKind => "type"
    case OtherKind => "item"
  }

  // ----- the references a walk follows -----

  /** The items of a document, and whether derived impls are skipped. */
  datatype Tree = Tree(krate: Krate, noDerives: bool)

  /** One reference from an item to a child, with the relation it gives rise to and the kind it forces. */
  datatype Step = Step(child: Id, relation: string, force: Option<string>)

  /** The child gets a node: it is in the index, has a name, and is of a modelled kind. */
  predicate Walkable(t: Tree, s: Step) {
    && s.child in t.krate.index && t.krate.index[s.child].name.Some?
    && (s.force.Some? || KindOf(t.krate.index[s.child].inner).Some?)
  }

  function ChildSteps(children: seq<Id>, relation: string, force: Option<string>): set<Step> {
    set i | 0 <= i < |children| :: Step(children[i], relation, force)
  }

  /** An impl block that is neither synthetic, nor blanket, nor a skipped derive. */
  predicate Considered(t: Tree, block: Id) {
    && block in t.krate.index && t.krate.index[block].inner.Impl?
    && !t.krate.index[block].inner.noise && !(t.noDerives && t.krate.index[block].derived)
  }

  function BlockSteps(t: Tree, block: Id): set<Step> {
    if Considered(t, block) then ChildSteps(t.krate.index[block].inner.items, "has_method", Some("method")) else {}
  }

  function ImplSteps(t: Tree, blocks: seq<Id>): set<Step> {
    if blocks == [] then {} else ImplSteps(t, blocks[..|blocks| - 1]) + BlockSteps(t, blocks[|blocks| - 1])
  }

  function OwnSteps(inner: Inner): set<Step> {
    match inner
    case Module(items) => ChildSteps(items, "contains", None)
    case Struct(fields, _) => ChildSteps(fields, "has_field", None)
    case Enum(variants, _) => ChildSteps(variants, "has_variant", None)
    case Union(fields, _) => ChildSteps(fields, "has_field", None)
    case Trait(items) => ChildSteps(items, "has_method", Some("method"))
    case Variant(fields) => ChildSteps(fields, "has_field", None)
    case _ => {}
  }

  function Blocks(inner: Inner): seq<Id> {
    if inner.Struct? || inner.Enum? || inner.Union? then inner.impls else []
  }

  function Steps(t: Tree, inner: Inner): set<Step> {
    OwnSteps(inner) + ImplSteps(t, Blocks(inner))
  }

  /** The crate's own node contains the items of the root module. */
  function RootSteps(t: Tree): set<Step> {
    if t.krate.root in t.krate.index && t.krate.index[t.krate.root].inner.Module?
    then ChildSteps(t.krate.index[t.krate.root].inner.items, "contains", None) else {}
  }

  /** The steps of an item, or of the crate itself. */
  function StepsOf(t: Tree, owner: Option<Id>): set<Step> {
    if owner.None? then RootSteps(t)
    else if owner.value in t.krate.index then Steps(t, t.krate.index[owner.value].inner)
    else {}
  }

  lemma ChildStepsMeaning(children: seq<Id>, relation: string, force: Option<string>, s: Step)
    ensures s in ChildSteps(children, relation, force) <==>
              s.child in children && s.relation == relation && s.force == force
  {
    if s.child in children {
      var i :| 0 <= i < |children| && children[i] == s.child;
      assert Step(children[i], relation, force) in ChildSteps(children, relation, force);
    }
  }

  lemma {:induction false} ImplStepsMeaning(t: Tree, blocks: seq<Id>, s: Step)
    ensures s in ImplSteps(t, blocks) <==> exists block :: block in blocks && s in BlockSteps(t, block)
    decreases |blocks|
  {
    hide BlockSteps;
    if blocks != [] {
      ImplStepsMeaning(t, blocks[..|blocks| - 1], s);
      if s in BlockSteps(t, blocks[|blocks| - 1]) { assert blocks[|blocks| - 1] in blocks; }
    }
  }

  /** An item leads to what it lists: contained items, fields, variants, associated items, and methods of its impls. */
  lemma StepsMeaning(t: Tree, id: Id, s: Step)
    requires id in t.krate.index
    ensures var inner := t.krate.index[id].inner;
            s in StepsOf(t, Some(id)) <==>
              || (s.relation == "contains" && s.force.None? && inner.Module? && s.child in inner.items)
              || (s.relation == "has_field" && s.force.None? && (inner.Struct? || inner.Union? || inner.Variant?)
                  && s.child in inner.fields)
              || (s.relation == "has_variant" && s.force.None? && inner.Enum? && s.child in inner.variants)
              || (s.relation == "has_method" && s.force == Some("method") && inner.Trait? && s.child in inner.items)
              || (s.relation == "has_method" && s.force == Some("method")
                  && (inner.Struct? || inner.Enum? || inner.Union?)
                  && exists block :: block in inner.impls && Gives(t, block, s.child))
  {
    hide ChildSteps, ImplSteps, Considered;
    var inner := t.krate.index[id].inner;
    ImplStepsMeaning(t, Blocks(inner), s);
    match inner {
      case Module(items) => ChildStepsMeaning(items, "contains", None, s);
      case Struct(fields, _) => ChildStepsMeaning(fields, "has_field", None, s);
      case Enum(variants, _) => ChildStepsMeaning(variants, "has_variant", None, s);
      case Union(fields, _) => ChildStepsMeaning(fields, "has_field", None, s);
      case Trait(items) => ChildStepsMeaning(items, "has_method", Some("method"), s);
      case Variant(fields) => ChildStepsMeaning(fields, "has_field", None, s);
      case _ =>
    }
    forall block ensures s in BlockSteps(t, block) <==>
                           s.relation == "has_method" && s.force == Some("method") && Gives(t, block, s.child) {
      BlockStepsMeaning(t, block, s);
    }
  }

  /** The crate itself leads to what its root module lists. */
  lemma RootStepsMeaning(t: Tree, s: Step)
    ensures s in StepsOf(t, None) <==>
              && t.krate.root in t.krate.index && t.krate.index[t.krate.root].inner.Module?
              && s.child in t.krate.index[t.krate.root].inner.items && s.relation == "contains" && s.force.None?
  {
    hide ChildSteps;
    if t.krate.root in t.krate.index && t.krate.index[t.krate.root].inner.Module? {
      ChildStepsMeaning(t.krate.index[t.krate.root].inner.items, "contains", None, s);
    }
  }

  /** A named item gets a node under a forced kind always, under its own unless it is an impl block or of no kind. */
  lemma WalkableIff(t: Tree, s: Step)
    requires s.child in t.krate.index
    ensures var item := t.krate.index[s.child];
            Walkable(t, s) <==> item.name.Some? && (s.force.Some? || !(item.inner.Impl? || item.inner.Unmodelled?))
  {
  }

  /** An impl block that is written out, or derived where derives count, and lists the item. */
  predicate Gives(t: Tree, block: Id, child: Id) {
    && block in t.krate.index && t.krate.index[block].inner.Impl? && !t.krate.index[block].inner.noise
    && (t.noDerives ==> !t.krate.index[block].derived) && child in t.krate.index[block].inner.items
  }

  lemma BlockStepsMeaning(t: Tree, block: Id, s: Step)
    ensures s in BlockSteps(t, block) <==>
              s.relation == "has_method" && s.force == Some("method") && Gives(t, block, s.child)
  {
    hide ChildSteps;
    if Considered(t, block) {
      ChildStepsMeaning(t.krate.index[block].inner.items, "has_method", Some("method"), s);
    }
  }

  predicate Follows(t: Tree, owner: Option<Id>, child: Id) {
    exists s :: s in StepsOf(t, owner) && s.child == child && Walkable(t, s)
  }

  ghost predicate Route(t: Tree, route: seq<Id>, id: Id) {
    && route != [] && route[|route| - 1] == id && Follows(t, None, route[0])
    && forall i :: 0 <= i < |route| - 1 ==> Follows(t, Some(route[i]), route[i + 1])
  }

  /** The items that walkable references lead to from the root module. */
  ghost function Reached(t: Tree): set<Id> {
    set id | id in t.krate.index && exists route :: Route(t, route, id)
  }

  lemma RouteExtends(t: Tree, route: seq<Id>, id: Id, child: Id)
    requires Route(t, route, id) && Follows(t, Some(id), child)
    ensures Route(t, route + [child], child)
  {
  }

  /** Walkable steps from the crate, or from a reached item, stay among the reached. */
  lemma ReachedIsClosed(t: Tree, owner: Option<Id>, s: Step)
    requires owner.Some? ==> owner.value in Reached(t)
    requires s in StepsOf(t, owner) && Walkable(t, s)
    ensures s.child in Reached(t)
  {
    assert Follows(t, owner, s.child);
    if owner.None? {
      assert Route(t, [s.child], s.child);
    } else {
      var route :| Route(t, route, owner.value);
      RouteExtends(t, route, owner.value, s.child);
    }
  }

  // ----- sets of items that steps do not leave -----

  /** Every walkable step leads to an item of `scope`. */
  ghost predicate Into(t: Tree, steps: set<Step>, scope: set<Id>) {
    forall s :: s in steps && Walkable(t, s) ==> s.child in scope
  }

  /** Steps from the items of `scope` stay in it. */
  ghost predicate Stays(t: Tree, scope: set<Id>) {
    forall id, s :: id in scope && s in StepsOf(t, Some(id)) && Walkable(t, s) ==> s.child in scope
  }

  lemma IntoChild(t: Tree, steps: set<Step>, s: Step, scope: set<Id>)
    requires Into(t, steps, scope) && s in steps
    ensures Walkable(t, s) ==> s.child in scope
  {
  }

  lemma IntoPart(t: Tree, steps: set<Step>, part: set<Step>, scope: set<Id>)
    requires Into(t, steps, scope) && part <= steps
    ensures Into(t, part, scope)
  {
  }

  // ----- what a walk has collected -----

  function Unwalked(krate: Krate, nodeOf: map<Id, string>): nat {
    |krate.index.Keys - nodeOf.Keys|
  }

  datatype Walked = Walked(nodeOf: map<Id, string>, edges: set<EdgeSpec>, impls: set<(string, Id)>)

  ghost predicate Extends(a: Walked, b: Walked) {
    && (forall id :: id in a.nodeOf ==> id in b.nodeOf && b.nodeOf[id] == a.nodeOf[id])
    && a.edges <= b.edges && a.impls <= b.impls
  }

  /** Every walkable step has its child's node and its edge. */
  ghost predicate Linked(t: Tree, w: Walked, node: string, steps: set<Step>) {
    forall s :: s in steps && Walkable(t, s) ==>
      s.child in w.nodeOf && EdgeSpec(node, w.nodeOf[s.child], s.relation) in w.edges
  }

  ghost predicate Recorded(t: Tree, w: Walked, node: string, blocks: seq<Id>) {
    forall i :: 0 <= i < |blocks| && Considered(t, blocks[i]) ==> (node, blocks[i]) in w.impls
  }

  /** Everything the item refers to has been walked, linked and recorded. */
  ghost predicate Finished(t: Tree, w: Walked, id: Id) {
    && id in w.nodeOf && id in t.krate.index
    && Linked(t, w, w.nodeOf[id], Steps(t, t.krate.index[id].inner))
    && Recorded(t, w, w.nodeOf[id], Blocks(t.krate.index[id].inner))
  }

  predicate OwnerNode(w: Walked, crateNode: string, owner: Option<Id>, node: string) {
    if owner.None? then node == crateNode else owner.value in w.nodeOf && w.nodeOf[owner.value] == node
  }

  /** The edge is that of a step between walked items, or from the crate. */
  ghost predicate Justified(t: Tree, crateNode: string, w: Walked, e: EdgeSpec) {
    exists owner, s :: s in StepsOf(t, owner) && s.child in w.nodeOf && OwnerNode(w, crateNode, owner, e.source)
                       && e.target == w.nodeOf[s.child] && e.relation == s.relation
  }

  ghost predicate JustifiedImpl(t: Tree, w: Walked, i: (string, Id)) {
    exists id :: id in w.nodeOf && id in t.krate.index && w.nodeOf[id] == i.0
                 && i.1 in Blocks(t.krate.index[id].inner) && Considered(t, i.1)
  }

  ghost predicate Sound(t: Tree, crateNode: string, w: Walked) {
    && (forall e :: e in w.edges ==> Justified(t, crateNode, w, e))
    && (forall i :: i in w.impls ==> JustifiedImpl(t, w, i))
  }

  ghost predicate AllFinished(t: Tree, a: Walked, b: Walked) {
    forall id :: id in b.nodeOf && id !in a.nodeOf ==> Finished(t, b, id)
  }

  /** From `a` to `b`: nothing lost, every newly walked item finished, only sound edges, only items among `scope`. */
  ghost predicate Effect(t: Tree, crateNode: string, a: Walked, b: Walked, scope: set<Id>) {
    && Extends(a, b) && AllFinished(t, a, b) && b.nodeOf.Keys <= a.nodeOf.Keys + scope
    && (Sound(t, crateNode, a) ==> Sound(t, crateNode, b))
  }

  lemma LinkedGrows(t: Tree, a: Walked, b: Walked, node: string, steps: set<Step>)
    requires Extends(a, b) && Linked(t, a, node, steps)
    ensures Linked(t, b, node, steps)
  {
  }

  lemma FinishedGrows(t: Tree, a: Walked, b: Walked, id: Id)
    requires Extends(a, b) && Finished(t, a, id)
    ensures Finished(t, b, id)
  {
    hide Steps, Walkable, Considered;
    LinkedGrows(t, a, b, a.nodeOf[id], Steps(t, t.krate.index[id].inner));
  }

  lemma EffectChain(t: Tree, crateNode: string, a: Walked, b: Walked, c: Walked, scope: set<Id>)
    requires Effect(t, crateNode, a, b, scope) && Effect(t, crateNode, b, c, scope)
    ensures Effect(t, crateNode, a, c, scope)
  {
    hide Finished, Sound;
    forall id | id in c.nodeOf && id !in a.nodeOf ensures Finished(t, c, id) {
      if id in b.nodeOf { FinishedGrows(t, b, c, id); }
    }
  }

  lemma EffectNone(t: Tree, crateNode: string, a: Walked, scope: set<Id>)
    ensures Effect(t, crateNode, a, a, scope)
  {
  }

  lemma JustifiedGrows(t: Tree, crateNode: string, a: Walked, b: Walked, e: EdgeSpec)
    requires Extends(a, b) && Justified(t, crateNode, a, e)
    ensures Justified(t, crateNode, b, e)
  {
    hide StepsOf;
    var owner, s :| s in StepsOf(t, owner) && s.child in a.nodeOf && OwnerNode(a, crateNode, owner, e.source)
                    && e.target == a.nodeOf[s.child] && e.relation == s.relation;
    assert s.child in b.nodeOf && OwnerNode(b, crateNode, owner, e.source);
  }

  lemma JustifiedImplGrows(t: Tree, a: Walked, b: Walked, i: (string, Id))
    requires Extends(a, b) && JustifiedImpl(t, a, i)
    ensures JustifiedImpl(t, b, i)
  {
    hide Considered, Blocks;
    var id :| id in a.nodeOf && id in t.krate.index && a.nodeOf[id] == i.0
              && i.1 in Blocks(t.krate.index[id].inner) && Considered(t, i.1);
    assert id in b.nodeOf;
  }

  lemma SoundGrows(t: Tree, crateNode: string, a: Walked, b: Walked)
    requires Extends(a, b) && Sound(t, crateNode, a)
    requires forall e :: e in b.edges && e !in a.edges ==> Justified(t, crateNode, b, e)
    requires forall i :: i in b.impls && i !in a.impls ==> JustifiedImpl(t, b, i)
    ensures Sound(t, crateNode, b)
  {
    hide Justified, JustifiedImpl;
    forall e | e in b.edges ensures Justified(t, crateNode, b, e) {
      if e in a.edges { JustifiedGrows(t, crateNode, a, b, e); }
    }
    forall i | i in b.impls ensures JustifiedImpl(t, b, i) {
      if i in a.impls { JustifiedImplGrows(t, a, b, i); }
    }
  }

  /** Collecting the edge of a step whose child is walked. */
  lemma EffectEdge(t: Tree, crateNode: string, a: Walked, owner: Option<Id>, node: string, s: Step, scope: set<Id>)
    requires s in StepsOf(t, owner) && s.child in a.nodeOf && OwnerNode(a, crateNode, owner, node)
    ensures Effect(t, crateNode, a, a.(edges := a.edges + {EdgeSpec(node, a.nodeOf[s.child], s.relation)}), scope)
  {
    hide Sound, StepsOf, Finished;
    var e := EdgeSpec(node, a.nodeOf[s.child], s.relation);
    var b := a.(edges := a.edges + {e});
    assert OwnerNode(b, crateNode, owner, e.source);
    assert Justified(t, crateNode, b, e);
    if Sound(t, crateNode, a) { SoundGrows(t, crateNode, a, b); }
  }

  lemma EffectImpl(t: Tree, crateNode: string, a: Walked, id: Id, block: Id, scope: set<Id>)
    requires id in a.nodeOf && id in t.krate.index && block in Blocks(t.krate.index[id].inner) && Considered(t, block)
    ensures Effect(t, crateNode, a, a.(impls := a.impls + {(a.nodeOf[id], block)}), scope)
  {
    hide Sound, Considered, Blocks, Finished;
    var b := a.(impls := a.impls + {(a.nodeOf[id], block)});
    assert id in b.nodeOf && JustifiedImpl(t, b, (a.nodeOf[id], block));
    if Sound(t, crateNode, a) { SoundGrows(t, crateNode, a, b); }
  }

  /** Mapping an id and then finishing it is one effect. */
  lemma EffectRegistered(t: Tree, crateNode: string, a: Walked, id: Id, node: string, c: Walked, scope: set<Id>)
    requires id !in a.nodeOf && id in scope
    requires Effect(t, crateNode, a.(nodeOf := a.nodeOf[id := node]), c, scope) && Finished(t, c, id)
    ensures Effect(t, crateNode, a, c, scope)
  {
    hide Sound, Finished;
    var b := a.(nodeOf := a.nodeOf[id := node]);
    assert Extends(a, b);
    if Sound(t, crateNode, a) { SoundGrows(t, crateNode, a, b); }
  }

  lemma EffectKeepsNode(t: Tree, crateNode: string, a: Walked, b: Walked, scope: set<Id>, id: Id)
    requires Effect(t, crateNode, a, b, scope) && id in a.nodeOf
    ensures id in b.nodeOf && b.nodeOf[id] == a.nodeOf[id]
  {
  }

  lemma OwnerKept(t: Tree, crateNode: string, a: Walked, b: Walked, scope: set<Id>, owner: Option<Id>, node: string)
    requires Effect(t, crateNode, a, b, scope) && OwnerNode(a, crateNode, owner, node)
    ensures OwnerNode(b, crateNode, owner, node)
  {
  }

  lemma LinkedKept(t: Tree, crateNode: string, a: Walked, b: Walked, scope: set<Id>, node: string, steps: set<Step>)
    requires Effect(t, crateNode, a, b, scope) && Linked(t, a, node, steps)
    ensures Linked(t, b, node, steps)
  {
    hide AllFinished, Sound;
    LinkedGrows(t, a, b, node, steps);
  }

  lemma LinkedOne(t: Tree, w: Walked, node: string, s: Step)
    requires Walkable(t, s) ==> s.child in w.nodeOf && EdgeSpec(node, w.nodeOf[s.child], s.relation) in w.edges
    ensures Linked(t, w, node, {s})
  {
  }

  lemma LinkedUnion(t: Tree, w: Walked, node: string, a: set<Step>, b: set<Step>)
    requires Linked(t, w, node, a) && Linked(t, w, node, b)
    ensures Linked(t, w, node, a + b)
  {
  }

  lemma RecordedKept(t: Tree, crateNode: string, a: Walked, b: Walked, scope: set<Id>, node: string, blocks: seq<Id>,
                     i: nat)
    requires i < |blocks| && Effect(t, crateNode, a, b, scope) && Recorded(t, a, node, blocks[..i])
    requires Considered(t, blocks[i]) ==> (node, blocks[i]) in b.impls
    ensures Recorded(t, b, node, blocks[..i + 1])
  {
    hide AllFinished, Sound, Considered;
    var more := blocks[..i + 1];
    forall j | 0 <= j < |more| && Considered(t, more[j]) ensures (node, more[j]) in b.impls {
      if j < i { assert blocks[..i][j] == more[j]; }
    }
  }

  lemma NothingLinked(t: Tree, w: Walked, node: string)
    ensures Linked(t, w, node, {}) && ImplSteps(t, []) == {} && Recorded(t, w, node, [])
  {
  }

  /** The children of an item, then its impl blocks: the item is finished. */
  lemma InnerAdvances(t: Tree, crateNode: string, a: Walked, b: Walked, c: Walked, scope: set<Id>, id: Id)
    requires id in t.krate.index && id in a.nodeOf
    requires Effect(t, crateNode, a, b, scope) && Effect(t, crateNode, b, c, scope)
    requires Linked(t, b, a.nodeOf[id], OwnSteps(t.krate.index[id].inner))
    requires Linked(t, c, a.nodeOf[id], ImplSteps(t, Blocks(t.krate.index[id].inner)))
    requires Recorded(t, c, a.nodeOf[id], Blocks(t.krate.index[id].inner))
    ensures Effect(t, crateNode, a, c, scope) && Finished(t, c, id)
  {
    hide Effect, Linked, Recorded, OwnSteps, ImplSteps, Blocks;
    var inner, node := t.krate.index[id].inner, a.nodeOf[id];
    EffectChain(t, crateNode, a, b, c, scope);
    EffectKeepsNode(t, crateNode, a, c, scope, id);
    LinkedKept(t, crateNode, b, c, scope, node, OwnSteps(inner));
    LinkedUnion(t, c, node, OwnSteps(inner), ImplSteps(t, Blocks(inner)));
  }

  lemma NoChildren(children: seq<Id>, relation: string, force: Option<string>)
    ensures ChildSteps(children[..0], relation, force) == {}
  {
  }

  lemma OneMoreChild(children: seq<Id>, i: nat, relation: string, force: Option<string>)
    requires i < |children|
    ensures ChildSteps(children[..i + 1], relation, force)
         == ChildSteps(children[..i], relation, force) + {Step(children[i], relation, force)}
    ensures Step(children[i], relation, force) in ChildSteps(children, relation, force)
  {
    var more := children[..i + 1];
    assert more[i] == children[i] && forall j :: 0 <= j < i ==> more[j] == children[..i][j];
  }

  /** One more child walked and linked. */
  lemma ChildrenAdvance(t: Tree, crateNode: string, a: Walked, b: Walked, c: Walked, scope: set<Id>, node: string,
                        children: seq<Id>, i: nat, relation: string, force: Option<string>)
    requires i < |children| && Effect(t, crateNode, a, b, scope) && Effect(t, crateNode, b, c, scope)
    requires Linked(t, b, node, ChildSteps(children[..i], relation, force))
    requires Linked(t, c, node, {Step(children[i], relation, force)})
    ensures Effect(t, crateNode, a, c, scope) && Linked(t, c, node, ChildSteps(children[..i + 1], relation, force))
  {
    hide Effect, Linked, ChildSteps;
    OneMoreChild(children, i, relation, force);
    EffectChain(t, crateNode, a, b, c, scope);
    LinkedKept(t, crateNode, b, c, scope, node, ChildSteps(children[..i], relation, force));
    LinkedUnion(t, c, node, ChildSteps(children[..i], relation, force), {Step(children[i], relation, force)});
  }

  lemma {:induction false} ImplStepsPart(t: Tree, blocks: seq<Id>, i: nat)
    requires i < |blocks|
    ensures BlockSteps(t, blocks[i]) <= ImplSteps(t, blocks)
    decreases |blocks|
  {
    if i < |blocks| - 1 { ImplStepsPart(t, blocks[..|blocks| - 1], i); }
  }

  lemma OneMoreBlock(t: Tree, blocks: seq<Id>, i: nat)
    requires i < |blocks|
    ensures ImplSteps(t, blocks[..i + 1]) == ImplSteps(t, blocks[..i]) + BlockSteps(t, blocks[i])
  {
    assert blocks[..i + 1][..i] == blocks[..i];
  }

  lemma BlockIsPart(t: Tree, id: Id, blocks: seq<Id>, i: nat)
    requires i < |blocks| && id in t.krate.index && blocks == Blocks(t.krate.index[id].inner)
    ensures BlockSteps(t, blocks[i]) <= ImplSteps(t, blocks) && BlockSteps(t, blocks[i]) <= StepsOf(t, Some(id))
  {
    ImplStepsPart(t, blocks, i);
  }

  /** One more impl block walked, linked and recorded. */
  lemma BlocksAdvance(t: Tree, crateNode: string, b: Walked, c: Walked, scope: set<Id>, node: string, blocks: seq<Id>,
                      i: nat)
    requires i < |blocks| && Effect(t, crateNode, b, c, scope)
    requires Linked(t, b, node, ImplSteps(t, blocks[..i])) && Recorded(t, b, node, blocks[..i])
    requires Linked(t, c, node, BlockSteps(t, blocks[i])) && (Considered(t, blocks[i]) ==> (node, blocks[i]) in c.impls)
    ensures Linked(t, c, node, ImplSteps(t, blocks[..i + 1])) && Recorded(t, c, node, blocks[..i + 1])
  {
    hide Effect, Linked, Recorded, Considered, ImplSteps, BlockSteps;
    OneMoreBlock(t, blocks, i);
    LinkedKept(t, crateNode, b, c, scope, node, ImplSteps(t, blocks[..i]));
    LinkedUnion(t, c, node, ImplSteps(t, blocks[..i]), BlockSteps(t, blocks[i]));
    RecordedKept(t, crateNode, b, c, scope, node, blocks, i);
  }

  // ----- a whole walk -----

  /** Exactly the reachable items have nodes, each is finished, and every edge is that of a step. */
  ghost predicate Whole(t: Tree, crateNode: string, w: Walked) {
    && w.nodeOf.Keys == Reached(t) && Linked(t, w, crateNode, RootSteps(t))
    && Sound(t, crateNode, w) && forall id :: id in w.nodeOf ==> Finished(t, w, id)
  }

  /** A walk from the root that finishes what it maps reaches exactly the reachable items. */
  lemma WalkReachesAll(t: Tree, crateNode: string, none: Walked, w: Walked)
    requires none == Walked(map[], {}, {})
    requires Effect(t, crateNode, none, w, Reached(t)) && Linked(t, w, crateNode, RootSteps(t))
    ensures Whole(t, crateNode, w)
  {
    hide Finished, Linked;
    assert Sound(t, crateNode, none);
    forall id | id in Reached(t) ensures id in w.nodeOf {
      var route :| Route(t, route, id);
      RouteIsWalked(t, crateNode, w, route, |route| - 1);
    }
  }

  lemma {:induction false} RouteIsWalked(t: Tree, crateNode: string, w: Walked, route: seq<Id>, i: nat)
    requires forall id :: id in w.nodeOf ==> Finished(t, w, id)
    requires Linked(t, w, crateNode, RootSteps(t))
    requires route != [] && Follows(t, None, route[0]) && i < |route|
    requires forall j :: 0 <= j < |route| - 1 ==> Follows(t, Some(route[j]), route[j + 1])
    ensures route[i] in w.nodeOf
    decreases i
  {
    if i > 0 {
      RouteIsWalked(t, crateNode, w, route, i - 1);
      assert Follows(t, Some(route[i - 1]), route[i - 1 + 1]);
      assert Finished(t, w, route[i - 1]);
    }
  }
}
