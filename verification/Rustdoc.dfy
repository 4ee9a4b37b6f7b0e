/**
 Folding one crate's rustdoc items into nodes and edges: a walk over possibly cyclic item
 references, a type pass in hash order, and cross-crate references settled at the end.
 */
module Rustdoc {
  import opened Bytes
  import opened Measure
  import opened GraphModel
  import opened ItemNames
  import opened ItemTree

  /** A reference into another crate: the item preferred, its crate's node otherwise. */
  datatype Pending = Pending(from: string, item: string, krate: string, relation: string)

  datatype Resolved = Local(node: string) | External(item: string, krate: string)

  // ----- resolving types -----

  datatype Scope = Scope(krate: Krate, nodeOf: map<Id, string>, workspace: set<string>)

  function ResolveId(s: Scope, id: Id): Option<Resolved> {
    if id in s.nodeOf then Some(Local(s.nodeOf[id]))
    else if id !in s.krate.paths || s.krate.paths[id].path == [] then None
    else
      var summary := s.krate.paths[id];
      var name := summary.path[0];
      if Norm(name) !in s.workspace then None
      else
        var sub := JoinPath(summary.path[1..]);
        Some(External(if sub == "" then CrateId(name) else ItemId(name, sub, SummaryTag(summary.kind)), CrateId(name)))
  }

  function ResolveType(s: Scope, ty: Type): Option<Resolved> {
    match ty
    case ResolvedPath(id) => ResolveId(s, id)
    case Wrapped(inner) => ResolveType(s, inner)
    case OtherType => None
  }

  /** A crate's id with one of its item ids, or twice the crate's id. */
  ghost predicate Named(item: string, krate: string) {
    exists name :: NamedBy(name, item, krate)
  }

  ghost predicate NamedBy(name: string, item: string, krate: string) {
    krate == CrateId(name) && (item == CrateId(name) || BuiltItem(name, item))
  }

  /** Only mapped ids resolve locally, and an external reference names an item of the crate it falls back to. */
  ghost predicate Resolves(s: Scope, r: Option<Resolved>) {
    r.Some? ==> if r.value.Local? then r.value.node in s.nodeOf.Values else Named(r.value.item, r.value.krate)
  }

  lemma IdResolves(s: Scope, id: Id)
    ensures Resolves(s, ResolveId(s, id))
  {
    if id !in s.nodeOf && id in s.krate.paths && s.krate.paths[id].path != [] {
      hide JoinPath, ItemId, CrateId, Norm;
      var summary := s.krate.paths[id];
      var name, sub := summary.path[0], JoinPath(summary.path[1..]);
      assert NamedBy(name, CrateId(name), CrateId(name));
      assert BuiltItem(name, ItemId(name, sub, SummaryTag(summary.kind)));
      assert NamedBy(name, ItemId(name, sub, SummaryTag(summary.kind)), CrateId(name));
    }
  }

  lemma {:induction false} TypeResolves(s: Scope, ty: Type)
    ensures Resolves(s, ResolveType(s, ty))
    decreases ty
  {
    hide Resolves;
    match ty
    case ResolvedPath(id) => IdResolves(s, id);
    case Wrapped(inner) => TypeResolves(s, inner);
    case OtherType => assert ResolveType(s, ty).None?; NothingResolves(s);
  }

  lemma NothingResolves(s: Scope)
    ensures Resolves(s, None)
  {
  }

  /** The types an item mentions, each with the relation it gives rise to. */
  function Uses(inner: Inner): seq<(Type, string)> {
    match inner
    case StructField(t) => [(t, "uses_type")]
    case Function(inputs, output) =>
      seq(|inputs|, i requires 0 <= i < |inputs| => (inputs[i], "takes"))
      + if output.Some? then [(output.value, "returns")] else []
    case TypeAlias(t) => [(t, "aliases")]
    case Static(t) => [(t, "uses_type")]
    case Constant(t) => [(t, "uses_type")]
    case _ => []
  }

  /** The edge or the deferred edge of one resolved reference; `loops` tells whether an edge to oneself counts. */
  function EdgeOf(node: string, r: Option<Resolved>, relation: string, loops: bool): Option<EdgeSpec> {
    if r.Some? && r.value.Local? && (loops || r.value.node != node) then Some(EdgeSpec(node, r.value.node, relation))
    else None
  }

  function PendingOf(node: string, r: Option<Resolved>, relation: string): Option<Pending> {
    if r.Some? && r.value.External? then Some(Pending(node, r.value.item, r.value.krate, relation)) else None
  }

  function Option2Set<T>(o: Option<T>): set<T> {
    if o.Some? then {o.value} else {}
  }

  function UseEdges(s: Scope, node: string, uses: seq<(Type, string)>): set<EdgeSpec> {
    if uses == [] then {} else
      var (t, relation) := uses[|uses| - 1];
      UseEdges(s, node, uses[..|uses| - 1]) + Option2Set(EdgeOf(node, ResolveType(s, t), relation, false))
  }

  function UsePending(s: Scope, node: string, uses: seq<(Type, string)>): set<Pending> {
    if uses == [] then {} else
      var (t, relation) := uses[|uses| - 1];
      UsePending(s, node, uses[..|uses| - 1]) + Option2Set(PendingOf(node, ResolveType(s, t), relation))
  }

  function ItemUses(s: Scope, id: Id): seq<(Type, string)> {
    if id in s.krate.index then Uses(s.krate.index[id].inner) else []
  }

  /** What the walked items among `ids` refer to: no order, no repetition. */
  function TypeEdges(s: Scope, ids: set<Id>): set<EdgeSpec> {
    set id, e | id in ids && id in s.nodeOf && e in UseEdges(s, s.nodeOf[id], ItemUses(s, id)) :: e
  }

  function TypePending(s: Scope, ids: set<Id>): set<Pending> {
    set id, p | id in ids && id in s.nodeOf && p in UsePending(s, s.nodeOf[id], ItemUses(s, id)) :: p
  }

  function TraitOf(s: Scope, block: Id): Option<Resolved> {
    if block in s.krate.index && s.krate.index[block].inner.Impl? && s.krate.index[block].inner.ofTrait.Some?
    then ResolveId(s, s.krate.index[block].inner.ofTrait.value) else None
  }

  lemma TraitResolves(s: Scope, block: Id)
    ensures Resolves(s, TraitOf(s, block))
  {
    if TraitOf(s, block).Some? { IdResolves(s, s.krate.index[block].inner.ofTrait.value); }
  }

  function ImplEdges(s: Scope, impls: seq<(string, Id)>): set<EdgeSpec> {
    if impls == [] then {} else
      var (owner, block) := impls[|impls| - 1];
      ImplEdges(s, impls[..|impls| - 1]) + Option2Set(EdgeOf(owner, TraitOf(s, block), "implements", true))
  }

  function ImplPending(s: Scope, impls: seq<(string, Id)>): set<Pending> {
    if impls == [] then {} else
      var (owner, block) := impls[|impls| - 1];
      ImplPending(s, impls[..|impls| - 1]) + Option2Set(PendingOf(owner, TraitOf(s, block), "implements"))
  }

  lemma ImplNext(s: Scope, impls: seq<(string, Id)>, i: nat)
    requires i < |impls|
    ensures var (owner, block) := impls[i];
            && ImplEdges(s, impls[..i + 1])
               == ImplEdges(s, impls[..i]) + Option2Set(EdgeOf(owner, TraitOf(s, block), "implements", true))
            && ImplPending(s, impls[..i + 1])
               == ImplPending(s, impls[..i]) + Option2Set(PendingOf(owner, TraitOf(s, block), "implements"))
  {
    hide TraitOf, EdgeOf, PendingOf;
    assert impls[..i + 1][..i] == impls[..i];
  }

  lemma NoImpls(s: Scope)
    ensures ImplEdges(s, []) == {} && ImplPending(s, []) == {}
  {
  }

  function KeyOf(e: EdgeSpec): Key {
    (e.source, e.target, e.relation)
  }

  /** A collected edge reaches the graph if both its ends are there. */
  function Land(g: GraphState, e: EdgeSpec): GraphState {
    if e.source in g.nodes && e.target in g.nodes then g.WithEdge(KeyOf(e), Edge(None, None)) else g
  }

  function LandAll(g: GraphState, edges: seq<EdgeSpec>): GraphState {
    if edges == [] then g else Land(LandAll(g, edges[..|edges| - 1]), edges[|edges| - 1])
  }

  /** The edges with both ends among `present`. */
  function Landed(edges: set<EdgeSpec>, present: set<string>): set<Key> {
    set e | e in edges && e.source in present && e.target in present :: KeyOf(e)
  }

  lemma {:induction false} LandAllKeys(g: GraphState, edges: seq<EdgeSpec>)
    ensures var h := LandAll(g, edges);
            && h.nodes == g.nodes && h.edges.Keys == g.edges.Keys + Landed(Elems(edges), g.nodes.Keys)
            && forall key :: key in g.edges ==> h.edges[key] == g.edges[key]
    decreases |edges|
  {
    if edges != [] {
      var front, last := edges[..|edges| - 1], edges[|edges| - 1];
      LandAllKeys(g, front);
      assert Landed(Elems(edges), g.nodes.Keys)
          == Landed(Elems(front), g.nodes.Keys)
             + if last.source in g.nodes && last.target in g.nodes then {KeyOf(last)} else {};
    }
  }

  method LandEdges(graph: Graph, edges: seq<EdgeSpec>)
    modifies graph`edges
    ensures graph.Abs() == LandAll(old(graph.Abs()), edges)
  {
    for i := 0 to |edges|
      invariant graph.Abs() == LandAll(old(graph.Abs()), edges[..i])
    {
      assert edges[..i + 1][..i] == edges[..i];
      if edges[i].source in graph.nodes && edges[i].target in graph.nodes {
        graph.AddEdge(edges[i].source, edges[i].target, edges[i].relation, Edge(None, None));
      }
    }
    assert edges[..|edges|] == edges;
  }

  // ----- references between crates -----

  /** Where a deferred reference leads, given which nodes are present: the item, else its crate, else nowhere. */
  function Target(present: set<string>, p: Pending): Option<string> {
    if p.from !in present then None
    else if p.item in present then Some(p.item)
    else if p.krate in present then Some(p.krate)
    else None
  }

  function SettleOne(g: GraphState, p: Pending): GraphState {
    var target := Target(g.nodes.Keys, p);
    if target.Some? then g.WithEdge((p.from, target.value, p.relation), Edge(None, None)) else g
  }

  function SettleAll(g: GraphState, pending: seq<Pending>): GraphState {
    if pending == [] then g else SettleOne(SettleAll(g, pending[..|pending| - 1]), pending[|pending| - 1])
  }

  /** The edges that deferred references come to, once every node is known. */
  function Settled(present: set<string>, pending: set<Pending>): set<Key> {
    set p | p in pending && Target(present, p).Some? :: (p.from, Target(present, p).value, p.relation)
  }

  /** The outcome depends on which references are pending and which nodes are present, not on any order. */
  lemma {:induction false} SettleAllKeys(g: GraphState, pending: seq<Pending>)
    ensures var h := SettleAll(g, pending);
            && h.nodes == g.nodes && h.edges.Keys == g.edges.Keys + Settled(g.nodes.Keys, Elems(pending))
            && forall key :: key in g.edges ==> h.edges[key] == g.edges[key]
    decreases |pending|
  {
    if pending != [] {
      hide Target;
      var front, last := pending[..|pending| - 1], pending[|pending| - 1];
      SettleAllKeys(g, front);
      var target := Target(g.nodes.Keys, last);
      assert Settled(g.nodes.Keys, Elems(pending))
          == Settled(g.nodes.Keys, Elems(front)) + if target.Some? then {(last.from, target.value, last.relation)}
          else {};
    }
  }

  /** Resolution after all crates. */
  method ResolvePending(graph: Graph, pending: seq<Pending>)
    modifies graph`edges
    ensures graph.Abs() == SettleAll(old(graph.Abs()), pending)
  {
    for i := 0 to |pending|
      invariant graph.Abs() == SettleAll(old(graph.Abs()), pending[..i])
    {
      assert pending[..i + 1][..i] == pending[..i];
      var p := pending[i];
      if p.from in graph.nodes {
        if p.item in graph.nodes {
          graph.AddEdge(p.from, p.item, p.relation, Edge(None, None));
        } else if p.krate in graph.nodes {
          graph.AddEdge(p.from, p.krate, p.relation, Edge(None, None));
        }
      }
    }
    assert pending[..|pending|] == pending;
  }

  // ----- what the collected parts may mention -----

  /** Every walked id has its node; every edge joins collected nodes or starts at the crate's own. */
  ghost predicate Closed(krate: Krate, pkg: string, crateNode: string, nodeOf: map<Id, string>, nodes: seq<Node>,
                         edges: seq<EdgeSpec>, impls: seq<(string, Id)>, pending: seq<Pending>)
  {
    && nodeOf.Keys <= krate.index.Keys && crateNode == CrateId(pkg)
    && (forall id :: id in NodeIds(nodes) ==> BuiltItem(pkg, id))
    && (forall id :: id in nodeOf ==> nodeOf[id] in NodeIds(nodes))
    && (forall e :: e in Elems(edges) ==>
          e.target in NodeIds(nodes) && (e.source in NodeIds(nodes) || e.source == crateNode))
    && (forall i :: i in Elems(impls) ==> i.0 in NodeIds(nodes))
    && (forall p :: p in Elems(pending) ==> p.from in NodeIds(nodes) && Named(p.item, p.krate))
  }

  class Ingest {
    const krate: Krate
    const pkg: string
    const workspace: set<string>
    const noDerives: bool
    const crateNode: string
    var nodeOf: map<Id, string>
    var nodes: seq<Node>
    var edges: seq<EdgeSpec>
    var impls: seq<(string, Id)>
    var pending: seq<Pending>

    constructor (krate: Krate, pkg: string, workspace: set<string>, noDerives: bool)
      ensures Valid() && this.krate == krate && this.pkg == pkg && this.workspace == workspace
      ensures crateNode == CrateId(pkg)
      ensures this.noDerives == noDerives && Pristine()
    {
      this.krate, this.pkg, this.workspace, this.noDerives, crateNode := krate, pkg, workspace, noDerives, CrateId(pkg);
      nodeOf, nodes, edges, impls, pending := map[], [], [], [], [];
    }

    predicate Pristine()
      reads this
    {
      nodes == [] && edges == [] && pending == [] && impls == [] && nodeOf == map[]
    }

    ghost predicate Valid()
      reads this
    {
      Closed(krate, pkg, crateNode, nodeOf, nodes, edges, impls, pending) && AllSpelled(Items(), pkg, nodeOf)
    }

    /** Where the walk stands. */
    ghost predicate Standing(trail: seq<Step>, path: string)
      reads this
    {
      At(Items(), pkg, nodeOf, trail, path)
    }

    function Unmapped(): nat
      reads this
    {
      Unwalked(krate, nodeOf)
    }

    function Scoped(): Scope
      reads this
    {
      Scope(krate, nodeOf, workspace)
    }

    function Items(): Tree {
      Tree(krate, noDerives)
    }

    ghost function Seen(): Walked
      reads this
    {
      Walked(nodeOf, Elems(edges), Elems(impls))
    }

    /** What a part of the walk did: only its own effect, and no more ids left to walk than before. */
    twostate predicate Walking(scope: set<Id>)
      reads this
    {
      && Effect(Items(), crateNode, old(Seen()), Seen(), scope)
      && NodeIds(old(nodes)) <= NodeIds(nodes) && Unmapped() <= old(Unmapped())
    }

    method PushEdge(source: string, target: string, relation: string)
      requires Valid() && target in NodeIds(nodes) && (source in NodeIds(nodes) || source == crateNode)
      modifies this`edges
      ensures Valid() && Elems(edges) == Elems(old(edges)) + {EdgeSpec(source, target, relation)}
    {
      ElemsPush(edges, EdgeSpec(source, target, relation));
      edges := edges + [EdgeSpec(source, target, relation)];
    }

    method PushPending(p: Pending)
      requires Valid() && p.from in NodeIds(nodes) && Named(p.item, p.krate)
      modifies this`pending
      ensures Valid() && Elems(pending) == Elems(old(pending)) + {p}
    {
      ElemsPush(pending, p);
      pending := pending + [p];
    }

    method PushImpl(owner: string, id: Id)
      requires Valid() && owner in NodeIds(nodes)
      modifies this`impls
      ensures Valid() && Elems(impls) == Elems(old(impls)) + {(owner, id)}
    {
      ElemsPush(impls, (owner, id));
      impls := impls + [(owner, id)];
    }

    /** A walkable step from where the walk stands, with the kind and the path it gives the item. */
    predicate Stepping(trail: seq<Step>, prefix: string, s: Step, id: Id, kind: string, path: string) {
      && s.child == id && Walkable(Items(), s) && s in StepsOf(Items(), OwnerOf(trail))
      && kind == TagOf(Items(), s) && path == PathOf(prefix, NameOf(Items(), s))
    }

    /** Map the id to its node before looking at anything it refers to: that is what ends the walk on a cycle. */
    method Register(id: Id, item: Item, name: string, kind: string, path: string, ghost trail: seq<Step>,
                    ghost prefix: string, ghost s: Step)
      returns (node: string)
      requires Valid() && id in krate.index && id !in nodeOf && Standing(trail, prefix)
      requires Stepping(trail, prefix, s, id, kind, path)
      modifies this`nodeOf, this`nodes
      ensures Valid() && node == ItemId(pkg, path, kind) && nodeOf == old(nodeOf)[id := node]
      ensures Standing(trail + [s], path)
      ensures nodes == old(nodes)
                + [Node(node, name, item.file, item.line, map["kind" := kind, "crate" := pkg, "path" := path])]
      ensures NodeIds(nodes) == NodeIds(old(nodes)) + {node}
      ensures Unmapped() < old(Unmapped())
    {
      hide BuiltItem, ItemId, CrateId, Elems, NodeIds, AllSpelled, At, Closed, Walkable, StepsOf, TagOf, NameOf,
        Unwalked;
      node := ItemId(pkg, path, kind);
      var made := Node(node, name, item.file, item.line, map["kind" := kind, "crate" := pkg, "path" := path]);
      OneMoreNode(id, made, path, kind);
      MappingSpells(Items(), pkg, nodeOf, trail, prefix, s);
      OneFewerLeft(id, node);
      nodeOf := nodeOf[id := node];
      nodes := nodes + [made];
    }

    lemma OneFewerLeft(id: Id, node: string)
      requires id in krate.index && id !in nodeOf
      ensures Unwalked(krate, nodeOf[id := node]) < Unmapped()
    {
      var left := krate.index.Keys - nodeOf.Keys;
      assert id in left && krate.index.Keys - nodeOf[id := node].Keys == left - {id};
    }

    lemma OneMoreNode(id: Id, made: Node, path: string, kind: string)
      requires Closed(krate, pkg, crateNode, nodeOf, nodes, edges, impls, pending)
      requires id in krate.index && made.id == ItemId(pkg, path, kind)
      ensures Closed(krate, pkg, crateNode, nodeOf[id := made.id], nodes + [made], edges, impls, pending)
      ensures NodeIds(nodes + [made]) == NodeIds(nodes) + {made.id}
    {
      hide BuiltItem, ItemId, CrateId, Elems, NodeIds;
      NodeIdsPush(nodes, made);
      assert BuiltItem(pkg, made.id) by { ItemIsBuilt(path, kind); }
    }

    lemma ItemIsBuilt(path: string, kind: string)
      ensures BuiltItem(pkg, ItemId(pkg, path, kind))
    {
    }

    lemma MappedNode(id: Id)
      requires Valid() && id in nodeOf
      ensures nodeOf[id] in NodeIds(nodes)
    {
    }

    /** A node for the item and everything it refers to, or the node it already has; None for what is not modelled. */
    method Walk(id: Id, prefix: string, force: Option<string>, ghost trail: seq<Step>, ghost s: Step,
                ghost scope: set<Id>)
      returns (r: Option<string>)
      requires Valid() && Stays(Items(), scope) && (Walkable(Items(), s) ==> id in scope)
      requires Standing(trail, prefix) && s.child == id && s.force == force && s in StepsOf(Items(), OwnerOf(trail))
      modifies this`nodeOf, this`nodes, this`edges, this`impls
      ensures Valid() && Walking(scope)
      ensures r.Some? <==> id in old(nodeOf) || Walkable(Items(), s)
      ensures r.Some? ==> id in nodeOf && nodeOf[id] == r.value && r.value in NodeIds(nodes)
      ensures r.Some? && id !in old(nodeOf) ==>
                r.value == ItemId(pkg, PathOf(prefix, krate.index[id].name.value),
                                  if force.Some? then force.value else KindOf(krate.index[id].inner).value)
      decreases Unmapped(), 1
    {
      EffectNone(Items(), crateNode, Seen(), scope);
      hide Unwalked, Effect, Steps, StepsOf, Closed, Finished, Stays, At, AllSpelled;
      if id in nodeOf {
        MappedNode(id);
        return Some(nodeOf[id]);
      }
      if id !in krate.index || krate.index[id].name.None? {
        return None;
      }
      var item := krate.index[id];
      var kind := if force.Some? then force else KindOf(item.inner);
      if kind.None? {
        return None;
      }
      var node := WalkFresh(id, item, item.name.value, kind.value, PathOf(prefix, item.name.value), trail, prefix, s,
        scope);
      return Some(node);
    }

    /** An item met for the first time: registered, then all that it refers to. */
    method WalkFresh(id: Id, item: Item, name: string, kind: string, path: string, ghost trail: seq<Step>,
                     ghost prefix: string, ghost s: Step, ghost scope: set<Id>)
      returns (node: string)
      requires Valid() && Stays(Items(), scope) && id in scope && Standing(trail, prefix)
      requires Stepping(trail, prefix, s, id, kind, path)
      requires id in krate.index && item == krate.index[id] && id !in nodeOf
      modifies this`nodeOf, this`nodes, this`edges, this`impls
      ensures Valid() && Walking(scope)
      ensures id in nodeOf && nodeOf[id] == node && node in NodeIds(nodes) && node == ItemId(pkg, path, kind)
      decreases Unmapped(), 0
    {
      hide Unwalked, Effect, Steps, Closed, Finished, Stays, At, AllSpelled;
      ghost var before := Seen();
      node := Register(id, item, name, kind, path, trail, prefix, s);
      WalkInner(id, node, path, item.inner, trail + [s], scope);
      EffectRegistered(Items(), crateNode, before, id, node, Seen(), scope);
      EffectKeepsNode(Items(), crateNode, before.(nodeOf := before.nodeOf[id := node]), Seen(), scope, id);
      MappedNode(id);
    }

    /** The children of an item just registered, then its impl blocks. */
    method WalkInner(id: Id, node: string, path: string, inner: Inner, ghost trail: seq<Step>, ghost scope: set<Id>)
      requires Valid() && Stays(Items(), scope) && id in scope && node in NodeIds(nodes)
      requires Standing(trail, path) && OwnerOf(trail) == Some(id)
      requires id in krate.index && inner == krate.index[id].inner && id in nodeOf && nodeOf[id] == node
      modifies this`nodeOf, this`nodes, this`edges, this`impls
      ensures Valid() && Walking(scope) && Finished(Items(), Seen(), id)
      decreases Unmapped(), 8
    {
      hide Unwalked, Effect, Closed, Linked, Recorded, Finished, ImplSteps, OwnSteps, Walkable, Considered, Into, Stays,
        NodeIds, Elems, Blocks, Steps, StepsOf, At, AllSpelled;
      StepsStay(id, scope);
      ghost var before := Seen();
      WalkOwn(id, node, path, inner, trail, scope);
      ghost var middle := Seen();
      EffectKeepsNode(Items(), crateNode, before, middle, scope, id);
      AtKept(Items(), crateNode, pkg, before, middle, scope, trail, path);
      WalkImpls(id, node, path, Blocks(inner), trail, scope);
      InnerAdvances(Items(), crateNode, before, middle, Seen(), scope, id);
    }

    lemma StepsStay(id: Id, scope: set<Id>)
      requires Stays(Items(), scope) && id in scope && id in krate.index
      ensures Into(Items(), OwnSteps(krate.index[id].inner), scope)
      ensures Into(Items(), ImplSteps(Items(), Blocks(krate.index[id].inner)), scope)
    {
      var inner := krate.index[id].inner;
      forall s | s in Steps(Items(), inner) && Walkable(Items(), s) ensures s.child in scope {
        assert s in StepsOf(Items(), Some(id));
      }
    }

    method WalkOwn(id: Id, node: string, path: string, inner: Inner, ghost trail: seq<Step>, ghost scope: set<Id>)
      requires Standing(trail, path) && OwnerOf(trail) == Some(id)
      requires Valid() && Stays(Items(), scope) && Into(Items(), OwnSteps(inner), scope) && node in NodeIds(nodes)
      requires id in krate.index && inner == krate.index[id].inner && id in nodeOf && nodeOf[id] == node
      modifies this`nodeOf, this`nodes, this`edges, this`impls
      ensures Valid() && Walking(scope) && Linked(Items(), Seen(), node, OwnSteps(inner))
      decreases Unmapped(), 5
    {
      hide Unwalked, Effect, Closed, Walkable, ImplSteps, Into, Stays, NodeIds, Elems, At, AllSpelled;
      EffectNone(Items(), crateNode, Seen(), scope);
      match inner
      case Module(items) => WalkChildren(trail, node, path, items, "contains", None, scope);
      case Struct(fields, _) => WalkChildren(trail, node, path, fields, "has_field", None, scope);
      case Enum(variants, _) => WalkChildren(trail, node, path, variants, "has_variant", None, scope);
      case Union(fields, _) => WalkChildren(trail, node, path, fields, "has_field", None, scope);
      case Trait(items) => WalkChildren(trail, node, path, items, "has_method", Some("method"), scope);
      case Variant(fields) => WalkChildren(trail, node, path, fields, "has_field", None, scope);
      case _ =>
    }

    method WalkChildren(ghost trail: seq<Step>, node: string, path: string, children: seq<Id>, relation: string,
                        force: Option<string>, ghost scope: set<Id>)
      requires Valid() && Stays(Items(), scope) && (node in NodeIds(nodes) || node == crateNode)
      requires OwnerNode(Seen(), crateNode, OwnerOf(trail), node) && Standing(trail, path)
      requires ChildSteps(children, relation, force) <= StepsOf(Items(), OwnerOf(trail))
      requires Into(Items(), ChildSteps(children, relation, force), scope)
      modifies this`nodeOf, this`nodes, this`edges, this`impls
      ensures Valid() && Walking(scope) && Linked(Items(), Seen(), node, ChildSteps(children, relation, force))
      decreases Unmapped(), 4
    {
      hide Unwalked, Effect, Closed, StepsOf, Walkable, ChildSteps, Linked, NodeIds, Elems, Stays, Into, OwnerNode, At,
        AllSpelled, OwnerOf;
      EffectNone(Items(), crateNode, Seen(), scope);
      NoChildren(children, relation, force);
      NothingLinked(Items(), Seen(), node);
      for i := 0 to |children|
        invariant Valid() && Walking(scope) && (node in NodeIds(nodes) || node == crateNode)
        invariant Linked(Items(), Seen(), node, ChildSteps(children[..i], relation, force))
      {
        ghost var before := Seen();
        OwnerKept(Items(), crateNode, old(Seen()), before, scope, OwnerOf(trail), node);
        AtKept(Items(), crateNode, pkg, old(Seen()), before, scope, trail, path);
        WalkNth(trail, node, path, children, i, relation, force, scope);
        EffectChain(Items(), crateNode, old(Seen()), before, Seen(), scope);
      }
      assert children[..|children|] == children;
    }

    method WalkNth(ghost trail: seq<Step>, node: string, path: string, children: seq<Id>, i: nat, relation: string,
                   force: Option<string>, ghost scope: set<Id>)
      requires i < |children| && Valid() && Stays(Items(), scope) && (node in NodeIds(nodes) || node == crateNode)
      requires OwnerNode(Seen(), crateNode, OwnerOf(trail), node) && Standing(trail, path)
      requires ChildSteps(children, relation, force) <= StepsOf(Items(), OwnerOf(trail))
      requires Into(Items(), ChildSteps(children, relation, force), scope)
      requires Linked(Items(), Seen(), node, ChildSteps(children[..i], relation, force))
      modifies this`nodeOf, this`nodes, this`edges, this`impls
      ensures Valid() && Walking(scope)
      ensures Linked(Items(), Seen(), node, ChildSteps(children[..i + 1], relation, force))
      decreases Unmapped(), 3
    {
      hide Unwalked, Effect, Closed, StepsOf, Walkable, ChildSteps, Linked, NodeIds, Elems, Stays, Into, OwnerNode, At,
        AllSpelled, OwnerOf;
      ghost var before := Seen();
      ghost var s := Step(children[i], relation, force);
      OneMoreChild(children, i, relation, force);
      IntoChild(Items(), ChildSteps(children, relation, force), s, scope);
      EffectNone(Items(), crateNode, before, scope);
      WalkChild(trail, s, node, path, children[i], relation, force, scope);
      ChildrenAdvance(Items(), crateNode, before, before, Seen(), scope, node, children, i, relation, force);
    }

    method WalkChild(ghost trail: seq<Step>, ghost s: Step, node: string, path: string, child: Id, relation: string,
                     force: Option<string>, ghost scope: set<Id>)
      requires Valid() && Stays(Items(), scope) && (node in NodeIds(nodes) || node == crateNode)
      requires OwnerNode(Seen(), crateNode, OwnerOf(trail), node) && Standing(trail, path)
      requires s == Step(child, relation, force) && s in StepsOf(Items(), OwnerOf(trail))
      requires (Walkable(Items(), s) ==> child in scope)
      modifies this`nodeOf, this`nodes, this`edges, this`impls
      ensures Valid() && Walking(scope) && Linked(Items(), Seen(), node, {s})
      decreases Unmapped(), 2
    {
      hide Unwalked, Effect, Closed, StepsOf, Stays, Linked, At, AllSpelled, OwnerOf;
      var walked := Walk(child, path, force, trail, s, scope);
      ghost var middle := Seen();
      if walked.Some? {
        OwnerKept(Items(), crateNode, old(Seen()), middle, scope, OwnerOf(trail), node);
        EffectEdge(Items(), crateNode, middle, OwnerOf(trail), node, s, scope);
        PushEdge(node, walked.value, relation);
        assert Seen() == middle.(edges := middle.edges + {EdgeSpec(node, walked.value, relation)});
        EffectChain(Items(), crateNode, old(Seen()), middle, Seen(), scope);
      }
      LinkedOne(Items(), Seen(), node, s);
    }

    /**
     The items of impl blocks, synthetic, blanket and skipped ones left out, and the blocks kept for the type pass.
     */
    method WalkImpls(id: Id, node: string, path: string, blocks: seq<Id>, ghost trail: seq<Step>, ghost scope: set<Id>)
      requires Standing(trail, path) && OwnerOf(trail) == Some(id)
      requires Valid() && Stays(Items(), scope) && Into(Items(), ImplSteps(Items(), blocks), scope)
      requires node in NodeIds(nodes)
      requires id in krate.index && id in nodeOf && nodeOf[id] == node && blocks == Blocks(krate.index[id].inner)
      modifies this`nodeOf, this`nodes, this`edges, this`impls
      ensures Valid() && Walking(scope)
      ensures Linked(Items(), Seen(), node, ImplSteps(Items(), blocks)) && Recorded(Items(), Seen(), node, blocks)
      decreases Unmapped(), 7
    {
      hide Unwalked, Effect, Closed, Walkable, Stays, Into, ImplSteps, Considered, Linked, Recorded, NodeIds, Elems,
        Blocks, At, AllSpelled;
      EffectNone(Items(), crateNode, Seen(), scope);
      assert blocks[..0] == [];
      NothingLinked(Items(), Seen(), node);
      for i := 0 to |blocks|
        invariant Valid() && Walking(scope) && node in NodeIds(nodes)
        invariant Linked(Items(), Seen(), node, ImplSteps(Items(), blocks[..i]))
        invariant Recorded(Items(), Seen(), node, blocks[..i])
      {
        ghost var before := Seen();
        EffectKeepsNode(Items(), crateNode, old(Seen()), before, scope, id);
        AtKept(Items(), crateNode, pkg, old(Seen()), before, scope, trail, path);
        WalkNthBlock(id, node, path, blocks, i, trail, scope);
        EffectChain(Items(), crateNode, old(Seen()), before, Seen(), scope);
      }
      assert blocks[..|blocks|] == blocks;
    }

    method WalkNthBlock(id: Id, node: string, path: string, blocks: seq<Id>, i: nat, ghost trail: seq<Step>,
                        ghost scope: set<Id>)
      requires Standing(trail, path) && OwnerOf(trail) == Some(id)
      requires i < |blocks| && Valid() && Stays(Items(), scope) && node in NodeIds(nodes)
      requires Into(Items(), ImplSteps(Items(), blocks), scope)
      requires id in krate.index && id in nodeOf && nodeOf[id] == node && blocks == Blocks(krate.index[id].inner)
      requires Linked(Items(), Seen(), node, ImplSteps(Items(), blocks[..i]))
      requires Recorded(Items(), Seen(), node, blocks[..i])
      modifies this`nodeOf, this`nodes, this`edges, this`impls
      ensures Valid() && Walking(scope)
      ensures Linked(Items(), Seen(), node, ImplSteps(Items(), blocks[..i + 1]))
      ensures Recorded(Items(), Seen(), node, blocks[..i + 1])
      decreases Unmapped(), 6
    {
      hide Unwalked, Effect, Closed, Walkable, Stays, Into, ImplSteps, BlockSteps, StepsOf, Considered, Linked,
        Recorded, NodeIds, Elems, Blocks, At, AllSpelled;
      BlockIsPart(Items(), id, blocks, i);
      IntoPart(Items(), ImplSteps(Items(), blocks), BlockSteps(Items(), blocks[i]), scope);
      ghost var before := Seen();
      WalkBlock(id, node, path, blocks[i], trail, scope);
      BlocksAdvance(Items(), crateNode, before, Seen(), scope, node, blocks, i);
    }

    method WalkBlock(id: Id, node: string, path: string, block: Id, ghost trail: seq<Step>, ghost scope: set<Id>)
      requires Standing(trail, path) && OwnerOf(trail) == Some(id)
      requires Valid() && Stays(Items(), scope) && node in NodeIds(nodes)
      requires id in krate.index && id in nodeOf && nodeOf[id] == node && block in Blocks(krate.index[id].inner)
      requires Into(Items(), BlockSteps(Items(), block), scope)
      requires BlockSteps(Items(), block) <= StepsOf(Items(), Some(id))
      modifies this`nodeOf, this`nodes, this`edges, this`impls
      ensures Valid() && Walking(scope) && Linked(Items(), Seen(), node, BlockSteps(Items(), block))
      ensures Considered(Items(), block) ==> (node, block) in Seen().impls
      decreases Unmapped(), 5
    {
      EffectNone(Items(), crateNode, Seen(), scope);
      NothingLinked(Items(), Seen(), node);
      hide Unwalked, Effect, Closed, StepsOf, Walkable, Stays, Linked, Into, Blocks, ImplSteps, At, AllSpelled;
      if block in krate.index {
        var item := krate.index[block];
        if item.inner.Impl? && !item.inner.noise && !(noDerives && item.derived) {
          WalkChildren(trail, node, path, item.inner.items, "has_method", Some("method"), scope);
          ghost var middle := Seen();
          EffectKeepsNode(Items(), crateNode, old(Seen()), middle, scope, id);
          EffectImpl(Items(), crateNode, middle, id, block, scope);
          PushImpl(node, block);
          assert Seen() == middle.(impls := middle.impls + {(node, block)});
          EffectChain(Items(), crateNode, old(Seen()), middle, Seen(), scope);
          LinkedKept(Items(), crateNode, middle, Seen(), scope, node, BlockSteps(Items(), block));
        }
      }
    }

    /**
     The root module's children hang from the crate's own node; then the types are resolved. The walk gives a node to
     exactly the reachable items and finishes every one of them; its edges are those of their steps and of the root's.
     */
    method Run() returns (ghost walked: Walked)
      requires Valid() && Pristine()
      modifies this
      ensures Valid() && walked.nodeOf == nodeOf && walked.impls == Elems(impls) && Whole(Items(), crateNode, walked)
      ensures Elems(edges) == walked.edges + TypeEdges(Scoped(), nodeOf.Keys) + ImplEdges(Scoped(), impls)
      ensures Elems(pending) == TypePending(Scoped(), nodeOf.Keys) + ImplPending(Scoped(), impls)
    {
      hide *;
      walked := WalkRoot();
      TypePass();
    }

    method WalkRoot() returns (ghost walked: Walked)
      requires Valid() && Pristine()
      modifies this`nodeOf, this`nodes, this`edges, this`impls
      ensures Valid() && walked == Walked(nodeOf, Elems(edges), Elems(impls)) && Elems(pending) == {}
      ensures Whole(Items(), crateNode, walked)
    {
      ghost var scope := Reached(Items());
      ghost var none := NothingSeen();
      ScopeIsClosed();
      assert Elems(pending) == {};
      hide *;
      WalkTop(scope);
      walked := Walked(nodeOf, Elems(edges), Elems(impls));
      WalkReachesAll(Items(), crateNode, none, walked);
    }

    lemma NothingSeen() returns (none: Walked)
      requires Pristine()
      ensures none == Seen() && none == Walked(map[], {}, {})
    {
      none := Walked(map[], {}, {});
    }

    method WalkTop(ghost scope: set<Id>)
      requires Valid() && Stays(Items(), scope) && Into(Items(), RootSteps(Items()), scope)
      modifies this`nodeOf, this`nodes, this`edges, this`impls
      ensures Valid() && Effect(Items(), crateNode, old(Seen()), Walked(nodeOf, Elems(edges), Elems(impls)), scope)
      ensures Linked(Items(), Walked(nodeOf, Elems(edges), Elems(impls)), crateNode, RootSteps(Items()))
    {
      EffectNone(Items(), crateNode, Seen(), scope);
      NothingLinked(Items(), Seen(), crateNode);
      AtStart(Items(), pkg, nodeOf);
      hide Unwalked, Closed, NodeIds, Effect, Linked, Stays, Into, Elems, ChildSteps, At, AllSpelled;
      if krate.root in krate.index && krate.index[krate.root].inner.Module? {
        WalkChildren([], crateNode, "", krate.index[krate.root].inner.items, "contains", None, scope);
      }
    }

    lemma ScopeIsClosed()
      ensures Stays(Items(), Reached(Items())) && Into(Items(), RootSteps(Items()), Reached(Items()))
    {
      hide Reached, Walkable, StepsOf;
      var scope := Reached(Items());
      forall id, s | id in scope && s in StepsOf(Items(), Some(id)) && Walkable(Items(), s) ensures s.child in scope {
        ReachedIsClosed(Items(), Some(id), s);
      }
      forall s | s in RootSteps(Items()) && Walkable(Items(), s) ensures s.child in scope {
        RootStepsAre(s);
        ReachedIsClosed(Items(), None, s);
      }
    }

    lemma RootStepsAre(s: Step)
      requires s in RootSteps(Items())
      ensures s in StepsOf(Items(), None)
    {
    }

    /** Hash order: any unvisited entry next. What is collected is a set fixed by the walk alone. */
    method TypePass()
      requires Valid()
      modifies this`edges, this`pending
      ensures Valid()
      ensures Elems(edges) == Elems(old(edges)) + TypeEdges(Scoped(), nodeOf.Keys) + ImplEdges(Scoped(), impls)
      ensures Elems(pending) == Elems(old(pending)) + TypePending(Scoped(), nodeOf.Keys) + ImplPending(Scoped(), impls)
    {
      ItemPass();
      ImplPass();
    }

    method ItemPass()
      requires Valid()
      modifies this`edges, this`pending
      ensures Valid()
      ensures Elems(edges) == Elems(old(edges)) + TypeEdges(Scoped(), nodeOf.Keys)
      ensures Elems(pending) == Elems(old(pending)) + TypePending(Scoped(), nodeOf.Keys)
    {
      ghost var scope, done := Scoped(), {};
      ghost var linked, deferred := Elems(edges), Elems(pending);
      NoIds(scope);
      hide *;
      var left := nodeOf.Keys;
      while left != {}
        invariant Valid() && done + left == nodeOf.Keys && Scoped() == scope
        invariant Elems(edges) == linked + TypeEdges(scope, done)
        invariant Elems(pending) == deferred + TypePending(scope, done)
        decreases left
      {
        var id :| id in left;
        AddItem(id);
        OneMoreId(scope, done, id, linked, deferred);
        done, left := done + {id}, left - {id};
      }
      assert done == nodeOf.Keys;
    }

    method AddItem(id: Id)
      requires Valid() && id in nodeOf
      modifies this`edges, this`pending
      ensures Valid() && Scoped() == old(Scoped()) && Scoped().nodeOf == nodeOf
      ensures Elems(edges) == Elems(old(edges)) + UseEdges(Scoped(), nodeOf[id], ItemUses(Scoped(), id))
      ensures Elems(pending) == Elems(old(pending)) + UsePending(Scoped(), nodeOf[id], ItemUses(Scoped(), id))
    {
      MappedNode(id);
      hide Closed, NodeIds, Elems, UseEdges, UsePending, ItemUses;
      AddUses(nodeOf[id], ItemUses(Scoped(), id));
    }

    method AddUses(node: string, uses: seq<(Type, string)>)
      requires Valid() && node in NodeIds(nodes)
      modifies this`edges, this`pending
      ensures Valid()
      ensures Elems(edges) == Elems(old(edges)) + UseEdges(Scoped(), node, uses)
      ensures Elems(pending) == Elems(old(pending)) + UsePending(Scoped(), node, uses)
    {
      hide Closed, NodeIds, Elems;
      for i := 0 to |uses|
        invariant Valid()
        invariant Elems(edges) == Elems(old(edges)) + UseEdges(Scoped(), node, uses[..i])
        invariant Elems(pending) == Elems(old(pending)) + UsePending(Scoped(), node, uses[..i])
      {
        assert uses[..i + 1][..i] == uses[..i];
        var (t, relation) := uses[i];
        TypeResolves(Scoped(), t);
        AddReference(node, ResolveType(Scoped(), t), relation, false);
      }
      assert uses[..|uses|] == uses;
    }

    /** One resolved reference: an edge, a deferred edge, or nothing. */
    method AddReference(node: string, r: Option<Resolved>, relation: string, loops: bool)
      requires Valid() && node in NodeIds(nodes)
      requires Resolves(Scoped(), r)
      modifies this`edges, this`pending
      ensures Valid()
      ensures Elems(edges) == Elems(old(edges)) + Option2Set(EdgeOf(node, r, relation, loops))
      ensures Elems(pending) == Elems(old(pending)) + Option2Set(PendingOf(node, r, relation))
    {
      hide Closed, AllSpelled, NodeIds, Elems, Named;
      if r.None? {
        return;
      }
      match r.value {
        case Local(target) =>
          if loops || target != node {
            MappedTarget(target);
            PushEdge(node, target, relation);
          }
        case External(item, krate) =>
          PushPending(Pending(node, item, krate, relation));
      }
    }

    lemma MappedTarget(target: string)
      requires Valid() && target in nodeOf.Values
      ensures target in NodeIds(nodes)
    {
      var id :| id in nodeOf && nodeOf[id] == target;
    }

    method ImplPass()
      requires Valid()
      modifies this`edges, this`pending
      ensures Valid()
      ensures Elems(edges) == Elems(old(edges)) + ImplEdges(Scoped(), impls)
      ensures Elems(pending) == Elems(old(pending)) + ImplPending(Scoped(), impls)
    {
      hide Closed, NodeIds, Elems, ImplEdges, ImplPending, TraitOf, EdgeOf, PendingOf;
      NoImpls(Scoped());
      for i := 0 to |impls|
        invariant Valid()
        invariant Elems(edges) == Elems(old(edges)) + ImplEdges(Scoped(), impls[..i])
        invariant Elems(pending) == Elems(old(pending)) + ImplPending(Scoped(), impls[..i])
      {
        var (owner, block) := impls[i];
        ImplNext(Scoped(), impls, i);
        ImplOwner(i);
        TraitResolves(Scoped(), block);
        AddReference(owner, TraitOf(Scoped(), block), "implements", true);
      }
      assert impls[..|impls|] == impls;
    }

    lemma ImplOwner(i: nat)
      requires Valid() && i < |impls|
      ensures impls[i].0 in NodeIds(nodes)
    {
      ElemsMember(impls, impls[i]);
    }

    /** Nodes, then edges: given its crate's node, every collected edge reaches the graph and the filter drops none. */
    method Apply(graph: Graph) returns (added: nat)
      requires Valid()
      modifies graph
      ensures graph.Abs() == LandAll(AddNodes(old(graph.Abs()), nodes), edges)
      ensures graph.nodes.Keys == old(graph.nodes).Keys + NodeIds(nodes) && added == |graph.nodes| - |old(graph.nodes)|
      ensures crateNode in old(graph.nodes) ==>
                graph.edges.Keys == old(graph.edges).Keys + (set e | e in Elems(edges) :: KeyOf(e))
    {
      var start := |graph.nodes|;
      ghost var before := graph.Abs();
      AddAllNodes(graph, nodes);
      AddNodesKeys(before, nodes);
      ghost var based := graph.Abs();
      LandEdges(graph, edges);
      LandAllKeys(based, edges);
      if crateNode in before.nodes { EveryEdgeLands(based.nodes.Keys); }
      assert graph.Abs().nodes.Keys == before.nodes.Keys + NodeIds(nodes);
      KeysCount(graph.nodes, before.nodes);
      added := |graph.nodes| - start;
    }

    lemma EveryEdgeLands(present: set<string>)
      requires Valid() && NodeIds(nodes) <= present && crateNode in present
      ensures Landed(Elems(edges), present) == set e | e in Elems(edges) :: KeyOf(e)
    {
    }
  }

  lemma KeysCount<K, V>(m: map<K, V>, n: map<K, V>)
    requires n.Keys <= m.Keys
    ensures |n| <= |m|
  {
    assert m.Keys == n.Keys + (m.Keys - n.Keys);
    assert |m.Keys| == |m| && |n.Keys| == |n|;
  }

  lemma NoIds(s: Scope)
    ensures TypeEdges(s, {}) == {} && TypePending(s, {}) == {}
  {
  }

  lemma OneMoreId(s: Scope, ids: set<Id>, id: Id, linked: set<EdgeSpec>, deferred: set<Pending>)
    requires id in s.nodeOf
    ensures linked + TypeEdges(s, ids + {id}) == linked + TypeEdges(s, ids) + UseEdges(s, s.nodeOf[id], ItemUses(s, id))
    ensures deferred + TypePending(s, ids + {id})
         == deferred + TypePending(s, ids) + UsePending(s, s.nodeOf[id], ItemUses(s, id))
  {
    hide UseEdges, UsePending, ItemUses;
    assert TypeEdges(s, ids + {id}) == TypeEdges(s, ids) + UseEdges(s, s.nodeOf[id], ItemUses(s, id));
    assert TypePending(s, ids + {id}) == TypePending(s, ids) + UsePending(s, s.nodeOf[id], ItemUses(s, id));
  }
}
