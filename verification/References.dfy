/**
 References between documented crates. A summary of another crate's item leads to the very id that crate's own walk
 gives the item, so once every crate is ingested its edge reaches the item and not just the crate.
 */
module References {
  import opened Bytes
  import opened Measure
  import opened GraphModel
  import opened ItemNames
  import opened ItemTree
  import opened Rustdoc

  // ----- kinds on both sides -----

  /** What a summary calls an item of this form. */
  predicate Classed(inner: Inner, kind: ItemKind) {
    match inner
    case Module(_) => kind.ModuleKind?
    case Struct(_, _) => kind.StructKind?
    case Enum(_, _) => kind.EnumKind?
    case Union(_, _) => kind.UnionKind?
    case Trait(_) => kind.TraitKind?
    case Variant(_) => kind.VariantKind?
    case Impl(_, _, _) => kind.OtherKind?
    case StructField(_) => kind.FieldKind?
    case Function(_, _) => kind.FunctionKind?
    case TypeAlias(_) => kind.TypeAliasKind?
    case Static(_) => kind.StaticKind?
    case Constant(_) => kind.ConstantKind?
    case TraitAlias => kind.TraitAliasKind?
    case AssocConst => kind.AssocConstKind?
    case Macro => kind.MacroKind?
    case ProcMacro => kind.MacroKind? || kind.ProcAttributeKind? || kind.ProcDeriveKind?
    case Primitive => kind.PrimitiveKind?
    case AssocType => kind.AssocTypeKind?
    case Unmodelled => kind.ExternTypeKind? || kind.OtherKind?
  }

  /** A walk only ever forces one kind. */
  lemma ForcedIsMethod(t: Tree, owner: Option<Id>, s: Step)
    requires s in StepsOf(t, owner)
    ensures s.force.None? || s.force.value == "method"
  {
    if owner.Some? && owner.value in t.krate.index {
      var inner := t.krate.index[owner.value].inner;
      if s in ImplSteps(t, Blocks(inner)) { ImplForcesMethod(t, Blocks(inner), s); }
    }
  }

  lemma {:induction false} ImplForcesMethod(t: Tree, blocks: seq<Id>, s: Step)
    requires s in ImplSteps(t, blocks)
    ensures s.force == Some("method")
    decreases |blocks|
  {
    if s !in BlockSteps(t, blocks[|blocks| - 1]) { ImplForcesMethod(t, blocks[..|blocks| - 1], s); }
  }

  // ----- ids on both sides -----

  lemma ItemIdEnds(krate: string, path: string, kind: string)
    ensures var id := ItemId(krate, path, kind);
            && |id| == |krate| + |path| + |kind| + 10 && id[|id| - |kind|..] == Norm(kind) && id[0] == 'i'
  {
  }

  /** No summary is tagged the way a walk tags methods, whatever paths the tags follow. */
  lemma MethodIsNotSummarized(krate: string, built: string, joined: string, kind: ItemKind)
    ensures ItemId(krate, built, "method") != ItemId(krate, joined, SummaryTag(kind))
  {
    var tag := SummaryTag(kind);
    var a, b := ItemId(krate, built, "method"), ItemId(krate, joined, tag);
    ItemIdEnds(krate, built, "method");
    ItemIdEnds(krate, joined, tag);
    assert Norm("method")[4..] == "od" && Norm(tag)[|tag| - 2..] != "od" by { TagEnds(kind); }
    assert a[|a| - 6..][4..] == a[|a| - 2..];
    assert b[|b| - |tag|..][|tag| - 2..] == b[|b| - 2..];
  }

  lemma TagEnds(kind: ItemKind)
    ensures var tag := SummaryTag(kind); |tag| >= 4 && Norm(tag)[|tag| - 2..] != "od" == Norm("method")[4..]
  {
    var tag := SummaryTag(kind);
    assert Norm("method")[4..] == ['o', 'd'];
    assert tag[|tag| - 2] == 'l' || tag[|tag| - 1] != 'd' by {
      match kind
      case ModuleKind => assert tag[5] == 'e';
      case StructKind => assert tag[5] == 't';
      case FieldKind => assert tag[3] == 'l';
      case EnumKind => assert tag[3] == 'm';
      case VariantKind => assert tag[6] == 't';
      case UnionKind => assert tag[4] == 'n';
      case FunctionKind => assert tag[7] == 'n';
      case TraitKind => assert tag[4] == 't';
      case TraitAliasKind => assert tag[4] == 't';
      case ConstantKind => assert tag[4] == 't';
      case AssocConstKind => assert tag[4] == 't';
      case StaticKind => assert tag[5] == 'c';
      case MacroKind => assert tag[4] == 'o';
      case ProcAttributeKind => assert tag[4] == 'o';
      case ProcDeriveKind => assert tag[4] == 'o';
      case OtherKind => assert tag[3] == 'm';
      case _ => assert tag[3] == 'e';
    }
    assert Norm(tag)[|tag| - 2..] == [Norm(tag)[|tag| - 2], Norm(tag)[|tag| - 1]];
  }

  // ----- resolving a reference -----

  /** The summary a document gives of another crate's item: the crate, the names along the item's trail, its class. */
  ghost predicate Summarizes(s: Summary, krate: string, t: Tree, trail: seq<Step>) {
    && trail != [] && Trail(t, trail) && s.path == [krate] + Names(t, trail)
    && Classed(t.krate.index[trail[|trail| - 1].child].inner, s.kind)
  }

  /** Which references stay inside the crate, and which are refused. */
  lemma RefusedIff(s: Scope, id: Id)
    ensures if id in s.nodeOf then ResolveId(s, id) == Some(Local(s.nodeOf[id]))
            else ResolveId(s, id).None? || ResolveId(s, id).value.External?
    ensures ResolveId(s, id).None? <==>
              && id !in s.nodeOf
              && (id in s.krate.paths && s.krate.paths[id].path != [] ==>
                    Norm(s.krate.paths[id].path[0]) !in s.workspace)
    ensures id !in s.nodeOf && id in s.krate.paths && |s.krate.paths[id].path| == 1 && ResolveId(s, id).Some? ==>
              var krate := CrateId(s.krate.paths[id].path[0]); ResolveId(s, id) == Some(External(krate, krate))
  {
  }

  /**
   An item of another crate is referred to by the id its own crate's walk gives it if and only if its outermost name is
   not empty and its kind is not forced: the walk leaves out an empty first name, and calls associated items methods.
   */
  lemma ReferenceNamesItem(s: Scope, id: Id, krate: string, t: Tree, pkg: string, nodeOf: map<Id, string>,
                           trail: seq<Step>)
    requires id !in s.nodeOf && id in s.krate.paths && Summarizes(s.krate.paths[id], krate, t, trail)
    requires Norm(krate) == Norm(pkg) && Norm(pkg) in s.workspace && Spelled(t, pkg, nodeOf, trail)
    ensures var last := trail[|trail| - 1];
            && last.child in nodeOf
            && (ResolveId(s, id) == Some(External(nodeOf[last.child], CrateId(pkg))) <==>
                Names(t, trail)[0] != "" && last.force.None?)
  {
    hide Trail, StepsOf, Classed, SummaryTag, JoinPath, Norm, KindOf;
    var last, summary := trail[|trail| - 1], s.krate.paths[id];
    assert trail[..|trail|] == trail && Spells(t, pkg, nodeOf, trail[..|trail|]);
    assert summary.path[1..] == Names(t, trail);
    var joined := JoinPath(Names(t, trail));
    BuiltUpIsJoined(t, trail);
    LastStep(t, trail);
    ForcedIsMethod(t, OwnerOf(trail[..|trail| - 1]), last);
    var found := if joined == "" then CrateId(krate) else ItemId(krate, joined, SummaryTag(summary.kind));
    assert ResolveId(s, id) == Some(External(found, CrateId(pkg)));
    SameId(pkg, krate, PathAlong(t, trail), joined, t.krate.index[last.child].inner, last.force, summary.kind);
  }

  lemma LastStep(t: Tree, trail: seq<Step>)
    requires trail != [] && Trail(t, trail)
    ensures trail[|trail| - 1] in StepsOf(t, OwnerOf(trail[..|trail| - 1])) && Walkable(t, trail[|trail| - 1])
  {
  }

  lemma SameId(pkg: string, krate: string, built: string, joined: string, inner: Inner, force: Option<string>,
               kind: ItemKind)
    requires Norm(krate) == Norm(pkg) && Classed(inner, kind) && (force.None? ==> KindOf(inner).Some?)
    requires force.None? || force.value == "method"
    requires built == joined || joined == "" || |built| < |joined|
    ensures var walked := ItemId(pkg, built, if force.Some? then force.value else KindOf(inner).value);
            var found := if joined == "" then CrateId(krate) else ItemId(krate, joined, SummaryTag(kind));
            walked == found <==> built == joined != "" && force.None?
  {
    if KindOf(inner).Some? { TagsAgree(inner, kind); }
    hide Norm, Classed, SummaryTag, KindOf;
    assert |krate| == |Norm(krate)| && |pkg| == |Norm(pkg)|;
    assert ItemId(krate, joined, SummaryTag(kind)) == ItemId(pkg, joined, SummaryTag(kind));
    ItemIdEnds(pkg, joined, SummaryTag(kind));
    MethodIsNotSummarized(pkg, built, joined, kind);
    if force.None? { ItemIdEnds(pkg, built, KindOf(inner).value); } else { ItemIdEnds(pkg, built, "method"); }
    assert CrateId(krate)[0] == 'c';
  }

  /** What a walk calls an item of its own accord is what a summary of it is read as. */
  lemma TagsAgree(inner: Inner, kind: ItemKind)
    requires Classed(inner, kind) && KindOf(inner).Some?
    ensures SummaryTag(kind) == KindOf(inner).value
  {
  }

  // ----- every crate, then the references between them -----

  /** A package selected for documentation, and its document if that could be read. */
  datatype Package = Package(name: string, document: Option<Krate>)

  /** The document is there and has a root module. */
  predicate Documented(p: Package) {
    && p.document.Some? && p.document.value.root in p.document.value.index
    && p.document.value.index[p.document.value.root].inner.Module?
  }

  /** What one crate contributes: the items its walk mapped, and what was collected. */
  datatype Layer = Layer(pkg: string, scope: Scope, walked: Walked, nodes: seq<Node>, impls: seq<(string, Id)>,
                         edges: seq<EdgeSpec>, pending: seq<Pending>)

  /** The contribution is that of a whole walk and its type pass. */
  ghost predicate Ingested(l: Layer, p: Package, workspace: set<string>, noDerives: bool) {
    && Documented(p) && l.pkg == p.name && l.scope == Scope(p.document.value, l.walked.nodeOf, workspace)
    && Whole(Tree(p.document.value, noDerives), CrateId(p.name), l.walked)
    && AllSpelled(Tree(p.document.value, noDerives), p.name, l.walked.nodeOf)
    && l.walked.impls == Elems(l.impls) && l.walked.nodeOf.Values <= NodeIds(l.nodes)
    && Elems(l.edges) == l.walked.edges + TypeEdges(l.scope, l.walked.nodeOf.Keys) + ImplEdges(l.scope, l.impls)
    && Elems(l.pending) == TypePending(l.scope, l.walked.nodeOf.Keys) + ImplPending(l.scope, l.impls)
  }

  ghost predicate AllIngested(layers: seq<Option<Layer>>, packages: seq<Package>, workspace: set<string>,
                              noDerives: bool)
  {
    && |layers| == |packages|
    && forall i :: 0 <= i < |packages| ==>
         if Documented(packages[i]) then
           layers[i].Some? && Ingested(layers[i].value, packages[i], workspace, noDerives)
         else layers[i].None?
  }

  function AddLayer(g: GraphState, l: Option<Layer>): GraphState {
    if l.None? then g else LandAll(AddNodes(g, l.value.nodes), l.value.edges)
  }

  function AddLayers(g: GraphState, layers: seq<Option<Layer>>): GraphState {
    if layers == [] then g else AddLayer(AddLayers(g, layers[..|layers| - 1]), layers[|layers| - 1])
  }

  function DeferredOf(l: Option<Layer>): seq<Pending> {
    if l.None? then [] else l.value.pending
  }

  function Deferred(layers: seq<Option<Layer>>): seq<Pending> {
    if layers == [] then [] else Deferred(layers[..|layers| - 1]) + DeferredOf(layers[|layers| - 1])
  }

  /** Every documented package in turn, the others skipped; then the references between them. */
  method AddItemLayer(graph: Graph, packages: seq<Package>, workspace: set<string>, noDerives: bool)
    returns (items: nat, ghost layers: seq<Option<Layer>>)
    modifies graph
    ensures AllIngested(layers, packages, workspace, noDerives)
    ensures graph.Abs() == SettleAll(AddLayers(old(graph.Abs()), layers), Deferred(layers))
    ensures items == |graph.nodes| - |old(graph.nodes)|
  {
    hide *;
    var pending: seq<Pending> := [];
    items, layers := 0, [];
    ghost var start := |graph.nodes|;
    NoLayers(graph.Abs(), packages, workspace, noDerives);
    for i := 0 to |packages|
      invariant AllIngested(layers, packages[..i], workspace, noDerives)
      invariant graph.Abs() == AddLayers(old(graph.Abs()), layers) && pending == Deferred(layers)
      invariant items == |graph.nodes| - start
    {
      var added, deferred, l := IngestPackage(graph, packages[i], workspace, noDerives);
      OneMoreLayer(old(graph.Abs()), layers, l, packages, i, workspace, noDerives);
      items, pending, layers := items + added, pending + deferred, layers + [l];
    }
    assert packages[..|packages|] == packages;
    ghost var before := graph.Abs();
    ResolvePending(graph, pending);
    SettleAllKeys(before, pending);
  }

  method IngestPackage(graph: Graph, p: Package, workspace: set<string>, noDerives: bool)
    returns (added: nat, deferred: seq<Pending>, ghost l: Option<Layer>)
    modifies graph
    ensures graph.Abs() == AddLayer(old(graph.Abs()), l) && added == |graph.nodes| - |old(graph.nodes)|
    ensures deferred == DeferredOf(l)
    ensures if Documented(p) then l.Some? && Ingested(l.value, p, workspace, noDerives) else l.None?
  {
    if !Documented(p) {
      return 0, [], None;
    }
    var krate := p.document.value;
    hide *;
    var ingest := new Ingest(krate, p.name, workspace, noDerives);
    ghost var walked := ingest.Run();
    ghost var layer := LayerOf(ingest, walked);
    LayerIsIngested(ingest, walked, p, workspace, noDerives);
    l := Some(layer);
    OneLayer(graph.Abs(), layer);
    added := ingest.Apply(graph);
    deferred := ingest.pending;
  }

  ghost function LayerOf(ingest: Ingest, walked: Walked): (l: Layer)
    reads ingest
    ensures l.nodes == ingest.nodes && l.edges == ingest.edges && l.pending == ingest.pending
  {
    Layer(ingest.pkg, ingest.Scoped(), walked, ingest.nodes, ingest.impls, ingest.edges, ingest.pending)
  }

  lemma OneLayer(g: GraphState, l: Layer)
    ensures AddLayer(g, Some(l)) == LandAll(AddNodes(g, l.nodes), l.edges) && DeferredOf(Some(l)) == l.pending
    ensures AddLayer(g, None) == g && DeferredOf(None) == []
  {
  }

  lemma LayerIsIngested(ingest: Ingest, walked: Walked, p: Package, workspace: set<string>, noDerives: bool)
    requires Documented(p) && ingest.Valid() && ingest.crateNode == CrateId(ingest.pkg)
    requires p.document == Some(ingest.krate) && ingest.pkg == p.name && ingest.workspace == workspace
    requires ingest.noDerives == noDerives && walked.nodeOf == ingest.nodeOf && walked.impls == Elems(ingest.impls)
    requires Whole(ingest.Items(), ingest.crateNode, walked)
    requires var s, ids := ingest.Scoped(), ingest.nodeOf.Keys;
             && Elems(ingest.edges) == walked.edges + TypeEdges(s, ids) + ImplEdges(s, ingest.impls)
             && Elems(ingest.pending) == TypePending(s, ids) + ImplPending(s, ingest.impls)
    ensures Ingested(LayerOf(ingest, walked), p, workspace, noDerives)
  {
    hide Whole, AllSpelled, TypeEdges, ImplEdges, TypePending, ImplPending, NodeIds, Elems, Norm;
  }

  lemma NoLayers(g: GraphState, packages: seq<Package>, workspace: set<string>, noDerives: bool)
    ensures AllIngested([], packages[..0], workspace, noDerives) && AddLayers(g, []) == g && Deferred([]) == []
  {
  }

  lemma OneMoreLayer(g: GraphState, layers: seq<Option<Layer>>, l: Option<Layer>, packages: seq<Package>, i: nat,
                     workspace: set<string>, noDerives: bool)
    requires i < |packages| && AllIngested(layers, packages[..i], workspace, noDerives)
    requires if Documented(packages[i]) then l.Some? && Ingested(l.value, packages[i], workspace, noDerives)
             else l.None?
    ensures AllIngested(layers + [l], packages[..i + 1], workspace, noDerives)
    ensures AddLayers(g, layers + [l]) == AddLayer(AddLayers(g, layers), l)
    ensures Deferred(layers + [l]) == Deferred(layers) + DeferredOf(l)
  {
    hide Ingested, Documented, AddLayer, DeferredOf;
    assert (layers + [l])[..|layers|] == layers;
    assert forall k :: 0 <= k < i ==> packages[..i + 1][k] == packages[..i][k];
  }

  // ----- where a reference leads in the end -----

  /** The item a type is about, inside any wrapping. */
  function IdOf(ty: Type): Option<Id> {
    match ty
    case ResolvedPath(id) => Some(id)
    case Wrapped(inner) => IdOf(inner)
    case OtherType => None
  }

  /** The types an item mentions, by the relation each gives rise to. */
  lemma UsesMeaning(inner: Inner, ty: Type, relation: string)
    ensures (ty, relation) in Uses(inner) <==>
              || (relation == "takes" && inner.Function? && ty in inner.inputs)
              || (relation == "returns" && inner.Function? && inner.output == Some(ty))
              || (relation == "aliases" && inner.TypeAlias? && inner.ty == ty)
              || (relation == "uses_type" && (inner.StructField? || inner.Static? || inner.Constant?) && inner.ty == ty)
  {
    if inner.Function? {
      var takes := seq(|inner.inputs|, i requires 0 <= i < |inner.inputs| => (inner.inputs[i], "takes"));
      if relation == "takes" && ty in inner.inputs {
        var i :| 0 <= i < |inner.inputs| && inner.inputs[i] == ty;
        assert takes[i] == (ty, relation) && Uses(inner)[i] == takes[i];
      }
      if inner.output == Some(ty) { assert Uses(inner)[|takes|] == (ty, "returns"); }
    }
  }

  /** A walked item mentions another, through a type or through the trait of one of its considered impl blocks. */
  ghost predicate Mentions(t: Tree, inner: Inner, id: Id, relation: string) {
    || (exists ty :: (ty, relation) in Uses(inner) && IdOf(ty) == Some(id))
    || (relation == "implements" && exists block :: Implements(t, inner, block, id))
  }

  ghost predicate Implements(t: Tree, inner: Inner, block: Id, id: Id) {
    block in Blocks(inner) && Considered(t, block) && t.krate.index[block].inner.ofTrait == Some(id)
  }

  ghost predicate MentionedIn(l: Layer, noDerives: bool, i: Id, id: Id, relation: string) {
    && i in l.walked.nodeOf && i in l.scope.krate.index
    && Mentions(Tree(l.scope.krate, noDerives), l.scope.krate.index[i].inner, id, relation)
  }

  lemma {:induction false} TypeIsItsId(s: Scope, ty: Type)
    ensures ResolveType(s, ty) == if IdOf(ty).Some? then ResolveId(s, IdOf(ty).value) else None
    decreases ty
  {
    if ty.Wrapped? { TypeIsItsId(s, ty.inner); }
  }

  lemma {:induction false} UseIsDeferred(s: Scope, node: string, uses: seq<(Type, string)>, ty: Type, relation: string,
                                         p: Pending)
    requires (ty, relation) in uses && PendingOf(node, ResolveType(s, ty), relation) == Some(p)
    ensures p in UsePending(s, node, uses)
    decreases |uses|
  {
    if (ty, relation) != uses[|uses| - 1] { UseIsDeferred(s, node, uses[..|uses| - 1], ty, relation, p); }
  }

  lemma {:induction false} ImplIsDeferred(s: Scope, impls: seq<(string, Id)>, node: string, block: Id, p: Pending)
    requires (node, block) in Elems(impls) && PendingOf(node, TraitOf(s, block), "implements") == Some(p)
    ensures p in ImplPending(s, impls)
    decreases |impls|
  {
    if (node, block) != impls[|impls| - 1] { ImplIsDeferred(s, impls[..|impls| - 1], node, block, p); }
  }

  /** An external reference of a walked item is among what its crate defers. */
  lemma MentionIsDeferred(l: Layer, p: Package, workspace: set<string>, noDerives: bool, i: Id, id: Id,
                          relation: string, item: string, krate: string)
    requires Ingested(l, p, workspace, noDerives) && MentionedIn(l, noDerives, i, id, relation)
    requires ResolveId(l.scope, id) == Some(External(item, krate))
    ensures Pending(l.walked.nodeOf[i], item, krate, relation) in Elems(l.pending)
  {
    hide Uses, IdOf, Implements, ResolveId, AllSpelled, Whole, Elems, TypePending, ImplPending, TypeEdges, ImplEdges,
      Documented;
    var t, inner, node := Tree(l.scope.krate, noDerives), l.scope.krate.index[i].inner, l.walked.nodeOf[i];
    var p := Pending(node, item, krate, relation);
    if ty: Type :| (ty, relation) in Uses(inner) && IdOf(ty) == Some(id) {
      TypeIsItsId(l.scope, ty);
      UseIsDeferred(l.scope, node, Uses(inner), ty, relation, p);
      ItemDefers(l.scope, i, p);
    } else {
      var block: Id :| Implements(t, inner, block, id);
      ImplIsRecorded(t, CrateId(l.pkg), l.walked, i, block, id);
      TraitIsItsId(l.scope, t, inner, block, id);
      ImplIsDeferred(l.scope, l.impls, node, block, p);
    }
  }

  lemma ItemDefers(s: Scope, i: Id, p: Pending)
    requires i in s.nodeOf && i in s.krate.index && p in UsePending(s, s.nodeOf[i], Uses(s.krate.index[i].inner))
    ensures p in TypePending(s, s.nodeOf.Keys)
  {
    hide UsePending, Uses;
    assert i in s.nodeOf.Keys && p in UsePending(s, s.nodeOf[i], ItemUses(s, i));
  }

  lemma ImplIsRecorded(t: Tree, crateNode: string, w: Walked, i: Id, block: Id, id: Id)
    requires Whole(t, crateNode, w) && i in w.nodeOf && i in t.krate.index
    requires Implements(t, t.krate.index[i].inner, block, id)
    ensures (w.nodeOf[i], block) in w.impls
  {
    hide Linked, Sound, Reached, Considered, Blocks;
    assert Finished(t, w, i);
    var blocks := Blocks(t.krate.index[i].inner);
    var k :| 0 <= k < |blocks| && blocks[k] == block;
    assert Considered(t, blocks[k]);
  }

  lemma TraitIsItsId(s: Scope, t: Tree, inner: Inner, block: Id, id: Id)
    requires t.krate == s.krate && Implements(t, inner, block, id)
    ensures TraitOf(s, block) == ResolveId(s, id)
  {
  }

  lemma {:induction false} LayerIsHeld(g: GraphState, layers: seq<Option<Layer>>, n: nat)
    requires n < |layers| && layers[n].Some?
    ensures NodeIds(layers[n].value.nodes) <= AddLayers(g, layers).nodes.Keys
    ensures Elems(layers[n].value.pending) <= Elems(Deferred(layers))
    decreases |layers|
  {
    hide NodeIds, LandAll, AddNodes, Elems;
    var front, last := layers[..|layers| - 1], layers[|layers| - 1];
    ElemsConcat(Deferred(front), DeferredOf(last));
    if last.Some? {
      AddNodesKeys(AddLayers(g, front), last.value.nodes);
      LandAllKeys(AddNodes(AddLayers(g, front), last.value.nodes), last.value.edges);
    }
    if n < |layers| - 1 { LayerIsHeld(g, front, n); }
  }

  /** A reference out of a crate ends at the item it names, else at that item's crate, as far as either has a node. */
  lemma MentionSettles(g: GraphState, layers: seq<Option<Layer>>, packages: seq<Package>, workspace: set<string>,
                       noDerives: bool, m: nat, i: Id, id: Id, relation: string, item: string, krate: string)
    requires AllIngested(layers, packages, workspace, noDerives) && m < |layers| && layers[m].Some?
    requires MentionedIn(layers[m].value, noDerives, i, id, relation)
    requires ResolveId(layers[m].value.scope, id) == Some(External(item, krate))
    ensures var present := AddLayers(g, layers).nodes.Keys;
            var node, edges :=
              layers[m].value.walked.nodeOf[i], SettleAll(AddLayers(g, layers), Deferred(layers)).edges;
            && (item in present ==> (node, item, relation) in edges)
            && (item !in present && krate in present ==> (node, krate, relation) in edges)
  {
    hide AddLayers, Deferred, SettleAll, Mentions, ResolveId, NodeIds, Elems, Whole, AllSpelled, TypeEdges, ImplEdges,
      TypePending, ImplPending;
    var l, before := layers[m].value, AddLayers(g, layers);
    MentionIsDeferred(l, packages[m], workspace, noDerives, i, id, relation, item, krate);
    LayerIsHeld(g, layers, m);
    SettleAllKeys(before, Deferred(layers));
    var p := Pending(l.walked.nodeOf[i], item, krate, relation);
    assert p in Elems(Deferred(layers)) && p.from in before.nodes;
    assert Target(before.nodes.Keys, p).Some? ==>
        (p.from, Target(before.nodes.Keys, p).value, relation) in Settled(before.nodes.Keys, Elems(Deferred(layers)));
  }

  /**
   In the finished graph a walked item is joined to any item of another documented crate it mentions, when the summary
   of that item gives its crate, its names and its class.
   */
  lemma ReferenceReachesItem(g: GraphState, layers: seq<Option<Layer>>, packages: seq<Package>, workspace: set<string>,
                             noDerives: bool, m: nat, n: nat, i: Id, id: Id, relation: string, krate: string,
                             trail: seq<Step>)
    requires AllIngested(layers, packages, workspace, noDerives)
    requires m < |layers| && layers[m].Some? && n < |layers| && layers[n].Some?
    requires MentionedIn(layers[m].value, noDerives, i, id, relation)
    requires id !in layers[m].value.scope.nodeOf && id in layers[m].value.scope.krate.paths
    requires var (s, b) := (layers[m].value.scope, layers[n].value);
             && Summarizes(s.krate.paths[id], krate, Tree(b.scope.krate, noDerives), trail)
             && Norm(krate) == Norm(b.pkg) && Norm(b.pkg) in workspace
             && Spelled(Tree(b.scope.krate, noDerives), b.pkg, b.walked.nodeOf, trail)
             && NameOf(Tree(b.scope.krate, noDerives), trail[0]) != "" && trail[|trail| - 1].force.None?
    ensures var target := trail[|trail| - 1].child;
            && target in layers[n].value.walked.nodeOf
            && (layers[m].value.walked.nodeOf[i], layers[n].value.walked.nodeOf[target], relation)
               in SettleAll(AddLayers(g, layers), Deferred(layers)).edges
  {
    hide AddLayers, Deferred, SettleAll, Mentions, ResolveId, NodeIds, Elems, Whole, AllSpelled, TypeEdges, ImplEdges,
      TypePending, ImplPending, Norm, Documented, Walkable, StepsOf, Classed;
    var l, b := layers[m].value, layers[n].value;
    var t := Tree(b.scope.krate, noDerives);
    ReferenceNamesItem(l.scope, id, krate, t, b.pkg, b.walked.nodeOf, trail);
    NamesAt(t, trail);
    var item := b.walked.nodeOf[trail[|trail| - 1].child];
    MentionSettles(g, layers, packages, workspace, noDerives, m, i, id, relation, item, CrateId(b.pkg));
    LayerIsHeld(g, layers, n);
    assert item in b.walked.nodeOf.Values;
  }

  // ----- references inside a crate -----

  lemma {:induction false} UseIsLinked(s: Scope, node: string, uses: seq<(Type, string)>, ty: Type, relation: string,
                                       e: EdgeSpec)
    requires (ty, relation) in uses && EdgeOf(node, ResolveType(s, ty), relation, false) == Some(e)
    ensures e in UseEdges(s, node, uses)
    decreases |uses|
  {
    if (ty, relation) != uses[|uses| - 1] { UseIsLinked(s, node, uses[..|uses| - 1], ty, relation, e); }
  }

  lemma {:induction false} ImplIsLinked(s: Scope, impls: seq<(string, Id)>, node: string, block: Id, e: EdgeSpec)
    requires (node, block) in Elems(impls) && EdgeOf(node, TraitOf(s, block), "implements", true) == Some(e)
    ensures e in ImplEdges(s, impls)
    decreases |impls|
  {
    if (node, block) != impls[|impls| - 1] { ImplIsLinked(s, impls[..|impls| - 1], node, block, e); }
  }

  lemma ItemLinks(s: Scope, i: Id, e: EdgeSpec)
    requires i in s.nodeOf && i in s.krate.index && e in UseEdges(s, s.nodeOf[i], Uses(s.krate.index[i].inner))
    ensures e in TypeEdges(s, s.nodeOf.Keys)
  {
    hide UseEdges, Uses;
    assert i in s.nodeOf.Keys && e in UseEdges(s, s.nodeOf[i], ItemUses(s, i));
  }

  /** A mentioned item of the same crate gets its edge, unless an item mentions itself other than by implementing. */
  lemma MentionIsLinked(l: Layer, p: Package, workspace: set<string>, noDerives: bool, i: Id, id: Id, relation: string)
    requires Ingested(l, p, workspace, noDerives) && MentionedIn(l, noDerives, i, id, relation)
    requires id in l.walked.nodeOf && (relation == "implements" || l.walked.nodeOf[id] != l.walked.nodeOf[i])
    ensures EdgeSpec(l.walked.nodeOf[i], l.walked.nodeOf[id], relation) in Elems(l.edges)
  {
    hide Uses, IdOf, Implements, AllSpelled, Whole, Elems, TypePending, ImplPending, TypeEdges, ImplEdges, Documented;
    var t, inner, node := Tree(l.scope.krate, noDerives), l.scope.krate.index[i].inner, l.walked.nodeOf[i];
    var e := EdgeSpec(node, l.walked.nodeOf[id], relation);
    RefusedIff(l.scope, id);
    if ty: Type :| (ty, relation) in Uses(inner) && IdOf(ty) == Some(id) {
      TypeIsItsId(l.scope, ty);
      UsesMeaning(inner, ty, relation);
      UseIsLinked(l.scope, node, Uses(inner), ty, relation, e);
      ItemLinks(l.scope, i, e);
    } else {
      var block: Id :| Implements(t, inner, block, id);
      ImplIsRecorded(t, CrateId(l.pkg), l.walked, i, block, id);
      TraitIsItsId(l.scope, t, inner, block, id);
      ImplIsLinked(l.scope, l.impls, node, block, e);
    }
  }

  lemma {:induction false} LayerIsLanded(g: GraphState, layers: seq<Option<Layer>>, n: nat, e: EdgeSpec)
    requires n < |layers| && layers[n].Some? && e in Elems(layers[n].value.edges)
    requires e.source in NodeIds(layers[n].value.nodes) && e.target in NodeIds(layers[n].value.nodes)
    ensures Rustdoc.KeyOf(e) in AddLayers(g, layers).edges
    decreases |layers|
  {
    hide NodeIds, LandAll, AddNodes, Elems;
    var front, last := layers[..|layers| - 1], layers[|layers| - 1];
    if n < |layers| - 1 { LayerIsLanded(g, front, n, e); }
    if last.Some? {
      AddNodesKeys(AddLayers(g, front), last.value.nodes);
      LandAllKeys(AddNodes(AddLayers(g, front), last.value.nodes), last.value.edges);
    }
  }

  /** In the finished graph a walked item is joined to every item of its own crate it mentions. */
  lemma LocalReferenceLands(g: GraphState, layers: seq<Option<Layer>>, packages: seq<Package>, workspace: set<string>,
                            noDerives: bool, m: nat, i: Id, id: Id, relation: string)
    requires AllIngested(layers, packages, workspace, noDerives) && m < |layers| && layers[m].Some?
    requires MentionedIn(layers[m].value, noDerives, i, id, relation)
    requires var nodeOf := layers[m].value.walked.nodeOf;
             id in nodeOf && (relation == "implements" || nodeOf[id] != nodeOf[i])
    ensures var nodeOf := layers[m].value.walked.nodeOf;
            (nodeOf[i], nodeOf[id], relation) in SettleAll(AddLayers(g, layers), Deferred(layers)).edges
  {
    hide AddLayers, Deferred, SettleAll, Mentions, NodeIds, Elems, Whole, AllSpelled, TypeEdges, ImplEdges,
      TypePending, ImplPending;
    var l := layers[m].value;
    var e := EdgeSpec(l.walked.nodeOf[i], l.walked.nodeOf[id], relation);
    MentionIsLinked(l, packages[m], workspace, noDerives, i, id, relation);
    assert e.source in l.walked.nodeOf.Values && e.target in l.walked.nodeOf.Values;
    LayerIsLanded(g, layers, m, e);
    SettleAllKeys(AddLayers(g, layers), Deferred(layers));
  }
}
