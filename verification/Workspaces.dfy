/**
 What the crates of a workspace add to the graph, and one incremental run over them: drop whole
 namespaces, add the crate layer of every crate, then files and items of the dirty crates,
 settle their references against the nodes now present, prune.
 */
module Workspaces {
  import opened Bytes
  import opened Measure
  import opened GraphModel
  import opened ItemTree
  import opened Rustdoc

  datatype Member = Member(name: string, manifest: Option<string>, version: string)

  /** What extracting one crate yields; `references` are all those to other crates, in the workspace or not. */
  datatype Contribution = Contribution(
    files: seq<Node>, items: seq<Node>, edges: seq<EdgeSpec>, references: seq<Pending>)

  datatype Workspace = Workspace(
    members: seq<Member>, depends: seq<(string, string)>, crates: map<string, Contribution>)

  const NOTHING := Contribution([], [], [], [])
  const NOWHERE := Workspace([], [], map[])

  function Given(x: Workspace, n: string): Contribution {
    if n in x.crates then x.crates[n] else NOTHING
  }

  function Norms(names: set<string>): set<string> {
    set n | n in names :: Norm(n)
  }

  function CrateIds(names: set<string>): set<string> {
    set n | n in names :: CrateId(n)
  }

  function OwnIds(n: string, c: Contribution): set<string> {
    {CrateId(n)} + NodeIds(c.files) + NodeIds(c.items)
  }

  /** Every id of the workspace. */
  function Ids(x: Workspace): set<string> {
    set n, id | n in x.crates && id in OwnIds(n, x.crates[n]) :: id
  }

  function FileKeys(n: string, files: seq<Node>): set<Key> {
    set id | id in NodeIds(files) :: (CrateId(n), id, "contains")
  }

  function EdgeKeys(edges: seq<EdgeSpec>): set<Key> {
    set e | e in Elems(edges) :: KeyOf(e)
  }

  function DependsKey(d: (string, string)): Key {
    (CrateId(d.0), CrateId(d.1), "depends_on")
  }

  function DependsKeys(depends: seq<(string, string)>): set<Key> {
    set d | d in Elems(depends) :: DependsKey(d)
  }

  /** References into the workspace, by the id of the crate they fall back to. */
  function Followed(references: set<Pending>, crateIds: set<string>): set<Pending> {
    set p | p in references && p.krate in crateIds
  }

  function FollowedOf(x: Workspace, n: string): set<Pending> {
    Followed(Elems(Given(x, n).references), CrateIds(x.crates.Keys))
  }

  // ----- contributions made by the id builders -----

  /** Ids from the crate's own id builders; edges among them or from the crate's node; references from them. */
  ghost predicate Built(n: string, c: Contribution) {
    && (forall id :: id in NodeIds(c.files) ==> BuiltFile(n, id))
    && (forall id :: id in NodeIds(c.items) ==> BuiltItem(n, id))
    && (forall e :: e in Elems(c.edges) ==>
          e.target in NodeIds(c.items) && (e.source in NodeIds(c.items) || e.source == CrateId(n)))
    && (forall p :: p in Elems(c.references) ==> p.from in NodeIds(c.items) && Named(p.item, p.krate))
  }

  /** What a crate's ingestion has collected is such a contribution. */
  lemma CollectedIsBuilt(n: string, krate: Krate, nodeOf: map<Id, string>, impls: seq<(string, Id)>, files: seq<Node>,
                         items: seq<Node>, edges: seq<EdgeSpec>, references: seq<Pending>)
    requires Closed(krate, n, CrateId(n), nodeOf, items, edges, impls, references)
    requires forall id :: id in NodeIds(files) ==> BuiltFile(n, id)
    ensures Built(n, Contribution(files, items, edges, references))
  {
    hide NodeIds, Elems, BuiltFile, BuiltItem, Named, CrateId;
    var c := Contribution(files, items, edges, references);
    assert forall e :: e in Elems(edges) ==> e.target in NodeIds(items);
    assert forall p :: p in Elems(c.references) ==> p.from in NodeIds(c.items) && Named(p.item, p.krate);
    assert forall id :: id in NodeIds(c.items) ==> BuiltItem(n, id);
    assert forall e :: e in Elems(c.edges) ==> e.source in NodeIds(c.items) || e.source == CrateId(n);
  }

  /** The namespace of every file and item is the crate's own. */
  predicate Authored(n: string, c: Contribution) {
    forall id :: id in NodeIds(c.files) + NodeIds(c.items) ==> CrateOfId(id) == Some(Norm(n))
  }

  /** A contribution made by the id builders is attributed to its crate exactly when the name is clean. */
  lemma AuthoredExact(n: string, c: Contribution)
    requires Built(n, c)
    ensures Authored(n, c) <==> Clean(Norm(n)) || (c.files == [] && c.items == [])
  {
    hide CrateOfId, Norm, Clean, BuiltFile, BuiltItem, Named;
    forall id | id in NodeIds(c.files) + NodeIds(c.items) ensures CrateOfId(id) == Some(Norm(n)) <==> Clean(Norm(n)) {
      BuiltAttributed(n, id);
    }
    var ids := NodeIds(c.files) + NodeIds(c.items);
    assert c.files != [] ==> c.files[|c.files| - 1].id in ids;
    assert c.items != [] ==> c.items[|c.items| - 1].id in ids;
    assert c.files == [] && c.items == [] ==> ids == {};
    assert (exists id :: id in ids) ==> (Authored(n, c) <==> Clean(Norm(n)));
  }

  ghost predicate CleanNames(x: Workspace) {
    forall n :: n in x.crates ==> Clean(Norm(n))
  }

  ghost predicate AllBuilt(x: Workspace) {
    forall n :: n in x.crates ==> Built(n, x.crates[n])
  }

  function MemberNames(members: seq<Member>): set<string> {
    set m | m in Elems(members) :: m.name
  }

  /** The crate layer is that of the workspace's crates. */
  predicate LayerComplete(x: Workspace) {
    && MemberNames(x.members) == x.crates.Keys
    && forall d :: d in Elems(x.depends) ==> d.0 in x.crates && d.1 in x.crates
  }

  lemma CrateIdAttributed(n: string)
    requires Clean(Norm(n))
    ensures CrateOfId(CrateId(n)) == Some(Norm(n))
  {
    CrateOfCrateIdExact(n);
  }

  lemma CrateIdInjective(n: string, m: string)
    requires CrateId(n) == CrateId(m)
    ensures Norm(n) == Norm(m)
  {
    assert CrateId(n)[7..] == Norm(n) && CrateId(m)[7..] == Norm(m);
  }

  lemma CrateIdByNorm(n: string, m: string)
    requires Norm(n) == Norm(m)
    ensures CrateId(n) == CrateId(m)
  {
  }

  /** An id of a clean workspace lies in the namespace of the crate it comes from. */
  lemma OwnIdAttributed(n: string, c: Contribution, id: string)
    requires Clean(Norm(n)) && Built(n, c) && id in OwnIds(n, c)
    ensures CrateOfId(id) == Some(Norm(n))
  {
    hide CrateOfId, Norm, Clean, BuiltFile, BuiltItem, Named, NodeIds, CrateId;
    if id == CrateId(n) { CrateIdAttributed(n); } else { BuiltAttributed(n, id); }
  }

  // ----- dropping namespaces -----

  predicate Within(id: string, namespaces: set<string>) {
    CrateOfId(id).Some? && CrateOfId(id).value in namespaces
  }

  function WithoutCrates(g: GraphState, names: seq<string>): GraphState {
    if names == [] then g else WithoutCrates(g, names[..|names| - 1]).WithoutCrate(Norm(names[|names| - 1]))
  }

  /** Dropping crates keeps every node and authored edge of every other namespace, payload included. */
  lemma {:induction false} WithoutCratesKeeps(g: GraphState, names: seq<string>)
    ensures var h := WithoutCrates(g, names);
            && (forall id :: id in h.nodes <==> id in g.nodes && !Within(id, Norms(Elems(names))))
            && (forall id :: id in h.nodes ==> h.nodes[id] == g.nodes[id])
            && (forall key :: key in h.edges <==> key in g.edges && !Within(key.0, Norms(Elems(names))))
            && (forall key :: key in h.edges ==> h.edges[key] == g.edges[key])
    decreases |names|
  {
    hide Norm, CrateOfId;
    if names != [] {
      var front, last := names[..|names| - 1], names[|names| - 1];
      WithoutCratesKeeps(g, front);
      assert Norms(Elems(names)) == Norms(Elems(front)) + {Norm(last)};
    }
  }

  /** Its own namespace takes a file or an item along exactly when the crate's normalized name is clean. */
  lemma OwnDropExact(g: GraphState, n: string, id: string)
    requires id in g.nodes && (BuiltFile(n, id) || BuiltItem(n, id))
    ensures id !in WithoutCrates(g, [n]).nodes <==> Clean(Norm(n))
  {
    hide CrateOfId, Norm, Clean, BuiltFile, BuiltItem;
    BuiltAttributed(n, id);
    WithoutCratesKeeps(g, [n]);
    assert Elems([n]) == {n};
    assert Norms({n}) == {Norm(n)};
  }

  // ----- adding -----

  function CrateNode(m: Member): Node {
    Node(CrateId(m.name), m.name, m.manifest, None, map["kind" := "crate", "crate" := m.name, "version" := m.version])
  }

  function AddMembers(g: GraphState, members: seq<Member>): GraphState {
    if members == [] then g else AddMembers(g, members[..|members| - 1]).WithNode(CrateNode(members[|members| - 1]))
  }

  function AddDepends(g: GraphState, depends: seq<(string, string)>): GraphState {
    if depends == [] then g else
      AddDepends(g, depends[..|depends| - 1]).WithEdge(DependsKey(depends[|depends| - 1]), Edge(None, None))
  }

  function AddFiles(g: GraphState, n: string, files: seq<Node>): GraphState {
    if files == [] then g else
      var file := files[|files| - 1];
      AddFiles(g, n, files[..|files| - 1]).WithNode(file).WithEdge((CrateId(n), file.id, "contains"), Edge(None, None))
  }

  function AddAllFiles(g: GraphState, x: Workspace, names: seq<string>): GraphState {
    if names == [] then g else
      var n := names[|names| - 1];
      AddFiles(AddAllFiles(g, x, names[..|names| - 1]), n, Given(x, n).files)
  }

  function AddItems(g: GraphState, c: Contribution): GraphState {
    LandAll(AddNodes(g, c.items), c.edges)
  }

  function AddAllItems(g: GraphState, x: Workspace, names: seq<string>): GraphState {
    if names == [] then g else AddItems(AddAllItems(g, x, names[..|names| - 1]), Given(x, names[|names| - 1]))
  }

  function Follow(references: seq<Pending>, crateIds: set<string>): seq<Pending> {
    if references == [] then [] else
      var last := references[|references| - 1];
      Follow(references[..|references| - 1], crateIds) + if last.krate in crateIds then [last] else []
  }

  /** The deferred references of the crates, in order. */
  function Deferred(x: Workspace, names: seq<string>): seq<Pending> {
    if names == [] then [] else
      Deferred(x, names[..|names| - 1]) + Follow(Given(x, names[|names| - 1]).references, CrateIds(x.crates.Keys))
  }

  lemma {:induction false} AddMembersKeys(g: GraphState, members: seq<Member>)
    ensures AddMembers(g, members).nodes.Keys == g.nodes.Keys + CrateIds(MemberNames(members))
    ensures AddMembers(g, members).edges == g.edges
    decreases |members|
  {
    hide CrateId;
    if members != [] {
      var front, last := members[..|members| - 1], members[|members| - 1];
      AddMembersKeys(g, front);
      assert MemberNames(members) == MemberNames(front) + {last.name};
      assert CrateIds(MemberNames(members)) == CrateIds(MemberNames(front)) + {CrateId(last.name)};
    }
  }

  lemma {:induction false} AddDependsKeys(g: GraphState, depends: seq<(string, string)>)
    ensures AddDepends(g, depends).edges.Keys == g.edges.Keys + DependsKeys(depends)
    ensures AddDepends(g, depends).nodes == g.nodes
    decreases |depends|
  {
    hide DependsKey;
    if depends != [] {
      var front, last := depends[..|depends| - 1], depends[|depends| - 1];
      AddDependsKeys(g, front);
      assert DependsKeys(depends) == DependsKeys(front) + {DependsKey(last)};
    }
  }

  lemma {:induction false} AddFilesKeys(g: GraphState, n: string, files: seq<Node>)
    ensures AddFiles(g, n, files).nodes.Keys == g.nodes.Keys + NodeIds(files)
    ensures AddFiles(g, n, files).edges.Keys == g.edges.Keys + FileKeys(n, files)
    decreases |files|
  {
    hide CrateId;
    if files != [] {
      var front, last := files[..|files| - 1], files[|files| - 1];
      AddFilesKeys(g, n, front);
      assert FileKeys(n, files) == FileKeys(n, front) + {(CrateId(n), last.id, "contains")};
    }
  }

  function FileIdsOf(x: Workspace, names: set<string>): set<string> {
    set n, id | n in names && id in NodeIds(Given(x, n).files) :: id
  }

  function FileKeysOf(x: Workspace, names: set<string>): set<Key> {
    set n, key | n in names && key in FileKeys(n, Given(x, n).files) :: key
  }

  function ItemIdsOf(x: Workspace, names: set<string>): set<string> {
    set n, id | n in names && id in NodeIds(Given(x, n).items) :: id
  }

  function EdgeKeysOf(x: Workspace, names: set<string>): set<Key> {
    set n, key | n in names && key in EdgeKeys(Given(x, n).edges) :: key
  }

  function DeferredOf(x: Workspace, names: set<string>): set<Pending> {
    set n, p | n in names && p in FollowedOf(x, n) :: p
  }

  lemma {:induction false} AddAllFilesKeys(g: GraphState, x: Workspace, names: seq<string>)
    ensures AddAllFiles(g, x, names).nodes.Keys == g.nodes.Keys + FileIdsOf(x, Elems(names))
    ensures AddAllFiles(g, x, names).edges.Keys == g.edges.Keys + FileKeysOf(x, Elems(names))
    decreases |names|
  {
    hide FileKeys, Given, NodeIds, AddFiles;
    if names != [] {
      var front, last := names[..|names| - 1], names[|names| - 1];
      AddAllFilesKeys(g, x, front);
      AddFilesKeys(AddAllFiles(g, x, front), last, Given(x, last).files);
      assert FileIdsOf(x, Elems(names)) == FileIdsOf(x, Elems(front)) + NodeIds(Given(x, last).files);
      assert FileKeysOf(x, Elems(names)) == FileKeysOf(x, Elems(front)) + FileKeys(last, Given(x, last).files);
    }
  }

  /** With the crate's own node present, the filter drops none of its edges. */
  lemma AddItemsKeys(g: GraphState, n: string, c: Contribution)
    requires Built(n, c) && CrateId(n) in g.nodes
    ensures AddItems(g, c).nodes.Keys == g.nodes.Keys + NodeIds(c.items)
    ensures AddItems(g, c).edges.Keys == g.edges.Keys + EdgeKeys(c.edges)
  {
    hide BuiltFile, BuiltItem, Named, NodeIds, Elems, CrateId, AddNodes, LandAll;
    var based := AddNodes(g, c.items);
    AddNodesKeys(g, c.items);
    LandAllKeys(based, c.edges);
    assert Landed(Elems(c.edges), based.nodes.Keys) == EdgeKeys(c.edges);
  }

  lemma NothingBuilt(n: string)
    ensures Built(n, NOTHING)
  {
  }

  lemma {:induction false} AddAllItemsKeys(g: GraphState, x: Workspace, names: seq<string>)
    requires AllBuilt(x) && CrateIds(Elems(names)) <= g.nodes.Keys
    ensures AddAllItems(g, x, names).nodes.Keys == g.nodes.Keys + ItemIdsOf(x, Elems(names))
    ensures AddAllItems(g, x, names).edges.Keys == g.edges.Keys + EdgeKeysOf(x, Elems(names))
    decreases |names|
  {
    hide EdgeKeys, NodeIds, AddItems, Built, CrateId;
    if names != [] {
      var front, last := names[..|names| - 1], names[|names| - 1];
      assert last in Elems(names) && Elems(names) == Elems(front) + {last};
      assert CrateId(last) in CrateIds(Elems(names));
      AddAllItemsKeys(g, x, front);
      NothingBuilt(last);
      AddItemsKeys(AddAllItems(g, x, front), last, Given(x, last));
      assert ItemIdsOf(x, Elems(names)) == ItemIdsOf(x, Elems(front)) + NodeIds(Given(x, last).items);
      assert EdgeKeysOf(x, Elems(names)) == EdgeKeysOf(x, Elems(front)) + EdgeKeys(Given(x, last).edges);
    }
  }

  lemma {:induction false} FollowElems(references: seq<Pending>, crateIds: set<string>)
    ensures Elems(Follow(references, crateIds)) == Followed(Elems(references), crateIds)
    decreases |references|
  {
    if references != [] {
      var front, last := references[..|references| - 1], references[|references| - 1];
      FollowElems(front, crateIds);
      ElemsPush(Follow(front, crateIds), last);
      assert Follow(front, crateIds) + [] == Follow(front, crateIds);
      assert Elems(references) == Elems(front) + {last};
    }
  }

  lemma {:induction false} DeferredElems(x: Workspace, names: seq<string>)
    ensures Elems(Deferred(x, names)) == DeferredOf(x, Elems(names))
    decreases |names|
  {
    hide Follow, Followed, CrateIds;
    if names != [] {
      var front, last := names[..|names| - 1], names[|names| - 1];
      DeferredElems(x, front);
      var more := Follow(Given(x, last).references, CrateIds(x.crates.Keys));
      FollowElems(Given(x, last).references, CrateIds(x.crates.Keys));
      ElemsConcat(Deferred(x, front), more);
      assert DeferredOf(x, Elems(names)) == DeferredOf(x, Elems(front)) + FollowedOf(x, last);
    }
  }

  // ----- one run -----

  /**
   A run of the extractor: the workspace it finds, the crates it re-extracts and drops, in the orders it visits them.
   */
  datatype Extraction = Extraction(workspace: Workspace, files: seq<string>, items: seq<string>, dropped: seq<string>)
  {
    function Dirty(): set<string> {
      Elems(files)
    }

    /** The namespaces dropped first. */
    function Gone(): set<string> {
      Norms(Elems(dropped))
    }
  }

  function Populated(prior: GraphState, e: Extraction): GraphState {
    var layered := AddDepends(AddMembers(WithoutCrates(prior, e.dropped), e.workspace.members), e.workspace.depends);
    AddAllItems(AddAllFiles(layered, e.workspace, e.files), e.workspace, e.items)
  }

  function SpliceState(prior: GraphState, e: Extraction): GraphState {
    SettleAll(Populated(prior, e), Deferred(e.workspace, e.items)).Pruned()
  }

  /** `dirty` covers every change between the workspaces and, with `removed`, whole namespaces. */
  ghost predicate Covers(prev: Workspace, next: Workspace, dirty: set<string>, removed: set<string>) {
    && dirty <= next.crates.Keys && removed == prev.crates.Keys - next.crates.Keys
    && (forall n :: n in next.crates && n !in dirty ==> n in prev.crates && prev.crates[n] == next.crates[n])
    && (forall n :: n in next.crates && Norm(n) in Norms(dirty + removed) ==> n in dirty)
  }

  ghost predicate Proper(before: Workspace, e: Extraction) {
    var removed := before.crates.Keys - e.workspace.crates.Keys;
    && LayerComplete(e.workspace) && AllBuilt(e.workspace)
    && Covers(before, e.workspace, e.Dirty(), removed)
    && Elems(e.items) == e.Dirty() && Elems(e.dropped) == e.Dirty() + removed
  }

  /** The crate is untouched when its namespace is not dropped. */
  lemma CrateKept(before: Workspace, e: Extraction, n: string)
    requires Proper(before, e) && Norm(n) !in e.Gone() && (n in before.crates || n in e.workspace.crates)
    ensures n in before.crates && n in e.workspace.crates && before.crates[n] == e.workspace.crates[n]
  {
    hide Norm, LayerComplete, AllBuilt;
    assert n in Elems(e.dropped) ==> Norm(n) in e.Gone();
  }

  lemma DirtyIsGone(before: Workspace, e: Extraction, n: string)
    requires Proper(before, e) && n in e.workspace.crates
    ensures n in e.Dirty() <==> Norm(n) in e.Gone()
  {
    hide Norm, LayerComplete, AllBuilt;
    if n in e.Dirty() {
      assert n in Elems(e.dropped);
    }
  }

  /** Ids outside the dropped namespaces are those of before. */
  lemma IdKept(before: Workspace, e: Extraction, id: string)
    requires Proper(before, e) && AllBuilt(before) && CleanNames(before) && CleanNames(e.workspace)
    requires !Within(id, e.Gone())
    ensures id in Ids(before) <==> id in Ids(e.workspace)
  {
    hide Norm, Built, CrateOfId, Clean, LayerComplete, OwnIds, Covers;
    if id in Ids(before) {
      var n :| n in before.crates && id in OwnIds(n, before.crates[n]);
      OwnIdAttributed(n, before.crates[n], id);
      CrateKept(before, e, n);
    }
    if id in Ids(e.workspace) {
      var n :| n in e.workspace.crates && id in OwnIds(n, e.workspace.crates[n]);
      OwnIdAttributed(n, e.workspace.crates[n], id);
      CrateKept(before, e, n);
    }
  }

  /** The nodes of a run: what is kept, the crate layer, and the files and items of the dirty crates. */
  lemma PopulatedNodes(before: Workspace, prior: GraphState, e: Extraction)
    requires Proper(before, e)
    ensures Populated(prior, e).nodes.Keys
         == WithoutCrates(prior, e.dropped).nodes.Keys + CrateIds(e.workspace.crates.Keys)
            + FileIdsOf(e.workspace, e.Dirty()) + ItemIdsOf(e.workspace, e.Dirty())
    ensures Populated(prior, e).edges.Keys
         == WithoutCrates(prior, e.dropped).edges.Keys + DependsKeys(e.workspace.depends)
            + FileKeysOf(e.workspace, e.Dirty()) + EdgeKeysOf(e.workspace, e.Dirty())
  {
    hide WithoutCrates, AddMembers, AddDepends, AddAllFiles, AddAllItems, FileIdsOf, ItemIdsOf, FileKeysOf, EdgeKeysOf,
      Built, Norm, CrateId, DependsKeys, MemberNames, Elems;
    var x := e.workspace;
    var dropped := WithoutCrates(prior, e.dropped);
    AddMembersKeys(dropped, x.members);
    var named := AddMembers(dropped, x.members);
    AddDependsKeys(named, x.depends);
    var layered := AddDepends(named, x.depends);
    AddAllFilesKeys(layered, x, e.files);
    assert CrateIds(Elems(e.items)) <= CrateIds(x.crates.Keys);
    AddAllItemsKeys(AddAllFiles(layered, x, e.files), x, e.items);
  }

  lemma AddedAreIds(x: Workspace, dirty: set<string>, id: string)
    requires dirty <= x.crates.Keys
    ensures id in CrateIds(x.crates.Keys) || id in FileIdsOf(x, dirty) || id in ItemIdsOf(x, dirty) ==> id in Ids(x)
  {
    hide CrateId, NodeIds;
    if id in CrateIds(x.crates.Keys) {
      var n :| n in x.crates && id == CrateId(n);
      assert id in OwnIds(n, x.crates[n]);
    }
    if id in FileIdsOf(x, dirty) {
      var n :| n in dirty && id in NodeIds(Given(x, n).files);
      assert id in OwnIds(n, x.crates[n]);
    }
    if id in ItemIdsOf(x, dirty) {
      var n :| n in dirty && id in NodeIds(Given(x, n).items);
      assert id in OwnIds(n, x.crates[n]);
    }
  }

  // ----- ids on any names -----

  /** An id of a crate left alone that is read as lying in a dropped namespace, and that nothing adds again. */
  predicate LostId(e: Extraction, id: string) {
    var x := e.workspace;
    && (exists n :: n in x.crates && n !in e.Dirty() && id in OwnIds(n, x.crates[n]))
    && Within(id, e.Gone()) && id !in CrateIds(x.crates.Keys)
    && id !in FileIdsOf(x, e.Dirty()) && id !in ItemIdsOf(x, e.Dirty())
  }

  /** An id of a crate re-extracted or removed that is read as lying outside the dropped namespaces, and is gone. */
  predicate LeftOverId(before: Workspace, e: Extraction, id: string) {
    && (exists n :: n in before.crates && n in Elems(e.dropped) && id in OwnIds(n, before.crates[n]))
    && !Within(id, e.Gone()) && id !in Ids(e.workspace)
  }

  ghost predicate ReadsRight(before: Workspace, e: Extraction) {
    forall id :: !LostId(e, id) && !LeftOverId(before, e, id)
  }

  /** Clean names or not, a run leaves the ids of the new workspace exactly when it misreads no id for good. */
  lemma NodesExactIff(before: Workspace, prior: GraphState, e: Extraction)
    requires Proper(before, e) && prior.nodes.Keys == Ids(before)
    ensures SpliceState(prior, e).nodes.Keys == Populated(prior, e).nodes.Keys
    ensures SpliceState(prior, e).nodes.Keys == Ids(e.workspace) <==> ReadsRight(before, e)
  {
    hide Populated, SettleAll, Deferred, WithoutCrates, Proper, Ids, CrateIds, FileIdsOf, ItemIdsOf, DependsKeys,
      FileKeysOf, EdgeKeysOf, Within, Elems, Norms, LostId, LeftOverId;
    PopulatedNodes(before, prior, e);
    SettleAllKeys(Populated(prior, e), Deferred(e.workspace, e.items));
    WithoutCratesKeeps(prior, e.dropped);
    forall id ensures (id in Populated(prior, e).nodes <==> id in Ids(e.workspace))
                  <==> !LostId(e, id) && !LeftOverId(before, e, id)
    {
      MisreadId(before, e, id);
    }
  }

  /** With clean names no id is misread. */
  lemma CleanReadsRight(before: Workspace, e: Extraction)
    requires Proper(before, e) && AllBuilt(before) && CleanNames(before) && CleanNames(e.workspace)
    ensures ReadsRight(before, e)
  {
    hide Norm, Built, CrateOfId, Clean, LayerComplete, OwnIds, CrateIds, FileIdsOf, ItemIdsOf;
    forall id ensures !LostId(e, id) && !LeftOverId(before, e, id) {
      if n :| n in e.workspace.crates && n !in e.Dirty() && id in OwnIds(n, e.workspace.crates[n]) {
        LeftAlone(before, e, n, id);
      }
      if !Within(id, e.Gone()) { IdKept(before, e, id); }
    }
  }

  lemma LeftAlone(before: Workspace, e: Extraction, n: string, id: string)
    requires Proper(before, e) && CleanNames(e.workspace)
    requires n in e.workspace.crates && n !in e.Dirty() && id in OwnIds(n, e.workspace.crates[n])
    ensures !Within(id, e.Gone())
  {
    hide Norm, Built, CrateOfId, Clean, LayerComplete, OwnIds;
    OwnIdAttributed(n, e.workspace.crates[n], id);
    DirtyIsGone(before, e, n);
  }

  lemma MisreadId(before: Workspace, e: Extraction, id: string)
    requires Proper(before, e)
    ensures var x := e.workspace;
            var left := || (id in Ids(before) && !Within(id, Norms(Elems(e.dropped)))) || id in CrateIds(x.crates.Keys)
                        || id in FileIdsOf(x, e.Dirty()) || id in ItemIdsOf(x, e.Dirty());
            (left <==> id in Ids(x)) <==> !LostId(e, id) && !LeftOverId(before, e, id)
  {
    hide Norm, Built, CrateOfId, LayerComplete, NodeIds, CrateId, AllBuilt;
    var x := e.workspace;
    AddedAreIds(x, e.Dirty(), id);
    if id in Ids(x) {
      var n :| n in x.crates && id in OwnIds(n, x.crates[n]);
      assert n in e.Dirty() ==> Given(x, n) == x.crates[n];
    }
    if id in Ids(before) {
      var n :| n in before.crates && id in OwnIds(n, before.crates[n]);
      assert n !in Elems(e.dropped) ==> n in x.crates && x.crates[n] == before.crates[n];
    }
  }

  // ----- what the edges of a run are -----

  /** The crate's references lead to the key, given the nodes of the workspace. */
  predicate Refers(x: Workspace, n: string, key: Key) {
    exists p :: p in FollowedOf(x, n) && key.0 == p.from && key.2 == p.relation && Target(Ids(x), p) == Some(key.1)
  }

  predicate Owns(x: Workspace, n: string, key: Key) {
    key in FileKeys(n, Given(x, n).files) || key in EdgeKeys(Given(x, n).edges)
  }

  predicate Offers(x: Workspace, n: string, key: Key) {
    Owns(x, n, key) || Refers(x, n, key)
  }

  predicate Offered(x: Workspace, dirty: set<string>, key: Key) {
    key in DependsKeys(x.depends) || exists n :: n in dirty && Offers(x, n, key)
  }

  predicate Present(x: Workspace, key: Key) {
    key.0 in Ids(x) && key.1 in Ids(x)
  }

  lemma OfferedMeaning(x: Workspace, dirty: set<string>, key: Key)
    ensures Offered(x, dirty, key) <==>
            || key in DependsKeys(x.depends) || key in FileKeysOf(x, dirty) || key in EdgeKeysOf(x, dirty)
            || key in Settled(Ids(x), DeferredOf(x, dirty))
  {
    hide DependsKeys, FileKeys, EdgeKeys, Ids, FollowedOf, Target, Given;
    if key in FileKeysOf(x, dirty) || key in EdgeKeysOf(x, dirty) {
      var n :| n in dirty && Owns(x, n, key);
      assert Offers(x, n, key);
    }
    if key in Settled(Ids(x), DeferredOf(x, dirty)) {
      var p :| p in DeferredOf(x, dirty) && Target(Ids(x), p).Some?
        && key == (p.from, Target(Ids(x), p).value, p.relation);
      var n :| n in dirty && p in FollowedOf(x, n);
      assert Offers(x, n, key);
    }
    if n :| n in dirty && Refers(x, n, key) {
      var p :| p in FollowedOf(x, n) && key.0 == p.from && key.2 == p.relation && Target(Ids(x), p) == Some(key.1);
      assert p in DeferredOf(x, dirty);
    }
  }

  /** The reference, followed, is the edge `key`: to the item it names if that is there, else to the item's crate. */
  predicate Leads(x: Workspace, p: Pending, key: Key) {
    && p.krate in CrateIds(x.crates.Keys) && p.from in Ids(x) && key.0 == p.from && key.2 == p.relation
    && (key.1 == p.item || (p.item !in Ids(x) && key.1 == p.krate)) && key.1 in Ids(x)
  }

  /**
   The edges a run may add: dependencies of every crate, and the files, own edges and references of the dirty ones.
   */
  lemma OfferedExact(x: Workspace, dirty: set<string>, key: Key)
    ensures Offered(x, dirty, key) <==>
              || (exists a, b :: (a, b) in x.depends && key == (CrateId(a), CrateId(b), "depends_on"))
              || (exists n, id :: n in dirty && id in NodeIds(Given(x, n).files) && key == (CrateId(n), id, "contains"))
              || (exists n, e :: n in dirty && e in Given(x, n).edges && key == (e.source, e.target, e.relation))
              || (exists n, p :: n in dirty && p in Given(x, n).references && Leads(x, p, key))
  {
    hide NodeIds, Given, Ids, CrateId, Elems;
    forall d ensures d in Elems(x.depends) <==> d in x.depends { ElemsMember(x.depends, d); }
    forall n, e ensures e in Elems(Given(x, n).edges) <==> e in Given(x, n).edges { ElemsMember(Given(x, n).edges, e); }
    forall n, p ensures p in Elems(Given(x, n).references) <==> p in Given(x, n).references {
      ElemsMember(Given(x, n).references, p);
    }
    if n :| n in dirty && Refers(x, n, key) {
      var p :| p in FollowedOf(x, n) && key.0 == p.from && key.2 == p.relation && Target(Ids(x), p) == Some(key.1);
      assert Leads(x, p, key);
    }
    if n, p :| n in dirty && p in Given(x, n).references && Leads(x, p, key) {
      assert p in FollowedOf(x, n) && Target(Ids(x), p) == Some(key.1);
      assert Refers(x, n, key) && Offers(x, n, key);
    }
    if n, id :| n in dirty && id in NodeIds(Given(x, n).files) && key == (CrateId(n), id, "contains") {
      assert Offers(x, n, key);
    }
    if n, e :| n in dirty && e in Given(x, n).edges && key == (e.source, e.target, e.relation) {
      assert key == KeyOf(e) && Offers(x, n, key);
    }
  }

  /**
   One run that misreads no id: ids become those of the new workspace; its edges are, between present nodes, the
   earlier ones outside the dropped namespaces, the crate layer of every crate, and what the dirty crates offer.
   */
  lemma SpliceExact(before: Workspace, prior: GraphState, e: Extraction)
    requires Proper(before, e) && ReadsRight(before, e) && prior.nodes.Keys == Ids(before)
    ensures var g := SpliceState(prior, e);
            && g.nodes.Keys == Ids(e.workspace)
            && forall key :: key in g.edges <==>
                 && ((key in prior.edges && !Within(key.0, e.Gone())) || Offered(e.workspace, e.Dirty(), key))
                 && Present(e.workspace, key)
  {
    hide Populated, SettleAll, Deferred, WithoutCrates, AllBuilt, CleanNames, Ids, CrateIds, FileIdsOf, ItemIdsOf,
      DependsKeys, FileKeysOf, EdgeKeysOf, DeferredOf, Settled, Offered, Within, Elems, Norms, LayerComplete, Covers;
    NodesExactIff(before, prior, e);
    PopulatedNodes(before, prior, e);
    DeferredElems(e.workspace, e.items);
    SettleAllKeys(Populated(prior, e), Deferred(e.workspace, e.items));
    WithoutCratesKeeps(prior, e.dropped);
    forall key { OfferedMeaning(e.workspace, e.Dirty(), key); }
  }
}
