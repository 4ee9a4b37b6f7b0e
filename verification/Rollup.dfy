/** Owner-level rollup edges: exactly the member references of everything an owner encloses. */
module Rollup {
  import opened Bytes
  import opened GraphModel
  import opened Measure
  import opened OwnerCycles
  import opened Owners

  predicate OwnerRelation(relation: string) {
    relation in {"contains", "has_method", "has_field", "has_variant"}
  }

  predicate OwnerKind(kind: string) {
    kind in {"module", "struct", "enum", "union", "trait", "variant"}
  }

  function RollupRelation(relation: string): Option<string> {
    if relation == "calls" then Some("member_calls")
    else if relation in {"uses", "takes", "returns", "uses_type", "aliases", "implements"} then Some("member_uses")
    else None
  }

  predicate MemberRelation(relation: string) {
    relation == "member_calls" || relation == "member_uses"
  }

  // ----- what the rollup means, without any cache -----

  predicate OwnerEdge(g: GraphState, key: Key) {
    key in g.edges && OwnerRelation(key.2) && key.0 in g.nodes && OwnerKind(g.nodes[key.0].Kind())
  }

  ghost predicate OwnsDirectly(g: GraphState, owner: string, item: string) {
    exists relation :: OwnerEdge(g, (owner, item, relation))
  }

  /** Who owns an item directly: a node of one of the six owner kinds with one of the four ownership edges to it. */
  lemma OwnsMeaning(g: GraphState, owner: string, item: string)
    ensures OwnsDirectly(g, owner, item) <==>
              && owner in g.nodes
              && g.nodes[owner].Kind() in ["module", "struct", "enum", "union", "trait", "variant"]
              && ((owner, item, "contains") in g.edges || (owner, item, "has_method") in g.edges
                  || (owner, item, "has_field") in g.edges || (owner, item, "has_variant") in g.edges)
  {
    if owner in g.nodes && OwnerKind(g.nodes[owner].Kind()) {
      assert forall relation :: OwnerRelation(relation) ==>
               (OwnerEdge(g, (owner, item, relation)) <==> (owner, item, relation) in g.edges);
      assert OwnerEdge(g, (owner, item, "contains")) <==> (owner, item, "contains") in g.edges;
      assert OwnerEdge(g, (owner, item, "has_method")) <==> (owner, item, "has_method") in g.edges;
      assert OwnerEdge(g, (owner, item, "has_field")) <==> (owner, item, "has_field") in g.edges;
      assert OwnerEdge(g, (owner, item, "has_variant")) <==> (owner, item, "has_variant") in g.edges;
    }
  }

  ghost predicate OwnerPath(g: GraphState, path: seq<string>, item: string, owner: string) {
    && |path| >= 2 && path[0] == item && path[|path| - 1] == owner
    && forall i :: 0 <= i < |path| - 1 ==> OwnsDirectly(g, path[i + 1], path[i])
  }

  ghost predicate Encloses(g: GraphState, owner: string, item: string) {
    exists path :: OwnerPath(g, path, item, owner)
  }

  /** No two different items own each other; an item may own itself. */
  ghost predicate LayeredOwnership(g: GraphState) {
    forall x, y :: Encloses(g, x, y) && Encloses(g, y, x) ==> x == y
  }

  predicate DirectReference(g: GraphState, source: string, relation: string, key: Key) {
    (source, key.1, relation) in g.edges && RollupRelation(relation) == Some(key.2)
  }

  /** `key` is implied by some reference of an item the owner encloses. */
  ghost predicate Implied(g: GraphState, key: Key) {
    key.0 != key.1 && exists source, relation :: DirectReference(g, source, relation, key) && Encloses(g, key.0, source)
  }

  predicate Calls(g: GraphState, source: string, target: string) {
    (source, target, "calls") in g.edges
  }

  predicate Uses(g: GraphState, source: string, target: string) {
    || (source, target, "uses") in g.edges || (source, target, "takes") in g.edges
    || (source, target, "returns") in g.edges || (source, target, "uses_type") in g.edges
    || (source, target, "aliases") in g.edges || (source, target, "implements") in g.edges
  }

  /** Calls of members roll up to calls of the owner, every other reference to a use, and nothing rolls up otherwise. */
  lemma ImpliedMeaning(g: GraphState, key: Key)
    ensures Implied(g, key) <==>
            && key.0 != key.1
            && exists source :: Encloses(g, key.0, source)
                 && ((key.2 == "member_calls" && Calls(g, source, key.1))
                     || (key.2 == "member_uses" && Uses(g, source, key.1)))
  {
    hide Encloses;
    if source :| Encloses(g, key.0, source) && key.2 == "member_uses" && Uses(g, source, key.1) {
      var relation :| relation in ["uses", "takes", "returns", "uses_type", "aliases", "implements"]
                      && (source, key.1, relation) in g.edges;
      assert DirectReference(g, source, relation, key);
    }
    if source :| Encloses(g, key.0, source) && key.2 == "member_calls" && Calls(g, source, key.1) {
      assert DirectReference(g, source, "calls", key);
    }
    if source, relation :| DirectReference(g, source, relation, key) && Encloses(g, key.0, source) {
      assert relation == "calls" ==> Calls(g, source, key.1) && key.2 == "member_calls";
      assert relation != "calls" ==> Uses(g, source, key.1) && key.2 == "member_uses";
    }
  }

  /** `h` is `g` plus some implied edges, everything else untouched. */
  ghost predicate Extends(g: GraphState, h: GraphState) {
    && h.nodes == g.nodes
    && (forall key :: key in g.edges ==> key in h.edges && h.edges[key] == g.edges[key])
    && (forall key :: key in h.edges && key !in g.edges ==> Implied(g, key) && h.edges[key] == Edge(None, None))
  }

  function Added(g: GraphState, h: GraphState, relation: string): set<Key> {
    set key | key in h.edges && key !in g.edges && key.2 == relation
  }

  datatype Count = Count(calls: nat, uses: nat) {
    function Plus(relation: string): Count {
      if relation == "member_calls" then Count(calls + 1, uses) else Count(calls, uses + 1)
    }
  }

  /** How many edges of each rollup relation `h` has beyond `g`. */
  ghost function Tally(g: GraphState, h: GraphState): Count {
    Count(|Added(g, h, "member_calls")|, |Added(g, h, "member_uses")|)
  }

  // ----- from graph to parent map -----

  ghost predicate Represents(parents: Parents, g: GraphState) {
    forall item, owner :: Step(parents, item, owner) <==> OwnsDirectly(g, owner, item)
  }

  lemma RepresentedAncestors(parents: Parents, g: GraphState)
    requires Represents(parents, g)
    ensures forall item, owner :: Ancestor(parents, item, owner) <==> Encloses(g, owner, item)
    ensures LayeredOwnership(g) ==> Layered(parents)
  {
    forall item, owner ensures Ancestor(parents, item, owner) <==> Encloses(g, owner, item) {
      if Ancestor(parents, item, owner) {
        var path :| Leads(parents, path, item, owner);
        assert forall i :: 0 <= i < |path| - 1 ==> Step(parents, path[i], path[i + 1]);
        assert OwnerPath(g, path, item, owner);
      }
      if Encloses(g, owner, item) {
        var path :| OwnerPath(g, path, item, owner);
        assert forall i :: 0 <= i < |path| - 1 ==> OwnsDirectly(g, path[i + 1], path[i]);
        assert Leads(parents, path, item, owner);
      }
    }
  }

  method ListKeys(keys: set<Key>) returns (list: seq<Key>)
    ensures Elems(list) == keys
  {
    list := [];
    var left := keys;
    while left != {}
      invariant left <= keys && Elems(list) == keys - left
      decreases left
    {
      var key :| key in left;
      ElemsPush(list, key);
      list := list + [key];
      left := left - {key};
    }
  }

  /** The owner relations among some of the edges. */
  ghost predicate OwnsAmong(g: GraphState, edges: set<Key>, owner: string, item: string) {
    exists relation :: OwnerEdge(g, (owner, item, relation)) && (owner, item, relation) in edges
  }

  ghost predicate Collected(g: GraphState, parents: Parents, edges: set<Key>) {
    forall item, owner :: Step(parents, item, owner) <==> OwnsAmong(g, edges, owner, item)
  }

  lemma CollectedAll(g: GraphState, parents: Parents, edges: set<Key>)
    requires Collected(g, parents, edges) && edges == g.edges.Keys
    ensures Represents(parents, g)
  {
    hide Step, OwnerRelation, OwnerKind;
    forall item, owner ensures Step(parents, item, owner) <==> OwnsDirectly(g, owner, item) {
      if OwnsDirectly(g, owner, item) {
        var relation :| OwnerEdge(g, (owner, item, relation));
        assert (owner, item, relation) in edges;
      }
    }
  }

  lemma OneMoreOwner(g: GraphState, edges: set<Key>, key: Key, owner: string, item: string)
    ensures OwnsAmong(g, edges + {key}, owner, item)
       <==> OwnsAmong(g, edges, owner, item) || (OwnerEdge(g, key) && key.0 == owner && key.1 == item)
  {
    hide OwnerEdge;
    if OwnsAmong(g, edges + {key}, owner, item) && !OwnsAmong(g, edges, owner, item) {
      var relation :| OwnerEdge(g, (owner, item, relation)) && (owner, item, relation) in edges + {key};
      assert (owner, item, relation) == key;
    }
    if OwnerEdge(g, key) && key.0 == owner && key.1 == item {
      assert OwnerEdge(g, (owner, item, key.2)) && (owner, item, key.2) == key;
    }
    if OwnsAmong(g, edges, owner, item) {
      var relation :| OwnerEdge(g, (owner, item, relation)) && (owner, item, relation) in edges;
      assert (owner, item, relation) in edges + {key};
    }
  }

  lemma OwnerPushed(parents: Parents, item: string, owner: string, x: string, y: string)
    ensures var known := if item in parents then parents[item] else [];
            Step(parents[item := known + [owner]], x, y) <==> Step(parents, x, y) || (x == item && y == owner)
  {
    var known := if item in parents then parents[item] else [];
    ElemsPush(known, owner);
  }

  lemma CollectedGrows(g: GraphState, before: Parents, after: Parents, edges: set<Key>, key: Key)
    requires Collected(g, before, edges)
    requires if OwnerEdge(g, key)
             then after == before[key.1 := (if key.1 in before then before[key.1] else []) + [key.0]]
             else after == before
    ensures Collected(g, after, edges + {key})
  {
    hide Step, OwnsAmong, OwnerEdge;
    forall item, owner ensures Step(after, item, owner) <==> OwnsAmong(g, edges + {key}, owner, item) {
      OneMoreOwner(g, edges, key, owner, item);
      if OwnerEdge(g, key) { OwnerPushed(before, key.1, key.0, item, owner); }
    }
  }

  lemma NothingCollected(g: GraphState)
    ensures Collected(g, map[], Elems([]))
  {
  }

  method BuildParents(g: GraphState) returns (parents: Parents)
    ensures Represents(parents, g)
  {
    hide Represents, Collected, Elems;
    parents := map[];
    var list := ListKeys(g.edges.Keys);
    assert list[..0] == [];
    NothingCollected(g);
    for i := 0 to |list|
      invariant Collected(g, parents, Elems(list[..i]))
    {
      var key := list[i];
      ghost var before := parents;
      assert list[..i + 1] == list[..i] + [key];
      ElemAt(list, i);
      ElemsPush(list[..i], key);
      if OwnerRelation(key.2) && key.0 in g.nodes && OwnerKind(g.nodes[key.0].Kind()) {
        var known := if key.1 in parents then parents[key.1] else [];
        parents := parents[key.1 := known + [key.0]];
      }
      CollectedGrows(g, before, parents, Elems(list[..i]), key);
    }
    assert list[..|list|] == list;
    CollectedAll(g, parents, Elems(list));
  }

  function MemberEdges(edges: set<Key>): set<Key> {
    set key | key in edges && MemberRelation(key.2)
  }

  // ----- deriving the edges -----

  /**
   Adds only implied edges and reports exactly how many of each relation; with layered ownership it adds all of them.
   */
  method AddMemberReferenceEdges(graph: Graph) returns (calls: nat, uses: nat)
    modifies graph
    ensures Extends(old(graph.Abs()), graph.Abs())
    ensures LayeredOwnership(old(graph.Abs())) ==> forall key :: Implied(old(graph.Abs()), key) ==> key in graph.edges
    ensures Count(calls, uses) == Tally(old(graph.Abs()), graph.Abs())
  {
    hide Implied, Covered, MemberEdges, Extends, Encloses, Represents, Tally, Added, Elems, Serves, LayeredOwnership,
      RollupRelation;
    ghost var g, exact := graph.Abs(), LayeredOwnership(graph.Abs());
    var parents := BuildParents(GraphState(graph.nodes, graph.edges));
    var references := ListKeys(set key | key in graph.edges && RollupRelation(key.2).Some?);
    var existing := MemberEdges(graph.edges.Keys);
    var closure := new OwnerClosure(parents);
    calls, uses := 0, 0;
    NothingRolledUp(g, GraphState(graph.nodes, graph.edges), parents, exact);
    for i := 0 to |references|
      invariant closure.parents == parents && closure.visiting == {} && Serves(parents, closure.cache, g, exact)
      invariant Extends(g, graph.Abs()) && existing == MemberEdges(graph.edges.Keys)
      invariant exact ==> Covered(g, graph.edges.Keys, references[..i])
      invariant Tally(g, graph.Abs()) == Count(calls, uses)
    {
      ReferencesOf(g, references, i);
      var moreCalls, moreUses;
      existing, moreCalls, moreUses := RollUp(graph, closure, references[i], existing, g, exact, references[..i]);
      calls, uses := calls + moreCalls, uses + moreUses;
    }
    assert references[..|references|] == references;
    if exact { CoveredIsComplete(g, graph.edges.Keys, references); }
  }

  /** A closure that answers for the ownership in `g`: exactly, if that is layered. */
  ghost predicate Serves(parents: Parents, cache: Cache, g: GraphState, exact: bool) {
    Represents(parents, g) && CacheSound(parents, cache) && (exact ==> Layered(parents) && CacheExact(parents, cache))
  }

  lemma NothingRolledUp(g: GraphState, h: GraphState, parents: Parents, exact: bool)
    requires g == h && Represents(parents, h) && exact == LayeredOwnership(g)
    ensures Serves(parents, map[], g, exact) && Extends(g, g) && Covered(g, g.edges.Keys, [])
    ensures Tally(g, g) == Count(0, 0)
  {
    RepresentedAncestors(parents, g);
    assert Added(g, g, "member_calls") == {} && Added(g, g, "member_uses") == {};
  }

  lemma ReferencesOf(g: GraphState, references: seq<Key>, i: nat)
    requires i < |references| && Elems(references) == set key | key in g.edges && RollupRelation(key.2).Some?
    ensures references[i] in g.edges && RollupRelation(references[i].2).Some?
    ensures references[..i + 1] == references[..i] + [references[i]]
  {
    hide Elems;
    ElemAt(references, i);
  }

  /** One reference rolled up to each of its owners. */
  method RollUp(graph: Graph, closure: OwnerClosure, reference: Key, known: set<Key>, ghost g: GraphState,
                ghost exact: bool, ghost done: seq<Key>)
    returns (existing: set<Key>, calls: nat, uses: nat)
    requires closure.visiting == {} && Serves(closure.parents, closure.cache, g, exact)
    requires Extends(g, graph.Abs()) && known == MemberEdges(graph.edges.Keys)
    requires exact ==> Covered(g, graph.edges.Keys, done)
    requires reference in g.edges && RollupRelation(reference.2).Some?
    modifies graph`edges, closure
    ensures closure.visiting == {} && Serves(closure.parents, closure.cache, g, exact)
    ensures Extends(g, graph.Abs()) && existing == MemberEdges(graph.edges.Keys)
    ensures exact ==> Covered(g, graph.edges.Keys, done + [reference])
    ensures Tally(g, graph.Abs())
              == Count(Tally(g, old(graph.Abs())).calls + calls, Tally(g, old(graph.Abs())).uses + uses)
  {
    hide Serves, Extends, Covered, MemberEdges, Tally, RollupRelation, Encloses, Elems;
    var owners := OwnersOf(closure, reference.0, g, exact);
    existing, calls, uses := AddForOwners(graph, g, owners, reference, known);
    if exact { CoveredGrows(g, old(graph.edges).Keys, graph.edges.Keys, done, reference); }
  }

  /** One query of the shared closure, read as a fact about the graph. */
  method OwnersOf(closure: OwnerClosure, item: string, ghost g: GraphState, ghost exact: bool)
    returns (owners: seq<string>)
    requires closure.visiting == {} && Serves(closure.parents, closure.cache, g, exact)
    modifies closure
    ensures closure.visiting == {} && Serves(closure.parents, closure.cache, g, exact)
    ensures forall o :: o in Elems(owners) ==> Encloses(g, o, item)
    ensures exact ==> forall o :: Encloses(g, o, item) ==> o in Elems(owners)
  {
    hide Close, CacheSound, CacheExact, Elems, Layered, Ancestor, Encloses, Represents;
    RepresentedAncestors(closure.parents, g);
    CloseSound(closure.parents, closure.cache, {}, item);
    if exact { CloseExact(closure.parents, closure.cache, {}, item); }
    owners := closure.EnclosingOwners(item);
  }

  lemma CoveredIsComplete(g: GraphState, edges: set<Key>, references: seq<Key>)
    requires Covered(g, edges, references)
    requires Elems(references) == set key | key in g.edges && RollupRelation(key.2).Some?
    ensures forall key :: Implied(g, key) ==> key in edges
  {
    forall key | Implied(g, key) ensures key in edges {
      var source, relation :| DirectReference(g, source, relation, key) && Encloses(g, key.0, source);
      assert (source, key.1, relation) in Elems(references);
    }
  }

  /** Every rollup of the references so far is present. */
  ghost predicate Covered(g: GraphState, edges: set<Key>, references: seq<Key>) {
    forall r, owner ::
      r in Elems(references) && RollupRelation(r.2).Some? && owner != r.1 && Encloses(g, owner, r.0) ==>
        (owner, r.1, RollupRelation(r.2).value) in edges
  }

  lemma CoveredGrows(g: GraphState, before: set<Key>, after: set<Key>, references: seq<Key>, r: Key)
    requires Covered(g, before, references) && before <= after && RollupRelation(r.2).Some?
    requires forall owner :: owner != r.1 && Encloses(g, owner, r.0) ==>
               (owner, r.1, RollupRelation(r.2).value) in after
    ensures Covered(g, after, references + [r])
  {
    ElemsPush(references, r);
  }

  /** The inner loop: one reference rolled up to each of its owners. */
  method AddForOwners(graph: Graph, ghost g: GraphState, owners: seq<string>, reference: Key, known: set<Key>)
    returns (existing: set<Key>, calls: nat, uses: nat)
    requires Extends(g, graph.Abs()) && known == MemberEdges(graph.edges.Keys)
    requires reference in g.edges && RollupRelation(reference.2).Some?
    requires forall o :: o in Elems(owners) ==> Encloses(g, o, reference.0)
    modifies graph`edges
    ensures Extends(g, graph.Abs()) && existing == MemberEdges(graph.edges.Keys)
    ensures old(graph.edges).Keys <= graph.edges.Keys
    ensures forall o :: o in Elems(owners) && o != reference.1 ==>
              (o, reference.1, RollupRelation(reference.2).value) in graph.edges
    ensures Tally(g, graph.Abs())
              == Count(Tally(g, old(graph.Abs())).calls + calls, Tally(g, old(graph.Abs())).uses + uses)
  {
    hide MemberEdges, Implied, Encloses, Added;
    ghost var start := Tally(g, graph.Abs());
    var relation := RollupRelation(reference.2).value;
    existing, calls, uses := known, 0, 0;
    for i := 0 to |owners|
      invariant Extends(g, graph.Abs()) && existing == MemberEdges(graph.edges.Keys)
      invariant old(graph.edges).Keys <= graph.edges.Keys
      invariant RolledUp(graph.edges.Keys, owners, i, reference.1, relation)
      invariant Tally(g, graph.Abs()) == Count(start.calls + calls, start.uses + uses)
    {
      if owners[i] != reference.1 {
        ElemAt(owners, i);
        RolledUpGrows(graph.edges.Keys, owners, i, reference.1, relation);
        var isNew;
        existing, isNew := AddRollup(graph, g, owners[i], reference, existing);
        if isNew && relation == "member_calls" {
          calls := calls + 1;
        } else if isNew {
          uses := uses + 1;
        }
      }
    }
    RolledUpAll(graph.edges.Keys, owners, reference.1, relation);
  }

  lemma RolledUpAll(edges: set<Key>, owners: seq<string>, target: string, relation: string)
    requires RolledUp(edges, owners, |owners|, target, relation)
    ensures forall o :: o in Elems(owners) && o != target ==> (o, target, relation) in edges
  {
    hide Elems;
    forall o | o in Elems(owners) && o != target ensures (o, target, relation) in edges {
      ElemsMember(owners, o);
    }
  }

  predicate RolledUp(edges: set<Key>, owners: seq<string>, n: nat, target: string, relation: string)
    requires n <= |owners|
  {
    forall j :: 0 <= j < n && owners[j] != target ==> (owners[j], target, relation) in edges
  }

  lemma RolledUpGrows(edges: set<Key>, owners: seq<string>, n: nat, target: string, relation: string)
    requires n < |owners| && RolledUp(edges, owners, n, target, relation)
    ensures RolledUp(edges + {(owners[n], target, relation)}, owners, n + 1, target, relation)
  {
  }

  method AddRollup(graph: Graph, ghost g: GraphState, owner: string, reference: Key, known: set<Key>)
    returns (existing: set<Key>, isNew: bool)
    requires Extends(g, graph.Abs()) && known == MemberEdges(graph.edges.Keys)
    requires reference in g.edges && RollupRelation(reference.2).Some? && owner != reference.1
    requires Encloses(g, owner, reference.0)
    modifies graph`edges
    ensures Extends(g, graph.Abs()) && existing == MemberEdges(graph.edges.Keys)
    ensures graph.edges.Keys == old(graph.edges).Keys + {(owner, reference.1, RollupRelation(reference.2).value)}
    ensures isNew ==> Tally(g, graph.Abs()) == Tally(g, old(graph.Abs())).Plus(RollupRelation(reference.2).value)
    ensures !isNew ==> graph.Abs() == old(graph.Abs())
  {
    hide Extends, MemberEdges, Implied, Tally, Encloses, RollupRelation;
    var key := (owner, reference.1, RollupRelation(reference.2).value);
    existing, isNew := known, key !in known;
    ghost var before := graph.Abs();
    if isNew {
      RollupIsNew(g, before, owner, reference);
      existing := existing + {key};
      graph.AddEdge(key.0, key.1, key.2, Edge(None, None));
    } else {
      KnownIsPresent(before.edges.Keys, key);
    }
  }

  lemma KnownIsPresent(edges: set<Key>, key: Key)
    requires key in MemberEdges(edges)
    ensures key in edges
  {
  }

  lemma RollupIsNew(g: GraphState, before: GraphState, owner: string, reference: Key)
    requires Extends(g, before) && reference in g.edges && RollupRelation(reference.2).Some?
    requires owner != reference.1 && Encloses(g, owner, reference.0)
    requires (owner, reference.1, RollupRelation(reference.2).value) !in MemberEdges(before.edges.Keys)
    ensures var key := (owner, reference.1, RollupRelation(reference.2).value);
            var after := before.WithEdge(key, Edge(None, None));
            && after.edges.Keys == before.edges.Keys + {key} && key !in before.edges
            && Extends(g, after) && MemberEdges(after.edges.Keys) == MemberEdges(before.edges.Keys) + {key}
            && Tally(g, after) == Tally(g, before).Plus(key.2)
  {
    hide Encloses, Tally;
    var key := (owner, reference.1, RollupRelation(reference.2).value);
    assert DirectReference(g, reference.0, reference.2, key) && Implied(g, key);
    AddedOne(g, before, before.WithEdge(key, Edge(None, None)), key);
  }

  lemma AddedOne(g: GraphState, before: GraphState, after: GraphState, key: Key)
    requires key !in g.edges && key !in before.edges && after.edges.Keys == before.edges.Keys + {key}
    requires MemberRelation(key.2)
    ensures Tally(g, after) == Tally(g, before).Plus(key.2)
  {
    AddedGrows(g, before, after, key, "member_calls");
    AddedGrows(g, before, after, key, "member_uses");
  }

  lemma AddedGrows(g: GraphState, before: GraphState, after: GraphState, key: Key, relation: string)
    requires key !in g.edges && key !in before.edges && after.edges.Keys == before.edges.Keys + {key}
    ensures |Added(g, after, relation)| == |Added(g, before, relation)| + if relation == key.2 then 1 else 0
  {
    assert Added(g, after, relation) == Added(g, before, relation) + if relation == key.2 then {key} else {};
  }

  // ----- running it again -----

  /** Rolled-up edges neither own nor refer, so they imply nothing new. */
  lemma ImplicationStable(g: GraphState, h: GraphState)
    requires Extends(g, h)
    ensures forall owner, item :: Encloses(h, owner, item) <==> Encloses(g, owner, item)
    ensures forall key :: Implied(h, key) <==> Implied(g, key)
  {
    forall owner, item ensures OwnsDirectly(h, owner, item) <==> OwnsDirectly(g, owner, item) {
      forall relation ensures OwnerEdge(h, (owner, item, relation)) <==> OwnerEdge(g, (owner, item, relation)) {
        if (owner, item, relation) in h.edges && (owner, item, relation) !in g.edges {
          assert Implied(g, (owner, item, relation));
        }
      }
    }
    forall owner, item ensures Encloses(h, owner, item) <==> Encloses(g, owner, item) {
      forall path ensures OwnerPath(h, path, item, owner) <==> OwnerPath(g, path, item, owner) {}
    }
    forall source, relation, key: Key ensures DirectReference(h, source, relation, key) <==>
      DirectReference(g, source, relation, key) {
      if (source, key.1, relation) in h.edges && (source, key.1, relation) !in g.edges {
        assert Implied(g, (source, key.1, relation));
      }
    }
  }

  /** Once every implied edge is there, a second derivation changes nothing and counts nothing. */
  lemma SecondRunAddsNothing(g: GraphState, h: GraphState, again: GraphState)
    requires Extends(g, h) && (forall key :: Implied(g, key) ==> key in h.edges)
    requires Extends(h, again)
    ensures again == h && Added(h, again, "member_calls") == {} && Added(h, again, "member_uses") == {}
  {
    ImplicationStable(g, h);
    assert forall key :: key in again.edges && key !in h.edges ==> Implied(h, key);
    assert again.edges == h.edges;
  }
}
