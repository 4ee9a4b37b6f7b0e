/** The deduplicated graph and the deterministic ids its incremental splice relies on. */
module GraphModel {
  import opened Bytes

  // ----- ids -----

  predicate Alphanumeric(c: char) {
    '0' <= c <= '9' || 'a' <= c <= 'z' || 'A' <= c <= 'Z'
  }

  function Lower(c: char): char {
    if 'A' <= c <= 'Z' then c - 'A' + 'a' else c
  }

  function Norm(s: string): (r: string)
    ensures |r| == |s|
  {
    seq(|s|, i requires 0 <= i < |s| => if Alphanumeric(s[i]) then Lower(s[i]) else '_')
  }

  function CrateId(name: string): string {
    "crate" + "__" + Norm(name)
  }

  function FileId(krate: string, path: string): string {
    "file" + "__" + (Norm(krate) + "__" + Norm(path))
  }

  function ItemId(krate: string, path: string, kind: string): string {
    "item" + "__" + (Norm(krate) + "__" + (Norm(path) + "__" + Norm(kind)))
  }

  ghost predicate BuiltFile(krate: string, id: string) {
    exists path :: id == FileId(krate, path)
  }

  ghost predicate BuiltItem(krate: string, id: string) {
    exists path, kind :: id == ItemId(krate, path, kind)
  }

  predicate SeparatorAt(s: string, i: int) {
    0 <= i < |s| - 1 && s[i] == '_' && s[i + 1] == '_'
  }

  ghost predicate HasSeparator(s: string) {
    exists i :: SeparatorAt(s, i)
  }

  /** Index of the first `__` at or after `from`, or the length of the string. */
  function FindSeparator(s: string, from: nat): (i: nat)
    requires from <= |s|
    ensures from <= i <= |s|
    ensures i < |s| ==> SeparatorAt(s, i)
    ensures forall j :: from <= j < i ==> !SeparatorAt(s, j)
    decreases |s| - from
  {
    if from == |s| then from
    else if SeparatorAt(s, from) then from
    else FindSeparator(s, from + 1)
  }

  /** `split("__")`: the first component, and what follows its separator if there is one. */
  function SplitFirst(s: string): (r: (string, Option<string>)) {
    var i := FindSeparator(s, 0);
    if i == |s| then (s, None) else (s[..i], Some(s[i + 2..]))
  }

  function CrateOfId(id: string): Option<string> {
    var (kind, rest) := SplitFirst(id);
    if rest.Some? && (kind == "crate" || kind == "file" || kind == "item") then Some(SplitFirst(rest.value).0) else None
  }

  /** A component that `crate_of_id` can recover from the middle of an id. */
  ghost predicate Clean(component: string) {
    !HasSeparator(component) && (component != [] ==> component[|component| - 1] != '_')
  }

  lemma SplitClean(component: string, rest: string)
    requires Clean(component)
    ensures SplitFirst(component + "__" + rest) == (component, Some(rest))
  {
    var s, n := component + "__" + rest, |component|;
    assert SeparatorAt(s, n);
    forall j | 0 <= j < n ensures !SeparatorAt(s, j) {
      assert !SeparatorAt(component, j);
      assert s[j] == component[j] && (j + 1 < n ==> s[j + 1] == component[j + 1]);
    }
    assert FindSeparator(s, 0) == n;
    assert s[..n] == component && s[n + 2..] == rest;
  }

  /** Anything else is cut short. */
  lemma SplitUnclean(component: string, rest: string)
    requires !Clean(component)
    ensures SplitFirst(component + "__" + rest).0 != component
  {
    var s, n := component + "__" + rest, |component|;
    if i :| SeparatorAt(component, i) {
      assert SeparatorAt(s, i);
    } else {
      assert SeparatorAt(s, n - 1);
    }
    assert FindSeparator(s, 0) < n;
  }

  lemma KindsAreClean()
    ensures Clean("crate") && Clean("file") && Clean("item")
  {
    forall k, i | k in ["crate", "file", "item"] ensures !SeparatorAt(k, i) {}
  }

  /** `crate_of_id` recovers the crate of a file or item id exactly when its normalized name is clean. */
  lemma CrateOfIdExact(krate: string, path: string, kind: string)
    ensures CrateOfId(FileId(krate, path)) == Some(Norm(krate)) <==> Clean(Norm(krate))
    ensures CrateOfId(ItemId(krate, path, kind)) == Some(Norm(krate)) <==> Clean(Norm(krate))
  {
    KindsAreClean();
    var file, item := Norm(krate) + "__" + Norm(path), Norm(krate) + "__" + (Norm(path) + "__" + Norm(kind));
    SplitClean("file", file);
    SplitClean("item", item);
    if Clean(Norm(krate)) {
      SplitClean(Norm(krate), Norm(path));
      SplitClean(Norm(krate), Norm(path) + "__" + Norm(kind));
    } else {
      SplitUnclean(Norm(krate), Norm(path));
      SplitUnclean(Norm(krate), Norm(path) + "__" + Norm(kind));
    }
  }

  lemma BuiltAttributed(krate: string, id: string)
    requires BuiltFile(krate, id) || BuiltItem(krate, id)
    ensures CrateOfId(id) == Some(Norm(krate)) <==> Clean(Norm(krate))
  {
    hide CrateOfId, Norm, Clean, FileId, ItemId;
    if BuiltFile(krate, id) {
      var path :| id == FileId(krate, path);
      CrateOfIdExact(krate, path, "");
    } else {
      var path, kind :| id == ItemId(krate, path, kind);
      CrateOfIdExact(krate, path, kind);
    }
  }

  /** For crate ids only a doubled underscore is in the way. */
  lemma CrateOfCrateIdExact(name: string)
    ensures CrateOfId(CrateId(name)) == Some(Norm(name)) <==> !HasSeparator(Norm(name))
  {
    KindsAreClean();
    SplitClean("crate", Norm(name));
    if HasSeparator(Norm(name)) {
      var i :| SeparatorAt(Norm(name), i);
      assert FindSeparator(Norm(name), 0) < |Norm(name)|;
    }
  }

  /** The failing family is inhabited: a doubled hyphen is cut at its first half. */
  lemma DoubledHyphenMisattributed()
    ensures CrateOfId(FileId("a--b", "src/lib.rs")) == Some("a") == Some(Norm("a"))
  {
    KindsAreClean();
    var rest := Norm("a--b") + "__" + Norm("src/lib.rs");
    SplitClean("file", rest);
    assert Norm("a--b") == "a" + "__" + "b";
    assert rest == "a" + "__" + ("b" + "__" + Norm("src/lib.rs"));
    assert Clean("a") by { forall i ensures !SeparatorAt("a", i) {} }
    SplitClean("a", "b" + "__" + Norm("src/lib.rs"));
    assert Norm("a") == "a";
  }

  // ----- the graph -----

  datatype Node = Node(
    id: string, name: string, file: Option<string>, line: Option<nat>, attributes: map<string, string>)
  {
    function Kind(): string {
      if "kind" in attributes then attributes["kind"] else ""
    }

    /** Fill in a missing location; existing attributes win. */
    function Enriched(other: Node): Node {
      var located := if file.None? then this.(file := other.file, line := other.line) else this;
      located.(attributes := other.attributes + attributes)
    }
  }

  type Key = (string, string, string)

  datatype Edge = Edge(file: Option<string>, line: Option<nat>)

  datatype GraphState = GraphState(nodes: map<string, Node>, edges: map<Key, Edge>) {
    function WithNode(node: Node): GraphState {
      this.(nodes := nodes[node.id := if node.id in nodes then nodes[node.id].Enriched(node) else node])
    }

    function WithEdge(key: Key, edge: Edge): GraphState {
      if key in edges then this else this.(edges := edges[key := edge])
    }

    function WithoutCrate(krate: string): GraphState {
      GraphState(
        map id | id in nodes && CrateOfId(id) != Some(krate) :: nodes[id],
        map key | key in edges && CrateOfId(key.0) != Some(krate) :: edges[key])
    }

    function WithoutRelation(relation: string): GraphState {
      this.(edges := map key | key in edges && key.2 != relation :: edges[key])
    }

    function Pruned(): GraphState {
      this.(edges := map key | key in edges && key.0 in nodes && key.1 in nodes :: edges[key])
    }
  }

  const EMPTY := GraphState(map[], map[])

  function NodeIds(nodes: seq<Node>): set<string> {
    if nodes == [] then {} else NodeIds(nodes[..|nodes| - 1]) + {nodes[|nodes| - 1].id}
  }

  function AddNodes(g: GraphState, nodes: seq<Node>): GraphState {
    if nodes == [] then g else AddNodes(g, nodes[..|nodes| - 1]).WithNode(nodes[|nodes| - 1])
  }

  lemma {:induction false} AddNodesKeys(g: GraphState, nodes: seq<Node>)
    ensures AddNodes(g, nodes).nodes.Keys == g.nodes.Keys + NodeIds(nodes) && AddNodes(g, nodes).edges == g.edges
    decreases |nodes|
  {
    if nodes != [] { AddNodesKeys(g, nodes[..|nodes| - 1]); }
  }

  lemma NodeIdsPush(nodes: seq<Node>, n: Node)
    ensures NodeIds(nodes + [n]) == NodeIds(nodes) + {n.id}
  {
    assert (nodes + [n])[..|nodes|] == nodes;
  }

  method AddAllNodes(graph: Graph, nodes: seq<Node>)
    modifies graph
    ensures graph.Abs() == AddNodes(old(graph.Abs()), nodes)
  {
    for i := 0 to |nodes|
      invariant graph.Abs() == AddNodes(old(graph.Abs()), nodes[..i])
    {
      assert nodes[..i + 1][..i] == nodes[..i];
      graph.AddNode(nodes[i]);
    }
    assert nodes[..|nodes|] == nodes;
  }

  class Graph {
    var nodes: map<string, Node>
    var edges: map<Key, Edge>

    ghost function Abs(): GraphState
      reads this
    {
      GraphState(nodes, edges)
    }

    constructor ()
      ensures Abs() == EMPTY
    {
      nodes, edges := map[], map[];
    }

    method AddNode(node: Node)
      modifies this
      ensures Abs() == old(Abs()).WithNode(node)
    {
      if node.id !in nodes {
        nodes := nodes[node.id := node];
      } else {
        var existing := nodes[node.id];
        var attributes := MergeAttributes(existing.attributes, node.attributes);
        if existing.file.None? {
          existing := existing.(file := node.file, line := node.line);
        }
        nodes := nodes[node.id := existing.(attributes := attributes)];
      }
    }

    /** Attributes already there win. */
    static method MergeAttributes(existing: map<string, string>, more: map<string, string>)
      returns (r: map<string, string>)
      ensures r == more + existing
    {
      r := existing;
      var left := more.Keys;
      while left != {}
        invariant left <= more.Keys && r == (more - left) + existing
        decreases |left|
      {
        var k :| k in left;
        if k !in r {
          r := r[k := more[k]];
        }
        assert more - (left - {k}) == (more - left)[k := more[k]];
        left := left - {k};
      }
      assert more - {} == more;
    }

    method AddEdge(source: string, target: string, relation: string, edge: Edge)
      modifies this`edges
      ensures Abs() == old(Abs()).WithEdge((source, target, relation), edge)
    {
      var key := (source, target, relation);
      if key !in edges {
        edges := edges[key := edge];
      }
    }

    method RemoveCrate(krate: string)
      modifies this
      ensures Abs() == old(Abs()).WithoutCrate(krate)
    {
      nodes := map id | id in nodes && CrateOfId(id) != Some(krate) :: nodes[id];
      edges := map key | key in edges && CrateOfId(key.0) != Some(krate) :: edges[key];
    }

    method RemoveEdgesWithRelation(relation: string)
      modifies this`edges
      ensures Abs() == old(Abs()).WithoutRelation(relation)
    {
      edges := map key | key in edges && key.2 != relation :: edges[key];
    }

    method PruneDanglingEdges()
      modifies this`edges
      ensures Abs() == old(Abs()).Pruned()
    {
      var present := nodes.Keys;
      edges := map key | key in edges && key.0 in present && key.1 in present :: edges[key];
    }
  }

  /** What adding a node leaves under its id: what was there wins, attribute by attribute, and gaps are filled in. */
  lemma AddedMeaning(g: GraphState, node: Node)
    ensures var h := g.WithNode(node);
            && h.nodes.Keys == g.nodes.Keys + {node.id} && h.edges == g.edges
            && (forall id :: id in g.nodes && id != node.id ==> h.nodes[id] == g.nodes[id])
            && (node.id !in g.nodes ==> h.nodes[node.id] == node)
    ensures node.id in g.nodes ==>
              var was, got := g.nodes[node.id], g.WithNode(node).nodes[node.id];
              && got.id == was.id && got.name == was.name
              && (was.file.Some? ==> got.file == was.file && got.line == was.line)
              && (was.file.None? ==> got.file == node.file && got.line == node.line)
              && got.attributes.Keys == was.attributes.Keys + node.attributes.Keys
              && forall k :: k in got.attributes ==>
                   got.attributes[k] == if k in was.attributes then was.attributes[k] else node.attributes[k]
  {
  }

  /** Re-adding what is already there is a no-op. */
  lemma AddingTwiceIsOnce(g: GraphState, node: Node, key: Key, edge: Edge, other: Edge)
    ensures g.WithNode(node).WithNode(node) == g.WithNode(node)
    ensures g.WithEdge(key, edge).WithEdge(key, other) == g.WithEdge(key, edge)
  {
    var h := g.WithNode(node);
    var n := h.nodes[node.id];
    assert node.attributes + n.attributes == n.attributes;
    assert h.WithNode(node).nodes == h.nodes;
  }
}
