/**
 Incremental extraction over any number of runs against a rebuild from scratch: the same node
 ids, the same edges inside every namespace, and exactly which other edges differ.
 */
module Splice {
  import opened Bytes
  import opened Measure
  import opened GraphModel
  import opened Rustdoc
  import opened Workspaces

  // ----- one run on the graph itself -----

  method ExpandDirtyNamespaces(dirty: set<string>, removed: set<string>, current: set<string>) returns (r: set<string>)
    ensures r == dirty + set n | n in current && Norm(n) in Norms(dirty + removed)
    ensures Norms(r + removed) == Norms(dirty + removed)
  {
    var namespaces := Norms(dirty + removed);
    r := dirty;
    var left := current;
    while left != {}
      invariant left <= current
      invariant r == dirty + set n | n in current - left && Norm(n) in namespaces
      decreases left
    {
      var n :| n in left;
      if Norm(n) in namespaces {
        r := r + {n};
      }
      left := left - {n};
    }
  }

  lemma NoElems<T>()
    ensures Elems<T>([]) == {}
  {
  }

  method RemoveCrates(graph: Graph, names: set<string>) returns (ghost order: seq<string>)
    modifies graph
    ensures Elems(order) == names && graph.Abs() == WithoutCrates(old(graph.Abs()), order)
  {
    hide Norm, Elems;
    order := [];
    NoElems<string>();
    var left := names;
    while left != {}
      invariant Elems(order) + left == names && graph.Abs() == WithoutCrates(old(graph.Abs()), order)
      decreases left
    {
      var n :| n in left;
      graph.RemoveCrate(Norm(n));
      ElemsPush(order, n);
      assert (order + [n])[..|order|] == order;
      order, left := order + [n], left - {n};
    }
  }

  /** A node for every crate of the workspace and their dependencies, whichever crates are dirty. */
  method AddCrateLayer(graph: Graph, x: Workspace)
    modifies graph
    ensures graph.Abs() == AddDepends(AddMembers(old(graph.Abs()), x.members), x.depends)
  {
    hide CrateId;
    for i := 0 to |x.members|
      invariant graph.Abs() == AddMembers(old(graph.Abs()), x.members[..i])
    {
      assert x.members[..i + 1][..i] == x.members[..i];
      graph.AddNode(CrateNode(x.members[i]));
    }
    assert x.members[..|x.members|] == x.members;
    ghost var named := graph.Abs();
    for i := 0 to |x.depends|
      invariant graph.Abs() == AddDepends(named, x.depends[..i])
    {
      assert x.depends[..i + 1][..i] == x.depends[..i];
      graph.AddEdge(CrateId(x.depends[i].0), CrateId(x.depends[i].1), "depends_on", Edge(None, None));
    }
    assert x.depends[..|x.depends|] == x.depends;
  }

  method AddCrateFiles(graph: Graph, n: string, files: seq<Node>)
    modifies graph
    ensures graph.Abs() == AddFiles(old(graph.Abs()), n, files)
  {
    hide CrateId;
    for i := 0 to |files|
      invariant graph.Abs() == AddFiles(old(graph.Abs()), n, files[..i])
    {
      assert files[..i + 1][..i] == files[..i];
      graph.AddNode(files[i]);
      graph.AddEdge(CrateId(n), files[i].id, "contains", Edge(None, None));
    }
    assert files[..|files|] == files;
  }

  /** Hash order: the dirty crates in any order. */
  method AddDirtyFiles(graph: Graph, x: Workspace, dirty: set<string>) returns (ghost order: seq<string>)
    modifies graph
    ensures Elems(order) == dirty && graph.Abs() == AddAllFiles(old(graph.Abs()), x, order)
  {
    hide Elems, AddFiles;
    order := [];
    NoElems<string>();
    var left := dirty;
    while left != {}
      invariant Elems(order) + left == dirty && graph.Abs() == AddAllFiles(old(graph.Abs()), x, order)
      decreases left
    {
      var n :| n in left;
      AddCrateFiles(graph, n, Given(x, n).files);
      ElemsPush(order, n);
      assert (order + [n])[..|order|] == order;
      order, left := order + [n], left - {n};
    }
  }

  method CollectFollowed(references: seq<Pending>, crateIds: set<string>) returns (r: seq<Pending>)
    ensures r == Follow(references, crateIds)
  {
    r := [];
    for i := 0 to |references|
      invariant r == Follow(references[..i], crateIds)
    {
      assert references[..i + 1][..i] == references[..i];
      if references[i].krate in crateIds {
        r := r + [references[i]];
      }
    }
    assert references[..|references|] == references;
  }

  /** The items of each dirty crate; its references to other crates of the workspace wait for the nodes of all. */
  method AddDirtyItems(graph: Graph, x: Workspace, dirty: set<string>)
    returns (ghost order: seq<string>, pending: seq<Pending>)
    modifies graph
    ensures Elems(order) == dirty && graph.Abs() == AddAllItems(old(graph.Abs()), x, order)
    ensures pending == Deferred(x, order)
  {
    hide Elems, AddNodes, LandAll, Follow;
    order, pending := [], [];
    NoElems<string>();
    var left := dirty;
    while left != {}
      invariant Elems(order) + left == dirty && graph.Abs() == AddAllItems(old(graph.Abs()), x, order)
      invariant pending == Deferred(x, order)
      decreases left
    {
      var n :| n in left;
      AddAllNodes(graph, Given(x, n).items);
      LandEdges(graph, Given(x, n).edges);
      var more := CollectFollowed(Given(x, n).references, CrateIds(x.crates.Keys));
      ElemsPush(order, n);
      assert (order + [n])[..|order|] == order;
      order, pending, left := order + [n], pending + more, left - {n};
    }
  }

  /** The splice performed on the graph; its seed need only contain the changed crates. */
  method SpliceGraph(graph: Graph, ghost before: Workspace, x: Workspace, seed: set<string>, removed: set<string>)
    returns (ghost e: Extraction)
    requires LayerComplete(x) && AllBuilt(x)
    requires seed <= x.crates.Keys && removed == before.crates.Keys - x.crates.Keys
    requires forall n :: n in x.crates && n !in seed ==> n in before.crates && before.crates[n] == x.crates[n]
    modifies graph
    ensures Proper(before, e) && e.workspace == x && seed <= e.Dirty()
    ensures graph.Abs() == SpliceState(old(graph.Abs()), e)
  {
    hide Norms, Elems, LayerComplete, AllBuilt, WithoutCrates, AddMembers, AddDepends, AddAllFiles, AddAllItems,
      Deferred, SettleAll;
    var dirty := ExpandDirtyNamespaces(seed, removed, x.crates.Keys);
    ghost var dropped := RemoveCrates(graph, dirty + removed);
    AddCrateLayer(graph, x);
    ghost var files := AddDirtyFiles(graph, x, dirty);
    ghost var items;
    var pending;
    items, pending := AddDirtyItems(graph, x, dirty);
    ResolvePending(graph, pending);
    graph.PruneDanglingEdges();
    e := Extraction(x, files, items, dropped);
  }

  // ----- every sequence of runs -----

  function Latest(runs: seq<Extraction>): Workspace {
    if runs == [] then NOWHERE else runs[|runs| - 1].workspace
  }

  ghost predicate ProperRuns(runs: seq<Extraction>) {
    runs == [] || (ProperRuns(runs[..|runs| - 1]) && Proper(Latest(runs[..|runs| - 1]), runs[|runs| - 1]))
  }

  ghost predicate CleanRuns(runs: seq<Extraction>) {
    forall i :: 0 <= i < |runs| ==> CleanNames(runs[i].workspace)
  }

  /** No run misreads an id for good. */
  ghost predicate RunsReadRight(runs: seq<Extraction>) {
    forall i :: 0 <= i < |runs| ==> ReadsRight(Latest(runs[..i]), runs[i])
  }

  function Extracted(runs: seq<Extraction>): GraphState {
    if runs == [] then EMPTY else SpliceState(Extracted(runs[..|runs| - 1]), runs[|runs| - 1])
  }

  /** From run `j` on: both ends in every workspace, and the source's namespace not dropped after `j`. */
  predicate Survives(runs: seq<Extraction>, j: nat, key: Key) {
    forall k :: j <= k < |runs| ==> Present(runs[k].workspace, key) && (j < k ==> !Within(key.0, runs[k].Gone()))
  }

  /** Some run offered the edge and it survived since. */
  predicate Held(runs: seq<Extraction>, key: Key) {
    exists j :: 0 <= j < |runs| && Offered(runs[j].workspace, runs[j].Dirty(), key) && Survives(runs, j, key)
  }

  lemma Settings(runs: seq<Extraction>)
    requires ProperRuns(runs) && CleanRuns(runs)
    ensures AllBuilt(Latest(runs)) && CleanNames(Latest(runs))
  {
    hide Built, Clean, Norm, LayerComplete, Covers;
    if runs == [] {
    } else {
      assert Proper(Latest(runs[..|runs| - 1]), runs[|runs| - 1]);
    }
  }

  lemma FrontRuns(runs: seq<Extraction>)
    requires runs != [] && ProperRuns(runs) && CleanRuns(runs)
    ensures var front, last := runs[..|runs| - 1], runs[|runs| - 1];
            && ProperRuns(front) && CleanRuns(front) && Proper(Latest(front), last)
            && AllBuilt(Latest(front)) && CleanNames(Latest(front)) && AllBuilt(last.workspace)
            && CleanNames(last.workspace)
  {
    hide Proper, CleanNames, AllBuilt;
    Settings(runs);
    assert forall i :: 0 <= i < |runs| - 1 ==> runs[..|runs| - 1][i] == runs[i];
    Settings(runs[..|runs| - 1]);
  }

  /** The last run keeps what the earlier ones held. */
  lemma HeldKept(runs: seq<Extraction>, j: nat, key: Key)
    requires runs != [] && j < |runs| - 1
    ensures Survives(runs, j, key) <==>
              && Survives(runs[..|runs| - 1], j, key)
              && !Within(key.0, runs[|runs| - 1].Gone()) && Present(runs[|runs| - 1].workspace, key)
  {
    hide Within, Present;
    var front := runs[..|runs| - 1];
    assert forall k :: 0 <= k < |front| ==> front[k] == runs[k];
  }

  lemma HeldStep(runs: seq<Extraction>, key: Key)
    requires runs != []
    ensures var front, last := runs[..|runs| - 1], runs[|runs| - 1];
            Held(runs, key) <==>
              && ((Held(front, key) && !Within(key.0, last.Gone())) || Offered(last.workspace, last.Dirty(), key))
              && Present(last.workspace, key)
  {
    hide Offered, Within, Present, Survives;
    var front, last := runs[..|runs| - 1], runs[|runs| - 1];
    LastSurvives(runs, key);
    forall j: nat | j < |front|
      ensures front[j] == runs[j]
      ensures Survives(runs, j, key)
         <==> Survives(front, j, key) && !Within(key.0, last.Gone()) && Present(last.workspace, key)
    {
      HeldKept(runs, j, key);
    }
  }

  lemma LastSurvives(runs: seq<Extraction>, key: Key)
    requires runs != []
    ensures Survives(runs, |runs| - 1, key) <==> Present(runs[|runs| - 1].workspace, key)
  {
  }

  lemma ReadRightFront(runs: seq<Extraction>)
    requires runs != [] && RunsReadRight(runs)
    ensures RunsReadRight(runs[..|runs| - 1]) && ReadsRight(Latest(runs[..|runs| - 1]), runs[|runs| - 1])
  {
    hide ReadsRight;
    var front := runs[..|runs| - 1];
    forall i | 0 <= i < |front| ensures ReadsRight(Latest(front[..i]), front[i]) {
      assert front[..i] == runs[..i] && front[i] == runs[i];
    }
  }

  /** The graph after any runs: the ids of the latest workspace, and the edges offered by some run and held since. */
  lemma {:induction false} RunsExact(runs: seq<Extraction>)
    requires ProperRuns(runs) && RunsReadRight(runs)
    ensures Extracted(runs).nodes.Keys == Ids(Latest(runs))
    ensures forall key :: key in Extracted(runs).edges <==> Held(runs, key)
    decreases |runs|
  {
    hide Proper, RunsReadRight, ReadsRight, Held, Offered, Within, Present, SpliceState;
    if runs == [] {
      NowhereIsEmpty();
      forall key ensures !Held(runs, key) { NothingHeld(key); }
    } else {
      var front, last := runs[..|runs| - 1], runs[|runs| - 1];
      ReadRightFront(runs);
      RunsExact(front);
      SpliceExact(Latest(front), Extracted(front), last);
      forall key { HeldStep(runs, key); }
    }
  }

  lemma {:induction false} CleanRunsReadRight(runs: seq<Extraction>)
    requires ProperRuns(runs) && CleanRuns(runs)
    ensures RunsReadRight(runs)
    decreases |runs|
  {
    hide Proper, CleanNames, AllBuilt, ReadsRight;
    if runs != [] {
      var front, last := runs[..|runs| - 1], runs[|runs| - 1];
      FrontRuns(runs);
      CleanRunsReadRight(front);
      CleanReadsRight(Latest(front), last);
      forall i | 0 <= i < |runs| ensures ReadsRight(Latest(runs[..i]), runs[i]) {
        if i < |front| { assert front[..i] == runs[..i] && front[i] == runs[i]; }
      }
    }
  }

  lemma NothingHeld(key: Key)
    ensures !Held([], key)
  {
  }

  lemma NowhereIsEmpty()
    ensures Ids(NOWHERE) == {}
  {
  }
}
