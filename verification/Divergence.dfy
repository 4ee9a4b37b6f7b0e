/** Runs whose result a rebuild does not share: a fallback edge that stays, and a name that is not clean. */
module Divergence {
  import opened Bytes
  import opened Measure
  import opened GraphModel
  import opened Rustdoc
  import opened Workspaces
  import opened Splice
  import opened Rebuild

  // ----- a fallback that outlives its reason -----

  function Plain(id: string): Node {
    Node(id, "", None, None, map[])
  }

  /** Two crates; the item `from` of the first takes the item `item` of the second. */
  function TwoCrates(a: string, b: string, from: string, item: string, documented: bool): Workspace {
    Workspace(
      [Member(a, None, ""), Member(b, None, "")], [],
      map[a := Contribution([], [Plain(from)], [], [Pending(from, item, CrateId(b), "takes")]),
          b := Contribution([], if documented then [Plain(item)] else [], [], [])])
  }

  lemma TwoMembers(a: string, b: string)
    ensures MemberNames([Member(a, None, ""), Member(b, None, "")]) == {a, b}
  {
    var first, second := Member(a, None, ""), Member(b, None, "");
    assert [first, second][..1] == [first];
    assert Elems([first]) == {first};
    assert Elems([first, second]) == {first, second};
    assert first.name == a && second.name == b;
  }

  lemma Singles(node: Node, p: Pending)
    ensures NodeIds([node]) == {node.id} && Elems([p]) == {p} && NodeIds([]) == {}
  {
  }

  lemma TwoCratesComplete(a: string, b: string, from: string, item: string, documented: bool)
    requires Clean(Norm(a)) && Clean(Norm(b)) && a != b && BuiltItem(a, from) && BuiltItem(b, item)
    ensures var x := TwoCrates(a, b, from, item, documented);
            LayerComplete(x) && AllBuilt(x) && CleanNames(x) && x.crates.Keys == {a, b} && DependsKeys(x.depends) == {}
  {
    hide Clean, Norm, BuiltItem, CrateId, NodeIds, MemberNames;
    var x := TwoCrates(a, b, from, item, documented);
    var p := Pending(from, item, CrateId(b), "takes");
    TwoMembers(a, b);
    Singles(Plain(from), p);
    Singles(Plain(item), p);
    assert NamedBy(b, item, CrateId(b));
    assert Built(a, x.crates[a]);
    assert Built(b, x.crates[b]);
  }

  lemma TwoCratesIds(a: string, b: string, from: string, item: string, documented: bool)
    requires a != b
    ensures var x := TwoCrates(a, b, from, item, documented);
            Ids(x) == {CrateId(a), CrateId(b), from} + (if documented then {item} else {})
  {
    hide CrateId, NodeIds;
    var x := TwoCrates(a, b, from, item, documented);
    var p := Pending(from, item, CrateId(b), "takes");
    Singles(Plain(from), p);
    Singles(Plain(item), p);
    assert OwnIds(a, x.crates[a]) == {CrateId(a), from};
    assert OwnIds(b, x.crates[b]) == {CrateId(b)} + (if documented then {item} else {});
    assert Ids(x) == OwnIds(a, x.crates[a]) + OwnIds(b, x.crates[b]);
  }

  lemma TwoCratesFollow(a: string, b: string, from: string, item: string, documented: bool)
    requires a != b
    ensures var x := TwoCrates(a, b, from, item, documented);
            FollowedOf(x, a) == {Pending(from, item, CrateId(b), "takes")} && FollowedOf(x, b) == {}
  {
    hide CrateId, NodeIds;
    var x := TwoCrates(a, b, from, item, documented);
    var p := Pending(from, item, CrateId(b), "takes");
    Singles(Plain(from), p);
    assert b in x.crates && CrateId(b) in CrateIds(x.crates.Keys);
  }

  /** What the two crates offer, whichever of them are extracted. */
  lemma TwoCratesOffer(a: string, b: string, from: string, item: string, documented: bool, dirty: set<string>, key: Key)
    requires Clean(Norm(a)) && Clean(Norm(b)) && a != b && BuiltItem(a, from) && BuiltItem(b, item)
    requires item !in {CrateId(a), CrateId(b), from}
    ensures Offered(TwoCrates(a, b, from, item, documented), dirty, key) <==>
              a in dirty && key == (from, if documented then item else CrateId(b), "takes")
  {
    hide Clean, Norm, BuiltItem, CrateId, Ids, FollowedOf;
    var x := TwoCrates(a, b, from, item, documented);
    TwoCratesIds(a, b, from, item, documented);
    TwoCratesFollow(a, b, from, item, documented);
    var p := Pending(from, item, CrateId(b), "takes");
    assert p in FollowedOf(x, a);
    assert Target(Ids(x), p) == Some(if documented then item else CrateId(b));
    forall n ensures !Owns(x, n, key) {}
    forall n | n != a ensures !Refers(x, n, key) { UnknownRefersNowhere(x, n); }
    if a in dirty && Refers(x, a, key) { assert Offers(x, a, key); }
  }

  lemma UnknownRefersNowhere(x: Workspace, n: string)
    ensures n !in x.crates ==> FollowedOf(x, n) == {}
  {
  }

  lemma DistinctEnds(a: string, b: string, from: string, item: string)
    requires Clean(Norm(a)) && Clean(Norm(b)) && Norm(a) != Norm(b) && BuiltItem(a, from) && BuiltItem(b, item)
    ensures item !in {CrateId(a), CrateId(b), from}
  {
    hide Clean, CrateOfId, Norm;
    BuiltAttributed(a, from);
    BuiltAttributed(b, item);
    assert item[0] == 'i' && CrateId(a)[0] == CrateId(b)[0] == 'c';
  }

  lemma TwoElems(a: string, b: string)
    ensures Elems([b]) == {b} && Elems([a, b]) == {a, b}
  {
    assert [a, b][..1] == [a];
  }

  lemma TwoRunsProper(a: string, b: string, from: string, item: string)
    requires Clean(Norm(a)) && Clean(Norm(b)) && Norm(a) != Norm(b) && BuiltItem(a, from) && BuiltItem(b, item)
    ensures var before, after := TwoCrates(a, b, from, item, false), TwoCrates(a, b, from, item, true);
            && Proper(NOWHERE, Extraction(before, [a, b], [a, b], [a, b]))
            && Proper(before, Extraction(after, [b], [b], [b]))
            && Proper(NOWHERE, Extraction(after, [a, b], [a, b], [a, b]))
  {
    hide Clean, Norm, BuiltItem, CrateId, Ids, FollowedOf, LayerComplete, AllBuilt, DependsKeys, Elems, CleanNames;
    var before, after := TwoCrates(a, b, from, item, false), TwoCrates(a, b, from, item, true);
    TwoCratesComplete(a, b, from, item, false);
    TwoCratesComplete(a, b, from, item, true);
    TwoElems(a, b);
    assert {a, b} + {} == {a, b} && {b} + {} == {b};
    assert NOWHERE.crates.Keys - {a, b} == {} && before.crates.Keys - after.crates.Keys == {};
    assert Norms({b}) == {Norm(b)};
  }

  /**
   The second crate documents the item in a later run. It alone is dirty then, so the first keeps its edge to the
   crate's node, and never gets the edge to the item; a rebuild has the one edge and not the other.
   */
  lemma FallbackOutlives(a: string, b: string, from: string, item: string)
    returns (runs: seq<Extraction>, e: Extraction)
    requires Clean(Norm(a)) && Clean(Norm(b)) && Norm(a) != Norm(b) && BuiltItem(a, from) && BuiltItem(b, item)
    ensures |runs| == 2 && ProperRuns(runs) && CleanRuns(runs) && FromScratch(e) && e.workspace == Latest(runs)
    ensures var g, h := Extracted(runs), Extracted([e]);
            && (from, CrateId(b), "takes") in g.edges && (from, CrateId(b), "takes") !in h.edges
            && (from, item, "takes") in h.edges && (from, item, "takes") !in g.edges
  {
    hide Clean, Norm, BuiltItem, CrateId, Ids, LayerComplete, AllBuilt, Offered, Within, TwoCrates, CrateOfId,
      Extracted, SpliceState, FollowedOf, Proper, Elems, CleanNames;
    var before, after := TwoCrates(a, b, from, item, false), TwoCrates(a, b, from, item, true);
    var first, second := Extraction(before, [a, b], [a, b], [a, b]), Extraction(after, [b], [b], [b]);
    e := Extraction(after, [a, b], [a, b], [a, b]);
    runs := [first, second];
    DistinctEnds(a, b, from, item);
    TwoCratesComplete(a, b, from, item, false);
    TwoCratesIds(a, b, from, item, false);
    TwoCratesComplete(a, b, from, item, true);
    TwoCratesIds(a, b, from, item, true);
    TwoRunsProper(a, b, from, item);
    TwoElems(a, b);
    TwoRuns(first, second);
    CleanRunsReadRight(runs);
    RunsExact(runs);
    RebuildExact(e);
    var fallback, exact: Key := (from, CrateId(b), "takes"), (from, item, "takes");
    TwoCratesOffer(a, b, from, item, false, first.Dirty(), fallback);
    TwoCratesOffer(a, b, from, item, false, first.Dirty(), exact);
    TwoCratesOffer(a, b, from, item, true, second.Dirty(), exact);
    TwoCratesOffer(a, b, from, item, true, {a, b}, fallback);
    TwoCratesOffer(a, b, from, item, true, {a, b}, exact);
    HeldOfTwo(first, second, fallback);
    HeldOfTwo(first, second, exact);
    FirstIsKept(a, b, from, item);
  }

  lemma TwoRuns(first: Extraction, second: Extraction)
    requires Proper(NOWHERE, first) && Proper(first.workspace, second)
    requires CleanNames(first.workspace) && CleanNames(second.workspace)
    ensures ProperRuns([first, second]) && CleanRuns([first, second]) && Latest([first, second]) == second.workspace
  {
    hide Proper, CleanNames;
    assert [first, second][..1] == [first] && [first][..0] == [];
    assert ProperRuns([first][..0]);
  }

  lemma HeldOfTwo(first: Extraction, second: Extraction, key: Key)
    ensures Held([first, second], key) <==>
              && ((Offered(first.workspace, first.Dirty(), key) && Present(first.workspace, key)
                   && !Within(key.0, second.Gone()))
                  || Offered(second.workspace, second.Dirty(), key))
              && Present(second.workspace, key)
  {
    hide Held, Offered, Present, Within;
    assert [first, second][..1] == [first] && [first][..0] == [];
    HeldStep([first, second], key);
    HeldStep([first], key);
    NothingHeld(key);
  }

  lemma FirstIsKept(a: string, b: string, from: string, item: string)
    requires Clean(Norm(a)) && Norm(a) != Norm(b) && BuiltItem(a, from)
    ensures !Within(from, Norms(Elems([b])))
  {
    hide Clean, CrateOfId, Norm;
    BuiltAttributed(a, from);
    TwoElems(a, b);
  }

  // ----- names that are not clean -----

  function OneFile(n: string): Contribution {
    Contribution([Plain(FileId(n, "src/lib.rs"))], [], [], [])
  }

  /** Two crates with a file each; the name of one continues the other's with a doubled hyphen. */
  function Hyphened(): Workspace {
    Workspace([Member("a", None, ""), Member("a--b", None, "")], [],
              map["a" := OneFile("a"), "a--b" := OneFile("a--b")])
  }

  lemma OneFileBuilt(n: string)
    ensures Built(n, OneFile(n))
  {
    hide FileId, CrateId;
    var id := FileId(n, "src/lib.rs");
    assert BuiltFile(n, id);
    assert NodeIds([Plain(id)]) == {id};
  }

  lemma HyphenedComplete()
    ensures Norm("a--b") != Norm("a") && Hyphened().crates.Keys == {"a", "a--b"}
    ensures LayerComplete(Hyphened()) && AllBuilt(Hyphened())
  {
    hide FileId, CrateId, OneFile, MemberNames, Built;
    assert |Norm("a--b")| != |Norm("a")|;
    TwoMembers("a", "a--b");
    OneFileBuilt("a");
    OneFileBuilt("a--b");
  }

  lemma HyphenedRuns(first: Extraction, second: Extraction)
    requires first == Extraction(Hyphened(), ["a", "a--b"], ["a", "a--b"], ["a", "a--b"])
    requires second == Extraction(Hyphened(), ["a"], ["a"], ["a"])
    ensures Norm("a--b") != Norm("a") && Proper(NOWHERE, first) && Proper(Hyphened(), second)
  {
    hide LayerComplete, AllBuilt, Hyphened, Norm, Elems;
    var x := Hyphened();
    HyphenedComplete();
    TwoElems("a", "a--b");
    TwoElems("a--b", "a");
    assert NOWHERE.crates.Keys - x.crates.Keys == {} && x.crates.Keys - x.crates.Keys == {};
    assert {"a"} + {} == {"a"} && {"a", "a--b"} + {} == {"a", "a--b"};
    assert Norms({"a"}) == {Norm("a")};
  }

  /**
   With a name that is not clean the ids go wrong: re-extracting "a" drops the file of the clean crate "a--b", which a
   rebuild has.
   */
  lemma DoubledHyphenLosesFile() returns (runs: seq<Extraction>, e: Extraction)
    ensures |runs| == 2 && ProperRuns(runs) && FromScratch(e) && e.workspace == Latest(runs)
    ensures "a--b" in Latest(runs).crates && "a--b" !in runs[1].Dirty() && Norm("a--b") != Norm("a")
    ensures FileId("a--b", "src/lib.rs") in Extracted([e]).nodes
    ensures FileId("a--b", "src/lib.rs") !in Extracted(runs).nodes
  {
    hide Proper, SpliceState, Hyphened, Elems, Norm;
    e := Extraction(Hyphened(), ["a", "a--b"], ["a", "a--b"], ["a", "a--b"]);
    var second := Extraction(Hyphened(), ["a"], ["a"], ["a"]);
    runs := [e, second];
    HyphenedRuns(e, second);
    assert runs[..1] == [e] && [e][..0] == [];
    assert ProperRuns([e][..0]);
    assert ProperRuns([e]);
    HyphenedNodes(EMPTY, e, second);
    HyphenedNodes(Extracted([e]), e, second);
    TwoElems("a--b", "a");
    HyphenedComplete();
  }

  lemma HyphenedNodes(prior: GraphState, first: Extraction, second: Extraction)
    requires first == Extraction(Hyphened(), ["a", "a--b"], ["a", "a--b"], ["a", "a--b"])
    requires second == Extraction(Hyphened(), ["a"], ["a"], ["a"])
    ensures FileId("a--b", "src/lib.rs") in SpliceState(prior, first).nodes
    ensures FileId("a--b", "src/lib.rs") !in SpliceState(prior, second).nodes
  {
    hide Populated, SettleAll, Deferred, WithoutCrates, Elems, CrateOfId, Proper, Norm;
    var id := FileId("a--b", "src/lib.rs");
    HyphenedRuns(first, second);
    TwoElems("a", "a--b");
    TwoElems("a--b", "a");
    DoubledHyphenMisattributed();
    PopulatedNodes(NOWHERE, prior, first);
    PopulatedNodes(Hyphened(), prior, second);
    SettleAllKeys(Populated(prior, first), Deferred(first.workspace, first.items));
    SettleAllKeys(Populated(prior, second), Deferred(second.workspace, second.items));
    WithoutCratesKeeps(prior, ["a"]);
    assert Norm("a") in Norms(Elems(["a"]));
    assert Within(id, Norms(Elems(["a"])));
    HyphenedIds();
    assert Given(Hyphened(), "a--b").files == [Plain(id)] && id in NodeIds([Plain(id)]);
  }

  lemma HyphenedIds()
    ensures FileId("a--b", "src/lib.rs") !in CrateIds(Hyphened().crates.Keys)
    ensures FileId("a--b", "src/lib.rs") !in FileIdsOf(Hyphened(), {"a"})
    ensures FileId("a--b", "src/lib.rs") !in ItemIdsOf(Hyphened(), {"a"})
  {
    hide Norm;
    var id := FileId("a--b", "src/lib.rs");
    assert id[0] == 'f' && forall n :: CrateId(n)[0] == 'c';
    assert |id| != |FileId("a", "src/lib.rs")|;
    assert NodeIds(OneFile("a").files) == {FileId("a", "src/lib.rs")};
  }
}
