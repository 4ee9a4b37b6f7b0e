/**
 Incremental runs against a rebuild from scratch. Inside a namespace nothing differs. Between
 namespaces the incremental graph keeps a clean crate's fallback edge after the preferred item
 has appeared, keeps dependencies that are gone, and misses references of clean crates that
 only a new extraction would settle.
 */
module Rebuild {
  import opened Bytes
  import opened Measure
  import opened GraphModel
  import opened Rustdoc
  import opened Workspaces
  import opened Splice

  /** From scratch: no graph before, so every crate is dirty. */
  ghost predicate FromScratch(e: Extraction) {
    Proper(NOWHERE, e)
  }

  lemma FromScratchIsRun(e: Extraction)
    requires FromScratch(e)
    ensures ProperRuns([e]) && RunsReadRight([e]) && Latest([e]) == e.workspace
    ensures e.Dirty() == e.workspace.crates.Keys
  {
    hide LayerComplete, AllBuilt, Norms, Within, Elems;
    assert [e][..0] == [];
    assert ProperRuns([e][..0]);
    assert NOWHERE.crates.Keys - e.workspace.crates.Keys == {};
    assert ReadsRight(NOWHERE, e);
  }

  /** A rebuild, whatever the names, has exactly what the workspace offers between its nodes. */
  lemma RebuildExact(e: Extraction)
    requires FromScratch(e)
    ensures Extracted([e]).nodes.Keys == Ids(e.workspace)
    ensures forall key :: key in Extracted([e]).edges <==>
              Offered(e.workspace, e.workspace.crates.Keys, key) && Present(e.workspace, key)
  {
    hide Proper, Offered, Present, SpliceState, ReadsRight;
    FromScratchIsRun(e);
    RunsExact([e]);
    forall key ensures Held([e], key) <==>
      Offered(e.workspace, e.workspace.crates.Keys, key) && Present(e.workspace, key) {
      HeldStep([e], key);
      assert [e][..0] == [];
      NothingHeld(key);
    }
  }

  /** On any names: after runs that misread no id, one more leaves the ids of a rebuild exactly if it misreads none. */
  lemma NextRunIff(runs: seq<Extraction>, next: Extraction, e: Extraction)
    requires ProperRuns(runs) && RunsReadRight(runs) && Proper(Latest(runs), next)
    requires FromScratch(e) && e.workspace == next.workspace
    ensures Extracted(runs + [next]).nodes.Keys == Extracted([e]).nodes.Keys <==> ReadsRight(Latest(runs), next)
  {
    hide Proper, ReadsRight, SpliceState, RunsReadRight, Held;
    var all := runs + [next];
    assert all[..|all| - 1] == runs && all[|all| - 1] == next;
    RunsExact(runs);
    NodesExactIff(Latest(runs), Extracted(runs), next);
    RebuildExact(e);
  }

  // ----- edges that a rebuild lacks -----

  /**
   Reference `p` of crate `n`, extracted at run `j`, fell back to its crate; the item it prefers has since appeared.
   */
  ghost predicate OutdatedBy(runs: seq<Extraction>, j: nat, n: string, p: Pending, key: Key) {
    && j < |runs| && n in runs[j].Dirty() && p in FollowedOf(runs[j].workspace, n)
    && key == (p.from, p.krate, p.relation)
    && p.item !in Ids(runs[j].workspace) && p.item in Ids(Latest(runs)) && Survives(runs, j, key)
  }

  ghost predicate Outdated(runs: seq<Extraction>, key: Key) {
    exists j, n, p :: OutdatedBy(runs, j, n, p, key)
  }

  /** A dependency of an earlier run, its crate untouched since, that the workspace no longer has. */
  predicate StaleDependency(runs: seq<Extraction>, key: Key) {
    && key !in DependsKeys(Latest(runs).depends)
    && exists j :: 0 <= j < |runs| && key in DependsKeys(runs[j].workspace.depends) && Survives(runs, j, key)
  }

  // ----- edges that incremental runs lack -----

  /** A reference of a crate that the last run found clean. */
  ghost predicate Unsettled(runs: seq<Extraction>, key: Key) {
    runs != [] && exists n :: n in Latest(runs).crates && n !in runs[|runs| - 1].Dirty() && Refers(Latest(runs), n, key)
  }

  /** Followed reference `p` of crate `n` settles as the edge `key`. */
  predicate Settles(x: Workspace, n: string, p: Pending, key: Key) {
    p in FollowedOf(x, n) && key.0 == p.from && key.2 == p.relation && Target(Ids(x), p) == Some(key.1)
  }

  /** Run `j` is the last one that extracted crate `n`. */
  predicate LastExtracted(runs: seq<Extraction>, j: nat, n: string) {
    j < |runs| && n in runs[j].Dirty() && forall k :: j < k < |runs| ==> n !in runs[k].Dirty()
  }

  /**
   At the last extraction of its crate the reference settled elsewhere or was not followed, or its target was absent
   from some workspace since.
   */
  predicate Strayed(runs: seq<Extraction>, j: nat, n: string, p: Pending, key: Key) {
    j < |runs| &&
    (!Settles(runs[j].workspace, n, p, key) || exists k :: j <= k < |runs| && key.1 !in Ids(runs[k].workspace))
  }

  ghost predicate StrayedSince(runs: seq<Extraction>, n: string, p: Pending, key: Key) {
    exists j :: LastExtracted(runs, j, n) && Strayed(runs, j, n, p, key)
  }

  /**
   An edge of references only, all of them of crates not extracted since they strayed, that no late edge stands in for.
   */
  ghost predicate Missed(runs: seq<Extraction>, key: Key) {
    var x := Latest(runs);
    && (exists n, p :: n in x.crates && Settles(x, n, p, key))
    && (forall n, p :: n in x.crates && Settles(x, n, p, key) ==> StrayedSince(runs, n, p, key))
    && key !in DependsKeys(x.depends) && (forall n :: n in x.crates ==> !Owns(x, n, key))
    && !Outdated(runs, key) && !StaleDependency(runs, key)
  }

  // ----- what clean namespaces keep -----

  /** The namespace of the key's source was not dropped after run `j`. */
  predicate Untouched(runs: seq<Extraction>, j: nat, space: string) {
    forall k :: j < k < |runs| ==> space !in runs[k].Gone()
  }

  lemma {:induction false} CrateFrozen(runs: seq<Extraction>, j: nat, n: string)
    requires ProperRuns(runs) && CleanRuns(runs) && j < |runs| && Untouched(runs, j, Norm(n))
    requires n in runs[j].workspace.crates
    ensures n in Latest(runs).crates && Latest(runs).crates[n] == runs[j].workspace.crates[n]
    decreases |runs|
  {
    hide Norm, Proper, CleanNames, AllBuilt;
    if j < |runs| - 1 {
      var front, last := runs[..|runs| - 1], runs[|runs| - 1];
      FrontRuns(runs);
      assert forall k :: 0 <= k < |front| ==> front[k] == runs[k];
      CrateFrozen(front, j, n);
      CrateKept(Latest(front), last, n);
    }
  }

  lemma {:induction false} IdFrozen(runs: seq<Extraction>, j: nat, id: string)
    requires ProperRuns(runs) && CleanRuns(runs) && j < |runs|
    requires CrateOfId(id).Some? && Untouched(runs, j, CrateOfId(id).value)
    ensures id in Ids(runs[j].workspace) <==> id in Ids(Latest(runs))
    decreases |runs|
  {
    hide Proper, CleanNames, AllBuilt, CrateOfId, Ids;
    if j < |runs| - 1 {
      var front, last := runs[..|runs| - 1], runs[|runs| - 1];
      FrontRuns(runs);
      assert forall k :: 0 <= k < |front| ==> front[k] == runs[k];
      IdFrozen(front, j, id);
      IdKept(Latest(front), last, id);
    }
  }

  lemma RunSettings(runs: seq<Extraction>, j: nat)
    requires ProperRuns(runs) && CleanRuns(runs) && j < |runs|
    ensures AllBuilt(runs[j].workspace) && CleanNames(runs[j].workspace)
    ensures runs[j].Dirty() <= runs[j].workspace.crates.Keys
    ensures LayerComplete(runs[j].workspace)
    decreases |runs|
  {
    hide CleanNames, AllBuilt, LayerComplete, Norms, Elems;
    FrontRuns(runs);
    if j < |runs| - 1 {
      assert runs[..|runs| - 1][j] == runs[j];
      RunSettings(runs[..|runs| - 1], j);
    }
  }

  // ----- where a crate's edges start and lead -----

  /** Edges and files of a crate join ids of its own namespace. */
  lemma OwnedEnds(x: Workspace, n: string, key: Key)
    requires AllBuilt(x) && CleanNames(x) && n in x.crates && Owns(x, n, key)
    ensures key.0 in OwnIds(n, x.crates[n]) && key.1 in OwnIds(n, x.crates[n])
    ensures CrateOfId(key.0) == Some(Norm(n)) == CrateOfId(key.1) && Present(x, key)
  {
    hide CrateOfId, Norm, Clean, BuiltFile, BuiltItem, Named, NodeIds, CrateId, Elems;
    OwnIdAttributed(n, x.crates[n], key.0);
    OwnIdAttributed(n, x.crates[n], key.1);
  }

  /** A followed reference starts in its crate's namespace; its item and its fallback share another one. */
  lemma ReferenceEnds(x: Workspace, n: string, p: Pending)
    requires AllBuilt(x) && CleanNames(x) && n in x.crates && p in FollowedOf(x, n)
    ensures CrateOfId(p.from) == Some(Norm(n)) && p.from in Ids(x) && p.krate in Ids(x)
    ensures CrateOfId(p.item) == CrateOfId(p.krate) && CrateOfId(p.krate).Some?
    ensures forall m :: Clean(Norm(m)) && CrateOfId(p.krate) == Some(Norm(m)) ==> p.krate == CrateId(m)
  {
    hide CrateOfId, Norm, Clean, BuiltFile, BuiltItem, NodeIds, CrateId, Elems;
    assert Built(n, x.crates[n]);
    assert p.from in OwnIds(n, x.crates[n]);
    OwnIdAttributed(n, x.crates[n], p.from);
    var m :| m in x.crates && p.krate == CrateId(m);
    assert p.krate in OwnIds(m, x.crates[m]);
    var name :| NamedBy(name, p.item, p.krate);
    CrateIdInjective(name, m);
    CrateIdAttributed(m);
    if p.item != CrateId(name) { BuiltAttributed(name, p.item); }
    forall o | Clean(Norm(o)) && CrateOfId(p.krate) == Some(Norm(o)) ensures p.krate == CrateId(o) {
      CrateIdByNorm(m, o);
    }
  }

  lemma IdHasCrate(x: Workspace, id: string) returns (n: string)
    requires AllBuilt(x) && CleanNames(x) && id in Ids(x)
    ensures n in x.crates && CrateOfId(id) == Some(Norm(n)) && Clean(Norm(n)) && CrateId(n) in CrateIds(x.crates.Keys)
  {
    hide CrateOfId, Norm, Clean, Built, OwnIds, CrateId;
    n :| n in x.crates && id in OwnIds(n, x.crates[n]);
    OwnIdAttributed(n, x.crates[n], id);
  }

  // ----- every edge is current, outdated or a stale dependency -----

  lemma SurvivorUntouched(runs: seq<Extraction>, j: nat, key: Key, space: string)
    requires Survives(runs, j, key) && CrateOfId(key.0) == Some(space)
    ensures Untouched(runs, j, space)
  {
    hide CrateOfId, Present;
  }

  /** A reference whose edge survives is still there, and still leads into the workspace. */
  lemma StillFollowed(runs: seq<Extraction>, j: nat, n: string, p: Pending, key: Key)
    requires ProperRuns(runs) && CleanRuns(runs) && j < |runs| && Survives(runs, j, key)
    requires n in runs[j].Dirty() && p in FollowedOf(runs[j].workspace, n)
    requires key.0 == p.from && (key.1 == p.item || key.1 == p.krate)
    ensures n in Latest(runs).crates && p in FollowedOf(Latest(runs), n) && Present(Latest(runs), key)
  {
    hide Ids, CrateOfId, Norm, Clean, CrateId, Proper, Named, Elems, AllBuilt, CleanNames, Target;
    var y := Latest(runs);
    RunSettings(runs, j);
    ReferenceEnds(runs[j].workspace, n, p);
    SurvivorUntouched(runs, j, key, Norm(n));
    CrateFrozen(runs, j, n);
    RunSettings(runs, |runs| - 1);
    assert Present(runs[|runs| - 1].workspace, key);
    var m := IdHasCrate(y, key.1);
    assert p.krate == CrateId(m);
  }

  lemma ReferenceCurrentOrOutdated(runs: seq<Extraction>, j: nat, n: string, p: Pending, key: Key)
    requires ProperRuns(runs) && CleanRuns(runs) && j < |runs| && Survives(runs, j, key)
    requires n in runs[j].Dirty() && Settles(runs[j].workspace, n, p, key)
    ensures n in Latest(runs).crates && (Settles(Latest(runs), n, p, key) || Outdated(runs, key))
  {
    hide Ids, FollowedOf, ProperRuns, CleanRuns, Survives, Elems;
    StillFollowed(runs, j, n, p, key);
    var y := Latest(runs);
    if key.1 == p.item || p.item !in Ids(y) {
      assert Target(Ids(y), p) == Some(key.1);
    } else {
      assert OutdatedBy(runs, j, n, p, key);
    }
  }

  /** What the incremental graph has: current edges, outdated fallbacks, stale dependencies. */
  lemma HeldIsCurrentOrLate(runs: seq<Extraction>, key: Key)
    requires ProperRuns(runs) && CleanRuns(runs) && Held(runs, key)
    ensures || (Offered(Latest(runs), Latest(runs).crates.Keys, key) && Present(Latest(runs), key))
            || Outdated(runs, key) || StaleDependency(runs, key)
  {
    hide Ids, CrateOfId, Norm, Clean, CrateId, Proper, Target, FollowedOf, Owns, Outdated, DependsKeys, Elems, Within;
    var j :| 0 <= j < |runs| && Offered(runs[j].workspace, runs[j].Dirty(), key) && Survives(runs, j, key);
    var x, y := runs[j].workspace, Latest(runs);
    assert Present(runs[|runs| - 1].workspace, key);
    if key !in DependsKeys(x.depends) {
      var n :| n in runs[j].Dirty() && Offers(x, n, key);
      if Owns(x, n, key) {
        StillOwned(runs, j, n, key);
        assert Offers(y, n, key);
      } else {
        var p :| p in FollowedOf(x, n) && key.0 == p.from && key.2 == p.relation && Target(Ids(x), p) == Some(key.1);
        ReferenceCurrentOrOutdated(runs, j, n, p, key);
        if Settles(y, n, p, key) { assert Refers(y, n, key) && Offers(y, n, key); }
      }
    }
  }

  lemma StillOwned(runs: seq<Extraction>, j: nat, n: string, key: Key)
    requires ProperRuns(runs) && CleanRuns(runs) && j < |runs| && Survives(runs, j, key)
    requires n in runs[j].Dirty() && Owns(runs[j].workspace, n, key)
    ensures n in Latest(runs).crates && Owns(Latest(runs), n, key)
  {
    hide CrateOfId, Norm, Clean, CrateId, Proper, Ids, FileKeys, EdgeKeys, DependsKeys, Refers, Elems, AllBuilt,
      CleanNames;
    RunSettings(runs, j);
    OwnedEnds(runs[j].workspace, n, key);
    SurvivorUntouched(runs, j, key, Norm(n));
    CrateFrozen(runs, j, n);
  }

  /** Both kinds of late edges are in the incremental graph. */
  lemma LateIsHeld(runs: seq<Extraction>, key: Key)
    requires ProperRuns(runs) && CleanRuns(runs) && (Outdated(runs, key) || StaleDependency(runs, key))
    ensures Held(runs, key)
  {
    hide Ids, CrateId, Proper, FollowedOf, DependsKeys, Owns, Elems, Survives;
    if Outdated(runs, key) {
      var j: nat, n, p :| OutdatedBy(runs, j, n, p, key);
      var x := runs[j].workspace;
      RunSettings(runs, j);
      ReferenceEnds(x, n, p);
      assert Target(Ids(x), p) == Some(key.1);
      assert Refers(x, n, key);
      assert Offers(x, n, key);
      assert Offered(x, runs[j].Dirty(), key);
    }
  }

  // ----- inside a namespace -----

  predicate Internal(key: Key) {
    CrateOfId(key.0) == CrateOfId(key.1)
  }

  /** Nothing internal is missing: it was extracted with its crate and has been kept since. */
  lemma {:induction false} InternalKept(runs: seq<Extraction>, n: string, key: Key)
    requires ProperRuns(runs) && CleanRuns(runs) && n in Latest(runs).crates
    requires Offers(Latest(runs), n, key) && Present(Latest(runs), key) && Internal(key)
    ensures Held(runs, key)
    decreases |runs|
  {
    hide Ids, CrateOfId, Norm, Clean, Proper, Offers, CleanNames, AllBuilt, Held, Elems;
    assert runs != [];
    var front, last := runs[..|runs| - 1], runs[|runs| - 1];
    FrontRuns(runs);
    HeldStep(runs, key);
    if n in last.Dirty() {
      assert Offered(last.workspace, last.Dirty(), key);
    } else {
      InternalBefore(Latest(front), last, n, key);
      InternalKept(front, n, key);
    }
  }

  lemma InternalBefore(before: Workspace, e: Extraction, n: string, key: Key)
    requires Proper(before, e) && AllBuilt(before) && CleanNames(before) && CleanNames(e.workspace)
    requires n in e.workspace.crates && n !in e.Dirty()
    requires Offers(e.workspace, n, key) && Present(e.workspace, key) && Internal(key)
    ensures n in before.crates && Offers(before, n, key) && Present(before, key) && !Within(key.0, e.Gone())
  {
    hide Ids, CrateOfId, Norm, Clean, Proper, CleanNames, AllBuilt, Target, FollowedOf, CrateId, Elems, FileKeys,
      EdgeKeys;
    var x := e.workspace;
    DirtyIsGone(before, e, n);
    CrateKept(before, e, n);
    ProperParts(before, e);
    if Owns(x, n, key) {
      OwnedEnds(x, n, key);
    } else {
      var p :| p in FollowedOf(x, n) && key.0 == p.from && key.2 == p.relation && Target(Ids(x), p) == Some(key.1);
      InternalReference(before, e, n, p, key);
    }
    IdKept(before, e, key.0);
    IdKept(before, e, key.1);
  }

  lemma ProperParts(before: Workspace, e: Extraction)
    requires Proper(before, e)
    ensures AllBuilt(e.workspace)
  {
    hide LayerComplete, AllBuilt, Covers, Elems;
  }

  lemma InternalReference(before: Workspace, e: Extraction, n: string, p: Pending, key: Key)
    requires Proper(before, e) && AllBuilt(before) && CleanNames(before) && CleanNames(e.workspace)
    requires n in e.workspace.crates && n in before.crates && before.crates[n] == e.workspace.crates[n]
    requires Norm(n) !in e.Gone() && p in FollowedOf(e.workspace, n)
    requires key.0 == p.from && key.2 == p.relation && Target(Ids(e.workspace), p) == Some(key.1) && Internal(key)
    ensures Refers(before, n, key) && CrateOfId(key.0) == Some(Norm(n))
  {
    hide Ids, CrateOfId, Norm, Clean, Proper, AllBuilt, CrateId, Elems;
    var x := e.workspace;
    ProperParts(before, e);
    ReferenceEnds(x, n, p);
    assert CrateOfId(p.item) == CrateOfId(p.krate) == Some(Norm(n));
    assert p.krate == CrateId(n);
    assert p in FollowedOf(before, n);
    IdKept(before, e, p.from);
    IdKept(before, e, p.item);
    IdKept(before, e, p.krate);
    assert Target(Ids(before), p) == Some(key.1);
  }

  /** An outdated fallback leads to another namespace. */
  lemma OutdatedIsExternal(runs: seq<Extraction>, key: Key)
    requires ProperRuns(runs) && CleanRuns(runs) && Outdated(runs, key)
    ensures !Internal(key)
  {
    hide Ids, CrateOfId, Norm, Clean, Proper, FollowedOf, CrateId, Elems, CleanNames, AllBuilt;
    var j: nat, n, p :| OutdatedBy(runs, j, n, p, key);
    RunSettings(runs, j);
    ReferenceEnds(runs[j].workspace, n, p);
    if Internal(key) {
      SurvivorUntouched(runs, j, key, Norm(n));
      IdFrozen(runs, j, p.item);
    }
  }

  lemma DependencyRelation(depends: seq<(string, string)>, key: Key)
    requires key in DependsKeys(depends)
    ensures key.2 == "depends_on"
  {
    hide CrateId, Elems;
  }

  // ----- what only a new extraction would settle -----

  /** Every crate of the latest workspace was extracted by some run and has been left alone since. */
  lemma {:induction false} LastExtraction(runs: seq<Extraction>, n: string) returns (j: nat)
    requires ProperRuns(runs) && CleanRuns(runs) && n in Latest(runs).crates
    ensures LastExtracted(runs, j, n) && Untouched(runs, j, Norm(n))
    ensures n in runs[j].workspace.crates && Latest(runs).crates[n] == runs[j].workspace.crates[n]
    decreases |runs|
  {
    hide Norm, Proper, CleanNames, AllBuilt;
    assert runs != [];
    var front, last := runs[..|runs| - 1], runs[|runs| - 1];
    FrontRuns(runs);
    if n in last.Dirty() {
      j := |runs| - 1;
    } else {
      DirtyIsGone(Latest(front), last, n);
      CrateKept(Latest(front), last, n);
      j := LastExtraction(front, n);
      assert forall k :: 0 <= k < |front| ==> front[k] == runs[k];
    }
  }

  /** A crate whose namespace was not dropped after run `j` was not extracted after it either. */
  lemma ExtractedLast(runs: seq<Extraction>, j: nat, i: nat, n: string)
    requires ProperRuns(runs) && CleanRuns(runs) && j < |runs| && n in runs[j].Dirty() && Untouched(runs, j, Norm(n))
    requires LastExtracted(runs, i, n)
    ensures i == j
  {
    hide Norm, ProperRuns, CleanRuns;
    if j < i { DirtyDropped(runs, i, n); }
  }

  lemma {:induction false} DirtyDropped(runs: seq<Extraction>, i: nat, n: string)
    requires ProperRuns(runs) && CleanRuns(runs) && i < |runs| && n in runs[i].Dirty()
    ensures Norm(n) in runs[i].Gone()
    decreases |runs|
  {
    hide Norm, Proper, CleanNames, AllBuilt;
    var front, last := runs[..|runs| - 1], runs[|runs| - 1];
    FrontRuns(runs);
    if i < |front| {
      assert front[i] == runs[i];
      DirtyDropped(front, i, n);
    } else {
      RunSettings(runs, i);
      DirtyIsGone(Latest(front), last, n);
    }
  }

  lemma {:induction false} PrefixRuns(runs: seq<Extraction>, k: nat)
    requires ProperRuns(runs) && CleanRuns(runs) && k <= |runs|
    ensures ProperRuns(runs[..k]) && CleanRuns(runs[..k])
    decreases |runs|
  {
    hide Proper, CleanNames;
    if k < |runs| {
      var front := runs[..|runs| - 1];
      FrontRuns(runs);
      PrefixRuns(front, k);
      assert front[..k] == runs[..k];
    } else {
      assert runs[..k] == runs;
    }
  }

  /** An id of an untouched namespace has been there in every workspace since. */
  lemma IdThroughout(runs: seq<Extraction>, j: nat, k: nat, id: string)
    requires ProperRuns(runs) && CleanRuns(runs) && j <= k < |runs|
    requires CrateOfId(id).Some? && Untouched(runs, j, CrateOfId(id).value) && id in Ids(Latest(runs))
    ensures id in Ids(runs[k].workspace)
  {
    hide Proper, CleanNames, CrateOfId, Ids, ProperRuns, CleanRuns;
    IdFrozen(runs, k, id);
  }

  /** A reference that has not strayed is in the graph. */
  lemma UnstrayedIsHeld(runs: seq<Extraction>, n: string, p: Pending, key: Key)
    requires ProperRuns(runs) && CleanRuns(runs) && n in Latest(runs).crates && Settles(Latest(runs), n, p, key)
    requires !StrayedSince(runs, n, p, key)
    ensures Held(runs, key)
  {
    hide Proper, CleanNames, CrateOfId, Norm, Ids, ProperRuns, CleanRuns, FollowedOf, Target, Owns;
    var j := LastExtraction(runs, n);
    assert !Strayed(runs, j, n, p, key);
    assert Refers(runs[j].workspace, n, key);
    assert Offers(runs[j].workspace, n, key);
    RunSettings(runs, |runs| - 1);
    ReferenceEnds(Latest(runs), n, p);
    forall k | j <= k < |runs|
      ensures Present(runs[k].workspace, key) && (j < k ==> !Within(key.0, runs[k].Gone()))
    {
      IdThroughout(runs, j, k, p.from);
    }
    assert Survives(runs, j, key);
  }

  /** An edge of strayed references, with nothing late to stand in for it, is not in the graph. */
  lemma MissedIsNotHeld(runs: seq<Extraction>, key: Key)
    requires ProperRuns(runs) && CleanRuns(runs) && Missed(runs, key)
    ensures !Held(runs, key)
  {
    hide Ids, CrateOfId, Norm, Proper, Target, FollowedOf, Owns, Outdated, StaleDependency, DependsKeys, Elems, Within,
      StrayedSince;
    if Held(runs, key) {
      var j :| 0 <= j < |runs| && Offered(runs[j].workspace, runs[j].Dirty(), key) && Survives(runs, j, key);
      assert key !in DependsKeys(runs[j].workspace.depends) by { NotStale(runs, j, key); }
      var n :| n in runs[j].Dirty() && Offers(runs[j].workspace, n, key);
      if Owns(runs[j].workspace, n, key) {
        StillOwned(runs, j, n, key);
      } else {
        var x := runs[j].workspace;
        var p :| p in FollowedOf(x, n) && key.0 == p.from && key.2 == p.relation && Target(Ids(x), p) == Some(key.1);
        NotStrayed(runs, j, n, p, key);
        ReferenceCurrentOrOutdated(runs, j, n, p, key);
      }
    }
  }

  lemma NotStale(runs: seq<Extraction>, j: nat, key: Key)
    requires j < |runs| && Survives(runs, j, key) && !StaleDependency(runs, key)
    requires key !in DependsKeys(Latest(runs).depends)
    ensures key !in DependsKeys(runs[j].workspace.depends)
  {
    hide DependsKeys, Survives;
  }

  lemma NotStrayed(runs: seq<Extraction>, j: nat, n: string, p: Pending, key: Key)
    requires ProperRuns(runs) && CleanRuns(runs) && j < |runs| && Survives(runs, j, key)
    requires n in runs[j].Dirty() && Settles(runs[j].workspace, n, p, key)
    ensures !StrayedSince(runs, n, p, key)
  {
    hide Ids, CrateOfId, Norm, Proper, Target, FollowedOf, Elems, ProperRuns, CleanRuns;
    RunSettings(runs, j);
    ReferenceEnds(runs[j].workspace, n, p);
    SurvivorUntouched(runs, j, key, Norm(n));
    forall i: nat | LastExtracted(runs, i, n) ensures !Strayed(runs, i, n, p, key) {
      ExtractedLast(runs, j, i, n);
      assert forall k :: j <= k < |runs| ==> Present(runs[k].workspace, key);
    }
  }

  // ----- the comparison -----

  /**
   After any runs, against a rebuild of the latest workspace: the same node ids and, crate dependencies aside, the same
   edges inside every namespace. An edge that only the incremental graph has is an outdated fallback or a stale
   dependency, and every such edge is there. The edges that only the rebuild has are the missed ones, references of
   crates found clean that lead to another namespace.
   */
  lemma IncrementalAgainstRebuild(runs: seq<Extraction>, e: Extraction, key: Key)
    requires ProperRuns(runs) && CleanRuns(runs) && runs != []
    requires FromScratch(e) && e.workspace == Latest(runs)
    ensures var g, h := Extracted(runs), Extracted([e]);
            && g.nodes.Keys == h.nodes.Keys
            && (Internal(key) && key.2 != "depends_on" ==> (key in g.edges <==> key in h.edges))
            && (key in g.edges && key !in h.edges <==>
                  (Outdated(runs, key) || StaleDependency(runs, key)) && key !in h.edges)
            && (key in h.edges && key !in g.edges <==> Missed(runs, key))
            && (Missed(runs, key) ==> Unsettled(runs, key) && !Internal(key))
  {
    hide Proper, CleanNames, AllBuilt, Held, Offers, Present, Internal, Outdated, StaleDependency, SpliceState,
      DependsKeys, Elems, FromScratch, Missed, Offered, Unsettled;
    FrontRuns(runs);
    CleanRunsReadRight(runs);
    RunsExact(runs);
    RebuildExact(e);
    if Held(runs, key) { HeldIsCurrentOrLate(runs, key); }
    if Outdated(runs, key) {
      LateIsHeld(runs, key);
      OutdatedIsExternal(runs, key);
    }
    if StaleDependency(runs, key) {
      LateIsHeld(runs, key);
      StaleRelation(runs, key);
    }
    MissedIff(runs, key);
  }

  lemma StaleRelation(runs: seq<Extraction>, key: Key)
    requires StaleDependency(runs, key)
    ensures key.2 == "depends_on"
  {
    hide DependsKeys, Survives;
    var j :| 0 <= j < |runs| && key in DependsKeys(runs[j].workspace.depends) && Survives(runs, j, key);
    DependencyRelation(runs[j].workspace.depends, key);
  }

  /** What the latest workspace offers and the runs do not hold is exactly the missed. */
  lemma MissedIff(runs: seq<Extraction>, key: Key)
    requires ProperRuns(runs) && CleanRuns(runs) && runs != []
    ensures var x := Latest(runs);
            && (Offered(x, x.crates.Keys, key) && Present(x, key) && !Held(runs, key) <==> Missed(runs, key))
            && (Missed(runs, key) ==> Unsettled(runs, key) && !Internal(key))
  {
    hide Proper, CleanNames, AllBuilt, Held, Internal, Missed, Elems, Offered, Present, Unsettled;
    var x := Latest(runs);
    if Missed(runs, key) {
      MissedIsNotHeld(runs, key);
      MissedIsOffered(runs, key);
    }
    if Offered(x, x.crates.Keys, key) && Present(x, key) && !Held(runs, key) {
      MissingIsMissed(runs, key);
      MissingIsUnsettled(runs, key);
    }
  }

  lemma MissedIsOffered(runs: seq<Extraction>, key: Key)
    requires ProperRuns(runs) && CleanRuns(runs) && runs != [] && Missed(runs, key)
    ensures Offered(Latest(runs), Latest(runs).crates.Keys, key) && Present(Latest(runs), key)
  {
    hide Ids, CrateOfId, Norm, Proper, FollowedOf, Owns, Outdated, StaleDependency, DependsKeys, Elems, StrayedSince,
      ProperRuns, CleanRuns;
    var x := Latest(runs);
    var n, p :| n in x.crates && Settles(x, n, p, key);
    assert Refers(x, n, key) && Offers(x, n, key);
  }

  /** Whatever the runs do not hold of the latest workspace has strayed. */
  lemma MissingIsMissed(runs: seq<Extraction>, key: Key)
    requires ProperRuns(runs) && CleanRuns(runs) && runs != []
    requires Offered(Latest(runs), Latest(runs).crates.Keys, key) && Present(Latest(runs), key) && !Held(runs, key)
    ensures Missed(runs, key)
  {
    hide Proper, CleanNames, AllBuilt, Held, DependsKeys, Elems, Present, Owns, FollowedOf, Outdated, StaleDependency,
      StrayedSince, Ids, Target;
    var x := Latest(runs);
    NotOffered(runs, key);
    if Outdated(runs, key) || StaleDependency(runs, key) { LateIsHeld(runs, key); }
    forall n | n in x.crates ensures !Owns(x, n, key) {
      if Owns(x, n, key) {
        OwnedIsInternal(x, n, key);
        InternalKept(runs, n, key);
      }
    }
    forall n, p | n in x.crates && Settles(x, n, p, key) ensures StrayedSince(runs, n, p, key) {
      if !StrayedSince(runs, n, p, key) { UnstrayedIsHeld(runs, n, p, key); }
    }
    var n :| n in x.crates && Offers(x, n, key);
    var p :| p in FollowedOf(x, n) && key.0 == p.from && key.2 == p.relation && Target(Ids(x), p) == Some(key.1);
    assert Settles(x, n, p, key);
  }

  /** What the runs do not hold was not offered by the last of them. */
  lemma NotOffered(runs: seq<Extraction>, key: Key)
    requires ProperRuns(runs) && CleanRuns(runs) && runs != [] && Present(Latest(runs), key) && !Held(runs, key)
    ensures var last := runs[|runs| - 1]; !Offered(last.workspace, last.Dirty(), key)
    ensures key !in DependsKeys(Latest(runs).depends)
    ensures AllBuilt(Latest(runs)) && CleanNames(Latest(runs))
  {
    hide Proper, CleanNames, AllBuilt, Held, DependsKeys, Present, Elems;
    FrontRuns(runs);
    HeldStep(runs, key);
  }

  lemma MissingIsUnsettled(runs: seq<Extraction>, key: Key)
    requires ProperRuns(runs) && CleanRuns(runs) && runs != []
    requires Offered(Latest(runs), Latest(runs).crates.Keys, key) && Present(Latest(runs), key) && !Held(runs, key)
    ensures Unsettled(runs, key) && !Internal(key)
  {
    hide Proper, CleanNames, AllBuilt, Held, Internal, DependsKeys, Elems, Present, Owns, Refers;
    NotOffered(runs, key);
    var n :| n in Latest(runs).crates && Offers(Latest(runs), n, key);
    if Internal(key) { InternalKept(runs, n, key); }
    if Owns(Latest(runs), n, key) { OwnedIsInternal(Latest(runs), n, key); }
  }

  lemma OwnedIsInternal(x: Workspace, n: string, key: Key)
    requires AllBuilt(x) && CleanNames(x) && n in x.crates && Owns(x, n, key)
    ensures Internal(key)
  {
    hide AllBuilt, CleanNames, Owns, CrateOfId;
    OwnedEnds(x, n, key);
  }
}
