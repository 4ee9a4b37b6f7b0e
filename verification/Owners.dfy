/**
 Owner-level rollups: the memoized, cycle-guarded closure of an ownership map, and the
 member_calls / member_uses edges derived from it.
 */
module Owners {
  import opened Measure
  import opened TextOrder

  type Parents = map<string, seq<string>>

  // ----- sorted duplicate-free lists -----

  predicate Sorted(s: seq<string>) {
    forall i, j :: 0 <= i < j < |s| ==> Before(s[i], s[j])
  }

  function Insert(x: string, s: seq<string>): seq<string> {
    if s == [] || Before(x, s[0]) then [x] + s
    else if x == s[0] then s
    else [s[0]] + Insert(x, s[1..])
  }

  /** `sort` followed by `dedup`. */
  function SortDedup(s: seq<string>): seq<string> {
    if s == [] then [] else Insert(s[|s| - 1], SortDedup(s[..|s| - 1]))
  }

  /** In front of what it precedes, an element keeps a list sorted. */
  lemma PrependSorted(x: string, s: seq<string>)
    requires Sorted(s) && (s != [] ==> Before(x, s[0]))
    ensures Sorted([x] + s) && Elems([x] + s) == Elems(s) + {x}
  {
    hide Before;
    var r := [x] + s;
    forall j | 0 < j < |r| ensures Before(x, r[j]) {
      if j > 1 { BeforeTransitive(x, s[0], s[j - 1]); }
    }
    assert forall i, j :: 0 < i < j < |r| ==> r[i] == s[i - 1] && r[j] == s[j - 1];
    ElemsConcat([x], s);
    ElemsPush([], x);
    assert [] + [x] == [x];
  }

  lemma {:induction false} InsertSorted(x: string, s: seq<string>)
    requires Sorted(s)
    ensures Sorted(Insert(x, s)) && Elems(Insert(x, s)) == Elems(s) + {x}
    decreases |s|
  {
    hide Before, Elems;
    if s == [] || Before(x, s[0]) {
      PrependSorted(x, s);
    } else if x == s[0] {
      ElemAt(s, 0);
    } else {
      var tail := s[1..];
      InsertSorted(x, tail);
      BeforeTotal(x, s[0]);
      var rest := Insert(x, tail);
      ElemAt(rest, 0);
      if rest[0] != x {
        ElemsMember(tail, rest[0]);
        var k :| 0 <= k < |tail| && tail[k] == rest[0];
        assert s[k + 1] == rest[0];
      }
      PrependSorted(s[0], rest);
      if tail != [] { assert s[1] == tail[0]; }
      PrependSorted(s[0], tail);
      assert s == [s[0]] + tail;
    }
  }

  lemma {:induction false} SortDedupMeaning(s: seq<string>)
    ensures Sorted(SortDedup(s)) && Elems(SortDedup(s)) == Elems(s)
    decreases |s|
  {
    if s != [] {
      var front, last := s[..|s| - 1], s[|s| - 1];
      SortDedupMeaning(front);
      InsertSorted(last, SortDedup(front));
      ElemsConcat(front, [last]);
      assert s == front + [last];
    }
  }

  // ----- ancestors -----

  predicate Step(parents: Parents, x: string, y: string) {
    x in parents && y in Elems(parents[x])
  }

  predicate Chain(parents: Parents, path: seq<string>) {
    forall i :: 0 <= i < |path| - 1 ==> Step(parents, path[i], path[i + 1])
  }

  predicate Leads(parents: Parents, path: seq<string>, x: string, a: string) {
    |path| >= 2 && path[0] == x && path[|path| - 1] == a && Chain(parents, path)
  }

  /** `a` owns `x` through one or more steps. */
  ghost predicate Ancestor(parents: Parents, x: string, a: string) {
    exists path :: Leads(parents, path, x, a)
  }

  ghost predicate Acyclic(parents: Parents) {
    forall x :: !Ancestor(parents, x, x)
  }

  lemma StepIsAncestor(parents: Parents, x: string, y: string)
    requires Step(parents, x, y)
    ensures Ancestor(parents, x, y)
  {
    assert Leads(parents, [x, y], x, y);
  }

  lemma AncestorTransitive(parents: Parents, x: string, y: string, z: string)
    requires Ancestor(parents, x, y) && Ancestor(parents, y, z)
    ensures Ancestor(parents, x, z)
  {
    var p :| Leads(parents, p, x, y);
    var q :| Leads(parents, q, y, z);
    var r := p + q[1..];
    forall i | 0 <= i < |r| - 1 ensures Step(parents, r[i], r[i + 1]) {
      if i < |p| - 1 {
        assert r[i] == p[i] && r[i + 1] == p[i + 1];
      } else {
        var k := i - (|p| - 1);
        assert r[i] == q[k] && r[i + 1] == q[k + 1];
        assert Step(parents, q[k], q[k + 1]);
      }
    }
    assert Leads(parents, r, x, z);
  }

  /** An ancestor is a parent, or an ancestor of a parent. */
  lemma AncestorSplits(parents: Parents, x: string, a: string) returns (y: string)
    requires Ancestor(parents, x, a)
    ensures Step(parents, x, y) && (a == y || Ancestor(parents, y, a))
  {
    var p :| Leads(parents, p, x, a);
    y := p[1];
    assert Step(parents, p[0], p[1]);
    if |p| > 2 {
      var q := p[1..];
      forall i | 0 <= i < |q| - 1 ensures Step(parents, q[i], q[i + 1]) { assert Step(parents, p[i + 1], p[i + 2]); }
      assert Leads(parents, q, y, a);
    }
  }

  ghost predicate OnlyAncestors(parents: Parents, x: string, owners: seq<string>) {
    Sorted(owners) && forall a :: a in Elems(owners) ==> Ancestor(parents, x, a)
  }

  ghost predicate AllAncestors(parents: Parents, x: string, owners: seq<string>) {
    forall a :: Ancestor(parents, x, a) ==> a in Elems(owners)
  }

  type Cache = map<string, seq<string>>

  /** `enclosing_owners`: the answer and the cache it leaves. */
  function Close(parents: Parents, cache: Cache, visiting: set<string>, id: string): (seq<string>, Cache)
    decreases parents.Keys - visiting, 0
  {
    if id in cache then (cache[id], cache)
    else if id in visiting then ([], cache)
    else
      var (found, after) :=
        if id in parents then CloseParents(parents, cache, visiting + {id}, parents[id]) else ([], cache);
      (SortDedup(found), after[id := SortDedup(found)])
  }

  function CloseParents(parents: Parents, cache: Cache, visiting: set<string>, direct: seq<string>)
    : (seq<string>, Cache)
    decreases parents.Keys - visiting, 1, |direct|
  {
    if direct == [] then ([], cache)
    else
      var last := direct[|direct| - 1];
      var (before, mid) := CloseParents(parents, cache, visiting, direct[..|direct| - 1]);
      var (above, after) := Close(parents, mid, visiting, last);
      (before + [last] + above, after)
  }

  ghost predicate CacheSound(parents: Parents, cache: Cache) {
    forall x :: x in cache ==> OnlyAncestors(parents, x, cache[x])
  }

  ghost predicate CacheExact(parents: Parents, cache: Cache) {
    forall x :: x in cache ==> AllAncestors(parents, x, cache[x])
  }

  /** On any map, with any sound cache, the answer is a sorted list of true ancestors and the cache stays sound. */
  lemma {:induction false} CloseSound(parents: Parents, cache: Cache, visiting: set<string>, id: string)
    requires CacheSound(parents, cache)
    ensures var (owners, after) := Close(parents, cache, visiting, id);
            OnlyAncestors(parents, id, owners) && CacheSound(parents, after)
    decreases parents.Keys - visiting, 0
  {
    if id !in cache && id !in visiting {
      var found: seq<string> := [];
      if id in parents {
        assert forall y :: y in Elems(parents[id]) ==> Step(parents, id, y);
        CloseParentsSound(parents, cache, visiting + {id}, id, parents[id]);
        found := CloseParents(parents, cache, visiting + {id}, parents[id]).0;
      }
      SortDedupMeaning(found);
    }
  }

  lemma {:induction false} CloseParentsSound(parents: Parents, cache: Cache, visiting: set<string>, id: string,
                                             direct: seq<string>)
    requires CacheSound(parents, cache) && forall y :: y in Elems(direct) ==> Step(parents, id, y)
    ensures var (found, after) := CloseParents(parents, cache, visiting, direct);
            CacheSound(parents, after) && forall a :: a in Elems(found) ==> Ancestor(parents, id, a)
    decreases parents.Keys - visiting, 1, |direct|
  {
    if direct != [] {
      var front, last := direct[..|direct| - 1], direct[|direct| - 1];
      assert last in Elems(direct) && forall y :: y in Elems(front) ==> y in Elems(direct);
      CloseParentsSound(parents, cache, visiting, id, front);
      var (before, mid) := CloseParents(parents, cache, visiting, front);
      CloseSound(parents, mid, visiting, last);
      var above := Close(parents, mid, visiting, last).0;
      StepIsAncestor(parents, id, last);
      forall a | a in Elems(above) ensures Ancestor(parents, id, a) { AncestorTransitive(parents, id, last, a); }
      ElemsConcat(before, [last]);
      ElemsConcat(before + [last], above);
    }
  }

  ghost predicate Below(parents: Parents, visiting: set<string>, id: string) {
    forall v :: v in visiting ==> Ancestor(parents, v, id)
  }

  class OwnerClosure {
    const parents: Parents
    var cache: Cache
    var visiting: set<string>

    constructor (parents: Parents)
      ensures this.parents == parents && cache == map[] && visiting == {}
    {
      this.parents, cache, visiting := parents, map[], {};
    }

    method EnclosingOwners(id: string) returns (owners: seq<string>)
      modifies this`cache, this`visiting
      ensures visiting == old(visiting)
      ensures (owners, cache) == Close(parents, old(cache), visiting, id)
      decreases parents.Keys - visiting, 0
    {
      if id in cache {
        return cache[id];
      }
      if id in visiting {
        return [];
      }
      visiting := visiting + {id};
      var found: seq<string> := [];
      if id in parents {
        found := DirectOwners(id);
      }
      visiting := visiting - {id};
      owners := SortDedup(found);
      cache := cache[id := owners];
    }

    /** The loop over direct parents, each followed by its own owners. */
    method DirectOwners(id: string) returns (found: seq<string>)
      requires id in parents && id in visiting
      modifies this`cache, this`visiting
      ensures visiting == old(visiting)
      ensures (found, cache) == CloseParents(parents, old(cache), visiting, parents[id])
      decreases parents.Keys - visiting, 1
    {
      var direct := parents[id];
      found := [];
      for i := 0 to |direct|
        invariant visiting == old(visiting)
        invariant (found, cache) == CloseParents(parents, old(cache), visiting, direct[..i])
      {
        assert direct[..i + 1][..i] == direct[..i];
        var above := EnclosingOwners(direct[i]);
        found := found + [direct[i]] + above;
      }
      assert direct[..|direct|] == direct;
    }
  }
}
