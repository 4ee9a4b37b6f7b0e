/**
 `enclosing_owners` on ownership with cycles: the maps whose owners are always answered in full, whatever was asked
 before, are exactly those that every first walk round a cycle leaves at an item that lists its cycle itself.
 */
module OwnerCycles {
  import opened Bytes
  import opened Measure
  import opened Owners

  /** The two own each other; such items form the cycle classes of the map. */
  ghost predicate Peers(parents: Parents, x: string, y: string) {
    Ancestor(parents, x, y) && Ancestor(parents, y, x)
  }

  /** The first listed owner on the cycles of `id` that the guard lets through. */
  ghost function FirstPeer(parents: Parents, guard: set<string>, id: string, direct: seq<string>)
    : (peer: Option<string>)
    ensures peer.Some? ==> Peers(parents, id, peer.value) && peer.value !in guard && peer.value in Elems(direct)
    decreases |direct|
  {
    if direct == [] then None
    else
      var earlier, last := FirstPeer(parents, guard, id, direct[..|direct| - 1]), direct[|direct| - 1];
      if earlier.Some? then earlier
      else if Peers(parents, id, last) && last !in guard then Some(last)
      else None
  }

  /** Where the walk over first peers ends: the first item of a cycle whose owners are cached. */
  ghost function Innermost(parents: Parents, visiting: set<string>, id: string): (f: string)
    requires id !in visiting
    ensures f !in visiting
    decreases parents.Keys - visiting
  {
    if id !in parents then id
    else
      var peer := FirstPeer(parents, visiting + {id}, id, parents[id]);
      if peer.Some? then Innermost(parents, visiting + {id}, peer.value) else id
  }

  /** `a` is a direct owner of `f`, or is above one that lies off the cycles of `f`. */
  ghost predicate Offers(parents: Parents, f: string, a: string) {
    Step(parents, f, a) || exists d :: Step(parents, f, d) && !Peers(parents, f, d) && Ancestor(parents, d, a)
  }

  ghost predicate Complete(parents: Parents, f: string) {
    forall a :: Ancestor(parents, f, a) ==> Offers(parents, f, a)
  }

  ghost predicate Settled(parents: Parents) {
    forall x :: Complete(parents, Innermost(parents, {}, x))
  }

  // ----- what a query is asked for -----

  /** The cache that a list of earlier queries leaves. */
  function Queried(parents: Parents, ids: seq<string>): Cache {
    if ids == [] then map[] else Close(parents, Queried(parents, ids[..|ids| - 1]), {}, ids[|ids| - 1]).1
  }

  ghost predicate ExactAnswer(parents: Parents, id: string, owners: seq<string>) {
    Sorted(owners) && forall a :: a in Elems(owners) <==> Ancestor(parents, id, a)
  }

  ghost predicate AlwaysExact(parents: Parents) {
    forall ids: seq<string>, y: string :: ExactAnswer(parents, y, Close(parents, Queried(parents, ids), {}, y).0)
  }

  ghost predicate ExactAfterOne(parents: Parents) {
    forall x, y :: ExactAnswer(parents, y, Close(parents, Queried(parents, [x]), {}, y).0)
  }

  // ----- cycle classes -----

  lemma PeersTransitive(parents: Parents, x: string, y: string, z: string)
    requires Peers(parents, x, y) && Peers(parents, y, z)
    ensures Peers(parents, x, z) && Peers(parents, y, x)
  {
    AncestorTransitive(parents, x, y, z);
    AncestorTransitive(parents, z, y, x);
  }

  /** An owner off the cycles of `id` does not lead back to them. */
  lemma OffCycles(parents: Parents, id: string, d: string, z: string)
    requires Step(parents, id, d) && !Peers(parents, id, d) && Peers(parents, id, z)
    ensures d != z && !Ancestor(parents, d, z)
  {
    hide Step, Ancestor;
    StepIsAncestor(parents, id, d);
    if Ancestor(parents, d, z) { AncestorTransitive(parents, d, z, id); }
  }

  lemma OffCyclesOffers(parents: Parents, id: string, d: string, a: string)
    requires Step(parents, id, d) && !Peers(parents, id, d) && Ancestor(parents, d, a)
    ensures Offers(parents, id, a)
  {
  }

  /** `id` shares its cycles, if it is on any, with no other item. */
  ghost predicate Alone(parents: Parents, id: string) {
    forall z :: Peers(parents, id, z) ==> z == id
  }

  /** Such an item is complete. */
  lemma LonelyComplete(parents: Parents, id: string)
    requires Alone(parents, id)
    ensures Complete(parents, id)
  {
    hide Step, Ancestor, Peers, Offers;
    forall a | Ancestor(parents, id, a) ensures Offers(parents, id, a) {
      PathOffers(parents, id, a);
    }
  }

  lemma PathOffers(parents: Parents, id: string, a: string)
    requires Ancestor(parents, id, a) && Alone(parents, id)
    ensures Offers(parents, id, a)
  {
    hide Step;
    var path :| Leads(parents, path, id, a);
    LeadOffers(parents, id, a, path);
  }

  /** The walk may stay at the item for a while; its first step elsewhere is off the cycles. */
  lemma {:induction false} LeadOffers(parents: Parents, id: string, a: string, path: seq<string>)
    requires Leads(parents, path, id, a) && Alone(parents, id)
    ensures Offers(parents, id, a)
    decreases |path|
  {
    hide Step, Ancestor, Peers;
    assert Step(parents, path[0], path[1]);
    if |path| > 2 {
      var rest, d := path[1..], path[1];
      assert Chain(parents, rest) by {
        forall i | 0 <= i < |rest| - 1 ensures Step(parents, rest[i], rest[i + 1]) {
          assert Step(parents, path[i + 1], path[i + 2]);
        }
      }
      assert Leads(parents, rest, d, a);
      if d == id {
        LeadOffers(parents, id, a, rest);
      } else {
        LeadsUp(parents, rest, d, a);
        OffCyclesOffers(parents, id, d, a);
      }
    }
  }

  lemma LeadsUp(parents: Parents, path: seq<string>, x: string, a: string)
    requires Leads(parents, path, x, a)
    ensures Ancestor(parents, x, a)
  {
  }

  // ----- the cache only grows, and only upwards -----

  /** `k` is one of the listed owners, or above one. */
  ghost predicate Reached(parents: Parents, direct: seq<string>, k: string) {
    exists d :: d in Elems(direct) && (k == d || Ancestor(parents, d, k))
  }

  ghost predicate Grows(parents: Parents, cache: Cache, after: Cache, direct: seq<string>) {
    && (forall k :: k in cache ==> k in after && after[k] == cache[k])
    && forall k :: k in after && k !in cache ==> Reached(parents, direct, k)
  }

  lemma {:induction false} CloseGrows(parents: Parents, cache: Cache, visiting: set<string>, id: string)
    ensures Grows(parents, cache, Close(parents, cache, visiting, id).1, [id])
    decreases parents.Keys - visiting, 0
  {
    assert id in Elems([id]) by { assert [id][0] == id; }
    if id !in cache && id !in visiting && id in parents {
      var direct := parents[id];
      CloseParentsGrows(parents, cache, visiting + {id}, direct);
      var after := CloseParents(parents, cache, visiting + {id}, direct).1;
      forall k | k in after && k !in cache ensures Ancestor(parents, id, k) {
        assert Reached(parents, direct, k);
        var d :| d in Elems(direct) && (k == d || Ancestor(parents, d, k));
        StepIsAncestor(parents, id, d);
        if k != d { AncestorTransitive(parents, id, d, k); }
      }
    }
  }

  lemma {:induction false} CloseParentsGrows(parents: Parents, cache: Cache, visiting: set<string>,
                                             direct: seq<string>)
    ensures Grows(parents, cache, CloseParents(parents, cache, visiting, direct).1, direct)
    decreases parents.Keys - visiting, 1, |direct|
  {
    if direct != [] {
      var front, last := direct[..|direct| - 1], direct[|direct| - 1];
      CloseParentsGrows(parents, cache, visiting, front);
      var mid := CloseParents(parents, cache, visiting, front).1;
      CloseGrows(parents, mid, visiting, last);
      GrowsJoin(parents, cache, mid, Close(parents, mid, visiting, last).1, front, last);
      assert direct == front + [last];
    }
  }

  lemma GrowsJoin(parents: Parents, cache: Cache, mid: Cache, after: Cache, front: seq<string>, last: string)
    requires Grows(parents, cache, mid, front) && Grows(parents, mid, after, [last])
    ensures Grows(parents, cache, after, front + [last])
  {
    hide Ancestor, Elems;
    ElemsConcat(front, [last]);
    forall k | k in after && k !in cache ensures Reached(parents, front + [last], k) {
      if k in mid {
        assert Reached(parents, front, k);
      } else {
        assert Reached(parents, [last], k);
      }
    }
  }

  // ----- a first walk round a cycle -----

  /** Nothing on the cycles of `id` is cached. */
  ghost predicate Fresh(parents: Parents, cache: Cache, id: string) {
    forall z :: Peers(parents, id, z) ==> z !in cache
  }

  ghost predicate Direct(parents: Parents, id: string, direct: seq<string>) {
    forall y :: y in Elems(direct) ==> Step(parents, id, y)
  }

  lemma Push(parents: Parents, id: string, front: seq<string>, last: string)
    requires Direct(parents, id, front + [last])
    ensures Direct(parents, id, front) && Step(parents, id, last)
    ensures Elems(front + [last]) == Elems(front) + {last}
  {
    ElemsPush(front, last);
  }

  /** Without a peer that the guard lets through, the listed owners give only what `Offers` names. */
  lemma {:induction false} QuietContribution(parents: Parents, cache: Cache, guard: set<string>, id: string,
                                             direct: seq<string>)
    requires CacheSound(parents, cache) && Fresh(parents, cache, id) && Direct(parents, id, direct)
    requires FirstPeer(parents, guard, id, direct).None?
    ensures var (found, after) := CloseParents(parents, cache, guard, direct);
            && CacheSound(parents, after) && Fresh(parents, after, id)
            && forall a :: a in Elems(found) ==> Offers(parents, id, a)
    decreases |direct|
  {
    hide Step, Ancestor, Peers, CacheSound, Offers;
    if direct != [] {
      var front, last := direct[..|direct| - 1], direct[|direct| - 1];
      assert direct == front + [last];
      Push(parents, id, front, last);
      QuietContribution(parents, cache, guard, id, front);
      var (before, mid) := CloseParents(parents, cache, guard, front);
      QuietOwner(parents, mid, guard, id, last);
      var above := Close(parents, mid, guard, last).0;
      ElemsPush(before, last);
      ElemsConcat(before + [last], above);
    }
  }

  lemma QuietOwner(parents: Parents, cache: Cache, guard: set<string>, id: string, d: string)
    requires CacheSound(parents, cache) && Fresh(parents, cache, id) && Step(parents, id, d)
    requires Peers(parents, id, d) ==> d in guard
    ensures var (above, after) := Close(parents, cache, guard, d);
            && CacheSound(parents, after) && Fresh(parents, after, id)
            && Offers(parents, id, d) && forall a :: a in Elems(above) ==> Offers(parents, id, a)
  {
    if !Peers(parents, id, d) {
      hide Close, Step, Ancestor, Peers, Offers;
      CloseSound(parents, cache, guard, d);
      CloseGrows(parents, cache, guard, d);
      var (above, after) := Close(parents, cache, guard, d);
      assert Elems([d]) == {d} by { assert [d][0] == d && [d][..0] == []; }
      forall z | Peers(parents, id, z) ensures z !in after { OffCycles(parents, id, d, z); }
      forall a | a in Elems(above) ensures Offers(parents, id, a) { OffCyclesOffers(parents, id, d, a); }
    }
    assert Offers(parents, id, d) by { assert Step(parents, id, d); }
  }

  ghost predicate OnlyOffers(parents: Parents, cache: Cache, f: string) {
    f in cache && forall a :: a in Elems(cache[f]) ==> Offers(parents, f, a)
  }

  lemma OwnList(parents: Parents, id: string)
    ensures id in parents ==> Direct(parents, id, parents[id])
    ensures forall a :: Ancestor(parents, id, a) ==> id in parents
  {
    forall a | Ancestor(parents, id, a) ensures id in parents { var _ := AncestorSplits(parents, id, a); }
  }

  /** Entered with nothing of its cycles cached, an item leaves the end of its walk cached with its own offers only. */
  lemma {:induction false} InnermostCached(parents: Parents, cache: Cache, visiting: set<string>, id: string)
    requires id !in visiting && CacheSound(parents, cache) && Fresh(parents, cache, id) && Peers(parents, id, id)
    ensures OnlyOffers(parents, Close(parents, cache, visiting, id).1, Innermost(parents, visiting, id))
    decreases parents.Keys - visiting, 0
  {
    hide Step, Ancestor, CacheSound, Elems, Offers;
    OwnList(parents, id);
    var guard, direct := visiting + {id}, parents[id];
    var found := CloseParents(parents, cache, guard, direct).0;
    SortDedupMeaning(found);
    if FirstPeer(parents, guard, id, direct).None? {
      QuietContribution(parents, cache, guard, id, direct);
    } else {
      OnwardCached(parents, cache, guard, id, direct);
    }
  }

  lemma {:induction false} OnwardCached(parents: Parents, cache: Cache, guard: set<string>, id: string,
                                        direct: seq<string>)
    requires CacheSound(parents, cache) && Fresh(parents, cache, id) && Direct(parents, id, direct)
    requires FirstPeer(parents, guard, id, direct).Some?
    ensures var f := Innermost(parents, guard, FirstPeer(parents, guard, id, direct).value);
            OnlyOffers(parents, CloseParents(parents, cache, guard, direct).1, f)
    decreases parents.Keys - guard, 1, |direct|
  {
    hide Step, Ancestor, Peers, CacheSound, Elems, Offers, Innermost, Close;
    var front, last := direct[..|direct| - 1], direct[|direct| - 1];
    assert direct == front + [last];
    Push(parents, id, front, last);
    var mid := CloseParents(parents, cache, guard, front).1;
    if FirstPeer(parents, guard, id, front).Some? {
      OnwardCached(parents, cache, guard, id, front);
      CloseGrows(parents, mid, guard, last);
    } else {
      QuietContribution(parents, cache, guard, id, front);
      FreshForPeer(parents, mid, id, last);
      InnermostCached(parents, mid, guard, last);
    }
  }

  lemma FreshForPeer(parents: Parents, cache: Cache, id: string, d: string)
    requires Fresh(parents, cache, id) && Peers(parents, id, d)
    ensures Fresh(parents, cache, d) && Peers(parents, d, d)
  {
    hide Ancestor;
    forall z | Peers(parents, d, z) ensures z !in cache { PeersTransitive(parents, id, d, z); }
    AncestorTransitive(parents, d, id, d);
  }

  // ----- settled maps -----

  /** Whatever is cached of a cycle class, the rest of it is cached or being visited. */
  ghost predicate Closed(parents: Parents, cache: Cache, visiting: set<string>) {
    forall z, w :: z in cache && Peers(parents, z, w) ==> w in cache || w in visiting
  }

  /** The guards hold the same items of the cycles of `id`. */
  ghost predicate SameGuard(parents: Parents, guard: set<string>, other: set<string>, id: string) {
    forall v :: Peers(parents, id, v) ==> (v in guard <==> v in other)
  }

  lemma {:induction false} FirstPeerIgnores(parents: Parents, guard: set<string>, other: set<string>, id: string,
                                            direct: seq<string>)
    requires SameGuard(parents, guard, other, id)
    ensures FirstPeer(parents, guard, id, direct) == FirstPeer(parents, other, id, direct)
    decreases |direct|
  {
    hide Peers;
    if direct != [] { FirstPeerIgnores(parents, guard, other, id, direct[..|direct| - 1]); }
  }

  /** Guarding items off the cycles of `id` does not change its walk. */
  lemma {:induction false} InnermostIgnores(parents: Parents, guard: set<string>, other: set<string>, id: string)
    requires id !in guard && id !in other && SameGuard(parents, guard, other, id)
    ensures Innermost(parents, guard, id) == Innermost(parents, other, id)
    decreases parents.Keys - guard
  {
    hide Peers;
    if id in parents {
      var inner, outer := guard + {id}, other + {id};
      FirstPeerIgnores(parents, inner, outer, id, parents[id]);
      var peer := FirstPeer(parents, inner, id, parents[id]);
      if peer.Some? {
        forall v | Peers(parents, peer.value, v) ensures v in inner <==> v in outer {
          PeersTransitive(parents, id, peer.value, v);
        }
        InnermostIgnores(parents, inner, outer, peer.value);
      }
    }
  }

  ghost predicate Ready(parents: Parents, cache: Cache, visiting: set<string>) {
    Settled(parents) && CacheExact(parents, cache) && Closed(parents, cache, visiting)
  }

  /** What the list of direct owners contributes once it is walked. */
  ghost predicate Gathered(parents: Parents, guard: set<string>, direct: seq<string>, found: seq<string>,
                           after: Cache) {
    forall y :: y in Elems(direct) ==>
      && y in Elems(found)
      && (y !in guard ==> y in after && AllAncestors(parents, y, found))
  }

  lemma GatheredPush(parents: Parents, guard: set<string>, front: seq<string>, last: string, before: seq<string>,
                     mid: Cache, above: seq<string>, after: Cache)
    requires Gathered(parents, guard, front, before, mid) && mid.Keys <= after.Keys
    requires last !in guard ==> last in after && AllAncestors(parents, last, above)
    ensures Gathered(parents, guard, front + [last], before + [last] + above, after)
  {
    hide Elems, Ancestor;
    ElemsPush(front, last);
    ElemsPush(before, last);
    ElemsConcat(before + [last], above);
  }

  /** A next owner that the guard lets through can be closed in turn. */
  lemma OwnerReady(parents: Parents, cache: Cache, guard: set<string>, id: string, d: string)
    requires Settled(parents) && Step(parents, id, d) && Below(parents, guard - {id}, id) && d !in guard
    requires Peers(parents, id, d) && d !in cache ==> Complete(parents, Innermost(parents, guard, d))
    ensures Below(parents, guard, d) && (d !in cache ==> Complete(parents, Innermost(parents, guard, d)))
  {
    hide Step, Ancestor, Complete, Innermost;
    StepIsAncestor(parents, id, d);
    forall v | v in guard ensures Ancestor(parents, v, d) {
      if v != id { AncestorTransitive(parents, v, id, d); }
    }
    if !Peers(parents, id, d) {
      forall v | v in guard ensures !Peers(parents, d, v) {
        if Peers(parents, d, v) && v != id { AncestorTransitive(parents, d, v, id); }
      }
      InnermostIgnores(parents, guard, {}, d);
    }
  }

  /** Once the list is walked, every ancestor has been found. */
  lemma FoundAll(parents: Parents, visiting: set<string>, id: string, found: seq<string>, after: Cache)
    requires id in parents && id !in visiting && Below(parents, visiting, id)
    requires Gathered(parents, visiting + {id}, parents[id], found, after)
    requires Complete(parents, Innermost(parents, visiting, id))
    ensures AllAncestors(parents, id, found)
  {
    hide Ancestor, Elems;
    var peer := FirstPeer(parents, visiting + {id}, id, parents[id]);
    forall a | Ancestor(parents, id, a) ensures a in Elems(found) {
      if peer.Some? {
        AncestorTransitive(parents, peer.value, id, a);
      } else if !Step(parents, id, a) {
        var d :| Step(parents, id, d) && !Peers(parents, id, d) && Ancestor(parents, d, a);
        StepIsAncestor(parents, id, d);
        Unguarded(parents, visiting, id, d);
      }
    }
  }

  /** An owner off the cycles of `id` is not being visited. */
  lemma Unguarded(parents: Parents, visiting: set<string>, id: string, d: string)
    requires Below(parents, visiting, id) && Step(parents, id, d) && !Peers(parents, id, d)
    ensures d !in visiting + {id}
  {
    hide Step, Ancestor;
    StepIsAncestor(parents, id, d);
  }

  /** Once the list is walked, every peer is cached or guarded. */
  lemma PeersDone(parents: Parents, visiting: set<string>, id: string, found: seq<string>, after: Cache, w: string)
    requires id in parents && id !in visiting
    requires Closed(parents, after, visiting + {id}) && Gathered(parents, visiting + {id}, parents[id], found, after)
    requires Complete(parents, Innermost(parents, visiting, id)) && Peers(parents, id, w)
    ensures w in after || w in visiting + {id}
  {
    hide Ancestor, Elems, Settled;
    var guard := visiting + {id};
    var peer := FirstPeer(parents, guard, id, parents[id]);
    if peer.Some? {
      AncestorTransitive(parents, peer.value, id, w);
      AncestorTransitive(parents, w, id, peer.value);
      assert Peers(parents, peer.value, w);
    } else if !Step(parents, id, w) {
      var d :| Step(parents, id, d) && !Peers(parents, id, d) && Ancestor(parents, d, w);
      OffCycles(parents, id, d, w);
    } else if w !in guard {
      NoneMissed(parents, guard, id, parents[id], w);
    }
  }

  lemma {:induction false} NoneMissed(parents: Parents, guard: set<string>, id: string, direct: seq<string>, w: string)
    requires FirstPeer(parents, guard, id, direct).None? && w in Elems(direct) && Peers(parents, id, w)
    ensures w in guard
    decreases |direct|
  {
    hide Peers;
    var front, last := direct[..|direct| - 1], direct[|direct| - 1];
    assert direct == front + [last];
    ElemsPush(front, last);
    if w != last { NoneMissed(parents, guard, id, front, w); }
  }

  /** Caching the answer closes the class again with the item itself no longer guarded. */
  lemma CachedCloses(parents: Parents, visiting: set<string>, id: string, after: Cache, owners: seq<string>)
    requires Ready(parents, after, visiting + {id}) && AllAncestors(parents, id, owners)
    requires forall w :: Peers(parents, id, w) ==> w in after || w in visiting + {id}
    ensures Ready(parents, after[id := owners], visiting)
  {
    hide AllAncestors, Peers, Settled;
  }

  /** On a settled map the guard costs nothing: the walk it cuts short ends where every owner is offered. */
  lemma {:induction false} CloseSettled(parents: Parents, cache: Cache, visiting: set<string>, id: string)
    requires Ready(parents, cache, visiting) && Below(parents, visiting, id) && id !in visiting
    requires id !in cache ==> Complete(parents, Innermost(parents, visiting, id))
    ensures var (owners, after) := Close(parents, cache, visiting, id);
            AllAncestors(parents, id, owners) && Ready(parents, after, visiting) && id in after
    decreases parents.Keys - visiting, 0
  {
    hide Step, Ancestor, Elems, Complete, Settled, Innermost, AllAncestors;
    if id !in cache {
      var guard, found, after := visiting + {id}, [], cache;
      OwnList(parents, id);
      if id in parents {
        PeerReady(parents, visiting, id);
        CloseParentsSettled(parents, cache, guard, id, parents[id]);
        var all := CloseParents(parents, cache, guard, parents[id]);
        found, after := all.0, all.1;
        FoundAll(parents, visiting, id, found, after);
        forall w | Peers(parents, id, w) ensures w in after || w in guard {
          PeersDone(parents, visiting, id, found, after, w);
        }
      }
      AnswerComplete(parents, id, found);
      CachedCloses(parents, visiting, id, after, SortDedup(found));
    }
  }

  lemma AnswerComplete(parents: Parents, id: string, found: seq<string>)
    requires id in parents ==> AllAncestors(parents, id, found)
    ensures AllAncestors(parents, id, SortDedup(found))
  {
    hide Ancestor;
    OwnList(parents, id);
    SortDedupMeaning(found);
  }

  lemma PeerReady(parents: Parents, visiting: set<string>, id: string)
    requires id in parents && id !in visiting && Complete(parents, Innermost(parents, visiting, id))
    ensures var peer := FirstPeer(parents, visiting + {id}, id, parents[id]);
            peer.Some? ==> Complete(parents, Innermost(parents, visiting + {id}, peer.value))
  {
  }

  lemma {:induction false} CloseParentsSettled(parents: Parents, cache: Cache, guard: set<string>, id: string,
                                               direct: seq<string>)
    requires Ready(parents, cache, guard) && Direct(parents, id, direct)
    requires id in guard && Below(parents, guard - {id}, id)
    requires var peer := FirstPeer(parents, guard, id, direct);
             peer.Some? && peer.value !in cache ==> Complete(parents, Innermost(parents, guard, peer.value))
    ensures var (found, after) := CloseParents(parents, cache, guard, direct);
            Ready(parents, after, guard) && Gathered(parents, guard, direct, found, after)
    decreases parents.Keys - guard, 1, |direct|
  {
    hide Step, Ancestor, Peers, Elems, Complete, Settled, Gathered, AllAncestors, Innermost, Close;
    if direct == [] {
      NothingGathered(parents, guard, cache);
    } else {
      var front, last := direct[..|direct| - 1], direct[|direct| - 1];
      assert direct == front + [last];
      Push(parents, id, front, last);
      CloseParentsSettled(parents, cache, guard, id, front);
      CloseParentsGrows(parents, cache, guard, front);
      var (before, mid) := CloseParents(parents, cache, guard, front);
      var (above, after) := Close(parents, mid, guard, last);
      if last !in guard {
        if FirstPeer(parents, guard, id, front).Some? && Peers(parents, id, last) {
          PeerInTurn(parents, guard, id, front, last, before, mid);
        }
        OwnerReady(parents, mid, guard, id, last);
        CloseSettled(parents, mid, guard, last);
      } else {
        GuardedKeeps(parents, mid, guard, last);
      }
      CloseGrows(parents, mid, guard, last);
      GatheredPush(parents, guard, front, last, before, mid, above, after);
    }
  }

  lemma NothingGathered(parents: Parents, guard: set<string>, cache: Cache)
    ensures Gathered(parents, guard, [], [], cache)
  {
  }

  lemma GuardedKeeps(parents: Parents, cache: Cache, guard: set<string>, id: string)
    requires id in guard
    ensures Close(parents, cache, guard, id).1 == cache
  {
  }

  /** A peer after the first one let through is cached by the time it is reached. */
  lemma PeerInTurn(parents: Parents, guard: set<string>, id: string, front: seq<string>, last: string,
                   before: seq<string>, mid: Cache)
    requires Closed(parents, mid, guard) && Gathered(parents, guard, front, before, mid)
    requires FirstPeer(parents, guard, id, front).Some? && Peers(parents, id, last) && last !in guard
    ensures last in mid
  {
    hide Ancestor, Elems;
    var d := FirstPeer(parents, guard, id, front).value;
    AncestorTransitive(parents, d, id, last);
    AncestorTransitive(parents, last, id, d);
  }

  // ----- the exact condition -----

  lemma {:induction false} QueriedReady(parents: Parents, ids: seq<string>)
    ensures CacheSound(parents, Queried(parents, ids))
    ensures Settled(parents) ==> Ready(parents, Queried(parents, ids), {})
    decreases |ids|
  {
    hide Close, AllAncestors, OnlyAncestors, Complete, Peers;
    if ids != [] {
      var front, last := ids[..|ids| - 1], ids[|ids| - 1];
      QueriedReady(parents, front);
      CloseSound(parents, Queried(parents, front), {}, last);
      if Settled(parents) { CloseSettled(parents, Queried(parents, front), {}, last); }
    }
  }

  lemma SettledAnswers(parents: Parents, ids: seq<string>, y: string)
    requires Settled(parents)
    ensures ExactAnswer(parents, y, Close(parents, Queried(parents, ids), {}, y).0)
  {
    hide Close, Queried, Ancestor, Elems, Complete, CacheSound, Ready;
    QueriedReady(parents, ids);
    var cache := Queried(parents, ids);
    CloseSound(parents, cache, {}, y);
    CloseSettled(parents, cache, {}, y);
  }

  lemma Peerless(parents: Parents, x: string)
    requires !Ancestor(parents, x, x)
    ensures Alone(parents, x)
  {
    hide Ancestor;
    forall z ensures !Peers(parents, x, z) {
      if Peers(parents, x, z) { AncestorTransitive(parents, x, z, x); }
    }
  }

  /** The end of a first walk is answered from the cache, with its own offers only. */
  lemma InnermostAnswer(parents: Parents, x: string)
    requires ExactAfterOne(parents)
    ensures Complete(parents, Innermost(parents, {}, x))
  {
    hide Step, Ancestor, Close, Offers;
    var f := Innermost(parents, {}, x);
    if Peers(parents, x, x) {
      InnermostCached(parents, map[], {}, x);
      assert Queried(parents, [x]) == Close(parents, map[], {}, x).1 by { AskedOnce(parents, x); }
      assert ExactAnswer(parents, f, Close(parents, Queried(parents, [x]), {}, f).0);
      CachedAnswer(parents, Queried(parents, [x]), f);
    } else {
      Peerless(parents, x);
      AloneInnermost(parents, {}, x);
      LonelyComplete(parents, x);
    }
  }

  lemma AskedOnce(parents: Parents, x: string)
    ensures Queried(parents, [x]) == Close(parents, map[], {}, x).1
  {
    assert [x][..0] == [];
  }

  lemma CachedAnswer(parents: Parents, cache: Cache, f: string)
    requires f in cache
    ensures Close(parents, cache, {}, f).0 == cache[f]
  {
  }

  /** Nothing else shares a cycle with `x`, so its walk ends where it starts. */
  lemma AloneInnermost(parents: Parents, visiting: set<string>, x: string)
    requires Alone(parents, x) && x !in visiting
    ensures Innermost(parents, visiting, x) == x
  {
    hide Peers;
  }

  /**
   The answers are exact after any earlier queries if and only if the map is settled, and one earlier query is enough
   to show that it is not.
   */
  lemma ExactIffSettled(parents: Parents)
    ensures AlwaysExact(parents) <==> Settled(parents)
    ensures ExactAfterOne(parents) <==> Settled(parents)
  {
    hide ExactAnswer, Close, Queried, Complete;
    if Settled(parents) {
      forall ids: seq<string>, y ensures ExactAnswer(parents, y, Close(parents, Queried(parents, ids), {}, y).0) {
        SettledAnswers(parents, ids, y);
      }
    }
    if ExactAfterOne(parents) {
      forall x ensures Complete(parents, Innermost(parents, {}, x)) { InnermostAnswer(parents, x); }
    }
  }

  // ----- what the condition is on common maps -----

  /** The only cycles are items that own themselves. */
  ghost predicate Layered(parents: Parents) {
    forall x :: Alone(parents, x)
  }

  lemma LayeredIsSettled(parents: Parents)
    requires Layered(parents)
    ensures Settled(parents)
  {
    hide Peers, Complete;
    forall x ensures Complete(parents, Innermost(parents, {}, x)) {
      AloneInnermost(parents, {}, x);
      LonelyComplete(parents, x);
    }
  }

  lemma {:induction false} InnermostPeer(parents: Parents, visiting: set<string>, id: string)
    requires id !in visiting && Peers(parents, id, id)
    ensures Peers(parents, id, Innermost(parents, visiting, id))
    ensures Peers(parents, Innermost(parents, visiting, id), Innermost(parents, visiting, id))
    decreases parents.Keys - visiting
  {
    hide Ancestor;
    if id in parents {
      var peer := FirstPeer(parents, visiting + {id}, id, parents[id]);
      if peer.Some? {
        AncestorTransitive(parents, peer.value, id, peer.value);
        InnermostPeer(parents, visiting + {id}, peer.value);
        PeersTransitive(parents, id, peer.value, Innermost(parents, visiting, id));
      }
    }
  }

  /** Where no item owns itself directly, the answers are always exact if and only if nothing owns itself at all. */
  lemma ExactIffAcyclic(parents: Parents)
    requires forall x :: !Step(parents, x, x)
    ensures AlwaysExact(parents) <==> Acyclic(parents)
    ensures ExactAfterOne(parents) <==> Acyclic(parents)
  {
    hide AlwaysExact, ExactAfterOne, Step, Ancestor, Innermost;
    ExactIffSettled(parents);
    if Acyclic(parents) {
      forall x ensures Alone(parents, x) { Peerless(parents, x); }
      LayeredIsSettled(parents);
    }
    if Settled(parents) {
      forall x ensures !Ancestor(parents, x, x) {
        if Ancestor(parents, x, x) {
          var f := Innermost(parents, {}, x);
          InnermostPeer(parents, {}, x);
          assert Complete(parents, f) && Offers(parents, f, f);
          var d :| Step(parents, f, d) && !Peers(parents, f, d) && Ancestor(parents, d, f);
          StepIsAncestor(parents, f, d);
        }
      }
    }
  }

  /** On a layered map the guard costs no ancestor, whatever exact answers were cached. */
  lemma CloseExact(parents: Parents, cache: Cache, visiting: set<string>, id: string)
    requires Layered(parents) && CacheExact(parents, cache) && Below(parents, visiting, id) && id !in visiting
    ensures var (owners, after) := Close(parents, cache, visiting, id);
            AllAncestors(parents, id, owners) && CacheExact(parents, after)
  {
    hide Close, AllAncestors, Ancestor, Peers, Complete;
    LayeredIsSettled(parents);
    AloneInnermost(parents, visiting, id);
    LonelyComplete(parents, id);
    forall z, w | z in cache && Peers(parents, z, w) ensures w in cache { assert Alone(parents, z); }
    CloseSettled(parents, cache, visiting, id);
  }

  /** With a sound and exact cache of a layered map, the answer is the sorted list of exactly the ancestors. */
  lemma OwnersExact(parents: Parents, cache: Cache, id: string)
    requires Layered(parents) && CacheSound(parents, cache) && CacheExact(parents, cache)
    ensures var (owners, after) := Close(parents, cache, {}, id);
            ExactAnswer(parents, id, owners) && CacheSound(parents, after) && CacheExact(parents, after)
  {
    hide Close, Ancestor, Layered, Elems;
    CloseSound(parents, cache, {}, id);
    CloseExact(parents, cache, {}, id);
  }

  /** An item that owns itself is a cycle, and is answered exactly. */
  lemma SelfOwnerIsExact()
    ensures var parents := map["a" := ["a"]]; !Acyclic(parents) && AlwaysExact(parents)
  {
    var parents := map["a" := ["a"]];
    assert Elems(["a"]) == {"a"} by { assert ["a"][0] == "a" && ["a"][..0] == []; }
    StepIsAncestor(parents, "a", "a");
    forall x, z | Peers(parents, x, z) ensures z == x {
      var _ := AncestorSplits(parents, x, z);
      var _ := AncestorSplits(parents, z, x);
    }
    LayeredIsSettled(parents);
    ExactIffSettled(parents);
  }

  /**
   Mutual owners matter: on a two-element cycle the second answer was cached before the first was known, and misses `b`
   itself.
   */
  lemma CycleCachesPartialAnswer()
    ensures var parents := map["a" := ["b"], "b" := ["a"]];
            var (first, cache) := Close(parents, map[], {}, "a");
            var (second, _) := Close(parents, cache, {}, "b");
            "b" !in Elems(second) && Ancestor(parents, "b", "b")
  {
    var parents := map["a" := ["b"], "b" := ["a"]];
    assert Elems(["a"]) == {"a"} && Elems(["b"]) == {"b"} by { assert ["a"][0] == "a" && ["b"][0] == "b"; }
    StepIsAncestor(parents, "a", "b");
    StepIsAncestor(parents, "b", "a");
    AncestorTransitive(parents, "b", "a", "b");
    assert Close(parents, map[], {"a", "b"}, "a") == ([], map[]);
    assert ["a"][..0] == [] && ["b"][..0] == [];
    assert {"a"} + {"b"} == {"a", "b"} && {} + {"a"} == {"a"};
    assert CloseParents(parents, map[], {"a", "b"}, ["a"]) == ([] + ["a"] + [], map[]);
    assert [] + ["a"] + [] == ["a"] && SortDedup(["a"]) == ["a"];
    assert Close(parents, map[], {"a"}, "b") == (["a"], map["b" := ["a"]]);
    assert CloseParents(parents, map[], {"a"}, ["b"]).1 == map["b" := ["a"]];
  }
}
