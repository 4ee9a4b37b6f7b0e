/** Distance in the filtered graph: what `k` steps of a declarative walk can reach. */
module Levels {
  import opened Query

  /** A document link leads from `a` to `b` in a requested direction and passes the filter. */
  predicate Joins(f: Filter, e: Link, a: string, b: string) {
    Passes(f, e.relation, b)
      && ((f.outgoing && e.source == a && e.target == b) || (f.incoming && e.target == a && e.source == b))
  }

  ghost predicate Joined(f: Filter, links: seq<Link>, a: string, b: string) {
    exists i :: 0 <= i < |links| && Joins(f, links[i], a, b)
  }

  ghost predicate Walk(f: Filter, links: seq<Link>, walk: seq<string>, a: string, b: string) {
    walk != [] && walk[0] == a && walk[|walk| - 1] == b
    && forall i :: 0 <= i < |walk| - 1 ==> Joined(f, links, walk[i], walk[i + 1])
  }

  function Neighbours(f: Filter, links: seq<Link>, nodes: set<string>): set<string> {
    set t | t in Triples(f, links, nodes) :: t.1
  }

  /** The nodes at distance at most `k` from `s`. */
  function Within(f: Filter, links: seq<Link>, s: string, k: nat): set<string> {
    if k == 0 then {s} else Within(f, links, s, k - 1) + Neighbours(f, links, Within(f, links, s, k - 1))
  }

  /** The nodes at distance less than `k`. */
  function Nearer(f: Filter, links: seq<Link>, s: string, k: nat): set<string> {
    if k == 0 then {} else Within(f, links, s, k - 1)
  }

  lemma NeighboursMeaning(f: Filter, links: seq<Link>, nodes: set<string>, b: string)
    ensures b in Neighbours(f, links, nodes) <==> exists a :: a in nodes && Joined(f, links, a, b)
  {
    if b in Neighbours(f, links, nodes) {
      var t :| t in Triples(f, links, nodes) && t.1 == b;
      var i :| 0 <= i < |links| && Joins(f, links[i], t.0, b);
      assert t.0 in nodes && Joined(f, links, t.0, b);
    }
    if a :| a in nodes && Joined(f, links, a, b) {
      var i :| 0 <= i < |links| && Joins(f, links[i], a, b);
      assert (a, b, links[i].relation) in Triples(f, links, nodes);
    }
  }

  lemma {:induction false} WalkArrives(f: Filter, links: seq<Link>, s: string, k: nat, walk: seq<string>, m: string)
    requires Walk(f, links, walk, s, m) && |walk| <= k + 1
    ensures m in Within(f, links, s, k)
    decreases k
  {
    if |walk| == 1 {
      if k > 0 { WalkArrives(f, links, s, k - 1, walk, m); }
    } else {
      var front := walk[..|walk| - 1];
      var a := front[|front| - 1];
      assert Joined(f, links, walk[|walk| - 2], walk[|walk| - 1]);
      WalkArrives(f, links, s, k - 1, front, a);
      NeighboursMeaning(f, links, Within(f, links, s, k - 1), m);
    }
  }

  lemma WalkExtends(f: Filter, links: seq<Link>, walk: seq<string>, s: string, a: string, m: string)
    requires Walk(f, links, walk, s, a) && Joined(f, links, a, m)
    ensures Walk(f, links, walk + [m], s, m)
  {
  }

  lemma {:induction false} WithinHasWalk(f: Filter, links: seq<Link>, s: string, k: nat, m: string)
    requires m in Within(f, links, s, k)
    ensures exists walk :: Walk(f, links, walk, s, m) && |walk| <= k + 1
    decreases k
  {
    hide Joined, Neighbours, Triples, Walk;
    if k == 0 {
      WalkToSelf(f, links, s);
      assert |[s]| <= 1 && m == s;
    } else if m in Within(f, links, s, k - 1) {
      WithinHasWalk(f, links, s, k - 1, m);
    } else {
      NeighboursMeaning(f, links, Within(f, links, s, k - 1), m);
      var a :| a in Within(f, links, s, k - 1) && Joined(f, links, a, m);
      WithinHasWalk(f, links, s, k - 1, a);
      var walk :| Walk(f, links, walk, s, a) && |walk| <= k;
      WalkExtends(f, links, walk, s, a, m);
      assert |walk + [m]| <= k + 1;
    }
  }

  lemma WalkToSelf(f: Filter, links: seq<Link>, s: string)
    ensures Walk(f, links, [s], s, s)
  {
  }

  /** `Within` is distance: membership is the existence of a walk that short. */
  lemma WithinIsDistance(f: Filter, links: seq<Link>, s: string, k: nat, m: string)
    ensures m in Within(f, links, s, k) <==> exists walk :: Walk(f, links, walk, s, m) && |walk| <= k + 1
  {
    if m in Within(f, links, s, k) { WithinHasWalk(f, links, s, k, m); }
    if walk :| Walk(f, links, walk, s, m) && |walk| <= k + 1 { WalkArrives(f, links, s, k, walk, m); }
  }

  lemma {:induction false} WithinGrows(f: Filter, links: seq<Link>, s: string, j: nat, k: nat)
    requires j <= k
    ensures Within(f, links, s, j) <= Within(f, links, s, k)
    decreases k
  {
    if j < k { WithinGrows(f, links, s, j, k - 1); }
  }

  /** Once a level adds nothing, no later level does. */
  lemma {:induction false} WithinStable(f: Filter, links: seq<Link>, s: string, k: nat, j: nat)
    requires 0 < k <= j + 1 && Within(f, links, s, k) == Within(f, links, s, k - 1)
    ensures Within(f, links, s, j) == Within(f, links, s, k)
    decreases j
  {
    if j >= k { WithinStable(f, links, s, k, j - 1); }
  }

  lemma NeighboursUnion(f: Filter, links: seq<Link>, a: set<string>, b: set<string>)
    ensures Neighbours(f, links, a + b) == Neighbours(f, links, a) + Neighbours(f, links, b)
  {
    TriplesUnion(f, links, a, b);
  }
}
