/**
 The bounded breadth-first expansion of one node's relationships. Against the filtered
 graph it explores: levels are distances, each node is expanded once, totals count
 distinct triples, and what is returned hangs together as paths from the subject.
 */
module Query {
  import opened Bytes
  import opened Measure

  datatype Link = Link(source: string, target: string, relation: string)

  /** The request: directions, an optional relation, and the filter on the neighbour (which must be a known node). */
  datatype Filter = Filter(outgoing: bool, incoming: bool, relation: Option<string>, admits: string -> bool)

  datatype Hit = Hit(direction: string, relation: string, from: string, other: string, level: nat)

  type Triple = (string, string, string)

  type Adjacency = map<string, seq<Link>>

  // ----- the adjacency index -----

  function LinksFrom(links: seq<Link>, id: string): seq<Link> {
    if links == [] then []
    else LinksFrom(links[..|links| - 1], id) + if links[|links| - 1].source == id then [links[|links| - 1]] else []
  }

  function LinksTo(links: seq<Link>, id: string): seq<Link> {
    if links == [] then []
    else LinksTo(links[..|links| - 1], id) + if links[|links| - 1].target == id then [links[|links| - 1]] else []
  }

  function Lookup(adj: Adjacency, id: string): seq<Link> {
    if id in adj then adj[id] else []
  }

  ghost predicate IndexesFrom(adj: Adjacency, links: seq<Link>) {
    forall id :: Lookup(adj, id) == LinksFrom(links, id)
  }

  ghost predicate IndexesTo(adj: Adjacency, links: seq<Link>) {
    forall id :: Lookup(adj, id) == LinksTo(links, id)
  }

  lemma LinksGrow(links: seq<Link>, e: Link, id: string)
    ensures LinksFrom(links + [e], id) == if e.source == id then LinksFrom(links, id) + [e] else LinksFrom(links, id)
    ensures LinksTo(links + [e], id) == if e.target == id then LinksTo(links, id) + [e] else LinksTo(links, id)
  {
    var more := links + [e];
    assert more[..|more| - 1] == links && more[|more| - 1] == e;
  }

  lemma IndexFromGrows(adj: Adjacency, links: seq<Link>, e: Link)
    requires IndexesFrom(adj, links)
    ensures IndexesFrom(adj[e.source := Lookup(adj, e.source) + [e]], links + [e])
  {
    var grown := adj[e.source := Lookup(adj, e.source) + [e]];
    forall id ensures Lookup(grown, id) == LinksFrom(links + [e], id) {
      LinksGrow(links, e, id);
      assert Lookup(adj, id) == LinksFrom(links, id);
    }
  }

  lemma IndexToGrows(adj: Adjacency, links: seq<Link>, e: Link)
    requires IndexesTo(adj, links)
    ensures IndexesTo(adj[e.target := Lookup(adj, e.target) + [e]], links + [e])
  {
    var grown := adj[e.target := Lookup(adj, e.target) + [e]];
    forall id ensures Lookup(grown, id) == LinksTo(links + [e], id) {
      LinksGrow(links, e, id);
      assert Lookup(adj, id) == LinksTo(links, id);
    }
  }

  lemma IndexAdvances(outAdj: Adjacency, inAdj: Adjacency, links: seq<Link>, i: nat)
    requires i < |links| && IndexesFrom(outAdj, links[..i]) && IndexesTo(inAdj, links[..i])
    ensures IndexesFrom(outAdj[links[i].source := Lookup(outAdj, links[i].source) + [links[i]]], links[..i + 1])
    ensures IndexesTo(inAdj[links[i].target := Lookup(inAdj, links[i].target) + [links[i]]], links[..i + 1])
  {
    IndexFromGrows(outAdj, links[..i], links[i]);
    IndexToGrows(inAdj, links[..i], links[i]);
    assert links[..i + 1] == links[..i] + [links[i]];
  }

  /** Each index lists, for every node, that node's links in document order. */
  method BuildAdjacency(links: seq<Link>) returns (outAdj: Adjacency, inAdj: Adjacency)
    ensures IndexesFrom(outAdj, links) && IndexesTo(inAdj, links)
  {
    outAdj, inAdj := map[], map[];
    var i := 0;
    while i < |links|
      invariant 0 <= i <= |links|
      invariant IndexesFrom(outAdj, links[..i])
      invariant IndexesTo(inAdj, links[..i])
    {
      var e := links[i];
      IndexAdvances(outAdj, inAdj, links, i);
      outAdj := outAdj[e.source := Lookup(outAdj, e.source) + [e]];
      inAdj := inAdj[e.target := Lookup(inAdj, e.target) + [e]];
      i := i + 1;
    }
    assert links[..i] == links;
  }

  // ----- one node's filtered relationships -----

  predicate Passes(f: Filter, relation: string, other: string) {
    (f.relation.None? || f.relation.value == relation) && f.admits(other)
  }

  function OutHits(f: Filter, links: seq<Link>, from: string, level: nat): seq<Hit> {
    if links == [] then [] else
      var e := links[|links| - 1];
      OutHits(f, links[..|links| - 1], from, level) +
        if Passes(f, e.relation, e.target) then [Hit("outgoing", e.relation, from, e.target, level)] else []
  }

  function InHits(f: Filter, links: seq<Link>, from: string, level: nat): seq<Hit> {
    if links == [] then [] else
      var e := links[|links| - 1];
      InHits(f, links[..|links| - 1], from, level) +
        if Passes(f, e.relation, e.source) then [Hit("incoming", e.relation, from, e.source, level)] else []
  }

  function Gather(f: Filter, links: seq<Link>, from: string, level: nat): seq<Hit> {
    (if f.outgoing then OutHits(f, LinksFrom(links, from), from, level) else [])
    + (if f.incoming then InHits(f, LinksTo(links, from), from, level) else [])
  }

  /** The loop over both adjacency lists of one node. */
  method GatherHits(f: Filter, outs: seq<Link>, ins: seq<Link>, from: string, level: nat) returns (hits: seq<Hit>)
    ensures hits == (if f.outgoing then OutHits(f, outs, from, level) else [])
              + (if f.incoming then InHits(f, ins, from, level) else [])
  {
    hits := [];
    if f.outgoing {
      for i := 0 to |outs|
        invariant hits == OutHits(f, outs[..i], from, level)
      {
        assert outs[..i + 1][..i] == outs[..i];
        if Passes(f, outs[i].relation, outs[i].target) {
          hits := hits + [Hit("outgoing", outs[i].relation, from, outs[i].target, level)];
        }
      }
      assert outs[..|outs|] == outs;
    }
    if f.incoming {
      ghost var first := hits;
      for i := 0 to |ins|
        invariant hits == first + InHits(f, ins[..i], from, level)
      {
        assert ins[..i + 1][..i] == ins[..i];
        if Passes(f, ins[i].relation, ins[i].source) {
          hits := hits + [Hit("incoming", ins[i].relation, from, ins[i].source, level)];
        }
      }
      assert ins[..|ins|] == ins;
    }
  }

  method GatherNode(f: Filter, ghost links: seq<Link>, outAdj: Adjacency, inAdj: Adjacency, from: string, level: nat)
      returns (hits: seq<Hit>)
    requires IndexesFrom(outAdj, links) && IndexesTo(inAdj, links)
    ensures hits == Gather(f, links, from, level)
  {
    assert Lookup(outAdj, from) == LinksFrom(links, from);
    assert Lookup(inAdj, from) == LinksTo(links, from);
    hits := GatherHits(f, Lookup(outAdj, from), Lookup(inAdj, from), from, level);
  }

  // ----- the filtered graph it explores -----

  /** Hit `h` reports document link `e`, in a requested direction and past the filter. */
  predicate Shows(f: Filter, e: Link, h: Hit) {
    Passes(f, h.relation, h.other)
    && ((h.direction == "outgoing" && f.outgoing && e == Link(h.from, h.other, h.relation))
        || (h.direction == "incoming" && f.incoming && e == Link(h.other, h.from, h.relation)))
  }

  ghost predicate Genuine(f: Filter, links: seq<Link>, h: Hit) {
    exists i :: 0 <= i < |links| && Shows(f, links[i], h)
  }

  /** The (node, neighbour, relation) triples that the document offers at `nodes`. */
  function Triples(f: Filter, links: seq<Link>, nodes: set<string>): set<Triple> {
    (set i | 0 <= i < |links| && f.outgoing && links[i].source in nodes && Passes(f, links[i].relation, links[i].target)
       :: (links[i].source, links[i].target, links[i].relation))
    + (set i | 0 <= i < |links| && f.incoming && links[i].target in nodes
       && Passes(f, links[i].relation, links[i].source)
         :: (links[i].target, links[i].source, links[i].relation))
  }

  function TripleOf(h: Hit): Triple {
    (h.from, h.other, h.relation)
  }

  function TriplesOf(hits: seq<Hit>): set<Triple> {
    if hits == [] then {} else TriplesOf(hits[..|hits| - 1]) + {TripleOf(hits[|hits| - 1])}
  }

  lemma {:induction false} HitsConcat(a: seq<Hit>, b: seq<Hit>)
    ensures Elems(a + b) == Elems(a) + Elems(b)
    ensures TriplesOf(a + b) == TriplesOf(a) + TriplesOf(b)
    decreases |b|
  {
    ElemsConcat(a, b);
    if b == [] {
      assert a + b == a;
    } else {
      HitsConcat(a, b[..|b| - 1]);
      assert (a + b)[..|a + b| - 1] == a + b[..|b| - 1];
    }
  }

  lemma HitsPush(a: seq<Hit>, h: Hit)
    ensures Elems(a + [h]) == Elems(a) + {h}
    ensures TriplesOf(a + [h]) == TriplesOf(a) + {TripleOf(h)}
  {
    assert (a + [h])[..|a|] == a;
  }

  lemma {:induction false} TriplesFromHits(hits: seq<Hit>, t: Triple)
    ensures t in TriplesOf(hits) <==> exists h :: h in Elems(hits) && TripleOf(h) == t
    decreases |hits|
  {
    if hits != [] {
      TriplesFromHits(hits[..|hits| - 1], t);
    }
  }

  ghost predicate Contains(links: seq<Link>, e: Link) {
    exists i :: 0 <= i < |links| && links[i] == e
  }

  lemma ContainsGrows(links: seq<Link>, e: Link, x: Link)
    ensures Contains(links + [e], x) <==> Contains(links, x) || x == e
  {
    var more := links + [e];
    assert more[|links|] == e;
    assert forall i :: 0 <= i < |links| ==> more[i] == links[i];
  }

  lemma OutHitsPush(f: Filter, links: seq<Link>, e: Link, from: string, level: nat)
    ensures OutHits(f, LinksFrom(links + [e], from), from, level)
         == if e.source == from && Passes(f, e.relation, e.target)
            then OutHits(f, LinksFrom(links, from), from, level) + [Hit("outgoing", e.relation, from, e.target, level)]
            else OutHits(f, LinksFrom(links, from), from, level)
  {
    var before := LinksFrom(links, from);
    LinksGrow(links, e, from);
    if e.source == from {
      assert (before + [e])[..|before|] == before;
      assert OutHits(f, before, from, level) + [] == OutHits(f, before, from, level);
    }
  }

  lemma OutHitsGrow(f: Filter, links: seq<Link>, e: Link, from: string, level: nat)
    ensures Elems(OutHits(f, LinksFrom(links + [e], from), from, level)) ==
            Elems(OutHits(f, LinksFrom(links, from), from, level))
            + if e.source == from && Passes(f, e.relation, e.target)
              then {Hit("outgoing", e.relation, from, e.target, level)} else {}
  {
    hide OutHits, LinksFrom, Elems, TriplesOf;
    OutHitsPush(f, links, e, from, level);
    HitsPush(OutHits(f, LinksFrom(links, from), from, level), Hit("outgoing", e.relation, from, e.target, level));
  }

  lemma {:induction false} OutHitsMeaning(f: Filter, links: seq<Link>, from: string, level: nat, h: Hit)
    ensures h in Elems(OutHits(f, LinksFrom(links, from), from, level)) <==>
            h.direction == "outgoing" && h.from == from && h.level == level && Passes(f, h.relation, h.other)
            && Contains(links, Link(from, h.other, h.relation))
    decreases |links|
  {
    if links != [] {
      hide Contains, OutHits, LinksFrom, Elems;
      var front, e := links[..|links| - 1], links[|links| - 1];
      OutHitsMeaning(f, front, from, level, h);
      OutHitsGrow(f, front, e, from, level);
      ContainsGrows(front, e, Link(from, h.other, h.relation));
      assert links == front + [e];
    }
  }

  lemma InHitsPush(f: Filter, links: seq<Link>, e: Link, from: string, level: nat)
    ensures InHits(f, LinksTo(links + [e], from), from, level)
         == if e.target == from && Passes(f, e.relation, e.source)
            then InHits(f, LinksTo(links, from), from, level) + [Hit("incoming", e.relation, from, e.source, level)]
            else InHits(f, LinksTo(links, from), from, level)
  {
    var before := LinksTo(links, from);
    LinksGrow(links, e, from);
    if e.target == from {
      assert (before + [e])[..|before|] == before;
      assert InHits(f, before, from, level) + [] == InHits(f, before, from, level);
    }
  }

  lemma InHitsGrow(f: Filter, links: seq<Link>, e: Link, from: string, level: nat)
    ensures Elems(InHits(f, LinksTo(links + [e], from), from, level)) ==
            Elems(InHits(f, LinksTo(links, from), from, level))
            + if e.target == from && Passes(f, e.relation, e.source)
              then {Hit("incoming", e.relation, from, e.source, level)} else {}
  {
    hide InHits, LinksTo, Elems, TriplesOf;
    InHitsPush(f, links, e, from, level);
    HitsPush(InHits(f, LinksTo(links, from), from, level), Hit("incoming", e.relation, from, e.source, level));
  }

  lemma {:induction false} InHitsMeaning(f: Filter, links: seq<Link>, from: string, level: nat, h: Hit)
    ensures h in Elems(InHits(f, LinksTo(links, from), from, level)) <==>
            h.direction == "incoming" && h.from == from && h.level == level && Passes(f, h.relation, h.other)
            && Contains(links, Link(h.other, from, h.relation))
    decreases |links|
  {
    if links != [] {
      hide Contains, InHits, LinksTo, Elems;
      var front, e := links[..|links| - 1], links[|links| - 1];
      InHitsMeaning(f, front, from, level, h);
      InHitsGrow(f, front, e, from, level);
      ContainsGrows(front, e, Link(h.other, from, h.relation));
      assert links == front + [e];
    }
  }

  /** The hits of a node are exactly the document links that join it to an admitted neighbour. */
  lemma GatherMeaning(f: Filter, links: seq<Link>, from: string, level: nat, h: Hit)
    ensures h in Elems(Gather(f, links, from, level)) <==> h.from == from && h.level == level && Genuine(f, links, h)
  {
    OutHitsMeaning(f, links, from, level, h);
    InHitsMeaning(f, links, from, level, h);
    HitsConcat(if f.outgoing then OutHits(f, LinksFrom(links, from), from, level) else [],
                 if f.incoming then InHits(f, LinksTo(links, from), from, level) else []);
  }

  lemma GatherTriples(f: Filter, links: seq<Link>, from: string, level: nat)
    ensures TriplesOf(Gather(f, links, from, level)) == Triples(f, links, {from})
  {
    var hits := Gather(f, links, from, level);
    forall t | t in TriplesOf(hits) ensures t in Triples(f, links, {from}) {
      TriplesFromHits(hits, t);
      var h :| h in Elems(hits) && TripleOf(h) == t;
      GatherMeaning(f, links, from, level, h);
      var j :| 0 <= j < |links| && Shows(f, links[j], h);
    }
    forall t | t in Triples(f, links, {from}) ensures t in TriplesOf(hits) {
      TripleShown(f, links, from, level, t);
      var h: Hit :| h.from == from && h.level == level && TripleOf(h) == t && Genuine(f, links, h);
      GatherMeaning(f, links, from, level, h);
      TriplesFromHits(hits, t);
    }
  }

  lemma TripleShown(f: Filter, links: seq<Link>, from: string, level: nat, t: Triple)
    requires t in Triples(f, links, {from})
    ensures exists h: Hit :: h.from == from && h.level == level && TripleOf(h) == t && Genuine(f, links, h)
  {
    if i :| 0 <= i < |links| && f.outgoing && links[i] == Link(from, t.1, t.2) && Passes(f, t.2, t.1) {
      var h := Hit("outgoing", t.2, from, t.1, level);
      assert Shows(f, links[i], h);
      assert TripleOf(h) == t && Genuine(f, links, h);
    } else {
      var i :| 0 <= i < |links| && f.incoming && links[i].target == from
        && Passes(f, links[i].relation, links[i].source)
               && t == (from, links[i].source, links[i].relation);
      var h := Hit("incoming", t.2, from, t.1, level);
      assert Shows(f, links[i], h);
      assert TripleOf(h) == t && Genuine(f, links, h);
    }
  }

  lemma TriplesUnion(f: Filter, links: seq<Link>, a: set<string>, b: set<string>)
    ensures Triples(f, links, a + b) == Triples(f, links, a) + Triples(f, links, b)
    ensures a !! b ==> Triples(f, links, a) !! Triples(f, links, b)
  {
  }

  // ----- what counting triples leaves out -----

  lemma Unrepeated(links: seq<Link>, e: Link)
    requires Distinct(links + [e])
    ensures Distinct(links) && !Contains(links, e)
  {
    DistinctPush(links, e);
    ElemsMember(links, e);
  }

  lemma OutTriple(f: Filter, links: seq<Link>, from: string, level: nat, t: Triple)
    ensures t in TriplesOf(OutHits(f, LinksFrom(links, from), from, level)) <==>
            t.0 == from && Passes(f, t.2, t.1) && Contains(links, Link(from, t.1, t.2))
  {
    hide OutHits, LinksFrom, Elems, TriplesOf, Contains;
    var hits := OutHits(f, LinksFrom(links, from), from, level);
    TriplesFromHits(hits, t);
    OutHitsMeaning(f, links, from, level, Hit("outgoing", t.2, from, t.1, level));
    forall h | h in Elems(hits) ensures h == Hit("outgoing", h.relation, from, h.other, level) {
      OutHitsMeaning(f, links, from, level, h);
    }
  }

  lemma InTriple(f: Filter, links: seq<Link>, from: string, level: nat, t: Triple)
    ensures t in TriplesOf(InHits(f, LinksTo(links, from), from, level)) <==>
            t.0 == from && Passes(f, t.2, t.1) && Contains(links, Link(t.1, from, t.2))
  {
    hide InHits, LinksTo, Elems, TriplesOf, Contains;
    var hits := InHits(f, LinksTo(links, from), from, level);
    TriplesFromHits(hits, t);
    InHitsMeaning(f, links, from, level, Hit("incoming", t.2, from, t.1, level));
    forall h | h in Elems(hits) ensures h == Hit("incoming", h.relation, from, h.other, level) {
      InHitsMeaning(f, links, from, level, h);
    }
  }

  /** In one direction distinct links give distinct triples. */
  lemma {:induction false} OutCount(f: Filter, links: seq<Link>, from: string, level: nat)
    requires Distinct(links)
    ensures var hits := OutHits(f, LinksFrom(links, from), from, level); |TriplesOf(hits)| == |hits|
    decreases |links|
  {
    hide Contains, Elems, Distinct, Passes;
    if links != [] {
      hide OutHits, LinksFrom, TriplesOf;
      var front, e := links[..|links| - 1], links[|links| - 1];
      assert links == front + [e];
      Unrepeated(front, e);
      OutCount(f, front, from, level);
      OutTriple(f, front, from, level, (from, e.target, e.relation));
      OutHitsPush(f, front, e, from, level);
      HitsPush(OutHits(f, LinksFrom(front, from), from, level), Hit("outgoing", e.relation, from, e.target, level));
    }
  }

  lemma {:induction false} InCount(f: Filter, links: seq<Link>, from: string, level: nat)
    requires Distinct(links)
    ensures var hits := InHits(f, LinksTo(links, from), from, level); |TriplesOf(hits)| == |hits|
    decreases |links|
  {
    hide Contains, Elems, Distinct, Passes;
    if links != [] {
      hide InHits, LinksTo, TriplesOf;
      var front, e := links[..|links| - 1], links[|links| - 1];
      assert links == front + [e];
      Unrepeated(front, e);
      InCount(f, front, from, level);
      InTriple(f, front, from, level, (from, e.source, e.relation));
      InHitsPush(f, front, e, from, level);
      HitsPush(InHits(f, LinksTo(front, from), from, level), Hit("incoming", e.relation, from, e.source, level));
    }
  }

  /** The admitted neighbours of `from` that it is linked to both ways by one relation. */
  ghost function Mirrored(f: Filter, links: seq<Link>, from: string): set<Triple> {
    set i | 0 <= i < |links| && f.outgoing && f.incoming && links[i].source == from
            && Passes(f, links[i].relation, links[i].target)
            && Contains(links, Link(links[i].target, from, links[i].relation))
      :: (from, links[i].target, links[i].relation)
  }

  lemma InBoth<T>(a: set<T>, b: set<T>, both: set<T>)
    requires forall t :: t in both <==> t in a && t in b
    ensures |a| + |b| == |a + b| + |both|
  {
    assert both == a * b;
    assert a + b == a + (b - a) && b == (b - a) + a * b;
  }

  /** Two hits of one node that a triple cannot tell apart. */
  predicate Merged(a: Hit, b: Hit) {
    a.direction == "outgoing" && b.direction == "incoming" && a.other == b.other && a.relation == b.relation
  }

  lemma MirroredMember(f: Filter, links: seq<Link>, from: string, level: nat, t: Triple)
    ensures t in Mirrored(f, links, from) <==>
              && f.outgoing && t in TriplesOf(OutHits(f, LinksFrom(links, from), from, level))
              && f.incoming && t in TriplesOf(InHits(f, LinksTo(links, from), from, level))
  {
    hide OutHits, InHits, LinksFrom, LinksTo, TriplesOf;
    OutTriple(f, links, from, level, t);
    InTriple(f, links, from, level, t);
  }

  lemma MirroredCount(f: Filter, links: seq<Link>, from: string, level: nat)
    requires Distinct(links)
    ensures |Gather(f, links, from, level)|
         == |TriplesOf(Gather(f, links, from, level))| + |Mirrored(f, links, from)|
  {
    hide OutHits, InHits, LinksFrom, LinksTo, TriplesOf, Mirrored;
    var outs := if f.outgoing then OutHits(f, LinksFrom(links, from), from, level) else [];
    var ins := if f.incoming then InHits(f, LinksTo(links, from), from, level) else [];
    OutCount(f, links, from, level);
    InCount(f, links, from, level);
    NoTriples();
    HitsConcat(outs, ins);
    forall t ensures t in Mirrored(f, links, from) <==> t in TriplesOf(outs) && t in TriplesOf(ins) {
      MirroredMember(f, links, from, level, t);
    }
    InBoth(TriplesOf(outs), TriplesOf(ins), Mirrored(f, links, from));
  }

  lemma NoTriples()
    ensures TriplesOf([]) == {}
  {
  }

  lemma MirroredHits(f: Filter, links: seq<Link>, from: string, level: nat)
    ensures var hits := Elems(Gather(f, links, from, level));
            Mirrored(f, links, from) == {} <==> forall a, b :: a in hits && b in hits ==> !Merged(a, b)
  {
    hide Gather, Elems;
    var hits := Elems(Gather(f, links, from, level));
    forall a, b | a in hits && b in hits && Merged(a, b)
      ensures (from, a.other, a.relation) in Mirrored(f, links, from)
    {
      GatherMeaning(f, links, from, level, a);
      GatherMeaning(f, links, from, level, b);
      var i :| 0 <= i < |links| && Shows(f, links[i], a);
      var j :| 0 <= j < |links| && Shows(f, links[j], b);
    }
    forall t | t in Mirrored(f, links, from)
      ensures exists a, b :: a in hits && b in hits && Merged(a, b)
    {
      var a, b := Hit("outgoing", t.2, from, t.1, level), Hit("incoming", t.2, from, t.1, level);
      GatherMeaning(f, links, from, level, a);
      GatherMeaning(f, links, from, level, b);
      assert Merged(a, b);
    }
  }

  /**
   Keeping one hit a triple loses, at each node, one hit for each neighbour and relation that link it both ways; so it
   loses none if and only if no outgoing and incoming hit share neighbour and relation.
   */
  lemma MirroredAreMerged(f: Filter, links: seq<Link>, from: string, level: nat)
    requires Distinct(links)
    ensures var hits, triples := Gather(f, links, from, level), Triples(f, links, {from});
            && |hits| == |triples| + |Mirrored(f, links, from)|
            && (|hits| == |triples| <==>
                  forall a, b :: a in Elems(hits) && b in Elems(hits) ==> !Merged(a, b))
  {
    hide Gather, Mirrored, Elems, TriplesOf, Triples;
    GatherTriples(f, links, from, level);
    MirroredCount(f, links, from, level);
    MirroredHits(f, links, from, level);
  }
}
