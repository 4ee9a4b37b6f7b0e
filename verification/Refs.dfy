/**
 The bounded, level-by-level expansion of one node's relationships, proved against the
 distance sets of the filtered graph.
 */
module Refs {
  import opened Bytes
  import opened Measure
  import opened TextOrder
  import opened Query
  import opened Levels
  import Stable

  // ----- ordering one level's hits -----

  /** The sort key: direction, then relation, then the neighbour's label. */
  predicate Earlier(names: string -> string, a: Hit, b: Hit) {
    Before(a.direction, b.direction)
    || (a.direction == b.direction
        && (Before(a.relation, b.relation)
            || (a.relation == b.relation && Before(names(a.other), names(b.other)))))
  }

  function ByKey(names: string -> string): (Hit, Hit) -> bool {
    (a, b) => Earlier(names, a, b)
  }

  predicate Ordered(names: string -> string, hits: seq<Hit>) {
    Stable.Ordered(ByKey(names), hits)
  }

  lemma EarlierThenNotLater(names: string -> string, a: Hit, b: Hit, c: Hit)
    requires Earlier(names, a, b) && !Earlier(names, c, b)
    ensures Earlier(names, a, c)
  {
    BeforeChain(a.direction, b.direction, c.direction);
    BeforeChain(a.relation, b.relation, c.relation);
    BeforeChain(names(a.other), names(b.other), names(c.other));
  }

  lemma BeforeChain(x: string, y: string, z: string)
    ensures Before(x, y) && (y == z || !Before(z, y)) ==> Before(x, z)
    ensures !Before(z, y) ==> y == z || Before(y, z)
    ensures !Before(x, x)
  {
    BeforeTotal(y, z);
    if Before(x, y) && Before(y, z) { BeforeTransitive(x, y, z); }
    LessIrreflexive(Codes(x));
  }

  lemma EarlierAsymmetric(names: string -> string, a: Hit, b: Hit)
    requires Earlier(names, a, b)
    ensures !Earlier(names, b, a)
  {
    if Earlier(names, b, a) {
      BeforeTwice(a.direction, b.direction);
      BeforeTwice(a.relation, b.relation);
      BeforeTwice(names(a.other), names(b.other));
    }
  }

  lemma BeforeTwice(x: string, y: string)
    ensures !(Before(x, y) && Before(y, x)) && !Before(x, x)
  {
    if Before(x, y) && Before(y, x) { BeforeTransitive(x, y, x); }
    LessIrreflexive(Codes(x));
  }

  lemma KeyOrders(names: string -> string)
    ensures Stable.StrictWeak(ByKey(names))
  {
    forall a, b | ByKey(names)(a, b) ensures !ByKey(names)(b, a) { EarlierAsymmetric(names, a, b); }
    forall a, b, c | ByKey(names)(a, b) && !ByKey(names)(c, b) ensures ByKey(names)(a, c) {
      EarlierThenNotLater(names, a, b, c);
    }
  }

  lemma SamePileSameSets(a: seq<Hit>, b: seq<Hit>)
    requires multiset(a) == multiset(b)
    ensures |a| == |b| && Elems(a) == Elems(b) && TriplesOf(a) == TriplesOf(b)
  {
    assert |a| == |multiset(a)| == |b|;
    forall h ensures h in Elems(a) <==> h in Elems(b) {
      ElemsMember(a, h);
      ElemsMember(b, h);
      assert h in multiset(a) <==> h in multiset(b);
    }
    forall t ensures t in TriplesOf(a) <==> t in TriplesOf(b) {
      TriplesFromHits(a, t);
      TriplesFromHits(b, t);
    }
  }

  // ----- distinct triples -----

  /** No two hits report the same (node, neighbour, relation). */
  predicate OncePerTriple(hits: seq<Hit>) {
    |hits| == |TriplesOf(hits)|
  }

  lemma {:induction false} TriplesAtMost(hits: seq<Hit>)
    ensures |TriplesOf(hits)| <= |hits|
    decreases |hits|
  {
    if hits != [] {
      var front, last := hits[..|hits| - 1], hits[|hits| - 1];
      TriplesAtMost(front);
    }
  }

  lemma DistinctPrefix(hits: seq<Hit>, n: nat)
    requires OncePerTriple(hits) && n <= |hits|
    ensures OncePerTriple(hits[..n]) && TriplesOf(hits[..n]) <= TriplesOf(hits) && Elems(hits[..n]) <= Elems(hits)
  {
    assert hits == hits[..n] + hits[n..];
    HitsConcat(hits[..n], hits[n..]);
    TriplesAtMost(hits[..n]);
    TriplesAtMost(hits[n..]);
  }

  lemma DistinctConcat(a: seq<Hit>, b: seq<Hit>)
    requires OncePerTriple(a) && OncePerTriple(b) && TriplesOf(a) !! TriplesOf(b)
    ensures OncePerTriple(a + b) && TriplesOf(a + b) == TriplesOf(a) + TriplesOf(b)
  {
    HitsConcat(a, b);
  }

  /** `found` is what `done` adds to `seen`, each triple once. */
  ghost predicate News(done: seq<Hit>, seen: set<Triple>, found: seq<Hit>) {
    && TriplesOf(found) == TriplesOf(done) - seen && OncePerTriple(found) && Elems(found) <= Elems(done)
    && FirstsOf(done, found)
  }

  /** Each found hit is the first of its triple. */
  ghost predicate FirstsOf(done: seq<Hit>, found: seq<Hit>) {
    forall h :: h in Elems(found) ==> FirstOf(done, h)
  }

  ghost predicate FirstOf(done: seq<Hit>, h: Hit) {
    exists i :: 0 <= i < |done| && done[i] == h && TripleOf(h) !in TriplesOf(done[..i])
  }

  lemma FirstStays(done: seq<Hit>, h: Hit, more: Hit)
    ensures FirstOf(done, h) ==> FirstOf(done + [more], h)
    ensures TripleOf(more) !in TriplesOf(done) ==> FirstOf(done + [more], more)
  {
    hide TriplesOf;
    var grown := done + [more];
    if FirstOf(done, h) {
      var i :| 0 <= i < |done| && done[i] == h && TripleOf(h) !in TriplesOf(done[..i]);
      assert grown[i] == h && grown[..i] == done[..i];
    }
    if TripleOf(more) !in TriplesOf(done) { assert grown[|done|] == more && grown[..|done|] == done; }
  }

  lemma FirstsGrow(done: seq<Hit>, h: Hit, found: seq<Hit>)
    requires FirstsOf(done, found)
    ensures FirstsOf(done + [h], found)
    ensures TripleOf(h) !in TriplesOf(done) ==> FirstsOf(done + [h], found + [h])
  {
    hide FirstOf, Elems, TriplesOf;
    HitsPush(found, h);
    forall k { FirstStays(done, k, h); }
  }

  lemma NewsGrows(done: seq<Hit>, h: Hit, seen: set<Triple>, found: seq<Hit>)
    requires News(done, seen, found)
    ensures TriplesOf(done + [h]) == TriplesOf(done) + {TripleOf(h)}
    ensures News(done + [h], seen, if TripleOf(h) in seen + TriplesOf(done) then found else found + [h])
  {
    hide Elems, TriplesOf, FirstsOf;
    HitsPush(done, h);
    HitsPush(found, h);
    FirstsGrow(done, h, found);
  }

  lemma NewsStart(seen: set<Triple>)
    ensures TriplesOf([]) == {} && News([], seen, [])
  {
  }

  /** Keep the hits whose triple has not been seen, marking each. */
  method KeepUnseen(hits: seq<Hit>, seen: set<Triple>) returns (found: seq<Hit>, marked: set<Triple>)
    ensures marked == seen + TriplesOf(hits)
    ensures TriplesOf(found) == TriplesOf(hits) - seen && OncePerTriple(found) && Elems(found) <= Elems(hits)
    ensures FirstsOf(hits, found)
  {
    hide TriplesOf, Elems, OncePerTriple, FirstsOf;
    NewsStart(seen);
    found, marked := [], seen;
    ghost var done: seq<Hit> := [];
    var i := 0;
    while i < |hits|
      invariant 0 <= i <= |hits| && done == hits[..i]
      invariant marked == seen + TriplesOf(done)
      invariant News(done, seen, found)
    {
      NewsGrows(done, hits[i], seen, found);
      if TripleOf(hits[i]) !in marked {
        found, marked := found + [hits[i]], marked + {TripleOf(hits[i])};
      }
      done, i := done + [hits[i]], i + 1;
    }
    assert done == hits;
  }

  function Others(hits: seq<Hit>): set<string> {
    if hits == [] then {} else Others(hits[..|hits| - 1]) + {hits[|hits| - 1].other}
  }

  lemma OthersPush(s: seq<Hit>, h: Hit)
    ensures Others(s + [h]) == Others(s) + {h.other}
  {
    assert (s + [h])[..|s|] == s;
  }

  ghost predicate AllFrom(f: Filter, links: seq<Link>, hits: seq<Hit>, nodes: set<string>, level: nat) {
    forall h :: h in Elems(hits) ==> h.level == level && h.from in nodes && Genuine(f, links, h)
  }

  /** The link the other way, seen from the same node. */
  function Reverse(h: Hit): Hit {
    h.(direction := "outgoing")
  }

  /** Of two hits with one triple the outgoing one stands for both. */
  ghost predicate Stands(f: Filter, links: seq<Link>, h: Hit) {
    Genuine(f, links, h) && (h.direction == "incoming" ==> !Genuine(f, links, Reverse(h)))
  }

  ghost predicate AllStand(f: Filter, links: seq<Link>, hits: seq<Hit>) {
    forall h :: h in Elems(hits) ==> Stands(f, links, h)
  }

  lemma OutgoingFirst(f: Filter, links: seq<Link>, from: string, level: nat, i: nat)
    requires i < |Gather(f, links, from, level)|
    ensures var hits := Gather(f, links, from, level);
            hits[i].direction == "incoming" && Genuine(f, links, Reverse(hits[i])) ==>
              TripleOf(hits[i]) in TriplesOf(hits[..i])
  {
    hide OutHits, InHits, LinksFrom, LinksTo, TriplesOf, Genuine;
    var hits := Gather(f, links, from, level);
    var outs := if f.outgoing then OutHits(f, LinksFrom(links, from), from, level) else [];
    var h := hits[i];
    ElemAt(hits, i);
    GatherMeaning(f, links, from, level, h);
    if h.direction == "incoming" && Genuine(f, links, Reverse(h)) {
      GatherMeaning(f, links, from, level, Reverse(h));
      GatheredOut(f, links, from, level, Reverse(h));
      if i < |outs| {
        ElemAt(outs, i);
        OutHitsMeaning(f, links, from, level, h);
      }
      assert hits[..i] == outs + hits[|outs|..i];
      HitsConcat(outs, hits[|outs|..i]);
      TriplesFromHits(outs, TripleOf(h));
      assert TripleOf(Reverse(h)) == TripleOf(h);
    }
  }

  lemma GatheredOut(f: Filter, links: seq<Link>, from: string, level: nat, h: Hit)
    requires h.direction == "outgoing" && h in Elems(Gather(f, links, from, level))
    ensures f.outgoing && h in Elems(OutHits(f, LinksFrom(links, from), from, level))
  {
    hide OutHits, InHits, LinksFrom, LinksTo, TriplesOf, Elems;
    HitsConcat(if f.outgoing then OutHits(f, LinksFrom(links, from), from, level) else [],
                 if f.incoming then InHits(f, LinksTo(links, from), from, level) else []);
    InHitsMeaning(f, links, from, level, h);
    NoHits();
  }

  lemma NoHits()
    ensures Elems<Hit>([]) == {}
  {
  }

  lemma FirstsStand(f: Filter, links: seq<Link>, n: string, level: nat, more: seq<Hit>)
    requires Elems(more) <= Elems(Gather(f, links, n, level)) && FirstsOf(Gather(f, links, n, level), more)
    ensures AllStand(f, links, more)
  {
    hide Gather, Elems, TriplesOf, Genuine;
    var hits := Gather(f, links, n, level);
    forall h | h in Elems(more) ensures Stands(f, links, h) {
      GatherMeaning(f, links, n, level, h);
      assert FirstOf(hits, h);
      var i :| 0 <= i < |hits| && hits[i] == h && TripleOf(h) !in TriplesOf(hits[..i]);
      OutgoingFirst(f, links, n, level, i);
    }
  }

  ghost predicate Expanded(f: Filter, links: seq<Link>, done: seq<string>, seen: set<Triple>, level: nat,
                           found: seq<Hit>, marked: set<Triple>)
  {
    && marked == seen + Triples(f, links, Elems(done))
    && TriplesOf(found) == marked - seen
    && OncePerTriple(found)
    && AllFrom(f, links, found, Elems(done), level)
    && AllStand(f, links, found)
  }

  lemma TriplesAdded(f: Filter, links: seq<Link>, done: seq<string>, n: string, level: nat, seen: set<Triple>,
                     marked: set<Triple>)
    requires marked == seen + Triples(f, links, Elems(done))
    ensures marked + TriplesOf(Gather(f, links, n, level)) == seen + Triples(f, links, Elems(done + [n]))
  {
    ElemsPush(done, n);
    TriplesUnion(f, links, Elems(done), {n});
    GatherTriples(f, links, n, level);
  }

  lemma AllFromAdded(f: Filter, links: seq<Link>, done: seq<string>, n: string, level: nat, found: seq<Hit>,
                     more: seq<Hit>)
    requires AllFrom(f, links, found, Elems(done), level)
    requires Elems(more) <= Elems(Gather(f, links, n, level))
    ensures AllFrom(f, links, found + more, Elems(done + [n]), level)
  {
    ElemsPush(done, n);
    HitsConcat(found, more);
    forall h | h in Elems(found + more) ensures h.level == level && h.from in Elems(done + [n])
      && Genuine(f, links, h) {
      GatherMeaning(f, links, n, level, h);
    }
  }

  lemma FoundAdded(found: seq<Hit>, more: seq<Hit>, seen: set<Triple>, marked: set<Triple>, added: set<Triple>)
    requires seen <= marked
    requires TriplesOf(found) == marked - seen && OncePerTriple(found)
    requires TriplesOf(more) == added - marked && OncePerTriple(more)
    ensures TriplesOf(found + more) == marked + added - seen && OncePerTriple(found + more)
  {
    DistinctConcat(found, more);
  }

  lemma ExpandedGrows(f: Filter, links: seq<Link>, done: seq<string>, seen: set<Triple>, level: nat, found: seq<Hit>,
                      marked: set<Triple>, n: string, hits: seq<Hit>, more: seq<Hit>)
    requires Expanded(f, links, done, seen, level, found, marked)
    requires hits == Gather(f, links, n, level)
    requires TriplesOf(more) == TriplesOf(hits) - marked && OncePerTriple(more) && Elems(more) <= Elems(hits)
    requires FirstsOf(hits, more)
    ensures Expanded(f, links, done + [n], seen, level, found + more, marked + TriplesOf(hits))
  {
    hide Gather, Triples, AllFrom, Stands, FirstsOf, OncePerTriple, Elems, TriplesOf;
    FirstsStand(f, links, n, level, more);
    ElemsConcat(found, more);
    TriplesAdded(f, links, done, n, level, seen, marked);
    AllFromAdded(f, links, done, n, level, found, more);
    FoundAdded(found, more, seen, marked, TriplesOf(hits));
  }

  lemma ExpandedStart(f: Filter, links: seq<Link>, seen: set<Triple>, level: nat)
    ensures Expanded(f, links, [], seen, level, [], seen)
  {
  }

  /** Gather every frontier node's relationships, dropping triples already reported. */
  method ExpandLevel(f: Filter, ghost links: seq<Link>, outAdj: Adjacency, inAdj: Adjacency, frontier: seq<string>,
                     seen: set<Triple>, level: nat)
      returns (found: seq<Hit>, marked: set<Triple>)
    requires IndexesFrom(outAdj, links) && IndexesTo(inAdj, links)
    ensures Expanded(f, links, frontier, seen, level, found, marked)
  {
    hide Triples, TriplesOf, Gather, AllFrom, AllStand, FirstsOf, IndexesFrom, IndexesTo, OncePerTriple;
    ExpandedStart(f, links, seen, level);
    found, marked := [], seen;
    ghost var done: seq<string> := [];
    var i := 0;
    while i < |frontier|
      invariant 0 <= i <= |frontier| && done == frontier[..i]
      invariant Expanded(f, links, done, seen, level, found, marked)
    {
      var n := frontier[i];
      var hits := GatherNode(f, links, outAdj, inAdj, n, level);
      var more, now := KeepUnseen(hits, marked);
      ExpandedGrows(f, links, done, seen, level, found, marked, n, hits, more);
      found, marked := found + more, now;
      done, i := done + [n], i + 1;
    }
    assert done == frontier;
  }

  method SortHits(names: string -> string, found: seq<Hit>) returns (sorted: seq<Hit>)
    ensures Ordered(names, sorted) && multiset(sorted) == multiset(found)
  {
    KeyOrders(names);
    sorted := Stable.Sort(ByKey(names), found);
  }

  ghost predicate Met(kept: seq<Hit>, visited: set<string>, next: seq<string>, met: set<string>) {
    met == visited + Others(kept) && Elems(next) == Others(kept) - visited && |next| == |Elems(next)|
  }

  lemma MetGrows(done: seq<Hit>, h: Hit, visited: set<string>, next: seq<string>, met: set<string>)
    requires Met(done, visited, next, met)
    ensures if h.other in met then Met(done + [h], visited, next, met)
            else Met(done + [h], visited, next + [h.other], met + {h.other})
  {
    OthersPush(done, h);
    ElemsPush(next, h.other);
  }

  /** Walk the kept hits: neighbours met for the first time form the next frontier. */
  method NextFrontier(kept: seq<Hit>, visited: set<string>) returns (next: seq<string>, met: set<string>)
    ensures Met(kept, visited, next, met)
  {
    next, met := [], visited;
    ghost var done: seq<Hit> := [];
    var i := 0;
    while i < |kept|
      invariant 0 <= i <= |kept| && done == kept[..i]
      invariant Met(done, visited, next, met)
    {
      MetGrows(done, kept[i], visited, next, met);
      if kept[i].other !in met {
        next, met := next + [kept[i].other], met + {kept[i].other};
      }
      done, i := done + [kept[i]], i + 1;
    }
    assert done == kept;
  }

  // ----- the whole expansion -----

  /** The loop's state after `level` levels; `expanded` and `rounds` record which nodes were gathered and when. */
  datatype Progress = Progress(
    level: nat, visited: set<string>, expanded: set<string>, rounds: seq<seq<string>>,
    frontier: seq<string>, seen: set<Triple>, edges: seq<Hit>, total: nat)

  /** The visited nodes are the expanded ones and the frontier, all within the distance reached. */
  ghost predicate Tracks(f: Filter, links: seq<Link>, s: string, p: Progress) {
    && p.seen == Triples(f, links, p.expanded)
    && p.total == |p.seen|
    && p.visited == p.expanded + Elems(p.frontier)
    && p.expanded !! Elems(p.frontier)
    && |p.frontier| == |Elems(p.frontier)|
    && s in p.visited
    && p.visited <= Within(f, links, s, p.level)
    && p.expanded <= Nearer(f, links, s, p.level)
  }

  /** What is returned so far repeats no triple and reports only triples that were counted. */
  ghost predicate Reports(p: Progress) {
    OncePerTriple(p.edges) && TriplesOf(p.edges) <= p.seen && |p.edges| <= p.total
  }

  /** While nothing was cut off, the levels are exact distances. */
  ghost predicate Exact(f: Filter, links: seq<Link>, s: string, p: Progress) {
    |p.edges| == p.total ==>
      p.visited == Within(f, links, s, p.level) && p.expanded == Nearer(f, links, s, p.level)
  }

  function Advance(p: Progress, found: seq<Hit>, marked: set<Triple>, kept: seq<Hit>, next: seq<string>,
                   met: set<string>): Progress
  {
    Progress(p.level + 1, met, p.expanded + Elems(p.frontier), p.rounds + [p.frontier], next, marked, p.edges + kept,
             p.total + |found|)
  }

  lemma {:induction false} OthersAreTripleEnds(hits: seq<Hit>, o: string)
    ensures o in Others(hits) <==> exists t :: t in TriplesOf(hits) && t.1 == o
    decreases |hits|
  {
    if hits != [] {
      OthersAreTripleEnds(hits[..|hits| - 1], o);
      assert TripleOf(hits[|hits| - 1]) in TriplesOf(hits);
    }
  }

  lemma KeptNeighbours(f: Filter, links: seq<Link>, nodes: set<string>, kept: seq<Hit>)
    ensures TriplesOf(kept) <= Triples(f, links, nodes) ==> Others(kept) <= Neighbours(f, links, nodes)
    ensures TriplesOf(kept) == Triples(f, links, nodes) ==> Others(kept) == Neighbours(f, links, nodes)
  {
    forall o ensures o in Others(kept) <==> exists t :: t in TriplesOf(kept) && t.1 == o {
      OthersAreTripleEnds(kept, o);
    }
  }

  /** What one level finds are exactly the frontier's triples, none of them counted before. */
  lemma FoundAtFrontier(f: Filter, links: seq<Link>, s: string, p: Progress, found: seq<Hit>, marked: set<Triple>)
    requires Tracks(f, links, s, p) && Expanded(f, links, p.frontier, p.seen, p.level + 1, found, marked)
    ensures TriplesOf(found) == Triples(f, links, Elems(p.frontier))
    ensures marked == Triples(f, links, p.expanded + Elems(p.frontier)) && |marked| == p.total + |found|
  {
    TriplesUnion(f, links, p.expanded, Elems(p.frontier));
    assert marked == p.seen + TriplesOf(found) && p.seen !! TriplesOf(found);
  }

  lemma KeptFacts(found: seq<Hit>, sorted: seq<Hit>, n: nat)
    requires multiset(sorted) == multiset(found) && n <= |sorted| && OncePerTriple(found)
    ensures OncePerTriple(sorted[..n]) && TriplesOf(sorted[..n]) <= TriplesOf(found)
    ensures Elems(sorted[..n]) <= Elems(found)
    ensures |sorted| == |found|
    ensures n == |found| ==> TriplesOf(sorted[..n]) == TriplesOf(found)
  {
    SamePileSameSets(sorted, found);
    DistinctPrefix(sorted, n);
    if n == |found| { assert sorted[..n] == sorted; }
  }

  /** What the invariants need to know of one level: `fr` was expanded, `kept` returned, `near` met. */
  ghost predicate Gained(f: Filter, links: seq<Link>, p: Progress, count: nat, marked: set<Triple>, kept: seq<Hit>) {
    var fr := Elems(p.frontier);
    && marked == Triples(f, links, p.expanded + fr)
    && |marked| == p.total + count
    && |kept| <= count
    && Others(kept) <= Neighbours(f, links, fr)
    && (|kept| == count ==> Others(kept) == Neighbours(f, links, fr))
  }

  lemma LevelGains(f: Filter, links: seq<Link>, s: string, p: Progress, found: seq<Hit>, marked: set<Triple>,
                   sorted: seq<Hit>, n: nat)
    requires Tracks(f, links, s, p) && Expanded(f, links, p.frontier, p.seen, p.level + 1, found, marked)
    requires multiset(sorted) == multiset(found) && n <= |sorted|
    ensures Gained(f, links, p, |found|, marked, sorted[..n])
  {
    FoundAtFrontier(f, links, s, p, found, marked);
    KeptFacts(found, sorted, n);
    KeptNeighbours(f, links, Elems(p.frontier), sorted[..n]);
  }

  lemma StepStaysWithin(f: Filter, links: seq<Link>, s: string, level: nat, fr: set<string>, others: set<string>)
    requires fr <= Within(f, links, s, level) && others <= Neighbours(f, links, fr)
    ensures others <= Within(f, links, s, level + 1) && Within(f, links, s, level) <= Within(f, links, s, level + 1)
  {
    var here := Within(f, links, s, level);
    NeighboursUnion(f, links, here, fr);
    assert here + fr == here;
  }

  lemma AdvanceTracks(f: Filter, links: seq<Link>, s: string, p: Progress, found: seq<Hit>, marked: set<Triple>,
                      kept: seq<Hit>, next: seq<string>, met: set<string>)
    requires Tracks(f, links, s, p) && Gained(f, links, p, |found|, marked, kept) && Met(kept, p.visited, next, met)
    ensures Tracks(f, links, s, Advance(p, found, marked, kept, next, met))
  {
    hide Triples, Neighbours, Others, Within, Elems;
    StepStaysWithin(f, links, s, p.level, Elems(p.frontier), Others(kept));
  }

  lemma AdvanceReports(f: Filter, links: seq<Link>, s: string, p: Progress, found: seq<Hit>, marked: set<Triple>,
                       sorted: seq<Hit>, n: nat, next: seq<string>, met: set<string>)
    requires Tracks(f, links, s, p) && Reports(p) && Expanded(f, links, p.frontier, p.seen, p.level + 1, found, marked)
    requires multiset(sorted) == multiset(found) && n <= |sorted|
    ensures Reports(Advance(p, found, marked, sorted[..n], next, met))
  {
    KeptFacts(found, sorted, n);
    assert TriplesOf(p.edges) !! TriplesOf(sorted[..n]);
    DistinctConcat(p.edges, sorted[..n]);
  }

  lemma StepIsExact(f: Filter, links: seq<Link>, s: string, level: nat, expanded: set<string>, fr: set<string>)
    requires expanded == Nearer(f, links, s, level) && expanded + fr == Within(f, links, s, level)
    ensures expanded + fr + Neighbours(f, links, fr) == Within(f, links, s, level + 1)
  {
    NeighboursUnion(f, links, expanded, fr);
    if level == 0 {
      assert expanded + fr == fr;
    }
  }

  lemma AdvanceExact(f: Filter, links: seq<Link>, s: string, p: Progress, found: seq<Hit>, marked: set<Triple>,
                     kept: seq<Hit>, next: seq<string>, met: set<string>)
    requires Tracks(f, links, s, p) && |p.edges| <= p.total && Exact(f, links, s, p)
    requires Gained(f, links, p, |found|, marked, kept) && Met(kept, p.visited, next, met)
    ensures Exact(f, links, s, Advance(p, found, marked, kept, next, met))
  {
    hide Triples, TriplesOf, Neighbours, Others, Elems;
    if |p.edges + kept| == p.total + |found| {
      StepIsExact(f, links, s, p.level, p.expanded, Elems(p.frontier));
    }
  }

  // ----- which node was expanded when -----

  ghost predicate EachOnce(rounds: seq<seq<string>>) {
    (forall i :: 0 <= i < |rounds| ==> |rounds[i]| == |Elems(rounds[i])|)
    && (forall i, j :: 0 <= i < j < |rounds| ==> Elems(rounds[i]) !! Elems(rounds[j]))
  }

  ghost predicate Recorded(p: Progress) {
    && |p.rounds| == p.level
    && EachOnce(p.rounds)
    && (forall i :: 0 <= i < |p.rounds| ==> Elems(p.rounds[i]) <= p.expanded)
    && InRounds(p.edges, p.rounds)
  }

  ghost predicate AllGenuine(f: Filter, links: seq<Link>, edges: seq<Hit>) {
    forall h :: h in Elems(edges) ==> Genuine(f, links, h)
  }

  /** Round `i` is the nodes at distance exactly `i`. */
  ghost predicate ExactRounds(f: Filter, links: seq<Link>, s: string, rounds: seq<seq<string>>) {
    forall i {:trigger rounds[i]} :: 0 <= i < |rounds| ==>
      Elems(rounds[i]) == Within(f, links, s, i) - Nearer(f, links, s, i)
  }

  lemma RoundAdded(rounds: seq<seq<string>>, expanded: set<string>, frontier: seq<string>)
    requires EachOnce(rounds) && forall i :: 0 <= i < |rounds| ==> Elems(rounds[i]) <= expanded
    requires expanded !! Elems(frontier) && |frontier| == |Elems(frontier)|
    ensures EachOnce(rounds + [frontier])
    ensures forall i :: 0 <= i < |rounds + [frontier]| ==> Elems((rounds + [frontier])[i]) <= expanded + Elems(frontier)
  {
  }

  ghost predicate InRounds(edges: seq<Hit>, rounds: seq<seq<string>>) {
    forall h :: h in Elems(edges) ==> 1 <= h.level <= |rounds| && h.from in Elems(rounds[h.level - 1])
  }

  lemma EdgesInRounds(edges: seq<Hit>, kept: seq<Hit>, rounds: seq<seq<string>>, frontier: seq<string>)
    requires InRounds(edges, rounds)
    requires forall h :: h in Elems(kept) ==> h.level == |rounds| + 1 && h.from in Elems(frontier)
    ensures InRounds(edges + kept, rounds + [frontier])
  {
    HitsConcat(edges, kept);
    var grown := rounds + [frontier];
    forall h | h in Elems(edges + kept) ensures 1 <= h.level <= |grown| && h.from in Elems(grown[h.level - 1]) {
      if h in Elems(edges) {
        assert grown[h.level - 1] == rounds[h.level - 1];
      } else {
        assert grown[h.level - 1] == frontier;
      }
    }
  }

  // ----- every returned hit hangs from the subject -----

  /**
   A first-level hit starts at the subject; a deeper one starts where an earlier returned hit, one level up, ended.
   */
  predicate AnchoredAt(edges: seq<Hit>, s: string, i: nat)
    requires i < |edges|
  {
    if edges[i].level == 1 then edges[i].from == s
    else exists j :: 0 <= j < i && edges[j].level + 1 == edges[i].level && edges[j].other == edges[i].from
  }

  predicate Anchored(edges: seq<Hit>, s: string) {
    forall i :: 0 <= i < |edges| ==> AnchoredAt(edges, s, i)
  }

  /** Every node about to be expanded ended a hit of the level just finished (or is the subject). */
  predicate Offered(edges: seq<Hit>, s: string, level: nat, n: string) {
    if level == 0 then n == s else exists j :: 0 <= j < |edges| && edges[j].level == level && edges[j].other == n
  }

  ghost predicate Rooted(p: Progress, s: string) {
    Anchored(p.edges, s) && forall n :: n in Elems(p.frontier) ==> Offered(p.edges, s, p.level, n)
  }

  lemma {:induction false} OthersHaveHit(hits: seq<Hit>, o: string) returns (j: nat)
    requires o in Others(hits)
    ensures j < |hits| && hits[j].other == o
    decreases |hits|
  {
    if hits[|hits| - 1].other == o { j := |hits| - 1; } else { j := OthersHaveHit(hits[..|hits| - 1], o); }
  }

  lemma AdvanceAnchored(edges: seq<Hit>, kept: seq<Hit>, s: string, level: nat)
    requires Anchored(edges, s)
    requires forall i :: 0 <= i < |kept| ==> kept[i].level == level + 1 && Offered(edges, s, level, kept[i].from)
    ensures Anchored(edges + kept, s)
  {
    var all := edges + kept;
    forall i | 0 <= i < |all| ensures AnchoredAt(all, s, i) {
      if i < |edges| {
        assert AnchoredAt(edges, s, i);
        if edges[i].level != 1 {
          var j :| 0 <= j < i && edges[j].level + 1 == edges[i].level && edges[j].other == edges[i].from;
          assert all[j] == edges[j];
        }
      } else {
        assert all[i] == kept[i - |edges|];
        if level > 0 {
          var j :| 0 <= j < |edges| && edges[j].level == level && edges[j].other == all[i].from;
          assert all[j] == edges[j];
        }
      }
    }
  }

  lemma AdvanceRooted(p: Progress, s: string, found: seq<Hit>, marked: set<Triple>, kept: seq<Hit>, next: seq<string>,
                      met: set<string>)
    requires Rooted(p, s)
    requires forall i :: 0 <= i < |kept| ==> kept[i].level == p.level + 1 && kept[i].from in Elems(p.frontier)
    requires Elems(next) <= Others(kept)
    ensures Rooted(Advance(p, found, marked, kept, next, met), s)
  {
    hide Anchored, Offered, Elems, Others;
    AdvanceAnchored(p.edges, kept, s, p.level);
    forall n | n in Elems(next) ensures Offered(p.edges + kept, s, p.level + 1, n) {
      KeptOffers(p.edges, kept, s, p.level, n);
    }
  }

  lemma KeptOffers(edges: seq<Hit>, kept: seq<Hit>, s: string, level: nat, n: string)
    requires n in Others(kept) && forall i :: 0 <= i < |kept| ==> kept[i].level == level + 1
    ensures Offered(edges + kept, s, level + 1, n)
  {
    hide Others;
    var j := OthersHaveHit(kept, n);
    assert (edges + kept)[|edges| + j] == kept[j];
  }

  predicate Trail(edges: seq<Hit>, s: string, trail: seq<nat>, i: nat) {
    && i < |edges| && trail != [] && trail[|trail| - 1] == i
    && |trail| == edges[i].level
    && (forall t :: 0 <= t < |trail| ==> trail[t] < |edges| && edges[trail[t]].level == t + 1)
    && edges[trail[0]].from == s
    && (forall t :: 0 <= t < |trail| - 1 ==> edges[trail[t]].other == edges[trail[t + 1]].from)
  }

  lemma TrailExtends(edges: seq<Hit>, s: string, trail: seq<nat>, j: nat, i: nat)
    requires Trail(edges, s, trail, j) && i < |edges|
    requires edges[j].level + 1 == edges[i].level && edges[j].other == edges[i].from
    ensures Trail(edges, s, trail + [i], i)
  {
  }

  /** The depth of a returned hit is the length of a path of returned hits from the subject. */
  lemma {:induction false} TrailExists(edges: seq<Hit>, s: string, i: nat)
    requires Anchored(edges, s) && i < |edges| && edges[i].level >= 1
    requires forall j :: 0 <= j < |edges| ==> edges[j].level >= 1
    ensures exists trail :: Trail(edges, s, trail, i)
    decreases i
  {
    assert AnchoredAt(edges, s, i);
    if edges[i].level == 1 {
      assert Trail(edges, s, [i], i);
    } else {
      var j :| 0 <= j < i && edges[j].level + 1 == edges[i].level && edges[j].other == edges[i].from;
      TrailExists(edges, s, j);
      var trail :| Trail(edges, s, trail, j);
      TrailExtends(edges, s, trail, j, i);
    }
  }

  /** Returned hits come level by level, each level in sort order. */
  predicate InOrder(names: string -> string, edges: seq<Hit>) {
    forall i, j :: 0 <= i < j < |edges| ==>
      edges[i].level < edges[j].level || (edges[i].level == edges[j].level && !Earlier(names, edges[j], edges[i]))
  }

  lemma AdvanceInOrder(names: string -> string, edges: seq<Hit>, sorted: seq<Hit>, n: nat, level: nat)
    requires InOrder(names, edges) && forall i :: 0 <= i < |edges| ==> edges[i].level <= level
    requires n <= |sorted| && Ordered(names, sorted) && forall i :: 0 <= i < n ==> sorted[i].level == level + 1
    ensures InOrder(names, edges + sorted[..n])
  {
    var all := edges + sorted[..n];
    forall i, j | 0 <= i < j < |all|
      ensures all[i].level < all[j].level || (all[i].level == all[j].level && !Earlier(names, all[j], all[i]))
    {
      if j >= |edges| {
        assert all[j] == sorted[j - |edges|];
        if i >= |edges| {
          assert all[i] == sorted[i - |edges|];
        }
      }
    }
  }

  // ----- the loop -----

  /** What is known of the counts and the distances. */
  ghost predicate Counts(f: Filter, links: seq<Link>, s: string, p: Progress) {
    && Tracks(f, links, s, p)
    && Reports(p)
    && Exact(f, links, s, p)
    && |p.rounds| == p.level
    && (|p.edges| == p.total ==> ExactRounds(f, links, s, p.rounds))
  }

  predicate Budgeted(edges: seq<Hit>, levels: nat, limit: nat) {
    |edges| <= levels * limit
  }

  lemma BudgetGrows(edges: seq<Hit>, kept: seq<Hit>, level: nat, limit: nat)
    requires Budgeted(edges, level, limit) && |kept| <= limit
    ensures Budgeted(edges + kept, level + 1, limit)
  {
  }

  /** What is known of the returned hits one by one. */
  ghost predicate Shape(f: Filter, links: seq<Link>, names: string -> string, s: string, limit: nat, p: Progress) {
    && Recorded(p)
    && AllGenuine(f, links, p.edges)
    && Rooted(p, s)
    && InOrder(names, p.edges)
    && Budgeted(p.edges, p.level, limit)
  }

  /** Before the first level: the subject is visited and waiting. */
  lemma HoldsAtStart(f: Filter, links: seq<Link>, names: string -> string, s: string, limit: nat) returns (p: Progress)
    ensures p == Progress(0, {s}, {}, [], [s], {}, [], 0)
    ensures Counts(f, links, s, p) && Shape(f, links, names, s, limit, p)
  {
    p := Progress(0, {s}, {}, [], [s], {}, [], 0);
    assert Elems([s]) == {s};
  }

  lemma AdvanceRounds(f: Filter, links: seq<Link>, s: string, rounds: seq<seq<string>>, frontier: seq<string>)
    requires Elems(frontier) == Within(f, links, s, |rounds|) - Nearer(f, links, s, |rounds|)
    requires ExactRounds(f, links, s, rounds)
    ensures ExactRounds(f, links, s, rounds + [frontier])
  {
    hide Within, Nearer, Elems, Triples;
    var grown := rounds + [frontier];
    forall i | 0 <= i < |grown| ensures Elems(grown[i]) == Within(f, links, s, i) - Nearer(f, links, s, i) {
      if i < |rounds| { assert grown[i] == rounds[i]; }
    }
  }

  lemma KeptAtLevel(f: Filter, links: seq<Link>, found: seq<Hit>, sorted: seq<Hit>, n: nat, nodes: set<string>,
                    level: nat)
    requires AllFrom(f, links, found, nodes, level) && OncePerTriple(found)
    requires multiset(sorted) == multiset(found) && n <= |sorted|
    ensures AllFrom(f, links, sorted[..n], nodes, level)
    ensures forall i :: 0 <= i < n ==> sorted[i].level == level && sorted[i].from in nodes
  {
    KeptFacts(found, sorted, n);
    forall i | 0 <= i < n ensures sorted[i].level == level && sorted[i].from in nodes {
      ElemsMember(sorted[..n], sorted[..n][i]);
    }
  }

  lemma LevelsSoFar(p: Progress)
    requires Recorded(p)
    ensures forall i :: 0 <= i < |p.edges| ==> 1 <= p.edges[i].level <= p.level
  {
    forall i | 0 <= i < |p.edges| ensures 1 <= p.edges[i].level <= p.level {
      ElemsMember(p.edges, p.edges[i]);
    }
  }

  lemma GenuineConcat(f: Filter, links: seq<Link>, a: seq<Hit>, b: seq<Hit>, nodes: set<string>, level: nat)
    requires AllGenuine(f, links, a) && AllFrom(f, links, b, nodes, level)
    ensures AllGenuine(f, links, a + b)
  {
    HitsConcat(a, b);
  }

  lemma AdvanceCounts(f: Filter, links: seq<Link>, s: string, p: Progress, found: seq<Hit>, marked: set<Triple>,
                      sorted: seq<Hit>, n: nat, next: seq<string>, met: set<string>)
    requires Counts(f, links, s, p)
    requires Expanded(f, links, p.frontier, p.seen, p.level + 1, found, marked)
    requires multiset(sorted) == multiset(found) && n <= |sorted| && Met(sorted[..n], p.visited, next, met)
    ensures Counts(f, links, s, Advance(p, found, marked, sorted[..n], next, met))
  {
    LevelGains(f, links, s, p, found, marked, sorted, n);
    AdvanceTracks(f, links, s, p, found, marked, sorted[..n], next, met);
    AdvanceReports(f, links, s, p, found, marked, sorted, n, next, met);
    AdvanceExact(f, links, s, p, found, marked, sorted[..n], next, met);
    KeptFacts(found, sorted, n);
    if |p.edges + sorted[..n]| == p.total + |found| {
      assert Elems(p.frontier) == p.visited - p.expanded;
      AdvanceRounds(f, links, s, p.rounds, p.frontier);
    }
  }

  lemma AdvanceShape(f: Filter, links: seq<Link>, names: string -> string, s: string, limit: nat, p: Progress,
                     found: seq<Hit>, marked: set<Triple>, sorted: seq<Hit>, n: nat, next: seq<string>,
                     met: set<string>)
    requires p.expanded !! Elems(p.frontier) && |p.frontier| == |Elems(p.frontier)|
    requires Shape(f, links, names, s, limit, p)
    requires OncePerTriple(found) && AllFrom(f, links, found, Elems(p.frontier), p.level + 1)
    requires multiset(sorted) == multiset(found) && Ordered(names, sorted) && n <= |sorted| && n <= limit
    requires Met(sorted[..n], p.visited, next, met)
    ensures Shape(f, links, names, s, limit, Advance(p, found, marked, sorted[..n], next, met))
  {
    hide AllFrom, AllGenuine, InRounds, Anchored, Offered, InOrder, Ordered, EachOnce, OncePerTriple;
    KeptAtLevel(f, links, found, sorted, n, Elems(p.frontier), p.level + 1);
    LevelsSoFar(p);
    RoundAdded(p.rounds, p.expanded, p.frontier);
    EdgesInRounds(p.edges, sorted[..n], p.rounds, p.frontier);
    GenuineConcat(f, links, p.edges, sorted[..n], Elems(p.frontier), p.level + 1);
    AdvanceRooted(p, s, found, marked, sorted[..n], next, met);
    AdvanceInOrder(names, p.edges, sorted, n, p.level);
    BudgetGrows(p.edges, sorted[..n], p.level, limit);
  }

  lemma AdvanceBoth(f: Filter, links: seq<Link>, names: string -> string, s: string, limit: nat, p: Progress,
                    found: seq<Hit>, marked: set<Triple>, sorted: seq<Hit>, n: nat, next: seq<string>, met: set<string>)
    requires Counts(f, links, s, p) && Shape(f, links, names, s, limit, p)
    requires Expanded(f, links, p.frontier, p.seen, p.level + 1, found, marked)
    requires multiset(sorted) == multiset(found) && Ordered(names, sorted) && n <= |sorted| && n <= limit
    requires Met(sorted[..n], p.visited, next, met)
    ensures var q := Advance(p, found, marked, sorted[..n], next, met);
            Counts(f, links, s, q) && Shape(f, links, names, s, limit, q)
  {
    AdvanceCounts(f, links, s, p, found, marked, sorted, n, next, met);
    AdvanceShape(f, links, names, s, limit, p, found, marked, sorted, n, next, met);
  }

  /** The loop ends after `depth` levels or with nothing left to expand; the expanded nodes lie within `depth - 1`. */
  lemma FinishNodes(f: Filter, links: seq<Link>, s: string, p: Progress, depth: nat)
    requires Tracks(f, links, s, p) && Exact(f, links, s, p)
    requires 1 <= p.level <= depth && (p.level == depth || p.frontier == [])
    ensures p.expanded <= Within(f, links, s, depth - 1)
    ensures |p.edges| == p.total ==> p.expanded == Within(f, links, s, depth - 1)
  {
    hide Triples, Neighbours, Passes;
    WithinGrows(f, links, s, p.level - 1, depth - 1);
    if |p.edges| == p.total && p.frontier == [] {
      assert p.visited == p.expanded;
      WithinStable(f, links, s, p.level, depth - 1);
    }
  }

  /** So the counted triples are those within depth: all of them unless something was cut off. */
  lemma FinishCounts(f: Filter, links: seq<Link>, s: string, p: Progress, depth: nat)
    requires Counts(f, links, s, p)
    requires 1 <= p.level <= depth && (p.level == depth || p.frontier == [])
    ensures p.total <= |Triples(f, links, Within(f, links, s, depth - 1))|
    ensures |p.edges| == p.total ==> p.seen == TriplesOf(p.edges) == Triples(f, links, Within(f, links, s, depth - 1))
  {
    FinishNodes(f, links, s, p, depth);
    TriplesMonotone(f, links, p.expanded, Within(f, links, s, depth - 1));
    SubsetSize(p.seen, Triples(f, links, Within(f, links, s, depth - 1)));
    if |p.edges| == p.total { SubsetSame(TriplesOf(p.edges), p.seen); }
  }

  lemma TriplesMonotone(f: Filter, links: seq<Link>, a: set<string>, b: set<string>)
    requires a <= b
    ensures Triples(f, links, a) <= Triples(f, links, b)
  {
    TriplesUnion(f, links, a, b);
    assert a + b == b;
  }

  lemma SubsetSize<T>(a: set<T>, b: set<T>)
    requires a <= b
    ensures |a| <= |b|
  {
    assert b == a + (b - a);
  }

  lemma SubsetSame<T>(a: set<T>, b: set<T>)
    requires a <= b && |a| == |b|
    ensures a == b
  {
    assert b == a + (b - a);
    assert |b| == |a| + |b - a|;
  }

  // ----- what each level returns, cut off or not -----

  lemma StandsOnce(f: Filter, links: seq<Link>, a: Hit, b: Hit)
    requires Stands(f, links, a) && Stands(f, links, b) && TripleOf(a) == TripleOf(b) && a.level == b.level
    ensures a == b
  {
    assert a.direction in {"incoming", "outgoing"} && b.direction in {"incoming", "outgoing"};
    assert Reverse(a) == Reverse(b);
  }

  lemma GenuineTriple(f: Filter, links: seq<Link>, h: Hit, nodes: set<string>)
    requires Genuine(f, links, h) && h.from in nodes
    ensures TripleOf(h) in Triples(f, links, nodes)
  {
    hide Triples, TriplesOf, Gather, Elems;
    GatherMeaning(f, links, h.from, h.level, h);
    GatherTriples(f, links, h.from, h.level);
    TriplesFromHits(Gather(f, links, h.from, h.level), TripleOf(h));
    TriplesMonotone(f, links, {h.from}, nodes);
  }

  /** Hit `h` is one that the level at `round` has to offer. */
  ghost predicate OnOffer(f: Filter, links: seq<Link>, round: seq<string>, level: nat, h: Hit) {
    Stands(f, links, h) && h.level == level && h.from in Elems(round)
  }

  /**
   The hits a level keeps: as many as the limit allows of one hit for each triple its round offers, in order, and none
   left out that would come before one kept.
   */
  ghost predicate Share(f: Filter, links: seq<Link>, names: string -> string, limit: nat, round: seq<string>,
                        level: nat, kept: seq<Hit>)
  {
    var offered := Triples(f, links, Elems(round));
    && |kept| == (if |offered| < limit then |offered| else limit)
    && TriplesOf(kept) <= offered && OncePerTriple(kept) && Ordered(names, kept)
    && (forall h :: h in Elems(kept) ==> OnOffer(f, links, round, level, h))
    && forall h, k :: OnOffer(f, links, round, level, h) && h !in Elems(kept) && k in Elems(kept) ==>
         !Earlier(names, h, k)
  }

  lemma OfferedIsFound(f: Filter, links: seq<Link>, s: string, p: Progress, found: seq<Hit>, marked: set<Triple>,
                       h: Hit)
    requires Tracks(f, links, s, p) && Expanded(f, links, p.frontier, p.seen, p.level + 1, found, marked)
    requires OnOffer(f, links, p.frontier, p.level + 1, h)
    ensures h in Elems(found)
  {
    hide Triples, TriplesOf, Elems, Genuine, OncePerTriple, Within, Nearer;
    FoundAtFrontier(f, links, s, p, found, marked);
    GenuineTriple(f, links, h, Elems(p.frontier));
    TriplesFromHits(found, TripleOf(h));
    var g :| g in Elems(found) && TripleOf(g) == TripleOf(h);
    StandsOnce(f, links, g, h);
  }

  /** In a sorted list what lies behind a cut does not come before what lies in front of it. */
  lemma CutInOrder(names: string -> string, sorted: seq<Hit>, n: nat, h: Hit, k: Hit)
    requires Ordered(names, sorted) && n <= |sorted|
    requires h in Elems(sorted) && h !in Elems(sorted[..n]) && k in Elems(sorted[..n])
    ensures !Earlier(names, h, k)
  {
    hide Elems, Earlier;
    ElemsMember(sorted, h);
    ElemsMember(sorted[..n], h);
    ElemsMember(sorted[..n], k);
    var j :| 0 <= j < |sorted| && sorted[j] == h;
    var i :| 0 <= i < |sorted[..n]| && sorted[..n][i] == k;
    assert forall m :: 0 <= m < n ==> sorted[..n][m] == sorted[m];
    assert sorted[i] == k && j >= n;
    assert !ByKey(names)(sorted[j], sorted[i]);
  }

  lemma TakesShare(f: Filter, links: seq<Link>, names: string -> string, s: string, limit: nat, p: Progress,
                   found: seq<Hit>, marked: set<Triple>, sorted: seq<Hit>, n: nat)
    requires Tracks(f, links, s, p) && Expanded(f, links, p.frontier, p.seen, p.level + 1, found, marked)
    requires multiset(sorted) == multiset(found) && Ordered(names, sorted)
    requires n == if |sorted| < limit then |sorted| else limit
    ensures Share(f, links, names, limit, p.frontier, p.level + 1, sorted[..n])
  {
    hide Triples, TriplesOf, Elems, Genuine, Within, Nearer, Earlier;
    FoundAtFrontier(f, links, s, p, found, marked);
    KeptFacts(found, sorted, n);
    SamePileSameSets(sorted, found);
    var kept, level := sorted[..n], p.level + 1;
    forall h, k | OnOffer(f, links, p.frontier, level, h) && h !in Elems(kept) && k in Elems(kept)
      ensures !Earlier(names, h, k)
    {
      OfferedIsFound(f, links, s, p, found, marked, h);
      CutInOrder(names, sorted, n, h, k);
    }
    PrefixOrdered(names, sorted, n);
  }

  lemma PrefixOrdered(names: string -> string, sorted: seq<Hit>, n: nat)
    requires Ordered(names, sorted) && n <= |sorted|
    ensures Ordered(names, sorted[..n])
  {
  }

  function Union(rounds: seq<seq<string>>): set<string> {
    if rounds == [] then {} else Union(rounds[..|rounds| - 1]) + Elems(rounds[|rounds| - 1])
  }

  function Flat(shares: seq<seq<Hit>>): seq<Hit> {
    if shares == [] then [] else Flat(shares[..|shares| - 1]) + shares[|shares| - 1]
  }

  /** Round `i` is the neighbours of what the level before kept that no round before has. */
  ghost predicate Follows(rounds: seq<seq<string>>, shares: seq<seq<Hit>>, i: nat)
    requires 1 <= i <= |rounds| && i <= |shares|
  {
    i < |rounds| ==> rounds[i] != [] && Elems(rounds[i]) == Others(shares[i - 1]) - Union(rounds[..i])
  }

  /** The levels of an expansion so far, from the subject on. */
  ghost predicate Unfolds(f: Filter, links: seq<Link>, names: string -> string, s: string, limit: nat,
                         rounds: seq<seq<string>>, shares: seq<seq<Hit>>)
  {
    && |rounds| == |shares| && (rounds != [] ==> rounds[0] == [s])
    && (forall i {:trigger shares[i]} :: 0 <= i < |rounds| ==>
          Share(f, links, names, limit, rounds[i], i + 1, shares[i]))
    && forall i :: 1 <= i < |rounds| ==> Follows(rounds, shares, i)
  }

  /** What waits to be expanded: the subject, or the new neighbours of what the last level kept. */
  ghost predicate Waiting(rounds: seq<seq<string>>, shares: seq<seq<Hit>>, s: string, frontier: seq<string>) {
    |rounds| == |shares|
    && if rounds == [] then frontier == [s]
       else Elems(frontier) == Others(shares[|shares| - 1]) - Union(rounds)
  }

  lemma OneMoreLevel(f: Filter, links: seq<Link>, names: string -> string, s: string, limit: nat,
                     rounds: seq<seq<string>>, shares: seq<seq<Hit>>, frontier: seq<string>, kept: seq<Hit>,
                     next: seq<string>, met: set<string>)
    requires Unfolds(f, links, names, s, limit, rounds, shares) && Waiting(rounds, shares, s, frontier)
    requires frontier != [] && Share(f, links, names, limit, frontier, |rounds| + 1, kept)
    requires Met(kept, Union(rounds) + Elems(frontier), next, met)
    ensures Unfolds(f, links, names, s, limit, rounds + [frontier], shares + [kept])
    ensures Waiting(rounds + [frontier], shares + [kept], s, next)
    ensures Union(rounds + [frontier]) == Union(rounds) + Elems(frontier)
    ensures Flat(shares + [kept]) == Flat(shares) + kept
  {
    hide Share, Elems, Others;
    var more, parts := rounds + [frontier], shares + [kept];
    assert more[..|rounds|] == rounds && parts[..|shares|] == shares;
    forall i | 1 <= i < |more| ensures Follows(more, parts, i) {
      assert more[..i] == rounds[..i];
      if i < |rounds| { assert Follows(rounds, shares, i); } else { assert rounds[..i] == rounds; }
    }
  }

  function Clamp(depth: int): nat {
    if depth < 1 then 1 else if depth > 5 then 5 else depth
  }

  /** One level: gather, drop repeats, sort, keep the first `limit`, and collect the next frontier. */
  method RunLevel(f: Filter, ghost links: seq<Link>, outAdj: Adjacency, inAdj: Adjacency, names: string -> string,
                  s: string, limit: nat, ghost p: Progress, visited: set<string>, frontier: seq<string>,
                  seen: set<Triple>, level: nat)
      returns (count: nat, kept: seq<Hit>, next: seq<string>, met: set<string>, marked: set<Triple>, ghost q: Progress)
    requires IndexesFrom(outAdj, links) && IndexesTo(inAdj, links)
    requires Counts(f, links, s, p) && Shape(f, links, names, s, limit, p)
    requires p.level + 1 == level && p.visited == visited && p.frontier == frontier && p.seen == seen
    ensures Counts(f, links, s, q) && Shape(f, links, names, s, limit, q)
    ensures q.level == level && q.visited == met && q.frontier == next && q.seen == marked
    ensures q.edges == p.edges + kept && q.total == p.total + count
    ensures q.rounds == p.rounds + [frontier] && q.expanded == p.expanded + Elems(frontier)
    ensures Share(f, links, names, limit, frontier, level, kept) && Met(kept, visited, next, met)
  {
    hide Share;
    var found;
    found, marked := ExpandLevel(f, links, outAdj, inAdj, frontier, seen, level);
    var sorted := SortHits(names, found);
    var n := if |sorted| < limit then |sorted| else limit;
    count, kept := |found|, sorted[..n];
    next, met := NextFrontier(kept, visited);
    AdvanceBoth(f, links, names, s, limit, p, found, marked, sorted, n, next, met);
    TakesShare(f, links, names, s, limit, p, found, marked, sorted, n);
    q := Advance(p, found, marked, kept, next, met);
  }

  /** The breadth-first loop, stopping at `depth` or when nothing new was met. */
  method RunLevels(f: Filter, ghost links: seq<Link>, outAdj: Adjacency, inAdj: Adjacency, names: string -> string,
                   s: string, depth: nat, limit: nat)
      returns (edges: seq<Hit>, total: nat, ghost p: Progress, ghost shares: seq<seq<Hit>>)
    requires IndexesFrom(outAdj, links) && IndexesTo(inAdj, links) && depth >= 1
    ensures Counts(f, links, s, p) && Shape(f, links, names, s, limit, p)
    ensures p.edges == edges == Flat(shares) && p.total == total && p.expanded == Union(p.rounds)
    ensures 1 <= p.level <= depth && (p.level == depth || p.frontier == [])
    ensures Unfolds(f, links, names, s, limit, p.rounds, shares) && Waiting(p.rounds, shares, s, p.frontier)
  {
    hide Counts, Shape, Unfolds, Waiting, Share, Met, Others;
    var visited, frontier, seen := {s}, [s], {};
    edges, total := [], 0;
    p := HoldsAtStart(f, links, names, s, limit);
    shares := [];
    UnfoldsAtStart(f, links, names, s, limit);
    var level: nat := 0;
    while level < depth && frontier != []
      invariant level <= depth && (level == 0 ==> frontier != [])
      invariant p.level == level && p.visited == visited && p.frontier == frontier && p.seen == seen && p.edges == edges
      invariant p.total == total
      invariant Counts(f, links, s, p)
      invariant Shape(f, links, names, s, limit, p)
      invariant |p.rounds| == level && p.expanded == Union(p.rounds) && edges == Flat(shares)
      invariant visited == Union(p.rounds) + Elems(frontier)
      invariant Unfolds(f, links, names, s, limit, p.rounds, shares) && Waiting(p.rounds, shares, s, frontier)
    {
      ghost var rounds, round := p.rounds, frontier;
      var count, kept;
      count, kept, frontier, visited, seen, p :=
        RunLevel(f, links, outAdj, inAdj, names, s, limit, p, visited, frontier, seen, level + 1);
      OneMoreLevel(f, links, names, s, limit, rounds, shares, round, kept, frontier, visited);
      MetVisits(kept, Union(rounds) + Elems(round), frontier, visited);
      shares := shares + [kept];
      edges, total, level := edges + kept, total + count, level + 1;
    }
  }

  lemma MetVisits(kept: seq<Hit>, visited: set<string>, next: seq<string>, met: set<string>)
    requires Met(kept, visited, next, met)
    ensures met == visited + Elems(next)
  {
  }

  lemma UnfoldsAtStart(f: Filter, links: seq<Link>, names: string -> string, s: string, limit: nat)
    ensures Unfolds(f, links, names, s, limit, [], []) && Waiting([], [], s, [s])
    ensures Union([]) == {} && Flat([]) == [] && Elems([s]) == {s}
  {
    assert [s][..0] == [] && [s][0] == s;
  }

  /**
   `refs_indexed` from a resolved subject. Always: no more than depth·limit hits, never more
   than were counted, and never more counted than the triples within depth; no triple
   twice, every hit real and hanging from the subject, no node expanded twice. When
   nothing was cut off (as many returned as counted), round `i` is exactly the nodes at
   distance `i`, and the returned triples are exactly those within depth. Cut off or not, each
   level returns its share of what its round offers, the next round is the new neighbours of
   that share, and the total is the triples of all rounds.
   */
  method ExpandRefs(f: Filter, ghost links: seq<Link>, outAdj: Adjacency, inAdj: Adjacency, names: string -> string,
                    s: string, asked: int, limit: nat)
      returns (edges: seq<Hit>, total: nat, ghost rounds: seq<seq<string>>, ghost shares: seq<seq<Hit>>)
    requires IndexesFrom(outAdj, links) && IndexesTo(inAdj, links)
    ensures |edges| <= total <= |Triples(f, links, Within(f, links, s, Clamp(asked) - 1))|
    ensures |edges| <= Clamp(asked) * limit
    ensures OncePerTriple(edges) && AllGenuine(f, links, edges) && Anchored(edges, s) && InOrder(names, edges)
    ensures |rounds| <= Clamp(asked) && EachOnce(rounds) && InRounds(edges, rounds)
    ensures |edges| == total ==> ExactRounds(f, links, s, rounds)
    ensures |edges| == total ==> TriplesOf(edges) == Triples(f, links, Within(f, links, s, Clamp(asked) - 1))
    ensures edges == Flat(shares) && total == |Triples(f, links, Union(rounds))|
    ensures rounds != [] && Unfolds(f, links, names, s, limit, rounds, shares)
    ensures |rounds| < Clamp(asked) ==> Others(shares[|shares| - 1]) <= Union(rounds)
  {
    ghost var p;
    edges, total, p, shares := RunLevels(f, links, outAdj, inAdj, names, s, Clamp(asked), limit);
    FinishCounts(f, links, s, p, Clamp(asked));
    rounds := p.rounds;
    Product(p.level, Clamp(asked), limit);
  }

  lemma Product(a: nat, b: nat, c: nat)
    requires a <= b
    ensures a * c <= b * c
  {
  }
}
