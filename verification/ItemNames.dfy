/** How a walk spells the ids of items: by the names along the steps that led to them. */
module ItemNames {
  import opened Bytes
  import opened GraphModel
  import opened ItemTree

  /** The path of an item below a prefix. */
  function PathOf(prefix: string, name: string): string {
    if prefix == "" then name else prefix + "::" + name
  }

  function JoinPath(parts: seq<string>): string {
    if parts == [] then "" else if |parts| == 1 then parts[0] else parts[0] + "::" + JoinPath(parts[1..])
  }

  // ----- trails -----

  function OwnerOf(trail: seq<Step>): Option<Id> {
    if trail == [] then None else Some(trail[|trail| - 1].child)
  }

  function NameOf(t: Tree, s: Step): string
    requires Walkable(t, s)
  {
    t.krate.index[s.child].name.value
  }

  /** The kind a walk gives the child: the forced one, else that of what the item is. */
  function TagOf(t: Tree, s: Step): string
    requires Walkable(t, s)
  {
    if s.force.Some? then s.force.value else KindOf(t.krate.index[s.child].inner).value
  }

  /** Walkable steps, the first from the crate and each other from the item before it. */
  predicate Trail(t: Tree, trail: seq<Step>) {
    forall i :: 0 <= i < |trail| ==> Walkable(t, trail[i]) && trail[i] in StepsOf(t, OwnerOf(trail[..i]))
  }

  function Names(t: Tree, trail: seq<Step>): seq<string>
    requires Trail(t, trail)
  {
    seq(|trail|, i requires 0 <= i < |trail| => NameOf(t, trail[i]))
  }

  /** The path built up along the trail, one name below another. */
  function PathAlong(t: Tree, trail: seq<Step>): string
    requires Trail(t, trail)
  {
    if trail == [] then ""
    else
      TrailFront(t, trail, |trail| - 1);
      PathOf(PathAlong(t, trail[..|trail| - 1]), NameOf(t, trail[|trail| - 1]))
  }

  lemma TrailFront(t: Tree, trail: seq<Step>, n: nat)
    requires Trail(t, trail) && n <= |trail|
    ensures Trail(t, trail[..n])
  {
    hide Walkable, StepsOf;
    var front := trail[..n];
    forall i | 0 <= i < |front| ensures Walkable(t, front[i]) && front[i] in StepsOf(t, OwnerOf(front[..i])) {
      assert front[i] == trail[i] && front[..i] == trail[..i];
    }
  }

  lemma TrailExtends(t: Tree, trail: seq<Step>, s: Step)
    requires Trail(t, trail) && Walkable(t, s) && s in StepsOf(t, OwnerOf(trail))
    ensures Trail(t, trail + [s]) && PathAlong(t, trail + [s]) == PathOf(PathAlong(t, trail), NameOf(t, s))
  {
    hide Walkable, StepsOf;
    var more := trail + [s];
    assert more[..|trail|] == trail;
    forall i | 0 <= i < |more| ensures Walkable(t, more[i]) && more[i] in StepsOf(t, OwnerOf(more[..i])) {
      if i < |trail| { assert more[i] == trail[i] && more[..i] == trail[..i]; }
    }
  }

  // ----- what the map of a walk spells -----

  /** The id of the trail's last item is spelled by the trail. */
  predicate Spells(t: Tree, pkg: string, nodeOf: map<Id, string>, trail: seq<Step>)
    requires trail != [] && Trail(t, trail)
  {
    var s := trail[|trail| - 1];
    s.child in nodeOf && nodeOf[s.child] == ItemId(pkg, PathAlong(t, trail), TagOf(t, s))
  }

  /** So are the ids of all the items it passes. */
  ghost predicate Spelled(t: Tree, pkg: string, nodeOf: map<Id, string>, trail: seq<Step>) {
    Trail(t, trail) && forall n :: 0 < n <= |trail| ==> Trail(t, trail[..n]) && Spells(t, pkg, nodeOf, trail[..n])
  }

  ghost predicate SpelledTo(t: Tree, pkg: string, nodeOf: map<Id, string>, trail: seq<Step>, id: Id) {
    OwnerOf(trail) == Some(id) && Spelled(t, pkg, nodeOf, trail)
  }

  ghost predicate AllSpelled(t: Tree, pkg: string, nodeOf: map<Id, string>) {
    forall id :: id in nodeOf ==> exists trail :: SpelledTo(t, pkg, nodeOf, trail, id)
  }

  /** Where a walk stands: at the end of a spelled trail, with the path the trail builds up. */
  ghost predicate At(t: Tree, pkg: string, nodeOf: map<Id, string>, trail: seq<Step>, path: string) {
    Spelled(t, pkg, nodeOf, trail) && path == PathAlong(t, trail)
  }

  lemma AtStart(t: Tree, pkg: string, nodeOf: map<Id, string>)
    ensures At(t, pkg, nodeOf, [], "") && AllSpelled(t, pkg, map[])
  {
  }

  lemma SpelledGrows(t: Tree, pkg: string, a: map<Id, string>, b: map<Id, string>, trail: seq<Step>)
    requires Spelled(t, pkg, a, trail) && forall id :: id in a ==> id in b && b[id] == a[id]
    ensures Spelled(t, pkg, b, trail)
  {
    hide Trail, PathAlong, ItemId, TagOf;
    forall n | 0 < n <= |trail| ensures Trail(t, trail[..n]) && Spells(t, pkg, b, trail[..n]) {
      assert Spells(t, pkg, a, trail[..n]);
    }
  }

  lemma AtKept(t: Tree, crateNode: string, pkg: string, a: Walked, b: Walked, scope: set<Id>, trail: seq<Step>,
               path: string)
    requires At(t, pkg, a.nodeOf, trail, path) && Effect(t, crateNode, a, b, scope)
    ensures At(t, pkg, b.nodeOf, trail, path)
  {
    hide Spelled, AllFinished, Sound, Trail;
    SpelledGrows(t, pkg, a.nodeOf, b.nodeOf, trail);
  }

  /** Mapping the item a step leads to, from where the walk stands, spells its id and changes no other. */
  lemma MappingSpells(t: Tree, pkg: string, a: map<Id, string>, trail: seq<Step>, path: string, s: Step)
    requires At(t, pkg, a, trail, path) && AllSpelled(t, pkg, a)
    requires Walkable(t, s) && s in StepsOf(t, OwnerOf(trail)) && s.child !in a
    ensures var b := a[s.child := ItemId(pkg, PathOf(path, NameOf(t, s)), TagOf(t, s))];
            AllSpelled(t, pkg, b) && At(t, pkg, b, trail + [s], PathOf(path, NameOf(t, s)))
  {
    hide Spelled, Trail, Walkable, StepsOf, TagOf, NameOf, PathOf, PathAlong, ItemId;
    var b := a[s.child := ItemId(pkg, PathOf(path, NameOf(t, s)), TagOf(t, s))];
    ThereSpelled(t, pkg, a, trail, path, s, b);
    assert SpelledTo(t, pkg, b, trail + [s], s.child);
    forall id | id in b ensures exists trail :: SpelledTo(t, pkg, b, trail, id) {
      if id != s.child {
        var its :| SpelledTo(t, pkg, a, its, id);
        SpelledGrows(t, pkg, a, b, its);
        assert SpelledTo(t, pkg, b, its, id);
      }
    }
  }

  lemma ThereSpelled(t: Tree, pkg: string, a: map<Id, string>, trail: seq<Step>, path: string, s: Step,
                     b: map<Id, string>)
    requires At(t, pkg, a, trail, path) && Walkable(t, s) && s in StepsOf(t, OwnerOf(trail)) && s.child !in a
    requires b == a[s.child := ItemId(pkg, PathOf(path, NameOf(t, s)), TagOf(t, s))]
    ensures At(t, pkg, b, trail + [s], PathOf(path, NameOf(t, s)))
  {
    hide Trail, Walkable, StepsOf, TagOf, NameOf, PathOf, PathAlong, ItemId;
    TrailExtends(t, trail, s);
    SpelledGrows(t, pkg, a, b, trail);
    var more := trail + [s];
    forall n | 0 < n <= |more| ensures Trail(t, more[..n]) && Spells(t, pkg, b, more[..n]) {
      if n <= |trail| {
        assert more[..n] == trail[..n];
      } else {
        assert more[..n] == more;
      }
    }
  }

  /** Where all routes to an item build up one path and one kind, these are what its id is spelled by. */
  lemma RoutesDecide(t: Tree, pkg: string, nodeOf: map<Id, string>, id: Id, path: string, tag: string)
    requires AllSpelled(t, pkg, nodeOf) && id in nodeOf
    requires forall trail :: OwnerOf(trail) == Some(id) && Trail(t, trail) ==>
               PathAlong(t, trail) == path && TagOf(t, trail[|trail| - 1]) == tag
    ensures nodeOf[id] == ItemId(pkg, path, tag)
  {
    hide PathAlong, TagOf, ItemId, StepsOf, Walkable, Trail;
    var trail :| SpelledTo(t, pkg, nodeOf, trail, id);
    assert trail[..|trail|] == trail;
    assert Spells(t, pkg, nodeOf, trail[..|trail|]);
  }

  // ----- built up or joined -----

  lemma {:induction false} JoinOneMore(parts: seq<string>, name: string)
    requires parts != []
    ensures JoinPath(parts + [name]) == JoinPath(parts) + "::" + name
  {
    assert (parts + [name])[1..] == parts[1..] + [name];
    if |parts| > 1 { JoinOneMore(parts[1..], name); }
  }

  lemma NamesFront(t: Tree, trail: seq<Step>)
    requires Trail(t, trail) && trail != []
    ensures Trail(t, trail[..|trail| - 1])
    ensures Names(t, trail) == Names(t, trail[..|trail| - 1]) + [NameOf(t, trail[|trail| - 1])]
  {
    hide StepsOf, NameOf, Walkable, Trail;
    TrailFront(t, trail, |trail| - 1);
    NamesAt(t, trail);
    NamesAt(t, trail[..|trail| - 1]);
  }

  lemma NamesAt(t: Tree, trail: seq<Step>)
    requires Trail(t, trail)
    ensures |Names(t, trail)| == |trail|
    ensures forall i :: 0 <= i < |trail| ==> Walkable(t, trail[i]) && Names(t, trail)[i] == NameOf(t, trail[i])
  {
    hide StepsOf, NameOf;
  }

  /** Both spell the same path, unless the first of several names is empty: then the joined one is longer. */
  lemma {:induction false} BuiltUpIsJoined(t: Tree, trail: seq<Step>)
    requires Trail(t, trail) && trail != []
    ensures var (built, joined, first) := (PathAlong(t, trail), JoinPath(Names(t, trail)), Names(t, trail)[0]);
            if first != "" then built == joined != ""
            else if |trail| == 1 then built == joined == "" else |built| + 2 <= |joined|
  {
    NamesFront(t, trail);
    var front := trail[..|trail| - 1];
    if front == [] {
      assert PathAlong(t, front) == "";
    } else {
      BuiltUpIsJoined(t, front);
      JoinOneMore(Names(t, front), NameOf(t, trail[|trail| - 1]));
    }
  }
}
