/** A stable sort under any strict weak order. */
module Stable {

  ghost predicate StrictWeak<T(!new)>(earlier: (T, T) -> bool) {
    (forall a, b :: earlier(a, b) ==> !earlier(b, a))
    && (forall a, b, c :: earlier(a, b) && !earlier(c, b) ==> earlier(a, c))
  }

  predicate Ordered<T>(earlier: (T, T) -> bool, s: seq<T>) {
    forall i, j :: 0 <= i < j < |s| ==> !earlier(s[j], s[i])
  }

  /** `x` goes after everything it is not earlier than, so equal keys keep their order. */
  function Insert<T>(earlier: (T, T) -> bool, s: seq<T>, x: T): seq<T> {
    if s == [] || !earlier(x, s[|s| - 1]) then s + [x]
    else Insert(earlier, s[..|s| - 1], x) + [s[|s| - 1]]
  }

  function Arrange<T>(earlier: (T, T) -> bool, s: seq<T>): seq<T> {
    if s == [] then [] else Insert(earlier, Arrange(earlier, s[..|s| - 1]), s[|s| - 1])
  }

  lemma AppendOrdered<T(!new)>(earlier: (T, T) -> bool, s: seq<T>, x: T)
    requires StrictWeak(earlier) && Ordered(earlier, s) && s != [] && !earlier(x, s[|s| - 1])
    ensures Ordered(earlier, s + [x])
  {
    forall i | 0 <= i < |s| ensures !earlier(x, s[i]) {
      assert i < |s| - 1 ==> !earlier(s[|s| - 1], s[i]);
    }
  }

  lemma PlacedFrom<T>(front: seq<T>, x: T, placed: seq<T>, i: nat)
    requires multiset(placed) == multiset(front) + multiset{x} && i < |placed|
    ensures placed[i] == x || exists j :: 0 <= j < |front| && front[j] == placed[i]
  {
    assert placed[i] in multiset(placed);
    if placed[i] != x { assert placed[i] in multiset(front); }
  }

  lemma {:induction false} InsertMeaning<T(!new)>(earlier: (T, T) -> bool, s: seq<T>, x: T)
    requires StrictWeak(earlier) && Ordered(earlier, s)
    ensures Ordered(earlier, Insert(earlier, s, x)) && multiset(Insert(earlier, s, x)) == multiset(s) + multiset{x}
    decreases |s|
  {
    if s != [] {
      var front, last := s[..|s| - 1], s[|s| - 1];
      assert s == front + [last];
      if !earlier(x, last) {
        AppendOrdered(earlier, s, x);
      } else {
        InsertMeaning(earlier, front, x);
        var placed := Insert(earlier, front, x);
        forall i | 0 <= i < |placed| ensures !earlier(last, placed[i]) {
          PlacedFrom(front, x, placed, i);
        }
      }
    }
  }

  /** Sorting reorders: nothing is lost, nothing appears, and nothing follows what should come after it. */
  lemma {:induction false} ArrangeMeaning<T(!new)>(earlier: (T, T) -> bool, s: seq<T>)
    requires StrictWeak(earlier)
    ensures Ordered(earlier, Arrange(earlier, s)) && multiset(Arrange(earlier, s)) == multiset(s)
    decreases |s|
  {
    if s != [] {
      hide Ordered, Insert, StrictWeak;
      ArrangeMeaning(earlier, s[..|s| - 1]);
      InsertMeaning(earlier, Arrange(earlier, s[..|s| - 1]), s[|s| - 1]);
      assert s == s[..|s| - 1] + [s[|s| - 1]];
    }
  }

  /** The elements that are neither earlier nor later than `x`, in order. */
  function Alike<T>(earlier: (T, T) -> bool, x: T, s: seq<T>): seq<T> {
    if s == [] then []
    else
      var last := s[|s| - 1];
      Alike(earlier, x, s[..|s| - 1]) + if earlier(x, last) || earlier(last, x) then [] else [last]
  }

  lemma AlikePush<T>(earlier: (T, T) -> bool, x: T, s: seq<T>, y: T)
    ensures Alike(earlier, x, s + [y])
         == Alike(earlier, x, s) + if earlier(x, y) || earlier(y, x) then [] else [y]
  {
    assert (s + [y])[..|s|] == s;
  }

  lemma {:induction false} InsertKeepsAlike<T(!new)>(earlier: (T, T) -> bool, x: T, s: seq<T>, y: T)
    requires StrictWeak(earlier)
    ensures Alike(earlier, x, Insert(earlier, s, y)) == Alike(earlier, x, s + [y])
    decreases |s|
  {
    AlikePush(earlier, x, s, y);
    if s != [] && earlier(y, s[|s| - 1]) {
      var front, last := s[..|s| - 1], s[|s| - 1];
      InsertKeepsAlike(earlier, x, front, y);
      AlikePush(earlier, x, front, y);
      AlikePush(earlier, x, Insert(earlier, front, y), last);
    }
  }

  /** Elements that the order does not tell apart keep the order they came in. */
  lemma {:induction false} ArrangeIsStable<T(!new)>(earlier: (T, T) -> bool, x: T, s: seq<T>)
    requires StrictWeak(earlier)
    ensures Alike(earlier, x, Arrange(earlier, s)) == Alike(earlier, x, s)
    decreases |s|
  {
    hide Insert, StrictWeak;
    if s != [] {
      var front, last := s[..|s| - 1], s[|s| - 1];
      ArrangeIsStable(earlier, x, front);
      InsertKeepsAlike(earlier, x, Arrange(earlier, front), last);
      AlikePush(earlier, x, Arrange(earlier, front), last);
      AlikePush(earlier, x, front, last);
      assert s == front + [last];
    }
  }

  method Sort<T(!new)>(earlier: (T, T) -> bool, s: seq<T>) returns (sorted: seq<T>)
    requires StrictWeak(earlier)
    ensures sorted == Arrange(earlier, s)
    ensures Ordered(earlier, sorted) && multiset(sorted) == multiset(s)
  {
    hide StrictWeak, Ordered, Insert;
    sorted := [];
    for i := 0 to |s|
      invariant sorted == Arrange(earlier, s[..i])
    {
      assert s[..i + 1][..i] == s[..i];
      sorted := Insert(earlier, sorted, s[i]);
    }
    assert s[..|s|] == s;
    ArrangeMeaning(earlier, s);
  }
}
