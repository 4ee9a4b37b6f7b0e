/** Encoded size as an additive measure, and lists as collections of distinct elements. */
module Measure {

  function Sum<T>(size: T -> nat, s: seq<T>): nat {
    if s == [] then 0 else Sum(size, s[..|s| - 1]) + size(s[|s| - 1])
  }

  /** Brackets, the elements, and a comma between each two. */
  function ListSize<T>(size: T -> nat, s: seq<T>): nat {
    2 + Sum(size, s) + if s == [] then 0 else |s| - 1
  }

  lemma SumAppend<T>(size: T -> nat, s: seq<T>, x: T)
    ensures Sum(size, s + [x]) == Sum(size, s) + size(x)
    ensures ListSize(size, s + [x]) == ListSize(size, s) + size(x) + if s == [] then 0 else 1
  {
    assert (s + [x])[..|s|] == s;
  }

  lemma {:induction false} SumConcat<T>(size: T -> nat, a: seq<T>, b: seq<T>)
    ensures Sum(size, a + b) == Sum(size, a) + Sum(size, b)
    decreases |b|
  {
    if b == [] {
      assert a + b == a;
    } else {
      SumConcat(size, a, b[..|b| - 1]);
      assert (a + b)[..|a + b| - 1] == a + b[..|b| - 1];
    }
  }

  lemma WithoutOne<T>(b: seq<T>, x: T) returns (rest: seq<T>, i: nat)
    requires x in multiset(b)
    ensures i < |b| && b[i] == x && rest == b[..i] + b[i + 1..] && multiset(b) == multiset(rest) + multiset{x}
  {
    i :| 0 <= i < |b| && b[i] == x;
    rest := b[..i] + b[i + 1..];
    assert b == b[..i] + [x] + b[i + 1..];
  }

  lemma SumWithout<T>(size: T -> nat, b: seq<T>, i: nat)
    requires i < |b|
    ensures Sum(size, b) == Sum(size, b[..i] + b[i + 1..]) + size(b[i])
  {
    hide Sum;
    var before, after := b[..i], b[i + 1..];
    assert b == before + [b[i]] + after;
    SumConcat(size, before, after);
    SumConcat(size, before + [b[i]], after);
    SumAppend(size, before, b[i]);
  }

  /** Size does not depend on order. */
  lemma {:induction false} SumOfSamePile<T>(size: T -> nat, a: seq<T>, b: seq<T>)
    requires multiset(a) == multiset(b)
    ensures Sum(size, a) == Sum(size, b) && |a| == |b|
    decreases |a|
  {
    assert |a| == |multiset(a)| == |multiset(b)| == |b|;
    if a != [] {
      var front, last := a[..|a| - 1], a[|a| - 1];
      assert a == front + [last];
      assert last in multiset(a);
      var rest, i := WithoutOne(b, last);
      assert multiset(a) == multiset(front) + multiset{last};
      assert multiset(front) == multiset(a) - multiset{last} == multiset(rest);
      SumOfSamePile(size, front, rest);
      SumWithout(size, b, i);
    }
  }

  /** Part of a pile is no larger than the pile. */
  lemma {:induction false} SumOfPart<T>(size: T -> nat, a: seq<T>, b: seq<T>)
    requires multiset(a) <= multiset(b)
    ensures Sum(size, a) <= Sum(size, b) && |a| <= |b|
    decreases |a|
  {
    if a != [] {
      var front, last := a[..|a| - 1], a[|a| - 1];
      assert a == front + [last];
      assert multiset(a) == multiset(front) + multiset{last};
      assert last in multiset(a);
      var rest, i := WithoutOne(b, last);
      assert multiset(front) == multiset(a) - multiset{last} <= multiset(rest);
      SumOfPart(size, front, rest);
      SumWithout(size, b, i);
    }
  }

  // ----- distinct elements -----

  function Elems<T>(s: seq<T>): set<T> {
    if s == [] then {} else Elems(s[..|s| - 1]) + {s[|s| - 1]}
  }

  predicate Distinct<T(==)>(s: seq<T>) {
    forall i, j :: 0 <= i < j < |s| ==> s[i] != s[j]
  }

  lemma ElemsPush<T>(s: seq<T>, x: T)
    ensures Elems(s + [x]) == Elems(s) + {x}
  {
    assert (s + [x])[..|s|] == s;
  }

  lemma {:induction false} ElemsConcat<T>(a: seq<T>, b: seq<T>)
    ensures Elems(a + b) == Elems(a) + Elems(b)
    decreases |b|
  {
    if b == [] {
      assert a + b == a;
    } else {
      ElemsConcat(a, b[..|b| - 1]);
      assert (a + b)[..|a + b| - 1] == a + b[..|b| - 1];
    }
  }

  lemma {:induction false} ElemsMember<T>(s: seq<T>, x: T)
    ensures x in Elems(s) <==> exists i :: 0 <= i < |s| && s[i] == x
    ensures x in Elems(s) <==> x in multiset(s)
    decreases |s|
  {
    if s != [] { ElemsMember(s[..|s| - 1], x); }
  }

  lemma ElemAt<T>(s: seq<T>, i: nat)
    requires i < |s|
    ensures s[i] in Elems(s)
  {
    ElemsMember(s, s[i]);
  }

  lemma DistinctPush<T>(s: seq<T>, x: T)
    ensures Distinct(s + [x]) <==> Distinct(s) && x !in Elems(s)
  {
    var grown := s + [x];
    assert grown[|s|] == x;
    ElemsMember(s, x);
    if Distinct(grown) {
      forall i, j | 0 <= i < j < |s| ensures s[i] != s[j] { assert grown[i] == s[i] && grown[j] == s[j]; }
      forall i | 0 <= i < |s| ensures s[i] != x { assert grown[i] == s[i]; }
    }
  }

  lemma {:induction false} DistinctCount<T>(s: seq<T>)
    ensures |Elems(s)| <= |s| && (Distinct(s) <==> |Elems(s)| == |s|)
    decreases |s|
  {
    if s != [] {
      var front, last := s[..|s| - 1], s[|s| - 1];
      assert s == front + [last];
      DistinctCount(front);
      DistinctPush(front, last);
    }
  }

  lemma SamePile<T>(a: seq<T>, b: seq<T>)
    requires multiset(a) == multiset(b)
    ensures |a| == |b| && Elems(a) == Elems(b) && (Distinct(a) <==> Distinct(b))
  {
    assert |a| == |multiset(a)| == |multiset(b)| == |b|;
    forall x | x in Elems(a) ensures x in Elems(b) {
      ElemsMember(a, x);
      ElemsMember(b, x);
    }
    forall x | x in Elems(b) ensures x in Elems(a) {
      ElemsMember(a, x);
      ElemsMember(b, x);
    }
    assert Elems(a) <= Elems(b) <= Elems(a);
    DistinctCount(a);
    DistinctCount(b);
  }

  /** Without repetition, having the elements of another list means containing its pile. */
  lemma DistinctWithin<T>(a: seq<T>, b: seq<T>)
    requires Distinct(a) && Elems(a) <= Elems(b)
    ensures multiset(a) <= multiset(b)
  {
    forall x ensures multiset(a)[x] <= multiset(b)[x] {
      ElemsMember(a, x);
      ElemsMember(b, x);
      DistinctOnce(a, x);
      assert x in multiset(a) ==> x in Elems(b);
      assert multiset(a)[x] > 0 ==> multiset(b)[x] > 0;
    }
    assert multiset(a) <= multiset(b);
  }

  lemma {:induction false} DistinctOnce<T>(a: seq<T>, x: T)
    requires Distinct(a)
    ensures multiset(a)[x] <= 1
    decreases |a|
  {
    if a != [] {
      var front, last := a[..|a| - 1], a[|a| - 1];
      assert a == front + [last];
      DistinctPush(front, last);
      DistinctOnce(front, x);
      ElemsMember(front, x);
      assert multiset(a) == multiset(front) + multiset{last};
    }
  }
}
