/** `validate` on an occurrence record: the loops, proved to accept exactly the valid records. */
module RecordCheck {
  import opened Measure
  import opened Occurrences

  lemma {:induction false} PrefixElems<T>(s: seq<T>, n: nat)
    requires n <= |s|
    ensures Elems(s[..n]) <= Elems(s)
    ensures forall i :: 0 <= i < n ==> s[i] in Elems(s[..n])
    decreases |s|
  {
    if s != [] {
      if n == |s| {
        assert s[..n] == s;
        PrefixElems(s[..|s| - 1], |s| - 1);
        assert s[..|s| - 1][..|s| - 1] == s[..|s| - 1];
      } else {
        PrefixElems(s[..|s| - 1], n);
        assert s[..|s| - 1][..n] == s[..n];
      }
    }
  }

  /** The map holds exactly the given inputs, each under its own file. */
  ghost predicate Holds(m: map<FileKey, Input>, inputs: set<Input>) {
    (forall i :: i in inputs ==> FileOf(i) in m && m[FileOf(i)] == i)
    && (forall key :: key in m ==> m[key] in inputs && FileOf(m[key]) == key)
  }

  lemma HoldsOneMore(m: map<FileKey, Input>, inputs: set<Input>, i: Input)
    requires Holds(m, inputs)
    ensures OneBuffer(inputs)
    ensures OneBuffer(inputs + {i}) <==> (FileOf(i) in m ==> m[FileOf(i)] == i)
    ensures OneBuffer(inputs + {i}) ==> Holds(m[FileOf(i) := i], inputs + {i})
  {
    if FileOf(i) in m && OneBuffer(inputs + {i}) {
      assert m[FileOf(i)] in inputs + {i} && i in inputs + {i};
    }
  }

  /** What the definition loop knows of the definitions it has passed. */
  ghost predicate Passed(checks: Checks, ds: seq<Definition>, gaps: set<Gap>) {
    && Distinct(ds)
    && (forall d :: d in Elems(ds) ==> DefinitionOk(checks, d) && Accounted(d, gaps))
    && SamePackage(Elems(ds))
    && OneBuffer(Inputs(ds))
  }

  lemma InputsPush(ds: seq<Definition>, d: Definition)
    ensures Inputs(ds + [d]) == Inputs(ds) + {d.input} && Elems(ds + [d]) == Elems(ds) + {d}
  {
    ElemsPush(ds, d);
  }

  lemma PassedOneMore(checks: Checks, ds: seq<Definition>, d: Definition, gaps: set<Gap>)
    requires Passed(checks, ds, gaps)
    ensures Passed(checks, ds + [d], gaps) <==>
            && DefinitionOk(checks, d) && Accounted(d, gaps) && d !in Elems(ds)
            && (ds != [] ==> ds[0].package == d.package) && OneBuffer(Inputs(ds) + {d.input})
  {
    hide DefinitionOk, Distinct, OneBuffer, Accounted;
    InputsPush(ds, d);
    DistinctPush(ds, d);
    if ds != [] { ElemsMember(ds, ds[0]); }
    assert ds == [] ==> Elems(ds) == {};
    if Passed(checks, ds + [d], gaps) { assert d in Elems(ds + [d]); }
    if ds != [] && ds[0].package == d.package {
      forall a, b | a in Elems(ds) + {d} && b in Elems(ds) + {d} ensures a.package == b.package {
        assert ds[0] in Elems(ds);
      }
    }
    if ds == [] { assert SamePackage(Elems(ds) + {d}); }
    if Passed(checks, ds + [d], gaps) && ds != [] { assert ds[0] in Elems(ds + [d]) && d in Elems(ds + [d]); }
  }

  lemma {:induction false} PassedPrefix(checks: Checks, ds: seq<Definition>, n: nat, gaps: set<Gap>)
    requires Passed(checks, ds, gaps) && n <= |ds|
    ensures Passed(checks, ds[..n], gaps)
  {
    hide DefinitionOk, Accounted, Elems;
    PrefixElems(ds, n);
    assert forall d :: d in Elems(ds[..n]) ==> d in Elems(ds);
    assert Inputs(ds[..n]) <= Inputs(ds);
  }

  method CheckDefinitions(checks: Checks, ds: seq<Definition>, gaps: seq<Gap>)
    returns (ok: bool, inputs: map<FileKey, Input>, seen: set<Definition>)
    ensures ok <==> Passed(checks, ds, Elems(gaps))
    ensures ok ==> Holds(inputs, Inputs(ds)) && seen == Elems(ds)
  {
    inputs, seen := map[], {};
    hide DefinitionOk, Distinct, OneBuffer, Inputs, Elems, SamePackage;
    StartPassed(checks, Elems(gaps));
    var i := 0;
    while i < |ds|
      invariant 0 <= i <= |ds| && Passed(checks, ds[..i], Elems(gaps))
      invariant Holds(inputs, Inputs(ds[..i])) && seen == Elems(ds[..i])
    {
      hide Holds, Passed, Accounted;
      var d := ds[i];
      assert ds[..i + 1] == ds[..i] + [d];
      assert i > 0 ==> ds[..i][0] == ds[0];
      InputsPush(ds[..i], d);
      PassedOneMore(checks, ds[..i], d, Elems(gaps));
      HoldsOneMore(inputs, Inputs(ds[..i]), d.input);
      TargetAccounted(d, gaps);
      if !DefinitionOk(checks, d) || ds[0].package != d.package || d in seen
         || (FileOf(d.input) in inputs && inputs[FileOf(d.input)] != d.input)
         || (d.input.root.TargetRoot? && GeneratorLineageUnknown !in gaps) {
        if Passed(checks, ds, Elems(gaps)) { PassedPrefix(checks, ds, i + 1, Elems(gaps)); }
        return false, inputs, seen;
      }
      seen := seen + {d};
      inputs := inputs[FileOf(d.input) := d.input];
      i := i + 1;
    }
    assert ds[..i] == ds;
    ok := true;
  }

  lemma StartPassed(checks: Checks, gaps: set<Gap>)
    ensures Passed(checks, [], gaps) && Holds(map[], Inputs([])) && Elems<Definition>([]) == {}
  {
  }

  lemma TargetAccounted(d: Definition, gaps: seq<Gap>)
    ensures Accounted(d, Elems(gaps)) <==> (d.input.root.TargetRoot? ==> GeneratorLineageUnknown in gaps)
  {
    ElemsMember(gaps, GeneratorLineageUnknown);
  }

  // ----- the byte total -----

  function Values(m: map<FileKey, Input>, keys: set<FileKey>): set<Input>
    requires keys <= m.Keys
  {
    set key | key in keys :: m[key]
  }

  lemma ValuesWithout(m: map<FileKey, Input>, inputs: set<Input>, keys: set<FileKey>, key: FileKey)
    requires Holds(m, inputs) && keys <= m.Keys && key in keys
    ensures TotalBytes(Values(m, keys)) == m[key].bytes + TotalBytes(Values(m, keys - {key}))
  {
    assert m[key] in Values(m, keys);
    assert Values(m, keys - {key}) == Values(m, keys) - {m[key]};
    TotalBytesWithout(Values(m, keys), m[key]);
  }

  method SumInputs(m: map<FileKey, Input>, ghost inputs: set<Input>) returns (total: nat)
    requires Holds(m, inputs)
    ensures total == TotalBytes(inputs)
  {
    total := 0;
    var left := m.Keys;
    assert Values(m, left) == inputs;
    while left != {}
      invariant left <= m.Keys && total + TotalBytes(Values(m, left)) == TotalBytes(inputs)
      decreases |left|
    {
      var key :| key in left;
      ValuesWithout(m, inputs, left, key);
      total, left := total + m[key].bytes, left - {key};
    }
  }

  // ----- references -----

  lemma ReferencesOneMore(ds: set<Definition>, rs: seq<Reference>, e: Reference)
    ensures ReferencesOk(ds, rs + [e]) <==> ReferencesOk(ds, rs) && ReferenceOk(ds, e) && e !in Elems(rs)
    ensures Elems(rs + [e]) == Elems(rs) + {e}
  {
    hide ReferenceOk, Distinct;
    ElemsPush(rs, e);
    DistinctPush(rs, e);
    if ReferencesOk(ds, rs + [e]) { assert e in Elems(rs + [e]); }
  }

  lemma ReferencesPrefix(ds: set<Definition>, rs: seq<Reference>, n: nat)
    requires ReferencesOk(ds, rs) && n <= |rs|
    ensures ReferencesOk(ds, rs[..n])
  {
    hide ReferenceOk, Elems;
    PrefixElems(rs, n);
  }

  method CheckReferences(ds: set<Definition>, rs: seq<Reference>) returns (ok: bool)
    ensures ok <==> ReferencesOk(ds, rs)
  {
    var seen: set<Reference> := {};
    var i := 0;
    while i < |rs|
      invariant 0 <= i <= |rs| && ReferencesOk(ds, rs[..i]) && seen == Elems(rs[..i])
    {
      hide ReferencesOk, Elems;
      assert rs[..i + 1] == rs[..i] + [rs[i]];
      ReferencesOneMore(ds, rs[..i], rs[i]);
      if rs[i] in seen || !ReferenceOk(ds, rs[i]) {
        if ReferencesOk(ds, rs) { ReferencesPrefix(ds, rs, i + 1); }
        return false;
      }
      seen := seen + {rs[i]};
      i := i + 1;
    }
    assert rs[..i] == rs;
    return true;
  }

  method Validate(checks: Checks, r: Record) returns (ok: bool)
    ensures ok <==> RecordOk(checks, r)
  {
    hide DefinitionOk, Distinct, OneBuffer, SamePackage, Elems, Inputs, Accounted, Holds;
    if !EnvelopeOk(checks, r) {
      return false;
    }
    var passed, inputs, seen := CheckDefinitions(checks, r.definitions, r.gaps);
    if !passed {
      return false;
    }
    var total := SumInputs(inputs, Inputs(r.definitions));
    if total > MAX_SOURCE_TOTAL_BYTES {
      return false;
    }
    ok := CheckReferences(seen, r.references);
  }
}
