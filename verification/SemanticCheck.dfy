/**
 The validation loops themselves, proved to accept exactly what `Semantic.Accepts` describes, and what acceptance
 gives a reader.
 */
module SemanticCheck {
  import opened Bytes
  import opened TextOrder
  import opened ObservedRows
  import opened Semantic

  class ObservedStreamState {
    var context: Option<ContextObs>
    var harness: Option<EntryObs>
    var cfg: nat
    var stable: nat
    var all: nat
    var descriptors: nat
    var lastName: Option<string>
    var cfgKeys: set<(string, Option<string>)>
    var stableKeys: set<string>
    var allKeys: set<string>
    var constants: set<string>

    function Abs(): ObsState
      reads this
    {
      ObsState(context, harness, cfg, stable, all, descriptors, lastName, cfgKeys, stableKeys, allKeys, constants)
    }

    constructor ()
      ensures Abs() == NOTHING
    {
      context, harness, cfg, stable, all, descriptors, lastName := None, None, 0, 0, 0, 0, None;
      cfgKeys, stableKeys, allKeys, constants := {}, {}, {}, {};
    }

    method Push(t: Target) returns (ok: bool)
      modifies this
      ensures PushRow(old(Abs()), t) == if ok then Some(Abs()) else None
    {
      match t {
      case Context(header) =>
        var present := context.Some?;
        context := Some(header);
        return !present;
      case Cfg(row) =>
        if context.None? || row.ordinal != cfg || cfg >= context.value.cfgEntries || (row.name, row.value) in cfgKeys {
          return false;
        }
        cfgKeys := cfgKeys + {(row.name, row.value)};
        cfg := cfg + 1;
      case Feature(row) =>
        if context.None? {
          return false;
        }
        var count := if row.stable then stable else all;
        var limit := if row.stable then context.value.stableEntries else context.value.allEntries;
        var keys := if row.stable then stableKeys else allKeys;
        if row.ordinal != count || count >= limit || row.name in keys {
          return false;
        }
        if row.stable {
          stableKeys, stable := keys + {row.name}, count + 1;
        } else {
          allKeys, all := keys + {row.name}, count + 1;
        }
      case Entry(header) =>
        var present := harness.Some?;
        harness := Some(header);
        return !present;
      case Descriptor(row) =>
        if harness.None? || row.ordinal != descriptors || descriptors >= harness.value.tableEntries
           || (lastName.Some? && !Before(lastName.value, row.name))
           || row.descriptorType != harness.value.descriptorType || !row.constant.SameCrate(harness.value.entry)
           || row.constant.defPathHash in constants {
          return false;
        }
        constants := constants + {row.constant.defPathHash};
        lastName := Some(row.name);
        descriptors := descriptors + 1;
      case _ =>
      }
      return true;
    }

    method Finish(domain: Domain, t: Terminal) returns (ok: bool)
      ensures ok <==> FinishOk(Abs(), domain, t)
    {
      if domain.LocalHir? {
        return true;
      }
      var contextGap, harnessGap := false, false;
      for i := 0 to |t.gaps|
        invariant contextGap <==> exists j :: 0 <= j < i && ContextGap(t.gaps[j])
        invariant harnessGap <==> exists j :: 0 <= j < i && HarnessGap(t.gaps[j])
      {
        contextGap := contextGap || ContextGap(t.gaps[i]);
        harnessGap := harnessGap || HarnessGap(t.gaps[i]);
      }
      if !CompleteContext(Abs()) && t.stop.EndOfDomain? && !contextGap {
        return false;
      }
      return !(domain.WithHarness? && !CompleteHarness(Abs()) && t.stop.EndOfDomain? && !harnessGap);
    }
  }

  // ----- the rows of one page -----

  method ReadDefinitions(from: nat, rows: seq<Definition>) returns (ok: bool, count: nat)
    ensures ok <==> DefinitionsNumbered(from, rows)
    ensures ok ==> count == from + |rows|
  {
    count := from;
    for i := 0 to |rows|
      invariant DefinitionsNumbered(from, rows[..i]) && count == from + i
    {
      if rows[i].ordinal != count {
        return false, count;
      }
      count := count + 1;
    }
    assert rows[..|rows|] == rows;
    return true, count;
  }

  lemma OneMoreReference(rs: seq<Reference>, rows: seq<Reference>, i: nat)
    requires i < |rows| && WellFormed(Targets(rs + rows[..i]))
    ensures PushRow(StateOf(Targets(rs + rows[..i])), rows[i].target)
         == if WellFormed(Targets(rs + rows[..i + 1])) then Some(StateOf(Targets(rs + rows[..i + 1]))) else None
    ensures WellFormed(Targets(rs + rows)) ==> WellFormed(Targets(rs + rows[..i + 1]))
  {
    hide WellFormed, StateOf, PushRow;
    PushCheck(Targets(rs + rows[..i]), rows[i].target);
    assert Targets(rs + rows[..i + 1]) == Targets(rs + rows[..i]) + [rows[i].target];
    if WellFormed(Targets(rs + rows)) {
      WellFormedPrefixes(Targets(rs + rows), |rs| + i + 1);
      assert Targets(rs + rows)[..|rs| + i + 1] == Targets(rs + rows[..i + 1]);
    }
  }

  method ReadReferences(state: ObservedStreamState, ghost rs: seq<Reference>, from: nat, rows: seq<Reference>)
    returns (ok: bool, count: nat)
    requires WellFormed(Targets(rs)) && state.Abs() == StateOf(Targets(rs))
    modifies state
    ensures ok <==> WellFormed(Targets(rs + rows)) && ReferencesNumbered(from, rows)
    ensures ok ==> count == from + |rows| && state.Abs() == StateOf(Targets(rs + rows))
  {
    hide WellFormed, StateOf, PushRow, Targets;
    count := from;
    assert rs + rows[..0] == rs;
    for i := 0 to |rows|
      invariant WellFormed(Targets(rs + rows[..i])) && state.Abs() == StateOf(Targets(rs + rows[..i]))
      invariant (forall j :: 0 <= j < i ==> rows[j].ordinal == from + j) && count == from + i
    {
      OneMoreReference(rs, rows, i);
      var pushed := state.Push(rows[i].target);
      if !pushed || rows[i].ordinal != count {
        return false, count;
      }
      count := count + 1;
    }
    assert rows[..|rows|] == rows;
    return true, count;
  }

  /** The map of sources holds, for every location read so far, the one input of its key. */
  ghost predicate Represents(sources: map<SourceKey, Input>, known: set<Location>) {
    (forall l :: l in known ==> KeyOf(l) in sources && sources[KeyOf(l)] == l.input)
    && (forall key :: key in sources ==> exists l :: l in known && KeyOf(l) == key)
  }

  lemma RepresentsAgree(sources: map<SourceKey, Input>, known: set<Location>, l: Location)
    requires Represents(sources, known)
    ensures Agree(known)
    ensures Agree(known + {l}) <==> (KeyOf(l) in sources ==> sources[KeyOf(l)] == l.input)
    ensures Agree(known + {l}) ==> Represents(sources[KeyOf(l) := l.input], known + {l})
  {
    if KeyOf(l) in sources {
      var other :| other in known && KeyOf(other) == KeyOf(l);
      if Agree(known + {l}) { assert other.input == l.input; }
    }
    if KeyOf(l) in sources ==> sources[KeyOf(l)] == l.input {
      var grown := sources[KeyOf(l) := l.input];
      forall a | a in known + {l} ensures KeyOf(a) in grown && grown[KeyOf(a)] == a.input {
        if a in known { assert KeyOf(a) in sources; }
      }
      forall key | key in grown ensures exists a :: a in known + {l} && KeyOf(a) == key {
        if key in sources {
          var a :| a in known && KeyOf(a) == key;
          assert a in known + {l};
        } else {
          assert l in known + {l};
        }
      }
    }
  }

  lemma AgreeSubset(a: set<Location>, b: set<Location>)
    requires a <= b && Agree(b)
    ensures Agree(a)
  {
  }

  method ReadLocations(sources: map<SourceKey, Input>, ghost known: set<Location>, locations: seq<Option<Location>>)
    returns (ok: bool, grown: map<SourceKey, Input>)
    requires Represents(sources, known)
    ensures ok <==> Agree(known + Listed(locations))
    ensures ok ==> Represents(grown, known + Listed(locations))
  {
    hide Represents, Agree;
    grown := sources;
    assert known + Listed([]) == known;
    for i := 0 to |locations|
      invariant Represents(grown, known + Listed(locations[..i]))
    {
      assert locations[..i + 1][..i] == locations[..i];
      ListedPrefix(locations, i + 1);
      if locations[i].Some? {
        var l := locations[i].value;
        ghost var now := known + Listed(locations[..i]);
        RepresentsAgree(grown, now, l);
        assert known + Listed(locations[..i + 1]) == now + {l};
        if KeyOf(l) in grown && grown[KeyOf(l)] != l.input {
          if Agree(known + Listed(locations)) { AgreeSubset(now + {l}, known + Listed(locations)); }
          return false, grown;
        }
        grown := grown[KeyOf(l) := l.input];
      } else {
        assert known + Listed(locations[..i + 1]) == known + Listed(locations[..i]);
      }
    }
    assert locations[..|locations|] == locations;
    RepresentsMeansAgree(grown, known + Listed(locations));
    return true, grown;
  }

  lemma RepresentsMeansAgree(sources: map<SourceKey, Input>, known: set<Location>)
    requires Represents(sources, known)
    ensures Agree(known)
  {
  }

  function Listed(locations: seq<Option<Location>>): set<Location> {
    if locations == [] then {}
    else
      Listed(locations[..|locations| - 1])
      + if locations[|locations| - 1].Some? then {locations[|locations| - 1].value} else {}
  }

  lemma {:induction false} ListedPrefix(locations: seq<Option<Location>>, n: nat)
    requires n <= |locations|
    ensures Listed(locations[..n]) <= Listed(locations)
    decreases |locations|
  {
    if n == |locations| {
      assert locations[..n] == locations;
    } else {
      ListedPrefix(locations[..|locations| - 1], n);
      assert locations[..|locations| - 1][..n] == locations[..n];
    }
  }

  function PageLocations(page: Page): seq<Option<Location>> {
    seq(|page.definitions|, i requires 0 <= i < |page.definitions| => page.definitions[i].location)
    + seq(|page.references|, i requires 0 <= i < |page.references| => page.references[i].location)
  }

  lemma {:induction false} ListedMember(locations: seq<Option<Location>>, l: Location)
    ensures l in Listed(locations) <==> exists i :: 0 <= i < |locations| && locations[i] == Some(l)
    decreases |locations|
  {
    if locations != [] { ListedMember(locations[..|locations| - 1], l); }
  }

  lemma PageLocationsMeaning(page: Page)
    ensures Listed(PageLocations(page)) == DefinitionLocations(page.definitions) + ReferenceLocations(page.references)
  {
    hide Listed;
    var ls, ds, rs := PageLocations(page), page.definitions, page.references;
    assert forall i :: 0 <= i < |ds| ==> ls[i] == ds[i].location;
    assert forall i :: 0 <= i < |rs| ==> ls[|ds| + i] == rs[i].location;
    forall l ensures l in Listed(ls) <==> l in DefinitionLocations(ds) + ReferenceLocations(rs) {
      ListedMember(ls, l);
      if l in DefinitionLocations(ds) {
        var i :| 0 <= i < |ds| && ds[i].location == Some(l);
        assert ls[i] == Some(l);
      }
      if l in ReferenceLocations(rs) {
        var i :| 0 <= i < |rs| && rs[i].location == Some(l);
        assert ls[|ds| + i] == Some(l);
      }
    }
  }

  // ----- the whole stream -----

  /** What the loop knows after `n` pages. */
  ghost predicate Read(checks: Checks, s: SemanticStream, n: nat)
    requires n <= |s.pages|
  {
    PagesOk(checks, s.binding, s.pages[..n]) && RowsOk(AllDefinitions(s.pages[..n]), AllReferences(s.pages[..n]))
  }

  lemma OneMorePage(checks: Checks, s: SemanticStream, n: nat)
    requires n < |s.pages|
    ensures AllDefinitions(s.pages[..n + 1]) == AllDefinitions(s.pages[..n]) + s.pages[n].definitions
    ensures AllReferences(s.pages[..n + 1]) == AllReferences(s.pages[..n]) + s.pages[n].references
    ensures Read(checks, s, n + 1) <==>
            && Read(checks, s, n) && PageOk(checks, s.pages[n]) && s.pages[n].ordinal == n
            && s.pages[n].binding == s.binding
            && RowsOk(AllDefinitions(s.pages[..n + 1]), AllReferences(s.pages[..n + 1]))
  {
    hide PageOk, WellFormed, DefinitionLocations, ReferenceLocations;
    var before, after := s.pages[..n], s.pages[..n + 1];
    assert after[..n] == before && after[n] == s.pages[n];
    if PagesOk(checks, s.binding, after) {
      forall i | 0 <= i < n ensures PageOk(checks, before[i]) && before[i].ordinal == i
        && before[i].binding == s.binding {
        assert after[i] == before[i];
      }
      assert PageOk(checks, after[n]);
    }
    RowsOkGrow(AllDefinitions(before), s.pages[n].definitions, AllReferences(before), s.pages[n].references);
  }

  lemma {:induction false} ReadPrefix(checks: Checks, s: SemanticStream, n: nat, m: nat)
    requires n <= m <= |s.pages| && Read(checks, s, m)
    ensures Read(checks, s, n)
    decreases m
  {
    hide Read;
    if n < m {
      OneMorePage(checks, s, m - 1);
      ReadPrefix(checks, s, n, m - 1);
    }
  }

  lemma AcceptedIsRead(checks: Checks, s: SemanticStream, n: nat)
    requires n <= |s.pages| && Accepts(checks, s)
    ensures Read(checks, s, n)
  {
    hide PagesOk, RowsOk;
    assert s.pages[..|s.pages|] == s.pages;
    ReadPrefix(checks, s, n, |s.pages|);
  }

  /** One page: its own checks, its place, its rows against the state, its sources. */
  method ReadPage(checks: Checks, ghost s: SemanticStream, page: Page, n: nat, binding: Binding,
                  state: ObservedStreamState, definitions: nat, references: nat, sources: map<SourceKey, Input>)
    returns (ok: bool, moreDefinitions: nat, moreReferences: nat, moreSources: map<SourceKey, Input>)
    requires n < |s.pages| && page == s.pages[n] && binding == s.binding && Read(checks, s, n)
    requires definitions == |AllDefinitions(s.pages[..n])| && references == |AllReferences(s.pages[..n])|
    requires state.Abs() == StateOf(Targets(AllReferences(s.pages[..n])))
    requires Represents(sources,
                        DefinitionLocations(AllDefinitions(s.pages[..n]))
                            + ReferenceLocations(AllReferences(s.pages[..n])))
    modifies state
    ensures ok <==> Read(checks, s, n + 1)
    ensures ok ==> moreDefinitions == |AllDefinitions(s.pages[..n + 1])|
    ensures ok ==> moreReferences == |AllReferences(s.pages[..n + 1])|
    ensures ok ==> state.Abs() == StateOf(Targets(AllReferences(s.pages[..n + 1])))
    ensures ok ==> Represents(moreSources,
                              DefinitionLocations(AllDefinitions(s.pages[..n + 1]))
                                  + ReferenceLocations(AllReferences(s.pages[..n + 1])))
  {
    hide Read, PageOk, WellFormed, StateOf, Represents, DefinitionLocations, ReferenceLocations, Agree, AllDefinitions,
      AllReferences, DefinitionsNumbered, ReferencesNumbered, RowsOk, Targets, Listed, PageLocations, PagesOk;
    ghost var ds, rs := AllDefinitions(s.pages[..n]), AllReferences(s.pages[..n]);
    ReadIsWellFormed(checks, s, n);
    OneMorePage(checks, s, n);
    RowsGrow(ds, page.definitions, rs, page.references);
    moreDefinitions, moreReferences, moreSources := definitions, references, sources;
    ok := ValidatePage(checks, page);
    if !ok || page.ordinal != n || page.binding != binding {
      return false, moreDefinitions, moreReferences, moreSources;
    }
    ok, moreDefinitions := ReadDefinitions(definitions, page.definitions);
    if !ok {
      return;
    }
    ok, moreReferences := ReadReferences(state, rs, references, page.references);
    if !ok {
      return;
    }
    PageLocationsMeaning(page);
    ok, moreSources := ReadLocations(sources, DefinitionLocations(ds) + ReferenceLocations(rs), PageLocations(page));
  }

  lemma ReadIsWellFormed(checks: Checks, s: SemanticStream, n: nat)
    requires n <= |s.pages| && Read(checks, s, n)
    ensures RowsOk(AllDefinitions(s.pages[..n]), AllReferences(s.pages[..n]))
    ensures WellFormed(Targets(AllReferences(s.pages[..n])))
  {
  }

  lemma RowsGrow(ds: seq<Definition>, moreDs: seq<Definition>, rs: seq<Reference>, moreRs: seq<Reference>)
    requires RowsOk(ds, rs)
    ensures RowsOk(ds + moreDs, rs + moreRs) <==>
            && DefinitionsNumbered(|ds|, moreDs) && ReferencesNumbered(|rs|, moreRs) && WellFormed(Targets(rs + moreRs))
            && Agree(DefinitionLocations(ds) + ReferenceLocations(rs)
                     + (DefinitionLocations(moreDs) + ReferenceLocations(moreRs)))
    ensures DefinitionLocations(ds + moreDs) + ReferenceLocations(rs + moreRs)
         == DefinitionLocations(ds) + ReferenceLocations(rs)
             + (DefinitionLocations(moreDs) + ReferenceLocations(moreRs))
  {
    hide WellFormed, DefinitionLocations, ReferenceLocations, Agree, DefinitionsNumbered, ReferencesNumbered, RowsOk;
    RowsOkGrow(ds, moreDs, rs, moreRs);
    DefinitionLocationsGrow(ds, moreDs);
    ReferenceLocationsGrow(rs, moreRs);
    var a, b, c :=
      DefinitionLocations(ds) + ReferenceLocations(rs), DefinitionLocations(moreDs), ReferenceLocations(moreRs);
    assert a + b + c == a + (b + c);
  }

  method Validate(checks: Checks, s: SemanticStream) returns (ok: bool)
    ensures ok <==> Accepts(checks, s)
  {
    if !checks.binding(s.binding) || checks.streamSize(s) > MAX_STREAM_BYTES
       || |s.pages| > checks.streamSize(s) / MIN_PAGE_BYTES {
      return false;
    }
    var definitions, references := 0, 0;
    var state := new ObservedStreamState();
    var sources: map<SourceKey, Input> := map[];
    var n := 0;
    ReadNothing(checks, s);
    while n < |s.pages|
      invariant 0 <= n <= |s.pages| && Read(checks, s, n)
      invariant definitions == |AllDefinitions(s.pages[..n])| && references == |AllReferences(s.pages[..n])|
      invariant state.Abs() == StateOf(Targets(AllReferences(s.pages[..n])))
      invariant Represents(sources,
                           DefinitionLocations(AllDefinitions(s.pages[..n]))
                               + ReferenceLocations(AllReferences(s.pages[..n])))
    {
      hide *;
      var read;
      read, definitions, references, sources :=
        ReadPage(checks, s, s.pages[n], n, s.binding, state, definitions, references, sources);
      if !read {
        if Accepts(checks, s) { AcceptedIsRead(checks, s, n + 1); }
        return false;
      }
      n := n + 1;
    }
    assert s.pages[..n] == s.pages;
    if s.terminal.None? {
      return true;
    }
    ok := CheckTerminal(s, s.terminal.value, definitions, references, state);
  }

  lemma ReadNothing(checks: Checks, s: SemanticStream)
    ensures Read(checks, s, 0) && StateOf(Targets(AllReferences(s.pages[..0]))) == NOTHING
    ensures |AllDefinitions(s.pages[..0])| == 0 && |AllReferences(s.pages[..0])| == 0
    ensures Represents(map[],
                       DefinitionLocations(AllDefinitions(s.pages[..0]))
                           + ReferenceLocations(AllReferences(s.pages[..0])))
  {
    assert s.pages[..0] == [] && Targets([]) == [];
  }

  method CheckTerminal(s: SemanticStream, t: Terminal, definitions: nat, references: nat, state: ObservedStreamState)
    returns (ok: bool)
    ensures ok <==> TerminalOk(s, t, definitions, references, state.Abs())
  {
    var visited := t.visitedDefinitions + t.visitedReferences;
    if visited >= 0x1_0000_0000_0000_0000 {
      return false;
    }
    var emitted := definitions + references;
    if t.binding != s.binding || t.emittedPages != |s.pages| || t.emittedDefinitions != definitions
       || t.emittedReferences != references
       || t.visitedDefinitions < definitions || t.visitedReferences < references
       || t.unsupported > visited || visited > 3 * MAX_TRAVERSAL_WORK
       || t.omitted != Omitted(visited, emitted)
       || t.events > MAX_TRAVERSAL_WORK || t.sourceWork > MAX_SOURCE_WORK_BYTES || |t.gaps| > MAX_GAPS
       || (!t.stop.EndOfDomain? && t.gaps == []) || (t.omitted != 0 && t.gaps == []) {
      return false;
    }
    ok := state.Finish(s.binding.domain, t);
  }

  // ----- what acceptance means to a reader -----

  /** Every table is as long as its header said, and stable features are features. */
  ghost predicate ContextComplete(ts: seq<Target>) {
    |ContextRows(ts)| == 1 &&
    var header := ContextRows(ts)[0];
    && |CfgRows(ts)| == header.cfgEntries && |FeatureRows(ts, true)| == header.stableEntries
    && |FeatureRows(ts, false)| == header.allEntries
    && forall i :: 0 <= i < |FeatureRows(ts, true)| ==>
         exists j :: 0 <= j < |FeatureRows(ts, false)| && FeatureRows(ts, false)[j].1 == FeatureRows(ts, true)[i].1
  }

  ghost predicate HarnessComplete(ts: seq<Target>) {
    |EntryRows(ts)| == 1 && |DescriptorRows(ts)| == EntryRows(ts)[0].tableEntries
  }

  lemma ContextCompleteFrom(ts: seq<Target>)
    requires WellFormed(ts) && CompleteContext(StateOf(ts))
    ensures ContextComplete(ts)
  {
    var stable, all := FeatureRows(ts, true), FeatureRows(ts, false);
    forall i | 0 <= i < |stable| ensures exists j :: 0 <= j < |all| && all[j].1 == stable[i].1 {
      KeysMember(stable, stable[i].1);
      KeysMember(all, stable[i].1);
    }
  }

  lemma ContextCompleteTo(ts: seq<Target>)
    requires ContextComplete(ts)
    ensures CompleteContext(StateOf(ts))
  {
    var stable, all := FeatureRows(ts, true), FeatureRows(ts, false);
    forall key | key in Keys(stable) ensures key in Keys(all) {
      KeysMember(stable, key);
      KeysMember(all, key);
      var i :| 0 <= i < |stable| && stable[i].1 == key;
      var j :| 0 <= j < |all| && all[j].1 == stable[i].1;
    }
  }

  lemma HarnessCompleteTo(ts: seq<Target>)
    requires HarnessComplete(ts)
    ensures CompleteHarness(StateOf(ts))
  {
    hide Table, DescriptorTable;
  }

  /** The stream says that it holds all its domain has of a kind: it ended there and notes none of these gaps. */
  predicate Vouches(t: Terminal, gaps: set<SemanticGap>) {
    t.stop == EndOfDomain && forall i :: 0 <= i < |t.gaps| ==> t.gaps[i] !in gaps
  }

  const CONTEXT_GAPS := {CompilerContextUnavailable, CompilerContextUnsupportedValue}

  const HARNESS_GAPS := {
    TestHarnessUnavailable, TestHarnessCustomRunner, TestHarnessUnsupportedDescriptor, TestHarnessOwnerMismatch,
    TestHarnessCrateSourceUnavailable, TestHarnessOrderingUnknown}

  /**
   A terminal is accepted if and only if it counts what was emitted, was visited and is missing, stays within the work
   bounds, notes a gap when it stopped early or misses rows, and the tables are whole wherever it vouches for them.
   */
  lemma TerminalAcceptedIff(s: SemanticStream, t: Terminal, ds: seq<Definition>, rs: seq<Reference>)
    requires WellFormed(Targets(rs))
    ensures var visited := t.visitedDefinitions + t.visitedReferences;
            TerminalOk(s, t, |ds|, |rs|, StateOf(Targets(rs))) <==>
              && t.binding == s.binding && t.emittedPages == |s.pages|
              && t.emittedDefinitions == |ds| <= t.visitedDefinitions
              && t.emittedReferences == |rs| <= t.visitedReferences
              && t.omitted + |ds| + |rs| == visited && t.unsupported <= visited <= 3_000_000
              && t.events <= 1_000_000 && t.sourceWork <= 33554432 && |t.gaps| <= 16
              && (t.gaps == [] ==> t.stop == EndOfDomain && t.omitted == 0)
              && (s.binding.domain != LocalHir && Vouches(t, CONTEXT_GAPS) ==> ContextComplete(Targets(rs)))
              && (s.binding.domain == WithHarness && Vouches(t, HARNESS_GAPS) ==> HarnessComplete(Targets(rs)))
  {
    hide WellFormed, StateOf, Targets, ContextComplete, HarnessComplete, CompleteContext, CompleteHarness;
    var ts := Targets(rs);
    assert CompleteContext(StateOf(ts)) <==> ContextComplete(ts) by {
      if CompleteContext(StateOf(ts)) { ContextCompleteFrom(ts); }
      if ContextComplete(ts) { ContextCompleteTo(ts); }
    }
    assert CompleteHarness(StateOf(ts)) <==> HarnessComplete(ts) by {
      if CompleteHarness(StateOf(ts)) { HarnessFrom(ts); }
      if HarnessComplete(ts) { HarnessCompleteTo(ts); }
    }
    GapsNamed(t);
  }

  /** A page that passes alone, at its place in the stream. */
  predicate InPlace(checks: Checks, s: SemanticStream, i: nat)
    requires i < |s.pages|
  {
    var page := s.pages[i];
    && page.ordinal == i && page.binding == s.binding && |page.definitions| <= 64 && |page.references| <= 64
    && |page.gaps| <= 16 && checks.pageSize(page) <= 24576
    && (forall d :: d in page.definitions ==> checks.definition(d))
    && (forall r :: r in page.references ==> ReferenceOk(checks, s.binding.domain, r))
  }

  lemma InPlaceIff(checks: Checks, s: SemanticStream, i: nat)
    requires i < |s.pages| && checks.binding(s.binding)
    ensures InPlace(checks, s, i) <==>
            PageOk(checks, s.pages[i]) && s.pages[i].ordinal == i && s.pages[i].binding == s.binding
  {
    hide ReferenceOk;
    var page := s.pages[i];
    assert forall k :: 0 <= k < |page.definitions| ==> page.definitions[k] in page.definitions;
    assert forall k :: 0 <= k < |page.references| ==> page.references[k] in page.references;
  }

  /**
   What is accepted: a stream of no more pages than fit its bounded size at 128 bytes each, every page in its place,
   rows numbered throughout, tables well formed, one input per version, root and path, and a terminal that is accepted.
   */
  lemma AcceptedIff(checks: Checks, s: SemanticStream)
    ensures var ds, rs := AllDefinitions(s.pages), AllReferences(s.pages);
            Accepts(checks, s) <==>
              && checks.binding(s.binding) && 128 * |s.pages| <= checks.streamSize(s) <= 8388608
              && (forall i :: 0 <= i < |s.pages| ==> InPlace(checks, s, i))
              && (forall i :: 0 <= i < |ds| ==> ds[i].ordinal == i)
              && (forall i :: 0 <= i < |rs| ==> rs[i].ordinal == i)
              && WellFormed(Targets(rs)) && Agree(DefinitionLocations(ds) + ReferenceLocations(rs))
              && (s.terminal.Some? ==> TerminalOk(s, s.terminal.value, |ds|, |rs|, StateOf(Targets(rs))))
  {
    hide WellFormed, TerminalOk, StateOf, Targets, AllDefinitions, AllReferences, DefinitionLocations,
      ReferenceLocations, ReferenceOk, PageOk, InPlace, Agree;
    if checks.binding(s.binding) {
      forall i | 0 <= i < |s.pages| { InPlaceIff(checks, s, i); }
    }
    assert |s.pages| <= checks.streamSize(s) / 128 <==> 128 * |s.pages| <= checks.streamSize(s);
  }

  lemma GapsNamed(t: Terminal)
    ensures (exists i :: 0 <= i < |t.gaps| && ContextGap(t.gaps[i])) <==>
            exists i :: 0 <= i < |t.gaps| && t.gaps[i] in CONTEXT_GAPS
    ensures (exists i :: 0 <= i < |t.gaps| && HarnessGap(t.gaps[i])) <==>
            exists i :: 0 <= i < |t.gaps| && t.gaps[i] in HARNESS_GAPS
  {
  }

  /**
   A stream that says it reached the end with nothing missing is complete: everything visited was emitted, and every
   table is whole.
   */
  lemma EndWithoutGapsIsComplete(checks: Checks, s: SemanticStream)
    requires Accepts(checks, s) && s.terminal.Some? && s.terminal.value.stop.EndOfDomain? && s.terminal.value.gaps == []
    ensures var t, ds, rs := s.terminal.value, AllDefinitions(s.pages), AllReferences(s.pages);
            && t.omitted == 0 && t.visitedDefinitions == |ds| && t.visitedReferences == |rs|
            && (!s.binding.domain.LocalHir? ==> ContextComplete(Targets(rs)))
            && (s.binding.domain.WithHarness? ==> HarnessComplete(Targets(rs)))
  {
    hide PagesOk, WellFormed, DefinitionsNumbered, ReferencesNumbered, Agree;
    var ts := Targets(AllReferences(s.pages));
    if !s.binding.domain.LocalHir? { ContextCompleteFrom(ts); }
    if s.binding.domain.WithHarness? { HarnessFrom(ts); }
  }

  lemma HarnessFrom(ts: seq<Target>)
    requires WellFormed(ts) && CompleteHarness(StateOf(ts))
    ensures HarnessComplete(ts)
  {
    hide EntryRows, DescriptorRows, Table, DescriptorTable;
  }

  lemma {:induction false} RowsPerPage(checks: Checks, binding: Binding, pages: seq<Page>)
    requires PagesOk(checks, binding, pages)
    ensures |AllDefinitions(pages)| <= MAX_PAGE_ROWS * |pages| && |AllReferences(pages)| <= MAX_PAGE_ROWS * |pages|
    decreases |pages|
  {
    if pages != [] {
      RowsPerPage(checks, binding, pages[..|pages| - 1]);
      assert PageOk(checks, pages[|pages| - 1]);
    }
  }

  /** The emitted counters of an accepted stream stay far inside their machine width. */
  lemma EmittedNeverOverflows(checks: Checks, s: SemanticStream)
    requires Accepts(checks, s)
    ensures |s.pages| <= 65536
    ensures |AllDefinitions(s.pages)| + |AllReferences(s.pages)| <= 8388608
  {
    hide WellFormed, Agree;
    RowsPerPage(checks, s.binding, s.pages);
  }

  /**
   A corollary of what acceptance is: how rows are cut into pages does not matter beyond the checks each page passes
   alone.
   */
  lemma PaginationIrrelevant(checks: Checks, s: SemanticStream, t: SemanticStream)
    requires SizeOk(checks, s) && SizeOk(checks, t) && s.binding == t.binding
    requires PagesOk(checks, s.binding, s.pages) && PagesOk(checks, t.binding, t.pages)
    requires AllDefinitions(s.pages) == AllDefinitions(t.pages) && AllReferences(s.pages) == AllReferences(t.pages)
    requires s.terminal.None? <==> t.terminal.None?
    requires s.terminal.Some? ==>
      t.terminal.value == s.terminal.value.(emittedPages := t.terminal.value.emittedPages)
      && (s.terminal.value.emittedPages == |s.pages| <==> t.terminal.value.emittedPages == |t.pages|)
    ensures Accepts(checks, s) <==> Accepts(checks, t)
  {
    hide RowsOk, SizeOk, PagesOk, StateOf, Targets, AllDefinitions, AllReferences;
  }

  lemma {:induction false} NoObservationsIn(checks: Checks, binding: Binding, pages: seq<Page>, i: nat)
    requires PagesOk(checks, binding, pages) && binding.domain.LocalHir? && i < |AllReferences(pages)|
    ensures !Observational(AllReferences(pages)[i].target)
    decreases |pages|
  {
    var front := pages[..|pages| - 1];
    if i < |AllReferences(front)| {
      NoObservationsIn(checks, binding, front, i);
    } else {
      assert PageOk(checks, pages[|pages| - 1]);
      assert ReferenceOk(checks, binding.domain, pages[|pages| - 1].references[i - |AllReferences(front)|]);
    }
  }

  /** A stream of the plain domain carries no session rows at all. */
  lemma PlainDomainHasNoSessionRows(checks: Checks, s: SemanticStream)
    requires Accepts(checks, s) && s.binding.domain.LocalHir?
    ensures forall i :: 0 <= i < |AllReferences(s.pages)| ==> !Observational(AllReferences(s.pages)[i].target)
  {
    hide RowsOk, Observational;
    forall i | 0 <= i < |AllReferences(s.pages)| ensures !Observational(AllReferences(s.pages)[i].target) {
      NoObservationsIn(checks, s.binding, s.pages, i);
    }
  }
}
