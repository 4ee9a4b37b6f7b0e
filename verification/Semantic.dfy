/**
 A paged semantic stream and its validation: page by page, row by row, against one running
 state. Acceptance depends on the pages only through checks of each page alone and the rows
 they concatenate to.
 */
module Semantic {
  import opened Bytes
  import opened ObservedRows

  const MAX_PAGE_BYTES := 24 * 1024
  const MAX_PAGE_ROWS := 64
  const MAX_STREAM_BYTES := 8 * 1024 * 1024
  const MIN_PAGE_BYTES := 128
  const MAX_TRAVERSAL_WORK := 1_000_000
  const MAX_SOURCE_WORK_BYTES := 32 * 1024 * 1024
  const MAX_GAPS := 16

  type u64 = n: nat | n < 0x1_0000_0000_0000_0000

  datatype Domain = LocalHir | WithContext | WithHarness

  datatype Binding = Binding(content: string, domain: Domain)

  datatype Input = Input(root: nat, relative: string, bytes: nat, fingerprint: string)

  datatype Location = Location(input: Input, version: nat, range: (nat, nat, nat, nat))

  datatype Definition = Definition(ordinal: u64, content: string, location: Option<Location>)

  datatype Reference = Reference(ordinal: u64, content: string, role: string, target: Target,
                                 location: Option<Location>)

  datatype SemanticGap =
    | CompilerContextUnavailable | CompilerContextUnsupportedValue
    | TestHarnessUnavailable | TestHarnessCustomRunner | TestHarnessUnsupportedDescriptor
    | TestHarnessOwnerMismatch | TestHarnessCrateSourceUnavailable | TestHarnessOrderingUnknown
    | OtherGap(code: nat)

  datatype Page = Page(binding: Binding, ordinal: u64, definitions: seq<Definition>, references: seq<Reference>,
                       gaps: seq<SemanticGap>)

  datatype Stop = EndOfDomain | WorkLimit | OutputLimit | SourceWorkLimit | PublicationInterrupted

  datatype Terminal = Terminal(
    binding: Binding, stop: Stop, events: u64, visitedDefinitions: u64, visitedReferences: u64, unsupported: u64,
    omitted: u64,
    emittedDefinitions: u64, emittedReferences: u64, emittedPages: u64, sourceWork: u64, gaps: seq<SemanticGap>)

  datatype SemanticStream = SemanticStream(binding: Binding, pages: seq<Page>, terminal: Option<Terminal>)

  /** The field-range checks of single rows and the encoded sizes, which this model leaves open. */
  datatype Checks = Checks(
    binding: Binding -> bool, definition: Definition -> bool, reference: Reference -> bool, observation: Target -> bool,
    pageSize: Page -> nat, streamSize: SemanticStream -> nat)

  // ----- one page alone -----

  predicate Observational(t: Target) {
    t.Context? || t.Cfg? || t.Feature? || t.Entry? || t.Descriptor?
  }

  predicate Harness(t: Target) {
    t.Entry? || t.Descriptor?
  }

  function ObservedRole(t: Target): string {
    match t
    case Context(_) => "compiler_context"
    case Cfg(_) => "effective_cfg"
    case Feature(_) => "target_feature"
    case Entry(_) => "test_harness_entry"
    case Descriptor(_) => "test_harness_descriptor"
    case _ => ""
  }

  /** `validate_observed_target`: None is an error, Some tells whether the row is an observation. */
  function ObservedTarget(checks: Checks, domain: Domain, row: Reference): Option<bool> {
    if !Observational(row.target) then Some(false)
    else if !checks.observation(row.target) then None
    else if domain.LocalHir? || (Harness(row.target) && !domain.WithHarness?)
        || row.role != ObservedRole(row.target) then
      None
    else if !Harness(row.target) && row.location.Some? then None
    else Some(true)
  }

  predicate PlainRole(role: string) {
    role in ["path", "call", "method", "field", "binding", "segment", "lifetime", "operator"]
  }

  predicate ReferenceOk(checks: Checks, domain: Domain, row: Reference) {
    var observed := ObservedTarget(checks, domain, row);
    observed.Some? && (observed.value || PlainRole(row.role)) && checks.reference(row)
  }

  /**
   Which reference rows are accepted: plain rows in every domain under one of the plain roles; context, configuration
   and feature rows outside the plain domain, without a location; harness rows in the harness domain only; each
   observation under its own role.
   */
  lemma RowAcceptedIff(checks: Checks, domain: Domain, row: Reference)
    ensures ReferenceOk(checks, domain, row) <==>
              && checks.reference(row)
              && (row.target.Context? ==> row.role == "compiler_context")
              && (row.target.Cfg? ==> row.role == "effective_cfg")
              && (row.target.Feature? ==> row.role == "target_feature")
              && (row.target.Entry? ==> row.role == "test_harness_entry")
              && (row.target.Descriptor? ==> row.role == "test_harness_descriptor")
              && (row.target.Context? || row.target.Cfg? || row.target.Feature? ==>
                    row.location.None? && domain != LocalHir && checks.observation(row.target))
              && (row.target.Entry? || row.target.Descriptor? ==>
                    domain == WithHarness && checks.observation(row.target))
              && (Observational(row.target)
                  || row.role in {"path", "call", "method", "field", "binding", "segment", "lifetime", "operator"})
  {
  }

  predicate PageOk(checks: Checks, page: Page) {
    && checks.binding(page.binding)
    && |page.definitions| <= MAX_PAGE_ROWS && |page.references| <= MAX_PAGE_ROWS && |page.gaps| <= MAX_GAPS
    && checks.pageSize(page) <= MAX_PAGE_BYTES
    && (forall i :: 0 <= i < |page.definitions| ==> checks.definition(page.definitions[i]))
    && (forall i :: 0 <= i < |page.references| ==> ReferenceOk(checks, page.binding.domain, page.references[i]))
  }

  method ValidatePage(checks: Checks, page: Page) returns (ok: bool)
    ensures ok <==> PageOk(checks, page)
  {
    if !checks.binding(page.binding) || |page.definitions| > MAX_PAGE_ROWS || |page.references| > MAX_PAGE_ROWS
       || |page.gaps| > MAX_GAPS || checks.pageSize(page) > MAX_PAGE_BYTES {
      return false;
    }
    for i := 0 to |page.definitions|
      invariant forall j :: 0 <= j < i ==> checks.definition(page.definitions[j])
    {
      if !checks.definition(page.definitions[i]) {
        return false;
      }
    }
    for i := 0 to |page.references|
      invariant forall j :: 0 <= j < i ==> ReferenceOk(checks, page.binding.domain, page.references[j])
    {
      var row := page.references[i];
      var observed := ObservedTarget(checks, page.binding.domain, row);
      if observed.None? {
        return false;
      }
      if (!observed.value && !PlainRole(row.role)) || !checks.reference(row) {
        return false;
      }
    }
    return true;
  }

  // ----- the rows of all pages -----

  function AllDefinitions(pages: seq<Page>): seq<Definition> {
    if pages == [] then [] else AllDefinitions(pages[..|pages| - 1]) + pages[|pages| - 1].definitions
  }

  function AllReferences(pages: seq<Page>): seq<Reference> {
    if pages == [] then [] else AllReferences(pages[..|pages| - 1]) + pages[|pages| - 1].references
  }

  function Targets(rows: seq<Reference>): seq<Target> {
    seq(|rows|, i requires 0 <= i < |rows| => rows[i].target)
  }

  predicate DefinitionsNumbered(from: nat, rows: seq<Definition>) {
    forall i :: 0 <= i < |rows| ==> rows[i].ordinal == from + i
  }

  predicate ReferencesNumbered(from: nat, rows: seq<Reference>) {
    forall i :: 0 <= i < |rows| ==> rows[i].ordinal == from + i
  }

  function DefinitionLocations(rows: seq<Definition>): set<Location> {
    set i | 0 <= i < |rows| && rows[i].location.Some? :: rows[i].location.value
  }

  function ReferenceLocations(rows: seq<Reference>): set<Location> {
    set i | 0 <= i < |rows| && rows[i].location.Some? :: rows[i].location.value
  }

  type SourceKey = (nat, nat, string)

  function KeyOf(l: Location): SourceKey {
    (l.version, l.input.root, l.input.relative)
  }

  /** One input per source version, root and path. */
  predicate Agree(ls: set<Location>) {
    forall a, b :: a in ls && b in ls && KeyOf(a) == KeyOf(b) ==> a.input == b.input
  }

  /** The conditions on the concatenated rows. */
  predicate RowsOk(ds: seq<Definition>, rs: seq<Reference>) {
    && DefinitionsNumbered(0, ds) && ReferencesNumbered(0, rs)
    && WellFormed(Targets(rs))
    && Agree(DefinitionLocations(ds) + ReferenceLocations(rs))
  }

  // ----- the terminal -----

  predicate ContextGap(g: SemanticGap) {
    g.CompilerContextUnavailable? || g.CompilerContextUnsupportedValue?
  }

  predicate HarnessGap(g: SemanticGap) {
    g.TestHarnessUnavailable? || g.TestHarnessCustomRunner? || g.TestHarnessUnsupportedDescriptor?
    || g.TestHarnessOwnerMismatch? || g.TestHarnessCrateSourceUnavailable? || g.TestHarnessOrderingUnknown?
  }

  predicate CompleteContext(s: ObsState) {
    && s.context.Some?
    && s.cfg == s.context.value.cfgEntries && s.stable == s.context.value.stableEntries
    && s.all == s.context.value.allEntries
    && s.stableKeys <= s.allKeys
  }

  predicate CompleteHarness(s: ObsState) {
    s.harness.Some? && s.descriptors == s.harness.value.tableEntries
  }

  predicate FinishOk(s: ObsState, domain: Domain, t: Terminal) {
    domain.LocalHir?
    || (&& (CompleteContext(s) || !t.stop.EndOfDomain? || exists i :: 0 <= i < |t.gaps| && ContextGap(t.gaps[i]))
        && (domain.WithHarness? ==>
              CompleteHarness(s) || !t.stop.EndOfDomain? || exists i :: 0 <= i < |t.gaps| && HarnessGap(t.gaps[i])))
  }

  /** Rows the traversal saw but did not emit; only ever asked for when at least as many were seen. */
  function Omitted(visited: nat, emitted: nat): nat
    requires emitted <= visited
  {
    visited - emitted
  }

  predicate TerminalOk(s: SemanticStream, t: Terminal, definitions: nat, references: nat, state: ObsState) {
    var visited := t.visitedDefinitions + t.visitedReferences;
    && visited < 0x1_0000_0000_0000_0000
    && t.binding == s.binding && t.emittedPages == |s.pages|
    && t.emittedDefinitions == definitions && t.emittedReferences == references
    && t.visitedDefinitions >= definitions && t.visitedReferences >= references
    && t.unsupported <= visited && visited <= 3 * MAX_TRAVERSAL_WORK
    && t.omitted == Omitted(visited, definitions + references)
    && t.events <= MAX_TRAVERSAL_WORK && t.sourceWork <= MAX_SOURCE_WORK_BYTES && |t.gaps| <= MAX_GAPS
    && (t.stop.EndOfDomain? || t.gaps != []) && (t.omitted == 0 || t.gaps != [])
    && FinishOk(state, s.binding.domain, t)
  }

  // ----- acceptance -----

  predicate PagesOk(checks: Checks, binding: Binding, pages: seq<Page>) {
    forall i :: 0 <= i < |pages| ==> PageOk(checks, pages[i]) && pages[i].ordinal == i && pages[i].binding == binding
  }

  predicate SizeOk(checks: Checks, s: SemanticStream) {
    checks.binding(s.binding) && checks.streamSize(s) <= MAX_STREAM_BYTES
      && |s.pages| <= checks.streamSize(s) / MIN_PAGE_BYTES
  }

  predicate Accepts(checks: Checks, s: SemanticStream) {
    var ds, rs := AllDefinitions(s.pages), AllReferences(s.pages);
    && SizeOk(checks, s)
    && PagesOk(checks, s.binding, s.pages)
    && RowsOk(ds, rs)
    && (s.terminal.Some? ==> TerminalOk(s, s.terminal.value, |ds|, |rs|, StateOf(Targets(rs))))
  }

  // ----- prefixes of accepted rows are accepted -----

  lemma DefinitionLocationsGrow(ds: seq<Definition>, more: seq<Definition>)
    ensures DefinitionLocations(ds + more) == DefinitionLocations(ds) + DefinitionLocations(more)
  {
    var all := ds + more;
    assert forall i :: 0 <= i < |ds| ==> all[i] == ds[i];
    assert forall i :: 0 <= i < |more| ==> all[|ds| + i] == more[i];
  }

  lemma ReferenceLocationsGrow(rs: seq<Reference>, more: seq<Reference>)
    ensures ReferenceLocations(rs + more) == ReferenceLocations(rs) + ReferenceLocations(more)
  {
    var all := rs + more;
    assert forall i :: 0 <= i < |rs| ==> all[i] == rs[i];
    assert forall i :: 0 <= i < |more| ==> all[|rs| + i] == more[i];
  }

  lemma {:induction false} WellFormedPrefixes(ts: seq<Target>, n: nat)
    requires WellFormed(ts) && n <= |ts|
    ensures WellFormed(ts[..n])
    decreases |ts|
  {
    hide WellFormed;
    if n == |ts| {
      assert ts[..n] == ts;
    } else {
      var front := ts[..|ts| - 1];
      assert ts == front + [ts[|ts| - 1]];
      WellFormedPrefix(front, ts[|ts| - 1]);
      WellFormedPrefixes(front, n);
      assert front[..n] == ts[..n];
    }
  }

  lemma RowsOkGrow(ds: seq<Definition>, moreDs: seq<Definition>, rs: seq<Reference>, moreRs: seq<Reference>)
    ensures RowsOk(ds + moreDs, rs + moreRs) <==>
            && RowsOk(ds, rs) && DefinitionsNumbered(|ds|, moreDs) && ReferencesNumbered(|rs|, moreRs)
            && WellFormed(Targets(rs + moreRs))
            && Agree(DefinitionLocations(ds) + ReferenceLocations(rs) + DefinitionLocations(moreDs)
                     + ReferenceLocations(moreRs))
  {
    hide WellFormed, DefinitionLocations, ReferenceLocations;
    DefinitionLocationsGrow(ds, moreDs);
    ReferenceLocationsGrow(rs, moreRs);
    DefinitionsNumberedGrow(ds, moreDs);
    ReferencesNumberedGrow(rs, moreRs);
    var before, all :=
      DefinitionLocations(ds) + ReferenceLocations(rs), DefinitionLocations(ds + moreDs)
          + ReferenceLocations(rs + moreRs);
    assert all == before + DefinitionLocations(moreDs) + ReferenceLocations(moreRs);
    if Agree(all) { assert Agree(before); }
    if WellFormed(Targets(rs + moreRs)) {
      WellFormedPrefixes(Targets(rs + moreRs), |rs|);
      assert Targets(rs + moreRs)[..|rs|] == Targets(rs);
    }
  }

  lemma DefinitionsNumberedGrow(ds: seq<Definition>, more: seq<Definition>)
    ensures DefinitionsNumbered(0, ds + more) <==> DefinitionsNumbered(0, ds) && DefinitionsNumbered(|ds|, more)
  {
    var all := ds + more;
    if DefinitionsNumbered(0, all) {
      forall i | 0 <= i < |ds| ensures ds[i].ordinal == i { assert all[i] == ds[i]; }
      forall i | 0 <= i < |more| ensures more[i].ordinal == |ds| + i { assert all[|ds| + i] == more[i]; }
    }
  }

  lemma ReferencesNumberedGrow(rs: seq<Reference>, more: seq<Reference>)
    ensures ReferencesNumbered(0, rs + more) <==> ReferencesNumbered(0, rs) && ReferencesNumbered(|rs|, more)
  {
    var all := rs + more;
    if ReferencesNumbered(0, all) {
      forall i | 0 <= i < |rs| ensures rs[i].ordinal == i { assert all[i] == rs[i]; }
      forall i | 0 <= i < |more| ensures more[i].ordinal == |rs| + i { assert all[|rs| + i] == more[i]; }
    }
  }
}
