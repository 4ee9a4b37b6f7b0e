/**
 The occurrence record of one compilation and its validation. Validity survives reordering,
 and a record that validates with every possible gap in it validates with any of them.
 */
module Occurrences {
  import opened Bytes
  import opened Measure

  const MAX_OCCURRENCE_BYTES := 24 * 1024
  const MAX_DEFINITIONS := 64
  const MAX_REFERENCES := 64
  const MAX_SOURCE_BYTES := 8 * 1024 * 1024
  const MAX_SOURCE_TOTAL_BYTES := 32 * 1024 * 1024

  datatype Root = SourceRoot | TargetRoot

  datatype Input = Input(root: Root, relative: Bytes, bytes: nat, fingerprint: Bytes)

  datatype Range = Range(beginLine: nat, beginColumn: nat, endLine: nat, endColumn: nat)

  datatype Definition = Definition(package: Bytes, path: Bytes, kind: Bytes, key: Bytes, legacyId: Bytes, range: Range,
                                   input: Input)

  datatype Relation = Calls | Uses

  /** Confidence, score and weight are constants of this record and are left out. */
  datatype Reference = Reference(source: Definition, target: Definition, relation: Relation, range: Range, input: Input)

  datatype Gap =
    | BudgetExceeded | UnsupportedDefinition | UnsupportedExpansion | SourceUnavailable | SourceChanged
    | ExternalIdentityUnknown | GeneratorLineageUnknown | AnalysisCoveragePartial

  datatype Header = Header(content: Bytes)

  datatype Record = Record(header: Header, definitions: seq<Definition>, references: seq<Reference>, gaps: seq<Gap>)

  /** Text checks and encoded sizes, which this model leaves open. */
  datatype Checks = Checks(
    header: Header -> bool, text: Bytes -> bool, input: Input -> bool, legacyId: (Bytes, Bytes, Bytes) -> Bytes,
    headerSize: Header -> nat, definitionSize: Definition -> nat, referenceSize: Reference -> nat, gapSize: Gap -> nat)

  // ----- the definition key -----

  /** "definition:v1:" */
  const KEY_PREFIX: Bytes := [100, 101, 102, 105, 110, 105, 116, 105, 111, 110, 58, 118, 49, 58]

  const COLON: byte := 58

  function HexDigit(n: nat): byte
    requires n < 16
  {
    if n < 10 then 48 + n else 87 + n
  }

  /** Two lower-case hexadecimal digits a byte. */
  function Hex(s: Bytes): (r: Bytes)
    ensures |r| == 2 * |s|
  {
    if s == [] then [] else Hex(s[..|s| - 1]) + [HexDigit(s[|s| - 1] / 16), HexDigit(s[|s| - 1] % 16)]
  }

  function DefinitionKey(package: Bytes, path: Bytes, kind: Bytes): Bytes {
    KEY_PREFIX + (Hex(package) + [COLON] + (Hex(path) + [COLON] + Hex(kind)))
  }

  lemma {:induction false} HexHasNoColon(s: Bytes)
    ensures forall i :: 0 <= i < |Hex(s)| ==> Hex(s)[i] != COLON
    decreases |s|
  {
    if s != [] { HexHasNoColon(s[..|s| - 1]); }
  }

  lemma {:induction false} HexInjective(a: Bytes, b: Bytes)
    requires Hex(a) == Hex(b)
    ensures a == b
    decreases |a|
  {
    assert |a| == |b|;
    if a != [] {
      var fa, fb := Hex(a[..|a| - 1]), Hex(b[..|b| - 1]);
      var x, y := a[|a| - 1], b[|b| - 1];
      assert Hex(a)[..|fa|] == fa && Hex(b)[..|fb|] == fb;
      assert Hex(a)[|fa|] == HexDigit(x / 16) && Hex(a)[|fa| + 1] == HexDigit(x % 16);
      assert Hex(b)[|fb|] == HexDigit(y / 16) && Hex(b)[|fb| + 1] == HexDigit(y % 16);
      assert x == y;
      HexInjective(a[..|a| - 1], b[..|b| - 1]);
      assert a == a[..|a| - 1] + [x] && b == b[..|b| - 1] + [y];
    }
  }

  function ColonAt(s: Bytes): nat {
    if s == [] || s[0] == COLON then 0 else 1 + ColonAt(s[1..])
  }

  lemma {:induction false} ColonAfter(a: Bytes, x: Bytes)
    requires forall i :: 0 <= i < |a| ==> a[i] != COLON
    ensures ColonAt(a + [COLON] + x) == |a|
    decreases |a|
  {
    if a != [] {
      ColonAfter(a[1..], x);
      assert (a + [COLON] + x)[1..] == a[1..] + [COLON] + x;
    }
  }

  /** The text before the first separator is the same on both sides. */
  lemma SplitAtColon(a: Bytes, x: Bytes, b: Bytes, y: Bytes)
    requires a + [COLON] + x == b + [COLON] + y
    requires forall i :: 0 <= i < |a| ==> a[i] != COLON
    requires forall i :: 0 <= i < |b| ==> b[i] != COLON
    ensures a == b && x == y
  {
    ColonAfter(a, x);
    ColonAfter(b, y);
    var s, t := a + [COLON] + x, b + [COLON] + y;
    assert s[..|a|] == a && t[..|b|] == b;
    assert s[|a| + 1..] == x && t[|b| + 1..] == y;
  }

  /** Two definitions share a key only if package, path and kind are the same. */
  lemma DefinitionKeyInjective(package: Bytes, path: Bytes, kind: Bytes, package2: Bytes, path2: Bytes, kind2: Bytes)
    requires DefinitionKey(package, path, kind) == DefinitionKey(package2, path2, kind2)
    ensures package == package2 && path == path2 && kind == kind2
  {
    var rest, rest2 := Hex(path) + [COLON] + Hex(kind), Hex(path2) + [COLON] + Hex(kind2);
    assert DefinitionKey(package, path, kind)[|KEY_PREFIX|..] == Hex(package) + [COLON] + rest;
    assert DefinitionKey(package2, path2, kind2)[|KEY_PREFIX|..] == Hex(package2) + [COLON] + rest2;
    HexHasNoColon(package);
    HexHasNoColon(package2);
    HexHasNoColon(path);
    HexHasNoColon(path2);
    SplitAtColon(Hex(package), rest, Hex(package2), rest2);
    SplitAtColon(Hex(path), Hex(kind), Hex(path2), Hex(kind2));
    HexInjective(package, package2);
    HexInjective(path, path2);
    HexInjective(kind, kind2);
  }

  // ----- what a valid record is -----

  predicate RangeOk(r: Range) {
    && r.beginLine != 0
    && r.beginLine <= MAX_SOURCE_BYTES + 1 && r.beginColumn <= MAX_SOURCE_BYTES + 1
    && r.endLine <= MAX_SOURCE_BYTES + 1 && r.endColumn <= MAX_SOURCE_BYTES + 1
    && (r.beginLine < r.endLine || (r.beginLine == r.endLine && r.beginColumn < r.endColumn))
  }

  predicate DefinitionOk(checks: Checks, d: Definition) {
    && checks.text(d.package) && checks.text(d.path) && checks.text(d.kind)
    && d.key == DefinitionKey(d.package, d.path, d.kind) && d.legacyId == checks.legacyId(d.package, d.path, d.kind)
    && checks.input(d.input) && d.input.bytes <= MAX_SOURCE_BYTES
    && RangeOk(d.range)
  }

  type FileKey = (Root, Bytes)

  function FileOf(i: Input): FileKey {
    (i.root, i.relative)
  }

  function Inputs(ds: seq<Definition>): set<Input> {
    set d | d in Elems(ds) :: d.input
  }

  /** One buffer per file. */
  predicate OneBuffer(inputs: set<Input>) {
    forall a, b :: a in inputs && b in inputs && FileOf(a) == FileOf(b) ==> a == b
  }

  /** The bytes of distinct buffers. */
  ghost function TotalBytes(inputs: set<Input>): nat {
    if inputs == {} then 0 else
      var i :| i in inputs;
      i.bytes + TotalBytes(inputs - {i})
  }

  lemma {:induction false} TotalBytesWithout(inputs: set<Input>, i: Input)
    requires i in inputs
    ensures TotalBytes(inputs) == i.bytes + TotalBytes(inputs - {i})
    decreases |inputs|
  {
    var j :| j in inputs && TotalBytes(inputs) == j.bytes + TotalBytes(inputs - {j});
    if j != i {
      TotalBytesWithout(inputs - {j}, i);
      TotalBytesWithout(inputs - {i}, j);
      assert inputs - {j} - {i} == inputs - {i} - {j};
    }
  }

  lemma {:induction false} TotalBytesOfPart(part: set<Input>, inputs: set<Input>)
    requires part <= inputs
    ensures TotalBytes(part) <= TotalBytes(inputs)
    decreases |part|
  {
    if part != {} {
      var i :| i in part;
      TotalBytesWithout(part, i);
      TotalBytesWithout(inputs, i);
      TotalBytesOfPart(part - {i}, inputs - {i});
    }
  }

  predicate Accounted(d: Definition, gaps: set<Gap>) {
    d.input.root.TargetRoot? ==> GeneratorLineageUnknown in gaps
  }

  predicate SamePackage(ds: set<Definition>) {
    forall a, b :: a in ds && b in ds ==> a.package == b.package
  }

  predicate ReferenceOk(ds: set<Definition>, e: Reference) {
    e.source in ds && e.target in ds && e.input == e.source.input && RangeOk(e.range)
  }

  function RecordSize(checks: Checks, r: Record): nat {
    checks.headerSize(r.header) + ListSize(checks.definitionSize, r.definitions)
        + ListSize(checks.referenceSize, r.references)
    + ListSize(checks.gapSize, r.gaps)
  }

  /** The conditions on the definitions, given which gaps are recorded. */
  ghost predicate DefinitionsOk(checks: Checks, ds: seq<Definition>, gaps: set<Gap>) {
    && Distinct(ds)
    && (forall d :: d in Elems(ds) ==> DefinitionOk(checks, d) && Accounted(d, gaps))
    && SamePackage(Elems(ds))
    && OneBuffer(Inputs(ds))
    && TotalBytes(Inputs(ds)) <= MAX_SOURCE_TOTAL_BYTES
  }

  ghost predicate ReferencesOk(ds: set<Definition>, rs: seq<Reference>) {
    Distinct(rs) && forall e :: e in Elems(rs) ==> ReferenceOk(ds, e)
  }

  predicate EnvelopeOk(checks: Checks, r: Record) {
    && checks.header(r.header) && |r.definitions| <= MAX_DEFINITIONS && |r.references| <= MAX_REFERENCES
    && |r.gaps| <= 16
    && RecordSize(checks, r) <= MAX_OCCURRENCE_BYTES
  }

  ghost predicate RecordOk(checks: Checks, r: Record) {
    && EnvelopeOk(checks, r)
    && DefinitionsOk(checks, r.definitions, Elems(r.gaps))
    && ReferencesOk(Elems(r.definitions), r.references)
  }

  // ----- order does not matter -----

  ghost predicate Reordered(a: Record, b: Record) {
    && a.header == b.header && multiset(a.definitions) == multiset(b.definitions)
    && multiset(a.references) == multiset(b.references) && multiset(a.gaps) == multiset(b.gaps)
  }

  /** Sorting a valid record keeps it valid. */
  lemma ReorderedStaysValid(checks: Checks, a: Record, b: Record)
    requires RecordOk(checks, a) && Reordered(a, b)
    ensures RecordOk(checks, b)
  {
    hide Elems, Distinct, DefinitionOk, Sum;
    SamePile(a.definitions, b.definitions);
    SamePile(a.references, b.references);
    SamePile(a.gaps, b.gaps);
    SumOfSamePile(checks.definitionSize, a.definitions, b.definitions);
    SumOfSamePile(checks.referenceSize, a.references, b.references);
    SumOfSamePile(checks.gapSize, a.gaps, b.gaps);
  }

  // ----- room for every later gap -----

  const GAP_ENVELOPE: seq<Gap> :=
    [BudgetExceeded, UnsupportedDefinition, UnsupportedExpansion, SourceUnavailable, SourceChanged,
     ExternalIdentityUnknown, GeneratorLineageUnknown, AnalysisCoveragePartial]

  function Include(gaps: seq<Gap>, gap: Gap): seq<Gap> {
    if gap in gaps then gaps else gaps + [gap]
  }

  /** The recorded gaps followed by those of `add` not yet recorded. */
  function WithAll(gaps: seq<Gap>, add: seq<Gap>): seq<Gap> {
    if add == [] then gaps else Include(WithAll(gaps, add[..|add| - 1]), add[|add| - 1])
  }

  lemma IncludeKeeps(gaps: seq<Gap>, gap: Gap)
    requires Distinct(gaps)
    ensures Distinct(Include(gaps, gap)) && Elems(Include(gaps, gap)) == Elems(gaps) + {gap}
  {
    ElemsMember(gaps, gap);
    DistinctPush(gaps, gap);
    ElemsPush(gaps, gap);
  }

  lemma {:induction false} WithAllCovers(gaps: seq<Gap>, add: seq<Gap>)
    requires Distinct(gaps)
    ensures Distinct(WithAll(gaps, add)) && Elems(WithAll(gaps, add)) == Elems(gaps) + Elems(add)
    decreases |add|
  {
    if add != [] {
      hide Include, Distinct;
      WithAllCovers(gaps, add[..|add| - 1]);
      IncludeKeeps(WithAll(gaps, add[..|add| - 1]), add[|add| - 1]);
    }
  }

  lemma EveryGapListed(g: Gap)
    ensures g in Elems(GAP_ENVELOPE)
  {
    hide Elems;
    ElemsMember(GAP_ENVELOPE, g);
    match g
    case BudgetExceeded => assert GAP_ENVELOPE[0] == g;
    case UnsupportedDefinition => assert GAP_ENVELOPE[1] == g;
    case UnsupportedExpansion => assert GAP_ENVELOPE[2] == g;
    case SourceUnavailable => assert GAP_ENVELOPE[3] == g;
    case SourceChanged => assert GAP_ENVELOPE[4] == g;
    case ExternalIdentityUnknown => assert GAP_ENVELOPE[5] == g;
    case GeneratorLineageUnknown => assert GAP_ENVELOPE[6] == g;
    case AnalysisCoveragePartial => assert GAP_ENVELOPE[7] == g;
  }

  lemma EveryGapCovered(gaps: seq<Gap>, g: Gap)
    requires Distinct(gaps)
    ensures g in Elems(WithAll(gaps, GAP_ENVELOPE)) && Distinct(WithAll(gaps, GAP_ENVELOPE))
  {
    hide WithAll, Elems;
    WithAllCovers(gaps, GAP_ENVELOPE);
    EveryGapListed(g);
  }

  /** What the driver checks before it keeps a tuple: valid now, and valid with every gap recorded. */
  ghost predicate Roomy(checks: Checks, r: Record) {
    && Distinct(r.gaps) && RecordOk(checks, r)
    && RecordOk(checks, r.(gaps := WithAll(r.gaps, GAP_ENVELOPE)))
  }

  lemma GapsWithinEnvelope(size: Gap -> nat, base: seq<Gap>, gaps: seq<Gap>)
    requires Distinct(base) && Distinct(gaps)
    ensures var full := WithAll(base, GAP_ENVELOPE); |gaps| <= |full| && ListSize(size, gaps) <= ListSize(size, full)
  {
    var full := WithAll(base, GAP_ENVELOPE);
    hide WithAll, Elems, Distinct, Sum;
    forall g | g in Elems(gaps) ensures g in Elems(full) { EveryGapCovered(base, g); }
    DistinctWithin(gaps, full);
    SumOfPart(size, gaps, full);
  }

  lemma EnvelopeIsDistinct()
    ensures Distinct(GAP_ENVELOPE) && |GAP_ENVELOPE| == 8
  {
    WithAllCovers([], GAP_ENVELOPE);
    assert forall i, j :: 0 <= i < j < 8 ==> GAP_ENVELOPE[i] != GAP_ENVELOPE[j];
  }

  /** With every gap in it a list of gaps is the envelope in some order, whatever was recorded first. */
  lemma FullIsEnvelope(size: Gap -> nat, gaps: seq<Gap>)
    requires Distinct(gaps)
    ensures var full := WithAll(gaps, GAP_ENVELOPE); |full| == 8 && ListSize(size, full) == ListSize(size, GAP_ENVELOPE)
  {
    EnvelopeIsDistinct();
    WithAllCovers(gaps, GAP_ENVELOPE);
    GapsWithinEnvelope(size, gaps, GAP_ENVELOPE);
    hide WithAll, Elems, Distinct, Sum;
    var full := WithAll(gaps, GAP_ENVELOPE);
    forall g | g in Elems(full) ensures g in Elems(GAP_ENVELOPE) { EveryGapListed(g); }
    DistinctWithin(full, GAP_ENVELOPE);
    SumOfPart(size, full, GAP_ENVELOPE);
  }

  /**
   A record has room if and only if it is within its counts and its tuples are well formed as its gaps stand, and it
   encodes within the bound next to all eight gaps: how many are recorded so far makes no difference.
   */
  lemma RoomyIff(checks: Checks, r: Record)
    ensures Roomy(checks, r) <==>
              && Distinct(r.gaps) && checks.header(r.header) && |r.definitions| <= 64 && |r.references| <= 64
              && checks.headerSize(r.header) + ListSize(checks.definitionSize, r.definitions)
                 + ListSize(checks.referenceSize, r.references) + ListSize(checks.gapSize, GAP_ENVELOPE) <= 24 * 1024
              && DefinitionsOk(checks, r.definitions, Elems(r.gaps))
              && ReferencesOk(Elems(r.definitions), r.references)
  {
    hide WithAll, Elems, Distinct, Sum, DefinitionsOk, ReferencesOk, ListSize;
    if Distinct(r.gaps) {
      FullIsEnvelope(checks.gapSize, r.gaps);
      GapsWithinEnvelope(checks.gapSize, r.gaps, r.gaps);
      WithAllCovers(r.gaps, GAP_ENVELOPE);
      if DefinitionsOk(checks, r.definitions, Elems(r.gaps)) {
        MoreGapsAccountMore(checks, r.definitions, Elems(r.gaps), Elems(WithAll(r.gaps, GAP_ENVELOPE)));
      }
    }
  }

  lemma MoreGapsAccountMore(checks: Checks, ds: seq<Definition>, few: set<Gap>, many: set<Gap>)
    requires DefinitionsOk(checks, ds, few) && few <= many
    ensures DefinitionsOk(checks, ds, many)
  {
    hide DefinitionOk, Elems, Distinct;
  }

  /** A roomy record stays valid whatever gaps are added, in whatever order. */
  lemma RoomForAnyGaps(checks: Checks, r: Record, gaps: seq<Gap>)
    requires Roomy(checks, r) && Distinct(gaps) && Elems(r.gaps) <= Elems(gaps)
    ensures RecordOk(checks, r.(gaps := gaps))
  {
    hide DefinitionsOk, ReferencesOk, Elems, Distinct, WithAll, ListSize;
    GapsWithinEnvelope(checks.gapSize, r.gaps, gaps);
    MoreGapsAccountMore(checks, r.definitions, Elems(r.gaps), Elems(gaps));
  }

  /** Recording one more gap keeps the room. */
  lemma GapKeepsRoom(checks: Checks, r: Record, gap: Gap)
    requires Roomy(checks, r)
    ensures Roomy(checks, r.(gaps := Include(r.gaps, gap)))
  {
    var more := Include(r.gaps, gap);
    IncludeKeeps(r.gaps, gap);
    RoomForAnyGaps(checks, r, more);
    WithAllCovers(more, GAP_ENVELOPE);
    RoomForAnyGaps(checks, r, WithAll(more, GAP_ENVELOPE));
  }
}
