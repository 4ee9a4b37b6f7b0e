/**
 The driver's collector: it keeps a definition or a reference only while the record has room
 for every gap that may still come, so what it publishes is always valid. The compiler is an
 oracle: each call carries what it would answer.
 */
module Collector {
  import opened Bytes
  import opened Measure
  import opened Occurrences
  import RecordCheck
  import Stable

  type DefId = nat

  type Path = Bytes

  datatype Buffer = Buffer(bytes: nat, fingerprint: Bytes)

  /** What the source map says of a span; `same` tells whether the file at an earlier position is this very buffer. */
  datatype Look =
    | Dummy
    | CrossFile
    | NoPath
    | Found(path: Path, expansion: bool, underTarget: bool, underSource: bool, start: nat, same: nat -> bool,
            buffer: Option<Buffer>, relative: Option<Bytes>, range: Range)

  datatype Name = Name(package: Bytes, path: Bytes, kind: Bytes)

  /** What the compiler says of a definition: `named` is None when its kind, path or package is unsupported. */
  datatype Subject = Subject(did: DefId, local: bool, named: Option<Name>, look: Look)

  datatype Call =
    | OfDefinition(subject: Subject)
    | OfReference(source: Subject, target: Subject, relation: Relation, look: Look)

  datatype Orders = Orders(definition: (Definition, Definition) -> bool, reference: (Reference, Reference) -> bool)

  type Sources = map<Path, (nat, Input)>

  function SourceInputs(sources: Sources): set<Input> {
    set path | path in sources :: sources[path].1
  }

  /** Every retained definition is cached, and nothing else is. */
  ghost predicate CacheExact(cache: map<DefId, Definition>, ds: seq<Definition>) {
    (forall did :: did in cache ==> cache[did] in Elems(ds))
    && (forall d :: d in Elems(ds) ==> exists did :: did in cache && cache[did] == d)
  }

  /** The buffers read so far are paid for. */
  ghost predicate Paid(sources: Sources, budget: nat) {
    TotalBytes(SourceInputs(sources)) + budget <= MAX_SOURCE_TOTAL_BYTES
  }

  lemma CacheGrows(cache: map<DefId, Definition>, ds: seq<Definition>, did: DefId, d: Definition)
    requires CacheExact(cache, ds) && did !in cache
    ensures CacheExact(cache[did := d], ds + [d])
  {
    ElemsPush(ds, d);
    var grown := cache[did := d];
    forall e | e in Elems(ds) + {d} ensures exists k :: k in grown && grown[k] == e {
      if e in Elems(ds) {
        var k :| k in cache && cache[k] == e;
        assert k in grown && grown[k] == e;
      } else {
        assert did in grown && grown[did] == e;
      }
    }
  }

  lemma SourcesGrow(sources: Sources, path: Path, start: nat, input: Input, budget: nat)
    requires Paid(sources, budget) && input.bytes <= budget
    requires path in sources ==> sources[path].1 == input
    ensures Paid(sources[path := (start, input)], budget - input.bytes)
    ensures SourceInputs(sources[path := (start, input)]) == SourceInputs(sources) + {input}
  {
    var grown := sources[path := (start, input)];
    assert path in grown && grown[path].1 == input;
    assert SourceInputs(grown) == SourceInputs(sources) + {input} by {
      forall i | i in SourceInputs(sources) ensures i in SourceInputs(grown) {
        var p :| p in sources && sources[p].1 == i;
        assert p in grown && grown[p].1 == i;
      }
    }
    var all := SourceInputs(sources) + {input};
    TotalBytesWithout(all, input);
    TotalBytesOfPart(all - {input}, SourceInputs(sources));
  }

  // ----- what each operation does to the collector -----

  datatype State = State(
    value: Record, definitions: map<DefId, Definition>, sources: Sources, budget: nat, exhausted: bool)

  function Started(header: Header): State {
    State(Record(header, [], [], [AnalysisCoveragePartial]), map[], map[], MAX_SOURCE_TOTAL_BYTES, false)
  }

  function Noted(s: State, gap: Gap): State {
    s.(value := s.value.(gaps := Include(s.value.gaps, gap)))
  }

  function InputOf(look: Look): Input
    requires look.Found? && look.buffer.Some? && look.relative.Some?
  {
    Input(if look.underTarget then TargetRoot else SourceRoot, look.relative.value, look.buffer.value.bytes,
          look.buffer.value.fingerprint)
  }

  /** A buffer not read before: paid for from the budget, then placed under a root. */
  function ReadStep(s: State, look: Look): (State, Option<Input>)
    requires look.Found?
  {
    if look.buffer.None? then (Noted(s, SourceUnavailable), None)
    else if look.buffer.value.bytes > MAX_SOURCE_BYTES || look.buffer.value.bytes > s.budget then
      (Noted(s.(exhausted := true), BudgetExceeded), None)
    else
      var paid := s.(budget := s.budget - look.buffer.value.bytes);
      if !look.underTarget && !look.underSource then (Noted(paid, SourceUnavailable), None)
      else
        var t := if look.underTarget then Noted(paid, GeneratorLineageUnknown) else paid;
        if look.relative.None? then (t, None)
        else if look.path in t.sources && t.sources[look.path].1 != InputOf(look) then (Noted(t, SourceChanged), None)
        else (t.(sources := t.sources[look.path := (look.start, InputOf(look))]), Some(InputOf(look)))
  }

  function LocateStep(s: State, look: Look): (State, Option<(Input, Range)>) {
    if look.Dummy? then (Noted(s, UnsupportedExpansion), None)
    else if look.CrossFile? || look.NoPath? then (Noted(s, SourceUnavailable), None)
    else if look.expansion && !look.underTarget then (Noted(s, UnsupportedExpansion), None)
    else if look.path in s.sources && (s.sources[look.path].0 == look.start || look.same(s.sources[look.path].0)) then
      (s, Some((s.sources[look.path].1, look.range)))
    else
      var (t, input) := ReadStep(s, look);
      (t, if input.None? then None else Some((input.value, look.range)))
  }

  function WithDefinition(r: Record, d: Definition): Record {
    r.(definitions := r.definitions + [d])
  }

  function WithReference(r: Record, e: Reference): Record {
    r.(references := r.references + [e])
  }

  /** A tuple is kept exactly when the record has room for it and for every later gap. */
  ghost function KeepStep(checks: Checks, s: State, did: DefId, d: Definition): (State, bool) {
    if Roomy(checks, WithDefinition(s.value, d)) then
      (s.(value := WithDefinition(s.value, d), definitions := s.definitions[did := d]), true)
    else (Noted(s, BudgetExceeded), false)
  }

  function DefinitionAt(checks: Checks, name: Name, place: (Input, Range)): Definition {
    Definition(name.package, name.path, name.kind, DefinitionKey(name.package, name.path, name.kind),
               checks.legacyId(name.package, name.path, name.kind), place.1, place.0)
  }

  ghost function DefineNamedStep(checks: Checks, s: State, did: DefId, name: Name, look: Look)
    : (State, Option<Definition>)
  {
    var (t, place) := LocateStep(s, look);
    if place.None? then (t, None)
    else
      var d := DefinitionAt(checks, name, place.value);
      var (u, kept) := KeepStep(checks, t, did, d);
      (u, if kept then Some(d) else None)
  }

  /** A definition is answered from the cache; otherwise reasons to refuse are asked in order. */
  ghost function DefineStep(checks: Checks, s: State, subject: Subject): (State, Option<Definition>) {
    if subject.did in s.definitions then (s, Some(s.definitions[subject.did]))
    else if !subject.local then (Noted(s, ExternalIdentityUnknown), None)
    else if |s.value.definitions| >= MAX_DEFINITIONS then (Noted(s, BudgetExceeded), None)
    else if subject.named.None? then (Noted(s, UnsupportedDefinition), None)
    else DefineNamedStep(checks, s, subject.did, subject.named.value, subject.look)
  }

  ghost function LinkStep(checks: Checks, s: State, from: Definition, to: Definition, relation: Relation,
                          look: Look): State
  {
    var (t, place) := LocateStep(s, look);
    if place.None? then t
    else if from.input != place.value.0 then Noted(t, UnsupportedExpansion)
    else
      var edge := Reference(from, to, relation, place.value.1, place.value.0);
      if edge in t.value.references then t
      else if Roomy(checks, WithReference(t.value, edge)) then t.(value := WithReference(t.value, edge))
      else Noted(t, BudgetExceeded)
  }

  /** Both endpoints, the second only if the first was kept, and then the reference between them. */
  ghost function ReferStep(checks: Checks, s: State, source: Subject, target: Subject, relation: Relation,
                           look: Look): State
  {
    if |s.value.references| >= MAX_REFERENCES then Noted(s, BudgetExceeded)
    else
      var (t, from) := DefineStep(checks, s, source);
      if from.None? then t
      else
        var (u, to) := DefineStep(checks, t, target);
        if to.None? then u else LinkStep(checks, u, from.value, to.value, relation, look)
  }

  ghost function Act(checks: Checks, s: State, call: Call): State {
    match call
    case OfDefinition(subject) => DefineStep(checks, s, subject).0
    case OfReference(source, target, relation, look) => ReferStep(checks, s, source, target, relation, look)
  }

  /** The collector after any calls, whatever the compiler answers. */
  ghost function Collected(checks: Checks, s: State, calls: seq<Call>): State {
    if calls == [] then s else Act(checks, Collected(checks, s, calls[..|calls| - 1]), calls[|calls| - 1])
  }

  // ----- what every operation keeps -----

  ghost predicate StateOk(checks: Checks, s: State) {
    && Roomy(checks, s.value) && CacheExact(s.definitions, s.value.definitions)
    && Paid(s.sources, s.budget) && Inputs(s.value.definitions) <= SourceInputs(s.sources)
  }

  /** Nothing collected is forgotten: tuples, gaps and cached answers only grow, and the budget only shrinks. */
  ghost predicate Grows(s: State, t: State) {
    && t.value.header == s.value.header && s.value.definitions <= t.value.definitions
    && s.value.references <= t.value.references
    && s.value.gaps <= t.value.gaps && t.budget <= s.budget
    && (forall did :: did in s.definitions ==> did in t.definitions && t.definitions[did] == s.definitions[did])
    && SourceInputs(s.sources) <= SourceInputs(t.sources)
  }

  ghost predicate Keeps(checks: Checks, s: State, t: State) {
    StateOk(checks, t) && Grows(s, t)
  }

  lemma GrowsChain(s: State, t: State, u: State)
    requires Grows(s, t) && Grows(t, u)
    ensures Grows(s, u)
  {
    hide SourceInputs;
  }

  lemma NotedKeeps(checks: Checks, s: State, gap: Gap)
    requires StateOk(checks, s)
    ensures Keeps(checks, s, Noted(s, gap))
  {
    hide Roomy, CacheExact, Paid, SourceInputs, Inputs;
    GapKeepsRoom(checks, s.value, gap);
  }

  lemma PaidKeeps(checks: Checks, s: State, bytes: nat)
    requires StateOk(checks, s) && bytes <= s.budget
    ensures Keeps(checks, s, s.(budget := s.budget - bytes)) && Keeps(checks, s, s.(exhausted := true))
  {
    hide Roomy, CacheExact, SourceInputs, Inputs;
  }

  lemma PlacedKeeps(checks: Checks, s: State, bytes: nat, path: Path, start: nat, input: Input)
    requires StateOk(checks, s) && input.bytes == bytes <= s.budget
    requires (path in s.sources ==> s.sources[path].1 == input)
    ensures Keeps(checks, s, s.(budget := s.budget - bytes, sources := s.sources[path := (start, input)]))
    ensures input in SourceInputs(s.sources[path := (start, input)])
  {
    hide Roomy, CacheExact, SourceInputs, Inputs, Paid;
    SourcesGrow(s.sources, path, start, input, s.budget);
  }

  lemma ReadKeeps(checks: Checks, s: State, look: Look)
    requires look.Found? && StateOk(checks, s)
    ensures var (t, input) := ReadStep(s, look);
            Keeps(checks, s, t) && SameTuples(s, t) && (input.Some? ==> input.value in SourceInputs(t.sources))
  {
    hide StateOk, Grows, SourceInputs;
    GrowsSelf(checks, s);
    NotedKeeps(checks, s, SourceUnavailable);
    PaidKeeps(checks, s, 0);
    NotedKeeps(checks, s.(exhausted := true), BudgetExceeded);
    GrowsChain(s, s.(exhausted := true), Noted(s.(exhausted := true), BudgetExceeded));
    if look.buffer.Some? && look.buffer.value.bytes <= s.budget { PaidReadKeeps(checks, s, look); }
  }

  lemma GrowsSelf(checks: Checks, s: State)
    requires StateOk(checks, s)
    ensures Keeps(checks, s, s)
  {
    hide Roomy, CacheExact, Paid, SourceInputs, Inputs;
  }

  /** Tuples and cache untouched. */
  predicate SameTuples(s: State, t: State) {
    && t.value.definitions == s.value.definitions && t.value.references == s.value.references
    && t.definitions == s.definitions
  }

  lemma PaidReadKeeps(checks: Checks, s: State, look: Look)
    requires look.Found? && look.buffer.Some? && look.buffer.value.bytes <= s.budget && StateOk(checks, s)
    ensures var (t, input) := ReadStep(s, look);
            look.buffer.value.bytes <= MAX_SOURCE_BYTES ==>
              Keeps(checks, s, t) && SameTuples(s, t) && (input.Some? ==> input.value in SourceInputs(t.sources))
  {
    hide StateOk, Grows, SourceInputs;
    var bytes := look.buffer.value.bytes;
    var paid := s.(budget := s.budget - bytes);
    PaidKeeps(checks, s, bytes);
    NotedKeeps(checks, paid, SourceUnavailable);
    NotedKeeps(checks, paid, GeneratorLineageUnknown);
    GrowsChain(s, paid, Noted(paid, SourceUnavailable));
    GrowsChain(s, paid, Noted(paid, GeneratorLineageUnknown));
    var t := if look.underTarget then Noted(paid, GeneratorLineageUnknown) else paid;
    NotedKeeps(checks, t, SourceChanged);
    GrowsChain(s, t, Noted(t, SourceChanged));
    if look.relative.Some? && !(look.path in t.sources && t.sources[look.path].1 != InputOf(look)) {
      var base := if look.underTarget then Noted(s, GeneratorLineageUnknown) else s;
      GrowsSelf(checks, s);
      NotedKeeps(checks, s, GeneratorLineageUnknown);
      PlacedKeeps(checks, base, bytes, look.path, look.start, InputOf(look));
      GrowsChain(s, base,
                 base.(budget := base.budget - bytes,
                       sources := base.sources[look.path := (look.start, InputOf(look))]));
    }
  }

  lemma LocateKeeps(checks: Checks, s: State, look: Look)
    requires StateOk(checks, s)
    ensures var (t, place) := LocateStep(s, look);
            && Keeps(checks, s, t) && SameTuples(s, t)
            && (place.Some? ==> look.Found? && place.value.1 == look.range && place.value.0 in SourceInputs(t.sources))
  {
    hide StateOk, Grows, ReadStep, SourceInputs, Include;
    GrowsSelf(checks, s);
    NotedKeeps(checks, s, UnsupportedExpansion);
    NotedKeeps(checks, s, SourceUnavailable);
    if look.Found? {
      ReadKeeps(checks, s, look);
      SourceIsInput(s.sources, look.path);
      var (t, place) := LocateStep(s, look);
      if place.Some? && !(look.path in s.sources && place.value.0 == s.sources[look.path].1 && t == s) {
        assert (t, Some(place.value.0)) == ReadStep(s, look);
      }
    }
  }

  lemma SourceIsInput(sources: Sources, path: Path)
    ensures path in sources ==> sources[path].1 in SourceInputs(sources)
  {
  }

  lemma KeepKeeps(checks: Checks, s: State, did: DefId, d: Definition)
    requires StateOk(checks, s) && did !in s.definitions && d.input in SourceInputs(s.sources)
    ensures Keeps(checks, s, KeepStep(checks, s, did, d).0)
  {
    hide Roomy, Paid, SourceInputs, CacheExact, Inputs;
    NotedKeeps(checks, s, BudgetExceeded);
    CacheGrows(s.definitions, s.value.definitions, did, d);
    RecordCheck.InputsPush(s.value.definitions, d);
  }

  lemma DefineNamedKeeps(checks: Checks, s: State, did: DefId, name: Name, look: Look)
    requires StateOk(checks, s) && did !in s.definitions
    ensures var (t, r) := DefineNamedStep(checks, s, did, name, look);
            && Keeps(checks, s, t) && (r.Some? ==> did in t.definitions && t.definitions[did] == r.value)
  {
    hide StateOk, Grows, LocateStep, Roomy, SourceInputs;
    LocateKeeps(checks, s, look);
    var (t, place) := LocateStep(s, look);
    if place.Some? {
      var d := DefinitionAt(checks, name, place.value);
      KeepKeeps(checks, t, did, d);
      GrowsChain(s, t, KeepStep(checks, t, did, d).0);
    }
  }

  lemma DefineKeeps(checks: Checks, s: State, subject: Subject)
    requires StateOk(checks, s)
    ensures var (t, r) := DefineStep(checks, s, subject);
            && Keeps(checks, s, t)
            && (r.Some? ==> subject.did in t.definitions && t.definitions[subject.did] == r.value)
  {
    hide StateOk, Grows, DefineNamedStep;
    GrowsSelf(checks, s);
    NotedKeeps(checks, s, ExternalIdentityUnknown);
    NotedKeeps(checks, s, BudgetExceeded);
    NotedKeeps(checks, s, UnsupportedDefinition);
    if subject.did !in s.definitions && subject.named.Some? {
      DefineNamedKeeps(checks, s, subject.did, subject.named.value, subject.look);
    }
  }

  /** A definition asked for is returned exactly when it is cached, or supported, located and roomy. */
  lemma DefinedIff(checks: Checks, s: State, subject: Subject)
    requires StateOk(checks, s)
    ensures DefineStep(checks, s, subject).1.Some? <==>
            || subject.did in s.definitions
            || (&& subject.local && |s.value.definitions| < MAX_DEFINITIONS && subject.named.Some?
                && LocateStep(s, subject.look).1.Some?
                && Roomy(checks, WithDefinition(LocateStep(s, subject.look).0.value,
                                                DefinitionAt(checks, subject.named.value,
                                                             LocateStep(s, subject.look).1.value))))
    ensures subject.did !in s.definitions ==>
              DefineStep(checks, s, subject).0.value.definitions
              == s.value.definitions
                 + match DefineStep(checks, s, subject).1 { case Some(d) => [d] case None => [] }
  {
    hide Roomy, LocateStep;
    LocateKeeps(checks, s, subject.look);
  }

  lemma LinkKeeps(checks: Checks, s: State, from: Definition, to: Definition, relation: Relation, look: Look)
    requires StateOk(checks, s)
    ensures Keeps(checks, s, LinkStep(checks, s, from, to, relation, look))
    ensures LinkStep(checks, s, from, to, relation, look).definitions == s.definitions
  {
    hide StateOk, Grows, LocateStep, Roomy;
    LocateKeeps(checks, s, look);
    var (t, place) := LocateStep(s, look);
    NotedKeeps(checks, t, UnsupportedExpansion);
    NotedKeeps(checks, t, BudgetExceeded);
    GrowsChain(s, t, Noted(t, UnsupportedExpansion));
    GrowsChain(s, t, Noted(t, BudgetExceeded));
    if place.Some? {
      var edge := Reference(from, to, relation, place.value.1, place.value.0);
      if Roomy(checks, WithReference(t.value, edge)) {
        ReferenceKept(checks, t, edge);
        GrowsChain(s, t, t.(value := WithReference(t.value, edge)));
      }
    }
  }

  lemma ReferenceKept(checks: Checks, s: State, edge: Reference)
    requires StateOk(checks, s) && Roomy(checks, WithReference(s.value, edge))
    ensures Keeps(checks, s, s.(value := WithReference(s.value, edge)))
  {
    hide Roomy, CacheExact, Paid, SourceInputs, Inputs;
  }

  lemma ReferKeeps(checks: Checks, s: State, source: Subject, target: Subject, relation: Relation, look: Look)
    requires StateOk(checks, s)
    ensures Keeps(checks, s, ReferStep(checks, s, source, target, relation, look))
  {
    hide StateOk, Grows, DefineStep, LinkStep;
    NotedKeeps(checks, s, BudgetExceeded);
    DefineKeeps(checks, s, source);
    var (t, from) := DefineStep(checks, s, source);
    DefineKeeps(checks, t, target);
    var (u, to) := DefineStep(checks, t, target);
    GrowsChain(s, t, u);
    if from.Some? && to.Some? {
      LinkKeeps(checks, u, from.value, to.value, relation, look);
      GrowsChain(s, u, LinkStep(checks, u, from.value, to.value, relation, look));
    }
  }

  /** The reference between what its two subjects are cached as, both retained. */
  ghost predicate Joins(t: State, e: Reference, source: DefId, target: DefId) {
    && source in t.definitions && t.definitions[source] == e.source && e.source in Elems(t.value.definitions)
    && target in t.definitions && t.definitions[target] == e.target && e.target in Elems(t.value.definitions)
    && e.input == e.source.input
  }

  /** At most one reference is added: a new one, and it joins what its two subjects are cached as. */
  lemma ReferJoins(checks: Checks, s: State, source: Subject, target: Subject, relation: Relation, look: Look)
    requires StateOk(checks, s)
    ensures var t := ReferStep(checks, s, source, target, relation, look);
            t.value.references == s.value.references
            || exists e :: && t.value.references == s.value.references + [e] && e !in s.value.references
                           && Joins(t, e, source.did, target.did)
                           && look.Found? && e.relation == relation && e.range == look.range
  {
    hide StateOk, Grows, DefineStep, LinkStep, Roomy, Elems;
    DefineKeeps(checks, s, source);
    var (t, from) := DefineStep(checks, s, source);
    DefineReferences(checks, s, source);
    if from.Some? {
      DefineKeeps(checks, t, target);
      DefineReferences(checks, t, target);
      var (u, to) := DefineStep(checks, t, target);
      if to.Some? {
        CachedSurvives(t, u, source.did);
        LinkJoins(checks, u, source.did, target.did, from.value, to.value, relation, look);
      }
    }
  }

  lemma LinkJoins(checks: Checks, s: State, source: DefId, target: DefId, from: Definition, to: Definition,
                  relation: Relation, look: Look)
    requires StateOk(checks, s) && source in s.definitions && s.definitions[source] == from
    requires target in s.definitions && s.definitions[target] == to
    ensures var t := LinkStep(checks, s, from, to, relation, look);
            t.value.references == s.value.references
            || exists e :: && t.value.references == s.value.references + [e] && e !in s.value.references
                           && Joins(t, e, source, target) && look.Found? && e.relation == relation
                           && e.range == look.range
  {
    hide StateOk, Grows, LinkStep, Roomy, Elems;
    CachedIsRetained(checks, s, source);
    CachedIsRetained(checks, s, target);
    LinkKeeps(checks, s, from, to, relation, look);
    LinkAdds(checks, s, from, to, relation, look);
    if look.Found? {
      var e := Reference(from, to, relation, look.range, from.input);
      assert Joins(LinkStep(checks, s, from, to, relation, look), e, source, target);
    }
  }

  lemma CachedSurvives(s: State, t: State, did: DefId)
    requires Grows(s, t) && did in s.definitions
    ensures did in t.definitions && t.definitions[did] == s.definitions[did]
  {
    hide SourceInputs;
  }

  lemma CachedIsRetained(checks: Checks, s: State, did: DefId)
    requires StateOk(checks, s) && did in s.definitions
    ensures s.definitions[did] in Elems(s.value.definitions)
  {
    hide Roomy, Elems, Paid, SourceInputs, Inputs;
  }

  lemma DefineReferences(checks: Checks, s: State, subject: Subject)
    requires StateOk(checks, s)
    ensures DefineStep(checks, s, subject).0.value.references == s.value.references
  {
    hide Roomy, LocateStep, StateOk;
    LocateKeeps(checks, s, subject.look);
  }

  lemma LinkAdds(checks: Checks, s: State, from: Definition, to: Definition, relation: Relation, look: Look)
    requires StateOk(checks, s)
    ensures var t := LinkStep(checks, s, from, to, relation, look);
            && t.value.definitions == s.value.definitions
            && (t.value.references == s.value.references
                || (&& look.Found? && var e := Reference(from, to, relation, look.range, from.input);
                    e !in s.value.references && t.value.references == s.value.references + [e]))
  {
    hide Roomy, LocateStep, StateOk, Include, Grows;
    LocateKeeps(checks, s, look);
    var (t, place) := LocateStep(s, look);
    if place.Some? && from.input == place.value.0 {
      assert Reference(from, to, relation, place.value.1, place.value.0)
               == Reference(from, to, relation, look.range, from.input);
    }
  }

  lemma ActKeeps(checks: Checks, s: State, call: Call)
    requires StateOk(checks, s)
    ensures Keeps(checks, s, Act(checks, s, call))
  {
    hide StateOk, Grows, DefineStep, ReferStep;
    match call
    case OfDefinition(subject) => DefineKeeps(checks, s, subject);
    case OfReference(source, target, relation, look) => ReferKeeps(checks, s, source, target, relation, look);
  }

  /** Over any calls the record stays roomy and nothing collected on the way is lost. */
  lemma {:induction false} CollectedKeeps(checks: Checks, s: State, calls: seq<Call>, i: nat)
    requires StateOk(checks, s) && i <= |calls|
    ensures StateOk(checks, Collected(checks, s, calls[..i]))
    ensures Keeps(checks, Collected(checks, s, calls[..i]), Collected(checks, s, calls))
    decreases |calls|
  {
    hide StateOk, Grows, Act;
    if i == |calls| {
      assert calls[..i] == calls;
      if calls == [] {
        GrowsSelf(checks, s);
      } else {
        var front := calls[..|calls| - 1];
        CollectedKeeps(checks, s, front, |front|);
        assert front[..|front|] == front;
        ActKeeps(checks, Collected(checks, s, front), calls[|calls| - 1]);
        GrowsSelf(checks, Collected(checks, s, calls));
      }
    } else {
      var front := calls[..|calls| - 1];
      CollectedKeeps(checks, s, front, i);
      assert front[..i] == calls[..i];
      ActKeeps(checks, Collected(checks, s, front), calls[|calls| - 1]);
      GrowsChain(Collected(checks, s, calls[..i]), Collected(checks, s, front), Collected(checks, s, calls));
    }
  }

  lemma StartedOk(checks: Checks, header: Header)
    requires Roomy(checks, Started(header).value)
    ensures StateOk(checks, Started(header))
  {
    hide Roomy;
    assert Inputs([]) == {} && SourceInputs(map[]) == {};
  }

  // ----- the collector itself -----

  class Collector {
    const checks: Checks
    var value: Record
    var definitions: map<DefId, Definition>
    var sources: Sources
    var budget: nat
    var exhausted: bool

    function Abs(): State
      reads this
    {
      State(value, definitions, sources, budget, exhausted)
    }

    ghost predicate Valid()
      reads this
    {
      StateOk(checks, Abs())
    }

    constructor (checks: Checks, header: Header)
      requires Roomy(checks, Started(header).value)
      ensures Valid() && this.checks == checks && Abs() == Started(header)
    {
      this.checks := checks;
      value := Record(header, [], [], [AnalysisCoveragePartial]);
      definitions, sources, budget, exhausted := map[], map[], MAX_SOURCE_TOTAL_BYTES, false;
      StartedOk(checks, header);
    }

    method NoteGap(gap: Gap)
      modifies this`value
      ensures Abs() == Noted(old(Abs()), gap)
    {
      if gap !in value.gaps {
        value := value.(gaps := value.gaps + [gap]);
      }
    }

    /** Try the record as it stands and with the whole gap envelope, and put it back as it was. */
    method FitsWithGapEnvelope() returns (fits: bool)
      requires Distinct(value.gaps)
      modifies this`value
      ensures value == old(value)
      ensures fits <==> Roomy(checks, value)
    {
      hide RecordOk, Distinct;
      var valid := RecordCheck.Validate(checks, value);
      if !valid {
        return false;
      }
      var original := |value.gaps|;
      var i := 0;
      while i < |GAP_ENVELOPE|
        invariant 0 <= i <= |GAP_ENVELOPE|
        invariant value == old(value).(gaps := WithAll(old(value).gaps, GAP_ENVELOPE[..i]))
        invariant |value.gaps| >= original && value.gaps[..original] == old(value).gaps
      {
        assert GAP_ENVELOPE[..i + 1][..i] == GAP_ENVELOPE[..i];
        if GAP_ENVELOPE[i] !in value.gaps {
          value := value.(gaps := value.gaps + [GAP_ENVELOPE[i]]);
        }
        i := i + 1;
      }
      assert GAP_ENVELOPE[..i] == GAP_ENVELOPE;
      fits := RecordCheck.Validate(checks, value);
      value := value.(gaps := value.gaps[..original]);
    }

    method Locate(look: Look) returns (r: Option<(Input, Range)>)
      modifies this`value, this`sources, this`budget, this`exhausted
      ensures (Abs(), r) == LocateStep(old(Abs()), look)
    {
      hide ReadStep, Include;
      if look.Dummy? {
        NoteGap(UnsupportedExpansion);
        return None;
      }
      if look.CrossFile? || look.NoPath? {
        NoteGap(SourceUnavailable);
        return None;
      }
      if look.expansion && !look.underTarget {
        NoteGap(UnsupportedExpansion);
        return None;
      }
      if look.path in sources && (sources[look.path].0 == look.start || look.same(sources[look.path].0)) {
        return Some((sources[look.path].1, look.range));
      }
      var input := ReadInput(look);
      if input.None? {
        return None;
      }
      return Some((input.value, look.range));
    }

    method ReadInput(look: Look) returns (r: Option<Input>)
      requires look.Found?
      modifies this`value, this`sources, this`budget, this`exhausted
      ensures (Abs(), r) == ReadStep(old(Abs()), look)
    {
      hide Include;
      if look.buffer.None? {
        NoteGap(SourceUnavailable);
        return None;
      }
      var buffer := look.buffer.value;
      if buffer.bytes > MAX_SOURCE_BYTES || buffer.bytes > budget {
        exhausted := true;
        NoteGap(BudgetExceeded);
        return None;
      }
      budget := budget - buffer.bytes;
      if look.underTarget {
        NoteGap(GeneratorLineageUnknown);
      } else if !look.underSource {
        NoteGap(SourceUnavailable);
        return None;
      }
      if look.relative.None? {
        return None;
      }
      var input :=
        Input(if look.underTarget then TargetRoot else SourceRoot, look.relative.value, buffer.bytes,
              buffer.fingerprint);
      if look.path in sources && sources[look.path].1 != input {
        NoteGap(SourceChanged);
        return None;
      }
      sources := sources[look.path := (look.start, input)];
      return Some(input);
    }

    /** A definition is answered from the cache, or kept with room to spare, or not kept at all. */
    method Define(subject: Subject) returns (r: Option<Definition>)
      requires Valid()
      modifies this
      ensures Valid() && (Abs(), r) == DefineStep(checks, old(Abs()), subject)
    {
      hide StateOk, Include, Grows, DefineNamedStep;
      DefineKeeps(checks, Abs(), subject);
      if subject.did in definitions {
        return Some(definitions[subject.did]);
      }
      if !subject.local {
        NoteGap(ExternalIdentityUnknown);
        return None;
      }
      if |value.definitions| >= MAX_DEFINITIONS {
        NoteGap(BudgetExceeded);
        return None;
      }
      if subject.named.None? {
        NoteGap(UnsupportedDefinition);
        return None;
      }
      r := DefineNamed(subject.did, subject.named.value, subject.look);
    }

    method DefineNamed(did: DefId, name: Name, look: Look) returns (r: Option<Definition>)
      requires Valid() && did !in definitions
      modifies this
      ensures (Abs(), r) == DefineNamedStep(checks, old(Abs()), did, name, look)
    {
      hide StateOk, LocateStep, KeepStep, Grows;
      LocateKeeps(checks, Abs(), look);
      var found := Locate(look);
      if found.None? {
        return None;
      }
      var d := Definition(name.package, name.path, name.kind, DefinitionKey(name.package, name.path, name.kind),
                          checks.legacyId(name.package, name.path, name.kind), found.value.1, found.value.0);
      var kept := KeepDefinition(did, d);
      return if kept then Some(d) else None;
    }

    /** Push the tuple, and pop it again unless the record has room for every later gap. */
    method KeepDefinition(did: DefId, d: Definition) returns (kept: bool)
      requires Valid()
      modifies this`value, this`definitions
      ensures (Abs(), kept) == KeepStep(checks, old(Abs()), did, d)
      ensures kept <==> Roomy(checks, old(value).(definitions := old(value).definitions + [d]))
    {
      hide RecordOk, Distinct, CacheExact, Paid, Inputs, SourceInputs;
      ghost var before := value;
      value := value.(definitions := value.definitions + [d]);
      kept := FitsWithGapEnvelope();
      if !kept {
        value := value.(definitions := value.definitions[..|value.definitions| - 1]);
        assert value == before;
        NoteGap(BudgetExceeded);
        return;
      }
      definitions := definitions[did := d];
    }

    /** A reference is kept with both its endpoints retained, or not at all. */
    method Refer(source: Subject, target: Subject, relation: Relation, look: Look)
      requires Valid()
      modifies this
      ensures Valid() && Abs() == ReferStep(checks, old(Abs()), source, target, relation, look)
    {
      hide StateOk, Include, Grows, DefineStep, LinkStep;
      ReferKeeps(checks, Abs(), source, target, relation, look);
      if |value.references| >= MAX_REFERENCES {
        NoteGap(BudgetExceeded);
        return;
      }
      var from := Define(source);
      if from.None? {
        return;
      }
      var to := Define(target);
      if to.None? {
        return;
      }
      Link(from.value, to.value, relation, look);
    }

    method Link(from: Definition, to: Definition, relation: Relation, look: Look)
      requires Valid()
      modifies this`value, this`sources, this`budget, this`exhausted
      ensures Abs() == LinkStep(checks, old(Abs()), from, to, relation, look)
    {
      hide StateOk, LocateStep, Include, Grows, Roomy;
      LocateKeeps(checks, Abs(), look);
      var found := Locate(look);
      if found.None? {
        return;
      }
      if from.input != found.value.0 {
        NoteGap(UnsupportedExpansion);
        return;
      }
      var edge := Reference(from, to, relation, found.value.1, found.value.0);
      if edge in value.references {
        return;
      }
      KeepReference(edge);
    }

    method KeepReference(edge: Reference)
      requires Valid()
      modifies this`value
      ensures Roomy(checks, WithReference(old(value), edge)) ==>
                Abs() == old(Abs()).(value := WithReference(old(value), edge))
      ensures !Roomy(checks, WithReference(old(value), edge)) ==> Abs() == Noted(old(Abs()), BudgetExceeded)
    {
      hide RecordOk, Distinct, CacheExact, Paid, Inputs, SourceInputs;
      ghost var before := value;
      value := value.(references := value.references + [edge]);
      var fits := FitsWithGapEnvelope();
      if !fits {
        value := value.(references := value.references[..|value.references| - 1]);
        assert value == before;
        NoteGap(BudgetExceeded);
      }
    }

    /** `publish`: sorted and validated once more; the rejection branch is dead. */
    method Publish(orders: Orders) returns (published: Option<Record>)
      requires Valid() && Stable.StrictWeak(orders.definition) && Stable.StrictWeak(orders.reference)
      ensures published == Some(Sorted(orders, value)) && RecordOk(checks, published.value)
    {
      GapOrderIsStrict();
      SortedIsReordered(orders, value);
      hide Elems, Distinct, DefinitionsOk, ReferencesOk, EnvelopeOk;
      var ds := Stable.Sort(orders.definition, value.definitions);
      var rs := Stable.Sort(orders.reference, value.references);
      var gaps := Stable.Sort(GapOrder(), value.gaps);
      var sorted := Record(value.header, ds, rs, gaps);
      ReorderedStaysValid(checks, value, sorted);
      var valid := RecordCheck.Validate(checks, sorted);
      if !valid {
        return None;
      }
      return Some(sorted);
    }
  }

  function Sorted(orders: Orders, r: Record): Record {
    Record(r.header, Stable.Arrange(orders.definition, r.definitions), Stable.Arrange(orders.reference, r.references),
           Stable.Arrange(GapOrder(), r.gaps))
  }

  /** What is published holds exactly what was collected, in the order asked for. */
  lemma SortedIsReordered(orders: Orders, r: Record)
    requires Stable.StrictWeak(orders.definition) && Stable.StrictWeak(orders.reference)
    ensures Reordered(r, Sorted(orders, r))
    ensures Stable.Ordered(orders.definition, Sorted(orders, r).definitions)
    ensures Stable.Ordered(orders.reference, Sorted(orders, r).references)
  {
    hide Stable.Arrange, Stable.Ordered, Stable.StrictWeak;
    GapOrderIsStrict();
    Stable.ArrangeMeaning(orders.definition, r.definitions);
    Stable.ArrangeMeaning(orders.reference, r.references);
    Stable.ArrangeMeaning(GapOrder(), r.gaps);
  }

  function GapRank(g: Gap): nat {
    match g
    case BudgetExceeded => 0
    case UnsupportedDefinition => 1
    case UnsupportedExpansion => 2
    case SourceUnavailable => 3
    case SourceChanged => 4
    case ExternalIdentityUnknown => 5
    case GeneratorLineageUnknown => 6
    case AnalysisCoveragePartial => 7
  }

  function GapOrder(): (Gap, Gap) -> bool {
    (a: Gap, b: Gap) => GapRank(a) < GapRank(b)
  }

  lemma GapOrderIsStrict()
    ensures Stable.StrictWeak(GapOrder())
  {
  }

  /** Any compilation, whatever the compiler answers and however many calls it makes, ends in a valid record. */
  method Collect(checks: Checks, header: Header, calls: seq<Call>, orders: Orders) returns (published: Option<Record>)
    requires Stable.StrictWeak(orders.definition) && Stable.StrictWeak(orders.reference)
    ensures published.Some? <==>
              checks.header(header)
                && checks.headerSize(header) + 4 + ListSize(checks.gapSize, GAP_ENVELOPE) <= 24 * 1024
    ensures published.Some? ==> AnalysisCoveragePartial in published.value.gaps
    ensures published.Some? ==> published.value == Sorted(orders, Collected(checks, Started(header), calls).value)
    ensures published.Some? ==> RecordOk(checks, published.value) && published.value.header == header
  {
    hide Distinct, RecordOk, StateOk, Act, Grows;
    var empty := Record(header, [], [], [AnalysisCoveragePartial]);
    var fits := RecordCheck.Validate(checks, empty);
    var full := RecordCheck.Validate(checks, empty.(gaps := WithAll(empty.gaps, GAP_ENVELOPE)));
    OneGapDistinct();
    StartsIff(checks, header);
    if !fits || !full {
      return None;
    }
    CollectedHeader(checks, header, calls);
    published := RunCalls(checks, header, calls, orders);
    PartialStays(checks, header, calls, orders);
  }

  /** A collector starts exactly when its header encodes within the bound next to every gap. */
  lemma StartsIff(checks: Checks, header: Header)
    ensures Roomy(checks, Started(header).value) <==>
              checks.header(header)
                && checks.headerSize(header) + 4 + ListSize(checks.gapSize, GAP_ENVELOPE) <= 24 * 1024
  {
    OneGapDistinct();
    NothingOk(checks, {AnalysisCoveragePartial});
    hide Roomy, DefinitionsOk, ReferencesOk, Distinct, Elems;
    RoomyIff(checks, Started(header).value);
    assert Elems([AnalysisCoveragePartial]) == {AnalysisCoveragePartial} by { OneElement(); }
    assert Elems<Definition>([]) == {} by { OneElement(); }
  }

  lemma OneElement()
    ensures Elems([AnalysisCoveragePartial]) == {AnalysisCoveragePartial} && Elems<Definition>([]) == {}
  {
    assert [AnalysisCoveragePartial][..0] == [];
  }

  lemma NothingOk(checks: Checks, gaps: set<Gap>)
    ensures DefinitionsOk(checks, [], gaps) && ReferencesOk({}, [])
  {
    assert Inputs([]) == {};
  }

  /** Coverage is recorded as partial from the start, and stays so in what is published. */
  lemma PartialStays(checks: Checks, header: Header, calls: seq<Call>, orders: Orders)
    requires Roomy(checks, Started(header).value)
    requires Stable.StrictWeak(orders.definition) && Stable.StrictWeak(orders.reference)
    ensures AnalysisCoveragePartial in Sorted(orders, Collected(checks, Started(header), calls).value).gaps
  {
    hide Roomy, StateOk, Act, SourceInputs, Sorted;
    StartedOk(checks, header);
    CollectedKeeps(checks, Started(header), calls, 0);
    assert calls[..0] == [];
    var r := Collected(checks, Started(header), calls).value;
    assert Started(header).value.gaps[0] == AnalysisCoveragePartial && AnalysisCoveragePartial in r.gaps;
    SortedIsReordered(orders, r);
    assert AnalysisCoveragePartial in multiset(r.gaps);
  }

  lemma CollectedHeader(checks: Checks, header: Header, calls: seq<Call>)
    requires Roomy(checks, Started(header).value)
    ensures Collected(checks, Started(header), calls).value.header == header
  {
    hide Roomy, StateOk, Act, SourceInputs;
    StartedOk(checks, header);
    CollectedKeeps(checks, Started(header), calls, 0);
    assert calls[..0] == [];
  }

  method RunCalls(checks: Checks, header: Header, calls: seq<Call>, orders: Orders) returns (published: Option<Record>)
    requires Stable.StrictWeak(orders.definition) && Stable.StrictWeak(orders.reference)
    requires Roomy(checks, Started(header).value)
    ensures published == Some(Sorted(orders, Collected(checks, Started(header), calls).value))
    ensures RecordOk(checks, published.value)
  {
    hide Roomy, StateOk, Sorted, DefineStep, ReferStep, RecordOk;
    var collector := new Collector(checks, header);
    for i := 0 to |calls|
      invariant collector.Valid() && collector.checks == checks && fresh(collector)
      invariant collector.Abs() == Collected(checks, Started(header), calls[..i])
    {
      assert calls[..i + 1][..i] == calls[..i];
      match calls[i] {
        case OfDefinition(subject) => var _ := collector.Define(subject);
        case OfReference(source, target, relation, look) => collector.Refer(source, target, relation, look);
      }
    }
    assert calls[..|calls|] == calls;
    published := collector.Publish(orders);
  }

  lemma OneGapDistinct()
    ensures Distinct([AnalysisCoveragePartial])
  {
  }
}
