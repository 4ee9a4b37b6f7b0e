/**
 Exactly when the collector adds a definition or a reference, which gap it notes otherwise, and what it pays: stated on
 what the compiler says of a span, the sources read so far and the budget.
 */
module CollectorOutcomes {
  import opened Bytes
  import opened Measure
  import opened Occurrences
  import opened Collector

  // ----- where a span lies -----

  /** Outside a file, or in an expansion of a file that is no generated one. */
  predicate Refused(look: Look) {
    !look.Found? || (look.expansion && !look.underTarget)
  }

  /** The file was read before, and this is the same buffer. */
  predicate Known(s: State, look: Look) {
    look.Found? && look.path in s.sources
    && (s.sources[look.path].0 == look.start || look.same(s.sources[look.path].0))
  }

  predicate Reads(s: State, look: Look) {
    !Refused(look) && !Known(s, look)
  }

  predicate Affordable(s: State, look: Look) {
    look.Found? && look.buffer.Some? && look.buffer.value.bytes <= MAX_SOURCE_BYTES
    && look.buffer.value.bytes <= s.budget
  }

  /** The buffer as an input: under the target root if it lies there, else under the source root. */
  predicate Names(look: Look, input: Input) {
    && look.Found? && look.buffer.Some? && look.relative.Some?
    && input.root == (if look.underTarget then TargetRoot else SourceRoot) && input.relative == look.relative.value
    && input.bytes == look.buffer.value.bytes && input.fingerprint == look.buffer.value.fingerprint
  }

  /**
   The span lies in `input`: read before, or affordable, under a root, and not another buffer of a file read before.
   */
  predicate LiesIn(s: State, look: Look, input: Input) {
    && !Refused(look)
    && if Known(s, look) then input == s.sources[look.path].1
       else
         && Affordable(s, look) && (look.underTarget || look.underSource) && Names(look, input)
         && (look.path in s.sources ==> s.sources[look.path].1 == input)
  }

  ghost predicate Placed(s: State, look: Look) {
    exists input :: LiesIn(s, look, input)
  }

  /** The gap each reason to refuse, or to doubt, a span is noted as. */
  predicate NotedFor(s: State, look: Look, gap: Gap) {
    match gap
    case UnsupportedExpansion => look.Dummy? || (look.Found? && look.expansion && !look.underTarget)
    case SourceUnavailable =>
      || look.CrossFile? || look.NoPath?
      || (Reads(s, look) && (look.buffer.None? || (Affordable(s, look) && !look.underTarget && !look.underSource)))
    case BudgetExceeded => Reads(s, look) && look.buffer.Some? && !Affordable(s, look)
    case GeneratorLineageUnknown => Reads(s, look) && Affordable(s, look) && look.underTarget
    case SourceChanged =>
      && Reads(s, look) && Affordable(s, look) && (look.underTarget || look.underSource)
      && look.path in s.sources && look.relative.Some? && !Names(look, s.sources[look.path].1)
    case _ => false
  }

  /** What a look leaves: the span's gaps noted, an affordable read paid for, a new source remembered. */
  ghost predicate LookedAt(s: State, look: Look, t: State) {
    && t.value == s.value.(gaps := t.value.gaps) && t.definitions == s.definitions
    && s.value.gaps <= t.value.gaps
    && (forall g :: g in t.value.gaps <==> g in s.value.gaps || NotedFor(s, look, g))
    && t.budget == (if Reads(s, look) && Affordable(s, look) then s.budget - look.buffer.value.bytes else s.budget)
    && (t.exhausted <==> s.exhausted || (Reads(s, look) && look.buffer.Some? && !Affordable(s, look)))
    && (forall p :: p in t.sources <==>
          p in s.sources || (look.Found? && p == look.path && Placed(s, look)))
    && forall p :: p in t.sources ==>
         if Reads(s, look) && p == look.path && Placed(s, look)
         then t.sources[p].0 == look.start && LiesIn(s, look, t.sources[p].1)
         else p in s.sources && t.sources[p] == s.sources[p]
  }

  lemma NamesOnly(look: Look, a: Input)
    requires Names(look, a)
    ensures a == InputOf(look)
  {
  }

  lemma LocatedAt(s: State, look: Look)
    ensures var place := LocateStep(s, look).1;
            && (place.Some? ==> LiesIn(s, look, place.value.0) && place.value.1 == look.range)
            && forall input :: LiesIn(s, look, input) ==> place == Some((input, look.range))
  {
    hide Include;
    var place := LocateStep(s, look).1;
    if look.Found? && look.buffer.Some? && look.relative.Some? { assert Names(look, InputOf(look)); }
    forall input | LiesIn(s, look, input) ensures place == Some((input, look.range)) {
      if !Known(s, look) { NamesOnly(look, input); }
    }
  }

  /** Only reading a new, affordable buffer costs anything, and exactly its size. */
  lemma LookPays(s: State, look: Look)
    ensures var t := LocateStep(s, look).0;
            && t.value == s.value.(gaps := t.value.gaps) && t.definitions == s.definitions
            && t.budget == (if Reads(s, look) && Affordable(s, look) then s.budget - look.buffer.value.bytes
                            else s.budget)
            && (t.exhausted <==> s.exhausted || (Reads(s, look) && look.buffer.Some? && !Affordable(s, look)))
  {
    hide Include;
  }

  lemma IncludeAdds(gaps: seq<Gap>, gap: Gap)
    ensures gaps <= Include(gaps, gap) && forall g :: g in Include(gaps, gap) <==> g in gaps || g == gap
  {
  }

  /** What a read notes: one gap for its refusal, and one for a generated file. */
  lemma ReadNotes(s: State, look: Look)
    requires Reads(s, look)
    ensures var t := ReadStep(s, look).0;
            s.value.gaps <= t.value.gaps && forall g :: g in t.value.gaps <==> g in s.value.gaps || NotedFor(s, look, g)
  {
    hide Include;
    forall gap { IncludeAdds(s.value.gaps, gap); }
    if Affordable(s, look) {
      var noted := if look.underTarget then Include(s.value.gaps, GeneratorLineageUnknown) else s.value.gaps;
      IncludeAdds(noted, SourceChanged);
      SameNames(s, look);
    }
  }

  lemma SameNames(s: State, look: Look)
    ensures look.Found? && look.path in s.sources && look.buffer.Some? && look.relative.Some? ==>
              (Names(look, s.sources[look.path].1) <==> s.sources[look.path].1 == InputOf(look))
  {
  }

  /** A look notes a gap exactly when the span gives its reason. */
  lemma LookNotes(s: State, look: Look)
    ensures var t := LocateStep(s, look).0;
            s.value.gaps <= t.value.gaps && forall g :: g in t.value.gaps <==> g in s.value.gaps || NotedFor(s, look, g)
  {
    hide Include, ReadStep, Affordable, Names;
    forall gap { IncludeAdds(s.value.gaps, gap); }
    if Reads(s, look) { ReadNotes(s, look); }
  }

  /** Only an input that is located is remembered. */
  lemma LookRemembers(s: State, look: Look)
    ensures var (t, place) := LocateStep(s, look);
            t.sources == if place.Some? && !Known(s, look) then s.sources[look.path := (look.start, place.value.0)]
                         else s.sources
  {
    hide Include;
  }

  /** A span is located exactly where it lies, by its own range. */
  lemma LocatedExact(s: State, look: Look)
    ensures var (t, place) := LocateStep(s, look);
            && (forall input, range :: place == Some((input, range)) <==>
                  LiesIn(s, look, input) && range == look.range)
            && LookedAt(s, look, t)
  {
    hide LocateStep, LiesIn, NotedFor, Affordable, Known;
    LocatedAt(s, look);
    LookPays(s, look);
    LookNotes(s, look);
    LookRemembers(s, look);
    var (t, place) := LocateStep(s, look);
    assert Placed(s, look) <==> place.Some?;
    PlacedWhere(s, look);
  }

  lemma PlacedWhere(s: State, look: Look)
    ensures Placed(s, look) ==> look.Found? && (!Known(s, look) ==> Reads(s, look))
    ensures Known(s, look) ==> look.Found? && look.path in s.sources && !Reads(s, look)
  {
  }

  // ----- when a definition is returned -----

  /** The tuple of a named definition at a place. */
  predicate Tuple(checks: Checks, d: Definition, name: Name, input: Input, range: Range) {
    && d.package == name.package && d.path == name.path && d.kind == name.kind && d.input == input && d.range == range
    && d.key == DefinitionKey(name.package, name.path, name.kind)
    && d.legacyId == checks.legacyId(name.package, name.path, name.kind)
  }

  /** A new definition of the subject can be kept: local, within the count, supported, located, and roomy. */
  ghost predicate Keepable(checks: Checks, s: State, subject: Subject, looked: Record, d: Definition) {
    && subject.local && |s.value.definitions| < MAX_DEFINITIONS && subject.named.Some? && subject.look.Found?
    && LiesIn(s, subject.look, d.input) && Tuple(checks, d, subject.named.value, d.input, subject.look.range)
    && Roomy(checks, WithDefinition(looked, d))
  }

  lemma TupleOnly(checks: Checks, d: Definition, name: Name, place: (Input, Range))
    ensures Tuple(checks, d, name, place.0, place.1) <==> d == DefinitionAt(checks, name, place)
  {
  }

  /** A definition not cached is answered exactly when it can be kept. */
  lemma NewDefinitionIff(checks: Checks, s: State, subject: Subject, d: Definition)
    requires subject.did !in s.definitions
    ensures DefineStep(checks, s, subject).1 == Some(d) <==>
              Keepable(checks, s, subject, LocateStep(s, subject.look).0.value, d)
  {
    hide LocateStep, Roomy, DefinitionAt, Tuple, LiesIn, Include;
    LocatedAt(s, subject.look);
    var (t, place) := LocateStep(s, subject.look);
    if subject.named.Some? && place.Some? {
      var input, range := place.value.0, place.value.1;
      assert LiesIn(s, subject.look, input) && subject.look.Found? by { PlacedFound(s, subject.look, input); }
      TupleOnly(checks, d, subject.named.value, (input, range));
      TuplePlace(checks, d, subject.named.value, (input, range));
      assert LiesIn(s, subject.look, d.input) ==> d.input == input;
    }
  }

  lemma PlacedFound(s: State, look: Look, input: Input)
    requires LiesIn(s, look, input)
    ensures look.Found?
  {
  }

  lemma TuplePlace(checks: Checks, d: Definition, name: Name, place: (Input, Range))
    ensures d == DefinitionAt(checks, name, place) ==> d.input == place.0 && d.range == place.1
  {
  }

  /** The answer is the cached one, or else the one keepable tuple, which is then added and cached. */
  lemma DefinedExact(checks: Checks, s: State, subject: Subject)
    ensures var (t, r) := DefineStep(checks, s, subject);
            var looked := LocateStep(s, subject.look).0;
            && t.value.references == s.value.references
            && (subject.did in s.definitions ==> t == s && r == Some(s.definitions[subject.did]))
            && (subject.did !in s.definitions ==>
                  && (forall d :: r == Some(d) <==> Keepable(checks, s, subject, looked.value, d))
                  && (r.Some? ==> t == looked.(value := WithDefinition(looked.value, r.value),
                                               definitions := looked.definitions[subject.did := r.value]))
                  && (r.None? ==> t.value.definitions == s.value.definitions && t.definitions == s.definitions))
  {
    hide LocateStep, Roomy, DefinitionAt, LookedAt, Include, Keepable;
    LocatedExact(s, subject.look);
    LookPays(s, subject.look);
    if subject.did !in s.definitions {
      forall d { NewDefinitionIff(checks, s, subject, d); }
    }
  }

  /** Why a definition that is not cached is refused before its span is looked at. */
  lemma RefusalNoted(checks: Checks, s: State, subject: Subject)
    requires subject.did !in s.definitions
    ensures var t := DefineStep(checks, s, subject).0;
            && (!subject.local ==> t == Noted(s, ExternalIdentityUnknown))
            && (subject.local && |s.value.definitions| >= MAX_DEFINITIONS ==> t == Noted(s, BudgetExceeded))
            && (subject.local && |s.value.definitions| < MAX_DEFINITIONS && subject.named.None? ==>
                  t == Noted(s, UnsupportedDefinition))
  {
    hide LocateStep, Roomy;
  }

  // ----- when a reference is added -----

  /** The edge between two tuples, at its span. */
  function EdgeAt(from: Definition, to: Definition, relation: Relation, look: Look): Reference
    requires look.Found?
  {
    Reference(from, to, relation, look.range, from.input)
  }

  /** The span lies in the source's own input, the edge is new, and the record with it has room. */
  ghost predicate Linkable(checks: Checks, s: State, from: Definition, to: Definition, relation: Relation, look: Look,
                           looked: Record)
  {
    && look.Found? && LiesIn(s, look, from.input) && EdgeAt(from, to, relation, look) !in s.value.references
    && Roomy(checks, WithReference(looked, EdgeAt(from, to, relation, look)))
  }

  /** Between two kept tuples the edge is added exactly when it can be linked. */
  lemma LinkExact(checks: Checks, s: State, from: Definition, to: Definition, relation: Relation, look: Look)
    ensures var w, looked := LinkStep(checks, s, from, to, relation, look), LocateStep(s, look).0.value;
            w.value.references == if Linkable(checks, s, from, to, relation, look, looked)
                                  then s.value.references + [EdgeAt(from, to, relation, look)]
                                  else s.value.references
  {
    hide LocateStep, Roomy, LiesIn, Include;
    LocatedAt(s, look);
    LookPays(s, look);
    var (t, place) := LocateStep(s, look);
    if place.Some? { PlacedFound(s, look, place.value.0); }
    if LiesIn(s, look, from.input) {
      assert place == Some((from.input, look.range));
    } else if place.Some? {
      assert place.value.0 != from.input;
    }
  }

  /** What linking notes beyond the look: another input's span, or a record without room for the new edge. */
  lemma LinkNotes(checks: Checks, s: State, from: Definition, to: Definition, relation: Relation, look: Look)
    ensures var t, w := LocateStep(s, look).0, LinkStep(checks, s, from, to, relation, look);
            && w == t.(value := w.value) && w.value.definitions == s.value.definitions
            && forall g :: g in w.value.gaps <==>
                 || g in t.value.gaps
                 || (g == UnsupportedExpansion && Placed(s, look) && !LiesIn(s, look, from.input))
                 || (g == BudgetExceeded && look.Found? && LiesIn(s, look, from.input)
                     && EdgeAt(from, to, relation, look) !in s.value.references
                     && !Linkable(checks, s, from, to, relation, look, t.value))
  {
    hide LocateStep, Roomy, LiesIn, Include;
    LocatedAt(s, look);
    LookPays(s, look);
    var (t, place) := LocateStep(s, look);
    forall gap { IncludeAdds(t.value.gaps, gap); }
    if place.Some? {
      PlacedFound(s, look, place.value.0);
      assert Placed(s, look);
    }
    if LiesIn(s, look, from.input) {
      assert place == Some((from.input, look.range));
    } else if place.Some? {
      assert place.value.0 != from.input;
    }
  }

  /**
   A named, local definition within the count that is located but not kept is noted as over the budget, and only so.
   */
  lemma DefineNotes(checks: Checks, s: State, subject: Subject)
    requires subject.did !in s.definitions && subject.local && subject.named.Some?
    requires |s.value.definitions| < MAX_DEFINITIONS
    ensures var t, (w, r) := LocateStep(s, subject.look).0, DefineStep(checks, s, subject);
            && w == t.(value := w.value, definitions := w.definitions)
            && forall g :: g in w.value.gaps <==>
                 g in t.value.gaps || (g == BudgetExceeded && Placed(s, subject.look) && r.None?)
  {
    hide LocateStep, Roomy, LiesIn, Include, DefinitionAt;
    LocatedAt(s, subject.look);
    var (t, place) := LocateStep(s, subject.look);
    forall gap { IncludeAdds(t.value.gaps, gap); }
  }

  /**
   A reference is added exactly when there is a free slot, both subjects are defined, the span lies in the source's own
   input, the edge is new, and the record with it has room; otherwise the references stay.
   */
  lemma ReferenceAddedIff(checks: Checks, s: State, source: Subject, target: Subject, relation: Relation, look: Look)
    ensures var w := ReferStep(checks, s, source, target, relation, look);
            var (t, from) := DefineStep(checks, s, source);
            var (u, to) := DefineStep(checks, t, target);
            w.value.references
              == if && |s.value.references| < MAX_REFERENCES && from.Some? && to.Some?
                    && Linkable(checks, u, from.value, to.value, relation, look, LocateStep(u, look).0.value)
                 then s.value.references + [EdgeAt(from.value, to.value, relation, look)]
                 else s.value.references
  {
    hide DefineStep, LocateStep, LinkStep, Linkable, Keepable, Include;
    DefinedExact(checks, s, source);
    var (t, from) := DefineStep(checks, s, source);
    DefinedExact(checks, t, target);
    var (u, to) := DefineStep(checks, t, target);
    if from.Some? && to.Some? { LinkExact(checks, u, from.value, to.value, relation, look); }
  }

  /** Over any calls: asking for a definition that is not cached adds the one keepable tuple, or none. */
  lemma OneMoreDefinition(checks: Checks, s: State, calls: seq<Call>, subject: Subject, d: Definition)
    ensures var before, after := Collected(checks, s, calls), Collected(checks, s, calls + [OfDefinition(subject)]);
            var looked := LocateStep(before, subject.look).0.value;
            && after.value.references == before.value.references
            && (subject.did in before.definitions ==> after == before)
            && (subject.did !in before.definitions ==>
                  (Keepable(checks, before, subject, looked, d) <==>
                     && after.definitions == before.definitions[subject.did := d]
                     && after.value.definitions == before.value.definitions + [d]))
  {
    hide DefineStep, LocateStep, Keepable;
    var before := Collected(checks, s, calls);
    assert (calls + [OfDefinition(subject)])[..|calls|] == calls;
    DefinedExact(checks, before, subject);
    LookPays(before, subject.look);
    var r := DefineStep(checks, before, subject).1;
    if subject.did !in before.definitions && r.Some? {
      assert (before.definitions[subject.did := d])[subject.did] == d;
      assert (before.definitions[subject.did := r.value])[subject.did] == r.value;
    }
  }

  /** Over any calls: a reference call adds its edge exactly when that is linkable then. */
  lemma OneMoreReference(checks: Checks, s: State, calls: seq<Call>, source: Subject, target: Subject,
                         relation: Relation, look: Look)
    ensures var before := Collected(checks, s, calls);
            var after := Collected(checks, s, calls + [OfReference(source, target, relation, look)]);
            var (t, from) := DefineStep(checks, before, source);
            var (u, to) := DefineStep(checks, t, target);
            after.value.references
              == if && |before.value.references| < MAX_REFERENCES && from.Some? && to.Some?
                    && Linkable(checks, u, from.value, to.value, relation, look, LocateStep(u, look).0.value)
                 then before.value.references + [EdgeAt(from.value, to.value, relation, look)]
                 else before.value.references
  {
    hide DefineStep, ReferStep, LocateStep, Linkable;
    assert (calls + [OfReference(source, target, relation, look)])[..|calls|] == calls;
    ReferenceAddedIff(checks, Collected(checks, s, calls), source, target, relation, look);
  }
}
