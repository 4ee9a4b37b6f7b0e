/**
 Assembling a bounded attachment: records are admitted while their encoded size fits, and
 evicted again when the witnesses of what was lost need the room. Encoded size is an
 arbitrary additive measure: per-record sizes, commas and brackets.
 */
module Assembly {
  import opened Bytes
  import opened Measure
  import opened TextOrder
  import Stable

  const MAX_ATTACHMENT_BYTES := 8 * 1024 * 1024
  const MAX_INVOCATION_BYTES := 32 * 1024
  const MAX_FILES := 128

  /** Everything of an attachment outside its collections; the fallback blanks it. */
  datatype Header = Full(content: Bytes) | Blank

  datatype Invocation = Invocation(unitKey: Bytes, content: Bytes)

  datatype Generator = Generator(content: Bytes)

  /** A semantic stream names the invocation it belongs to by its position. */
  datatype Stream = Stream(invocation: nat, content: Bytes)

  datatype Gap = BudgetExceeded | MalformedObservation | ConflictingUnit | OtherGap(code: nat)

  datatype Truncation = Truncation(collection: string, observed: nat, retained: nat, exact: bool)

  /** `gaps` is kept sorted and duplicate-free, so it is a set. */
  datatype Attachment = Attachment(
    header: Header, invocations: seq<Invocation>, generators: seq<Generator>, streams: seq<Stream>,
    truncations: seq<Truncation>, gaps: set<Gap>)

  datatype Dropped = Dropped(invocations: nat, generators: nat, streams: nat)

  // ----- encoded size -----

  datatype Encoding = Encoding(
    header: Header -> nat, invocation: Invocation -> nat, generator: Generator -> nat, stream: Stream -> nat,
    truncation: Truncation -> nat, gaps: set<Gap> -> nat, streamsField: nat)

  /** The streams field is left out altogether when there are none. */
  function Size(e: Encoding, r: Attachment): nat {
    e.header(r.header) + ListSize(e.invocation, r.invocations) + ListSize(e.generator, r.generators)
    + ListSize(e.truncation, r.truncations) + e.gaps(r.gaps)
    + if r.streams == [] then 0 else e.streamsField + ListSize(e.stream, r.streams)
  }

  // ----- loss witnesses -----

  const INVOCATIONS := "assembled_invocations"
  const GENERATORS := "assembled_generators"
  const STREAMS := "assembled_semantic_streams"

  predicate Own(t: Truncation) {
    t.collection == INVOCATIONS || t.collection == GENERATORS || t.collection == STREAMS
  }

  /** Witnesses of earlier stages, which assembly leaves alone. */
  function Foreign(ts: seq<Truncation>): seq<Truncation> {
    if ts == [] then []
    else Foreign(ts[..|ts| - 1]) + if Own(ts[|ts| - 1]) then [] else [ts[|ts| - 1]]
  }

  function Note(collection: string, dropped: nat, retained: nat): seq<Truncation> {
    if dropped > 0 then [Truncation(collection, retained + dropped, retained, true)] else []
  }

  function OwnWitnesses(d: Dropped, r: Attachment): seq<Truncation> {
    Note(INVOCATIONS, d.invocations, |r.invocations|) + Note(STREAMS, d.streams, |r.streams|)
    + Note(GENERATORS, d.generators, |r.generators|)
  }

  /** `losses`: the attachment with its own witnesses brought up to date. */
  function Witnessed(d: Dropped, r: Attachment): Attachment {
    var ts := Foreign(r.truncations) + OwnWitnesses(d, r);
    r.(truncations := ts, gaps := if ts == [] then r.gaps else r.gaps + {BudgetExceeded})
  }

  lemma ForeignAppend(ts: seq<Truncation>, t: Truncation)
    ensures Foreign(ts + [t]) == Foreign(ts) + if Own(t) then [] else [t]
  {
    assert (ts + [t])[..|ts|] == ts;
  }

  lemma {:induction false} ForeignConcat(a: seq<Truncation>, b: seq<Truncation>)
    ensures Foreign(a + b) == Foreign(a) + Foreign(b)
    decreases |b|
  {
    if b == [] {
      assert a + b == a;
    } else {
      ForeignConcat(a, b[..|b| - 1]);
      assert (a + b)[..|a + b| - 1] == a + b[..|b| - 1];
    }
  }

  lemma {:induction false} ForeignStays(ts: seq<Truncation>)
    ensures Foreign(Foreign(ts)) == Foreign(ts)
    decreases |ts|
  {
    if ts != [] {
      var front, last := ts[..|ts| - 1], ts[|ts| - 1];
      ForeignStays(front);
      ForeignAppend(Foreign(front), last);
      assert Foreign(front) + [] == Foreign(front);
    }
  }

  lemma OwnWitnessesAreOwn(d: Dropped, r: Attachment)
    ensures Foreign(OwnWitnesses(d, r)) == []
  {
    var a, b, c := Note(INVOCATIONS, d.invocations, |r.invocations|), Note(STREAMS, d.streams, |r.streams|),
                   Note(GENERATORS, d.generators, |r.generators|);
    NoteIsOwn(INVOCATIONS, d.invocations, |r.invocations|);
    NoteIsOwn(STREAMS, d.streams, |r.streams|);
    NoteIsOwn(GENERATORS, d.generators, |r.generators|);
    ForeignConcat(a, b);
    ForeignConcat(a + b, c);
  }

  lemma NoteIsOwn(collection: string, dropped: nat, retained: nat)
    requires collection == INVOCATIONS || collection == GENERATORS || collection == STREAMS
    ensures Foreign(Note(collection, dropped, retained)) == []
  {
    ForeignAppend([], Truncation(collection, retained + dropped, retained, true));
    assert [] + Note(collection, dropped, retained) == Note(collection, dropped, retained);
  }

  /** Bringing the witnesses up to date again starts from the same foreign ones. */
  lemma WitnessedForeign(d: Dropped, r: Attachment)
    ensures Foreign(Witnessed(d, r).truncations) == Foreign(r.truncations)
  {
    ForeignConcat(Foreign(r.truncations), OwnWitnesses(d, r));
    ForeignStays(r.truncations);
    OwnWitnessesAreOwn(d, r);
  }

  // ----- eviction -----

  predicate Empty(r: Attachment) {
    r.streams == [] && r.generators == [] && r.invocations == []
  }

  /** One eviction: streams go first, then generators, then invocations, each from the end. */
  function Evict(d: Dropped, r: Attachment): (Dropped, Attachment)
    requires !Empty(r)
  {
    if r.streams != [] then (d.(streams := d.streams + 1), r.(streams := r.streams[..|r.streams| - 1]))
    else if r.generators != [] then
      (d.(generators := d.generators + 1), r.(generators := r.generators[..|r.generators| - 1]))
    else (d.(invocations := d.invocations + 1), r.(invocations := r.invocations[..|r.invocations| - 1]))
  }

  function Records(r: Attachment): nat {
    |r.streams| + |r.generators| + |r.invocations|
  }

  /** The state after `k` evictions, witnesses included. */
  function Evicted(d: Dropped, r: Attachment, k: nat): (Dropped, Attachment)
    requires k <= Records(r)
    ensures Records(Evicted(d, r, k).1) == Records(r) - k
  {
    if k == 0 then (d, Witnessed(d, r))
    else
      var (e, q) := Evicted(d, r, k - 1);
      var (f, s) := Evict(e, q);
      (f, Witnessed(f, s))
  }

  /** What survives `k` evictions of `r`, by count and by content. */
  ghost predicate Survives(d: Dropped, r: Attachment, e: Dropped, q: Attachment) {
    && q.header == r.header
    && q.streams <= r.streams && q.generators <= r.generators && q.invocations <= r.invocations
    && |q.streams| + e.streams == |r.streams| + d.streams
    && |q.generators| + e.generators == |r.generators| + d.generators
    && |q.invocations| + e.invocations == |r.invocations| + d.invocations
    && (e.generators > d.generators ==> q.streams == [])
    && (e.invocations > d.invocations ==> q.streams == [] && q.generators == [])
    && Foreign(q.truncations) == Foreign(r.truncations)
    && q.truncations == Foreign(r.truncations) + OwnWitnesses(e, q)
    && r.gaps <= q.gaps <= r.gaps + {BudgetExceeded}
    && (q.truncations != [] ==> BudgetExceeded in q.gaps)
  }

  /** One more eviction keeps the account, given that the order was kept so far. */
  lemma EvictSurvives(d: Dropped, r: Attachment, e: Dropped, q: Attachment)
    requires Survives(d, r, e, q) && !Empty(q)
    ensures var (f, s) := Evict(e, q); Survives(d, r, f, Witnessed(f, s))
  {
    hide Own, Note;
    var (f, s) := Evict(e, q);
    WitnessedForeign(f, s);
    assert s.streams <= q.streams && s.generators <= q.generators && s.invocations <= q.invocations;
  }

  lemma {:induction false} EvictedSurvives(d: Dropped, r: Attachment, k: nat)
    requires k <= Records(r)
    ensures var (e, q) := Evicted(d, r, k); Survives(d, r, e, q)
    decreases k
  {
    if k == 0 {
      WitnessedForeign(d, r);
    } else {
      hide Survives, Witnessed;
      EvictedSurvives(d, r, k - 1);
      var (e, q) := Evicted(d, r, k - 1);
      EvictSurvives(d, r, e, q);
    }
  }

  ghost predicate Fits(e: Encoding, r: Attachment) {
    Size(e, r) <= MAX_ATTACHMENT_BYTES
  }

  datatype Outcome = Kept(lost: Dropped, value: Attachment) | Exhausted(lost: Dropped, value: Attachment)

  /** The eviction loop stops at the first state that fits. */
  ghost predicate FirstFit(e: Encoding, d: Dropped, r: Attachment, k: nat, o: Outcome) {
    && k <= Records(r)
    && (o.lost, o.value) == Evicted(d, r, k)
    && (forall j :: 0 <= j < k ==> !Fits(e, Evicted(d, r, j).1))
    && (o.Kept? ==> Fits(e, o.value))
    && (o.Exhausted? ==> k == Records(r) && !Fits(e, o.value))
  }

  // ----- what is published when the records fit -----

  function WitnessCount(collection: string, dropped: nat, retained: nat, t: Truncation): nat {
    if dropped > 0 && t == Truncation(collection, retained + dropped, retained, true) then 1 else 0
  }

  /** Exactly one exact witness when something of the collection was dropped, none otherwise. */
  ghost predicate Accounts(ts: seq<Truncation>, collection: string, dropped: nat, retained: nat) {
    forall t: Truncation :: t.collection == collection ==>
      multiset(ts)[t] == WitnessCount(collection, dropped, retained, t)
  }

  ghost predicate SameForeign(ts: seq<Truncation>, us: seq<Truncation>) {
    forall t: Truncation :: !Own(t) ==> multiset(ts)[t] == multiset(us)[t]
  }

  predicate InRange(r: Attachment) {
    forall i :: 0 <= i < |r.streams| ==> r.streams[i].invocation < |r.invocations|
  }

  /** The account of an attachment whose records fit: `d` and `r` before, `e` and `q` after. */
  ghost predicate Sound(d: Dropped, r: Attachment, e: Dropped, q: Attachment) {
    && q.header == r.header
    && q.streams <= r.streams && q.generators <= r.generators && q.invocations <= r.invocations
    && |q.streams| + e.streams == |r.streams| + d.streams
    && |q.generators| + e.generators == |r.generators| + d.generators
    && |q.invocations| + e.invocations == |r.invocations| + d.invocations
    && Accounts(q.truncations, STREAMS, e.streams, |q.streams|)
    && Accounts(q.truncations, GENERATORS, e.generators, |q.generators|)
    && Accounts(q.truncations, INVOCATIONS, e.invocations, |q.invocations|)
    && SameForeign(q.truncations, r.truncations)
    && (q.truncations != [] ==> BudgetExceeded in q.gaps)
    && (InRange(r) ==> InRange(q))
  }

  lemma {:induction false} ForeignCounts(ts: seq<Truncation>, t: Truncation)
    ensures multiset(Foreign(ts))[t] == if Own(t) then 0 else multiset(ts)[t]
    decreases |ts|
  {
    if ts != [] {
      var front, last := ts[..|ts| - 1], ts[|ts| - 1];
      ForeignCounts(front, t);
      assert ts == front + [last];
      assert multiset(ts) == multiset(front) + multiset{last};
      assert multiset(Foreign(front) + [last]) == multiset(Foreign(front)) + multiset{last};
    }
  }

  lemma NoteCount(collection: string, dropped: nat, retained: nat, t: Truncation)
    ensures multiset(Note(collection, dropped, retained))[t] == WitnessCount(collection, dropped, retained, t)
  {
  }

  lemma NotesCount(d: Dropped, r: Attachment, t: Truncation)
    ensures multiset(OwnWitnesses(d, r))[t] ==
            WitnessCount(INVOCATIONS, d.invocations, |r.invocations|, t)
                + WitnessCount(STREAMS, d.streams, |r.streams|, t)
            + WitnessCount(GENERATORS, d.generators, |r.generators|, t)
  {
    var a, b, c := Note(INVOCATIONS, d.invocations, |r.invocations|), Note(STREAMS, d.streams, |r.streams|),
                   Note(GENERATORS, d.generators, |r.generators|);
    NoteCount(INVOCATIONS, d.invocations, |r.invocations|, t);
    NoteCount(STREAMS, d.streams, |r.streams|, t);
    NoteCount(GENERATORS, d.generators, |r.generators|, t);
    assert multiset(a + b + c) == multiset(a) + multiset(b) + multiset(c);
  }

  lemma NamesDiffer()
    ensures INVOCATIONS != STREAMS && STREAMS != GENERATORS && GENERATORS != INVOCATIONS
  {
    assert |INVOCATIONS| == 21 && |GENERATORS| == 20 && |STREAMS| == 26;
  }

  /** The witnesses after an update: the assembly's own are exact, everyone else's are as they were. */
  lemma WitnessesAccount(d: Dropped, q: Attachment, original: seq<Truncation>, t: Truncation)
    requires q.truncations == Foreign(original) + OwnWitnesses(d, q)
    ensures t.collection == STREAMS ==> multiset(q.truncations)[t] == WitnessCount(STREAMS, d.streams, |q.streams|, t)
    ensures t.collection == GENERATORS ==>
              multiset(q.truncations)[t] == WitnessCount(GENERATORS, d.generators, |q.generators|, t)
    ensures t.collection == INVOCATIONS ==>
              multiset(q.truncations)[t] == WitnessCount(INVOCATIONS, d.invocations, |q.invocations|, t)
    ensures !Own(t) ==> multiset(q.truncations)[t] == multiset(original)[t]
  {
    hide OwnWitnesses, Foreign;
    ForeignCounts(original, t);
    NotesCount(d, q, t);
    NamesDiffer();
    assert multiset(q.truncations) == multiset(Foreign(original)) + multiset(OwnWitnesses(d, q));
  }

  lemma SurvivalIsSound(d: Dropped, r: Attachment, e: Dropped, q: Attachment)
    requires Survives(d, r, e, q)
    ensures Sound(d, r, e, q)
  {
    hide OwnWitnesses, Foreign, WitnessCount;
    forall t: Truncation
      ensures t.collection == STREAMS ==> multiset(q.truncations)[t] == WitnessCount(STREAMS, e.streams, |q.streams|, t)
      ensures t.collection == GENERATORS ==>
                multiset(q.truncations)[t] == WitnessCount(GENERATORS, e.generators, |q.generators|, t)
      ensures t.collection == INVOCATIONS ==>
                multiset(q.truncations)[t] == WitnessCount(INVOCATIONS, e.invocations, |q.invocations|, t)
      ensures !Own(t) ==> multiset(q.truncations)[t] == multiset(r.truncations)[t]
    {
      WitnessesAccount(e, q, r.truncations, t);
    }
    if InRange(r) && q.streams != [] {
      assert q.invocations == r.invocations;
    }
  }

  /** Reordering the witnesses changes neither the account nor the encoded size. */
  lemma ReorderingKeeps(e: Encoding, d: Dropped, r: Attachment, f: Dropped, q: Attachment, ts: seq<Truncation>)
    requires Sound(d, r, f, q) && multiset(ts) == multiset(q.truncations)
    ensures Sound(d, r, f, q.(truncations := ts)) && Size(e, q.(truncations := ts)) == Size(e, q)
  {
    SumOfSamePile(e.truncation, ts, q.truncations);
  }

  // ----- the fallback attachment -----

  predicate NameChar(c: char) {
    'a' <= c <= 'z' || 'A' <= c <= 'Z' || '0' <= c <= '9' || c == '_'
  }

  /** A witness the attachment's own validation accepts. */
  predicate ValidWitness(t: Truncation) {
    t.observed > t.retained && 0 < |t.collection| <= 64 && forall i :: 0 <= i < |t.collection| ==>
      NameChar(t.collection[i])
  }

  function ValidOnes(ts: seq<Truncation>): seq<Truncation> {
    if ts == [] then []
    else ValidOnes(ts[..|ts| - 1]) + if ValidWitness(ts[|ts| - 1]) then [ts[|ts| - 1]] else []
  }

  /** The fallback clears the collections, and says so in two of the three witnesses. */
  function Zeroed(t: Truncation): Truncation {
    if t.collection == INVOCATIONS || t.collection == GENERATORS then t.(retained := 0) else t
  }

  function FirstValid(ts: seq<Truncation>): seq<Truncation> {
    var valid := ValidOnes(ts);
    if |valid| > MAX_FILES - 1 then valid[..MAX_FILES - 1] else valid
  }

  function GapWitnesses(ts: seq<Truncation>): seq<Truncation> {
    var kept := FirstValid(ts);
    seq(|kept|, i requires 0 <= i < |kept| => Zeroed(kept[i]))
    + if |ts| > |kept| then [Truncation("budget_witnesses", |ts|, |kept|, true)] else []
  }

  function GapAttachment(r: Attachment): Attachment {
    var ts := GapWitnesses(r.truncations);
    Attachment(Blank, [], [], [], ts, if ts == [] then r.gaps else r.gaps + {BudgetExceeded})
  }

  lemma {:induction false} ValidOnesAreValid(ts: seq<Truncation>)
    ensures |ValidOnes(ts)| <= |ts| && forall i :: 0 <= i < |ValidOnes(ts)| ==> ValidWitness(ValidOnes(ts)[i])
    decreases |ts|
  {
    if ts != [] {
      hide ValidWitness;
      ValidOnesAreValid(ts[..|ts| - 1]);
    }
  }

  /** Whatever it is given, the fallback's witnesses pass validation: few enough, well named, each reporting a loss. */
  lemma FallbackWitnessesValid(r: Attachment)
    ensures var q := GapAttachment(r);
            && |q.truncations| <= MAX_FILES
            && (forall i :: 0 <= i < |q.truncations| ==> ValidWitness(q.truncations[i]))
            && (q.truncations != [] ==> BudgetExceeded in q.gaps)
  {
    ValidOnesAreValid(r.truncations);
    var kept := FirstValid(r.truncations);
    forall i | 0 <= i < |kept| ensures ValidWitness(Zeroed(kept[i])) {
      assert ValidWitness(kept[i]);
    }
    NameIsValid("budget_witnesses");
  }

  lemma NameIsValid(name: string)
    requires name == "budget_witnesses"
    ensures |name| == 16 && forall i :: 0 <= i < |name| ==> NameChar(name[i])
  {
  }

  /** Every witness of an assembled collection states what the attachment really holds of it. */
  ghost predicate Honest(r: Attachment) {
    forall i :: 0 <= i < |r.truncations| ==>
      && (r.truncations[i].collection == INVOCATIONS ==> r.truncations[i].retained == |r.invocations|)
      && (r.truncations[i].collection == GENERATORS ==> r.truncations[i].retained == |r.generators|)
      && (r.truncations[i].collection == STREAMS ==> r.truncations[i].retained == |r.streams|)
  }

  /** The fallback overstates a witness exactly when one it keeps reports retained streams. */
  lemma FallbackHonestIff(r: Attachment)
    ensures Honest(GapAttachment(r)) <==>
            forall i :: 0 <= i < |FirstValid(r.truncations)| && FirstValid(r.truncations)[i].collection == STREAMS ==>
              FirstValid(r.truncations)[i].retained == 0
  {
    var kept, q := FirstValid(r.truncations), GapAttachment(r);
    NamesDiffer();
    assert |"budget_witnesses"| == 16 && |INVOCATIONS| == 21 && |GENERATORS| == 20 && |STREAMS| == 26;
    assert forall i :: 0 <= i < |kept| ==> q.truncations[i] == Zeroed(kept[i]);
    forall i | 0 <= i < |kept| && kept[i].collection == STREAMS && Honest(q) ensures kept[i].retained == 0 {
      assert q.truncations[i] == Zeroed(kept[i]);
    }
  }

  // ----- what `finish` publishes -----

  function ByCollection(): (Truncation, Truncation) -> bool {
    (a: Truncation, b: Truncation) => Before(a.collection, b.collection)
  }

  lemma CollectionOrders()
    ensures Stable.StrictWeak(ByCollection())
  {
    forall a, b | ByCollection()(a, b) ensures !ByCollection()(b, a) {
      LessIrreflexive(Codes(a.collection));
      if ByCollection()(b, a) { BeforeTransitive(a.collection, b.collection, a.collection); }
    }
    forall a, b, c | ByCollection()(a, b) && !ByCollection()(c, b) ensures ByCollection()(a, c) {
      BeforeTotal(b.collection, c.collection);
      if Before(b.collection, c.collection) { BeforeTransitive(a.collection, b.collection, c.collection); }
    }
  }

  function Tidied(v: Attachment): Attachment {
    v.(truncations := Stable.Arrange(ByCollection(), v.truncations))
  }

  /** The attachment that did not fit even with every record gone. */
  function Overflowing(v: Attachment): Attachment {
    v.(truncations := v.truncations + [Truncation("attachment_metadata_bytes", MAX_ATTACHMENT_BYTES + 1, 0, false)],
       gaps := v.gaps + {BudgetExceeded})
  }

  function Publish(valid: Attachment -> bool, o: Outcome): Attachment {
    match o
    case Kept(_, v) =>
      var tidy := Tidied(v);
      if valid(tidy) then tidy else GapAttachment(tidy.(gaps := tidy.gaps + {MalformedObservation}))
    case Exhausted(_, v) => GapAttachment(Overflowing(v))
  }

  /**
   Off the fallback, what is published fits, is an exact account of what was assembled and lost, keeps a prefix of
   every collection with no stream pointing past the invocations, and evicted no more than it had to.
   */
  lemma PublishedRecords(e: Encoding, d: Dropped, r: Attachment, k: nat, o: Outcome, valid: Attachment -> bool)
    requires FirstFit(e, d, r, k, o) && o.Kept? && valid(Tidied(o.value))
    ensures Fits(e, Publish(valid, o)) && Sound(d, r, o.lost, Publish(valid, o))
    ensures forall j :: 0 <= j < k ==> !Fits(e, Evicted(d, r, j).1)
    ensures Records(Publish(valid, o)) == Records(r) - k
  {
    hide Sound, Survives, Evicted;
    EvictedSurvives(d, r, k);
    SurvivalIsSound(d, r, o.lost, o.value);
    CollectionOrders();
    Stable.ArrangeMeaning(ByCollection(), o.value.truncations);
    ReorderingKeeps(e, d, r, o.lost, o.value, Tidied(o.value).truncations);
  }

  lemma {:induction false} ValidOnesFrom(ts: seq<Truncation>, i: nat)
    requires i < |ValidOnes(ts)|
    ensures ValidOnes(ts)[i] in multiset(ts)
    decreases |ts|
  {
    var front, last := ts[..|ts| - 1], ts[|ts| - 1];
    assert ts == front + [last];
    assert multiset(ts) == multiset(front) + multiset{last};
    if i < |ValidOnes(front)| { ValidOnesFrom(front, i); }
  }

  lemma NoStreamsRetained(d: Dropped, r: Attachment, e: Dropped, v: Attachment, t: Truncation)
    requires Sound(d, r, e, v) && v.streams == []
    requires t in multiset(Overflowing(v).truncations) && t.collection == STREAMS
    ensures t.retained == 0
  {
    var extra := Overflowing(v).truncations[|v.truncations|];
    assert |extra.collection| == 25 && |STREAMS| == 26;
    assert multiset(Overflowing(v).truncations) == multiset(v.truncations) + multiset{extra};
    assert multiset(v.truncations)[t] == WitnessCount(STREAMS, e.streams, |v.streams|, t);
  }

  /** The fallback for metadata alone too large overstates nothing: by then every record is gone. */
  lemma ExhaustedIsHonest(e: Encoding, d: Dropped, r: Attachment, k: nat, o: Outcome, valid: Attachment -> bool)
    requires FirstFit(e, d, r, k, o) && o.Exhausted?
    ensures Honest(Publish(valid, o))
  {
    hide Sound, Survives, Evicted, Honest, ValidOnes;
    EvictedSurvives(d, r, k);
    SurvivalIsSound(d, r, o.lost, o.value);
    var over := Overflowing(o.value);
    forall i | 0 <= i < |FirstValid(over.truncations)| && FirstValid(over.truncations)[i].collection == STREAMS
      ensures FirstValid(over.truncations)[i].retained == 0
    {
      ValidOnesFrom(over.truncations, i);
      NoStreamsRetained(d, r, o.lost, o.value, FirstValid(over.truncations)[i]);
    }
    FallbackHonestIff(over);
  }

  // ----- a fallback that overstates -----

  lemma {:induction false} ValidOnesKeep(ts: seq<Truncation>, t: Truncation)
    requires t in multiset(ts) && ValidWitness(t)
    ensures exists i :: 0 <= i < |ValidOnes(ts)| && ValidOnes(ts)[i] == t
    decreases |ts|
  {
    hide ValidWitness;
    var front, last := ts[..|ts| - 1], ts[|ts| - 1];
    assert ts == front + [last];
    assert multiset(ts) == multiset(front) + multiset{last};
    if t == last {
      assert ValidOnes(ts)[|ValidOnes(front)|] == t;
    } else {
      ValidOnesKeep(front, t);
      var i :| 0 <= i < |ValidOnes(front)| && ValidOnes(front)[i] == t;
      assert ValidOnes(ts)[i] == t;
    }
  }

  lemma StreamLossIsValid(t: Truncation)
    requires t.collection == STREAMS && t.observed > t.retained
    ensures ValidWitness(t)
  {
    assert |STREAMS| == 26 && forall i :: 0 <= i < |STREAMS| ==> NameChar(STREAMS[i]);
  }

  /** The witness of the streams that a kept outcome has lost. */
  function StreamLoss(o: Outcome): Truncation
    requires o.Kept?
  {
    Truncation(STREAMS, |o.value.streams| + o.lost.streams, |o.value.streams|, true)
  }

  /** No witness of streams but that one is among those the fallback keeps. */
  lemma OnlyStreamLoss(d: Dropped, r: Attachment, o: Outcome)
    requires o.Kept? && Survives(d, r, o.lost, o.value)
    ensures var kept := FirstValid(Tidied(o.value).truncations);
            forall i :: 0 <= i < |kept| && kept[i].collection == STREAMS ==>
              o.lost.streams > 0 && kept[i] == StreamLoss(o)
  {
    hide Survives, ValidWitness, ValidOnes;
    SurvivalIsSound(d, r, o.lost, o.value);
    CollectionOrders();
    Stable.ArrangeMeaning(ByCollection(), o.value.truncations);
    var ts := Tidied(o.value).truncations;
    var kept := FirstValid(ts);
    forall i | 0 <= i < |kept| && kept[i].collection == STREAMS ensures o.lost.streams > 0 && kept[i] == StreamLoss(o) {
      ValidOnesFrom(ts, i);
      assert multiset(o.value.truncations)[kept[i]]
          == WitnessCount(STREAMS, o.lost.streams, |o.value.streams|, kept[i]);
    }
  }

  /** With fewer witnesses than the cap the fallback keeps that of lost streams. */
  lemma StreamLossKept(d: Dropped, r: Attachment, o: Outcome)
    requires o.Kept? && Survives(d, r, o.lost, o.value) && o.lost.streams > 0 && |o.value.truncations| < MAX_FILES
    ensures StreamLoss(o) in FirstValid(Tidied(o.value).truncations)
  {
    hide Survives, ValidWitness, ValidOnes;
    SurvivalIsSound(d, r, o.lost, o.value);
    CollectionOrders();
    Stable.ArrangeMeaning(ByCollection(), o.value.truncations);
    var ts, lost := Tidied(o.value).truncations, StreamLoss(o);
    assert |ts| == |multiset(ts)| == |multiset(o.value.truncations)| == |o.value.truncations|;
    assert multiset(o.value.truncations)[lost] == WitnessCount(STREAMS, o.lost.streams, |o.value.streams|, lost) == 1;
    ValidOnesAreValid(ts);
    StreamLossIsValid(lost);
    ValidOnesKeep(ts, lost);
  }

  /**
   What fits but fails validation is published honestly exactly when no stream was lost, or none is left, or the
   fallback cuts off the witness that says so; with fewer witnesses than the cap it cuts off none.
   */
  lemma MalformedHonestIff(e: Encoding, d: Dropped, r: Attachment, k: nat, o: Outcome, valid: Attachment -> bool)
    requires FirstFit(e, d, r, k, o) && o.Kept? && !valid(Tidied(o.value))
    ensures Honest(Publish(valid, o)) <==>
              || o.lost.streams == 0 || o.value.streams == []
              || StreamLoss(o) !in FirstValid(Tidied(o.value).truncations)
    ensures |o.value.truncations| < MAX_FILES ==>
              (Honest(Publish(valid, o)) <==> o.lost.streams == 0 || o.value.streams == [])
  {
    hide Survives, Evicted, Honest, FirstValid;
    EvictedSurvives(d, r, k);
    OnlyStreamLoss(d, r, o);
    FallbackHonestIff(Tidied(o.value).(gaps := Tidied(o.value).gaps + {MalformedObservation}));
    if o.lost.streams > 0 && |o.value.truncations| < MAX_FILES { StreamLossKept(d, r, o); }
  }

  /** One invocation with its semantic stream, and a witness of an earlier stage whose collection has no name. */
  function Misnamed(header: Header, record: Invocation, content: Bytes): Attachment {
    Attachment(header, [record], [], [Stream(0, content)], [Truncation("", 1, 0, true)], {})
  }

  /** A part of the attachment's validation: its witnesses are well named and each reports a loss. */
  predicate WellWitnessed(r: Attachment) {
    |r.truncations| <= MAX_FILES && forall i :: 0 <= i < |r.truncations| ==> ValidWitness(r.truncations[i])
  }

  lemma MisnamedWitnesses(header: Header, record: Invocation, content: Bytes)
    ensures var v := Witnessed(Dropped(0, 0, 1), Misnamed(header, record, content));
            && v.truncations == [Truncation("", 1, 0, true), Truncation(STREAMS, 2, 1, true)]
            && Tidied(v) == v && !WellWitnessed(v)
  {
    hide ByCollection;
    var bad, lost := Truncation("", 1, 0, true), Truncation(STREAMS, 2, 1, true);
    var r := Misnamed(header, record, content);
    NamesDiffer();
    assert |INVOCATIONS| == 21 && |GENERATORS| == 20 && |STREAMS| == 26;
    assert !Own(bad) && r.truncations[..0] == [];
    assert Foreign(r.truncations) == [bad];
    var v := Witnessed(Dropped(0, 0, 1), r);
    assert v.truncations == [bad, lost];
    assert !ValidWitness(v.truncations[0]);
    ArrangedPair(bad, lost);
  }

  lemma ArrangedPair(a: Truncation, b: Truncation)
    requires a.collection == "" && b.collection != ""
    ensures Stable.Arrange(ByCollection(), [a, b]) == [a, b]
  {
    assert Codes("") == [] && !Before(b.collection, a.collection);
    assert [a, b][..1] == [a] && [a][..0] == [];
    assert Stable.Arrange(ByCollection(), [a]) == [a];
    assert !ByCollection()(b, a);
  }

  lemma PairFallback(lost: Truncation)
    requires lost == Truncation(STREAMS, 2, 1, true)
    ensures FirstValid([Truncation("", 1, 0, true), lost]) == [lost]
  {
    var bad := Truncation("", 1, 0, true);
    assert |STREAMS| == 26 && forall i :: 0 <= i < |STREAMS| ==> NameChar(STREAMS[i]);
    assert ValidWitness(lost) && !ValidWitness(bad);
    hide ValidWitness;
    assert [bad, lost][..1] == [bad] && [bad][..0] == [];
    assert ValidOnes([bad]) == [];
    assert ValidOnes([bad, lost]) == [lost];
  }

  /**
   One invocation, one stream kept and one dropped earlier. It fits as it is, and fails validation over the misnamed
   witness; the fallback then clears the streams but goes on claiming the one.
   */
  lemma FallbackCanOverstate(e: Encoding, header: Header, record: Invocation, content: Bytes, valid: Attachment -> bool)
    requires Fits(e, Witnessed(Dropped(0, 0, 1), Misnamed(header, record, content)))
    requires forall v :: valid(v) ==> WellWitnessed(v)
    ensures var d, r := Dropped(0, 0, 1), Misnamed(header, record, content);
            var o := Kept(d, Witnessed(d, r));
            && FirstFit(e, d, r, 0, o)
            && !Honest(Publish(valid, o)) && Publish(valid, o).streams == []
            && Truncation(STREAMS, 2, 1, true) in Publish(valid, o).truncations
  {
    hide Tidied, FirstValid, ValidOnes, ValidWitness, NameChar, Honest, Fits, Misnamed, Witnessed, WellWitnessed;
    var d, r := Dropped(0, 0, 1), Misnamed(header, record, content);
    var lost := Truncation(STREAMS, 2, 1, true);
    MisnamedWitnesses(header, record, content);
    PairFallback(lost);
    var tidy := Witnessed(d, r);
    var marked := tidy.(gaps := tidy.gaps + {MalformedObservation});
    FallbackHonestIff(marked);
    assert FirstValid(marked.truncations)[0] == lost;
    assert GapAttachment(marked).truncations[0] == Zeroed(lost);
    NamesDiffer();
  }

  // ----- admission -----

  predicate DistinctKeys(s: seq<Invocation>) {
    forall i, j :: 0 <= i < j < |s| ==> s[i].unitKey != s[j].unitKey
  }

  predicate Acceptable(e: Encoding, bound: Invocation -> bool, valid: Invocation -> bool, record: Invocation) {
    bound(record) && valid(record) && e.invocation(record) <= MAX_INVOCATION_BYTES
  }

  /** The admission loop's state: the attachment so far, the bytes charged, what was dropped, the keys taken. */
  datatype Admission = Admission(result: Attachment, bytes: nat, dropped: nat, keys: set<Bytes>)

  function Charge(e: Encoding, a: Admission, record: Invocation): nat {
    e.invocation(record) + if a.result.invocations == [] then 0 else 1
  }

  predicate Affordable(e: Encoding, a: Admission, record: Invocation) {
    e.invocation(record) <= MAX_INVOCATION_BYTES && a.bytes + Charge(e, a, record) <= MAX_ATTACHMENT_BYTES
  }

  /** Too large is dropped; unbound or repeated, a conflict; malformed, a gap but the key is taken. */
  function AdmitStep(e: Encoding, bound: Invocation -> bool, valid: Invocation -> bool, a: Admission,
                     record: Invocation): Admission
  {
    if !Affordable(e, a, record) then a.(dropped := a.dropped + 1)
    else if !bound(record) || record.unitKey in a.keys then
      a.(result := a.result.(gaps := a.result.gaps + {ConflictingUnit}))
    else if !valid(record) then
      a.(result := a.result.(gaps := a.result.gaps + {MalformedObservation}), keys := a.keys + {record.unitKey})
    else
      a.(result := a.result.(invocations := a.result.invocations + [record]), bytes := a.bytes + Charge(e, a, record),
         keys := a.keys + {record.unitKey})
  }

  function AdmitAll(e: Encoding, bound: Invocation -> bool, valid: Invocation -> bool, a: Admission,
                    records: seq<Invocation>): Admission
  {
    if records == [] then a
    else AdmitStep(e, bound, valid, AdmitAll(e, bound, valid, a, records[..|records| - 1]), records[|records| - 1])
  }

  /** Nothing stands in the way of the record at this point of the loop. */
  predicate Welcome(e: Encoding, bound: Invocation -> bool, valid: Invocation -> bool, a: Admission,
                    record: Invocation)
  {
    Affordable(e, a, record) && Acceptable(e, bound, valid, record) && record.unitKey !in a.keys
  }

  /** Every record is admitted exactly when it is welcome at its turn. */
  lemma {:induction false} AdmittedIffWelcome(e: Encoding, bound: Invocation -> bool, valid: Invocation -> bool,
                                              a: Admission, records: seq<Invocation>, i: nat)
    requires i < |records|
    ensures var before, after :=
              AdmitAll(e, bound, valid, a, records[..i]), AdmitAll(e, bound, valid, a, records[..i + 1]);
            && after.result.invocations
               == before.result.invocations
                   + (if Welcome(e, bound, valid, before, records[i]) then [records[i]] else [])
            && after.result.invocations <= AdmitAll(e, bound, valid, a, records).result.invocations
    decreases |records|
  {
    var front := records[..|records| - 1];
    if i < |records| - 1 {
      AdmittedIffWelcome(e, bound, valid, a, front, i);
      assert front[..i] == records[..i] && front[..i + 1] == records[..i + 1];
    } else {
      assert records[..i + 1] == records && records[..i] == front;
    }
  }

  /** Distinctly keyed, acceptable records that fit together are all admitted, in order, and nothing is noted. */
  lemma {:induction false} FittingRecordsAdmitted(e: Encoding, bound: Invocation -> bool, valid: Invocation -> bool,
                                                  a: Admission, records: seq<Invocation>)
    requires a.result.invocations == [] && a.keys == {} && DistinctKeys(records)
    requires forall i :: 0 <= i < |records| ==> Acceptable(e, bound, valid, records[i])
    requires a.bytes + ListSize(e.invocation, records) - 2 <= MAX_ATTACHMENT_BYTES
    ensures var z := AdmitAll(e, bound, valid, a, records);
            && z.result == a.result.(invocations := records) && z.dropped == a.dropped
            && z.bytes == a.bytes + ListSize(e.invocation, records) - 2
            && forall key :: key in z.keys ==> exists i :: 0 <= i < |records| && records[i].unitKey == key
    decreases |records|
  {
    if records != [] {
      var front, last := records[..|records| - 1], records[|records| - 1];
      assert records == front + [last];
      SumAppend(e.invocation, front, last);
      FittingRecordsAdmitted(e, bound, valid, a, front);
      forall i | 0 <= i < |front| ensures front[i].unitKey != last.unitKey { assert records[i] == front[i]; }
    }
  }

  /** What is charged is the encoded size, the cap holds, and every record is admitted, dropped or noted as a gap. */
  ghost predicate AdmissionOk(e: Encoding, bound: Invocation -> bool, valid: Invocation -> bool, a: Admission,
                              z: Admission)
  {
    && z.result == a.result.(invocations := z.result.invocations, gaps := z.result.gaps)
    && a.result.gaps <= z.result.gaps
    && z.bytes <= MAX_ATTACHMENT_BYTES
    && z.bytes - a.bytes == ListSize(e.invocation, z.result.invocations) - 2
    && DistinctKeys(z.result.invocations)
    && (forall i :: 0 <= i < |z.result.invocations| ==>
          z.result.invocations[i].unitKey in z.keys && Acceptable(e, bound, valid, z.result.invocations[i]))
  }

  lemma AdmitStepHolds(e: Encoding, bound: Invocation -> bool, valid: Invocation -> bool, a: Admission, y: Admission,
                       record: Invocation)
    requires AdmissionOk(e, bound, valid, a, y)
    ensures AdmissionOk(e, bound, valid, a, AdmitStep(e, bound, valid, y, record))
  {
    hide ListSize, Sum;
    SumAppend(e.invocation, y.result.invocations, record);
  }

  lemma AdmitStepCounts(e: Encoding, bound: Invocation -> bool, valid: Invocation -> bool, y: Admission,
                        record: Invocation)
    ensures var z := AdmitStep(e, bound, valid, y, record);
            && y.dropped <= z.dropped && y.result.gaps <= z.result.gaps
            && |z.result.invocations| + z.dropped <= |y.result.invocations| + y.dropped + 1
            && (|z.result.invocations| + z.dropped < |y.result.invocations| + y.dropped + 1 ==>
                  ConflictingUnit in z.result.gaps || MalformedObservation in z.result.gaps)
  {
    hide ListSize, Sum;
  }

  lemma {:induction false} AdmissionHolds(e: Encoding, bound: Invocation -> bool, valid: Invocation -> bool,
                                          a: Admission, records: seq<Invocation>)
    requires a.result.invocations == [] && a.bytes <= MAX_ATTACHMENT_BYTES
    ensures var z := AdmitAll(e, bound, valid, a, records);
            && AdmissionOk(e, bound, valid, a, z)
            && a.dropped <= z.dropped && |z.result.invocations| + (z.dropped - a.dropped) <= |records|
            && (|z.result.invocations| + (z.dropped - a.dropped) < |records| ==>
                  ConflictingUnit in z.result.gaps || MalformedObservation in z.result.gaps)
    decreases |records|
  {
    hide AdmissionOk, AdmitStep;
    if records == [] {
      NothingAdmitted(e, bound, valid, a);
    } else {
      var front, last := records[..|records| - 1], records[|records| - 1];
      AdmissionHolds(e, bound, valid, a, front);
      AdmitStepHolds(e, bound, valid, a, AdmitAll(e, bound, valid, a, front), last);
      AdmitStepCounts(e, bound, valid, AdmitAll(e, bound, valid, a, front), last);
    }
  }

  lemma NothingAdmitted(e: Encoding, bound: Invocation -> bool, valid: Invocation -> bool, a: Admission)
    requires a.result.invocations == [] && a.bytes <= MAX_ATTACHMENT_BYTES
    ensures AdmissionOk(e, bound, valid, a, a)
  {
  }

  /** A budget that starts as the size of the attachment stays the size of the attachment with its records in it. */
  lemma ChargedIsSize(e: Encoding, bound: Invocation -> bool, valid: Invocation -> bool, a: Admission,
                      records: seq<Invocation>)
    requires a.result.invocations == [] && a.bytes <= MAX_ATTACHMENT_BYTES && a.bytes == Size(e, a.result)
    ensures var z := AdmitAll(e, bound, valid, a, records);
            z.bytes == Size(e, z.result.(gaps := a.result.gaps)) <= MAX_ATTACHMENT_BYTES
  {
    hide AdmitAll, DistinctKeys, Acceptable;
    AdmissionHolds(e, bound, valid, a, records);
  }

  class AssemblyBudget {
    const encoding: Encoding
    var bytes: nat
    var dropped: Dropped

    constructor (encoding: Encoding, header: Attachment)
      ensures this.encoding == encoding && dropped == Dropped(0, 0, 0)
      ensures bytes == if Fits(encoding, header) then Size(encoding, header) else MAX_ATTACHMENT_BYTES
    {
      this.encoding := encoding;
      var size := Size(encoding, header);
      bytes := if size <= MAX_ATTACHMENT_BYTES then size else MAX_ATTACHMENT_BYTES;
      dropped := Dropped(0, 0, 0);
    }

    /** The charge for a record that is itself small enough and fits what is left. */
    method AdmissibleSize(size: nat, maximum: nat, comma: bool) returns (charge: Option<nat>)
      ensures charge.Some? <==> size <= maximum && size + (if comma then 1 else 0) <= Left()
      ensures charge.Some? ==> charge.value == size + if comma then 1 else 0
    {
      if size > maximum {
        return None;
      }
      var total := size + if comma then 1 else 0;
      var left := if bytes <= MAX_ATTACHMENT_BYTES then MAX_ATTACHMENT_BYTES - bytes else 0;
      charge := if total <= left then Some(total) else None;
    }

    function Left(): nat
      reads this
    {
      if bytes <= MAX_ATTACHMENT_BYTES then MAX_ATTACHMENT_BYTES - bytes else 0
    }

    /** The admission loop for invocation records. */
    method AdmitInvocations(records: seq<Invocation>, bound: Invocation -> bool, valid: Invocation -> bool,
                            result: Attachment)
      returns (r: Attachment)
      requires bytes <= MAX_ATTACHMENT_BYTES
      modifies this`bytes, this`dropped
      ensures var z := AdmitAll(encoding, bound, valid, Admission(result, old(bytes), old(dropped).invocations, {}),
                                records);
              r == z.result && bytes == z.bytes && dropped == old(dropped).(invocations := z.dropped)
      ensures bytes <= MAX_ATTACHMENT_BYTES
    {
      r := result;
      var keys: set<Bytes> := {};
      ghost var start := Admission(result, bytes, dropped.invocations, {});
      for i := 0 to |records|
        invariant bytes <= MAX_ATTACHMENT_BYTES && dropped == old(dropped).(invocations := dropped.invocations)
        invariant Admission(r, bytes, dropped.invocations, keys)
                    == AdmitAll(encoding, bound, valid, start, records[..i])
      {
        assert records[..i + 1][..i] == records[..i];
        var record := records[i];
        var charge := AdmissibleSize(encoding.invocation(record), MAX_INVOCATION_BYTES, r.invocations != []);
        if charge.None? {
          dropped := dropped.(invocations := dropped.invocations + 1);
        } else if !bound(record) || record.unitKey in keys {
          r := r.(gaps := r.gaps + {ConflictingUnit});
        } else {
          keys := keys + {record.unitKey};
          if !valid(record) {
            r := r.(gaps := r.gaps + {MalformedObservation});
          } else {
            bytes := bytes + charge.value;
            r := r.(invocations := r.invocations + [record]);
          }
        }
      }
      assert records[..|records|] == records;
    }

    method Losses(result: Attachment) returns (r: Attachment)
      ensures r == Witnessed(dropped, result)
    {
      var kept: seq<Truncation> := [];
      for i := 0 to |result.truncations|
        invariant kept == Foreign(result.truncations[..i])
      {
        assert result.truncations[..i + 1][..i] == result.truncations[..i];
        if !Own(result.truncations[i]) {
          kept := kept + [result.truncations[i]];
        }
      }
      assert result.truncations[..|result.truncations|] == result.truncations;
      kept := NoteTruncation(kept, INVOCATIONS, dropped.invocations, |result.invocations|);
      kept := NoteTruncation(kept, STREAMS, dropped.streams, |result.streams|);
      kept := NoteTruncation(kept, GENERATORS, dropped.generators, |result.generators|);
      r := result.(truncations := kept);
      if kept != [] {
        r := r.(gaps := r.gaps + {BudgetExceeded});
      }
    }

    method NoteTruncation(out: seq<Truncation>, collection: string, lost: nat, retained: nat)
      returns (more: seq<Truncation>)
      ensures more == out + Note(collection, lost, retained)
    {
      var observed := retained + lost;
      more := if observed > retained then out + [Truncation(collection, observed, retained, true)] else out;
    }

    method EvictRecord(r: Attachment) returns (q: Attachment)
      requires !Empty(r)
      modifies this`dropped
      ensures (dropped, q) == Evict(old(dropped), r)
    {
      if r.streams != [] {
        q := r.(streams := r.streams[..|r.streams| - 1]);
        dropped := dropped.(streams := dropped.streams + 1);
      } else if r.generators != [] {
        q := r.(generators := r.generators[..|r.generators| - 1]);
        dropped := dropped.(generators := dropped.generators + 1);
      } else {
        q := r.(invocations := r.invocations[..|r.invocations| - 1]);
        dropped := dropped.(invocations := dropped.invocations + 1);
      }
    }

    /** The eviction loop of `finish`: it ends, at the first state that fits or with nothing left to evict. */
    method Shrink(result: Attachment) returns (fits: bool, r: Attachment, ghost k: nat)
      modifies this`dropped
      ensures FirstFit(encoding, old(dropped), result, k, if fits then Kept(dropped, r) else Exhausted(dropped, r))
    {
      hide Size, Witnessed, Evict;
      ghost var d := dropped;
      k := 0;
      r := Losses(result);
      while Size(encoding, r) > MAX_ATTACHMENT_BYTES && !Empty(r)
        invariant k <= Records(result) && (dropped, r) == Evicted(d, result, k)
        invariant forall j :: 0 <= j < k ==> !Fits(encoding, Evicted(d, result, j).1)
        decreases Records(result) - k
      {
        r := EvictRecord(r);
        r := Losses(r);
        k := k + 1;
      }
      fits := Size(encoding, r) <= MAX_ATTACHMENT_BYTES;
    }

    method Fallback(result: Attachment) returns (r: Attachment)
      ensures r == GapAttachment(result)
    {
      var ts := result.truncations;
      var kept: seq<Truncation> := [];
      for i := 0 to |ts|
        invariant kept == ValidOnes(ts[..i])
      {
        assert ts[..i + 1][..i] == ts[..i];
        if ValidWitness(ts[i]) {
          kept := kept + [ts[i]];
        }
      }
      assert ts[..|ts|] == ts;
      if |kept| > MAX_FILES - 1 {
        kept := kept[..MAX_FILES - 1];
      }
      ghost var first := kept;
      for i := 0 to |kept|
        invariant |kept| == |first|
        invariant forall j :: 0 <= j < |kept| ==> kept[j] == if j < i then Zeroed(first[j]) else first[j]
      {
        if kept[i].collection == INVOCATIONS || kept[i].collection == GENERATORS {
          kept := kept[i := kept[i].(retained := 0)];
        }
      }
      assert kept == seq(|first|, i requires 0 <= i < |first| => Zeroed(first[i]));
      if |ts| > |kept| {
        kept := kept + [Truncation("budget_witnesses", |ts|, |kept|, true)];
      }
      r := Attachment(Blank, [], [], [], kept, if kept == [] then result.gaps else result.gaps + {BudgetExceeded});
    }

    /** `finish`: shrink until it fits, sort the witnesses, and publish what validates. */
    method Finish(result: Attachment, valid: Attachment -> bool) returns (r: Attachment, ghost k: nat, ghost o: Outcome)
      modifies this`dropped
      ensures FirstFit(encoding, old(dropped), result, k, o) && o.lost == dropped
      ensures r == Publish(valid, o)
    {
      var fits, shrunk;
      fits, shrunk, k := Shrink(result);
      if !fits {
        o := Exhausted(dropped, shrunk);
        r := Fallback(shrunk.(truncations :=
                              shrunk.truncations
                                  + [Truncation("attachment_metadata_bytes", MAX_ATTACHMENT_BYTES + 1, 0, false)],
                              gaps := shrunk.gaps + {BudgetExceeded}));
        return;
      }
      o := Kept(dropped, shrunk);
      CollectionOrders();
      var sorted := Stable.Sort(ByCollection(), shrunk.truncations);
      r := shrunk.(truncations := sorted);
      if !valid(r) {
        r := Fallback(r.(gaps := r.gaps + {MalformedObservation}));
      }
    }
  }
}
