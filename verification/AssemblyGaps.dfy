/** What an assembled attachment says went wrong, and when exactly it says so. */
module AssemblyGaps {
  import opened Bytes
  import opened Measure
  import opened Assembly
  import Stable

  // ----- admission -----

  /** What becomes of a record at its turn. */
  datatype Verdict = NoRoom | Clash | Malformed | Admitted

  /** Within its own bound, and within what is left for it and its comma. */
  predicate Room(e: Encoding, before: Admission, record: Invocation) {
    && e.invocation(record) <= 32 * 1024
    && before.bytes + e.invocation(record) + (if before.result.invocations == [] then 0 else 1) <= 8 * 1024 * 1024
  }

  function VerdictOn(e: Encoding, bound: Invocation -> bool, valid: Invocation -> bool, before: Admission,
                     record: Invocation): Verdict
  {
    if !Room(e, before, record) then NoRoom
    else if !bound(record) || record.unitKey in before.keys then Clash
    else if valid(record) then Admitted
    else Malformed
  }

  function Verdicts(e: Encoding, bound: Invocation -> bool, valid: Invocation -> bool, a: Admission,
                    records: seq<Invocation>): (vs: seq<Verdict>)
    ensures |vs| == |records|
  {
    if records == [] then []
    else
      var front := records[..|records| - 1];
      Verdicts(e, bound, valid, a, front)
      + [VerdictOn(e, bound, valid, AdmitAll(e, bound, valid, a, front), records[|records| - 1])]
  }

  /** The keys of the records that got past the binding, valid or not. */
  ghost predicate Taken(vs: seq<Verdict>, records: seq<Invocation>, key: Bytes) {
    exists i :: 0 <= i < |vs| && |vs| == |records| && (vs[i].Malformed? || vs[i].Admitted?) && records[i].unitKey == key
  }

  /**
   A conflict is noted if and only if some record with room is unbound or repeats a key, a malformed observation if and
   only if some other record with room is invalid; a record without room is counted, not noted, and takes no key.
   */
  lemma {:induction false} AdmissionNotes(e: Encoding, bound: Invocation -> bool, valid: Invocation -> bool,
                                          a: Admission, records: seq<Invocation>)
    ensures var z, vs := AdmitAll(e, bound, valid, a, records), Verdicts(e, bound, valid, a, records);
            && (ConflictingUnit in z.result.gaps <==> ConflictingUnit in a.result.gaps || Clash in vs)
            && (MalformedObservation in z.result.gaps <==> MalformedObservation in a.result.gaps || Malformed in vs)
            && (forall g :: g != ConflictingUnit && g != MalformedObservation ==>
                  (g in z.result.gaps <==> g in a.result.gaps))
            && z.dropped == a.dropped + multiset(vs)[NoRoom]
            && |z.result.invocations| == |a.result.invocations| + multiset(vs)[Admitted]
    decreases |records|
  {
    if records != [] {
      var front, last := records[..|records| - 1], records[|records| - 1];
      AdmissionNotes(e, bound, valid, a, front);
      hide Room, VerdictOn, AdmitAll, AdmitStep;
      LastTurn(e, bound, valid, a, records);
      var some, vs := Verdicts(e, bound, valid, a, front), Verdicts(e, bound, valid, a, records);
      var v := VerdictOn(e, bound, valid, AdmitAll(e, bound, valid, a, front), last);
      assert vs == some + [v] && multiset(vs) == multiset(some) + multiset{v};
    }
  }

  /** A key is taken if and only if some record of that key got past the binding. */
  lemma {:induction false} KeysTaken(e: Encoding, bound: Invocation -> bool, valid: Invocation -> bool, a: Admission,
                                     records: seq<Invocation>, key: Bytes)
    ensures key in AdmitAll(e, bound, valid, a, records).keys <==>
            key in a.keys || Taken(Verdicts(e, bound, valid, a, records), records, key)
    decreases |records|
  {
    if records != [] {
      var front, last := records[..|records| - 1], records[|records| - 1];
      KeysTaken(e, bound, valid, a, front, key);
      hide Room, VerdictOn, AdmitAll, AdmitStep;
      LastTurn(e, bound, valid, a, records);
      var some, vs := Verdicts(e, bound, valid, a, front), Verdicts(e, bound, valid, a, records);
      assert forall i :: 0 <= i < |front| ==> vs[i] == some[i] && front[i] == records[i];
    }
  }

  lemma LastTurn(e: Encoding, bound: Invocation -> bool, valid: Invocation -> bool, a: Admission,
                 records: seq<Invocation>)
    requires records != []
    ensures var front, last := records[..|records| - 1], records[|records| - 1];
            var y, z := AdmitAll(e, bound, valid, a, front), AdmitAll(e, bound, valid, a, records);
            var v := VerdictOn(e, bound, valid, y, last);
            && z.dropped == y.dropped + (if v.NoRoom? then 1 else 0)
            && z.keys == y.keys + (if v.Malformed? || v.Admitted? then {last.unitKey} else {})
            && z.result.gaps == y.result.gaps + (if v.Clash? then {ConflictingUnit} else {})
                                + (if v.Malformed? then {MalformedObservation} else {})
            && |z.result.invocations| == |y.result.invocations| + (if v.Admitted? then 1 else 0)
  {
  }

  // ----- eviction -----

  lemma {:induction false} EvictionGaps(d: Dropped, r: Attachment, k: nat)
    requires k <= Records(r)
    ensures var (f, q) := Evicted(d, r, k);
            && (forall g :: g != BudgetExceeded ==> (g in q.gaps <==> g in r.gaps))
            && (BudgetExceeded in q.gaps <==> BudgetExceeded in r.gaps || q.truncations != [])
            && (d.invocations <= f.invocations && d.generators <= f.generators && d.streams <= f.streams)
            && (k > 0 ==> q.truncations != [])
    decreases k
  {
    if k > 0 { EvictionGaps(d, r, k - 1); }
  }

  // ----- publication -----

  lemma SomeWitness(r: Attachment)
    ensures var q := GapAttachment(r);
            && (q.truncations == [] <==> r.truncations == []) && q.header == Blank && Records(q) == 0
            && q.gaps == r.gaps + (if r.truncations == [] then {} else {BudgetExceeded})
  {
    ValidOnesAreValid(r.truncations);
  }

  lemma OverflowIsValid()
    ensures ValidWitness(Truncation("attachment_metadata_bytes", MAX_ATTACHMENT_BYTES + 1, 0, false))
  {
    var name := "attachment_metadata_bytes";
    assert |name| == 25 && forall i :: 0 <= i < |name| ==> NameChar(name[i]);
  }

  /**
   How `finish` went can be read off what it publishes: the header goes with the records exactly when the fallback is
   taken, a failed validation and nothing else adds a malformed observation, an exceeded budget comes with a witness.
   */
  lemma PublishedNotes(e: Encoding, d: Dropped, r: Attachment, k: nat, o: Outcome, valid: Attachment -> bool)
    requires FirstFit(e, d, r, k, o)
    ensures var p := Publish(valid, o);
            && (MalformedObservation in p.gaps <==>
                MalformedObservation in r.gaps || (o.Kept? && !valid(Tidied(o.value))))
            && (BudgetExceeded in p.gaps <==> BudgetExceeded in r.gaps || p.truncations != [])
            && (forall g :: g != BudgetExceeded && g != MalformedObservation ==> (g in p.gaps <==> g in r.gaps))
            && (if o.Kept? && valid(Tidied(o.value)) then p.header == r.header && Records(p) == Records(r) - k
                else p.header == Blank && Records(p) == 0)
            && (o.Exhausted? && |o.value.truncations| < MAX_FILES - 1 ==>
                  Truncation("attachment_metadata_bytes", MAX_ATTACHMENT_BYTES + 1, 0, false) in p.truncations)
  {
    hide Evicted, GapAttachment, ValidOnes, ValidWitness, Survives;
    EvictionGaps(d, r, k);
    EvictedSurvives(d, r, k);
    var v := o.value;
    if o.Kept? {
      CollectionOrders();
      Stable.ArrangeMeaning(ByCollection(), v.truncations);
      var tidy := Tidied(v);
      assert |multiset(tidy.truncations)| == |tidy.truncations| && |multiset(v.truncations)| == |v.truncations|;
      SomeWitness(tidy.(gaps := tidy.gaps + {MalformedObservation}));
      HeaderKept(d, r, o.lost, v);
    } else {
      SomeWitness(Overflowing(v));
      if |v.truncations| < MAX_FILES - 1 { OverflowPublished(v); }
    }
  }

  lemma HeaderKept(d: Dropped, r: Attachment, e: Dropped, q: Attachment)
    requires Survives(d, r, e, q)
    ensures q.header == r.header
  {
  }

  lemma OverflowPublished(v: Attachment)
    requires |v.truncations| < MAX_FILES - 1
    ensures Truncation("attachment_metadata_bytes", MAX_ATTACHMENT_BYTES + 1, 0, false)
              in GapAttachment(Overflowing(v)).truncations
  {
    hide ValidOnes, ValidWitness;
    var over := Truncation("attachment_metadata_bytes", MAX_ATTACHMENT_BYTES + 1, 0, false);
    var ts := Overflowing(v).truncations;
    OverflowIsValid();
    assert ts[|v.truncations|] == over;
    ValidOnesAreValid(ts);
    ValidOnesKeep(ts, over);
    assert |INVOCATIONS| == 21 && |GENERATORS| == 20 && |over.collection| == 25;
    var i :| 0 <= i < |ValidOnes(ts)| && ValidOnes(ts)[i] == over;
    assert GapAttachment(Overflowing(v)).truncations[i] == over;
  }
}
