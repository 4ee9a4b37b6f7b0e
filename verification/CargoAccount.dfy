/**
 The record a session keeps of its operations: what every run leaves it in, and what
 `finish` publishes from it under the size bounds.
 */
module CargoAccount {
  import opened Bytes
  import opened LaunchIntent
  import opened LaunchObserver
  import opened CargoLaunch
  import opened CargoRuns

  const MAX_CARGO_OPERATION_BYTES := 32 * 1024

  // ----- request labels -----

  function FromDecimal(digits: Bytes): int {
    if digits == [] then 0 else FromDecimal(digits[..|digits| - 1]) * 10 + (digits[|digits| - 1] as int - 48)
  }

  lemma {:induction false} DecimalRoundTrip(n: nat)
    ensures FromDecimal(Decimal(n)) == n
  {
    if n < 10 {
      assert Decimal(n)[..0] == [];
    } else {
      DecimalRoundTrip(n / 10);
      assert Decimal(n)[..|Decimal(n)| - 1] == Decimal(n / 10);
    }
  }

  lemma RequestLabelInjective(name: Bytes, a: nat, b: nat)
    requires RequestLabel(name, a) == RequestLabel(name, b)
    ensures a == b
  {
    assert Decimal(a) == RequestLabel(name, a)[|name| + 1..];
    assert Decimal(b) == RequestLabel(name, b)[|name| + 1..];
    DecimalRoundTrip(a);
    DecimalRoundTrip(b);
  }

  // ----- the account every run keeps -----

  predicate LifecycleOk(op: Operation) {
    && (op.success ==> op.started && op.exitCode == Some(0))
    && (op.exitCode == Some(0) ==> op.success)
    && (!op.started ==> op.exitCode.None?)
  }

  predicate Recorded(name: Bytes, ops: seq<Operation>, ordinal: nat) {
    && (forall i :: 0 <= i < |ops| ==>
          1 <= ops[i].ordinal <= ordinal && ops[i].request == RequestLabel(name, ops[i].ordinal) && LifecycleOk(ops[i]))
    && (forall i, j :: 0 <= i < j < |ops| ==> ops[i].ordinal < ops[j].ordinal)
  }

  predicate Accounted(s: SessionState) {
    && |s.operations| <= MAX_CARGO_OPERATIONS && s.retained <= MAX_CARGO_SESSION_BYTES
    && |s.operations| + s.lost <= s.ordinal
    && Recorded(s.name, s.operations, s.ordinal)
  }

  /** Ordinals that left neither a record nor a loss. */
  function Unrecorded(s: SessionState): nat
    requires Accounted(s)
  {
    s.ordinal - |s.operations| - s.lost
  }

  lemma BeginAccounts(codec: Codec, s: SessionState, input: BeginInput, io: RouteIo)
    requires Accounted(s)
    ensures Accounted(BeginStep(codec, s, input, io).0)
  {
    var t := Numbered(s);
    if input.command.program == s.cargo && input.flags.Some? {
      var command := Labelled(t, input.command, input.flags.value);
      if t.observer.Some? {
        var (u, routed) := RouteSession(codec, t, command, input, io);
        RouteKeepsAccount(codec, t, command, input, io);
        if routed.Some? { RecordAccounts(u, routed.value, input); }
      } else {
        RecordAccounts(t, command, input);
      }
    }
  }

  lemma RouteKeepsAccount(codec: Codec, s: SessionState, command: Command, input: BeginInput, io: RouteIo)
    requires s.observer.Some?
    ensures var t := RouteSession(codec, s, command, input, io).0;
            t.operations == s.operations && t.ordinal == s.ordinal && t.lost == s.lost && t.retained == s.retained
              && t.name == s.name
  {
  }

  /** The next ordinal is unspent, so recording or losing one operation keeps the account. */
  lemma RecordAccounts(s: SessionState, command: Command, input: BeginInput)
    requires s.ordinal > 0 && Accounted(s.(ordinal := s.ordinal - 1))
    ensures Accounted(Record(s, command, input).0)
  {
    var t := Record(s, command, input).0;
    forall i, j | 0 <= i < j < |t.operations| ensures t.operations[i].ordinal < t.operations[j].ordinal {
      if j == |s.operations| { assert t.operations[i] == s.operations[i]; }
    }
  }

  predicate SameAccount(s: SessionState, t: SessionState) {
    s.operations == t.operations && s.ordinal == t.ordinal && s.lost == t.lost && s.retained == t.retained
      && s.name == t.name
  }

  lemma CompletedAccounts(s: SessionState, operation: Option<nat>, status: Option<ExitStatus>)
    requires Accounted(s)
    ensures Accounted(s.Completed(operation, status)) && Accounted(s.Mark(operation))
  {
  }

  lemma CancelFields(codec: Codec, c: Custody, status: ExitStatus, failures: nat, io: ExchangeIo)
    requires c.child.Some?
    ensures var d := CancelOwned(codec, c, status, failures, io);
            && d.child.Some? && SameAccount(Leave(d).session, d.session)
            && SameAccount(d.session,
                           if c.child.value.waited then c.session
                           else c.session.Completed(c.child.value.operation, Some(status)))
  {
  }

  lemma CancelAccounts(codec: Codec, c: Custody, status: ExitStatus, failures: nat, io: ExchangeIo)
    requires Accounted(c.session) && c.child.Some?
    ensures var d := CancelOwned(codec, c, status, failures, io);
            Accounted(d.session) && d.child.Some? && Accounted(Leave(d).session)
  {
    CancelFields(codec, c, status, failures, io);
    CompletedAccounts(c.session, c.child.value.operation, Some(status));
  }

  lemma StartAccounts(codec: Codec, s: SessionState, command: Command, operation: Option<nat>, input: StartInput,
                      io: StartIo)
    requires Accounted(s)
    ensures Accounted(StartStep(codec, s, command, operation, input, io).0.session)
  {
    CompletedAccounts(s, operation, None);
    if s.observer.Some? && s.routed.Some? {
      var (o, launch) :=
        PrepareStep(codec, s.observer.value, command, s.routed.value, input.amb, input.sealed, io.prepare);
      if launch.Some? {
        SpawningAccounts(codec, s.(observer := Some(o), routed := None), launch.value, operation, input, io.report,
                         io.cancel);
      }
    }
  }

  lemma SpawningAccounts(codec: Codec, s: SessionState, launch: PreparedLaunch, operation: Option<nat>,
                         input: StartInput, report: ExchangeIo, cancel: ExchangeIo)
    requires Accounted(s) && s.observer.Some?
    ensures Accounted(Spawning(codec, s, launch, operation, input, report, cancel).0.session)
  {
    CompletedAccounts(s, operation, None);
    var (p, spent, pid) := SpawnStep(s.observer.value, launch, input.answer);
    if pid.Some? {
      var (q, ok) := SpawnedStep(codec, p, spent, pid.value, report);
      var c := Custody(s.(observer := Some(q)).Mark(operation),
                       Some(ChildState(pid.value, Some(spent.binding), operation, false, Some(spent), !ok)));
      CompletedAccounts(s.(observer := Some(q)), operation, None);
      CancelAccounts(codec, c, input.status, 0, cancel);
    } else {
      var (q, ok) := SpawnFailedStep(codec, p, spent, report);
      CompletedAccounts(s.(observer := Some(q)), operation, None);
    }
  }

  lemma ReferenceAccounts(codec: Codec, s: SessionState, input: BeginInput, io: RouteIo)
    requires Accounted(s)
    ensures Accounted(ReferenceStep(codec, s, input, io).0)
  {
    hide RouteSession;
    var t := Numbered(s);
    if input.flags.Some? && t.observer.Some? {
      RouteKeepsAccount(codec, t, Labelled(t, input.command, input.flags.value), input, io);
    }
  }

  lemma SessionActAccounts(codec: Codec, c: Custody, call: SessionCall)
    requires Accounted(c.session) && Enabled(c, call)
    ensures Accounted(SessionAct(codec, c, call).session)
  {
    hide Accounted;
    match call
    case DoLaunch(begin, start, routeIo, startIo) =>
      BeginAccounts(codec, c.session, begin, routeIo);
      var (s, r) := BeginStep(codec, c.session, begin, routeIo);
      if r.Some? { StartAccounts(codec, s, r.value.0, r.value.1, start, startIo); }
    case DoReference(begin, start, routeIo, startIo) =>
      ReferenceAccounts(codec, c.session, begin, routeIo);
      var (s, r) := ReferenceStep(codec, c.session, begin, routeIo);
      if r.Some? { StartAccounts(codec, s, r.value.0, r.value.1, start, startIo); }
    case DoBegin(begin, routeIo) => BeginAccounts(codec, c.session, begin, routeIo);
    case DoMark(operation) => CompletedAccounts(c.session, operation, None);
    case DoComplete(operation, status) => CompletedAccounts(c.session, operation, status);
    case DoWait(result, later, io) =>
      CancelAccounts(codec, c.(child := Some(c.child.value.(fault := true))), later, 0, io);
      if result.Some? { WaitAccounts(codec, c, result.value, later, io); }
    case DoPipeFault(later, io) =>
      CancelAccounts(codec, c.(child := Some(c.child.value.(fault := true))), later, 0, io);
    case DoDrop(later, io) =>
      CancelAccounts(codec, c, later, 0, io);
  }

  lemma WaitAccounts(codec: Codec, c: Custody, status: ExitStatus, later: ExitStatus, io: ExchangeIo)
    requires Accounted(c.session) && c.child.Some?
    ensures Accounted(WaitStep(codec, c, Some(status), later, io).0.session)
  {
    CompletedAccounts(c.session, c.child.value.operation, Some(status));
    assert SameAccount(WaitStep(codec, c, Some(status), later, io).0.session,
                       c.session.Completed(c.child.value.operation, Some(status)));
  }

  /** Every run, observed or not, keeps the account. */
  lemma {:induction false} SessionRunAccounts(codec: Codec, start: Custody, calls: seq<SessionCall>)
    requires Accounted(start.session)
    ensures SessionRun(codec, start, calls).Some? ==> Accounted(SessionRun(codec, start, calls).value.session)
    decreases |calls|
  {
    if calls != [] {
      var front := calls[..|calls| - 1];
      SessionRunAccounts(codec, start, front);
      var c := SessionRun(codec, start, front);
      if c.Some? && Enabled(c.value, calls[|calls| - 1]) { SessionActAccounts(codec, c.value, calls[|calls| - 1]); }
    }
  }

  // ----- ordinals spent without a record -----

  predicate ReferencePass(s: SessionState, call: SessionCall) {
    && call.DoReference? && call.begin.command.program == s.cargo && call.begin.flags.Some?
    && s.ordinal < MAX_CARGO_OPERATIONS
  }

  /** A begin that is refused after its ordinal was spent: by the bound, the route, or the retention limit. */
  ghost predicate RefusedBegin(codec: Codec, s: SessionState, call: SessionCall) {
    && (call.DoLaunch? || call.DoBegin?) && call.begin.command.program == s.cargo && call.begin.flags.Some?
    && BeginStep(codec, s, call.begin, call.routeIo).1.None?
  }

  /** How many calls of a run were reference passes or refused begins. */
  ghost function UnrecordedCalls(codec: Codec, start: Custody, calls: seq<SessionCall>): nat {
    if calls == [] then 0 else
      var front, last := calls[..|calls| - 1], calls[|calls| - 1];
      var c := SessionRun(codec, start, front);
      UnrecordedCalls(codec, start, front)
      + if c.Some? && (ReferencePass(c.value.session, last) || RefusedBegin(codec, c.value.session, last)) then 1 else 0
  }

  predicate SameCounts(s: SessionState, t: SessionState) {
    s.ordinal == t.ordinal && |s.operations| == |t.operations| && s.lost == t.lost
  }

  lemma BeginCounts(codec: Codec, s: SessionState, input: BeginInput, io: RouteIo)
    ensures var (t, r) := BeginStep(codec, s, input, io);
            if input.command.program != s.cargo || input.flags.None? then t == s
            else t.ordinal == s.ordinal + 1
                 && |t.operations| + t.lost == |s.operations| + s.lost + if r.None? then 0 else 1
  {
    hide RouteStep, Overlay;
  }

  lemma ReferenceCounts(codec: Codec, s: SessionState, call: SessionCall)
    requires call.DoReference?
    ensures var (t, r) := ReferenceStep(codec, s, call.begin, call.routeIo);
            && |t.operations| == |s.operations| && t.lost == s.lost
            && t.ordinal == s.ordinal + if ReferencePass(s, call) then 1 else 0
  {
    hide RouteStep, Overlay;
  }

  lemma StartCounts(codec: Codec, s: SessionState, command: Command, operation: Option<nat>, input: StartInput,
                    io: StartIo)
    ensures SameCounts(s, StartStep(codec, s, command, operation, input, io).0.session)
  {
    hide PrepareStep, SpawnStep, SpawnFailedStep, SpawnedStep, CancelStep;
  }

  lemma EndCounts(codec: Codec, c: Custody, call: SessionCall)
    requires Enabled(c, call) && (call.DoMark? || call.DoComplete? || call.DoWait? || call.DoPipeFault? || call.DoDrop?)
    ensures SameCounts(c.session, SessionAct(codec, c, call).session)
  {
    hide CancelStep, CompleteStep, BeginStep, ReferenceStep, LaunchStep, StartStep;
  }

  lemma ActCounts(codec: Codec, c: Custody, call: SessionCall)
    requires Enabled(c, call)
    ensures var s, t := c.session, SessionAct(codec, c, call).session;
            t.ordinal - |t.operations| - t.lost
            == s.ordinal - |s.operations| - s.lost
               + if ReferencePass(s, call) || RefusedBegin(codec, s, call) then 1 else 0
  {
    hide BeginStep, ReferenceStep, StartStep, WaitStep, PipeFaultStep, DropStep;
    match call
    case DoLaunch(begin, start, routeIo, startIo) =>
      BeginCounts(codec, c.session, begin, routeIo);
      var (s, r) := BeginStep(codec, c.session, begin, routeIo);
      if r.Some? { StartCounts(codec, s, r.value.0, r.value.1, start, startIo); }
    case DoReference(begin, start, routeIo, startIo) =>
      ReferenceCounts(codec, c.session, call);
      var (s, r) := ReferenceStep(codec, c.session, begin, routeIo);
      if r.Some? { StartCounts(codec, s, r.value.0, r.value.1, start, startIo); }
    case DoBegin(begin, routeIo) => BeginCounts(codec, c.session, begin, routeIo);
    case _ => EndCounts(codec, c, call);
  }

  /** Over every run, the ordinals without a record are exactly the reference passes and the refused begins. */
  lemma {:induction false} UnrecordedIsCounted(codec: Codec, start: Custody, calls: seq<SessionCall>)
    requires Accounted(start.session) && SessionRun(codec, start, calls).Some?
    ensures var c := SessionRun(codec, start, calls).value;
            && Accounted(c.session)
            && Unrecorded(c.session) == Unrecorded(start.session) + UnrecordedCalls(codec, start, calls)
    decreases |calls|
  {
    hide Accounted, SessionAct, ReferencePass, RefusedBegin;
    SessionRunAccounts(codec, start, calls);
    if calls != [] {
      var front, last := calls[..|calls| - 1], calls[|calls| - 1];
      UnrecordedIsCounted(codec, start, front);
      ActCounts(codec, SessionRun(codec, start, front).value, last);
    }
  }

  // ----- what is published -----

  /** The serialized sizes `finish` measures, and the outcome of the portability checks outside this account. */
  datatype Sizes = Sizes(operation: Operation -> nat, session: seq<Operation> -> nat, portable: bool)

  datatype Published = Published(operations: seq<Operation>, budgetGap: bool, malformed: bool, loss: Option<(nat, nat)>)

  /** The operations that fit, in order, each admitted only if the record with it still fits. */
  function Admitted(sizes: Sizes, ops: seq<Operation>): seq<Operation> {
    if ops == [] then [] else
      var kept, last := Admitted(sizes, ops[..|ops| - 1]), ops[|ops| - 1];
      if sizes.operation(last) > MAX_CARGO_OPERATION_BYTES
         || sizes.session(kept + [last]) > MAX_CARGO_SESSION_BYTES - 1024 then
        kept
      else kept + [last]
  }

  function Draft(s: SessionState, sizes: Sizes): Published {
    var kept := Admitted(sizes, s.operations);
    var lossy := s.lost > 0 || |kept| != |s.operations|;
    Published(kept, lossy, false, if lossy then Some((s.ordinal, |kept|)) else None)
  }

  /** The conditions `CargoOperationsV1::validate` puts on order, labels, lifecycles and loss witnesses. */
  predicate Validates(name: Bytes, p: Published) {
    && |p.operations| <= MAX_CARGO_OPERATIONS
    && (forall i :: 0 <= i < |p.operations| ==>
          p.operations[i].ordinal >= 1 && p.operations[i].request == RequestLabel(name, p.operations[i].ordinal)
            && LifecycleOk(p.operations[i]))
    && (forall i, j :: 0 <= i < j < |p.operations| ==>
          p.operations[i].ordinal < p.operations[j].ordinal && p.operations[i].request != p.operations[j].request)
    && (p.loss.Some? ==> p.loss.value.0 > p.loss.value.1 && p.budgetGap)
  }

  lemma RecordedAppend(name: Bytes, ops: seq<Operation>, last: Operation, ordinal: nat)
    requires Recorded(name, ops, ordinal) && Recorded(name, [last], ordinal)
    requires ops != [] ==> ops[|ops| - 1].ordinal < last.ordinal
    ensures Recorded(name, ops + [last], ordinal)
  {
    var all := ops + [last];
    forall i | 0 <= i < |ops| ensures all[i].ordinal < last.ordinal {
      assert ops[i].ordinal <= ops[|ops| - 1].ordinal;
    }
  }

  lemma RecordedSplit(name: Bytes, ops: seq<Operation>, ordinal: nat)
    requires Recorded(name, ops, ordinal) && ops != []
    ensures Recorded(name, ops[..|ops| - 1], ordinal) && Recorded(name, [ops[|ops| - 1]], ordinal)
    ensures |ops| > 1 ==> ops[|ops| - 2].ordinal < ops[|ops| - 1].ordinal
  {
  }

  lemma {:induction false} AdmittedRecorded(sizes: Sizes, name: Bytes, ops: seq<Operation>, ordinal: nat)
    requires Recorded(name, ops, ordinal)
    ensures var kept := Admitted(sizes, ops);
            && Recorded(name, kept, ordinal) && |kept| <= |ops| && (|kept| == |ops| ==> kept == ops)
            && (kept != [] ==> kept[|kept| - 1].ordinal <= ops[|ops| - 1].ordinal)
    decreases |ops|
  {
    hide Recorded;
    if ops != [] {
      var front, last := ops[..|ops| - 1], ops[|ops| - 1];
      RecordedSplit(name, ops, ordinal);
      AdmittedRecorded(sizes, name, front, ordinal);
      var kept := Admitted(sizes, front);
      assert kept != [] ==> front != [] && kept[|kept| - 1].ordinal < last.ordinal;
      RecordedAppend(name, kept, last, ordinal);
      assert ops == front + [last];
    }
  }

  /** Only recorded operations are published. */
  lemma {:induction false} AdmittedFrom(sizes: Sizes, ops: seq<Operation>, op: Operation)
    requires op in Admitted(sizes, ops)
    ensures op in ops
    decreases |ops|
  {
    var front, last := ops[..|ops| - 1], ops[|ops| - 1];
    if op in Admitted(sizes, front) { AdmittedFrom(sizes, front, op); }
  }

  lemma {:induction false} AdmittedGrows(sizes: Sizes, ops: seq<Operation>, n: nat)
    requires n <= |ops|
    ensures Admitted(sizes, ops[..n]) <= Admitted(sizes, ops)
    decreases |ops|
  {
    if n < |ops| {
      AdmittedGrows(sizes, ops[..|ops| - 1], n);
      assert ops[..|ops| - 1][..n] == ops[..n];
    } else {
      assert ops[..n] == ops;
    }
  }

  /** Each operation is published, in order, exactly when it is small enough and the record with it still fits. */
  lemma AdmittedIffFits(sizes: Sizes, ops: seq<Operation>, i: nat)
    requires i < |ops|
    ensures var before := Admitted(sizes, ops[..i]);
            var fits := && sizes.operation(ops[i]) <= MAX_CARGO_OPERATION_BYTES
                        && sizes.session(before + [ops[i]]) <= MAX_CARGO_SESSION_BYTES - 1024;
            && Admitted(sizes, ops[..i + 1]) == (if fits then before + [ops[i]] else before)
            && Admitted(sizes, ops[..i + 1]) <= Admitted(sizes, ops)
  {
    assert ops[..i + 1][..i] == ops[..i];
    AdmittedGrows(sizes, ops, i + 1);
  }

  /** Operations that are small and fit together are all published. */
  lemma {:induction false} FittingAreAdmitted(sizes: Sizes, ops: seq<Operation>)
    requires forall i :: 0 <= i < |ops| ==> sizes.operation(ops[i]) <= MAX_CARGO_OPERATION_BYTES
    requires forall n :: 0 <= n <= |ops| ==> sizes.session(ops[..n]) <= MAX_CARGO_SESSION_BYTES - 1024
    ensures Admitted(sizes, ops) == ops
    decreases |ops|
  {
    if ops != [] {
      var front := ops[..|ops| - 1];
      forall n | 0 <= n <= |front| ensures sizes.session(front[..n]) <= MAX_CARGO_SESSION_BYTES - 1024 {
        assert front[..n] == ops[..n];
      }
      FittingAreAdmitted(sizes, front);
      assert ops == front + [ops[|ops| - 1]] && ops[..|ops|] == ops;
    }
  }

  /**
   Whatever the sizes, the draft passes the account's own checks, and its witness says exactly what was spent and
   kept.
   */
  lemma DraftValidates(s: SessionState, sizes: Sizes)
    requires Accounted(s)
    ensures var p := Draft(s, sizes);
            && Validates(s.name, p)
            && (p.loss.None? <==> s.lost == 0 && p.operations == s.operations)
            && (p.loss.Some? ==> && p.loss.value.1 == |p.operations|
                                    && p.loss.value.0 - p.loss.value.1
                                       == s.lost + (|s.operations| - |p.operations|) + Unrecorded(s))
  {
    AdmittedRecorded(sizes, s.name, s.operations, s.ordinal);
    var p := Draft(s, sizes);
    forall i, j | 0 <= i < j < |p.operations| ensures p.operations[i].request != p.operations[j].request {
      if p.operations[i].request == p.operations[j].request {
        RequestLabelInjective(s.name, p.operations[i].ordinal, p.operations[j].ordinal);
      }
    }
  }

  function NumberLost(s: SessionState, p: Published): int {
    s.lost + |s.operations| - |p.operations|
  }

  function Unstarted(observer: Option<ObserverState>, cargo: Bytes, name: Bytes): Custody {
    Custody(SessionState(observer, cargo, name, 0, [], 0, 0, None), None)
  }

  lemma UnstartedAccounted(observer: Option<ObserverState>, cargo: Bytes, name: Bytes)
    ensures Accounted(Unstarted(observer, cargo, name).session)
    ensures Unrecorded(Unstarted(observer, cargo, name).session) == 0
  {
  }

  /** After any run the witness, said to be exact, is off by the reference passes and refused begins of the run. */
  lemma WitnessExactIff(codec: Codec, observer: Option<ObserverState>, cargo: Bytes, name: Bytes,
                        calls: seq<SessionCall>, sizes: Sizes)
    requires SessionRun(codec, Unstarted(observer, cargo, name), calls).Some?
    ensures var start := Unstarted(observer, cargo, name);
            var s := SessionRun(codec, start, calls).value.session;
            var p := Draft(s, sizes);
            && (p.loss.None? <==> NumberLost(s, p) == 0)
            && (p.loss.Some? ==>
                  && p.loss.value.0 - p.loss.value.1 == NumberLost(s, p) + UnrecordedCalls(codec, start, calls)
                  && (p.loss.value.0 - p.loss.value.1 == NumberLost(s, p) <==>
                        UnrecordedCalls(codec, start, calls) == 0))
  {
    hide SessionRun, UnrecordedCalls, Validates, Draft, Accounted;
    var start := Unstarted(observer, cargo, name);
    UnstartedAccounted(observer, cargo, name);
    UnrecordedIsCounted(codec, start, calls);
    var s := SessionRun(codec, start, calls).value.session;
    DraftValidates(s, sizes);
    DraftKeeps(s, sizes);
  }

  lemma DraftKeeps(s: SessionState, sizes: Sizes)
    ensures var p := Draft(s, sizes);
            |p.operations| <= |s.operations| && (|p.operations| == |s.operations| <==> p.operations == s.operations)
  {
    AdmittedAtMost(sizes, s.operations);
    AdmittedAll(sizes, s.operations);
  }

  lemma {:induction false} AdmittedAll(sizes: Sizes, ops: seq<Operation>)
    ensures |Admitted(sizes, ops)| == |ops| ==> Admitted(sizes, ops) == ops
    decreases |ops|
  {
    if ops != [] {
      AdmittedAtMost(sizes, ops[..|ops| - 1]);
      AdmittedAll(sizes, ops[..|ops| - 1]);
    }
  }

  // ----- a run whose witness is off by one -----

  /** What each of sixteen operations may retain so that all of them fit. */
  const ROOM := MAX_CARGO_SESSION_BYTES / MAX_CARGO_OPERATIONS

  predicate UnspawnedPass(call: SessionCall, cargo: Bytes) {
    && call.DoReference? && call.begin.command.program == cargo && call.begin.flags.Some? && RealSessionCall(call)
    && call.start.answer.None?
  }

  predicate SmallBegin(call: SessionCall, cargo: Bytes) {
    && call.DoBegin? && call.begin.command.program == cargo && call.begin.flags.Some? && RealSessionCall(call)
    && call.begin.weight <= ROOM
  }

  /** A reference pass that cannot be spawned, then operations that retain little. */
  predicate PassThenBegins(calls: seq<SessionCall>, cargo: Bytes) {
    && calls != [] && UnspawnedPass(calls[0], cargo)
    && forall i :: 1 <= i < |calls| ==> SmallBegin(calls[i], cargo)
  }

  /** Without an observer `n` begins after the pass record what fits the bound of sixteen and lose the rest. */
  predicate AfterBegins(c: Custody, cargo: Bytes, n: nat) {
    var kept := if n < MAX_CARGO_OPERATIONS then n else MAX_CARGO_OPERATIONS;
    && c.child.None? && c.session.observer.None? && c.session.cargo == cargo
    && c.session.ordinal == n + 1 && |c.session.operations| == kept
    && c.session.retained <= kept * ROOM && c.session.lost == n - kept
  }

  lemma PassUnobserved(codec: Codec, cargo: Bytes, name: Bytes, call: SessionCall)
    requires UnspawnedPass(call, cargo)
    ensures AfterBegins(SessionAct(codec, Unstarted(None, cargo, name), call), cargo, 0)
  {
    hide Labelled;
  }

  lemma BeginIsRecord(codec: Codec, s: SessionState, input: BeginInput, io: RouteIo)
    requires s.observer.None? && input.command.program == s.cargo && input.flags.Some?
    ensures BeginStep(codec, s, input, io)
         == Record(Numbered(s), Labelled(Numbered(s), input.command, input.flags.value), input)
  {
    hide Labelled, Record;
  }

  lemma BeginUnobserved(codec: Codec, c: Custody, call: SessionCall, cargo: Bytes, n: nat)
    requires SmallBegin(call, cargo) && AfterBegins(c, cargo, n)
    ensures AfterBegins(SessionAct(codec, c, call), cargo, n + 1)
  {
    hide Labelled, BeginStep;
    BeginIsRecord(codec, c.session, call.begin, call.routeIo);
  }

  lemma {:induction false} PassThenBeginsRun(codec: Codec, cargo: Bytes, name: Bytes, calls: seq<SessionCall>)
    requires PassThenBegins(calls, cargo)
    ensures var c := SessionRun(codec, Unstarted(None, cargo, name), calls);
            c.Some? && AfterBegins(c.value, cargo, |calls| - 1)
    decreases |calls|
  {
    hide SessionAct, UnspawnedPass, SmallBegin;
    var front, last := calls[..|calls| - 1], calls[|calls| - 1];
    if front == [] {
      PassUnobserved(codec, cargo, name, last);
      PassIsPossible(last, cargo);
    } else {
      PassThenBeginsRun(codec, cargo, name, front);
      BeginUnobserved(codec, SessionRun(codec, Unstarted(None, cargo, name), front).value, last, cargo, |front| - 1);
      PassIsPossible(last, cargo);
    }
  }

  lemma PassIsPossible(call: SessionCall, cargo: Bytes)
    requires UnspawnedPass(call, cargo) || SmallBegin(call, cargo)
    ensures RealSessionCall(call) && !call.DoWait? && !call.DoPipeFault? && !call.DoDrop?
  {
  }

  /** Seventeen operations after one reference pass: sixteen recorded, one lost, and a witness that says two. */
  lemma ReferencePassMiscounted(codec: Codec, cargo: Bytes, name: Bytes, calls: seq<SessionCall>)
    requires PassThenBegins(calls, cargo) && |calls| == 18
    ensures var run := SessionRun(codec, Unstarted(None, cargo, name), calls);
            && run.Some?
            && var s := run.value.session;
               var p := Draft(s, Sizes((op: Operation) => 0, (ops: seq<Operation>) => 0, true));
               |s.operations| == 16 && NumberLost(s, p) == 1 && p.loss == Some((18, 16))
  {
    hide SessionRun, PassThenBegins;
    PassThenBeginsRun(codec, cargo, name, calls);
    AllAdmitted(SessionRun(codec, Unstarted(None, cargo, name), calls).value.session.operations);
  }

  lemma {:induction false} AllAdmitted(ops: seq<Operation>)
    ensures Admitted(Sizes((op: Operation) => 0, (all: seq<Operation>) => 0, true), ops) == ops
    decreases |ops|
  {
    if ops != [] { AllAdmitted(ops[..|ops| - 1]); }
  }

  lemma EmptiedValidates(name: Bytes)
    ensures Validates(name, Published([], false, true, None))
  {
  }

  lemma {:induction false} AdmittedAtMost(sizes: Sizes, ops: seq<Operation>)
    ensures |Admitted(sizes, ops)| <= |ops|
    decreases |ops|
  {
    if ops != [] { AdmittedAtMost(sizes, ops[..|ops| - 1]); }
  }

  /** The publication loop; the emptied fallback is taken only when the checks outside this account fail. */
  method Finish(s: SessionState, sizes: Sizes) returns (p: Published)
    requires Accounted(s)
    ensures p == if sizes.portable then Draft(s, sizes) else Published([], false, true, None)
    ensures Validates(s.name, p)
  {
    EmptiedValidates(s.name);
    hide Validates, Accounted, Recorded, LifecycleOk;
    var kept: seq<Operation>, lost := [], s.lost;
    for i := 0 to |s.operations|
      invariant kept == Admitted(sizes, s.operations[..i])
      invariant |kept| + lost == i + s.lost
    {
      var value := s.operations[i];
      assert s.operations[..i + 1][..i] == s.operations[..i];
      if sizes.operation(value) > MAX_CARGO_OPERATION_BYTES {
        lost := lost + 1;
      } else {
        kept := kept + [value];
        if sizes.session(kept) > MAX_CARGO_SESSION_BYTES - 1024 {
          kept := kept[..|kept| - 1];
          lost := lost + 1;
        }
      }
    }
    assert s.operations[..|s.operations|] == s.operations;
    AdmittedAtMost(sizes, s.operations);
    p := Published(kept, lost > 0, false, if lost > 0 then Some((s.ordinal, |kept|)) else None);
    DraftValidates(s, sizes);
    if !sizes.portable {
      p := Published([], false, true, None);
    }
  }
}
