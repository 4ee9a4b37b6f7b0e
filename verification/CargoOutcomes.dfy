/**
 What a session's record says of its operations and its history of their processes, against what happened: the calls
 made, the system's answers and the statuses that were waited for.
 */
module CargoOutcomes {
  import opened Bytes
  import opened LaunchIntent
  import opened LaunchObserver
  import opened CargoLaunch
  import opened CargoRuns
  import opened CargoAccount
  import opened LaunchCommands

  // ----- what one launch leaves in the history -----

  /** Entries that are not about a process. */
  predicate Quiet(es: seq<Entry>) {
    forall i :: 0 <= i < |es| ==> es[i].Exchange? || es[i].Abandon? || es[i].Release? || es[i].Gone?
  }

  /** The entries that are. */
  function Processes(es: seq<Entry>): seq<Entry> {
    if es == [] then []
    else
      var last := es[|es| - 1];
      Processes(es[..|es| - 1]) + if last.Exchange? || last.Abandon? || last.Release? || last.Gone? then [] else [last]
  }

  lemma {:induction false} ProcessesConcat(a: seq<Entry>, b: seq<Entry>)
    ensures Processes(a + b) == Processes(a) + Processes(b)
    decreases |b|
  {
    if b == [] {
      assert a + b == a;
    } else {
      ProcessesConcat(a, b[..|b| - 1]);
      assert (a + b)[..|a + b| - 1] == a + b[..|b| - 1];
    }
  }

  lemma {:induction false} QuietProcesses(es: seq<Entry>)
    requires Quiet(es)
    ensures Processes(es) == []
    decreases |es|
  {
    if es != [] { QuietProcesses(es[..|es| - 1]); }
  }

  lemma OneProcess(e: Entry, rest: seq<Entry>)
    requires Quiet(rest) && !Quiet([e])
    ensures Processes([e] + rest) == [e]
  {
    QuietProcesses(rest);
    ProcessesConcat([e], rest);
    assert [e][..0] == [] && [e][0] == e;
  }

  lemma QuietJoin(a: seq<Entry>, b: seq<Entry>)
    requires Quiet(a) && Quiet(b)
    ensures Quiet(a + b)
  {
  }

  lemma NotifyLog(codec: Codec, s: ObserverState, event: Event, io: ExchangeIo) returns (more: seq<Entry>)
    ensures NotifyStep(codec, s, event, io).0.trace == s.trace + more && Quiet(more)
  {
    hide Converse;
    more := NotifyStep(codec, s, event, io).0.trace[|s.trace|..];
  }

  lemma RouteLog(codec: Codec, s: ObserverState, command: Command, binding: Binding, inherit: bool, amb: Ambient,
                 io: ExchangeIo, farewell: ExchangeIo)
    returns (more: seq<Entry>)
    ensures RouteStep(codec, s, command, binding, inherit, amb, io, farewell).0.trace == s.trace + more && Quiet(more)
  {
    hide Converse, Present, NotifyStep;
    var (t, r) := RouteInner(codec, s, command, binding, inherit, amb, io);
    more := t.trace[|s.trace|..];
    assert t.trace == s.trace + more;
    if r.None? {
      var last := NotifyLog(codec, t.Fail(), Unavailable(binding), farewell);
      QuietJoin(more, last);
      more := more + last;
    }
  }

  lemma CancelLog(codec: Codec, s: ObserverState, launch: PreparedLaunch, pid: u32, status: ExitStatus, io: ExchangeIo)
    returns (more: seq<Entry>)
    ensures CancelStep(codec, s, launch, pid, status, io).0.trace == s.trace + more && Quiet(more)
  {
    hide NotifyStep;
    more := [];
    if Owns(s, launch, AwaitingExit) { more := NotifyLog(codec, s, Cancelled(launch.binding, pid, status), io); }
    more := more + [Release(launch.binding)];
  }

  lemma SpawnFailedLog(codec: Codec, s: ObserverState, launch: PreparedLaunch, io: ExchangeIo)
    returns (more: seq<Entry>)
    ensures SpawnFailedStep(codec, s, launch, io).0.trace == s.trace + more && Quiet(more)
  {
    hide NotifyStep;
    more := [];
    if Owns(s, launch, AwaitingSpawn) {
      more := NotifyLog(codec, s.(pending := None), SpawnFailed(launch.binding), io);
    }
    more := more + [Release(launch.binding)];
  }

  lemma SpawnedLog(codec: Codec, s: ObserverState, launch: PreparedLaunch, pid: u32, io: ExchangeIo)
    returns (more: seq<Entry>)
    ensures SpawnedStep(codec, s, launch, pid, io).0.trace == s.trace + more && Quiet(more)
  {
    hide NotifyStep;
    more := [];
    if Owns(s, launch, AwaitingSpawn) && launch.command.None? && pid != 0 {
      more := NotifyLog(codec, s.(pending := Some(s.pending.value.(phase := AwaitingExit))),
                        Spawned(launch.binding, pid), io);
    }
  }

  /** How a launch that got as far as the spawn ends. */
  datatype Fate = Unspawned | HandedOut | CutShort

  /** The process entries of a launch and what it does to the session's record, by its fate. */
  predicate Fared(s: SessionState, c: Custody, more: seq<Entry>, fate: Fate, launch: PreparedLaunch,
                  operation: Option<nat>, input: StartInput)
    requires launch.command.Some? && (input.answer.None? <==> fate.Unspawned?)
  {
    match fate
    case Unspawned =>
      && Processes(more) == [SpawnError(launch.binding)] && c.child.None?
      && c.session.operations == s.Completed(operation, None).operations
    case HandedOut =>
      && Processes(more) == [Spawn(launch.command.value, launch.binding, input.answer.value)]
      && c.session.operations == s.Mark(operation).operations
      && c.child.Some? && c.child.value.operation == operation && !c.child.value.waited
    case CutShort =>
      && Processes(more) == [Spawn(launch.command.value, launch.binding, input.answer.value),
                             Wait(launch.binding, input.status)]
      && c.session.operations == s.Mark(operation).Completed(operation, Some(input.status)).operations
      && c.child.None?
  }

  /** A child whose spawn could not be reported is waited for, and that is the last of it. */
  lemma CutShortLog(codec: Codec, s: SessionState, launch: PreparedLaunch, pid: u32, operation: Option<nat>,
                    status: ExitStatus, io: ExchangeIo)
    returns (more: seq<Entry>)
    requires s.observer.Some?
    ensures var child := ChildState(pid, Some(launch.binding), operation, false, Some(launch), true);
            var c := Leave(CancelOwned(codec, Custody(s, Some(child)), status, 0, io));
            && c.session.observer.Some? && c.session.observer.value.trace == s.observer.value.trace + more
            && c.session.operations == s.Completed(operation, Some(status)).operations && c.child.None?
    ensures Processes(more) == [Wait(launch.binding, status)] && more != []
  {
    hide CancelStep, Processes, Quiet;
    var wait := Wait(launch.binding, status);
    var last := CancelLog(codec, s.observer.value.Log(wait), launch, pid, status, io);
    QuietEnd(last, launch.binding);
    last := last + [Gone(launch.binding)];
    NotQuiet(wait, last);
    more := [wait] + last;
  }

  lemma SpawningLog(codec: Codec, s: SessionState, launch: PreparedLaunch, operation: Option<nat>, input: StartInput,
                    report: ExchangeIo, cancel: ExchangeIo)
    returns (more: seq<Entry>, fate: Fate)
    requires s.observer.Some? && launch.command.Some?
    ensures input.answer.None? <==> fate.Unspawned?
    ensures var c := Spawning(codec, s, launch, operation, input, report, cancel).0;
            && c.session.observer.Some? && c.session.observer.value.trace == s.observer.value.trace + more
            && Fared(s, c, more, fate, launch, operation, input)
            && more != [] && (!fate.Unspawned? ==>
                 more[0] == Spawn(launch.command.value, launch.binding, input.answer.value))
  {
    hide SpawnedStep, SpawnFailedStep, CancelOwned, Leave, Processes, Quiet;
    var o := s.observer.value;
    var (p, spent, pid) := SpawnStep(o, launch, input.answer);
    if pid.None? {
      fate := Unspawned;
      var rest := SpawnFailedLog(codec, p, spent, report);
      more := [SpawnError(launch.binding)] + rest;
      NotQuiet(SpawnError(launch.binding), rest);
    } else {
      var e := Spawn(launch.command.value, launch.binding, pid.value);
      var rest := SpawnedLog(codec, p, spent, pid.value, report);
      NotQuiet(e, rest);
      var (q, ok) := SpawnedStep(codec, p, spent, pid.value, report);
      more := [e] + rest;
      if ok {
        fate := HandedOut;
      } else {
        fate := CutShort;
        var t := s.(observer := Some(q)).Mark(operation);
        var last := CutShortLog(codec, t, spent, pid.value, operation, input.status, cancel);
        ProcessesConcat(more, last);
        more := more + last;
      }
    }
  }

  lemma NotQuiet(e: Entry, rest: seq<Entry>)
    requires (e.Spawn? || e.SpawnError? || e.Wait?) && Quiet(rest)
    ensures Processes([e] + rest) == [e]
  {
    assert !Quiet([e]) by { assert [e][0] == e; }
    OneProcess(e, rest);
  }

  lemma QuietEnd(es: seq<Entry>, binding: Binding)
    requires Quiet(es)
    ensures Quiet(es + [Gone(binding)])
  {
  }

  // ----- what happened to operations, and the record of it -----

  /** Operation `index` of the record began, its child ran, it ended with a status, or it could not be spawned. */
  datatype Happening =
    | Began(ordinal: nat, kind: OperationKind)
    | Started(index: nat)
    | Ended(index: nat, status: ExitStatus)
    | NotSpawned(index: nat)

  function Beginnings(h: seq<Happening>): seq<(nat, OperationKind)> {
    if h == [] then []
    else
      var last := h[|h| - 1];
      Beginnings(h[..|h| - 1]) + if last.Began? then [(last.ordinal, last.kind)] else []
  }

  /** The status the operation was last seen to end with. */
  function LastEnd(h: seq<Happening>, i: nat): Option<ExitStatus> {
    if h == [] then None
    else
      var last := h[|h| - 1];
      if last.Ended? && last.index == i then Some(last.status) else LastEnd(h[..|h| - 1], i)
  }

  predicate Ran(h: seq<Happening>, i: nat) {
    exists k :: 0 <= k < |h| && (h[k] == Started(i) || (h[k].Ended? && h[k].index == i))
  }

  predicate Unspawnable(h: seq<Happening>, i: nat) {
    exists k :: 0 <= k < |h| && h[k] == NotSpawned(i)
  }

  /** The record of one operation says what happened to it: the code of the status it ended with and no other. */
  predicate OutcomeOf(op: Operation, i: nat, h: seq<Happening>) {
    var end := LastEnd(h, i);
    && op.exitCode == (if end.Some? then end.value.code else None)
    && (op.success <==> end.Some? && end.value.code == Some(0))
    && (op.started <==> Ran(h, i)) && (op.readFailed <==> Unspawnable(h, i))
  }

  predicate Known(h: seq<Happening>, n: nat) {
    forall k :: 0 <= k < |h| && !h[k].Began? ==> h[k].index < n
  }

  /** One record for each beginning, in order, with its number, label, kind and outcome. */
  predicate Tells(name: Bytes, ops: seq<Operation>, h: seq<Happening>) {
    var begun := Beginnings(h);
    && |ops| == |begun| && Known(h, |ops|)
    && forall i :: 0 <= i < |ops| ==>
         && ops[i].ordinal == begun[i].0 && ops[i].kind == begun[i].1
         && ops[i].request == RequestLabel(name, begun[i].0) && OutcomeOf(ops[i], i, h)
  }

  /** One more happening, seen from operation `i`. */
  lemma OneMore(h: seq<Happening>, e: Happening, i: nat)
    ensures Beginnings(h + [e]) == Beginnings(h) + if e.Began? then [(e.ordinal, e.kind)] else []
    ensures LastEnd(h + [e], i) == if e.Ended? && e.index == i then Some(e.status) else LastEnd(h, i)
    ensures Ran(h + [e], i) <==> Ran(h, i) || e == Started(i) || (e.Ended? && e.index == i)
    ensures Unspawnable(h + [e], i) <==> Unspawnable(h, i) || e == NotSpawned(i)
  {
    var more := h + [e];
    assert more[..|more| - 1] == h && more[|h|] == e;
    assert forall k :: 0 <= k < |h| ==> more[k] == h[k];
  }

  lemma {:induction false} UnknownOutcome(h: seq<Happening>, i: nat)
    requires Known(h, i)
    ensures LastEnd(h, i) == None && !Ran(h, i) && !Unspawnable(h, i)
    decreases |h|
  {
    if h != [] { UnknownOutcome(h[..|h| - 1], i); }
  }

  lemma TellsBegan(name: Bytes, ops: seq<Operation>, h: seq<Happening>, ordinal: nat, kind: OperationKind)
    requires Tells(name, ops, h)
    ensures Tells(name, ops + [Operation(ordinal, RequestLabel(name, ordinal), kind, false, None, false, false)],
                  h + [Began(ordinal, kind)])
  {
    hide Beginnings, LastEnd, Ran, Unspawnable;
    var e := Began(ordinal, kind);
    UnknownOutcome(h, |ops|);
    forall i: nat { OneMore(h, e, i); }
  }

  /** The record after one more happening to operation `i`. */
  function Updated(op: Operation, e: Happening): Operation {
    match e
    case Began(_, _) => op
    case Started(_) => op.(started := true)
    case Ended(_, status) => op.(started := true, exitCode := status.code, success := status.code == Some(0))
    case NotSpawned(_) => op.(readFailed := true)
  }

  lemma TellsUpdate(name: Bytes, ops: seq<Operation>, h: seq<Happening>, e: Happening)
    requires Tells(name, ops, h) && !e.Began? && e.index < |ops|
    ensures Tells(name, ops[e.index := Updated(ops[e.index], e)], h + [e])
  {
    hide Beginnings, LastEnd, Ran, Unspawnable;
    forall i: nat { OneMore(h, e, i); }
  }

  lemma TellsStarted(s: SessionState, h: seq<Happening>, i: nat)
    requires Tells(s.name, s.operations, h) && i < |s.operations|
    ensures Tells(s.name, s.Mark(Some(i)).operations, h + [Started(i)])
  {
    hide Tells;
    TellsUpdate(s.name, s.operations, h, Started(i));
  }

  lemma TellsEnded(s: SessionState, h: seq<Happening>, i: nat, status: Option<ExitStatus>)
    requires Tells(s.name, s.operations, h) && i < |s.operations|
    ensures Tells(s.name, s.Completed(Some(i), status).operations,
                  h + [if status.Some? then Ended(i, status.value) else NotSpawned(i)])
  {
    hide Tells;
    TellsUpdate(s.name, s.operations, h, if status.Some? then Ended(i, status.value) else NotSpawned(i));
  }

  // ----- what a call makes happen -----

  /** The end of operation `i` with a status, if the record has it. */
  function EndOfOperation(c: Custody, operation: Option<nat>, status: ExitStatus): seq<Happening> {
    if operation.Some? && operation.value < |c.session.operations| then [Ended(operation.value, status)] else []
  }

  function NewEntries(before: SessionState, after: SessionState): seq<Entry> {
    if before.observer.Some? && after.observer.Some?
       && |before.observer.value.trace| <= |after.observer.value.trace| then
      after.observer.value.trace[|before.observer.value.trace|..]
    else []
  }

  /** What the process entries of a launch say of its operation. */
  function SeenToRun(i: nat, processes: seq<Entry>): seq<Happening> {
    if processes == [] then []
    else if processes[0].SpawnError? then [NotSpawned(i)]
    else [Started(i)] + if |processes| > 1 && processes[1].Wait? then [Ended(i, processes[1].status)] else []
  }

  /** A launch: its operation, if it was recorded, and what the history or, unobserved, the system says of the child. */
  function LaunchHappenings(before: SessionState, after: SessionState, kind: OperationKind, answer: Option<u32>)
    : seq<Happening>
  {
    var n := |before.operations|;
    if |after.operations| <= n then []
    else
      [Began(after.ordinal, kind)] +
      if before.observer.None? then [if answer.Some? then Started(n) else NotSpawned(n)]
      else SeenToRun(n, Processes(NewEntries(before, after)))
  }

  /** What a call makes happen to recorded operations; `launched` is the one the live child was launched for. */
  ghost function Happenings(codec: Codec, c: Custody, call: SessionCall, launched: Option<nat>): seq<Happening>
    requires Enabled(c, call)
  {
    var after := SessionAct(codec, c, call).session;
    match call
    case DoLaunch(begin, start, _, _) => LaunchHappenings(c.session, after, begin.kind, start.answer)
    case DoReference(_, _, _, _) => []
    case DoBegin(begin, _) =>
      if |after.operations| > |c.session.operations| then [Began(after.ordinal, begin.kind)] else []
    case DoMark(operation) =>
      if operation.Some? && operation.value < |c.session.operations| then [Started(operation.value)] else []
    case DoComplete(operation, status) =>
      if operation.None? || operation.value >= |c.session.operations| then []
      else if status.Some? then [Ended(operation.value, status.value)]
      else [NotSpawned(operation.value)]
    case DoWait(result, later, _) =>
      if result.Some? then EndOfOperation(c, launched, result.value)
      else if c.child.value.waited then []
      else EndOfOperation(c, launched, later)
    case DoPipeFault(later, _) =>
      if c.child.value.waited then [] else EndOfOperation(c, launched, later)
    case DoDrop(later, _) =>
      if c.child.value.waited || c.session.observer.None? then []
      else EndOfOperation(c, launched, later)
  }

  ghost function RunHappenings(codec: Codec, start: Custody, calls: seq<SessionCall>): seq<Happening> {
    if calls == [] then []
    else
      var front, last := calls[..|calls| - 1], calls[|calls| - 1];
      var c := SessionRun(codec, start, front);
      RunHappenings(codec, start, front)
      + if c.Some? && Enabled(c.value, last) then Happenings(codec, c.value, last, LiveOperation(codec, start, front))
        else []
  }

  /**
   The recorded operation of the launch that handed out the live child: that of the last launch, if it recorded one.
   */
  ghost function LiveOperation(codec: Codec, start: Custody, calls: seq<SessionCall>): Option<nat> {
    if calls == [] then None
    else
      var front, last := calls[..|calls| - 1], calls[|calls| - 1];
      var c := SessionRun(codec, start, front);
      if c.None? || !Enabled(c.value, last) || last.DoReference? then None
      else if !last.DoLaunch? then LiveOperation(codec, start, front)
      else
        var n := |c.value.session.operations|;
        if |SessionAct(codec, c.value, last).session.operations| > n then Some(n) else None
  }

  /** Whatever child is live, it belongs to the operation of the launch that handed it out. */
  lemma {:induction false} ChildIsItsLaunch(codec: Codec, observer: Option<ObserverState>, cargo: Bytes, name: Bytes,
                                            calls: seq<SessionCall>)
    requires SessionRun(codec, Unstarted(observer, cargo, name), calls).Some?
    ensures var start := Unstarted(observer, cargo, name);
            var c := SessionRun(codec, start, calls).value;
            c.child.Some? ==> c.child.value.operation == LiveOperation(codec, start, calls)
    decreases |calls|
  {
    hide SessionAct;
    if calls != [] {
      var start, front, last := Unstarted(observer, cargo, name), calls[..|calls| - 1], calls[|calls| - 1];
      ChildIsItsLaunch(codec, observer, cargo, name, front);
      var c := SessionRun(codec, start, front).value;
      if last.DoLaunch? || last.DoReference? {
        LaunchHandsOut(codec, c, last);
      } else {
        OthersKeepChild(codec, c, last);
      }
    }
  }

  lemma LaunchHandsOut(codec: Codec, c: Custody, call: SessionCall)
    requires Enabled(c, call) && (call.DoLaunch? || call.DoReference?)
    ensures var d, n := SessionAct(codec, c, call), |c.session.operations|;
            d.child.Some? ==>
              d.child.value.operation == if call.DoLaunch? && |d.session.operations| > n then Some(n) else None
  {
    hide BeginStep, StartStep, ReferenceStep;
    if call.DoLaunch? {
      BeginRecords(codec, c.session, call.begin, call.routeIo);
      var (t, r) := BeginStep(codec, c.session, call.begin, call.routeIo);
      if r.Some? { StartHandsOut(codec, t, r.value.0, r.value.1, call.start, call.startIo); }
    } else {
      var (t, r) := ReferenceStep(codec, c.session, call.begin, call.routeIo);
      ReferenceRecordsNone(codec, c.session, call.begin, call.routeIo);
      if r.Some? { StartHandsOut(codec, t, r.value.0, r.value.1, call.start, call.startIo); }
    }
  }

  lemma ReferenceRecordsNone(codec: Codec, s: SessionState, input: BeginInput, io: RouteIo)
    ensures var r := ReferenceStep(codec, s, input, io).1; r.Some? ==> r.value.1.None?
  {
    hide RouteSession;
  }

  lemma StartHandsOut(codec: Codec, s: SessionState, command: Command, operation: Option<nat>, input: StartInput,
                      io: StartIo)
    ensures var c := StartStep(codec, s, command, operation, input, io).0;
            && (c.child.Some? ==> c.child.value.operation == operation)
            && |c.session.operations| == |s.operations|
  {
    hide PrepareStep, SpawnStep, SpawnFailedStep, SpawnedStep, CancelStep;
  }

  /** The other calls leave the child its operation, or leave no child. */
  lemma OthersKeepChild(codec: Codec, c: Custody, call: SessionCall)
    requires Enabled(c, call) && !call.DoLaunch? && !call.DoReference?
    ensures var d := SessionAct(codec, c, call);
            d.child.Some? ==> c.child.Some? && d.child.value.operation == c.child.value.operation
  {
    hide CancelStep, CompleteStep, BeginStep;
  }

  lemma PrepareLog(codec: Codec, s: ObserverState, command: Command, routed: RoutedIntent, amb: Ambient, sealed: bool,
                   io: ExchangeIo)
    returns (more: seq<Entry>)
    ensures var (t, launch) := PrepareStep(codec, s, command, routed, amb, sealed, io);
            && t.trace == s.trace + more && Quiet(more)
            && (launch.Some? ==> |more| == 1 && launch.value.command.Some? && t.session == s.session)
  {
    hide Converse, Describe, Freeze, MatchesPending;
    more := PrepareStep(codec, s, command, routed, amb, sealed, io).0.trace[|s.trace|..];
  }

  /** A begin that lets the launch proceed records one operation or, unobserved, may lose it; any other records none. */
  lemma BeginRecords(codec: Codec, s: SessionState, input: BeginInput, io: RouteIo)
    ensures var (t, r) := BeginStep(codec, s, input, io);
            && t.name == s.name && (t.observer.Some? <==> s.observer.Some?)
            && (if r.Some? && r.value.1.Some? then
                  && r.value.1.value == |s.operations|
                  && t.operations == s.operations + [Operation(t.ordinal, RequestLabel(s.name, t.ordinal), input.kind,
                                                               false, None, false, false)]
                else t.operations == s.operations)
            && (r.Some? && s.observer.Some? ==> r.value.1.Some?)
  {
    hide RouteStep, Overlay, Decimal;
  }

  lemma RouteSessionLog(codec: Codec, s: SessionState, command: Command, input: BeginInput, io: RouteIo)
    returns (more: seq<Entry>)
    requires s.observer.Some?
    ensures var t := RouteSession(codec, s, command, input, io).0;
            t.observer.Some? && t.observer.value.trace == s.observer.value.trace + more && Quiet(more)
  {
    hide RouteStep, Quiet;
    var binding := NextBinding(s, input.kind, s.observer.value.root);
    more := RouteLog(codec, s.observer.value, command, binding, true, input.amb, io.io, io.farewell);
    var r := RouteStep(codec, s.observer.value, command, binding, true, input.amb, io.io, io.farewell).1;
    if r.Some? && !input.selectionKept {
      QuietAbandon(more, binding);
      more := more + [Abandon(binding)];
    }
  }

  lemma QuietAbandon(es: seq<Entry>, binding: Binding)
    requires Quiet(es)
    ensures Quiet(es + [Abandon(binding)])
  {
  }

  lemma QuietNothing()
    ensures Quiet([])
  {
  }

  lemma RecordLog(s: SessionState, command: Command, input: BeginInput) returns (more: seq<Entry>)
    requires s.observer.Some?
    ensures var t := Record(s, command, input).0;
            t.observer.Some? && t.observer.value.trace == s.observer.value.trace + more && Quiet(more)
  {
    more := Record(s, command, input).0.observer.value.trace[|s.observer.value.trace|..];
  }

  /** What a begin adds to the history is about no process. */
  lemma BeginLog(codec: Codec, s: SessionState, input: BeginInput, io: RouteIo) returns (more: seq<Entry>)
    requires s.observer.Some?
    ensures var t := BeginStep(codec, s, input, io).0;
            t.observer.Some? && t.observer.value.trace == s.observer.value.trace + more && Quiet(more)
  {
    hide RouteSession, Labelled, Record, Quiet;
    QuietNothing();
    more := [];
    if input.command.program == s.cargo && input.flags.Some? && |s.operations| < MAX_CARGO_OPERATIONS {
      var t := Numbered(s);
      var command := Labelled(t, input.command, input.flags.value);
      more := RouteSessionLog(codec, t, command, input, io);
      var (u, routed) := RouteSession(codec, t, command, input, io);
      if routed.Some? {
        var last := RecordLog(u, routed.value, input);
        QuietJoin(more, last);
        more := more + last;
      }
    }
  }

  lemma ReferenceLog(codec: Codec, s: SessionState, input: BeginInput, io: RouteIo) returns (more: seq<Entry>)
    requires s.observer.Some?
    ensures var t := ReferenceStep(codec, s, input, io).0;
            t.observer.Some? && t.observer.value.trace == s.observer.value.trace + more && Quiet(more)
  {
    hide RouteSession, Labelled, Quiet;
    QuietNothing();
    more := [];
    if input.command.program == s.cargo && input.flags.Some? && s.ordinal < MAX_CARGO_OPERATIONS {
      var t := Numbered(s);
      more := RouteSessionLog(codec, t, Labelled(t, input.command, input.flags.value), input, io);
    }
  }

  lemma CompleteLog(codec: Codec, s: ObserverState, launch: PreparedLaunch, status: ExitStatus, io: ExchangeIo)
    returns (more: seq<Entry>)
    ensures CompleteStep(codec, s, launch, status, io).0.trace == s.trace + more && Quiet(more)
  {
    hide NotifyStep;
    more := [];
    if Owns(s, launch, AwaitingExit) { more := NotifyLog(codec, s, Completed(launch.binding, status), io); }
    more := more + [Release(launch.binding)];
  }

  /** An observed start: what it adds to the history and, through the operation, to the record. */
  lemma StartLog(codec: Codec, s: SessionState, command: Command, i: nat, input: StartInput, io: StartIo,
                 h: seq<Happening>)
    returns (more: seq<Entry>)
    requires s.observer.Some? && Tells(s.name, s.operations, h) && i < |s.operations|
    ensures var c := StartStep(codec, s, command, Some(i), input, io).0;
            && c.session.observer.Some? && c.session.observer.value.trace == s.observer.value.trace + more
            && c.session.name == s.name && c.session.ordinal == s.ordinal
            && |c.session.operations| == |s.operations|
            && Tells(s.name, c.session.operations, h + SeenToRun(i, Processes(more)))
  {
    hide Tells, PrepareStep, Spawning, Processes, Quiet;
    QuietNothing();
    more := [];
    QuietProcesses(more);
    assert h + [] == h;
    if s.routed.Some? {
      more := PrepareLog(codec, s.observer.value, command, s.routed.value, input.amb, input.sealed, io.prepare);
      QuietProcesses(more);
      var (o, launch) :=
        PrepareStep(codec, s.observer.value, command, s.routed.value, input.amb, input.sealed, io.prepare);
      if launch.Some? {
        var t := s.(observer := Some(o), routed := None);
        var last, fate := SpawningLog(codec, t, launch.value, Some(i), input, io.report, io.cancel);
        SpawningKeepsNumbers(codec, t, launch.value, Some(i), input, io.report, io.cancel);
        FaredTells(t, Spawning(codec, t, launch.value, Some(i), input, io.report, io.cancel).0, last, fate,
                   launch.value, i, input, h);
        ProcessesConcat(more, last);
        more := more + last;
      }
    }
  }

  lemma SpawningKeepsNumbers(codec: Codec, s: SessionState, launch: PreparedLaunch, operation: Option<nat>,
                             input: StartInput, report: ExchangeIo, cancel: ExchangeIo)
    requires s.observer.Some?
    ensures var t := Spawning(codec, s, launch, operation, input, report, cancel).0.session;
            t.name == s.name && t.ordinal == s.ordinal && |t.operations| == |s.operations|
  {
    hide SpawnedStep, SpawnFailedStep, CancelStep;
  }

  lemma FaredTells(s: SessionState, c: Custody, more: seq<Entry>, fate: Fate, launch: PreparedLaunch, i: nat,
                   input: StartInput, h: seq<Happening>)
    requires launch.command.Some? && (input.answer.None? <==> fate.Unspawned?)
    requires Fared(s, c, more, fate, launch, Some(i), input) && Tells(s.name, s.operations, h) && i < |s.operations|
    ensures Tells(s.name, c.session.operations, h + SeenToRun(i, Processes(more)))
  {
    hide Tells, Processes;
    match fate
    case Unspawned => TellsEnded(s, h, i, None);
    case HandedOut =>
      TellsStarted(s, h, i);
      assert SeenToRun(i, Processes(more)) == [Started(i)];
    case CutShort =>
      TellsStarted(s, h, i);
      TellsEnded(s.Mark(Some(i)), h + [Started(i)], i, Some(input.status));
      assert h + [Started(i)] + [Ended(i, input.status)] == h + SeenToRun(i, Processes(more));
  }

  lemma NewEntriesAre(before: SessionState, after: SessionState, more: seq<Entry>)
    requires before.observer.Some? && after.observer.Some?
    requires after.observer.value.trace == before.observer.value.trace + more
    ensures NewEntries(before, after) == more
  {
  }

  lemma LaunchTells(codec: Codec, c: Custody, call: SessionCall, launched: Option<nat>, h: seq<Happening>)
    requires Enabled(c, call) && call.DoLaunch? && Tells(c.session.name, c.session.operations, h)
    ensures var s := SessionAct(codec, c, call).session;
            s.name == c.session.name && Tells(s.name, s.operations, h + Happenings(codec, c, call, launched))
  {
    hide Tells, BeginStep, StartStep, Processes, Quiet;
    var s := c.session;
    BeginRecords(codec, s, call.begin, call.routeIo);
    var (t, r) := BeginStep(codec, s, call.begin, call.routeIo);
    assert h + [] == h;
    if r.Some? {
      var (command, operation) := r.value;
      if s.observer.Some? {
        ObservedLaunchTells(codec, c, call, launched, h);
      } else {
        PlainStart(codec, t, command, operation, call.start, call.startIo);
        if operation.Some? {
          var n, begun := |s.operations|, h + [Began(t.ordinal, call.begin.kind)];
          TellsBegan(s.name, s.operations, h, t.ordinal, call.begin.kind);
          TellsStarted(t, begun, n);
          TellsEnded(t, begun, n, None);
          var e := if call.start.answer.Some? then Started(n) else NotSpawned(n);
          assert h + ([Began(t.ordinal, call.begin.kind)] + [e]) == begun + [e];
        }
      }
    }
  }

  lemma PlainStart(codec: Codec, s: SessionState, command: Command, operation: Option<nat>, input: StartInput,
                   io: StartIo)
    requires s.observer.None?
    ensures var t := StartStep(codec, s, command, operation, input, io).0.session;
            && t.name == s.name && t.ordinal == s.ordinal && |t.operations| == |s.operations|
            && t.operations == if input.answer.None? then s.Completed(operation, None).operations
                               else s.Mark(operation).operations
  {
  }

  lemma ObservedLaunchTells(codec: Codec, c: Custody, call: SessionCall, launched: Option<nat>, h: seq<Happening>)
    requires Enabled(c, call) && call.DoLaunch? && Tells(c.session.name, c.session.operations, h)
    requires c.session.observer.Some? && BeginStep(codec, c.session, call.begin, call.routeIo).1.Some?
    ensures var s := SessionAct(codec, c, call).session;
            s.name == c.session.name && Tells(s.name, s.operations, h + Happenings(codec, c, call, launched))
  {
    hide Tells, BeginStep, StartStep, Processes, Quiet;
    var s := c.session;
    BeginRecords(codec, s, call.begin, call.routeIo);
    var first := BeginLog(codec, s, call.begin, call.routeIo);
    var (t, r) := BeginStep(codec, s, call.begin, call.routeIo);
    var n, began := |s.operations|, Began(t.ordinal, call.begin.kind);
    TellsBegan(s.name, s.operations, h, t.ordinal, call.begin.kind);
    var more := StartLog(codec, t, r.value.0, n, call.start, call.startIo, h + [began]);
    var after := SessionAct(codec, c, call).session;
    assert after.observer.value.trace == s.observer.value.trace + (first + more);
    NewEntriesAre(s, after, first + more);
    QuietProcesses(first);
    ProcessesConcat(first, more);
    assert h + ([began] + SeenToRun(n, Processes(more))) == h + [began] + SeenToRun(n, Processes(more));
  }

  lemma ReferenceTells(codec: Codec, c: Custody, call: SessionCall)
    requires Enabled(c, call) && call.DoReference?
    ensures var s := SessionAct(codec, c, call).session;
            s.name == c.session.name && s.operations == c.session.operations
  {
    hide RouteStep, Overlay, PrepareStep, SpawnStep, SpawnFailedStep, SpawnedStep, CancelStep;
  }

  lemma CancelRecord(codec: Codec, c: Custody, status: ExitStatus, failures: nat, io: ExchangeIo)
    requires c.child.Some?
    ensures var d := CancelOwned(codec, c, status, failures, io);
            && d.child.Some? && d.session.name == c.session.name && Leave(d).session.name == c.session.name
            && Leave(d).session.operations == d.session.operations
            && d.session.operations == if c.child.value.waited then c.session.operations
                                       else c.session.Completed(c.child.value.operation, Some(status)).operations
  {
    hide CancelStep;
  }

  lemma WaitRecord(codec: Codec, c: Custody, status: ExitStatus, later: ExitStatus, io: ExchangeIo)
    requires c.child.Some?
    ensures var s := WaitStep(codec, c, Some(status), later, io).0.session;
            && s.name == c.session.name
            && s.operations == c.session.Completed(c.child.value.operation, Some(status)).operations
  {
    hide CompleteStep;
  }

  lemma EndTells(c: Custody, operation: Option<nat>, status: ExitStatus, h: seq<Happening>)
    requires Tells(c.session.name, c.session.operations, h)
    ensures Tells(c.session.name, c.session.Completed(operation, Some(status)).operations,
                  h + EndOfOperation(c, operation, status))
  {
    hide Tells;
    assert h + [] == h;
    if operation.Some? && operation.value < |c.session.operations| {
      TellsEnded(c.session, h, operation.value, Some(status));
    }
  }

  lemma ChildTells(codec: Codec, c: Custody, call: SessionCall, launched: Option<nat>, h: seq<Happening>)
    requires Enabled(c, call) && Tells(c.session.name, c.session.operations, h)
    requires c.child.Some? ==> c.child.value.operation == launched
    requires call.DoWait? || call.DoPipeFault? || call.DoDrop?
    ensures var s := SessionAct(codec, c, call).session;
            s.name == c.session.name && Tells(s.name, s.operations, h + Happenings(codec, c, call, launched))
  {
    hide Tells, CancelOwned, CompleteStep;
    var faulty := c.(child := Some(c.child.value.(fault := true)));
    assert h + [] == h;
    match call
    case DoWait(result, later, io) =>
      CancelRecord(codec, faulty, later, 0, io);
      EndTells(c, c.child.value.operation, if result.Some? then result.value else later, h);
      if result.Some? { WaitRecord(codec, c, result.value, later, io); }
    case DoPipeFault(later, io) =>
      CancelRecord(codec, faulty, later, 0, io);
      EndTells(c, c.child.value.operation, later, h);
    case DoDrop(later, io) =>
      CancelRecord(codec, c, later, 0, io);
      EndTells(c, c.child.value.operation, later, h);
  }

  /** Each call keeps the record in step with what it makes happen. */
  lemma ActTells(codec: Codec, c: Custody, call: SessionCall, launched: Option<nat>, h: seq<Happening>)
    requires Enabled(c, call) && Tells(c.session.name, c.session.operations, h)
    requires c.child.Some? ==> c.child.value.operation == launched
    ensures var s := SessionAct(codec, c, call).session;
            s.name == c.session.name && Tells(s.name, s.operations, h + Happenings(codec, c, call, launched))
  {
    hide Tells, BeginStep, StartStep, ReferenceStep, LaunchHappenings, WaitStep, PipeFaultStep, DropStep;
    assert h + [] == h;
    match call
    case DoLaunch(_, _, _, _) => LaunchTells(codec, c, call, launched, h);
    case DoReference(_, _, _, _) => ReferenceTells(codec, c, call);
    case DoBegin(begin, io) =>
      BeginRecords(codec, c.session, begin, io);
      var t := BeginStep(codec, c.session, begin, io).0;
      TellsBegan(c.session.name, c.session.operations, h, t.ordinal, begin.kind);
    case DoMark(operation) =>
      if operation.Some? && operation.value < |c.session.operations| { TellsStarted(c.session, h, operation.value); }
    case DoComplete(operation, status) =>
      if operation.Some? && operation.value < |c.session.operations| {
        TellsEnded(c.session, h, operation.value, status);
      }
    case _ => ChildTells(codec, c, call, launched, h);
  }

  /**
   Over every run the record has one operation for each that began, numbered, labelled and classified as it began,
   started exactly if it ran, and with exactly the code of the status it last ended with: none if it never ended, and
   success exactly for code zero.
   */
  lemma {:induction false} RecordTellsOutcomes(codec: Codec, observer: Option<ObserverState>, cargo: Bytes, name: Bytes,
                                               calls: seq<SessionCall>)
    requires SessionRun(codec, Unstarted(observer, cargo, name), calls).Some?
    ensures var start := Unstarted(observer, cargo, name);
            var s := SessionRun(codec, start, calls).value.session;
            s.name == name && Tells(name, s.operations, RunHappenings(codec, start, calls))
    decreases |calls|
  {
    hide SessionAct, Happenings, LiveOperation, Tells;
    var start := Unstarted(observer, cargo, name);
    if calls == [] {
      NothingTold(name);
    } else {
      var front, last := calls[..|calls| - 1], calls[|calls| - 1];
      RecordTellsOutcomes(codec, observer, cargo, name, front);
      ChildIsItsLaunch(codec, observer, cargo, name, front);
      ActTells(codec, SessionRun(codec, start, front).value, last, LiveOperation(codec, start, front),
               RunHappenings(codec, start, front));
    }
  }

  lemma NothingTold(name: Bytes)
    ensures Tells(name, [], [])
  {
  }

  /** Whatever `finish` publishes of a run carries the outcome of the operation it records. */
  lemma PublishedTellsOutcomes(codec: Codec, observer: Option<ObserverState>, cargo: Bytes, name: Bytes,
                               calls: seq<SessionCall>, sizes: Sizes, op: Operation)
    requires SessionRun(codec, Unstarted(observer, cargo, name), calls).Some?
    requires op in Draft(SessionRun(codec, Unstarted(observer, cargo, name), calls).value.session, sizes).operations
    ensures var h := RunHappenings(codec, Unstarted(observer, cargo, name), calls);
            exists i :: 0 <= i < |Beginnings(h)| && Beginnings(h)[i] == (op.ordinal, op.kind) && OutcomeOf(op, i, h)
  {
    hide SessionRun, RunHappenings, OutcomeOf, Beginnings, Admitted, Known;
    RecordTellsOutcomes(codec, observer, cargo, name, calls);
    var s := SessionRun(codec, Unstarted(observer, cargo, name), calls).value.session;
    AdmittedFrom(sizes, s.operations, op);
    var i :| 0 <= i < |s.operations| && s.operations[i] == op;
    var h := RunHappenings(codec, Unstarted(observer, cargo, name), calls);
    assert Beginnings(h)[i] == (op.ordinal, op.kind);
  }
}
