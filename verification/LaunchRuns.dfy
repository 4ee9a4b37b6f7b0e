/**
 Runs of the observer: any sequence of calls with any arguments, peer replies and system
 outcomes. A `PreparedLaunch` can only come from `prepare` and its command only be spawned once;
 every other argument is unconstrained.
 */
module LaunchRuns {
  import opened Bytes
  import opened Measure
  import opened Transport
  import opened LaunchIntent
  import opened LaunchObserver
  import opened LaunchHistory

  /** An observer and every prepared launch it has handed out. */
  datatype World = World(observer: ObserverState, issued: seq<PreparedLaunch>)

  datatype Call =
    | CallRoute(command: Command, binding: Binding, inherit: bool, amb: Ambient, io: ExchangeIo, farewell: ExchangeIo)
    | CallPrepare(command: Command, routed: RoutedIntent, amb: Ambient, sealed: bool, io: ExchangeIo)
    | CallSpawn(which: nat, answer: Option<u32>)
    | CallSpawned(launch: PreparedLaunch, pid: u32, io: ExchangeIo)
    | CallSpawnFailed(launch: PreparedLaunch, io: ExchangeIo)
    | CallComplete(launch: PreparedLaunch, status: ExitStatus, io: ExchangeIo)
    | CallCancel(launch: PreparedLaunch, pid: u32, status: ExitStatus, io: ExchangeIo)

  ghost function Act(codec: Codec, w: World, call: Call): World {
    var s := w.observer;
    match call
    case CallRoute(command, binding, inherit, amb, io, farewell) =>
      w.(observer := RouteStep(codec, s, command, binding, inherit, amb, io, farewell).0)
    case CallPrepare(command, routed, amb, sealed, io) =>
      var (t, launch) := PrepareStep(codec, s, command, routed, amb, sealed, io);
      World(t, if launch.Some? then w.issued + [launch.value] else w.issued)
    case CallSpawn(which, answer) =>
      if which >= |w.issued| then w
      else
        var (t, spent, _) := SpawnStep(s, w.issued[which], answer);
        World(t, w.issued[which := spent])
    case CallSpawned(launch, pid, io) => w.(observer := SpawnedStep(codec, s, launch, pid, io).0)
    case CallSpawnFailed(launch, io) => w.(observer := SpawnFailedStep(codec, s, launch, io).0)
    case CallComplete(launch, status, io) => w.(observer := CompleteStep(codec, s, launch, status, io).0)
    case CallCancel(launch, pid, status, io) => w.(observer := CancelStep(codec, s, launch, pid, status, io).0)
  }

  ghost function Run(codec: Codec, start: World, calls: seq<Call>): World {
    if calls == [] then start
    else Act(codec, Run(codec, start, calls[..|calls| - 1]), calls[|calls| - 1])
  }

  function Start(root: Bytes, session: nat): World {
    World(FreshObserver(root, session), [])
  }

  lemma ActKeeps(codec: Codec, w: World, call: Call)
    requires Sound(codec, w.observer)
    ensures Sound(codec, Act(codec, w, call).observer)
    ensures w.observer.failed ==> Act(codec, w, call).observer.failed
                                  && Routes(Act(codec, w, call).observer.trace) == Routes(w.observer.trace)
  {
    hide Sound, Routes;
    var s := w.observer;
    match call
    case CallRoute(command, binding, inherit, amb, io, farewell) =>
      RouteKeeps(codec, s, command, binding, inherit, amb, io, farewell);
    case CallPrepare(command, routed, amb, sealed, io) => PrepareKeeps(codec, s, command, routed, amb, sealed, io);
    case CallSpawn(which, answer) =>
      if which < |w.issued| && w.issued[which].command.Some? {
        var launch := w.issued[which];
        AppendSilent(codec, s,
                     if answer.Some? then Spawn(launch.command.value, launch.binding, answer.value)
                     else SpawnError(launch.binding));
      }
    case CallSpawned(launch, pid, io) => SpawnedKeeps(codec, s, launch, pid, io);
    case CallSpawnFailed(launch, io) => SpawnFailedKeeps(codec, s, launch, io);
    case CallComplete(launch, status, io) => CompleteKeeps(codec, s, launch, status, io);
    case CallCancel(launch, pid, status, io) => CancelKeeps(codec, s, launch, pid, status, io);
  }

  lemma StartSound(codec: Codec, root: Bytes, session: nat)
    ensures Sound(codec, FreshObserver(root, session))
  {
    var s := FreshObserver(root, session);
    assert EncodeAll(FramesSent(codec, [])) == [] && s.channel.wire[0..] == [];
    assert UpTo(0) == [];
  }

  lemma {:induction false} RunSound(codec: Codec, root: Bytes, session: nat, calls: seq<Call>)
    ensures Sound(codec, Run(codec, Start(root, session), calls).observer)
    decreases |calls|
  {
    if calls == [] {
      StartSound(codec, root, session);
    } else {
      RunSound(codec, root, session, calls[..|calls| - 1]);
      ActKeeps(codec, Run(codec, Start(root, session), calls[..|calls| - 1]), calls[|calls| - 1]);
    }
  }

  // ----- what that means for the peer -----

  predicate Lifecycle(ks: seq<Kind>) {
    ks <= [KRoute, KIntent, KSpawnFailed]
    || ks <= [KRoute, KIntent, KSpawned, KCompleted] || ks <= [KRoute, KIntent, KSpawned, KCancelled]
  }

  /**
   In every run, routes carry operations 1, 2, ..., accepted nonces never repeat, and the events
   attempted for each operation are a prefix of route, intent, then a failed spawn or a spawn
   with one terminal event.
   */
  lemma EventsInOrder(codec: Codec, root: Bytes, session: nat, calls: seq<Call>, operation: nat)
    requires operation >= 1
    ensures var t := Run(codec, Start(root, session), calls).observer.trace;
            && Routes(t) == UpTo(|Routes(t)|) && |Routes(t)| <= MAX_OPERATIONS
            && Distinct(Nonces(t)) && Lifecycle(Kinds(t, operation))
  {
    RunSound(codec, root, session, calls);
    OrderGives(Run(codec, Start(root, session), calls).observer, operation);
  }

  lemma OrderGives(s: ObserverState, operation: nat)
    requires OrderOk(s) && operation >= 1
    ensures Routes(s.trace) == UpTo(|Routes(s.trace)|) && |Routes(s.trace)| <= MAX_OPERATIONS
    ensures Lifecycle(Kinds(s.trace, operation))
  {
    UpToLength(s.operation);
    UpToLength(s.operation + 1);
    assert KindsOk(s, operation, Kinds(s.trace, operation));
  }

  lemma {:induction false} UpToLength(n: nat)
    ensures |UpTo(n)| == n
  {
    if n > 0 { UpToLength(n - 1); }
  }

  /**
   The encoder takes every lifecycle event of a valid binding, and the intent event of any final intent it takes: both
   are small beside the bound on an encoded event.
   */
  ghost predicate Encodes(codec: Codec) {
    forall e: Event :: LifecycleEvent(e) && Grounded(codec, e) ==> codec.event(e).Some?
  }

  /** Every lifecycle event a run attempts is about a valid binding, so it encodes. */
  lemma RunEncodes(codec: Codec, root: Bytes, session: nat, calls: seq<Call>)
    requires Encodes(codec)
    ensures LifecycleEncoded(codec, Run(codec, Start(root, session), calls).observer.trace)
  {
    hide Run, OrderOk, WireOk, FramesOk, SentOk, Grounded;
    RunSound(codec, root, session, calls);
  }

  /** The peer is told each operation's story in that order too, up to the point where the channel dies. */
  lemma PeerSeesLifecycle(codec: Codec, root: Bytes, session: nat, calls: seq<Call>, operation: nat)
    requires operation >= 1 && Encodes(codec)
    ensures Lifecycle(SentKinds(Run(codec, Start(root, session), calls).observer.trace, operation))
  {
    RunSound(codec, root, session, calls);
    RunEncodes(codec, root, session, calls);
    EventsInOrder(codec, root, session, calls, operation);
    var s := Run(codec, Start(root, session), calls).observer;
    assert SentUpTo(s, operation, SentKinds(s.trace, operation), Kinds(s.trace, operation));
  }

  // ----- farewells -----

  /** How often a history announces that a launch is unavailable. */
  function Farewells(t: seq<Entry>): nat {
    if t == [] then 0 else
      Farewells(Front(t)) + if Last(t).Exchange? && Last(t).event.Unavailable? then 1 else 0
  }

  lemma FarewellsAppend(codec: Codec, t: seq<Entry>, e: Entry)
    ensures Farewells(t + [e]) == Farewells(t) + if e.Exchange? && e.event.Unavailable? then 1 else 0
  {
    AppendView(codec, t, e);
  }

  /** How many routes of a run were refused, for whatever reason. */
  ghost function RefusedRoutes(codec: Codec, start: World, calls: seq<Call>): nat {
    if calls == [] then 0 else
      var front, last := calls[..|calls| - 1], calls[|calls| - 1];
      RefusedRoutes(codec, start, front)
      + if last.CallRoute? && RouteRefused(codec, Run(codec, start, front).observer, last) then 1 else 0
  }

  ghost predicate RouteRefused(codec: Codec, s: ObserverState, call: Call)
    requires call.CallRoute?
  {
    RouteStep(codec, s, call.command, call.binding, call.inherit, call.amb, call.io, call.farewell).1.None?
  }

  lemma ExchangeFarewells(codec: Codec, s: ObserverState, event: Event, carrier: Option<Bytes>, io: ExchangeIo)
    ensures Farewells(ExchangeStep(codec, s, event, carrier, io).0.trace)
         == Farewells(s.trace) + if event.Unavailable? then 1 else 0
  {
    hide Farewells, Converse;
    var t := ExchangeStep(codec, s, event, carrier, io).0;
    var e := t.trace[|s.trace|];
    assert t.trace == s.trace + [e];
    FarewellsAppend(codec, s.trace, e);
  }

  lemma RequestFarewells(codec: Codec, s: ObserverState, frozen: Command, intent: CommandIntent, amb: Ambient,
                         io: ExchangeIo)
    requires codec.intent(intent).Some?
    ensures Farewells(Request(codec, s, frozen, intent, amb, io).0.trace) == Farewells(s.trace)
  {
    hide Farewells, Settle, Refused, Taken, Converse, RouteEvent;
    var event := RouteEvent(codec, intent);
    FarewellsAppend(codec, s.trace, Exchange(event, None, Unsent, Rejected));
    if codec.event(event).Some? {
      var (channel, delivery, reply) := Converse(s.channel, Frame(codec.event(event).value, false), io);
      SettleEffect(codec, s.(channel := channel), intent, delivery, frozen, amb, reply);
      var t := Settle(codec, s.(channel := channel), intent, delivery, frozen, amb, reply).0;
      FarewellsAppend(codec, s.trace, Last(t.trace));
    }
  }

  lemma RouteFarewells(codec: Codec, s: ObserverState, call: Call)
    requires call.CallRoute?
    ensures Farewells(Act(codec, World(s, []), call).observer.trace)
         == Farewells(s.trace) + if RouteRefused(codec, s, call) then 1 else 0
  {
    hide Farewells, Request, ExchangeStep, Present, Routable;
    var request := Present(codec, call.command, call.binding, call.inherit, call.amb);
    if request.Some? { RequestFarewells(codec, s, request.value.0, request.value.1, call.amb, call.io); }
    var t := RouteInner(codec, s, call.command, call.binding, call.inherit, call.amb, call.io).0;
    ExchangeFarewells(codec, t.Fail(), Unavailable(call.binding), None, call.farewell);
  }

  lemma PrepareFarewells(codec: Codec, s: ObserverState, command: Command, routed: RoutedIntent, amb: Ambient,
                         sealed: bool, io: ExchangeIo)
    ensures Farewells(PrepareStep(codec, s, command, routed, amb, sealed, io).0.trace) == Farewells(s.trace)
  {
    hide Farewells, ExchangeStep, Freeze, Describe;
    if codec.finalIntent(routed.final).Some? {
      var body := codec.finalIntent(routed.final).value;
      ExchangeFarewells(codec, s, IntentEvent(codec, routed, body), Some(body), io);
    }
  }

  lemma ReportFarewells(codec: Codec, s: ObserverState, event: Event, io: ExchangeIo, binding: Binding)
    requires !event.Unavailable?
    ensures Farewells(NotifyStep(codec, s, event, io).0.trace) == Farewells(s.trace)
    ensures Farewells(NotifyStep(codec, s, event, io).0.trace + [Release(binding)]) == Farewells(s.trace)
    ensures Farewells(s.trace + [Release(binding)]) == Farewells(s.trace)
  {
    hide Farewells, ExchangeStep;
    ExchangeFarewells(codec, s, event, None, io);
    FarewellsAppend(codec, s.trace, Release(binding));
    FarewellsAppend(codec, NotifyStep(codec, s, event, io).0.trace, Release(binding));
  }

  lemma ActFarewells(codec: Codec, w: World, call: Call)
    ensures Farewells(Act(codec, w, call).observer.trace)
         == Farewells(w.observer.trace) + if call.CallRoute? && RouteRefused(codec, w.observer, call) then 1 else 0
  {
    hide Farewells, RouteStep, PrepareStep, NotifyStep;
    var s := w.observer;
    match call
    case CallRoute(_, _, _, _, _, _) => RouteFarewells(codec, s, call);
    case CallPrepare(command, routed, amb, sealed, io) => PrepareFarewells(codec, s, command, routed, amb, sealed, io);
    case CallSpawn(which, answer) =>
      if which < |w.issued| && w.issued[which].command.Some? {
        var launch := w.issued[which];
        FarewellsAppend(codec, s.trace, if answer.Some? then Spawn(launch.command.value, launch.binding, answer.value)
                                        else SpawnError(launch.binding));
      }
    case CallSpawned(launch, pid, io) =>
      ReportFarewells(codec, s.(pending := Some(Pending(launch.binding, launch.finalDigest, AwaitingExit))),
                      Spawned(launch.binding, pid), io, launch.binding);
    case CallSpawnFailed(launch, io) =>
      ReportFarewells(codec, s.(pending := None), SpawnFailed(launch.binding), io, launch.binding);
    case CallComplete(launch, status, io) =>
      ReportFarewells(codec, s, Completed(launch.binding, status), io, launch.binding);
    case CallCancel(launch, pid, status, io) =>
      ReportFarewells(codec, s, Cancelled(launch.binding, pid, status), io, launch.binding);
  }

  /** A launch is announced unavailable once for every refused route, and at no other time. */
  lemma {:induction false} FarewellsAreRefusedRoutes(codec: Codec, root: Bytes, session: nat, calls: seq<Call>)
    ensures Farewells(Run(codec, Start(root, session), calls).observer.trace)
         == RefusedRoutes(codec, Start(root, session), calls)
    decreases |calls|
  {
    hide Act, RouteRefused;
    if calls != [] {
      var front, last := calls[..|calls| - 1], calls[|calls| - 1];
      FarewellsAreRefusedRoutes(codec, root, session, front);
      ActFarewells(codec, Run(codec, Start(root, session), front), last);
    }
  }

  /** What the peer can parse from the wire is exactly the frames of the events recorded as sent. */
  lemma PeerReadsHistory(codec: Codec, root: Bytes, session: nat, calls: seq<Call>)
    ensures var s := Run(codec, Start(root, session), calls).observer;
            && DecodeAll(s.channel.wire).0 == FramesSent(codec, s.trace)
            && (!s.channel.failed ==> DecodeAll(s.channel.wire).1 == [])
  {
    RunSound(codec, root, session, calls);
    var s := Run(codec, Start(root, session), calls).observer;
    var fs := FramesSent(codec, s.trace);
    StreamRoundTrip(fs, s.channel.wire[|EncodeAll(fs)|..]);
    assert s.channel.wire == EncodeAll(fs) + s.channel.wire[|EncodeAll(fs)|..];
  }

  /** Once failed, no continuation of the run sends another route or recovers. */
  lemma {:induction false} FailureLatches(codec: Codec, root: Bytes, session: nat, before: seq<Call>, after: seq<Call>)
    requires Run(codec, Start(root, session), before).observer.failed
    ensures var s, t := Run(codec, Start(root, session), before).observer,
                        Run(codec, Start(root, session), before + after).observer;
            t.failed && Routes(t.trace) == Routes(s.trace)
    decreases |after|
  {
    hide Sound, Act, Routes, Start;
    if after == [] {
      assert before + after == before;
    } else {
      var front := after[..|after| - 1];
      FailureLatches(codec, root, session, before, front);
      assert (before + after)[..|before + after| - 1] == before + front;
      RunSound(codec, root, session, before + front);
      ActKeeps(codec, Run(codec, Start(root, session), before + front), after[|after| - 1]);
    }
  }

  /**
   The frame budget is exact: an unfailed observer has spent eight frames on every completed operation
   and six on every failed spawn, so the cap never refuses an operation the operation bound admits.
   */
  lemma FrameBudgetExact(codec: Codec, root: Bytes, session: nat, calls: seq<Call>)
    requires !Run(codec, Start(root, session), calls).observer.failed
    ensures var s := Run(codec, Start(root, session), calls).observer;
            && s.channel.frames
                == 8 * Acked(s.trace, KCompleted) + 6 * Acked(s.trace, KSpawnFailed) + PhaseFrames(s.pending)
            && (s.pending.Some? || s.operation < MAX_OPERATIONS ==> s.channel.frames + 2 <= MAX_FRAMES)
            && (Acked(s.trace, KCompleted) == MAX_OPERATIONS ==> s.channel.frames == MAX_FRAMES)
            && s.channel.frames <= MAX_FRAMES && s.channel.bytes <= MAX_SESSION_BYTES
  {
    RunSound(codec, root, session, calls);
  }

  // ----- no process without its acknowledged intent -----

  const NOWHERE := Ambient(map[], None)

  /** `e` is the acknowledged exchange of the intent that describes exactly `command`, its carrier attached. */
  ghost predicate Authorizes(codec: Codec, e: Entry, command: Command, binding: Binding) {
    && e.Exchange? && e.event.Intent? && e.event.binding == binding && e.delivery.Sent? && e.carrier.Some?
    && e.event.carrierDigest == codec.sha256(e.carrier.value)
    && codec.event(e.event).Some?
    && e.outcome == Accepted(Acknowledged(binding, codec.sha256(codec.event(e.event).value)))
    && IsFrozen(command) && Describe(codec, command, binding, NOWHERE).Some?
    && codec.finalIntent(FinalIntent(Describe(codec, command, binding, NOWHERE).value, e.event.nonce,
                                     e.event.responseDigest)) == e.carrier
  }

  predicate RealCall(call: Call) {
    call.CallPrepare? ==> call.amb.Real()
  }

  function SpawnsOf(t: seq<Entry>, operation: nat): nat {
    if t == [] then 0
    else SpawnsOf(Front(t), operation) + if Last(t).Spawn? && Last(t).binding.operation == operation then 1 else 0
  }

  ghost predicate Backed(codec: Codec, t: seq<Entry>, command: Command, binding: Binding) {
    exists i :: 0 <= i < |t| && Authorizes(codec, t[i], command, binding)
  }

  /** Launches are of distinct operations, and one that can still spawn is backed by its acknowledged intent. */
  ghost predicate LaunchesOk(codec: Codec, t: seq<Entry>, issued: seq<PreparedLaunch>) {
    && (forall k :: 0 <= k < |issued| ==>
          issued[k].binding.operation >= 1 && KIntent in Kinds(t, issued[k].binding.operation))
    && (forall k :: 0 <= k < |issued| && issued[k].command.Some? ==>
          Backed(codec, t, issued[k].command.value, issued[k].binding) && SpawnsOf(t, issued[k].binding.operation) == 0)
    && (forall j, k :: 0 <= j < k < |issued| ==> issued[j].binding.operation != issued[k].binding.operation)
  }

  predicate Issued(issued: seq<PreparedLaunch>, operation: nat) {
    exists k :: 0 <= k < |issued| && issued[k].binding.operation == operation
  }

  /** Every spawn so far was authorized beforehand, and no operation has spawned twice. */
  ghost predicate SpawnsOk(codec: Codec, t: seq<Entry>, issued: seq<PreparedLaunch>) {
    && (forall j :: 0 <= j < |t| && t[j].Spawn? ==> Backed(codec, t[..j], t[j].command, t[j].binding))
    && (forall operation: nat :: SpawnsOf(t, operation) <= if Issued(issued, operation) then 1 else 0)
  }

  lemma BackedGrows(codec: Codec, t: seq<Entry>, e: Entry, command: Command, binding: Binding)
    requires Backed(codec, t, command, binding)
    ensures Backed(codec, t + [e], command, binding)
  {
    var i :| 0 <= i < |t| && Authorizes(codec, t[i], command, binding);
    assert (t + [e])[i] == t[i];
  }

  lemma PrefixOfGrown(t: seq<Entry>, e: Entry)
    ensures forall j :: 0 <= j < |t| ==> (t + [e])[j] == t[j] && (t + [e])[..j] == t[..j]
    ensures (t + [e])[|t|] == e && (t + [e])[..|t|] == t
  {
  }

  lemma QuietEntry(codec: Codec, t: seq<Entry>, issued: seq<PreparedLaunch>, e: Entry)
    requires LaunchesOk(codec, t, issued) && SpawnsOk(codec, t, issued) && !e.Spawn?
    ensures LaunchesOk(codec, t + [e], issued) && SpawnsOk(codec, t + [e], issued)
  {
    PrefixOfGrown(t, e);
    AppendView(codec, t, e);
    forall k | 0 <= k < |issued|
      ensures KIntent in Kinds(t + [e], issued[k].binding.operation)
      ensures issued[k].command.Some? ==> Backed(codec, t + [e], issued[k].command.value, issued[k].binding)
    {
      KindsAppend(codec, t, e, issued[k].binding.operation);
      if issued[k].command.Some? { BackedGrows(codec, t, e, issued[k].command.value, issued[k].binding); }
    }
  }

  lemma ExchangeQuiet(codec: Codec, s: ObserverState, event: Event, carrier: Option<Bytes>, io: ExchangeIo,
                      issued: seq<PreparedLaunch>)
    requires LaunchesOk(codec, s.trace, issued) && SpawnsOk(codec, s.trace, issued)
    ensures var t := ExchangeStep(codec, s, event, carrier, io).0;
            LaunchesOk(codec, t.trace, issued) && SpawnsOk(codec, t.trace, issued)
  {
    var t := ExchangeStep(codec, s, event, carrier, io).0;
    QuietEntry(codec, s.trace, issued, t.trace[|s.trace|]);
    assert t.trace == s.trace + [t.trace[|s.trace|]];
  }

  lemma NotifyQuiet(codec: Codec, s: ObserverState, event: Event, io: ExchangeIo, binding: Binding,
                    issued: seq<PreparedLaunch>)
    requires LaunchesOk(codec, s.trace, issued) && SpawnsOk(codec, s.trace, issued)
    ensures var t := NotifyStep(codec, s, event, io).0;
            && LaunchesOk(codec, t.trace, issued) && SpawnsOk(codec, t.trace, issued)
            && LaunchesOk(codec, t.trace + [Release(binding)], issued)
            && SpawnsOk(codec, t.trace + [Release(binding)], issued)
  {
    ExchangeQuiet(codec, s, event, None, io, issued);
    QuietEntry(codec, NotifyStep(codec, s, event, io).0.trace, issued, Release(binding));
  }

  lemma RouteQuiet(codec: Codec, s: ObserverState, command: Command, binding: Binding, inherit: bool, amb: Ambient,
                   io: ExchangeIo, farewell: ExchangeIo, issued: seq<PreparedLaunch>)
    requires LaunchesOk(codec, s.trace, issued) && SpawnsOk(codec, s.trace, issued)
    ensures var t := RouteStep(codec, s, command, binding, inherit, amb, io, farewell).0;
            LaunchesOk(codec, t.trace, issued) && SpawnsOk(codec, t.trace, issued)
  {
    hide LaunchesOk, SpawnsOk, Present, Request, ExchangeStep;
    var request := Present(codec, command, binding, inherit, amb);
    if Routable(s, binding) && request.Some? {
      RequestQuiet(codec, s, request.value.0, request.value.1, amb, io, issued);
    }
    var (t, r) := RouteInner(codec, s, command, binding, inherit, amb, io);
    if r.None? { ExchangeQuiet(codec, t.Fail(), Unavailable(binding), None, farewell, issued); }
  }

  lemma RequestQuiet(codec: Codec, s: ObserverState, frozen: Command, intent: CommandIntent, amb: Ambient,
                     io: ExchangeIo, issued: seq<PreparedLaunch>)
    requires codec.intent(intent).Some? && LaunchesOk(codec, s.trace, issued) && SpawnsOk(codec, s.trace, issued)
    ensures var t := Request(codec, s, frozen, intent, amb, io).0;
            LaunchesOk(codec, t.trace, issued) && SpawnsOk(codec, t.trace, issued)
  {
    var event := RouteEvent(codec, intent);
    if codec.event(event).None? {
      QuietEntry(codec, s.trace, issued, Exchange(event, None, Unsent, Rejected));
    } else {
      var (channel, delivery, reply) := Converse(s.channel, Frame(codec.event(event).value, false), io);
      SettleEffect(codec, s.(channel := channel), intent, delivery, frozen, amb, reply);
      QuietEntry(codec, s.trace, issued,
                 Last(Settle(codec, s.(channel := channel), intent, delivery, frozen, amb, reply).0.trace));
    }
  }

  /** A prepared launch is authorized by the exchange that prepared it. */
  lemma PrepareAuthorizes(codec: Codec, s: ObserverState, command: Command, routed: RoutedIntent, amb: Ambient,
                          sealed: bool, io: ExchangeIo)
    requires PrepareStep(codec, s, command, routed, amb, sealed, io).1.Some? && amb.Real()
    requires s.channel.Within() && WireOk(codec, s)
    ensures var (t, launch) := PrepareStep(codec, s, command, routed, amb, sealed, io);
            && |t.trace| == |s.trace| + 1 && t.trace == s.trace + [Last(t.trace)]
            && launch.value.command.Some? && launch.value.binding == routed.final.intent.binding
            && Authorizes(codec, Last(t.trace), launch.value.command.value, launch.value.binding)
            && !s.failed && MatchesPending(codec, s, routed)
            && Freeze(command, false, amb) == launch.value.command
            && launch.value.carrier == codec.finalIntent(routed.final).value
            && launch.value.finalDigest == codec.sha256(launch.value.carrier)
            && launch.value.session == s.session
            && Last(t.trace).event == IntentEvent(codec, routed, launch.value.carrier)
            && t.pending == Some(s.pending.value.(phase := AwaitingSpawn)) && !t.failed
  {
    var frozen := Freeze(command, false, amb).value;
    FreezeYieldsFrozen(command, false, amb);
    DescribeIgnoresAmbient(codec, frozen, routed.final.intent.binding, amb, NOWHERE);
    var body := codec.finalIntent(routed.final).value;
    ExchangeEffect(codec, s, IntentEvent(codec, routed, body), Some(body), io);
  }

  lemma PrepareQuiet(codec: Codec, s: ObserverState, command: Command, routed: RoutedIntent, amb: Ambient, sealed: bool,
                     io: ExchangeIo, issued: seq<PreparedLaunch>)
    requires Sound(codec, s) && amb.Real() && LaunchesOk(codec, s.trace, issued) && SpawnsOk(codec, s.trace, issued)
    ensures var (t, launch) := PrepareStep(codec, s, command, routed, amb, sealed, io);
            var more := if launch.Some? then issued + [launch.value] else issued;
            LaunchesOk(codec, t.trace, more) && SpawnsOk(codec, t.trace, more)
  {
    var (t, launch) := PrepareStep(codec, s, command, routed, amb, sealed, io);
    if launch.Some? {
      PrepareAuthorizes(codec, s, command, routed, amb, sealed, io);
      PrepareIssues(codec, s, t, launch.value, issued);
    } else if Freeze(command, false, amb).Some? && MatchesPending(codec, s, routed) {
      var body := codec.finalIntent(routed.final).value;
      ExchangeQuiet(codec, s, IntentEvent(codec, routed, body), Some(body), io, issued);
    }
  }

  lemma PrepareIssues(codec: Codec, s: ObserverState, t: ObserverState, launch: PreparedLaunch,
                      issued: seq<PreparedLaunch>)
    requires Sound(codec, s) && !s.failed && s.pending.Some? && s.pending.value.phase.AwaitingIntent?
    requires s.pending.value.binding == launch.binding && launch.command.Some?
    requires t.trace != [] && t.trace == s.trace + [Last(t.trace)]
    requires Authorizes(codec, Last(t.trace), launch.command.value, launch.binding)
    requires LaunchesOk(codec, s.trace, issued) && SpawnsOk(codec, s.trace, issued)
    ensures LaunchesOk(codec, t.trace, issued + [launch]) && SpawnsOk(codec, t.trace, issued + [launch])
  {
    var e, operation := Last(t.trace), launch.binding.operation;
    assert KindsOk(s, operation, Kinds(s.trace, operation));
    assert !Issued(issued, operation);
    QuietEntry(codec, s.trace, issued, e);
    KindsAppend(codec, s.trace, e, operation);
    AppendView(codec, s.trace, e);
    assert Authorizes(codec, t.trace[|s.trace|], launch.command.value, launch.binding);
    IssueOne(codec, t.trace, issued, launch);
  }

  lemma IssueOne(codec: Codec, t: seq<Entry>, issued: seq<PreparedLaunch>, launch: PreparedLaunch)
    requires LaunchesOk(codec, t, issued) && SpawnsOk(codec, t, issued) && !Issued(issued, launch.binding.operation)
    requires launch.binding.operation >= 1 && KIntent in Kinds(t, launch.binding.operation)
    requires launch.command.Some? && Backed(codec, t, launch.command.value, launch.binding)
    ensures LaunchesOk(codec, t, issued + [launch]) && SpawnsOk(codec, t, issued + [launch])
  {
    var more := issued + [launch];
    forall o: nat ensures SpawnsOf(t, o) <= if Issued(more, o) then 1 else 0 {
      if Issued(issued, o) {
        var k :| 0 <= k < |issued| && issued[k].binding.operation == o;
        assert more[k].binding.operation == o;
      }
    }
  }

  lemma SpawnAuthorized(codec: Codec, t: seq<Entry>, issued: seq<PreparedLaunch>, which: nat, pid: u32)
    requires LaunchesOk(codec, t, issued) && SpawnsOk(codec, t, issued) && which < |issued|
    requires issued[which].command.Some?
    ensures var launch := issued[which];
            var u, more :=
              t + [Spawn(launch.command.value, launch.binding, pid)], issued[which := launch.(command := None)];
            LaunchesOk(codec, u, more) && SpawnsOk(codec, u, more)
  {
    hide Backed, Authorizes, Kinds;
    var launch := issued[which];
    var e := Spawn(launch.command.value, launch.binding, pid);
    var u, more := t + [e], issued[which := launch.(command := None)];
    PrefixOfGrown(t, e);
    AppendView(codec, t, e);
    forall k | 0 <= k < |issued|
      ensures KIntent in Kinds(u, issued[k].binding.operation)
      ensures issued[k].command.Some? ==> Backed(codec, u, issued[k].command.value, issued[k].binding)
    {
      KindsAppend(codec, t, e, issued[k].binding.operation);
      if issued[k].command.Some? { BackedGrows(codec, t, e, issued[k].command.value, issued[k].binding); }
    }
    assert more[which].binding == launch.binding;
    forall o: nat ensures SpawnsOf(u, o) <= if Issued(more, o) then 1 else 0 {
      if Issued(issued, o) {
        var k :| 0 <= k < |issued| && issued[k].binding.operation == o;
        assert more[k].binding.operation == o;
      }
    }
  }

  lemma ActAuthorizes(codec: Codec, w: World, call: Call)
    requires Sound(codec, w.observer) && RealCall(call)
    requires LaunchesOk(codec, w.observer.trace, w.issued) && SpawnsOk(codec, w.observer.trace, w.issued)
    ensures var v := Act(codec, w, call);
            LaunchesOk(codec, v.observer.trace, v.issued) && SpawnsOk(codec, v.observer.trace, v.issued)
  {
    hide LaunchesOk, SpawnsOk, Sound, RouteStep, PrepareStep, SpawnFailedStep, CompleteStep, CancelStep, NotifyStep;
    var s, issued := w.observer, w.issued;
    match call
    case CallRoute(command, binding, inherit, amb, io, farewell) =>
      RouteQuiet(codec, s, command, binding, inherit, amb, io, farewell, issued);
    case CallPrepare(command, routed, amb, sealed, io) =>
      PrepareQuiet(codec, s, command, routed, amb, sealed, io, issued);
    case CallSpawn(which, answer) =>
      if which < |issued| && issued[which].command.Some? {
        if answer.Some? {
          SpawnAuthorized(codec, s.trace, issued, which, answer.value);
        } else {
          SpawnErrorQuiet(codec, s.trace, issued, which);
        }
      } else if which < |issued| {
        assert issued[which := issued[which]] == issued;
      }
    case CallSpawned(launch, pid, io) =>
      NotifyQuiet(codec, s.(pending := Some(Pending(launch.binding, launch.finalDigest, AwaitingExit))),
                  Spawned(launch.binding, pid), io, launch.binding, issued);
    case CallSpawnFailed(launch, io) => SpawnFailedQuiet(codec, s, launch, io, issued);
    case CallComplete(launch, status, io) => CompleteQuiet(codec, s, launch, status, io, issued);
    case CallCancel(launch, pid, status, io) => CancelQuiet(codec, s, launch, pid, status, io, issued);
  }

  lemma SpawnFailedQuiet(codec: Codec, s: ObserverState, launch: PreparedLaunch, io: ExchangeIo,
                         issued: seq<PreparedLaunch>)
    requires LaunchesOk(codec, s.trace, issued) && SpawnsOk(codec, s.trace, issued)
    ensures var t := SpawnFailedStep(codec, s, launch, io).0.trace;
            LaunchesOk(codec, t, issued) && SpawnsOk(codec, t, issued)
  {
    QuietEntry(codec, s.trace, issued, Release(launch.binding));
    NotifyQuiet(codec, s.(pending := None), SpawnFailed(launch.binding), io, launch.binding, issued);
  }

  lemma CompleteQuiet(codec: Codec, s: ObserverState, launch: PreparedLaunch, status: ExitStatus, io: ExchangeIo,
                      issued: seq<PreparedLaunch>)
    requires LaunchesOk(codec, s.trace, issued) && SpawnsOk(codec, s.trace, issued)
    ensures var t := CompleteStep(codec, s, launch, status, io).0.trace;
            LaunchesOk(codec, t, issued) && SpawnsOk(codec, t, issued)
  {
    QuietEntry(codec, s.trace, issued, Release(launch.binding));
    NotifyQuiet(codec, s, Completed(launch.binding, status), io, launch.binding, issued);
  }

  lemma CancelQuiet(codec: Codec, s: ObserverState, launch: PreparedLaunch, pid: u32, status: ExitStatus,
                    io: ExchangeIo, issued: seq<PreparedLaunch>)
    requires LaunchesOk(codec, s.trace, issued) && SpawnsOk(codec, s.trace, issued)
    ensures var t := CancelStep(codec, s, launch, pid, status, io).0.trace;
            LaunchesOk(codec, t, issued) && SpawnsOk(codec, t, issued)
  {
    QuietEntry(codec, s.trace, issued, Release(launch.binding));
    NotifyQuiet(codec, s, Cancelled(launch.binding, pid, status), io, launch.binding, issued);
  }

  lemma SpawnErrorQuiet(codec: Codec, t: seq<Entry>, issued: seq<PreparedLaunch>, which: nat)
    requires LaunchesOk(codec, t, issued) && SpawnsOk(codec, t, issued) && which < |issued|
    ensures var u, more := t + [SpawnError(issued[which].binding)], issued[which := issued[which].(command := None)];
            LaunchesOk(codec, u, more) && SpawnsOk(codec, u, more)
  {
    var e := SpawnError(issued[which].binding);
    QuietEntry(codec, t, issued, e);
    var more := issued[which := issued[which].(command := None)];
    forall o: nat ensures SpawnsOf(t + [e], o) <= if Issued(more, o) then 1 else 0 {
      if Issued(issued, o) {
        var k :| 0 <= k < |issued| && issued[k].binding.operation == o;
        assert more[k].binding.operation == o;
      }
    }
  }

  lemma {:induction false} RunAuthorizes(codec: Codec, root: Bytes, session: nat, calls: seq<Call>)
    requires forall i :: 0 <= i < |calls| ==> RealCall(calls[i])
    ensures var w := Run(codec, Start(root, session), calls);
            LaunchesOk(codec, w.observer.trace, w.issued) && SpawnsOk(codec, w.observer.trace, w.issued)
    decreases |calls|
  {
    if calls != [] {
      var front := calls[..|calls| - 1];
      RunAuthorizes(codec, root, session, front);
      RunSound(codec, root, session, front);
      ActAuthorizes(codec, Run(codec, Start(root, session), front), calls[|calls| - 1]);
    }
  }

  /**
   In every run, a process is spawned only after its intent was acknowledged with its binding and the digest
   of the event, carrying a body that describes exactly the spawned command; and at most once per operation.
   */
  lemma NoSpawnWithoutAcknowledgement(codec: Codec, root: Bytes, session: nat, calls: seq<Call>, j: nat)
    requires forall i :: 0 <= i < |calls| ==> RealCall(calls[i])
    requires j < |Run(codec, Start(root, session), calls).observer.trace|
    requires Run(codec, Start(root, session), calls).observer.trace[j].Spawn?
    ensures var t := Run(codec, Start(root, session), calls).observer.trace;
            && (exists i :: 0 <= i < j && Authorizes(codec, t[i], t[j].command, t[j].binding))
            && SpawnsOf(t, t[j].binding.operation) <= 1
  {
    hide Run, Authorizes, SpawnsOf;
    RunAuthorizes(codec, root, session, calls);
    var t := Run(codec, Start(root, session), calls).observer.trace;
    var i :| 0 <= i < |t[..j]| && Authorizes(codec, t[..j][i], t[j].command, t[j].binding);
    assert t[..j][i] == t[i];
  }
}
