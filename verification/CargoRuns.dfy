/**
 Runs of a launch session with an observer installed. The history of every run is accepted by
 `Next`, a small automaton whose states are the stages of one launch; what it accepts is then
 spelled out: authorized spawns, waits before releases, and no launch after a fault.
 */
module CargoRuns {
  import opened Bytes
  import opened Transport
  import opened LaunchIntent
  import opened LaunchObserver
  import opened LaunchHistory
  import opened LaunchRuns
  import opened CargoLaunch

  datatype Stage =
    | Ready
    | RouteAccepted(binding: Binding, nonce: Bytes)
    | IntentAccepted(binding: Binding, intent: Entry)
    | Running(binding: Binding, pid: u32)
    | SpawnRefused(binding: Binding)
    | RefusalReported(binding: Binding, clean: bool)
    | SpawnReported(binding: Binding, pid: u32, clean: bool)
    | Waited(binding: Binding, pid: u32, status: ExitStatus, clean: bool)
    | EndReported(binding: Binding, clean: bool)
    | Released(binding: Binding, clean: bool)
    | Stopped

  function AfterLaunch(clean: bool): Stage {
    if clean then Ready else Stopped
  }

  /** The stages of one launch; a launch that is not clean stops the session for good. */
  ghost function Next(codec: Codec, stage: Stage, e: Entry): Option<Stage> {
    match stage
    case Ready =>
      if !e.Exchange? then None
      else if e.event.Unavailable? then Some(Stopped)
      else if !e.event.Route? then None
      else if e.outcome.Rejected? then Some(Stopped)
      else if !e.outcome.response.Routing? then None
      else Some(RouteAccepted(e.event.intent.binding, e.outcome.response.nonce))
    case RouteAccepted(binding, nonce) =>
      if e == Abandon(binding) then Some(Stopped)
      else if !e.Exchange? then None
      else if e.event.Unavailable? then Some(Stopped)
      else if !e.event.Intent? || e.event.binding != binding || e.event.nonce != nonce then None
      else if e.outcome.Rejected? then Some(Stopped)
      else Some(IntentAccepted(binding, e))
    case IntentAccepted(binding, intent) =>
      if e == SpawnError(binding) then Some(SpawnRefused(binding))
      else if e.Spawn? && e.binding == binding && Authorizes(codec, intent, e.command, binding) then
        Some(Running(binding, e.pid))
      else None
    case Running(binding, pid) =>
      if e.Exchange? && e.event == Spawned(binding, pid) then Some(SpawnReported(binding, pid, e.outcome.Accepted?))
      else None
    case SpawnRefused(binding) =>
      if e.Exchange? && e.event == SpawnFailed(binding) then Some(RefusalReported(binding, e.outcome.Accepted?))
      else None
    case RefusalReported(binding, clean) =>
      if e == Release(binding) then Some(AfterLaunch(clean)) else None
    case SpawnReported(binding, pid, clean) =>
      if e.Wait? && e.binding == binding then Some(Waited(binding, pid, e.status, clean)) else None
    case Waited(binding, pid, status, clean) =>
      if e.Exchange? && ((clean && e.event == Completed(binding, status))
                         || e.event == Cancelled(binding, pid, status)) then
        Some(EndReported(binding, e.event.Completed? && e.outcome.Accepted?))
      else None
    case EndReported(binding, clean) =>
      if e == Release(binding) then Some(Released(binding, clean)) else None
    case Released(binding, clean) =>
      if e == Gone(binding) then Some(AfterLaunch(clean))
      else if e.Wait? && e.binding == binding then Some(stage)
      else None
    case Stopped =>
      if e.Exchange? && e.event.Unavailable? then Some(Stopped) else None
  }

  ghost function Monitor(codec: Codec, t: seq<Entry>): Option<Stage> {
    if t == [] then Some(Ready)
    else
      match Monitor(codec, Front(t))
      case None => None
      case Some(stage) => Next(codec, stage, Last(t))
  }

  lemma MonitorAppend(codec: Codec, t: seq<Entry>, e: Entry, stage: Stage)
    requires Monitor(codec, t) == Some(stage)
    ensures Monitor(codec, t + [e]) == Next(codec, stage, e)
  {
    hide Sound;
    AppendView(codec, t, e);
  }

  /** One exchange is one entry, accepted exactly when it succeeds. */
  lemma ExchangeMonitored(codec: Codec, o: ObserverState, event: Event, carrier: Option<Bytes>, io: ExchangeIo,
                          stage: Stage)
    requires Monitor(codec, o.trace) == Some(stage)
    ensures var (t, ok) := ExchangeStep(codec, o, event, carrier, io);
            && t.trace != [] && t.trace == o.trace + [Last(t.trace)] && t == o.(channel := t.channel, trace := t.trace)
            && Last(t.trace).Exchange? && Last(t.trace).event == event && (ok <==> Last(t.trace).outcome.Accepted?)
            && Monitor(codec, t.trace) == Next(codec, stage, Last(t.trace))
  {
    hide Next, Monitor, SendStep, ReceiveStep;
    var t := ExchangeStep(codec, o, event, carrier, io).0;
    var e := t.trace[|o.trace|];
    assert t.trace == o.trace + [e];
    MonitorAppend(codec, o.trace, e, stage);
  }

  // ----- runs -----

  datatype SessionCall =
    | DoLaunch(begin: BeginInput, start: StartInput, routeIo: RouteIo, startIo: StartIo)
    | DoReference(begin: BeginInput, start: StartInput, routeIo: RouteIo, startIo: StartIo)
    | DoBegin(begin: BeginInput, routeIo: RouteIo)
    | DoMark(operation: Option<nat>)
    | DoComplete(operation: Option<nat>, status: Option<ExitStatus>)
    | DoWait(result: Option<ExitStatus>, later: ExitStatus, io: ExchangeIo)
    | DoPipeFault(later: ExitStatus, io: ExchangeIo)
    | DoDrop(later: ExitStatus, io: ExchangeIo)

  /** A child borrows the session: while it lives only its own operations can be called, and without it none of them. */
  predicate Enabled(c: Custody, call: SessionCall) {
    c.child.Some? <==> call.DoWait? || call.DoPipeFault? || call.DoDrop?
  }

  /** Facts of the system: the working directory is absolute and process numbers are positive. */
  predicate RealSessionCall(call: SessionCall) {
    && (call.DoLaunch? || call.DoReference? || call.DoBegin? ==> call.begin.amb.Real())
    && (call.DoLaunch? || call.DoReference? ==>
          call.start.amb.Real() && (call.start.answer.Some? ==> call.start.answer.value > 0))
  }

  ghost function LaunchStep(codec: Codec, s: SessionState, begun: (SessionState, Option<(Command, Option<nat>)>),
                            start: StartInput, io: StartIo): Custody
  {
    match begun.1
    case None => Custody(begun.0, None)
    case Some((command, operation)) => StartStep(codec, begun.0, command, operation, start, io).0
  }

  ghost function SessionAct(codec: Codec, c: Custody, call: SessionCall): Custody
    requires Enabled(c, call)
  {
    match call
    case DoLaunch(begin, start, routeIo, startIo) =>
      LaunchStep(codec, c.session, BeginStep(codec, c.session, begin, routeIo), start, startIo)
    case DoReference(begin, start, routeIo, startIo) =>
      LaunchStep(codec, c.session, ReferenceStep(codec, c.session, begin, routeIo), start, startIo)
    case DoBegin(begin, routeIo) => c.(session := BeginStep(codec, c.session, begin, routeIo).0)
    case DoMark(operation) => c.(session := c.session.Mark(operation))
    case DoComplete(operation, status) => c.(session := c.session.Completed(operation, status))
    case DoWait(result, later, io) => WaitStep(codec, c, result, later, io).0
    case DoPipeFault(later, io) => PipeFaultStep(codec, c, later, io)
    case DoDrop(later, io) => DropStep(codec, c, later, io)
  }

  /** The custody after `calls`, or None when some call was not possible. */
  ghost function SessionRun(codec: Codec, start: Custody, calls: seq<SessionCall>): Option<Custody> {
    if calls == [] then Some(start)
    else
      var last := calls[|calls| - 1];
      match SessionRun(codec, start, calls[..|calls| - 1])
      case None => None
      case Some(c) => if Enabled(c, last) && RealSessionCall(last) then Some(SessionAct(codec, c, last)) else None
  }

  function FreshSession(root: Bytes, session: nat, cargo: Bytes, name: Bytes): Custody {
    Custody(SessionState(Some(FreshObserver(root, session)), cargo, name, 0, [], 0, 0, None), None)
  }

  // ----- the invariant -----

  /** How the stage of the history sits with the objects between calls. */
  predicate Rests(codec: Codec, c: Custody, stage: Stage) {
    c.session.observer.Some? &&
    var o := c.session.observer.value;
    match stage
    case Ready => c.child.None? && o.pending.None? && !o.failed
    case RouteAccepted(binding, nonce) => c.child.None? && o.pending.Some? && o.pending.value.binding == binding
    case SpawnReported(binding, pid, clean) =>
      && c.child.Some? && c.child.value.pid == pid
      && clean && !o.failed && c.child.Some? && c.child.value.binding == Some(binding) && !c.child.value.waited
      && !c.child.value.fault
      && c.child.value.prepared.Some? && c.child.value.prepared.value.binding == binding
      && Owns(o, c.child.value.prepared.value, AwaitingExit)
    case Released(binding, clean) =>
      && c.child.Some? && c.child.value.binding == Some(binding) && c.child.value.waited && c.child.value.prepared.None?
      && o.pending.None? && (clean ==> !o.failed) && (!clean ==> o.failed) && !c.child.value.fault
    case Stopped => c.child.None? && (o.failed || o.pending.Some?)
    case _ => false
  }

  ghost predicate Kept(codec: Codec, c: Custody) {
    && c.session.observer.Some? && Sound(codec, c.session.observer.value)
    && Monitor(codec, c.session.observer.value.trace).Some?
    && Rests(codec, c, Monitor(codec, c.session.observer.value.trace).value)
  }

  // ----- routing -----

  predicate AtRest(o: ObserverState, stage: Stage) {
    match stage
    case Ready => o.pending.None? && !o.failed
    case RouteAccepted(_, _) => o.pending.Some?
    case Stopped => o.failed || o.pending.Some?
    case _ => false
  }

  /** What a successful route hands to the rest of the launch. */
  ghost predicate Handed(codec: Codec, o: ObserverState, command: Command, routed: RoutedIntent, binding: Binding,
                         amb: Ambient)
  {
    && !o.failed && MatchesPending(codec, o, routed) && routed.final.intent.binding == binding
    && IsFrozen(command) && Freeze(command, false, amb) == Some(command)
    && Describe(codec, command, binding, amb) == Some(routed.final.intent)
  }

  lemma PresentMeans(codec: Codec, command: Command, binding: Binding, inherit: bool, amb: Ambient)
    requires amb.Real() && Present(codec, command, binding, inherit, amb).Some?
    ensures var (frozen, intent) := Present(codec, command, binding, inherit, amb).value;
            && IsFrozen(frozen) && Freeze(frozen, false, amb) == Some(frozen)
            && Describe(codec, frozen, binding, amb) == Some(intent) && intent.binding == binding
  {
    hide Sound;
    FreezeYieldsFrozen(command, inherit, amb);
    FreezeIdempotent(command, inherit, amb, amb);
  }

  /** `Settle` hands out exactly what it freezes and describes. */
  lemma SettleHandsPresented(codec: Codec, s: ObserverState, intent: CommandIntent, delivery: Delivery, frozen: Command,
                             amb: Ambient, reply: Option<Bytes>)
    requires codec.intent(intent).Some? && Settle(codec, s, intent, delivery, frozen, amb, reply).1.Some?
    ensures var (t, r) := Settle(codec, s, intent, delivery, frozen, amb, reply);
            && reply.Some? && codec.response(reply.value).Some? && codec.response(reply.value).value.Routing?
            && var response := codec.response(reply.value).value;
            && Present(codec, Overlay(frozen, response.environment), intent.binding, false, amb)
               == Some((r.value.0, r.value.1.final.intent))
            && r.value.1.final.nonce == response.nonce && t.failed == s.failed
            && t.trace == s.trace + [Exchange(RouteEvent(codec, intent), None, delivery, Accepted(response))]
            && r.value.1.session == t.session && codec.finalIntent(r.value.1.final).Some?
            && t.pending
                == Some(Pending(intent.binding, codec.sha256(codec.finalIntent(r.value.1.final).value), AwaitingIntent))
  {
    hide Sound;
  }

  lemma SettleHands(codec: Codec, s: ObserverState, intent: CommandIntent, delivery: Delivery, frozen: Command,
                    amb: Ambient, reply: Option<Bytes>)
    requires codec.intent(intent).Some? && amb.Real()
    requires Settle(codec, s, intent, delivery, frozen, amb, reply).1.Some? && !s.failed
    ensures var (t, r) := Settle(codec, s, intent, delivery, frozen, amb, reply);
            Handed(codec, t, r.value.0, r.value.1, intent.binding, amb)
  {
    hide Sound;
    SettleHandsPresented(codec, s, intent, delivery, frozen, amb, reply);
    PresentMeans(codec, Overlay(frozen, codec.response(reply.value).value.environment), intent.binding, false, amb);
  }

  lemma RouteMonitored(codec: Codec, o: ObserverState, command: Command, binding: Binding, amb: Ambient, io: RouteIo,
                       stage: Stage)
    requires Sound(codec, o) && Monitor(codec, o.trace) == Some(stage) && AtRest(o, stage) && amb.Real()
    ensures var (p, r) := RouteStep(codec, o, command, binding, true, amb, io.io, io.farewell);
            && Sound(codec, p)
            && (r.Some? ==> && Handed(codec, p, r.value.0, r.value.1, binding, amb)
                            && Monitor(codec, p.trace) == Some(RouteAccepted(binding, r.value.1.final.nonce)))
            && (r.None? ==> p.failed && Monitor(codec, p.trace) == Some(Stopped))
  {
    hide Sound;
    RouteKeeps(codec, o, command, binding, true, amb, io.io, io.farewell);
    RouteStages(codec, o, command, binding, amb, io, stage);
  }

  lemma RouteStages(codec: Codec, o: ObserverState, command: Command, binding: Binding, amb: Ambient, io: RouteIo,
                    stage: Stage)
    requires Monitor(codec, o.trace) == Some(stage) && AtRest(o, stage) && amb.Real()
    ensures var (p, r) := RouteStep(codec, o, command, binding, true, amb, io.io, io.farewell);
            && (r.Some? ==> && Handed(codec, p, r.value.0, r.value.1, binding, amb)
                            && Monitor(codec, p.trace) == Some(RouteAccepted(binding, r.value.1.final.nonce)))
            && (r.None? ==> p.failed && Monitor(codec, p.trace) == Some(Stopped))
  {
    hide Sound, Request, Present, NotifyStep, Monitor, Handed;
    var request := Present(codec, command, binding, true, amb);
    var (q, r) := RouteInner(codec, o, command, binding, true, amb, io.io);
    var after := stage;
    if Routable(o, binding) && request.Some? {
      RequestMonitored(codec, o, request.value.0, request.value.1, amb, io.io);
      after := RoutedStage(binding, r);
    }
    if r.None? { FarewellMonitored(codec, q, binding, io.farewell, after); }
  }

  lemma FarewellMonitored(codec: Codec, q: ObserverState, binding: Binding, io: ExchangeIo, stage: Stage)
    requires Monitor(codec, q.trace) == Some(stage) && (stage.Ready? || stage.RouteAccepted? || stage.Stopped?)
    ensures var p := NotifyStep(codec, q.Fail(), Unavailable(binding), io).0;
            p.failed && Monitor(codec, p.trace) == Some(Stopped)
  {
    hide Sound;
    ExchangeMonitored(codec, q.Fail(), Unavailable(binding), None, io, stage);
  }

  /** The stage a route leaves, by its answer. */
  function RoutedStage(binding: Binding, r: Option<(Command, RoutedIntent)>): Stage {
    match r
    case None => Stopped
    case Some((_, routed)) => RouteAccepted(binding, routed.final.nonce)
  }

  lemma RouteEntryMonitored(codec: Codec, t: seq<Entry>, e: Entry)
    requires Monitor(codec, t) == Some(Ready) && e.Exchange? && e.event.Route?
    ensures e.outcome.Rejected? ==> Monitor(codec, t + [e]) == Some(Stopped)
    ensures e.outcome.Accepted? && e.outcome.response.Routing? ==>
              Monitor(codec, t + [e]) == Some(RouteAccepted(e.event.intent.binding, e.outcome.response.nonce))
  {
    hide Monitor;
    MonitorAppend(codec, t, e, Ready);
  }

  lemma RejectionMonitored(codec: Codec, u: ObserverState, intent: CommandIntent, delivery: Delivery, frozen: Command,
                           amb: Ambient, reply: Option<Bytes>)
    requires Monitor(codec, u.trace) == Some(Ready) && codec.intent(intent).Some?
    requires Settle(codec, u, intent, delivery, frozen, amb, reply).1.None?
    ensures Monitor(codec, Settle(codec, u, intent, delivery, frozen, amb, reply).0.trace) == Some(Stopped)
  {
    hide Settle, Monitor;
    SettleEffect(codec, u, intent, delivery, frozen, amb, reply);
    RouteEntryMonitored(codec, u.trace, Last(Settle(codec, u, intent, delivery, frozen, amb, reply).0.trace));
  }

  lemma AdmissionMonitored(codec: Codec, u: ObserverState, intent: CommandIntent, delivery: Delivery, frozen: Command,
                           amb: Ambient, reply: Option<Bytes>)
    requires Monitor(codec, u.trace) == Some(Ready) && codec.intent(intent).Some?
    requires Settle(codec, u, intent, delivery, frozen, amb, reply).1.Some?
    ensures var (q, r) := Settle(codec, u, intent, delivery, frozen, amb, reply);
            Monitor(codec, q.trace) == Some(RoutedStage(intent.binding, r))
  {
    hide Settle, Monitor, Present;
    SettleHandsPresented(codec, u, intent, delivery, frozen, amb, reply);
    RouteEntryMonitored(codec, u.trace, Exchange(RouteEvent(codec, intent), None, delivery,
                                                 Accepted(codec.response(reply.value).value)));
  }

  /** The reply to a request is one entry, and moves the history to the stage its answer says. */
  lemma SettleMonitored(codec: Codec, u: ObserverState, intent: CommandIntent, delivery: Delivery, frozen: Command,
                        amb: Ambient, reply: Option<Bytes>)
    requires Monitor(codec, u.trace) == Some(Ready) && !u.failed && amb.Real() && codec.intent(intent).Some?
    ensures var (q, r) := Settle(codec, u, intent, delivery, frozen, amb, reply);
            && Monitor(codec, q.trace) == Some(RoutedStage(intent.binding, r))
            && (r.Some? ==> Handed(codec, q, r.value.0, r.value.1, intent.binding, amb))
  {
    hide Settle, Monitor, Handed;
    if Settle(codec, u, intent, delivery, frozen, amb, reply).1.None? {
      RejectionMonitored(codec, u, intent, delivery, frozen, amb, reply);
    } else {
      AdmissionMonitored(codec, u, intent, delivery, frozen, amb, reply);
      SettleHands(codec, u, intent, delivery, frozen, amb, reply);
    }
  }

  lemma RequestMonitored(codec: Codec, o: ObserverState, frozen: Command, intent: CommandIntent, amb: Ambient,
                         io: ExchangeIo)
    requires Monitor(codec, o.trace) == Some(Ready) && !o.failed && amb.Real() && codec.intent(intent).Some?
    ensures var (q, r) := Request(codec, o, frozen, intent, amb, io);
            && Monitor(codec, q.trace) == Some(RoutedStage(intent.binding, r))
            && (r.Some? ==> Handed(codec, q, r.value.0, r.value.1, intent.binding, amb))
  {
    hide Settle, Converse, Monitor, Handed;
    var event := RouteEvent(codec, intent);
    match codec.event(event)
    case None => RouteEntryMonitored(codec, o.trace, Exchange(event, None, Unsent, Rejected));
    case Some(bytes) =>
      var (channel, delivery, reply) := Converse(o.channel, Frame(bytes, false), io);
      SettleMonitored(codec, o.(channel := channel), intent, delivery, frozen, amb, reply);
  }

  // ----- from route to spawn -----

  /**
   The session never trips its own change check: a routed command is prepared unless sealing or the exchange fails.
   */
  lemma RoutedCommandPrepares(codec: Codec, o: ObserverState, command: Command, routed: RoutedIntent, binding: Binding,
                              amb: Ambient, later: Ambient, sealed: bool, io: ExchangeIo)
    requires amb.Real() && later.Real() && Handed(codec, o, command, routed, binding, amb)
    ensures var body := codec.finalIntent(routed.final).value;
            var (p, launch) := PrepareStep(codec, o, command, routed, later, sealed, io);
            && (launch.Some? <==> sealed && ExchangeStep(codec, o, IntentEvent(codec, routed, body), Some(body), io).1)
            && (launch.Some? ==> launch.value.command == Some(command) && launch.value.carrier == body)
            && (!sealed ==> p == o.Fail())
            && (sealed && launch.None? ==>
                  p == ExchangeStep(codec, o, IntentEvent(codec, routed, body), Some(body), io).0.Fail())
  {
    hide Sound;
    FreezeIdempotent(command, false, amb, later);
    DescribeIgnoresAmbient(codec, command, binding, amb, later);
  }

  // ----- the end of a child -----

  /** The child is running under this session's guard, its launch announced (acknowledged when `clean`). */
  ghost predicate Holding(codec: Codec, c: Custody, binding: Binding, clean: bool) {
    && c.session.observer.Some? && Sound(codec, c.session.observer.value) && c.child.Some?
    && Monitor(codec, c.session.observer.value.trace) == Some(SpawnReported(binding, c.child.value.pid, clean))
    && c.child.value.binding == Some(binding) && !c.child.value.waited
    && c.child.value.prepared.Some? && c.child.value.prepared.value.binding == binding
    && Owns(c.session.observer.value, c.child.value.prepared.value, AwaitingExit)
  }

  /** Waited for, reported and released; only the guard remains. */
  ghost predicate Ended(codec: Codec, c: Custody, binding: Binding, clean: bool) {
    && c.session.observer.Some? && Sound(codec, c.session.observer.value)
    && Monitor(codec, c.session.observer.value.trace) == Some(Released(binding, clean))
    && c.child.Some? && c.child.value.binding == Some(binding) && c.child.value.waited && c.child.value.prepared.None?
    && c.session.observer.value.pending.None? && (clean <==> !c.session.observer.value.failed)
  }

  /** The history of the end of a launch: one terminal event, then the release. */
  lemma EndMonitored(codec: Codec, o: ObserverState, event: Event, io: ExchangeIo, binding: Binding, pid: u32,
                     status: ExitStatus, clean: bool)
    requires Monitor(codec, o.trace) == Some(Waited(binding, pid, status, clean))
    requires (clean && event == Completed(binding, status)) || event == Cancelled(binding, pid, status)
    ensures var (t, ok) := NotifyStep(codec, o, event, io);
            && Monitor(codec, t.trace + [Release(binding)]) == Some(Released(binding, event.Completed? && ok))
            && t.pending == o.pending && t.failed == (o.failed || !ok)
  {
    hide Sound, Monitor, ExchangeStep;
    var (t, ok) := NotifyStep(codec, o, event, io);
    ExchangeMonitored(codec, o, event, None, io, Waited(binding, pid, status, clean));
    MonitorAppend(codec, t.trace, Release(binding), EndReported(binding, event.Completed? && ok));
  }

  lemma WaitMonitored(codec: Codec, o: ObserverState, binding: Binding, status: ExitStatus, stage: Stage)
    requires Sound(codec, o) && Monitor(codec, o.trace) == Some(stage)
    requires stage.SpawnReported? || stage.Released?
    requires stage.binding == binding
    ensures Sound(codec, o.Log(Wait(binding, status)))
    ensures Monitor(codec, o.Log(Wait(binding, status)).trace)
         == Some(if stage.SpawnReported? then Waited(binding, stage.pid, status, stage.clean) else stage)
  {
    hide Sound;
    AppendSilent(codec, o, Wait(binding, status));
    MonitorAppend(codec, o.trace, Wait(binding, status), stage);
  }

  lemma CancelKept(codec: Codec, c: Custody, binding: Binding, clean: bool, status: ExitStatus, failures: nat,
                   io: ExchangeIo)
    requires Holding(codec, c, binding, clean)
    ensures Ended(codec, CancelOwned(codec, c, status, failures, io), binding, false)
  {
    hide Sound, Monitor, Next, NotifyStep;
    var o, launch := c.session.observer.value, c.child.value.prepared.value;
    WaitMonitored(codec, o, binding, status, SpawnReported(binding, c.child.value.pid, clean));
    var p := o.Log(Wait(binding, status));
    CancelKeeps(codec, p, launch, c.child.value.pid, status, io);
    EndMonitored(codec, p, Cancelled(binding, c.child.value.pid, status), io, binding, c.child.value.pid, status,
                 clean);
  }

  lemma CompletionKept(codec: Codec, c: Custody, binding: Binding, status: ExitStatus, later: ExitStatus,
                       io: ExchangeIo)
    requires Holding(codec, c, binding, true) && !c.session.observer.value.failed && !c.child.value.fault
    ensures var (d, ok) := WaitStep(codec, c, Some(status), later, io);
            Ended(codec, d, binding, ok) && !d.child.value.fault
  {
    hide Sound, Monitor, Next, NotifyStep;
    var o, launch := c.session.observer.value, c.child.value.prepared.value;
    WaitMonitored(codec, o, binding, status, SpawnReported(binding, c.child.value.pid, true));
    var p := o.Log(Wait(binding, status));
    CompleteKeeps(codec, p, launch, status, io);
    EndMonitored(codec, p, Completed(binding, status), io, binding, c.child.value.pid, status, true);
  }

  lemma LeaveKept(codec: Codec, c: Custody, binding: Binding, clean: bool)
    requires Ended(codec, c, binding, clean)
    ensures Kept(codec, Leave(c))
  {
    hide Sound;
    var o := c.session.observer.value;
    AppendSilent(codec, o, Gone(binding));
    MonitorAppend(codec, o.trace, Gone(binding), Released(binding, clean));
  }

  // ----- from the spawn attempt to the guard -----

  lemma SpawningKept(codec: Codec, s: SessionState, launch: PreparedLaunch, operation: Option<nat>, input: StartInput,
                     report: ExchangeIo, cancel: ExchangeIo, intent: Entry)
    requires s.observer.Some? && Sound(codec, s.observer.value) && !s.observer.value.failed
    requires Monitor(codec, s.observer.value.trace) == Some(IntentAccepted(launch.binding, intent))
    requires launch.command.Some? && Authorizes(codec, intent, launch.command.value, launch.binding)
    requires Owns(s.observer.value, launch, AwaitingSpawn) && (input.answer.Some? ==> input.answer.value > 0)
    ensures Kept(codec, Spawning(codec, s, launch, operation, input, report, cancel).0)
  {
    hide Sound, Authorizes, Next, SpawnedStep, SpawnFailedStep, CancelOwned;
    if input.answer.None? {
      RefusalKept(codec, s.observer.value, launch, report, intent);
    } else {
      AnnouncedKept(codec, s, launch, operation, input, report, cancel, intent);
    }
  }

  lemma RefusalMonitored(codec: Codec, o: ObserverState, launch: PreparedLaunch, io: ExchangeIo, intent: Entry)
    requires !o.failed && Monitor(codec, o.trace) == Some(IntentAccepted(launch.binding, intent))
    requires Owns(o, launch, AwaitingSpawn)
    ensures var (q, ok) := SpawnFailedStep(codec, o.Log(SpawnError(launch.binding)), launch.(command := None), io);
            Monitor(codec, q.trace) == Some(AfterLaunch(ok)) && q.pending.None? && (ok <==> !q.failed)
  {
    hide Sound, Monitor, ExchangeStep;
    var b := launch.binding;
    MonitorAppend(codec, o.trace, SpawnError(b), IntentAccepted(b, intent));
    var p := o.Log(SpawnError(b));
    var (t, ok) := NotifyStep(codec, p.(pending := None), SpawnFailed(b), io);
    ExchangeMonitored(codec, p.(pending := None), SpawnFailed(b), None, io, SpawnRefused(b));
    MonitorAppend(codec, t.trace, Release(b), RefusalReported(b, ok));
  }

  lemma RefusalKept(codec: Codec, o: ObserverState, launch: PreparedLaunch, io: ExchangeIo, intent: Entry)
    requires Sound(codec, o) && !o.failed && Monitor(codec, o.trace) == Some(IntentAccepted(launch.binding, intent))
    requires Owns(o, launch, AwaitingSpawn)
    ensures var (q, ok) := SpawnFailedStep(codec, o.Log(SpawnError(launch.binding)), launch.(command := None), io);
            && Sound(codec, q) && Monitor(codec, q.trace) == Some(AfterLaunch(ok)) && q.pending.None?
            && (ok <==> !q.failed)
  {
    hide Sound;
    AppendSilent(codec, o, SpawnError(launch.binding));
    SpawnFailedKeeps(codec, o.Log(SpawnError(launch.binding)), launch.(command := None), io);
    RefusalMonitored(codec, o, launch, io, intent);
  }

  lemma AnnounceStages(codec: Codec, o: ObserverState, launch: PreparedLaunch, pid: u32, io: ExchangeIo, intent: Entry)
    requires !o.failed && Monitor(codec, o.trace) == Some(IntentAccepted(launch.binding, intent))
    requires launch.command.Some? && Authorizes(codec, intent, launch.command.value, launch.binding)
    requires Owns(o, launch, AwaitingSpawn) && pid > 0
    ensures var spent := launch.(command := None);
            var (q, ok) := SpawnedStep(codec, o.Log(Spawn(launch.command.value, launch.binding, pid)), spent, pid, io);
            && Monitor(codec, q.trace) == Some(SpawnReported(launch.binding, pid, ok))
            && Owns(q, spent, AwaitingExit) && (ok <==> !q.failed)
  {
    hide Sound;
    var b, spent := launch.binding, launch.(command := None);
    var e := Spawn(launch.command.value, b, pid);
    MonitorAppend(codec, o.trace, e, IntentAccepted(b, intent));
    var p := o.Log(e);
    ExchangeMonitored(codec, p.(pending := Some(p.pending.value.(phase := AwaitingExit))), Spawned(b, pid), None, io,
                      Running(b, pid));
  }

  lemma AnnounceMonitored(codec: Codec, o: ObserverState, launch: PreparedLaunch, pid: u32, io: ExchangeIo,
                          intent: Entry)
    requires Sound(codec, o) && !o.failed && Monitor(codec, o.trace) == Some(IntentAccepted(launch.binding, intent))
    requires launch.command.Some? && Authorizes(codec, intent, launch.command.value, launch.binding)
    requires Owns(o, launch, AwaitingSpawn) && pid > 0
    ensures var spent := launch.(command := None);
            var (q, ok) := SpawnedStep(codec, o.Log(Spawn(launch.command.value, launch.binding, pid)), spent, pid, io);
            && Sound(codec, q) && Monitor(codec, q.trace) == Some(SpawnReported(launch.binding, pid, ok))
            && Owns(q, spent, AwaitingExit) && (ok <==> !q.failed)
  {
    hide Sound;
    var e := Spawn(launch.command.value, launch.binding, pid);
    AppendSilent(codec, o, e);
    SpawnedKeeps(codec, o.Log(e), launch.(command := None), pid, io);
    AnnounceStages(codec, o, launch, pid, io, intent);
  }

  lemma AnnouncedKept(codec: Codec, s: SessionState, launch: PreparedLaunch, operation: Option<nat>, input: StartInput,
                      report: ExchangeIo, cancel: ExchangeIo, intent: Entry)
    requires s.observer.Some? && Sound(codec, s.observer.value) && !s.observer.value.failed
    requires Monitor(codec, s.observer.value.trace) == Some(IntentAccepted(launch.binding, intent))
    requires launch.command.Some? && Authorizes(codec, intent, launch.command.value, launch.binding)
    requires Owns(s.observer.value, launch, AwaitingSpawn) && input.answer.Some? && input.answer.value > 0
    ensures Kept(codec, Spawning(codec, s, launch, operation, input, report, cancel).0)
  {
    hide Sound, Next, Monitor, SpawnedStep, CancelOwned, Authorizes;
    var b, pid, spent := launch.binding, input.answer.value, launch.(command := None);
    AnnounceMonitored(codec, s.observer.value, launch, pid, report, intent);
    var (q, ok) := SpawnedStep(codec, s.observer.value.Log(Spawn(launch.command.value, b, pid)), spent, pid, report);
    var c := Custody(s.(observer := Some(q)).Mark(operation),
                     Some(ChildState(pid, Some(b), operation, false, Some(spent), !ok)));
    assert Holding(codec, c, b, ok);
    if !ok {
      CancelKept(codec, c, b, false, input.status, 0, cancel);
      LeaveKept(codec, CancelOwned(codec, c, input.status, 0, cancel), b, false);
    }
  }

  lemma PrepareStages(codec: Codec, o: ObserverState, command: Command, routed: RoutedIntent, binding: Binding,
                      amb: Ambient, later: Ambient, io: ExchangeIo)
    requires amb.Real() && later.Real() && Handed(codec, o, command, routed, binding, amb)
    requires Monitor(codec, o.trace) == Some(RouteAccepted(binding, routed.final.nonce))
    ensures var (p, launch) := PrepareStep(codec, o, command, routed, later, true, io);
            p.trace != []
              && Monitor(codec, p.trace)
                  == Some(if launch.Some? then IntentAccepted(binding, Last(p.trace)) else Stopped)
  {
    hide Sound;
    RoutedCommandPrepares(codec, o, command, routed, binding, amb, later, true, io);
    var body := codec.finalIntent(routed.final).value;
    ExchangeMonitored(codec, o, IntentEvent(codec, routed, body), Some(body), io,
                      RouteAccepted(binding, routed.final.nonce));
  }

  lemma PrepareMonitored(codec: Codec, o: ObserverState, command: Command, routed: RoutedIntent, binding: Binding,
                         amb: Ambient, later: Ambient, sealed: bool, io: ExchangeIo)
    requires amb.Real() && later.Real() && Handed(codec, o, command, routed, binding, amb)
    requires Sound(codec, o) && Monitor(codec, o.trace) == Some(RouteAccepted(binding, routed.final.nonce))
    ensures var (p, launch) := PrepareStep(codec, o, command, routed, later, sealed, io);
            && Sound(codec, p)
            && (launch.None? ==> p.failed && (Monitor(codec, p.trace) == Some(Stopped)
                                              || (p.trace == o.trace && p.pending == o.pending)))
            && (launch.Some? ==>
                  && p.trace != [] && Monitor(codec, p.trace) == Some(IntentAccepted(binding, Last(p.trace)))
                                 && !p.failed && launch.value.command == Some(command)
                                 && launch.value.binding == binding
                                 && Authorizes(codec, Last(p.trace), command, binding)
                                 && Owns(p, launch.value, AwaitingSpawn))
  {
    SoundWire(codec, o);
    hide Sound, WireOk, Authorizes, Next, Handed, Freeze, Describe, IsFrozen, ExchangeStep;
    PrepareKeeps(codec, o, command, routed, later, sealed, io);
    RoutedCommandPrepares(codec, o, command, routed, binding, amb, later, sealed, io);
    if sealed { PrepareStages(codec, o, command, routed, binding, amb, later, io); }
    if PrepareStep(codec, o, command, routed, later, sealed, io).1.Some? {
      PrepareAuthorizes(codec, o, command, routed, later, sealed, io);
    }
  }

  /** From an accepted route to whatever the launch comes to. */
  lemma StartKept(codec: Codec, s: SessionState, command: Command, operation: Option<nat>, input: StartInput,
                  io: StartIo, binding: Binding, amb: Ambient)
    requires s.observer.Some? && s.routed.Some? && amb.Real() && input.amb.Real()
    requires input.answer.Some? ==> input.answer.value > 0
    requires Sound(codec, s.observer.value) && Handed(codec, s.observer.value, command, s.routed.value, binding, amb)
    requires Monitor(codec, s.observer.value.trace) == Some(RouteAccepted(binding, s.routed.value.final.nonce))
    ensures Kept(codec, StartStep(codec, s, command, operation, input, io).0)
  {
    hide Sound, Next, PrepareStep, Spawning;
    var o := s.observer.value;
    PrepareMonitored(codec, o, command, s.routed.value, binding, amb, input.amb, input.sealed, io.prepare);
    var (p, launch) := PrepareStep(codec, o, command, s.routed.value, input.amb, input.sealed, io.prepare);
    if launch.Some? {
      SpawningKept(codec, s.(observer := Some(p), routed := None), launch.value, operation, input, io.report, io.cancel,
                   Last(p.trace));
    }
  }

  // ----- beginning -----

  /** A session that begins well holds the route it just made; one that does not is kept. */
  ghost predicate Begun(codec: Codec, s: SessionState, command: Command, binding: Binding, amb: Ambient) {
    && s.observer.Some? && s.routed.Some? && Sound(codec, s.observer.value)
    && Handed(codec, s.observer.value, command, s.routed.value, binding, amb)
    && Monitor(codec, s.observer.value.trace) == Some(RouteAccepted(binding, s.routed.value.final.nonce))
  }

  lemma RouteSessionKept(codec: Codec, s: SessionState, command: Command, input: BeginInput, io: RouteIo)
    requires Kept(codec, Custody(s, None)) && input.amb.Real()
    ensures var (t, r) := RouteSession(codec, s, command, input, io);
            && (r.None? ==> Kept(codec, Custody(t, None)))
            && (r.Some? ==> Begun(codec, t, r.value, NextBinding(s, input.kind, s.observer.value.root), input.amb))
            && t == s.(observer := t.observer, routed := t.routed)
            && t.observer.Some? && t.observer.value.root == s.observer.value.root
  {
    hide Sound, Next, RouteStep, Handed, Kept, Monitor;
    KeptRests(codec, s);
    var o, binding := s.observer.value, NextBinding(s, input.kind, s.observer.value.root);
    RouteMonitored(codec, o, command, binding, input.amb, io, Monitor(codec, o.trace).value);
    RouteKeepsRoot(codec, o, command, binding, input.amb, io);
    var (p, r) := RouteStep(codec, o, command, binding, true, input.amb, io.io, io.farewell);
    if r.Some? {
      AbandonKept(codec, p, binding, r.value.1.final.nonce);
      HandedIsPending(codec, p, r.value.0, r.value.1, binding, input.amb);
      StoppedKept(codec, s.(observer := Some(p.Log(Abandon(binding))), routed := Some(r.value.1)));
    } else {
      StoppedKept(codec, s.(observer := Some(p)));
    }
  }

  lemma KeptRests(codec: Codec, s: SessionState)
    requires Kept(codec, Custody(s, None))
    ensures s.observer.Some? && Sound(codec, s.observer.value) && Monitor(codec, s.observer.value.trace).Some?
    ensures AtRest(s.observer.value, Monitor(codec, s.observer.value.trace).value)
  {
    hide Sound, Monitor;
  }

  lemma HandedIsPending(codec: Codec, o: ObserverState, command: Command, routed: RoutedIntent, binding: Binding,
                        amb: Ambient)
    requires Handed(codec, o, command, routed, binding, amb)
    ensures o.pending.Some?
  {
  }

  lemma StoppedKept(codec: Codec, s: SessionState)
    requires s.observer.Some? && Sound(codec, s.observer.value)
    requires Monitor(codec, s.observer.value.trace) == Some(Stopped)
    requires s.observer.value.failed || s.observer.value.pending.Some?
    ensures Kept(codec, Custody(s, None))
  {
    hide Sound, Monitor;
  }

  lemma RouteKeepsRoot(codec: Codec, o: ObserverState, command: Command, binding: Binding, amb: Ambient, io: RouteIo)
    ensures RouteStep(codec, o, command, binding, true, amb, io.io, io.farewell).0.root == o.root
  {
    hide Sound, Present, Request, Routable;
    var request := Present(codec, command, binding, true, amb);
    if request.Some? { RequestKeepsRoot(codec, o, request.value.0, request.value.1, amb, io.io); }
    assert RouteInner(codec, o, command, binding, true, amb, io.io).0.root == o.root;
  }

  lemma RequestKeepsRoot(codec: Codec, o: ObserverState, frozen: Command, intent: CommandIntent, amb: Ambient,
                         io: ExchangeIo)
    requires codec.intent(intent).Some?
    ensures Request(codec, o, frozen, intent, amb, io).0.root == o.root
  {
    hide Sound, Present;
  }

  lemma AbandonKept(codec: Codec, p: ObserverState, binding: Binding, nonce: Bytes)
    requires Sound(codec, p) && Monitor(codec, p.trace) == Some(RouteAccepted(binding, nonce))
    ensures Sound(codec, p.Log(Abandon(binding))) && Monitor(codec, p.Log(Abandon(binding)).trace) == Some(Stopped)
  {
    hide Sound;
    AppendSilent(codec, p, Abandon(binding));
    MonitorAppend(codec, p.trace, Abandon(binding), RouteAccepted(binding, nonce));
  }

  lemma RecordKept(codec: Codec, s: SessionState, command: Command, input: BeginInput)
    requires s.observer.Some? && |s.operations| < MAX_CARGO_OPERATIONS
    requires Begun(codec, s, command, NextBinding(s, input.kind, s.observer.value.root), input.amb)
    ensures var (t, r) := Record(s, command, input);
            && (r.None? ==> Kept(codec, Custody(t, None)))
            && (r.Some? ==>
                  r.value.0 == command
                    && Begun(codec, t, command, NextBinding(s, input.kind, s.observer.value.root), input.amb))
  {
    hide Sound;
    AbandonKept(codec, s.observer.value, NextBinding(s, input.kind, s.observer.value.root), s.routed.value.final.nonce);
  }

  lemma BeginKept(codec: Codec, s: SessionState, input: BeginInput, io: RouteIo)
    requires Kept(codec, Custody(s, None)) && input.amb.Real()
    ensures var (t, r) := BeginStep(codec, s, input, io);
            && (r.None? ==> Kept(codec, Custody(t, None)))
            && (r.Some? ==>
                  Begun(codec, t, r.value.0, NextBinding(Numbered(s), input.kind, s.observer.value.root), input.amb))
  {
    hide Sound;
    if input.command.program == s.cargo && input.flags.Some? && |s.operations| < MAX_CARGO_OPERATIONS {
      var t := Numbered(s);
      var command := Labelled(t, input.command, input.flags.value);
      RouteSessionKept(codec, t, command, input, io);
      var (u, routed) := RouteSession(codec, t, command, input, io);
      if routed.Some? { RecordKept(codec, u, routed.value, input); }
    }
  }

  lemma ReferenceKept(codec: Codec, s: SessionState, input: BeginInput, io: RouteIo)
    requires Kept(codec, Custody(s, None)) && input.amb.Real()
    ensures var (t, r) := ReferenceStep(codec, s, input, io);
            && (r.None? ==> Kept(codec, Custody(t, None)))
            && (r.Some? ==>
                  Begun(codec, t, r.value.0, NextBinding(Numbered(s), input.kind, s.observer.value.root), input.amb))
  {
    hide Sound;
    if input.command.program == s.cargo && input.flags.Some? && s.ordinal < MAX_CARGO_OPERATIONS {
      RouteSessionKept(codec, Numbered(s), Labelled(Numbered(s), input.command, input.flags.value), input, io);
    }
  }

  lemma LaunchKept(codec: Codec, s: SessionState, begun: (SessionState, Option<(Command, Option<nat>)>),
                   start: StartInput, io: StartIo, binding: Binding, amb: Ambient)
    requires begun.1.None? ==> Kept(codec, Custody(begun.0, None))
    requires begun.1.Some? ==> Begun(codec, begun.0, begun.1.value.0, binding, amb)
    requires amb.Real() && start.amb.Real() && (start.answer.Some? ==> start.answer.value > 0)
    ensures Kept(codec, LaunchStep(codec, s, begun, start, io))
  {
    hide Sound;
    if begun.1.Some? { StartKept(codec, begun.0, begun.1.value.0, begun.1.value.1, start, io, binding, amb); }
  }

  lemma SessionActKeeps(codec: Codec, c: Custody, call: SessionCall)
    requires Kept(codec, c) && Enabled(c, call) && RealSessionCall(call)
    ensures Kept(codec, SessionAct(codec, c, call))
  {
    hide Sound, Monitor, WaitStep, PipeFaultStep, DropStep, LaunchStep;
    var s := c.session;
    match call
    case DoLaunch(begin, start, routeIo, startIo) =>
      BeginKept(codec, s, begin, routeIo);
      LaunchKept(codec, s, BeginStep(codec, s, begin, routeIo), start, startIo,
                 NextBinding(Numbered(s), begin.kind, s.observer.value.root), begin.amb);
    case DoReference(begin, start, routeIo, startIo) =>
      ReferenceKept(codec, s, begin, routeIo);
      LaunchKept(codec, s, ReferenceStep(codec, s, begin, routeIo), start, startIo,
                 NextBinding(Numbered(s), begin.kind, s.observer.value.root), begin.amb);
    case DoBegin(begin, routeIo) => BeginKept(codec, s, begin, routeIo);
    case DoMark(operation) =>
    case DoComplete(operation, status) =>
    case DoWait(result, later, io) => ChildKept(codec, c, call);
    case DoPipeFault(later, io) => ChildKept(codec, c, call);
    case DoDrop(later, io) => ChildKept(codec, c, call);
  }

  lemma ChildKept(codec: Codec, c: Custody, call: SessionCall)
    requires Kept(codec, c) && c.child.Some? && Enabled(c, call)
    ensures Kept(codec, SessionAct(codec, c, call))
  {
    hide Sound;
    var stage := Monitor(codec, c.session.observer.value.trace).value;
    if stage.SpawnReported? {
      LiveChildKept(codec, c, call, stage.binding);
    } else {
      SpentChildKept(codec, c, call, stage.binding, stage.clean);
    }
  }

  lemma LiveChildKept(codec: Codec, c: Custody, call: SessionCall, binding: Binding)
    requires Holding(codec, c, binding, true) && !c.session.observer.value.failed && !c.child.value.fault
    requires Enabled(c, call)
    ensures Kept(codec, SessionAct(codec, c, call))
  {
    hide Sound, Next, CompleteStep, Owns, Monitor, NotifyStep, CancelOwned, CancelStep;
    var faulty := c.(child := Some(c.child.value.(fault := true)));
    match call
    case DoWait(result, later, io) =>
      if result.Some? {
        CompletionKept(codec, c, binding, result.value, later, io); }
        else { CancelKept(codec, faulty, binding, true, later, 0, io);
      }
    case DoPipeFault(later, io) => CancelKept(codec, faulty, binding, true, later, 0, io);
    case DoDrop(later, io) =>
      CancelKept(codec, c, binding, true, later, 0, io);
      LeaveKept(codec, CancelOwned(codec, c, later, 0, io), binding, false);
  }

  lemma SpentWaitKept(codec: Codec, c: Custody, result: Option<ExitStatus>, later: ExitStatus, io: ExchangeIo,
                      binding: Binding, clean: bool)
    requires Ended(codec, c, binding, clean) && !c.child.value.fault
    ensures Kept(codec, WaitStep(codec, c, result, later, io).0)
  {
    hide Sound;
    if result.Some? {
      var o := c.session.observer.value;
      WaitMonitored(codec, o, binding, result.value, Released(binding, clean));
      assert WaitStep(codec, c, result, later, io).0.session.observer == Some(o.Log(Wait(binding, result.value)));
    } else {
      assert WaitStep(codec, c, result, later, io).0 == c;
    }
  }

  lemma SpentChildKept(codec: Codec, c: Custody, call: SessionCall, binding: Binding, clean: bool)
    requires Ended(codec, c, binding, clean) && !c.child.value.fault && Enabled(c, call)
    ensures Kept(codec, SessionAct(codec, c, call))
  {
    hide Sound;
    match call
    case DoWait(result, later, io) => SpentWaitKept(codec, c, result, later, io, binding, clean);
    case DoPipeFault(later, io) => assert SessionAct(codec, c, call) == c;
    case DoDrop(later, io) => LeaveKept(codec, c, binding, clean);
  }

  lemma {:induction false} SessionRunKept(codec: Codec, root: Bytes, session: nat, cargo: Bytes, name: Bytes,
                                          calls: seq<SessionCall>)
    ensures var c := SessionRun(codec, FreshSession(root, session, cargo, name), calls);
            c.Some? ==> Kept(codec, c.value)
    decreases |calls|
  {
    hide Sound;
    if calls == [] {
      StartSound(codec, root, session);
    } else {
      var front := calls[..|calls| - 1];
      SessionRunKept(codec, root, session, cargo, name, front);
      var c := SessionRun(codec, FreshSession(root, session, cargo, name), front);
      var last := calls[|calls| - 1];
      if c.Some? && Enabled(c.value, last) && RealSessionCall(last) { SessionActKeeps(codec, c.value, last); }
    }
  }
}
