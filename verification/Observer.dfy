/**
 The launch observer: route, prepare, then report what became of the process.
 Each operation is a function from state to state over arbitrary peer replies and
 system outcomes (`XStep`); class `Observer` performs it on its fields.
 The state carries the history of exchanges, spawns, waits and carrier releases.
 */
module LaunchObserver {
  import opened Bytes
  import opened Transport
  import opened LaunchIntent

  datatype Phase = AwaitingIntent | AwaitingSpawn | AwaitingExit

  datatype Pending = Pending(binding: Binding, finalDigest: Bytes, phase: Phase)

  /** What `route` hands out; moved, never copied. */
  datatype RoutedIntent = RoutedIntent(final: FinalIntent, session: nat)

  /** The frozen command and its sealed carrier; the command is taken by the one spawn attempt. */
  datatype PreparedLaunch = PreparedLaunch(
    command: Option<Command>, carrier: Bytes, binding: Binding, finalDigest: Bytes, session: nat)

  datatype Outcome = Rejected | Accepted(response: Response)

  datatype Entry =
    | Exchange(event: Event, carrier: Option<Bytes>, delivery: Delivery, outcome: Outcome)
    | Spawn(command: Command, binding: Binding, pid: u32)
    | SpawnError(binding: Binding)
    | Wait(binding: Binding, status: ExitStatus)
    | Release(binding: Binding)
    | Gone(binding: Binding)
    | Abandon(binding: Binding)

  datatype ObserverState = ObserverState(
    channel: ChannelState, root: Bytes, session: nat, nonces: set<Bytes>, operation: nat,
    pending: Option<Pending>, failed: bool, trace: seq<Entry>)
  {
    function Log(e: Entry): ObserverState {
      this.(trace := trace + [e])
    }

    function Fail(): ObserverState {
      this.(failed := true)
    }

    /** The carrier file is dropped. */
    function Drop(launch: PreparedLaunch): ObserverState {
      Log(Release(launch.binding))
    }
  }

  datatype ExchangeIo = ExchangeIo(send: SendIo, receive: ReceiveIo)

  /** One request and its reply on the channel: the delivery, and the reply body if a plain frame came back. */
  function Converse(c: ChannelState, f: Frame, io: ExchangeIo): (ChannelState, Delivery, Option<Bytes>) {
    var (sent, delivery) := SendStep(c, f, io.send);
    if !delivery.Sent? then (sent, delivery, None)
    else
      var (received, reply) := ReceiveStep(sent, io.receive);
      (received, delivery, if reply.Some? && !reply.value.descriptor then Some(reply.value.body) else None)
  }

  predicate Acknowledges(codec: Codec, response: Response, event: Event, bytes: Bytes) {
    response == Acknowledged(event.Subject(), codec.sha256(bytes))
  }

  function ExchangeStep(codec: Codec, s: ObserverState, event: Event, carrier: Option<Bytes>, io: ExchangeIo)
    : (ObserverState, bool)
  {
    match codec.event(event)
    case None => (s.Log(Exchange(event, carrier, Unsent, Rejected)), false)
    case Some(bytes) =>
      var (channel, delivery, reply) := Converse(s.channel, Frame(bytes, carrier.Some?), io);
      var response := if reply.None? then None else codec.response(reply.value);
      if response.Some? && Acknowledges(codec, response.value, event, bytes) then
        (s.(channel := channel).Log(Exchange(event, carrier, delivery, Accepted(response.value))), true)
      else
        (s.(channel := channel).Log(Exchange(event, carrier, delivery, Rejected)), false)
  }

  function NotifyStep(codec: Codec, s: ObserverState, event: Event, io: ExchangeIo): (ObserverState, bool) {
    var (t, ok) := ExchangeStep(codec, s, event, None, io);
    (if ok then t else t.Fail(), ok)
  }

  predicate NonceOk(nonce: Bytes) {
    |nonce| == 64 && forall i :: 0 <= i < 64 ==> 48 <= nonce[i] <= 57 || 97 <= nonce[i] <= 102
  }

  /** The reply a route accepts: its own binding and digest, a fresh nonce and an acceptable overlay. */
  predicate Admits(codec: Codec, s: ObserverState, r: Response, binding: Binding, requestDigest: Bytes) {
    r.Routing? && r.binding == binding && r.requestDigest == requestDigest
    && NonceOk(r.nonce) && r.nonce !in s.nonces && OverlayOk(r.environment)
  }

  /** Freeze a command and describe the result. */
  ghost function Present(codec: Codec, command: Command, binding: Binding, inherit: bool, amb: Ambient)
    : (r: Option<(Command, CommandIntent)>)
    ensures r.Some? ==> codec.intent(r.value.1).Some? && r.value.1.binding == binding
  {
    match Freeze(command, inherit, amb)
    case None => None
    case Some(frozen) =>
      match Describe(codec, frozen, binding, amb)
      case None => None
      case Some(intent) => Some((frozen, intent))
  }

  /** An admitted reply takes effect: the nonce is spent, the operation counted and its final intent pending. */
  function Commit(codec: Codec, s: ObserverState, event: Event, delivery: Delivery, final: Command, fi: FinalIntent,
                  response: Response)
    : (ObserverState, Option<(Command, RoutedIntent)>)
  {
    var t := s.(nonces := s.nonces + {fi.nonce}, operation := s.operation + 1);
    match codec.finalIntent(fi)
    case None => (t.Log(Exchange(event, None, delivery, Rejected)), None)
    case Some(body) =>
      (t.(pending := Some(Pending(event.Subject(), codec.sha256(body), AwaitingIntent)))
       .Log(Exchange(event, None, delivery, Accepted(response))),
       Some((final, RoutedIntent(fi, s.session))))
  }

  /** What a route makes of the reply to its request. */
  ghost function Settle(codec: Codec, s: ObserverState, intent: CommandIntent, delivery: Delivery, frozen: Command,
                        amb: Ambient, reply: Option<Bytes>)
    : (ObserverState, Option<(Command, RoutedIntent)>)
    requires codec.intent(intent).Some?
  {
    var event := RouteEvent(codec, intent);
    var response := if reply.None? then None else codec.response(reply.value);
    if response.None? || !Admits(codec, s, response.value, intent.binding, event.requestDigest) then
      (s.Log(Exchange(event, None, delivery, Rejected)), None)
    else
      match Present(codec, Overlay(frozen, response.value.environment), intent.binding, false, amb)
      case None => (s.Log(Exchange(event, None, delivery, Rejected)), None)
      case Some((final, finalIntent)) =>
        Commit(codec, s, event, delivery, final,
               FinalIntent(finalIntent, response.value.nonce, codec.sha256(reply.value)), response.value)
  }

  function RouteEvent(codec: Codec, intent: CommandIntent): (e: Event)
    requires codec.intent(intent).Some?
    ensures e.Route?
  {
    Route(intent, codec.sha256(codec.intent(intent).value))
  }

  predicate Routable(s: ObserverState, binding: Binding) {
    !s.failed && s.pending.None? && binding.root == s.root && binding.operation == s.operation + 1
  }

  ghost function Request(codec: Codec, s: ObserverState, frozen: Command, intent: CommandIntent, amb: Ambient,
                         io: ExchangeIo)
    : (ObserverState, Option<(Command, RoutedIntent)>)
    requires codec.intent(intent).Some?
  {
    var event := RouteEvent(codec, intent);
    match codec.event(event)
    case None => (s.Log(Exchange(event, None, Unsent, Rejected)), None)
    case Some(bytes) =>
      var (channel, delivery, reply) := Converse(s.channel, Frame(bytes, false), io);
      Settle(codec, s.(channel := channel), intent, delivery, frozen, amb, reply)
  }

  ghost function RouteInner(codec: Codec, s: ObserverState, command: Command, binding: Binding, inherit: bool,
                            amb: Ambient, io: ExchangeIo)
    : (ObserverState, Option<(Command, RoutedIntent)>)
  {
    var request := Present(codec, command, binding, inherit, amb);
    if !Routable(s, binding) || request.None? then (s, None)
    else Request(codec, s, request.value.0, request.value.1, amb, io)
  }

  ghost function RouteStep(codec: Codec, s: ObserverState, command: Command, binding: Binding, inherit: bool,
                           amb: Ambient, io: ExchangeIo, farewell: ExchangeIo)
    : (ObserverState, Option<(Command, RoutedIntent)>)
  {
    var (t, r) := RouteInner(codec, s, command, binding, inherit, amb, io);
    if r.Some? then (t, r) else (NotifyStep(codec, t.Fail(), Unavailable(binding), farewell).0, None)
  }

  predicate MatchesPending(codec: Codec, s: ObserverState, routed: RoutedIntent) {
    && s.session == routed.session && s.pending.Some? && s.pending.value.phase.AwaitingIntent?
    && s.pending.value.binding == routed.final.intent.binding
    && codec.finalIntent(routed.final).Some?
    && s.pending.value.finalDigest == codec.sha256(codec.finalIntent(routed.final).value)
  }

  function IntentEvent(codec: Codec, routed: RoutedIntent, body: Bytes): Event {
    Intent(routed.final.intent.binding, routed.final.nonce, routed.final.responseDigest,
           |body| % 0x1_0000_0000, codec.sha256(body))
  }

  ghost function PrepareInner(codec: Codec, s: ObserverState, command: Command, routed: RoutedIntent, amb: Ambient,
                              sealed: bool, io: ExchangeIo)
    : (ObserverState, Option<PreparedLaunch>)
  {
    match Freeze(command, false, amb)
    case None => (s, None)
    case Some(frozen) =>
      var binding := routed.final.intent.binding;
      if s.failed || !MatchesPending(codec, s, routed)
         || Describe(codec, frozen, binding, amb) != Some(routed.final.intent) || !sealed
      then (s, None)
      else
        var body := codec.finalIntent(routed.final).value;
        var (t, ok) := ExchangeStep(codec, s, IntentEvent(codec, routed, body), Some(body), io);
        if !ok then (t, None)
        else (t.(pending := Some(s.pending.value.(phase := AwaitingSpawn))),
              Some(PreparedLaunch(Some(frozen), body, binding, codec.sha256(body), s.session)))
  }

  ghost function PrepareStep(codec: Codec, s: ObserverState, command: Command, routed: RoutedIntent, amb: Ambient,
                             sealed: bool, io: ExchangeIo)
    : (ObserverState, Option<PreparedLaunch>)
  {
    var (t, r) := PrepareInner(codec, s, command, routed, amb, sealed, io);
    (if r.Some? then t else t.Fail(), r)
  }

  /** `PreparedLaunch::spawn`: the command is consumed by the attempt; `pid` is the system's answer. */
  function SpawnStep(s: ObserverState, launch: PreparedLaunch, pid: Option<u32>)
    : (ObserverState, PreparedLaunch, Option<u32>)
  {
    if launch.command.None? then (s, launch, None)
    else
      var spent := launch.(command := None);
      if pid.Some? then (s.Log(Spawn(launch.command.value, launch.binding, pid.value)), spent, pid)
      else (s.Log(SpawnError(launch.binding)), spent, None)
  }

  predicate Owns(s: ObserverState, launch: PreparedLaunch, phase: Phase) {
    s.session == launch.session && s.pending == Some(Pending(launch.binding, launch.finalDigest, phase))
  }

  function SpawnedStep(codec: Codec, s: ObserverState, launch: PreparedLaunch, pid: u32, io: ExchangeIo)
    : (ObserverState, bool)
  {
    if !Owns(s, launch, AwaitingSpawn) || launch.command.Some? || pid == 0 then (s.Fail(), false)
    else
      NotifyStep(codec, s.(pending := Some(s.pending.value.(phase := AwaitingExit))), Spawned(launch.binding, pid), io)
  }

  function SpawnFailedStep(codec: Codec, s: ObserverState, launch: PreparedLaunch, io: ExchangeIo)
    : (ObserverState, bool)
  {
    if !Owns(s, launch, AwaitingSpawn) then (s.Fail().Drop(launch), false)
    else
      var (t, ok) := NotifyStep(codec, s.(pending := None), SpawnFailed(launch.binding), io);
      (t.Drop(launch), ok)
  }

  function CompleteStep(codec: Codec, s: ObserverState, launch: PreparedLaunch, status: ExitStatus, io: ExchangeIo)
    : (ObserverState, bool)
  {
    if !Owns(s, launch, AwaitingExit) then (s.Fail().Drop(launch), false)
    else
      var (t, ok) := NotifyStep(codec, s, Completed(launch.binding, status), io);
      (t.Drop(launch).(pending := None), ok)
  }

  function CancelStep(codec: Codec, s: ObserverState, launch: PreparedLaunch, pid: u32, status: ExitStatus,
                      io: ExchangeIo)
    : (ObserverState, bool)
  {
    if !Owns(s, launch, AwaitingExit) then (s.Fail().Drop(launch), false)
    else
      var (t, ok) := NotifyStep(codec, s, Cancelled(launch.binding, pid, status), io);
      (t.Drop(launch).(pending := None).Fail(), ok)
  }

  function FreshObserver(root: Bytes, session: nat): ObserverState {
    ObserverState(FreshChannel, root, session, {}, 0, None, false, [])
  }

  // ----- the observer itself -----

  /** The system's part in one exchange: elapsed times, transfer calls and the peer's reply stream. */
  datatype Link = Link(sendTime: nat, sendCalls: seq<IoCall>, receiveTime: nat, stream: seq<WireByte>,
                       receiveCalls: seq<IoCall>)

  class Observer {
    const channel: Channel
    const codec: Codec
    const root: Bytes
    const session: nat
    var nonces: set<Bytes>
    var operation: nat
    var pending: Option<Pending>
    var failed: bool
    ghost var trace: seq<Entry>

    ghost function Abs(): ObserverState
      reads this, channel
    {
      ObserverState(channel.Abs(), root, session, nonces, operation, pending, failed, trace)
    }

    ghost predicate Valid()
      reads this, channel
    {
      channel.Abs().Within()
    }

    constructor (channel: Channel, codec: Codec, root: Bytes, session: nat)
      requires channel.Abs() == FreshChannel
      ensures Valid() && this.channel == channel && this.codec == codec && Abs() == FreshObserver(root, session)
    {
      this.channel, this.codec, this.root, this.session := channel, codec, root, session;
      nonces, operation, pending, failed, trace := {}, 0, None, false, [];
    }

    method Talk(f: Frame, link: Link) returns (reply: Option<Bytes>, ghost delivery: Delivery, ghost io: ExchangeIo)
      requires Valid()
      modifies channel
      ensures Valid()
      ensures (channel.Abs(), delivery, reply) == Converse(old(channel.Abs()), f, io)
    {
      var ok, sendIo := channel.Send(f, link.sendTime, link.sendCalls);
      io := ExchangeIo(sendIo, ReceiveIo(0, []));
      delivery := SendStep(old(channel.Abs()), f, sendIo).1;
      reply := None;
      if ok {
        var frame, heard, _ := channel.Receive(link.receiveTime, link.stream, link.receiveCalls);
        io := ExchangeIo(sendIo, ReceiveIo(link.receiveTime, heard));
        if frame.Some? && !frame.value.descriptor {
          reply := Some(frame.value.body);
        }
      }
    }

    method ExchangeEvent(event: Event, carrier: Option<Bytes>, link: Link) returns (ok: bool, ghost io: ExchangeIo)
      requires Valid()
      modifies channel, this`trace
      ensures Valid()
      ensures (Abs(), ok) == ExchangeStep(codec, old(Abs()), event, carrier, io)
    {
      var bytes := codec.event(event);
      if bytes.None? {
        io := ExchangeIo(SendIo(0, 0), ReceiveIo(0, []));
        trace := trace + [Exchange(event, carrier, Unsent, Rejected)];
        return false, io;
      }
      ghost var delivery: Delivery;
      var reply: Option<Bytes>;
      reply, delivery, io := Talk(Frame(bytes.value, carrier.Some?), link);
      ok := false;
      ghost var outcome := Rejected;
      if reply.Some? {
        var response := codec.response(reply.value);
        if response.Some? && response.value == Acknowledged(event.Subject(), codec.sha256(bytes.value)) {
          ok, outcome := true, Accepted(response.value);
        }
      }
      trace := trace + [Exchange(event, carrier, delivery, outcome)];
    }

    method Notify(event: Event, link: Link) returns (ok: bool, ghost io: ExchangeIo)
      requires Valid()
      modifies channel, this`trace, this`failed
      ensures Valid()
      ensures (Abs(), ok) == NotifyStep(codec, old(Abs()), event, io)
    {
      ok, io := ExchangeEvent(event, None, link);
      if !ok {
        failed := true;
      }
    }

    /** The reply checks of `route_inner`. */
    method AdmitReply(reply: Option<Bytes>, binding: Binding, requestDigest: Bytes) returns (r: Option<Response>)
      ensures r == if reply.Some? && codec.response(reply.value).Some?
                      && Admits(codec, Abs(), codec.response(reply.value).value, binding, requestDigest)
                   then codec.response(reply.value) else None
    {
      if reply.None? {
        return None;
      }
      r := codec.response(reply.value);
      if r.None? || !r.value.Routing? {
        return None;
      }
      if r.value.binding != binding || r.value.requestDigest != requestDigest || !NonceOk(r.value.nonce)
         || r.value.nonce in nonces {
        return None;
      }
      var overlay := CheckOverlay(r.value.environment);
      if !overlay {
        return None;
      }
    }

    method FreezeAndDescribe(command: Command, binding: Binding, inherit: bool, amb: Ambient)
      returns (r: Option<(Command, CommandIntent)>)
      ensures r == Present(codec, command, binding, inherit, amb)
      ensures r.Some? ==> codec.intent(r.value.1).Some?
    {
      var frozen := FreezeEnvironment(codec, command, inherit, amb);
      if frozen.None? {
        return None;
      }
      var intent := ComputeIntent(codec, frozen.value, binding, amb);
      return if intent.None? then None else Some((frozen.value, intent.value));
    }

    method CommitRoute(event: Event, ghost delivery: Delivery, final: Command, fi: FinalIntent, response: Response)
      returns (r: Option<(Command, RoutedIntent)>)
      modifies this`nonces, this`operation, this`pending, this`trace
      ensures (Abs(), r) == Commit(codec, old(Abs()), event, delivery, final, fi, response)
    {
      nonces := nonces + {fi.nonce};
      operation := operation + 1;
      var body := codec.finalIntent(fi);
      if body.None? {
        trace := trace + [Exchange(event, None, delivery, Rejected)];
        return None;
      }
      pending := Some(Pending(event.Subject(), codec.sha256(body.value), AwaitingIntent));
      trace := trace + [Exchange(event, None, delivery, Accepted(response))];
      return Some((final, RoutedIntent(fi, session)));
    }

    method SettleRoute(intent: CommandIntent, ghost delivery: Delivery, frozen: Command, amb: Ambient,
                       reply: Option<Bytes>)
      returns (r: Option<(Command, RoutedIntent)>)
      requires codec.intent(intent).Some?
      modifies this`nonces, this`operation, this`pending, this`trace
      ensures (Abs(), r) == Settle(codec, old(Abs()), intent, delivery, frozen, amb, reply)
    {
      var event := RouteEvent(codec, intent);
      var response := AdmitReply(reply, intent.binding, event.requestDigest);
      if response.None? {
        trace := trace + [Exchange(event, None, delivery, Rejected)];
        return None;
      }
      var overlaid := ApplyOverlay(frozen, response.value.environment);
      var final := FreezeAndDescribe(overlaid, intent.binding, false, amb);
      if final.None? {
        trace := trace + [Exchange(event, None, delivery, Rejected)];
        return None;
      }
      r := CommitRoute(event, delivery, final.value.0,
                       FinalIntent(final.value.1, response.value.nonce, codec.sha256(reply.value)), response.value);
    }

    method TryRoute(command: Command, binding: Binding, inherit: bool, amb: Ambient, link: Link)
      returns (r: Option<(Command, RoutedIntent)>, ghost io: ExchangeIo)
      requires Valid()
      modifies this`nonces, this`operation, this`pending, this`trace, channel
      ensures Valid()
      ensures (Abs(), r) == RouteInner(codec, old(Abs()), command, binding, inherit, amb, io)
    {
      hide Present, Converse, Settle, RouteEvent;
      io := ExchangeIo(SendIo(0, 0), ReceiveIo(0, []));
      if failed || pending.Some? || binding.root != root || binding.operation != operation + 1 {
        return None, io;
      }
      var request := FreezeAndDescribe(command, binding, inherit, amb);
      if request.None? {
        return None, io;
      }
      var (frozen, intent) := request.value;
      var event := RouteEvent(codec, intent);
      var bytes := codec.event(event);
      if bytes.None? {
        trace := trace + [Exchange(event, None, Unsent, Rejected)];
        return None, io;
      }
      var reply: Option<Bytes>;
      ghost var delivery: Delivery;
      reply, delivery, io := Talk(Frame(bytes.value, false), link);
      r := SettleRoute(intent, delivery, frozen, amb, reply);
    }

    method RouteCommand(command: Command, binding: Binding, inherit: bool, amb: Ambient, link: Link, farewellLink: Link)
      returns (r: Option<(Command, RoutedIntent)>, ghost io: ExchangeIo, ghost farewell: ExchangeIo)
      requires Valid()
      modifies this, channel
      ensures Valid()
      ensures (Abs(), r) == RouteStep(codec, old(Abs()), command, binding, inherit, amb, io, farewell)
    {
      r, io := TryRoute(command, binding, inherit, amb, link);
      farewell := io;
      if r.None? {
        failed := true;
        var ok;
        ok, farewell := Notify(Unavailable(binding), farewellLink);
      }
    }

    method TryPrepare(command: Command, routed: RoutedIntent, amb: Ambient, sealed: bool, link: Link)
      returns (r: Option<PreparedLaunch>, ghost io: ExchangeIo)
      requires Valid()
      modifies this`pending, this`trace, channel
      ensures Valid()
      ensures (Abs(), r) == PrepareInner(codec, old(Abs()), command, routed, amb, sealed, io)
    {
      io := ExchangeIo(SendIo(0, 0), ReceiveIo(0, []));
      var frozen := FreezeEnvironment(codec, command, false, amb);
      if frozen.None? {
        return None, io;
      }
      var binding := routed.final.intent.binding;
      if failed || session != routed.session || pending.None? || !pending.value.phase.AwaitingIntent?
         || pending.value.binding != binding {
        return None, io;
      }
      var body := codec.finalIntent(routed.final);
      if body.None? || pending.value.finalDigest != codec.sha256(body.value) {
        return None, io;
      }
      var intent := ComputeIntent(codec, frozen.value, binding, amb);
      if intent != Some(routed.final.intent) || !sealed {
        return None, io;
      }
      var ok;
      ok, io := ExchangeEvent(IntentEvent(codec, routed, body.value), body, link);
      if !ok {
        return None, io;
      }
      pending := Some(pending.value.(phase := AwaitingSpawn));
      return Some(PreparedLaunch(frozen, body.value, binding, codec.sha256(body.value), session)), io;
    }

    method Prepare(command: Command, routed: RoutedIntent, amb: Ambient, sealed: bool, link: Link)
      returns (r: Option<PreparedLaunch>, ghost io: ExchangeIo)
      requires Valid()
      modifies this, channel
      ensures Valid()
      ensures (Abs(), r) == PrepareStep(codec, old(Abs()), command, routed, amb, sealed, io)
    {
      r, io := TryPrepare(command, routed, amb, sealed, link);
      if r.None? {
        failed := true;
      }
    }

    method SpawnLaunch(launch: PreparedLaunch, answer: Option<u32>) returns (spent: PreparedLaunch, pid: Option<u32>)
      requires Valid()
      modifies this`trace
      ensures Valid()
      ensures (Abs(), spent, pid) == SpawnStep(old(Abs()), launch, answer)
    {
      if launch.command.None? {
        return launch, None;
      }
      trace := trace
          + [if answer.Some? then Spawn(launch.command.value, launch.binding, answer.value)
             else SpawnError(launch.binding)];
      return launch.(command := None), answer;
    }

    method Announce(launch: PreparedLaunch, pid: u32, link: Link) returns (ok: bool, ghost io: ExchangeIo)
      requires Valid()
      modifies this, channel
      ensures Valid()
      ensures (Abs(), ok) == SpawnedStep(codec, old(Abs()), launch, pid, io)
    {
      io := ExchangeIo(SendIo(0, 0), ReceiveIo(0, []));
      if session != launch.session || pending != Some(Pending(launch.binding, launch.finalDigest, AwaitingSpawn)) {
        failed := true;
        return false, io;
      }
      if launch.command.Some? || pid == 0 {
        failed := true;
        return false, io;
      }
      pending := Some(pending.value.(phase := AwaitingExit));
      ok, io := Notify(Spawned(launch.binding, pid), link);
    }

    method AnnounceFailure(launch: PreparedLaunch, link: Link) returns (ok: bool, ghost io: ExchangeIo)
      requires Valid()
      modifies this, channel
      ensures Valid()
      ensures (Abs(), ok) == SpawnFailedStep(codec, old(Abs()), launch, io)
    {
      io := ExchangeIo(SendIo(0, 0), ReceiveIo(0, []));
      if session != launch.session || pending != Some(Pending(launch.binding, launch.finalDigest, AwaitingSpawn)) {
        failed := true;
        trace := trace + [Release(launch.binding)];
        return false, io;
      }
      pending := None;
      ok, io := Notify(SpawnFailed(launch.binding), link);
      trace := trace + [Release(launch.binding)];
    }

    method Complete(launch: PreparedLaunch, status: ExitStatus, link: Link) returns (ok: bool, ghost io: ExchangeIo)
      requires Valid()
      modifies this, channel
      ensures Valid()
      ensures (Abs(), ok) == CompleteStep(codec, old(Abs()), launch, status, io)
    {
      io := ExchangeIo(SendIo(0, 0), ReceiveIo(0, []));
      if session != launch.session || pending != Some(Pending(launch.binding, launch.finalDigest, AwaitingExit)) {
        failed := true;
        trace := trace + [Release(launch.binding)];
        return false, io;
      }
      ok, io := Notify(Completed(launch.binding, status), link);
      trace := trace + [Release(launch.binding)];
      pending := None;
    }

    method Cancel(launch: PreparedLaunch, pid: u32, status: ExitStatus, link: Link)
      returns (ok: bool, ghost io: ExchangeIo)
      requires Valid()
      modifies this, channel
      ensures Valid()
      ensures (Abs(), ok) == CancelStep(codec, old(Abs()), launch, pid, status, io)
    {
      io := ExchangeIo(SendIo(0, 0), ReceiveIo(0, []));
      if session != launch.session || pending != Some(Pending(launch.binding, launch.finalDigest, AwaitingExit)) {
        failed := true;
        trace := trace + [Release(launch.binding)];
        return false, io;
      }
      ok, io := Notify(Cancelled(launch.binding, pid, status), link);
      trace := trace + [Release(launch.binding)];
      pending := None;
      failed := true;
    }
  }
}
