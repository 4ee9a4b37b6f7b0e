/**
 What every reachable observer keeps, whatever its callers and its peer do: the order of
 events, fresh nonces, the failure latch, the frame account and the bytes on the wire.
 */
module LaunchHistory {
  import opened Bytes
  import opened Measure
  import opened Transport
  import opened LaunchIntent
  import opened LaunchObserver

  datatype Kind = KRoute | KIntent | KSpawned | KSpawnFailed | KCompleted | KCancelled

  function KindOf(e: Event): Option<Kind> {
    match e
    case Route(_, _) => Some(KRoute)
    case Intent(_, _, _, _, _) => Some(KIntent)
    case Spawned(_, _) => Some(KSpawned)
    case SpawnFailed(_) => Some(KSpawnFailed)
    case Completed(_, _) => Some(KCompleted)
    case Cancelled(_, _, _) => Some(KCancelled)
    case Unavailable(_) => None
  }

  // ----- views of a history -----

  function Front(t: seq<Entry>): seq<Entry>
    requires t != []
  {
    t[..|t| - 1]
  }

  function Last(t: seq<Entry>): Entry
    requires t != []
  {
    t[|t| - 1]
  }

  /** The operation numbers of the routes attempted, in order. */
  function Routes(t: seq<Entry>): seq<nat> {
    if t == [] then []
    else Routes(Front(t)) + if Last(t).Exchange? && Last(t).event.Route? then [Last(t).event.intent.binding.operation]
    else []
  }

  /** The nonces of accepted routes, in order. */
  function Nonces(t: seq<Entry>): seq<Bytes> {
    if t == [] then []
    else Nonces(Front(t)) +
         if Last(t).Exchange? && Last(t).event.Route? && Last(t).outcome.Accepted? && Last(t).outcome.response.Routing?
         then [Last(t).outcome.response.nonce] else []
  }

  predicate About(e: Entry, operation: nat) {
    e.Exchange? && KindOf(e.event).Some? && e.event.Subject().operation == operation
  }

  /** The events attempted for one operation, in order; `Unavailable` is a farewell and belongs to none. */
  function Kinds(t: seq<Entry>, operation: nat): seq<Kind> {
    if t == [] then []
    else Kinds(Front(t), operation) + if About(Last(t), operation) then [KindOf(Last(t).event).value] else []
  }

  /** Those of them that reached the peer whole. */
  function SentKinds(t: seq<Entry>, operation: nat): seq<Kind> {
    if t == [] then []
    else SentKinds(Front(t), operation) +
         if About(Last(t), operation) && Last(t).delivery.Sent? then [KindOf(Last(t).event).value] else []
  }

  function Acked(t: seq<Entry>, kind: Kind): nat {
    if t == [] then 0
    else Acked(Front(t), kind) +
         if Last(t).Exchange? && KindOf(Last(t).event) == Some(kind) && Last(t).outcome.Accepted? then 1 else 0
  }

  function FramesSent(codec: Codec, t: seq<Entry>): seq<Frame> {
    if t == [] then []
    else FramesSent(codec, Front(t)) +
         if Last(t).Exchange? && Last(t).delivery.Sent? && codec.event(Last(t).event).Some?
         then [Frame(codec.event(Last(t).event).value, Last(t).carrier.Some?)] else []
  }

  function UpTo(n: nat): seq<nat> {
    if n == 0 then [] else UpTo(n - 1) + [n]
  }

  // ----- the invariant -----

  predicate Closed(ks: seq<Kind>) {
    ks == [KRoute, KIntent, KSpawnFailed]
    || ks == [KRoute, KIntent, KSpawned, KCompleted] || ks == [KRoute, KIntent, KSpawned, KCancelled]
  }

  predicate KindsOk(s: ObserverState, operation: nat, ks: seq<Kind>) {
    if operation > s.operation then
      ks == [] || (operation == s.operation + 1 && s.failed && ks == [KRoute])
    else if operation == s.operation && s.pending.Some? then
      match s.pending.value.phase
      case AwaitingIntent => ks == [KRoute] || (s.failed && ks == [KRoute, KIntent])
      case AwaitingSpawn => ks == [KRoute, KIntent]
      case AwaitingExit => ks == [KRoute, KIntent, KSpawned]
    else
      Closed(ks) || (s.failed && ks == [KRoute])
  }

  ghost predicate OrderOk(s: ObserverState) {
    && s.operation <= MAX_OPERATIONS
    && (s.pending.Some? ==> 1 <= s.pending.value.binding.operation == s.operation && s.pending.value.binding.Valid())
    && (Routes(s.trace) == UpTo(s.operation)
        || (s.failed && s.operation < MAX_OPERATIONS && Routes(s.trace) == UpTo(s.operation + 1)))
    && (forall operation: nat :: operation >= 1 ==> KindsOk(s, operation, Kinds(s.trace, operation)))
    && Distinct(Nonces(s.trace)) && (forall i :: 0 <= i < |Nonces(s.trace)| ==> Nonces(s.trace)[i] in s.nonces)
  }

  predicate WireOk(codec: Codec, s: ObserverState) {
    Carries(FramesSent(codec, s.trace), s.channel.wire, s.channel.failed)
  }

  function PhaseFrames(pending: Option<Pending>): nat {
    match pending
    case None => 0
    case Some(p) => match p.phase case AwaitingIntent => 2 case AwaitingSpawn => 4 case AwaitingExit => 6
  }

  predicate FramesOk(s: ObserverState) {
    !s.failed ==>
      && !s.channel.failed
      && s.operation == Acked(s.trace, KCompleted) + Acked(s.trace, KSpawnFailed) + (if s.pending.Some? then 1 else 0)
      && s.channel.frames == 8 * Acked(s.trace, KCompleted) + 6 * Acked(s.trace, KSpawnFailed) + PhaseFrames(s.pending)
  }

  predicate LifecycleEvent(e: Event) {
    !e.Route? && !e.Unavailable?
  }

  /** Every lifecycle event of the history was small enough to encode. */
  predicate LifecycleEncoded(codec: Codec, t: seq<Entry>) {
    forall i :: 0 <= i < |t| && t[i].Exchange? && LifecycleEvent(t[i].event) ==> codec.event(t[i].event).Some?
  }

  /** What the peer was told of an operation lags behind only on a dead channel. */
  predicate SentUpTo(s: ObserverState, operation: nat, sent: seq<Kind>, attempted: seq<Kind>) {
    sent <= attempted && (operation <= s.operation && !s.channel.failed ==> sent == attempted)
  }

  ghost predicate SentOk(codec: Codec, s: ObserverState) {
    LifecycleEncoded(codec, s.trace) ==>
      forall operation: nat :: operation >= 1 ==>
        SentUpTo(s, operation, SentKinds(s.trace, operation), Kinds(s.trace, operation))
  }

  /** About a valid binding; an intent event stands for a final intent that itself encodes. */
  ghost predicate Grounded(codec: Codec, e: Event) {
    && e.Subject().Valid()
    && (e.Intent? ==> exists routed: RoutedIntent ::
          codec.finalIntent(routed.final).Some?
            && e == IntentEvent(codec, routed, codec.finalIntent(routed.final).value))
  }

  ghost predicate SubjectsOk(codec: Codec, t: seq<Entry>) {
    forall i :: 0 <= i < |t| && t[i].Exchange? && LifecycleEvent(t[i].event) ==> Grounded(codec, t[i].event)
  }

  ghost predicate Sound(codec: Codec, s: ObserverState) {
    && s.channel.Within() && OrderOk(s) && WireOk(codec, s) && FramesOk(s) && SentOk(codec, s)
    && SubjectsOk(codec, s.trace)
  }

  lemma SubjectsAppend(codec: Codec, t: seq<Entry>, e: Entry)
    requires SubjectsOk(codec, t) && (e.Exchange? && LifecycleEvent(e.event) ==> Grounded(codec, e.event))
    ensures SubjectsOk(codec, t + [e])
  {
    hide Grounded;
  }

  // ----- one entry at a time -----

  lemma AppendView(codec: Codec, t: seq<Entry>, e: Entry)
    ensures t + [e] != [] && Front(t + [e]) == t && Last(t + [e]) == e
  {
  }

  lemma KindsAppend(codec: Codec, t: seq<Entry>, e: Entry, operation: nat)
    ensures Kinds(t + [e], operation) == Kinds(t, operation) + if About(e, operation) then [KindOf(e.event).value]
            else []
  {
    AppendView(codec, t, e);
  }

  lemma SentAppend(codec: Codec, t: seq<Entry>, e: Entry, operation: nat)
    ensures SentKinds(t + [e], operation) ==
            SentKinds(t, operation) + if About(e, operation) && e.delivery.Sent? then [KindOf(e.event).value] else []
    ensures LifecycleEncoded(codec, t + [e]) ==> LifecycleEncoded(codec, t)
  {
    AppendView(codec, t, e);
    assert forall i :: 0 <= i < |t| ==> (t + [e])[i] == t[i];
  }

  /** A history that does not grow by an exchange tells the peer nothing new. */
  lemma SentSilent(codec: Codec, s: ObserverState, e: Entry)
    requires SentOk(codec, s) && !e.Exchange?
    ensures SentOk(codec, s.Log(e))
  {
    forall operation: nat | operation >= 1 && LifecycleEncoded(codec, s.Log(e).trace)
      ensures SentUpTo(s.Log(e), operation, SentKinds(s.Log(e).trace, operation), Kinds(s.Log(e).trace, operation))
    {
      SentAppend(codec, s.trace, e, operation);
      KindsAppend(codec, s.trace, e, operation);
      assert SentUpTo(s, operation, SentKinds(s.trace, operation), Kinds(s.trace, operation));
    }
  }

  /** One exchange: about the pending operation, or the route of the next one. */
  lemma SentStep(codec: Codec, s: ObserverState, t: ObserverState, e: Entry)
    requires OrderOk(s) && SentOk(codec, s) && t.trace == s.trace + [e] && e.Exchange?
    requires (s.channel.failed ==> t.channel.failed && !e.delivery.Sent?)
    requires !e.delivery.Sent? ==> codec.event(e.event).None? || t.channel.failed
    requires LifecycleEvent(e.event) ==> s.pending.Some? && e.event.Subject().operation == s.operation
    requires e.event.Route? ==> !s.failed && e.event.intent.binding.operation == s.operation + 1
    requires t.operation == s.operation || (t.operation == s.operation + 1 && e.event.Route? && e.delivery.Sent?)
    ensures SentOk(codec, t)
  {
    forall operation: nat | operation >= 1 && LifecycleEncoded(codec, t.trace)
      ensures SentUpTo(t, operation, SentKinds(t.trace, operation), Kinds(t.trace, operation))
    {
      SentAppend(codec, s.trace, e, operation);
      KindsAppend(codec, s.trace, e, operation);
      assert t.trace[|s.trace|] == e;
      assert SentUpTo(s, operation, SentKinds(s.trace, operation), Kinds(s.trace, operation));
      assert KindsOk(s, operation, Kinds(s.trace, operation));
    }
  }

  /** Entries that are not exchanges leave every view alone. */
  lemma SilentViews(codec: Codec, t: seq<Entry>, e: Entry)
    requires !e.Exchange?
    ensures Routes(t + [e]) == Routes(t) && Nonces(t + [e]) == Nonces(t)
    ensures FramesSent(codec, t + [e]) == FramesSent(codec, t)
    ensures Acked(t + [e], KCompleted) == Acked(t, KCompleted) && Acked(t + [e], KSpawnFailed) == Acked(t, KSpawnFailed)
  {
    AppendView(codec, t, e);
  }

  /** An entry that belongs to no operation keeps the order of events. */
  lemma QuietOrder(codec: Codec, s: ObserverState, e: Entry)
    requires OrderOk(s) && (e.Exchange? ==> e.event.Unavailable?)
    ensures OrderOk(s.Log(e)) && Routes(s.Log(e).trace) == Routes(s.trace)
  {
    forall operation: nat | operation >= 1 ensures KindsOk(s.Log(e), operation, Kinds(s.Log(e).trace, operation)) {
      QuietKinds(codec, s, e, operation);
    }
    QuietViews(codec, s.trace, e);
  }

  lemma QuietKinds(codec: Codec, s: ObserverState, e: Entry, operation: nat)
    requires KindsOk(s, operation, Kinds(s.trace, operation)) && (e.Exchange? ==> e.event.Unavailable?)
    ensures KindsOk(s.Log(e), operation, Kinds(s.Log(e).trace, operation))
  {
    KindsAppend(codec, s.trace, e, operation);
  }

  lemma QuietViews(codec: Codec, t: seq<Entry>, e: Entry)
    requires e.Exchange? ==> e.event.Unavailable?
    ensures Routes(t + [e]) == Routes(t) && Nonces(t + [e]) == Nonces(t)
  {
    if e.Exchange? { AppendExchange(codec, t, e); } else { SilentViews(codec, t, e); }
  }

  lemma AppendSilent(codec: Codec, s: ObserverState, e: Entry)
    requires !e.Exchange? && Sound(codec, s)
    ensures Sound(codec, s.Log(e)) && Routes(s.Log(e).trace) == Routes(s.trace)
  {
    SilentViews(codec, s.trace, e);
    QuietOrder(codec, s, e);
    SentSilent(codec, s, e);
  }

  /** The shape of one exchange: what it does to the channel, and that only an accepted one leaves it open. */
  lemma ConverseEffect(c: ChannelState, f: Frame, io: ExchangeIo)
    requires c.Within()
    ensures var (d, delivery, reply) := Converse(c, f, io);
            && d.Within()
            && (reply.Some? ==> delivery.Sent? && !d.failed && d.frames == c.frames + 2)
            && (c.failed ==> d.failed)
            && (!delivery.Sent? ==> d.failed)
            && match delivery
               case Sent => Sendable(f.body) && !c.failed && d.wire == c.wire + EncodeFrame(f)
               case Unsent => d.wire == c.wire
               case Torn => Sendable(f.body) && !c.failed && io.send.accepted < |EncodeFrame(f)|
                            && d.wire == c.wire + EncodeFrame(f)[..io.send.accepted]
  {
    SendKeepsBudgets(c, f, io.send);
    ReceiveKeepsBudgets(SendStep(c, f, io.send).0, io.receive);
  }

  /** The frame an exchange puts on the wire whole. */
  lemma FramesAppend(codec: Codec, t: seq<Entry>, e: Entry, f: Frame)
    requires e.Exchange? && codec.event(e.event) == Some(f.body) && f.descriptor == e.carrier.Some?
    ensures FramesSent(codec, t + [e])
         == if e.delivery.Sent? then FramesSent(codec, t) + [f] else FramesSent(codec, t)
  {
    AppendView(codec, t, e);
  }

  /** Any exchange keeps the wire equal to the frames sent. */
  lemma WireStep(codec: Codec, s: ObserverState, e: Entry, f: Frame, io: ExchangeIo)
    requires s.channel.Within() && WireOk(codec, s)
    requires e.Exchange? && codec.event(e.event) == Some(f.body) && f.descriptor == e.carrier.Some?
    requires e.delivery == Converse(s.channel, f, io).1
    ensures WireOk(codec, s.(channel := Converse(s.channel, f, io).0).Log(e))
  {
    hide Converse, Carries, FramesSent, EncodeFrame, EncodeAll, DecodeFrame, Sendable;
    ConverseEffect(s.channel, f, io);
    FramesAppend(codec, s.trace, e, f);
    var c, d, fs := s.channel, Converse(s.channel, f, io).0, FramesSent(codec, s.trace);
    match e.delivery
    case Sent => CarriesMore(fs, c.wire, f, d.failed);
    case Unsent => CarriesFailed(fs, c.wire, c.failed);
    case Torn => CarriesTorn(fs, c.wire, f, io.send.accepted);
  }

  lemma WireUnsent(codec: Codec, s: ObserverState, e: Entry)
    requires WireOk(codec, s) && e.Exchange? && e.delivery.Unsent?
    ensures WireOk(codec, s.Log(e))
  {
    AppendView(codec, s.trace, e);
    assert FramesSent(codec, s.Log(e).trace) == FramesSent(codec, s.trace);
  }

  /** Everything about an acknowledged exchange except the order of events. */
  lemma ExchangeEffect(codec: Codec, s: ObserverState, event: Event, carrier: Option<Bytes>, io: ExchangeIo)
    requires s.channel.Within() && WireOk(codec, s)
    ensures var (t, ok) := ExchangeStep(codec, s, event, carrier, io);
            && t.channel.Within() && WireOk(codec, t)
            && (s.channel.failed ==> t.channel.failed)
            && |t.trace| == |s.trace| + 1 && Last(t.trace).Exchange? && t == s.(channel := t.channel).Log(Last(t.trace))
            && Last(t.trace).event == event && Last(t.trace).carrier == carrier
            && (ok <==> Last(t.trace).outcome.Accepted?)
            && (ok ==> !t.channel.failed && t.channel.frames == s.channel.frames + 2 && Last(t.trace).delivery.Sent?
                       && codec.event(event).Some?
                       && Last(t.trace).outcome.response
                           == Acknowledged(event.Subject(), codec.sha256(codec.event(event).value)))
            && (!Last(t.trace).delivery.Sent? ==> codec.event(event).None? || t.channel.failed)
            && (s.channel.failed ==> !Last(t.trace).delivery.Sent?)
  {
    hide Converse, WireOk;
    match codec.event(event)
    case None =>
      WireUnsent(codec, s, Exchange(event, carrier, Unsent, Rejected));
    case Some(bytes) =>
      var f := Frame(bytes, carrier.Some?);
      ConverseEffect(s.channel, f, io);
      WireStep(codec, s, Last(ExchangeStep(codec, s, event, carrier, io).0.trace), f, io);
  }

  /** How one more exchange changes the views. */
  lemma AppendExchange(codec: Codec, t: seq<Entry>, e: Entry)
    requires e.Exchange?
    ensures Routes(t + [e]) == Routes(t) + if e.event.Route? then [e.event.intent.binding.operation] else []
    ensures Nonces(t + [e])
         == Nonces(t)
            + if e.event.Route? && e.outcome.Accepted? && e.outcome.response.Routing?
              then [e.outcome.response.nonce] else []
    ensures Acked(t + [e], KCompleted)
         == Acked(t, KCompleted) + if e.event.Completed? && e.outcome.Accepted? then 1 else 0
    ensures Acked(t + [e], KSpawnFailed)
         == Acked(t, KSpawnFailed) + if e.event.SpawnFailed? && e.outcome.Accepted? then 1 else 0
  {
    AppendView(codec, t, e);
  }

  // ----- each operation keeps the invariant -----

  lemma NotifyUnavailable(codec: Codec, s: ObserverState, binding: Binding, io: ExchangeIo)
    requires Sound(codec, s) && s.failed
    ensures var t := NotifyStep(codec, s, Unavailable(binding), io).0;
            Sound(codec, t) && t.failed && Routes(t.trace) == Routes(s.trace) && t.operation == s.operation
              && t.pending == s.pending
  {
    ExchangeEffect(codec, s, Unavailable(binding), None, io);
    var t := ExchangeStep(codec, s, Unavailable(binding), None, io).0;
    var e := Last(t.trace);
    QuietOrder(codec, s, e);
    OrderIgnoresChannel(s.Log(e), t.channel);
    SentStep(codec, s, t, e);
  }

  lemma FailKeeps(codec: Codec, s: ObserverState)
    requires Sound(codec, s)
    ensures Sound(codec, s.Fail())
  {
    forall operation: nat | operation >= 1 ensures KindsOk(s.Fail(), operation, Kinds(s.trace, operation)) {
      assert KindsOk(s, operation, Kinds(s.trace, operation));
    }
  }

  predicate Advances(p: Pending, event: Event, after: Option<Pending>) {
    && !event.Route? && !event.Unavailable? && event.Subject() == p.binding
    && match p.phase
       case AwaitingIntent => event.Intent? && after == Some(p.(phase := AwaitingSpawn))
       case AwaitingSpawn =>
         (event.Spawned? && after == Some(p.(phase := AwaitingExit))) || (event.SpawnFailed? && after == None)
       case AwaitingExit => (event.Completed? || event.Cancelled?) && after == None
  }

  /** The order of events after a lifecycle exchange `e`: acknowledged, or attempted and latched. */
  lemma LifecycleOrder(codec: Codec, s: ObserverState, e: Entry, after: Option<Pending>, operation: nat)
    requires OrderOk(s) && s.pending.Some? && operation >= 1
    requires e.Exchange? && Advances(s.pending.value, e.event, after) && (e.event.Intent? ==> !s.failed)
    ensures KindsOk(s.Log(e).(pending := after).Fail(), operation, Kinds(s.trace + [e], operation))
    ensures KindsOk(s.Log(e).(pending := after), operation, Kinds(s.trace + [e], operation))
    ensures e.event.Intent? ==> KindsOk(s.Log(e).Fail(), operation, Kinds(s.trace + [e], operation))
  {
    KindsAppend(codec, s.trace, e, operation);
    assert KindsOk(s, operation, Kinds(s.trace, operation));
    assert About(e, operation) <==> operation == s.operation;
  }

  lemma LifecycleFrames(codec: Codec, s: ObserverState, e: Entry, after: Option<Pending>, channel: ChannelState)
    requires FramesOk(s) && s.pending.Some? && e.Exchange? && Advances(s.pending.value, e.event, after)
    requires e.outcome.Accepted? && !e.event.Cancelled? && !channel.failed && channel.frames == s.channel.frames + 2
    ensures FramesOk(s.(channel := channel, pending := after).Log(e))
  {
    AppendExchange(codec, s.trace, e);
  }

  lemma LifecycleViews(codec: Codec, s: ObserverState, e: Entry)
    requires e.Exchange? && LifecycleEvent(e.event)
    ensures Routes(s.Log(e).trace) == Routes(s.trace) && Nonces(s.Log(e).trace) == Nonces(s.trace)
  {
    AppendExchange(codec, s.trace, e);
  }

  lemma LifecycleOrders(codec: Codec, s: ObserverState, e: Entry, after: Option<Pending>)
    requires OrderOk(s) && s.pending.Some?
    requires e.Exchange? && Advances(s.pending.value, e.event, after) && (e.event.Intent? ==> !s.failed)
    ensures OrderOk(s.Log(e).(pending := after).Fail()) && OrderOk(s.Log(e).(pending := after))
  {
    LifecycleViews(codec, s, e);
    forall operation: nat | operation >= 1
      ensures KindsOk(s.Log(e).(pending := after).Fail(), operation, Kinds(s.trace + [e], operation))
      ensures KindsOk(s.Log(e).(pending := after), operation, Kinds(s.trace + [e], operation))
    {
      LifecycleOrder(codec, s, e, after, operation);
    }
  }

  /** An intent that was attempted and not acknowledged leaves the operation where it was, latched. */
  lemma IntentAttempted(codec: Codec, s: ObserverState, e: Entry, after: Option<Pending>)
    requires OrderOk(s) && s.pending.Some? && !s.failed
    requires e.Exchange? && Advances(s.pending.value, e.event, after) && e.event.Intent?
    ensures OrderOk(s.Log(e).Fail())
  {
    LifecycleViews(codec, s, e);
    forall operation: nat | operation >= 1 ensures KindsOk(s.Log(e).Fail(), operation,
                                                           Kinds(s.trace + [e], operation)) {
      LifecycleOrder(codec, s, e, after, operation);
    }
  }

  /**
   Replacing the channel does not touch the order of events, and replacing `pending` or latching does not touch the
   wire.
   */
  lemma OrderIgnoresChannel(s: ObserverState, channel: ChannelState)
    ensures OrderOk(s.(channel := channel)) == OrderOk(s)
  {
    assert forall operation: nat, ks ::
        KindsOk(s.(channel := channel), operation, ks) == KindsOk(s, operation, ks);
  }

  /** A lifecycle exchange about the pending operation, moving it to `after` once it is attempted. */
  lemma LifecycleKeeps(codec: Codec, s: ObserverState, event: Event, carrier: Option<Bytes>, io: ExchangeIo,
                       after: Option<Pending>)
    requires Sound(codec, s) && s.pending.Some? && Advances(s.pending.value, event, after)
    requires event.Intent? ==> !s.failed && Grounded(codec, event)
    ensures var (t, ok) := ExchangeStep(codec, s, event, carrier, io);
            && (ok && !event.Cancelled? ==> Sound(codec, t.(pending := after)))
            && Sound(codec, t.(pending := after).Fail())
            && (event.Intent? ==> Sound(codec, t.Fail()))
            && Routes(t.trace) == Routes(s.trace) && t.failed == s.failed
  {
    ExchangeEffect(codec, s, event, carrier, io);
    var (t, ok) := ExchangeStep(codec, s, event, carrier, io);
    var e := Last(t.trace);
    LifecycleOrders(codec, s, e, after);
    LifecycleViews(codec, s, e);
    SubjectsAppend(codec, s.trace, e);
    if event.Intent? { IntentAttempted(codec, s, e, after); }
    OrderIgnoresChannel(s.Log(e).(pending := after).Fail(), t.channel);
    OrderIgnoresChannel(s.Log(e).(pending := after), t.channel);
    OrderIgnoresChannel(s.Log(e).Fail(), t.channel);
    SentStep(codec, s, t.(pending := after), e);
    SentStep(codec, s, t, e);
    if ok && !event.Cancelled? { LifecycleFrames(codec, s, e, after, t.channel); }
  }

  lemma SoundWire(codec: Codec, s: ObserverState)
    requires Sound(codec, s)
    ensures s.channel.Within() && WireOk(codec, s)
  {
  }

  lemma PrepareKeeps(codec: Codec, s: ObserverState, command: Command, routed: RoutedIntent, amb: Ambient, sealed: bool,
                     io: ExchangeIo)
    requires Sound(codec, s)
    ensures var t := PrepareStep(codec, s, command, routed, amb, sealed, io).0;
            Sound(codec, t) && Routes(t.trace) == Routes(s.trace) && (s.failed ==> t.failed)
  {
    FailKeeps(codec, s);
    if !s.failed && MatchesPending(codec, s, routed) {
      var body := codec.finalIntent(routed.final).value;
      assert Grounded(codec, IntentEvent(codec, routed, body));
      LifecycleKeeps(codec, s, IntentEvent(codec, routed, body), Some(body), io,
                     Some(s.pending.value.(phase := AwaitingSpawn)));
    }
  }

  lemma SpawnedKeeps(codec: Codec, s: ObserverState, launch: PreparedLaunch, pid: u32, io: ExchangeIo)
    requires Sound(codec, s)
    ensures var t := SpawnedStep(codec, s, launch, pid, io).0;
            Sound(codec, t) && Routes(t.trace) == Routes(s.trace) && (s.failed ==> t.failed)
  {
    hide Sound, ExchangeStep, Routes;
    FailKeeps(codec, s);
    if Owns(s, launch, AwaitingSpawn) {
      var after := Some(s.pending.value.(phase := AwaitingExit));
      LifecycleKeeps(codec, s, Spawned(launch.binding, pid), None, io, after);
      CommutesWithPending(codec, s, after, Spawned(launch.binding, pid), io);
    }
  }

  /** An exchange neither reads nor writes `pending`. */
  lemma CommutesWithPending(codec: Codec, s: ObserverState, after: Option<Pending>, event: Event, io: ExchangeIo)
    ensures ExchangeStep(codec, s.(pending := after), event, None, io).0
         == ExchangeStep(codec, s, event, None, io).0.(pending := after)
    ensures ExchangeStep(codec, s.(pending := after), event, None, io).1 == ExchangeStep(codec, s, event, None, io).1
  {
  }

  lemma SpawnFailedKeeps(codec: Codec, s: ObserverState, launch: PreparedLaunch, io: ExchangeIo)
    requires Sound(codec, s)
    ensures var t := SpawnFailedStep(codec, s, launch, io).0;
            Sound(codec, t) && Routes(t.trace) == Routes(s.trace) && (s.failed ==> t.failed)
  {
    FailKeeps(codec, s);
    AppendSilent(codec, s.Fail(), Release(launch.binding));
    if Owns(s, launch, AwaitingSpawn) {
      LifecycleKeeps(codec, s, SpawnFailed(launch.binding), None, io, None);
      CommutesWithPending(codec, s, None, SpawnFailed(launch.binding), io);
      var t := NotifyStep(codec, s.(pending := None), SpawnFailed(launch.binding), io).0;
      AppendSilent(codec, t, Release(launch.binding));
    }
  }

  lemma CompleteKeeps(codec: Codec, s: ObserverState, launch: PreparedLaunch, status: ExitStatus, io: ExchangeIo)
    requires Sound(codec, s)
    ensures var t := CompleteStep(codec, s, launch, status, io).0;
            Sound(codec, t) && Routes(t.trace) == Routes(s.trace) && (s.failed ==> t.failed)
  {
    FailKeeps(codec, s);
    AppendSilent(codec, s.Fail(), Release(launch.binding));
    if Owns(s, launch, AwaitingExit) {
      LifecycleKeeps(codec, s, Completed(launch.binding, status), None, io, None);
      var t := NotifyStep(codec, s, Completed(launch.binding, status), io).0;
      AppendSilent(codec, t.(pending := None), Release(launch.binding));
    }
  }

  lemma CancelKeeps(codec: Codec, s: ObserverState, launch: PreparedLaunch, pid: u32, status: ExitStatus,
                    io: ExchangeIo)
    requires Sound(codec, s)
    ensures var t := CancelStep(codec, s, launch, pid, status, io).0;
            Sound(codec, t) && Routes(t.trace) == Routes(s.trace) && t.failed
  {
    FailKeeps(codec, s);
    AppendSilent(codec, s.Fail(), Release(launch.binding));
    if Owns(s, launch, AwaitingExit) {
      LifecycleKeeps(codec, s, Cancelled(launch.binding, pid, status), None, io, None);
      var t := NotifyStep(codec, s, Cancelled(launch.binding, pid, status), io).0;
      AppendSilent(codec, t.(pending := None).Fail(), Release(launch.binding));
    }
  }

  lemma RouteRejectedOrder(codec: Codec, s: ObserverState, t: ObserverState, e: Entry)
    requires OrderOk(s) && !s.failed && s.pending.None?
    requires e.Exchange? && e.event.Route? && e.event.intent.binding.operation == s.operation + 1 && e.outcome.Rejected?
    requires t.trace == s.trace + [e] && t.pending.None? && s.nonces <= t.nonces && t.failed
    requires (t.operation == s.operation || t.operation == s.operation + 1) && s.operation < MAX_OPERATIONS
    ensures OrderOk(t)
  {
    AppendExchange(codec, s.trace, e);
    assert Routes(t.trace) == UpTo(s.operation) + [s.operation + 1] == UpTo(s.operation + 1);
    forall operation: nat | operation >= 1 ensures KindsOk(t, operation, Kinds(t.trace, operation)) {
      KindsAppend(codec, s.trace, e, operation);
      assert KindsOk(s, operation, Kinds(s.trace, operation));
      assert About(e, operation) <==> operation == s.operation + 1;
    }
  }

  /** The effect of a rejected route request on an unfailed observer, up to the failure latch. */
  lemma RouteRejected(codec: Codec, s: ObserverState, t: ObserverState, e: Entry)
    requires Sound(codec, s) && !s.failed && s.pending.None?
    requires e.Exchange? && e.event.Route? && e.event.intent.binding.operation == s.operation + 1 && e.outcome.Rejected?
    requires t.channel.Within() && t.trace == s.trace + [e] && t.pending.None? && s.nonces <= t.nonces
    requires WireOk(codec, t)
    requires s.operation < MAX_OPERATIONS
    requires t.operation == s.operation || (t.operation == s.operation + 1 && e.delivery.Sent?)
    requires !e.delivery.Sent? ==> codec.event(e.event).None? || t.channel.failed
    ensures Sound(codec, t.Fail())
  {
    RouteRejectedOrder(codec, s, t.Fail(), e);
    SentStep(codec, s, t.Fail(), e);
  }

  predicate Admitted(s: ObserverState, t: ObserverState, e: Entry) {
    && e.Exchange? && e.event.Route? && e.event.intent.binding.Valid()
    && e.event.intent.binding.operation == s.operation + 1
    && e.outcome.Accepted? && e.outcome.response.Routing? && e.outcome.response.nonce !in s.nonces
    && t.trace == s.trace + [e] && !t.failed
    && t.operation == s.operation + 1 && t.nonces == s.nonces + {e.outcome.response.nonce}
    && t.pending.Some? && t.pending.value.binding == e.event.intent.binding && t.pending.value.phase.AwaitingIntent?
  }

  lemma RouteAcceptedOrder(codec: Codec, s: ObserverState, t: ObserverState, e: Entry)
    requires OrderOk(s) && !s.failed && s.pending.None? && Admitted(s, t, e)
    ensures OrderOk(t)
  {
    AppendExchange(codec, s.trace, e);
    assert Nonces(t.trace) == Nonces(s.trace) + [e.outcome.response.nonce];
    forall operation: nat | operation >= 1 ensures KindsOk(t, operation, Kinds(t.trace, operation)) {
      KindsAppend(codec, s.trace, e, operation);
      assert KindsOk(s, operation, Kinds(s.trace, operation));
      assert About(e, operation) <==> operation == s.operation + 1;
    }
    assert Routes(t.trace) == UpTo(s.operation) + [s.operation + 1] == UpTo(s.operation + 1);
  }

  lemma RouteAccepted(codec: Codec, s: ObserverState, t: ObserverState, e: Entry)
    requires Sound(codec, s) && !s.failed && s.pending.None? && Admitted(s, t, e)
    requires t.channel.Within() && WireOk(codec, t) && !t.channel.failed && t.channel.frames == s.channel.frames + 2
    requires e.delivery.Sent?
    ensures Sound(codec, t)
  {
    SentStep(codec, s, t, e);
    RouteAcceptedOrder(codec, s, t, e);
    AppendExchange(codec, s.trace, e);
  }

  /** A failed or pending observer sends no route at all. */
  lemma RouteKeeps(codec: Codec, s: ObserverState, command: Command, binding: Binding, inherit: bool, amb: Ambient,
                   io: ExchangeIo, farewell: ExchangeIo)
    requires Sound(codec, s)
    ensures var (t, r) := RouteStep(codec, s, command, binding, inherit, amb, io, farewell);
            && Sound(codec, t) && (r.Some? <==> !t.failed)
            && (r.Some? ==> !s.failed && s.pending.None?)
            && (s.failed || s.pending.Some? ==> Routes(t.trace) == Routes(s.trace))
  {
    RouteInnerKeeps(codec, s, command, binding, inherit, amb, io);
    var (t, r) := RouteInner(codec, s, command, binding, inherit, amb, io);
    if r.None? { NotifyUnavailable(codec, t.Fail(), binding, farewell); }
  }

  lemma RouteInnerKeeps(codec: Codec, s: ObserverState, command: Command, binding: Binding, inherit: bool, amb: Ambient,
                        io: ExchangeIo)
    requires Sound(codec, s)
    ensures var (t, r) := RouteInner(codec, s, command, binding, inherit, amb, io);
            && (r.Some? ==> Sound(codec, t) && !t.failed) && (r.None? ==> Sound(codec, t.Fail()))
            && (r.Some? ==> !s.failed && s.pending.None?)
            && (s.failed || s.pending.Some? ==> t == s)
  {
    var request := Present(codec, command, binding, inherit, amb);
    PresentIsValid(codec, command, binding, inherit, amb);
    if Routable(s, binding) && request.Some? {
      RequestKeeps(codec, s, request.value.0, request.value.1, amb, io);
    } else {
      FailKeeps(codec, s);
    }
  }

  lemma RequestKeeps(codec: Codec, s: ObserverState, frozen: Command, intent: CommandIntent, amb: Ambient,
                     io: ExchangeIo)
    requires Sound(codec, s) && codec.intent(intent).Some? && Routable(s, intent.binding) && intent.binding.Valid()
    ensures var (t, r) := Request(codec, s, frozen, intent, amb, io);
            (r.Some? ==> Sound(codec, t) && !t.failed) && (r.None? ==> Sound(codec, t.Fail()))
  {
    var event := RouteEvent(codec, intent);
    if codec.event(event).None? {
      var e := Exchange(event, None, Unsent, Rejected);
      WireUnsent(codec, s, e);
      RouteRejected(codec, s, s.Log(e), e);
    } else {
      SettleKeeps(codec, s, intent, Frame(codec.event(event).value, false), frozen, amb, io);
    }
  }

  lemma PresentIsValid(codec: Codec, command: Command, binding: Binding, inherit: bool, amb: Ambient)
    ensures Present(codec, command, binding, inherit, amb).Some? ==> binding.Valid()
  {
  }

  lemma SettleKeeps(codec: Codec, s: ObserverState, intent: CommandIntent, f: Frame, frozen: Command, amb: Ambient,
                    io: ExchangeIo)
    requires Sound(codec, s) && codec.intent(intent).Some? && Routable(s, intent.binding) && intent.binding.Valid()
    requires codec.event(RouteEvent(codec, intent)) == Some(f.body) && !f.descriptor
    ensures var (channel, delivery, reply) := Converse(s.channel, f, io);
            var (t, r) := Settle(codec, s.(channel := channel), intent, delivery, frozen, amb, reply);
            (r.Some? ==> Sound(codec, t) && !t.failed) && (r.None? ==> Sound(codec, t.Fail()))
  {
    var event := RouteEvent(codec, intent);
    var (channel, delivery, reply) := Converse(s.channel, f, io);
    ConverseEffect(s.channel, f, io);
    var u := s.(channel := channel);
    var (t, r) := Settle(codec, u, intent, delivery, frozen, amb, reply);
    SettleEffect(codec, u, intent, delivery, frozen, amb, reply);
    var e := Last(t.trace);
    WireStep(codec, s, e, f, io);
    if r.Some? { RouteAccepted(codec, s, t, e); } else { RouteRejected(codec, s, t, e); }
  }

  /** What a refused reply leaves: one rejected entry, and a nonce and an operation at most. */
  predicate Refused(u: ObserverState, t: ObserverState, reply: Option<Bytes>)
    requires t.trace != [] && Last(t.trace).Exchange?
  {
    && Last(t.trace).outcome.Rejected? && t.pending == u.pending && u.nonces <= t.nonces
    && (t.operation == u.operation || (t.operation == u.operation + 1 && reply.Some?))
  }

  /**
   What an admitted reply leaves: an accepted entry, a fresh nonce spent, the operation counted, its intent pending.
   */
  predicate Taken(u: ObserverState, t: ObserverState, binding: Binding)
    requires t.trace != [] && Last(t.trace).Exchange?
  {
    var e := Last(t.trace);
    && e.outcome.Accepted? && e.outcome.response.Routing? && e.outcome.response.nonce !in u.nonces
    && t.nonces == u.nonces + {e.outcome.response.nonce} && t.operation == u.operation + 1
    && t.pending.Some? && t.pending.value.binding == binding && t.pending.value.phase.AwaitingIntent?
  }

  /** One entry for the route, nothing else of the observer touched but what the verdict says. */
  predicate OneRoute(u: ObserverState, t: ObserverState, event: Event, delivery: Delivery) {
    && |t.trace| == |u.trace| + 1
    && var e := Last(t.trace);
       && t.trace == u.trace + [e] && e.Exchange? && e.event == event && e.carrier.None? && e.delivery == delivery
       && t.channel == u.channel && t.failed == u.failed
  }

  lemma CommitEffect(codec: Codec, u: ObserverState, event: Event, delivery: Delivery, final: Command, fi: FinalIntent,
                     response: Response, reply: Option<Bytes>)
    requires response.Routing? && response.nonce == fi.nonce && fi.nonce !in u.nonces && reply.Some?
    ensures var (t, r) := Commit(codec, u, event, delivery, final, fi, response);
            && OneRoute(u, t, event, delivery)
            && (r.None? ==> Refused(u, t, reply)) && (r.Some? ==> Taken(u, t, event.Subject()))
  {
  }

  lemma RejectEffect(u: ObserverState, event: Event, delivery: Delivery, reply: Option<Bytes>)
    ensures var t := u.Log(Exchange(event, None, delivery, Rejected));
            OneRoute(u, t, event, delivery) && Refused(u, t, reply)
  {
  }

  lemma SettleEffect(codec: Codec, u: ObserverState, intent: CommandIntent, delivery: Delivery, frozen: Command,
                     amb: Ambient, reply: Option<Bytes>)
    requires codec.intent(intent).Some?
    ensures var (t, r) := Settle(codec, u, intent, delivery, frozen, amb, reply);
            && OneRoute(u, t, RouteEvent(codec, intent), delivery)
            && (r.None? ==> Refused(u, t, reply))
            && (r.Some? ==> reply.Some? && Taken(u, t, intent.binding))
  {
    hide Overlay, Present, Commit, OneRoute, Refused, Taken, NonceOk, OverlayOk;
    var event := RouteEvent(codec, intent);
    RejectEffect(u, event, delivery, reply);
    var response := if reply.None? then None else codec.response(reply.value);
    if response.Some? && Admits(codec, u, response.value, intent.binding, event.requestDigest) {
      var shown := Present(codec, Overlay(frozen, response.value.environment), intent.binding, false, amb);
      if shown.Some? {
        CommitEffect(codec, u, event, delivery, shown.value.0,
                     FinalIntent(shown.value.1, response.value.nonce,
                                 codec.sha256(reply.value)), response.value, reply);
      }
    }
  }
}
