/**
 What a route does to the caller's command, name by name, and exactly when it succeeds: stated on the command, its
 surroundings, the peer's reply and the kernel's answers, without the functions the operations are made of.
 */
module LaunchCommands {
  import opened Bytes
  import opened Transport
  import opened LaunchIntent
  import opened LaunchObserver

  // ----- paths -----

  const SLASH: nat := 47

  function FirstSlash(s: Bytes): (k: nat)
    ensures k <= |s| && (k < |s| ==> s[k] == SLASH) && forall i :: 0 <= i < k ==> s[i] != SLASH
  {
    if s == [] || s[0] == SLASH then 0 else 1 + FirstSlash(s[1..])
  }

  /** The names a path goes through. */
  function Components(path: Bytes): seq<Bytes>
    decreases |path|
  {
    var k := FirstSlash(path);
    if k == |path| then (if path == [] then [] else [path])
    else (if k == 0 then [] else [path[..k]]) + Components(path[k + 1..])
  }

  lemma {:induction false} FirstSlashIs(s: Bytes, k: nat)
    requires k < |s| && s[k] == SLASH && forall i :: 0 <= i < k ==> s[i] != SLASH
    ensures FirstSlash(s) == k
  {
    if k > 0 { FirstSlashIs(s[1..], k - 1); }
  }

  lemma ComponentsAt(s: Bytes, k: nat)
    requires k < |s| && s[k] == SLASH && forall i :: 0 <= i < k ==> s[i] != SLASH
    ensures Components(s) == (if k == 0 then [] else [s[..k]]) + Components(s[k + 1..])
  {
    hide FirstSlash;
    FirstSlashIs(s, k);
  }

  lemma ComponentsLast(s: Bytes)
    requires FirstSlash(s) == |s|
    ensures Components(s) == if s == [] then [] else [s]
  {
    hide FirstSlash;
  }

  lemma {:induction false} ComponentsConcat(a: Bytes, b: Bytes)
    ensures Components(a + [SLASH] + b) == Components(a) + Components(b)
    decreases |a|
  {
    hide Components, FirstSlash;
    var whole, k := a + [SLASH] + b, FirstSlash(a);
    assert forall i :: 0 <= i < |a| ==> whole[i] == a[i];
    ComponentsAt(whole, k);
    assert whole[..k] == a[..k];
    if k == |a| {
      ComponentsLast(a);
      assert whole[k + 1..] == b && a[..k] == a;
    } else {
      ComponentsAt(a, k);
      ComponentsConcat(a[k + 1..], b);
      assert whole[k + 1..] == a[k + 1..] + [SLASH] + b;
    }
  }

  lemma NoComponents()
    ensures Components([]) == []
  {
  }

  /** Joining appends the components of a relative path, and an absolute path stands for itself. */
  lemma JoinMeaning(base: Bytes, path: Bytes)
    ensures Absolute(path) ==> Join(base, path) == path
    ensures !Absolute(path) ==>
              && Components(Join(base, path)) == Components(base) + Components(path)
              && base <= Join(base, path) && |Join(base, path)| <= |base| + 1 + |path|
              && (Absolute(base) ==> Absolute(Join(base, path)))
  {
    hide Components;
    if !Absolute(path) {
      if base != [] && base[|base| - 1] == SLASH {
        var front := base[..|base| - 1];
        assert base == front + [SLASH] + [] && base + path == front + [SLASH] + path;
        ComponentsConcat(front, []);
        ComponentsConcat(front, path);
        NoComponents();
      } else {
        ComponentsConcat(base, path);
      }
    }
  }

  // ----- a command after inheritance and changes -----

  function ValueOf(c: Command, n: Bytes): Option<Bytes> {
    if n in c.env then c.env[n] else None
  }

  /** What a name is before any change: the command's own word on it, else the surroundings' when it inherits. */
  function Asked(c: Command, inherit: bool, amb: Ambient, n: Bytes): Option<Bytes> {
    if n in c.env then c.env[n] else if inherit && n in amb.env then Some(amb.env[n]) else None
  }

  /** A change decides its own name; other names stay. */
  predicate Decided(changes: seq<EnvironmentChange>, n: Bytes, before: Option<Bytes>, after: Option<Bytes>) {
    && (forall i :: 0 <= i < |changes| && changes[i].name == n ==> after == changes[i].value)
    && ((forall i :: 0 <= i < |changes| ==> changes[i].name != n) ==> after == before)
  }

  /** The directory a path names from `here`. */
  predicate Reached(path: Option<Bytes>, here: Option<Bytes>, cwd: Bytes) {
    match path
    case None => here == Some(cwd)
    case Some(p) =>
      if p != [] && p[0] == SLASH then cwd == p
      else
        here.Some? && cwd == if here.value != [] && here.value[|here.value| - 1] == SLASH then here.value + p
                             else here.value + [SLASH] + p
  }

  /** `d` runs what `c` asks for with `changes`: program, arguments, directory, and every name of the environment. */
  ghost predicate Carries(c: Command, inherit: bool, amb: Ambient, changes: seq<EnvironmentChange>, d: Command) {
    && d.program == c.program && d.args == c.args && d.argv0 == Some(c.program) && d.cleared
    && d.cwd.Some? && Reached(c.cwd, amb.cwd, d.cwd.value)
    && (forall n :: n in d.env ==> d.env[n].Some?)
    && forall n :: Decided(changes, n, Asked(c, inherit, amb, n), ValueOf(d, n))
  }

  lemma DecidedOnce(changes: seq<EnvironmentChange>, n: Bytes, before: Option<Bytes>, a: Option<Bytes>,
                    b: Option<Bytes>)
    requires Decided(changes, n, before, a) && Decided(changes, n, before, b)
    ensures a == b
  {
    if i :| 0 <= i < |changes| && changes[i].name == n {
    } else {
      assert forall i :: 0 <= i < |changes| ==> changes[i].name != n;
    }
  }

  /** There is only one such command. */
  lemma CarriesOnce(c: Command, inherit: bool, amb: Ambient, changes: seq<EnvironmentChange>, d: Command, e: Command)
    requires Carries(c, inherit, amb, changes, d) && Carries(c, inherit, amb, changes, e)
    ensures d == e
  {
    hide Asked, Decided;
    forall n ensures (n in d.env <==> n in e.env) && (n in d.env ==> d.env[n] == e.env[n]) {
      DecidedOnce(changes, n, Asked(c, inherit, amb, n), ValueOf(d, n), ValueOf(e, n));
    }
    assert d.env == e.env;
  }

  lemma ResolveReaches(c: Command, amb: Ambient)
    requires amb.Real()
    ensures ResolveCwd(c, amb).None? ==> forall cwd :: !Reached(c.cwd, amb.cwd, cwd)
    ensures ResolveCwd(c, amb).Some? ==>
              Reached(c.cwd, amb.cwd, ResolveCwd(c, amb).value) && Absolute(ResolveCwd(c, amb).value)
  {
  }

  /** The frozen form of a command carries it unchanged. */
  lemma FrozenCarries(c: Command, inherit: bool, amb: Ambient)
    requires amb.Real() && ResolveCwd(c, amb).Some?
    ensures var d := Frozen(c, ResolveCwd(c, amb).value, EnvironmentOf(c, inherit, amb));
            Carries(c, inherit, amb, [], d) && Explicit(d) == EnvironmentOf(c, inherit, amb) && Absolute(d.cwd.value)
  {
    hide ResolveCwd;
    ResolveReaches(c, amb);
  }

  /** Applying distinctly named changes to what carries a command, and freezing again, carries the changes too. */
  lemma ChangedCarries(c: Command, inherit: bool, amb: Ambient, d: Command, changes: seq<EnvironmentChange>)
    requires Carries(c, inherit, amb, [], d) && DistinctNames(changes) && Absolute(d.cwd.value)
    ensures var o := Overlay(d, changes);
            && Carries(c, inherit, amb, changes, o) && ResolveCwd(o, amb) == d.cwd
            && Frozen(o, d.cwd.value, EnvironmentOf(o, false, amb)) == o
  {
    hide Overlay, Asked, Reached;
    OverlayMeaning(d, changes);
    var o := Overlay(d, changes);
    forall n ensures Decided(changes, n, Asked(c, inherit, amb, n), ValueOf(o, n)) {
      assert Decided([], n, Asked(c, inherit, amb, n), ValueOf(d, n));
    }
    forall n | n in o.env ensures o.env[n].Some? {
      if i :| 0 <= i < |changes| && changes[i].name == n {
      } else {
        assert n in d.env && o.env[n] == d.env[n];
      }
    }
    FrozenAlready(o, d.cwd.value);
  }

  lemma FrozenAlready(o: Command, cwd: Bytes)
    requires o.cleared && o.argv0 == Some(o.program) && o.cwd == Some(cwd) && forall n :: n in o.env ==> o.env[n].Some?
    ensures Frozen(o, cwd, Explicit(o)) == o
  {
    assert Frozen(o, cwd, Explicit(o)).env == o.env;
  }

  // ----- a request answered -----

  /**
   The whole frame is accepted and the peer's stream starts with one plain frame, within time and the session budgets.
   */
  predicate Answered(c: ChannelState, f: Frame, io: ExchangeIo, reply: Bytes) {
    && !c.failed && io.send.elapsed < c.remaining
    && 0 < |f.body| <= MAX_EVENT_BYTES && io.send.accepted >= |f.body| + 5
    && 0 < |reply| <= MAX_EVENT_BYTES && EncodeFrame(Frame(reply, false)) <= io.receive.stream
    && c.bytes + (|f.body| + 5) + (|reply| + 5) <= MAX_SESSION_BYTES && c.frames + 2 <= MAX_FRAMES
  }

  /** A request has a reply exactly when it is answered, and then the channel is open with both frames charged. */
  lemma AnsweredExact(c: ChannelState, f: Frame, io: ExchangeIo, reply: Bytes)
    ensures var (d, delivery, got) := Converse(c, f, io);
            && (got == Some(reply) <==> Answered(c, f, io, reply))
            && (got == Some(reply) ==>
                  && delivery.Sent? && !d.failed && d.wire == c.wire + EncodeFrame(f)
                  && d.bytes == c.bytes + |f.body| + |reply| + 10 && d.frames == c.frames + 2)
  {
    hide DecodeFrame, EncodeFrame, AnnouncedLength, ReceiveStep;
    var (sent, delivery) := SendStep(c, f, io.send);
    ReceiveExact(sent, io.receive, Frame(reply, false));
    ReceiveCharges(sent, io.receive);
  }

  /** A whole reply charges its frame and nothing else. */
  lemma ReceiveCharges(c: ChannelState, io: ReceiveIo)
    ensures var (d, got) := ReceiveStep(c, io);
            got.Some? ==>
              d.wire == c.wire && !d.failed && d.bytes == c.bytes + 5 + |got.value.body| && d.frames == c.frames + 1
  {
  }

  /** An event is acknowledged exactly when it encodes and is answered by its own acknowledgement. */
  lemma AcknowledgedExact(codec: Codec, s: ObserverState, event: Event, carrier: Option<Bytes>, io: ExchangeIo)
    ensures ExchangeStep(codec, s, event, carrier, io).1 <==>
              && codec.event(event).Some?
              && exists reply :: && Answered(s.channel, Frame(codec.event(event).value, carrier.Some?), io, reply)
                                 && codec.response(reply)
                                    == Some(Acknowledged(event.Subject(), codec.sha256(codec.event(event).value)))
  {
    hide Converse, Answered;
    match codec.event(event)
    case None =>
    case Some(bytes) =>
      var f := Frame(bytes, carrier.Some?);
      forall reply
        ensures Converse(s.channel, f, io).2 == Some(reply) <==> Answered(s.channel, f, io, reply)
      {
        AnsweredExact(s.channel, f, io, reply);
      }
      var reply := Converse(s.channel, f, io).2;
      if reply.Some? { assert Answered(s.channel, f, io, reply.value); }
  }

  // ----- when a route succeeds, and what it hands back -----

  /** What describes a frozen command to the peer. */
  ghost function Intended(codec: Codec, d: Command, binding: Binding): CommandIntent {
    CommandIntent(binding, d.program, [d.program] + d.args, if d.cwd.Some? then d.cwd.value else [],
                  EnvironmentDigest(codec.sha256(Preimage(Listing(Explicit(d)))), |Explicit(d)|, EnvBytes(Explicit(d)),
                                    true))
  }

  /** A frozen command within every bound of freezing and describing. */
  ghost predicate Presentable(codec: Codec, d: Command, binding: Binding) {
    && d.cwd.Some? && binding.Valid() && EnvironmentFits(Explicit(d)) && |d.program| <= MAX_COMMAND_BYTES
    && ArgvOk([d.program] + d.args) && ArgvBytes([d.program] + d.args) + |d.cwd.value| <= MAX_COMMAND_BYTES
    && codec.intent(Intended(codec, d, binding)).Some?
  }

  /** Describing a frozen command that fits its environment succeeds exactly when it is presentable. */
  lemma DescribeExact(codec: Codec, d: Command, binding: Binding, amb: Ambient)
    requires IsFrozen(d) && EnvironmentFits(Explicit(d)) && |d.program| <= MAX_COMMAND_BYTES
    ensures Describe(codec, d, binding, amb)
         == if Presentable(codec, d, binding) then Some(Intended(codec, d, binding)) else None
  {
    hide Preimage, Listing, EnvBytes, Explicit, ArgvOk, ArgvBytes, EntriesOk;
    assert ResolveCwd(d, amb) == d.cwd;
  }

  lemma CarriedIsFrozen(c: Command, inherit: bool, amb: Ambient, changes: seq<EnvironmentChange>, d: Command)
    requires amb.Real() && Carries(c, inherit, amb, changes, d)
    ensures IsFrozen(d)
  {
    hide Decided, Asked;
  }

  /** Freezing and describing succeed exactly on what is presentable once it carries the command. */
  lemma PresentExact(codec: Codec, c: Command, binding: Binding, inherit: bool, amb: Ambient, d: Command)
    requires amb.Real() && Carries(c, inherit, amb, [], d)
    ensures Present(codec, c, binding, inherit, amb)
         == if Presentable(codec, d, binding) then Some((d, Intended(codec, d, binding))) else None
  {
    hide Carries, Describe, Intended, EnvironmentOf, ResolveCwd, Explicit, EnvironmentFits, Frozen;
    CarriedResolves(c, inherit, amb, d);
    CarriedIsFrozen(c, inherit, amb, [], d);
    if Freeze(c, inherit, amb).Some? { DescribeExact(codec, d, binding, amb); }
  }

  lemma CarriedResolves(c: Command, inherit: bool, amb: Ambient, d: Command)
    requires amb.Real() && Carries(c, inherit, amb, [], d)
    ensures ResolveCwd(c, amb) == d.cwd && Frozen(c, d.cwd.value, EnvironmentOf(c, inherit, amb)) == d
    ensures Explicit(d) == EnvironmentOf(c, inherit, amb) && d.program == c.program
  {
    hide ResolveCwd, Frozen, EnvironmentOf, Asked, Decided, Explicit;
    ResolveReaches(c, amb);
    FrozenCarries(c, inherit, amb);
    CarriesOnce(c, inherit, amb, [], d, Frozen(c, ResolveCwd(c, amb).value, EnvironmentOf(c, inherit, amb)));
  }

  /** What a command is presented as carries it and is presentable. */
  lemma PresentCarries(codec: Codec, c: Command, binding: Binding, inherit: bool, amb: Ambient)
    requires amb.Real() && Present(codec, c, binding, inherit, amb).Some?
    ensures Carries(c, inherit, amb, [], Present(codec, c, binding, inherit, amb).value.0)
  {
    hide Carries, Describe, ResolveCwd, EnvironmentOf, EnvironmentFits;
    FrozenCarries(c, inherit, amb);
  }

  /** The same once more, with the changes of a reply. */
  lemma ChangedPresent(codec: Codec, c: Command, binding: Binding, inherit: bool, amb: Ambient, d: Command,
                       changes: seq<EnvironmentChange>)
    requires amb.Real() && Carries(c, inherit, amb, [], d) && DistinctNames(changes)
    ensures var o := Overlay(d, changes);
            && Carries(c, inherit, amb, changes, o)
            && Present(codec, o, binding, false, amb)
               == if Presentable(codec, o, binding) then Some((o, Intended(codec, o, binding))) else None
  {
    hide Describe, Overlay, Asked, Decided, Present, Presentable, Intended;
    CarriedIsFrozen(c, inherit, amb, [], d);
    ChangedCarries(c, inherit, amb, d, changes);
    var o := Overlay(d, changes);
    SelfCarries(o, amb);
    PresentExact(codec, o, binding, false, amb, o);
  }

  /** What is frozen carries itself. */
  lemma SelfCarries(o: Command, amb: Ambient)
    requires IsFrozen(o)
    ensures Carries(o, false, amb, [], o)
  {
  }

  predicate Free(s: ObserverState, binding: Binding) {
    !s.failed && s.pending.None? && binding.root == s.root && binding.operation == s.operation + 1
  }

  /**
   A reply a route takes: its own binding and digest, a fresh nonce of 64 digits, and bounded, well-formed changes.
   */
  predicate Routes(s: ObserverState, response: Response, binding: Binding, digest: Bytes) {
    && response.Routing? && response.binding == binding && response.requestDigest == digest
    && |response.nonce| == 64 && response.nonce !in s.nonces
    && (forall i :: 0 <= i < 64 ==> 48 <= response.nonce[i] <= 57 || 97 <= response.nonce[i] <= 102)
    && |response.environment| <= MAX_OVERLAY_ENTRIES && ChangeBytes(response.environment) <= MAX_OVERLAY_BYTES
    && (forall i, j :: 0 <= i < j < |response.environment| ==>
          response.environment[i].name != response.environment[j].name)
    && forall i :: 0 <= i < |response.environment| ==>
         var change := response.environment[i];
         && change.name != [] && 0 !in change.name && 61 !in change.name
         && (change.value.Some? ==> 0 !in change.value.value)
  }

  /** The request is described and answered by changes under which the command stays presentable. */
  ghost predicate Granted(codec: Codec, s: ObserverState, c: Command, binding: Binding, inherit: bool, amb: Ambient,
                          io: ExchangeIo, d: Command, reply: Bytes, final: Command)
  {
    && Carries(c, inherit, amb, [], d) && Presentable(codec, d, binding)
    && var intent := Intended(codec, d, binding);
       var digest := codec.sha256(codec.intent(intent).value);
       var event := Route(intent, digest);
       && codec.event(event).Some?
       && Answered(s.channel, Frame(codec.event(event).value, false), io, reply)
       && codec.response(reply).Some?
       && var response := codec.response(reply).value;
          && Routes(s, response, binding, digest)
          && Carries(c, inherit, amb, response.environment, final) && Presentable(codec, final, binding)
          && codec.finalIntent(Agreed(codec, reply, final, binding)).Some?
  }

  ghost function Agreed(codec: Codec, reply: Bytes, final: Command, binding: Binding): FinalIntent
    requires codec.response(reply).Some? && codec.response(reply).value.Routing?
  {
    FinalIntent(Intended(codec, final, binding), codec.response(reply).value.nonce, codec.sha256(reply))
  }

  /** A granted route hands back the command with its changes, and binds the next operation to it. */
  lemma GrantedRoutes(codec: Codec, s: ObserverState, c: Command, binding: Binding, inherit: bool, amb: Ambient,
                      io: ExchangeIo, farewell: ExchangeIo, d: Command, reply: Bytes, final: Command)
    requires amb.Real() && Free(s, binding) && Granted(codec, s, c, binding, inherit, amb, io, d, reply, final)
    ensures var (t, r) := RouteStep(codec, s, c, binding, inherit, amb, io, farewell);
            var response, agreed := codec.response(reply).value, Agreed(codec, reply, final, binding);
            var intent := Intended(codec, d, binding);
            && r == Some((final, RoutedIntent(agreed, s.session)))
            && t.trace == s.trace + [Exchange(Route(intent, codec.sha256(codec.intent(intent).value)), None, Sent,
                                              Accepted(response))]
            && t.pending
               == Some(Pending(binding, codec.sha256(codec.finalIntent(agreed).value), AwaitingIntent))
            && t.operation == binding.operation && t.nonces == s.nonces + {response.nonce} && !t.failed
            && t.channel == Converse(s.channel, Frame(codec.event(t.trace[|s.trace|].event).value, false), io).0
  {
    hide Carries, Presentable, Intended, Present, Answered, Converse, Overlay;
    PresentExact(codec, c, binding, inherit, amb, d);
    var intent := Intended(codec, d, binding);
    var event := Route(intent, codec.sha256(codec.intent(intent).value));
    AnsweredExact(s.channel, Frame(codec.event(event).value, false), io, reply);
    var response := codec.response(reply).value;
    ChangedPresent(codec, c, binding, inherit, amb, d, response.environment);
    CarriesOnce(c, inherit, amb, response.environment, final, Overlay(d, response.environment));
  }

  /** A route succeeds exactly when it is granted. */
  lemma RouteExact(codec: Codec, s: ObserverState, c: Command, binding: Binding, inherit: bool, amb: Ambient,
                   io: ExchangeIo, farewell: ExchangeIo)
    requires amb.Real()
    ensures RouteStep(codec, s, c, binding, inherit, amb, io, farewell).1.Some? <==>
              Free(s, binding) && exists d, reply, final ::
                Granted(codec, s, c, binding, inherit, amb, io, d, reply, final)
  {
    hide Granted;
    if Free(s, binding) {
      if d, reply, final :| Granted(codec, s, c, binding, inherit, amb, io, d, reply, final) {
        GrantedRoutes(codec, s, c, binding, inherit, amb, io, farewell, d, reply, final);
      } else if RouteStep(codec, s, c, binding, inherit, amb, io, farewell).1.Some? {
        var d, reply, final := RoutedIsGranted(codec, s, c, binding, inherit, amb, io, farewell);
      }
    }
  }

  /** What a route hands back was granted by the reply received. */
  lemma RoutedIsGranted(codec: Codec, s: ObserverState, c: Command, binding: Binding, inherit: bool, amb: Ambient,
                        io: ExchangeIo, farewell: ExchangeIo)
    returns (d: Command, reply: Bytes, final: Command)
    requires amb.Real() && RouteStep(codec, s, c, binding, inherit, amb, io, farewell).1.Some?
    ensures Free(s, binding) && Granted(codec, s, c, binding, inherit, amb, io, d, reply, final)
  {
    hide Carries, Presentable, Intended, Present, Answered, Converse, Overlay;
    PresentCarries(codec, c, binding, inherit, amb);
    d := Present(codec, c, binding, inherit, amb).value.0;
    PresentExact(codec, c, binding, inherit, amb, d);
    var intent := Intended(codec, d, binding);
    var event := Route(intent, codec.sha256(codec.intent(intent).value));
    var f := Frame(codec.event(event).value, false);
    reply := Converse(s.channel, f, io).2.value;
    AnsweredExact(s.channel, f, io, reply);
    var response := codec.response(reply).value;
    ChangedPresent(codec, c, binding, inherit, amb, d, response.environment);
    final := Overlay(d, response.environment);
  }
}
