/**
 What a session spawns is what its caller asked for: over every run, the command of each spawned process is one that a
 launch was begun with, carried through flags, label, inheritance and the peer's accepted changes.
 */
module CargoCommands {
  import opened Bytes
  import opened LaunchIntent
  import opened LaunchObserver
  import opened LaunchHistory
  import opened CargoLaunch
  import opened CargoRuns
  import opened CargoOutcomes
  import opened LaunchCommands

  // ----- the numbered command -----

  /** Flags and label decide their own names; nothing else of the command changes. */
  lemma LabelledMeaning(s: SessionState, command: Command, flags: seq<EnvironmentChange>, amb: Ambient, n: Bytes)
    requires !command.cleared && DistinctNames(flags)
    ensures var d := Labelled(s, command, flags);
            && d.program == command.program && d.args == command.args && d.cwd == command.cwd && !d.cleared
            && if n == REQUEST_ENV then Asked(d, true, amb, n) == Some(RequestLabel(s.name, s.ordinal))
               else Decided(flags, n, Asked(command, true, amb, n), Asked(d, true, amb, n))
  {
    hide Ascii, RequestLabel;
    FlagsMeaning(command, flags, amb, n);
  }

  /** Each flag change decides its own name, in turn. */
  lemma {:induction false} FlagsMeaning(command: Command, flags: seq<EnvironmentChange>, amb: Ambient, n: Bytes)
    requires !command.cleared && DistinctNames(flags)
    ensures var d := Overlay(command, flags);
            && d == command.(env := d.env) && Decided(flags, n, Asked(command, true, amb, n), Asked(d, true, amb, n))
    decreases |flags|
  {
    if flags != [] {
      var front, last := flags[..|flags| - 1], flags[|flags| - 1];
      FlagsMeaning(command, front, amb, n);
      assert forall i :: 0 <= i < |front| ==> front[i] == flags[i];
      if last.name != n {
        assert (forall i :: 0 <= i < |front| ==> front[i].name != n)
            <==> (forall i :: 0 <= i < |flags| ==> flags[i].name != n);
      }
    }
  }

  // ----- one launch -----

  /** Entry `e` is the accepted route of `binding` that carries `command` to `final`. */
  ghost predicate RoutedAs(e: Entry, binding: Binding, command: Command, amb: Ambient, final: Command) {
    && e.Exchange? && e.event.Route? && e.event.intent.binding == binding
    && e.outcome.Accepted? && e.outcome.response.Routing?
    && Carries(command, true, amb, e.outcome.response.environment, final)
  }

  /** The session holds the routed intent of that entry. */
  predicate RoutedTo(t: SessionState, e: Entry) {
    && e.Exchange? && e.event.Route? && t.routed.Some?
    && t.routed.value.final.intent.binding == e.event.intent.binding
  }

  /** A session's route hands on the command it was given, with the changes of its reply. */
  lemma RouteSessionCarries(codec: Codec, s: SessionState, command: Command, input: BeginInput, io: RouteIo)
    returns (e: Entry)
    requires s.observer.Some? && input.amb.Real() && RouteSession(codec, s, command, input, io).1.Some?
    ensures var (t, r) := RouteSession(codec, s, command, input, io);
            && t.observer.Some? && t.observer.value.trace == s.observer.value.trace + [e]
            && RoutedAs(e, NextBinding(s, input.kind, s.observer.value.root), command, input.amb, r.value)
            && RoutedTo(t, e)
  {
    hide RouteStep, Carries, Presentable, Answered;
    var o, binding := s.observer.value, NextBinding(s, input.kind, s.observer.value.root);
    var d, reply, final :=
      RoutedIsGranted(codec, o, command, binding, true, input.amb, io.io, io.farewell);
    GrantedRoutes(codec, o, command, binding, true, input.amb, io.io, io.farewell, d, reply, final);
    e := RouteStep(codec, o, command, binding, true, input.amb, io.io, io.farewell).0.trace[|o.trace|];
  }

  ghost function BegunWith(s: SessionState, input: BeginInput): Command
    requires input.flags.Some?
  {
    Labelled(Numbered(s), input.command, input.flags.value)
  }

  ghost predicate BegunAs(s: SessionState, input: BeginInput, e: Entry, final: Command) {
    && s.observer.Some? && input.flags.Some?
    && RoutedAs(e, NextBinding(Numbered(s), input.kind, s.observer.value.root), BegunWith(s, input), input.amb, final)
  }

  /** A begin hands on the command with its flags and label, as its route carries it. */
  lemma BeginCarries(codec: Codec, s: SessionState, input: BeginInput, io: RouteIo) returns (e: Entry)
    requires s.observer.Some? && input.amb.Real() && BeginStep(codec, s, input, io).1.Some?
    ensures var (t, r) := BeginStep(codec, s, input, io);
            && t.observer.Some? && t.observer.value.trace == s.observer.value.trace + [e]
            && BegunAs(s, input, e, r.value.0) && RoutedTo(t, e)
  {
    hide RouteSession, Labelled, RoutedAs;
    e := RouteSessionCarries(codec, Numbered(s), BegunWith(s, input), input, io);
  }

  /** So does a reference pass. */
  lemma ReferenceCarries(codec: Codec, s: SessionState, input: BeginInput, io: RouteIo) returns (e: Entry)
    requires s.observer.Some? && input.amb.Real() && ReferenceStep(codec, s, input, io).1.Some?
    ensures var (t, r) := ReferenceStep(codec, s, input, io);
            && t.observer.Some? && t.observer.value.trace == s.observer.value.trace + [e]
            && BegunAs(s, input, e, r.value.0) && RoutedTo(t, e)
  {
    hide RouteSession, Labelled, RoutedAs;
    e := RouteSessionCarries(codec, Numbered(s), BegunWith(s, input), input, io);
  }

  /** Preparing a frozen command keeps it as it is. */
  lemma PrepareKeepsCommand(codec: Codec, s: ObserverState, command: Command, routed: RoutedIntent, amb: Ambient,
                            sealed: bool, io: ExchangeIo)
    requires IsFrozen(command)
    ensures var launch := PrepareStep(codec, s, command, routed, amb, sealed, io).1;
            launch.Some? ==> launch.value.command == Some(command)
                             && launch.value.binding == routed.final.intent.binding
  {
    hide ExchangeStep, Describe, MatchesPending, EnvironmentFits;
    FrozenAlready(command, command.cwd.value);
    assert ResolveCwd(command, amb) == command.cwd;
  }

  lemma {:induction false} ProcessListed(es: seq<Entry>, k: nat)
    requires k < |es| && (es[k].Spawn? || es[k].SpawnError? || es[k].Wait?)
    ensures es[k] in Processes(es)
    decreases |es|
  {
    var front := es[..|es| - 1];
    if k < |front| { ProcessListed(front, k); }
  }

  lemma RestProcesses(e: Entry, rest: seq<Entry>)
    requires e.Spawn?
    ensures Processes([e] + rest) == [e] + Processes(rest)
  {
    hide Processes;
    QuietNothing();
    NotQuiet(e, []);
    assert [e] + [] == [e];
    ProcessesConcat([e], rest);
  }

  /** Where the first process entry comes first, and no other is a spawn, no later entry is one. */
  lemma OnlyFirstSpawns(e: Entry, rest: seq<Entry>)
    requires e.Spawn?
    requires Processes([e] + rest) == [e] || exists w: Entry :: w.Wait? && Processes([e] + rest) == [e, w]
    ensures NoSpawn(rest)
  {
    hide Processes;
    RestProcesses(e, rest);
    assert ([e] + Processes(rest))[1..] == Processes(rest);
    assert forall w: Entry :: [e, w][1..] == [w];
    forall k | 0 <= k < |rest| ensures !rest[k].Spawn? {
      if rest[k].Spawn? { ProcessListed(rest, k); }
    }
  }

  predicate NoSpawn(es: seq<Entry>) {
    forall k :: 0 <= k < |es| ==> !es[k].Spawn?
  }

  /** The only spawn among the entries is the second, and it is of that command under that binding. */
  predicate SpawnsOnly(es: seq<Entry>, command: Command, binding: Binding) {
    forall k :: 0 <= k < |es| && es[k].Spawn? ==> k == 1 && es[k].command == command && es[k].binding == binding
  }

  /** The start of a routed command spawns at most once, and that very command. */
  lemma StartSpawns(codec: Codec, s: SessionState, command: Command, operation: Option<nat>, input: StartInput,
                    io: StartIo)
    returns (more: seq<Entry>)
    requires s.observer.Some? && s.routed.Some? && IsFrozen(command)
    ensures var c := StartStep(codec, s, command, operation, input, io).0;
            && c.session.observer.Some? && c.session.observer.value.trace == s.observer.value.trace + more
            && SpawnsOnly(more, command, s.routed.value.final.intent.binding)
  {
    hide PrepareStep, Spawning, Processes, IsFrozen, Quiet;
    more := PrepareLog(codec, s.observer.value, command, s.routed.value, input.amb, input.sealed, io.prepare);
    QuietNoSpawn(more);
    PrepareKeepsCommand(codec, s.observer.value, command, s.routed.value, input.amb, input.sealed, io.prepare);
    var (o, launch) :=
      PrepareStep(codec, s.observer.value, command, s.routed.value, input.amb, input.sealed, io.prepare);
    if launch.Some? {
      var t := s.(observer := Some(o), routed := None);
      var last, fate := SpawningLog(codec, t, launch.value, operation, input, io.report, io.cancel);
      forall k | 0 <= k < |last| && last[k].Spawn? ensures k == 0 && !fate.Unspawned? {
        FirstSpawn(last, fate, launch.value, input, k);
      }
      assert forall k :: 1 <= k < |more + last| ==> (more + last)[k] == last[k - 1];
      more := more + last;
    }
  }

  lemma FirstSpawn(es: seq<Entry>, fate: Fate, launch: PreparedLaunch, input: StartInput, k: nat)
    requires launch.command.Some? && (input.answer.None? <==> fate.Unspawned?)
    requires k < |es| && es[k].Spawn?
    requires fate.Unspawned? ==> Processes(es) == [SpawnError(launch.binding)]
    requires fate.HandedOut? ==> Processes(es) == [es[0]] && es[0].Spawn?
    requires fate.CutShort? ==> Processes(es) == [es[0], Wait(launch.binding, input.status)] && es[0].Spawn?
    ensures k == 0 && !fate.Unspawned?
  {
    hide Processes;
    ProcessListed(es, k);
    if !fate.Unspawned? {
      assert es == [es[0]] + es[1..];
      OnlyFirstSpawns(es[0], es[1..]);
      assert forall i :: 1 <= i < |es| ==> es[i] == es[1..][i - 1];
    }
  }

  lemma QuietNoSpawn(es: seq<Entry>)
    requires Quiet(es)
    ensures NoSpawn(es)
  {
  }

  // ----- when a launch goes ahead -----

  /** The route of the begun command is granted. */
  ghost predicate RouteGranted(codec: Codec, s: SessionState, input: BeginInput, io: RouteIo)
    requires s.observer.Some? && input.flags.Some?
  {
    var o, binding := s.observer.value, NextBinding(Numbered(s), input.kind, s.observer.value.root);
    Free(o, binding) && exists d, reply, final ::
      Granted(codec, o, BegunWith(s, input), binding, true, input.amb, io.io, d, reply, final)
  }

  /** A session's route answers exactly when it is granted. */
  lemma RouteSessionExact(codec: Codec, s: SessionState, input: BeginInput, io: RouteIo)
    requires s.observer.Some? && input.flags.Some? && input.amb.Real()
    ensures RouteSession(codec, Numbered(s), BegunWith(s, input), input, io).1.Some? <==>
              RouteGranted(codec, s, input, io) && input.selectionKept
  {
    hide RouteStep, Granted, Labelled, Free;
    RouteExact(codec, s.observer.value, BegunWith(s, input),
               NextBinding(Numbered(s), input.kind, s.observer.value.root), true, input.amb, io.io, io.farewell);
  }

  /**
   An observed begin lets the launch go ahead exactly for the selected Cargo, with acceptable flags, a free record, a
   granted route that keeps the selection, and room to retain it. Unobserved only the first two are asked for.
   */
  lemma BeginExact(codec: Codec, s: SessionState, input: BeginInput, io: RouteIo)
    requires input.amb.Real()
    ensures BeginStep(codec, s, input, io).1.Some? <==>
              && input.command.program == s.cargo && input.flags.Some?
              && (s.observer.Some? ==>
                    && |s.operations| < MAX_CARGO_OPERATIONS && RouteGranted(codec, s, input, io)
                    && input.selectionKept && s.retained + input.weight <= MAX_CARGO_SESSION_BYTES)
  {
    hide RouteGranted, Labelled, RouteStep, Decimal;
    if s.observer.Some? && input.flags.Some? { RouteSessionExact(codec, s, input, io); }
  }

  /**
   A begin that goes ahead is numbered, and recorded exactly when a record is free and has room, else counted lost.
   */
  lemma RecordedIff(codec: Codec, s: SessionState, input: BeginInput, io: RouteIo)
    requires BeginStep(codec, s, input, io).1.Some?
    ensures var (t, r) := BeginStep(codec, s, input, io);
            var fits := |s.operations| < 16 && s.retained + input.weight <= 256 * 1024;
            && t.ordinal == s.ordinal + 1
            && (fits ==>
                  && r.value.1 == Some(|s.operations|) && |t.operations| == |s.operations| + 1
                  && t.operations[..|s.operations|] == s.operations
                  && t.retained == s.retained + input.weight && t.lost == s.lost)
            && (!fits ==>
                  && r.value.1 == None && t.operations == s.operations && t.retained == s.retained
                  && t.lost == s.lost + 1)
  {
    hide RouteStep, Overlay, Decimal;
  }

  /** A reference pass goes ahead on the same terms, with the ordinal in place of the record. */
  lemma ReferenceExact(codec: Codec, s: SessionState, input: BeginInput, io: RouteIo)
    requires input.amb.Real()
    ensures ReferenceStep(codec, s, input, io).1.Some? <==>
              && input.command.program == s.cargo && input.flags.Some? && s.ordinal < MAX_CARGO_OPERATIONS
              && (s.observer.Some? ==> RouteGranted(codec, s, input, io) && input.selectionKept)
  {
    hide RouteGranted, Labelled, RouteStep, Decimal;
    if s.observer.Some? && input.flags.Some? { RouteSessionExact(codec, s, input, io); }
  }

  /** After the intent of `routed` is acknowledged: the observer that spawns. */
  ghost function Acknowledged(codec: Codec, o: ObserverState, routed: RoutedIntent, io: ExchangeIo): ObserverState
    requires codec.finalIntent(routed.final).Some? && o.pending.Some?
  {
    var body := codec.finalIntent(routed.final).value;
    var t := ExchangeStep(codec, o, IntentEvent(codec, routed, body), Some(body), io).0;
    t.(pending := Some(o.pending.value.(phase := AwaitingSpawn)))
  }

  /** A routed command is prepared exactly when its carrier is sealed and its intent acknowledged. */
  lemma PrepareGives(codec: Codec, o: ObserverState, command: Command, routed: RoutedIntent, binding: Binding,
                     amb: Ambient, later: Ambient, sealed: bool, io: ExchangeIo)
    requires amb.Real() && later.Real() && Handed(codec, o, command, routed, binding, amb)
    ensures var body := codec.finalIntent(routed.final).value;
            var (p, launch) := PrepareStep(codec, o, command, routed, later, sealed, io);
            && (launch.Some? <==> sealed && ExchangeStep(codec, o, IntentEvent(codec, routed, body), Some(body), io).1)
            && (launch.Some? ==>
                  && p == Acknowledged(codec, o, routed, io)
                  && launch == Some(PreparedLaunch(Some(command), body, binding, codec.sha256(body), o.session)))
  {
    hide ExchangeStep, Describe, Freeze, IsFrozen;
    RoutedCommandPrepares(codec, o, command, routed, binding, amb, later, sealed, io);
  }

  /** A prepared launch hands out a child exactly when the system spawns and the report is acknowledged. */
  lemma SpawningExact(codec: Codec, s: SessionState, launch: PreparedLaunch, operation: Option<nat>, input: StartInput,
                      report: ExchangeIo, cancel: ExchangeIo)
    requires s.observer.Some? && launch.command.Some? && Owns(s.observer.value, launch, AwaitingSpawn)
    requires input.answer.Some? ==> input.answer.value > 0
    ensures Spawning(codec, s, launch, operation, input, report, cancel).1 <==>
              && input.answer.Some?
              && ExchangeStep(codec, s.observer.value.Log(Spawn(launch.command.value, launch.binding,
                                                                input.answer.value)),
                              Spawned(launch.binding, input.answer.value), None, report).1
  {
    hide ExchangeStep, CancelStep, SpawnFailedStep;
    if input.answer.Some? {
      var p := s.observer.value.Log(Spawn(launch.command.value, launch.binding, input.answer.value));
      CommutesWithPending(codec, p, Some(p.pending.value.(phase := AwaitingExit)),
                          Spawned(launch.binding, input.answer.value), report);
    }
  }

  /**
   The launch of a routed command hands out a child exactly when its carrier is sealed, the peer acknowledges the
   intent, the system spawns, and the peer acknowledges the report of it.
   */
  lemma StartExact(codec: Codec, s: SessionState, command: Command, operation: Option<nat>, input: StartInput,
                   io: StartIo, binding: Binding, amb: Ambient)
    requires s.observer.Some? && s.routed.Some? && amb.Real() && input.amb.Real()
    requires Handed(codec, s.observer.value, command, s.routed.value, binding, amb)
    requires input.answer.Some? ==> input.answer.value > 0
    ensures var o, routed := s.observer.value, s.routed.value;
            var body := codec.finalIntent(routed.final).value;
            var spawned := Acknowledged(codec, o, routed, io.prepare);
            StartStep(codec, s, command, operation, input, io).1 <==>
              && input.sealed && ExchangeStep(codec, o, IntentEvent(codec, routed, body), Some(body), io.prepare).1
              && input.answer.Some?
              && ExchangeStep(codec, spawned.Log(Spawn(command, binding, input.answer.value)),
                              Spawned(binding, input.answer.value), None, io.report).1
  {
    hide ExchangeStep, Spawning, PrepareStep, IntentEvent;
    var o, routed := s.observer.value, s.routed.value;
    PrepareGives(codec, o, command, routed, binding, amb, input.amb, input.sealed, io.prepare);
    var (p, launch) := PrepareStep(codec, o, command, routed, input.amb, input.sealed, io.prepare);
    if launch.Some? {
      AcknowledgedOwns(codec, o, routed, io.prepare, launch.value);
      SpawningExact(codec, s.(observer := Some(p), routed := None), launch.value, operation, input, io.report,
                    io.cancel);
    }
  }

  lemma AcknowledgedOwns(codec: Codec, o: ObserverState, routed: RoutedIntent, io: ExchangeIo, launch: PreparedLaunch)
    requires MatchesPending(codec, o, routed)
    requires launch.binding == o.pending.value.binding && launch.session == o.session
    requires launch.finalDigest == o.pending.value.finalDigest
    ensures Owns(Acknowledged(codec, o, routed, io), launch, AwaitingSpawn)
  {
    hide Converse;
  }

  // ----- over runs -----

  // ----- how a child ends -----

  /** The peer acknowledges that the announced child ended so. */
  ghost predicate EndTold(codec: Codec, c: Custody, event: Event, status: ExitStatus, io: ExchangeIo)
    requires c.child.Some? && c.child.value.prepared.Some? && c.child.value.binding.Some?
  {
    && c.session.observer.Some? && Owns(c.session.observer.value, c.child.value.prepared.value, AwaitingExit)
    && ExchangeStep(codec, c.session.observer.value.Log(Wait(c.child.value.binding.value, status)), event, None, io).1
  }

  /**
   A wait answers with the status exactly when the system gives one, no fault is pending, and the peer, where the child
   is announced, acknowledges the completion with that very status; either way the child is waited for and released.
   */
  lemma WaitExact(codec: Codec, c: Custody, result: Option<ExitStatus>, later: ExitStatus, io: ExchangeIo)
    requires c.child.Some? && (c.child.value.prepared.Some? ==> c.child.value.binding.Some? && !c.child.value.waited)
    ensures var (d, ok) := WaitStep(codec, c, result, later, io);
            && (ok <==> && result.Some? && !c.child.value.fault
                        && (c.child.value.prepared.Some? ==>
                              EndTold(codec, c, Completed(c.child.value.prepared.value.binding, result.value),
                                      result.value, io)))
            && d.child.Some? && d.child.value.waited && d.child.value.prepared.None?
            && d.child.value == c.child.value.(waited := true, prepared := None, fault := d.child.value.fault)
  {
    hide ExchangeStep;
  }

  /** A cancelled child is waited for and released, and is faulty unless it was fine and the peer acknowledges it. */
  lemma CancelExact(codec: Codec, c: Custody, status: ExitStatus, failures: nat, io: ExchangeIo)
    requires c.child.Some? && !c.child.value.waited
    requires c.child.value.prepared.Some? ==> c.child.value.binding.Some? && c.session.observer.Some?
    ensures var d := CancelOwned(codec, c, status, failures, io);
            && d.child.Some? && d.child.value.waited && d.child.value.prepared.None?
            && (d.child.value.fault <==>
                || c.child.value.fault || failures > 0
                || (c.child.value.prepared.Some? &&
                    var launch := c.child.value.prepared.value;
                    !EndTold(codec, c, Cancelled(launch.binding, c.child.value.pid, status), status, io)))
  {
    hide ExchangeStep;
  }

  function Trace(c: Custody): seq<Entry> {
    if c.session.observer.Some? then c.session.observer.value.trace else []
  }

  predicate Launches(call: SessionCall) {
    call.DoLaunch? || call.DoReference?
  }

  /** Spawn `t[j]` runs what `input` began: its route is two entries before, and carries the begun command to it. */
  ghost predicate AskedBy(before: SessionState, input: BeginInput, t: seq<Entry>, j: nat) {
    && 2 <= j < |t| && t[j].Spawn? && BegunAs(before, input, t[j - 2], t[j].command)
    && t[j - 2].Exchange? && t[j - 2].event.Route? && t[j].binding == t[j - 2].event.intent.binding
  }

  /** A launch adds to the history; a spawn among what it adds is of its own command. */
  lemma LaunchSpawnsAsked(codec: Codec, c: Custody, call: SessionCall) returns (more: seq<Entry>)
    requires c.session.observer.Some? && Enabled(c, call) && RealSessionCall(call) && Launches(call)
    ensures var d := SessionAct(codec, c, call);
            && d.session.observer.Some? && Trace(d) == Trace(c) + more
            && forall k :: 0 <= k < |more| && more[k].Spawn? ==>
                 AskedBy(c.session, call.begin, Trace(d), |Trace(c)| + k)
  {
    hide BeginStep, ReferenceStep, StartStep, BegunAs, NoSpawn, Quiet;
    var s, begin := c.session, call.begin;
    if call.DoLaunch? {
      var (t, r) := BeginStep(codec, s, begin, call.routeIo);
      if r.None? {
        more := BeginLog(codec, s, begin, call.routeIo);
        QuietSpawnsNothing(more);
      } else {
        var e := BeginCarries(codec, s, begin, call.routeIo);
        more := StartedSpawns(codec, s, begin, t, r.value.0, r.value.1, e, call.start, call.startIo);
      }
    } else {
      var (t, r) := ReferenceStep(codec, s, begin, call.routeIo);
      if r.None? {
        more := ReferenceLog(codec, s, begin, call.routeIo);
        QuietSpawnsNothing(more);
      } else {
        var e := ReferenceCarries(codec, s, begin, call.routeIo);
        more := StartedSpawns(codec, s, begin, t, r.value.0, r.value.1, e, call.start, call.startIo);
      }
    }
  }

  lemma QuietSpawnsNothing(es: seq<Entry>)
    requires Quiet(es)
    ensures forall k :: 0 <= k < |es| ==> !es[k].Spawn?
  {
  }

  lemma StartedSpawns(codec: Codec, before: SessionState, begin: BeginInput, t: SessionState, command: Command,
                      operation: Option<nat>, e: Entry, input: StartInput, io: StartIo)
    returns (more: seq<Entry>)
    requires before.observer.Some? && t.observer.Some? && begin.amb.Real()
    requires t.observer.value.trace == before.observer.value.trace + [e]
    requires BegunAs(before, begin, e, command) && RoutedTo(t, e)
    ensures var d := StartStep(codec, t, command, operation, input, io).0;
            && d.session.observer.Some? && Trace(d) == before.observer.value.trace + more
            && forall k :: 0 <= k < |more| && more[k].Spawn? ==>
                 AskedBy(before, begin, Trace(d), |before.observer.value.trace| + k)
  {
    hide StartStep, Labelled, Carries, NextBinding;
    BegunIsFrozen(before, begin, e, command);
    var last := StartSpawns(codec, t, command, operation, input, io);
    more := [e] + last;
    forall k | 0 <= k < |more| && more[k].Spawn?
      ensures AskedBy(before, begin, before.observer.value.trace + more, |before.observer.value.trace| + k)
    {
      assert k > 0 && last[k - 1].Spawn? && k == 2;
      var whole := before.observer.value.trace + more;
      assert whole[|before.observer.value.trace|] == e;
    }
  }

  lemma BegunIsFrozen(s: SessionState, input: BeginInput, e: Entry, final: Command)
    requires BegunAs(s, input, e, final) && input.amb.Real()
    ensures IsFrozen(final)
  {
    hide Carries, Labelled;
    CarriedIsFrozen(BegunWith(s, input), true, input.amb, e.outcome.response.environment, final);
  }

  lemma CancelOwnedLog(codec: Codec, c: Custody, status: ExitStatus, failures: nat, io: ExchangeIo)
    returns (more: seq<Entry>)
    requires c.session.observer.Some? && c.child.Some?
    ensures var d := CancelOwned(codec, c, status, failures, io);
            d.session.observer.Some? && d.child.Some? && Trace(d) == Trace(c) + more && NoSpawn(more)
  {
    hide CancelStep;
    more := [];
    var child := c.child.value;
    if !child.waited {
      if child.binding.Some? { more := [Wait(child.binding.value, status)]; }
      if child.prepared.Some? {
        var o := if child.binding.Some? then c.session.observer.value.Log(Wait(child.binding.value, status))
                 else c.session.observer.value;
        var last := CancelLog(codec, o, child.prepared.value, child.pid, status, io);
        more := more + last;
      }
    }
  }

  lemma WaitLog(codec: Codec, c: Custody, status: ExitStatus, later: ExitStatus, io: ExchangeIo)
    returns (more: seq<Entry>)
    requires c.session.observer.Some? && c.child.Some?
    ensures var d := WaitStep(codec, c, Some(status), later, io).0;
            d.session.observer.Some? && Trace(d) == Trace(c) + more && NoSpawn(more)
  {
    hide CompleteStep;
    more := [];
    var child := c.child.value;
    if child.binding.Some? { more := [Wait(child.binding.value, status)]; }
    if child.prepared.Some? {
      var o := if child.binding.Some? then c.session.observer.value.Log(Wait(child.binding.value, status))
               else c.session.observer.value;
      var last := CompleteLog(codec, o, child.prepared.value, status, io);
      more := more + last;
    }
  }

  lemma LeaveLog(c: Custody) returns (more: seq<Entry>)
    requires c.session.observer.Some? && c.child.Some?
    ensures var d := Leave(c);
            d.session.observer.Some? && Trace(d) == Trace(c) + more && NoSpawn(more)
  {
    more := if c.child.value.binding.Some? then [Gone(c.child.value.binding.value)] else [];
  }

  /** No other call spawns. */
  lemma OtherSpawnsNothing(codec: Codec, c: Custody, call: SessionCall) returns (more: seq<Entry>)
    requires c.session.observer.Some? && Enabled(c, call) && !Launches(call)
    ensures var d := SessionAct(codec, c, call);
            d.session.observer.Some? && Trace(d) == Trace(c) + more && NoSpawn(more)
  {
    hide BeginStep, CancelOwned;
    more := [];
    match call
    case DoBegin(begin, io) =>
      more := BeginLog(codec, c.session, begin, io);
      QuietNoSpawn(more);
    case DoMark(_) =>
    case DoComplete(_, _) =>
    case DoWait(result, later, io) =>
      if result.Some? {
        more := WaitLog(codec, c, result.value, later, io);
      } else {
        more := CancelOwnedLog(codec, c.(child := Some(c.child.value.(fault := true))), later, 0, io);
      }
    case DoPipeFault(later, io) =>
      more := CancelOwnedLog(codec, c.(child := Some(c.child.value.(fault := true))), later, 0, io);
    case DoDrop(later, io) =>
      var d := c;
      if !c.child.value.waited {
        more := CancelOwnedLog(codec, c, later, 0, io);
        d := CancelOwned(codec, c, later, 0, io);
      }
      var last := LeaveLog(d);
      more := more + last;
  }

  /** Over every run, each process spawned is one that some launch of the run asked for. */
  lemma {:induction false} SpawnIsAsked(codec: Codec, start: Custody, calls: seq<SessionCall>, j: nat)
    requires start.session.observer.Some? && SessionRun(codec, start, calls).Some?
    requires var t := Trace(SessionRun(codec, start, calls).value);
             |Trace(start)| <= j < |t| && t[j].Spawn?
    ensures exists k :: 0 <= k < |calls| && Launches(calls[k]) && SessionRun(codec, start, calls[..k]).Some?
              && AskedBy(SessionRun(codec, start, calls[..k]).value.session, calls[k].begin,
                         Trace(SessionRun(codec, start, calls).value), j)
    decreases |calls|
  {
    hide SessionAct, BegunAs, RealSessionCall, Enabled;
    var front, last := calls[..|calls| - 1], calls[|calls| - 1];
    var c := SessionRun(codec, start, front).value;
    ObserverStays(codec, start, front);
    var more;
    if Launches(last) {
      more := LaunchSpawnsAsked(codec, c, last);
    } else {
      more := OtherSpawnsNothing(codec, c, last);
    }
    var t := Trace(SessionRun(codec, start, calls).value);
    assert t == Trace(c) + more;
    if j < |Trace(c)| {
      SpawnIsAsked(codec, start, front, j);
      var k :| 0 <= k < |front| && Launches(front[k]) && SessionRun(codec, start, front[..k]).Some?
        && AskedBy(SessionRun(codec, start, front[..k]).value.session, front[k].begin, Trace(c), j);
      assert front[..k] == calls[..k] && front[k] == calls[k];
      assert t[j] == Trace(c)[j] && t[j - 2] == Trace(c)[j - 2];
    } else {
      assert t[j] == more[j - |Trace(c)|];
      assert calls[..|calls| - 1] == front;
    }
  }

  lemma {:induction false} ObserverStays(codec: Codec, start: Custody, calls: seq<SessionCall>)
    requires start.session.observer.Some? && SessionRun(codec, start, calls).Some?
    ensures SessionRun(codec, start, calls).value.session.observer.Some?
    decreases |calls|
  {
    hide SessionAct, RealSessionCall, Enabled, AskedBy;
    if calls != [] {
      var front, last := calls[..|calls| - 1], calls[|calls| - 1];
      ObserverStays(codec, start, front);
      var c := SessionRun(codec, start, front).value;
      if Launches(last) {
        var more := LaunchSpawnsAsked(codec, c, last);
      } else {
        var more := OtherSpawnsNothing(codec, c, last);
      }
    }
  }
}
