/**
 One outer extraction pass: `CargoLaunchSession` numbers and records selected Cargo
 operations, drives the observer through each launch, and lends itself to the one
 `CargoChild` that owns the process and its carrier until it has been waited for.
 */
module CargoLaunch {
  import opened Bytes
  import opened Transport
  import opened LaunchIntent
  import opened LaunchObserver

  const MAX_CARGO_OPERATIONS := 16
  const MAX_CARGO_SESSION_BYTES := 256 * 1024
  const REQUEST_ENV: Bytes := Ascii("BUILD_GRAPH_CARGO_OPERATION")

  datatype OperationKind = Metadata | Build | Docs | DriverCheck {
    function Name(): Bytes {
      match this
      case Metadata => Ascii("metadata")
      case Build => Ascii("build")
      case Docs => Ascii("docs")
      case DriverCheck => Ascii("driver_check")
    }
  }

  /** Decimal digits, most significant first. */
  function Decimal(n: nat): Bytes {
    if n < 10 then [48 + n] else Decimal(n / 10) + [48 + n % 10]
  }

  function RequestLabel(name: Bytes, ordinal: nat): Bytes {
    name + [45] + Decimal(ordinal)
  }

  datatype Operation = Operation(
    ordinal: nat, request: Bytes, kind: OperationKind, started: bool, exitCode: Option<i32>, success: bool,
    readFailed: bool)
  {
    function Completed(status: Option<ExitStatus>): Operation {
      match status
      case Some(status) => this.(started := true, exitCode := status.code, success := status.Success())
      case None => this.(readFailed := true)
    }
  }

  datatype SessionState = SessionState(
    observer: Option<ObserverState>, cargo: Bytes, name: Bytes,
    ordinal: nat, operations: seq<Operation>, retained: nat, lost: nat, routed: Option<RoutedIntent>)
  {
    function Mark(operation: Option<nat>): SessionState {
      if operation.Some? && operation.value < |operations| then
        this.(operations := operations[operation.value := operations[operation.value].(started := true)])
      else this
    }

    function Completed(operation: Option<nat>, status: Option<ExitStatus>): SessionState {
      if operation.Some? && operation.value < |operations| then
        this.(operations := operations[operation.value := operations[operation.value].Completed(status)])
      else this
    }

    function Log(e: Entry): SessionState {
      if observer.Some? then this.(observer := Some(observer.value.Log(e))) else this
    }
  }

  /** The child under its guard; `binding` is what its launch was acknowledged under, if observed. */
  datatype ChildState = ChildState(
    pid: u32, binding: Option<Binding>, operation: Option<nat>, waited: bool, prepared: Option<PreparedLaunch>,
    fault: bool)

  /** The session between calls, with the child that may be borrowing it. */
  datatype Custody = Custody(session: SessionState, child: Option<ChildState>)

  // ----- beginning an operation -----

  /**
   What a caller and the environment bring to `begin`: the flag changes of the explicit selection
   (None when they are refused), whether the routed command still selects the explicit tools,
   and the bytes the record would retain.
   */
  datatype BeginInput = BeginInput(
    command: Command, kind: OperationKind, flags: Option<seq<EnvironmentChange>>, amb: Ambient,
    selectionKept: bool, weight: nat)

  datatype RouteIo = RouteIo(io: ExchangeIo, farewell: ExchangeIo)

  function NextBinding(s: SessionState, kind: OperationKind, root: Bytes): Binding {
    Binding(s.name, s.ordinal, RequestLabel(s.name, s.ordinal), root, kind.Name())
  }

  /** The ordinal is spent and the request name delivered, whatever happens next. */
  function Numbered(s: SessionState): SessionState {
    s.(ordinal := s.ordinal + 1)
  }

  function Labelled(s: SessionState, command: Command, flags: seq<EnvironmentChange>): Command {
    Overlay(command, flags).SetEnv(REQUEST_ENV, RequestLabel(s.name, s.ordinal))
  }

  /** Route the numbered command; the result is None when the launch must not proceed. */
  ghost function RouteSession(codec: Codec, s: SessionState, command: Command, input: BeginInput, io: RouteIo)
    : (SessionState, Option<Command>)
    requires s.observer.Some?
  {
    var binding := NextBinding(s, input.kind, s.observer.value.root);
    var (o, r) := RouteStep(codec, s.observer.value, command, binding, true, input.amb, io.io, io.farewell);
    match r
    case None => (s.(observer := Some(o)), None)
    case Some((final, routed)) =>
      var t := s.(observer := Some(o), routed := Some(routed));
      if !input.selectionKept then (t.Log(Abandon(binding)), None) else (t, Some(final))
  }

  /** Retain the operation's record, or count it lost; with an observer a loss refuses the launch. */
  function Record(s: SessionState, command: Command, input: BeginInput)
    : (SessionState, Option<(Command, Option<nat>)>)
  {
    if |s.operations| >= MAX_CARGO_OPERATIONS then
      (s.(lost := s.lost + 1), Some((command, None)))
    else if s.retained + input.weight > MAX_CARGO_SESSION_BYTES then
      if s.observer.Some? then (s.Log(Abandon(NextBinding(s, input.kind, s.observer.value.root))), None)
      else (s.(lost := s.lost + 1), Some((command, None)))
    else
      (s.(retained := s.retained + input.weight,
          operations := s.operations +
            [Operation(s.ordinal, RequestLabel(s.name, s.ordinal), input.kind, false, None, false, false)]),
       Some((command, Some(|s.operations|))))
  }

  ghost function BeginStep(codec: Codec, s: SessionState, input: BeginInput, io: RouteIo)
    : (SessionState, Option<(Command, Option<nat>)>)
  {
    if input.command.program != s.cargo || input.flags.None? then (s, None)
    else
      var t := Numbered(s);
      var command := Labelled(t, input.command, input.flags.value);
      if t.observer.None? then Record(t, command, input)
      else if |t.operations| >= MAX_CARGO_OPERATIONS then (t, None)
      else
        var (u, routed) := RouteSession(codec, t, command, input, io);
        if routed.None? then (u, None) else Record(u, routed.value, input)
  }

  /** The reference pass: numbered and routed like an operation, but not recorded. */
  ghost function ReferenceStep(codec: Codec, s: SessionState, input: BeginInput, io: RouteIo)
    : (SessionState, Option<(Command, Option<nat>)>)
  {
    if input.command.program != s.cargo || input.flags.None? || s.ordinal >= MAX_CARGO_OPERATIONS then (s, None)
    else
      var t := Numbered(s);
      var command := Labelled(t, input.command, input.flags.value);
      if t.observer.None? then (t, Some((command, None)))
      else
        var (u, routed) := RouteSession(codec, t, command, input, io);
        (u, if routed.None? then None else Some((routed.value, None)))
  }

  // ----- launching, waiting, cancelling -----

  datatype StartInput = StartInput(amb: Ambient, sealed: bool, answer: Option<u32>, status: ExitStatus)

  datatype StartIo = StartIo(prepare: ExchangeIo, report: ExchangeIo, cancel: ExchangeIo)

  /** One synchronous cancellation: kill, wait until the wait succeeds, record, notify, release. */
  function CancelOwned(codec: Codec, c: Custody, status: ExitStatus, failures: nat, io: ExchangeIo): Custody
    requires c.child.Some?
  {
    if c.child.value.waited then c
    else
      var child := c.child.value.(fault := c.child.value.fault || failures > 0);
      var s := if child.binding.Some? then c.session.Log(Wait(child.binding.value, status)) else c.session;
      var t := s.Completed(child.operation, Some(status));
      if child.prepared.None? then Custody(t, Some(child.(waited := true)))
      else if t.observer.None? then Custody(t, Some(child.(waited := true, prepared := None)))
      else
        var (o, ok) := CancelStep(codec, t.observer.value, child.prepared.value, child.pid, status, io);
        Custody(t.(observer := Some(o)), Some(child.(waited := true, prepared := None, fault := child.fault || !ok)))
  }

  function Leave(c: Custody): Custody
    requires c.child.Some?
  {
    var s := if c.child.value.binding.Some? then c.session.Log(Gone(c.child.value.binding.value)) else c.session;
    Custody(s, None)
  }

  /** `launch_started` after a successful begin; the flag tells whether a child is handed out. */
  ghost function StartStep(codec: Codec, s: SessionState, command: Command, operation: Option<nat>, input: StartInput,
                           io: StartIo)
    : (Custody, bool)
  {
    if s.observer.None? then
      if input.answer.None? then (Custody(s.Completed(operation, None), None), false)
      else (Custody(s.Mark(operation), Some(ChildState(input.answer.value, None, operation, false, None, false))), true)
    else if s.routed.None? then (Custody(s, None), false)
    else
      var (o, launch) :=
        PrepareStep(codec, s.observer.value, command, s.routed.value, input.amb, input.sealed, io.prepare);
      var t := s.(observer := Some(o), routed := None);
      if launch.None? then (Custody(t, None), false)
      else Spawning(codec, t, launch.value, operation, input, io.report, io.cancel)
  }

  function Spawning(codec: Codec, s: SessionState, launch: PreparedLaunch, operation: Option<nat>, input: StartInput,
                    report: ExchangeIo, cancel: ExchangeIo)
    : (Custody, bool)
    requires s.observer.Some?
  {
    var (p, spent, pid) := SpawnStep(s.observer.value, launch, input.answer);
    if pid.None? then
      var (q, ok) := SpawnFailedStep(codec, p, spent, report);
      (Custody(s.(observer := Some(q)).Completed(operation, None), None), false)
    else
      var (q, ok) := SpawnedStep(codec, p, spent, pid.value, report);
      var c := Custody(s.(observer := Some(q)).Mark(operation),
                       Some(ChildState(pid.value, Some(spent.binding), operation, false, Some(spent), !ok)));
      if ok then (c, true) else (Leave(CancelOwned(codec, c, input.status, 0, cancel)), false)
  }

  /** A child already marked faulty is cancelled alike however many waits fail first. */
  lemma FaultyCancel(codec: Codec, c: Custody, status: ExitStatus, failures: nat, io: ExchangeIo)
    requires c.child.Some? && c.child.value.fault
    ensures var d := CancelOwned(codec, c, status, failures, io);
            d == CancelOwned(codec, c, status, 0, io) && d.child.Some?
  {
    hide CancelStep;
  }

  /** `CargoChild::wait`: `result` is the system's answer, `later` the status a retained wait ends with. */
  function WaitStep(codec: Codec, c: Custody, result: Option<ExitStatus>, later: ExitStatus, io: ExchangeIo)
    : (Custody, bool)
    requires c.child.Some?
  {
    match result
    case None =>
      var d := CancelOwned(codec, c.(child := Some(c.child.value.(fault := true))), later, 0, io);
      (d.(child := Some(d.child.value.(fault := false))), false)
    case Some(status) =>
      var child := c.child.value;
      var s := if child.binding.Some? then c.session.Log(Wait(child.binding.value, status)) else c.session;
      var t := s.Completed(child.operation, Some(status));
      if child.prepared.None? then
        (Custody(t, Some(child.(waited := true, fault := false))), !child.fault)
      else if t.observer.None? then
        (Custody(t, Some(child.(waited := true, prepared := None))), false)
      else
        var (o, ok) := CompleteStep(codec, t.observer.value, child.prepared.value, status, io);
        (Custody(t.(observer := Some(o)), Some(child.(waited := true, prepared := None, fault := false))),
         ok && !child.fault)
  }

  /** A pipe failure inside `output`: cancel at once and report the fault. */
  function PipeFaultStep(codec: Codec, c: Custody, later: ExitStatus, io: ExchangeIo): Custody
    requires c.child.Some?
  {
    var d := CancelOwned(codec, c.(child := Some(c.child.value.(fault := true))), later, 0, io);
    d.(child := Some(d.child.value.(fault := false)))
  }

  function DropStep(codec: Codec, c: Custody, later: ExitStatus, io: ExchangeIo): Custody
    requires c.child.Some?
  {
    if !c.child.value.waited && c.session.observer.Some? then Leave(CancelOwned(codec, c, later, 0, io)) else Leave(c)
  }

  // ----- the objects themselves -----

  class CargoLaunchSession {
    const codec: Codec
    const observer: Observer?
    const cargo: Bytes
    const name: Bytes
    var ordinal: nat
    var operations: seq<Operation>
    var retained: nat
    var lost: nat
    var routed: Option<RoutedIntent>

    ghost function Abs(): SessionState
      reads this, Observers()
    {
      SessionState(if observer == null then None else Some(observer.Abs()), cargo, name, ordinal, operations, retained,
                   lost, routed)
    }

    ghost function Observers(): set<object> {
      if observer == null then {} else {observer, observer.channel}
    }

    ghost predicate Valid()
      reads this, Observers()
    {
      observer != null ==> observer.codec == codec && observer.Valid()
    }

    constructor (codec: Codec, observer: Observer?, cargo: Bytes, name: Bytes)
      requires observer != null ==> observer.codec == codec && observer.Valid()
      ensures Valid() && this.observer == observer && this.codec == codec
      ensures Abs() == SessionState(if observer == null then None else Some(observer.Abs()), cargo, name, 0, [], 0, 0,
                                    None)
    {
      this.codec, this.observer, this.cargo, this.name := codec, observer, cargo, name;
      ordinal, operations, retained, lost, routed := 0, [], 0, 0, None;
    }

    method RouteNumbered(command: Command, input: BeginInput, link: Link, farewellLink: Link)
      returns (r: Option<Command>, ghost io: RouteIo)
      requires Valid() && observer != null
      modifies this`routed, Observers()
      ensures Valid()
      ensures (Abs(), r) == RouteSession(codec, old(Abs()), command, input, io)
    {
      var binding := Binding(name, ordinal, RequestLabel(name, ordinal), observer.root, input.kind.Name());
      var result, exchange, farewell := observer.RouteCommand(command, binding, true, input.amb, link, farewellLink);
      io := RouteIo(exchange, farewell);
      if result.None? {
        return None, io;
      }
      routed := Some(result.value.1);
      if !input.selectionKept {
        observer.trace := observer.trace + [Abandon(binding)];
        return None, io;
      }
      return Some(result.value.0), io;
    }

    method RecordOperation(command: Command, input: BeginInput) returns (r: Option<(Command, Option<nat>)>)
      requires Valid()
      modifies this`operations, this`retained, this`lost, Observers()
      ensures Valid()
      ensures (Abs(), r) == Record(old(Abs()), command, input)
    {
      if |operations| >= MAX_CARGO_OPERATIONS {
        lost := lost + 1;
        return Some((command, None));
      }
      if retained + input.weight > MAX_CARGO_SESSION_BYTES {
        if observer != null {
          observer.trace := observer.trace +
            [Abandon(Binding(name, ordinal, RequestLabel(name, ordinal), observer.root, input.kind.Name()))];
          return None;
        }
        lost := lost + 1;
        return Some((command, None));
      }
      retained := retained + input.weight;
      r := Some((command, Some(|operations|)));
      operations :=
        operations + [Operation(ordinal, RequestLabel(name, ordinal), input.kind, false, None, false, false)];
    }

    method Begin(input: BeginInput, link: Link, farewellLink: Link)
      returns (r: Option<(Command, Option<nat>)>, ghost io: RouteIo)
      requires Valid()
      modifies this, Observers()
      ensures Valid()
      ensures (Abs(), r) == BeginStep(codec, old(Abs()), input, io)
    {
      hide RouteSession, Record;
      io := RouteIo(ExchangeIo(SendIo(0, 0), ReceiveIo(0, [])), ExchangeIo(SendIo(0, 0), ReceiveIo(0, [])));
      if input.command.program != cargo || input.flags.None? {
        return None, io;
      }
      ordinal := ordinal + 1;
      var flagged := ApplyOverlay(input.command, input.flags.value);
      var command := flagged.SetEnv(REQUEST_ENV, RequestLabel(name, ordinal));
      if observer != null {
        if |operations| >= MAX_CARGO_OPERATIONS {
          return None, io;
        }
        var routedCommand;
        routedCommand, io := RouteNumbered(command, input, link, farewellLink);
        if routedCommand.None? {
          return None, io;
        }
        command := routedCommand.value;
      }
      r := RecordOperation(command, input);
    }

    method BeginReference(input: BeginInput, link: Link, farewellLink: Link)
      returns (r: Option<(Command, Option<nat>)>, ghost io: RouteIo)
      requires Valid()
      modifies this, Observers()
      ensures Valid()
      ensures (Abs(), r) == ReferenceStep(codec, old(Abs()), input, io)
    {
      hide RouteSession;
      io := RouteIo(ExchangeIo(SendIo(0, 0), ReceiveIo(0, [])), ExchangeIo(SendIo(0, 0), ReceiveIo(0, [])));
      if input.command.program != cargo || input.flags.None? || ordinal >= MAX_CARGO_OPERATIONS {
        return None, io;
      }
      ordinal := ordinal + 1;
      var flagged := ApplyOverlay(input.command, input.flags.value);
      var command := flagged.SetEnv(REQUEST_ENV, RequestLabel(name, ordinal));
      if observer != null {
        var routedCommand;
        routedCommand, io := RouteNumbered(command, input, link, farewellLink);
        if routedCommand.None? {
          return None, io;
        }
        command := routedCommand.value;
      }
      return Some((command, None)), io;
    }

    method MarkStarted(operation: Option<nat>)
      modifies this`operations
      ensures Abs() == old(Abs()).Mark(operation)
    {
      if operation.Some? && operation.value < |operations| {
        operations := operations[operation.value := operations[operation.value].(started := true)];
      }
    }

    method CompleteOperation(operation: Option<nat>, status: Option<ExitStatus>)
      modifies this`operations
      ensures Abs() == old(Abs()).Completed(operation, status)
    {
      if operation.Some? && operation.value < |operations| {
        var value := operations[operation.value];
        if status.Some? {
          value := value.(started := true, exitCode := status.value.code, success := status.value.code == Some(0));
        } else {
          value := value.(readFailed := true);
        }
        operations := operations[operation.value := value];
      }
    }

    /** The launch proper; on success the returned guard borrows this session. */
    method LaunchStarted(command: Command, operation: Option<nat>, input: StartInput, prepareLink: Link,
                         reportLink: Link, cancelLink: Link, waitFailures: nat)
      returns (child: CargoChild?, ghost io: StartIo)
      requires Valid()
      modifies this, Observers()
      ensures Valid()
      ensures child != null ==> fresh(child) && child.session == this
      ensures (Custody(Abs(), if child == null then None else Some(child.Abs())), child != null)
           == StartStep(codec, old(Abs()), command, operation, input, io)
    {
      var none := ExchangeIo(SendIo(0, 0), ReceiveIo(0, []));
      io := StartIo(none, none, none);
      if observer == null {
        if input.answer.None? {
          CompleteOperation(operation, None);
          return null, io;
        }
        MarkStarted(operation);
        child := new CargoChild(this, input.answer.value, None, operation, None, false);
        return;
      }
      if routed.None? {
        return null, io;
      }
      var taken := routed.value;
      routed := None;
      var launch, prepare := observer.Prepare(command, taken, input.amb, input.sealed, prepareLink);
      io := StartIo(prepare, none, none);
      if launch.None? {
        return null, io;
      }
      ghost var report, cancel;
      child, report, cancel := SpawnPrepared(launch.value, operation, input, reportLink, cancelLink, waitFailures);
      io := StartIo(prepare, report, cancel);
    }

    method SpawnPrepared(launch: PreparedLaunch, operation: Option<nat>, input: StartInput, reportLink: Link,
                         cancelLink: Link, waitFailures: nat)
      returns (child: CargoChild?, ghost report: ExchangeIo, ghost cancel: ExchangeIo)
      requires Valid() && observer != null
      modifies this`operations, Observers()
      ensures Valid()
      ensures child != null ==> fresh(child) && child.session == this
      ensures (Custody(Abs(), if child == null then None else Some(child.Abs())), child != null)
           == Spawning(codec, old(Abs()), launch, operation, input, report, cancel)
    {
      hide SpawnStep, SpawnFailedStep, SpawnedStep, CancelStep;
      cancel := ExchangeIo(SendIo(0, 0), ReceiveIo(0, []));
      child := null;
      var spent, pid := observer.SpawnLaunch(launch, input.answer);
      var ok;
      if pid.None? {
        ok, report := observer.AnnounceFailure(spent, reportLink);
        CompleteOperation(operation, None);
        return;
      }
      ok, report := observer.Announce(spent, pid.value, reportLink);
      MarkStarted(operation);
      var owned := new CargoChild(this, pid.value, Some(spent.binding), operation, Some(spent), !ok);
      if ok {
        child := owned;
        return;
      }
      cancel := owned.CancelOwnedChild(input.status, waitFailures, cancelLink);
      owned.Forget();
    }
  }

  class CargoChild {
    const session: CargoLaunchSession
    const pid: u32
    const operation: Option<nat>
    ghost const binding: Option<Binding>
    var waited: bool
    var prepared: Option<PreparedLaunch>
    var fault: bool

    ghost function Abs(): ChildState
      reads this
    {
      ChildState(pid, binding, operation, waited, prepared, fault)
    }

    ghost function Custodian(): Custody
      reads this, session, session.Observers()
    {
      Custody(session.Abs(), Some(Abs()))
    }

    constructor (session: CargoLaunchSession, pid: u32, ghost binding: Option<Binding>, operation: Option<nat>,
                 prepared: Option<PreparedLaunch>, fault: bool)
      ensures this.session == session && Abs() == ChildState(pid, binding, operation, false, prepared, fault)
    {
      this.session, this.pid, this.binding, this.operation, this.prepared, this.fault :=
        session, pid, binding, operation, prepared, fault;
      waited := false;
    }

    ghost method LogWait(status: ExitStatus)
      requires session.Valid()
      modifies session.Observers()
      ensures session.Valid()
      ensures session.Abs() == if binding.Some? then old(session.Abs()).Log(Wait(binding.value, status))
              else old(session.Abs())
    {
      if binding.Some? && session.observer != null {
        session.observer.trace := session.observer.trace + [Wait(binding.value, status)];
      }
    }

    /** Wait errors never release the child: the loop ends only with the wait that succeeds. */
    method RetainedWait(status: ExitStatus, waitFailures: nat) returns (r: ExitStatus)
      modifies this`fault
      ensures r == status && fault == (old(fault) || waitFailures > 0)
    {
      var left := waitFailures;
      while left > 0
        invariant 0 <= left <= waitFailures && fault == (old(fault) || left < waitFailures)
      {
        if !fault {
          fault := true;
        }
        left := left - 1;
      }
      return status;
    }

    method CancelOwnedChild(status: ExitStatus, waitFailures: nat, link: Link) returns (ghost io: ExchangeIo)
      requires session.Valid()
      modifies this, session`operations, session.Observers()
      ensures session.Valid()
      ensures Custodian() == CancelOwned(session.codec, old(Custodian()), status, waitFailures, io)
    {
      io := ExchangeIo(SendIo(0, 0), ReceiveIo(0, []));
      if waited {
        return;
      }
      var final := RetainedWait(status, waitFailures);
      waited := true;
      LogWait(final);
      session.CompleteOperation(operation, Some(final));
      if prepared.Some? {
        var launch := prepared.value;
        prepared := None;
        if session.observer != null {
          var ok;
          ok, io := session.observer.Cancel(launch, pid, final, link);
          if !ok && !fault {
            fault := true;
          }
        }
      }
    }

    method WaitChild(result: Option<ExitStatus>, later: ExitStatus, waitFailures: nat, link: Link)
      returns (ok: bool, ghost io: ExchangeIo)
      requires session.Valid()
      modifies this, session`operations, session.Observers()
      ensures session.Valid()
      ensures (Custodian(), ok) == WaitStep(session.codec, old(Custodian()), result, later, io)
    {
      hide CancelStep, CompleteStep, CancelOwned;
      io := ExchangeIo(SendIo(0, 0), ReceiveIo(0, []));
      if result.None? {
        fault := true;
        ghost var faulty := Custodian();
        io := CancelOwnedChild(later, waitFailures, link);
        FaultyCancel(session.codec, faulty, later, waitFailures, io);
        fault := false;
        return false, io;
      }
      waited := true;
      LogWait(result.value);
      session.CompleteOperation(operation, result);
      if prepared.Some? {
        var launch := prepared.value;
        prepared := None;
        if session.observer == null {
          return false, io;
        }
        var acknowledged;
        acknowledged, io := session.observer.Complete(launch, result.value, link);
        if !fault {
          fault := !acknowledged;
        }
      }
      ok := !fault;
      fault := false;
    }

    method PipeFault(later: ExitStatus, waitFailures: nat, link: Link) returns (ghost io: ExchangeIo)
      requires session.Valid()
      modifies this, session`operations, session.Observers()
      ensures session.Valid()
      ensures Custodian() == PipeFaultStep(session.codec, old(Custodian()), later, io)
    {
      fault := true;
      io := CancelOwnedChild(later, waitFailures, link);
      fault := false;
    }

    /** The guard leaves scope without further action. */
    ghost method Forget()
      requires session.Valid()
      modifies session.Observers()
      ensures session.Valid()
      ensures Custody(session.Abs(), None) == Leave(old(Custodian()))
    {
      if binding.Some? && session.observer != null {
        session.observer.trace := session.observer.trace + [Gone(binding.value)];
      }
    }

    method Drop(later: ExitStatus, waitFailures: nat, link: Link) returns (ghost io: ExchangeIo)
      requires session.Valid()
      modifies this, session`operations, session.Observers()
      ensures session.Valid()
      ensures Custody(session.Abs(), None) == DropStep(session.codec, old(Custodian()), later, io)
    {
      io := ExchangeIo(SendIo(0, 0), ReceiveIo(0, []));
      if !waited && session.observer != null {
        io := CancelOwnedChild(later, waitFailures, link);
      }
      Forget();
    }
  }
}
