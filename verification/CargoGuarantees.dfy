/** What an accepted session history means, entry by entry, and what every run of a session guarantees. */
module CargoGuarantees {
  import opened Bytes
  import opened LaunchIntent
  import opened LaunchObserver
  import opened LaunchHistory
  import opened LaunchRuns
  import opened CargoLaunch
  import opened CargoRuns

  lemma {:induction false} MonitorPrefix(codec: Codec, t: seq<Entry>, n: nat)
    requires Monitor(codec, t).Some? && n <= |t|
    ensures Monitor(codec, t[..n]).Some?
    decreases |t|
  {
    if n < |t| {
      MonitorPrefix(codec, Front(t), n);
      assert Front(t)[..n] == t[..n];
    } else {
      assert t[..n] == t;
    }
  }

  /** The stage before entry `i` of an accepted history. */
  ghost function StageAt(codec: Codec, t: seq<Entry>, i: nat): Stage
    requires Monitor(codec, t).Some? && i <= |t|
  {
    MonitorPrefix(codec, t, i);
    Monitor(codec, t[..i]).value
  }

  lemma StageStep(codec: Codec, t: seq<Entry>, i: nat)
    requires Monitor(codec, t).Some? && i < |t|
    ensures Next(codec, StageAt(codec, t, i), t[i]) == Some(StageAt(codec, t, i + 1))
  {
    MonitorPrefix(codec, t, i + 1);
    assert Front(t[..i + 1]) == t[..i] && Last(t[..i + 1]) == t[i];
  }

  /** The peer is told how the process ended: with the status that was waited for. */
  predicate EndOf(e: Entry, binding: Binding, status: ExitStatus) {
    && e.Exchange? && (e.event.Completed? || e.event.Cancelled?)
    && e.event.binding == binding && e.event.status == status
  }

  /** A spawn directly follows the acknowledgement of its own intent, which directly follows its accepted route. */
  lemma SpawnFollowsIntent(codec: Codec, t: seq<Entry>, j: nat)
    requires Monitor(codec, t).Some? && j < |t| && t[j].Spawn?
    ensures j >= 2 && Authorizes(codec, t[j - 1], t[j].command, t[j].binding)
    ensures t[j - 2].Exchange? && t[j - 2].event.Route? && t[j - 2].outcome.Accepted?
    ensures t[j - 2].outcome.response.Routing?
    ensures t[j - 2].event.intent.binding == t[j].binding && t[j - 2].outcome.response.nonce == t[j - 1].event.nonce
  {
    hide Authorizes, StageAt, Monitor;
    var n2 := StageBack(codec, t, j);
    var n1 := StageBack(codec, t, j - 1);
    var n0 := StageBack(codec, t, j - 2);
  }

  /**
   The carrier is released only after the wait and the attempt to report the end, or after a spawn that never
   happened.
   */
  lemma ReleaseFollowsWait(codec: Codec, t: seq<Entry>, r: nat)
    requires Monitor(codec, t).Some? && r < |t| && t[r].Release?
    ensures r >= 2
    ensures (t[r - 2].Wait? && t[r - 2].binding == t[r].binding && EndOf(t[r - 1], t[r].binding, t[r - 2].status))
            || (t[r - 2] == SpawnError(t[r].binding) && t[r - 1].Exchange?
                && t[r - 1].event == SpawnFailed(t[r].binding))
  {
    hide Monitor, StageAt, Authorizes;
    var n2 := StageBack(codec, t, r);
    var n1 := StageBack(codec, t, r - 1);
    var n0 := StageBack(codec, t, r - 2);
  }

  /** One step back in an accepted history. */
  lemma StageBack(codec: Codec, t: seq<Entry>, i: nat) returns (stage: Stage)
    requires Monitor(codec, t).Some? && i < |t|
    ensures stage == StageAt(codec, t, i) && Next(codec, stage, t[i]) == Some(StageAt(codec, t, i + 1))
    ensures i == 0 ==> stage == Ready
  {
    stage := StageAt(codec, t, i);
    StageStep(codec, t, i);
    if i == 0 { assert t[..0] == []; }
  }

  /**
   The five entries that follow a spawn, as far as the history goes: the peer is told of the very process, and of the
   very status it was waited to.
   */
  predicate Followed(t: seq<Entry>, j: nat)
    requires j < |t| && t[j].Spawn?
  {
    var b := t[j].binding;
    && (j + 1 < |t| ==> t[j + 1].Exchange? && t[j + 1].event == Spawned(b, t[j].pid))
    && (j + 2 < |t| ==> t[j + 2].Wait? && t[j + 2].binding == b)
    && (j + 3 < |t| ==> EndOf(t[j + 3], b, t[j + 2].status))
    && (j + 3 < |t| && t[j + 3].event.Cancelled? ==> t[j + 3].event.pid == t[j].pid)
    && (j + 4 < |t| ==> t[j + 4] == Release(b))
    && (j + 5 < |t| ==> t[j + 5] == Gone(b) || (t[j + 5].Wait? && t[j + 5].binding == b))
  }

  /** The stage `n` entries after a spawn, as long as the history reaches that far. */
  function StageAfterSpawn(t: seq<Entry>, j: nat, n: nat): Stage
    requires j < |t| && t[j].Spawn? && 1 <= n <= 5 && j + n <= |t| && (n >= 2 ==> t[j + 1].Exchange?)
    requires (n >= 3 ==> t[j + 2].Wait?) && (n >= 4 ==> t[j + 3].Exchange?)
  {
    var (b, pid) := (t[j].binding, t[j].pid);
    if n == 1 then Running(b, pid)
    else if n == 2 then SpawnReported(b, pid, t[j + 1].outcome.Accepted?)
    else if n == 3 then Waited(b, pid, t[j + 2].status, t[j + 1].outcome.Accepted?)
    else
      var clean := t[j + 3].event.Completed? && t[j + 3].outcome.Accepted?;
      if n == 4 then EndReported(b, clean) else Released(b, clean)
  }

  lemma SpawnStage(codec: Codec, t: seq<Entry>, j: nat, n: nat)
    requires Monitor(codec, t).Some? && j < |t| && t[j].Spawn? && 1 <= n <= 5 && j + n <= |t|
    ensures n >= 2 ==> t[j + 1].Exchange? && t[j + 1].event == Spawned(t[j].binding, t[j].pid)
    ensures n >= 3 ==> t[j + 2].Wait? && t[j + 2].binding == t[j].binding
    ensures n >= 4 ==> EndOf(t[j + 3], t[j].binding, t[j + 2].status)
    ensures n >= 4 && t[j + 3].event.Cancelled? ==> t[j + 3].event.pid == t[j].pid
    ensures n >= 5 ==> t[j + 4] == Release(t[j].binding)
    ensures StageAt(codec, t, j + n) == StageAfterSpawn(t, j, n)
    decreases n
  {
    hide Monitor, StageAt, Authorizes;
    if n > 1 { SpawnStage(codec, t, j, n - 1); }
    StageStep(codec, t, j + n - 1);
  }

  lemma SpawnIsFollowed(codec: Codec, t: seq<Entry>, j: nat)
    requires Monitor(codec, t).Some? && j < |t| && t[j].Spawn?
    ensures Followed(t, j)
  {
    var n := if |t| - j < 5 then |t| - j else 5;
    SpawnStage(codec, t, j, n);
    if j + 5 < |t| { StageStep(codec, t, j + 5); }
  }

  // ----- faults -----

  /** An exchange that was not acknowledged, a cancellation, a farewell, or a begin that failed after routing. */
  predicate Fault(e: Entry) {
    e.Abandon? || (e.Exchange? && (e.outcome.Rejected? || e.event.Cancelled? || e.event.Unavailable?))
  }

  predicate Doomed(stage: Stage) {
    stage.Stopped?
    || ((stage.RefusalReported? || stage.SpawnReported? || stage.Waited? || stage.EndReported? || stage.Released?)
        && !stage.clean)
  }

  lemma FaultDooms(codec: Codec, stage: Stage, e: Entry)
    requires Next(codec, stage, e).Some? && (Fault(e) || Doomed(stage))
    ensures Doomed(Next(codec, stage, e).value)
    ensures Doomed(stage) ==> !e.Spawn? && !e.SpawnError? && !(e.Exchange? && (e.event.Route? || e.event.Intent?))
  {
  }

  lemma {:induction false} DoomLasts(codec: Codec, t: seq<Entry>, i: nat, j: nat)
    requires Monitor(codec, t).Some? && i < j <= |t| && Fault(t[i])
    ensures Doomed(StageAt(codec, t, j))
    decreases j
  {
    StageStep(codec, t, j - 1);
    if i < j - 1 { DoomLasts(codec, t, i, j - 1); }
    FaultDooms(codec, StageAt(codec, t, j - 1), t[j - 1]);
  }

  /** After any fault the session never routes, prepares or spawns again. */
  lemma NothingAfterFault(codec: Codec, t: seq<Entry>, i: nat, j: nat)
    requires Monitor(codec, t).Some? && i < j < |t| && Fault(t[i])
    ensures !t[j].Spawn? && !t[j].SpawnError? && !(t[j].Exchange? && (t[j].event.Route? || t[j].event.Intent?))
  {
    DoomLasts(codec, t, i, j);
    StageStep(codec, t, j);
    FaultDooms(codec, StageAt(codec, t, j), t[j]);
  }

  // ----- every run -----

  /** Every run: authorized spawns in contiguous launches, releases after waits, nothing after a fault. */
  lemma LaunchSafety(codec: Codec, root: Bytes, session: nat, cargo: Bytes, name: Bytes, calls: seq<SessionCall>,
                     c: Custody)
    requires SessionRun(codec, FreshSession(root, session, cargo, name), calls) == Some(c)
    ensures c.session.observer.Some? && Sound(codec, c.session.observer.value)
    ensures var t := c.session.observer.value.trace;
            && (forall j :: 0 <= j < |t| && t[j].Spawn? ==>
                  j >= 2 && Authorizes(codec, t[j - 1], t[j].command, t[j].binding) && Followed(t, j))
            && (forall i, j :: 0 <= i < j < |t| && Fault(t[i]) ==> !t[j].Spawn?)
  {
    hide SessionRun, Sound, Monitor, Authorizes, Followed, Fault;
    SessionRunKept(codec, root, session, cargo, name, calls);
    var t := c.session.observer.value.trace;
    forall j | 0 <= j < |t| && t[j].Spawn?
      ensures j >= 2 && Authorizes(codec, t[j - 1], t[j].command, t[j].binding) && Followed(t, j)
    {
      SpawnFollowsIntent(codec, t, j);
      SpawnIsFollowed(codec, t, j);
    }
    forall i, j | 0 <= i < j < |t| && Fault(t[i]) ensures !t[j].Spawn? { NothingAfterFault(codec, t, i, j); }
  }

  /** Whenever no child is out, every process ever spawned has been waited for, reported, and its carrier released. */
  lemma EverySpawnIsWaited(codec: Codec, root: Bytes, session: nat, cargo: Bytes, name: Bytes, calls: seq<SessionCall>,
                           c: Custody, j: nat)
    requires SessionRun(codec, FreshSession(root, session, cargo, name), calls) == Some(c) && c.child.None?
    requires c.session.observer.Some? && j < |c.session.observer.value.trace|
    requires c.session.observer.value.trace[j].Spawn?
    ensures var t := c.session.observer.value.trace;
            j + 5 < |t| && t[j + 2].Wait? && t[j + 2].binding == t[j].binding
              && EndOf(t[j + 3], t[j].binding, t[j + 2].status) && t[j + 4] == Release(t[j].binding)
  {
    hide Sound, SessionAct;
    SessionRunKept(codec, root, session, cargo, name, calls);
    var t := c.session.observer.value.trace;
    SpawnIsFollowed(codec, t, j);
    assert t[..|t|] == t;
    if |t| <= j + 5 { SpawnStage(codec, t, j, |t| - j); }
  }

  /**
   The process that runs is the one the peer acknowledged: any frozen command the acknowledged body also
   describes executes identically, whatever the ambient state, given that the hash separates the two environments
   and the encoder does not identify two intents.
   */
  lemma SpawnedIsAcknowledged(codec: Codec, e: Entry, command: Command, binding: Binding, other: Command, now: Ambient,
                              then_: Ambient)
    requires Authorizes(codec, e, command, binding) && Authorizes(codec, e, other, binding)
    requires forall f, g :: codec.finalIntent(f) == codec.finalIntent(g) && codec.finalIntent(f).Some? ==> f == g
    requires Separates(codec, Preimage(Listing(Explicit(command))), Preimage(Listing(Explicit(other))))
    ensures Execute(command, now) == Execute(other, then_)
  {
    var f := FinalIntent(Describe(codec, command, binding, NOWHERE).value, e.event.nonce, e.event.responseDigest);
    var g := FinalIntent(Describe(codec, other, binding, NOWHERE).value, e.event.nonce, e.event.responseDigest);
    assert f == g;
    IntentDeterminesExecution(codec, command, other, binding, NOWHERE, NOWHERE, now, then_);
  }
}
