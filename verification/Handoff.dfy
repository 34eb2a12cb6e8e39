/** Handing a standalone backup's outcome to the resident daemon.

A standalone run reads the daemon's pid (a later daemon has another one), writes its outcome into a
single file slot and signals the daemon. The daemon's one waker receives coalesced signals, loads the
slot, pings, and removes the file. All of these are separate steps of a transition system; `Execute`
lets any number of runs, the waker, the daemon's start and shutdown, and the clock interleave in any
order.
*/
module Handoff {
  import opened Optional

  /** Outcomes older than this many seconds are never pinged. */
  const WINDOW: int := 900

  /** The handoff record; the run's number stands for its fresh run id. */
  datatype Outcome = Outcome(rid: nat, ts: int, exitCode: int)

  datatype Ping = Ping(rid: nat, ts: int, judgedAt: int, exitCode: int)

  /** What a run knows about itself when its backup ends. */
  datatype RunInfo = RunInfo(dryRun: bool, attempted: bool, supervised: bool, healthEnabled: bool, backupEnabled: bool,
                             exitCode: int)
  {
    predicate HandsOff()
    {
      !dryRun && attempted && !supervised && healthEnabled && backupEnabled
    }
  }

  /** How far the daemon's own thread has come, named after its latest step. */
  datatype Phase = Down | Handling | Published | Unpublished | Unhandled

  datatype Waker =
    | NotStarted
    | Idle
    | Woken                            // a signal was taken from the channel
    | Read(o: Outcome)                 // the slot was loaded
    | Judged(o: Outcome, at: int)      // young enough: about to ping
    | Stale(o: Outcome, at: int)       // too old: about to remove
    | Pinged(o: Outcome)               // about to remove
    | Returned

  datatype State = State(
    slot: Option<Outcome>,             // the handoff file
    phase: Phase,
    pidFile: Option<nat>,              // the pid file: which daemon it names
    handler: bool,                     // the signal handler is in place
    pending: bool,                     // the buffered signal
    waker: Waker,
    cancelled: bool,
    now: int,
    epoch: nat,                        // how many daemons have been started
    sawPid: map<nat, nat>,             // runs that found a live daemon, and which one
    wrote: map<nat, int>,              // runs that wrote their outcome, and when
    signalled: set<nat>,               // runs whose signal reached this daemon's handler
    finished: set<nat>,                // runs that are past the handoff
    unheard: bool,                     // a signal found the daemon alive without its handler
    pings: seq<Ping>)
  {
    predicate Alive() { phase != Down }

    /** The process with this pid is a running daemon. */
    predicate Live(daemon: nat) { Alive() && daemon == epoch }
  }

  datatype Step =
    | Tick(t: int)
    | ReadPid(i: nat) | WriteOutcome(i: nat) | Signal(i: nat)
    | Wake | Load | Judge | SendPing | RemoveSlot | Return
    | InstallHandler | PublishPid | StartWaker | Cancel | RemovePid | StopHandler | Exit
  {
    /** A step of the daemon's own thread. */
    predicate OfDaemon()
    {
      InstallHandler? || PublishPid? || StartWaker? || Cancel? || RemovePid? || StopHandler? || Exit?
    }

    /** A step of a standalone run. */
    predicate OfRun()
    {
      ReadPid? || WriteOutcome? || Signal?
    }
  }

  datatype Config = Config(runs: nat -> RunInfo, daemonEnabled: bool)

  // ------------------------------------------------------------ the transition system

  /** Whether a step may happen now. */
  predicate Enabled(c: Config, s: State, step: Step)
  {
    match step
    case Tick(_) => true
    case ReadPid(i) => i !in s.sawPid && i !in s.finished
    case WriteOutcome(i) => i in s.sawPid && i !in s.wrote
    case Signal(i) => i in s.sawPid && i in s.wrote && i !in s.finished
    case Wake => s.waker == Idle && s.pending
    case Load => s.waker == Woken
    case Judge => s.waker.Read?
    case SendPing => s.waker.Judged?
    case RemoveSlot => s.waker.Stale? || s.waker.Pinged?
    case Return => s.waker == Idle && s.cancelled
    case InstallHandler => s.phase == Down
    case PublishPid => s.phase == Handling && s.waker == NotStarted
    case StartWaker => s.phase == Published && s.waker == NotStarted
    case Cancel => s.Alive()
    case RemovePid => s.phase == Published && s.waker == Returned
    case StopHandler => s.phase == Unpublished
    case Exit => s.phase == Unhandled
  }

  function Next(c: Config, s: State, step: Step): State
    requires Enabled(c, s, step)
  {
    match step
    case Tick(t) => s.(now := t)
    case ReadPid(i) =>
      if c.runs(i).HandsOff() && s.pidFile.Some? && s.Live(s.pidFile.value) then
        s.(sawPid := s.sawPid[i := s.pidFile.value])
      else s.(finished := s.finished + {i})
    case WriteOutcome(i) =>
      s.(slot := Some(Outcome(i, s.now, c.runs(i).exitCode)), wrote := s.wrote[i := s.now])
    case Signal(i) =>
      if !s.Live(s.sawPid[i]) then s.(finished := s.finished + {i})
      else if s.handler then
        s.(pending := true, signalled := s.signalled + {i}, finished := s.finished + {i})
      else s.(unheard := true, finished := s.finished + {i})
    case Wake => s.(pending := false, waker := Woken)
    case Load => s.(waker := if c.daemonEnabled && s.slot.Some? then Read(s.slot.value) else Idle)
    case Judge =>
      var o := s.waker.o;
      s.(waker := if s.now - o.ts > WINDOW then Stale(o, s.now) else Judged(o, s.now))
    case SendPing =>
      var o := s.waker.o;
      s.(pings := s.pings + [Ping(o.rid, o.ts, s.waker.at, o.exitCode)], waker := Pinged(o))
    case RemoveSlot => s.(slot := None, waker := Idle)
    case Return => s.(waker := Returned)
    case InstallHandler =>
      s.(phase := Handling, handler := true, pending := false, waker := NotStarted, cancelled := false,
         signalled := {}, epoch := s.epoch + 1)
    case PublishPid => s.(phase := Published, pidFile := Some(s.epoch))
    case StartWaker => s.(waker := Idle)
    case Cancel => s.(cancelled := true)
    case RemovePid => s.(phase := Unpublished, pidFile := None)
    case StopHandler => s.(phase := Unhandled, handler := false)
    case Exit => s.(phase := Down, handler := false, waker := NotStarted)
  }

  function Execute(c: Config, s: State, steps: seq<Step>): State
  {
    if steps == [] then s
    else
      var last := steps[|steps| - 1];
      var t := Execute(c, s, steps[..|steps| - 1]);
      if Enabled(c, t, last) then Next(c, t, last) else t
  }

  /** No daemon, no runs, an empty slot; the clock may show anything. */
  predicate Initial(c: Config, s: State)
  {
    && s.phase == Down && s.pidFile == None && !s.handler && s.waker == NotStarted
    && s.slot == None
    && s.sawPid == map[] && s.wrote == map[] && s.signalled == {} && s.finished == {}
    && !s.unheard && s.pings == []
  }

  // ------------------------------------------------------------ invariants

  predicate PingedBefore(s: State, rid: nat)
  {
    exists k :: 0 <= k < |s.pings| && s.pings[k].rid == rid
  }

  /** A run writes only what it may, and only runs that wrote show up anywhere. */
  ghost predicate OnlyWriters(c: Config, s: State)
  {
    && s.wrote.Keys <= s.sawPid.Keys
    && (forall i :: i in s.sawPid ==> c.runs(i).HandsOff())
    && (s.slot.Some? ==> Authentic(c, s, s.slot.value.rid, s.slot.value.ts, s.slot.value.exitCode))
    && (Carries(s.waker) ==> Authentic(c, s, s.waker.o.rid, s.waker.o.ts, s.waker.o.exitCode))
    && (forall k :: 0 <= k < |s.pings| ==>
          Authentic(c, s, s.pings[k].rid, s.pings[k].ts, s.pings[k].exitCode))
  }

  /** The run did write, at this time, and this is the exit code it ended with. */
  predicate Authentic(c: Config, s: State, rid: nat, ts: int, exitCode: int)
  {
    rid in s.wrote && ts == s.wrote[rid] && exitCode == c.runs(rid).exitCode
  }

  predicate Busy(w: Waker)
  {
    w == Woken || Carries(w)
  }

  /** The waker holds an outcome it has loaded. */
  predicate Carries(w: Waker)
  {
    w.Read? || w.Judged? || w.Stale? || w.Pinged?
  }

  /** No run is pinged twice: what the waker is about to ping is new, and what has been pinged stays
      in the slot only until the waker removes it. */
  ghost predicate AtMostOnce(s: State)
  {
    && (forall j, k :: 0 <= j < k < |s.pings| ==> s.pings[j].rid != s.pings[k].rid)
    && (s.waker.Read? || s.waker.Judged? || s.waker.Stale? ==> !PingedBefore(s, s.waker.o.rid))
    && (s.waker.Pinged? ==> PingedBefore(s, s.waker.o.rid))
    && (s.slot.Some? && PingedBefore(s, s.slot.value.rid) ==> s.waker.Pinged? && s.waker.o.rid == s.slot.value.rid)
  }

  ghost predicate NeverStale(s: State)
  {
    && (s.waker.Judged? ==> s.waker.at - s.waker.o.ts <= WINDOW)
    && (s.waker.Stale? ==> s.waker.at - s.waker.o.ts > WINDOW)
    && (forall k :: 0 <= k < |s.pings| ==> s.pings[k].judgedAt - s.pings[k].ts <= WINDOW)
  }

  /** An outcome whose signal was delivered is never left behind while the waker sleeps. */
  predicate NoLostWake(c: Config, s: State)
  {
    c.daemonEnabled && s.Alive() && s.waker != Returned && s.slot.Some? && s.slot.value.rid in s.signalled ==>
      s.pending || Busy(s.waker)
  }

  predicate Lifecycle(s: State)
  {
    && (s.phase == Down || s.phase == Handling ==> s.waker == NotStarted)
    && (s.phase == Unpublished || s.phase == Unhandled ==> s.waker == Returned)
    && (s.waker == Returned ==> s.cancelled || s.phase == Unpublished || s.phase == Unhandled)
  }

  /** Only a run that has written signals. */
  predicate SignalsFollowWrites(s: State)
  {
    forall i :: i in s.signalled ==> i in s.wrote
  }

  /** The handler is in place for as long as the pid file names a daemon, and that daemon is the live one. */
  predicate Covered(s: State)
  {
    && (s.pidFile.Some? ==> s.handler && s.Live(s.pidFile.value))
    && (s.handler <==> s.phase in {Handling, Published, Unpublished})
    && (s.phase != Published ==> s.pidFile == None)
  }

  ghost predicate Inv(c: Config, s: State)
  {
    OnlyWriters(c, s) && AtMostOnce(s) && NeverStale(s) && NoLostWake(c, s) && Lifecycle(s) && Covered(s)
    && SignalsFollowWrites(s)
  }

  lemma PingStep(c: Config, s: State, step: Step)
    requires Enabled(c, s, step)
    ensures var t := Next(c, s, step);
            && (step != SendPing ==> t.pings == s.pings && forall r :: PingedBefore(t, r) <==> PingedBefore(s, r))
            && (step == SendPing ==> forall r :: PingedBefore(t, r) <==> PingedBefore(s, r) || r == s.waker.o.rid)
  {
    var t := Next(c, s, step);
    if step == SendPing {
      assert forall k :: 0 <= k < |s.pings| ==> t.pings[k] == s.pings[k];
      assert t.pings[|s.pings|].rid == s.waker.o.rid;
    }
  }

  /** A step that touches neither the runs' records nor the pings, and takes what it leaves in the
      slot and the waker from where it was. */
  predicate Quiet(s: State, t: State)
  {
    && t.pings == s.pings && t.wrote == s.wrote && t.sawPid == s.sawPid
    && (t.slot == s.slot || t.slot == None)
    && (Carries(t.waker) ==> (Carries(s.waker) && t.waker.o == s.waker.o) || s.slot == Some(t.waker.o))
  }

  lemma DaemonIsQuiet(c: Config, s: State, step: Step)
    requires Enabled(c, s, step) && step.OfDaemon()
    ensures Quiet(s, Next(c, s, step))
  {
  }

  lemma WakerIsQuiet(c: Config, s: State, step: Step)
    requires Enabled(c, s, step) && !step.OfDaemon() && !step.OfRun() && step != SendPing
    ensures Quiet(s, Next(c, s, step))
  {
  }

  lemma SignalIsQuiet(c: Config, s: State, i: nat)
    requires Enabled(c, s, Signal(i))
    ensures Quiet(s, Next(c, s, Signal(i)))
  {
  }

  lemma QuietKeepsWriters(c: Config, s: State, t: State)
    requires OnlyWriters(c, s) && Quiet(s, t)
    ensures OnlyWriters(c, t)
  {
  }

  /** One more run that has read the pid, and may. */
  ghost predicate OneMoreReader(c: Config, s: State, t: State)
  {
    && t.pings == s.pings && t.wrote == s.wrote && t.slot == s.slot && t.waker == s.waker
    && (forall j :: j in s.sawPid ==> j in t.sawPid)
    && (forall j :: j in t.sawPid ==> j in s.sawPid || c.runs(j).HandsOff())
  }

  lemma ReadPidAddsReader(c: Config, s: State, i: nat)
    requires Enabled(c, s, ReadPid(i))
    ensures OneMoreReader(c, s, Next(c, s, ReadPid(i)))
  {
  }

  lemma ReaderKeepsWriters(c: Config, s: State, t: State)
    requires OnlyWriters(c, s) && OneMoreReader(c, s, t)
    ensures OnlyWriters(c, t)
  {
  }

  lemma WriteKeepsWriters(c: Config, s: State, i: nat)
    requires OnlyWriters(c, s) && Enabled(c, s, WriteOutcome(i))
    ensures OnlyWriters(c, Next(c, s, WriteOutcome(i)))
  {
    var t := Next(c, s, WriteOutcome(i));
    assert t.pings == s.pings && t.sawPid == s.sawPid && t.waker == s.waker;
    assert forall rid, ts, x :: Authentic(c, s, rid, ts, x) ==> Authentic(c, t, rid, ts, x);
  }

  lemma PingKeepsWriters(c: Config, s: State)
    requires OnlyWriters(c, s) && Enabled(c, s, SendPing)
    ensures OnlyWriters(c, Next(c, s, SendPing))
  {
    var t := Next(c, s, SendPing);
    assert forall k :: 0 <= k < |s.pings| ==> t.pings[k] == s.pings[k];
    assert forall rid, ts, x :: Authentic(c, t, rid, ts, x) <==> Authentic(c, s, rid, ts, x);
  }

  lemma NextKeepsWriters(c: Config, s: State, step: Step)
    requires OnlyWriters(c, s) && Enabled(c, s, step)
    ensures OnlyWriters(c, Next(c, s, step))
  {
    match step
    case ReadPid(i) =>
      ReadPidAddsReader(c, s, i);
      ReaderKeepsWriters(c, s, Next(c, s, step));
    case WriteOutcome(i) => WriteKeepsWriters(c, s, i);
    case SendPing => PingKeepsWriters(c, s);
    case Signal(i) =>
      SignalIsQuiet(c, s, i);
      QuietKeepsWriters(c, s, Next(c, s, step));
    case _ =>
      if step.OfDaemon() {
        DaemonIsQuiet(c, s, step);
      } else {
        WakerIsQuiet(c, s, step);
      }
      QuietKeepsWriters(c, s, Next(c, s, step));
  }

  lemma OthersKeepCovered(c: Config, s: State, step: Step)
    requires Covered(s) && Enabled(c, s, step) && !step.OfDaemon()
    ensures Covered(Next(c, s, step))
  {
  }

  /** The parts of the state that belong to the daemon and its waker. */
  predicate SameDaemon(s: State, t: State)
  {
    && t.phase == s.phase && t.pidFile == s.pidFile && t.handler == s.handler && t.waker == s.waker
    && t.cancelled == s.cancelled && t.epoch == s.epoch
  }

  lemma ReadPidLeavesDaemon(c: Config, s: State, i: nat)
    requires Enabled(c, s, ReadPid(i))
    ensures SameDaemon(s, Next(c, s, ReadPid(i)))
  {
  }

  lemma RunsLeaveDaemon(c: Config, s: State, step: Step)
    requires Enabled(c, s, step) && step.OfRun()
    ensures SameDaemon(s, Next(c, s, step))
  {
    if step.ReadPid? {
      ReadPidLeavesDaemon(c, s, step.i);
    }
  }

  lemma WakerKeepsLifecycle(c: Config, s: State, step: Step)
    requires Lifecycle(s) && Enabled(c, s, step) && !step.OfDaemon() && !step.OfRun()
    ensures Lifecycle(Next(c, s, step))
  {
  }

  lemma DaemonKeepsLifecycle(c: Config, s: State, step: Step)
    requires Lifecycle(s) && Covered(s) && Enabled(c, s, step) && step.OfDaemon()
    ensures Lifecycle(Next(c, s, step)) && Covered(Next(c, s, step))
  {
  }

  lemma NextKeepsLifecycle(c: Config, s: State, step: Step)
    requires Lifecycle(s) && Covered(s) && Enabled(c, s, step)
    ensures Lifecycle(Next(c, s, step)) && Covered(Next(c, s, step))
  {
    if step.OfDaemon() {
      DaemonKeepsLifecycle(c, s, step);
    } else {
      OthersKeepCovered(c, s, step);
      if step.OfRun() {
        RunsLeaveDaemon(c, s, step);
      } else {
        WakerKeepsLifecycle(c, s, step);
      }
    }
  }

  lemma NextKeepsSignals(c: Config, s: State, step: Step)
    requires SignalsFollowWrites(s) && Enabled(c, s, step)
    ensures SignalsFollowWrites(Next(c, s, step))
  {
    if !step.Signal? && !step.WriteOutcome? {
      assert Next(c, s, step).signalled <= s.signalled;
    }
  }

  lemma WriteKeepsAtMostOnce(c: Config, s: State, i: nat)
    requires OnlyWriters(c, s) && AtMostOnce(s) && Enabled(c, s, WriteOutcome(i))
    ensures AtMostOnce(Next(c, s, WriteOutcome(i)))
  {
    PingStep(c, s, WriteOutcome(i));
    assert !PingedBefore(s, i);
  }

  lemma PingKeepsAtMostOnce(c: Config, s: State)
    requires AtMostOnce(s) && Enabled(c, s, SendPing)
    ensures AtMostOnce(Next(c, s, SendPing))
  {
    PingStep(c, s, SendPing);
    assert forall k :: 0 <= k < |s.pings| ==> s.pings[k].rid != s.waker.o.rid;
  }

  lemma LoadKeepsAtMostOnce(c: Config, s: State)
    requires AtMostOnce(s) && Enabled(c, s, Load)
    ensures AtMostOnce(Next(c, s, Load))
  {
    PingStep(c, s, Load);
  }

  lemma OtherStepsKeepAtMostOnce(c: Config, s: State, step: Step)
    requires AtMostOnce(s) && Lifecycle(s) && Enabled(c, s, step)
    requires !step.WriteOutcome? && step != SendPing && step != Load
    ensures AtMostOnce(Next(c, s, step))
  {
    var t := Next(c, s, step);
    PingStep(c, s, step);
    assert t.pings == s.pings && (t.slot == s.slot || t.slot == None);
    assert t.waker.Read? || t.waker.Pinged? ==> t.waker == s.waker;
  }

  lemma NextKeepsAtMostOnce(c: Config, s: State, step: Step)
    requires OnlyWriters(c, s) && AtMostOnce(s) && Lifecycle(s) && Enabled(c, s, step)
    ensures AtMostOnce(Next(c, s, step))
  {
    match step
    case WriteOutcome(i) => WriteKeepsAtMostOnce(c, s, i);
    case SendPing => PingKeepsAtMostOnce(c, s);
    case Load => LoadKeepsAtMostOnce(c, s);
    case _ => OtherStepsKeepAtMostOnce(c, s, step);
  }

  lemma NextKeepsNeverStale(c: Config, s: State, step: Step)
    requires NeverStale(s) && Enabled(c, s, step)
    ensures NeverStale(Next(c, s, step))
  {
    var t := Next(c, s, step);
    if step == SendPing {
      assert forall k :: 0 <= k < |s.pings| ==> t.pings[k] == s.pings[k];
    } else {
      assert t.pings == s.pings;
    }
  }

  lemma DaemonKeepsWakes(c: Config, s: State, step: Step)
    requires NoLostWake(c, s) && Lifecycle(s) && Enabled(c, s, step) && step.OfDaemon()
    ensures NoLostWake(c, Next(c, s, step))
  {
  }

  lemma RunsKeepWakes(c: Config, s: State, step: Step)
    requires NoLostWake(c, s) && SignalsFollowWrites(s) && Enabled(c, s, step) && step.OfRun()
    ensures NoLostWake(c, Next(c, s, step))
  {
  }

  lemma WakerKeepsWakes(c: Config, s: State, step: Step)
    requires NoLostWake(c, s) && Enabled(c, s, step) && !step.OfDaemon() && !step.OfRun()
    ensures NoLostWake(c, Next(c, s, step))
  {
  }

  lemma NextKeepsWakes(c: Config, s: State, step: Step)
    requires NoLostWake(c, s) && Lifecycle(s) && SignalsFollowWrites(s) && Enabled(c, s, step)
    ensures NoLostWake(c, Next(c, s, step))
  {
    if step.OfDaemon() {
      DaemonKeepsWakes(c, s, step);
    } else if step.OfRun() {
      RunsKeepWakes(c, s, step);
    } else {
      WakerKeepsWakes(c, s, step);
    }
  }

  lemma {:induction false} InvAlways(c: Config, s: State, steps: seq<Step>)
    requires Initial(c, s)
    ensures Inv(c, Execute(c, s, steps))
  {
    if steps != [] {
      var last := steps[|steps| - 1];
      InvAlways(c, s, steps[..|steps| - 1]);
      var t := Execute(c, s, steps[..|steps| - 1]);
      if Enabled(c, t, last) {
        NextKeepsWriters(c, t, last);
        NextKeepsLifecycle(c, t, last);
        NextKeepsAtMostOnce(c, t, last);
        NextKeepsNeverStale(c, t, last);
        NextKeepsWakes(c, t, last);
        NextKeepsSignals(c, t, last);
      }
    }
  }

  // ------------------------------------------------------------ what the protocol promises

  /** Over every interleaving: each run is pinged at most once, and then with the time it wrote its
      outcome and its own exit code, judged no later than the window after that time; and a pid file means
      that the daemon it names is alive with its signal handler in place. */
  lemma HandoffIsSafe(c: Config, s: State, steps: seq<Step>)
    requires Initial(c, s)
    ensures var t := Execute(c, s, steps);
            && (forall j, k :: 0 <= j < k < |t.pings| ==> t.pings[j].rid != t.pings[k].rid)
            && (forall k :: 0 <= k < |t.pings| ==>
                  var p := t.pings[k];
                  && p.rid in t.wrote && p.ts == t.wrote[p.rid] && p.judgedAt - p.ts <= 900
                  && p.exitCode == c.runs(p.rid).exitCode)
            && (t.pidFile.Some? ==> t.handler && t.Live(t.pidFile.value))
  {
    InvAlways(c, s, steps);
  }

  /** Before the waker returns, no signalled outcome stays in the slot with the waker asleep and no
      wake-up pending. */
  lemma NoSignalledOutcomeIsForgotten(c: Config, s: State, steps: seq<Step>)
    requires Initial(c, s) && c.daemonEnabled
    ensures var t := Execute(c, s, steps);
            t.Alive() && t.slot.Some? && t.slot.value.rid in t.signalled && !t.pending ==>
              Busy(t.waker) || t.waker == Returned
  {
    InvAlways(c, s, steps);
  }

  /** A dry run, a run without an attempt, a supervised child or a run with monitoring or backups
      switched off never writes an outcome and never signals. */
  lemma OnlyEntitledRunsHandOff(c: Config, s: State, steps: seq<Step>, i: nat)
    requires Initial(c, s)
    requires var r := c.runs(i);
             r.dryRun || !r.attempted || r.supervised || !r.healthEnabled || !r.backupEnabled
    ensures var t := Execute(c, s, steps);
            && i !in t.wrote && i !in t.signalled
            && (t.slot.Some? ==> t.slot.value.rid != i)
            && (forall k :: 0 <= k < |t.pings| ==> t.pings[k].rid != i)
  {
    InvAlways(c, s, steps);
  }

  /** Every other run that finds a live daemon's pid goes on to hand off. */
  lemma EntitledRunGoesOn(c: Config, s: State, i: nat)
    requires Enabled(c, s, ReadPid(i)) && s.pidFile.Some? && s.Live(s.pidFile.value)
    requires var r := c.runs(i);
             !r.dryRun && r.attempted && !r.supervised && r.healthEnabled && r.backupEnabled
    ensures var t := Next(c, s, ReadPid(i));
            i in t.sawPid && t.sawPid[i] == s.pidFile.value && i !in t.finished
  {
  }

  lemma {:induction false} ExecuteStep(c: Config, s: State, steps: seq<Step>, last: Step)
    ensures var t := Execute(c, s, steps);
            Execute(c, s, steps + [last]) == if Enabled(c, t, last) then Next(c, t, last) else t
  {
  }

  lemma Extend(c: Config, s: State, steps: seq<Step>, t: State, last: Step) returns (steps': seq<Step>, t': State)
    requires Execute(c, s, steps) == t && Enabled(c, t, last)
    ensures t' == Next(c, t, last) && Execute(c, s, steps') == t'
  {
    steps', t' := steps + [last], Next(c, t, last);
    ExecuteStep(c, s, steps, last);
  }

  // ------------------------------------------------------------ what becomes of each outcome

  predicate InSlot(s: State, i: nat)
  {
    s.slot.Some? && s.slot.value.rid == i
  }

  /** The waker still has to settle this outcome. */
  predicate InHand(s: State, i: nat)
  {
    (s.waker.Read? || s.waker.Judged? || s.waker.Stale?) && s.waker.o.rid == i
  }

  /** Written, not pinged yet, and still where the waker can get at it. */
  predicate Held(s: State, i: nat)
  {
    !PingedBefore(s, i) && (InSlot(s, i) || InHand(s, i))
  }

  /** The steps that forfeit an unpinged outcome: another run overwrites it before the waker loads it;
      the waker, done with another outcome, removes the file with it inside; or the waker removes it
      because it was older than the window when judged. */
  predicate Losing(s: State, step: Step, i: nat)
  {
    !PingedBefore(s, i) &&
    match step
    case WriteOutcome(_) => InSlot(s, i) && !InHand(s, i)
    case RemoveSlot =>
      Carries(s.waker) &&
      if s.waker.o.rid == i then s.waker.Stale? && s.waker.at - s.waker.o.ts > WINDOW else InSlot(s, i)
    case _ => false
  }

  /** Some step that was taken lost the outcome. */
  predicate Lost(c: Config, s: State, steps: seq<Step>, i: nat)
  {
    steps != [] &&
    var init, last := steps[..|steps| - 1], steps[|steps| - 1];
    var t := Execute(c, s, init);
    Lost(c, s, init, i) || (Enabled(c, t, last) && Losing(t, last, i))
  }

  /** The fate of an outcome: never written, held, pinged or lost. */
  ghost predicate Accounted(s: State, lost: bool, i: nat)
  {
    && (i !in s.wrote ==> !PingedBefore(s, i) && !Held(s, i) && !lost)
    && (i in s.wrote ==>
          || (PingedBefore(s, i) && !lost)
          || (Held(s, i) && !lost)
          || (!PingedBefore(s, i) && !Held(s, i) && lost))
  }

  lemma WriteAccounts(c: Config, s: State, j: nat, lost: bool, i: nat)
    requires Inv(c, s) && Enabled(c, s, WriteOutcome(j)) && Accounted(s, lost, i)
    ensures Accounted(Next(c, s, WriteOutcome(j)), lost || Losing(s, WriteOutcome(j), i), i)
  {
    PingStep(c, s, WriteOutcome(j));
  }

  lemma PingAccounts(c: Config, s: State, lost: bool, i: nat)
    requires Inv(c, s) && Enabled(c, s, SendPing) && Accounted(s, lost, i)
    ensures Accounted(Next(c, s, SendPing), lost, i)
  {
    PingStep(c, s, SendPing);
  }

  lemma RemoveAccounts(c: Config, s: State, lost: bool, i: nat)
    requires Inv(c, s) && Enabled(c, s, RemoveSlot) && Accounted(s, lost, i)
    ensures Accounted(Next(c, s, RemoveSlot), lost || Losing(s, RemoveSlot, i), i)
  {
    PingStep(c, s, RemoveSlot);
  }

  /** A step after which the same outcome is in the slot and whatever was in hand still is. */
  lemma QuietStepAccounts(s: State, t: State, lost: bool, i: nat)
    requires Accounted(s, lost, i)
    requires t.pings == s.pings && t.slot == s.slot && t.wrote == s.wrote
    requires InHand(s, i) ==> InHand(t, i)
    requires InHand(t, i) ==> InHand(s, i) || InSlot(s, i)
    ensures Accounted(t, lost, i)
  {
    assert PingedBefore(t, i) <==> PingedBefore(s, i);
  }

  lemma LoadAccounts(c: Config, s: State, lost: bool, i: nat)
    requires Enabled(c, s, Load) && Accounted(s, lost, i)
    ensures Accounted(Next(c, s, Load), lost, i)
  {
    QuietStepAccounts(s, Next(c, s, Load), lost, i);
  }

  /** Apart from loading, judging, pinging and removing, no step touches an outcome in hand. */
  predicate Untouched(s: State, t: State)
  {
    && t.pings == s.pings && t.slot == s.slot && t.wrote == s.wrote
    && (t.waker == s.waker || (!Carries(t.waker) && !Carries(s.waker)))
  }

  lemma DaemonTouchesNothing(c: Config, s: State, step: Step)
    requires Lifecycle(s) && Enabled(c, s, step) && step.OfDaemon()
    ensures Untouched(s, Next(c, s, step))
  {
  }

  lemma OthersTouchNothing(c: Config, s: State, step: Step)
    requires Enabled(c, s, step) && !step.OfDaemon()
    requires !step.WriteOutcome? && step != Load && step != Judge && step != SendPing && step != RemoveSlot
    ensures Untouched(s, Next(c, s, step))
  {
  }

  lemma OtherStepsAccount(c: Config, s: State, step: Step, lost: bool, i: nat)
    requires Lifecycle(s) && Enabled(c, s, step) && Accounted(s, lost, i)
    requires !step.WriteOutcome? && step != SendPing && step != RemoveSlot && step != Load
    ensures Accounted(Next(c, s, step), lost, i)
  {
    if step.OfDaemon() {
      DaemonTouchesNothing(c, s, step);
    } else if step != Judge {
      OthersTouchNothing(c, s, step);
    }
    QuietStepAccounts(s, Next(c, s, step), lost, i);
  }

  lemma StepAccounts(c: Config, s: State, step: Step, lost: bool, i: nat)
    requires Inv(c, s) && Enabled(c, s, step) && Accounted(s, lost, i)
    ensures Accounted(Next(c, s, step), lost || Losing(s, step, i), i)
  {
    match step
    case WriteOutcome(j) => WriteAccounts(c, s, j, lost, i);
    case SendPing => PingAccounts(c, s, lost, i);
    case RemoveSlot => RemoveAccounts(c, s, lost, i);
    case Load => LoadAccounts(c, s, lost, i);
    case _ => OtherStepsAccount(c, s, step, lost, i);
  }

  /** Over every interleaving, each outcome that was written is exactly one of held, pinged or lost. */
  lemma {:induction false} EveryOutcomeIsAccountedFor(c: Config, s: State, steps: seq<Step>, i: nat)
    requires Initial(c, s)
    ensures Accounted(Execute(c, s, steps), Lost(c, s, steps, i), i)
  {
    if steps != [] {
      var init, last := steps[..|steps| - 1], steps[|steps| - 1];
      var t := Execute(c, s, init);
      EveryOutcomeIsAccountedFor(c, s, init, i);
      InvAlways(c, s, init);
      if Enabled(c, t, last) {
        StepAccounts(c, t, last, Lost(c, s, init, i), i);
      }
    }
  }

  /** When the handoff is exactly once: an outcome that has left the file and the waker's hands was
      pinged, and then once, if and only if no step of the run was a losing one. */
  lemma PingedExactlyWhenNotLost(c: Config, s: State, steps: seq<Step>, i: nat)
    requires Initial(c, s)
    ensures var t := Execute(c, s, steps);
            i in t.wrote && !InSlot(t, i) && !InHand(t, i) ==>
              (PingedBefore(t, i) <==> !Lost(c, s, steps, i))
    ensures var t := Execute(c, s, steps);
            forall j, k :: 0 <= j < |t.pings| && 0 <= k < |t.pings| ==>
              t.pings[j].rid == i && t.pings[k].rid == i ==> j == k
  {
    EveryOutcomeIsAccountedFor(c, s, steps, i);
    InvAlways(c, s, steps);
  }

  // ------------------------------------------------------------ signals that arrive late

  /** A run that read this daemon's pid and has yet to signal. */
  predicate Awaited(s: State, i: nat)
  {
    i in s.sawPid && s.sawPid[i] == s.epoch && i !in s.finished
  }

  /** While this daemon is still the last one, a signal has found it without its handler. */
  predicate MeetsNoHandler(c: Config, s: State, more: seq<Step>)
  {
    Execute(c, s, more).unheard && Execute(c, s, more).epoch == s.epoch
  }

  /** Nothing can go wrong any more: a later daemon has started, or nobody will signal this one. */
  ghost predicate OutOfReach(s: State, epoch: nat)
  {
    || s.epoch > epoch
    || (s.epoch == epoch && !s.unheard && s.pidFile == None && s.phase in {Down, Unpublished, Unhandled}
        && forall i :: !Awaited(s, i))
  }

  lemma NextStaysOutOfReach(c: Config, s: State, step: Step, epoch: nat)
    requires OutOfReach(s, epoch) && Enabled(c, s, step)
    ensures OutOfReach(Next(c, s, step), epoch)
  {
    var t := Next(c, s, step);
    if s.epoch == epoch && step != InstallHandler {
      if step.Signal? {
        assert !Awaited(s, step.i);
      }
      assert t.sawPid == s.sawPid && t.finished >= s.finished;
      assert forall i :: Awaited(t, i) ==> Awaited(s, i);
    }
  }

  lemma {:induction false} StaysOutOfReach(c: Config, s: State, more: seq<Step>)
    requires OutOfReach(s, s.epoch)
    ensures OutOfReach(Execute(c, s, more), s.epoch)
  {
    if more != [] {
      var init, last := more[..|more| - 1], more[|more| - 1];
      StaysOutOfReach(c, s, init);
      if Enabled(c, Execute(c, s, init), last) {
        NextStaysOutOfReach(c, Execute(c, s, init), last, s.epoch);
      }
    }
  }

  /** The awaited run writes, if it has not, and signals after the handler is gone. */
  lemma {:induction false} LateSignal(c: Config, s: State, i: nat) returns (more: seq<Step>)
    requires OnlyWriters(c, s) && Covered(s) && Awaited(s, i) && s.phase in {Unpublished, Unhandled}
    ensures MeetsNoHandler(c, s, more)
  {
    var t;
    more, t := [], s;
    if s.phase == Unpublished {
      more, t := Extend(c, s, more, t, StopHandler);
    }
    if i !in s.wrote {
      more, t := Extend(c, s, more, t, WriteOutcome(i));
    }
    more, t := Extend(c, s, more, t, Signal(i));
  }

  /** From every reachable state with the pid file withdrawn: a signal can still find this daemon alive
      without its handler if and only if a run that read the pid before has yet to signal. */
  lemma {:induction false} SignalMeetsNoHandlerExactly(c: Config, s: State, steps: seq<Step>)
    requires Initial(c, s)
    requires Execute(c, s, steps).phase in {Unpublished, Unhandled} && !Execute(c, s, steps).unheard
    ensures var t := Execute(c, s, steps);
            (exists more :: MeetsNoHandler(c, t, more)) <==> (exists i :: Awaited(t, i))
  {
    var t := Execute(c, s, steps);
    InvAlways(c, s, steps);
    if i :| Awaited(t, i) {
      var more := LateSignal(c, t, i);
    } else {
      forall more ensures !MeetsNoHandler(c, t, more) {
        StaysOutOfReach(c, t, more);
      }
    }
  }

  // ------------------------------------------------------------ two runs the design does not exclude

  lemma {:induction false} Started(c: Config, s: State) returns (steps: seq<Step>, t: State)
    requires Initial(c, s)
    ensures Execute(c, s, steps) == t
    ensures t == s.(phase := Published, pidFile := Some(s.epoch + 1), handler := true, pending := false,
                    waker := Idle, cancelled := false, signalled := {}, epoch := s.epoch + 1)
  {
    steps, t := [], s;
    steps, t := Extend(c, s, steps, t, InstallHandler);
    steps, t := Extend(c, s, steps, t, PublishPid);
    steps, t := Extend(c, s, steps, t, StartWaker);
  }

  /** The daemon has withdrawn its pid while a run that read it before has yet to signal. */
  lemma {:induction false} WithdrawnMeanwhile(c: Config, s: State, i: nat) returns (steps: seq<Step>, t: State)
    requires Initial(c, s) && c.runs(i).HandsOff()
    ensures Execute(c, s, steps) == t && t.phase == Unpublished && Awaited(t, i)
  {
    steps, t := Started(c, s);
    steps, t := Extend(c, s, steps, t, ReadPid(i));
    steps, t := Extend(c, s, steps, t, Cancel);
    steps, t := Extend(c, s, steps, t, Return);
    steps, t := Extend(c, s, steps, t, RemovePid);
  }

  /** Keeping the handler installed while the pid is visible does not cover a run that read the pid
      earlier: its signal can still find the daemon alive with the default action restored. */
  lemma {:induction false} LateSignalMeetsNoHandler(c: Config, s: State, i: nat)
    returns (steps: seq<Step>, more: seq<Step>)
    requires Initial(c, s) && c.runs(i).HandsOff()
    ensures Execute(c, s, steps).phase == Unpublished && MeetsNoHandler(c, Execute(c, s, steps), more)
  {
    var t;
    steps, t := WithdrawnMeanwhile(c, s, i);
    InvAlways(c, s, steps);
    more := LateSignal(c, t, i);
  }

  /** The waker is about to ping the outcome of `i` while `j` has only read the pid. */
  lemma {:induction false} FirstJudged(c: Config, s: State, i: nat, j: nat) returns (steps: seq<Step>, t: State)
    requires Initial(c, s) && c.daemonEnabled && i != j && c.runs(i).HandsOff() && c.runs(j).HandsOff()
    ensures Execute(c, s, steps) == t
    ensures t.waker.Judged? && t.waker.o.rid == i && t.phase == Published && t.handler && t.pings == []
    ensures j in t.sawPid && t.sawPid[j] == t.epoch && j !in t.wrote && j !in t.finished
  {
    steps, t := Started(c, s);
    steps, t := Extend(c, s, steps, t, ReadPid(i));
    steps, t := Extend(c, s, steps, t, ReadPid(j));
    steps, t := Extend(c, s, steps, t, WriteOutcome(i));
    steps, t := Extend(c, s, steps, t, Signal(i));
    steps, t := Extend(c, s, steps, t, Wake);
    steps, t := Extend(c, s, steps, t, Load);
    steps, t := Extend(c, s, steps, t, Judge);
  }

  /** Then `j` writes, and the waker removes the file with the second outcome inside. */
  lemma {:induction false} SecondRemoved(c: Config, s: State, i: nat, j: nat) returns (steps: seq<Step>, t: State)
    requires Initial(c, s) && c.daemonEnabled && i != j && c.runs(i).HandsOff() && c.runs(j).HandsOff()
    ensures Execute(c, s, steps) == t
    ensures t.waker == Idle && t.slot == None && t.phase == Published && t.handler
    ensures |t.pings| == 1 && t.pings[0].rid == i
    ensures j in t.sawPid && t.sawPid[j] == t.epoch && j in t.wrote && j !in t.finished
  {
    steps, t := FirstJudged(c, s, i, j);
    steps, t := Extend(c, s, steps, t, WriteOutcome(j));
    steps, t := Extend(c, s, steps, t, SendPing);
    steps, t := Extend(c, s, steps, t, RemoveSlot);
  }

  /** The handoff is at most once, not exactly once: a second outcome written while the first is being
      pinged is removed with it, although its signal is delivered. */
  lemma {:induction false} SecondOutcomeCanBeLost(c: Config, s: State, i: nat, j: nat) returns (steps: seq<Step>)
    requires Initial(c, s) && c.daemonEnabled && i != j && c.runs(i).HandsOff() && c.runs(j).HandsOff()
    ensures var t := Execute(c, s, steps);
            && j in t.signalled && t.slot == None && t.waker == Idle && !t.pending
            && |t.pings| == 1 && t.pings[0].rid == i && Lost(c, s, steps, j)
  {
    var t;
    steps, t := SecondRemoved(c, s, i, j);
    steps, t := Extend(c, s, steps, t, Signal(j));
    steps, t := Extend(c, s, steps, t, Wake);
    steps, t := Extend(c, s, steps, t, Load);
    PingedExactlyWhenNotLost(c, s, steps, j);
  }

  // ------------------------------------------------------------ the two sides as code

  /** The waker's steps for one wake-up when nothing interferes. */
  function ProcessAlone(c: Config, s: State): State
    requires s.waker == Woken
  {
    var read := Next(c, s, Load);
    if read.waker == Idle then read
    else
      var judged := Next(c, read, Judge);
      var settled := if judged.waker.Judged? then Next(c, judged, SendPing) else judged;
      Next(c, settled, RemoveSlot)
  }

  lemma {:induction false} AloneSettles(c: Config, s: State)
    requires AtMostOnce(s) && c.daemonEnabled && s.waker == Woken && s.slot.Some?
    ensures var u := ProcessAlone(c, s);
            && u.slot == None && u.waker == Idle
            && (PingedBefore(u, s.slot.value.rid) <==> s.now - s.slot.value.ts <= WINDOW)
  {
    var o, u := s.slot.value, ProcessAlone(c, s);
    assert !PingedBefore(s, o.rid);
    if s.now - o.ts > WINDOW {
      assert u.pings == s.pings;
    } else {
      assert u.pings[|s.pings|].rid == o.rid;
    }
  }

  /** Over every run so far: a wake-up that nothing interrupts settles the outcome in the slot. It is
      pinged if and only if it is not older than the window, and the file is gone either way. */
  lemma {:induction false} UndisturbedWakeSettles(c: Config, s: State, steps: seq<Step>)
    requires Initial(c, s) && c.daemonEnabled
    requires Execute(c, s, steps).waker == Woken && Execute(c, s, steps).slot.Some?
    ensures var t := Execute(c, s, steps);
            var u := ProcessAlone(c, t);
            && u.slot == None && u.waker == Idle
            && (PingedBefore(u, t.slot.value.rid) <==> t.now - t.slot.value.ts <= WINDOW)
  {
    InvAlways(c, s, steps);
    AloneSettles(c, Execute(c, s, steps));
  }

  class Files {
    var slot: Option<Outcome>
    var pidVisible: bool
    var pending: bool
    var pings: seq<Ping>

    constructor ()
      ensures slot == None && !pidVisible && !pending && pings == []
    {
      slot, pidVisible, pending, pings := None, false, false, [];
    }

    /** The standalone side: every guard first, then the outcome, then the signal. */
    method MaybeHandoffManualBackup(info: RunInfo, rid: nat, now: int)
      modifies this`slot, this`pending
      ensures info.dryRun || !info.attempted || info.supervised || !info.healthEnabled || !info.backupEnabled
              || !pidVisible ==>
                slot == old(slot) && pending == old(pending)
      ensures !info.dryRun && info.attempted && !info.supervised && info.healthEnabled && info.backupEnabled
              && pidVisible ==>
                slot == Some(Outcome(rid, now, info.exitCode)) && pending
    {
      if info.dryRun {
        return;
      }
      if !info.attempted || info.supervised {
        return;
      }
      if !info.healthEnabled || !info.backupEnabled || !pidVisible {
        return;
      }
      slot := Some(Outcome(rid, now, info.exitCode));
      pending := true;
    }

    /** The daemon's side does what the waker's steps do. */
    method ProcessManualOutcome(c: Config, now: int)
      modifies this`slot, this`pings
      ensures forall s: State :: s.waker == Woken && s.slot == old(slot) && s.pings == old(pings) && s.now == now ==>
                slot == ProcessAlone(c, s).slot && pings == ProcessAlone(c, s).pings
    {
      if !c.daemonEnabled || slot == None {
        return;
      }
      var mo := slot.value;
      if now - mo.ts > WINDOW {
        slot := None;
        return;
      }
      pings := pings + [Ping(mo.rid, mo.ts, now, mo.exitCode)];
      slot := None;
    }
  }
}
