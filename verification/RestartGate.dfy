/** Restarting the daemon or tearing it down only when no backup runs, and verifying that a restarted
one came up. */
module RestartGate {

  /** The composed verdict of one daemon-state check. */
  datatype DaemonState = DaemonState(processAlive: bool, aligned: bool, alignChecked: bool, startTS: int)
  {
    predicate FreshAndAligned(preStart: int)
    {
      processAlive && aligned && alignChecked && startTS > preStart
    }
  }

  /** What an outside observer sees, in order. */
  datatype Effect = Probe(busy: bool) | Restart(ok: bool) | Teardown | Check(st: DaemonState)
  {
    /** What would end a running backup. */
    predicate Disrupts()
    {
      Restart? || Teardown?
    }
  }

  datatype Result = Result(restarted: bool, processAlive: bool, aligned: bool, freshInfo: bool, timedOut: bool,
                           backupWaitTimedOut: bool, lockPathUnknown: bool, failed: bool)

  const NOTHING := Result(false, false, false, false, false, false, false, false)

  /** The most recent probe in the log said that no backup was running. */
  predicate LastProbeIdle(log: seq<Effect>)
  {
    log != [] && match log[|log| - 1]
                 case Probe(busy) => !busy
                 case _ => LastProbeIdle(log[..|log| - 1])
  }

  function Restarts(log: seq<Effect>): nat
  {
    if log == [] then 0 else Restarts(log[..|log| - 1]) + if log[|log| - 1].Restart? then 1 else 0
  }

  /** Every restart or teardown in the log was issued when the latest probe had said idle. */
  ghost predicate IdleGated(log: seq<Effect>)
  {
    forall i :: 0 <= i < |log| && log[i].Disrupts() ==> LastProbeIdle(log[..i])
  }

  /** Every probe the wait can make finds the lock held: the first one, one per poll, and a last one
      at the deadline. */
  predicate StillBusy(busy: nat -> bool, ticks: nat)
  {
    forall i: nat :: i <= ticks + 1 ==> busy(i)
  }

  lemma Appended(log: seq<Effect>, e: Effect)
    ensures Restarts(log + [e]) == Restarts(log) + if e.Restart? then 1 else 0
    ensures LastProbeIdle(log + [e]) <==> if e.Probe? then !e.busy else LastProbeIdle(log)
    ensures IdleGated(log) && (e.Disrupts() ==> LastProbeIdle(log)) ==> IdleGated(log + [e])
  {
    assert (log + [e])[..|log|] == log;
    assert forall i :: 0 <= i < |log| ==> (log + [e])[i] == log[i] && (log + [e])[..i] == log[..i];
  }

  function FirstProbes(busy: nat -> bool, n: nat): (log: seq<Effect>)
    ensures |log| == n && forall i :: 0 <= i < n ==> log[i] == Probe(busy(i))
  {
    seq(n, i requires 0 <= i => Probe(busy(i)))
  }

  /** The probe that ends the wait: the first idle one, or the one at the deadline. */
  function FinalProbe(busy: nat -> bool, ticks: nat, from: nat): nat
    requires from <= ticks + 1
    decreases ticks + 1 - from
  {
    if from == ticks + 1 || !busy(from) then from else FinalProbe(busy, ticks, from + 1)
  }

  lemma {:induction false} FinalProbeExactly(busy: nat -> bool, ticks: nat, from: nat)
    requires from <= ticks + 1
    ensures var k := FinalProbe(busy, ticks, from);
            && from <= k <= ticks + 1 && (forall i: nat :: from <= i < k ==> busy(i))
            && (busy(k) ==> k == ticks + 1)
    decreases ticks + 1 - from
  {
    if from <= ticks && busy(from) {
      FinalProbeExactly(busy, ticks, from + 1);
    }
  }

  function WaitLog(busy: nat -> bool, ticks: nat): seq<Effect>
  {
    FirstProbes(busy, FinalProbe(busy, ticks, 0) + 1)
  }

  lemma {:induction false} ProbesDisruptNothing(log: seq<Effect>)
    requires forall i :: 0 <= i < |log| ==> log[i].Probe?
    ensures Restarts(log) == 0 && IdleGated(log)
    ensures LastProbeIdle(log) <==> log != [] && !log[|log| - 1].busy
  {
    if log != [] {
      ProbesDisruptNothing(log[..|log| - 1]);
    }
  }

  /** The wait ends busy if and only if every probe it can make is busy; otherwise its last probe is idle. */
  lemma {:induction false} WaitEnds(busy: nat -> bool, ticks: nat)
    ensures var log := WaitLog(busy, ticks);
            && 0 < |log| <= ticks + 2 && Restarts(log) == 0 && IdleGated(log)
            && (LastProbeIdle(log) <==> !StillBusy(busy, ticks))
            && (log[|log| - 1] == Probe(true) <==> StillBusy(busy, ticks))
  {
    FinalProbeExactly(busy, ticks, 0);
    ProbesDisruptNothing(WaitLog(busy, ticks));
  }

  lemma RestartAfterWait(busy: nat -> bool, ticks: nat, ok: bool)
    requires !StillBusy(busy, ticks)
    ensures var log := WaitLog(busy, ticks) + [Restart(ok)];
            Restarts(log) == 1 && IdleGated(log)
  {
    WaitEnds(busy, ticks);
    Appended(WaitLog(busy, ticks), Restart(ok));
  }

  /** Waits until a probe says idle or the budget runs out. `busy` answers the successive probes;
      `ticks` is how many polls fit into the budget. */
  method WaitForBackupIdle(busy: nat -> bool, ticks: nat) returns (timedOut: bool, log: seq<Effect>)
    ensures log == WaitLog(busy, ticks)
    ensures timedOut <==> forall i: nat :: i <= ticks + 1 ==> busy(i)
    ensures timedOut <==> !LastProbeIdle(log)
    ensures forall i :: 0 <= i < |log| - 1 ==> log[i] == Probe(true)
  {
    WaitEnds(busy, ticks);
    FinalProbeExactly(busy, ticks, 0);
    log := FirstProbes(busy, 0) + [Probe(busy(0))];
    if !busy(0) {
      return false, log;
    }
    var tick := 0;
    while tick < ticks
      invariant 0 <= tick <= ticks && log == FirstProbes(busy, tick + 1)
      invariant FinalProbe(busy, ticks, 0) == FinalProbe(busy, ticks, tick + 1)
      invariant forall i: nat :: i <= tick ==> busy(i)
    {
      var answer := busy(tick + 1);
      log := log + [Probe(answer)];
      assert log == FirstProbes(busy, tick + 2);
      if !answer {
        return false, log;
      }
      tick := tick + 1;
    }
    var answer := busy(ticks + 1);
    log := log + [Probe(answer)];
    assert log == FirstProbes(busy, ticks + 2);
    return answer, log;
  }

  /** Restarts at most once, only with a known lock path and right after an idle probe; success
      without a timeout means the state just observed is live, aligned and newer than before. */
  method RestartAndVerifyDaemon(lockPathKnown: bool, busy: nat -> bool, waitTicks: nat, preStart: int, restartOk: bool,
                                states: nat -> DaemonState, verifyTicks: nat)
    returns (res: Result, log: seq<Effect>)
    ensures Restarts(log) <= 1 && IdleGated(log)
    ensures Restarts(log) == 1 ==> lockPathKnown
    ensures res.restarted ==> Restarts(log) == 1 && log[|log| - 1].Check?
    ensures !lockPathKnown ==> log == [] && res == NOTHING.(lockPathUnknown := true)
    ensures res.backupWaitTimedOut ==>
              Restarts(log) == 0 && res == NOTHING.(backupWaitTimedOut := true)
              && forall i :: 0 <= i < |log| ==> log[i] == Probe(true)
    ensures res.failed <==> Restarts(log) == 1 && !restartOk
    ensures res.restarted && !res.timedOut ==>
              var st := log[|log| - 1].st;
              && res.processAlive && res.aligned && res.freshInfo
              && st.processAlive && st.aligned && st.alignChecked && st.startTS > preStart
    ensures res.restarted && res.timedOut ==>
              forall k :: 0 <= k <= verifyTicks ==>
                var st := states(k);
                !(st.processAlive && st.aligned && st.alignChecked && st.startTS > preStart)
    ensures lockPathKnown && !res.backupWaitTimedOut && !res.failed ==> res.restarted
  {
    if !lockPathKnown {
      return NOTHING.(lockPathUnknown := true), [];
    }
    var timedOut;
    timedOut, log := WaitForBackupIdle(busy, waitTicks);
    if timedOut {
      WaitEnds(busy, waitTicks);
      return NOTHING.(backupWaitTimedOut := true), log;
    }
    RestartAfterWait(busy, waitTicks, restartOk);
    log := log + [Restart(restartOk)];
    if !restartOk {
      return NOTHING.(failed := true), log;
    }
    res := NOTHING.(restarted := true);
    var tick := 0;
    while true
      invariant 0 <= tick <= verifyTicks && Restarts(log) == 1 && IdleGated(log)
      invariant res.restarted && !res.timedOut && !res.backupWaitTimedOut && !res.failed && !res.lockPathUnknown
      invariant forall k :: 0 <= k < tick ==> !states(k).FreshAndAligned(preStart)
      decreases verifyTicks - tick
    {
      var st := states(tick);
      Appended(log, Check(st));
      log := log + [Check(st)];
      res := res.(processAlive := st.processAlive, aligned := st.aligned, freshInfo := st.startTS > preStart);
      if st.processAlive && st.aligned && st.alignChecked && st.startTS > preStart {
        return;
      }
      if tick == verifyTicks {
        return res.(timedOut := true), log;
      }
      tick := tick + 1;
    }
  }
}
