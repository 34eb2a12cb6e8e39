/** The periodic update check: a warning per new verdict, and a persisted verdict that a failed
    check cannot overturn. */
module UpdateVerdicts {
  import opened Optional

  /** What one check learned. An empty `latest` means it learned nothing. */
  datatype Info = Info(newVersion: bool, latest: string)

  datatype Verdict = Verdict(available: bool, latest: string)

  /** `recorded` is the status file; `warned` is the daemon's memory of its last verdict. */
  datatype State = State(recorded: Option<Verdict>, warned: bool, warnings: nat)

  /** One tick: the check's result (None when it produced nothing) and whether the context is done. */
  datatype Tick = Tick(info: Option<Info>, cancelled: bool)

  predicate Conclusive(t: Tick)
  {
    t.info.Some? && t.info.value.latest != ""
  }

  /** The verdict a tick acts on, if any. */
  function Effective(s: State, t: Tick): Option<Verdict>
  {
    if t.cancelled then None
    else if Conclusive(t) then Some(Verdict(t.info.value.newVersion, t.info.value.latest))
    else s.recorded
  }

  function Next(s: State, t: Tick): State
  {
    match Effective(s, t)
    case None => s
    case Some(v) =>
      State(Some(v), v.available, if v.available && !s.warned then s.warnings + 1 else s.warnings)
  }

  function Run(s: State, ticks: seq<Tick>): State
  {
    if ticks == [] then s else Next(Run(s, ticks[..|ticks| - 1]), ticks[|ticks| - 1])
  }

  /** The verdict of the last tick that was not cancelled and learned something, else the one in the
      status file. */
  function LastConclusive(s: State, ticks: seq<Tick>): Option<Verdict>
  {
    if ticks == [] then s.recorded
    else
      var last := ticks[|ticks| - 1];
      if !last.cancelled && last.info.Some? && last.info.value.latest != "" then
        Some(Verdict(last.info.value.newVersion, last.info.value.latest))
      else LastConclusive(s, ticks[..|ticks| - 1])
  }

  /** The verdicts acted on, in order: each tick that is not cancelled repeats the latest one known. */
  function Verdicts(s: State, ticks: seq<Tick>): seq<bool>
  {
    if ticks == [] then []
    else
      var known := LastConclusive(s, ticks);
      Verdicts(s, ticks[..|ticks| - 1])
      + if ticks[|ticks| - 1].cancelled || known == None then [] else [known.value.available]
  }

  /** How often the sequence turns true, starting from false. */
  function RisingEdges(vs: seq<bool>): nat
  {
    if vs == [] then 0
    else
      var n := |vs| - 1;
      RisingEdges(vs[..n]) + if vs[n] && (n == 0 || !vs[n - 1]) then 1 else 0
  }

  lemma {:induction false} OneMoreVerdict(vs: seq<bool>, v: bool)
    ensures RisingEdges(vs + [v]) == RisingEdges(vs) + if v && (vs == [] || !vs[|vs| - 1]) then 1 else 0
  {
    assert (vs + [v])[..|vs|] == vs;
  }

  /** What the daemon holds after acting on these verdicts, for a daemon that started as `s`. */
  predicate Reflects(s: State, t: State, vs: seq<bool>)
  {
    && t.warnings == s.warnings + RisingEdges(vs)
    && t.warned == (vs != [] && vs[|vs| - 1])
    && (vs != [] ==> t.recorded.Some? && t.recorded.value.available == vs[|vs| - 1])
    && (vs == [] ==> t.recorded == s.recorded)
  }

  lemma {:induction false} NextReflects(s: State, t: State, vs: seq<bool>, tick: Tick)
    requires Reflects(s, t, vs)
    ensures Effective(t, tick) == None ==> Reflects(s, Next(t, tick), vs)
    ensures Effective(t, tick).Some? ==> Reflects(s, Next(t, tick), vs + [Effective(t, tick).value.available])
  {
    if Effective(t, tick).Some? {
      OneMoreVerdict(vs, Effective(t, tick).value.available);
    }
  }

  /** Warnings are exactly the rising edges of the verdicts, for a daemon that starts with no memory
      and any status file; its memory and the status file agree with the last one. */
  lemma {:induction false} WarningsAreRisingEdges(s: State, ticks: seq<Tick>)
    requires !s.warned
    ensures Reflects(s, Run(s, ticks), Verdicts(s, ticks))
  {
    if ticks != [] {
      var init, last := ticks[..|ticks| - 1], ticks[|ticks| - 1];
      WarningsAreRisingEdges(s, init);
      OnlyConclusiveTicksDecide(s, init);
      OnlyConclusiveTicksDecide(s, ticks);
      NextReflects(s, Run(s, init), Verdicts(s, init), last);
      assert Verdicts(s, init) + [] == Verdicts(s, init);
    }
  }

  /** An inconclusive tick repeats the persisted verdict or does nothing. */
  lemma {:induction false} OnlyConclusiveTicksDecide(s: State, ticks: seq<Tick>)
    ensures Run(s, ticks).recorded == LastConclusive(s, ticks)
  {
    if ticks != [] {
      OnlyConclusiveTicksDecide(s, ticks[..|ticks| - 1]);
    }
  }

  class Updater {
    var recorded: Option<Verdict>
    var warned: bool
    var warnings: nat

    constructor (recorded: Option<Verdict>)
      ensures View() == State(recorded, false, 0)
    {
      this.recorded, warned, warnings := recorded, false, 0;
    }

    ghost function View(): State
      reads this
    {
      State(recorded, warned, warnings)
    }

    method UpdateTick(t: Tick)
      modifies this
      ensures View() == Next(old(View()), t)
    {
      if t.cancelled {
        return;
      }
      var available := t.info.Some? && t.info.value.newVersion;
      var latest := if t.info.Some? then t.info.value.latest else "";
      if latest == "" {
        if recorded == None {
          return;
        }
        available, latest := recorded.value.available, recorded.value.latest;
      }
      var firstAvail := available && !warned;
      warned := available;
      if firstAvail {
        warnings := warnings + 1;
      }
      recorded := Some(Verdict(available, latest));
    }
  }
}
