/** Switching a host between the cron scheduler and the resident daemon.

Every external step (reading or writing the crontab, writing or deleting the unit file, systemctl,
rewriting backup.env) may fail, and a run may be cut off between any two of them. The operations are
given twice: as functions on the host's state, over which the theorems quantify, and as methods of a
class that change the state step by step and leave a trace of the states they pass through.
*/
module Scheduler {
  import opened Sequences
  import opened Text
  import opened Crontab
  import opened CrontabFile
  import RestartGate

  // ------------------------------------------------------------ state and faults

  /** `enabled` is systemd's enablement of the unit; it schedules nothing once the unit file is gone. */
  datatype Host = Host(tab: string, unitFile: bool, enabled: bool, daemonMode: bool, optOut: bool)

  /** A systemctl call may report failure and still have taken effect. */
  datatype Call = Call(ok: bool, effect: bool)
  {
    predicate Took() { ok || effect }
  }

  datatype Faults = Faults(
    tokenBad: bool,        // the unit's command line would be word-split
    unitWrite: bool, reload: bool, enable: Call, disable: Call, unitRemove: bool,
    tabRead: bool, tabWrite: bool,
    envWrite: bool,
    configLoad: bool,      // the configuration cannot be read
    symlinkMissing: bool,  // /usr/local/bin/proxsave does not exist
    busy: nat -> bool,     // what successive looks at the backup lock find
    polls: nat)            // how many polls the wait for the lock allows
  {
    /** Every look at the lock that the wait allows finds it held. */
    predicate StillBusy()
    {
      RestartGate.StillBusy(busy, polls)
    }
  }

  /** What identifies proxsave on this host: the resolved binary, empty when it is unknown, and the
      base directory. */
  datatype Site = Site(exec: string, baseDir: string)
  {
    predicate Valid()
    {
      exec == "" || PlainPath(exec)
    }

    /** The reinstalled cron entry reaches the crontab. */
    predicate Rewrites(f: Faults)
    {
      exec != "" && !f.tabRead && !f.tabWrite
    }

    function Scripts(): set<string>
    {
      LegacyScripts(baseDir)
    }

    function CorrectPaths(): seq<string>
    {
      [CANONICAL] + if exec != "" && exec != CANONICAL then [exec] else []
    }

    /** The token a fresh entry runs, and the paths a reinstall treats as current. */
    function NewCommand(symlinkMissing: bool): string
    {
      if symlinkMissing then exec else CANONICAL
    }

    function ReinstallPaths(symlinkMissing: bool): seq<string>
    {
      var cmd := NewCommand(symlinkMissing);
      [cmd] + if exec != "" && exec != cmd then [exec] else []
    }
  }

  // ------------------------------------------------------------ the steps

  function InstallService(h: Host, f: Faults): (Host, bool)
  {
    if f.tokenBad || f.unitWrite then (h, false)
    else
      var u := h.(unitFile := true);
      if f.reload then (u, false)
      else (u.(enabled := u.enabled || f.enable.Took()), f.enable.ok)
  }

  function RemoveService(h: Host, f: Faults): (Host, bool)
  {
    var d := h.(enabled := h.enabled && !f.disable.Took());
    if f.unitRemove && d.unitFile then (d, false)
    else (d.(unitFile := false), !f.reload)
  }

  function RemoveCronEntry(h: Host, site: Site, f: Faults): (Host, bool)
  {
    if f.tabRead then (h, false)
    else
      var lines := ReadLines(h.tab);
      var kept := Keep(lines, (l: string) => !Canonical(l, site.CorrectPaths()));
      if |kept| == |lines| then (h, true)
      else if f.tabWrite then (h, false)
      else (h.(tab := WriteLines(kept)), true)
  }

  /** Points entries for the old entrypoint at the new one; failures are only logged. */
  function RepointEntries(h: Host, f: Faults): Host
  {
    if f.tabRead then h
    else
      var lines := ReadLines(h.tab);
      if !AnyLine(lines, Repoints) || f.tabWrite then h
      else h.(tab := WriteLines(RepointedAll(lines)))
  }

  /** Reinstalls the cron entry; an unknown binary and failures are only logged, so the caller cannot
      see them. */
  function MigrateCron(h: Host, site: Site, schedule: string, f: Faults): Host
  {
    if !site.Rewrites(f) then h
    else
      var lines := Reinstalled(ReadLines(h.tab), site.Scripts(), site.ReinstallPaths(f.symlinkMissing),
                               schedule, site.NewCommand(f.symlinkMissing));
      h.(tab := WriteLines(lines))
  }

  // ------------------------------------------------------------ the operations

  datatype Verdict = Done | InstallFailed | ConfigUnreadable | BackupRunning | TeardownFailed

  function ApplyDaemonMode(h: Host, site: Site, f: Faults): (Host, Verdict)
  {
    var (u, ok) := InstallService(h, f);
    if !ok then (u, InstallFailed)
    else
      var v := RemoveCronEntry(u, site, f).0;
      (if f.envWrite then v else v.(daemonMode := true, optOut := false), Done)
  }

  function ApplyCronMode(h: Host, site: Site, schedule: string, optOut: bool, f: Faults): (Host, Verdict)
  {
    if f.configLoad then (h, ConfigUnreadable)
    else if f.StillBusy() then (h, BackupRunning)
    else
      var u := MigrateCron(h, site, schedule, f);
      var v := if f.envWrite then u else u.(daemonMode := false, optOut := u.optOut || optOut);
      var (w, ok) := RemoveService(v, f);
      (w, if ok then Done else TeardownFailed)
  }

  /** What an outside observer sees of a revert: the looks at the lock, then the teardown. */
  function CronModeEffects(f: Faults): seq<RestartGate.Effect>
  {
    if f.configLoad then []
    else
      var probes := RestartGate.WaitLog(f.busy, f.polls);
      if f.StillBusy() then probes else probes + [RestartGate.Teardown]
  }

  function AutoMigrate(h: Host, site: Site, f: Faults): Host
  {
    if f.configLoad || h.daemonMode || h.optOut then h else ApplyDaemonMode(h, site, f).0
  }

  /** `wanted` is the wizard's choice; without one the configured mode decides (cron if unreadable). */
  datatype Choice = WantCron | WantDaemon | Unset

  predicate DaemonChosen(h: Host, wanted: Choice, f: Faults)
  {
    wanted == WantDaemon || (wanted == Unset && !f.configLoad && h.daemonMode)
  }

  function Reconcile(h: Host, site: Site, wanted: Choice, f: Faults): Host
  {
    if DaemonChosen(h, wanted, f) then
      var (u, ok) := InstallService(h, f);
      if ok then RemoveCronEntry(u, site, f).0 else u
    else if h.unitFile then RemoveService(h, f).0
    else h
  }

  /** The wizard records its choice before anything else; if that fails the installation ends there. */
  function Configure(h: Host, wanted: Choice, f: Faults): (Host, bool)
  {
    if wanted == Unset then (h, true)
    else if f.envWrite then (h, false)
    else (h.(daemonMode := wanted == WantDaemon), true)
  }

  function FinishInstall(h: Host, site: Site, schedule: string, wanted: Choice, m: Faults, f: Faults): Host
  {
    var (c, ok) := Configure(h, wanted, m);
    if ok then Reconcile(MigrateCron(c, site, schedule, m), site, wanted, f) else c
  }

  function FinishUpgrade(h: Host, site: Site, installed: bool, m: Faults, f: Faults): Host
  {
    var u := RepointEntries(h, m);
    if installed then AutoMigrate(u, site, f) else u
  }

  datatype Op =
    | DaemonSetup
    | DaemonRemove(schedule: string)
    | Upgrade(installed: bool, repoint: Faults)
    | Install(schedule: string, wanted: Choice, migration: Faults)

  /** One run of the tool. An upgrade repoints the crontab, with faults of its own, and migrates only
      when the new binary was installed. An installation records the wizard's choice and writes the cron
      entry, with faults of their own, and then reconciles. */
  function Apply(h: Host, site: Site, op: Op, f: Faults): Host
  {
    match op
    case DaemonSetup => ApplyDaemonMode(h, site, f).0
    case DaemonRemove(schedule) => ApplyCronMode(h, site, schedule, true, f).0
    case Upgrade(installed, m) => FinishUpgrade(h, site, installed, m, f)
    case Install(schedule, wanted, m) => FinishInstall(h, site, schedule, wanted, m, f)
  }

  // ------------------------------------------------------------ the states a run passes through

  /** Unit file written, unit enabled. */
  function InstallTrace(h: Host, f: Faults): seq<Host>
  {
    if f.tokenBad || f.unitWrite then []
    else [h.(unitFile := true)] + if f.reload then [] else [InstallService(h, f).0]
  }

  /** Unit disabled, unit file gone. */
  function RemoveTrace(h: Host, f: Faults): seq<Host>
  {
    var d := h.(enabled := h.enabled && !f.disable.Took());
    [d] + if f.unitRemove && d.unitFile then [] else [d.(unitFile := false)]
  }

  function DropTrace(h: Host, site: Site, f: Faults): seq<Host>
  {
    var lines := ReadLines(h.tab);
    if f.tabRead || |Keep(lines, (l: string) => !Canonical(l, site.CorrectPaths()))| == |lines| then []
    else [RemoveCronEntry(h, site, f).0]
  }

  function RepointTrace(h: Host, f: Faults): seq<Host>
  {
    if f.tabRead || !AnyLine(ReadLines(h.tab), Repoints) then [] else [RepointEntries(h, f)]
  }

  function MigrateTrace(h: Host, site: Site, schedule: string, f: Faults): seq<Host>
  {
    if site.exec == "" || f.tabRead then [] else [MigrateCron(h, site, schedule, f)]
  }

  /** Unit written and enabled, cron entry gone, mode recorded. */
  function DaemonModeTrace(h: Host, site: Site, f: Faults): seq<Host>
  {
    var (u, ok) := InstallService(h, f);
    if ok then InstallTrace(h, f) + DropTrace(u, site, f) + [ApplyDaemonMode(h, site, f).0] else InstallTrace(h, f)
  }

  /** Entry written, mode recorded, unit disabled, unit gone. */
  function CronModeTrace(h: Host, site: Site, schedule: string, optOut: bool, f: Faults): seq<Host>
  {
    if f.configLoad || f.StillBusy() then []
    else
      var u := MigrateCron(h, site, schedule, f);
      var v := if f.envWrite then u else u.(daemonMode := false, optOut := u.optOut || optOut);
      MigrateTrace(h, site, schedule, f) + [v] + RemoveTrace(v, f)
  }

  function AutoMigrateTrace(h: Host, site: Site, f: Faults): seq<Host>
  {
    if f.configLoad || h.daemonMode || h.optOut then [] else DaemonModeTrace(h, site, f)
  }

  function ReconcileTrace(h: Host, site: Site, wanted: Choice, f: Faults): seq<Host>
  {
    if DaemonChosen(h, wanted, f) then
      var (u, ok) := InstallService(h, f);
      InstallTrace(h, f) + if ok then DropTrace(u, site, f) else []
    else if h.unitFile then RemoveTrace(h, f)
    else []
  }

  function FinishInstallTrace(h: Host, site: Site, schedule: string, wanted: Choice, m: Faults, f: Faults): seq<Host>
  {
    var (c, ok) := Configure(h, wanted, m);
    var u := MigrateCron(c, site, schedule, m);
    [c] + if ok then MigrateTrace(c, site, schedule, m) + ReconcileTrace(u, site, wanted, f) else []
  }

  function FinishUpgradeTrace(h: Host, site: Site, installed: bool, m: Faults, f: Faults): seq<Host>
  {
    RepointTrace(h, m) + if installed then AutoMigrateTrace(RepointEntries(h, m), site, f) else []
  }

  function Trace(h: Host, site: Site, op: Op, f: Faults): seq<Host>
  {
    match op
    case DaemonSetup => DaemonModeTrace(h, site, f)
    case DaemonRemove(schedule) => CronModeTrace(h, site, schedule, true, f)
    case Upgrade(installed, m) => FinishUpgradeTrace(h, site, installed, m, f)
    case Install(schedule, wanted, m) => FinishInstallTrace(h, site, schedule, wanted, m, f)
  }

  /** One run, cut off after `cut` of its states. */
  datatype Event = Event(op: Op, f: Faults, cut: nat)

  function After(h: Host, site: Site, e: Event): Host
  {
    Reached(h, Trace(h, site, e.op, e.f), Apply(h, site, e.op, e.f), e.cut)
  }

  /** Where a run from `h` to `done` through `t` stands after `cut` of its states. */
  function Reached(h: Host, t: seq<Host>, done: Host, cut: nat): Host
  {
    if cut == 0 then h else if cut <= |t| then t[cut - 1] else done
  }

  function Run(h: Host, site: Site, events: seq<Event>): Host
  {
    if events == [] then h
    else After(Run(h, site, events[..|events| - 1]), site, events[|events| - 1])
  }

  predicate WellFormed(e: Event)
  {
    match e.op
    case DaemonRemove(schedule) => WellFormedSchedule(schedule) && OneLine(schedule)
    case Install(schedule, _, _) => WellFormedSchedule(schedule) && OneLine(schedule)
    case _ => true
  }

  // ------------------------------------------------------------ what the operator and the host rely on

  /** Lines that are neither blank nor proxsave's own. */
  predicate OperatorLine(l: string, site: Site)
  {
    NonBlank(l) && !Owned(l, site.Scripts(), site.CorrectPaths())
  }

  function OperatorLines(h: Host, site: Site): seq<string>
  {
    Keep(ReadLines(h.tab), (l: string) => OperatorLine(l, site))
  }

  function CronEntries(h: Host, site: Site): seq<string>
  {
    Keep(ReadLines(h.tab), (l: string) => Canonical(l, site.CorrectPaths()))
  }

  predicate Scheduled(h: Host, site: Site)
  {
    CronEntries(h, site) != [] || (h.unitFile && h.enabled)
  }

  /** No line of the crontab ends in a carriage return once the file has been read. */
  predicate CleanTab(h: Host)
  {
    forall i :: 0 <= i < |ReadLines(h.tab)| ==> !EndsInReturn(ReadLines(h.tab)[i])
  }

  /** The run takes the unit down. */
  predicate TearsDown(h: Host, e: Event)
  {
    match e.op
    case DaemonRemove(_) => !e.f.configLoad && !e.f.StillBusy()
    case Install(_, wanted, m) =>
      && h.unitFile && (wanted == Unset || !m.envWrite)
      && (wanted == WantCron || (wanted == Unset && (e.f.configLoad || !h.daemonMode)))
    case _ => false
  }

  /** The rewrite that must carry the schedule before a unit is taken down did land. */
  predicate RewriteLands(e: Event, site: Site)
  {
    match e.op
    case DaemonRemove(_) => site.Rewrites(e.f)
    case Install(_, _, m) => site.Rewrites(m)
    case _ => true
  }

  // ------------------------------------------------------------ lemmas about lines

  lemma SameOwner(l: string, site: Site, symlinkMissing: bool)
    ensures Canonical(l, site.ReinstallPaths(symlinkMissing)) <==> Canonical(l, site.CorrectPaths())
    ensures Owned(l, site.Scripts(), site.ReinstallPaths(symlinkMissing))
       <==> Owned(l, site.Scripts(), site.CorrectPaths())
  {
    EntrypointsRunTheBinary(l);
  }

  lemma CommandMeansNonBlank(l: string)
    requires Command(l) != ""
    ensures NonBlank(l)
  {
    CommandFromFields(l);
    assert TrimQuotes("") == "";
  }

  lemma {:induction false} KeepSame(lines: seq<string>, p: string -> bool, q: string -> bool)
    requires forall l :: p(l) <==> q(l)
    ensures Keep(lines, p) == Keep(lines, q)
  {
    if lines != [] {
      KeepSame(lines[..|lines| - 1], p, q);
    }
  }

  lemma {:induction false} KeptLines(lines: seq<string>, p: string -> bool)
    ensures forall l :: l in Keep(lines, p) ==> l in lines
  {
    if lines != [] {
      KeptLines(lines[..|lines| - 1], p);
    }
  }

  lemma {:induction false} TailDropped(lines: seq<string>)
    ensures forall l :: l in DropEmptyTail(lines) ==> l in lines
  {
    if lines != [] {
      TailDropped(lines[..|lines| - 1]);
    }
  }

  /** Lines fit to be written back: single lines without a trailing carriage return. */
  predicate Writable(lines: seq<string>)
  {
    forall l :: l in lines ==> OneLine(l) && !EndsInReturn(l)
  }

  lemma WritableRead(h: Host)
    requires CleanTab(h)
    ensures Writable(ReadLines(h.tab))
  {
    ReadLinesAreLines(h.tab);
  }

  /** Writing back keeps every line that matters and leaves a clean file. */
  lemma {:induction false} WriteBack(h: Host, lines: seq<string>, site: Site)
    requires Writable(lines) && site.Valid()
    ensures var u := h.(tab := WriteLines(lines));
            && CleanTab(u)
            && OperatorLines(u, site) == Keep(lines, (l: string) => OperatorLine(l, site))
            && CronEntries(u, site) == Keep(lines, (l: string) => Canonical(l, site.CorrectPaths()))
  {
    assert forall i :: 0 <= i < |lines| ==> lines[i] in lines;
    forall l | Canonical(l, site.CorrectPaths()) ensures NonBlank(l) {
      CommandMeansNonBlank(l);
    }
    ReadBackKeeps(lines, (l: string) => OperatorLine(l, site));
    ReadBackKeeps(lines, (l: string) => Canonical(l, site.CorrectPaths()));
    ReadBack(lines);
    ChopNothing(lines);
    TailDropped(lines);
  }

  lemma {:induction false} ReadBackLines(lines: seq<string>)
    requires Writable(lines)
    ensures forall l :: l in ReadLines(WriteLines(lines)) ==> l in lines
  {
    assert forall i :: 0 <= i < |lines| ==> lines[i] in lines;
    ReadBack(lines);
    ChopNothing(lines);
    TailDropped(lines);
  }

  /** What a reinstall writes, as the operator and the scheduler see it. */
  lemma {:induction false} ReinstallLines(lines: seq<string>, site: Site, schedule: string, missing: bool)
    requires site.Valid() && site.exec != "" && Writable(lines) && WellFormedSchedule(schedule) && OneLine(schedule)
    ensures var r := Reinstalled(lines, site.Scripts(), site.ReinstallPaths(missing), schedule,
                                 site.NewCommand(missing));
            && Writable(r)
            && Keep(r, (l: string) => OperatorLine(l, site)) == Keep(lines, (l: string) => OperatorLine(l, site))
            && Keep(r, (l: string) => Canonical(l, site.CorrectPaths())) == [Entry(schedule, site.NewCommand(missing))]
  {
    var cmd, paths := site.NewCommand(missing), site.ReinstallPaths(missing);
    var mine := (l: string) => !Owned(l, site.Scripts(), paths);
    var op := (l: string) => OperatorLine(l, site);
    var ours := (l: string) => Canonical(l, site.CorrectPaths());
    var e := Entry(schedule, cmd);
    var kept := Keep(lines, mine);
    PathsArePlain();
    EntryCommand(schedule, cmd);
    EntryIsWritable(schedule, cmd);
    SameOwner(e, site, missing);
    KeptLines(lines, mine);
    forall l ensures op(l) <==> mine(l) && op(l) {
      SameOwner(l, site, missing);
    }
    KeepTwice(lines, mine, op, op);
    forall l | mine(l) ensures !ours(l) {
      SameOwner(l, site, missing);
    }
    KeepNone(lines, mine, ours);
    assert (kept + [e])[..|kept|] == kept;
    assert ours(e);
    assert !op(e);
  }

  lemma EntryIsWritable(schedule: string, cmd: string)
    requires OneLine(schedule) && Solid(cmd)
    ensures OneLine(Entry(schedule, cmd)) && !EndsInReturn(Entry(schedule, cmd))
  {
  }

  // ------------------------------------------------------------ the steps keep the operator's lines

  /** Operator lines are untouched and the crontab stays clean. */
  ghost predicate KeepsOperator(h: Host, u: Host, site: Site)
  {
    CleanTab(u) && OperatorLines(u, site) == OperatorLines(h, site)
  }

  lemma {:induction false} MigrateCronKeeps(h: Host, site: Site, schedule: string, f: Faults)
    requires site.Valid() && CleanTab(h) && WellFormedSchedule(schedule) && OneLine(schedule)
    ensures KeepsOperator(h, MigrateCron(h, site, schedule, f), site)
    ensures site.Rewrites(f) ==>
              var e := Entry(schedule, site.NewCommand(f.symlinkMissing));
              CronEntries(MigrateCron(h, site, schedule, f), site) == [e]
    ensures !site.Rewrites(f) ==> MigrateCron(h, site, schedule, f) == h
  {
    if site.Rewrites(f) {
      WritableRead(h);
      ReinstallLines(ReadLines(h.tab), site, schedule, f.symlinkMissing);
      WriteBack(h, Reinstalled(ReadLines(h.tab), site.Scripts(), site.ReinstallPaths(f.symlinkMissing), schedule,
                               site.NewCommand(f.symlinkMissing)), site);
    }
  }

  lemma {:induction false} RemoveCronEntryKeeps(h: Host, site: Site, f: Faults)
    requires site.Valid() && CleanTab(h)
    ensures var u := RemoveCronEntry(h, site, f).0;
            KeepsOperator(h, u, site) && u == h.(tab := u.tab)
    ensures RemoveCronEntry(h, site, f).1 ==> CronEntries(RemoveCronEntry(h, site, f).0, site) == []
  {
    var lines := ReadLines(h.tab);
    var mine := (l: string) => Canonical(l, site.CorrectPaths());
    var other := (l: string) => !Canonical(l, site.CorrectPaths());
    var op := (l: string) => OperatorLine(l, site);
    var kept := Keep(lines, other);
    WritableRead(h);
    KeptLines(lines, other);
    KeepTwice(lines, other, op, op);
    KeepNone(lines, other, mine);
    WriteBack(h, kept, site);
    if |kept| == |lines| {
      KeepAll(lines, other);
    }
  }

  /** Both before and after, a repointed line is proxsave's own. */
  lemma RepointedIsOwn(line: string)
    requires Repoints(line)
    ensures RunsBinary(line) && RunsBinary(Repointed(line))
  {
    RepointedCommand(line);
    EntrypointsRunTheBinary(line);
    EntrypointsRunTheBinary(Repointed(line));
  }

  lemma RepointedIsWritable(line: string)
    requires OneLine(line) && !EndsInReturn(line)
    ensures OneLine(Repointed(line)) && !EndsInReturn(Repointed(line))
  {
    PathsArePlain();
    if Repoints(line) {
      var n := IndexOfText(line, LEGACY_SYMLINK);
      if n >= 0 {
        ReplacedIsWritable(line[..n], CANONICAL, line[n + |LEGACY_SYMLINK|..], line, n + |LEGACY_SYMLINK|);
      }
    }
  }

  lemma ReplacedIsWritable(a: string, q: string, b: string, line: string, k: nat)
    requires OneLine(line) && !EndsInReturn(line) && k <= |line| && b == line[k..] && a <= line && Solid(q)
    ensures OneLine(a + q + b) && !EndsInReturn(a + q + b)
  {
    var t := a + q + b;
    assert t[|t| - 1] == if b == "" then q[|q| - 1] else line[|line| - 1];
  }

  lemma {:induction false} KeepRepointed(lines: seq<string>, site: Site)
    ensures Keep(RepointedAll(lines), (l: string) => OperatorLine(l, site))
         == Keep(lines, (l: string) => OperatorLine(l, site))
    ensures |Keep(RepointedAll(lines), (l: string) => Canonical(l, site.CorrectPaths()))|
         == |Keep(lines, (l: string) => Canonical(l, site.CorrectPaths()))|
  {
    if lines != [] {
      var init, last := lines[..|lines| - 1], lines[|lines| - 1];
      KeepRepointed(init, site);
      if Repoints(last) {
        RepointedIsOwn(last);
      }
      assert (RepointedAll(init) + [Repointed(last)])[..|RepointedAll(init)|] == RepointedAll(init);
    }
  }

  lemma {:induction false} WritableRepointed(lines: seq<string>)
    requires Writable(lines)
    ensures Writable(RepointedAll(lines))
  {
    if lines != [] {
      WritableRepointed(lines[..|lines| - 1]);
      RepointedIsWritable(lines[|lines| - 1]);
    }
  }

  /** Repointing changes no operator line and no number of cron entries. */
  lemma {:induction false} RepointEntriesKeeps(h: Host, site: Site, f: Faults)
    requires site.Valid() && CleanTab(h)
    ensures var u := RepointEntries(h, f);
            KeepsOperator(h, u, site) && u == h.(tab := u.tab) && |CronEntries(u, site)| == |CronEntries(h, site)|
  {
    var lines := ReadLines(h.tab);
    if RepointEntries(h, f) != h {
      WritableRead(h);
      WritableRepointed(lines);
      KeepRepointed(lines, site);
      WriteBack(h, RepointedAll(lines), site);
    }
  }

  lemma {:induction false} KeepNone(lines: seq<string>, p: string -> bool, q: string -> bool)
    requires forall l :: p(l) ==> !q(l)
    ensures Keep(Keep(lines, p), q) == []
  {
    if lines != [] {
      var init, last := lines[..|lines| - 1], lines[|lines| - 1];
      KeepNone(init, p, q);
      assert (Keep(init, p) + [last])[..|Keep(init, p)|] == Keep(init, p);
      assert Keep(init, p) + [] == Keep(init, p);
    }
  }

  lemma {:induction false} KeepAll(lines: seq<string>, p: string -> bool)
    ensures |Keep(lines, p)| <= |lines|
    ensures |Keep(lines, p)| == |lines| ==> Keep(lines, p) == lines
  {
    if lines != [] {
      KeepAll(lines[..|lines| - 1], p);
    }
  }

  // ------------------------------------------------------------ every run of the tool

  lemma {:induction false} DaemonStepsKeep(h: Host, site: Site, f: Faults)
    requires site.Valid() && CleanTab(h)
    ensures var (u, ok) := InstallService(h, f);
            && u.tab == h.tab && (h.unitFile && h.enabled ==> u.unitFile && u.enabled)
            && (ok ==> u.unitFile && u.enabled)
    ensures var u := RemoveCronEntry(InstallService(h, f).0, site, f).0;
            && KeepsOperator(h, u, site)
            && u.unitFile == InstallService(h, f).0.unitFile && u.enabled == InstallService(h, f).0.enabled
  {
    RemoveCronEntryKeeps(InstallService(h, f).0, site, f);
  }

  lemma {:induction false} DaemonModeKeeps(h: Host, site: Site, f: Faults)
    requires site.Valid() && CleanTab(h)
    ensures KeepsOperator(h, ApplyDaemonMode(h, site, f).0, site)
    ensures Scheduled(h, site) ==> Scheduled(ApplyDaemonMode(h, site, f).0, site)
  {
    DaemonStepsKeep(h, site, f);
  }

  lemma {:induction false} CronModeKeeps(h: Host, site: Site, schedule: string, optOut: bool, f: Faults)
    requires site.Valid() && CleanTab(h) && WellFormedSchedule(schedule) && OneLine(schedule)
    ensures KeepsOperator(h, ApplyCronMode(h, site, schedule, optOut, f).0, site)
    ensures f.configLoad || f.StillBusy() ==> ApplyCronMode(h, site, schedule, optOut, f).0 == h
    ensures site.Rewrites(f) && Scheduled(h, site) ==>
              Scheduled(ApplyCronMode(h, site, schedule, optOut, f).0, site)
  {
    MigrateCronKeeps(h, site, schedule, f);
  }

  lemma {:induction false} ReconcileKeeps(h: Host, site: Site, wanted: Choice, f: Faults)
    requires site.Valid() && CleanTab(h)
    ensures KeepsOperator(h, Reconcile(h, site, wanted, f), site)
    ensures CronEntries(h, site) != [] ==> Scheduled(Reconcile(h, site, wanted, f), site)
    ensures DaemonChosen(h, wanted, f) || !h.unitFile ==>
              Scheduled(h, site) ==> Scheduled(Reconcile(h, site, wanted, f), site)
  {
    DaemonStepsKeep(h, site, f);
  }

  /** The wizard's choice touches neither the crontab nor the unit. */
  lemma ConfigureKeeps(h: Host, site: Site, wanted: Choice, f: Faults)
    ensures var c := Configure(h, wanted, f).0;
            && c == h.(daemonMode := c.daemonMode)
            && (CleanTab(h) ==> KeepsOperator(h, c, site))
            && CronEntries(c, site) == CronEntries(h, site) && (Scheduled(c, site) <==> Scheduled(h, site))
            && forall g: Faults :: DaemonChosen(c, wanted, g) <==>
                 wanted == WantDaemon || (wanted == Unset && !g.configLoad && h.daemonMode)
  {
  }

  lemma {:induction false} FinishInstallKeeps(h: Host, site: Site, e: Event)
    requires site.Valid() && CleanTab(h) && WellFormed(e) && e.op.Install?
    ensures KeepsOperator(h, Apply(h, site, e.op, e.f), site)
    ensures (TearsDown(h, e) ==> RewriteLands(e, site)) && Scheduled(h, site) ==>
              Scheduled(Apply(h, site, e.op, e.f), site)
  {
    var Install(schedule, wanted, m) := e.op;
    var c := Configure(h, wanted, m).0;
    ConfigureKeeps(h, site, wanted, m);
    MigrateCronKeeps(c, site, schedule, m);
    ReconcileKeeps(MigrateCron(c, site, schedule, m), site, wanted, e.f);
  }

  /** One complete run of the tool keeps the operator's lines, and keeps the host scheduled unless it
      takes the unit down without the crontab rewrite that must come before. */
  lemma {:induction false} ApplyKeeps(h: Host, site: Site, e: Event)
    requires site.Valid() && CleanTab(h) && WellFormed(e)
    ensures KeepsOperator(h, Apply(h, site, e.op, e.f), site)
    ensures (TearsDown(h, e) ==> RewriteLands(e, site)) && Scheduled(h, site) ==>
              Scheduled(Apply(h, site, e.op, e.f), site)
  {
    match e.op
    case DaemonSetup => DaemonModeKeeps(h, site, e.f);
    case DaemonRemove(schedule) => CronModeKeeps(h, site, schedule, true, e.f);
    case Upgrade(installed, m) =>
      RepointEntriesKeeps(h, site, m);
      DaemonModeKeeps(RepointEntries(h, m), site, e.f);
    case Install(_, _, _) => FinishInstallKeeps(h, site, e);
  }

  // ------------------------------------------------------------ runs that are cut off

  /** A state that is as good as `h`: operator lines kept and, if the run is a safe one, scheduled if
      `h` was. */
  ghost predicate AsGood(h: Host, u: Host, site: Site, safe: bool)
  {
    KeepsOperator(h, u, site) && (safe && Scheduled(h, site) ==> Scheduled(u, site))
  }

  ghost predicate AllAsGood(h: Host, us: seq<Host>, site: Site, safe: bool)
  {
    forall i :: 0 <= i < |us| ==> AsGood(h, us[i], site, safe)
  }

  lemma AsGoodThen(h: Host, u: Host, us: seq<Host>, site: Site, safe: bool)
    requires AsGood(h, u, site, safe) && AllAsGood(u, us, site, safe)
    ensures AllAsGood(h, us, site, safe)
  {
  }

  lemma AsGoodJoined(h: Host, us: seq<Host>, vs: seq<Host>, site: Site, safe: bool)
    requires AllAsGood(h, us, site, safe) && AllAsGood(h, vs, site, safe)
    ensures AllAsGood(h, us + vs, site, safe)
  {
  }

  /** The same crontab, and the unit still enabled if it was, or an entry to fall back on. */
  lemma SameTabAsGood(h: Host, u: Host, site: Site, safe: bool)
    requires CleanTab(h) && u.tab == h.tab
    requires safe ==> (h.unitFile && h.enabled ==> u.unitFile && u.enabled) || CronEntries(h, site) != []
    ensures AsGood(h, u, site, safe)
  {
  }

  lemma {:induction false} InstallStatesKeep(h: Host, site: Site, f: Faults)
    requires site.Valid() && CleanTab(h)
    ensures AllAsGood(h, InstallTrace(h, f), site, true) && AsGood(h, InstallService(h, f).0, site, true)
  {
    SameTabAsGood(h, h.(unitFile := true), site, true);
    SameTabAsGood(h, InstallService(h, f).0, site, true);
  }

  lemma {:induction false} DropStatesKeep(h: Host, site: Site, f: Faults)
    requires site.Valid() && CleanTab(h) && h.unitFile && h.enabled
    ensures AllAsGood(h, DropTrace(h, site, f), site, true) && AsGood(h, RemoveCronEntry(h, site, f).0, site, true)
  {
    RemoveCronEntryKeeps(h, site, f);
  }

  lemma {:induction false} RemoveStatesKeep(h: Host, site: Site, f: Faults, safe: bool)
    requires CleanTab(h) && (safe ==> CronEntries(h, site) != [])
    ensures AllAsGood(h, RemoveTrace(h, f), site, safe)
  {
    var d := h.(enabled := h.enabled && !f.disable.Took());
    SameTabAsGood(h, d, site, safe);
    SameTabAsGood(h, d.(unitFile := false), site, safe);
  }

  lemma {:induction false} MigrateStatesKeep(h: Host, site: Site, schedule: string, f: Faults)
    requires site.Valid() && CleanTab(h) && WellFormedSchedule(schedule) && OneLine(schedule)
    ensures AllAsGood(h, MigrateTrace(h, site, schedule, f), site, true)
    ensures AsGood(h, MigrateCron(h, site, schedule, f), site, true)
  {
    MigrateCronKeeps(h, site, schedule, f);
  }

  lemma Weaker(h: Host, us: seq<Host>, site: Site, safe: bool)
    requires AllAsGood(h, us, site, true)
    ensures AllAsGood(h, us, site, safe)
  {
    assert forall i :: 0 <= i < |us| && AsGood(h, us[i], site, true) ==> AsGood(h, us[i], site, safe);
  }

  /** A switch to the daemon that is interrupted between any two steps leaves a scheduled host
      scheduled. */
  lemma {:induction false} InterruptedSetupStaysScheduled(h: Host, site: Site, f: Faults)
    requires site.Valid() && CleanTab(h)
    ensures AllAsGood(h, DaemonModeTrace(h, site, f), site, true)
  {
    var (u, ok) := InstallService(h, f);
    InstallStatesKeep(h, site, f);
    if ok {
      DropStatesKeep(u, site, f);
      AsGoodThen(h, u, DropTrace(u, site, f), site, true);
      DaemonModeKeeps(h, site, f);
      AsGoodJoined(h, InstallTrace(h, f), DropTrace(u, site, f), site, true);
      AsGoodJoined(h, InstallTrace(h, f) + DropTrace(u, site, f), [ApplyDaemonMode(h, site, f).0], site, true);
    }
  }

  /** So does an interrupted revert to cron whose crontab rewrite lands, because the fallback is
      written before anything is taken down. */
  lemma {:induction false} InterruptedRevertStaysScheduled(h: Host, site: Site, schedule: string, optOut: bool,
                                                           f: Faults, safe: bool)
    requires site.Valid() && CleanTab(h) && WellFormedSchedule(schedule) && OneLine(schedule)
    requires safe ==> f.configLoad || f.StillBusy() || site.Rewrites(f)
    ensures AllAsGood(h, CronModeTrace(h, site, schedule, optOut, f), site, safe)
  {
    if !f.configLoad && !f.StillBusy() {
      var u := MigrateCron(h, site, schedule, f);
      var v := if f.envWrite then u else u.(daemonMode := false, optOut := u.optOut || optOut);
      MigrateStatesKeep(h, site, schedule, f);
      Weaker(h, MigrateTrace(h, site, schedule, f), site, safe);
      MigrateCronKeeps(h, site, schedule, f);
      RecordedThenRemoved(h, u, v, site, f, safe);
      AsGoodJoined(h, MigrateTrace(h, site, schedule, f), [v] + RemoveTrace(v, f), site, safe);
      Associative(MigrateTrace(h, site, schedule, f), [v], RemoveTrace(v, f));
    }
  }

  lemma {:induction false} RecordedThenRemoved(h: Host, u: Host, v: Host, site: Site, f: Faults, safe: bool)
    requires AsGood(h, u, site, true) && v == u.(daemonMode := v.daemonMode, optOut := v.optOut)
    requires safe ==> CronEntries(u, site) != []
    ensures AllAsGood(h, [v] + RemoveTrace(v, f), site, safe)
  {
    SameTabAsGood(u, v, site, safe);
    RemoveStatesKeep(v, site, f, safe);
    AsGoodThen(u, v, RemoveTrace(v, f), site, safe);
    AsGoodJoined(u, [v], RemoveTrace(v, f), site, safe);
    AsGoodThen(h, u, [v] + RemoveTrace(v, f), site, safe);
  }

  lemma {:induction false} ReconcileStatesKeep(h: Host, site: Site, wanted: Choice, f: Faults, safe: bool)
    requires site.Valid() && CleanTab(h)
    requires safe && h.unitFile && !DaemonChosen(h, wanted, f) ==> CronEntries(h, site) != []
    ensures AllAsGood(h, ReconcileTrace(h, site, wanted, f), site, safe)
  {
    if DaemonChosen(h, wanted, f) {
      var (u, ok) := InstallService(h, f);
      InstallStatesKeep(h, site, f);
      if ok {
        DropStatesKeep(u, site, f);
        AsGoodThen(h, u, DropTrace(u, site, f), site, true);
        AsGoodJoined(h, InstallTrace(h, f), DropTrace(u, site, f), site, true);
        Weaker(h, InstallTrace(h, f) + DropTrace(u, site, f), site, safe);
      } else {
        assert InstallTrace(h, f) + [] == InstallTrace(h, f);
        Weaker(h, InstallTrace(h, f), site, safe);
      }
    } else if h.unitFile {
      RemoveStatesKeep(h, site, f, safe);
    }
  }

  /** And an interrupted installation, with the same proviso where it takes a unit down. */
  lemma {:induction false} InterruptedInstallStaysScheduled(h: Host, site: Site, e: Event, safe: bool)
    requires site.Valid() && CleanTab(h) && WellFormed(e) && e.op.Install?
    requires safe && TearsDown(h, e) ==> RewriteLands(e, site)
    ensures AllAsGood(h, Trace(h, site, e.op, e.f), site, safe)
  {
    var Install(schedule, wanted, m) := e.op;
    var (c, ok) := Configure(h, wanted, m);
    ConfigureKeeps(h, site, wanted, m);
    assert AsGood(h, c, site, safe);
    if ok {
      var u := MigrateCron(c, site, schedule, m);
      var mine, rest := MigrateTrace(c, site, schedule, m), ReconcileTrace(u, site, wanted, e.f);
      MigrateStatesKeep(c, site, schedule, m);
      Weaker(c, mine, site, safe);
      MigrateCronKeeps(c, site, schedule, m);
      ReconcileStatesKeep(u, site, wanted, e.f, safe);
      AsGoodThen(c, u, rest, site, safe);
      AsGoodJoined(c, mine, rest, site, safe);
      AsGoodThen(h, c, mine + rest, site, safe);
      AsGoodJoined(h, [c], mine + rest, site, safe);
    }
  }

  lemma {:induction false} InterruptedUpgradeStaysScheduled(h: Host, site: Site, installed: bool, m: Faults, f: Faults)
    requires site.Valid() && CleanTab(h)
    ensures AllAsGood(h, FinishUpgradeTrace(h, site, installed, m, f), site, true)
  {
    var u := RepointEntries(h, m);
    RepointEntriesKeeps(h, site, m);
    assert AsGood(h, u, site, true);
    InterruptedSetupStaysScheduled(u, site, f);
    AsGoodThen(h, u, AutoMigrateTrace(u, site, f), site, true);
    AsGoodJoined(h, RepointTrace(h, m), if installed then AutoMigrateTrace(u, site, f) else [], site, true);
  }

  predicate Safe(h: Host, site: Site, e: Event)
  {
    TearsDown(h, e) ==> RewriteLands(e, site)
  }

  /** Any one run, with any step failing and cut off after any step, keeps the operator's lines, and
      keeps the host scheduled unless it is one that takes the unit down without the crontab rewrite
      that must come before. */
  lemma {:induction false} AfterKeeps(h: Host, site: Site, e: Event)
    requires site.Valid() && CleanTab(h) && WellFormed(e)
    ensures AsGood(h, After(h, site, e), site, Safe(h, site, e))
  {
    ApplyKeeps(h, site, e);
    var safe, t := Safe(h, site, e), Trace(h, site, e.op, e.f);
    match e.op
    case DaemonSetup =>
      InterruptedSetupStaysScheduled(h, site, e.f);
      Weaker(h, t, site, safe);
    case DaemonRemove(schedule) =>
      InterruptedRevertStaysScheduled(h, site, schedule, true, e.f, safe);
    case Upgrade(installed, m) =>
      InterruptedUpgradeStaysScheduled(h, site, installed, m, e.f);
      Weaker(h, t, site, safe);
    case Install(_, _, _) =>
      InterruptedInstallStaysScheduled(h, site, e, safe);
  }

  /** Over any sequence of runs, with any step failing and each run cut off anywhere, the operator's
      lines keep content and order. */
  lemma {:induction false} OperatorLinesSurvive(h: Host, site: Site, events: seq<Event>)
    requires site.Valid() && CleanTab(h)
    requires forall i :: 0 <= i < |events| ==> WellFormed(events[i])
    ensures CleanTab(Run(h, site, events))
    ensures OperatorLines(Run(h, site, events), site) == OperatorLines(h, site)
  {
    if events != [] {
      var init := events[..|events| - 1];
      assert forall i :: 0 <= i < |init| ==> init[i] == events[i];
      OperatorLinesSurvive(h, site, init);
      AfterKeeps(Run(h, site, init), site, events[|events| - 1]);
    }
  }

  /** Each run that takes the unit down has rewritten the crontab before. */
  ghost predicate AllSafe(h: Host, site: Site, events: seq<Event>)
  {
    forall i :: 0 <= i < |events| ==> WellFormed(events[i]) && Safe(Run(h, site, events[..i]), site, events[i])
  }

  lemma {:induction false} SafeSoFar(h: Host, site: Site, events: seq<Event>)
    requires events != [] && AllSafe(h, site, events)
    ensures AllSafe(h, site, events[..|events| - 1])
  {
    var init := events[..|events| - 1];
    forall i | 0 <= i < |init| ensures WellFormed(init[i]) && Safe(Run(h, site, init[..i]), site, init[i]) {
      assert init[..i] == events[..i] && init[i] == events[i];
    }
  }

  /** A scheduled host stays scheduled through every such sequence in which each run that takes the
      unit down has rewritten the crontab before. */
  lemma {:induction false} ScheduledHostStaysScheduled(h: Host, site: Site, events: seq<Event>)
    requires site.Valid() && CleanTab(h) && Scheduled(h, site) && AllSafe(h, site, events)
    ensures Scheduled(Run(h, site, events), site)
  {
    if events != [] {
      var init := events[..|events| - 1];
      SafeSoFar(h, site, events);
      ScheduledHostStaysScheduled(h, site, init);
      OperatorLinesSurvive(h, site, init);
      AfterKeeps(Run(h, site, init), site, events[|events| - 1]);
    }
  }

  // ------------------------------------------------------------ a run that is not cut off

  function Last(h: Host, us: seq<Host>): Host
  {
    if us == [] then h else us[|us| - 1]
  }

  lemma LastJoined(h: Host, us: seq<Host>, vs: seq<Host>)
    ensures Last(h, us + vs) == Last(Last(h, us), vs)
  {
  }

  lemma {:induction false} PartsEnd(h: Host, site: Site, schedule: string, f: Faults)
    ensures Last(h, InstallTrace(h, f)) == InstallService(h, f).0
    ensures Last(h, RemoveTrace(h, f)) == RemoveService(h, f).0
    ensures Last(h, DropTrace(h, site, f)) == RemoveCronEntry(h, site, f).0
    ensures Last(h, RepointTrace(h, f)) == RepointEntries(h, f)
    ensures Last(h, MigrateTrace(h, site, schedule, f)) == MigrateCron(h, site, schedule, f)
  {
  }

  lemma {:induction false} DaemonModeEnds(h: Host, site: Site, f: Faults)
    ensures Last(h, DaemonModeTrace(h, site, f)) == ApplyDaemonMode(h, site, f).0
    ensures Last(h, AutoMigrateTrace(h, site, f)) == AutoMigrate(h, site, f)
  {
    PartsEnd(h, site, "", f);
  }

  lemma {:induction false} CronModeEnds(h: Host, site: Site, schedule: string, optOut: bool, f: Faults)
    ensures Last(h, CronModeTrace(h, site, schedule, optOut, f)) == ApplyCronMode(h, site, schedule, optOut, f).0
  {
    if !f.configLoad && !f.StillBusy() {
      var u := MigrateCron(h, site, schedule, f);
      var v := if f.envWrite then u else u.(daemonMode := false, optOut := u.optOut || optOut);
      PartsEnd(v, site, schedule, f);
      LastJoined(h, MigrateTrace(h, site, schedule, f) + [v], RemoveTrace(v, f));
    }
  }

  lemma {:induction false} ReconcileEnds(h: Host, site: Site, wanted: Choice, f: Faults)
    ensures Last(h, ReconcileTrace(h, site, wanted, f)) == Reconcile(h, site, wanted, f)
  {
    if DaemonChosen(h, wanted, f) {
      EngineEnds(h, site, f);
    } else {
      PartsEnd(h, site, "", f);
    }
  }

  lemma {:induction false} EngineEnds(h: Host, site: Site, f: Faults)
    ensures var (u, ok) := InstallService(h, f);
            var states := InstallTrace(h, f) + if ok then DropTrace(u, site, f) else [];
            Last(h, states) == if ok then RemoveCronEntry(u, site, f).0 else u
  {
    var (u, ok) := InstallService(h, f);
    PartsEnd(h, site, "", f);
    PartsEnd(u, site, "", f);
    LastJoined(h, InstallTrace(h, f), if ok then DropTrace(u, site, f) else []);
  }

  lemma {:induction false} FinishInstallEnds(h: Host, site: Site, schedule: string, wanted: Choice, m: Faults,
                                             f: Faults)
    ensures Last(h, FinishInstallTrace(h, site, schedule, wanted, m, f))
         == FinishInstall(h, site, schedule, wanted, m, f)
  {
    var (c, ok) := Configure(h, wanted, m);
    if ok {
      var u := MigrateCron(c, site, schedule, m);
      PartsEnd(c, site, schedule, m);
      ReconcileEnds(u, site, wanted, f);
      LastJoined(c, MigrateTrace(c, site, schedule, m), ReconcileTrace(u, site, wanted, f));
      LastJoined(h, [c], MigrateTrace(c, site, schedule, m) + ReconcileTrace(u, site, wanted, f));
    }
  }

  lemma {:induction false} UpgradeEnds(h: Host, site: Site, installed: bool, m: Faults, f: Faults)
    ensures Last(h, FinishUpgradeTrace(h, site, installed, m, f)) == FinishUpgrade(h, site, installed, m, f)
  {
    var u := RepointEntries(h, m);
    PartsEnd(h, site, "", m);
    DaemonModeEnds(u, site, f);
    LastJoined(h, RepointTrace(h, m), if installed then AutoMigrateTrace(u, site, f) else []);
  }

  lemma {:induction false} OperationEnds(h: Host, site: Site, op: Op, f: Faults)
    ensures Last(h, Trace(h, site, op, f)) == Apply(h, site, op, f)
  {
    match op
    case DaemonSetup => DaemonModeEnds(h, site, f);
    case DaemonRemove(schedule) => CronModeEnds(h, site, schedule, true, f);
    case Upgrade(installed, m) => UpgradeEnds(h, site, installed, m, f);
    case Install(schedule, wanted, m) => FinishInstallEnds(h, site, schedule, wanted, m, f);
  }

  /** The states a run passes through lead to its result, so a run that is not cut off gets there. */
  lemma {:induction false} TraceEnds(h: Host, site: Site, e: Event)
    ensures Last(h, Trace(h, site, e.op, e.f)) == Apply(h, site, e.op, e.f)
    ensures e.cut >= |Trace(h, site, e.op, e.f)| ==> After(h, site, e) == Apply(h, site, e.op, e.f)
  {
    OperationEnds(h, site, e.op, e.f);
    var t, done := Trace(h, site, e.op, e.f), Apply(h, site, e.op, e.f);
    if e.cut >= |t| {
      ReachedEnd(h, t, done, e.cut);
    }
  }

  lemma ReachedEnd(h: Host, t: seq<Host>, done: Host, cut: nat)
    requires Last(h, t) == done && cut >= |t|
    ensures Reached(h, t, done, cut) == done
  {
  }

  // ------------------------------------------------------------ reverting without a fallback

  /** Reverting to cron does not check that the crontab was rewritten. Once it goes ahead, the host
      ends up scheduled if and only if the rewrite landed (the binary is known and the crontab could be
      read and written), or a cron entry was already there, or the unit survived the teardown still
      enabled. */
  lemma RevertedHostIsScheduledExactly(h: Host, site: Site, schedule: string, optOut: bool, f: Faults)
    requires site.Valid() && CleanTab(h) && WellFormedSchedule(schedule) && OneLine(schedule)
    requires !f.configLoad && !f.StillBusy()
    ensures Scheduled(ApplyCronMode(h, site, schedule, optOut, f).0, site) <==>
              || (site.exec != "" && !f.tabRead && !f.tabWrite)
              || CronEntries(h, site) != []
              || (h.unitFile && h.enabled && f.unitRemove && !f.disable.Took())
  {
    MigrateCronKeeps(h, site, schedule, f);
  }

  const SOUND := Call(true, true)

  /** Nothing fails and no backup runs. */
  const NO_FAULT := Faults(false, false, false, SOUND, SOUND, false, false, false, false, false, false, _ => false, 0)

  /** A host in daemon mode whose crontab cannot be read is left with no schedule at all. */
  lemma RevertCanUnschedule(site: Site, schedule: string)
    requires site.Valid() && WellFormedSchedule(schedule) && OneLine(schedule)
    ensures var h := Host("", true, true, true, false);
            Scheduled(h, site) &&
            !Scheduled(ApplyCronMode(h, site, schedule, true, NO_FAULT.(tabRead := true)).0, site)
  {
    var h, f := Host("", true, true, true, false), NO_FAULT.(tabRead := true);
    assert ReadLines("") == [];
    assert !f.busy(0);
    RevertedHostIsScheduledExactly(h, site, schedule, true, f);
  }

  // ------------------------------------------------------------ when the unit goes

  /** For every sequence of looks at the lock: a revert tears the daemon down if and only if the
      configuration is readable and some look within the wait finds the lock free, and then the latest
      look did; otherwise it leaves the host exactly as it was. */
  lemma {:induction false} RevertIsIdleGated(h: Host, site: Site, schedule: string, optOut: bool, f: Faults)
    ensures RestartGate.IdleGated(CronModeEffects(f))
    ensures RestartGate.Teardown in CronModeEffects(f) <==>
              !f.configLoad && exists i: nat :: i <= f.polls + 1 && !f.busy(i)
    ensures RestartGate.Teardown in CronModeEffects(f) <==>
              ApplyCronMode(h, site, schedule, optOut, f).1 in {Done, TeardownFailed}
    ensures RestartGate.Teardown !in CronModeEffects(f) ==> ApplyCronMode(h, site, schedule, optOut, f).0 == h
  {
    var probes := RestartGate.WaitLog(f.busy, f.polls);
    RestartGate.WaitEnds(f.busy, f.polls);
    RestartGate.Appended(probes, RestartGate.Teardown);
    assert RestartGate.Teardown !in probes;
    assert (probes + [RestartGate.Teardown])[|probes|] == RestartGate.Teardown;
  }

  lemma RevertRemovesUnit(h: Host, site: Site, schedule: string, optOut: bool, f: Faults)
    requires h.unitFile
    ensures !ApplyCronMode(h, site, schedule, optOut, f).0.unitFile <==>
              !f.unitRemove && !f.configLoad && exists i: nat :: i <= f.polls + 1 && !f.busy(i)
  {
  }

  lemma DaemonModeKeepsUnit(h: Host, site: Site, f: Faults)
    requires h.unitFile
    ensures InstallService(h, f).0.unitFile && RemoveCronEntry(InstallService(h, f).0, site, f).0.unitFile
    ensures ApplyDaemonMode(h, site, f).0.unitFile && AutoMigrate(h, site, f).unitFile
  {
  }

  lemma ReconcileRemovesUnit(h: Host, site: Site, wanted: Choice, f: Faults)
    requires h.unitFile
    ensures !Reconcile(h, site, wanted, f).unitFile <==> !f.unitRemove && !DaemonChosen(h, wanted, f)
  {
    DaemonModeKeepsUnit(h, site, f);
  }

  /** Not every way to lose the unit is gated. A unit that was installed is gone after a run if and only
      if its file could be removed and the run was a revert that found the lock free, or an installation
      that chose cron, which never looks at the lock. */
  lemma UnitGoesExactly(h: Host, site: Site, op: Op, f: Faults)
    requires h.unitFile
    ensures !Apply(h, site, op, f).unitFile <==>
              !f.unitRemove &&
              match op
              case DaemonRemove(_) => !f.configLoad && exists i: nat :: i <= f.polls + 1 && !f.busy(i)
              case Install(_, wanted, m) =>
                || (wanted == WantCron && !m.envWrite)
                || (wanted == Unset && (f.configLoad || !h.daemonMode))
              case _ => false
  {
    match op
    case DaemonSetup => DaemonModeKeepsUnit(h, site, f);
    case DaemonRemove(schedule) => RevertRemovesUnit(h, site, schedule, true, f);
    case Upgrade(_, m) => DaemonModeKeepsUnit(RepointEntries(h, m), site, f);
    case Install(schedule, wanted, m) =>
      ReconcileRemovesUnit(MigrateCron(Configure(h, wanted, m).0, site, schedule, m), site, wanted, f);
  }

  /** Choosing cron in an installation removes the unit under a running backup. */
  lemma InstallTearsDownWhileBusy(h: Host, site: Site, schedule: string, m: Faults, f: Faults)
    requires h.unitFile && !m.envWrite && !f.unitRemove && f.StillBusy()
    ensures !Apply(h, site, Install(schedule, WantCron, m), f).unitFile
    ensures Apply(h, site, DaemonRemove(schedule), f) == h
  {
    UnitGoesExactly(h, site, Install(schedule, WantCron, m), f);
  }

  // ------------------------------------------------------------ what is recorded, and what follows

  /** A rewrite that lands leaves exactly one entry of proxsave's own: the chosen schedule, the entrypoint
      (or the binary itself while the entrypoint is missing), and the flag for an unattended run. */
  lemma OneEntryIsInstalled(h: Host, site: Site, schedule: string, f: Faults)
    requires site.Valid() && CleanTab(h) && WellFormedSchedule(schedule) && OneLine(schedule)
    requires site.exec != "" && !f.tabRead && !f.tabWrite
    ensures var command := if f.symlinkMissing then site.exec else "/usr/local/bin/proxsave";
            CronEntries(MigrateCron(h, site, schedule, f), site) == [schedule + " " + command + " --backup"]
  {
    MigrateCronKeeps(h, site, schedule, f);
  }

  /** And apart from that entry no line runs the old script, at the base directory or a historical root. */
  lemma {:induction false} OldScriptsAreGone(h: Host, site: Site, schedule: string, f: Faults, l: string)
    requires site.Valid() && CleanTab(h) && WellFormedSchedule(schedule) && OneLine(schedule)
    requires site.exec != "" && !f.tabRead && !f.tabWrite
    requires l in ReadLines(MigrateCron(h, site, schedule, f).tab)
    ensures || l == Entry(schedule, site.NewCommand(f.symlinkMissing))
            || (&& Command(l) != "/opt/proxmox-backup/script/proxmox-backup.sh"
                && Command(l) != "/opt/proxsave/script/proxmox-backup.sh"
                && (TrimSpace(site.baseDir) != "" ==>
                      Command(l) != TrimSpace(site.baseDir) + "/script/proxmox-backup.sh"))
  {
    var lines, cmd, paths := ReadLines(h.tab), site.NewCommand(f.symlinkMissing), site.ReinstallPaths(f.symlinkMissing);
    var mine := (x: string) => !Owned(x, site.Scripts(), paths);
    WritableRead(h);
    ReinstallLines(lines, site, schedule, f.symlinkMissing);
    ReadBackLines(Reinstalled(lines, site.Scripts(), paths, schedule, cmd));
    if l != Entry(schedule, cmd) {
      assert l in Keep(lines, mine);
      KeptAre(lines, mine);
      RunsBashScriptExactly(l, site.baseDir);
    }
  }

  lemma {:induction false} KeptAre(lines: seq<string>, p: string -> bool)
    ensures forall l :: l in Keep(lines, p) ==> p(l)
  {
    if lines != [] {
      KeptAre(lines[..|lines| - 1], p);
    }
  }

  /** A switch to the daemon that succeeds leaves an enabled unit and no cron entry that could be removed,
      and records the daemon without opt-out; a failed record leaves mode and opt-out as they were. */
  lemma {:induction false} SetupIsRecorded(h: Host, site: Site, f: Faults)
    requires site.Valid() && CleanTab(h) && ApplyDaemonMode(h, site, f).1 == Done
    ensures var u := ApplyDaemonMode(h, site, f).0;
            && u.unitFile && u.enabled
            && (!f.tabRead && !f.tabWrite ==> CronEntries(u, site) == [])
            && (!f.envWrite ==> u.daemonMode && !u.optOut)
            && (f.envWrite ==> u.daemonMode == h.daemonMode && u.optOut == h.optOut)
  {
    RemoveCronEntryKeeps(InstallService(h, f).0, site, f);
  }

  /** So neither a later installation without a choice nor an upgrade undoes a recorded setup. */
  lemma {:induction false} SetupSticks(h: Host, site: Site, f: Faults, g: Faults)
    requires site.Valid() && CleanTab(h) && ApplyDaemonMode(h, site, f).1 == Done && !f.envWrite
    ensures var u := ApplyDaemonMode(h, site, f).0;
            && (!g.configLoad ==> Reconcile(u, site, Unset, g).unitFile)
            && AutoMigrate(u, site, g) == u
  {
    SetupIsRecorded(h, site, f);
    ReconcileRemovesUnit(ApplyDaemonMode(h, site, f).0, site, Unset, g);
  }

  /** A revert that goes ahead records cron, and the opt-out when it is asked for; it never takes one back. */
  lemma {:induction false} RevertIsRecorded(h: Host, site: Site, schedule: string, optOut: bool, f: Faults)
    requires !f.configLoad && !f.StillBusy()
    ensures var u := ApplyCronMode(h, site, schedule, optOut, f).0;
            && (!f.envWrite ==> !u.daemonMode && (u.optOut <==> h.optOut || optOut))
            && (f.envWrite ==> u.daemonMode == h.daemonMode && u.optOut == h.optOut)
  {
  }

  /** Nothing but the crontab differs. */
  predicate SameEngine(h: Host, u: Host)
  {
    u.unitFile == h.unitFile && u.enabled == h.enabled && u.daemonMode == h.daemonMode && u.optOut == h.optOut
  }

  lemma {:induction false} UpgradesLeaveOptOut(h: Host, site: Site, events: seq<Event>)
    requires h.optOut && forall i :: 0 <= i < |events| ==> events[i].op.Upgrade?
    ensures SameEngine(h, Run(h, site, events))
  {
    if events != [] {
      var init := events[..|events| - 1];
      assert forall i :: 0 <= i < |init| ==> init[i] == events[i];
      UpgradesLeaveOptOut(h, site, init);
      UpgradeLeavesOptOut(Run(h, site, init), site, events[|events| - 1]);
    }
  }

  lemma {:induction false} UpgradeLeavesOptOut(h: Host, site: Site, e: Event)
    requires h.optOut && e.op.Upgrade?
    ensures SameEngine(h, After(h, site, e))
  {
    var Upgrade(installed, m) := e.op;
    assert SameEngine(h, RepointEntries(h, m));
    assert FinishUpgradeTrace(h, site, installed, m, e.f) == RepointTrace(h, m);
  }

  /** What `--daemon-remove` is for: once its record is written, no sequence of upgrades, complete or cut
      off, brings the daemon back. */
  lemma {:induction false} RemovedStaysRemoved(h: Host, site: Site, schedule: string, f: Faults, events: seq<Event>)
    requires !f.configLoad && !f.StillBusy() && !f.envWrite
    requires forall i :: 0 <= i < |events| ==> events[i].op.Upgrade?
    ensures var u := Apply(h, site, DaemonRemove(schedule), f);
            !u.daemonMode && u.optOut && SameEngine(u, Run(u, site, events))
  {
    RevertIsRecorded(h, site, schedule, true, f);
    UpgradesLeaveOptOut(Apply(h, site, DaemonRemove(schedule), f), site, events);
  }

  /** What an upgrade is for: a readable cron host without opt-out is switched to the daemon, and recorded
      so, when every step works. */
  lemma {:induction false} UpgradeMigrates(h: Host, site: Site, m: Faults, f: Faults)
    requires site.Valid() && CleanTab(h) && !h.daemonMode && !h.optOut
    requires !f.configLoad && !f.tokenBad && !f.unitWrite && !f.reload && f.enable.ok && !f.envWrite
    requires !f.tabRead && !f.tabWrite
    ensures var u := Apply(h, site, Upgrade(true, m), f);
            u.unitFile && u.enabled && u.daemonMode && !u.optOut && CronEntries(u, site) == []
  {
    RepointEntriesKeeps(h, site, m);
    SetupIsRecorded(RepointEntries(h, m), site, f);
  }

  /** An installation records the wizard's choice, if any, and follows it: the daemon's unit stands, or
      none does. */
  lemma {:induction false} ChoiceIsFollowed(h: Host, site: Site, schedule: string, wanted: Choice, m: Faults, f: Faults)
    requires wanted != Unset && !m.envWrite
    ensures var u := Apply(h, site, Install(schedule, wanted, m), f);
            && (u.daemonMode <==> wanted == WantDaemon) && u.optOut == h.optOut
            && (wanted == WantDaemon && !f.tokenBad && !f.unitWrite && !f.reload && f.enable.ok ==>
                  u.unitFile && u.enabled)
            && (wanted == WantCron && !f.unitRemove ==> !u.unitFile)
  {
  }

  // ------------------------------------------------------------ the same operations, step by step

  /** Every step that may change something outside the process adds the state it leaves to `trace`. */
  class Machine {
    var tab: string
    var unitFile: bool
    var enabled: bool
    var daemonMode: bool
    var optOut: bool
    ghost var trace: seq<Host>

    constructor (h: Host)
      ensures View() == h && trace == []
    {
      tab, unitFile, enabled, daemonMode, optOut := h.tab, h.unitFile, h.enabled, h.daemonMode, h.optOut;
      trace := [];
    }

    ghost function View(): Host
      reads this
    {
      Host(tab, unitFile, enabled, daemonMode, optOut)
    }

    ghost method Observe()
      modifies this`trace
      ensures trace == old(trace) + [View()]
    {
      trace := trace + [View()];
    }

    method CrontabReadLines(f: Faults) returns (lines: seq<string>, ok: bool)
      ensures ok == !f.tabRead && (ok ==> lines == ReadLines(tab))
    {
      if f.tabRead {
        return [], false;
      }
      return ReadLines(tab), true;
    }

    method CrontabWriteLines(lines: seq<string>, f: Faults) returns (ok: bool)
      modifies this`tab, this`trace
      ensures ok == !f.tabWrite && tab == if ok then WriteLines(lines) else old(tab)
      ensures trace == old(trace) + [View()]
    {
      ok := !f.tabWrite;
      if ok {
        tab := WriteLines(lines);
      }
      Observe();
    }

    method InstallDaemonService(f: Faults) returns (ok: bool)
      modifies this`unitFile, this`enabled, this`trace
      ensures (View(), ok) == InstallService(old(View()), f)
      ensures trace == old(trace) + InstallTrace(old(View()), f)
    {
      if f.tokenBad || f.unitWrite {
        return false;
      }
      unitFile := true;
      Observe();
      if f.reload {
        return false;
      }
      if f.enable.Took() {
        enabled := true;
      }
      Observe();
      return f.enable.ok;
    }

    method RemoveDaemonService(f: Faults) returns (ok: bool)
      modifies this`unitFile, this`enabled, this`trace
      ensures (View(), ok) == RemoveService(old(View()), f)
      ensures trace == old(trace) + RemoveTrace(old(View()), f)
    {
      if f.disable.Took() {
        enabled := false;
      }
      Observe();
      if f.unitRemove && unitFile {
        return false;
      }
      unitFile := false;
      Observe();
      return !f.reload;
    }

    method RemoveCanonicalCronEntry(site: Site, f: Faults) returns (ok: bool)
      modifies this`tab, this`trace
      ensures (View(), ok) == RemoveCronEntry(old(View()), site, f)
      ensures trace == old(trace) + DropTrace(old(View()), site, f)
    {
      var lines, read := CrontabReadLines(f);
      if !read {
        return false;
      }
      var kept := DropCanonicalCronLines(lines, site.CorrectPaths());
      if |kept| == |lines| {
        return true;
      }
      ok := CrontabWriteLines(kept, f);
    }

    method RepointLegacyCronEntries(f: Faults)
      modifies this`tab, this`trace
      ensures View() == RepointEntries(old(View()), f)
      ensures trace == old(trace) + RepointTrace(old(View()), f)
    {
      var lines, read := CrontabReadLines(f);
      if !read {
        return;
      }
      var repointed, changed := RepointLegacyCronLines(lines);
      AnyLineExactly(lines, Repoints);
      if !changed {
        return;
      }
      var written := CrontabWriteLines(repointed, f);
    }

    method MigrateLegacyCronEntries(site: Site, schedule: string, f: Faults)
      modifies this`tab, this`trace
      ensures View() == MigrateCron(old(View()), site, schedule, f)
      ensures trace == old(trace) + MigrateTrace(old(View()), site, schedule, f)
    {
      if site.exec == "" {
        return;
      }
      var lines, read := CrontabReadLines(f);
      if !read {
        return;
      }
      var updated := BuildReinstallCronLines(lines, site.baseDir, site.ReinstallPaths(f.symlinkMissing), schedule,
                                             site.NewCommand(f.symlinkMissing));
      var written := CrontabWriteLines(updated, f);
    }

    method SetBackupEnv(mode: bool, opt: bool, f: Faults)
      modifies this`daemonMode, this`optOut, this`trace
      ensures View() == if f.envWrite then old(View()) else old(View()).(daemonMode := mode, optOut := opt)
      ensures trace == old(trace) + [View()]
    {
      if !f.envWrite {
        daemonMode, optOut := mode, opt;
      }
      Observe();
    }

    method SwitchToDaemon(site: Site, f: Faults) returns (v: Verdict)
      modifies this
      ensures (View(), v) == ApplyDaemonMode(old(View()), site, f)
      ensures trace == old(trace) + DaemonModeTrace(old(View()), site, f)
    {
      var ok := InstallDaemonService(f);
      if !ok {
        return InstallFailed;
      }
      var removed := RemoveCanonicalCronEntry(site, f);
      SetBackupEnv(true, false, f);
      return Done;
    }

    /** Waits for the lock; then the cron entry is written before the unit goes; the unit goes last. */
    method SwitchToCron(site: Site, schedule: string, tombstone: bool, f: Faults)
      returns (v: Verdict, log: seq<RestartGate.Effect>)
      modifies this
      ensures (View(), v) == ApplyCronMode(old(View()), site, schedule, tombstone, f)
      ensures trace == old(trace) + CronModeTrace(old(View()), site, schedule, tombstone, f)
      ensures log == CronModeEffects(f)
    {
      if f.configLoad {
        return ConfigUnreadable, [];
      }
      var timedOut;
      timedOut, log := RestartGate.WaitForBackupIdle(f.busy, f.polls);
      if timedOut {
        return BackupRunning, log;
      }
      ghost var t0, mine := trace, MigrateTrace(View(), site, schedule, f);
      MigrateLegacyCronEntries(site, schedule, f);
      SetBackupEnv(false, optOut || tombstone, f);
      ghost var recorded := View();
      log := log + [RestartGate.Teardown];
      var ok := RemoveDaemonService(f);
      Regrouped(t0, mine, [recorded], RemoveTrace(recorded, f));
      v := if ok then Done else TeardownFailed;
    }

    method MaybeAutoMigrateDaemon(site: Site, f: Faults)
      modifies this
      ensures View() == AutoMigrate(old(View()), site, f)
      ensures trace == old(trace) + AutoMigrateTrace(old(View()), site, f)
    {
      if f.configLoad || daemonMode || optOut {
        return;
      }
      var v := SwitchToDaemon(site, f);
    }

    method ReconcileSchedulerAfterInstall(site: Site, wanted: Choice, f: Faults)
      modifies this
      ensures View() == Reconcile(old(View()), site, wanted, f)
      ensures trace == old(trace) + ReconcileTrace(old(View()), site, wanted, f)
    {
      if DaemonChosen(Host(tab, unitFile, enabled, daemonMode, optOut), wanted, f) {
        var ok := InstallDaemonService(f);
        if ok {
          var removed := RemoveCanonicalCronEntry(site, f);
        }
        return;
      }
      if unitFile {
        var gone := RemoveDaemonService(f);
      }
    }

    method RecordChoice(wanted: Choice, f: Faults) returns (ok: bool)
      modifies this`daemonMode, this`optOut, this`trace
      ensures (View(), ok) == Configure(old(View()), wanted, f)
      ensures trace == old(trace) + [View()]
    {
      if wanted == Unset {
        Observe();
        return true;
      }
      SetBackupEnv(wanted == WantDaemon, optOut, f);
      return !f.envWrite;
    }

    /** The scheduler's part of an installation: the wizard's choice, the cron entry, the engine. */
    method RunInstall(site: Site, schedule: string, wanted: Choice, m: Faults, f: Faults)
      modifies this
      ensures View() == FinishInstall(old(View()), site, schedule, wanted, m, f)
      ensures trace == old(trace) + FinishInstallTrace(old(View()), site, schedule, wanted, m, f)
    {
      ghost var t0 := trace;
      var ok := RecordChoice(wanted, m);
      ghost var c := View();
      if !ok {
        return;
      }
      MigrateLegacyCronEntries(site, schedule, m);
      ghost var u := View();
      ReconcileSchedulerAfterInstall(site, wanted, f);
      Regrouped(t0, [c], MigrateTrace(c, site, schedule, m), ReconcileTrace(u, site, wanted, f));
    }

    /** The local part of an upgrade: repoint first, migrate only behind a new binary. */
    method UpgradeFinalizePhase(site: Site, installed: bool, m: Faults, f: Faults)
      modifies this
      ensures View() == FinishUpgrade(old(View()), site, installed, m, f)
      ensures trace == old(trace) + FinishUpgradeTrace(old(View()), site, installed, m, f)
    {
      ghost var t0, mine := trace, RepointTrace(View(), m);
      RepointLegacyCronEntries(m);
      Associative(t0, mine, if installed then AutoMigrateTrace(View(), site, f) else []);
      if installed {
        MaybeAutoMigrateDaemon(site, f);
      }
    }
  }
}
