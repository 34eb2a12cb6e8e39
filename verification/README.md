# ProxSave: verified models of the backup core

ProxSave backs up Proxmox hosts. This project models the parts of it whose correctness is not
visible from any single function and proves what they promise:

- **Exclude patterns** (`Glob.dfy`). A glob is compiled to regular-expression text, which is parsed
  and matched by another engine. The project models the compiler, the parser and the matcher and
  proves that together they accept exactly the strings of the glob language, which is defined
  separately by cutting the candidate into one piece per glob element.
- **Archives** (`Archive.dfy`, over the tree of `SourceTree.dfy`). The directory walk, the tar stream
  with its bytes still owed, and a fault oracle for every path. An archive run succeeds if and only if
  no fault occurred, and then the members are exactly the visible tree. The entry count is reconciled
  with the listing, however the listing is chunked.
- **Tree copy** (`TreeCopy.dfy`). The copy into the staging area conserves files: each one outside the
  pruned subtrees is counted once, as processed or as failed, and the manifest says "collected" only if
  all of them were.
- **Bounded samplers** (`Sampling.dfy`). The stack-based samplers return the first `limit` entries of a
  recursive enumeration, whose members are characterised without recursion.
- **Crontab and schedulers** (`Crontab.dfy`, `CrontabFile.dfy`, `Scheduler.dfy`, over `Text.dfy`).
  Tokenising, filtering, reinstalling and repointing lines; the round trip through the crontab file; and
  the switch between cron and the resident daemon with every external step able to fail and every run able
  to be cut off.
- **Daemon protocols** (`Handoff.dfy`, `Provisioning.dfy`, `UpdateVerdicts.dfy`, `RestartGate.dfy`).
  The outcome handoff as a transition system over all interleavings, the provisioning throttle, the
  update verdicts and the idle-gated restart.
- **Versions and small algorithms** (`Versions.dfy`, `StreamWindows.dfy`, `PbsRepository.dfy`,
  `ByteFormat.dfy`).

Everything the tool asks of its surroundings (file system, systemd, the crontab program, the network,
clocks) is a parameter: a fault or an answer that may be anything. Code that changes state is modelled
by classes and methods; each method is proved equal to a function of the old state, and the theorems
are lemmas about those functions.

Where a property does not hold for all inputs, the project says exactly when it does and gives an
input that breaks it:

- a candidate with a line break is not matched by `**` (`Glob.LineBreakIsRefused`);
- a directory copy whose source is a dangling symlink succeeds and counts nothing
  (`TreeCopy.CopyConservesFiles`, input in `TreeCopy.DanglingRootIsNotCounted`);
- a line ending in a carriage return does not survive a crontab rewrite
  (`CrontabFile.RoundTripExactly`, input in `CrontabFile.DailyJobLosesItsReturn`);
- repointing rewrites the wrong occurrence when a schedule field contains the legacy path
  (`Crontab.SecondPassIsQuiet`, input in `Crontab.SecondPassCanRewriteAgain`). The comment at
  `cmd/proxsave/runtime_helpers.go:936-937` relies on a schedule field never being a path; a crontab
  that cron accepts has none, so this concerns the function on other text only;
- reverting to cron does not check that the crontab was rewritten, so the host can end unscheduled
  (`Scheduler.RevertedHostIsScheduledExactly`, input in `Scheduler.RevertCanUnschedule`);
- an installation that chooses cron removes the daemon's unit without looking at the backup lock
  (`Scheduler.UnitGoesExactly`, input in `Scheduler.InstallTearsDownWhileBusy`);
- the comment at `cmd/proxsave/daemon.go:128-135` says that no handoff can signal the exiting daemon
  once its handler is gone; it can as long as a run that read the pid earlier has yet to signal
  (`Handoff.SignalMeetsNoHandlerExactly`, input in `Handoff.LateSignalMeetsNoHandler`);
- the handoff is at most once, and exactly once if and only if no step forfeits the outcome
  (`Handoff.PingedExactlyWhenNotLost`, input in `Handoff.SecondOutcomeCanBeLost`);
- the update notice and the upgrade gate disagree when components after the third turn the order
  around (`Versions.GateAgreesExactly`, input in `Versions.NoticeMissesFourthComponent`) and on a
  component beyond an int (`Versions.OverflowTurnsTheOrder`, input in
  `Versions.OverflowingComponentDiffers`); a "v" on a tag or on the running
  version never makes them disagree (`Versions.LeadingVIsHarmless`);
- the comment at `internal/notify/relay_provision.go:19-21` says that a larger Retry-After is treated
  as 24 hours; a number beyond 64 bits is treated as none (`Provisioning.RetryAfterExactly`, input in
  `Provisioning.TooLongIsIgnored`);
- a second datastore name does not replace the first when brackets are left open and there is no
  separator (`PbsRepository.LastDatastoreWins`, input in `PbsRepository.OpenBracketKeepsBoth`).

## Model

| member | source | states |
|---|---|---|
| Glob.GlobToRegex | internal/backup/collector.go:612-658 | For every pattern, well formed or not, the loop emits the anchored concatenation of one chunk per round, including the doubled bracket of an unclosed class. |
| Glob.WriteClass | internal/backup/collector.go:629-648 | The class branch copies the body up to the first closing bracket, turns both negation marks into one, and consumes only the opener when the class is unclosed. |
| Glob.EmittedTextParses | internal/backup/collector.go:612-658 | For every well-formed glob, character ranges included, the emitted text is a valid expression that parses to one node per glob element and the end anchor. |
| Glob.ClassAsWritten | internal/backup/collector.go:629-635 | A class written with either negation mark denotes the complement of its body's spans, one without denotes the spans. |
| Glob.StarsAsWritten | internal/backup/collector.go:617-628 | Two stars, one star and a question mark each denote their own element. |
| Glob.CompilationPreservesMeaning | internal/backup/collector.go:601-607 | The compiled expression accepts exactly the strings of the independent glob semantics on newline-free candidates; on any candidate it accepts exactly those with `**` kept within a line, never more. |
| Glob.LineBreakIsRefused | internal/backup/collector.go:622 | The input on which the two differ: `**` against a line break. |
| Glob.MatchesGlob | internal/backup/collector.go:593-610 | The standard matcher is tried first, then the compiled expression for a pattern with `**`; the answer is the acceptance that AcceptedExactly characterises. |
| Glob.AcceptedExactly | internal/backup/collector.go:593-610 | A well-formed pattern with two adjacent stars anywhere is accepted if and only if the standard matcher or the glob semantics accepts; every pattern without adjacent stars is left to the standard matcher. |
| Glob.UniqueCandidates | internal/backup/collector.go:577-590 | The candidates without empties and repeats, in the order of first occurrence. |
| Glob.FindExcludeMatch | internal/backup/collector.go:481-499 | Excluded if and only if some pattern accepts some candidate, and then names the first such pattern in configured order. |
| SourceTree.VisibleExactly | internal/backup/archiver.go:920-928 | The pruned walk lists an entry if and only if it exists in the tree and neither it nor any directory above it is excluded. |
| TarStream.TarWriter.WriteHeader | internal/backup/archiver.go:988-991 | A header is refused while bytes of the previous member are owed or after a sink error. |
| TarStream.TarWriter.Write | internal/backup/archiver.go:1009-1017 | Content beyond the owed bytes is refused without a sticky error; a sink error sticks. |
| Archiving.VisitExactly | internal/backup/archiver.go:893-1029 | An accepted entry appends its complete member if and only if the stream was ready and nothing went wrong with the entry; every other case aborts, records a skip or leaves bytes owed. |
| Archiving.WalkAllKeeps | internal/backup/archiver.go:893-1029 | Over any stretch of the walk skips only accumulate, owed bytes and sink errors are never forgiven, and the entry counter moves with the member list. |
| Archiving.ArchiveIsComplete | internal/backup/archiver.go:387-394 | The walk ends without error and without skips if and only if no fault occurred at any path; the members are then exactly the visible entries in walk order, root omitted, and each regular body is exactly its header size. |
| Archiving.MembersAreTheEntries | internal/backup/archiver.go:941-1017 | In a complete archive member i has the path of visible entry i, the kind its own stat found, and the whole content of a regular file or nothing. |
| Archiving.SkippedHadTrouble | internal/backup/archiver.go:494-496 | Every path recorded as skipped had trouble of its own: access, stat, link, header or content. |
| Archiving.Archiver.AddEntry | internal/backup/archiver.go:893-1029 | The walk callback, step by step, equals the entry specification. |
| Archiving.Archiver.CreateArchive | internal/backup/archiver.go:426-484 | A non-dry run returns success if and only if nothing failed anywhere; success means every visible entry is stored under its own path and kind with its whole content; the error is "incomplete" exactly when only skips happened and then names them; the entry counter equals the member count of this archive, whatever earlier runs on the same archiver left behind. |
| Archiving.Archiver.ReconcileEntryCount | internal/backup/archiver.go:532-541 | Only a listing shorter than what this instance wrote, unencrypted, is rejected. |
| Archiving.Archiver.VerifyListing | internal/backup/archiver.go:1323-1335 | The verdict depends on the line count of the whole listing, not on how it is chunked. |
| Archiving.ReconciliationIsSound | internal/backup/archiver.go:518-541 | A listing of every member is accepted even when names contain line breaks; a listing that misses a member is rejected when names do not. |
| TreeCopy.CopyConservesFiles | internal/backup/collector.go:933-1054 | For every combination of faults, a successful directory copy raises processed plus failed by exactly one for each regular file and symlink outside excluded and staging subtrees that had not vanished, and for each other entry whose stat failed, if and only if a stat that follows links found the source, or the source was pruned, or there was nothing to count. |
| TreeCopy.StableCopyCountsFiles | internal/backup/collector.go:808-821 | When nothing changes under the copy, that number is the number of regular files and symlinks. |
| TreeCopy.DanglingRootIsNotCounted | internal/backup/collector.go:952-956 | The failing case: a source that is a dangling symlink is recorded as not found, with success, and counted nowhere. |
| TreeCopy.CopyDirManifest | internal/backup/collector.go:743-748 | Depth is restored, nested files never enter the manifest, and at most the directory's own entry is added, at the outermost level only. |
| TreeCopy.CollectedMeansEverything | internal/backup/collector.go:1036-1050 | Whatever went wrong, "collected" means every visible file that had not vanished was processed and none failed; when sources close, it is recorded exactly when no file failed. |
| TreeCopy.FileIsRecorded | internal/backup/collector.go:757-806 | A file copied on its own sets exactly its manifest entry: failed exactly when the caller sees an error, collected exactly when it was processed without one, not found exactly when it had vanished, skipped exactly when excluded or nothing to copy. |
| TreeCopy.FileIsCounted | internal/backup/collector.go:808-900 | An error counts as failed, except that a complete copy whose source fails to close counts as processed; an exclusion counts as skipped. |
| TreeCopy.DirIsRecorded | internal/backup/collector.go:945-962 | A directory copied on its own sets exactly its entry: skipped exactly when excluded, not found exactly when a stat that follows links finds nothing, failed on every error, collected in a dry run. |
| TreeCopy.Collector.SafeCopyFile | internal/backup/collector.go:757-806 | The file copy with its guards in order equals the file specification. |
| TreeCopy.Collector.SafeCopyDir | internal/backup/collector.go:933-1054 | The directory copy, walk and manifest bookkeeping included, equals the directory specification. |
| Sampling.RelText | internal/backup/fs_sampling_bounded.go:46-52 | Counting separators in the relative path gives its depth, and the two-dots test only concerns the top-level name. |
| Sampling.RelJoins | internal/backup/fs_sampling_bounded.go:46-50 | The relative text is the names in order joined by slashes, whichever end it is built from. |
| Sampling.EnumerationExactly | internal/backup/fs_sampling_bounded.go:13-148 | The enumeration order of the stack contains a path if and only if it names a reported entry below entered directories. |
| Sampling.SampleDirectoriesBounded | internal/backup/fs_sampling_bounded.go:13-67 | For a non-negative limit (the buffer is allocated before the guard, so a negative one panics) it terminates on every finite tree; the result is a prefix of the recursive enumeration, of length min(limit, all) unless a read failed or the context ended; the in-loop depth test never fires. |
| Sampling.DirectorySampleExactly | internal/backup/fs_sampling_bounded.go:36-62 | The enumerated directories are exactly those that exist within the depth bound with no excluded entry on their path and no top-level name starting with two dots. |
| Sampling.SampleFilesBounded | internal/backup/fs_sampling_bounded.go:69-148 | For a non-negative limit the file sampler, with its patterns and stat calls, returns the same kind of prefix; it fails only on a read failure, a cancelled context or a stat timeout. |
| Sampling.FileSampleExactly | internal/backup/fs_sampling_bounded.go:95-143 | The enumerated files are exactly the wanted, statable non-directories at most `maxDepth` directories down with no excluded entry on their path. |
| Sampling.SummariesAreTrue | internal/backup/fs_sampling_bounded.go:127-140 | Each reported file carries its relative path and the size its stat found. |
| Sampling.SampleNoRepeats | internal/backup/fs_sampling_bounded.go:55-62 | Any result of the directory sampler lists pairwise different relative paths. |
| Sampling.FileSampleNoRepeats | internal/backup/fs_sampling_bounded.go:127-140 | The entries of any file sample have pairwise different relative paths. |
| Crontab.CommandFromFields | cmd/proxsave/runtime_helpers.go:1016-1042 | The command of a line is decided by its fields alone: none for comments, assignments and short lines, the second field after a macro, otherwise the sixth. |
| Crontab.EnvAssignmentExactly | cmd/proxsave/runtime_helpers.go:1044-1056 | A token is an assignment if and only if an '=' follows a non-empty run of letters, digits and underscores. |
| Crontab.TrimQuotesCuts | cmd/proxsave/runtime_helpers.go:843 | Trimming removes single and double quotes from both ends, all of them and nothing else. |
| Crontab.RunsBinaryExactly | cmd/proxsave/runtime_helpers.go:1058-1065 | A line runs the binary if and only if its unquoted command is one of the two names, alone or at the end of a path, slashes after it aside. |
| Crontab.RunsBashScriptExactly | cmd/proxsave/runtime_helpers.go:832-847 | A line runs the old script if and only if its unquoted command is that script under a historical root or the non-blank base directory. |
| Crontab.DropLegacyBashCronLines | cmd/proxsave/runtime_helpers.go:831-851 | Keeps, in order, exactly the lines whose unquoted command is not one of the old scripts. |
| Crontab.FilterCronLines | cmd/proxsave/runtime_helpers.go:858-896 | Keeps, in order, exactly the comments, blanks, current entries and foreign commands. |
| Crontab.DropCanonicalCronLines | cmd/proxsave/runtime_helpers.go:901-924 | Keeps, in order, exactly the lines that run neither binary name nor a current path. |
| Crontab.FilterIsSubsumed | cmd/proxsave/runtime_helpers.go:858-924 | Filtering stale entries before dropping canonical ones changes nothing. |
| Crontab.BuildReinstallCronLines | cmd/proxsave/runtime_helpers.go:974-981 | The pipeline of three filters equals the lines proxsave does not own, in order, plus one fresh entry. |
| Crontab.EntryCommand | cmd/proxsave/runtime_helpers.go:980 | For every well-formed schedule, the tokeniser finds in a fresh entry the command it was built from. |
| Crontab.LastReinstallWins | cmd/proxsave/runtime_helpers.go:974-981 | Installing with one schedule after another equals installing with the last one alone. |
| Crontab.RepointLegacyCronLines | cmd/proxsave/runtime_helpers.go:930-946 | Each line is repointed on its own and the flag is set if and only if some line's command was the legacy path. |
| Crontab.RepointedEach | cmd/proxsave/runtime_helpers.go:930-946 | The line count is kept and every line whose command is not the legacy path is byte-identical. |
| Crontab.RepointChangesCommandOnly | cmd/proxsave/runtime_helpers.go:935-939 | When no schedule field contains the legacy path, re-tokenising gives the same fields except the command, now canonical with its quotes kept. |
| Crontab.RepointedCommand | cmd/proxsave/runtime_helpers.go:935-939 | After repointing, the line's command is the canonical path, or still the legacy one exactly when a schedule field contains it. |
| Crontab.SecondPassIsQuiet | cmd/proxsave/runtime_helpers.go:930-946 | A repointed line is left alone by a second pass if and only if no field before its command contains the legacy path. |
| Crontab.SecondPassCanRewriteAgain | cmd/proxsave/runtime_helpers.go:936-938 | A line on which it is not: the legacy path as first schedule field and as command. |
| CrontabFile.ReadBack | cmd/proxsave/daemon_setup.go:438-468 | Writing lines and reading them back costs each line one trailing carriage return, drops empty lines at the end, and reads a blank file as no lines. |
| CrontabFile.RoundTripExactly | cmd/proxsave/daemon_setup.go:438-468 | The non-blank lines survive in content and order if and only if none of them ends in a carriage return. |
| CrontabFile.DailyJobLosesItsReturn | cmd/proxsave/daemon_setup.go:450 | A line that does not survive. |
| Scheduler.RepointEntriesKeeps | cmd/proxsave/runtime_helpers.go:951-967 | The crontab rewrite of an upgrade, with reading and writing able to fail, changes no operator line and no number of cron entries, because both before and after a repointed line is proxsave's own. |
| Scheduler.ApplyKeeps | cmd/proxsave/daemon_setup.go:138-186 | Any one complete run, with any step failing, keeps the operator's lines; it keeps the host scheduled unless it takes the unit down without the crontab rewrite that must come before. |
| Scheduler.AfterKeeps | cmd/proxsave/daemon_setup.go:255-294 | The same for a run that is cut off after any of its steps. |
| Scheduler.TraceEnds | cmd/proxsave/daemon_setup.go:138-294 | The states a run passes through lead to its result, so a run that is not cut off ends there. |
| Scheduler.OperatorLinesSurvive | cmd/proxsave/daemon_setup.go:424-468 | Over any sequence of setup, remove, upgrade (crontab repoint included) and install runs, with any step failing and each run cut off anywhere, the operator's non-blank lines keep content and order through every text write and read. |
| Scheduler.ScheduledHostStaysScheduled | cmd/proxsave/daemon_setup.go:261-395 | A host with a cron entry or an enabled unit stays scheduled over any such sequence in which each run that takes a unit down, in the state it meets, has its crontab rewrite land; runs that take nothing down may fail in any way. |
| Scheduler.RevertedHostIsScheduledExactly | cmd/proxsave/daemon_setup.go:282-294 | After a revert that goes ahead, the host is scheduled if and only if the rewrite landed (binary known, crontab readable and writable), or an entry was already there, or the enabled unit survived. |
| Scheduler.RevertCanUnschedule | cmd/proxsave/daemon_setup.go:279-293 | A host that it leaves unscheduled: daemon mode, empty crontab, unreadable at the moment of the revert. |
| Scheduler.OneEntryIsInstalled | cmd/proxsave/runtime_helpers.go:740-812 | A rewrite that lands leaves exactly one entry of proxsave's own: the schedule, the entrypoint or, while that is missing, the binary, and the flag for an unattended run. |
| Scheduler.OldScriptsAreGone | cmd/proxsave/runtime_helpers.go:831-851 | Apart from that entry no line of the rewritten crontab runs the old script under the base directory or a historical root. |
| Scheduler.SetupIsRecorded | cmd/proxsave/daemon_setup.go:138-156 | A switch to the daemon that succeeds leaves an enabled unit, drops the cron entries if the crontab can be rewritten, and records the daemon without opt-out if the record can be written. |
| Scheduler.SetupSticks | cmd/proxsave/daemon_setup.go:299-361 | After a recorded setup an installation without a choice keeps the unit and an upgrade changes nothing. |
| Scheduler.RevertIsRecorded | cmd/proxsave/daemon_setup.go:284-290 | A revert that goes ahead records cron, and the opt-out when asked for; it never takes an opt-out back. |
| Scheduler.RemovedStaysRemoved | cmd/proxsave/daemon_setup.go:308-312 | Once a removal is recorded, no sequence of upgrades, complete or cut off, touches unit, mode or opt-out. |
| Scheduler.UpgradeMigrates | cmd/proxsave/upgrade.go:294-301 | An upgrade in which every step works switches a cron host without opt-out to the daemon and records it. |
| Scheduler.ChoiceIsFollowed | cmd/proxsave/daemon_setup.go:354-395 | An installation records the wizard's choice and follows it: the unit stands enabled, or none does. |
| Scheduler.InterruptedSetupStaysScheduled | cmd/proxsave/daemon_setup.go:138-156 | Every state a switch to the daemon passes through keeps the operator's lines and is scheduled if the host was. |
| Scheduler.InterruptedRevertStaysScheduled | cmd/proxsave/daemon_setup.go:279-294 | So does every state of a revert whose rewrite lands, because the fallback is written before anything is taken down. |
| Scheduler.InterruptedInstallStaysScheduled | cmd/proxsave/install.go:145-155 | So does every state of an installation, with the same proviso where it takes a unit down. |
| Scheduler.InterruptedUpgradeStaysScheduled | cmd/proxsave/upgrade.go:288-317 | So does every state of an upgrade. |
| Scheduler.RevertIsIdleGated | cmd/proxsave/daemon_setup.go:268-294 | For every sequence of lock probes, a revert tears the daemon down if and only if the configuration is readable and some probe within the wait finds the lock free; the probe just before the teardown is then idle, and otherwise the host is left exactly as it was. |
| Scheduler.UnitGoesExactly | cmd/proxsave/daemon_setup.go:354-395 | An installed unit is gone after a run if and only if its file could be removed and the run was a revert with an idle probe, or an installation that recorded or kept the choice of cron, which makes no probe. |
| Scheduler.InstallTearsDownWhileBusy | cmd/proxsave/daemon_setup.go:387-393 | With the lock held at every probe, choosing cron in an installation removes the unit where a revert changes nothing. |
| Scheduler.Machine.SwitchToDaemon | cmd/proxsave/daemon_setup.go:138-156 | The step sequence with early return equals the state function, and passes through the states of its trace in this order. |
| Scheduler.Machine.SwitchToCron | cmd/proxsave/daemon_setup.go:261-294 | The guards, the wait over the lock probes and the steps after it equal the state function, pass through the states of its trace in this order, and produce its log of probes and teardown. |
| Scheduler.Machine.RepointLegacyCronEntries | cmd/proxsave/runtime_helpers.go:951-967 | Reads, repoints and writes back only when some line was repointed. |
| Scheduler.Machine.UpgradeFinalizePhase | cmd/proxsave/upgrade.go:288-317 | Repoints in every upgrade and migrates only behind an installed binary, through the states of its trace. |
| Scheduler.Machine.RunInstall | cmd/proxsave/install.go:591-593 | Records the wizard's choice or ends there, writes the cron entry and reconciles, through the states of its trace. |
| Scheduler.Machine.InstallDaemonService | cmd/proxsave/daemon_service.go:85-111 | Unit write, reload and enable, each able to fail, equal the state function. |
| Scheduler.Machine.RemoveDaemonService | cmd/proxsave/daemon_service.go:169-183 | Best-effort disable, unit removal and reload equal the state function. |
| Scheduler.Machine.RemoveCanonicalCronEntry | cmd/proxsave/daemon_setup.go:424-435 | Reads, drops proxsave's lines and writes back only when something was dropped. |
| Scheduler.Machine.MigrateLegacyCronEntries | cmd/proxsave/runtime_helpers.go:733-815 | Reads and rewrites the crontab; an unknown binary and failures leave it unchanged and are invisible to the caller. |
| Scheduler.Machine.MaybeAutoMigrateDaemon | cmd/proxsave/daemon_setup.go:299-318 | Migrates only a readable, cron-mode host that has not opted out. |
| Scheduler.Machine.ReconcileSchedulerAfterInstall | cmd/proxsave/daemon_setup.go:354-395 | Installs the unit and drops the entry, or tears a leftover unit down. |
| Handoff.InvAlways | cmd/proxsave/daemon.go:117-273 | Every interleaving of runs, waker, lifecycle and clock keeps the joint invariant. |
| Handoff.HandoffIsSafe | cmd/proxsave/daemon.go:117-273 | Each run is pinged at most once, with the time it wrote its outcome and its own exit code, and judged at most 900 seconds after that time; a pid file means that the daemon it names is alive with its signal handler in place, because the handler goes in before the pid is published and out after it is withdrawn. |
| Handoff.NoSignalledOutcomeIsForgotten | cmd/proxsave/daemon.go:173-192 | Before the waker returns, no signalled outcome stays in the slot with the waker asleep and no wake-up pending. |
| Handoff.OnlyEntitledRunsHandOff | cmd/proxsave/backup_healthcheck.go:37-55 | A dry run, a run without attempt, a supervised child, and a run with monitoring or backups switched off never writes, signals or is pinged, over every interleaving. |
| Handoff.EntitledRunGoesOn | cmd/proxsave/backup_healthcheck.go:56-66 | Every other run that finds the pid of a live daemon goes on to hand off. |
| Handoff.EveryOutcomeIsAccountedFor | cmd/proxsave/daemon.go:223-273 | Over every interleaving, each outcome that was written is exactly one of held (in the file or in the waker's hands), pinged, or lost by a step named in the definition. |
| Handoff.PingedExactlyWhenNotLost | cmd/proxsave/daemon.go:223-273 | An outcome that has left the file and the waker's hands was pinged, exactly once, if and only if no step of the run was a losing one: overwritten unread, removed behind another outcome, or older than the window when judged. |
| Handoff.UndisturbedWakeSettles | cmd/proxsave/daemon.go:223-273 | From every reachable state, a wake-up that nothing interrupts pings the outcome in the file if and only if it is not older than the window, and removes the file either way. |
| Handoff.SignalMeetsNoHandlerExactly | cmd/proxsave/daemon.go:128-136 | From every reachable state with the pid withdrawn, some continuation has a signal find this daemon alive without its handler if and only if a run that read its pid before has yet to signal. |
| Handoff.LateSignalMeetsNoHandler | cmd/proxsave/daemon.go:128-136 | Such a state and continuation exist, for every run entitled to hand off. |
| Handoff.SecondOutcomeCanBeLost | cmd/proxsave/daemon.go:258-272 | A losing run: a delivered outcome is removed with its predecessor and never pinged. |
| Handoff.Files.MaybeHandoffManualBackup | cmd/proxsave/backup_healthcheck.go:37-75 | Each of the five reasons not to hand off, and a missing daemon, leaves slot and signal untouched; otherwise the outcome is in the slot and the signal is sent. |
| Handoff.Files.ProcessManualOutcome | cmd/proxsave/daemon.go:223-273 | Undisturbed, the daemon's code does what the waker's separate steps do. |
| Provisioning.JitterBounds | cmd/proxsave/daemon.go:730-745 | The jitter lies in [0, min(R/10, 5 min)] and no intermediate value is negative or overflows. |
| Provisioning.JitterIsReduced | cmd/proxsave/daemon.go:730-745 | The jitter is the hash without its top bit, reduced modulo one more than the window of a tenth of the wait, at most five minutes. |
| Provisioning.DeadlineIsMonotone | cmd/proxsave/daemon.go:803-824 | Over any interleaving of callers, with any clock readings, the deadline never decreases. |
| Provisioning.AttemptsAreSpaced | cmd/proxsave/daemon.go:803-811 | Any two admitted attempts read clocks at least fifteen minutes apart. |
| Provisioning.RetryAfterExactly | internal/notify/relay_provision.go:39-66 | Whatever the header, the wait lies between nothing and 24 hours, and it is the wait asked for within those bounds if and only if the number fits 64 bits. |
| Provisioning.TooLongIsIgnored | internal/notify/relay_provision.go:44-57 | The first number that does not fit 64 bits asks for a day and gets nothing. |
| Provisioning.BackoffIsHonoured | cmd/proxsave/daemon.go:813-822 | After a wait R beyond the local floor processed at t, every later attempt is at t+R+jitter or after, for every header the server may send. |
| Provisioning.AttemptsResume | internal/notify/relay_provision.go:19-22 | No sequence of answers suppresses attempts for longer than 24 hours and five minutes after the last clock reading. |
| Provisioning.Throttle.Begin | cmd/proxsave/daemon.go:804-810 | The first critical section installs the floor exactly when it admits. |
| Provisioning.Throttle.Finish | cmd/proxsave/daemon.go:813-822 | The second critical section extends the deadline and never shortens it. |
| UpdateVerdicts.WarningsAreRisingEdges | cmd/proxsave/daemon.go:540-556 | Over any run, warnings equal the false-to-true edges of the effective verdicts, and the memory and the status file agree with the last one. |
| UpdateVerdicts.OnlyConclusiveTicksDecide | cmd/proxsave/daemon.go:530-543 | The recorded verdict is always that of the last conclusive tick; inconclusive ones repeat it or do nothing. |
| UpdateVerdicts.Updater.UpdateTick | cmd/proxsave/daemon.go:519-594 | One tick, with its early returns, equals the tick function. |
| RestartGate.WaitForBackupIdle | cmd/proxsave/daemon_restart_verify.go:230-249 | For every probe sequence it returns busy exactly when every probe the budget allows, the one at the deadline included, is busy; every probe but the last was busy. |
| RestartGate.RestartAndVerifyDaemon | cmd/proxsave/daemon_restart_verify.go:126-184 | At most one restart, only with a known lock path and after the latest probe said idle; a busy deadline changes nothing; success without timeout means live, aligned and strictly newer; a timeout means no observed state qualified. |
| Versions.CompareVersions | cmd/proxsave/upgrade.go:511-581 | Returns -1, 0 or 1 exactly as the first version precedes, equals or follows the second, where the first differing component decides. |
| Versions.Trichotomy | cmd/proxsave/upgrade.go:546-580 | Exactly one of precedes, follows and equivalent holds. |
| Versions.PrecedesTransitive | cmd/proxsave/upgrade.go:546-580 | The order is transitive and compatible with equivalence. |
| Versions.WrittenIsRead | cmd/proxsave/upgrade.go:512-544 | Numbers that fit an int, written in decimal with dots and any suffix, are read back exactly, with the pre-release mark if the suffix starts with "-". |
| Versions.WrittenAreOrdered | cmd/proxsave/upgrade.go:546-567 | So written versions are ordered as their numbers are, position by position. |
| Versions.TrailingZeroComponent | cmd/proxsave/upgrade.go:553-567 | Writing a further zero component, before any suffix, gives an equivalent version. |
| Versions.StableFollowsPrerelease | cmd/proxsave/upgrade.go:569-580 | A stable version ranks above every pre-release with the same core, as in section 11 of Semantic Versioning 2.0.0. |
| Versions.GateAgreesExactly | cmd/proxsave/main_update.go:123-168 | For texts without a "v" in front and without a component beyond an int, the notice says "newer" exactly when the gate says -1, if and only if the components after the third do not turn the order around. |
| Versions.ThreeComponentsAgree | cmd/proxsave/upgrade.go:570-573 | So they agree on all such versions of at most three components. |
| Versions.LeadingVIsHarmless | internal/version/version.go:36-55 | On the way from the injected version and the release tag to both comparisons a "v" is dropped on either side, so with or without it the update is announced exactly when the gate lets it in, under the same condition. |
| Versions.VersionWithoutInjection | internal/version/version.go:36-50 | With nothing injected the module version counts, unless it is missing, blank or "(devel)"; then the placeholder does. |
| Versions.CheckAgreesExactly | cmd/proxsave/main_update.go:60-97 | The whole check, which never announces for a blank text, agrees with the gate under the same condition, and for a blank text if and only if the gate does not say -1. |
| Versions.NoticeMissesFourthComponent | cmd/proxsave/main_update.go:137-149 | A newer fourth component is visible to the gate only. |
| Versions.OverflowTurnsTheOrder | cmd/proxsave/main_update.go:137-140 | Whenever one text overflows within the first three components, everything before reads alike and the other component is neither zero nor the largest int, notice and gate order the two versions in opposite ways. |
| Versions.OverflowingComponentDiffers | cmd/proxsave/main_update.go:137-140 | A release whose only component is beyond an int is announced to version 1.0.0, while the gate takes it for an older one. |
| StreamWindows.TailIsChunkingFree | cmd/proxsave/daemon.go:1101-1109 | After any sequence of writes the tail buffer holds exactly the last min(max, total) bytes. |
| StreamWindows.CapIsChunkingFree | internal/backup/archiver.go:1291-1300 | After any sequence of writes the capped buffer holds exactly the first min(cap, total) bytes. |
| StreamWindows.TailBuffer.Write | cmd/proxsave/daemon.go:1101-1109 | One write, reported as full. |
| StreamWindows.CappedBuffer.Write | internal/backup/archiver.go:1291-1300 | One write, reported as full. |
| PbsRepository.PbsRepositoryWithDatastore | internal/backup/collector.go:1379-1400 | The scanning loop equals the scan, and puts the name behind the separator, or behind a new colon. |
| PbsRepository.DepthIsExcess | internal/backup/collector.go:1381-1390 | The scanner's bracket depth, floor at zero included, is the largest excess of opening brackets over any end of the text. |
| PbsRepository.SeparatorExactly | internal/backup/collector.go:1380-1395 | The separator is the last colon with every bracket before it closed, if and only if there is one. |
| PbsRepository.KeepsTheServer | internal/backup/collector.go:1396-1399 | The result is the text up to that colon (or the whole text and a new colon), then the datastore name, and nothing else. |
| PbsRepository.LastDatastoreWins | internal/backup/collector.go:1379-1400 | Setting one name after another equals setting the last, if and only if some colon stands outside brackets or the brackets are closed. |
| PbsRepository.OpenBracketKeepsBoth | internal/backup/collector.go:1379-1400 | A repository with an open bracket keeps both names. |
| ByteFormat.Scale | internal/backup/archiver.go:1358-1369 | For every 64-bit size of at least 1024 the divisor is 1024^(exp+1), brackets the size, fits 64 bits, and the suffix index is at most 5. |

## Left out

- Malformed class patterns: a glob with an unclosed, empty or POSIX-style class has no meaning in the model; the text emitted for it is modelled, what that text then matches is not stated.
- Regular expressions: only the syntax the compiler emits is parsed; the modelled parser rejects everything else, and size limits of the engine are not modelled.
- The standard glob matcher that is tried first is a parameter, and so is the computation of the candidate paths from directories and prefixes.
- Archive file metadata (owner, times, modes), the format of headers, compression and encryption: a failing compressor is one fault of `CreateArchive`. A failing sink write is modelled as writing nothing.
- Closing a source file after it was archived completely: a failure there is only logged.
- Sockets are the only kind whose header cannot be built; other header failures are a fault.
- The directory counter, byte counter and metadata of the tree copy.
- Sampling: names are assumed to be what directory listings contain (not empty, not "." or "..", no slash); file times are not modelled.
- LooksLikeEnvAssignment: letters and digits outside ASCII do not count as variable-name characters.
- The base directory is taken to be a clean path when the old script's location is built from it.
- Schedules come in as text; converting HH:MM to a schedule is not modelled.
- Scheduler: whether the unit is currently running, `try-restart`, the relay-secret provisioning and the alignment report that follow a switch do not change what is scheduled and are not part of the state.
- GateAgreesExactly: says nothing about a text that still starts with a "v" after one was dropped, as from a tag "vv1", because only the notice drops a second one; for components beyond an int OverflowTurnsTheOrder gives the disagreement, and only a zero or a largest int opposite the oversized component is not decided.
- Signs in version components: the readers cut at "-" and "+" first, so none reaches the number parser.
- Handoff: file operations succeed, run ids are distinct, and a ping counts as sent when it is attempted; the contents of the status file and the reporter's URL resolution are not modelled.
- Handoff: a daemon that dies without its shutdown. It leaves the pid file behind (a reader then finds no live daemon of that pid), and an outcome it had pinged but not yet removed would be pinged again by its successor.
- Scheduler: a wizard that starts from the default template also resets DAEMON_OPT_OUT; the model's installations keep it.
- The hash behind the jitter is an arbitrary 64-bit number; clock readings are arbitrary integers.
- The syntax of HTTP dates: a header is taken to be missing, a decimal integer, a date or anything else.
- The configuration upgrade that adds missing keys to backup.env before the crontab is repointed.
- UpdateVerdicts: status writes succeed; the report ping and its own outcome are not modelled.
- The supervised run itself (`runOnce`), its watchdog and its log tail beyond the tail buffer; notification outcomes per channel.
- `withTemporaryExcludes`, the collectors' command bricks, dashboards, wizards, HTTP clients, identity and configuration parsing: they would only add easy members or belong to other systems.
- Rendering of byte counts as decimal text.
