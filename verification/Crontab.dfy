/** Crontab lines: finding the command of a line, dropping, rewriting and reinstalling entries. */
module Crontab {
  import opened Sequences
  import opened Text

  const LEGACY_SYMLINK := "/usr/local/bin/proxmox-backup"
  const CANONICAL := "/usr/local/bin/proxsave"
  const BASH_SCRIPT := "/script/proxmox-backup.sh"

  // ------------------------------------------------------------ the command of a line

  predicate WordChar(c: char)
  {
    'a' <= c <= 'z' || 'A' <= c <= 'Z' || '0' <= c <= '9' || c == '_'
  }

  /** NAME=... at the start of a line sets a variable instead of scheduling a command. */
  predicate LooksLikeEnvAssignment(token: string)
  {
    var idx := IndexAny(token, "=");
    0 < idx < |token| && forall i :: 0 <= i < idx ==> WordChar(token[i])
  }

  /** An '=' at `idx`, after letters, digits and underscores only. */
  predicate NameUpTo(token: string, idx: nat)
  {
    0 < idx < |token| && token[idx] == '=' &&
    forall i :: 0 <= i < idx ==>
      'a' <= token[i] <= 'z' || 'A' <= token[i] <= 'Z' || '0' <= token[i] <= '9' || token[i] == '_'
  }

  lemma EnvAssignmentExactly(token: string)
    ensures LooksLikeEnvAssignment(token) <==> exists idx :: NameUpTo(token, idx)
  {
    if LooksLikeEnvAssignment(token) {
      assert NameUpTo(token, IndexAny(token, "="));
    }
    if idx :| NameUpTo(token, idx) {
      IndexAnyIs(token, "=", idx);
    }
  }

  function CronCommandToken(line: string): string
  {
    var trimmed := TrimSpace(line);
    if trimmed == "" || trimmed[0] == '#' then ""
    else
      var fields := Fields(trimmed);
      if fields == [] then ""
      else
        var first := fields[0];
        if LooksLikeEnvAssignment(first) then ""
        else if first != "" && first[0] == '@' then (if |fields| >= 2 then fields[1] else "")
        else if |fields| <= 5 then ""
        else fields[5]
  }

  /** Which field of a line is its command, if any: decided by the first field alone. */
  function CommandIndex(fs: seq<string>): nat
  {
    if fs != [] && fs[0] != "" && fs[0][0] == '@' then 1 else 5
  }

  predicate HasCommand(fs: seq<string>)
  {
    && fs != [] && fs[0] != "" && fs[0][0] != '#'
    && !LooksLikeEnvAssignment(fs[0])
    && CommandIndex(fs) < |fs|
  }

  /** The command depends on the fields of the line only. */
  lemma CommandFromFields(line: string)
    ensures CronCommandToken(line) == if HasCommand(Fields(line)) then Fields(line)[CommandIndex(Fields(line))] else ""
  {
    TrimmedStart(line);
    FieldsOfTrimmed(line);
  }

  predicate Quote(c: char)
  {
    c == '"' || c == '\''
  }

  function TrimQuotesLeft(s: string): string
  {
    if s != "" && Quote(s[0]) then TrimQuotesLeft(s[1..]) else s
  }

  function TrimQuotesRight(s: string): string
  {
    if s != "" && Quote(s[|s| - 1]) then TrimQuotesRight(s[..|s| - 1]) else s
  }

  function TrimQuotes(s: string): string
  {
    TrimQuotesRight(TrimQuotesLeft(s))
  }

  predicate AllQuotes(s: string)
  {
    forall i :: 0 <= i < |s| ==> Quote(s[i])
  }

  predicate Unquoted(s: string)
  {
    s != "" ==> !Quote(s[0]) && !Quote(s[|s| - 1])
  }

  /** Trimming cuts single and double quotes off both ends, all of them and nothing else. */
  lemma TrimQuotesCuts(s: string) returns (l: string, r: string)
    ensures s == l + TrimQuotes(s) + r && AllQuotes(l) && AllQuotes(r) && Unquoted(TrimQuotes(s))
    ensures forall c :: c in l || c in r ==> c == '"' || c == '\''
    ensures var t := TrimQuotes(s);
            t != "" ==> t[0] !in "\"'" && t[|t| - 1] !in "\"'"
  {
    l := CutLeft(s);
    r := CutRight(TrimQuotesLeft(s));
  }

  lemma {:induction false} CutLeft(s: string) returns (l: string)
    ensures s == l + TrimQuotesLeft(s) && AllQuotes(l)
    ensures TrimQuotesLeft(s) != "" ==> !Quote(TrimQuotesLeft(s)[0])
  {
    l := "";
    if s != "" && Quote(s[0]) {
      l := CutLeft(s[1..]);
      l := [s[0]] + l;
    }
  }

  lemma {:induction false} CutRight(s: string) returns (r: string)
    ensures s == TrimQuotesRight(s) + r && AllQuotes(r)
    ensures TrimQuotesRight(s) != "" ==> !Quote(TrimQuotesRight(s)[|TrimQuotesRight(s)| - 1])
  {
    r := "";
    if s != "" && Quote(s[|s| - 1]) {
      r := CutRight(s[..|s| - 1]);
      r := r + [s[|s| - 1]];
    }
  }

  lemma {:induction false} TrimLeftPast(l: string, t: string)
    requires AllQuotes(l) && (t == "" || !Quote(t[0]))
    ensures TrimQuotesLeft(l + t) == t
  {
    if l == "" {
      assert l + t == t;
    } else {
      assert (l + t)[1..] == l[1..] + t;
      TrimLeftPast(l[1..], t);
    }
  }

  lemma {:induction false} TrimRightPast(t: string, r: string)
    requires AllQuotes(r) && (t == "" || !Quote(t[|t| - 1]))
    ensures TrimQuotesRight(t + r) == t
  {
    if r == "" {
      assert t + r == t;
    } else {
      assert (t + r)[..|t + r| - 1] == t + r[..|r| - 1];
      TrimRightPast(t, r[..|r| - 1]);
    }
  }

  lemma TrimQuotesOf(l: string, t: string, r: string)
    requires AllQuotes(l) && AllQuotes(r) && t != "" && Unquoted(t)
    ensures TrimQuotes(l + t + r) == t
  {
    assert l + t + r == l + (t + r);
    TrimLeftPast(l, t + r);
    TrimRightPast(t, r);
  }

  lemma TrimQuotesTwice(s: string)
    ensures TrimQuotes(TrimQuotes(s)) == TrimQuotes(s)
  {
    var l, r := TrimQuotesCuts(s);
    var t := TrimQuotes(s);
    if t != "" {
      TrimQuotesOf("", t, "");
      assert "" + t + "" == t;
    }
  }

  /** filepath.Base. */
  function Base(path: string): string
  {
    if path == "" then "."
    else
      var p := DropSlashes(path);
      if p == "" then "/" else AfterLastSlash(p)
  }

  function DropSlashes(s: string): string
  {
    if s != "" && s[|s| - 1] == '/' then DropSlashes(s[..|s| - 1]) else s
  }

  function AfterLastSlash(s: string): string
  {
    if s == "" || s[|s| - 1] == '/' then "" else AfterLastSlash(s[..|s| - 1]) + [s[|s| - 1]]
  }

  predicate AllSlashes(s: string)
  {
    forall i :: 0 <= i < |s| ==> s[i] == '/'
  }

  lemma {:induction false} DropSlashesPast(p: string, b: string)
    requires AllSlashes(b) && (p == "" || p[|p| - 1] != '/')
    ensures DropSlashes(p + b) == p
  {
    if b == "" {
      assert p + b == p;
    } else {
      assert (p + b)[..|p + b| - 1] == p + b[..|b| - 1];
      DropSlashesPast(p, b[..|b| - 1]);
    }
  }

  lemma {:induction false} DropSlashesCuts(s: string) returns (b: string)
    ensures s == DropSlashes(s) + b && AllSlashes(b)
    ensures DropSlashes(s) != "" ==> DropSlashes(s)[|DropSlashes(s)| - 1] != '/'
  {
    b := "";
    if s != "" && s[|s| - 1] == '/' {
      b := DropSlashesCuts(s[..|s| - 1]);
      b := b + "/";
    }
  }

  lemma {:induction false} LastPartCuts(p: string) returns (a: string)
    ensures p == a + AfterLastSlash(p) && '/' !in AfterLastSlash(p)
    ensures a == "" || a[|a| - 1] == '/'
  {
    if p == "" || p[|p| - 1] == '/' {
      a := p;
    } else {
      a := LastPartCuts(p[..|p| - 1]);
      assert p == a + (AfterLastSlash(p[..|p| - 1]) + [p[|p| - 1]]);
    }
  }

  lemma {:induction false} LastPartOf(a: string, name: string)
    requires '/' !in name && (a == "" || a[|a| - 1] == '/')
    ensures AfterLastSlash(a + name) == name
  {
    if name == "" {
      assert a + name == a;
    } else {
      var init := name[..|name| - 1];
      assert name[|name| - 1] in name;
      assert (a + name)[..|a + name| - 1] == a + init;
      LastPartOf(a, init);
      assert init + [name[|name| - 1]] == name;
    }
  }

  /** The base name is what stands between the last slash and any slashes at the end. */
  lemma BaseExactly(a: string, name: string, b: string)
    requires name != "" && '/' !in name && AllSlashes(b) && (a == "" || a[|a| - 1] == '/')
    ensures Base(a + name + b) == name
  {
    assert name[|name| - 1] in name && (a + name)[|a + name| - 1] == name[|name| - 1];
    DropSlashesPast(a + name, b);
    LastPartOf(a, name);
  }

  lemma BaseCuts(path: string) returns (a: string, b: string)
    requires Base(path) != "." && Base(path) != "/"
    ensures path == a + Base(path) + b && AllSlashes(b) && (a == "" || a[|a| - 1] == '/') && '/' !in Base(path)
  {
    b := DropSlashesCuts(path);
    a := LastPartCuts(DropSlashes(path));
  }

  predicate CommandTokenMatchesTarget(token: string)
  {
    var t := TrimQuotes(token);
    t != "" && (Base(t) == "proxsave" || Base(t) == "proxmox-backup")
  }

  // ------------------------------------------------------------ which lines belong to proxsave

  /** The command with its quotes removed, as every filter compares it. */
  function Command(line: string): string
  {
    TrimQuotes(CronCommandToken(line))
  }

  /** The old backup script under the base directory and under the two historical roots. */
  function LegacyScripts(baseDir: string): set<string>
  {
    var root := TrimSpace(baseDir);
    {"/opt/proxmox-backup" + BASH_SCRIPT, "/opt/proxsave" + BASH_SCRIPT}
    + if root == "" then {} else {root + BASH_SCRIPT}
  }

  predicate RunsBashScript(line: string, scripts: set<string>)
  {
    Command(line) in scripts
  }

  predicate RunsOneOf(line: string, paths: seq<string>)
  {
    Command(line) != "" && Command(line) in paths
  }

  predicate RunsBinary(line: string)
  {
    CommandTokenMatchesTarget(CronCommandToken(line))
  }

  /** A line a reinstall replaces. */
  predicate Owned(line: string, scripts: set<string>, correct: seq<string>)
  {
    RunsBashScript(line, scripts) || RunsBinary(line) || RunsOneOf(line, correct)
  }

  /** `name` alone or at the end of a path, slashes after it aside. */
  predicate EndsIn(path: string, a: string, name: string, b: string)
  {
    path == a + name + b && (a == "" || a[|a| - 1] == '/') && forall i :: 0 <= i < |b| ==> b[i] == '/'
  }

  lemma BaseEndsIn(path: string, name: string)
    requires name != "" && '/' !in name && name != "."
    ensures Base(path) == name <==> exists a, b :: EndsIn(path, a, name, b)
  {
    if Base(path) == name {
      assert name[0] in name;
      var a, b := BaseCuts(path);
      assert EndsIn(path, a, name, b);
    }
    if a, b :| EndsIn(path, a, name, b) {
      BaseExactly(a, name, b);
    }
  }

  /** A line runs proxsave's binary when its unquoted command ends in one of the two names. */
  lemma RunsBinaryExactly(line: string)
    ensures RunsBinary(line) <==>
              || (exists a, b :: EndsIn(Command(line), a, "proxsave", b))
              || (exists a, b :: EndsIn(Command(line), a, "proxmox-backup", b))
  {
    var now, before := "proxsave", "proxmox-backup";
    BaseEndsIn(Command(line), now);
    BaseEndsIn(Command(line), before);
    assert Base("") == ".";
  }

  lemma EarlierRoot(path: string, script: string)
    requires script == "/script/proxmox-backup.sh"
    ensures path == "/opt/proxmox-backup" + script <==> path == "/opt/proxmox-backup/script/proxmox-backup.sh"
  {
  }

  lemma RecentRoot(path: string, script: string)
    requires script == "/script/proxmox-backup.sh"
    ensures path == "/opt/proxsave" + script <==> path == "/opt/proxsave/script/proxmox-backup.sh"
  {
  }

  /** The old script's locations: two historical roots and the base directory. */
  lemma RunsBashScriptExactly(line: string, baseDir: string)
    ensures RunsBashScript(line, LegacyScripts(baseDir)) <==>
              || Command(line) == "/opt/proxmox-backup/script/proxmox-backup.sh"
              || Command(line) == "/opt/proxsave/script/proxmox-backup.sh"
              || (TrimSpace(baseDir) != "" && Command(line) == TrimSpace(baseDir) + "/script/proxmox-backup.sh")
  {
    EarlierRoot(Command(line), BASH_SCRIPT);
    RecentRoot(Command(line), BASH_SCRIPT);
  }

  function Keep(lines: seq<string>, keep: string -> bool): seq<string>
  {
    if lines == [] then []
    else
      var last := lines[|lines| - 1];
      Keep(lines[..|lines| - 1], keep) + if keep(last) then [last] else []
  }

  predicate Comment(line: string)
  {
    var trimmed := TrimSpace(line);
    trimmed == "" || trimmed[0] == '#'
  }

  predicate KeptByFilter(line: string, correct: seq<string>)
  {
    Comment(line) || RunsOneOf(line, correct) || !RunsBinary(line)
  }

  predicate Canonical(line: string, correct: seq<string>)
  {
    RunsBinary(line) || RunsOneOf(line, correct)
  }

  lemma {:induction false} KeepStep(lines: seq<string>, i: nat, keep: string -> bool)
    requires i < |lines|
    ensures Keep(lines[..i + 1], keep) == Keep(lines[..i], keep) + if keep(lines[i]) then [lines[i]] else []
  {
    assert lines[..i + 1][..i] == lines[..i];
  }

  /** What the three filters look at, in terms of the line's text and its command alone. */
  lemma LineClasses(line: string, scripts: set<string>, correct: seq<string>)
    ensures var t, c := TrimSpace(line), Command(line);
            && (Owned(line, scripts, correct) <==> c in scripts || RunsBinary(line) || (c != "" && c in correct))
            && (KeptByFilter(line, correct) <==>
                  t == "" || t[0] == '#' || (c != "" && c in correct) || !RunsBinary(line))
            && (Canonical(line, correct) <==> RunsBinary(line) || (c != "" && c in correct))
  {
  }

  method DropLegacyBashCronLines(lines: seq<string>, baseDir: string) returns (kept: seq<string>)
    ensures kept == Keep(lines, (l: string) => !RunsBashScript(l, LegacyScripts(baseDir)))
  {
    kept := [];
    var scripts := LegacyScripts(baseDir);
    ghost var keep := (l: string) => !RunsBashScript(l, scripts);
    for i := 0 to |lines|
      invariant kept == Keep(lines[..i], keep)
    {
      KeepStep(lines, i, keep);
      var token := TrimQuotes(CronCommandToken(lines[i]));
      if token in scripts {
        continue;
      }
      kept := kept + [lines[i]];
    }
    assert lines[..|lines|] == lines;
  }

  method FilterCronLines(lines: seq<string>, correct: seq<string>) returns (updated: seq<string>)
    ensures updated == Keep(lines, (l: string) => KeptByFilter(l, correct))
  {
    updated := [];
    ghost var keep := (l: string) => KeptByFilter(l, correct);
    for i := 0 to |lines|
      invariant updated == Keep(lines[..i], keep)
    {
      KeepStep(lines, i, keep);
      if Comment(lines[i]) {
        updated := updated + [lines[i]];
        continue;
      }
      var token := TrimQuotes(CronCommandToken(lines[i]));
      if token != "" && token in correct {
        updated := updated + [lines[i]];
        continue;
      }
      if CommandTokenMatchesTarget(CronCommandToken(lines[i])) {
        continue;
      }
      updated := updated + [lines[i]];
    }
    assert lines[..|lines|] == lines;
  }

  method DropCanonicalCronLines(lines: seq<string>, correct: seq<string>) returns (kept: seq<string>)
    ensures kept == Keep(lines, (l: string) => !Canonical(l, correct))
  {
    kept := [];
    ghost var keep := (l: string) => !Canonical(l, correct);
    for i := 0 to |lines|
      invariant kept == Keep(lines[..i], keep)
    {
      KeepStep(lines, i, keep);
      var token := TrimQuotes(CronCommandToken(lines[i]));
      TrimQuotesTwice(CronCommandToken(lines[i]));
      var drop := CommandTokenMatchesTarget(token);
      if !drop && token != "" && token in correct {
        drop := true;
      }
      if drop {
        continue;
      }
      kept := kept + [lines[i]];
    }
    assert lines[..|lines|] == lines;
  }

  lemma {:induction false} KeepTwice(lines: seq<string>, p: string -> bool, q: string -> bool, r: string -> bool)
    requires forall l :: r(l) <==> p(l) && q(l)
    ensures Keep(Keep(lines, p), q) == Keep(lines, r)
  {
    if lines != [] {
      var init, last := lines[..|lines| - 1], lines[|lines| - 1];
      KeepTwice(init, p, q, r);
      if p(last) {
        assert (Keep(init, p) + [last])[..|Keep(init, p)|] == Keep(init, p);
      } else {
        assert Keep(init, p) + [] == Keep(init, p);
      }
    }
  }

  /** The stale-binary filter never removes a line that the canonical filter would have kept. */
  lemma FilterIsSubsumed(lines: seq<string>, correct: seq<string>)
    ensures Keep(Keep(lines, (l: string) => KeptByFilter(l, correct)), (l: string) => !Canonical(l, correct))
         == Keep(lines, (l: string) => !Canonical(l, correct))
  {
    KeepTwice(lines, (l: string) => KeptByFilter(l, correct), (l: string) => !Canonical(l, correct),
              (l: string) => !Canonical(l, correct));
  }

  // ------------------------------------------------------------ reinstalling

  function Entry(schedule: string, command: string): string
  {
    schedule + " " + command + " --backup"
  }

  /** The operator's lines in order, then one fresh entry. */
  function Reinstalled(lines: seq<string>, scripts: set<string>, correct: seq<string>, schedule: string,
                       command: string): seq<string>
  {
    Keep(lines, (l: string) => !Owned(l, scripts, correct)) + [Entry(schedule, command)]
  }

  /** Three filters in a row amount to dropping exactly the owned lines. */
  method BuildReinstallCronLines(lines: seq<string>, baseDir: string, correct: seq<string>, schedule: string,
                                 command: string)
    returns (updated: seq<string>)
    ensures updated == Reinstalled(lines, LegacyScripts(baseDir), correct, schedule, command)
  {
    ghost var scripts := LegacyScripts(baseDir);
    var kept := DropLegacyBashCronLines(lines, baseDir);
    updated := FilterCronLines(kept, correct);
    updated := DropCanonicalCronLines(updated, correct);
    FilterIsSubsumed(kept, correct);
    KeepTwice(lines, (l: string) => !RunsBashScript(l, scripts), (l: string) => !Canonical(l, correct),
              (l: string) => !Owned(l, scripts, correct));
    updated := updated + [Entry(schedule, command)];
  }

  /** Five fields that do not look like a comment, a macro or an assignment; or one macro. */
  predicate WellFormedSchedule(schedule: string)
  {
    var fs := Fields(schedule);
    || (|fs| == 5 && fs[0] != "" && fs[0][0] != '#' && fs[0][0] != '@' && !LooksLikeEnvAssignment(fs[0]))
    || (|fs| == 1 && fs[0] != "" && fs[0][0] == '@')
  }

  predicate PlainCommand(command: string, correct: seq<string>)
  {
    Solid(command) && Unquoted(command) && command in correct
  }

  /** Words appended with single spaces become further fields. */
  lemma SpacedFields(s: string, sp: string, w: string, flag: string)
    requires |sp| == 1 && IsSpace(sp[0]) && Solid(w) && Solid(flag)
    ensures Fields(s + sp + w + (sp + flag)) == Fields(s) + [w] + [flag]
  {
    FieldsOfBlank(sp);
    FieldsAppend(s, sp);
    assert Fields(s) + [] == Fields(s);
    FieldsAppend(sp, flag);
    FieldsOfWord(flag);
    assert [] + [flag] == [flag];
    FieldsAround(s + sp, w, sp + flag);
  }

  lemma EntryFields(schedule: string, command: string)
    requires Solid(command)
    ensures Fields(Entry(schedule, command)) == Fields(schedule) + [command] + ["--backup"]
  {
    var sp, flag := " ", "--backup";
    assert sp + flag == " --backup";
    SpacedFields(schedule, sp, command, flag);
  }

  /** The command of a fresh entry is the command it was built from. */
  lemma EntryCommand(schedule: string, command: string)
    requires WellFormedSchedule(schedule) && Solid(command) && Unquoted(command)
    ensures Command(Entry(schedule, command)) == command
  {
    var flag := "--backup";
    EntryFields(schedule, command);
    CommandFromFields(Entry(schedule, command));
    CommandAfterSchedule(Fields(schedule), [command] + [flag]);
    Associative(Fields(schedule), [command], [flag]);
    TrimQuotesOf("", command, "");
    assert "" + command + "" == command;
  }

  lemma CommandAfterSchedule(fs: seq<string>, rest: seq<string>)
    requires rest != []
    requires || (|fs| == 5 && fs[0] != "" && fs[0][0] != '#' && fs[0][0] != '@' && !LooksLikeEnvAssignment(fs[0]))
             || (|fs| == 1 && fs[0] != "" && fs[0][0] == '@')
    ensures HasCommand(fs + rest) && (fs + rest)[CommandIndex(fs + rest)] == rest[0]
  {
  }

  /** Reinstalling resets the schedule: only the last one survives, whatever came before. */
  lemma LastReinstallWins(lines: seq<string>, scripts: set<string>, correct: seq<string>, s1: string, s2: string,
                          command: string)
    requires WellFormedSchedule(s1) && PlainCommand(command, correct)
    ensures Reinstalled(Reinstalled(lines, scripts, correct, s1, command), scripts, correct, s2, command)
         == Reinstalled(lines, scripts, correct, s2, command)
  {
    EntryCommand(s1, command);
    var keep := (l: string) => !Owned(l, scripts, correct);
    var once := Keep(lines, keep);
    assert (once + [Entry(s1, command)])[..|once|] == once;
    KeepTwice(lines, keep, keep, keep);
  }

  // ------------------------------------------------------------ repointing the legacy symlink

  predicate Repoints(line: string)
  {
    Command(line) == LEGACY_SYMLINK
  }

  function Repointed(line: string): string
  {
    if Repoints(line) then ReplaceFirst(line, LEGACY_SYMLINK, CANONICAL) else line
  }

  /** A field before the command contains the legacy path. */
  predicate ScheduleMentionsLegacy(line: string)
  {
    var fs := Fields(line);
    exists j :: 0 <= j < |fs| && j < CommandIndex(fs) && Occurs(fs[j], LEGACY_SYMLINK)
  }

  method RepointLine(line: string) returns (out: string, hit: bool)
    ensures out == Repointed(line) && (hit <==> Repoints(line))
  {
    if TrimQuotes(CronCommandToken(line)) == LEGACY_SYMLINK {
      return ReplaceFirst(line, LEGACY_SYMLINK, CANONICAL), true;
    }
    return line, false;
  }

  function RepointedAll(lines: seq<string>): seq<string>
  {
    if lines == [] then [] else RepointedAll(lines[..|lines| - 1]) + [Repointed(lines[|lines| - 1])]
  }

  predicate AnyLine(lines: seq<string>, p: string -> bool)
  {
    lines != [] && (AnyLine(lines[..|lines| - 1], p) || p(lines[|lines| - 1]))
  }

  lemma {:induction false} AnyLineExactly(lines: seq<string>, p: string -> bool)
    ensures AnyLine(lines, p) <==> exists i :: 0 <= i < |lines| && p(lines[i])
  {
    if lines != [] {
      var init := lines[..|lines| - 1];
      AnyLineExactly(init, p);
      assert forall i :: 0 <= i < |init| ==> init[i] == lines[i];
    }
  }

  /** Every line is repointed on its own, and the flag says whether any was. */
  method RepointLegacyCronLines(lines: seq<string>) returns (out: seq<string>, changed: bool)
    ensures out == RepointedAll(lines)
    ensures changed <==> exists i :: 0 <= i < |lines| && Repoints(lines[i])
  {
    out, changed := [], false;
    for i := 0 to |lines|
      invariant out == RepointedAll(lines[..i]) && changed == AnyLine(lines[..i], Repoints)
    {
      var line, hit := RepointLine(lines[i]);
      out := out + [line];
      RepointStep(lines, i);
      changed := changed || hit;
    }
    assert lines[..|lines|] == lines;
    AnyLineExactly(lines, Repoints);
  }

  lemma {:induction false} RepointStep(lines: seq<string>, i: nat)
    requires i < |lines|
    ensures RepointedAll(lines[..i + 1]) == RepointedAll(lines[..i]) + [Repointed(lines[i])]
    ensures AnyLine(lines[..i + 1], Repoints) <==> AnyLine(lines[..i], Repoints) || Repoints(lines[i])
  {
    var xs := lines[..i + 1];
    assert xs[..i] == lines[..i] && xs[i] == lines[i];
  }

  /** Line count is kept and every line whose command is not the legacy symlink is untouched. */
  lemma {:induction false} RepointedEach(lines: seq<string>, i: nat)
    requires i < |lines|
    ensures |RepointedAll(lines)| == |lines|
    ensures RepointedAll(lines)[i] == Repointed(lines[i])
    ensures !Repoints(lines[i]) ==> RepointedAll(lines)[i] == lines[i]
  {
    if i < |lines| - 1 {
      RepointedEach(lines[..|lines| - 1], i);
    } else if i > 0 {
      RepointedEach(lines[..|lines| - 1], i - 1);
    }
  }

  /** A path as the crontab compares it: no white space, quotes or '=' in it, absolute. */
  predicate PlainPath(p: string)
  {
    Solid(p) && Unquoted(p) && p[0] == '/' && '=' !in p
  }

  /** Letters, slashes and dashes. */
  predicate PathChar(c: char)
  {
    'a' <= c <= 'z' || c == '/' || c == '-'
  }

  lemma PathCharIsPlain(c: char)
    requires PathChar(c)
    ensures !IsSpace(c) && !Quote(c) && c != '='
  {
  }

  lemma PlainByCharacters(p: string)
    requires p != "" && p[0] == '/' && forall i :: 0 <= i < |p| ==> PathChar(p[i])
    ensures PlainPath(p)
  {
    forall i | 0 <= i < |p| ensures !IsSpace(p[i]) && !Quote(p[i]) && p[i] != '=' {
      PathCharIsPlain(p[i]);
    }
  }

  lemma PathsArePlain()
    ensures PlainPath(LEGACY_SYMLINK) && PlainPath(CANONICAL) && LEGACY_SYMLINK != CANONICAL
  {
    PlainByCharacters(LEGACY_SYMLINK);
    PlainByCharacters(CANONICAL);
    assert |CANONICAL| < |LEGACY_SYMLINK|;
  }

  /** The command of a line in place: quotes, the path, quotes. */
  lemma CommandPlace(line: string, p: string) returns (a: string, l: string, r: string, b: string)
    requires Command(line) == p && p != ""
    ensures AllQuotes(l) && AllQuotes(r) && Stands(line, a, l + p + r, b)
    ensures HasCommand(Fields(line)) && |Fields(a)| == CommandIndex(Fields(line))
    ensures Fields(line) == Fields(a) + [l + p + r] + Fields(b)
  {
    CommandFromFields(line);
    var f;
    a, f, b := FieldPlace(line, CommandIndex(Fields(line)));
    l, r := TrimQuotesCuts(f);
  }

  lemma NotInQuotes(a: string, l: string, rest: string, p: string, i: nat)
    requires AllQuotes(l) && |a| <= i < |a + l| && PlainPath(p)
    ensures !OccursAt(a + l + rest, p, i)
  {
  }

  /** Without a mention in the schedule, the first occurrence on the line is the command itself. */
  lemma {:induction false} FirstOccurrenceIsCommand(a: string, l: string, p: string, rest: string)
    requires AllQuotes(l) && PlainPath(p) && (a == "" || IsSpace(a[|a| - 1]))
    requires forall j :: 0 <= j < |Fields(a)| ==> !Occurs(Fields(a)[j], p)
    ensures forall i :: 0 <= i < |a + l| ==> !OccursAt((a + l) + p + rest, p, i)
  {
    var line := (a + l) + p + rest;
    forall i | 0 <= i < |a + l| ensures !OccursAt(line, p, i) {
      if i >= |a| {
        assert line == a + l + (p + rest);
        NotInQuotes(a, l, p + rest, p, i);
      } else if i + |p| > |a| {
        assert line == a + (l + p + rest);
        NoStraddle(a, l + p + rest, p, i);
      } else {
        assert !OccursAt(a, p, i) by {
          if OccursAt(a, p, i) {
            OccursInSomeField(a, p, i);
          }
        }
        assert line[i..i + |p|] == a[i..i + |p|];
      }
    }
  }

  lemma SolidSwap(u: string, p: string, v: string, q: string)
    requires Solid(u + p + v) && Solid(q)
    ensures Solid(u + q + v)
  {
    var s, t := u + p + v, u + q + v;
    assert forall i :: 0 <= i < |u| ==> s[i] == u[i];
    assert forall i :: 0 <= i < |v| ==> s[|u| + |p| + i] == v[i];
  }

  /** Replacing the path inside the command field leaves every other field alone. */
  lemma {:induction false} CommandReplaced(line: string, p: string, q: string) returns (l: string, r: string)
    requires PlainPath(p) && PlainPath(q) && Command(line) == p
    requires forall j :: 0 <= j < |Fields(line)| && j < CommandIndex(Fields(line)) ==> !Occurs(Fields(line)[j], p)
    ensures AllQuotes(l) && AllQuotes(r)
    ensures HasCommand(Fields(line)) && Fields(line)[CommandIndex(Fields(line))] == l + p + r
    ensures Fields(ReplaceFirst(line, p, q)) == Fields(line)[CommandIndex(Fields(line)) := l + q + r]
  {
    var a, b;
    a, l, r, b := CommandPlace(line, p);
    assert forall j :: 0 <= j < |Fields(a)| ==> Fields(a)[j] == Fields(line)[j];
    ReplaceInCommand(a, l, p, r, b, q);
    SolidSwap(l, p, r, q);
    FieldsAround(a, l + q + r, b);
    UpdateMiddle(Fields(a), l + p + r, Fields(b), l + q + r);
  }

  lemma {:induction false} ReplaceInCommand(a: string, l: string, p: string, r: string, b: string, q: string)
    requires AllQuotes(l) && PlainPath(p) && (a == "" || IsSpace(a[|a| - 1]))
    requires forall j :: 0 <= j < |Fields(a)| ==> !Occurs(Fields(a)[j], p)
    ensures ReplaceFirst(a + (l + p + r) + b, p, q) == a + (l + q + r) + b
  {
    FirstOccurrenceIsCommand(a, l, p, r + b);
    ReplaceFirstAfter(a + l, p, r + b, q);
    Regroup(a, l, p, r, b);
    Regroup(a, l, q, r, b);
  }

  lemma Regroup(a: string, l: string, m: string, r: string, b: string)
    ensures (a + l) + m + (r + b) == a + (l + m + r) + b
  {
  }

  lemma UpdateMiddle<T>(x: seq<T>, m: T, y: seq<T>, m': T)
    ensures (x + [m] + y)[|x| := m'] == x + [m'] + y
  {
  }

  /** Repointing a line whose schedule does not mention the legacy path replaces the path inside the
      command field, quotes kept, and leaves every other field as it was. */
  lemma RepointChangesCommandOnly(line: string) returns (l: string, r: string)
    requires Repoints(line) && !ScheduleMentionsLegacy(line)
    ensures AllQuotes(l) && AllQuotes(r)
    ensures var fs, k := Fields(line), CommandIndex(Fields(line));
            && k < |fs| && fs[k] == l + LEGACY_SYMLINK + r
            && Fields(Repointed(line)) == fs[k := l + CANONICAL + r]
    ensures Command(Repointed(line)) == CANONICAL
  {
    PathsArePlain();
    l, r := CommandReplaced(line, LEGACY_SYMLINK, CANONICAL);
    NewCommand(Fields(line), l, CANONICAL, r, Repointed(line));
  }

  lemma NewCommand(fs: seq<string>, l: string, q: string, r: string, line': string)
    requires HasCommand(fs) && AllQuotes(l) && AllQuotes(r) && PlainPath(q)
    requires Fields(line') == fs[CommandIndex(fs) := l + q + r]
    ensures Command(line') == q
  {
    CommandFromFields(line');
    TrimQuotesOf(l, q, r);
  }

  // ---- when the schedule does mention the legacy path, the wrong occurrence is rewritten

  /** A path with `p` replaced by `q` starts a line the same way: comment, macro or assignment. */
  lemma SameStart(u: string, p: string, v: string, q: string)
    requires PlainPath(p) && PlainPath(q)
    ensures var x, y := u + p + v, u + q + v;
            && x != "" && y != "" && x[0] == y[0]
            && (LooksLikeEnvAssignment(x) <==> LooksLikeEnvAssignment(y))
  {
    var x, y := u + p + v, u + q + v;
    assert x[0] == (if u == "" then p[0] else u[0]) && y[0] == (if u == "" then q[0] else u[0]);
    var n := IndexAny(u, "=");
    if n < |u| {
      StartBefore(u, p, v, n);
      StartBefore(u, q, v, n);
    } else {
      NoAssignmentThroughPath(u, p, v);
      NoAssignmentThroughPath(u, q, v);
    }
  }

  lemma StartBefore(u: string, p: string, v: string, n: nat)
    requires n < |u| && n == IndexAny(u, "=")
    ensures IndexAny(u + p + v, "=") == n
    ensures LooksLikeEnvAssignment(u + p + v) <==> LooksLikeEnvAssignment(u)
  {
    var x := u + p + v;
    assert forall i :: 0 <= i <= n ==> x[i] == u[i];
    IndexAnyIs(x, "=", n);
  }

  lemma NoAssignmentThroughPath(u: string, p: string, v: string)
    requires PlainPath(p) && IndexAny(u, "=") == |u|
    ensures !LooksLikeEnvAssignment(u + p + v)
  {
    var x := u + p + v;
    assert forall i :: 0 <= i < |u| ==> x[i] == u[i];
    assert forall i :: 0 <= i < |p| ==> x[|u| + i] == p[i];
    assert x[|u|] == '/' && !WordChar('/');
    var idx := IndexAny(x, "=");
    assert idx > |u|;
  }

  /** The first occurrence lies before the command; replacing it changes one schedule field. */
  lemma {:induction false} ScheduleReplaced(line: string, p: string, q: string, j: nat)
    requires PlainPath(p) && PlainPath(q) && Command(line) == p
    requires j < |Fields(line)| && j < CommandIndex(Fields(line)) && Occurs(Fields(line)[j], p)
    ensures Command(ReplaceFirst(line, p, q)) == p
  {
    var a, l, r, b := CommandPlace(line, p);
    assert Fields(a)[j] == Fields(line)[j];
    var f := l + p + r;
    var k, u, v, a' := BeforeCommand(a, f, b, p, q, j);
    var fs' := Fields(a') + [f] + Fields(b);
    FieldsAround(a', f, b);
    Associative(Fields(a), [f], Fields(b));
    Associative(Fields(a'), [f], Fields(b));
    SameCommand(Fields(a), [f] + Fields(b), Fields(a'), k, u, p, v, q);
    CommandFromFields(a' + f + b);
    TrimQuotesOf(l, p, r);
  }

  lemma CutOccurrence(f: string, p: string, n: nat) returns (u: string, v: string)
    requires OccursAt(f, p, n)
    ensures f == u + p + v && |u| == n
  {
    u, v := f[..n], f[n + |p|..];
  }

  /** Replacing inside the schedule `a` of a line: one of its fields changes, nothing else. */
  lemma {:induction false} BeforeCommand(a: string, f: string, b: string, p: string, q: string, j: nat)
    returns (k: nat, u: string, v: string, a': string)
    requires PlainPath(p) && PlainPath(q) && j < |Fields(a)| && Occurs(Fields(a)[j], p)
    requires Stands(a + f + b, a, f, b)
    ensures k < |Fields(a)| && Fields(a)[k] == u + p + v && Fields(a') == Fields(a)[k := u + q + v]
    ensures a' != "" && IsSpace(a'[|a'| - 1])
    ensures ReplaceFirst(a + f + b, p, q) == a' + f + b
  {
    var n := FirstInSchedule(a, f + b, p, j);
    var c, g, d, m := OccursInField(a, p, n);
    u, v := CutOccurrence(g, p, m);
    k := |Fields(c)|;
    a' := c + (u + q + v) + d;
    Associative(a, f, b);
    Associative(a', f, b);
    ReplaceInSchedule(c, u, p, v, d, f + b, q, n);
    SolidSwap(u, p, v, q);
    FieldsAround(c, u + p + v, d);
    FieldsAround(c, u + q + v, d);
    UpdateMiddle(Fields(c), u + p + v, Fields(d), u + q + v);
    EndsInSpace(a, c, u + p + v, d, u + q + v);
  }

  lemma FirstInSchedule(a: string, tail: string, p: string, j: nat) returns (n: nat)
    requires j < |Fields(a)| && Occurs(Fields(a)[j], p)
    ensures OccursAt(a, p, n) && n == IndexOfText(a + tail, p)
  {
    var x, f, y := FieldPlace(a, j);
    var i :| 0 <= i <= |f| && OccursAt(f, p, i);
    OccursWithin(a, x, f, y, p, i);
    n := FirstInPrefix(a, tail, p, |x| + i);
  }

  lemma FirstInPrefix(a: string, tail: string, p: string, m: nat) returns (n: nat)
    requires OccursAt(a, p, m)
    ensures OccursAt(a, p, n) && n == IndexOfText(a + tail, p)
  {
    assert (a + tail)[m..m + |p|] == a[m..m + |p|];
    assert OccursAt(a + tail, p, m);
    var k := IndexOfText(a + tail, p);
    assert 0 <= k <= m;
    n := k;
    assert a[n..n + |p|] == (a + tail)[n..n + |p|];
  }

  lemma ReplaceInSchedule(c: string, u: string, p: string, v: string, d: string, tail: string, q: string, n: nat)
    requires n == |c| + |u| && n == IndexOfText(c + (u + p + v) + d + tail, p)
    ensures ReplaceFirst(c + (u + p + v) + d + tail, p, q) == c + (u + q + v) + d + tail
  {
    assert c + (u + p + v) + d + tail == (c + u) + p + (v + d + tail);
    assert c + (u + q + v) + d + tail == (c + u) + q + (v + d + tail);
    ReplaceFirstAfter(c + u, p, v + d + tail, q);
  }

  lemma EndsInSpace(a: string, c: string, f: string, d: string, f': string)
    requires a == c + f + d && Solid(f) && IsSpace(a[|a| - 1])
    ensures d != "" && IsSpace((c + f' + d)[|c + f' + d| - 1])
  {
  }

  lemma SameCommand(xs: seq<string>, ys: seq<string>, xs': seq<string>, k: nat, u: string, p: string, v: string,
                    q: string)
    requires k < |xs| && xs[k] == u + p + v && xs' == xs[k := u + q + v] && PlainPath(p) && PlainPath(q)
    requires HasCommand(xs + ys) && CommandIndex(xs + ys) == |xs|
    ensures HasCommand(xs' + ys) && CommandIndex(xs' + ys) == |xs|
  {
    SameStart(u, p, v, q);
    assert (xs + ys)[0] == xs[0] && (xs' + ys)[0] == xs'[0];
  }

  /** The command of a repointed line is one of the two entrypoints, whichever occurrence was rewritten. */
  lemma RepointedCommand(line: string)
    requires Repoints(line)
    ensures Command(Repointed(line)) == if ScheduleMentionsLegacy(line) then LEGACY_SYMLINK else CANONICAL
  {
    PathsArePlain();
    if ScheduleMentionsLegacy(line) {
      var fs := Fields(line);
      var j :| 0 <= j < |fs| && j < CommandIndex(fs) && Occurs(fs[j], LEGACY_SYMLINK);
      ScheduleReplaced(line, LEGACY_SYMLINK, CANONICAL, j);
    } else {
      var l, r := RepointChangesCommandOnly(line);
    }
  }

  /** A repointed line is left alone by the next pass if and only if its schedule does not mention
      the legacy path. */
  lemma SecondPassIsQuiet(line: string)
    requires Repoints(line)
    ensures !Repoints(Repointed(line)) <==> !ScheduleMentionsLegacy(line)
  {
    PathsArePlain();
    RepointedCommand(line);
  }

  lemma BaseOfPath(path: string, dir: string, name: string)
    requires path == dir + "/" + name && name != "" && '/' !in name
    ensures Base(path) == name
  {
    BaseExactly(dir + "/", name, "");
    assert dir + "/" + name + "" == path;
  }

  lemma CanonicalBase()
    ensures Base(CANONICAL) == "proxsave"
  {
    BaseOfPath(CANONICAL, "/usr/local/bin", "proxsave");
  }

  lemma LegacyBase()
    ensures Base(LEGACY_SYMLINK) == "proxmox-backup"
  {
    BaseOfPath(LEGACY_SYMLINK, "/usr/local/bin", "proxmox-backup");
  }

  /** Both entrypoints are recognised by their base names. */
  lemma EntrypointsRunTheBinary(line: string)
    ensures Command(line) == CANONICAL || Command(line) == LEGACY_SYMLINK ==> RunsBinary(line)
  {
    CanonicalBase();
    LegacyBase();
  }

  // ---- a line on which the second pass is not quiet

  /** Words joined by single spaces. */
  function Spaced(words: seq<string>): string
  {
    if words == [] then ""
    else if |words| == 1 then words[0]
    else words[0] + " " + Spaced(words[1..])
  }

  lemma {:induction false} FieldsOfSpaced(words: seq<string>)
    requires forall i :: 0 <= i < |words| ==> Solid(words[i])
    ensures Fields(Spaced(words)) == words
  {
    if |words| == 1 {
      FieldsOfWord(words[0]);
    } else if words != [] {
      var rest := words[1..];
      FieldsOfSpaced(rest);
      FieldsSpaced(words[0], " ", Spaced(rest));
      FieldsOfWord(words[0]);
      assert [words[0]] + rest == words;
    }
  }

  lemma FieldsSpaced(a: string, sp: string, b: string)
    requires |sp| == 1 && IsSpace(sp[0])
    ensures Fields(a + sp + b) == Fields(a) + Fields(b)
  {
    FieldsOfBlank(sp);
    FieldsAppend(a, sp);
    FieldsAppend(a + sp, b);
    assert Fields(a) + [] == Fields(a);
  }

  /** A path where the first schedule field should be. The source relies on a schedule field never
      being a path, as in every crontab that cron itself accepts; the function takes any text. */
  lemma {:induction false} SecondPassCanRewriteAgain()
    ensures var line := Spaced([LEGACY_SYMLINK, "*", "*", "*", "*", LEGACY_SYMLINK]);
            Repoints(line) && Repoints(Repointed(line))
  {
    PathsArePlain();
    var words := [LEGACY_SYMLINK, "*", "*", "*", "*", LEGACY_SYMLINK];
    FieldsOfSpaced(words);
    PathFirst(Spaced(words), LEGACY_SYMLINK);
    SecondPassIsQuiet(Spaced(words));
  }

  lemma PathFirst(line: string, p: string)
    requires p == LEGACY_SYMLINK && |Fields(line)| == 6 && Fields(line)[0] == p && Fields(line)[5] == p
    ensures Repoints(line) && ScheduleMentionsLegacy(line)
  {
    PathsArePlain();
    CommandFromFields(line);
    NoAssignmentThroughPath("", p, "");
    TrimQuotesOf("", p, "");
    assert "" + p + "" == p;
    assert OccursAt(p, p, 0);
  }
}
