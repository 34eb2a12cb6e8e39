/** The crontab as text: what reading back a written crontab yields. */
module CrontabFile {
  import opened Sequences
  import opened Text
  import opened Crontab

  /** Every "\r\n" becomes "\n". */
  function StripCarriageReturns(s: string): string
  {
    if s == "" then ""
    else if |s| >= 2 && s[0] == '\r' && s[1] == '\n' then "\n" + StripCarriageReturns(s[2..])
    else [s[0]] + StripCarriageReturns(s[1..])
  }

  function TrimLineBreaks(s: string): string
  {
    if s != "" && s[|s| - 1] == '\n' then TrimLineBreaks(s[..|s| - 1]) else s
  }

  function ReadLines(text: string): seq<string>
  {
    var normalized := StripCarriageReturns(text);
    if TrimSpace(normalized) == "" then [] else Split(TrimLineBreaks(normalized), '\n')
  }

  function Joined(lines: seq<string>): string
  {
    if lines == [] then ""
    else if |lines| == 1 then lines[0]
    else lines[0] + "\n" + Joined(lines[1..])
  }

  function WriteLines(lines: seq<string>): string
  {
    Joined(lines) + "\n"
  }

  // ------------------------------------------------------------ what survives the round trip

  predicate OneLine(line: string)
  {
    '\n' !in line
  }

  predicate OneLineEach(lines: seq<string>)
  {
    forall i :: 0 <= i < |lines| ==> OneLine(lines[i])
  }

  predicate EndsInReturn(line: string)
  {
    line != "" && line[|line| - 1] == '\r'
  }

  /** A line loses one trailing carriage return on its way through the file. */
  function Chop(line: string): string
  {
    if EndsInReturn(line) then line[..|line| - 1] else line
  }

  function ChopAll(lines: seq<string>): seq<string>
  {
    if lines == [] then [] else [Chop(lines[0])] + ChopAll(lines[1..])
  }

  function DropEmptyTail(lines: seq<string>): seq<string>
  {
    if lines != [] && lines[|lines| - 1] == "" then DropEmptyTail(lines[..|lines| - 1]) else lines
  }

  /** Every line followed by its line break. */
  function Terminated(lines: seq<string>): string
  {
    if lines == [] then "" else lines[0] + "\n" + Terminated(lines[1..])
  }

  lemma {:induction false} WrittenIsTerminated(lines: seq<string>)
    requires lines != []
    ensures WriteLines(lines) == Terminated(lines)
  {
    if |lines| == 1 {
      assert lines[1..] == [] && Terminated(lines[1..]) == "";
      assert lines[0] + "\n" + "" == lines[0] + "\n";
    } else {
      WrittenIsTerminated(lines[1..]);
      assert lines[0] + "\n" + Joined(lines[1..]) + "\n" == lines[0] + "\n" + (Joined(lines[1..]) + "\n");
    }
  }

  lemma StripStep(c: char, t: string)
    requires c == '\r' ==> t == "" || t[0] != '\n'
    ensures StripCarriageReturns([c] + t) == [c] + StripCarriageReturns(t)
  {
  }

  lemma {:induction false} StripLine(line: string, rest: string)
    requires OneLine(line)
    ensures StripCarriageReturns(line + "\n" + rest) == Chop(line) + "\n" + StripCarriageReturns(rest)
  {
    if line == "" {
      StripStep('\n', rest);
      assert line + "\n" + rest == ['\n'] + rest;
    } else if line == "\r" {
      var s := line + "\n" + rest;
      assert s[0] == '\r' && s[1] == '\n' && s[2..] == rest;
    } else {
      var c, tail := line[0], line[1..];
      StripLine(tail, rest);
      assert tail != "" ==> tail[0] == line[1] && line[1] in line;
      StripStep(c, tail + "\n" + rest);
      ConsLine(line, rest);
      ConsLine(Chop(line), StripCarriageReturns(rest));
      assert Chop(line)[1..] == Chop(tail);
    }
  }

  lemma ConsLine(line: string, rest: string)
    requires line != ""
    ensures line + "\n" + rest == [line[0]] + (line[1..] + "\n" + rest)
  {
  }

  lemma {:induction false} StripTerminated(lines: seq<string>)
    requires OneLineEach(lines)
    ensures StripCarriageReturns(Terminated(lines)) == Terminated(ChopAll(lines))
    ensures OneLineEach(ChopAll(lines)) && |ChopAll(lines)| == |lines|
  {
    if lines != [] {
      StripLine(lines[0], Terminated(lines[1..]));
      StripTerminated(lines[1..]);
      assert OneLine(Chop(lines[0]));
    }
  }

  lemma {:induction false} TerminatedAppend(xs: seq<string>, ys: seq<string>)
    ensures Terminated(xs + ys) == Terminated(xs) + Terminated(ys)
  {
    if xs == [] {
      assert xs + ys == ys;
    } else {
      assert (xs + ys)[1..] == xs[1..] + ys;
      TerminatedAppend(xs[1..], ys);
      Associative(xs[0] + "\n", Terminated(xs[1..]), Terminated(ys));
    }
  }

  lemma TerminatedLast(lines: seq<string>)
    requires lines != []
    ensures var init, last := lines[..|lines| - 1], lines[|lines| - 1];
            Terminated(lines) == Terminated(init) + last + "\n"
  {
    var init, last := lines[..|lines| - 1], lines[|lines| - 1];
    assert lines == init + [last];
    TerminatedAppend(init, [last]);
    assert [last][1..] == [] && Terminated([]) == "" && last + "\n" + "" == last + "\n";
    Associative(Terminated(init), last, "\n");
  }

  /** Cutting the line breaks off the end drops the empty lines there. */
  lemma {:induction false} TrimTerminated(lines: seq<string>)
    requires OneLineEach(lines)
    ensures TrimLineBreaks(Terminated(lines)) == Joined(DropEmptyTail(lines))
  {
    if lines != [] {
      var init, last := lines[..|lines| - 1], lines[|lines| - 1];
      var s := Terminated(lines);
      var t := Terminated(init) + last;
      TerminatedLast(lines);
      assert s[..|s| - 1] == t && s[|s| - 1] == '\n';
      if last == "" {
        assert t == Terminated(init);
        TrimTerminated(init);
      } else {
        assert last[|last| - 1] in last && t[|t| - 1] == last[|last| - 1];
        assert TrimLineBreaks(s) == t;
        WrittenIsTerminated(lines);
        assert Joined(lines) + "\n" == t + "\n";
        assert Joined(lines) == (Joined(lines) + "\n")[..|t|] == (t + "\n")[..|t|] == t;
      }
    }
  }

  lemma {:induction false} SplitJoined(lines: seq<string>)
    requires lines != [] && OneLineEach(lines)
    ensures Split(Joined(lines), '\n') == lines
  {
    assert OneLine(lines[0]);
    SplitWhole(lines[0], '\n');
    if |lines| > 1 {
      SplitJoined(lines[1..]);
      SplitAt(lines[0], '\n', Joined(lines[1..]));
      assert lines[0] + ['\n'] + Joined(lines[1..]) == Joined(lines);
      assert lines == [lines[0]] + lines[1..];
    }
  }

  predicate NonBlank(line: string)
  {
    Fields(line) != []
  }

  lemma {:induction false} BlankText(lines: seq<string>)
    ensures TrimSpace(Terminated(lines)) == "" <==> Keep(lines, NonBlank) == []
  {
    TrimmedStart(Terminated(lines));
    BlankFields(lines);
  }

  lemma {:induction false} BlankFields(lines: seq<string>)
    ensures Fields(Terminated(lines)) == [] <==> Keep(lines, NonBlank) == []
  {
    if lines != [] {
      var init, last := lines[..|lines| - 1], lines[|lines| - 1];
      BlankFields(init);
      TerminatedLast(lines);
      var t := Terminated(init);
      FieldsOfBlank("\n");
      assert Separated(t + last, "\n");
      FieldsAppend(t + last, "\n");
      assert t != "" ==> t[|t| - 1] == '\n' by {
        if init != [] {
          TerminatedLast(init);
        }
      }
      FieldsAppend(t, last);
    }
  }

  lemma {:induction false} DropEmptyTailKeeps(lines: seq<string>, keep: string -> bool)
    requires !keep("")
    ensures Keep(DropEmptyTail(lines), keep) == Keep(lines, keep)
    ensures OneLineEach(lines) ==> OneLineEach(DropEmptyTail(lines))
  {
    if lines != [] && lines[|lines| - 1] == "" {
      DropEmptyTailKeeps(lines[..|lines| - 1], keep);
    }
  }

  /** Writing lines and reading them back: each loses a trailing carriage return, empty lines at the
      end disappear, a file of blank lines reads as no lines at all. */
  lemma {:induction false} ReadBack(lines: seq<string>)
    requires OneLineEach(lines)
    ensures ReadLines(WriteLines(lines))
         == if Keep(ChopAll(lines), NonBlank) == [] then [] else DropEmptyTail(ChopAll(lines))
    ensures OneLineEach(ReadLines(WriteLines(lines)))
  {
    var chopped := ChopAll(lines);
    StripTerminated(lines);
    assert Fields("") == [];
    DropEmptyTailKeeps(chopped, NonBlank);
    if lines == [] {
      var nl := "\n";
      assert WriteLines(lines) == nl && nl[1..] == "" && StripCarriageReturns("") == "";
      assert StripCarriageReturns(nl) == nl;
      FieldsOfBlank(nl);
      TrimmedStart(nl);
    } else {
      WrittenIsTerminated(lines);
      BlankText(chopped);
      TrimTerminated(chopped);
      if Keep(chopped, NonBlank) != [] {
        assert DropEmptyTail(chopped) != [];
        SplitJoined(DropEmptyTail(chopped));
      }
    }
  }

  /** Lines that count (they are not blank) survive with content and order, as long as none of them
      ends in a carriage return. */
  lemma {:induction false} ReadBackKeeps(lines: seq<string>, keep: string -> bool)
    requires OneLineEach(lines)
    requires forall l :: keep(l) ==> NonBlank(l)
    requires forall i :: 0 <= i < |lines| ==> !EndsInReturn(lines[i])
    ensures Keep(ReadLines(WriteLines(lines)), keep) == Keep(lines, keep)
  {
    ReadBack(lines);
    ChopNothing(lines);
    assert !keep("") by { assert Fields("") == []; }
    if Keep(lines, NonBlank) == [] {
      KeepLess(lines, keep, NonBlank);
    } else {
      DropEmptyTailKeeps(lines, keep);
    }
  }

  lemma {:induction false} ChopNothing(lines: seq<string>)
    requires forall i :: 0 <= i < |lines| ==> !EndsInReturn(lines[i])
    ensures ChopAll(lines) == lines
  {
    if lines != [] {
      ChopNothing(lines[1..]);
      assert lines == [lines[0]] + lines[1..];
    }
  }

  lemma {:induction false} KeepLess(lines: seq<string>, p: string -> bool, q: string -> bool)
    requires forall l :: p(l) ==> q(l)
    ensures Keep(lines, q) == [] ==> Keep(lines, p) == []
  {
    if lines != [] {
      KeepLess(lines[..|lines| - 1], p, q);
    }
  }

  lemma ChopKeepsFields(line: string)
    ensures NonBlank(Chop(line)) <==> NonBlank(line)
  {
    if EndsInReturn(line) {
      var init, last := line[..|line| - 1], line[|line| - 1..];
      assert line == init + last && last[0] == '\r' && last[1..] == "";
      FieldsAppend(init, last);
      assert Fields(last) == [];
    }
  }

  lemma {:induction false} ChopAppend(xs: seq<string>, ys: seq<string>)
    ensures ChopAll(xs + ys) == ChopAll(xs) + ChopAll(ys)
  {
    if xs == [] {
      assert xs + ys == ys;
    } else {
      assert (xs + ys)[1..] == xs[1..] + ys;
      ChopAppend(xs[1..], ys);
    }
  }

  lemma ChopOne(l: string)
    ensures ChopAll([l]) == [Chop(l)] && ChopAll([]) == []
  {
  }

  lemma {:induction false} ChopCommutesWithKeep(lines: seq<string>)
    ensures Keep(ChopAll(lines), NonBlank) == ChopAll(Keep(lines, NonBlank))
  {
    if lines != [] {
      var init, last := lines[..|lines| - 1], lines[|lines| - 1];
      ChopCommutesWithKeep(init);
      ChopKeepsFields(last);
      ChopOne(last);
      assert lines == init + [last];
      ChopAppend(init, [last]);
      assert (ChopAll(init) + [Chop(last)])[..|ChopAll(init)|] == ChopAll(init);
      ChopAppend(Keep(init, NonBlank), if NonBlank(last) then [last] else []);
    }
  }

  lemma {:induction false} ChopFixes(lines: seq<string>)
    ensures ChopAll(lines) == lines <==> forall i :: 0 <= i < |lines| ==> !EndsInReturn(lines[i])
  {
    if lines != [] {
      ChopFixes(lines[1..]);
      assert ChopAll(lines) == lines <==> Chop(lines[0]) == lines[0] && ChopAll(lines[1..]) == lines[1..];
      assert Chop(lines[0]) == lines[0] <==> !EndsInReturn(lines[0]);
    }
  }

  /** Writing lines and reading them back preserves the non-blank ones, in content and order, if and
      only if none of them ends in a carriage return. */
  lemma {:induction false} RoundTripExactly(lines: seq<string>)
    requires OneLineEach(lines)
    ensures Keep(ReadLines(WriteLines(lines)), NonBlank) == Keep(lines, NonBlank) <==>
              forall i :: 0 <= i < |Keep(lines, NonBlank)| ==> !EndsInReturn(Keep(lines, NonBlank)[i])
  {
    ReadBack(lines);
    ChopCommutesWithKeep(lines);
    ChopFixes(Keep(lines, NonBlank));
    assert !NonBlank("") by { assert Fields("") == []; }
    DropEmptyTailKeeps(ChopAll(lines), NonBlank);
  }

  lemma {:induction false} KeepOne(line: string)
    ensures Keep([line], NonBlank) == if NonBlank(line) then [line] else []
  {
    assert [line][..0] == [];
    assert Keep([line][..0], NonBlank) == [];
  }

  /** A job whose line ends in a carriage return comes back without it. */
  lemma {:induction false} ReturnIsLost(job: string)
    requires OneLine(job) && NonBlank(job) && EndsInReturn(job)
    ensures Keep(ReadLines(WriteLines([job])), NonBlank) != [job]
  {
    var lines := [job];
    KeepOne(job);
    RoundTripExactly(lines);
    assert Keep(lines, NonBlank)[0] == job;
  }

  /** Such a line. */
  lemma {:induction false} DailyJobLosesItsReturn(job: string)
    requires job == "@daily job\r"
    ensures Keep(ReadLines(WriteLines([job])), NonBlank) != [job]
  {
    assert job[0] == '@' && OneLine(job);
    FieldsOfBlank(job);
    ReturnIsLost(job);
  }

  lemma {:induction false} SplitPieces(s: string, sep: char)
    ensures forall i :: 0 <= i < |Split(s, sep)| ==> sep !in Split(s, sep)[i]
  {
    if s != "" {
      SplitPieces(s[1..], sep);
    }
  }

  lemma ReadLinesAreLines(text: string)
    ensures OneLineEach(ReadLines(text))
  {
    SplitPieces(TrimLineBreaks(StripCarriageReturns(text)), '\n');
  }
}
