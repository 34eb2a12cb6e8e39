/** Naming a datastore in a Proxmox Backup Server repository string. */
module PbsRepository {

  /** Scanner state: nesting of brackets, and the last colon seen outside them (-1 for none). */
  datatype Scan = Scan(depth: nat, separator: int)

  function Step(s: Scan, i: nat, c: char): Scan
  {
    if c == '[' then s.(depth := s.depth + 1)
    else if c == ']' then (if s.depth > 0 then s.(depth := s.depth - 1) else s)
    else if c == ':' && s.depth == 0 then s.(separator := i)
    else s
  }

  function ScanOf(r: string): (s: Scan)
    ensures -1 <= s.separator < |r|
    ensures s.separator >= 0 ==> r[s.separator] == ':'
  {
    if r == "" then Scan(0, -1) else Step(ScanOf(r[..|r| - 1]), |r| - 1, r[|r| - 1])
  }

  function WithDatastore(r: string, name: string): string
  {
    var sep := ScanOf(r).separator;
    if sep >= 0 then r[..sep + 1] + name else r + ":" + name
  }

  method PbsRepositoryWithDatastore(r: string, name: string) returns (out: string)
    ensures out == WithDatastore(r, name)
  {
    var separator, depth := -1, 0;
    for i := 0 to |r|
      invariant depth >= 0 && -1 <= separator < i
      invariant Scan(depth, separator) == ScanOf(r[..i])
    {
      assert r[..i + 1][..i] == r[..i];
      match r[i] {
        case '[' => depth := depth + 1;
        case ']' =>
          if depth > 0 {
            depth := depth - 1;
          }
        case ':' =>
          if depth == 0 {
            separator := i;
          }
        case _ =>
      }
    }
    assert r[..|r|] == r;
    if separator >= 0 {
      return r[..separator + 1] + name;
    }
    return r + ":" + name;
  }

  /** Scanning on over text without colons never finds a separator. */
  lemma {:induction false} NoColonNoSeparator(r: string, t: string)
    requires ':' !in t
    ensures ScanOf(r + t).separator == ScanOf(r).separator
  {
    if t == "" {
      assert r + t == r;
    } else {
      var init := t[..|t| - 1];
      assert (r + t)[..|r + t| - 1] == r + init;
      assert t[|t| - 1] in t;
      NoColonNoSeparator(r, init);
    }
  }

  /** A colon at depth zero that is scanned last is the separator. */
  lemma ColonScan(r: string)
    ensures ScanOf(r + ":") == (var s := ScanOf(r); if s.depth == 0 then s.(separator := |r|) else s)
  {
  }

  lemma {:induction false} ScanPrefix(r: string, sep: nat)
    requires sep < |r| && ScanOf(r).separator == sep
    ensures ScanOf(r[..sep + 1]).separator == sep
  {
    if |r| > sep + 1 {
      var init := r[..|r| - 1];
      assert init[..sep + 1] == r[..sep + 1];
      ScanPrefix(init, sep);
    } else {
      assert r[..sep + 1] == r;
    }
  }

  /** The text up to the last colon outside brackets is kept; a bare repository gets a colon. */
  lemma KeepsTheServer(r: string, name: string)
    ensures var sep := ScanOf(r).separator;
            if sep >= 0 then r[..sep + 1] <= WithDatastore(r, name) else r + ":" <= WithDatastore(r, name)
    ensures |WithDatastore(r, name)| >= |name| && WithDatastore(r, name)[|WithDatastore(r, name)| - |name|..] == name
    ensures |WithDatastore(r, name)| == |name| + 1 + if ScanOf(r).separator >= 0 then ScanOf(r).separator else |r|
  {
  }

  // ------------------------------------------------------------ which colon it is

  /** Opening brackets minus closing ones. */
  function Balance(t: string): int
  {
    if t == "" then 0
    else
      var c := t[|t| - 1];
      Balance(t[..|t| - 1]) + if c == '[' then 1 else if c == ']' then -1 else 0
  }

  /** Every bracket opened in `t` is closed in it: no end of it opens more than it closes. */
  predicate Closed(t: string)
  {
    forall j :: 0 <= j <= |t| ==> Balance(t[j..]) <= 0
  }

  lemma BalanceSuffix(t: string, j: nat)
    requires j < |t|
    ensures Balance(t[j..]) ==
              Balance(t[..|t| - 1][j..]) + if t[|t| - 1] == '[' then 1 else if t[|t| - 1] == ']' then -1 else 0
  {
    assert t[j..][..|t[j..]| - 1] == t[..|t| - 1][j..];
  }

  /** The scanner's depth is the largest excess of opening brackets at the end of the text. */
  lemma {:induction false} DepthIsExcess(t: string)
    ensures forall j :: 0 <= j <= |t| ==> Balance(t[j..]) <= ScanOf(t).depth
    ensures exists j :: 0 <= j <= |t| && Balance(t[j..]) == ScanOf(t).depth
  {
    assert t[|t|..] == "" && Balance(t[|t|..]) == 0;
    if t != "" {
      var init := t[..|t| - 1];
      DepthIsExcess(init);
      forall j | 0 <= j < |t|
        ensures Balance(t[j..]) ==
                  Balance(init[j..]) + if t[|t| - 1] == '[' then 1 else if t[|t| - 1] == ']' then -1 else 0
      {
        BalanceSuffix(t, j);
      }
      var j :| 0 <= j <= |init| && Balance(init[j..]) == ScanOf(init).depth;
      assert Balance(t[j..]) == ScanOf(t).depth || ScanOf(t).depth == 0;
    }
  }

  lemma ClosedExactly(t: string)
    ensures Closed(t) <==> ScanOf(t).depth == 0
  {
    DepthIsExcess(t);
  }

  /** A colon at position `i` with every bracket before it closed. */
  predicate Outside(r: string, i: nat)
  {
    i < |r| && r[i] == ':' && Closed(r[..i])
  }

  lemma {:induction false} LastOutside(r: string)
    ensures ScanOf(r).separator >= 0 ==> Outside(r, ScanOf(r).separator)
    ensures forall k :: ScanOf(r).separator < k < |r| ==> !Outside(r, k)
  {
    if r != "" {
      var init := r[..|r| - 1];
      LastOutside(init);
      forall k | 0 <= k < |init| ensures Outside(r, k) <==> Outside(init, k) {
        assert init[..k] == r[..k];
      }
      ClosedExactly(init);
    }
  }

  /** The separator is the last colon outside brackets, if and only if there is one. */
  lemma SeparatorExactly(r: string, i: int)
    requires -1 <= i < |r|
    ensures ScanOf(r).separator == i <==>
              (i >= 0 ==> Outside(r, i)) && forall k :: i < k < |r| ==> !Outside(r, k)
  {
    LastOutside(r);
  }

  // ------------------------------------------------------------ naming a datastore twice

  lemma TwiceWithSeparator(r: string, a: string, b: string)
    requires ':' !in a && ScanOf(r).separator >= 0
    ensures WithDatastore(WithDatastore(r, a), b) == WithDatastore(r, b)
  {
    var sep := ScanOf(r).separator;
    var head := r[..sep + 1];
    ScanPrefix(r, sep);
    NoColonNoSeparator(head, a);
    HeadOf(head, a);
  }

  lemma TwiceClosed(r: string, a: string, b: string)
    requires ':' !in a && ScanOf(r) == Scan(0, -1)
    ensures WithDatastore(WithDatastore(r, a), b) == WithDatastore(r, b)
  {
    var head := r + ":";
    ColonScan(r);
    NoColonNoSeparator(head, a);
    HeadOf(head, a);
  }

  lemma TwiceOpen(r: string, a: string, b: string)
    requires ':' !in a && ScanOf(r).separator == -1 && ScanOf(r).depth > 0
    ensures WithDatastore(WithDatastore(r, a), b) != WithDatastore(r, b)
  {
    var head := r + ":";
    ColonScan(r);
    NoColonNoSeparator(head, a);
    assert |head + a + ":" + b| > |head + b|;
  }

  lemma HeadOf(head: string, a: string)
    ensures (head + a)[..|head|] == head
  {
  }

  /** Setting one datastore after another equals setting the last one, if and only if the repository
      already had a separator or its brackets are closed. */
  lemma LastDatastoreWins(r: string, a: string, b: string)
    requires ':' !in a
    ensures WithDatastore(WithDatastore(r, a), b) == WithDatastore(r, b) <==>
              (exists i :: 0 <= i < |r| && Outside(r, i)) || Closed(r)
  {
    ClosedExactly(r);
    LastOutside(r);
    if ScanOf(r).separator >= 0 {
      TwiceWithSeparator(r, a, b);
    } else if ScanOf(r).depth == 0 {
      TwiceClosed(r, a, b);
    } else {
      TwiceOpen(r, a, b);
    }
  }

  /** A repository with a bracket left open keeps both names. */
  lemma OpenBracketKeepsBoth()
    ensures WithDatastore(WithDatastore("[host", "one"), "two") != WithDatastore("[host", "two")
  {
    var r := "[host";
    OpenedScan(r, 0);
    TwiceOpen(r, "one", "two");
  }

  /** From an opening bracket on, text without brackets and colons changes nothing. */
  lemma {:induction false} OpenedScan(r: string, i: nat)
    requires i < |r| && r[i] == '[' && ScanOf(r[..i]).separator == -1
    requires forall k :: i < k < |r| ==> r[k] != ']' && r[k] != ':'
    ensures ScanOf(r).separator == -1 && ScanOf(r).depth > 0
  {
    if |r| > i + 1 {
      var init := r[..|r| - 1];
      assert init[..i] == r[..i];
      OpenedScan(init, i);
    } else {
      assert r[..|r| - 1] == r[..i];
    }
  }
}
