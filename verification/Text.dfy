/** Text helpers shared by the version and crontab models, as the Go standard library defines them. */
module Text {
  import opened Sequences

  /** Unicode white space. */
  predicate IsSpace(c: char)
  {
    c in SPACES
  }

  const SPACES: set<char> := {
    '\t', '\n', '\U{000B}', '\U{000C}', '\r', ' ', '\U{0085}', '\U{00A0}', '\U{1680}', '\U{2000}', '\U{2001}',
    '\U{2002}', '\U{2003}', '\U{2004}', '\U{2005}', '\U{2006}', '\U{2007}', '\U{2008}', '\U{2009}', '\U{200A}',
    '\U{2028}', '\U{2029}', '\U{202F}', '\U{205F}', '\U{3000}' }

  predicate Blank(s: string)
  {
    forall i :: 0 <= i < |s| ==> IsSpace(s[i])
  }

  function TrimLeft(s: string): string
  {
    if s != "" && IsSpace(s[0]) then TrimLeft(s[1..]) else s
  }

  function TrimRight(s: string): string
  {
    if s != "" && IsSpace(s[|s| - 1]) then TrimRight(s[..|s| - 1]) else s
  }

  function TrimSpace(s: string): string
  {
    TrimRight(TrimLeft(s))
  }

  predicate Trimmed(s: string)
  {
    s != "" ==> !IsSpace(s[0]) && !IsSpace(s[|s| - 1])
  }

  lemma TrimTrimmed(s: string)
    requires Trimmed(s)
    ensures TrimSpace(s) == s
  {
  }

  /** Puts a character in front of the first piece. */
  function Glue(c: char, parts: seq<string>): seq<string>
    requires parts != []
  {
    [[c] + parts[0]] + parts[1..]
  }

  /** Pieces between separators; never empty. */
  function Split(s: string, sep: char): (parts: seq<string>)
    ensures parts != []
  {
    if s == "" then [""]
    else if s[0] == sep then [""] + Split(s[1..], sep)
    else Glue(s[0], Split(s[1..], sep))
  }

  lemma GlueAppend(c: char, x: seq<string>, y: seq<string>)
    requires x != []
    ensures Glue(c, x + y) == Glue(c, x) + y
  {
  }

  lemma {:induction false} SplitAt(a: string, sep: char, b: string)
    ensures Split(a + [sep] + b, sep) == Split(a, sep) + Split(b, sep)
  {
    if a == "" {
      assert a + [sep] + b == [sep] + b;
      assert ([sep] + b)[1..] == b;
    } else {
      var s := a + [sep] + b;
      assert s[1..] == a[1..] + [sep] + b && s[0] == a[0];
      SplitAt(a[1..], sep, b);
      if a[0] != sep {
        GlueAppend(a[0], Split(a[1..], sep), Split(b, sep));
      }
    }
  }

  lemma {:induction false} SplitWhole(s: string, sep: char)
    requires sep !in s
    ensures Split(s, sep) == [s]
  {
    if s != "" {
      SplitWhole(s[1..], sep);
      assert [s[0]] + s[1..] == s;
    }
  }

  /** Position of the first character of `s` that is in `set`, or |s|. */
  function IndexAny(s: string, chars: string): (n: nat)
    ensures n <= |s|
    ensures forall i :: 0 <= i < n ==> s[i] !in chars
    ensures n < |s| ==> s[n] in chars
  {
    if s == "" || s[0] in chars then 0 else 1 + IndexAny(s[1..], chars)
  }

  lemma IndexAnyIs(s: string, chars: string, n: nat)
    requires n <= |s| && (forall i :: 0 <= i < n ==> s[i] !in chars) && (n < |s| ==> s[n] in chars)
    ensures IndexAny(s, chars) == n
  {
  }

  // ------------------------------------------------------------ whitespace-separated fields

  predicate Solid(s: string)
  {
    s != "" && forall i :: 0 <= i < |s| ==> !IsSpace(s[i])
  }

  /** The longest prefix without white space. */
  function Word(s: string): (w: string)
    ensures w <= s && (forall i :: 0 <= i < |w| ==> !IsSpace(w[i])) && (|w| < |s| ==> IsSpace(s[|w|]))
  {
    if s == "" || IsSpace(s[0]) then "" else [s[0]] + Word(s[1..])
  }

  function Fields(s: string): seq<string>
    decreases |s|
  {
    if s == "" then []
    else if IsSpace(s[0]) then Fields(s[1..])
    else [Word(s)] + Fields(s[|Word(s)|..])
  }

  /** White space (or nothing) separates `a` from `b`. */
  predicate Separated(a: string, b: string)
  {
    a == "" || b == "" || IsSpace(a[|a| - 1]) || IsSpace(b[0])
  }

  lemma {:induction false} WordPrefix(w: string, t: string)
    requires (forall i :: 0 <= i < |w| ==> !IsSpace(w[i])) && (t == "" || IsSpace(t[0]))
    ensures Word(w + t) == w
  {
    if w != "" {
      assert (w + t)[1..] == w[1..] + t;
      WordPrefix(w[1..], t);
    }
  }

  lemma FieldsCons(w: string, t: string)
    requires Solid(w) && (t == "" || IsSpace(t[0]))
    ensures Fields(w + t) == [w] + Fields(t)
  {
    WordPrefix(w, t);
    assert (w + t)[|w|..] == t;
  }

  lemma {:induction false} FieldsAppend(a: string, b: string)
    requires Separated(a, b)
    ensures Fields(a + b) == Fields(a) + Fields(b)
    decreases |a|
  {
    if a == "" {
      assert a + b == b;
    } else if IsSpace(a[0]) {
      assert (a + b)[1..] == a[1..] + b;
      FieldsAppend(a[1..], b);
    } else {
      var w, t := CutWord(a);
      assert t != "" ==> t[|t| - 1] == a[|a| - 1];
      FieldsAppend(t, b);
      FieldsCons(w, t + b);
      Associative(w, t, b);
      Associative([w], Fields(t), Fields(b));
    }
  }

  /** Text that starts with a word, cut after it. */
  lemma CutWord(s: string) returns (w: string, t: string)
    requires s != "" && !IsSpace(s[0])
    ensures s == w + t && Solid(w) && (t == "" || IsSpace(t[0]))
    ensures w == Word(s) && Fields(s) == [w] + Fields(t)
  {
    w := Word(s);
    t := s[|w|..];
  }

  lemma FieldsOfWord(w: string)
    requires Solid(w)
    ensures Fields(w) == [w]
  {
    FieldsCons(w, "");
    assert w + "" == w;
  }

  lemma {:induction false} FieldsOfBlank(s: string)
    ensures Blank(s) <==> Fields(s) == []
  {
    if s != "" {
      FieldsOfBlank(s[1..]);
      assert Blank(s) <==> IsSpace(s[0]) && Blank(s[1..]);
    }
  }

  /** Reading a word between separators. */
  lemma {:induction false} FieldsAround(a: string, w: string, b: string)
    requires Solid(w) && (a == "" || IsSpace(a[|a| - 1])) && (b == "" || IsSpace(b[0]))
    ensures Fields(a + w + b) == Fields(a) + [w] + Fields(b)
  {
    FieldsAppend(a + w, b);
    FieldsAppend(a, w);
    FieldsOfWord(w);
  }

  lemma {:induction false} FieldsAreSolid(s: string, k: nat)
    requires k < |Fields(s)|
    ensures Solid(Fields(s)[k])
    decreases |s|
  {
    if IsSpace(s[0]) {
      FieldsAreSolid(s[1..], k);
    } else if k > 0 {
      FieldsAreSolid(s[|Word(s)|..], k - 1);
    }
  }

  /** `f` stands in `s` between `a` and `b`, bounded by white space or the ends of the text. */
  predicate Stands(s: string, a: string, f: string, b: string)
  {
    && s == a + f + b && Solid(f)
    && (a == "" || IsSpace(a[|a| - 1]))
    && (b == "" || IsSpace(b[0]))
  }

  /** Where field `k` stands in the text. */
  lemma FieldPlace(s: string, k: nat) returns (a: string, f: string, b: string)
    requires k < |Fields(s)|
    ensures Stands(s, a, f, b) && f == Fields(s)[k]
    ensures |Fields(a)| == k && Fields(s) == Fields(a) + [f] + Fields(b)
  {
    a, f, b := FindPlace(s, k);
    FieldsAround(a, f, b);
  }

  lemma {:induction false} FindPlace(s: string, k: nat) returns (a: string, f: string, b: string)
    requires k < |Fields(s)|
    ensures Stands(s, a, f, b) && |Fields(a)| == k
    decreases |s|
  {
    if IsSpace(s[0]) {
      var c;
      c, f, b := FindPlace(s[1..], k);
      a := [s[0]] + c;
      PlaceAfterSpace(s, c, f, b);
    } else {
      var w, t := CutWord(s);
      if k == 0 {
        a, f, b := "", w, t;
      } else {
        var c;
        c, f, b := FindPlace(t, k - 1);
        a := w + c;
        PlaceAfterWord(w, t, c, f, b);
      }
    }
  }

  lemma PlaceAfterSpace(s: string, c: string, f: string, b: string)
    requires s != "" && IsSpace(s[0]) && Stands(s[1..], c, f, b)
    ensures Stands(s, [s[0]] + c, f, b) && Fields([s[0]] + c) == Fields(c)
  {
  }

  lemma PlaceAfterWord(w: string, t: string, c: string, f: string, b: string)
    requires Solid(w) && t != "" && IsSpace(t[0]) && Stands(t, c, f, b)
    ensures Stands(w + t, w + c, f, b) && |Fields(w + c)| == 1 + |Fields(c)|
  {
    LeadingSpace(c, f, b);
    FieldsCons(w, c);
    Shift(w, c, f, b);
  }

  lemma LeadingSpace(c: string, f: string, b: string)
    requires Solid(f) && IsSpace((c + f + b)[0])
    ensures c != "" && c[0] == (c + f + b)[0]
  {
  }

  lemma Shift(w: string, c: string, f: string, b: string)
    ensures w + (c + f + b) == (w + c) + f + b
  {
  }

  lemma {:induction false} FieldsOfTrimmed(s: string)
    ensures Fields(TrimSpace(s)) == Fields(s)
  {
    FieldsOfTrimLeft(s);
    FieldsOfTrimRight(TrimLeft(s));
  }

  lemma {:induction false} FieldsOfTrimLeft(s: string)
    ensures Fields(TrimLeft(s)) == Fields(s)
  {
    if s != "" && IsSpace(s[0]) {
      FieldsOfTrimLeft(s[1..]);
    }
  }

  lemma {:induction false} FieldsOfTrimRight(s: string)
    ensures Fields(TrimRight(s)) == Fields(s)
  {
    if s != "" && IsSpace(s[|s| - 1]) {
      var init := s[..|s| - 1];
      var last := s[|s| - 1..];
      FieldsOfTrimRight(init);
      assert s == init + last && last[0] == s[|s| - 1] && last[1..] == "";
      FieldsAppend(init, last);
      assert Fields(last) == [];
    }
  }

  /** Trimming leaves nothing exactly when the text is blank, and otherwise keeps the first word. */
  lemma {:induction false} TrimmedStart(s: string)
    ensures TrimSpace(s) == "" <==> Fields(s) == []
    ensures Fields(s) != [] ==> Fields(s)[0] != "" && TrimSpace(s) != "" && TrimSpace(s)[0] == Fields(s)[0][0]
  {
    FieldsOfTrimmed(s);
    TrimSpaceTrims(s);
    var t := TrimSpace(s);
    if t != "" {
      var w, u := CutWord(t);
    }
  }

  lemma {:induction false} TrimRightTrims(s: string)
    ensures TrimRight(s) <= s && (TrimRight(s) != "" ==> !IsSpace(TrimRight(s)[|TrimRight(s)| - 1]))
  {
    if s != "" && IsSpace(s[|s| - 1]) {
      TrimRightTrims(s[..|s| - 1]);
    }
  }

  lemma {:induction false} TrimLeftTrims(s: string)
    ensures TrimLeft(s) != "" ==> !IsSpace(TrimLeft(s)[0])
  {
    if s != "" && IsSpace(s[0]) {
      TrimLeftTrims(s[1..]);
    }
  }

  lemma TrimSpaceTrims(s: string)
    ensures Trimmed(TrimSpace(s))
  {
    TrimLeftTrims(s);
    TrimRightTrims(TrimLeft(s));
  }

  // ------------------------------------------------------------ occurrences and replacement

  predicate OccursAt(s: string, p: string, i: nat)
  {
    i + |p| <= |s| && s[i..i + |p|] == p
  }

  predicate Occurs(s: string, p: string)
  {
    exists i :: 0 <= i <= |s| && OccursAt(s, p, i)
  }

  /** First occurrence, or -1. */
  function IndexOfText(s: string, p: string): (n: int)
    ensures n >= 0 ==> OccursAt(s, p, n) && forall i :: 0 <= i < n ==> !OccursAt(s, p, i)
    ensures -1 <= n <= |s| && (n == -1 ==> !Occurs(s, p))
  {
    FirstFrom(s, p, 0)
  }

  function FirstFrom(s: string, p: string, i: nat): (n: int)
    requires i <= |s| && forall k :: 0 <= k < i ==> !OccursAt(s, p, k)
    ensures n >= 0 ==> OccursAt(s, p, n) && forall k :: 0 <= k < n ==> !OccursAt(s, p, k)
    ensures -1 <= n <= |s| && (n == -1 ==> !Occurs(s, p))
    decreases |s| - i
  {
    if OccursAt(s, p, i) then i else if i == |s| then -1 else FirstFrom(s, p, i + 1)
  }

  function ReplaceFirst(s: string, p: string, q: string): string
  {
    var n := IndexOfText(s, p);
    if n < 0 then s else s[..n] + q + s[n + |p|..]
  }

  /** Replacing where the first occurrence is known to start. */
  lemma ReplaceFirstAfter(a: string, p: string, b: string, q: string)
    requires forall i :: 0 <= i < |a| ==> !OccursAt(a + p + b, p, i)
    ensures ReplaceFirst(a + p + b, p, q) == a + q + b
  {
    var s := a + p + b;
    assert s[|a|..|a| + |p|] == p && s[..|a|] == a && s[|a| + |p|..] == b;
    assert OccursAt(s, p, |a|);
    assert IndexOfText(s, p) == |a|;
  }

  /** An occurrence of a solid text lies within one field, at this offset. */
  lemma {:induction false} OccursInField(s: string, p: string, i: nat)
    returns (a: string, f: string, b: string, n: nat)
    requires Solid(p) && OccursAt(s, p, i)
    ensures Stands(s, a, f, b) && i == |a| + n && OccursAt(f, p, n)
    decreases |s|, 1
  {
    if IsSpace(s[0]) {
      OccursLater(s, s[..1], s[1..], p, i);
      var c;
      c, f, b, n := OccursInField(s[1..], p, i - 1);
      a := [s[0]] + c;
      PlaceAfterSpace(s, c, f, b);
    } else {
      a, f, b, n := OccursFromWord(s, p, i);
    }
  }

  lemma {:induction false} OccursFromWord(s: string, p: string, i: nat)
    returns (a: string, f: string, b: string, n: nat)
    requires Solid(p) && OccursAt(s, p, i) && !IsSpace(s[0])
    ensures Stands(s, a, f, b) && i == |a| + n && OccursAt(f, p, n)
    decreases |s|, 0
  {
    var w, t := CutWord(s);
    if i < |w| {
      OccursInWord(s, w, t, p, i);
      a, f, b, n := "", w, t, i;
    } else {
      OccursLater(s, w, t, p, i);
      var c;
      c, f, b, n := OccursInField(t, p, i - |w|);
      a := w + c;
      PlaceAfterWord(w, t, c, f, b);
    }
  }

  /** An occurrence that starts in a word ends in it. */
  lemma OccursInWord(s: string, w: string, t: string, p: string, i: nat)
    requires s == w + t && Solid(p) && i < |w| && OccursAt(s, p, i) && (t == "" || IsSpace(t[0]))
    ensures OccursAt(w, p, i)
  {
    CharacterOf(s, p, i, |w|);
    assert i + |p| <= |w|;
    assert w[i..i + |p|] == s[i..i + |p|];
  }

  lemma OccursLater(s: string, w: string, t: string, p: string, i: nat)
    requires s == w + t && Solid(p) && OccursAt(s, p, i)
    requires i >= |w| || (|w| == 1 && IsSpace(w[0]))
    ensures i >= |w| && OccursAt(t, p, i - |w|) && t != ""
  {
    assert s[i] == s[i..i + |p|][0];
    assert t[i - |w|..i - |w| + |p|] == s[i..i + |p|];
  }

  lemma OccursInSomeField(s: string, p: string, i: nat)
    requires Solid(p) && OccursAt(s, p, i)
    ensures exists j :: 0 <= j < |Fields(s)| && Occurs(Fields(s)[j], p)
  {
    var a, f, b, n := OccursInField(s, p, i);
    FieldsAround(a, f, b);
    assert Fields(s)[|Fields(a)|] == f;
  }

  /** A solid text does not start before white space and end after it. */
  lemma NoStraddle(a: string, rest: string, p: string, i: nat)
    requires Solid(p) && a != "" && IsSpace(a[|a| - 1]) && i < |a| < i + |p|
    ensures !OccursAt(a + rest, p, i)
  {
    assert !IsSpace(p[|a| - 1 - i]) && (a + rest)[|a| - 1] == a[|a| - 1];
    CharacterOf(a + rest, p, i, |a| - 1);
  }

  lemma CharacterOf(s: string, p: string, i: nat, j: nat)
    ensures OccursAt(s, p, i) && i <= j < i + |p| ==> s[j] == p[j - i]
  {
  }

  lemma OccursWithin(s: string, a: string, f: string, b: string, p: string, i: nat)
    requires s == a + f + b && OccursAt(f, p, i)
    ensures OccursAt(s, p, |a| + i)
  {
  }
}
