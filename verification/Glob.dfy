/** Exclude patterns: glob text, the regular expression it is compiled to, and what both accept.

The compiler (`GlobToRegex`) works on text and produces text. The text is then parsed and
matched by a separate engine, modelled here by `ParseRegex` and `MatchString` for the part of
the RE2 syntax the compiler can emit. The glob language itself is defined independently of
both, by cutting the candidate into one piece per glob element.
*/
module Glob {
  import opened Optional
  import opened Sequences

  // ---------------------------------------------------------------- glob language

  /** An inclusive character range; a single character is a range of one. */
  datatype Span = Span(lo: char, hi: char)

  datatype Elem =
    | AnyPath                                      // **
    | AnyName                                      // *
    | AnyChar                                      // ?
    | Class(negated: bool, spans: seq<Span>)       // [..], [!..], [^..]
    | Literal(c: char)

  predicate InSpans(c: char, spans: seq<Span>)
  {
    exists i :: 0 <= i < |spans| && spans[i].lo <= c <= spans[i].hi
  }

  /** Position of the first `c` in `s`, or |s| when there is none. */
  function IndexOf(s: string, c: char): (n: nat)
    ensures n <= |s| && c !in s[..n] && (n < |s| ==> s[n] == c)
  {
    if s == "" || s[0] == c then 0
    else
      var n := 1 + IndexOf(s[1..], c);
      assert s[..n] == [s[0]] + s[1..][..n - 1];
      n
  }

  /** How many characters of negation mark a class starts with (text after the bracket). */
  function MarkLength(t: string): (n: nat)
    ensures n <= |t| && n <= 1
  {
    if t != "" && (t[0] == '!' || t[0] == '^') then 1 else 0
  }

  /** The spans a class body denotes; None for a reversed range or a POSIX class opener. */
  function BodySpans(body: string): Option<seq<Span>>
  {
    if body == "" then Some([])
    else if |body| >= 2 && body[0] == '[' && body[1] == ':' then None
    else if |body| >= 3 && body[1] == '-' then
      match BodySpans(body[3..])
      case Some(rest) => if body[0] <= body[2] then Some([Span(body[0], body[2])] + rest) else None
      case None => None
    else
      match BodySpans(body[1..])
      case Some(rest) => Some([Span(body[0], body[0])] + rest)
      case None => None
  }

  /** The elements of a well-formed glob; None when a class is unclosed, empty or not plain. */
  function ParseGlob(p: string): Option<seq<Elem>>
  {
    if p == "" then Some([])
    else if p[0] == '*' then
      if |p| >= 2 && p[1] == '*' then Prepend(AnyPath, ParseGlob(p[2..]))
      else Prepend(AnyName, ParseGlob(p[1..]))
    else if p[0] == '?' then Prepend(AnyChar, ParseGlob(p[1..]))
    else if p[0] == '[' then
      var start := 1 + MarkLength(p[1..]);
      var close := start + IndexOf(p[start..], ']');
      if close == |p| || close == start then None
      else
        match BodySpans(p[start..close])
        case Some(spans) => Prepend(Class(start == 2, spans), ParseGlob(p[close + 1..]))
        case None => None
    else Prepend(Literal(p[0]), ParseGlob(p[1..]))
  }

  // ---- the elements as they are written

  lemma {:induction false} StarsAsWritten(q: string)
    ensures ParseGlob(['*', '*'] + q) == Prepend(AnyPath, ParseGlob(q))
    ensures q == "" || q[0] != '*' ==> ParseGlob(['*'] + q) == Prepend(AnyName, ParseGlob(q))
    ensures ParseGlob(['?'] + q) == Prepend(AnyChar, ParseGlob(q))
  {
    assert (['*', '*'] + q)[2..] == q && (['*'] + q)[1..] == q && (['?'] + q)[1..] == q;
  }

  lemma {:induction false} LiteralAsWritten(c: char, q: string)
    requires c != '*' && c != '?' && c != '['
    ensures ParseGlob([c] + q) == Prepend(Literal(c), ParseGlob(q))
  {
    assert ([c] + q)[1..] == q;
  }

  lemma MiddlePart(a: string, b: string, c: string)
    ensures var s := a + (b + c);
            s[|a|..] == b + c && s[|a|..|a| + |b|] == b && s[|a| + |b|..] == c
  {
  }

  lemma MarkAsWritten(mark: string, body: string, rest: string)
    requires body != "" && (mark == ['!'] || mark == ['^'] || (mark == [] && body[0] != '!' && body[0] != '^'))
    ensures MarkLength((['['] + mark + (body + rest))[1..]) == |mark|
  {
    var t := (['['] + mark + (body + rest))[1..];
    assert t[0] == if mark == [] then body[0] else mark[0];
  }

  lemma {:induction false} ClassUnfolds(p: string, start: nat, close: nat, body: string, q: string)
    requires p != "" && p[0] == '[' && start == 1 + MarkLength(p[1..]) && start < close < |p|
    requires close == start + IndexOf(p[start..], ']') && p[start..close] == body && p[close + 1..] == q
    requires BodySpans(body).Some?
    ensures ParseGlob(p) == Prepend(Class(start == 2, BodySpans(body).value), ParseGlob(q))
  {
  }

  lemma ClassEnds(body: string, q: string)
    requires ']' !in body
    ensures IndexOf(body + ([']'] + q), ']') == |body|
  {
    var t := body + ([']'] + q);
    assert t[..|body|] == body && t[|body|] == ']';
    IndexOfIs(t, ']', |body|);
  }

  lemma AfterBracket(head: string, body: string, q: string)
    ensures (head + (body + ([']'] + q)))[|head| + |body| + 1..] == q
  {
  }

  /** Both marks negate a class, and only in front of its body. */
  lemma {:induction false} ClassAsWritten(mark: string, body: string, q: string)
    requires body != "" && ']' !in body && BodySpans(body).Some?
    requires mark == ['!'] || mark == ['^'] || (mark == [] && body[0] != '!' && body[0] != '^')
    ensures ParseGlob(['['] + mark + (body + ([']'] + q)))
         == Prepend(Class(mark != [], BodySpans(body).value), ParseGlob(q))
  {
    var head, rest := ['['] + mark, [']'] + q;
    var p := head + (body + rest);
    MiddlePart(head, body, rest);
    MarkAsWritten(mark, body, rest);
    ClassEnds(body, q);
    AfterBracket(head, body, q);
    ClassUnfolds(p, |head|, |head| + |body|, body, q);
  }

  function Prepend<T>(x: T, rest: Option<seq<T>>): Option<seq<T>>
  {
    match rest
    case Some(xs) => Some([x] + xs)
    case None => None
  }

  /** The strings one element stands for. `lines` says whether `**` may cross a line break. */
  predicate Denotes(e: Elem, piece: string, lines: bool)
  {
    match e
    case AnyPath => lines || '\n' !in piece
    case AnyName => '/' !in piece
    case AnyChar => |piece| == 1 && piece[0] != '/'
    case Class(negated, spans) => |piece| == 1 && (InSpans(piece[0], spans) != negated)
    case Literal(c) => piece == [c]
  }

  function Flatten(pieces: seq<string>): string
  {
    if pieces == [] then "" else pieces[0] + Flatten(pieces[1..])
  }

  ghost predicate Cuts(es: seq<Elem>, pieces: seq<string>, s: string, lines: bool)
  {
    && |pieces| == |es|
    && Flatten(pieces) == s
    && forall i :: 0 <= i < |es| ==> Denotes(es[i], pieces[i], lines)
  }

  /** The glob accepts `s` when `s` can be cut into one piece per element. */
  ghost predicate GlobAccepts(es: seq<Elem>, s: string, lines: bool)
  {
    exists pieces :: Cuts(es, pieces, s, lines)
  }

  // ------------------------------------------------------- regular expressions (RE2 subset)

  datatype Atom = Dot | Char(c: char) | Set(negated: bool, spans: seq<Span>)
  datatype Node = Begin | End | One(a: Atom) | Star(a: Atom)

  predicate Alnum(c: char)
  {
    'a' <= c <= 'z' || 'A' <= c <= 'Z' || '0' <= c <= '9'
  }

  /** A character of a regex that stands for itself only when escaped. */
  predicate Meta(c: char)
  {
    c in "\\.+*?()|[]{}^$"
  }

  /** Reads one possibly escaped class character. */
  function ParseSetChar(t: string): (r: Option<(char, string)>)
    ensures r.Some? ==> |r.value.1| < |t|
  {
    if t == "" then None
    else if t[0] != '\\' then Some((t[0], t[1..]))
    else if |t| >= 2 && (t[1] as int) < 0x80 && !Alnum(t[1]) then Some((t[1], t[2..]))
    else None
  }

  /** Reads class spans up to and including the closing bracket. */
  function ParseSpans(t: string): (r: Option<(seq<Span>, string)>)
    ensures r.Some? ==> |r.value.1| < |t|
    decreases |t|
  {
    if t == "" then None
    else if t[0] == ']' then Some(([], t[1..]))
    else if |t| >= 2 && t[0] == '[' && t[1] == ':' then None
    else
      match ParseSetChar(t)
      case None => None
      case Some((lo, u)) =>
        if |u| >= 2 && u[0] == '-' && u[1] != ']' then
          match ParseSetChar(u[1..])
          case None => None
          case Some((hi, v)) => if hi < lo then None else WithSpan(Span(lo, hi), ParseSpans(v))
        else WithSpan(Span(lo, lo), ParseSpans(u))
  }

  function WithSpan(sp: Span, r: Option<(seq<Span>, string)>): Option<(seq<Span>, string)>
  {
    match r
    case None => None
    case Some((spans, rest)) => Some(([sp] + spans, rest))
  }

  /** Reads one atom; None for text outside the modelled syntax. */
  function ParseAtom(t: string): (r: Option<(Atom, string)>)
    requires t != ""
    ensures r.Some? ==> |r.value.1| < |t|
  {
    if t[0] == '.' then Some((Dot, t[1..]))
    else if t[0] == '[' then
      var n := if |t| >= 2 && t[1] == '^' then 2 else 1;
      if |t| == n || t[n] == ']' then None
      else
        match ParseSpans(t[n..])
        case None => None
        case Some((spans, rest)) => Some((Set(n == 2, spans), rest))
    else if t[0] == '\\' then
      if |t| >= 2 && (t[1] as int) < 0x80 && !Alnum(t[1]) then Some((Char(t[1]), t[2..])) else None
    else if Meta(t[0]) then None
    else Some((Char(t[0]), t[1..]))
  }

  /** Parses a whole expression; None stands for a compile error. */
  function ParseRegex(t: string): Option<seq<Node>>
    decreases |t|
  {
    if t == "" then Some([])
    else if t[0] == '^' then Prepend(Begin, ParseRegex(t[1..]))
    else if t[0] == '$' then Prepend(End, ParseRegex(t[1..]))
    else
      match ParseAtom(t)
      case None => None
      case Some((a, u)) =>
        if u != "" && u[0] == '*' then Prepend(Star(a), ParseRegex(u[1..]))
        else Prepend(One(a), ParseRegex(u))
  }

  predicate AtomMatches(a: Atom, c: char)
  {
    match a
    case Dot => c != '\n'
    case Char(d) => c == d
    case Set(negated, spans) => InSpans(c, spans) != negated
  }

  /** Whether the nodes match some prefix of s[i..]. */
  predicate MatchesFrom(nodes: seq<Node>, s: string, i: nat)
    requires i <= |s|
    decreases |nodes|
  {
    if nodes == [] then true
    else
      match nodes[0]
      case Begin => i == 0 && MatchesFrom(nodes[1..], s, i)
      case End => i == |s| && MatchesFrom(nodes[1..], s, i)
      case One(a) => i < |s| && AtomMatches(a, s[i]) && MatchesFrom(nodes[1..], s, i + 1)
      case Star(a) =>
        exists j :: i <= j <= |s| && (forall k :: i <= k < j ==> AtomMatches(a, s[k]))
          && MatchesFrom(nodes[1..], s, j)
  }

  /** Unanchored search, as in the standard library's MatchString. */
  predicate MatchString(nodes: seq<Node>, s: string)
  {
    exists i :: 0 <= i <= |s| && MatchesFrom(nodes, s, i)
  }

  // ---------------------------------------------------------------- the compiler

  function EscapeClassChar(c: char): string
  {
    if c == '\\' then "\\\\" else [c]
  }

  function EscapeBody(body: string): string
  {
    if body == "" then "" else EscapeClassChar(body[0]) + EscapeBody(body[1..])
  }

  function QuoteMeta(c: char): string
  {
    if Meta(c) then ['\\', c] else [c]
  }

  function Opener(negated: bool): string
  {
    if negated then "[^" else "["
  }

  /** What one round of the compiler emits for the front of `p`, and how much of `p` it consumes.
      An unclosed class emits its opening bracket twice and consumes only that bracket. */
  function Chunk(p: string): (r: (string, nat))
    requires p != ""
    ensures 1 <= r.1 <= |p|
  {
    if p[0] == '*' then
      if |p| >= 2 && p[1] == '*' then (".*", 2) else ("[^/]*", 1)
    else if p[0] == '?' then ("[^/]", 1)
    else if p[0] == '[' then
      var start := 1 + MarkLength(p[1..]);
      var close := start + IndexOf(p[start..], ']');
      var head := Opener(start == 2) + EscapeBody(p[start..close]);
      if close == |p| then (head + "\\[", 1) else (head + "]", close + 1)
    else (QuoteMeta(p[0]), 1)
  }

  /** The text emitted between the anchors, for any pattern, well formed or not. */
  function RegexText(p: string): string
  {
    if p == "" then "" else Chunk(p).0 + RegexText(p[Chunk(p).1..])
  }

  lemma {:induction false} EscapeBodyAppend(body: string, c: char)
    ensures EscapeBody(body + [c]) == EscapeBody(body) + EscapeClassChar(c)
  {
    if body == "" {
      assert body + [c] == [c];
      assert [c][1..] == "";
    } else {
      assert (body + [c])[1..] == body[1..] + [c];
      EscapeBodyAppend(body[1..], c);
    }
  }

  lemma IndexOfIs(s: string, c: char, n: nat)
    requires n <= |s| && c !in s[..n] && (n < |s| ==> s[n] == c)
    ensures IndexOf(s, c) == n
  {
  }

  /** Copies a class body from `start` up to its closing bracket or the end of the pattern. */
  method CopyBody(p: string, start: nat) returns (body: string, close: nat)
    requires start <= |p|
    ensures close == start + IndexOf(p[start..], ']')
    ensures body == EscapeBody(p[start..close])
  {
    body, close := "", start;
    while close < |p| && p[close] != ']'
      invariant start <= close <= |p|
      invariant ']' !in p[start..close]
      invariant body == EscapeBody(p[start..close])
    {
      assert p[start..close + 1] == p[start..close] + [p[close]];
      EscapeBodyAppend(p[start..close], p[close]);
      if p[close] == '\\' {
        body := body + "\\\\";
      } else {
        body := body + [p[close]];
      }
      close := close + 1;
    }
    assert p[start..][..close - start] == p[start..close];
    IndexOfIs(p[start..], ']', close - start);
  }

  /** The class branch of the compiler: emits the class opened at `i`. */
  method WriteClass(p: string, i: nat) returns (chunk: string, next: nat)
    requires i < |p| && p[i] == '['
    ensures i < next <= |p|
    ensures (chunk, next - i) == Chunk(p[i..])
  {
    chunk := "[";
    var j := i + 1;
    if j < |p| && (p[j] == '!' || p[j] == '^') {
      chunk := chunk + "^";
      j := j + 1;
    }
    ghost var mark, start := chunk, j - i;
    assert start == 1 + MarkLength(p[i..][1..]) && mark == Opener(start == 2);
    var body, close := CopyBody(p, j);
    ClassChunk(p, i, start, close);
    chunk := chunk + body;
    if close >= |p| {
      chunk, next := chunk + "\\[", i + 1;
    } else {
      chunk, next := chunk + "]", close + 1;
    }
  }

  lemma ClassChunk(p: string, i: nat, start: nat, close: nat)
    requires i < |p| && p[i] == '[' && start == 1 + MarkLength(p[i..][1..]) && i + start <= |p|
    requires close == i + start + IndexOf(p[i + start..], ']')
    ensures var head := Opener(start == 2) + EscapeBody(p[i + start..close]);
            Chunk(p[i..]) == if close == |p| then (head + "\\[", 1) else (head + "]", close + 1 - i)
  {
    DropTwice(p, i, start);
    SliceTwice(p, i, start, close - i);
  }

  lemma DropTwice(p: string, i: nat, n: nat)
    requires i + n <= |p|
    ensures p[i..][n..] == p[i + n..]
  {
  }

  lemma SliceTwice(p: string, i: nat, a: nat, b: nat)
    requires a <= b && i + b <= |p|
    ensures p[i..][a..b] == p[i + a..i + b]
  {
  }

  method GlobToRegex(p: string) returns (text: string)
    ensures text == "^" + RegexText(p) + "$"
  {
    var builder := "^";
    var i := 0;
    while i < |p|
      invariant 0 <= i <= |p|
      invariant builder + RegexText(p[i..]) == "^" + RegexText(p)
    {
      ghost var i0, builder0 := i, builder;
      if p[i] == '*' {
        if i + 1 < |p| && p[i + 1] == '*' {
          builder := builder + ".*";
          i := i + 1;
        } else {
          builder := builder + "[^/]*";
        }
        i := i + 1;
      } else if p[i] == '?' {
        builder := builder + "[^/]";
        i := i + 1;
      } else if p[i] == '[' {
        var chunk, next := WriteClass(p, i);
        builder := builder + chunk;
        i := next;
      } else if p[i] == '\\' {
        builder := builder + "\\\\";
        i := i + 1;
      } else {
        builder := builder + QuoteMeta(p[i]);
        i := i + 1;
      }
      Advance(p, i0, i, builder0, builder);
    }
    text := builder + "$";
  }

  lemma {:induction false} RegexUnfolds(q: string, rest: string)
    requires q != "" && rest == q[Chunk(q).1..]
    ensures RegexText(q) == Chunk(q).0 + RegexText(rest)
  {
  }

  lemma {:induction false} Advance(p: string, i: nat, i': nat, b: string, b': string)
    requires i < |p| && i' == i + Chunk(p[i..]).1 && b' == b + Chunk(p[i..]).0
    ensures b' + RegexText(p[i'..]) == b + RegexText(p[i..])
  {
    var q, rest := p[i..], p[i'..];
    DropTwice(p, i, i' - i);
    RegexUnfolds(q, rest);
    Associative(b, Chunk(q).0, RegexText(rest));
  }

  // ------------------------------------------------- the emitted text parses as intended

  const NAME_ATOM := Set(true, [Span('/', '/')])

  function NodeOf(e: Elem): Node
  {
    match e
    case AnyPath => Star(Dot)
    case AnyName => Star(NAME_ATOM)
    case AnyChar => One(NAME_ATOM)
    case Class(negated, spans) => One(Set(negated, spans))
    case Literal(c) => One(Char(c))
  }

  function NodesOf(es: seq<Elem>): (nodes: seq<Node>)
    ensures |nodes| == |es|
  {
    if es == [] then [] else [NodeOf(es[0])] + NodesOf(es[1..])
  }

  lemma SetCharParses(c: char, t: string)
    ensures ParseSetChar(EscapeClassChar(c) + t) == Some((c, t))
  {
  }

  /** The escaped body, closed by its bracket and followed by `rest`. */
  function Closed(body: string, rest: string): string
  {
    EscapeBody(body) + ("]" + rest)
  }

  lemma ClosedUnfolds(body: string, rest: string)
    requires body != ""
    ensures Closed(body, rest) == EscapeClassChar(body[0]) + Closed(body[1..], rest)
  {
  }

  /** One unfolding of the span parser on a range. */
  lemma {:induction false} RangeUnfolds(t: string, lo: char, u: string, hi: char, w: string)
    requires t != "" && t[0] != ']' && !(|t| >= 2 && t[0] == '[' && t[1] == ':')
    requires ParseSetChar(t) == Some((lo, u)) && |u| >= 2 && u[0] == '-' && u[1] != ']'
    requires ParseSetChar(u[1..]) == Some((hi, w)) && lo <= hi
    ensures ParseSpans(t) == WithSpan(Span(lo, hi), ParseSpans(w))
  {
  }

  lemma {:induction false} RangeParses(body: string, rest: string)
    requires BodySpans(body).Some? && ']' !in body && |body| >= 3 && body[1] == '-'
    requires BodySpans(body[3..]).Some?
    requires ParseSpans(Closed(body[3..], rest)) == Some((BodySpans(body[3..]).value, rest))
    ensures ParseSpans(Closed(body, rest)) == Some((BodySpans(body).value, rest))
  {
    var t, u, w := RangeText(body, rest);
    assert body[0] <= body[2];
    RangeUnfolds(t, body[0], u, body[2], w);
  }

  /** The text of a body that starts with a range, cut where the span parser cuts it. */
  lemma {:induction false} RangeText(body: string, rest: string) returns (t: string, u: string, w: string)
    requires ']' !in body && |body| >= 3 && body[1] == '-'
    ensures t == Closed(body, rest) && u == Closed(body[1..], rest) && w == Closed(body[3..], rest)
    ensures t != "" && t[0] != ']' && !(|t| >= 2 && t[0] == '[' && t[1] == ':')
    ensures ParseSetChar(t) == Some((body[0], u)) && |u| >= 2 && u[0] == '-' && u[1] != ']'
    ensures ParseSetChar(u[1..]) == Some((body[2], w))
  {
    var v := Closed(body[2..], rest);
    t, u, w := Closed(body, rest), Closed(body[1..], rest), Closed(body[3..], rest);
    assert body[1..][1..] == body[2..] && body[2..][1..] == body[3..];
    ClosedUnfolds(body, rest);
    ClosedUnfolds(body[1..], rest);
    ClosedUnfolds(body[2..], rest);
    SetCharParses(body[0], u);
    SetCharParses(body[2], w);
    assert u == "-" + v && u[1..] == v;
  }

  lemma {:induction false} BodyParses(body: string, rest: string)
    requires BodySpans(body).Some? && ']' !in body
    ensures ParseSpans(Closed(body, rest)) == Some((BodySpans(body).value, rest))
    decreases |body|
  {
    var t := Closed(body, rest);
    if body == "" {
      assert t == "]" + rest && t[1..] == rest;
    } else if |body| >= 3 && body[1] == '-' {
      BodyParses(body[3..], rest);
      RangeParses(body, rest);
    } else {
      var u := Closed(body[1..], rest);
      ClosedUnfolds(body, rest);
      SetCharParses(body[0], u);
      if |body| >= 2 {
        ClosedUnfolds(body[1..], rest);
      }
      BodyParses(body[1..], rest);
    }
  }

  /** The class parser skips the opener and reads the spans after it. */
  lemma OpenerParses(negated: bool, u: string)
    requires u != "" && u[0] != ']' && (negated || u[0] != '^')
    ensures ParseAtom(Opener(negated) + u)
         == match ParseSpans(u) case None => None case Some((spans, rest)) => Some((Set(negated, spans), rest))
  {
  }

  lemma ClassAtomParses(negated: bool, body: string, rest: string)
    requires BodySpans(body).Some? && ']' !in body && body != ""
    requires negated || body[0] != '^'
    ensures ParseAtom(Opener(negated) + Closed(body, rest)) == Some((Set(negated, BodySpans(body).value), rest))
  {
    ClosedUnfolds(body, rest);
    OpenerParses(negated, Closed(body, rest));
    BodyParses(body, rest);
  }

  lemma NameAtomParses(rest: string)
    ensures ParseAtom("[^/]" + rest) == Some((NAME_ATOM, rest))
  {
    assert "/"[1..] == "" && BodySpans("") == Some([]);
    assert [Span('/', '/')] + [] == [Span('/', '/')];
    assert BodySpans("/") == Some([Span('/', '/')]);
    ClassAtomParses(true, "/", rest);
    assert EscapeBody("/") == "/" + EscapeBody("") == "/";
    assert Opener(true) + Closed("/", rest) == "[^/]" + rest;
  }

  /** The text after a chunk: the rest of the pattern and the end anchor. */
  function Tail(p: string): string
  {
    RegexText(p) + "$"
  }

  lemma TailUnfolds(p: string)
    requires p != ""
    ensures Tail(p) == Chunk(p).0 + Tail(p[Chunk(p).1..])
  {
  }

  lemma TailNotStar(p: string)
    ensures Tail(p) != "" && Tail(p)[0] != '*'
  {
  }

  lemma PathChunkParses(q: string)
    ensures ParseRegex(".*" + Tail(q)) == Prepend(Star(Dot), ParseRegex(Tail(q)))
  {
  }

  lemma NameChunkParses(q: string)
    ensures ParseRegex("[^/]*" + Tail(q)) == Prepend(Star(NAME_ATOM), ParseRegex(Tail(q)))
  {
    var u := "*" + Tail(q);
    NameAtomParses(u);
    assert "[^/]" + u == "[^/]*" + Tail(q) && u[1..] == Tail(q);
  }

  lemma CharChunkParses(q: string)
    ensures ParseRegex("[^/]" + Tail(q)) == Prepend(One(NAME_ATOM), ParseRegex(Tail(q)))
  {
    NameAtomParses(Tail(q));
    TailNotStar(q);
  }

  lemma LiteralChunkParses(c: char, q: string)
    ensures ParseRegex(QuoteMeta(c) + Tail(q)) == Prepend(One(Char(c)), ParseRegex(Tail(q)))
  {
  }

  lemma ClassChunkParses(p: string, start: nat, close: nat)
    requires p != "" && p[0] == '[' && start == 1 + MarkLength(p[1..])
    requires start < close < |p| && close == start + IndexOf(p[start..], ']')
    requires BodySpans(p[start..close]).Some?
    ensures ParseRegex(Tail(p))
         == Prepend(One(Set(start == 2, BodySpans(p[start..close]).value)), ParseRegex(Tail(p[close + 1..])))
  {
    var body, rest := p[start..close], Tail(p[close + 1..]);
    assert body == p[start..][..close - start];
    assert start == 1 ==> body[0] == p[1..][0];
    var t := ClassTail(p, start, close);
    ClassAtomParses(start == 2, body, rest);
    TailNotStar(p[close + 1..]);
    assert t[0] == Opener(start == 2)[0] == '[';
  }

  lemma {:induction false} ChunkOfClass(p: string, start: nat, close: nat)
    requires p != "" && p[0] == '[' && start == 1 + MarkLength(p[1..])
    requires start <= close < |p| && close == start + IndexOf(p[start..], ']')
    ensures Chunk(p) == ((Opener(start == 2) + EscapeBody(p[start..close])) + "]", close + 1)
  {
  }

  lemma {:induction false} GlobOfClass(p: string, start: nat, close: nat)
    requires p != "" && p[0] == '[' && start == 1 + MarkLength(p[1..])
    requires start <= close <= |p| && close == start + IndexOf(p[start..], ']')
    ensures ParseGlob(p).Some? ==>
              && start < close < |p| && BodySpans(p[start..close]).Some?
              && ParseGlob(p) == Prepend(Class(start == 2, BodySpans(p[start..close]).value), ParseGlob(p[close + 1..]))
  {
  }

  /** The text from an opening class on, split as the class parser reads it. */
  lemma {:induction false} ClassTail(p: string, start: nat, close: nat) returns (t: string)
    requires p != "" && p[0] == '[' && start == 1 + MarkLength(p[1..])
    requires start <= close < |p| && close == start + IndexOf(p[start..], ']')
    ensures t == Tail(p) == Opener(start == 2) + Closed(p[start..close], Tail(p[close + 1..]))
  {
    t := Tail(p);
    TailUnfolds(p);
    ChunkOfClass(p, start, close);
    Regrouped(Opener(start == 2), EscapeBody(p[start..close]), "]", Tail(p[close + 1..]));
  }

  /** One round of the compiler emits exactly one node for exactly one element. */
  ghost predicate OneNode(p: string, q: string)
  {
    && ParseGlob(p).Some? && ParseGlob(p).value != []
    && ParseGlob(p) == Prepend(ParseGlob(p).value[0], ParseGlob(q))
    && ParseRegex(Tail(p)) == Prepend(NodeOf(ParseGlob(p).value[0]), ParseRegex(Tail(q)))
  }

  /** Enough that the element parsed and the chunk emitted belong together. */
  lemma OneNodeFrom(p: string, q: string, e: Elem)
    requires ParseGlob(p).Some? && ParseGlob(p) == Prepend(e, ParseGlob(q))
    requires ParseRegex(Tail(p)) == Prepend(NodeOf(e), ParseRegex(Tail(q)))
    ensures OneNode(p, q)
  {
  }

  lemma {:induction false} StarParses(p: string)
    requires p != "" && p[0] == '*' && ParseGlob(p).Some?
    ensures OneNode(p, p[Chunk(p).1..])
  {
    var q := p[Chunk(p).1..];
    TailUnfolds(p);
    if |p| >= 2 && p[1] == '*' {
      PathChunkParses(q);
      OneNodeFrom(p, q, AnyPath);
    } else {
      NameChunkParses(q);
      OneNodeFrom(p, q, AnyName);
    }
  }

  lemma {:induction false} CharParses(p: string)
    requires p != "" && p[0] == '?' && ParseGlob(p).Some?
    ensures OneNode(p, p[Chunk(p).1..])
  {
    TailUnfolds(p);
    CharChunkParses(p[1..]);
    OneNodeFrom(p, p[1..], AnyChar);
  }

  lemma {:induction false} LiteralParses(p: string)
    requires p != "" && p[0] != '*' && p[0] != '?' && p[0] != '[' && ParseGlob(p).Some?
    ensures OneNode(p, p[Chunk(p).1..])
  {
    TailUnfolds(p);
    LiteralChunkParses(p[0], p[1..]);
    OneNodeFrom(p, p[1..], Literal(p[0]));
  }

  lemma {:induction false} ClassOneNode(p: string, q: string, negated: bool, spans: seq<Span>)
    requires ParseGlob(p).Some? && ParseGlob(p) == Prepend(Class(negated, spans), ParseGlob(q))
    requires ParseRegex(Tail(p)) == Prepend(One(Set(negated, spans)), ParseRegex(Tail(q)))
    ensures OneNode(p, q)
  {
    OneNodeFrom(p, q, Class(negated, spans));
  }

  lemma {:induction false} ClassParses(p: string)
    requires p != "" && p[0] == '[' && ParseGlob(p).Some?
    ensures OneNode(p, p[Chunk(p).1..])
  {
    var start := 1 + MarkLength(p[1..]);
    var close := start + IndexOf(p[start..], ']');
    GlobOfClass(p, start, close);
    ChunkOfClass(p, start, close);
    ClassChunkParses(p, start, close);
    ClassOneNode(p, p[close + 1..], start == 2, BodySpans(p[start..close]).value);
  }

  lemma {:induction false} ChunkParses(p: string, q: string)
    requires p != "" && ParseGlob(p).Some? && q == p[Chunk(p).1..]
    ensures OneNode(p, q)
  {
    match p[0]
    case '*' => StarParses(p);
    case '?' => CharParses(p);
    case '[' => ClassParses(p);
    case _ => LiteralParses(p);
  }

  /** For every well-formed glob, the emitted text is a valid expression with one node per element. */
  lemma {:induction false} EmittedTextParses(p: string)
    requires ParseGlob(p).Some?
    ensures ParseRegex(Tail(p)) == Some(NodesOf(ParseGlob(p).value) + [End])
    decreases |p|
  {
    if p == "" {
      assert Tail(p) == "$" && "$"[1..] == "" && ParseRegex("") == Some([]);
      assert [End] + [] == NodesOf([]) + [End];
    } else {
      var q := p[Chunk(p).1..];
      ChunkParses(p, q);
      EmittedTextParses(q);
      var es := ParseGlob(p).value;
      assert es[1..] == ParseGlob(q).value;
      assert NodesOf(es) + [End] == [NodeOf(es[0])] + (NodesOf(es[1..]) + [End]);
    }
  }

  // ------------------------------------------------- and it means what the glob means

  lemma FlattenUnfolds(piece: string, pieces: seq<string>)
    ensures Flatten([piece] + pieces) == piece + Flatten(pieces)
  {
  }

  /** A match of the nodes from `i` yields a cut of the remaining text. */
  lemma {:induction false} MatchGivesCut(es: seq<Elem>, s: string, i: nat)
    requires i <= |s| && MatchesFrom(NodesOf(es) + [End], s, i)
    ensures GlobAccepts(es, s[i..], false)
    decreases |es|
  {
    var nodes := NodesOf(es) + [End];
    if es == [] {
      assert Cuts(es, [], s[i..], false);
    } else {
      assert nodes[1..] == NodesOf(es[1..]) + [End];
      var j: nat;
      match nodes[0] {
        case One(a) => j := i + 1;
        case Star(a) =>
          j :| i <= j <= |s| && (forall k :: i <= k < j ==> AtomMatches(a, s[k])) && MatchesFrom(nodes[1..], s, j);
      }
      var piece := s[i..j];
      PieceDenotes(es[0], s, i, j);
      MatchGivesCut(es[1..], s, j);
      var pieces :| Cuts(es[1..], pieces, s[j..], false);
      FlattenUnfolds(piece, pieces);
      assert piece + s[j..] == s[i..];
      assert Cuts(es, [piece] + pieces, s[i..], false);
    }
  }

  predicate Consumes(n: Node, s: string, i: nat, j: nat)
  {
    && i <= j <= |s|
    && match n
       case Begin => false
       case End => false
       case One(a) => j == i + 1 && AtomMatches(a, s[i])
       case Star(a) => forall k :: i <= k < j ==> AtomMatches(a, s[k])
  }

  lemma PieceDenotes(e: Elem, s: string, i: nat, j: nat)
    requires i <= j <= |s|
    ensures Consumes(NodeOf(e), s, i, j) <==> Denotes(e, s[i..j], false)
  {
    var piece := s[i..j];
    var slash := [Span('/', '/')];
    assert forall c :: InSpans(c, slash) <==> c == '/' by {
      assert slash[0] == Span('/', '/');
    }
    assert forall k :: i <= k < j ==> s[k] == piece[k - i];
    assert forall k :: 0 <= k < |piece| ==> piece[k] == s[k + i];
  }

  /** The first piece of a cut, in place. */
  lemma FirstPiece(pieces: seq<string>, s: string, i: nat)
    requires pieces != [] && i <= |s| && Flatten(pieces) == s[i..]
    ensures i + |pieces[0]| <= |s| && s[i..i + |pieces[0]|] == pieces[0]
    ensures s[i + |pieces[0]|..] == Flatten(pieces[1..])
  {
    var head, rest := pieces[0], Flatten(pieces[1..]);
    assert s[i..] == head + rest;
    assert s[i..][..|head|] == head && s[i..][|head|..] == rest;
  }

  lemma {:induction false} ConsumesThenMatches(n: Node, nodes: seq<Node>, s: string, i: nat, j: nat)
    requires Consumes(n, s, i, j) && MatchesFrom(nodes, s, j)
    ensures MatchesFrom([n] + nodes, s, i)
  {
    assert ([n] + nodes)[1..] == nodes;
  }

  /** A cut of the remaining text yields a match of the nodes from `i`. */
  lemma {:induction false} CutGivesMatch(es: seq<Elem>, pieces: seq<string>, s: string, i: nat)
    requires i <= |s| && Cuts(es, pieces, s[i..], false)
    ensures MatchesFrom(NodesOf(es) + [End], s, i)
    decreases |es|
  {
    if es == [] {
      assert |s[i..]| == 0;
      assert NodesOf(es) + [End] == [End];
    } else {
      var j := i + |pieces[0]|;
      FirstPiece(pieces, s, i);
      assert Denotes(es[0], pieces[0], false);
      PieceDenotes(es[0], s, i, j);
      CutGivesMatch(es[1..], pieces[1..], s, j);
      ConsumesThenMatches(NodeOf(es[0]), NodesOf(es[1..]) + [End], s, i, j);
      assert NodesOf(es) + [End] == [NodeOf(es[0])] + (NodesOf(es[1..]) + [End]);
    }
  }

  /** `lines` only matters for text that has a line break. */
  lemma LinesOnlyMatterAcrossBreaks(es: seq<Elem>, s: string)
    ensures GlobAccepts(es, s, false) ==> GlobAccepts(es, s, true)
    ensures '\n' !in s ==> (GlobAccepts(es, s, false) <==> GlobAccepts(es, s, true))
  {
    if GlobAccepts(es, s, false) {
      var pieces :| Cuts(es, pieces, s, false);
      assert Cuts(es, pieces, s, true);
    }
    if '\n' !in s && GlobAccepts(es, s, true) {
      var pieces :| Cuts(es, pieces, s, true);
      forall i | 0 <= i < |pieces| ensures '\n' !in pieces[i] {
        PieceWithin(pieces, i, '\n');
      }
      assert Cuts(es, pieces, s, false);
    }
  }

  lemma {:induction false} PieceWithin(pieces: seq<string>, i: nat, c: char)
    requires i < |pieces|
    ensures c in pieces[i] ==> c in Flatten(pieces)
  {
    if i > 0 {
      PieceWithin(pieces[1..], i - 1, c);
    }
  }

  /** The compiled text: what GlobToRegex returns. */
  function Compiled(p: string): string
  {
    "^" + RegexText(p) + "$"
  }

  /** The compiler preserves meaning. The text it emits for a well-formed glob is a valid
      expression; for every candidate it accepts exactly what the glob accepts when `**` stays
      within a line, hence exactly the glob's strings on newline-free candidates. */
  lemma CompilationPreservesMeaning(p: string, s: string)
    requires ParseGlob(p).Some?
    ensures ParseRegex(Compiled(p)).Some?
    ensures MatchString(ParseRegex(Compiled(p)).value, s) <==> GlobAccepts(ParseGlob(p).value, s, false)
    ensures '\n' !in s ==>
              (MatchString(ParseRegex(Compiled(p)).value, s) <==> GlobAccepts(ParseGlob(p).value, s, true))
    ensures MatchString(ParseRegex(Compiled(p)).value, s) ==> GlobAccepts(ParseGlob(p).value, s, true)
  {
    var es := ParseGlob(p).value;
    var inner := NodesOf(es) + [End];
    EmittedTextParses(p);
    assert Compiled(p) == "^" + Tail(p) && Compiled(p)[1..] == Tail(p);
    var nodes := ParseRegex(Compiled(p)).value;
    assert nodes == [Begin] + inner && nodes[1..] == inner;
    assert s[0..] == s;
    if MatchString(nodes, s) {
      MatchGivesCut(es, s, 0);
    }
    if GlobAccepts(es, s, false) {
      var pieces :| Cuts(es, pieces, s, false);
      CutGivesMatch(es, pieces, s, 0);
      assert MatchesFrom(nodes, s, 0);
    }
    LinesOnlyMatterAcrossBreaks(es, s);
  }

  /** The newline case fails: `**` denotes any string, yet the emitted text refuses a line break. */
  lemma LineBreakIsRefused()
    ensures ParseGlob("**") == Some([AnyPath])
    ensures GlobAccepts([AnyPath], "\n", true)
    ensures ParseRegex(Compiled("**")).Some? && !MatchString(ParseRegex(Compiled("**")).value, "\n")
  {
    var p, s := "**", "\n";
    assert p[2..] == "" && ParseGlob("") == Some([]);
    assert [AnyPath] + [] == [AnyPath];
    assert ParseGlob(p) == Prepend(AnyPath, ParseGlob(p[2..]));
    CompilationPreservesMeaning(p, s);
    assert Flatten([s]) == s + Flatten([s][1..]) == s;
    assert Cuts([AnyPath], [s], s, true);
    forall pieces | Cuts([AnyPath], pieces, s, false) ensures '\n' !in s {
      OnePathPiece(pieces, s);
    }
  }

  lemma OnePathPiece(pieces: seq<string>, s: string)
    requires Cuts([AnyPath], pieces, s, false)
    ensures '\n' !in s
  {
    assert s == pieces[0] + Flatten(pieces[1..]) && pieces[1..] == [];
  }

  // ---------------------------------------------------------------- using the compiler

  /** The standard library's own matcher, which is tried first; None is a pattern error. */
  type Matcher = (string, string) -> Option<bool>

  predicate HasDoubleStar(p: string)
  {
    exists i :: 0 <= i < |p| - 1 && p[i] == '*' && p[i + 1] == '*'
  }

  predicate Accepted(std: Matcher, p: string, s: string)
  {
    || std(p, s) == Some(true)
    || (HasDoubleStar(p) && ParseRegex(Compiled(p)).Some? && MatchString(ParseRegex(Compiled(p)).value, s))
  }

  /** A `**` element is written as two adjacent stars. */
  lemma {:induction false} AnyPathIsAdjacentStars(p: string)
    requires ParseGlob(p).Some? && AnyPath in ParseGlob(p).value
    ensures exists i :: 0 <= i < |p| - 1 && p[i] == '*' && p[i + 1] == '*'
    decreases |p|
  {
    if |p| >= 2 && p[0] == '*' && p[1] == '*' {
      assert p[0] == '*' && p[0 + 1] == '*';
    } else {
      var n := Chunk(p).1;
      var q := p[n..];
      FirstElement(p, q);
      AnyPathIsAdjacentStars(q);
      var i :| 0 <= i < |q| - 1 && q[i] == '*' && q[i + 1] == '*';
      assert p[n + i] == '*' && p[(n + i) + 1] == '*';
    }
  }

  lemma {:induction false} FirstElement(p: string, q: string)
    requires p != "" && ParseGlob(p).Some? && AnyPath in ParseGlob(p).value && q == p[Chunk(p).1..]
    requires !(|p| >= 2 && p[0] == '*' && p[1] == '*')
    ensures ParseGlob(q).Some? && AnyPath in ParseGlob(q).value
  {
    ChunkParses(p, q);
    var es := ParseGlob(p).value;
    assert es == [es[0]] + ParseGlob(q).value;
    assert es[0] != AnyPath;
  }

  /** A pattern with two adjacent stars anywhere is also compiled; one without is left to the standard
      matcher. */
  lemma AcceptedExactly(std: Matcher, p: string, s: string)
    ensures (exists i :: 0 <= i < |p| - 1 && p[i] == '*' && p[i + 1] == '*') && ParseGlob(p).Some? ==>
              (Accepted(std, p, s) <==> std(p, s) == Some(true) || GlobAccepts(ParseGlob(p).value, s, false))
    ensures ParseGlob(p).Some? && AnyPath in ParseGlob(p).value ==>
              (Accepted(std, p, s) <==> std(p, s) == Some(true) || GlobAccepts(ParseGlob(p).value, s, false))
    ensures (forall i :: 0 <= i < |p| - 1 ==> p[i] != '*' || p[i + 1] != '*') ==>
              (Accepted(std, p, s) <==> std(p, s) == Some(true))
  {
    if ParseGlob(p).Some? {
      CompilationPreservesMeaning(p, s);
      if AnyPath in ParseGlob(p).value {
        AnyPathIsAdjacentStars(p);
      }
    }
  }

  method MatchesGlob(std: Matcher, pattern: string, candidate: string) returns (r: bool)
    ensures r <==> Accepted(std, pattern, candidate)
  {
    if std(pattern, candidate) == Some(true) {
      return true;
    }
    if HasDoubleStar(pattern) {
      var text := GlobToRegex(pattern);
      var compiled := ParseRegex(text);
      if compiled.Some? && MatchString(compiled.value, candidate) {
        return true;
      }
    }
    return false;
  }

  /** Drops empty and repeated candidates, keeping the order of first occurrences. */
  method UniqueCandidates(candidates: seq<string>) returns (unique: seq<string>)
    ensures forall c :: c in unique <==> c in candidates && c != ""
    ensures forall i, j :: 0 <= i < j < |unique| ==> unique[i] != unique[j]
    ensures forall i, j :: 0 <= i < j < |unique| ==>
              IndexIn(candidates, unique[i]) < IndexIn(candidates, unique[j])
  {
    var seen: set<string> := {};
    unique := [];
    for n := 0 to |candidates|
      invariant seen == set c | c in unique
      invariant forall c :: c in unique <==> c in candidates[..n] && c != ""
      invariant forall i, j :: 0 <= i < j < |unique| ==> unique[i] != unique[j]
      invariant forall c :: c in unique ==> IndexIn(candidates, c) < n
      invariant forall i, j :: 0 <= i < j < |unique| ==>
                  IndexIn(candidates, unique[i]) < IndexIn(candidates, unique[j])
    {
      var c := candidates[n];
      assert candidates[..n + 1] == candidates[..n] + [c];
      if c != "" && c !in seen {
        seen := seen + {c};
        unique := unique + [c];
        assert c !in candidates[..n];
        FirstIndex(candidates, c, n);
      }
    }
    assert candidates[..|candidates|] == candidates;
  }

  /** Position of the first occurrence of `c`, or |s| when there is none. */
  function IndexIn(s: seq<string>, c: string): nat
  {
    if s == [] || s[0] == c then 0 else 1 + IndexIn(s[1..], c)
  }

  lemma {:induction false} FirstIndex(s: seq<string>, c: string, n: nat)
    requires n < |s| && s[n] == c && c !in s[..n]
    ensures IndexIn(s, c) == n
  {
    if n > 0 {
      assert s[0] == s[..n][0];
      assert s[1..][..n - 1] == s[..n][1..];
      FirstIndex(s[1..], c, n - 1);
    }
  }

  /** The first pattern, in configured order, that accepts any candidate. */
  method FindExcludeMatch(std: Matcher, patterns: seq<string>, candidates: seq<string>)
    returns (excluded: bool, pattern: string)
    ensures excluded <==> exists i, j :: 0 <= i < |patterns| && 0 <= j < |candidates|
                            && Accepted(std, patterns[i], candidates[j])
    ensures excluded ==> exists i, j :: 0 <= i < |patterns| && 0 <= j < |candidates|
                            && pattern == patterns[i] && Accepted(std, pattern, candidates[j])
                            && forall h, k :: 0 <= h < i && 0 <= k < |candidates| ==>
                                 !Accepted(std, patterns[h], candidates[k])
    ensures !excluded ==> pattern == ""
  {
    for i := 0 to |patterns|
      invariant forall h, k :: 0 <= h < i && 0 <= k < |candidates| ==> !Accepted(std, patterns[h], candidates[k])
    {
      for j := 0 to |candidates|
        invariant forall k :: 0 <= k < j ==> !Accepted(std, patterns[i], candidates[k])
      {
        var matched := MatchesGlob(std, patterns[i], candidates[j]);
        if matched {
          return true, patterns[i];
        }
      }
    }
    return false, "";
  }
}
