/** Version ordering: the upgrade gate (`CompareVersions`) and the update notice (`IsNewerVersion`). */
module Versions {
  import opened Optional
  import opened Text

  const MAX_INT: nat := 0x7FFF_FFFF_FFFF_FFFF

  /** A numeric core, compared as if followed by zeros, and whether it is a pre-release. */
  datatype Version = Version(core: seq<nat>, pre: bool)

  // ------------------------------------------------------------ decimal components

  predicate AllDigits(s: string)
  {
    s != "" && forall i :: 0 <= i < |s| ==> '0' <= s[i] <= '9'
  }

  function DecimalValue(s: string): nat
    requires forall i :: 0 <= i < |s| ==> '0' <= s[i] <= '9'
  {
    if s == "" then 0 else 10 * DecimalValue(s[..|s| - 1]) + (s[|s| - 1] as int - '0' as int)
  }

  datatype Parsed = Number(n: nat) | OutOfRange | BadSyntax

  /** strconv.Atoi on text without a sign. */
  function Atoi(s: string): Parsed
  {
    if !AllDigits(s) then BadSyntax
    else if DecimalValue(s) > MAX_INT then OutOfRange
    else Number(DecimalValue(s))
  }

  /** The upgrade gate reads any unparsable component as zero. */
  function GateComponent(s: string): nat
  {
    if Atoi(s).Number? then Atoi(s).n else 0
  }

  /** The update notice ignores the error and keeps the clamped value. */
  function NoticeComponent(s: string): nat
  {
    match Atoi(s)
    case Number(n) => n
    case OutOfRange => MAX_INT
    case BadSyntax => 0
  }

  // ------------------------------------------------------------ the upgrade gate

  function GateComponents(parts: seq<string>): (ns: seq<nat>)
    ensures |ns| == |parts| && forall i :: 0 <= i < |parts| ==> ns[i] == GateComponent(parts[i])
  {
    seq(|parts|, i requires 0 <= i < |parts| => GateComponent(parts[i]))
  }

  function Normalize(v: string): Version
  {
    var t := TrimSpace(v);
    if t == "" then Version([0], false)
    else
      var cut := IndexAny(t, "-+");
      Version(GateComponents(Split(t[..cut], '.')), cut < |t| && t[cut] == '-')
  }

  function At(a: seq<nat>, i: nat): nat
  {
    if i < |a| then a[i] else 0
  }

  ghost predicate SameCore(a: seq<nat>, b: seq<nat>)
  {
    forall i: nat :: At(a, i) == At(b, i)
  }

  /** The first difference decides. */
  ghost predicate CoreBelow(a: seq<nat>, b: seq<nat>)
  {
    exists k: nat :: At(a, k) < At(b, k) && forall i: nat :: i < k ==> At(a, i) == At(b, i)
  }

  /** Precedence of section 11 of Semantic Versioning 2.0.0, as far as the tool distinguishes
      versions: numeric core first, then a pre-release ranks below its stable release. */
  ghost predicate Precedes(a: Version, b: Version)
  {
    CoreBelow(a.core, b.core) || (SameCore(a.core, b.core) && a.pre && !b.pre)
  }

  ghost predicate Equivalent(a: Version, b: Version)
  {
    SameCore(a.core, b.core) && a.pre == b.pre
  }

  method NormalizeText(v: string) returns (r: Version)
    ensures r == Normalize(v)
  {
    var t := TrimSpace(v);
    if t == "" {
      return Version([0], false);
    }
    var pre := false;
    var idx := IndexAny(t, "-+");
    if idx < |t| {
      pre := t[idx] == '-';
      t := t[..idx];
    }
    assert TrimSpace(v)[..idx] == t;
    var parts := Split(t, '.');
    var out: seq<nat> := [];
    for i := 0 to |parts|
      invariant out == GateComponents(parts)[..i]
    {
      if parts[i] == "" {
        out := out + [0];
      } else {
        var n := Atoi(parts[i]);
        out := out + [if n.Number? then n.n else 0];
      }
    }
    return Version(out, pre);
  }

  /** -1, 0 or 1 exactly as the first version precedes, equals or follows the second. */
  method CompareVersions(current: string, latest: string) returns (r: int)
    ensures -1 <= r <= 1
    ensures r == -1 <==> Precedes(Normalize(current), Normalize(latest))
    ensures r == 1 <==> Precedes(Normalize(latest), Normalize(current))
    ensures r == 0 <==> Equivalent(Normalize(current), Normalize(latest))
  {
    var a := NormalizeText(current);
    var b := NormalizeText(latest);
    Trichotomy(a, b);
    var maxLen := if |b.core| > |a.core| then |b.core| else |a.core|;
    for i := 0 to maxLen
      invariant forall j: nat :: j < i ==> At(a.core, j) == At(b.core, j)
    {
      var av, bv := 0, 0;
      if i < |a.core| {
        av := a.core[i];
      }
      if i < |b.core| {
        bv := b.core[i];
      }
      assert av == At(a.core, i) && bv == At(b.core, i);
      if av < bv {
        return -1;
      }
      if av > bv {
        return 1;
      }
    }
    assert forall i: nat :: i >= maxLen ==> At(a.core, i) == 0 == At(b.core, i);
    assert SameCore(a.core, b.core);
    if a.pre && !b.pre {
      return -1;
    }
    if !a.pre && b.pre {
      return 1;
    }
    return 0;
  }

  /** Exactly one of below, above and equivalent holds. */
  lemma Trichotomy(a: Version, b: Version)
    ensures Precedes(a, b) || Precedes(b, a) || Equivalent(a, b)
    ensures !(Precedes(a, b) && Precedes(b, a))
    ensures !(Precedes(a, b) && Equivalent(a, b))
  {
    FirstDifference(a.core, b.core, 0);
    if CoreBelow(a.core, b.core) {
      var k: nat :| At(a.core, k) < At(b.core, k) && forall i: nat :: i < k ==> At(a.core, i) == At(b.core, i);
      assert forall l: nat :: At(b.core, l) < At(a.core, l) ==> k < l;
    }
  }

  lemma {:induction false} FirstDifference(a: seq<nat>, b: seq<nat>, k: nat)
    requires forall i: nat :: i < k ==> At(a, i) == At(b, i)
    ensures SameCore(a, b) || CoreBelow(a, b) || CoreBelow(b, a)
    decreases |a| + |b| - k
  {
    if k < |a| + |b| {
      if At(a, k) == At(b, k) {
        FirstDifference(a, b, k + 1);
      }
    } else {
      assert forall i: nat :: i >= |a| + |b| ==> At(a, i) == 0 == At(b, i);
    }
  }

  /** The order is transitive, also through equivalent versions. */
  lemma PrecedesTransitive(a: Version, b: Version, c: Version)
    ensures Precedes(a, b) && Precedes(b, c) ==> Precedes(a, c)
    ensures Precedes(a, b) && Equivalent(b, c) ==> Precedes(a, c)
    ensures Equivalent(a, b) && Precedes(b, c) ==> Precedes(a, c)
    ensures Equivalent(a, b) && Equivalent(b, c) ==> Equivalent(a, c)
  {
  }

  /** How a written version is read: the core up to the first suffix mark, split at dots. */
  lemma WrittenVersion(core: string, suffix: string)
    requires core != "" && Trimmed(core) && Trimmed(suffix) && '-' !in core && '+' !in core
    requires suffix == "" || suffix[0] in "-+"
    ensures Normalize(core + suffix)
         == Version(GateComponents(Split(core, '.')), suffix != "" && suffix[0] == '-')
  {
    var t := core + suffix;
    TrimTrimmed(t);
    IndexAnyIs(t, "-+", |core|);
    assert t[..|core|] == core;
  }

  // ------------------------------------------------------------ versions as they are written

  function Digit(d: nat): char
    requires d < 10
  {
    d as char + '0'
  }

  /** The decimal text of a number. */
  function Decimal(n: nat): string
  {
    if n < 10 then [Digit(n)] else Decimal(n / 10) + [Digit(n % 10)]
  }

  lemma {:induction false} DecimalIsRead(n: nat)
    ensures AllDigits(Decimal(n)) && DecimalValue(Decimal(n)) == n
  {
    var s := Decimal(n);
    if n < 10 {
      assert s[..0] == "" && s[..|s| - 1] == "";
    } else {
      DecimalIsRead(n / 10);
      assert s[..|s| - 1] == Decimal(n / 10);
    }
  }

  /** Numbers written with dots between them. */
  function Dotted(ns: seq<nat>): string
    requires ns != []
  {
    if |ns| == 1 then Decimal(ns[0]) else Decimal(ns[0]) + ['.'] + Dotted(ns[1..])
  }

  predicate PlainText(s: string)
  {
    s != "" && '0' <= s[0] <= '9' && '0' <= s[|s| - 1] <= '9' && '-' !in s && '+' !in s
  }

  lemma {:induction false} DottedSplits(ns: seq<nat>)
    requires ns != []
    ensures PlainText(Dotted(ns)) && |Split(Dotted(ns), '.')| == |ns|
    ensures forall i :: 0 <= i < |ns| ==> Split(Dotted(ns), '.')[i] == Decimal(ns[i])
  {
    DecimalIsRead(ns[0]);
    DigitsArePlain(Decimal(ns[0]));
    SplitWhole(Decimal(ns[0]), '.');
    if |ns| > 1 {
      DottedSplits(ns[1..]);
      SplitAt(Decimal(ns[0]), '.', Dotted(ns[1..]));
      PlainJoined(Decimal(ns[0]), Dotted(ns[1..]));
    }
  }

  lemma PlainJoined(a: string, b: string)
    requires PlainText(a) && PlainText(b)
    ensures PlainText(a + ['.'] + b)
  {
  }

  lemma PlainIsTrimmed(s: string)
    requires PlainText(s)
    ensures Trimmed(s)
  {
  }

  lemma {:induction false} PartsAreRead(ns: seq<nat>)
    requires ns != [] && forall i :: 0 <= i < |ns| ==> ns[i] <= MAX_INT
    ensures GateComponents(Split(Dotted(ns), '.')) == ns
  {
    DottedSplits(ns);
    forall i | 0 <= i < |ns| ensures GateComponent(Split(Dotted(ns), '.')[i]) == ns[i] {
      DecimalIsRead(ns[i]);
    }
  }

  /** A version that is written is read back: the numbers, each as long as it fits an int, and the
      pre-release mark; what follows the mark, and build metadata, is ignored. */
  lemma {:induction false} WrittenIsRead(ns: seq<nat>, suffix: string)
    requires ns != [] && forall i :: 0 <= i < |ns| ==> ns[i] <= 0x7FFF_FFFF_FFFF_FFFF
    requires Trimmed(suffix) && (suffix == "" || suffix[0] in "-+")
    ensures Normalize(Dotted(ns) + suffix) == Version(ns, suffix != "" && suffix[0] == '-')
  {
    DottedSplits(ns);
    PartsAreRead(ns);
    var core := Dotted(ns);
    PlainIsTrimmed(core);
    WrittenVersion(core, suffix);
  }

  /** So written versions are ordered as their numbers are, position by position, whatever the number of
      digits. */
  lemma WrittenAreOrdered(ns: seq<nat>, ms: seq<nat>)
    requires ns != [] && forall i :: 0 <= i < |ns| ==> ns[i] <= 0x7FFF_FFFF_FFFF_FFFF
    requires ms != [] && forall i :: 0 <= i < |ms| ==> ms[i] <= 0x7FFF_FFFF_FFFF_FFFF
    ensures Precedes(Normalize(Dotted(ns)), Normalize(Dotted(ms))) <==> CoreBelow(ns, ms)
  {
    WrittenIsRead(ns, "");
    WrittenIsRead(ms, "");
    assert Dotted(ns) + "" == Dotted(ns) && Dotted(ms) + "" == Dotted(ms);
  }

  /** A blank version reads as zero. */
  lemma BlankReadsAsZero(v: string)
    requires TrimSpace(v) == ""
    ensures Equivalent(Normalize(v), Normalize("0"))
  {
    var zero := "0";
    SingleDigit(zero, 0);
    DigitsArePlain(zero);
    PlainReading(zero);
    SplitWhole(zero, '.');
    assert GateComponents([zero]) == [0];
  }

  /** Appending a zero component to the written core, before any suffix, changes nothing. */
  lemma TrailingZeroComponent(core: string, suffix: string)
    requires core != "" && Trimmed(core) && Trimmed(suffix) && '-' !in core && '+' !in core
    requires suffix == "" || suffix[0] in "-+"
    ensures Equivalent(Normalize(core + ".0" + suffix), Normalize(core + suffix))
  {
    WrittenVersion(core, suffix);
    ZeroAppended(core, "0");
    assert core + "." + "0" == core + ".0";
    WrittenVersion(core + ".0", suffix);
  }

  lemma ZeroAppended(core: string, zero: string)
    requires core != "" && Trimmed(core) && '-' !in core && '+' !in core && zero == "0"
    ensures Trimmed(core + "." + zero) && '-' !in core + "." + zero && '+' !in core + "." + zero
    ensures SameCore(GateComponents(Split(core + "." + zero, '.')), GateComponents(Split(core, '.')))
  {
    SingleDigit(zero, 0);
    AppendComponent(core, zero);
    GateAppend(Split(core, '.'), zero);
    ZeroBeyond(GateComponents(Split(core, '.')));
  }

  lemma ZeroBeyond(a: seq<nat>)
    ensures SameCore(a + [0], a)
  {
  }

  /** A stable version follows every pre-release written with the same core. */
  lemma StableFollowsPrerelease(core: string, tag: string)
    requires core != "" && Trimmed(core) && '-' !in core && '+' !in core && Trimmed("-" + tag)
    ensures Precedes(Normalize(core + "-" + tag), Normalize(core))
  {
    WrittenVersion(core, "-" + tag);
    WrittenVersion(core, "");
    assert core + "-" + tag == core + ("-" + tag) && core + "" == core;
  }

  // ------------------------------------------------------------ the update notice

  datatype Triple = Triple(major: nat, minor: nat, patch: nat, pre: bool)

  function ParseTriple(v: string): Triple
  {
    var t := TrimSpace(v);
    var u := if t != "" && t[0] == 'v' then t[1..] else t;
    var w := u[..IndexAny(u, "+")];
    var cut := IndexAny(w, "-");
    var parts := Split(w[..cut], '.');
    Triple(NoticeComponent(parts[0]),
           if |parts| > 1 then NoticeComponent(parts[1]) else 0,
           if |parts| > 2 then NoticeComponent(parts[2]) else 0,
           cut < |w|)
  }

  predicate IsNewerVersion(current: string, latest: string)
  {
    var c, l := ParseTriple(current), ParseTriple(latest);
    if l.major != c.major then l.major > c.major
    else if l.minor != c.minor then l.minor > c.minor
    else if l.patch != c.patch then l.patch > c.patch
    else c.pre && !l.pre
  }

  /** The components of a text as the gate cuts it. */
  function Components(v: string): seq<string>
  {
    var t := TrimSpace(v);
    Split(t[..IndexAny(t, "-+")], '.')
  }

  predicate Unmarked(v: string)
  {
    !(TrimSpace(v) != "" && TrimSpace(v)[0] == 'v')
  }

  /** No "v" in front and no component beyond an int: what both readers take the same way. */
  predicate Readable(v: string)
  {
    Unmarked(v) && forall i :: 0 <= i < |Components(v)| ==> Atoi(Components(v)[i]) != OutOfRange
  }

  /** A component as the notice reads it. */
  function NoticeAt(v: string, i: nat): nat
  {
    if i < |Components(v)| then NoticeComponent(Components(v)[i]) else 0
  }

  predicate Overflows(v: string, i: nat)
  {
    i < |Components(v)| && Atoi(Components(v)[i]) == OutOfRange
  }

  /** The notice reads the first three of the components the gate cuts, and the same pre-release mark. */
  lemma NoticeReading(v: string)
    requires Unmarked(v)
    ensures ParseTriple(v) == Triple(NoticeAt(v, 0), NoticeAt(v, 1), NoticeAt(v, 2), Normalize(v).pre)
  {
    var t := TrimSpace(v);
    var cut := IndexAny(t, "-+");
    var plus := IndexAny(t, "+");
    var w := t[..plus];
    var dash := IndexAny(w, "-");
    assert cut <= plus && dash == cut by {
      assert forall i :: 0 <= i < cut ==> t[i] != '-' && t[i] != '+';
      assert cut < |t| ==> t[cut] == '-' || t[cut] == '+';
      assert plus < |t| ==> t[plus] == '+';
      IndexAnyIs(w, "-", cut);
    }
    assert w[..dash] == t[..cut];
  }

  /** The two readings of a component differ exactly when it is beyond an int. */
  lemma GateReading(v: string, i: nat)
    ensures At(Normalize(v).core, i) == if Overflows(v, i) then 0 else NoticeAt(v, i)
    ensures Overflows(v, i) ==> NoticeAt(v, i) == MAX_INT
  {
    if TrimSpace(v) != "" {
      assert Normalize(v).core == GateComponents(Components(v));
    }
  }

  /** Both readers find the same numbers and the same pre-release mark. */
  lemma SameReading(v: string)
    requires Readable(v)
    ensures var n := Normalize(v);
            ParseTriple(v) == Triple(At(n.core, 0), At(n.core, 1), At(n.core, 2), n.pre)
  {
    NoticeReading(v);
    GateReading(v, 0);
    GateReading(v, 1);
    GateReading(v, 2);
  }

  lemma ShortCore(v: string)
    requires |Components(v)| <= 3
    ensures forall i: nat :: i >= 3 ==> At(Normalize(v).core, i) == 0
  {
    if TrimSpace(v) != "" {
      assert Normalize(v).core == GateComponents(Components(v));
    }
  }

  ghost predicate SameTriple(a: seq<nat>, b: seq<nat>)
  {
    At(a, 0) == At(b, 0) && At(a, 1) == At(b, 1) && At(a, 2) == At(b, 2)
  }

  /** A difference within the first three components decides the order of the cores. */
  lemma ThreeDecide(c: seq<nat>, l: seq<nat>)
    requires !SameTriple(c, l)
    ensures !SameCore(c, l)
    ensures CoreBelow(c, l) <==>
              if At(c, 0) != At(l, 0) then At(c, 0) < At(l, 0)
              else if At(c, 1) != At(l, 1) then At(c, 1) < At(l, 1)
              else At(c, 2) < At(l, 2)
  {
  }

  /** What lies beyond the third component leaves the notice's verdict standing. */
  ghost predicate TailAgrees(a: Version, b: Version)
  {
    SameTriple(a.core, b.core) ==>
      if a.pre && !b.pre then !CoreBelow(b.core, a.core) else !CoreBelow(a.core, b.core)
  }

  /** The notice says "newer" exactly when the gate says -1, if and only if the components after the
      third do not turn the order around. */
  lemma GateAgreesExactly(current: string, latest: string)
    requires Readable(current) && Readable(latest)
    ensures var a, b := Normalize(current), Normalize(latest);
            (IsNewerVersion(current, latest) <==> Precedes(a, b)) <==> TailAgrees(a, b)
  {
    SameReading(current);
    SameReading(latest);
    var a, b := Normalize(current), Normalize(latest);
    Trichotomy(a, b);
    if !SameTriple(a.core, b.core) {
      ThreeDecide(a.core, b.core);
    }
  }

  /** In particular they agree on versions of at most three components. */
  lemma ThreeComponentsAgree(current: string, latest: string)
    requires Readable(current) && Readable(latest)
    requires |Components(current)| <= 3 && |Components(latest)| <= 3
    ensures IsNewerVersion(current, latest) <==> Precedes(Normalize(current), Normalize(latest))
  {
    GateAgreesExactly(current, latest);
    ShortCore(current);
    ShortCore(latest);
    ShortTails(Normalize(current), Normalize(latest));
  }

  lemma ShortTails(a: Version, b: Version)
    requires forall i: nat :: i >= 3 ==> At(a.core, i) == 0 == At(b.core, i)
    ensures TailAgrees(a, b)
  {
  }

  // ------------------------------------------------------------ the texts that reach the comparisons

  function StripV(v: string): string
  {
    if v != "" && v[0] == 'v' then v[1..] else v
  }

  const DEVELOPMENT := "0.0.0-dev"

  /** The running version: the text injected at build time, else the module version, else the
      placeholder; without one "v". */
  function CurrentVersion(injected: string, moduleVersion: Option<string>): string
  {
    var v := TrimSpace(injected);
    if v != "" then StripV(v)
    else
      var m := if moduleVersion.Some? then TrimSpace(moduleVersion.value) else "";
      if m != "" && m != "(devel)" then StripV(m) else DEVELOPMENT
  }

  /** With nothing injected the module version counts, unless it is missing, blank or the marker of a
      development build; then the placeholder does. */
  lemma VersionWithoutInjection(injected: string, moduleVersion: Option<string>)
    requires TrimSpace(injected) == ""
    ensures moduleVersion == None || TrimSpace(moduleVersion.value) in ["", "(devel)"] ==>
              CurrentVersion(injected, moduleVersion) == "0.0.0-dev"
    ensures moduleVersion.Some? && TrimSpace(moduleVersion.value) !in ["", "(devel)"] ==>
              CurrentVersion(injected, moduleVersion) in
              [TrimSpace(moduleVersion.value), TrimSpace(moduleVersion.value)[1..]]
  {
  }

  /** The latest release's version from its tag; an empty tag is an error. */
  function LatestVersion(tag: string): Option<string>
  {
    var t := TrimSpace(tag);
    if t == "" then None else Some(StripV(t))
  }

  /** The update check: blank versions are never announced. */
  predicate Announced(current: string, latest: string)
  {
    var c, l := TrimSpace(current), TrimSpace(latest);
    c != "" && l != "" && IsNewerVersion(c, l)
  }

  lemma TrimmingFirst(current: string, latest: string)
    ensures IsNewerVersion(TrimSpace(current), TrimSpace(latest)) == IsNewerVersion(current, latest)
  {
    TrimSpaceTrims(current);
    TrimSpaceTrims(latest);
    TrimTrimmed(TrimSpace(current));
    TrimTrimmed(TrimSpace(latest));
  }

  /** A version as releases are named, before the tag's "v". */
  predicate ReleaseName(x: string)
  {
    x != "" && Trimmed(x) && Readable(x)
  }

  lemma StrippedOnce(x: string, mark: string)
    requires ReleaseName(x) && mark in ["", "v"]
    ensures Trimmed(mark + x) && mark + x != "" && StripV(mark + x) == x && TrimSpace(x) == x
  {
    TrimTrimmed(x);
    if mark == "" {
      assert mark + x == x;
    } else {
      assert (mark + x)[1..] == x;
    }
  }

  /** On the way from the build and the release tag to the two comparisons a "v" is dropped on both
      sides, so it never makes them disagree: whether or not either text carries one, the update is
      announced exactly when the gate lets it in, if and only if the components after the third do not
      turn the order around. */
  lemma LeadingVIsHarmless(x: string, xMark: string, y: string, yMark: string, moduleVersion: Option<string>)
    requires ReleaseName(x) && ReleaseName(y) && xMark in ["", "v"] && yMark in ["", "v"]
    ensures CurrentVersion(xMark + x, moduleVersion) == x && LatestVersion(yMark + y) == Some(y)
    ensures (Announced(CurrentVersion(xMark + x, moduleVersion), LatestVersion(yMark + y).value) <==>
             Precedes(Normalize(x), Normalize(y)))
            <==> TailAgrees(Normalize(x), Normalize(y))
  {
    StrippedOnce(x, xMark);
    StrippedOnce(y, yMark);
    TrimTrimmed(xMark + x);
    TrimTrimmed(yMark + y);
    GateAgreesExactly(x, y);
  }

  /** The whole check against the gate: a blank text on either side (an injected or tagged bare "v")
      silences the check, whatever the gate says. */
  lemma CheckAgreesExactly(current: string, latest: string)
    requires Readable(current) && Readable(latest)
    ensures (Announced(current, latest) <==> Precedes(Normalize(current), Normalize(latest))) <==>
              if TrimSpace(current) == "" || TrimSpace(latest) == "" then
                !Precedes(Normalize(current), Normalize(latest))
              else TailAgrees(Normalize(current), Normalize(latest))
  {
    TrimmingFirst(current, latest);
    GateAgreesExactly(current, latest);
  }

  /** Reading text that carries no suffix. */
  lemma PlainReading(v: string)
    requires Trimmed(v) && '-' !in v && '+' !in v
    ensures v != "" ==> Normalize(v) == Version(GateComponents(Split(v, '.')), false)
    ensures v == "" || v[0] != 'v' ==> Split(v, '.') == TripleParts(v)
    ensures v != "" && v[0] == 'v' ==> Split(v[1..], '.') == TripleParts(v)
    ensures !ParseTriple(v).pre
  {
    TrimTrimmed(v);
    IndexAnyIs(v, "-+", |v|);
    var u := if v != "" && v[0] == 'v' then v[1..] else v;
    IndexAnyIs(u, "+", |u|);
    assert u[..|u|] == u && v[..|v|] == v;
    IndexAnyIs(u, "-", |u|);
  }

  /** The components ParseTriple reads. */
  function TripleParts(v: string): seq<string>
  {
    var t := TrimSpace(v);
    var u := if t != "" && t[0] == 'v' then t[1..] else t;
    var w := u[..IndexAny(u, "+")];
    Split(w[..IndexAny(w, "-")], '.')
  }

  /** A component that both readers understand. */
  predicate InRange(s: string)
  {
    AllDigits(s) && DecimalValue(s) <= MAX_INT
  }

  lemma DigitsArePlain(s: string)
    requires AllDigits(s)
    ensures Trimmed(s) && '-' !in s && '+' !in s && '.' !in s && 'v' !in s
  {
  }

  /** The notice ignores everything after the third component, the gate does not. */
  lemma NoticeMissesFourthComponent(core: string, c: string, d: string)
    requires |Split(core, '.')| == 3 && Trimmed(core) && '-' !in core && '+' !in core
    requires core != "" && core[0] != 'v'
    requires InRange(c) && InRange(d) && DecimalValue(c) < DecimalValue(d)
    ensures Precedes(Normalize(core + "." + c), Normalize(core + "." + d))
    ensures !IsNewerVersion(core + "." + c, core + "." + d)
  {
    FourthComponent(core, c);
    FourthComponent(core, d);
    var a, b := Normalize(core + "." + c).core, Normalize(core + "." + d).core;
    assert At(a, 3) < At(b, 3);
  }

  lemma FourthComponent(core: string, c: string)
    requires |Split(core, '.')| == 3 && Trimmed(core) && '-' !in core && '+' !in core
    requires core != "" && core[0] != 'v' && InRange(c)
    ensures var parts, v := Split(core, '.'), core + "." + c;
            && Normalize(v) == Version(GateComponents(parts) + [DecimalValue(c)], false)
            && ParseTriple(v)
            == Triple(NoticeComponent(parts[0]), NoticeComponent(parts[1]), NoticeComponent(parts[2]), false)
  {
    var v := core + "." + c;
    AppendComponent(core, c);
    PlainReading(v);
    GateAppend(Split(core, '.'), c);
  }

  lemma AppendComponent(core: string, c: string)
    requires Trimmed(core) && '-' !in core && '+' !in core && core != "" && InRange(c)
    ensures var v := core + "." + c;
            && v != "" && v[0] == core[0] && Trimmed(v) && '-' !in v && '+' !in v
            && Split(v, '.') == Split(core, '.') + [c]
  {
    DigitsArePlain(c);
    SplitAt(core, '.', c);
    SplitWhole(c, '.');
    assert core + ['.'] + c == core + "." + c;
  }

  lemma GateAppend(parts: seq<string>, c: string)
    ensures GateComponents(parts + [c]) == GateComponents(parts) + [GateComponent(c)]
  {
  }

  /** Beyond an int the two always disagree: where one text overflows within the first three components,
      everything before reads alike and the other component is neither zero nor the largest int, the
      notice and the gate order the versions in opposite ways. */
  lemma OverflowTurnsTheOrder(current: string, latest: string, k: nat)
    requires Unmarked(current) && Unmarked(latest) && k < 3
    requires forall i: nat :: i < k ==>
               NoticeAt(current, i) == NoticeAt(latest, i) && Overflows(current, i) == Overflows(latest, i)
    requires Overflows(current, k) != Overflows(latest, k)
    requires 0 < NoticeAt(if Overflows(current, k) then latest else current, k) < MAX_INT
    ensures IsNewerVersion(current, latest) <==> Overflows(latest, k)
    ensures Precedes(Normalize(current), Normalize(latest)) <==> Overflows(current, k)
  {
    GateReading(if Overflows(current, k) then current else latest, k);
    NoticeDecides(current, latest, k);
    GateDecides(current, latest, k);
  }

  lemma NoticeDecides(current: string, latest: string, k: nat)
    requires Unmarked(current) && Unmarked(latest) && k < 3
    requires forall i: nat :: i < k ==> NoticeAt(current, i) == NoticeAt(latest, i)
    requires NoticeAt(current, k) != NoticeAt(latest, k)
    ensures IsNewerVersion(current, latest) <==> NoticeAt(latest, k) > NoticeAt(current, k)
  {
    NoticeReading(current);
    NoticeReading(latest);
  }

  lemma GateDecides(current: string, latest: string, k: nat)
    requires forall i: nat :: i < k ==>
               NoticeAt(current, i) == NoticeAt(latest, i) && Overflows(current, i) == Overflows(latest, i)
    requires Overflows(current, k) != Overflows(latest, k)
    requires 0 < NoticeAt(if Overflows(current, k) then latest else current, k)
    ensures Precedes(Normalize(current), Normalize(latest)) <==> Overflows(current, k)
  {
    var a, b := Normalize(current), Normalize(latest);
    forall i: nat | i < k ensures At(a.core, i) == At(b.core, i) {
      GateReading(current, i);
      GateReading(latest, i);
    }
    GateReading(current, k);
    GateReading(latest, k);
    FirstDifferenceAt(a.core, b.core, k);
    Trichotomy(a, b);
  }

  lemma FirstDifferenceAt(a: seq<nat>, b: seq<nat>, k: nat)
    requires forall i: nat :: i < k ==> At(a, i) == At(b, i)
    requires At(a, k) != At(b, k)
    ensures !SameCore(a, b)
    ensures At(a, k) < At(b, k) ==> CoreBelow(a, b)
    ensures At(b, k) < At(a, k) ==> CoreBelow(b, a)
  {
  }

  /** A component beyond an int is zero for the gate and the largest int for the notice, so a release
      with such a major number is announced to version 1.0.0 and the gate takes it for an older one. */
  lemma OverflowingComponentDiffers(s: string)
    requires AllDigits(s) && DecimalValue(s) > MAX_INT
    ensures Announced("1.0.0", s) && Precedes(Normalize(s), Normalize("1.0.0"))
  {
    var current := "1.0.0";
    OverflowReading(s);
    OneZeroZero(current);
    TrimTrimmed(s);
    assert At(Normalize(s).core, 0) < At(Normalize(current).core, 0);
  }

  lemma OverflowReading(s: string)
    requires AllDigits(s) && DecimalValue(s) > MAX_INT
    ensures Trimmed(s) && Normalize(s).core == [0] && ParseTriple(s) == Triple(MAX_INT, 0, 0, false)
  {
    DigitsArePlain(s);
    PlainReading(s);
    SplitWhole(s, '.');
    assert GateComponents([s]) == [0];
    assert TripleParts(s) == [s];
  }

  lemma OneZeroZero(v: string)
    requires v == "1.0.0"
    ensures TrimSpace(v) == v && Normalize(v).core == [1, 0, 0] && ParseTriple(v) == Triple(1, 0, 0, false)
  {
    OneZeroZeroParts(v, "1", "0");
    SingleDigit("1", 1);
    SingleDigit("0", 0);
    PlainReading(v);
    TrimTrimmed(v);
  }

  lemma OneZeroZeroParts(v: string, one: string, zero: string)
    requires v == "1.0.0" && one == "1" && zero == "0"
    ensures Split(v, '.') == [one, zero, zero] && v[0] != 'v' && Trimmed(v) && '-' !in v && '+' !in v
  {
    SplitThree(one, zero, zero);
    assert v == one + ['.'] + (zero + ['.'] + zero);
  }

  lemma SplitThree(a: string, b: string, c: string)
    requires '.' !in a && '.' !in b && '.' !in c
    ensures Split(a + ['.'] + (b + ['.'] + c), '.') == [a, b, c]
  {
    SplitAt(a, '.', b + ['.'] + c);
    SplitAt(b, '.', c);
    SplitWhole(a, '.');
    SplitWhole(b, '.');
    SplitWhole(c, '.');
  }

  lemma SingleDigit(s: string, d: nat)
    requires |s| == 1 && d < 10 && s[0] == d as char + '0'
    ensures AllDigits(s) && Atoi(s) == Number(d)
  {
    assert s[..0] == "";
    assert DecimalValue(s) == 10 * DecimalValue(s[..0]) + d;
  }
}
