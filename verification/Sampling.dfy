/** Bounded sampling of a directory tree with an explicit stack.

The samplers take the last directory pushed, list its entries in order and push subdirectories as
they go. `Enumeration` is the same order as a recursion: the entries of a directory first, then
what lies below its subdirectories, last subdirectory first.
*/
module Sampling {
  import opened SourceTree

  // ------------------------------------------------------------ relative path text

  function Rel(path: Path): string
  {
    if path == [] then "."
    else if |path| == 1 then path[0]
    else path[0] + "/" + Rel(path[1..])
  }

  function Slashes(s: string): nat
  {
    if s == "" then 0 else (if s[0] == '/' then 1 else 0) + Slashes(s[1..])
  }

  predicate StartsWithDots(s: string)
  {
    |s| >= 2 && s[0] == '.' && s[1] == '.'
  }

  /** Names a directory listing can contain. */
  predicate GoodName(s: string)
  {
    s != "" && s != "." && s != ".." && '/' !in s
  }

  predicate GoodPath(p: Path)
  {
    forall i :: 0 <= i < |p| ==> GoodName(p[i])
  }

  predicate GoodTree(n: Node)
  {
    forall i :: 0 <= i < |n.children| ==> GoodName(n.children[i].name) && GoodTree(n.children[i])
  }

  lemma {:induction false} SlashesAppend(a: string, b: string)
    ensures Slashes(a + b) == Slashes(a) + Slashes(b)
  {
    if a == "" {
      assert a + b == b;
    } else {
      assert (a + b)[1..] == a[1..] + b;
      SlashesAppend(a[1..], b);
    }
  }

  lemma {:induction false} NoSlash(s: string)
    requires '/' !in s
    ensures Slashes(s) == 0
  {
    if s != "" {
      NoSlash(s[1..]);
    }
  }

  /** Counting separators in the text gives the depth, and only the first name can make the text
      start with two dots. */
  lemma {:induction false} RelText(p: Path)
    requires p != [] && GoodPath(p)
    ensures Slashes(Rel(p)) == |p| - 1
    ensures Rel(p) != "."
    ensures |Rel(p)| >= 2 && Rel(p)[0] == '.' && Rel(p)[1] == '.' <==> |p[0]| >= 2 && p[0][0] == '.' && p[0][1] == '.'
  {
    NoSlash(p[0]);
    if |p| > 1 {
      assert forall i :: 0 <= i < |p| - 1 ==> p[1..][i] == p[i + 1];
      RelText(p[1..]);
      SlashesAppend(p[0] + "/", Rel(p[1..]));
      SlashesAppend(p[0], "/");
      assert "/"[1..] == "" && Slashes("/") == 1;
    }
  }

  /** The text is the names in order, joined by slashes, whichever end one builds it from. */
  lemma {:induction false} RelJoins(p: Path, name: string)
    ensures Rel([name]) == name
    ensures p != [] ==> Rel(p + [name]) == Rel(p) + ['/'] + name && Rel([name] + p) == name + ['/'] + Rel(p)
  {
    if p != [] {
      assert ([name] + p)[1..] == p;
      if |p| == 1 {
        assert (p + [name])[1..] == [name];
      } else {
        RelJoins(p[1..], name);
        assert (p + [name])[1..] == p[1..] + [name];
        assert p[0] + "/" + (Rel(p[1..]) + ['/'] + name) == p[0] + "/" + Rel(p[1..]) + ['/'] + name;
      }
    }
  }

  /** Different paths have different texts. */
  lemma {:induction false} RelInjective(p: Path, q: Path)
    requires p != [] && q != [] && GoodPath(p) && GoodPath(q) && Rel(p) == Rel(q)
    ensures p == q
  {
    RelText(p);
    RelText(q);
    assert |p| == |q|;
    if |p| > 1 {
      var a, b := p[0] + "/", q[0] + "/";
      assert Rel(p)[|p[0]|] == '/' && Rel(q)[|q[0]|] == '/';
      assert forall i :: 0 <= i < |p[0]| ==> Rel(p)[i] == p[0][i];
      assert forall i :: 0 <= i < |q[0]| ==> Rel(q)[i] == q[0][i];
      assert |p[0]| == |q[0]|;
      assert p[0] == Rel(p)[..|p[0]|] == q[0];
      assert Rel(p[1..]) == Rel(p)[|a|..] == Rel(q)[|b|..] == Rel(q[1..]);
      assert forall i :: 0 <= i < |p| - 1 ==> p[1..][i] == p[i + 1] && q[1..][i] == q[i + 1];
      RelInjective(p[1..], q[1..]);
      assert p == [p[0]] + p[1..] && q == [q[0]] + q[1..];
    }
  }

  // ------------------------------------------------------------ recursive enumeration

  /** Which entries a sampler reports, and which subdirectories it enters. */
  datatype Rules = Rules(emits: (Node, Path) -> bool, through: Path -> bool)

  predicate Enters(r: Rules, n: Node, q: Path)
  {
    n.kind == Directory && r.through(q)
  }

  function Enumeration(r: Rules, n: Node, p: Path): seq<Path>
    decreases n, 1
  {
    Listed(r, n.children, p) + Below(r, n.children, p)
  }

  /** Entries of one directory, in order. */
  function Listed(r: Rules, ns: seq<Node>, p: Path): seq<Path>
  {
    if ns == [] then []
    else
      var c := ns[|ns| - 1];
      var q := p + [c.name];
      Listed(r, ns[..|ns| - 1], p) + if r.emits(c, q) then [q] else []
  }

  /** What lies below the subdirectories, last one first. */
  function Below(r: Rules, ns: seq<Node>, p: Path): seq<Path>
    decreases ns, 0
  {
    if ns == [] then []
    else
      var c := ns[|ns| - 1];
      var q := p + [c.name];
      (if Enters(r, c, q) then Enumeration(r, c, q) else []) + Below(r, ns[..|ns| - 1], p)
  }

  /** `q` names an entry below `n` (which is at `p`) that is reported, through entered directories. */
  ghost predicate Sampled(r: Rules, n: Node, p: Path, q: Path)
  {
    && p < q
    && (forall k :: |p| < k < |q| ==> r.through(q[..k]))
    && exists m :: Reaches(n, q[|p|..], m) && r.emits(m, q)
  }

  ghost predicate SampledIn(r: Rules, ns: seq<Node>, p: Path, q: Path)
  {
    && p < q
    && (forall k :: |p| < k < |q| ==> r.through(q[..k]))
    && exists m :: ReachesIn(ns, q[|p|..], m) && r.emits(m, q)
  }

  lemma {:induction false} EnumerationExactly(r: Rules, n: Node, p: Path, q: Path)
    requires n.kind == Directory
    ensures q in Enumeration(r, n, p) <==> Sampled(r, n, p, q)
    decreases n, 1
  {
    ChildrenExactly(r, n.children, p, q);
    if p < q {
      assert forall m :: Reaches(n, q[|p|..], m) <==> ReachesIn(n.children, q[|p|..], m);
    }
  }

  lemma {:induction false} ChildrenExactly(r: Rules, ns: seq<Node>, p: Path, q: Path)
    ensures q in Listed(r, ns, p) || q in Below(r, ns, p) <==> SampledIn(r, ns, p, q)
    decreases ns, 0
  {
    if ns != [] {
      var c, init := ns[|ns| - 1], ns[..|ns| - 1];
      var d := p + [c.name];
      ChildrenExactly(r, init, p, q);
      if Enters(r, c, d) {
        EnumerationExactly(r, c, d, q);
      }
      LastChild(r, ns, p, q);
    }
  }

  ghost predicate ViaLast(r: Rules, c: Node, p: Path, q: Path)
  {
    var d := p + [c.name];
    (q == d && r.emits(c, q)) || (Enters(r, c, d) && Sampled(r, c, d, q))
  }

  lemma {:induction false} LastChild(r: Rules, ns: seq<Node>, p: Path, q: Path)
    requires ns != []
    ensures SampledIn(r, ns, p, q) <==> SampledIn(r, ns[..|ns| - 1], p, q) || ViaLast(r, ns[|ns| - 1], p, q)
  {
    var c, init := ns[|ns| - 1], ns[..|ns| - 1];
    var d := p + [c.name];
    if p < q {
      var t := q[|p|..];
      assert t[1..] == q[|d|..] && (d <= q <==> t[0] == c.name);
      assert d <= q ==> q[..|d|] == d;
      forall m ensures ReachesIn(ns, t, m) <==> ReachesIn(init, t, m) || (t[0] == c.name && Reaches(c, t[1..], m)) {
        ReachesLast(ns, t, m);
      }
      if SampledIn(r, ns, p, q) {
        var m :| ReachesIn(ns, t, m) && r.emits(m, q);
        if t[0] == c.name && Reaches(c, t[1..], m) {
          assert |q| > |d| ==> r.through(q[..|d|]);
        }
      }
      if ViaLast(r, c, p, q) && q == d {
        assert Reaches(c, t[1..], c);
      }
    }
  }

  lemma ReachesLast(ns: seq<Node>, t: Path, m: Node)
    requires ns != [] && t != []
    ensures ReachesIn(ns, t, m) <==>
              ReachesIn(ns[..|ns| - 1], t, m) || (t[0] == ns[|ns| - 1].name && Reaches(ns[|ns| - 1], t[1..], m))
  {
  }

  // ------------------------------------------------------------ no entry twice

  predicate DistinctNames(n: Node)
  {
    && (forall i, j :: 0 <= i < j < |n.children| ==> n.children[i].name != n.children[j].name)
    && (forall i :: 0 <= i < |n.children| ==> DistinctNames(n.children[i]))
  }

  predicate NoRepeats<T(==)>(s: seq<T>)
  {
    forall i, j :: 0 <= i < j < |s| ==> s[i] != s[j]
  }

  lemma NoRepeatsConcat<T>(a: seq<T>, b: seq<T>)
    requires NoRepeats(a) && NoRepeats(b) && forall x :: x in a ==> x !in b
    ensures NoRepeats(a + b)
  {
    forall i, j | 0 <= i < j < |a + b| ensures (a + b)[i] != (a + b)[j] {
      assert i < |a| <= j ==> a[i] in a && b[j - |a|] in b;
    }
  }

  /** Every enumerated path lies under the child it was found through. */
  lemma {:induction false} UnderAChild(r: Rules, ns: seq<Node>, p: Path, q: Path)
    ensures q in Listed(r, ns, p) ==> exists i :: 0 <= i < |ns| && q == p + [ns[i].name]
    ensures q in Below(r, ns, p) ==> exists i :: 0 <= i < |ns| && p + [ns[i].name] < q
    decreases ns, 0
  {
    if ns != [] {
      var init := ns[..|ns| - 1];
      var c := ns[|ns| - 1];
      UnderAChild(r, init, p, q);
      assert forall i :: 0 <= i < |init| ==> init[i] == ns[i];
      var d := p + [c.name];
      if Enters(r, c, d) && q in Enumeration(r, c, d) {
        UnderAChild(r, c.children, d, q);
        assert exists i :: 0 <= i < |c.children| && d + [c.children[i].name] <= q;
        assert p + [ns[|ns| - 1].name] < q;
      }
    }
  }

  lemma {:induction false} EnumerationNoRepeats(r: Rules, n: Node, p: Path)
    requires DistinctNames(n)
    ensures NoRepeats(Enumeration(r, n, p))
    decreases n, 1
  {
    ChildrenNoRepeats(r, n.children, p);
    forall q | q in Listed(r, n.children, p) ensures q !in Below(r, n.children, p) {
      UnderAChild(r, n.children, p, q);
    }
    NoRepeatsConcat(Listed(r, n.children, p), Below(r, n.children, p));
  }

  lemma {:induction false} ChildrenNoRepeats(r: Rules, ns: seq<Node>, p: Path)
    requires forall i, j :: 0 <= i < j < |ns| ==> ns[i].name != ns[j].name
    requires forall i :: 0 <= i < |ns| ==> DistinctNames(ns[i])
    ensures NoRepeats(Listed(r, ns, p)) && NoRepeats(Below(r, ns, p))
    decreases ns, 0
  {
    if ns != [] {
      var c, init := ns[|ns| - 1], ns[..|ns| - 1];
      var d := p + [c.name];
      ChildrenNoRepeats(r, init, p);
      forall q | q in Listed(r, init, p) ensures q != d {
        UnderAChild(r, init, p, q);
        assert d[|p|] == c.name;
        assert forall i :: 0 <= i < |init| ==> init[i] == ns[i] && (p + [init[i].name])[|p|] == init[i].name;
      }
      NoRepeatsConcat(Listed(r, init, p), if r.emits(c, d) then [d] else []);
      if Enters(r, c, d) {
        EnumerationNoRepeats(r, c, d);
        forall q | q in Enumeration(r, c, d) ensures q !in Below(r, init, p) {
          UnderAChild(r, c.children, d, q);
          UnderAChild(r, init, p, q);
          assert d < q ==> q[|p|] == c.name;
          assert forall i :: 0 <= i < |init| && p + [init[i].name] < q ==> q[|p|] == init[i].name;
        }
        NoRepeatsConcat(Enumeration(r, c, d), Below(r, init, p));
      }
    }
  }

  // ------------------------------------------------------------ the explicit stack

  function Pending(r: Rules, stack: seq<Found>): seq<Path>
  {
    if stack == [] then []
    else
      var top := stack[|stack| - 1];
      Enumeration(r, top.node, top.path) + Pending(r, stack[..|stack| - 1])
  }

  function Size(n: Node): nat
    decreases n, 1
  {
    1 + SizeAll(n.children)
  }

  function SizeAll(ns: seq<Node>): nat
    decreases ns, 0
  {
    if ns == [] then 0 else SizeAll(ns[..|ns| - 1]) + Size(ns[|ns| - 1])
  }

  function StackSize(stack: seq<Found>): nat
  {
    if stack == [] then 0 else StackSize(stack[..|stack| - 1]) + Size(stack[|stack| - 1].node)
  }

  function MapAll<T>(f: Path -> T, xs: seq<Path>): (ys: seq<T>)
    ensures |ys| == |xs| && forall i :: 0 <= i < |xs| ==> ys[i] == f(xs[i])
  {
    seq(|xs|, i requires 0 <= i < |xs| => f(xs[i]))
  }

  lemma {:induction false} ListedPrefix(r: Rules, ns: seq<Node>, p: Path, i: nat)
    requires i <= |ns|
    ensures Listed(r, ns[..i], p) <= Listed(r, ns, p)
    decreases |ns| - i
  {
    if i < |ns| {
      assert ns[..i + 1][..i] == ns[..i];
      ListedPrefix(r, ns, p, i + 1);
    } else {
      assert ns[..i] == ns;
    }
  }

  // ------------------------------------------------------------ directories

  predicate Eligible(excluded: Path -> bool, q: Path)
  {
    q != [] && !excluded(q) && !StartsWithDots(q[0])
  }

  function DirectoryRules(excluded: Path -> bool, maxDepth: int): Rules
  {
    Rules((n: Node, q: Path) => n.kind == Directory && Eligible(excluded, q) && |q| <= maxDepth,
          (q: Path) => Eligible(excluded, q) && |q| < maxDepth)
  }

  /** What is on the stack is a readable kind of entry at a depth whose children may be reported. */
  predicate Stacked(f: Found, maxDepth: int)
  {
    f.node.kind == Directory && GoodTree(f.node) && GoodPath(f.path) && |f.path| < maxDepth
  }

  lemma NothingAtDepthZero(excluded: Path -> bool, maxDepth: int, root: Node)
    requires maxDepth <= 0 && root.kind == Directory
    ensures Enumeration(DirectoryRules(excluded, maxDepth), root, []) == []
  {
    var r := DirectoryRules(excluded, maxDepth);
    var all := Enumeration(r, root, []);
    if all != [] {
      assert all[0] in all;
      EnumerationExactly(r, root, [], all[0]);
    }
  }

  /** What the loop over one directory's entries has done after the first `i` of them. */
  ghost predicate Progress(r: Rules, cs: seq<Node>, p: Path, i: nat, stack0: seq<Found>, stack: seq<Found>)
  {
    && i <= |cs|
    && Pending(r, stack) == Below(r, cs[..i], p) + Pending(r, stack0)
    && StackSize(stack) <= StackSize(stack0) + SizeAll(cs[..i])
  }

  lemma {:induction false} ProgressStep(r: Rules, cs: seq<Node>, p: Path, i: nat, stack0: seq<Found>, stack: seq<Found>)
    requires i < |cs| && Progress(r, cs, p, i, stack0, stack)
    ensures var q := p + [cs[i].name];
            Progress(r, cs, p, i + 1, stack0, if Enters(r, cs[i], q) then stack + [Found(q, cs[i])] else stack)
  {
    var q := p + [cs[i].name];
    assert cs[..i + 1][..i] == cs[..i];
    var pushed := stack + [Found(q, cs[i])];
    assert pushed[..|stack|] == stack;
    if Enters(r, cs[i], q) {
      assert Pending(r, pushed) == Enumeration(r, cs[i], q) + (Below(r, cs[..i], p) + Pending(r, stack0));
    }
  }

  lemma {:induction false} ListedStep(r: Rules, cs: seq<Node>, p: Path, i: nat)
    requires i < |cs|
    ensures var q := p + [cs[i].name];
            Listed(r, cs[..i + 1], p) == Listed(r, cs[..i], p) + if r.emits(cs[i], q) then [q] else []
  {
    assert cs[..i + 1][..i] == cs[..i];
  }

  /** The outer loop's claim: while the limit is open, what was reported and what is pending make
      up the whole enumeration. */
  ghost predicate Complete<T(!new)>(f: Path -> T, results: seq<T>, pending: seq<Path>, all: seq<Path>, limit: int)
  {
    && |results| <= limit
    && results <= MapAll(f, all)
    && (|results| < limit ==> results + MapAll(f, pending) == MapAll(f, all))
  }

  /** After `i` entries of the top directory the claim holds for what has been listed so far. */
  lemma {:induction false} CompleteStep<T(!new)>(f: Path -> T, r: Rules, n: Node, p: Path, i: nat,
      stack0: seq<Found>, stack: seq<Found>, results0: seq<T>, results: seq<T>, all: seq<Path>, limit: int)
    requires i <= |n.children|
    requires results0 + MapAll(f, Enumeration(r, n, p) + Pending(r, stack0)) == MapAll(f, all)
    requires results == results0 + MapAll(f, Listed(r, n.children[..i], p))
    ensures results <= MapAll(f, all)
    ensures i == |n.children| && Progress(r, n.children, p, i, stack0, stack) ==>
              results + MapAll(f, Pending(r, stack)) == MapAll(f, all)
  {
    var listed, below, rest := Listed(r, n.children, p), Below(r, n.children, p), Pending(r, stack0);
    var done := Listed(r, n.children[..i], p);
    ListedPrefix(r, n.children, p, i);
    var todo := listed[|done|..];
    assert listed == done + todo;
    MapSplit(f, results0, done, todo, below, rest);
    if i == |n.children| {
      assert n.children[..i] == n.children && todo == [] && todo + (below + rest) == below + rest;
    }
  }

  lemma MapSplit<T(!new)>(f: Path -> T, results0: seq<T>, done: seq<Path>, todo: seq<Path>, below: seq<Path>,
                          rest: seq<Path>)
    ensures results0 + MapAll(f, ((done + todo) + below) + rest)
         == (results0 + MapAll(f, done)) + MapAll(f, todo + (below + rest))
  {
  }

  lemma {:induction false} SizePrefix(ns: seq<Node>, i: nat)
    requires i <= |ns|
    ensures SizeAll(ns[..i]) <= SizeAll(ns)
    decreases |ns| - i
  {
    if i < |ns| {
      assert ns[..i + 1][..i] == ns[..i];
      SizePrefix(ns, i + 1);
    } else {
      assert ns[..i] == ns;
    }
  }

  /** What the inner loop has reported and pushed after `i` entries. */
  ghost predicate Scanned<T(!new)>(f: Path -> T, r: Rules, n: Node, p: Path, i: nat,
      results0: seq<T>, results: seq<T>, stack0: seq<Found>, stack: seq<Found>)
  {
    && Progress(r, n.children, p, i, stack0, stack)
    && results == results0 + MapAll(f, Listed(r, n.children[..i], p))
    && StackSize(stack) <= StackSize(stack0) + SizeAll(n.children)
  }

  lemma {:induction false} ScanStart<T(!new)>(f: Path -> T, r: Rules, n: Node, p: Path, results: seq<T>,
                                              stack: seq<Found>)
    ensures Scanned(f, r, n, p, 0, results, results, stack, stack)
  {
  }

  lemma {:induction false} ScanStep<T(!new)>(f: Path -> T, r: Rules, n: Node, p: Path, i: nat,
      results0: seq<T>, results: seq<T>, stack0: seq<Found>, stack: seq<Found>)
    requires i < |n.children| && Scanned(f, r, n, p, i, results0, results, stack0, stack)
    ensures var c := n.children[i]; var q := p + [c.name];
            Scanned(f, r, n, p, i + 1, results0, if r.emits(c, q) then results + [f(q)] else results,
                    stack0, if Enters(r, c, q) then stack + [Found(q, c)] else stack)
  {
    var q := p + [n.children[i].name];
    ProgressStep(r, n.children, p, i, stack0, stack);
    SizePrefix(n.children, i + 1);
    ListedStep(r, n.children, p, i);
    ResultsStep(f, results0, Listed(r, n.children[..i], p), q);
  }

  lemma ResultsStep<T(!new)>(f: Path -> T, results0: seq<T>, done: seq<Path>, q: Path)
    ensures results0 + MapAll(f, done + [q]) == results0 + MapAll(f, done) + [f(q)]
    ensures done + [] == done
  {
  }

  /** The text tests of the source decide what the rules say. */
  lemma ChildText(n: Node, p: Path, i: nat)
    requires GoodTree(n) && GoodPath(p) && i < |n.children|
    ensures var q := p + [n.children[i].name];
            && GoodPath(q) && GoodTree(n.children[i])
            && Slashes(Rel(q)) == |p| && Rel(q) != "." && (StartsWithDots(Rel(q)) <==> StartsWithDots(q[0]))
  {
    RelText(p + [n.children[i].name]);
  }

  /** The inner loop over one directory. `done` counts the entries it got through. */
  method ScanForDirectories(n: Node, p: Path, excluded: Path -> bool, cancelled: Path -> bool, maxDepth: int,
                            limit: int, results0: seq<string>, stack0: seq<Found>)
    returns (results: seq<string>, stack: seq<Found>, ok: bool, ghost done: nat, ghost deepSkips: int)
    requires Stacked(Found(p, n), maxDepth) && |results0| < limit
    requires forall f :: f in stack0 ==> Stacked(f, maxDepth)
    ensures var r := DirectoryRules(excluded, maxDepth);
            && done <= |n.children| && |results| <= limit
            && results == results0 + MapAll(Rel, Listed(r, n.children[..done], p))
            && (ok && |results| < limit ==> done == |n.children| && Progress(r, n.children, p, done, stack0, stack))
    ensures forall f :: f in stack ==> Stacked(f, maxDepth)
    ensures StackSize(stack) <= StackSize(stack0) + SizeAll(n.children)
    ensures !ok ==> exists q :: cancelled(q)
    ensures deepSkips == 0
  {
    ghost var r := DirectoryRules(excluded, maxDepth);
    results, stack, ok, done, deepSkips := results0, stack0, true, 0, 0;
    ScanStart(Rel, r, n, p, results, stack);
    for i := 0 to |n.children|
      invariant done == i && deepSkips == 0 && |results| < limit
      invariant Scanned(Rel, r, n, p, i, results0, results, stack0, stack)
      invariant forall f :: f in stack ==> Stacked(f, maxDepth)
    {
      var c := n.children[i];
      var q := p + [c.name];
      if cancelled(q) {
        return results, stack, false, done, deepSkips;
      }
      ScanStep(Rel, r, n, p, i, results0, results, stack0, stack);
      ChildText(n, p, i);
      done := i + 1;
      if c.kind != Directory || excluded(q) {
        continue;
      }
      var rel := Rel(q);
      if rel == "." || StartsWithDots(rel) {
        continue;
      }
      var depth := Slashes(rel);
      if depth >= maxDepth {
        deepSkips := deepSkips + 1;
        continue;
      }
      results := results + [rel];
      if |results| >= limit {
        break;
      }
      if depth < maxDepth - 1 {
        stack := stack + [Found(q, c)];
      }
    }
  }

  /** The caller must pass a limit that a buffer can be allocated for. */
  method SampleDirectoriesBounded(root: Node, excluded: Path -> bool, readFails: Path -> bool,
                                  cancelled: Path -> bool, maxDepth: int, limit: nat)
    returns (results: seq<string>, ok: bool, ghost deepSkips: int)
    requires root.kind == Directory && GoodTree(root)
    ensures var all := Enumeration(DirectoryRules(excluded, maxDepth), root, []);
            && results <= MapAll(Rel, all)
            && |results| <= limit && |results| <= |all|
            && (ok ==> |results| == limit || |results| == |all|)
    ensures !ok ==> exists p :: readFails(p) || cancelled(p)
    ensures deepSkips == 0
  {
    results, ok, deepSkips := [], true, 0;
    ghost var r := DirectoryRules(excluded, maxDepth);
    ghost var all := Enumeration(r, root, []);
    if limit == 0 || maxDepth <= 0 {
      if maxDepth <= 0 {
        NothingAtDepthZero(excluded, maxDepth, root);
      }
      return;
    }
    var stack := [Found([], root)];
    assert stack[..0] == [] && all + [] == all;
    while |stack| > 0 && |results| < limit
      invariant forall f :: f in stack ==> Stacked(f, maxDepth)
      invariant Complete(Rel, results, Pending(r, stack), all, limit)
      invariant deepSkips == 0
      decreases StackSize(stack)
    {
      var Found(p, n) := stack[|stack| - 1];
      var stack0 := stack[..|stack| - 1];
      if cancelled(p) || readFails(p) {
        return results, false, deepSkips;
      }
      ghost var results0 := results;
      ghost var done, skips;
      results, stack, ok, done, skips :=
        ScanForDirectories(n, p, excluded, cancelled, maxDepth, limit, results, stack0);
      deepSkips := deepSkips + skips;
      CompleteStep(Rel, r, n, p, done, stack0, stack, results0, results, all, limit);
      if !ok {
        return;
      }
    }
  }

  /** The directory sample, said without recursion: the directories that exist within the depth
      bound, are not excluded, lie under no excluded directory, and whose top-level name does not
      start with two dots. */
  lemma {:induction false} DirectorySampleExactly(excluded: Path -> bool, maxDepth: int, root: Node, q: Path)
    requires root.kind == Directory
    ensures q in Enumeration(DirectoryRules(excluded, maxDepth), root, []) <==>
              && q != [] && |q| <= maxDepth && !(|q[0]| >= 2 && q[0][0] == '.' && q[0][1] == '.')
              && (forall k :: 0 < k <= |q| ==> !excluded(q[..k]))
              && exists m :: Reaches(root, q, m) && m.kind == Directory
  {
    var r := DirectoryRules(excluded, maxDepth);
    EnumerationExactly(r, root, [], q);
    if q != [] {
      assert q[0..] == q && q[..|q|] == q;
      assert forall k :: 0 < k < |q| ==> q[..k][0] == q[0];
      if Sampled(r, root, [], q) {
        var m :| Reaches(root, q[0..], m) && r.emits(m, q);
        assert forall k :: 0 < k < |q| ==> r.through(q[..k]) && !excluded(q[..k]);
      }
    }
  }

  // ------------------------------------------------------------ files

  datatype StatResult = Sized(size: nat) | TimedOut | Missing

  datatype FileSummary = FileSummary(relativePath: string, sizeBytes: nat)

  /** The pattern test of the collector: pattern list, base name, relative path. */
  type PatternTest = (seq<string>, string, string) -> bool

  datatype Filter = Filter(wants: seq<string>, drops: seq<string>, matchAny: PatternTest, stat: Path -> StatResult)
  {
    predicate Passes(q: Path)
      requires q != []
    {
      var name, rel := q[|q| - 1], Rel(q);
      && !(|drops| > 0 && matchAny(drops, name, rel))
      && !(|wants| > 0 && !matchAny(wants, name, rel))
    }

    predicate Wanted(q: Path)
    {
      q != [] && Passes(q) && stat(q).Sized?
    }

    function Summary(q: Path): FileSummary
    {
      FileSummary(Rel(q), if stat(q).Sized? then stat(q).size else 0)
    }
  }

  function FileRules(excluded: Path -> bool, maxDepth: int, filter: Filter): Rules
  {
    Rules((n: Node, q: Path) => n.kind != Directory && Eligible(excluded, q) && filter.Wanted(q),
          (q: Path) => Eligible(excluded, q) && |q| <= maxDepth)
  }

  predicate Readable(f: Found)
  {
    f.node.kind == Directory && GoodTree(f.node) && GoodPath(f.path)
  }

  datatype Verdict = Ignore | Enter | Report(summary: FileSummary) | GiveUp

  /** The file sampler's decision about one entry. */
  method InspectEntry(c: Node, q: Path, excluded: Path -> bool, filter: Filter, maxDepth: int) returns (v: Verdict)
    requires q != [] && GoodPath(q)
    ensures v == Enter <==> Enters(FileRules(excluded, maxDepth, filter), c, q)
    ensures v.Report? ==> v.summary == filter.Summary(q)
    ensures v.Report? <==> FileRules(excluded, maxDepth, filter).emits(c, q)
    ensures v == GiveUp ==> filter.stat(q) == TimedOut
  {
    var rel := Rel(q);
    RelText(q);
    if excluded(q) || rel == "." || StartsWithDots(rel) {
      return Ignore;
    }
    if c.kind == Directory {
      return if Slashes(rel) >= maxDepth then Ignore else Enter;
    }
    if !filter.Passes(q) {
      return Ignore;
    }
    match filter.stat(q)
    case TimedOut => return GiveUp;
    case Missing => return Ignore;
    case Sized(size) => return Report(FileSummary(rel, size));
  }

  method ScanForFiles(n: Node, p: Path, excluded: Path -> bool, filter: Filter, cancelled: Path -> bool,
                      maxDepth: int, limit: int, results0: seq<FileSummary>, stack0: seq<Found>)
    returns (results: seq<FileSummary>, stack: seq<Found>, ok: bool, ghost done: nat)
    requires Readable(Found(p, n)) && |results0| < limit
    requires forall f :: f in stack0 ==> Readable(f)
    ensures var r := FileRules(excluded, maxDepth, filter);
            && done <= |n.children| && |results| <= limit
            && results == results0 + MapAll(filter.Summary, Listed(r, n.children[..done], p))
            && (ok && |results| < limit ==> done == |n.children| && Progress(r, n.children, p, done, stack0, stack))
    ensures forall f :: f in stack ==> Readable(f)
    ensures StackSize(stack) <= StackSize(stack0) + SizeAll(n.children)
    ensures !ok ==> exists q :: cancelled(q) || filter.stat(q) == TimedOut
  {
    ghost var r := FileRules(excluded, maxDepth, filter);
    results, stack, ok, done := results0, stack0, true, 0;
    ScanStart(filter.Summary, r, n, p, results, stack);
    for i := 0 to |n.children|
      invariant done == i && |results| < limit
      invariant Scanned(filter.Summary, r, n, p, i, results0, results, stack0, stack)
      invariant forall f :: f in stack ==> Readable(f)
    {
      var c := n.children[i];
      var q := p + [c.name];
      if cancelled(q) {
        return results, stack, false, done;
      }
      ChildText(n, p, i);
      var verdict := InspectEntry(c, q, excluded, filter, maxDepth);
      if verdict == GiveUp {
        return results, stack, false, done;
      }
      ScanStep(filter.Summary, r, n, p, i, results0, results, stack0, stack);
      done := i + 1;
      if verdict == Enter {
        stack := stack + [Found(q, c)];
      }
      if verdict.Report? {
        results := results + [verdict.summary];
        if |results| >= limit {
          break;
        }
      }
    }
  }

  method SampleFilesBounded(root: Node, excluded: Path -> bool, filter: Filter, readFails: Path -> bool,
                            cancelled: Path -> bool, maxDepth: int, limit: nat)
    returns (results: seq<FileSummary>, ok: bool)
    requires root.kind == Directory && GoodTree(root)
    ensures var all := Enumeration(FileRules(excluded, maxDepth, filter), root, []);
            && results <= MapAll(filter.Summary, all)
            && |results| <= limit && |results| <= |all|
            && (ok ==> |results| == limit || |results| == |all|)
    ensures !ok ==> exists p :: readFails(p) || cancelled(p) || filter.stat(p) == TimedOut
  {
    results, ok := [], true;
    ghost var r := FileRules(excluded, maxDepth, filter);
    ghost var all := Enumeration(r, root, []);
    if limit == 0 {
      return;
    }
    var stack := [Found([], root)];
    assert stack[..0] == [] && all + [] == all;
    while |stack| > 0 && |results| < limit
      invariant forall f :: f in stack ==> Readable(f)
      invariant Complete(filter.Summary, results, Pending(r, stack), all, limit)
      decreases StackSize(stack)
    {
      var Found(p, n) := stack[|stack| - 1];
      var stack0 := stack[..|stack| - 1];
      if cancelled(p) || readFails(p) {
        return results, false;
      }
      ghost var results0 := results;
      ghost var done;
      results, stack, ok, done := ScanForFiles(n, p, excluded, filter, cancelled, maxDepth, limit, results, stack0);
      CompleteStep(filter.Summary, r, n, p, done, stack0, stack, results0, results, all, limit);
      if !ok {
        return;
      }
    }
  }

  lemma {:induction false} FileSampleByRules(excluded: Path -> bool, maxDepth: int, filter: Filter, root: Node, q: Path)
    requires root.kind == Directory
    ensures q in Enumeration(FileRules(excluded, maxDepth, filter), root, []) <==>
              && q != [] && (|q| == 1 || |q| - 1 <= maxDepth) && !StartsWithDots(q[0])
              && (forall k :: 0 < k <= |q| ==> !excluded(q[..k]))
              && filter.Wanted(q)
              && exists m :: Reaches(root, q, m) && m.kind != Directory
  {
    var r := FileRules(excluded, maxDepth, filter);
    EnumerationExactly(r, root, [], q);
    if q != [] {
      assert q[0..] == q && q[..|q|] == q;
      assert forall k :: 0 < k < |q| ==> q[..k][0] == q[0] && |q[..k]| == k;
      if Sampled(r, root, [], q) {
        var m :| Reaches(root, q[0..], m) && r.emits(m, q);
        assert forall k :: 0 < k < |q| ==> r.through(q[..k]) && !excluded(q[..k]);
        assert |q| > 1 ==> r.through(q[..|q| - 1]);
      }
    }
  }

  lemma WantedExactly(filter: Filter, q: Path)
    requires q != []
    ensures filter.Wanted(q) <==>
              && (filter.drops == [] || !filter.matchAny(filter.drops, q[|q| - 1], Rel(q)))
              && (filter.wants == [] || filter.matchAny(filter.wants, q[|q| - 1], Rel(q)))
              && filter.stat(q).Sized?
  {
  }

  /** The file sample, said without recursion. Files of the root are always in range; deeper ones
      lie at most `maxDepth` directories down. No drop pattern matches them, some want pattern does if
      there are any, and their stat succeeds. */
  lemma {:induction false} FileSampleExactly(excluded: Path -> bool, maxDepth: int, filter: Filter, root: Node, q: Path)
    requires root.kind == Directory
    ensures q in Enumeration(FileRules(excluded, maxDepth, filter), root, []) <==>
              && q != [] && (|q| == 1 || |q| - 1 <= maxDepth)
              && !(|q[0]| >= 2 && q[0][0] == '.' && q[0][1] == '.')
              && (forall k :: 0 < k <= |q| ==> !excluded(q[..k]))
              && (filter.drops == [] || !filter.matchAny(filter.drops, q[|q| - 1], Rel(q)))
              && (filter.wants == [] || filter.matchAny(filter.wants, q[|q| - 1], Rel(q)))
              && filter.stat(q).Sized?
              && exists m :: Reaches(root, q, m) && m.kind != Directory
  {
    FileSampleByRules(excluded, maxDepth, filter, root, q);
    if q != [] {
      WantedExactly(filter, q);
    }
  }

  /** Each reported file carries its relative path and the size its stat found. */
  lemma {:induction false} SummariesAreTrue(excluded: Path -> bool, maxDepth: int, filter: Filter, root: Node, i: nat)
    requires root.kind == Directory && i < |Enumeration(FileRules(excluded, maxDepth, filter), root, [])|
    ensures var all := Enumeration(FileRules(excluded, maxDepth, filter), root, []);
            var shown := MapAll(filter.Summary, all)[i];
            && shown.relativePath == Rel(all[i])
            && filter.stat(all[i]).Sized? && shown.sizeBytes == filter.stat(all[i]).size
  {
    var all := Enumeration(FileRules(excluded, maxDepth, filter), root, []);
    FileSampleExactly(excluded, maxDepth, filter, root, all[i]);
  }

  // ------------------------------------------------------------ reported texts are distinct

  lemma {:induction false} ReachedPathIsGood(n: Node, q: Path, m: Node)
    requires GoodTree(n) && Reaches(n, q, m)
    ensures GoodPath(q)
    decreases |q|
  {
    if q != [] {
      var i :| 0 <= i < |n.children| && n.children[i].name == q[0] && Reaches(n.children[i], q[1..], m);
      ReachedPathIsGood(n.children[i], q[1..], m);
      assert forall j :: 0 < j < |q| ==> q[j] == q[1..][j - 1];
    }
  }

  /** Any prefix of an enumeration yields pairwise different relative paths. */
  lemma {:induction false} SampleNoRepeats(r: Rules, root: Node, results: seq<string>)
    requires root.kind == Directory && GoodTree(root) && DistinctNames(root)
    requires results <= MapAll(Rel, Enumeration(r, root, []))
    ensures NoRepeats(results)
  {
    var all := Enumeration(r, root, []);
    EnumerationNoRepeats(r, root, []);
    forall i, j | 0 <= i < j < |results| ensures results[i] != results[j] {
      EnumerationExactly(r, root, [], all[i]);
      EnumerationExactly(r, root, [], all[j]);
      var m :| Reaches(root, all[i][0..], m) && r.emits(m, all[i]);
      var m' :| Reaches(root, all[j][0..], m') && r.emits(m', all[j]);
      assert all[i][0..] == all[i] && all[j][0..] == all[j];
      ReachedPathIsGood(root, all[i], m);
      ReachedPathIsGood(root, all[j], m');
      if results[i] == results[j] {
        RelInjective(all[i], all[j]);
      }
    }
  }

  /** The same for the file sampler, whose entries carry a size beside the relative path. */
  lemma {:induction false} FileSampleNoRepeats(excluded: Path -> bool, maxDepth: int, filter: Filter, root: Node,
                                               results: seq<FileSummary>)
    requires root.kind == Directory && GoodTree(root) && DistinctNames(root)
    requires results <= MapAll(filter.Summary, Enumeration(FileRules(excluded, maxDepth, filter), root, []))
    ensures forall i, j :: 0 <= i < j < |results| ==> results[i].relativePath != results[j].relativePath
  {
    var r := FileRules(excluded, maxDepth, filter);
    var all := Enumeration(r, root, []);
    var rels := MapAll(Rel, all)[..|results|];
    SampleNoRepeats(r, root, rels);
    assert forall i :: 0 <= i < |results| ==> results[i].relativePath == rels[i];
  }
}
