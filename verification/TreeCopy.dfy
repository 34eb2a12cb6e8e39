/** Copying a directory tree into the staging area: counters, pruning and the manifest. */
module TreeCopy {
  import opened SourceTree

  datatype Status = Collected | NotFound | Skipped | Failed

  /** What the copy step's own lstat finds. */
  datatype Restat = Same | Vanished | StatError

  /** What can happen at one path. */
  datatype Facts = Facts(
    cancelled: bool,        // the context is done when the walk gets here
    cancelledInCopy: bool,  // or when the copy of this file starts
    cancelledAfter: bool,   // or when it ends
    lstatFails: bool, readDirFails: bool,
    mkdirFails: bool,       // creating the destination directory
    restat: Restat,
    copyFails: bool,        // readlink, open, create, copy or symlink creation
    closeFails: bool)       // closing the source after a complete copy

  datatype Env = Env(w: Path -> Facts, excluded: Path -> bool, staging: Path -> bool, dryRun: bool, recording: bool)
  {
    /** Pruned subtrees: the staging workspace and what the patterns exclude. */
    function Pruned(): Path -> bool
    {
      (p: Path) => staging(p) || excluded(p)
    }
  }

  /** `misses` counts the files of the current walk that could not be collected. */
  datatype State = State(processed: nat, failed: nat, skipped: nat, manifest: map<Path, Status>, depth: nat,
                         done: bool, misses: nat)

  datatype Flow = Next | SkipDir | Abort

  function Record(s: State, e: Env, p: Path, status: Status): State
  {
    if e.recording && s.depth == 0 then s.(manifest := s.manifest[p := status]) else s
  }

  // ------------------------------------------------------------ one file

  /** Copying one file or symlink; the flag says whether the caller sees success. */
  function CopyFile(s0: State, kind: Kind, p: Path, e: Env): (State, bool)
  {
    var f := e.w(p);
    var s := s0.(done := s0.done || f.cancelledInCopy);
    if s.done then (s, false)
    else if e.staging(p) then (s, true)
    else if f.restat == StatError then (Record(s.(failed := s.failed + 1), e, p, Failed), false)
    else if f.restat == Vanished then (Record(s, e, p, NotFound), true)
    else if e.excluded(p) then (Record(s.(skipped := s.skipped + 1), e, p, Skipped), true)
    else if e.dryRun then (Record(s.(processed := s.processed + 1), e, p, Collected), true)
    else if kind != Symlink && kind != Regular then (Record(s, e, p, Skipped), true)
    else
      var t := s.(done := f.cancelledAfter);
      if f.copyFails then (Record(t.(failed := t.failed + 1), e, p, Failed), false)
      else if kind == Regular && f.closeFails then (Record(t.(processed := t.processed + 1), e, p, Failed), false)
      else (Record(t.(processed := t.processed + 1), e, p, Collected), true)
  }

  // ------------------------------------------------------------ the walk

  function Visit(s0: State, n: Node, p: Path, accessError: bool, e: Env): (State, Flow)
  {
    var s := s0.(done := s0.done || e.w(p).cancelled);
    if s.done || accessError then (s, Abort)
    else if e.staging(p) || e.excluded(p) then (s, if n.kind == Directory then SkipDir else Next)
    else if n.kind == Directory then (s, if e.w(p).mkdirFails then Abort else Next)
    else
      var (t, ok) := CopyFile(s, n.kind, p, e);
      if ok then (t, Next)
      else if t.done then (t, Abort)
      else (t.(misses := t.misses + 1), Next)
  }

  function Walk(s: State, n: Node, p: Path, e: Env): (State, Flow)
    decreases n, 1
  {
    if n.kind != Directory then Visit(s, n, p, false, e)
    else
      var (t, flow) := Visit(s, n, p, e.w(p).readDirFails, e);
      if e.w(p).readDirFails || flow != Next then (t, flow) else WalkAll(t, n.children, p, e)
  }

  function WalkChild(s: State, n: Node, p: Path, e: Env): (State, Flow)
    decreases n, 2
  {
    var (t, flow) := if e.w(p).lstatFails then Visit(s, n, p, true, e) else Walk(s, n, p, e);
    (t, if flow == SkipDir && (e.w(p).lstatFails || n.kind == Directory) then Next else flow)
  }

  function WalkAll(s: State, ns: seq<Node>, p: Path, e: Env): (State, Flow)
    decreases ns, 0
  {
    if ns == [] then (s, Next)
    else
      var (t, flow) := WalkChild(s, ns[0], p + [ns[0].name], e);
      if flow != Next then (t, flow) else WalkAll(t, ns[1..], p, e)
  }

  /** The whole directory copy. `found` is what a stat that follows links says about the source. */
  function CopyDir(s: State, root: Node, e: Env, found: bool, destFails: bool): (State, bool)
  {
    if s.done then (s, false)
    else if e.staging([]) then (s, true)
    else if e.excluded([]) then (Record(s.(skipped := s.skipped + 1), e, [], Skipped), true)
    else if !found then (Record(s, e, [], NotFound), true)
    else if e.dryRun then (Record(s, e, [], Collected), true)
    else
      var inside := s.(depth := s.depth + 1, misses := 0);
      var (t, flow) := if destFails then (inside, Abort) else WalkChild(inside, root, [], e);
      var u := t.(depth := s.depth, misses := s.misses);
      if flow == Abort then (Record(u, e, [], Failed), false)
      else (Record(u, e, [], if t.misses > 0 then Failed else Collected), true)
  }

  // ------------------------------------------------------------ conservation

  predicate Copyable(k: Kind)
  {
    k == Regular || k == Symlink
  }

  /** What an entry adds to the counters: a regular file or symlink counts unless it has vanished by
      the time it is copied; anything else only when its own stat fails. */
  function Share(x: Found, e: Env): nat
  {
    if x.node.kind == Directory then 0
    else if Copyable(x.node.kind) then (if e.w(x.path).restat == Vanished then 0 else 1)
    else if e.w(x.path).restat == StatError then 1 else 0
  }

  function Due(xs: seq<Found>, e: Env): nat
  {
    if xs == [] then 0 else Share(xs[0], e) + Due(xs[1..], e)
  }

  lemma {:induction false} DueAppend(xs: seq<Found>, ys: seq<Found>, e: Env)
    ensures Due(xs + ys, e) == Due(xs, e) + Due(ys, e)
  {
    if xs == [] {
      assert xs + ys == ys;
    } else {
      assert (xs + ys)[1..] == xs[1..] + ys;
      DueAppend(xs[1..], ys, e);
    }
  }

  /** Regular files and symlinks among the visible entries. */
  function Count(xs: seq<Found>): nat
  {
    if xs == [] then 0 else (if Copyable(xs[0].node.kind) then 1 else 0) + Count(xs[1..])
  }

  /** Nothing changes between the walk and the copy. */
  ghost predicate StableSource(e: Env)
  {
    forall p :: e.w(p).restat == Same
  }

  lemma {:induction false} StableDue(xs: seq<Found>, e: Env)
    requires StableSource(e)
    ensures Due(xs, e) == Count(xs)
  {
    if xs != [] {
      StableDue(xs[1..], e);
    }
  }

  ghost predicate ClosesSucceed(e: Env)
  {
    forall p :: !e.w(p).closeFails
  }

  /** From `s` to `t`, `count` files were accounted for as processed or failed. Every failure shows as
      a miss; a miss without a failure is a source that could not be closed. */
  ghost predicate Accounted(s: State, t: State, count: nat, e: Env)
  {
    && t.processed + t.failed == s.processed + s.failed + count
    && s.failed <= t.failed && t.failed - s.failed <= t.misses - s.misses
    && (ClosesSucceed(e) ==> t.failed - s.failed == t.misses - s.misses)
  }

  /** Inside a walk nothing touches depth or manifest. */
  predicate Quiet(s: State, t: State)
  {
    t.depth == s.depth && t.manifest == s.manifest
  }

  lemma VisitAccounts(s: State, n: Node, p: Path, accessError: bool, e: Env)
    requires s.depth > 0
    ensures var (t, flow) := Visit(s, n, p, accessError, e);
            && Quiet(s, t)
            && (flow == SkipDir ==> n.kind == Directory && e.Pruned()(p))
            && (flow != Abort && !e.dryRun ==>
                  !accessError && Accounted(s, t, if e.Pruned()(p) then 0 else Share(Found(p, n), e), e))
            && (flow == Next && n.kind == Directory ==> !e.Pruned()(p))
  {
  }

  /** What a stretch of the walk does: quiet on the manifest, and unless it aborted, exact on counts. */
  ghost predicate WalkClaim(s: State, t: State, flow: Flow, xs: seq<Found>, e: Env)
  {
    && Quiet(s, t)
    && (flow != Abort && !e.dryRun ==> Accounted(s, t, Due(xs, e), e))
  }

  lemma {:induction false} ClaimInSequence(s: State, t: State, u: State, flow: Flow, xs: seq<Found>, ys: seq<Found>,
                                           e: Env)
    requires WalkClaim(s, t, Next, xs, e) && WalkClaim(t, u, flow, ys, e)
    ensures WalkClaim(s, u, flow, xs + ys, e)
  {
    DueAppend(xs, ys, e);
  }

  lemma {:induction false} ChildClaim(s: State, n: Node, p: Path, e: Env)
    requires s.depth > 0
    ensures var (t, flow) := WalkChild(s, n, p, e);
            flow != SkipDir && WalkClaim(s, t, flow, Visible(n, p, e.Pruned()), e)
    decreases n, 2
  {
    VisitAccounts(s, n, p, true, e);
    WalkClaims(s, n, p, e);
  }

  lemma {:induction false} WalkClaims(s: State, n: Node, p: Path, e: Env)
    requires s.depth > 0
    ensures var (t, flow) := Walk(s, n, p, e);
            (flow == SkipDir ==> n.kind == Directory) && WalkClaim(s, t, flow, Visible(n, p, e.Pruned()), e)
    decreases n, 1
  {
    var (t, flow) := Visit(s, n, p, n.kind == Directory && e.w(p).readDirFails, e);
    VisitAccounts(s, n, p, n.kind == Directory && e.w(p).readDirFails, e);
    DueOne(n, p, e);
    if n.kind == Directory && flow == Next && !e.w(p).readDirFails {
      var (u, flow') := WalkAll(t, n.children, p, e);
      AllClaim(t, n.children, p, e);
      ClaimInSequence(s, t, u, flow', [Found(p, n)], VisibleIn(n.children, p, e.Pruned()), e);
    }
  }

  lemma DueOne(n: Node, p: Path, e: Env)
    ensures Due([Found(p, n)], e) == Share(Found(p, n), e) && Due([], e) == 0
    ensures [Found(p, n)] + [] == [Found(p, n)]
  {
  }

  lemma {:induction false} AllClaim(s: State, ns: seq<Node>, p: Path, e: Env)
    requires s.depth > 0
    ensures var (t, flow) := WalkAll(s, ns, p, e);
            flow != SkipDir && WalkClaim(s, t, flow, VisibleIn(ns, p, e.Pruned()), e)
    decreases ns, 0
  {
    if ns != [] {
      var q := p + [ns[0].name];
      var (t, flow) := WalkChild(s, ns[0], q, e);
      ChildClaim(s, ns[0], q, e);
      if flow == Next {
        var (u, flow') := WalkAll(t, ns[1..], p, e);
        AllClaim(t, ns[1..], p, e);
        ClaimInSequence(s, t, u, flow', Visible(ns[0], q, e.Pruned()), VisibleIn(ns[1..], p, e.Pruned()), e);
      }
    }
  }

  /** Whatever goes wrong, a directory copy that reports success has accounted for every regular file
      and symlink outside the pruned subtrees that had not vanished, and for every other entry whose stat
      failed, each exactly once, as processed or as failed, if and only if a stat that follows links found
      the source, or the source was pruned, or there was nothing to count. */
  lemma CopyConservesFiles(s: State, root: Node, e: Env, found: bool, destFails: bool)
    requires !e.dryRun
    ensures var (u, ok) := CopyDir(s, root, e, found, destFails);
            ok ==>
              (u.processed + u.failed == s.processed + s.failed + Due(Visible(root, [], e.Pruned()), e) <==>
               found || e.Pruned()([]) || Due(Visible(root, [], e.Pruned()), e) == 0)
  {
    var inside := s.(depth := s.depth + 1, misses := 0);
    ChildClaim(inside, root, [], e);
  }

  /** When nothing changes under the copy, these are exactly the regular files and symlinks there. */
  lemma StableCopyCountsFiles(s: State, root: Node, e: Env, found: bool, destFails: bool)
    requires !e.dryRun && StableSource(e)
    ensures var (u, ok) := CopyDir(s, root, e, found, destFails);
            ok ==>
              (u.processed + u.failed == s.processed + s.failed + Count(Visible(root, [], e.Pruned())) <==>
               found || e.Pruned()([]) || Count(Visible(root, [], e.Pruned())) == 0)
  {
    CopyConservesFiles(s, root, e, found, destFails);
    StableDue(Visible(root, [], e.Pruned()), e);
  }

  /** A source that is itself a dangling symlink is reported as not found, with success, and counted
      nowhere. */
  lemma {:induction false} DanglingRootIsNotCounted(s: State, root: Node, e: Env, destFails: bool)
    requires !s.done && !e.dryRun && !e.Pruned()([]) && root.kind == Symlink && e.w([]).restat != Vanished
    ensures Due(Visible(root, [], e.Pruned()), e) == 1
    ensures CopyDir(s, root, e, false, destFails) == (Record(s, e, [], NotFound), true)
  {
    DueOne(root, [], e);
    assert Visible(root, [], e.Pruned()) == [Found([], root)];
  }

  /** Depth and miss counter are restored; the manifest gains at most the entry of the directory
      itself, only at the outermost level, and "collected" only when every nested file was. */
  lemma CopyDirManifest(s: State, root: Node, e: Env, found: bool, destFails: bool)
    ensures var (u, ok) := CopyDir(s, root, e, found, destFails);
            && u.depth == s.depth && u.misses == s.misses
            && (!e.recording || s.depth > 0 ==> u.manifest == s.manifest)
            && (u.manifest == s.manifest || ([] in u.manifest && u.manifest == s.manifest[[] := u.manifest[[]]]))
            && (!ok && u.manifest != s.manifest ==> u.manifest == s.manifest[[] := Failed])
  {
    var inside := s.(depth := s.depth + 1, misses := 0);
    ChildClaim(inside, root, [], e);
  }

  /** A directory recorded as collected had every visible file that had not vanished processed and none
      failed, whatever else went wrong; when sources can be closed, a directory that was walked to the end
      is recorded as collected exactly when no file failed. */
  lemma CollectedMeansEverything(s: State, root: Node, e: Env, found: bool, destFails: bool)
    requires !e.dryRun && e.recording && s.depth == 0
    requires [] !in s.manifest
    ensures var (u, ok) := CopyDir(s, root, e, found, destFails);
            && ([] in u.manifest && u.manifest[[]] == Collected ==>
                  ok && u.failed == s.failed && u.processed == s.processed + Due(Visible(root, [], e.Pruned()), e))
            && (ok && found && !e.Pruned()([]) && ClosesSucceed(e) ==>
                  [] in u.manifest && (u.manifest[[]] == Collected <==> u.failed == s.failed))
  {
    var inside := s.(depth := s.depth + 1, misses := 0);
    ChildClaim(inside, root, [], e);
  }

  // ------------------------------------------------------------ what the manifest says

  /** Exactly the entry for `p` is set. */
  predicate OnlyEntry(s: State, u: State, p: Path)
  {
    p in u.manifest && u.manifest == s.manifest[p := u.manifest[p]]
  }

  /** A file copied on its own is recorded with its fate: failed exactly when the caller sees an error,
      collected exactly when it was processed without one, not found exactly when it had vanished, skipped
      exactly when a pattern excludes it or there is nothing to copy. */
  lemma FileIsRecorded(s: State, kind: Kind, p: Path, e: Env)
    requires s.depth == 0 && e.recording && !s.done && !e.w(p).cancelledInCopy && !e.staging(p)
    ensures var (u, ok) := CopyFile(s, kind, p, e);
            && OnlyEntry(s, u, p)
            && (u.manifest[p] == Failed <==> !ok)
            && (u.manifest[p] == Collected <==> ok && u.processed == s.processed + 1)
            && (u.manifest[p] == NotFound <==> e.w(p).restat == Vanished)
            && (u.manifest[p] == Skipped <==>
                  e.w(p).restat == Same && (e.excluded(p) || (!e.dryRun && kind != Regular && kind != Symlink)))
  {
  }

  /** A cancelled copy and one from inside the staging area touch nothing. */
  lemma FileIsLeftAlone(s: State, kind: Kind, p: Path, e: Env)
    requires s.done || e.w(p).cancelledInCopy || e.staging(p)
    ensures var (u, ok) := CopyFile(s, kind, p, e);
            && u == s.(done := s.done || e.w(p).cancelledInCopy)
            && (ok <==> !s.done && !e.w(p).cancelledInCopy)
  {
  }

  /** And its counters: an error is counted as failed unless only the close of a complete copy failed,
      which counts as processed; an exclusion counts as skipped. */
  lemma FileIsCounted(s: State, kind: Kind, p: Path, e: Env)
    requires !s.done && !e.w(p).cancelledInCopy && !e.staging(p)
    ensures var (u, ok) := CopyFile(s, kind, p, e);
            var f := e.w(p);
            && u.skipped == s.skipped + (if f.restat == Same && e.excluded(p) then 1 else 0)
            && u.failed == s.failed + (if !ok && !(u.processed == s.processed + 1) then 1 else 0)
            && (u.processed == s.processed || u.processed == s.processed + 1)
            && (!ok && u.processed == s.processed + 1 <==>
                  f.restat == Same && !e.excluded(p) && !e.dryRun && kind == Regular && !f.copyFails && f.closeFails)
            && (!ok <==>
                  || f.restat == StatError
                  || (f.restat == Same && !e.excluded(p) && !e.dryRun
                      && (((kind == Regular || kind == Symlink) && f.copyFails) || (kind == Regular && f.closeFails))))
  {
  }

  /** A directory copied on its own: skipped exactly when excluded, not found exactly when a stat that
      follows links finds nothing, failed whenever the caller sees an error; a dry run collects it and
      counts nothing. */
  lemma DirIsRecorded(s: State, root: Node, e: Env, found: bool, destFails: bool)
    requires s.depth == 0 && e.recording && !s.done && !e.staging([])
    ensures var (u, ok) := CopyDir(s, root, e, found, destFails);
            && OnlyEntry(s, u, [])
            && (u.manifest[[]] == Skipped <==> e.excluded([]))
            && (u.manifest[[]] == NotFound <==> !e.excluded([]) && !found)
            && (!ok ==> u.manifest[[]] == Failed)
            && (e.excluded([]) ==> u.skipped == s.skipped + 1)
            && (e.dryRun && found && !e.excluded([]) ==>
                  u.manifest[[]] == Collected && u.processed == s.processed && u.failed == s.failed)
  {
    var inside := s.(depth := s.depth + 1, misses := 0);
    ChildClaim(inside, root, [], e);
  }

  // ------------------------------------------------------------ the collector object

  class Collector {
    var processed: nat
    var failed: nat
    var skipped: nat
    var manifest: map<Path, Status>
    var depth: nat
    var done: bool
    var misses: nat
    const e: Env

    constructor (e: Env)
      ensures this.e == e && View() == State(0, 0, 0, map[], 0, false, 0)
    {
      this.e := e;
      processed, failed, skipped, manifest, depth, done, misses := 0, 0, 0, map[], 0, false, 0;
    }

    ghost function View(): State
      reads this
    {
      State(processed, failed, skipped, manifest, depth, done, misses)
    }

    method RecordSystemManifestEntry(p: Path, status: Status)
      modifies this`manifest
      ensures View() == Record(old(View()), e, p, status)
    {
      if !e.recording || depth != 0 {
        return;
      }
      manifest := manifest[p := status];
    }

    method SafeCopyFile(kind: Kind, p: Path) returns (ok: bool)
      modifies this
      ensures (View(), ok) == CopyFile(old(View()), kind, p, e)
    {
      var f := e.w(p);
      if f.cancelledInCopy {
        done := true;
      }
      if done {
        return false;
      }
      if e.staging(p) {
        return true;
      }
      if f.restat == StatError {
        failed := failed + 1;
        RecordSystemManifestEntry(p, Failed);
        return false;
      }
      if f.restat == Vanished {
        RecordSystemManifestEntry(p, NotFound);
        return true;
      }
      if e.excluded(p) {
        skipped := skipped + 1;
        RecordSystemManifestEntry(p, Skipped);
        return true;
      }
      if e.dryRun {
        processed := processed + 1;
        RecordSystemManifestEntry(p, Collected);
        return true;
      }
      if kind != Symlink && kind != Regular {
        RecordSystemManifestEntry(p, Skipped);
        return true;
      }
      ok := CopyContent(kind, p);
      RecordSystemManifestEntry(p, if ok then Collected else Failed);
    }

    /** The copy proper. A source that cannot be closed is reported although it was counted as processed. */
    method CopyContent(kind: Kind, p: Path) returns (ok: bool)
      modifies this`processed, this`failed, this`done
      ensures done == e.w(p).cancelledAfter
      ensures e.w(p).copyFails ==> !ok && failed == old(failed) + 1 && processed == old(processed)
      ensures !e.w(p).copyFails ==> failed == old(failed) && processed == old(processed) + 1
                                      && ok == !(kind == Regular && e.w(p).closeFails)
    {
      done := e.w(p).cancelledAfter;
      if e.w(p).copyFails {
        failed := failed + 1;
        return false;
      }
      processed := processed + 1;
      return !(kind == Regular && e.w(p).closeFails);
    }

    /** The walk callback. */
    method VisitEntry(n: Node, p: Path, accessError: bool) returns (flow: Flow)
      modifies this
      ensures (View(), flow) == Visit(old(View()), n, p, accessError, e)
    {
      if e.w(p).cancelled {
        done := true;
      }
      if done || accessError {
        return Abort;
      }
      if e.staging(p) || e.excluded(p) {
        return if n.kind == Directory then SkipDir else Next;
      }
      if n.kind == Directory {
        return if e.w(p).mkdirFails then Abort else Next;
      }
      var ok := SafeCopyFile(n.kind, p);
      if ok {
        return Next;
      }
      if done {
        return Abort;
      }
      misses := misses + 1;
      return Next;
    }

    method WalkTree(n: Node, p: Path) returns (flow: Flow)
      modifies this
      ensures (View(), flow) == WalkChild(old(View()), n, p, e)
      decreases n
    {
      if e.w(p).lstatFails {
        flow := VisitEntry(n, p, true);
        return if flow == SkipDir then Next else flow;
      }
      flow := VisitEntry(n, p, n.kind == Directory && e.w(p).readDirFails);
      if n.kind != Directory {
        return;
      }
      if flow == SkipDir {
        return Next;
      }
      if e.w(p).readDirFails || flow != Next {
        return;
      }
      ghost var entered := View();
      for i := 0 to |n.children|
        invariant WalkAll(View(), n.children[i..], p, e) == WalkAll(entered, n.children, p, e)
      {
        assert n.children[i..][1..] == n.children[i + 1..];
        flow := WalkTree(n.children[i], p + [n.children[i].name]);
        if flow != Next {
          return if flow == SkipDir then Next else flow;
        }
      }
      flow := Next;
    }

    method SafeCopyDir(root: Node, found: bool, destFails: bool) returns (ok: bool)
      modifies this
      ensures (View(), ok) == CopyDir(old(View()), root, e, found, destFails)
    {
      if done {
        return false;
      }
      if e.staging([]) {
        return true;
      }
      if e.excluded([]) {
        skipped := skipped + 1;
        RecordSystemManifestEntry([], Skipped);
        return true;
      }
      if !found {
        RecordSystemManifestEntry([], NotFound);
        return true;
      }
      if e.dryRun {
        RecordSystemManifestEntry([], Collected);
        return true;
      }
      var outerMisses, outerDepth := misses, depth;
      depth, misses := depth + 1, 0;
      var flow := Abort;
      if !destFails {
        flow := WalkTree(root, []);
      }
      var failedCount := misses;
      depth, misses := outerDepth, outerMisses;
      if flow == Abort {
        RecordSystemManifestEntry([], Failed);
        return false;
      }
      RecordSystemManifestEntry([], if failedCount > 0 then Failed else Collected);
      return true;
    }
  }
}
