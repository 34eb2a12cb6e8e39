/** The tar stream: a member is announced by its header and owes exactly its size in bytes. */
module TarStream {
  import opened SourceTree

  type Bytes = seq<bv8>

  datatype Member = Member(path: Path, kind: Kind, size: nat, body: Bytes)

  /** A piece of file content as one read delivers it, and whether passing it on to the sink fails. */
  datatype Piece = Piece(data: Bytes, sinkFails: bool)

  datatype WriteResult = Written | TooLong | SinkError

  /** `owed` bytes of the last member are still to come; `broken` is the sticky sink error. */
  datatype Tar = Tar(members: seq<Member>, owed: nat, broken: bool)
  {
    predicate Ready() { !broken && owed == 0 }

    /** Finishing the previous member is a precondition of starting one; then the header is written. */
    function Header(m: Member, sinkFails: bool): (Tar, bool)
    {
      if !Ready() then (this, false)
      else if sinkFails then (Tar(members, 0, true), false)
      else (Tar(members + [m], if m.kind == Regular then m.size else 0, false), true)
    }

    /** Writes at most the owed bytes; anything beyond them is refused but leaves no sticky error. */
    function Body(p: Piece): (Tar, WriteResult)
    {
      var n := if |p.data| > owed then owed else |p.data|;
      if broken then (this, SinkError)
      else if n > 0 && p.sinkFails then (Tar(members, owed, true), SinkError)
      else (Tar(Extend(members, p.data[..n]), owed - n, false), if |p.data| > n then TooLong else Written)
    }

    /** Whether closing the stream succeeds. */
    predicate Closes(sinkFails: bool) { Ready() && !sinkFails }
  }

  /** Appends bytes to the body of the last member. */
  function Extend(members: seq<Member>, data: Bytes): seq<Member>
  {
    if members == [] then []
    else
      var last := members[|members| - 1];
      members[..|members| - 1] + [last.(body := last.body + data)]
  }

  class TarWriter {
    var members: seq<Member>
    var owed: nat
    var broken: bool

    constructor ()
      ensures View() == Tar([], 0, false)
    {
      members, owed, broken := [], 0, false;
    }

    ghost function View(): Tar
      reads this
    {
      Tar(members, owed, broken)
    }

    method WriteHeader(m: Member, sinkFails: bool) returns (ok: bool)
      modifies this
      ensures (View(), ok) == old(View()).Header(m, sinkFails)
    {
      if broken || owed > 0 {
        return false;
      }
      if sinkFails {
        broken := true;
        return false;
      }
      members := members + [m];
      owed := if m.kind == Regular then m.size else 0;
      return true;
    }

    method Write(p: Piece) returns (r: WriteResult)
      modifies this
      ensures (View(), r) == old(View()).Body(p)
    {
      if broken {
        return SinkError;
      }
      var overwrite := |p.data| > owed;
      var n := if overwrite then owed else |p.data|;
      if n > 0 && p.sinkFails {
        broken := true;
        return SinkError;
      }
      members := Extend(members, p.data[..n]);
      owed := owed - n;
      return if overwrite then TooLong else Written;
    }

    method Close(sinkFails: bool) returns (ok: bool)
      modifies this
      ensures ok <==> old(View()).Closes(sinkFails)
      ensures members == old(members)
    {
      ok := !broken && owed == 0 && !sinkFails;
      broken := true;
    }
  }
}

/** Adding a source tree to an archive so that success means nothing was lost. */
module Archiving {
  import opened SourceTree
  import opened TarStream
  import opened Sequences

  /** What the second lstat says about an entry when its header is built. */
  datatype Stat = Stat(kind: Kind, size: nat)

  /** Everything that can happen while one path is handled. */
  datatype Facts = Facts(
    cancelled: bool,          // the context is done when the walk reaches the path
    lstatFails: bool,         // the walk itself cannot stat the entry
    readDirFails: bool,       // the walk cannot list the directory
    restatFails: bool,        // the second lstat fails
    stat: Stat,
    readlinkFails: bool,
    headerFails: bool,
    headerSinkFails: bool,
    openFails: bool,
    pieces: seq<Piece>,       // the content, as successive reads deliver it
    readFails: bool)          // the read after the last piece fails

  type World = Path -> Facts

  datatype State = State(tar: Tar, skipped: seq<Path>, written: nat)

  datatype Flow = Next | SkipDir | Abort

  // ------------------------------------------------------------ one entry

  /** The header for `p`; special files carry no content and therefore no size. */
  function HeaderOf(p: Path, st: Stat): Member
  {
    Member(p, st.kind, if st.kind == Regular then st.size else 0, [])
  }

  /** Copying content stops at the first refused piece; only a clean end of input is success. */
  function CopyContent(t: Tar, pieces: seq<Piece>, readFails: bool): (Tar, bool)
    decreases |pieces|
  {
    if pieces == [] then (t, !readFails)
    else if pieces[0].data == [] then CopyContent(t, pieces[1..], readFails)
    else
      var (u, r) := t.Body(pieces[0]);
      if r == Written then CopyContent(u, pieces[1..], readFails) else (u, false)
  }

  function Skip(s: State, p: Path): (State, Flow)
  {
    (s.(skipped := s.skipped + [p]), Next)
  }

  /** The walk callback for `p`. `root` marks the top directory, which is not itself archived. */
  function Visit(s: State, p: Path, kind: Kind, accessError: bool, excluded: Path -> bool, w: World): (State, Flow)
  {
    var f := w(p);
    if f.cancelled then (s, Abort)
    else if accessError then Skip(s, p)
    else if p == [] then (s, Next)
    else if excluded(p) then (s, if kind == Directory then SkipDir else Next)
    else if f.restatFails then Skip(s, p)
    else if f.stat.kind == Symlink && f.readlinkFails then Skip(s, p)
    else if f.stat.kind == Socket || f.headerFails then Skip(s, p)
    else
      var (t, ok) := s.tar.Header(HeaderOf(p, f.stat), f.headerSinkFails);
      var u := s.(tar := t);
      if !ok then (u, Abort)
      else Fill(u.(written := u.written + 1), p, w)
  }

  /** The content step after a header has been written. */
  function Fill(s: State, p: Path, w: World): (State, Flow)
  {
    var f := w(p);
    if f.stat.kind != Regular || f.openFails then (s, Next)
    else
      var (t, ok) := CopyContent(s.tar, f.pieces, f.readFails);
      if ok then (s.(tar := t), Next) else Skip(s.(tar := t), p)
  }

  // ------------------------------------------------------------ the walk

  /** filepath.Walk below an entry that was stat'ed successfully. */
  function Walk(s: State, n: Node, p: Path, excluded: Path -> bool, w: World): (State, Flow)
    decreases n, 1
  {
    if n.kind != Directory then Visit(s, p, n.kind, false, excluded, w)
    else
      var (u, flow) := Visit(s, p, Directory, w(p).readDirFails, excluded, w);
      if w(p).readDirFails || flow != Next then (u, flow)
      else WalkAll(u, n.children, p, excluded, w)
  }

  /** One child: an unreadable one is reported to the callback, a pruned directory is passed over. */
  function WalkChild(s: State, n: Node, p: Path, excluded: Path -> bool, w: World): (State, Flow)
    decreases n, 2
  {
    var (u, flow) := if w(p).lstatFails then Visit(s, p, n.kind, true, excluded, w) else Walk(s, n, p, excluded, w);
    (u, if flow == SkipDir && (w(p).lstatFails || n.kind == Directory) then Next else flow)
  }

  function WalkAll(s: State, ns: seq<Node>, p: Path, excluded: Path -> bool, w: World): (State, Flow)
    decreases ns, 0
  {
    if ns == [] then (s, Next)
    else
      var (u, flow) := WalkChild(s, ns[0], p + [ns[0].name], excluded, w);
      if flow != Next then (u, flow) else WalkAll(u, ns[1..], p, excluded, w)
  }

  // ------------------------------------------------------------ what a faithful archive is

  function Content(pieces: seq<Piece>): Bytes
  {
    if pieces == [] then [] else pieces[0].data + Content(pieces[1..])
  }

  predicate Delivered(pieces: seq<Piece>)
  {
    forall i :: 0 <= i < |pieces| && pieces[i].sinkFails ==> pieces[i].data == []
  }

  /** Nothing goes wrong with the content of a regular file, and it is as long as announced. A
      file that cannot be opened loses nothing when it is empty. */
  predicate CleanContent(f: Facts)
  {
    if f.openFails then f.stat.size == 0
    else !f.readFails && Delivered(f.pieces) && |Content(f.pieces)| == f.stat.size
  }

  predicate CleanEntry(f: Facts)
  {
    && !f.restatFails && !f.headerFails && !f.headerSinkFails && f.stat.kind != Socket
    && (f.stat.kind == Symlink ==> !f.readlinkFails)
    && (f.stat.kind == Regular ==> CleanContent(f))
  }

  /** No fault anywhere the walk looks: pruned directories only have to be listable. */
  predicate Clean(n: Node, p: Path, excluded: Path -> bool, w: World)
    decreases n, 1
  {
    && !w(p).cancelled && !w(p).lstatFails
    && (n.kind == Directory ==> !w(p).readDirFails)
    && (p == [] || excluded(p) || CleanEntry(w(p)))
    && (n.kind == Directory && (p == [] || !excluded(p)) ==> CleanAll(n.children, p, excluded, w))
  }

  predicate CleanAll(ns: seq<Node>, p: Path, excluded: Path -> bool, w: World)
    decreases ns, 0
  {
    ns == [] || (Clean(ns[0], p + [ns[0].name], excluded, w) && CleanAll(ns[1..], p, excluded, w))
  }

  /** The member that stands for a source entry in a complete archive. */
  function Archived(x: Found, w: World): Member
  {
    var f := w(x.path);
    HeaderOf(x.path, f.stat).(body := if f.stat.kind == Regular && !f.openFails then Content(f.pieces) else [])
  }

  function ArchivedAll(xs: seq<Found>, w: World): (ms: seq<Member>)
  {
    if xs == [] then [] else [Archived(xs[0], w)] + ArchivedAll(xs[1..], w)
  }

  /** The step from `s` to `u` lost nothing: it went on, recorded no skip and owes no bytes. */
  predicate Lossless(s: State, u: State, flow: Flow)
  {
    flow != Abort && u.skipped == s.skipped && u.tar.Ready()
  }

  /** What every step keeps: skips accumulate, owed bytes and sink errors are never forgiven, and
      the entry counter follows the member list. */
  ghost predicate Follows(s: State, u: State)
  {
    && s.skipped <= u.skipped
    && (u.tar.Ready() ==> s.tar.Ready())
    && |u.tar.members| - u.written == |s.tar.members| - s.written
  }

  // ------------------------------------------------------------ lemmas, one entry

  lemma {:induction false} CopyKeeps(t: Tar, pieces: seq<Piece>, readFails: bool)
    ensures |CopyContent(t, pieces, readFails).0.members| == |t.members|
    ensures t.broken ==> CopyContent(t, pieces, readFails).0.broken
    decreases |pieces|
  {
    if pieces != [] {
      var (u, r) := t.Body(pieces[0]);
      if pieces[0].data == [] {
        CopyKeeps(t, pieces[1..], readFails);
      } else if r == Written {
        CopyKeeps(u, pieces[1..], readFails);
      }
    }
  }

  lemma {:induction false} CopyExactly(t: Tar, pieces: seq<Piece>, readFails: bool)
    requires !t.broken && t.members != []
    ensures var (u, ok) := CopyContent(t, pieces, readFails);
            ok && u.Ready() <==> !readFails && Delivered(pieces) && |Content(pieces)| == t.owed
    ensures var (u, ok) := CopyContent(t, pieces, readFails);
            ok && u.Ready() ==> u.members == Extend(t.members, Content(pieces))
    decreases |pieces|
  {
    var (u, ok) := CopyContent(t, pieces, readFails);
    if pieces == [] {
      ExtendTwice(t.members, [], []);
    } else {
      var p, rest := pieces[0], pieces[1..];
      assert Delivered(pieces) <==> (p.sinkFails ==> p.data == []) && Delivered(rest) by {
        assert forall i :: 0 <= i < |rest| ==> rest[i] == pieces[i + 1];
      }
      if p.data == [] {
        assert Content(pieces) == Content(rest);
        CopyExactly(t, rest, readFails);
      } else {
        var (v, r) := t.Body(p);
        if r == Written {
          assert p.data[..|p.data|] == p.data;
          CopyExactly(v, rest, readFails);
          ExtendTwice(t.members, p.data, Content(rest));
        }
      }
    }
  }

  lemma ExtendTwice(ms: seq<Member>, a: Bytes, b: Bytes)
    requires ms != []
    ensures Extend(Extend(ms, a), b) == Extend(ms, a + b)
    ensures Extend(ms, []) == ms
  {
    var last := ms[|ms| - 1];
    assert last.body + a + b == last.body + (a + b) && last.body + [] == last.body;
  }

  lemma VisitKeeps(s: State, p: Path, kind: Kind, accessError: bool, excluded: Path -> bool, w: World)
    ensures Follows(s, Visit(s, p, kind, accessError, excluded, w).0)
  {
    var f := w(p);
    var (t, ok) := s.tar.Header(HeaderOf(p, f.stat), f.headerSinkFails);
    if ok {
      CopyKeeps(t, f.pieces, f.readFails);
    }
  }

  /** An entry the callback accepts is lossless exactly when nothing is wrong with it. */
  lemma VisitExactly(s: State, p: Path, n: Node, excluded: Path -> bool, w: World)
    requires p != [] && !excluded(p) && !w(p).cancelled
    ensures var (u, flow) := Visit(s, p, n.kind, false, excluded, w);
            && (Lossless(s, u, flow) <==> s.tar.Ready() && CleanEntry(w(p)))
            && (Lossless(s, u, flow) ==> flow == Next && u.tar.members == s.tar.members + [Archived(Found(p, n), w)])
  {
    var f := w(p);
    var m := HeaderOf(p, f.stat);
    var (t, ok) := s.tar.Header(m, f.headerSinkFails);
    if ok && f.stat.kind == Regular && !f.openFails {
      CopyExactly(t, f.pieces, f.readFails);
    }
    if ok {
      var data := Content(f.pieces);
      assert [] + data == data;
      assert Extend(t.members, data) == s.tar.members + [m.(body := data)];
    }
  }

  // ------------------------------------------------------------ lemmas, the walk

  lemma {:induction false} WalkKeeps(s: State, n: Node, p: Path, excluded: Path -> bool, w: World)
    ensures Follows(s, Walk(s, n, p, excluded, w).0)
    decreases n, 1
  {
    VisitKeeps(s, p, n.kind, false, excluded, w);
    VisitKeeps(s, p, n.kind, true, excluded, w);
    if n.kind == Directory {
      var (u, flow) := Visit(s, p, Directory, w(p).readDirFails, excluded, w);
      if !w(p).readDirFails && flow == Next {
        WalkAllKeeps(u, n.children, p, excluded, w);
      }
    }
  }

  lemma {:induction false} WalkAllKeeps(s: State, ns: seq<Node>, p: Path, excluded: Path -> bool, w: World)
    ensures Follows(s, WalkAll(s, ns, p, excluded, w).0)
    decreases ns, 0
  {
    if ns != [] {
      WalkChildKeeps(s, ns[0], p + [ns[0].name], excluded, w);
      var (u, flow) := WalkChild(s, ns[0], p + [ns[0].name], excluded, w);
      if flow == Next {
        WalkAllKeeps(u, ns[1..], p, excluded, w);
      }
    }
  }

  lemma {:induction false} WalkChildKeeps(s: State, n: Node, p: Path, excluded: Path -> bool, w: World)
    ensures Follows(s, WalkChild(s, n, p, excluded, w).0)
    decreases n, 2
  {
    VisitKeeps(s, p, n.kind, true, excluded, w);
    WalkKeeps(s, n, p, excluded, w);
  }

  /** Going from `s` to `u` is lossless exactly when the stream was ready and `clean` holds, and
      then it appends precisely the members for `xs`. */
  ghost predicate Exact(s: State, u: State, flow: Flow, clean: bool, xs: seq<Found>, w: World)
  {
    && (Lossless(s, u, flow) <==> s.tar.Ready() && clean)
    && (Lossless(s, u, flow) ==> u.tar.members == s.tar.members + ArchivedAll(xs, w))
  }

  lemma {:induction false} ExactInSequence(s: State, u: State, v: State, flow: Flow, c: bool, d: bool,
                                           xs: seq<Found>, ys: seq<Found>, w: World)
    requires Follows(s, u) && Follows(u, v)
    requires Exact(s, u, Next, c, xs, w) && Exact(u, v, flow, d, ys, w)
    ensures Exact(s, v, flow, c && d, xs + ys, w)
  {
    LosslessInSequence(s, u, v, flow);
    if Lossless(s, v, flow) {
      MembersInSequence(s.tar.members, xs, ys, w);
    }
  }

  lemma {:induction false} MembersInSequence(ms: seq<Member>, xs: seq<Found>, ys: seq<Found>, w: World)
    ensures ms + ArchivedAll(xs, w) + ArchivedAll(ys, w) == ms + ArchivedAll(xs + ys, w)
  {
    ArchivedAppend(xs, ys, w);
    Associative(ms, ArchivedAll(xs, w), ArchivedAll(ys, w));
  }

  lemma {:induction false} LosslessInSequence(s: State, u: State, v: State, flow: Flow)
    requires Follows(s, u) && Follows(u, v)
    ensures Lossless(s, v, flow) <==> Lossless(s, u, Next) && Lossless(u, v, flow)
  {
  }

  lemma {:induction false} ChildExactly(s: State, n: Node, p: Path, excluded: Path -> bool, w: World)
    requires p != []
    ensures var (u, flow) := WalkChild(s, n, p, excluded, w);
            flow != SkipDir && Exact(s, u, flow, Clean(n, p, excluded, w), Visible(n, p, excluded), w)
    decreases n, 2
  {
    if !w(p).lstatFails {
      WalkExactly(s, n, p, excluded, w);
    }
  }

  lemma {:induction false} WalkExactly(s: State, n: Node, p: Path, excluded: Path -> bool, w: World)
    requires p != [] && !w(p).lstatFails
    ensures var (u, flow) := Walk(s, n, p, excluded, w);
            && (flow == SkipDir ==> n.kind == Directory)
            && Exact(s, u, flow, Clean(n, p, excluded, w), Visible(n, p, excluded), w)
    decreases n, 1
  {
    if excluded(p) || w(p).cancelled || (n.kind == Directory && w(p).readDirFails) {
      assert ArchivedAll([], w) == [];
    } else {
      var (u, flow) := Visit(s, p, n.kind, false, excluded, w);
      VisitExactly(s, p, n, excluded, w);
      assert ArchivedAll([Found(p, n)], w) == [Archived(Found(p, n), w)];
      assert Exact(s, u, flow, CleanEntry(w(p)), [Found(p, n)], w);
      if n.kind == Directory && flow == Next {
        var (v, flow') := WalkAll(u, n.children, p, excluded, w);
        VisitKeeps(s, p, n.kind, false, excluded, w);
        WalkAllKeeps(u, n.children, p, excluded, w);
        AllExactly(u, n.children, p, excluded, w);
        ExactInSequence(s, u, v, flow', CleanEntry(w(p)), CleanAll(n.children, p, excluded, w),
                        [Found(p, n)], VisibleIn(n.children, p, excluded), w);
      }
    }
  }

  lemma {:induction false} AllExactly(s: State, ns: seq<Node>, p: Path, excluded: Path -> bool, w: World)
    ensures var (u, flow) := WalkAll(s, ns, p, excluded, w);
            flow != SkipDir && Exact(s, u, flow, CleanAll(ns, p, excluded, w), VisibleIn(ns, p, excluded), w)
    decreases ns, 0
  {
    if ns != [] {
      var q := p + [ns[0].name];
      var (u, flow) := WalkChild(s, ns[0], q, excluded, w);
      ChildExactly(s, ns[0], q, excluded, w);
      if flow == Next {
        var (v, flow') := WalkAll(u, ns[1..], p, excluded, w);
        WalkChildKeeps(s, ns[0], q, excluded, w);
        WalkAllKeeps(u, ns[1..], p, excluded, w);
        AllExactly(u, ns[1..], p, excluded, w);
        ExactInSequence(s, u, v, flow', Clean(ns[0], q, excluded, w), CleanAll(ns[1..], p, excluded, w),
                        Visible(ns[0], q, excluded), VisibleIn(ns[1..], p, excluded), w);
      }
    }
  }

  lemma {:induction false} ArchivedAppend(xs: seq<Found>, ys: seq<Found>, w: World)
    ensures ArchivedAll(xs + ys, w) == ArchivedAll(xs, w) + ArchivedAll(ys, w)
  {
    if xs == [] {
      assert xs + ys == ys;
    } else {
      assert (xs + ys)[1..] == xs[1..] + ys;
      ArchivedAppend(xs[1..], ys, w);
      Associative([Archived(xs[0], w)], ArchivedAll(xs[1..], w), ArchivedAll(ys, w));
    }
  }

  // ------------------------------------------------------------ whole archives

  const EMPTY := State(Tar([], 0, false), [], 0)

  /** The state and verdict of writing one archive of `root`. */
  function Write(root: Node, excluded: Path -> bool, w: World, trailerFails: bool): (State, bool)
  {
    var (u, flow) := if w([]).lstatFails then Visit(EMPTY, [], root.kind, true, excluded, w)
                     else Walk(EMPTY, root, [], excluded, w);
    (u, flow != Abort && u.tar.Closes(trailerFails))
  }

  /** An archive is written without error and without skips if and only if no fault occurred
      anywhere; it then holds exactly the visible entries of the tree in walk order, and every
      regular member's body is as long as its header says. */
  lemma ArchiveIsComplete(root: Node, excluded: Path -> bool, w: World, trailerFails: bool)
    requires root.kind == Directory
    ensures var (u, ok) := Write(root, excluded, w, trailerFails);
            && (ok && u.skipped == [] <==> Clean(root, [], excluded, w) && !trailerFails)
            && u.written == |u.tar.members|
            && (ok && u.skipped == [] ==>
                  && u.tar.members == ArchivedAll(VisibleIn(root.children, [], excluded), w)
                  && (forall m :: m in u.tar.members && m.kind == Regular ==> |m.body| == m.size))
  {
    WalkKeeps(EMPTY, root, [], excluded, w);
    VisitKeeps(EMPTY, [], root.kind, true, excluded, w);
    var (u, ok) := Write(root, excluded, w, trailerFails);
    if !w([]).lstatFails && !w([]).cancelled && !w([]).readDirFails {
      var (_, flow) := WalkAll(EMPTY, root.children, [], excluded, w);
      AllExactly(EMPTY, root.children, [], excluded, w);
      if ok && u.skipped == [] {
        BodiesAreWhole(root.children, [], excluded, w);
        ArchivedMembers(VisibleIn(root.children, [], excluded), w);
      }
    }
  }

  lemma {:induction false} ArchivedMembers(xs: seq<Found>, w: World)
    ensures |ArchivedAll(xs, w)| == |xs|
    ensures forall i :: 0 <= i < |xs| ==> ArchivedAll(xs, w)[i] == Archived(xs[i], w)
  {
    if xs != [] {
      ArchivedMembers(xs[1..], w);
    }
  }

  /** What each member of a complete archive is, read off the source entry: stored under its own path
      and kind, with the whole content of a regular file and nothing else. */
  ghost predicate Stores(ms: seq<Member>, xs: seq<Found>, w: World)
  {
    && |ms| == |xs|
    && forall i :: 0 <= i < |xs| ==>
         var f := w(xs[i].path);
         && ms[i].path == xs[i].path && ms[i].kind == f.stat.kind
         && ms[i].size == (if f.stat.kind == Regular then f.stat.size else 0)
         && ms[i].body == (if f.stat.kind == Regular && !f.openFails then Content(f.pieces) else [])
  }

  lemma ArchivedStores(xs: seq<Found>, w: World)
    ensures Stores(ArchivedAll(xs, w), xs, w)
  {
    ArchivedMembers(xs, w);
  }

  /** A complete archive stores every visible entry, in walk order, under its own path. */
  lemma MembersAreTheEntries(root: Node, excluded: Path -> bool, w: World, trailerFails: bool)
    requires root.kind == Directory
    ensures var (u, ok) := Write(root, excluded, w, trailerFails);
            ok && u.skipped == [] ==> Stores(u.tar.members, VisibleIn(root.children, [], excluded), w)
  {
    ArchiveIsComplete(root, excluded, w, trailerFails);
    ArchivedStores(VisibleIn(root.children, [], excluded), w);
  }

  // ------------------------------------------------------------ what a skip means

  /** Something about the path itself that can cost it its place in the archive. */
  predicate Trouble(f: Facts)
  {
    || f.lstatFails || f.readDirFails || f.restatFails || f.headerFails
    || f.stat.kind == Socket || (f.stat.kind == Symlink && f.readlinkFails)
    || (f.stat.kind == Regular && !f.openFails
        && (f.readFails || !Delivered(f.pieces) || |Content(f.pieces)| > f.stat.size))
  }

  lemma {:induction false} CopyRefused(t: Tar, pieces: seq<Piece>, readFails: bool)
    requires !t.broken && !CopyContent(t, pieces, readFails).1
    ensures readFails || !Delivered(pieces) || |Content(pieces)| > t.owed
    decreases |pieces|
  {
    if pieces != [] {
      var rest := pieces[1..];
      assert Delivered(pieces) ==> Delivered(rest) by {
        assert forall i :: 0 <= i < |rest| ==> rest[i] == pieces[i + 1];
      }
      if pieces[0].data == [] {
        CopyRefused(t, rest, readFails);
      } else if t.Body(pieces[0]).1 == Written {
        CopyRefused(t.Body(pieces[0]).0, rest, readFails);
      }
    }
  }

  /** What `u` skips beyond `s` are paths with trouble of their own. */
  ghost predicate SkipsTrouble(s: State, u: State, w: World)
  {
    && s.skipped <= u.skipped
    && forall i :: |s.skipped| <= i < |u.skipped| ==> Trouble(w(u.skipped[i]))
  }

  lemma {:induction false} VisitSkips(s: State, p: Path, kind: Kind, accessError: bool, excluded: Path -> bool,
                                      w: World)
    requires accessError ==> w(p).lstatFails || w(p).readDirFails
    ensures SkipsTrouble(s, Visit(s, p, kind, accessError, excluded, w).0, w)
  {
    var f := w(p);
    var (t, ok) := s.tar.Header(HeaderOf(p, f.stat), f.headerSinkFails);
    if ok && f.stat.kind == Regular && !f.openFails && !CopyContent(t, f.pieces, f.readFails).1 {
      CopyRefused(t, f.pieces, f.readFails);
    }
  }

  lemma {:induction false} WalkSkips(s: State, n: Node, p: Path, excluded: Path -> bool, w: World)
    ensures SkipsTrouble(s, Walk(s, n, p, excluded, w).0, w)
    decreases n, 1
  {
    VisitSkips(s, p, n.kind, n.kind == Directory && w(p).readDirFails, excluded, w);
    if n.kind == Directory {
      var (u, flow) := Visit(s, p, Directory, w(p).readDirFails, excluded, w);
      if !w(p).readDirFails && flow == Next {
        WalkAllSkips(u, n.children, p, excluded, w);
      }
    }
  }

  lemma {:induction false} WalkAllSkips(s: State, ns: seq<Node>, p: Path, excluded: Path -> bool, w: World)
    ensures SkipsTrouble(s, WalkAll(s, ns, p, excluded, w).0, w)
    decreases ns, 0
  {
    if ns != [] {
      var q := p + [ns[0].name];
      var (u, flow) := WalkChild(s, ns[0], q, excluded, w);
      if w(q).lstatFails {
        VisitSkips(s, q, ns[0].kind, true, excluded, w);
      } else {
        WalkSkips(s, ns[0], q, excluded, w);
      }
      if flow == Next {
        WalkAllSkips(u, ns[1..], p, excluded, w);
      }
    }
  }

  /** Every path an incomplete archive names as skipped had trouble of its own. */
  lemma {:induction false} SkippedHadTrouble(root: Node, excluded: Path -> bool, w: World, trailerFails: bool)
    ensures forall p :: p in Write(root, excluded, w, trailerFails).0.skipped ==> Trouble(w(p))
  {
    if w([]).lstatFails {
      VisitSkips(EMPTY, [], root.kind, true, excluded, w);
    } else {
      WalkSkips(EMPTY, root, [], excluded, w);
    }
  }

  lemma {:induction false} BodiesAreWhole(ns: seq<Node>, p: Path, excluded: Path -> bool, w: World)
    requires CleanAll(ns, p, excluded, w)
    ensures forall x :: x in VisibleIn(ns, p, excluded) && w(x.path).stat.kind == Regular ==>
              |Archived(x, w).body| == w(x.path).stat.size
    decreases ns
  {
    if ns != [] {
      var q := p + [ns[0].name];
      if ns[0].kind == Directory && !excluded(q) {
        BodiesAreWhole(ns[0].children, q, excluded, w);
      }
      BodiesAreWhole(ns[1..], p, excluded, w);
    }
  }

  // ------------------------------------------------------------ the archiver object

  datatype Outcome = Done | Incomplete(skipped: seq<Path>) | Failed

  class Archiver {
    var skipped: seq<Path>
    var entriesWritten: nat
    var contentVerify: bool
    const excluded: Path -> bool
    const dryRun: bool
    const encrypted: bool

    constructor (excluded: Path -> bool, dryRun: bool, encrypted: bool)
      ensures this.excluded == excluded && this.dryRun == dryRun && this.encrypted == encrypted
      ensures skipped == [] && entriesWritten == 0 && !contentVerify
    {
      this.excluded, this.dryRun, this.encrypted := excluded, dryRun, encrypted;
      skipped, entriesWritten, contentVerify := [], 0, false;
    }

    ghost function StateWith(tw: TarWriter): State
      reads this, tw
    {
      State(tw.View(), skipped, entriesWritten)
    }

    method ResetArchiveState()
      modifies this
      ensures skipped == [] && entriesWritten == 0 && !contentVerify
    {
      skipped, entriesWritten, contentVerify := [], 0, false;
    }

    method CopyInto(tw: TarWriter, pieces: seq<Piece>, readFails: bool) returns (ok: bool)
      modifies tw
      ensures (tw.View(), ok) == CopyContent(old(tw.View()), pieces, readFails)
    {
      for i := 0 to |pieces|
        invariant CopyContent(tw.View(), pieces[i..], readFails) == CopyContent(old(tw.View()), pieces, readFails)
      {
        assert pieces[i..][1..] == pieces[i + 1..];
        if pieces[i].data != [] {
          var r := tw.Write(pieces[i]);
          if r != Written {
            return false;
          }
        }
      }
      return !readFails;
    }

    /** The walk callback. */
    method AddEntry(tw: TarWriter, p: Path, kind: Kind, accessError: bool, w: World) returns (flow: Flow)
      modifies this`skipped, this`entriesWritten, tw
      ensures (StateWith(tw), flow) == Visit(old(StateWith(tw)), p, kind, accessError, excluded, w)
    {
      var f := w(p);
      if f.cancelled {
        return Abort;
      }
      if accessError {
        skipped := skipped + [p];
        return Next;
      }
      if p == [] {
        return Next;
      }
      if excluded(p) {
        return if kind == Directory then SkipDir else Next;
      }
      if f.restatFails || (f.stat.kind == Symlink && f.readlinkFails) || f.stat.kind == Socket || f.headerFails {
        skipped := skipped + [p];
        return Next;
      }
      var ok := tw.WriteHeader(HeaderOf(p, f.stat), f.headerSinkFails);
      if !ok {
        return Abort;
      }
      entriesWritten := entriesWritten + 1;
      if f.stat.kind == Regular && !f.openFails {
        ok := CopyInto(tw, f.pieces, f.readFails);
        if !ok {
          skipped := skipped + [p];
        }
      }
      return Next;
    }

    method WalkTree(tw: TarWriter, n: Node, p: Path, w: World) returns (flow: Flow)
      modifies this`skipped, this`entriesWritten, tw
      ensures (StateWith(tw), flow) == Walk(old(StateWith(tw)), n, p, excluded, w)
      decreases n
    {
      if n.kind != Directory {
        flow := AddEntry(tw, p, n.kind, false, w);
        return;
      }
      flow := AddEntry(tw, p, Directory, w(p).readDirFails, w);
      if w(p).readDirFails || flow != Next {
        return;
      }
      ghost var entered := StateWith(tw);
      for i := 0 to |n.children|
        invariant WalkAll(StateWith(tw), n.children[i..], p, excluded, w)
               == WalkAll(entered, n.children, p, excluded, w)
      {
        var c := n.children[i];
        var q := p + [c.name];
        assert n.children[i..][1..] == n.children[i + 1..];
        if w(q).lstatFails {
          flow := AddEntry(tw, q, c.kind, true, w);
          if flow == SkipDir {
            flow := Next;
          }
        } else {
          flow := WalkTree(tw, c, q, w);
          if flow == SkipDir && c.kind == Directory {
            flow := Next;
          }
        }
        if flow != Next {
          return;
        }
      }
      flow := Next;
    }

    /** Success means nothing was lost: the archive holds exactly the visible tree, and any fault
        that could have lost an entry or a byte shows in the outcome. */
    method CreateArchive(root: Node, w: World, outputFails: bool, rootFails: bool, trailerFails: bool,
                         compressorFails: bool)
      returns (r: Outcome, tw: TarWriter)
      requires root.kind == Directory
      modifies this
      ensures fresh(tw)
      ensures dryRun ==> r == Done && tw.members == []
      ensures !dryRun ==> (r == Done <==> !outputFails && !rootFails && !trailerFails && !compressorFails
                                            && Clean(root, [], excluded, w))
      ensures !dryRun && r == Done ==>
                && Stores(tw.members, VisibleIn(root.children, [], excluded), w)
                && (forall m :: m in tw.members && m.kind == Regular ==> |m.body| == m.size)
                && contentVerify && skipped == []
      ensures !dryRun && !outputFails ==> entriesWritten == |tw.members| && (contentVerify <==> r != Failed)
      ensures !dryRun && (outputFails || rootFails || compressorFails) ==> r == Failed
      ensures !dryRun && !outputFails && !rootFails && !compressorFails ==>
                var (u, ok) := Write(root, excluded, w, trailerFails);
                r == if !ok then Failed else if u.skipped == [] then Done else Incomplete(u.skipped)
      ensures r.Incomplete? ==> forall p :: p in r.skipped ==> Trouble(w(p))
    {
      tw := new TarWriter();
      if dryRun {
        return Done, tw;
      }
      if outputFails {
        return Failed, tw;
      }
      ResetArchiveState();
      ArchiveIsComplete(root, excluded, w, trailerFails);
      MembersAreTheEntries(root, excluded, w, trailerFails);
      SkippedHadTrouble(root, excluded, w, trailerFails);
      var flow := Abort;
      if !rootFails {
        assert StateWith(tw) == EMPTY;
        if w([]).lstatFails {
          flow := AddEntry(tw, [], root.kind, true, w);
        } else {
          flow := WalkTree(tw, root, [], w);
        }
      }
      var closed := tw.Close(trailerFails);
      if flow == Abort || !closed || compressorFails {
        return Failed, tw;
      }
      contentVerify := true;
      return if skipped == [] then Done else Incomplete(skipped), tw;
    }

    /** Only a listing shorter than what was written is treated as loss. */
    method ReconcileEntryCount(listed: nat) returns (ok: bool)
      ensures ok <==> !contentVerify || encrypted || listed >= entriesWritten
    {
      if !contentVerify || encrypted {
        return true;
      }
      return listed >= entriesWritten;
    }

    /** Verifies an archive from the output of the listing command, in whatever chunks it arrives. */
    method VerifyListing(chunks: seq<string>, commandFails: bool) returns (ok: bool)
      ensures ok <==> !commandFails && (!contentVerify || encrypted || Newlines(Joined(chunks)) >= entriesWritten)
    {
      var counter := new LineCountWriter();
      for i := 0 to |chunks|
        invariant counter.lines == Newlines(Joined(chunks[..i]))
        invariant fresh(counter)
      {
        counter.Write(chunks[i]);
        assert chunks[..i + 1] == chunks[..i] + [chunks[i]];
        JoinedAppend(chunks[..i], chunks[i]);
        NewlinesAppend(Joined(chunks[..i]), chunks[i]);
      }
      assert chunks[..|chunks|] == chunks;
      if commandFails {
        return false;
      }
      ok := ReconcileEntryCount(counter.lines);
    }
  }

  // ------------------------------------------------------------ reconciling the listing

  class LineCountWriter {
    var lines: nat

    constructor ()
      ensures lines == 0
    {
      lines := 0;
    }

    method Write(p: string)
      modifies this
      ensures lines == old(lines) + Newlines(p)
    {
      for i := 0 to |p|
        invariant lines == old(lines) + Newlines(p[..i])
      {
        assert p[..i + 1] == p[..i] + [p[i]];
        NewlinesAppend(p[..i], [p[i]]);
        if p[i] == '\n' {
          lines := lines + 1;
        }
      }
      assert p[..|p|] == p;
    }
  }

  function Newlines(s: string): nat
  {
    if s == "" then 0 else (if s[0] == '\n' then 1 else 0) + Newlines(s[1..])
  }

  function Joined(chunks: seq<string>): string
  {
    if chunks == [] then "" else chunks[0] + Joined(chunks[1..])
  }

  /** What the listing command prints: one name and a line break per member. */
  function Listing(names: seq<string>): string
  {
    if names == [] then "" else names[0] + "\n" + Listing(names[1..])
  }

  lemma {:induction false} NewlinesAppend(a: string, b: string)
    ensures Newlines(a + b) == Newlines(a) + Newlines(b)
  {
    if a == "" {
      assert a + b == b;
    } else {
      assert (a + b)[1..] == a[1..] + b;
      NewlinesAppend(a[1..], b);
    }
  }

  lemma {:induction false} JoinedAppend(chunks: seq<string>, c: string)
    ensures Joined(chunks + [c]) == Joined(chunks) + c
  {
    if chunks == [] {
      assert chunks + [c] == [c] && [c][1..] == [];
    } else {
      assert (chunks + [c])[1..] == chunks[1..] + [c];
      JoinedAppend(chunks[1..], c);
    }
  }

  lemma {:induction false} NoNewlines(s: string)
    ensures '\n' !in s <==> Newlines(s) == 0
  {
    if s != "" {
      NoNewlines(s[1..]);
    }
  }

  lemma {:induction false} ListingLines(names: seq<string>)
    ensures Newlines(Listing(names)) >= |names|
    ensures (forall n :: n in names ==> '\n' !in n) <==> Newlines(Listing(names)) == |names|
  {
    if names != [] {
      var n, rest := names[0], names[1..];
      NewlinesAppend(n + "\n", Listing(rest));
      NewlinesAppend(n, "\n");
      assert "\n"[1..] == "" && Newlines("\n") == 1;
      NoNewlines(n);
      ListingLines(rest);
      assert forall m :: m in names <==> m == n || m in rest;
    }
  }

  /** Reconciliation, for any way the listing is cut into chunks: listing every written member is
      accepted, even when names contain line breaks; missing one is rejected when names do not. */
  lemma ReconciliationIsSound(written: nat, listed: seq<string>, chunks: seq<string>)
    requires Joined(chunks) == Listing(listed)
    ensures |listed| >= written ==> Newlines(Joined(chunks)) >= written
    ensures |listed| < written && (forall n :: n in listed ==> '\n' !in n) ==> Newlines(Joined(chunks)) < written
  {
    ListingLines(listed);
  }
}
