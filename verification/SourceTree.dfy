/** The directory tree a walk sees, and what survives pruning excluded subtrees. */
module SourceTree {

  datatype Kind = Directory | Regular | Symlink | Socket | Special

  /** A directory entry as the walk's own lstat reports it; only directories are descended. */
  datatype Node = Node(name: string, kind: Kind, children: seq<Node>)

  /** Component names relative to the root of the walk. */
  type Path = seq<string>

  datatype Found = Found(path: Path, node: Node)

  /** Lexical walk order below and including `n`, leaving out every excluded subtree whole. */
  function Visible(n: Node, p: Path, excluded: Path -> bool): seq<Found>
    decreases n, 1
  {
    if excluded(p) then []
    else [Found(p, n)] + (if n.kind == Directory then VisibleIn(n.children, p, excluded) else [])
  }

  function VisibleIn(ns: seq<Node>, p: Path, excluded: Path -> bool): seq<Found>
    decreases ns, 0
  {
    if ns == [] then []
    else Visible(ns[0], p + [ns[0].name], excluded) + VisibleIn(ns[1..], p, excluded)
  }

  /** Following the names in `q` down from `n` can lead to `m`. */
  ghost predicate Reaches(n: Node, q: Path, m: Node)
    decreases |q|
  {
    if q == [] then n == m else n.kind == Directory && ReachesIn(n.children, q, m)
  }

  ghost predicate ReachesIn(ns: seq<Node>, q: Path, m: Node)
    requires q != []
    decreases |q|, 0
  {
    exists i :: 0 <= i < |ns| && ns[i].name == q[0] && Reaches(ns[i], q[1..], m)
  }

  /** Neither `q` nor any directory between `p` and `q` is excluded. */
  ghost predicate Clear(p: Path, q: Path, excluded: Path -> bool)
  {
    p <= q && forall k :: |p| <= k <= |q| ==> !excluded(q[..k])
  }

  /** The walk lists exactly the entries that exist and lie outside every excluded subtree. */
  lemma {:induction false} VisibleExactly(n: Node, p: Path, excluded: Path -> bool, q: Path, m: Node)
    ensures Found(q, m) in Visible(n, p, excluded) <==> Clear(p, q, excluded) && Reaches(n, q[|p|..], m)
    decreases n, 1
  {
    if excluded(p) {
      assert p <= q ==> q[..|p|] == p;
    } else {
      if n.kind == Directory {
        VisibleInExactly(n.children, p, excluded, q, m);
      }
      if q == p {
        assert q[|p|..] == [] && q[..|p|] == p;
        assert Clear(p, q, excluded);
      } else if p <= q {
        assert q[|p|..] != [];
        assert q[..|p|] == p;
      }
    }
  }

  lemma {:induction false} VisibleInExactly(ns: seq<Node>, p: Path, excluded: Path -> bool, q: Path, m: Node)
    ensures Found(q, m) in VisibleIn(ns, p, excluded) <==>
              p < q && (forall k :: |p| < k <= |q| ==> !excluded(q[..k])) && ReachesIn(ns, q[|p|..], m)
    decreases ns, 0
  {
    if ns != [] {
      var c := ns[0];
      var r := p + [c.name];
      VisibleExactly(c, r, excluded, q, m);
      VisibleInExactly(ns[1..], p, excluded, q, m);
      if p < q {
        var t := q[|p|..];
        assert r <= q <==> t[0] == c.name;
        assert t[1..] == q[|p| + 1..];
        ReachesFirstOrRest(ns, t, m);
      }
    }
  }

  lemma ReachesFirstOrRest(ns: seq<Node>, q: Path, m: Node)
    requires ns != [] && q != []
    ensures ReachesIn(ns, q, m) <==> (ns[0].name == q[0] && Reaches(ns[0], q[1..], m)) || ReachesIn(ns[1..], q, m)
  {
  }
}
