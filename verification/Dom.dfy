/** Parsed HTML trees and the traversals the extractor makes over them. */
module Dom {

  /** html.NodeType: only elements and text matter to the walks; Other is a document, doctype or comment. */
  datatype Kind = Element | Characters | Other

  /** html.Node: data is the tag of an element and the characters of a text node. */
  datatype Node = Node(kind: Kind, data: string, kids: seq<Node>)

  const SKIP_TAGS: set<string> :=
    {"script", "style", "nav", "header", "footer", "aside", "form", "noscript", "svg", "iframe", "button"}

  const PARAGRAPH_TAGS: set<string> := {"p", "h1", "h2", "h3", "li", "blockquote"}

  predicate IsElement(n: Node, tag: string) {
    n.kind == Element && n.data == tag
  }

  predicate Skipped(n: Node) {
    n.kind == Element && n.data in SKIP_TAGS
  }

  predicate StartsParagraph(n: Node) {
    n.kind == Element && n.data in PARAGRAPH_TAGS
  }

  /** How far a walk goes: into everything, not into skipped elements, or (when scoring) not into links either. */
  datatype Mode = Everything | Visible | Scoring

  /** The nodes a walk of the given mode visits, in the order it visits them. */
  function Preorder(n: Node, m: Mode): seq<Node>
    decreases n, 1
  {
    if m != Everything && Skipped(n) then []
    else if m == Scoring && IsElement(n, "a") then [n]
    else [n] + PreorderAll(n.kids, m)
  }

  function PreorderAll(ns: seq<Node>, m: Mode): seq<Node>
    decreases ns, 0
  {
    if ns == [] then []
    else PreorderAll(ns[..|ns| - 1], m) + Preorder(ns[|ns| - 1], m)
  }

  function Fold<S>(f: (S, Node) -> S, s: S, ns: seq<Node>): S {
    if ns == [] then s else f(Fold(f, s, ns[..|ns| - 1]), ns[|ns| - 1])
  }

  lemma {:induction false} FoldAppend<S>(f: (S, Node) -> S, s: S, a: seq<Node>, b: seq<Node>)
    ensures Fold(f, s, a + b) == Fold(f, Fold(f, s, a), b)
  {
    if b == [] {
      assert a + b == a;
    } else {
      var m := |b| - 1;
      assert (a + b)[..|a + b| - 1] == a + b[..m];
      FoldAppend(f, s, a, b[..m]);
    }
  }

  lemma FoldOne<S>(f: (S, Node) -> S, s: S, n: Node)
    ensures Fold(f, s, [n]) == f(s, n)
  {
    assert [n][..0] == [];
    assert Fold(f, s, []) == s;
  }

  /** A walk that enters n: the step at n first, then its children. */
  lemma FoldEnter<S>(f: (S, Node) -> S, s: S, n: Node, m: Mode)
    requires m != Everything ==> !Skipped(n)
    requires m == Scoring ==> !IsElement(n, "a")
    ensures Fold(f, s, Preorder(n, m)) == Fold(f, f(s, n), PreorderAll(n.kids, m))
  {
    FoldAppend(f, s, [n], PreorderAll(n.kids, m));
    FoldOne(f, s, n);
  }

  /** One more child walked. */
  lemma FoldNextKid<S>(f: (S, Node) -> S, s: S, kids: seq<Node>, i: nat, m: Mode)
    requires i < |kids|
    ensures Fold(f, s, PreorderAll(kids[..i + 1], m))
         == Fold(f, Fold(f, s, PreorderAll(kids[..i], m)), Preorder(kids[i], m))
  {
    assert kids[..i + 1][..i] == kids[..i];
    FoldAppend(f, s, PreorderAll(kids[..i], m), Preorder(kids[i], m));
  }

  // ---- Trees with a div put around articles ---------------------------------------------

  predicate SameLabel(t: Node, w: Node) {
    t.kind == w.kind && t.data == w.data
  }

  /** w is t after any number of `article` elements, anywhere in t, got a `div` directly around them. */
  predicate Wrapped(t: Node, w: Node)
    decreases w
  {
    || (SameLabel(t, w) && |t.kids| == |w.kids| && forall i :: 0 <= i < |w.kids| ==> Wrapped(t.kids[i], w.kids[i]))
    || (IsElement(t, "article") && IsElement(w, "div") && |w.kids| == 1 && Wrapped(t, w.kids[0]))
  }

  lemma {:induction false} WrappedReflexive(t: Node)
    ensures Wrapped(t, t)
  {
    forall i | 0 <= i < |t.kids| ensures Wrapped(t.kids[i], t.kids[i]) {
      WrappedReflexive(t.kids[i]);
    }
  }

  /** The node reached by child positions, and the tree with a div put around that node. */
  predicate Reaches(n: Node, path: seq<nat>) {
    path != [] ==> path[0] < |n.kids| && Reaches(n.kids[path[0]], path[1..])
  }

  function At(n: Node, path: seq<nat>): Node
    requires Reaches(n, path)
  {
    if path == [] then n else At(n.kids[path[0]], path[1..])
  }

  function InsertDiv(n: Node, path: seq<nat>): Node
    requires Reaches(n, path)
  {
    if path == [] then Node(Element, "div", [n])
    else n.(kids := n.kids[path[0] := InsertDiv(n.kids[path[0]], path[1..])])
  }

  lemma {:induction false} InsertDivWraps(n: Node, path: seq<nat>)
    requires Reaches(n, path) && IsElement(At(n, path), "article")
    ensures Wrapped(n, InsertDiv(n, path))
  {
    if path == [] {
      WrappedReflexive(n);
    } else {
      var w := InsertDiv(n, path);
      forall i | 0 <= i < |n.kids| ensures Wrapped(n.kids[i], w.kids[i]) {
        if i == path[0] {
          InsertDivWraps(n.kids[i], path[1..]);
        } else {
          WrappedReflexive(n.kids[i]);
        }
      }
    }
  }

  /** A walk of the given mode gets down the path: it enters no skipped element, or, when scoring, nothing below
      a link. */
  predicate ClearPath(n: Node, path: seq<nat>, m: Mode)
    requires Reaches(n, path)
  {
    && (m != Everything ==> !Skipped(n))
    && (path != [] ==> !(m == Scoring && IsElement(n, "a")) && ClearPath(n.kids[path[0]], path[1..], m))
  }

  lemma {:induction false} InPreorderAll(ns: seq<Node>, x: Node, m: Mode)
    ensures x in PreorderAll(ns, m) <==> exists i :: 0 <= i < |ns| && x in Preorder(ns[i], m)
  {
    if ns != [] {
      InPreorderAll(ns[..|ns| - 1], x, m);
    }
  }

  lemma {:induction false} VisitedHasPath(n: Node, x: Node, m: Mode) returns (path: seq<nat>)
    requires x in Preorder(n, m)
    ensures Reaches(n, path) && At(n, path) == x && ClearPath(n, path, m)
  {
    if x == n {
      path := [];
    } else {
      assert x in [n] + PreorderAll(n.kids, m);
      InPreorderAll(n.kids, x, m);
      var i: nat :| i < |n.kids| && x in Preorder(n.kids[i], m);
      var rest := VisitedHasPath(n.kids[i], x, m);
      path := [i] + rest;
      assert path[1..] == rest;
    }
  }

  lemma {:induction false} ClearPathVisited(n: Node, path: seq<nat>, m: Mode)
    requires Reaches(n, path) && ClearPath(n, path, m)
    ensures At(n, path) in Preorder(n, m)
  {
    assert n in [n] + PreorderAll(n.kids, m);
    if path != [] {
      ClearPathVisited(n.kids[path[0]], path[1..], m);
      InPreorderAll(n.kids, At(n, path), m);
      assert At(n, path) in [n] + PreorderAll(n.kids, m);
    }
  }

  /** A walk visits a node exactly when a path that it gets down leads to it. */
  lemma VisitedIffClearPath(n: Node, x: Node, m: Mode)
    ensures x in Preorder(n, m)
       <==> exists path: seq<nat> :: Reaches(n, path) && At(n, path) == x && ClearPath(n, path, m)
  {
    if x in Preorder(n, m) {
      var path := VisitedHasPath(n, x, m);
      assert Reaches(n, path) && At(n, path) == x && ClearPath(n, path, m);
    }
    forall path: seq<nat> | Reaches(n, path) && At(n, path) == x && ClearPath(n, path, m) ensures x in Preorder(n, m) {
      ClearPathVisited(n, path, m);
    }
  }

  /** A step that ignores the inserted divs and sees no difference between a node and its wrapped copy. */
  ghost predicate BlindToWrapping<S(!new)>(f: (S, Node) -> S) {
    && (forall s: S, n: Node :: IsElement(n, "div") ==> f(s, n) == s)
    && (forall s: S, t: Node, w: Node :: SameLabel(t, w) && Wrapped(t, w) ==> f(s, t) == f(s, w))
  }

  /** Such a walk ends in the same state on the wrapped tree. */
  lemma {:induction false} FoldWrapped<S(!new)>(f: (S, Node) -> S, s: S, t: Node, w: Node, m: Mode)
    requires BlindToWrapping(f) && Wrapped(t, w)
    ensures Fold(f, s, Preorder(t, m)) == Fold(f, s, Preorder(w, m))
    decreases w, 1
  {
    if SameLabel(t, w) {
      if m != Everything && Skipped(t) {
      } else if m == Scoring && IsElement(t, "a") {
        FoldOne(f, s, t);
        FoldOne(f, s, w);
      } else {
        FoldEnter(f, s, t, m);
        FoldEnter(f, s, w, m);
        FoldWrappedAll(f, f(s, t), t.kids, w.kids, m);
      }
    } else {
      FoldEnter(f, s, w, m);
      assert w.kids == [w.kids[0]] && w.kids[..0] == [];
      FoldNextKid(f, s, w.kids, 0, m);
      assert w.kids[..1] == w.kids;
      FoldWrapped(f, s, t, w.kids[0], m);
    }
  }

  lemma {:induction false} FoldWrappedAll<S(!new)>(f: (S, Node) -> S, s: S, ts: seq<Node>, ws: seq<Node>, m: Mode)
    requires BlindToWrapping(f)
    requires |ts| == |ws| && forall i :: 0 <= i < |ws| ==> Wrapped(ts[i], ws[i])
    ensures Fold(f, s, PreorderAll(ts, m)) == Fold(f, s, PreorderAll(ws, m))
    decreases ws, 0
  {
    if ws != [] {
      var k := |ws| - 1;
      FoldWrappedAll(f, s, ts[..k], ws[..k], m);
      var s' := Fold(f, s, PreorderAll(ts[..k], m));
      FoldWrapped(f, s', ts[k], ws[k], m);
      FoldNextKid(f, s, ts, k, m);
      FoldNextKid(f, s, ws, k, m);
      assert ts[..k + 1] == ts && ws[..k + 1] == ws;
    }
  }
}
