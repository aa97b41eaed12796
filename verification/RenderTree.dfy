/** The browser tree that the desktop page patches in place, and the value trees that describe
    parts of it. */
module RenderTree {
  import opened Wrappers

  /** Node type, with namespace and local name for elements. */
  datatype Kind = Element(namespace: string, localName: string) | TextNode | Comment

  const RENDER_KEY := "data-render-key"

  class DomNode {
    const kind: Kind
    var attributes: map<string, string>
    var data: string
    var children: seq<DomNode>

    constructor (kind: Kind, attributes: map<string, string>, data: string, children: seq<DomNode>)
      ensures this.kind == kind && this.attributes == attributes
      ensures this.data == data && this.children == children
    {
      this.kind, this.attributes, this.data, this.children := kind, attributes, data, children;
    }

    /** `nodeRenderKey` */
    function RenderKey(): Option<string>
      reads this`attributes
    {
      if kind.Element? && RENDER_KEY in attributes then Some(attributes[RENDER_KEY]) else None
    }
  }

  /** A picture of a subtree: which nodes it consists of and what they contain. */
  datatype Tree = Tree(node: DomNode, kind: Kind, attributes: map<string, string>, data: string, kids: seq<Tree>)

  ghost function Nodes(t: Tree): set<DomNode>
    decreases t
  {
    {t.node} + set i, n | 0 <= i < |t.kids| && n in Nodes(t.kids[i]) :: n
  }

  ghost function AllNodes(ts: seq<Tree>): set<DomNode> {
    set i, n | 0 <= i < |ts| && n in Nodes(ts[i]) :: n
  }

  /** Trees that share no node. */
  ghost predicate Apart(ts: seq<Tree>) {
    forall i, j :: 0 <= i < j < |ts| ==> Nodes(ts[i]) !! Nodes(ts[j])
  }

  /** No node occurs twice in the tree, and only elements have attributes and children. */
  ghost predicate Proper(t: Tree)
    decreases t
  {
    && (t.kind.Element? ==> t.data == "")
    && (!t.kind.Element? ==> t.attributes == map[] && t.kids == [])
    && (forall i :: 0 <= i < |t.kids| ==> Proper(t.kids[i]) && t.node !in Nodes(t.kids[i]))
    && Apart(t.kids)
  }

  /** The heap agrees with the picture. */
  ghost predicate Shows(t: Tree)
    reads Nodes(t)
    decreases t
  {
    && t.node.kind == t.kind
    && t.node.attributes == t.attributes
    && t.node.data == t.data
    && |t.node.children| == |t.kids|
    && forall i :: 0 <= i < |t.kids| ==> t.node.children[i] == t.kids[i].node && Shows(t.kids[i])
  }

  ghost predicate AllShown(ts: seq<Tree>)
    reads AllNodes(ts)
  {
    forall i :: 0 <= i < |ts| ==> Shows(ts[i]) && Proper(ts[i])
  }

  /** Equal names, attributes and text, recursively and in order; node identity is left out. */
  ghost predicate Like(a: Tree, b: Tree)
    decreases a
  {
    && a.kind == b.kind
    && a.attributes == b.attributes
    && a.data == b.data
    && |a.kids| == |b.kids|
    && forall i :: 0 <= i < |a.kids| ==> Like(a.kids[i], b.kids[i])
  }

  lemma {:induction false} LikeRefl(t: Tree)
    ensures Like(t, t)
  {
    forall i | 0 <= i < |t.kids| ensures Like(t.kids[i], t.kids[i]) { LikeRefl(t.kids[i]); }
  }

  /** Elements and text only, as every widget builds them. */
  ghost predicate Rendered(t: Tree)
    decreases t
  {
    !t.kind.Comment? && forall i :: 0 <= i < |t.kids| ==> Rendered(t.kids[i])
  }

  ghost function KeyOf(t: Tree): Option<string> {
    if t.kind.Element? && RENDER_KEY in t.attributes then Some(t.attributes[RENDER_KEY]) else None
  }

  /** May a node pictured by `a` be reused for the wanted tree `b`? */
  ghost predicate Reusable(a: Tree, b: Tree) {
    a.kind == b.kind && KeyOf(a) == KeyOf(b)
  }

  predicate NoRepeats<T(==)>(s: seq<T>) {
    forall i, j :: 0 <= i < j < |s| ==> s[i] != s[j]
  }

  // ---------- the child list of one node ----------

  function Without(s: seq<DomNode>, x: DomNode): (r: seq<DomNode>)
    ensures forall y :: y in r ==> y in s && y != x
    ensures forall y :: y in s && y != x ==> y in r
    ensures NoRepeats(s) ==> NoRepeats(r)
  {
    if s == [] then []
    else if s[0] == x then Without(s[1..], x)
    else
      var r := Without(s[1..], x);
      assert forall i :: 0 <= i < |r| ==> r[i] in r;
      [s[0]] + r
  }

  lemma {:induction false} WithoutAbsent(s: seq<DomNode>, x: DomNode)
    requires x !in s
    ensures Without(s, x) == s
  {
    if s != [] { WithoutAbsent(s[1..], x); }
  }

  lemma {:induction false} WithoutSplit(a: seq<DomNode>, b: seq<DomNode>, x: DomNode)
    ensures Without(a + b, x) == Without(a, x) + Without(b, x)
  {
    if a == [] {
      assert a + b == b;
    } else {
      assert (a + b)[1..] == a[1..] + b;
      WithoutSplit(a[1..], b, x);
    }
  }

  method IndexOf(s: seq<DomNode>, x: DomNode) returns (i: nat)
    requires x in s
    ensures i < |s| && s[i] == x && x !in s[..i]
  {
    i := 0;
    while s[i] != x
      invariant i < |s| && x !in s[..i]
      invariant x in s[i..]
      decreases |s| - i
    {
      i := i + 1;
    }
  }

  ghost function Only(node: DomNode?): set<DomNode> {
    if node == null then {} else {node}
  }

  /** `s` without any of `xs`. */
  function WithoutAll(s: seq<DomNode>, xs: seq<DomNode>): seq<DomNode> {
    if xs == [] then s else Without(WithoutAll(s, xs[..|xs| - 1]), xs[|xs| - 1])
  }

  lemma {:induction false} WithoutAllMembers(s: seq<DomNode>, xs: seq<DomNode>)
    ensures forall x :: x in WithoutAll(s, xs) <==> x in s && x !in xs
  {
    if xs != [] {
      WithoutAllMembers(s, xs[..|xs| - 1]);
      assert xs == xs[..|xs| - 1] + [xs[|xs| - 1]];
    }
  }

  /** `container.insertBefore(child, cursor)`: the child leaves the children of its former parent,
      which may be the container itself, and enters before the cursor, or last when there is none. */
  method InsertBefore(container: DomNode, child: DomNode, cursor: DomNode?, former: DomNode?) returns (ghost at: nat)
    requires NoRepeats(container.children)
    requires cursor != null ==> cursor in container.children && cursor != child
    modifies container`children, Only(former)`children
    ensures var rest := Without(old(container.children), child);
      && at <= |rest| && container.children == rest[..at] + [child] + rest[at..]
      && (if cursor == null then at == |rest| else at < |rest| && rest[at] == cursor)
    ensures NoRepeats(container.children)
    ensures former != null && former != container ==> former.children == Without(old(former.children), child)
  {
    var rest := Without(container.children, child);
    assert forall i :: 0 <= i < |rest| ==> rest[i] in rest;
    if former != null && former != container {
      former.children := Without(former.children, child);
    }
    if cursor == null {
      container.children := rest + [child];
      at := |rest|;
    } else {
      var i := IndexOf(rest, cursor);
      container.children := rest[..i] + [child] + rest[i..];
      at := i;
    }
  }

  /** `child.nextSibling` of the container's child at `at`. */
  method NextSibling(container: DomNode, child: DomNode, ghost at: nat) returns (next: DomNode?)
    requires NoRepeats(container.children) && at < |container.children| && container.children[at] == child
    ensures next == if at + 1 < |container.children| then container.children[at + 1] else null
  {
    var i := IndexOf(container.children, child);
    assert i == at;
    next := if i + 1 < |container.children| then container.children[i + 1] else null;
  }

  /** `child.remove()` for a child of the container. */
  method Remove(container: DomNode, child: DomNode)
    modifies container`children
    ensures container.children == Without(old(container.children), child)
  {
    container.children := Without(container.children, child);
  }
}
