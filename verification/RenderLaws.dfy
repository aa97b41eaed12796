/** What a reader can rely on after a reconciliation, whatever the two trees were. */
module RenderLaws {
  import opened Wrappers
  import opened RenderTree
  import opened Reconcile

  // ---------- one level ----------

  lemma Rejected(kids: seq<Tree>, want: Tree, picks: seq<int>, i: nat, q: int)
    requires i <= |picks| && Choice(kids, want, picks, i, -1) && 0 <= q < |kids| && Reusable(kids[q], want)
    ensures q in picks[..i]
  {
    assert !Free(kids, want, picks, i, q);
  }

  /** The matching rules leave no freedom: two runs on the same lists reuse the same nodes. */
  lemma {:induction false} ChoicesDetermined(kids: seq<Tree>, wanted: seq<Tree>, a: seq<int>, b: seq<int>, n: nat)
    requires n <= |a| == |b| == |wanted|
    requires forall i :: 0 <= i < |wanted| ==>
      Choice(kids, wanted[i], a, i, a[i]) && Choice(kids, wanted[i], b, i, b[i])
    ensures a[..n] == b[..n]
  {
    if n > 0 {
      var i := n - 1;
      ChoicesDetermined(kids, wanted, a, b, i);
      forall q ensures Free(kids, wanted[i], a, i, q) <==> Free(kids, wanted[i], b, i, q) { }
      assert a[..n] == a[..i] + [a[i]] && b[..n] == b[..i] + [b[i]];
    }
  }

  /** A reconciled container has been kept, as a reused node is. */
  lemma ReconciledIsKept(before: Tree, want: Tree, picks: seq<int>, after: Tree)
    requires Reconciled(before, want.kids, picks, after)
    ensures Kept(before, want, after) && KeptBy(before, want, after, picks)
  {
    hide Choice, Fate, Like, Nodes;
    assert KeptBy(before, want, after, picks);
  }

  /** A new node enters only when every existing child that could have been reused is already in
      use for an earlier wanted child. */
  lemma NewOnlyWhenNeeded(before: Tree, want: Tree, after: Tree, picks: seq<int>, i: nat, q: nat)
    requires KeptBy(before, want, after, picks) && i < |want.kids| && picks[i] == -1
    requires q < |before.kids| && Reusable(before.kids[q], want.kids[i])
    ensures exists j :: 0 <= j < i && after.kids[j].node == before.kids[q].node
  {
    Rejected(before.kids, want.kids[i], picks, i, q);
    var j :| 0 <= j < i && picks[..i][j] == q;
    FateNode(before.kids, want.kids[j], picks[j], after.kids[j]);
  }

  /** Existing child `p` fits wanted child `i`; it is the only one that does, and fits no other. */
  ghost predicate OnlyFit(kids: seq<Tree>, p: nat, wanted: seq<Tree>, i: nat) {
    && p < |kids| && i < |wanted| && Reusable(kids[p], wanted[i])
    && (forall q :: 0 <= q < |kids| && q != p ==> !Reusable(kids[q], wanted[i]))
    && (forall j :: 0 <= j < |wanted| && j != i ==> !Reusable(kids[p], wanted[j]))
  }

  /** Such a child is kept in that place, and so is what can be said of its descendants. */
  lemma FittingChildKept(before: Tree, want: Tree, after: Tree, p: nat, i: nat)
    requires Kept(before, want, after) && OnlyFit(before.kids, p, want.kids, i)
    ensures |after.kids| == |want.kids| && Kept(before.kids[p], want.kids[i], after.kids[i])
  {
    var picks :| KeptBy(before, want, after, picks);
    assert Choice(before.kids, want.kids[i], picks, i, picks[i]);
    assert Fate(before.kids, want.kids[i], picks[i], after.kids[i]);
    if picks[i] == -1 {
      Rejected(before.kids, want.kids[i], picks, i, p);
    }
  }

  /** Which nodes may stand in for each other: those of the same type and, if they are elements, of the
      same name, where either none has a render key or both have the same one. */
  lemma ReusableMeans(a: Tree, b: Tree)
    ensures Reusable(a, b)
       <==> match (a.kind, b.kind)
            case (TextNode, TextNode) => true
            case (Comment, Comment) => true
            case (Element(space, name), Element(otherSpace, otherName)) =>
              && space == otherSpace && name == otherName
              && ("data-render-key" in a.attributes <==> "data-render-key" in b.attributes)
              && ("data-render-key" in a.attributes ==>
                    a.attributes["data-render-key"] == b.attributes["data-render-key"])
            case _ => false
  {
  }

  ghost predicate UniqueKeys(ts: seq<Tree>) {
    forall q, r :: 0 <= q < r < |ts| && KeyOf(ts[q]).Some? ==> KeyOf(ts[q]) != KeyOf(ts[r])
  }

  lemma KeysDiffer(ts: seq<Tree>, i: nat, j: nat)
    requires UniqueKeys(ts) && i < |ts| && j < |ts| && i != j && KeyOf(ts[i]).Some?
    ensures KeyOf(ts[i]) != KeyOf(ts[j])
  {
  }

  /** With unique keys on both sides a keyed child of unchanged element name is the only fit. */
  lemma KeyedIsOnlyFit(kids: seq<Tree>, p: nat, wanted: seq<Tree>, i: nat)
    requires p < |kids| && i < |wanted| && KeyOf(wanted[i]).Some? && Reusable(kids[p], wanted[i])
    requires UniqueKeys(kids) && UniqueKeys(wanted)
    ensures OnlyFit(kids, p, wanted, i)
  {
    forall q | 0 <= q < |kids| && q != p ensures !Reusable(kids[q], wanted[i]) { KeysDiffer(kids, p, q); }
    forall j | 0 <= j < |wanted| && j != i ensures !Reusable(kids[p], wanted[j]) { KeysDiffer(wanted, i, j); }
  }

  // ---------- every depth ----------

  /** The descendant at the end of a path of child indices. */
  ghost function At(t: Tree, path: seq<nat>): Option<Tree>
    decreases |path|
  {
    if path == [] then Some(t)
    else if path[0] < |t.kids| then At(t.kids[path[0]], path[1..])
    else None
  }

  /** Step by step along the two paths the existing child is the only fit for the wanted one. */
  ghost predicate FitsAlong(before: Tree, want: Tree, from: seq<nat>, to: seq<nat>)
    decreases |from|
  {
    && |from| == |to|
    && (from != [] ==>
          && OnlyFit(before.kids, from[0], want.kids, to[0])
          && FitsAlong(before.kids[from[0]], want.kids[to[0]], from[1..], to[1..]))
  }

  /** Step by step along the two paths keys are unique on both sides and the existing child has the
      key and element name of the wanted one. */
  ghost predicate KeyedAlong(before: Tree, want: Tree, from: seq<nat>, to: seq<nat>)
    decreases |from|
  {
    && |from| == |to|
    && (from != [] ==>
          && from[0] < |before.kids| && to[0] < |want.kids|
          && UniqueKeys(before.kids) && UniqueKeys(want.kids)
          && KeyOf(want.kids[to[0]]).Some? && Reusable(before.kids[from[0]], want.kids[to[0]])
          && KeyedAlong(before.kids[from[0]], want.kids[to[0]], from[1..], to[1..]))
  }

  /** Identity: a descendant that is the only fit at every level survives, wherever it moves. */
  lemma {:induction false} FittingDescendantSurvives(before: Tree, want: Tree, after: Tree, from: seq<nat>,
                                                     to: seq<nat>)
    requires Kept(before, want, after) && FitsAlong(before, want, from, to)
    ensures At(before, from).Some? && At(after, to).Some?
    ensures At(after, to).value.node == At(before, from).value.node
    decreases |from|
  {
    hide OnlyFit;
    if from != [] {
      FittingChildKept(before, want, after, from[0], to[0]);
      OnlyFitBounds(before.kids, from[0], want.kids, to[0]);
      FittingDescendantSurvives(before.kids[from[0]], want.kids[to[0]], after.kids[to[0]], from[1..], to[1..]);
    }
  }

  lemma OnlyFitBounds(kids: seq<Tree>, p: nat, wanted: seq<Tree>, i: nat)
    requires OnlyFit(kids, p, wanted, i)
    ensures p < |kids| && i < |wanted|
  {
  }

  lemma {:induction false} KeyedFits(before: Tree, want: Tree, from: seq<nat>, to: seq<nat>)
    requires KeyedAlong(before, want, from, to)
    ensures FitsAlong(before, want, from, to)
    decreases |from|
  {
    hide OnlyFit, UniqueKeys, Reusable, KeyOf;
    if from != [] {
      KeyedIsOnlyFit(before.kids, from[0], want.kids, to[0]);
      KeyedFits(before.kids[from[0]], want.kids[to[0]], from[1..], to[1..]);
    }
  }

  /** Keyed rows at any depth keep their nodes: inside a reused tile as well as at the top. */
  lemma KeyedDescendantSurvives(before: Tree, want: Tree, picks: seq<int>, after: Tree, from: seq<nat>, to: seq<nat>)
    requires Reconciled(before, want.kids, picks, after) && KeyedAlong(before, want, from, to)
    ensures At(before, from).Some? && At(after, to).Some?
    ensures At(after, to).value.node == At(before, from).value.node
  {
    ReconciledIsKept(before, want, picks, after);
    KeyedFits(before, want, from, to);
    FittingDescendantSurvives(before, want, after, from, to);
  }

  /** Pairwise reusable children, at every level. */
  ghost predicate SameShape(a: Tree, b: Tree)
    decreases a
  {
    && |a.kids| == |b.kids|
    && forall i :: 0 <= i < |a.kids| ==> Reusable(a.kids[i], b.kids[i]) && SameShape(a.kids[i], b.kids[i])
  }

  /** The same nodes in the same places, at every level. */
  ghost predicate SameNodes(a: Tree, b: Tree)
    decreases a
  {
    && a.node == b.node && |a.kids| == |b.kids|
    && forall i :: 0 <= i < |a.kids| ==> SameNodes(a.kids[i], b.kids[i])
  }

  lemma {:induction false} PicksInPlace(before: Tree, want: Tree, after: Tree, picks: seq<int>, n: nat)
    requires KeptBy(before, want, after, picks) && SameShape(before, want) && n <= |picks|
    ensures forall i :: 0 <= i < n ==> picks[i] == i
  {
    if n > 0 {
      var i := n - 1;
      PicksInPlace(before, want, after, picks, i);
      assert i !in picks[..i];
      assert Free(before.kids, want.kids[i], picks, i, i);
      assert forall q :: 0 <= q < i ==> picks[..i][q] == q;
      assert Choice(before.kids, want.kids[i], picks, i, picks[i]);
    }
  }

  lemma {:induction false} ShapeKeepsNodes(before: Tree, want: Tree, after: Tree)
    requires Kept(before, want, after) && SameShape(before, want)
    ensures SameNodes(before, after)
    decreases want
  {
    var picks :| KeptBy(before, want, after, picks);
    PicksInPlace(before, want, after, picks, |picks|);
    forall i | 0 <= i < |before.kids| ensures SameNodes(before.kids[i], after.kids[i]) {
      assert Fate(before.kids, want.kids[i], picks[i], after.kids[i]);
      ShapeKeepsNodes(before.kids[i], want.kids[i], after.kids[i]);
    }
  }

  /** Rendering a tree of the same shapes and keys again keeps every node of it where it is. */
  lemma RerenderKeepsNodes(before: Tree, want: Tree, picks: seq<int>, after: Tree)
    requires Reconciled(before, want.kids, picks, after) && SameShape(before, want)
    ensures SameNodes(before, after)
  {
    ReconciledIsKept(before, want, picks, after);
    ShapeKeepsNodes(before, want, after);
  }
}
