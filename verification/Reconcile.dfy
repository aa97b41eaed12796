/** In-place keyed reconciliation of a node's children with freshly built ones, motion off. */
module Reconcile {
  import opened Wrappers
  import opened RenderTree

  // ---------- attributes ----------

  /** `syncAttributes` */
  method SyncAttributes(current: DomNode, desired: DomNode)
    requires current != desired
    modifies current`attributes
    ensures current.attributes == desired.attributes
  {
    var pending := current.attributes.Keys;
    while pending != {}
      invariant forall name :: name in current.attributes ==>
        name in old(current.attributes) && (name in desired.attributes || name in pending)
      invariant forall name :: name in pending ==> name in old(current.attributes)
      decreases |pending|
    {
      var name :| name in pending;
      pending := pending - {name};
      if name !in desired.attributes {
        current.attributes := current.attributes - {name};
      }
    }
    pending := desired.attributes.Keys;
    while pending != {}
      invariant pending <= desired.attributes.Keys
      invariant forall name :: name in current.attributes ==> name in desired.attributes
      invariant forall name :: name in desired.attributes && name !in pending ==>
        name in current.attributes && current.attributes[name] == desired.attributes[name]
      decreases |pending|
    {
      var name :| name in pending;
      pending := pending - {name};
      if name !in current.attributes || current.attributes[name] != desired.attributes[name] {
        current.attributes := current.attributes[name := desired.attributes[name]];
      }
    }
    assert current.attributes.Keys == desired.attributes.Keys;
  }

  // ---------- placing the resolved children ----------

  /** The first `index` resolved nodes are in front, and nothing is lost. */
  ghost predicate Placed(now: seq<DomNode>, was: seq<DomNode>, resolved: seq<DomNode>, index: nat)
    requires index <= |resolved|
  {
    && NoRepeats(now)
    && index <= |now| && now[..index] == resolved[..index]
    && (forall n :: n in now ==> n in resolved[..index] || n in was)
    && (forall n :: n in resolved[..index] ==> n in now)
    && forall n :: n in was ==> n in now
  }

  /** The next child is not among those in front; nor is it there at all if it was not before. */
  lemma NextIsBehind(now: seq<DomNode>, was: seq<DomNode>, resolved: seq<DomNode>, index: nat)
    requires index < |resolved| && Placed(now, was, resolved, index) && NoRepeats(resolved)
    ensures resolved[index] !in now[..index] && (resolved[index] !in was ==> resolved[index] !in now)
  {
    assert forall i :: 0 <= i < index ==> resolved[..index][i] == resolved[i];
  }

  lemma OneMorePlaced(prior: seq<DomNode>, now: seq<DomNode>, was: seq<DomNode>, resolved: seq<DomNode>, index: nat)
    requires index < |resolved| && Placed(prior, was, resolved, index)
    requires NoRepeats(now) && index < |now| && now[..index] == prior[..index] && now[index] == resolved[index]
    requires forall n :: n in now <==> n == resolved[index] || n in prior
    ensures Placed(now, was, resolved, index + 1)
  {
    assert resolved[..index + 1] == resolved[..index] + [resolved[index]];
  }

  /** One turn of the cursor loop: the child goes before the cursor unless it is there already, and
      the cursor moves on. */
  method PlaceOne(container: DomNode, child: DomNode, cursor: DomNode?, former: DomNode?, ghost index: nat)
    returns (next: DomNode?)
    requires NoRepeats(container.children) && index <= |container.children| && child !in container.children[..index]
    requires cursor == if index < |container.children| then container.children[index] else null
    modifies container`children, Only(former)`children
    ensures NoRepeats(container.children) && index < |container.children|
    ensures container.children[..index] == old(container.children[..index]) && container.children[index] == child
    ensures forall n :: n in container.children <==> n == child || n in old(container.children)
    ensures former != null && former != container ==>
      former.children == if child == cursor then old(former.children) else Without(old(former.children), child)
    ensures next == if index + 1 < |container.children| then container.children[index + 1] else null
  {
    hide Without, NoRepeats;
    if child != cursor {
      ghost var at := InsertBefore(container, child, cursor, former);
      Inserted(old(container.children), container.children, index, child, at);
    }
    next := NextSibling(container, child, index);
  }

  /** What one turn does to the former parent of new children. */
  lemma TakenOut(s: seq<DomNode>, resolved: seq<DomNode>, index: nat)
    requires index < |resolved|
    ensures WithoutAll(s, resolved[..index + 1]) == Without(WithoutAll(s, resolved[..index]), resolved[index])
    ensures resolved[index] !in s ==> WithoutAll(s, resolved[..index + 1]) == WithoutAll(s, resolved[..index])
  {
    assert resolved[..index + 1][..index] == resolved[..index];
    WithoutAllMembers(s, resolved[..index]);
    if resolved[index] !in s { WithoutAbsent(WithoutAll(s, resolved[..index]), resolved[index]); }
  }

  /** The moving-cursor loop: the resolved nodes end up in front, in order, and behind them
      stays what is left of the old children.  A node that is not in use yet comes from `source`. */
  method PlaceChildren(container: DomNode, resolved: seq<DomNode>, used: set<DomNode>, source: DomNode?)
    requires NoRepeats(container.children) && NoRepeats(resolved)
    requires forall n :: n in resolved && n !in used ==> n !in container.children
    requires source != container && (source != null ==> forall n :: n in source.children ==> n !in used)
    modifies container`children, Only(source)`children
    ensures |resolved| <= |container.children| && container.children[..|resolved|] == resolved
    ensures NoRepeats(container.children)
    ensures forall n :: n in container.children <==> n in resolved || n in old(container.children)
    ensures source != null ==> source.children == WithoutAll(old(source.children), resolved)
  {
    hide Placed, NoRepeats, WithoutAll, Without;
    ghost var was := container.children;
    ghost var given := if source == null then [] else source.children;
    var cursor: DomNode? := if container.children == [] then null else container.children[0];
    var index := 0;
    NonePlaced(was, resolved, given);
    while index < |resolved|
      invariant 0 <= index <= |resolved| && index <= |container.children|
      invariant cursor == if index < |container.children| then container.children[index] else null
      invariant NoRepeats(container.children) && Placed(container.children, was, resolved, index)
      invariant source != null ==> source.children == WithoutAll(given, resolved[..index])
    {
      var child := resolved[index];
      ghost var prior := container.children;
      NextIsBehind(prior, was, resolved, index);
      TakenOut(given, resolved, index);
      cursor := PlaceOne(container, child, cursor, if child in used then container else source, index);
      OneMorePlaced(prior, container.children, was, resolved, index);
      index := index + 1;
    }
    AllPlaced(container.children, was, resolved);
  }

  lemma NonePlaced(was: seq<DomNode>, resolved: seq<DomNode>, given: seq<DomNode>)
    requires NoRepeats(was)
    ensures Placed(was, was, resolved, 0) && WithoutAll(given, resolved[..0]) == given
  {
  }

  lemma AllPlaced(now: seq<DomNode>, was: seq<DomNode>, resolved: seq<DomNode>)
    requires Placed(now, was, resolved, |resolved|)
    ensures resolved[..|resolved|] == resolved
    ensures |resolved| <= |now| && now[..|resolved|] == resolved
    ensures forall n :: n in now <==> n in resolved || n in was
  {
    assert resolved[..|resolved|] == resolved;
  }

  /** What inserting before the cursor at `index` does to the child list. */
  lemma Inserted(prior: seq<DomNode>, now: seq<DomNode>, index: nat, child: DomNode, at: nat)
    requires index <= |prior| && NoRepeats(prior) && child !in prior[..index]
    requires index < |prior| ==> child != prior[index]
    requires var rest := Without(prior, child);
      && at <= |rest| && now == rest[..at] + [child] + rest[at..]
      && (if index == |prior| then at == |rest| else at < |rest| && rest[at] == prior[index])
    ensures index < |now| && now[..index] == prior[..index] && now[index] == child
    ensures forall n :: n in now <==> n == child || n in prior
  {
    var rest := Without(prior, child);
    var front, back := prior[..index], prior[index..];
    assert prior == front + back;
    WithoutSplit(front, back, child);
    WithoutAbsent(front, child);
    assert NoRepeats(rest);
    if index < |prior| {
      assert back == [prior[index]] + prior[index + 1..];
      assert rest[index] == prior[index];
      assert at == index;
    } else {
      WithoutAbsent(prior, child);
    }
    assert rest == rest[..at] + rest[at..];
  }

  lemma FirstMember(tail: seq<DomNode>)
    ensures tail == [] || tail[0] in tail
  {
  }

  /** The removal loop: the existing children that were not reused go away. */
  method RemoveUnused(container: DomNode, existing: seq<DomNode>, used: set<DomNode>, ghost resolved: seq<DomNode>)
    requires NoRepeats(container.children)
    requires |resolved| <= |container.children| && container.children[..|resolved|] == resolved
    requires forall n :: n in container.children ==> n in resolved || n in existing
    requires forall n :: n in existing ==> (n in used <==> n in resolved)
    modifies container`children
    ensures container.children == resolved
  {
    var index := 0;
    ghost var tail := container.children[|resolved|..];
    assert container.children == resolved + tail;
    forall k | 0 <= k < |tail| ensures tail[k] !in resolved && tail[k] in existing {
      assert tail[k] == container.children[|resolved| + k];
      assert forall i :: 0 <= i < |resolved| ==> resolved[i] == container.children[i];
    }
    while index < |existing|
      invariant 0 <= index <= |existing|
      invariant container.children == resolved + tail
      invariant forall n :: n in tail ==> n !in resolved && n in existing[index..]
    {
      var child := existing[index];
      assert existing[index..] == [child] + existing[index + 1..];
      if child !in used {
        Remove(container, child);
        WithoutSplit(resolved, tail, child);
        WithoutAbsent(resolved, child);
        tail := Without(tail, child);
      } else {
        assert child !in tail;
      }
      index := index + 1;
    }
    FirstMember(tail);
  }

  // ---------- choosing which existing child to reuse ----------

  /** Position `q` is still free when the first `i` wanted children have been served, and its
      child can be reused for `want`. */
  ghost predicate Free(kids: seq<Tree>, want: Tree, picks: seq<int>, i: nat, q: int)
    requires i <= |picks|
  {
    0 <= q < |kids| && q !in picks[..i] && Reusable(kids[q], want)
  }

  /** The three matching rules.  Some free child is reused if there is one: an unkeyed child
      prefers the one at its own position, and otherwise the first free one is taken. */
  ghost predicate Choice(kids: seq<Tree>, want: Tree, picks: seq<int>, i: nat, p: int)
    requires i <= |picks|
  {
    || (p == -1 && forall q :: !Free(kids, want, picks, i, q))
    || (Free(kids, want, picks, i, p)
        && if KeyOf(want).None? && Free(kids, want, picks, i, i) then p == i
           else forall q :: Free(kids, want, picks, i, q) ==> p <= q)
  }

  /** The positions below `n` whose children carry the key, in order. */
  ghost function KeyPositions(kids: seq<Tree>, key: string, n: nat): (ps: seq<nat>)
    requires n <= |kids|
    ensures forall a :: 0 <= a < |ps| ==> ps[a] < n
    ensures forall a :: 0 <= a < |ps| ==> KeyOf(kids[ps[a]]) == Some(key)
    ensures forall a, b :: 0 <= a < b < |ps| ==> ps[a] < ps[b]
  {
    if n == 0 then []
    else KeyPositions(kids, key, n - 1) + if KeyOf(kids[n - 1]) == Some(key) then [n - 1] else []
  }

  lemma {:induction false} KeyPositionsComplete(kids: seq<Tree>, key: string, n: nat, p: nat) returns (a: nat)
    requires p < n <= |kids| && KeyOf(kids[p]) == Some(key)
    ensures a < |KeyPositions(kids, key, n)| && KeyPositions(kids, key, n)[a] == p
  {
    hide KeyOf;
    if p == n - 1 {
      a := |KeyPositions(kids, key, n - 1)|;
    } else {
      a := KeyPositionsComplete(kids, key, n - 1, p);
    }
  }

  function PositionsOf(keyed: map<string, seq<nat>>, key: string): seq<nat> {
    if key in keyed then keyed[key] else []
  }

  ghost predicate KeyedOk(keyed: map<string, seq<nat>>, kids: seq<Tree>, n: nat)
    requires n <= |kids|
  {
    forall key :: PositionsOf(keyed, key) == KeyPositions(kids, key, n)
  }

  lemma KeyedStep(keyed: map<string, seq<nat>>, keyed': map<string, seq<nat>>, kids: seq<Tree>, n: nat)
    requires n < |kids| && KeyedOk(keyed, kids, n)
    requires keyed' == if KeyOf(kids[n]).None? then keyed
                       else keyed[KeyOf(kids[n]).value := PositionsOf(keyed, KeyOf(kids[n]).value) + [n]]
    ensures KeyedOk(keyed', kids, n + 1)
  {
    hide KeyOf;
    forall key ensures PositionsOf(keyed', key) == KeyPositions(kids, key, n + 1) {
      assert PositionsOf(keyed, key) == KeyPositions(kids, key, n);
    }
  }

  lemma NothingKeyed(kids: seq<Tree>)
    ensures KeyedOk(map[], kids, 0)
  {
  }

  /** The index from render keys to the positions of the children that carry them. */
  method IndexKeys(existing: seq<DomNode>, ghost kids: seq<Tree>) returns (keyed: map<string, seq<nat>>)
    requires |existing| == |kids|
    requires forall p :: 0 <= p < |kids| ==> existing[p].RenderKey() == KeyOf(kids[p])
    ensures KeyedOk(keyed, kids, |kids|)
  {
    hide KeyedOk, KeyOf;
    keyed := map[];
    NothingKeyed(kids);
    for n := 0 to |existing|
      invariant KeyedOk(keyed, kids, n)
    {
      ghost var before := keyed;
      var key := existing[n].RenderKey();
      if key.Some? {
        keyed := keyed[key.value := PositionsOf(keyed, key.value) + [n]];
      }
      KeyedStep(before, keyed, kids, n);
    }
  }

  method FirstFree(existing: seq<DomNode>, positions: seq<nat>, used: set<DomNode>, desired: DomNode, unkeyed: bool)
    returns (p: int, ghost at: nat)
    requires forall a :: 0 <= a < |positions| ==> positions[a] < |existing|
    ensures at <= |positions|
    ensures forall a :: 0 <= a < at ==> !Usable(existing[positions[a]], used, desired, unkeyed)
    ensures if at == |positions| then p == -1
            else p == positions[at] && Usable(existing[p], used, desired, unkeyed)
  {
    for a := 0 to |positions|
      invariant forall b :: 0 <= b < a ==> !Usable(existing[positions[b]], used, desired, unkeyed)
    {
      if Usable(existing[positions[a]], used, desired, unkeyed) { return positions[a], a; }
    }
    return -1, |positions|;
  }

  predicate Usable(candidate: DomNode, used: set<DomNode>, desired: DomNode, unkeyed: bool)
    reads candidate`attributes
  {
    candidate !in used && (unkeyed ==> candidate.RenderKey().None?) && candidate.kind == desired.kind
  }

  /** The children that no earlier wanted child has taken still look as they did. */
  ghost predicate Untouched(existing: seq<DomNode>, used: set<DomNode>, kids: seq<Tree>, picks: seq<int>)
    reads existing
  {
    && |existing| == |kids|
    && (forall q :: 0 <= q < |kids| ==> existing[q].kind == kids[q].kind)
    && (forall q :: 0 <= q < |kids| && q !in picks ==> existing[q].RenderKey() == KeyOf(kids[q]))
    && (forall q :: 0 <= q < |kids| ==> (existing[q] in used <==> q in picks))
  }

  lemma FreeIsUsable(existing: seq<DomNode>, used: set<DomNode>, desired: DomNode, unkeyed: bool,
                     kids: seq<Tree>, want: Tree, picks: seq<int>, q: nat)
    requires Untouched(existing, used, kids, picks) && q < |kids|
    requires desired.kind == want.kind && unkeyed == KeyOf(want).None?
    ensures Usable(existing[q], used, desired, unkeyed) && (unkeyed || KeyOf(kids[q]) == KeyOf(want))
       <==> Free(kids, want, picks, |picks|, q)
  {
    assert picks[..|picks|] == picks;
  }

  lemma FreeCarries(kids: seq<Tree>, want: Tree, picks: seq<int>, key: string, q: nat)
    requires Free(kids, want, picks, |picks|, q) && KeyOf(want) == Some(key)
    ensures KeyOf(kids[q]) == Some(key)
  {
  }

  /** Taking the first usable child among the positions of a key obeys the rules. */
  lemma KeyedChoice(existing: seq<DomNode>, positions: seq<nat>, used: set<DomNode>, desired: DomNode,
                    key: string, kids: seq<Tree>, want: Tree, picks: seq<int>, at: nat)
    requires Untouched(existing, used, kids, picks)
    requires desired.kind == want.kind && KeyOf(want) == Some(key)
    requires positions == KeyPositions(kids, key, |kids|) && at <= |positions|
    requires forall a :: 0 <= a < at ==> !Usable(existing[positions[a]], used, desired, false)
    requires at < |positions| ==> Usable(existing[positions[at]], used, desired, false)
    ensures Choice(kids, want, picks, |picks|, if at == |positions| then -1 else positions[at])
  {
    hide KeyPositions, Usable, KeyOf;
    if at < |positions| {
      FreeIsUsable(existing, used, desired, false, kids, want, picks, positions[at]);
    }
    forall q | Free(kids, want, picks, |picks|, q) ensures at < |positions| && positions[at] <= q {
      FreeIsUsable(existing, used, desired, false, kids, want, picks, q);
      FreeCarries(kids, want, picks, key, q);
      var a := KeyPositionsComplete(kids, key, |kids|, q);
    }
  }

  method PickKeyed(existing: seq<DomNode>, keyed: map<string, seq<nat>>, used: set<DomNode>, desired: DomNode,
                   key: string, ghost kids: seq<Tree>, ghost want: Tree, ghost picks: seq<int>)
    returns (p: int)
    requires KeyedOk(keyed, kids, |kids|) && Untouched(existing, used, kids, picks)
    requires desired.kind == want.kind && KeyOf(want) == Some(key)
    ensures Choice(kids, want, picks, |picks|, p)
  {
    var positions := PositionsOf(keyed, key);
    hide KeyPositions;
    assert positions == KeyPositions(kids, key, |kids|);
    ghost var at: nat;
    p, at := FirstFree(existing, positions, used, desired, false);
    KeyedChoice(existing, positions, used, desired, key, kids, want, picks, at);
  }

  method PickUnkeyed(existing: seq<DomNode>, used: set<DomNode>, desired: DomNode, index: nat,
                     ghost kids: seq<Tree>, ghost want: Tree, ghost picks: seq<int>)
    returns (p: int)
    requires Untouched(existing, used, kids, picks)
    requires desired.kind == want.kind && KeyOf(want).None? && |picks| == index
    ensures Choice(kids, want, picks, index, p)
  {
    forall q: nat | q < |kids|
      ensures Usable(existing[q], used, desired, true) <==> Free(kids, want, picks, index, q)
    {
      FreeIsUsable(existing, used, desired, true, kids, want, picks, q);
    }
    if index < |existing| && existing[index] !in used && existing[index].RenderKey().None?
       && existing[index].kind == desired.kind {
      assert Usable(existing[index], used, desired, true);
      p := index;
    } else {
      var all := seq(|existing|, i => i);
      ghost var at: nat;
      p, at := FirstFree(existing, all, used, desired, true);
      forall q | Free(kids, want, picks, index, q) ensures p != -1 && p <= q {
        assert all[q] == q;
      }
    }
  }

  /** One application of the matching rules. */
  method PickExisting(existing: seq<DomNode>, keyed: map<string, seq<nat>>, used: set<DomNode>, desired: DomNode,
                      index: nat, ghost kids: seq<Tree>, ghost want: Tree, ghost picks: seq<int>)
    returns (p: int)
    requires KeyedOk(keyed, kids, |kids|) && Untouched(existing, used, kids, picks)
    requires desired.kind == want.kind && desired.RenderKey() == KeyOf(want) && |picks| == index
    ensures -1 <= p < |kids|
    ensures Choice(kids, want, picks, index, p)
  {
    var key := desired.RenderKey();
    if key.Some? {
      p := PickKeyed(existing, keyed, used, desired, key.value, kids, want, picks);
    } else {
      p := PickUnkeyed(existing, used, desired, index, kids, want, picks);
    }
  }

  // ---------- one wanted child after the other ----------

  /** The nodes that may end up under wanted child `i`. */
  ghost function Region(kids: seq<Tree>, wanted: seq<Tree>, picks: seq<int>, i: nat): set<DomNode>
    requires i < |picks| && i < |wanted| && picks[i] < |kids|
  {
    Nodes(wanted[i]) + if picks[i] < 0 then {} else Nodes(kids[picks[i]])
  }

  /** What has become of a node and its descendants, pictured by `was` before and by `now` after it
      was patched towards `want`: at every level the matching rules chose which child to reuse. */
  ghost predicate Kept(was: Tree, want: Tree, now: Tree)
    decreases want, 1
  {
    now.node == was.node && exists picks :: KeptBy(was, want, now, picks)
  }

  ghost predicate KeptBy(was: Tree, want: Tree, now: Tree, picks: seq<int>)
    decreases want, 0
  {
    && |now.kids| == |want.kids| == |picks|
    && forall i :: 0 <= i < |picks| ==>
         && -1 <= picks[i] < |was.kids|
         && Choice(was.kids, want.kids[i], picks, i, picks[i])
         && Fate(was.kids, want.kids[i], picks[i], now.kids[i])
  }

  /** A wanted child is there as it was built, or an existing one has been kept in its place. */
  ghost predicate Fate(kids: seq<Tree>, want: Tree, p: int, now: Tree)
    requires p < |kids|
    decreases want, 2
  {
    if p < 0 then now == want else Kept(kids[p], want, now)
  }

  lemma FateNode(kids: seq<Tree>, want: Tree, p: int, now: Tree)
    requires p < |kids| && Fate(kids, want, p, now)
    ensures now.node == (if p < 0 then want else kids[p]).node
  {
  }

  ghost predicate Separate(kids: seq<Tree>, wanted: seq<Tree>) {
    && Apart(kids) && Apart(wanted) && AllNodes(kids) !! AllNodes(wanted)
  }

  /** The wanted children served so far, and what has become of them. */
  ghost predicate Matched(kids: seq<Tree>, wanted: seq<Tree>, picks: seq<int>, trees: seq<Tree>) {
    && |picks| == |trees| <= |wanted|
    && (forall i :: 0 <= i < |picks| ==> -1 <= picks[i] < |kids| && Choice(kids, wanted[i], picks, i, picks[i]))
    && (forall i :: 0 <= i < |trees| ==>
          && Fate(kids, wanted[i], picks[i], trees[i])
          && Nodes(trees[i]) <= Region(kids, wanted, picks, i)
          && Like(trees[i], wanted[i]))
  }

  /** How far the matching loop has come: `trees` pictures what the resolved children look like. */
  ghost predicate Progress(kids: seq<Tree>, wanted: seq<Tree>, picks: seq<int>, trees: seq<Tree>)
    reads AllNodes(kids), AllNodes(wanted), AllNodes(trees)
  {
    && Matched(kids, wanted, picks, trees)
    && AllShown(trees)
    && (forall i :: |picks| <= i < |wanted| ==> Shows(wanted[i]) && Proper(wanted[i]))
    && forall p :: 0 <= p < |kids| ==> Proper(kids[p]) && (p !in picks ==> Shows(kids[p]))
  }

  lemma PicksDiffer(kids: seq<Tree>, wanted: seq<Tree>, picks: seq<int>, i: nat, j: nat)
    requires i < j < |picks| <= |wanted| && Choice(kids, wanted[j], picks, j, picks[j])
    ensures picks[j] == -1 || picks[i] != picks[j]
  {
    assert picks[..j][i] == picks[i];
  }

  /** Different wanted children get disjoint regions. */
  lemma RegionsApart(kids: seq<Tree>, wanted: seq<Tree>, picks: seq<int>, i: nat, j: nat)
    requires Separate(kids, wanted) && i < j < |picks| <= |wanted|
    requires -1 <= picks[i] < |kids| && -1 <= picks[j] < |kids|
    requires picks[j] == -1 || picks[i] != picks[j]
    ensures Region(kids, wanted, picks, i) !! Region(kids, wanted, picks, j)
  {
    hide Nodes;
    assert Nodes(wanted[i]) <= AllNodes(wanted) && Nodes(wanted[j]) <= AllNodes(wanted);
    if picks[i] >= 0 { assert Nodes(kids[picks[i]]) <= AllNodes(kids); }
    if picks[j] >= 0 { assert Nodes(kids[picks[j]]) <= AllNodes(kids); }
  }

  lemma TreesApart(kids: seq<Tree>, wanted: seq<Tree>, picks: seq<int>, trees: seq<Tree>)
    requires Separate(kids, wanted) && Matched(kids, wanted, picks, trees)
    ensures Apart(trees) && AllNodes(trees) <= AllNodes(kids) + AllNodes(wanted)
  {
    hide Nodes, Like, Choice;
    forall i, j | 0 <= i < j < |trees| ensures Nodes(trees[i]) !! Nodes(trees[j]) {
      PicksDiffer(kids, wanted, picks, i, j);
      RegionsApart(kids, wanted, picks, i, j);
    }
    forall i | 0 <= i < |trees| ensures Nodes(trees[i]) <= AllNodes(kids) + AllNodes(wanted) {
      assert Nodes(wanted[i]) <= AllNodes(wanted);
    }
  }

  /** What one reconciliation achieves: child by child the container looks like what was wanted;
      each child is the existing one that the matching rules chose, and so at every level below it,
      or else the new node. */
  ghost predicate Reconciled(before: Tree, wanted: seq<Tree>, picks: seq<int>, after: Tree) {
    && after.node == before.node && after.kind == before.kind
    && after.attributes == before.attributes && after.data == before.data
    && |after.kids| == |wanted| == |picks|
    && Nodes(after) <= Nodes(before) + AllNodes(wanted)
    && forall i :: 0 <= i < |wanted| ==>
         && -1 <= picks[i] < |before.kids|
         && Choice(before.kids, wanted[i], picks, i, picks[i])
         && Fate(before.kids, wanted[i], picks[i], after.kids[i])
         && Like(after.kids[i], wanted[i])
  }

  /** `patchRenderNode`: makes `current` look like `desired`, which gives its new descendants away. */
  method PatchRenderNode(current: DomNode, desired: DomNode, ghost was: Tree, ghost want: Tree)
    returns (ghost now: Tree)
    requires was.node == current && Shows(was) && Proper(was)
    requires want.node == desired && Shows(want) && Proper(want) && Rendered(want)
    requires was.kind == want.kind && Nodes(was) !! Nodes(want)
    modifies Nodes(was), Nodes(want)
    ensures now.node == current && Shows(now) && Proper(now)
    ensures Like(now, want) && Kept(was, want, now) && Nodes(now) <= Nodes(was) + Nodes(want)
    decreases want, 0
  {
    hide Nodes, Like, Apart, Rendered, Proper, Kept;
    NodeParts(was);
    NodeParts(want);
    KidsParts(was);
    KidsParts(want);
    if current.kind.TextNode? {
      if current.data != desired.data { current.data := desired.data; }
      now := was.(data := want.data);
      TextPatched(was, want);
      return;
    }
    assert allocated(AllNodes(was.kids)) && allocated(AllNodes(want.kids));
    SyncAttributes(current, desired);
    ghost var patched := was.(attributes := want.attributes);
    assert AllShown(was.kids) && AllShown(want.kids);
    Assembled(patched);
    ghost var picks;
    assert desired.children == want.node.children && desired !in Nodes(patched);
    now, picks := ReconcileRenderChildren(current, desired.children, desired, patched, want.kids);
    ElementPatched(was, patched, want, picks, now);
  }

  lemma NodeParts(t: Tree)
    requires Proper(t)
    ensures t.kind.Element? ==> t.data == ""
    ensures !t.kind.Element? ==> t.attributes == map[] && t.kids == []
    ensures Rendered(t) ==> !t.kind.Comment? && forall i :: 0 <= i < |t.kids| ==> Rendered(t.kids[i])
  {
  }

  lemma TextPatched(was: Tree, want: Tree)
    requires was.kind.TextNode? && want.kind.TextNode? && Proper(was) && Proper(want)
    ensures var now := was.(data := want.data);
      Proper(now) && Like(now, want) && Kept(was, want, now) && Nodes(now) == Nodes(was)
  {
    assert KeptBy(was, want, was.(data := want.data), []);
  }

  lemma ElementPatched(was: Tree, patched: Tree, want: Tree, picks: seq<int>, now: Tree)
    requires Reconciled(patched, want.kids, picks, now) && patched == was.(attributes := want.attributes)
    requires patched.kind == want.kind && patched.data == want.data
    ensures Like(now, want) && Kept(was, want, now) && Nodes(now) <= Nodes(patched) + Nodes(want)
  {
    hide Choice;
    assert KeptBy(was, want, now, picks);
  }

  /** The parts of a shown tree. */
  lemma KidsParts(t: Tree)
    requires Shows(t) && Proper(t)
    ensures AllShown(t.kids) && Apart(t.kids) && t.node !in AllNodes(t.kids)
    ensures Nodes(t) == {t.node} + AllNodes(t.kids)
    ensures forall i :: 0 <= i < |t.kids| ==> Nodes(t.kids[i]) <= AllNodes(t.kids)
  {
  }

  lemma Assembled(t: Tree)
    requires AllShown(t.kids) && Apart(t.kids) && t.node !in AllNodes(t.kids)
    requires t.node.kind == t.kind && t.node.attributes == t.attributes && t.node.data == t.data
    requires t.kind.Element? ==> t.data == ""
    requires !t.kind.Element? ==> t.attributes == map[] && t.kids == []
    requires |t.node.children| == |t.kids|
    requires forall i :: 0 <= i < |t.kids| ==> t.node.children[i] == t.kids[i].node
    ensures Shows(t) && Proper(t) && Nodes(t) == {t.node} + AllNodes(t.kids)
  {
    forall i | 0 <= i < |t.kids| ensures t.node !in Nodes(t.kids[i]) {
      assert Nodes(t.kids[i]) <= AllNodes(t.kids);
    }
  }

  /** Reuses existing child `p` for the next wanted child. */
  method Reuse(current: DomNode, desired: DomNode, p: nat, ghost kids: seq<Tree>, ghost wanted: seq<Tree>,
               ghost picks: seq<int>, ghost trees: seq<Tree>)
    returns (ghost tree: Tree)
    requires Separate(kids, wanted) && Progress(kids, wanted, picks, trees) && |picks| < |wanted|
    requires p < |kids| && Choice(kids, wanted[|picks|], picks, |picks|, p) && Rendered(wanted[|picks|])
    requires kids[p].node == current && wanted[|picks|].node == desired
    modifies Nodes(kids[p]), Nodes(wanted[|picks|])
    ensures Progress(kids, wanted, picks + [p], trees + [tree])
    decreases wanted, 0
  {
    hide Choice, Free, Reusable, Nodes, Like, Apart, Rendered, Proper, Kept;
    var index := |picks|;
    OthersApart(kids, wanted, picks, trees, p);
    ServedApart(kids, wanted, picks, trees, p);
    assert allocated(AllNodes(trees)) && allocated(AllNodes(wanted));
    assert forall q :: 0 <= q < |kids| ==> allocated(Nodes(kids[q]));
    assert forall i :: 0 <= i < |wanted| ==> Nodes(wanted[i]) <= AllNodes(wanted);
    tree := PatchRenderNode(current, desired, kids[p], wanted[index]);
    assert AllShown(trees);
    assert forall i :: index < i < |wanted| ==> Shows(wanted[i]);
    assert forall q :: 0 <= q < |kids| && q !in picks && q != p ==> Shows(kids[q]);
    ProgressStep(kids, wanted, picks, trees, p, tree);
  }

  /** What a set of nodes within one child, existing or wanted, cannot disturb. */
  lemma OthersApart(kids: seq<Tree>, wanted: seq<Tree>, picks: seq<int>, trees: seq<Tree>, p: nat)
    requires Separate(kids, wanted) && Progress(kids, wanted, picks, trees) && |picks| < |wanted|
    requires p < |kids| && Choice(kids, wanted[|picks|], picks, |picks|, p)
    ensures p !in picks && Shows(kids[p]) && Proper(kids[p]) && kids[p].kind == wanted[|picks|].kind
    ensures Shows(wanted[|picks|]) && Proper(wanted[|picks|])
    ensures Nodes(kids[p]) !! Nodes(wanted[|picks|])
    ensures forall q :: 0 <= q < |kids| && q != p ==> Nodes(kids[q]) !! Nodes(kids[p])
    ensures forall q :: 0 <= q < |kids| ==> Nodes(kids[q]) !! Nodes(wanted[|picks|])
    ensures forall i :: |picks| <= i < |wanted| ==> Nodes(wanted[i]) !! Nodes(kids[p])
    ensures forall i :: |picks| < i < |wanted| ==> Nodes(wanted[i]) !! Nodes(wanted[|picks|])
  {
    hide Nodes, Like, Matched;
    assert picks[..|picks|] == picks;
    assert Nodes(kids[p]) <= AllNodes(kids) && Nodes(wanted[|picks|]) <= AllNodes(wanted);
    forall q | 0 <= q < |kids| ensures Nodes(kids[q]) !! Nodes(wanted[|picks|]) {
      assert Nodes(kids[q]) <= AllNodes(kids);
    }
    forall i | 0 <= i < |wanted| ensures Nodes(wanted[i]) !! Nodes(kids[p]) {
      assert Nodes(wanted[i]) <= AllNodes(wanted);
    }
  }

  lemma ServedApart(kids: seq<Tree>, wanted: seq<Tree>, picks: seq<int>, trees: seq<Tree>, p: nat)
    requires Separate(kids, wanted) && Matched(kids, wanted, picks, trees) && |picks| < |wanted|
    requires p < |kids| && Choice(kids, wanted[|picks|], picks, |picks|, p)
    ensures Nodes(kids[p]) !! AllNodes(trees) && Nodes(wanted[|picks|]) !! AllNodes(trees)
  {
    hide Nodes, Like, Apart, Choice;
    forall i | 0 <= i < |trees|
      ensures Nodes(trees[i]) !! Nodes(kids[p]) && Nodes(trees[i]) !! Nodes(wanted[|picks|])
    {
      assert p !in picks by { Unpicked(kids, wanted, picks, p); }
      RegionsApart(kids, wanted, picks + [p], i, |picks|);
      assert Region(kids, wanted, picks + [p], i) == Region(kids, wanted, picks, i);
    }
  }

  lemma Unpicked(kids: seq<Tree>, wanted: seq<Tree>, picks: seq<int>, p: nat)
    requires |picks| < |wanted| && p < |kids| && Choice(kids, wanted[|picks|], picks, |picks|, p)
    ensures p !in picks
  {
    assert picks[..|picks|] == picks;
  }

  /** The loop has come one child further. */
  lemma ProgressStep(kids: seq<Tree>, wanted: seq<Tree>, picks: seq<int>, trees: seq<Tree>, p: int, tree: Tree)
    requires Matched(kids, wanted, picks, trees) && |picks| < |wanted| && -1 <= p < |kids|
    requires AllShown(trees) && forall i :: |picks| < i < |wanted| ==> Shows(wanted[i]) && Proper(wanted[i])
    requires forall q :: 0 <= q < |kids| ==> Proper(kids[q]) && (q !in picks && q != p ==> Shows(kids[q]))
    requires Choice(kids, wanted[|picks|], picks, |picks|, p)
    requires Shows(tree) && Proper(tree) && Like(tree, wanted[|picks|])
    requires Fate(kids, wanted[|picks|], p, tree)
    requires Nodes(tree) <= Nodes(wanted[|picks|]) + if p < 0 then {} else Nodes(kids[p])
    ensures Progress(kids, wanted, picks + [p], trees + [tree])
  {
    hide Nodes, Like, Shows, Proper, Reusable, Fate;
    var picks', trees' := picks + [p], trees + [tree];
    forall i | 0 <= i < |picks'| ensures Choice(kids, wanted[i], picks', i, picks'[i]) {
      ChoicePrefix(kids, wanted[i], picks, p, i, picks'[i]);
    }
  }

  lemma ChoicePrefix(kids: seq<Tree>, want: Tree, picks: seq<int>, next: int, i: nat, p: int)
    requires i <= |picks| && Choice(kids, want, picks, i, p)
    ensures Choice(kids, want, picks + [next], i, p)
  {
    assert (picks + [next])[..i] == picks[..i];
    forall q ensures Free(kids, want, picks + [next], i, q) <==> Free(kids, want, picks, i, q) { }
  }

  lemma StillUntouched(existing: seq<DomNode>, used: set<DomNode>, kids: seq<Tree>, wanted: seq<Tree>,
                       picks: seq<int>, trees: seq<Tree>)
    requires Progress(kids, wanted, picks, trees)
    requires |existing| == |kids| && forall q :: 0 <= q < |kids| ==> existing[q] == kids[q].node
    requires forall q :: 0 <= q < |kids| ==> existing[q].kind == kids[q].kind
    requires forall q :: 0 <= q < |kids| ==> (existing[q] in used <==> q in picks)
    ensures Untouched(existing, used, kids, picks)
  {
  }

  lemma ProgressStart(kids: seq<Tree>, wanted: seq<Tree>)
    requires AllShown(kids) && AllShown(wanted)
    ensures Progress(kids, wanted, [], [])
  {
  }

  /** The next wanted child still looks as it did. */
  lemma NextWanted(kids: seq<Tree>, wanted: seq<Tree>, picks: seq<int>, trees: seq<Tree>)
    requires Progress(kids, wanted, picks, trees) && |picks| < |wanted|
    ensures var want := wanted[|picks|]; want.node.kind == want.kind && want.node.RenderKey() == KeyOf(want)
  {
  }

  /** When no existing child fits, the wanted one is taken as it is. */
  lemma TakenNew(kids: seq<Tree>, wanted: seq<Tree>, picks: seq<int>, trees: seq<Tree>)
    requires Progress(kids, wanted, picks, trees) && |picks| < |wanted|
    requires Choice(kids, wanted[|picks|], picks, |picks|, -1)
    ensures Progress(kids, wanted, picks + [-1], trees + [wanted[|picks|]])
  {
    hide Choice, Nodes, Like, Shows, Proper, Matched, Kept;
    LikeRefl(wanted[|picks|]);
    ProgressStep(kids, wanted, picks, trees, -1, wanted[|picks|]);
  }

  /** The matching loop: each wanted child in turn reuses and patches an existing one, or stays. */
  method MatchChildren(existing: seq<DomNode>, desired: seq<DomNode>, ghost kids: seq<Tree>, ghost wanted: seq<Tree>)
    returns (resolved: seq<DomNode>, used: set<DomNode>, ghost picks: seq<int>, ghost trees: seq<Tree>)
    requires Separate(kids, wanted) && AllShown(kids) && AllShown(wanted)
    requires |existing| == |kids| && forall q :: 0 <= q < |kids| ==> existing[q] == kids[q].node
    requires |desired| == |wanted| && forall i :: 0 <= i < |wanted| ==> wanted[i].node == desired[i]
    requires forall i :: 0 <= i < |wanted| ==> Rendered(wanted[i])
    modifies AllNodes(kids), AllNodes(wanted)
    ensures Progress(kids, wanted, picks, trees)
    ensures |resolved| == |trees| == |wanted| && forall i :: 0 <= i < |trees| ==> resolved[i] == trees[i].node
    ensures forall q :: 0 <= q < |kids| ==> (existing[q] in used <==> q in picks)
    ensures forall n :: n in used ==> n in existing
    decreases wanted, 1
  {
    hide Choice, Free, Reusable, Nodes, Like, Apart, Proper, Progress, KeyedOk, Rendered;
    assert allocated(AllNodes(kids)) && allocated(AllNodes(wanted));
    assert forall q :: 0 <= q < |kids| ==> allocated(Nodes(kids[q])) && Nodes(kids[q]) <= AllNodes(kids);
    assert forall i :: 0 <= i < |wanted| ==> Nodes(wanted[i]) <= AllNodes(wanted);
    KidNodesDiffer(kids);
    var keyed := IndexKeys(existing, kids);
    resolved, used, picks, trees := [], {}, [], [];
    ProgressStart(kids, wanted);
    for index := 0 to |desired|
      invariant |picks| == |resolved| == |trees| == index
      invariant Progress(kids, wanted, picks, trees)
      invariant forall i :: 0 <= i < index ==> resolved[i] == trees[i].node
      invariant forall q :: 0 <= q < |kids| ==> (existing[q] in used <==> q in picks)
      invariant forall n :: n in used ==> n in existing
    {
      StillUntouched(existing, used, kids, wanted, picks, trees);
      NextWanted(kids, wanted, picks, trees);
      assert allocated(AllNodes(trees));
      var p := PickExisting(existing, keyed, used, desired[index], index, kids, wanted[index], picks);
      assert Progress(kids, wanted, picks, trees);
      ghost var tree;
      if p >= 0 {
        used := used + {existing[p]};
        tree := Reuse(existing[p], desired[index], p, kids, wanted, picks, trees);
        resolved := resolved + [existing[p]];
        ResolvedNode(kids, wanted, picks + [p], trees + [tree], index);
      } else {
        tree := wanted[index];
        TakenNew(kids, wanted, picks, trees);
        resolved := resolved + [desired[index]];
      }
      picks, trees := picks + [p], trees + [tree];
    }
  }

  lemma ResolvedNode(kids: seq<Tree>, wanted: seq<Tree>, picks: seq<int>, trees: seq<Tree>, i: nat)
    requires Progress(kids, wanted, picks, trees) && i < |picks| && picks[i] >= 0
    ensures picks[i] < |kids| && i < |trees| && trees[i].node == kids[picks[i]].node
  {
    FateNode(kids, wanted[i], picks[i], trees[i]);
  }

  lemma KidNodesDiffer(kids: seq<Tree>)
    requires Apart(kids)
    ensures forall p, q :: 0 <= p < |kids| && 0 <= q < |kids| && p != q ==> kids[p].node != kids[q].node
  {
    forall i, j | 0 <= i < j < |kids| ensures kids[i].node != kids[j].node {
      assert kids[i].node in Nodes(kids[i]) && kids[j].node in Nodes(kids[j]);
    }
  }

  /** The resolved nodes are distinct, and an existing one is among them exactly when it is used. */
  lemma ListFacts(existing: seq<DomNode>, resolved: seq<DomNode>, used: set<DomNode>, kids: seq<Tree>,
                  wanted: seq<Tree>, picks: seq<int>, trees: seq<Tree>)
    requires Separate(kids, wanted) && Matched(kids, wanted, picks, trees)
    requires |existing| == |kids| && forall q :: 0 <= q < |kids| ==> existing[q] == kids[q].node
    requires |resolved| == |trees| && forall i :: 0 <= i < |trees| ==> resolved[i] == trees[i].node
    requires forall q :: 0 <= q < |kids| ==> (existing[q] in used <==> q in picks)
    ensures NoRepeats(existing) && NoRepeats(resolved)
    ensures forall n :: n in existing ==> (n in used <==> n in resolved)
    ensures forall n :: n in resolved && n !in used ==> n !in existing
    ensures forall i :: 0 <= i < |wanted| ==> wanted[i].node !in existing
  {
    hide Choice, Like, Nodes, AllNodes, Apart, Region, Fate;
    forall i | 0 <= i < |trees|
      ensures trees[i].node == (if picks[i] < 0 then wanted[i] else kids[picks[i]]).node
    {
      FateNode(kids, wanted[i], picks[i], trees[i]);
    }
    KidNodesDiffer(kids);
    TreesApart(kids, wanted, picks, trees);
    KidNodesDiffer(trees);
    RootsIn(kids);
    RootsIn(wanted);
    forall q | 0 <= q < |kids| ensures existing[q] in used <==> existing[q] in resolved {
      if q in picks {
        var i :| 0 <= i < |picks| && picks[i] == q;
        assert resolved[i] == existing[q];
      }
      if existing[q] in resolved {
        var i :| 0 <= i < |resolved| && resolved[i] == existing[q];
        assert picks[i] == q;
      }
    }
  }

  lemma RootsIn(ts: seq<Tree>)
    ensures forall i :: 0 <= i < |ts| ==> ts[i].node in AllNodes(ts)
  {
    forall i | 0 <= i < |ts| ensures ts[i].node in AllNodes(ts) {
      assert ts[i].node in Nodes(ts[i]);
    }
  }

  lemma Finished(before: Tree, wanted: seq<Tree>, picks: seq<int>, after: Tree)
    requires Matched(before.kids, wanted, picks, after.kids) && |after.kids| == |wanted|
    requires after.node == before.node && after.kind == before.kind
    requires after.attributes == before.attributes && after.data == before.data
    requires AllNodes(after.kids) <= AllNodes(before.kids) + AllNodes(wanted)
    requires Nodes(after) == {after.node} + AllNodes(after.kids)
    requires Nodes(before) == {before.node} + AllNodes(before.kids)
    ensures Reconciled(before, wanted, picks, after)
  {
    hide Choice, Like, Nodes;
  }

  /** `reconcileRenderChildren`, without motion.  The wanted nodes may be the children of `source`;
      those that are adopted leave it. */
  method ReconcileRenderChildren(container: DomNode, desired: seq<DomNode>, source: DomNode?, ghost before: Tree,
                                 ghost wanted: seq<Tree>)
    returns (ghost after: Tree, ghost picks: seq<int>)
    requires before.node == container && Shows(before) && Proper(before) && before.kind.Element?
    requires |desired| == |wanted| && forall i :: 0 <= i < |wanted| ==> wanted[i].node == desired[i]
    requires AllShown(wanted) && Apart(wanted) && forall i :: 0 <= i < |wanted| ==> Rendered(wanted[i])
    requires Nodes(before) !! AllNodes(wanted)
    requires source != null ==> source.children == desired && source !in Nodes(before) && source !in AllNodes(wanted)
    modifies Nodes(before), AllNodes(wanted), Only(source)`children
    ensures Shows(after) && Proper(after) && Reconciled(before, wanted, picks, after)
    ensures source != null ==> source.children == WithoutAll(desired, container.children)
    decreases wanted, 2
  {
    hide Choice, Like, Apart, Proper, Rendered, NoRepeats, Nodes, Matched;
    NodeParts(before);
    KidsParts(before);
    var existing := container.children;
    var resolved, used;
    ghost var trees;
    assert Separate(before.kids, wanted);
    resolved, used, picks, trees := MatchChildren(existing, desired, before.kids, wanted);
    ListFacts(existing, resolved, used, before.kids, wanted, picks, trees);
    TreesApart(before.kids, wanted, picks, trees);
    assert allocated(AllNodes(trees)) && container !in AllNodes(trees);
    PlaceChildren(container, resolved, used, source);
    RemoveUnused(container, existing, used, resolved);
    after := Tree(container, before.kind, before.attributes, before.data, trees);
    assert AllShown(trees);
    Assembled(after);
    Finished(before, wanted, picks, after);
  }
}
