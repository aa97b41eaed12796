/** Any number of fetches at work on the one revision table: the full snapshot and every caller of
    `cloud_mcp_summary` run the same loop, which awaits one upsert after another, so the upserts of
    different calls may fall between each other in every order. */
module AuthoritySummaries {
  import opened Wrappers
  import opened AuthorityGate

  /** One fetch with its results, of which `next` are dealt with; `at` is the place each kept status
      has among all acceptances. */
  datatype Call = Call(results: seq<Fetched>, next: nat, statuses: map<string, Status>, issues: map<string, string>,
                       at: map<string, nat>)

  /** The table, all calls so far, and the statuses accepted from any of them, in that order. */
  datatype System = System(rows: map<string, Row>, calls: seq<Call>, log: seq<Status>)

  datatype Step = Begin(results: seq<Fetched>) | Advance(call: nat)

  const EMPTY := System(map[], [], [])

  predicate Done(call: Call) {
    call.next >= |call.results|
  }

  /** The database answers and the upsert takes effect. */
  predicate Accepts(rows: map<string, Row>, f: Fetched) {
    f.answer.Verified? && f.databaseUp && Accept(rows, f.answer.status).1 == Accepted
  }

  /** The next round of one call. */
  function AdvanceCall(s: System, c: nat): System
    requires c < |s.calls| && !Done(s.calls[c])
  {
    var call := s.calls[c];
    var f := call.results[call.next];
    var (rows, statuses, issues) := FetchOne(s.rows, f, call.statuses, call.issues);
    if Accepts(s.rows, f) then
      System(rows, s.calls[c := Call(call.results, call.next + 1, statuses, issues, call.at[f.target.id := |s.log|])],
             s.log + [f.answer.status])
    else
      System(rows, s.calls[c := Call(call.results, call.next + 1, statuses, issues, call.at)], s.log)
  }

  function Apply(s: System, step: Step): System {
    match step
    case Begin(results) => s.(calls := s.calls + [Call(results, 0, map[], map[], map[])])
    case Advance(c) => if c < |s.calls| && !Done(s.calls[c]) then AdvanceCall(s, c) else s
  }

  function Run(s: System, steps: seq<Step>): System
    decreases |steps|
  {
    if steps == [] then s else Run(Apply(s, steps[0]), steps[1..])
  }

  /** What a summary made from this call at `now` says of product `id`. */
  function Shown(call: Call, id: string, now: int): Product {
    Project(id, Current(call.statuses, now), now)
  }

  /** One round, exactly.  A verified status is kept if and only if the database answers and holds no
      row of the product, or one with a lower revision, or with the same revision and truth; otherwise
      the call notes why not. */
  lemma RoundExactly(s: System, c: nat)
    requires c < |s.calls| && !Done(s.calls[c])
    ensures var call, call' := s.calls[c], AdvanceCall(s, c).calls[c];
      var f := call.results[call.next];
      var id := f.target.id;
      && call'.next == call.next + 1 && call'.results == call.results
      && match f.answer
         case Issue(issue) => call'.statuses == call.statuses && call'.issues == call.issues[id := issue]
         case Verified(v) =>
           var free := v.productId !in s.rows || s.rows[v.productId].revision < v.truth.revision
             || (s.rows[v.productId].revision == v.truth.revision && s.rows[v.productId].truthHash == v.truthHash);
           if f.databaseUp && free then call'.statuses == call.statuses[id := v] && call'.issues == call.issues
           else
             && call'.statuses == call.statuses
             && call'.issues == call.issues[id := if f.databaseUp then "authority_revision_rollback"
                                                  else "authority_checkpoint_unavailable"]
  {
  }

  // ---------- the invariant ----------

  /** The status comes from a result of the call for this very target, while the database answered. */
  ghost predicate FromResult(call: Call, id: string, s: Status) {
    exists i :: 0 <= i < |call.results| && call.results[i].target.id == id && call.results[i].answer == Verified(s)
             && call.results[i].databaseUp
  }

  ghost predicate Placed(call: Call, log: seq<Status>) {
    && call.at.Keys == call.statuses.Keys
    && forall id :: id in call.statuses ==>
         call.at[id] < |log| && log[call.at[id]] == call.statuses[id] && FromResult(call, id, call.statuses[id])
  }

  ghost predicate Inv(s: System) {
    && Latest(s.rows, s.log)
    && forall c :: 0 <= c < |s.calls| ==> Placed(s.calls[c], s.log)
  }

  lemma PlacedStays(call: Call, log: seq<Status>, s: Status)
    requires Placed(call, log)
    ensures Placed(call, log + [s])
  {
  }

  lemma RefusedKeepsRows(rows: map<string, Row>, f: Fetched, statuses: map<string, Status>, issues: map<string, string>)
    requires !Accepts(rows, f)
    ensures FetchOne(rows, f, statuses, issues).0 == rows && FetchOne(rows, f, statuses, issues).1 == statuses
  {
  }

  lemma AdvancePlaces(s: System, c: nat)
    requires c < |s.calls| && !Done(s.calls[c]) && Placed(s.calls[c], s.log)
    ensures Placed(AdvanceCall(s, c).calls[c], AdvanceCall(s, c).log)
  {
    var call := s.calls[c];
    var f := call.results[call.next];
    var call' := AdvanceCall(s, c).calls[c];
    if !Accepts(s.rows, f) { RefusedKeepsRows(s.rows, f, call.statuses, call.issues); }
    forall id | id in call'.statuses ensures FromResult(call', id, call'.statuses[id]) {
      if Accepts(s.rows, f) && id == f.target.id {
        assert call'.results[call.next] == f;
      } else {
        assert FromResult(call, id, call.statuses[id]);
      }
    }
  }

  lemma AdvanceKeepsInv(s: System, c: nat)
    requires Inv(s) && c < |s.calls| && !Done(s.calls[c])
    ensures Inv(AdvanceCall(s, c))
  {
    var s', f := AdvanceCall(s, c), s.calls[c].results[s.calls[c].next];
    AdvancePlaces(s, c);
    if Accepts(s.rows, f) {
      AcceptKeepsLatest(s.rows, s.log, f.answer.status);
    } else {
      RefusedKeepsRows(s.rows, f, s.calls[c].statuses, s.calls[c].issues);
    }
    hide Latest, Placed;
    forall d | 0 <= d < |s'.calls| ensures Placed(s'.calls[d], s'.log) {
      if d != c && Accepts(s.rows, f) { PlacedStays(s.calls[d], s.log, f.answer.status); }
    }
  }

  lemma {:induction false} RunKeepsInv(s: System, steps: seq<Step>)
    requires Inv(s)
    ensures Inv(Run(s, steps))
    decreases |steps|
  {
    if steps != [] {
      match steps[0] {
        case Begin(_) =>
        case Advance(c) => if c < |s.calls| && !Done(s.calls[c]) { AdvanceKeepsInv(s, c); }
      }
      RunKeepsInv(Apply(s, steps[0]), steps[1..]);
    }
  }

  lemma EveryRun(steps: seq<Step>)
    ensures Inv(Run(EMPTY, steps))
  {
    RunKeepsInv(EMPTY, steps);
  }

  // ---------- the table over every run ----------

  /** Over every interleaving, the accepted revisions of a product never decrease, and one revision
      is never accepted with two truth hashes. */
  lemma RevisionsNeverDecrease(steps: seq<Step>, i: nat, j: nat)
    requires i <= j < |Run(EMPTY, steps).log|
    requires Run(EMPTY, steps).log[i].productId == Run(EMPTY, steps).log[j].productId
    ensures var a, b := Run(EMPTY, steps).log[i], Run(EMPTY, steps).log[j];
      && a.truth.revision <= b.truth.revision
      && (a.truth.revision == b.truth.revision ==> a.truthHash == b.truthHash)
  {
    EveryRun(steps);
  }

  /** Unlike the cloud checkpoint, this table lets the key change.  After any run, a status is
      accepted if and only if every status accepted before for its product had a lower revision, or
      the same one with the same truth; under which keys these were, and under which it comes,
      plays no part. */
  lemma KeyMayChange(steps: seq<Step>, s: Status)
    ensures var t := Run(EMPTY, steps);
      Accept(t.rows, s).1 == Accepted
      <==> forall i :: 0 <= i < |t.log| && t.log[i].productId == s.productId ==>
             || t.log[i].truth.revision < s.truth.revision
             || (t.log[i].truth.revision == s.truth.revision && t.log[i].truthHash == s.truthHash)
  {
    EveryRun(steps);
    var t := Run(EMPTY, steps);
    if s.productId in t.rows {
      assert WroteRow(t.log, s.productId, t.rows[s.productId]);
    }
  }

  /** Whatever was fetched, and whether or not the database answered, no step lowers a row's revision
      or changes its truth at an equal revision. */
  lemma {:induction false} RowsOnlyGrow(s: System, steps: seq<Step>)
    ensures RowsLe(s.rows, Run(s, steps).rows)
    decreases |steps|
  {
    if steps != [] {
      RowsOnlyGrow(Apply(s, steps[0]), steps[1..]);
    }
  }

  // ---------- what two calls show ----------

  lemma ShownStatus(call: Call, id: string, now: int)
    requires Shown(call, id, now) != UnknownProduct(id)
    ensures id in call.statuses && IsCurrentFor(call.statuses[id], id, now)
         && Shown(call, id, now) == ProductOf(id, call.statuses[id].truth)
  {
  }

  /** Two summaries, of calls that may overlap in any way: the later goes back to a lower revision if
      and only if the revisions differ and its upsert came first, and equal revisions carry one truth. */
  lemma ShownOrderExactly(steps: seq<Step>, m: nat, n: nat, id: string, nowM: int, nowN: int)
    requires var s := Run(EMPTY, steps);
      && m < |s.calls| && n < |s.calls|
      && Shown(s.calls[m], id, nowM) != UnknownProduct(id) && Shown(s.calls[n], id, nowN) != UnknownProduct(id)
    ensures var a, b := Run(EMPTY, steps).calls[m], Run(EMPTY, steps).calls[n];
      && id in a.at && id in b.at
      && var p, q := Shown(a, id, nowM).revision, Shown(b, id, nowN).revision;
      && p.Some? && q.Some?
      && (q.value < p.value <==> p != q && b.at[id] < a.at[id])
      && (p == q ==> a.statuses[id].truthHash == b.statuses[id].truthHash)
  {
    hide Run, Shown, FromResult, WroteRow;
    EveryRun(steps);
    var s := Run(EMPTY, steps);
    ShownStatus(s.calls[m], id, nowM);
    ShownStatus(s.calls[n], id, nowN);
    assert Placed(s.calls[m], s.log) && Placed(s.calls[n], s.log);
  }

  /** One revision, one truth: two summaries that show a product at one revision show the same truth,
      unless two different truths share a digest. */
  lemma OneTruthShown(c: Crypto, steps: seq<Step>, m: nat, n: nat, id: string, nowM: int, nowN: int)
    requires var s := Run(EMPTY, steps);
      && m < |s.calls| && n < |s.calls|
      && (forall f :: f in s.calls[m].results || f in s.calls[n].results ==> Honest(c, f))
      && Shown(s.calls[m], id, nowM) != UnknownProduct(id) && Shown(s.calls[n], id, nowN) != UnknownProduct(id)
      && Shown(s.calls[m], id, nowM).revision == Shown(s.calls[n], id, nowN).revision
    ensures var a, b := Run(EMPTY, steps).calls[m], Run(EMPTY, steps).calls[n];
      && id in a.statuses && id in b.statuses
      && var ta, tb := a.statuses[id].truth, b.statuses[id].truth;
         ta == tb || c.truthHash(ta) == c.truthHash(tb)
    ensures var a, b := Run(EMPTY, steps).calls[m], Run(EMPTY, steps).calls[n];
      a.statuses[id].truth == b.statuses[id].truth ==> Shown(a, id, nowM) == Shown(b, id, nowN)
  {
    var s := Run(EMPTY, steps);
    ShownOrderExactly(steps, m, n, id, nowM, nowN);
    ShownStatus(s.calls[m], id, nowM);
    ShownStatus(s.calls[n], id, nowN);
    StatusesVouched(steps, m, id);
    StatusesVouched(steps, n, id);
    HonestHash(c, s.calls[m], id);
    HonestHash(c, s.calls[n], id);
  }

  lemma HonestHash(c: Crypto, call: Call, id: string)
    requires id in call.statuses && FromResult(call, id, call.statuses[id])
    requires forall f :: f in call.results ==> Honest(c, f)
    ensures call.statuses[id].truthHash == c.truthHash(call.statuses[id].truth)
  {
    var s := call.statuses[id];
    var i :| 0 <= i < |call.results| && call.results[i].answer == Verified(s);
    assert Honest(c, call.results[i]);
  }

  /** `t` is a later state: what was done is unchanged, and calls begun since have all their
      acceptances since. */
  ghost predicate Since(s: System, t: System) {
    && |s.log| <= |t.log| && |s.calls| <= |t.calls|
    && (forall c :: 0 <= c < |s.calls| && Done(s.calls[c]) ==> t.calls[c] == s.calls[c])
    && forall c, id :: |s.calls| <= c < |t.calls| && id in t.calls[c].at ==> |s.log| <= t.calls[c].at[id]
  }

  lemma {:induction false} RunSince(s: System, t: System, steps: seq<Step>)
    requires Since(s, t)
    ensures Since(s, Run(t, steps))
    decreases |steps|
  {
    if steps != [] {
      RunSince(s, Apply(t, steps[0]), steps[1..]);
    }
  }

  /** A call that begins after another has ended never shows a lower revision of a product, nor the
      same revision with another truth, whatever other calls did at any time. */
  lemma SummariesNeverGoBack(before: seq<Step>, after: seq<Step>, m: nat, n: nat, id: string, nowM: int, nowN: int)
    requires var s, t := Run(EMPTY, before), Run(EMPTY, before + after);
      && m < |s.calls| && Done(s.calls[m]) && |s.calls| <= n < |t.calls|
      && Shown(s.calls[m], id, nowM) != UnknownProduct(id) && Shown(t.calls[n], id, nowN) != UnknownProduct(id)
    ensures var a, b := Run(EMPTY, before).calls[m], Run(EMPTY, before + after).calls[n];
      var p, q := Shown(a, id, nowM).revision, Shown(b, id, nowN).revision;
      && p.Some? && q.Some? && p.value <= q.value
      && id in a.statuses && id in b.statuses
      && (p == q ==> a.statuses[id].truthHash == b.statuses[id].truthHash)
  {
    var s, t := Run(EMPTY, before), Run(EMPTY, before + after);
    RunAppend(EMPTY, before, after);
    RunSince(s, s, after);
    ShownOrderExactly(before + after, m, n, id, nowM, nowN);
    EveryRun(before);
    assert Placed(s.calls[m], s.log);
  }

  lemma {:induction false} RunAppend(s: System, a: seq<Step>, b: seq<Step>)
    ensures Run(s, a + b) == Run(Run(s, a), b)
    decreases |a|
  {
    if a == [] {
      assert a + b == b;
    } else {
      assert (a + b)[1..] == a[1..] + b;
      RunAppend(Apply(s, a[0]), a[1..], b);
    }
  }

  /** That the calls do not overlap is needed.  Any two current statuses of one product with different
      revisions can be shown the wrong way round: both are accepted, in order, and the call that got
      the lower one makes its summary last. */
  lemma OverlapGoesBack(low: Fetched, high: Fetched, id: string, now: int, later: int)
    requires low.answer.Verified? && high.answer.Verified? && low.databaseUp && high.databaseUp
    requires low.target.id == high.target.id == id && now <= later
    requires low.answer.status.truth.revision < high.answer.status.truth.revision
    requires IsCurrentFor(high.answer.status, id, now) && IsCurrentFor(low.answer.status, id, later)
    ensures var s := Run(EMPTY, [Begin([low]), Begin([high]), Advance(0), Advance(1)]);
      && |s.calls| == 2 && Done(s.calls[0]) && Done(s.calls[1])
      && Shown(s.calls[1], id, now).revision == Some(high.answer.status.truth.revision)
      && Shown(s.calls[0], id, later).revision == Some(low.answer.status.truth.revision)
  {
    RunFour(EMPTY, Begin([low]), Begin([high]), Advance(0), Advance(1));
    var s := Apply(Apply(EMPTY, Begin([low])), Begin([high]));
    assert s == System(map[], [Call([low], 0, map[], map[], map[]), Call([high], 0, map[], map[], map[])], []);
    hide Run;
    var t := AdvanceCall(s, 0);
    assert t.rows == map[id := RowOf(low.answer.status)] && t.calls[0].statuses == map[id := low.answer.status];
    assert t.calls[1] == s.calls[1] && Accepts(t.rows, high);
    assert AdvanceCall(t, 1).calls[0] == t.calls[0];
  }

  lemma RunFour(s: System, a: Step, b: Step, c: Step, d: Step)
    ensures Run(s, [a, b, c, d]) == Apply(Apply(Apply(Apply(s, a), b), c), d)
  {
    hide Apply;
    assert [a, b, c, d] == [a] + ([b] + ([c] + [d]));
    RunAppend(s, [a], [b] + ([c] + [d]));
    RunAppend(Apply(s, a), [b], [c] + [d]);
    RunAppend(Apply(Apply(s, a), b), [c], [d]);
    forall t, e ensures Run(t, [e]) == Apply(t, e) {
      assert Run(Apply(t, e), []) == Apply(t, e);
    }
  }

  // ---------- undisturbed calls ----------

  /** A call that no other interrupts does what the loop does by itself. */
  lemma {:induction false} AloneIsFetch(s: System, c: nat)
    requires c < |s.calls| && s.calls[c].next <= |s.calls[c].results|
    ensures var call := s.calls[c];
      var t := Run(s, seq(|call.results| - call.next, _ => Advance(c)));
      && c < |t.calls| && Done(t.calls[c])
      && (t.rows, t.calls[c].statuses, t.calls[c].issues)
         == Fetch(s.rows, call.results[call.next..], call.statuses, call.issues)
    decreases |s.calls[c].results| - s.calls[c].next
  {
    var call := s.calls[c];
    var steps := seq(|call.results| - call.next, _ => Advance(c));
    if call.next < |call.results| {
      assert steps[1..] == seq(|call.results| - (call.next + 1), _ => Advance(c));
      assert call.results[call.next..][1..] == call.results[call.next + 1..];
      AloneIsFetch(AdvanceCall(s, c), c);
    }
  }

  // ---------- the gate fails closed ----------

  /** Each kept status was verified for its target, and accepted at its place in the common order. */
  lemma StatusesVouched(steps: seq<Step>, c: nat, id: string)
    requires c < |Run(EMPTY, steps).calls| && id in Run(EMPTY, steps).calls[c].statuses
    ensures var s := Run(EMPTY, steps);
      var call := s.calls[c];
      && FromResult(call, id, call.statuses[id])
      && id in call.at && call.at[id] < |s.log| && s.log[call.at[id]] == call.statuses[id]
  {
    EveryRun(steps);
    assert Placed(Run(EMPTY, steps).calls[c], Run(EMPTY, steps).log);
  }

  /** Among the acceptances is the truth of this document, with its own digest and that of the key. */
  ghost predicate Recorded(c: Crypto, log: seq<Status>, d: Document, publicKey: string) {
    exists k :: && 0 <= k < |log| && log[k].productId == d.productId && log[k].truth == d.truth
                && log[k].truthHash == c.truthHash(d.truth) && log[k].publicKeyHash == c.keyHash(publicKey)
  }

  /** Result `i` of the call carries document `d`, fully checked, for product `id` at `now`. */
  ghost predicate Carries(c: Crypto, call: Call, log: seq<Status>, i: nat, d: Document, id: string, now: int)
    requires i < |call.results|
  {
    var target := call.results[i].target;
    && target.id == id == d.productId
    && target.endpoint.Some?
    && ValidDocument(d)
    && c.checks(target.endpoint.value.publicKey, d)
    && d.issuedAt <= now < d.expiresAt
    && now - d.issuedAt < target.endpoint.value.maxAgeSeconds * SECOND
    && Recorded(c, log, d, target.endpoint.value.publicKey)
  }

  /** What is shown is field by field what the truth says. */
  ghost predicate Shows(p: Product, id: string, t: Truth) {
    && p.productId == id
    && p.revision == Some(t.revision)
    && p.freshness == t.freshness
    && p.lastVerifiedAt == Some(t.lastVerifiedAt)
    && p.pendingCount == Some(t.pendingCount)
    && p.blockerReason == t.blockerReason
    && p.pcOff.readAvailable == t.pcOff.readAvailable
    && p.pcOff.writeAvailable == t.pcOff.writeAvailable
    && p.pcOff.continuedSync == t.pcOff.continuedSync
  }

  /** What is shown makes sense: fresh means that nothing waits, what waits is blocked, blocked comes with
      a reason, and the verification is not from the future. */
  ghost predicate Sensible(p: Product, now: int) {
    && p.pendingCount.Some? && p.lastVerifiedAt.Some? && p.lastVerifiedAt.value <= now
    && (p.freshness == "fresh" ==> p.pendingCount.value == 0)
    && (p.pendingCount.value > 0 ==> p.freshness == "blocked")
    && (p.blockerReason.Some? <==> p.freshness == "blocked")
  }

  /** Nothing is claimed of the product. */
  ghost predicate ShowsNothing(p: Product, id: string) {
    && p.productId == id
    && p.freshness == "unknown"
    && p.revision.None? && p.lastVerifiedAt.None? && p.pendingCount.None? && p.blockerReason.None?
    && !p.pcOff.readAvailable && !p.pcOff.writeAvailable && !p.pcOff.continuedSync
  }

  /** A product is shown field by field as the truth of the kept status if that is still current, and
      with no claim at all if it is not. */
  lemma ShownFields(steps: seq<Step>, m: nat, id: string, now: int)
    requires m < |Run(EMPTY, steps).calls|
    ensures var call := Run(EMPTY, steps).calls[m];
      var current := id in call.statuses && IsCurrentFor(call.statuses[id], id, now);
      && (current ==> Shows(Shown(call, id, now), id, call.statuses[id].truth))
      && (!current ==> ShowsNothing(Shown(call, id, now), id))
  {
  }

  /** Over every interleaving a product appears as anything but unknown only when a document for it
      was validated, checked under the pinned key of its target, accepted by the checkpoint, and is
      still within its life at the moment the summary is generated; and then it appears, field by
      field, as that document says. */
  lemma FailsClosed(c: Crypto, steps: seq<Step>, m: nat, id: string, now: int)
    requires m < |Run(EMPTY, steps).calls|
    requires forall f :: f in Run(EMPTY, steps).calls[m].results ==> Honest(c, f)
    requires Shown(Run(EMPTY, steps).calls[m], id, now) != UnknownProduct(id)
    ensures var s := Run(EMPTY, steps);
      exists i, d :: && 0 <= i < |s.calls[m].results| && Carries(c, s.calls[m], s.log, i, d, id, now)
                     && Shows(Shown(s.calls[m], id, now), id, d.truth)
    ensures Sensible(Shown(Run(EMPTY, steps).calls[m], id, now), now)
  {
    var s := Run(EMPTY, steps);
    var call := s.calls[m];
    ShownStatus(call, id, now);
    StatusesVouched(steps, m, id);
    var status := call.statuses[id];
    var i :| 0 <= i < |call.results| && call.results[i].target.id == id && call.results[i].answer == Verified(status)
          && call.results[i].databaseUp;
    assert Honest(c, call.results[i]);
    var d, at :| call.results[i].answer == Verify(c, Some(d), call.results[i].target, at, None);
    assert s.log[call.at[id]].truth == d.truth;
    assert Carries(c, call, s.log, i, d, id, now);
  }
}
