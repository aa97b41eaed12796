/** The dashboard's own gate for signed product status: verification, the revision checkpoint in
    SQL, and the projection that may leave the machine.  Times are in microseconds. */
module AuthorityGate {
  import opened Wrappers

  datatype PcOff = PcOff(readAvailable: bool, writeAvailable: bool, continuedSync: bool)

  datatype Truth = Truth(revision: nat, freshness: string, lastVerifiedAt: int, pendingCount: nat,
                         blockerReason: Option<string>, pcOff: PcOff)

  datatype Document = Document(productId: string, issuedAt: int, expiresAt: int, truth: Truth, signature: string)

  datatype Endpoint = Endpoint(publicKey: string, maxAgeSeconds: nat)

  datatype Target = Target(id: string, endpoint: Option<Endpoint>)

  datatype Status = Status(productId: string, publicKeyHash: string, truthHash: string, issuedAt: int,
                           validUntil: int, truth: Truth)

  /** SHA-256 of key and truth, and the Ed25519 check of a document under a key. */
  datatype Crypto = Crypto(keyHash: string -> string, truthHash: Truth -> string, checks: (string, Document) -> bool)

  datatype Answer = Verified(status: Status) | Issue(issue: string)

  const SECOND := 1_000_000

  predicate ConsistentTruth(t: Truth) {
    && (t.freshness == "fresh" ==> t.pendingCount == 0 && t.blockerReason.None?)
    && (t.pendingCount > 0 ==> t.freshness == "blocked")
    && (t.blockerReason.None? <==> t.freshness != "blocked")
  }

  /** The validators of the document model. */
  predicate ValidDocument(d: Document) {
    d.issuedAt < d.expiresAt && d.truth.lastVerifiedAt <= d.issuedAt && ConsistentTruth(d.truth)
  }

  function Earlier(a: int, b: int): int {
    if a < b then a else b
  }

  function StatusOf(c: Crypto, d: Document, e: Endpoint): Status {
    Status(d.productId, c.keyHash(e.publicKey), c.truthHash(d.truth), d.issuedAt,
           Earlier(d.expiresAt, d.issuedAt + e.maxAgeSeconds * SECOND), d.truth)
  }

  /** `verify_authority_status`; `parsed` is None when the payload is no valid document. */
  function Verify(c: Crypto, parsed: Option<Document>, target: Target, now: int, minimumRevision: Option<nat>): Answer {
    if target.endpoint.None? then Issue("authority_fetch_failed")
    else if parsed.None? || !ValidDocument(parsed.value) then Issue("authority_signature_invalid")
    else
      var d, e := parsed.value, target.endpoint.value;
      if !c.checks(e.publicKey, d) then Issue("authority_signature_invalid")
      else if d.productId != target.id then Issue("authority_product_mismatch")
      else if d.issuedAt > now || d.expiresAt <= now then Issue("authority_status_expired")
      else if now - d.issuedAt >= e.maxAgeSeconds * SECOND then Issue("authority_status_expired")
      else if minimumRevision.Some? && d.truth.revision < minimumRevision.value then
        Issue("authority_revision_rollback")
      else Verified(StatusOf(c, d, e))
  }

  /** `is_current_for` */
  predicate IsCurrentFor(s: Status, product: string, now: int) {
    s.productId == product && s.issuedAt <= now < s.validUntil
  }

  /** The time and product tests made on arrival hold exactly when the resulting status is current
      for that instant, so checking again later is the same test at a later time. */
  lemma VerifiedMeansCurrent(c: Crypto, d: Document, target: Target, now: int)
    requires target.endpoint.Some? && ValidDocument(d) && c.checks(target.endpoint.value.publicKey, d)
    ensures Verify(c, Some(d), target, now, None).Verified?
       <==> IsCurrentFor(StatusOf(c, d, target.endpoint.value), target.id, now)
    ensures Verify(c, Some(d), target, now, None).Issue? ==>
      (Verify(c, Some(d), target, now, None).issue == "authority_product_mismatch" <==> d.productId != target.id)
  {
  }

  /** What is wrong with a document that is not verified: what is no valid document under the pinned
      key is called badly signed, before anything in it is looked at; then comes the product, then
      the time. */
  lemma IssuesExactly(c: Crypto, parsed: Option<Document>, target: Target, now: int)
    requires target.endpoint.Some?
    ensures var answer := Verify(c, parsed, target, now, None);
      var e := target.endpoint.value;
      var sound := parsed.Some? && ValidDocument(parsed.value) && c.checks(e.publicKey, parsed.value);
      && (answer == Issue("authority_signature_invalid") <==> !sound)
      && (answer == Issue("authority_product_mismatch") <==> sound && parsed.value.productId != target.id)
      && (answer == Issue("authority_status_expired") <==>
            && sound && parsed.value.productId == target.id
            && !(parsed.value.issuedAt <= now < parsed.value.expiresAt
                 && now < parsed.value.issuedAt + e.maxAgeSeconds * SECOND))
      && (answer.Verified? ==> answer.status.truth == parsed.value.truth)
  {
  }

  /** A least revision refuses exactly the verified documents below it. */
  lemma LeastRevision(c: Crypto, parsed: Option<Document>, target: Target, now: int, least: nat)
    ensures var answer := Verify(c, parsed, target, now, None);
      Verify(c, parsed, target, now, Some(least))
        == if answer.Verified? && answer.status.truth.revision < least then Issue("authority_revision_rollback")
           else answer
  {
  }

  // ---------- the checkpoint table ----------

  datatype Row = Row(publicKeyHash: string, revision: nat, truthHash: string)

  datatype Verdict = Accepted | Rollback | Unavailable

  /** The WHERE clause of the upsert. */
  predicate MayReplace(row: Row, s: Status) {
    s.truth.revision > row.revision || (s.truth.revision == row.revision && s.truthHash == row.truthHash)
  }

  function RowOf(s: Status): Row {
    Row(s.publicKeyHash, s.truth.revision, s.truthHash)
  }

  function Accept(rows: map<string, Row>, s: Status): (map<string, Row>, Verdict) {
    if s.productId in rows && !MayReplace(rows[s.productId], s) then (rows, Rollback)
    else (rows[s.productId := RowOf(s)], Accepted)
  }

  /** One fetched target: what verification said, and whether the database answers. */
  datatype Fetched = Fetched(target: Target, answer: Answer, databaseUp: bool)

  class RevisionCheckpoints {
    var rows: map<string, Row>

    constructor ()
      ensures rows == map[]
    {
      rows := map[];
    }

    /** `_accept_authority_revision` */
    method AcceptRevision(s: Status, databaseUp: bool) returns (verdict: Verdict)
      modifies this
      ensures (rows, verdict) == if databaseUp then Accept(old(rows), s) else (old(rows), Unavailable)
    {
      if !databaseUp { return Unavailable; }
      if s.productId in rows && !MayReplace(rows[s.productId], s) { return Rollback; }
      rows := rows[s.productId := RowOf(s)];
      var returned := rows[s.productId];
      if returned.revision != s.truth.revision || returned.truthHash != s.truthHash { return Rollback; }
      return Accepted;
    }

    /** The loop of `_fetch_authority_truths`. */
    method FetchTruths(results: seq<Fetched>)
      returns (statuses: map<string, Status>, issues: map<string, string>)
      modifies this
      ensures (rows, statuses, issues) == Fetch(old(rows), results, map[], map[])
    {
      statuses, issues := map[], map[];
      for i := 0 to |results|
        invariant Fetch(rows, results[i..], statuses, issues) == Fetch(old(rows), results, map[], map[])
      {
        var f := results[i];
        assert results[i..][1..] == results[i + 1..];
        match f.answer {
          case Verified(s) =>
            var verdict := AcceptRevision(s, f.databaseUp);
            match verdict {
              case Accepted => statuses := statuses[f.target.id := s];
              case Rollback => issues := issues[f.target.id := "authority_revision_rollback"];
              case Unavailable => issues := issues[f.target.id := "authority_checkpoint_unavailable"];
            }
          case Issue(issue) => issues := issues[f.target.id := issue];
        }
      }
      assert results[|results|..] == [];
    }
  }

  function AcceptFetched(rows: map<string, Row>, s: Status, databaseUp: bool): (map<string, Row>, Verdict) {
    if databaseUp then Accept(rows, s) else (rows, Unavailable)
  }

  /** One round of that loop. */
  function FetchOne(rows: map<string, Row>, f: Fetched, statuses: map<string, Status>, issues: map<string, string>)
    : (map<string, Row>, map<string, Status>, map<string, string>)
  {
    match f.answer
    case Issue(issue) => (rows, statuses, issues[f.target.id := issue])
    case Verified(s) =>
      var (rows', verdict) := AcceptFetched(rows, s, f.databaseUp);
      match verdict
      case Accepted => (rows', statuses[f.target.id := s], issues)
      case Rollback => (rows', statuses, issues[f.target.id := "authority_revision_rollback"])
      case Unavailable => (rows', statuses, issues[f.target.id := "authority_checkpoint_unavailable"])
  }

  /** All rounds, with no other fetch in between. */
  function Fetch(rows: map<string, Row>, results: seq<Fetched>, statuses: map<string, Status>,
                 issues: map<string, string>)
    : (map<string, Row>, map<string, Status>, map<string, string>)
    decreases |results|
  {
    if results == [] then (rows, statuses, issues)
    else
      var (rows', statuses', issues') := FetchOne(rows, results[0], statuses, issues);
      Fetch(rows', results[1..], statuses', issues')
  }

  // ---------- the history of acceptances ----------

  /** Revision and truth of `b` may replace those of `a`. */
  predicate RowLe(a: Row, b: Row) {
    a.revision < b.revision || (a.revision == b.revision && a.truthHash == b.truthHash)
  }

  /** `b` keeps every product of `a`, at no lower revision and with the same truth at the same one. */
  ghost predicate RowsLe(a: map<string, Row>, b: map<string, Row>) {
    forall id :: id in a ==> id in b && RowLe(a[id], b[id])
  }

  /** The row is that of some accepted status. */
  ghost predicate WroteRow(accepted: seq<Status>, id: string, row: Row) {
    exists i :: 0 <= i < |accepted| && accepted[i].productId == id && RowOf(accepted[i]) == row
  }

  /** The rows are the last of the accepted statuses, which come in order for each product. */
  ghost predicate Latest(rows: map<string, Row>, accepted: seq<Status>) {
    && (forall i :: 0 <= i < |accepted| ==>
          accepted[i].productId in rows && RowLe(RowOf(accepted[i]), rows[accepted[i].productId]))
    && (forall id :: id in rows ==> WroteRow(accepted, id, rows[id]))
    && forall i, j :: 0 <= i <= j < |accepted| && accepted[i].productId == accepted[j].productId ==>
         RowLe(RowOf(accepted[i]), RowOf(accepted[j]))
  }

  lemma AcceptKeepsLatest(rows: map<string, Row>, accepted: seq<Status>, s: Status)
    requires Latest(rows, accepted) && Accept(rows, s).1 == Accepted
    ensures Latest(Accept(rows, s).0, accepted + [s])
  {
    var rows', accepted' := Accept(rows, s).0, accepted + [s];
    assert accepted'[|accepted|] == s;
    forall id | id in rows' ensures WroteRow(accepted', id, rows'[id]) {
      if id != s.productId {
        var i :| 0 <= i < |accepted| && accepted[i].productId == id && RowOf(accepted[i]) == rows[id];
        assert accepted'[i] == accepted[i];
      }
    }
  }

  // ---------- the projection ----------

  datatype Product = Product(productId: string, revision: Option<nat>, freshness: string, lastVerifiedAt: Option<int>,
                             pendingCount: Option<nat>, blockerReason: Option<string>, pcOff: PcOff)

  function UnknownProduct(id: string): Product {
    Product(id, None, "unknown", None, None, None, PcOff(false, false, false))
  }

  function Current(statuses: map<string, Status>, now: int): map<string, Status> {
    map id | id in statuses && IsCurrentFor(statuses[id], id, now) :: statuses[id]
  }

  function ProductOf(id: string, t: Truth): Product {
    Product(id, Some(t.revision), t.freshness, Some(t.lastVerifiedAt), Some(t.pendingCount), t.blockerReason, t.pcOff)
  }

  /** One product of `cloud_mcp_summary`. */
  function Project(id: string, authorities: map<string, Status>, now: int): Product {
    if id in authorities && IsCurrentFor(authorities[id], id, now) then ProductOf(id, authorities[id].truth)
    else UnknownProduct(id)
  }

  /** A result of the fetch phase: the payload was verified for its target at some instant. */
  ghost predicate Honest(c: Crypto, f: Fetched) {
    f.answer.Verified? ==> exists d, at :: f.answer == Verify(c, Some(d), f.target, at, None)
  }
}
