/** One exchange of the authority protocol: the signer's transaction and document, and the
    gateway's verification and transaction. */
module AuthorityProtocol {
  import opened Wrappers
  import opened Json
  import opened CanonicalJson
  import opened AuthorityShape

  // ---------- checkpoints ----------

  /** The stored checkpoint.  Both workers keep the same fields; `keyHash` is the hash of the
      private key at the signer and of the public key at the gateway. */
  datatype CheckpointRecord = CheckpointRecord(
    environment: Text,
    product: Text,
    audience: Text,
    keyHash: Text,
    revision: int,
    observationHash: Text,
    truthHash: Text,
    lastVerifiedAt: Text,
    sourceObservedAt: Text,
    sourceExpiresAt: Text)

  /** What storage may hold under the checkpoint's name: nothing, a value that is no record at
      all, or a record (which may still fail the record test). */
  datatype Slot = Vacant | Foreign | Held(record: CheckpointRecord)

  datatype Verdict = Accepted | Rollback | Invalid | Unavailable

  /** `isCheckpointRecord` */
  predicate IsGatewayRecord(rt: Runtime, r: CheckpointRecord) {
    && KnownProduct(r.product)
    && rt.audienceOk(r.audience, r.product)
    && HexText(r.keyHash)
    && 0 <= r.revision <= MAX_SAFE_INTEGER
    && HexText(r.observationHash)
    && HexText(r.truthHash)
    && GatewayTime(rt, Str(r.lastVerifiedAt)).Some?
    && GatewayTime(rt, Str(r.sourceObservedAt)).Some?
    && GatewayTime(rt, Str(r.sourceExpiresAt)).Some?
  }

  /** `isSignerCheckpoint` */
  predicate IsSignerRecord(rt: Runtime, r: CheckpointRecord) {
    && KnownProduct(r.product)
    && rt.audienceOk(r.audience, r.product)
    && HexText(r.keyHash)
    && 0 <= r.revision <= MAX_SAFE_INTEGER
    && HexText(r.observationHash)
    && HexText(r.truthHash)
    && SignerTime(rt, Str(r.lastVerifiedAt)).Some?
    && SignerTime(rt, Str(r.sourceObservedAt)).Some?
    && SignerTime(rt, Str(r.sourceExpiresAt)).Some?
  }

  /** `Date.parse(a) < Date.parse(b)`, false when either is NaN. */
  predicate Earlier(rt: Runtime, a: Text, b: Text) {
    && rt.dateParse(a).Some? && rt.dateParse(b).Some?
    && rt.dateParse(a).value < rt.dateParse(b).value
  }

  predicate SameIdentity(a: CheckpointRecord, b: CheckpointRecord) {
    a.environment == b.environment && a.product == b.product && a.audience == b.audience
  }

  /** The five-way comparison both workers make at an equal revision. */
  predicate Identical(a: CheckpointRecord, b: CheckpointRecord) {
    && a.observationHash == b.observationHash
    && a.truthHash == b.truthHash
    && a.lastVerifiedAt == b.lastVerifiedAt
    && a.sourceObservedAt == b.sourceObservedAt
    && a.sourceExpiresAt == b.sourceExpiresAt
  }

  /** The transaction of `AuthorityIssuer`. */
  function SignerTransaction(rt: Runtime, slot: Slot, candidate: CheckpointRecord): (r: (Slot, Verdict))
    ensures r.1 != Unavailable
  {
    match slot
    case Foreign => (slot, Invalid)
    case Vacant => (Held(candidate), Accepted)
    case Held(prior) =>
      if !IsSignerRecord(rt, prior) then (slot, Invalid)
      else if !SameIdentity(prior, candidate) then (slot, Invalid)
      else if prior.keyHash != candidate.keyHash || candidate.revision < prior.revision then (slot, Rollback)
      else if candidate.revision == prior.revision then
        (slot, if Identical(candidate, prior) then Accepted else Rollback)
      else if Earlier(rt, candidate.lastVerifiedAt, prior.lastVerifiedAt)
           || Earlier(rt, candidate.sourceObservedAt, prior.sourceObservedAt) then (slot, Rollback)
      else (Held(candidate), Accepted)
  }

  /** The transaction of `AuthorityCheckpoint`, after its body has been read. */
  function GatewayTransaction(rt: Runtime, environment: Text, slot: Slot, candidate: CheckpointRecord)
    : (Slot, Verdict)
  {
    if !IsGatewayRecord(rt, candidate) || candidate.environment != environment then (slot, Invalid)
    else match slot
      case Foreign => (slot, Invalid)
      case Vacant => (Held(candidate), Accepted)
      case Held(prior) =>
        if !IsGatewayRecord(rt, prior) then (slot, Invalid)
        else if !SameIdentity(prior, candidate) then (slot, Invalid)
        else if candidate.revision < prior.revision then (slot, Rollback)
        else if candidate.keyHash != prior.keyHash then (slot, Rollback)
        else if candidate.revision == prior.revision then
          (slot, if Identical(candidate, prior) then Accepted else Rollback)
        else if Earlier(rt, candidate.lastVerifiedAt, prior.lastVerifiedAt) then (slot, Rollback)
        else if Earlier(rt, candidate.sourceObservedAt, prior.sourceObservedAt) then (slot, Rollback)
        else (Held(candidate), Accepted)
  }

  /** The order both transactions enforce: the same subject and key, and either the very same
      record or a higher revision whose two source times have not gone back. */
  predicate Follows(rt: Runtime, prior: CheckpointRecord, next: CheckpointRecord) {
    || next == prior
    || (&& SameIdentity(prior, next)
        && prior.keyHash == next.keyHash
        && prior.revision < next.revision
        && !Earlier(rt, next.lastVerifiedAt, prior.lastVerifiedAt)
        && !Earlier(rt, next.sourceObservedAt, prior.sourceObservedAt))
  }

  lemma FollowsTransitive(rt: Runtime, a: CheckpointRecord, b: CheckpointRecord, c: CheckpointRecord)
    requires IsGatewayRecord(rt, a) && IsGatewayRecord(rt, b) && IsGatewayRecord(rt, c)
    requires Follows(rt, a, b) && Follows(rt, b, c)
    ensures Follows(rt, a, c)
  {
  }

  /** The signer accepts a candidate over a record exactly when it follows it, and then stores
      it; a refused candidate leaves storage as it was. */
  lemma SignerAcceptsFollowers(rt: Runtime, prior: CheckpointRecord, candidate: CheckpointRecord)
    requires IsSignerRecord(rt, prior)
    ensures var (slot, verdict) := SignerTransaction(rt, Held(prior), candidate);
      && (verdict == Accepted <==> Follows(rt, prior, candidate))
      && slot == (if verdict == Accepted then Held(candidate) else Held(prior))
  {
  }

  /** The gateway uses the same order. */
  lemma GatewayAcceptsFollowers(rt: Runtime, environment: Text, prior: CheckpointRecord,
                                candidate: CheckpointRecord)
    requires IsGatewayRecord(rt, prior) && IsGatewayRecord(rt, candidate)
    requires candidate.environment == environment
    ensures var (slot, verdict) := GatewayTransaction(rt, environment, Held(prior), candidate);
      && (verdict == Accepted <==> Follows(rt, prior, candidate))
      && slot == (if verdict == Accepted then Held(candidate) else Held(prior))
  {
  }

  /** `AuthorityCheckpoint.fetch`, with storage that may fail its transaction. */
  function CheckpointAnswer(rt: Runtime, environment: Text, slot: Slot, candidate: CheckpointRecord, storageUp: bool)
    : (Slot, Verdict)
  {
    if !IsGatewayRecord(rt, candidate) || candidate.environment != environment then (slot, Invalid)
    else if !storageUp then (slot, Unavailable)
    else GatewayTransaction(rt, environment, slot, candidate)
  }

  /** What becomes of the gateway's call to its checkpoint. */
  datatype Link = Answered | StorageFailed | AnswerLost | Unreached

  /** The call as the gateway sees it: a lost answer may hide a committed record. */
  function Submit(rt: Runtime, environment: Text, slot: Slot, candidate: CheckpointRecord, link: Link)
    : (Slot, Verdict)
  {
    match link
    case Answered => CheckpointAnswer(rt, environment, slot, candidate, true)
    case StorageFailed => CheckpointAnswer(rt, environment, slot, candidate, false)
    case AnswerLost => (CheckpointAnswer(rt, environment, slot, candidate, true).0, Unavailable)
    case Unreached => (slot, Unavailable)
  }

  // ---------- the signer ----------

  datatype Issue = Issued(unsigned: Value, document: Value) | Refused(error: string)

  /** The first platform service that fails the issuer, if any. */
  datatype Outage = Working | BadKey | StorageDown | SigningDown

  function SignerCandidate(rt: Runtime, environment: Text, key: Text, v: Value): CheckpointRecord {
    CheckpointRecord(
      environment, TextProp(v, "productId"), TextProp(v, "audience"), rt.sha256(key),
      RevisionOf(v), rt.sha256(Print(v)), rt.sha256(Print(Prop(v, "truth"))),
      TextProp(Prop(v, "truth"), "lastVerifiedAt"), TextProp(v, "observedAt"), TextProp(v, "expiresAt"))
  }

  function RevisionOf(v: Value): int {
    match Prop(Prop(v, "truth"), "revision")
    case Num(n) => n
    case _ => 0
  }

  /** The document without its signature. */
  function UnsignedValues(rt: Runtime, v: Value, issuedAt: int, expiresAt: int): (r: seq<Value>)
    ensures |r| == |UNSIGNED_KEYS|
  {
    [Num(2), Prop(v, "productId"), Prop(v, "audience"), Str(rt.toIso(issuedAt)), Str(rt.toIso(expiresAt)),
     Prop(v, "observedAt"), Prop(v, "expiresAt"), Str(rt.sha256(Print(v))), Prop(v, "truth")]
  }

  /** The observation is one the issuer will handle at the instant `now`. */
  predicate Admissible(rt: Runtime, v: Value, now: int) {
    && v.Obj?
    && Prop(v, "productId").Str? && KnownProduct(Prop(v, "productId").s)
    && Prop(v, "audience").Str?
    && ValidateObservation(rt, v, Prop(v, "productId").s, Prop(v, "audience").s, now)
  }

  /** Deciding that raises a TypeError, which nothing here catches. */
  predicate AdmissionThrows(rt: Runtime, v: Value, now: int) {
    && v.Obj?
    && Prop(v, "productId").Str? && KnownProduct(Prop(v, "productId").s)
    && Prop(v, "audience").Str?
    && ObservationThrows(rt, v, Prop(v, "productId").s, Prop(v, "audience").s, now)
  }

  function DocumentExpiry(rt: Runtime, v: Value, issuedAt: int): int {
    var source := match rt.dateParse(TextProp(v, "expiresAt")) case Some(t) => t case None => 0;
    if source < issuedAt + SIGNED_DOCUMENT_TTL_MS then source else issuedAt + SIGNED_DOCUMENT_TTL_MS
  }

  /** `AuthorityIssuer.fetch` on a parsed body: `validatedAt` and `issuedAt` are its two readings
      of the clock, `key` the private key when one is configured. */
  function Sign(rt: Runtime, environment: Text, key: Option<Text>, slot: Slot, v: Value,
                validatedAt: int, issuedAt: int, outage: Outage): (Slot, Issue)
  {
    if !Admissible(rt, v, validatedAt) then
      (slot, Refused(if AdmissionThrows(rt, v, validatedAt) then "TypeError" else "invalid_observation"))
    else if key.None? then (slot, Refused("signing_key_not_configured"))
    else if outage.BadKey? then (slot, Refused("signing_key_invalid"))
    else if outage.StorageDown? then (slot, Refused("checkpoint_unavailable"))
    else
      var (stored, verdict) := SignerTransaction(rt, slot, SignerCandidate(rt, environment, key.value, v));
      if verdict == Rollback then (stored, Refused("observation_rollback"))
      else if verdict == Invalid then (stored, Refused("checkpoint_invalid"))
      else
        var expiresAt := DocumentExpiry(rt, v, issuedAt);
        if expiresAt <= issuedAt then (stored, Refused("observation_expired"))
        else if outage.SigningDown? then (stored, Refused("signing_failed"))
        else
          var values := UnsignedValues(rt, v, issuedAt, expiresAt);
          var unsigned := Make(UNSIGNED_KEYS, values);
          var signature := rt.sign(key.value, Print(unsigned));
          (stored, Issued(unsigned, Make(DOCUMENT_KEYS, values + [Str(signature)])))
  }

  /** The source's own expiry lies after `issuedAt`. */
  predicate OutlivesIssue(rt: Runtime, v: Value, issuedAt: int) {
    var expires := rt.dateParse(TextProp(v, "expiresAt"));
    expires.Some? && issuedAt < expires.value
  }

  /** Exactly when the issuer issues, when it answers with a rollback, and what it stores: an
      admissible observation that nothing keeps from storage becomes the checkpoint if and only if
      none is held or it follows the one held, and its document goes out if there is life left. */
  lemma SignExactly(rt: Runtime, environment: Text, key: Option<Text>, slot: Slot, v: Value,
                    validatedAt: int, issuedAt: int, outage: Outage)
    requires slot.Vacant? || (slot.Held? && IsSignerRecord(rt, slot.record))
    ensures var (slot', answer) := Sign(rt, environment, key, slot, v, validatedAt, issuedAt, outage);
      var able := Admissible(rt, v, validatedAt) && key.Some? && !outage.BadKey? && !outage.StorageDown?;
      var r := SignerCandidate(rt, environment, if key.Some? then key.value else [], v);
      var follows := slot.Held? ==> Follows(rt, slot.record, r);
      && (answer.Issued? <==> able && follows && OutlivesIssue(rt, v, issuedAt) && outage.Working?)
      && (answer == Refused("observation_rollback") <==> able && !follows && SameIdentity(slot.record, r))
      && (answer == Refused("checkpoint_invalid") <==> able && !follows && !SameIdentity(slot.record, r))
      && (answer == Refused("observation_expired") <==> able && follows && !OutlivesIssue(rt, v, issuedAt))
      && slot' == (if able && follows then Held(r) else slot)
  {
    hide Prop, Print, SignerTruth, HasExactKeys, UnsignedValues, Make, SignerCandidate, IsSignerRecord, HasZone;
    if key.Some? && slot.Held? {
      SignerAcceptsFollowers(rt, slot.record, SignerCandidate(rt, environment, key.value, v));
    }
  }

  // ---------- the gateway ----------

  datatype Config = Config(product: Text, url: Text, publicKey: Text, maxAgeSeconds: int)

  datatype Verification = Verified(truth: Value, truthHash: Text, publicKeyHash: Text) | Rejected(problem: string)

  /** `reconstructedObservation` */
  function Reconstruct(d: Value): Value {
    Make(OBSERVATION_KEYS, [Num(1)] + Props(d, RECONSTRUCTED_KEYS))
  }

  /** `unsigned` as the gateway rebuilds it. */
  function UnsignedOf(d: Value): Value {
    Make(UNSIGNED_KEYS, Props(d, UNSIGNED_KEYS))
  }

  /** The five instants of a document and whether its truth is labelled fresh. */
  datatype Times = Times(
    issued: int, expires: int, observed: int, sourceExpires: int, verified: int, labelledFresh: bool)

  function TimesOf(rt: Runtime, d: Value): Times
    requires ValidateShape(rt, d)
  {
    Times(
      GatewayTime(rt, Prop(d, "issuedAt")).value,
      GatewayTime(rt, Prop(d, "expiresAt")).value,
      GatewayTime(rt, Prop(d, "sourceObservedAt")).value,
      GatewayTime(rt, Prop(d, "sourceExpiresAt")).value,
      GatewayTime(rt, Prop(Prop(d, "truth"), "lastVerifiedAt")).value,
      Prop(Prop(d, "truth"), "freshness") == Label("fresh"))
  }

  /** The negation of the eleven tests that answer `authority_status_expired`. */
  predicate InWindow(t: Times, maxAgeSeconds: int, now: int) {
    && t.expires > t.issued
    && t.sourceExpires > t.observed
    && t.expires <= t.sourceExpires
    && t.verified <= t.observed
    && t.observed <= t.issued + CLOCK_SKEW_MS
    && t.issued <= now + CLOCK_SKEW_MS
    && t.expires > now
    && t.sourceExpires > now
    && now - t.issued < maxAgeSeconds * 1000
    && now - t.observed < maxAgeSeconds * 1000
    && (t.labelledFresh ==> now - t.verified < maxAgeSeconds * 1000)
  }

  function GatewayCandidate(rt: Runtime, environment: Text, config: Config, d: Value): CheckpointRecord {
    CheckpointRecord(
      environment, config.product, TextProp(d, "audience"), rt.sha256(config.publicKey),
      RevisionOf(d), TextProp(d, "observationHash"), rt.sha256(Print(Prop(d, "truth"))),
      TextProp(Prop(d, "truth"), "lastVerifiedAt"), TextProp(d, "sourceObservedAt"),
      TextProp(d, "sourceExpiresAt"))
  }

  /** Everything `verifyAuthority` tests before it asks the checkpoint; `genuine` is the answer
      of `crypto.subtle.verify`, and "TypeError" an exception that it passes on to its caller. */
  function Examine(rt: Runtime, config: Config, d: Value, now: int, genuine: bool): (problem: Option<string>) {
    if !ValidateShape(rt, d) then
      Some(if ShapeThrows(rt, d) then "TypeError" else "authority_signature_invalid")
    else if Prop(d, "productId") != Str(config.product) || Prop(d, "audience") != Str(config.url) then
      Some("authority_product_mismatch")
    else if !InWindow(TimesOf(rt, d), config.maxAgeSeconds, now) then Some("authority_status_expired")
    else if rt.sha256(Print(Reconstruct(d))) != TextProp(d, "observationHash") then
      Some("authority_signature_invalid")
    else if !genuine then Some("authority_signature_invalid")
    else None
  }

  /** The time tests, in order: what was verified was observed later, the document lives within the
      life of its source, it is no older at issue than the clocks may differ and not from the future,
      it is alive, and neither it nor what it reports is too old. */
  lemma WindowExactly(t: Times, maxAgeSeconds: int, now: int)
    ensures InWindow(t, maxAgeSeconds, now)
       <==> && t.verified <= t.observed <= t.issued + 60_000 && t.observed < t.sourceExpires
            && t.issued < t.expires <= t.sourceExpires
            && t.issued - 60_000 <= now < t.expires
            && now < t.issued + maxAgeSeconds * 1000 && now < t.observed + maxAgeSeconds * 1000
            && (t.labelledFresh ==> now < t.verified + maxAgeSeconds * 1000)
  {
  }

  /** What is wrong with a document that does not pass: another product or audience is told apart from
      a time out of bounds, and everything else counts as a bad signature. */
  lemma ExamineExactly(rt: Runtime, config: Config, d: Value, now: int, genuine: bool)
    ensures var problem := Examine(rt, config, d, now, genuine);
      var shaped := ValidateShape(rt, d);
      var ours := shaped && Prop(d, "productId") == Str(config.product) && Prop(d, "audience") == Str(config.url);
      var timely := ours && InWindow(TimesOf(rt, d), config.maxAgeSeconds, now);
      && (problem == None <==> timely && genuine && rt.sha256(Print(Reconstruct(d))) == TextProp(d, "observationHash"))
      && (problem == Some("authority_product_mismatch") <==> shaped && !ours)
      && (problem == Some("authority_status_expired") <==> ours && !timely)
      && (problem == Some("TypeError") <==> ShapeThrows(rt, d) && !shaped)
  {
    hide ValidateShape, TimesOf, Prop, Print, Reconstruct, InWindow, ShapeThrows;
  }

  /** `verifyAuthority` on a parsed response. */
  function Verify(rt: Runtime, environment: Text, config: Config, slot: Slot, d: Value, now: int, genuine: bool,
                  link: Link): (Slot, Verification)
  {
    match Examine(rt, config, d, now, genuine)
    case Some(problem) => (slot, Rejected(problem))
    case None =>
      var (stored, verdict) := Submit(rt, environment, slot, GatewayCandidate(rt, environment, config, d), link);
      match verdict
      case Accepted =>
        (stored, Verified(Prop(d, "truth"), rt.sha256(Print(Prop(d, "truth"))), rt.sha256(config.publicKey)))
      case Rollback => (stored, Rejected("authority_revision_rollback"))
      case Invalid => (stored, Rejected("authority_checkpoint_unavailable"))
      case Unavailable => (stored, Rejected("authority_checkpoint_unavailable"))
  }

  // ---------- the stateful objects ----------

  /** The durable object behind the signer. */
  class AuthorityIssuer {
    const environment: Text
    const signingKey: Option<Text>
    var sourceCheckpoint: Slot

    constructor (environment: Text, signingKey: Option<Text>)
      ensures this.environment == environment && this.signingKey == signingKey
      ensures sourceCheckpoint == Vacant
    {
      this.environment, this.signingKey := environment, signingKey;
      sourceCheckpoint := Vacant;
    }

    method Fetch(rt: Runtime, v: Value, validatedAt: int, issuedAt: int, outage: Outage) returns (answer: Issue)
      modifies this`sourceCheckpoint
      ensures (sourceCheckpoint, answer)
           == Sign(rt, environment, signingKey, old(sourceCheckpoint), v, validatedAt, issuedAt, outage)
    {
      if !Admissible(rt, v, validatedAt) {
        return Refused(if AdmissionThrows(rt, v, validatedAt) then "TypeError" else "invalid_observation");
      }
      if signingKey.None? { return Refused("signing_key_not_configured"); }
      if outage.BadKey? { return Refused("signing_key_invalid"); }
      if outage.StorageDown? { return Refused("checkpoint_unavailable"); }
      var verdict := Transact(rt, SignerCandidate(rt, environment, signingKey.value, v));
      if verdict == Rollback { return Refused("observation_rollback"); }
      if verdict == Invalid { return Refused("checkpoint_invalid"); }
      var expiresAt := DocumentExpiry(rt, v, issuedAt);
      if expiresAt <= issuedAt { return Refused("observation_expired"); }
      if outage.SigningDown? { return Refused("signing_failed"); }
      var values := UnsignedValues(rt, v, issuedAt, expiresAt);
      var unsigned := Make(UNSIGNED_KEYS, values);
      var signature := rt.sign(signingKey.value, Print(unsigned));
      answer := Issued(unsigned, Make(DOCUMENT_KEYS, values + [Str(signature)]));
    }

    method Transact(rt: Runtime, candidate: CheckpointRecord) returns (verdict: Verdict)
      modifies this`sourceCheckpoint
      ensures (sourceCheckpoint, verdict) == SignerTransaction(rt, old(sourceCheckpoint), candidate)
    {
      if sourceCheckpoint == Foreign { return Invalid; }
      if sourceCheckpoint.Held? {
        var prior := sourceCheckpoint.record;
        if !IsSignerRecord(rt, prior) { return Invalid; }
        if !SameIdentity(prior, candidate) { return Invalid; }
        if prior.keyHash != candidate.keyHash || candidate.revision < prior.revision { return Rollback; }
        if candidate.revision == prior.revision {
          return if Identical(candidate, prior) then Accepted else Rollback;
        }
        if Earlier(rt, candidate.lastVerifiedAt, prior.lastVerifiedAt)
           || Earlier(rt, candidate.sourceObservedAt, prior.sourceObservedAt) {
          return Rollback;
        }
      }
      sourceCheckpoint := Held(candidate);
      return Accepted;
    }
  }

  /** The durable object behind the gateway. */
  class AuthorityCheckpoint {
    const environment: Text
    var checkpoint: Slot

    constructor (environment: Text)
      ensures this.environment == environment && checkpoint == Vacant
    {
      this.environment := environment;
      checkpoint := Vacant;
    }

    method Accept(rt: Runtime, candidate: CheckpointRecord, storageUp: bool) returns (verdict: Verdict)
      modifies this`checkpoint
      ensures (checkpoint, verdict) == CheckpointAnswer(rt, environment, old(checkpoint), candidate, storageUp)
    {
      if !IsGatewayRecord(rt, candidate) || candidate.environment != environment { return Invalid; }
      if !storageUp { return Unavailable; }
      if checkpoint == Foreign { return Invalid; }
      if checkpoint.Held? {
        var prior := checkpoint.record;
        if !IsGatewayRecord(rt, prior) { return Invalid; }
        if !SameIdentity(prior, candidate) { return Invalid; }
        if candidate.revision < prior.revision { return Rollback; }
        if candidate.keyHash != prior.keyHash { return Rollback; }
        if candidate.revision == prior.revision {
          return if Identical(candidate, prior) then Accepted else Rollback;
        }
        if Earlier(rt, candidate.lastVerifiedAt, prior.lastVerifiedAt) { return Rollback; }
        if Earlier(rt, candidate.sourceObservedAt, prior.sourceObservedAt) { return Rollback; }
      }
      checkpoint := Held(candidate);
      return Accepted;
    }
  }
}
