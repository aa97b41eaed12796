/** Signer and gateway together: where accepted truth comes from, and which documents get through. */
module AuthorityComposition {
  import opened Wrappers
  import opened Json
  import opened CanonicalJson
  import opened CanonicalParser
  import opened AuthorityShape
  import opened AuthorityProtocol
  import opened AuthorityAgreement
  import opened AuthoritySystem

  // ---------- a signed text pins down the observation ----------

  lemma UnsignedFields(d: Value, i: nat)
    requires i < |UNSIGNED_KEYS|
    ensures Prop(UnsignedOf(d), UNSIGNED_KEYS[i]) == Prop(d, UNSIGNED_KEYS[i])
  {
    GoodDocumentKeys();
    MakeProps(UNSIGNED_KEYS, Props(d, UNSIGNED_KEYS));
    assert Props(d, UNSIGNED_KEYS)[i] == Prop(d, UNSIGNED_KEYS[i]);
  }

  lemma UnsignedWellFormed(rt: Runtime, v: Value, issuedAt: int, expiresAt: int)
    requires WellFormed(v)
    ensures WellFormed(Make(UNSIGNED_KEYS, UnsignedValues(rt, v, issuedAt, expiresAt)))
  {
    GoodDocumentKeys();
    PropWellFormed(v, "productId");
    PropWellFormed(v, "audience");
    PropWellFormed(v, "observedAt");
    PropWellFormed(v, "expiresAt");
    PropWellFormed(v, "truth");
    MakeWellFormed(UNSIGNED_KEYS, UnsignedValues(rt, v, issuedAt, expiresAt));
  }

  /** A document whose signed text is that of an issued one has, up to member order, its fields. */
  lemma SignedFields(rt: Runtime, d: Value, v: Value, issuedAt: int, expiresAt: int, i: nat)
    requires WellFormed(d) && WellFormed(v) && i < |UNSIGNED_KEYS|
    requires Print(UnsignedOf(d)) == Print(Make(UNSIGNED_KEYS, UnsignedValues(rt, v, issuedAt, expiresAt)))
    ensures Same(Prop(d, UNSIGNED_KEYS[i]), UnsignedValues(rt, v, issuedAt, expiresAt)[i])
  {
    hide Prop, Print, Same, WellFormed;
    var values := UnsignedValues(rt, v, issuedAt, expiresAt);
    var u := Make(UNSIGNED_KEYS, values);
    RebuiltWellFormed(d);
    UnsignedWellFormed(rt, v, issuedAt, expiresAt);
    PrintInjective(UnsignedOf(d), u);
    SameProp(UnsignedOf(d), u, UNSIGNED_KEYS[i]);
    UnsignedFields(d, i);
    GoodDocumentKeys();
    MakeProps(UNSIGNED_KEYS, values);
  }

  /** What the gateway reconstructs from a genuinely signed document is the observation that the
      signer validated, whoever carried the document and however its members were reordered. */
  lemma SignedObservation(rt: Runtime, d: Value, v: Value, issuedAt: int, expiresAt: int)
    requires WellFormed(d) && WellFormed(v)
    requires HasExactKeys(v, OBSERVATION_KEYS) && Prop(v, "schemaVersion") == Num(1)
    requires Print(UnsignedOf(d)) == Print(Make(UNSIGNED_KEYS, UnsignedValues(rt, v, issuedAt, expiresAt)))
    ensures Same(Reconstruct(d), v)
    ensures TextProp(d, "observationHash") == rt.sha256(Print(v))
  {
    hide Prop, Print, WellFormed, HasExactKeys, Make, Reconstruct, UnsignedOf;
    SignedFields(rt, d, v, issuedAt, expiresAt, 1);
    SignedFields(rt, d, v, issuedAt, expiresAt, 2);
    SignedFields(rt, d, v, issuedAt, expiresAt, 5);
    SignedFields(rt, d, v, issuedAt, expiresAt, 6);
    SignedFields(rt, d, v, issuedAt, expiresAt, 7);
    SignedFields(rt, d, v, issuedAt, expiresAt, 8);
    assert UNSIGNED_KEYS[1] == "productId" && UNSIGNED_KEYS[2] == "audience"
        && UNSIGNED_KEYS[5] == "sourceObservedAt" && UNSIGNED_KEYS[6] == "sourceExpiresAt"
        && UNSIGNED_KEYS[7] == "observationHash" && UNSIGNED_KEYS[8] == "truth";
    ReconstructFields(d);
    ReconstructKeys(d);
    SameObservation(Reconstruct(d), v);
  }

  // ---------- what a run keeps, document by document ----------

  lemma IssuedFacts(rt: Runtime, steps: seq<Step>, k: nat)
    requires HexDigests(rt) && k < |Run(rt, steps).issued|
    ensures IssuedOk(rt, Run(rt, steps).issued[k])
  {
    hide Run, HexDigests, IssuedOk, IsSignerRecord, Follows, IssuedName;
    SignerHistory(rt, steps);
  }

  lemma IssuedOrder(rt: Runtime, steps: seq<Step>, k: nat, m: nat)
    requires HexDigests(rt) && k <= m < |Run(rt, steps).issued|
    requires IssuedName(Run(rt, steps).issued[k]) == IssuedName(Run(rt, steps).issued[m])
    ensures Follows(rt, Run(rt, steps).issued[k].record, Run(rt, steps).issued[m].record)
  {
    hide Run, HexDigests, IssuedOk, IsSignerRecord, Follows, IssuedName;
    SignerHistory(rt, steps);
  }

  /** Document `a`, committed at a gateway, carries the observation of document `k`; and if it was
      accepted, the gateway has handed on the truth of that observation, with the digest the signer
      recorded. */
  ghost predicate ComesFrom(rt: Runtime, a: CommittedDocument, k: IssuedDocument) {
    && rt.publicOf(k.key) == a.config.publicKey
    && Same(Reconstruct(a.document), k.observation)
    && (a.answer.Verified? ==>
          && Same(a.answer.truth, Prop(k.observation, "truth"))
          && a.answer.truthHash == k.record.truthHash
          && a.answer.publicKeyHash == rt.sha256(rt.publicOf(k.key)))
    && a.record == k.record.(environment := a.environment, keyHash := rt.sha256(a.config.publicKey))
  }

  lemma CommittedComesFrom(rt: Runtime, a: CommittedDocument, k: IssuedDocument)
    requires WellFormed(a.document) && Examine(rt, a.config, a.document, a.now, true) == None
    requires a.record == GatewayCandidate(rt, a.environment, a.config, a.document)
    requires AnswersFor(rt, a.config, a.document, a.answer)
    requires IssuedOk(rt, k) && rt.publicOf(k.key) == a.config.publicKey
    requires Print(k.unsigned) == Print(UnsignedOf(a.document))
    ensures ComesFrom(rt, a, k)
  {
    hide Prop, Print, WellFormed, HasExactKeys, Make, UnsignedOf, Reconstruct, GatewayCandidate,
         SignerCandidate, ValidateShape, TimesOf, InWindow, Same;
    SignedObservation(rt, a.document, k.observation, k.issuedAt, DocumentExpiry(rt, k.observation, k.issuedAt));
    RecordsAgree(rt, k.environment, a.environment, k.key, a.config, k.observation, a.document);
    ReconstructFields(a.document);
    SameProp(Reconstruct(a.document), k.observation, "truth");
    CandidateTruth(rt, a.environment, a.config, a.document);
  }

  lemma CandidateTruth(rt: Runtime, environment: Text, config: Config, d: Value)
    ensures GatewayCandidate(rt, environment, config, d).truthHash == rt.sha256(Print(Prop(d, "truth")))
  {
  }

  /** Provenance.  Every document a gateway committed in a run carries an observation that a signer
      had validated and checkpointed for the same product, and the gateway's record is the
      signer's. */
  lemma Provenance(rt: Runtime, steps: seq<Step>, i: nat)
    requires HexDigests(rt) && i < |Run(rt, steps).committed|
    ensures exists k :: 0 <= k < |Run(rt, steps).issued|
                     && IssuedOk(rt, Run(rt, steps).issued[k])
                     && IssuedName(Run(rt, steps).issued[k]).product == Run(rt, steps).committed[i].config.product
                     && ComesFrom(rt, Run(rt, steps).committed[i], Run(rt, steps).issued[k])
  {
    hide Run, HexDigests, IssuedOk, ComesFrom, Examine, Print, UnsignedOf, GatewayCandidate, WellFormed,
         IsGatewayRecord, IsSignerRecord, Follows, AtEnd;
    GatewayHistory(rt, steps);
    SignerHistory(rt, steps);
    var s := Run(rt, steps);
    var a := s.committed[i];
    assert CommittedOk(rt, s.issued, a);
    var k :| 0 <= k < |s.issued| && rt.publicOf(s.issued[k].key) == a.config.publicKey
             && Print(s.issued[k].unsigned) == Print(UnsignedOf(a.document));
    CommittedComesFrom(rt, a, s.issued[k]);
    SameProduct(rt, a, s.issued[k]);
  }

  lemma SameProduct(rt: Runtime, a: CommittedDocument, k: IssuedDocument)
    requires IssuedOk(rt, k) && ComesFrom(rt, a, k)
    requires a.record == GatewayCandidate(rt, a.environment, a.config, a.document)
    ensures IssuedName(k).product == a.config.product
  {
    hide Admissible, Same, Reconstruct, Print, Make, UnsignedValues, WellFormed;
  }

  lemma SameRevision(rt: Runtime, a: CommittedDocument, m: IssuedDocument, k: IssuedDocument)
    requires WellFormed(a.document) && IssuedOk(rt, m) && IssuedOk(rt, k) && ComesFrom(rt, a, m)
    requires Follows(rt, m.record, k.record) || Follows(rt, k.record, m.record)
    requires k.record.revision == a.record.revision
    ensures var rebuilt := Reconstruct(a.document);
      Same(rebuilt, k.observation) || Collision(rt, Print(rebuilt), Print(k.observation))
  {
    hide Print, WellFormed, Same, Prop, Reconstruct, Admissible, Make, UnsignedValues, Earlier;
    RebuiltWellFormed(a.document);
    SamePrint(Reconstruct(a.document), m.observation);
    PrintInjective(Reconstruct(a.document), k.observation);
  }

  /** One revision, one observation, on both sides at once.  A committed document comes from an
      issued one, and whatever its signer has issued for that product under the same revision is
      the same observation, unless two different printed observations share a digest. */
  lemma OneObservationPerRevision(rt: Runtime, steps: seq<Step>, i: nat)
    requires HexDigests(rt) && i < |Run(rt, steps).committed|
    ensures var issued, a := Run(rt, steps).issued, Run(rt, steps).committed[i];
      var rebuilt := Reconstruct(a.document);
      exists m :: 0 <= m < |issued| && ComesFrom(rt, a, issued[m])
        && forall k :: 0 <= k < |issued| && IssuedName(issued[k]) == IssuedName(issued[m])
                       && issued[k].record.revision == a.record.revision ==>
             Same(rebuilt, issued[k].observation) || Collision(rt, Print(rebuilt), Print(issued[k].observation))
  {
    hide Run, HexDigests, Print, WellFormed, IsGatewayRecord, Examine, Same, Reconstruct, GatewayCandidate, AtEnd,
         IssuedName, IssuedOk, ComesFrom, Follows, Collision;
    GatewayHistory(rt, steps);
    Provenance(rt, steps, i);
    var s := Run(rt, steps);
    var a := s.committed[i];
    assert CommittedOk(rt, s.issued, a);
    var m :| 0 <= m < |s.issued| && IssuedOk(rt, s.issued[m]) && ComesFrom(rt, a, s.issued[m]);
    forall k | 0 <= k < |s.issued| && IssuedName(s.issued[k]) == IssuedName(s.issued[m])
               && s.issued[k].record.revision == a.record.revision
      ensures var rebuilt := Reconstruct(a.document);
        Same(rebuilt, s.issued[k].observation) || Collision(rt, Print(rebuilt), Print(s.issued[k].observation))
    {
      IssuedFacts(rt, steps, k);
      if m <= k { IssuedOrder(rt, steps, m, k); } else { IssuedOrder(rt, steps, k, m); }
      SameRevision(rt, a, s.issued[m], s.issued[k]);
    }
  }

  /** Freshness over whole runs: when a document was committed, and so when it was accepted, the
      observation behind it was younger than the configured maximum age and than ten minutes; and
      if its freshness is the string "fresh", the verification it reports was younger than the
      maximum age too. */
  lemma AcceptedIsRecent(rt: Runtime, steps: seq<Step>, i: nat)
    requires HexDigests(rt) && i < |Run(rt, steps).committed|
    ensures var a := Run(rt, steps).committed[i];
      && ValidateShape(rt, a.document)
      && var age := a.now - TimesOf(rt, a.document).observed;
         age < a.config.maxAgeSeconds * 1000 && age < MAX_OBSERVATION_TTL_MS
    ensures var a := Run(rt, steps).committed[i];
      var freshness := Prop(Prop(a.document, "truth"), "freshness");
      freshness.Str? && JsString(freshness) == Some(Ascii("fresh")) ==>
        a.now - TimesOf(rt, a.document).verified < a.config.maxAgeSeconds * 1000
  {
    hide Run, HexDigests, Print, WellFormed, IsGatewayRecord, Examine, Same, Prop, ValidateShape, TimesOf,
         GatewayCandidate, Reconstruct, Admissible, AtEnd, JsString, IssuedOk, ComesFrom;
    GatewayHistory(rt, steps);
    var s := Run(rt, steps);
    var a := s.committed[i];
    assert CommittedOk(rt, s.issued, a);
    Provenance(rt, steps, i);
    var k :| 0 <= k < |s.issued| && IssuedOk(rt, s.issued[k]) && ComesFrom(rt, a, s.issued[k]);
    SourceRecent(rt, a, s.issued[k]);
    FreshVerified(rt, a.config, a.document, a.now);
  }

  lemma SourceRecent(rt: Runtime, a: CommittedDocument, k: IssuedDocument)
    requires IssuedOk(rt, k) && ComesFrom(rt, a, k) && Examine(rt, a.config, a.document, a.now, true) == None
    ensures ValidateShape(rt, a.document)
    ensures var age := a.now - TimesOf(rt, a.document).observed;
      age < a.config.maxAgeSeconds * 1000 && age < MAX_OBSERVATION_TTL_MS
  {
    hide Examine, Print, WellFormed, Same, Prop, ValidateShape, TimesOf, SignerCandidate, Reconstruct, Admissible, Make,
         UnsignedValues, Document;
    RecentAtAcceptance(rt, a.config, a.document, a.now, k.observation, k.validatedAt);
  }

  lemma FreshVerified(rt: Runtime, config: Config, d: Value, now: int)
    requires Examine(rt, config, d, now, true) == None
    ensures ValidateShape(rt, d)
    ensures var freshness := Prop(Prop(d, "truth"), "freshness");
      freshness.Str? && JsString(freshness) == Some(Ascii("fresh")) ==>
        now - TimesOf(rt, d).verified < config.maxAgeSeconds * 1000
  {
    hide Prop, Print, Reconstruct, ValidateShape;
  }

  lemma RecentAtAcceptance(rt: Runtime, config: Config, d: Value, now: int, v: Value, validatedAt: int)
    requires Examine(rt, config, d, now, true) == None
    requires Admissible(rt, v, validatedAt) && Same(Reconstruct(d), v)
    ensures ValidateShape(rt, d)
    ensures now - TimesOf(rt, d).observed < config.maxAgeSeconds * 1000
    ensures now - TimesOf(rt, d).observed < MAX_OBSERVATION_TTL_MS
  {
    hide Prop, Print, Reconstruct, Same, ValidateShape, TimesOf, Admissible;
    SourceTimes(rt, d, v, validatedAt);
  }

  lemma SourceTimes(rt: Runtime, d: Value, v: Value, validatedAt: int)
    requires ValidateShape(rt, d) && Admissible(rt, v, validatedAt) && Same(Reconstruct(d), v)
    ensures TimesOf(rt, d).sourceExpires - TimesOf(rt, d).observed <= MAX_OBSERVATION_TTL_MS
  {
    hide Prop, Reconstruct, HasExactKeys, SignerTruth, GatewayTruth;
    ReconstructFields(d);
    SameProp(Reconstruct(d), v, "observedAt");
    SameProp(Reconstruct(d), v, "expiresAt");
  }

  // ---------- which documents get through ----------

  /** The delivery of an issued document to a gateway that is configured for it, at an instant
      inside its window. */
  ghost predicate Deliverable(rt: Runtime, config: Config, k: IssuedDocument, now: int) {
    && KnownProduct(config.product) && rt.audienceOk(config.url, config.product)
    && Prop(k.observation, "productId") == Str(config.product)
    && Prop(k.observation, "audience") == Str(config.url)
    && rt.publicOf(k.key) == config.publicKey
    && IsoOk(rt, k.issuedAt) && IsoOk(rt, DocumentExpiry(rt, k.observation, k.issuedAt))
    && ValidateShape(rt, k.document)
    && InWindow(TimesOf(rt, k.document), config.maxAgeSeconds, now)
  }

  function AtGateway(rt: Runtime, environment: Text, config: Config, r: CheckpointRecord): CheckpointRecord {
    r.(environment := environment, keyHash := rt.sha256(config.publicKey))
  }

  lemma IssuedExamined(rt: Runtime, environment: Text, config: Config, k: IssuedDocument, now: int)
    requires HexDigests(rt) && IssuedOk(rt, k) && Deliverable(rt, config, k, now)
    ensures Examine(rt, config, k.document, now, true) == None
    ensures GatewayCandidate(rt, environment, config, k.document) == AtGateway(rt, environment, config, k.record)
    ensures IsGatewayRecord(rt, AtGateway(rt, environment, config, k.record))
  {
    hide Prop, Print, WellFormed, HasExactKeys, Make, UnsignedOf, Reconstruct, GatewayCandidate,
         SignerCandidate, ValidateShape, TimesOf, InWindow, Same, IsGatewayRecord;
    var expiresAt := DocumentExpiry(rt, k.observation, k.issuedAt);
    var signature := rt.sign(k.key, Print(k.unsigned));
    DocumentAgrees(rt, k.observation, k.validatedAt, k.issuedAt, expiresAt, signature);
    DocumentFields(rt, k.observation, k.issuedAt, expiresAt, signature);
    DocumentWellFormed(rt, k.observation, k.issuedAt, expiresAt, signature);
    RecordsAgree(rt, k.environment, environment, k.key, config, k.observation, k.document);
    GatewayRecordRecognised(rt, environment, config, k.document, now, true);
  }

  /** Moving two signer records to the gateway's environment and key keeps their order. */
  lemma AtGatewayFollows(rt: Runtime, environment: Text, config: Config, a: CheckpointRecord, b: CheckpointRecord)
    requires Follows(rt, a, b)
    ensures Follows(rt, AtGateway(rt, environment, config, a), AtGateway(rt, environment, config, b))
  {
  }

  /** The gateway holds nothing, or the record of an issued document that `k` follows. */
  ghost predicate Behind(rt: Runtime, environment: Text, config: Config, slot: Slot, k: IssuedDocument) {
    || slot.Vacant?
    || exists r :: slot == Held(AtGateway(rt, environment, config, r))
                && IsGatewayRecord(rt, AtGateway(rt, environment, config, r)) && Follows(rt, r, k.record)
  }

  /** What the gateway answers when it accepts: the truth of the observation that was signed. */
  function AnswerTo(rt: Runtime, config: Config, k: IssuedDocument): Verification {
    Verified(Prop(k.observation, "truth"), k.record.truthHash, rt.sha256(config.publicKey))
  }

  lemma IssuedTruth(rt: Runtime, k: IssuedDocument)
    requires IssuedOk(rt, k)
    ensures Prop(k.document, "truth") == Prop(k.observation, "truth")
    ensures k.record.truthHash == rt.sha256(Print(Prop(k.observation, "truth")))
  {
    hide Prop, Print, WellFormed, Make, UnsignedValues, Document, Admissible;
    DocumentFields(rt, k.observation, k.issuedAt, DocumentExpiry(rt, k.observation, k.issuedAt),
                   rt.sign(k.key, Print(k.unsigned)));
  }

  lemma DocumentAccepted(rt: Runtime, environment: Text, config: Config, slot: Slot, k: IssuedDocument, now: int)
    requires HexDigests(rt) && IssuedOk(rt, k) && Deliverable(rt, config, k, now)
    requires Behind(rt, environment, config, slot, k)
    ensures var (slot', answer) := Verify(rt, environment, config, slot, k.document, now, true, Answered);
      answer == AnswerTo(rt, config, k) && slot' == Held(AtGateway(rt, environment, config, k.record))
  {
    hide Examine, GatewayCandidate, HexDigests, Deliverable, IsGatewayRecord, Follows, IssuedOk;
    var candidate := AtGateway(rt, environment, config, k.record);
    IssuedExamined(rt, environment, config, k, now);
    IssuedTruth(rt, k);
    if !slot.Vacant? {
      var r :| slot == Held(AtGateway(rt, environment, config, r))
            && IsGatewayRecord(rt, AtGateway(rt, environment, config, r)) && Follows(rt, r, k.record);
      AtGatewayFollows(rt, environment, config, r, k.record);
      GatewayAcceptsFollowers(rt, environment, slot.record, candidate);
    }
  }

  /** Every issued document of a run is genuine to whoever holds the matching public key. */
  lemma IssuedGenuine(rt: Runtime, steps: seq<Step>, k: nat)
    requires HexDigests(rt) && k < |Run(rt, steps).issued|
    ensures var issued := Run(rt, steps).issued;
      Genuine(rt, issued, rt.publicOf(issued[k].key), Print(UnsignedOf(issued[k].document)))
  {
    hide Run, HexDigests, Print, UnsignedOf, Prop, WellFormed, Admissible, Make, UnsignedValues, SignerCandidate,
         Document;
    IssuedFacts(rt, steps, k);
    var d := Run(rt, steps).issued[k];
    DocumentProps(rt, d.observation, d.issuedAt, DocumentExpiry(rt, d.observation, d.issuedAt),
                  rt.sign(d.key, Print(d.unsigned)));
  }

  /** Delivering a document to a gateway that is behind it: the machine's next step commits and
      accepts it. */
  lemma DeliveryAccepted(rt: Runtime, s: System, environment: Text, config: Config, k: IssuedDocument, now: int)
    requires HexDigests(rt) && IssuedOk(rt, k) && Deliverable(rt, config, k, now)
    requires Genuine(rt, s.issued, config.publicKey, Print(UnsignedOf(k.document)))
    requires Behind(rt, environment, config, SlotAt(s.gateways, Name(environment, config.product)), k)
    ensures var s' := Apply(rt, s, GatewayStep(environment, config, k.document, now, Answered));
      var record := AtGateway(rt, environment, config, k.record);
      && s'.issued == s.issued && s'.signers == s.signers
      && s'.committed == s.committed
           + [CommittedDocument(environment, config, k.document, now, record, AnswerTo(rt, config, k))]
      && s'.gateways == s.gateways[Name(environment, config.product) := Held(record)]
  {
    hide Verify, Commits, HexDigests, Deliverable, IssuedOk, IsGatewayRecord, Follows, Behind, GatewayCandidate,
         Print, UnsignedOf, Genuine, WellFormed, AtGateway;
    var name := Name(environment, config.product);
    var slot := SlotAt(s.gateways, name);
    DeliverableWellFormed(rt, k);
    IssuedExamined(rt, environment, config, k, now);
    DocumentAccepted(rt, environment, config, slot, k, now);
    VerifyParts(rt, environment, config, slot, k.document, now, true, Answered);
  }

  lemma DeliverableWellFormed(rt: Runtime, k: IssuedDocument)
    requires IssuedOk(rt, k)
    ensures WellFormed(k.document)
  {
    hide WellFormed, Document, Admissible, Make, UnsignedValues, SignerCandidate, Print;
    DocumentWellFormed(rt, k.observation, k.issuedAt, DocumentExpiry(rt, k.observation, k.issuedAt),
                       rt.sign(k.key, Print(k.unsigned)));
  }

  lemma BehindNext(rt: Runtime, environment: Text, config: Config, a: IssuedDocument, b: IssuedDocument, now: int)
    requires HexDigests(rt) && IssuedOk(rt, a) && Deliverable(rt, config, a, now)
    requires Follows(rt, a.record, b.record)
    ensures Behind(rt, environment, config, Held(AtGateway(rt, environment, config, a.record)), b)
  {
    hide HexDigests, Deliverable, IssuedOk, Follows, IsGatewayRecord, AtGateway;
    IssuedExamined(rt, environment, config, a, now);
  }

  /** The steps that deliver these issued documents at these instants. */
  function Deliveries(environment: Text, config: Config, documents: seq<IssuedDocument>, nows: seq<int>)
    : (steps: seq<Step>)
    requires |documents| == |nows|
    ensures |steps| == |documents|
    ensures forall i :: 0 <= i < |documents| ==>
      steps[i] == GatewayStep(environment, config, documents[i].document, nows[i], Answered)
  {
    seq(|documents|, i requires 0 <= i < |documents| =>
      GatewayStep(environment, config, documents[i].document, nows[i], Answered))
  }

  /** After `n` deliveries the first `n` documents have been accepted, in order. */
  ghost predicate Delivered(rt: Runtime, s: System, s': System, environment: Text, config: Config,
                            documents: seq<IssuedDocument>, n: nat)
    requires n <= |documents|
  {
    var slot := SlotAt(s'.gateways, Name(environment, config.product));
    && s'.issued == s.issued
    && |s'.committed| == |s.committed| + n && s'.committed[..|s.committed|] == s.committed
    && (forall j :: |s.committed| <= j < |s'.committed| ==>
          var a := s'.committed[j];
          && a.answer == AnswerTo(rt, config, documents[j - |s.committed|])
          && a.document == documents[j - |s.committed|].document
          && a.environment == environment && a.config == config)
    && slot == (if n == 0 then SlotAt(s.gateways, Name(environment, config.product))
                else Held(AtGateway(rt, environment, config, documents[n - 1].record)))
  }

  lemma {:induction false} DeliveriesAccepted(rt: Runtime, steps: seq<Step>, environment: Text, config: Config,
                                              documents: seq<IssuedDocument>, nows: seq<int>, n: nat)
    requires HexDigests(rt) && n <= |documents| == |nows|
    requires forall i :: 0 <= i < |documents| ==>
      && IssuedOk(rt, documents[i]) && Deliverable(rt, config, documents[i], nows[i])
      && Genuine(rt, Run(rt, steps).issued, config.publicKey, Print(UnsignedOf(documents[i].document)))
    requires forall i, j :: 0 <= i <= j < |documents| ==> Follows(rt, documents[i].record, documents[j].record)
    requires documents != [] ==>
      Behind(rt, environment, config, SlotAt(Run(rt, steps).gateways, Name(environment, config.product)), documents[0])
    ensures Delivered(rt, Run(rt, steps), Run(rt, steps + Deliveries(environment, config, documents, nows)[..n]),
                      environment, config, documents, n)
  {
    hide Run, Apply, HexDigests, Deliverable, IssuedOk, Follows, Behind, AtGateway, Genuine, Print, UnsignedOf;
    var deliveries := Deliveries(environment, config, documents, nows);
    var s := Run(rt, steps);
    if n == 0 {
      assert steps + deliveries[..0] == steps;
    } else {
      var i := n - 1;
      var before := Run(rt, steps + deliveries[..i]);
      DeliveriesAccepted(rt, steps, environment, config, documents, nows, i);
      assert deliveries[..n] == deliveries[..i] + [deliveries[i]];
      RunStep(rt, steps + deliveries[..i], deliveries[i]);
      assert steps + deliveries[..n] == steps + deliveries[..i] + [deliveries[i]];
      if i > 0 {
        assert Follows(rt, documents[i - 1].record, documents[i].record);
        BehindNext(rt, environment, config, documents[i - 1], documents[i], nows[i - 1]);
      }
      DeliveryAccepted(rt, before, environment, config, documents[i], nows[i]);
      OneMoreDelivered(rt, s, before, Apply(rt, before, deliveries[i]), environment, config, documents, nows[i], i);
    }
  }

  lemma OneMoreDelivered(rt: Runtime, s: System, before: System, after: System, environment: Text, config: Config,
                         documents: seq<IssuedDocument>, now: int, i: nat)
    requires i < |documents| && Delivered(rt, s, before, environment, config, documents, i)
    requires var record := AtGateway(rt, environment, config, documents[i].record);
      && after.issued == before.issued
      && after.committed == before.committed
           + [CommittedDocument(environment, config, documents[i].document, now, record,
                                AnswerTo(rt, config, documents[i]))]
      && after.gateways == before.gateways[Name(environment, config.product) := Held(record)]
    ensures Delivered(rt, s, after, environment, config, documents, i + 1)
  {
    hide AtGateway;
    var n := |s.committed|;
    assert after.committed[..n] == before.committed[..n];
    assert forall j :: 0 <= j < n + i ==> after.committed[j] == before.committed[j];
    assert SlotAt(after.gateways, Name(environment, config.product))
        == Held(AtGateway(rt, environment, config, documents[i].record));
  }

  lemma RunStep(rt: Runtime, steps: seq<Step>, step: Step)
    ensures Run(rt, steps + [step]) == Apply(rt, Run(rt, steps), step)
  {
    hide Apply;
    assert (steps + [step])[..|steps|] == steps;
  }

  /** The two checkpoints compose.  However many of the documents signed for a product are lost or
      repeated, as long as the rest arrive in order and in time, the gateway accepts them all, one
      after the other, if it holds nothing or an earlier one. */
  lemma InOrderAccepted(rt: Runtime, steps: seq<Step>, environment: Text, config: Config,
                        order: seq<nat>, nows: seq<int>)
    requires HexDigests(rt) && |order| == |nows|
    requires forall i :: 0 <= i < |order| ==> order[i] < |Run(rt, steps).issued|
    requires forall i, j :: 0 <= i <= j < |order| ==>
      && order[i] <= order[j]
      && IssuedName(Run(rt, steps).issued[order[i]]) == IssuedName(Run(rt, steps).issued[order[j]])
    requires forall i :: 0 <= i < |order| ==> Deliverable(rt, config, Run(rt, steps).issued[order[i]], nows[i])
    requires order != [] ==>
      Behind(rt, environment, config, SlotAt(Run(rt, steps).gateways, Name(environment, config.product)),
             Run(rt, steps).issued[order[0]])
    ensures var s := Run(rt, steps);
      var documents := seq(|order|, i requires 0 <= i < |order| => s.issued[order[i]]);
      Delivered(rt, s, Run(rt, steps + Deliveries(environment, config, documents, nows)),
                environment, config, documents, |order|)
  {
    hide Run, HexDigests, IssuedOk, Follows, Delivered, Behind, Genuine, Print, UnsignedOf, IssuedName, Deliverable,
         SlotAt;
    var issued := Run(rt, steps).issued;
    var documents := seq(|order|, i requires 0 <= i < |order| => issued[order[i]]);
    forall i | 0 <= i < |documents|
      ensures IssuedOk(rt, documents[i])
      ensures Genuine(rt, issued, config.publicKey, Print(UnsignedOf(documents[i].document)))
    {
      assert Deliverable(rt, config, documents[i], nows[i]);
      IssuedFacts(rt, steps, order[i]);
      IssuedGenuine(rt, steps, order[i]);
      DeliverableProduct(rt, config, documents[i], nows[i]);
    }
    forall i, j | 0 <= i <= j < |documents| ensures Follows(rt, documents[i].record, documents[j].record) {
      IssuedOrder(rt, steps, order[i], order[j]);
    }
    DeliveriesAccepted(rt, steps, environment, config, documents, nows, |order|);
    var deliveries := Deliveries(environment, config, documents, nows);
    assert deliveries[..|order|] == deliveries;
  }

  /** The newest document signed for a product is never refused: after every run in which that
      product had one signing environment and one pinned key, the gateway accepts it at any instant
      inside its window, whatever it committed before and whichever answers were lost. */
  lemma NewestAccepted(rt: Runtime, steps: seq<Step>, environment: Text, config: Config, k: nat, now: int)
    requires HexDigests(rt) && k < |Run(rt, steps).issued|
    requires forall m :: k < m < |Run(rt, steps).issued| ==>
      IssuedName(Run(rt, steps).issued[m]) != IssuedName(Run(rt, steps).issued[k])
    requires forall m :: 0 <= m < |Run(rt, steps).issued|
                         && IssuedName(Run(rt, steps).issued[m]).product == config.product ==>
      Run(rt, steps).issued[m].environment == Run(rt, steps).issued[k].environment
    requires forall i :: 0 <= i < |Run(rt, steps).committed|
                         && CommittedName(Run(rt, steps).committed[i]) == Name(environment, config.product) ==>
      Run(rt, steps).committed[i].config.publicKey == config.publicKey
    requires Deliverable(rt, config, Run(rt, steps).issued[k], now)
    ensures var s := Run(rt, steps);
      Delivered(rt, s, Apply(rt, s, GatewayStep(environment, config, s.issued[k].document, now, Answered)),
                environment, config, [s.issued[k]], 1)
  {
    hide Run, HexDigests, IssuedOk, Follows, Genuine, Apply, Print, UnsignedOf, IssuedName, Deliverable, Behind,
         Delivered, AtGateway;
    var s := Run(rt, steps);
    IssuedFacts(rt, steps, k);
    IssuedGenuine(rt, steps, k);
    DeliverableProduct(rt, config, s.issued[k], now);
    HeldIsBehind(rt, steps, environment, config, k, now);
    DeliveryAccepted(rt, s, environment, config, s.issued[k], now);
    NoneDelivered(rt, s, environment, config, [s.issued[k]]);
    OneMoreDelivered(rt, s, s, Apply(rt, s, GatewayStep(environment, config, s.issued[k].document, now, Answered)),
                     environment, config, [s.issued[k]], now, 0);
  }

  lemma NoneDelivered(rt: Runtime, s: System, environment: Text, config: Config, documents: seq<IssuedDocument>)
    ensures Delivered(rt, s, s, environment, config, documents, 0)
  {
  }

  lemma DeliverableProduct(rt: Runtime, config: Config, k: IssuedDocument, now: int)
    requires Deliverable(rt, config, k, now)
    ensures IssuedName(k).product == config.product && rt.publicOf(k.key) == config.publicKey
  {
    hide Prop, ValidateShape, TimesOf, InWindow;
  }

  /** What the gateway holds for the product comes from an earlier document, if from any. */
  lemma HeldIsBehind(rt: Runtime, steps: seq<Step>, environment: Text, config: Config, k: nat, now: int)
    requires HexDigests(rt) && k < |Run(rt, steps).issued|
    requires IssuedName(Run(rt, steps).issued[k]).product == config.product
    requires forall m :: k < m < |Run(rt, steps).issued| ==>
      IssuedName(Run(rt, steps).issued[m]) != IssuedName(Run(rt, steps).issued[k])
    requires forall m :: 0 <= m < |Run(rt, steps).issued|
                         && IssuedName(Run(rt, steps).issued[m]).product == config.product ==>
      Run(rt, steps).issued[m].environment == Run(rt, steps).issued[k].environment
    requires forall i :: 0 <= i < |Run(rt, steps).committed|
                         && CommittedName(Run(rt, steps).committed[i]) == Name(environment, config.product) ==>
      Run(rt, steps).committed[i].config.publicKey == config.publicKey
    ensures Behind(rt, environment, config, SlotAt(Run(rt, steps).gateways, Name(environment, config.product)),
                   Run(rt, steps).issued[k])
  {
    hide Run, HexDigests, IssuedOk, Follows, IsGatewayRecord, CommittedOk, Same, IssuedName;
    GatewayHistory(rt, steps);
    var s := Run(rt, steps);
    var name := Name(environment, config.product);
    var slot := SlotAt(s.gateways, name);
    assert AtEnd(rt, s, name);
    if slot.Held? {
      var i :| 0 <= i < |s.committed| && CommittedName(s.committed[i]) == name && s.committed[i].record == slot.record;
      Provenance(rt, steps, i);
      var m :| 0 <= m < |s.issued| && IssuedOk(rt, s.issued[m])
            && IssuedName(s.issued[m]).product == s.committed[i].config.product
            && ComesFrom(rt, s.committed[i], s.issued[m]);
      NamedAlike(s.issued[m], s.issued[k]);
      IssuedOrder(rt, steps, m, k);
      assert slot == Held(AtGateway(rt, environment, config, s.issued[m].record));
    }
  }

  lemma NamedAlike(k: IssuedDocument, m: IssuedDocument)
    requires k.environment == m.environment && IssuedName(k).product == IssuedName(m).product
    ensures IssuedName(k) == IssuedName(m)
  {
  }

  // ---------- refusals ----------

  /** A refused document changes nothing at the gateway, with one exception: if the answer of the
      checkpoint is lost, it may have committed a record that follows the one it held. */
  lemma RefusalKeepsCheckpoint(rt: Runtime, environment: Text, config: Config, slot: Slot, d: Value,
                               now: int, genuine: bool, link: Link)
    requires Verify(rt, environment, config, slot, d, now, genuine, link).1.Rejected?
    ensures var slot' := Verify(rt, environment, config, slot, d, now, genuine, link).0;
      var candidate := GatewayCandidate(rt, environment, config, d);
      || slot' == slot
      || (&& link.AnswerLost? && Commits(rt, environment, config, slot, d, now, genuine, link)
          && slot' == Held(candidate) && (slot.Held? ==> Follows(rt, slot.record, candidate)))
  {
    hide Verify, GatewayCandidate, Follows, Examine, IsGatewayRecord, CheckpointAnswer;
    VerifyParts(rt, environment, config, slot, d, now, genuine, link);
  }

  /** A lost answer costs nothing but time: presented again while it still passes examination, the
      same document is verified and the checkpoint stays as it is. */
  lemma RetryAfterLostAnswer(rt: Runtime, environment: Text, config: Config, slot: Slot, d: Value,
                             now: int, later: int, genuine: bool)
    requires Commits(rt, environment, config, slot, d, now, genuine, AnswerLost)
    requires Examine(rt, config, d, later, genuine) == None
    ensures var slot' := Verify(rt, environment, config, slot, d, now, genuine, AnswerLost).0;
      var (slot'', answer) := Verify(rt, environment, config, slot', d, later, genuine, Answered);
      answer.Verified? && answer.truth == Prop(d, "truth") && slot'' == slot'
  {
    hide Examine, GatewayCandidate, IsGatewayRecord;
    VerifyParts(rt, environment, config, slot, d, now, genuine, AnswerLost);
    var candidate := GatewayCandidate(rt, environment, config, d);
    assert candidate.environment == environment by { CandidateEnvironment(rt, environment, config, d); }
    GatewayAcceptsFollowers(rt, environment, candidate, candidate);
  }
}
