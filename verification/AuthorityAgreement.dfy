/** What the two workers agree on for one document: shape, texts, hashes, records and times. */
module AuthorityAgreement {
  import opened Wrappers
  import opened Json
  import opened CanonicalJson
  import opened CanonicalParser
  import opened AuthorityShape
  import opened AuthorityProtocol

  /** The digest has the form the validators test for. */
  ghost predicate HexDigests(rt: Runtime) {
    forall t :: HexText(rt.sha256(t))
  }

  /** `Date.parse` reads back what `toISOString` wrote for this instant. */
  ghost predicate IsoOk(rt: Runtime, t: int) {
    HasZone(rt.toIso(t)) && rt.dateParse(rt.toIso(t)) == Some(t)
  }

  /** Two different texts with one digest. */
  ghost predicate Collision(rt: Runtime, a: Text, b: Text) {
    a != b && rt.sha256(a) == rt.sha256(b)
  }

  lemma RebuiltWellFormed(d: Value)
    requires WellFormed(d)
    ensures WellFormed(Reconstruct(d)) && WellFormed(UnsignedOf(d))
  {
    GoodObservationKeys();
    GoodDocumentKeys();
    PropsWellFormed(d, RECONSTRUCTED_KEYS);
    PropsWellFormed(d, UNSIGNED_KEYS);
    MakeWellFormed(UNSIGNED_KEYS, Props(d, UNSIGNED_KEYS));
    MakeWellFormed(OBSERVATION_KEYS, [Num(1)] + Props(d, RECONSTRUCTED_KEYS));
  }

  // ---------- sign, then verify ----------

  function Document(rt: Runtime, v: Value, issuedAt: int, expiresAt: int, signature: Text): Value {
    Make(DOCUMENT_KEYS, UnsignedValues(rt, v, issuedAt, expiresAt) + [Str(signature)])
  }

  /** The gateway rebuilds exactly what was signed. */
  lemma DocumentProps(rt: Runtime, v: Value, issuedAt: int, expiresAt: int, signature: Text)
    ensures var values := UnsignedValues(rt, v, issuedAt, expiresAt);
      var d := Document(rt, v, issuedAt, expiresAt, signature);
      && HasExactKeys(d, DOCUMENT_KEYS)
      && Props(d, UNSIGNED_KEYS) == values
      && UnsignedOf(d) == Make(UNSIGNED_KEYS, values)
      && Prop(d, "signature") == Str(signature)
  {
    var values := UnsignedValues(rt, v, issuedAt, expiresAt);
    var d := Document(rt, v, issuedAt, expiresAt, signature);
    GoodDocumentKeys();
    MakeProps(DOCUMENT_KEYS, values + [Str(signature)]);
    forall i | 0 <= i < |UNSIGNED_KEYS| ensures Props(d, UNSIGNED_KEYS)[i] == values[i] {
      assert DOCUMENT_KEYS[i] == UNSIGNED_KEYS[i];
    }
    assert DOCUMENT_KEYS[9] == "signature";
  }

  /** The same, property by property. */
  lemma DocumentFields(rt: Runtime, v: Value, issuedAt: int, expiresAt: int, signature: Text)
    ensures var d := Document(rt, v, issuedAt, expiresAt, signature);
      && Prop(d, "schemaVersion") == Num(2)
      && Prop(d, "productId") == Prop(v, "productId")
      && Prop(d, "audience") == Prop(v, "audience")
      && Prop(d, "issuedAt") == Str(rt.toIso(issuedAt))
      && Prop(d, "expiresAt") == Str(rt.toIso(expiresAt))
      && Prop(d, "sourceObservedAt") == Prop(v, "observedAt")
      && Prop(d, "sourceExpiresAt") == Prop(v, "expiresAt")
      && Prop(d, "observationHash") == Str(rt.sha256(Print(v)))
      && Prop(d, "truth") == Prop(v, "truth")
      && Prop(d, "signature") == Str(signature)
  {
    var values := UnsignedValues(rt, v, issuedAt, expiresAt);
    var d := Document(rt, v, issuedAt, expiresAt, signature);
    DocumentProps(rt, v, issuedAt, expiresAt, signature);
    hide Prop, Document, UnsignedOf, HasExactKeys;
    forall i | 0 <= i < |UNSIGNED_KEYS| ensures Prop(d, UNSIGNED_KEYS[i]) == values[i] {
      assert Props(d, UNSIGNED_KEYS)[i] == values[i];
    }
    assert UNSIGNED_KEYS[0] == "schemaVersion" && UNSIGNED_KEYS[1] == "productId"
        && UNSIGNED_KEYS[2] == "audience" && UNSIGNED_KEYS[3] == "issuedAt"
        && UNSIGNED_KEYS[4] == "expiresAt" && UNSIGNED_KEYS[5] == "sourceObservedAt"
        && UNSIGNED_KEYS[6] == "sourceExpiresAt" && UNSIGNED_KEYS[7] == "observationHash"
        && UNSIGNED_KEYS[8] == "truth";
  }

  lemma DocumentWellFormed(rt: Runtime, v: Value, issuedAt: int, expiresAt: int, signature: Text)
    requires WellFormed(v)
    ensures WellFormed(Document(rt, v, issuedAt, expiresAt, signature))
  {
    var values := UnsignedValues(rt, v, issuedAt, expiresAt) + [Str(signature)];
    GoodDocumentKeys();
    PropWellFormed(v, "productId");
    PropWellFormed(v, "audience");
    PropWellFormed(v, "observedAt");
    PropWellFormed(v, "expiresAt");
    PropWellFormed(v, "truth");
    MakeWellFormed(DOCUMENT_KEYS, values);
  }

  lemma ReconstructFields(d: Value)
    ensures var r := Reconstruct(d);
      && Prop(r, "schemaVersion") == Num(1)
      && Prop(r, "productId") == Prop(d, "productId")
      && Prop(r, "audience") == Prop(d, "audience")
      && Prop(r, "observedAt") == Prop(d, "sourceObservedAt")
      && Prop(r, "expiresAt") == Prop(d, "sourceExpiresAt")
      && Prop(r, "truth") == Prop(d, "truth")
  {
    hide Prop, Make, GoodNames;
    var values := [Num(1)] + Props(d, RECONSTRUCTED_KEYS);
    GoodObservationKeys();
    MakeProps(OBSERVATION_KEYS, values);
    forall i | 0 <= i < |RECONSTRUCTED_KEYS|
      ensures Prop(Reconstruct(d), OBSERVATION_KEYS[i + 1]) == Prop(d, RECONSTRUCTED_KEYS[i])
    {
      assert values[i + 1] == Prop(d, RECONSTRUCTED_KEYS[i]);
    }
    assert OBSERVATION_KEYS[0] == "schemaVersion";
    assert OBSERVATION_KEYS[1] == "productId" && RECONSTRUCTED_KEYS[0] == "productId";
    assert OBSERVATION_KEYS[2] == "audience" && RECONSTRUCTED_KEYS[1] == "audience";
    assert OBSERVATION_KEYS[3] == "observedAt" && RECONSTRUCTED_KEYS[2] == "sourceObservedAt";
    assert OBSERVATION_KEYS[4] == "expiresAt" && RECONSTRUCTED_KEYS[3] == "sourceExpiresAt";
    assert OBSERVATION_KEYS[5] == "truth" && RECONSTRUCTED_KEYS[4] == "truth";
  }

  lemma ReconstructKeys(d: Value)
    ensures HasExactKeys(Reconstruct(d), OBSERVATION_KEYS)
  {
  }

  lemma SameObservation(v: Value, w: Value)
    requires HasExactKeys(v, OBSERVATION_KEYS) && HasExactKeys(w, OBSERVATION_KEYS)
    requires Same(Prop(v, "schemaVersion"), Prop(w, "schemaVersion"))
    requires Same(Prop(v, "productId"), Prop(w, "productId"))
    requires Same(Prop(v, "audience"), Prop(w, "audience"))
    requires Same(Prop(v, "observedAt"), Prop(w, "observedAt"))
    requires Same(Prop(v, "expiresAt"), Prop(w, "expiresAt"))
    requires Same(Prop(v, "truth"), Prop(w, "truth"))
    ensures Same(v, w)
  {
    hide Prop, HasExactKeys, Same, GoodNames;
    GoodObservationKeys();
    forall i | 0 <= i < |OBSERVATION_KEYS|
      ensures Same(Prop(v, OBSERVATION_KEYS[i]), Prop(w, OBSERVATION_KEYS[i]))
    {
      assert OBSERVATION_KEYS[0] == "schemaVersion" && OBSERVATION_KEYS[1] == "productId"
          && OBSERVATION_KEYS[2] == "audience" && OBSERVATION_KEYS[3] == "observedAt"
          && OBSERVATION_KEYS[4] == "expiresAt" && OBSERVATION_KEYS[5] == "truth";
    }
    SameByProps(v, w, OBSERVATION_KEYS);
  }

  /** The gateway's reconstruction of an issued document is equal to the observation, so its
      text is the text that was hashed. */
  lemma ReconstructSame(rt: Runtime, v: Value, issuedAt: int, expiresAt: int, signature: Text)
    requires WellFormed(v) && HasExactKeys(v, OBSERVATION_KEYS) && Prop(v, "schemaVersion") == Num(1)
    ensures var d := Document(rt, v, issuedAt, expiresAt, signature);
      Same(Reconstruct(d), v) && Print(Reconstruct(d)) == Print(v)
  {
    hide Prop, Same, Print, Document, WellFormed, Make, Reconstruct, HasExactKeys, GoodNames;
    var d := Document(rt, v, issuedAt, expiresAt, signature);
    DocumentWellFormed(rt, v, issuedAt, expiresAt, signature);
    RebuiltWellFormed(d);
    ReconstructKeys(d);
    DocumentFields(rt, v, issuedAt, expiresAt, signature);
    ReconstructFields(d);
    SameRefl(Prop(v, "schemaVersion"));
    SameRefl(Prop(v, "productId"));
    SameRefl(Prop(v, "audience"));
    SameRefl(Prop(v, "observedAt"));
    SameRefl(Prop(v, "expiresAt"));
    SameRefl(Prop(v, "truth"));
    SameObservation(Reconstruct(d), v);
    SamePrint(Reconstruct(d), v);
  }

  lemma SignerTruthIsGatewayTruth(rt: Runtime, truth: Value, observedAt: int, now: int)
    requires SignerTruth(rt, truth, observedAt, now)
    ensures GatewayTruth(rt, truth)
  {
  }

  lemma WellShaped(rt: Runtime, v: Value, d: Value, now: int)
    requires Admissible(rt, v, now) && HasExactKeys(d, DOCUMENT_KEYS)
    requires Prop(d, "schemaVersion") == Num(2) && Prop(d, "signature").Str?
    requires Prop(d, "productId") == Prop(v, "productId") && Prop(d, "audience") == Prop(v, "audience")
    requires Prop(d, "observationHash").Str? && HexText(Prop(d, "observationHash").s)
    requires GatewayTime(rt, Prop(d, "issuedAt")).Some? && GatewayTime(rt, Prop(d, "expiresAt")).Some?
    requires Prop(d, "sourceObservedAt") == Prop(v, "observedAt")
    requires Prop(d, "sourceExpiresAt") == Prop(v, "expiresAt")
    requires Prop(d, "truth") == Prop(v, "truth")
    ensures ValidateShape(rt, d)
  {
    hide Prop, HasExactKeys, HexText, GatewayTruth, SignerTruth;
    ValidatedTruth(rt, v, now);
  }

  /** The truth of an admitted observation passes the gateway's test too, and its two source
      times parse there. */
  lemma ValidatedTruth(rt: Runtime, v: Value, now: int)
    requires Admissible(rt, v, now)
    ensures GatewayTruth(rt, Prop(v, "truth"))
    ensures GatewayTime(rt, Prop(v, "observedAt")).Some? && GatewayTime(rt, Prop(v, "expiresAt")).Some?
  {
    hide Prop, HasExactKeys, GatewayTruth, SignerTruth;
    var observed := SignerTime(rt, Prop(v, "observedAt"));
    SignerTruthIsGatewayTruth(rt, Prop(v, "truth"), observed.value, now);
  }

  /** What it takes to issue a document, and what the document is. */
  lemma IssuedParts(rt: Runtime, environment: Text, key: Text, slot: Slot, v: Value,
                    validatedAt: int, issuedAt: int, outage: Outage)
    requires Sign(rt, environment, Some(key), slot, v, validatedAt, issuedAt, outage).1.Issued?
    ensures var Issued(u, d) := Sign(rt, environment, Some(key), slot, v, validatedAt, issuedAt, outage).1;
      var expiresAt := DocumentExpiry(rt, v, issuedAt);
      && Admissible(rt, v, validatedAt)
      && issuedAt < expiresAt
      && u == Make(UNSIGNED_KEYS, UnsignedValues(rt, v, issuedAt, expiresAt))
      && d == Document(rt, v, issuedAt, expiresAt, rt.sign(key, Print(u)))
      && SignerTransaction(rt, slot, SignerCandidate(rt, environment, key, v)).1 == Accepted
  {
    hide Admissible, SignerTransaction, SignerCandidate, Print, Make, UnsignedValues;
  }

  /** Sign-then-verify agreement.  Whatever observation the signer issues a document for, the
      gateway finds the document well shaped, recomputes the hash in it, and checks the
      signature over the very text that was signed. */
  lemma SignThenVerify(rt: Runtime, environment: Text, key: Text, slot: Slot, v: Value,
                       validatedAt: int, issuedAt: int, outage: Outage)
    requires WellFormed(v) && HexDigests(rt)
    requires IsoOk(rt, issuedAt) && IsoOk(rt, DocumentExpiry(rt, v, issuedAt))
    requires Sign(rt, environment, Some(key), slot, v, validatedAt, issuedAt, outage).1.Issued?
    ensures var Issued(u, d) := Sign(rt, environment, Some(key), slot, v, validatedAt, issuedAt, outage).1;
      && ValidateShape(rt, d)
      && UnsignedOf(d) == u
      && TextProp(d, "signature") == rt.sign(key, Print(u))
      && Same(Reconstruct(d), v)
      && Print(Reconstruct(d)) == Print(v)
      && rt.sha256(Print(Reconstruct(d))) == TextProp(d, "observationHash")
  {
    var answer := Sign(rt, environment, Some(key), slot, v, validatedAt, issuedAt, outage).1;
    IssuedParts(rt, environment, key, slot, v, validatedAt, issuedAt, outage);
    DocumentAgrees(rt, v, validatedAt, issuedAt, DocumentExpiry(rt, v, issuedAt), rt.sign(key, Print(answer.unsigned)));
  }

  lemma DocumentAgrees(rt: Runtime, v: Value, validatedAt: int, issuedAt: int, expiresAt: int, signature: Text)
    requires WellFormed(v) && HexDigests(rt) && Admissible(rt, v, validatedAt)
    requires IsoOk(rt, issuedAt) && IsoOk(rt, expiresAt)
    ensures var d := Document(rt, v, issuedAt, expiresAt, signature);
      && ValidateShape(rt, d)
      && UnsignedOf(d) == Make(UNSIGNED_KEYS, UnsignedValues(rt, v, issuedAt, expiresAt))
      && TextProp(d, "signature") == signature
      && Same(Reconstruct(d), v)
      && Print(Reconstruct(d)) == Print(v)
      && rt.sha256(Print(Reconstruct(d))) == TextProp(d, "observationHash")
  {
    hide Prop, Reconstruct, UnsignedOf, Document, Same, Print, Make;
    var d := Document(rt, v, issuedAt, expiresAt, signature);
    DocumentProps(rt, v, issuedAt, expiresAt, signature);
    DocumentFields(rt, v, issuedAt, expiresAt, signature);
    ReconstructSame(rt, v, issuedAt, expiresAt, signature);
    WellShaped(rt, v, d, validatedAt);
  }

  // ---------- records ----------

  /** The gateway's record of a document it has examined is the signer's record of the
      observation, up to the environment and the key. */
  lemma RecordsAgree(rt: Runtime, signerEnvironment: Text, gatewayEnvironment: Text, key: Text,
                     config: Config, v: Value, d: Value)
    requires WellFormed(v) && WellFormed(d)
    requires HasExactKeys(v, OBSERVATION_KEYS) && Same(Reconstruct(d), v)
    requires Prop(d, "productId") == Str(config.product)
    requires TextProp(d, "observationHash") == rt.sha256(Print(v))
    ensures GatewayCandidate(rt, gatewayEnvironment, config, d)
         == SignerCandidate(rt, signerEnvironment, key, v)
              .(environment := gatewayEnvironment, keyHash := rt.sha256(config.publicKey))
  {
    RebuiltWellFormed(d);
    SameFields(Reconstruct(d), v);
    ReconstructedTexts(d);
  }

  lemma ReconstructedTexts(d: Value)
    ensures var r := Reconstruct(d);
      && TextProp(r, "productId") == TextProp(d, "productId")
      && TextProp(r, "audience") == TextProp(d, "audience")
      && TextProp(r, "observedAt") == TextProp(d, "sourceObservedAt")
      && TextProp(r, "expiresAt") == TextProp(d, "sourceExpiresAt")
      && Prop(r, "truth") == Prop(d, "truth")
      && RevisionOf(r) == RevisionOf(d)
  {
    hide Prop, Reconstruct;
    ReconstructFields(d);
  }

  lemma SameTruth(t: Value, u: Value)
    requires WellFormed(t) && WellFormed(u) && Same(t, u)
    ensures Print(t) == Print(u)
    ensures Same(Prop(t, "revision"), Prop(u, "revision"))
    ensures TextProp(t, "lastVerifiedAt") == TextProp(u, "lastVerifiedAt")
  {
    SamePrint(t, u);
    SameProp(t, u, "revision");
    SameProp(t, u, "lastVerifiedAt");
  }

  /** Equal observations have every field of the record in common. */
  lemma SameFields(v: Value, w: Value)
    requires WellFormed(v) && WellFormed(w) && Same(v, w)
    ensures Print(v) == Print(w)
    ensures TextProp(v, "productId") == TextProp(w, "productId")
    ensures TextProp(v, "audience") == TextProp(w, "audience")
    ensures TextProp(v, "observedAt") == TextProp(w, "observedAt")
    ensures TextProp(v, "expiresAt") == TextProp(w, "expiresAt")
    ensures Print(Prop(v, "truth")) == Print(Prop(w, "truth"))
    ensures RevisionOf(v) == RevisionOf(w)
    ensures TextProp(Prop(v, "truth"), "lastVerifiedAt") == TextProp(Prop(w, "truth"), "lastVerifiedAt")
  {
    SamePrint(v, w);
    SameProp(v, w, "productId");
    SameProp(v, w, "audience");
    SameProp(v, w, "observedAt");
    SameProp(v, w, "expiresAt");
    SameProp(v, w, "truth");
    PropWellFormed(v, "truth");
    PropWellFormed(w, "truth");
    SameTruth(Prop(v, "truth"), Prop(w, "truth"));
  }

  /** The five-way comparison at an equal revision collapses to one: as long as the two printed
      observations do not collide, equal observation hashes already force every other field,
      and all of it says that the observations are the same. */
  lemma FiveWayTestCollapses(rt: Runtime, environment: Text, key: Text, v: Value, w: Value)
    requires WellFormed(v) && WellFormed(w)
    requires !Collision(rt, Print(v), Print(w))
    ensures var a, b := SignerCandidate(rt, environment, key, v), SignerCandidate(rt, environment, key, w);
      && (Identical(a, b) <==> a.observationHash == b.observationHash)
      && (Identical(a, b) <==> Same(v, w))
      && (Same(v, w) ==> a == b)
  {
    PrintInjective(v, w);
    if Same(v, w) { SameFields(v, w); }
  }

  /** A candidate the signer accepts is a record it will itself recognise next time. */
  lemma SignerRecordRecognised(rt: Runtime, environment: Text, key: Text, v: Value, now: int)
    requires HexDigests(rt) && Admissible(rt, v, now)
    ensures IsSignerRecord(rt, SignerCandidate(rt, environment, key, v))
  {
    hide Prop, HasExactKeys, KnownFreshness, ValidPcOff, Print, HasZone;
  }

  /** What the gateway submits after a successful examination is a valid record, so its own
      checkpoint never calls it malformed. */
  lemma GatewayRecordRecognised(rt: Runtime, environment: Text, config: Config, d: Value, now: int, genuine: bool)
    requires HexDigests(rt) && KnownProduct(config.product) && rt.audienceOk(config.url, config.product)
    requires Examine(rt, config, d, now, genuine) == None
    ensures IsGatewayRecord(rt, GatewayCandidate(rt, environment, config, d))
  {
    hide Prop, HasExactKeys, KnownFreshness, ValidPcOff, Print, HasZone, Reconstruct, InWindow;
  }

  // ---------- times ----------

  /** What validation at `validatedAt` and issue at `t.issued` establish about a document. */
  ghost predicate SignerTimes(t: Times, validatedAt: int) {
    && t.observed <= validatedAt + 60_000
    && validatedAt - t.observed <= 300_000
    && t.observed < t.sourceExpires
    && validatedAt < t.sourceExpires
    && t.sourceExpires - t.observed <= 600_000
    && t.verified <= t.observed
    && (t.labelledFresh ==> validatedAt - t.verified <= 300_000)
    && t.issued < t.expires
    && t.expires == (if t.sourceExpires < t.issued + 300_000 then t.sourceExpires else t.issued + 300_000)
  }

  /** An issued document carries such times. */
  lemma IssuedTimes(rt: Runtime, environment: Text, key: Text, slot: Slot, v: Value,
                    validatedAt: int, issuedAt: int, outage: Outage)
    requires WellFormed(v) && HexDigests(rt)
    requires IsoOk(rt, issuedAt) && IsoOk(rt, DocumentExpiry(rt, v, issuedAt))
    requires Sign(rt, environment, Some(key), slot, v, validatedAt, issuedAt, outage).1.Issued?
    ensures var d := Sign(rt, environment, Some(key), slot, v, validatedAt, issuedAt, outage).1.document;
      && ValidateShape(rt, d)
      && TimesOf(rt, d).issued == issuedAt
      && SignerTimes(TimesOf(rt, d), validatedAt)
  {
    var answer := Sign(rt, environment, Some(key), slot, v, validatedAt, issuedAt, outage).1;
    var signature := rt.sign(key, Print(answer.unsigned));
    IssuedParts(rt, environment, key, slot, v, validatedAt, issuedAt, outage);
    DocumentTimes(rt, v, validatedAt, issuedAt, signature);
  }

  lemma DocumentTimes(rt: Runtime, v: Value, validatedAt: int, issuedAt: int, signature: Text)
    requires WellFormed(v) && HexDigests(rt) && Admissible(rt, v, validatedAt)
    requires issuedAt < DocumentExpiry(rt, v, issuedAt)
    requires IsoOk(rt, issuedAt) && IsoOk(rt, DocumentExpiry(rt, v, issuedAt))
    ensures var d := Document(rt, v, issuedAt, DocumentExpiry(rt, v, issuedAt), signature);
      && ValidateShape(rt, d)
      && TimesOf(rt, d).issued == issuedAt
      && SignerTimes(TimesOf(rt, d), validatedAt)
  {
    hide Prop, Document, HasExactKeys;
    DocumentFields(rt, v, issuedAt, DocumentExpiry(rt, v, issuedAt), signature);
    DocumentAgrees(rt, v, validatedAt, issuedAt, DocumentExpiry(rt, v, issuedAt), signature);
  }

  /** Timing completeness, exactly: every gateway clock from 60 s before issue up to expiry
      passes all eleven tests if and only if the document's whole life fits into the maximum age. */
  lemma WindowExact(t: Times, validatedAt: int, maxAgeSeconds: int)
    requires SignerTimes(t, validatedAt) && validatedAt <= t.issued
    ensures (forall now :: t.issued - CLOCK_SKEW_MS <= now < t.expires ==> InWindow(t, maxAgeSeconds, now))
       <==> && t.expires - t.issued <= maxAgeSeconds * 1000
            && t.expires - t.observed <= maxAgeSeconds * 1000
            && (t.labelledFresh ==> t.expires - t.verified <= maxAgeSeconds * 1000)
  {
    if forall now :: t.issued - CLOCK_SKEW_MS <= now < t.expires ==> InWindow(t, maxAgeSeconds, now) {
      assert InWindow(t, maxAgeSeconds, t.expires - 1);
    }
  }

  /** A maximum age of 600 s is always enough for truth that is not labelled fresh; fresh truth
      also needs the time that passed between validation and issue. */
  lemma WindowComplete(t: Times, validatedAt: int, maxAgeSeconds: int, now: int)
    requires SignerTimes(t, validatedAt) && validatedAt <= t.issued
    requires maxAgeSeconds * 1000 >= 600_000
    requires t.labelledFresh ==> maxAgeSeconds * 1000 >= 600_000 + t.issued - validatedAt
    requires t.issued - CLOCK_SKEW_MS <= now < t.expires
    ensures InWindow(t, maxAgeSeconds, now)
  {
  }

  /** Timing soundness: a genuine document inside its window speaks of an observation younger
      than the configured maximum age and than ten minutes. */
  lemma WindowSound(t: Times, validatedAt: int, maxAgeSeconds: int, now: int)
    requires SignerTimes(t, validatedAt) && InWindow(t, maxAgeSeconds, now)
    ensures now - t.observed < maxAgeSeconds * 1000
    ensures now - t.observed < MAX_OBSERVATION_TTL_MS
    ensures now < t.issued + SIGNED_DOCUMENT_TTL_MS
  {
  }
}
