/** Which documents the gateway finds well shaped, in terms of what they say: the JSON of every legible
    letter, and nothing else. */
module AuthorityLetter {
  import opened Json
  import opened AuthorityShape
  import opened AuthorityReport

  datatype Letter = Letter(report: Report, issuedAt: Text, expiresAt: Text, observationHash: Text, signature: Text)

  function LetterValues(l: Letter): (values: seq<Value>)
    ensures |values| == 10
  {
    [Num(2), Str(l.report.product), Str(l.report.audience), Str(l.issuedAt), Str(l.expiresAt),
     Str(l.report.observedAt), Str(l.report.expiresAt), Str(l.observationHash), TruthOf(l.report), Str(l.signature)]
  }

  /** The letter as it is sent. */
  function LetterJson(l: Letter): Value {
    Make(["schemaVersion", "productId", "audience", "issuedAt", "expiresAt", "sourceObservedAt", "sourceExpiresAt",
          "observationHash", "truth", "signature"], LetterValues(l))
  }

  predicate Zoned(rt: Runtime, t: Text) {
    HasZone(t) && rt.dateParse(t).Some?
  }

  /** All five times can be read, the digest is one, and the truth is coherent. */
  ghost predicate Legible(rt: Runtime, l: Letter) {
    && Zoned(rt, l.issuedAt) && Zoned(rt, l.expiresAt)
    && Zoned(rt, l.report.observedAt) && Zoned(rt, l.report.expiresAt) && Zoned(rt, l.report.lastVerifiedAt)
    && |l.observationHash| == 64
    && (forall i :: 0 <= i < 64 ==> l.observationHash[i] in HEX_DIGITS)
    && Coherent(l.report)
  }

  const HEX_DIGITS: set<Unit> := set u: Unit | 0x30 <= u <= 0x39 || 0x61 <= u <= 0x66

  lemma LetterProps(l: Letter)
    ensures var d := LetterJson(l);
      && d.Obj? && HasExactKeys(d, DOCUMENT_KEYS)
      && Prop(d, "schemaVersion") == Num(2) && Prop(d, "productId") == Str(l.report.product)
      && Prop(d, "audience") == Str(l.report.audience) && Prop(d, "issuedAt") == Str(l.issuedAt)
      && Prop(d, "expiresAt") == Str(l.expiresAt) && Prop(d, "sourceObservedAt") == Str(l.report.observedAt)
      && Prop(d, "sourceExpiresAt") == Str(l.report.expiresAt)
      && Prop(d, "observationHash") == Str(l.observationHash)
      && Prop(d, "truth") == TruthOf(l.report) && Prop(d, "signature") == Str(l.signature)
  {
    hide Prop, Make, GoodNames, TruthOf, HasExactKeys;
    var values := LetterValues(l);
    GoodDocumentKeys();
    MakeProps(DOCUMENT_KEYS, values);
    KeyNames();
    forall i | 0 <= i < |DOCUMENT_KEYS| ensures Prop(LetterJson(l), DOCUMENT_KEYS[i]) == values[i] { }
  }

  lemma KeyNames()
    ensures DOCUMENT_KEYS == ["schemaVersion", "productId", "audience", "issuedAt", "expiresAt", "sourceObservedAt",
                              "sourceExpiresAt", "observationHash", "truth", "signature"]
    ensures |DOCUMENT_KEYS| == 10
    ensures DOCUMENT_KEYS[0] == "schemaVersion" && DOCUMENT_KEYS[1] == "productId" && DOCUMENT_KEYS[2] == "audience"
         && DOCUMENT_KEYS[3] == "issuedAt" && DOCUMENT_KEYS[4] == "expiresAt"
         && DOCUMENT_KEYS[5] == "sourceObservedAt" && DOCUMENT_KEYS[6] == "sourceExpiresAt"
         && DOCUMENT_KEYS[7] == "observationHash" && DOCUMENT_KEYS[8] == "truth" && DOCUMENT_KEYS[9] == "signature"
  {
  }

  lemma TruthLegible(rt: Runtime, r: Report)
    requires Coherent(r) && Zoned(rt, r.lastVerifiedAt)
    ensures GatewayTruth(rt, TruthOf(r))
  {
    hide Prop, HasExactKeys, TruthOf, PcOffOf, HasZone, JsString;
    TruthProps(r);
    PcOffProps(r);
    FreshnessExactly(r.freshness);
  }

  lemma LetterShaped(rt: Runtime, l: Letter)
    requires Legible(rt, l)
    ensures ValidateShape(rt, LetterJson(l))
  {
    hide Prop, HasExactKeys, LetterJson, TruthOf, HasZone, GatewayTruth, Coherent;
    LetterProps(l);
    TruthLegible(rt, l.report);
  }

  // ---------- and nothing else ----------

  function LetterOf(d: Value): Letter {
    Letter(ReportFrom(d, TextProp(d, "sourceObservedAt"), TextProp(d, "sourceExpiresAt")),
           TextProp(d, "issuedAt"), TextProp(d, "expiresAt"), TextProp(d, "observationHash"), TextProp(d, "signature"))
  }

  lemma ShapedLegible(rt: Runtime, d: Value)
    requires ValidateShape(rt, d)
    ensures Legible(rt, LetterOf(d))
  {
    hide Prop, HasExactKeys, HasZone, JsString;
    FreshnessExactly(Prop(Prop(d, "truth"), "freshness"));
  }

  lemma SameDocuments(d: Value, e: Value)
    requires HasExactKeys(d, DOCUMENT_KEYS) && HasExactKeys(e, DOCUMENT_KEYS)
    requires Prop(d, "schemaVersion") == Prop(e, "schemaVersion") && Prop(d, "productId") == Prop(e, "productId")
    requires Prop(d, "audience") == Prop(e, "audience") && Prop(d, "issuedAt") == Prop(e, "issuedAt")
    requires Prop(d, "expiresAt") == Prop(e, "expiresAt")
    requires Prop(d, "sourceObservedAt") == Prop(e, "sourceObservedAt")
    requires Prop(d, "sourceExpiresAt") == Prop(e, "sourceExpiresAt")
    requires Prop(d, "observationHash") == Prop(e, "observationHash") && Prop(d, "signature") == Prop(e, "signature")
    requires Same(Prop(d, "truth"), Prop(e, "truth"))
    ensures Same(d, e)
  {
    hide Prop, HasExactKeys, Same, GoodNames;
    GoodDocumentKeys();
    KeyNames();
    forall i | 0 <= i < |DOCUMENT_KEYS| ensures Same(Prop(d, DOCUMENT_KEYS[i]), Prop(e, DOCUMENT_KEYS[i])) {
      if i != 8 { SameRefl(Prop(d, DOCUMENT_KEYS[i])); }
    }
    SameByProps(d, e, DOCUMENT_KEYS);
  }

  lemma ShapedSame(rt: Runtime, d: Value)
    requires ValidateShape(rt, d)
    ensures Same(d, LetterJson(LetterOf(d)))
  {
    hide Prop, HasExactKeys, LetterJson, TruthOf, Same, HasZone, GatewayTruth, HexText;
    LetterProps(LetterOf(d));
    SameTruth(rt, d, LetterOf(d).report);
    SameDocuments(d, LetterJson(LetterOf(d)));
  }

  // ---------- the order of members plays no part ----------

  lemma GatewayTruthSame(rt: Runtime, t: Value, u: Value)
    requires GatewayTruth(rt, t) && Same(t, u) && WellFormed(u)
    ensures GatewayTruth(rt, u)
  {
    hide Prop, HasExactKeys, HasZone, KnownFreshness, ValidPcOff, WellFormed, WrappedLabel, Same;
    GoodTruthKeys();
    SameKeys(t, u, TRUTH_KEYS);
    ScalarProp(t, u, "revision");
    ScalarProp(t, u, "lastVerifiedAt");
    ScalarProp(t, u, "pendingCount");
    ScalarProp(t, u, "blockerReason");
    PropWellFormed(u, "pcOff");
    SameProp(t, u, "pcOff");
    PcOffSame(Prop(t, "pcOff"), Prop(u, "pcOff"));
    SameProp(t, u, "freshness");
    FreshnessExactly(Prop(t, "freshness"));
    SameLabel(Prop(t, "freshness"), Prop(u, "freshness"));
  }

  lemma ShapeSame(rt: Runtime, d: Value, e: Value)
    requires ValidateShape(rt, d) && Same(d, e) && WellFormed(e)
    ensures ValidateShape(rt, e)
  {
    hide Prop, HasExactKeys, HasZone, GatewayTruth, WellFormed, Same, HexText;
    GoodDocumentKeys();
    SameKeys(d, e, DOCUMENT_KEYS);
    ScalarProp(d, e, "schemaVersion");
    ScalarProp(d, e, "productId");
    ScalarProp(d, e, "audience");
    ScalarProp(d, e, "signature");
    ScalarProp(d, e, "observationHash");
    ScalarProp(d, e, "issuedAt");
    ScalarProp(d, e, "expiresAt");
    ScalarProp(d, e, "sourceObservedAt");
    ScalarProp(d, e, "sourceExpiresAt");
    SameProp(d, e, "truth");
    PropWellFormed(e, "truth");
    GatewayTruthSame(rt, Prop(d, "truth"), Prop(e, "truth"));
  }

  lemma LetterWellFormed(l: Letter)
    requires WrappedLabel(l.report.freshness)
    ensures WellFormed(LetterJson(l))
  {
    hide Make, GoodNames, WrappedLabel, TruthOf, WellFormed;
    var values := LetterValues(l);
    GoodDocumentKeys();
    KeyNames();
    TruthWellFormed(l.report);
    forall i | 0 <= i < 10 ensures WellFormed(values[i]) {
      if i != 8 { ScalarWellFormed(values[i]); }
    }
    MakeWellFormed(DOCUMENT_KEYS, values);
  }

  /** Exactly what passes the gateway's shape test: the JSON of the legible letters, with members in any
      order. */
  lemma ShapeExactly(rt: Runtime, d: Value)
    requires WellFormed(d)
    ensures ValidateShape(rt, d) <==> exists l :: Legible(rt, l) && Same(d, LetterJson(l))
  {
    hide Legible, LetterJson, Same, ValidateShape, WellFormed;
    if ValidateShape(rt, d) {
      ShapedLegible(rt, d);
      ShapedSame(rt, d);
    }
    if l :| Legible(rt, l) && Same(d, LetterJson(l)) {
      LetterShaped(rt, l);
      LegibleLabel(rt, l);
      LetterWellFormed(l);
      AuthorityReport.SameSymmetric(d, LetterJson(l));
      ShapeSame(rt, LetterJson(l), d);
    }
  }

  lemma LegibleLabel(rt: Runtime, l: Letter)
    requires Legible(rt, l)
    ensures WrappedLabel(l.report.freshness)
  {
  }
}
