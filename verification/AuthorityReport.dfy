/** Which observations the signer takes, in terms of what a product reports: its validator admits
    the JSON of every proper report, and nothing else. */
module AuthorityReport {
  import opened Wrappers
  import opened Json
  import opened CanonicalParser
  import opened AuthorityShape
  import opened AuthorityProtocol
  import opened AuthorityAgreement

  datatype Report = Report(
    product: Text, audience: Text, observedAt: Text, expiresAt: Text,
    revision: int, freshness: Value, lastVerifiedAt: Text, pending: int, blocker: Option<Text>,
    readable: bool, writable: bool, continued: bool)

  function PcOffOf(r: Report): Value {
    Make(["readAvailable", "writeAvailable", "continuedSync"], [Bool(r.readable), Bool(r.writable), Bool(r.continued)])
  }

  function TruthValues(r: Report): (values: seq<Value>)
    ensures |values| == 6
  {
    [Num(r.revision), r.freshness, Str(r.lastVerifiedAt), Num(r.pending),
     if r.blocker.Some? then Str(r.blocker.value) else Null, PcOffOf(r)]
  }

  function TruthOf(r: Report): Value {
    Make(["revision", "freshness", "lastVerifiedAt", "pendingCount", "blockerReason", "pcOff"], TruthValues(r))
  }

  function ObservationValues(r: Report): (values: seq<Value>)
    ensures |values| == 6
  {
    [Num(1), Str(r.product), Str(r.audience), Str(r.observedAt), Str(r.expiresAt), TruthOf(r)]
  }

  /** The report as a product posts it. */
  function ObservationOf(r: Report): Value {
    Make(["schemaVersion", "productId", "audience", "observedAt", "expiresAt", "truth"], ObservationValues(r))
  }

  /** A timestamp of at most 40 units with a time zone. */
  predicate Timestamp(rt: Runtime, t: Text) {
    |t| <= 40 && HasZone(t) && rt.dateParse(t).Some?
  }

  function Millis(rt: Runtime, t: Text): int {
    if rt.dateParse(t).Some? then rt.dateParse(t).value else 0
  }

  /** Printable units only, and at least one. */
  predicate ProperReason(reason: Text) {
    0 < |reason| <= 256 && forall i :: 0 <= i < |reason| ==> reason[i] >= 0x20 && reason[i] != 0x7f
  }

  /** The times of a proper report: verified before it was observed, observed no more than five
      minutes ago nor more than one minute ahead, and valid for at most ten minutes and still now. */
  ghost predicate Timely(rt: Runtime, r: Report, now: int) {
    && Timestamp(rt, r.observedAt) && Timestamp(rt, r.expiresAt) && Timestamp(rt, r.lastVerifiedAt)
    && var observed, expires := Millis(rt, r.observedAt), Millis(rt, r.expiresAt);
    && now - 300_000 <= observed <= now + 60_000
    && observed < expires <= observed + 600_000 && now < expires
    && Millis(rt, r.lastVerifiedAt) <= observed
  }

  /** The truth is coherent: blocked if and only if there is a reason, something pending only when
      blocked, and synced on only where it can be read and written. */
  ghost predicate Coherent(r: Report) {
    && 0 <= r.revision < 0x20_0000_0000_0000 && 0 <= r.pending < 0x20_0000_0000_0000
    && WrappedLabel(r.freshness)
    && (r.freshness == Str(Ascii("blocked")) <==> r.blocker.Some?)
    && (r.pending > 0 ==> r.blocker.Some?)
    && (r.continued ==> r.readable && r.writable)
  }

  /** What a proper report says: coherent, with a printable reason, and if fresh then verified in the
      last five minutes. */
  ghost predicate Consistent(rt: Runtime, r: Report, now: int) {
    && Coherent(r)
    && (r.blocker.Some? ==> ProperReason(r.blocker.value))
    && (r.freshness == Str(Ascii("fresh")) ==> now - Millis(rt, r.lastVerifiedAt) <= 300_000)
  }

  ghost predicate Proper(rt: Runtime, r: Report, now: int) {
    && r.product in AsciiAll(["identity-focus", "journal", "watch", "suixin"])
    && rt.audienceOk(r.audience, r.product)
    && Timely(rt, r, now) && Consistent(rt, r, now)
  }

  // ---------- reading the JSON of a report ----------

  lemma GoodTruthKeys()
    ensures GoodNames(TRUTH_KEYS)
  {
    GoodNamesFromStrings(TRUTH_KEYS);
  }

  lemma GoodPcOffKeys()
    ensures GoodNames(PC_OFF_KEYS)
  {
    GoodNamesFromStrings(PC_OFF_KEYS);
  }

  lemma PcOffProps(r: Report)
    ensures var p := PcOffOf(r);
      && HasExactKeys(p, PC_OFF_KEYS) && WellFormed(p)
      && Prop(p, "readAvailable") == Bool(r.readable) && Prop(p, "writeAvailable") == Bool(r.writable)
      && Prop(p, "continuedSync") == Bool(r.continued)
  {
    hide Prop, Make, GoodNames, HasExactKeys;
    var values := [Bool(r.readable), Bool(r.writable), Bool(r.continued)];
    GoodPcOffKeys();
    MakeProps(PC_OFF_KEYS, values);
    MakeWellFormed(PC_OFF_KEYS, values);
    assert Prop(PcOffOf(r), PC_OFF_KEYS[0]) == values[0] && Prop(PcOffOf(r), PC_OFF_KEYS[1]) == values[1]
        && Prop(PcOffOf(r), PC_OFF_KEYS[2]) == values[2];
    assert PC_OFF_KEYS[0] == "readAvailable" && PC_OFF_KEYS[1] == "writeAvailable" && PC_OFF_KEYS[2] == "continuedSync";
  }

  lemma TruthProps(r: Report)
    ensures var t := TruthOf(r);
      && HasExactKeys(t, TRUTH_KEYS)
      && Prop(t, "revision") == Num(r.revision) && Prop(t, "freshness") == r.freshness
      && Prop(t, "lastVerifiedAt") == Str(r.lastVerifiedAt) && Prop(t, "pendingCount") == Num(r.pending)
      && Prop(t, "blockerReason") == (if r.blocker.Some? then Str(r.blocker.value) else Null)
      && Prop(t, "pcOff") == PcOffOf(r)
  {
    hide Prop, Make, GoodNames, PcOffOf, HasExactKeys;
    var values := TruthValues(r);
    GoodTruthKeys();
    MakeProps(TRUTH_KEYS, values);
    forall i | 0 <= i < |TRUTH_KEYS| ensures Prop(TruthOf(r), TRUTH_KEYS[i]) == values[i] { }
    assert TRUTH_KEYS[0] == "revision" && TRUTH_KEYS[1] == "freshness" && TRUTH_KEYS[2] == "lastVerifiedAt"
        && TRUTH_KEYS[3] == "pendingCount" && TRUTH_KEYS[4] == "blockerReason" && TRUTH_KEYS[5] == "pcOff";
  }

  lemma ObservationProps(r: Report)
    ensures var v := ObservationOf(r);
      && v.Obj? && HasExactKeys(v, OBSERVATION_KEYS)
      && Prop(v, "schemaVersion") == Num(1) && Prop(v, "productId") == Str(r.product)
      && Prop(v, "audience") == Str(r.audience) && Prop(v, "observedAt") == Str(r.observedAt)
      && Prop(v, "expiresAt") == Str(r.expiresAt) && Prop(v, "truth") == TruthOf(r)
  {
    hide Prop, Make, GoodNames, TruthOf, HasExactKeys;
    var values := ObservationValues(r);
    GoodObservationKeys();
    MakeProps(OBSERVATION_KEYS, values);
    forall i | 0 <= i < |OBSERVATION_KEYS| ensures Prop(ObservationOf(r), OBSERVATION_KEYS[i]) == values[i] { }
    assert OBSERVATION_KEYS[0] == "schemaVersion" && OBSERVATION_KEYS[1] == "productId"
        && OBSERVATION_KEYS[2] == "audience" && OBSERVATION_KEYS[3] == "observedAt"
        && OBSERVATION_KEYS[4] == "expiresAt" && OBSERVATION_KEYS[5] == "truth";
  }

  // ---------- every proper report is admitted ----------

  lemma TruthAdmitted(rt: Runtime, r: Report, now: int)
    requires Timely(rt, r, now) && Consistent(rt, r, now)
    ensures SignerTruth(rt, TruthOf(r), Millis(rt, r.observedAt), now)
  {
    hide Prop, HasExactKeys, TruthOf, PcOffOf, HasZone, JsString;
    TruthProps(r);
    PcOffProps(r);
    FreshnessExactly(r.freshness);
  }

  /** The signer admits every proper report. */
  lemma ReportAdmitted(rt: Runtime, r: Report, now: int)
    requires Proper(rt, r, now)
    ensures Admissible(rt, ObservationOf(r), now)
  {
    hide Prop, HasExactKeys, ObservationOf, TruthOf, HasZone, SignerTruth, Consistent;
    ObservationProps(r);
    TruthAdmitted(rt, r, now);
  }

  // ---------- and nothing else is ----------

  function NumberOf(v: Value): int {
    match v case Num(n) => n case _ => 0
  }

  predicate IsTrue(v: Value) {
    v == Bool(true)
  }

  function ReportOf(v: Value): Report {
    ReportFrom(v, TextProp(v, "observedAt"), TextProp(v, "expiresAt"))
  }

  function ReportFrom(v: Value, observedAt: Text, expiresAt: Text): Report {
    var t := Prop(v, "truth");
    var p, blocker := Prop(t, "pcOff"), Prop(t, "blockerReason");
    Report(
      TextProp(v, "productId"), TextProp(v, "audience"), observedAt, expiresAt,
      NumberOf(Prop(t, "revision")), Prop(t, "freshness"), TextProp(t, "lastVerifiedAt"),
      NumberOf(Prop(t, "pendingCount")), if blocker.Str? then Some(blocker.s) else None,
      IsTrue(Prop(p, "readAvailable")), IsTrue(Prop(p, "writeAvailable")), IsTrue(Prop(p, "continuedSync")))
  }

  lemma SamePcOff(p: Value, r: Report)
    requires ValidPcOff(p)
    requires r.readable == IsTrue(Prop(p, "readAvailable")) && r.writable == IsTrue(Prop(p, "writeAvailable"))
    requires r.continued == IsTrue(Prop(p, "continuedSync"))
    ensures Same(p, PcOffOf(r))
  {
    hide Prop, HasExactKeys, PcOffOf, Same;
    PcOffProps(r);
    GoodPcOffKeys();
    forall i | 0 <= i < |PC_OFF_KEYS| ensures Same(Prop(p, PC_OFF_KEYS[i]), Prop(PcOffOf(r), PC_OFF_KEYS[i])) {
      assert PC_OFF_KEYS[0] == "readAvailable" && PC_OFF_KEYS[1] == "writeAvailable"
          && PC_OFF_KEYS[2] == "continuedSync";
      SameRefl(Prop(p, PC_OFF_KEYS[i]));
    }
    SameByProps(p, PcOffOf(r), PC_OFF_KEYS);
  }

  lemma TruthFields(rt: Runtime, v: Value, r: Report)
    requires GatewayTruth(rt, Prop(v, "truth")) && r == ReportFrom(v, r.observedAt, r.expiresAt)
    ensures var t, u := Prop(v, "truth"), TruthOf(r);
      && Prop(t, "revision") == Prop(u, "revision") && Prop(t, "freshness") == Prop(u, "freshness")
      && Prop(t, "lastVerifiedAt") == Prop(u, "lastVerifiedAt") && Prop(t, "pendingCount") == Prop(u, "pendingCount")
      && Prop(t, "blockerReason") == Prop(u, "blockerReason") && Same(Prop(t, "pcOff"), Prop(u, "pcOff"))
  {
    hide Prop, HasExactKeys, PcOffOf, TruthOf, Same, HasZone, JsString;
    TruthProps(r);
    SamePcOff(Prop(Prop(v, "truth"), "pcOff"), r);
  }

  lemma SameTruths(t: Value, u: Value)
    requires HasExactKeys(t, TRUTH_KEYS) && HasExactKeys(u, TRUTH_KEYS)
    requires Same(Prop(t, "revision"), Prop(u, "revision")) && Same(Prop(t, "freshness"), Prop(u, "freshness"))
    requires Same(Prop(t, "lastVerifiedAt"), Prop(u, "lastVerifiedAt"))
    requires Same(Prop(t, "pendingCount"), Prop(u, "pendingCount"))
    requires Same(Prop(t, "blockerReason"), Prop(u, "blockerReason")) && Same(Prop(t, "pcOff"), Prop(u, "pcOff"))
    ensures Same(t, u)
  {
    hide Prop, HasExactKeys, Same, GoodNames;
    GoodTruthKeys();
    forall i | 0 <= i < |TRUTH_KEYS| ensures Same(Prop(t, TRUTH_KEYS[i]), Prop(u, TRUTH_KEYS[i])) {
      assert TRUTH_KEYS[0] == "revision" && TRUTH_KEYS[1] == "freshness" && TRUTH_KEYS[2] == "lastVerifiedAt"
          && TRUTH_KEYS[3] == "pendingCount" && TRUTH_KEYS[4] == "blockerReason" && TRUTH_KEYS[5] == "pcOff";
    }
    SameByProps(t, u, TRUTH_KEYS);
  }

  lemma SameTruth(rt: Runtime, v: Value, r: Report)
    requires GatewayTruth(rt, Prop(v, "truth")) && r == ReportFrom(v, r.observedAt, r.expiresAt)
    ensures Same(Prop(v, "truth"), TruthOf(r))
  {
    hide Prop, HasExactKeys, TruthOf, ReportFrom, Same, HasZone, KnownFreshness, ValidPcOff;
    var t, u := Prop(v, "truth"), TruthOf(r);
    TruthFields(rt, v, r);
    TruthProps(r);
    SameRefl(Prop(t, "revision"));
    SameRefl(Prop(t, "freshness"));
    SameRefl(Prop(t, "lastVerifiedAt"));
    SameRefl(Prop(t, "pendingCount"));
    SameRefl(Prop(t, "blockerReason"));
    SameTruths(t, u);
  }

  lemma AdmittedProper(rt: Runtime, v: Value, now: int)
    requires Admissible(rt, v, now)
    ensures Proper(rt, ReportOf(v), now)
  {
    hide Prop, HasExactKeys, HasZone, JsString;
    FreshnessExactly(Prop(Prop(v, "truth"), "freshness"));
  }

  lemma AdmittedSame(rt: Runtime, v: Value, now: int)
    requires Admissible(rt, v, now)
    ensures Same(v, ObservationOf(ReportOf(v)))
  {
    hide Prop, HasExactKeys, ObservationOf, TruthOf, Same, HasZone, SignerTruth;
    ObservationProps(ReportOf(v));
    SignerTruthIsGatewayTruth(rt, Prop(v, "truth"), SignerTime(rt, Prop(v, "observedAt")).value, now);
    SameTruth(rt, v, ReportOf(v));
    SameRefl(Prop(v, "schemaVersion"));
    SameRefl(Prop(v, "productId"));
    SameRefl(Prop(v, "audience"));
    SameRefl(Prop(v, "observedAt"));
    SameRefl(Prop(v, "expiresAt"));
    SameObservation(v, ObservationOf(ReportOf(v)));
  }

  // ---------- the order of members plays no part ----------

  lemma {:induction false} SameLabel(v: Value, w: Value)
    requires WrappedLabel(v) && Same(v, w)
    ensures v == w
    decreases v
  {
    if v.Arr? {
      assert Same(v.items[0], w.items[0]);
      SameLabel(v.items[0], w.items[0]);
      assert v.items == w.items;
    }
  }

  lemma SameKeys(v: Value, w: Value, names: seq<string>)
    requires HasExactKeys(v, names) && GoodNames(names) && Same(v, w) && WellFormed(w)
    ensures HasExactKeys(w, names)
  {
    SortedKeysMembers(v, names);
    SortKeysCanonical(Keys(v.fields), Keys(w.fields));
  }

  lemma ScalarProp(v: Value, w: Value, name: string)
    requires Same(v, w) && !Prop(v, name).Arr? && !Prop(v, name).Obj?
    ensures Prop(v, name) == Prop(w, name)
  {
    SameProp(v, w, name);
  }

  lemma PcOffSame(p: Value, q: Value)
    requires ValidPcOff(p) && Same(p, q) && WellFormed(q)
    ensures ValidPcOff(q)
  {
    hide Prop, HasExactKeys;
    GoodPcOffKeys();
    SameKeys(p, q, PC_OFF_KEYS);
    SameProp(p, q, "readAvailable");
    SameProp(p, q, "writeAvailable");
    SameProp(p, q, "continuedSync");
  }

  lemma TruthSame(rt: Runtime, t: Value, u: Value, observedAt: int, now: int)
    requires SignerTruth(rt, t, observedAt, now) && Same(t, u) && WellFormed(u)
    ensures SignerTruth(rt, u, observedAt, now)
  {
    hide Prop, HasExactKeys, HasZone, KnownFreshness, ValidPcOff, WellFormed, WrappedLabel, Same;
    GoodTruthKeys();
    SameKeys(t, u, TRUTH_KEYS);
    ScalarProp(t, u, "revision");
    ScalarProp(t, u, "lastVerifiedAt");
    ScalarProp(t, u, "pendingCount");
    ScalarProp(t, u, "blockerReason");
    PropWellFormed(u, "pcOff");
    SameProp(t, u, "pcOff");
    PcOffSame(Prop(t, "pcOff"), Prop(u, "pcOff"));
    SameProp(t, u, "freshness");
    FreshnessExactly(Prop(t, "freshness"));
    SameLabel(Prop(t, "freshness"), Prop(u, "freshness"));
  }

  lemma AdmissibleSame(rt: Runtime, v: Value, w: Value, now: int)
    requires Admissible(rt, v, now) && Same(v, w) && WellFormed(w)
    ensures Admissible(rt, w, now)
  {
    hide Prop, HasExactKeys, HasZone, SignerTruth;
    GoodObservationKeys();
    SameKeys(v, w, OBSERVATION_KEYS);
    PropWellFormed(w, "truth");
    SameProp(v, w, "schemaVersion");
    SameProp(v, w, "productId");
    SameProp(v, w, "audience");
    SameProp(v, w, "observedAt");
    SameProp(v, w, "expiresAt");
    SameProp(v, w, "truth");
    TruthSame(rt, Prop(v, "truth"), Prop(w, "truth"), SignerTime(rt, Prop(v, "observedAt")).value, now);
  }

  lemma {:induction false} LabelWellFormed(v: Value)
    requires WrappedLabel(v)
    ensures WellFormed(v)
    decreases v
  {
    if v.Arr? { LabelWellFormed(v.items[0]); }
  }

  lemma MadeWellFormed(names: seq<string>, values: seq<Value>)
    requires |names| == |values| == 6 && GoodNames(names)
    requires WellFormed(values[0]) && WellFormed(values[1]) && WellFormed(values[2])
    requires WellFormed(values[3]) && WellFormed(values[4]) && WellFormed(values[5])
    ensures WellFormed(Make(names, values))
  {
    hide WellFormed, GoodNames;
    MakeWellFormed(names, values);
  }

  lemma ScalarWellFormed(v: Value)
    requires !v.Arr? && !v.Obj?
    ensures WellFormed(v)
  {
  }

  lemma TruthWellFormed(r: Report)
    requires WrappedLabel(r.freshness)
    ensures WellFormed(TruthOf(r))
  {
    hide Make, GoodNames, WrappedLabel, PcOffOf, WellFormed, Prop, HasExactKeys, Same;
    var values := TruthValues(r);
    LabelWellFormed(r.freshness);
    PcOffProps(r);
    GoodTruthKeys();
    ScalarWellFormed(values[0]);
    ScalarWellFormed(values[2]);
    ScalarWellFormed(values[3]);
    ScalarWellFormed(values[4]);
    MadeWellFormed(TRUTH_KEYS, values);
  }

  lemma ReportWellFormed(r: Report)
    requires WrappedLabel(r.freshness)
    ensures WellFormed(ObservationOf(r))
  {
    hide Make, GoodNames, WrappedLabel, TruthOf, WellFormed;
    var values := ObservationValues(r);
    TruthWellFormed(r);
    GoodObservationKeys();
    ScalarWellFormed(values[0]);
    ScalarWellFormed(values[1]);
    ScalarWellFormed(values[2]);
    ScalarWellFormed(values[3]);
    ScalarWellFormed(values[4]);
    MadeWellFormed(OBSERVATION_KEYS, values);
  }

  lemma SameSymmetric(v: Value, w: Value)
    requires WellFormed(v) && WellFormed(w) && Same(v, w)
    ensures Same(w, v)
  {
    SameNorm(v, w);
    NormSame(w, v);
  }

  /** Exactly what the signer admits: the JSON of the proper reports, with members in any order. */
  lemma AdmittedExactly(rt: Runtime, v: Value, now: int)
    requires WellFormed(v)
    ensures Admissible(rt, v, now) <==> exists r :: Proper(rt, r, now) && Same(v, ObservationOf(r))
  {
    hide Proper, ObservationOf, Same, Admissible, WellFormed;
    if Admissible(rt, v, now) {
      AdmittedProper(rt, v, now);
      AdmittedSame(rt, v, now);
    }
    if r :| Proper(rt, r, now) && Same(v, ObservationOf(r)) {
      ReportAdmitted(rt, r, now);
      ProperLabel(rt, r, now);
      ReportWellFormed(r);
      SameSymmetric(v, ObservationOf(r));
      AdmissibleSame(rt, ObservationOf(r), v, now);
    }
  }

  lemma ProperLabel(rt: Runtime, r: Report, now: int)
    requires Proper(rt, r, now)
    ensures WrappedLabel(r.freshness)
  {
  }
}
