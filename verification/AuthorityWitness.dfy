/** Runs on any platform whose clock texts behave at four instants.  They show that the assumptions
    made about platforms can be met, and exactly which labels the age test for fresh truth covers. */
module AuthorityWitness {
  import opened Wrappers
  import opened Json
  import opened CanonicalJson
  import opened AuthorityShape
  import opened AuthorityProtocol
  import opened AuthorityAgreement
  import opened AuthorityReport
  import opened AuthoritySystem
  import opened AuthorityComposition

  const TICK := 200_000

  /** A platform, an audience it takes for the journal's, and a signing key. */
  datatype Scene = Scene(rt: Runtime, url: Text, key: Text)

  function Stamp(w: Scene, n: int): Value {
    Str(w.rt.toIso(n * TICK))
  }

  /** Digests are hexadecimal, the audience is in order, and ticks 1 to 4 are read back as they were
      written, in texts short enough for the signer. */
  ghost predicate Suitable(w: Scene) {
    && HexDigests(w.rt)
    && w.rt.audienceOk(w.url, Ascii("journal"))
    && forall n :: 1 <= n <= 4 ==> SignerTime(w.rt, Stamp(w, n)) == Some(n * TICK)
  }

  function ConfigOf(w: Scene): Config {
    Config(Ascii("journal"), w.url, w.rt.publicOf(w.key), 300)
  }

  /** Verified at tick 1, observed at tick 2, to expire at tick 4. */
  function ReportFor(w: Scene, freshness: Value): Report {
    Report(Ascii("journal"), w.url, w.rt.toIso(2 * TICK), w.rt.toIso(4 * TICK), 7, freshness, w.rt.toIso(TICK), 0, None,
           true, false, false)
  }

  /** Passes the freshness test and is neither of the two labels that are treated specially. */
  ghost predicate Plainly(freshness: Value) {
    && KnownFreshness(freshness) && WellFormed(freshness)
    && freshness != Label("fresh") && freshness != Label("blocked")
  }

  lemma StampTime(w: Scene, n: int)
    requires Suitable(w) && 1 <= n <= 4
    ensures SignerTime(w.rt, Stamp(w, n)) == Some(n * TICK) && IsoOk(w.rt, n * TICK)
  {
  }

  lemma JournalKnown()
    ensures KnownProduct(Ascii("journal"))
  {
    assert AsciiAll(PRODUCTS)[1] == Ascii("journal");
  }

  lemma ReportProper(w: Scene, freshness: Value)
    requires Suitable(w) && Plainly(freshness)
    ensures Proper(w.rt, ReportFor(w, freshness), 3 * TICK) && WrappedLabel(freshness)
  {
    hide HasZone, JsString, HexDigests;
    FreshnessExactly(freshness);
    StampTime(w, 1);
    StampTime(w, 2);
    StampTime(w, 4);
    JournalKnown();
  }

  lemma ObservationAdmissible(w: Scene, freshness: Value)
    requires Suitable(w) && Plainly(freshness)
    ensures Admissible(w.rt, ObservationOf(ReportFor(w, freshness)), 3 * TICK)
    ensures WellFormed(ObservationOf(ReportFor(w, freshness)))
    ensures DocumentExpiry(w.rt, ObservationOf(ReportFor(w, freshness)), 3 * TICK) == 4 * TICK
  {
    hide Prop, HasExactKeys, SignerTruth, SignerTime, WellFormed, ObservationOf, TruthOf, HexDigests, KnownFreshness;
    ReportProper(w, freshness);
    ReportAdmitted(w.rt, ReportFor(w, freshness), 3 * TICK);
    ReportWellFormed(ReportFor(w, freshness));
    ObservationProps(ReportFor(w, freshness));
    StampTime(w, 2);
    StampTime(w, 4);
    JournalKnown();
  }

  /** The document issued for the observation at tick 3. */
  function IssuedFor(w: Scene, freshness: Value): IssuedDocument {
    var v := ObservationOf(ReportFor(w, freshness));
    var unsigned := Make(UNSIGNED_KEYS, UnsignedValues(w.rt, v, 3 * TICK, 4 * TICK));
    IssuedDocument([], w.key, v, 3 * TICK, 3 * TICK, SignerCandidate(w.rt, [], w.key, v), unsigned,
                   Document(w.rt, v, 3 * TICK, 4 * TICK, w.rt.sign(w.key, Print(unsigned))))
  }

  lemma Issues(w: Scene, freshness: Value)
    requires Suitable(w) && Plainly(freshness)
    ensures var k := IssuedFor(w, freshness);
      Sign(w.rt, [], Some(w.key), Vacant, ObservationOf(ReportFor(w, freshness)), 3 * TICK, 3 * TICK, Working)
        == (Held(k.record), Issued(k.unsigned, k.document))
  {
    hide Prop, WellFormed, Print, Make, Admissible, SignerCandidate, UnsignedValues, Suitable, ObservationOf, Plainly;
    ObservationAdmissible(w, freshness);
  }

  lemma DocumentClock(w: Scene, freshness: Value)
    requires Suitable(w) && Plainly(freshness)
    ensures var d := IssuedFor(w, freshness).document;
      && ValidateShape(w.rt, d) && WellFormed(d) && Prop(d, "truth") == TruthOf(ReportFor(w, freshness))
      && TimesOf(w.rt, d) == Times(3 * TICK, 4 * TICK, 2 * TICK, 4 * TICK, TICK, false)
  {
    hide Prop, Document, ValidateShape, Make, WellFormed, HasExactKeys, ObservationOf, TruthOf, Admissible, HexDigests,
         Print, Same, Reconstruct, UnsignedOf, UnsignedValues, SignerCandidate, KnownFreshness;
    var v := ObservationOf(ReportFor(w, freshness));
    var signature := w.rt.sign(w.key, Print(IssuedFor(w, freshness).unsigned));
    ObservationAdmissible(w, freshness);
    StampTime(w, 1);
    StampTime(w, 2);
    StampTime(w, 3);
    StampTime(w, 4);
    DocumentAgrees(w.rt, v, 3 * TICK, 3 * TICK, 4 * TICK, signature);
    DocumentWellFormed(w.rt, v, 3 * TICK, 4 * TICK, signature);
    DocumentFields(w.rt, v, 3 * TICK, 4 * TICK, signature);
    ObservationProps(ReportFor(w, freshness));
    TruthProps(ReportFor(w, freshness));
  }

  lemma WitnessDeliverable(w: Scene, freshness: Value)
    requires Suitable(w) && Plainly(freshness)
    ensures Deliverable(w.rt, ConfigOf(w), IssuedFor(w, freshness), 3 * TICK) && IssuedOk(w.rt, IssuedFor(w, freshness))
  {
    hide Prop, HasExactKeys, ValidateShape, TimesOf, WellFormed, Document, ObservationOf, Admissible, Make,
         UnsignedValues, SignerCandidate, Print, KnownFreshness, TruthOf, HexDigests, SignerTime, IsoOk;
    DocumentClock(w, freshness);
    ObservationProps(ReportFor(w, freshness));
    ObservationAdmissible(w, freshness);
    StampTime(w, 3);
    StampTime(w, 4);
    JournalKnown();
  }

  function SigningStep(w: Scene, freshness: Value): Step {
    SignerStep([], w.key, ObservationOf(ReportFor(w, freshness)), 3 * TICK, 3 * TICK, Working)
  }

  /** Sign, deliver, accept. */
  function AcceptingSteps(w: Scene, freshness: Value): seq<Step> {
    [SigningStep(w, freshness), GatewayStep([], ConfigOf(w), IssuedFor(w, freshness).document, 3 * TICK, Answered)]
  }

  lemma SigningRun(w: Scene, freshness: Value)
    requires Suitable(w) && Plainly(freshness)
    ensures var s := Run(w.rt, [SigningStep(w, freshness)]);
      s.issued == [IssuedFor(w, freshness)] && s.gateways == map[] && s.committed == []
  {
    hide WellFormed, Sign, IssuedFor, ObservationOf, Admissible, Suitable, Plainly;
    Issues(w, freshness);
    ObservationAdmissible(w, freshness);
    assert [SigningStep(w, freshness)][..0] == [];
    assert Run(w.rt, []) == INITIAL;
    IssuedForParts(w, freshness);
  }

  lemma IssuedForParts(w: Scene, freshness: Value)
    ensures var k, v := IssuedFor(w, freshness), ObservationOf(ReportFor(w, freshness));
      k == IssuedDocument([], w.key, v, 3 * TICK, 3 * TICK, SignerCandidate(w.rt, [], w.key, v), k.unsigned, k.document)
  {
  }

  /** The run accepts the document: verified at tick 1 and accepted at tick 3, which is later than
      the 300 seconds of the configuration. */
  lemma AcceptingRun(w: Scene, freshness: Value)
    requires Suitable(w) && Plainly(freshness)
    ensures var s := Run(w.rt, AcceptingSteps(w, freshness));
      && |s.committed| == 1 && s.committed[0].answer == AnswerTo(w.rt, ConfigOf(w), IssuedFor(w, freshness))
      && s.committed[0].document == IssuedFor(w, freshness).document
      && s.committed[0].config == ConfigOf(w) && s.committed[0].now == 3 * TICK
  {
    hide Run, Apply, HexDigests, Deliverable, IssuedOk, Print, UnsignedOf, Behind, IssuedFor, Plainly, WellFormed,
         ObservationOf, Admissible, DocumentExpiry, Genuine, SlotAt, AtGateway, SignerTime;
    var signing, steps, k := [SigningStep(w, freshness)], AcceptingSteps(w, freshness), IssuedFor(w, freshness);
    SigningRun(w, freshness);
    ObservationAdmissible(w, freshness);
    WitnessDeliverable(w, freshness);
    IssuedGenuine(w.rt, signing, 0);
    IssuedForParts(w, freshness);
    NothingHeld(w, k);
    DeliveryAccepted(w.rt, Run(w.rt, signing), [], ConfigOf(w), k, 3 * TICK);
    RunStep(w.rt, signing, steps[1]);
    assert steps == signing + [steps[1]];
  }

  lemma NothingHeld(w: Scene, k: IssuedDocument)
    ensures Behind(w.rt, [], ConfigOf(w), SlotAt(map[], Name([], ConfigOf(w).product)), k)
  {
  }

  // ---------- which labels the age test covers ----------

  function FreshnessOf(a: CommittedDocument): Value {
    Prop(Prop(a.document, "truth"), "freshness")
  }

  /** The verification that the document reports was younger than the configured maximum age. */
  ghost predicate Young(rt: Runtime, a: CommittedDocument) {
    ValidateShape(rt, a.document) && a.now - TimesOf(rt, a.document).verified < a.config.maxAgeSeconds * 1000
  }

  /** In every run, every committed document with this freshness is young. */
  ghost predicate AlwaysYoung(rt: Runtime, freshness: Value) {
    forall steps, i: nat :: i < |Run(rt, steps).committed| && FreshnessOf(Run(rt, steps).committed[i]) == freshness ==>
      Young(rt, Run(rt, steps).committed[i])
  }

  /** The age test, exactly.  Of the values that print as "fresh" and so pass the freshness test, the
      string is the only one whose verification is certain to be young at acceptance; every wrapping
      of it is accepted with an older one in some run. */
  lemma FreshAgeExactly(w: Scene, freshness: Value)
    requires Suitable(w) && WellFormed(freshness) && JsString(freshness) == Some(Ascii("fresh"))
    ensures AlwaysYoung(w.rt, freshness) <==> freshness.Str?
  {
    hide Run, HexDigests, SignerTime, ValidateShape, TimesOf, Prop, WellFormed, IssuedFor, TruthOf;
    if freshness.Str? {
      forall steps, i: nat | i < |Run(w.rt, steps).committed| && FreshnessOf(Run(w.rt, steps).committed[i]) == freshness
        ensures Young(w.rt, Run(w.rt, steps).committed[i])
      {
        AcceptedIsRecent(w.rt, steps, i);
      }
    } else {
      assert AsciiAll(FRESHNESS)[0] == Ascii("fresh");
      AcceptingRun(w, freshness);
      DocumentClock(w, freshness);
      TruthProps(ReportFor(w, freshness));
      var a := Run(w.rt, AcceptingSteps(w, freshness)).committed[0];
      assert FreshnessOf(a) == freshness && !Young(w.rt, a);
    }
  }

  // ---------- a platform ----------

  /** A timestamp of the toy platform: its length in ticks is the time. */
  function ToyStamp(ms: int): Text {
    var n := if ms < TICK then 1 else ms / TICK;
    seq(n, i => if i == n - 1 then 0x5a else 0x30)
  }

  function Zeros(t: Text): (digest: Text)
    ensures HexText(digest)
  {
    seq(64, i => 0x30)
  }

  const TOY := Runtime(
    (t: Text) => Some(|t| * TICK), (ms: int) => ToyStamp(ms), (t: Text) => Zeros(t),
    (url: Text, product: Text) => true, (key: Text) => key, (key: Text, text: Text) => [])

  lemma ToySuitable()
    ensures Suitable(Scene(TOY, [], []))
  {
    var w := Scene(TOY, [], []);
    forall n | 1 <= n <= 4 ensures SignerTime(TOY, Stamp(w, n)) == Some(n * TICK) {
      assert |ToyStamp(n * TICK)| == n;
    }
  }

  ghost predicate Accepts(rt: Runtime, steps: seq<Step>) {
    var committed := Run(rt, steps).committed; committed != [] && committed[0].answer.Verified?
  }

  /** The theorems about runs are about something: there is a platform that meets every assumption,
      and on every suitable platform some run ends with an accepted document. */
  lemma SomeRunAccepts()
    ensures exists w :: Suitable(w)
    ensures forall w :: Suitable(w) ==> exists steps :: Accepts(w.rt, steps)
  {
    hide Run, Suitable, IssuedFor;
    ToySuitable();
    assert Plainly(Label("unknown")) by {
      assert AsciiAll(FRESHNESS)[4] == Ascii("unknown");
      assert Ascii("unknown")[0] == 'u' as int && Ascii("fresh")[0] == 'f' as int && Ascii("blocked")[0] == 'b' as int;
    }
    forall w | Suitable(w) ensures exists steps :: Accepts(w.rt, steps) {
      AcceptingRun(w, Label("unknown"));
      assert Accepts(w.rt, AcceptingSteps(w, Label("unknown")));
    }
  }
}
