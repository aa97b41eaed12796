/** The whole chain as a step machine.  Signers and gateways of all environments and products act
    in any order; between them lies a network that may lose, delay, reorder, duplicate and invent
    documents, so a gateway step carries an arbitrary document.  The one thing the network cannot
    do is sign: a signature verifies exactly when a signer has signed that text under the matching
    key. */
module AuthoritySystem {
  import opened Wrappers
  import opened Json
  import opened CanonicalJson
  import opened CanonicalParser
  import opened AuthorityShape
  import opened AuthorityProtocol
  import opened AuthorityAgreement

  /** Both workers keep one durable object for each environment and product. */
  datatype Name = Name(environment: Text, product: Text)

  type Stores = map<Name, Slot>

  datatype IssuedDocument = IssuedDocument(
    environment: Text, key: Text, observation: Value, validatedAt: int, issuedAt: int,
    record: CheckpointRecord, unsigned: Value, document: Value)

  /** A document whose record the gateway's checkpoint has committed, and the gateway's answer: it is
      Verified when the gateway learnt of the commit and so accepted the document. */
  datatype CommittedDocument = CommittedDocument(
    environment: Text, config: Config, document: Value, now: int, record: CheckpointRecord, answer: Verification)

  datatype System = System(
    signers: Stores, issued: seq<IssuedDocument>, gateways: Stores, committed: seq<CommittedDocument>)

  datatype Step =
    | SignerStep(environment: Text, key: Text, observation: Value, validatedAt: int, issuedAt: int, outage: Outage)
    | GatewayStep(environment: Text, config: Config, document: Value, now: int, link: Link)

  function SlotAt(stores: Stores, name: Name): Slot {
    if name in stores then stores[name] else Vacant
  }

  function IssuedName(k: IssuedDocument): Name {
    Name(k.environment, TextProp(k.observation, "productId"))
  }

  function CommittedName(a: CommittedDocument): Name {
    Name(a.environment, a.config.product)
  }

  /** The ideal signature: this text has been signed under the private key of `publicKey`. */
  ghost predicate Genuine(rt: Runtime, issued: seq<IssuedDocument>, publicKey: Text, text: Text) {
    exists k :: 0 <= k < |issued| && rt.publicOf(issued[k].key) == publicKey
             && Print(issued[k].unsigned) == text
  }

  /** The document gets as far as a committed record. */
  predicate Commits(rt: Runtime, environment: Text, config: Config, slot: Slot, d: Value, now: int, genuine: bool,
                    link: Link)
  {
    && Examine(rt, config, d, now, genuine) == None
    && (link.Answered? || link.AnswerLost?)
    && CheckpointAnswer(rt, environment, slot, GatewayCandidate(rt, environment, config, d), true).1 == Accepted
  }

  ghost function Apply(rt: Runtime, s: System, step: Step): System {
    match step
    case SignerStep(environment, key, v, validatedAt, issuedAt, outage) =>
      if !WellFormed(v) then s
      else
        var name := Name(environment, TextProp(v, "productId"));
        var (slot, answer) :=
          Sign(rt, environment, Some(key), SlotAt(s.signers, name), v, validatedAt, issuedAt, outage);
        s.(signers := s.signers[name := slot],
           issued := if answer.Refused? then s.issued else s.issued + [IssuedDocument(
             environment, key, v, validatedAt, issuedAt, SignerCandidate(rt, environment, key, v),
             answer.unsigned, answer.document)])
    case GatewayStep(environment, config, d, now, link) =>
      if !WellFormed(d) then s
      else
        var name := Name(environment, config.product);
        var slot := SlotAt(s.gateways, name);
        var genuine := Genuine(rt, s.issued, config.publicKey, Print(UnsignedOf(d)));
        var (slot', answer) := Verify(rt, environment, config, slot, d, now, genuine, link);
        s.(gateways := s.gateways[name := slot'],
           committed := if !Commits(rt, environment, config, slot, d, now, genuine, link) then s.committed
             else s.committed + [CommittedDocument(environment, config, d, now,
               GatewayCandidate(rt, environment, config, d), answer)])
  }

  const INITIAL := System(map[], [], map[], [])

  ghost function Run(rt: Runtime, steps: seq<Step>): System {
    if steps == [] then INITIAL else Apply(rt, Run(rt, steps[..|steps| - 1]), steps[|steps| - 1])
  }

  // ---------- the gateways' history ----------

  /** The answer hands on the truth of the document, the digest of its text and that of the pinned
      key; or it is the one that a lost answer of the checkpoint turns into. */
  ghost predicate AnswersFor(rt: Runtime, config: Config, d: Value, answer: Verification) {
    match answer
    case Verified(truth, truthHash, publicKeyHash) =>
      && truth == Prop(d, "truth")
      && truthHash == rt.sha256(Print(truth))
      && publicKeyHash == rt.sha256(config.publicKey)
    case Rejected(problem) => problem == "authority_checkpoint_unavailable"
  }

  /** What is known of one committed document. */
  ghost predicate CommittedOk(rt: Runtime, issued: seq<IssuedDocument>, a: CommittedDocument) {
    && WellFormed(a.document)
    && AnswersFor(rt, a.config, a.document, a.answer)
    && IsGatewayRecord(rt, a.record)
    && a.record == GatewayCandidate(rt, a.environment, a.config, a.document)
    && Examine(rt, a.config, a.document, a.now, true) == None
    && Genuine(rt, issued, a.config.publicKey, Print(UnsignedOf(a.document)))
  }

  ghost predicate Ordered(rt: Runtime, committed: seq<CommittedDocument>) {
    forall i, j :: 0 <= i <= j < |committed| && CommittedName(committed[i]) == CommittedName(committed[j]) ==>
      Follows(rt, committed[i].record, committed[j].record)
  }

  /** A checkpoint holds the record of some document committed under its name. */
  ghost predicate FromCommitted(committed: seq<CommittedDocument>, name: Name, record: CheckpointRecord) {
    exists i :: 0 <= i < |committed| && CommittedName(committed[i]) == name && committed[i].record == record
  }

  /** The checkpoint under `name` is at the end of the chain of its documents. */
  ghost predicate AtEnd(rt: Runtime, s: System, name: Name) {
    var slot := SlotAt(s.gateways, name);
    && !slot.Foreign?
    && (slot.Held? ==> IsGatewayRecord(rt, slot.record) && FromCommitted(s.committed, name, slot.record))
    && forall i :: 0 <= i < |s.committed| && CommittedName(s.committed[i]) == name ==>
         slot.Held? && Follows(rt, s.committed[i].record, slot.record)
  }

  ghost predicate GatewayInv(rt: Runtime, s: System) {
    && (forall name :: AtEnd(rt, s, name))
    && (forall i :: 0 <= i < |s.committed| ==> CommittedOk(rt, s.issued, s.committed[i]))
    && Ordered(rt, s.committed)
  }

  lemma MoreIssued(rt: Runtime, issued: seq<IssuedDocument>, more: seq<IssuedDocument>,
                   publicKey: Text, text: Text)
    requires Genuine(rt, issued, publicKey, text)
    ensures Genuine(rt, issued + more, publicKey, text)
  {
    var k :| 0 <= k < |issued| && rt.publicOf(issued[k].key) == publicKey
             && Print(issued[k].unsigned) == text;
    assert (issued + more)[k] == issued[k];
  }

  lemma SignerStepKeepsGateway(rt: Runtime, s: System, step: Step)
    requires step.SignerStep? && GatewayInv(rt, s)
    ensures GatewayInv(rt, Apply(rt, s, step))
  {
    hide Print, UnsignedOf, Examine, GatewayCandidate, Sign, SignerCandidate, WellFormed, IsGatewayRecord, Follows;
    var s' := Apply(rt, s, step);
    assert s'.gateways == s.gateways && s'.committed == s.committed;
    var more: seq<IssuedDocument> := s'.issued[|s.issued|..];
    assert s'.issued == s.issued + more;
    forall i | 0 <= i < |s.committed| ensures CommittedOk(rt, s'.issued, s.committed[i]) {
      var a := s.committed[i];
      assert CommittedOk(rt, s.issued, a);
      MoreIssued(rt, s.issued, more, a.config.publicKey, Print(UnsignedOf(a.document)));
    }
    forall name ensures AtEnd(rt, s', name) { assert AtEnd(rt, s, name); }
  }

  /** What a gateway step has gone through.  The checkpoint moves exactly when the record commits,
      to a record that follows the one it held; the document is verified exactly when the answer
      also arrives. */
  lemma VerifyParts(rt: Runtime, environment: Text, config: Config, slot: Slot, d: Value, now: int, genuine: bool,
                    link: Link)
    ensures var (slot', answer) := Verify(rt, environment, config, slot, d, now, genuine, link);
      var candidate := GatewayCandidate(rt, environment, config, d);
      var commits := Commits(rt, environment, config, slot, d, now, genuine, link);
      && (answer.Verified? <==> commits && link.Answered?)
      && (!commits ==> slot' == slot)
      && (commits ==> AnswersFor(rt, config, d, answer))
      && (commits ==>
            && genuine
            && Examine(rt, config, d, now, true) == None
            && IsGatewayRecord(rt, candidate)
            && slot' == Held(candidate)
            && (slot.Held? ==> Follows(rt, slot.record, candidate))
            && !slot.Foreign?)
  {
    hide ValidateShape, TimesOf, Prop, Print, Reconstruct, InWindow, GatewayCandidate;
    SubmitParts(rt, environment, slot, GatewayCandidate(rt, environment, config, d), link);
    hide Submit, CheckpointAnswer, IsGatewayRecord;
  }

  /** Exactly when a document is verified, when it is called a rollback, and what is stored: one that
      passes examination becomes the checkpoint if and only if none is held or it follows the one
      held, and the checkpoint is reached. */
  lemma VerifyExactly(rt: Runtime, environment: Text, config: Config, slot: Slot, d: Value, now: int, genuine: bool,
                      link: Link)
    requires HexDigests(rt) && KnownProduct(config.product) && rt.audienceOk(config.url, config.product)
    requires slot.Vacant? || (slot.Held? && IsGatewayRecord(rt, slot.record))
    ensures var (slot', answer) := Verify(rt, environment, config, slot, d, now, genuine, link);
      var r := GatewayCandidate(rt, environment, config, d);
      var examined := Examine(rt, config, d, now, genuine) == None;
      var follows := slot.Held? ==> Follows(rt, slot.record, r);
      && (answer.Verified? <==> examined && link.Answered? && follows)
      && (answer.Rejected? && answer.problem == "authority_revision_rollback" <==>
            examined && link.Answered? && !follows && SameIdentity(slot.record, r))
      && slot' == (if examined && (link.Answered? || link.AnswerLost?) && follows then Held(r) else slot)
  {
    ExaminedProblem(rt, config, d, now, genuine);
    hide ValidateShape, TimesOf, Prop, Print, Reconstruct, InWindow, GatewayCandidate, HexDigests, Examine, Earlier,
         IsGatewayRecord;
    var r := GatewayCandidate(rt, environment, config, d);
    CandidateEnvironment(rt, environment, config, d);
    if Examine(rt, config, d, now, genuine) == None {
      GatewayRecordRecognised(rt, environment, config, d, now, genuine);
      if slot.Held? { GatewayAcceptsFollowers(rt, environment, slot.record, r); }
    }
  }

  lemma ExaminedProblem(rt: Runtime, config: Config, d: Value, now: int, genuine: bool)
    ensures Examine(rt, config, d, now, genuine) != Some("authority_revision_rollback")
  {
    hide ValidateShape, TimesOf, Prop, Print, Reconstruct, InWindow;
  }

  lemma CandidateEnvironment(rt: Runtime, environment: Text, config: Config, d: Value)
    ensures GatewayCandidate(rt, environment, config, d).environment == environment
  {
  }

  lemma SubmitParts(rt: Runtime, environment: Text, slot: Slot, candidate: CheckpointRecord, link: Link)
    ensures var (slot', verdict) := Submit(rt, environment, slot, candidate, link);
      var accepts := CheckpointAnswer(rt, environment, slot, candidate, true).1 == Accepted;
      && (verdict == Accepted <==> accepts && link.Answered?)
      && (accepts && link.AnswerLost? ==> verdict == Unavailable)
      && (!(accepts && (link.Answered? || link.AnswerLost?)) ==> slot' == slot)
      && (accepts && (link.Answered? || link.AnswerLost?) ==>
            && IsGatewayRecord(rt, candidate)
            && slot' == Held(candidate)
            && (slot.Held? ==> Follows(rt, slot.record, candidate))
            && !slot.Foreign?)
  {
    hide IsGatewayRecord, Earlier;
  }

  lemma FollowsReflexive(rt: Runtime, a: CheckpointRecord)
    ensures Follows(rt, a, a)
  {
  }

  /** Committing one more document under its own name keeps every chain. */
  lemma CommitKeeps(rt: Runtime, s: System, a: CommittedDocument)
    requires GatewayInv(rt, s) && CommittedOk(rt, s.issued, a)
    requires var slot := SlotAt(s.gateways, CommittedName(a)); slot.Held? ==> Follows(rt, slot.record, a.record)
    ensures GatewayInv(rt, s.(gateways := s.gateways[CommittedName(a) := Held(a.record)],
                              committed := s.committed + [a]))
  {
    hide Print, UnsignedOf, Examine, GatewayCandidate, WellFormed, IsGatewayRecord, Follows, Genuine;
    var name := CommittedName(a);
    var s' := s.(gateways := s.gateways[name := Held(a.record)], committed := s.committed + [a]);
    FollowsReflexive(rt, a.record);
    forall i | 0 <= i < |s.committed| && CommittedName(s.committed[i]) == name
      ensures Follows(rt, s.committed[i].record, a.record)
    {
      assert AtEnd(rt, s, name) && CommittedOk(rt, s.issued, s.committed[i]);
      FollowsTransitive(rt, s.committed[i].record, SlotAt(s.gateways, name).record, a.record);
    }
    assert s'.committed[|s.committed|] == a;
    forall other ensures AtEnd(rt, s', other) {
      assert AtEnd(rt, s, other);
      if other != name && SlotAt(s.gateways, other).Held? {
        var record := SlotAt(s.gateways, other).record;
        var i :| 0 <= i < |s.committed| && CommittedName(s.committed[i]) == other && s.committed[i].record == record;
        assert s'.committed[i] == s.committed[i];
      }
    }
  }

  lemma GatewayStepKeepsGateway(rt: Runtime, s: System, step: Step)
    requires step.GatewayStep? && GatewayInv(rt, s)
    ensures GatewayInv(rt, Apply(rt, s, step))
  {
    hide Print, UnsignedOf, Examine, GatewayCandidate, Verify, IsGatewayRecord, Follows, Commits, Genuine, WellFormed,
         Ordered, FromCommitted;
    var GatewayStep(environment, config, d, now, link) := step;
    if WellFormed(d) {
      var name := Name(environment, config.product);
      var slot := SlotAt(s.gateways, name);
      var genuine := Genuine(rt, s.issued, config.publicKey, Print(UnsignedOf(d)));
      var answer := Verify(rt, environment, config, slot, d, now, genuine, link).1;
      VerifyParts(rt, environment, config, slot, d, now, genuine, link);
      if Commits(rt, environment, config, slot, d, now, genuine, link) {
        var a := CommittedDocument(environment, config, d, now, GatewayCandidate(rt, environment, config, d),
                                   answer);
        CommitKeeps(rt, s, a);
      } else {
        SameSlots(rt, s, name);
      }
    }
  }

  /** Writing a slot back as it was changes nothing. */
  lemma SameSlots(rt: Runtime, s: System, name: Name)
    requires GatewayInv(rt, s)
    ensures GatewayInv(rt, s.(gateways := s.gateways[name := SlotAt(s.gateways, name)]))
  {
    hide IsGatewayRecord, Follows, CommittedOk, FromCommitted, Ordered;
    var s' := s.(gateways := s.gateways[name := SlotAt(s.gateways, name)]);
    forall other ensures AtEnd(rt, s', other) {
      assert AtEnd(rt, s, other) && SlotAt(s'.gateways, other) == SlotAt(s.gateways, other);
    }
  }

  lemma {:induction false} GatewayHistory(rt: Runtime, steps: seq<Step>)
    ensures GatewayInv(rt, Run(rt, steps))
  {
    hide Apply, GatewayInv;
    if steps == [] {
      InitialGateway(rt);
    } else {
      var before := steps[..|steps| - 1];
      GatewayHistory(rt, before);
      var step := steps[|steps| - 1];
      if step.SignerStep? {
        SignerStepKeepsGateway(rt, Run(rt, before), step);
      } else {
        GatewayStepKeepsGateway(rt, Run(rt, before), step);
      }
    }
  }

  lemma InitialGateway(rt: Runtime)
    ensures GatewayInv(rt, INITIAL)
  {
  }

  /** Whole-system safety.  In every run, of any two documents that a gateway committed for one
      product the later one speaks of the same environment, product, audience and key, its revision
      is no lower, its two source times are not earlier; and at an equal revision the records are
      the same and the truths are equal, unless two different printed truths share a digest.
      Accepted documents are committed ones, so all of this holds of them. */
  lemma GatewaySafety(rt: Runtime, steps: seq<Step>, i: nat, j: nat)
    requires i <= j < |Run(rt, steps).committed|
    requires CommittedName(Run(rt, steps).committed[i]) == CommittedName(Run(rt, steps).committed[j])
    ensures var a, b := Run(rt, steps).committed[i], Run(rt, steps).committed[j];
      var ta, tb := Prop(a.document, "truth"), Prop(b.document, "truth");
      && SameIdentity(a.record, b.record)
      && a.record.keyHash == b.record.keyHash
      && a.record.revision <= b.record.revision
      && !Earlier(rt, b.record.lastVerifiedAt, a.record.lastVerifiedAt)
      && !Earlier(rt, b.record.sourceObservedAt, a.record.sourceObservedAt)
      && (a.record.revision == b.record.revision ==>
            a.record == b.record && (Same(ta, tb) || Collision(rt, Print(ta), Print(tb))))
  {
    hide Print, Same, WellFormed, Apply, Run, Prop, Examine, IsGatewayRecord, AtEnd;
    GatewayHistory(rt, steps);
    var committed := Run(rt, steps).committed;
    var a, b := committed[i], committed[j];
    assert CommittedOk(rt, Run(rt, steps).issued, a) && CommittedOk(rt, Run(rt, steps).issued, b);
    var ta, tb := Prop(a.document, "truth"), Prop(b.document, "truth");
    PropWellFormed(a.document, "truth");
    PropWellFormed(b.document, "truth");
    PrintInjective(ta, tb);
    assert a.record.truthHash == rt.sha256(Print(ta)) && b.record.truthHash == rt.sha256(Print(tb));
  }

  // ---------- the signers' history ----------

  ghost predicate IssuedOk(rt: Runtime, k: IssuedDocument) {
    var expiresAt := DocumentExpiry(rt, k.observation, k.issuedAt);
    && WellFormed(k.observation)
    && Admissible(rt, k.observation, k.validatedAt)
    && k.issuedAt < expiresAt
    && k.record == SignerCandidate(rt, k.environment, k.key, k.observation)
    && k.unsigned == Make(UNSIGNED_KEYS, UnsignedValues(rt, k.observation, k.issuedAt, expiresAt))
    && k.document == Document(rt, k.observation, k.issuedAt, expiresAt, rt.sign(k.key, Print(k.unsigned)))
  }

  /** The documents issued under one name form a chain that ends at the stored checkpoint.  The
      checkpoint may be ahead of the last document: a record is stored before its document turns
      out to have no life left or before signing fails. */
  ghost predicate SignerInv(rt: Runtime, s: System) {
    && (forall name :: !SlotAt(s.signers, name).Foreign?)
    && (forall name :: SlotAt(s.signers, name).Held? ==> IsSignerRecord(rt, SlotAt(s.signers, name).record))
    && (forall k :: 0 <= k < |s.issued| ==>
          var slot := SlotAt(s.signers, IssuedName(s.issued[k]));
          && IssuedOk(rt, s.issued[k]) && IsSignerRecord(rt, s.issued[k].record)
          && slot.Held? && Follows(rt, s.issued[k].record, slot.record))
    && forall k, m :: 0 <= k <= m < |s.issued| && IssuedName(s.issued[k]) == IssuedName(s.issued[m]) ==>
         Follows(rt, s.issued[k].record, s.issued[m].record)
  }

  lemma SignerRecordIsGatewayRecord(rt: Runtime, r: CheckpointRecord)
    requires IsSignerRecord(rt, r)
    ensures IsGatewayRecord(rt, r)
  {
  }

  /** What a signer step does to the stored checkpoint, and what an issued document is. */
  lemma SignedParts(rt: Runtime, environment: Text, key: Text, slot: Slot, v: Value,
                    validatedAt: int, issuedAt: int, outage: Outage)
    requires HexDigests(rt) && WellFormed(v) && !slot.Foreign?
    requires slot.Held? ==> IsSignerRecord(rt, slot.record)
    ensures var (slot', answer) := Sign(rt, environment, Some(key), slot, v, validatedAt, issuedAt, outage);
      var candidate := SignerCandidate(rt, environment, key, v);
      && (slot' == slot || (slot' == Held(candidate) && IsSignerRecord(rt, candidate)
                            && (slot.Held? ==> Follows(rt, slot.record, candidate))))
      && (answer.Issued? ==>
            && slot' == Held(candidate) && IsSignerRecord(rt, candidate)
            && (slot.Held? ==> Follows(rt, slot.record, candidate))
            && IssuedOk(rt, IssuedDocument(environment, key, v, validatedAt, issuedAt, candidate,
                                           answer.unsigned, answer.document)))
  {
    hide ValidateObservation, Print, Make, UnsignedValues, Prop, WellFormed, IsSignerRecord, SignerCandidate;
    var candidate := SignerCandidate(rt, environment, key, v);
    if Admissible(rt, v, validatedAt) {
      SignerRecordRecognised(rt, environment, key, v, validatedAt);
      if slot.Held? { SignerAcceptsFollowers(rt, slot.record, candidate); }
    }
  }

  /** Moving one checkpoint forward, with or without issuing its document, keeps every chain. */
  lemma StoreKeeps(rt: Runtime, s: System, name: Name, slot: Slot, more: seq<IssuedDocument>)
    requires SignerInv(rt, s) && !slot.Foreign? && (slot.Held? ==> IsSignerRecord(rt, slot.record))
    requires var before := SlotAt(s.signers, name);
      slot == before || (slot.Held? && (before.Held? ==> Follows(rt, before.record, slot.record)))
    requires |more| <= 1
    requires forall k :: k in more ==>
      IssuedOk(rt, k) && IssuedName(k) == name && slot == Held(k.record)
    ensures SignerInv(rt, s.(signers := s.signers[name := slot], issued := s.issued + more))
  {
    hide IsSignerRecord, IsGatewayRecord, Follows, IssuedOk, IssuedName;
    var s' := s.(signers := s.signers[name := slot], issued := s.issued + more);
    var before := SlotAt(s.signers, name);
    forall k | 0 <= k < |s.issued| && IssuedName(s.issued[k]) == name
      ensures slot.Held? && Follows(rt, s.issued[k].record, slot.record)
    {
      SignerRecordIsGatewayRecord(rt, s.issued[k].record);
      SignerRecordIsGatewayRecord(rt, before.record);
      SignerRecordIsGatewayRecord(rt, slot.record);
      if slot != before { FollowsTransitive(rt, s.issued[k].record, before.record, slot.record); }
    }
    if slot.Held? { FollowsReflexive(rt, slot.record); }
    assert forall other :: SlotAt(s'.signers, other) == if other == name then slot else SlotAt(s.signers, other);
    assert forall k :: |s.issued| <= k < |s'.issued| ==> s'.issued[k] in more;
  }

  lemma SignerStepKeepsSigner(rt: Runtime, s: System, step: Step)
    requires HexDigests(rt) && step.SignerStep? && SignerInv(rt, s)
    ensures SignerInv(rt, Apply(rt, s, step))
  {
    hide Sign, SignerCandidate, IsSignerRecord, IsGatewayRecord, Follows, IssuedOk, WellFormed, TextProp;
    var SignerStep(environment, key, v, validatedAt, issuedAt, outage) := step;
    if WellFormed(v) {
      var name := Name(environment, TextProp(v, "productId"));
      var before := SlotAt(s.signers, name);
      var (slot, answer) := Sign(rt, environment, Some(key), before, v, validatedAt, issuedAt, outage);
      SignedParts(rt, environment, key, before, v, validatedAt, issuedAt, outage);
      var more := if answer.Refused? then [] else [IssuedDocument(
        environment, key, v, validatedAt, issuedAt, SignerCandidate(rt, environment, key, v),
        answer.unsigned, answer.document)];
      StoreKeeps(rt, s, name, slot, more);
      assert s.issued + [] == s.issued;
    }
  }

  lemma {:induction false} SignerHistory(rt: Runtime, steps: seq<Step>)
    requires HexDigests(rt)
    ensures SignerInv(rt, Run(rt, steps))
  {
    hide HexDigests;
    if steps != [] {
      var before := steps[..|steps| - 1];
      SignerHistory(rt, before);
      var step := steps[|steps| - 1];
      if step.SignerStep? {
        hide Apply, SignerInv;
        SignerStepKeepsSigner(rt, Run(rt, before), step);
      }
    }
  }

  /** In every run, which observations a signer issues documents for.  Nothing is held, or the very
      same record, or one of the same subject and key with a lower revision and times that are no
      later; and then the checkpoint moves to the observation and one document goes out.  Otherwise
      nothing goes out. */
  lemma SignerStepExactly(rt: Runtime, steps: seq<Step>, environment: Text, key: Text, v: Value,
                          validatedAt: int, issuedAt: int, outage: Outage)
    requires HexDigests(rt) && WellFormed(v)
    ensures var s := Run(rt, steps);
      var s' := Apply(rt, s, SignerStep(environment, key, v, validatedAt, issuedAt, outage));
      var name := Name(environment, TextProp(v, "productId"));
      var issues := && Admissible(rt, v, validatedAt) && outage.Working? && OutlivesIssue(rt, v, issuedAt)
                    && Advances(rt, SlotAt(s.signers, name), environment, key, v);
      && |s'.issued| == |s.issued| + (if issues then 1 else 0) && s'.issued[..|s.issued|] == s.issued
      && (issues ==>
            && s'.issued[|s.issued|].observation == v
            && SlotAt(s'.signers, name) == Held(s'.issued[|s.issued|].record)
            && s'.issued[|s.issued|].record == SignerCandidate(rt, environment, key, v))
  {
    hide Run, Sign, Admissible, WellFormed, HexDigests, TextProp, SignerCandidate, IsSignerRecord, OutlivesIssue,
         Follows, Advances, IssuedOk;
    SignerHistory(rt, steps);
    var slot := SlotAt(Run(rt, steps).signers, Name(environment, TextProp(v, "productId")));
    SignExactly(rt, environment, Some(key), slot, v, validatedAt, issuedAt, outage);
    AdvancesExactly(rt, slot, environment, key, v);
  }

  /** The observation may be checkpointed over what is held. */
  predicate Advances(rt: Runtime, slot: Slot, environment: Text, key: Text, v: Value) {
    match slot
    case Vacant => true
    case Foreign => false
    case Held(prior) =>
      || prior == SignerCandidate(rt, environment, key, v)
      || (&& prior.environment == environment
          && prior.product == TextProp(v, "productId")
          && prior.audience == TextProp(v, "audience")
          && prior.keyHash == rt.sha256(key)
          && prior.revision < RevisionOf(v)
          && !Earlier(rt, TextProp(Prop(v, "truth"), "lastVerifiedAt"), prior.lastVerifiedAt)
          && !Earlier(rt, TextProp(v, "observedAt"), prior.sourceObservedAt))
  }

  lemma AdvancesExactly(rt: Runtime, slot: Slot, environment: Text, key: Text, v: Value)
    requires !slot.Foreign?
    ensures Advances(rt, slot, environment, key, v)
       <==> (slot.Held? ==> Follows(rt, slot.record, SignerCandidate(rt, environment, key, v)))
  {
    hide Prop, TextProp, RevisionOf, Earlier, Print;
  }

  /** A signer never contradicts itself.  Of any two documents issued in a run for one product the
      later one has the same subject and key, no lower revision and no earlier source times; and at
      an equal revision both carry the same observation, unless two different printed observations
      share a digest. */
  lemma SignerSafety(rt: Runtime, steps: seq<Step>, i: nat, j: nat)
    requires HexDigests(rt) && i <= j < |Run(rt, steps).issued|
    requires IssuedName(Run(rt, steps).issued[i]) == IssuedName(Run(rt, steps).issued[j])
    ensures var a, b := Run(rt, steps).issued[i], Run(rt, steps).issued[j];
      && SameIdentity(a.record, b.record)
      && a.record.keyHash == b.record.keyHash
      && a.record.revision <= b.record.revision
      && !Earlier(rt, b.record.lastVerifiedAt, a.record.lastVerifiedAt)
      && !Earlier(rt, b.record.sourceObservedAt, a.record.sourceObservedAt)
      && (a.record.revision == b.record.revision ==>
            || Same(a.observation, b.observation)
            || Collision(rt, Print(a.observation), Print(b.observation)))
  {
    hide Print, Same, WellFormed, Apply, Run, Prop, Admissible, IsSignerRecord, HexDigests, Make, UnsignedValues;
    SignerHistory(rt, steps);
    var a, b := Run(rt, steps).issued[i], Run(rt, steps).issued[j];
    assert IssuedOk(rt, a) && IssuedOk(rt, b) && Follows(rt, a.record, b.record);
    PrintInjective(a.observation, b.observation);
    assert a.record.observationHash == rt.sha256(Print(a.observation));
    assert b.record.observationHash == rt.sha256(Print(b.observation));
  }
}
