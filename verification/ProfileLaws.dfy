/** What the profile store keeps over every run, and what reading it back means. */
module ProfileLaws {
  import opened Wrappers
  import opened Json
  import opened CanonicalJson
  import opened CanonicalParser
  import opened AuthorityShape
  import opened ProfileNormal
  import opened ProfileOutbox

  // ---------- the associated data pins the revision ----------

  lemma GoodAadKeys()
    ensures GoodNames(AAD_KEYS)
  {
    GoodNamesFromStrings(AAD_KEYS);
  }

  lemma AadRevision(revision: int)
    ensures Prop(Aad(revision), "revision") == Num(revision) && WellFormed(Aad(revision))
  {
    var values := [Num(1), Str(Ascii("profile")), Str(Ascii("dashboard_profile")), Num(1), Str(Ascii("upsert")),
                   Str(Ascii("personal-mcp-gateway")), Num(revision)];
    forall i | 0 <= i < |values| ensures WellFormed(values[i]) { ScalarWellFormed(values[i]); }
    hide Prop, Make, WellFormed;
    GoodAadKeys();
    MakeProps(AAD_KEYS, values);
    MakeWellFormed(AAD_KEYS, values);
    assert AAD_KEYS[6] == "revision";
  }

  lemma ScalarWellFormed(v: Value)
    requires !v.Arr? && !v.Obj?
    ensures WellFormed(v)
  {
  }

  lemma AadInjective(a: int, b: int)
    requires Print(Aad(a)) == Print(Aad(b))
    ensures a == b
  {
    hide Prop, Print, Aad, Same, WellFormed;
    AadRevision(a);
    AadRevision(b);
    PrintInjective(Aad(a), Aad(b));
    SamePropNumbers(Aad(a), Aad(b));
  }

  lemma SamePropNumbers(v: Value, w: Value)
    requires Same(v, w) && Prop(v, "revision").Num? && Prop(w, "revision").Num?
    ensures Prop(v, "revision") == Prop(w, "revision")
  {
    SameProp(v, w, "revision");
  }

  /** A profile that opens under its own revision does not open under any other: moving a
      ciphertext to another revision makes it unreadable, whatever hash is stored beside it. */
  lemma RevisionBinds(rt: Runtime, e: Entity, key: nat, revision: int, aadHash: Text)
    requires Decrypt(rt, e, key).Some? && revision != e.revision
    ensures Decrypt(rt, e.(revision := revision, aadHash := aadHash), key).None?
  {
    hide Print, Aad, Normalize;
    if Print(Aad(e.revision)) == Print(Aad(revision)) { AadInjective(e.revision, revision); }
  }

  /** Exactly what opens: an upsert at a proper revision that was sealed under this key with its own
      nonce and the associated data of that revision, carries the digest of that data, and contains
      the text of a profile of acceptable size. */
  lemma OpensExactly(rt: Runtime, e: Entity, key: nat, v: Value)
    ensures Decrypt(rt, e, key) == Some(v)
       <==> exists text :: && SealedAt(rt, e, key, text) && |text| <= 32_768
                           && ParseValue(text).Ok? && ParseValue(text).rest == []
                           && v == Normalize(ParseValue(text).value)
  {
    hide Print, Aad, Normalize, ParseValue;
    if Decrypt(rt, e, key) == Some(v) { assert SealedAt(rt, e, key, e.cipher.plaintext); }
  }

  ghost predicate SealedAt(rt: Runtime, e: Entity, key: nat, text: Text) {
    var aad := Print(Aad(e.revision));
    && 1 <= e.revision < 0x20_0000_0000_0000
    && e == Entity(e.revision, Upsert, 1, Sealed(key, e.nonce, aad, text), e.nonce, rt.sha256(aad))
  }

  // ---------- load after update ----------

  /** Reading back what was just stored, exactly: `load` returns the normalised profile (up to
      the order of its tile entries) whenever the new revision is still a safe integer. */
  lemma LoadAfterUpdate(rt: Runtime, s: Store, key: nat, profile: Value, opId: OpId, nonce: Text)
    requires WellFormed(profile) && Update(rt, s, key, profile, opId, nonce).1.Queued?
    requires s.entity.Some? ==> s.entity.value.revision >= 0
    ensures var s' := Update(rt, s, key, profile, opId, nonce).0;
      && (NextRevision(s) <= MAX_SAFE_INTEGER ==>
            Same(Normalize(profile), Load(rt, s', key)) && WellFormed(Load(rt, s', key)))
      && (Decrypt(rt, s'.entity.value, key).Some? <==> NextRevision(s) <= MAX_SAFE_INTEGER)
  {
    hide Print, Aad, Normalize, Same, WellFormed, ParseValue, CurrentText;
    StoredProfileReadsBack(profile);
  }

  /** An update answered "not queued" was not needed: the store stays as it is, and what it loads is
      the normalised profile already. */
  lemma LoadAfterUnchanged(rt: Runtime, s: Store, key: nat, profile: Value, opId: OpId, nonce: Text)
    requires Update(rt, s, key, profile, opId, nonce).1.Unchanged?
    ensures Update(rt, s, key, profile, opId, nonce).0 == s
    ensures Same(Load(rt, s, key), Normalize(profile)) && Same(Normalize(profile), Load(rt, s, key))
  {
    hide Print, Normalize, Same;
    PrintedAlike(Load(rt, s, key), Normalize(profile));
    PrintedAlike(Normalize(profile), Load(rt, s, key));
  }

  /** What a user chooses is what the page shows next time: whatever is stored before, unless the
      text is too large or the new revision no safe integer, the profile is loaded as it was given. */
  lemma LoadsTheChoice(rt: Runtime, s: Store, key: nat, c: Choice, opId: OpId, nonce: Text)
    requires Choosable(c) && NextRevision(s) <= MAX_SAFE_INTEGER
    requires s.entity.Some? ==> s.entity.value.revision >= 0
    ensures var (s', result) := Update(rt, s, key, ProfileOf(c), opId, nonce);
      && (|Print(ProfileOf(c))| <= 32_768 ==> !result.TooLarge?)
      && (!result.TooLarge? ==> Same(ProfileOf(c), Load(rt, s', key)))
  {
    hide Print, Aad, Normalize, Same, WellFormed, ProfileOf, Choosable, CurrentText, Decrypt, Load, Seal;
    ChoiceKept(c);
    ChoiceWellFormed(c);
    var result := Update(rt, s, key, ProfileOf(c), opId, nonce).1;
    if result.Queued? { LoadAfterUpdate(rt, s, key, ProfileOf(c), opId, nonce); }
    if result.Unchanged? { LoadAfterUnchanged(rt, s, key, ProfileOf(c), opId, nonce); }
  }

  // ---------- what every run keeps ----------

  datatype Step =
    | DoUpdate(profile: Value, opId: OpId, nonce: Text)
    | DoExchange(response: Response)

  function Apply(rt: Runtime, s: Store, key: nat, step: Step): Store {
    match step
    case DoUpdate(profile, opId, nonce) => Update(rt, s, key, profile, opId, nonce).0
    case DoExchange(response) => ApplyExchange(rt, s, key, response).0
  }

  const NEW_STORE := Store(None, map[], {}, None, None)

  function RevisionOf(s: Store): int {
    if s.entity.None? then 0 else s.entity.value.revision
  }

  /** The outbox holds at most one mutation, and the entity is at least at its revision, which is a
      number that doubles can count to. */
  ghost predicate OutboxInv(s: Store) {
    && |s.outbox| <= 1
    && (s.entity.Some? ==> 1 <= s.entity.value.revision <= FLOAT_LIMIT)
    && forall op :: op in s.outbox ==> s.entity.Some? && 0 <= s.outbox[op].baseRevision < s.entity.value.revision
  }

  /** A stored upsert opens under its own revision. */
  ghost predicate Readable(rt: Runtime, s: Store, key: nat) {
    s.entity.Some? && s.entity.value.operation == Upsert ==> Decrypt(rt, s.entity.value, key).Some?
  }

  lemma {:induction false} TakeAllGrows(current: Option<Entity>, es: seq<Entity>)
    ensures var r := TakeAll(current, es);
      && (current.Some? ==> r.Some? && r.value.revision >= current.value.revision)
      && (r == current || (r.Some? && r.value in es))
    decreases |es|
  {
    if es != [] { TakeAllGrows(TakeNewer(current, es[0]), es[1..]); }
  }

  lemma {:induction false} SettleShrinks(outbox: map<OpId, Mutation>, entity: Option<Entity>,
                                         acks: seq<Acknowledgement>)
    ensures var r := Settle(outbox, entity, acks);
      && |r| <= |outbox|
      && (forall op :: op in r ==> op in outbox && r[op] == outbox[op])
      && forall op :: op in outbox && op !in r ==>
           exists i :: 0 <= i < |acks| && acks[i].opId == op && Settles(outbox, entity, acks[i])
    decreases |acks|
  {
    if acks != [] {
      var a := acks[0];
      var next := if Settles(outbox, entity, a) then outbox - {a.opId} else outbox;
      SettleShrinks(next, entity, acks[1..]);
      RemoveSize(outbox, a.opId);
      var r := Settle(outbox, entity, acks);
      forall op | op in outbox && op !in r
        ensures exists i :: 0 <= i < |acks| && acks[i].opId == op && Settles(outbox, entity, acks[i])
      {
        if op in next {
          var i :| 0 <= i < |acks[1..]| && acks[1..][i].opId == op && Settles(next, entity, acks[1..][i]);
          assert acks[i + 1].opId == op && Settles(outbox, entity, acks[i + 1]);
        } else {
          assert acks[0].opId == op;
        }
      }
    }
  }

  lemma RemoveSize(m: map<OpId, Mutation>, op: OpId)
    ensures |m - {op}| <= |m|
  {
    var n := m - {op};
    assert n.Keys == m.Keys - {op};
    assert |n.Keys| <= |m.Keys|;
    assert |n| == |n.Keys| && |m| == |m.Keys|;
  }

  /** Some change for this entity is written as `e`. */
  ghost predicate Carries(changes: seq<Change>, e: Entity) {
    exists i :: 0 <= i < |changes| && changes[i].mine && StoredForm(changes[i].entity) == e
  }

  lemma {:induction false} MaterializedMembers(changes: seq<Change>)
    ensures forall e :: e in Materialized(changes) <==> Carries(changes, e)
  {
    hide StoredForm;
    if changes != [] {
      var rest := changes[1..];
      MaterializedMembers(rest);
      forall e ensures e in Materialized(changes) <==> Carries(changes, e) {
        if e in Materialized(rest) {
          var i :| 0 <= i < |rest| && rest[i].mine && StoredForm(rest[i].entity) == e;
          assert changes[i + 1] == rest[i];
        }
        if i :| 0 <= i < |changes| && changes[i].mine && StoredForm(changes[i].entity) == e {
          if i > 0 { assert rest[i - 1] == changes[i]; }
        }
      }
    }
  }

  /** An entity that an exchange has put in place was acceptable. */
  lemma ExchangedEntity(rt: Runtime, s: Store, key: nat, r: Response)
    requires ApplyExchange(rt, s, key, r).1 && ApplyExchange(rt, s, key, r).0.entity != s.entity
    ensures var e := ApplyExchange(rt, s, key, r).0.entity;
      && e.Some? && 1 <= e.value.revision <= MAX_SAFE_INTEGER
      && (e.value.operation == Upsert ==> Decrypt(rt, e.value, key).Some?)
  {
    hide Decrypt, Settles, Settle, Acceptable;
    TakeAllGrows(s.entity, Materialized(r.changes));
    MaterializedMembers(r.changes);
    var e := ApplyExchange(rt, s, key, r).0.entity.value;
    var i :| 0 <= i < |r.changes| && r.changes[i].mine && StoredForm(r.changes[i].entity) == e;
    AcceptableRevision(rt, key, r.changes[i].entity);
  }

  lemma AcceptableRevision(rt: Runtime, key: nat, e: Entity)
    requires Acceptable(rt, key, e)
    ensures 1 <= e.revision <= MAX_SAFE_INTEGER
    ensures e.operation != Delete ==> StoredForm(e) == e && Decrypt(rt, e, key).Some?
    ensures StoredForm(e).revision == e.revision && StoredForm(e).operation == e.operation
  {
  }

  lemma ExchangeKeeps(rt: Runtime, s: Store, key: nat, r: Response)
    requires OutboxInv(s)
    ensures var s' := ApplyExchange(rt, s, key, r).0;
      && OutboxInv(s') && RevisionOf(s') >= RevisionOf(s)
      && (Readable(rt, s, key) ==> Readable(rt, s', key))
  {
    hide Decrypt, Settles, Acceptable;
    var (s', ok) := ApplyExchange(rt, s, key, r);
    if ok {
      TakeAllGrows(s.entity, Materialized(r.changes));
      SettleShrinks(s.outbox, s'.entity, r.acknowledged);
      if s'.entity != s.entity { ExchangedEntity(rt, s, key, r); }
    }
  }

  /** A queued update makes the store unreadable exactly when its revision is no safe integer. */
  lemma UpdateKeeps(rt: Runtime, s: Store, key: nat, profile: Value, opId: OpId, nonce: Text)
    requires OutboxInv(s)
    ensures var (s', result) := Update(rt, s, key, profile, opId, nonce);
      && OutboxInv(s') && RevisionOf(s') >= RevisionOf(s)
      && (WellFormed(profile) && Readable(rt, s, key) ==>
            (Readable(rt, s', key) <==> !Overflows(rt, s, key, DoUpdate(profile, opId, nonce))))
  {
    hide Print, Aad, Normalize, WellFormed, Decrypt, CurrentText, Same, Load;
    if Update(rt, s, key, profile, opId, nonce).1.Queued? && WellFormed(profile) {
      LoadAfterUpdate(rt, s, key, profile, opId, nonce);
    }
  }

  /** The step is a local edit on top of the last safe revision whose text fits and is not the one
      that is stored. */
  predicate Overflows(rt: Runtime, s: Store, key: nat, step: Step) {
    && step.DoUpdate? && RevisionOf(s) >= MAX_SAFE_INTEGER
    && var text := Print(Normalize(step.profile));
       CurrentText(rt, s, key) != Some(text) && |text| <= MAX_PROFILE_BYTES
  }

  predicate NoOverflow(rt: Runtime, s: Store, key: nat, steps: seq<Step>)
    decreases |steps|
  {
    steps != [] ==> !Overflows(rt, s, key, steps[0]) && NoOverflow(rt, Apply(rt, s, key, steps[0]), key, steps[1..])
  }

  /** After every step the stored upsert, if that is what is stored, opens. */
  ghost predicate StaysReadable(rt: Runtime, s: Store, key: nat, steps: seq<Step>)
    decreases |steps|
  {
    && Readable(rt, s, key)
    && (steps != [] ==> StaysReadable(rt, Apply(rt, s, key, steps[0]), key, steps[1..]))
  }

  /** Profiles are proper JSON objects. */
  ghost predicate Proper(steps: seq<Step>) {
    forall i :: 0 <= i < |steps| && steps[i].DoUpdate? ==> WellFormed(steps[i].profile)
  }

  function Run(rt: Runtime, s: Store, key: nat, steps: seq<Step>): Store
    decreases |steps|
  {
    if steps == [] then s else Run(rt, Apply(rt, s, key, steps[0]), key, steps[1..])
  }

  /** Over every serialized run of updates and exchanges the revision never decreases, and at most
      one mutation waits, with the entity at least at its revision. */
  lemma {:induction false} RunKeeps(rt: Runtime, s: Store, key: nat, steps: seq<Step>)
    requires OutboxInv(s)
    ensures var s' := Run(rt, s, key, steps); OutboxInv(s') && RevisionOf(s') >= RevisionOf(s)
    decreases |steps|
  {
    hide Update, ApplyExchange, OutboxInv, Readable, RevisionOf, Overflows;
    if steps != [] {
      match steps[0] {
        case DoUpdate(profile, opId, nonce) => UpdateKeeps(rt, s, key, profile, opId, nonce);
        case DoExchange(response) => ExchangeKeeps(rt, s, key, response);
      }
      RunKeeps(rt, Apply(rt, s, key, steps[0]), key, steps[1..]);
    }
  }

  /** A run keeps every stored upsert readable if and only if no local edit is queued on top of the
      last safe revision. */
  lemma {:induction false} RunReadableExactly(rt: Runtime, s: Store, key: nat, steps: seq<Step>)
    requires OutboxInv(s) && Readable(rt, s, key) && Proper(steps)
    ensures StaysReadable(rt, s, key, steps) <==> NoOverflow(rt, s, key, steps)
    decreases |steps|
  {
    hide Update, ApplyExchange, OutboxInv, Readable, RevisionOf, WellFormed;
    if steps != [] {
      var s' := Apply(rt, s, key, steps[0]);
      match steps[0] {
        case DoUpdate(profile, opId, nonce) => UpdateKeeps(rt, s, key, profile, opId, nonce);
        case DoExchange(response) => ExchangeKeeps(rt, s, key, response);
      }
      if Readable(rt, s', key) {
        RunReadableExactly(rt, s', key, steps[1..]);
      } else {
        assert !StaysReadable(rt, s', key, steps[1..]);
      }
    }
  }

  /** A waiting mutation as the server receives it: an upsert at one above its base revision. */
  function Sent(m: Mutation): Entity {
    Entity(m.baseRevision + 1, Upsert, 1, m.cipher, m.nonce, m.aadHash)
  }

  /** Every waiting mutation opens under the revision it asks for, exactly when that is a safe
      integer. */
  ghost predicate MutationsOpen(rt: Runtime, s: Store, key: nat) {
    forall op :: op in s.outbox ==>
      (Decrypt(rt, Sent(s.outbox[op]), key).Some? <==> s.outbox[op].baseRevision + 1 <= MAX_SAFE_INTEGER)
  }

  /** What an update queues is what it stores, and carries the normalised profile. */
  lemma QueuedIsStored(rt: Runtime, s: Store, key: nat, profile: Value, opId: OpId, nonce: Text)
    requires WellFormed(profile) && Update(rt, s, key, profile, opId, nonce).1.Queued?
    requires s.entity.Some? ==> s.entity.value.revision >= 0
    ensures var s' := Update(rt, s, key, profile, opId, nonce).0;
      && s'.outbox.Keys == {opId} && s'.entity == Some(Sent(s'.outbox[opId]))
      && (RevisionOf(s) < FLOAT_LIMIT ==> RevisionOf(s') == RevisionOf(s) + 1)
      && s'.flight == Some(opId) && s'.cursor == s.cursor && s'.conflicts == s.conflicts
      && MutationsOpen(rt, s', key)
      && (NextRevision(s) <= MAX_SAFE_INTEGER ==>
            Same(Normalize(profile), Decrypt(rt, Sent(s'.outbox[opId]), key).value))
  {
    hide Print, Aad, Normalize, Same, WellFormed, Decrypt, CurrentText;
    LoadAfterUpdate(rt, s, key, profile, opId, nonce);
  }

  /** What one device sends is what another shows: a choice that was queued here, received there above
      the revision held there, is loaded there as it was given. */
  lemma OtherDeviceShows(rt: Runtime, here: Store, there: Store, key: nat, c: Choice, opId: OpId, nonce: Text,
                         cursor: Text)
    requires Choosable(c) && Update(rt, here, key, ProfileOf(c), opId, nonce).1.Queued?
    requires here.entity.Some? ==> here.entity.value.revision >= 0
    requires RevisionOf(there) < NextRevision(here) <= MAX_SAFE_INTEGER
    ensures var m := Update(rt, here, key, ProfileOf(c), opId, nonce).0.outbox[opId];
      var (there', accepted) := ApplyExchange(rt, there, key, Response([Change(true, Sent(m))], [], [], cursor));
      accepted && Same(ProfileOf(c), Load(rt, there', key)) && RevisionOf(there') == NextRevision(here)
  {
    hide Print, Aad, Normalize, Same, WellFormed, ProfileOf, Choosable, CurrentText, Decrypt, Seal, Update, Settle,
         NextRevision;
    ChoiceKept(c);
    ChoiceWellFormed(c);
    QueuedIsStored(rt, here, key, ProfileOf(c), opId, nonce);
    var m := Update(rt, here, key, ProfileOf(c), opId, nonce).0.outbox[opId];
    QueuedRevision(rt, here, key, ProfileOf(c), opId, nonce);
    OneChange(rt, there, key, Sent(m), cursor);
  }

  lemma QueuedRevision(rt: Runtime, s: Store, key: nat, profile: Value, opId: OpId, nonce: Text)
    requires Update(rt, s, key, profile, opId, nonce).1.Queued?
    ensures opId in Update(rt, s, key, profile, opId, nonce).0.outbox
    ensures Sent(Update(rt, s, key, profile, opId, nonce).0.outbox[opId]).revision == NextRevision(s)
  {
    hide Print, Aad, Normalize, Decrypt, CurrentText;
  }

  lemma OneChange(rt: Runtime, s: Store, key: nat, e: Entity, cursor: Text)
    requires e.operation == Upsert && Decrypt(rt, e, key).Some? && RevisionOf(s) < e.revision
    ensures var (s', accepted) := ApplyExchange(rt, s, key, Response([Change(true, e)], [], [], cursor));
      accepted && s'.entity == Some(e)
  {
    hide Decrypt, Settle;
    var r := Response([Change(true, e)], [], [], cursor);
    assert r.changes[1..] == [] && Materialized(r.changes) == [e];
    assert [e][1..] == [];
    assert TakeAll(s.entity, [e]) == TakeAll(TakeNewer(s.entity, e), []);
  }

  /** A deletion above the stored revision is taken, keeps no ciphertext, and shows the defaults. */
  lemma DeletionShows(rt: Runtime, s: Store, key: nat, e: Entity, cursor: Text)
    requires e.operation == Delete && RevisionOf(s) < e.revision <= MAX_SAFE_INTEGER && RevisionOf(s) >= 0
    ensures var (s', accepted) := ApplyExchange(rt, s, key, Response([Change(true, e)], [], [], cursor));
      && accepted && s'.entity == Some(Entity(e.revision, Delete, e.keyVersion, Forged, [], e.aadHash))
      && Load(rt, s', key) == ProfileOf(Choice("light", "full", [], [], []))
  {
    hide Decrypt, Settle, Load, ProfileOf;
    var r := Response([Change(true, e)], [], [], cursor);
    assert r.changes[1..] == [] && Materialized(r.changes) == [StoredForm(e)];
    assert [StoredForm(e)][1..] == [];
    assert TakeAll(s.entity, [StoredForm(e)]) == TakeAll(TakeNewer(s.entity, StoredForm(e)), []);
    DefaultsShown(rt, ApplyExchange(rt, s, key, r).0, key);
  }

  /** Before anything is chosen, and after a deletion, the defaults are shown. */
  lemma DefaultsShown(rt: Runtime, s: Store, key: nat)
    requires s.entity.Some? ==> s.entity.value.operation == Delete
    ensures Load(rt, s, key) == ProfileOf(Choice("light", "full", [], [], []))
  {
    hide Make;
    assert forall name :: Prop(Null, name) == Null;
    assert SizeFields([]) == [] && Strings([]) == [];
    assert Label("light") == Str(Ascii("light")) && Label("full") == Str(Ascii("full"));
  }

  /** Choosing again what is shown already queues nothing. */
  lemma SecondUpdateUnchanged(rt: Runtime, s: Store, key: nat, profile: Value, opId: OpId, nonce: Text,
                              opId': OpId, nonce': Text)
    requires WellFormed(profile) && Update(rt, s, key, profile, opId, nonce).1.Queued?
    requires s.entity.Some? ==> s.entity.value.revision >= 0
    requires NextRevision(s) <= MAX_SAFE_INTEGER
    ensures var s' := Update(rt, s, key, profile, opId, nonce).0;
      Update(rt, s', key, profile, opId', nonce') == (s', Unchanged(NextRevision(s)))
  {
    hide Print, Aad, Normalize, Same, WellFormed, Decrypt, Seal;
    var s' := Update(rt, s, key, profile, opId, nonce).0;
    LoadAfterUpdate(rt, s, key, profile, opId, nonce);
    NormalWellFormed(profile);
    SamePrint(Normalize(profile), Load(rt, s', key));
    QueuedRevision(rt, s, key, profile, opId, nonce);
    QueuedIsStored(rt, s, key, profile, opId, nonce);
  }

  lemma {:induction false} RunMutationsOpen(rt: Runtime, s: Store, key: nat, steps: seq<Step>)
    requires OutboxInv(s) && MutationsOpen(rt, s, key) && Proper(steps)
    ensures MutationsOpen(rt, Run(rt, s, key, steps), key)
    decreases |steps|
  {
    hide Update, ApplyExchange, OutboxInv, MutationsOpen, RevisionOf, WellFormed;
    if steps != [] {
      var s' := Apply(rt, s, key, steps[0]);
      match steps[0] {
        case DoUpdate(profile, opId, nonce) =>
          UpdateKeeps(rt, s, key, profile, opId, nonce);
          UpdateMutations(rt, s, key, profile, opId, nonce);
        case DoExchange(response) =>
          ExchangeKeeps(rt, s, key, response);
          ExchangeMutations(rt, s, key, response);
      }
      RunMutationsOpen(rt, s', key, steps[1..]);
    }
  }

  lemma UpdateMutations(rt: Runtime, s: Store, key: nat, profile: Value, opId: OpId, nonce: Text)
    requires OutboxInv(s) && MutationsOpen(rt, s, key) && WellFormed(profile)
    ensures MutationsOpen(rt, Update(rt, s, key, profile, opId, nonce).0, key)
  {
    hide Print, Normalize, WellFormed, Decrypt, CurrentText, MutationsOpen, Same, Seal;
    if Update(rt, s, key, profile, opId, nonce).1.Queued? { QueuedIsStored(rt, s, key, profile, opId, nonce); }
  }

  lemma ExchangeMutations(rt: Runtime, s: Store, key: nat, r: Response)
    requires MutationsOpen(rt, s, key)
    ensures MutationsOpen(rt, ApplyExchange(rt, s, key, r).0, key)
  {
    hide Decrypt, Settles, AllAcceptable;
    SettleShrinks(s.outbox, ApplyExchange(rt, s, key, r).0.entity, r.acknowledged);
  }

  /** What holds from the first start on. */
  lemma EveryRun(rt: Runtime, key: nat, steps: seq<Step>)
    ensures OutboxInv(Run(rt, NEW_STORE, key, steps))
    ensures Proper(steps) ==>
      && (StaysReadable(rt, NEW_STORE, key, steps) <==> NoOverflow(rt, NEW_STORE, key, steps))
      && MutationsOpen(rt, Run(rt, NEW_STORE, key, steps), key)
  {
    hide Run, StaysReadable, NoOverflow, Proper;
    NewStoreFine(rt, key);
    RunKeeps(rt, NEW_STORE, key, steps);
    if Proper(steps) {
      RunReadableExactly(rt, NEW_STORE, key, steps);
      RunMutationsOpen(rt, NEW_STORE, key, steps);
    }
  }

  lemma NewStoreFine(rt: Runtime, key: nat)
    ensures OutboxInv(NEW_STORE) && Readable(rt, NEW_STORE, key)
  {
  }

  /** A response that carries one tombstone. */
  function TombstoneOf(revision: int): Response {
    Response([Change(true, Entity(revision, Delete, 1, Forged, [], []))], [], [], [])
  }

  lemma TombstoneTaken(rt: Runtime, key: nat, revision: int)
    requires 1 <= revision <= MAX_SAFE_INTEGER
    ensures ApplyExchange(rt, NEW_STORE, key, TombstoneOf(revision))
         == (Store(Some(Entity(revision, Delete, 1, Forged, [], [])), map[], {}, Some([]), None), true)
  {
    hide Decrypt;
    var r, e := TombstoneOf(revision), Entity(revision, Delete, 1, Forged, [], []);
    assert r.changes[1..] == [] && Materialized([]) == [];
    assert Materialized(r.changes) == [e];
    assert [e][1..] == [] && TakeAll(None, [e]) == TakeAll(Some(e), []) == Some(e);
    assert Settle(map[], Some(e), []) == map[];
    assert {} + (set c | c in r.conflicts) == {};
  }

  /** A remote tombstone at the last safe revision, then one local edit. */
  function OverflowingSteps(profile: Value, opId: OpId, nonce: Text): seq<Step> {
    [DoExchange(TombstoneOf(MAX_SAFE_INTEGER)), DoUpdate(profile, opId, nonce)]
  }

  /** The failing store is within reach: after these two steps the profile that was just queued
      cannot be read back, and loading gives the defaults. */
  lemma OverflowReachable(rt: Runtime, key: nat, profile: Value, opId: OpId, nonce: Text)
    requires |Print(Normalize(profile))| <= MAX_PROFILE_BYTES
    ensures var s := Run(rt, NEW_STORE, key, OverflowingSteps(profile, opId, nonce));
      && opId in s.outbox
      && s.entity.Some? && s.entity.value.operation == Upsert && s.entity.value.revision == FLOAT_LIMIT
      && !Readable(rt, s, key) && Load(rt, s, key) == Normalize(Null)
  {
    hide Print, Normalize, Aad, ApplyExchange;
    var steps := OverflowingSteps(profile, opId, nonce);
    var s1 := Apply(rt, NEW_STORE, key, steps[0]);
    TombstoneTaken(rt, key, MAX_SAFE_INTEGER);
    var s2 := Apply(rt, s1, key, steps[1]);
    assert steps[1..][1..] == [] && steps[1..][0] == steps[1];
    assert Run(rt, s2, key, []) == s2;
    assert Run(rt, s1, key, steps[1..]) == s2;
  }

  /** A waiting mutation leaves the outbox only by an acknowledgement of its own id at its own
      revision, or because a later update replaces it. */
  lemma MutationLeaves(rt: Runtime, s: Store, key: nat, step: Step, op: OpId)
    requires op in s.outbox && op !in Apply(rt, s, key, step).outbox
    ensures match step
      case DoUpdate(profile, opId, nonce) =>
        Update(rt, s, key, profile, opId, nonce).1 == Queued(NextRevision(s), opId) && opId != op
      case DoExchange(response) =>
        exists i :: 0 <= i < |response.acknowledged| && response.acknowledged[i].opId == op
          && response.acknowledged[i].acknowledged
          && response.acknowledged[i].revision == s.outbox[op].baseRevision + 1
  {
    match step
    case DoUpdate(profile, opId, nonce) =>
    case DoExchange(r) =>
      var s' := Apply(rt, s, key, step);
      SettleShrinks(s.outbox, s'.entity, r.acknowledged);
      var i :| 0 <= i < |r.acknowledged| && r.acknowledged[i].opId == op
            && Settles(s.outbox, s'.entity, r.acknowledged[i]);
  }

  /** A late acknowledgement, for ids that no longer wait, removes nothing. */
  lemma LateAcknowledgement(rt: Runtime, s: Store, key: nat, r: Response)
    requires forall i :: 0 <= i < |r.acknowledged| ==> r.acknowledged[i].opId !in s.outbox
    ensures ApplyExchange(rt, s, key, r).0.outbox == s.outbox
  {
    var s' := ApplyExchange(rt, s, key, r).0;
    SettleShrinks(s.outbox, s'.entity, r.acknowledged);
    forall op ensures op in s'.outbox <==> op in s.outbox { }
  }

  lemma {:induction false} SettledOnce(outbox: map<OpId, Mutation>, entity: Option<Entity>,
                                       acks: seq<Acknowledgement>, i: nat)
    requires i < |acks| && Settles(outbox, entity, acks[i])
    ensures acks[i].opId !in Settle(outbox, entity, acks)
    decreases |acks|
  {
    var next := if Settles(outbox, entity, acks[0]) then outbox - {acks[0].opId} else outbox;
    if acks[i].opId in next {
      SettledOnce(next, entity, acks[1..], i - 1);
    } else {
      SettleShrinks(next, entity, acks[1..]);
    }
  }

  /** Exactly when an accepted response removes a waiting mutation: when it acknowledges the mutation's
      own id at one above its base revision, and the entity is at least there. */
  lemma SettledExactly(rt: Runtime, s: Store, key: nat, r: Response, op: OpId)
    requires AllAcceptable(rt, key, r.changes) && op in s.outbox
    ensures var s' := ApplyExchange(rt, s, key, r).0;
      op !in s'.outbox
      <==> && s'.entity.Some? && s'.entity.value.revision >= s.outbox[op].baseRevision + 1
           && Acknowledgement(op, true, s.outbox[op].baseRevision + 1) in r.acknowledged
  {
    hide AllAcceptable;
    var s' := ApplyExchange(rt, s, key, r).0;
    SettleShrinks(s.outbox, s'.entity, r.acknowledged);
    if i :| 0 <= i < |r.acknowledged| && r.acknowledged[i] == Acknowledgement(op, true, s.outbox[op].baseRevision + 1) {
      if s'.entity.Some? && s'.entity.value.revision >= s.outbox[op].baseRevision + 1 {
        SettledOnce(s.outbox, s'.entity, r.acknowledged, i);
      }
    }
  }

  /** The server's answer to the mutation that waits clears the outbox. */
  lemma AcknowledgementSettles(rt: Runtime, s: Store, key: nat, op: OpId, cursor: Text)
    requires OutboxInv(s) && op in s.outbox
    ensures var r := Response([], [Acknowledgement(op, true, s.outbox[op].baseRevision + 1)], [], cursor);
      ApplyExchange(rt, s, key, r).0.outbox == map[]
  {
    var r := Response([], [Acknowledgement(op, true, s.outbox[op].baseRevision + 1)], [], cursor);
    assert r.acknowledged[1..] == [] && Materialized(r.changes) == [];
    assert Settles(s.outbox, s.entity, r.acknowledged[0]);
    var left := s.outbox - {op};
    assert left.Keys == s.outbox.Keys - {op};
    assert |s.outbox.Keys| == |s.outbox| && |left.Keys| == |s.outbox.Keys| - 1;
    assert left.Keys == {};
    assert Settle(s.outbox, s.entity, r.acknowledged) == Settle(left, s.entity, []) == left;
  }

  // ---------- merging remote changes ----------

  /** The newest of what is stored and what was received; the stored entity wins a tie. */
  ghost predicate Newest(current: Option<Entity>, es: seq<Entity>, r: Option<Entity>) {
    && (r == current || (r.Some? && r.value in es && (current.Some? ==> r.value.revision > current.value.revision)))
    && (forall e :: e in es ==> r.Some? && e.revision <= r.value.revision)
  }

  lemma {:induction false} TakeAllNewest(current: Option<Entity>, es: seq<Entity>)
    ensures Newest(current, es, TakeAll(current, es))
    decreases |es|
  {
    if es != [] {
      var next := TakeNewer(current, es[0]);
      TakeAllNewest(next, es[1..]);
      TakeAllGrows(next, es[1..]);
      assert es == [es[0]] + es[1..];
    }
  }

  ghost predicate OwnRevisions(es: seq<Entity>) {
    forall a, b :: a in es && b in es && a.revision == b.revision ==> a == b
  }

  lemma MergeOrderIrrelevant(current: Option<Entity>, a: seq<Entity>, b: seq<Entity>)
    requires OwnRevisions(a) && forall e :: e in a <==> e in b
    ensures TakeAll(current, a) == TakeAll(current, b)
  {
    TakeAllNewest(current, a);
    TakeAllNewest(current, b);
  }

  lemma {:induction false} MergeBatching(current: Option<Entity>, a: seq<Entity>, b: seq<Entity>)
    ensures TakeAll(TakeAll(current, a), b) == TakeAll(current, a + b)
    decreases |a|
  {
    if a == [] {
      assert a + b == b;
    } else {
      assert (a + b)[1..] == a[1..] + b;
      MergeBatching(TakeNewer(current, a[0]), a[1..], b);
    }
  }

  lemma {:induction false} MaterializedAppend(a: seq<Change>, b: seq<Change>)
    ensures Materialized(a + b) == Materialized(a) + Materialized(b)
    decreases |a|
  {
    if a == [] {
      assert a + b == b;
    } else {
      assert (a + b)[1..] == a[1..] + b;
      MaterializedAppend(a[1..], b);
    }
  }

  /** The newest revision wins, at the level of whole responses: an accepted response leaves the
      newest of what was stored and what it carried. */
  lemma ExchangeTakesNewest(rt: Runtime, s: Store, key: nat, r: Response)
    requires AllAcceptable(rt, key, r.changes)
    ensures Newest(s.entity, Materialized(r.changes), ApplyExchange(rt, s, key, r).0.entity)
    ensures var s' := ApplyExchange(rt, s, key, r).0;
      && s'.cursor == Some(r.nextCursor) && s'.flight == None
      && forall op :: op in s'.conflicts <==> op in s.conflicts || op in r.conflicts
  {
    hide Newest, Acceptable;
    TakeAllNewest(s.entity, Materialized(r.changes));
  }

  /** Both changes are for this entity, at one revision. */
  predicate Rivals(c: Change, d: Change) {
    c.mine && d.mine && c.entity.revision == d.entity.revision
  }

  /** Order does not matter: two responses with the same changes, in whatever order and however
      often, are both refused or lead to the same entity, as long as the changes for this entity
      have pairwise distinct revisions. */
  lemma ExchangeOrderIrrelevant(rt: Runtime, s: Store, key: nat, a: Response, b: Response)
    requires forall c :: c in a.changes <==> c in b.changes
    requires forall c, d :: c in a.changes && d in a.changes && Rivals(c, d) ==> c == d
    ensures ApplyExchange(rt, s, key, a).1 == ApplyExchange(rt, s, key, b).1
    ensures ApplyExchange(rt, s, key, a).0.entity == ApplyExchange(rt, s, key, b).0.entity
  {
    hide Acceptable, AllAcceptable, Settle, TakeAll, Materialized;
    AllAccepted(rt, key, a.changes, b.changes);
    AllAccepted(rt, key, b.changes, a.changes);
    MaterializedMembers(a.changes);
    MaterializedMembers(b.changes);
    var x, y := Materialized(a.changes), Materialized(b.changes);
    SameMaterialized(a.changes, b.changes);
    SameMaterialized(b.changes, a.changes);
    forall e, f | e in x && f in x && e.revision == f.revision ensures e == f {
      var i :| 0 <= i < |a.changes| && a.changes[i].mine && StoredForm(a.changes[i].entity) == e;
      var j :| 0 <= j < |a.changes| && a.changes[j].mine && StoredForm(a.changes[j].entity) == f;
      assert a.changes[i] in a.changes && a.changes[j] in a.changes;
    }
    MergeOrderIrrelevant(s.entity, x, y);
  }

  lemma AllAccepted(rt: Runtime, key: nat, a: seq<Change>, b: seq<Change>)
    requires forall c :: c in a ==> c in b
    ensures AllAcceptable(rt, key, b) ==> AllAcceptable(rt, key, a)
  {
    hide Acceptable;
    forall i | AllAcceptable(rt, key, b) && 0 <= i < |a| && a[i].mine ensures Acceptable(rt, key, a[i].entity) {
      assert a[i] in b;
      var j :| 0 <= j < |b| && b[j] == a[i];
    }
  }

  lemma SameMaterialized(a: seq<Change>, b: seq<Change>)
    requires forall c :: c in a ==> c in b
    ensures forall e :: e in Materialized(a) ==> e in Materialized(b)
  {
    hide StoredForm, Materialized;
    MaterializedMembers(a);
    MaterializedMembers(b);
    forall e | e in Materialized(a) ensures e in Materialized(b) {
      var i :| 0 <= i < |a| && a[i].mine && StoredForm(a[i].entity) == e;
      assert a[i] in b;
      var j :| 0 <= j < |b| && b[j] == a[i];
    }
  }

  /** Two responses in one. */
  function Joined(a: Response, b: Response): Response {
    Response(a.changes + b.changes, a.acknowledged + b.acknowledged, a.conflicts + b.conflicts, b.nextCursor)
  }

  /** The entity has reached what every waiting mutation was made for. */
  ghost predicate Reached(outbox: map<OpId, Mutation>, entity: Option<Entity>) {
    forall op :: op in outbox ==> entity.Some? && entity.value.revision >= outbox[op].baseRevision + 1
  }

  /** From there on acknowledgements settle alike, however far the entity has got. */
  lemma {:induction false} SettleAlike(outbox: map<OpId, Mutation>, a: Option<Entity>, b: Option<Entity>,
                                       acks: seq<Acknowledgement>)
    requires Reached(outbox, a) && Reached(outbox, b)
    ensures Settle(outbox, a, acks) == Settle(outbox, b, acks)
    decreases |acks|
  {
    if acks != [] {
      var next := if Settles(outbox, a, acks[0]) then outbox - {acks[0].opId} else outbox;
      SettleAlike(next, a, b, acks[1..]);
    }
  }

  lemma {:induction false} SettleBatching(outbox: map<OpId, Mutation>, entity: Option<Entity>,
                                          a: seq<Acknowledgement>, b: seq<Acknowledgement>)
    ensures Settle(Settle(outbox, entity, a), entity, b) == Settle(outbox, entity, a + b)
    decreases |a|
  {
    if a == [] {
      assert a + b == b;
    } else {
      assert (a + b)[1..] == a[1..] + b;
      SettleBatching(if Settles(outbox, entity, a[0]) then outbox - {a[0].opId} else outbox, entity, a[1..], b);
    }
  }

  lemma JoinedAcceptable(rt: Runtime, key: nat, a: seq<Change>, b: seq<Change>)
    ensures AllAcceptable(rt, key, a + b) <==> AllAcceptable(rt, key, a) && AllAcceptable(rt, key, b)
  {
    hide Acceptable;
    AllAccepted(rt, key, a, a + b);
    AllAccepted(rt, key, b, a + b);
    assert forall i :: 0 <= i < |a + b| ==> (a + b)[i] == if i < |a| then a[i] else b[i - |a|];
  }

  /** The response carries nothing newer than what is stored. */
  ghost predicate NothingNewer(s: Store, r: Response) {
    forall e :: e in Materialized(r.changes) ==> s.entity.Some? && e.revision <= s.entity.value.revision
  }

  lemma {:induction false} NothingTaken(current: Option<Entity>, es: seq<Entity>)
    ensures TakeAll(current, es) == current
      <==> forall e :: e in es ==> current.Some? && e.revision <= current.value.revision
  {
    TakeAllNewest(current, es);
  }

  /** Batching.  The joined response is accepted exactly when each of the two is acceptable, and
      else changes nothing.  When both are, it leads to the same entity, conflicts and cursor as
      taking them one after the other; and in a store that keeps its invariant the whole stores are
      equal, outbox included, when both are acceptable and when neither is. */
  lemma ExchangeBatching(rt: Runtime, s: Store, key: nat, a: Response, b: Response)
    ensures var (s1, ok1) := ApplyExchange(rt, s, key, a);
      var (s2, ok2) := ApplyExchange(rt, s1, key, b);
      var (t, ok) := ApplyExchange(rt, s, key, Joined(a, b));
      var okA, okB := AllAcceptable(rt, key, a.changes), AllAcceptable(rt, key, b.changes);
      && (ok <==> okA && okB)
      && (!ok ==> t == s)
      && (ok ==> t.entity == s2.entity && t.conflicts == s2.conflicts && t.cursor == s2.cursor && t.flight == s2.flight)
      && (OutboxInv(s) && okA == okB ==> t == s2)
  {
    hide AllAcceptable, Settle, Settles, OutboxInv;
    JoinedAcceptable(rt, key, a.changes, b.changes);
    if AllAcceptable(rt, key, a.changes) && AllAcceptable(rt, key, b.changes) {
      var s1 := ApplyExchange(rt, s, key, a).0;
      MaterializedAppend(a.changes, b.changes);
      MergeBatching(s.entity, Materialized(a.changes), Materialized(b.changes));
      assert s.conflicts + (set c | c in a.conflicts) + (set c | c in b.conflicts)
          == s.conflicts + (set c | c in a.conflicts + b.conflicts);
      if OutboxInv(s) {
        var entity := TakeAll(s1.entity, Materialized(b.changes));
        StillReached(s, Materialized(a.changes));
        TakeAllReached(s.outbox, s1.entity, Materialized(b.changes));
        SettleAlike(s.outbox, s1.entity, entity, a.acknowledged);
        SettleBatching(s.outbox, entity, a.acknowledged, b.acknowledged);
      }
    }
  }

  lemma StillReached(s: Store, es: seq<Entity>)
    requires OutboxInv(s)
    ensures Reached(s.outbox, TakeAll(s.entity, es))
  {
    TakeAllGrows(s.entity, es);
  }

  lemma TakeAllReached(outbox: map<OpId, Mutation>, current: Option<Entity>, es: seq<Entity>)
    requires Reached(outbox, current)
    ensures Reached(outbox, TakeAll(current, es))
  {
    TakeAllGrows(current, es);
  }

  /** Exactly when splitting remote changes over two responses is immaterial for the entity: when
      both are acceptable or neither is, or when the only acceptable one carries nothing newer than
      what is stored. */
  lemma SplittingExactly(rt: Runtime, s: Store, key: nat, a: Response, b: Response)
    ensures var split := ApplyExchange(rt, ApplyExchange(rt, s, key, a).0, key, b).0;
      var joined := ApplyExchange(rt, s, key, Joined(a, b)).0;
      var okA, okB := AllAcceptable(rt, key, a.changes), AllAcceptable(rt, key, b.changes);
      split.entity == joined.entity
      <==> || okA == okB
           || (okA && NothingNewer(s, a))
           || (okB && NothingNewer(s, b))
  {
    hide AllAcceptable, Settle;
    JoinedAcceptable(rt, key, a.changes, b.changes);
    MaterializedAppend(a.changes, b.changes);
    MergeBatching(s.entity, Materialized(a.changes), Materialized(b.changes));
    NothingTaken(s.entity, Materialized(a.changes));
    NothingTaken(s.entity, Materialized(b.changes));
  }

  /** Where a change is refused, batching does matter: taken one after the other, a good response
      and a refused one leave the good change in place; joined, they leave nothing. */
  lemma RefusedTogether(rt: Runtime, key: nat)
    ensures var one := ApplyExchange(rt, ApplyExchange(rt, NEW_STORE, key, TombstoneOf(1)).0, key, TombstoneOf(0)).0;
      var both := ApplyExchange(rt, NEW_STORE, key, Joined(TombstoneOf(1), TombstoneOf(0))).0;
      one.entity == Some(Entity(1, Delete, 1, Forged, [], [])) && both.entity == None
  {
    TombstoneTaken(rt, key, 1);
    var bad, joined := TombstoneOf(0).changes, Joined(TombstoneOf(1), TombstoneOf(0)).changes;
    assert bad[0].mine && !Acceptable(rt, key, bad[0].entity);
    assert joined[1] == bad[0];
  }
}
