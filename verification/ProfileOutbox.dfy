/** The encrypted dashboard profile: one entity, its replacement outbox and the exchange with a
    remote authority.  AES-GCM is ideal: a ciphertext opens only under the key, nonce and
    associated data it was sealed with. */
module ProfileOutbox {
  import opened Wrappers
  import opened Json
  import opened CanonicalJson
  import opened CanonicalParser
  import opened AuthorityShape
  import opened ProfileNormal

  const MAX_PROFILE_BYTES: nat := 32_768
  const AAD_KEYS: seq<string> :=
    ["envelopeVersion", "entityId", "entityType", "keyVersion", "operation", "product", "revision"]

  /** `mutationAad(revision, "upsert")` */
  function Aad(revision: int): Value {
    Make(AAD_KEYS,
      [Num(1), Str(Ascii("profile")), Str(Ascii("dashboard_profile")), Num(1), Str(Ascii("upsert")),
       Str(Ascii("personal-mcp-gateway")), Num(revision)])
  }

  datatype Cipher = Sealed(key: nat, nonce: Text, aad: Text, plaintext: Text) | Forged

  datatype Operation = Upsert | Delete | OtherOperation

  /** An entity record, and equally the part of a remote change that is read. */
  datatype Entity = Entity(
    revision: int, operation: Operation, keyVersion: int, cipher: Cipher, nonce: Text, aadHash: Text)

  datatype Mutation = Mutation(baseRevision: int, cipher: Cipher, nonce: Text, aadHash: Text)

  type OpId = Text

  datatype Store = Store(entity: Option<Entity>, outbox: map<OpId, Mutation>, conflicts: set<OpId>,
                         cursor: Option<Text>, flight: Option<OpId>)

  // ---------- sealing ----------

  function Seal(rt: Runtime, key: nat, normalized: Value, revision: int, nonce: Text): Entity {
    Entity(revision, Upsert, 1, Sealed(key, nonce, Print(Aad(revision)), Print(normalized)), nonce,
           rt.sha256(Print(Aad(revision))))
  }

  function Open(cipher: Cipher, key: nat, nonce: Text, aad: Text): Option<Text> {
    if cipher.Sealed? && cipher.key == key && cipher.nonce == nonce && cipher.aad == aad
    then Some(cipher.plaintext) else None
  }

  /** `decrypt` */
  function Decrypt(rt: Runtime, e: Entity, key: nat): Option<Value> {
    if e.operation != Upsert || !(1 <= e.revision <= MAX_SAFE_INTEGER) || e.keyVersion != 1 then None
    else if e.aadHash != rt.sha256(Print(Aad(e.revision))) then None
    else match Open(e.cipher, key, e.nonce, Print(Aad(e.revision)))
      case None => None
      case Some(plaintext) =>
        if |plaintext| > MAX_PROFILE_BYTES then None
        else match ParseValue(plaintext)
          case Fail => None
          case Ok(v, rest) => if rest == [] then Some(Normalize(v)) else None
  }

  /** `load` */
  function Load(rt: Runtime, s: Store, key: nat): Value {
    var profile := if s.entity.None? then None else Decrypt(rt, s.entity.value, key);
    match profile
    case Some(p) => p
    case None => Normalize(Null)
  }

  // ---------- update ----------

  datatype UpdateResult = Queued(revision: int, opId: OpId) | Unchanged(revision: int) | TooLarge

  function CurrentText(rt: Runtime, s: Store, key: nat): Option<Text> {
    if s.entity.None? then None
    else match Decrypt(rt, s.entity.value, key)
      case None => None
      case Some(profile) => Some(Print(profile))
  }

  /** From here on adding one to a double gives the same double again. */
  const FLOAT_LIMIT := 9_007_199_254_740_992

  function Increment(revision: int): int {
    if revision < FLOAT_LIMIT then revision + 1 else revision
  }

  function NextRevision(s: Store): int {
    if s.entity.None? then 1 else Increment(s.entity.value.revision)
  }

  function Update(rt: Runtime, s: Store, key: nat, profile: Value, opId: OpId, nonce: Text): (Store, UpdateResult) {
    var normalized := Normalize(profile);
    if CurrentText(rt, s, key) == Some(Print(normalized)) then (s, Unchanged(s.entity.value.revision))
    else if |Print(normalized)| > MAX_PROFILE_BYTES then (s, TooLarge)
    else
      var revision := NextRevision(s);
      var e := Seal(rt, key, normalized, revision, nonce);
      (s.(entity := Some(e),
          outbox := map[opId := Mutation(revision - 1, e.cipher, e.nonce, e.aadHash)],
          flight := Some(opId)),
       Queued(revision, opId))
  }

  // ---------- exchange ----------

  /** A change of the response; `mine` says that it is an object for this entity. */
  datatype Change = Change(mine: bool, entity: Entity)

  datatype Acknowledgement = Acknowledgement(opId: OpId, acknowledged: bool, revision: int)

  datatype Response = Response(changes: seq<Change>, acknowledged: seq<Acknowledgement>, conflicts: seq<OpId>,
                               nextCursor: Text)

  /** A change that may be materialised: a tombstone with a proper revision, or an upsert that
      opens. */
  predicate Acceptable(rt: Runtime, key: nat, e: Entity) {
    if e.operation == Delete then 1 <= e.revision <= MAX_SAFE_INTEGER else Decrypt(rt, e, key).Some?
  }

  function Materialized(changes: seq<Change>): seq<Entity> {
    if changes == [] then []
    else
      var rest := Materialized(changes[1..]);
      if changes[0].mine then [StoredForm(changes[0].entity)] + rest else rest
  }

  /** What is written for a change: a tombstone keeps no ciphertext. */
  function StoredForm(e: Entity): Entity {
    if e.operation == Delete then e.(cipher := Forged, nonce := []) else e
  }

  function TakeNewer(current: Option<Entity>, e: Entity): Option<Entity> {
    if current.None? || e.revision > current.value.revision then Some(e) else current
  }

  function TakeAll(current: Option<Entity>, es: seq<Entity>): Option<Entity>
    decreases |es|
  {
    if es == [] then current else TakeAll(TakeNewer(current, es[0]), es[1..])
  }

  predicate Settles(outbox: map<OpId, Mutation>, entity: Option<Entity>, a: Acknowledgement) {
    && a.acknowledged && a.opId in outbox
    && a.revision == outbox[a.opId].baseRevision + 1
    && entity.Some? && entity.value.revision >= a.revision
  }

  function Settle(outbox: map<OpId, Mutation>, entity: Option<Entity>, acks: seq<Acknowledgement>): map<OpId, Mutation>
    decreases |acks|
  {
    if acks == [] then outbox
    else Settle(if Settles(outbox, entity, acks[0]) then outbox - {acks[0].opId} else outbox, entity, acks[1..])
  }

  /** Every change for this entity may be materialised. */
  predicate AllAcceptable(rt: Runtime, key: nat, changes: seq<Change>) {
    forall i :: 0 <= i < |changes| && changes[i].mine ==> Acceptable(rt, key, changes[i].entity)
  }

  /** `applyExchange`; the flag is false when it throws. */
  function ApplyExchange(rt: Runtime, s: Store, key: nat, r: Response): (Store, bool) {
    if !AllAcceptable(rt, key, r.changes) then (s, false)
    else
      var entity := TakeAll(s.entity, Materialized(r.changes));
      (Store(entity, Settle(s.outbox, entity, r.acknowledged), s.conflicts + (set c | c in r.conflicts),
             Some(r.nextCursor), None), true)
  }

  // ---------- the store, step by step ----------

  /** Deletes the mutations that wait for the entity, one by one. */
  method DeletePrior(waiting: map<OpId, Mutation>) returns (outbox: map<OpId, Mutation>)
    ensures outbox == map[]
  {
    outbox := waiting;
    var prior := outbox.Keys;
    while prior != {}
      invariant outbox.Keys == prior
      decreases |prior|
    {
      var item :| item in prior;
      outbox := outbox - {item};
      prior := prior - {item};
    }
  }

  class DashboardProfileStore {
    const key: nat
    var state: Store

    constructor (key: nat)
      ensures this.key == key && state == Store(None, map[], {}, None, None)
    {
      this.key := key;
      state := Store(None, map[], {}, None, None);
    }

    method UpdateProfile(rt: Runtime, profile: Value, opId: OpId, nonce: Text) returns (result: UpdateResult)
      modifies this`state
      ensures (state, result) == Update(rt, old(state), key, profile, opId, nonce)
    {
      hide Print, Normalize, Decrypt, Seal, Aad;
      var normalized := Normalize(profile);
      if state.entity.Some? {
        var current := Decrypt(rt, state.entity.value, key);
        if current.Some? && Print(current.value) == Print(normalized) {
          return Unchanged(state.entity.value.revision);
        }
      }
      if |Print(normalized)| > MAX_PROFILE_BYTES { return TooLarge; }
      var revision := if state.entity.None? then 1 else Increment(state.entity.value.revision);
      var sealed := Seal(rt, key, normalized, revision, nonce);
      var outbox := DeletePrior(state.outbox);
      state := state.(entity := Some(sealed),
                      outbox := outbox[opId := Mutation(revision - 1, sealed.cipher, sealed.nonce, sealed.aadHash)],
                      flight := Some(opId));
      return Queued(revision, opId);
    }

    method ApplyResponse(rt: Runtime, r: Response) returns (done: bool)
      modifies this`state
      ensures (state, done) == ApplyExchange(rt, old(state), key, r)
    {
      hide Acceptable, Decrypt, Settles;
      var materialized: seq<Entity> := [];
      for i := 0 to |r.changes|
        invariant forall j :: 0 <= j < i ==> r.changes[j].mine ==> Acceptable(rt, key, r.changes[j].entity)
        invariant materialized + Materialized(r.changes[i..]) == Materialized(r.changes)
      {
        assert r.changes[i..][1..] == r.changes[i + 1..];
        if r.changes[i].mine {
          if !Acceptable(rt, key, r.changes[i].entity) { return false; }
          materialized := materialized + [StoredForm(r.changes[i].entity)];
        }
      }
      assert r.changes[|r.changes|..] == [] && materialized == Materialized(r.changes);
      var entity := state.entity;
      for i := 0 to |materialized|
        invariant TakeAll(entity, materialized[i..]) == TakeAll(state.entity, materialized)
      {
        assert materialized[i..][1..] == materialized[i + 1..];
        if entity.None? || materialized[i].revision > entity.value.revision { entity := Some(materialized[i]); }
      }
      assert materialized[|materialized|..] == [] && entity == TakeAll(state.entity, materialized);
      var outbox := state.outbox;
      for i := 0 to |r.acknowledged|
        invariant Settle(outbox, entity, r.acknowledged[i..]) == Settle(state.outbox, entity, r.acknowledged)
      {
        assert r.acknowledged[i..][1..] == r.acknowledged[i + 1..];
        if Settles(outbox, entity, r.acknowledged[i]) { outbox := outbox - {r.acknowledged[i].opId}; }
      }
      assert r.acknowledged[|r.acknowledged|..] == [];
      state := Store(entity, outbox, state.conflicts + (set c | c in r.conflicts), Some(r.nextCursor), None);
      return true;
    }
  }
}
