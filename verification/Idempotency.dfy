/** Idempotency claims.  A claim is three database statements, each serialized on its own, so
    other callers' statements may fall between them. */
module Idempotency {

  datatype Key = Key(scope: string, requestId: string)

  datatype GatewayError = GatewayError(code: string, message: string, retryable: bool, details: string)

  /** Status and stored JSON of a record; the two are always written together. */
  datatype Outcome = InProgress | Completed(result: string) | Failed(error: GatewayError)

  datatype Row = Row(digest: string, outcome: Outcome, expiresAt: int)

  type Table = map<Key, Row>

  /** What `claim` returns or raises; Execute is the answer `None`. */
  datatype Answer =
    Execute | Replay(result: string) | Raise(error: GatewayError) | Conflict | RequestInProgress | Missing

  // ---------- the statements ----------

  function Expired(t: Table, now: int): set<Key> {
    set k | k in t && t[k].expiresAt < now
  }

  function DeleteExpired(t: Table, now: int): Table {
    t - Expired(t, now)
  }

  function InsertOrIgnore(t: Table, key: Key, digest: string, expiresAt: int): Table {
    if key in t then t else t[key := Row(digest, InProgress, expiresAt)]
  }

  function Record(t: Table, key: Key, outcome: Outcome): Table {
    if key in t then t[key := t[key].(outcome := outcome)] else t
  }

  /** What `claim` makes of the row it reads. */
  function Judge(t: Table, key: Key, digest: string, inserted: bool): Answer {
    if key !in t then Missing
    else if t[key].digest != digest then Conflict
    else match t[key].outcome
      case InProgress => if inserted then Execute else RequestInProgress
      case Completed(result) => Replay(result)
      case Failed(error) => Raise(error)
  }

  // ---------- the store ----------

  class IdempotencyStore {
    var rows: Table

    constructor ()
      ensures rows == map[]
    {
      rows := map[];
    }

    /** `claim`, when no other caller's statement falls between its three. */
    method Claim(key: Key, digest: string, now: int, ttlSeconds: int) returns (answer: Answer)
      modifies this
      ensures var (t, a) := ClaimAlone(old(rows), key, digest, now, ttlSeconds); rows == t && answer == a
    {
      rows := rows - Expired(rows, now);
      var inserted := key !in rows;
      if inserted {
        rows := rows[key := Row(digest, InProgress, now + ttlSeconds)];
      }
      if key !in rows { return Missing; }
      var row := rows[key];
      if row.digest != digest { return Conflict; }
      if !inserted && row.outcome.InProgress? { return RequestInProgress; }
      if row.outcome.Completed? { return Replay(row.outcome.result); }
      if row.outcome.Failed? { return Raise(row.outcome.error); }
      return Execute;
    }

    method Complete(key: Key, result: string)
      modifies this
      ensures rows == Record(old(rows), key, Completed(result))
    {
      if key in rows { rows := rows[key := rows[key].(outcome := Completed(result))]; }
    }

    method Fail(key: Key, error: GatewayError)
      modifies this
      ensures rows == Record(old(rows), key, Failed(error))
    {
      if key in rows { rows := rows[key := rows[key].(outcome := Failed(error))]; }
    }
  }

  function ClaimAlone(t: Table, key: Key, digest: string, now: int, ttlSeconds: int): (Table, Answer) {
    var cleaned := DeleteExpired(t, now);
    var claimed := InsertOrIgnore(cleaned, key, digest, now + ttlSeconds);
    (claimed, Judge(claimed, key, digest, key !in cleaned))
  }

  // ---------- the interleaved machine ----------

  datatype Phase = Deleting | Inserting | Reading | Done(answer: Answer)

  /** One call of `claim`; `now` is read once, before its first statement, and `inserted` is the
      row count of its INSERT. */
  datatype Caller = Caller(key: Key, digest: string, now: int, ttlSeconds: int, phase: Phase, inserted: bool)

  datatype System = System(rows: Table, callers: seq<Caller>, deletions: multiset<Key>)

  datatype Step =
    | Call(key: Key, digest: string, now: int, ttlSeconds: int)
    | Advance(caller: nat)
    | RecordOutcome(key: Key, outcome: Outcome)
    | Cleanup(now: int)

  function Clean(s: System, now: int): System {
    s.(rows := DeleteExpired(s.rows, now), deletions := s.deletions + multiset(Expired(s.rows, now)))
  }

  /** The next statement of one caller. */
  function AdvanceCaller(s: System, c: nat): System
    requires c < |s.callers|
  {
    var it := s.callers[c];
    match it.phase
    case Deleting => Clean(s, it.now).(callers := s.callers[c := it.(phase := Inserting)])
    case Inserting =>
      s.(rows := InsertOrIgnore(s.rows, it.key, it.digest, it.now + it.ttlSeconds),
         callers := s.callers[c := it.(phase := Reading, inserted := it.key !in s.rows)])
    case Reading =>
      s.(callers := s.callers[c := it.(phase := Done(Judge(s.rows, it.key, it.digest, it.inserted)))])
    case Done(_) => s
  }

  function Apply(s: System, step: Step): System {
    match step
    case Call(key, digest, now, ttlSeconds) =>
      s.(callers := s.callers + [Caller(key, digest, now, ttlSeconds, Deleting, false)])
    case Advance(c) => if c < |s.callers| then AdvanceCaller(s, c) else s
    case RecordOutcome(key, outcome) =>
      if outcome.InProgress? then s else s.(rows := Record(s.rows, key, outcome))
    case Cleanup(now) => Clean(s, now)
  }

  const EMPTY := System(map[], [], multiset{})

  function Run(s: System, steps: seq<Step>): System
    decreases |steps|
  {
    if steps == [] then s else Run(Apply(s, steps[0]), steps[1..])
  }

  /** The calls for `key` whose INSERT took effect, and those told to execute. */
  ghost function Inserters(s: System, key: Key): set<nat> {
    set c: nat | c < |s.callers| && s.callers[c].key == key && s.callers[c].inserted
  }

  ghost function Granted(s: System, key: Key): set<nat> {
    set c: nat | c < |s.callers| && s.callers[c].key == key && s.callers[c].phase == Done(Execute)
  }

  ghost predicate Inv(s: System) {
    && (forall c :: 0 <= c < |s.callers| ==>
          && (s.callers[c].phase.Deleting? || s.callers[c].phase.Inserting? ==> !s.callers[c].inserted)
          && (s.callers[c].phase == Done(Execute) ==> s.callers[c].inserted))
    && (forall key :: key in s.rows ==> |Inserters(s, key)| == s.deletions[key] + 1)
    && (forall key :: key !in s.rows ==> |Inserters(s, key)| == s.deletions[key])
  }

  lemma CleanKeepsInv(s: System, now: int)
    requires Inv(s)
    ensures Inv(Clean(s, now))
  {
    var s' := Clean(s, now);
    var gone := Expired(s.rows, now);
    forall key ensures Inserters(s', key) == Inserters(s, key)
      && s'.deletions[key] == s.deletions[key] + if key in gone then 1 else 0 { }
  }

  lemma PhaseKeepsInserters(s: System, c: nat, phase: Phase)
    requires c < |s.callers|
    ensures forall key :: Inserters(s.(callers := s.callers[c := s.callers[c].(phase := phase)]), key)
                       == Inserters(s, key)
  {
    var s' := s.(callers := s.callers[c := s.callers[c].(phase := phase)]);
    forall key ensures Inserters(s', key) == Inserters(s, key) {
      assert forall d: nat :: d in Inserters(s', key) <==> d in Inserters(s, key);
    }
  }

  /** An INSERT that takes effect adds one inserter for its own key and none for another. */
  lemma InsertCount(s: System, c: nat, key: Key)
    requires Inv(s) && c < |s.callers| && s.callers[c].phase.Inserting?
    ensures var it := s.callers[c];
      |Inserters(AdvanceCaller(s, c), key)|
        == |Inserters(s, key)| + if key == it.key && it.key !in s.rows then 1 else 0
  {
    var s' := AdvanceCaller(s, c);
    var it := s.callers[c];
    assert c !in Inserters(s, key);
    assert forall d: nat :: d != c ==> (d in Inserters(s', key) <==> d in Inserters(s, key));
    if key == it.key && it.key !in s.rows {
      assert Inserters(s', key) == Inserters(s, key) + {c};
    } else {
      assert Inserters(s', key) == Inserters(s, key);
    }
  }

  lemma InsertKeepsInv(s: System, c: nat)
    requires Inv(s) && c < |s.callers| && s.callers[c].phase.Inserting?
    ensures Inv(AdvanceCaller(s, c))
  {
    hide Inserters;
    forall key { InsertCount(s, c, key); }
  }

  lemma AdvanceKeepsInv(s: System, c: nat)
    requires Inv(s) && c < |s.callers|
    ensures Inv(AdvanceCaller(s, c))
  {
    var it := s.callers[c];
    match it.phase
    case Deleting =>
      CleanKeepsInv(s, it.now);
      PhaseKeepsInserters(Clean(s, it.now), c, Inserting);
    case Inserting => InsertKeepsInv(s, c);
    case Reading => PhaseKeepsInserters(s, c, Done(Judge(s.rows, it.key, it.digest, it.inserted)));
    case Done(_) =>
  }

  lemma StepKeepsInv(s: System, step: Step)
    requires Inv(s)
    ensures Inv(Apply(s, step))
  {
    match step
    case Call(_, _, _, _) =>
      var s' := Apply(s, step);
      forall key ensures Inserters(s', key) == Inserters(s, key) {
        assert forall d: nat :: d in Inserters(s', key) <==> d in Inserters(s, key);
      }
    case Advance(c) => if c < |s.callers| { AdvanceKeepsInv(s, c); }
    case RecordOutcome(key, outcome) =>
      var s' := Apply(s, step);
      assert s'.callers == s.callers;
      forall k ensures Inserters(s', k) == Inserters(s, k) { }
    case Cleanup(now) => CleanKeepsInv(s, now);
  }

  lemma {:induction false} RunKeepsInv(s: System, steps: seq<Step>)
    requires Inv(s)
    ensures Inv(Run(s, steps))
    decreases |steps|
  {
    if steps != [] {
      StepKeepsInv(s, steps[0]);
      RunKeepsInv(Apply(s, steps[0]), steps[1..]);
    }
  }

  /** At-most-once execution over every interleaving: whoever is told to execute has inserted the
      record itself, and a key is granted at most once more than its record was deleted. */
  lemma AtMostOnce(steps: seq<Step>, key: Key)
    ensures var s := Run(EMPTY, steps);
      && Granted(s, key) <= Inserters(s, key)
      && |Granted(s, key)| <= s.deletions[key] + 1
  {
    assert Inserters(EMPTY, key) == {};
    forall k ensures Inserters(EMPTY, k) == {} { }
    RunKeepsInv(EMPTY, steps);
    var s := Run(EMPTY, steps);
    SubsetSize(Granted(s, key), Inserters(s, key));
  }

  lemma {:induction false} SubsetSize(a: set<nat>, b: set<nat>)
    requires a <= b
    ensures |a| <= |b|
  {
    if a != {} {
      var x :| x in a;
      SubsetSize(a - {x}, b - {x});
    }
  }

  // ---------- what is recorded stays recorded ----------

  /** The step does not touch the outcome of `key` and deletes nothing that is live at `until`. */
  predicate Quiet(s: System, step: Step, key: Key) {
    match step
    case RecordOutcome(k, _) => k != key
    case Cleanup(now) => key in s.rows ==> now <= s.rows[key].expiresAt
    case Advance(c) =>
      c < |s.callers| && s.callers[c].phase.Deleting? && key in s.rows ==> s.callers[c].now <= s.rows[key].expiresAt
    case Call(_, _, _, _) => true
  }

  predicate AllQuiet(s: System, steps: seq<Step>, key: Key)
    decreases |steps|
  {
    steps != [] ==> Quiet(s, steps[0], key) && AllQuiet(Apply(s, steps[0]), steps[1..], key)
  }

  lemma {:induction false} RowPersists(s: System, steps: seq<Step>, key: Key)
    requires key in s.rows && AllQuiet(s, steps, key)
    ensures key in Run(s, steps).rows && Run(s, steps).rows[key] == s.rows[key]
    decreases |steps|
  {
    if steps != [] {
      RowPersists(Apply(s, steps[0]), steps[1..], key);
    }
  }

  /** Replay.  After an outcome has been recorded, and until the record expires or another outcome
      replaces it, every claim that reads gets that outcome if its payload is the original one and
      CONFLICT otherwise, whatever other callers do meanwhile. */
  lemma ReplaysLatest(s: System, key: Key, outcome: Outcome, steps: seq<Step>, c: nat)
    requires key in s.rows && !outcome.InProgress?
    requires AllQuiet(Apply(s, RecordOutcome(key, outcome)), steps, key)
    requires var t := Run(Apply(s, RecordOutcome(key, outcome)), steps);
      c < |t.callers| && t.callers[c].key == key && t.callers[c].phase.Reading?
    ensures var t := Run(Apply(s, RecordOutcome(key, outcome)), steps);
      var answer := Apply(t, Advance(c)).callers[c].phase;
      answer == Done(if t.callers[c].digest != s.rows[key].digest then Conflict
                     else match outcome
                          case Completed(result) => Replay(result)
                          case Failed(error) => Raise(error)
                          case InProgress => Execute)
  {
    RowPersists(Apply(s, RecordOutcome(key, outcome)), steps, key);
  }

  // ---------- undisturbed calls ----------

  /** A claim that nobody interrupts is the machine's three steps in a row. */
  lemma AloneIsThreeSteps(s: System, key: Key, digest: string, now: int, ttlSeconds: int)
    ensures var c := |s.callers|;
      var t := Apply(Apply(Apply(Apply(s, Call(key, digest, now, ttlSeconds)), Advance(c)), Advance(c)), Advance(c));
      var (rows, answer) := ClaimAlone(s.rows, key, digest, now, ttlSeconds);
      t.rows == rows && |t.callers| == c + 1 && t.callers[c].phase == Done(answer)
  {
    var c := |s.callers|;
    var s1 := Apply(s, Call(key, digest, now, ttlSeconds));
    assert s1.callers[c].phase == Deleting;
    var s2 := Apply(s1, Advance(c));
    assert s2.callers[c].phase == Inserting && s2.rows == DeleteExpired(s.rows, now);
    var s3 := Apply(s2, Advance(c));
    assert s3.callers[c].phase == Reading && s3.callers[c].inserted == (key !in s2.rows);
  }

  /** A record counts up to and including the second in which it expires. */
  predicate Live(t: Table, key: Key, now: int) {
    key in t && now <= t[key].expiresAt
  }

  /** A cleanup leaves exactly the live records, as they are, and counts the others as deleted. */
  lemma CleanupExactly(s: System, now: int, key: Key)
    ensures var s' := Apply(s, Cleanup(now));
      && (key in s'.rows <==> Live(s.rows, key, now)) && (key in s'.rows ==> s'.rows[key] == s.rows[key])
      && s'.deletions[key] == s.deletions[key] + (if key in s.rows && !Live(s.rows, key, now) then 1 else 0)
      && s'.callers == s.callers
  {
  }

  /** An undisturbed claim, exactly.  It is told to execute if and only if no live record holds its
      key; a live one is answered for, by its payload and outcome, and kept.  Of the other records
      precisely the live ones stay, as they are. */
  lemma ClaimExactly(t: Table, key: Key, digest: string, now: int, ttlSeconds: int)
    ensures var (t', answer) := ClaimAlone(t, key, digest, now, ttlSeconds);
      && (answer == Execute <==> !Live(t, key, now))
      && (answer == Conflict <==> Live(t, key, now) && t[key].digest != digest)
      && (answer == RequestInProgress <==>
            Live(t, key, now) && t[key].digest == digest && t[key].outcome == InProgress)
      && (Live(t, key, now) && t[key].digest == digest ==>
            match t[key].outcome
            case InProgress => answer == RequestInProgress
            case Completed(result) => answer == Replay(result)
            case Failed(error) => answer == Raise(error))
      && key in t' && t'[key] == (if Live(t, key, now) then t[key] else Row(digest, InProgress, now + ttlSeconds))
      && forall k :: k != key ==> (k in t' <==> Live(t, k, now)) && (k in t' ==> t'[k] == t[k])
  {
  }

  /** A claim that is never finished blocks its key for exactly its lifetime: a later claim, with
      whatever payload, is told to execute if and only if more than `ttlSeconds` have passed. */
  lemma AbandonedExpires(t: Table, key: Key, digest: string, other: string, now: int, later: int, ttlSeconds: int,
                         otherTtl: int)
    requires ClaimAlone(t, key, digest, now, ttlSeconds).1 == Execute
    ensures var t' := ClaimAlone(t, key, digest, now, ttlSeconds).0;
      ClaimAlone(t', key, other, later, otherTtl).1 == Execute <==> later > now + ttlSeconds
  {
    ClaimExactly(t, key, digest, now, ttlSeconds);
    ClaimExactly(ClaimAlone(t, key, digest, now, ttlSeconds).0, key, other, later, otherTtl);
  }

  /** Claim, finish, claim again within the lifetime: the first executes, a repetition before the
      outcome is told to wait, one after it gets the outcome, and another payload conflicts. */
  lemma ClaimLifecycle(t: Table, key: Key, digest: string, other: string, now: int, later: int,
                       ttlSeconds: int, result: string)
    requires !Live(t, key, now) && later <= now + ttlSeconds && other != digest
    ensures var (t1, first) := ClaimAlone(t, key, digest, now, ttlSeconds);
      var t2 := Record(t1, key, Completed(result));
      && first == Execute
      && ClaimAlone(t1, key, digest, later, ttlSeconds).1 == RequestInProgress
      && ClaimAlone(t2, key, digest, later, ttlSeconds).1 == Replay(result)
      && ClaimAlone(t2, key, other, later, ttlSeconds).1 == Conflict
  {
  }
}
