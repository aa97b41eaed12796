/** Desktop polling: retry backoff and the last good snapshot.  Clock readings are in seconds. */
module GatewayClient {
  import opened Wrappers
  import opened Json
  import opened AuthorityShape

  const DELAYS: seq<int> := [4, 8, 16, 30, 60]
  const MAX_REPORTED_FAILURES: nat := 999

  // ---------- what counts as dashboard data ----------

  predicate Count(v: Value) { v.Num? && v.n >= 0 }

  predicate ObjectsOrNothing(v: Value) {
    v.Null? || (v.Arr? && forall i :: 0 <= i < |v.items| ==> v.items[i].Obj?)
  }

  predicate ObjectOrNothing(v: Value) { v.Null? || v.Obj? }

  /** `_valid_dashboard_data` */
  predicate ValidData(v: Value) {
    && v.Obj?
    && var summary := Prop(v, "summary");
       var targets := Prop(v, "targets");
       var activity := Prop(v, "activity");
    && summary.Obj?
    && Count(Prop(summary, "total")) && Count(Prop(summary, "online"))
    && Count(Prop(summary, "degraded")) && Count(Prop(summary, "offline"))
    && Prop(summary, "online").n + Prop(summary, "degraded").n + Prop(summary, "offline").n <= Prop(summary, "total").n
    && ObjectsOrNothing(targets) && ObjectsOrNothing(Prop(v, "widgets"))
    && ObjectsOrNothing(Prop(v, "errors")) && ObjectsOrNothing(Prop(v, "events"))
    && (targets.Arr? ==> forall i :: 0 <= i < |targets.items| ==>
          Prop(targets.items[i], "id").Str? && Prop(targets.items[i], "id").s != [])
    && ObjectOrNothing(activity)
    && (activity.Obj? ==> ObjectsOrNothing(Prop(activity, "hourly")) && ObjectsOrNothing(Prop(activity, "recent")))
    && ObjectOrNothing(Prop(v, "gateway")) && ObjectOrNothing(Prop(v, "fleet"))
  }

  /** Absent, or a list of objects only. */
  predicate IsListing(v: Value) {
    v == Null || (v.Arr? && forall item :: item in v.items ==> item.Obj?)
  }

  /** The page can render the data: counts that fit into the total, every section either absent or of
      its kind, and every target with an id. */
  predicate Renderable(v: Value) {
    && v.Obj? && Prop(v, "summary").Obj?
    && (forall name :: name in {"total", "online", "degraded", "offline"} ==>
          Prop(Prop(v, "summary"), name).Num? && Prop(Prop(v, "summary"), name).n >= 0)
    && Prop(Prop(v, "summary"), "total").n >=
         Prop(Prop(v, "summary"), "online").n + Prop(Prop(v, "summary"), "degraded").n
         + Prop(Prop(v, "summary"), "offline").n
    && (forall name :: name in {"targets", "widgets", "errors", "events"} ==> IsListing(Prop(v, name)))
    && (Prop(v, "targets").Arr? ==>
          forall target :: target in Prop(v, "targets").items ==>
            Prop(target, "id").Str? && Prop(target, "id") != Str([]))
    && (forall name :: name in {"activity", "gateway", "fleet"} ==> Prop(v, name) == Null || Prop(v, name).Obj?)
    && (forall name :: name in {"hourly", "recent"} ==> IsListing(Prop(Prop(v, "activity"), name)))
  }

  /** Valid data is exactly what can be rendered. */
  lemma ValidExactly(v: Value)
    ensures ValidData(v) <==> Renderable(v)
  {
    hide Prop;
    Listings(Prop(v, "targets"));
    Listings(Prop(v, "widgets"));
    Listings(Prop(v, "errors"));
    Listings(Prop(v, "events"));
    Listings(Prop(Prop(v, "activity"), "hourly"));
    Listings(Prop(Prop(v, "activity"), "recent"));
    NothingInside(Prop(v, "activity"));
    if Prop(v, "targets").Arr? {
      var items := Prop(v, "targets").items;
      assert forall i :: 0 <= i < |items| ==> items[i] in items;
    }
  }

  lemma Listings(v: Value)
    ensures ObjectsOrNothing(v) <==> IsListing(v)
  {
    if v.Arr? && IsListing(v) { assert forall i :: 0 <= i < |v.items| ==> v.items[i] in v.items; }
  }

  lemma NothingInside(v: Value)
    ensures !v.Obj? ==> forall name :: Prop(v, name) == Null
  {
  }

  datatype Status = Online | Degraded | Offline | Disconnected

  /** `derive_status` */
  function DeriveStatus(v: Value): Status {
    if !ValidData(v) then Disconnected
    else if Prop(Prop(v, "summary"), "offline").n != 0 then Offline
    else if Prop(Prop(v, "summary"), "degraded").n != 0 then Degraded
    else Online
  }

  // ---------- the cache file ----------

  /** The JSON in the cache file, if there is a readable one of acceptable size. */
  type Disk = Option<Value>

  const CACHE_KEYS: seq<string> := ["schemaVersion", "savedAt", "data"]

  /** `_load_last_good`; to Python `true` equals 1. */
  function LoadLastGood(disk: Disk): Option<Value> {
    if disk.None? || !disk.value.Obj? then None
    else if Prop(disk.value, "schemaVersion") != Num(1) && Prop(disk.value, "schemaVersion") != Bool(true) then None
    else if ValidData(Prop(disk.value, "data")) then Some(Prop(disk.value, "data"))
    else None
  }

  /** `_save_last_good`: `fits` is the size test, `written` the outcome of the write. */
  function SaveLastGood(disk: Disk, data: Value, savedAt: Text, fits: bool, written: bool): Disk {
    if fits && written then Some(Make(CACHE_KEYS, [Num(1), Str(savedAt), data])) else disk
  }

  /** Exactly what the next start takes from the file: valid data under schema version one. */
  lemma LoadExactly(disk: Disk, data: Value)
    ensures LoadLastGood(disk) == Some(data)
       <==> && disk.Some? && disk.value.Obj? && Prop(disk.value, "schemaVersion") in {Num(1), Bool(true)}
            && Prop(disk.value, "data") == data && ValidData(data)
  {
    hide Prop, ValidData;
  }

  /** What has been saved is what the next start loads. */
  lemma SavedIsLoaded(disk: Disk, data: Value, savedAt: Text)
    requires ValidData(data)
    ensures LoadLastGood(SaveLastGood(disk, data, savedAt, true, true)) == Some(data)
  {
    hide ValidData;
    var values := [Num(1), Str(savedAt), data];
    GoodNamesFromStrings(CACHE_KEYS);
    MakeProps(CACHE_KEYS, values);
    assert CACHE_KEYS[0] == "schemaVersion" && CACHE_KEYS[2] == "data";
    assert Prop(Make(CACHE_KEYS, values), CACHE_KEYS[0]) == Num(1);
    assert Prop(Make(CACHE_KEYS, values), CACHE_KEYS[2]) == data;
  }

  // ---------- one poll ----------

  datatype Snapshot = Snapshot(connected: bool, status: Status, data: Option<Value>, error: Option<string>,
                               consecutiveFailures: nat, stale: bool)

  /** The outcome of one request: a payload, or the name of the error. */
  datatype Response = Payload(v: Value) | RequestFailed(error: string)

  datatype Poll = Poll(
    forced: bool, checkedAt: int, failedAt: int, response: Response, fits: bool, written: bool, savedAt: Text)

  datatype State = State(failures: nat, lastGood: Option<Value>, lastError: Option<string>, nextAttemptAt: int,
                         lastSnapshot: Option<Snapshot>, disk: Disk)

  /** `_snapshot_for_failure` */
  function FailureSnapshot(s: State, error: string): Snapshot {
    if s.lastGood.Some? then Snapshot(true, Degraded, s.lastGood, Some(error), s.failures, true)
    else Snapshot(false, Disconnected, None, Some(error), s.failures, false)
  }

  function Least(a: nat, b: nat): nat { if a < b then a else b }

  /** `_failure` */
  function Fail(s: State, error: string, now: int): State {
    var failures := Least(s.failures + 1, MAX_REPORTED_FAILURES);
    var index := Least(failures - 1, |DELAYS| - 1);
    var s' := s.(failures := failures, lastError := Some(error), nextAttemptAt := now + DELAYS[index]);
    s'.(lastSnapshot := Some(FailureSnapshot(s', error)))
  }

  function Succeed(s: State, v: Value, poll: Poll): State {
    s.(failures := 0, lastError := None, nextAttemptAt := 0, lastGood := Some(v),
       lastSnapshot := Some(Snapshot(true, DeriveStatus(v), Some(v), None, 0, false)),
       disk := SaveLastGood(s.disk, v, poll.savedAt, poll.fits, poll.written))
  }

  predicate Attempts(s: State, poll: Poll) {
    poll.forced || poll.checkedAt >= s.nextAttemptAt
  }

  /** `_fetch_once` */
  function FetchOnce(s: State, poll: Poll): State {
    if !Attempts(s, poll) then
      s.(lastSnapshot := Some(FailureSnapshot(s, if s.lastError.Some? then s.lastError.value else "RetryBackoff")))
    else match poll.response
      case RequestFailed(error) => Fail(s, error, poll.failedAt)
      case Payload(v) => if ValidData(v) then Succeed(s, v, poll) else Fail(s, "InvalidPayload", poll.failedAt)
  }

  class Client {
    var failures: nat
    var lastGood: Option<Value>
    var lastError: Option<string>
    var nextAttemptAt: int
    var lastSnapshot: Option<Snapshot>
    var disk: Disk

    ghost function Now(): State
      reads this
    {
      State(failures, lastGood, lastError, nextAttemptAt, lastSnapshot, disk)
    }

    constructor (disk: Disk)
      ensures Now() == Start(disk)
    {
      failures, lastError, nextAttemptAt, lastSnapshot := 0, None, 0, None;
      lastGood := LoadLastGood(disk);
      this.disk := disk;
    }

    method Failure(error: string, now: int)
      modifies this
      ensures Now() == Fail(old(Now()), error, now)
    {
      failures := Least(failures + 1, MAX_REPORTED_FAILURES);
      lastError := Some(error);
      nextAttemptAt := now + DELAYS[Least(failures - 1, |DELAYS| - 1)];
      lastSnapshot := Some(
        if lastGood.Some? then Snapshot(true, Degraded, lastGood, Some(error), failures, true)
        else Snapshot(false, Disconnected, None, Some(error), failures, false));
    }

    method Fetch(poll: Poll) returns (snapshot: Snapshot)
      modifies this
      ensures Now() == FetchOnce(old(Now()), poll)
      ensures Now().lastSnapshot == Some(snapshot)
    {
      hide ValidData;
      if !poll.forced && poll.checkedAt < nextAttemptAt {
        var error := if lastError.Some? then lastError.value else "RetryBackoff";
        snapshot := if lastGood.Some? then Snapshot(true, Degraded, lastGood, Some(error), failures, true)
                    else Snapshot(false, Disconnected, None, Some(error), failures, false);
        lastSnapshot := Some(snapshot);
        return;
      }
      match poll.response {
        case RequestFailed(error) => Failure(error, poll.failedAt);
        case Payload(v) =>
          if ValidData(v) {
            failures, lastError, nextAttemptAt, lastGood := 0, None, 0, Some(v);
            disk := SaveLastGood(disk, v, poll.savedAt, poll.fits, poll.written);
            lastSnapshot := Some(Snapshot(true, DeriveStatus(v), Some(v), None, 0, false));
          } else {
            Failure("InvalidPayload", poll.failedAt);
          }
      }
      snapshot := lastSnapshot.value;
    }
  }

  function Start(disk: Disk): State {
    State(0, LoadLastGood(disk), None, 0, None, disk)
  }

  function Run(s: State, polls: seq<Poll>): State
    decreases |polls|
  {
    if polls == [] then s else Run(FetchOnce(s, polls[0]), polls[1..])
  }

  // ---------- only valid data is ever shown or kept ----------

  ghost predicate Honest(s: State) {
    && (s.lastGood.Some? ==> ValidData(s.lastGood.value))
    && (s.lastSnapshot.Some? && s.lastSnapshot.value.connected ==>
          s.lastSnapshot.value.data.Some? && ValidData(s.lastSnapshot.value.data.value))
    && (s.lastSnapshot.Some? && !s.lastSnapshot.value.connected ==> s.lastSnapshot.value.data.None?)
    && (LoadLastGood(s.disk).Some? ==> ValidData(LoadLastGood(s.disk).value))
  }

  /** Last-good integrity over every run, whatever the cache file held and the server answered. */
  lemma {:induction false} RunStaysHonest(s: State, polls: seq<Poll>)
    requires Honest(s)
    ensures Honest(Run(s, polls))
    decreases |polls|
  {
    hide ValidData, DeriveStatus;
    if polls != [] { RunStaysHonest(FetchOnce(s, polls[0]), polls[1..]); }
  }

  lemma StartIsHonest(disk: Disk)
    ensures Honest(Start(disk))
  {
  }

  // ---------- what each poll shows ----------

  /** What there is to remember of the polls so far: the last valid payload, or the one the cache file
      held at the start; the payload the next start will find; the failures in a row, and when the
      last of them was noticed and for what reason. */
  datatype Memory = Memory(good: Option<Value>, cached: Option<Value>, streak: nat, failedAt: int,
                           error: Option<string>)

  function Delay(streak: nat): int {
    if streak == 1 then 4 else if streak == 2 then 8 else if streak == 3 then 16 else if streak == 4 then 30 else 60
  }

  /** The poll asks the server: it is forced, nothing has failed since the last success, or the delay
      is over. */
  predicate Asks(m: Memory, poll: Poll) {
    poll.forced || poll.checkedAt >= if m.streak == 0 then 0 else m.failedAt + Delay(m.streak)
  }

  function Remember(m: Memory, poll: Poll): Memory {
    if !Asks(m, poll) then m
    else match poll.response
      case RequestFailed(error) => Memory(m.good, m.cached, m.streak + 1, poll.failedAt, Some(error))
      case Payload(v) =>
        if ValidData(v) then Memory(Some(v), if poll.fits && poll.written then Some(v) else m.cached, 0, 0, None)
        else Memory(m.good, m.cached, m.streak + 1, poll.failedAt, Some("InvalidPayload"))
  }

  function RememberAll(m: Memory, polls: seq<Poll>): Memory
    decreases |polls|
  {
    if polls == [] then m else RememberAll(Remember(m, polls[0]), polls[1..])
  }

  ghost predicate Remembers(s: State, m: Memory) {
    && s.lastGood == m.good && LoadLastGood(s.disk) == m.cached
    && s.failures == (if m.streak < 999 then m.streak else 999)
    && s.nextAttemptAt == (if m.streak == 0 then 0 else m.failedAt + Delay(m.streak))
    && s.lastError == m.error && (m.streak > 0 ==> m.error.Some?)
  }

  lemma PollRemembers(s: State, m: Memory, poll: Poll)
    requires Remembers(s, m)
    ensures Remembers(FetchOnce(s, poll), Remember(m, poll))
  {
    hide ValidData, LoadLastGood, SaveLastGood;
    if poll.response.Payload? && ValidData(poll.response.v) {
      SavedIsLoaded(s.disk, poll.response.v, poll.savedAt);
      NotSaved(s.disk, poll.response.v, poll.savedAt, poll.fits, poll.written);
    }
  }

  lemma NotSaved(disk: Disk, data: Value, savedAt: Text, fits: bool, written: bool)
    ensures SaveLastGood(disk, data, savedAt, fits, written)
         == if fits && written then SaveLastGood(disk, data, savedAt, true, true) else disk
  {
  }

  /** The client refines that memory over every run. */
  lemma {:induction false} RunRemembers(s: State, m: Memory, polls: seq<Poll>)
    requires Remembers(s, m)
    ensures Remembers(Run(s, polls), RememberAll(m, polls))
    decreases |polls|
  {
    hide FetchOnce, Remember, Remembers;
    if polls != [] {
      PollRemembers(s, m, polls[0]);
      RunRemembers(FetchOnce(s, polls[0]), Remember(m, polls[0]), polls[1..]);
    }
  }

  /** What a poll shows after any run from any cache file.  A valid answer is shown as it is, with the
      status its counts call for.  Anything else shows the last valid data, as degraded and stale and
      with the reason, or nothing at all if there has never been any. */
  lemma ShownExactly(disk: Disk, polls: seq<Poll>, poll: Poll)
    ensures var m := RememberAll(Memory(LoadLastGood(disk), LoadLastGood(disk), 0, 0, None), polls);
      var shown := FetchOnce(Run(Start(disk), polls), poll).lastSnapshot;
      var valid := Asks(m, poll) && poll.response.Payload? && ValidData(poll.response.v);
      var failures := Remember(m, poll).streak;
      shown.Some?
      && (valid ==> shown == Some(Snapshot(true, DeriveStatus(poll.response.v), Some(poll.response.v), None, 0, false)))
      && (!valid ==>
            && shown.value.data == m.good
            && shown.value.stale == shown.value.connected == m.good.Some?
            && shown.value.status == (if m.good.Some? then Degraded else Disconnected)
            && shown.value.consecutiveFailures == (if failures < 999 then failures else 999)
            && shown.value.error == if Asks(m, poll) || m.error.Some? then Remember(m, poll).error
                                    else Some("RetryBackoff"))
  {
    hide ValidData, DeriveStatus, LoadLastGood, SaveLastGood;
    var start := Memory(LoadLastGood(disk), LoadLastGood(disk), 0, 0, None);
    RunRemembers(Start(disk), start, polls);
    PollRemembers(Run(Start(disk), polls), RememberAll(start, polls), poll);
  }

  const SUMMARY_KEYS: seq<string> := ["total", "online", "degraded", "offline"]

  /** A dashboard that reports nothing but its counts. */
  function Counts(total: int, online: int, degraded: int, offline: int): Value {
    Make(["summary"], [Make(SUMMARY_KEYS, [Num(total), Num(online), Num(degraded), Num(offline)])])
  }

  lemma CountsProps(total: int, online: int, degraded: int, offline: int)
    ensures var v := Counts(total, online, degraded, offline);
      var summary := Prop(v, "summary");
      && summary.Obj?
      && Prop(summary, "total") == Num(total) && Prop(summary, "online") == Num(online)
      && Prop(summary, "degraded") == Num(degraded) && Prop(summary, "offline") == Num(offline)
    ensures forall name :: IsAscii(name) && name != "summary" ==>
      Prop(Counts(total, online, degraded, offline), name) == Null
  {
    hide Prop, Make;
    var values := [Num(total), Num(online), Num(degraded), Num(offline)];
    var summary := Make(SUMMARY_KEYS, values);
    GoodNamesFromStrings(SUMMARY_KEYS);
    MakeProps(SUMMARY_KEYS, values);
    GoodNamesFromStrings(["summary"]);
    MakeProps(["summary"], [summary]);
    assert SUMMARY_KEYS[0] == "total" && SUMMARY_KEYS[1] == "online" && SUMMARY_KEYS[2] == "degraded"
        && SUMMARY_KEYS[3] == "offline";
    assert Prop(summary, SUMMARY_KEYS[0]) == Num(total) && Prop(summary, SUMMARY_KEYS[1]) == Num(online)
        && Prop(summary, SUMMARY_KEYS[2]) == Num(degraded) && Prop(summary, SUMMARY_KEYS[3]) == Num(offline);
    assert Prop(Make(["summary"], [summary]), ["summary"][0]) == [summary][0];
    forall name | IsAscii(name) && name != "summary" ensures Prop(Make(["summary"], [summary]), name) == Null {
      OtherProp(summary, name);
    }
  }

  lemma OtherProp(summary: Value, name: string)
    requires IsAscii(name) && name != "summary"
    ensures Prop(Make(["summary"], [summary]), name) == Null
  {
    if Ascii(name) == Ascii("summary") { AsciiInjective(name, "summary"); }
  }

  /** Such a dashboard is valid if and only if its counts are, and its status is the worst there is. */
  lemma CountsExactly(total: int, online: int, degraded: int, offline: int)
    ensures var v := Counts(total, online, degraded, offline);
      && (ValidData(v) <==> total >= 0 && online >= 0 && degraded >= 0 && offline >= 0
                            && online + degraded + offline <= total)
      && (ValidData(v) ==>
            DeriveStatus(v) == if offline > 0 then Offline else if degraded > 0 then Degraded else Online)
  {
    hide Prop, Counts;
    CountsProps(total, online, degraded, offline);
    assert Counts(total, online, degraded, offline).Obj? by { CountsObject(total, online, degraded, offline); }
  }

  lemma CountsObject(total: int, online: int, degraded: int, offline: int)
    ensures Counts(total, online, degraded, offline).Obj?
  {
  }

  // ---------- backoff ----------

  /** The polls that made an attempt, in order, as the times at which their attempt began. */
  function AttemptTimes(s: State, polls: seq<Poll>): seq<int>
    decreases |polls|
  {
    if polls == [] then []
    else (if Attempts(s, polls[0]) then [polls[0].checkedAt] else []) + AttemptTimes(FetchOnce(s, polls[0]), polls[1..])
  }

  predicate Fails(poll: Poll) {
    !poll.forced && (poll.response.RequestFailed? || !ValidData(poll.response.v))
  }

  /** The clock never goes back within a poll or from one to the next. */
  ghost predicate Monotone(polls: seq<Poll>) {
    && (forall i :: 0 <= i < |polls| ==> polls[i].checkedAt <= polls[i].failedAt)
    && forall i, j :: 0 <= i < j < |polls| ==> polls[i].failedAt <= polls[j].checkedAt
  }

  /** The least time from the attempt after `failures` failures to the n-th attempt after it. */
  function Wait(failures: nat, n: nat): int
    decreases n
  {
    if n == 0 then 0 else DELAYS[Least(failures, |DELAYS| - 1)] + Wait(failures + 1, n - 1)
  }

  lemma {:induction false} WaitTail(failures: nat, n: nat)
    requires failures >= 4
    ensures Wait(failures, n) == 60 * n
    decreases n
  {
    if n > 0 { WaitTail(failures + 1, n - 1); }
  }

  lemma WaitFromStart(n: nat)
    requires n >= 4
    ensures Wait(0, n) == 58 + 60 * (n - 4)
  {
    WaitTail(4, n - 4);
    assert Wait(3, n - 3) == 30 + Wait(4, n - 4);
    assert Wait(2, n - 2) == 16 + Wait(3, n - 3);
    assert Wait(1, n - 1) == 8 + Wait(2, n - 2);
  }

  /** After `since` failures that the state remembers (its counter stops at 999), the k-th further
      attempt is at least Wait later than the last one. */
  lemma {:induction false} AttemptsSpread(s: State, polls: seq<Poll>, since: nat, last: int, k: nat)
    requires Monotone(polls) && forall i :: 0 <= i < |polls| ==> Fails(polls[i])
    requires since >= 1 && s.failures == Least(since, MAX_REPORTED_FAILURES)
    requires s.nextAttemptAt >= last + DELAYS[Least(since - 1, |DELAYS| - 1)]
    requires k < |AttemptTimes(s, polls)|
    ensures AttemptTimes(s, polls)[k] >= last + Wait(since - 1, k + 1)
    decreases |polls|
  {
    hide ValidData;
    var poll := polls[0];
    var s', rest := FetchOnce(s, poll), polls[1..];
    assert Fails(poll);
    if Attempts(s, poll) {
      assert s'.failures == Least(since + 1, MAX_REPORTED_FAILURES);
      if k > 0 {
        AttemptsSpread(s', rest, since + 1, poll.checkedAt, k - 1);
      } else {
        assert Wait(since, 0) == 0;
      }
    } else {
      AttemptsSpread(s', rest, since, last, k);
    }
  }

  lemma {:induction false} FirstAttempt(s: State, polls: seq<Poll>, k: nat)
    requires Monotone(polls) && forall i :: 0 <= i < |polls| ==> Fails(polls[i])
    requires s.failures == 0 && k < |AttemptTimes(s, polls)|
    ensures AttemptTimes(s, polls)[k] >= AttemptTimes(s, polls)[0] + Wait(0, k)
    decreases |polls|
  {
    hide ValidData;
    var poll := polls[0];
    var s', rest := FetchOnce(s, poll), polls[1..];
    assert Fails(poll);
    if Attempts(s, poll) {
      if k > 0 { AttemptsSpread(s', rest, 1, poll.checkedAt, k - 1); }
    } else {
      FirstAttempt(s', rest, k);
    }
  }

  /** Backoff bound: while every poll fails and none is forced, the first n >= 5 attempts span at
      least 58 + 60 (n - 5) seconds, however often the page polls. */
  lemma BackoffBound(disk: Disk, polls: seq<Poll>, n: nat)
    requires Monotone(polls) && forall i :: 0 <= i < |polls| ==> Fails(polls[i])
    requires 5 <= n <= |AttemptTimes(Start(disk), polls)|
    ensures var times := AttemptTimes(Start(disk), polls);
      times[n - 1] - times[0] >= 58 + 60 * (n - 5)
  {
    FirstAttempt(Start(disk), polls, n - 1);
    WaitFromStart(n - 1);
  }
}
