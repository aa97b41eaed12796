/** One run of the PC-side sync agent for a project, and what the dashboard later reads from it. */
module SyncStatus {
  import opened Wrappers

  type Tool = string

  datatype Item = Item(success: bool, lastAttemptAt: int, lastSuccessfulPushAt: Option<int>, reason: Option<string>)

  datatype Result = Success | Partial | Failed | NoChanges

  datatype Observation = Observation(
    result: Result, lastAttemptAt: int, pushedItems: nat, skippedItems: nat, totalItems: nat,
    items: map<Tool, Item>, lastSuccessfulPushAt: Option<int>, lastCompletePushAt: Option<int>,
    reason: Option<string>)

  /** What the outside world did during one run: the local server, each tool call in turn, and
      the cloud, which may or may not report a time of its own. */
  datatype CloudAnswer = PushFailed | PushAccepted(syncedAt: Option<int>)

  datatype World = World(attemptedAt: int, connected: bool, answered: seq<bool>, cloud: CloudAnswer)

  // ---------- building observations ----------

  function PriorItem(prior: Option<Observation>, tool: Tool): Option<int> {
    if prior.Some? && tool in prior.value.items then prior.value.items[tool].lastSuccessfulPushAt else None
  }

  function OrElse(a: Option<int>, b: Option<int>): Option<int> {
    if a.Some? then a else b
  }

  /** `_item_observation`: a run without a push keeps the time of the last push. */
  function ItemObservation(prior: Option<Observation>, tool: Tool, success: bool, attemptedAt: int,
                           successfulAt: Option<int>, reason: Option<string>): Item {
    Item(success, attemptedAt, OrElse(successfulAt, PriorItem(prior, tool)), reason)
  }

  /** `_project_observation` */
  function ProjectObservation(prior: Option<Observation>, result: Result, attemptedAt: int, pushed: nat, skipped: nat,
                              total: nat, items: map<Tool, Item>, successfulAt: Option<int>, completeAt: Option<int>,
                              reason: Option<string>): Observation {
    Observation(result, attemptedAt, pushed, skipped, total, items,
      OrElse(successfulAt, if prior.Some? then prior.value.lastSuccessfulPushAt else None),
      OrElse(completeAt, if prior.Some? then prior.value.lastCompletePushAt else None), reason)
  }

  /** No tool was pushed: every item is marked failed with its reason. */
  function AllFailed(prior: Option<Observation>, tools: seq<Tool>, attemptedAt: int, unavailable: set<Tool>,
                     otherwise: string, overall: string): Observation {
    ProjectObservation(prior, Failed, attemptedAt, 0, |tools|, |tools|,
      map tool | tool in tools :: ItemObservation(prior, tool, false, attemptedAt, None,
        Some(if tool in unavailable then "local_data_unavailable" else otherwise)),
      None, None, Some(overall))
  }

  function Pushed(prior: Option<Observation>, tools: seq<Tool>, attemptedAt: int, syncedAt: int,
                  snapshots: set<Tool>, skipped: set<Tool>): Observation {
    ProjectObservation(prior, if skipped != {} then Partial else Success, attemptedAt, |snapshots|, |skipped|, |tools|,
      map tool | tool in tools :: ItemObservation(prior, tool, tool !in skipped, attemptedAt,
        if tool in skipped then None else Some(syncedAt),
        if tool in skipped then Some("local_data_unavailable") else None),
      Some(syncedAt), if skipped == {} then Some(syncedAt) else None,
      if skipped != {} then Some("local_items_unavailable") else None)
  }

  function Answered(tools: seq<Tool>, w: World, ok: bool): set<Tool> {
    set i | 0 <= i < |tools| && i < |w.answered| && w.answered[i] == ok :: tools[i]
  }

  function SyncTime(w: World): int
    requires w.cloud.PushAccepted?
  {
    if w.cloud.syncedAt.Some? then w.cloud.syncedAt.value else w.attemptedAt
  }

  /** `sync_project` */
  function Observe(tools: seq<Tool>, prior: Option<Observation>, w: World): Observation {
    var snapshots, skipped := Answered(tools, w, true), Answered(tools, w, false);
    if !w.connected then
      AllFailed(prior, tools, w.attemptedAt, {}, "local_mcp_unreachable", "local_mcp_unreachable")
    else if snapshots == {} then
      AllFailed(prior, tools, w.attemptedAt, {}, "local_data_unavailable", "local_data_unavailable")
    else if w.cloud.PushFailed? then
      AllFailed(prior, tools, w.attemptedAt, skipped, "cloud_push_failed", "cloud_push_failed")
    else Pushed(prior, tools, w.attemptedAt, SyncTime(w), snapshots, skipped)
  }

  /** The agent itself: it asks the tools one after the other, collects what answered, and pushes
      that. */
  method SyncProject(tools: seq<Tool>, prior: Option<Observation>, w: World) returns (o: Observation)
    requires |w.answered| == |tools|
    ensures o == Observe(tools, prior, w)
  {
    if !w.connected {
      return AllFailed(prior, tools, w.attemptedAt, {}, "local_mcp_unreachable", "local_mcp_unreachable");
    }
    var snapshots: set<Tool> := {};
    var skipped: set<Tool> := {};
    for i := 0 to |tools|
      invariant snapshots == set j | 0 <= j < i && w.answered[j] :: tools[j]
      invariant skipped == set j | 0 <= j < i && !w.answered[j] :: tools[j]
    {
      if w.answered[i] {
        snapshots := snapshots + {tools[i]};
      } else {
        skipped := skipped + {tools[i]};
      }
    }
    assert snapshots == Answered(tools, w, true) && skipped == Answered(tools, w, false);
    if snapshots == {} {
      return AllFailed(prior, tools, w.attemptedAt, {}, "local_data_unavailable", "local_data_unavailable");
    }
    if w.cloud.PushFailed? {
      return AllFailed(prior, tools, w.attemptedAt, skipped, "cloud_push_failed", "cloud_push_failed");
    }
    o := Pushed(prior, tools, w.attemptedAt, SyncTime(w), snapshots, skipped);
  }

  // ---------- the counts ----------

  ghost predicate Distinct(tools: seq<Tool>) {
    forall i, j :: 0 <= i < j < |tools| ==> tools[i] != tools[j]
  }

  lemma AnsweredStep(tools: seq<Tool>, w: World, ok: bool)
    requires tools != [] && |w.answered| == |tools|
    ensures var n := |tools| - 1;
      Answered(tools, w, ok) == Answered(tools[..n], w.(answered := w.answered[..n]), ok)
                                + if w.answered[n] == ok then {tools[n]} else {}
  {
    var n := |tools| - 1;
    var tools', w' := tools[..n], w.(answered := w.answered[..n]);
    forall t ensures t in Answered(tools, w, ok)
                <==> t in Answered(tools', w', ok) || (w.answered[n] == ok && t == tools[n])
    {
      if t in Answered(tools, w, ok) {
        var i :| 0 <= i < |tools| && w.answered[i] == ok && tools[i] == t;
        assert i < n ==> tools'[i] == t && w'.answered[i] == ok;
      }
      if t in Answered(tools', w', ok) {
        var i :| 0 <= i < |tools'| && w'.answered[i] == ok && tools'[i] == t;
        assert tools[i] == t && w.answered[i] == ok;
      }
    }
  }

  lemma AnsweredWithin(tools: seq<Tool>, w: World, ok: bool)
    ensures forall t :: t in Answered(tools, w, ok) ==> t in tools
    ensures tools == [] ==> Answered(tools, w, ok) == {}
  {
  }

  lemma AddSize(a: set<Tool>, b: set<Tool>, t: Tool)
    requires a !! b && t !in a && t !in b
    ensures a + {t} !! b && |a + {t}| + |b| == |a| + |b| + 1
  {
  }

  lemma {:induction false} AnsweredSizes(tools: seq<Tool>, w: World)
    requires Distinct(tools) && |w.answered| == |tools|
    ensures Answered(tools, w, true) !! Answered(tools, w, false)
    ensures |Answered(tools, w, true)| + |Answered(tools, w, false)| == |tools|
  {
    hide Answered;
    AnsweredWithin(tools, w, true);
    AnsweredWithin(tools, w, false);
    if tools != [] {
      var n := |tools| - 1;
      var front, w', ok := tools[..n], w.(answered := w.answered[..n]), w.answered[n];
      AnsweredSizes(front, w');
      AnsweredStep(tools, w, ok);
      AnsweredStep(tools, w, !ok);
      AnsweredWithin(front, w', ok);
      AnsweredWithin(front, w', !ok);
      assert tools[n] !in front;
      AddSize(Answered(front, w', ok), Answered(front, w', !ok), tools[n]);
    }
  }

  /** The counts add up in every outcome exactly when no tool is configured twice. */
  lemma CountsAddUp(tools: seq<Tool>, prior: Option<Observation>)
    ensures Distinct(tools) <==>
      forall w: World :: |w.answered| == |tools| ==>
        var o := Observe(tools, prior, w); o.pushedItems + o.skippedItems == o.totalItems == |tools|
  {
    if Distinct(tools) {
      forall w: World | |w.answered| == |tools|
        ensures var o := Observe(tools, prior, w); o.pushedItems + o.skippedItems == o.totalItems == |tools|
      {
        AnsweredSizes(tools, w);
      }
    } else {
      var w := World(0, true, seq(|tools|, i => true), PushAccepted(None));
      var asSet := set i | 0 <= i < |tools| :: tools[i];
      assert Answered(tools, w, true) == asSet && Answered(tools, w, false) == {};
      RepeatedIsSmaller(tools);
      assert tools[0] in asSet;
      var o := Observe(tools, prior, w);
      assert |w.answered| == |tools| && o.pushedItems == |asSet| && o.skippedItems == 0;
    }
  }

  lemma {:induction false} SetOfSize(tools: seq<Tool>)
    ensures |set i | 0 <= i < |tools| :: tools[i]| <= |tools|
  {
    if tools != [] {
      var front := tools[..|tools| - 1];
      SetOfSize(front);
      assert (set i | 0 <= i < |tools| :: tools[i]) == (set i | 0 <= i < |front| :: front[i]) + {tools[|tools| - 1]};
    }
  }

  lemma {:induction false} RepeatedIsSmaller(tools: seq<Tool>)
    requires !Distinct(tools)
    ensures tools != [] && |set i | 0 <= i < |tools| :: tools[i]| < |tools|
  {
    var i, j :| 0 <= i < j < |tools| && tools[i] == tools[j];
    var rest := tools[..j] + tools[j + 1..];
    SetOfSize(rest);
    var all := set k | 0 <= k < |tools| :: tools[k];
    var less := set k | 0 <= k < |rest| :: rest[k];
    forall t | t in all ensures t in less {
      var k :| 0 <= k < |tools| && tools[k] == t;
      if k < j { assert rest[k] == t; } else if k > j { assert rest[k - 1] == t; } else { assert rest[i] == t; }
    }
    assert all <= less;
    assert less <= all by {
      forall t | t in less ensures t in all {
        var k :| 0 <= k < |rest| && rest[k] == t;
        assert tools[if k < j then k else k + 1] == t;
      }
    }
    assert all == less;
  }

  // ---------- what one observation says ----------

  /** Some call of the tool, or of any tool, got this answer. */
  ghost predicate Gave(tools: seq<Tool>, w: World, tool: Tool, ok: bool) {
    exists i :: 0 <= i < |tools| && i < |w.answered| && tools[i] == tool && w.answered[i] == ok
  }

  ghost predicate SomeGave(w: World, ok: bool) {
    exists i :: 0 <= i < |w.answered| && w.answered[i] == ok
  }

  /** Something was pushed and the cloud took it. */
  ghost predicate PushedThrough(w: World) {
    w.connected && SomeGave(w, true) && w.cloud.PushAccepted?
  }

  /** The observation as a whole, from the answers of the tools and of the cloud. */
  ghost predicate Reports(o: Observation, prior: Option<Observation>, w: World) {
    var at := if w.cloud.PushAccepted? && w.cloud.syncedAt.Some? then w.cloud.syncedAt.value else w.attemptedAt;
    && o.lastAttemptAt == w.attemptedAt
    && (o.result == Failed <==> !PushedThrough(w))
    && (o.result == Partial <==> PushedThrough(w) && SomeGave(w, false))
    && (o.result == Success <==> PushedThrough(w) && !SomeGave(w, false))
    && (PushedThrough(w) ==> o.lastSuccessfulPushAt == Some(at))
    && (o.result == Success ==> o.lastCompletePushAt == Some(at) && o.reason == None)
    && (o.result == Partial ==> o.reason == Some("local_items_unavailable"))
    && (!PushedThrough(w) ==>
          && o.lastSuccessfulPushAt == (if prior.Some? then prior.value.lastSuccessfulPushAt else None)
          && o.reason == Some(if !w.connected then "local_mcp_unreachable"
                              else if !SomeGave(w, true) then "local_data_unavailable" else "cloud_push_failed"))
    && (o.result != Success ==>
          o.lastCompletePushAt == if prior.Some? then prior.value.lastCompletePushAt else None)
  }

  /** Its item for one tool. */
  ghost predicate ReportsItem(o: Observation, tools: seq<Tool>, w: World, tool: Tool)
    requires tool in o.items
  {
    var item := o.items[tool];
    && item.lastAttemptAt == w.attemptedAt
    && (item.success <==> PushedThrough(w) && !Gave(tools, w, tool, false))
    && item.reason == (if item.success then None
                       else Some(if !w.connected then "local_mcp_unreachable"
                                 else if !SomeGave(w, true) || Gave(tools, w, tool, false) then "local_data_unavailable"
                                 else "cloud_push_failed"))
  }

  lemma ObservationMeaning(tools: seq<Tool>, prior: Option<Observation>, w: World)
    requires |w.answered| == |tools|
    ensures var o := Observe(tools, prior, w);
      && Reports(o, prior, w)
      && o.items.Keys == (set tool | tool in tools)
      && (forall tool :: tool in tools ==> ReportsItem(o, tools, w, tool))
      && (!PushedThrough(w) ==> o.pushedItems == 0 && o.skippedItems == |tools|)
      && (PushedThrough(w) ==>
            o.pushedItems == |Answered(tools, w, true)| && o.skippedItems == |Answered(tools, w, false)|)
  {
    SomeAnswered(tools, w, true);
    SomeAnswered(tools, w, false);
    forall tool, ok ensures tool in Answered(tools, w, ok) <==> Gave(tools, w, tool, ok) { }
    hide Answered, Gave, SomeGave;
  }

  lemma SomeAnswered(tools: seq<Tool>, w: World, ok: bool)
    requires |w.answered| == |tools|
    ensures Answered(tools, w, ok) == {} <==> !SomeGave(w, ok)
  {
    if i :| 0 <= i < |w.answered| && w.answered[i] == ok { assert tools[i] in Answered(tools, w, ok); }
  }

  // ---------- many runs ----------

  /** Did this run really push the tool, and when does it say so? */
  function PushOf(tools: seq<Tool>, w: World, tool: Tool): Option<int> {
    if w.connected && w.cloud.PushAccepted? && tool in Answered(tools, w, true) then Some(SyncTime(w)) else None
  }

  /** The time of the last run that really pushed the tool. */
  function LastPush(tools: seq<Tool>, runs: seq<World>, tool: Tool): Option<int> {
    if runs == [] then None
    else OrElse(PushOf(tools, runs[|runs| - 1], tool), LastPush(tools, runs[..|runs| - 1], tool))
  }

  /** The status after a sequence of runs that starts without any. */
  function After(tools: seq<Tool>, runs: seq<World>): Option<Observation> {
    if runs == [] then None
    else Some(Observe(tools, After(tools, runs[..|runs| - 1]), runs[|runs| - 1]))
  }

  ghost predicate Complete(tools: seq<Tool>, runs: seq<World>) {
    forall r :: 0 <= r < |runs| ==> |runs[r].answered| == |tools|
  }

  /** Honest bookkeeping: after any sequence of runs, unreachable, partial, refused by the cloud or
      successful, each item carries the time of the last run that really pushed its tool. */
  lemma {:induction false} ItemsAreHonest(tools: seq<Tool>, runs: seq<World>)
    requires Distinct(tools) && Complete(tools, runs) && runs != []
    ensures var o := After(tools, runs).value;
      && (forall tool :: tool in o.items <==> tool in tools)
      && o.totalItems == |tools|
      && forall tool :: tool in tools ==> o.items[tool].lastSuccessfulPushAt == LastPush(tools, runs, tool)
  {
    hide Observe, PushOf;
    var before, w := runs[..|runs| - 1], runs[|runs| - 1];
    ObservedItems(tools, After(tools, before), w);
    if before != [] { ItemsAreHonest(tools, before); }
  }

  /** The time of the last run in which every tool answered and the cloud took everything. */
  ghost function LastComplete(runs: seq<World>): Option<int> {
    if runs == [] then None
    else
      var w := runs[|runs| - 1];
      if PushedThrough(w) && !SomeGave(w, false)
      then Some(if w.cloud.syncedAt.Some? then w.cloud.syncedAt.value else w.attemptedAt)
      else LastComplete(runs[..|runs| - 1])
  }

  /** After any sequence of runs the completion time is that of the last complete push. */
  lemma {:induction false} CompletionIsHonest(tools: seq<Tool>, runs: seq<World>)
    requires Complete(tools, runs) && runs != []
    ensures After(tools, runs).value.lastCompletePushAt == LastComplete(runs)
  {
    hide Observe, SomeGave;
    var before, w := runs[..|runs| - 1], runs[|runs| - 1];
    ObservationMeaning(tools, After(tools, before), w);
    if before != [] {
      CompletionIsHonest(tools, before);
      assert After(tools, before).Some?;
    }
  }

  /** One run: an item carries the time of this run's push, if there was one, and else keeps the
      time it had. */
  lemma ObservedItems(tools: seq<Tool>, prior: Option<Observation>, w: World)
    requires Distinct(tools) && |w.answered| == |tools|
    ensures var o := Observe(tools, prior, w);
      && (forall tool :: tool in o.items <==> tool in tools)
      && o.totalItems == |tools|
      && forall tool :: tool in tools ==>
           o.items[tool].lastSuccessfulPushAt == OrElse(PushOf(tools, w, tool), PriorItem(prior, tool))
  {
    AnsweredSizes(tools, w);
    EachAnswered(tools, w);
    hide Answered, Distinct;
  }

  lemma EachAnswered(tools: seq<Tool>, w: World)
    requires |w.answered| == |tools|
    ensures forall tool :: tool in tools ==> tool in Answered(tools, w, true) || tool in Answered(tools, w, false)
  {
    forall tool | tool in tools ensures tool in Answered(tools, w, true) || tool in Answered(tools, w, false) {
      var i :| 0 <= i < |tools| && tools[i] == tool;
    }
  }

  // ---------- what the dashboard makes of it ----------

  datatype SnapshotState = Fresh | Stale | Incomplete | NeverSynced | Unknown | NotApplicable

  /** How the dashboard is told to read a project; without a threshold nothing gets stale. */
  datatype Profile = Profile(snapshotMirror: bool, staleAfterSeconds: Option<nat>)

  predicate Recent(pushedAt: int, now: int, profile: Profile) {
    profile.staleAfterSeconds.Some? ==> now - pushedAt <= profile.staleAfterSeconds.value
  }

  function SuccessTimes(o: Observation): set<Tool> {
    set tool | tool in o.items && o.items[tool].lastSuccessfulPushAt.Some?
  }

  predicate OlderThan(o: Observation, now: int, profile: Profile) {
    exists tool :: tool in SuccessTimes(o) && !Recent(o.items[tool].lastSuccessfulPushAt.value, now, profile)
  }

  /** `_snapshot_state`, times in seconds: the oldest of the recorded pushes is beyond the
      threshold exactly when some recorded push is. */
  function StateOf(o: Option<Observation>, now: int, profile: Profile): SnapshotState {
    if !profile.snapshotMirror then NotApplicable
    else if o.None? then Unknown
    else if SuccessTimes(o.value) == {} then NeverSynced
    else if o.value.totalItems > |SuccessTimes(o.value)| then Incomplete
    else if OlderThan(o.value, now, profile) then Stale
    else Fresh
  }

  function PushTime(o: Observation, tool: Tool): int
    requires tool in SuccessTimes(o)
  {
    o.items[tool].lastSuccessfulPushAt.value
  }

  /** The least push time among these tools. */
  ghost predicate IsOldest(o: Observation, tools: set<Tool>, oldest: int)
    requires tools <= SuccessTimes(o)
  {
    && (forall tool :: tool in tools ==> oldest <= PushTime(o, tool))
    && exists tool :: tool in tools && oldest == PushTime(o, tool)
  }

  lemma OldestOfMore(o: Observation, tools: set<Tool>, oldest: int, tool: Tool)
    requires tools <= SuccessTimes(o) && tool in SuccessTimes(o) && (tools != {} ==> IsOldest(o, tools, oldest))
    ensures var at := PushTime(o, tool);
      IsOldest(o, tools + {tool}, if tools == {} || at < oldest then at else oldest)
  {
    hide SuccessTimes, PushTime;
    var at := PushTime(o, tool);
    if tools != {} && at >= oldest {
      var t :| t in tools && oldest == PushTime(o, t);
      assert t in tools + {tool};
    } else {
      assert tool in tools + {tool};
    }
  }

  ghost predicate Parted(seen: set<Tool>, pending: set<Tool>, all: set<Tool>) {
    seen !! pending && seen + pending == all
  }

  lemma AllPending(all: set<Tool>)
    ensures Parted({}, all, all)
  {
  }

  lemma NonePending(seen: set<Tool>, all: set<Tool>)
    requires Parted(seen, {}, all)
    ensures seen == all
  {
  }

  lemma MovedOver(seen: set<Tool>, pending: set<Tool>, all: set<Tool>, tool: Tool)
    requires Parted(seen, pending, all) && tool in pending
    ensures Parted(seen + {tool}, pending - {tool}, all) && |seen + {tool}| == |seen| + 1
    ensures tool in all && seen <= all && seen + {tool} <= all
  {
  }

  /** How many items have ever been pushed, and when the oldest of those pushes was. */
  method OldestPush(o: Observation) returns (count: nat, oldest: int)
    ensures count == |SuccessTimes(o)|
    ensures count > 0 ==> IsOldest(o, SuccessTimes(o), oldest)
  {
    hide SuccessTimes, IsOldest, Parted, PushTime;
    assert Parted({}, SuccessTimes(o), SuccessTimes(o)) by { AllPending(SuccessTimes(o)); }
    var pending := SuccessTimes(o);
    count, oldest := 0, 0;
    ghost var seen: set<Tool> := {};
    while pending != {}
      invariant Parted(seen, pending, SuccessTimes(o)) && count == |seen|
      invariant seen <= SuccessTimes(o) && (seen != {} ==> IsOldest(o, seen, oldest))
      decreases |pending|
    {
      var tool :| tool in pending;
      MovedOver(seen, pending, SuccessTimes(o), tool);
      var at := PushTime(o, tool);
      OldestOfMore(o, seen, oldest, tool);
      if count == 0 || at < oldest { oldest := at; }
      pending := pending - {tool};
      count := count + 1;
      seen := seen + {tool};
    }
    NonePending(seen, SuccessTimes(o));
  }

  /** The same state, as the dashboard computes it from the count and the oldest push. */
  method SnapshotStateOf(o: Observation, now: int, profile: Profile) returns (state: SnapshotState)
    ensures state == StateOf(Some(o), now, profile)
  {
    if !profile.snapshotMirror { return NotApplicable; }
    var count, oldest := OldestPush(o);
    if count == 0 { return NeverSynced; }
    if o.totalItems > count { return Incomplete; }
    OldestDecides(o, now, profile, oldest);
    if profile.staleAfterSeconds.Some? && now - oldest > profile.staleAfterSeconds.value { return Stale; }
    return Fresh;
  }

  lemma OldestDecides(o: Observation, now: int, profile: Profile, oldest: int)
    requires IsOldest(o, SuccessTimes(o), oldest)
    ensures OlderThan(o, now, profile) <==> !Recent(oldest, now, profile)
  {
    var tool :| tool in SuccessTimes(o) && oldest == PushTime(o, tool);
    assert forall t :: t in SuccessTimes(o) ==> oldest <= PushTime(o, t);
  }

  /** End-to-end freshness: after any runs, the dashboard says "fresh" if and only if something is
      configured and every configured tool was really pushed within the threshold; it says
      "incomplete" exactly when some tools were pushed at some time and others never. */
  lemma FreshMeansPushed(tools: seq<Tool>, runs: seq<World>, now: int, profile: Profile)
    requires Distinct(tools) && Complete(tools, runs) && runs != [] && profile.snapshotMirror
    ensures var state := StateOf(After(tools, runs), now, profile);
      && (state == Fresh <==>
            tools != [] && forall tool :: tool in tools ==>
              && LastPush(tools, runs, tool).Some?
              && (profile.staleAfterSeconds.Some? ==>
                    now - LastPush(tools, runs, tool).value <= profile.staleAfterSeconds.value))
      && (state == NeverSynced <==> forall tool :: tool in tools ==> LastPush(tools, runs, tool).None?)
      && (state == Incomplete <==>
            && (exists tool :: tool in tools && LastPush(tools, runs, tool).Some?)
            && (exists tool :: tool in tools && LastPush(tools, runs, tool).None?))
      && (state in {Fresh, Stale, NeverSynced, Incomplete})
  {
    ItemsAreHonest(tools, runs);
    StateMeaning(tools, After(tools, runs).value, now, profile);
  }

  /** What each state says about the items of an observation of these tools. */
  lemma StateMeaning(tools: seq<Tool>, o: Observation, now: int, profile: Profile)
    requires profile.snapshotMirror && Distinct(tools) && o.totalItems == |tools|
    requires forall tool :: tool in o.items <==> tool in tools
    ensures var state := StateOf(Some(o), now, profile);
      && (state == Fresh <==>
            tools != [] && forall tool :: tool in tools ==>
              o.items[tool].lastSuccessfulPushAt.Some?
              && Recent(o.items[tool].lastSuccessfulPushAt.value, now, profile))
      && (state == NeverSynced <==> forall tool :: tool in tools ==> o.items[tool].lastSuccessfulPushAt.None?)
      && (state == Incomplete <==>
            && (exists tool :: tool in tools && o.items[tool].lastSuccessfulPushAt.Some?)
            && (exists tool :: tool in tools && o.items[tool].lastSuccessfulPushAt.None?))
  {
    var all := set i | 0 <= i < |tools| :: tools[i];
    var done := SuccessTimes(o);
    DistinctSize(tools);
    assert forall tool :: tool in tools ==> (tool in done <==> o.items[tool].lastSuccessfulPushAt.Some?);
    assert done <= all;
    SmallerSet(done, all);
    if done == {} {
      assert forall tool :: tool in tools ==> tool !in done;
    } else {
      var t :| t in done;
      assert t in tools;
    }
    if |done| < |all| {
      OneMissing(done, all);
      var t :| t in all && t !in done;
      assert t in tools && t !in done;
    }
  }

  lemma OneMissing(a: set<Tool>, b: set<Tool>)
    requires a <= b && |a| < |b|
    ensures exists t :: t in b && t !in a
  {
    if b <= a { SmallerSet(b, a); }
  }

  lemma {:induction false} DistinctSize(tools: seq<Tool>)
    requires Distinct(tools)
    ensures |set i | 0 <= i < |tools| :: tools[i]| == |tools|
    ensures forall tool :: tool in tools <==> tool in set i | 0 <= i < |tools| :: tools[i]
  {
    if tools != [] {
      var front := tools[..|tools| - 1];
      DistinctSize(front);
      assert (set i | 0 <= i < |tools| :: tools[i]) == (set i | 0 <= i < |front| :: front[i]) + {tools[|tools| - 1]};
    }
  }

  lemma {:induction false} SmallerSet(a: set<Tool>, b: set<Tool>)
    requires a <= b
    ensures |a| <= |b| && (|a| == |b| ==> a == b)
  {
    if a != {} {
      var x :| x in a;
      SmallerSet(a - {x}, b - {x});
    } else if b != {} {
      assert |b| > 0;
    }
  }
}
