/** The sync agent over many passes: one status file for all projects, which may be unreadable
    before a pass and may fail to be written after it. */
module SyncAgent {
  import opened Wrappers
  import opened SyncStatus

  datatype Kind = Snapshots(tools: seq<Tool>) | Journal

  /** A configured project under its normalised id. */
  datatype Project = Project(id: string, kind: Kind)

  datatype JournalOutcome = Unavailable | Empty | Refused | Stored(entries: nat, syncedAt: int)

  /** What one pass met at one project; the journal part matters for journals only. */
  datatype Happening = Happening(world: World, journal: JournalOutcome)

  datatype Pass = Pass(readable: bool, happenings: seq<Happening>, written: bool)

  type Statuses = map<string, Observation>

  /** The status part of `sync_journal`. */
  function ObserveJournal(prior: Option<Observation>, attemptedAt: int, outcome: JournalOutcome): Observation {
    match outcome
    case Unavailable =>
      ProjectObservation(prior, Failed, attemptedAt, 0, 0, 0, map[], None, None, Some("local_data_unavailable"))
    case Empty =>
      ProjectObservation(prior, NoChanges, attemptedAt, 0, 0, 0, map[], None, None, Some("no_local_entries"))
    case Refused =>
      ProjectObservation(prior, Failed, attemptedAt, 0, 0, 0, map[], None, None, Some("cloud_push_failed"))
    case Stored(entries, syncedAt) =>
      ProjectObservation(prior, Success, attemptedAt, entries, 0, entries, map[], Some(syncedAt), Some(syncedAt), None)
  }

  function SyncOne(p: Project, prior: Option<Observation>, h: Happening): Observation {
    match p.kind
    case Journal => ObserveJournal(prior, h.world.attemptedAt, h.journal)
    case Snapshots(tools) => Observe(tools, prior, h.world)
  }

  function Prior(statuses: Statuses, id: string): Option<Observation> {
    if id in statuses then Some(statuses[id]) else None
  }

  /** The fold of `main` over the configured projects. */
  function Fold(projects: seq<Project>, happenings: seq<Happening>, statuses: Statuses): Statuses
    requires |projects| == |happenings|
    decreases |projects|
  {
    if projects == [] then statuses
    else
      var p := projects[0];
      Fold(projects[1..], happenings[1..], statuses[p.id := SyncOne(p, Prior(statuses, p.id), happenings[0])])
  }

  function AfterPass(projects: seq<Project>, disk: Statuses, pass: Pass): Statuses
    requires |pass.happenings| == |projects|
  {
    if pass.written then Fold(projects, pass.happenings, if pass.readable then disk else map[]) else disk
  }

  class StatusFile {
    var statuses: Statuses

    constructor ()
      ensures statuses == map[]
    {
      statuses := map[];
    }

    /** `main` */
    method RunAgent(projects: seq<Project>, pass: Pass)
      requires |pass.happenings| == |projects|
      modifies this
      ensures statuses == AfterPass(projects, old(statuses), pass)
    {
      hide SyncOne;
      var working: Statuses := if pass.readable then statuses else map[];
      ghost var loaded := working;
      for i := 0 to |projects|
        invariant Fold(projects[i..], pass.happenings[i..], working) == Fold(projects, pass.happenings, loaded)
      {
        var p := projects[i];
        assert projects[i..][1..] == projects[i + 1..] && pass.happenings[i..][1..] == pass.happenings[i + 1..];
        working := working[p.id := SyncOne(p, Prior(working, p.id), pass.happenings[i])];
      }
      assert projects[|projects|..] == [];
      if pass.written { statuses := working; }
    }
  }

  // ---------- what is on disk after many passes ----------

  ghost predicate Fits(projects: seq<Project>, passes: seq<Pass>) {
    forall r :: 0 <= r < |passes| ==> |passes[r].happenings| == |projects|
  }

  function Disk(projects: seq<Project>, passes: seq<Pass>): Statuses
    requires Fits(projects, passes)
  {
    if passes == [] then map[]
    else AfterPass(projects, Disk(projects, passes[..|passes| - 1]), passes[|passes| - 1])
  }

  /** The passes that have left a trace: those written since the file was last unreadable. */
  function Effective(passes: seq<Pass>): (r: seq<Pass>)
    ensures forall pass :: pass in r ==> pass in passes && pass.written
  {
    if passes == [] then []
    else
      var front, last := passes[..|passes| - 1], passes[|passes| - 1];
      if !last.written then Effective(front)
      else if !last.readable then [last]
      else Effective(front) + [last]
  }

  function Own(passes: seq<Pass>, i: nat): (r: seq<Happening>)
    requires forall pass :: pass in passes ==> i < |pass.happenings|
    ensures |r| == |passes| && forall n :: 0 <= n < |passes| ==> r[n] == passes[n].happenings[i]
  {
    seq(|passes|, n requires 0 <= n < |passes| => assert passes[n] in passes; passes[n].happenings[i])
  }

  /** The status of one project if it alone were synced, with a file that is always there. */
  function History(p: Project, happenings: seq<Happening>): Option<Observation> {
    if happenings == [] then None
    else Some(SyncOne(p, History(p, happenings[..|happenings| - 1]), happenings[|happenings| - 1]))
  }

  ghost predicate OwnIds(projects: seq<Project>) {
    forall i, j :: 0 <= i < j < |projects| ==> projects[i].id != projects[j].id
  }

  lemma {:induction false} FoldKeepsOthers(projects: seq<Project>, happenings: seq<Happening>, statuses: Statuses,
                                           id: string)
    requires |projects| == |happenings| && forall i :: 0 <= i < |projects| ==> projects[i].id != id
    ensures Prior(Fold(projects, happenings, statuses), id) == Prior(statuses, id)
    decreases |projects|
  {
    hide SyncOne;
    if projects != [] {
      var p := projects[0];
      FoldKeepsOthers(projects[1..], happenings[1..],
        statuses[p.id := SyncOne(p, Prior(statuses, p.id), happenings[0])], id);
    }
  }

  /** One pass treats each project by itself. */
  lemma {:induction false} FoldOwn(projects: seq<Project>, happenings: seq<Happening>, statuses: Statuses, i: nat)
    requires |projects| == |happenings| && OwnIds(projects) && i < |projects|
    ensures Prior(Fold(projects, happenings, statuses), projects[i].id)
         == Some(SyncOne(projects[i], Prior(statuses, projects[i].id), happenings[i]))
    decreases |projects|
  {
    hide SyncOne;
    var p := projects[0];
    var next := statuses[p.id := SyncOne(p, Prior(statuses, p.id), happenings[0])];
    if i == 0 {
      FoldKeepsOthers(projects[1..], happenings[1..], next, p.id);
    } else {
      assert projects[1..][i - 1] == projects[i];
      FoldOwn(projects[1..], happenings[1..], next, i - 1);
    }
  }

  lemma EffectiveFits(projects: seq<Project>, passes: seq<Pass>)
    requires Fits(projects, passes)
    ensures forall pass :: pass in Effective(passes) ==> |pass.happenings| == |projects|
  {
  }

  lemma {:induction false} DiskIsHistory(projects: seq<Project>, passes: seq<Pass>, i: nat)
    requires OwnIds(projects) && Fits(projects, passes) && i < |projects|
    requires forall pass :: pass in Effective(passes) ==> i < |pass.happenings|
    ensures Prior(Disk(projects, passes), projects[i].id) == History(projects[i], Own(Effective(passes), i))
    decreases |passes|
  {
    hide SyncOne, Fold;
    if passes != [] {
      var front, last := passes[..|passes| - 1], passes[|passes| - 1];
      EffectiveFits(projects, front);
      DiskIsHistory(projects, front, i);
      if last.written {
        var loaded := if last.readable then Disk(projects, front) else map[];
        FoldOwn(projects, last.happenings, loaded, i);
        var own := Own(Effective(passes), i);
        assert own[..|own| - 1] == if last.readable then Own(Effective(front), i) else [];
      }
    }
  }

  ghost predicate KeepsHistories(projects: seq<Project>, passes: seq<Pass>)
    requires Fits(projects, passes)
  {
    forall i: nat :: i < |projects| && (forall pass :: pass in Effective(passes) ==> i < |pass.happenings|) ==>
      Prior(Disk(projects, passes), projects[i].id) == History(projects[i], Own(Effective(passes), i))
  }

  /** The file holds every project's own history exactly when no two projects share an id: passes
      that could not be written leave no trace, an unreadable file starts all histories afresh,
      and nothing crosses from one project to another. */
  lemma HistoriesApart(projects: seq<Project>)
    ensures OwnIds(projects) <==> forall passes :: Fits(projects, passes) ==> KeepsHistories(projects, passes)
  {
    hide SyncOne, Fold, Disk, History, Own, Effective;
    if OwnIds(projects) {
      forall passes, i: nat | Fits(projects, passes) && i < |projects|
                            && (forall pass :: pass in Effective(passes) ==> i < |pass.happenings|)
        ensures Prior(Disk(projects, passes), projects[i].id) == History(projects[i], Own(Effective(passes), i))
      {
        DiskIsHistory(projects, passes, i);
      }
    } else {
      var i, j :| 0 <= i < j < |projects| && projects[i].id == projects[j].id;
      SharedId(projects, i, j);
    }
  }

  /** A pass that met nothing but closed doors, at a different moment for each project. */
  function ClosedDoors(n: nat): Pass {
    Pass(true, seq(n, k => Happening(World(k, false, [], PushFailed), Unavailable)), true)
  }

  /** Two projects under one id: after one pass the file cannot tell the history of both. */
  lemma SharedId(projects: seq<Project>, i: nat, j: nat)
    requires i < j < |projects| && projects[i].id == projects[j].id
    ensures Fits(projects, [ClosedDoors(|projects|)])
    ensures !KeepsHistories(projects, [ClosedDoors(|projects|)])
  {
    hide Disk, History, Effective, ClosedDoors;
    var pass := ClosedDoors(|projects|);
    var passes := [pass];
    DoorsLeaveTrace(|projects|);
    AttemptRecorded(projects, i);
    AttemptRecorded(projects, j);
    assert forall p :: p in Effective(passes) ==> i < |p.happenings| && j < |p.happenings|;
  }

  lemma DoorsLeaveTrace(n: nat)
    ensures Effective([ClosedDoors(n)]) == [ClosedDoors(n)] && |ClosedDoors(n).happenings| == n
  {
    assert [ClosedDoors(n)][..0] == [];
  }

  lemma AttemptRecorded(projects: seq<Project>, i: nat)
    requires i < |projects|
    ensures var h := History(projects[i], Own([ClosedDoors(|projects|)], i)); h.Some? && h.value.lastAttemptAt == i
  {
    var own := Own([ClosedDoors(|projects|)], i);
    assert own[0] == Happening(World(i, false, [], PushFailed), Unavailable);
  }

  // ---------- journals ----------

  /** The time of the last pass in which the cloud took the journal. */
  function LastStored(happenings: seq<Happening>): Option<int> {
    if happenings == [] then None
    else
      var last := happenings[|happenings| - 1].journal;
      if last.Stored? then Some(last.syncedAt) else LastStored(happenings[..|happenings| - 1])
  }

  /** What is kept of a journal: how the last pass went, with as many items pushed as the cloud took,
      and the time of the last pass in which it took any. */
  lemma {:induction false} JournalIsHonest(id: string, happenings: seq<Happening>)
    requires happenings != []
    ensures var o := History(Project(id, Journal), happenings).value;
      var last := happenings[|happenings| - 1];
      && o.lastAttemptAt == last.world.attemptedAt && o.items == map[] && o.skippedItems == 0
      && o.pushedItems == o.totalItems == (if last.journal.Stored? then last.journal.entries else 0)
      && o.lastSuccessfulPushAt == o.lastCompletePushAt == LastStored(happenings)
      && (o.result == Success <==> last.journal.Stored?)
      && (o.result == NoChanges <==> last.journal.Empty?)
      && (o.result == Failed <==> last.journal.Unavailable? || last.journal.Refused?)
      && match last.journal
         case Stored(_, _) => o.reason == None
         case Empty => o.reason == Some("no_local_entries")
         case Unavailable => o.reason == Some("local_data_unavailable")
         case Refused => o.reason == Some("cloud_push_failed")
  {
    var front := happenings[..|happenings| - 1];
    if front != [] {
      JournalIsHonest(id, front);
      assert History(Project(id, Journal), front).Some?;
    }
  }

  // ---------- what the dashboard may conclude ----------

  function Worlds(happenings: seq<Happening>): (r: seq<World>)
    ensures |r| == |happenings| && forall n :: 0 <= n < |happenings| ==> r[n] == happenings[n].world
  {
    seq(|happenings|, n requires 0 <= n < |happenings| => happenings[n].world)
  }

  lemma {:induction false} HistoryIsAfter(id: string, tools: seq<Tool>, happenings: seq<Happening>)
    ensures History(Project(id, Snapshots(tools)), happenings) == After(tools, Worlds(happenings))
  {
    hide Observe;
    if happenings != [] {
      var front := happenings[..|happenings| - 1];
      HistoryIsAfter(id, tools, front);
      assert Worlds(happenings)[..|happenings| - 1] == Worlds(front);
    }
  }

  lemma {:induction false} LastPushWitness(tools: seq<Tool>, runs: seq<World>, tool: Tool)
    requires LastPush(tools, runs, tool).Some?
    ensures exists r :: 0 <= r < |runs| && PushOf(tools, runs[r], tool) == LastPush(tools, runs, tool)
  {
    hide PushOf;
    var n := |runs| - 1;
    if PushOf(tools, runs[n], tool).None? {
      LastPushWitness(tools, runs[..n], tool);
      var r :| 0 <= r < n && PushOf(tools, runs[..n][r], tool) == LastPush(tools, runs[..n], tool);
      assert runs[r] == runs[..n][r];
    }
  }

  /** The pass really pushed the tool of project `i`, no longer than the threshold ago. */
  ghost predicate PushedRecently(pass: Pass, i: nat, tools: seq<Tool>, tool: Tool, now: int, profile: Profile)
    requires i < |pass.happenings|
  {
    var pushed := PushOf(tools, pass.happenings[i].world, tool);
    pushed.Some? && Recent(pushed.value, now, profile)
  }

  /** Freshness is never invented: whatever passes there were, and whatever became of the file in
      between, "fresh" on the dashboard means that for every configured tool some pass really
      pushed it within the threshold. */
  lemma FreshIsNeverInvented(projects: seq<Project>, passes: seq<Pass>, i: nat, now: int, profile: Profile)
    requires OwnIds(projects) && Fits(projects, passes) && i < |projects| && projects[i].kind.Snapshots?
    requires Distinct(projects[i].kind.tools)
    requires forall pass :: pass in passes ==>
      i < |pass.happenings| && |pass.happenings[i].world.answered| == |projects[i].kind.tools|
    requires StateOf(Prior(Disk(projects, passes), projects[i].id), now, profile) == Fresh
    ensures projects[i].kind.tools != []
    ensures forall tool :: tool in projects[i].kind.tools ==>
      exists pass :: pass in passes && pass.written
                  && PushedRecently(pass, i, projects[i].kind.tools, tool, now, profile)
  {
    hide Observe, Disk, Effective, PushOf, StateOf, Distinct;
    var tools, kept := projects[i].kind.tools, Effective(passes);
    DiskIsHistory(projects, passes, i);
    var runs := Worlds(Own(kept, i));
    HistoryIsAfter(projects[i].id, tools, Own(kept, i));
    assert After(tools, runs) == Prior(Disk(projects, passes), projects[i].id);
    NothingIsUnknown(now, profile);
    FreshIsMirror(Prior(Disk(projects, passes), projects[i].id), now, profile);
    forall r | 0 <= r < |runs| ensures |runs[r].answered| == |tools| { assert kept[r] in kept; }
    FreshMeansPushed(tools, runs, now, profile);
    forall tool | tool in tools
      ensures exists pass :: pass in passes && pass.written && PushedRecently(pass, i, tools, tool, now, profile)
    {
      LastPushWitness(tools, runs, tool);
      var r :| 0 <= r < |runs| && PushOf(tools, runs[r], tool) == LastPush(tools, runs, tool);
      assert kept[r] in kept && PushedRecently(kept[r], i, tools, tool, now, profile);
    }
  }

  lemma FreshIsMirror(o: Option<Observation>, now: int, profile: Profile)
    requires StateOf(o, now, profile) == Fresh
    ensures profile.snapshotMirror
  {
  }

  lemma NothingIsUnknown(now: int, profile: Profile)
    ensures StateOf(None, now, profile) != Fresh
  {
  }
}
