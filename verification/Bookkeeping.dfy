/** What every run keeps in the stored statuses: the SyncError condition, the other conditions, the
    description of the resources, and the revision history. */
module Bookkeeping {
  import opened Status
  import opened Manifest
  import opened Health
  import opened Controller
  import opened Safety

  // ---------------------------------------------------------------- one status

  /** At most one SyncError condition; false while synced or syncing, true only when unknown or out of
      sync. */
  ghost predicate ConditionOk(s: AppStatus) {
    var errors := Of(s.conditions, SYNC_ERROR);
    && |errors| <= 1
    && (s.sync == Synced || s.sync == Syncing ==> |errors| == 1 && errors[0].status == ConditionFalse)
    && (|errors| == 1 && errors[0].status == ConditionTrue ==> s.sync == SyncUnknown || s.sync == OutOfSync)
  }

  /** The statuses name exactly these resources, in order. */
  ghost predicate Names(statuses: seq<ResourceStatus>, resources: seq<Resource>) {
    && |statuses| == |resources|
    && forall i :: 0 <= i < |statuses| ==>
         && statuses[i].kind == resources[i].kind
         && statuses[i].name == resources[i].name
         && statuses[i].namespace == resources[i].namespace
  }

  /** The health checker gives no sync status to any resource. */
  ghost predicate NoneSet(statuses: seq<ResourceStatus>) {
    forall i :: 0 <= i < |statuses| ==> statuses[i].syncStatus == NotSet
  }

  /** A status that says synced names the manifests at its revision, as the health checker does, and
      sums up their health. */
  ghost predicate Describes(s: AppStatus, repo: string -> seq<Resource>) {
    s.sync == Synced ==>
      Names(s.resources, repo(s.revision)) && NoneSet(s.resources) && IsWorst(s.health, s.resources)
  }

  /** The statuses name exactly these resources and say this of each. */
  ghost predicate Marks(
    statuses: seq<ResourceStatus>, resources: seq<Resource>, sync: SyncStatus, health: HealthStatus)
  {
    && Names(statuses, resources)
    && forall i :: 0 <= i < |statuses| ==> statuses[i].syncStatus == sync && statuses[i].healthStatus == health
  }

  ghost predicate HasSyncError(s: AppStatus) {
    exists i :: 0 <= i < |s.conditions| && s.conditions[i].kind == SYNC_ERROR && s.conditions[i].status == ConditionTrue
  }

  /** A status written before an apply, after a failed one, or instead of one, lists the manifests at its
      revision, each marked like the whole. */
  ghost predicate Lists(s: AppStatus, repo: string -> seq<Resource>) {
    && (s.sync == Syncing ==> s.health == Progressing)
    && (s.sync == Syncing || (s.sync == OutOfSync && (s.health == Degraded || !HasSyncError(s))) ==>
          repo(s.revision) != [] ==> Marks(s.resources, repo(s.revision), s.sync, s.health))
  }

  /** `others` are the conditions of other types the application came with. */
  ghost predicate Sound(s: AppStatus, repo: string -> seq<Resource>, others: seq<Condition>) {
    ConditionOk(s) && Others(s.conditions, SYNC_ERROR) == others && Describes(s, repo) && Lists(s, repo)
  }

  /** What a report says of the resources it is given; given none, it leaves the old ones. */
  lemma ReportedResources(s: AppStatus, sync: SyncStatus, health: HealthStatus, revision: string,
                          resources: seq<Resource>, err: Option<string>, now: int)
    ensures var after := Reported(s, sync, health, revision, resources, err, now);
            if resources == [] then after.resources == s.resources
            else Marks(after.resources, resources, sync, health)
  {
  }

  lemma {:induction false} ErrorIsListed(cs: seq<Condition>)
    requires |Of(cs, SYNC_ERROR)| >= 1 && Of(cs, SYNC_ERROR)[0].status == ConditionTrue
    ensures exists i :: 0 <= i < |cs| && cs[i].kind == SYNC_ERROR && cs[i].status == ConditionTrue
  {
    if cs[0].kind != SYNC_ERROR {
      ErrorIsListed(cs[1..]);
      var i :| 0 <= i < |cs[1..]| && cs[1..][i].kind == SYNC_ERROR && cs[1..][i].status == ConditionTrue;
      assert cs[i + 1] == cs[1..][i];
    }
  }

  lemma ReportedSound(s: AppStatus, sync: SyncStatus, health: HealthStatus, revision: string, resources: seq<Resource>,
                      err: Option<string>, now: int, repo: string -> seq<Resource>, others: seq<Condition>)
    requires Sound(s, repo, others)
    requires sync == OutOfSync || sync == SyncUnknown || (sync == Syncing && err.None? && health == Progressing)
    requires resources == repo(revision) || sync == SyncUnknown || (err.Some? && health == HealthUnknown)
    ensures Sound(Reported(s, sync, health, revision, resources, err, now), repo, others)
  {
    var status := if err.Some? then ConditionTrue else ConditionFalse;
    var message := if err.Some? then err.value else "";
    SetConditionFrame(s.conditions, SYNC_ERROR, status, message, now);
    SetConditionLeavesOne(s.conditions, SYNC_ERROR, status, message, now);
    ReportedResources(s, sync, health, revision, resources, err, now);
    if err.Some? {
      ErrorIsListed(SetCondition(s.conditions, SYNC_ERROR, status, message, now));
    }
  }

  lemma HealthCheckedSound(s: AppStatus, probe: Probe, repo: string -> seq<Resource>, others: seq<Condition>)
    requires Sound(s, repo, others) && s.sync == Synced
    ensures Sound(HealthChecked(s, probe, repo(s.revision)), repo, others)
  {
    WorstIsWorst(StatusesOf(probe, repo(s.revision)));
  }

  lemma SucceededSound(s: AppStatus, revision: string, probe: Probe, now: int,
                       repo: string -> seq<Resource>, others: seq<Condition>)
    requires Sound(s, repo, others) && s.sync == Syncing
    ensures Sound(Succeeded(s, revision, probe, repo(revision), now), repo, others)
  {
    WorstIsWorst(StatusesOf(probe, repo(revision)));
  }

  // ---------------------------------------------------------------- every status of a run

  ghost predicate AllSound(w: World, others: seq<Condition>) {
    && (forall i :: 0 <= i < |w.stored| ==> Sound(w.stored[i], w.repo, others))
    && (!w.phase.Idle? ==> Sound(w.phase.app.status, w.repo, others))
  }

  lemma DecideKeepsSound(w: World, probe: Probe, io: Io, others: seq<Condition>)
    requires PhaseOk(w) && AllSound(w, others) && Enabled(w, Decide(probe, io))
    ensures AllSound(Do(w, Decide(probe, io)), others)
  {
    hide Sound, Reported, HealthChecked;
    var p := w.phase;
    var s := p.app.status;
    if AlreadySynced(s, p.revision) {
      HealthCheckedSound(s, probe, w.repo, others);
    } else if ShouldSync(p.app.policy, s) {
      ReportedSound(s, Syncing, Progressing, p.revision, p.resources, None, io.now, w.repo, others);
    } else {
      ReportedSound(s, OutOfSync, HealthUnknown, p.revision, p.resources, None, io.now, w.repo, others);
    }
  }

  lemma StepKeepsSound(w: World, a: Action, others: seq<Condition>)
    requires PhaseOk(w) && AllSound(w, others) && Enabled(w, a)
    ensures AllSound(Do(w, a), others)
  {
    hide Sound, Reported, HealthChecked, Succeeded, IsSuffix, JustApplied, Started;
    var p := w.phase;
    match a
    case Decide(probe, io) => DecideKeepsSound(w, probe, io, others);
    case CloneFails(err, io) =>
      ReportedSound(p.app.status, SyncUnknown, HealthUnknown, "", [], Some(err), io.now, w.repo, others);
    case ParseFails(err, io) =>
      ReportedSound(p.app.status, OutOfSync, HealthUnknown, p.revision, [], Some(err), io.now, w.repo, others);
    case ReportFailure(io) =>
      ReportedSound(p.app.status, OutOfSync, Degraded, p.revision, p.resources, Some(p.message), io.now,
                    w.repo, others);
    case ReportSuccess(probe, io) =>
      SucceededSound(p.app.status, p.revision, probe, io.now, w.repo, others);
    case _ =>
  }

  lemma {:induction false} RunKeepsSound(w: World, actions: seq<Action>, others: seq<Condition>)
    requires PhaseOk(w) && AllSound(w, others) && IsRun(w, actions)
    ensures AllSound(After(w, actions), others)
    decreases |actions|
  {
    if actions != [] {
      StepKeepsPhase(w, actions[0]);
      StepKeepsSound(w, actions[0], others);
      RunKeepsSound(Do(w, actions[0]), actions[1..], others);
    }
  }

  /** In every status ever stored, lost writes and crashes included: the SyncError condition agrees with
      the sync status, conditions of other types are the ones the application came with, in order, and
      a claim to be synced names the manifests at its revision and gives the worst of their health. */
  lemma {:induction false} EveryStatusIsSound(w: World, actions: seq<Action>, i: nat)
    requires Initial(w) && ConditionOk(w.Current())
    requires IsRun(w, actions) && i < |After(w, actions).stored|
    ensures Sound(After(w, actions).stored[i], w.repo, Others(w.Current().conditions, SYNC_ERROR))
  {
    InitialOk(w);
    RunKeepsSound(w, actions, Others(w.Current().conditions, SYNC_ERROR));
    RepoNeverChanges(w, actions);
  }

  /** So in every run, a stored Syncing status for a revision with manifests lists these in order, each
      Syncing and Progressing; and a stored OutOfSync status that does not come of a clone or parse that
      failed lists them too, each OutOfSync and with the health of the whole. */
  lemma {:induction false} ReportsListManifests(w: World, actions: seq<Action>, i: nat)
    requires Initial(w) && ConditionOk(w.Current())
    requires IsRun(w, actions) && i < |After(w, actions).stored|
    ensures var s := After(w, actions).stored[i];
            w.repo(s.revision) != [] ==>
              && (s.sync == Syncing ==> Marks(s.resources, w.repo(s.revision), Syncing, Progressing))
              && (s.sync == OutOfSync && s.health == Degraded ==>
                    Marks(s.resources, w.repo(s.revision), OutOfSync, Degraded))
              && (s.sync == OutOfSync && !HasSyncError(s) ==>
                    Marks(s.resources, w.repo(s.revision), OutOfSync, s.health))
  {
    hide IsRun, After, Marks, HasSyncError, ConditionOk, Describes;
    EveryStatusIsSound(w, actions, i);
  }

  /** The declared schema lets a resource status hold only the four named sync statuses. */
  ghost predicate InSchema(s: AppStatus) {
    forall i :: 0 <= i < |s.resources| ==> s.resources[i].syncStatus != NotSet
  }

  /** A stored claim to be synced is within the declared schema only when there is nothing to sync. So an
      API server that enforces the schema never stores one for an application with manifests. */
  lemma {:induction false} SyncedInSchemaIff(w: World, actions: seq<Action>, i: nat)
    requires Initial(w) && ConditionOk(w.Current())
    requires IsRun(w, actions) && i < |After(w, actions).stored| && After(w, actions).stored[i].sync == Synced
    ensures InSchema(After(w, actions).stored[i]) <==> w.repo(After(w, actions).stored[i].revision) == []
  {
    hide IsRun, After, IsWorst, ConditionOk;
    EveryStatusIsSound(w, actions, i);
    var s := After(w, actions).stored[i];
    assert s.resources != [] ==> s.resources[0].syncStatus == NotSet;
  }

  /** The API server stores no status outside the schema. */
  ghost predicate SchemaEnforced(w: World, actions: seq<Action>)
    requires IsRun(w, actions)
    decreases |actions|
  {
    actions != [] ==>
      && (Do(w, actions[0]).stored != w.stored ==> InSchema(Do(w, actions[0]).Current()))
      && SchemaEnforced(Do(w, actions[0]), actions[1..])
  }

  ghost predicate ClaimsInSchema(w: World) {
    forall i :: 0 <= i < |w.stored| && w.stored[i].sync == Synced ==> InSchema(w.stored[i])
  }

  lemma {:induction false} EnforcedClaims(w: World, actions: seq<Action>)
    requires PhaseOk(w) && ClaimsInSchema(w) && IsRun(w, actions) && SchemaEnforced(w, actions)
    ensures ClaimsInSchema(After(w, actions))
    decreases |actions|
  {
    hide PhaseOk, InSchema, Do, Enabled;
    if actions != [] {
      NewClaim(w, actions[0]);
      StepKeepsPhase(w, actions[0]);
      EnforcedClaims(Do(w, actions[0]), actions[1..]);
    }
  }

  /** So when the schema is enforced, a status that says synced is only ever stored for a revision without
      manifests. */
  lemma {:induction false} EnforcedSyncedIsEmpty(w: World, actions: seq<Action>, i: nat)
    requires Initial(w) && ConditionOk(w.Current()) && IsRun(w, actions) && SchemaEnforced(w, actions)
    requires i < |After(w, actions).stored| && After(w, actions).stored[i].sync == Synced
    ensures w.repo(After(w, actions).stored[i].revision) == []
  {
    hide IsRun, After, SchemaEnforced, InSchema, ConditionOk;
    InitialOk(w);
    EnforcedClaims(w, actions);
    SyncedInSchemaIff(w, actions, i);
  }

  // ---------------------------------------------------------------- revision history

  /** What may become of the history between two versions: it loses its oldest entries at most, and only
      a status that says synced loses any. */
  ghost predicate Follows(next: AppStatus, previous: AppStatus) {
    && IsSuffix(next.previousRevisions, previous.previousRevisions)
    && (next.sync != Synced ==> next.previousRevisions == previous.previousRevisions)
  }

  /** Each stored history follows the one stored before it, and a copy has the history it was read with. */
  ghost predicate HistoryShrinks(w: World) {
    && (forall i :: 0 < i < |w.stored| ==> Follows(w.stored[i], w.stored[i - 1]))
    && (!w.phase.Idle? ==>
          && w.phase.app.version < |w.stored|
          && w.phase.app.status.previousRevisions == w.stored[w.phase.app.version].previousRevisions
          && w.phase.app.status.lastSyncAt == w.stored[w.phase.app.version].lastSyncAt)
  }

  /** Recording a success trims a full history and adds nothing: the status was given the new revision
      before the two were compared. */
  lemma SuccessOnlyTrims(w: World, probe: Probe, io: Io)
    requires PhaseOk(w) && w.phase.ApplyDone?
    ensures var s := w.phase.app.status;
            Succeeded(s, w.phase.revision, probe, w.phase.resources, io.now).previousRevisions
            == if |s.previousRevisions| >= HISTORY_LIMIT then s.previousRevisions[1..] else s.previousRevisions
  {
  }

  lemma WritesShrinkHistory(w: World, app: App, io: Io)
    requires app.version < |w.stored|
    requires forall i :: 0 < i < |w.stored| ==> Follows(w.stored[i], w.stored[i - 1])
    requires Follows(app.status, w.stored[app.version])
    ensures var w' := Write(w, app, io); forall i :: 0 < i < |w'.stored| ==> Follows(w'.stored[i], w'.stored[i - 1])
  {
    hide Follows;
    var w' := Write(w, app, io);
    forall i | 0 < i < |w'.stored| ensures Follows(w'.stored[i], w'.stored[i - 1]) {
      if i < |w.stored| {
        assert w'.stored[i] == w.stored[i] && w'.stored[i - 1] == w.stored[i - 1];
      } else {
        assert w'.stored[i] == app.status && w'.stored[i - 1] == w.stored[app.version];
      }
    }
  }

  lemma StopKeepsHistory(w: World, status: AppStatus, io: Io)
    requires !w.phase.Idle? && HistoryShrinks(w)
    requires Follows(status, w.phase.app.status)
    ensures HistoryShrinks(WriteAndStop(w, w.phase.app, status, io))
  {
    WritesShrinkHistory(w, w.phase.app.(status := status), io);
  }

  lemma DecideKeepsHistory(w: World, probe: Probe, io: Io)
    requires HistoryShrinks(w) && Enabled(w, Decide(probe, io))
    ensures HistoryShrinks(Do(w, Decide(probe, io)))
  {
    hide WithSyncError, ResourceStatuses;
    var p := w.phase;
    var s := p.app.status;
    if AlreadySynced(s, p.revision) {
      StopKeepsHistory(w, HealthChecked(s, probe, p.resources), io);
    } else if !ShouldSync(p.app.policy, s) {
      StopKeepsHistory(w, Reported(s, OutOfSync, HealthUnknown, p.revision, p.resources, None, io.now), io);
    } else {
      var syncing := Reported(s, Syncing, Progressing, p.revision, p.resources, None, io.now);
      WritesShrinkHistory(w, p.app.(status := syncing), io);
    }
  }

  lemma StepKeepsHistory(w: World, a: Action)
    requires PhaseOk(w) && HistoryShrinks(w) && Enabled(w, a)
    ensures HistoryShrinks(Do(w, a))
  {
    hide JustApplied, Started, WithSyncError, ResourceStatuses, WriteAndStop, DecideStep;
    var p := w.phase;
    match a
    case CloneFails(err, io) =>
      StopKeepsHistory(w, Reported(p.app.status, SyncUnknown, HealthUnknown, "", [], Some(err), io.now), io);
    case ParseFails(err, io) =>
      StopKeepsHistory(w, Reported(p.app.status, OutOfSync, HealthUnknown, p.revision, [], Some(err), io.now), io);
    case Decide(probe, io) => DecideKeepsHistory(w, probe, io);
    case ReportFailure(io) =>
      StopKeepsHistory(
        w, Reported(p.app.status, OutOfSync, Degraded, p.revision, p.resources, Some(p.message), io.now), io);
    case ReportSuccess(probe, io) =>
      SuccessOnlyTrims(w, probe, io);
      StopKeepsHistory(w, Succeeded(p.app.status, p.revision, probe, p.resources, io.now), io);
    case _ => { hide Follows; }
  }

  lemma {:induction false} RunKeepsHistory(w: World, actions: seq<Action>)
    requires PhaseOk(w) && HistoryShrinks(w) && IsRun(w, actions)
    ensures HistoryShrinks(After(w, actions))
    decreases |actions|
  {
    if actions != [] {
      StepKeepsPhase(w, actions[0]);
      StepKeepsHistory(w, actions[0]);
      RunKeepsHistory(Do(w, actions[0]), actions[1..]);
    }
  }

  lemma {:induction false} ShrinksTransitively(w: World, i: nat, j: nat)
    requires HistoryShrinks(w) && i <= j < |w.stored|
    ensures IsSuffix(w.stored[j].previousRevisions, w.stored[i].previousRevisions)
    decreases j - i
  {
    if i < j {
      ShrinksTransitively(w, i, j - 1);
      SuffixTransitive(w.stored[j].previousRevisions, w.stored[j - 1].previousRevisions, w.stored[i].previousRevisions);
    }
  }

  /** The revision history never grows in any run: every later one is a suffix of every earlier one, so
      an application that starts without history never gets any. */
  lemma {:induction false} HistoryNeverGrows(w: World, actions: seq<Action>, i: nat, j: nat)
    requires Initial(w) && IsRun(w, actions)
    requires i <= j < |After(w, actions).stored|
    ensures IsSuffix(After(w, actions).stored[j].previousRevisions, After(w, actions).stored[i].previousRevisions)
    ensures w.Current().previousRevisions == [] ==> After(w, actions).stored[j].previousRevisions == []
  {
    InitialOk(w);
    RunKeepsHistory(w, actions);
    ShrinksTransitively(After(w, actions), i, j);
    ShrinksTransitively(After(w, actions), 0, j);
    FirstVersionStays(w, actions);
  }

  lemma {:induction false} FirstVersionStays(w: World, actions: seq<Action>)
    requires IsRun(w, actions)
    ensures After(w, actions).stored[0] == w.stored[0]
    decreases |actions|
  {
    if actions != [] {
      FirstVersionStays(Do(w, actions[0]), actions[1..]);
    }
  }

  // ---------------------------------------------------------------- what a write tells

  /** In every run, a stored write that says synced tells what the probe said of the manifests at its
      revision; and the time of the last sync is that of the last stored success. */
  lemma {:induction false} WritesTell(w: World, actions: seq<Action>, a: Action)
    requires Initial(w) && IsRun(w, actions) && Enabled(After(w, actions), a)
    requires Do(After(w, actions), a).stored != After(w, actions).stored
    ensures var v := After(w, actions);
            var s := Do(v, a).Current();
            && (s.sync == Synced ==>
                  (a.ReportSuccess? || a.Decide?) && ChecksOut(s.health, s.resources, a.probe, w.repo(s.revision)))
            && s.lastSyncAt == if a.ReportSuccess? then Some(a.io.now) else v.Current().lastSyncAt
  {
    hide IsRun, After, HistoryShrinks, PhaseOk, Do, Enabled;
    InitialOk(w);
    InitialShrinks(w);
    RunKeepsBacked(w, actions);
    RunKeepsHistory(w, actions);
    RepoNeverChanges(w, actions);
    WriteTells(After(w, actions), a);
  }

  lemma WriteTells(v: World, a: Action)
    requires PhaseOk(v) && HistoryShrinks(v) && Enabled(v, a) && Do(v, a).stored != v.stored
    ensures var s := Do(v, a).Current();
            && (s.sync == Synced ==>
                  (a.ReportSuccess? || a.Decide?) && ChecksOut(s.health, s.resources, a.probe, v.repo(s.revision)))
            && s.lastSyncAt == if a.ReportSuccess? then Some(a.io.now) else v.Current().lastSyncAt
  {
    hide ChecksOut, Follows, JustApplied, Started, WithSyncError, ResourceStatuses, Worst, StatusesOf;
    if a.ReportSuccess? || a.Decide? {
      CheckChecksOut(a.probe, v.phase.resources);
    }
  }

  // ---------------------------------------------------------------- the promised history

  /** The latest stored version that says synced: what the application was last synced to. */
  ghost predicate LastSynced(stored: Versions, i: nat) {
    && i < |stored| && stored[i].sync == Synced
    && forall j :: i < j < |stored| ==> stored[j].sync != Synced
  }

  lemma {:induction false} SameHistorySince(w: World, i: nat, j: nat)
    requires HistoryShrinks(w) && LastSynced(w.stored, i) && i <= j < |w.stored|
    ensures w.stored[j].previousRevisions == w.stored[i].previousRevisions
    decreases j - i
  {
    if i < j {
      SameHistorySince(w, i, j - 1);
    }
  }

  lemma SuccessKeepsPromiseIff(v: World, i: nat, probe: Probe, io: Io)
    requires PhaseOk(v) && HistoryShrinks(v)
    requires v.phase.ApplyDone? && Accepted(v, v.phase.app, io) && LastSynced(v.stored, i)
    ensures Do(v, ReportSuccess(probe, io)).Current().previousRevisions
              == TrimThenAppend(v.stored[i].previousRevisions, v.stored[i].revision, v.phase.revision)
            <==> v.stored[i].revision == "" || v.stored[i].revision == v.phase.revision
  {
    SameHistorySince(v, i, |v.stored| - 1);
    SuccessOnlyTrims(v, probe, io);
    hide PhaseOk, Follows, LastSynced, StatusesOf, Worst;
  }

  /** The documented promise is that a successful sync records the revision that was synced before it. In
      every run, whatever was written in between, a success keeps it if and only if that revision is
      empty or the very one just synced. */
  lemma {:induction false} HistoryPromiseKeptIff(w: World, actions: seq<Action>, i: nat, probe: Probe, io: Io)
    requires Initial(w) && IsRun(w, actions)
    requires After(w, actions).phase.ApplyDone? && Accepted(After(w, actions), After(w, actions).phase.app, io)
    requires LastSynced(After(w, actions).stored, i)
    ensures var v := After(w, actions);
            Do(v, ReportSuccess(probe, io)).Current().previousRevisions
              == TrimThenAppend(v.stored[i].previousRevisions, v.stored[i].revision, v.phase.revision)
            <==> v.stored[i].revision == "" || v.stored[i].revision == v.phase.revision
  {
    hide IsRun, After, Do, LastSynced, HistoryShrinks, PhaseOk, Backed;
    InitialOk(w);
    InitialShrinks(w);
    RunKeepsBacked(w, actions);
    RunKeepsHistory(w, actions);
    SuccessKeepsPromiseIff(After(w, actions), i, probe, io);
  }

  lemma InitialShrinks(w: World)
    requires Initial(w)
    ensures HistoryShrinks(w)
  {
  }
}
