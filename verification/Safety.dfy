/** What every run keeps: a stored claim to be synced is backed by a completed apply, and how far that
    apply is still the latest thing that happened to the cluster. */
module Safety {
  import opened Status
  import opened Manifest
  import opened Health
  import opened Applier
  import opened Controller

  // ---------------------------------------------------------------- traces in the log

  /** One faultless call of Apply, from its beginning to its return. */
  function FullApply(revision: string, resources: seq<Resource>, prune: bool): seq<Event> {
    [Begun(revision)] + FullEffects(resources, prune) + [Completed(revision)]
  }

  ghost predicate StandsAt(block: seq<Event>, log: seq<Event>, i: int) {
    0 <= i && i + |block| <= |log| && log[i..i + |block|] == block
  }

  /** At some point the manifests at `revision` were applied, all of them, in order, without error. */
  ghost predicate WasApplied(repo: string -> seq<Resource>, log: seq<Event>, revision: string) {
    exists prune, i :: StandsAt(FullApply(revision, repo(revision), prune), log, i)
  }

  /** ... and the cluster has seen nothing since. */
  ghost predicate JustApplied(repo: string -> seq<Resource>, log: seq<Event>, revision: string) {
    exists prune :: IsSuffix(FullApply(revision, repo(revision), prune), log)
  }

  lemma WasAppliedStays(repo: string -> seq<Resource>, log: seq<Event>, more: seq<Event>, revision: string)
    requires WasApplied(repo, log, revision)
    ensures WasApplied(repo, log + more, revision)
  {
    var prune, i :| StandsAt(FullApply(revision, repo(revision), prune), log, i);
    var block := FullApply(revision, repo(revision), prune);
    assert (log + more)[i..i + |block|] == log[i..i + |block|];
    assert StandsAt(block, log + more, i);
  }

  lemma JustAppliedWasApplied(repo: string -> seq<Resource>, log: seq<Event>, revision: string)
    requires JustApplied(repo, log, revision)
    ensures WasApplied(repo, log, revision)
  {
    var prune :| IsSuffix(FullApply(revision, repo(revision), prune), log);
    var block := FullApply(revision, repo(revision), prune);
    assert StandsAt(block, log, |log| - |block|);
  }

  predicate EndsInCompletion(log: seq<Event>) {
    log != [] && log[|log| - 1].Completed?
  }

  lemma JustAppliedEndsInCompletion(repo: string -> seq<Resource>, log: seq<Event>, revision: string)
    requires JustApplied(repo, log, revision)
    ensures EndsInCompletion(log)
  {
    var prune :| IsSuffix(FullApply(revision, repo(revision), prune), log);
    var block := FullApply(revision, repo(revision), prune);
    assert block[|block| - 1] == Completed(revision);
    assert log[|log| - |block|..][|block| - 1] == log[|log| - 1];
  }

  lemma SuffixGrows(tail: seq<Event>, log: seq<Event>, more: seq<Event>)
    requires IsSuffix(tail, log)
    ensures IsSuffix(tail + more, log + more)
  {
    assert (log + more)[|log| - |tail|..] == log[|log| - |tail|..] + more;
  }

  // ---------------------------------------------------------------- what each phase knows

  ghost predicate Copied(w: World, app: App) {
    app.version < |w.stored| && app.status == w.stored[app.version]
  }

  ghost predicate MarkedSyncing(w: World, app: App, revision: string, resources: seq<Resource>) {
    app.status.sync == Syncing && app.status.revision == revision && resources == w.repo(revision)
  }

  function Started(revision: string, resources: seq<Resource>, done: nat): seq<Event>
    requires done <= |resources|
  {
    [Begun(revision)] + AppliedUpTo(resources, done)
  }

  ghost predicate PhaseOk(w: World) {
    match w.phase
    case Idle => true
    case Fetched(app) => Copied(w, app)
    case Cloned(app, _) => Copied(w, app)
    case Parsed(app, revision, resources) => Copied(w, app) && resources == w.repo(revision)
    case Announced(app, revision, resources) => MarkedSyncing(w, app, revision, resources)
    case Applying(app, revision, resources, done) =>
      && MarkedSyncing(w, app, revision, resources)
      && done <= |resources|
      && IsSuffix(Started(revision, resources, done), w.log)
    case ApplyError(app, revision, resources, _) =>
      MarkedSyncing(w, app, revision, resources) && w.log != [] && !EndsInCompletion(w.log)
    case ApplyDone(app, revision, resources) =>
      MarkedSyncing(w, app, revision, resources) && JustApplied(w.repo, w.log, revision)
  }

  ghost predicate Backed(w: World) {
    forall i :: 0 <= i < |w.stored| && w.stored[i].sync == Synced ==> WasApplied(w.repo, w.log, w.stored[i].revision)
  }

  lemma StartedOneMore(revision: string, resources: seq<Resource>, done: nat)
    requires done < |resources|
    ensures Started(revision, resources, done + 1) == Started(revision, resources, done) + [Applied(resources[done])]
  {
    assert AppliedUpTo(resources, done + 1) == AppliedUpTo(resources, done) + [Applied(resources[done])];
  }

  lemma StartedAll(revision: string, resources: seq<Resource>, prune: bool)
    ensures FullApply(revision, resources, prune)
            == Started(revision, resources, |resources|)
               + ((if prune then [Pruned(resources)] else []) + [Completed(revision)])
  {
  }

  lemma ApplyNextKeepsPhase(w: World, answer: Option<string>)
    requires PhaseOk(w) && Enabled(w, ApplyNext(answer))
    ensures PhaseOk(Do(w, ApplyNext(answer)))
  {
    var p := w.phase;
    if answer.None? {
      hide IsSuffix, AppliedUpTo, Started;
      StartedOneMore(p.revision, p.resources, p.done);
      SuffixGrows(Started(p.revision, p.resources, p.done), w.log, [Applied(p.resources[p.done])]);
    } else {
      hide IsSuffix, AppliedUpTo, Started, ApplyMessage;
    }
  }

  lemma EndApplyKeepsPhase(w: World, answer: Option<string>)
    requires PhaseOk(w) && Enabled(w, EndApply(answer))
    ensures PhaseOk(Do(w, EndApply(answer)))
  {
    hide FullApply, AppliedUpTo;
    var p, w' := w.phase, Do(w, EndApply(answer));
    if w'.phase.ApplyDone? {
      var prune := Prunes(p.app.policy);
      var more := (if prune then [Pruned(p.resources)] else []) + [Completed(p.revision)];
      assert w'.log == w.log + more;
      SuffixGrows(Started(p.revision, p.resources, |p.resources|), w.log, more);
      StartedAll(p.revision, p.resources, prune);
      assert IsSuffix(FullApply(p.revision, w.repo(p.revision), prune), w'.log);
    }
  }

  lemma BeginApplyKeepsPhase(w: World)
    requires PhaseOk(w) && Enabled(w, BeginApply)
    ensures PhaseOk(Do(w, BeginApply))
  {
    var p, w' := w.phase, Do(w, BeginApply);
    assert Started(p.revision, p.resources, 0) == [Begun(p.revision)];
    assert w'.log[|w'.log| - 1..] == [Begun(p.revision)];
  }

  lemma StepKeepsPhase(w: World, a: Action)
    requires PhaseOk(w) && Enabled(w, a)
    ensures PhaseOk(Do(w, a))
  {
    match a
    case ApplyNext(answer) => ApplyNextKeepsPhase(w, answer);
    case EndApply(answer) => EndApplyKeepsPhase(w, answer);
    case BeginApply => BeginApplyKeepsPhase(w);
    case _ => { hide IsSuffix, JustApplied, Started; }
  }

  // ---------------------------------------------------------------- safety when writes may be lost

  lemma LogOnlyGrows(w: World, a: Action) returns (more: seq<Event>)
    requires Enabled(w, a)
    ensures Do(w, a).log == w.log + more
    ensures Do(w, a).repo == w.repo
  {
    more := Do(w, a).log[|w.log|..];
  }

  /** The one step that can add a claim to be synced writes down the apply that has just completed, or
      renews a claim already stored. */
  lemma NewClaim(w: World, a: Action)
    requires PhaseOk(w) && Enabled(w, a)
    ensures Do(w, a).stored == w.stored || Do(w, a).stored == w.stored + [Do(w, a).Current()]
    ensures Do(w, a).stored != w.stored && Do(w, a).Current().sync == Synced ==>
            || (w.phase.ApplyDone? && Do(w, a).Current().revision == w.phase.revision && Do(w, a).log == w.log)
            || (w.Current().sync == Synced && Do(w, a).Current().revision == w.Current().revision)
  {
    hide IsSuffix, JustApplied, Started, Worst, StatusesOf, WithSyncError, ResourceStatuses, TrimThenAppend;
    match a
    case Decide(_, _) => {}
    case ReportSuccess(_, _) => {}
    case _ => {}
  }

  lemma StepKeepsBacked(w: World, a: Action)
    requires PhaseOk(w) && Backed(w) && Enabled(w, a)
    ensures Backed(Do(w, a))
  {
    hide WasApplied, JustApplied, IsSuffix, Started;
    var w' := Do(w, a);
    var more := LogOnlyGrows(w, a);
    NewClaim(w, a);
    forall i | 0 <= i < |w'.stored| && w'.stored[i].sync == Synced
      ensures WasApplied(w'.repo, w'.log, w'.stored[i].revision)
    {
      if i < |w.stored| {
        assert w'.stored[i] == w.stored[i];
        WasAppliedStays(w.repo, w.log, more, w.stored[i].revision);
      } else if w.phase.ApplyDone? && w'.log == w.log && w'.Current().revision == w.phase.revision {
        JustAppliedWasApplied(w.repo, w.log, w.phase.revision);
      } else {
        WasAppliedStays(w.repo, w.log, more, w.Current().revision);
      }
    }
  }

  lemma InitialOk(w: World)
    requires Initial(w)
    ensures PhaseOk(w) && Backed(w) && CurrentIsLatest(w)
  {
  }

  lemma {:induction false} RunKeepsBacked(w: World, actions: seq<Action>)
    requires PhaseOk(w) && Backed(w) && IsRun(w, actions)
    ensures PhaseOk(After(w, actions)) && Backed(After(w, actions))
    decreases |actions|
  {
    if actions != [] {
      StepKeepsPhase(w, actions[0]);
      StepKeepsBacked(w, actions[0]);
      RunKeepsBacked(Do(w, actions[0]), actions[1..]);
    }
  }

  /** Whatever fails, whichever writes are lost, however stale the copies read and wherever the operator
      crashes: every status ever stored as synced at a revision has a completed apply of exactly the
      manifests at that revision behind it. */
  lemma {:induction false} SyncedWasApplied(w: World, actions: seq<Action>, i: nat)
    requires Initial(w) && IsRun(w, actions)
    requires i < |After(w, actions).stored| && After(w, actions).stored[i].sync == Synced
    ensures WasApplied(w.repo, After(w, actions).log, After(w, actions).stored[i].revision)
  {
    InitialOk(w);
    RunKeepsBacked(w, actions);
    RepoNeverChanges(w, actions);
  }

  lemma {:induction false} RepoNeverChanges(w: World, actions: seq<Action>)
    requires IsRun(w, actions)
    ensures After(w, actions).repo == w.repo
    decreases |actions|
  {
    if actions != [] {
      var _ := LogOnlyGrows(w, actions[0]);
      RepoNeverChanges(Do(w, actions[0]), actions[1..]);
    }
  }

  // ---------------------------------------------------------------- safety across crashes

  /** When the stored status says synced at a revision, the most recent apply to begin was for that
      revision, it ran to completion, and nothing has touched the cluster since. */
  ghost predicate CurrentIsLatest(w: World) {
    w.Current().sync == Synced ==> JustApplied(w.repo, w.log, w.Current().revision)
  }

  /** The step begins an apply while the stored status still says synced: the Syncing status that
      should have replaced it was lost or refused. */
  predicate BeginsOverSynced(w: World, a: Action) {
    a.BeginApply? && w.Current().sync == Synced
  }

  lemma BeginBreaksCompletion(w: World)
    requires Enabled(w, BeginApply)
    ensures forall revision :: !JustApplied(w.repo, Do(w, BeginApply).log, revision)
  {
    var log := Do(w, BeginApply).log;
    forall revision ensures !JustApplied(w.repo, log, revision) {
      if JustApplied(w.repo, log, revision) {
        JustAppliedEndsInCompletion(w.repo, log, revision);
      }
    }
  }

  lemma BusyEndsOtherwise(w: World)
    requires PhaseOk(w) && (w.phase.Applying? || w.phase.ApplyError?)
    ensures !EndsInCompletion(w.log)
  {
    if w.phase.Applying? {
      var p := w.phase;
      var started := Started(p.revision, p.resources, p.done);
      assert w.log[|w.log| - |started|..][|started| - 1] == w.log[|w.log| - 1];
    }
  }

  /** Exactly when a step loses the property: it begins an apply over a stored claim to be synced. */
  lemma StepKeepsLatestIff(w: World, a: Action)
    requires PhaseOk(w) && CurrentIsLatest(w) && Enabled(w, a)
    ensures CurrentIsLatest(Do(w, a)) <==> !BeginsOverSynced(w, a)
  {
    hide JustApplied, IsSuffix, Started;
    var w' := Do(w, a);
    NewClaim(w, a);
    if a.BeginApply? {
      BeginBreaksCompletion(w);
    } else if w.phase.Applying? || w.phase.ApplyError? {
      BusyEndsOtherwise(w);
      if w.Current().sync == Synced {
        JustAppliedEndsInCompletion(w.repo, w.log, w.Current().revision);
      }
    }
  }

  /** The property holds at every point of the run. */
  ghost predicate AlwaysLatest(w: World, actions: seq<Action>)
    requires IsRun(w, actions)
    decreases |actions|
  {
    CurrentIsLatest(w) && (actions != [] ==> AlwaysLatest(Do(w, actions[0]), actions[1..]))
  }

  predicate NeverBeginsOverSynced(w: World, actions: seq<Action>)
    requires IsRun(w, actions)
    decreases |actions|
  {
    actions != [] ==> !BeginsOverSynced(w, actions[0]) && NeverBeginsOverSynced(Do(w, actions[0]), actions[1..])
  }

  lemma {:induction false} AlwaysLatestIff(w: World, actions: seq<Action>)
    requires PhaseOk(w) && CurrentIsLatest(w) && IsRun(w, actions)
    ensures AlwaysLatest(w, actions) <==> NeverBeginsOverSynced(w, actions)
    decreases |actions|
  {
    hide CurrentIsLatest, PhaseOk, BeginsOverSynced;
    if actions != [] {
      StepKeepsPhase(w, actions[0]);
      StepKeepsLatestIff(w, actions[0]);
      if !BeginsOverSynced(w, actions[0]) {
        AlwaysLatestIff(Do(w, actions[0]), actions[1..]);
      }
    }
  }

  /** Over whole runs, with any failures, lost writes and crashes: the stored status always describes
      the latest apply if and only if no apply ever begins over a stored claim to be synced. */
  lemma {:induction false} CrashSafetyExactly(w: World, actions: seq<Action>)
    requires Initial(w) && IsRun(w, actions)
    ensures AlwaysLatest(w, actions) <==> NeverBeginsOverSynced(w, actions)
  {
    InitialOk(w);
    AlwaysLatestIff(w, actions);
  }

  // ---------------------------------------------------------------- announced syncs

  /** The step decides to sync, so it writes the Syncing status. */
  predicate Announces(w: World, a: Action) {
    && a.Decide? && w.phase.Parsed?
    && !AlreadySynced(w.phase.app.status, w.phase.revision)
    && ShouldSync(w.phase.app.policy, w.phase.app.status)
  }

  /** Every Syncing status that is written is stored. Any other write may be lost, any read may be stale,
      anything may fail, and the operator may crash anywhere. */
  predicate SyncsAnnounced(w: World, actions: seq<Action>)
    requires IsRun(w, actions)
    decreases |actions|
  {
    actions != [] ==>
      && (Announces(w, actions[0]) ==> Accepted(w, w.phase.app, actions[0].io))
      && SyncsAnnounced(Do(w, actions[0]), actions[1..])
  }

  ghost predicate AnnouncedOverNothing(w: World) {
    w.phase.Announced? ==> w.Current().sync != Synced
  }

  lemma AnnouncedStep(w: World, a: Action)
    requires AnnouncedOverNothing(w) && Enabled(w, a)
    requires Announces(w, a) ==> Accepted(w, w.phase.app, a.io)
    ensures AnnouncedOverNothing(Do(w, a)) && !BeginsOverSynced(w, a)
  {
  }

  lemma {:induction false} AnnouncedRunNeverBeginsOverSynced(w: World, actions: seq<Action>)
    requires AnnouncedOverNothing(w) && IsRun(w, actions) && SyncsAnnounced(w, actions)
    ensures NeverBeginsOverSynced(w, actions)
    decreases |actions|
  {
    hide AnnouncedOverNothing, BeginsOverSynced, Announces;
    if actions != [] {
      AnnouncedStep(w, actions[0]);
      AnnouncedRunNeverBeginsOverSynced(Do(w, actions[0]), actions[1..]);
    }
  }

  /** Crash safety: if only every Syncing status is stored, then at every point of every run, crashes
      included, a stored `Synced` at a revision means that the latest apply to begin was for it and ran
      to completion. */
  lemma {:induction false} CrashSafety(w: World, actions: seq<Action>)
    requires Initial(w) && IsRun(w, actions) && SyncsAnnounced(w, actions)
    ensures AlwaysLatest(w, actions)
  {
    InitialOk(w);
    AnnouncedRunNeverBeginsOverSynced(w, actions);
    CrashSafetyExactly(w, actions);
  }

  /** The write lands and is acknowledged, the read is current. */
  predicate Reliable(w: World, a: Action) {
    match a
    case Get(version, _) => version == |w.stored| - 1
    case CloneFails(_, io) => io.lands && io.acked
    case ParseFails(_, io) => io.lands && io.acked
    case Decide(_, io) => io.lands && io.acked
    case ReportFailure(io) => io.lands && io.acked
    case ReportSuccess(_, io) => io.lands && io.acked
    case _ => true
  }

  predicate ReliableRun(w: World, actions: seq<Action>)
    requires IsRun(w, actions)
    decreases |actions|
  {
    actions != [] ==> Reliable(w, actions[0]) && ReliableRun(Do(w, actions[0]), actions[1..])
  }

  ghost predicate CopyIsCurrent(w: World) {
    w.phase.Idle? || w.phase.app.version == |w.stored| - 1
  }

  lemma ReliableStep(w: World, a: Action)
    requires CopyIsCurrent(w) && Enabled(w, a) && Reliable(w, a)
    ensures CopyIsCurrent(Do(w, a))
    ensures Announces(w, a) ==> Accepted(w, w.phase.app, a.io)
  {
  }

  /** When every write lands and every read is current, every sync is announced, however often the
      operator crashes. */
  lemma {:induction false} ReliableRunIsAnnounced(w: World, actions: seq<Action>)
    requires CopyIsCurrent(w) && IsRun(w, actions) && ReliableRun(w, actions)
    ensures SyncsAnnounced(w, actions)
    decreases |actions|
  {
    hide CopyIsCurrent, Reliable, Announces;
    if actions != [] {
      ReliableStep(w, actions[0]);
      ReliableRunIsAnnounced(Do(w, actions[0]), actions[1..]);
    }
  }

  // ---------------------------------------------------------------- what a lost write costs

  lemma {:induction false} Prepend(w: World, a: Action, rest: seq<Action>)
    requires Enabled(w, a) && IsRun(Do(w, a), rest)
    ensures IsRun(w, [a] + rest)
    ensures BeginsOverSynced(w, a) || !NeverBeginsOverSynced(Do(w, a), rest) ==> !NeverBeginsOverSynced(w, [a] + rest)
  {
    assert ([a] + rest)[1..] == rest;
  }

  /** One lost write is enough, from any state at rest that claims to be synced: a new revision is
      pushed, an automated run picks it up, its Syncing status is lost, and its apply begins while the
      stored status still claims the old revision. */
  lemma LostWriteBreaksCrashSafety(w: World, revision: string, probe: Probe, now: int) returns (actions: seq<Action>)
    requires PhaseOk(w) && CurrentIsLatest(w) && w.phase.Idle?
    requires w.Current().sync == Synced && revision != w.Current().revision
    ensures IsRun(w, actions) && !AlwaysLatest(w, actions)
  {
    hide PhaseOk, CurrentIsLatest, Reported, JustApplied;
    var automated, lost := Some(SyncPolicy(true, false, false)), Io(false, false, now);
    var moved := Do(w, MoveHead(revision));
    var fetched := Do(moved, Get(|w.stored| - 1, automated));
    var cloned := Do(fetched, CloneSucceeds);
    var parsed := Do(cloned, ParseSucceeds);
    var announced := Do(parsed, Decide(probe, lost));
    assert announced.phase.Announced? && announced.stored == w.stored;
    Prepend(announced, BeginApply, []);
    actions := [BeginApply] + [];
    Prepend(parsed, Decide(probe, lost), actions);
    actions := [Decide(probe, lost)] + actions;
    Prepend(cloned, ParseSucceeds, actions);
    actions := [ParseSucceeds] + actions;
    Prepend(fetched, CloneSucceeds, actions);
    actions := [CloneSucceeds] + actions;
    Prepend(moved, Get(|w.stored| - 1, automated), actions);
    actions := [Get(|w.stored| - 1, automated)] + actions;
    Prepend(w, MoveHead(revision), actions);
    actions := [MoveHead(revision)] + actions;
    AlwaysLatestIff(w, actions);
  }
}
