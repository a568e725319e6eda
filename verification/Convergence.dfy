/** Faultless reconciles drive an application to its branch head in at most two runs, apply the
    manifests there exactly once, and then leave the cluster alone. */
module Convergence {
  import opened Status
  import opened Manifest
  import opened Health
  import opened Applier
  import opened Controller
  import opened Safety
  import opened Bookkeeping

  // ---------------------------------------------------------------- the apply phase in one step

  /** Where a call of Apply that starts at resource `done` leaves the machine. */
  function ApplyResult(w: World, answers: Answers): World
    requires w.phase.Applying? && w.phase.done <= |w.phase.resources|
  {
    var p := w.phase;
    var outcome := Attempt(p.resources, p.done, Prunes(p.app.policy), answers);
    if outcome.error.None? then
      w.(log := w.log + outcome.events + [Completed(p.revision)], phase := ApplyDone(p.app, p.revision, p.resources))
    else
      w.(log := w.log + outcome.events, phase := ApplyError(p.app, p.revision, p.resources, outcome.error.value))
  }

  lemma ApplyResultOneMore(w: World, o: Outcomes)
    requires w.phase.Applying? && w.phase.done < |w.phase.resources| && o.answers.apply(w.phase.done).None?
    ensures Next(w, o).phase == w.phase.(done := w.phase.done + 1)
    ensures Next(w, o).log == w.log + [Applied(w.phase.resources[w.phase.done])]
    ensures ApplyResult(Next(w, o), o.answers) == ApplyResult(w, o.answers)
  {
    var p := w.phase;
    var rest := Attempt(p.resources, p.done + 1, Prunes(p.app.policy), o.answers).events;
    assert w.log + ([Applied(p.resources[p.done])] + rest) == (w.log + [Applied(p.resources[p.done])]) + rest;
  }

  lemma ApplyResultAtEnd(w: World, o: Outcomes)
    requires w.phase.Applying? && w.phase.done <= |w.phase.resources|
    requires w.phase.done == |w.phase.resources| || o.answers.apply(w.phase.done).Some?
    ensures Next(w, o) == ApplyResult(w, o.answers)
  {
    var p := w.phase;
    assert w.log + [] == w.log;
    assert w.log + [Pruned(p.resources), Completed(p.revision)]
        == w.log + [Pruned(p.resources)] + [Completed(p.revision)];
  }

  lemma {:induction false} CompleteApply(w: World, o: Outcomes)
    requires w.phase.Applying? && w.phase.done <= |w.phase.resources|
    ensures Complete(w, o) == Complete(ApplyResult(w, o.answers), o)
    decreases |w.phase.resources| - w.phase.done
  {
    hide ApplyResult, Next, Attempt;
    if w.phase.done < |w.phase.resources| && o.answers.apply(w.phase.done).None? {
      ApplyResultOneMore(w, o);
      CompleteApply(Next(w, o), o);
    } else {
      ApplyResultAtEnd(w, o);
    }
  }

  lemma {:induction false} CompleteReport(w: World, o: Outcomes)
    requires w.phase.ApplyDone? || w.phase.ApplyError?
    ensures Complete(w, o) == Next(w, o)
  {
    hide Reported, Succeeded;
  }

  function ReportedStatus(p: Phase, outcome: Outcome, o: Outcomes): AppStatus
    requires p.Announced?
  {
    if outcome.error.None? then Succeeded(p.app.status, p.revision, o.probe, p.resources, o.last.now)
    else Reported(p.app.status, OutOfSync, Degraded, p.revision, p.resources, outcome.error, o.last.now)
  }

  /** The report of a call of Apply that began in phase `p` and left `logged` behind. */
  function Report(logged: World, p: Phase, outcome: Outcome, o: Outcomes): World
    requires p.Announced?
  {
    WriteAndStop(logged, p.app, ReportedStatus(p, outcome, o), o.last)
  }

  lemma ReportOfResult(w: World, logged: World, o: Outcomes)
    requires w.phase.Announced?
    requires var p := w.phase;
             logged == w.(log := w.log + ApplyLog(p.revision, p.resources, Prunes(p.app.policy), o.answers))
    ensures Next(ApplyResult(Next(w, o), o.answers), o)
            == Report(logged, w.phase, Attempt(w.phase.resources, 0, Prunes(w.phase.app.policy), o.answers), o)
  {
    hide Attempt, Reported, Succeeded;
    var p := w.phase;
    var outcome := Attempt(p.resources, 0, Prunes(p.app.policy), o.answers);
    var mark := if outcome.error.None? then [Completed(p.revision)] else [];
    ApplyLogParts(w.log, p.revision, outcome.events, mark);
    var applied := ApplyResult(Next(w, o), o.answers);
    assert outcome.error.Some? ==> (w.log + [Begun(p.revision)]) + outcome.events + mark == applied.log;
    assert applied.log == logged.log;
  }

  /** From the Syncing status on, a run logs one call of Apply and reports how it went. */
  lemma {:induction false} CompleteFromAnnounced(w: World, o: Outcomes)
    requires w.phase.Announced?
    ensures var p := w.phase;
            var logged := w.(log := w.log + ApplyLog(p.revision, p.resources, Prunes(p.app.policy), o.answers));
            Complete(w, o) == Report(logged, p, Attempt(p.resources, 0, Prunes(p.app.policy), o.answers), o)
  {
    hide Attempt, ApplyLog, Report;
    var p := w.phase;
    var logged := w.(log := w.log + ApplyLog(p.revision, p.resources, Prunes(p.app.policy), o.answers));
    ReportOfResult(w, logged, o);
    CompleteApply(Next(w, o), o);
    CompleteReport(ApplyResult(Next(w, o), o.answers), o);
  }

  lemma EffectsOfApplyNext(w: World, o: Outcomes)
    requires w.phase.Applying? && w.phase.done < |w.phase.resources| && o.answers.apply(w.phase.done).None?
    ensures EffectsOf(w, NextAction(w.phase, o)) == Saws([Applied(w.phase.resources[w.phase.done])])
  {
    assert Wrotes([]) == [];
  }

  lemma EffectsOfApplyEnd(w: World, o: Outcomes)
    requires w.phase.Applying? && w.phase.done <= |w.phase.resources|
    requires w.phase.done == |w.phase.resources| || o.answers.apply(w.phase.done).Some?
    ensures EffectsOf(w, NextAction(w.phase, o)) == Saws(ApplyResult(w, o.answers).log[|w.log|..])
  {
    ApplyResultAtEnd(w, o);
    assert Wrotes([]) == [];
  }

  lemma {:induction false} TrailOfApply(w: World, o: Outcomes)
    requires w.phase.Applying? && w.phase.done <= |w.phase.resources|
    ensures |ApplyResult(w, o.answers).log| >= |w.log|
    ensures Trail(w, o)
            == Saws(ApplyResult(w, o.answers).log[|w.log|..]) + Trail(ApplyResult(w, o.answers), o)
    decreases |w.phase.resources| - w.phase.done
  {
    hide ApplyResult, Next, Attempt, EffectsOf, Trail, Saws;
    ApplyResultGrows(w, o);
    TrailStep(w, o);
    if w.phase.done < |w.phase.resources| && o.answers.apply(w.phase.done).None? {
      var next, step := Next(w, o), [Applied(w.phase.resources[w.phase.done])];
      ApplyResultOneMore(w, o);
      EffectsOfApplyNext(w, o);
      TrailOfApply(next, o);
      ApplyResultGrows(next, o);
      var log := ApplyResult(next, o.answers).log;
      var rest := log[|next.log|..];
      assert log == log[..|next.log|] + rest;
      assert log[|w.log|..] == step + rest;
      SawsConcat(step, rest);
    } else {
      EffectsOfApplyEnd(w, o);
      ApplyResultAtEnd(w, o);
    }
  }

  lemma ApplyResultGrows(w: World, o: Outcomes)
    requires w.phase.Applying? && w.phase.done <= |w.phase.resources|
    ensures |ApplyResult(w, o.answers).log| >= |w.log|
    ensures ApplyResult(w, o.answers).log[..|w.log|] == w.log
  {
  }

  /** From the Syncing status on, the outside sees one call of Apply and then the write that reports it. */
  lemma TrailFromAnnounced(w: World, o: Outcomes)
    requires w.phase.Announced?
    ensures var p := w.phase;
            var outcome := Attempt(p.resources, 0, Prunes(p.app.policy), o.answers);
            Trail(w, o) == Saws(ApplyLog(p.revision, p.resources, Prunes(p.app.policy), o.answers))
                           + WriteEffects(w, p.app.(status := ReportedStatus(p, outcome, o)), o.last)
  {
    hide Attempt, ApplyLog, Trail, ApplyResult, Saws, EffectsOf;
    var p := w.phase;
    var begun := Next(w, o);
    var applied := ApplyResult(begun, o.answers);
    TrailStep(w, o);
    EffectsOfBegin(w, o);
    TrailOfApply(begun, o);
    ApplyResultGrows(begun, o);
    LogOfResult(w, o);
    SawsConcat([Begun(p.revision)], applied.log[|begun.log|..]);
    TrailOfReport(w, applied, o);
  }

  lemma EffectsOfBegin(w: World, o: Outcomes)
    requires w.phase.Announced?
    ensures EffectsOf(w, NextAction(w.phase, o)) == Saws([Begun(w.phase.revision)])
  {
    assert Wrotes([]) == [];
  }

  lemma LogOfResult(w: World, o: Outcomes)
    requires w.phase.Announced?
    ensures var p := w.phase;
            [Begun(p.revision)] + ApplyResult(Next(w, o), o.answers).log[|Next(w, o).log|..]
            == ApplyLog(p.revision, p.resources, Prunes(p.app.policy), o.answers)
  {
    hide Attempt;
  }

  lemma TrailOfReport(w: World, applied: World, o: Outcomes)
    requires w.phase.Announced? && applied == ApplyResult(Next(w, o), o.answers)
    ensures var p := w.phase;
            var outcome := Attempt(p.resources, 0, Prunes(p.app.policy), o.answers);
            Trail(applied, o) == WriteEffects(w, p.app.(status := ReportedStatus(p, outcome, o)), o.last)
  {
    hide Attempt, ApplyLog, Trail, EffectsOf, Reported, Succeeded;
    var p := w.phase;
    var outcome := Attempt(p.resources, 0, Prunes(p.app.policy), o.answers);
    TrailStep(applied, o);
    TrailStep(Next(applied, o), o);
    EffectsOfWrite(applied, NextAction(applied.phase, o), p.app.(status := ReportedStatus(p, outcome, o)), o.last);
  }

  // ---------------------------------------------------------------- faultless reconciles

  /** A reconcile that reads the latest version. */
  function Reconciled(w: World, policy: Option<SyncPolicy>, o: Outcomes): World
    requires w.phase.Idle?
  {
    Complete(Do(w, Get(|w.stored| - 1, policy)), o)
  }

  /** How many faultless reconciles an application is away from its branch head. */
  function Rank(s: AppStatus, head: string, policy: Option<SyncPolicy>): nat {
    if AlreadySynced(s, head) then 0 else if ShouldSync(policy, s) then 1 else 2
  }

  lemma {:induction false} ReachesDecision(w: World, policy: Option<SyncPolicy>, o: Outcomes)
    requires w.phase.Idle? && o.cloneError.None? && o.parseError.None?
    ensures var app := App(|w.stored| - 1, policy, w.Current());
            Reconciled(w, policy, o) == Complete(DecideStep(w, app, w.head, w.repo(w.head), o.probe, o.first), o)
  {
    hide DecideStep;
    var app := App(|w.stored| - 1, policy, w.Current());
    var fetched := Do(w, Get(|w.stored| - 1, policy));
    var cloned := Next(fetched, o);
    var parsed := Next(cloned, o);
    assert parsed == w.(phase := Parsed(app, w.head, w.repo(w.head)));
    DecideIgnoresPhase(w, parsed, app, w.head, w.repo(w.head), o);
    assert Complete(fetched, o) == Complete(cloned, o) == Complete(parsed, o) == Complete(Next(parsed, o), o);
  }

  lemma DecideIgnoresPhase(w: World, v: World, app: App, revision: string, resources: seq<Resource>, o: Outcomes)
    requires v == w.(phase := v.phase)
    ensures DecideStep(v, app, revision, resources, o.probe, o.first)
            == DecideStep(w, app, revision, resources, o.probe, o.first)
  {
  }

  lemma {:induction false} CleanApplyIsFull(revision: string, resources: seq<Resource>, prune: bool, answers: Answers)
    requires Attempt(resources, 0, prune, answers).error.None?
    ensures ApplyLog(revision, resources, prune, answers) == FullApply(revision, resources, prune)
  {
    AttemptMeaning(resources, prune, answers);
  }

  /** The apply of this reconcile, if it comes to one, returns no error. */
  predicate AppliesCleanly(w: World, policy: Option<SyncPolicy>, o: Outcomes) {
    Attempt(w.repo(w.head), 0, Prunes(policy), o.answers).error.None?
  }

  /** The final status write is stored: it lands, and the copy's version is not behind because the
      Syncing write was stored without the operator learning of it. */
  predicate LastWriteStored(o: Outcomes) {
    o.last.lands && (o.first.lands ==> o.first.acked)
  }

  /** The faults that matter, and no others: clone and parse succeed; when already synced nothing else
      can go wrong; a sync needs its apply and its final write; holding back needs its one write. */
  predicate Faultless(w: World, policy: Option<SyncPolicy>, o: Outcomes) {
    && o.cloneError.None? && o.parseError.None?
    && match Rank(w.Current(), w.head, policy)
       case 0 => true
       case 1 => AppliesCleanly(w, policy, o) && LastWriteStored(o)
       case _ => o.first.lands
  }

  /** What one faultless reconcile does: nothing to the cluster once synced, one full apply when it
      syncs, and otherwise only the mark that makes the next one sync. */
  lemma CleanReconcile(w: World, policy: Option<SyncPolicy>, o: Outcomes)
    requires w.phase.Idle? && Faultless(w, policy, o)
    ensures var w' := Reconciled(w, policy, o);
            && w'.phase.Idle? && w'.head == w.head && w'.repo == w.repo
            && (Rank(w.Current(), w.head, policy) <= 1 <==> AlreadySynced(w'.Current(), w.head))
            && (Rank(w.Current(), w.head, policy) == 2 ==> w'.Current().sync == OutOfSync)
            && w'.log == w.log + if Rank(w.Current(), w.head, policy) == 1
                                 then FullApply(w.head, w.repo(w.head), policy.Some? && policy.value.prune) else []
  {
    hide Attempt, FullApply, ApplyLog, WithSyncError, ResourceStatuses;
    ReachesDecision(w, policy, o);
    var app := App(|w.stored| - 1, policy, w.Current());
    var decided := DecideStep(w, app, w.head, w.repo(w.head), o.probe, o.first);
    if Rank(w.Current(), w.head, policy) == 1 {
      CompleteFromAnnounced(decided, o);
      CleanApplyIsFull(w.head, w.repo(w.head), Prunes(policy), o.answers);
    } else {
      assert Complete(decided, o) == decided;
      assert w.log + [] == w.log;
    }
  }

  /** The rank falls by one with every faultless reconcile until it is zero, whatever the policy has
      become by the next one. */
  lemma RankFalls(w: World, policy: Option<SyncPolicy>, o: Outcomes, next: Option<SyncPolicy>)
    requires w.phase.Idle? && Faultless(w, policy, o)
    ensures var rank := Rank(w.Current(), w.head, policy);
            Rank(Reconciled(w, policy, o).Current(), w.head, next) == if rank == 0 then 0 else rank - 1
  {
    hide Faultless, Reconciled, FullApply;
    CleanReconcile(w, policy, o);
  }

  datatype Round = Round(policy: Option<SyncPolicy>, o: Outcomes)

  function ReconciledAll(w: World, rounds: seq<Round>): (w': World)
    requires w.phase.Idle?
    decreases |rounds|
  {
    if rounds == [] then w
    else
      CompleteIsRun(Do(w, Get(|w.stored| - 1, rounds[0].policy)), rounds[0].o);
      ReconciledAll(Reconciled(w, rounds[0].policy, rounds[0].o), rounds[1..])
  }

  /** Each round is faultless where it starts. */
  ghost predicate AllFaultless(w: World, rounds: seq<Round>)
    requires w.phase.Idle?
    decreases |rounds|
  {
    rounds != [] ==>
      && Faultless(w, rounds[0].policy, rounds[0].o)
      && (CompleteIsRun(Do(w, Get(|w.stored| - 1, rounds[0].policy)), rounds[0].o);
          AllFaultless(Reconciled(w, rounds[0].policy, rounds[0].o), rounds[1..]))
  }

  /** Once synced at the head, faultless reconciles stay there and do not touch the cluster. */
  lemma {:induction false} StaysSynced(w: World, rounds: seq<Round>)
    requires w.phase.Idle? && AllFaultless(w, rounds) && AlreadySynced(w.Current(), w.head)
    ensures var w' := ReconciledAll(w, rounds);
            AlreadySynced(w'.Current(), w.head) && w'.log == w.log && w'.head == w.head
    decreases |rounds|
  {
    if rounds != [] {
      hide Faultless, Reconciled;
      CleanReconcile(w, rounds[0].policy, rounds[0].o);
      assert w.log + [] == w.log;
      StaysSynced(Reconciled(w, rounds[0].policy, rounds[0].o), rounds[1..]);
    }
  }

  /** From any stored status and any policies, with the head standing still and no faults, the
      application is synced at the head after n reconciles if and only if n has reached its rank, and
      the cluster has then seen one full apply of the manifests there, or none if it was synced at the
      start. */
  lemma {:induction false} Converges(w: World, rounds: seq<Round>)
    requires w.phase.Idle? && AllFaultless(w, rounds) && rounds != []
    ensures var rank := Rank(w.Current(), w.head, rounds[0].policy);
            var w' := ReconciledAll(w, rounds);
            && rank <= 2
            && (AlreadySynced(w'.Current(), w.head) <==> |rounds| >= rank)
            && w'.log == w.log + if 0 < rank <= |rounds| then
                                   var policy := rounds[rank - 1].policy;
                                   FullApply(w.head, w.repo(w.head), policy.Some? && policy.value.prune)
                                 else []
  {
    hide Faultless, Reconciled, FullApply;
    var rank := Rank(w.Current(), w.head, rounds[0].policy);
    CleanReconcile(w, rounds[0].policy, rounds[0].o);
    var w1 := Reconciled(w, rounds[0].policy, rounds[0].o);
    if rank <= 1 {
      StaysSynced(w1, rounds[1..]);
    } else if |rounds| > 1 {
      CleanReconcile(w1, rounds[1].policy, rounds[1].o);
      var w2 := Reconciled(w1, rounds[1].policy, rounds[1].o);
      assert w.log + [] == w.log;
      StaysSynced(w2, rounds[1..][1..]);
      assert ReconciledAll(w, rounds) == ReconciledAll(w2, rounds[1..][1..]);
    } else {
      assert rounds[1..] == [];
    }
  }

  // ---------------------------------------------------------------- when a reconcile ends synced

  lemma FailsBeforeDecision(w: World, policy: Option<SyncPolicy>, o: Outcomes)
    requires w.phase.Idle? && (o.cloneError.Some? || o.parseError.Some?)
    ensures AlreadySynced(Reconciled(w, policy, o).Current(), w.head) <==>
            AlreadySynced(w.Current(), w.head) && !o.last.lands
  {
    hide WithSyncError, ResourceStatuses;
    var fetched := Do(w, Get(|w.stored| - 1, policy));
    var cloned := Next(fetched, o);
    assert Complete(fetched, o) == Complete(cloned, o);
    if o.cloneError.None? {
      assert Complete(cloned, o) == Complete(Next(cloned, o), o);
    }
  }

  lemma SyncEndsSyncedIff(w: World, policy: Option<SyncPolicy>, o: Outcomes)
    requires w.phase.Idle? && o.cloneError.None? && o.parseError.None?
    requires Rank(w.Current(), w.head, policy) == 1
    ensures AlreadySynced(Reconciled(w, policy, o).Current(), w.head) <==>
            AppliesCleanly(w, policy, o) && LastWriteStored(o)
  {
    hide Attempt, ApplyLog, WithSyncError, ResourceStatuses;
    ReachesDecision(w, policy, o);
    var app := App(|w.stored| - 1, policy, w.Current());
    CompleteFromAnnounced(DecideStep(w, app, w.head, w.repo(w.head), o.probe, o.first), o);
  }

  /** For any outcomes of a current read, the status says synced at the head afterwards if and only if
      either clone or parse failed, it said so before, and the report of the failure was lost; or both
      succeeded and it said so before, or a sync was due, its apply returned no error, and its final
      write was stored. */
  lemma SyncsIff(w: World, policy: Option<SyncPolicy>, o: Outcomes)
    requires w.phase.Idle?
    ensures AlreadySynced(Reconciled(w, policy, o).Current(), w.head) <==>
            if o.cloneError.Some? || o.parseError.Some? then AlreadySynced(w.Current(), w.head) && !o.last.lands
            else
              || AlreadySynced(w.Current(), w.head)
              || (ShouldSync(policy, w.Current()) && AppliesCleanly(w, policy, o) && LastWriteStored(o))
  {
    hide AppliesCleanly, LastWriteStored, WithSyncError, ResourceStatuses;
    if o.cloneError.Some? || o.parseError.Some? {
      FailsBeforeDecision(w, policy, o);
    } else if Rank(w.Current(), w.head, policy) == 1 {
      SyncEndsSyncedIff(w, policy, o);
    } else {
      ReachesDecision(w, policy, o);
      var app := App(|w.stored| - 1, policy, w.Current());
      var decided := DecideStep(w, app, w.head, w.repo(w.head), o.probe, o.first);
      assert Complete(decided, o) == decided;
    }
  }

  // ---------------------------------------------------------------- when the cluster is touched

  lemma DecideWithoutSync(w: World, app: App, revision: string, resources: seq<Resource>, o: Outcomes)
    requires AlreadySynced(app.status, revision) || !ShouldSync(app.policy, app.status)
    ensures var w' := DecideStep(w, app, revision, resources, o.probe, o.first); w'.phase.Idle? && w'.log == w.log
  {
  }

  /** A reconcile starts to apply if and only if clone and parse succeed, the status does not already
      say synced at the head, and the policy is automated or the status is unset or out of sync. So a
      manual application is held back only until its status reads out of sync. */
  lemma AppliesIff(w: World, policy: Option<SyncPolicy>, o: Outcomes)
    requires w.phase.Idle?
    ensures Reconciled(w, policy, o).log != w.log <==>
            && o.cloneError.None? && o.parseError.None?
            && !(w.Current().sync == Synced && w.Current().revision == w.head)
            && ((policy.Some? && policy.value.automated) || w.Current().sync == NotSet || w.Current().sync == OutOfSync)
  {
    hide DecideStep, Attempt, Reported;
    var app := App(|w.stored| - 1, policy, w.Current());
    if o.cloneError.None? && o.parseError.None? {
      var decided := DecideStep(w, app, w.head, w.repo(w.head), o.probe, o.first);
      ReachesDecision(w, policy, o);
      if AlreadySynced(app.status, w.head) || !ShouldSync(policy, app.status) {
        DecideWithoutSync(w, app, w.head, w.repo(w.head), o);
      } else {
        DecideWithSync(w, app, w.head, w.repo(w.head), o);
        CompleteFromAnnounced(decided, o);
      }
    } else {
      StopsBeforeDecision(w, policy, o);
    }
  }

  /** With the declared schema enforced nothing settles. Wherever a run has come to rest with manifests at
      the head, the status does not say synced there, and an automated application is applied again by
      every reconcile that gets as far as its manifests. */
  lemma {:induction false} EnforcedNeverSettles(w: World, actions: seq<Action>, policy: Option<SyncPolicy>, o: Outcomes)
    requires Initial(w) && ConditionOk(w.Current()) && IsRun(w, actions) && SchemaEnforced(w, actions)
    requires After(w, actions).phase.Idle? && w.repo(After(w, actions).head) != []
    ensures var v := After(w, actions);
            && !AlreadySynced(v.Current(), v.head)
            && (policy.Some? && policy.value.automated ==>
                  (Reconciled(v, policy, o).log != v.log <==> o.cloneError.None? && o.parseError.None?))
  {
    hide IsRun, After, SchemaEnforced, Reconciled, Initial, ConditionOk;
    var v := After(w, actions);
    if AlreadySynced(v.Current(), v.head) {
      EnforcedSyncedIsEmpty(w, actions, |v.stored| - 1);
    }
    AppliesIff(v, policy, o);
  }

  lemma StopsBeforeDecision(w: World, policy: Option<SyncPolicy>, o: Outcomes)
    requires w.phase.Idle? && (o.cloneError.Some? || o.parseError.Some?)
    ensures Reconciled(w, policy, o).log == w.log
  {
    hide Reported;
    var fetched := Do(w, Get(|w.stored| - 1, policy));
    var cloned := Next(fetched, o);
    assert Complete(fetched, o) == Complete(cloned, o);
    if o.cloneError.None? {
      assert Complete(cloned, o) == Complete(Next(cloned, o), o);
    }
  }

  lemma DecideWithSync(w: World, app: App, revision: string, resources: seq<Resource>, o: Outcomes)
    requires !AlreadySynced(app.status, revision) && ShouldSync(app.policy, app.status)
    ensures var w' := DecideStep(w, app, revision, resources, o.probe, o.first);
            w'.phase.Announced? && w'.log == w.log
  {
  }

  /** Nobody has to trigger a manual application: two periodic reconciles apply a new head to it. */
  lemma {:induction false} ManualSyncsItself(w: World, manual: Option<SyncPolicy>, first: Outcomes, second: Outcomes)
    requires w.phase.Idle? && AllFaultless(w, [Round(manual, first), Round(manual, second)])
    requires manual.Some? ==> !manual.value.automated
    requires w.Current().sync == Synced && w.Current().revision != w.head
    ensures var w' := ReconciledAll(w, [Round(manual, first), Round(manual, second)]);
            && AlreadySynced(w'.Current(), w.head)
            && w'.log == w.log + FullApply(w.head, w.repo(w.head), manual.Some? && manual.value.prune)
  {
    hide FullApply, AllFaultless, ReconciledAll;
    Converges(w, [Round(manual, first), Round(manual, second)]);
  }

  /** A sync forgets the revision it finds in the status: the history is what it was, less its oldest
      entry when it was full, and that revision is not in it unless it was there already. */
  lemma SyncForgetsRevision(w: World, policy: Option<SyncPolicy>, o: Outcomes)
    requires w.phase.Idle? && Faultless(w, policy, o) && Rank(w.Current(), w.head, policy) == 1
    ensures var before, after := w.Current(), Reconciled(w, policy, o).Current();
            && after.sync == Synced && after.revision == w.head
            && after.previousRevisions
               == (if |before.previousRevisions| >= HISTORY_LIMIT then before.previousRevisions[1..]
                   else before.previousRevisions)
            && (before.revision !in before.previousRevisions ==> before.revision !in after.previousRevisions)
  {
    hide Attempt, ApplyLog, WithSyncError, ResourceStatuses;
    ReachesDecision(w, policy, o);
    var app := App(|w.stored| - 1, policy, w.Current());
    var decided := DecideStep(w, app, w.head, w.repo(w.head), o.probe, o.first);
    CompleteFromAnnounced(decided, o);
  }

  /** Relative to the revision in the status, which need not be one that was ever synced: the history is
      what trimming and then appending it would leave exactly when it is empty or already the head. */
  lemma RecordsStatusRevisionIff(w: World, policy: Option<SyncPolicy>, o: Outcomes)
    requires w.phase.Idle? && Faultless(w, policy, o) && Rank(w.Current(), w.head, policy) == 1
    ensures var before, after := w.Current(), Reconciled(w, policy, o).Current();
            after.previousRevisions == TrimThenAppend(before.previousRevisions, before.revision, w.head)
            <==> before.revision == "" || before.revision == w.head
  {
    hide Faultless, Reconciled;
    SyncForgetsRevision(w, policy, o);
  }

  // ---------------------------------------------------------------- failures are reported

  /** The one SyncError condition is true and carries this message. */
  ghost predicate ErrorIs(s: AppStatus, message: string) {
    var errors := Of(s.conditions, SYNC_ERROR);
    |errors| == 1 && errors[0].status == ConditionTrue && errors[0].message == message
  }

  ghost predicate NoError(s: AppStatus) {
    var errors := Of(s.conditions, SYNC_ERROR);
    |errors| == 1 && errors[0].status == ConditionFalse && errors[0].message == ""
  }

  /** What only a successful sync may change, and the conditions that are not the controller's. */
  ghost predicate SameRest(s: AppStatus, before: AppStatus) {
    && s.lastSyncAt == before.lastSyncAt && s.previousRevisions == before.previousRevisions
    && Others(s.conditions, SYNC_ERROR) == Others(before.conditions, SYNC_ERROR)
  }

  lemma ReportedError(s: AppStatus, sync: SyncStatus, health: HealthStatus, revision: string,
                      resources: seq<Resource>, err: Option<string>, now: int)
    requires |Of(s.conditions, SYNC_ERROR)| <= 1
    ensures var after := Reported(s, sync, health, revision, resources, err, now);
            && |Of(after.conditions, SYNC_ERROR)| == 1
            && SameRest(after, s)
            && if err.Some? then ErrorIs(after, err.value) else NoError(after)
  {
    var status, message := if err.Some? then ConditionTrue else ConditionFalse, if err.Some? then err.value else "";
    SetConditionLeavesOne(s.conditions, SYNC_ERROR, status, message, now);
    SetConditionFrame(s.conditions, SYNC_ERROR, status, message, now);
  }

  /** A failed clone leaves the status unknown, without a revision, and with the error; what it says of
      the resources, of the last sync and of the history stays. */
  lemma CloneFailureReported(w: World, policy: Option<SyncPolicy>, o: Outcomes)
    requires w.phase.Idle? && |Of(w.Current().conditions, SYNC_ERROR)| <= 1
    requires o.cloneError.Some? && o.last.lands
    ensures var s := Reconciled(w, policy, o).Current();
            && s.sync == SyncUnknown && s.health == HealthUnknown && s.revision == ""
            && ErrorIs(s, o.cloneError.value)
            && s.resources == w.Current().resources && SameRest(s, w.Current())
  {
    hide ErrorIs, SameRest, WithSyncError, ResourceStatuses;
    var fetched := Do(w, Get(|w.stored| - 1, policy));
    ReportedError(w.Current(), SyncUnknown, HealthUnknown, "", [], o.cloneError, o.last.now);
    assert Complete(fetched, o) == Complete(Next(fetched, o), o) == Next(fetched, o);
  }

  /** A failed parse leaves the status out of sync at the head, with the error, and the rest as it was. */
  lemma ParseFailureReported(w: World, policy: Option<SyncPolicy>, o: Outcomes)
    requires w.phase.Idle? && |Of(w.Current().conditions, SYNC_ERROR)| <= 1
    requires o.cloneError.None? && o.parseError.Some? && o.last.lands
    ensures var s := Reconciled(w, policy, o).Current();
            && s.sync == OutOfSync && s.health == HealthUnknown && s.revision == w.head
            && ErrorIs(s, o.parseError.value)
            && s.resources == w.Current().resources && SameRest(s, w.Current())
  {
    hide ErrorIs, SameRest, WithSyncError, ResourceStatuses;
    var fetched := Do(w, Get(|w.stored| - 1, policy));
    var cloned := Next(fetched, o);
    ReportedError(w.Current(), OutOfSync, HealthUnknown, w.head, [], o.parseError, o.last.now);
    assert Complete(fetched, o) == Complete(cloned, o) == Complete(Next(cloned, o), o) == Next(cloned, o);
  }

  /** An apply that fails, partway or in pruning, leaves what it did in the cluster and the status out of
      sync, degraded, listing the manifests, and with the error it returned. */
  lemma ApplyFailureReported(w: World, policy: Option<SyncPolicy>, o: Outcomes)
    requires w.phase.Idle? && |Of(w.Current().conditions, SYNC_ERROR)| <= 1
    requires o.cloneError.None? && o.parseError.None? && LastWriteStored(o)
    requires Rank(w.Current(), w.head, policy) == 1
    requires Attempt(w.repo(w.head), 0, Prunes(policy), o.answers).error.Some?
    ensures var s := Reconciled(w, policy, o).Current();
            && s.sync == OutOfSync && s.health == Degraded && s.revision == w.head
            && ErrorIs(s, Attempt(w.repo(w.head), 0, Prunes(policy), o.answers).error.value)
            && (w.repo(w.head) != [] ==> Marks(s.resources, w.repo(w.head), OutOfSync, Degraded))
            && SameRest(s, w.Current())
            && Reconciled(w, policy, o).log == w.log + ApplyLog(w.head, w.repo(w.head), Prunes(policy), o.answers)
  {
    hide Attempt, ApplyLog, ErrorIs, NoError, WithSyncError, ResourceStatuses, Marks, Others;
    ReachesDecision(w, policy, o);
    var app := App(|w.stored| - 1, policy, w.Current());
    var decided := DecideStep(w, app, w.head, w.repo(w.head), o.probe, o.first);
    CompleteFromAnnounced(decided, o);
    var syncing := Reported(w.Current(), Syncing, Progressing, w.head, w.repo(w.head), None, o.first.now);
    var error := Attempt(w.repo(w.head), 0, Prunes(policy), o.answers).error;
    ReportedError(w.Current(), Syncing, Progressing, w.head, w.repo(w.head), None, o.first.now);
    ReportedError(syncing, OutOfSync, Degraded, w.head, w.repo(w.head), error, o.last.now);
    ReportedResources(syncing, OutOfSync, Degraded, w.head, w.repo(w.head), error, o.last.now);
  }

  // ---------------------------------------------------------------- what the other ends report

  /** A sync that is held back leaves the status out of sync at the head, of unknown health, without an
      error and listing the manifests. */
  lemma HoldingReported(w: World, policy: Option<SyncPolicy>, o: Outcomes)
    requires w.phase.Idle? && |Of(w.Current().conditions, SYNC_ERROR)| <= 1
    requires Faultless(w, policy, o) && Rank(w.Current(), w.head, policy) == 2
    ensures var s := Reconciled(w, policy, o).Current();
            && s.sync == OutOfSync && s.health == HealthUnknown && s.revision == w.head && NoError(s)
            && (w.repo(w.head) != [] ==> Marks(s.resources, w.repo(w.head), OutOfSync, HealthUnknown))
            && SameRest(s, w.Current())
  {
    hide NoError, SameRest, WithSyncError, ResourceStatuses, Marks;
    ReachesDecision(w, policy, o);
    var app := App(|w.stored| - 1, policy, w.Current());
    var decided := DecideStep(w, app, w.head, w.repo(w.head), o.probe, o.first);
    assert Complete(decided, o) == decided;
    ReportedError(w.Current(), OutOfSync, HealthUnknown, w.head, w.repo(w.head), None, o.first.now);
    ReportedResources(w.Current(), OutOfSync, HealthUnknown, w.head, w.repo(w.head), None, o.first.now);
  }

  /** A reconcile that finds the application synced stores what the probe says now and nothing else. */
  lemma RefreshReported(w: World, policy: Option<SyncPolicy>, o: Outcomes)
    requires w.phase.Idle? && o.cloneError.None? && o.parseError.None? && AlreadySynced(w.Current(), w.head)
    ensures var s := Reconciled(w, policy, o).Current();
            && (o.first.lands ==> ChecksOut(s.health, s.resources, o.probe, w.repo(w.head)))
            && (!o.first.lands ==> s == w.Current())
            && s == w.Current().(health := s.health, resources := s.resources)
  {
    hide ChecksOut, Worst, StatusesOf;
    ReachesDecision(w, policy, o);
    var app := App(|w.stored| - 1, policy, w.Current());
    var decided := DecideStep(w, app, w.head, w.repo(w.head), o.probe, o.first);
    assert Complete(decided, o) == decided;
    CheckChecksOut(o.probe, w.repo(w.head));
  }

  /** A successful sync stores what the probe says of the manifests at the head, and the time. */
  lemma SuccessReported(w: World, policy: Option<SyncPolicy>, o: Outcomes)
    requires w.phase.Idle? && |Of(w.Current().conditions, SYNC_ERROR)| <= 1
    requires Faultless(w, policy, o) && Rank(w.Current(), w.head, policy) == 1
    ensures var s := Reconciled(w, policy, o).Current();
            && s.sync == Synced && s.revision == w.head && s.lastSyncAt == Some(o.last.now) && NoError(s)
            && ChecksOut(s.health, s.resources, o.probe, w.repo(w.head))
            && Others(s.conditions, SYNC_ERROR) == Others(w.Current().conditions, SYNC_ERROR)
  {
    hide Attempt, ApplyLog, NoError, WithSyncError, ResourceStatuses, ChecksOut, Worst, StatusesOf, Of, Others;
    ReachesDecision(w, policy, o);
    var app := App(|w.stored| - 1, policy, w.Current());
    var decided := DecideStep(w, app, w.head, w.repo(w.head), o.probe, o.first);
    CompleteFromAnnounced(decided, o);
    CheckChecksOut(o.probe, w.repo(w.head));
    NoErrorStays(w.Current(), w.head, w.repo(w.head), o);
  }

  lemma NoErrorStays(s: AppStatus, revision: string, resources: seq<Resource>, o: Outcomes)
    requires |Of(s.conditions, SYNC_ERROR)| <= 1
    ensures var syncing := Reported(s, Syncing, Progressing, revision, resources, None, o.first.now);
            var after := Succeeded(syncing, revision, o.probe, resources, o.last.now);
            NoError(after) && Others(after.conditions, SYNC_ERROR) == Others(s.conditions, SYNC_ERROR)
  {
    hide WithSyncError, ResourceStatuses, Worst, StatusesOf, Of, Others;
    ReportedError(s, Syncing, Progressing, revision, resources, None, o.first.now);
  }
}
