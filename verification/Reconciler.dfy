/** The reconciler as it is written, editing its copy of the application field by field. Its status
    writes and the events at the cluster are, in order, those of the state machine under the same
    outcomes, and so are its final state and its result. */
module Reconciler {
  import opened Status
  import opened Manifest
  import opened Health
  import opened Applier
  import opened Controller
  import opened Safety
  import opened Bookkeeping
  import opened Convergence
  import opened CrashPoints

  /** The copy of the application a run works on. */
  class GitApplication {
    var version: nat
    var policy: Option<SyncPolicy>
    var sync: SyncStatus
    var health: HealthStatus
    var lastSyncAt: Option<int>
    var revision: string
    var previousRevisions: seq<string>
    var resources: seq<ResourceStatus>
    var conditions: seq<Condition>

    constructor (copy: App)
      ensures Copy() == copy
    {
      version, policy := copy.version, copy.policy;
      sync, health, lastSyncAt := copy.status.sync, copy.status.health, copy.status.lastSyncAt;
      revision, previousRevisions := copy.status.revision, copy.status.previousRevisions;
      resources, conditions := copy.status.resources, copy.status.conditions;
    }

    function StatusValue(): AppStatus
      reads this
    {
      AppStatus(sync, health, lastSyncAt, revision, previousRevisions, resources, conditions)
    }

    function Copy(): App
      reads this
    {
      App(version, policy, StatusValue())
    }

    method UpdateCondition(kind: string, status: ConditionStatus, message: string, now: int)
      modifies this`conditions
      ensures conditions == SetCondition(old(conditions), kind, status, message, now)
    {
      ghost var goal := SetCondition(conditions, kind, status, message, now);
      for i := 0 to |conditions|
        invariant conditions == old(conditions)
        invariant conditions[..i] + SetCondition(conditions[i..], kind, status, message, now) == goal
      {
        if conditions[i].kind == kind {
          SetConditionHits(conditions, i, kind, status, message, now);
          conditions := conditions[i := conditions[i].(status := status, message := message, lastTransition := now)];
          return;
        }
        SetConditionSkips(conditions, i, kind, status, message, now);
      }
      assert conditions[..|conditions|] == conditions && conditions[|conditions|..] == [];
      conditions := conditions + [Condition(kind, status, "", message, now)];
    }
  }

  /** How the read of the application went. */
  datatype GetAnswer = Found(version: nat, policy: Option<SyncPolicy>) | NotFound | GetFailed

  /** What Reconcile returns: when to come back, in seconds, or an error. */
  datatype Result = Requeue(seconds: nat) | Error

  /** What the run returns when `a` is its last action. */
  function ResultOf(w: World, a: Action): Result
    requires Enabled(w, a)
  {
    match a
    case Decide(_, _) => if AlreadySynced(w.phase.app.status, w.phase.revision) then Requeue(60) else Requeue(30)
    case ReportSuccess(_, io) => if Acknowledged(w, w.phase.app, io) then Requeue(60) else Error
    case _ => Requeue(30)
  }

  function Verdict(w: World, o: Outcomes): Result
    requires !w.phase.Idle?
    decreases Stage(w.phase), Remaining(w.phase)
  {
    if Next(w, o).phase.Idle? then ResultOf(w, NextAction(w.phase, o)) else Verdict(Next(w, o), o)
  }

  lemma {:induction false} VerdictOfApply(w: World, o: Outcomes)
    requires w.phase.Applying? && w.phase.done <= |w.phase.resources|
    ensures Verdict(w, o) == Verdict(ApplyResult(w, o.answers), o)
    decreases |w.phase.resources| - w.phase.done
  {
    hide ApplyResult, Next, Attempt;
    if w.phase.done < |w.phase.resources| && o.answers.apply(w.phase.done).None? {
      ApplyResultOneMore(w, o);
      VerdictOfApply(Next(w, o), o);
    } else {
      ApplyResultAtEnd(w, o);
      ApplyResultPhase(w, o);
    }
  }

  lemma ApplyResultPhase(w: World, o: Outcomes)
    requires w.phase.Applying? && w.phase.done <= |w.phase.resources|
    ensures ApplyResult(w, o.answers).phase.ApplyDone? || ApplyResult(w, o.answers).phase.ApplyError?
  {
  }

  lemma {:induction false} VerdictFromAnnounced(w: World, o: Outcomes)
    requires w.phase.Announced?
    ensures var p := w.phase;
            Verdict(w, o) ==
              if Attempt(p.resources, 0, Prunes(p.app.policy), o.answers).error.Some? then Requeue(30)
              else if Acknowledged(w, p.app, o.last) then Requeue(60) else Error
  {
    hide Attempt, Reported, Succeeded;
    var begun := Next(w, o);
    VerdictOfApply(begun, o);
    var applied := ApplyResult(begun, o.answers);
    assert Verdict(applied, o) == ResultOf(applied, NextAction(applied.phase, o));
  }

  // ---------------------------------------------------------------- what each branch of a run amounts to

  /** A step that is one write and the end of the run. */
  lemma {:induction false} StopsHere(w: World, o: Outcomes, app: App, io: Io)
    requires !w.phase.Idle? && Next(w, o) == Write(w, app, io).(phase := Idle)
    ensures Complete(w, o) == Write(w, app, io).(phase := Idle)
    ensures Trail(w, o) == WriteEffects(w, app, io)
    ensures Verdict(w, o) == ResultOf(w, NextAction(w.phase, o))
  {
    hide Trail, EffectsOf, ResultOf;
    TrailStep(w, o);
    TrailStep(Next(w, o), o);
    EffectsOfWrite(w, NextAction(w.phase, o), app, io);
  }

  /** A step that leaves the run going: what the run amounts to is up to the rest. */
  lemma {:induction false} GoesOn(w: World, o: Outcomes)
    requires !w.phase.Idle? && !Next(w, o).phase.Idle?
    ensures Complete(w, o) == Complete(Next(w, o), o) && Verdict(w, o) == Verdict(Next(w, o), o)
    ensures Trail(w, o) == EffectsOf(w, NextAction(w.phase, o)) + Trail(Next(w, o), o)
  {
    hide NextAction, Do, Trail;
    TrailStep(w, o);
  }

  lemma {:induction false} GoesOnQuietly(w: World, o: Outcomes)
    requires !w.phase.Idle? && !Next(w, o).phase.Idle? && Next(w, o).stored == w.stored && Next(w, o).log == w.log
    ensures Complete(w, o) == Complete(Next(w, o), o) && Verdict(w, o) == Verdict(Next(w, o), o)
    ensures Trail(w, o) == Trail(Next(w, o), o)
  {
    hide NextAction, Do, Trail, Complete, Verdict;
    GoesOn(w, o);
    assert Wrotes([]) == [] && Saws([]) == [];
  }

  lemma {:induction false} StopsAtClone(w: World, o: Outcomes)
    requires w.phase.Fetched? && o.cloneError.Some?
    ensures var app := w.phase.app;
            var status := Reported(app.status, SyncUnknown, HealthUnknown, "", [], o.cloneError, o.last.now);
            var edited := app.(status := status);
            && Complete(w, o) == Write(w, edited, o.last).(phase := Idle)
            && Trail(w, o) == WriteEffects(w, edited, o.last)
            && Verdict(w, o) == Requeue(30)
  {
    hide Reported, Complete, Trail, Verdict, DecideStep, ApplyNextStep, EndApplyStep;
    var app := w.phase.app;
    var status := Reported(app.status, SyncUnknown, HealthUnknown, "", [], o.cloneError, o.last.now);
    StopsHere(w, o, app.(status := status), o.last);
  }

  lemma {:induction false} GoesOnToParse(w: World, o: Outcomes)
    requires w.phase.Fetched? && o.cloneError.None?
    ensures var cloned := w.(phase := Cloned(w.phase.app, w.head));
            && Complete(w, o) == Complete(cloned, o)
            && Trail(w, o) == Trail(cloned, o)
            && Verdict(w, o) == Verdict(cloned, o)
  {
    hide Complete, Trail, Verdict;
    GoesOnQuietly(w, o);
  }

  lemma {:induction false} StopsAtParse(w: World, o: Outcomes)
    requires w.phase.Cloned? && o.parseError.Some?
    ensures var p := w.phase;
            var status := Reported(p.app.status, OutOfSync, HealthUnknown, p.revision, [], o.parseError, o.last.now);
            var edited := p.app.(status := status);
            && Complete(w, o) == Write(w, edited, o.last).(phase := Idle)
            && Trail(w, o) == WriteEffects(w, edited, o.last)
            && Verdict(w, o) == Requeue(30)
  {
    hide Reported, Complete, Trail, Verdict, DecideStep, ApplyNextStep, EndApplyStep;
    var p := w.phase;
    var status := Reported(p.app.status, OutOfSync, HealthUnknown, p.revision, [], o.parseError, o.last.now);
    StopsHere(w, o, p.app.(status := status), o.last);
  }

  lemma {:induction false} GoesOnToDecide(w: World, o: Outcomes)
    requires w.phase.Cloned? && o.parseError.None?
    ensures var p := w.phase;
            var parsed := w.(phase := Parsed(p.app, p.revision, w.repo(p.revision)));
            && Complete(w, o) == Complete(parsed, o)
            && Trail(w, o) == Trail(parsed, o)
            && Verdict(w, o) == Verdict(parsed, o)
  {
    hide Complete, Trail, Verdict;
    GoesOnQuietly(w, o);
  }

  lemma DecidesNext(w: World, o: Outcomes)
    requires w.phase.Parsed?
    ensures var p, a := w.phase, Decide(o.probe, o.first);
            && NextAction(p, o) == a && Enabled(w, a)
            && Next(w, o) == Do(w, a) == DecideStep(w, p.app, p.revision, p.resources, o.probe, o.first)
  {
    hide DecideStep;
  }

  lemma {:induction false} StopsWhenSynced(w: World, o: Outcomes)
    requires w.phase.Parsed? && AlreadySynced(w.phase.app.status, w.phase.revision)
    ensures var p := w.phase;
            var edited := p.app.(status := HealthChecked(p.app.status, o.probe, p.resources));
            && Complete(w, o) == Write(w, edited, o.first).(phase := Idle)
            && Trail(w, o) == WriteEffects(w, edited, o.first)
            && Verdict(w, o) == Requeue(60)
  {
    hide HealthChecked, Complete, Trail, Verdict, Do, Next, NextAction, Enabled;
    var p := w.phase;
    DecidesNext(w, o);
    StopsHere(w, o, p.app.(status := HealthChecked(p.app.status, o.probe, p.resources)), o.first);
  }

  lemma {:induction false} StopsWhenHeld(w: World, o: Outcomes)
    requires w.phase.Parsed?
    requires !AlreadySynced(w.phase.app.status, w.phase.revision) && !ShouldSync(w.phase.app.policy, w.phase.app.status)
    ensures var p := w.phase;
            var status := Reported(p.app.status, OutOfSync, HealthUnknown, p.revision, p.resources, None, o.first.now);
            var edited := p.app.(status := status);
            && Complete(w, o) == Write(w, edited, o.first).(phase := Idle)
            && Trail(w, o) == WriteEffects(w, edited, o.first)
            && Verdict(w, o) == Requeue(30)
  {
    hide Reported, Complete, Trail, Verdict, Do, Next, NextAction, Enabled;
    var p := w.phase;
    var status := Reported(p.app.status, OutOfSync, HealthUnknown, p.revision, p.resources, None, o.first.now);
    DecidesNext(w, o);
    StopsHere(w, o, p.app.(status := status), o.first);
  }

  lemma {:induction false} GoesOnToApply(w: World, o: Outcomes)
    requires w.phase.Parsed?
    requires !AlreadySynced(w.phase.app.status, w.phase.revision) && ShouldSync(w.phase.app.policy, w.phase.app.status)
    ensures var p := w.phase;
            var status := Reported(p.app.status, Syncing, Progressing, p.revision, p.resources, None, o.first.now);
            var edited := p.app.(status := status);
            var announced :=
              Write(w, edited, o.first).(phase := Announced(AfterWrite(w, edited, o.first), p.revision, p.resources));
            && Complete(w, o) == Complete(announced, o)
            && Trail(w, o) == WriteEffects(w, edited, o.first) + Trail(announced, o)
            && Verdict(w, o) == Verdict(announced, o)
  {
    hide Reported, Complete, Trail, Verdict, EffectsOf, Do, Next, NextAction, Enabled;
    var p := w.phase;
    var status := Reported(p.app.status, Syncing, Progressing, p.revision, p.resources, None, o.first.now);
    DecidesNext(w, o);
    GoesOn(w, o);
    EffectsOfWrite(w, Decide(o.probe, o.first), p.app.(status := status), o.first);
  }

  /** The answer of the last write of a sync arrives: it does, the copy read was current, and the Syncing
      write before it did not leave the copy behind. */
  predicate LastWriteAcknowledged(w: World, version: nat, o: Outcomes) {
    o.last.lands && o.last.acked && version == |w.stored| - 1 && (o.first.lands ==> o.first.acked)
  }

  /** Every way a reconcile can end: it comes back in a minute after a success and when there was nothing
      to do, in half a minute after a failure and when the sync is held back, and with an error when the
      success could not be recorded. */
  lemma {:induction false} VerdictIs(w: World, version: nat, policy: Option<SyncPolicy>, o: Outcomes)
    requires w.phase.Idle? && version < |w.stored|
    ensures var s, resources := w.stored[version], w.repo(w.head);
            Verdict(Do(w, Get(version, policy)), o) ==
              if o.cloneError.Some? || o.parseError.Some? then Requeue(30)
              else if s.revision == w.head && s.sync == Synced then Requeue(60)
              else if !((policy.Some? && policy.value.automated) || s.sync == NotSet || s.sync == OutOfSync) then
                Requeue(30)
              else if !AllApply(resources, 0, o.answers)
                      || (policy.Some? && policy.value.prune && o.answers.prune.Some?) then Requeue(30)
              else if LastWriteAcknowledged(w, version, o) then Requeue(60)
              else Error
  {
    hide Complete, Trail, Verdict, Attempt, AllApply, DecideStep, Reported, HealthChecked;
    var fetched := Do(w, Get(version, policy));
    if o.cloneError.Some? {
      StopsAtClone(fetched, o);
    } else {
      GoesOnToParse(fetched, o);
      var cloned := fetched.(phase := Cloned(fetched.phase.app, w.head));
      if o.parseError.Some? {
        StopsAtParse(cloned, o);
      } else {
        GoesOnToDecide(cloned, o);
        VerdictFromParsed(cloned.(phase := Parsed(fetched.phase.app, w.head, w.repo(w.head))), o);
      }
    }
  }

  lemma {:induction false} VerdictFromParsed(w: World, o: Outcomes)
    requires w.phase.Parsed? && w.phase.app.version < |w.stored|
    ensures var p := w.phase;
            var policy := p.app.policy;
            Verdict(w, o) ==
              if AlreadySynced(p.app.status, p.revision) then Requeue(60)
              else if !ShouldSync(policy, p.app.status) then Requeue(30)
              else if !AllApply(p.resources, 0, o.answers)
                      || (policy.Some? && policy.value.prune && o.answers.prune.Some?) then Requeue(30)
              else if LastWriteAcknowledged(w, p.app.version, o) then Requeue(60)
              else Error
  {
    hide Complete, Trail, Verdict, Attempt, AllApply, Reported, HealthChecked;
    var p := w.phase;
    if AlreadySynced(p.app.status, p.revision) {
      StopsWhenSynced(w, o);
    } else if !ShouldSync(p.app.policy, p.app.status) {
      StopsWhenHeld(w, o);
    } else {
      var status := Reported(p.app.status, Syncing, Progressing, p.revision, p.resources, None, o.first.now);
      var edited := p.app.(status := status);
      GoesOnToApply(w, o);
      VerdictFromAnnounced(
        Write(w, edited, o.first).(phase := Announced(AfterWrite(w, edited, o.first), p.revision, p.resources)), o);
      AttemptMeaning(p.resources, Prunes(p.app.policy), o.answers);
    }
  }

  /** A walk of the manifest directory in which nothing fails. */
  type Checkout = visits: seq<Visit> | forall i :: 0 <= i < |visits| ==> Failure(visits[i]).None? witness []

  /** Parses the manifests of a checkout; if the outcome of parsing is `err`, a failure cuts the walk short. */
  method ParseCheckout(visits: Checkout, err: Option<string>) returns (r: ParseResult)
    ensures r == if err.Some? then ParseError(err.value) else Manifests(ParseFiles(Texts(visits)))
  {
    hide Failure, ParseFiles, Texts;
    var walk := if err.Some? then visits + [WalkFailed(err.value)] else visits;
    assert err.Some? ==> Failure(walk[|visits|]) == err by { FailureOfWalk(err); }
    r := ParseRaw(walk);
  }

  lemma FailureOfWalk(err: Option<string>)
    ensures err.Some? ==> Failure(WalkFailed(err.value)) == err
  {
  }

  class GitApplicationReconciler {
    /** What a walk of the manifest directory comes by at each revision. */
    const tree: string -> Checkout
    var head: string
    var stored: Versions
    const cluster: TargetCluster
    ghost var phase: Phase

    constructor (tree: string -> Checkout, head: string, created: AppStatus, cluster: TargetCluster)
      ensures this.tree == tree && this.head == head && stored == [created] && this.cluster == cluster && phase == Idle
    {
      this.tree, this.head, this.cluster := tree, head, cluster;
      stored := [created];
      phase := Idle;
    }

    ghost function State(): World
      reads this, cluster
    {
      World((r: string) => ParseFiles(Texts(tree(r))), head, stored, cluster.log, phase)
    }

    /** Everything the outside has seen so far, status writes and cluster events interleaved. */
    ghost function Effects(): seq<Effect>
      reads this, cluster, cluster.journal
    {
      cluster.journal.effects
    }

    /** One versioned write of the copy `edited` and nothing else: what the API server holds, what the
        journal gains, and what the caller's copy becomes. */
    ghost predicate Updated(w: World, effects0: seq<Effect>, edited: App, io: Io, app: GitApplication)
      reads this, cluster, cluster.journal, app
    {
      && stored == Write(w, edited, io).stored
      && Effects() == effects0 + WriteEffects(w, edited, io)
      && app.Copy() == AfterWrite(w, edited, io)
    }

    /** The status subresource update: optimistic concurrency, and the write or its answer may be lost. */
    method Update(app: GitApplication, io: Io) returns (ok: bool)
      modifies this`stored, app`version, cluster.journal
      ensures Updated(old(State()), old(Effects()), old(app.Copy()), io, app)
      ensures ok == Acknowledged(old(State()), old(app.Copy()), io)
    {
      var lands := io.lands && app.version == |stored| - 1;
      ok := lands && io.acked;
      if lands {
        stored := stored + [app.StatusValue()];
        cluster.journal.effects := cluster.journal.effects + [Wrote(app.StatusValue())];
      }
      if ok {
        app.version := |stored| - 1;
      }
    }

    method MarkResources(resources: seq<Resource>, sync: SyncStatus, health: HealthStatus)
      returns (statuses: seq<ResourceStatus>)
      ensures statuses == ResourceStatuses(resources, sync, health)
    {
      statuses := [];
      for i := 0 to |resources|
        invariant statuses == ResourceStatuses(resources[..i], sync, health)
      {
        var res := resources[i];
        statuses := statuses + [ResourceStatus(res.kind, res.name, res.namespace, sync, health)];
      }
      assert resources[..|resources|] == resources;
    }

    method UpdateStatus(app: GitApplication, sync: SyncStatus, health: HealthStatus, revision: string,
                        resources: seq<Resource>, syncErr: Option<string>, io: Io)
      modifies this`stored, app, cluster.journal
      ensures var status := Reported(old(app.StatusValue()), sync, health, revision, resources, syncErr, io.now);
              Updated(old(State()), old(Effects()), old(app.Copy()).(status := status), io, app)
      ensures app.sync == sync && app.health == health && app.revision == revision
      ensures app.lastSyncAt == old(app.lastSyncAt) && app.previousRevisions == old(app.previousRevisions)
      ensures if resources == [] then app.resources == old(app.resources)
              else Marks(app.resources, resources, sync, health)
    {
      hide Marks, Names, State, Updated, ResourceStatuses, SetCondition;
      ReportedResources(app.StatusValue(), sync, health, revision, resources, syncErr, io.now);
      app.sync := sync;
      app.health := health;
      app.revision := revision;
      if syncErr.Some? {
        app.UpdateCondition(SYNC_ERROR, ConditionTrue, syncErr.value, io.now);
      } else {
        app.UpdateCondition(SYNC_ERROR, ConditionFalse, "", io.now);
      }
      if resources != [] {
        app.resources := MarkResources(resources, sync, health);
      }
      var _ := Update(app, io);
    }

    method UpdateHealthStatus(app: GitApplication, health: HealthStatus, resources: seq<ResourceStatus>, io: Io)
      modifies this`stored, app, cluster.journal
      ensures var status := old(app.StatusValue()).(health := health, resources := resources);
              Updated(old(State()), old(Effects()), old(app.Copy()).(status := status), io, app)
    {
      app.health := health;
      app.resources := resources;
      var _ := Update(app, io);
    }

    /** The run that starts in `w` is over: it has left the state, the effects, in order, and the result
        of the machine's run under the same outcomes. */
    ghost predicate Ran(w: World, effects0: seq<Effect>, o: Outcomes, r: Result)
      requires !w.phase.Idle?
      reads this, cluster, cluster.journal
    {
      State() == Complete(w, o) && Effects() == effects0 + Trail(w, o) && r == Verdict(w, o)
    }

    /** One reconcile writes and applies exactly what the machine does, in the same order. So what it
        leaves behind when it dies after any of its effects is safe, unless it syncs unannounced. */
    method Reconcile(get: GetAnswer, o: Outcomes) returns (r: Result)
      requires phase == Idle
      requires get.Found? ==> get.version < |stored|
      modifies this, cluster, cluster.journal
      ensures get.Found? ==> Ran(Do(old(State()), Get(get.version, get.policy)), old(Effects()), o, r)
      ensures !get.Found? ==>
                && State() == old(State()) && Effects() == old(Effects())
                && r == if get.NotFound? then Requeue(0) else Error
      ensures get.Found? && CurrentIsLatest(old(State())) ==>
                && old(Effects()) <= Effects()
                && (SafeAlong(old(State()), Effects()[|old(Effects())|..])
                    <==> !SyncsUnannounced(old(State()), get.version, get.policy, o))
    {
      ghost var w, effects0 := State(), Effects();
      match get {
        case NotFound => return Requeue(0);
        case GetFailed => return Error;
        case Found(_, _) =>
      }
      var app := new GitApplication(App(get.version, get.policy, stored[get.version]));
      r := Run(app, o);
      if CurrentIsLatest(w) {
        ReconcileSafeIff(w, get.version, get.policy, o);
        assert Effects()[|effects0|..] == Trail(Do(w, Get(get.version, get.policy)), o);
      }
    }

    method Run(app: GitApplication, o: Outcomes) returns (r: Result)
      requires phase == Idle
      modifies this, cluster, cluster.journal, app
      ensures Ran(old(State()).(phase := Fetched(old(app.Copy()))), old(Effects()), o, r)
    {
      hide Reported, Marks, Trail, Complete, Verdict;
      phase := Fetched(app.Copy());
      ghost var w := State();
      if o.cloneError.Some? {
        UpdateStatus(app, SyncUnknown, HealthUnknown, "", [], o.cloneError, o.last);
        phase := Idle;
        StopsAtClone(w, o);
        return Requeue(30);
      }
      var revision := head;
      phase := Cloned(app.Copy(), revision);
      GoesOnToParse(w, o);
      r := ParseAndSync(app, revision, o);
    }

    method ParseAndSync(app: GitApplication, revision: string, o: Outcomes) returns (r: Result)
      requires phase == Cloned(app.Copy(), revision)
      modifies this, cluster, cluster.journal, app
      ensures Ran(old(State()), old(Effects()), o, r)
    {
      hide Reported, Marks, Trail, Complete, Verdict, ParseFiles, Texts, Failure;
      ghost var w := State();
      var parsed := ParseCheckout(tree(revision), o.parseError);
      if parsed.ParseError? {
        UpdateStatus(app, OutOfSync, HealthUnknown, revision, [], Some(parsed.err), o.last);
        phase := Idle;
        StopsAtParse(w, o);
        return Requeue(30);
      }
      var resources := parsed.resources;
      phase := Parsed(app.Copy(), revision, resources);
      GoesOnToDecide(w, o);
      r := DecideAndSync(app, revision, resources, o);
    }

    method DecideAndSync(app: GitApplication, revision: string, resources: seq<Resource>, o: Outcomes)
      returns (r: Result)
      requires phase == Parsed(app.Copy(), revision, resources)
      modifies this, cluster, cluster.journal, app
      ensures Ran(old(State()), old(Effects()), o, r)
    {
      hide Reported, Worst, IsWorst, StatusesOf, ChecksOut, Marks, Trail, Complete, Verdict, AfterWrite, WriteEffects;
      ghost var w := State();
      if app.revision == revision && app.sync == Synced {
        var health, statuses := Check(o.probe, resources);
        UpdateHealthStatus(app, health, statuses, o.first);
        phase := Idle;
        StopsWhenSynced(w, o);
        return Requeue(60);
      }
      r := HoldOrSync(app, revision, resources, o);
    }

    method HoldOrSync(app: GitApplication, revision: string, resources: seq<Resource>, o: Outcomes)
      returns (r: Result)
      requires phase == Parsed(app.Copy(), revision, resources) && !AlreadySynced(app.StatusValue(), revision)
      modifies this, cluster, cluster.journal, app
      ensures Ran(old(State()), old(Effects()), o, r)
    {
      hide Reported, Marks, Names, Trail, Complete, Verdict, AfterWrite, WriteEffects, ParseFiles, Texts, Failure;
      ghost var w := State();
      var shouldSync := (app.policy.Some? && app.policy.value.automated) || app.sync == NotSet || app.sync == OutOfSync;
      if !shouldSync {
        UpdateStatus(app, OutOfSync, HealthUnknown, revision, resources, None, o.first);
        phase := Idle;
        StopsWhenHeld(w, o);
        return Requeue(30);
      }
      UpdateStatus(app, Syncing, Progressing, revision, resources, None, o.first);
      phase := Announced(app.Copy(), revision, resources);
      GoesOnToApply(w, o);
      r := Sync(app, revision, resources, o);
    }

    method Sync(app: GitApplication, revision: string, resources: seq<Resource>, o: Outcomes) returns (r: Result)
      requires phase == Announced(app.Copy(), revision, resources)
      modifies this, cluster, cluster.journal, app
      ensures Ran(old(State()), old(Effects()), o, r)
    {
      hide Attempt, Reported, Succeeded, ApplyLog, PruningTried, AllApply, Marks, ChecksOut, Trail, Complete, Verdict;
      CompleteFromAnnounced(State(), o);
      VerdictFromAnnounced(State(), o);
      TrailFromAnnounced(State(), o);
      var err := cluster.Apply(revision, resources, app.policy, o.answers);
      if err.Some? {
        UpdateStatus(app, OutOfSync, Degraded, revision, resources, err, o.last);
        phase := Idle;
        return Requeue(30);
      }
      var ok := RecordSuccess(app, revision, resources, o.probe, o.last);
      phase := Idle;
      if !ok {
        return Error;
      }
      return Requeue(60);
    }

    method RecordSuccess(app: GitApplication, revision: string, resources: seq<Resource>, probe: Probe, io: Io)
      returns (ok: bool)
      modifies this`stored, app, cluster.journal
      ensures var status := Succeeded(old(app.StatusValue()), revision, probe, resources, io.now);
              var edited := old(app.Copy()).(status := status);
              && Updated(old(State()), old(Effects()), edited, io, app)
              && ok == Acknowledged(old(State()), edited, io)
      ensures app.sync == Synced && app.revision == revision && app.lastSyncAt == Some(io.now)
      ensures ChecksOut(app.health, app.resources, probe, resources)
    {
      hide ChecksOut, Worst, IsWorst, StatusesOf, Write, AfterWrite, Acknowledged, WriteEffects, State, Updated;
      ghost var status := Succeeded(app.StatusValue(), revision, probe, resources, io.now);
      var health, statuses := Check(probe, resources);
      var previousRevisions := app.previousRevisions;
      if |previousRevisions| >= 10 {
        previousRevisions := previousRevisions[1..];
      }
      if app.revision != "" && app.revision != revision {
        previousRevisions := previousRevisions + [app.revision];
      }
      app.sync := Synced;
      app.health := health;
      app.lastSyncAt := Some(io.now);
      app.revision := revision;
      app.previousRevisions := previousRevisions;
      app.resources := statuses;
      assert app.StatusValue() == status;
      ok := Update(app, io);
    }
  }
}
