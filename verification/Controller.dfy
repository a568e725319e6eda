/** Reconciliation as a state machine. Each step is one effect the outside world can see or one answer
    it gives, so the operator may crash between any two of them. */
module Controller {
  import opened Status
  import opened Manifest
  import opened Health
  import opened Applier

  /** Every version of the status the API server has stored, oldest first. */
  type Versions = s: seq<AppStatus> | s != [] witness [NEW_APP]

  const NEW_APP := AppStatus(NotSet, HealthNotSet, None, "", [], [], [])

  /** The copy of the application one run works on: the version it was read at or last wrote, the
      policy in its spec, and its status, which the run edits before writing it back. */
  datatype App = App(version: nat, policy: Option<SyncPolicy>, status: AppStatus)

  datatype Phase =
    | Idle
    | Fetched(app: App)
    | Cloned(app: App, revision: string)
    | Parsed(app: App, revision: string, resources: seq<Resource>)
    | Announced(app: App, revision: string, resources: seq<Resource>)
    | Applying(app: App, revision: string, resources: seq<Resource>, done: nat)
    | ApplyError(app: App, revision: string, resources: seq<Resource>, message: string)
    | ApplyDone(app: App, revision: string, resources: seq<Resource>)

  /** `repo` gives the manifests found at a revision, `head` the revision the branch points to. */
  datatype World = World(
    repo: string -> seq<Resource>, head: string, stored: Versions, log: seq<Event>, phase: Phase)
  {
    function Current(): AppStatus {
      stored[|stored| - 1]
    }
  }

  /** What becomes of a status write: whether it reaches the API server, whether the answer then comes
      back, and the time stamped on it. A stored write whose answer is lost looks like a failure. */
  datatype Io = Io(lands: bool, acked: bool, now: int)

  datatype Action =
    | MoveHead(revision: string)
    | Crash
    | Get(version: nat, policy: Option<SyncPolicy>)
    | CloneFails(err: string, io: Io)
    | CloneSucceeds
    | ParseFails(err: string, io: Io)
    | ParseSucceeds
    | Decide(probe: Probe, io: Io)
    | BeginApply
    | ApplyNext(answer: Option<string>)
    | EndApply(answer: Option<string>)
    | ReportFailure(io: Io)
    | ReportSuccess(probe: Probe, io: Io)

  // ---------------------------------------------------------------- status edits

  function ResourceStatuses(resources: seq<Resource>, sync: SyncStatus, health: HealthStatus): (s: seq<ResourceStatus>)
    ensures |s| == |resources|
  {
    seq(|resources|, i requires 0 <= i < |resources| =>
      ResourceStatus(resources[i].kind, resources[i].name, resources[i].namespace, sync, health))
  }

  function WithSyncError(cs: seq<Condition>, err: Option<string>, now: int): seq<Condition> {
    if err.Some? then SetCondition(cs, SYNC_ERROR, ConditionTrue, err.value, now)
    else SetCondition(cs, SYNC_ERROR, ConditionFalse, "", now)
  }

  /** The edits of updateStatus. The parser returns nil for no resources at all, and nil leaves the
      resource statuses as they were. */
  function Reported(s: AppStatus, sync: SyncStatus, health: HealthStatus, revision: string,
                    resources: seq<Resource>, err: Option<string>, now: int): AppStatus {
    s.(sync := sync,
       health := health,
       revision := revision,
       conditions := WithSyncError(s.conditions, err, now),
       resources := if resources == [] then s.resources else ResourceStatuses(resources, sync, health))
  }

  /** The edits of updateHealthStatus after a health check. */
  function HealthChecked(s: AppStatus, probe: Probe, resources: seq<Resource>): AppStatus {
    s.(health := Worst(StatusesOf(probe, resources)), resources := StatusesOf(probe, resources))
  }

  /** The edits that record a successful sync. */
  function Succeeded(s: AppStatus, revision: string, probe: Probe, resources: seq<Resource>, now: int): AppStatus {
    s.(sync := Synced,
       health := Worst(StatusesOf(probe, resources)),
       lastSyncAt := Some(now),
       revision := revision,
       previousRevisions := TrimThenAppend(s.previousRevisions, s.revision, revision),
       resources := StatusesOf(probe, resources))
  }

  predicate AlreadySynced(s: AppStatus, revision: string) {
    s.revision == revision && s.sync == Synced
  }

  predicate ShouldSync(policy: Option<SyncPolicy>, s: AppStatus) {
    (policy.Some? && policy.value.automated) || s.sync == NotSet || s.sync == OutOfSync
  }

  // ---------------------------------------------------------------- steps

  /** A write is refused when another version has been stored since the copy was read; it may also be
      lost on the way. Either way the run carries on with the copy it has. */
  predicate Accepted(w: World, app: App, io: Io) {
    io.lands && app.version == |w.stored| - 1
  }

  function Write(w: World, app: App, io: Io): World {
    if Accepted(w, app, io) then w.(stored := w.stored + [app.status]) else w
  }

  /** The caller learns that its write was stored, and the new version with it. */
  predicate Acknowledged(w: World, app: App, io: Io) {
    Accepted(w, app, io) && io.acked
  }

  function AfterWrite(w: World, app: App, io: Io): App {
    if Acknowledged(w, app, io) then app.(version := |w.stored|) else app
  }

  function WriteAndStop(w: World, app: App, status: AppStatus, io: Io): World {
    Write(w, app.(status := status), io).(phase := Idle)
  }

  function DecideStep(w: World, app: App, revision: string, resources: seq<Resource>, probe: Probe, io: Io): World {
    if AlreadySynced(app.status, revision) then
      WriteAndStop(w, app, HealthChecked(app.status, probe, resources), io)
    else if !ShouldSync(app.policy, app.status) then
      WriteAndStop(w, app, Reported(app.status, OutOfSync, HealthUnknown, revision, resources, None, io.now), io)
    else
      var syncing := app.(status := Reported(app.status, Syncing, Progressing, revision, resources, None, io.now));
      Write(w, syncing, io).(phase := Announced(AfterWrite(w, syncing, io), revision, resources))
  }

  function ApplyNextStep(w: World, p: Phase, answer: Option<string>): World
    requires p.Applying? && p.done < |p.resources|
  {
    var res := p.resources[p.done];
    if answer.Some? then
      w.(log := w.log + [ApplyFailed(res)],
         phase := ApplyError(p.app, p.revision, p.resources, ApplyMessage(res, answer.value)))
    else
      w.(log := w.log + [Applied(res)], phase := p.(done := p.done + 1))
  }

  function EndApplyStep(w: World, p: Phase, answer: Option<string>): World
    requires p.Applying?
  {
    if !Prunes(p.app.policy) then
      w.(log := w.log + [Completed(p.revision)], phase := ApplyDone(p.app, p.revision, p.resources))
    else if answer.Some? then
      w.(log := w.log + [PruneFailed], phase := ApplyError(p.app, p.revision, p.resources, PruneMessage(answer.value)))
    else
      w.(log := w.log + [Pruned(p.resources), Completed(p.revision)],
         phase := ApplyDone(p.app, p.revision, p.resources))
  }

  predicate Enabled(w: World, a: Action) {
    match a
    case MoveHead(_) => true
    case Crash => true
    case Get(version, _) => w.phase.Idle? && version < |w.stored|
    case CloneFails(_, _) => w.phase.Fetched?
    case CloneSucceeds => w.phase.Fetched?
    case ParseFails(_, _) => w.phase.Cloned?
    case ParseSucceeds => w.phase.Cloned?
    case Decide(_, _) => w.phase.Parsed?
    case BeginApply => w.phase.Announced?
    case ApplyNext(_) => w.phase.Applying? && w.phase.done < |w.phase.resources|
    case EndApply(_) => w.phase.Applying? && w.phase.done >= |w.phase.resources|
    case ReportFailure(_) => w.phase.ApplyError?
    case ReportSuccess(_, _) => w.phase.ApplyDone?
  }

  function Do(w: World, a: Action): (w': World)
    requires Enabled(w, a)
    ensures |w'.stored| >= |w.stored| && |w'.log| >= |w.log|
  {
    var p := w.phase;
    match a
    case MoveHead(revision) => w.(head := revision)
    case Crash => w.(phase := Idle)
    case Get(version, policy) => w.(phase := Fetched(App(version, policy, w.stored[version])))
    case CloneFails(err, io) =>
      WriteAndStop(w, p.app, Reported(p.app.status, SyncUnknown, HealthUnknown, "", [], Some(err), io.now), io)
    case CloneSucceeds => w.(phase := Cloned(p.app, w.head))
    case ParseFails(err, io) =>
      WriteAndStop(w, p.app, Reported(p.app.status, OutOfSync, HealthUnknown, p.revision, [], Some(err), io.now), io)
    case ParseSucceeds => w.(phase := Parsed(p.app, p.revision, w.repo(p.revision)))
    case Decide(probe, io) => DecideStep(w, p.app, p.revision, p.resources, probe, io)
    case BeginApply => w.(log := w.log + [Begun(p.revision)], phase := Applying(p.app, p.revision, p.resources, 0))
    case ApplyNext(answer) => ApplyNextStep(w, p, answer)
    case EndApply(answer) => EndApplyStep(w, p, answer)
    case ReportFailure(io) =>
      WriteAndStop(
        w, p.app, Reported(p.app.status, OutOfSync, Degraded, p.revision, p.resources, Some(p.message), io.now), io)
    case ReportSuccess(probe, io) =>
      WriteAndStop(w, p.app, Succeeded(p.app.status, p.revision, probe, p.resources, io.now), io)
  }

  // ---------------------------------------------------------------- runs of the machine

  predicate IsRun(w: World, actions: seq<Action>)
    decreases |actions|
  {
    actions == [] || (Enabled(w, actions[0]) && IsRun(Do(w, actions[0]), actions[1..]))
  }

  function After(w: World, actions: seq<Action>): World
    requires IsRun(w, actions)
    decreases |actions|
  {
    if actions == [] then w else After(Do(w, actions[0]), actions[1..])
  }

  function Wrotes(statuses: seq<AppStatus>): (effects: seq<Effect>)
    ensures |effects| == |statuses|
  {
    seq(|statuses|, i requires 0 <= i < |statuses| => Wrote(statuses[i]))
  }

  /** What the outside world sees of one step. */
  function EffectsOf(w: World, a: Action): seq<Effect>
    requires Enabled(w, a)
  {
    Wrotes(Do(w, a).stored[|w.stored|..]) + Saws(Do(w, a).log[|w.log|..])
  }

  /** ... and of a run, in order. */
  function EffectsAlong(w: World, actions: seq<Action>): seq<Effect>
    requires IsRun(w, actions)
    decreases |actions|
  {
    if actions == [] then [] else EffectsOf(w, actions[0]) + EffectsAlong(Do(w, actions[0]), actions[1..])
  }

  /** An application that the operator has not seen yet: anything but a claim to be synced. */
  ghost predicate Initial(w: World) {
    w.phase == Idle && w.log == [] && |w.stored| == 1 && w.Current().sync == NotSet
  }

  // ---------------------------------------------------------------- one whole reconcile

  /** Everything the outside world answers during one reconcile. */
  datatype Outcomes = Outcomes(
    cloneError: Option<string>,
    parseError: Option<string>,
    answers: Answers,
    probe: Probe,
    first: Io,
    last: Io)

  /** What the code does next in each phase, given the answers it gets. */
  function NextAction(p: Phase, o: Outcomes): Action
    requires !p.Idle?
  {
    match p
    case Fetched(_) => if o.cloneError.Some? then CloneFails(o.cloneError.value, o.last) else CloneSucceeds
    case Cloned(_, _) => if o.parseError.Some? then ParseFails(o.parseError.value, o.last) else ParseSucceeds
    case Parsed(_, _, _) => Decide(o.probe, o.first)
    case Announced(_, _, _) => BeginApply
    case Applying(_, _, resources, done) =>
      if done < |resources| then ApplyNext(o.answers.apply(done)) else EndApply(o.answers.prune)
    case ApplyError(_, _, _, _) => ReportFailure(o.last)
    case ApplyDone(_, _, _) => ReportSuccess(o.probe, o.last)
  }

  function Stage(p: Phase): nat {
    match p
    case Idle => 0
    case ApplyDone(_, _, _) => 1
    case ApplyError(_, _, _, _) => 1
    case Applying(_, _, _, _) => 2
    case Announced(_, _, _) => 3
    case Parsed(_, _, _) => 4
    case Cloned(_, _) => 5
    case Fetched(_) => 6
  }

  function Remaining(p: Phase): nat {
    if p.Applying? && p.done < |p.resources| then |p.resources| - p.done else 0
  }

  function Next(w: World, o: Outcomes): (w': World)
    requires !w.phase.Idle?
    ensures Stage(w'.phase) < Stage(w.phase)
            || (Stage(w'.phase) == Stage(w.phase) && Remaining(w'.phase) < Remaining(w.phase))
  {
    Do(w, NextAction(w.phase, o))
  }

  /** Run the current reconcile to its end. */
  function Complete(w: World, o: Outcomes): World
    decreases Stage(w.phase), Remaining(w.phase)
  {
    if w.phase.Idle? then w else Complete(Next(w, o), o)
  }

  /** The actions it takes on the way. */
  function Script(w: World, o: Outcomes): seq<Action>
    decreases Stage(w.phase), Remaining(w.phase)
  {
    if w.phase.Idle? then [] else [NextAction(w.phase, o)] + Script(Next(w, o), o)
  }

  /** A whole reconcile is a run of the machine, so whatever holds along every run holds at every point
      of every reconcile. */
  lemma {:induction false} CompleteIsRun(w: World, o: Outcomes)
    ensures IsRun(w, Script(w, o)) && After(w, Script(w, o)) == Complete(w, o)
    ensures Complete(w, o).phase.Idle?
    decreases Stage(w.phase), Remaining(w.phase)
  {
    if !w.phase.Idle? {
      CompleteIsRun(Next(w, o), o);
      assert Script(w, o)[1..] == Script(Next(w, o), o);
    }
  }

  /** What the outside world sees of a whole reconcile. */
  function Trail(w: World, o: Outcomes): seq<Effect> {
    CompleteIsRun(w, o);
    EffectsAlong(w, Script(w, o))
  }

  lemma TrailStep(w: World, o: Outcomes)
    ensures w.phase.Idle? ==> Trail(w, o) == []
    ensures !w.phase.Idle? ==> Trail(w, o) == EffectsOf(w, NextAction(w.phase, o)) + Trail(Next(w, o), o)
  {
    hide EffectsOf;
    CompleteIsRun(w, o);
    if !w.phase.Idle? {
      assert Script(w, o)[1..] == Script(Next(w, o), o);
    }
  }

  /** What the outside world sees of a status write. */
  function WriteEffects(w: World, app: App, io: Io): seq<Effect> {
    if Accepted(w, app, io) then [Wrote(app.status)] else []
  }

  lemma EffectsOfWrite(w: World, a: Action, app: App, io: Io)
    requires Enabled(w, a) && Do(w, a).stored == Write(w, app, io).stored && Do(w, a).log == w.log
    ensures EffectsOf(w, a) == WriteEffects(w, app, io)
  {
    hide Do, Enabled;
    assert Saws([]) == [];
  }

  lemma {:induction false} RunConcat(w: World, first: seq<Action>, second: seq<Action>)
    requires IsRun(w, first) && IsRun(After(w, first), second)
    ensures IsRun(w, first + second) && After(w, first + second) == After(After(w, first), second)
    decreases |first|
  {
    hide Enabled;
    if first == [] {
      assert first + second == second;
    } else {
      RunConcat(Do(w, first[0]), first[1..], second);
      assert (first + second)[1..] == first[1..] + second;
    }
  }

  lemma {:induction false} RunPrefix(w: World, actions: seq<Action>, n: nat)
    requires IsRun(w, actions) && n <= |actions|
    ensures IsRun(w, actions[..n])
    decreases n
  {
    hide Enabled;
    if n > 0 {
      RunPrefix(Do(w, actions[0]), actions[1..], n - 1);
      assert actions[..n][1..] == actions[1..][..n - 1];
    }
  }

  /** A reconcile that dies after any number of its steps is a run of the machine too. */
  lemma {:induction false} CrashAnywhere(w: World, o: Outcomes, n: nat)
    requires n <= |Script(w, o)|
    ensures IsRun(w, Script(w, o)[..n] + [Crash])
  {
    CompleteIsRun(w, o);
    RunPrefix(w, Script(w, o), n);
    var v := After(w, Script(w, o)[..n]);
    assert IsRun(v, [Crash]) by { assert [Crash][1..] == []; }
    RunConcat(w, Script(w, o)[..n], [Crash]);
  }
}
