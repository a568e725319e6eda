/** A run seen from outside. The effects of a run, replayed one by one, visit every state in which a
    crash can leave the API server and the target cluster. */
module CrashPoints {
  import opened Status
  import opened Applier
  import opened Controller
  import opened Safety

  /** The world once one more effect is seen. */
  function Seen(w: World, e: Effect): World {
    match e
    case Wrote(status) => w.(stored := w.stored + [status])
    case Saw(event) => w.(log := w.log + [event])
  }

  function Replay(w: World, effects: seq<Effect>): World
    decreases |effects|
  {
    if effects == [] then w else Replay(Seen(w, effects[0]), effects[1..])
  }

  /** Whichever of these effects the operator dies after, a stored `Synced` describes the latest apply. */
  ghost predicate SafeAlong(w: World, effects: seq<Effect>) {
    forall n | 0 <= n <= |effects| :: CurrentIsLatest(Replay(w, effects[..n]))
  }

  ghost predicate SameOutside(v: World, w: World) {
    v.repo == w.repo && v.stored == w.stored && v.log == w.log
  }

  // ---------------------------------------------------------------- replaying effects

  lemma {:induction false} ReplayConcat(w: World, a: seq<Effect>, b: seq<Effect>)
    ensures Replay(w, a + b) == Replay(Replay(w, a), b)
    decreases |a|
  {
    if a == [] {
      assert a + b == b;
    } else {
      assert (a + b)[1..] == a[1..] + b;
      ReplayConcat(Seen(w, a[0]), a[1..], b);
    }
  }

  lemma {:induction false} ReplaySame(v: World, w: World, effects: seq<Effect>)
    requires SameOutside(v, w)
    ensures SameOutside(Replay(v, effects), Replay(w, effects))
    decreases |effects|
  {
    if effects != [] {
      ReplaySame(Seen(v, effects[0]), Seen(w, effects[0]), effects[1..]);
    }
  }

  lemma {:induction false} ReplayWrotes(w: World, statuses: seq<AppStatus>)
    ensures SameOutside(Replay(w, Wrotes(statuses)), w.(stored := w.stored + statuses))
    decreases |statuses|
  {
    if statuses == [] {
      assert w.stored + statuses == w.stored;
    } else {
      assert Wrotes(statuses)[1..] == Wrotes(statuses[1..]);
      ReplayWrotes(Seen(w, Wrote(statuses[0])), statuses[1..]);
      assert w.stored + [statuses[0]] + statuses[1..] == w.stored + statuses;
    }
  }

  lemma {:induction false} ReplaySaws(w: World, events: seq<Event>)
    ensures SameOutside(Replay(w, Saws(events)), w.(log := w.log + events))
    decreases |events|
  {
    if events == [] {
      assert w.log + events == w.log;
    } else {
      assert Saws(events)[1..] == Saws(events[1..]);
      ReplaySaws(Seen(w, Saw(events[0])), events[1..]);
      assert w.log + [events[0]] + events[1..] == w.log + events;
    }
  }

  lemma StoredOnlyGrows(w: World, a: Action)
    requires Enabled(w, a)
    ensures Do(w, a).stored == w.stored + Do(w, a).stored[|w.stored|..]
    ensures Do(w, a).log == w.log + Do(w, a).log[|w.log|..]
  {
  }

  /** The effects of a step are all that the outside can tell of it. */
  lemma {:induction false} ReplayStep(w: World, a: Action)
    requires Enabled(w, a)
    ensures SameOutside(Replay(w, EffectsOf(w, a)), Do(w, a))
  {
    var w' := Do(w, a);
    var statuses, events := w'.stored[|w.stored|..], w'.log[|w.log|..];
    StoredOnlyGrows(w, a);
    var _ := LogOnlyGrows(w, a);
    hide Do;
    ReplayWrotes(w, statuses);
    ReplayConcat(w, Wrotes(statuses), Saws(events));
    ReplaySaws(Replay(w, Wrotes(statuses)), events);
  }

  /** Replaying the effects of a run leads to where the run leads. */
  lemma {:induction false} ReplayRun(w: World, actions: seq<Action>)
    requires IsRun(w, actions)
    ensures SameOutside(Replay(w, EffectsAlong(w, actions)), After(w, actions))
    decreases |actions|
  {
    hide EffectsOf, Do, Enabled;
    if actions != [] {
      var a, w' := actions[0], Do(w, actions[0]);
      var rest := EffectsAlong(w', actions[1..]);
      ReplayStep(w, a);
      ReplayConcat(w, EffectsOf(w, a), rest);
      ReplaySame(Replay(w, EffectsOf(w, a)), w', rest);
      ReplayRun(w', actions[1..]);
    }
  }

  /** So a whole reconcile's trail accounts for every status stored and every event logged. */
  lemma {:induction false} TrailReplays(w: World, o: Outcomes)
    ensures SameOutside(Replay(w, Trail(w, o)), Complete(w, o))
  {
    CompleteIsRun(w, o);
    ReplayRun(w, Script(w, o));
  }

  // ---------------------------------------------------------------- safety seen from outside

  lemma LatestSame(v: World, w: World)
    requires SameOutside(v, w)
    ensures CurrentIsLatest(v) <==> CurrentIsLatest(w)
  {
  }

  lemma SafeSame(v: World, w: World, effects: seq<Effect>)
    requires SameOutside(v, w) && SafeAlong(v, effects)
    ensures SafeAlong(w, effects)
  {
    hide CurrentIsLatest, SameOutside, Replay;
    forall n | 0 <= n <= |effects| ensures CurrentIsLatest(Replay(w, effects[..n])) {
      ReplaySame(v, w, effects[..n]);
      LatestSame(Replay(v, effects[..n]), Replay(w, effects[..n]));
    }
  }

  lemma {:induction false} SafeParts(w: World, a: seq<Effect>, b: seq<Effect>)
    requires SafeAlong(w, a + b)
    ensures SafeAlong(w, a) && SafeAlong(Replay(w, a), b)
  {
    hide CurrentIsLatest, Replay;
    forall n | 0 <= n <= |a| ensures CurrentIsLatest(Replay(w, a[..n])) {
      assert (a + b)[..n] == a[..n];
    }
    forall n | 0 <= n <= |b| ensures CurrentIsLatest(Replay(Replay(w, a), b[..n])) {
      assert (a + b)[..|a| + n] == a + b[..n];
      ReplayConcat(w, a, b[..n]);
    }
  }

  lemma {:induction false} SafeWhole(w: World, a: seq<Effect>, b: seq<Effect>)
    requires SafeAlong(w, a) && SafeAlong(Replay(w, a), b)
    ensures SafeAlong(w, a + b)
  {
    hide CurrentIsLatest, Replay;
    forall n | 0 <= n <= |a + b| ensures CurrentIsLatest(Replay(w, (a + b)[..n])) {
      if n <= |a| {
        assert (a + b)[..n] == a[..n];
      } else {
        assert (a + b)[..n] == a + b[..n - |a|];
        ReplayConcat(w, a, b[..n - |a|]);
      }
    }
  }

  lemma SafeUnlessSynced(w: World, events: seq<Event>)
    requires w.Current().sync != Synced
    ensures SafeAlong(w, Saws(events))
  {
    hide Replay;
    forall n | 0 <= n <= |events| ensures CurrentIsLatest(Replay(w, Saws(events)[..n])) {
      assert Saws(events)[..n] == Saws(events[..n]);
      ReplaySaws(w, events[..n]);
    }
  }

  lemma EffectsOfOthers(w: World, a: Action)
    requires Enabled(w, a) && !a.EndApply?
    ensures |EffectsOf(w, a)| <= 1
  {
    hide AppliedUpTo, WithSyncError, ResourceStatuses, TrimThenAppend;
  }

  lemma EffectsOfEndApply(w: World, a: Action)
    requires Enabled(w, a) && a.EndApply?
    ensures EffectsOf(w, a) == Saws(Do(w, a).log[|w.log|..])
  {
    assert Wrotes([]) == [];
  }

  /** Within one step there is nothing to lose but by its end. */
  lemma StepSafe(w: World, a: Action)
    requires PhaseOk(w) && CurrentIsLatest(w) && Enabled(w, a)
    ensures SafeAlong(w, EffectsOf(w, a)) <==> CurrentIsLatest(Do(w, a))
  {
    var effects := EffectsOf(w, a);
    ReplayStep(w, a);
    LatestSame(Replay(w, effects), Do(w, a));
    if a.EndApply? {
      EffectsOfEndApply(w, a);
      StepKeepsLatestIff(w, a);
      BusyEndsOtherwise(w);
      if w.Current().sync == Synced {
        JustAppliedEndsInCompletion(w.repo, w.log, w.Current().revision);
      }
      SafeUnlessSynced(w, Do(w, a).log[|w.log|..]);
    } else {
      EffectsOfOthers(w, a);
      OneEffectSafe(w, effects);
    }
  }

  lemma {:induction false} OneEffectSafe(w: World, effects: seq<Effect>)
    requires CurrentIsLatest(w) && |effects| <= 1
    ensures SafeAlong(w, effects) <==> CurrentIsLatest(Replay(w, effects))
  {
    hide CurrentIsLatest;
    assert effects[..|effects|] == effects;
    forall n | 0 <= n <= |effects| ensures n == 0 || effects[..n] == effects {
    }
    assert effects[..0] == [];
  }

  /** What an observer sees after every effect of a run is safe if and only if every step is. */
  lemma {:induction false} SafeIffAlwaysLatest(w: World, actions: seq<Action>)
    requires PhaseOk(w) && CurrentIsLatest(w) && IsRun(w, actions)
    ensures SafeAlong(w, EffectsAlong(w, actions)) <==> AlwaysLatest(w, actions)
    decreases |actions|
  {
    hide CurrentIsLatest, PhaseOk, EffectsOf, Do, Enabled, SafeAlong, Replay, SameOutside;
    if actions == [] {
      OneEffectSafe(w, []);
      assert Replay(w, []) == w by { ReplayNothing(w); }
    } else {
      var a, w' := actions[0], Do(w, actions[0]);
      var rest := EffectsAlong(w', actions[1..]);
      StepSafe(w, a);
      StepKeepsPhase(w, a);
      ReplayStep(w, a);
      if SafeAlong(w, EffectsOf(w, a) + rest) {
        SafeParts(w, EffectsOf(w, a), rest);
        SafeSame(Replay(w, EffectsOf(w, a)), w', rest);
        SafeIffAlwaysLatest(w', actions[1..]);
      }
      if AlwaysLatest(w, actions) {
        AlwaysLatestStarts(w', actions[1..]);
        SafeIffAlwaysLatest(w', actions[1..]);
        SameSymmetric(Replay(w, EffectsOf(w, a)), w');
        SafeSame(w', Replay(w, EffectsOf(w, a)), rest);
        SafeWhole(w, EffectsOf(w, a), rest);
      }
    }
  }

  lemma {:induction false} ReplayNothing(w: World)
    ensures Replay(w, []) == w
  {
  }

  lemma SameSymmetric(v: World, w: World)
    requires SameOutside(v, w)
    ensures SameOutside(w, v)
  {
  }

  lemma {:induction false} AlwaysLatestStarts(w: World, actions: seq<Action>)
    requires IsRun(w, actions) && AlwaysLatest(w, actions)
    ensures CurrentIsLatest(w)
  {
  }

  // ---------------------------------------------------------------- one reconcile seen from outside

  lemma {:induction false} NeverBeginsStep(w: World, o: Outcomes)
    requires !w.phase.Idle?
    ensures IsRun(w, Script(w, o)) && IsRun(Next(w, o), Script(Next(w, o), o))
    ensures NeverBeginsOverSynced(w, Script(w, o)) <==>
            !BeginsOverSynced(w, NextAction(w.phase, o)) && NeverBeginsOverSynced(Next(w, o), Script(Next(w, o), o))
  {
    CompleteIsRun(w, o);
    assert Script(w, o)[1..] == Script(Next(w, o), o);
  }

  lemma {:induction false} BeginsOnlyOnce(w: World, o: Outcomes)
    requires Stage(w.phase) <= 2
    ensures IsRun(w, Script(w, o)) && NeverBeginsOverSynced(w, Script(w, o))
    decreases Stage(w.phase), Remaining(w.phase)
  {
    hide Next;
    if !w.phase.Idle? {
      NeverBeginsStep(w, o);
      BeginsOnlyOnce(Next(w, o), o);
    }
  }

  /** The sync this reconcile comes to is not announced: its Syncing status is lost, or refused because
      the copy read is stale, while the stored status says synced. */
  predicate SyncsUnannounced(w: World, version: nat, policy: Option<SyncPolicy>, o: Outcomes)
    requires version < |w.stored|
  {
    && o.cloneError.None? && o.parseError.None?
    && !AlreadySynced(w.stored[version], w.head) && ShouldSync(policy, w.stored[version])
    && w.Current().sync == Synced
    && !(o.first.lands && version == |w.stored| - 1)
  }

  lemma {:induction false} BeginsIffUnannounced(w: World, version: nat, policy: Option<SyncPolicy>, o: Outcomes)
    requires w.phase.Idle? && version < |w.stored|
    ensures var fetched := Do(w, Get(version, policy));
            && IsRun(fetched, Script(fetched, o))
            && (NeverBeginsOverSynced(fetched, Script(fetched, o)) <==> !SyncsUnannounced(w, version, policy, o))
  {
    hide Script, NeverBeginsOverSynced, IsRun, WithSyncError, ResourceStatuses, TrimThenAppend;
    var fetched := Do(w, Get(version, policy));
    NeverBeginsStep(fetched, o);
    var cloned := Next(fetched, o);
    if o.cloneError.Some? {
      BeginsOnlyOnce(cloned, o);
    } else {
      NeverBeginsStep(cloned, o);
      var parsed := Next(cloned, o);
      if o.parseError.Some? {
        BeginsOnlyOnce(parsed, o);
      } else {
        NeverBeginsStep(parsed, o);
        var decided := Next(parsed, o);
        if decided.phase.Idle? {
          BeginsOnlyOnce(decided, o);
        } else {
          NeverBeginsStep(decided, o);
          BeginsOnlyOnce(Next(decided, o), o);
        }
      }
    }
  }

  /** Wherever one reconcile dies, and whatever fails in it, the stored `Synced` describes the latest
      apply, if and only if the reconcile does not sync unannounced. */
  lemma ReconcileSafeIff(w: World, version: nat, policy: Option<SyncPolicy>, o: Outcomes)
    requires w.phase.Idle? && CurrentIsLatest(w) && version < |w.stored|
    ensures SafeAlong(w, Trail(Do(w, Get(version, policy)), o)) <==> !SyncsUnannounced(w, version, policy, o)
  {
    hide CurrentIsLatest, SafeAlong, Script, NeverBeginsOverSynced, IsRun, EffectsAlong, SyncsUnannounced;
    var fetched := Do(w, Get(version, policy));
    BeginsIffUnannounced(w, version, policy, o);
    LatestSame(w, fetched);
    AlwaysLatestIff(fetched, Script(fetched, o));
    SafeIffAlwaysLatest(fetched, Script(fetched, o));
    if SafeAlong(w, Trail(fetched, o)) {
      SafeSame(w, fetched, Trail(fetched, o));
    } else if SafeAlong(fetched, Trail(fetched, o)) {
      SafeSame(fetched, w, Trail(fetched, o));
    }
  }
}
