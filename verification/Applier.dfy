/** Applying manifests to the target cluster: in order, stopping at the first error, pruning last. */
module Applier {
  import opened Status
  import opened Manifest

  datatype SyncPolicy = SyncPolicy(automated: bool, prune: bool, selfHeal: bool)

  /** What the target cluster sees; `Begun` and `Completed` mark a call of Apply and its return
      without error, for the revision the manifests were parsed at. */
  datatype Event =
    | Begun(revision: string)
    | Applied(res: Resource)
    | ApplyFailed(res: Resource)
    | Pruned(kept: seq<Resource>)
    | PruneFailed
    | Completed(revision: string)

  /** The cluster's answers: the error, if any, of the i-th resource and of pruning. */
  datatype Answers = Answers(apply: nat -> Option<string>, prune: Option<string>)

  datatype Outcome = Outcome(events: seq<Event>, error: Option<string>)

  predicate Prunes(policy: Option<SyncPolicy>) {
    policy.Some? && policy.value.prune
  }

  function ApplyMessage(res: Resource, err: string): string {
    "failed to apply " + res.kind + "/" + res.name + ": " + err
  }

  function PruneMessage(err: string): string {
    "failed to prune resources: " + err
  }

  /** The effects and the result of applying the resources from position `from` on. */
  function Attempt(resources: seq<Resource>, from: nat, prune: bool, answers: Answers): Outcome
    decreases |resources| - from
  {
    if from >= |resources| then
      if !prune then Outcome([], None)
      else if answers.prune.Some? then Outcome([PruneFailed], Some(PruneMessage(answers.prune.value)))
      else Outcome([Pruned(resources)], None)
    else if answers.apply(from).Some? then
      Outcome([ApplyFailed(resources[from])], Some(ApplyMessage(resources[from], answers.apply(from).value)))
    else
      var rest := Attempt(resources, from + 1, prune, answers);
      Outcome([Applied(resources[from])] + rest.events, rest.error)
  }

  function AppliedUpTo(resources: seq<Resource>, n: nat): (events: seq<Event>)
    requires n <= |resources|
    ensures |events| == n
  {
    seq(n, i requires 0 <= i < n => Applied(resources[i]))
  }

  /** The effects of a complete, faultless apply. */
  function FullEffects(resources: seq<Resource>, prune: bool): seq<Event> {
    AppliedUpTo(resources, |resources|) + if prune then [Pruned(resources)] else []
  }

  ghost predicate FirstFailure(resources: seq<Resource>, from: nat, answers: Answers, k: nat) {
    from <= k < |resources| && answers.apply(k).Some? && forall i: nat :: from <= i < k ==> answers.apply(i).None?
  }

  ghost predicate AllApply(resources: seq<Resource>, from: nat, answers: Answers) {
    forall i: nat :: from <= i < |resources| ==> answers.apply(i).None?
  }

  lemma {:induction false} AttemptThatApplies(resources: seq<Resource>, from: nat, prune: bool, answers: Answers)
    requires from <= |resources| && AllApply(resources, from, answers)
    ensures var outcome := Attempt(resources, from, prune, answers);
            && AppliedUpTo(resources, from) + outcome.events
               == AppliedUpTo(resources, |resources|) + Attempt(resources, |resources|, prune, answers).events
            && outcome.error == Attempt(resources, |resources|, prune, answers).error
    decreases |resources| - from
  {
    if from < |resources| {
      AttemptThatApplies(resources, from + 1, prune, answers);
      OneMoreApplied(resources, from, Attempt(resources, from + 1, prune, answers).events);
    }
  }

  lemma {:induction false} AttemptThatFails(resources: seq<Resource>, from: nat, prune: bool, answers: Answers, k: nat)
    requires FirstFailure(resources, from, answers, k)
    ensures var outcome := Attempt(resources, from, prune, answers);
            && AppliedUpTo(resources, from) + outcome.events == AppliedUpTo(resources, k) + [ApplyFailed(resources[k])]
            && outcome.error == Some(ApplyMessage(resources[k], answers.apply(k).value))
    decreases k - from
  {
    if from < k {
      AttemptThatFails(resources, from + 1, prune, answers, k);
      OneMoreApplied(resources, from, Attempt(resources, from + 1, prune, answers).events);
    }
  }

  lemma OneMoreApplied(resources: seq<Resource>, n: nat, rest: seq<Event>)
    requires n < |resources|
    ensures AppliedUpTo(resources, n) + ([Applied(resources[n])] + rest) == AppliedUpTo(resources, n + 1) + rest
  {
    assert AppliedUpTo(resources, n + 1) == AppliedUpTo(resources, n) + [Applied(resources[n])];
  }

  lemma {:induction false} FailsSomewhere(resources: seq<Resource>, from: nat, answers: Answers) returns (k: nat)
    requires from <= |resources| && !AllApply(resources, from, answers)
    ensures FirstFailure(resources, from, answers, k)
    decreases |resources| - from
  {
    k := from;
    if answers.apply(from).None? {
      k := FailsSomewhere(resources, from + 1, answers);
    }
  }

  /** Apply succeeds if and only if nothing failed, and then every resource was applied once, in
      manifest order, with pruning last. Otherwise either some resource failed: the effects stop at the
      first that did, nothing is pruned, and its error is returned; or all were applied and pruning
      failed, and that error is returned. */
  lemma {:induction false} AttemptMeaning(resources: seq<Resource>, prune: bool, answers: Answers)
    ensures var outcome := Attempt(resources, 0, prune, answers);
            outcome.error.None? <==> AllApply(resources, 0, answers) && (prune ==> answers.prune.None?)
    ensures var outcome := Attempt(resources, 0, prune, answers);
            outcome.error.None? ==>
              && |outcome.events| == |resources| + (if prune then 1 else 0)
              && (forall i :: 0 <= i < |resources| ==> outcome.events[i] == Applied(resources[i]))
              && (prune ==> outcome.events[|resources|] == Pruned(resources))
    ensures var outcome := Attempt(resources, 0, prune, answers);
            AllApply(resources, 0, answers) && prune && answers.prune.Some? ==>
              && outcome.events == AppliedUpTo(resources, |resources|) + [PruneFailed]
              && outcome.error == Some("failed to prune resources: " + answers.prune.value)
    ensures var outcome := Attempt(resources, 0, prune, answers);
            forall k: nat :: FirstFailure(resources, 0, answers, k) ==>
              && outcome.events == AppliedUpTo(resources, k) + [ApplyFailed(resources[k])]
              && outcome.error == Some("failed to apply " + resources[k].kind + "/" + resources[k].name + ": "
                                       + answers.apply(k).value)
  {
    var outcome := Attempt(resources, 0, prune, answers);
    assert AppliedUpTo(resources, 0) + outcome.events == outcome.events;
    if AllApply(resources, 0, answers) {
      AttemptThatApplies(resources, 0, prune, answers);
    } else {
      var first := FailsSomewhere(resources, 0, answers);
      AttemptThatFails(resources, 0, prune, answers, first);
      forall k: nat | FirstFailure(resources, 0, answers, k) ensures k == first {
      }
    }
  }

  /** Everything a call of Apply for `revision` leaves in the cluster's log. */
  function ApplyLog(revision: string, resources: seq<Resource>, prune: bool, answers: Answers): seq<Event> {
    var outcome := Attempt(resources, 0, prune, answers);
    [Begun(revision)] + outcome.events + if outcome.error.None? then [Completed(revision)] else []
  }

  /** The cluster is asked to remove what is no longer listed. */
  ghost predicate PruningTried(events: seq<Event>) {
    exists i :: 0 <= i < |events| && (events[i].Pruned? || events[i].PruneFailed?)
  }

  /** Pruning is tried if and only if the policy asks for it and every resource was applied. */
  lemma PrunesIff(revision: string, resources: seq<Resource>, policy: Option<SyncPolicy>, answers: Answers)
    ensures PruningTried(ApplyLog(revision, resources, Prunes(policy), answers)) <==>
            policy.Some? && policy.value.prune && AllApply(resources, 0, answers)
  {
    hide Attempt, ApplyMessage, PruneMessage;
    var log := ApplyLog(revision, resources, Prunes(policy), answers);
    var n := |resources|;
    AttemptMeaning(resources, Prunes(policy), answers);
    if !AllApply(resources, 0, answers) {
      var k := FailsSomewhere(resources, 0, answers);
    } else if Prunes(policy) {
      assert log[n + 1].Pruned? || log[n + 1].PruneFailed?;
    }
  }

  // ---------------------------------------------------------------- effects in order

  /** What the outside world sees of the operator, in the order it happens: a status version stored by
      the API server, or an event at the target cluster. */
  datatype Effect = Wrote(status: AppStatus) | Saw(event: Event)

  function Saws(events: seq<Event>): (effects: seq<Effect>)
    ensures |effects| == |events|
  {
    seq(|events|, i requires 0 <= i < |events| => Saw(events[i]))
  }

  lemma SawsConcat(a: seq<Event>, b: seq<Event>)
    ensures Saws(a + b) == Saws(a) + Saws(b)
  {
  }

  /** One record of all effects, kept by everyone who has any. */
  class Journal {
    ghost var effects: seq<Effect>

    constructor ()
      ensures effects == []
    {
      effects := [];
    }
  }

  class TargetCluster {
    const journal: Journal
    ghost var log: seq<Event>

    constructor (journal: Journal)
      ensures this.journal == journal && log == []
    {
      this.journal := journal;
      log := [];
    }

    /** The log and the journal have grown by exactly these events. */
    ghost predicate Grown(log0: seq<Event>, effects0: seq<Effect>, seen: seq<Event>)
      reads this, journal
    {
      log == log0 + seen && journal.effects == effects0 + Saws(seen)
    }

    /** The cluster sees one event more. */
    ghost method See(event: Event, log0: seq<Event>, effects0: seq<Effect>, seen: seq<Event>)
      returns (seen': seq<Event>)
      requires Grown(log0, effects0, seen)
      modifies this, journal
      ensures seen' == seen + [event] && Grown(log0, effects0, seen')
    {
      log := log + [event];
      journal.effects := journal.effects + [Saw(event)];
      SeenOneMore(effects0, seen, event);
      seen' := seen + [event];
    }

    method Apply(ghost revision: string, resources: seq<Resource>, policy: Option<SyncPolicy>, answers: Answers)
      returns (err: Option<string>)
      modifies this, journal
      ensures err == Attempt(resources, 0, Prunes(policy), answers).error
      ensures err.None? <==> AllApply(resources, 0, answers)
                             && (policy.Some? && policy.value.prune ==> answers.prune.None?)
      ensures Grown(old(log), old(journal.effects), ApplyLog(revision, resources, Prunes(policy), answers))
      ensures PruningTried(log[|old(log)|..]) <==>
              policy.Some? && policy.value.prune && AllApply(resources, 0, answers)
    {
      PrunesIff(revision, resources, policy, answers);
      AttemptMeaning(resources, Prunes(policy), answers);
      ghost var log0, effects0 := log, journal.effects;
      ghost var prune := Prunes(policy);
      ghost var outcome := Attempt(resources, 0, prune, answers);
      ghost var all := [Begun(revision)] + outcome.events;
      SawsOfNone();
      GrownByNone();
      hide Grown, Attempt, ApplyMessage, PruneMessage, PruningTried, AllApply;
      ghost var seen := See(Begun(revision), log0, effects0, []);
      for i := 0 to |resources|
        invariant Grown(log0, effects0, seen)
        invariant seen + Attempt(resources, i, prune, answers).events == all
        invariant Attempt(resources, i, prune, answers).error == outcome.error
      {
        AttemptUnfolds(resources, i, prune, answers, seen);
        var failure := answers.apply(i);
        if failure.Some? {
          seen := See(ApplyFailed(resources[i]), log0, effects0, seen);
          assert all + [] == all;
          NewPart(log0, effects0, seen);
          return Some(ApplyMessage(resources[i], failure.value));
        }
        seen := See(Applied(resources[i]), log0, effects0, seen);
      }
      AttemptUnfolds(resources, |resources|, prune, answers, seen);
      if policy.Some? && policy.value.prune {
        if answers.prune.Some? {
          seen := See(PruneFailed, log0, effects0, seen);
          assert all + [] == all;
          NewPart(log0, effects0, seen);
          return Some(PruneMessage(answers.prune.value));
        }
        seen := See(Pruned(resources), log0, effects0, seen);
      }
      seen := See(Completed(revision), log0, effects0, seen);
      NewPart(log0, effects0, seen);
      return None;
    }

    lemma NewPart(log0: seq<Event>, effects0: seq<Effect>, seen: seq<Event>)
      requires Grown(log0, effects0, seen)
      ensures |log0| <= |log| && log[|log0|..] == seen
    {
    }

    lemma GrownByNone()
      ensures Grown(log, journal.effects, [])
    {
      SawsOfNone();
    }
  }

  lemma AttemptUnfolds(
    resources: seq<Resource>, i: nat, prune: bool, answers: Answers, seen: seq<Event>)
    requires i <= |resources|
    ensures var outcome := Attempt(resources, i, prune, answers);
            if i == |resources| then
              if !prune then seen + outcome.events == seen && outcome.error.None?
              else if answers.prune.Some? then
                && seen + outcome.events == seen + [PruneFailed]
                && outcome.error == Some(PruneMessage(answers.prune.value))
              else seen + outcome.events == seen + [Pruned(resources)] && outcome.error.None?
            else if answers.apply(i).Some? then
              && seen + outcome.events == seen + [ApplyFailed(resources[i])]
              && outcome.error == Some(ApplyMessage(resources[i], answers.apply(i).value))
            else
              var rest := Attempt(resources, i + 1, prune, answers);
              && seen + outcome.events == (seen + [Applied(resources[i])]) + rest.events
              && outcome.error == rest.error
  {
    hide ApplyMessage, PruneMessage;
  }

  lemma SawsOfNone()
    ensures Saws([]) == []
  {
  }

  lemma SeenOneMore(before: seq<Effect>, seen: seq<Event>, event: Event)
    ensures before + Saws(seen) + [Saw(event)] == before + Saws(seen + [event])
  {
    SawsConcat(seen, [event]);
    assert Saws([event]) == [Saw(event)];
  }

  lemma ApplyLogParts(log: seq<Event>, revision: string, events: seq<Event>, mark: seq<Event>)
    ensures log + ([Begun(revision)] + events + mark) == (log + [Begun(revision)]) + events + mark
  {
  }
}
