/** The persisted status of a GitApplication and the single-field updates the controller makes to it. */
module Status {

  datatype Option<+T> = None | Some(value: T)

  /** `NotSet` is the empty string of an application that has never been reconciled. */
  datatype SyncStatus = NotSet | Synced | OutOfSync | Syncing | SyncUnknown

  datatype HealthStatus = HealthNotSet | Healthy | Degraded | Progressing | Missing | HealthUnknown

  datatype ResourceStatus = ResourceStatus(
    kind: string, name: string, namespace: string,
    syncStatus: SyncStatus, healthStatus: HealthStatus)

  datatype ConditionStatus = ConditionTrue | ConditionFalse | ConditionUnknown

  datatype Condition = Condition(
    kind: string, status: ConditionStatus, reason: string, message: string, lastTransition: int)

  datatype AppStatus = AppStatus(
    sync: SyncStatus,
    health: HealthStatus,
    lastSyncAt: Option<int>,
    revision: string,
    previousRevisions: seq<string>,
    resources: seq<ResourceStatus>,
    conditions: seq<Condition>)

  // ---------------------------------------------------------------- conditions

  const SYNC_ERROR := "SyncError"

  /** The conditions after the one of type `kind` is set: the first such entry is edited where it
      stands, and a missing one is added at the end. */
  function SetCondition(cs: seq<Condition>, kind: string, status: ConditionStatus, message: string, now: int)
    : seq<Condition>
  {
    if cs == [] then [Condition(kind, status, "", message, now)]
    else if cs[0].kind == kind then [cs[0].(status := status, message := message, lastTransition := now)] + cs[1..]
    else [cs[0]] + SetCondition(cs[1..], kind, status, message, now)
  }

  function Of(cs: seq<Condition>, kind: string): seq<Condition> {
    if cs == [] then []
    else (if cs[0].kind == kind then [cs[0]] else []) + Of(cs[1..], kind)
  }

  /** The conditions of every other type, in order. */
  function Others(cs: seq<Condition>, kind: string): seq<Condition> {
    if cs == [] then []
    else (if cs[0].kind == kind then [] else [cs[0]]) + Others(cs[1..], kind)
  }

  lemma {:induction false} OfCons(c: Condition, cs: seq<Condition>, kind: string)
    ensures Of([c] + cs, kind) == (if c.kind == kind then [c] else []) + Of(cs, kind)
    ensures Others([c] + cs, kind) == (if c.kind == kind then [] else [c]) + Others(cs, kind)
  {
    assert ([c] + cs)[1..] == cs;
  }

  /** Setting a condition leaves the other types alone, entries and order, and does to the entries of
      its own type what it would do if they were the only ones. */
  lemma {:induction false} SetConditionFrame(
    cs: seq<Condition>, kind: string, status: ConditionStatus, message: string, now: int)
    ensures Others(SetCondition(cs, kind, status, message, now), kind) == Others(cs, kind)
    ensures Of(SetCondition(cs, kind, status, message, now), kind)
            == SetCondition(Of(cs, kind), kind, status, message, now)
  {
    var after := SetCondition(cs, kind, status, message, now);
    if cs == [] {
      OfCons(Condition(kind, status, "", message, now), [], kind);
    } else {
      hide Of, Others;
      assert cs == [cs[0]] + cs[1..];
      OfCons(cs[0], cs[1..], kind);
      if cs[0].kind == kind {
        OfCons(cs[0].(status := status, message := message, lastTransition := now), cs[1..], kind);
        assert Of(cs, kind) == [cs[0]] + Of(cs[1..], kind);
        assert Of(cs, kind)[1..] == Of(cs[1..], kind);
      } else {
        SetConditionFrame(cs[1..], kind, status, message, now);
        OfCons(cs[0], SetCondition(cs[1..], kind, status, message, now), kind);
        assert Of(cs, kind) == Of(cs[1..], kind);
      }
    }
  }

  lemma {:induction false} SetConditionSkips(
    cs: seq<Condition>, i: nat, kind: string, status: ConditionStatus, message: string, now: int)
    requires i < |cs| && cs[i].kind != kind
    ensures cs[..i] + SetCondition(cs[i..], kind, status, message, now)
            == cs[..i + 1] + SetCondition(cs[i + 1..], kind, status, message, now)
  {
    assert cs[i..][1..] == cs[i + 1..];
    assert SetCondition(cs[i..], kind, status, message, now)
        == [cs[i]] + SetCondition(cs[i + 1..], kind, status, message, now);
    assert cs[..i + 1] == cs[..i] + [cs[i]];
  }

  lemma {:induction false} SetConditionHits(
    cs: seq<Condition>, i: nat, kind: string, status: ConditionStatus, message: string, now: int)
    requires i < |cs| && cs[i].kind == kind
    ensures cs[..i] + SetCondition(cs[i..], kind, status, message, now)
            == cs[i := cs[i].(status := status, message := message, lastTransition := now)]
  {
    assert cs[i..][1..] == cs[i + 1..];
  }

  /** The first entry of the type is edited where it stands, and a missing one goes to the end. */
  lemma {:induction false} SetConditionPlace(
    cs: seq<Condition>, i: nat, kind: string, status: ConditionStatus, message: string, now: int)
    requires i <= |cs| && (forall j :: 0 <= j < i ==> cs[j].kind != kind) && (i < |cs| ==> cs[i].kind == kind)
    ensures SetCondition(cs, kind, status, message, now)
            == if i < |cs| then cs[i := Condition(kind, status, cs[i].reason, message, now)]
               else cs + [Condition(kind, status, "", message, now)]
  {
    if i > 0 {
      SetConditionPlace(cs[1..], i - 1, kind, status, message, now);
    }
  }

  lemma {:induction false} OfIsOfKind(cs: seq<Condition>, kind: string)
    ensures forall i :: 0 <= i < |Of(cs, kind)| ==> Of(cs, kind)[i].kind == kind
  {
    if cs != [] {
      OfIsOfKind(cs[1..], kind);
    }
  }

  /** From at most one entry of a type to exactly one, which says what was asked. */
  lemma {:induction false} SetConditionLeavesOne(
    cs: seq<Condition>, kind: string, status: ConditionStatus, message: string, now: int)
    requires |Of(cs, kind)| <= 1
    ensures var after := Of(SetCondition(cs, kind, status, message, now), kind);
            && |after| == 1
            && after[0].status == status && after[0].message == message && after[0].lastTransition == now
            && after[0].reason == (if Of(cs, kind) == [] then "" else Of(cs, kind)[0].reason)
  {
    SetConditionFrame(cs, kind, status, message, now);
    OfIsOfKind(cs, kind);
    if Of(cs, kind) != [] {
      assert Of(cs, kind)[0].kind == kind;
    }
  }

  // ---------------------------------------------------------------- revision history

  const HISTORY_LIMIT := 10

  /** The trim-then-append step taken on a successful sync: `stored` is the revision found in the
      status, `revision` the one just synced. */
  function TrimThenAppend(history: seq<string>, stored: string, revision: string): seq<string> {
    var trimmed := if |history| >= HISTORY_LIMIT then history[1..] else history;
    if stored != "" && stored != revision then trimmed + [stored] else trimmed
  }

  ghost predicate IsSuffix<T>(tail: seq<T>, whole: seq<T>) {
    |tail| <= |whole| && whole[|whole| - |tail|..] == tail
  }

  lemma SuffixTransitive<T>(a: seq<T>, b: seq<T>, c: seq<T>)
    requires IsSuffix(a, b) && IsSuffix(b, c)
    ensures IsSuffix(a, c)
  {
  }

  /** What a sync adds to the history: the stored revision, when there is one and it differs. */
  function Replaced(stored: string, revision: string): seq<string> {
    if stored != "" && stored != revision then [stored] else []
  }

  lemma TrimThenAppendSuffix(history: seq<string>, all: seq<string>, stored: string, revision: string)
    requires IsSuffix(history, all)
    ensures IsSuffix(TrimThenAppend(history, stored, revision), all + Replaced(stored, revision))
    ensures |history| <= HISTORY_LIMIT ==> |TrimThenAppend(history, stored, revision)| <= HISTORY_LIMIT
  {
    var next, whole := TrimThenAppend(history, stored, revision), all + Replaced(stored, revision);
    forall i | 0 <= i < |next| ensures whole[|whole| - |next| + i] == next[i] {
      if |next| - |Replaced(stored, revision)| > i {
        assert all[|all| - |history|..] == history;
      }
    }
    assert whole[|whole| - |next|..] == next;
  }

  /** One (stored, synced) pair of revisions per successful sync. */
  function HistoryAfter(history: seq<string>, syncs: seq<(string, string)>): seq<string>
    decreases |syncs|
  {
    if syncs == [] then history
    else
      var n := |syncs| - 1;
      TrimThenAppend(HistoryAfter(history, syncs[..n]), syncs[n].0, syncs[n].1)
  }

  function AllReplaced(syncs: seq<(string, string)>): seq<string>
    decreases |syncs|
  {
    if syncs == [] then []
    else
      var n := |syncs| - 1;
      AllReplaced(syncs[..n]) + Replaced(syncs[n].0, syncs[n].1)
  }

  /** Over any sequence of syncs the step keeps a contiguous suffix of all the revisions replaced,
      of at most ten entries. */
  lemma {:induction false} HistoryIsSuffix(history: seq<string>, syncs: seq<(string, string)>)
    ensures IsSuffix(HistoryAfter(history, syncs), history + AllReplaced(syncs))
    ensures |history| <= 10 ==> |HistoryAfter(history, syncs)| <= 10
    decreases |syncs|
  {
    if syncs == [] {
      assert history + AllReplaced(syncs) == history;
    } else {
      var n := |syncs| - 1;
      HistoryIsSuffix(history, syncs[..n]);
      TrimThenAppendSuffix(HistoryAfter(history, syncs[..n]), history + AllReplaced(syncs[..n]),
                           syncs[n].0, syncs[n].1);
      assert history + AllReplaced(syncs) == history + AllReplaced(syncs[..n]) + Replaced(syncs[n].0, syncs[n].1);
    }
  }
}
