/** The health checker: one status per resource and the worst of them overall. */
module Health {
  import opened Status
  import opened Manifest

  type Probe = Resource -> HealthStatus

  function StatusOf(probe: Probe, res: Resource): ResourceStatus {
    ResourceStatus(res.kind, res.name, res.namespace, NotSet, probe(res))
  }

  function StatusesOf(probe: Probe, resources: seq<Resource>): (s: seq<ResourceStatus>)
    ensures |s| == |resources|
  {
    seq(|resources|, i requires 0 <= i < |resources| => StatusOf(probe, resources[i]))
  }

  /** How far a health status can pull the whole application down. */
  function Severity(h: HealthStatus): nat {
    match h
    case Degraded => 2
    case Progressing => 1
    case _ => 0
  }

  /** `h` is the worst of the listed statuses, `Missing` and `Unknown` counting for nothing. */
  ghost predicate IsWorst(h: HealthStatus, statuses: seq<ResourceStatus>) {
    && h in {Healthy, Progressing, Degraded}
    && (forall i :: 0 <= i < |statuses| ==> Severity(statuses[i].healthStatus) <= Severity(h))
    && (h != Healthy ==> exists i :: 0 <= i < |statuses| && statuses[i].healthStatus == h)
  }

  lemma WorstIsUnique(h: HealthStatus, k: HealthStatus, statuses: seq<ResourceStatus>)
    requires IsWorst(h, statuses) && IsWorst(k, statuses)
    ensures h == k
  {
  }

  /** The checker's loop on values: one status folded into the aggregate at a time. */
  function Fold(aggregate: HealthStatus, h: HealthStatus): HealthStatus {
    if h == Degraded then Degraded
    else if h == Progressing && aggregate != Degraded then Progressing
    else aggregate
  }

  function Worst(statuses: seq<ResourceStatus>): HealthStatus {
    if statuses == [] then Healthy
    else Fold(Worst(statuses[..|statuses| - 1]), statuses[|statuses| - 1].healthStatus)
  }

  lemma {:induction false} WorstIsWorst(statuses: seq<ResourceStatus>)
    ensures IsWorst(Worst(statuses), statuses)
  {
    if statuses != [] {
      var n := |statuses| - 1;
      WorstIsWorst(statuses[..n]);
      if Worst(statuses) == Worst(statuses[..n]) != Healthy {
        var i :| 0 <= i < n && statuses[..n][i].healthStatus == Worst(statuses);
        assert statuses[i].healthStatus == Worst(statuses);
      }
    }
  }

  lemma SameWorst(h: HealthStatus, a: seq<ResourceStatus>, b: seq<ResourceStatus>)
    requires multiset(a) == multiset(b) && IsWorst(h, a)
    ensures IsWorst(h, b)
  {
    forall i | 0 <= i < |b| ensures Severity(b[i].healthStatus) <= Severity(h) {
      assert b[i] in multiset(a);
    }
    if h != Healthy {
      var i :| 0 <= i < |a| && a[i].healthStatus == h;
      assert a[i] in multiset(b);
    }
  }

  /** The aggregate does not depend on the order of the resources. */
  lemma {:induction false} WorstIgnoresOrder(a: seq<ResourceStatus>, b: seq<ResourceStatus>)
    requires multiset(a) == multiset(b)
    ensures Worst(a) == Worst(b)
  {
    WorstIsWorst(a);
    WorstIsWorst(b);
    SameWorst(Worst(a), a, b);
    WorstIsUnique(Worst(a), Worst(b), b);
  }

  /** ... and is the fold of the aggregates of any two parts. */
  lemma {:induction false} WorstConcat(a: seq<ResourceStatus>, b: seq<ResourceStatus>)
    ensures Worst(a + b) == Fold(Worst(a), Worst(b))
  {
    if b == [] {
      assert a + b == a;
    } else {
      var n := |b| - 1;
      WorstConcat(a, b[..n]);
      assert (a + b)[..|a + b| - 1] == a + b[..n];
      WorstIsWorst(a);
      WorstIsWorst(b[..n]);
    }
  }

  ghost predicate SomeProbes(probe: Probe, resources: seq<Resource>, h: HealthStatus) {
    exists i :: 0 <= i < |resources| && probe(resources[i]) == h
  }

  /** One status per resource, in order, with the health its probe gave and no sync status; overall
      degraded if some probe says so, else progressing if some probe says so, and healthy otherwise. */
  ghost predicate ChecksOut(health: HealthStatus, statuses: seq<ResourceStatus>, probe: Probe, resources: seq<Resource>)
  {
    && |statuses| == |resources|
    && (forall i :: 0 <= i < |resources| ==>
          statuses[i] == ResourceStatus(resources[i].kind, resources[i].name, resources[i].namespace, NotSet,
                                        probe(resources[i])))
    && health == if SomeProbes(probe, resources, Degraded) then Degraded
                 else if SomeProbes(probe, resources, Progressing) then Progressing
                 else Healthy
  }

  lemma CheckChecksOut(probe: Probe, resources: seq<Resource>)
    ensures ChecksOut(Worst(StatusesOf(probe, resources)), StatusesOf(probe, resources), probe, resources)
  {
    hide Worst;
    var statuses := StatusesOf(probe, resources);
    WorstIsWorst(statuses);
    forall i | 0 <= i < |resources| ensures statuses[i].healthStatus == probe(resources[i]) {
    }
    var h := Worst(statuses);
    if h != Healthy {
      var i :| 0 <= i < |statuses| && statuses[i].healthStatus == h;
      assert probe(resources[i]) == h;
    }
  }

  method Check(probe: Probe, resources: seq<Resource>)
    returns (aggregate: HealthStatus, statuses: seq<ResourceStatus>)
    ensures statuses == StatusesOf(probe, resources)
    ensures aggregate == Worst(statuses) && IsWorst(aggregate, statuses)
    ensures ChecksOut(aggregate, statuses, probe, resources)
  {
    hide ChecksOut;
    statuses := [];
    aggregate := Healthy;
    for i := 0 to |resources|
      invariant statuses == StatusesOf(probe, resources[..i])
      invariant aggregate == Worst(statuses)
    {
      var rs := StatusOf(probe, resources[i]);
      if rs.healthStatus == Degraded {
        aggregate := Degraded;
      } else if rs.healthStatus == Progressing && aggregate != Degraded {
        aggregate := Progressing;
      }
      assert (statuses + [rs])[..|statuses|] == statuses;
      statuses := statuses + [rs];
    }
    assert resources[..|resources|] == resources;
    WorstIsWorst(statuses);
    CheckChecksOut(probe, resources);
  }
}
