/** The shape of every component's graph: distinct names, no dangling or circular edges, and how each
    pod is reached. */
module GraphShape {
  import opened Strings
  import opened Component

  // ---------------------------------------------------------------- names are distinct

  /** The character after the dash tells the kinds of suffix apart. */
  function Initial(role: Role): char {
    match role
    case Deploy => 'd'
    case Replicas => 'r'
    case PodNo(_) => 'p'
    case Svc => 's'
    case Ing => 'i'
    case Cm => 'c'
    case Hpa => 'h'
  }

  function LinkInitial(link: Link): char {
    match link
    case DeployReplicas => 'd'
    case ReplicasPod(_) => 'r'
    case SvcPod(_) => 's'
    case IngSvc => 'i'
    case CmDeploy => 'c'
    case HpaDeploy => 'h'
  }

  lemma SuffixInitial(role: Role)
    ensures |Suffix(role)| > 1 && Suffix(role)[1] == Initial(role)
  {
    hide Decimal;
  }

  lemma LinkSuffixInitial(id: string, link: Link)
    ensures |LinkSuffix(id, link)| > 1 && LinkSuffix(id, link)[1] == LinkInitial(link)
  {
    hide Decimal, Suffix;
  }

  lemma SameAfter(prefix: string, a: string, b: string)
    requires prefix + a == prefix + b
    ensures a == b
  {
    assert (prefix + a)[|prefix|..] == a && (prefix + b)[|prefix|..] == b;
  }

  lemma SuffixInjective(a: Role, b: Role)
    requires Suffix(a) == Suffix(b)
    ensures a == b
  {
    hide Decimal;
    SuffixInitial(a);
    SuffixInitial(b);
    if a.PodNo? {
      SameAfter("-pod-", Decimal(a.n), Decimal(b.n));
      DecimalInjective(a.n, b.n);
    }
  }

  lemma LinkSuffixInjective(id: string, a: Link, b: Link)
    requires LinkSuffix(id, a) == LinkSuffix(id, b)
    ensures a == b
  {
    hide Decimal, Suffix;
    LinkSuffixInitial(id, a);
    LinkSuffixInitial(id, b);
    if a.ReplicasPod? {
      SameAfter("-rs-", id + Suffix(PodNo(a.n)), id + Suffix(PodNo(b.n)));
      SameAfter(id, Suffix(PodNo(a.n)), Suffix(PodNo(b.n)));
      SuffixInjective(PodNo(a.n), PodNo(b.n));
    } else if a.SvcPod? {
      SameAfter("-svc-pod-", Decimal(a.i), Decimal(b.i));
      DecimalInjective(a.i, b.i);
    }
  }

  lemma IdInjective(id: string, a: Role, b: Role)
    requires id + Suffix(a) == id + Suffix(b)
    ensures a == b
  {
    hide Suffix;
    SameAfter(id, Suffix(a), Suffix(b));
    SuffixInjective(a, b);
  }

  ghost predicate Distinct<T>(s: seq<T>) {
    forall i, j :: 0 <= i < j < |s| ==> s[i] != s[j]
  }

  lemma RolesDistinct(c: Params)
    ensures Distinct(Roles(c))
  {
  }

  lemma LinksDistinct(c: Params)
    ensures Distinct(Links(c))
  {
  }

  /** No two resources of a component share an id. */
  lemma ResourceIdsDistinct(c: Params, i: nat, j: nat)
    requires i < j < |Resources(c)|
    ensures Resources(c)[i].id != Resources(c)[j].id
  {
    hide Suffix, Roles;
    RolesDistinct(c);
    if Resources(c)[i].id == Resources(c)[j].id {
      IdInjective(c.id, Roles(c)[i], Roles(c)[j]);
    }
  }

  /** No two edges of a component share an id. */
  lemma EdgeIdsDistinct(c: Params, i: nat, j: nat)
    requires i < j < |Edges(c)|
    ensures Edges(c)[i].id != Edges(c)[j].id
  {
    hide LinkSuffix, Suffix, Links;
    LinksDistinct(c);
    var a, b := Links(c)[i], Links(c)[j];
    if Edges(c)[i].id == Edges(c)[j].id {
      SameAfter(c.id, LinkSuffix(c.id, a), LinkSuffix(c.id, b));
      LinkSuffixInjective(c.id, a, b);
    }
  }

  // ---------------------------------------------------------------- edges join listed resources

  predicate HasRole(c: Params, role: Role) {
    match role
    case PodNo(n) => 1 <= n <= Pods(c)
    case Ing => c.hasIngress
    case Cm => c.hasConfigMap
    case Hpa => c.hasHPA
    case _ => true
  }

  predicate HasLink(c: Params, link: Link) {
    HasRole(c, Source(link)) && HasRole(c, Target(link))
  }

  lemma RoleListed(c: Params, role: Role)
    ensures role in Roles(c) <==> HasRole(c, role)
  {
    if HasRole(c, role) {
      if role.PodNo? {
        assert Roles(c)[2 + (role.n - 1)] == role;
      } else if role.Svc? {
        assert Roles(c)[2 + Pods(c)] == role;
      }
    }
  }

  lemma LinkListed(c: Params, link: Link)
    ensures link in Links(c) <==> HasLink(c, link)
  {
    if HasLink(c, link) {
      match link
      case ReplicasPod(n) => assert Links(c)[1 + (n - 1)] == link;
      case SvcPod(i) => assert Links(c)[1 + Pods(c) + i] == link;
      case _ =>
    }
  }

  ghost predicate IsResource(c: Params, id: string, role: Role) {
    exists i :: 0 <= i < |Resources(c)| && Roles(c)[i] == role
                && Resources(c)[i] == ResourceOf(c, role) && Resources(c)[i].id == id
  }

  lemma RoleIsResource(c: Params, role: Role)
    requires HasRole(c, role)
    ensures IsResource(c, c.id + Suffix(role), role)
  {
    hide Roles, Suffix;
    RoleListed(c, role);
    var i :| 0 <= i < |Roles(c)| && Roles(c)[i] == role;
    assert Resources(c)[i] == ResourceOf(c, role);
  }

  /** Both ends of every edge are ids of listed resources. */
  lemma EdgesJoinResources(c: Params, i: nat)
    requires i < |Edges(c)|
    ensures IsResource(c, Edges(c)[i].source, Source(Links(c)[i]))
    ensures IsResource(c, Edges(c)[i].target, Target(Links(c)[i]))
  {
    hide IsResource, Links, Suffix, LinkSuffix;
    LinkListed(c, Links(c)[i]);
    RoleIsResource(c, Source(Links(c)[i]));
    RoleIsResource(c, Target(Links(c)[i]));
  }

  // ---------------------------------------------------------------- no cycles

  /** Edges that follow one another from `from` to `to`. */
  ghost predicate IsPath(path: seq<Edge>, from: string, to: string) {
    if path == [] then from == to
    else path[0].source == from && IsPath(path[1..], path[0].target, to)
  }

  function Depth(role: Role): nat {
    match role
    case Ing => 0
    case Cm => 0
    case Hpa => 0
    case Svc => 1
    case Deploy => 1
    case Replicas => 2
    case PodNo(_) => 3
  }

  lemma {:induction false} PathsGoDeeper(c: Params, path: seq<Edge>, from: Role, to: Role)
    requires forall i :: 0 <= i < |path| ==> path[i] in Edges(c)
    requires IsPath(path, c.id + Suffix(from), c.id + Suffix(to))
    ensures Depth(from) + |path| <= Depth(to)
  {
    hide Suffix, LinkSuffix, Links;
    if path == [] {
      IdInjective(c.id, from, to);
    } else {
      assert path[0] in Edges(c);
      var k :| 0 <= k < |Edges(c)| && Edges(c)[k] == path[0];
      var link := Links(c)[k];
      IdInjective(c.id, Source(link), from);
      PathsGoDeeper(c, path[1..], Target(link), to);
    }
  }

  /** No path of one or more edges leads back to where it started. */
  lemma {:induction false} Acyclic(c: Params, path: seq<Edge>, from: string)
    requires path != [] && forall i :: 0 <= i < |path| ==> path[i] in Edges(c)
    ensures !IsPath(path, from, from)
  {
    hide Suffix, LinkSuffix, Links;
    if IsPath(path, from, from) {
      assert path[0] in Edges(c);
      var k :| 0 <= k < |Edges(c)| && Edges(c)[k] == path[0];
      var role := Source(Links(c)[k]);
      PathsGoDeeper(c, path, role, role);
    }
  }

  // ---------------------------------------------------------------- how pods are reached

  lemma IntoPod(c: Params, k: nat, n: nat)
    requires k < |Edges(c)| && 1 <= n
    ensures Edges(c)[k].target == c.id + Suffix(PodNo(n)) <==>
            Links(c)[k] == ReplicasPod(n) || Links(c)[k] == SvcPod(n - 1)
  {
    hide Suffix, LinkSuffix, Links;
    if Edges(c)[k].target == c.id + Suffix(PodNo(n)) {
      IdInjective(c.id, Target(Links(c)[k]), PodNo(n));
    }
  }

  /** Exactly two edges lead into each pod: one owner edge, from the replica set, and one selector edge,
      from the service. */
  lemma PodEdges(c: Params, n: nat) returns (owner: nat, selector: nat)
    requires 1 <= n <= Pods(c)
    ensures owner < |Edges(c)| && selector < |Edges(c)|
    ensures Edges(c)[owner].edgeType == Owner && Edges(c)[owner].source == c.id + Suffix(Replicas)
    ensures Edges(c)[selector].edgeType == Selector && Edges(c)[selector].source == c.id + Suffix(Svc)
    ensures forall k :: 0 <= k < |Edges(c)| ==>
              (Edges(c)[k].target == c.id + Suffix(PodNo(n)) <==> k == owner || k == selector)
  {
    hide Suffix, LinkSuffix, Links;
    LinkListed(c, ReplicasPod(n));
    LinkListed(c, SvcPod(n - 1));
    LinksDistinct(c);
    owner :| 0 <= owner < |Links(c)| && Links(c)[owner] == ReplicasPod(n);
    selector :| 0 <= selector < |Links(c)| && Links(c)[selector] == SvcPod(n - 1);
    forall k | 0 <= k < |Edges(c)|
      ensures Edges(c)[k].target == c.id + Suffix(PodNo(n)) <==> k == owner || k == selector
    {
      IntoPod(c, k, n);
    }
  }
}
