/** The resource graph of a component: which resources it lists and how they point to each other. */
module Component {
  import opened Status
  import opened Strings

  /** The resource kinds; `RoleKind` is the kind named Role, `OtherKind` any name outside the list. */
  datatype Kind =
    | Deployment | StatefulSet | DaemonSet | ReplicaSet | Pod | Service | Ingress | ConfigMap | Secret
    | Job | CronJob | HorizontalPodAutoscaler | PersistentVolumeClaim | NetworkPolicy | ServiceAccount
    | RoleKind | RoleBinding | OtherKind(name: string)

  datatype EdgeType = Owner | Selector | IngressRoute | Config | Volume | Scaling

  datatype K8sResource = K8sResource(
    id: string, name: string, kind: Kind, namespace: string, status: HealthStatus, syncStatus: SyncStatus)

  datatype Edge = Edge(id: string, source: string, target: string, edgeType: EdgeType)

  /** The arguments that shape the graph; `podName` stands for the random part of the pod names. */
  datatype Params = Params(
    id: string, name: string, namespace: string, revision: string,
    syncStatus: SyncStatus, healthStatus: HealthStatus,
    podCount: int, hasIngress: bool, hasHPA: bool, hasConfigMap: bool, outOfSync: bool,
    podName: nat -> string)

  // ---------------------------------------------------------------- what the graph is

  /** The part a resource plays in its component; pods are numbered from 1. */
  datatype Role = Deploy | Replicas | PodNo(n: nat) | Svc | Ing | Cm | Hpa

  /** The part an edge plays; selector edges are numbered from 0. */
  datatype Link = DeployReplicas | ReplicasPod(n: nat) | SvcPod(i: nat) | IngSvc | CmDeploy | HpaDeploy

  function Suffix(role: Role): string {
    match role
    case Deploy => "-deploy"
    case Replicas => "-rs"
    case PodNo(n) => "-pod-" + Decimal(n)
    case Svc => "-svc"
    case Ing => "-ingress"
    case Cm => "-cm"
    case Hpa => "-hpa"
  }

  function LinkSuffix(id: string, link: Link): string {
    match link
    case DeployReplicas => "-deploy-rs"
    case ReplicasPod(n) => "-rs-" + (id + Suffix(PodNo(n)))
    case SvcPod(i) => "-svc-pod-" + Decimal(i)
    case IngSvc => "-ingress-svc"
    case CmDeploy => "-cm-deploy"
    case HpaDeploy => "-hpa-deploy"
  }

  function Source(link: Link): Role {
    match link
    case DeployReplicas => Deploy
    case ReplicasPod(_) => Replicas
    case SvcPod(_) => Svc
    case IngSvc => Ing
    case CmDeploy => Cm
    case HpaDeploy => Hpa
  }

  function Target(link: Link): Role {
    match link
    case DeployReplicas => Replicas
    case ReplicasPod(n) => PodNo(n)
    case SvcPod(i) => PodNo(i + 1)
    case IngSvc => Svc
    case CmDeploy => Deploy
    case HpaDeploy => Deploy
  }

  function TypeOf(link: Link): EdgeType {
    match link
    case DeployReplicas => Owner
    case ReplicasPod(_) => Owner
    case SvcPod(_) => Selector
    case IngSvc => IngressRoute
    case CmDeploy => Config
    case HpaDeploy => Scaling
  }

  function KindOf(role: Role): Kind {
    match role
    case Deploy => Deployment
    case Replicas => ReplicaSet
    case PodNo(_) => Pod
    case Svc => Service
    case Ing => Ingress
    case Cm => ConfigMap
    case Hpa => HorizontalPodAutoscaler
  }

  function Pods(c: Params): nat {
    if c.podCount < 0 then 0 else c.podCount
  }

  function PodRoles(n: nat): (roles: seq<Role>)
    ensures |roles| == n
  {
    seq(n, i requires 0 <= i < n => PodNo(i + 1))
  }

  function PodLinks(n: nat): (links: seq<Link>)
    ensures |links| == n
  {
    seq(n, i requires 0 <= i < n => ReplicasPod(i + 1))
  }

  function SelectorLinks(n: nat): (links: seq<Link>)
    ensures |links| == n
  {
    seq(n, i requires 0 <= i < n => SvcPod(i))
  }

  function Roles(c: Params): seq<Role> {
    [Deploy, Replicas] + PodRoles(Pods(c)) + [Svc]
    + (if c.hasIngress then [Ing] else []) + (if c.hasConfigMap then [Cm] else []) + (if c.hasHPA then [Hpa] else [])
  }

  function Links(c: Params): seq<Link> {
    [DeployReplicas] + PodLinks(Pods(c)) + SelectorLinks(Pods(c))
    + (if c.hasIngress then [IngSvc] else []) + (if c.hasConfigMap then [CmDeploy] else [])
    + (if c.hasHPA then [HpaDeploy] else [])
  }

  function ResourceOf(c: Params, role: Role): K8sResource {
    var name :=
      match role
      case Deploy => c.name
      case Replicas => c.name + "-" + c.revision
      case PodNo(n) => c.name + "-" + c.revision + "-" + c.podName(if n == 0 then 0 else n - 1)
      case Svc => c.name
      case Ing => c.name + "-ingress"
      case Cm => c.name + "-config"
      case Hpa => c.name;
    var status :=
      match role
      case Deploy => c.healthStatus
      case Replicas => c.healthStatus
      case PodNo(n) => if n == 1 && c.healthStatus == Degraded then Degraded else Healthy
      case _ => Healthy;
    var sync := if role.Deploy? && c.outOfSync then OutOfSync else c.syncStatus;
    K8sResource(c.id + Suffix(role), name, KindOf(role), c.namespace, status, sync)
  }

  function EdgeOf(c: Params, link: Link): Edge {
    Edge(c.id + LinkSuffix(c.id, link), c.id + Suffix(Source(link)), c.id + Suffix(Target(link)), TypeOf(link))
  }

  function ResourcesOf(c: Params, roles: seq<Role>): (rs: seq<K8sResource>)
    ensures |rs| == |roles|
  {
    seq(|roles|, i requires 0 <= i < |roles| => ResourceOf(c, roles[i]))
  }

  function EdgesOf(c: Params, links: seq<Link>): (es: seq<Edge>)
    ensures |es| == |links|
  {
    seq(|links|, i requires 0 <= i < |links| => EdgeOf(c, links[i]))
  }

  function Resources(c: Params): seq<K8sResource> {
    ResourcesOf(c, Roles(c))
  }

  function Edges(c: Params): seq<Edge> {
    EdgesOf(c, Links(c))
  }

  lemma PushResource(c: Params, roles: seq<Role>, role: Role)
    ensures ResourcesOf(c, roles + [role]) == ResourcesOf(c, roles) + [ResourceOf(c, role)]
  {
    hide ResourceOf;
  }

  lemma PushEdge(c: Params, links: seq<Link>, link: Link)
    ensures EdgesOf(c, links + [link]) == EdgesOf(c, links) + [EdgeOf(c, link)]
  {
    hide EdgeOf;
  }

  lemma PushPod(n: nat)
    ensures [Deploy, Replicas] + PodRoles(n + 1) == [Deploy, Replicas] + PodRoles(n) + [PodNo(n + 1)]
    ensures [DeployReplicas] + PodLinks(n + 1) == [DeployReplicas] + PodLinks(n) + [ReplicasPod(n + 1)]
  {
    assert PodRoles(n + 1) == PodRoles(n) + [PodNo(n + 1)];
    assert PodLinks(n + 1) == PodLinks(n) + [ReplicasPod(n + 1)];
  }

  lemma PushSelector(before: seq<Link>, n: nat)
    ensures before + SelectorLinks(n + 1) == before + SelectorLinks(n) + [SvcPod(n)]
  {
    assert SelectorLinks(n + 1) == SelectorLinks(n) + [SvcPod(n)];
  }

  // ---------------------------------------------------------------- how the source builds it

  method MakeComponent(c: Params) returns (resources: seq<K8sResource>, edges: seq<Edge>)
    ensures resources == Resources(c) && edges == Edges(c)
  {
    hide ResourcesOf, EdgesOf, PodRoles, PodLinks, SelectorLinks;
    var id := c.id;
    resources := [K8sResource(id + "-deploy", c.name, Deployment, c.namespace, c.healthStatus,
                              if c.outOfSync then OutOfSync else c.syncStatus)];
    resources := resources + [K8sResource(id + "-rs", c.name + "-" + c.revision, ReplicaSet, c.namespace,
                                          c.healthStatus, c.syncStatus)];
    edges := [Edge(id + "-deploy-rs", id + "-deploy", id + "-rs", Owner)];
    FirstResources(c);
    resources, edges := AddPods(c, resources, edges);

    ghost var roles, links := [Deploy, Replicas] + PodRoles(Pods(c)), [DeployReplicas] + PodLinks(Pods(c));
    PushResource(c, roles, Svc);
    resources := resources + [K8sResource(id + "-svc", c.name, Service, c.namespace, Healthy, c.syncStatus)];
    edges := AddSelectors(c, links, edges);
    resources, edges := AddOptional(c, roles + [Svc], links + SelectorLinks(Pods(c)), resources, edges);
  }

  /** The loop that adds the pods, each with its owner edge. */
  method AddPods(c: Params, before: seq<K8sResource>, edgesBefore: seq<Edge>)
    returns (resources: seq<K8sResource>, edges: seq<Edge>)
    requires before == ResourcesOf(c, [Deploy, Replicas] + PodRoles(0))
    requires edgesBefore == EdgesOf(c, [DeployReplicas] + PodLinks(0))
    ensures resources == ResourcesOf(c, [Deploy, Replicas] + PodRoles(Pods(c)))
    ensures edges == EdgesOf(c, [DeployReplicas] + PodLinks(Pods(c)))
  {
    hide Decimal, ResourcesOf, EdgesOf, PodRoles, PodLinks;
    var id := c.id;
    resources, edges := before, edgesBefore;
    var i := 0;
    while i < c.podCount
      invariant 0 <= i <= Pods(c)
      invariant resources == ResourcesOf(c, [Deploy, Replicas] + PodRoles(i))
      invariant edges == EdgesOf(c, [DeployReplicas] + PodLinks(i))
    {
      var podId := id + ("-pod-" + Decimal(i + 1));
      var podName := c.name + "-" + c.revision + "-" + c.podName(i);
      PushPod(i);
      PushResource(c, [Deploy, Replicas] + PodRoles(i), PodNo(i + 1));
      PushEdge(c, [DeployReplicas] + PodLinks(i), ReplicasPod(i + 1));
      resources := resources + [K8sResource(podId, podName, Pod, c.namespace,
                                            if i == 0 && c.healthStatus == Degraded then Degraded else Healthy,
                                            c.syncStatus)];
      edges := edges + [Edge(id + ("-rs-" + podId), id + "-rs", podId, Owner)];
      i := i + 1;
    }
  }

  /** The loop that points the service at every pod. */
  method AddSelectors(c: Params, ghost links: seq<Link>, before: seq<Edge>) returns (edges: seq<Edge>)
    requires before == EdgesOf(c, links)
    ensures edges == EdgesOf(c, links + SelectorLinks(Pods(c)))
  {
    hide Decimal, EdgesOf;
    var id := c.id;
    edges := before;
    NoSelectorsYet(links);
    var i := 0;
    while i < c.podCount
      invariant 0 <= i <= Pods(c)
      invariant edges == EdgesOf(c, links + SelectorLinks(i))
    {
      PushSelector(links, i);
      PushEdge(c, links + SelectorLinks(i), SvcPod(i));
      edges := edges + [Edge(id + ("-svc-pod-" + Decimal(i)), id + "-svc", id + ("-pod-" + Decimal(i + 1)), Selector)];
      i := i + 1;
    }
  }

  lemma FirstResources(c: Params)
    ensures ResourcesOf(c, [Deploy, Replicas] + PodRoles(0)) == [ResourceOf(c, Deploy), ResourceOf(c, Replicas)]
    ensures EdgesOf(c, [DeployReplicas] + PodLinks(0)) == [EdgeOf(c, DeployReplicas)]
  {
    hide ResourceOf, EdgeOf;
  }

  lemma NoSelectorsYet(links: seq<Link>)
    ensures links + SelectorLinks(0) == links
  {
  }

  /** The last part of the function: the resources a component may or may not have. */
  method AddOptional(c: Params, ghost roles: seq<Role>, ghost links: seq<Link>,
                     before: seq<K8sResource>, edgesBefore: seq<Edge>)
    returns (resources: seq<K8sResource>, edges: seq<Edge>)
    requires before == ResourcesOf(c, roles) && edgesBefore == EdgesOf(c, links)
    ensures resources == ResourcesOf(c, roles + (if c.hasIngress then [Ing] else [])
                                        + (if c.hasConfigMap then [Cm] else [])
                                        + (if c.hasHPA then [Hpa] else []))
    ensures edges == EdgesOf(c, links + (if c.hasIngress then [IngSvc] else [])
                                + (if c.hasConfigMap then [CmDeploy] else [])
                                + (if c.hasHPA then [HpaDeploy] else []))
  {
    hide ResourcesOf, EdgesOf;
    var id := c.id;
    ghost var rs, ls := roles, links;
    resources, edges := before, edgesBefore;
    if c.hasIngress {
      PushResource(c, rs, Ing);
      PushEdge(c, ls, IngSvc);
      resources := resources
                   + [K8sResource(id + "-ingress", c.name + "-ingress", Ingress, c.namespace, Healthy, c.syncStatus)];
      edges := edges + [Edge(id + "-ingress-svc", id + "-ingress", id + "-svc", IngressRoute)];
    }
    assert roles + [] == roles && links + [] == links;
    rs, ls := rs + (if c.hasIngress then [Ing] else []), ls + (if c.hasIngress then [IngSvc] else []);
    if c.hasConfigMap {
      PushResource(c, rs, Cm);
      PushEdge(c, ls, CmDeploy);
      resources := resources
                   + [K8sResource(id + "-cm", c.name + "-config", ConfigMap, c.namespace, Healthy, c.syncStatus)];
      edges := edges + [Edge(id + "-cm-deploy", id + "-cm", id + "-deploy", Config)];
    }
    assert rs + [] == rs && ls + [] == ls;
    rs, ls := rs + (if c.hasConfigMap then [Cm] else []), ls + (if c.hasConfigMap then [CmDeploy] else []);
    assert rs + [] == rs && ls + [] == ls;
    if c.hasHPA {
      PushResource(c, rs, Hpa);
      PushEdge(c, ls, HpaDeploy);
      resources := resources
                   + [K8sResource(id + "-hpa", c.name, HorizontalPodAutoscaler, c.namespace, Healthy, c.syncStatus)];
      edges := edges + [Edge(id + "-hpa-deploy", id + "-hpa", id + "-deploy", Scaling)];
    }
  }

  // ---------------------------------------------------------------- what is listed, one by one

  lemma RolesInOrder(c: Params)
    ensures var roles, pods := Roles(c), Pods(c);
            var ingress, configMap := if c.hasIngress then 1 else 0, if c.hasConfigMap then 1 else 0;
            && |roles| == 3 + pods + ingress + configMap + (if c.hasHPA then 1 else 0)
            && roles[0] == Deploy && roles[1] == Replicas && roles[2 + pods] == Svc
            && (c.hasIngress ==> roles[3 + pods] == Ing)
            && (c.hasConfigMap ==> roles[3 + pods + ingress] == Cm)
            && (c.hasHPA ==> roles[3 + pods + ingress + configMap] == Hpa)
  {
    hide PodRoles;
  }

  lemma LinksInOrder(c: Params)
    ensures var links, pods := Links(c), Pods(c);
            var ingress, configMap := if c.hasIngress then 1 else 0, if c.hasConfigMap then 1 else 0;
            && |links| == 1 + pods + pods + ingress + configMap + (if c.hasHPA then 1 else 0)
            && links[0] == DeployReplicas
            && (c.hasIngress ==> links[1 + pods + pods] == IngSvc)
            && (c.hasConfigMap ==> links[1 + pods + pods + ingress] == CmDeploy)
            && (c.hasHPA ==> links[1 + pods + pods + ingress + configMap] == HpaDeploy)
  {
    hide PodLinks, SelectorLinks;
  }

  lemma PodsInOrder(c: Params, i: nat)
    requires i < Pods(c)
    ensures |Roles(c)| >= 3 + Pods(c) && Roles(c)[2 + i] == PodNo(i + 1)
    ensures |Links(c)| >= 1 + Pods(c) + Pods(c)
    ensures Links(c)[1 + i] == ReplicasPod(i + 1) && Links(c)[1 + Pods(c) + i] == SvcPod(i)
  {
  }

  lemma ResourceOfRoles(c: Params)
    ensures ResourceOf(c, Deploy) == K8sResource(c.id + "-deploy", c.name, Deployment, c.namespace, c.healthStatus,
                                                 if c.outOfSync then OutOfSync else c.syncStatus)
    ensures ResourceOf(c, Replicas) == K8sResource(c.id + "-rs", c.name + "-" + c.revision, ReplicaSet, c.namespace,
                                                   c.healthStatus, c.syncStatus)
    ensures ResourceOf(c, Svc) == K8sResource(c.id + "-svc", c.name, Service, c.namespace, Healthy, c.syncStatus)
    ensures ResourceOf(c, Ing) == K8sResource(c.id + "-ingress", c.name + "-ingress", Ingress, c.namespace,
                                              Healthy, c.syncStatus)
    ensures ResourceOf(c, Cm) == K8sResource(c.id + "-cm", c.name + "-config", ConfigMap, c.namespace,
                                             Healthy, c.syncStatus)
    ensures ResourceOf(c, Hpa) == K8sResource(c.id + "-hpa", c.name, HorizontalPodAutoscaler, c.namespace,
                                              Healthy, c.syncStatus)
  {
  }

  lemma EdgeOfLinks(c: Params)
    ensures EdgeOf(c, DeployReplicas) == Edge(c.id + "-deploy-rs", c.id + "-deploy", c.id + "-rs", Owner)
    ensures EdgeOf(c, IngSvc) == Edge(c.id + "-ingress-svc", c.id + "-ingress", c.id + "-svc", IngressRoute)
    ensures EdgeOf(c, CmDeploy) == Edge(c.id + "-cm-deploy", c.id + "-cm", c.id + "-deploy", Config)
    ensures EdgeOf(c, HpaDeploy) == Edge(c.id + "-hpa-deploy", c.id + "-hpa", c.id + "-deploy", Scaling)
  {
  }

  /** The resources of a component besides its pods: the deployment first, which alone can be out of sync,
      then the replica set, after the pods the service, and last what the flags ask for. */
  lemma ListedResources(c: Params)
    ensures var rs, pods := Resources(c), if c.podCount > 0 then c.podCount else 0;
            var ingress, configMap := if c.hasIngress then 1 else 0, if c.hasConfigMap then 1 else 0;
            && |rs| == 3 + pods + ingress + configMap + (if c.hasHPA then 1 else 0)
            && rs[0] == K8sResource(c.id + "-deploy", c.name, Deployment, c.namespace, c.healthStatus,
                                    if c.outOfSync then OutOfSync else c.syncStatus)
            && rs[1] == K8sResource(c.id + "-rs", c.name + "-" + c.revision, ReplicaSet, c.namespace,
                                    c.healthStatus, c.syncStatus)
            && rs[2 + pods] == K8sResource(c.id + "-svc", c.name, Service, c.namespace, Healthy, c.syncStatus)
            && (c.hasIngress ==>
                  rs[3 + pods] == K8sResource(c.id + "-ingress", c.name + "-ingress", Ingress, c.namespace,
                                              Healthy, c.syncStatus))
            && (c.hasConfigMap ==>
                  rs[3 + pods + ingress] == K8sResource(c.id + "-cm", c.name + "-config", ConfigMap, c.namespace,
                                                        Healthy, c.syncStatus))
            && (c.hasHPA ==>
                  rs[3 + pods + ingress + configMap]
                  == K8sResource(c.id + "-hpa", c.name, HorizontalPodAutoscaler, c.namespace, Healthy, c.syncStatus))
  {
    hide ResourceOf, Roles;
    ResourceOfRoles(c);
    RolesInOrder(c);
  }

  /** The edges of a component besides those to its pods: the deployment owns the replica set, and each
      resource that the flags ask for points at what it serves. */
  lemma ListedEdges(c: Params)
    ensures var es, pods := Edges(c), if c.podCount > 0 then c.podCount else 0;
            var ingress, configMap := if c.hasIngress then 1 else 0, if c.hasConfigMap then 1 else 0;
            && |es| == 1 + pods + pods + ingress + configMap + (if c.hasHPA then 1 else 0)
            && es[0] == Edge(c.id + "-deploy-rs", c.id + "-deploy", c.id + "-rs", Owner)
            && (c.hasIngress ==>
                  es[1 + pods + pods] == Edge(c.id + "-ingress-svc", c.id + "-ingress", c.id + "-svc", IngressRoute))
            && (c.hasConfigMap ==>
                  es[1 + pods + pods + ingress] == Edge(c.id + "-cm-deploy", c.id + "-cm", c.id + "-deploy", Config))
            && (c.hasHPA ==>
                  es[1 + pods + pods + ingress + configMap]
                  == Edge(c.id + "-hpa-deploy", c.id + "-hpa", c.id + "-deploy", Scaling))
  {
    hide EdgeOf, Links;
    EdgeOfLinks(c);
    LinksInOrder(c);
  }

  /** Each pod in its place, owned by the replica set and selected by the service; only the first one
      shows a degraded component. */
  lemma ListedPod(c: Params, i: nat)
    requires i < c.podCount
    ensures var podId := c.id + ("-pod-" + Decimal(i + 1));
            && |Resources(c)| >= 3 + c.podCount && |Edges(c)| >= 1 + c.podCount + c.podCount
            && Resources(c)[2 + i]
               == K8sResource(podId, c.name + "-" + c.revision + "-" + c.podName(i), Pod, c.namespace,
                              if i == 0 && c.healthStatus == Degraded then Degraded else Healthy, c.syncStatus)
            && Edges(c)[1 + i] == Edge(c.id + ("-rs-" + podId), c.id + "-rs", podId, Owner)
            && Edges(c)[1 + c.podCount + i]
               == Edge(c.id + ("-svc-pod-" + Decimal(i)), c.id + "-svc", podId, Selector)
  {
    hide Decimal, Roles, Links;
    PodsInOrder(c, i);
  }
}
