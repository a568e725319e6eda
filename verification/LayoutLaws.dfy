/** What the layout shows: the stable sort of the resources by layer, at distinct positions, in
    contiguous columns balanced about the axis; and how a component's edges run across it. */
module LayoutLaws {
  import opened Component
  import opened GraphShape
  import opened Layout

  // ---------------------------------------------------------------- buckets

  lemma {:induction false} BucketConcat(a: seq<K8sResource>, b: seq<K8sResource>, l: nat)
    ensures Bucket(a + b, l) == Bucket(a, l) + Bucket(b, l)
  {
    hide Layer;
    if b == [] {
      assert a + b == a;
    } else {
      assert (a + b)[..|a + b| - 1] == a + b[..|b| - 1];
      BucketConcat(a, b[..|b| - 1], l);
    }
  }

  lemma {:induction false} BucketMembers(rs: seq<K8sResource>, l: nat)
    ensures forall i :: 0 <= i < |Bucket(rs, l)| ==> Layer(Bucket(rs, l)[i]) == l && Bucket(rs, l)[i] in rs
  {
    hide Layer;
    if rs != [] {
      BucketMembers(rs[..|rs| - 1], l);
    }
  }

  lemma {:induction false} BucketKeeps(rs: seq<K8sResource>, i: nat)
    requires i < |rs|
    ensures rs[i] in Bucket(rs, Layer(rs[i]))
  {
    hide Layer;
    var n := |rs| - 1;
    if i < n {
      BucketKeeps(rs[..n], i);
    }
  }

  lemma {:induction false} BucketOfUniform(rs: seq<K8sResource>, k: nat, l: nat)
    requires forall i :: 0 <= i < |rs| ==> Layer(rs[i]) == k
    ensures Bucket(rs, l) == if k == l then rs else []
  {
    hide Layer;
    if rs != [] {
      BucketOfUniform(rs[..|rs| - 1], k, l);
    }
  }

  // ---------------------------------------------------------------- stable sorting

  ghost predicate SortedByLayer(rs: seq<K8sResource>) {
    forall i, j :: 0 <= i < j < |rs| ==> Layer(rs[i]) <= Layer(rs[j])
  }

  /** The same resources, those of equal layer in the same order. */
  ghost predicate SameBuckets(a: seq<K8sResource>, b: seq<K8sResource>) {
    forall l :: Bucket(a, l) == Bucket(b, l)
  }

  /** Stable insertion sort by layer. */
  function StableInsert(sorted: seq<K8sResource>, r: K8sResource): seq<K8sResource> {
    if sorted == [] || Layer(sorted[|sorted| - 1]) <= Layer(r) then sorted + [r]
    else StableInsert(sorted[..|sorted| - 1], r) + [sorted[|sorted| - 1]]
  }

  function StableSort(rs: seq<K8sResource>): seq<K8sResource> {
    if rs == [] then [] else StableInsert(StableSort(rs[..|rs| - 1]), rs[|rs| - 1])
  }

  lemma {:induction false} StableInsertMembers(sorted: seq<K8sResource>, r: K8sResource)
    ensures |StableInsert(sorted, r)| == |sorted| + 1
    ensures forall i :: 0 <= i <= |sorted| ==> StableInsert(sorted, r)[i] == r || StableInsert(sorted, r)[i] in sorted
  {
    hide Layer;
    if sorted != [] && Layer(sorted[|sorted| - 1]) > Layer(r) {
      StableInsertMembers(sorted[..|sorted| - 1], r);
    }
  }

  lemma {:induction false} StableInsertSorted(sorted: seq<K8sResource>, r: K8sResource)
    requires SortedByLayer(sorted)
    ensures SortedByLayer(StableInsert(sorted, r))
  {
    hide Layer;
    var n := |sorted| - 1;
    if sorted != [] && Layer(sorted[n]) > Layer(r) {
      StableInsertSorted(sorted[..n], r);
      StableInsertMembers(sorted[..n], r);
    }
  }

  lemma {:induction false} BucketLast(rs: seq<K8sResource>, r: K8sResource, l: nat)
    ensures Bucket(rs + [r], l) == Bucket(rs, l) + if Layer(r) == l then [r] else []
  {
    hide Layer;
    assert (rs + [r])[..|rs|] == rs;
  }

  lemma {:induction false} StableInsertBucket(sorted: seq<K8sResource>, r: K8sResource, l: nat)
    ensures Bucket(StableInsert(sorted, r), l) == Bucket(sorted, l) + if Layer(r) == l then [r] else []
  {
    hide Layer, Bucket;
    var n := |sorted| - 1;
    if sorted != [] && Layer(sorted[n]) > Layer(r) {
      StableInsertBucket(sorted[..n], r, l);
      BucketLast(StableInsert(sorted[..n], r), sorted[n], l);
      BucketLast(sorted[..n], sorted[n], l);
      assert sorted == sorted[..n] + [sorted[n]];
    } else {
      BucketLast(sorted, r, l);
    }
  }

  lemma {:induction false} StableSortSpec(rs: seq<K8sResource>)
    ensures SortedByLayer(StableSort(rs)) && SameBuckets(StableSort(rs), rs)
  {
    hide Layer, StableInsert;
    if rs != [] {
      var n := |rs| - 1;
      StableSortSpec(rs[..n]);
      StableInsertSorted(StableSort(rs[..n]), rs[n]);
      forall l ensures Bucket(StableSort(rs), l) == Bucket(rs, l) {
        StableInsertBucket(StableSort(rs[..n]), rs[n], l);
      }
    }
  }

  lemma LastOfSorted(a: seq<K8sResource>, b: seq<K8sResource>)
    requires a != [] && SortedByLayer(b) && SameBuckets(a, b)
    ensures b != [] && Layer(a[|a| - 1]) <= Layer(b[|b| - 1])
  {
    hide Layer;
    var last := a[|a| - 1];
    BucketKeeps(a, |a| - 1);
    assert Bucket(b, Layer(last)) == Bucket(a, Layer(last));
    BucketMembers(b, Layer(last));
    var i :| 0 <= i < |Bucket(b, Layer(last))| && Bucket(b, Layer(last))[i] == last;
    var j :| 0 <= j < |b| && b[j] == last;
  }

  lemma SnocInjective<T>(p: seq<T>, x: T, q: seq<T>, y: T)
    requires p + [x] == q + [y]
    ensures p == q && x == y
  {
    assert p == (p + [x])[..|p|] && q == (q + [y])[..|q|];
    assert x == (p + [x])[|p|] && y == (q + [y])[|q|];
  }

  lemma DropLastBuckets(a: seq<K8sResource>, x: K8sResource, b: seq<K8sResource>, y: K8sResource)
    requires SameBuckets(a + [x], b + [y]) && Layer(x) == Layer(y)
    ensures x == y && SameBuckets(a, b)
  {
    hide Layer, Bucket;
    forall l ensures Bucket(a, l) == Bucket(b, l) && (l == Layer(x) ==> x == y) {
      assert Bucket(a + [x], l) == Bucket(b + [y], l);
      BucketLast(a, x, l);
      BucketLast(b, y, l);
      if l == Layer(x) {
        SnocInjective(Bucket(a, l), x, Bucket(b, l), y);
      } else {
        assert Bucket(a, l) + [] == Bucket(a, l) && Bucket(b, l) + [] == Bucket(b, l);
      }
    }
    assert Bucket(a, Layer(x)) == Bucket(b, Layer(x));
  }

  /** A list has only one stable sort. */
  lemma {:induction false} StableSortUnique(a: seq<K8sResource>, b: seq<K8sResource>)
    requires SortedByLayer(a) && SortedByLayer(b) && SameBuckets(a, b)
    ensures a == b
  {
    hide Layer, Bucket;
    if a == [] && b == [] {
    } else if a == [] {
      LastOfSorted(b, a);
    } else {
      LastOfSorted(a, b);
      LastOfSorted(b, a);
      var m, n := |a| - 1, |b| - 1;
      assert a == a[..m] + [a[m]] && b == b[..n] + [b[n]];
      DropLastBuckets(a[..m], a[m], b[..n], b[n]);
      StableSortUnique(a[..m], b[..n]);
    }
  }

  // ---------------------------------------------------------------- the layout is the stable sort

  /** The resources in the order their nodes are emitted. */
  function Shown(nodes: seq<Node>): (rs: seq<K8sResource>)
    ensures |rs| == |nodes|
  {
    seq(|nodes|, i requires 0 <= i < |nodes| => nodes[i].resource)
  }

  lemma ShownConcat(a: seq<Node>, b: seq<Node>)
    ensures Shown(a + b) == Shown(a) + Shown(b)
  {
  }

  lemma ShownColumn(bucket: seq<K8sResource>, col: nat)
    ensures Shown(Column(bucket, col, |bucket|)) == bucket
  {
  }

  lemma {:induction false} PlacedBuckets(rs: seq<K8sResource>, columns: seq<nat>, l: nat)
    requires Ascending(columns)
    ensures Bucket(Shown(Place(rs, columns)), l) == if l in columns then Bucket(rs, l) else []
  {
    hide Layer, Column, Shown;
    if columns == [] {
      ShownEmpty();
    } else {
      var n := |columns| - 1;
      var bucket := Bucket(rs, columns[n]);
      PlacedBuckets(rs, columns[..n], l);
      ShownConcat(Place(rs, columns[..n]), Column(bucket, n, |bucket|));
      ShownColumn(bucket, n);
      BucketConcat(Shown(Place(rs, columns[..n])), bucket, l);
      BucketMembers(rs, columns[n]);
      BucketOfUniform(bucket, columns[n], l);
    }
  }

  lemma ShownEmpty()
    ensures Shown([]) == []
  {
  }

  lemma {:induction false} PlacedSorted(rs: seq<K8sResource>, columns: seq<nat>)
    requires Ascending(columns)
    ensures SortedByLayer(Shown(Place(rs, columns)))
    ensures forall i :: 0 <= i < |Place(rs, columns)| ==> Layer(Shown(Place(rs, columns))[i]) in columns
  {
    hide Layer, Column, Shown, Bucket;
    if columns == [] {
      ShownEmpty();
    } else {
      var n := |columns| - 1;
      var bucket := Bucket(rs, columns[n]);
      PlacedSorted(rs, columns[..n]);
      ShownConcat(Place(rs, columns[..n]), Column(bucket, n, |bucket|));
      ShownColumn(bucket, n);
      BucketMembers(rs, columns[n]);
    }
  }

  /** Whatever the resources, the nodes come out in exactly the stable sort of the resources by layer,
      one node for each. */
  lemma {:induction false} LayoutIsStableSort(rs: seq<K8sResource>)
    ensures Shown(Nodes(rs)) == StableSort(rs)
  {
    hide Layer, Place, Columns, StableSort;
    ColumnsSpec(rs);
    PlacedSorted(rs, Columns(rs));
    forall l ensures Bucket(Shown(Nodes(rs)), l) == Bucket(rs, l) {
      PlacedBuckets(rs, Columns(rs), l);
    }
    StableSortSpec(rs);
    StableSortUnique(Shown(Nodes(rs)), StableSort(rs));
  }

  lemma {:induction false} StableSortKeepsAll(rs: seq<K8sResource>)
    ensures multiset(StableSort(rs)) == multiset(rs)
  {
    hide Layer, StableInsert;
    if rs != [] {
      StableSortKeepsAll(rs[..|rs| - 1]);
      InsertKeepsAll(StableSort(rs[..|rs| - 1]), rs[|rs| - 1]);
      assert rs == rs[..|rs| - 1] + [rs[|rs| - 1]];
    }
  }

  lemma {:induction false} InsertKeepsAll(sorted: seq<K8sResource>, r: K8sResource)
    ensures multiset(StableInsert(sorted, r)) == multiset(sorted) + multiset{r}
  {
    hide Layer;
    if sorted != [] && Layer(sorted[|sorted| - 1]) > Layer(r) {
      InsertKeepsAll(sorted[..|sorted| - 1], r);
      assert sorted == sorted[..|sorted| - 1] + [sorted[|sorted| - 1]];
    }
  }

  /** One node per resource, occurrence by occurrence. */
  lemma OneNodePerResource(rs: seq<K8sResource>)
    ensures |Nodes(rs)| == |rs| && multiset(Shown(Nodes(rs))) == multiset(rs)
  {
    hide StableSort, Nodes;
    LayoutIsStableSort(rs);
    StableSortKeepsAll(rs);
    assert |multiset(StableSort(rs))| == |multiset(rs)|;
  }

  // ---------------------------------------------------------------- geometry

  /** Further right, or below in the same column. */
  predicate Before(a: Node, b: Node) {
    a.x < b.x || (a.x == b.x && a.y < b.y)
  }

  ghost predicate InColumn(node: Node, rs: seq<K8sResource>, columns: seq<nat>, col: nat) {
    && col < |columns|
    && node.x == col * H_SPACING
    && node.id == node.resource.id
    && Layer(node.resource) == columns[col]
    && node.resource in rs
  }

  lemma {:induction false} ColumnNodes(rs: seq<K8sResource>, columns: seq<nat>, col: nat, row: nat)
    requires col < |columns| && row < |Bucket(rs, columns[col])|
    ensures InColumn(NodeAt(Bucket(rs, columns[col]), col, row), rs, columns, col)
  {
    hide Layer, Bucket;
    BucketMembers(rs, columns[col]);
  }

  lemma {:induction false} PlacedInColumns(rs: seq<K8sResource>, columns: seq<nat>, i: nat) returns (col: nat)
    requires i < |Place(rs, columns)|
    ensures InColumn(Place(rs, columns)[i], rs, columns, col)
  {
    hide Layer, Bucket;
    var n := |columns| - 1;
    var before := Place(rs, columns[..n]);
    if i < |before| {
      col := PlacedInColumns(rs, columns[..n], i);
    } else {
      col := n;
      ColumnNodes(rs, columns, n, i - |before|);
    }
  }

  /** Nodes are emitted left to right and, within a column, top to bottom; so no two share a position. */
  lemma {:induction false} PositionsAscend(rs: seq<K8sResource>, columns: seq<nat>, i: nat, j: nat)
    requires i < j < |Place(rs, columns)|
    ensures Before(Place(rs, columns)[i], Place(rs, columns)[j])
  {
    hide Layer, Bucket, InColumn;
    var n := |columns| - 1;
    var before := Place(rs, columns[..n]);
    if j < |before| {
      PositionsAscend(rs, columns[..n], i, j);
    } else if i < |before| {
      var col := PlacedInColumns(rs, columns[..n], i);
      EarlierColumn(before[i], rs, columns[..n], col);
    }
  }

  lemma EarlierColumn(node: Node, rs: seq<K8sResource>, columns: seq<nat>, col: nat)
    requires InColumn(node, rs, columns, col)
    ensures node.x < |columns| * H_SPACING
  {
    hide Layer;
  }

  lemma PositionsDistinct(rs: seq<K8sResource>, i: nat, j: nat)
    requires i < j < |Nodes(rs)|
    ensures Before(Nodes(rs)[i], Nodes(rs)[j])
    ensures Nodes(rs)[i].x != Nodes(rs)[j].x || Nodes(rs)[i].y != Nodes(rs)[j].y
  {
    hide Place, Columns;
    PositionsAscend(rs, Columns(rs), i, j);
  }

  lemma {:induction false} ColumnIsUsed(rs: seq<K8sResource>, columns: seq<nat>, col: nat) returns (i: nat)
    requires col < |columns| && Bucket(rs, columns[col]) != []
    ensures i < |Place(rs, columns)| && Place(rs, columns)[i].x == col * H_SPACING
  {
    hide Layer, Bucket;
    var n := |columns| - 1;
    if col < n {
      i := ColumnIsUsed(rs, columns[..n], col);
    } else {
      i := |Place(rs, columns[..n])|;
    }
  }

  /** Every node stands in the column of its layer. */
  lemma NodeInItsColumn(rs: seq<K8sResource>, i: nat) returns (col: nat)
    requires i < |Nodes(rs)|
    ensures InColumn(Nodes(rs)[i], rs, Columns(rs), col)
  {
    hide Place, Columns, InColumn;
    col := PlacedInColumns(rs, Columns(rs), i);
  }

  lemma {:induction false} PlacedAt(rs: seq<K8sResource>, columns: seq<nat>, i: nat) returns (col: nat, row: nat)
    requires i < |Place(rs, columns)|
    ensures col < |columns| && row < |Bucket(rs, columns[col])|
    ensures Place(rs, columns)[i] == NodeAt(Bucket(rs, columns[col]), col, row)
  {
    hide Layer, Bucket;
    var n := |columns| - 1;
    var before := Place(rs, columns[..n]);
    if i < |before| {
      col, row := PlacedAt(rs, columns[..n], i);
    } else {
      col, row := n, i - |before|;
    }
  }

  /** Columns are 280 apart, and the rows of a column 90 apart, spread evenly about the axis. */
  lemma NodePosition(rs: seq<K8sResource>, i: nat) returns (col: nat, row: nat)
    requires i < |Nodes(rs)|
    ensures col < |Columns(rs)| && row < |Bucket(rs, Columns(rs)[col])|
    ensures var node, bucket := Nodes(rs)[i], Bucket(rs, Columns(rs)[col]);
            && node.resource == bucket[row] && node.id == bucket[row].id
            && node.x == col * 280
            && node.y == (row as real - (|bucket| as real - 1.0) / 2.0) * 90.0
  {
    hide Place, Columns, Bucket;
    col, row := PlacedAt(rs, Columns(rs), i);
  }

  /** Columns stand in the order of their layers, numbered from 0 without a gap. */
  lemma ColumnsContiguous(rs: seq<K8sResource>, col: nat) returns (i: nat)
    requires col < |Columns(rs)|
    ensures Ascending(Columns(rs))
    ensures i < |Nodes(rs)| && Nodes(rs)[i].x == col * H_SPACING
  {
    hide Place, Columns, Bucket;
    ColumnsSpec(rs);
    assert Columns(rs)[col] in Columns(rs);
    i := ColumnIsUsed(rs, Columns(rs), col);
  }

  /** One node is left of another exactly when its layer comes earlier. */
  lemma LeftOfIff(rs: seq<K8sResource>, i: nat, j: nat)
    requires i < |Nodes(rs)| && j < |Nodes(rs)|
    ensures Nodes(rs)[i].x < Nodes(rs)[j].x <==> Layer(Nodes(rs)[i].resource) < Layer(Nodes(rs)[j].resource)
    ensures Nodes(rs)[i].x == Nodes(rs)[j].x <==> Layer(Nodes(rs)[i].resource) == Layer(Nodes(rs)[j].resource)
  {
    hide Layer, Place, Columns;
    ColumnsSpec(rs);
    var c := PlacedInColumns(rs, Columns(rs), i);
    var d := PlacedInColumns(rs, Columns(rs), j);
  }

  function SumY(nodes: seq<Node>): real {
    if nodes == [] then 0.0 else SumY(nodes[..|nodes| - 1]) + nodes[|nodes| - 1].y
  }

  lemma {:induction false} SumOfRows(bucket: seq<K8sResource>, col: nat, rows: nat)
    requires rows <= |bucket|
    ensures SumY(Column(bucket, col, rows)) == 45.0 * rows as real * (rows as real - |bucket| as real)
  {
    if rows > 0 {
      SumOfRows(bucket, col, rows - 1);
      assert Column(bucket, col, rows)[..rows - 1] == Column(bucket, col, rows - 1);
      SumStep(rows as real, |bucket| as real);
    }
  }

  lemma SumStep(k: real, n: real)
    ensures 45.0 * (k - 1.0) * (k - 1.0 - n) + (k - 1.0 - (n - 1.0) / 2.0) * V_SPACING == 45.0 * k * (k - n)
  {
  }

  /** The nodes that stand at `x`. */
  function AtX(nodes: seq<Node>, x: int): seq<Node> {
    if nodes == [] then []
    else AtX(nodes[..|nodes| - 1], x) + if nodes[|nodes| - 1].x == x then [nodes[|nodes| - 1]] else []
  }

  lemma {:induction false} AtXOfUniform(before: seq<Node>, column: seq<Node>, here: int, x: int)
    requires forall i :: 0 <= i < |column| ==> column[i].x == here
    ensures AtX(before + column, x) == AtX(before, x) + if here == x then column else []
    decreases |column|
  {
    if column == [] {
      assert before + column == before;
    } else {
      var n := |column| - 1;
      assert (before + column)[..|before + column| - 1] == before + column[..n];
      AtXOfUniform(before, column[..n], here, x);
    }
  }

  lemma {:induction false} AtXOfNone(nodes: seq<Node>, x: int)
    requires forall i :: 0 <= i < |nodes| ==> nodes[i].x < x
    ensures AtX(nodes, x) == []
  {
    if nodes != [] {
      AtXOfNone(nodes[..|nodes| - 1], x);
    }
  }

  lemma {:induction false} PlacedCentred(rs: seq<K8sResource>, columns: seq<nat>, x: int)
    ensures SumY(AtX(Place(rs, columns), x)) == 0.0
  {
    hide Layer, Bucket, InColumn, SumY, AtX;
    if columns == [] {
      NothingIsCentred(x);
    } else {
      var n := |columns| - 1;
      var bucket, before := Bucket(rs, columns[n]), Place(rs, columns[..n]);
      AtXOfUniform(before, Column(bucket, n, |bucket|), n * H_SPACING, x);
      if x == n * H_SPACING {
        forall i | 0 <= i < |before| ensures before[i].x < x {
          var col := PlacedInColumns(rs, columns[..n], i);
          EarlierColumn(before[i], rs, columns[..n], col);
        }
        AtXOfNone(before, x);
        assert [] + Column(bucket, n, |bucket|) == Column(bucket, n, |bucket|);
        SumOfRows(bucket, n, |bucket|);
      } else {
        PlacedCentred(rs, columns[..n], x);
        assert AtX(before, x) + [] == AtX(before, x);
      }
    }
  }

  lemma {:induction false} NothingIsCentred(x: int)
    ensures SumY(AtX([], x)) == 0.0
  {
  }

  /** In every layout, the y offsets of the nodes that share an x add up to zero. */
  lemma {:induction false} ColumnIsCentred(rs: seq<K8sResource>, x: int)
    ensures SumY(AtX(Nodes(rs), x)) == 0.0
  {
    hide Place, Columns;
    PlacedCentred(rs, Columns(rs), x);
  }

  // ---------------------------------------------------------------- edges across the layout

  /** The layers from left to right; kinds that are not listed come last. */
  lemma {:induction false} LayerOfKind(kind: Kind)
    ensures LayerIn(LAYER_ORDER, kind) == match kind
            case Ingress => 0
            case HorizontalPodAutoscaler => 1
            case Service => 2
            case Deployment => 3
            case StatefulSet => 4
            case DaemonSet => 5
            case ConfigMap => 6
            case Secret => 7
            case ReplicaSet => 8
            case Pod => 9
            case PersistentVolumeClaim => 10
            case ServiceAccount => 11
            case RoleKind => 12
            case RoleBinding => 13
            case NetworkPolicy => 14
            case Job => 15
            case CronJob => 16
            case OtherKind(_) => 99
  {
    hide LayerIn;
    match kind
    case Ingress => LayerAt(0);
    case HorizontalPodAutoscaler => LayerAt(1);
    case Service => LayerAt(2);
    case Deployment => LayerAt(3);
    case StatefulSet => LayerAt(4);
    case DaemonSet => LayerAt(5);
    case ConfigMap => LayerAt(6);
    case Secret => LayerAt(7);
    case ReplicaSet => LayerAt(8);
    case Pod => LayerAt(9);
    case PersistentVolumeClaim => LayerAt(10);
    case ServiceAccount => LayerAt(11);
    case RoleKind => LayerAt(12);
    case RoleBinding => LayerAt(13);
    case NetworkPolicy => LayerAt(14);
    case Job => LayerAt(15);
    case CronJob => LayerAt(16);
    case OtherKind(_) => LayerOfUnlisted(LAYER_ORDER, kind);
  }

  lemma {:induction false} LayerOfUnlisted(order: seq<Kind>, kind: Kind)
    requires kind !in order
    ensures LayerIn(order, kind) == UNKNOWN_LAYER
  {
    if order != [] {
      LayerOfUnlisted(order[..|order| - 1], kind);
    }
  }

  lemma {:induction false} LayerInPrefix(order: seq<Kind>, i: nat)
    requires i < |order| && forall j :: i < j < |order| ==> order[j] != order[i]
    ensures LayerIn(order, order[i]) == i
  {
    if i < |order| - 1 {
      LayerInPrefix(order[..|order| - 1], i);
    }
  }

  lemma LayerAt(i: nat)
    requires i < |LAYER_ORDER|
    ensures LayerIn(LAYER_ORDER, LAYER_ORDER[i]) == i
  {
    LayerInPrefix(LAYER_ORDER, i);
  }

  lemma RoleOfNode(c: Params, node: Node, role: Role)
    requires node.resource in Resources(c) && node.id == node.resource.id == c.id + Suffix(role)
    ensures Layer(node.resource) == LayerIn(LAYER_ORDER, KindOf(role))
  {
    hide Roles, Suffix;
    var k :| 0 <= k < |Resources(c)| && Resources(c)[k] == node.resource;
    IdInjective(c.id, Roles(c)[k], role);
  }

  /** Laid out, every edge of a component runs strictly to the right, except the config edges, which
      all run strictly to the left. */
  lemma EdgesRunRight(c: Params, e: nat, i: nat, j: nat)
    requires e < |Edges(c)| && i < |Nodes(Resources(c))| && j < |Nodes(Resources(c))|
    requires Nodes(Resources(c))[i].id == Edges(c)[e].source && Nodes(Resources(c))[j].id == Edges(c)[e].target
    ensures Nodes(Resources(c))[i].x < Nodes(Resources(c))[j].x <==> Edges(c)[e].edgeType != Config
    ensures Nodes(Resources(c))[i].x > Nodes(Resources(c))[j].x <==> Edges(c)[e].edgeType == Config
  {
    hide Layer, LayerIn, Place, Columns, Suffix, LinkSuffix, Roles, Links, ResourcesOf;
    var rs := Resources(c);
    var a, b := Nodes(rs)[i], Nodes(rs)[j];
    var from := PlacedInColumns(rs, Columns(rs), i);
    var to := PlacedInColumns(rs, Columns(rs), j);
    RoleOfNode(c, a, Source(Links(c)[e]));
    RoleOfNode(c, b, Target(Links(c)[e]));
    LayerOfKind(KindOf(Source(Links(c)[e])));
    LayerOfKind(KindOf(Target(Links(c)[e])));
    LeftOfIff(rs, i, j);
  }

  lemma RoleIsShown(c: Params, role: Role) returns (i: nat)
    requires HasRole(c, role)
    ensures i < |Nodes(Resources(c))| && Nodes(Resources(c))[i].id == c.id + Suffix(role)
  {
    hide Nodes, Suffix, Roles, Columns;
    var rs := Resources(c);
    RoleIsResource(c, role);
    OneNodePerResource(rs);
    var k :| 0 <= k < |rs| && rs[k].id == c.id + Suffix(role);
    assert rs[k] in multiset(Shown(Nodes(rs)));
    i :| 0 <= i < |Nodes(rs)| && Shown(Nodes(rs))[i] == rs[k];
    var _ := NodeInItsColumn(rs, i);
  }

  /** Both ends of every edge of a component have a node in its layout. */
  lemma EdgeEndsAreShown(c: Params, e: nat) returns (i: nat, j: nat)
    requires e < |Edges(c)|
    ensures i < |Nodes(Resources(c))| && Nodes(Resources(c))[i].id == Edges(c)[e].source
    ensures j < |Nodes(Resources(c))| && Nodes(Resources(c))[j].id == Edges(c)[e].target
  {
    hide Nodes, Suffix, LinkSuffix, Roles, Links, ResourcesOf;
    LinkListed(c, Links(c)[e]);
    i := RoleIsShown(c, Source(Links(c)[e]));
    j := RoleIsShown(c, Target(Links(c)[e]));
  }
}
