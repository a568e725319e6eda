/** The layered layout of a resource graph: grouping by kind, one column per layer, rows centred. */
module Layout {
  import opened Component

  datatype Node = Node(id: string, x: int, y: real, resource: K8sResource)

  const LAYER_ORDER := [
    Ingress, HorizontalPodAutoscaler, Service, Deployment, StatefulSet, DaemonSet, ConfigMap, Secret, ReplicaSet,
    Pod, PersistentVolumeClaim, ServiceAccount, RoleKind, RoleBinding, NetworkPolicy, Job, CronJob]

  const UNKNOWN_LAYER := 99
  const H_SPACING := 280
  const V_SPACING := 90.0

  // ---------------------------------------------------------------- layers

  /** The last position of a kind in the layer order, or 99 for a kind that is not in it. */
  function LayerIn(order: seq<Kind>, kind: Kind): nat {
    if order == [] then UNKNOWN_LAYER
    else if order[|order| - 1] == kind then |order| - 1
    else LayerIn(order[..|order| - 1], kind)
  }

  function Layer(r: K8sResource): nat {
    LayerIn(LAYER_ORDER, r.kind)
  }

  method BuildLayerMap() returns (layerMap: map<Kind, nat>)
    ensures forall k :: (if k in layerMap then layerMap[k] else UNKNOWN_LAYER) == LayerIn(LAYER_ORDER, k)
  {
    layerMap := map[];
    for i := 0 to |LAYER_ORDER|
      invariant forall k :: (if k in layerMap then layerMap[k] else UNKNOWN_LAYER) == LayerIn(LAYER_ORDER[..i], k)
    {
      assert LAYER_ORDER[..i + 1][..i] == LAYER_ORDER[..i];
      layerMap := layerMap[LAYER_ORDER[i] := i];
    }
    assert LAYER_ORDER[..|LAYER_ORDER|] == LAYER_ORDER;
  }

  /** The resources of one layer, in their original order. */
  function Bucket(rs: seq<K8sResource>, layer: nat): seq<K8sResource> {
    if rs == [] then []
    else
      var n := |rs| - 1;
      Bucket(rs[..n], layer) + if Layer(rs[n]) == layer then [rs[n]] else []
  }

  /** The layers that occur, in order of first appearance: the keys of the grouping map. */
  function LayersSeen(rs: seq<K8sResource>): seq<nat> {
    if rs == [] then []
    else
      var n := |rs| - 1;
      var before := LayersSeen(rs[..n]);
      if Layer(rs[n]) in before then before else before + [Layer(rs[n])]
  }

  // ---------------------------------------------------------------- sorting the layers

  function Insert(k: nat, keys: seq<nat>): seq<nat> {
    if keys == [] || k < keys[0] then [k] + keys else [keys[0]] + Insert(k, keys[1..])
  }

  function SortKeys(keys: seq<nat>): seq<nat> {
    if keys == [] then [] else Insert(keys[0], SortKeys(keys[1..]))
  }

  ghost predicate Ascending(keys: seq<nat>) {
    forall i, j :: 0 <= i < j < |keys| ==> keys[i] < keys[j]
  }

  lemma {:induction false} InsertAscends(k: nat, keys: seq<nat>)
    requires Ascending(keys) && k !in keys
    ensures Ascending(Insert(k, keys))
    ensures forall x :: x in Insert(k, keys) <==> x == k || x in keys
  {
    var all := Insert(k, keys);
    if keys == [] || k < keys[0] {
      forall i, j | 0 <= i < j < |all| ensures all[i] < all[j] {
        assert all[j] == keys[j - 1];
        assert i > 0 ==> all[i] == keys[i - 1];
        assert keys[0] <= keys[j - 1];
      }
    } else {
      var rest := Insert(k, keys[1..]);
      InsertAscends(k, keys[1..]);
      assert forall x :: x in keys <==> x == keys[0] || x in keys[1..];
      forall i, j | 0 <= i < j < |all| ensures all[i] < all[j] {
        assert all[j] == rest[j - 1] && rest[j - 1] in rest;
        assert i > 0 ==> all[i] == rest[i - 1];
      }
    }
  }

  lemma {:induction false} SortAscends(keys: seq<nat>)
    requires forall i, j :: 0 <= i < j < |keys| ==> keys[i] != keys[j]
    ensures Ascending(SortKeys(keys))
    ensures forall x :: x in SortKeys(keys) <==> x in keys
  {
    if keys != [] {
      SortAscends(keys[1..]);
      InsertAscends(keys[0], SortKeys(keys[1..]));
      assert forall x :: x in keys <==> x == keys[0] || x in keys[1..];
    }
  }

  lemma {:induction false} LayersSeenOnce(rs: seq<K8sResource>)
    ensures forall i, j :: 0 <= i < j < |LayersSeen(rs)| ==> LayersSeen(rs)[i] != LayersSeen(rs)[j]
    ensures forall l :: l in LayersSeen(rs) <==> Bucket(rs, l) != []
  {
    hide Layer;
    if rs != [] {
      LayersSeenOnce(rs[..|rs| - 1]);
    }
  }

  /** The columns of the layout: the layers that occur, in ascending order. */
  function Columns(rs: seq<K8sResource>): seq<nat> {
    SortKeys(LayersSeen(rs))
  }

  lemma {:induction false} ColumnsSpec(rs: seq<K8sResource>)
    ensures Ascending(Columns(rs))
    ensures forall l :: l in Columns(rs) <==> Bucket(rs, l) != []
  {
    LayersSeenOnce(rs);
    SortAscends(LayersSeen(rs));
  }

  // ---------------------------------------------------------------- placing the nodes

  function YOffset(row: nat, count: nat): real {
    (row as real - (count - 1) as real / 2.0) * V_SPACING
  }

  function NodeAt(bucket: seq<K8sResource>, col: nat, row: nat): Node
    requires row < |bucket|
  {
    Node(bucket[row].id, col * H_SPACING, YOffset(row, |bucket|), bucket[row])
  }

  function Column(bucket: seq<K8sResource>, col: nat, rows: nat): (nodes: seq<Node>)
    requires rows <= |bucket|
    ensures |nodes| == rows
  {
    seq(rows, row requires 0 <= row < rows => NodeAt(bucket, col, row))
  }

  function Place(rs: seq<K8sResource>, columns: seq<nat>): seq<Node> {
    if columns == [] then []
    else
      var n := |columns| - 1;
      var bucket := Bucket(rs, columns[n]);
      Place(rs, columns[..n]) + Column(bucket, n, |bucket|)
  }

  function Nodes(rs: seq<K8sResource>): seq<Node> {
    Place(rs, Columns(rs))
  }

  ghost predicate Groups(layers: map<nat, seq<K8sResource>>, rs: seq<K8sResource>) {
    && (forall l :: l in layers <==> l in LayersSeen(rs))
    && (forall l :: l in layers ==> layers[l] == Bucket(rs, l))
  }

  lemma GroupOneMore(rs: seq<K8sResource>, i: nat)
    requires i < |rs|
    ensures forall l :: Bucket(rs[..i + 1], l) == Bucket(rs[..i], l) + if Layer(rs[i]) == l then [rs[i]] else []
    ensures LayersSeen(rs[..i + 1])
            == if Layer(rs[i]) in LayersSeen(rs[..i]) then LayersSeen(rs[..i]) else LayersSeen(rs[..i]) + [Layer(rs[i])]
  {
    hide Layer;
    assert rs[..i + 1][..i] == rs[..i];
  }

  lemma {:induction false} PlaceOneMore(rs: seq<K8sResource>, columns: seq<nat>, col: nat)
    requires col < |columns|
    ensures var bucket := Bucket(rs, columns[col]);
            Place(rs, columns[..col + 1]) == Place(rs, columns[..col]) + Column(bucket, col, |bucket|)
  {
    assert columns[..col + 1][..col] == columns[..col];
  }

  method BuildNodes(resources: seq<K8sResource>) returns (nodes: seq<Node>)
    ensures nodes == Nodes(resources)
  {
    hide Column, Bucket, LayersSeen, SortKeys;
    var layers, keys := GroupByLayer(resources);
    var sortedLayers := SortKeys(keys);
    ColumnsSpec(resources);
    LayersSeenOnce(resources);
    nodes := [];
    for col := 0 to |sortedLayers|
      invariant nodes == Place(resources, sortedLayers[..col])
    {
      assert sortedLayers[col] in Columns(resources);
      PlaceOneMore(resources, sortedLayers, col);
      nodes := PlaceColumn(nodes, layers[sortedLayers[col]], col);
    }
    assert sortedLayers[..|sortedLayers|] == sortedLayers;
  }

  /** The inner loop: one node per resource of a layer, spread evenly about the axis. */
  method PlaceColumn(before: seq<Node>, layerResources: seq<K8sResource>, col: nat) returns (nodes: seq<Node>)
    ensures nodes == before + Column(layerResources, col, |layerResources|)
  {
    nodes := before;
    for row := 0 to |layerResources|
      invariant nodes == before + Column(layerResources, col, row)
    {
      var rowCount := |layerResources|;
      var yOffset := (row as real - (rowCount - 1) as real / 2.0) * V_SPACING;
      var resource := layerResources[row];
      assert Column(layerResources, col, row + 1)
          == Column(layerResources, col, row) + [NodeAt(layerResources, col, row)];
      nodes := nodes + [Node(resource.id, col * H_SPACING, yOffset, resource)];
    }
  }

  /** The layers with one more resource pushed onto its own. */
  function Pushed(layers: map<nat, seq<K8sResource>>, r: K8sResource): map<nat, seq<K8sResource>> {
    layers[Layer(r) := (if Layer(r) in layers then layers[Layer(r)] else []) + [r]]
  }

  lemma {:induction false} PushedBucket(layers: map<nat, seq<K8sResource>>, rs: seq<K8sResource>, i: nat, l: nat)
    requires i < |rs| && Groups(layers, rs[..i]) && l in Pushed(layers, rs[i])
    ensures Pushed(layers, rs[i])[l] == Bucket(rs[..i + 1], l)
  {
    hide Layer;
    GroupOneMore(rs, i);
    if l !in layers {
      LayersSeenOnce(rs[..i]);
      assert Bucket(rs[..i], l) == [];
    }
  }

  lemma PushedGroups(layers: map<nat, seq<K8sResource>>, rs: seq<K8sResource>, i: nat)
    requires i < |rs| && Groups(layers, rs[..i])
    ensures Groups(Pushed(layers, rs[i]), rs[..i + 1])
    ensures LayersSeen(rs[..i + 1])
            == if Layer(rs[i]) in layers then LayersSeen(rs[..i]) else LayersSeen(rs[..i]) + [Layer(rs[i])]
  {
    hide Layer, Bucket, LayersSeen;
    GroupOneMore(rs, i);
    forall l | l in Pushed(layers, rs[i]) ensures Pushed(layers, rs[i])[l] == Bucket(rs[..i + 1], l) {
      PushedBucket(layers, rs, i, l);
    }
  }

  method LookUp(layerMap: map<Kind, nat>, r: K8sResource) returns (layer: nat)
    requires forall k :: (if k in layerMap then layerMap[k] else UNKNOWN_LAYER) == LayerIn(LAYER_ORDER, k)
    ensures layer == Layer(r)
  {
    layer := if r.kind in layerMap then layerMap[r.kind] else UNKNOWN_LAYER;
  }

  lemma PushedIs(before: map<nat, seq<K8sResource>>, after: map<nat, seq<K8sResource>>, r: K8sResource)
    requires Layer(r) in before ==> after == before[Layer(r) := before[Layer(r)] + [r]]
    requires Layer(r) !in before ==> after == before[Layer(r) := []][Layer(r) := [] + [r]]
    ensures after == Pushed(before, r)
  {
    hide Layer;
  }

  /** A map from layer to its resources, with the layers in order of insertion. */
  method GroupByLayer(resources: seq<K8sResource>) returns (layers: map<nat, seq<K8sResource>>, keys: seq<nat>)
    ensures Groups(layers, resources) && keys == LayersSeen(resources)
  {
    var layerMap := BuildLayerMap();
    layers, keys := map[], [];
    for i := 0 to |resources|
      invariant Groups(layers, resources[..i]) && keys == LayersSeen(resources[..i])
    {
      PushedGroups(layers, resources, i);
      var r := resources[i];
      var layer := LookUp(layerMap, r);
      hide *;
      ghost var before := layers;
      if layer !in layers {
        layers := layers[layer := []];
        keys := keys + [layer];
      }
      layers := layers[layer := layers[layer] + [r]];
      PushedIs(before, layers, r);
    }
    assert resources[..|resources|] == resources;
  }
}
