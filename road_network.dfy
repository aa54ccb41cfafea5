/**
 * Road-graph preparation and point-pair topology.
 *
 * A raw OpenStreetMap multigraph is collapsed into a simple directed graph
 * (shortest parallel edge kept, self-loops dropped); every work-zone point is
 * snapped onto it, inserting a fresh node when the nearest node is more than
 * 100 m away; for every ordered pair of work zones the twelve point pairs are
 * generated; a shortest path is computed for each; the lengths form the point
 * topology and the traversed edges form a subgraph.
 *
 * Nearest-node search, geodesic distance and the shortest-path search itself
 * are library calls; they are parameters here (`Nearest`, `Geodesic`, `Route`)
 * and only their contracts are used.
 */
module RoadNetwork {
  import opened Common

  type NodeId = int
  type Arc = (NodeId, NodeId)

  /** Node attributes `x` (longitude) and `y` (latitude). */
  datatype Coord = Coord(x: real, y: real)

  /** Edge attributes: the `length` in metres and every other attribute. */
  datatype EdgeData = EdgeData(length: real, attrs: map<string, string>)

  datatype RawEdge = RawEdge(u: NodeId, v: NodeId, data: EdgeData)

  /** The loaded GraphML network: nodes with coordinates and the edge list in
      the order the multigraph yields it. */
  datatype MultiGraph = MultiGraph(nodes: map<NodeId, Coord>, edges: seq<RawEdge>)

  /** `ox.nearest_nodes(G, X=lon, Y=lat)` on the graph's current nodes. */
  type Nearest = (map<NodeId, Coord>, real, real) -> NodeId

  /** `geodesic((lat1, lon1), (lat2, lon2)).meters`. */
  type Geodesic = (real, real, real, real) -> real

  /** `nx.shortest_path(G, u, v, weight="length")`: a node list, or `None`
      where networkx raises `NetworkXNoPath`. */
  type Route = (map<Arc, EdgeData>, NodeId, NodeId) -> Option<seq<NodeId>>

  /** Default `max_distance` of the snapping step, in metres. */
  const MAX_SNAP_DISTANCE: real := 100.0

  ghost predicate NearestOk(nearest: Nearest)
  {
    forall ns: map<NodeId, Coord>, lon: real, lat: real {:trigger nearest(ns, lon, lat)} ::
      ns != map[] ==> nearest(ns, lon, lat) in ns
  }

  // ---------------------------------------------------------------------
  // Graph simplification
  // ---------------------------------------------------------------------

  /** The edge map after the edge loop has seen `raw`: a later parallel edge
      replaces the kept one only when it is strictly shorter. */
  function Collapse(raw: seq<RawEdge>): map<Arc, EdgeData>
  {
    if raw == [] then map[]
    else
      var m := Collapse(raw[..|raw| - 1]);
      var e := raw[|raw| - 1];
      if (e.u, e.v) in m then
        if e.data.length < m[(e.u, e.v)].length then m[(e.u, e.v) := e.data] else m
      else m[(e.u, e.v) := e.data]
  }

  /** Removes every edge from a node to itself; every other edge stays
      with its data. */
  function DropSelfLoops(m: map<Arc, EdgeData>): (r: map<Arc, EdgeData>)
    ensures forall a :: a in r ==> a.0 != a.1
    ensures r.Keys <= m.Keys
    ensures forall a :: a in m && a.0 != a.1 ==> a in r && r[a] == m[a]
  {
    map a | a in m && a.0 != a.1 :: m[a]
  }

  predicate HasRaw(raw: seq<RawEdge>, u: NodeId, v: NodeId)
  {
    exists i :: 0 <= i < |raw| && raw[i].u == u && raw[i].v == v
  }

  /** The collapsed graph has an edge (u, v) exactly when some raw edge does. */
  lemma {:induction false} CollapseKeys(raw: seq<RawEdge>, u: NodeId, v: NodeId)
    ensures (u, v) in Collapse(raw) <==> HasRaw(raw, u, v)
  {
    if raw != [] {
      var init := raw[..|raw| - 1];
      CollapseKeys(init, u, v);
      if HasRaw(init, u, v) {
        var i :| 0 <= i < |init| && init[i].u == u && init[i].v == v;
        assert raw[i] == init[i];
      }
      if HasRaw(raw, u, v) {
        var i :| 0 <= i < |raw| && raw[i].u == u && raw[i].v == v;
        if i < |init| {
          assert init[i] == raw[i];
        }
      }
    }
  }

  /** The kept edge is no longer than any raw edge with the same ends. */
  lemma {:induction false} CollapseKeepsMinimum(raw: seq<RawEdge>, i: int)
    requires 0 <= i < |raw|
    ensures (raw[i].u, raw[i].v) in Collapse(raw)
    ensures Collapse(raw)[(raw[i].u, raw[i].v)].length <= raw[i].data.length
  {
    var init := raw[..|raw| - 1];
    var e := raw[|raw| - 1];
    if i < |raw| - 1 {
      assert init[i] == raw[i];
      CollapseKeepsMinimum(init, i);
    }
  }

  /** The kept edge is a raw edge with those ends, and every earlier raw edge
      with the same ends is strictly longer: on ties the first one wins. */
  lemma {:induction false} CollapseFirstMinimum(raw: seq<RawEdge>, u: NodeId, v: NodeId)
    requires (u, v) in Collapse(raw)
    ensures exists j :: 0 <= j < |raw| && raw[j].u == u && raw[j].v == v
              && raw[j].data == Collapse(raw)[(u, v)]
              && forall i :: 0 <= i < j && raw[i].u == u && raw[i].v == v ==>
                   raw[i].data.length > raw[j].data.length
  {
    var init := raw[..|raw| - 1];
    var e := raw[|raw| - 1];
    var m := Collapse(init);
    var last := |raw| - 1;
    if (u, v) in m {
      CollapseFirstMinimum(init, u, v);
      var j :| 0 <= j < |init| && init[j].u == u && init[j].v == v
                && init[j].data == m[(u, v)]
                && forall i :: 0 <= i < j && init[i].u == u && init[i].v == v ==>
                     init[i].data.length > init[j].data.length;
      if e.u == u && e.v == v && e.data.length < m[(u, v)].length {
        forall i | 0 <= i < last && raw[i].u == u && raw[i].v == v
          ensures raw[i].data.length > raw[last].data.length
        {
          assert init[i] == raw[i];
          CollapseKeepsMinimum(init, i);
        }
      } else {
        assert raw[j] == init[j];
        forall i | 0 <= i < j && raw[i].u == u && raw[i].v == v
          ensures raw[i].data.length > raw[j].data.length
        {
          assert init[i] == raw[i];
        }
      }
    } else {
      assert e.u == u && e.v == v;
      forall i | 0 <= i < last && raw[i].u == u && raw[i].v == v
        ensures false
      {
        assert init[i] == raw[i];
        CollapseKeys(init, u, v);
      }
    }
  }

  // ---------------------------------------------------------------------
  // Paths
  // ---------------------------------------------------------------------

  /** A path record: node list and total length (`inf` when unreachable). */
  datatype PathResult = PathResult(path: seq<NodeId>, length: ExtReal)

  predicate IsWalk(edges: map<Arc, EdgeData>, p: seq<NodeId>)
  {
    |p| >= 1 && forall i :: 0 <= i < |p| - 1 ==> (p[i], p[i + 1]) in edges
  }

  /** `nx.path_weight(G, path, "length")`. */
  function PathWeight(edges: map<Arc, EdgeData>, p: seq<NodeId>): real
    requires IsWalk(edges, p)
  {
    if |p| == 1 then 0.0
    else edges[(p[0], p[1])].length + PathWeight(edges, p[1..])
  }

  /** What networkx promises of a shortest-path answer: none, or a walk from
      `u` to `v` along existing edges. */
  predicate RouteAnswerOk(edges: map<Arc, EdgeData>, u: NodeId, v: NodeId, a: Option<seq<NodeId>>)
  {
    a.Some? ==> IsWalk(edges, a.value) && a.value[0] == u && a.value[|a.value| - 1] == v
  }

  ghost predicate RouteOk(route: Route)
  {
    forall es: map<Arc, EdgeData>, u: NodeId, v: NodeId {:trigger route(es, u, v)} ::
      RouteAnswerOk(es, u, v, route(es, u, v))
  }

  predicate NonNegativeLengths(edges: map<Arc, EdgeData>)
  {
    forall a :: a in edges ==> edges[a].length >= 0.0
  }

  /** `get_shortest_path`: an unreachable pair gives `([], inf)` instead of an
      error; otherwise the path runs from `u` to `v` and its length is the sum
      of its edge lengths. */
  function ShortestPath(edges: map<Arc, EdgeData>, u: NodeId, v: NodeId, route: Route): (r: PathResult)
    requires RouteAnswerOk(edges, u, v, route(edges, u, v))
    ensures r.length.Inf? <==> r.path == []
    ensures r.path != [] ==> IsWalk(edges, r.path) && r.path[0] == u && r.path[|r.path| - 1] == v
    ensures r.path != [] ==> r.length == Finite(PathWeight(edges, r.path))
  {
    match route(edges, u, v)
    case None => PathResult([], Inf)
    case Some(p) => PathResult(p, Finite(PathWeight(edges, p)))
  }

  /** With non-negative edge lengths every path length is non-negative. */
  lemma {:induction false} PathWeightNonNegative(edges: map<Arc, EdgeData>, p: seq<NodeId>)
    requires NonNegativeLengths(edges) && IsWalk(edges, p)
    ensures PathWeight(edges, p) >= 0.0
  {
    if |p| > 1 {
      assert IsWalk(edges, p[1..]) by {
        forall i | 0 <= i < |p[1..]| - 1 ensures (p[1..][i], p[1..][i + 1]) in edges {
          assert p[1..][i] == p[i + 1] && p[1..][i + 1] == p[i + 2];
        }
      }
      assert (p[0], p[1]) in edges;
      PathWeightNonNegative(edges, p[1..]);
    }
  }

  // ---------------------------------------------------------------------
  // The mutable graph
  // ---------------------------------------------------------------------

  class RoadGraph {
    var nodes: map<NodeId, Coord>
    var edges: map<Arc, EdgeData>

    /** Every edge joins two nodes of the graph. */
    ghost predicate Valid()
      reads this
    {
      forall a :: a in edges ==> a.0 in nodes && a.1 in nodes
    }

    /** Builds `G_simple` from the raw multigraph: edge by edge, keeping the
        shortest (first on ties) of parallel edges; then every raw node with
        its coordinates; then self-loops removed. */
    constructor Simplify(raw: MultiGraph)
      requires forall i :: 0 <= i < |raw.edges| ==> raw.edges[i].u in raw.nodes && raw.edges[i].v in raw.nodes
      ensures Valid()
      ensures nodes == raw.nodes
      ensures edges == DropSelfLoops(Collapse(raw.edges))
    {
      var simple: map<Arc, EdgeData> := map[];
      var i := 0;
      while i < |raw.edges|
        invariant 0 <= i <= |raw.edges|
        invariant simple == Collapse(raw.edges[..i])
      {
        var e := raw.edges[i];
        if (e.u, e.v) in simple {
          if e.data.length < simple[(e.u, e.v)].length {
            simple := simple - {(e.u, e.v)};
            simple := simple[(e.u, e.v) := e.data];
          }
        } else {
          simple := simple[(e.u, e.v) := e.data];
        }
        assert raw.edges[..i + 1][..i] == raw.edges[..i];
        i := i + 1;
      }
      assert raw.edges[..i] == raw.edges;
      nodes := raw.nodes;
      edges := DropSelfLoops(simple);
      new;
      forall a | a in edges ensures a.0 in nodes && a.1 in nodes {
        CollapseKeys(raw.edges, a.0, a.1);
      }
    }

    /** `max(graph.nodes)`. */
    method MaxNodeId() returns (m: NodeId)
      requires nodes != map[]
      ensures m in nodes
      ensures forall k :: k in nodes ==> k <= m
    {
      var first :| first in nodes.Items;
      m := first.0;
      var rest := nodes.Items - {first};
      while rest != {}
        invariant rest <= nodes.Items
        invariant m in nodes
        invariant forall k :: k in nodes && (k, nodes[k]) !in rest ==> k <= m
        decreases rest
      {
        var item :| item in rest;
        if item.0 > m {
          m := item.0;
        }
        rest := rest - {item};
      }
    }

    /** `add_node_if_far`: when the point lies more than `maxDistance` from
        `reference`, a node with the next free id and the point's coordinates
        is added, joined to `reference` in both directions by edges as long as
        that distance, and returned; otherwise the graph is left alone and
        `reference` is returned. */
    method AddNodeIfFar(lat: real, lon: real, reference: NodeId, maxDistance: real, geodesic: Geodesic)
      returns (added: Option<NodeId>, node: NodeId)
      requires Valid() && reference in nodes
      modifies this
      ensures Valid()
      ensures var d := geodesic(lat, lon, old(nodes)[reference].y, old(nodes)[reference].x);
        if d > maxDistance then
          && node !in old(nodes)
          && (forall k :: k in old(nodes) ==> k < node)
          && (node - 1) in old(nodes)
          && added == Some(node)
          && nodes == old(nodes)[node := Coord(lon, lat)]
          && edges == old(edges)[(node, reference) := EdgeData(d, map[])][(reference, node) := EdgeData(d, map[])]
        else
          added == None && node == reference && nodes == old(nodes) && edges == old(edges)
    {
      var distance := geodesic(lat, lon, nodes[reference].y, nodes[reference].x);
      if distance > maxDistance {
        var top := MaxNodeId();
        var newId := top + 1;
        nodes := nodes[newId := Coord(lon, lat)];
        edges := edges[(newId, reference) := EdgeData(distance, map[])];
        edges := edges[(reference, newId) := EdgeData(distance, map[])];
        added, node := Some(newId), newId;
      } else {
        added, node := None, reference;
      }
    }

    /** The snapping of one work zone in `process_point_pair`: the nearest
        nodes of its start and of its end are both looked up on the graph as
        it stands, and only then is `add_node_if_far` applied to each, start
        first, with the default threshold. Nodes and edges that were there
        stay as they were. */
    method SnapZone(oriLon: real, oriLat: real, desLon: real, desLat: real, nearest: Nearest, geodesic: Geodesic)
      returns (origin: NodeId, destination: NodeId)
      requires Valid() && NearestOk(nearest) && nodes != map[]
      modifies this
      ensures Valid() && origin in nodes && destination in nodes
      ensures old(nodes).Keys <= nodes.Keys && old(edges).Keys <= edges.Keys
      ensures forall k :: k in old(nodes) ==> nodes[k] == old(nodes)[k]
      ensures forall a :: a in old(edges) ==> edges[a] == old(edges)[a]
      ensures nodes.Keys == old(nodes).Keys + ({origin, destination} - old(nodes).Keys)
      ensures SnappedTo(old(nodes), nodes, oriLon, oriLat, origin, nearest, geodesic)
      ensures SnappedTo(old(nodes), nodes, desLon, desLat, destination, nearest, geodesic)
      ensures ZoneSnapped(old(nodes), old(edges), oriLon, oriLat, desLon, desLat, nearest, geodesic,
                          origin, destination, nodes, edges)
    {
      var referenceOrigin := nearest(nodes, oriLon, oriLat);
      var referenceDestination := nearest(nodes, desLon, desLat);
      var _, o := AddNodeIfFar(oriLat, oriLon, referenceOrigin, MAX_SNAP_DISTANCE, geodesic);
      ghost var middle, middleEdges := nodes, edges;
      var _, d := AddNodeIfFar(desLat, desLon, referenceDestination, MAX_SNAP_DISTANCE, geodesic);
      assert o in middle && (d in middle || d !in old(nodes));
      origin, destination := o, d;
      assert FarStep(old(nodes), old(edges), oriLon, oriLat, referenceOrigin, origin, middle, middleEdges, geodesic);
      assert FarStep(middle, middleEdges, desLon, desLat, referenceDestination, destination, nodes, edges, geodesic);
    }
  }

  /** Where a point snapped: to the node nearest it in `before` when that
      node lies within the threshold, otherwise to a node new in `after` that
      sits at the point itself. */
  predicate SnappedTo(before: map<NodeId, Coord>, after: map<NodeId, Coord>, lon: real, lat: real, node: NodeId,
                      nearest: Nearest, geodesic: Geodesic)
  {
    var reference := nearest(before, lon, lat);
    && reference in before
    && if geodesic(lat, lon, before[reference].y, before[reference].x) > MAX_SNAP_DISTANCE then
         node !in before && node in after && after[node] == Coord(lon, lat)
       else
         node == reference
  }

  /** One `add_node_if_far` with the default threshold, as a relation between
      the graph before (`nodes`, `edges`) and after (`nodes'`, `edges'`):
      either a node with the next free id, at the point, joined to
      `reference` both ways by edges as long as the distance, or nothing new
      and `reference` itself. */
  ghost predicate FarStep(nodes: map<NodeId, Coord>, edges: map<Arc, EdgeData>, lon: real, lat: real,
                          reference: NodeId, node: NodeId,
                          nodes': map<NodeId, Coord>, edges': map<Arc, EdgeData>, geodesic: Geodesic)
  {
    && reference in nodes
    && var d := geodesic(lat, lon, nodes[reference].y, nodes[reference].x);
       if d > MAX_SNAP_DISTANCE then
         && node !in nodes
         && (forall k :: k in nodes ==> k < node)
         && (node - 1) in nodes
         && nodes' == nodes[node := Coord(lon, lat)]
         && edges' == edges[(node, reference) := EdgeData(d, map[])][(reference, node) := EdgeData(d, map[])]
       else
         node == reference && nodes' == nodes && edges' == edges
  }

  /** The snapping of one work zone as a relation: both nearest nodes are
      looked up in `nodes`, then the start takes one `FarStep` and the end a
      second one from where the first left the graph. */
  ghost predicate ZoneSnapped(nodes: map<NodeId, Coord>, edges: map<Arc, EdgeData>,
                              oriLon: real, oriLat: real, desLon: real, desLat: real,
                              nearest: Nearest, geodesic: Geodesic, origin: NodeId, destination: NodeId,
                              nodes': map<NodeId, Coord>, edges': map<Arc, EdgeData>)
  {
    exists middle, middleEdges ::
      && FarStep(nodes, edges, oriLon, oriLat, nearest(nodes, oriLon, oriLat), origin, middle, middleEdges, geodesic)
      && FarStep(middle, middleEdges, desLon, desLat, nearest(nodes, desLon, desLat), destination, nodes', edges', geodesic)
  }

  /** One step determines the node it returns and the graph it leaves: the
      next free id is one more than the largest id. */
  lemma FarStepFunctional(nodes: map<NodeId, Coord>, edges: map<Arc, EdgeData>, lon: real, lat: real,
                          reference: NodeId, geodesic: Geodesic,
                          node1: NodeId, nodes1: map<NodeId, Coord>, edges1: map<Arc, EdgeData>,
                          node2: NodeId, nodes2: map<NodeId, Coord>, edges2: map<Arc, EdgeData>)
    requires FarStep(nodes, edges, lon, lat, reference, node1, nodes1, edges1, geodesic)
    requires FarStep(nodes, edges, lon, lat, reference, node2, nodes2, edges2, geodesic)
    ensures node1 == node2 && nodes1 == nodes2 && edges1 == edges2
  {
    if geodesic(lat, lon, nodes[reference].y, nodes[reference].x) > MAX_SNAP_DISTANCE {
      assert node1 - 1 < node2 && node2 - 1 < node1;
    }
  }

  /** The snapping of a zone determines the two nodes and the graph it
      leaves. */
  lemma ZoneSnappedFunctional(nodes: map<NodeId, Coord>, edges: map<Arc, EdgeData>,
                              oriLon: real, oriLat: real, desLon: real, desLat: real,
                              nearest: Nearest, geodesic: Geodesic,
                              origin1: NodeId, destination1: NodeId, nodes1: map<NodeId, Coord>, edges1: map<Arc, EdgeData>,
                              origin2: NodeId, destination2: NodeId, nodes2: map<NodeId, Coord>, edges2: map<Arc, EdgeData>)
    requires ZoneSnapped(nodes, edges, oriLon, oriLat, desLon, desLat, nearest, geodesic, origin1, destination1, nodes1, edges1)
    requires ZoneSnapped(nodes, edges, oriLon, oriLat, desLon, desLat, nearest, geodesic, origin2, destination2, nodes2, edges2)
    ensures origin1 == origin2 && destination1 == destination2 && nodes1 == nodes2 && edges1 == edges2
  {
    var referenceOrigin, referenceDestination := nearest(nodes, oriLon, oriLat), nearest(nodes, desLon, desLat);
    var middle1, middleEdges1 :|
      && FarStep(nodes, edges, oriLon, oriLat, referenceOrigin, origin1, middle1, middleEdges1, geodesic)
      && FarStep(middle1, middleEdges1, desLon, desLat, referenceDestination, destination1, nodes1, edges1, geodesic);
    var middle2, middleEdges2 :|
      && FarStep(nodes, edges, oriLon, oriLat, referenceOrigin, origin2, middle2, middleEdges2, geodesic)
      && FarStep(middle2, middleEdges2, desLon, desLat, referenceDestination, destination2, nodes2, edges2, geodesic);
    FarStepFunctional(nodes, edges, oriLon, oriLat, referenceOrigin, geodesic,
                      origin1, middle1, middleEdges1, origin2, middle2, middleEdges2);
    FarStepFunctional(middle1, middleEdges1, desLon, desLat, referenceDestination, geodesic,
                      destination1, nodes1, edges1, destination2, nodes2, edges2);
  }

  /** `get_nearest_node` and its module-level memo table. */
  class NearestNodeCache {
    var cache: map<(real, real), NodeId>

    constructor ()
      ensures cache == map[]
    {
      cache := map[];
    }

    /** A key already cached returns the cached node and changes nothing;
        otherwise the nearest node is looked up and remembered. */
    method GetNearestNode(g: RoadGraph, lon: real, lat: real, nearest: Nearest) returns (node: NodeId)
      modifies this
      ensures (lon, lat) in old(cache) ==> node == old(cache)[(lon, lat)] && cache == old(cache)
      ensures (lon, lat) !in old(cache) ==>
                node == nearest(g.nodes, lon, lat) && cache == old(cache)[(lon, lat) := node]
      ensures old(cache).Keys <= cache.Keys
      ensures forall k :: k in old(cache) ==> cache[k] == old(cache)[k]
    {
      if (lon, lat) !in cache {
        cache := cache[(lon, lat) := nearest(g.nodes, lon, lat)];
      }
      node := cache[(lon, lat)];
    }
  }

  /** Two lookups of the same coordinates give the same node, even when the
      graph's nodes have changed in between. */
  method RepeatedLookupIsStable(c: NearestNodeCache, g: RoadGraph, lon: real, lat: real, nearest: Nearest,
                                changed: map<NodeId, Coord>)
    returns (first: NodeId, second: NodeId)
    modifies c, g
    ensures first == second
  {
    first := c.GetNearestNode(g, lon, lat, nearest);
    g.nodes := changed;
    second := c.GetNearestNode(g, lon, lat, nearest);
  }

  // ---------------------------------------------------------------------
  // Point pairs
  // ---------------------------------------------------------------------

  /** One entry of `flattened_data`: the two point indices of a work zone and
      the coordinates of its start and end. */
  datatype FlatPoint = FlatPoint(
    oriIndex: nat, desIndex: nat,
    oriLon: real, oriLat: real, desLon: real, desLat: real)

  /** The graph nodes the four points of a pair of work zones snapped to. */
  datatype Snapped = Snapped(origin1: NodeId, destination1: NodeId, origin2: NodeId, destination2: NodeId)

  /** A keyed point pair: point indices and the graph nodes to route between. */
  datatype PairRequest = PairRequest(from: nat, to: nat, origin: NodeId, destination: NodeId)
  {
    function Key(): (nat, nat) { (from, to) }
    function Reversed(): PairRequest { PairRequest(to, from, destination, origin) }
  }

  /** Each point index with the node it stands for: the depot first, then
      the four points of the two zones. */
  function Labels(p1: FlatPoint, p2: FlatPoint, depotIndex: nat, depotNode: NodeId, s: Snapped): seq<(nat, NodeId)>
  {
    [(depotIndex, depotNode),
     (p1.oriIndex, s.origin1), (p1.desIndex, s.destination1),
     (p2.oriIndex, s.origin2), (p2.desIndex, s.destination2)]
  }

  /** The twelve keys of the pairs generated for one ordered pair of zones:
      the four from a point of the first zone to a point of the second, then
      depot-to-point and point-to-depot for each of the four points. */
  function PairKeys(p1: FlatPoint, p2: FlatPoint, depotIndex: nat): seq<(nat, nat)>
  {
    [(p1.oriIndex, p2.oriIndex), (p1.oriIndex, p2.desIndex), (p1.desIndex, p2.oriIndex), (p1.desIndex, p2.desIndex),
     (depotIndex, p1.oriIndex), (p1.oriIndex, depotIndex), (depotIndex, p1.desIndex), (p1.desIndex, depotIndex),
     (depotIndex, p2.oriIndex), (p2.oriIndex, depotIndex), (depotIndex, p2.desIndex), (p2.desIndex, depotIndex)]
  }

  /** The twelve pairs `process_point_pair` returns. */
  function PointPairs(p1: FlatPoint, p2: FlatPoint, depotIndex: nat, depotNode: NodeId, s: Snapped)
    : (r: seq<PairRequest>)
    ensures |r| == 12
    ensures forall t :: 0 <= t < 12 ==> r[t].Key() == PairKeys(p1, p2, depotIndex)[t]
    // every pair routes between the nodes its two points snapped to
    ensures forall t :: 0 <= t < 12 ==>
              (r[t].from, r[t].origin) in Labels(p1, p2, depotIndex, depotNode, s)
              && (r[t].to, r[t].destination) in Labels(p1, p2, depotIndex, depotNode, s)
    // the depot legs come in both directions over the same nodes
    ensures forall t :: 4 <= t < 12 ==> r[t].Reversed() in r
  {
    var o1, d1, o2, d2 := p1.oriIndex, p1.desIndex, p2.oriIndex, p2.desIndex;
    var r := [
      PairRequest(o1, o2, s.origin1, s.origin2),
      PairRequest(o1, d2, s.origin1, s.destination2),
      PairRequest(d1, o2, s.destination1, s.origin2),
      PairRequest(d1, d2, s.destination1, s.destination2),

      PairRequest(depotIndex, o1, depotNode, s.origin1),
      PairRequest(o1, depotIndex, s.origin1, depotNode),
      PairRequest(depotIndex, d1, depotNode, s.destination1),
      PairRequest(d1, depotIndex, s.destination1, depotNode),

      PairRequest(depotIndex, o2, depotNode, s.origin2),
      PairRequest(o2, depotIndex, s.origin2, depotNode),
      PairRequest(depotIndex, d2, depotNode, s.destination2),
      PairRequest(d2, depotIndex, s.destination2, depotNode)
    ];
    assert forall t :: 4 <= t < 12 ==> r[t].Reversed() == r[if t % 2 == 0 then t + 1 else t - 1];
    r
  }

  /** The point index to node-coordinate entries `process_point_pair`
      returns. A destination index takes the longitude of its own node but
      the latitude of the origin node of the same work zone. */
  function PointCoords(p1: FlatPoint, p2: FlatPoint, nodes: map<NodeId, Coord>, s: Snapped): (c: map<nat, Coord>)
    requires s.origin1 in nodes && s.destination1 in nodes && s.origin2 in nodes && s.destination2 in nodes
    ensures c.Keys == {p1.oriIndex, p1.desIndex, p2.oriIndex, p2.desIndex}
  {
    map[p1.oriIndex := Coord(nodes[s.origin1].x, nodes[s.origin1].y)]
       [p1.desIndex := Coord(nodes[s.destination1].x, nodes[s.origin1].y)]
       [p2.oriIndex := Coord(nodes[s.origin2].x, nodes[s.origin2].y)]
       [p2.desIndex := Coord(nodes[s.destination2].x, nodes[s.origin2].y)]
  }

  /** When the two zones are distinct and their point indices all differ,
      the coordinates of a destination point mix two nodes: its own
      longitude and the latitude of its zone's start node. */
  lemma DestinationLatitudeFromOrigin(p1: FlatPoint, p2: FlatPoint, nodes: map<NodeId, Coord>, s: Snapped)
    requires s.origin1 in nodes && s.destination1 in nodes && s.origin2 in nodes && s.destination2 in nodes
    requires p1.desIndex !in {p1.oriIndex, p2.oriIndex, p2.desIndex}
    ensures PointCoords(p1, p2, nodes, s)[p1.desIndex] == Coord(nodes[s.destination1].x, nodes[s.origin1].y)
  {
  }

  /** `process_point_pair`: snaps the two points of the first zone on the
      graph as given, then the two points of the second zone on the graph as
      the first snapping left it, and returns the pairs and coordinates. */
  method ProcessPointPair(g: RoadGraph, p1: FlatPoint, p2: FlatPoint, depotIndex: nat, depotNode: NodeId,
                          nearest: Nearest, geodesic: Geodesic)
    returns (s: Snapped, pairs: seq<PairRequest>, coords: map<nat, Coord>)
    requires g.Valid() && NearestOk(nearest) && depotNode in g.nodes
    modifies g
    ensures g.Valid() && depotNode in g.nodes
    ensures old(g.nodes).Keys <= g.nodes.Keys && old(g.edges).Keys <= g.edges.Keys
    ensures forall k :: k in old(g.nodes) ==> g.nodes[k] == old(g.nodes)[k]
    ensures forall a :: a in old(g.edges) ==> g.edges[a] == old(g.edges)[a]
    ensures s.origin1 in g.nodes && s.destination1 in g.nodes && s.origin2 in g.nodes && s.destination2 in g.nodes
    ensures PairSnapped(old(g.nodes), old(g.edges), p1, p2, nearest, geodesic, s, g.nodes, g.edges)
    ensures pairs == PointPairs(p1, p2, depotIndex, depotNode, s)
    ensures coords == PointCoords(p1, p2, g.nodes, s)
  {
    var o1, d1 := g.SnapZone(p1.oriLon, p1.oriLat, p1.desLon, p1.desLat, nearest, geodesic);
    ghost var middle, middleEdges := g.nodes, g.edges;
    var o2, d2 := g.SnapZone(p2.oriLon, p2.oriLat, p2.desLon, p2.desLat, nearest, geodesic);
    SnappedToGrows(old(g.nodes), middle, g.nodes, p1.oriLon, p1.oriLat, o1, nearest, geodesic);
    SnappedToGrows(old(g.nodes), middle, g.nodes, p1.desLon, p1.desLat, d1, nearest, geodesic);
    s := Snapped(o1, d1, o2, d2);
    coords := PointCoords(p1, p2, g.nodes, s);
    pairs := PointPairs(p1, p2, depotIndex, depotNode, s);
  }

  /** Where the four points of a pair of zones went: the first zone snapped
      on the graph as given, the second on the graph the first left, and
      each point either to its nearest node or to a new node at the point. */
  ghost predicate PairSnapped(nodes: map<NodeId, Coord>, edges: map<Arc, EdgeData>, p1: FlatPoint, p2: FlatPoint,
                              nearest: Nearest, geodesic: Geodesic, s: Snapped,
                              nodes': map<NodeId, Coord>, edges': map<Arc, EdgeData>)
  {
    && SnappedTo(nodes, nodes', p1.oriLon, p1.oriLat, s.origin1, nearest, geodesic)
    && SnappedTo(nodes, nodes', p1.desLon, p1.desLat, s.destination1, nearest, geodesic)
    && exists middle, middleEdges ::
         && ZoneSnapped(nodes, edges, p1.oriLon, p1.oriLat, p1.desLon, p1.desLat, nearest, geodesic,
                        s.origin1, s.destination1, middle, middleEdges)
         && ZoneSnapped(middle, middleEdges, p2.oriLon, p2.oriLat, p2.desLon, p2.desLat, nearest, geodesic,
                        s.origin2, s.destination2, nodes', edges')
         && SnappedTo(middle, nodes', p2.oriLon, p2.oriLat, s.origin2, nearest, geodesic)
         && SnappedTo(middle, nodes', p2.desLon, p2.desLat, s.destination2, nearest, geodesic)
  }

  /** A snapping stays true while the graph only grows. */
  lemma SnappedToGrows(before: map<NodeId, Coord>, middle: map<NodeId, Coord>, after: map<NodeId, Coord>,
                       lon: real, lat: real, node: NodeId, nearest: Nearest, geodesic: Geodesic)
    requires SnappedTo(before, middle, lon, lat, node, nearest, geodesic) && Grows(middle, after)
    ensures SnappedTo(before, after, lon, lat, node, nearest, geodesic)
  {
  }

  function PairKeySet(p1: FlatPoint, p2: FlatPoint, depotIndex: nat): set<(nat, nat)>
  {
    set k | k in PairKeys(p1, p2, depotIndex)
  }

  function RequestKeys(pairs: seq<PairRequest>): set<(nat, nat)>
  {
    set q | q in pairs :: q.Key()
  }

  lemma PairKeysOfRequests(p1: FlatPoint, p2: FlatPoint, depotIndex: nat, depotNode: NodeId, s: Snapped)
    ensures RequestKeys(PointPairs(p1, p2, depotIndex, depotNode, s)) == PairKeySet(p1, p2, depotIndex)
  {
    var r := PointPairs(p1, p2, depotIndex, depotNode, s);
    var ks := PairKeys(p1, p2, depotIndex);
    forall k | k in PairKeySet(p1, p2, depotIndex)
      ensures k in RequestKeys(r)
    {
      var t :| 0 <= t < |ks| && ks[t] == k;
      assert r[t] in r;
    }
    forall q | q in r
      ensures q.Key() in PairKeySet(p1, p2, depotIndex)
    {
      var t :| 0 <= t < |r| && r[t] == q;
      assert ks[t] in ks;
    }
  }

  /** The keys of `paths_set` after every ordered pair (i, j) of zones with
      i < ii, or i == ii and j < jj, has been processed. */
  function KeysUpTo(points: seq<FlatPoint>, depotIndex: nat, ii: nat, jj: nat): set<(nat, nat)>
    requires ii <= |points| && jj <= |points|
  {
    set i, j, k | 0 <= i < |points| && 0 <= j < |points| && (i < ii || (i == ii && j < jj))
                  && k in PairKeySet(points[i], points[j], depotIndex) :: k
  }

  /** Every key `main` routes: all twelve keys of every ordered pair of work
      zones, the pair of a zone with itself included. */
  function AllPairKeys(points: seq<FlatPoint>, depotIndex: nat): set<(nat, nat)>
  {
    set i, j, k | 0 <= i < |points| && 0 <= j < |points|
                  && k in PairKeySet(points[i], points[j], depotIndex) :: k
  }

  /** A zone is paired with itself, so the point topology holds the self pairs
      (o, o), (o, d), (d, o), (d, d) of every zone, and both depot legs of
      each of its points. */
  lemma SelfAndDepotKeys(points: seq<FlatPoint>, depotIndex: nat, i: int)
    requires 0 <= i < |points|
    ensures var p := points[i];
      && (p.oriIndex, p.oriIndex) in AllPairKeys(points, depotIndex)
      && (p.desIndex, p.desIndex) in AllPairKeys(points, depotIndex)
      && (p.oriIndex, p.desIndex) in AllPairKeys(points, depotIndex)
      && (p.desIndex, p.oriIndex) in AllPairKeys(points, depotIndex)
      && (depotIndex, p.oriIndex) in AllPairKeys(points, depotIndex)
      && (p.oriIndex, depotIndex) in AllPairKeys(points, depotIndex)
      && (depotIndex, p.desIndex) in AllPairKeys(points, depotIndex)
      && (p.desIndex, depotIndex) in AllPairKeys(points, depotIndex)
  {
    var p, d := points[i], depotIndex;
    InAllPairKeys(points, d, i, i, (p.oriIndex, p.oriIndex));
    InAllPairKeys(points, d, i, i, (p.desIndex, p.desIndex));
    InAllPairKeys(points, d, i, i, (p.oriIndex, p.desIndex));
    InAllPairKeys(points, d, i, i, (p.desIndex, p.oriIndex));
    InAllPairKeys(points, d, i, i, (d, p.oriIndex));
    InAllPairKeys(points, d, i, i, (p.oriIndex, d));
    InAllPairKeys(points, d, i, i, (d, p.desIndex));
    InAllPairKeys(points, d, i, i, (p.desIndex, d));
  }

  lemma InAllPairKeys(points: seq<FlatPoint>, depotIndex: nat, i: int, j: int, k: (nat, nat))
    requires 0 <= i < |points| && 0 <= j < |points|
    requires k in PairKeys(points[i], points[j], depotIndex)
    ensures k in AllPairKeys(points, depotIndex)
  {
    assert k in PairKeySet(points[i], points[j], depotIndex);
  }

  /** Every key joins two of the points: the depot or the start or end
      point of some zone. */
  lemma KeysArePoints(points: seq<FlatPoint>, depotIndex: nat, k: (nat, nat))
    requires k in AllPairKeys(points, depotIndex)
    ensures IsPoint(points, depotIndex, k.0) && IsPoint(points, depotIndex, k.1)
  {
    var i, j :| 0 <= i < |points| && 0 <= j < |points| && k in PairKeySet(points[i], points[j], depotIndex);
    var ks := PairKeys(points[i], points[j], depotIndex);
    var t :| 0 <= t < |ks| && ks[t] == k;
  }

  predicate IsPoint(points: seq<FlatPoint>, depotIndex: nat, x: nat)
  {
    x == depotIndex || exists i :: 0 <= i < |points| && (x == points[i].oriIndex || x == points[i].desIndex)
  }

  /** Whether no later pair has the same key as the `t`-th. */
  predicate LastOfKey(pairs: seq<PairRequest>, t: int)
    requires 0 <= t < |pairs|
  {
    forall u :: t < u < |pairs| ==> pairs[u].Key() != pairs[t].Key()
  }

  /** The inner loop of `main` over `new_pairs`: records every pair under its
      key; the last pair with a given key is the one kept, and keys no pair
      names keep their value. */
  method MergePairs(pathsSet: map<(nat, nat), Arc>, pairs: seq<PairRequest>) returns (merged: map<(nat, nat), Arc>)
    ensures merged.Keys == pathsSet.Keys + RequestKeys(pairs)
    ensures forall k :: k in pathsSet && k !in RequestKeys(pairs) ==> merged[k] == pathsSet[k]
    ensures forall t :: 0 <= t < |pairs| && LastOfKey(pairs, t) ==>
              merged[pairs[t].Key()] == (pairs[t].origin, pairs[t].destination)
  {
    merged := pathsSet;
    for t := 0 to |pairs|
      invariant MergedUpTo(pathsSet, pairs[..t], merged)
    {
      MergeStep(pathsSet, pairs[..t], pairs[t], merged);
      assert pairs[..t + 1] == pairs[..t] + [pairs[t]];
      merged := merged[pairs[t].Key() := (pairs[t].origin, pairs[t].destination)];
    }
    assert pairs[..|pairs|] == pairs;
  }

  /** The loop invariant of `MergePairs` after the pairs `done`. */
  ghost predicate MergedUpTo(pathsSet: map<(nat, nat), Arc>, done: seq<PairRequest>, merged: map<(nat, nat), Arc>)
  {
    && merged.Keys == pathsSet.Keys + RequestKeys(done)
    && (forall k :: k in pathsSet && k !in RequestKeys(done) ==> merged[k] == pathsSet[k])
    && (forall t :: 0 <= t < |done| && LastOfKey(done, t) ==>
          merged[done[t].Key()] == (done[t].origin, done[t].destination))
  }

  lemma MergeStep(pathsSet: map<(nat, nat), Arc>, done: seq<PairRequest>, q: PairRequest, merged: map<(nat, nat), Arc>)
    requires MergedUpTo(pathsSet, done, merged)
    ensures MergedUpTo(pathsSet, done + [q], merged[q.Key() := (q.origin, q.destination)])
  {
    var done', merged' := done + [q], merged[q.Key() := (q.origin, q.destination)];
    assert RequestKeys(done') == RequestKeys(done) + {q.Key()} by {
      assert forall r :: r in done' <==> r in done || r == q;
    }
    forall t | 0 <= t < |done'| && LastOfKey(done', t)
      ensures merged'[done'[t].Key()] == (done'[t].origin, done'[t].destination)
    {
      if t < |done| {
        assert done'[t] == done[t];
        assert done'[|done|] == q;
        assert q.Key() != done[t].Key();
        assert LastOfKey(done, t) by {
          forall u | t < u < |done| ensures done[u].Key() != done[t].Key() {
            assert done'[u] == done[u];
          }
        }
      }
    }
  }

  /** Every value merged in is either an old value or the nodes of one of
      the pairs. */
  lemma MergedValues(pathsSet: map<(nat, nat), Arc>, pairs: seq<PairRequest>, merged: map<(nat, nat), Arc>, nodes: set<NodeId>)
    requires merged.Keys == pathsSet.Keys + RequestKeys(pairs)
    requires forall k :: k in pathsSet && k !in RequestKeys(pairs) ==> merged[k] == pathsSet[k]
    requires forall t :: 0 <= t < |pairs| && LastOfKey(pairs, t) ==>
               merged[pairs[t].Key()] == (pairs[t].origin, pairs[t].destination)
    requires forall k :: k in pathsSet ==> pathsSet[k].0 in nodes && pathsSet[k].1 in nodes
    requires forall t :: 0 <= t < |pairs| ==> pairs[t].origin in nodes && pairs[t].destination in nodes
    ensures forall k :: k in merged ==> merged[k].0 in nodes && merged[k].1 in nodes
  {
    forall k | k in RequestKeys(pairs)
      ensures merged[k].0 in nodes && merged[k].1 in nodes
    {
      var t := LastIndexOfKey(pairs, k);
    }
  }

  lemma LastIndexOfKey(pairs: seq<PairRequest>, k: (nat, nat)) returns (t: int)
    requires k in RequestKeys(pairs)
    ensures 0 <= t < |pairs| && pairs[t].Key() == k && LastOfKey(pairs, t)
  {
    t := |pairs| - 1;
    while pairs[t].Key() != k
      invariant 0 <= t < |pairs|
      invariant forall u :: t < u < |pairs| ==> pairs[u].Key() != k
      decreases t
    {
      if t == 0 {
        var q :| q in pairs && q.Key() == k;
        var u :| 0 <= u < |pairs| && pairs[u] == q;
        assert false;
      }
      t := t - 1;
    }
  }

  /** Processes one ordered pair of zones and folds its pairs and
      coordinates into `paths_set` and `coords_dict`. */
  method CollectOne(g: RoadGraph, pathsSet: map<(nat, nat), Arc>, coords: map<nat, Coord>,
                    p1: FlatPoint, p2: FlatPoint, depotIndex: nat, depotNode: NodeId,
                    nearest: Nearest, geodesic: Geodesic)
    returns (pathsSet': map<(nat, nat), Arc>, coords': map<nat, Coord>, s: Snapped)
    requires g.Valid() && NearestOk(nearest) && depotNode in g.nodes
    requires forall k :: k in pathsSet ==> pathsSet[k].0 in g.nodes && pathsSet[k].1 in g.nodes
    modifies g
    ensures g.Valid() && depotNode in g.nodes
    ensures Grows(old(g.nodes), g.nodes) && EdgesGrow(old(g.edges), g.edges)
    ensures PairSnapped(old(g.nodes), old(g.edges), p1, p2, nearest, geodesic, s, g.nodes, g.edges)
    ensures pathsSet'.Keys == pathsSet.Keys + PairKeySet(p1, p2, depotIndex)
    ensures forall k :: k in pathsSet' ==> pathsSet'[k].0 in g.nodes && pathsSet'[k].1 in g.nodes
    ensures forall k :: k in pathsSet && k !in PairKeySet(p1, p2, depotIndex) ==> pathsSet'[k] == pathsSet[k]
    ensures var pairs := PointPairs(p1, p2, depotIndex, depotNode, s);
            forall t :: 0 <= t < |pairs| && LastOfKey(pairs, t) ==>
              pathsSet'[pairs[t].Key()] == (pairs[t].origin, pairs[t].destination)
    ensures s.origin1 in g.nodes && s.destination1 in g.nodes && s.origin2 in g.nodes && s.destination2 in g.nodes
    ensures coords' == coords + PointCoords(p1, p2, g.nodes, s)
  {
    var pairs, pc;
    s, pairs, pc := ProcessPointPair(g, p1, p2, depotIndex, depotNode, nearest, geodesic);
    PairNodesIn(p1, p2, depotIndex, depotNode, s, g.nodes);
    pathsSet' := MergePairs(pathsSet, pairs);
    MergedValues(pathsSet, pairs, pathsSet', g.nodes.Keys);
    PairKeysOfRequests(p1, p2, depotIndex, depotNode, s);
    coords' := coords + pc;
  }

  /** Every pair routes between nodes of a graph holding the depot node and
      the four snapped nodes. */
  lemma PairNodesIn(p1: FlatPoint, p2: FlatPoint, depotIndex: nat, depotNode: NodeId, s: Snapped,
                    nodes: map<NodeId, Coord>)
    requires depotNode in nodes
    requires s.origin1 in nodes && s.destination1 in nodes && s.origin2 in nodes && s.destination2 in nodes
    ensures var pairs := PointPairs(p1, p2, depotIndex, depotNode, s);
            forall t :: 0 <= t < |pairs| ==> pairs[t].origin in nodes && pairs[t].destination in nodes
  {
    var pairs := PointPairs(p1, p2, depotIndex, depotNode, s);
    forall t | 0 <= t < |pairs| ensures pairs[t].origin in nodes && pairs[t].destination in nodes {
      var ls := Labels(p1, p2, depotIndex, depotNode, s);
      assert (pairs[t].from, pairs[t].origin) in ls && (pairs[t].to, pairs[t].destination) in ls;
    }
  }

  /** The first phase of `main`: every ordered pair of work zones is
      processed in turn (snapping may add nodes), and the pair keys with their
      nodes and the point coordinates are collected. */
  method CollectPointPairs(g: RoadGraph, points: seq<FlatPoint>, depotIndex: nat, depotNode: NodeId,
                           depotCoord: Coord, nearest: Nearest, geodesic: Geodesic)
    returns (pathsSet: map<(nat, nat), Arc>, coords: map<nat, Coord>)
    requires g.Valid() && NearestOk(nearest) && depotNode in g.nodes
    modifies g
    ensures g.Valid()
    ensures Grows(old(g.nodes), g.nodes) && EdgesGrow(old(g.edges), g.edges)
    ensures pathsSet.Keys == AllPairKeys(points, depotIndex)
    ensures forall k :: k in pathsSet ==> pathsSet[k].0 in g.nodes && pathsSet[k].1 in g.nodes
    ensures depotIndex in coords
    ensures forall i :: 0 <= i < |points| ==> points[i].oriIndex in coords && points[i].desIndex in coords
  {
    pathsSet := map[];
    coords := map[depotIndex := depotCoord];
    var n := |points|;
    for i := 0 to n
      invariant g.Valid() && depotNode in g.nodes && Grows(old(g.nodes), g.nodes) && EdgesGrow(old(g.edges), g.edges)
      invariant pathsSet.Keys == KeysUpTo(points, depotIndex, i, 0) && ArcsIn(pathsSet, g.nodes)
      invariant depotIndex in coords && PointsIn(points, i, coords)
    {
      ghost var before := coords;
      ghost var nodesBefore := g.nodes;
      pathsSet, coords := CollectRow(g, pathsSet, coords, points, i, depotIndex, depotNode, nearest, geodesic);
      KeysNextRow(points, depotIndex, i);
      GrowsTransitive(old(g.nodes), nodesBefore, g.nodes);
      PointsInStep(points, i, before, coords);
    }
    AllKeysCollected(points, depotIndex);
  }

  /** The edges of `before` are all in `after`, with the same data. */
  ghost predicate EdgesGrow(before: map<Arc, EdgeData>, after: map<Arc, EdgeData>)
  {
    before.Keys <= after.Keys && forall a :: a in before ==> after[a] == before[a]
  }

  /** The nodes of `before` are all in `after`, unchanged. */
  ghost predicate Grows(before: map<NodeId, Coord>, after: map<NodeId, Coord>)
  {
    before.Keys <= after.Keys && forall k :: k in before ==> after[k] == before[k]
  }

  lemma GrowsTransitive(a: map<NodeId, Coord>, b: map<NodeId, Coord>, c: map<NodeId, Coord>)
    requires Grows(a, b) && Grows(b, c)
    ensures Grows(a, c)
  {
  }

  /** Both ends of every arc are nodes. */
  ghost predicate ArcsIn(pathsSet: map<(nat, nat), Arc>, nodes: map<NodeId, Coord>)
  {
    forall k :: k in pathsSet ==> pathsSet[k].0 in nodes && pathsSet[k].1 in nodes
  }

  /** The points of the first `i` zones have coordinates. */
  ghost predicate PointsIn(points: seq<FlatPoint>, i: int, coords: map<nat, Coord>)
  {
    forall t :: 0 <= t < i && t < |points| ==> points[t].oriIndex in coords && points[t].desIndex in coords
  }

  lemma PointsInStep(points: seq<FlatPoint>, i: int, before: map<nat, Coord>, after: map<nat, Coord>)
    requires 0 <= i < |points| && PointsIn(points, i, before) && before.Keys <= after.Keys
    requires points[i].oriIndex in after && points[i].desIndex in after
    ensures PointsIn(points, i + 1, after)
  {
  }

  lemma AllKeysCollected(points: seq<FlatPoint>, depotIndex: nat)
    ensures KeysUpTo(points, depotIndex, |points|, 0) == AllPairKeys(points, depotIndex)
  {
  }

  /** The inner loop of `main`: the pairs of zone `i` with every zone. */
  method CollectRow(g: RoadGraph, pathsSet: map<(nat, nat), Arc>, coords: map<nat, Coord>, points: seq<FlatPoint>,
                    i: nat, depotIndex: nat, depotNode: NodeId, nearest: Nearest, geodesic: Geodesic)
    returns (pathsSet': map<(nat, nat), Arc>, coords': map<nat, Coord>)
    requires g.Valid() && NearestOk(nearest) && depotNode in g.nodes && i < |points|
    requires pathsSet.Keys == KeysUpTo(points, depotIndex, i, 0)
    requires forall k :: k in pathsSet ==> pathsSet[k].0 in g.nodes && pathsSet[k].1 in g.nodes
    modifies g
    ensures g.Valid() && depotNode in g.nodes
    ensures Grows(old(g.nodes), g.nodes) && EdgesGrow(old(g.edges), g.edges)
    ensures pathsSet'.Keys == KeysUpTo(points, depotIndex, i, |points|)
    ensures forall k :: k in pathsSet' ==> pathsSet'[k].0 in g.nodes && pathsSet'[k].1 in g.nodes
    ensures coords.Keys <= coords'.Keys
    ensures points[i].oriIndex in coords' && points[i].desIndex in coords'
  {
    pathsSet', coords' := pathsSet, coords;
    for j := 0 to |points|
      invariant g.Valid() && depotNode in g.nodes
      invariant Grows(old(g.nodes), g.nodes) && EdgesGrow(old(g.edges), g.edges)
      invariant pathsSet'.Keys == KeysUpTo(points, depotIndex, i, j)
      invariant forall k :: k in pathsSet' ==> pathsSet'[k].0 in g.nodes && pathsSet'[k].1 in g.nodes
      invariant coords.Keys <= coords'.Keys
      invariant j > 0 ==> points[i].oriIndex in coords' && points[i].desIndex in coords'
    {
      var snapped;
      pathsSet', coords', snapped := CollectOne(g, pathsSet', coords', points[i], points[j], depotIndex, depotNode, nearest, geodesic);
      KeysStep(points, depotIndex, i, j);
    }
  }

  lemma KeysStep(points: seq<FlatPoint>, depotIndex: nat, i: nat, j: nat)
    requires i < |points| && j < |points|
    ensures KeysUpTo(points, depotIndex, i, j + 1)
            == KeysUpTo(points, depotIndex, i, j) + PairKeySet(points[i], points[j], depotIndex)
  {
  }

  lemma KeysNextRow(points: seq<FlatPoint>, depotIndex: nat, i: nat)
    requires i < |points|
    ensures KeysUpTo(points, depotIndex, i, |points|) == KeysUpTo(points, depotIndex, i + 1, 0)
  {
  }

  // ---------------------------------------------------------------------
  // Topology fill and subgraph
  // ---------------------------------------------------------------------

  /** The second phase of `main`: a shortest path for every key of
      `paths_set`; `topology_dict` maps each key to the path length. */
  method FillTopology(edges: map<Arc, EdgeData>, pathsSet: map<(nat, nat), Arc>, route: Route)
    returns (topology: map<(nat, nat), ExtReal>, paths: map<(nat, nat), PathResult>)
    requires RouteOk(route)
    ensures topology.Keys == pathsSet.Keys && paths.Keys == pathsSet.Keys
    ensures forall k :: k in pathsSet ==>
              paths[k] == ShortestPath(edges, pathsSet[k].0, pathsSet[k].1, route)
              && topology[k] == paths[k].length
  {
    topology, paths := map[], map[];
    var todo := pathsSet.Keys;
    while todo != {}
      invariant todo <= pathsSet.Keys
      invariant topology.Keys == paths.Keys == pathsSet.Keys - todo
      invariant forall k :: k in paths ==>
                  paths[k] == ShortestPath(edges, pathsSet[k].0, pathsSet[k].1, route)
                  && topology[k] == paths[k].length
      decreases todo
    {
      var k :| k in todo;
      var (u, v) := pathsSet[k];
      assert RouteAnswerOk(edges, u, v, route(edges, u, v));
      var r := ShortestPath(edges, u, v, route);
      topology := topology[k := r.length];
      paths := paths[k := r];
      todo := todo - {k};
    }
  }

  /** The step of a path from its `i`-th node to the next. */
  function ArcAt(p: seq<NodeId>, i: int): Arc
    requires 0 <= i < |p| - 1
  {
    (p[i], p[i + 1])
  }

  /** Consecutive node pairs of a path. */
  function PathArcs(p: seq<NodeId>): set<Arc>
  {
    set i | 0 <= i < |p| - 1 :: ArcAt(p, i)
  }

  /** The edges traversed by the given paths. */
  function ArcsOf(paths: map<(nat, nat), PathResult>, keys: set<(nat, nat)>): set<Arc>
  {
    set k, a | k in keys && k in paths && a in PathArcs(paths[k].path) :: a
  }

  /** The `node_pairs` loop of `main`: the consecutive node pairs of every
      path; a one-node path is skipped and an empty one adds nothing. */
  method CollectArcs(paths: map<(nat, nat), PathResult>) returns (nodePairs: set<Arc>)
    ensures nodePairs == ArcsOf(paths, paths.Keys)
    ensures forall a :: a in nodePairs <==>
              exists k, i :: k in paths && 0 <= i < |paths[k].path| - 1 && a == ArcAt(paths[k].path, i)
  {
    nodePairs := {};
    var todo := paths.Keys;
    while todo != {}
      invariant todo <= paths.Keys
      invariant nodePairs == ArcsOf(paths, paths.Keys - todo)
      decreases todo
    {
      var k :| k in todo;
      var path := paths[k].path;
      if |path| != 1 {
        var i := 0;
        while i < |path| - 1
          invariant 0 <= i <= if |path| == 0 then 0 else |path| - 1
          invariant nodePairs == ArcsOf(paths, paths.Keys - todo) + set t | 0 <= t < i :: ArcAt(path, t)
        {
          assert (set t | 0 <= t < i + 1 :: ArcAt(path, t)) == (set t | 0 <= t < i :: ArcAt(path, t)) + {ArcAt(path, i)};
          nodePairs := nodePairs + {ArcAt(path, i)};
          i := i + 1;
        }
        assert nodePairs == ArcsOf(paths, paths.Keys - todo) + PathArcs(path);
      } else {
        assert PathArcs(path) == {};
      }
      ArcsOfAdd(paths, paths.Keys - todo, k);
      todo := todo - {k};
    }
    assert paths.Keys - todo == paths.Keys;
    forall a | a in nodePairs
      ensures exists k, i :: k in paths && 0 <= i < |paths[k].path| - 1 && a == ArcAt(paths[k].path, i)
    {
      var k :| k in paths && a in PathArcs(paths[k].path);
    }
    forall a, k, i | k in paths && 0 <= i < |paths[k].path| - 1 && a == ArcAt(paths[k].path, i)
      ensures a in nodePairs
    {
      assert a in PathArcs(paths[k].path);
    }
  }

  lemma ArcsOfAdd(paths: map<(nat, nat), PathResult>, done: set<(nat, nat)>, k: (nat, nat))
    requires k in paths
    ensures ArcsOf(paths, done + {k}) == ArcsOf(paths, done) + PathArcs(paths[k].path)
  {
  }

  /** `G_simple.edge_subgraph(node_pairs)`: the graph's edges among the given
      pairs and the nodes they touch. */
  function EdgeSubgraph(nodes: map<NodeId, Coord>, edges: map<Arc, EdgeData>, arcs: set<Arc>)
    : (sub: (map<NodeId, Coord>, map<Arc, EdgeData>))
    ensures sub.1.Keys == arcs * edges.Keys
  {
    var es := map a | a in arcs && a in edges :: edges[a];
    var ns := map n | n in nodes && exists a :: a in es && (a.0 == n || a.1 == n) :: nodes[n];
    (ns, es)
  }

  /** When the paths were computed on this graph, the subgraph keeps every
      edge any of them traverses, with its data. */
  lemma SubgraphKeepsTraversedEdges(nodes: map<NodeId, Coord>, edges: map<Arc, EdgeData>,
                                    paths: map<(nat, nat), PathResult>)
    requires forall k :: k in paths && paths[k].path != [] ==> IsWalk(edges, paths[k].path)
    ensures var sub := EdgeSubgraph(nodes, edges, ArcsOf(paths, paths.Keys));
            sub.1.Keys == ArcsOf(paths, paths.Keys)
            && forall a :: a in sub.1 ==> sub.1[a] == edges[a]
  {
    forall a | a in ArcsOf(paths, paths.Keys) ensures a in edges {
      var k :| k in paths && a in PathArcs(paths[k].path);
      var i :| 0 <= i < |paths[k].path| - 1 && a == ArcAt(paths[k].path, i);
    }
  }

  // ---------------------------------------------------------------------
  // The whole script
  // ---------------------------------------------------------------------

  /** The depot: point index 0 at a fixed latitude and longitude. */
  const DEPOT_INDEX: nat := 0
  const DEPOT_LAT: real := 27.95609
  const DEPOT_LON: real := 116.3416259999999

  /** `main` without the file I/O: simplify the network, snap the depot (to
      its nearest node, without inserting one), collect the point pairs of
      every ordered pair of zones, route each, and cut out the subgraph of
      the traversed edges. */
  method BuildPointTopology(raw: MultiGraph, points: seq<FlatPoint>,
                            nearest: Nearest, geodesic: Geodesic, route: Route)
    returns (g: RoadGraph, pathsSet: map<(nat, nat), Arc>, topology: map<(nat, nat), ExtReal>,
             paths: map<(nat, nat), PathResult>, coords: map<nat, Coord>,
             subgraph: (map<NodeId, Coord>, map<Arc, EdgeData>))
    requires forall i :: 0 <= i < |raw.edges| ==> raw.edges[i].u in raw.nodes && raw.edges[i].v in raw.nodes
    requires raw.nodes != map[]
    requires NearestOk(nearest) && RouteOk(route)
    ensures g.Valid()
    // the simplified network survives snapping: its nodes and edges keep their data
    ensures Grows(raw.nodes, g.nodes) && EdgesGrow(DropSelfLoops(Collapse(raw.edges)), g.edges)
    ensures pathsSet.Keys == AllPairKeys(points, DEPOT_INDEX)
    ensures forall k :: k in pathsSet ==> pathsSet[k].0 in g.nodes && pathsSet[k].1 in g.nodes
    ensures topology.Keys == pathsSet.Keys && paths.Keys == pathsSet.Keys
    // every key is routed on the final graph between the two nodes recorded for it
    ensures forall k :: k in pathsSet ==>
              paths[k] == ShortestPath(g.edges, pathsSet[k].0, pathsSet[k].1, route) && topology[k] == paths[k].length
    ensures forall k :: k in paths && paths[k].path != [] ==> IsWalk(g.edges, paths[k].path)
    ensures forall k :: k in paths ==> (paths[k].length.Inf? <==> paths[k].path == [])
    ensures subgraph.1.Keys == ArcsOf(paths, paths.Keys)
    ensures forall a :: a in subgraph.1 ==> a in g.edges && subgraph.1[a] == g.edges[a]
    ensures DEPOT_INDEX in coords
  {
    g := new RoadGraph.Simplify(raw);
    assert g.nodes != map[];
    var depotNode := nearest(g.nodes, DEPOT_LON, DEPOT_LAT);
    assert depotNode in g.nodes;
    var depotCoord := Coord(g.nodes[depotNode].x, g.nodes[depotNode].y);
    pathsSet, coords := CollectPointPairs(g, points, DEPOT_INDEX, depotNode, depotCoord, nearest, geodesic);
    topology, paths := FillTopology(g.edges, pathsSet, route);
    assert forall k :: k in paths && paths[k].path != [] ==> IsWalk(g.edges, paths[k].path);
    var nodePairs := CollectArcs(paths);
    subgraph := EdgeSubgraph(g.nodes, g.edges, nodePairs);
    SubgraphKeepsTraversedEdges(g.nodes, g.edges, paths);
  }
}
