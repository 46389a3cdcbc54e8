/**
 * The quality co-occurrence graph of one user (backend/dreams/models.py).
 *
 * Qualities (tags) become nodes; every dream carrying two or more qualities
 * records its id on both directions of every pair of its qualities; per-node
 * statistics rank the neighbours by the number of shared dreams.
 *
 * Python dicts iterate in insertion order, and that order decides how ties are
 * broken by the stable sorts, so the graph's dicts are modelled as association
 * lists: `seq<GraphNode>` keyed by quality id and `seq<Edge>` keyed by
 * neighbour id.
 */
module QualityGraph {
  import opened Options
  import opened Seqs
  import opened Sorting

  type QualityId = int
  type DreamId = int

  /** Statistics keep this many of a node's strongest connections. */
  const TopConnectionLimit: nat := 5

  /** A stored quality row of the user: primary key, name, stored frequency. */
  datatype Quality = Quality(id: QualityId, name: string, frequency: nat)

  /** A dream and its attached qualities, in the order the query returns them. */
  datatype DreamEntry = DreamEntry(id: DreamId, qualities: seq<QualityId>)

  /** The source's `QualityConnection`. */
  datatype Connection = Connection(
    qualityId: QualityId,
    qualityName: string,
    sharedDreamIds: seq<DreamId>,
    strength: int)

  /** `QualityConnection(...)`: `__post_init__` overrides any mismatched strength. */
  function NewConnection(qualityId: QualityId, qualityName: string, sharedDreamIds: seq<DreamId>, strength: int): (c: Connection)
    ensures c.qualityId == qualityId && c.qualityName == qualityName
    ensures c.sharedDreamIds == sharedDreamIds
    ensures c.strength == |sharedDreamIds|
  {
    var c := Connection(qualityId, qualityName, sharedDreamIds, strength);
    if c.strength != |c.sharedDreamIds| then c.(strength := |c.sharedDreamIds|) else c
  }

  function Strength(c: Connection): int {
    c.strength
  }

  function ConnectionQuality(c: Connection): int {
    c.qualityId
  }

  /** One entry of a node's `edges` dict: neighbour id to the dream ids passing through it. */
  datatype Edge = Edge(neighbour: QualityId, dreamIds: seq<DreamId>)

  /** The source's `QualityGraphNode`. */
  datatype GraphNode = GraphNode(id: QualityId, name: string, frequency: nat, edges: seq<Edge>)

  /** The source's `QualityGraph`: its `nodes` dict in insertion order. */
  datatype Graph = Graph(nodes: seq<GraphNode>)

  /** The keys of an `edges` dict, in insertion order. */
  function Neighbours(edges: seq<Edge>): (r: seq<QualityId>)
    ensures |r| == |edges|
    ensures forall i :: 0 <= i < |edges| ==> r[i] == edges[i].neighbour
  {
    if |edges| == 0 then [] else [edges[0].neighbour] + Neighbours(edges[1..])
  }

  /** `edges.get(other, [])`. */
  function DreamsToward(edges: seq<Edge>, other: QualityId): seq<DreamId> {
    if |edges| == 0 then []
    else if edges[0].neighbour == other then edges[0].dreamIds
    else DreamsToward(edges[1..], other)
  }

  /** `QualityGraphNode.get_connection_strength`. */
  function ConnectionStrength(node: GraphNode, other: QualityId): nat {
    |DreamsToward(node.edges, other)|
  }

  /** `QualityGraphNode.add_edge` on the edge dict: create the entry if missing, then append. */
  function AppendEdge(edges: seq<Edge>, other: QualityId, dreamId: DreamId): (r: seq<Edge>)
    ensures forall y :: DreamsToward(r, y) == DreamsToward(edges, y) + (if y == other then [dreamId] else [])
    ensures Neighbours(r) == if other in Neighbours(edges) then Neighbours(edges) else Neighbours(edges) + [other]
  {
    if |edges| == 0 then [Edge(other, [dreamId])]
    else if edges[0].neighbour == other then [Edge(other, edges[0].dreamIds + [dreamId])] + edges[1..]
    else
      var t := AppendEdge(edges[1..], other, dreamId);
      assert Neighbours([edges[0]] + t) == [edges[0].neighbour] + Neighbours(t);
      [edges[0]] + t
  }

  /** Appending keeps the neighbour keys duplicate-free. */
  lemma AppendEdgeDistinct(edges: seq<Edge>, other: QualityId, dreamId: DreamId)
    ensures Distinct(Neighbours(edges)) ==> Distinct(Neighbours(AppendEdge(edges, other, dreamId)))
  {
    DistinctSnoc(Neighbours(edges), other);
  }

  /** `add_edge(other, dreamId)` for every `other` in turn. */
  function AppendEdges(edges: seq<Edge>, others: seq<QualityId>, dreamId: DreamId): seq<Edge>
    decreases |others|
  {
    if |others| == 0 then edges
    else AppendEdges(AppendEdge(edges, others[0], dreamId), others[1..], dreamId)
  }

  /** Each of a duplicate-free list of neighbours gains the dream id once; nothing else changes. */
  lemma {:induction false} AppendEdgesToward(edges: seq<Edge>, others: seq<QualityId>, dreamId: DreamId, y: QualityId)
    requires Distinct(others)
    ensures DreamsToward(AppendEdges(edges, others, dreamId), y)
         == DreamsToward(edges, y) + (if y in others then [dreamId] else [])
    decreases |others|
  {
    if |others| > 0 {
      var o := others[0];
      var e1 := AppendEdge(edges, o, dreamId);
      assert others == [o] + others[1..];
      DistinctCons(o, others[1..]);
      AppendEdgesToward(e1, others[1..], dreamId, y);
      assert DreamsToward(e1, y) == DreamsToward(edges, y) + (if y == o then [dreamId] else []);
      assert y in others <==> y == o || y in others[1..];
    }
  }

  /** The neighbour keys afterwards are the old ones together with `others`. */
  lemma {:induction false} AppendEdgesKeys(edges: seq<Edge>, others: seq<QualityId>, dreamId: DreamId, y: QualityId)
    ensures y in Neighbours(AppendEdges(edges, others, dreamId)) <==> y in Neighbours(edges) || y in others
    decreases |others|
  {
    if |others| > 0 {
      var o := others[0];
      var e1 := AppendEdge(edges, o, dreamId);
      assert others == [o] + others[1..];
      AppendEdgesKeys(e1, others[1..], dreamId, y);
      assert y in Neighbours(e1) <==> y in Neighbours(edges) || y == o;
    }
  }

  /** The neighbour keys stay duplicate-free. */
  lemma {:induction false} AppendEdgesDistinct(edges: seq<Edge>, others: seq<QualityId>, dreamId: DreamId)
    requires Distinct(Neighbours(edges))
    ensures Distinct(Neighbours(AppendEdges(edges, others, dreamId)))
    decreases |others|
  {
    if |others| > 0 {
      AppendEdgeDistinct(edges, others[0], dreamId);
      AppendEdgesDistinct(AppendEdge(edges, others[0], dreamId), others[1..], dreamId);
    }
  }

  function NodeAddEdge(n: GraphNode, other: QualityId, dreamId: DreamId): GraphNode {
    n.(edges := AppendEdge(n.edges, other, dreamId))
  }

  /** The keys of the `nodes` dict, in insertion order. */
  function Ids(nodes: seq<GraphNode>): (r: seq<QualityId>)
    ensures |r| == |nodes|
    ensures forall i :: 0 <= i < |nodes| ==> r[i] == nodes[i].id
  {
    if |nodes| == 0 then [] else [nodes[0].id] + Ids(nodes[1..])
  }

  /** A dict has no duplicate keys. */
  ghost predicate ValidGraph(g: Graph) {
    Distinct(Ids(g.nodes))
  }

  /** `self.nodes.get(x)`. */
  function FindNode(nodes: seq<GraphNode>, x: QualityId): (r: Option<GraphNode>)
    ensures r.Some? <==> x in Ids(nodes)
    ensures r.Some? ==> r.value.id == x && r.value in nodes
  {
    if |nodes| == 0 then None
    else if nodes[0].id == x then Some(nodes[0])
    else
      assert Ids(nodes) == [nodes[0].id] + Ids(nodes[1..]);
      FindNode(nodes[1..], x)
  }

  lemma {:induction false} FindNodeSnoc(nodes: seq<GraphNode>, n: GraphNode, x: QualityId)
    ensures FindNode(nodes + [n], x) == if x in Ids(nodes) then FindNode(nodes, x) else if n.id == x then Some(n) else None
  {
    if |nodes| > 0 {
      assert (nodes + [n])[1..] == nodes[1..] + [n];
      assert Ids(nodes) == [nodes[0].id] + Ids(nodes[1..]);
      FindNodeSnoc(nodes[1..], n, x);
    }
  }

  /** `QualityGraph.add_node`: a no-op when the id is already a node, so the first name and frequency stay. */
  function AddNode(g: Graph, id: QualityId, name: string, frequency: nat): (r: Graph)
    ensures FindNode(r.nodes, id) == if id in Ids(g.nodes) then FindNode(g.nodes, id) else Some(GraphNode(id, name, frequency, []))
    ensures forall x :: x != id ==> FindNode(r.nodes, x) == FindNode(g.nodes, x)
    ensures id in Ids(g.nodes) ==> r == g
    ensures ValidGraph(g) ==> ValidGraph(r)
  {
    if id in Ids(g.nodes) then g
    else
      var n := GraphNode(id, name, frequency, []);
      assert Ids(g.nodes + [n]) == Ids(g.nodes) + [id];
      DistinctSnoc(Ids(g.nodes), id);
      FindNodeSnoc(g.nodes, n, id);
      assert forall x :: FindNode(g.nodes + [n], x) == if x in Ids(g.nodes) then FindNode(g.nodes, x) else if n.id == x then Some(n) else None by {
        forall x
          ensures FindNode(g.nodes + [n], x) == if x in Ids(g.nodes) then FindNode(g.nodes, x) else if n.id == x then Some(n) else None
        {
          FindNodeSnoc(g.nodes, n, x);
        }
      }
      Graph(g.nodes + [n])
  }

  /** `self.nodes[x].add_edge(other, dreamId)` when `x` is a node. */
  function UpdateNode(nodes: seq<GraphNode>, x: QualityId, other: QualityId, dreamId: DreamId): (r: seq<GraphNode>)
    ensures |r| == |nodes|
    ensures forall i :: 0 <= i < |r| ==> r[i] == if nodes[i].id == x then NodeAddEdge(nodes[i], other, dreamId) else nodes[i]
  {
    seq(|nodes|, i requires 0 <= i < |nodes| =>
      if nodes[i].id == x then NodeAddEdge(nodes[i], other, dreamId) else nodes[i])
  }

  /**
   * `QualityGraph.add_edge(q1, q2, dreamId)`: the dream id goes on q1's list
   * toward q2 and on q2's list toward q1, each only when that endpoint is a node.
   */
  function AddEdge(g: Graph, q1: QualityId, q2: QualityId, dreamId: DreamId): (r: Graph)
    ensures |r.nodes| == |g.nodes|
    ensures q1 != q2 ==> forall i :: 0 <= i < |g.nodes| ==>
      r.nodes[i] == if g.nodes[i].id == q1 then NodeAddEdge(g.nodes[i], q2, dreamId)
                    else if g.nodes[i].id == q2 then NodeAddEdge(g.nodes[i], q1, dreamId)
                    else g.nodes[i]
    ensures Ids(r.nodes) == Ids(g.nodes)
  {
    var r := Graph(UpdateNode(UpdateNode(g.nodes, q1, q2, dreamId), q2, q1, dreamId));
    assert forall i :: 0 <= i < |g.nodes| ==> r.nodes[i].id == g.nodes[i].id;
    r
  }

  /**
   * What `add_edge` records: the dream id joins q1's list toward q2 and
   * q2's list toward q1; every other list stays as it was.
   */
  lemma AddEdgeToward(g: Graph, q1: QualityId, q2: QualityId, dreamId: DreamId, i: nat, y: QualityId)
    requires i < |g.nodes|
    ensures DreamsToward(AddEdge(g, q1, q2, dreamId).nodes[i].edges, y)
        == DreamsToward(g.nodes[i].edges, y)
         + (if g.nodes[i].id == q1 && y == q2 then [dreamId] else [])
         + (if g.nodes[i].id == q2 && y == q1 then [dreamId] else [])
  {
    var n := g.nodes[i];
    var n1 := if n.id == q1 then NodeAddEdge(n, q2, dreamId) else n;
    assert UpdateNode(g.nodes, q1, q2, dreamId)[i] == n1;
    assert AddEdge(g, q1, q2, dreamId).nodes[i] == if n1.id == q2 then NodeAddEdge(n1, q1, dreamId) else n1;
  }

  // ---------------------------------------------------------------------------
  // Building the graph (`Dream.build_quality_graph`)
  // ---------------------------------------------------------------------------

  /** `s` with every occurrence of `x` removed is exactly the other elements. */
  lemma WithoutMember<T>(s: seq<T>, x: T, y: T)
    ensures y in Without(s, x) <==> y in s && y != x
  {
    var r := Without(s, x);
    if y in r {
      var i :| 0 <= i < |r| && r[i] == y;
    }
    if y in s && y != x {
      var i :| 0 <= i < |s| && s[i] == y;
    }
  }

  /** The pairs `(q, q2)` for `q2` in `rest`, in order: one pass of the inner loop. */
  function Star(q: QualityId, rest: seq<QualityId>): (r: seq<(QualityId, QualityId)>)
    ensures |r| == |rest|
    ensures forall j :: 0 <= j < |rest| ==> r[j] == (q, rest[j])
  {
    seq(|rest|, j requires 0 <= j < |rest| => (q, rest[j]))
  }

  /** The pairs `(q1, q2)` with `q1` before `q2`, in the order of the nested loop. */
  function Pairs(qs: seq<QualityId>): seq<(QualityId, QualityId)> {
    if |qs| == 0 then [] else Star(qs[0], qs[1..]) + Pairs(qs[1..])
  }

  /** `graph.add_edge(q1, q2, dreamId)` for each pair in turn. */
  function AddEdgeList(g: Graph, pairs: seq<(QualityId, QualityId)>, dreamId: DreamId): Graph
    decreases |pairs|
  {
    if |pairs| == 0 then g
    else AddEdgeList(AddEdge(g, pairs[0].0, pairs[0].1, dreamId), pairs[1..], dreamId)
  }

  lemma {:induction false} AddEdgeListAppend(g: Graph, a: seq<(QualityId, QualityId)>, b: seq<(QualityId, QualityId)>, dreamId: DreamId)
    ensures AddEdgeList(g, a + b, dreamId) == AddEdgeList(AddEdgeList(g, a, dreamId), b, dreamId)
    decreases |a|
  {
    if |a| == 0 {
      assert a + b == b;
    } else {
      assert (a + b)[0] == a[0];
      assert (a + b)[1..] == a[1..] + b;
      AddEdgeListAppend(AddEdge(g, a[0].0, a[0].1, dreamId), a[1..], b, dreamId);
    }
  }

  /** The body of the dream loop for one dream: every pair, only when it has two or more qualities. */
  function AddDream(g: Graph, dream: DreamEntry): Graph {
    if |dream.qualities| >= 2 then AddEdgeList(g, Pairs(dream.qualities), dream.id) else g
  }

  /** The dream loop: the dreams in query order. */
  function AddDreams(g: Graph, dreams: seq<DreamEntry>): Graph
    decreases |dreams|
  {
    if |dreams| == 0 then g else AddDreams(AddDream(g, dreams[0]), dreams[1..])
  }

  /** The primary keys of a list of quality rows: the row-side counterpart of `Ids`, before any node exists. */
  function QualityIds(quals: seq<Quality>): (r: seq<QualityId>)
    ensures |r| == |quals|
    ensures forall i :: 0 <= i < |quals| ==> r[i] == quals[i].id
  {
    if |quals| == 0 then [] else [quals[0].id] + QualityIds(quals[1..])
  }

  /** The node loop: `add_node` for every quality row in turn. */
  function AddNodes(g: Graph, quals: seq<Quality>): Graph
    decreases |quals|
  {
    if |quals| == 0 then g
    else AddNodes(AddNode(g, quals[0].id, quals[0].name, quals[0].frequency), quals[1..])
  }

  /** The node a quality row becomes, before any edge. */
  function Seed(q: Quality): GraphNode {
    GraphNode(q.id, q.name, q.frequency, [])
  }

  /** `Dream.build_quality_graph`: the user's quality rows, then the user's dreams. */
  function BuildQualityGraph(quals: seq<Quality>, dreams: seq<DreamEntry>): Graph {
    AddDreams(AddNodes(Graph([]), quals), dreams)
  }

  /** A dream's qualities come from a many-to-many relation: no quality twice. */
  ghost predicate WellFormedDreams(dreams: seq<DreamEntry>) {
    forall k :: 0 <= k < |dreams| ==> Distinct(dreams[k].qualities)
  }

  /**
   * What one dream does to the edge dict of quality `x`: when the dream
   * carries `x`, every other quality of the dream is added toward, in the
   * dream's order. This is also the inner loop of `Quality.get_connections`.
   */
  function DreamStep(edges: seq<Edge>, x: QualityId, dream: DreamEntry): seq<Edge> {
    if x in dream.qualities then AppendEdges(edges, Without(dream.qualities, x), dream.id) else edges
  }

  /** `DreamStep` over a list of dreams, in order. */
  function CollectEdges(edges: seq<Edge>, x: QualityId, dreams: seq<DreamEntry>): seq<Edge>
    decreases |dreams|
  {
    if |dreams| == 0 then edges else CollectEdges(DreamStep(edges, x, dreams[0]), x, dreams[1..])
  }

  /** What one pass of the inner loop does to the edges of a node with id `x`. */
  function StarEdges(edges: seq<Edge>, x: QualityId, q: QualityId, rest: seq<QualityId>, dreamId: DreamId): seq<Edge> {
    if x == q then AppendEdges(edges, rest, dreamId)
    else if x in rest then AppendEdge(edges, q, dreamId)
    else edges
  }

  /** One pass of the inner loop: `q` gains every quality of `rest`, each of those gains `q`. */
  lemma {:induction false} AddStarEffect(g: Graph, q: QualityId, rest: seq<QualityId>, dreamId: DreamId)
    requires q !in rest && Distinct(rest)
    ensures var r := AddEdgeList(g, Star(q, rest), dreamId);
      |r.nodes| == |g.nodes| &&
      forall i :: 0 <= i < |g.nodes| ==>
        r.nodes[i] == g.nodes[i].(edges := StarEdges(g.nodes[i].edges, g.nodes[i].id, q, rest, dreamId))
    decreases |rest|
  {
    if |rest| > 0 {
      var st := Star(q, rest);
      var g1 := AddEdge(g, q, rest[0], dreamId);
      StarUnfold(q, rest);
      DistinctTail(rest);
      AddStarEffect(g1, q, rest[1..], dreamId);
      var r := AddEdgeList(g, st, dreamId);
      assert r == AddEdgeList(g1, Star(q, rest[1..]), dreamId);
      forall i | 0 <= i < |g.nodes|
        ensures r.nodes[i] == g.nodes[i].(edges := StarEdges(g.nodes[i].edges, g.nodes[i].id, q, rest, dreamId))
      {
        StarEdgesStep(g.nodes[i], g1.nodes[i], r.nodes[i], q, rest, dreamId);
      }
    } else {
      assert AddEdgeList(g, Star(q, rest), dreamId) == g;
      forall i | 0 <= i < |g.nodes|
        ensures g.nodes[i] == g.nodes[i].(edges := StarEdges(g.nodes[i].edges, g.nodes[i].id, q, rest, dreamId))
      {
      }
    }
  }

  lemma StarUnfold(q: QualityId, rest: seq<QualityId>)
    requires |rest| > 0
    ensures Star(q, rest) == [(q, rest[0])] + Star(q, rest[1..])
  {
  }

  /** The first edge of a pass, then the rest of the pass, is the whole pass, node by node. */
  lemma StarEdgesStep(node: GraphNode, n1: GraphNode, n2: GraphNode, q: QualityId, rest: seq<QualityId>, dreamId: DreamId)
    requires |rest| > 0 && q !in rest && rest[0] !in rest[1..]
    requires n1 == if node.id == q then NodeAddEdge(node, rest[0], dreamId)
      else if node.id == rest[0] then NodeAddEdge(node, q, dreamId)
      else node
    requires n2 == n1.(edges := StarEdges(n1.edges, n1.id, q, rest[1..], dreamId))
    ensures n2 == node.(edges := StarEdges(node.edges, node.id, q, rest, dreamId))
  {
    assert rest == [rest[0]] + rest[1..];
  }

  /** The nested loop over a dream's duplicate-free qualities does `DreamStep` to every node. */
  lemma {:induction false} AddPairsEffect(g: Graph, qs: seq<QualityId>, dreamId: DreamId)
    requires Distinct(qs)
    ensures var r := AddEdgeList(g, Pairs(qs), dreamId);
      |r.nodes| == |g.nodes| &&
      forall i :: 0 <= i < |g.nodes| ==>
        r.nodes[i] == g.nodes[i].(edges := DreamStep(g.nodes[i].edges, g.nodes[i].id, DreamEntry(dreamId, qs)))
    decreases |qs|
  {
    var r := AddEdgeList(g, Pairs(qs), dreamId);
    if |qs| > 0 {
      var q := qs[0];
      assert qs == [q] + qs[1..];
      DistinctCons(q, qs[1..]);
      var g1 := AddEdgeList(g, Star(q, qs[1..]), dreamId);
      AddEdgeListAppend(g, Star(q, qs[1..]), Pairs(qs[1..]), dreamId);
      AddStarEffect(g, q, qs[1..], dreamId);
      AddPairsEffect(g1, qs[1..], dreamId);
      assert r == AddEdgeList(g1, Pairs(qs[1..]), dreamId);
      forall i | 0 <= i < |g.nodes|
        ensures r.nodes[i] == g.nodes[i].(edges := DreamStep(g.nodes[i].edges, g.nodes[i].id, DreamEntry(dreamId, qs)))
      {
        var x := g.nodes[i].id;
        var e := g.nodes[i].edges;
        assert g1.nodes[i].id == x;
        if x == q {
          assert Without(qs, x) == Without(qs[1..], x);
        } else if x in qs[1..] {
          var w := Without(qs[1..], x);
          assert Without(qs, x) == [q] + w;
          assert ([q] + w)[1..] == w;
          assert AppendEdges(e, [q] + w, dreamId) == AppendEdges(AppendEdge(e, q, dreamId), w, dreamId);
        }
      }
    } else {
      forall i | 0 <= i < |g.nodes|
        ensures r.nodes[i] == g.nodes[i].(edges := DreamStep(g.nodes[i].edges, g.nodes[i].id, DreamEntry(dreamId, qs)))
      {
      }
    }
  }

  /** A dream with at most one quality has no other quality to pair with. */
  lemma WithoutShort(qs: seq<QualityId>, x: QualityId)
    requires |qs| < 2
    ensures Without(qs, x) == [] || (x !in qs && Without(qs, x) == qs)
  {
  }

  /** One dream of the loop does `DreamStep` to every node, whether or not it passes the two-quality guard. */
  lemma AddDreamEffect(g: Graph, dream: DreamEntry)
    requires Distinct(dream.qualities)
    ensures var r := AddDream(g, dream);
      |r.nodes| == |g.nodes| &&
      forall i :: 0 <= i < |g.nodes| ==>
        r.nodes[i] == g.nodes[i].(edges := DreamStep(g.nodes[i].edges, g.nodes[i].id, dream))
  {
    if |dream.qualities| >= 2 {
      AddPairsEffect(g, dream.qualities, dream.id);
    } else {
      forall i | 0 <= i < |g.nodes|
        ensures g.nodes[i] == g.nodes[i].(edges := DreamStep(g.nodes[i].edges, g.nodes[i].id, dream))
      {
        WithoutShort(dream.qualities, g.nodes[i].id);
      }
    }
  }

  /** The dream loop gives every node the edges `CollectEdges` accumulates for its id. */
  lemma {:induction false} AddDreamsEffect(g: Graph, dreams: seq<DreamEntry>)
    requires WellFormedDreams(dreams)
    ensures var r := AddDreams(g, dreams);
      |r.nodes| == |g.nodes| &&
      forall i :: 0 <= i < |g.nodes| ==>
        r.nodes[i] == g.nodes[i].(edges := CollectEdges(g.nodes[i].edges, g.nodes[i].id, dreams))
    decreases |dreams|
  {
    if |dreams| > 0 {
      var g1 := AddDream(g, dreams[0]);
      AddDreamEffect(g, dreams[0]);
      assert WellFormedDreams(dreams[1..]) by {
        forall k | 0 <= k < |dreams[1..]|
          ensures Distinct(dreams[1..][k].qualities)
        {
          assert dreams[1..][k] == dreams[k + 1];
        }
      }
      AddDreamsEffect(g1, dreams[1..]);
      forall i | 0 <= i < |g.nodes|
        ensures AddDreams(g, dreams).nodes[i] == g.nodes[i].(edges := CollectEdges(g.nodes[i].edges, g.nodes[i].id, dreams))
      {
        assert g1.nodes[i].id == g.nodes[i].id;
      }
    }
  }

  /** The nodes a list of quality rows becomes, before any edge. */
  function Seeds(quals: seq<Quality>): (r: seq<GraphNode>)
    ensures |r| == |quals|
    ensures forall i :: 0 <= i < |quals| ==> r[i] == Seed(quals[i])
  {
    if |quals| == 0 then [] else [Seed(quals[0])] + Seeds(quals[1..])
  }

  lemma SeedsSnoc(done: seq<Quality>, q: Quality)
    ensures Seeds(done + [q]) == Seeds(done) + [Seed(q)]
  {
    var a, b := Seeds(done + [q]), Seeds(done) + [Seed(q)];
    forall i | 0 <= i < |a|
      ensures a[i] == b[i]
    {
      if i < |done| {
        assert (done + [q])[i] == done[i];
      } else {
        assert (done + [q])[i] == q;
      }
    }
  }

  /**
   * The node loop over rows with distinct keys seeds one node per row, in row
   * order: stated for the loop resumed after the rows `done`.
   */
  lemma {:induction false} AddNodesEffect(done: seq<Quality>, todo: seq<Quality>)
    requires Distinct(QualityIds(done + todo))
    ensures AddNodes(Graph(Seeds(done)), todo) == Graph(Seeds(done + todo))
    decreases |todo|
  {
    if |todo| == 0 {
      assert done + todo == done;
    } else {
      var q := todo[0];
      var all := QualityIds(done + todo);
      assert Ids(Seeds(done)) == QualityIds(done);
      assert q.id !in QualityIds(done) by {
        assert all[|done|] == q.id;
        forall k | 0 <= k < |done|
          ensures QualityIds(done)[k] != q.id
        {
          assert all[k] == done[k].id;
        }
      }
      var g0 := Graph(Seeds(done));
      var g1 := AddNode(g0, q.id, q.name, q.frequency);
      assert g1 == Graph(Seeds(done) + [Seed(q)]);
      SeedsSnoc(done, q);
      assert g1 == Graph(Seeds(done + [q]));
      ShiftHead(done, todo);
      AddNodesEffect(done + [q], todo[1..]);
      assert AddNodes(g0, todo) == AddNodes(g1, todo[1..]);
    }
  }

  /**
   * The graph of a user whose quality rows have distinct keys and whose dreams
   * carry each quality at most once: one node per quality row, in row order,
   * with its stored name and frequency (also when no dream carries it), and the
   * edges `Quality.get_connections` accumulates for that quality.
   */
  lemma BuildQualityGraphNodes(quals: seq<Quality>, dreams: seq<DreamEntry>)
    requires Distinct(QualityIds(quals))
    requires WellFormedDreams(dreams)
    ensures var g := BuildQualityGraph(quals, dreams);
      |g.nodes| == |quals| &&
      forall i :: 0 <= i < |quals| ==>
        g.nodes[i] == GraphNode(quals[i].id, quals[i].name, quals[i].frequency, CollectEdges([], quals[i].id, dreams))
  {
    assert [] + quals == quals;
    assert Seeds([]) == [];
    AddNodesEffect([], quals);
    AddDreamsEffect(AddNodes(Graph([]), quals), dreams);
  }

  // ---------------------------------------------------------------------------
  // The edges as shared dreams
  // ---------------------------------------------------------------------------

  /** The ids of the dreams, in order, that carry both `x` and `y`. */
  function SharedDreams(dreams: seq<DreamEntry>, x: QualityId, y: QualityId): seq<DreamId> {
    if |dreams| == 0 then []
    else
      (if x in dreams[0].qualities && y in dreams[0].qualities then [dreams[0].id] else [])
      + SharedDreams(dreams[1..], x, y)
  }

  /** A dream carrying both qualities is among the dreams they share. */
  lemma {:induction false} SharedDreamsWitness(dreams: seq<DreamEntry>, k: nat, x: QualityId, y: QualityId)
    requires k < |dreams| && x in dreams[k].qualities && y in dreams[k].qualities
    ensures dreams[k].id in SharedDreams(dreams, x, y)
    decreases k
  {
    if k > 0 {
      SharedDreamsWitness(dreams[1..], k - 1, x, y);
    }
  }

  lemma {:induction false} SharedDreamsSymmetric(dreams: seq<DreamEntry>, x: QualityId, y: QualityId)
    ensures SharedDreams(dreams, x, y) == SharedDreams(dreams, y, x)
    decreases |dreams|
  {
    if |dreams| > 0 {
      SharedDreamsSymmetric(dreams[1..], x, y);
    }
  }

  lemma WellFormedTail(dreams: seq<DreamEntry>)
    requires |dreams| > 0 && WellFormedDreams(dreams)
    ensures Distinct(dreams[0].qualities) && WellFormedDreams(dreams[1..])
  {
    forall k | 0 <= k < |dreams| - 1
      ensures Distinct(dreams[1..][k].qualities)
    {
      assert dreams[1..][k] == dreams[k + 1];
    }
  }

  /** One dream adds its id toward `y` on the edges of `x` exactly when it carries both and they differ. */
  lemma DreamStepToward(edges: seq<Edge>, x: QualityId, d: DreamEntry, y: QualityId)
    requires Distinct(d.qualities)
    ensures DreamsToward(DreamStep(edges, x, d), y)
         == DreamsToward(edges, y) + (if y != x && x in d.qualities && y in d.qualities then [d.id] else [])
  {
    WithoutMember(d.qualities, x, y);
    if x in d.qualities {
      AppendEdgesToward(edges, Without(d.qualities, x), d.id, y);
    }
  }

  /**
   * The edges accumulated for `x` toward any other quality `y` are the dreams
   * carrying both, in dream order; `x` never becomes its own neighbour.
   */
  lemma {:induction false} CollectEdgesToward(edges: seq<Edge>, x: QualityId, dreams: seq<DreamEntry>, y: QualityId)
    requires WellFormedDreams(dreams)
    ensures DreamsToward(CollectEdges(edges, x, dreams), y)
         == DreamsToward(edges, y) + (if y == x then [] else SharedDreams(dreams, x, y))
    decreases |dreams|
  {
    if |dreams| > 0 {
      var d := dreams[0];
      WellFormedTail(dreams);
      var e1 := DreamStep(edges, x, d);
      CollectEdgesToward(e1, x, dreams[1..], y);
      DreamStepToward(edges, x, d, y);
      var h := if x in d.qualities && y in d.qualities then [d.id] else [];
      assert SharedDreams(dreams, x, y) == h + SharedDreams(dreams[1..], x, y);
      var a, r := DreamsToward(edges, y), DreamsToward(CollectEdges(edges, x, dreams), y);
      assert r == DreamsToward(CollectEdges(e1, x, dreams[1..]), y);
      if y == x {
        assert r == a + [];
      } else {
        assert r == (a + h) + SharedDreams(dreams[1..], x, y);
        AppendAssoc(a, h, SharedDreams(dreams[1..], x, y));
      }
    }
  }

  /** The neighbours accumulated for `x` are the old ones and every other quality sharing a dream with `x`. */
  lemma {:induction false} CollectEdgesKeys(edges: seq<Edge>, x: QualityId, dreams: seq<DreamEntry>, y: QualityId)
    ensures y in Neighbours(CollectEdges(edges, x, dreams))
        <==> y in Neighbours(edges) || (y != x && SharedDreams(dreams, x, y) != [])
    decreases |dreams|
  {
    if |dreams| > 0 {
      var d := dreams[0];
      var e1 := DreamStep(edges, x, d);
      CollectEdgesKeys(e1, x, dreams[1..], y);
      WithoutMember(d.qualities, x, y);
      if x in d.qualities {
        AppendEdgesKeys(edges, Without(d.qualities, x), d.id, y);
      }
      var h := if x in d.qualities && y in d.qualities then [d.id] else [];
      assert SharedDreams(dreams, x, y) == h + SharedDreams(dreams[1..], x, y);
    }
  }

  /** Accumulating keeps the neighbour keys duplicate-free. */
  lemma {:induction false} CollectEdgesDistinct(edges: seq<Edge>, x: QualityId, dreams: seq<DreamEntry>)
    requires Distinct(Neighbours(edges))
    ensures Distinct(Neighbours(CollectEdges(edges, x, dreams)))
    decreases |dreams|
  {
    if |dreams| > 0 {
      var d := dreams[0];
      if x in d.qualities {
        AppendEdgesDistinct(edges, Without(d.qualities, x), d.id);
      }
      CollectEdgesDistinct(DreamStep(edges, x, d), x, dreams[1..]);
    }
  }

  /**
   * In the built graph, the dream ids stored on node `x` toward `y` are the
   * dreams carrying both; so the edges are symmetric, and the connection
   * strength is the number of shared dreams.
   */
  lemma BuiltGraphEdges(quals: seq<Quality>, dreams: seq<DreamEntry>, i: nat, j: nat)
    requires Distinct(QualityIds(quals))
    requires WellFormedDreams(dreams)
    requires i < |quals| && j < |quals| && i != j
    ensures var g := BuildQualityGraph(quals, dreams);
      |g.nodes| == |quals| &&
      DreamsToward(g.nodes[i].edges, quals[j].id) == SharedDreams(dreams, quals[i].id, quals[j].id) &&
      DreamsToward(g.nodes[i].edges, quals[j].id) == DreamsToward(g.nodes[j].edges, quals[i].id) &&
      ConnectionStrength(g.nodes[i], quals[j].id) == |SharedDreams(dreams, quals[i].id, quals[j].id)|
  {
    var x, y := quals[i].id, quals[j].id;
    assert QualityIds(quals)[i] == x && QualityIds(quals)[j] == y;
    BuildQualityGraphNodes(quals, dreams);
    CollectEdgesToward([], x, dreams, y);
    CollectEdgesToward([], y, dreams, x);
    SharedDreamsSymmetric(dreams, x, y);
  }

  // ---------------------------------------------------------------------------
  // Counting the pairs of the nested loop
  // ---------------------------------------------------------------------------

  /** Every pair of one inner-loop pass starts with that pass's quality. */
  lemma StarFirst(q: QualityId, rest: seq<QualityId>)
    ensures forall p :: p in Star(q, rest) ==> p.0 == q && p.1 in rest
  {
    forall p | p in Star(q, rest)
      ensures p.0 == q && p.1 in rest
    {
      var j :| 0 <= j < |rest| && Star(q, rest)[j] == p;
    }
  }

  lemma {:induction false} PairsMembers(qs: seq<QualityId>)
    requires Distinct(qs)
    ensures forall p :: p in Pairs(qs) ==> p.0 in qs && p.1 in qs && p.0 != p.1
    decreases |qs|
  {
    if |qs| > 0 {
      var q, tail := qs[0], qs[1..];
      DistinctCons(q, tail);
      assert qs == [q] + tail;
      PairsMembers(tail);
      StarFirst(q, tail);
      assert Pairs(qs) == Star(q, tail) + Pairs(tail);
    }
  }

  lemma {:induction false} PairsLength(qs: seq<QualityId>)
    ensures |Pairs(qs)| == |qs| * (|qs| - 1) / 2
    decreases |qs|
  {
    if |qs| > 0 {
      PairsLength(qs[1..]);
      var n := |qs| - 1;
      assert (n + 1) * n == 2 * n + n * (n - 1);
    }
  }

  /** Pair `k` of the nested loop, located in the first pass or in the later ones. */
  lemma PairsAt(qs: seq<QualityId>, k: nat)
    requires 0 < |qs| && k < |Pairs(qs)|
    ensures k < |qs| - 1 ==> Pairs(qs)[k] == (qs[0], qs[k + 1])
    ensures k >= |qs| - 1 ==> Pairs(qs)[k] == Pairs(qs[1..])[k - (|qs| - 1)]
  {
    assert Pairs(qs) == Star(qs[0], qs[1..]) + Pairs(qs[1..]);
  }

  lemma {:induction false} PairsDistinct(qs: seq<QualityId>)
    requires Distinct(qs)
    ensures Distinct(Pairs(qs))
    decreases |qs|
  {
    if |qs| > 0 {
      var q, tail := qs[0], qs[1..];
      var ps := Pairs(tail);
      DistinctCons(q, tail);
      assert qs == [q] + tail;
      PairsDistinct(tail);
      PairsMembers(tail);
      forall a, b | 0 <= a < b < |Pairs(qs)|
        ensures Pairs(qs)[a] != Pairs(qs)[b]
      {
        PairsAt(qs, a);
        PairsAt(qs, b);
        if b >= |tail| && a < |tail| {
          assert ps[b - |tail|].0 in tail;
        }
      }
    }
  }

  lemma {:induction false} PairsCover(qs: seq<QualityId>, i: nat, j: nat)
    requires i < j < |qs|
    ensures (qs[i], qs[j]) in Pairs(qs)
    decreases |qs|
  {
    var tail := qs[1..];
    PairsUnfold(qs);
    if i == 0 {
      assert Star(qs[0], tail)[j - 1] == (qs[0], qs[j]);
    } else {
      assert tail[i - 1] == qs[i] && tail[j - 1] == qs[j];
      PairsCover(tail, i - 1, j - 1);
    }
  }

  /** Where `x` first occurs in `qs`. */
  function Position(qs: seq<QualityId>, x: QualityId): (k: nat)
    requires x in qs
    ensures k < |qs| && qs[k] == x
  {
    if qs[0] == x then 0 else Position(qs[1..], x) + 1
  }

  lemma PositionTail(qs: seq<QualityId>, x: QualityId)
    requires |qs| > 0 && x in qs[1..] && x != qs[0]
    ensures Position(qs, x) == Position(qs[1..], x) + 1
  {
  }

  /** Every pair of the nested loop goes from an earlier quality to a later one. */
  lemma {:induction false} PairsForward(qs: seq<QualityId>)
    requires Distinct(qs)
    ensures forall p :: p in Pairs(qs) ==> p.0 in qs && p.1 in qs && Position(qs, p.0) < Position(qs, p.1)
    decreases |qs|
  {
    if |qs| > 0 {
      var q, tail := qs[0], qs[1..];
      DistinctCons(q, tail);
      assert qs == [q] + tail;
      PairsForward(tail);
      StarFirst(q, tail);
      PairsUnfold(qs);
      forall p | p in Pairs(qs)
        ensures p.0 in qs && p.1 in qs && Position(qs, p.0) < Position(qs, p.1)
      {
        if p in Star(q, tail) {
          PositionTail(qs, p.1);
        } else {
          PositionTail(qs, p.0);
          PositionTail(qs, p.1);
        }
      }
    }
  }

  lemma {:induction false} PairsOneWay(qs: seq<QualityId>, i: nat, j: nat)
    requires Distinct(qs)
    requires i < j < |qs|
    ensures (qs[j], qs[i]) !in Pairs(qs)
  {
    PairsForward(qs);
    assert Position(qs, qs[i]) == i;
    assert Position(qs, qs[j]) == j;
  }

  lemma PairsUnfold(qs: seq<QualityId>)
    requires |qs| > 0
    ensures Pairs(qs) == Star(qs[0], qs[1..]) + Pairs(qs[1..])
  {
  }

  /**
   * A dream with `n` distinct qualities yields `n * (n - 1) / 2` pairs, no pair
   * twice, every quality paired with every later one, and no pair also
   * reversed: each unordered pair exactly once.
   */
  lemma PairsCount(qs: seq<QualityId>)
    requires Distinct(qs)
    ensures |Pairs(qs)| == |qs| * (|qs| - 1) / 2
    ensures Distinct(Pairs(qs))
    ensures forall i, j :: 0 <= i < j < |qs| ==> (qs[i], qs[j]) in Pairs(qs) && (qs[j], qs[i]) !in Pairs(qs)
  {
    PairsLength(qs);
    PairsDistinct(qs);
    forall i, j | 0 <= i < j < |qs|
      ensures (qs[i], qs[j]) in Pairs(qs) && (qs[j], qs[i]) !in Pairs(qs)
    {
      PairsCover(qs, i, j);
      PairsOneWay(qs, i, j);
    }
  }
}
