/**
 * What the application reads off the quality graph (backend/dreams/models.py):
 * the per-node statistics of `QualityGraph.get_statistics` and the ranked
 * neighbour list of `Quality.get_connections`.
 *
 * Both look neighbour names up by primary key; the lookup is a parameter
 * (`NameLookup`): the graph's own nodes for the statistics, the quality table
 * for `get_connections`, where an unknown key is skipped.
 */
module QualityStatistics {
  import opened Options
  import opened Seqs
  import opened Sorting
  import opened QualityGraph

  /** A lookup of a quality's name by primary key; `None` when there is no such row. */
  type NameLookup = QualityId -> Option<string>

  /** `self.nodes[other_id].quality_name`, when `other_id in self.nodes`. */
  function NodeNames(nodes: seq<GraphNode>): NameLookup {
    x => match FindNode(nodes, x)
         case Some(n) => Some(n.name)
         case None => None
  }

  /** The quality ids of a list of connections, in order. */
  function ConnectionIds(cs: seq<Connection>): (r: seq<QualityId>)
    ensures |r| == |cs|
    ensures forall k :: 0 <= k < |cs| ==> r[k] == cs[k].qualityId
  {
    if |cs| == 0 then [] else [cs[0].qualityId] + ConnectionIds(cs[1..])
  }

  /**
   * The connection loop: one `QualityConnection` per entry of the edge dict,
   * in insertion order, skipping neighbours whose name cannot be looked up.
   */
  function ConnectionsFrom(edges: seq<Edge>, names: NameLookup): (r: seq<Connection>)
    ensures |r| <= |edges|
    ensures forall k :: 0 <= k < |r| ==>
      r[k].strength == |r[k].sharedDreamIds| &&
      r[k].qualityId in Neighbours(edges) &&
      names(r[k].qualityId) == Some(r[k].qualityName)
  {
    if |edges| == 0 then []
    else
      var e := edges[0];
      var rest := ConnectionsFrom(edges[1..], names);
      assert Neighbours(edges) == [e.neighbour] + Neighbours(edges[1..]);
      match names(e.neighbour)
      case Some(name) => [NewConnection(e.neighbour, name, e.dreamIds, |e.dreamIds|)] + rest
      case None => rest
  }

  /**
   * With duplicate-free neighbour keys, the connections are exactly the
   * neighbours that have a name, once each, carrying the dream ids stored toward them.
   */
  lemma {:induction false} ConnectionsFromEdges(edges: seq<Edge>, names: NameLookup)
    requires Distinct(Neighbours(edges))
    ensures var r := ConnectionsFrom(edges, names);
      DistinctBy(r, ConnectionQuality) &&
      (forall k :: 0 <= k < |r| ==> r[k].sharedDreamIds == DreamsToward(edges, r[k].qualityId)) &&
      (forall y :: y in Neighbours(edges) && names(y).Some? ==> y in ConnectionIds(r))
    decreases |edges|
  {
    if |edges| > 0 {
      var e := edges[0];
      var tail := edges[1..];
      assert Neighbours(edges) == [e.neighbour] + Neighbours(tail);
      DistinctCons(e.neighbour, Neighbours(tail));
      ConnectionsFromEdges(tail, names);
      var rest := ConnectionsFrom(tail, names);
      var r := ConnectionsFrom(edges, names);
      forall k | 0 <= k < |rest|
        ensures rest[k].qualityId != e.neighbour
        ensures DreamsToward(edges, rest[k].qualityId) == DreamsToward(tail, rest[k].qualityId)
      {
      }
      if names(e.neighbour).Some? {
        var c := NewConnection(e.neighbour, names(e.neighbour).value, e.dreamIds, |e.dreamIds|);
        assert r == [c] + rest;
        assert ConnectionIds(r) == [c.qualityId] + ConnectionIds(rest);
        DistinctByCons(c, rest, ConnectionQuality);
        forall k | 0 <= k < |r|
          ensures r[k].sharedDreamIds == DreamsToward(edges, r[k].qualityId)
        {
          if k > 0 {
            assert r[k] == rest[k - 1];
          }
        }
      } else {
        assert r == rest;
      }
    }
  }

  /** The source's `QualityStatistic`. */
  datatype Statistic = Statistic(
    id: QualityId,
    name: string,
    frequency: nat,
    totalConnections: nat,
    topConnections: seq<Connection>,
    allDreamIds: seq<DreamId>)

  function Frequency(s: Statistic): int {
    s.frequency
  }

  function StatisticId(s: Statistic): int {
    s.id
  }

  /**
   * The statistic of one node: the neighbour count over the whole edge dict,
   * and the `TopConnectionLimit` strongest connections, ties in insertion order.
   */
  function NodeStatistic(node: GraphNode, names: NameLookup): (st: Statistic)
    ensures st.id == node.id && st.name == node.name && st.frequency == node.frequency
    ensures st.totalConnections == |node.edges|
    ensures st.allDreamIds == []
    ensures |st.topConnections| <= TopConnectionLimit
    ensures SortedDesc(st.topConnections, Strength)
    ensures multiset(st.topConnections) <= multiset(ConnectionsFrom(node.edges, names))
  {
    Statistic(node.id, node.name, node.frequency, |node.edges|,
      TopK(ConnectionsFrom(node.edges, names), Strength, TopConnectionLimit), [])
  }

  /** The statistics loop over the nodes, in insertion order. */
  function NodeStatistics(nodes: seq<GraphNode>, names: NameLookup): (r: seq<Statistic>)
    ensures |r| == |nodes|
    ensures forall i :: 0 <= i < |nodes| ==> r[i] == NodeStatistic(nodes[i], names)
  {
    seq(|nodes|, i requires 0 <= i < |nodes| => NodeStatistic(nodes[i], names))
  }

  /**
   * `QualityGraph.get_statistics`: one statistic per node, sorted by frequency,
   * descending, nodes of equal frequency in insertion order.
   */
  function GetStatistics(g: Graph): (r: seq<Statistic>)
    ensures |r| == |g.nodes|
    ensures SortedDesc(r, Frequency)
    ensures multiset(r) == multiset(NodeStatistics(g.nodes, NodeNames(g.nodes)))
    ensures forall f :: WithKey(r, Frequency, f) == WithKey(NodeStatistics(g.nodes, NodeNames(g.nodes)), Frequency, f)
  {
    StableSortDesc(NodeStatistics(g.nodes, NodeNames(g.nodes)), Frequency)
  }

  /** The statistics of a graph whose node ids are distinct name distinct qualities. */
  lemma GetStatisticsDistinct(g: Graph)
    requires ValidGraph(g)
    ensures DistinctBy(GetStatistics(g), StatisticId)
  {
    var stats := NodeStatistics(g.nodes, NodeNames(g.nodes));
    forall a, b | 0 <= a < b < |stats|
      ensures stats[a].id != stats[b].id
    {
      assert Ids(g.nodes)[a] == g.nodes[a].id && Ids(g.nodes)[b] == g.nodes[b].id;
    }
    SortDistinctBy(stats, Frequency, StatisticId);
  }

  /** `Dream.get_quality_statistics`: build the user's graph, then read its statistics. */
  function GetQualityStatistics(quals: seq<Quality>, dreams: seq<DreamEntry>): (r: seq<Statistic>)
    ensures SortedDesc(r, Frequency)
  {
    GetStatistics(BuildQualityGraph(quals, dreams))
  }

  /**
   * `Quality.get_connections` for the quality `q`, over the dreams in query
   * order: the neighbours collected from the dreams carrying `q`, sorted by
   * strength, descending, ties in the order they were first met.
   */
  function GetConnections(q: QualityId, dreams: seq<DreamEntry>, names: NameLookup): (r: seq<Connection>)
    ensures SortedDesc(r, Strength)
    ensures forall k :: 0 <= k < |r| ==>
      r[k].strength == |r[k].sharedDreamIds| && names(r[k].qualityId) == Some(r[k].qualityName)
  {
    var cs := ConnectionsFrom(CollectEdges([], q, dreams), names);
    var r := StableSortDesc(cs, Strength);
    forall k | 0 <= k < |r|
      ensures r[k].strength == |r[k].sharedDreamIds| && names(r[k].qualityId) == Some(r[k].qualityName)
    {
      assert r[k] in multiset(cs);
    }
    r
  }

  /** Every quality carried by some dream. */
  function AllTags(dreams: seq<DreamEntry>): (r: set<QualityId>)
    ensures forall k, j :: 0 <= k < |dreams| && 0 <= j < |dreams[k].qualities| ==> dreams[k].qualities[j] in r
  {
    if |dreams| == 0 then {}
    else
      var rest := AllTags(dreams[1..]);
      assert forall k, j :: 1 <= k < |dreams| && 0 <= j < |dreams[k].qualities| ==>
        dreams[1..][k - 1] == dreams[k] && dreams[k].qualities[j] in rest;
      (set q | q in dreams[0].qualities) + rest
  }

  /** The other qualities sharing at least one dream with `x`. */
  ghost function CoOccurring(dreams: seq<DreamEntry>, x: QualityId): set<QualityId> {
    set y | y in AllTags(dreams) && y != x && SharedDreams(dreams, x, y) != []
  }

  lemma {:induction false} SharedDreamsTagged(dreams: seq<DreamEntry>, x: QualityId, y: QualityId)
    ensures SharedDreams(dreams, x, y) != [] ==> y in AllTags(dreams)
    decreases |dreams|
  {
    if |dreams| > 0 {
      SharedDreamsTagged(dreams[1..], x, y);
      if y in dreams[0].qualities {
        var j :| 0 <= j < |dreams[0].qualities| && dreams[0].qualities[j] == y;
      }
      if SharedDreams(dreams[1..], x, y) != [] {
        assert AllTags(dreams[1..]) <= AllTags(dreams);
      }
    }
  }

  /** The edges `x` accumulates: exactly one per quality co-occurring with `x`. */
  lemma {:induction false} CollectedNeighbours(x: QualityId, dreams: seq<DreamEntry>)
    ensures (set y | y in Neighbours(CollectEdges([], x, dreams))) == CoOccurring(dreams, x)
    ensures |CollectEdges([], x, dreams)| == |CoOccurring(dreams, x)|
  {
    var ns := Neighbours(CollectEdges([], x, dreams));
    forall y
      ensures y in ns <==> y in CoOccurring(dreams, x)
    {
      CollectEdgesKeys([], x, dreams, y);
      SharedDreamsTagged(dreams, x, y);
    }
    assert (set y | y in ns) == CoOccurring(dreams, x);
    CollectEdgesDistinct([], x, dreams);
    DistinctCardinality(ns);
  }

  /** The connections built from the edges collected for `q`, before sorting. */
  lemma {:induction false} CollectedConnections(q: QualityId, dreams: seq<DreamEntry>, names: NameLookup)
    requires WellFormedDreams(dreams)
    ensures var cs := ConnectionsFrom(CollectEdges([], q, dreams), names);
      DistinctBy(cs, ConnectionQuality) &&
      (forall m :: 0 <= m < |cs| ==>
        cs[m].qualityId != q && cs[m].sharedDreamIds == SharedDreams(dreams, q, cs[m].qualityId) && cs[m].strength > 0) &&
      (forall y :: y != q && SharedDreams(dreams, q, y) != [] && names(y).Some? ==> y in ConnectionIds(cs))
  {
    var edges := CollectEdges([], q, dreams);
    var cs := ConnectionsFrom(edges, names);
    CollectEdgesDistinct([], q, dreams);
    ConnectionsFromEdges(edges, names);
    forall m | 0 <= m < |cs|
      ensures cs[m].qualityId != q && cs[m].sharedDreamIds == SharedDreams(dreams, q, cs[m].qualityId) && cs[m].strength > 0
    {
      CollectEdgesKeys([], q, dreams, cs[m].qualityId);
      CollectEdgesToward([], q, dreams, cs[m].qualityId);
    }
    forall y | y != q && SharedDreams(dreams, q, y) != [] && names(y).Some?
      ensures y in ConnectionIds(cs)
    {
      CollectEdgesKeys([], q, dreams, y);
    }
  }

  /** Sorting keeps the set of quality ids of a list of connections. */
  lemma {:induction false} SortConnectionIds(cs: seq<Connection>)
    ensures forall y :: y in ConnectionIds(cs) ==> y in ConnectionIds(StableSortDesc(cs, Strength))
  {
    var r := StableSortDesc(cs, Strength);
    SortMembers(cs, Strength);
    forall y | y in ConnectionIds(cs)
      ensures y in ConnectionIds(r)
    {
      var m :| 0 <= m < |cs| && ConnectionIds(cs)[m] == y;
      assert cs[m] in r;
      var k :| 0 <= k < |r| && r[k] == cs[m];
      assert ConnectionIds(r)[k] == y;
    }
  }

  /**
   * `get_connections` leaves the quality itself out and yields exactly one
   * connection per co-occurring quality that has a name, carrying the dreams
   * both share.
   */
  lemma {:induction false} GetConnectionsSpec(q: QualityId, dreams: seq<DreamEntry>, names: NameLookup)
    requires WellFormedDreams(dreams)
    ensures var r := GetConnections(q, dreams, names);
      DistinctBy(r, ConnectionQuality) &&
      (forall k :: 0 <= k < |r| ==>
        r[k].qualityId != q && r[k].sharedDreamIds == SharedDreams(dreams, q, r[k].qualityId) && r[k].strength > 0) &&
      (forall y :: y != q && SharedDreams(dreams, q, y) != [] && names(y).Some? ==> y in ConnectionIds(r))
  {
    var cs := ConnectionsFrom(CollectEdges([], q, dreams), names);
    var r := GetConnections(q, dreams, names);
    assert r == StableSortDesc(cs, Strength);
    CollectedConnections(q, dreams, names);
    SortDistinctBy(cs, Strength, ConnectionQuality);
    SortMembers(cs, Strength);
    SortConnectionIds(cs);
    forall k | 0 <= k < |r|
      ensures r[k].qualityId != q && r[k].sharedDreamIds == SharedDreams(dreams, q, r[k].qualityId) && r[k].strength > 0
    {
      var m :| 0 <= m < |cs| && cs[m] == r[k];
    }
  }

  /** The top of an already sorted list is the top of the list it was sorted from. */
  lemma TopKOfSorted<T>(s: seq<T>, key: T -> int, n: nat)
    ensures TopK(StableSortDesc(s, key), key, n) == TopK(s, key, n)
  {
    StableSortOfSorted(StableSortDesc(s, key), key);
  }

  /** The node names of the built graph are the names of the user's quality rows. */
  lemma {:induction false} BuiltGraphNames(quals: seq<Quality>, dreams: seq<DreamEntry>, j: nat)
    requires Distinct(QualityIds(quals))
    requires WellFormedDreams(dreams)
    requires j < |quals|
    ensures NodeNames(BuildQualityGraph(quals, dreams).nodes)(quals[j].id) == Some(quals[j].name)
  {
    var g := BuildQualityGraph(quals, dreams);
    BuildQualityGraphNodes(quals, dreams);
    assert Ids(g.nodes) == QualityIds(quals);
    var f := FindNode(g.nodes, quals[j].id);
    assert f.value in g.nodes;
    var i :| 0 <= i < |g.nodes| && g.nodes[i] == f.value;
    assert QualityIds(quals)[i] == quals[j].id == QualityIds(quals)[j];
  }

  /**
   * The statistic of the node of quality row `i` agrees with `get_connections`
   * run over the same dreams with the graph's names: the same frequency as
   * stored, one connection per co-occurring quality, and as top connections the
   * first `TopConnectionLimit` of the ranked `get_connections` list.
   */
  lemma {:induction false} StatisticMatchesConnections(quals: seq<Quality>, dreams: seq<DreamEntry>, i: nat)
    requires Distinct(QualityIds(quals))
    requires WellFormedDreams(dreams)
    requires i < |quals|
    ensures var g := BuildQualityGraph(quals, dreams);
      |g.nodes| == |quals| &&
      (var st := NodeStatistic(g.nodes[i], NodeNames(g.nodes));
       st.id == quals[i].id && st.name == quals[i].name && st.frequency == quals[i].frequency &&
       st.totalConnections == |CoOccurring(dreams, quals[i].id)| &&
       st.topConnections == TopK(GetConnections(quals[i].id, dreams, NodeNames(g.nodes)), Strength, TopConnectionLimit))
  {
    var g := BuildQualityGraph(quals, dreams);
    BuildQualityGraphNodes(quals, dreams);
    CollectedNeighbours(quals[i].id, dreams);
    TopKOfSorted(ConnectionsFrom(CollectEdges([], quals[i].id, dreams), NodeNames(g.nodes)), Strength, TopConnectionLimit);
  }

  /** The built graph's nodes carry the quality rows' keys, in row order. */
  lemma {:induction false} BuiltGraphIds(quals: seq<Quality>, dreams: seq<DreamEntry>)
    requires Distinct(QualityIds(quals))
    requires WellFormedDreams(dreams)
    ensures Ids(BuildQualityGraph(quals, dreams).nodes) == QualityIds(quals)
  {
    BuildQualityGraphNodes(quals, dreams);
  }

  /** `get_quality_statistics` gives one statistic per quality row, none twice. */
  lemma {:induction false} GetQualityStatisticsRows(quals: seq<Quality>, dreams: seq<DreamEntry>)
    requires Distinct(QualityIds(quals))
    requires WellFormedDreams(dreams)
    ensures var r := GetQualityStatistics(quals, dreams);
      |r| == |quals| && DistinctBy(r, StatisticId) &&
      forall k :: 0 <= k < |r| ==> r[k].id in QualityIds(quals)
  {
    var g := BuildQualityGraph(quals, dreams);
    BuiltGraphIds(quals, dreams);
    GetStatisticsDistinct(g);
    GetStatisticsIds(g);
  }

  /** Every statistic of a graph is about one of its nodes. */
  lemma {:induction false} GetStatisticsIds(g: Graph)
    ensures forall k :: 0 <= k < |GetStatistics(g)| ==> GetStatistics(g)[k].id in Ids(g.nodes)
  {
    var stats := NodeStatistics(g.nodes, NodeNames(g.nodes));
    NodeStatisticsIds(g.nodes, NodeNames(g.nodes));
    SortMembers(stats, Frequency);
    assert GetStatistics(g) == StableSortDesc(stats, Frequency);
  }

  lemma {:induction false} NodeStatisticsIds(nodes: seq<GraphNode>, names: NameLookup)
    ensures forall s :: s in NodeStatistics(nodes, names) ==> s.id in Ids(nodes)
  {
    var stats := NodeStatistics(nodes, names);
    forall s | s in stats
      ensures s.id in Ids(nodes)
    {
      var m :| 0 <= m < |stats| && stats[m] == s;
      assert stats[m].id == nodes[m].id == Ids(nodes)[m];
    }
  }

  // ---------------------------------------------------------------------------
  // The triangle of backend/dreams/tests.py
  // ---------------------------------------------------------------------------

  /** flying, lucid, water, as the name-ordered query returns them; each on two dreams. */
  function TriangleQualities(): seq<Quality> {
    [Quality(1, "flying", 2), Quality(3, "lucid", 2), Quality(2, "water", 2)]
  }

  /** Newest dream first; each dream's qualities in name order. */
  function TriangleDreams(): seq<DreamEntry> {
    [DreamEntry(12, [3, 2]), DreamEntry(11, [1, 3]), DreamEntry(10, [1, 2])]
  }

  lemma {:induction false} TriangleWellFormed()
    ensures Distinct(QualityIds(TriangleQualities()))
    ensures WellFormedDreams(TriangleDreams())
  {
    assert QualityIds(TriangleQualities()) == [1, 3, 2];
  }

  /** Every quality of the triangle co-occurs with the two others. */
  lemma {:induction false} TriangleCoOccurring(ds: seq<DreamEntry>, x: QualityId)
    requires ds == TriangleDreams() && x in {1, 2, 3}
    ensures CoOccurring(ds, x) == {1, 2, 3} - {x}
    ensures |CoOccurring(ds, x)| == 2
  {
    var others := {1, 2, 3} - {x};
    TriangleTags(ds);
    forall y | y in others
      ensures y != x && SharedDreams(ds, x, y) != []
    {
      var k := if x != 1 && y != 1 then 0 else if x != 2 && y != 2 then 1 else 2;
      SharedDreamsWitness(ds, k, x, y);
    }
    CoOccurringExactly(ds, x, others);
    TwoOthers(x);
  }

  lemma TwoOthers(x: QualityId)
    requires x in {1, 2, 3}
    ensures |{1, 2, 3} - {x}| == 2
  {
    if x == 1 {
      assert {1, 2, 3} - {x} == {2, 3};
    } else if x == 2 {
      assert {1, 2, 3} - {x} == {1, 3};
    } else {
      assert {1, 2, 3} - {x} == {1, 2};
    }
  }

  /** The co-occurring set is pinned down by its members and a bound from the tags. */
  lemma CoOccurringExactly(dreams: seq<DreamEntry>, x: QualityId, others: set<QualityId>)
    requires forall y :: y in others ==> y != x && SharedDreams(dreams, x, y) != []
    requires forall y :: y in AllTags(dreams) && y != x ==> y in others
    ensures CoOccurring(dreams, x) == others
  {
    forall y | y in others
      ensures y in AllTags(dreams)
    {
      SharedDreamsTagged(dreams, x, y);
    }
  }

  lemma {:induction false} TriangleTags(ds: seq<DreamEntry>)
    requires ds == TriangleDreams()
    ensures AllTags(ds) == {1, 2, 3}
  {
    var d2, d3 := ds[1..], ds[2..];
    assert d2 == [DreamEntry(11, [1, 3]), DreamEntry(10, [1, 2])] && d2[1..] == d3;
    assert d3 == [DreamEntry(10, [1, 2])] && d3[1..] == [];
    assert AllTags(d3) == {1, 2};
    assert AllTags(d2) == {1, 3} + {1, 2};
    assert AllTags(ds) == {3, 2} + AllTags(d2);
  }

  /** Each node of the triangle has frequency 2 and two connections. */
  lemma {:induction false} TriangleNode(quals: seq<Quality>, ds: seq<DreamEntry>, i: nat)
    requires quals == TriangleQualities() && ds == TriangleDreams()
    requires i < 3
    ensures var g := BuildQualityGraph(quals, ds);
      |g.nodes| == 3 &&
      g.nodes[i].name == quals[i].name &&
      |g.nodes[i].edges| == 2 &&
      NodeStatistic(g.nodes[i], NodeNames(g.nodes)).frequency == 2 &&
      NodeStatistic(g.nodes[i], NodeNames(g.nodes)).totalConnections == 2
  {
    TriangleWellFormed();
    StatisticMatchesConnections(quals, ds, i);
    TriangleCoOccurring(ds, quals[i].id);
  }

  /** When every quality row has frequency `f` and `c` co-occurring qualities, so does every statistic. */
  lemma {:induction false} UniformStatistics(quals: seq<Quality>, ds: seq<DreamEntry>, f: nat, c: nat)
    requires Distinct(QualityIds(quals))
    requires WellFormedDreams(ds)
    requires forall i :: 0 <= i < |quals| ==> quals[i].frequency == f && |CoOccurring(ds, quals[i].id)| == c
    ensures var r := GetQualityStatistics(quals, ds);
      |r| == |quals| && forall k :: 0 <= k < |r| ==> r[k].frequency == f && r[k].totalConnections == c
  {
    var g := BuildQualityGraph(quals, ds);
    BuiltGraphIds(quals, ds);
    var stats := NodeStatistics(g.nodes, NodeNames(g.nodes));
    forall m | 0 <= m < |stats|
      ensures stats[m].frequency == f && stats[m].totalConnections == c
    {
      StatisticMatchesConnections(quals, ds, m);
    }
    var r := GetStatistics(g);
    assert r == StableSortDesc(stats, Frequency);
    assert GetQualityStatistics(quals, ds) == r;
    SortMembers(stats, Frequency);
    forall k | 0 <= k < |r|
      ensures r[k].frequency == f && r[k].totalConnections == c
    {
      assert r[k] in stats;
    }
  }

  /** Every statistic of the triangle has frequency 2 and two connections. */
  lemma {:induction false} TriangleStatistics(quals: seq<Quality>, ds: seq<DreamEntry>)
    requires quals == TriangleQualities() && ds == TriangleDreams()
    ensures var r := GetQualityStatistics(quals, ds);
      |r| == 3 && forall k :: 0 <= k < |r| ==> r[k].frequency == 2 && r[k].totalConnections == 2
  {
    TriangleWellFormed();
    forall i | 0 <= i < |quals|
      ensures quals[i].frequency == 2 && |CoOccurring(ds, quals[i].id)| == 2
    {
      TriangleCoOccurring(ds, quals[i].id);
    }
    UniformStatistics(quals, ds, 2, 2);
  }

  /** In the triangle, flying shares dream 10 with water, dream 11 with lucid, and nothing with any other quality. */
  lemma {:induction false} TriangleFlyingShared(ds: seq<DreamEntry>, y: QualityId)
    requires ds == TriangleDreams()
    ensures SharedDreams(ds, 1, y) ==
      if y == 1 then [11, 10] else if y == 2 then [10] else if y == 3 then [11] else []
  {
    var d2, d3 := ds[1..], ds[2..];
    assert d2 == [DreamEntry(11, [1, 3]), DreamEntry(10, [1, 2])] && d2[1..] == d3;
    assert d3 == [DreamEntry(10, [1, 2])];
    assert SharedDreams(d3[1..], 1, y) == [];
    assert SharedDreams(d3, 1, y) == if y == 1 || y == 2 then [10] else [];
    assert SharedDreams(d2, 1, y) == (if y == 1 || y == 3 then [11] else []) + SharedDreams(d3, 1, y);
    assert SharedDreams(ds, 1, y) == SharedDreams(d2, 1, y);
  }

  /** A duplicate-free list of connections whose ids are exactly `a` and `b` has two entries. */
  lemma {:induction false} TwoConnections(r: seq<Connection>, a: QualityId, b: QualityId)
    requires a != b
    requires DistinctBy(r, ConnectionQuality)
    requires forall k :: 0 <= k < |r| ==> r[k].qualityId == a || r[k].qualityId == b
    requires a in ConnectionIds(r) && b in ConnectionIds(r)
    ensures |r| == 2
  {
    var ids := ConnectionIds(r);
    assert Distinct(ids) by {
      forall i, j | 0 <= i < j < |ids|
        ensures ids[i] != ids[j]
      {
        assert ConnectionQuality(r[i]) != ConnectionQuality(r[j]);
      }
    }
    DistinctCardinality(ids);
    assert (set y | y in ids) == {a, b};
  }

  /** A connection of flying in the triangle is water or lucid, with one shared dream. */
  lemma {:induction false} TriangleFlyingConnection(ds: seq<DreamEntry>, names: NameLookup, c: Connection)
    requires ds == TriangleDreams()
    requires names(3) == Some("lucid") && names(2) == Some("water")
    requires c.qualityId != 1 && c.sharedDreamIds == SharedDreams(ds, 1, c.qualityId) && c.strength > 0
    requires c.strength == |c.sharedDreamIds| && names(c.qualityId) == Some(c.qualityName)
    ensures (c.qualityId == 2 && c.qualityName == "water") || (c.qualityId == 3 && c.qualityName == "lucid")
    ensures c.strength == 1
  {
    TriangleFlyingShared(ds, c.qualityId);
  }

  /** A duplicate-free list of connections to water and lucid that names both holds just those two. */
  lemma {:induction false} FlyingConnections(r: seq<Connection>)
    requires DistinctBy(r, ConnectionQuality)
    requires forall k :: 0 <= k < |r| ==>
      (r[k].qualityId == 2 && r[k].qualityName == "water") || (r[k].qualityId == 3 && r[k].qualityName == "lucid")
    requires 2 in ConnectionIds(r) && 3 in ConnectionIds(r)
    ensures |r| == 2
    ensures (set k | 0 <= k < |r| :: r[k].qualityName) == {"water", "lucid"}
  {
    TwoConnections(r, 2, 3);
    assert ConnectionQuality(r[0]) != ConnectionQuality(r[1]);
    assert (set k | 0 <= k < |r| :: r[k].qualityName) == {r[0].qualityName, r[1].qualityName};
  }

  /** With water and lucid named, `get_connections` for flying returns those two, one shared dream each. */
  lemma {:induction false} FlyingGetConnections(ds: seq<DreamEntry>, names: NameLookup)
    requires ds == TriangleDreams()
    requires names(3) == Some("lucid") && names(2) == Some("water")
    ensures var r := GetConnections(1, ds, names);
      |r| == 2 &&
      (set k | 0 <= k < |r| :: r[k].qualityName) == {"water", "lucid"} &&
      forall k :: 0 <= k < |r| ==> r[k].strength == 1
  {
    TriangleWellFormed();
    var r := GetConnections(1, ds, names);
    GetConnectionsSpec(1, ds, names);
    TriangleFlyingShared(ds, 2);
    TriangleFlyingShared(ds, 3);
    assert 2 in ConnectionIds(r) && 3 in ConnectionIds(r);
    forall k | 0 <= k < |r|
      ensures (r[k].qualityId == 2 && r[k].qualityName == "water") || (r[k].qualityId == 3 && r[k].qualityName == "lucid")
      ensures r[k].strength == 1
    {
      TriangleFlyingConnection(ds, names, r[k]);
    }
    FlyingConnections(r);
  }

  /** flying's connections in the built triangle graph are water and lucid, one shared dream each. */
  lemma {:induction false} TriangleConnections(quals: seq<Quality>, ds: seq<DreamEntry>)
    requires quals == TriangleQualities() && ds == TriangleDreams()
    ensures var g := BuildQualityGraph(quals, ds);
      var r := GetConnections(1, ds, NodeNames(g.nodes));
      |r| == 2 &&
      (set k | 0 <= k < |r| :: r[k].qualityName) == {"water", "lucid"} &&
      forall k :: 0 <= k < |r| ==> r[k].strength == 1
  {
    TriangleWellFormed();
    var names := NodeNames(BuildQualityGraph(quals, ds).nodes);
    BuiltGraphNames(quals, ds, 1);
    BuiltGraphNames(quals, ds, 2);
    FlyingGetConnections(ds, names);
  }
}
