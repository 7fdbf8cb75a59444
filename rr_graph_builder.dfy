/** Utilities of the tileable routing-resource-graph builder: node
    initialisation, edge insertion with fan-in bookkeeping, the start/end
    geometry of routing tracks, the pin side of perimeter I/O tiles, the
    enumeration and counting of a tile's pins and pin classes, and the node,
    edge and multiplexer counts of the graph statistics.

    The graph is the array of `t_rr_node` records; a node id is an index into
    it.  Node records are values (`RRTypes.RRNode`) stored in that array, so
    growing a node's edge list replaces the record at its index. */
module RRGraphBuilder {
  import opened Common
  import opened RRTypes

  // ---------------------------------------------------------------------
  // Graph-wide invariants
  // ---------------------------------------------------------------------

  /** Number of edges, over every node of `g`, that end at node `d`. */
  function InDegree(g: seq<RRNode>, d: int): (n: nat)
    ensures g == [] ==> n == 0
  {
    if g == [] then 0 else InDegree(g[..|g| - 1], d) + Count(g[|g| - 1].edges, d)
  }

  /** Every node's `fan_in` equals the number of recorded edges into it. */
  ghost predicate FanInConsistent(g: seq<RRNode>) {
    forall d :: 0 <= d < |g| ==> g[d].fanIn == InDegree(g, d)
  }

  /** Every node keeps `edges` and `switches` parallel and of length
      `num_edges`, and every edge ends at a node of the graph. */
  ghost predicate WellFormed(g: seq<RRNode>) {
    forall i :: 0 <= i < |g| ==>
      EdgeArraysAgree(g[i]) && (forall k :: 0 <= k < |g[i].edges| ==> 0 <= g[i].edges[k] < |g|)
  }

  /** No two edges of a node end at the same node. */
  ghost predicate NoDuplicateTargets(edges: seq<int>) {
    forall i, j :: 0 <= i < j < |edges| ==> edges[i] != edges[j]
  }

  lemma {:induction false} InDegreeSameEdges(g: seq<RRNode>, h: seq<RRNode>, d: int)
    requires |g| == |h|
    requires forall j :: 0 <= j < |g| ==> h[j].edges == g[j].edges
    ensures InDegree(h, d) == InDegree(g, d)
    decreases |g|
  {
    if g != [] {
      InDegreeSameEdges(g[..|g| - 1], h[..|h| - 1], d);
    }
  }

  /** Appending `extra` to the edge list of node `src`, and touching nothing
      else that holds edges, raises the in-degree of every node by the number
      of times it occurs in `extra`. */
  lemma {:induction false} InDegreeAfterAppend(g: seq<RRNode>, h: seq<RRNode>, src: int, extra: seq<int>, d: int)
    requires |g| == |h| && 0 <= src < |g|
    requires forall j :: 0 <= j < |g| && j != src ==> h[j].edges == g[j].edges
    requires h[src].edges == g[src].edges + extra
    ensures InDegree(h, d) == InDegree(g, d) + Count(extra, d)
    decreases |g|
  {
    var k := |g| - 1;
    assert InDegree(g, d) == InDegree(g[..k], d) + Count(g[k].edges, d);
    assert InDegree(h, d) == InDegree(h[..k], d) + Count(h[k].edges, d);
    if k == src {
      InDegreeSameEdges(g[..k], h[..k], d);
      CountAppend(g[src].edges, extra, d);
    } else {
      InDegreeAfterAppend(g[..k], h[..k], src, extra, d);
    }
  }

  // ---------------------------------------------------------------------
  // Node initialisation (tileable_rr_graph_init_rr_node)
  // ---------------------------------------------------------------------

  /** `tileable_rr_graph_init_rr_node` AS WRITTEN: the bounding box reset
      assigns `xhigh` twice and never `yhigh`, which keeps its old value.
      `capacity` is not reset either. */
  function InitRRNodeAsWritten(n: RRNode): (r: RRNode)
    ensures r.xlow == 0 && r.xhigh == 0 && r.ylow == 0
    ensures r.yhigh == n.yhigh
    ensures r.fanIn == 0 && r.edges == [] && EdgeArraysAgree(r)
  {
    n.(xlow := 0, xhigh := 0, ylow := 0,
       ptcNum := 0, trackIds := [], costIndex := 0, occ := 0, fanIn := 0, numEdges := 0,
       rrType := NumRRTypes, edges := [], switches := [], direction := BiDirection)
  }

  /** The node the initialiser evidently intends: every coordinate zero, so
      the fresh node is a point at the origin. */
  function InitRRNode(n: RRNode): (r: RRNode)
    ensures r.xlow == 0 && r.xhigh == 0 && r.ylow == 0 && r.yhigh == 0
    ensures IsPoint(r)
    ensures r.fanIn == 0 && r.edges == [] && r.switches == [] && EdgeArraysAgree(r)
    ensures r.rrType == NumRRTypes && r.direction == BiDirection && r.trackIds == []
    ensures r.capacity == n.capacity
  {
    n.(xlow := 0, xhigh := 0, ylow := 0, yhigh := 0,
       ptcNum := 0, trackIds := [], costIndex := 0, occ := 0, fanIn := 0, numEdges := 0,
       rrType := NumRRTypes, edges := [], switches := [], direction := BiDirection)
  }

  /** The initialiser as written leaves a node that is not a point whenever
      its old `yhigh` was not zero: the old `yhigh` survives initialisation. */
  lemma InitAsWrittenKeepsYHigh()
    ensures var n := InitRRNode(RRNode(0, 0, 0, 0, 0, [], 0, 0, 1, 0, 0, Source, [], [], IncDirection)).(yhigh := 5);
            !IsPoint(InitRRNodeAsWritten(n)) && IsPoint(InitRRNode(n))
  {
  }

  /** Initialises node `i` of the graph in place, with the corrected reset
      (`yhigh` cleared too), as the rest of this model uses it. */
  method InitRRNodeAt(rrNode: array<RRNode>, i: int)
    requires 0 <= i < rrNode.Length
    modifies rrNode
    ensures rrNode[..] == old(rrNode[..])[i := InitRRNode(old(rrNode[i]))]
  {
    var n := rrNode[i];
    rrNode[i] := n.(xlow := 0, xhigh := 0, ylow := 0, yhigh := 0,
                    ptcNum := 0, trackIds := [], costIndex := 0, occ := 0, fanIn := 0, numEdges := 0,
                    rrType := NumRRTypes, edges := [], switches := [], direction := BiDirection);
  }

  /** A graph whose nodes are all freshly initialised has no edges, so it is
      well formed and every `fan_in` (zero) is correct. */
  lemma {:induction false} FreshGraphConsistent(g: seq<RRNode>)
    requires forall i :: 0 <= i < |g| ==> g[i] == InitRRNode(g[i])
    ensures WellFormed(g) && FanInConsistent(g)
  {
    forall d | 0 <= d < |g|
      ensures g[d].fanIn == InDegree(g, d)
    {
      NoEdgesNoInDegree(g, d);
    }
  }

  lemma {:induction false} NoEdgesNoInDegree(g: seq<RRNode>, d: int)
    requires forall i :: 0 <= i < |g| ==> g[i].edges == []
    ensures InDegree(g, d) == 0
    decreases |g|
  {
    if g != [] {
      NoEdgesNoInDegree(g[..|g| - 1], d);
    }
  }

  // ---------------------------------------------------------------------
  // Adding one edge (add_one_edge_for_two_rr_nodes)
  // ---------------------------------------------------------------------

  /** The graph after `add_one_edge_for_two_rr_nodes(src, des, switch)`. */
  function AddOneEdgeSpec(g: seq<RRNode>, src: int, des: int, switchId: int): (r: seq<RRNode>)
    requires 0 <= src < |g| && 0 <= des < |g|
    ensures |r| == |g|
    ensures r[src].numEdges == g[src].numEdges + 1
    ensures r[src].edges == g[src].edges + [des] && r[src].switches == g[src].switches + [switchId]
    ensures r[des].fanIn == g[des].fanIn + 1
    ensures forall j :: 0 <= j < |g| && j != src ==> r[j].edges == g[j].edges && r[j].switches == g[j].switches
    ensures forall j :: 0 <= j < |g| && j != des ==> r[j].fanIn == g[j].fanIn
    ensures forall j :: 0 <= j < |g| && j != src && j != des ==> r[j] == g[j]
  {
    seq(|g|, j requires 0 <= j < |g| =>
      var n := if j == src
               then g[j].(numEdges := g[j].numEdges + 1, edges := g[j].edges + [des],
                          switches := g[j].switches + [switchId])
               else g[j];
      if j == des then n.(fanIn := n.fanIn + 1) else n)
  }

  /** Adds the edge `src -> des` through `switchId`.  Both ids must be nodes
      of the graph.  There is no redundancy check. */
  method AddOneEdge(rrNode: array<RRNode>, src: int, des: int, switchId: int)
    requires 0 <= src < rrNode.Length && 0 <= des < rrNode.Length
    modifies rrNode
    ensures rrNode[..] == AddOneEdgeSpec(old(rrNode[..]), src, des, switchId)
  {
    ghost var g := rrNode[..];
    var s := rrNode[src];
    rrNode[src] := s.(numEdges := s.numEdges + 1, edges := s.edges + [des], switches := s.switches + [switchId]);
    var d := rrNode[des];
    rrNode[des] := d.(fanIn := d.fanIn + 1);
    assert rrNode[..] == AddOneEdgeSpec(g, src, des, switchId);
  }

  /** Adding an edge keeps the graph well formed and keeps every `fan_in`
      equal to the number of edges into its node. */
  lemma AddOneEdgeKeepsInvariants(g: seq<RRNode>, src: int, des: int, switchId: int)
    requires 0 <= src < |g| && 0 <= des < |g|
    requires WellFormed(g) && FanInConsistent(g)
    ensures WellFormed(AddOneEdgeSpec(g, src, des, switchId))
    ensures FanInConsistent(AddOneEdgeSpec(g, src, des, switchId))
  {
    var h := AddOneEdgeSpec(g, src, des, switchId);
    forall i | 0 <= i < |h|
      ensures EdgeArraysAgree(h[i]) && (forall k :: 0 <= k < |h[i].edges| ==> 0 <= h[i].edges[k] < |h|)
    {
      if i == src {
        forall k | 0 <= k < |h[i].edges| ensures 0 <= h[i].edges[k] < |h| {
          if k < |g[src].edges| {
            assert h[i].edges[k] == g[src].edges[k];
          }
        }
      }
    }
    forall d | 0 <= d < |h|
      ensures h[d].fanIn == InDegree(h, d)
    {
      InDegreeAfterAppend(g, h, src, [des], d);
    }
  }

  /** Adding the same edge twice records two parallel edges and raises the
      target's `fan_in` by two: the single-edge insertion does not
      deduplicate. */
  lemma AddOneEdgeTwiceIsParallel(g: seq<RRNode>, src: int, des: int, switchId: int)
    requires 0 <= src < |g| && 0 <= des < |g|
    ensures var h := AddOneEdgeSpec(AddOneEdgeSpec(g, src, des, switchId), src, des, switchId);
            && h[src].edges == g[src].edges + [des, des]
            && h[src].numEdges == g[src].numEdges + 2
            && h[des].fanIn == g[des].fanIn + 2
            && Count(h[src].edges, des) == Count(g[src].edges, des) + 2
  {
    var h := AddOneEdgeSpec(AddOneEdgeSpec(g, src, des, switchId), src, des, switchId);
    assert h[src].edges == g[src].edges + [des] + [des];
    assert g[src].edges + [des] + [des] == g[src].edges + [des, des];
    CountAppend(g[src].edges, [des, des], des);
  }

  // ---------------------------------------------------------------------
  // Adding a batch of edges (add_edges_for_two_rr_nodes)
  // ---------------------------------------------------------------------

  /** The entries of `vals` at the positions where `ids` holds a target that
      is not in `existing`, in input order. */
  function KeptAt<T>(existing: seq<int>, ids: seq<int>, vals: seq<T>): (r: seq<T>)
    requires |ids| == |vals|
    ensures |r| == NumKept(existing, ids)
    decreases |ids|
  {
    if ids == [] then []
    else KeptAt(existing, ids[..|ids| - 1], vals[..|vals| - 1])
         + (if ids[|ids| - 1] in existing then [] else [vals[|vals| - 1]])
  }

  /** Number of entries of `ids` that are not in `existing`. */
  function NumKept(existing: seq<int>, ids: seq<int>): (n: nat)
    ensures n <= |ids|
    decreases |ids|
  {
    if ids == [] then 0
    else NumKept(existing, ids[..|ids| - 1]) + (if ids[|ids| - 1] in existing then 0 else 1)
  }

  /** The targets that survive the redundancy check against `existing`. */
  function NewTargets(existing: seq<int>, ids: seq<int>): (r: seq<int>)
  {
    KeptAt(existing, ids, ids)
  }

  /** A target survives as often as it occurs in the batch if it is not an
      existing edge, and not at all otherwise; duplicates inside the batch
      are kept. */
  lemma {:induction false} NewTargetsCount(existing: seq<int>, ids: seq<int>, x: int)
    ensures Count(NewTargets(existing, ids), x) == if x in existing then 0 else Count(ids, x)
    decreases |ids|
  {
    if ids != [] {
      var k := |ids| - 1;
      NewTargetsCount(existing, ids[..k], x);
      assert ids == ids[..k] + [ids[k]];
      CountAppend(ids[..k], [ids[k]], x);
      CountAppend(NewTargets(existing, ids[..k]), if ids[k] in existing then [] else [ids[k]], x);
    }
  }

  /** The graph after `add_edges_for_two_rr_nodes(src, ids, switches)`: the
      surviving `(id, switch)` pairs are appended in input order after the
      old edges, and each surviving occurrence of a target raises its
      `fan_in` by one. */
  function AddEdgesSpec(g: seq<RRNode>, src: int, ids: seq<int>, switches: seq<int>): (r: seq<RRNode>)
    requires 0 <= src < |g| && |ids| == |switches|
    ensures |r| == |g|
    ensures r[src].edges == g[src].edges + NewTargets(g[src].edges, ids)
    ensures r[src].switches == g[src].switches + KeptAt(g[src].edges, ids, switches)
    ensures r[src].numEdges == g[src].numEdges + NumKept(g[src].edges, ids)
    ensures forall j :: 0 <= j < |g| ==> r[j].fanIn == g[j].fanIn + Count(NewTargets(g[src].edges, ids), j)
    ensures forall j :: 0 <= j < |g| && j != src ==> r[j].edges == g[j].edges && r[j].switches == g[j].switches
    ensures forall j :: 0 <= j < |g| && j != src ==> r[j] == g[j].(fanIn := r[j].fanIn)
  {
    var added := NewTargets(g[src].edges, ids);
    var addedSwitches := KeptAt(g[src].edges, ids, switches);
    seq(|g|, j requires 0 <= j < |g| =>
      var n := if j == src
               then g[j].(numEdges := g[j].numEdges + |added|, edges := g[j].edges + added,
                          switches := g[j].switches + addedSwitches)
               else g[j];
      n.(fanIn := n.fanIn + Count(added, j)))
  }

  /** `des in edges[..n]`, found by the linear scan of the source. */
  method IsRedundant(edges: seq<int>, numEdges: int, des: int) returns (found: bool)
    requires 0 <= numEdges <= |edges|
    ensures found <==> des in edges[..numEdges]
  {
    found := false;
    var iedge := 0;
    while iedge < numEdges
      invariant 0 <= iedge <= numEdges
      invariant !found && des !in edges[..iedge]
    {
      if des == edges[iedge] {
        found := true;
        return;
      }
      assert edges[..iedge + 1] == edges[..iedge] + [edges[iedge]];
      iedge := iedge + 1;
    }
  }

  /** A zero-filled block, standing for the fresh entries of a `realloc`. */
  function Zeros(n: nat): (r: seq<int>)
    ensures |r| == n
  {
    seq(n, _ => 0)
  }

  /** The first loop of `add_edges_for_two_rr_nodes`: collects, in input
      order, the `(id, switch)` pairs whose target is not among the
      `numEdges` edges the node had on entry. */
  method CollectNewTargets(edges: seq<int>, numEdges: int, ids: seq<int>, switches: seq<int>)
    returns (idsToAdd: seq<int>, switchesToAdd: seq<int>)
    requires numEdges == |edges| && |ids| == |switches|
    ensures idsToAdd == NewTargets(edges, ids)
    ensures switchesToAdd == KeptAt(edges, ids, switches)
  {
    idsToAdd := [];
    switchesToAdd := [];
    var inode := 0;
    while inode < |ids|
      invariant 0 <= inode <= |ids|
      invariant idsToAdd == KeptAt(edges, ids[..inode], ids[..inode])
      invariant switchesToAdd == KeptAt(edges, ids[..inode], switches[..inode])
    {
      var isRedundant := IsRedundant(edges, numEdges, ids[inode]);
      assert edges[..numEdges] == edges;
      assert ids[..inode + 1][..inode] == ids[..inode];
      assert switches[..inode + 1][..inode] == switches[..inode];
      if !isRedundant {
        idsToAdd := idsToAdd + [ids[inode]];
        switchesToAdd := switchesToAdd + [switches[inode]];
      }
      inode := inode + 1;
    }
    assert ids[..|ids|] == ids && switches[..|switches|] == switches;
  }

  /** The graph part-way through the second loop of
      `add_edges_for_two_rr_nodes`: the edge arrays of `src` have grown by
      `|added|` slots, the first `i` of which are filled, and the targets
      filled so far have had their `fan_in` raised. */
  ghost function Filling(g: seq<RRNode>, src: int, added: seq<int>, addedSwitches: seq<int>, i: nat): (r: seq<RRNode>)
    requires 0 <= src < |g| && |added| == |addedSwitches| && i <= |added|
    ensures |r| == |g|
  {
    seq(|g|, j requires 0 <= j < |g| =>
      var n := if j == src
               then g[j].(numEdges := g[j].numEdges + |added|,
                          edges := g[j].edges + added[..i] + Zeros(|added| - i),
                          switches := g[j].switches + addedSwitches[..i] + Zeros(|added| - i))
               else g[j];
      n.(fanIn := n.fanIn + Count(added[..i], j)))
  }

  /** Writing entry `i` into the slot after the first `i` filled ones. */
  lemma FillSlot(base: seq<int>, a: seq<int>, i: nat)
    requires i < |a|
    ensures (base + a[..i] + Zeros(|a| - i))[|base| + i := a[i]] == base + a[..i + 1] + Zeros(|a| - i - 1)
  {
    var l := (base + a[..i] + Zeros(|a| - i))[|base| + i := a[i]];
    var r := base + a[..i + 1] + Zeros(|a| - i - 1);
    assert |l| == |r|;
    forall k | 0 <= k < |l| ensures l[k] == r[k] {
      if k < |base| {
      } else if k < |base| + i {
        assert l[k] == a[..i][k - |base|];
      } else if k > |base| + i {
        assert l[k] == 0;
      }
    }
  }

  /** One iteration of the second loop: slot `slot` of `src`'s arrays
      receives the edge to `des` through `sw`, and `des` gains one fan-in. */
  ghost function FillOne(f: seq<RRNode>, src: int, slot: int, des: int, sw: int): (r: seq<RRNode>)
    requires 0 <= src < |f| && 0 <= des < |f|
    requires 0 <= slot < |f[src].edges| && slot < |f[src].switches|
    ensures |r| == |f|
  {
    seq(|f|, j requires 0 <= j < |f| =>
      (if j == src then f[j].(edges := f[j].edges[slot := des], switches := f[j].switches[slot := sw]) else f[j])
      .(fanIn := f[j].fanIn + (if j == des then 1 else 0)))
  }

  /** Node `src` of `Filling(i)`: its grown arrays, and the fan-in of the
      first `i` targets. */
  lemma FillingAtSource(g: seq<RRNode>, src: int, added: seq<int>, addedSwitches: seq<int>, i: nat)
    requires 0 <= src < |g| && |added| == |addedSwitches| && i <= |added|
    ensures Filling(g, src, added, addedSwitches, i)[src]
            == g[src].(numEdges := g[src].numEdges + |added|,
                       edges := g[src].edges + added[..i] + Zeros(|added| - i),
                       switches := g[src].switches + addedSwitches[..i] + Zeros(|added| - i),
                       fanIn := g[src].fanIn + Count(added[..i], src))
  {
  }

  /** The grown slot arrays of `src` in `Filling(i)`. */
  lemma FillingSizes(g: seq<RRNode>, src: int, added: seq<int>, addedSwitches: seq<int>, i: nat)
    requires 0 <= src < |g| && |added| == |addedSwitches| && i <= |added|
    ensures |Filling(g, src, added, addedSwitches, i)| == |g|
    ensures Filling(g, src, added, addedSwitches, i)[src].numEdges == g[src].numEdges + |added|
    ensures |Filling(g, src, added, addedSwitches, i)[src].edges| == |g[src].edges| + |added|
    ensures |Filling(g, src, added, addedSwitches, i)[src].switches| == |g[src].switches| + |added|
  {
    FillingAtSource(g, src, added, addedSwitches, i);
  }

  /** Any other node of `Filling(i)`: only the fan-in of the first `i` targets. */
  lemma FillingAtOther(g: seq<RRNode>, src: int, added: seq<int>, addedSwitches: seq<int>, i: nat, j: int)
    requires 0 <= src < |g| && |added| == |addedSwitches| && i <= |added| && 0 <= j < |g| && j != src
    ensures Filling(g, src, added, addedSwitches, i)[j] == g[j].(fanIn := g[j].fanIn + Count(added[..i], j))
  {
  }

  /** A node of `FillOne(f, ..)`: `src` with one more slot written, `des`
      with one more fan-in. */
  lemma FillOneAt(f: seq<RRNode>, src: int, slot: int, des: int, sw: int, j: int)
    requires 0 <= src < |f| && 0 <= des < |f| && 0 <= j < |f|
    requires 0 <= slot < |f[src].edges| && slot < |f[src].switches|
    ensures FillOne(f, src, slot, des, sw)[j]
      == (if j == src then f[j].(edges := f[j].edges[slot := des], switches := f[j].switches[slot := sw]) else f[j])
         .(fanIn := f[j].fanIn + (if j == des then 1 else 0))
  {
  }

  /** Node `src` of one iteration of the second loop: one more slot written. */
  lemma FillingStepAtSource(g: seq<RRNode>, src: int, added: seq<int>, addedSwitches: seq<int>, i: nat)
    requires 0 <= src < |g| && |added| == |addedSwitches| && i < |added|
    requires EdgeArraysAgree(g[src]) && 0 <= added[i] < |g|
    ensures FillOne(Filling(g, src, added, addedSwitches, i), src, g[src].numEdges + i, added[i], addedSwitches[i])[src]
            == Filling(g, src, added, addedSwitches, i + 1)[src]
  {
    FillingAtSource(g, src, added, addedSwitches, i);
    FillingAtSource(g, src, added, addedSwitches, i + 1);
    CountPrefix(added, i, src);
    SourceStep(Filling(g, src, added, addedSwitches, i), Filling(g, src, added, addedSwitches, i + 1),
               g[src], src, added, addedSwitches, i, Count(added[..i], src), if added[i] == src then 1 else 0);
  }

  /** The step behind `FillingStepAtSource`, over any two graphs whose node
      `src` has the explicit forms before and after slot `i` is written. */
  lemma SourceStep(f: seq<RRNode>, f2: seq<RRNode>, n: RRNode, src: int, added: seq<int>, addedSwitches: seq<int>,
                   i: nat, c: int, d: int)
    requires EdgeArraysAgree(n) && |added| == |addedSwitches| && i < |added|
    requires 0 <= src < |f| && 0 <= src < |f2| && 0 <= added[i] < |f| && d == (if added[i] == src then 1 else 0)
    requires f[src] == n.(numEdges := n.numEdges + |added|,
                          edges := n.edges + added[..i] + Zeros(|added| - i),
                          switches := n.switches + addedSwitches[..i] + Zeros(|added| - i),
                          fanIn := n.fanIn + c)
    requires f2[src] == n.(numEdges := n.numEdges + |added|,
                           edges := n.edges + added[..i + 1] + Zeros(|added| - (i + 1)),
                           switches := n.switches + addedSwitches[..i + 1] + Zeros(|added| - (i + 1)),
                           fanIn := n.fanIn + (c + d))
    ensures FillOne(f, src, n.numEdges + i, added[i], addedSwitches[i])[src] == f2[src]
  {
    SourceSlotFilled(n, f[src], added, addedSwitches, i, c, d);
  }

  /** The record-level step behind `FillingStepAtSource`: `a` is node `src`
      after `i` slots are written. */
  lemma SourceSlotFilled(n: RRNode, a: RRNode, added: seq<int>, addedSwitches: seq<int>, i: nat, c: int, d: int)
    requires EdgeArraysAgree(n) && |added| == |addedSwitches| && i < |added|
    requires a == n.(numEdges := n.numEdges + |added|,
                     edges := n.edges + added[..i] + Zeros(|added| - i),
                     switches := n.switches + addedSwitches[..i] + Zeros(|added| - i),
                     fanIn := n.fanIn + c)
    ensures a.(edges := a.edges[n.numEdges + i := added[i]], switches := a.switches[n.numEdges + i := addedSwitches[i]])
             .(fanIn := a.fanIn + d)
            == n.(numEdges := n.numEdges + |added|,
                  edges := n.edges + added[..i + 1] + Zeros(|added| - (i + 1)),
                  switches := n.switches + addedSwitches[..i + 1] + Zeros(|added| - (i + 1)),
                  fanIn := n.fanIn + (c + d))
  {
    FillSlot(n.edges, added, i);
    FillSlot(n.switches, addedSwitches, i);
  }

  /** Any other node of one iteration of the second loop: at most one more
      fan-in. */
  lemma FillingStepAtOther(g: seq<RRNode>, src: int, added: seq<int>, addedSwitches: seq<int>, i: nat, j: int)
    requires 0 <= src < |g| && |added| == |addedSwitches| && i < |added| && 0 <= j < |g| && j != src
    requires EdgeArraysAgree(g[src]) && 0 <= added[i] < |g|
    ensures FillOne(Filling(g, src, added, addedSwitches, i), src, g[src].numEdges + i, added[i], addedSwitches[i])[j]
            == Filling(g, src, added, addedSwitches, i + 1)[j]
  {
    var f := Filling(g, src, added, addedSwitches, i);
    FillingAtSource(g, src, added, addedSwitches, i);
    FillOneAt(f, src, g[src].numEdges + i, added[i], addedSwitches[i], j);
    FillingAtOther(g, src, added, addedSwitches, i, j);
    FillingAtOther(g, src, added, addedSwitches, i + 1, j);
    CountPrefix(added, i, j);
  }

  /** One iteration of the second loop takes `Filling(i)` to `Filling(i+1)`. */
  lemma FillingStep(g: seq<RRNode>, src: int, added: seq<int>, addedSwitches: seq<int>, i: nat, slot: int)
    requires 0 <= src < |g| && |added| == |addedSwitches| && i < |added|
    requires EdgeArraysAgree(g[src]) && 0 <= added[i] < |g| && slot == g[src].numEdges + i
    ensures FillOne(Filling(g, src, added, addedSwitches, i), src, slot, added[i], addedSwitches[i])
            == Filling(g, src, added, addedSwitches, i + 1)
  {
    var l := FillOne(Filling(g, src, added, addedSwitches, i), src, slot, added[i], addedSwitches[i]);
    var r := Filling(g, src, added, addedSwitches, i + 1);
    forall j | 0 <= j < |g| ensures l[j] == r[j] {
      if j == src {
        FillingStepAtSource(g, src, added, addedSwitches, i);
      } else {
        FillingStepAtOther(g, src, added, addedSwitches, i, j);
      }
    }
  }

  /** Before the second loop every new slot is empty. */
  lemma FillingStart(g: seq<RRNode>, src: int, added: seq<int>, addedSwitches: seq<int>)
    requires 0 <= src < |g| && |added| == |addedSwitches|
    ensures Filling(g, src, added, addedSwitches, 0)
            == g[src := g[src].(numEdges := g[src].numEdges + |added|,
                                edges := g[src].edges + Zeros(|added|),
                                switches := g[src].switches + Zeros(|added|))]
  {
    var f := Filling(g, src, added, addedSwitches, 0);
    var h := g[src := g[src].(numEdges := g[src].numEdges + |added|,
                              edges := g[src].edges + Zeros(|added|),
                              switches := g[src].switches + Zeros(|added|))];
    assert added[..0] == [] && addedSwitches[..0] == [];
    forall j | 0 <= j < |g| ensures f[j] == h[j] {
      if j == src {
        assert g[src].edges + [] + Zeros(|added|) == g[src].edges + Zeros(|added|);
        assert g[src].switches + [] + Zeros(|added|) == g[src].switches + Zeros(|added|);
      }
    }
  }

  /** After the second loop the graph is the one `AddEdgesSpec` describes. */
  lemma FillingDone(g: seq<RRNode>, src: int, ids: seq<int>, switches: seq<int>)
    requires 0 <= src < |g| && |ids| == |switches|
    ensures var added := NewTargets(g[src].edges, ids);
            Filling(g, src, added, KeptAt(g[src].edges, ids, switches), |added|) == AddEdgesSpec(g, src, ids, switches)
  {
    var added := NewTargets(g[src].edges, ids);
    var addedSwitches := KeptAt(g[src].edges, ids, switches);
    var f := Filling(g, src, added, addedSwitches, |added|);
    var h := AddEdgesSpec(g, src, ids, switches);
    assert added[..|added|] == added;
    forall j | 0 <= j < |g| ensures f[j] == h[j] {
      if j == src {
        FillingAtSource(g, src, added, addedSwitches, |added|);
        SourceDone(f[src], g[src], added, addedSwitches, Count(added, src));
      } else {
        FillingAtOther(g, src, added, addedSwitches, |added|, j);
      }
    }
  }

  /** Node `src` once every slot is written. */
  lemma SourceDone(a: RRNode, n: RRNode, added: seq<int>, addedSwitches: seq<int>, c: int)
    requires |added| == |addedSwitches|
    requires a == n.(numEdges := n.numEdges + |added|,
                     edges := n.edges + added[..|added|] + Zeros(|added| - |added|),
                     switches := n.switches + addedSwitches[..|added|] + Zeros(|added| - |added|),
                     fanIn := n.fanIn + c)
    ensures a == n.(numEdges := n.numEdges + |added|, edges := n.edges + added, switches := n.switches + addedSwitches,
                    fanIn := n.fanIn + c)
  {
    assert added[..|added|] == added && addedSwitches[..|added|] == addedSwitches;
    assert n.edges + added + Zeros(0) == n.edges + added;
    assert n.switches + addedSwitches + Zeros(0) == n.switches + addedSwitches;
  }

  /** Adds the edges `src -> ids[k]` through `switches[k]`, skipping every
      target already present in `src`'s edge list as it was on entry.  The
      check reads only the old edges, so a target repeated inside the batch
      is added once per occurrence.  Every surviving target must be a node
      of the graph. */
  method AddEdges(rrNode: array<RRNode>, src: int, ids: seq<int>, switches: seq<int>)
    requires 0 <= src < rrNode.Length
    requires EdgeArraysAgree(rrNode[src])
    requires |ids| == |switches|
    requires forall k :: 0 <= k < |ids| && ids[k] !in rrNode[src].edges ==> 0 <= ids[k] < rrNode.Length
    modifies rrNode
    ensures rrNode[..] == AddEdgesSpec(old(rrNode[..]), src, ids, switches)
  {
    ghost var g := rrNode[..];
    var idsToAdd, switchesToAdd := CollectNewTargets(rrNode[src].edges, rrNode[src].numEdges, ids, switches);
    forall k | 0 <= k < |idsToAdd| ensures 0 <= idsToAdd[k] < rrNode.Length {
      KeptAtFrom(g[src].edges, ids, ids, idsToAdd[k]);
      var m :| 0 <= m < |ids| && ids[m] == idsToAdd[k];
    }
    FillingStart(g, src, idsToAdd, switchesToAdd);

    // Grow the two parallel arrays; the new slots are filled below.
    var n := |idsToAdd|;
    var s := rrNode[src];
    rrNode[src] := s.(numEdges := s.numEdges + n, edges := s.edges + Zeros(n), switches := s.switches + Zeros(n));
    assert rrNode[..] == Filling(g, src, idsToAdd, switchesToAdd, 0);

    FillNewEdges(rrNode, src, g, idsToAdd, switchesToAdd);
    FillingDone(g, src, ids, switches);
  }

  /** The second loop of `add_edges_for_two_rr_nodes`: writes the kept
      pairs into the grown slots of `src`, from slot `num_edges` of the old
      node on, and raises each target's `fan_in`. */
  method FillNewEdges(rrNode: array<RRNode>, src: int, ghost g: seq<RRNode>, added: seq<int>, addedSwitches: seq<int>)
    requires 0 <= src < |g| == rrNode.Length && |added| == |addedSwitches|
    requires EdgeArraysAgree(g[src])
    requires forall k :: 0 <= k < |added| ==> 0 <= added[k] < |g|
    requires rrNode[..] == Filling(g, src, added, addedSwitches, 0)
    modifies rrNode
    ensures rrNode[..] == Filling(g, src, added, addedSwitches, |added|)
  {
    FillingSizes(g, src, added, addedSwitches, 0);
    var startEdgeId := rrNode[src].numEdges - |added|;
    var i := 0;
    while i < |added|
      invariant 0 <= i <= |added|
      invariant startEdgeId == g[src].numEdges + i
      invariant rrNode[..] == Filling(g, src, added, addedSwitches, i)
    {
      FillingSizes(g, src, added, addedSwitches, i);
      FillingStep(g, src, added, addedSwitches, i, startEdgeId);
      WriteEdge(rrNode, src, startEdgeId, added[i], addedSwitches[i]);
      startEdgeId := startEdgeId + 1;
      i := i + 1;
    }
  }

  /** One iteration of that loop: edge slot `slot` of `src` now leads to
      `des` through `sw`, and `des` gains one fan-in. */
  method WriteEdge(rrNode: array<RRNode>, src: int, slot: int, des: int, sw: int)
    requires 0 <= src < rrNode.Length && 0 <= des < rrNode.Length
    requires 0 <= slot < |rrNode[src].edges| && slot < |rrNode[src].switches|
    modifies rrNode
    ensures rrNode[..] == FillOne(old(rrNode[..]), src, slot, des, sw)
  {
    var cur := rrNode[src];
    rrNode[src] := cur.(edges := cur.edges[slot := des], switches := cur.switches[slot := sw]);
    var d := rrNode[des];
    rrNode[des] := d.(fanIn := d.fanIn + 1);
  }

  /** Every kept value comes from the input. */
  lemma {:induction false} KeptAtFrom(existing: seq<int>, ids: seq<int>, vals: seq<int>, x: int)
    requires |ids| == |vals|
    requires x in KeptAt(existing, ids, vals)
    ensures x in vals && (ids == vals ==> x !in existing)
    decreases |ids|
  {
    var k := |ids| - 1;
    var front := KeptAt(existing, ids[..k], vals[..k]);
    if x in front {
      KeptAtFrom(existing, ids[..k], vals[..k], x);
      assert vals[..k] == ids[..k] ==> ids == vals ==> true;
    } else {
      assert x == vals[k] && ids[k] !in existing;
    }
  }

  /** Every surviving target of a batch of node ids is a node id. */
  lemma NewTargetsInGraph(existing: seq<int>, ids: seq<int>, n: int)
    requires forall k :: 0 <= k < |ids| ==> 0 <= ids[k] < n
    ensures forall k :: 0 <= k < |NewTargets(existing, ids)| ==> 0 <= NewTargets(existing, ids)[k] < n
  {
    var added := NewTargets(existing, ids);
    forall k | 0 <= k < |added| ensures 0 <= added[k] < n {
      KeptAtFrom(existing, ids, ids, added[k]);
    }
  }

  /** A batch of edges to nodes of the graph keeps it well formed. */
  lemma AddEdgesStaysWellFormed(g: seq<RRNode>, src: int, ids: seq<int>, switches: seq<int>)
    requires 0 <= src < |g| && |ids| == |switches|
    requires WellFormed(g)
    requires forall k :: 0 <= k < |ids| ==> 0 <= ids[k] < |g|
    ensures WellFormed(AddEdgesSpec(g, src, ids, switches))
  {
    var h := AddEdgesSpec(g, src, ids, switches);
    var added := NewTargets(g[src].edges, ids);
    NewTargetsInGraph(g[src].edges, ids, |g|);
    forall i | 0 <= i < |h|
      ensures EdgeArraysAgree(h[i]) && (forall k :: 0 <= k < |h[i].edges| ==> 0 <= h[i].edges[k] < |h|)
    {
      if i == src {
        forall k | 0 <= k < |h[i].edges| ensures 0 <= h[i].edges[k] < |h| {
          if k >= |g[src].edges| {
            assert h[i].edges[k] == added[k - |g[src].edges|];
          } else {
            assert h[i].edges[k] == g[src].edges[k];
          }
        }
      }
    }
  }

  /** A batch keeps the graph well formed and every `fan_in` correct. */
  lemma AddEdgesKeepsInvariants(g: seq<RRNode>, src: int, ids: seq<int>, switches: seq<int>)
    requires 0 <= src < |g| && |ids| == |switches|
    requires WellFormed(g) && FanInConsistent(g)
    requires forall k :: 0 <= k < |ids| ==> 0 <= ids[k] < |g|
    ensures WellFormed(AddEdgesSpec(g, src, ids, switches))
    ensures FanInConsistent(AddEdgesSpec(g, src, ids, switches))
  {
    AddEdgesStaysWellFormed(g, src, ids, switches);
    var h := AddEdgesSpec(g, src, ids, switches);
    var added := NewTargets(g[src].edges, ids);
    forall d | 0 <= d < |h|
      ensures h[d].fanIn == InDegree(h, d)
    {
      InDegreeAfterAppend(g, h, src, added, d);
    }
  }

  /** Replaying a batch changes nothing: after the first pass every target
      of the batch is an edge of `src`, so the second pass keeps none. */
  lemma AddEdgesTwiceIsOnce(g: seq<RRNode>, src: int, ids: seq<int>, switches: seq<int>)
    requires 0 <= src < |g| && |ids| == |switches|
    ensures var h := AddEdgesSpec(g, src, ids, switches);
            AddEdgesSpec(h, src, ids, switches) == h
  {
    var h := AddEdgesSpec(g, src, ids, switches);
    forall k | 0 <= k < |ids| ensures ids[k] in h[src].edges {
      var x := ids[k];
      if x !in g[src].edges {
        NewTargetsCount(g[src].edges, ids, x);
        assert Count(NewTargets(g[src].edges, ids), x) > 0;
      }
    }
    AllExistingKeepsNothing(h[src].edges, ids, ids);
    AllExistingKeepsNothing(h[src].edges, ids, switches);
    assert NewTargets(h[src].edges, ids) == [];
    var h2 := AddEdgesSpec(h, src, ids, switches);
    forall j | 0 <= j < |h| ensures h2[j] == h[j] {
      assert h[src].edges + [] == h[src].edges;
      assert h[src].switches + [] == h[src].switches;
    }
  }

  /** A batch whose every target is already an edge keeps nothing. */
  lemma {:induction false} AllExistingKeepsNothing<T>(existing: seq<int>, ids: seq<int>, vals: seq<T>)
    requires |ids| == |vals|
    requires forall k :: 0 <= k < |ids| ==> ids[k] in existing
    ensures KeptAt(existing, ids, vals) == [] && NumKept(existing, ids) == 0
    decreases |ids|
  {
    if ids != [] {
      var k := |ids| - 1;
      assert forall m :: 0 <= m < k ==> ids[..k][m] == ids[m];
      AllExistingKeepsNothing(existing, ids[..k], vals[..k]);
    }
  }

  /** A target repeated inside one batch is appended twice and its `fan_in`
      rises by two, even though the batch checks for redundant edges. */
  lemma AddEdgesKeepsDuplicatesWithinBatch(g: seq<RRNode>, src: int, des: int, switchId: int)
    requires 0 <= src < |g| && 0 <= des < |g|
    requires des !in g[src].edges
    ensures var h := AddEdgesSpec(g, src, [des, des], [switchId, switchId]);
            h[src].edges == g[src].edges + [des, des] && h[des].fanIn == g[des].fanIn + 2
  {
    var e := g[src].edges;
    assert [des, des][..1] == [des];
    assert [des][..0] == [];
    assert KeptAt(e, [des], [des]) == KeptAt(e, [], []) + [des];
    assert KeptAt(e, [des, des], [des, des]) == KeptAt(e, [des], [des]) + [des];
    assert NewTargets(e, [des, des]) == [des, des];
    assert Count([des, des], des) == 2;
  }

  /** When the old edge list and the batch are each free of repeated
      targets, so is the new edge list. */
  lemma AddEdgesKeepsTargetsDistinct(g: seq<RRNode>, src: int, ids: seq<int>, switches: seq<int>)
    requires 0 <= src < |g| && |ids| == |switches|
    requires NoDuplicateTargets(g[src].edges) && NoDuplicateTargets(ids)
    ensures NoDuplicateTargets(AddEdgesSpec(g, src, ids, switches)[src].edges)
  {
    var old_ := g[src].edges;
    var added := NewTargets(old_, ids);
    var e := old_ + added;
    forall x ensures Count(e, x) <= 1 {
      CountAppend(old_, added, x);
      NewTargetsCount(old_, ids, x);
      DistinctCount(old_, x);
      DistinctCount(ids, x);
    }
    CountAtMostOneDistinct(e);
  }

  lemma {:induction false} DistinctCount(s: seq<int>, x: int)
    requires NoDuplicateTargets(s)
    ensures Count(s, x) <= 1
    decreases |s|
  {
    if s != [] {
      DistinctCount(s[1..], x);
      if s[0] == x {
        assert x !in s[1..] by {
          forall k | 0 <= k < |s[1..]| ensures s[1..][k] != x {
            assert s[1..][k] == s[k + 1];
          }
        }
      }
    }
  }

  lemma {:induction false} CountAtMostOneDistinct(s: seq<int>)
    requires forall x :: Count(s, x) <= 1
    ensures NoDuplicateTargets(s)
    decreases |s|
  {
    if s != [] {
      forall x ensures Count(s[1..], x) <= 1 {
        assert Count(s, x) == (if s[0] == x then 1 else 0) + Count(s[1..], x);
      }
      CountAtMostOneDistinct(s[1..]);
      assert Count(s, s[0]) == 1 + Count(s[1..], s[0]);
      assert s[0] !in s[1..];
      forall i, j | 0 <= i < j < |s| ensures s[i] != s[j] {
        if i == 0 {
          assert s[j] == s[1..][j - 1];
        } else {
          assert s[i] == s[1..][i - 1] && s[j] == s[1..][j - 1];
        }
      }
    }
  }

  // ---------------------------------------------------------------------
  // Track geometry
  // ---------------------------------------------------------------------

  datatype Coordinate = Coordinate(x: int, y: int)

  /** A track node: CHANX or CHANY, running INC or DEC. */
  predicate IsDirectedTrack(n: RRNode) {
    IsTrack(n) && (n.direction == IncDirection || n.direction == DecDirection)
  }

  /** `get_track_rr_node_start_coordinator`. */
  function TrackStart(n: RRNode): (c: Coordinate)
    requires IsDirectedTrack(n)
    ensures n.direction == IncDirection ==> c == Coordinate(n.xlow, n.ylow)
    ensures n.direction == DecDirection ==> c == Coordinate(n.xhigh, n.yhigh)
  {
    if n.direction == IncDirection then Coordinate(n.xlow, n.ylow) else Coordinate(n.xhigh, n.yhigh)
  }

  /** `get_track_rr_node_end_coordinator`. */
  function TrackEnd(n: RRNode): (c: Coordinate)
    requires IsDirectedTrack(n)
    ensures n.direction == IncDirection ==> c == Coordinate(n.xhigh, n.yhigh)
    ensures n.direction == DecDirection ==> c == Coordinate(n.xlow, n.ylow)
  {
    if n.direction == IncDirection then Coordinate(n.xhigh, n.yhigh) else Coordinate(n.xlow, n.ylow)
  }

  function Reversed(n: RRNode): (r: RRNode)
    requires IsDirectedTrack(n)
    ensures IsDirectedTrack(r) && r.direction != n.direction
  {
    n.(direction := if n.direction == IncDirection then DecDirection else IncDirection)
  }

  /** Reversing a track's direction exchanges its start and its end, and a
      track starts where it ends exactly when it is a point. */
  lemma TrackStartEndSwap(n: RRNode)
    requires IsDirectedTrack(n)
    ensures TrackStart(Reversed(n)) == TrackEnd(n) && TrackEnd(Reversed(n)) == TrackStart(n)
    ensures TrackStart(n) == TrackEnd(n) <==> IsPoint(n)
  {
  }

  /** `get_track_rr_node_end_track_id`: the last track id for INC, the
      first for DEC. */
  function EndTrackId(n: RRNode): (id: int)
    requires IsDirectedTrack(n) && |n.trackIds| > 0
    ensures id in n.trackIds
    ensures n.direction == IncDirection ==> id == n.trackIds[|n.trackIds| - 1]
    ensures n.direction == DecDirection ==> id == n.trackIds[0]
  {
    if n.direction == IncDirection then n.trackIds[|n.trackIds| - 1] else n.trackIds[0]
  }

  /** The end track id of a reversed track is the id at the other end of its
      track list: the id where the reversed track starts. */
  lemma EndTrackIdOfReversed(n: RRNode)
    requires IsDirectedTrack(n) && |n.trackIds| > 0
    ensures var r := Reversed(n);
            EndTrackId(r) == (if n.direction == IncDirection then n.trackIds[0] else n.trackIds[|n.trackIds| - 1])
  {
  }

  // ---------------------------------------------------------------------
  // I/O pin side (determine_io_grid_pin_side)
  // ---------------------------------------------------------------------

  datatype PinSideError = InteriorIO

  /** The single side on which an I/O tile at `(x, y)` exposes pins, for a
      device whose far corner is `(deviceX, deviceY)`; the top row is checked
      first, then the right column, the bottom row and the left column. */
  function IoPinSide(deviceX: int, deviceY: int, x: int, y: int): (r: Result<Side, PinSideError>)
    ensures r.Ok? <==> (y == deviceY || x == deviceX || y == 0 || x == 0)
    ensures y == deviceY ==> r == Ok(Bottom)
    ensures y != deviceY && x == deviceX ==> r == Ok(Left)
    ensures y != deviceY && x != deviceX && y == 0 ==> r == Ok(Top)
    ensures y != deviceY && x != deviceX && y != 0 && x == 0 ==> r == Ok(Right)
  {
    if y == deviceY then Ok(Bottom)
    else if x == deviceX then Ok(Left)
    else if y == 0 then Ok(Top)
    else if x == 0 then Ok(Right)
    else Err(InteriorIO)
  }

  /** The border of the device a perimeter tile sits on. */
  function BorderOf(deviceX: int, deviceY: int, x: int, y: int): (s: Side)
    requires y == deviceY || x == deviceX || y == 0 || x == 0
  {
    if y == deviceY then Top else if x == deviceX then Right else if y == 0 then Bottom else Left
  }

  /** An I/O tile exposes its pins on the side facing the core: the side
      opposite the border it sits on. */
  lemma IoPinSideFacesCore(deviceX: int, deviceY: int, x: int, y: int)
    requires y == deviceY || x == deviceX || y == 0 || x == 0
    ensures IoPinSide(deviceX, deviceY, x, y) == Ok(Opposite(BorderOf(deviceX, deviceY, x, y)))
  {
  }

  // ---------------------------------------------------------------------
  // Pins and pin classes of a tile type
  // ---------------------------------------------------------------------

  /** `e_pin_type`. */
  datatype PinType = Open | Driver | Receiver

  /** The part of `t_type_descriptor` that pin enumeration reads:
      `pinloc[height][side][pin]`, `pin_class[pin]` and the type of every
      class. */
  datatype TypeDescriptor = TypeDescriptor(
    numPins: nat,
    height: nat,
    pinClass: seq<int>,
    pinloc: seq<seq<seq<int>>>,
    classTypes: seq<PinType>,
    isIO: bool)

  ghost predicate TypeWellFormed(t: TypeDescriptor) {
    && |t.pinClass| >= t.numPins
    && (forall p :: 0 <= p < t.numPins ==> 0 <= t.pinClass[p] < |t.classTypes|)
    && |t.pinloc| == t.height
    && (forall h :: 0 <= h < t.height ==> |t.pinloc[h]| == NUM_SIDES)
    && (forall h, s :: 0 <= h < t.height && 0 <= s < NUM_SIDES ==> |t.pinloc[h][s]| >= t.numPins)
  }

  /** Pin `p` is on `side` at `height` and its class has type `pinType`. */
  ghost predicate PinSelected(t: TypeDescriptor, pinType: PinType, side: Side, height: nat, p: int)
    requires TypeWellFormed(t) && height < t.height
  {
    0 <= p < t.numPins && t.pinloc[height][SideIndex(side)][p] == 1 && t.classTypes[t.pinClass[p]] == pinType
  }

  /** The selected pins among `0 .. upTo-1`, in ascending order. */
  function SidePinsUpTo(t: TypeDescriptor, pinType: PinType, side: Side, height: nat, upTo: nat): (pins: seq<int>)
    requires TypeWellFormed(t) && height < t.height && upTo <= t.numPins
    ensures forall i, j :: 0 <= i < j < |pins| ==> pins[i] < pins[j]
    ensures forall p :: p in pins <==> 0 <= p < upTo && PinSelected(t, pinType, side, height, p)
    ensures |pins| <= upTo
  {
    if upTo == 0 then []
    else
      var p := upTo - 1;
      var front := SidePinsUpTo(t, pinType, side, height, p);
      assert forall i :: 0 <= i < |front| ==> front[i] in front;
      front + (if t.pinloc[height][SideIndex(side)][p] == 1 && t.classTypes[t.pinClass[p]] == pinType then [p] else [])
  }

  /** `get_grid_side_pins`: the pins of the tile on `side` at `height` whose
      class has type `pinType`, in ascending order. */
  function SidePins(t: TypeDescriptor, pinType: PinType, side: Side, height: nat): (pins: seq<int>)
    requires TypeWellFormed(t) && height < t.height
    ensures forall i, j :: 0 <= i < j < |pins| ==> pins[i] < pins[j]
    ensures forall p :: p in pins <==> PinSelected(t, pinType, side, height, p)
    ensures |pins| <= t.numPins
  {
    SidePinsUpTo(t, pinType, side, height, t.numPins)
  }

  /** Number of selected pins on `side`, over all heights below `upTo`. */
  function SidePinCount(t: TypeDescriptor, pinType: PinType, side: Side, upTo: nat): (n: nat)
    requires TypeWellFormed(t) && upTo <= t.height
  {
    if upTo == 0 then 0
    else SidePinCount(t, pinType, side, upTo - 1) + |SidePins(t, pinType, side, upTo - 1)|
  }

  const SIDES: seq<Side> := [Top, Right, Bottom, Left]

  /** Whether `get_grid_num_pins` counts side `s`: every side, or only the
      I/O side of an I/O tile. */
  predicate SideCounted(t: TypeDescriptor, ioSide: Side, s: Side) {
    !t.isIO || s == ioSide
  }

  /** `get_grid_num_pins`, over the sides `SIDES[..k]`. */
  function NumPinsOverSides(t: TypeDescriptor, pinType: PinType, ioSide: Side, k: nat): (n: nat)
    requires TypeWellFormed(t) && k <= NUM_SIDES
  {
    if k == 0 then 0
    else
      var s := SIDES[k - 1];
      var here := if SideCounted(t, ioSide, s) then SidePinCount(t, pinType, s, t.height) else 0;
      NumPinsOverSides(t, pinType, ioSide, k - 1) + here
  }

  /** `get_grid_num_pins`: the number of pins of the given type over all
      sides and heights, or over `ioSide` only for an I/O tile. */
  function NumPins(t: TypeDescriptor, pinType: PinType, ioSide: Side): nat
    requires TypeWellFormed(t)
  {
    NumPinsOverSides(t, pinType, ioSide, NUM_SIDES)
  }

  /** Each height of a side lists at most `numPins` pins. */
  lemma {:induction false} SidePinCountBound(t: TypeDescriptor, pinType: PinType, side: Side, upTo: nat)
    requires TypeWellFormed(t) && upTo <= t.height
    ensures SidePinCount(t, pinType, side, upTo) <= upTo * t.numPins
  {
    if upTo > 0 {
      SidePinCountBound(t, pinType, side, upTo - 1);
      assert (upTo - 1) * t.numPins + t.numPins == upTo * t.numPins;
    }
  }

  /** The first `k` sides hold at most `k * height * numPins` pins. */
  lemma {:induction false} NumPinsOverSidesBound(t: TypeDescriptor, pinType: PinType, ioSide: Side, k: nat)
    requires TypeWellFormed(t) && k <= NUM_SIDES
    ensures NumPinsOverSides(t, pinType, ioSide, k) <= k * (t.height * t.numPins)
  {
    if k > 0 {
      NumPinsOverSidesBound(t, pinType, ioSide, k - 1);
      SidePinCountBound(t, pinType, SIDES[k - 1], t.height);
      MulStep(k, t.height * t.numPins);
    }
  }

  lemma MulStep(k: nat, h: nat)
    requires k > 0
    ensures (k - 1) * h + h == k * h
  {
  }

  /** A tile never counts more than every pin on every side and height. */
  lemma NumPinsBound(t: TypeDescriptor, pinType: PinType, ioSide: Side)
    requires TypeWellFormed(t)
    ensures NumPins(t, pinType, ioSide) <= NUM_SIDES * (t.height * t.numPins)
  {
    NumPinsOverSidesBound(t, pinType, ioSide, NUM_SIDES);
  }

  /** An I/O tile counts the pins of its I/O side only; any other tile
      counts all four sides. */
  lemma NumPinsBySide(t: TypeDescriptor, pinType: PinType, ioSide: Side)
    requires TypeWellFormed(t)
    ensures t.isIO ==> NumPins(t, pinType, ioSide) == SidePinCount(t, pinType, ioSide, t.height)
    ensures !t.isIO ==> NumPins(t, pinType, ioSide)
                        == SidePinCount(t, pinType, Top, t.height) + SidePinCount(t, pinType, Right, t.height)
                           + SidePinCount(t, pinType, Bottom, t.height) + SidePinCount(t, pinType, Left, t.height)
  {
    OverSidesStep(t, pinType, ioSide, 1);
    OverSidesStep(t, pinType, ioSide, 2);
    OverSidesStep(t, pinType, ioSide, 3);
    OverSidesStep(t, pinType, ioSide, 4);
  }

  /** One more side in `NumPinsOverSides`. */
  lemma OverSidesStep(t: TypeDescriptor, pinType: PinType, ioSide: Side, k: nat)
    requires TypeWellFormed(t) && 1 <= k <= NUM_SIDES
    ensures NumPinsOverSides(t, pinType, ioSide, k) == NumPinsOverSides(t, pinType, ioSide, k - 1)
            + if SideCounted(t, ioSide, SIDES[k - 1]) then SidePinCount(t, pinType, SIDES[k - 1], t.height) else 0
  {
  }

  /** A non-I/O tile does not depend on the I/O side it is asked about. */
  lemma NumPinsIgnoresIoSideForCore(t: TypeDescriptor, pinType: PinType, s1: Side, s2: Side)
    requires TypeWellFormed(t) && !t.isIO
    ensures NumPins(t, pinType, s1) == NumPins(t, pinType, s2)
  {
    NumPinsBySide(t, pinType, s1);
    NumPinsBySide(t, pinType, s2);
  }

  /** `get_grid_num_classes` over the classes `0 .. upTo-1`: exactly the
      number of those classes whose type is `pinType`. */
  function NumClassesUpTo(classTypes: seq<PinType>, pinType: PinType, upTo: nat): (n: nat)
    requires upTo <= |classTypes|
    ensures n == Count(classTypes[..upTo], pinType)
    ensures n <= upTo
  {
    if upTo == 0 then 0
    else
      CountPrefix(classTypes, upTo - 1, pinType);
      NumClassesUpTo(classTypes, pinType, upTo - 1) + (if classTypes[upTo - 1] == pinType then 1 else 0)
  }

  /** `get_grid_num_classes`: the number of classes of the given type, and
      zero exactly when the tile has no class of that type. */
  function NumClasses(t: TypeDescriptor, pinType: PinType): (n: nat)
    ensures n == Count(t.classTypes, pinType)
    ensures n == 0 <==> pinType !in t.classTypes
    ensures n <= |t.classTypes|
  {
    assert t.classTypes[..|t.classTypes|] == t.classTypes;
    NumClassesUpTo(t.classTypes, pinType, |t.classTypes|)
  }

  /** Every class has exactly one of the three pin types, so the per-type
      counts add up to the number of classes. */
  lemma {:induction false} NumClassesPartition(classTypes: seq<PinType>, upTo: nat)
    requires upTo <= |classTypes|
    ensures NumClassesUpTo(classTypes, Driver, upTo) + NumClassesUpTo(classTypes, Receiver, upTo)
            + NumClassesUpTo(classTypes, Open, upTo) == upTo
  {
    if upTo > 0 {
      NumClassesPartition(classTypes, upTo - 1);
    }
  }

  // ---------------------------------------------------------------------
  // Graph statistics (print_rr_graph_stats, counting part)
  // ---------------------------------------------------------------------

  /** Number of nodes of kind `t` among `g`. */
  function NodesOfType(g: seq<RRNode>, t: RRType): (n: nat)
    ensures n <= |g|
  {
    if g == [] then 0 else NodesOfType(g[..|g| - 1], t) + (if g[|g| - 1].rrType == t then 1 else 0)
  }

  /** Sum of `num_edges` over the nodes of kind `t` among `g`. */
  function EdgesOfType(g: seq<RRNode>, t: RRType): (n: int)
  {
    if g == [] then 0 else EdgesOfType(g[..|g| - 1], t) + (if g[|g| - 1].rrType == t then g[|g| - 1].numEdges else 0)
  }

  /** Sum of `num_edges` over all nodes of `g`. */
  function TotalEdges(g: seq<RRNode>): (n: int)
  {
    if g == [] then 0 else TotalEdges(g[..|g| - 1]) + g[|g| - 1].numEdges
  }

  /** The nodes counted per kind, for the first `k` kinds. */
  function CountsUpTo(g: seq<RRNode>, k: nat): (n: nat)
    requires k <= NUM_RR_TYPES
  {
    if k == 0 then 0 else CountsUpTo(g, k - 1) + NodesOfType(g, RRTypeOfIndex(k - 1))
  }

  /** The per-kind node counts of `print_rr_graph_stats`: the loop over the
      nodes bumps the counter of each node's kind.  Every kind must be a real
      kind: the counter vector has no slot for `NUM_RR_TYPES`. */
  method CountNodesPerType(rrNode: array<RRNode>) returns (perType: seq<nat>)
    requires forall i :: 0 <= i < rrNode.Length ==> rrNode[i].rrType != NumRRTypes
    ensures |perType| == NUM_RR_TYPES
    ensures forall k :: 0 <= k < NUM_RR_TYPES ==> perType[k] == NodesOfType(rrNode[..], RRTypeOfIndex(k))
  {
    perType := seq(NUM_RR_TYPES, _ => 0);
    var inode := 0;
    while inode < rrNode.Length
      invariant 0 <= inode <= rrNode.Length
      invariant |perType| == NUM_RR_TYPES
      invariant forall k :: 0 <= k < NUM_RR_TYPES ==> perType[k] == NodesOfType(rrNode[..inode], RRTypeOfIndex(k))
    {
      var k := RRTypeIndex(rrNode[inode].rrType);
      perType := perType[k := perType[k] + 1];
      assert rrNode[..inode + 1][..inode] == rrNode[..inode];
      inode := inode + 1;
    }
    assert rrNode[..rrNode.Length] == rrNode[..];
  }

  /** The check of `print_rr_graph_stats`: when every node has a real kind,
      the per-kind counts add up to the number of nodes. */
  lemma {:induction false} NodeCountsAddUp(g: seq<RRNode>)
    requires forall i :: 0 <= i < |g| ==> g[i].rrType != NumRRTypes
    ensures CountsUpTo(g, NUM_RR_TYPES) == |g|
    decreases |g|
  {
    if g != [] {
      var f := g[..|g| - 1];
      assert forall i :: 0 <= i < |f| ==> f[i] == g[i];
      NodeCountsAddUp(f);
      CountsStep(g, NUM_RR_TYPES);
      assert g[|g| - 1].rrType != NumRRTypes;
      assert RRTypeIndex(g[|g| - 1].rrType) < NUM_RR_TYPES;
    } else {
      NoNodesNoCounts(g, NUM_RR_TYPES);
    }
  }

  lemma {:induction false} NoNodesNoCounts(g: seq<RRNode>, k: nat)
    requires g == [] && k <= NUM_RR_TYPES
    ensures CountsUpTo(g, k) == 0
  {
    if k > 0 {
      NoNodesNoCounts(g, k - 1);
    }
  }

  lemma {:induction false} CountsStep(g: seq<RRNode>, k: nat)
    requires g != [] && k <= NUM_RR_TYPES
    ensures CountsUpTo(g, k) == CountsUpTo(g[..|g| - 1], k) + (if RRTypeIndex(g[|g| - 1].rrType) < k then 1 else 0)
  {
    if k > 0 {
      CountsStep(g, k - 1);
      RRTypeIndexInjective(g[|g| - 1].rrType, RRTypeOfIndex(k - 1));
    }
  }

  /** Summing `num_edges` per kind or all at once gives the same total. */
  lemma {:induction false} EdgeCountsAddUp(g: seq<RRNode>)
    ensures EdgesOfType(g, Source) + EdgesOfType(g, Sink) + EdgesOfType(g, Ipin) + EdgesOfType(g, Opin)
            + EdgesOfType(g, ChanX) + EdgesOfType(g, ChanY) + EdgesOfType(g, IntraClusterEdge)
            + EdgesOfType(g, NumRRTypes) == TotalEdges(g)
    decreases |g|
  {
    if g != [] {
      EdgeCountsAddUp(g[..|g| - 1]);
    }
  }

  /** The nodes whose `fan_in` sizes a switch-block multiplexer (track
      nodes) or a connection-block multiplexer (input pins). */
  predicate IsSbMux(n: RRNode) { n.rrType == ChanX || n.rrType == ChanY }
  predicate IsCbMux(n: RRNode) { n.rrType == Ipin }

  /** The nodes a statistics pass measures: track nodes for the switch
      blocks (`sb`), input pins for the connection blocks. */
  predicate IsMux(n: RRNode, sb: bool) { if sb then IsSbMux(n) else IsCbMux(n) }

  /** The `fan_in` values of the nodes picked by `sb` (switch blocks) or by
      the input-pin test, in node order: one size per CHANX/CHANY node (or
      per IPIN node), each the `fan_in` of a picked node, and every picked
      node's `fan_in` among them. */
  function MuxSizes(g: seq<RRNode>, sb: bool): (sizes: seq<int>)
    ensures sb ==> |sizes| == NodesOfType(g, ChanX) + NodesOfType(g, ChanY)
    ensures !sb ==> |sizes| == NodesOfType(g, Ipin)
    ensures forall k :: 0 <= k < |sizes| ==> exists i :: 0 <= i < |g| && IsMux(g[i], sb) && g[i].fanIn == sizes[k]
    ensures forall i :: 0 <= i < |g| && IsMux(g[i], sb) ==> g[i].fanIn in sizes
    ensures |sizes| <= |g|
  {
    if g == [] then []
    else
      var last := g[|g| - 1];
      var prefix := g[..|g| - 1];
      var before := MuxSizes(prefix, sb);
      var sizes := before + (if IsMux(last, sb) then [last.fanIn] else []);
      assert forall k :: 0 <= k < |before| ==> sizes[k] == before[k];
      assert forall i :: 0 <= i < |prefix| ==> prefix[i] == g[i];
      sizes
  }

  function SumInts(s: seq<int>): int {
    if s == [] then 0 else SumInts(s[..|s| - 1]) + s[|s| - 1]
  }

  /** Multiplexer statistics: count, maximum (seeded with 0), minimum
      (seeded with the maximum) and average of the sizes. */
  datatype MuxStats = MuxStats(count: nat, maxSize: int, minSize: int, avgSize: int)

  /** The statistics of `print_rr_graph_stats` AS WRITTEN: the average is
      `total / count` with no guard, so the caller must supply a graph with
      at least one multiplexer. */
  function MuxStatsAsWritten(sizes: seq<int>): (r: MuxStats)
    requires |sizes| > 0
    ensures r.count == |sizes|
  {
    var mx := MaxFrom(0, sizes);
    MuxStats(|sizes|, mx, MinFrom(mx, sizes), SumInts(sizes) / |sizes|)
  }

  /** The evidently intended statistics: an empty set of multiplexers
      reports an average of 0 instead of dividing by zero. */
  function MuxStatsGuarded(sizes: seq<int>): (r: MuxStats)
    ensures r.count == |sizes|
    ensures |sizes| > 0 ==> r == MuxStatsAsWritten(sizes)
    ensures |sizes| == 0 ==> r == MuxStats(0, 0, 0, 0)
    ensures forall k :: 0 <= k < |sizes| ==> sizes[k] <= r.maxSize
    ensures forall k :: 0 <= k < |sizes| ==> r.minSize <= sizes[k]
  {
    var mx := MaxFrom(0, sizes);
    MuxStats(|sizes|, mx, MinFrom(mx, sizes), if |sizes| == 0 then 0 else SumInts(sizes) / |sizes|)
  }

  /** `std::max` folded over `s`, starting from `seed`. */
  function MaxFrom(seed: int, s: seq<int>): (m: int)
    ensures seed <= m
    ensures forall k :: 0 <= k < |s| ==> s[k] <= m
    ensures m == seed || m in s
  {
    if s == [] then seed else
      var m := MaxFrom(seed, s[..|s| - 1]);
      if s[|s| - 1] > m then s[|s| - 1] else m
  }

  /** `std::min` folded over `s`, starting from `seed`. */
  function MinFrom(seed: int, s: seq<int>): (m: int)
    ensures m <= seed
    ensures forall k :: 0 <= k < |s| ==> m <= s[k]
    ensures m == seed || m in s
  {
    if s == [] then seed else
      var m := MinFrom(seed, s[..|s| - 1]);
      if s[|s| - 1] < m then s[|s| - 1] else m
  }

  /** A graph without any track node has no switch-block multiplexer, so
      the unguarded average divides by zero. */
  lemma NoTracksNoSbMux(g: seq<RRNode>)
    requires forall i :: 0 <= i < |g| ==> !IsSbMux(g[i])
    ensures MuxSizes(g, true) == []
    ensures MuxStatsGuarded(MuxSizes(g, true)) == MuxStats(0, 0, 0, 0)
  {
    NoSbMuxSizes(g);
  }

  lemma {:induction false} NoSbMuxSizes(g: seq<RRNode>)
    requires forall i :: 0 <= i < |g| ==> !IsSbMux(g[i])
    ensures MuxSizes(g, true) == []
    decreases |g|
  {
    if g != [] {
      NoSbMuxSizes(g[..|g| - 1]);
    }
  }
}
