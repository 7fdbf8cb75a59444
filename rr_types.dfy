/** The routing-resource data model of `vpr_types.h`: node kinds, track
    directions, the routing-resource node record, switch-block and
    connection-block records, and the cost-index constants.

    Only the integer part of each record is kept: electrical values (R, C,
    intrinsic costs) and references into other subsystems are not modelled. */
module RRTypes {

  /** `e_direction`, in declaration order. */
  datatype Direction = IncDirection | DecDirection | BiDirection

  /** The integer code of a direction. */
  function DirectionCode(d: Direction): (c: nat)
    ensures c <= 2
    ensures c == 0 <==> d == IncDirection
    ensures c == 1 <==> d == DecDirection
  {
    match d
    case IncDirection => 0
    case DecDirection => 1
    case BiDirection => 2
  }

  function DirectionOfCode(c: nat): (d: Direction)
    requires c <= 2
    ensures DirectionCode(d) == c
  {
    if c == 0 then IncDirection else if c == 1 then DecDirection else BiDirection
  }

  lemma DirectionCodeRoundTrip(d: Direction)
    ensures DirectionOfCode(DirectionCode(d)) == d
  {
  }

  /** `t_rr_type`, in declaration order; `NumRRTypes` is the sentinel. */
  datatype RRType = Source | Sink | Ipin | Opin | ChanX | ChanY | IntraClusterEdge | NumRRTypes

  const NUM_RR_TYPES: nat := 7

  /** The integer value of an `e_rr_type` enumerator. */
  function RRTypeIndex(t: RRType): (i: nat)
    ensures i <= NUM_RR_TYPES
    ensures i == NUM_RR_TYPES <==> t == NumRRTypes
  {
    match t
    case Source => 0
    case Sink => 1
    case Ipin => 2
    case Opin => 3
    case ChanX => 4
    case ChanY => 5
    case IntraClusterEdge => 6
    case NumRRTypes => 7
  }

  function RRTypeOfIndex(i: nat): (t: RRType)
    requires i <= NUM_RR_TYPES
    ensures RRTypeIndex(t) == i
  {
    [Source, Sink, Ipin, Opin, ChanX, ChanY, IntraClusterEdge, NumRRTypes][i]
  }

  /** The enumerators are numbered without gaps or repeats. */
  lemma RRTypeIndexInjective(s: RRType, t: RRType)
    ensures RRTypeIndex(s) == RRTypeIndex(t) ==> s == t
  {
  }

  /** `rr_node_typename`: `NUM_RR_TYPES + 1` names, one per enumerator, in
      the enumerators' order. */
  const RR_NODE_TYPENAME: seq<string> :=
    ["SOURCE", "SINK", "IPIN", "OPIN", "CHANX", "CHANY", "INTRA_CLUSTER_EDGE", "NUM_RR_TYPES"]

  /** The printed name of a node kind. */
  function RRTypeName(t: RRType): (name: string)
    ensures |RR_NODE_TYPENAME| == NUM_RR_TYPES + 1
    ensures name == RR_NODE_TYPENAME[RRTypeIndex(t)]
  {
    match t
    case Source => "SOURCE"
    case Sink => "SINK"
    case Ipin => "IPIN"
    case Opin => "OPIN"
    case ChanX => "CHANX"
    case ChanY => "CHANY"
    case IntraClusterEdge => "INTRA_CLUSTER_EDGE"
    case NumRRTypes => "NUM_RR_TYPES"
  }

  /** The names are pairwise distinct, so a name identifies its kind. */
  lemma RRTypeNamesDistinct(s: RRType, t: RRType)
    ensures RRTypeName(s) == RRTypeName(t) ==> s == t
  {
    if s != t {
      var a, b := RRTypeName(s), RRTypeName(t);
      assert |a| != |b| || a[0] != b[0] || a[1] != b[1] || a[|a| - 1] != b[|b| - 1];
    }
  }

  /** `e_cost_indices`: the first four entries of the indexed-cost table
      belong to the four pin-like kinds; CHANX entries start after them. */
  const SOURCE_COST_INDEX: nat := 0
  const SINK_COST_INDEX: nat := 1
  const OPIN_COST_INDEX: nat := 2
  const IPIN_COST_INDEX: nat := 3
  const CHANX_COST_INDEX_START: nat := 4

  /** The fixed cost index of a pin-like node kind. */
  function PinCostIndex(t: RRType): (i: nat)
    requires t in {Source, Sink, Opin, Ipin}
    ensures i < CHANX_COST_INDEX_START
  {
    match t
    case Source => SOURCE_COST_INDEX
    case Sink => SINK_COST_INDEX
    case Opin => OPIN_COST_INDEX
    case Ipin => IPIN_COST_INDEX
  }

  /** The four pin-like kinds own the four distinct fixed cost indices. */
  lemma PinCostIndicesDistinct(s: RRType, t: RRType)
    requires s in {Source, Sink, Opin, Ipin} && t in {Source, Sink, Opin, Ipin}
    ensures PinCostIndex(s) == PinCostIndex(t) ==> s == t
  {
  }

  /** `t_rr_node`, integer fields only.  `edges` and `switches` are the two
      parallel arrays of the C record; `num_edges` is kept as its own field
      because the source keeps it separately from the arrays. */
  datatype RRNode = RRNode(
    xlow: int, xhigh: int, ylow: int, yhigh: int,
    ptcNum: int,
    trackIds: seq<int>,
    costIndex: int,
    occ: int,
    capacity: int,
    fanIn: int,
    numEdges: int,
    rrType: RRType,
    edges: seq<int>,
    switches: seq<int>,
    direction: Direction)

  /** `edges[0..num_edges-1]` and `switches[0..num_edges-1]` are parallel:
      switch `i` drives edge `i`. */
  predicate EdgeArraysAgree(n: RRNode) {
    n.numEdges == |n.edges| && |n.switches| == |n.edges|
  }

  /** Direction is meaningful only for track nodes. */
  predicate IsTrack(n: RRNode) {
    n.rrType == ChanX || n.rrType == ChanY
  }

  /** A node occupies a single grid location (pins, sources, sinks and
      segments of length 1). */
  predicate IsPoint(n: RRNode) {
    n.xlow == n.xhigh && n.ylow == n.yhigh
  }

  /** Sides of a switch or connection block, in the order of `e_side`. */
  datatype Side = Top | Right | Bottom | Left

  const NUM_SIDES: nat := 4

  function SideIndex(s: Side): (i: nat)
    ensures i < NUM_SIDES
  {
    match s
    case Top => 0
    case Right => 1
    case Bottom => 2
    case Left => 3
  }

  /** The side across the tile. */
  function Opposite(s: Side): (o: Side)
    ensures o != s
    ensures (SideIndex(o) + 2) % NUM_SIDES == SideIndex(s)
  {
    match s
    case Top => Bottom
    case Right => Left
    case Bottom => Top
    case Left => Right
  }

  /** The per-side bookkeeping shared by `t_sb` and `t_cb` (references to
      nodes are replaced by node ids). */
  datatype SideBlocks = SideBlocks(
    numSides: nat,
    chanWidth: seq<nat>,
    chanRRNode: seq<seq<int>>,
    ipinRRNode: seq<seq<int>>,
    opinRRNode: seq<seq<int>>,
    numReservedConfBits: nat,
    confBitsLsb: int,
    confBitsMsb: int,
    offsetIpin: seq<int>,
    offsetOpin: seq<int>,
    offsetChan: seq<int>)

  /** `num_sides` is fixed to 4 and every per-side array is indexed
      `[0..num_sides-1]`; each side holds `chan_width` channel nodes. */
  predicate SideBlocksWellFormed(b: SideBlocks) {
    && b.numSides == NUM_SIDES
    && |b.chanWidth| == b.numSides && |b.chanRRNode| == b.numSides
    && |b.ipinRRNode| == b.numSides && |b.opinRRNode| == b.numSides
    && |b.offsetIpin| == b.numSides && |b.offsetOpin| == b.numSides && |b.offsetChan| == b.numSides
    && (forall s :: 0 <= s < b.numSides ==> |b.chanRRNode[s]| == b.chanWidth[s])
  }

  /** `t_sb`: a switch block at `(x, y)`; `mirror` and `rotatable` name
      another block by its coordinate. */
  datatype SwitchBlock = SwitchBlock(x: int, y: int, blocks: SideBlocks,
                                     mirror: BlockRef, rotatable: BlockRef)

  /** `t_cb`: a connection block, whose type can only be CHANX or CHANY. */
  datatype ConnectionBlock = ConnectionBlock(cbType: RRType, x: int, y: int, blocks: SideBlocks,
                                             mirror: BlockRef, rotatable: BlockRef)

  /** An optional coordinate reference to an equivalent block. */
  datatype BlockRef = NoBlock | BlockAt(refX: int, refY: int)

  predicate ConnectionBlockWellFormed(cb: ConnectionBlock) {
    (cb.cbType == ChanX || cb.cbType == ChanY) && SideBlocksWellFormed(cb.blocks)
  }

  /** The empty per-side bookkeeping of a block with `numSides == 4`. */
  function EmptySideBlocks(): (b: SideBlocks)
    ensures SideBlocksWellFormed(b)
    ensures forall s :: 0 <= s < b.numSides ==> b.chanWidth[s] == 0 && b.offsetChan[s] == 0
  {
    SideBlocks(NUM_SIDES, [0, 0, 0, 0], [[], [], [], []], [[], [], [], []], [[], [], [], []],
               0, 0, 0, [0, 0, 0, 0], [0, 0, 0, 0], [0, 0, 0, 0])
  }
}
