# OpenFPGA (VPR7 X2P) core, modelled in Dafny

This project models five integer-level pieces of the OpenFPGA / VPR7 X2P
FPGA tool flow and proves properties of them. Each source file has its own
Dafny module.

- **`RRTypes`** (`rr_types.dfy`) is the routing-resource data model of
  `vpr_types.h`. It covers:
  - the node kinds (`t_rr_type`) and their names (`rr_node_typename`);
  - track directions (`e_direction`) and their integer codes;
  - the integer fields of the `t_rr_node` record, where `edges` and
    `switches` are parallel lists of length `num_edges`;
  - the four-sided switch-block and connection-block records;
  - the pin cost-index constants.
- **`RRGraphBuilder`** (`rr_graph_builder.dfy`) models the helpers of the
  tileable routing-resource-graph builder:
  - node initialisation;
  - adding one edge, or a batch of edges, to a node, with `fan_in` kept
    up to date on the destination;
  - the start and end coordinates and the end track id of a routing track;
  - the single pin side of a perimeter I/O tile;
  - enumerating and counting a tile's pins and pin classes;
  - the integer counts of the graph statistics.

  The graph is an `array<RRNode>` that the edge methods update in place.
  Each method is proved against a pure function of the old graph. Two
  invariants are proved to be preserved:
  - *parallel arrays*: every node's edge and switch lists have length
    `num_edges`;
  - *fan-in accounting*: every node's `fan_in` equals the number of edges
    that end at it.
- **`DevicePort`** (`device_port.dfy`) models the `BasicPort` and
  `ConfPorts` classes:
  - a port is an `[lsb, msb]` range over 64-bit `size_t`, with an explicit
    invalid encoding `lsb = 1, msb = 0`;
  - wrap-around is written out.

  Both classes keep their fields and mutate them in place. Each mutator is
  proved against a pure function on `Port` values. The round trips and
  corner cases are lemmas about those functions.
- **`CompactNetlist`** (`compact_netlist.dfy`) models the
  configuration-bit bookkeeping of the compact Verilog netlist writer:
  - the order in which grid tiles are visited: the core column by column,
    then the top, right, bottom and left borders;
  - the half-open range of configuration bits that a running counter gives
    each visited tile, stored in the `SramOrgzInfo` class, whose fields
    are 2-D arrays;
  - the per-model SRAM, scan-chain and I/O-pad counters, which advance the
    same way;
  - the per-instance ranges inside one physical block;
  - the snapshot and restore of the counters around module emission;
  - the instantiation pass and its skip rules;
  - grid module names.

  The nested loops are methods with invariants. They are proved against a
  fold (`PassAlong`) over an explicit visiting order (`AllocationOrder`).
  Contiguity, disjointness and order are then proved about that fold.
- **`ArchReader`** (`arch_reader.dfy`) models the integer and character
  rules of the architecture reader `read_xml_arch_file.c`:
  - the CB/SB depopulation pattern parser;
  - the default pattern lists of a segment;
  - the inherited power-estimation method;
  - the pin-class numbering of a block type;
  - the port numbering of user models;
  - switch-name resolution;
  - the duplicate-name and offset checks on switches and direct links.

  The XML tree is replaced by the attribute strings and element text that
  each rule reads.

`Common` (`common.dfy`) holds `Option`, `Result` and counting helpers.
Every fatal `exit(1)` path becomes an `Err` result. Every `assert` in the
source becomes a precondition or a proved fact.

## Model

| member | source | states |
|---|---|---|
| RRTypes.DirectionCode | vpr7_x2p/vpr/SRC/base/vpr_types.h:855-857 | INC is 0, DEC is 1, and every code is at most 2 (BI is 2) |
| RRTypes.DirectionOfCode | vpr7_x2p/vpr/SRC/base/vpr_types.h:855-857 | maps each code 0..2 back to a direction with that code |
| RRTypes.DirectionCodeRoundTrip | vpr7_x2p/vpr/SRC/base/vpr_types.h:855-857 | decoding the code of a direction gives back the direction |
| RRTypes.RRTypeIndex | vpr7_x2p/vpr/SRC/base/vpr_types.h:913-915 | the node kinds are numbered 0..NUM_RR_TYPES in declaration order, and NUM_RR_TYPES is the sentinel's number alone |
| RRTypes.RRTypeOfIndex | vpr7_x2p/vpr/SRC/base/vpr_types.h:913-915 | every number 0..NUM_RR_TYPES is the number of some node kind |
| RRTypes.RRTypeIndexInjective | vpr7_x2p/vpr/SRC/base/vpr_types.h:913-915 | distinct node kinds have distinct numbers |
| RRTypes.RRTypeName | vpr7_x2p/vpr/SRC/base/vpr_types.h:917-919 | the name table has NUM_RR_TYPES + 1 entries, and a kind's name is the entry at its number |
| RRTypes.RRTypeNamesDistinct | vpr7_x2p/vpr/SRC/base/vpr_types.h:917-919 | distinct node kinds have distinct names |
| RRTypes.PinCostIndex | vpr7_x2p/vpr/SRC/base/vpr_types.h:1108-1114 | the four pin kinds have cost indices below CHANX_COST_INDEX_START |
| RRTypes.PinCostIndicesDistinct | vpr7_x2p/vpr/SRC/base/vpr_types.h:1108-1114 | the four pin kinds have distinct cost indices |
| RRTypes.Opposite | vpr7_x2p/vpr/SRC/base/vpr_types.h:1151 | the opposite side differs from the side and is two positions away in the four-side order |
| RRTypes.EmptySideBlocks | vpr7_x2p/vpr/SRC/base/vpr_types.h:1176-1180 | a fresh side record has num_sides = 4, per-side arrays of length 4, and zero channel widths and offsets |
| RRGraphBuilder.InDegree | vpr7_x2p/vpr/SRC/base/vpr_types.h:1044-1049 | the number of edges over all nodes that end at a node; it is 0 in the empty graph |
| RRGraphBuilder.InDegreeAfterAppend | vpr7_x2p/vpr/SRC/base/vpr_types.h:1044-1049 | appending targets to one node's edge list raises every node's in-degree by its count among the appended targets |
| RRGraphBuilder.InitRRNodeAsWritten | vpr7_x2p/vpr/SRC/device/rr_graph/rr_graph_builder_utils.cpp:52-113 | as written, the node keeps its old yhigh, and xlow, xhigh, ylow, fan_in and the edge lists are cleared |
| RRGraphBuilder.InitRRNode | vpr7_x2p/vpr/SRC/device/rr_graph/rr_graph_builder_utils.cpp:52-113 | the initialised node is a point at (0, 0) with no edges and fan_in 0, type NUM_RR_TYPES, BI direction and no track ids |
| RRGraphBuilder.InitAsWrittenKeepsYHigh | vpr7_x2p/vpr/SRC/device/rr_graph/rr_graph_builder_utils.cpp:53-56 | on a node with yhigh = 5, the initialisation as written does not yield a point, and the corrected one does |
| RRGraphBuilder.InitRRNodeAt | vpr7_x2p/vpr/SRC/device/rr_graph/rr_graph_builder_utils.cpp:52-113 | the in-place reset with the corrected field set: only the node at the index changes, and it becomes the corrected node InitRRNode (yhigh cleared too, unlike line 55) |
| RRGraphBuilder.FreshGraphConsistent | vpr7_x2p/vpr/SRC/base/vpr_types.h:1044-1049 | a graph of nodes without edges and with fan_in 0 meets both invariants |
| RRGraphBuilder.AddOneEdgeSpec | vpr7_x2p/vpr/SRC/device/rr_graph/rr_graph_builder_utils.cpp:225-257 | src gets (des, switch) appended after its old edges and num_edges + 1; des gets fan_in + 1; every other node is unchanged |
| RRGraphBuilder.AddOneEdge | vpr7_x2p/vpr/SRC/device/rr_graph/rr_graph_builder_utils.cpp:230-254 | the in-place update of the node array equals AddOneEdgeSpec of the old array, with both ids in range |
| RRGraphBuilder.AddOneEdgeKeepsInvariants | vpr7_x2p/vpr/SRC/device/rr_graph/rr_graph_builder_utils.cpp:236-254 | adding one edge keeps the edge and switch lists parallel and keeps fan_in equal to the in-degree |
| RRGraphBuilder.AddOneEdgeTwiceIsParallel | vpr7_x2p/vpr/SRC/device/rr_graph/rr_graph_builder_utils.cpp:225-257 | adding the same edge twice records two parallel edges and raises des's fan_in by 2 (no deduplication) |
| RRGraphBuilder.NumKept | vpr7_x2p/vpr/SRC/device/rr_graph/rr_graph_builder_utils.cpp:287-304 | at most the number of requested targets survives the redundancy filter |
| RRGraphBuilder.KeptAt | vpr7_x2p/vpr/SRC/device/rr_graph/rr_graph_builder_utils.cpp:287-304 | the values that survive the filter, one per surviving target |
| RRGraphBuilder.NewTargetsCount | vpr7_x2p/vpr/SRC/device/rr_graph/rr_graph_builder_utils.cpp:287-304 | a target already in the edge list survives 0 times; any other target survives as often as it was requested |
| RRGraphBuilder.AddEdgesSpec | vpr7_x2p/vpr/SRC/device/rr_graph/rr_graph_builder_utils.cpp:265-342 | src gets the surviving targets and their switches appended in input order, and num_edges grows by their number; each node's fan_in grows by its count among them; nothing else changes |
| RRGraphBuilder.IsRedundant | vpr7_x2p/vpr/SRC/device/rr_graph/rr_graph_builder_utils.cpp:289-295 | the scan finds a target exactly when it is among the first num_edges edges |
| RRGraphBuilder.CollectNewTargets | vpr7_x2p/vpr/SRC/device/rr_graph/rr_graph_builder_utils.cpp:285-304 | the collected ids and switches are exactly the surviving targets and their switches, in input order |
| RRGraphBuilder.AddEdges | vpr7_x2p/vpr/SRC/device/rr_graph/rr_graph_builder_utils.cpp:265-342 | the in-place update of the node array equals AddEdgesSpec of the old array |
| RRGraphBuilder.FillNewEdges | vpr7_x2p/vpr/SRC/device/rr_graph/rr_graph_builder_utils.cpp:307-338 | after the write loop, every new slot holds its target and switch, and each target's fan_in is raised once per occurrence |
| RRGraphBuilder.WriteEdge | vpr7_x2p/vpr/SRC/device/rr_graph/rr_graph_builder_utils.cpp:322-334 | one loop step writes one slot of src and raises one destination's fan_in |
| RRGraphBuilder.AddEdgesStaysWellFormed | vpr7_x2p/vpr/SRC/device/rr_graph/rr_graph_builder_utils.cpp:306-338 | after a batch add, the edge and switch lists stay parallel and every edge target is in range |
| RRGraphBuilder.AddEdgesKeepsInvariants | vpr7_x2p/vpr/SRC/device/rr_graph/rr_graph_builder_utils.cpp:306-338 | a batch add keeps both graph invariants, including fan_in equal to the in-degree |
| RRGraphBuilder.AddEdgesTwiceIsOnce | vpr7_x2p/vpr/SRC/device/rr_graph/rr_graph_builder_utils.cpp:287-304 | repeating the same batch add changes nothing, because every target is now already present |
| RRGraphBuilder.AddEdgesKeepsDuplicatesWithinBatch | vpr7_x2p/vpr/SRC/device/rr_graph/rr_graph_builder_utils.cpp:287-304 | a new target requested twice in one batch is added twice, and its fan_in rises by 2 |
| RRGraphBuilder.AddEdgesKeepsTargetsDistinct | vpr7_x2p/vpr/SRC/device/rr_graph/rr_graph_builder_utils.cpp:287-304 | if the old edges and the batch are each free of duplicates, so is the new edge list |
| RRGraphBuilder.TrackStart | vpr7_x2p/vpr/SRC/device/rr_graph/rr_graph_builder_utils.cpp:352-366 | a track starts at (xlow, ylow) when INC and at (xhigh, yhigh) when DEC; only CHANX/CHANY tracks with those directions are accepted |
| RRGraphBuilder.TrackEnd | vpr7_x2p/vpr/SRC/device/rr_graph/rr_graph_builder_utils.cpp:376-390 | a track ends at (xhigh, yhigh) when INC and at (xlow, ylow) when DEC |
| RRGraphBuilder.TrackStartEndSwap | vpr7_x2p/vpr/SRC/device/rr_graph/rr_graph_builder_utils.cpp:352-390 | reversing a track's direction swaps its start and end, and start equals end exactly when the node is a point |
| RRGraphBuilder.EndTrackId | vpr7_x2p/vpr/SRC/device/rr_graph/rr_graph_builder_utils.cpp:400-409 | the end track id is one of the node's track ids: the last for INC and the first for DEC |
| RRGraphBuilder.EndTrackIdOfReversed | vpr7_x2p/vpr/SRC/device/rr_graph/rr_graph_builder_utils.cpp:400-409 | the reversed track ends at the track id where the original starts |
| RRGraphBuilder.IoPinSide | vpr7_x2p/vpr/SRC/device/rr_graph/rr_graph_builder_utils.cpp:127-144 | in priority order: top row gives BOTTOM, right column LEFT, bottom row TOP, left column RIGHT; an interior tile is an error, and only then |
| RRGraphBuilder.IoPinSideFacesCore | vpr7_x2p/vpr/SRC/device/rr_graph/rr_graph_builder_utils.cpp:127-144 | a perimeter I/O tile's pin side is the opposite of the border it sits on, so it faces the core |
| RRGraphBuilder.SidePinsUpTo | vpr7_x2p/vpr/SRC/device/rr_graph/rr_graph_builder_utils.cpp:159-165 | the prefix of the scan holds, strictly ascending, exactly the pins below the bound located on the side and height whose class has the pin type |
| RRGraphBuilder.SidePins | vpr7_x2p/vpr/SRC/device/rr_graph/rr_graph_builder_utils.cpp:151-167 | exactly the pins of the tile on that side and height whose class has the pin type, strictly ascending, at most num_pins of them |
| RRGraphBuilder.SidePinCountBound | vpr7_x2p/vpr/SRC/device/rr_graph/rr_graph_builder_utils.cpp:189-192 | summed over the first heights, the side's pin lists hold at most heights × num_pins pins |
| RRGraphBuilder.NumPinsOverSidesBound | vpr7_x2p/vpr/SRC/device/rr_graph/rr_graph_builder_utils.cpp:181-193 | over the first k sides the count is at most k × height × num_pins |
| RRGraphBuilder.NumPinsBound | vpr7_x2p/vpr/SRC/device/rr_graph/rr_graph_builder_utils.cpp:174-196 | a tile's pin count is at most 4 × height × num_pins |
| RRGraphBuilder.NumPinsBySide | vpr7_x2p/vpr/SRC/device/rr_graph/rr_graph_builder_utils.cpp:174-196 | an I/O tile counts only the pins of its I/O side over all heights; any other tile counts the pins of all four sides over all heights |
| RRGraphBuilder.NumPinsIgnoresIoSideForCore | vpr7_x2p/vpr/SRC/device/rr_graph/rr_graph_builder_utils.cpp:184-187 | for a non-I/O tile the io_side argument does not change the count |
| RRGraphBuilder.NumClassesUpTo | vpr7_x2p/vpr/SRC/device/rr_graph/rr_graph_builder_utils.cpp:207-213 | the number of classes among the first upTo whose type is the pin type, exactly |
| RRGraphBuilder.NumClasses | vpr7_x2p/vpr/SRC/device/rr_graph/rr_graph_builder_utils.cpp:203-216 | exactly the number of the tile's classes whose type is the pin type; zero exactly when the tile has no such class |
| RRGraphBuilder.NumClassesPartition | vpr7_x2p/vpr/SRC/device/rr_graph/rr_graph_builder_utils.cpp:203-216 | the DRIVER, RECEIVER and OPEN class counts add up to the number of classes |
| RRGraphBuilder.CountNodesPerType | vpr7_x2p/vpr/SRC/device/rr_graph/rr_graph_builder_utils.cpp:520-527 | entry k of the per-type table is the number of nodes whose kind has number k |
| RRGraphBuilder.NodesOfType | vpr7_x2p/vpr/SRC/device/rr_graph/rr_graph_builder_utils.cpp:520-527 | the number of nodes of one kind is at most the number of nodes |
| RRGraphBuilder.NodeCountsAddUp | vpr7_x2p/vpr/SRC/device/rr_graph/rr_graph_builder_utils.cpp:566-577 | the per-type node counts add up to the number of nodes, which is the check the statistics assert |
| RRGraphBuilder.EdgeCountsAddUp | vpr7_x2p/vpr/SRC/device/rr_graph/rr_graph_builder_utils.cpp:579-590 | the per-type edge counts add up to the total edge count |
| RRGraphBuilder.MuxSizes | vpr7_x2p/vpr/SRC/device/rr_graph/rr_graph_builder_utils.cpp:609-636 | one size per CHANX/CHANY node (SB) or per IPIN node (CB), so the multiplexer count is that node count; every size is the fan_in of such a node, and every such node's fan_in is among the sizes |
| RRGraphBuilder.MaxFrom | vpr7_x2p/vpr/SRC/device/rr_graph/rr_graph_builder_utils.cpp:608-615 | the folded maximum bounds the seed and every size, and is the seed or one of the sizes |
| RRGraphBuilder.MinFrom | vpr7_x2p/vpr/SRC/device/rr_graph/rr_graph_builder_utils.cpp:617-624 | the folded minimum is below the seed and every size, and is the seed or one of the sizes |
| RRGraphBuilder.MuxStatsAsWritten | vpr7_x2p/vpr/SRC/device/rr_graph/rr_graph_builder_utils.cpp:606-673 | as written, the average divides by the multiplexer count, so it is defined only when there is a multiplexer |
| RRGraphBuilder.MuxStatsGuarded | vpr7_x2p/vpr/SRC/device/rr_graph/rr_graph_builder_utils.cpp:606-673 | equals the as-written statistics when there is a multiplexer and is all zero otherwise; the maximum bounds every size and the minimum is below every size |
| RRGraphBuilder.NoTracksNoSbMux | vpr7_x2p/vpr/SRC/device/rr_graph/rr_graph_builder_utils.cpp:627-637 | a graph without track nodes has no SB multiplexer, so the as-written average would divide by zero |
| DevicePort.WrapAdd | vpr7_x2p/vpr/SRC/fpga_x2p/base/device_port.cpp:25 | size_t addition: the exact sum below 2^64, otherwise the sum minus 2^64 |
| DevicePort.Width | vpr7_x2p/vpr/SRC/fpga_x2p/base/device_port.cpp:23-28 | 0 for an invalid port, otherwise msb - lsb + 1; zero exactly for invalid ports and the wrapped full range |
| DevicePort.Invalid | vpr7_x2p/vpr/SRC/fpga_x2p/base/device_port.cpp:167-172 | the canonical invalid port is not valid and has width 0 |
| DevicePort.Sized | vpr7_x2p/vpr/SRC/fpga_x2p/base/device_port.cpp:50-58 | the port has exactly the requested width: invalid for 0, otherwise valid and starting at bit 0 |
| DevicePort.Ranged | vpr7_x2p/vpr/SRC/fpga_x2p/base/device_port.cpp:61-70 | exactly [lsb, msb] when lsb <= msb, otherwise the invalid port |
| DevicePort.Expanded | vpr7_x2p/vpr/SRC/fpga_x2p/base/device_port.cpp:83-96 | width 0 is a no-op; a port of width 0 becomes [0, w], one bit wider than w; otherwise lsb is kept and the width grows by w |
| DevicePort.Reverted | vpr7_x2p/vpr/SRC/fpga_x2p/base/device_port.cpp:99-102 | lsb and msb are swapped, so a port wider than one bit becomes invalid |
| DevicePort.Rotated | vpr7_x2p/vpr/SRC/fpga_x2p/base/device_port.cpp:105-122 | offset 0 or width 0 succeeds unchanged; overflow past SIZE_MAX fails unchanged; otherwise both ends move up by the offset; the width never changes |
| DevicePort.CounterRotated | vpr7_x2p/vpr/SRC/fpga_x2p/base/device_port.cpp:125-142 | offset 0 or width 0 succeeds unchanged; lsb < offset fails unchanged; otherwise both ends move down; the width never changes |
| DevicePort.Combined | vpr7_x2p/vpr/SRC/fpga_x2p/base/device_port.cpp:151-162 | needs a port of non-zero width; a port of width 0 stays unchanged; lsb is kept and the width grows by the other port's width |
| DevicePort.RotateThenCounterRotate | vpr7_x2p/vpr/SRC/fpga_x2p/base/device_port.cpp:105-142 | a successful rotation is undone by the counter rotation by the same offset |
| DevicePort.CounterRotateThenRotate | vpr7_x2p/vpr/SRC/fpga_x2p/base/device_port.cpp:105-142 | a successful counter rotation is undone by the rotation by the same offset |
| DevicePort.RotateFailsOnlyOnOverflow | vpr7_x2p/vpr/SRC/fpga_x2p/base/device_port.cpp:105-122 | rotation fails exactly when the port has width, the offset is positive, and msb + offset exceeds SIZE_MAX |
| DevicePort.RevertTwice | vpr7_x2p/vpr/SRC/fpga_x2p/base/device_port.cpp:99-102 | reverting twice restores the port |
| DevicePort.ExpandInvalidIsOneWider | vpr7_x2p/vpr/SRC/fpga_x2p/base/device_port.cpp:83-96 | expanding an invalid port by w gives width w + 1, the same as expanding a one-bit port |
| DevicePort.FullRangeHasZeroWidth | vpr7_x2p/vpr/SRC/fpga_x2p/base/device_port.cpp:23-28 | the valid range [0, SIZE_MAX] wraps to width 0, so expanding it restarts at bit 0 |
| DevicePort.BasicPort.constructor | vpr7_x2p/vpr/SRC/fpga_x2p/base/device_port.cpp:10-14 | a new port is the invalid port |
| DevicePort.BasicPort.Copy | vpr7_x2p/vpr/SRC/fpga_x2p/base/device_port.cpp:17-19 | the copy has the other port's lsb and msb |
| DevicePort.BasicPort.Set | vpr7_x2p/vpr/SRC/fpga_x2p/base/device_port.cpp:42-47 | the port takes the other port's lsb and msb |
| DevicePort.BasicPort.SetWidth | vpr7_x2p/vpr/SRC/fpga_x2p/base/device_port.cpp:50-58 | the port becomes Sized(width) |
| DevicePort.BasicPort.SetRange | vpr7_x2p/vpr/SRC/fpga_x2p/base/device_port.cpp:61-70 | the port becomes Ranged(lsb, msb) |
| DevicePort.BasicPort.SetLsb | vpr7_x2p/vpr/SRC/fpga_x2p/base/device_port.cpp:72-75 | only lsb changes |
| DevicePort.BasicPort.SetMsb | vpr7_x2p/vpr/SRC/fpga_x2p/base/device_port.cpp:77-80 | only msb changes |
| DevicePort.BasicPort.Expand | vpr7_x2p/vpr/SRC/fpga_x2p/base/device_port.cpp:83-96 | the port becomes Expanded of its old value |
| DevicePort.BasicPort.Revert | vpr7_x2p/vpr/SRC/fpga_x2p/base/device_port.cpp:99-102 | the port becomes Reverted of its old value |
| DevicePort.BasicPort.Rotate | vpr7_x2p/vpr/SRC/fpga_x2p/base/device_port.cpp:105-122 | the success flag and the new port are Rotated of the old port |
| DevicePort.BasicPort.CounterRotate | vpr7_x2p/vpr/SRC/fpga_x2p/base/device_port.cpp:125-142 | the success flag and the new port are CounterRotated of the old port |
| DevicePort.BasicPort.Reset | vpr7_x2p/vpr/SRC/fpga_x2p/base/device_port.cpp:145-148 | the port becomes the invalid port |
| DevicePort.BasicPort.Combine | vpr7_x2p/vpr/SRC/fpga_x2p/base/device_port.cpp:151-162 | the port becomes Combined of its old value and the other port, which must have width |
| DevicePort.BasicPort.MakeInvalid | vpr7_x2p/vpr/SRC/fpga_x2p/base/device_port.cpp:167-172 | the port becomes lsb = 1, msb = 0 |
| DevicePort.ConfPorts.constructor | vpr7_x2p/vpr/SRC/fpga_x2p/base/device_port.cpp:186-190 | both ports of a new pair are invalid |
| DevicePort.ConfPorts.Copy | vpr7_x2p/vpr/SRC/fpga_x2p/base/device_port.cpp:193-195 | the copy's regular port has the same lsb and msb; its reserved port has only the same width, starting at bit 0 |
| DevicePort.ConfPorts.Set | vpr7_x2p/vpr/SRC/fpga_x2p/base/device_port.cpp:223-227 | the regular port is copied as a range; the reserved port is rebuilt from its width |
| DevicePort.ConfPorts.SetReservedPort | vpr7_x2p/vpr/SRC/fpga_x2p/base/device_port.cpp:229-232 | the reserved port becomes Sized(width) |
| DevicePort.ConfPorts.SetRegularPort | vpr7_x2p/vpr/SRC/fpga_x2p/base/device_port.cpp:234-237 | the regular port becomes Sized(width) |
| DevicePort.ConfPorts.SetRegularRange | vpr7_x2p/vpr/SRC/fpga_x2p/base/device_port.cpp:239-242 | the regular port becomes Ranged(lsb, msb) |
| DevicePort.ConfPorts.SetRegularPortLsb | vpr7_x2p/vpr/SRC/fpga_x2p/base/device_port.cpp:244-247 | only the regular port's lsb changes |
| DevicePort.ConfPorts.SetRegularPortMsb | vpr7_x2p/vpr/SRC/fpga_x2p/base/device_port.cpp:249-252 | only the regular port's msb changes |
| DevicePort.ConfPorts.ExpandReservedPort | vpr7_x2p/vpr/SRC/fpga_x2p/base/device_port.cpp:255-258 | the reserved port is expanded |
| DevicePort.ConfPorts.ExpandRegularPort | vpr7_x2p/vpr/SRC/fpga_x2p/base/device_port.cpp:261-264 | the regular port is expanded |
| DevicePort.ConfPorts.Expand | vpr7_x2p/vpr/SRC/fpga_x2p/base/device_port.cpp:267-270 | both ports are expanded by the same width |
| DevicePort.ConfPorts.RotateRegularPort | vpr7_x2p/vpr/SRC/fpga_x2p/base/device_port.cpp:273-275 | only the regular port rotates, and the reserved port is unchanged |
| DevicePort.ConfPorts.CounterRotateRegularPort | vpr7_x2p/vpr/SRC/fpga_x2p/base/device_port.cpp:278-280 | only the regular port counter-rotates, and the reserved port is unchanged |
| DevicePort.ConfPorts.Reset | vpr7_x2p/vpr/SRC/fpga_x2p/base/device_port.cpp:283-287 | both ports become invalid |
| DevicePort.ConfPortsCopyKeepsWidths | vpr7_x2p/vpr/SRC/fpga_x2p/base/device_port.cpp:223-227 | copying keeps the reserved width (moved to start at bit 0) and the valid regular range exactly |
| DevicePort.ConfPortsCopyMovesReserved | vpr7_x2p/vpr/SRC/fpga_x2p/base/device_port.cpp:223-227 | a reserved port [4, 7] is copied as [0, 3], which is a different port |
| CompactNetlist.ColumnUpToMembers | vpr7_x2p/vpr/SRC/fpga_x2p/verilog/verilog_compact_netlist.c:188-207 | the tiles visited in a core column so far are exactly the non-empty, zero-offset tiles above row 0 and below the current row |
| CompactNetlist.CoreUpToMembers | vpr7_x2p/vpr/SRC/fpga_x2p/verilog/verilog_compact_netlist.c:187-208 | the core pass visits exactly the non-empty, zero-offset core tiles of the columns done so far |
| CompactNetlist.RowUpTo | vpr7_x2p/vpr/SRC/fpga_x2p/verilog/verilog_compact_netlist.c:213-225 | a border row visits x = 1, 2, ... in order, all on that row |
| CompactNetlist.ColUpTo | vpr7_x2p/vpr/SRC/fpga_x2p/verilog/verilog_compact_netlist.c:228-240 | a border column visits y = 1, 2, ... in order, all in that column |
| CompactNetlist.AllocationOrder | vpr7_x2p/vpr/SRC/fpga_x2p/verilog/verilog_compact_netlist.c:175-269 | every tile of the visiting order lies on the grid |
| CompactNetlist.AllocationOrderMembers | vpr7_x2p/vpr/SRC/fpga_x2p/verilog/verilog_compact_netlist.c:175-269 | a tile is visited exactly when nx, ny > 0 and it is a non-empty, zero-offset core tile or a non-corner border tile |
| CompactNetlist.CornersNeverVisited | vpr7_x2p/vpr/SRC/fpga_x2p/verilog/verilog_compact_netlist.c:213-269 | the four corner tiles are never visited |
| CompactNetlist.AllocationOrderDistinct | vpr7_x2p/vpr/SRC/fpga_x2p/verilog/verilog_compact_netlist.c:187-269 | no tile is visited twice |
| CompactNetlist.TileSize | vpr7_x2p/vpr/SRC/fpga_x2p/verilog/verilog_compact_netlist.c:107-116 | a tile uses capacity × conf_bits configuration bits and capacity × iopads I/O pads |
| CompactNetlist.Total | vpr7_x2p/vpr/SRC/fpga_x2p/verilog/verilog_compact_netlist.c:142-153 | the bits consumed along an empty visiting order are 0 |
| CompactNetlist.TotalMonotone | vpr7_x2p/vpr/SRC/fpga_x2p/verilog/verilog_compact_netlist.c:142-153 | the running total never decreases along the visiting order |
| CompactNetlist.RangeOf | vpr7_x2p/vpr/SRC/fpga_x2p/verilog/verilog_compact_netlist.c:142-148 | a tile's range is half-open and exactly as wide as the tile's size |
| CompactNetlist.RangesContiguous | vpr7_x2p/vpr/SRC/fpga_x2p/verilog/verilog_compact_netlist.c:142-153 | each tile's range starts where the previous one ends; the first starts at the initial counter and the last ends at start + total |
| CompactNetlist.RangesDisjoint | vpr7_x2p/vpr/SRC/fpga_x2p/verilog/verilog_compact_netlist.c:142-153 | an earlier tile's range ends at or before a later tile's range starts |
| CompactNetlist.MeasureOf | vpr7_x2p/vpr/SRC/fpga_x2p/verilog/verilog_compact_netlist.c:94-121 | SRAM and SCFF models count configuration bits, IOPAD models count I/O pads, and the other listed kinds count nothing |
| CompactNetlist.StampModel | vpr7_x2p/vpr/SRC/fpga_x2p/verilog/verilog_compact_netlist.c:92-122 | stamping one tile keeps the model's kind |
| CompactNetlist.StampAll | vpr7_x2p/vpr/SRC/fpga_x2p/verilog/verilog_compact_netlist.c:92-122 | stamping a model along a visiting order keeps its kind |
| CompactNetlist.StampAllAppend | vpr7_x2p/vpr/SRC/fpga_x2p/verilog/verilog_compact_netlist.c:187-269 | stamping along a concatenation is stamping along each part in turn |
| CompactNetlist.StampAllCount | vpr7_x2p/vpr/SRC/fpga_x2p/verilog/verilog_compact_netlist.c:107-116 | a counting model's counter advances by the total size of the visited tiles |
| CompactNetlist.StampAllOutside | vpr7_x2p/vpr/SRC/fpga_x2p/verilog/verilog_compact_netlist.c:108-115 | the low/high tables of an unvisited tile are unchanged |
| CompactNetlist.StampAllRangeAt | vpr7_x2p/vpr/SRC/fpga_x2p/verilog/verilog_compact_netlist.c:107-116 | the j-th visited tile gets low = counter + total before it and high = counter + total through it |
| CompactNetlist.StampAllIdle | vpr7_x2p/vpr/SRC/fpga_x2p/verilog/verilog_compact_netlist.c:95-104 | a model of a non-counting kind is left unchanged by the pass |
| CompactNetlist.ModelRangeIsTileRange | vpr7_x2p/vpr/SRC/fpga_x2p/verilog/verilog_compact_netlist.c:107-116 | a counting model's low/high for the j-th tile is that tile's range in the visiting order |
| CompactNetlist.UpdateOneSpiceModelGridIndex | vpr7_x2p/vpr/SRC/fpga_x2p/verilog/verilog_compact_netlist.c:85-125 | every model in the array is stamped for the tile, in place |
| CompactNetlist.AllocateAlongCounters | vpr7_x2p/vpr/SRC/fpga_x2p/verilog/verilog_compact_netlist.c:137-154 | the memory-bit counter advances by the total; after any visit the BL and WL counts equal it |
| CompactNetlist.AllocateAlongOutside | vpr7_x2p/vpr/SRC/fpga_x2p/verilog/verilog_compact_netlist.c:140-146 | the lsb, msb and reserved tables of an unvisited tile are unchanged |
| CompactNetlist.AllocateAlongAt | vpr7_x2p/vpr/SRC/fpga_x2p/verilog/verilog_compact_netlist.c:140-148 | the j-th visited tile gets lsb = counter + total before it, msb = counter + total through it, and its type's reserved-bit count |
| CompactNetlist.SramOrgzInfo.constructor | vpr7_x2p/vpr/SRC/fpga_x2p/verilog/verilog_compact_netlist.c:131-157 | a new memory organisation has tables of the grid's size and the given counters |
| CompactNetlist.SramOrgzInfo.StampGridIndex | vpr7_x2p/vpr/SRC/fpga_x2p/verilog/verilog_compact_netlist.c:131-157 | one tile's reserved/lsb/msb entries are written in place and the three counters move to the tile's msb |
| CompactNetlist.SramOrgzInfo.SetCounters | vpr7_x2p/vpr/SRC/fpga_x2p/verilog/verilog_compact_netlist.c:153-154 | only the three counters change |
| CompactNetlist.StampEach | vpr7_x2p/vpr/SRC/fpga_x2p/verilog/verilog_compact_netlist.c:92-122 | each model of the list is stamped along the visited tiles independently |
| CompactNetlist.ExtendStamp | vpr7_x2p/vpr/SRC/fpga_x2p/verilog/verilog_compact_netlist.c:200-206 | visiting one more tile stamps the model once more |
| CompactNetlist.StampModels | vpr7_x2p/vpr/SRC/fpga_x2p/verilog/verilog_compact_netlist.c:92-122 | stamping a tile stamps every model of the list and keeps them all listed kinds |
| CompactNetlist.PassAlongExtend | vpr7_x2p/vpr/SRC/fpga_x2p/verilog/verilog_compact_netlist.c:200-206 | the pass over one more tile is one more visit of the models and the memory organisation |
| CompactNetlist.PassAlong | vpr7_x2p/vpr/SRC/fpga_x2p/verilog/verilog_compact_netlist.c:187-269 | the joint pass over models and memory organisation keeps every model a listed kind |
| CompactNetlist.PassAlongAppend | vpr7_x2p/vpr/SRC/fpga_x2p/verilog/verilog_compact_netlist.c:187-269 | the pass over a concatenation is the pass over each part in turn |
| CompactNetlist.RowPassAlong | vpr7_x2p/vpr/SRC/fpga_x2p/verilog/verilog_compact_netlist.c:213-225 | a border-row loop is the pass along that row's tiles |
| CompactNetlist.ColPassAlong | vpr7_x2p/vpr/SRC/fpga_x2p/verilog/verilog_compact_netlist.c:228-240 | a border-column loop is the pass along that column's tiles |
| CompactNetlist.ColumnPassAlong | vpr7_x2p/vpr/SRC/fpga_x2p/verilog/verilog_compact_netlist.c:188-207 | a core-column loop, with its skips, is the pass along the column's visited tiles |
| CompactNetlist.CoreBeforeAlong | vpr7_x2p/vpr/SRC/fpga_x2p/verilog/verilog_compact_netlist.c:187-208 | the core loop over the first columns is the pass along their visited tiles |
| CompactNetlist.VisitTile | vpr7_x2p/vpr/SRC/fpga_x2p/verilog/verilog_compact_netlist.c:200-206 | one visit updates the model array and the memory organisation in place, as one step of the pass |
| CompactNetlist.AllocateCoreColumn | vpr7_x2p/vpr/SRC/fpga_x2p/verilog/verilog_compact_netlist.c:188-207 | the inner core loop updates the state as the column pass does, skipping empty and non-zero-offset tiles |
| CompactNetlist.AllocateCore | vpr7_x2p/vpr/SRC/fpga_x2p/verilog/verilog_compact_netlist.c:187-208 | the nested core loops update the state as the core pass does |
| CompactNetlist.AllocateRow | vpr7_x2p/vpr/SRC/fpga_x2p/verilog/verilog_compact_netlist.c:213-225 | a border-row loop over I/O tiles updates the state as the row pass does |
| CompactNetlist.AllocateColumn | vpr7_x2p/vpr/SRC/fpga_x2p/verilog/verilog_compact_netlist.c:228-240 | a border-column loop over I/O tiles updates the state as the column pass does |
| CompactNetlist.AllocateBorders | vpr7_x2p/vpr/SRC/fpga_x2p/verilog/verilog_compact_netlist.c:210-269 | the four border loops run top, right, bottom, left in that order |
| CompactNetlist.PassLoopsFollowOrder | vpr7_x2p/vpr/SRC/fpga_x2p/verilog/verilog_compact_netlist.c:187-269 | the core loops followed by the four border loops are exactly the pass along the visiting order |
| CompactNetlist.UpdateGridSpiceModelAndSramOrgzInfo | vpr7_x2p/vpr/SRC/fpga_x2p/verilog/verilog_compact_netlist.c:168-275 | with nx or ny zero nothing changes; otherwise the models and memory organisation become the pass along the visiting order |
| CompactNetlist.PassTileRange | vpr7_x2p/vpr/SRC/fpga_x2p/verilog/verilog_compact_netlist.c:140-153 | after the whole pass, each visited tile's lsb/msb is its range in the visiting order and its reserved count is its type's |
| CompactNetlist.PassCounters | vpr7_x2p/vpr/SRC/fpga_x2p/verilog/verilog_compact_netlist.c:107-154 | after the pass, the memory-bit counter and each counting model advanced by the total, BL and WL equal the memory-bit counter, and other models are unchanged |
| CompactNetlist.PassLeavesOthers | vpr7_x2p/vpr/SRC/fpga_x2p/verilog/verilog_compact_netlist.c:187-269 | the tables of a tile the pass does not visit (corners, empty, non-zero-offset) are unchanged |
| CompactNetlist.PassModelRange | vpr7_x2p/vpr/SRC/fpga_x2p/verilog/verilog_compact_netlist.c:107-116 | after the pass, each counting model's low/high for a tile is that tile's range in its own measure |
| CompactNetlist.PassSramAgrees | vpr7_x2p/vpr/SRC/fpga_x2p/verilog/verilog_compact_netlist.c:105-148 | an SRAM/SCFF model whose counter starts at the memory-bit counter gets the same per-tile low/high as the memory organisation's lsb/msb |
| CompactNetlist.Counters | vpr7_x2p/vpr/SRC/fpga_x2p/verilog/verilog_compact_netlist.c:523-525 | the snapshot holds each model's counter, in order |
| CompactNetlist.WithCounters | vpr7_x2p/vpr/SRC/fpga_x2p/verilog/verilog_compact_netlist.c:568-571 | restoring puts back each model's counter and changes nothing else |
| CompactNetlist.RestoreAfterEmission | vpr7_x2p/vpr/SRC/fpga_x2p/verilog/verilog_compact_netlist.c:523-575 | restoring the snapshot after any counter changes gives back the original models |
| CompactNetlist.SnapshotSpiceModelCounter | vpr7_x2p/vpr/SRC/fpga_x2p/verilog/verilog_compact_netlist.c:523-525 | the loop reads out every model's counter |
| CompactNetlist.SetSpiceModelCounter | vpr7_x2p/vpr/SRC/fpga_x2p/verilog/verilog_compact_netlist.c:568-571 | the loop writes every model's counter in place and nothing else |
| CompactNetlist.DumpLogicBlocks | vpr7_x2p/vpr/SRC/fpga_x2p/verilog/verilog_compact_netlist.c:514-587 | whatever module emission does to the counters is undone, so the result is the allocation pass alone from the initial state |
| CompactNetlist.ModuleNamePrefix | vpr7_x2p/vpr/SRC/fpga_x2p/verilog/verilog_compact_netlist.c:46-62 | the prefix starts with the grid prefix |
| CompactNetlist.ModuleName | vpr7_x2p/vpr/SRC/fpga_x2p/verilog/verilog_compact_netlist.c:68-78 | a module name starts with the grid prefix and ends with the type name |
| CompactNetlist.ModuleNamesBySide | vpr7_x2p/vpr/SRC/fpga_x2p/verilog/verilog_compact_netlist.c:46-78 | two sides give the same module name exactly when the type is not I/O or the sides have the same name |
| CompactNetlist.BlockPorts | vpr7_x2p/vpr/SRC/fpga_x2p/verilog/verilog_compact_netlist.c:378-412 | the top module declares pads and configuration bits [0, capacity × count) and reserved bits [0, reserved); each section is printed only when non-empty |
| CompactNetlist.PhysicalBlockPorts | vpr7_x2p/vpr/SRC/fpga_x2p/verilog/verilog_compact_netlist.c:378-493 | instance iz gets [iz × count, (iz + 1) × count), chained from 0; the final msb is capacity × conf_bits, as the source asserts |
| CompactNetlist.InstancesTileBlock | vpr7_x2p/vpr/SRC/fpga_x2p/verilog/verilog_compact_netlist.c:417-493 | each instance starts where the previous one ends; the first starts and the last ends where the block's range does |
| CompactNetlist.InstanceSectionsMatchBlock | vpr7_x2p/vpr/SRC/fpga_x2p/verilog/verilog_compact_netlist.c:395-481 | the block declares SRAM and formal ports exactly when some instance is wired to them |
| CompactNetlist.GridCallPortsAsWritten | vpr7_x2p/vpr/SRC/fpga_x2p/verilog/verilog_compact_netlist.c:630-667 | as written, the formal-verification ports are wired only when the tile's range is wider than one bit |
| CompactNetlist.GridCallPorts | vpr7_x2p/vpr/SRC/fpga_x2p/verilog/verilog_compact_netlist.c:630-667 | the corrected call guards the formal ports like the SRAM ports and agrees with the as-written call on everything else |
| CompactNetlist.FormalPortsAsWrittenMissWidthOne | vpr7_x2p/vpr/SRC/fpga_x2p/verilog/verilog_compact_netlist.c:656-657 | the two guards differ exactly on tiles of one configuration bit, whose module declares formal ports the call omits |
| CompactNetlist.FormalPortsWidthOneWitness | vpr7_x2p/vpr/SRC/fpga_x2p/verilog/verilog_compact_netlist.c:656-657 | a one-bit CLB at (1, 1) is a concrete tile where the module has formal ports and the as-written call does not wire them |
| CompactNetlist.GridCallMatchesBlock | vpr7_x2p/vpr/SRC/fpga_x2p/verilog/verilog_compact_netlist.c:630-667 | after the allocation pass, each tile's instance wires its own range, with the same widths and sections as the block's module declares |
| CompactNetlist.OneGridCall | vpr7_x2p/vpr/SRC/fpga_x2p/verilog/verilog_compact_netlist.c:593-608 | a tile is instantiated once with its border side, and skipped exactly when it is empty or has a non-zero offset |
| CompactNetlist.InstantiateRow | vpr7_x2p/vpr/SRC/fpga_x2p/verilog/verilog_compact_netlist.c:704-713 | the border-row loop produces the row's calls in x order |
| CompactNetlist.InstantiateColumn | vpr7_x2p/vpr/SRC/fpga_x2p/verilog/verilog_compact_netlist.c:715-724 | the border-column loop produces the column's calls in y order |
| CompactNetlist.InstantiateCoreColumn | vpr7_x2p/vpr/SRC/fpga_x2p/verilog/verilog_compact_netlist.c:691-699 | the inner core loop produces the column's calls with side -1 |
| CompactNetlist.InstantiateCore | vpr7_x2p/vpr/SRC/fpga_x2p/verilog/verilog_compact_netlist.c:690-700 | the nested core loops produce the core's calls column by column |
| CompactNetlist.DefinedGrids | vpr7_x2p/vpr/SRC/fpga_x2p/verilog/verilog_compact_netlist.c:679-751 | the calls are the core's, then top (0), right (1), bottom (2) and left (3) borders |
| CompactNetlist.CoreCalls | vpr7_x2p/vpr/SRC/fpga_x2p/verilog/verilog_compact_netlist.c:690-700 | the core loops instantiate exactly the core tiles the allocation visits, with side -1 |
| CompactNetlist.BorderCalls | vpr7_x2p/vpr/SRC/fpga_x2p/verilog/verilog_compact_netlist.c:704-747 | each border loop instantiates every tile of its border with its side index: top 0, right 1, bottom 2, left 3 |
| CompactNetlist.LayoutMeetsInstantiation | vpr7_x2p/vpr/SRC/fpga_x2p/verilog/verilog_compact_netlist.c:690-744 | a device layout that passes the allocation pass's assertions also passes the instantiation pass's |
| CompactNetlist.DefinedGridsFollowAllocation | vpr7_x2p/vpr/SRC/fpga_x2p/verilog/verilog_compact_netlist.c:679-751 | the instantiated tiles, in order, are exactly the allocation order, so each instance is wired to the range allocated for it |
| ArchReader.TextEnd | vpr7_x2p/libarchfpga/SRC/read_xml_arch_file.c:3385 | the text ends at the first NUL character, or at the end |
| ArchReader.Symbols | vpr7_x2p/libarchfpga/SRC/read_xml_arch_file.c:3385-3424 | the symbols of a text are no more than its characters |
| ArchReader.SymbolsGrow | vpr7_x2p/libarchfpga/SRC/read_xml_arch_file.c:3385-3424 | the number of symbols read never decreases as the scan advances |
| ArchReader.ScanFromMeetsSymbols | vpr7_x2p/libarchfpga/SRC/read_xml_arch_file.c:3385-3431 | from any position the scan succeeds exactly when the text is all blanks and symbols with exactly len symbols, giving those symbols; each error names its cause |
| ArchReader.ParsePatternMeetsSymbols | vpr7_x2p/libarchfpga/SRC/read_xml_arch_file.c:3379-3442 | a pattern parses exactly when the type is "pattern", every character is a blank or T/1/F/0, and there are exactly len symbols; too long, too short, a bad character and a bad type are each reported |
| ArchReader.ProcessCbSb | vpr7_x2p/libarchfpga/SRC/read_xml_arch_file.c:3372-3444 | the loop succeeds or fails as the pattern parser does; on success list[0..len) holds the symbols; entries past len are never written |
| ArchReader.DepopListShape | vpr7_x2p/libarchfpga/SRC/read_xml_arch_file.c:3346-3367 | a list has len entries: all true without a pattern, the pattern's symbols with one |
| ArchReader.FullList | vpr7_x2p/libarchfpga/SRC/read_xml_arch_file.c:3347-3350 | a fresh list of len entries, all true |
| ArchReader.SegmentLists | vpr7_x2p/libarchfpga/SRC/read_xml_arch_file.c:3346-3367 | the CB list has length entries and the SB list length + 1, each the default or the parsed pattern; the first error is reported |
| ArchReader.PowerMethodInherited | vpr7_x2p/libarchfpga/SRC/read_xml_arch_file.c:4139-4159 | the result is always inheritable; an inheritable method (including UNDEFINED) is kept; SUM_OF_CHILDREN gives AUTO_SIZES; C_INTERNAL and ABSOLUTE give IGNORE |
| ArchReader.ClassesOf | vpr7_x2p/libarchfpga/SRC/read_xml_arch_file.c:318-324 | an equivalent port makes one class; any other port makes one per pin |
| ArchReader.Repeated | vpr7_x2p/libarchfpga/SRC/read_xml_arch_file.c:340-341 | capacity instances of the ports give capacity × the number of ports |
| ArchReader.OnePortMore | vpr7_x2p/libarchfpga/SRC/read_xml_arch_file.c:341-378 | one more port adds its pins and classes to the counts, and appends its class records, pin-class ids and global flags to the tables |
| ArchReader.AssignPortPins | vpr7_x2p/libarchfpga/SRC/read_xml_arch_file.c:342-377 | one port's iteration appends exactly that port's class records and pin entries to the arrays, and leaves the tails unwritten |
| ArchReader.AssignSharedClassPins | vpr7_x2p/libarchfpga/SRC/read_xml_arch_file.c:342-377 | an equivalent port's pins all join one new class with consecutive pin numbers |
| ArchReader.AssignOwnClassPins | vpr7_x2p/libarchfpga/SRC/read_xml_arch_file.c:349-374 | each pin of a non-equivalent port gets a class of its own holding only that pin |
| ArchReader.RepeatedCounts | vpr7_x2p/libarchfpga/SRC/read_xml_arch_file.c:318-379 | capacity copies of the ports have capacity times the pins and classes |
| ArchReader.CountPinClasses | vpr7_x2p/libarchfpga/SRC/read_xml_arch_file.c:317-324 | the counting loop gives capacity × the classes of one instance |
| ArchReader.AssignNextPort | vpr7_x2p/libarchfpga/SRC/read_xml_arch_file.c:341-378 | one more port extends the tables to cover one more port |
| ArchReader.AssignInstancePins | vpr7_x2p/libarchfpga/SRC/read_xml_arch_file.c:341-378 | the port loop of one instance extends the tables over that instance's ports |
| ArchReader.OpenPinTables | vpr7_x2p/libarchfpga/SRC/read_xml_arch_file.c:331-334 | every pin_class and is_global_pin entry becomes OPEN |
| ArchReader.AssignAllInstances | vpr7_x2p/libarchfpga/SRC/read_xml_arch_file.c:340-379 | the capacity loop fills the tables for every port of every instance |
| ArchReader.NewPinTables | vpr7_x2p/libarchfpga/SRC/read_xml_arch_file.c:325-334 | fresh zero-filled class records and all-OPEN pin tables of the requested sizes |
| ArchReader.SetupPinClasses | vpr7_x2p/libarchfpga/SRC/read_xml_arch_file.c:316-381 | the class count is capacity × classes per instance; the class, pin-class and global tables are those of the repeated ports; the rest stays OPEN; both final asserts hold |
| ArchReader.TableBounds | vpr7_x2p/libarchfpga/SRC/read_xml_arch_file.c:340-379 | every pin of every class is a numbered pin, and every pin's class id is a valid class |
| ArchReader.PinClassMembership | vpr7_x2p/libarchfpga/SRC/read_xml_arch_file.c:340-379 | a pin is in a class's pin list exactly when the pin's class id is that class |
| ArchReader.ClassesWellFormed | vpr7_x2p/libarchfpga/SRC/read_xml_arch_file.c:342-364 | every class lists exactly num_pins pins, and every class with pins is a DRIVER or a RECEIVER |
| ArchReader.PinsNumberedInOrder | vpr7_x2p/libarchfpga/SRC/read_xml_arch_file.c:340-379 | read class by class, the pin lists are exactly 0, 1, ..., num_pins - 1 |
| ArchReader.ClockFlags | vpr7_x2p/libarchfpga/SRC/read_xml_arch_file.c:3891-3900 | the flags are the inputs' clock bits, in list order |
| ArchReader.FirstUnimplemented | vpr7_x2p/libarchfpga/SRC/read_xml_arch_file.c:3882-3887 | the index of the first model without pb_types, or the number of models |
| ArchReader.NumberInputs | vpr7_x2p/libarchfpga/SRC/read_xml_arch_file.c:3888-3900 | each input gets its rank among the inputs with the same clock flag |
| ArchReader.NumberOutputs | vpr7_x2p/libarchfpga/SRC/read_xml_arch_file.c:3901-3907 | the outputs are numbered 0, 1, ... in list order |
| ArchReader.NumberModelPorts | vpr7_x2p/libarchfpga/SRC/read_xml_arch_file.c:3888-3907 | both of a model's port lists are numbered |
| ArchReader.UpdateAndCheckModels | vpr7_x2p/libarchfpga/SRC/read_xml_arch_file.c:3877-3910 | succeeds exactly when every model has pb_types; otherwise reports the first such model; every model before it is numbered and no later one is touched |
| ArchReader.RankBelowCount | vpr7_x2p/libarchfpga/SRC/read_xml_arch_file.c:3891-3900 | a port's index is below the number of ports with its clock flag |
| ArchReader.RankIncreasing | vpr7_x2p/libarchfpga/SRC/read_xml_arch_file.c:3891-3900 | within one clock flag, the indices increase along the list |
| ArchReader.RankOnto | vpr7_x2p/libarchfpga/SRC/read_xml_arch_file.c:3891-3900 | every index below the count of a flag is some port's index, so each flag's indices are 0..count - 1 |
| ArchReader.MatchName | vpr7_x2p/libarchfpga/SRC/read_xml_arch_file.c:3284-3288 | the result is the first index with an equal name, or the number of names when none matches |
| ArchReader.ResolveSegmentSwitches | vpr7_x2p/libarchfpga/SRC/read_xml_arch_file.c:3279-3343 | a unidirectional segment resolves its mux to the first matching switch, used for both wire and opin; a bidirectional one resolves each switch; a missing name is an error naming it |
| ArchReader.DistinctIffNoneNamedBefore | vpr7_x2p/libarchfpga/SRC/read_xml_arch_file.c:3476-3484 | names are distinct exactly when no name repeats an earlier one |
| ArchReader.NameTaken | vpr7_x2p/libarchfpga/SRC/read_xml_arch_file.c:3477-3484 | the inner loop finds a clash exactly when an earlier switch has the same name |
| ArchReader.CheckSwitchNames | vpr7_x2p/libarchfpga/SRC/read_xml_arch_file.c:3471-3485 | succeeds exactly when the switch names are distinct; otherwise reports the first switch whose name repeats an earlier one |
| ArchReader.DirectNames | vpr7_x2p/libarchfpga/SRC/read_xml_arch_file.c:3599-3609 | the directs' names, in order |
| ArchReader.CheckDirects | vpr7_x2p/libarchfpga/SRC/read_xml_arch_file.c:3596-3656 | succeeds exactly when no direct fails a check; otherwise reports the first failing direct and its first failing check |
| ArchReader.DirectsAccepted | vpr7_x2p/libarchfpga/SRC/read_xml_arch_file.c:3600-3642 | the directs pass exactly when their names are distinct, no direct joins a pin to itself, and none has both offsets zero |

## Left out

- Electrical and floating-point fields (R, C, delays, power, costs) are not modelled. Fields that reference other records are not modelled either.
- XML parsing (the ezxml calls) is abstracted to the strings and text each rule reads. The same holds for `FindProperty` and `GetIntProperty`.
- Other per-switch and per-segment attribute parsing is not modelled: switch types, buffer sizes and segment frequencies.
- Missing XML elements and missing required attributes are not modelled. These are fatal in the XML layer.
- All file output is out of scope: Verilog text, headers, file names and paths, `vpr_printf`, and the statistics table layout. Only the counts, ranges, call order and skip rules that decide this output are modelled.
- The orchestration in `verilog_api.c` and the prototypes in `verilog_sdc.h` have no logic of their own.
- `physical_types.h` is not part of this model. The block type, port and spice-model records are reduced to the integer fields the modelled code reads: capacity, configuration bits, I/O pads, reserved bits, ports and pins.
- The helpers of the memory organisation (`get_sram_orgz_info_num_mem_bit`, `update_sram_orgz_info_num_blwl` and the others) are not shown in the source. The model treats them as plain reads and writes of the counters.
- `snapshot_sram_orgz_info` / `copy_sram_orgz_info` are not shown either. They are modelled as saving and restoring the three counters only. The per-tile tables are not saved, because the modelled emission step changes only counters, so the model does not capture a restore of tables that emission might have written.
- `CompactNetlist.DumpLogicBlocks`: takes what module emission leaves in the counters as parameters instead of modelling the emission.
- Switch-block and connection-block unique-module detection (mirror and rotation) is not modelled. It appears only as a call into code outside the shown files.
- `get_grid_pin_class_index` (rr_graph_builder_utils.cpp:119-124) is a single table read and is not modelled separately. `RRGraphBuilder.SidePins` reads the same table.
- The node-id range checks of the edge functions are modelled as preconditions. The same holds for the track-type checks and for the interior/border type checks of the grid passes. In the source these are `assert`s.
- The fatal error for an unknown spice-model type is modelled as a precondition: the `Unlisted` kind is excluded.
- The source's linked lists (models, ports) are modelled as sequences of objects. Their node links are not modelled.
- `ArchReader.SegmentLists`: on a CB pattern error it returns a placeholder SB list, because the source has stopped by then.
- `ArchReader.AssignPortPins`: the source fills one port in a single loop. The model splits it into one loop for an equivalent port and one for a non-equivalent port. The arrays end up identical.
- A zero-pin equivalent port keeps the zero-filled class type. The model shows this as `Unset` and does not promote it.
- The `z_offset` and the circuit-model name of a direct are stored but not checked by the source, so the model carries them without rules.
- `CompactNetlist.GridCallPorts`: the reserved-bit ports are modelled by their guard `0 < reserved` (verilog_compact_netlist.c:638). The source calls the port printer at line 641 even for zero reserved bits, and what that printer emits for an empty range is not part of this model.
- `DevicePort.Expanded`: does not state the width after `msb + width` wraps past `SIZE_MAX`. The body wraps, but the contract only covers the case without a carry.
- `DevicePort.Combined`: does not state the width after `msb + other width` wraps past `SIZE_MAX`, for the same reason.
- `RRGraphBuilder.NumPinsBound`: the pin counts of `get_grid_num_pins` are unbounded integers. The bound is stated instead of `size_t` wrap-around, which cannot occur below the bound.
- `CompactNetlist.TileSize`: `capacity × conf_bits` and the running counters are `int` in the source. The model uses unbounded integers and does not model 32-bit overflow.
- `RRGraphBuilder.AddEdges`: `num_edges` is `int`, `fan_in` is `short` and switch ids are `short` in the source. The model uses unbounded integers and does not model overflow of `fan_in` beyond 32767.
- The statistics average is a `size_t` divided by an `int`. The model uses integer division on non-negative sizes and does not model the conversion of a negative `fan_in`.

## Findings

| source | as written | input that shows it | evidently intended | confidence | as-written member | corrected member |
|---|---|---|---|---|---|---|
| vpr7_x2p/vpr/SRC/device/rr_graph/rr_graph_builder_utils.cpp:53-56 | `tileable_rr_graph_init_rr_node` assigns `xhigh` twice and never resets `yhigh` | a node with `yhigh = 5` stays a non-point after initialisation | reset `yhigh` to 0 along with the other three coordinates | high, not executed | RRGraphBuilder.InitRRNodeAsWritten (shown by RRGraphBuilder.InitAsWrittenKeepsYHigh) | RRGraphBuilder.InitRRNode (applied in place by RRGraphBuilder.InitRRNodeAt) |
| vpr7_x2p/vpr/SRC/device/rr_graph/rr_graph_builder_utils.cpp:637, 673 | the average switch-block (and connection-block) multiplexer size divides by the multiplexer count with no zero guard | any graph without CHANX/CHANY nodes (or without IPIN nodes) | report an average of 0 when there are no multiplexers | high, not executed | RRGraphBuilder.MuxStatsAsWritten (shown by RRGraphBuilder.NoTracksNoSbMux) | RRGraphBuilder.MuxStatsGuarded |
| vpr7_x2p/vpr/SRC/fpga_x2p/verilog/verilog_compact_netlist.c:656-657 | the formal-verification ports of a grid instance are guarded by `0 < msb - 1 - lsb`, while the SRAM ports just above use `0 < msb - lsb` | a tile with one configuration bit, e.g. a CLB of capacity 1 and 1 bit at (1, 1) | guard the formal ports like the SRAM ports, as the block's own module does (line 402) | medium, not executed | CompactNetlist.GridCallPortsAsWritten (shown by CompactNetlist.FormalPortsAsWrittenMissWidthOne, CompactNetlist.FormalPortsWidthOneWitness) | CompactNetlist.GridCallPorts |
