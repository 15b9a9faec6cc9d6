# unemups4: a verified model of the emulator's hard core

This project models the parts of the unemups4 console emulator whose correctness is not visible
from any one function, and proves what they are for. `dafny verify dfyconfig.toml` checks all of it.

**The shader front end and its oracle.** A GCN machine-code stream is decoded (`Decoder`,
`DecoderRoundTrip`), its fetch-shader call is recognised (`FetchShader`) and spliced in place of the
call (`FetchCall`), a control-flow graph is built and its loop shape checked (`Cfg`, `CfgFacts`,
`Merge`), and a 64-lane wave walks the graph by narrowing and restoring EXEC (`Wavefront`, `Walk`).
The main theorems are compiler theorems:

- what each instruction leaves in the registers is said by opcode number, on bits, words and memory
  bytes, and exactly when it succeeds (`LaneTurns`, `Operands`, `VectorMeaning`, `MemoryMeaning`,
  `Faults`);
- the in-place lane loop of every vector instruction is one simultaneous map (`LaneLoops`), and a
  predicate may live in VCC or in an SGPR pair (`Predicates`);
- the masked walk of the wave means the same as running each lane alone with its own branch decisions
  (`LaneView`, `WaveLanes`), it ends exactly when no lane would use up the loop limit (`LoopBudget`), and
  lanes outside the launch mask are untouched (`DeadLanes`);
- the graph builder gives the walker everything it relies on, the safety caps are dead code and a walk
  is bounded (`WalkBounds`, `WalkTrace`, `Pipeline`);
- the loop header dominates the loop exactly when nothing jumps past it (`LoopEntry`);
- inlining a leaf call preserves meaning, in both directions, against a machine that really calls and
  returns (`CallMachine`, `InlineProof`);
- put together, the masked walk of the spliced stream gives every live lane what the real call gives it
  (`InlinedWalk`), and concrete shaders meet all the hypotheses (`Witnesses`);
- the recovered attribute table says what executing the fetch subroutine does, and its entries alone are
  enough exactly when every fetch is plain (`FetchTable`).

**The virtual guest clock.** `Clock` has the operations and the budgets of whole sequences of reads and
flips; `ClockInterleaving` splits every operation into its atomic accesses and proves the protocol
under every interleaving of any number of readers with one flipper.

**The nested guest-call loop.** `GuestCall` models the recursive driver over a finite tree of exits and
handler actions; `GuestCallFacts` proves that an exit request unwinds every level and that nested
frames are carved clear of live ones, `GuestCallResults` what the outermost call returns.

**Compact pieces.** `Tiling` (surface layout, the upload path's detile and tile loops, the oracle's
texel address), `HleArena` (bump arena with per-size free lists), `Histogram`, `HistogramWindows` and
`HistogramScan` (the profiler's log histogram and its reporting windows), `ProbeTable` (the bounded
open-addressed sample table) and `CString` (the chunked string scan).

Objects that the source updates in place are classes whose methods are proved against functions on
their contents; the theorems are then lemmas about those functions. `Words`, `Bits`, `Arithmetic`
and `Isa` hold machine words, bit and division facts and the instruction type. f32 arithmetic,
half conversions, attribute planes, texture sampling and guest memory are fields of the
environment `Env`, so every result holds for any such functions. Real time, other threads' steps,
the vcpu's exits and the ranged reader are parameters in the same way.

## Model

| member | source | states |
|---|---|---|
| `Decoder.DecodeAll` | crates/gcn/src/decoder.rs:45-66 | The pc loop returns the stream of instructions at successive boundaries, for every input of fewer than 2^32 dwords. |
| `Decoder.DecodeOne` | crates/gcn/src/decoder.rs:71-120 | Every non-empty window decodes, to an instruction of one or two dwords. |
| `Decoder.DecodeTiles` | crates/gcn/src/decoder.rs:45-66 | Sizes are 1 or 2, offsets are the running sum, and the sizes sum to the input length: no dword is skipped or decoded twice. |
| `Decoder.TilesIncrease` | crates/gcn/src/decoder.rs:45-66 | Hence offsets strictly increase, which is what the graph builder asks of its input. |
| `Decoder.DecodeLocal` | crates/gcn/src/decoder.rs:71-120 | An instruction depends only on its own dwords; what follows changes neither its size nor, when it is whole, its fields. |
| `Decoder.ConcatDecodes` | crates/gcn/src/decoder.rs:45-66 | Decoding a concatenation is the decoding of the left part followed by the shifted decoding of the right part if and only if the left part does not end in the middle of an instruction. |
| `DecoderRoundTrip.SourceFieldsAreDistinct` | crates/gcn/src/operand.rs:98-130 | The 512 source fields decode to distinct operands: encoding the operand gives the field back. |
| `DecoderRoundTrip.SoppRoundTrip` | crates/gcn/src/decoder.rs:157-210 | Decoding the SOPP encoding of legal fields recovers the format and the fields. |
| `DecoderRoundTrip.SopcRoundTrip` | crates/gcn/src/decoder.rs:157-210 | The same for SOPC, with or without a literal dword. |
| `DecoderRoundTrip.Sop1RoundTrip` | crates/gcn/src/decoder.rs:157-210 | The same for SOP1. |
| `DecoderRoundTrip.SopkRoundTrip` | crates/gcn/src/decoder.rs:157-210 | The same for SOPK, including the sign of the immediate. |
| `DecoderRoundTrip.Sop2RoundTrip` | crates/gcn/src/decoder.rs:157-210 | The same for SOP2, excluding the opcodes taken by the longer scalar prefixes. |
| `DecoderRoundTrip.SmrdRoundTrip` | crates/gcn/src/decoder.rs:212-233 | The same for SMRD. |
| `DecoderRoundTrip.Vop1RoundTrip` | crates/gcn/src/decoder.rs:235-244 | The same for VOP1. |
| `DecoderRoundTrip.Vop2RoundTrip` | crates/gcn/src/decoder.rs:246-272 | The same for VOP2, including the inline K of the two madmk/madak opcodes. |
| `DecoderRoundTrip.VopcRoundTrip` | crates/gcn/src/decoder.rs:274-284 | The same for VOPC. |
| `DecoderRoundTrip.Vop3RoundTrip` | crates/gcn/src/decoder.rs:286-333 | The same for VOP3, all modifier fields included. |
| `DecoderRoundTrip.VintrpRoundTrip` | crates/gcn/src/decoder.rs:335-353 | The same for VINTRP. |
| `DecoderRoundTrip.MubufRoundTrip` | crates/gcn/src/decoder.rs:355-397 | The same for MUBUF. |
| `DecoderRoundTrip.MimgRoundTrip` | crates/gcn/src/decoder.rs:399-427 | The same for MIMG. |
| `DecoderRoundTrip.ExpRoundTrip` | crates/gcn/src/decoder.rs:429-464 | The same for EXP, enables and target included. |
| `DecoderRoundTrip.DecodeInvertsEncode` | crates/gcn/src/decoder.rs:71-120 | For every format and all legal field values, decoding the section 13 encoding of the Sea Islands ISA recovers exactly the instruction, whatever dwords follow. |
| `Walk.Interp.StoreBit` | crates/gcn/src/interp.rs:1381-1417 | Setting a lane predicate changes that lane's bit of VCC or of the SGPR pair and nothing else, or reports an unwritable destination. |
| `Walk.Interp.StoreWords` | crates/gcn/src/interp.rs:802-815 | A lane's result words land in consecutive VGPRs of that lane only. |
| `Walk.Interp.ExecLanes` | crates/gcn/src/interp.rs:1060-1188 | The in-place 64-lane loop leaves exactly the state of the loop function `LaneLoop`, about which the lane lemmas are stated, and fails exactly when it does. |
| `Walk.Interp.ScalarLoad` | crates/gcn/src/interp.rs:1495-1547 | A scalar load writes its words into consecutive SGPRs, or nothing at all. |
| `Walk.Interp.Execute` | crates/gcn/src/interp.rs:680-752 | One instruction succeeds exactly when its opcode, operands and memory allow (`Faults.ExecutesIff`), and leaves the state whose registers the next rows describe. |
| `Faults.ExecutesIff` | crates/gcn/src/interp.rs:680-752 | For every instruction and state: executed if and only if the opcode number is a supported one, the operands name existing registers that can be read or written, and every live lane is served the memory or sample it asks for. |
| `LaneTurns.LaneActs` | crates/gcn/src/interp.rs:1060-1188 | With no assumption on operands: each live lane acts once, on its own column as it was and a mask whose earlier bits are new and later bits old; a dead lane keeps its registers and loses its mask bit. |
| `Operands.ReadsIff` | crates/gcn/src/interp.rs:820-847 | An operand is worth exactly what its register, special-register half, inline or literal value says, bit by bit. |
| `Operands.SelectsIff` | crates/gcn/src/interp.rs:1421-1440 | A lane's selector is its own bit of VCC or of the SGPR pair. |
| `VectorMeaning.MoveCopies` | crates/gcn/src/interp.rs:973-1058 | v_mov_b32 leaves the source in the destination and nothing else; the other VOP1 opcodes leave their f32 primitive of it. |
| `VectorMeaning.ShiftLeftMovesBits` | crates/gcn/src/interp.rs:1117-1123 | v_lshlrev_b32: bit k of the result is bit k-s of the second source, s the low five bits of the first. |
| `VectorMeaning.ShiftRightMovesBits` | crates/gcn/src/interp.rs:1124-1130 | v_lshrrev_b32: bit k of the result is bit k+s, zeros from above. |
| `VectorMeaning.AndMeetsBits` | crates/gcn/src/interp.rs:1131-1136 | v_and_b32: a bit is set exactly where both sources have it. |
| `VectorMeaning.AddCarries` | crates/gcn/src/interp.rs:1137-1151 | v_add_i32: the new word plus 2^32 times the lane's VCC bit is the sum of the sources. |
| `VectorMeaning.SelectByVcc` | crates/gcn/src/interp.rs:1152-1161 | v_cndmask_b32 keeps the first source on a clear VCC bit and takes the second on a set one. |
| `VectorMeaning.PackHalves` | crates/gcn/src/interp.rs:1162-1173 | v_cvt_pkrtz_f16_f32 puts the first source's half low and the second's high. |
| `VectorMeaning.FloatTwoSources` | crates/gcn/src/uop.rs:194-230 | Operand order, accumulator and inline constant of add, sub, subrev, mul, min, max, mac, madmk and madak. |
| `VectorMeaning.FloatThreeSources` | crates/gcn/src/uop.rs:236-265 | mul, mac, mad, fma, fract and med3 on sources under abs then neg, the result scaled by omod and then clamped. |
| `VectorMeaning.MedianIsMiddle` | crates/gcn/src/uop.rs:124-134 | When min and max go by an order of the values v_med3_f32 yields the middle of the three. |
| `VectorMeaning.MultiplyAdd24` | crates/gcn/src/interp.rs:1282-1303 | v_mad_u32_u24: low 24 bits of the factors, whole addend, modulo 2^32. |
| `VectorMeaning.SelectByMask` | crates/gcn/src/interp.rs:1266-1281 | The VOP3 select takes its bit from VCC or from the named SGPR pair. |
| `VectorMeaning.PackModified` | crates/gcn/src/interp.rs:1304-1319 | The VOP3 pack applies the source modifiers first. |
| `VectorMeaning.CompareSetsVcc` | crates/gcn/src/interp.rs:1468-1490 | Each of the five compares, by number, is the lane's VCC bit. |
| `VectorMeaning.CompareSetsMask` | crates/gcn/src/interp.rs:1238-1265 | The VOP3 compares set the lane's bit of VCC or the SGPR pair from the modified sources. |
| `VectorMeaning.InterpolationFollowsPlane` | crates/gcn/src/interp.rs:1746-1795 | v_interp_p1/p2/mov: P0 + I(P1 - P0), then the destination plus J(P2 - P0), or P0. |
| `MemoryMeaning.ScalarMoveCopies` | crates/gcn/src/interp.rs:872-968 | s_mov_b32 copies its source; a write to a half of VCC keeps the other half; nothing else changes. |
| `MemoryMeaning.LongMoveCopies` | crates/gcn/src/interp.rs:885-938 | s_mov_b64 and s_wqm_b64 copy all 64 bits, halves in place, and change nothing else. |
| `MemoryMeaning.ScalarLoadReads` | crates/gcn/src/interp.rs:1495-1547 | A scalar load fills 1, 2, 4, 8 or 16 SGPRs with the little-endian words at the pointer (or 48-bit buffer base) plus the dword or register offset. |
| `MemoryMeaning.BufferLoadReads` | crates/gcn/src/interp.rs:1561-1718 | A buffer load reads at base + record * stride + the three offsets modulo 2^64, the index held to the last record, and unpacks each component by the resource's format. |
| `MemoryMeaning.SampleWrites` | crates/gcn/src/interp.rs:1810-1880 | A sample at the coordinate pair leaves the enabled channels, red first, packed from the destination. |
| `MemoryMeaning.ExportCaptures` | crates/gcn/src/interp.rs:2048-2090 | An export appends one record per live lane in lane order; channel k is source k or 0, or two halves of a packed source, and nothing else changes. |
| `MemoryMeaning.PackedPairIsExported` | crates/gcn/src/interp.rs:2048-2090 | What v_cvt_pkrtz packed comes out of a compressed export in order. |
| `MemoryMeaning.RestIsKept` | crates/gcn/src/interp.rs:680-752 | A vector instruction changes no scalar state but its mask, exports only if it is EXP, and in a dead lane only clears the mask bit. |
| `LaneLoops.SameEffect` | crates/gcn/src/interp.rs:680-752 | Two states that agree on the operands, descriptors, predicate bit and column an instruction reads give the lane the same effect, for every vector instruction. |
| `LaneLoops.PredicateWritten` | crates/gcn/src/interp.rs:1381-1417 | Writing one lane's predicate bit extends the simultaneous mask by that lane and keeps every other bit. |
| `LaneLoops.TurnIsSimultaneous` | crates/gcn/src/interp.rs:1060-1491 | One turn of the in-place loop faults exactly when the lane faults on the state before the instruction, and otherwise extends the simultaneous result by that lane. |
| `LaneLoops.LaneLoopIsSimultaneous` | crates/gcn/src/interp.rs:1060-1491 | The whole in-place loop is one map over the state before it: it succeeds iff no live lane faults there, live lanes get what they computed from that state, dead lanes keep their VGPRs and lose their predicate bit, exports come in lane order. |
| `Predicates.ComparesLeaveOneMask` | crates/gcn/src/interp.rs:1468-1491 | A compare into VCC and the same compare promoted into an SGPR pair leave the same 64-bit mask (live and comparing lanes, dead lanes cleared) and change nothing else. |
| `Predicates.SelectsPickOneWord` | crates/gcn/src/interp.rs:1191-1358 | After either compare the matching v_cndmask picks the same word in every lane, when its sources do not overlap the mask. |
| `Predicates.DroppedLaneLosesVcc` | crates/gcn/src/interp.rs:1468-1491 | A compare clears the VCC bit of every lane outside EXEC, whatever it held. |
| `Predicates.MaskIsUnique` | crates/gcn/src/interp.rs:1468-1491 | The mask of a compare is determined by its 64 lane bits. |
| `Cfg.CollectLeaders` | crates/gcn/src/cfg.rs:339-374 | Pass 1 yields exactly the entry, the branch targets and the instructions after branches, or the report about the first bad branch. |
| `Cfg.TransfersByNumber` | crates/gcn/src/cfg.rs:260-299 | Which SOPP numbers transfer control, under which condition, and the signed displacement their target lies at. |
| `Cfg.ErrorIffObjects` | crates/gcn/src/cfg.rs:344-371 | The report about a branch names its own offset and its opcode (SCC) or its target (no instruction there, 0 when negative), and there is none otherwise. |
| `Cfg.SortDedup` | crates/gcn/src/cfg.rs:373-374 | The sorted leader list has the same members, strictly ascending. |
| `Cfg.CutBlocks` | crates/gcn/src/cfg.rs:376-434 | Pass 2 cuts one block per leader, each running to the next leader with the terminator of its last instruction. |
| `Cfg.CheckLoop` | crates/gcn/src/cfg.rs:464-531 | A back-edge is accepted exactly when its header is not the entry, its exit is a leader, and no other conditional lies in its span. |
| `Cfg.ValidateLoops` | crates/gcn/src/cfg.rs:464-531 | No error exactly when there is no unconditional back-edge, at most one conditional one, and that one has the loop shape; an error names the first offending block and its target. |
| `Cfg.BuildCfg` | crates/gcn/src/cfg.rs:321-441 | On increasing offsets: an accepted graph is sound for the live stream and has the loop shape; an error is the first bad branch, or names the first offending loop of the stream's graph. |
| `CfgFacts.BlocksPartition` | crates/gcn/src/cfg.rs:376-434 | The blocks in order are exactly the instructions of the live stream in order, with no gap, overlap or empty block. |
| `CfgFacts.TransfersOnlyAtEnd` | crates/gcn/src/cfg.rs:260-300 | A branch or s_endpgm occurs only as the last instruction of a block. |
| `CfgFacts.FallLands` | crates/gcn/src/cfg.rs:400-417 | Every conditional's fall-through is the next block's leader; the one-past-end marker never survives acceptance. |
| `CfgFacts.EdgesLandForward` | crates/gcn/src/cfg.rs:321-531 | Every successor is a leader, and every edge except the one conditional back-edge goes to a strictly greater leader. |
| `CfgFacts.StartsAreLeaders` | crates/gcn/src/cfg.rs:339-374 | An instruction starts a block if and only if it is the entry, a branch target or follows a branch. |
| `CfgFacts.SoundGraphIsUnique` | crates/gcn/src/cfg.rs:321-441 | A stream has at most one sound graph, so what `build_cfg` returns is determined by the stream. |
| `LoopEntry.HeaderDominatesIff` | crates/gcn/src/cfg.rs:464-531 | On every accepted graph with a loop: the header dominates the whole loop body, as documented, if and only if control reaches no block outside the loop that has an edge past the header. |
| `LoopEntry.HeaderNeedNotDominate` | crates/gcn/src/cfg.rs:102-114 | A stream the builder accepts whose entry jumps into the loop behind its header. |
| `Merge.FindMerge` | crates/gcn/src/cfg.rs:161-192 | The merge search with its visited lists returns the merge function's answer. |
| `Merge.ReachLoop` | crates/gcn/src/cfg.rs:170-182 | The inner chain walk collects exactly the unconditional chain from its start. |
| `Merge.ReachIsChain` | crates/gcn/src/cfg.rs:135-182 | On an accepted graph that chain follows unconditional edges, strictly forward, to its end. |
| `Merge.Reconvergence` | crates/gcn/src/cfg.rs:161-192 | A merge `m` of a forward conditional is the first block common to both arms: both arms are unconditional chains reaching `m`, share no earlier block and never execute s_endpgm before it. |
| `Merge.NoMergeMeansDisjoint` | crates/gcn/src/cfg.rs:161-192 | No merge is named exactly when the two whole chains are disjoint. |
| `Walk.Interp.RunBlockBody` | crates/gcn/src/interp.rs:477-496 | The block loop leaves the state and status of the body function: end at s_endpgm, skip filler and the branch, stop at the first fault. |
| `Walk.Interp.RunRegion` | crates/gcn/src/interp.rs:506-553 | An arm loop with its visit cap leaves the outcome of the arm function. |
| `Walk.Interp.RunLoopBody` | crates/gcn/src/interp.rs:628-678 | One loop iteration from the header through the back-edge block leaves the outcome of the iteration function. |
| `Walk.Interp.RunLoop` | crates/gcn/src/interp.rs:575-620 | The loop with its iteration cap leaves the outcome of the loop function, EXEC restored to its entry value; when it is left and when it fails is `LoopBudget.LoopStopsIff`. |
| `Walk.Interp.RunDiamond` | crates/gcn/src/interp.rs:405-467 | Both arms under their masks, then EXEC restored. |
| `Walk.Interp.FollowTerminator` | crates/gcn/src/interp.rs:384-468 | Leaving a block moves to the next leader, halts, or reports the failure, as the terminator says. |
| `Walk.Interp.ExecuteCfg` | crates/gcn/src/interp.rs:357-472 | The whole visit loop ends or fails exactly as the walk function, in the same state. |
| `WalkBounds.RegionSafe` | crates/gcn/src/interp.rs:506-553 | An arm never meets its cap, a missing leader, a nested branch or an s_endpgm. |
| `WalkBounds.DiamondSafe` | crates/gcn/src/interp.rs:405-467 | Both arms of a conditional with a merge reach the merge, or an instruction faults. |
| `WalkBounds.LeaveSafe` | crates/gcn/src/interp.rs:384-468 | Leaving a block leads to a strictly later block. |
| `WalkBounds.CapsAreDead` | crates/gcn/src/interp.rs:363-472 | For every accepted graph, environment and launch state the acyclic visit caps never fire and no leader or instruction lookup fails. |
| `WalkTrace.RunsAreBounded` | crates/gcn/src/interp.rs:363-472 | Outside loop iterations no block body is executed twice, and a graph of N blocks executes at most N + 65536*N bodies. |
| `WalkTrace.TopLevelExecIsLaunchMask` | crates/gcn/src/interp.rs:357-472 | If no instruction of a block writes EXEC, every top-level block starts under the launch mask. |
| `WalkTrace.ArmMasksPartition` | crates/gcn/src/interp.rs:413-428 | Every live lane is in exactly one arm mask, and no dead lane is in either. |
| `WalkTrace.SkippedByNumber` | crates/gcn/src/interp.rs:477-496 | A block body passes over s_nop, s_waitcnt and branches, by opcode number, and s_endpgm ends the wave. |
| `LaneView.StepProjects` | crates/gcn/src/interp.rs:680-752 | One instruction of the wave, seen by one live lane, is the instruction of that lane alone. |
| `LaneView.DeadStep` | crates/gcn/src/interp.rs:680-752 | A vector instruction leaves what a dead lane sees as it was. |
| `WaveLanes.DiamondProjects` | crates/gcn/src/interp.rs:405-467 | A lane's view of a diamond is that lane taking its own edge and running its own arm. |
| `WaveLanes.LoopProjects` | crates/gcn/src/interp.rs:575-620 | A lane's view of the masked loop is that lane iterating alone until its own bit drops it. |
| `WaveLanes.LocalityOfLiveStream` | crates/gcn/src/cfg.rs:321-441 | On an accepted graph the per-lane condition holds of the blocks if and only if it holds of the live stream; what lies behind the first s_endpgm does not matter. |
| `WaveLanes.WaveEqualsLanes` | crates/gcn/src/interp.rs:357-678 | For every accepted graph and ended walk, each live lane's final VGPRs and its own exports equal those of the lane alone stepping the plain graph with its own branch decisions, in which it jumps back at most 65,536 times. |
| `LoopBudget.LoopStopsIff` | crates/gcn/src/interp.rs:555-620 | A loop reports its limit if and only if some lane goes round at entry and after each of 65,536 iterations; it is left if and only if after at most that many none does, in that iteration's state with the entry EXEC. |
| `LoopBudget.WalkEndsIff` | crates/gcn/src/interp.rs:357-678 | The converse: on an accepted graph of per-lane code whose conditionals merge, when no instruction faults, the walk ends if and only if every live lane alone jumps back at most 65,536 times, and otherwise fails with the loop limit. |
| `DeadLanes.DeadLanesStayDead` | crates/gcn/src/interp.rs:357-678 | For every stream, graph and environment whose blocks never write EXEC, a lane outside the launch mask keeps all its VGPRs and captures no export over the whole walk. |
| `FetchShader.ParseFetchShader` | crates/gcn/src/fetch_shader.rs:94-189 | Accepts exactly the streams of the recognised shape and returns their table in stream order. |
| `FetchShader.ReturnIsFirst` | crates/gcn/src/fetch_call.rs:104-110 | A recognised body ends at its first return, so the splice's missing-return error is unreachable. |
| `FetchShader.ShapeByNumber` | crates/gcn/src/fetch_shader.rs:94-189 | The recognised instructions by opcode number, and each entry's quad, destination, component count, pointer pair and byte offset from the latest load of its quad. |
| `FetchShader.TableDescribesBody` | crates/gcn/src/fetch_shader.rs:94-189 | After executing the body every fetched block holds, in every live lane, the fetch through the V# stored at its pointer pair plus offset at launch, under the load and register conventions. |
| `FetchShader.TableReplacesSubroutine` | crates/gcn/src/fetch_shader.rs:94-189 | Every entry of the recovered table comes from a fetch of the body, and after executing the body its block holds, in every live lane, that fetch through the V# stored where the entry points. |
| `FetchShader.TableOmitsOffsets` | crates/gcn/src/fetch_shader.rs:138-167 | Two accepted shaders that fetch from different addresses recover the same table: the instruction offset is not recorded. |
| `FetchTable.TableSuffices` | crates/gcn/src/fetch_shader.rs:94-189 | When every fetch is plain, each block holds what its entry alone says, for every environment, launch state and live lane. |
| `FetchTable.TableFallsShort` | crates/gcn/src/fetch_shader.rs:138-167 | A fetch that breaks one of those guards has an environment and a launch state in which the whole body runs and its block differs from what the entry says. |
| `FetchTable.TableSufficesIff` | crates/gcn/src/fetch_shader.rs:94-189 | For every conventional shader that can run with a live lane: the entry alone (V#, index v0, no offset) gives every block in every environment, launch state and live lane if and only if every fetch is indexed by v0, has offset 0, a zero scalar offset operand and no per-lane offset. |
| `FetchCall.Renumber` | crates/gcn/src/fetch_call.rs:181-187 | Every offset becomes the sum of the sizes before it; instructions and sizes are kept. |
| `FetchCall.ResolveFetchCall` | crates/gcn/src/fetch_call.rs:122-189 | Ok exactly with a splice over the only call; each error exactly under its condition, and never the missing-return one. |
| `FetchCall.CallByNumber` | crates/gcn/src/fetch_call.rs:87-89 | The call is SOP1 opcode 0x21. |
| `FetchCall.SpliceDwords` | crates/gcn/src/fetch_call.rs:168-187 | Where each instruction of the spliced stream starts. |
| `FetchCall.NoCallLeft` | crates/gcn/src/fetch_call.rs:122-189 | The result has no s_swappc; it has a return if and only if the main stream holds one besides the call, and exactly at that instruction's new place. |
| `FetchCall.NewOffset` | crates/gcn/src/fetch_call.rs:178-187 | Each main instruction keeps its form and starts at its old offset, shifted by the body when it lies after the call. |
| `FetchCall.BranchStillNames` | crates/gcn/src/fetch_call.rs:122-189 | A branch still names the same instruction if and only if it does not cross the call or the body is as long as the call. |
| `CallMachine.StepExcept` | crates/gcn/src/interp.rs:680-752 | An instruction that reads none of a set of stale SGPRs does the same whatever they hold, and those it replaces agree from then on. |
| `CallMachine.BodyKeepsPair` | crates/gcn/src/fetch_shader.rs:94-189 | A body instruction that does not load over the saved pair keeps the return address. |
| `InlineProof.InliningPreservesMeaning` | crates/gcn/src/fetch_call.rs:122-189 | After any number of steps of the two-stream call and return machine, the spliced stream (at most two steps behind) has stopped, crashed or continued alike, and stopped states agree except on the saved-PC pair, which the caller may reuse once it has overwritten it. |
| `InlineProof.InliningAddsNothing` | crates/gcn/src/fetch_call.rs:122-189 | If the spliced stream stops, so does the real call and return, in the same state but for the pair. |
| `InlineProof.PointerAtFirstCall` | crates/gcn/src/fetch_call.rs:122-189 | The fetch pointer need only be right the first time the call is reached; the call is never reached again. |
| `InlinedWalk.InlinedWalkIsTheCall` | crates/gcn/src/fetch_call.rs:122-189 | Whenever the masked walk of the spliced stream's accepted graph succeeds, the machine that keeps two streams and really calls and returns, run with any one live lane, stops with that lane's VGPRs and exactly that lane's exports. |
| `InlinedWalk.LaneIsMachine` | crates/gcn/src/interp.rs:357-678 | A lane stepping the accepted graph block by block and the pc machine stepping the stream instruction by instruction halt in the same state. |
| `Witnesses.DivergentIsPerLane` | crates/gcn/src/interp.rs:357-678 | A concrete shader with a divergent arm and a divergent loop has an accepted graph and meets the per-lane hypotheses. |
| `Witnesses.DivergentEnds` | crates/gcn/src/interp.rs:357-678 | Two live lanes part at the branch (the taken mask and the fall-through mask are one lane each), meet, part again at the loop, and the walk ends. |
| `Witnesses.CallIsLeaf` | crates/gcn/src/fetch_call.rs:16-21 | The prologue retail vertex shaders open with, calling through s[0:1], meets the leaf-call discipline even though the caller then reuses s0. |
| `Witnesses.CallHasItsPointer` | crates/gcn/src/fetch_call.rs:16-21 | Launched with the fetch address in s[0:1] it arrives at the call with it. |
| `Witnesses.InlinedIsPerLane` | crates/gcn/src/cfg.rs:321-441 | The spliced stream of that call is one accepted block of per-lane code, so the hypotheses of the inlined-walk theorem are met together. |
| `Witnesses.InlinedEnds` | crates/gcn/src/interp.rs:357-472 | The walk of the spliced stream ends from every launch state. |
| `Witnesses.CalleeRuns` | crates/gcn/src/fetch_shader.rs:94-189 | A recognised body with a plain fetch runs from every launch state, so the table theorems are not empty. |
| `Witnesses.KeptReturn` | crates/gcn/src/fetch_call.rs:122-189 | An accepted main stream with an s_setpc of its own: the splice keeps it. |
| `Pipeline.Execute` | crates/gcn/src/interp.rs:334-341 | Build and walk: a final state is the end of the walk of an accepted graph, a walk failure is one of the documented kinds, and the graph is refused if and only if the stream has no accepted graph. |
| `Pipeline.ResolveFromCode` | crates/gcn/src/fetch_call.rs:195-201 | What decode-and-resolve returns has increasing offsets and no call, so it can be built. |
| `Pipeline.DecodedIncreases` | crates/gcn/src/decoder.rs:45-66 | Decoded streams have the increasing offsets the builder relies on. |
| `Pipeline.RejectedHasNoGraph` | crates/gcn/src/cfg.rs:321-441 | When the builder reports an error no graph of the stream is accepted. |
| `Clock.GuestClock.NowNs` | crates/core/src/clock.rs:244-255 | The CAS loop, with other readers getting in between, stores and returns the floor-applied value computed from the last value it replaced. |
| `Clock.GuestClock.AdvanceFrame` | crates/core/src/clock.rs:173-205 | A flip counts, and anchors virtual time as the mode and phase say. |
| `Clock.GuestClock.Peek` | crates/core/src/clock.rs:260-263 | Peeking writes nothing and is never below the last read; while the last read is at most the anchor it is never past the four-frame clamp. |
| `Clock.LastNeverFalls` | crates/core/src/clock.rs:244-255 | Over any sequence of reads and flips each read gains at least 1000 ns. |
| `Clock.FrameBudget` | crates/core/src/clock.rs:215-255 | The k-th read after a realtime flip is at most the anchor plus four frames plus (k-1) microseconds. |
| `Clock.BootCatchesUp` | crates/core/src/clock.rs:222-229 | k BOOT reads at real time T or later reach min(T, start + k frames). |
| `Clock.BootNeverOutruns` | crates/core/src/clock.rs:222-229 | k BOOT reads gain at most k frames. |
| `Clock.FixedStepIsDeterministic` | crates/core/src/clock.rs:173-239 | Two fixed-step sequences with the same last value at the first flip and the same reads and flips return identical values whatever real time does. |
| `Clock.BootReads` | crates/core/src/clock.rs:222-229 | Every boot read is real time held to one frame above the read before, or that read plus 1000 ns. |
| `Clock.RealtimeReads` | crates/core/src/clock.rs:192-237 | Every read after a realtime flip is the flip's anchor (the last value, or the peeked time) plus the real time since, held to 66,666,668 ns, or the read before plus 1000 ns. |
| `Clock.FixedStepReads` | crates/core/src/clock.rs:173-239 | Every fixed-step read is the value at the first flip plus 16,666,667 ns for each flip so far, or the read before plus 1000 ns. |
| `Clock.RealtimeIsReal` | crates/core/src/clock.rs:173-239 | Two reads inside the clamp, with any flips and reads between, differ by the real time between them less what passed inside the flips. |
| `Clock.ReadIsPeekWithFloor` | crates/core/src/clock.rs:244-263 | A read is a peek with the 1000 ns floor on top. |
| `ClockInterleaving.EveryRunKeepsInv` | crates/core/src/clock.rs:173-263 | Every interleaving of any number of readers and one flipper keeps the protocol invariant, one atomic access per step, with spurious CAS failures. |
| `ClockInterleaving.ReadsAreOrdered` | crates/core/src/clock.rs:215-255 | Under every interleaving each successful read is exactly what its phase and mode define from the cells it loaded, or the read before plus 1000 ns; a realtime read pairs its virtual anchor with a real anchor no older than the one published with it. |
| `ClockInterleaving.NoTornPair` | crates/core/src/clock.rs:192-205 | A reader never pairs a virtual anchor with a real anchor older than the one published with it. |
| `ClockInterleaving.FlipAlone` | crates/core/src/clock.rs:173-205 | A flip nothing gets into ends with the cells of the sequential flip. |
| `ClockInterleaving.ReadAlone` | crates/core/src/clock.rs:215-255 | A read nothing gets into returns and stores what the sequential read does. |
| `GuestCall.GuestThread.DriveVcpu` | crates/cpu/src/exec.rs:298-610 | The driver leaves the exit, thread cells and event log of the drive function. |
| `GuestCall.GuestThread.Loop` | crates/cpu/src/exec.rs:376-580 | The exit loop does, with handlers re-entering it. |
| `GuestCall.GuestThread.RunHandler` | crates/cpu/src/exec.rs:265-294 | Handlers request exits or call back; a nested exit re-arms the flag. |
| `GuestCall.GuestThread.Run` | crates/cpu/src/exec.rs:227-255 | The outermost call runs under its own context and restores the outer one. |
| `GuestCall.GuestThread.RequestThreadExit` | crates/cpu/src/exec.rs:140-148 | The last request wins. |
| `GuestCallFacts.ExitUnwinds` | crates/cpu/src/exec.rs:265-610 | For every finite tree of nested calls the outermost call returns ThreadExit if and only if some handler requested an exit, carrying the last requested value. |
| `GuestCallResults.CallResult` | crates/cpu/src/exec.rs:298-590 | For every tree: a thread exit only with a value some handler it comes to asked for (and on writable stacks whenever one asked); otherwise Returned(v) if and only if the return slot is writable and the script comes to the gadget with v in RAX over resumable budget exits and dispatched syscalls, and Fatal in every other case. |
| `GuestCallResults.FirstNestedFrame` | crates/cpu/src/exec.rs:265-276 | The first nested call runs on the highest 16-aligned frame that clears the red zone below the guest's RSP, which counts the pushed return address. |
| `GuestCallFacts.FlaggedNeverResumes` | crates/cpu/src/exec.rs:536-546 | No level resumes its own vcpu after one of its handlers returned with the flag set. |
| `GuestCallFacts.NestedFramesAreClear` | crates/cpu/src/exec.rs:265-276 | Every nested stack top is 16-aligned and at least 128 bytes below every enclosing live RSP, when guest RSP at a syscall never exceeds its entry value. |
| `GuestCallFacts.DepthRestored` | crates/cpu/src/exec.rs:355-587 | The drive depth is back where it was however the call ended. |
| `Tiling.MicroTileBijection` | crates/core/src/tiling.rs:47-58 | The bit interleave is a bijection between the 8x8 tile and 0..64. |
| `Tiling.Thin1dInjects` | crates/core/src/tiling.rs:62-70 | Every texel of the padded grid has its own slot inside the padded surface. |
| `Tiling.Thin1dCovers` | crates/core/src/tiling.rs:62-70 | Every slot of the padded surface holds a texel of the padded grid. |
| `Tiling.PitchCoversWidth` | crates/core/src/tiling.rs:101-122 | A resolved pitch is never below the width, and the fallback is the next multiple of 64. |
| `Tiling.KindByIndex` | crates/core/src/tiling.rs:141-148 | Index 0 is linear, 1 to 7 micro-tiled, 8 linear-aligned, the rest have no detiler. |
| `Tiling.StoredIff` | crates/core/src/tiling.rs:62-130 | A texel's byte lies at (y*stride + x)*bytes + b with the decoded pitch as stride or the least multiple of 64 not below the width, or at its micro-tile's place with the coordinate bits interleaved. |
| `Tiling.TilingNeverAliases` | crates/core/src/tiling.rs:62-130 | For every supported kind distinct texels occupy disjoint byte ranges inside the stored surface. |
| `Tiling.DescriptorExtentsFitU32` | crates/core/src/tiling.rs:62-130 | For every extent and pitch up to 16384 no 32-bit product overflows. |
| `Tiling.SourceInjects` | crates/gnm/src/cache/tile.rs:185-238 | Two bytes of the row-major copy never come from one byte of the stored surface. |
| `Tiling.Detile` | crates/gnm/src/cache/tile.rs:185-238 | Short input is refused with both sizes; otherwise byte b of texel (x, y) is the byte stored at that relation's place. |
| `Tiling.Tile` | crates/gnm/src/cache/tile.rs:245-282 | The stored surface has the padded size, holds every texel's bytes at their places and zero everywhere else. |
| `Tiling.TilingRoundTrip` | crates/gnm/src/cache/tile.rs:239-282 | Tile then detile gives the surface back, or the short-buffer refusal of a short surface. |
| `Tiling.DetilingRoundTrip` | crates/gnm/src/cache/tile.rs:239-282 | Detile then tile gives back every texel's bytes, and the whole stored surface if and only if its padding is zero. |
| `Tiling.WrapRepeats` | crates/gcn/src/interp.rs:2013-2016 | Repeat addressing: every coordinate, negative ones included, names the texel it is congruent to. |
| `Tiling.OracleReadsWhatUploadDetiles` | crates/gcn/src/interp.rs:2005-2044 | Indices above 8 are deferred and no others; for those, any wrapped coordinate loads in bounds, at the place the byte relation gives, exactly the bytes the upload path detiles for that texel. |
| `HleArena.Hle.Alloc` | crates/core/src/kernel.rs:372-396 | Pop the last same-size block, else bump, else 0. |
| `HleArena.Hle.Free` | crates/core/src/kernel.rs:404-426 | Ignore 0 and addresses outside the region, never list a block twice. |
| `HleArena.Hle.SetArena` | crates/core/src/kernel.rs:357-361 | Sets the region and the cursor and keeps the free list. |
| `HleArena.ArenaIsPartitioned` | crates/core/src/kernel.rs:357-426 | Over every interleaving of the atomic steps whose frees name a cut block with its size, live and listed blocks are different, pairwise disjoint, in the region, aligned when the base is, and account for every byte the cursor passed. |
| `HleArena.AllocReturnsFreshBlock` | crates/core/src/kernel.rs:372-396 | An allocation returns 0 exactly when no block of its class waits and the region cannot grow; otherwise a block disjoint from every live one and large enough. |
| `HleArena.RecyclingIsPerfectIff` | crates/core/src/kernel.rs:372-426 | Over every run: at every point the blocks ever cut for a size class equal its peak live count so far if and only if no compare-and-swap of that class cut a block while one of the class was waiting. |
| `HleArena.CutEqualsPeak` | crates/core/src/kernel.rs:372-426 | In particular, when allocations are atomic, the blocks ever cut for a size class equal that class's peak live count. |
| `HleArena.LateBumpOutrunsPeak` | crates/core/src/kernel.rs:375-395 | Such a run exists: a free between the list check and the compare-and-swap cuts a second block. |
| `HleArena.EmptyBlocksShareAnAddress` | crates/core/src/kernel.rs:372-396 | After any run with no empty block waiting, two requests of size 0 and the next block cut all get one non-null address. |
| `HleArena.FreedIsReused` | crates/core/src/kernel.rs:372-426 | A block just freed is the next one its size class hands out, and nothing else has changed. |
| `HleArena.IdleFrees` | crates/core/src/kernel.rs:404-426 | Freeing 0, a foreign address or a block already waiting changes nothing. |
| `HleArena.GrowthIsAdjacent` | crates/core/src/kernel.rs:382-396 | Two growing allocations in a row are neighbours. |
| `Histogram.BucketIsInterval` | crates/cpu/src/profile.rs:504-521 | A sample is in bucket i if and only if it lies between that bucket's edges; the last bucket also takes everything above. |
| `Histogram.BucketRoundTrip` | crates/cpu/src/profile.rs:504-528 | The two maps are inverse on all 512 indices, and a midpoint lies in its own bucket. |
| `Histogram.BucketIsMonotone` | crates/cpu/src/profile.rs:504-511 | Bucketing is monotone. |
| `Histogram.BucketIsNarrow` | crates/cpu/src/profile.rs:504-528 | An unclamped sample's bucket is at most a sixteenth of it wide and its midpoint is within a thirty-second of it. |
| `HistogramWindows.Dist.Record` | crates/cpu/src/profile.rs:551-555 | One counter goes up, min and max absorb the sample. |
| `HistogramWindows.FindQuantile` | crates/cpu/src/profile.rs:595-605 | The midpoint of the first bucket whose running count reaches the rank. |
| `HistogramWindows.DistWindow` | crates/cpu/src/profile.rs:581-619 | A window reports the counter deltas since the previous one, becomes the new previous, and takes min and max. |
| `HistogramWindows.QuantileFindsOrderStatistic` | crates/cpu/src/profile.rs:595-605 | The bucket found for a rank is the bucket of the sample of that rank. |
| `HistogramWindows.WindowDescribesSamples` | crates/cpu/src/profile.rs:581-619 | A window over any samples reports their exact count, percentiles that are midpoints of the buckets of the order statistics of those ranks, and a sum within one part in 32 when nothing was clamped. |
| `HistogramWindows.WindowReportsExtremes` | crates/cpu/src/profile.rs:551-615 | A window reports the greatest sample, and the least if and only if some sample is below 2^64-1; otherwise it reports 0. |
| `HistogramWindows.DeltaIsHistogram` | crates/cpu/src/profile.rs:551-591 | Recording samples and closing the window gives exactly their histogram. |
| `HistogramScan.EverySampleInOneWindow` | crates/cpu/src/profile.rs:581-591 | With recorders running during the scan every closed window counts exactly the samples it took, and what no window has taken is still in the counters. |
| `HistogramScan.TagsAreFinal` | crates/cpu/src/profile.rs:581-591 | A sample taken by one window is never given to another. |
| `HistogramScan.ScanTakesForGood` | crates/cpu/src/profile.rs:581-591 | The first scan of its bucket after a sample gives it to the window then open, for the rest of the run. |
| `HistogramScan.ClosedWindowDescribesItsSamples` | crates/cpu/src/profile.rs:581-619 | Every window closed while recorders run is the histogram of exactly the samples it took, so its count, percentiles and sum describe them as above. |
| `ProbeTable.RipTable.RipInsert` | crates/cpu/src/profile.rs:937-957 | The probe loop lands in the first free or matching of 16 slots, or overflows. |
| `ProbeTable.RipTable.RipSnapshot` | crates/cpu/src/profile.rs:979-995 | One row per occupied slot. |
| `ProbeTable.EveryHistoryAgrees` | crates/cpu/src/profile.rs:937-957 | Over every history in which no insert of 2^64-1 lands, each occupied slot is where its key is found and has counted it exactly, and an address without a slot overflowed every time. |
| `ProbeTable.InsertsAreConserved` | crates/cpu/src/profile.rs:937-957 | Total plus overflow is the number of inserts, and the hits sum to the total. |
| `ProbeTable.TableAgreesWithMultiset` | crates/cpu/src/profile.rs:937-995 | In such a history a snapshot row (address, count) appears if and only if the address was inserted, never overflowed, and was inserted count times; no key occupies two slots. |
| `ProbeTable.WrappedAddressIsNotListed` | crates/cpu/src/profile.rs:937-945 | No history lists address 2^64-1. |
| `ProbeTable.CountsAreExactIff` | crates/cpu/src/profile.rs:937-995 | Rows are exact at every point of a history if and only if no insert of 2^64-1 in it lands. |
| `ProbeTable.PhantomHitIsInherited` | crates/cpu/src/profile.rs:937-957 | A landed hit of 2^64-1 stays in a slot still marked free, and any address with the same home that claims it is reported with one hit too many. |
| `ProbeTable.PhantomHitOf2991` | crates/cpu/src/profile.rs:937-995 | Inserting 2^64-1 and then 2991 lists 2991 with two hits. |
| `ProbeTable.OverflowsIff` | crates/cpu/src/profile.rs:937-957 | An insert overflows if and only if the sixteen slots from the one its address hashes to all hold other addresses. |
| `ProbeTable.OverflowNeedsSixteenOthers` | crates/cpu/src/profile.rs:937-957 | So no sample is lost before sixteen other addresses have been sampled. |
| `CString.RangeInArenaIsExact` | crates/core/src/guest_ptr.rs:42-53 | A range is accepted exactly when it is non-null, non-empty, does not overflow and lies in the arena byte for byte. |
| `CString.ReadWindow` | crates/core/src/guest_ptr.rs:238-251 | The halving retry fails exactly when the first byte is unmapped, and otherwise returns true bytes. |
| `CString.ReadCstr` | crates/core/src/guest_ptr.rs:226-261 | The chunked scan equals the byte-at-a-time scan for every seam exact on single bytes and sound on ranges, and terminates. |
| `CString.CstrIsFirstNul` | crates/core/src/guest_ptr.rs:226-261 | That scan returns a string if and only if it is the bytes before the first NUL, the NUL lies within max, and every byte up to it is mapped. |

## Hypotheses worth knowing

- `WaveLanes.WaveEqualsLanes` assumes that no instruction of a block writes EXEC, that SGPR pairs used as
  lane masks are only used as masks, that divergent arms write only VGPRs and exports, that loop bodies write
  only VGPRs, exports and VCC and do not continue on `vccz`, and that the back-edge block lies on the
  header's unconditional chain. `build_cfg` does not check the last one. A `vccz` loop is excluded
  because a lane that has left the loop has its VCC bit cleared by compares it no longer takes part in
  (`Predicates.DroppedLaneLosesVcc`).
- `LoopBudget.WalkEndsIff` assumes besides that every forward conditional's arms meet, and that no
  instruction faults.
- `FetchShader.TableReplacesSubroutine` and the `FetchTable` theorems assume 4-aligned load quads that
  clobber no later pointer pair, and attribute blocks disjoint from each other and from later index
  registers.
- `InlineProof.InliningPreservesMeaning` assumes that the return reads the pair the call saved, that the
  body does not touch it, that the rest of the caller reads a register of the pair only after replacing
  it (shown by the set of registers still stale at each instruction), that no branch crosses the call,
  and that the fetch pointer points at the body when the call is first reached
  (`InlineProof.PointerAtFirstCall`).
- `InlinedWalk.InlinedWalkIsTheCall` takes the hypotheses of both; its call machine branches on the one
  lane's own VCC bit.
- `Witnesses` shows each of these sets of hypotheses met by a concrete shader.

## Where the code and its documentation differ

- The module documentation says the recovered table replaces the subroutine; the code drops the fetch
  instruction's own offset, index register and scalar offset (`FetchShader.TableOmitsOffsets`). The table
  alone is enough exactly when every fetch is indexed by v0 and adds no offset
  (`FetchTable.TableSufficesIff`).
- The splice is documented to leave no jump behind; the code removes the call and the body's return, and
  leaves an s_setpc exactly when the main stream itself contains one (`FetchCall.NoCallLeft`,
  `Witnesses.KeptReturn`).
- The arena documents that churn reuses space; that is exact exactly when no compare-and-swap cuts a
  block while one of its size waits (`HleArena.RecyclingIsPerfectIff`, `HleArena.LateBumpOutrunsPeak`).
- The sample table documents address 0 as a distinct key; address 2^64-1 is the one that is not. It is
  never listed, a hit of it that lands is credited to the next address that claims the slot
  (`ProbeTable.PhantomHitIsInherited`), and counts are exact exactly when none lands
  (`ProbeTable.CountsAreExactIff`).
- A reporting window documents its minimum as exact; a window whose samples are all 2^64-1 reports 0
  (`HistogramWindows.WindowReportsExtremes`).
- The loop documentation says that the header dominates the whole loop body; `validate_loops` does not
  check it. It holds exactly when no reachable block outside the loop has an edge past the header
  (`LoopEntry.HeaderDominatesIff`), and an accepted stream breaks it (`LoopEntry.HeaderNeedNotDominate`).

## Left out

- f32 rounding, half-float conversion, the VOP1 conversions, texture descriptors and filtering, and
  transcendental functions: values of `Env`, not modelled.
- The SPIR-V recompiler and the disassembler.
- Launch-state initialisation for vertex and pixel waves: a walk starts from any state.
- Error payloads of the interpreter: an instruction fault is one value, and the walk's failures are told
  apart although the source reports most of them as the same unsupported-instruction error.
- The program counter field of the wave state, which only feeds error messages.
- FetchCall.ResolveFetchCall: asks that both streams together hold fewer than 2^32 dwords, because the
  offsets it writes are 32-bit.
- Decoder.DecodeAll: asks for fewer than 2^32 dwords for the same reason.
- Cfg.BuildCfg: asks for strictly increasing offsets, which decoded and spliced streams have.
- Wave-level s_swappc and s_setpc inside the interpreter, which rejects them; only `CallMachine` runs them.
- Clock.GuestClock.NowNs: nanoseconds are unbounded, and other readers' stores are given as a list.
- ClockInterleaving.ReadsAreOrdered: steps are sequentially consistent; weak-memory reordering is not modelled.
- GuestCall.GuestThread.Loop: profiling, tracing, watchdog logging, errno and register context are not
  modelled; addresses are unbounded and negative ones are simply not writable.
- The value a nested guest call hands back to its handler: handlers are fixed lists of actions.
- Guest code that never exits: a vcpu is a finite list of exits.
- Tiling.Detile: extents are unbounded, so 32-bit overflow of the tile count past 16384 texels a side is
  not modelled; two-dimensional macro-tiling has no detiler in the source either.
- HleArena.Hle.Alloc: sizes within 15 of 2^64 and a poisoned free-list lock are not modelled.
- HleArena.ArenaIsPartitioned: blocks of size 0 are not tracked, since they hold no byte.
- HistogramWindows.DistWindow: the percentile rank is the exact ceiling, not the f64 product; counters do
  not wrap at 2^64.
- HistogramScan.EverySampleInOneWindow: covers counts; minimum and maximum are separate atomics and can
  fall into the window before or after their sample's count.
- ProbeTable.RipTable.RipSnapshot: rows are in slot order; the final sort by hit count is not modelled.
- CString.ReadCstr: returns bytes, not the lossy UTF-8 decoding, and addresses are unbounded past the
  first check.
- The x86 JIT, the mmap arena, GPU backend commands, video output, audio and the HLE libraries.
