# Verification of the WebAssembly port

A Dafny model of the hard parts of this repository: the WebAssembly recompiler back end with
its jump rewriting, code emission, binary encoding and differential oracle; the lazy
copy-on-write disk and the lock-free frame ring of the platform layer; and, in the emulator
core, the floppy track codec, the timer list, the tape player and the calendar clock, with
the MIDI stream service of the web front end. `dafny verify dfyconfig.toml` checks it all.

## The parts

**The recompiler.** `JumpLists` and `Compile` drive the back end over a list of integer
uops, as `codegen_ir_compile` does. `Handlers` emits each uop through `Backend`, which keeps
the byte buffer, the labels and the patch records; `EmitLog` is the ghost record of what was
emitted, and every table is tied to it. The epilogue resolves the patches, rebuilds the body
with its label blocks and wraps it in a module (`WasmModule`, over the byte writer
`Emitter` and the integers of `Leb128`). `Wasm` gives the instructions, a parser for them
(section 5.4 of the WebAssembly Core Specification 1.0) and what a body does when it runs
(section 4.4); `I32` gives the 32-bit operators as bit vectors. `JumpRewrite` shows that the
nested body does what the flat one does with its branches read as jumps; `Uops`, `UopProofs`
and `CondProofs` that the code of a uop computes the uop; `Capacity` that nothing overflows.
The end of the chain is `Compile.CompileBlock`: for any uops up to the number there can be,
the bytes in the module buffer parse, and the function they hold, run by the rules of the
specification, leaves the twelve host registers as the uops say.

**The oracle.** `Oracle` runs the block with its stores journaled, rolls them back, replays
the interpreter and decides; the contract of `Exec` gives the verdict and the RAM exactly.

**The disk.** `BlockCache` has the cache as a value and `DiskIo` the engine that changes it
in place. `Session` runs any commands, with faults, evictions, failed fetches and failed
allocations wherever they fall, and shows the replies to be those of flat byte arrays.

**The ring.** `NetRing` has the two threads as a state machine of single steps, one byte
copied at a time, and the ring as a class whose calls are runs of those steps.

**The floppy codec.** `Huffman` (sub-streams of a track), `Mfm` (clock bits, and their late
insertion) and `Amiga` (odd/even sector coding) prove the readers against encoders.

**State machines.** `Timers` (the linked list, in place), `Pzx` (the tape: PULS, PAUS and DATA
blocks, the last in `PzxData`), `Midi` (stream reassembly), `Rtc` (the one-second tick) and
`TableSlots` (function-table slots).

Where the program updates fields or arrays in place the model is a class, each method tied
to a function or predicate about which the main results are then proved. Fetches,
allocations and table growth, whose outcome the program does not decide, are parameters or
left open; a fetch that succeeds is taken to give the bytes of the file, and a table that
grows to give a slot that is not in use.

## Findings

What the proofs turned up that the code does not do, each with the exact condition and a
concrete input.

| what fails | when, exactly | source | members |
|---|---|---|---|
| A left rotate of a 16-bit view by a register is not a rotation: the recipe shifts by 16 less the count without reducing it. A view of 1 rotated left by 17 gives 0. | The count modulo 32 is above 16 and the rotation carries bits round; over all register values, the count modulo 32 is above 16. | wasm/jit/codegen_backend_wasm_uops.c:1167-1179 | `UopProofs.RotateExact`, `UopProofs.RotateAlways`, `UopProofs.RotateGoesWrong` |
| A jump uop is bound past its destination, because a uop's one link is both the head of its own list of jumps and its place in another list. | Its destination is itself a jump. The jump then goes to the end of that chain. The front end puts a register move behind such uops, so no block it builds has one. | core/src/codegen/codegen_ir.c:147-169 | `JumpLists.ThreadedSame`, `Compile.JumpToJumpGoesWrong` |
| A disk read or write fails although every fetch and allocation succeeded, since the fetched run evicts its own first block. | The room left on the ring, with the entries up to the last live one, is positive and smaller than the run. 511 one-byte writes from the end of a fresh disk down lead to it. | wasm/platform/wasm-diskio.c:273-285 | `DiskIo.DiskEngine.DiskBlock`, `DiskIo.FaultCanFail` |
| A preloaded block is shown with zeros in place of bytes of the file. | The header staged ends inside the file's last block, which was not resident, and a byte of the file behind it is not 0. The page asks for the file's first four blocks or all of it, so only a server that answers with less leads there. | wasm/platform/wasm-diskio.c:372-391 | `DiskIo.StagedExactly`, `DiskIo.ShortHeaderGoesWrong`, `DiskIo.PageHeaderOk` |
| An abandoned replay does not leave the RAM of the compiled block. | The interpreter's stores changed a byte that the block's do not write. | wasm/jit/wasm-jit-oracle.c:383-392 | `Oracle.AbandonedReplay`, `Oracle.Exec`, `Oracle.AbandonedLosesRam` |
| A SysEx dump is lost, and what is left of it, its last byte included, is taken as messages. | It has 65536 data bytes or more. | web/js/midi.js:129-131 | `Midi.DumpLimit`, `Midi.LongDumpLost` |
| The last bit of a DATA block plays only the first pulse of its waveform: the count of bits has reached 0 when the bit is loaded, and the next step goes on with the tail. | The last bit's waveform has more than one pulse. | core/src/pzx.c:275-304 | `PzxData.LastBitCutShort` |
| Advancing the tape in two calls is not the same as in one, since the rest of a pulse is dropped. | The first call ends inside that last pulse of a DATA block. | core/src/pzx.c:275-318 | `Pzx.AdditiveExactly`, `Pzx.TwoCallsDiffer` |
| A tape is closed after one pass instead of starting again. | Its first block is the only PULS, PAUS or DATA block, as on a tape that is one PAUS block. With a block of another kind in front it starts again. | core/src/pzx.c:173-179 | `Pzx.StartsAgain`, `Pzx.ClosesAfterOnePass` |

## Model

| member | source | states |
|---|---|---|
| Leb128.ULebRoundTrip | wasm/jit/wasm-emit.c:54-62 | the bytes the unsigned LEB128 writer gives for any number below 2^n are read back, as uN, as that number and the rest of the input |
| Leb128.SLebRoundTrip | wasm/jit/wasm-emit.c:66-77 | the same for the signed writer and sN, negative numbers included |
| Leb128.ULeb5RoundTrip | wasm/jit/codegen_backend_wasm.c:296-312 | the five-byte padded form written over a branch placeholder is read back as the depth, for any depth of 32 bits |
| Emitter.WasmEmit.EmitByte | wasm/jit/wasm-emit.c:37-43 | the byte is appended, or the emitter fails, which it does exactly when the buffer is full or it had failed before |
| Emitter.WasmEmit.EmitBytes | wasm/jit/wasm-emit.c:45-52 | all bytes are appended, or none and the emitter fails, exactly when they do not fit |
| Emitter.WasmEmit.EmitULeb | wasm/jit/wasm-emit.c:54-62 | the loop appends the LEB128 form of the number, or fails exactly when it does not fit |
| Emitter.WasmEmit.EmitSLeb | wasm/jit/wasm-emit.c:66-77 | the same for the signed form |
| Emitter.WasmEmit.EmitMem | wasm/jit/wasm-emit.c:146-156 | the bytes of a load or store are appended and are read, whatever follows, as exactly that instruction |
| Emitter.WasmEmit.EmitCallIndirect | wasm/jit/wasm-emit.c:158-163 | the bytes of the table index and the call are appended and are read as exactly those two instructions |
| WasmModule.ModuleRoundTrip | wasm/jit/wasm-emit.c:203-323 | parsing the bytes of any well-formed module by the module grammar gives the module back, every section ending where its declared size says |
| WasmModule.WrapModule | wasm/jit/wasm-emit.c:203-323 | the wrapper writes the bytes of the module with this type, these local groups and this body and END, or returns -1 exactly when they do not fit; the scratch buffers never overflow |
| WasmModule.WrapRoundTrip | wasm/jit/wasm-emit.c:203-323 | from those bytes the parser gets the function type, the local groups, the body with END, the export "f", the type table and the two imports |
| JumpRewrite.RebuildPreservesMeaning | wasm/jit/codegen_backend_wasm.c:296-334 | the rebuilt body, run as WebAssembly, has the outcome of the flat body with every branch read as a jump to its label, for any labels, jumps, nesting and meaning of the plain instructions |
| JumpRewrite.AfterEndLabel | wasm/jit/codegen_backend_wasm.c:296-334 | a branch by the patched depth leaves exactly the blocks up to its label's end and goes on behind it |
| EmitLog.FlatWellFormed | wasm/jit/codegen_backend_wasm.c:150-213 | label positions ascend strictly, no block is open at a label, and each label lies behind the branches bound to it |
| Backend.BackendState.EmitBrPatch | wasm/jit/codegen_backend_wasm.c:150-172 | appends a branch with a placeholder and a patch record with its operand position and nesting, or fails exactly when the table is full |
| Backend.BackendState.SetJumpDest | wasm/jit/codegen_backend_wasm.c:196-213 | binds the patch to a label here, one label serving all jumps to the place; fails for a bad handle or a full label table only |
| Backend.AscendingOffsets | wasm/jit/codegen_backend_wasm.c:291-294 | the epilogue's check that labels ascend cannot fail |
| Backend.Epilogue | wasm/jit/codegen_backend_wasm.c:252-340 | a module is built exactly when emission did not fail, no block is open, the cost model accepts, every patch is bound and the bytes fit; its bytes are those of the rebuilt body, wrapped |
| Backend.FinalFits | wasm/jit/codegen_backend_wasm.c:313-334 | a body and a label table that fit their own buffers can always be rebuilt in the final buffer, at three bytes a label |
| Backend.AlwaysFits | wasm/jit/codegen_backend_wasm.c:313-340 | and the module always fits its buffer |
| Backend.ModuleRunsAsEmitted | wasm/jit/codegen_backend_wasm.c:252-340 | the bytes of the module decode to a body that runs, from any world, to the outcome of the emitted instructions with branches taken as jumps |
| UopProofs.RunSrc | wasm/jit/codegen_backend_wasm_uops.c:83-100 | the code leaves the zero-extended sized view of the register on the stack and nothing else changed |
| UopProofs.RunDst | wasm/jit/codegen_backend_wasm_uops.c:103-138 | the code merges the top of the stack into the register's view |
| UopProofs.SarExact | wasm/jit/codegen_backend_wasm_uops.c:1087-1120 | at every size and count the recipe is the arithmetic shift of the sign-extended view, with no bit of the byte below BH let in |
| UopProofs.NarrowRotExact | wasm/jit/codegen_backend_wasm_uops.c:1142-1191 | the doubled view shifted right has the bits of the uop's meaning, for every narrow size, direction and count |
| UopProofs.RunWrite | wasm/jit/codegen_backend_wasm_uops.c:83-176 | for every register-writing uop the code leaves the operand stack as found, the host registers as the uop means, and every other local but the two scratch ones alone |
| UopProofs.WrittenIsOnly | wasm/jit/codegen_backend_wasm_uops.c:103-138 | what a uop means is the only outcome in which the destination's view holds the computed value, cut to size, and every other bit of every host register is unchanged |
| UopProofs.RotateExact | wasm/jit/codegen_backend_wasm_uops.c:1142-1210 | for given registers a rotate uop leaves the rotated source view, at 8, 16 and 32 bits, except for the left 16-bit rotate by register past 16 with bits to carry round |
| UopProofs.RotateAlways | wasm/jit/codegen_backend_wasm_uops.c:1142-1210 | a rotate uop is true for all registers holding a count, if and only if it is not a left 16-bit one by register or that count modulo 32 is at most 16 |
| UopProofs.RotateGoesWrong | wasm/jit/codegen_backend_wasm_uops.c:1167-1179 | a register value and count for which the condition fails and the view comes out 0 instead of 2 |
| CondProofs.CompareTop | wasm/jit/codegen_backend_wasm_uops.c:397-426 | comparing two views shifted to the top of the word is comparing the views, for all ten conditions, signed and unsigned |
| CondProofs.OverflowTop | wasm/jit/codegen_backend_wasm_uops.c:462-506 | the sign of the exclusive-or formula on aligned views is signed overflow of the subtraction at that size |
| CondProofs.RunCond | wasm/jit/codegen_backend_wasm_uops.c:397-556 | the code of a jump uop leaves one value, nonzero exactly when the jump is to be taken, and the host registers alone |
| CondProofs.RunExitCond | wasm/jit/codegen_backend_wasm_uops.c:361-390 | the same for the conditional exits |
| Handlers.GenAlu2 | wasm/jit/codegen_backend_wasm_uops.c:144-162 | the handler appends the code of the uop that RunWrite is about |
| Handlers.ESarCommon | wasm/jit/codegen_backend_wasm_uops.c:1087-1120 | the same for the arithmetic shift, the realignment at emit time included |
| Handlers.ERotCommon | wasm/jit/codegen_backend_wasm_uops.c:1142-1191 | the same for the rotates |
| Handlers.GenCmpJcc | wasm/jit/codegen_backend_wasm_uops.c:397-426 | the same for the compare jumps |
| Handlers.GenCmpJo | wasm/jit/codegen_backend_wasm_uops.c:462-506 | the same for the overflow jumps |
| Handlers.EmitUop | wasm/jit/codegen_backend_wasm_uops.c:83-1210 | any integer uop appends its tokens and no others, closes every block it opens, and gives a jump the handle of its patch record; only a full body can fail it while a patch record is left |
| Capacity.SpellsLength | wasm/jit/wasm-emit.c:37-163 | an upper bound on the bytes of each instruction, over everything that is read as it |
| Capacity.UopTotal | wasm/jit/codegen_backend_wasm_uops.c:83-1210 | no integer uop takes more than 95 bytes of body |
| Capacity.BodyFits | wasm/jit/codegen_backend_wasm.c:82-86 | the body buffer holds a block of as many uops as there can be |
| JumpLists.JumpThreads.Append | core/src/codegen/codegen_ir.c:148-169 | a jump just emitted is put behind the last of its destination's list, or of the list to the end, and with it the list it heads; the links stay one list per place, of exactly the jumps whose chain has come there |
| JumpLists.TargetStep | core/src/codegen/codegen_ir.c:86-95 | binding the list of a place moves the targets of just the jumps whose chain of jumps has come to it |
| JumpLists.ThreadedSame | core/src/codegen/codegen_ir.c:86-169 | every jump is bound to its own destination if and only if no jump goes to a jump |
| Compile.BindHere | core/src/codegen/codegen_ir.c:88-95 | walking the list binds every jump waiting for the uop, here, and no other |
| Compile.BindEnd | core/src/codegen/codegen_ir.c:173-182 | the same at the end of the block, after which every jump is bound to the end of its chain |
| Compile.FlatMeaning | core/src/codegen/codegen_ir.c:82-171 | the emitted flat body, from any uop on, finishes and leaves the host registers as the uops from there on mean |
| Compile.CompileBlock | core/src/codegen/codegen_ir.c:52-189 | a module that is built runs, from all register values, to the end and to the host registers the uops mean (their jumps threaded, which changes nothing if none goes to a jump); one is built for every block of up to UOP_NR_MAX uops that the cost model accepts |
| Compile.JumpToJumpGoesWrong | core/src/codegen/codegen_ir.c:86-169 | a three-uop list with a jump to a jump for which the threaded list means something else |
| Oracle.WriteBack | wasm/jit/wasm-jit-oracle.c:247-266 | writing the old value back undoes a write of 1, 2 or 4 bytes |
| Oracle.JitOracle.NoteRamWrite | wasm/jit/wasm-jit-oracle.c:79-99 | the write is entered in the journal of the running phase; the run is tainted exactly when that journal is full |
| Oracle.JitOracle.Rollback | wasm/jit/wasm-jit-oracle.c:262-266 | RAM is back to what it was before the first entry, however the writes overlap |
| Oracle.JitOracle.Reapply | wasm/jit/wasm-jit-oracle.c:268-272 | RAM is as after the journal's writes made on what was there |
| Oracle.JitOracle.JournalsEqual | wasm/jit/wasm-jit-oracle.c:222-241 | true exactly when the two journals have the same writes in the same order |
| Oracle.ReplayedStores | wasm/jit/wasm-jit-oracle.c:268-272 | writing a journal again over any RAM makes the stores it records |
| Oracle.Exec | wasm/jit/wasm-jit-oracle.c:332-418 | which verdict is given, after how many of the at most 4096 interpreter steps an instruction and 64 more, exactly; a verified block left the same RAM and state under both; a skipped one the JIT's RAM; a mismatch the interpreter's; an abandoned one the JIT's stores over the replay's, which is the JIT's RAM just when the replay changed no other byte |
| Oracle.AbandonedReplay | wasm/jit/wasm-jit-oracle.c:383-392 | making the JIT's stores again over what the replay left gives the JIT's RAM if and only if every byte the replay changed is one they write |
| Oracle.AbandonedLosesRam | wasm/jit/wasm-jit-oracle.c:383-392 | a run that is abandoned and ends with RAM other than the JIT's |
| BlockCache.InsertedOk | wasm/platform/wasm-diskio.c:213-239 | inserting in the ring keeps its entries distinct and never absent, each clean unpinned block entered, and every dirty block as it was, whatever is evicted |
| BlockCache.CleanBounded | wasm/platform/wasm-diskio.c:213-239 | there are never more than 512 clean blocks that are not pinned |
| BlockCache.PlacedRunShape | wasm/platform/wasm-diskio.c:270-285 | a run placed block by block loses its first block if and only if EvictsItself holds of the ring before it |
| DiskIo.DiskEngine.EvictOldest | wasm/platform/wasm-diskio.c:213-239 | the scan that starts over ends, and frees the first live entry of the ring and nothing else |
| DiskIo.DiskEngine.CleanRingInsert | wasm/platform/wasm-diskio.c:213-239 | the array ring does what insertion does on the value |
| DiskIo.DiskEngine.DiskBlock | wasm/platform/wasm-diskio.c:249-286 | the block ends resident if and only if it was, or the fetch and an allocation succeed and the run does not evict its own first block; dirty blocks of every disk stay, and no other becomes dirty; disks and ring are those of placing the run block by block |
| DiskIo.DiskEngine.DiskRw | wasm/platform/wasm-diskio.c:290-329 | 0 is returned only for a transfer exactly as on a flat byte array, and always when all of its blocks are resident; a failed one changed no more than the front it reports done; what other disks show is the same, and dirty blocks stay dirty |
| DiskIo.DiskEngine.Register | wasm/platform/wasm-diskio.c:113-138 | a free slot then shows the file, or none is free and nothing changed |
| DiskIo.DiskEngine.Preload | wasm/platform/wasm-diskio.c:357-399 | pinning blocks of the file's front changes nothing a guest sees, for every header for which that is so |
| DiskIo.StagedExactly | wasm/platform/wasm-diskio.c:372-391 | a block that the preload loop does not stop at gets the bytes of the file if and only if the header covers it or the file is zeros behind the header |
| DiskIo.ShortHeaderGoesWrong | wasm/platform/wasm-diskio.c:372-391 | a file of two bytes and a header of one for which it does not |
| DiskIo.PageHeaderOk | web/js/emulator.js:122-139 | the header that the page asks for, the file or the first four blocks of it, is always one for which it does |
| DiskIo.Session | wasm/platform/wasm-diskio.c:113-399 | over any run of attachments, preloads, reads and writes, with failures wherever they fall, every reply is that of flat byte arrays that start as the files and keep every write; an attachment takes a free slot and fails exactly when there is none or it cannot be allocated; a read or write fails only for bad arguments or when a block of it is not resident, and blocks once written stay resident |
| DiskIo.FaultCanFail | wasm/platform/wasm-diskio.c:213-286 | a run of 511 writes from a fresh disk, by the steps that DiskBlock states, to a state in which the next fault evicts its own run |
| NetRing.RingSafe | wasm/platform/wasm-net.c:86-147 | under every interleaving the frames popped are a prefix, byte for byte, of those whose push returned 1; head minus tail modulo 2^32 is the bytes in flight and at most the ring size; the corrupt-record branch is never taken; head equals tail exactly when all is popped |
| NetRing.RefusedWhenFull | wasm/platform/wasm-net.c:112-118 | a push is refused if and only if its record does not fit in what is free |
| NetRing.NoDataRace | wasm/platform/wasm-net.c:91-109 | the threads are never about to touch the same byte of the buffer |
| NetRing.ByteRing.WriteBytes | wasm/platform/wasm-net.c:91-99 | the two copies put each byte in its place behind the index, around the end of the buffer, and change no other |
| NetRing.ByteRing.ReadBytes | wasm/platform/wasm-net.c:101-109 | the two copies read the bytes behind the index in order |
| NetRing.ByteRing.Push | wasm/platform/wasm-net.c:112-125 | for frames of any length, 0 exactly when refused, with nothing changed; else the record is in place and head moved past it |
| NetRing.ByteRing.Pop | wasm/platform/wasm-net.c:128-147 | nothing on an empty ring, a drain over a bad header, and else the record's bytes with tail moved past it |
| NetRing.PushAlone | wasm/platform/wasm-net.c:112-125 | the producer's steps, uninterrupted, have the effect of the call |
| NetRing.PopAlone | wasm/platform/wasm-net.c:128-147 | the consumer's steps, uninterrupted, have the effect of the call, in all three cases |
| TableSlots.SlotPool.FreeBlock | wasm/jit/codegen_backend_wasm.c:367-377 | the block's slot goes on the list, which always has room for it |
| TableSlots.SlotPool.Install | wasm/jit/codegen_backend_wasm.c:341-352 | the last slot on the list is taken off and used, or a new one, or none; no slot is then in two places |
| TableSlots.Calls | wasm/jit/codegen_backend_wasm.c:341-377 | over any sequence of frees and installs the pool does as an unbounded list would; no slot is held twice, waits twice, or is held and waits; held and waiting slots never exceed BLOCK_SIZE |
| Huffman.ShapeRoundTrip | core/src/fdi2raw.c:170-196 | the preorder bits of any tree are read back as its shape |
| Huffman.FillRoundTrip | core/src/fdi2raw.c:198-217 | the leaf values, of one or two bytes, come back in order |
| Huffman.SubRoundTrip | core/src/fdi2raw.c:239-303 | one sub-stream written as header, shape bits, padding, values and code bits is decoded to its symbols with exactly its bytes consumed |
| Huffman.TrackRoundTrip | core/src/fdi2raw.c:239-303 | a whole track of sub-streams is decoded to the symbols, sign-extended, shifted and or-ed together, for every list of trees, values and symbols |
| Huffman.FdiReader.ExpandTree | core/src/fdi2raw.c:170-196 | with its bit prefetch the recursion reads the shape at the cursor and stops right behind it |
| Huffman.FdiReader.DecodeSymbol | core/src/fdi2raw.c:270-290 | following code bits reaches the leaf they spell |
| Huffman.FdiReader.FdiDecode | core/src/fdi2raw.c:239-303 | the loop leaves the decoded words in the output and the position behind the last sub-stream |
| Mfm.MfmRoundTrip | core/src/fdi2raw.c:344-436 | in a region of bytes written and fixed the odd bits give the bytes back, no two bits in a row are 1 and no four are 0 |
| Mfm.TrackWriter.BitAdd | core/src/fdi2raw.c:366-380 | the bit is put at the write position, unless a drop was pending |
| Mfm.TrackWriter.ByteMfmAdd | core/src/fdi2raw.c:420-424 | eight data bits are added, a recorded clock position in front of each, and nothing else on the track changes |
| Mfm.TrackWriter.FixMfmSync | core/src/fdi2raw.c:1221-1237 | every recorded position gets the clock bit its neighbours call for, in order |
| Mfm.FixedAt | core/src/fdi2raw.c:1221-1237 | a position recorded once ends as a clock bit between its final neighbours |
| Mfm.WriteBytes | core/src/fdi2raw.c:344-436 | bytes written behind anything already on the track, then fixed, obey those three rules |
| Amiga.PairsAreChecksum | core/src/fdi2raw.c:759-788 | the exclusive or of all odd and even longs is the checksum of the sector |
| Amiga.AmigaData | core/src/fdi2raw.c:759-788 | the words put on the track are the split checksum and the split sector, each long where it belongs |
| Amiga.SectorRoundTrip | core/src/fdi2raw.c:759-788 | from the fixed track the odd and even longs, recombined, give the sector and its checksum |
| Amiga.WriteSector | core/src/fdi2raw.c:759-788 | for every 512-byte sector, written behind anything on the track and fixed, that is what is read back |
| Timers.WindowOrder | core/src/timer.c:23-91 | within a window of half the range the wrapped comparison is the order of time |
| Timers.WindowMoves | core/src/timer.c:23-148 | the list stays in order, and the target early enough, when the window moves on, as long as what is in the list lies in both windows |
| Timers.TimerList.TimerEnable | core/src/timer.c:23-91 | the timer is put in front of the first later one, the links agree both ways, and the target is no later than the head |
| Timers.TimerList.TimerDisable | core/src/timer.c:92-111 | the timer is taken out wherever it was, and the others keep their order |
| Timers.TimerList.RemoveHead | core/src/timer.c:112-127 | the head is taken off and its links cleared |
| Timers.TimerList.Due | core/src/timer.c:129-148 | a due timer is the earliest of all; with none due the target is the head's expiry |
| Timers.Calls | core/src/timer.c:23-148 | over any sequence of re-key and enable, disable and processing, each in a window that may have moved on since the last, the list is linked both ways and is, timer for timer, the one the calls make it in the model schedule, with its target; it holds exactly the enabled timers, in order |
| Pzx.ParsesWhatWasWritten | core/src/pzx.c:42-58 | a pulse definition written with any count and any duration of 31 bits is parsed back and its end found |
| Pzx.StepConsumes | core/src/pzx.c:229-327 | a step of a PULS, PAUS or DATA block either shortens the first segment still to come or takes it off, the level flipping exactly at the end of a pulse |
| Pzx.AdvanceAdds | core/src/pzx.c:329-353 | advancing by a and then by b leaves the state and level of advancing by a + b, across pulses, blocks and the end of the tape, unless the first ends inside the pulse played of a DATA block's last bit |
| Pzx.AdditiveExactly | core/src/pzx.c:271-353 | two calls do what one does, for every time given to the second, if and only if the first does not end there |
| Pzx.TwoCallsDiffer | core/src/pzx.c:271-353 | a tape of one DATA block and two calls that leave another state than one |
| Pzx.PlaysTheWave | core/src/pzx.c:229-353 | from any state, at any time inside a segment of the wave still to come, PULS, PAUS and DATA blocks alike, the level is that segment's |
| Pzx.StartsAgain | core/src/pzx.c:146-219 | past its end the tape starts again, unless only its first block is of use: then it is closed |
| Pzx.ClosesAfterOnePass | core/src/pzx.c:173-179 | a tape of one PAUS block is closed after one pass; with a block of another kind in front it is not |
| Pzx.PlaysForEver | core/src/pzx.c:146-353 | over any number of passes the level at any time inside a segment is that segment's |
| Pzx.PzxFile.NextBlock | core/src/pzx.c:146-219 | the loop ends and finds the next usable block, around the end of the file, or closes the tape |
| Pzx.PzxFile.AdvanceData | core/src/pzx.c:271-327 | the bit cursor, the waveform pointer and the counters go as the decoder of whole bits and pulses does, which PzxData is about |
| Pzx.PzxFile.AdvanceBy | core/src/pzx.c:329-353 | the loop ends, with the state and the level those results are about |
| PzxData.PlayConsumes | core/src/pzx.c:271-327 | a step of a DATA block shortens the first segment of its wave, or takes it off with the time left over, but for a cut in the last pulse |
| PzxData.LastBitCutShort | core/src/pzx.c:275-304 | the pulses played are those of all bits but the last and the first pulse of that one: as meant if and only if its waveform is one pulse |
| Midi.MidiService.TakeByte | web/js/midi.js:112-156 | one byte does to the fields and the output what it does to the parser |
| Midi.MidiService.Drain | web/js/midi.js:89-99 | the same for a buffer of bytes |
| Midi.OnlyWholeMessages | web/js/midi.js:101-156 | for any bytes at all, every message sent is a status byte with exactly its number of data bytes below 0x80, or a whole dump |
| Midi.RealtimeTransparent | web/js/midi.js:112-119 | real-time bytes anywhere change neither the state nor the other messages |
| Midi.StreamRoundTrip | web/js/midi.js:101-156 | any channel, common and SysEx messages, printed with running status where allowed and real-time bytes anywhere, are sent exactly as they were, in order |
| Midi.LongDumpLost | web/js/midi.js:121-133 | after a dump of 65536 data bytes or more, from any state between messages, its first 65536 are dropped and the rest is taken as it would be without them, its F7 sent by itself |
| Midi.DumpLimit | web/js/midi.js:121-133 | from any state between messages a dump gets through, alone and whole, if and only if it has fewer data bytes than that |
| Rtc.YearLength | core/src/rtc.c:32-48 | the month table and the leap test add up to the Gregorian count of days from year to year |
| Rtc.Clock.Recalc | core/src/rtc.c:51-72 | each carry is made where its field has run over |
| Rtc.Clock.Tick | core/src/rtc.c:75-78 | from every valid date the tick gives a valid date one second later on the Gregorian calendar |
| Rtc.Clock.Run | core/src/rtc.c:75-78 | n ticks add n seconds, across months, leap days and centuries |
| Rtc.TickIsTheOnly | core/src/rtc.c:51-78 | the tick's date is the only valid one that is a second later |

## Left out

- Compile.CompileBlock: does not model the IR front end and the register allocator. The uops
  come with host registers; the moves that the allocator turns into renamings, the stores it
  makes at barriers, uops marked invalid and the unrolling of loops are not shown.
- Floating-point, MMX, guest-memory, segment and call uops: a handler of those kinds adds
  instructions of the forms already modelled, but their meaning is not given here. So block
  flags that mark helper calls and port I/O enter only as the cost model's inputs.
- The absolute jumps that leave by the fault routine: they call into the emulator on the way out.
- The installed function's run in the browser: the meaning of a module is that of the
  specification, with no traps and no growth of memory among the instructions used.
- Guest RAM handlers and page checks in front of the oracle's journal; a processor state is
  compared as one value, and a block marked not replayable is not run through the oracle.
- DiskIo.Session: does not model unregistering a disk, because entries of an old registration
  on the ring are not told apart from new ones. Preloading is as the page does it, with the
  first bytes of the file, up to four blocks of it, or all of a shorter file.
- DiskIo.DiskEngine.Preload: for a header that StagedExactly shows to go wrong, the state it
  leaves is not given.
- DiskIo.DiskEngine.DiskBlock: a block's buffer is a value, so that freed and reused memory
  is not shown; the request to the browser thread and its wait are one step.
- NetRing.RingSafe: atomic loads and stores are taken in one order that both threads see; the
  acquire and release orders the code names are what makes that sound. The bytes of a copy go
  in ascending order.
- The slirp calls and the pump around the ring.
- Huffman.TrackRoundTrip: a shift of 32 or more, which C leaves undefined, gives 0 here.
  fdi2_decode, cell timing, file reading and the free of a tree are not modelled.
- Mfm.TrackWriter.AddMfmSyncBit: a full table of positions, and writing at position 0, are
  excluded, as are the error paths that follow. Other track formats than the Amiga sector are
  not modelled.
- Timers.Calls: at each call, what is listed lies in one window of half the range, as the
  wrapped comparison needs. Callbacks, split ticks and the branches for corrupted nodes are not
  modelled; TIMER_LESS_THAN is taken to be the sign of the 32-bit difference.
- Pzx.PzxFile.AdvanceBy: a tape has some block of positive length, its PULS blocks end where
  their last definition does, and its DATA blocks hold the bits they announce; on others the
  program runs on for ever or past the block. The fields of a pulse that has run out differ with
  the cut of the time; they are set anew before they are used, and are not part of the state
  compared. The file's own header and version are not modelled.
- Midi.StreamRoundTrip: running status is not carried over a system message: after F1, F2 and F3
  the parser keeps that status, and after a dump the one before it, so a printer has to send
  the status of the next channel message.
- Rtc.Clock.Tick: reading and writing the clock's registers, and dates that are not valid.
- The rest of the emulator: devices, video, sound, user interface, configuration, HTTP server.
