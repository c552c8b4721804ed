# gpuocelot LLVM back end and PTX tools, modelled in Dafny

This project models four sequential pieces of gpuocelot, the PTX
dynamic compiler, and proves properties of the model.

- **The LLVM executable kernel** (`LLVMExecutableKernel`):
  - the `_pad` alignment helper;
  - the four memory allocators for the parameter, local, constant and shared spaces, which lay out variables and rewrite the address operands of `mov`/`ld`/`st`;
  - the texture numbering;
  - the CTA shape, `threads()` and `threadId()`;
  - the extern shared-memory resize;
  - the two CTA launch loops, without and with barriers;
  - the integer atomics and `vote` of the runtime.

  The kernel object is the class `ExecutableKernel.LLVMExecutableKernel`. Its fields are the ones its methods update. Every loop is a method proved against a specification function:
  - `MemoryLayout` holds the allocator placement and rewrite specifications;
  - `KernelLayout` holds the declaration filters;
  - `SharedLayout` holds the shared allocator;
  - `ThreadGrid` holds the thread numbering and the launch loops.

  The atomics are the class `Atomics.Memory`, a byte map that each atomic reads and writes.
- **The LLVM cooperative thread array** (`LLVMCooperativeThreadArray`, ocelot-ptx-2.1 branch):
  - the pools of free and reclaimed thread contexts;
  - the per-function queues of waiting threads;
  - the continuation header each thread leaves at the start of its local frame;
  - the warp-chunked initial issue;
  - the early-exit choice of the next function;
  - the drain loop of `executeCta`.

  The native code is a parameter `native` that rewrites the header. The function call stack is a sequence of frames.
- **The `SimplifyExternalCalls` pass.** It rewrites a call to an external function so that its arguments and results travel in registers instead of through `.param` variables:
  - a backward search finds the `st.param` feeding each input;
  - a forward search finds the `ld.param` consuming each output;
  - the call's argument lists are rewritten to the registers;
  - the dead stores and loads are erased;
  - the parameters are dropped from the kernel.
- **The PTX optimizer driver** (`PTXOptimizer`): the parsing of the pass list and the allocator option, and the order in which `optimize` runs the chosen passes around the conversion to and from SSA form.

Integers that are 32 or 64 bits wide in the C++ are subset types of `int`. Their wrap-around is written out where it happens: the atomic adds, the shared address offset and the signed view of a word.

## Model

| member | source | states |
|---|---|---|
| MemoryLayout.Padding | ocelot/ocelot/executive/implementation/LLVMExecutableKernel.cpp:844-851 | The padding is below the alignment, makes `size + padding` a multiple of it, and is 0 exactly when `size` is already aligned. |
| MemoryLayout.PaddingIsLeast | ocelot/ocelot/executive/implementation/LLVMExecutableKernel.cpp:844-851 | No smaller non-negative padding reaches a multiple of the alignment. |
| MemoryLayout.PlaceAligned | ocelot/ocelot/executive/implementation/LLVMExecutableKernel.cpp:1099-1112 | Each variable the allocator loop places starts at a multiple of its alignment. |
| MemoryLayout.PlaceBounds | ocelot/ocelot/executive/implementation/LLVMExecutableKernel.cpp:1099-1112 | Each placed variable lies between the start size and the final size. |
| MemoryLayout.PlaceDisjoint | ocelot/ocelot/executive/implementation/LLVMExecutableKernel.cpp:1099-1112 | Placed variables occupy disjoint ranges, in declaration order. |
| MemoryLayout.PlaceEnd | ocelot/ocelot/executive/implementation/LLVMExecutableKernel.cpp:1099-1112 | The final size is the last variable's offset plus its size, or the start when there is none. |
| MemoryLayout.PlaceTotal | ocelot/ocelot/executive/implementation/LLVMExecutableKernel.cpp:1099-1112 | The final size is the start plus every size plus every padding inserted. |
| MemoryLayout.PlaceAppend | ocelot/ocelot/executive/implementation/LLVMExecutableKernel.cpp:1099-1112 | Placing one list after another is placing their concatenation. |
| MemoryLayout.InsertAllLookup | ocelot/ocelot/executive/implementation/LLVMExecutableKernel.cpp:1111 | Map insertion never overwrites: the keys grow by the inserted names, and each name keeps the offset of its first insertion. |
| MemoryLayout.OffsetMapCons | ocelot/ocelot/executive/implementation/LLVMExecutableKernel.cpp:1099-1112 | One allocator iteration pads the running size, records the variable at the padded size and continues after it. |
| MemoryLayout.Displace | ocelot/ocelot/executive/implementation/LLVMExecutableKernel.cpp:1121-1150 | A mapped address operand's offset grows by exactly its mapped offset; any other operand is unchanged. |
| MemoryLayout.RewriteSlotEffect | ocelot/ocelot/executive/implementation/LLVMExecutableKernel.cpp:1121-1150 | One iteration of the operand loop changes only that operand, by `Displace`, and moves the instruction to the allocator's space iff the operand was mapped. |
| MemoryLayout.RewriteEffect | ocelot/ocelot/executive/implementation/LLVMExecutableKernel.cpp:1121-1150 | The rewrite of one instruction changes only the d/a/b/c operands of mov/ld/st, each by `Displace`, keeps opcode, type and modifier, and sets the space iff some operand was mapped. |
| MemoryLayout.DedupElements | ocelot/ocelot/executive/implementation/LLVMExecutableKernel.cpp:1458-1481 | The texture order lists each referenced name once and loses none. |
| MemoryLayout.DedupFirstOccurrenceOrder | ocelot/ocelot/executive/implementation/LLVMExecutableKernel.cpp:1458-1481 | A name referenced before another that is first referenced later gets the smaller index. |
| MemoryLayout.IndexOf | ocelot/ocelot/executive/implementation/LLVMExecutableKernel.cpp:1458-1481 | The index is the position of the first occurrence. |
| KernelLayout.ParameterLayout | ocelot/ocelot/executive/implementation/LLVMExecutableKernel.cpp:1099-1112 | Every parameter offset is aligned, parameters are disjoint in declaration order, and `parameterSize` is the last offset plus size (0 with no parameters). |
| KernelLayout.LocalLocalSlotsMembers | ocelot/ocelot/executive/implementation/LLVMExecutableKernel.cpp:1323-1336 | Exactly the kernel locals of the local space are placed. |
| KernelLayout.LocalLayout | ocelot/ocelot/executive/implementation/LLVMExecutableKernel.cpp:1323-1336 | The per-thread local frame is aligned and disjoint, and its size covers every variable. |
| KernelLayout.LocalOffsetsKeys | ocelot/ocelot/executive/implementation/LLVMExecutableKernel.cpp:1323-1336 | The local map names exactly the local-space variables. |
| KernelLayout.ConstantLayout | ocelot/ocelot/executive/implementation/LLVMExecutableKernel.cpp:1394-1410 | Constants (the module globals with the const directive) are aligned, disjoint and covered by `constantSize`. |
| KernelLayout.TextureNamesMembers | ocelot/ocelot/executive/implementation/LLVMExecutableKernel.cpp:1458-1481 | The referenced texture names are exactly the texture operands of tex instructions. |
| KernelLayout.TextureLayout | ocelot/ocelot/executive/implementation/LLVMExecutableKernel.cpp:1458-1481 | Textures get distinct indices 0, 1, … in first-reference order; there are as many as distinct names; every tex instruction's operand holds its texture's index. |
| KernelLayout.TextureFirstReference | ocelot/ocelot/executive/implementation/LLVMExecutableKernel.cpp:1458-1481 | A texture first referenced earlier gets a smaller index. |
| KernelLayout.TextureOrderDeclared | ocelot/ocelot/executive/implementation/LLVMExecutableKernel.cpp:1464-1467 | Every texture given an index is declared in the module, which the C++ asserts. |
| KernelLayout.TextureOrderPrefix | ocelot/ocelot/executive/implementation/LLVMExecutableKernel.cpp:1458-1481 | The indices handed out by the first k instructions are final: a prefix of the final order. |
| SharedLayout.CollectLocalsPlaces | ocelot/ocelot/executive/implementation/LLVMExecutableKernel.cpp:1205-1232 | The shared locals are placed one after the other from the running size, each recorded at its first insertion. |
| SharedLayout.ExternAlignmentCoversGlobals | ocelot/ocelot/executive/implementation/LLVMExecutableKernel.cpp:1172-1203 | `externalAlignment` never shrinks, covers the alignment and type width of every extern global shared variable, and the extern set gains exactly their names. |
| SharedLayout.ExternAlignmentCoversLocals | ocelot/ocelot/executive/implementation/LLVMExecutableKernel.cpp:1205-1232 | The same for extern shared locals. |
| SharedLayout.CollectGlobalsCandidates | ocelot/ocelot/executive/implementation/LLVMExecutableKernel.cpp:1172-1203 | The lazy-allocation candidates are exactly the non-extern shared globals. |
| SharedLayout.FirstReferencesElements | ocelot/ocelot/executive/implementation/LLVMExecutableKernel.cpp:1257-1275 | Each referenced candidate is allocated once; nothing else is. |
| SharedLayout.TouchAllPlaces | ocelot/ocelot/executive/implementation/LLVMExecutableKernel.cpp:1257-1275 | Lazy allocation places the candidates in order of first reference after the running size; unreferenced candidates add nothing. |
| SharedLayout.AllocateStep | ocelot/ocelot/executive/implementation/LLVMExecutableKernel.cpp:1257-1275 | The first reference of a candidate places it in front of the candidates referenced after it, and erases it from the candidates. |
| SharedLayout.TouchAllFrame | ocelot/ocelot/executive/implementation/LLVMExecutableKernel.cpp:1257-1275 | Lazy allocation leaves the extern bookkeeping alone. |
| SharedLayout.ExternSlotsMembers | ocelot/ocelot/executive/implementation/LLVMExecutableKernel.cpp:1249-1255 | The extern operands recorded for one instruction are exactly its address operands naming an extern variable, each once. |
| SharedLayout.ExternRefsMembers | ocelot/ocelot/executive/implementation/LLVMExecutableKernel.cpp:1249-1255 | Over the whole list, the recorded extern operands are exactly the address operands of mov/ld/st naming an extern variable, each once. |
| SharedLayout.ApplyExternalEffect | ocelot/ocelot/executive/implementation/LLVMExecutableKernel.cpp:1297-1303 | The extern patch adds the same amount to every recorded operand and changes nothing else. |
| SharedLayout.SharedScan | ocelot/ocelot/executive/implementation/LLVMExecutableKernel.cpp:1234-1292 | The scan rewrites mov/ld/st against the final map without the extern names (extern names take precedence over the map), and records exactly the extern references. |
| SharedLayout.SharedFinalState | ocelot/ocelot/executive/implementation/LLVMExecutableKernel.cpp:1153-1292 | After the scan, the size and offsets are those of placing the shared locals and then the referenced globals from 0. |
| SharedLayout.SharedSlots | ocelot/ocelot/executive/implementation/LLVMExecutableKernel.cpp:1153-1292 | The shared allocator's placement list can be padded: shared locals first, then the globals in first-reference order. |
| SharedLayout.SharedLayout | ocelot/ocelot/executive/implementation/LLVMExecutableKernel.cpp:1153-1309 | `sharedSize` is the placed size padded to `externalAlignment` (at least 1), hence a multiple of it; the offsets map names the placement of `SharedSlots`. |
| SharedLayout.SharedOperands | ocelot/ocelot/executive/implementation/LLVMExecutableKernel.cpp:1234-1303 | After the allocator, an extern operand's offset grows by the final `sharedSize`, any other mov/ld/st address operand is displaced by the map, and the instruction moves to the shared space iff one of its operands was mapped. |
| SharedLayout.PatchedOperand | ocelot/ocelot/executive/implementation/LLVMExecutableKernel.cpp:1234-1303 | The per-operand outcome of the scan and the extern patch together. |
| SharedLayout.OperandOutcome | ocelot/ocelot/executive/implementation/LLVMExecutableKernel.cpp:1234-1303 | One operand through the scan rewrite and the extern patch. |
| SharedLayout.AllocateShared | ocelot/ocelot/executive/implementation/LLVMExecutableKernel.cpp:1153-1309 | The shared allocator keeps the number of instructions. |
| ExecutableKernel.RewriteInstruction | ocelot/ocelot/executive/implementation/LLVMExecutableKernel.cpp:1121-1150 | The operand loop of one instruction computes `Rewrite`. |
| ExecutableKernel.RewriteOperand | ocelot/ocelot/executive/implementation/LLVMExecutableKernel.cpp:1121-1150 | One operand iteration computes `RewriteSlot`. |
| ExecutableKernel.PlaceParameters | ocelot/ocelot/executive/implementation/LLVMExecutableKernel.cpp:1099-1112 | The declaration loop yields the placed size, the parameters with their offsets, and the map. |
| ExecutableKernel.PlaceLocals | ocelot/ocelot/executive/implementation/LLVMExecutableKernel.cpp:1323-1336 | The local declaration loop yields the frame size and the local map. |
| ExecutableKernel.PlaceConstants | ocelot/ocelot/executive/implementation/LLVMExecutableKernel.cpp:1394-1410 | The constant declaration loop yields the block size and the constant map. |
| ExecutableKernel.NumberTextures | ocelot/ocelot/executive/implementation/LLVMExecutableKernel.cpp:1458-1481 | The texture loop builds a table listing the module textures in first-reference order, and assigns every tex instruction its index. |
| ExecutableKernel.CollectSharedGlobals | ocelot/ocelot/executive/implementation/LLVMExecutableKernel.cpp:1172-1203 | The globals loop computes `CollectGlobals`. |
| ExecutableKernel.CollectSharedLocals | ocelot/ocelot/executive/implementation/LLVMExecutableKernel.cpp:1205-1232 | The locals loop computes `CollectLocals`. |
| ExecutableKernel.ScanInstructions | ocelot/ocelot/executive/implementation/LLVMExecutableKernel.cpp:1234-1292 | The instruction scan computes `ScanAll`, keeping the instruction count and valid extern references. |
| ExecutableKernel.MapExternalOperands | ocelot/ocelot/executive/implementation/LLVMExecutableKernel.cpp:1297-1303 | The extern loop computes `ApplyExternal`. |
| ExecutableKernel.LayOutShared | ocelot/ocelot/executive/implementation/LLVMExecutableKernel.cpp:1153-1309 | The four phases produce `AllocateShared`'s size and instructions. |
| ExecutableKernel.LLVMExecutableKernel.constructor | ocelot/ocelot/executive/implementation/LLVMExecutableKernel.cpp:1514-1540 | A fresh kernel has no memory allocated and an empty CTA shape. |
| ExecutableKernel.LLVMExecutableKernel.RewriteOperands | ocelot/ocelot/executive/implementation/LLVMExecutableKernel.cpp:1121-1150 | The instructions become `RewriteAll` of the old ones. |
| ExecutableKernel.LLVMExecutableKernel.AllocateParameterMemory | ocelot/ocelot/executive/implementation/LLVMExecutableKernel.cpp:1091-1151 | `parameterSize` is the placed end, each parameter holds its placed offset, and mapped operands are displaced (the space is left alone). |
| ExecutableKernel.LLVMExecutableKernel.AllocateSharedMemory | ocelot/ocelot/executive/implementation/LLVMExecutableKernel.cpp:1153-1309 | `sharedSize` and the instructions are those of `AllocateShared`, and the buffer holds the shared and extern sizes. |
| ExecutableKernel.LLVMExecutableKernel.AllocateLocalMemory | ocelot/ocelot/executive/implementation/LLVMExecutableKernel.cpp:1316-1386 | `localSize` is the placed frame, operands move to the local space, the buffer is `threads() * localSize`, and the resume-point offset follows the frame. |
| ExecutableKernel.LLVMExecutableKernel.AllocateConstantMemory | ocelot/ocelot/executive/implementation/LLVMExecutableKernel.cpp:1388-1448 | `_constants` is the constant map, `constantSize` its placement, and mapped operands move to the const space. |
| ExecutableKernel.LLVMExecutableKernel.AllocateTextureMemory | ocelot/ocelot/executive/implementation/LLVMExecutableKernel.cpp:1450-1482 | The texture table lists the module textures in first-reference order, and every tex instruction holds its index. |
| ExecutableKernel.LLVMExecutableKernel.SetKernelShape | ocelot/ocelot/executive/implementation/LLVMExecutableKernel.cpp:1598-1619 | `ntid` becomes (x, y, z); the local buffer is reallocated to `threads() * localSize` only when the thread count changed and a buffer exists. |
| ExecutableKernel.LLVMExecutableKernel.ExternSharedMemory | ocelot/ocelot/executive/implementation/LLVMExecutableKernel.cpp:1647-1660 | The extern size is recorded; a changed size reallocates the shared buffer to extern plus declared size. |
| ExecutableKernel.LLVMExecutableKernel.LaunchCtaNoBarriers | ocelot/ocelot/executive/implementation/LLVMExecutableKernel.cpp:1016-1045 | The result is true iff every thread, in launch order on its own local slice, returns 0; `tid` ends at the last thread visited. |
| ExecutableKernel.LLVMExecutableKernel.LaunchCtaWithBarriers | ocelot/ocelot/executive/implementation/LLVMExecutableKernel.cpp:1047-1089 | The resume words are zeroed, then sweeps run until one in which every thread returned 0; the final words, sweep count and exit are those of `Sweeps`, and `local` ends where it started. |
| ExecutableKernel.RunRow | ocelot/ocelot/executive/implementation/LLVMExecutableKernel.cpp:1020-1040 | The x loop: done iff every thread of the row returns 0. |
| ExecutableKernel.RunPlane | ocelot/ocelot/executive/implementation/LLVMExecutableKernel.cpp:1020-1040 | The y loop: done iff every thread of the plane returns 0. |
| ExecutableKernel.RunGrid | ocelot/ocelot/executive/implementation/LLVMExecutableKernel.cpp:1020-1040 | The z loop: done iff every thread of the CTA, in launch order, returns 0. |
| ExecutableKernel.ZeroResumeWords | ocelot/ocelot/executive/implementation/LLVMExecutableKernel.cpp:1052-1056 | The zeroing loop computes `ZeroResume`. |
| ExecutableKernel.SweepRow | ocelot/ocelot/executive/implementation/LLVMExecutableKernel.cpp:1058-1086 | One row of a sweep computes `Sweep` over the row. |
| ExecutableKernel.SweepPlane | ocelot/ocelot/executive/implementation/LLVMExecutableKernel.cpp:1058-1086 | One plane of a sweep computes `Sweep` over the plane. |
| ExecutableKernel.SweepGrid | ocelot/ocelot/executive/implementation/LLVMExecutableKernel.cpp:1058-1086 | One sweep sets `done` and then sweeps the CTA in launch order. |
| ExecutableKernel.RunSweeps | ocelot/ocelot/executive/implementation/LLVMExecutableKernel.cpp:1058-1086 | The `while( !done )` loop computes `Sweeps` over at most `fuel` sweeps. |
| ThreadGrid.LinearThreadIdBound | ocelot/ocelot/executive/implementation/LLVMExecutableKernel.cpp:1621-1630 | A thread inside the block gets an id below `threads()`. |
| ThreadGrid.MixedRadix | ocelot/ocelot/executive/implementation/LLVMExecutableKernel.cpp:1626-1630 | `threadId()` is the mixed-radix number (ntid.y·tid.z + tid.y)·ntid.x + tid.x. |
| ThreadGrid.LinearThreadIdInjective | ocelot/ocelot/executive/implementation/LLVMExecutableKernel.cpp:1626-1630 | No two threads of the block share an id. |
| ThreadGrid.OrderIsNumbering | ocelot/ocelot/executive/implementation/LLVMExecutableKernel.cpp:1020-1040 | The z, y, x loops visit each thread of the block exactly once, and position i holds the thread with id i. |
| ThreadGrid.ZeroResumeEffect | ocelot/ocelot/executive/implementation/LLVMExecutableKernel.cpp:1052-1056 | Every resume word reads 0 afterwards; every other address keeps its value. |
| ThreadGrid.SlotsDistinct | ocelot/ocelot/executive/implementation/LLVMExecutableKernel.cpp:1058-1086 | Distinct threads have distinct resume words. |
| ThreadGrid.SweepEffect | ocelot/ocelot/executive/implementation/LLVMExecutableKernel.cpp:1058-1086 | A sweep stores each thread's returned value into its own resume word, leaves every other address alone, and clears `done` iff some thread returned nonzero. |
| ThreadGrid.SweepDone | ocelot/ocelot/executive/implementation/LLVMExecutableKernel.cpp:1058-1086 | `done` survives a sweep iff it was set and every thread returned 0. |
| ThreadGrid.SweepsExit | ocelot/ocelot/executive/implementation/LLVMExecutableKernel.cpp:1058-1086 | The loop exits finished only right after a sweep in which every thread returned 0; otherwise it used up all its sweeps. |
| Atomics.LoadAfterStore | ocelot/ocelot/executive/implementation/LLVMExecutableKernel.cpp:181-185 | Loading what an atomic just stored gives back the stored value, reduced to the width of the access. |
| Atomics.LoadBesideStore | ocelot/ocelot/executive/implementation/LLVMExecutableKernel.cpp:181-185 | A load of bytes the store did not cover sees the old memory. |
| Atomics.StoreFrame | ocelot/ocelot/executive/implementation/LLVMExecutableKernel.cpp:181-185 | A store changes only the bytes it covers. |
| Atomics.SignedRoundTrip | ocelot/ocelot/executive/implementation/LLVMExecutableKernel.cpp:268-315 | The signed view of a 32-bit word and back is the identity, both ways. |
| Atomics.EffectiveAddress | ocelot/ocelot/executive/implementation/LLVMExecutableKernel.cpp:170-173 | A shared-space address is offset by the shared base (mod 2^64); other spaces are used as given. |
| Atomics.CountersBounded | ocelot/ocelot/executive/implementation/LLVMExecutableKernel.cpp:233-250 | inc and dec never leave [0, b]; inc wraps to 0 iff d >= b, and dec restarts at b iff d is 0 or above b. |
| Atomics.CountersInverse | ocelot/ocelot/executive/implementation/LLVMExecutableKernel.cpp:233-250 | On [0, b], inc and dec undo each other. |
| Atomics.NewB32 | ocelot/ocelot/executive/implementation/LLVMExecutableKernel.cpp:177-262 | The b32 rule: and, or, xor, add mod 2^32, min, max, inc, dec and exch are defined, and cas is the unsupported case the C++ asserts against. |
| Atomics.AddS32 | ocelot/ocelot/executive/implementation/LLVMExecutableKernel.cpp:282-290 | Signed 32-bit add wraps by 2^32 and is exact when the sum fits. |
| Atomics.NewS32 | ocelot/ocelot/executive/implementation/LLVMExecutableKernel.cpp:282-308 | The s32 rule: add, min and max only. |
| Atomics.NewB64 | ocelot/ocelot/executive/implementation/LLVMExecutableKernel.cpp:331-348 | The b64 rule: add mod 2^64 and exch only. |
| Atomics.CompareAndSwap | ocelot/ocelot/executive/implementation/LLVMExecutableKernel.cpp:357-378 | `c` replaces `d` exactly when `d` equals `b`. |
| Atomics.CompareAndSwapSettles | ocelot/ocelot/executive/implementation/LLVMExecutableKernel.cpp:357-401 | A second identical cas leaves the word alone. |
| Atomics.VoteSingleThread | ocelot/ocelot/executive/implementation/LLVMExecutableKernel.cpp:99-115 | For one thread, vote.all and vote.any agree with the (possibly inverted) predicate, inversion flips them, and vote.uni holds. |
| Atomics.Memory.AtomB32 | ocelot/ocelot/executive/implementation/LLVMExecutableKernel.cpp:165-266 | Returns the old word at the effective address, stores the new b32 value there, and changes no other byte. |
| Atomics.Memory.AtomS32 | ocelot/ocelot/executive/implementation/LLVMExecutableKernel.cpp:268-315 | The same for the signed rules. |
| Atomics.Memory.AtomB64 | ocelot/ocelot/executive/implementation/LLVMExecutableKernel.cpp:317-355 | The same for 64-bit words. |
| Atomics.Memory.AtomCasB32 | ocelot/ocelot/executive/implementation/LLVMExecutableKernel.cpp:357-378 | Returns the old word and stores `CompareAndSwap`, changing no other byte. |
| Atomics.Memory.AtomCasB64 | ocelot/ocelot/executive/implementation/LLVMExecutableKernel.cpp:380-401 | The same for 64-bit words. |
| CooperativeThreadArray.StackCall | branches/ocelot-ptx-2.1/ocelot/executive/implementation/LLVMCooperativeThreadArray.cpp:301-323 | `stack.call` pushes one fresh frame of the given sizes with an unwritten (`Blank`) header; the frames beneath and the fault flag are kept. |
| CooperativeThreadArray.StackReturned | branches/ocelot-ptx-2.1/ocelot/executive/implementation/LLVMCooperativeThreadArray.cpp:301-323 | `stack.returned` leaves exactly the caller frames beneath the top, or at the root keeps the frames and raises the fault flag. |
| CooperativeThreadArray.ReturnUndoesCall | branches/ocelot-ptx-2.1/ocelot/executive/implementation/LLVMCooperativeThreadArray.cpp:301-323 | A return undoes a call. |
| CooperativeThreadArray.SetHeader | branches/ocelot-ptx-2.1/ocelot/executive/implementation/LLVMCooperativeThreadArray.cpp:164-170 | The native code writes only the header of the thread's current frame. |
| CooperativeThreadArray.Adjust | branches/ocelot-ptx-2.1/ocelot/executive/implementation/LLVMCooperativeThreadArray.cpp:301-323 | TailCall (and any other kind) leaves the stack alone; NormalCall keeps every frame and pushes a fresh frame of word2/word3; ReturnCall leaves exactly the frames beneath the top, faulting at the root. |
| CooperativeThreadArray.ThreadIndex | branches/ocelot-ptx-2.1/ocelot/executive/implementation/LLVMCooperativeThreadArray.cpp:199-206 | The decomposed tid is below the extents it is taken over in x and y, and recomposes to the thread id. |
| CooperativeThreadArray.Init | branches/ocelot-ptx-2.1/ocelot/executive/implementation/LLVMCooperativeThreadArray.cpp:182-225 | A non-empty reclaimed pool gives up its last id and only that context's tid changes; otherwise the last free id is popped and that context fully initialized; the other pool is untouched. |
| CooperativeThreadArray.Execute | branches/ocelot-ptx-2.1/ocelot/executive/implementation/LLVMCooperativeThreadArray.cpp:164-170 | Executing a thread rewrites only the header of its own current frame; every other stack and field is unchanged. |
| CooperativeThreadArray.ExecuteAllAppend | branches/ocelot-ptx-2.1/ocelot/executive/implementation/LLVMCooperativeThreadArray.cpp:141-151 | Running a list in two pieces is running it at once, which is what the chunked drain round relies on. |
| CooperativeThreadArray.ExecuteAllEffect | branches/ocelot-ptx-2.1/ocelot/executive/implementation/LLVMCooperativeThreadArray.cpp:172-180 | A warp leaves each thread's stack as it was except the top frame, which ends as `Rerun` of it: the native function, with the thread's context, applied once per occurrence of the thread in the warp; threads outside the warp are untouched. |
| CooperativeThreadArray.ExecuteOnce | branches/ocelot-ptx-2.1/ocelot/executive/implementation/LLVMCooperativeThreadArray.cpp:172-180 | A thread that occurs once in a warp ends with exactly the header the native function produced from its frame before the warp. |
| CooperativeThreadArray.Finish | branches/ocelot-ptx-2.1/ocelot/executive/implementation/LLVMCooperativeThreadArray.cpp:282-324 | All-ones returns true with nothing changed; any other word0 sets the guess; 0 appends the id to queue 0 with the stack untouched; other ids adjust the stack by the call kind and enqueue nothing. |
| CooperativeThreadArray.FinishEnqueues | branches/ocelot-ptx-2.1/ocelot/executive/implementation/LLVMCooperativeThreadArray.cpp:282-324 | A finish adds exactly one queued id when word0 is 0, and none otherwise. |
| CooperativeThreadArray.Reclaim | branches/ocelot-ptx-2.1/ocelot/executive/implementation/LLVMCooperativeThreadArray.cpp:266-272 | The id goes onto the reclaimed pool iff the finish returned true; nothing else but the finish changes. |
| CooperativeThreadArray.Destroy | branches/ocelot-ptx-2.1/ocelot/executive/implementation/LLVMCooperativeThreadArray.cpp:274-280 | The id goes onto the free pool iff the finish returned true. |
| CooperativeThreadArray.DestroyPools | branches/ocelot-ptx-2.1/ocelot/executive/implementation/LLVMCooperativeThreadArray.cpp:327-333 | The free pool becomes free ++ reclaimed (the same multiset) and the reclaimed pool empties. |
| CooperativeThreadArray.ReclaimAllEffect | branches/ocelot-ptx-2.1/ocelot/executive/implementation/LLVMCooperativeThreadArray.cpp:107-111 | Over ids without repeats, the reclaim loop appends exactly the finished ids to the reclaimed pool and the ids naming function 0 to queue 0, both in list order; each listed stack takes its header's change and nothing else moves. |
| CooperativeThreadArray.DestroyAllEffect | branches/ocelot-ptx-2.1/ocelot/executive/implementation/LLVMCooperativeThreadArray.cpp:153-157 | The same for the destroy loop, whose finished ids go onto the free pool. |
| CooperativeThreadArray.ScanPicksFirstLargest | branches/ocelot-ptx-2.1/ocelot/executive/implementation/LLVMCooperativeThreadArray.cpp:239-255 | The scan yields the lowest index of largest size among queue 1 and the queues it reaches, and stops once the running total from queue 2 exceeds half the contexts, or at the last queue. |
| CooperativeThreadArray.NextFunction | branches/ocelot-ptx-2.1/ocelot/executive/implementation/LLVMCooperativeThreadArray.cpp:227-264 | The chosen function is a valid queue index, or none where the code would index past the table. |
| CooperativeThreadArray.NextFunctionChoice | branches/ocelot-ptx-2.1/ocelot/executive/implementation/LLVMCooperativeThreadArray.cpp:227-264 | Queue 0 wins when it holds every context, then the guess when its queue does, else the first largest of the scanned queues. |
| CooperativeThreadArray.InitAll | branches/ocelot-ptx-2.1/ocelot/executive/implementation/LLVMCooperativeThreadArray.cpp:100-103 | The init loop hands out one context per thread id, from the pools only. |
| CooperativeThreadArray.Issue | branches/ocelot-ptx-2.1/ocelot/executive/implementation/LLVMCooperativeThreadArray.cpp:98-127 | The initial phase keeps the state well shaped. |
| CooperativeThreadArray.IssueOrder | branches/ocelot-ptx-2.1/ocelot/executive/implementation/LLVMCooperativeThreadArray.cpp:89-127 | The initial phase issues threads / w full warps and one warp of threads % w, and issues each thread id once, in increasing order. |
| CooperativeThreadArray.IssueGroupEffect | branches/ocelot-ptx-2.1/ocelot/executive/implementation/LLVMCooperativeThreadArray.cpp:98-112 | From pools without repeats, one initial warp takes one context per thread id out of the pools, runs each once so that it holds the entry function's header, then reclaims the finished ones and queues those naming function 0, in warp order. |
| CooperativeThreadArray.Drain | branches/ocelot-ptx-2.1/ocelot/executive/implementation/LLVMCooperativeThreadArray.cpp:129-161 | A completed drain leaves the reclaimed pool empty and the free pool holding at least as many ids as there are contexts (the loop's own exit test is a count). |
| CooperativeThreadArray.DrainStepEffect | branches/ocelot-ptx-2.1/ocelot/executive/implementation/LLVMCooperativeThreadArray.cpp:129-158 | A drain round marks the chosen function resident and moves its queue out (left empty unless it is queue 0); each id runs once, in queue order, holding the header the chosen function produced; then the finished ids go onto the free pool and those naming function 0 onto queue 0. |
| CooperativeThreadArray.DrainCompleted | branches/ocelot-ptx-2.1/ocelot/executive/implementation/LLVMCooperativeThreadArray.cpp:129-161 | A completed drain is some number n of defined rounds, before each of which the free pool was short of the context count and after the last of which it was full, followed by the merge of the pools. |
| CooperativeThreadArray.DrainFreesAll | branches/ocelot-ptx-2.1/ocelot/executive/implementation/LLVMCooperativeThreadArray.cpp:129-161 | When a completed drain's free pool holds no repeats and only context ids, every context is in it: the count of the exit test then means that every context is free. |
| CooperativeThreadArray.DistinctBelowCovers | branches/ocelot-ptx-2.1/ocelot/executive/implementation/LLVMCooperativeThreadArray.cpp:129 | A pool without repeats holding only ids below n, and at least n of them, holds every id below n. |
| CooperativeThreadArray.RunCta | branches/ocelot-ptx-2.1/ocelot/executive/implementation/LLVMCooperativeThreadArray.cpp:87-162 | `executeCta` keeps the state well shaped, and a completed run leaves the reclaimed pool empty and at least as many free ids as contexts. |
| CooperativeThreadArray.RunCtaFreesAll | branches/ocelot-ptx-2.1/ocelot/executive/implementation/LLVMCooperativeThreadArray.cpp:87-162 | The same for a completed `executeCta`. |
| CooperativeThreadArray.ScanQueues | branches/ocelot-ptx-2.1/ocelot/executive/implementation/LLVMCooperativeThreadArray.cpp:239-255 | The scan loop computes `Scan`. |
| CooperativeThreadArray.Enumerate | branches/ocelot-ptx-2.1/ocelot/executive/implementation/LLVMCooperativeThreadArray.cpp:50-55 | The resized free pool is [0, 1, …, threads-1]. |
| CooperativeThreadArray.LLVMCooperativeThreadArray.constructor | branches/ocelot-ptx-2.1/ocelot/executive/implementation/LLVMCooperativeThreadArray.cpp:21-25 | The warp size is the configured one, raised to at least 4; all tables start empty. |
| CooperativeThreadArray.LLVMCooperativeThreadArray.SetupFunctions | branches/ocelot-ptx-2.1/ocelot/executive/implementation/LLVMCooperativeThreadArray.cpp:29-40 | The function table and queues grow to the module's function count only when the module was not loaded; the kernel's function is marked and becomes the next function. |
| CooperativeThreadArray.LLVMCooperativeThreadArray.Setup | branches/ocelot-ptx-2.1/ocelot/executive/implementation/LLVMCooperativeThreadArray.cpp:27-56 | As above, and the contexts and stacks get one entry per thread, with the free pool [0, 1, …, threads-1]. |
| CooperativeThreadArray.LLVMCooperativeThreadArray.InitializeNewContext | branches/ocelot-ptx-2.1/ocelot/executive/implementation/LLVMCooperativeThreadArray.cpp:182-225 | The new state and the id are those of `Init`. |
| CooperativeThreadArray.LLVMCooperativeThreadArray.ExecuteThread | branches/ocelot-ptx-2.1/ocelot/executive/implementation/LLVMCooperativeThreadArray.cpp:164-170 | The new state is `Execute`. |
| CooperativeThreadArray.LLVMCooperativeThreadArray.ExecuteWarp | branches/ocelot-ptx-2.1/ocelot/executive/implementation/LLVMCooperativeThreadArray.cpp:172-180 | The new state is `ExecuteAll`. |
| CooperativeThreadArray.LLVMCooperativeThreadArray.FinishContext | branches/ocelot-ptx-2.1/ocelot/executive/implementation/LLVMCooperativeThreadArray.cpp:282-324 | The new state and result are `Finish`. |
| CooperativeThreadArray.LLVMCooperativeThreadArray.ReclaimContext | branches/ocelot-ptx-2.1/ocelot/executive/implementation/LLVMCooperativeThreadArray.cpp:266-272 | The new state is `Reclaim`. |
| CooperativeThreadArray.LLVMCooperativeThreadArray.DestroyContext | branches/ocelot-ptx-2.1/ocelot/executive/implementation/LLVMCooperativeThreadArray.cpp:274-280 | The new state is `Destroy`. |
| CooperativeThreadArray.LLVMCooperativeThreadArray.DestroyContexts | branches/ocelot-ptx-2.1/ocelot/executive/implementation/LLVMCooperativeThreadArray.cpp:327-333 | The new state is `DestroyPools`. |
| CooperativeThreadArray.LLVMCooperativeThreadArray.ComputeNextFunction | branches/ocelot-ptx-2.1/ocelot/executive/implementation/LLVMCooperativeThreadArray.cpp:227-264 | The next function is `NextFunction`'s choice and it is marked in the function table. |
| CooperativeThreadArray.LLVMCooperativeThreadArray.InitWarp | branches/ocelot-ptx-2.1/ocelot/executive/implementation/LLVMCooperativeThreadArray.cpp:100-103 | The init loop computes `InitAll`. |
| CooperativeThreadArray.LLVMCooperativeThreadArray.ReclaimWarp | branches/ocelot-ptx-2.1/ocelot/executive/implementation/LLVMCooperativeThreadArray.cpp:107-111 | The reclaim loop computes `ReclaimAll`. |
| CooperativeThreadArray.LLVMCooperativeThreadArray.IssueWarp | branches/ocelot-ptx-2.1/ocelot/executive/implementation/LLVMCooperativeThreadArray.cpp:98-112 | One initial warp computes `IssueGroup`. |
| CooperativeThreadArray.LLVMCooperativeThreadArray.IssueInitialWarps | branches/ocelot-ptx-2.1/ocelot/executive/implementation/LLVMCooperativeThreadArray.cpp:89-127 | The initial phase computes `Issue`. |
| CooperativeThreadArray.LLVMCooperativeThreadArray.RunWarps | branches/ocelot-ptx-2.1/ocelot/executive/implementation/LLVMCooperativeThreadArray.cpp:135-151 | The chunked warps of one round run the queue in order, as `ExecuteAll`. |
| CooperativeThreadArray.LLVMCooperativeThreadArray.DestroyWarp | branches/ocelot-ptx-2.1/ocelot/executive/implementation/LLVMCooperativeThreadArray.cpp:153-157 | The destroy loop computes `DestroyAll`. |
| CooperativeThreadArray.LLVMCooperativeThreadArray.RunQueue | branches/ocelot-ptx-2.1/ocelot/executive/implementation/LLVMCooperativeThreadArray.cpp:131-158 | One drain round computes `DrainStep`: the chosen queue is moved out, run and destroyed. |
| CooperativeThreadArray.LLVMCooperativeThreadArray.DrainQueues | branches/ocelot-ptx-2.1/ocelot/executive/implementation/LLVMCooperativeThreadArray.cpp:129-161 | The drain loop computes `Drain`. |
| CooperativeThreadArray.LLVMCooperativeThreadArray.ExecuteCta | branches/ocelot-ptx-2.1/ocelot/executive/implementation/LLVMCooperativeThreadArray.cpp:87-162 | `executeCta` computes `RunCta` and keeps the state well shaped. |
| SimplifyExternalCalls.StoreStepSpec | ocelot/ocelot/transforms/implementation/SimplifyExternalCallsPass.cpp:74-143 | One backward step: a chosen store's name has no register yet, so the C++ assertion before its insertion holds; the step succeeds iff a chosen store stores a register or an immediate; a type-matching register store is killed and its register mapped, a mismatched one becomes a cvt into a fresh register, an immediate one a mov into a fresh register. |
| SimplifyExternalCalls.ScanStoresSpec | ocelot/ocelot/transforms/implementation/SimplifyExternalCallsPass.cpp:74-143 | The backward search succeeds iff every chosen store before the call is well formed; only the nearest st.param of each input is chosen and then the picture of every position before the call is as described. |
| SimplifyExternalCalls.LoadStepSpec | ocelot/ocelot/transforms/implementation/SimplifyExternalCallsPass.cpp:145-194 | One forward step succeeds iff a chosen load loads into a register under a name the backward search has not mapped; a type-matching load is killed and its register mapped, any other becomes a cvt from a fresh register. |
| SimplifyExternalCalls.ScanLoadsSpec | ocelot/ocelot/transforms/implementation/SimplifyExternalCallsPass.cpp:145-194 | The forward search succeeds iff every chosen load from the call on is well formed; only the first ld.param of each output is chosen. |
| SimplifyExternalCalls.StoresThenLoads | ocelot/ocelot/transforms/implementation/SimplifyExternalCallsPass.cpp:145-150 | The forward search starts at the call, where the backward one ended, looking for the output names. |
| SimplifyExternalCalls.SearchSpec | ocelot/ocelot/transforms/implementation/SimplifyExternalCallsPass.cpp:74-194 | Both searches succeed exactly when every chosen store and load is well formed, and then every position of the block is as described. |
| SimplifyExternalCalls.BindArguments | ocelot/ocelot/transforms/implementation/SimplifyExternalCallsPass.cpp:196-225 | Every Address entry of an argument list becomes a Register entry holding its mapped register with an empty identifier, every other entry is unchanged, and a missing mapping is the assertion failure. |
| SimplifyExternalCalls.AllBoundNames | ocelot/ocelot/transforms/implementation/SimplifyExternalCallsPass.cpp:48-67 | The arguments can all be bound exactly when every Address name has a register. |
| SimplifyExternalCalls.LiveMembers | ocelot/ocelot/transforms/implementation/SimplifyExternalCallsPass.cpp:229-236 | The nodes left after the erasures are exactly the ones not killed. |
| SimplifyExternalCalls.LiveAscending | ocelot/ocelot/transforms/implementation/SimplifyExternalCallsPass.cpp:229-236 | The nodes left keep their original order. |
| SimplifyExternalCalls.KeptSpec | ocelot/ocelot/transforms/implementation/SimplifyExternalCallsPass.cpp:229-236 | Exactly the killed positions are erased; every other instruction stays, in its original order. |
| SimplifyExternalCalls.SimplifyCallSucceeds | ocelot/ocelot/transforms/implementation/SimplifyExternalCallsPass.cpp:28-253 | `simplifyCall` succeeds exactly when the searches succeed and every input and output name gets a register from one of them. |
| SimplifyExternalCalls.SimplifyCallEffect | ocelot/ocelot/transforms/implementation/SimplifyExternalCallsPass.cpp:28-253 | On success, exactly the Address names of the call are removed from the kernel parameters, the register counter only grows, the block is the searched block with the kill list erased, and the call's argument lists are rewritten entry by entry. |
| SimplifyExternalCalls.CollectNames | ocelot/ocelot/transforms/implementation/SimplifyExternalCallsPass.cpp:48-67 | The name loops collect exactly the Address entries of a list. |
| SimplifyExternalCalls.SearchStore | ocelot/ocelot/transforms/implementation/SimplifyExternalCallsPass.cpp:74-143 | One instruction of the backward search computes `StoreStep`. |
| SimplifyExternalCalls.SearchLoad | ocelot/ocelot/transforms/implementation/SimplifyExternalCallsPass.cpp:145-194 | One instruction of the forward search computes `LoadStep`. |
| SimplifyExternalCalls.SearchCall | ocelot/ocelot/transforms/implementation/SimplifyExternalCallsPass.cpp:74-194 | The two search loops compute `Search`. |
| SimplifyExternalCalls.BindArgumentList | ocelot/ocelot/transforms/implementation/SimplifyExternalCallsPass.cpp:196-225 | The rewrite loop of one argument list computes `BindArguments`. |
| SimplifyExternalCalls.EraseKilled | ocelot/ocelot/transforms/implementation/SimplifyExternalCallsPass.cpp:229-236 | The erase loop leaves exactly the nodes not on the kill list. |
| SimplifyExternalCalls.RemoveParameters | ocelot/ocelot/transforms/implementation/SimplifyExternalCallsPass.cpp:238-252 | The kernel parameters lose exactly the named ones it still has. |
| SimplifyExternalCalls.SimplifyCall | ocelot/ocelot/transforms/implementation/SimplifyExternalCallsPass.cpp:28-253 | `simplifyCall` computes `SimplifyCallSpec`. |
| SimplifyExternalCalls.SimplifyCallShrinks | ocelot/ocelot/transforms/implementation/SimplifyExternalCallsPass.cpp:229-252 | A simplified call keeps its node, which is why the instruction loop goes on after it; the block does not grow and no parameter is added. |
| SimplifyExternalCalls.RunOnBlockUntouched | ocelot/ocelot/transforms/implementation/SimplifyExternalCallsPass.cpp:283-305 | A block without a call the pass selects (simplifyAll, or a callee that is not a kernel of the module and is external) is left as it is. |
| SimplifyExternalCalls.RunOnBlockShrinks | ocelot/ocelot/transforms/implementation/SimplifyExternalCallsPass.cpp:283-305 | Over one block no instruction is added, no parameter is added, and the register counter only moves up. |
| SimplifyExternalCalls.RunOnBlocksUntouched | ocelot/ocelot/transforms/implementation/SimplifyExternalCallsPass.cpp:280-306 | A kernel without a selected call is left as it is. |
| SimplifyExternalCalls.RunOnBlocksShrinks | ocelot/ocelot/transforms/implementation/SimplifyExternalCallsPass.cpp:280-306 | Over the kernel the blocks stay as many, none grows, and parameters are only removed. |
| SimplifyExternalCalls.RunBlock | ocelot/ocelot/transforms/implementation/SimplifyExternalCallsPass.cpp:283-305 | The instruction loop of one block computes `RunOnBlock`. |
| SimplifyExternalCalls.RunKernel | ocelot/ocelot/transforms/implementation/SimplifyExternalCallsPass.cpp:268-306 | `runOnKernel` computes `RunOnKernel`. |
| PtxOptimizer.Split | ocelot/ocelot/analysis/implementation/PTXOptimizer.cpp:161 | Splitting on a delimiter gives at least one piece, and no piece holds the delimiter. |
| PtxOptimizer.JoinSplit | ocelot/ocelot/analysis/implementation/PTXOptimizer.cpp:161 | Splitting loses nothing: joining the pieces gives the string back. |
| PtxOptimizer.SplitAround | ocelot/ocelot/analysis/implementation/PTXOptimizer.cpp:161 | A delimiter splits the string into the pieces of either side. |
| PtxOptimizer.SplitJoin | ocelot/ocelot/analysis/implementation/PTXOptimizer.cpp:161 | Pieces without the delimiter are recovered by splitting their join. |
| PtxOptimizer.StripSpec | ocelot/ocelot/analysis/implementation/PTXOptimizer.cpp:165 | The stripped item neither starts nor ends with a space, and is what is left of the item after leading and trailing spaces are removed. |
| PtxOptimizer.StripIdempotent | ocelot/ocelot/analysis/implementation/PTXOptimizer.cpp:165 | Stripping twice is stripping once. |
| PtxOptimizer.Flag | ocelot/ocelot/analysis/implementation/PTXOptimizer.cpp:167-181 | An item sets a flag exactly when it is that flag's name (remove-barriers or reverse-if-conversion); an unknown name sets none. |
| PtxOptimizer.MatchedMembers | ocelot/ocelot/analysis/implementation/PTXOptimizer.cpp:158-176 | Starting from InvalidPassType, a flag is set exactly when some item names it. |
| PtxOptimizer.MatchedAppend | ocelot/ocelot/analysis/implementation/PTXOptimizer.cpp:170-175 | The OR-assigning loop distributes over concatenation. |
| PtxOptimizer.MatchedSameNames | ocelot/ocelot/analysis/implementation/PTXOptimizer.cpp:170-175 | Duplicates and the order of the items do not matter: the same names give the same flags. |
| PtxOptimizer.UnknownIgnored | ocelot/ocelot/analysis/implementation/PTXOptimizer.cpp:177-181 | An unknown name leaves the flags as they were. |
| PtxOptimizer.PassTypesOfAround | ocelot/ocelot/analysis/implementation/PTXOptimizer.cpp:161-176 | The flags of "x,y" are those of x together with those of y. |
| PtxOptimizer.PassTypesOfSwap | ocelot/ocelot/analysis/implementation/PTXOptimizer.cpp:161-176 | Swapping two parts of the list does not change the result. |
| PtxOptimizer.PassTypesOfRepeat | ocelot/ocelot/analysis/implementation/PTXOptimizer.cpp:161-176 | Repeating the list does not change the result: the parse is idempotent under concatenation. |
| PtxOptimizer.PassTypesOfMembers | ocelot/ocelot/analysis/implementation/PTXOptimizer.cpp:156-184 | A flag is in the result exactly when some comma-separated item, stripped of surrounding spaces, is its name. |
| PtxOptimizer.EmptyListIgnored | ocelot/ocelot/analysis/implementation/PTXOptimizer.cpp:202-212 | The default empty pass list gives InvalidPassType. |
| PtxOptimizer.EmptyItemIgnored | ocelot/ocelot/analysis/implementation/PTXOptimizer.cpp:161-181 | An empty item, from a leading or a trailing comma, sets nothing. |
| PtxOptimizer.ParsePassTypes | ocelot/ocelot/analysis/implementation/PTXOptimizer.cpp:156-184 | The loop returns `PassTypesOf` of the list, and the names warned about are exactly the unknown stripped items, in order. |
| PtxOptimizer.AllocatorFor | ocelot/ocelot/analysis/implementation/PTXOptimizer.cpp:198-210 | The allocator is LinearScan exactly when the option is the string "linearscan". |
| PtxOptimizer.Selected | ocelot/ocelot/analysis/implementation/PTXOptimizer.cpp:46-84 | A pass is created exactly when its option is set: the allocator for LinearScan (with the register count), then barrier removal, then reverse if-conversion. |
| PtxOptimizer.BucketMembers | ocelot/ocelot/analysis/implementation/PTXOptimizer.cpp:46-84 | A bucket holds exactly the selected passes whose ssa flag is the one wanted, and the two buckets together are as many as the passes. |
| PtxOptimizer.BucketOfSelected | ocelot/ocelot/analysis/implementation/PTXOptimizer.cpp:46-84 | Each bucket keeps the order allocator, barrier removal, reverse if-conversion, each when selected and in that bucket. |
| PtxOptimizer.PassRun | ocelot/ocelot/analysis/implementation/PTXOptimizer.cpp:99-112 | One pass is initialized, run on kernels and finalized, and nothing else. |
| PtxOptimizer.PassRunsSteps | ocelot/ocelot/analysis/implementation/PTXOptimizer.cpp:99-136 | Running a bucket runs pass p on kernel k exactly when p is in the bucket and k is a kernel. |
| PtxOptimizer.PlanRuns | ocelot/ocelot/analysis/implementation/PTXOptimizer.cpp:99-121 | The pass steps of the two buckets run exactly the selected passes, each on exactly the given kernels. |
| PtxOptimizer.PlanOrder | ocelot/ocelot/analysis/implementation/PTXOptimizer.cpp:86-142 | With an input file, every selected pass runs on every kernel and nothing else does; a pass runs after every conversion to SSA form iff its ssa flag is set, and before every conversion back. |
| PtxOptimizer.BuildBuckets | ocelot/ocelot/analysis/implementation/PTXOptimizer.cpp:46-84 | The bucketing code fills both buckets as `Bucket` of the selected passes. |
| PtxOptimizer.RunPass | ocelot/ocelot/analysis/implementation/PTXOptimizer.cpp:101-111 | One pass over every kernel computes `PassRun`. |
| PtxOptimizer.RunPasses | ocelot/ocelot/analysis/implementation/PTXOptimizer.cpp:99-136 | The passes of one bucket, in order, compute `PassRuns`. |
| PtxOptimizer.Convert | ocelot/ocelot/analysis/implementation/PTXOptimizer.cpp:115-142 | The conversion loops compute `Conversions`. |
| PtxOptimizer.Optimizer.Configure | ocelot/ocelot/analysis/implementation/PTXOptimizer.cpp:194-212 | The input file and register count are recorded, LinearScan is set only for "linearscan" (otherwise the allocator is unchanged), and the passes are `PassTypesOf` the list. |
| PtxOptimizer.Optimizer.Optimize | ocelot/ocelot/analysis/implementation/PTXOptimizer.cpp:37-153 | `optimize` takes the steps of `Plan` for the configured options. |
| PtxOptimizer.RunOptimizer | ocelot/ocelot/analysis/implementation/PTXOptimizer.cpp:186-217 | `main` takes the steps of `Plan` for `AllocatorFor` of the allocator option and `PassTypesOf` of the pass list. |
| Util.Resize | branches/ocelot-ptx-2.1/ocelot/executive/implementation/LLVMCooperativeThreadArray.cpp:33-34 | `std::vector::resize` keeps the first elements and pads with the fill value. |
| Util.FlattenChunks | branches/ocelot-ptx-2.1/ocelot/executive/implementation/LLVMCooperativeThreadArray.cpp:98-127 | The warp groups together are the whole list, in order. |

## Left out

- The LLVM JIT, code translation, optimisation and global-memory mapping of the executable kernel are foreign-library plumbing and are not modelled. This covers `LLVMState`, `_translateKernel`, `_optimize`, `updateGlobalMemory` and `launchGrid`.
- The floating-point helpers, the f32 atomics (`__ocelot_atom_f32`) and the texture sampling wrappers are floating point over the unseen `tex::sample`, so they are not modelled.
- Debug reports, trace printing, `__ocelot_clock`, the optimizer's warnings and file output are I/O. The only trace of the "Unknown pass name" warning is the list of warned names that `ParsePassTypes` returns.
- Memory buffers are modelled by their sizes and, where the source writes into them, by byte or word maps. `new[]`/`delete[]`, the `memcpy` of `updateConstantMemory`/`updateParameterMemory`, and pointer values are not modelled. A freshly allocated buffer's address is a parameter.
- ExecutableKernel.LLVMExecutableKernel.LaunchCtaNoBarriers: the native kernel function is a parameter `f` of thread and slice. The updates of `_context.local` inside the loop are folded into the slice argument.
- ExecutableKernel.LLVMExecutableKernel.LaunchCtaWithBarriers: the `while( !done )` loop runs for at most `fuel` sweeps because native code need not ever return 0. The result says whether the loop finished or ran out of sweeps.
- ThreadGrid.LinearThreadId: `threads()` and `threadId()` are computed in unbounded integers. The 32-bit unsigned wrap of these products is not modelled.
- CooperativeThreadArray.LLVMCooperativeThreadArray.DrainQueues: the drain loop is bounded by `fuel` rounds. It need not terminate in the source: it tests only the free pool, while contexts finished in the initial phase stay in the reclaimed pool until `_destroyContexts`. For completed runs the count of free ids is proved, and that every context is free is proved under the hypothesis of `DrainFreesAll`; termination is not proved.
- `LLVMModuleManager` (module loading, function count, function ids, lazy compilation) is replaced by parameters. `LLVMModuleManager::getFunction` becomes a "compiled" mark in the function table.
- `LLVMFunctionCallStack` is not part of this model. Its `call`, `returned` and `localMemory` are modelled as a sequence of frames whose top is the local frame. A `returned()` at the root frame keeps the frames and raises a fault flag.
- The numeric values of `LLVMExecutableKernel::CallType` are replaced by a datatype: TailCall, NormalCall, ReturnCall and any other value.
- Three places where the code's behaviour differs from what one might expect are modelled as written:
  - `_finishContext` adjusts the stack, but never enqueues a context whose next-function word is neither 0 nor all-ones.
  - `tid` is decomposed over `nctaid`, not `ntid`.
  - `ctaid.y` is `ctaId / gridDim.y`.
- CooperativeThreadArray.LLVMCooperativeThreadArray.constructor: `_nextFunction` and `_guessFunction` start at 0; the source leaves them uninitialised.
- `_computeNextFunction` indexes `_queuedThreads[_guessFunction]` and queue 1 without a bound check. Here those cases are undefined results (`None`), and the drain step reports a fault.
- The `DataflowGraph` is not part of this model. `dfg.newRegister()` is a counter of fresh register numbers.
- The basic-block instruction list is modelled as a sequence of nodes tagged with their original position. `list::erase` of a killed iterator becomes the removal of that node, and the kernel's blocks are passed and returned as values.
- SimplifyExternalCalls.RunKernel: the C++ `assert`/`assertM` failures in `simplifyCall` are a `Failed` outcome. After a failure the model stops, where the C++ aborts.
- Unordered sets and maps (`inputNames`, `parameterNames`, `sharedGlobals`, ...) are Dafny sets and maps. Their iteration order does not affect any result.
- The `SimplifyExternalCallsPass` constructor is the `Pass` value: the external function set and the simplify-all flag.
- `hydrazine/implementation/string.h` is not part of this model. `split` is modelled as keeping empty pieces, and `EmptyItemIgnored` shows that an empty item changes no flag either way. `strip` is modelled as removing the spaces at both ends of an item. The names `ParsePassTypes` reports as unknown are exact only under these two readings of `split` and `strip`: a `split` that dropped empty pieces would warn about no empty name, and a `strip` that removed inner spaces too would warn about other names.
- `PTXOptimizer.h` is not part of this model. The pass-type bit values are modelled as a set of flags, with the empty set as `InvalidPassType`.
- The optimizer's argument parser, module loading, SSA conversion, pass objects and `writeIR` are outside this model. `optimize` returns the steps it takes (initialize, run on a kernel, finalize, to and from SSA form), and each pass's `ssa` flag is a parameter.
- ExecutableKernel.LLVMExecutableKernel.SetKernelShape: the extents are `nat`, where the C++ `setKernelShape(int x, int y, int z)` also accepts negative values; the unsigned arithmetic of `threads()` on such values is not modelled.
- The layout requirements that alignments be positive (`KernelLayout.ParametersAlignable`, `KernelLayout.LocalLocalsAlignable`, `KernelLayout.ConstantsAlignable`, `SharedLayout.GlobalsAlignable` and `SharedLayout.LocalsAlignable`) are stated for every declared variable of the filtered kind, including a shared global that is never referenced and so never padded. The C++ `_pad` divides only for the variables it places, so a zero alignment on an unreferenced global is accepted there and excluded here.
- CooperativeThreadArray.Drain: its contract gives the count that the source's exit test checks, not that every context is free. Membership is proved by `DrainFreesAll` only for a free pool without repeats holding only context ids; that the pool has these properties is not proved, for the reason given on the ReclaimAllEffect line below.
- CooperativeThreadArray.RunCta: the same count only; `RunCtaFreesAll` proves membership under the same hypothesis.
- CooperativeThreadArray.ReclaimAllEffect, DestroyAllEffect, IssueGroupEffect and DrainStepEffect are stated for id lists and pools without repeats. That the pools and queues never hold an id twice is not proved, because `_finishContext` drops contexts whose next-function word is neither 0 nor all-ones, and the code guarantees no conservation of ids in that case. IssueGroupEffect does not state the `tid` each context receives; `Init` states that for one context.
- `ocelot/ocelot/translator/interface/PTXToLLVMTranslator.h` and `branches/ocelot-ptx-2.1/ocelot/analysis/interface/AssignFallThroughEdge.h` hold declarations only. `ocelot/ocelot/api/implementation/ocelot.cpp` forwards to the CUDA runtime. None of the three is modelled.
