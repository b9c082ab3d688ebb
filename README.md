# Thread creation on ARM Cortex-M

This project models how the nanokernel creates a thread on ARM Cortex-M. The modelled code is `_new_thread` and the thread monitor helper `_thread_monitor_init`.

`_new_thread` gets a block of stack memory from its caller and does the following:

1. Optionally fills the block with the poison byte `0xaa`.
2. Carves an initial exception stack frame (ESF) just below the block's aligned top. This is the ARMv7-M basic frame of section B1.5.6 of the ARMv7-M Architecture Reference Manual.
3. Fills that frame so that the PendSV exception return enters the trampoline `_thread_entry` in Thumb state, with the thread's entry point and its three parameters in r0..r3.
4. Stamps the thread control structure (TCS) at the block's base with:
   - the thread's classification (task or fiber);
   - its priority;
   - its saved stack pointer;
   - its BASEPRI mask.
5. Lets the timeout subsystem initialise its part of the TCS.
6. In a build with the thread monitor, pushes the TCS onto the head of `_nanokernel.threads`.

The model has three modules:

- **`Memory`** holds addresses and memory contents.
  - A stack region is an `array<word>`. Word `i` of a region at address `base` is at address `base + 4i`.
  - A field store into the TCS or the ESF is one array-element assignment.
  - `memset` is a loop over the region.
- **`Layout`** holds the constants of `struct __esf` and `struct tcs`, computed as word offsets. It also holds the values stored, `ROUND_DOWN` and the placement of the initial context.
- **`Context`** holds the build configuration and the specification functions for each stage of `_new_thread`.
  - The region after the whole call is `NewThreadImage`.
  - Lemmas state what that image holds.
  - The methods `NewThread` and `Nanokernel.ThreadMonitorInit` perform the stores and are proved against those functions.
  - `_nanokernel` is a class. Its ghost `Contents` is the thread list. Its validity invariant ties `Contents` to the `threads` head and to the `next_thread` words inside each thread's own stack region.

The build options are one `Config` value: `CONFIG_INIT_STACKS`, `CONFIG_THREAD_CUSTOM_DATA`, `CONFIG_THREAD_MONITOR`, and the architecture's stack alignment. Because `Config` is a parameter, every proof covers every build.

The caller's address of `_thread_entry` is the parameter `threadEntry`. What the timeout subsystem leaves in the TCS is the parameter `timeoutState`.

C obliges `_new_thread`'s caller to supply a region in which the frame and the TCS both fit without overlapping. The code checks none of this. In the model it is the precondition `Layout.Carvable`.

Fibers are conventionally given priorities of 0 and above. The code does not check this: every priority other than -1, negative values included, makes a fiber, and the model does the same.

## Model

| member | source | states |
|---|---|---|
| Memory.Splat | arch/arm/core/context.c:123 | every one of the four bytes of the poison word is the fill byte |
| Memory.Fill | arch/arm/core/context.c:122-124 | a region of the given length in which every word is the given value |
| Memory.Memset | arch/arm/core/context.c:122-124 | after the call every word of the region holds the fill byte in each of its four bytes, and the length is unchanged |
| Memory.WriteWords | arch/arm/core/context.c:152 | copying words into a region: the copied slice equals the words, every word outside it is unchanged, and the length is kept |
| Memory.CopyWords | arch/arm/core/context.c:152 | the array afterwards is exactly the old contents with the words copied in at the offset |
| Layout.ThreadFlags | arch/arm/core/context.c:140 | flags are TASK plus PREEMPTIBLE or FIBER; TASK is set iff the priority is -1, and so is PREEMPTIBLE |
| Layout.IntToWord | arch/arm/core/context.c:141 | the 32-bit word stored for a C `int` priority reads back as that same signed priority |
| Layout.ThumbPc | arch/arm/core/context.c:131 | `t & 0xfffffffe` has bit 0 clear and keeps every other bit of the trampoline address |
| Layout.RoundDown | arch/arm/core/context.c:128 | ROUND_DOWN(x, align) lies between 0 and x and less than one alignment below x; RoundDownIsFloor adds that it is a multiple of align, so it is the largest multiple of align not above x |
| Layout.RoundDownIsFloor | arch/arm/core/context.c:128-129 | ROUND_DOWN yields a multiple of the alignment, not above its argument and less than one alignment below it |
| Layout.InitialContext | arch/arm/core/context.c:128-129 | the frame address (rounded stack end minus the frame size) lies above the TCS, the whole frame lies inside the region, and the frame is a whole number of words from the base |
| Layout.ContextOffset | arch/arm/core/context.c:128-129 | the frame's word offset lies past the TCS, with the whole frame inside the region, and base plus four times the offset is the frame address |
| Layout.ContextPlacement | arch/arm/core/context.c:118-129 | the frame ends on an aligned address, less than one alignment below the stack end; when the alignment divides the frame size, the frame itself is aligned |
| Context.Poisoned | arch/arm/core/context.c:122-124 | with CONFIG_INIT_STACKS every word is the poison word; without it the region is unchanged |
| Context.InitialFrame | arch/arm/core/context.c:131-137 | pc is the Thumb-cleared trampoline; a1..a4 are the entry point and parameters 1..3 in order; xpsr is 0x01000000; every word outside these six is unchanged |
| Context.StampedTcs | arch/arm/core/context.c:139-150 | link is NULL; flags are ThreadFlags(priority); prio reads back as the priority; custom_data is NULL when configured and untouched otherwise; psp is the context address; basepri is 0; other words are unchanged |
| Context.PreparedImage | arch/arm/core/context.c:122-152 | the region after poisoning, frame, TCS stamp and timeout initialisation, of unchanged length; its contents are stated by the NewThread lemmas |
| Context.NewThreadImage | arch/arm/core/context.c:122-156 | the region after the whole call, of unchanged length; its contents are stated by the NewThread lemmas |
| Context.NewThreadResume | arch/arm/core/context.c:131-137 | after the whole call the frame still resumes the trampoline with bit 0 clear, with xpsr exactly the Thumb bit, whatever the priority or build |
| Context.NewThreadArguments | arch/arm/core/context.c:132-135 | after the whole call r0..r3 of the frame hold the entry point and the three parameters verbatim, in order |
| Context.NewThreadTcs | arch/arm/core/context.c:139-152 | after the whole call the TCS holds: link NULL, the priority's flags, the priority, NULL custom data when configured, the context address as psp, basepri 0, the timeout state, and, with the monitor, the previous list head as next_thread |
| Context.NewThreadOtherWords | arch/arm/core/context.c:122-154 | every word not written by the frame or TCS stores is the poison word with CONFIG_INIT_STACKS, and is unchanged without it |
| Context.TaskScenario | arch/arm/core/context.c:131-141 | creating with priority -1, entry E and arguments 1, 2, 3 gives a preemptible task of priority -1 whose r0..r3 are E, 1, 2, 3 |
| Context.Walk | arch/arm/core/context.c:73-81 | following next_thread links visits only non-NULL, known TCS addresses, at most the bound many, and starts at the given TCS |
| Context.WalkSuffix | arch/arm/core/context.c:73-81 | walking a chained list from its i-th thread visits exactly the rest of the list, in order |
| Context.WalkChained | arch/arm/core/context.c:73-81 | walking a chained list from its head visits exactly the list |
| Context.Nanokernel.LinksChained | arch/arm/core/context.c:73-81 | in a valid kernel state the next_thread fields link the threads of the list in order, ending in NULL |
| Context.Nanokernel.WalkIsContents | arch/arm/core/context.c:73-81 | following the links from `_nanokernel.threads` visits exactly the threads on the list, in order |
| Context.Nanokernel.constructor | arch/arm/core/context.c:48 | the zero-initialised kernel state has an empty thread list |
| Context.Nanokernel.ThreadMonitorInit | arch/arm/core/context.c:68-83 | head push: the new TCS becomes the head, its next_thread is the old head, the rest of the list and every other thread's stack are unchanged, the list stays well linked with no duplicates, and following the links from the new head visits the new TCS and then the old list |
| Context.NanoTimeoutTcsInit | arch/arm/core/context.c:152 | only the TCS's timeout words change, and they become the timeout subsystem's state |
| Context.WriteInitialContext | arch/arm/core/context.c:131-137 | the region afterwards is exactly InitialFrame of its old contents |
| Context.StampTcs | arch/arm/core/context.c:139-150 | the region afterwards is exactly StampedTcs of its old contents |
| Context.NewThread | arch/arm/core/context.c:107-157 | the stack region becomes NewThreadImage at the frame address computed by InitialContext; with the monitor, the TCS at the stack base becomes the new list head; without it the kernel state is unchanged; the list invariant is kept; `options` has no effect |
| Context.CreateThree | arch/arm/core/context.c:73-82 | creating T1, T2 and T3 in a row with the monitor enabled leaves the list as T3, T2, T1 followed by the earlier threads |

## Left out

- NewThread and Nanokernel.ThreadMonitorInit require that the TCS is not already on the thread list (its address is not in `Contents`, its stack not in `Stacks`) and that its address is not NULL. The code does not check this. A TCS inserted a second time would get the current head as `next_thread`: a TCS that is the head would link to itself, and in general the list would become a cycle through the threads from the head down to the re-inserted TCS, and the threads that followed it on the list (those created before it) would no longer be reachable. The model relies on the ownership rule that a stack region is handed to thread creation once and belongs to that one thread.
- `irq_lock` and `irq_unlock` around the list insertion are not modelled. The insertion is taken as atomic, and no interrupt interleavings are considered.
- Context.NanoTimeoutTcsInit: the body of `_nano_timeout_tcs_init` is not part of this model. Its effect is taken as writing the caller-supplied `timeoutState` into the TCS's four timeout words and nothing else.
- The trampoline `_thread_entry` and the context restore by `__pendsv` are external assembly and are not modelled. The model only records the frame they consume, and the trampoline's address is a parameter.
- The headers defining `struct tcs`, `struct __esf`, `STACK_ROUND_DOWN`, `STACK_ALIGN` and the TASK, FIBER and PREEMPTIBLE bit values are not part of this model.
  - Field offsets, the values 0x001, 0x000 and 0x020, and a four-word timeout area are named constants.
  - TCS field offsets are in `struct tcs` field order.
  - The stack alignment is a field of `Config`.
- Memory is modelled as words. The model therefore requires a word-aligned stack base, a stack alignment that is a whole number of words, and a stack size that is a multiple of four bytes.
  - Trailing bytes of a size that is not a multiple of four are not modelled.
  - ARM's `STACK_ALIGN` meets these requirements.
- Layout.RoundDown: the C macro clears the low bits, `x & ~(align - 1)`, which is the floor `x - x % align` only for a power-of-two alignment. The model accepts any positive multiple of four as the alignment and computes the floor; an alignment that is not a power of two is modelled as the floor, not as the bit mask.
- Context.NewThreadOtherWords: states poisoning word by word; Splat says each of the four bytes of an unwritten word is 0xaa. Every store writes a whole word, so no byte of a stored word still holds poison, as in the code for naturally aligned fields.
- Addresses are integers below 2^32. The pointer-to-`uint32_t` casts of the source are the identity, and the region is required to lie inside the 32-bit address space.
- The ESF's ip and lr fields and the TCS fields that `_new_thread` does not write are not written by the code. The model states that they keep the value the memset left, or their old value without CONFIG_INIT_STACKS (NewThreadOtherWords).
- `_new_thread` returns nothing. The thread handle is the stack base: the TCS is word 0 of the region, and with the monitor the list head becomes `base`.
- The zero-initialised `_nanokernel` is modelled only through its `threads` head.
