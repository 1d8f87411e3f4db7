# Early-boot memory subsystem of a microkernel, in Dafny

This project models `kernel/memory.c`, the memory subsystem a bare-metal x86-64
kernel sets up at boot. The file holds two independent allocators, and each one
is a single global cursor with a hard upper bound:

- **Physical frame allocator.** `pmm_alloc_2m` hands out 2 MiB frames from the
  identity-mapped window [2 MiB, 64 MiB). It takes them one after another from
  the cursor `pmm_next` and returns 0 once the window is exhausted.
  `pmm_free_2m` does nothing.
- **Kernel heap.** `kmalloc` is a bump allocator over the static 64 KiB arena
  `kheap`. It rounds each request up to 16 bytes with `(size + 15) & ~15` and
  advances `kheap_off`. It returns NULL for a zero request or when the request
  does not fit. `kfree` does nothing.
- **`memory_init`.** An empty placeholder.

The project has four modules:

- `Wrappers` (wrappers.dfy) holds `Option`, the 64-bit type `U64` and its
  wrap-around `Wrap64`. `uint64_t` and `size_t` are both 64 bits on x86-64.
- `FrameAllocator` (frame_allocator.dfy) gives one call of `pmm_alloc_2m` as a
  function on the cursor, plus lemmas about runs of successive calls.
- `KernelHeap` (kernel_heap.dfy) gives the rounding, one call of `kmalloc` as a
  function on the offset (both as written and corrected), and lemmas about the
  layout of the handed-out blocks.
- `Memory` (memory.dfy) holds the class `MemorySubsystem`. Its fields
  `pmmNext`, `kheap` and `kheapOff` are the source's globals. Its methods update
  them in place. `PmmAlloc2M` and `Kmalloc` are proved against
  `FrameAllocator.PmmAlloc` and `KernelHeap.KmallocStep` (the corrected
  kmalloc; see Findings); the three no-ops are proved to change nothing. Ghost fields record the frames and blocks handed out so
  far, and the object invariant says that they never overlap.

A pointer into `kheap` is modelled as `Option<nat>`: `None` for NULL and
`Some(k)` for `&kheap[k]`.

kmalloc returns NULL for a zero request exactly as it does for an exhausted
arena, so the model does not tell them apart: both are `None`.

## Model

| member | source | states |
|---|---|---|
| `Wrappers.Wrap64` | kernel/memory.c:19-21 | C's unsigned 64-bit `+`: a sum below 2^64 is kept, a sum in [2^64, 2^65) loses 2^64. |
| `FrameAllocator.PmmRun` | kernel/main.c:93-94 | n successive calls of pmm_alloc_2m from a cursor give exactly n results, one per call. |
| `FrameAllocator.PmmAlloc` | kernel/memory.c:18-23 | From a cursor that is 2 MiB-aligned and in [PMM_START, PMM_END], one call keeps that invariant. It returns non-zero exactly when cursor + 2 MiB <= 64 MiB. On failure it returns 0 and leaves the cursor unchanged. On success it returns the old cursor, advances it by exactly 2 MiB, and the frame is aligned and lies wholly in the window. |
| `FrameAllocator.PmmRunAt` | kernel/memory.c:16-22 | The closed form of successive calls: call i returns cursor + i * 2 MiB while that frame still ends by PMM_END, and 0 afterwards. |
| `FrameAllocator.PmmExhaustionIsPermanent` | kernel/memory.c:19 | Once call k of a run has returned 0, every later call i > k of that run returns 0 too. |
| `FrameAllocator.PmmRunIncreasing` | kernel/memory.c:20-22 | Successful results strictly increase by exactly one frame per call, so an earlier frame ends at or before the start of any later one (no overlap). |
| `FrameAllocator.ThirtyOneFramesFromStart` | kernel/memory.c:9-21 | From the initial cursor, exactly 31 calls succeed with 2 MiB, 4 MiB, ..., 62 MiB, and every call after them returns 0. |
| `KernelHeap.AlignUp16` | kernel/memory.c:36 | `(size + 15) & ~15` in size_t arithmetic is a multiple of 16. When `size + 15` does not wrap, the result is at least `size` and less than `size + 16`. When it wraps, the result is 0. |
| `KernelHeap.AlignUp16IsLeast` | kernel/memory.c:36 | When the sum does not wrap, no multiple of 16 smaller than the rounded size covers `size`. |
| `KernelHeap.AlignedFitsIffFits` | kernel/memory.c:36-37 | At a 16-aligned offset inside the arena, the rounded request fits exactly when the requested bytes fit. |
| `KernelHeap.KmallocAsWritten` | kernel/memory.c:33-41 | kmalloc with the source's wrapping sums. A zero request gives NULL, failure leaves the offset unchanged, and success returns the old offset with a new offset of at most 65536. The offset invariant (16-aligned, at most 65536) survives even the wrap. |
| `KernelHeap.KmallocAsWrittenResetsOffset` | kernel/memory.c:36-39 | As written, kmalloc(2^64 - 16) at offset 16 returns `&kheap[16]` and resets the offset to 0. The corrected step returns NULL. |
| `KernelHeap.KmallocAsWrittenReservesNothing` | kernel/memory.c:36-40 | As written, kmalloc(2^64 - 1) returns the current offset and reserves nothing. The corrected step returns NULL. |
| `KernelHeap.KmallocStep` | kernel/memory.c:33-41 | Corrected kmalloc. Under the offset invariant it keeps the invariant, and it succeeds exactly when 0 < size and offset + size <= 65536. Failure leaves the offset unchanged. Success returns the old offset and advances it by the least multiple of 16 covering the request, inside the arena. |
| `KernelHeap.KmallocStepAgreesWithoutWrap` | kernel/memory.c:33-41 | Wherever neither of the source's sums wraps, the corrected step and the code as written give the same result. |
| `KernelHeap.TilesTotal` | kernel/memory.c:38-39 | Blocks bumped one after another from `from` to `to` add up to exactly `to - from` bytes. |
| `KernelHeap.TilesAppend` | kernel/memory.c:38-39 | Bumping the offset by `len` after the last block extends the tiling by the block `[to, to + len)`. |
| `KernelHeap.TilesBounds` | kernel/memory.c:38-39 | Every block of a tiling of `[from, to)` lies inside `[from, to)`. |
| `KernelHeap.TilesDisjoint` | kernel/memory.c:38-39 | Each block ends at or before the start of every later block, so heap blocks never overlap. |
| `KernelHeap.KmallocExamples` | kernel/memory.c:33-40 | From an empty arena, kmalloc(10) gives offset 0 and uses 16 bytes, then kmalloc(1) gives offset 16. kmalloc(0) gives NULL and the offset stays 0. |
| `KernelHeap.WholeArenaFailsOnceUsed` | kernel/memory.c:37 | After any block has been handed out, a request for all 65536 bytes gives NULL and leaves the offset unchanged. |
| `Memory.MemorySubsystem.constructor` | kernel/memory.c:16-31 | The static initial state: the cursor is at PMM_START, the arena has 65536 zero bytes, the offset is 0, and nothing has been handed out. |
| `Memory.MemorySubsystem.MemoryInit` | kernel/memory.c:46-48 | memory_init keeps the invariant and changes no state. |
| `Memory.MemorySubsystem.PmmAlloc2M` | kernel/memory.c:18-23 | Matches `PmmAlloc` on the old cursor and keeps the invariant. It fails exactly when the next frame would cross 64 MiB, and then changes nothing. On success it returns the old cursor, advances it by 2 MiB, and records the frame, which is aligned, lies in the window and starts at or above the end of every earlier frame. |
| `Memory.MemorySubsystem.PmmFree2M` | kernel/memory.c:25-27 | pmm_free_2m changes no state, so the next allocation is unaffected. |
| `Memory.MemorySubsystem.Kmalloc` | kernel/memory.c:33-41 | Matches `KmallocStep` on the old offset and keeps the invariant. It succeeds exactly when 0 < size and the bytes fit in what is left of `kheap`, and on failure changes nothing. On success it returns the old, 16-aligned offset, advances the offset by the rounded size (less than size + 16), and records a block that lies in `kheap` after every earlier block. |
| `Memory.MemorySubsystem.Kfree` | kernel/memory.c:43 | kfree changes no state. |
| `Memory.MemorySubsystem.HeapCapacityRespected` | kernel/memory.c:30-39 | The blocks handed out add up to the offset, which never exceeds sizeof(kheap). |

## Findings

| source | as written | input that shows it | evidently intended | confidence | as-written member | corrected member |
|---|---|---|---|---|---|---|
| kernel/memory.c:36-39 | `kheap_off + size` is a size_t sum that wraps, so the bound check passes and `kheap_off` wraps | kheap_off = 16, size = 2^64 - 16: returns `&kheap[16]` and sets kheap_off to 0, so later blocks overlap earlier ones | NULL whenever the request does not fit in the space left | not executed; follows from C unsigned arithmetic | `KernelHeap.KmallocAsWrittenResetsOffset` | `KernelHeap.KmallocStep` |
| kernel/memory.c:36-40 | `size + 15` wraps for size > 2^64 - 16, so the rounded size is 0 | size = 2^64 - 1 at any offset: returns a non-NULL pointer and reserves nothing | NULL for a request larger than the arena | not executed; follows from C unsigned arithmetic | `KernelHeap.KmallocAsWrittenReservesNothing` | `KernelHeap.KmallocStep` |

The correction adds one test before the rounding: a request larger than
`sizeof(kheap) - kheap_off` is refused. After that test neither sum can wrap.
`KmallocStepAgreesWithoutWrap` shows that the corrected step differs from the
code only on inputs where a sum wraps. `MemorySubsystem.Kmalloc` uses the
corrected step.

## Left out

- Memory.MemorySubsystem.Kmalloc: follows the corrected step, not the wrapping code. The code as written is `KernelHeap.KmallocAsWritten` (see Findings).
- Real pointers and addresses: kmalloc's result is an offset into `kheap`, and frames are plain numbers. No page tables or identity mapping are built, just as `memory_init` builds none.
- The contents of `kheap`: nothing in the core reads or writes them, so the methods leave the array untouched.
- Concurrency: the source is single-threaded, and the model is sequential too.
- kernel/main.c: VGA console and COM1 serial output (memory-mapped and port I/O) and the boot sequence that ends in a `hlt` loop. Its two calls to `pmm_alloc_2m` are covered by the frame allocator lemmas.
- kernel/panic.c: a `cli; hlt` loop with no state.
- include/ipc.h, include/interrupts.h and include/task.h: declarations only, with nothing to model.
