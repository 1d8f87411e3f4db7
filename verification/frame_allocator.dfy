/**
 * The 2 MiB physical frame allocator of kernel/memory.c as pure functions:
 * the step that one call of pmm_alloc_2m makes on the cursor `pmm_next`,
 * and what successive calls return.
 */
module FrameAllocator {
  import opened Wrappers

  const MiB: nat := 1024 * 1024
  /** FRAME_SIZE_2M: the size and alignment of every frame. */
  const FRAME_SIZE_2M: nat := 2 * MiB
  /** PMM_START: the first managed address; the first 2 MiB stay reserved for boot. */
  const PMM_START: nat := 2 * MiB
  /** PMM_END: the exclusive upper bound of the managed window. */
  const PMM_END: nat := 64 * MiB

  /** The cursor invariant: a multiple of the frame size inside [PMM_START, PMM_END]. */
  predicate CursorOk(next: nat) {
    next % FRAME_SIZE_2M == 0 && PMM_START <= next <= PMM_END
  }

  /** One call of pmm_alloc_2m: the address it returns (0 when the window is exhausted) and the new cursor. */
  datatype PmmOutcome = PmmOutcome(addr: U64, next: U64)

  /**
   * One call of pmm_alloc_2m from cursor `next`, with the 64-bit sum of the
   * source. From any cursor that satisfies the invariant the call keeps it,
   * fails exactly when the next frame would cross PMM_END, leaves the cursor
   * alone on failure, and on success hands out the old cursor as an aligned
   * frame lying wholly inside the window.
   */
  function PmmAlloc(next: U64): (o: PmmOutcome)
    ensures CursorOk(next) ==> CursorOk(o.next)
    ensures CursorOk(next) ==> (o.addr != 0 <==> next + FRAME_SIZE_2M <= PMM_END)
    ensures CursorOk(next) && o.addr == 0 ==> o.next == next
    ensures CursorOk(next) && o.addr != 0 ==> o.addr == next && o.next == next + FRAME_SIZE_2M
    ensures CursorOk(next) && o.addr != 0 ==>
      o.addr % FRAME_SIZE_2M == 0 && PMM_START <= o.addr && o.addr + FRAME_SIZE_2M <= PMM_END
  {
    if Wrap64(next + FRAME_SIZE_2M) > PMM_END then PmmOutcome(0, next)
    else PmmOutcome(next, Wrap64(next + FRAME_SIZE_2M))
  }

  /** The addresses returned by `n` successive calls of pmm_alloc_2m starting from cursor `next`. */
  function PmmRun(next: U64, n: nat): (addrs: seq<U64>)
    ensures |addrs| == n
    decreases n
  {
    if n == 0 then [] else [PmmAlloc(next).addr] + PmmRun(PmmAlloc(next).next, n - 1)
  }

  /**
   * The closed form of a run: call `i` (counting from 0) returns the frame
   * `i` frame sizes above the starting cursor if that frame still ends inside
   * the window, and 0 otherwise.
   */
  lemma {:induction false} PmmRunAt(next: U64, n: nat, i: nat)
    requires CursorOk(next) && i < n
    ensures PmmRun(next, n)[i] ==
      if next + (i + 1) * FRAME_SIZE_2M <= PMM_END then next + i * FRAME_SIZE_2M else 0
    decreases n
  {
    var o := PmmAlloc(next);
    assert PmmRun(next, n) == [o.addr] + PmmRun(o.next, n - 1);
    if i > 0 {
      PmmRunAt(o.next, n - 1, i - 1);
    }
  }

  /** Once a call of a run has returned 0, every later call of that run returns 0 too: exhaustion is permanent. */
  lemma PmmExhaustionIsPermanent(next: U64, n: nat, k: nat, i: nat)
    requires CursorOk(next) && k < i < n && PmmRun(next, n)[k] == 0
    ensures PmmRun(next, n)[i] == 0
  {
    PmmRunAt(next, n, k);
    PmmRunAt(next, n, i);
  }

  /**
   * Successful results of a run grow by exactly one frame size per call, so
   * an earlier frame always ends at or below the start of a later one: no two
   * frames overlap.
   */
  lemma PmmRunIncreasing(next: U64, n: nat, i: nat, j: nat)
    requires CursorOk(next) && i < j < n && PmmRun(next, n)[j] != 0
    ensures PmmRun(next, n)[i] != 0
    ensures PmmRun(next, n)[j] == PmmRun(next, n)[i] + (j - i) * FRAME_SIZE_2M
    ensures PmmRun(next, n)[i] + FRAME_SIZE_2M <= PmmRun(next, n)[j]
  {
    PmmRunAt(next, n, i);
    PmmRunAt(next, n, j);
  }

  /**
   * From the initial cursor PMM_START exactly 31 calls succeed, returning
   * 2 MiB, 4 MiB, ..., 62 MiB, and every call after them returns 0.
   */
  lemma ThirtyOneFramesFromStart(n: nat)
    requires 32 <= n
    ensures forall i :: 0 <= i < 31 ==> PmmRun(PMM_START, n)[i] == (i + 1) * FRAME_SIZE_2M
    ensures forall i :: 31 <= i < n ==> PmmRun(PMM_START, n)[i] == 0
  {
    forall i | 0 <= i < n
      ensures PmmRun(PMM_START, n)[i] == if i < 31 then (i + 1) * FRAME_SIZE_2M else 0
    {
      PmmRunAt(PMM_START, n, i);
    }
  }
}
