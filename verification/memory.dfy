/**
 * The early-boot memory subsystem of kernel/memory.c as one object: the
 * frame cursor `pmm_next`, the static arena `kheap` and its offset
 * `kheap_off`, which pmm_alloc_2m and kmalloc update in place. The ghost
 * fields record what has been handed out so far, so that the object
 * invariant can say that no two frames and no two heap blocks overlap.
 */
module Memory {
  import opened Wrappers
  import opened FrameAllocator
  import opened KernelHeap

  class MemorySubsystem {
    /** pmm_next: the next 2 MiB frame to hand out. */
    var pmmNext: U64
    /** kheap: the static 64 KiB arena carved up by kmalloc. */
    const kheap: array<bv8>
    /** kheap_off: the first byte of the arena not yet handed out. */
    var kheapOff: U64

    /** The frames handed out so far, in order. */
    ghost var frames: seq<nat>
    /** The heap blocks handed out so far, in order. */
    ghost var blocks: seq<Block>

    /**
     * The object invariant: the frames handed out are the consecutive frames
     * from PMM_START up to the cursor, and the heap blocks are non-empty,
     * 16-aligned and tile the arena from 0 up to the offset.
     */
    ghost predicate Valid()
      reads this
    {
      && CursorOk(pmmNext)
      && pmmNext == PMM_START + |frames| * FRAME_SIZE_2M
      && (forall i :: 0 <= i < |frames| ==> frames[i] == PMM_START + i * FRAME_SIZE_2M)
      && kheap.Length == KHEAP_SIZE
      && OffsetOk(kheapOff)
      && Tiles(blocks, 0, kheapOff)
      && (forall i :: 0 <= i < |blocks| ==>
            blocks[i].start % HEAP_ALIGN == 0 && blocks[i].len % HEAP_ALIGN == 0 && 0 < blocks[i].len)
    }

    /** The static initial state: `pmm_next = PMM_START`, a zeroed arena, `kheap_off = 0`. */
    constructor ()
      ensures Valid() && fresh(kheap)
      ensures pmmNext == PMM_START && kheapOff == 0
      ensures frames == [] && blocks == []
      ensures forall i :: 0 <= i < kheap.Length ==> kheap[i] == 0
    {
      pmmNext := PMM_START;
      kheap := new bv8[KHEAP_SIZE](_ => 0);
      kheapOff := 0;
      frames := [];
      blocks := [];
    }

    /** memory_init: a placeholder that performs no work and changes nothing. */
    method MemoryInit()
      requires Valid()
      ensures Valid() && unchanged(this) && unchanged(kheap)
    {
    }

    /**
     * pmm_alloc_2m: hands out the frame at the cursor and advances the cursor
     * by one frame, or returns 0 and changes nothing once the next frame would
     * cross PMM_END. A frame handed out is 2 MiB-aligned, lies in the window
     * and starts at or above the end of every frame handed out before it.
     */
    method PmmAlloc2M() returns (addr: U64)
      requires Valid()
      modifies this`pmmNext, this`frames
      ensures Valid()
      ensures PmmOutcome(addr, pmmNext) == PmmAlloc(old(pmmNext))
      ensures addr != 0 <==> old(pmmNext) + FRAME_SIZE_2M <= PMM_END
      ensures addr == 0 ==> pmmNext == old(pmmNext) && frames == old(frames)
      ensures addr != 0 ==>
        addr == old(pmmNext) && pmmNext == addr + FRAME_SIZE_2M && frames == old(frames) + [addr]
      ensures addr != 0 ==>
        addr % FRAME_SIZE_2M == 0 && PMM_START <= addr && addr + FRAME_SIZE_2M <= PMM_END
      ensures addr != 0 ==> forall f :: f in old(frames) ==> f + FRAME_SIZE_2M <= addr
    {
      if Wrap64(pmmNext + FRAME_SIZE_2M) > PMM_END {
        return 0;
      }
      addr := pmmNext;
      pmmNext := Wrap64(pmmNext + FRAME_SIZE_2M);
      frames := frames + [addr];
    }

    /** pmm_free_2m: accepted for symmetry; there is no free list, so nothing changes. */
    method PmmFree2M(phys: U64)
      requires Valid()
      ensures Valid() && unchanged(this) && unchanged(kheap)
    {
    }

    /**
     * kmalloc, with the size_t overflow closed (see KernelHeap.KmallocStep):
     * NULL for a zero request or one that does not fit, with the offset
     * unchanged; otherwise the old offset, which is 16-aligned, and the
     * offset advances by the request rounded up to 16 bytes. The new block
     * lies inside `kheap` and after every block handed out before it.
     */
    method Kmalloc(size: U64) returns (ptr: Option<nat>)
      requires Valid()
      modifies this`kheapOff, this`blocks
      ensures Valid()
      ensures HeapOutcome(ptr, kheapOff) == KmallocStep(old(kheapOff), size)
      ensures ptr.Some? <==> 0 < size && old(kheapOff) + size <= kheap.Length
      ensures ptr.None? ==> kheapOff == old(kheapOff) && blocks == old(blocks)
      ensures ptr.Some? ==>
        && ptr.value == old(kheapOff) && ptr.value % HEAP_ALIGN == 0
        && size <= kheapOff - ptr.value < size + HEAP_ALIGN && kheapOff <= kheap.Length
        && blocks == old(blocks) + [Block(ptr.value, kheapOff - ptr.value)]
      ensures ptr.Some? ==> forall b :: b in old(blocks) ==> b.start + b.len <= ptr.value
    {
      if size == 0 {
        return None;
      }
      if size > KHEAP_SIZE - kheapOff {
        return None;
      }
      var aligned := AlignUp16(size);
      AlignedFitsIffFits(kheapOff, size);
      if kheapOff + aligned > KHEAP_SIZE {
        return None;
      }
      ptr := Some(kheapOff);
      TilesAppend(blocks, 0, kheapOff, aligned);
      forall b | b in blocks
        ensures b.start + b.len <= kheapOff
      {
        var k :| 0 <= k < |blocks| && blocks[k] == b;
        TilesBounds(blocks, 0, kheapOff, k);
      }
      blocks := blocks + [Block(kheapOff, aligned)];
      kheapOff := kheapOff + aligned;
    }

    /** kfree: a no-op, since the bump allocator never reclaims. */
    method Kfree(ptr: Option<nat>)
      requires Valid()
      ensures Valid() && unchanged(this) && unchanged(kheap)
    {
    }

    /**
     * The heap never hands out more than the arena holds: the blocks handed
     * out so far add up to the offset, which is at most sizeof(kheap).
     */
    lemma HeapCapacityRespected()
      requires Valid()
      ensures TotalLen(blocks) == kheapOff <= kheap.Length
    {
      TilesTotal(blocks, 0, kheapOff);
    }
  }
}
