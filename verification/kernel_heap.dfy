/**
 * The kernel heap bump allocator of kernel/memory.c as pure functions: the
 * 16-byte rounding of a request, the step one call of kmalloc makes on the
 * offset `kheap_off`, and the layout of the blocks handed out so far.
 */
module KernelHeap {
  import opened Wrappers

  /** sizeof(kheap): the capacity of the static arena. */
  const KHEAP_SIZE: nat := 64 * 1024
  /** Every block starts and ends on a multiple of this alignment. */
  const HEAP_ALIGN: nat := 16

  /** The offset invariant: 16-aligned and inside the arena. */
  predicate OffsetOk(off: nat) {
    off % HEAP_ALIGN == 0 && off <= KHEAP_SIZE
  }

  /**
   * `(size + 15) & ~15` in `size_t` arithmetic: the sum wraps at 2^64 and the
   * mask clears the four low bits, that is, rounds down to a multiple of 16.
   * Whenever the sum does not wrap, the result is the least multiple of 16
   * that is at least `size`; when it wraps, the result is 0.
   */
  function AlignUp16(size: U64): (r: U64)
    ensures r % HEAP_ALIGN == 0
    ensures size + 15 < U64_LIMIT ==> size <= r < size + HEAP_ALIGN
    ensures U64_LIMIT <= size + 15 ==> r == 0
  {
    Wrap64(size + 15) / 16 * 16
  }

  /** No smaller multiple of 16 covers `size`: the rounding wastes less than one alignment unit. */
  lemma AlignUp16IsLeast(size: U64, m: nat)
    requires size + 15 < U64_LIMIT && m % HEAP_ALIGN == 0 && size <= m
    ensures AlignUp16(size) <= m
  {
  }

  /** At an aligned offset, the rounded request fits in the arena exactly when the requested bytes fit. */
  lemma AlignedFitsIffFits(off: nat, size: U64)
    requires size + 15 < U64_LIMIT
    ensures OffsetOk(off) ==> (off + AlignUp16(size) <= KHEAP_SIZE <==> off + size <= KHEAP_SIZE)
  {
  }

  /** One call of kmalloc: the pointer it returns as an offset into `kheap` (None for NULL) and the new offset. */
  datatype HeapOutcome = HeapOutcome(ptr: Option<nat>, off: U64)

  /**
   * kmalloc exactly as written: the rounding and the bound check both use
   * `size_t` sums that wrap at 2^64. The offset invariant survives the wrap,
   * a zero request and every failure leave the offset alone, and a success
   * returns the old offset; but see the two counterexamples below for what
   * a success may then mean.
   */
  function KmallocAsWritten(off: U64, size: U64): (o: HeapOutcome)
    ensures size == 0 ==> o.ptr.None?
    ensures o.ptr.None? ==> o.off == off
    ensures o.ptr.Some? ==> o.ptr.value == off && o.off <= KHEAP_SIZE
    ensures OffsetOk(off) ==> OffsetOk(o.off)
  {
    if size == 0 then HeapOutcome(None, off)
    else
      var aligned := AlignUp16(size);
      if Wrap64(off + aligned) > KHEAP_SIZE then HeapOutcome(None, off)
      else HeapOutcome(Some(off), Wrap64(off + aligned))
  }

  /**
   * As written, a request of 2^64 - 16 bytes at offset 16 passes the bound
   * check because `kheap_off + size` wraps to 0: kmalloc returns `&kheap[16]`
   * and resets the offset to 0, so the next block overlaps earlier ones.
   */
  lemma KmallocAsWrittenResetsOffset()
    ensures KmallocAsWritten(16, U64_LIMIT - 16) == HeapOutcome(Some(16), 0)
    ensures KmallocStep(16, U64_LIMIT - 16) == HeapOutcome(None, 16)
  {
  }

  /**
   * As written, a request of 2^64 - 1 bytes rounds to 0 because `size + 15`
   * wraps: kmalloc returns a non-NULL pointer and reserves nothing.
   */
  lemma KmallocAsWrittenReservesNothing(off: U64)
    requires OffsetOk(off)
    ensures KmallocAsWritten(off, U64_LIMIT - 1) == HeapOutcome(Some(off), off)
    ensures KmallocStep(off, U64_LIMIT - 1).ptr.None?
  {
  }

  /**
   * kmalloc with the overflow closed: a request larger than the space left
   * is refused before it is rounded (so neither sum can wrap). Under the
   * offset invariant the call keeps the invariant and succeeds exactly when
   * the request is non-zero and its bytes fit in the space left; a failure
   * leaves the offset alone; a success returns the old offset and advances
   * it by the least multiple of 16 covering the request, so the block
   * `[old, new)` lies inside the arena.
   */
  function KmallocStep(off: U64, size: U64): (o: HeapOutcome)
    ensures OffsetOk(off) ==> OffsetOk(o.off)
    ensures OffsetOk(off) ==> (o.ptr.Some? <==> 0 < size && off + size <= KHEAP_SIZE)
    ensures o.ptr.None? ==> o.off == off
    ensures o.ptr.Some? ==>
      o.ptr.value == off && size <= o.off - off < size + HEAP_ALIGN && o.off <= KHEAP_SIZE
    ensures o.ptr.Some? ==> o.off - off == AlignUp16(size)
  {
    if size == 0 then HeapOutcome(None, off)
    else if size > KHEAP_SIZE - off then HeapOutcome(None, off)
    else
      var aligned := AlignUp16(size);
      AlignedFitsIffFits(off, size);
      if off + aligned > KHEAP_SIZE then HeapOutcome(None, off)
      else HeapOutcome(Some(off), off + aligned)
  }

  /** Wherever the source's sums do not wrap, the corrected step agrees with the code as written. */
  lemma KmallocStepAgreesWithoutWrap(off: U64, size: U64)
    requires size + 15 < U64_LIMIT && off + AlignUp16(size) < U64_LIMIT
    ensures KmallocStep(off, size) == KmallocAsWritten(off, size)
  {
  }

  /** A block of the arena handed out by kmalloc: its start offset and its rounded length. */
  datatype Block = Block(start: nat, len: nat)

  /** The blocks lie one after another without gaps, from offset `from` up to offset `to`. */
  ghost predicate Tiles(blocks: seq<Block>, from: nat, to: nat)
    decreases |blocks|
  {
    if blocks == [] then from == to
    else blocks[0].start == from && Tiles(blocks[1..], from + blocks[0].len, to)
  }

  /** The sum of the lengths of the blocks. */
  function TotalLen(blocks: seq<Block>): (n: nat)
  {
    if blocks == [] then 0 else blocks[0].len + TotalLen(blocks[1..])
  }

  /** Blocks that tile `[from, to)` use exactly `to - from` bytes, never more than that range. */
  lemma {:induction false} TilesTotal(blocks: seq<Block>, from: nat, to: nat)
    requires Tiles(blocks, from, to)
    ensures from + TotalLen(blocks) == to
    decreases |blocks|
  {
    if blocks != [] {
      TilesTotal(blocks[1..], from + blocks[0].len, to);
    }
  }

  /** Appending the block `[to, to + len)` to a tiling of `[from, to)` gives a tiling of `[from, to + len)`. */
  lemma {:induction false} TilesAppend(blocks: seq<Block>, from: nat, to: nat, len: nat)
    requires Tiles(blocks, from, to)
    ensures Tiles(blocks + [Block(to, len)], from, to + len)
    decreases |blocks|
  {
    if blocks == [] {
      assert [Block(to, len)][1..] == [];
    } else {
      TilesAppend(blocks[1..], from + blocks[0].len, to, len);
      assert (blocks + [Block(to, len)])[1..] == blocks[1..] + [Block(to, len)];
    }
  }

  /** Every block of a tiling lies inside the tiled range and ends at or before the start of every later block. */
  lemma {:induction false} TilesDisjoint(blocks: seq<Block>, from: nat, to: nat, i: nat, j: nat)
    requires Tiles(blocks, from, to) && i < j < |blocks|
    ensures from <= blocks[i].start
    ensures blocks[i].start + blocks[i].len <= blocks[j].start
    ensures blocks[j].start + blocks[j].len <= to
    decreases |blocks|
  {
    if i == 0 {
      TilesBounds(blocks[1..], from + blocks[0].len, to, j - 1);
    } else {
      TilesDisjoint(blocks[1..], from + blocks[0].len, to, i - 1, j - 1);
    }
  }

  /** Every block of a tiling of `[from, to)` lies inside `[from, to)`. */
  lemma {:induction false} TilesBounds(blocks: seq<Block>, from: nat, to: nat, k: nat)
    requires Tiles(blocks, from, to) && k < |blocks|
    ensures from <= blocks[k].start && blocks[k].start + blocks[k].len <= to
    decreases |blocks|
  {
    if k == 0 {
      TilesTotal(blocks[1..], from + blocks[0].len, to);
    } else {
      TilesBounds(blocks[1..], from + blocks[0].len, to, k - 1);
    }
  }

  /**
   * The worked examples of the heap from an empty arena: kmalloc(10) gives
   * offset 0 and uses 16 bytes, a following kmalloc(1) gives offset 16, and
   * kmalloc(0) gives NULL with the offset still 0.
   */
  lemma KmallocExamples()
    ensures KmallocStep(0, 10) == HeapOutcome(Some(0), 16)
    ensures KmallocStep(16, 1) == HeapOutcome(Some(16), 32)
    ensures KmallocStep(0, 0) == HeapOutcome(None, 0)
  {
  }

  /** After any block has been handed out, a request for the whole arena fails. */
  lemma WholeArenaFailsOnceUsed(off: U64)
    requires OffsetOk(off) && 0 < off
    ensures KmallocStep(off, KHEAP_SIZE) == HeapOutcome(None, off)
  {
  }
}
