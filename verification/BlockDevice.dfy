/** Whole block operations of the device: the split between DMA and BAR, and the
    copy inside device memory. */
module BlockDevice {
  import opened DmaSpec
  import opened DmaInvariant
  import opened DmaTransfer
  import opened DmaMemory
  import opened DmaEngine
  import opened BarWindow
  import opened BarDevice
  import C = CopyBlock

  const BLOCK_SIZE: nat := 8 * 1024 * 1024

  /** From 1024 bytes on, the aligned part is itself a request the driver takes
      for DMA, and less than one alignment unit is left. */
  lemma DmaPart(size: nat)
    requires size >= 1024
    ensures var n := size - size % ALIGN;
            n >= 1024 && Aligned64(n) && size - n < ALIGN
  {}

  lemma Aligned(q: nat)
    ensures Aligned64(ALIGN * q)
  {}

  /** A finished transfer, as a memcpy. */
  lemma DmaMoved(pt: PageTable, first: Dma, t: Dma, m: Memory)
    requires Since(pt, first, t) && t.sent == t.bytes
    ensures Moved(pt, t.reading, m, ExecLog(m, t.log[|first.log|..]), first.host, first.device, t.bytes)
  {
    TransferIsMemcpy(pt, first, t, m);
    hide Since, IsRead, IsWrite, NoAlias, ExecLog;
  }

  lemma SinceFacts(pt: PageTable, first: Dma, t: Dma)
    requires Since(pt, first, t)
    ensures |first.log| <= |t.log| && t.reading == first.reading && t.bytes == first.bytes
    ensures t.sent > 0 ==> |t.log| > |first.log|
  {}

  lemma IsRequest(host: nat, device: nat, bytes: nat)
    requires host % ALIGN == 0 && device % ALIGN == 0 && Aligned64(bytes) && bytes > 0
    ensures Request(host, device, bytes)
  {}

  /** Through the buffer and back: one block of device memory. */
  lemma OneBlockIs(pt: PageTable, m: Memory, m1: Memory, m2: Memory, data: nat, src: nat, dst: nat, n: nat)
    requires Moved(pt, true, m, m1, data, src, n) && Moved(pt, false, m1, m2, data, dst, n) && NoAlias(pt, data, n)
    ensures C.SameBytes(m2.device, C.OneBlock(m.device, src, dst, n))
  {
    hide NoAlias, IsRead, IsWrite;
    forall a: nat ensures m2.device(a) == C.OneBlock(m.device, src, dst, n)(a) {
      ByteThrough(pt, m, m1, m2, data, src, dst, n, a);
    }
  }

  lemma ByteThrough(pt: PageTable, m: Memory, m1: Memory, m2: Memory, data: nat, src: nat, dst: nat, n: nat, a: nat)
    requires IsRead(pt, m, m1, data, src, n) && IsWrite(pt, m1, m2, data, dst, n)
    ensures m2.device(a) == C.OneBlock(m.device, src, dst, n)(a)
  {
    hide Phys, InImage, NoAlias;
    assert m2.device(a) == if dst <= a < dst + n then m1.host(Phys(pt, data + (a - dst))) else m1.device(a);
    if dst <= a < dst + n {
      var v := data + (a - dst);
      assert m1.host(Phys(pt, v)) == m.device(src + (v - data));
    }
  }

  lemma BlockStep(now: Mem, next: Mem, src: nat, dst: nat, left: nat, n: nat)
    requires n == (if left > BLOCK_SIZE then BLOCK_SIZE else left) && C.SameBytes(next, C.OneBlock(now, src, dst, n))
    ensures if left <= BLOCK_SIZE then C.SameBytes(next, C.Blocks(now, src, dst, left, BLOCK_SIZE))
            else C.SameBytes(C.Blocks(next, src + n, dst + n, left - n, BLOCK_SIZE),
                             C.Blocks(now, src, dst, left, BLOCK_SIZE))
  {
    if left > BLOCK_SIZE { C.BlocksSame(next, C.OneBlock(now, src, dst, n), src + n, dst + n, left - n, BLOCK_SIZE); }
    hide C.OneBlock;
  }

  lemma BytesTrans(a: Mem, b: Mem, c: Mem)
    requires C.SameBytes(a, b) && C.SameBytes(b, c)
    ensures C.SameBytes(a, c)
  {}

  lemma BytesSelf(a: Mem)
    ensures C.SameBytes(a, a)
  {}

  class BlockIO {
    const dev: Device

    constructor (dev: Device)
      ensures this.dev == dev
    {
      this.dev := dev;
    }

    ghost predicate Valid(base: int)
      reads dev, dev.board, dev.engine
    {
      dev.Valid() && dev.engine.Valid() && dev.engine.CurOk() && Idle(base, dev.engine.d) &&
      dev.engine.pt == dev.board.pt
    }

    // m_dma->read_write and stall_until_idle: the engine sends its batches and
    // the controller executes them
    method Dma(host: nat, device: nat, bytes: nat, reading: bool, ghost base: int)
      requires Valid(base) && Request(host, device, bytes)
      modifies dev.engine, dev.engine.rdTable, dev.engine.wrTable, dev.board`mem
      ensures Valid(base)
      ensures |dev.engine.d.log| > old(|dev.engine.d.log|)
      ensures Moved(dev.board.pt, reading, old(dev.board.mem), dev.board.mem, host, device, bytes)
    {
      hide Moved, Since, Idle, ExecLog;
      ghost var first := Start(dev.engine.d, host, device, bytes, reading);
      var sent := |dev.engine.d.log|;
      dev.engine.Transfer(host, device, bytes, reading, base);
      SinceFacts(dev.board.pt, first, dev.engine.d);
      DmaMoved(dev.board.pt, first, dev.engine.d, dev.board.mem);
      dev.board.mem := ExecLog(dev.board.mem, dev.engine.d.log[sent..]);
    }

    method ReadWriteBlock(host: nat, device: nat, size: nat, reading: bool, ghost base: int)
      requires Valid(base)
      modifies dev`segment, dev.board, dev.board.buffer, dev.engine, dev.engine.rdTable, dev.engine.wrTable
      ensures Valid(base)
      ensures Moved(dev.board.pt, reading, old(dev.board.mem), dev.board.mem, host, device, size)
      // aligned blocks from 1024 bytes on go by DMA, up to their last multiple of 64
      ensures var byDma := dev.useDma && host % ALIGN == 0 && device % ALIGN == 0 && size >= 1024;
              dev.board.moved == old(dev.board.moved) + (if byDma then size % ALIGN else size) &&
              (byDma <==> |dev.engine.d.log| > old(|dev.engine.d.log|))
    {
      hide Moved, Move, Aligned64, Idle;
      ghost var pt, m := dev.board.pt, dev.board.mem;
      MoveIsCopy(pt, reading, m, host, device, 0);
      MoveNone(pt, m, reading, host, device);
      if size == 0 { return; }
      var dmaSize := 0;
      var aligned := host % ALIGN == 0 && device % ALIGN == 0;
      if dev.useDma && aligned && size >= 1024 {
        dmaSize := size - size % ALIGN;
        DmaPart(size);
        IsRequest(host, device, dmaSize);
      }
      if dmaSize < size {
        MoveIsCopy(pt, reading, m, host + dmaSize, device + dmaSize, size - dmaSize);
        dev.ReadWriteBlockBar(host + dmaSize, device + dmaSize, size - dmaSize, reading);
      } else {
        MoveIsCopy(pt, reading, m, host + dmaSize, device + dmaSize, 0);
        MoveNone(pt, m, reading, host + dmaSize, device + dmaSize);
      }
      ghost var m1 := dev.board.mem;
      if dmaSize != 0 {
        Dma(host, device, dmaSize, reading, base);
        MovedSwapped(pt, reading, m, m1, dev.board.mem, host, device, dmaSize, size - dmaSize);
      }
    }

    // read_block into the buffer, write_block from it
    method CopyOne(src: nat, dst: nat, n: nat, data: nat, ghost base: int)
      requires Valid(base) && NoAlias(dev.board.pt, data, BLOCK_SIZE) && n <= BLOCK_SIZE
      modifies dev`segment, dev.board, dev.board.buffer, dev.engine, dev.engine.rdTable, dev.engine.wrTable
      ensures Valid(base)
      ensures C.SameBytes(dev.board.mem.device, C.OneBlock(old(dev.board.mem).device, src, dst, n))
    {
      hide Moved, Idle, C.SameBytes, C.OneBlock;
      NoAliasFirst(dev.board.pt, data, n, BLOCK_SIZE - n);
      hide NoAlias;
      ReadWriteBlock(data, src, n, true, base);
      ghost var m1 := dev.board.mem;
      ReadWriteBlock(data, dst, n, false, base);
      OneBlockIs(dev.board.pt, old(dev.board.mem), m1, dev.board.mem, data, src, dst, n);
    }

    // `data` is the user address of the static buffer
    method CopyBlock(src: nat, dst: nat, size: nat, data: nat, ghost base: int)
      requires Valid(base) && NoAlias(dev.board.pt, data, BLOCK_SIZE)
      modifies dev`segment, dev.board, dev.board.buffer, dev.engine, dev.engine.rdTable, dev.engine.wrTable
      ensures Valid(base)
      ensures C.SameBytes(dev.board.mem.device, C.Blocks(old(dev.board.mem).device, src, dst, size, BLOCK_SIZE))
      ensures dst <= src || src + size <= dst || size <= BLOCK_SIZE ==>
                C.SameBytes(dev.board.mem.device,
                            Copied(old(dev.board.mem).device, dst, old(dev.board.mem).device, src, size))
    {
      hide Idle, NoAlias, C.SameBytes, C.Blocks, C.OneBlock;
      ghost var was := dev.board.mem.device;
      ghost var goal := C.Blocks(was, src, dst, size, BLOCK_SIZE);
      var s: nat, d: nat, left: nat := src, dst, size;
      BytesSelf(goal);
      while true
        invariant Valid(base)
        invariant C.SameBytes(C.Blocks(dev.board.mem.device, s, d, left, BLOCK_SIZE), goal)
        decreases left
      {
        ghost var now := dev.board.mem.device;
        ghost var rest := C.Blocks(now, s, d, left, BLOCK_SIZE);
        var n := if left > BLOCK_SIZE then BLOCK_SIZE else left;
        CopyOne(s, d, n, data, base);
        BlockStep(now, dev.board.mem.device, s, d, left, n);
        s, d, left := s + n, d + n, left - n;
        if left == 0 {
          BytesTrans(dev.board.mem.device, rest, goal);
          break;
        }
        BytesTrans(C.Blocks(dev.board.mem.device, s, d, left, BLOCK_SIZE), rest, goal);
      }
      if dst <= src || src + size <= dst || size <= BLOCK_SIZE {
        CopyRight(was, src, dst, size);
        BytesTrans(dev.board.mem.device, goal, Copied(was, dst, was, src, size));
      }
    }
  }

  lemma CopyRight(d: Mem, src: nat, dst: nat, size: nat)
    requires dst <= src || src + size <= dst || size <= BLOCK_SIZE
    ensures C.SameBytes(C.Blocks(d, src, dst, size, BLOCK_SIZE), Copied(d, dst, d, src, size))
  {
    C.BlocksRight(d, src, dst, size, BLOCK_SIZE);
  }
}
