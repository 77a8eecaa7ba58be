/** The engine as the driver runs it: the state struct is updated step by step,
    the descriptor tables are written slot by slot. */
module DmaEngine {
  import opened DmaSpec
  import opened DmaInvariant
  import opened DmaTransfer

  class Engine {
    const pt: PageTable           // what get_user_pages will find
    const rdTable: array<Desc>    // desc_table_rd_cpu_virt_addr
    const wrTable: array<Desc>    // desc_table_wr_cpu_virt_addr
    var d: Dma                    // struct aclpci_dma
    var curDmaAddr: nat           // m_cur_dma_addr

    ghost predicate Valid() {
      rdTable != wrTable && rdTable.Length == wrTable.Length == TABLE
    }

    // The cached address is only meant while the region has pages left.
    ghost predicate CurOk()
      reads this
    {
      d.active.pagesRem > 0 && d.active.next < |d.active.pages| ==>
        curDmaAddr == FrameAddr(d.active.pages[d.active.next])
    }

    // aclpci_dma_init
    constructor (pt: PageTable, hwRdLast: nat, hwWrLast: nat)
      requires ValidId(hwRdLast) && ValidId(hwWrLast)
      ensures Valid() && CurOk() && fresh(rdTable) && fresh(wrTable) && this.pt == pt
      ensures Idle(0, d) && d.log == [] && d.hwRdLast == hwRdLast && d.hwWrLast == hwWrLast
    {
      this.pt := pt;
      rdTable := new Desc[TABLE](_ => Desc(0, 0, 0, 0));
      wrTable := new Desc[TABLE](_ => Desc(0, 0, 0, 0));
      d := Dma(true, false, 0, 0, 0, 0, NO_PIN, NO_PIN, NO_PIN, 0,
               RESET_ID, RESET_ID, TABLE - 1, hwRdLast, hwWrLast, 0, []);
      curDmaAddr := 0;
    }

    // read_write
    method ReadWrite(host: nat, device: nat, bytes: nat, reading: bool)
      requires d.idle && !d.active.live
      modifies this`d
      ensures d == Start(old(d), host, device, bytes, reading)
    {
      d := d.(reading := reading);
      d := d.(bytes := bytes);
      d := d.(host := host);
      d := d.(device := device);
      d := d.(pageLastId := TABLE - 1);
      if reading { d := d.(wrLastId := d.hwWrLast); } else { d := d.(rdLastId := d.hwRdLast); }
      d := d.(sent := 0);
      d := d.(idle := false);
    }

    // __aclpci_get_user_pages: each call of the kernel may pin fewer pages than asked for
    method GetUserPages(first: nat, n: nat) returns (pages: seq<nat>)
      modifies this`d
      ensures pages == seq(n, i requires 0 <= i < n => pt(first + i))
      ensures d == old(d).(lockedPages := old(d).lockedPages + n)
    {
      pages := [];
      while |pages| < n
        invariant |pages| <= n && forall i :: 0 <= i < |pages| ==> pages[i] == pt(first + i)
        invariant d == old(d)
        decreases n - |pages|
      {
        var got: nat :| 1 <= got <= n - |pages|;
        var base := first + |pages|;
        pages := pages + seq(got, i requires 0 <= i < got => pt(base + i));
      }
      d := d.(lockedPages := d.lockedPages + n);
    }

    method LockDmaBuffer(addr: nat, len: nat) returns (region: Pinned)
      requires len > 0
      modifies this`d
      ensures region == Lock(pt, addr, len)
      ensures d == old(d).(lockedPages := old(d).lockedPages + |region.pages|)
    {
      var startPage, endPage := addr / PAGE, (addr + len - 1) / PAGE;
      var numPages := endPage - startPage + 1;
      var pages := GetUserPages(startPage, numPages);
      region := Pinned(true, pages, 0, numPages, addr % PAGE, (addr + len) % PAGE);
    }

    method UnlockDmaBuffer(region: Pinned) returns (r: Pinned)
      modifies this`d
      ensures r == Unlock(region) && d == old(d).(lockedPages := old(d).lockedPages - |region.pages|)
    {
      d := d.(lockedPages := d.lockedPages - |region.pages|);
      r := region.(live := false, pages := []);
    }

    method UnlockDoneRegion()
      modifies this`d
      ensures d == UnlockDone(old(d))
    {
      if d.done.live {
        var r := UnlockDmaBuffer(d.done);
        d := d.(done := r);
      }
    }

    method UnlockAllDma()
      modifies this`d
      ensures d == UnlockAll(old(d))
    {
      if d.active.live {
        var r := UnlockDmaBuffer(d.active);
        d := d.(active := r);
      }
      if d.prePinned.live {
        var r := UnlockDmaBuffer(d.prePinned);
        d := d.(prePinned := r);
      }
      UnlockDoneRegion();
    }

    method GetStartId() returns (start: int)
      ensures start == StartId(d.LastId())
    {
      var last := if d.reading then d.wrLastId else d.rdLastId;
      if last == RESET_ID {
        start := 0;
      } else if last == TABLE - 1 {
        start := 0;
      } else if last < TABLE - 1 {
        start := last + 1;
      } else {
        start := -1;
      }
    }

    // set_write_desc / set_read_desc into slot i
    method SetDesc(i: nat, hostAddr: nat, deviceAddr: nat, words: nat, id: nat)
      requires Valid() && i < TABLE
      modifies rdTable, wrTable
      ensures var t := if d.reading then wrTable else rdTable;
              t[..] == old(t[..])[i := MakeDesc(d.reading, hostAddr, deviceAddr, words, id)]
    {
      if d.reading {
        wrTable[i] := Desc(deviceAddr, hostAddr, words, id);
      } else {
        rdTable[i] := Desc(hostAddr, deviceAddr, words, id);
      }
    }

    // send_dma_desc: the controller reads the first n slots of the table
    method SendDmaDesc(lastId: nat, n: nat)
      requires Valid() && n <= TABLE
      modifies this`d
      ensures d == Send(old(d), old((if d.reading then wrTable else rdTable)[..n]), lastId)
    {
      d := d.(log := d.log + [Batch(d.reading, (if d.reading then wrTable else rdTable)[..n], lastId)]);
      if d.reading {
        d := d.(wrLastId := lastId);
        d := d.(hwWrLast := lastId);
      } else {
        d := d.(rdLastId := lastId);
        d := d.(hwRdLast := lastId);
      }
    }

    // The largest descriptor that fits: 2048, 1024, ..., 4 bytes
    method PieceSize(bytes: nat) returns (n: nat)
      requires bytes < PAGE
      ensures if bytes < 4 then n == 0 else n == Piece(bytes)
    {
      hide IsPower, Piece;
      var w, size := 11, 2048;    // ACL_PCIE_DMA_NON_ALIGNED_TRANS_LOG
      LargestPower();
      n := 0;
      while w > 1
        invariant w >= 1 && size >= 2 && (if w == 1 then size == 2 else size >= 4)
        invariant IsPower(size, w) && bytes < 2 * size
        decreases w
      {
        if bytes / size > 0 {
          AtLeast(bytes, size);
          PowerIsPiece(size, w, bytes);
          return size;
        }
        HalfPower(size, w);
        w, size := w - 1, size / 2;
      }
    }

    // The piece is in the table: send it and move on.
    method SendPiece(bytes: nat, n: nat, start: nat, ghost piece: Desc)
      requires Valid() && 0 < d.active.pagesRem <= |d.active.pages| - d.active.next && CurOk()
      requires (if d.reading then wrTable else rdTable)[..1] == [piece]
      requires var at := FrameAddr(d.active.pages[d.active.next]) + d.active.firstOffset;
               piece == MakeDesc(d.reading, at, d.device, n / 4, start)
      modifies this
      ensures CurOk() && d == Advance(old(d), bytes, n, start)
    {
      hide FrameAddr, UnlockDone;
      SendDmaDesc(start, 1);
      d := d.(device := d.device + n, sent := d.sent + n, host := d.host + n);
      ghost var before := d;
      d := d.(active := d.active.(firstOffset := d.active.firstOffset + n));
      ghost var same := d.active;
      UnlockDoneRegion();
      UnlockDoneActive(before, same);
      if n == bytes {
        var region := d.active.(firstOffset := 0, next := d.active.next + 1, pagesRem := d.active.pagesRem - 1);
        d := d.(active := region);
        if region.next < |region.pages| { curDmaAddr := FrameAddr(region.pages[region.next]); }
        UnlockDoneActive(before, region);
      }
    }

    method NonAlignedPageHandler(pcieAddr: nat, bytes: nat) returns (ok: bool)
      requires Valid() && 0 < d.active.pagesRem <= |d.active.pages| - d.active.next
      requires pcieAddr == FrameAddr(d.active.pages[d.active.next]) + d.active.firstOffset && CurOk()
      modifies this, rdTable, wrTable
      ensures ok == (bytes < PAGE && StartId(old(d).LastId()) >= 0 && bytes >= 4)
      ensures if ok then CurOk() && d == Advance(old(d), bytes, Piece(bytes), StartId(old(d).LastId()))
              else d == old(d)
    {
      hide FrameAddr, Piece, Advance, StartId;
      if bytes >= PAGE { return false; }
      var start := GetStartId();
      if start < 0 { return false; }
      var n := PieceSize(bytes);
      if n == 0 { return false; }
      SetDesc(0, pcieAddr, d.device, n / 4, start);
      ghost var piece := MakeDesc(d.reading, pcieAddr, d.device, n / 4, start);
      assert (if d.reading then wrTable else rdTable)[..1] == [piece];
      SendPiece(bytes, n, start, piece);
      ok := true;
    }

    // The region to send next: the pre-pinned one, or one pinned now.
    method TakeRegion() returns (region: Pinned)
      requires d.Remaining() > 0 && d.pageLastId < TABLE
      modifies this`d
      ensures var s := old(d);
              region == (if s.prePinned.live then s.prePinned
                         else Lock(pt, s.host, LockSize(s.Remaining(), s.pageLastId))) &&
              d == s.(prePinned := s.prePinned.(live := false),
                      lockedPages := s.lockedPages + if s.prePinned.live then 0 else |region.pages|)
    {
      hide Lock, LockSize;
      if !d.prePinned.live {
        region := LockDmaBuffer(d.host, LockSize(d.Remaining(), d.pageLastId));
      } else {
        region := d.prePinned;
        d := d.(prePinned := d.prePinned.(live := false));
      }
    }

    method NextRegion()
      requires d.Remaining() > 0 && d.pageLastId < TABLE
      modifies this
      ensures d == Repin(pt, old(d)) && CurOk()
    {
      hide FrameAddr, Lock, LockSize;
      ghost var s := d;
      if d.active.pagesRem == 0 {
        d := d.(done := d.active);
      }
      var region := TakeRegion();
      var handleLast := if region.lastOffset != 0 then 1 else 0;
      // A region one page too long leaves its partial last page to the next one.
      if region.pagesRem > LOCKED && handleLast == 1 {
        region := region.(pagesRem := region.pagesRem - 1);
        handleLast := 0;
      }
      d := d.(active := region, handleLast := handleLast);
      if region.next < |region.pages| { curDmaAddr := FrameAddr(region.pages[region.next]); }
    }

    // i of the whole pages that s has to send are in the table.
    ghost predicate Filled(s: Dma, start: nat, i: nat)
      requires Valid() && i <= TABLE && s.active.next + i <= |s.active.pages|
      reads this, rdTable, wrTable
    {
      d == s.(device := s.device + i * PAGE, active := s.active.(next := s.active.next + i)) &&
      (if s.reading then wrTable else rdTable)[..i] == PageDescs(s, start, i) &&
      (s.active.next + i < |s.active.pages| ==> curDmaAddr == FrameAddr(s.active.pages[s.active.next + i]))
    }

    method FillSlot(start: nat, i: nat, ghost s: Dma)
      requires Valid() && i < TABLE && s.active.next + i < |s.active.pages| && Filled(s, start, i)
      modifies this, rdTable, wrTable
      ensures Filled(s, start, i + 1)
    {
      hide FrameAddr;
      SetDesc(i, curDmaAddr, d.device, PAGE / 4, start + i);
      ghost var t := if s.reading then wrTable else rdTable;
      assert t[..i + 1] == t[..i] + [PageDesc(s, start, i)];
      var next := d.active.next + 1;
      d := d.(active := d.active.(next := next), device := d.device + PAGE);
      if next < |d.active.pages| { curDmaAddr := FrameAddr(d.active.pages[next]); }
    }

    // Slots 0..n-1 with whole pages.
    method FillTable(start: nat, n: nat)
      requires Valid() && n <= TABLE && d.active.next + n <= |d.active.pages|
      requires d.active.next < |d.active.pages| ==> curDmaAddr == FrameAddr(d.active.pages[d.active.next])
      modifies this, rdTable, wrTable
      ensures Filled(old(d), start, n)
    {
      ghost var s := d;
      for i := 0 to n
        invariant Filled(s, start, i)
      {
        FillSlot(start, i, s);
      }
    }

    // aclpci_dma_update
    method Update() returns (code: Code)
      requires Valid() && CurOk() && CanUpdate(pt, d)
      modifies this, rdTable, wrTable
      ensures CurOk() || code == Fault
      ensures Outcome(d, code) == DmaSpec.Update(pt, old(d))
    {
      if d.idle { return Nothing; }
      if d.Remaining() <= 0 {
        Finish();
        return Did;
      }
      if !d.active.live || d.active.pagesRem == 0 {
        NextRegion();
      }
      code := Transmit();
    }

    // The transfer is complete: reset the ids and unpin.
    method Finish()
      modifies this`d
      ensures d == Complete(old(d))
    {
      d := d.(rdLastId := RESET_ID, wrLastId := RESET_ID, pageLastId := TABLE - 1);
      var region := UnlockDmaBuffer(d.active);
      d := d.(active := region);
      UnlockDoneRegion();
      d := d.(idle := true);
    }

    method Transmit() returns (code: Code)
      requires Valid() && CurOk() && Prepared(d)
      modifies this, rdTable, wrTable
      ensures CurOk() || code == Fault
      ensures Outcome(d, code) == Emit(pt, old(d))
    {
      hide Advance, Piece, FrameAddr, Full;
      var firstSize := if d.active.pagesRem == 1 then d.Remaining() % UINT else PAGE - d.active.firstOffset;
      firstSize := if firstSize > PAGE then PAGE else firstSize;
      if firstSize != PAGE && firstSize != 0 {
        var ok := NonAlignedPageHandler(curDmaAddr + d.active.firstOffset, firstSize);
        if !ok {
          UnlockAllDma();
          return Fault;
        }
        return Did;
      }
      if d.active.pagesRem > d.handleLast {
        code := TransmitPages();
      } else {
        code := Nothing;
      }
    }

    method TransmitPages() returns (code: Code)
      requires Valid() && CurOk() && Prepared(d) && d.active.pagesRem > d.handleLast
      modifies this, rdTable, wrTable
      ensures CurOk() || code == Fault
      ensures Outcome(d, code) == Full(pt, old(d))
    {
      hide SendPages, PrePin, UnlockAll, FrameAddr;
      var start := GetStartId();
      if start < 0 {
        UnlockAllDma();
        return Fault;
      }
      KeepsActive(pt, d, start);
      var whole := d.active.pagesRem - d.handleLast;
      var n := if whole > TABLE - start then TABLE - start else whole;
      SendFull(start, n);
      PrePinRegion();
      code := Did;
    }

    method SendFull(start: nat, n: nat)
      requires Valid() && CurOk() && 0 < n <= d.active.pagesRem && start + n <= TABLE
      requires d.active.next + d.active.pagesRem <= |d.active.pages|
      modifies this, rdTable, wrTable
      ensures CurOk() && d == SendPages(old(d), start, n)
    {
      hide PageDescs, FrameAddr, SendPages, Send, UnlockDone;
      ghost var s := d;
      FillTable(start, n);
      SendPast(s, start, n);
      SendKeeps(s, start, n);
      d := d.(sent := d.sent + PAGE * n, host := d.host + PAGE * n,
              active := d.active.(pagesRem := d.active.pagesRem - n), pageLastId := n + start - 1);
      SendDmaDesc(n + start - 1, n);
      UnlockDoneRegion();
    }

    method PrePinRegion()
      requires d.pageLastId < TABLE
      modifies this`d
      ensures d == PrePin(pt, old(d))
    {
      if d.Remaining() > 0 && d.active.pagesRem == 0 {
        var region := LockDmaBuffer(d.host, LockSize(d.Remaining(), d.pageLastId));
        d := d.(prePinned := region);
      }
    }

    // One transfer on its own: updates until the engine is idle. The locked-page
    // count is back where it was, and the batches sent tile the request.
    method Transfer(host: nat, device: nat, bytes: nat, reading: bool, ghost base: int)
      requires Valid() && CurOk() && Idle(base, d) && Request(host, device, bytes)
      modifies this, rdTable, wrTable
      ensures CurOk() && Idle(base, d)
      ensures var first := Start(old(d), host, device, bytes, reading);
              Since(pt, first, d) && d.sent == bytes
    {
      ghost var first := Start(d, host, device, bytes, reading);
      StartOk(pt, base, d, host, device, bytes, reading);
      ReadWrite(host, device, bytes, reading);
      while !d.idle
        invariant CurOk() && Since(pt, first, d)
        invariant if d.idle then Idle(base, d) && d.sent == bytes else Busy(pt, base, d)
        decreases !d.idle, d.Remaining()
      {
        ghost var s := d;
        if s.Remaining() == 0 {
          CompleteOk(pt, base, s);
        } else {
          ghost var k := UpdateSends(pt, base, s);
          SinceStep(pt, first, s, DmaSpec.Update(pt, s).s, k);
        }
        var code := Update();
      }
    }
  }

  /** The counters may move before the doorbell or after it. */
  lemma SendPast(s: Dma, start: nat, n: nat)
    requires 0 < n <= s.active.pagesRem && s.active.next + n <= |s.active.pages|
    ensures SendPages(s, start, n) == UnlockDone(Send(PastPages(s, start, n), PageDescs(s, start, n), start + n - 1))
  {
    hide PageDescs, FrameAddr, UnlockDone;
  }

  ghost function PastPages(s: Dma, start: nat, n: nat): Dma
    requires 0 < n <= s.active.pagesRem
  {
    s.(device := s.device + n * PAGE, host := s.host + n * PAGE, sent := s.sent + n * PAGE, pageLastId := start + n - 1,
       active := s.active.(next := s.active.next + n, pagesRem := s.active.pagesRem - n))
  }

  lemma SendKeeps(s: Dma, start: nat, n: nat)
    requires 0 < n <= s.active.pagesRem && s.active.next + n <= |s.active.pages|
    ensures SendPages(s, start, n).active == PastPages(s, start, n).active
  {
    hide PageDescs, FrameAddr;
  }

  lemma KeepsActive(pt: PageTable, s: Dma, start: nat)
    requires Prepared(s) && s.active.pagesRem > s.handleLast && start == StartId(s.LastId())
    ensures var t := SendPages(s, start, FullCount(s, start));
            PrePin(pt, t).active == t.active && t.pageLastId < TABLE
  {
    hide PageDescs, FrameAddr;
  }

  lemma UnlockDoneActive(s: Dma, region: Pinned)
    ensures UnlockDone(s.(active := region)) == UnlockDone(s).(active := region)
    ensures UnlockDone(s).active == s.active
  {}

  ghost predicate IsPower(size: nat, w: nat)
    decreases w
  {
    if w == 0 then size == 1 else size % 2 == 0 && IsPower(size / 2, w - 1)
  }

  lemma LargestPower()
    ensures IsPower(2048, 11)
  {
    assert IsPower(128, 7);
  }

  lemma HalfPower(size: nat, w: nat)
    requires IsPower(size, w) && w > 1
    ensures size % 2 == 0 && IsPower(size / 2, w - 1) && if w == 2 then size == 4 else size / 2 >= 4
  {
    if w == 2 { assert IsPower(size / 2, 1) && IsPower(size / 2 / 2, 0); } else { PowerPositive(size / 2, w - 1); }
  }

  lemma {:induction false} PowerPositive(size: nat, w: nat)
    requires IsPower(size, w)
    ensures size >= 1 && (w > 0 ==> size >= 2) && (w > 1 ==> size >= 4)
    decreases w
  {
    if w > 0 { PowerPositive(size / 2, w - 1); }
  }

  lemma AtLeast(n: nat, size: nat)
    requires size > 0 && n / size > 0
    ensures n >= size
  {}

  lemma {:induction false} PowerIsPiece(size: nat, w: nat, n: nat)
    requires IsPower(size, w) && size <= n < 2 * size
    ensures Piece(n) == size
    decreases w
  {
    if w > 0 { PowerIsPiece(size / 2, w - 1, n / 2); }
  }
}
