/** A request on which the driver meets its 32-bit cut of the bytes left. */
module DmaCut {
  import opened DmaSpec
  import opened DmaInvariant
  import opened DmaTransfer

  const CUT_BYTES: nat := 255 * PAGE + UINT + 2048

  /** An engine with nothing but `left` bytes of a page-aligned write to send. */
  predicate Writing(s: Dma, lastId: nat, rem: nat, left: int) {
    !s.idle && !s.reading && s.rdLastId == lastId && s.handleLast == 0 && s.pageLastId == TABLE - 1 &&
    s.active.live && s.active.pagesRem == rem && s.active.firstOffset == 0 && s.active.next + rem == |s.active.pages| &&
    s.Remaining() == left
  }

  lemma LockWhole(pt: PageTable, host: nat)
    requires host % PAGE == 0
    ensures var p := Lock(pt, host, LOCKED * PAGE);
            p.pagesRem == |p.pages| == LOCKED && p.firstOffset == p.lastOffset == 0 && p.next == 0 && p.live
  {
    var q := host / PAGE;
    PageOf(q + LOCKED, 0);
    PageOf(q + LOCKED - 1, PAGE - 1);
    assert host == q * PAGE && host + LOCKED * PAGE == (q + LOCKED) * PAGE;
    assert host + LOCKED * PAGE - 1 == (q + LOCKED - 1) * PAGE + (PAGE - 1);
  }

  lemma FirstPin(pt: PageTable, base: int, s: Dma, host: nat, device: nat)
    requires Idle(base, s) && s.hwRdLast == 0 && host % PAGE == 0
    ensures var t := Start(s, host, device, CUT_BYTES, false);
            t.Remaining() > 0 && Writing(Prepare(pt, t), 0, LOCKED, CUT_BYTES) && !t.idle
  {
    LockWhole(pt, host);
    hide Lock;
  }

  /** A full table of whole pages from a region that keeps some. */
  lemma FullTable(pt: PageTable, s: Dma, lastId: nat, rem: nat, left: int)
    requires Writing(s, lastId, rem, left) && (lastId == 0 || lastId == TABLE - 1)
    requires var n := TABLE - StartId(lastId); rem > n && rem > 1 && left > n * PAGE
    ensures var n := TABLE - StartId(lastId);
            Prepared(s) && Writing(Emit(pt, s).s, TABLE - 1, rem - n, left - n * PAGE)
  {
    hide PageDescs, FrameAddr;
  }

  /** From an idle engine whose last read id is 0, the write of CUT_BYTES bytes
      from a page boundary comes, after two full tables, to the last page of its
      region with more than 4 GiB left: a whole page is due, and the driver sends
      2048 bytes of it first. */
  lemma CutReached(pt: PageTable, base: int, s: Dma, host: nat, device: nat) returns (u: Dma)
    requires Idle(base, s) && s.hwRdLast == 0 && host % PAGE == 0 && Aligned64(device)
    ensures Request(host, device, CUT_BYTES)
    ensures var s0 := Start(s, host, device, CUT_BYTES, false);
            CanUpdate(pt, s0) && CanUpdate(pt, Update(pt, s0).s) && u == Update(pt, Update(pt, s0).s).s
    ensures Prepared(u) && u.active.pagesRem == 1 && u.Remaining() == UINT + 2048 && FirstSize(u) == 2048
  {
    PageHost(host);
    FirstPin(pt, base, s, host, device);
    var s0 := Start(s, host, device, CUT_BYTES, false);
    var p := Prepare(pt, s0);
    FullTable(pt, p, 0, LOCKED, CUT_BYTES);
    var s1 := Emit(pt, p).s;
    FullTable(pt, s1, TABLE - 1, LOCKED - 127, CUT_BYTES - 127 * PAGE);
    u := Emit(pt, s1).s;
    hide Emit, Lock;
  }

  lemma PageHost(host: nat)
    requires host % PAGE == 0
    ensures Aligned64(host) && Aligned64(CUT_BYTES)
  {
    var q := host / PAGE;
    assert host == 64 * (64 * q);
  }
}
