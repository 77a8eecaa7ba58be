/** Pinned pages over whole runs: nothing is unpinned while the controller may
    still use it, and nothing stays pinned when the engine is idle. */
module DmaPins {
  import opened DmaSpec
  import opened DmaInvariant
  import DmaTransfer
  import opened DmaProtocol

  /** The descriptor stays inside one page of the region. */
  predicate InRegion(pages: seq<nat>, reading: bool, d: Desc) {
    exists j :: 0 <= j < |pages| &&
      FrameAddr(pages[j]) <= HostSide(reading, d) && HostSide(reading, d) + 4 * d.words <= FrameAddr(pages[j]) + PAGE
  }

  /** All user memory of the latest batch belongs to the active region, which is
      pinned. */
  predicate BatchPinned(s: Dma) {
    s.active.live && s.log != [] &&
    var b := s.log[|s.log| - 1];
    forall i :: 0 <= i < |b.descs| ==> InRegion(s.active.pages, b.reading, b.descs[i])
  }

  lemma AdvancePinned(s: Dma, size: nat, n: nat, start: nat)
    requires Prepared(s) && s.active.live && s.active.firstOffset + n <= PAGE
    ensures BatchPinned(Advance(s, size, n, start))
  {
    var t := Advance(s, size, n, start);
    var b := t.log[|t.log| - 1];
    var at := FrameAddr(s.active.pages[s.active.next]) + s.active.firstOffset;
    assert b.descs == [MakeDesc(s.reading, at, s.device, n / 4, start)];
    assert t.active.pages[s.active.next] == s.active.pages[s.active.next];
  }

  lemma PagesPinned(s: Dma, start: nat, n: nat)
    requires Prepared(s) && s.active.live && 0 < n <= s.active.pagesRem
    ensures BatchPinned(SendPages(s, start, n)) && SendPages(s, start, n).pageLastId == start + n - 1
  {
    var t := SendPages(s, start, n);
    var b := t.log[|t.log| - 1];
    assert b.descs == PageDescs(s, start, n) && t.active.pages == s.active.pages;
    forall i | 0 <= i < |b.descs| ensures InRegion(t.active.pages, b.reading, b.descs[i]) {
      assert b.descs[i] == PageDesc(s, start, i);
      assert FrameAddr(t.active.pages[s.active.next + i]) == HostSide(b.reading, b.descs[i]);
    }
  }

  lemma PrePinKeeps(pt: PageTable, s: Dma)
    requires s.pageLastId < TABLE && BatchPinned(s)
    ensures BatchPinned(PrePin(pt, s))
  {
    var t := PrePin(pt, s);
    hide InRegion;
    assert t.active == s.active && t.log == s.log;
    var b := s.log[|s.log| - 1];
    forall i | 0 <= i < |b.descs| ensures InRegion(t.active.pages, b.reading, b.descs[i]) {
      assert InRegion(s.active.pages, b.reading, b.descs[i]);
    }
  }

  lemma EmitPinned(pt: PageTable, base: int, s: Dma)
    requires Ready(pt, base, s) && Prepared(s)
    ensures BatchPinned(Emit(pt, s).s)
  {
    hide BatchPinned, Advance, SendPages, PrePin, Maps, Shape, Piece;
    var size := FirstSize(s);
    if size != 0 && size != PAGE {
      FirstSizeOk(pt, base, s);
      AdvancePinned(s, size, Piece(size), StartId(s.LastId()));
      PieceAligned(size);
    } else {
      WholePages(s.host, s.Remaining(), s.active.pagesRem, s.active.firstOffset, s.handleLast, size);
      var start := StartId(s.LastId());
      var n := FullCount(s, start);
      PagesPinned(s, start, n);
      PrePinKeeps(pt, SendPages(s, start, n));
    }
  }

  lemma UpdatePinned(pt: PageTable, base: int, s: Dma)
    requires Busy(pt, base, s) && s.Remaining() > 0
    ensures CanUpdate(pt, s) && BatchPinned(Update(pt, s).s)
  {
    PrepareOk(pt, base, s);
    hide BatchPinned, Ready, Prepared, Prepare, Emit;
    EmitPinned(pt, base, Prepare(pt, s));
  }

  lemma StepPinned(pt: PageTable, base: int, s: Sys, step: Step, t: Sys)
    requires Inv(pt, base, s) && Next(pt, s, step, t) && (s.outstanding ==> BatchPinned(s.dma))
    ensures t.outstanding ==> BatchPinned(t.dma)
  {
    if step.Work? && !s.dma.idle && s.dma.Remaining() > 0 {
      UpdatePinned(pt, base, s.dma);
    }
    hide BatchPinned, Busy, Idle, DmaTransfer.Since, DmaTransfer.IdsInOrder;
    if step.Work? && !s.dma.idle && s.dma.Remaining() <= 0 { WorkCompletes(pt, base, s, step.again); }
  }

  lemma {:induction false} RunPinned(pt: PageTable, base: int, states: seq<Sys>, steps: seq<Step>, n: nat)
    requires Run(pt, states, steps) && Init(base, states[0]) && n < |states|
    ensures states[n].outstanding ==> BatchPinned(states[n].dma)
    decreases n
  {
    hide Inv, Next, BatchPinned;
    if n > 0 {
      RunPinned(pt, base, states, steps, n - 1);
      RunInv(pt, base, states, steps, n - 1);
      StepPinned(pt, base, states[n - 1], steps[n - 1], states[n]);
    }
  }

  /** Over every run with successful pins: the batch the controller works on only
      touches pages that are still pinned; between updates no done region is
      held, a pre-pinned region exists only while the active one is exhausted and
      bytes remain, and the lock counter is its starting value plus exactly the
      pages held; idle, it is back at the starting value. */
  lemma PinsOverRuns(pt: PageTable, base: int, states: seq<Sys>, steps: seq<Step>, n: nat)
    requires Run(pt, states, steps) && Init(base, states[0]) && n < |states|
    ensures var s := states[n];
            (s.outstanding ==> BatchPinned(s.dma)) && !s.dma.done.live &&
            (s.dma.prePinned.live ==> !s.dma.idle && s.dma.active.pagesRem == 0 && s.dma.Remaining() > 0) &&
            s.dma.lockedPages == base + Held(s.dma.active) + Held(s.dma.prePinned) &&
            (s.dma.idle ==> s.dma.lockedPages == base)
  {
    RunPinned(pt, base, states, steps, n);
    RunInv(pt, base, states, steps, n);
    hide BatchPinned, DmaTransfer.Since, DmaTransfer.IdsInOrder, RegionOk, Lock, LockSize;
  }
}
