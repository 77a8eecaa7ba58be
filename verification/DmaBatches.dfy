/** How much a batch takes and how much is pinned for it. */
module DmaBatches {
  import opened DmaSpec
  import opened DmaInvariant
  import opened DmaProtocol

  const MOST: nat := LOCKED + TABLE + 1

  // ---------- full batches ----------

  /** A batch of whole pages stops for one of three reasons only: its region is used
      up, less than a page of the transfer is left, or the table is full. The next
      region is pinned with it exactly when this one is used up and bytes remain. */
  ghost predicate FilledBatch(pt: PageTable, s: Dma, t: Dma) {
    |t.log| == |s.log| + 1 &&
    var b := t.log[|s.log|];
    b.descs != [] && (forall i :: 0 <= i < |b.descs| ==> b.descs[i].words == PAGE / 4) &&
    (t.active.pagesRem == 0 || t.Remaining() < PAGE || b.lastId == TABLE - 1) &&
    (t.prePinned.live <==> t.active.pagesRem == 0 && t.Remaining() > 0) &&
    (t.prePinned.live ==> t.prePinned.pagesRem == |t.prePinned.pages| > 0 && Maps(pt, t.prePinned, t.host))
  }

  /** A batch for part of a page is one shorter descriptor and pins nothing. */
  predicate SingleDesc(s: Dma, t: Dma) {
    |t.log| == |s.log| + 1 &&
    var b := t.log[|s.log|];
    |b.descs| == 1 && b.descs[0].words < PAGE / 4 && !t.prePinned.live
  }

  lemma LastPiece(host: nat, left: int, rem: nat, handleLast: nat, n: nat)
    requires Shape(host, left, rem, 0, handleLast) && Whole(host, left, rem, 0, handleLast)
    requires n == rem - handleLast && n < rem
    ensures left - n * PAGE < PAGE
  {}

  lemma SendPagesFilled(pt: PageTable, base: int, s: Dma)
    requires Ready(pt, base, s) && Prepared(s)
    requires Whole(s.host, s.Remaining(), s.active.pagesRem, s.active.firstOffset, s.handleLast)
    ensures var start := StartId(s.LastId());
            start >= 0 &&
            var n := FullCount(s, start); var t := SendPages(s, start, n);
            |t.log| == |s.log| + 1 && t.log[|s.log|].lastId == t.pageLastId == start + n - 1 < TABLE &&
            t.log[|s.log|].descs == PageDescs(s, start, n) && n > 0 && !t.prePinned.live &&
            (t.active.pagesRem == 0 || t.Remaining() < PAGE || t.pageLastId == TABLE - 1)
  {
    hide Maps, PageDescs, Aligned64, Shape;
    var start := StartId(s.LastId());
    var n := FullCount(s, start);
    if n == s.active.pagesRem - s.handleLast && n < s.active.pagesRem {
      LastPiece(s.host, s.Remaining(), s.active.pagesRem, s.handleLast, n);
    }
  }

  lemma PrePinLive(pt: PageTable, s: Dma)
    requires s.pageLastId < TABLE && !s.prePinned.live
    ensures var t := PrePin(pt, s);
            t.log == s.log && t.active == s.active && t.Remaining() == s.Remaining() && t.host == s.host &&
            (t.prePinned.live <==> s.active.pagesRem == 0 && s.Remaining() > 0) &&
            (t.prePinned.live ==> t.prePinned.pagesRem == |t.prePinned.pages| > 0 && Maps(pt, t.prePinned, t.host))
  {
    if s.Remaining() > 0 { LockedRegion(pt, s.host, LockSize(s.Remaining(), s.pageLastId)); }
    hide Maps, LockSize, Lock;
  }

  lemma FullFilled(pt: PageTable, base: int, s: Dma)
    requires Ready(pt, base, s) && Prepared(s)
    requires Whole(s.host, s.Remaining(), s.active.pagesRem, s.active.firstOffset, s.handleLast)
    ensures FilledBatch(pt, s, Full(pt, s).s)
  {
    hide Ready, SendPages, PrePin, Maps;
    SendPagesFilled(pt, base, s);
    var start := StartId(s.LastId());
    PrePinLive(pt, SendPages(s, start, FullCount(s, start)));
  }

  lemma PartialSingle(pt: PageTable, base: int, s: Dma)
    requires Ready(pt, base, s) && Prepared(s)
    requires var size := FirstSize(s); size != 0 && size != PAGE
    ensures SingleDesc(s, Partial(s, FirstSize(s)).s)
  {
    FirstSizeOk(pt, base, s);
    PieceAligned(FirstSize(s));
    hide Maps, Shape, Aligned64, Piece, FirstSize;
  }

  /** Every busy update with bytes left sends one piece of a page, or as many whole
      pages as its region, the transfer and the table allow. */
  lemma UpdateFills(pt: PageTable, base: int, s: Dma)
    requires Busy(pt, base, s) && s.Remaining() > 0
    ensures CanUpdate(pt, s) && (SingleDesc(s, Update(pt, s).s) || FilledBatch(pt, s, Update(pt, s).s))
  {
    PrepareOk(pt, base, s);
    var t := Prepare(pt, s);
    hide Ready, Prepared, Prepare, Partial, Full, Maps;
    var size := FirstSize(t);
    if size != 0 && size != PAGE {
      PartialSingle(pt, base, t);
    } else {
      ReadyWhole(pt, base, t);
      FullFilled(pt, base, t);
    }
  }

  lemma ReadyWhole(pt: PageTable, base: int, s: Dma)
    requires Ready(pt, base, s) && Prepared(s) && (FirstSize(s) == 0 || FirstSize(s) == PAGE)
    ensures Whole(s.host, s.Remaining(), s.active.pagesRem, s.active.firstOffset, s.handleLast)
  {
    WholePages(s.host, s.Remaining(), s.active.pagesRem, s.active.firstOffset, s.handleLast, FirstSize(s));
    hide Maps, Aligned64;
  }

  // ---------- how much is pinned ----------

  /** A pin never takes more than 385 pages, and at least 256 unless it reaches the
      end of the transfer. */
  lemma LockBounds(pt: PageTable, host: nat, remaining: nat, pageLastId: nat)
    requires remaining > 0 && pageLastId < TABLE
    ensures var n := |Lock(pt, host, LockSize(remaining, pageLastId)).pages|;
            n <= MOST && ((host / PAGE + n) * PAGE < host + remaining ==> n >= LOCKED)
  {
    LockedRegion(pt, host, LockSize(remaining, pageLastId));
    hide Lock, Maps;
  }

  /** Of the pages of a new region all are left to be sent, but for the one part
      of a page after more than 256 others, which the next region pins again. */
  lemma PrepareLeaves(pt: PageTable, base: int, s: Dma)
    requires Busy(pt, base, s) && s.Remaining() > 0 && s.active.pagesRem == 0
    ensures var t := Prepare(pt, s);
            var len := LockSize(s.Remaining(), s.pageLastId);
            var n := |t.active.pages|;
            (s.host / PAGE + n - 1) * PAGE < s.host + len <= (s.host / PAGE + n) * PAGE &&
            t.active.pagesRem == if n > LOCKED && s.host + len != (s.host / PAGE + n) * PAGE then n - 1 else n
  {
    LockedRegion(pt, s.host, LockSize(s.Remaining(), s.pageLastId));
    hide Lock, LockSize, Maps, Aligned;
  }

  predicate Bounded(s: Dma) { Held(s.active) <= MOST && Held(s.prePinned) <= MOST }

  lemma PrepareBounded(pt: PageTable, base: int, s: Dma)
    requires Busy(pt, base, s) && s.Remaining() > 0 && Bounded(s)
    ensures Bounded(Prepare(pt, s))
  {
    LockBounds(pt, s.host, s.Remaining(), s.pageLastId);
    hide Lock, LockSize, Maps, Shape, Aligned;
  }

  lemma SendHolds(s: Dma, start: nat, n: nat)
    requires 0 < n <= s.active.pagesRem && s.active.next + n <= |s.active.pages|
    ensures var t := SendPages(s, start, n);
            Held(t.active) == Held(s.active) && t.prePinned == s.prePinned && t.pageLastId == start + n - 1
  {}

  lemma AdvanceHolds(s: Dma, size: nat, n: nat, start: nat)
    requires s.active.next < |s.active.pages| && s.active.pagesRem > 0
    ensures var t := Advance(s, size, n, start); Held(t.active) == Held(s.active) && t.prePinned == s.prePinned
  {}

  lemma PrePinBounded(pt: PageTable, s: Dma)
    requires s.pageLastId < TABLE && Bounded(s)
    ensures Bounded(PrePin(pt, s))
  {
    if s.Remaining() > 0 { LockBounds(pt, s.host, s.Remaining(), s.pageLastId); }
    hide Lock, LockSize;
  }

  lemma PartialBounded(pt: PageTable, base: int, s: Dma)
    requires Ready(pt, base, s) && Prepared(s) && Bounded(s)
    requires var size := FirstSize(s); size != 0 && size != PAGE
    ensures Bounded(Partial(s, FirstSize(s)).s)
  {
    FirstSizeOk(pt, base, s);
    AdvanceHolds(s, FirstSize(s), Piece(FirstSize(s)), StartId(s.LastId()));
    hide Advance, Piece, FirstSize, Prepared, Maps, Shape, Aligned;
  }

  lemma FullBounded(pt: PageTable, base: int, s: Dma)
    requires Ready(pt, base, s) && Prepared(s) && Bounded(s)
    requires Whole(s.host, s.Remaining(), s.active.pagesRem, s.active.firstOffset, s.handleLast)
    ensures Bounded(Full(pt, s).s)
  {
    hide SendPages, PrePin, Maps, Shape, Aligned;
    var start := StartId(s.LastId());
    SendHolds(s, start, FullCount(s, start));
    PrePinBounded(pt, SendPages(s, start, FullCount(s, start)));
  }

  lemma EmitBounded(pt: PageTable, base: int, s: Dma)
    requires Ready(pt, base, s) && Prepared(s) && Bounded(s)
    ensures Bounded(Emit(pt, s).s)
  {
    var size := FirstSize(s);
    hide Ready, Full, Partial, Bounded, FirstSize;
    if size != 0 && size != PAGE {
      PartialBounded(pt, base, s);
    } else {
      ReadyWhole(pt, base, s);
      FullBounded(pt, base, s);
    }
  }

  lemma UpdateBounded(pt: PageTable, base: int, s: Dma)
    requires Busy(pt, base, s) && s.Remaining() > 0 && Bounded(s)
    ensures CanUpdate(pt, s) && Bounded(Update(pt, s).s)
  {
    PrepareOk(pt, base, s);
    PrepareBounded(pt, base, s);
    EmitBounded(pt, base, Prepare(pt, s));
    hide Bounded, Ready, Prepared, Prepare, Emit;
  }

  lemma IdleBounded(base: int, s: Dma)
    requires Idle(base, s)
    ensures Bounded(s)
  {}

  lemma StartBounded(base: int, s: Dma, step: Step)
    requires Idle(base, s) && step.Start?
    ensures Bounded(DmaSpec.Start(s, step.host, step.device, step.bytes, step.reading))
  {}

  lemma WorkBounded(pt: PageTable, base: int, s: Sys, again: bool)
    requires Inv(pt, base, s) && Enabled(s, Work(again)) && CanUpdate(pt, s.dma) && Bounded(s.dma) && !s.dma.idle
    ensures Bounded(Apply(pt, s, Work(again)).dma)
  {
    if s.dma.Remaining() > 0 {
      UpdateBounded(pt, base, s.dma);
    } else {
      BusyFacts(pt, base, s.dma);
      WorkCompletes(pt, base, s, again);
      IdleBounded(base, Apply(pt, s, Work(again)).dma);
    }
    hide Busy, Idle, Update, CanUpdate, Bounded, Counts;
  }

  lemma StepBounded(pt: PageTable, base: int, s: Sys, step: Step, t: Sys)
    requires Inv(pt, base, s) && Next(pt, s, step, t) && Bounded(s.dma)
    ensures Bounded(t.dma)
  {
    hide Busy, Idle, Update, CanUpdate, Bounded, Counts;
    if step.Start? {
      StartBounded(base, s.dma, step);
    } else if step.Work? && !s.dma.idle {
      WorkBounded(pt, base, s, step.again);
    }
  }

  lemma InitBounded(base: int, s: Sys)
    requires Init(base, s)
    ensures Bounded(s.dma)
  {}

  lemma {:induction false} RunBounded(pt: PageTable, base: int, states: seq<Sys>, steps: seq<Step>, n: nat)
    requires Run(pt, states, steps) && Init(base, states[0]) && n < |states|
    ensures Bounded(states[n].dma)
    decreases n
  {
    hide Inv, Next, Init, Bounded;
    if n > 0 {
      RunBounded(pt, base, states, steps, n - 1);
      RunInv(pt, base, states, steps, n - 1);
      StepBounded(pt, base, states[n - 1], steps[n - 1], states[n]);
    } else {
      InitBounded(base, states[0]);
    }
  }

  lemma BoundedPins(pt: PageTable, base: int, s: Sys)
    requires Inv(pt, base, s) && Bounded(s.dma)
    ensures base <= s.dma.lockedPages <= base + 2 * MOST
  {
    hide Aligned, IdsOk, RegionOk;
  }

  /** Over every run no more than 770 pages are locked at a time on top of what was
      locked before, no more than 385 for one region. */
  lemma LockedBounded(pt: PageTable, base: int, states: seq<Sys>, steps: seq<Step>, n: nat)
    requires Run(pt, states, steps) && Init(base, states[0]) && n < |states|
    ensures Bounded(states[n].dma) && base <= states[n].dma.lockedPages <= base + 2 * MOST
  {
    hide Inv, Next, Init, Bounded, Run;
    RunInv(pt, base, states, steps, n);
    RunBounded(pt, base, states, steps, n);
    BoundedPins(pt, base, states[n]);
  }
}
