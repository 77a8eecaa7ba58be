/** Whole transfers: from the request to the idle engine. */
module DmaTransfer {
  import opened DmaSpec
  import opened DmaInvariant

  function AllDescs(bs: seq<Batch>): seq<Desc> { if bs == [] then [] else AllDescs(bs[..|bs|-1]) + bs[|bs|-1].descs }

  /** The batches sent since the request `first` was recorded move its first
      t.sent bytes, in order and without gap or overlap. */
  ghost predicate Since(pt: PageTable, first: Dma, t: Dma) {
    |first.log| <= |t.log| && t.log[..|first.log|] == first.log &&
    var bs := t.log[|first.log|..];
    t.bytes == first.bytes && t.reading == first.reading &&
    t.host == first.host + t.sent && t.device == first.device + t.sent &&
    Total(AllDescs(bs)) == t.sent && Tiles(pt, t.reading, AllDescs(bs), first.host, first.device) &&
    forall i :: 0 <= i < |bs| ==> bs[i].reading == t.reading
  }

  lemma AllDescsSnoc(bs: seq<Batch>, b: Batch)
    ensures AllDescs(bs + [b]) == AllDescs(bs) + b.descs
  {}

  lemma LogSnoc(log: seq<Batch>, log': seq<Batch>, n: nat)
    requires n <= |log| && |log'| == |log| + 1 && log'[..|log|] == log
    ensures log'[n..] == log[n..] + [log'[|log|]] && log'[..n] == log[..n]
  {}

  lemma SinceStep(pt: PageTable, first: Dma, s: Dma, t: Dma, k: nat)
    requires Since(pt, first, s) && Sent(pt, s, t, k)
    ensures Since(pt, first, t)
  {
    hide Total, Tiles, AllDescs, IdsFrom;
    var bs, b := s.log[|first.log|..], t.log[|s.log|];
    LogSnoc(s.log, t.log, |first.log|);
    AllDescsSnoc(bs, b);
    TotalAppend(AllDescs(bs), b.descs);
    TilesAppend(pt, s.reading, AllDescs(bs), b.descs, first.host, first.device);
  }

  /** A request the driver hands to the engine. */
  predicate Request(host: nat, device: nat, bytes: nat) {
    Aligned64(host) && Aligned64(device) && Aligned64(bytes) && bytes > 0
  }

  lemma StartOk(pt: PageTable, base: int, s: Dma, host: nat, device: nat, bytes: nat, reading: bool)
    requires Idle(base, s) && Request(host, device, bytes)
    ensures var t := Start(s, host, device, bytes, reading);
            Busy(pt, base, t) && Since(pt, t, t) &&
            t.log == s.log && t.hwRdLast == s.hwRdLast && t.hwWrLast == s.hwWrLast && t.pageLastId == TABLE - 1
  {
    var t := Start(s, host, device, bytes, reading);
    assert t.log[|t.log|..] == [];
  }

  lemma CompleteOk(pt: PageTable, base: int, s: Dma)
    requires Busy(pt, base, s) && s.Remaining() == 0
    ensures var t := Update(pt, s).s;
            Idle(base, t) && t.log == s.log && t.hwRdLast == s.hwRdLast && t.hwWrLast == s.hwWrLast &&
            t.rdLastId == t.wrLastId == RESET_ID && Update(pt, s).code == Did
  {}

  /** After an error nothing stays pinned, and the lock counter is back. */
  lemma UnlockAllOk(s: Dma)
    ensures var t := UnlockAll(s);
            Held(t.active) == Held(t.prePinned) == Held(t.done) == 0 && t.log == s.log &&
            t.lockedPages == s.lockedPages - Held(s.active) - Held(s.prePinned) - Held(s.done)
  {}

  // ---------- partial pages ----------

  function Bits(n: nat): nat { if n == 0 then 0 else n % 2 + Bits(n / 2) }

  lemma BitsDouble(m: nat, b: nat)
    requires b < 2
    ensures Bits(2 * m + b) == Bits(m) + b
  {}

  lemma PieceDouble(m: nat, b: nat)
    requires b < 2 && m > 0
    ensures Piece(2 * m + b) == 2 * Piece(m)
  {}

  lemma BitsOne()
    ensures Bits(0) == 0 && Bits(1) == 1 && Piece(1) == 1
  {}

  lemma {:induction false} BitsPiece(n: nat)
    requires n > 0
    ensures Bits(Piece(n)) == 1 && Bits(n - Piece(n)) == Bits(n) - 1
  {
    hide *;
    if n == 1 {
      BitsOne();
    } else {
      var m, b := n / 2, n % 2;
      BitsPiece(m);
      BitsPieceTwice(m, b);
      assert n == 2 * m + b;
    }
  }

  lemma BitsPieceTwice(m: nat, b: nat)
    requires b < 2 && m > 0 && Bits(Piece(m)) == 1 && Bits(m - Piece(m)) == Bits(m) - 1
    ensures var n := 2 * m + b; Bits(Piece(n)) == 1 && Bits(n - Piece(n)) == Bits(n) - 1
  {
    hide Bits, Piece;
    var p := Piece(m);
    PieceDouble(m, b);
    BitsDouble(p, 0);
    BitsDouble(m, b);
    BitsDouble(m - p, b);
    assert 2 * m + b - 2 * p == 2 * (m - p) + b;
  }

  ghost predicate Next(pt: PageTable, s: Dma, t: Dma) { CanUpdate(pt, s) && t == Update(pt, s).s }

  /** t is s after one batch of a single power-of-two descriptor. */
  ghost predicate OnePiece(s: Dma, t: Dma) {
    |t.log| == |s.log| + 1 && t.log[..|s.log|] == s.log && |t.log[|s.log|].descs| == 1 &&
    Bits(4 * t.log[|s.log|].descs[0].words) == 1
  }

  /** Cutting the bytes left to 32 bits matters exactly here: on the last page of
      a region a whole page is due, yet the driver sends it as a partial one. The
      transfer stays correct (UpdateSends), it only takes more batches. */
  lemma CutExact(s: Dma)
    requires Prepared(s) && s.active.pagesRem == 1 && s.Remaining() >= PAGE
    ensures FirstSize(s) != 0 && FirstSize(s) != PAGE <==> 0 < s.Remaining() % UINT < PAGE
    ensures s.Remaining() < UINT ==> FirstSize(s) == PAGE
  {}

  /** The next update finds a partial page of which `size` bytes are due. */
  ghost predicate PartialDue(pt: PageTable, base: int, s: Dma, size: nat) {
    Busy(pt, base, s) && s.Remaining() > 0 && Prepared(Prepare(pt, s)) &&
    size == FirstSize(Prepare(pt, s)) && size != 0 && size != PAGE
  }

  lemma AdvanceDue(pt: PageTable, base: int, u: Dma, size: nat, n: nat, start: nat)
    requires Prepared(u) && u.active.live && size == FirstSize(u) < PAGE && size <= u.Remaining()
    requires u.active.firstOffset + size <= PAGE && 0 < n < size && Busy(pt, base, Advance(u, size, n, start))
    ensures PartialDue(pt, base, Advance(u, size, n, start), size - n)
  {
    hide Busy;
    var t := Advance(u, size, n, start);
    assert t.active.live && t.active.pagesRem == u.active.pagesRem && t.Remaining() == u.Remaining() - n;
    if u.active.pagesRem == 1 { CutSize(u.Remaining(), n); }
  }

  lemma OnePieceFrom(s: Dma, u: Dma, t: Dma, n: nat)
    requires SamePoint(s, u) && OnePiece(u, t) && t.sent == u.sent + n
    ensures OnePiece(s, t) && t.sent == s.sent + n
  {}

  lemma AdvanceOne(u: Dma, size: nat, n: nat, start: nat)
    requires Prepared(u) && 4 * (n / 4) == n && Bits(n) == 1
    ensures var t := Advance(u, size, n, start);
            OnePiece(u, t) && t.sent == u.sent + n
  {
    hide Bits, StartId;
    var t := Advance(u, size, n, start);
    assert t.log == u.log + [t.log[|u.log|]];
  }

  lemma PartialNext(pt: PageTable, base: int, s: Dma, size: nat)
    requires PartialDue(pt, base, s, size)
    ensures var u := Prepare(pt, s);
            Ready(pt, base, u) && Prepared(u) && SamePoint(s, u) &&
            u.active.live && size == FirstSize(u) && 64 <= size < PAGE && Aligned64(size) &&
            size <= u.Remaining() && u.active.firstOffset + size <= PAGE &&
            Next(pt, s, Advance(u, size, Piece(size), StartId(u.LastId())))
  {
    PrepareOk(pt, base, s);
    FirstSizeOk(pt, base, Prepare(pt, s));
    hide Piece, Maps, Shape, Prepare, Advance, FirstSize, Prepared;
  }

  lemma StartValid(pt: PageTable, base: int, u: Dma)
    requires Ready(pt, base, u)
    ensures StartId(u.LastId()) >= 0
  {
    hide RegionOk, Aligned, Held;
  }

  lemma PieceStep(pt: PageTable, base: int, u: Dma, size: nat) returns (t: Dma)
    requires Ready(pt, base, u) && Prepared(u) && StartId(u.LastId()) >= 0 && u.active.live && size == FirstSize(u)
    requires 64 <= size < PAGE && Aligned64(size) && size <= u.Remaining() && u.active.firstOffset + size <= PAGE
    ensures t == Advance(u, size, Piece(size), StartId(u.LastId())) && OnePiece(u, t) && t.sent == u.sent + Piece(size)
    ensures Piece(size) < size ==> PartialDue(pt, base, t, size - Piece(size))
  {
    var n, start := Piece(size), StartId(u.LastId());
    t := Advance(u, size, n, start);
    hide PartialDue, Busy, Ready, Piece, Bits, FirstSize, Advance, OnePiece, Aligned64, StartId;
    PieceAligned(size);
    BitsPiece(size);
    Words(n);
    AdvanceOne(u, size, n, start);
    AdvanceBusy(pt, base, u, size, n, start);
    if n < size { AdvanceDue(pt, base, u, size, n, start); }
  }

  lemma PartialStep(pt: PageTable, base: int, s: Dma, size: nat) returns (t: Dma)
    requires PartialDue(pt, base, s, size)
    ensures Next(pt, s, t) && OnePiece(s, t) && t.sent == s.sent + Piece(size)
    ensures Piece(size) < size ==> PartialDue(pt, base, t, size - Piece(size))
  {
    PartialNext(pt, base, s, size);
    hide *;
    var u := Prepare(pt, s);
    StartValid(pt, base, u);
    t := PieceStep(pt, base, u, size);
    OnePieceFrom(s, u, t, Piece(size));
  }

  /** k updates lead from s to t, each sending one power-of-two descriptor. */
  ghost predicate Pieces(pt: PageTable, s: Dma, t: Dma, k: nat)
    decreases k
  {
    if k == 0 then s == t else exists u :: Next(pt, s, u) && OnePiece(s, u) && Pieces(pt, u, t, k - 1)
  }

  /** A partial page of `size` bytes takes exactly one batch per one-bit of
      size, each a single power-of-two descriptor. */
  lemma {:induction false} PartialRun(pt: PageTable, base: int, s: Dma, size: nat) returns (t: Dma)
    requires PartialDue(pt, base, s, size) && size > 0
    ensures Pieces(pt, s, t, Bits(size)) && t.sent == s.sent + size
    decreases size
  {
    var u := PartialStep(pt, base, s, size);
    BitsPiece(size);
    var n := Piece(size);
    if n == size {
      t := u;
    } else {
      t := PartialRun(pt, base, u, size - n);
    }
    hide PartialDue, OnePiece, Next, Bits, Piece;
    assert Pieces(pt, u, t, Bits(size) - 1);
  }

  // ---------- descriptor ids ----------

  /** The ids of one direction, in the order they were handed over. */
  function Ids(ds: seq<Desc>): seq<nat> { seq(|ds|, i requires 0 <= i < |ds| => ds[i].id) }

  function IdLog(log: seq<Batch>, reading: bool): seq<nat> {
    if log == [] then []
    else
      var b := log[|log|-1];
      IdLog(log[..|log|-1], reading) + if b.reading == reading then Ids(b.descs) else []
  }

  /** One after the other, modulo the table size, up to the last one used. */
  predicate Consecutive(ids: seq<nat>, last: nat) {
    (forall i :: 0 <= i < |ids| ==> ids[i] < TABLE) &&
    (forall i, j :: 0 <= i < |ids| && j == i + 1 < |ids| ==> ids[j] == (ids[i] + 1) % TABLE) &&
    (ids != [] ==> ids[|ids|-1] == last)
  }

  /** Over any number of transfers in both directions each direction uses its
      ids in order, starting over after 127; the controller's LAST_PTR register
      holds the last one. */
  ghost predicate IdsInOrder(s: Dma) {
    Consecutive(IdLog(s.log, false), s.hwRdLast) && Consecutive(IdLog(s.log, true), s.hwWrLast)
  }

  lemma ConsecutiveAppend(ids: seq<nat>, last: nat, b: Batch)
    requires Consecutive(ids, last) && IdsFrom(b, last) && (ids != [] ==> last < TABLE)
    ensures Consecutive(ids + Ids(b.descs), b.lastId)
  {
    var all, n := ids + Ids(b.descs), |ids|;
    var start := StartId(last);
    forall i, j | 0 <= i < |all| && j == i + 1 < |all| ensures all[j] == (all[i] + 1) % TABLE {
      if j == n {
        assert all[i] == last && all[j] == start;
      } else if j > n {
        assert all[i] == start + (i - n) && all[j] == start + (j - n);
      }
    }
  }

  lemma IdsStep(pt: PageTable, base: int, s: Dma, t: Dma, k: nat)
    requires Busy(pt, base, s) && Busy(pt, base, t) && Sent(pt, s, t, k) && IdsInOrder(s)
    ensures IdsInOrder(t)
  {
    hide Tiles, Total, IdsFrom, Aligned, RegionOk, Pins, LockSize, Lock, Consecutive, Ids;
    var b := t.log[|s.log|];
    assert t.log[..|t.log| - 1] == s.log;
    var last := if s.reading then s.hwWrLast else s.hwRdLast;
    LastSmall(IdLog(s.log, s.reading), last);
    ConsecutiveAppend(IdLog(s.log, s.reading), last, b);
    assert IdLog(t.log, s.reading) == IdLog(s.log, s.reading) + Ids(b.descs);
    assert IdLog(t.log, !s.reading) == IdLog(s.log, !s.reading);
  }

  lemma LastSmall(ids: seq<nat>, last: nat)
    requires Consecutive(ids, last)
    ensures ids != [] ==> last < TABLE
  {}
}
