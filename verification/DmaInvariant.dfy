/** What every call of Update keeps, and what one call sends. */
module DmaInvariant {
  import opened DmaSpec

  // ---------- descriptors against addresses ----------

  /** Physical address of a user address. */
  function Phys(pt: PageTable, address: nat): nat { FrameAddr(pt(address / PAGE)) + address % PAGE }

  function HostSide(reading: bool, d: Desc): nat { if reading then d.dest else d.src }

  function DeviceSide(reading: bool, d: Desc): nat { if reading then d.src else d.dest }

  function Total(ds: seq<Desc>): nat { if ds == [] then 0 else 4 * ds[0].words + Total(ds[1..]) }

  /** The descriptor moves the bytes from user address `host` and device address
      `device` on, equal offsets to each other, inside one physical page. */
  ghost predicate Tile(pt: PageTable, reading: bool, d: Desc, host: nat, device: nat) {
    d.words > 0 && host % PAGE + 4 * d.words <= PAGE &&
    HostSide(reading, d) == Phys(pt, host) && DeviceSide(reading, d) == device
  }

  /** The descriptors cover both ranges in order, without gap or overlap. */
  ghost predicate Tiles(pt: PageTable, reading: bool, ds: seq<Desc>, host: nat, device: nat) {
    ds != [] ==>
      Tile(pt, reading, ds[0], host, device) &&
      Tiles(pt, reading, ds[1..], host + 4 * ds[0].words, device + 4 * ds[0].words)
  }

  lemma TilesOne(pt: PageTable, reading: bool, d: Desc, host: nat, device: nat)
    requires Tile(pt, reading, d, host, device)
    ensures Tiles(pt, reading, [d], host, device) && Total([d]) == 4 * d.words
  {}

  lemma {:induction false} TotalAppend(a: seq<Desc>, b: seq<Desc>)
    ensures Total(a + b) == Total(a) + Total(b)
  {
    if a == [] {
      assert a + b == b;
    } else {
      assert (a + b)[1..] == a[1..] + b;
      TotalAppend(a[1..], b);
    }
  }

  lemma {:induction false} TilesAppend(pt: PageTable, reading: bool, a: seq<Desc>, b: seq<Desc>, host: nat, device: nat)
    requires Tiles(pt, reading, a, host, device)
    requires Tiles(pt, reading, b, host + Total(a), device + Total(a))
    ensures Tiles(pt, reading, a + b, host, device)
  {
    hide Tile;
    if a == [] {
      assert a + b == b;
    } else {
      assert (a + b)[1..] == a[1..] + b;
      var n := 4 * a[0].words;
      TilesAppend(pt, reading, a[1..], b, host + n, device + n);
    }
  }

  lemma TilesSnoc(pt: PageTable, reading: bool, init: seq<Desc>, d: Desc, host: nat, device: nat, n: nat)
    requires Tiles(pt, reading, init, host, device) && n == Total(init)
    requires Tile(pt, reading, d, host + n, device + n)
    ensures Tiles(pt, reading, init + [d], host, device) && Total(init + [d]) == n + 4 * d.words
  {
    TilesOne(pt, reading, d, host + n, device + n);
    TotalAppend(init, [d]);
    TilesAppend(pt, reading, init, [d], host, device);
  }

  // ---------- the invariant ----------

  function Held(p: Pinned): nat { if p.live then |p.pages| else 0 }

  /** The pages still to be sent are the physical pages of the user range from
      `host`. */
  ghost predicate Maps(pt: PageTable, p: Pinned, host: nat) {
    p.next + p.pagesRem <= |p.pages| &&
    forall j :: p.next <= j < p.next + p.pagesRem ==> p.pages[j] == pt(host / PAGE + j - p.next)
  }

  /** Where a region with `rem` pages left stands: it ends inside its last page
      together with the transfer (handleLast), or at a page boundary not beyond
      the transfer. A single page entered in the middle is either the end of the
      transfer or the page cut short by the 32-bit first_size. */
  predicate Shape(host: nat, left: int, rem: nat, offset: nat, handleLast: nat) {
    var end := (host / PAGE + rem) * PAGE;
    left > 0 && offset == host % PAGE && handleLast <= 1 &&
    (handleLast == 1 ==> end - PAGE < host + left < end) &&
    (handleLast == 0 ==> end <= host + left) &&
    (handleLast == 0 && rem == 1 && offset != 0 && end != host + left ==>
       left % UINT > 0 && offset + left % UINT < PAGE)
  }

  ghost predicate RegionOk(pt: PageTable, s: Dma) {
    s.active.live && Maps(pt, s.active, s.host) &&
    Shape(s.host, s.Remaining(), s.active.pagesRem, s.active.firstOffset, s.handleLast)
  }

  predicate Aligned64(n: int) { n % 64 == 0 }

  ghost predicate Aligned(s: Dma) {
    Aligned64(s.host) && Aligned64(s.device) && Aligned64(s.bytes) && Aligned64(s.sent)
  }

  predicate IdsOk(s: Dma) {
    ValidId(s.rdLastId) && ValidId(s.wrLastId) && ValidId(s.hwRdLast) && ValidId(s.hwWrLast) && s.pageLastId < TABLE
  }

  /** Pages held by live regions, on top of what was locked before. */
  ghost predicate Pins(base: int, s: Dma) {
    s.lockedPages == base + Held(s.active) + Held(s.prePinned)
  }

  /** The state between two updates of a running transfer. */
  ghost predicate Busy(pt: PageTable, base: int, s: Dma) {
    !s.idle && s.sent <= s.bytes && Aligned(s) && IdsOk(s) && Pins(base, s) && !s.done.live &&
    s.LastId() == (if s.reading then s.hwWrLast else s.hwRdLast) &&
    (s.active.pagesRem > 0 ==> RegionOk(pt, s)) &&
    (!s.active.live ==> s.sent == 0 && s.bytes > 0 && s.active.pagesRem == 0) &&
    (s.prePinned.live ==>
       s.active.live && s.active.pagesRem == 0 && s.Remaining() > 0 &&
       s.prePinned == Lock(pt, s.host, LockSize(s.Remaining(), s.pageLastId)))
  }

  /** The state between transfers: nothing pinned. */
  ghost predicate Idle(base: int, s: Dma) {
    s.idle && IdsOk(s) && s.lockedPages == base &&
    !s.active.live && s.active.pagesRem == 0 && !s.prePinned.live && !s.done.live
  }

  /** The state in the middle of an update, once a region with pages left is
      active; the done region is still held. */
  ghost predicate Ready(pt: PageTable, base: int, s: Dma) {
    !s.idle && s.sent <= s.bytes && Aligned(s) && IdsOk(s) && !s.prePinned.live &&
    s.LastId() == (if s.reading then s.hwWrLast else s.hwRdLast) &&
    s.lockedPages == base + Held(s.active) + Held(s.done) &&
    s.active.pagesRem > 0 && RegionOk(pt, s)
  }

  lemma LockedRegion(pt: PageTable, host: nat, len: nat)
    requires len > 0
    ensures var p := Lock(pt, host, len);
            Maps(pt, p, host) && p.pagesRem == |p.pages| > 0 &&
            (host / PAGE + p.pagesRem - 1) * PAGE < host + len <= (host / PAGE + p.pagesRem) * PAGE &&
            (p.lastOffset == 0 <==> host + len == (host / PAGE + p.pagesRem) * PAGE)
  {}

  /** Repin with the region taken from the pre-pinned slot or pinned now, before
      a partial last page is given up. */
  lemma TailOk(pt: PageTable, s: Dma, len: nat, handleLast: nat, rem: nat)
    requires s.Remaining() > 0 && s.pageLastId < TABLE && Aligned(s)
    requires len == LockSize(s.Remaining(), s.pageLastId)
    requires s.active == Lock(pt, s.host, len).(pagesRem := rem) && s.handleLast == handleLast
    requires var p := Lock(pt, s.host, len);
             var tail := p.lastOffset != 0;
             if p.pagesRem > LOCKED && tail
             then rem == p.pagesRem - 1 && handleLast == 0
             else rem == p.pagesRem && handleLast == if tail then 1 else 0
    ensures rem > 0 && RegionOk(pt, s) && Prepared(s)
  {
    LockedRegion(pt, s.host, len);
  }

  lemma RegionPrepared(pt: PageTable, s: Dma)
    requires RegionOk(pt, s) && s.active.pagesRem > 0
    ensures Prepared(s)
  {}

  /** s and t stand at the same point of the same request. */
  predicate SamePoint(s: Dma, t: Dma) {
    t.log == s.log && t.bytes == s.bytes && t.sent == s.sent && t.host == s.host && t.device == s.device &&
    t.reading == s.reading && t.LastId() == s.LastId() && t.hwRdLast == s.hwRdLast && t.hwWrLast == s.hwWrLast
  }

  lemma PrepareOk(pt: PageTable, base: int, s: Dma)
    requires Busy(pt, base, s) && s.Remaining() > 0
    ensures var t := Prepare(pt, s);
            Ready(pt, base, t) && Prepared(t) && SamePoint(s, t)
  {
    hide Maps, Shape, LockSize, RegionOk, Prepared;
    if s.active.pagesRem == 0 {
      var t := Prepare(pt, s);
      var len := LockSize(s.Remaining(), s.pageLastId);
      LockedRegion(pt, s.host, len);
      TailOk(pt, t, len, t.handleLast, t.active.pagesRem);
    } else {
      RegionPrepared(pt, s);
    }
  }

  // ---------- one batch ----------

  /** The batch b sent by s: the next ids of its direction, no wrap inside the
      table, one descriptor per slot. */
  predicate IdsFrom(b: Batch, lastId: nat) {
    var start := StartId(lastId);
    b.descs != [] && start >= 0 && b.lastId == start + |b.descs| - 1 < TABLE &&
    forall i :: 0 <= i < |b.descs| ==> b.descs[i].id == start + i
  }

  /** t is s after one more batch that moves k bytes. */
  ghost predicate Sent(pt: PageTable, s: Dma, t: Dma, k: nat) {
    |t.log| == |s.log| + 1 && t.log[..|s.log|] == s.log &&
    var b := t.log[|s.log|];
    64 <= k <= s.Remaining() && Aligned64(k) &&
    t.host == s.host + k && t.device == s.device + k && t.sent == s.sent + k &&
    t.bytes == s.bytes && t.reading == s.reading == b.reading &&
    Total(b.descs) == k && Tiles(pt, s.reading, b.descs, s.host, s.device) &&
    IdsFrom(b, s.LastId()) && t.LastId() == b.lastId &&
    (if s.reading then t.hwRdLast == s.hwRdLast else t.hwWrLast == s.hwWrLast)
  }

  lemma PieceHalf(n: nat)
    requires n >= 2
    ensures Piece(n) == 2 * Piece(n / 2)
  {}

  lemma PieceAligned(n: nat)
    requires n >= 64
    ensures Aligned64(Piece(n)) && Piece(n) >= 64
  {
    hide Piece;
    var a := n / 2;
    var b := a / 2;
    var c := b / 2;
    var d := c / 2;
    var e := d / 2;
    PieceHalf(n);
    PieceHalf(a);
    PieceHalf(b);
    PieceHalf(c);
    PieceHalf(d);
    PieceHalf(e);
    assert Piece(n) == 64 * Piece(e / 2);
  }

  lemma Words(n: nat)
    requires Aligned64(n)
    ensures 4 * (n / 4) == n
  {
    var q := n / 64;
    assert n == 64 * q;
    assert n / 4 == 16 * q;
  }

  predicate IsFirstSize(size: nat, left: int, rem: nat, offset: nat) {
    size == if rem == 1 then (if left % UINT > PAGE then PAGE else left % UINT) else PAGE - offset
  }

  lemma PageOf(page: nat, offset: nat)
    requires offset < PAGE
    ensures (page * PAGE + offset) / PAGE == page && (page * PAGE + offset) % PAGE == offset
  {}

  lemma CutSize(left: int, n: nat)
    requires n <= left % UINT
    ensures (left - n) % UINT == left % UINT - n
  {}

  lemma CutFacts(left: nat)
    requires Aligned64(left)
    ensures Aligned64(left % UINT) && left % UINT <= left && (left < UINT ==> left % UINT == left)
  {}

  lemma OffsetFacts(host: nat, offset: nat)
    requires Aligned64(host) && offset == host % PAGE
    ensures Aligned64(offset) && host == host / PAGE * PAGE + offset && offset < PAGE
    ensures Aligned64(PAGE - offset)
  {}

  lemma AlignedPositive(n: nat)
    requires Aligned64(n) && n > 0
    ensures n >= 64
  {}

  lemma AlignedLeft(s: Dma)
    requires Aligned(s) && s.sent <= s.bytes
    ensures Aligned64(s.Remaining())
  {}

  lemma PartialSize(host: nat, left: int, rem: nat, offset: nat, handleLast: nat, size: nat)
    requires Shape(host, left, rem, offset, handleLast) && rem > 0
    requires Aligned64(host) && Aligned64(left)
    requires IsFirstSize(size, left, rem, offset) && size != 0 && size != PAGE
    ensures 64 <= size < PAGE && Aligned64(size) && size <= left && offset + size <= PAGE
    ensures rem == 1 ==> size == left % UINT
  {
    hide Aligned64;
    OffsetFacts(host, offset);
    CutFacts(left);
    AlignedPositive(size);
  }

  /** A partial page: the region left over is again well placed. */
  lemma PartialShape(host: nat, left: int, rem: nat, offset: nat, handleLast: nat, size: nat, n: nat)
    requires Shape(host, left, rem, offset, handleLast) && rem > 0
    requires Aligned64(host) && Aligned64(left)
    requires IsFirstSize(size, left, rem, offset) && size != 0 && size != PAGE && 0 < n <= size
    ensures n < size ==> (host + n) / PAGE == host / PAGE &&
                         Shape(host + n, left - n, rem, offset + n, handleLast)
    ensures n == size && rem > 1 ==> (host + n) / PAGE == host / PAGE + 1 &&
                                     Shape(host + n, left - n, rem - 1, 0, handleLast)
  {
    hide Aligned64;
    PartialSize(host, left, rem, offset, handleLast, size);
    OffsetFacts(host, offset);
    var page := host / PAGE;
    if n < size {
      PageOf(page, offset + n);
      if rem == 1 { CutSize(left, n); }
    } else if rem > 1 {
      PageOf(page + 1, 0);
    }
  }

  lemma AlignedAfter(a: nat, n: nat)
    requires Aligned64(a) && Aligned64(n)
    ensures Aligned64(a + n)
  {}

  lemma MapsAfter(pt: PageTable, p: Pinned, host: nat, q: Pinned, host': nat, k: nat)
    requires Maps(pt, p, host) && k <= p.pagesRem
    requires q.pages == p.pages && q.next == p.next + k && q.pagesRem == p.pagesRem - k
    requires q.pagesRem > 0 ==> host' / PAGE == host / PAGE + k
    ensures Maps(pt, q, host')
  {}

  lemma AdvanceRegion(pt: PageTable, base: int, s: Dma, size: nat, n: nat, start: nat)
    requires Ready(pt, base, s) && Prepared(s)
    requires size == FirstSize(s) && size != 0 && size != PAGE && 0 < n <= size
    ensures var t := Advance(s, size, n, start); t.active.pagesRem > 0 ==> RegionOk(pt, t)
  {
    hide Maps, IdsOk, Aligned64, Shape;
    AlignedLeft(s);
    var t := Advance(s, size, n, start);
    PartialShape(s.host, s.Remaining(), s.active.pagesRem, s.active.firstOffset, s.handleLast, size, n);
    MapsAfter(pt, s.active, s.host, t.active, t.host, if n == size then 1 else 0);
  }

  lemma AdvanceBusy(pt: PageTable, base: int, s: Dma, size: nat, n: nat, start: nat)
    requires Ready(pt, base, s) && Prepared(s)
    requires size == FirstSize(s) && size != 0 && size != PAGE
    requires 64 <= n <= size <= s.Remaining() && Aligned64(n) && start == StartId(s.LastId())
    ensures Busy(pt, base, Advance(s, size, n, start))
  {
    hide Maps, Aligned64, Shape;
    AdvanceRegion(pt, base, s, size, n, start);
    AlignedAfter(s.host, n);
    AlignedAfter(s.device, n);
    AlignedAfter(s.sent, n);
  }

  lemma AdvanceTile(pt: PageTable, base: int, s: Dma, n: nat, id: nat)
    requires Ready(pt, base, s) && n > 0 && Aligned64(n) && s.active.firstOffset + n <= PAGE
    ensures var address := FrameAddr(s.active.pages[s.active.next]) + s.active.firstOffset;
            var d := MakeDesc(s.reading, address, s.device, n / 4, id);
            4 * d.words == n && Tile(pt, s.reading, d, s.host, s.device)
  {
    hide Aligned64;
    Words(n);
    assert s.active.pages[s.active.next] == pt(s.host / PAGE);
  }

  lemma AdvanceSent(pt: PageTable, base: int, s: Dma, size: nat, n: nat, start: nat)
    requires Ready(pt, base, s) && Prepared(s) && start == StartId(s.LastId())
    requires 64 <= n <= size <= s.Remaining() && Aligned64(n) && s.active.firstOffset + size <= PAGE
    ensures Sent(pt, s, Advance(s, size, n, start), n)
  {
    hide Tiles, Tile, Total, Maps, Shape, Aligned;
    AdvanceTile(pt, base, s, n, start);
    var b := Advance(s, size, n, start).log[|s.log|];
    assert b.descs == [b.descs[0]];
    TilesOne(pt, s.reading, b.descs[0], s.host, s.device);
  }

  lemma FirstSizeOk(pt: PageTable, base: int, s: Dma)
    requires Ready(pt, base, s) && Prepared(s)
    requires var size := FirstSize(s); size != 0 && size != PAGE
    ensures var size := FirstSize(s);
            64 <= size < PAGE && Aligned64(size) && size <= s.Remaining() && s.active.firstOffset + size <= PAGE
  {
    hide Maps, Pins, IdsOk, Shape, Aligned64;
    AlignedLeft(s);
    PartialSize(s.host, s.Remaining(), s.active.pagesRem, s.active.firstOffset, s.handleLast, FirstSize(s));
  }

  lemma PartialOk(pt: PageTable, base: int, s: Dma)
    requires Ready(pt, base, s) && Prepared(s)
    requires var size := FirstSize(s); size != 0 && size != PAGE
    ensures var size := FirstSize(s);
            var o := Partial(s, size);
            o.code == Did && Busy(pt, base, o.s) && Sent(pt, s, o.s, Piece(size))
  {
    var size := FirstSize(s);
    FirstSizeOk(pt, base, s);
    PieceAligned(size);
    AdvanceBusy(pt, base, s, size, Piece(size), StartId(s.LastId()));
    AdvanceSent(pt, base, s, size, Piece(size), StartId(s.LastId()));
    hide Busy, Sent, Advance, Piece, FirstSize, Prepared, Aligned, RegionOk;
  }

  // ---------- whole pages ----------

  lemma PhysPage(pt: PageTable, host: nat, i: nat)
    requires host % PAGE == 0
    ensures (host + i * PAGE) % PAGE == 0 && Phys(pt, host + i * PAGE) == FrameAddr(pt(host / PAGE + i))
  {}

  /** The i-th of several descriptors of one page each. */
  ghost predicate PageTile(pt: PageTable, reading: bool, d: Desc, host: nat, device: nat, i: nat) {
    4 * d.words == PAGE && Tile(pt, reading, d, host + i * PAGE, device + i * PAGE)
  }

  lemma {:induction false} EqualTiles(pt: PageTable, reading: bool, ds: seq<Desc>, host: nat, device: nat)
    requires forall i :: 0 <= i < |ds| ==> PageTile(pt, reading, ds[i], host, device, i)
    ensures Total(ds) == |ds| * PAGE && Tiles(pt, reading, ds, host, device)
    decreases |ds|
  {
    if ds != [] {
      hide Tile, Tiles, Total;
      var n := |ds| - 1;
      EqualTiles(pt, reading, ds[..n], host, device);
      assert PageTile(pt, reading, ds[n], host, device, n);
      TilesSnoc(pt, reading, ds[..n], ds[n], host, device, n * PAGE);
      assert ds == ds[..n] + [ds[n]];
    }
  }

  lemma PageDescTile(pt: PageTable, s: Dma, start: nat, i: nat)
    requires Maps(pt, s.active, s.host) && i < s.active.pagesRem && s.host % PAGE == 0
    ensures PageTile(pt, s.reading, PageDesc(s, start, i), s.host, s.device, i)
  {
    PhysPage(pt, s.host, i);
    assert s.active.pages[s.active.next + i] == pt(s.host / PAGE + i);
  }

  lemma PageTiles(pt: PageTable, s: Dma, start: nat, n: nat)
    requires Maps(pt, s.active, s.host) && n <= s.active.pagesRem && s.host % PAGE == 0
    ensures var ds := PageDescs(s, start, n);
            Total(ds) == n * PAGE && Tiles(pt, s.reading, ds, s.host, s.device)
  {
    var ds := PageDescs(s, start, n);
    hide PageTile, PageDesc, PageDescs, Tiles, Total, Phys;
    forall i | 0 <= i < n ensures PageTile(pt, s.reading, ds[i], s.host, s.device, i) {
      PageDescTile(pt, s, start, i);
    }
    EqualTiles(pt, s.reading, ds, s.host, s.device);
  }

  predicate Whole(host: nat, left: int, rem: nat, offset: nat, handleLast: nat) {
    offset == 0 && rem > handleLast && host % PAGE == 0
  }

  /** When first_size is a page (or cut to 0) the region starts at a page
      boundary and has a whole page left. */
  lemma WholePages(host: nat, left: int, rem: nat, offset: nat, handleLast: nat, size: nat)
    requires Shape(host, left, rem, offset, handleLast) && rem > 0
    requires IsFirstSize(size, left, rem, offset) && (size == 0 || size == PAGE)
    ensures Whole(host, left, rem, offset, handleLast)
  {}

  lemma WholeShape(host: nat, left: int, rem: nat, handleLast: nat, n: nat)
    requires Shape(host, left, rem, 0, handleLast) && Whole(host, left, rem, 0, handleLast)
    requires 0 < n <= rem - handleLast
    ensures n * PAGE <= left && (host + n * PAGE) / PAGE == host / PAGE + n && (host + n * PAGE) % PAGE == 0
    ensures rem > n ==> Shape(host + n * PAGE, left - n * PAGE, rem - n, 0, handleLast)
    ensures rem == n ==> handleLast == 0
  {}

  lemma PageAligned(n: nat)
    ensures Aligned64(n * PAGE) && (n > 0 ==> n * PAGE >= 64)
  {}

  lemma SendPagesSent(pt: PageTable, base: int, s: Dma, start: nat, n: nat)
    requires Ready(pt, base, s) && Prepared(s) && start == StartId(s.LastId()) && start + n <= TABLE
    requires Whole(s.host, s.Remaining(), s.active.pagesRem, s.active.firstOffset, s.handleLast)
    requires 0 < n <= s.active.pagesRem - s.handleLast
    ensures Sent(pt, s, SendPages(s, start, n), n * PAGE)
  {
    hide Maps, Tile, Tiles, Total, PageDescs, Aligned64;
    PageAligned(n);
    WholeShape(s.host, s.Remaining(), s.active.pagesRem, s.handleLast, n);
    PageTiles(pt, s, start, n);
    assert SendPages(s, start, n).log[|s.log|].descs == PageDescs(s, start, n);
  }

  lemma SendPagesBusy(pt: PageTable, base: int, s: Dma, start: nat, n: nat)
    requires Ready(pt, base, s) && Prepared(s) && start == StartId(s.LastId()) && start + n <= TABLE
    requires Whole(s.host, s.Remaining(), s.active.pagesRem, s.active.firstOffset, s.handleLast)
    requires 0 < n <= s.active.pagesRem - s.handleLast
    ensures Busy(pt, base, SendPages(s, start, n))
  {
    hide Maps, PageDescs, Aligned64;
    PageAligned(n);
    var t := SendPages(s, start, n);
    WholeShape(s.host, s.Remaining(), s.active.pagesRem, s.handleLast, n);
    MapsAfter(pt, s.active, s.host, t.active, t.host, n);
    AlignedAfter(s.host, n * PAGE);
    AlignedAfter(s.device, n * PAGE);
    AlignedAfter(s.sent, n * PAGE);
  }

  lemma PrePinOk(pt: PageTable, base: int, s: Dma)
    requires Busy(pt, base, s) && s.active.live && !s.prePinned.live
    ensures var t := PrePin(pt, s); Busy(pt, base, t) && SamePoint(s, t)
  {
    hide Maps, Shape;
  }

  lemma FullOk(pt: PageTable, base: int, s: Dma)
    requires Ready(pt, base, s) && Prepared(s)
    requires Whole(s.host, s.Remaining(), s.active.pagesRem, s.active.firstOffset, s.handleLast)
    ensures var o := Full(pt, s);
            o.code == Did && Busy(pt, base, o.s) && Sent(pt, s, o.s, FullCount(s, StartId(s.LastId())) * PAGE)
  {
    hide Tiles, Total, PageDescs, Busy, Maps, Shape, Aligned;
    var start := StartId(s.LastId());
    var n := FullCount(s, start);
    SendPagesSent(pt, base, s, start, n);
    SendPagesBusy(pt, base, s, start, n);
    PrePinOk(pt, base, SendPages(s, start, n));
  }

  lemma EmitOk(pt: PageTable, base: int, s: Dma) returns (k: nat)
    requires Ready(pt, base, s) && Prepared(s)
    ensures var o := Emit(pt, s);
            o.code == Did && Busy(pt, base, o.s) && Sent(pt, s, o.s, k)
  {
    hide Sent, Busy, Advance, Piece;
    var size := FirstSize(s);
    if size != 0 && size != PAGE {
      PartialOk(pt, base, s);
      k := Piece(size);
    } else {
      WholePages(s.host, s.Remaining(), s.active.pagesRem, s.active.firstOffset, s.handleLast, size);
      FullOk(pt, base, s);
      k := FullCount(s, StartId(s.LastId())) * PAGE;
    }
  }

  /** One busy update with bytes left: it reports work done, sends at least 64
      bytes and never more than remain, keeps the invariant, and never takes the
      error returns or the silent fall-through. */
  lemma UpdateSends(pt: PageTable, base: int, s: Dma) returns (k: nat)
    requires Busy(pt, base, s) && s.Remaining() > 0
    ensures CanUpdate(pt, s) &&
            var o := Update(pt, s);
            o.code == Did && Busy(pt, base, o.s) && Sent(pt, s, o.s, k)
  {
    PrepareOk(pt, base, s);
    var t := Prepare(pt, s);
    hide Ready, Prepared, Prepare, Emit;
    k := EmitOk(pt, base, t);
  }
}
