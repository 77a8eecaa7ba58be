/** The bulk-DMA engine of the Linux driver as a function on values.

    One call of Update is one call of aclpci_dma_update while a transfer runs:
    it may pin the next part of the user buffer, and it builds one batch of
    descriptors and hands it to the controller. */
module DmaSpec {

  const PAGE: nat := 4096            // PAGE_SIZE
  const TABLE: nat := 128            // ACL_PCIE_DMA_TABLE_SIZE
  const LOCKED: nat := 256           // ACL_PCIE_DMA_PAGES_LOCKED on Linux
  const RESET_ID: nat := 255         // ACL_PCIE_DMA_RESET_ID
  const UINT: nat := 0x1_0000_0000   // range of an unsigned int

  // Physical page frame behind a user page number, fixed while pages are pinned.
  type PageTable = nat -> nat

  /** A pinned piece of the user buffer: struct pinned_mem with its dma_t.
      A region that is not live has a null dma.ptr. */
  datatype Pinned = Pinned(live: bool, pages: seq<nat>, next: nat, pagesRem: nat,
                           firstOffset: nat, lastOffset: nat)

  const NO_PIN := Pinned(false, [], 0, 0, 0, 0)

  /** One descriptor: source and destination byte address, 32-bit words, id. */
  datatype Desc = Desc(src: nat, dest: nat, words: nat, id: nat)

  /** What one doorbell hands to the controller: table slots 0..|descs|-1. */
  datatype Batch = Batch(reading: bool, descs: seq<Desc>, lastId: nat)

  /** struct aclpci_dma, the two LAST_PTR registers of the controller, the
      locked_vm counter and the batches sent so far. */
  datatype Dma = Dma(
    idle: bool, reading: bool, bytes: nat, sent: nat, host: nat, device: nat,
    active: Pinned, prePinned: Pinned, done: Pinned, handleLast: nat,
    rdLastId: nat, wrLastId: nat, pageLastId: nat, hwRdLast: nat, hwWrLast: nat,
    lockedPages: int, log: seq<Batch>)
  {
    function Remaining(): int { bytes - sent }

    // Reads from the device use the controller's write table, and conversely.
    function LastId(): nat { if reading then wrLastId else rdLastId }
  }

  datatype Code = Nothing | Did | Fault
  datatype Outcome = Outcome(s: Dma, code: Code)

  // page_to_phys
  function FrameAddr(frame: nat): nat { frame * PAGE }

  // ---------- pinning ----------

  /** The pages [addr, addr+len) falls in, all of them still to be sent. */
  function Lock(pt: PageTable, addr: nat, len: nat): Pinned
    requires len > 0
  {
    var first := addr / PAGE;
    var n := (addr + len - 1) / PAGE - first + 1;
    Pinned(true, seq(n, i requires 0 <= i < n => pt(first + i)), 0, n, addr % PAGE, (addr + len) % PAGE)
  }

  function LockSize(remaining: nat, pageLastId: nat): (size: nat)
    requires pageLastId < TABLE
    ensures remaining > 0 ==> 0 < size <= remaining
  {
    if remaining > LOCKED * PAGE + (TABLE - pageLastId) * PAGE
    then LOCKED * PAGE + (TABLE - 1 - pageLastId) * PAGE
    else remaining
  }

  function Unlock(p: Pinned): Pinned { p.(live := false, pages := []) }

  function UnlockDone(s: Dma): Dma {
    if s.done.live then s.(done := Unlock(s.done), lockedPages := s.lockedPages - |s.done.pages|) else s
  }

  function UnlockAll(s: Dma): Dma {
    var a := if s.active.live then s.(active := Unlock(s.active), lockedPages := s.lockedPages - |s.active.pages|)
             else s;
    var b := if a.prePinned.live
             then a.(prePinned := Unlock(a.prePinned), lockedPages := a.lockedPages - |a.prePinned.pages|) else a;
    UnlockDone(b)
  }

  /** An exhausted region becomes the done one; the next region is the
      pre-pinned one or is pinned now. A region that spills onto one page more
      than the maximum gives that partial page up to the next pin. */
  function Repin(pt: PageTable, s: Dma): Dma
    requires s.Remaining() > 0 && s.pageLastId < TABLE
  {
    var region := if s.prePinned.live then s.prePinned else Lock(pt, s.host, LockSize(s.Remaining(), s.pageLastId));
    var drop := region.pagesRem > LOCKED && region.lastOffset != 0;
    s.(done := if s.active.pagesRem == 0 then s.active else s.done,
       active := region.(pagesRem := if drop then region.pagesRem - 1 else region.pagesRem),
       prePinned := s.prePinned.(live := false),
       handleLast := if drop || region.lastOffset == 0 then 0 else 1,
       lockedPages := s.lockedPages + if s.prePinned.live then 0 else |region.pages|)
  }

  // ---------- descriptor batches ----------

  predicate ValidId(id: nat) { id < TABLE || id == RESET_ID }

  /** get_start_id: the slot after the last one used, or a fault. */
  function StartId(lastId: nat): int {
    if lastId == RESET_ID || lastId == TABLE - 1 then 0
    else if lastId < TABLE - 1 then lastId + 1
    else -1
  }

  function MakeDesc(reading: bool, hostAddr: nat, device: nat, words: nat, id: nat): Desc {
    if reading then Desc(device, hostAddr, words, id) else Desc(hostAddr, device, words, id)
  }

  /** send_dma_desc: remember the last id, ring the doorbell. */
  function Send(s: Dma, descs: seq<Desc>, lastId: nat): Dma {
    var t := s.(log := s.log + [Batch(s.reading, descs, lastId)]);
    if s.reading then t.(wrLastId := lastId, hwWrLast := lastId) else t.(rdLastId := lastId, hwRdLast := lastId)
  }

  /** The largest power of two that is at most n. */
  function Piece(n: nat): (p: nat)
    requires n > 0
    ensures p <= n < 2 * p
  {
    if n == 1 then 1 else 2 * Piece(n / 2)
  }

  /** One descriptor of n bytes towards the end of a partial page of which
      `size` bytes are due. */
  function Advance(s: Dma, size: nat, n: nat, start: nat): Dma
    requires s.active.next < |s.active.pages| && s.active.pagesRem > 0
  {
    var address := FrameAddr(s.active.pages[s.active.next]) + s.active.firstOffset;
    var t := Send(s, [MakeDesc(s.reading, address, s.device, n / 4, start)], start);
    var region := if n == size
                  then t.active.(firstOffset := 0, next := t.active.next + 1, pagesRem := t.active.pagesRem - 1)
                  else t.active.(firstOffset := t.active.firstOffset + n);
    UnlockDone(t.(device := t.device + n, sent := t.sent + n, host := t.host + n, active := region))
  }

  /** non_aligned_page_handler: one power-of-two descriptor. */
  function Partial(s: Dma, size: nat): Outcome
    requires s.active.next < |s.active.pages| && s.active.pagesRem > 0
  {
    var start := StartId(s.LastId());
    if size >= PAGE || start < 0 || size < 4 then Outcome(UnlockAll(s), Fault)
    else Outcome(Advance(s, size, Piece(size), start), Did)
  }

  function PageDesc(s: Dma, start: nat, i: nat): Desc
    requires s.active.next + i < |s.active.pages|
  {
    MakeDesc(s.reading, FrameAddr(s.active.pages[s.active.next + i]), s.device + i * PAGE, PAGE / 4, start + i)
  }

  function PageDescs(s: Dma, start: nat, n: nat): (ds: seq<Desc>)
    requires s.active.next + n <= |s.active.pages|
    ensures |ds| == n && forall i :: 0 <= i < n ==> ds[i] == PageDesc(s, start, i)
  {
    if n == 0 then [] else PageDescs(s, start, n - 1) + [PageDesc(s, start, n - 1)]
  }

  function FullCount(s: Dma, start: nat): nat
    requires s.active.pagesRem > s.handleLast && start < TABLE
  {
    var whole := s.active.pagesRem - s.handleLast;
    if whole > TABLE - start then TABLE - start else whole
  }

  /** n whole pages; the done region is unpinned once they are under way. */
  function SendPages(s: Dma, start: nat, n: nat): Dma
    requires 0 < n <= s.active.pagesRem && s.active.next + n <= |s.active.pages|
  {
    var t := Send(s, PageDescs(s, start, n), start + n - 1);
    UnlockDone(t.(device := s.device + n * PAGE, host := s.host + n * PAGE, sent := s.sent + n * PAGE,
                  pageLastId := start + n - 1,
                  active := s.active.(next := s.active.next + n, pagesRem := s.active.pagesRem - n)))
  }

  /** Pin the next region early when this one is used up and bytes remain. */
  function PrePin(pt: PageTable, s: Dma): Dma
    requires s.pageLastId < TABLE
  {
    if s.Remaining() > 0 && s.active.pagesRem == 0
    then
      var region := Lock(pt, s.host, LockSize(s.Remaining(), s.pageLastId));
      s.(prePinned := region, lockedPages := s.lockedPages + |region.pages|)
    else s
  }

  /** Whole pages, as many as the table still has slots for. */
  function Full(pt: PageTable, s: Dma): Outcome
    requires s.active.pagesRem > s.handleLast
    requires s.active.next + s.active.pagesRem <= |s.active.pages|
  {
    var start := StartId(s.LastId());
    if start < 0 then Outcome(UnlockAll(s), Fault)
    else Outcome(PrePin(pt, SendPages(s, start, FullCount(s, start))), Did)
  }

  // ---------- one call of aclpci_dma_update ----------

  /** first_size is an unsigned int: on the last page of a region the number
      of bytes left is cut to 32 bits before it is compared with a page. */
  function FirstSize(s: Dma): nat
    requires s.Remaining() > 0 && s.active.firstOffset <= PAGE
  {
    var size := if s.active.pagesRem == 1 then s.Remaining() % UINT else PAGE - s.active.firstOffset;
    if size > PAGE then PAGE else size
  }

  function Complete(s: Dma): Dma {
    var t := s.(rdLastId := RESET_ID, wrLastId := RESET_ID, pageLastId := TABLE - 1,
                active := Unlock(s.active), lockedPages := s.lockedPages - |s.active.pages|);
    UnlockDone(t).(idle := true)
  }

  function Prepare(pt: PageTable, s: Dma): Dma
    requires s.Remaining() > 0 && s.pageLastId < TABLE
  {
    if !s.active.live || s.active.pagesRem == 0 then Repin(pt, s) else s
  }

  predicate Prepared(s: Dma) {
    s.Remaining() > 0 && s.active.pagesRem > 0 && s.active.firstOffset < PAGE &&
    s.active.next + s.active.pagesRem <= |s.active.pages|
  }

  function Emit(pt: PageTable, s: Dma): Outcome
    requires Prepared(s)
  {
    var size := FirstSize(s);
    if size != PAGE && size != 0 then Partial(s, size)
    else if s.active.pagesRem > s.handleLast then Full(pt, s)
    else Outcome(s, Nothing)
  }

  predicate CanUpdate(pt: PageTable, s: Dma) {
    !s.idle && s.Remaining() > 0 ==> s.pageLastId < TABLE && Prepared(Prepare(pt, s))
  }

  function Update(pt: PageTable, s: Dma): Outcome
    requires CanUpdate(pt, s)
  {
    if s.idle then Outcome(s, Nothing)
    else if s.Remaining() <= 0 then Outcome(Complete(s), Did)
    else Emit(pt, Prepare(pt, s))
  }

  /** read_write: record the request and read the last id used from the
      controller. */
  function Start(s: Dma, host: nat, device: nat, bytes: nat, reading: bool): Dma {
    var t := s.(idle := false, reading := reading, bytes := bytes, sent := 0, host := host, device := device,
                pageLastId := TABLE - 1);
    if reading then t.(wrLastId := s.hwWrLast) else t.(rdLastId := s.hwRdLast)
  }
}
