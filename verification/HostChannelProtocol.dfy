/** Both host channels over whole runs: the user thread of each channel, the
    driver's relay work item and the FPGA, interleaved in any order. */
module HostChannelProtocol {
  import opened Modular
  import opened HostChannel

  const LOOPS: nat := 20000       // HOSTCH_LOOP_COUNTER

  type Byte = bv8

  /** Where the user thread of a channel is inside ack_buffer: the new pointer is
      stored, then sync_thread reads the sync word, then it may call the driver,
      which rearms the loop counter, then queues the relay, then sets the sync
      word. */
  datatype Phase = Ready | Check | Ioctl | Queue | Mark

  // inside the driver's thread-sync command, between its writes
  predicate InDriver(f: Phase) { f == Queue || f == Mark }

  /** A push channel. `seen` is the driver's copy of `end`, which is also what
      it wrote to the FPGA. The counters behind the wrapped pointers are
      freed (front), relayed (seen) and |acked| (end); the FPGA has read
      |received| bytes. */
  datatype Push = Push(
    size: nat, buf: seq<Byte>, end: nat, front: nat, seen: nat, offered: nat, phase: Phase,
    freed: nat, relayed: nat, acked: seq<Byte>, received: seq<Byte>)

  /** A pull channel. The counters are |delivered| (front), relayed (seen) and
      published (end); the FPGA has stored |stream| bytes. */
  datatype Pull = Pull(
    size: nat, buf: seq<Byte>, front: nat, end: nat, seen: nat, offered: nat, phase: Phase,
    relayed: nat, published: nat, delivered: seq<Byte>, stream: seq<Byte>)

  predicate Size(n: nat) { n > WORD && n % WORD == 0 }

  // ---------- push ----------

  /** The bytes in the buffer from one counter to the next. */
  ghost predicate Stored(buf: seq<Byte>, size: nat, from: nat, bytes: seq<Byte>)
    requires |buf| == size > 0
  {
    forall i :: from <= i < |bytes| ==> buf[i % size] == bytes[i]
  }

  predicate PushPointers(p: Push) {
    Size(p.size) && |p.buf| == p.size &&
    p.end == |p.acked| % p.size && p.front == p.freed % p.size && p.seen == p.relayed % p.size
  }

  predicate PushOrder(p: Push) {
    p.freed <= |p.received| <= p.relayed <= |p.acked| <= p.freed + p.size - WORD
  }

  predicate PushOffered(p: Push) {
    p.end + p.offered <= p.size && |p.acked| + p.offered <= p.freed + p.size - WORD
  }

  ghost predicate PushOk(p: Push) {
    PushPointers(p) && PushOrder(p) && PushOffered(p) &&
    Stored(p.buf, p.size, |p.received|, p.acked) && p.received == p.acked[..|p.received|]
  }

  function PushGet(p: Push): Push
    requires PushOk(p)
  {
    PushExact(p.size, p.freed, |p.acked|, 0);
    p.(offered := PushOffer(p.size, p.end, p.front))
  }

  // the user stores a byte inside the region get_buffer handed out
  function PushWrite(p: Push, at: nat, b: Byte): Push
    requires PushOk(p) && at < p.offered
  {
    p.(buf := p.buf[p.end + at := b])
  }

  function PushAcked(p: Push, send: nat): Push
    requires PushOk(p)
  {
    PushExact(p.size, p.freed, |p.acked|, send);
    var n := PushTaken(p.size, p.end, p.front, send);
    var current := Min(RoundDown(send), Space(p.size, p.end, p.front));
    p.(acked := p.acked + p.buf[p.end..p.end + n], end := Advanced(p.size, p.end, current),
       offered := if n <= p.offered then p.offered - n else 0, phase := Check)
  }

  // aclpci_dma_hostch_push_update; `true` when there was nothing new
  function PushUpdate(p: Push): (Push, bool) {
    if p.seen != p.end then (p.(seen := p.end, relayed := |p.acked|), false) else (p, true)
  }

  // the FPGA reads its next byte; it never reads past the end it was told
  function PushRead(p: Push): Push
    requires PushOk(p) && |p.received| < p.relayed
  {
    p.(received := p.received + [p.buf[|p.received| % p.size]])
  }

  // and publishes what it has read
  function PushFree(p: Push, to: nat): Push
    requires PushOk(p) && p.freed <= to <= |p.received|
  {
    p.(freed := to, front := to % p.size)
  }

  /** Byte i of the stream lies in the region handed out to the user. */
  predicate InOffer(p: Push, i: nat)
    requires p.size > 0
  {
    p.end <= i % p.size < p.end + p.offered
  }

  /** The region handed out to the user holds no byte the FPGA still has to
      read. */
  lemma OfferedIsFree(p: Push, i: nat)
    requires PushOk(p) && |p.received| <= i < |p.acked|
    ensures !InOffer(p, i)
  {
    if InOffer(p, i) {
      var at := i % p.size - p.end;
      OfferedNotUnread(p, at, i);
    }
  }

  lemma OfferedNotUnread(p: Push, at: nat, i: nat)
    requires PushOk(p) && at < p.offered && |p.received| <= i < |p.acked|
    ensures i % p.size != p.end + at
  {
    hide Stored, Size;
    ModAdd(|p.acked|, at, p.size);
    SamePosition(i, |p.acked| + at, p.size);
  }

  lemma PushGetOk(p: Push)
    requires PushOk(p)
    ensures PushOk(PushGet(p))
  {
    hide Stored, PushOffer, RoundDown, PushTaken;
    PushExact(p.size, p.freed, |p.acked|, 0);
  }

  lemma PushWriteOk(p: Push, at: nat, b: Byte)
    requires PushOk(p) && at < p.offered
    ensures PushOk(PushWrite(p, at, b))
  {
    forall i | |p.received| <= i < |p.acked| ensures PushWrite(p, at, b).buf[i % p.size] == p.acked[i] {
      OfferedNotUnread(p, at, i);
    }
  }

  /** Contiguous bytes of the buffer are consecutive bytes of the stream. */
  lemma Slice(buf: seq<Byte>, size: nat, count: nat, n: nat, i: nat)
    requires |buf| == size > 0 && count % size + n <= size && i < n
    ensures buf[(count + i) % size] == buf[count % size..count % size + n][i]
  {
    ModAdd(count, i, size);
  }

  /** A piece of the buffer that does not wrap is a piece of what is stored. */
  lemma StoredSlice(buf: seq<Byte>, size: nat, from: nat, bytes: seq<Byte>, n: nat)
    requires |buf| == size > 0 && Stored(buf, size, from, bytes) && from % size + n <= size && from + n <= |bytes|
    ensures buf[from % size..from % size + n] == bytes[from..from + n]
  {
    var piece := buf[from % size..from % size + n];
    forall i | 0 <= i < n ensures piece[i] == bytes[from + i] {
      Slice(buf, size, from, n, i);
      assert buf[(from + i) % size] == bytes[from + i];
    }
  }

  lemma StoredMore(buf: seq<Byte>, size: nat, from: nat, bytes: seq<Byte>, n: nat)
    requires |buf| == size > 0 && Stored(buf, size, from, bytes) && |bytes| % size + n <= size
    ensures Stored(buf, size, from, bytes + buf[|bytes| % size..|bytes| % size + n])
  {
    var more := bytes + buf[|bytes| % size..|bytes| % size + n];
    forall i | from <= i < |more| ensures buf[i % size] == more[i] {
      if i >= |bytes| { Slice(buf, size, |bytes|, n, i - |bytes|); }
    }
  }

  lemma PushAckedPointers(p: Push, send: nat)
    requires PushOk(p)
    ensures var n := PushTaken(p.size, p.end, p.front, send); var t := PushAcked(p, send);
            0 <= n <= p.size - p.end && t.end == (|p.acked| + n) % p.size && |p.acked| + n <= p.freed + p.size - WORD &&
            (t.offered > 0 ==> t.end == p.end + n)
  {
    hide Stored, RoundDown;
    PushExact(p.size, p.freed, |p.acked|, send);
    AdvancedPosition(p.size, |p.acked|, Min(RoundDown(send), Space(p.size, p.end, p.front)));
  }

  lemma PushAckedOk(p: Push, send: nat)
    requires PushOk(p)
    ensures PushOk(PushAcked(p, send))
  {
    PushAckedPointers(p, send);
    StoredMore(p.buf, p.size, |p.received|, p.acked, PushTaken(p.size, p.end, p.front, send));
    hide Stored, RoundDown, PushTaken, Space, Advanced;
    assert PushAcked(p, send).acked[..|p.received|] == p.acked[..|p.received|];
  }

  /** Comparing wrapped pointers never misses an advance: after the update the
      driver's counter is the user's. */
  lemma PushUpdateOk(p: Push)
    requires PushOk(p)
    ensures var (t, same) := PushUpdate(p);
            PushOk(t) && t.relayed == |t.acked| && (same <==> p.relayed == |p.acked|) && (same ==> t == p)
    ensures PushUpdate(p).0.(seen := p.seen, relayed := p.relayed) == p
  {
    SamePosition(p.relayed, |p.acked|, p.size);
    hide Stored;
  }

  lemma PushReadOk(p: Push)
    requires PushOk(p) && |p.received| < p.relayed
    ensures PushOk(PushRead(p))
  {}

  lemma PushFreeOk(p: Push, to: nat)
    requires PushOk(p) && p.freed <= to <= |p.received|
    ensures PushOk(PushFree(p, to))
  {}

  // ---------- pull ----------

  predicate PullPointers(p: Pull) {
    Size(p.size) && |p.buf| == p.size &&
    p.front == |p.delivered| % p.size && p.end == p.published % p.size && p.seen == p.relayed % p.size
  }

  predicate PullOrder(p: Pull) {
    p.relayed <= |p.delivered| <= p.published <= |p.stream| < p.relayed + p.size
  }

  predicate PullOffered(p: Pull) {
    p.front + p.offered <= p.size && |p.delivered| + p.offered <= p.published
  }

  ghost predicate PullOk(p: Pull) {
    PullPointers(p) && PullOrder(p) && PullOffered(p) &&
    Stored(p.buf, p.size, |p.delivered|, p.stream) && p.delivered == p.stream[..|p.delivered|]
  }

  function PullGet(p: Pull): Pull
    requires PullOk(p)
  {
    PullExact(p.size, |p.delivered|, p.published, 0);
    p.(offered := PullOffer(p.size, p.end, p.front))
  }

  function PullAcked(p: Pull, send: nat): Pull
    requires PullOk(p)
  {
    PullExact(p.size, |p.delivered|, p.published, send);
    var n := PullTaken(p.size, p.end, p.front, send);
    var current := Min(send, Available(p.size, p.end, p.front));
    p.(delivered := p.delivered + p.buf[p.front..p.front + n], front := Advanced(p.size, p.front, current),
       offered := if n <= p.offered then p.offered - n else 0, phase := Check)
  }

  // aclpci_dma_hostch_pull_update
  function PullUpdate(p: Pull): (Pull, bool) {
    if p.seen != p.front then (p.(seen := p.front, relayed := |p.delivered|), false) else (p, true)
  }

  // the FPGA stores its next byte; it never fills the ring it was told about
  function PullFill(p: Pull, b: Byte): Pull
    requires PullOk(p) && |p.stream| + 1 < p.relayed + p.size
  {
    p.(buf := p.buf[|p.stream| % p.size := b], stream := p.stream + [b])
  }

  // and publishes what it has stored
  function PullPublish(p: Pull, to: nat): Pull
    requires PullOk(p) && p.published <= to <= |p.stream|
  {
    p.(published := to, end := to % p.size)
  }

  /** What the user sees in the region handed out is the stream, byte by byte. */
  lemma OfferedIsStream(p: Pull)
    requires PullOk(p)
    ensures p.buf[p.front..p.front + p.offered] == p.stream[|p.delivered|..|p.delivered| + p.offered]
  {
    StoredSlice(p.buf, p.size, |p.delivered|, p.stream, p.offered);
    hide Stored;
  }

  lemma PullGetOk(p: Pull)
    requires PullOk(p)
    ensures PullOk(PullGet(p))
  {
    hide Stored, PullOffer, PullTaken;
    PullExact(p.size, |p.delivered|, p.published, 0);
  }

  lemma PullAckedPointers(p: Pull, send: nat)
    requires PullOk(p)
    ensures var n := PullTaken(p.size, p.end, p.front, send); var t := PullAcked(p, send);
            0 <= n <= p.size - p.front && t.front == (|p.delivered| + n) % p.size && |p.delivered| + n <= p.published &&
            (t.offered > 0 ==> t.front == p.front + n)
  {
    hide Stored;
    PullExact(p.size, |p.delivered|, p.published, send);
    AdvancedPosition(p.size, |p.delivered|, Min(send, Available(p.size, p.end, p.front)));
  }

  lemma Delivered(p: Pull, n: nat)
    requires PullOk(p) && p.front + n <= p.size && |p.delivered| + n <= |p.stream|
    ensures p.delivered + p.buf[p.front..p.front + n] == p.stream[..|p.delivered| + n]
  {
    StoredSlice(p.buf, p.size, |p.delivered|, p.stream, n);
    hide Stored;
    assert p.delivered + p.stream[|p.delivered|..|p.delivered| + n] == p.stream[..|p.delivered| + n];
  }

  lemma PullAckedOk(p: Pull, send: nat)
    requires PullOk(p)
    ensures PullOk(PullAcked(p, send))
  {
    PullAckedPointers(p, send);
    Delivered(p, PullTaken(p.size, p.end, p.front, send));
    hide PullTaken, Available, Advanced;
  }

  lemma PullUpdateOk(p: Pull)
    requires PullOk(p)
    ensures var (t, same) := PullUpdate(p);
            PullOk(t) && t.relayed == |t.delivered| && (same <==> p.relayed == |p.delivered|) && (same ==> t == p)
    ensures PullUpdate(p).0.(seen := p.seen, relayed := p.relayed) == p
  {
    SamePosition(p.relayed, |p.delivered|, p.size);
    hide Stored;
  }

  lemma StoredPut(buf: seq<Byte>, size: nat, from: nat, bytes: seq<Byte>, b: Byte)
    requires |buf| == size > 0 && Stored(buf, size, from, bytes) && from <= |bytes| < from + size
    ensures Stored(buf[|bytes| % size := b], size, from, bytes + [b])
  {
    forall i | from <= i < |bytes| ensures i % size != |bytes| % size { SamePosition(i, |bytes|, size); }
  }

  lemma PullFillOk(p: Pull, b: Byte)
    requires PullOk(p) && |p.stream| + 1 < p.relayed + p.size
    ensures PullOk(PullFill(p, b))
  {
    StoredPut(p.buf, p.size, |p.delivered|, p.stream, b);
    hide Stored;
  }

  lemma PullPublishOk(p: Pull, to: nat)
    requires PullOk(p) && p.published <= to <= |p.stream|
    ensures PullOk(PullPublish(p, to))
  {}

  /** get_buffer offers everything there is up to the end of the buffer: free
      bytes on push, published ones on pull. */
  lemma OfferIsAll(p: Push, q: Pull)
    requires PushOk(p) && PullOk(q)
    ensures PushGet(p).offered == Min(p.size - WORD - (|p.acked| - p.freed), p.size - |p.acked| % p.size)
    ensures PullGet(q).offered == Min(q.published - |q.delivered|, q.size - |q.delivered| % q.size)
  {
    PushExact(p.size, p.freed, |p.acked|, 0);
    PullExact(q.size, |q.delivered|, q.published, 0);
    hide Stored, PushOffer, PullOffer;
  }

  /** Acknowledging part of an offer leaves the rest of it to the user. */
  lemma AckLeavesRest(p: Push, q: Pull, send: nat)
    requires PushOk(p) && PullOk(q)
    ensures var t := PushAcked(p, send);
            var n := |t.acked| - |p.acked|;
            n <= p.offered ==> t.offered == p.offered - n
    ensures var t := PullAcked(q, send);
            var n := |t.delivered| - |q.delivered|;
            n <= q.offered ==> t.offered == q.offered - n
  {
    PushExact(p.size, p.freed, |p.acked|, send);
    PullExact(q.size, |q.delivered|, q.published, send);
    hide Stored, PushOffer, PullOffer, PushTaken, PullTaken, Advanced, Space, Available, RoundDown;
  }

  // ---------- both channels and the relay ----------

  datatype Sys = Sys(
    pushValid: bool, push: Push, pullValid: bool, pull: Pull,
    work: bool,     // the relay is queued
    sync: bool,     // *user_thread_sync
    loop: nat)      // loop_counter

  datatype Step =
    | GetPush | Write(at: nat, b: Byte) | AckPush(send: nat) | Read | Free(to: nat)
    | GetPull | AckPull(send: nat) | Fill(b: Byte) | Publish(to: nat)
    | CheckPush | CheckPull        // sync_thread reads the sync word
    | IoctlPush | IoctlPull        // aclpci_dma_hostch_thread_sync: the test and loop_counter
    | QueuePush | QueuePull        // its queue_work
    | MarkPush | MarkPull          // its write of the sync word
    | Work                         // aclpci_dma_update with no bulk transfer

  ghost predicate Enabled(s: Sys, step: Step) {
    PushOk(s.push) && PullOk(s.pull) &&
    match step
    case GetPush => s.pushValid && s.push.phase == Ready
    case Write(at, _) => s.pushValid && s.push.phase == Ready && at < s.push.offered
    case AckPush(_) => s.pushValid && s.push.phase == Ready
    case Read => s.pushValid && |s.push.received| < s.push.relayed
    case Free(to) => s.pushValid && s.push.freed <= to <= |s.push.received| && Whole(to)
    case GetPull => s.pullValid && s.pull.phase == Ready
    case AckPull(_) => s.pullValid && s.pull.phase == Ready
    case Fill(_) => s.pullValid && |s.pull.stream| + 1 < s.pull.relayed + s.pull.size
    case Publish(to) => s.pullValid && s.pull.published <= to <= |s.pull.stream|
    case CheckPush => s.push.phase == Check
    case CheckPull => s.pull.phase == Check
    // one command of the device at a time: the driver's semaphore
    case IoctlPush => s.push.phase == Ioctl && !InDriver(s.pull.phase)
    case IoctlPull => s.pull.phase == Ioctl && !InDriver(s.push.phase)
    case QueuePush => s.push.phase == Queue
    case QueuePull => s.pull.phase == Queue
    case MarkPush => s.push.phase == Mark
    case MarkPull => s.pull.phase == Mark
    case Work => s.work
  }

  function Checked(sync: bool): Phase { if sync then Ready else Ioctl }

  predicate MustWake(s: Sys) { (s.pushValid || s.pullValid) && !s.sync }

  function Rearmed(s: Sys): Sys { if MustWake(s) then s.(loop := LOOPS) else s }

  function Entered(s: Sys): Phase { if MustWake(s) then Queue else Ready }

  function LoopAfter(loop: nat, same: bool): nat {
    if !same then LOOPS else if loop > 0 then loop - 1 else loop
  }

  function Relay(s: Sys): Sys {
    var (pull, pullSame) := PullUpdate(s.pull);
    var s1 := if s.pullValid then s.(pull := pull, loop := LoopAfter(s.loop, pullSame)) else s;
    var (push, pushSame) := PushUpdate(s.push);
    var s2 := if s.pushValid then s1.(push := push, loop := LoopAfter(s1.loop, pushSame)) else s1;
    if (s.pushValid || s.pullValid) && s2.loop > 0 then s2.(work := true)
    else if s2.loop == 0 then s2.(work := false, sync := false)
    else s2.(work := false)
  }

  ghost function Apply(s: Sys, step: Step): Sys
    requires Enabled(s, step)
  {
    match step
    case GetPush => s.(push := PushGet(s.push))
    case Write(at, b) => s.(push := PushWrite(s.push, at, b))
    case AckPush(send) => s.(push := PushAcked(s.push, send))
    case Read => s.(push := PushRead(s.push))
    case Free(to) => s.(push := PushFree(s.push, to))
    case GetPull => s.(pull := PullGet(s.pull))
    case AckPull(send) => s.(pull := PullAcked(s.pull, send))
    case Fill(b) => s.(pull := PullFill(s.pull, b))
    case Publish(to) => s.(pull := PullPublish(s.pull, to))
    case CheckPush => s.(push := s.push.(phase := Checked(s.sync)))
    case CheckPull => s.(pull := s.pull.(phase := Checked(s.sync)))
    case IoctlPush => Rearmed(s).(push := s.push.(phase := Entered(s)))
    case IoctlPull => Rearmed(s).(pull := s.pull.(phase := Entered(s)))
    case QueuePush => s.(work := true, push := s.push.(phase := Mark))
    case QueuePull => s.(work := true, pull := s.pull.(phase := Mark))
    case MarkPush => s.(sync := true, push := s.push.(phase := Ready))
    case MarkPull => s.(sync := true, pull := s.pull.(phase := Ready))
    case Work => Relay(s)
  }

  ghost predicate Next(s: Sys, step: Step, t: Sys) { Enabled(s, step) && t == Apply(s, step) }

  predicate Fresh(push: Push, pull: Pull) {
    push.end == push.front == push.seen == push.freed == push.relayed == push.offered == 0 &&
    push.acked == push.received == [] && push.phase == Ready &&
    pull.end == pull.front == pull.seen == pull.published == pull.relayed == pull.offered == 0 &&
    pull.delivered == pull.stream == [] && pull.phase == Ready &&
    Size(push.size) && |push.buf| == push.size && Size(pull.size) && |pull.buf| == pull.size
  }

  predicate Init(s: Sys) {
    (s.pushValid || s.pullValid) && Fresh(s.push, s.pull) && s.work && !s.sync && s.loop == LOOPS
  }

  // ---------- the invariant ----------

  /** Everything acknowledged, relayed and published on push is whole words. */
  predicate Words(p: Push) { Whole(p.freed) && Whole(p.relayed) && Whole(|p.acked|) }

  predicate Whole(n: int) { n % WORD == 0 }

  /** One command at a time, and none finds the sync word set before its own
      write. */
  predicate Exclusive(s: Sys) {
    !(InDriver(s.push.phase) && InDriver(s.pull.phase)) &&
    (InDriver(s.push.phase) || InDriver(s.pull.phase) ==> !s.sync)
  }

  ghost predicate Inv(s: Sys) {
    (s.pushValid || s.pullValid) && PushOk(s.push) && PullOk(s.pull) && Words(s.push) && Exclusive(s) &&
    (!s.pushValid ==> s.push.relayed == |s.push.acked| && s.push.phase == Ready) &&
    (!s.pullValid ==> s.pull.relayed == |s.pull.delivered| && s.pull.phase == Ready)
  }

  lemma InvInit(s: Sys)
    requires Init(s)
    ensures Inv(s)
  {}

  lemma WordsMin(a: int, b: int)
    requires Whole(a) && Whole(b)
    ensures Whole(Min(a, b))
  {}

  lemma WordsMod(a: nat, size: nat)
    requires Whole(a) && Size(size)
    ensures Whole(size - a % size)
  {
    var q, n, r := a / WORD, size / WORD, a % size;
    assert a == WORD * q && size == WORD * n && a == size * (a / size) + r;
    assert r == WORD * (q - n * (a / size));
  }

  lemma WordsDown(n: nat)
    ensures Whole(RoundDown(n))
  {}

  lemma WordsFree(size: nat, freed: nat, acked: nat)
    requires Size(size) && Whole(freed) && Whole(acked)
    ensures Whole(size - WORD - (acked - freed))
  {}

  lemma WholeSum(a: nat, b: nat)
    requires Whole(a) && Whole(b)
    ensures Whole(a + b)
  {}

  lemma WordsSum(p: Push, send: nat)
    requires PushOk(p) && Words(p)
    ensures Whole(PushTaken(p.size, p.end, p.front, send))
  {
    hide Stored, RoundDown, PushTaken, Whole, PushOffer;
    PushExact(p.size, p.freed, |p.acked|, send);
    WordsDown(send);
    WordsMod(|p.acked|, p.size);
    var free := p.size - WORD - (|p.acked| - p.freed);
    WordsFree(p.size, p.freed, |p.acked|);
    WordsMin(RoundDown(send), free);
    WordsMin(Min(RoundDown(send), free), p.size - |p.acked| % p.size);
  }

  lemma WordsAck(p: Push, send: nat)
    requires PushOk(p) && Words(p)
    ensures Words(PushAcked(p, send))
  {
    hide Stored, RoundDown, PushTaken, PushOffer, Advanced, Space, Whole;
    PushExact(p.size, p.freed, |p.acked|, send);
    WordsSum(p, send);
    WholeSum(|p.acked|, PushTaken(p.size, p.end, p.front, send));
    assert |PushAcked(p, send).acked| == |p.acked| + PushTaken(p.size, p.end, p.front, send);
  }

  lemma PushStepInv(s: Sys, step: Step)
    requires Inv(s) && Enabled(s, step)
    requires step.GetPush? || step.Write? || step.Read? || step.Free?
    ensures Inv(Apply(s, step))
  {
    hide PushOk, PullOk;
    match step
    case GetPush => PushGetOk(s.push);
    case Write(at, b) => PushWriteOk(s.push, at, b);
    case Read => PushReadOk(s.push);
    case Free(to) => PushFreeOk(s.push, to);
  }

  lemma PullStepInv(s: Sys, step: Step)
    requires Inv(s) && Enabled(s, step)
    requires step.GetPull? || step.Fill? || step.Publish?
    ensures Inv(Apply(s, step))
  {
    hide PushOk, PullOk;
    match step
    case GetPull => PullGetOk(s.pull);
    case Fill(b) => PullFillOk(s.pull, b);
    case Publish(to) => PullPublishOk(s.pull, to);
  }

  lemma AckStepInv(s: Sys, step: Step)
    requires Inv(s) && Enabled(s, step) && (step.AckPush? || step.AckPull?)
    ensures Inv(Apply(s, step))
  {
    hide PushOk, PullOk, Words;
    match step
    case AckPush(send) => PushAckedOk(s.push, send); WordsAck(s.push, send);
    case AckPull(send) => PullAckedOk(s.pull, send);
  }

  lemma PhaseOk(push: Push, pull: Pull, phase: Phase)
    requires PushOk(push) && PullOk(pull)
    ensures PushOk(push.(phase := phase)) && PullOk(pull.(phase := phase))
  {}

  predicate IsSync(step: Step) {
    step.CheckPush? || step.CheckPull? || step.IoctlPush? || step.IoctlPull? ||
    step.QueuePush? || step.QueuePull? || step.MarkPush? || step.MarkPull?
  }

  lemma SyncStepInv(s: Sys, step: Step)
    requires Inv(s) && Enabled(s, step) && IsSync(step)
    ensures Inv(Apply(s, step))
  {
    PhaseOk(s.push, s.pull, Ready);
    PhaseOk(s.push, s.pull, Ioctl);
    PhaseOk(s.push, s.pull, Queue);
    PhaseOk(s.push, s.pull, Mark);
    hide PushOk, PullOk;
  }

  /** After a relay the driver's copies are current. */
  lemma RelayInv(s: Sys)
    requires Inv(s)
    ensures Inv(Relay(s)) && Quiet(Relay(s))
  {
    PushUpdateOk(s.push);
    PullUpdateOk(s.pull);
    hide PushOk, PullOk, LoopAfter;
  }

  /** The driver has seen every acknowledgement. */
  predicate Quiet(s: Sys) { s.push.relayed == |s.push.acked| && s.pull.relayed == |s.pull.delivered| }

  /** Every step keeps the invariant. */
  lemma NextInv(s: Sys, step: Step, t: Sys)
    requires Inv(s) && Next(s, step, t)
    ensures Inv(t)
  {
    hide Inv, PushOk, PullOk;
    match step
    case GetPush => PushStepInv(s, step);
    case Write(_, _) => PushStepInv(s, step);
    case Read => PushStepInv(s, step);
    case Free(_) => PushStepInv(s, step);
    case GetPull => PullStepInv(s, step);
    case Fill(_) => PullStepInv(s, step);
    case Publish(_) => PullStepInv(s, step);
    case AckPush(_) => AckStepInv(s, step);
    case AckPull(_) => AckStepInv(s, step);
    case Work => RelayInv(s);
    case _ => SyncStepInv(s, step);
  }

  // ---------- runs ----------

  ghost predicate Run(states: seq<Sys>, steps: seq<Step>) {
    |states| == |steps| + 1 && Init(states[0]) &&
    forall i, j :: 0 <= i < |steps| && j == i + 1 ==> Next(states[i], steps[i], states[j])
  }

  lemma {:induction false} RunInv(states: seq<Sys>, steps: seq<Step>, n: nat)
    requires Run(states, steps) && n < |states|
    ensures Inv(states[n])
    decreases n
  {
    hide Inv, Next, Init;
    if n == 0 {
      InvInit(states[0]);
    } else {
      RunInv(states, steps, n - 1);
      NextInv(states[n - 1], steps[n - 1], states[n]);
    }
  }

  /** The byte streams only grow. */
  lemma RelayStreams(s: Sys)
    ensures var t := Relay(s);
            t.push.acked == s.push.acked && t.push.received == s.push.received &&
            t.pull.stream == s.pull.stream && t.pull.delivered == s.pull.delivered
  {
    hide Advanced, Space, Available, LoopAfter;
  }

  lemma PushAckedGrows(p: Push, send: nat)
    requires PushOk(p)
    ensures var t := PushAcked(p, send); p.acked <= t.acked && p.received == t.received
  {
    PushExact(p.size, p.freed, |p.acked|, send);
    hide PushOffer, PushTaken, Advanced, Space, RoundDown;
  }

  lemma PullAckedGrows(p: Pull, send: nat)
    requires PullOk(p)
    ensures var t := PullAcked(p, send); p.delivered <= t.delivered && p.stream == t.stream
  {
    PullExact(p.size, |p.delivered|, p.published, send);
    hide PullOffer, PullTaken, Advanced, Available;
  }

  lemma StreamsGrow(s: Sys, step: Step, t: Sys)
    requires Next(s, step, t)
    ensures s.push.acked <= t.push.acked && s.push.received <= t.push.received
    ensures s.pull.stream <= t.pull.stream && s.pull.delivered <= t.pull.delivered
  {
    hide PushOk, PullOk, PushAcked, PullAcked, PushOffer, PullOffer, Checked, Relay;
    match step
    case AckPush(send) => PushAckedGrows(s.push, send);
    case AckPull(send) => PullAckedGrows(s.pull, send);
    case Work => RelayStreams(s);
    case _ =>
  }

  lemma {:induction false} RunGrows(states: seq<Sys>, steps: seq<Step>, m: nat, n: nat)
    requires Run(states, steps) && m <= n < |states|
    ensures states[m].push.acked <= states[n].push.acked && states[m].pull.stream <= states[n].pull.stream
    decreases n
  {
    hide Next, Init;
    if m < n {
      RunGrows(states, steps, m, n - 1);
      StreamsGrow(states[n - 1], steps[n - 1], states[n]);
    }
  }

  /** A push channel is a FIFO. In every state of every run the FPGA has read
      exactly the first bytes the user acknowledged, in order, and the bytes
      acknowledged earlier never change afterwards. The counters stay ordered
      and no more than size - 32 bytes are ever in flight. */
  lemma PushIsFifo(states: seq<Sys>, steps: seq<Step>, m: nat, n: nat)
    requires Run(states, steps) && m <= n < |states|
    ensures var p := states[n].push;
            p.received <= p.acked && states[m].push.acked <= p.acked && Words(p) &&
            p.freed <= |p.received| <= p.relayed <= |p.acked| <= p.freed + p.size - WORD
    ensures var p := states[n].push;
            p.size > 0 && forall i :: |p.received| <= i < |p.acked| ==> !InOffer(p, i)
  {
    hide Run, Stored, Exclusive, InOffer, PullOk, Whole, Size;
    RunInv(states, steps, n);
    RunGrows(states, steps, m, n);
    var p := states[n].push;
    forall i | |p.received| <= i < |p.acked| ensures !InOffer(p, i) {
      OfferedIsFree(p, i);
    }
  }

  /** A pull channel is a FIFO: the user is handed exactly the FPGA's bytes, and
      what it sees in the buffer before acknowledging is already final. */
  lemma PullIsFifo(states: seq<Sys>, steps: seq<Step>, m: nat, n: nat)
    requires Run(states, steps) && m <= n < |states|
    ensures var p := states[n].pull;
            p.delivered <= p.stream && states[m].pull.stream <= p.stream &&
            p.relayed <= |p.delivered| <= p.published <= |p.stream| < p.relayed + p.size
    ensures var p := states[n].pull;
            p.front + p.offered <= |p.buf| && |p.delivered| + p.offered <= |p.stream| &&
            p.buf[p.front..p.front + p.offered] == p.stream[|p.delivered|..|p.delivered| + p.offered]
  {
    hide Run, Stored, Exclusive, PushOk, Words, Size;
    RunInv(states, steps, n);
    RunGrows(states, steps, m, n);
    OfferedIsStream(states[n].pull);
  }
}
