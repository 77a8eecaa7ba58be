/** The user side of a host channel: get_buffer and ack_buffer on the wrapped
    pointers of a circular buffer.

    Push moves data from the user to the FPGA, pull the other way. The bytes
    acknowledged, published and consumed so far are counted by unbounded
    counters; the pointers in memory are these counters modulo the size. */
module HostChannel {
  import opened Modular

  const WORD: nat := 32           // the FPGA consumes 32-byte words
  const PUSH_ID: int := 10        // ACL_HOST_CHANNEL_0_ID
  const PULL_ID: int := 11        // ACL_HOST_CHANNEL_1_ID
  const CLOSED: int := -11        // ERROR_CHANNEL_CLOSED
  const INVALID: int := -12       // ERROR_INVALID_CHANNEL

  // ---------- pointer arithmetic ----------

  /** Free bytes of a push buffer; one word always stays free. */
  function Space(size: nat, end: nat, front: nat): int {
    if end > front then size - end + front - WORD
    else if end < front then front - end - WORD
    else size - WORD
  }

  /** Bytes waiting in a pull buffer. */
  function Available(size: nat, end: nat, front: nat): int {
    if end > front then end - front
    else if end < front then size - front + end
    else 0
  }

  /** The part of n bytes from `local` on that comes before the wrap. */
  function Contiguous(size: nat, local: nat, n: int): int {
    if size > local + n then n else size - local
  }

  function Advanced(size: nat, local: nat, n: int): int {
    if local + n >= size then 0 else local + n
  }

  function RoundDown(n: nat): nat { n / WORD * WORD }

  /** The largest number of whole words in n bytes. */
  lemma WholeWords(n: nat)
    ensures RoundDown(n) % WORD == 0 && RoundDown(n) <= n < RoundDown(n) + WORD
  {}

  /** `front` bytes freed by the FPGA and `acked` bytes handed over. */
  predicate PushCounters(size: nat, front: nat, acked: nat) {
    size >= WORD && front <= acked <= front + size - WORD
  }

  /** `front` bytes freed by the user and `end` bytes published by the FPGA. */
  predicate PullCounters(size: nat, front: nat, end: nat) {
    size > 0 && front <= end < front + size
  }

  lemma SpaceLeft(size: nat, front: nat, acked: nat)
    requires PushCounters(size, front, acked)
    ensures Space(size, acked % size, front % size) == size - WORD - (acked - front)
  {
    ModAdd(front, acked - front, size);
  }

  lemma DataLeft(size: nat, front: nat, end: nat)
    requires PullCounters(size, front, end)
    ensures Available(size, end % size, front % size) == end - front
  {
    ModAdd(front, end - front, size);
  }

  /** Acknowledging n bytes moves the pointer to the position of the counter,
      also when it wraps. */
  lemma AdvancedPosition(size: nat, count: nat, n: nat)
    requires size > 0
    ensures var k := Contiguous(size, count % size, n);
            0 <= k <= n && k <= size - count % size && Advanced(size, count % size, n) == (count + k) % size
  {
    ModAdd(count, Contiguous(size, count % size, n), size);
  }

  // ---------- what the two calls return ----------

  function PushOffer(size: nat, end: nat, front: nat): int { Contiguous(size, end, Space(size, end, front)) }

  function PushTaken(size: nat, end: nat, front: nat, send: nat): int {
    Contiguous(size, end, Min(RoundDown(send), Space(size, end, front)))
  }

  function PullOffer(size: nat, end: nat, front: nat): int { Contiguous(size, front, Available(size, end, front)) }

  function PullTaken(size: nat, end: nat, front: nat, send: nat): int {
    Contiguous(size, front, Min(send, Available(size, end, front)))
  }

  /** get_buffer offers exactly the free bytes up to the end of the buffer, and
      ack_buffer takes the whole words among them, for any request. */
  lemma PushExact(size: nat, front: nat, acked: nat, send: nat)
    requires PushCounters(size, front, acked)
    ensures var free := size - WORD - (acked - front);
            PushOffer(size, acked % size, front % size) == Min(free, size - acked % size) >= 0 &&
            PushTaken(size, acked % size, front % size, send)
              == Min(Min(RoundDown(send), free), size - acked % size) >= 0
    ensures PushOffer(size, acked % size, front % size) == 0 <==> acked - front == size - WORD
  {
    SpaceLeft(size, front, acked);
  }

  lemma PullExact(size: nat, front: nat, end: nat, send: nat)
    requires PullCounters(size, front, end)
    ensures PullOffer(size, end % size, front % size) == Min(end - front, size - front % size) &&
            PullTaken(size, end % size, front % size, send) == Min(Min(send, end - front), size - front % size)
    ensures PullOffer(size, end % size, front % size) == 0 <==> front == end
  {
    DataLeft(size, front, end);
  }

  /** The ack contract of push: acknowledging no more than was offered is taken
      in full, rounded down to words, whatever the FPGA freed in between. */
  lemma PushAck(size: nat, front: nat, front': nat, acked: nat, send: nat)
    requires PushCounters(size, front, acked) && front <= front' <= acked
    requires send <= PushOffer(size, acked % size, front % size)
    ensures PushTaken(size, acked % size, front' % size, send) == RoundDown(send)
  {
    PushExact(size, front, acked, send);
    PushExact(size, front', acked, send);
  }

  /** The ack contract of pull: taken in full, to the byte. */
  lemma PullAck(size: nat, front: nat, end: nat, end': nat, send: nat)
    requires PullCounters(size, front, end) && end <= end' < front + size
    requires send <= PullOffer(size, end % size, front % size)
    ensures PullTaken(size, end' % size, front % size, send) == send
  {
    PullExact(size, front, end, send);
    PullExact(size, front, end', send);
  }

  // ---------- the host object ----------

  class Channels {
    var pushValid: bool
    var pushSize: nat
    var pushLocalEnd: nat
    var pushEnd: nat        // *m_push_queue_end_p, read by the driver
    var pushFront: nat      // *m_push_queue_front_p, written by the FPGA
    var pullValid: bool
    var pullSize: nat
    var pullAvailable: nat
    var pullLocalFront: nat
    var pullFront: nat      // *m_pull_queue_front_p, read by the driver
    var pullEnd: nat        // *m_pull_queue_end_p, written by the FPGA
    var syncValid: bool     // m_sync_thread_valid
    var syncWord: nat       // *m_sync_thread, shared with the driver
    var syncCalls: nat      // thread-sync commands sent to the driver so far
    ghost var pushed: nat   // bytes acknowledged on push
    ghost var freed: nat    // bytes the FPGA has freed on push
    ghost var pulled: nat   // bytes acknowledged on pull
    ghost var filled: nat   // bytes the FPGA has published on pull

    ghost predicate Valid()
      reads this
    {
      (pushValid ==>
         PushCounters(pushSize, freed, pushed) &&
         pushEnd == pushLocalEnd == pushed % pushSize && pushFront == freed % pushSize) &&
      (pullValid ==>
         PullCounters(pullSize, pulled, filled) &&
         pullFront == pullLocalFront == pulled % pullSize && pullEnd == filled % pullSize)
    }

    // free bytes of the push buffer
    method PushAvailable() returns (avail: nat)
      requires Valid() && pushValid
      ensures avail == Space(pushSize, pushEnd, pushFront)
    {
      SpaceLeft(pushSize, freed, pushed);
      var end, front := pushEnd, pushFront;
      if end > front {
        avail := pushSize - end + front - WORD;
      } else if end < front {
        avail := front - end - WORD;
      } else {
        avail := pushSize - WORD;
      }
    }

    // bytes waiting in the pull buffer
    method PullAvailable() returns (avail: nat)
      requires Valid() && pullValid
      ensures avail == Available(pullSize, pullEnd, pullFront)
    {
      DataLeft(pullSize, pulled, filled);
      var end, front := pullEnd, pullFront;
      if end > front {
        avail := end - front;
      } else if end < front {
        avail := pullSize - front + end;
      } else {
        avail := 0;
      }
    }

    // Returns an offset into the channel's buffer, or -1 for NULL.
    method GetBuffer(channel: int) returns (offset: int, size: nat, status: int)
      requires Valid()
      modifies this`pullAvailable
      ensures channel == PUSH_ID && pushValid ==>
                status == 0 && size == PushOffer(pushSize, pushEnd, pushFront) &&
                offset == if pushed - freed < pushSize - WORD then pushed % pushSize else -1
      ensures channel == PULL_ID && pullValid ==>
                status == 0 && size == PullOffer(pullSize, pullEnd, pullFront) &&
                offset == if pulled < filled then pulled % pullSize else -1
      ensures (channel == PUSH_ID && !pushValid) || (channel == PULL_ID && !pullValid) ==>
                status == CLOSED && size == 0 && offset == -1
      ensures channel != PUSH_ID && channel != PULL_ID ==> status == INVALID && size == 0 && offset == -1
    {
      if channel == PUSH_ID {
        if !pushValid { return -1, 0, CLOSED; }
        PushExact(pushSize, freed, pushed, 0);
        var avail := PushAvailable();
        var cont := if pushSize > pushLocalEnd + avail then avail else pushSize - pushLocalEnd;
        var loop := if pushSize > pushLocalEnd + avail then 0 else pushLocalEnd + avail - pushSize;
        if cont > 0 {
          return pushLocalEnd, cont, 0;
        } else if loop > 0 {
          assert false;           // nothing free before the wrap means nothing free
        } else {
          return -1, 0, 0;
        }
      } else if channel == PULL_ID {
        if !pullValid { return -1, 0, CLOSED; }
        PullExact(pullSize, pulled, filled, 0);
        pullAvailable := PullAvailable();
        var cont := if pullSize > pullLocalFront + pullAvailable then pullAvailable else pullSize - pullLocalFront;
        var loop := if pullSize > pullLocalFront + pullAvailable then 0 else pullLocalFront + pullAvailable - pullSize;
        if cont > 0 {
          return pullLocalFront, cont, 0;
        } else if loop > 0 {
          assert false;           // nothing to read before the wrap means nothing to read
        } else {
          return -1, 0, 0;
        }
      } else {
        return -1, 0, INVALID;
      }
    }

    // sync_thread: the driver is asked to queue its relay when the word is clear
    method SyncThread() returns (status: int)
      modifies this`syncCalls
      ensures var wake := syncValid && syncWord == 0;
              syncCalls == (if wake then old(syncCalls) + 1 else old(syncCalls)) && status == if wake then 0 else 1
    {
      if syncValid && syncWord == 0 {
        syncCalls := syncCalls + 1;
        return 0;
      }
      return 1;
    }

    method AckPush(send: nat) returns (n: nat)
      requires Valid() && pushValid
      modifies this`pushLocalEnd, this`pushEnd, this`pushed, this`syncCalls
      ensures Valid() && pushed == old(pushed) + n && n == PushTaken(pushSize, old(pushEnd), pushFront, send)
      ensures syncCalls == old(syncCalls) + if syncValid && syncWord == 0 then 1 else 0
    {
      hide Space;
      PushExact(pushSize, freed, pushed, send);
      var avail := PushAvailable();
      var userWords := send / WORD;
      var current := if userWords * WORD > avail then avail else userWords * WORD;
      AdvancedPosition(pushSize, pushed, current);
      n := if pushSize > pushLocalEnd + current then current else pushSize - pushLocalEnd;
      pushLocalEnd := if pushLocalEnd + current >= pushSize then 0 else pushLocalEnd + current;
      pushEnd := pushLocalEnd;
      pushed := pushed + n;
      var status := SyncThread();
    }

    method AckPull(send: nat) returns (n: nat)
      requires Valid() && pullValid
      modifies this`pullAvailable, this`pullLocalFront, this`pullFront, this`pulled, this`syncCalls
      ensures Valid() && pulled == old(pulled) + n && n == PullTaken(pullSize, pullEnd, old(pullFront), send)
      ensures syncCalls == old(syncCalls) + if syncValid && syncWord == 0 then 1 else 0
    {
      hide Available;
      PullExact(pullSize, pulled, filled, send);
      pullAvailable := PullAvailable();
      var driverPulled := if send > pullAvailable then pullAvailable else send;
      AdvancedPosition(pullSize, pulled, driverPulled);
      n := if pullSize > pullLocalFront + driverPulled then driverPulled else pullSize - pullLocalFront;
      pullLocalFront := if pullLocalFront + driverPulled >= pullSize then 0 else pullLocalFront + driverPulled;
      pullFront := pullLocalFront;
      pulled := pulled + n;
      var status := SyncThread();
    }

    method AckBuffer(send: nat, channel: int) returns (n: nat, status: int)
      requires Valid()
      modifies this`pushLocalEnd, this`pushEnd, this`pushed,
               this`pullAvailable, this`pullLocalFront, this`pullFront, this`pulled, this`syncCalls
      ensures Valid()
      ensures var open := (channel == PUSH_ID && pushValid) || (channel == PULL_ID && pullValid);
              syncCalls == old(syncCalls) + if open && syncValid && syncWord == 0 then 1 else 0
      ensures if channel == PUSH_ID && pushValid then
                status == 0 && pushed == old(pushed) + n && n == PushTaken(pushSize, old(pushEnd), pushFront, send)
              else pushed == old(pushed) && pushEnd == old(pushEnd)
      ensures if channel == PULL_ID && pullValid then
                status == 0 && pulled == old(pulled) + n && n == PullTaken(pullSize, pullEnd, old(pullFront), send)
              else pulled == old(pulled) && pullFront == old(pullFront)
      ensures (channel == PUSH_ID && !pushValid) || (channel == PULL_ID && !pullValid) ==> status == CLOSED && n == 0
      ensures channel != PUSH_ID && channel != PULL_ID ==> status == INVALID && n == 0
    {
      if channel == PUSH_ID {
        if !pushValid { return 0, CLOSED; }
        n := AckPush(send);
        status := 0;
      } else if channel == PULL_ID {
        if !pullValid { return 0, CLOSED; }
        n := AckPull(send);
        status := 0;
      } else {
        return 0, INVALID;
      }
    }
  }
}
