/** The board behind its memory window as the driver accesses it, and the device
    object of the user-space layer. */
module BarDevice {
  import opened DmaSpec
  import opened DmaInvariant
  import opened DmaTransfer
  import opened DmaMemory
  import opened DmaEngine
  import opened BarWindow
  import opened Modular

  /** The accesses every window position allows: one byte, or whole aligned words. */
  predicate Plain(rel: nat, n: nat) { n == 1 || (n % SIZE_T == 0 && rel % SIZE_T == 0) }

  /** The bytes of a range that lie outside its whole aligned words. */
  function Odd(at: nat, size: nat): nat {
    var odd := (SIZE_T - at % SIZE_T) % SIZE_T;
    if size <= odd then size else odd + (size - odd) % SIZE_T
  }

  /** Host and device memory, the window register of the hardware and the
      driver's bounce buffer. */
  class Board {
    const pt: PageTable
    const buffer: array<Byte>
    var mem: Memory
    var window: nat
    ghost var moved: nat      // bytes that crossed the window so far
    ghost var plain: bool     // whether every access was plain
    ghost var singles: nat    // accesses of one byte
    ghost var shifts: nat     // writes of the window register

    ghost predicate Valid() { buffer.Length == BUF }

    constructor (pt: PageTable, mem: Memory, window: nat)
      ensures Valid() && fresh(buffer) && this.pt == pt && this.mem == mem && this.window == window
    {
      this.pt := pt;
      buffer := new Byte[BUF](_ => 0);
      this.mem := mem;
      this.window := window;
      moved := 0;
      plain := true;
      singles := 0;
      shifts := 0;
    }

    // aclpci_read_small and aclpci_write_small
    method Small(rel: nat, user: nat, n: nat, reading: bool)
      requires (n == 1 || n == 2 || n == 4 || n == 8) && rel + n <= WINDOW
      modifies this`mem, this`moved
      ensures mem == Move(pt, old(mem), reading, user, window + rel, n) && moved == old(moved) + n
    {
      var at, m := window + rel, mem;
      if reading {
        var bytes := seq(n, k requires 0 <= k < n => m.device(at + k));
        MoveReads(pt, mem, user, at, bytes);
        mem := mem.(host := StoreUser(pt, mem.host, user, bytes));
      } else {
        var bytes := seq(n, k requires 0 <= k < n => m.host(Phys(pt, user + k)));
        MoveWrites(pt, mem, user, at, bytes);
        mem := mem.(device := StoreDevice(mem.device, at, bytes));
      }
      moved := moved + n;
    }

    // The device side of one chunk of aclpci_rw_large, reading: 32-bit words,
    // then the bytes a word does not cover.
    method FillBuffer(rel: nat, chunk: nat)
      requires Valid() && chunk <= BUF && rel + chunk <= WINDOW
      modifies buffer, this`moved
      ensures forall k :: 0 <= k < chunk ==> buffer[k] == mem.device(window + rel + k)
      ensures moved == old(moved) + chunk
    {
      var at := window + rel;
      for i := 0 to chunk / 4
        invariant forall k :: 0 <= k < 4 * i ==> buffer[k] == mem.device(at + k)
        invariant moved == old(moved) + 4 * i
      {
        buffer[4 * i], buffer[4 * i + 1] := mem.device(at + 4 * i), mem.device(at + 4 * i + 1);
        buffer[4 * i + 2], buffer[4 * i + 3] := mem.device(at + 4 * i + 2), mem.device(at + 4 * i + 3);
        moved := moved + 4;
      }
      var offset := chunk / 4 * 4;
      for i := 0 to chunk - offset
        invariant forall k :: 0 <= k < offset + i ==> buffer[k] == mem.device(at + k)
        invariant moved == old(moved) + offset + i
      {
        buffer[offset + i] := mem.device(at + offset + i);
        moved := moved + 1;
      }
    }

    // the same, writing
    method DrainBuffer(rel: nat, chunk: nat)
      requires Valid() && chunk <= BUF && rel + chunk <= WINDOW
      modifies this`mem, this`moved
      ensures mem == old(mem).(device := StoreDevice(old(mem).device, window + rel, buffer[..chunk]))
      ensures moved == old(moved) + chunk
    {
      hide StoreDevice;
      var at := window + rel;
      StoreDeviceNone(mem.device, at);
      for i := 0 to chunk / 4
        invariant mem == old(mem).(device := StoreDevice(old(mem).device, at, buffer[..4 * i]))
        invariant moved == old(moved) + 4 * i
      {
        StoreDeviceAppend(old(mem).device, at, buffer[..4 * i], buffer[4 * i..4 * i + 4]);
        assert buffer[..4 * i] + buffer[4 * i..4 * i + 4] == buffer[..4 * (i + 1)];
        mem := mem.(device := StoreDevice(mem.device, at + 4 * i, buffer[4 * i..4 * i + 4]));
        moved := moved + 4;
      }
      var offset := chunk / 4 * 4;
      for i := 0 to chunk - offset
        invariant mem == old(mem).(device := StoreDevice(old(mem).device, at, buffer[..offset + i]))
        invariant moved == old(moved) + offset + i
      {
        StoreDeviceSnoc(old(mem).device, at, buffer[..offset + i + 1]);
        assert buffer[..offset + i + 1][..offset + i] == buffer[..offset + i];
        mem := mem.(device := Set(mem.device, at + offset + i, buffer[offset + i]));
        moved := moved + 1;
      }
    }

    method CopyFromUser(user: nat, chunk: nat)
      requires Valid() && chunk <= BUF
      modifies buffer
      ensures forall k :: 0 <= k < chunk ==> buffer[k] == mem.host(Phys(pt, user + k))
    {
      for k := 0 to chunk
        invariant forall i :: 0 <= i < k ==> buffer[i] == mem.host(Phys(pt, user + i))
      {
        buffer[k] := mem.host(Phys(pt, user + k));
      }
    }

    // one chunk of aclpci_rw_large
    method Chunk(rel: nat, user: nat, chunk: nat, reading: bool)
      requires Valid() && chunk <= BUF && rel + chunk <= WINDOW
      modifies this`mem, this`moved, buffer
      ensures mem == Move(pt, old(mem), reading, user, window + rel, chunk) && moved == old(moved) + chunk
    {
      hide Move, StoreUser, StoreDevice, Phys;
      if reading {
        FillBuffer(rel, chunk);
        MoveReads(pt, mem, user, window + rel, buffer[..chunk]);
        mem := mem.(host := StoreUser(pt, mem.host, user, buffer[..chunk]));
      } else {
        CopyFromUser(user, chunk);
        MoveWrites(pt, mem, user, window + rel, buffer[..chunk]);
        DrainBuffer(rel, chunk);
      }
    }

    method RwLarge(rel: nat, user: nat, len: nat, reading: bool)
      requires Valid() && rel + len <= WINDOW
      modifies this`mem, this`moved, buffer
      ensures mem == Move(pt, old(mem), reading, user, window + rel, len) && moved == old(moved) + len
    {
      hide Move;
      MoveNone(pt, mem, reading, user, window + rel);
      var bytesLeft := len;
      var devAddr, userAddr := rel, user;
      while bytesLeft > 0
        invariant 0 <= bytesLeft <= len && devAddr == rel + (len - bytesLeft) && userAddr == user + (len - bytesLeft)
        invariant mem == Move(pt, old(mem), reading, user, window + rel, len - bytesLeft)
        invariant moved == old(moved) + (len - bytesLeft)
      {
        var chunk := if bytesLeft < BUF then bytesLeft else BUF;
        Chunk(devAddr, userAddr, chunk, reading);
        MoveSplit(pt, old(mem), reading, user, window + rel, len - bytesLeft, chunk);
        devAddr := devAddr + chunk;
        userAddr := userAddr + chunk;
        bytesLeft := bytesLeft - chunk;
      }
    }

    // one read or write call on the window: aclpci_rw without DMA
    method Access(rel: nat, user: nat, n: nat, reading: bool)
      requires Valid() && rel + n <= WINDOW
      modifies this`mem, this`moved, this`plain, this`singles, buffer
      ensures mem == Move(pt, old(mem), reading, user, window + rel, n) && moved == old(moved) + n
      ensures plain == (old(plain) && Plain(rel, n)) && singles == old(singles) + if n == 1 then 1 else 0
    {
      if n == 1 || n == 2 || n == 4 || n == 8 {
        Small(rel, user, n, reading);
      } else {
        RwLarge(rel, user, n, reading);
      }
      plain, singles := plain && Plain(rel, n), singles + if n == 1 then 1 else 0;
    }

    method SetWindow(segment: nat)
      modifies this`window, this`shifts
      ensures window == segment && shifts == old(shifts) + 1
    {
      window, shifts := segment, shifts + 1;
    }
  }

  lemma StoreDeviceNone(m: Mem, at: nat)
    ensures StoreDevice(m, at, []) == m
  {}

  lemma StoreDeviceSnoc(m: Mem, at: nat, bytes: seq<Byte>)
    requires bytes != []
    ensures var n := |bytes| - 1; StoreDevice(m, at, bytes) == Set(StoreDevice(m, at, bytes[..n]), at + n, bytes[n])
  {}

  lemma MoveNone(pt: PageTable, m: Memory, reading: bool, host: nat, device: nat)
    ensures Move(pt, m, reading, host, device, 0) == m
  {}

  class Device {
    const board: Board
    const engine: Engine
    const useDma: bool
    var segment: nat        // m_segment

    /** The cached segment is the one in the hardware. */
    ghost predicate Valid()
      reads this, board
    {
      board.Valid() && segment == board.window
    }

    constructor (board: Board, engine: Engine, useDma: bool)
      requires board.Valid()
      modifies board
      ensures Valid() && this.board == board && this.engine == engine && this.useDma == useDma
      ensures board.mem == old(board.mem)
    {
      this.board := board;
      this.engine := engine;
      this.useDma := useDma;
      segment := 0xFFFF_FFFF_FFFF_FFFF;
      new;
      SetSegment(0);
    }

    method SetSegment(addr: nat)
      requires segment == board.window || segment % WINDOW != 0
      modifies this`segment, board`window, board`shifts
      ensures segment == board.window == addr - addr % WINDOW
      ensures board.shifts == old(board.shifts) + if segment == old(segment) then 0 else 1
    {
      var current := addr - addr % WINDOW;
      Multiple(addr);
      if current != segment {
        board.SetWindow(current);
        segment := current;
      }
    }

    method ReadWriteSmallSize(host: nat, rel: nat, size: nat, reading: bool)
      requires Valid() && rel + size <= WINDOW
      modifies board`mem, board`moved, board`plain, board`singles, board.buffer
      ensures board.mem == Move(board.pt, old(board.mem), reading, host, segment + rel, size)
      ensures board.moved == old(board.moved) + size && board.plain == old(board.plain)
      ensures board.singles == old(board.singles) + size
    {
      hide Move;
      MoveNone(board.pt, board.mem, reading, host, segment + rel);
      for i := 0 to size
        invariant board.mem == Move(board.pt, old(board.mem), reading, host, segment + rel, i)
        invariant board.moved == old(board.moved) + i && board.plain == old(board.plain)
        invariant board.singles == old(board.singles) + i
      {
        board.Access(rel + i, host + i, 1, reading);
        MoveSplit(board.pt, old(board.mem), reading, host, segment + rel, i, 1);
      }
    }

    // one round of the loop of read_write_block_bar, inside one window position
    method Window(host: nat, rel: nat, size: nat, reading: bool)
      requires Valid() && 0 < size && rel + size <= WINDOW
      modifies board`mem, board`moved, board`plain, board`singles, board.buffer
      ensures board.mem == Move(board.pt, old(board.mem), reading, host, segment + rel, size)
      ensures board.moved == old(board.moved) + size && board.plain == old(board.plain)
      ensures board.singles == old(board.singles) + Odd(rel, size)
    {
      hide Move;
      ghost var m := board.mem;
      MoveNone(board.pt, m, reading, host, segment + rel);
      var curSize, ptr, curHost := size, rel, host;
      var oddStart := Min(SIZE_T - ptr % SIZE_T, curSize);
      if oddStart != SIZE_T {
        ReadWriteSmallSize(curHost, ptr, oddStart, reading);
        curHost, ptr := curHost + oddStart, ptr + oddStart;
        curSize := curSize - oddStart;
      }
      ghost var n := ptr - rel;
      var tail := curSize % SIZE_T;
      var mul8 := curSize - tail;
      OddStart(rel, size, ptr, curSize);
      if mul8 != 0 {
        board.Access(ptr, curHost, mul8, reading);
        MoveSplit(board.pt, m, reading, host, segment + rel, n, mul8);
        curHost, ptr := curHost + mul8, ptr + mul8;
      }
      if tail != 0 {
        ReadWriteSmallSize(curHost, ptr, tail, reading);
        MoveSplit(board.pt, m, reading, host, segment + rel, n + mul8, tail);
      }
    }

    method ReadWriteBlockBar(host: nat, device: nat, size: nat, reading: bool)
      requires Valid()
      modifies this`segment, board, board.buffer
      ensures Valid() && board.mem == Move(board.pt, old(board.mem), reading, host, device, size)
      ensures board.moved == old(board.moved) + size && board.plain == old(board.plain)
      ensures board.singles == old(board.singles) + Odd(device, size)
    {
      hide Move;
      MoveNone(board.pt, board.mem, reading, host, device);
      var curHost, curDevice, done := host, device, 0;
      while done < size
        invariant Valid() && done <= size && curHost == host + done && curDevice == device + done
        invariant board.mem == Move(board.pt, old(board.mem), reading, host, device, done)
        invariant board.moved == old(board.moved) + done && board.plain == old(board.plain)
        invariant board.singles == old(board.singles) + Odd(device, done) && (done < size ==> UpToWord(device, done))
      {
        var curSize := WINDOW - curDevice % WINDOW;
        if done + curSize >= size {
          curSize := size - done;
        }
        SetSegment(curDevice);
        Window(curHost, curDevice % WINDOW, curSize, reading);
        MoveSplit(board.pt, old(board.mem), reading, host, device, done, curSize);
        curHost := curHost + curSize;
        curDevice := curDevice + curSize;
        OddSplit(device, done, curSize, size);
        done := done + curSize;
      }
    }
  }

  lemma Multiple(addr: nat)
    ensures (addr - addr % WINDOW) % WINDOW == 0
  {}

  /** After the odd bytes at the start, what is left is word aligned or nothing,
      and the odd bytes with the tail are those outside whole words. */
  lemma OddStart(rel: nat, size: nat, ptr: nat, left: nat)
    requires var odd := Min(SIZE_T - rel % SIZE_T, size);
             if odd == SIZE_T then ptr == rel && left == size else ptr == rel + odd && left == size - odd
    ensures left >= SIZE_T ==> ptr % SIZE_T == 0
    ensures Odd(rel, size) == (ptr - rel) + left % SIZE_T
  {}

  /** Nothing done yet, or up to a word boundary. */
  predicate UpToWord(device: nat, done: nat) { done == 0 || (device + done) % SIZE_T == 0 }

  /** The next part of a block, up to the end of its window or of the block. */
  lemma OddSplit(device: nat, done: nat, n: nat, size: nat)
    requires UpToWord(device, done) && done + n <= size && 0 < n <= WINDOW - (device + done) % WINDOW
    requires done + n < size ==> n == WINDOW - (device + done) % WINDOW
    ensures Odd(device, done + n) == Odd(device, done) + Odd((device + done) % WINDOW, n)
    ensures done + n < size ==> UpToWord(device, done + n)
  {
    WindowWords(device + done, n);
    if done > 0 { OddAfter(device, done, n); }
  }

  lemma WindowWords(at: nat, n: nat)
    ensures at % WINDOW % SIZE_T == at % SIZE_T
    ensures n == WINDOW - at % WINDOW ==> (at + n) % SIZE_T == 0
  {}

  lemma OddAfter(device: nat, done: nat, n: nat)
    requires (device + done) % SIZE_T == 0 && done > 0
    ensures Odd(device, done + n) == Odd(device, done) + n % SIZE_T && Odd(device + done, n) == n % SIZE_T
  {
    var odd := (SIZE_T - device % SIZE_T) % SIZE_T;
    ToBoundary(device, done);
    var k := (done - odd) / SIZE_T;
    assert done == odd + SIZE_T * k;
    AddWords(n, k);
    AddWords(0, k);
  }

  lemma ToBoundary(device: nat, done: nat)
    requires (device + done) % SIZE_T == 0 && done > 0
    ensures var odd := (SIZE_T - device % SIZE_T) % SIZE_T; done >= odd && (done - odd) % SIZE_T == 0
  {}

  lemma AddWords(n: nat, k: nat)
    ensures (SIZE_T * k + n) % SIZE_T == n % SIZE_T
  {}
}
