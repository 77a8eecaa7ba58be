/** Transfers through the 64 KiB memory window of the PCIe BAR, and their
    combination with the DMA engine. */
module BarWindow {
  import opened DmaSpec
  import opened DmaInvariant
  import opened DmaTransfer
  import opened DmaMemory

  const WINDOW: nat := 0x1_0000   // ACL_PCIE_MEMWINDOW_SIZE
  const BUF: nat := PAGE          // BUF_SIZE
  const SIZE_T: nat := 8          // sizeof(size_t)
  const ALIGN: nat := 64          // DMA_ALIGNMENT_BYTES

  type Byte = bv8

  // ---------- copying byte by byte ----------

  function Set(m: Mem, at: nat, b: Byte): Mem { (a: nat) => if a == at then b else m(a) }

  /** One byte between a user address and a device address. */
  function MoveByte(pt: PageTable, m: Memory, reading: bool, host: nat, device: nat): Memory {
    if reading then m.(host := Set(m.host, Phys(pt, host), m.device(device)))
    else m.(device := Set(m.device, device, m.host(Phys(pt, host))))
  }

  /** n bytes, lowest address first. */
  function Move(pt: PageTable, m: Memory, reading: bool, host: nat, device: nat, n: nat): Memory {
    if n == 0 then m
    else MoveByte(pt, Move(pt, m, reading, host, device, n - 1), reading, host + n - 1, device + n - 1)
  }

  lemma {:induction false} MoveSplit(pt: PageTable, m: Memory, reading: bool, host: nat, device: nat, n: nat, k: nat)
    ensures Move(pt, Move(pt, m, reading, host, device, n), reading, host + n, device + n, k)
         == Move(pt, m, reading, host, device, n + k)
    decreases k
  {
    hide MoveByte;
    if k > 0 { MoveSplit(pt, m, reading, host, device, n, k - 1); }
  }

  /** m' is m after a memcpy: user byte k and device byte k agree, nothing else
      changed. Reading needs user pages that are different physical pages. */
  ghost predicate Moved(pt: PageTable, reading: bool, m: Memory, m': Memory, host: nat, device: nat, n: nat) {
    if reading then NoAlias(pt, host, n) ==> IsRead(pt, m, m', host, device, n) else IsWrite(pt, m, m', host, device, n)
  }

  lemma MovedByte(pt: PageTable, reading: bool, m: Memory, host: nat, device: nat)
    ensures Moved(pt, reading, m, MoveByte(pt, m, reading, host, device), host, device, 1)
  {}

  lemma MovedTwo(pt: PageTable, reading: bool, m: Memory, m1: Memory, m2: Memory,
          host: nat, device: nat, n: nat, k: nat)
    requires Moved(pt, reading, m, m1, host, device, n) && Moved(pt, reading, m1, m2, host + n, device + n, k)
    ensures Moved(pt, reading, m, m2, host, device, n + k)
  {}

  lemma NoAliasFirst(pt: PageTable, host: nat, n: nat, k: nat)
    requires NoAlias(pt, host, n + k)
    ensures NoAlias(pt, host, n)
  {}

  lemma MovedNone(pt: PageTable, reading: bool, m: Memory, host: nat, device: nat)
    ensures Moved(pt, reading, m, m, host, device, 0)
  {}

  /** Copying byte by byte is a memcpy. */
  lemma {:induction false} MoveIsCopy(pt: PageTable, reading: bool, m: Memory, host: nat, device: nat, n: nat)
    ensures Moved(pt, reading, m, Move(pt, m, reading, host, device, n), host, device, n)
    decreases n
  {
    hide Moved, MoveByte;
    if n == 0 {
      MovedNone(pt, reading, m, host, device);
    } else {
      MoveIsCopy(pt, reading, m, host, device, n - 1);
      var m1 := Move(pt, m, reading, host, device, n - 1);
      MovedByte(pt, reading, m1, host + (n - 1), device + (n - 1));
      MovedTwo(pt, reading, m, m1, Move(pt, m, reading, host, device, n), host, device, n - 1, 1);
    }
  }

  /** The same when the second part is copied first. */
  lemma MovedSwapped(pt: PageTable, reading: bool, m: Memory, m1: Memory, m2: Memory,
          host: nat, device: nat, n: nat, k: nat)
    requires Moved(pt, reading, m, m1, host + n, device + n, k) && Moved(pt, reading, m1, m2, host, device, n)
    ensures Moved(pt, reading, m, m2, host, device, n + k)
  {}

  // ---------- storing a run of bytes ----------

  function StoreUser(pt: PageTable, m: Mem, user: nat, bytes: seq<Byte>): Mem {
    if bytes == [] then m
    else Set(StoreUser(pt, m, user, bytes[..|bytes| - 1]), Phys(pt, user + |bytes| - 1), bytes[|bytes| - 1])
  }

  function StoreDevice(m: Mem, at: nat, bytes: seq<Byte>): Mem {
    if bytes == [] then m else Set(StoreDevice(m, at, bytes[..|bytes| - 1]), at + |bytes| - 1, bytes[|bytes| - 1])
  }

  lemma {:induction false} StoreDeviceAppend(m: Mem, at: nat, a: seq<Byte>, b: seq<Byte>)
    ensures StoreDevice(StoreDevice(m, at, a), at + |a|, b) == StoreDevice(m, at, a + b)
    decreases |b|
  {
    if b == [] {
      assert a + b == a;
    } else {
      StoreDeviceAppend(m, at, a, b[..|b| - 1]);
      assert (a + b)[..|a + b| - 1] == a + b[..|b| - 1];
    }
  }

  lemma {:induction false} MoveReads(pt: PageTable, m: Memory, user: nat, device: nat, bytes: seq<Byte>)
    requires forall k :: 0 <= k < |bytes| ==> bytes[k] == m.device(device + k)
    ensures Move(pt, m, true, user, device, |bytes|) == m.(host := StoreUser(pt, m.host, user, bytes))
    decreases |bytes|
  {
    if bytes != [] { MoveReads(pt, m, user, device, bytes[..|bytes| - 1]); }
  }

  lemma {:induction false} MoveWrites(pt: PageTable, m: Memory, user: nat, device: nat, bytes: seq<Byte>)
    requires forall k :: 0 <= k < |bytes| ==> bytes[k] == m.host(Phys(pt, user + k))
    ensures Move(pt, m, false, user, device, |bytes|) == m.(device := StoreDevice(m.device, device, bytes))
    decreases |bytes|
  {
    if bytes != [] { MoveWrites(pt, m, user, device, bytes[..|bytes| - 1]); }
  }
}
