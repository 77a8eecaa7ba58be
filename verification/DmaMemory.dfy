/** What the controller does with a tiling list of descriptors: a memcpy. */
module DmaMemory {
  import opened DmaSpec
  import opened DmaInvariant
  import opened DmaTransfer

  // Byte contents of host physical memory and of device memory.
  type Mem = nat -> bv8
  datatype Memory = Memory(host: Mem, device: Mem)

  function Copied(to: Mem, dest: nat, from: Mem, src: nat, n: nat): Mem {
    (a: nat) => if dest <= a < dest + n then from(src + (a - dest)) else to(a)
  }

  /** The controller executes one descriptor. */
  function Exec(m: Memory, reading: bool, d: Desc): Memory {
    if reading then m.(host := Copied(m.host, d.dest, m.device, d.src, 4 * d.words))
    else m.(device := Copied(m.device, d.dest, m.host, d.src, 4 * d.words))
  }

  function ExecAll(m: Memory, reading: bool, ds: seq<Desc>): Memory
    decreases |ds|
  {
    if ds == [] then m else ExecAll(Exec(m, reading, ds[0]), reading, ds[1..])
  }

  /** Memory after the batches bs, in the order they were sent. */
  function ExecLog(m: Memory, bs: seq<Batch>): Memory {
    if bs == [] then m
    else ExecAll(ExecLog(m, bs[..|bs|-1]), bs[|bs|-1].reading, bs[|bs|-1].descs)
  }

  /** No two bytes of the user range share a physical byte. */
  ghost predicate NoAlias(pt: PageTable, host: nat, n: nat) {
    forall i, j :: host <= i < j < host + n ==> Phys(pt, i) != Phys(pt, j)
  }

  /** Different pages of the range lie in different frames. */
  ghost predicate DistinctFrames(pt: PageTable, host: nat, n: nat) {
    forall p, q :: host / PAGE <= p < q && q * PAGE < host + n ==> pt(p) != pt(q)
  }

  lemma DistinctFramesNoAlias(pt: PageTable, host: nat, n: nat)
    requires DistinctFrames(pt, host, n)
    ensures NoAlias(pt, host, n)
  {}

  lemma PhysInPage(pt: PageTable, host: nat, k: nat)
    requires host % PAGE + k < PAGE
    ensures Phys(pt, host + k) == Phys(pt, host) + k
  {}

  lemma Head(pt: PageTable, m: Memory, reading: bool, ds: seq<Desc>, host: nat, device: nat)
    requires Tiles(pt, reading, ds, host, device) && ds != []
    ensures var n := 4 * ds[0].words;
            Tile(pt, reading, ds[0], host, device) && Tiles(pt, reading, ds[1..], host + n, device + n) &&
            Total(ds) == n + Total(ds[1..]) &&
            ExecAll(m, reading, ds) == ExecAll(Exec(m, reading, ds[0]), reading, ds[1..])
  {}

  /** A write moves user byte k to device byte k and touches nothing else. */
  ghost predicate IsWrite(pt: PageTable, m: Memory, m': Memory, host: nat, device: nat, n: nat) {
    m'.host == m.host &&
    forall a: nat ::
      m'.device(a) == if device <= a < device + n then m.host(Phys(pt, host + (a - device))) else m.device(a)
  }

  /** The physical byte a belongs to the user range. */
  ghost predicate InImage(pt: PageTable, host: nat, n: nat, a: nat) {
    exists v: nat :: host <= v < host + n && Phys(pt, v) == a
  }

  /** A read moves device byte k to user byte k and touches nothing else. */
  ghost predicate IsRead(pt: PageTable, m: Memory, m': Memory, host: nat, device: nat, n: nat) {
    m'.device == m.device &&
    (forall v: nat {:trigger Phys(pt, v)} :: host <= v < host + n ==>
       m'.host(Phys(pt, v)) == m.device(device + (v - host))) &&
    (forall a: nat {:trigger m'.host(a)} :: !InImage(pt, host, n, a) ==> m'.host(a) == m.host(a))
  }

  lemma WriteNone(pt: PageTable, m: Memory, host: nat, device: nat)
    ensures IsWrite(pt, m, m, host, device, 0)
  {}

  lemma ReadNone(pt: PageTable, m: Memory, host: nat, device: nat)
    ensures IsRead(pt, m, m, host, device, 0)
  {}

  lemma WriteOne(pt: PageTable, m: Memory, d: Desc, host: nat, device: nat)
    requires Tile(pt, false, d, host, device)
    ensures IsWrite(pt, m, Exec(m, false, d), host, device, 4 * d.words)
  {
    var m' := Exec(m, false, d);
    forall a: nat ensures m'.device(a) == if device <= a < device + 4 * d.words
                                           then m.host(Phys(pt, host + (a - device))) else m.device(a)
    {
      if device <= a < device + 4 * d.words { PhysInPage(pt, host, a - device); }
    }
  }

  lemma WriteTwo(pt: PageTable, m: Memory, m1: Memory, m2: Memory, host: nat, device: nat, n: nat, k: nat)
    requires IsWrite(pt, m, m1, host, device, n) && IsWrite(pt, m1, m2, host + n, device + n, k)
    ensures IsWrite(pt, m, m2, host, device, n + k)
  {}

  /** Descriptors that tile a request to the device are a memcpy to it. */
  lemma {:induction false} TilesWrite(pt: PageTable, ds: seq<Desc>, host: nat, device: nat, m: Memory)
    requires Tiles(pt, false, ds, host, device)
    ensures IsWrite(pt, m, ExecAll(m, false, ds), host, device, Total(ds))
    decreases |ds|
  {
    hide IsWrite, Tile, Exec, Tiles;
    if ds == [] {
      WriteNone(pt, m, host, device);
    } else {
      Head(pt, m, false, ds, host, device);
      var n, m1 := 4 * ds[0].words, Exec(m, false, ds[0]);
      WriteOne(pt, m, ds[0], host, device);
      TilesWrite(pt, ds[1..], host + n, device + n, m1);
      WriteTwo(pt, m, m1, ExecAll(m, false, ds), host, device, n, Total(ds[1..]));
    }
  }

  lemma ReadOne(pt: PageTable, m: Memory, d: Desc, host: nat, device: nat)
    requires Tile(pt, true, d, host, device)
    ensures IsRead(pt, m, Exec(m, true, d), host, device, 4 * d.words)
  {
    var n, m' := 4 * d.words, Exec(m, true, d);
    forall v: nat | host <= v < host + n ensures m'.host(Phys(pt, v)) == m.device(device + (v - host)) {
      PhysInPage(pt, host, v - host);
    }
    forall a: nat | !InImage(pt, host, n, a) ensures m'.host(a) == m.host(a) {
      if d.dest <= a < d.dest + n {
        PhysInPage(pt, host, a - d.dest);
        assert false;
      }
    }
  }

  lemma ReadTwo(pt: PageTable, m: Memory, m1: Memory, m2: Memory, host: nat, device: nat, n: nat, k: nat)
    requires IsRead(pt, m, m1, host, device, n) && IsRead(pt, m1, m2, host + n, device + n, k)
    requires NoAlias(pt, host, n + k)
    ensures IsRead(pt, m, m2, host, device, n + k)
  {}

  lemma NoAliasPart(pt: PageTable, host: nat, n: nat, k: nat)
    requires NoAlias(pt, host, n + k)
    ensures NoAlias(pt, host + n, k)
  {}

  /** Descriptors that tile a request from the device are a memcpy from it,
      provided the user pages are different physical pages. */
  lemma {:induction false} TilesRead(pt: PageTable, ds: seq<Desc>, host: nat, device: nat, m: Memory)
    requires Tiles(pt, true, ds, host, device) && NoAlias(pt, host, Total(ds))
    ensures IsRead(pt, m, ExecAll(m, true, ds), host, device, Total(ds))
    decreases |ds|
  {
    hide IsRead, Tile, Exec, NoAlias, Tiles;
    if ds == [] {
      ReadNone(pt, m, host, device);
    } else {
      Head(pt, m, true, ds, host, device);
      var n, m1 := 4 * ds[0].words, Exec(m, true, ds[0]);
      NoAliasPart(pt, host, n, Total(ds[1..]));
      ReadOne(pt, m, ds[0], host, device);
      TilesRead(pt, ds[1..], host + n, device + n, m1);
      ReadTwo(pt, m, m1, ExecAll(m, true, ds), host, device, n, Total(ds[1..]));
    }
  }

  // ---------- batches ----------

  lemma {:induction false} ExecAppend(m: Memory, reading: bool, a: seq<Desc>, b: seq<Desc>)
    ensures ExecAll(m, reading, a + b) == ExecAll(ExecAll(m, reading, a), reading, b)
    decreases |a|
  {
    if a == [] {
      assert a + b == b;
    } else {
      assert (a + b)[1..] == a[1..] + b;
      ExecAppend(Exec(m, reading, a[0]), reading, a[1..], b);
    }
  }

  lemma {:induction false} ExecLogAll(m: Memory, reading: bool, bs: seq<Batch>)
    requires forall i :: 0 <= i < |bs| ==> bs[i].reading == reading
    ensures ExecLog(m, bs) == ExecAll(m, reading, AllDescs(bs))
    decreases |bs|
  {
    if bs != [] {
      var n := |bs| - 1;
      ExecLogAll(m, reading, bs[..n]);
      ExecAppend(m, reading, AllDescs(bs[..n]), bs[n].descs);
    }
  }

  /** A finished transfer: executing the batches it sent is a memcpy of the
      request, from any memory contents. */
  lemma TransferIsMemcpy(pt: PageTable, first: Dma, t: Dma, m: Memory)
    requires Since(pt, first, t) && t.sent == t.bytes
    ensures var m' := ExecLog(m, t.log[|first.log|..]);
            if t.reading then NoAlias(pt, first.host, t.bytes) ==> IsRead(pt, m, m', first.host, first.device, t.bytes)
            else IsWrite(pt, m, m', first.host, first.device, t.bytes)
  {
    var bs := t.log[|first.log|..];
    ExecLogAll(m, t.reading, bs);
    if !t.reading {
      TilesWrite(pt, AllDescs(bs), first.host, first.device, m);
    } else if NoAlias(pt, first.host, t.bytes) {
      TilesRead(pt, AllDescs(bs), first.host, first.device, m);
    }
  }
}
