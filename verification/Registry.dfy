/** Devices, their partially reconfigurable regions (PRRs) and the numbering of
    all regions of the system. */
module Registry {

  datatype Option<T> = None | Some(value: T)

  datatype Status = READY | RUNNING

  const FREE: int := -1

  datatype Partition = Partition(size: int, allocatedTo: int, programmedWith: int, status: Status)

  datatype Device = Device(name: string, prrs: seq<Partition>)

  type Devices = seq<Device>

  // ---------- numbering ----------

  predicate Pair(ds: Devices, i: int, j: int) { 0 <= i < |ds| && 0 <= j < |ds[i].prrs| }

  // regions of the first n devices
  function Base(ds: Devices, n: nat): nat
    requires n <= |ds|
  {
    if n == 0 then 0 else Base(ds, n - 1) + |ds[n - 1].prrs|
  }

  function Count(ds: Devices): nat { Base(ds, |ds|) }

  /** The global id of region j of device i. */
  function Glob(ds: Devices, i: nat, j: nat): nat
    requires Pair(ds, i, j)
  {
    Base(ds, i) + j
  }

  /** The region with global id g among the first n devices. */
  function Find(ds: Devices, n: nat, g: nat): (r: (nat, nat))
    requires n <= |ds| && g < Base(ds, n)
    ensures Pair(ds, r.0, r.1) && r.0 < n && Glob(ds, r.0, r.1) == g
  {
    if g >= Base(ds, n - 1) then (n - 1, g - Base(ds, n - 1)) else Find(ds, n - 1, g)
  }

  function DeviceOf(ds: Devices, g: nat): nat
    requires g < Count(ds)
  {
    Find(ds, |ds|, g).0
  }

  function LocalOf(ds: Devices, g: nat): nat
    requires g < Count(ds)
  {
    Find(ds, |ds|, g).1
  }

  lemma {:induction false} BaseMonotone(ds: Devices, i: nat, n: nat)
    requires i < n <= |ds|
    ensures Base(ds, i) + |ds[i].prrs| <= Base(ds, n)
    decreases n
  {
    if i < n - 1 { BaseMonotone(ds, i, n - 1); }
  }

  lemma GlobBound(ds: Devices, i: nat, j: nat)
    requires Pair(ds, i, j)
    ensures Glob(ds, i, j) < Count(ds)
  {
    BaseMonotone(ds, i, |ds|);
  }

  lemma GlobInjective(ds: Devices, i: nat, j: nat, i': nat, j': nat)
    requires Pair(ds, i, j) && Pair(ds, i', j') && Glob(ds, i, j) == Glob(ds, i', j')
    ensures i == i' && j == j'
  {
    if i < i' { BaseMonotone(ds, i, i'); }
    if i' < i { BaseMonotone(ds, i', i); }
  }

  /** Global ids number the regions 0 .. getNumPRRs() - 1, each exactly once, and
      the device and local id give the region back. */
  lemma Bijection(ds: Devices)
    ensures forall i: nat, j: nat {:trigger Glob(ds, i, j)} :: Pair(ds, i, j) ==>
              Glob(ds, i, j) < Count(ds) && DeviceOf(ds, Glob(ds, i, j)) == i && LocalOf(ds, Glob(ds, i, j)) == j
    ensures forall g: nat {:trigger DeviceOf(ds, g)} :: g < Count(ds) ==>
              Pair(ds, DeviceOf(ds, g), LocalOf(ds, g)) && Glob(ds, DeviceOf(ds, g), LocalOf(ds, g)) == g
  {
    forall i: nat, j: nat | Pair(ds, i, j)
      ensures Glob(ds, i, j) < Count(ds) && DeviceOf(ds, Glob(ds, i, j)) == i && LocalOf(ds, Glob(ds, i, j)) == j
    {
      GlobBound(ds, i, j);
      var g := Glob(ds, i, j);
      GlobInjective(ds, DeviceOf(ds, g), LocalOf(ds, g), i, j);
    }
  }

  // ---------- the regions in global order ----------

  function FlatTo(ds: Devices, n: nat): (f: seq<Partition>)
    requires n <= |ds|
    ensures |f| == Base(ds, n)
  {
    if n == 0 then [] else FlatTo(ds, n - 1) + ds[n - 1].prrs
  }

  function Flat(ds: Devices): seq<Partition> { FlatTo(ds, |ds|) }

  lemma {:induction false} FlatToAt(ds: Devices, n: nat, i: nat, j: nat)
    requires n <= |ds| && Pair(ds, i, j) && i < n
    ensures Glob(ds, i, j) < Base(ds, n) && FlatTo(ds, n)[Glob(ds, i, j)] == ds[i].prrs[j]
  {
    BaseMonotone(ds, i, n);
    if i < n - 1 { FlatToAt(ds, n - 1, i, j); }
  }

  lemma FlatAt(ds: Devices, i: nat, j: nat)
    requires Pair(ds, i, j)
    ensures Glob(ds, i, j) < |Flat(ds)| == Count(ds) && Flat(ds)[Glob(ds, i, j)] == ds[i].prrs[j]
  {
    FlatToAt(ds, |ds|, i, j);
  }

  function Put(ds: Devices, i: nat, j: nat, p: Partition): Devices
    requires Pair(ds, i, j)
  {
    ds[i := ds[i].(prrs := ds[i].prrs[j := p])]
  }

  lemma {:induction false} PutLater(ds: Devices, n: nat, i: nat, j: nat, p: Partition)
    requires n <= i && Pair(ds, i, j)
    ensures FlatTo(Put(ds, i, j, p), n) == FlatTo(ds, n)
  {
    if n > 0 { PutLater(ds, n - 1, i, j, p); }
  }

  lemma UpdateLeft<T>(a: seq<T>, b: seq<T>, k: nat, x: T)
    requires k < |a|
    ensures (a + b)[k := x] == a[k := x] + b
  {}

  lemma UpdateRight<T>(a: seq<T>, b: seq<T>, k: nat, x: T)
    requires k < |b|
    ensures (a + b)[|a| + k := x] == a + b[k := x]
  {}

  lemma {:induction false} PutFlatTo(ds: Devices, n: nat, i: nat, j: nat, p: Partition)
    requires i < n <= |ds| && Pair(ds, i, j)
    ensures Glob(ds, i, j) < Base(ds, n) && FlatTo(Put(ds, i, j, p), n) == FlatTo(ds, n)[Glob(ds, i, j) := p]
  {
    BaseMonotone(ds, i, n);
    if i == n - 1 {
      PutLater(ds, n - 1, i, j, p);
      UpdateRight(FlatTo(ds, n - 1), ds[i].prrs, j, p);
    } else {
      PutFlatTo(ds, n - 1, i, j, p);
      UpdateLeft(FlatTo(ds, n - 1), ds[n - 1].prrs, Glob(ds, i, j), p);
    }
  }

  lemma PutFlat(ds: Devices, i: nat, j: nat, p: Partition)
    requires Pair(ds, i, j)
    ensures Glob(ds, i, j) < |Flat(ds)| && Flat(Put(ds, i, j, p)) == Flat(ds)[Glob(ds, i, j) := p]
  {
    PutFlatTo(ds, |ds|, i, j, p);
  }

  // ---------- the object ----------

  class ResourceRegistry {
    var devices: Devices

    constructor ()
      ensures devices == []
    {
      devices := [];
    }

    // registerDevice: the id is the number of devices so far
    method Register(device: Device) returns (id: nat)
      modifies this
      ensures devices == old(devices) + [device] && id == |old(devices)|
    {
      id := |devices|;
      devices := devices + [device];
    }

    method GetNumPRRs() returns (n: nat)
      ensures n == Count(devices) == |Flat(devices)|
    {
      n := 0;
      for i := 0 to |devices|
        invariant n == Base(devices, i)
      {
        n := n + |devices[i].prrs|;
      }
    }

    /** None is the message and exit. */
    method GetGlobPRRID(dev: int, prr: int) returns (id: Option<nat>)
      ensures id == if Pair(devices, dev, prr) then Some(Glob(devices, dev, prr)) else None
    {
      var glob := 0;
      for i := 0 to |devices|
        invariant i <= dev ==> glob == Base(devices, i)
        invariant i > dev ==> !Pair(devices, dev, prr)
      {
        if i == dev {
          for j := 0 to |devices[i].prrs|
            invariant glob == Base(devices, i) + j
            invariant prr < 0 || j <= prr
          {
            if j == prr { return Some(glob); }
            glob := glob + 1;
          }
        }
        glob := glob + |devices[i].prrs|;
      }
      id := None;
    }

    method Locate(glob: int) returns (found: Option<(nat, nat)>)
      ensures found == if 0 <= glob < Count(devices) then Some((DeviceOf(devices, glob), LocalOf(devices, glob)))
                       else None
    {
      Bijection(devices);
      for i := 0 to |devices|
        invariant forall k: nat, l: nat :: k < i && Pair(devices, k, l) ==> Glob(devices, k, l) != glob
      {
        for j := 0 to |devices[i].prrs|
          invariant forall k: nat, l: nat ::
                      (k < i || (k == i && l < j)) && Pair(devices, k, l) ==> Glob(devices, k, l) != glob
        {
          var id := GetGlobPRRID(i, j);
          if id == Some(glob) { return Some((i, j)); }
        }
      }
      found := None;
    }

    method GetDeviceID(glob: int) returns (dev: Option<nat>)
      ensures dev == if 0 <= glob < Count(devices) then Some(DeviceOf(devices, glob)) else None
    {
      var found := Locate(glob);
      dev := if found.Some? then Some(found.value.0) else None;
    }

    method GetLocPRRID(glob: int) returns (prr: Option<nat>)
      ensures prr == if 0 <= glob < Count(devices) then Some(LocalOf(devices, glob)) else None
    {
      var found := Locate(glob);
      prr := if found.Some? then Some(found.value.1) else None;
    }

    method GetPRRStatus(glob: int) returns (status: Option<Status>)
      ensures status == if 0 <= glob < |Flat(devices)| then Some(Flat(devices)[glob].status) else None
    {
      Bijection(devices);
      var found := Locate(glob);
      if found.None? { return None; }
      var (i, j) := found.value;
      FlatAt(devices, i, j);
      status := Some(devices[i].prrs[j].status);
    }

    // counts the regions instead of computing their ids
    method GetEntryByGlobPRRID(glob: int) returns (device: Option<Device>)
      ensures device == if 0 <= glob < Count(devices) then Some(devices[DeviceOf(devices, glob)]) else None
    {
      Bijection(devices);
      var counter := 0;
      for i := 0 to |devices|
        invariant counter == Base(devices, i) && (glob < 0 || counter <= glob)
      {
        for j := 0 to |devices[i].prrs|
          invariant counter == Base(devices, i) + j && (glob < 0 || counter <= glob)
        {
          if counter == glob {
            assert glob == Glob(devices, i, j);
            return Some(devices[i]);
          }
          counter := counter + 1;
        }
      }
      device := None;
    }

    /** Changes the status of region `glob` and nothing else. */
    method SetPRRStatus(glob: int, status: Status) returns (ok: bool)
      modifies this
      ensures ok <==> 0 <= glob < |old(Flat(devices))|
      ensures if ok then Flat(devices) == old(Flat(devices))[glob := old(Flat(devices))[glob].(status := status)]
              else devices == old(devices)
      ensures SameLayout(old(devices), devices)
    {
      var counter := 0;
      for i := 0 to |devices|
        invariant devices == old(devices) && counter == Base(devices, i) && (glob < 0 || counter <= glob)
      {
        for j := 0 to |devices[i].prrs|
          invariant devices == old(devices) && i < |devices|
          invariant counter == Base(devices, i) + j && (glob < 0 || counter <= glob)
        {
          if counter == glob {
            FlatAt(devices, i, j);
            PutFlat(devices, i, j, devices[i].prrs[j].(status := status));
            devices := Put(devices, i, j, devices[i].prrs[j].(status := status));
            return true;
          }
          counter := counter + 1;
        }
      }
      ok := false;
    }

    method IsPrgWith(glob: int, service: int) returns (yes: bool)
      ensures yes <==> 0 <= glob < |Flat(devices)| && Flat(devices)[glob].programmedWith == service
    {
      var counter := 0;
      for i := 0 to |devices|
        invariant counter == Base(devices, i)
        invariant 0 <= glob < counter ==> FlatTo(devices, i)[glob].programmedWith != service
      {
        for j := 0 to |devices[i].prrs|
          invariant counter == Base(devices, i) + j
          invariant 0 <= glob < Base(devices, i) ==> FlatTo(devices, i)[glob].programmedWith != service
          invariant Base(devices, i) <= glob < counter ==>
                      devices[i].prrs[glob - Base(devices, i)].programmedWith != service
        {
          if counter == glob && devices[i].prrs[j].programmedWith == service {
            FlatAt(devices, i, j);
            return true;
          }
          counter := counter + 1;
        }
      }
      yes := false;
    }

    method SetPRRPrgStatus(glob: int, service: int) returns (ok: bool)
      modifies this
      ensures ok <==> 0 <= glob < |old(Flat(devices))|
      ensures var was := old(Flat(devices));
              if ok then Flat(devices) == was[glob := was[glob].(programmedWith := service)]
              else devices == old(devices)
      ensures SameLayout(old(devices), devices)
    {
      Bijection(devices);
      var found := Locate(glob);
      if found.None? { return false; }
      var (i, j) := found.value;
      FlatAt(devices, i, j);
      PutFlat(devices, i, j, devices[i].prrs[j].(programmedWith := service));
      devices := Put(devices, i, j, devices[i].prrs[j].(programmedWith := service));
      ok := true;
    }
  }

  predicate SameLayout(ds: Devices, ds': Devices) {
    |ds| == |ds'| && forall i :: 0 <= i < |ds| ==> |ds[i].prrs| == |ds'[i].prrs|
  }

  // ---------- the ids the queue managers are created under ----------

  /** The id Init and RunDaemon compute for region j of device i. */
  function InitId(ds: Devices, i: nat, j: nat): nat
    requires Pair(ds, i, j)
  {
    if i > 0 then i * |ds[i - 1].prrs| + j else j
  }

  /** Every region gets its registry id. */
  ghost predicate IdsAgree(ds: Devices) {
    forall i, j: nat {:trigger Glob(ds, i, j)} :: Pair(ds, i, j) ==> InitId(ds, i, j) == Glob(ds, i, j)
  }

  /** The devices before device i have as many regions as i devices like its
      predecessor would. */
  predicate EvenBefore(ds: Devices, i: nat)
    requires 0 < i < |ds|
  {
    i * |ds[i - 1].prrs| == Base(ds, i)
  }

  /** The queue managers are registered under the registry's ids exactly when that
      holds before every device with regions. */
  lemma InitIdsAgree(ds: Devices)
    ensures IdsAgree(ds) <==> forall i :: 0 < i < |ds| && ds[i].prrs != [] ==> EvenBefore(ds, i)
  {
    if IdsAgree(ds) {
      forall i | 0 < i < |ds| && ds[i].prrs != [] ensures EvenBefore(ds, i) {
        assert InitId(ds, i, 0) == Glob(ds, i, 0);
      }
    }
    if forall i :: 0 < i < |ds| && ds[i].prrs != [] ==> EvenBefore(ds, i) {
      forall i, j: nat | Pair(ds, i, j) ensures InitId(ds, i, j) == Glob(ds, i, j) {
        if i > 0 { assert EvenBefore(ds, i); }
      }
    }
  }

  predicate EqualButLast(ds: Devices) {
    forall i :: 0 <= i < |ds| - 1 ==> |ds[i].prrs| == |ds[0].prrs|
  }

  lemma {:induction false} AllEqual(ds: Devices, n: nat, k: nat)
    requires n <= |ds| && forall i :: 0 <= i < n ==> |ds[i].prrs| == k
    ensures Base(ds, n) == n * k
  {
    if n > 0 { AllEqual(ds, n - 1, k); }
  }

  lemma Cancel(n: nat, x: nat, y: nat)
    requires n > 0 && n * x == n * y
    ensures x == y
  {}

  lemma {:induction false} EvenEqual(ds: Devices, n: nat)
    requires n < |ds| && forall i :: 0 < i <= n ==> EvenBefore(ds, i)
    ensures forall i :: 0 <= i < n ==> |ds[i].prrs| == |ds[0].prrs|
  {
    if n > 1 {
      EvenEqual(ds, n - 1);
      AllEqual(ds, n - 1, |ds[0].prrs|);
      assert EvenBefore(ds, n);
      var k, x := |ds[0].prrs|, |ds[n - 1].prrs|;
      assert n * x == (n - 1) * k + x && n * x == (n - 1) * x + x;
      Cancel(n - 1, x, k);
    }
  }

  /** Where every device has a region, that means: all devices but the last have
      the same number. */
  lemma InitIdsEqual(ds: Devices)
    requires forall i :: 0 <= i < |ds| ==> ds[i].prrs != []
    ensures IdsAgree(ds) <==> EqualButLast(ds)
  {
    InitIdsAgree(ds);
    hide IdsAgree;
    if ds != [] && forall i :: 0 < i < |ds| ==> EvenBefore(ds, i) { EvenEqual(ds, |ds| - 1); }
    if EqualButLast(ds) {
      forall i | 0 < i < |ds| ensures EvenBefore(ds, i) { AllEqual(ds, i, |ds[0].prrs|); }
    }
  }
}
