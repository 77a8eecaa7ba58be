/** Which service owns which region, and how the allocator changes it. */
module Pools {
  import opened Registry
  import opened Services

  /** The two registries the allocator works on. */
  datatype Pool = Pool(ds: Devices, ss: seq<Service>)

  predicate IsRegion(ds: Devices, p: Region) { Pair(ds, p.0, p.1) }

  function Owner(ds: Devices, p: Region): int
    requires IsRegion(ds, p)
  {
    ds[p.0].prrs[p.1].allocatedTo
  }

  function Assign(ds: Devices, p: Region, owner: int): Devices
    requires IsRegion(ds, p)
  {
    Put(ds, p.0, p.1, ds[p.0].prrs[p.1].(allocatedTo := owner))
  }

  ghost predicate OwnsOnly(pool: Pool, s: nat)
    requires s < |pool.ss|
  {
    NoRepeats(pool.ss[s].instances) &&
    (forall p: Region :: p in pool.ss[s].instances ==> IsRegion(pool.ds, p)) &&
    (forall p: Region :: IsRegion(pool.ds, p) ==> (p in pool.ss[s].instances <==> Owner(pool.ds, p) == s))
  }

  /** Ownership: a region is allocated to a service exactly when it is one of its
      instances, so no region serves two services. */
  ghost predicate Own(pool: Pool) { forall s :: 0 <= s < |pool.ss| ==> OwnsOnly(pool, s) }

  predicate Fits(pool: Pool, s: nat, p: Region)
    requires s < |pool.ss|
  {
    IsRegion(pool.ds, p) && Owner(pool.ds, p) == FREE && HasBin(pool.ss[s], pool.ds[p.0].name, p.1)
  }

  // ---------- one region changes hands ----------

  function AddOne(pool: Pool, s: nat, p: Region): (q: Pool)
    requires s < |pool.ss| && Fits(pool, s, p)
    ensures |q.ss| == |pool.ss|
  {
    Pool(Assign(pool.ds, p, s), pool.ss[s := Added(pool.ss[s], p)])
  }

  predicate CanDrop(pool: Pool, s: nat) {
    s < |pool.ss| && pool.ss[s].instances != [] &&
    IsRegion(pool.ds, pool.ss[s].instances[|pool.ss[s].instances| - 1])
  }

  function DropLast(pool: Pool, s: nat): Pool
    requires CanDrop(pool, s)
  {
    var was := pool.ss[s].instances;
    Pool(Assign(pool.ds, was[|was| - 1], FREE), pool.ss[s := pool.ss[s].(instances := was[..|was| - 1])])
  }

  /** Only owners and instance lists differ. */
  predicate SameDevices(ds: Devices, ds': Devices) {
    |ds| == |ds'| &&
    (forall i :: 0 <= i < |ds| ==> ds[i].name == ds'[i].name && |ds[i].prrs| == |ds'[i].prrs|) &&
    (forall i, j {:trigger ds[i].prrs[j]} :: 0 <= i < |ds| && 0 <= j < |ds[i].prrs| && |ds[i].prrs| == |ds'[i].prrs| ==>
                ds[i].prrs[j].size == ds'[i].prrs[j].size)
  }

  predicate SameServices(ss: seq<Service>, ss': seq<Service>) {
    |ss| == |ss'| && forall s :: 0 <= s < |ss| ==> ss[s].(instances := []) == ss'[s].(instances := [])
  }

  predicate Same(pool: Pool, pool': Pool) { SameDevices(pool.ds, pool'.ds) && SameServices(pool.ss, pool'.ss) }

  lemma SameTrans(a: Pool, b: Pool, c: Pool)
    requires Same(a, b) && Same(b, c)
    ensures Same(a, c)
  {}

  lemma SameRegions(ds: Devices, ds': Devices, p: Region)
    requires SameDevices(ds, ds')
    ensures IsRegion(ds, p) <==> IsRegion(ds', p)
  {}

  lemma OwnerAfter(ds: Devices, p: Region, owner: int, q: Region)
    requires IsRegion(ds, p) && IsRegion(ds, q)
    ensures SameDevices(ds, Assign(ds, p, owner)) && IsRegion(Assign(ds, p, owner), q)
    ensures Owner(Assign(ds, p, owner), q) == if q == p then owner else Owner(ds, q)
  {}

  lemma AssignSame(ds: Devices, p: Region, owner: int)
    requires IsRegion(ds, p)
    ensures SameDevices(ds, Assign(ds, p, owner))
  {}

  lemma AddOneOwn(pool: Pool, s: nat, p: Region)
    requires Own(pool) && s < |pool.ss| && Fits(pool, s, p)
    ensures var t := AddOne(pool, s, p);
            Own(t) && Same(pool, t) && t.ss[s].instances == pool.ss[s].instances + [p] && p !in pool.ss[s].instances
  {
    var t := AddOne(pool, s, p);
    assert OwnsOnly(pool, s);
    AssignSame(pool.ds, p, s);
    forall k | 0 <= k < |t.ss| ensures OwnsOnly(t, k) {
      AddOneKeeps(pool, s, p, k);
    }
  }

  lemma AddOneKeeps(pool: Pool, s: nat, p: Region, k: nat)
    requires Own(pool) && s < |pool.ss| && Fits(pool, s, p) && k < |pool.ss|
    ensures OwnsOnly(AddOne(pool, s, p), k)
  {
    var t := AddOne(pool, s, p);
    assert OwnsOnly(pool, k) && OwnsOnly(pool, s);
    forall q: Region | IsRegion(t.ds, q) ensures q in t.ss[k].instances <==> Owner(t.ds, q) == k {
      OwnerAfter(pool.ds, p, s, q);
    }
    hide Assign, Owner;
  }

  lemma LastIsNew(s: seq<Region>)
    requires NoRepeats(s) && s != []
    ensures NoRepeats(s[..|s| - 1]) && forall q :: q in s[..|s| - 1] <==> q in s && q != s[|s| - 1]
  {}

  lemma DropLastKeeps(pool: Pool, s: nat, k: nat)
    requires Own(pool) && CanDrop(pool, s) && k < |pool.ss|
    ensures OwnsOnly(DropLast(pool, s), k)
  {
    var t := DropLast(pool, s);
    var was := pool.ss[s].instances;
    var p := was[|was| - 1];
    assert OwnsOnly(pool, k) && OwnsOnly(pool, s);
    LastIsNew(was);
    hide Assign, Owner, NoRepeats, IsRegion;
    AssignSame(pool.ds, p, FREE);
    forall q: Region ensures IsRegion(pool.ds, q) <==> IsRegion(t.ds, q) {
      SameRegions(pool.ds, t.ds, q);
    }
    forall q: Region | IsRegion(t.ds, q) ensures q in t.ss[k].instances <==> Owner(t.ds, q) == k {
      OwnerAfter(pool.ds, p, FREE, q);
    }
  }

  lemma DropLastOwn(pool: Pool, s: nat)
    requires Own(pool) && CanDrop(pool, s)
    ensures var t := DropLast(pool, s);
            Own(t) && Same(pool, t) && t.ss[s].instances == pool.ss[s].instances[..|pool.ss[s].instances| - 1]
  {
    var t := DropLast(pool, s);
    var was := pool.ss[s].instances;
    AssignSame(pool.ds, was[|was| - 1], FREE);
    forall k | 0 <= k < |t.ss| ensures OwnsOnly(t, k) {
      DropLastKeeps(pool, s, k);
    }
  }

  lemma OwnCanDrop(pool: Pool, s: nat)
    requires Own(pool) && s < |pool.ss| && pool.ss[s].instances != []
    ensures CanDrop(pool, s)
  {
    assert OwnsOnly(pool, s);
  }
}
