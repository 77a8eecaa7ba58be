/** Giving regions to services: the initial first fit and the allocation that
    follows the targets of the scaler. */
module Allocator {
  import opened Registry
  import opened Services
  import opened Pools

  // ---------- regions by increasing size, then id ----------

  type Key = (int, nat)   // size, global id

  predicate Lex(a: Key, b: Key) { a.0 < b.0 || (a.0 == b.0 && a.1 < b.1) }

  ghost predicate Ascending(s: seq<Key>) { forall a, b :: 0 <= a < b < |s| ==> Lex(s[a], s[b]) }

  function Insert(k: Key, s: seq<Key>): seq<Key> {
    if s == [] then [k] else if Lex(s[|s| - 1], k) then s + [k] else Insert(k, s[..|s| - 1]) + [s[|s| - 1]]
  }

  /** std::sort on pairs. */
  function Sorted(s: seq<Key>): seq<Key> {
    if s == [] then [] else Insert(s[|s| - 1], Sorted(s[..|s| - 1]))
  }

  lemma InSnoc(s: seq<Key>, x: Key)
    requires s != []
    ensures x in s <==> x in s[..|s| - 1] || x == s[|s| - 1]
  {}

  lemma {:induction false} InsertMembers(k: Key, s: seq<Key>, x: Key)
    ensures x in Insert(k, s) <==> x == k || x in s
  {
    if s != [] {
      InsertMembers(k, s[..|s| - 1], x);
      InSnoc(s, x);
    }
  }

  lemma {:induction false} InsertAscending(k: Key, s: seq<Key>)
    requires Ascending(s) && forall x :: x in s ==> x.1 != k.1
    ensures Ascending(Insert(k, s))
  {
    if s != [] && !Lex(s[|s| - 1], k) {
      var init, last := s[..|s| - 1], s[|s| - 1];
      InsertAscending(k, init);
      forall x | x in Insert(k, init) ensures Lex(x, last) { InsertMembers(k, init, x); }
    }
  }

  lemma {:induction false} SortedMembers(s: seq<Key>, x: Key)
    ensures x in Sorted(s) <==> x in s
  {
    if s != [] {
      SortedMembers(s[..|s| - 1], x);
      InsertMembers(s[|s| - 1], Sorted(s[..|s| - 1]), x);
      InSnoc(s, x);
    }
  }

  lemma {:induction false} SortedAscending(s: seq<Key>)
    requires forall a, b :: 0 <= a < b < |s| ==> s[a].1 != s[b].1
    ensures Ascending(Sorted(s))
  {
    if s != [] {
      SortedAscending(s[..|s| - 1]);
      forall x | x in Sorted(s[..|s| - 1]) ensures x.1 != s[|s| - 1].1 { SortedMembers(s[..|s| - 1], x); }
      InsertAscending(s[|s| - 1], Sorted(s[..|s| - 1]));
    }
  }

  function RegionOf(ds: Devices, g: nat): Region
    requires g < Count(ds)
  {
    Find(ds, |ds|, g)
  }

  function KeyOf(ds: Devices, p: Region): Key
    requires IsRegion(ds, p)
  {
    (ds[p.0].prrs[p.1].size, Glob(ds, p.0, p.1))
  }

  function Keys(ds: Devices): seq<Key> { seq(Count(ds), g requires 0 <= g < Count(ds) => (Flat(ds)[g].size, g)) }

  /** p is smaller than q, or as large and has the smaller id. */
  predicate Precedes(ds: Devices, p: Region, q: Region) {
    IsRegion(ds, p) && IsRegion(ds, q) &&
    var a, b := ds[p.0].prrs[p.1].size, ds[q.0].prrs[q.1].size;
    a < b || (a == b && Glob(ds, p.0, p.1) < Glob(ds, q.0, q.1))
  }

  lemma RegionAt(ds: Devices, p: Region)
    requires IsRegion(ds, p)
    ensures Glob(ds, p.0, p.1) < Count(ds) && RegionOf(ds, Glob(ds, p.0, p.1)) == p
    ensures Keys(ds)[Glob(ds, p.0, p.1)] == KeyOf(ds, p)
  {
    Bijection(ds);
    FlatAt(ds, p.0, p.1);
  }

  lemma KeyAt(ds: Devices, k: Key)
    requires k in Keys(ds)
    ensures k.1 < Count(ds) && IsRegion(ds, RegionOf(ds, k.1)) && KeyOf(ds, RegionOf(ds, k.1)) == k
  {
    RegionAt(ds, RegionOf(ds, k.1));
  }

  ghost predicate KeysOf(ds: Devices, keys: seq<Key>) { forall k :: k in keys ==> k in Keys(ds) && k.1 < Count(ds) }

  lemma SortedKeys(ds: Devices)
    ensures KeysOf(ds, Sorted(Keys(ds))) && Ascending(Sorted(Keys(ds)))
    ensures forall p: Region :: IsRegion(ds, p) ==> KeyOf(ds, p) in Sorted(Keys(ds))
  {
    SortedAscending(Keys(ds));
    forall k ensures k in Sorted(Keys(ds)) <==> k in Keys(ds) { SortedMembers(Keys(ds), k); }
    forall p: Region | IsRegion(ds, p) ensures KeyOf(ds, p) in Sorted(Keys(ds)) { RegionAt(ds, p); }
  }

  // ---------- one service grows ----------

  /** One round of the loop over the sorted regions. */
  function GrowStep(pool: Pool, s: nat, target: nat, p: Region): Pool
    requires s < |pool.ss|
  {
    if target > |pool.ss[s].instances| && Fits(pool, s, p) then AddOne(pool, s, p) else pool
  }

  function Grow(pool: Pool, s: nat, target: nat, order: seq<Region>): (q: Pool)
    requires s < |pool.ss|
    ensures |q.ss| == |pool.ss|
  {
    if order == [] then pool
    else GrowStep(Grow(pool, s, target, order[..|order| - 1]), s, target, order[|order| - 1])
  }

  /** Regions of `ds` in strictly increasing (size, id) order. */
  ghost predicate InOrder(ds: Devices, order: seq<Region>) {
    (forall k :: 0 <= k < |order| ==> IsRegion(ds, order[k])) &&
    (forall a, b :: 0 <= a < b < |order| ==> Precedes(ds, order[a], order[b]))
  }

  /** Regions only go from free to service s. */
  ghost predicate OnlyTo(p: Pool, q: Pool, s: nat) {
    SameDevices(p.ds, q.ds) &&
    forall r: Region {:trigger IsRegion(p.ds, r)} :: IsRegion(p.ds, r) && IsRegion(q.ds, r) ==>
      Owner(q.ds, r) == Owner(p.ds, r) || (Owner(p.ds, r) == FREE && Owner(q.ds, r) == s)
  }

  /** The other services are untouched; s keeps its instances and gains some. */
  ghost predicate Extended(p: Pool, q: Pool, s: nat, target: nat) {
    Same(p, q) && Own(q) && OnlyTo(p, q, s) && s < |p.ss| &&
    (forall k :: 0 <= k < |p.ss| && k != s ==> q.ss[k] == p.ss[k]) &&
    p.ss[s].instances <= q.ss[s].instances &&
    (|q.ss[s].instances| <= target || q.ss[s] == p.ss[s])
  }

  /** No region of `order` was left free while s wanted one it could use. */
  ghost predicate Satisfied(q: Pool, s: nat, target: nat, order: seq<Region>)
    requires s < |q.ss|
  {
    |q.ss[s].instances| < target ==> forall r: Region :: r in order ==> !Fits(q, s, r)
  }

  /** What s gained comes from `order`, in that order, and nothing usable before
      it was passed over. */
  ghost predicate Gained(p: Pool, q: Pool, s: nat, order: seq<Region>)
    requires s < |p.ss| == |q.ss| && p.ss[s].instances <= q.ss[s].instances
  {
    var n, now := |p.ss[s].instances|, q.ss[s].instances;
    (forall k :: n <= k < |now| ==> now[k] in order) &&
    (forall a, b :: n <= a < b < |now| ==> Precedes(p.ds, now[a], now[b])) &&
    (forall k, r: Region {:trigger Precedes(p.ds, r, now[k])} ::
       n <= k < |now| && r in order && Precedes(p.ds, r, now[k]) ==> !Fits(q, s, r))
  }

  ghost predicate Grown(p: Pool, q: Pool, s: nat, target: nat, order: seq<Region>) {
    Extended(p, q, s, target) && Satisfied(q, s, target, order) && Gained(p, q, s, order)
  }

  lemma TakeExtends(p: Pool, q: Pool, s: nat, target: nat, x: Region)
    requires Extended(p, q, s, target) && target > |q.ss[s].instances| && Fits(q, s, x)
    ensures Extended(p, AddOne(q, s, x), s, target)
    ensures AddOne(q, s, x).ss[s].instances == q.ss[s].instances + [x]
  {
    AddOneOwn(q, s, x);
    var t := AddOne(q, s, x);
    SameTrans(p, q, t);
    forall r: Region | IsRegion(p.ds, r) && IsRegion(t.ds, r)
      ensures Owner(t.ds, r) == Owner(p.ds, r) || (Owner(p.ds, r) == FREE && Owner(t.ds, r) == s)
    {
      OwnerAfter(q.ds, x, s, r);
    }
    hide Own, Same;
  }

  /** Taking a region only makes fewer regions fit. */
  lemma FitsLess(q: Pool, s: nat, x: Region, y: Region)
    requires s < |q.ss| && Fits(q, s, x) && Fits(AddOne(q, s, x), s, y)
    ensures Fits(q, s, y) && y != x
  {}

  lemma FollowsAll(ds: Devices, order: seq<Region>, x: Region, r: Region)
    requires InOrder(ds, order + [x]) && r in order
    ensures Precedes(ds, r, x) && !Precedes(ds, x, r) && !Precedes(ds, x, x) && InOrder(ds, order)
  {
    var more := order + [x];
    var k :| 0 <= k < |order| && order[k] == r;
    assert Precedes(ds, more[k], more[|order|]);
    assert forall a :: 0 <= a < |order| ==> more[a] == order[a];
  }

  lemma TakeGains(p: Pool, q: Pool, s: nat, target: nat, order: seq<Region>, x: Region)
    requires Grown(p, q, s, target, order) && InOrder(p.ds, order + [x])
    requires s < |q.ss| && target > |q.ss[s].instances| && Fits(q, s, x)
    ensures Fits(q, s, x) && Gained(p, AddOne(q, s, x), s, order + [x])
  {
    hide Own, Same, SameDevices, OnlyTo, Fits, Precedes, InOrder, AddOne;
    TakeExtends(p, q, s, target, x);
    var t := AddOne(q, s, x);
    forall r | r in order ensures Precedes(p.ds, r, x) && !Precedes(p.ds, x, r) { FollowsAll(p.ds, order, x, r); }
    assert !Precedes(p.ds, x, x) by { NotBeforeItself(p.ds, x); }
    forall r | Fits(t, s, r) ensures Fits(q, s, r) && r != x { FitsLess(q, s, x, r); }
  }

  lemma NotBeforeItself(ds: Devices, x: Region)
    ensures !Precedes(ds, x, x)
  {}

  lemma TakeGrown(p: Pool, q: Pool, s: nat, target: nat, order: seq<Region>, x: Region)
    requires Grown(p, q, s, target, order) && InOrder(p.ds, order + [x])
    requires target > |q.ss[s].instances| && Fits(q, s, x)
    ensures Grown(p, AddOne(q, s, x), s, target, order + [x])
  {
    TakeExtends(p, q, s, target, x);
    TakeGains(p, q, s, target, order, x);
    hide Extended, Gained, Fits, AddOne;
    var t := AddOne(q, s, x);
    forall r | r in order + [x] ensures !Fits(t, s, r) {
      if Fits(t, s, r) { FitsLess(q, s, x, r); }
    }
  }

  lemma SkipGrown(p: Pool, q: Pool, s: nat, target: nat, order: seq<Region>, x: Region)
    requires Grown(p, q, s, target, order) && InOrder(p.ds, order + [x])
    requires target <= |q.ss[s].instances| || !Fits(q, s, x)
    ensures Grown(p, q, s, target, order + [x])
  {
    hide Extended, Fits, Precedes, InOrder;
    forall r | r in order ensures Precedes(p.ds, r, x) && !Precedes(p.ds, x, r) { FollowsAll(p.ds, order, x, r); }
  }

  lemma {:induction false} GrowOk(p: Pool, s: nat, target: nat, order: seq<Region>)
    requires Own(p) && s < |p.ss| && InOrder(p.ds, order)
    ensures Grown(p, Grow(p, s, target, order), s, target, order)
  {
    if order == [] {
    } else {
      var init, x := order[..|order| - 1], order[|order| - 1];
      assert order == init + [x];
      hide Grown, Own;
      if init != [] { FollowsAll(p.ds, init, x, init[0]); }
      GrowOk(p, s, target, init);
      var q := Grow(p, s, target, init);
      if target > |q.ss[s].instances| && Fits(q, s, x) {
        TakeGrown(p, q, s, target, init, x);
      } else {
        SkipGrown(p, q, s, target, init, x);
      }
    }
  }

  function Regions(ds: Devices, keys: seq<Key>): seq<Region>
    requires KeysOf(ds, keys)
  {
    seq(|keys|, i requires 0 <= i < |keys| => RegionOf(ds, keys[i].1))
  }

  /** All regions, smallest first. */
  function Order(ds: Devices): seq<Region> {
    SortedKeys(ds);
    Regions(ds, Sorted(Keys(ds)))
  }

  lemma OrderOk(ds: Devices)
    ensures InOrder(ds, Order(ds))
    ensures forall r: Region :: IsRegion(ds, r) ==> r in Order(ds)
  {
    SortedKeys(ds);
    var keys, order := Sorted(Keys(ds)), Order(ds);
    forall i | 0 <= i < |keys| ensures IsRegion(ds, order[i]) && KeyOf(ds, order[i]) == keys[i] { KeyAt(ds, keys[i]); }
    forall r: Region | IsRegion(ds, r) ensures r in order {
      var i :| 0 <= i < |keys| && keys[i] == KeyOf(ds, r);
      RegionAt(ds, r);
      assert order[i] == r;
    }
    hide Sorted, Keys, KeyOf;
  }

  // ---------- one service shrinks ----------

  function ShrinkBy(pool: Pool, s: nat, k: nat): (q: Pool)
    requires s < |pool.ss|
    ensures |q.ss| == |pool.ss|
  {
    if k == 0 then pool
    else
      var q := ShrinkBy(pool, s, k - 1);
      if CanDrop(q, s) then DropLast(q, s) else q
  }

  lemma {:induction false} ShrinkByOk(p: Pool, s: nat, k: nat)
    requires Own(p) && s < |p.ss| && k <= |p.ss[s].instances|
    ensures var q := ShrinkBy(p, s, k);
            Own(q) && Same(p, q) && q.ss[s].instances == p.ss[s].instances[..|p.ss[s].instances| - k] &&
            (forall i :: 0 <= i < |p.ss| && i != s ==> q.ss[i] == p.ss[i]) &&
            (k < |p.ss[s].instances| ==> CanDrop(q, s))
  {
    hide Own, SameDevices;
    if k > 0 {
      ShrinkByOk(p, s, k - 1);
      var q := ShrinkBy(p, s, k - 1);
      DropLastOwn(q, s);
      SameTrans(p, q, DropLast(q, s));
    } else {
      SameSelf(p);
    }
    var q := ShrinkBy(p, s, k);
    if k < |p.ss[s].instances| { OwnCanDrop(q, s); }
  }

  lemma SameSelf(p: Pool)
    ensures Same(p, p)
  {}

  // ---------- allocPRR ----------

  function ShrinkTo(pool: Pool, s: nat, target: nat): (q: Pool)
    requires s < |pool.ss|
    ensures |q.ss| == |pool.ss|
  {
    var n := |pool.ss[s].instances|;
    if target < n then ShrinkBy(pool, s, n - target) else pool
  }

  function ShrinkAll(pool: Pool, targets: seq<nat>, n: nat): (q: Pool)
    requires n <= |targets| == |pool.ss|
    ensures |q.ss| == |pool.ss|
  {
    if n == 0 then pool else ShrinkTo(ShrinkAll(pool, targets, n - 1), n - 1, targets[n - 1])
  }

  function GrowTo(pool: Pool, s: nat, target: nat): (q: Pool)
    requires s < |pool.ss|
    ensures |q.ss| == |pool.ss|
  {
    if target > |pool.ss[s].instances| then Grow(pool, s, target, Order(pool.ds)) else pool
  }

  function GrowAll(pool: Pool, targets: seq<nat>, n: nat): (q: Pool)
    requires n <= |targets| == |pool.ss|
    ensures |q.ss| == |pool.ss|
  {
    if n == 0 then pool else GrowTo(GrowAll(pool, targets, n - 1), n - 1, targets[n - 1])
  }

  function Alloc(pool: Pool, targets: seq<nat>): Pool
    requires |targets| == |pool.ss|
  {
    GrowAll(ShrinkAll(pool, targets, |targets|), targets, |targets|)
  }

  function Kept(was: seq<Region>, target: nat): seq<Region> {
    if target < |was| then was[..target] else was
  }

  ghost predicate Shrunk(p: Pool, q: Pool, targets: seq<nat>, n: nat)
    requires n <= |targets| == |p.ss|
  {
    Same(p, q) && Own(q) &&
    forall s :: 0 <= s < |p.ss| ==>
      q.ss[s].instances == if s < n then Kept(p.ss[s].instances, targets[s]) else p.ss[s].instances
  }

  lemma {:induction false} ShrinkAllOk(p: Pool, targets: seq<nat>, n: nat)
    requires Own(p) && n <= |targets| == |p.ss|
    ensures Shrunk(p, ShrinkAll(p, targets, n), targets, n)
  {
    hide Own, SameDevices, ShrinkBy;
    if n > 0 {
      ShrinkAllOk(p, targets, n - 1);
      var q := ShrinkAll(p, targets, n - 1);
      var m := |q.ss[n - 1].instances|;
      if targets[n - 1] < m {
        ShrinkByOk(q, n - 1, m - targets[n - 1]);
        SameTrans(p, q, ShrinkTo(q, n - 1, targets[n - 1]));
      }
    } else {
      SameSelf(p);
    }
  }

  /** Region r was free after the shrinking phase m, service s could have used it,
      and in q a service after s has it. */
  predicate LaterGiven(m: Pool, q: Pool, s: nat, r: Region) {
    s < |m.ss| && IsRegion(m.ds, r) && IsRegion(q.ds, r) && HasBin(m.ss[s], m.ds[r.0].name, r.1) &&
    Owner(m.ds, r) == FREE && Owner(q.ds, r) > s
  }

  /** What the growing phase from m to q does for one service: the regions it held
      stay, new ones come smallest first up to the target, none it could use is
      left free below the target, and none it could use that is smaller than a new
      one is left free or was passed over and given to a later service. */
  ghost predicate Served(m: Pool, q: Pool, s: nat, target: nat)
    requires s < |m.ss| == |q.ss|
  {
    var was, now := m.ss[s].instances, q.ss[s].instances;
    was <= now && (|now| <= target || now == was) &&
    (|now| < target ==> forall r: Region :: !Fits(q, s, r)) &&
    (forall a, b :: |was| <= a < b < |now| ==> Precedes(m.ds, now[a], now[b])) &&
    (forall k, r: Region {:trigger Precedes(m.ds, r, now[k])} ::
       |was| <= k < |now| && Precedes(m.ds, r, now[k]) ==> !Fits(q, s, r) && !LaterGiven(m, q, s, r))
  }

  /** Only the first n services were given free regions. */
  ghost predicate GivenBelow(m: Pool, q: Pool, n: nat) {
    forall r: Region {:trigger IsRegion(m.ds, r)} ::
      IsRegion(m.ds, r) && IsRegion(q.ds, r) && Owner(m.ds, r) == FREE ==> Owner(q.ds, r) < n
  }

  ghost predicate GrewAll(m: Pool, q: Pool, targets: seq<nat>, n: nat)
    requires n <= |targets| == |m.ss|
  {
    Same(m, q) && Own(q) && GivenBelow(m, q, n) &&
    (forall s :: 0 <= s < n ==> Served(m, q, s, targets[s])) &&
    (forall s :: n <= s < |m.ss| ==> q.ss[s] == m.ss[s])
  }

  lemma {:induction false} BaseSame(ds: Devices, ds': Devices, n: nat)
    requires SameDevices(ds, ds') && n <= |ds|
    ensures Base(ds, n) == Base(ds', n)
  {
    if n > 0 { BaseSame(ds, ds', n - 1); }
  }

  lemma PrecedesSame(ds: Devices, ds': Devices, p: Region, q: Region)
    requires SameDevices(ds, ds')
    ensures Precedes(ds, p, q) <==> Precedes(ds', p, q)
  {
    if IsRegion(ds, p) && IsRegion(ds, q) {
      BaseSame(ds, ds', p.0);
      BaseSame(ds, ds', q.0);
    }
  }

  lemma FitsBefore(q: Pool, t: Pool, s: nat, other: nat, target: nat, r: Region)
    requires s < |q.ss| && Extended(q, t, other, target) && s != other && Fits(t, s, r)
    ensures Fits(q, s, r)
  {
    SameRegions(q.ds, t.ds, r);
  }

  lemma GivenBefore(m: Pool, q: Pool, t: Pool, s: nat, other: nat, target: nat, r: Region)
    requires s < |m.ss| && Same(m, q) && Extended(q, t, other, target) && LaterGiven(m, t, s, r)
    ensures Fits(q, s, r) || LaterGiven(m, q, s, r)
  {
    SameRegions(m.ds, q.ds, r);
    hide Own;
  }

  /** A service served earlier stays served while another one takes regions. */
  lemma StillServed(m: Pool, q: Pool, t: Pool, s: nat, target: nat, other: nat, target': nat)
    requires s < |m.ss| && Same(m, q) && Served(m, q, s, target) && Extended(q, t, other, target') && s != other
    ensures |t.ss| == |m.ss| && Served(m, t, s, target)
  {
    forall r: Region | Fits(t, s, r) ensures Fits(q, s, r) { FitsBefore(q, t, s, other, target', r); }
    forall r: Region | LaterGiven(m, t, s, r) ensures Fits(q, s, r) || LaterGiven(m, q, s, r) {
      GivenBefore(m, q, t, s, other, target', r);
    }
    hide Fits, LaterGiven, Own, Precedes, SameDevices, OnlyTo;
  }

  lemma NotLater(m: Pool, q: Pool, t: Pool, s: nat, target: nat, r: Region)
    requires Same(m, q) && GivenBelow(m, q, s) && Extended(q, t, s, target)
    ensures !LaterGiven(m, t, s, r)
  {
    SameRegions(m.ds, q.ds, r);
    hide Own;
  }

  lemma NowServed(m: Pool, q: Pool, t: Pool, s: nat, target: nat)
    requires s < |m.ss| && Same(m, q) && q.ss[s] == m.ss[s]
    requires GivenBelow(m, q, s) && Grown(q, t, s, target, Order(q.ds))
    ensures |t.ss| == |m.ss| && Served(m, t, s, target) && GivenBelow(m, t, s + 1)
  {
    OrderOk(q.ds);
    forall a: Region, b: Region ensures Precedes(m.ds, a, b) <==> Precedes(q.ds, a, b) {
      PrecedesSame(m.ds, q.ds, a, b);
    }
    forall r: Region | Fits(t, s, r) ensures r in Order(q.ds) { SameRegions(q.ds, t.ds, r); }
    forall r: Region ensures !LaterGiven(m, t, s, r) { NotLater(m, q, t, s, target, r); }
    StillBelow(m, q, t, s, s, target);
    hide Fits, LaterGiven, GivenBelow, Own, Precedes, SameDevices, Order, OnlyTo, InOrder;
  }

  lemma StillBelow(m: Pool, q: Pool, t: Pool, n: nat, s: nat, target: nat)
    requires Same(m, q) && GivenBelow(m, q, n) && Extended(q, t, s, target) && s <= n
    ensures GivenBelow(m, t, n + 1)
  {
    forall r: Region ensures IsRegion(m.ds, r) <==> IsRegion(q.ds, r) { SameRegions(m.ds, q.ds, r); }
    hide Own, Owner;
  }

  lemma GrewStep(m: Pool, q: Pool, targets: seq<nat>, n: nat)
    requires n < |targets| == |m.ss| && GrewAll(m, q, targets, n) && |q.ss[n].instances| < targets[n]
    ensures GrewAll(m, GrowTo(q, n, targets[n]), targets, n + 1)
  {
    var t := GrowTo(q, n, targets[n]);
    OrderOk(q.ds);
    GrowOk(q, n, targets[n], Order(q.ds));
    hide Fits, Own, Precedes, SameDevices, Order, OnlyTo, InOrder, Served, Satisfied, Gained, Grow, GivenBelow;
    SameTrans(m, q, t);
    NowServed(m, q, t, n, targets[n]);
    forall s | 0 <= s < n ensures Served(m, t, s, targets[s]) {
      StillServed(m, q, t, s, targets[s], n, targets[n]);
    }
  }

  lemma {:induction false} GrowAllOk(m: Pool, targets: seq<nat>, n: nat)
    requires Own(m) && n <= |targets| == |m.ss|
    ensures GrewAll(m, GrowAll(m, targets, n), targets, n)
  {
    hide Own, SameDevices, Order, Grow, Served, Fits;
    if n > 0 {
      GrowAllOk(m, targets, n - 1);
      var q := GrowAll(m, targets, n - 1);
      if |q.ss[n - 1].instances| < targets[n - 1] {
        GrewStep(m, q, targets, n - 1);
      } else {
        AlreadyServed(m, q, n - 1, targets[n - 1]);
      }
    } else {
      SameSelf(m);
    }
  }

  lemma AlreadyServed(m: Pool, q: Pool, s: nat, target: nat)
    requires s < |m.ss| == |q.ss| && q.ss[s] == m.ss[s] && target <= |q.ss[s].instances|
    ensures Served(m, q, s, target)
  {}

  /** allocPRR: ownership is kept; the shrinking phase m leaves a service above its
      target exactly its first instances and the others all of theirs; from there
      every service gains what Served says, and nothing when it is not below its
      target. */
  lemma AllocOk(p: Pool, targets: seq<nat>)
    requires Own(p) && |targets| == |p.ss|
    ensures var m, q := ShrinkAll(p, targets, |targets|), Alloc(p, targets);
            Shrunk(p, m, targets, |targets|) && Own(q) && Same(p, q) &&
            forall s :: 0 <= s < |p.ss| ==> Served(m, q, s, targets[s])
    ensures var q := Alloc(p, targets);
            forall s :: 0 <= s < |p.ss| && targets[s] <= |p.ss[s].instances| ==>
              q.ss[s].instances == p.ss[s].instances[..targets[s]]
  {
    hide Own, SameDevices, ShrinkAll, GrowAll, Fits, LaterGiven, GivenBelow;
    var m := ShrinkAll(p, targets, |targets|);
    ShrinkAllOk(p, targets, |targets|);
    GrowAllOk(m, targets, |targets|);
    SameTrans(p, m, Alloc(p, targets));
  }

  // ---------- allocInitPRR ----------

  /** The first of the regions 0 .. n-1 that service s can use. */
  function FirstFit(pool: Pool, s: nat, n: nat): (g: Option<nat>)
    requires s < |pool.ss| && n <= Count(pool.ds)
    ensures g.Some? ==> g.value < n && Fits(pool, s, RegionOf(pool.ds, g.value))
  {
    if n == 0 then None
    else if FirstFit(pool, s, n - 1).Some? then FirstFit(pool, s, n - 1)
    else if Fits(pool, s, RegionOf(pool.ds, n - 1)) then Some(n - 1)
    else None
  }

  lemma FirstFitStep(pool: Pool, s: nat, n: nat)
    requires s < |pool.ss| && n <= Count(pool.ds)
    ensures FirstFit(pool, s, n) ==
            if n == 0 then None
            else if FirstFit(pool, s, n - 1).Some? then FirstFit(pool, s, n - 1)
            else if Fits(pool, s, RegionOf(pool.ds, n - 1)) then Some(n - 1) else None
  {
    hide Fits, RegionOf;
  }

  lemma {:induction false} FirstFitOk(pool: Pool, s: nat, n: nat)
    requires s < |pool.ss| && n <= Count(pool.ds)
    ensures var g := FirstFit(pool, s, n);
            forall k: nat {:trigger RegionOf(pool.ds, k)} ::
              k < (if g.Some? then g.value else n) ==> !Fits(pool, s, RegionOf(pool.ds, k))
  {
    if n > 0 { FirstFitOk(pool, s, n - 1); }
  }

  function InitOne(pool: Pool, s: nat): (q: Pool)
    requires s < |pool.ss|
    ensures |q.ss| == |pool.ss|
  {
    var g := FirstFit(pool, s, Count(pool.ds));
    if g.Some? then AddOne(pool, s, RegionOf(pool.ds, g.value)) else pool
  }

  function InitAll(pool: Pool, n: nat): (q: Pool)
    requires n <= |pool.ss|
    ensures |q.ss| == |pool.ss|
  {
    if n == 0 then pool else InitOne(InitAll(pool, n - 1), n - 1)
  }

  /** Service s got the first region it could use, or there was none. */
  lemma InitOneOk(pool: Pool, s: nat)
    requires Own(pool) && s < |pool.ss|
    ensures var q := InitOne(pool, s);
            Own(q) && Same(pool, q) && (forall k :: 0 <= k < |pool.ss| && k != s ==> q.ss[k] == pool.ss[k]) &&
            if exists p: Region :: Fits(pool, s, p)
            then |q.ss[s].instances| == |pool.ss[s].instances| + 1 && pool.ss[s].instances <= q.ss[s].instances &&
                 var p := q.ss[s].instances[|pool.ss[s].instances|];
                 Fits(pool, s, p) &&
                 forall r: Region :: Fits(pool, s, r) ==> r == p || Glob(pool.ds, p.0, p.1) < Glob(pool.ds, r.0, r.1)
            else q == pool
  {
    var g := FirstFit(pool, s, Count(pool.ds));
    FirstFitOk(pool, s, Count(pool.ds));
    forall r: Region | Fits(pool, s, r)
      ensures g.Some? && g.value <= Glob(pool.ds, r.0, r.1) < Count(pool.ds) &&
              RegionOf(pool.ds, Glob(pool.ds, r.0, r.1)) == r
    {
      RegionAt(pool.ds, r);
    }
    if g.Some? {
      AddOneOwn(pool, s, RegionOf(pool.ds, g.value));
    } else {
      SameSelf(pool);
    }
    hide Own, SameDevices, FirstFit, Fits;
  }

  function Usable(p: Pool, s: nat): set<nat>
    requires s < |p.ss|
  {
    set g: nat | g < Count(p.ds) && Fits(p, s, RegionOf(p.ds, g))
  }

  /** The regions the first n services were given. */
  function Taken(p: Pool, n: nat): (t: set<nat>)
    requires n <= |p.ss|
    ensures |t| <= n
  {
    if n == 0 then {}
    else
      var q := InitAll(p, n - 1);
      var g := FirstFit(q, n - 1, Count(q.ds));
      Taken(p, n - 1) + if g.Some? then {g.value} else {}
  }

  lemma FindSame(ds: Devices, ds': Devices, n: nat, g: nat)
    requires SameDevices(ds, ds') && n <= |ds| && g < Base(ds, n)
    ensures Base(ds', n) == Base(ds, n) && Find(ds', n, g) == Find(ds, n, g)
  {
    BaseSame(ds, ds', n);
    BaseSame(ds, ds', n - 1);
    if g < Base(ds, n - 1) { FindSame(ds, ds', n - 1, g); }
  }

  ghost predicate InitDone(p: Pool, q: Pool, n: nat) {
    Same(p, q) && Own(q) && n <= |p.ss| && (forall s :: n <= s < |p.ss| ==> q.ss[s] == p.ss[s]) &&
    forall s :: 0 <= s < n ==> p.ss[s].instances <= q.ss[s].instances && |q.ss[s].instances| <= |p.ss[s].instances| + 1
  }

  ghost predicate RestUsable(p: Pool, q: Pool, n: nat, taken: set<nat>)
    requires |p.ss| == |q.ss|
  {
    forall s, g: nat {:trigger Fits(p, s, RegionOf(p.ds, g))} ::
      n <= s < |p.ss| && g < Count(p.ds) && g !in taken && Fits(p, s, RegionOf(p.ds, g)) ==>
        Fits(q, s, RegionOf(p.ds, g))
  }

  /** The first n services gain at most one region each, later ones nothing. */
  lemma {:induction false} InitAllOk(p: Pool, n: nat)
    requires Own(p) && n <= |p.ss|
    ensures InitDone(p, InitAll(p, n), n)
  {
    hide Own, SameDevices, Fits, FirstFit, InitOne;
    if n > 0 {
      InitAllOk(p, n - 1);
      var q := InitAll(p, n - 1);
      InitOneOk(q, n - 1);
      SameTrans(p, q, InitOne(q, n - 1));
    } else {
      SameSelf(p);
    }
  }

  /** Every region not given away stays usable for the later services. */
  lemma {:induction false} InitRest(p: Pool, n: nat)
    requires Own(p) && n <= |p.ss|
    ensures RestUsable(p, InitAll(p, n), n, Taken(p, n))
  {
    hide Own, SameDevices, Fits, FirstFit, InitOne;
    if n > 0 {
      InitRest(p, n - 1);
      InitAllOk(p, n - 1);
      var q := InitAll(p, n - 1);
      forall s, g: nat | n <= s < |p.ss| && g < Count(p.ds) && g !in Taken(p, n) && Fits(p, s, RegionOf(p.ds, g))
        ensures Fits(InitAll(p, n), s, RegionOf(p.ds, g))
      {
        StillFits(p, q, n - 1, s, g);
      }
    }
  }

  lemma StillFits(p: Pool, q: Pool, s: nat, other: nat, g: nat)
    requires Same(p, q) && s < |p.ss| && other < |p.ss| && s != other && g < Count(p.ds)
    requires Fits(q, other, RegionOf(p.ds, g)) && FirstFit(q, s, Count(q.ds)) != Some(g)
    ensures Fits(InitOne(q, s), other, RegionOf(p.ds, g))
  {
    FindSame(p.ds, q.ds, |p.ds|, g);
    var f := FirstFit(q, s, Count(q.ds));
    if f.Some? {
      OwnerAfter(q.ds, RegionOf(q.ds, f.value), s, RegionOf(q.ds, g));
    }
    hide FirstFit, Owner, Assign;
  }

  /** A service that can use more regions than there are services before it is
      given one. */
  lemma InitServes(p: Pool, s: nat)
    requires Own(p) && s < |p.ss| && |Usable(p, s)| > s
    ensures |InitAll(p, |p.ss|).ss[s].instances| == |p.ss[s].instances| + 1
  {
    InitAllOk(p, s);
    InitRest(p, s);
    var q := InitAll(p, s);
    if Usable(p, s) <= Taken(p, s) { SubsetSize(Usable(p, s), Taken(p, s)); }
    var g :| g in Usable(p, s) && g !in Taken(p, s);
    assert Fits(q, s, RegionOf(p.ds, g));
    InitOneOk(q, s);
    InitLater(p, s, |p.ss|);
    hide Own, SameDevices, Fits, FirstFit, InitOne;
  }

  lemma {:induction false} InitLater(p: Pool, s: nat, n: nat)
    requires Own(p) && s < n <= |p.ss|
    ensures InitAll(p, n).ss[s].instances == InitAll(p, s + 1).ss[s].instances
  {
    hide Own, SameDevices, InitOne;
    if s + 1 < n {
      InitLater(p, s, n - 1);
      InitAllOk(p, n - 1);
      InitOneOk(InitAll(p, n - 1), n - 1);
    }
  }

  lemma SubsetSize(a: set<nat>, b: set<nat>)
    requires a <= b
    ensures |a| <= |b|
  {
    assert b == a + (b - a) && a * (b - a) == {};
  }
}
