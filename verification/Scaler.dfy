/** How many regions each service should have, and the object that computes the
    targets and applies them. Loads are real numbers. */
module Scaler {
  import opened Registry
  import opened Services
  import opened Pools
  import opened Allocator

  const MARGIN: real := 0.8

  /** A queue length and a throughput, as reported or averaged over a window. */
  datatype Window = Window(qLen: real, throughput: real)

  /** What one service asks for. A load of None is not a number: comparisons with
      it are false and sums with it are not numbers either. */
  datatype Demand = Demand(load: Option<real>, threshold: real, held: nat)

  function LenSum(es: seq<Window>): real {
    if es == [] then 0.0 else LenSum(es[..|es| - 1]) + es[|es| - 1].qLen
  }

  function RateSum(es: seq<Window>): real {
    if es == [] then 0.0 else RateSum(es[..|es| - 1]) + es[|es| - 1].throughput
  }

  /** getAvgWindow; an empty window divides 0 by 0. */
  function Average(es: seq<Window>): Option<Window> {
    if es == [] then None else Some(Window(LenSum(es) / |es| as real, RateSum(es) / |es| as real))
  }

  function Delay(qLen: real, throughput: real): real
    requires throughput != 0.0
  {
    qLen * (1.0 / throughput)
  }

  function Work(w: Option<Window>): Option<real> {
    if w.None? then None
    else if w.value.throughput != 0.0 then Some(Delay(w.value.qLen, w.value.throughput))
    else Some(0.0)
  }

  function Plus(a: Option<real>, b: Option<real>): Option<real> {
    if a.Some? && b.Some? then Some(a.value + b.value) else None
  }

  function WorkSum(ws: seq<Option<Window>>): Option<real> {
    if ws == [] then Some(0.0) else Plus(WorkSum(ws[..|ws| - 1]), Work(ws[|ws| - 1]))
  }

  /** The mean work of the regions of a service. */
  function Load(ws: seq<Option<Window>>): Option<real> {
    if ws == [] || WorkSum(ws).None? then None else Some(WorkSum(ws).value / |ws| as real)
  }

  /** The averages over the windows of the regions of one service. */
  function Averages(windows: seq<seq<Window>>): seq<Option<Window>> {
    seq(|windows|, j requires 0 <= j < |windows| => Average(windows[j]))
  }

  /** One load per service from the windows of its regions. */
  function Loads(windows: seq<seq<seq<Window>>>): (loads: seq<Option<real>>)
    ensures |loads| == |windows|
  {
    seq(|windows|, s requires 0 <= s < |windows| => Load(Averages(windows[s])))
  }

  function Max(a: int, b: int): int { if a < b then b else a }

  // one more above the threshold, one less below, never none
  function Wanted(d: Demand): int {
    if d.load.Some? && d.load.value > d.threshold - MARGIN then d.held + 1 else Max(1, d.held - 1)
  }

  function Sum(n: seq<int>): int { if n == [] then 0 else Sum(n[..|n| - 1]) + n[|n| - 1] }

  function LoadSum(ds: seq<Demand>): Option<real> {
    if ds == [] then Some(0.0) else Plus(LoadSum(ds[..|ds| - 1]), ds[|ds| - 1].load)
  }

  function AllWanted(ds: seq<Demand>): seq<int> {
    if ds == [] then [] else AllWanted(ds[..|ds| - 1]) + [Wanted(ds[|ds| - 1])]
  }

  predicate Contention(ds: seq<Demand>, regions: nat) { Sum(AllWanted(ds)) > regions }

  // the part of the `spare` regions that goes with a load, before rounding
  function Quota(spare: int, load: real, total: real): real
    requires total != 0.0
  {
    spare as real * load / total
  }

  function Share(spare: int, load: real, total: real): int
    requires total != 0.0
  {
    1 + (Quota(spare, load, total) + 0.5).Floor
  }

  predicate Numbers(ds: seq<Demand>) { forall i :: 0 <= i < |ds| ==> ds[i].load.Some? }

  function Shares(ds: seq<Demand>, spare: int, total: real): (n: seq<int>)
    requires total != 0.0 && Numbers(ds)
    ensures |n| == |ds| && forall i :: 0 <= i < |ds| ==> n[i] == Share(spare, ds[i].load.value, total)
  {
    if ds == [] then []
    else Shares(ds[..|ds| - 1], spare, total) + [Share(spare, ds[|ds| - 1].load.value, total)]
  }

  lemma {:induction false} SumOfNumbers(ds: seq<Demand>)
    ensures LoadSum(ds).Some? <==> Numbers(ds)
  {
    if ds != [] { SumOfNumbers(ds[..|ds| - 1]); }
  }

  /** The targets; None when contention has to divide by a total load of 0 or by
      no number. */
  function Targets(ds: seq<Demand>, regions: nat): Option<seq<int>> {
    SumOfNumbers(ds);
    if !Contention(ds, regions) then Some(AllWanted(ds))
    else if LoadSum(ds).None? || LoadSum(ds).value == 0.0 then None
    else Some(Shares(ds, regions - |ds|, LoadSum(ds).value))
  }

  /** No negative load. */
  predicate Loaded(ds: seq<Demand>) { forall i :: 0 <= i < |ds| && ds[i].load.Some? ==> ds[i].load.value >= 0.0 }

  lemma {:induction false} AllWantedAt(ds: seq<Demand>)
    ensures |AllWanted(ds)| == |ds| && forall i :: 0 <= i < |ds| ==> AllWanted(ds)[i] == Wanted(ds[i])
  {
    if ds != [] { AllWantedAt(ds[..|ds| - 1]); }
  }

  predicate AllZero(ds: seq<Demand>) { forall i :: 0 <= i < |ds| ==> ds[i].load == Some(0.0) }

  lemma {:induction false} LoadSumPositive(ds: seq<Demand>)
    requires Loaded(ds) && LoadSum(ds).Some?
    ensures LoadSum(ds).value >= 0.0 && (LoadSum(ds).value == 0.0 <==> AllZero(ds))
  {
    if ds != [] { LoadSumPositive(ds[..|ds| - 1]); }
  }

  lemma QuotaSum(spare: int, a: real, b: real, total: real)
    requires total != 0.0
    ensures Quota(spare, a + b, total) == Quota(spare, a, total) + Quota(spare, b, total)
  {}

  /** Rounding each share moves the sum by at most half a region a service. */
  lemma {:induction false} SharesSum(ds: seq<Demand>, spare: int, total: real)
    requires total != 0.0 && Numbers(ds) && LoadSum(ds).Some?
    ensures var exact := |ds| as real + Quota(spare, LoadSum(ds).value, total);
            exact - |ds| as real / 2.0 <= Sum(Shares(ds, spare, total)) as real <= exact + |ds| as real / 2.0 &&
            (ds != [] ==> exact - |ds| as real / 2.0 < Sum(Shares(ds, spare, total)) as real)
  {
    if ds != [] {
      var init, load := ds[..|ds| - 1], ds[|ds| - 1].load.value;
      SharesSum(init, spare, total);
      QuotaSum(spare, LoadSum(init).value, load, total);
      hide Quota;
      var q := Quota(spare, load, total);
      assert q - 0.5 < (q + 0.5).Floor as real <= q + 0.5;
    }
  }

  lemma WholeQuota(spare: int, total: real)
    requires total != 0.0
    ensures Quota(spare, total, total) == spare as real
  {}

  lemma QuotaPositive(spare: int, load: real, total: real)
    requires spare >= 0 && load >= 0.0 && total > 0.0
    ensures Quota(spare, load, total) >= 0.0
  {}

  /** With at least one region a service, every target is at least 1. Without
      contention the targets fit the regions; under contention their sum is off
      by no more than half a region a service, in either direction. */
  lemma TargetsOk(ds: seq<Demand>, regions: nat)
    requires |ds| <= regions && Loaded(ds) && Targets(ds, regions).Some?
    ensures var n := Targets(ds, regions).value;
            |n| == |ds| && (forall i :: 0 <= i < |n| ==> n[i] >= 1) &&
            if Contention(ds, regions) then 2 * regions - |ds| < 2 * Sum(n) <= 2 * regions + |ds| else Sum(n) <= regions
  {
    hide Contention, Quota;
    AllWantedAt(ds);
    if Contention(ds, regions) {
      SumOfNumbers(ds);
      var total, spare := LoadSum(ds).value, regions - |ds|;
      LoadSumPositive(ds);
      forall i | 0 <= i < |ds| ensures Share(spare, ds[i].load.value, total) >= 1 {
        QuotaPositive(spare, ds[i].load.value, total);
      }
      SharesSum(ds, spare, total);
      WholeQuota(spare, total);
      ContentionNotEmpty(ds, regions);
    } else {
      NoContention(ds, regions);
    }
  }

  lemma ContentionNotEmpty(ds: seq<Demand>, regions: nat)
    requires Contention(ds, regions)
    ensures ds != []
  {}

  lemma NoContention(ds: seq<Demand>, regions: nat)
    requires !Contention(ds, regions)
    ensures Sum(AllWanted(ds)) <= regions
  {}

  // ---------- when the targets are defined ----------

  /** For given loads: no targets exactly under contention with a load that is no
      number, or with no load at all. */
  lemma TargetsUndefined(ds: seq<Demand>, regions: nat)
    requires Loaded(ds)
    ensures Targets(ds, regions).None? <==> Contention(ds, regions) && (!Numbers(ds) || AllZero(ds))
  {
    SumOfNumbers(ds);
    if Numbers(ds) { LoadSumPositive(ds); }
    hide Contention, LoadSum;
  }

  function WithLoads(ds: seq<Demand>, loads: seq<real>): (es: seq<Demand>)
    requires |loads| == |ds|
  {
    seq(|ds|, i requires 0 <= i < |ds| => ds[i].(load := Some(loads[i])))
  }

  function Idle(ds: seq<Demand>): seq<Demand> { WithLoads(ds, seq(|ds|, _ => 0.0)) }

  predicate NonNegative(loads: seq<real>) { forall i :: 0 <= i < |loads| ==> loads[i] >= 0.0 }

  /** Before any load is known: scaling is defined for all loads exactly when
      there is no contention between idle services. */
  lemma DivisionExact(ds: seq<Demand>, regions: nat)
    ensures (forall loads: seq<real> {:trigger WithLoads(ds, loads)} ::
               |loads| == |ds| && NonNegative(loads) ==> Targets(WithLoads(ds, loads), regions).Some?)
       <==> !Contention(Idle(ds), regions)
  {
    hide Contention, Targets;
    var zeros := seq(|ds|, _ => 0.0);
    TargetsUndefined(Idle(ds), regions);
    if !Contention(Idle(ds), regions) {
      forall loads: seq<real> | |loads| == |ds| && NonNegative(loads)
        ensures Targets(WithLoads(ds, loads), regions).Some?
      {
        var es := WithLoads(ds, loads);
        TargetsUndefined(es, regions);
        if AllZero(es) { assert es == Idle(ds); }
      }
    } else {
      assert NonNegative(zeros) && WithLoads(ds, zeros) == Idle(ds);
    }
  }

  function HeldSum(ds: seq<Demand>): nat { if ds == [] then 0 else HeldSum(ds[..|ds| - 1]) + ds[|ds| - 1].held }

  lemma {:induction false} QuietWants(ds: seq<Demand>)
    requires forall i :: 0 <= i < |ds| ==> ds[i].held >= 1 && ds[i].load == Some(0.0) && ds[i].threshold >= MARGIN
    ensures Sum(AllWanted(ds)) <= HeldSum(ds)
  {
    if ds != [] { QuietWants(ds[..|ds| - 1]); }
  }

  lemma {:induction false} IdleHeld(ds: seq<Demand>)
    ensures HeldSum(Idle(ds)) == HeldSum(ds)
  {
    if ds != [] {
      IdleHeld(ds[..|ds| - 1]);
      assert Idle(ds)[..|ds| - 1] == Idle(ds[..|ds| - 1]);
    }
  }

  /** So it is while every threshold is at least the margin and the services, each
      with a region, fit the regions. */
  lemma HighThresholds(ds: seq<Demand>, regions: nat)
    requires HeldSum(ds) <= regions && forall i :: 0 <= i < |ds| ==> ds[i].held >= 1 && ds[i].threshold >= MARGIN
    ensures !Contention(Idle(ds), regions)
  {
    IdleHeld(ds);
    QuietWants(Idle(ds));
  }

  /** A smaller threshold where it is not: an idle service on the only region. */
  lemma LowThreshold()
    ensures var ds := [Demand(Some(0.0), 0.5, 1)];
            Contention(Idle(ds), 1) && Targets(ds, 1) == None
  {
    var ds := [Demand(Some(0.0), 0.5, 1)];
    assert Idle(ds) == ds;
  }

  // ---------- the services fit the regions ----------

  predicate Regional(ds: Devices, s: seq<Region>) { forall k :: 0 <= k < |s| ==> IsRegion(ds, s[k]) }

  function Ids(ds: Devices, s: seq<Region>): set<nat>
    requires Regional(ds, s)
  {
    if s == [] then {} else Ids(ds, s[..|s| - 1]) + {Glob(ds, s[|s| - 1].0, s[|s| - 1].1)}
  }

  lemma {:induction false} IdsOk(ds: Devices, s: seq<Region>)
    requires Regional(ds, s) && NoRepeats(s)
    ensures |Ids(ds, s)| == |s| && forall g :: g in Ids(ds, s) ==> g < Count(ds) && RegionOf(ds, g) in s
  {
    if s != [] {
      var init, p := s[..|s| - 1], s[|s| - 1];
      IdsOk(ds, init);
      RegionAt(ds, p);
      LastIsNew(s);
    }
  }

  /** The ids of the regions the first n services own. */
  function HeldIds(pool: Pool, n: nat): set<nat>
    requires n <= |pool.ss| && forall s :: 0 <= s < n ==> Regional(pool.ds, pool.ss[s].instances)
  {
    if n == 0 then {} else HeldIds(pool, n - 1) + Ids(pool.ds, pool.ss[n - 1].instances)
  }

  function HeldBy(ss: seq<Service>, n: nat): nat
    requires n <= |ss|
  {
    if n == 0 then 0 else HeldBy(ss, n - 1) + |ss[n - 1].instances|
  }

  lemma OwnRegional(pool: Pool, s: nat)
    requires Own(pool) && s < |pool.ss|
    ensures Regional(pool.ds, pool.ss[s].instances) && NoRepeats(pool.ss[s].instances)
    ensures forall p: Region :: IsRegion(pool.ds, p) ==> (p in pool.ss[s].instances <==> Owner(pool.ds, p) == s)
  {
    assert OwnsOnly(pool, s);
    hide Own, IsRegion, NoRepeats, Owner;
  }

  lemma IdsOwner(pool: Pool, s: nat)
    requires Own(pool) && s < |pool.ss|
    ensures Regional(pool.ds, pool.ss[s].instances) && |Ids(pool.ds, pool.ss[s].instances)| == |pool.ss[s].instances|
    ensures forall g :: g in Ids(pool.ds, pool.ss[s].instances) ==>
              g < Count(pool.ds) && Owner(pool.ds, RegionOf(pool.ds, g)) == s
  {
    OwnRegional(pool, s);
    IdsOk(pool.ds, pool.ss[s].instances);
    hide Own, NoRepeats, Regional;
  }

  lemma UnionSize(a: set<nat>, b: set<nat>)
    requires forall g :: g in a ==> g !in b
    ensures |a + b| == |a| + |b|
  {}

  ghost predicate OwnedBelow(ds: Devices, a: set<nat>, n: nat) {
    forall g :: g in a ==> g < Count(ds) && 0 <= Owner(ds, RegionOf(ds, g)) < n
  }

  lemma {:induction false} HeldIdsOk(pool: Pool, n: nat)
    requires Own(pool) && n <= |pool.ss|
    ensures forall s :: 0 <= s < n ==> Regional(pool.ds, pool.ss[s].instances)
    ensures |HeldIds(pool, n)| == HeldBy(pool.ss, n) && OwnedBelow(pool.ds, HeldIds(pool, n), n)
  {
    hide Own, Owner, NoRepeats, Regional, Ids, RegionOf;
    if n > 0 {
      HeldIdsOk(pool, n - 1);
      IdsOwner(pool, n - 1);
      UnionSize(HeldIds(pool, n - 1), Ids(pool.ds, pool.ss[n - 1].instances));
    }
  }

  lemma {:induction false} UpTo(a: set<nat>, n: nat)
    requires forall g :: g in a ==> g < n
    ensures |a| <= n
  {
    if n > 0 {
      UpTo(a - {n - 1}, n - 1);
      if n - 1 in a { assert a == a - {n - 1} + {n - 1}; } else { assert a == a - {n - 1}; }
    } else {
      assert a == {};
    }
  }

  /** As no region has two owners, the services never hold more regions than
      there are. */
  lemma HeldFits(pool: Pool)
    requires Own(pool)
    ensures HeldBy(pool.ss, |pool.ss|) <= Count(pool.ds)
  {
    HeldIdsOk(pool, |pool.ss|);
    hide Own, HeldBy;
    UpTo(HeldIds(pool, |pool.ss|), Count(pool.ds));
  }

  // ---------- scaling and allocating in turns ----------

  function Demands(ss: seq<Service>, loads: seq<Option<real>>): (ds: seq<Demand>)
    requires |loads| == |ss|
    ensures |ds| == |ss| && forall s :: 0 <= s < |ss| ==> ds[s] == Demand(loads[s], ss[s].threshold, |ss[s].instances|)
  {
    if ss == [] then []
    else Demands(ss[..|ss| - 1], loads[..|ss| - 1]) +
         [Demand(loads[|ss| - 1], ss[|ss| - 1].threshold, |ss[|ss| - 1].instances|)]
  }

  lemma {:induction false} HeldSumIs(ss: seq<Service>, loads: seq<Option<real>>, n: nat)
    requires |loads| == |ss| && n <= |ss|
    ensures HeldSum(Demands(ss, loads)[..n]) == HeldBy(ss, n)
  {
    if n > 0 {
      HeldSumIs(ss, loads, n - 1);
      var ds := Demands(ss, loads);
      assert ds[..n][..n - 1] == ds[..n - 1];
    }
  }

  /** Every service has a region of its own. */
  ghost predicate Serving(p: Pool) { Own(p) && forall s :: 0 <= s < |p.ss| ==> p.ss[s].instances != [] }

  /** One scaling followed by one allocation, for loads that allow it. */
  ghost predicate Rescaled(p: Pool, q: Pool, loads: seq<Option<real>>) {
    |loads| == |p.ss| && Loaded(Demands(p.ss, loads)) &&
    var n := Targets(Demands(p.ss, loads), Count(p.ds));
    n.Some? && |n.value| == |p.ss| && (forall s :: 0 <= s < |n.value| ==> n.value[s] >= 0) && q == Alloc(p, n.value)
  }

  lemma {:induction false} HeldAtLeast(ss: seq<Service>, n: nat)
    requires n <= |ss| && forall s :: 0 <= s < |ss| ==> ss[s].instances != []
    ensures HeldBy(ss, n) >= n
  {
    if n > 0 { HeldAtLeast(ss, n - 1); }
  }

  /** Whenever the targets are defined they can be allocated, each at least 1. */
  lemma DemandsOk(p: Pool, loads: seq<Option<real>>)
    requires Serving(p) && |loads| == |p.ss| && Loaded(Demands(p.ss, loads))
    ensures var n := Targets(Demands(p.ss, loads), Count(p.ds));
            n.Some? ==> |n.value| == |p.ss| && forall s :: 0 <= s < |n.value| ==> n.value[s] >= 1
  {
    HeldFits(p);
    HeldAtLeast(p.ss, |p.ss|);
    var ds := Demands(p.ss, loads);
    hide Own, Targets, HeldBy, Loaded;
    if Targets(ds, Count(p.ds)).Some? { TargetsOk(ds, Count(p.ds)); }
  }

  function Known(loads: seq<real>): seq<Option<real>> { seq(|loads|, i requires 0 <= i < |loads| => Some(loads[i])) }

  lemma KnownLoads(ss: seq<Service>, loads: seq<real>)
    requires |loads| == |ss|
    ensures WithLoads(Demands(ss, Known(loads)), loads) == Demands(ss, Known(loads))
  {}

  lemma HeldDemands(p: Pool, loads: seq<Option<real>>)
    requires Serving(p) && |loads| == |p.ss|
    ensures HeldSum(Demands(p.ss, loads)) <= Count(p.ds)
    ensures forall s :: 0 <= s < |p.ss| ==> p.ss[s].instances != []
  {
    HeldFits(p);
    hide Own, HeldBy, HeldSum;
    HeldSumIs(p.ss, loads, |p.ss|);
    assert Demands(p.ss, loads)[..|p.ss|] == Demands(p.ss, loads);
  }

  /** With thresholds of at least the margin they are defined for all loads. */
  lemma RescalePossible(p: Pool, loads: seq<real>)
    requires Serving(p) && |loads| == |p.ss| && NonNegative(loads)
    requires forall s :: 0 <= s < |p.ss| ==> p.ss[s].threshold >= MARGIN
    ensures Targets(Demands(p.ss, Known(loads)), Count(p.ds)).Some?
  {
    hide Serving, Targets, HeldSum, Contention, WithLoads, NonNegative;
    var ds := Demands(p.ss, Known(loads));
    HeldDemands(p, Known(loads));
    KnownLoads(p.ss, loads);
    HighThresholds(ds, Count(p.ds));
    DivisionExact(ds, Count(p.ds));
    assert Targets(WithLoads(ds, loads), Count(p.ds)).Some?;
  }

  lemma ServedNotEmpty(m: Pool, q: Pool, was: seq<Region>, s: nat, target: nat)
    requires s < |m.ss| == |q.ss| && Served(m, q, s, target) && m.ss[s].instances == Kept(was, target)
    requires was != [] && target >= 1
    ensures q.ss[s].instances != []
  {}

  /** Also when the targets ask for more regions than there are, scaling and
      allocating never takes the last region of a service, whatever the
      thresholds. */
  lemma RescaleKeepsServing(p: Pool, q: Pool, loads: seq<Option<real>>)
    requires Serving(p) && Rescaled(p, q, loads)
    ensures Serving(q) && Same(p, q)
  {
    DemandsOk(p, loads);
    var n := Targets(Demands(p.ss, loads), Count(p.ds)).value;
    AllocOk(p, n);
    var m := ShrinkAll(p, n, |n|);
    hide Targets, Own, Alloc, SameDevices, Served, Kept, ShrinkAll, Loaded;
    forall s | 0 <= s < |q.ss| ensures q.ss[s].instances != [] {
      ServedNotEmpty(m, q, p.ss[s].instances, s, n[s]);
    }
  }

  /** Any number of rounds. */
  lemma {:induction false} RoundsKeepServing(pools: seq<Pool>, loads: seq<seq<Option<real>>>, k: nat)
    requires |pools| == |loads| + 1 && k < |pools| && Serving(pools[0])
    requires forall i, j :: 0 <= i < |loads| && j == i + 1 ==> Rescaled(pools[i], pools[j], loads[i])
    ensures Serving(pools[k]) && Same(pools[0], pools[k])
  {
    hide Serving, Rescaled, SameDevices;
    if k == 0 {
      SameSelf(pools[0]);
    } else {
      RoundsKeepServing(pools, loads, k - 1);
      RescaleKeepsServing(pools[k - 1], pools[k], loads[k - 1]);
      SameTrans(pools[0], pools[k - 1], pools[k]);
    }
  }
}
