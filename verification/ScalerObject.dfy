/** The scaler object: the loops of scale, allocInitPRR and allocPRR over the two
    registries they share. */
module ScalerObject {
  import opened Registry
  import opened Services
  import opened Pools
  import opened Allocator
  import opened Scaler

  class ResourceScaler {
    const rsc: ResourceRegistry
    const srv: ServiceRegistry

    constructor (rsc: ResourceRegistry, srv: ServiceRegistry)
      ensures this.rsc == rsc && this.srv == srv
    {
      this.rsc := rsc;
      this.srv := srv;
    }

    function State(): Pool
      reads rsc, srv
    {
      Pool(rsc.devices, srv.services)
    }

    // the mean of a window; None stands for a division of 0 by 0
    method GetAvgWindow(window: seq<Window>) returns (avg: Option<Window>)
      ensures avg == Average(window)
    {
      var qLen, throughput := 0.0, 0.0;
      for j := 0 to |window|
        invariant qLen == LenSum(window[..j]) && throughput == RateSum(window[..j])
      {
        assert window[..j + 1][..j] == window[..j];
        qLen, throughput := qLen + window[j].qLen, throughput + window[j].throughput;
      }
      assert window[..|window|] == window;
      if |window| == 0 { return None; }
      avg := Some(Window(qLen / |window| as real, throughput / |window| as real));
    }

    // average work load of one service over its regions
    method ServiceLoad(windows: seq<seq<Window>>) returns (load: Option<real>)
      ensures load == Load(Averages(windows))
    {
      hide Average;
      ghost var averages := Averages(windows);
      load := Some(0.0);
      for j := 0 to |windows|
        invariant load == WorkSum(averages[..j])
      {
        assert averages[..j + 1][..j] == averages[..j];
        var avg := GetAvgWindow(windows[j]);
        load := Plus(load, Work(avg));
      }
      assert averages[..|windows|] == averages;
      if load.None? || |windows| == 0 { return None; }
      load := Some(load.value / |windows| as real);
    }

    method FirstTargets(windows: seq<seq<seq<Window>>>)
      returns (wanted: seq<int>, total: int, load: seq<Option<real>>, totalLoad: Option<real>)
      requires |windows| == |srv.services|
      requires forall s :: 0 <= s < |windows| ==> |windows[s]| == |srv.services[s].instances|
      ensures load == Loads(windows)
      ensures var ds := Demands(srv.services, load);
              wanted == AllWanted(ds) && total == Sum(wanted) && totalLoad == LoadSum(ds)
    {
      hide Load, Averages, AllWanted, Sum, LoadSum, Plus;
      PrefixNone();
      ghost var ds := Demands(srv.services, Loads(windows));
      wanted, total, load, totalLoad := [], 0, [], Some(0.0);
      for s := 0 to |srv.services|
        invariant |wanted| == |load| == s && load == Loads(windows)[..s]
        invariant wanted == AllWanted(ds[..s]) && total == Sum(wanted) && totalLoad == LoadSum(ds[..s])
      {
        var service := srv.services[s];
        var work := ServiceLoad(windows[s]);
        var w: int;
        if work.Some? && work.value > service.threshold - MARGIN {
          w := |service.instances| + 1;
        } else {
          w := Max(1, |service.instances| - 1);
        }
        PrefixTargets(ds, s);
        SumSnoc(wanted, w);
        wanted, total := wanted + [w], total + w;
        load, totalLoad := load + [work], Plus(totalLoad, work);
      }
      assert ds[..|ds|] == ds;
    }

    method ContentionTargets(load: seq<Option<real>>, spare: int, totalLoad: real) returns (n: seq<int>)
      requires |load| == |srv.services| && totalLoad != 0.0 && Numbers(Demands(srv.services, load))
      ensures n == Shares(Demands(srv.services, load), spare, totalLoad)
    {
      hide Share;
      ghost var ds := Demands(srv.services, load);
      n := [];
      for s := 0 to |srv.services|
        invariant n == Shares(ds[..s], spare, totalLoad)
      {
        assert ds[..s + 1][..s] == ds[..s] && ds[..s + 1][s] == ds[s] && ds[s].load == load[s];
        n := n + [Share(spare, load[s].value, totalLoad)];
      }
      assert ds[..|ds|] == ds;
    }

    // the targets before allocation; None stands for a division by zero or no number
    method Scale(windows: seq<seq<seq<Window>>>) returns (n: Option<seq<int>>)
      requires |windows| == |srv.services|
      requires forall s :: 0 <= s < |windows| ==> |windows[s]| == |srv.services[s].instances|
      ensures n == Targets(Demands(srv.services, Loads(windows)), Count(rsc.devices))
    {
      hide Loads, Shares, AllWanted, LoadSum;
      var regions := rsc.GetNumPRRs();
      var wanted, total, load, totalLoad := FirstTargets(windows);
      if total > regions {
        if totalLoad.None? || totalLoad.value == 0.0 { return None; }
        SumOfNumbers(Demands(srv.services, load));
        var shares := ContentionTargets(load, regions - |srv.services|, totalLoad.value);
        return Some(shares);
      }
      n := Some(wanted);
    }

    method Give(s: nat, dev: nat, prr: nat)
      requires s < |srv.services| && Fits(State(), s, (dev, prr))
      modifies rsc, srv
      ensures State() == AddOne(old(State()), s, (dev, prr))
    {
      rsc.devices := Put(rsc.devices, dev, prr, rsc.devices[dev].prrs[prr].(allocatedTo := s));
      srv.AddInstance(s, dev, prr);
    }

    // the loop nest of allocInitPRR for one service
    method InitService(s: nat)
      requires Own(State()) && s < |srv.services|
      modifies rsc, srv
      ensures State() == InitOne(old(State()), s)
    {
      hide Own, Find, Keys, AddOne, FirstFit, InitOne;
      ghost var p := State();
      NoneYet(p, s);
      var counter := 0;
      for i := 0 to |rsc.devices|
        invariant State() == p && counter == Base(p.ds, i) <= Count(p.ds) && FirstFit(p, s, counter) == None
      {
        BaseMonotone(p.ds, i, |p.ds|);
        for j := 0 to |rsc.devices[i].prrs|
          invariant State() == p && i < |p.ds| && counter == Base(p.ds, i) + j <= Count(p.ds)
          invariant FirstFit(p, s, counter) == None
        {
          FirstFitNext(p, s, i, j);
          var bin := srv.IsThereBinFor(s, rsc.devices[i].name, j);
          if rsc.devices[i].prrs[j].allocatedTo == FREE && bin {
            Give(s, i, j);
            return;
          }
          counter := counter + 1;
        }
      }
      NoneAtAll(p, s);
    }

    method AllocInitPRR()
      requires Own(State())
      modifies rsc, srv
      ensures State() == InitAll(old(State()), |old(srv.services)|)
    {
      ghost var p := State();
      for s := 0 to |srv.services|
        invariant |srv.services| == |p.ss| && Own(State()) && State() == InitAll(p, s)
      {
        InitOneOk(State(), s);
        InitService(s);
      }
    }

    // the release loop of allocPRR for one service
    method ShrinkService(s: nat, target: nat)
      requires Own(State()) && s < |srv.services|
      modifies rsc, srv
      ensures State() == ShrinkTo(old(State()), s, target)
    {
      hide Own, SameDevices;
      ghost var p := State();
      var held := |srv.services[s].instances|;
      if target - held < 0 {
        for i := 0 to held - target
          invariant State() == ShrinkBy(p, s, i)
        {
          ShrinkByOk(p, s, i);
          var removed := srv.RemoveLastInstance(s);
          var freed := rsc.devices[removed.0].prrs[removed.1].(allocatedTo := FREE);
          rsc.devices := Put(rsc.devices, removed.0, removed.1, freed);
        }
      }
    }

    // <size, global id> of every region
    method SizesAndIds() returns (keys: seq<Key>)
      ensures keys == Keys(rsc.devices)
    {
      keys := [];
      for i := 0 to |rsc.devices|
        invariant |keys| == Base(rsc.devices, i) <= Count(rsc.devices) && keys == Keys(rsc.devices)[..|keys|]
      {
        BaseMonotone(rsc.devices, i, |rsc.devices|);
        for j := 0 to |rsc.devices[i].prrs|
          invariant |keys| == Base(rsc.devices, i) + j <= Count(rsc.devices) && keys == Keys(rsc.devices)[..|keys|]
        {
          var id := rsc.GetGlobPRRID(i, j);
          RegionAt(rsc.devices, (i, j));
          keys := keys + [(rsc.devices[i].prrs[j].size, id.value)];
        }
      }
    }

    // the body of the growth loop of allocPRR for the region with global id `id`
    method GrowOnce(s: nat, target: nat, id: nat)
      requires s < |srv.services| && id < Count(rsc.devices)
      modifies rsc, srv
      ensures State() == GrowStep(old(State()), s, target, RegionOf(old(rsc.devices), id))
    {
      var dev := rsc.GetDeviceID(id);
      var prr := rsc.GetLocPRRID(id);
      var bin := srv.IsThereBinFor(s, rsc.devices[dev.value].name, prr.value);
      if target > |srv.services[s].instances| && rsc.devices[dev.value].prrs[prr.value].allocatedTo == FREE && bin {
        Give(s, dev.value, prr.value);
      }
    }

    // the growth loop of allocPRR for one service
    method GrowService(s: nat, target: nat)
      requires Own(State()) && s < |srv.services|
      modifies rsc, srv
      ensures State() == GrowTo(old(State()), s, target)
    {
      ghost var p := State();
      if target - |srv.services[s].instances| > 0 {
        var keys := SizesAndIds();
        keys := Sorted(keys);
        GrowBounds(p, s, target);
        hide Sorted, Keys, Order, Grow, GrowStep, Own, RegionOf, Find;
        for k := 0 to |keys|
          invariant State() == Grow(p, s, target, Order(p.ds)[..k]) && |srv.services| == |p.ss|
        {
          GrowRound(p, s, target, k);
          GrowOnce(s, target, keys[k].1);
        }
      }
    }

    method AllocPRR(n: seq<nat>)
      requires Own(State()) && |n| == |srv.services|
      modifies rsc, srv
      ensures State() == Alloc(old(State()), n)
    {
      hide Own, SameDevices, ShrinkTo, GrowTo, Served;
      ghost var p := State();
      for s := 0 to |srv.services|
        invariant |srv.services| == |p.ss| && Own(State()) && State() == ShrinkAll(p, n, s)
      {
        ShrinkAllOk(p, n, s + 1);
        ShrinkService(s, n[s]);
      }
      ghost var q := State();
      for s := 0 to |srv.services|
        invariant |srv.services| == |p.ss| && Own(State()) && State() == GrowAll(q, n, s)
      {
        GrowAllOk(q, n, s + 1);
        GrowService(s, n[s]);
      }
    }
  }

  lemma PrefixTargets(ds: seq<Demand>, s: nat)
    requires s < |ds|
    ensures AllWanted(ds[..s + 1]) == AllWanted(ds[..s]) + [Wanted(ds[s])]
    ensures LoadSum(ds[..s + 1]) == Plus(LoadSum(ds[..s]), ds[s].load)
  {
    assert ds[..s + 1][..s] == ds[..s];
  }

  lemma PrefixNone()
    ensures AllWanted([]) == [] && Sum([]) == 0 && LoadSum([]) == Some(0.0)
  {}

  lemma SumSnoc(n: seq<int>, w: int)
    ensures Sum(n + [w]) == Sum(n) + w
  {}

  lemma NoneYet(p: Pool, s: nat)
    requires s < |p.ss|
    ensures FirstFit(p, s, 0) == None
  {}

  lemma NoneAtAll(p: Pool, s: nat)
    requires s < |p.ss| && FirstFit(p, s, Count(p.ds)) == None
    ensures InitOne(p, s) == p
  {}

  lemma FirstFitTaken(p: Pool, s: nat, n: nat)
    requires s < |p.ss| && n < Count(p.ds) && FirstFit(p, s, n + 1) == Some(n)
    ensures InitOne(p, s) == AddOne(p, s, RegionOf(p.ds, n))
  {
    FirstFitKept(p, s, n + 1, Count(p.ds));
    hide FirstFit, AddOne, Fits, Find;
  }

  /** With no fit before region (i, j), the region either is the first fit or
      does not fit. */
  lemma FirstFitNext(p: Pool, s: nat, i: nat, j: nat)
    requires s < |p.ss| && i < |p.ds| && j < |p.ds[i].prrs|
    requires Base(p.ds, i) + j <= Count(p.ds) && FirstFit(p, s, Base(p.ds, i) + j) == None
    ensures var n := Base(p.ds, i) + j;
            n < Count(p.ds) &&
            if Fits(p, s, (i, j)) then InitOne(p, s) == AddOne(p, s, (i, j)) else FirstFit(p, s, n + 1) == None
  {
    hide Fits, AddOne, FirstFit, InitOne, Find, Base;
    RegionAt(p.ds, (i, j));
    FirstFitStep(p, s, Base(p.ds, i) + j + 1);
    if Fits(p, s, (i, j)) { FirstFitTaken(p, s, Base(p.ds, i) + j); }
  }

  /** Once found, the first fit stays. */
  lemma {:induction false} FirstFitKept(p: Pool, s: nat, n: nat, m: nat)
    requires s < |p.ss| && n <= m <= Count(p.ds) && FirstFit(p, s, n).Some?
    ensures FirstFit(p, s, m) == FirstFit(p, s, n)
    decreases m
  {
    if n < m { FirstFitKept(p, s, n, m - 1); }
  }

  /** The ids keep their meaning while owners change. */
  lemma SameIds(p: Pool, s: nat, target: nat, order: seq<Region>, k: nat, id: nat)
    requires Own(p) && s < |p.ss| && InOrder(p.ds, order) && k <= |order| && id < Count(p.ds)
    ensures var q := Grow(p, s, target, order[..k]);
            id < Count(q.ds) && RegionOf(q.ds, id) == RegionOf(p.ds, id)
  {
    assert InOrder(p.ds, order[..k]);
    GrowOk(p, s, target, order[..k]);
    hide Own, Satisfied, Gained;
    FindSame(p.ds, Grow(p, s, target, order[..k]).ds, |p.ds|, id);
  }

  lemma GrowBounds(p: Pool, s: nat, target: nat)
    requires s < |p.ss|
    ensures var order := Order(p.ds);
            |order| == |Sorted(Keys(p.ds))| && Grow(p, s, target, order[..0]) == p && order[..|order|] == order
  {}

  lemma GrowSnoc(p: Pool, s: nat, target: nat, order: seq<Region>, k: nat)
    requires s < |p.ss| && k < |order|
    ensures Grow(p, s, target, order[..k + 1]) == GrowStep(Grow(p, s, target, order[..k]), s, target, order[k])
  {
    assert order[..k + 1][..k] == order[..k];
    hide GrowStep;
  }

  /** One round of the growth loop, for the region the k-th sorted id names. */
  lemma GrowRound(p: Pool, s: nat, target: nat, k: nat)
    requires Own(p) && s < |p.ss| && k < |Order(p.ds)| == |Sorted(Keys(p.ds))|
    ensures var q, id := Grow(p, s, target, Order(p.ds)[..k]), Sorted(Keys(p.ds))[k].1;
            id < Count(q.ds) &&
            Grow(p, s, target, Order(p.ds)[..k + 1]) == GrowStep(q, s, target, RegionOf(q.ds, id))
  {
    hide Own, Grow, GrowStep, Sorted, Keys, Find, InOrder, Ascending;
    SortedKeys(p.ds);
    OrderOk(p.ds);
    GrowSnoc(p, s, target, Order(p.ds), k);
    SameIds(p, s, target, Order(p.ds), k, Sorted(Keys(p.ds))[k].1);
  }
}
