/** The services, their bitstreams and the regions allocated to them. */
module Services {
  import opened Modular
  import opened Registry

  // local region id on a device the bitstream was built for
  datatype Bin = Bin(device: string, prr: int)

  type Region = (nat, nat)   // device id, local region id

  datatype Service = Service(bins: seq<Bin>, instances: seq<Region>, rrFlag: nat, threshold: real)

  predicate NoRepeats(s: seq<Region>) { forall a, b :: 0 <= a < b < |s| ==> s[a] != s[b] }

  predicate HasBin(s: Service, device: string, prr: int) { Bin(device, prr) in s.bins }

  /** addInstance keeps a region at most once. */
  function Added(s: Service, p: Region): Service {
    if p in s.instances then s else s.(instances := s.instances + [p])
  }

  class ServiceRegistry {
    var services: seq<Service>

    constructor ()
      ensures services == []
    {
      services := [];
    }

    // registerService: the id is the number of services so far
    method RegisterService(bins: seq<Bin>, threshold: real) returns (id: nat)
      modifies this
      ensures services == old(services) + [Service(bins, [], 0, threshold)] && id == |old(services)|
    {
      id := |services|;
      services := services + [Service(bins, [], 0, threshold)];
    }

    method IsThereBinFor(service: nat, device: string, prr: int) returns (yes: bool)
      requires service < |services|
      ensures yes <==> Bin(device, prr) in services[service].bins
    {
      var bins := services[service].bins;
      for i := 0 to |bins|
        invariant forall k :: 0 <= k < i ==> bins[k] != Bin(device, prr)
      {
        if bins[i].device == device {
          if bins[i].prr == prr { return true; }
        }
      }
      yes := false;
    }

    method AddInstance(service: nat, dev: nat, prr: nat)
      requires service < |services|
      modifies this
      ensures services == old(services)[service := Added(old(services)[service], (dev, prr))]
    {
      var alreadyAdded := false;
      var instances := services[service].instances;
      for i := 0 to |instances|
        invariant !alreadyAdded && (dev, prr) !in instances[..i]
      {
        if instances[i].0 == dev && instances[i].1 == prr {
          alreadyAdded := true;
          break;
        }
      }
      if !alreadyAdded {
        assert instances == instances[..|instances|];
        services := services[service := services[service].(instances := instances + [(dev, prr)])];
      }
    }

    method RemoveLastInstance(service: nat) returns (removed: Region)
      requires service < |services| && services[service].instances != []
      modifies this
      ensures var was := old(services)[service].instances;
              removed == was[|was| - 1] &&
              services == old(services)[service := old(services)[service].(instances := was[..|was| - 1])]
    {
      var was := services[service].instances;
      removed := was[|was| - 1];
      services := services[service := services[service].(instances := was[..|was| - 1])];
    }

    method IncrRRFlag(service: nat)
      requires service < |services|
      modifies this
      ensures services == old(services)[service := old(services)[service].(rrFlag := old(services)[service].rrFlag + 1)]
    {
      services := services[service := services[service].(rrFlag := services[service].rrFlag + 1)];
    }
  }

  // ---------- round robin over the instances of a service ----------

  /** The instance the next request of a service goes to. */
  function NextInstance(s: Service): Region
    requires s.instances != []
  {
    s.instances[s.rrFlag % |s.instances|]
  }

  /** And the service once that request has been sent there. */
  function AfterRequest(s: Service): Service { s.(rrFlag := s.rrFlag + 1) }

  class TaskQueueManager {
    const rsc: ResourceRegistry
    const srv: ServiceRegistry

    constructor (rsc: ResourceRegistry, srv: ServiceRegistry)
      ensures this.rsc == rsc && this.srv == srv
    {
      this.rsc := rsc;
      this.srv := srv;
    }

    // determinPRR with LocRR
    method DeterminePRR(service: nat) returns (glob: Option<nat>)
      requires service < |srv.services| && srv.services[service].instances != []
      modifies srv
      ensures var s := old(srv.services)[service];
              var p := NextInstance(s);
              srv.services == old(srv.services)[service := AfterRequest(s)] &&
              glob == if Pair(rsc.devices, p.0, p.1) then Some(Glob(rsc.devices, p.0, p.1)) else None
    {
      var s := srv.services[service];
      var index := s.rrFlag % |s.instances|;
      glob := rsc.GetGlobPRRID(s.instances[index].0, s.instances[index].1);
      srv.IncrRRFlag(service);
    }
  }

  /** How many of k requests, the first one with flag f, go to instance r of m. */
  function Hits(f: nat, k: nat, m: nat, r: nat): nat
    requires m > 0
  {
    if k == 0 then 0 else Hits(f, k - 1, m, r) + if (f + k - 1) % m == r then 1 else 0
  }

  lemma NextMultiple(n: nat, m: nat, r: nat)
    requires r < m
    ensures (n + 1 + m - 1 - r) / m == (n + m - 1 - r) / m + if n % m == r then 1 else 0
  {
    var q, x := n / m, n % m;
    assert n == m * q + x;
    if x == r {
      Quotient(m, q + 1, 0, n + m - r);
      Quotient(m, q, m - 1, n + m - 1 - r);
    } else if x > r {
      Quotient(m, q + 1, x - r, n + m - r);
      Quotient(m, q + 1, x - r - 1, n + m - 1 - r);
    } else {
      Quotient(m, q, x + m - r, n + m - r);
      Quotient(m, q, x + m - 1 - r, n + m - 1 - r);
    }
  }

  lemma Quotient(m: nat, q: nat, x: nat, n: nat)
    requires x < m && n == m * q + x
    ensures n / m == q
  {
    var d := q - n / m;
    assert m * d == m * q - m * (n / m) == n % m - x;
    Grows(m, d);
  }

  lemma {:induction false} HitsClosed(f: nat, k: nat, m: nat, r: nat)
    requires r < m
    ensures Hits(f, k, m, r) == (f + k + m - 1 - r) / m - (f + m - 1 - r) / m
    decreases k
  {
    if k > 0 {
      HitsClosed(f, k - 1, m, r);
      NextMultiple(f + k - 1, m, r);
    }
  }

  lemma CeilingQuotient(k: nat, m: nat)
    requires m > 0
    ensures (k + m - 1) / m == k / m + if k % m == 0 then 0 else 1
  {
    var p, y := k / m, k % m;
    assert k == m * p + y;
    if y == 0 {
      Quotient(m, p, m - 1, k + m - 1);
    } else {
      assert m * (p + 1) == m * p + m;
      Quotient(m, p + 1, y - 1, k + m - 1);
    }
  }

  lemma SumQuotient(m: nat, q: nat, x: nat, p: nat, y: nat, n: nat)
    requires x < m && y < m && n == m * q + x + m * p + y
    ensures n / m == q + p + if x + y < m then 0 else 1
  {
    assert m * (q + p) == m * q + m * p;
    if x + y < m {
      Quotient(m, q + p, x + y, n);
    } else {
      assert m * (q + p + 1) == m * (q + p) + m;
      Quotient(m, q + p + 1, x + y - m, n);
    }
  }

  lemma QuotientSum(a: nat, k: nat, m: nat)
    requires m > 0
    ensures k / m <= (a + k) / m - a / m <= (k + m - 1) / m
  {
    SumQuotient(m, a / m, a % m, k / m, k % m, a + k);
    CeilingQuotient(k, m);
  }

  /** Any k consecutive requests of a service with m instances reach every
      instance k / m times, rounded down or up. */
  lemma RoundRobinIsFair(f: nat, k: nat, m: nat, r: nat)
    requires r < m
    ensures k / m <= Hits(f, k, m, r) <= (k + m - 1) / m
  {
    HitsClosed(f, k, m, r);
    QuotientSum(f + m - 1 - r, k, m);
  }

  /** The regions k consecutive requests go to. */
  function Chosen(s: Service, k: nat): (ps: seq<Region>)
    requires s.instances != []
    ensures |ps| == k
    decreases k
  {
    if k == 0 then [] else [NextInstance(s)] + Chosen(AfterRequest(s), k - 1)
  }

  function Times(ps: seq<Region>, p: Region): nat {
    if ps == [] then 0 else (if ps[0] == p then 1 else 0) + Times(ps[1..], p)
  }

  lemma {:induction false} HitsFirst(f: nat, k: nat, m: nat, r: nat)
    requires m > 0
    ensures Hits(f, k + 1, m, r) == (if f % m == r then 1 else 0) + Hits(f + 1, k, m, r)
    decreases k
  {
    if k > 0 { HitsFirst(f, k - 1, m, r); }
  }

  lemma {:induction false} TimesHits(s: Service, k: nat, r: nat)
    requires r < |s.instances| && NoRepeats(s.instances)
    ensures Times(Chosen(s, k), s.instances[r]) == Hits(s.rrFlag, k, |s.instances|, r)
    decreases k
  {
    if k > 0 {
      var m := |s.instances|;
      TimesHits(AfterRequest(s), k - 1, r);
      HitsFirst(s.rrFlag, k - 1, m, r);
      assert s.instances[s.rrFlag % m] == s.instances[r] <==> s.rrFlag % m == r;
    }
  }

  lemma {:induction false} TimesIn(ps: seq<Region>, p: Region)
    ensures Times(ps, p) > 0 <==> p in ps
  {
    if ps != [] { TimesIn(ps[1..], p); }
  }

  /** Whatever the flag, among the regions k consecutive requests go to, each of
      the m different instances occurs k / m times, rounded down or up; so any m
      consecutive requests reach all of them. */
  lemma RequestsAreFair(s: Service, k: nat, p: Region)
    requires p in s.instances && NoRepeats(s.instances)
    ensures var m := |s.instances|;
            k / m <= Times(Chosen(s, k), p) <= (k + m - 1) / m && (k >= m ==> p in Chosen(s, k))
  {
    var m := |s.instances|;
    var r :| 0 <= r < m && s.instances[r] == p;
    TimesHits(s, k, r);
    RoundRobinIsFair(s.rrFlag, k, m, r);
    TimesIn(Chosen(s, k), p);
    if k >= m { AtLeastOne(k, m); }
    hide Chosen, Times, Hits;
  }

  lemma AtLeastOne(k: nat, m: nat)
    requires k >= m > 0
    ensures k / m >= 1
  {
    Quotient(m, k / m, k % m, k);
  }
}
