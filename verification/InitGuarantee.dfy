/** Exactly when the initial first fit gives every service a region. */
module InitGuarantee {
  import opened Registry
  import opened Services
  import opened Pools
  import opened Allocator

  /** Nothing is allocated to any of the services yet. */
  ghost predicate Empty(p: Pool) { Own(p) && forall s :: 0 <= s < |p.ss| ==> p.ss[s].instances == [] }

  /** Service s can use usable[s] of the regions. */
  ghost predicate Counted(p: Pool, usable: seq<nat>) {
    |p.ss| == |usable| && forall s :: 0 <= s < |usable| ==> |Usable(p, s)| == usable[s]
  }

  ghost predicate AllServed(p: Pool) {
    forall s :: 0 <= s < |p.ss| ==> InitAll(p, |p.ss|).ss[s].instances != []
  }

  // ---------- the worst system with given counts ----------

  function Top(usable: seq<nat>): (n: nat)
    ensures forall i :: 0 <= i < |usable| ==> usable[i] <= n
  {
    if usable == [] then 0
    else
      var n := Top(usable[..|usable| - 1]);
      if n < usable[|usable| - 1] then usable[|usable| - 1] else n
  }

  function Bins(n: nat): seq<Bin> { seq(n, j => Bin("d", j)) }

  /** One device on which service i can use the regions 0 .. usable[i] - 1. */
  function Ladder(usable: seq<nat>): Pool {
    Pool([Device("d", seq(Top(usable), _ => Partition(1, FREE, -1, READY)))],
         seq(|usable|, i requires 0 <= i < |usable| => Service(Bins(usable[i]), [], 0, 1.0)))
  }

  /** The ladder after the first k services, if each of them took the region of
      its own number. */
  ghost predicate Climbed(q: Pool, usable: seq<nat>, k: nat) {
    |q.ds| == 1 && q.ds[0].name == "d" && |q.ds[0].prrs| == Top(usable) && |q.ss| == |usable| &&
    (forall j :: 0 <= j < Top(usable) ==> q.ds[0].prrs[j].allocatedTo == if j < k then j else FREE) &&
    (forall i :: 0 <= i < |usable| ==> q.ss[i].bins == Bins(usable[i])) &&
    (forall i :: k <= i < |usable| ==> q.ss[i].instances == [])
  }

  lemma LadderRegions(q: Pool, usable: seq<nat>, k: nat)
    requires Climbed(q, usable, k)
    ensures Count(q.ds) == Top(usable) && forall g :: 0 <= g < Top(usable) ==> RegionOf(q.ds, g) == (0, g)
  {
    assert Base(q.ds, 1) == Top(usable);
    forall g: nat | g < Top(usable) ensures RegionOf(q.ds, g) == (0, g) {
      RegionAt(q.ds, (0, g));
      assert Glob(q.ds, 0, g) == g;
    }
  }

  lemma BinsHave(n: nat, j: nat)
    ensures Bin("d", j) in Bins(n) <==> j < n
  {
    if j < n { assert Bins(n)[j] == Bin("d", j); }
  }

  lemma LadderFits(q: Pool, usable: seq<nat>, k: nat, s: nat, g: nat)
    requires Climbed(q, usable, k) && s < |usable| && g < Top(usable)
    ensures Fits(q, s, (0, g)) <==> k <= g < usable[s]
  {
    BinsHave(usable[s], g);
  }

  lemma LadderFitsId(q: Pool, usable: seq<nat>, k: nat, s: nat, g: nat)
    requires Climbed(q, usable, k) && s < |q.ss| && g < Count(q.ds)
    ensures Fits(q, s, RegionOf(q.ds, g)) <==> k <= g < usable[s]
  {
    LadderRegions(q, usable, k);
    LadderFits(q, usable, k, s, g);
    hide Fits, RegionOf;
  }

  /** On the ladder the next service is given the lowest region nobody has, if it
      can use it. */
  lemma {:induction false} LadderChoice(q: Pool, usable: seq<nat>, k: nat, s: nat, n: nat)
    requires Climbed(q, usable, k) && s < |q.ss| == |usable| && n <= Count(q.ds)
    ensures FirstFit(q, s, n) == if k < usable[s] && k < n then Some(k) else None
    decreases n
  {
    hide *;
    FirstFitStep(q, s, n);
    if n > 0 {
      LadderChoice(q, usable, k, s, n - 1);
      LadderFitsId(q, usable, k, s, n - 1);
    }
  }

  lemma ClimbTaken(q: Pool, usable: seq<nat>, k: nat)
    requires Climbed(q, usable, k) && k < |usable| && Fits(q, k, (0, k))
    ensures Climbed(AddOne(q, k, (0, k)), usable, k + 1)
  {
    hide Top, Bins;
  }

  /** A service with more usable regions than predecessors takes its own one. */
  lemma ClimbStep(q: Pool, usable: seq<nat>, k: nat)
    requires Climbed(q, usable, k) && k < |usable| && usable[k] > k
    ensures Climbed(InitOne(q, k), usable, k + 1)
  {
    LadderRegions(q, usable, k);
    LadderFits(q, usable, k, k, k);
    LadderChoice(q, usable, k, k, Count(q.ds));
    ClimbTaken(q, usable, k);
    hide Climbed, Fits, FirstFit, Bins, AddOne;
  }

  lemma {:induction false} Climb(usable: seq<nat>, k: nat)
    requires k <= |usable| && forall i :: 0 <= i < k ==> usable[i] > i
    ensures Climbed(InitAll(Ladder(usable), k), usable, k)
    decreases k
  {
    hide InitOne, Top, Bins;
    if k > 0 {
      Climb(usable, k - 1);
      ClimbStep(InitAll(Ladder(usable), k - 1), usable, k - 1);
    }
  }

  function Below(n: nat): (a: set<nat>)
    ensures |a| == n && forall g: nat :: g in a <==> g < n
  {
    if n == 0 then {} else Below(n - 1) + {n - 1}
  }

  lemma LadderCounted(usable: seq<nat>)
    ensures Empty(Ladder(usable)) && Counted(Ladder(usable), usable)
  {
    var p := Ladder(usable);
    Climb(usable, 0);
    assert InitAll(p, 0) == p;
    LadderRegions(p, usable, 0);
    forall s | 0 <= s < |usable| ensures |Usable(p, s)| == usable[s] {
      forall g: nat | g < Top(usable) ensures Fits(p, s, RegionOf(p.ds, g)) <==> g < usable[s] {
        LadderFits(p, usable, 0, s, g);
      }
      assert Usable(p, s) == Below(usable[s]);
    }
    forall s | 0 <= s < |usable| ensures OwnsOnly(p, s) {}
  }

  /** Whenever some service can use no more regions than there are services before
      it, a system with these counts starves the first such service. */
  lemma InitStarves(usable: seq<nat>, s: nat)
    requires s < |usable| && usable[s] <= s && forall i :: 0 <= i < s ==> usable[i] > i
    ensures var p := Ladder(usable);
            Empty(p) && Counted(p, usable) && InitAll(p, |p.ss|).ss[s].instances == []
  {
    var p := Ladder(usable);
    LadderCounted(usable);
    Climb(usable, s);
    var q := InitAll(p, s);
    LadderChoice(q, usable, s, s, Count(q.ds));
    InitLater(p, s, |p.ss|);
    hide FirstFit, Fits, Own, Bins, Top;
  }

  lemma Least(usable: seq<nat>, n: nat) returns (s: nat)
    requires n < |usable| && usable[n] <= n
    ensures s < |usable| && usable[s] <= s && forall i :: 0 <= i < s ==> usable[i] > i
  {
    if k: nat :| k < n && usable[k] <= k { s := Least(usable, k); } else { s := n; }
  }

  /** allocInitPRR gives every service of every system with these counts a region
      exactly when each service can use more regions than there are services
      before it. */
  lemma InitGuarantee(usable: seq<nat>)
    ensures (forall p: Pool :: Empty(p) && Counted(p, usable) ==> AllServed(p)) <==>
            (forall s :: 0 <= s < |usable| ==> usable[s] > s)
  {
    hide Own, Usable, Top, Bins;
    if forall s :: 0 <= s < |usable| ==> usable[s] > s {
      forall p: Pool | Empty(p) && Counted(p, usable) ensures AllServed(p) {
        forall s | 0 <= s < |p.ss| ensures InitAll(p, |p.ss|).ss[s].instances != [] { InitServes(p, s); }
      }
    } else {
      var n :| 0 <= n < |usable| && usable[n] <= n;
      var s := Least(usable, n);
      InitStarves(usable, s);
      assert !AllServed(Ladder(usable));
    }
  }
}
