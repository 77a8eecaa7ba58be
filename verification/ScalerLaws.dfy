/** What the averages, the loads and the targets of the scaler mean, stated
    without the sums they are computed with. */
module ScalerLaws {
  import opened Services
  import opened Registry
  import opened Scaler

  // ---------- averages ----------

  /** n entries of x each. */
  function Repeated(x: real, n: nat): real { x * n as real }

  lemma TimesNext(x: real, n: nat)
    ensures Repeated(x, 0) == 0.0 && Repeated(x, n + 1) == Repeated(x, n) + x
  {}

  lemma TimesLess(x: real, y: real, n: real)
    requires n > 0.0
    ensures x <= y <==> x * n <= y * n
  {
    assert x < y ==> (y - x) * n > 0.0;
    assert y < x ==> (x - y) * n > 0.0;
  }

  lemma Cancel(x: real, n: real)
    requires n != 0.0
    ensures x / n * n == x
  {}

  lemma MeanBetween(lo: real, hi: real, x: real, n: nat)
    requires n > 0 && Repeated(lo, n) <= x <= Repeated(hi, n)
    ensures lo <= x / n as real <= hi
  {
    Cancel(x, n as real);
    TimesLess(lo, x / n as real, n as real);
    TimesLess(x / n as real, hi, n as real);
  }

  lemma Divided(x: real, y: real, n: real)
    requires x <= y && n > 0.0
    ensures x / n <= y / n
  {
    Cancel(x, n);
    Cancel(y, n);
    TimesLess(x / n, y / n, n);
  }

  lemma Scaling(x: real, y: real, r: real)
    requires x <= y && r >= 0.0
    ensures x * r <= y * r
  {}

  lemma {:induction false} SumsBetween(es: seq<Window>, lo: Window, hi: Window)
    requires forall i :: 0 <= i < |es| ==>
      lo.qLen <= es[i].qLen <= hi.qLen && lo.throughput <= es[i].throughput <= hi.throughput
    ensures Repeated(lo.qLen, |es|) <= LenSum(es) <= Repeated(hi.qLen, |es|)
    ensures Repeated(lo.throughput, |es|) <= RateSum(es) <= Repeated(hi.throughput, |es|)
  {
    hide Repeated;
    TimesNext(lo.qLen, |es|);
    TimesNext(hi.qLen, |es|);
    TimesNext(lo.throughput, |es|);
    TimesNext(hi.throughput, |es|);
    if es != [] {
      var n := |es| - 1;
      SumsBetween(es[..n], lo, hi);
      TimesNext(lo.qLen, n);
      TimesNext(hi.qLen, n);
      TimesNext(lo.throughput, n);
      TimesNext(hi.throughput, n);
    }
  }

  /** Each component of an average lies between any bounds of the same field, so
      between its least and greatest value. */
  lemma AverageBetween(es: seq<Window>, lo: Window, hi: Window)
    requires es != [] && forall i :: 0 <= i < |es| ==>
      lo.qLen <= es[i].qLen <= hi.qLen && lo.throughput <= es[i].throughput <= hi.throughput
    ensures Average(es).Some? &&
            var avg := Average(es).value;
            lo.qLen <= avg.qLen <= hi.qLen && lo.throughput <= avg.throughput <= hi.throughput
  {
    SumsBetween(es, lo, hi);
    MeanBetween(lo.qLen, hi.qLen, LenSum(es), |es|);
    MeanBetween(lo.throughput, hi.throughput, RateSum(es), |es|);
    hide LenSum, RateSum, Repeated;
  }

  /** A window whose entries are all alike averages to that entry. */
  lemma AverageConstant(es: seq<Window>, w: Window)
    requires es != [] && forall i :: 0 <= i < |es| ==> es[i] == w
    ensures Average(es) == Some(w)
  {
    AverageBetween(es, w, w);
    hide Average;
  }

  lemma {:induction false} SumsJoin(a: seq<Window>, b: seq<Window>)
    ensures LenSum(a + b) == LenSum(a) + LenSum(b) && RateSum(a + b) == RateSum(a) + RateSum(b)
    decreases |b|
  {
    if b == [] {
      assert a + b == a;
    } else {
      var n := |b| - 1;
      SumsJoin(a, b[..n]);
      assert (a + b)[..|a + b| - 1] == a + b[..n];
    }
  }

  /** Every entry weighs the same: joining two windows adds what they contribute.
      With the law before, this leaves nothing but the mean. */
  lemma AverageJoin(a: seq<Window>, b: seq<Window>)
    requires a != [] && b != []
    ensures Average(a).Some? && Average(b).Some? && Average(a + b).Some? &&
            var x, y, z := Average(a).value, Average(b).value, Average(a + b).value;
            Repeated(z.qLen, |a + b|) == Repeated(x.qLen, |a|) + Repeated(y.qLen, |b|) &&
            Repeated(z.throughput, |a + b|) == Repeated(x.throughput, |a|) + Repeated(y.throughput, |b|)
  {
    SumsJoin(a, b);
    AverageTimes(a);
    AverageTimes(b);
    AverageTimes(a + b);
    hide LenSum, RateSum, Average, Repeated;
  }

  lemma AverageTimes(es: seq<Window>)
    requires es != []
    ensures Average(es).Some? && Repeated(Average(es).value.qLen, |es|) == LenSum(es) &&
            Repeated(Average(es).value.throughput, |es|) == RateSum(es)
  {
    Cancel(LenSum(es), |es| as real);
    Cancel(RateSum(es), |es| as real);
    hide LenSum, RateSum;
  }

  // ---------- loads ----------

  lemma {:induction false} WorkDefined(ws: seq<Option<Window>>)
    ensures WorkSum(ws).Some? <==> forall i :: 0 <= i < |ws| ==> ws[i].Some?
  {
    if ws != [] { WorkDefined(ws[..|ws| - 1]); }
  }

  /** A service has a load exactly when it has regions and all their averages are
      numbers. */
  lemma LoadDefined(ws: seq<Option<Window>>)
    ensures Load(ws).Some? <==> ws != [] && forall i :: 0 <= i < |ws| ==> ws[i].Some?
  {
    WorkDefined(ws);
    hide WorkSum;
  }

  /** A region with queue length q and throughput t has the load q / t, and none
      while nothing leaves it. */
  lemma LoadOne(q: real, t: real)
    ensures Load([Some(Window(q, t))]) == Some(if t == 0.0 then 0.0 else q / t)
  {
    LoadAlone(Some(Window(q, t)));
    hide Load, Delay;
    if t != 0.0 { Reciprocal(q, t); }
  }

  lemma Reciprocal(q: real, t: real)
    requires t != 0.0
    ensures Delay(q, t) == q / t
  {
    var r := 1.0 / t;
    assert r * t == 1.0;
    Regroup(q, r, t);
  }

  lemma Regroup(q: real, r: real, t: real)
    requires t != 0.0 && r * t == 1.0
    ensures q * r == q / t
  {
    assert (q * r) * t == q * (r * t);
    Cancel(q * r, t);
  }

  lemma {:induction false} WorkBetween(ws: seq<Option<Window>>, lo: real, hi: real)
    requires forall i :: 0 <= i < |ws| ==> Work(ws[i]).Some? && lo <= Work(ws[i]).value <= hi
    ensures WorkSum(ws).Some? && Repeated(lo, |ws|) <= WorkSum(ws).value <= Repeated(hi, |ws|)
  {
    hide Work, Repeated;
    TimesNext(lo, |ws|);
    TimesNext(hi, |ws|);
    if ws != [] {
      WorkBetween(ws[..|ws| - 1], lo, hi);
      TimesNext(lo, |ws| - 1);
      TimesNext(hi, |ws| - 1);
    }
  }

  lemma LoadAlone(w: Option<Window>)
    ensures Load([w]) == Work(w)
  {
    assert [w][..0] == [];
    assert WorkSum([w]) == Plus(Some(0.0), Work(w)) == Work(w);
    hide Work;
    if Work(w).Some? { Single(Work(w).value); }
  }

  lemma Single(x: real)
    ensures x / (1 as real) == x
  {}

  /** The load of a service lies between the loads its regions have alone. */
  lemma LoadBetween(ws: seq<Option<Window>>, lo: real, hi: real)
    requires ws != [] && forall i :: 0 <= i < |ws| ==> Load([ws[i]]).Some? && lo <= Load([ws[i]]).value <= hi
    ensures Load(ws).Some? && lo <= Load(ws).value <= hi
  {
    forall i | 0 <= i < |ws| ensures Load([ws[i]]) == Work(ws[i]) { LoadAlone(ws[i]); }
    WorkBetween(ws, lo, hi);
    MeanBetween(lo, hi, WorkSum(ws).value, |ws|);
    hide WorkSum, Work, Repeated;
  }

  /** Regions that are all alike have the load of one of them. */
  lemma LoadConstant(ws: seq<Option<Window>>, q: real, t: real)
    requires ws != [] && forall i :: 0 <= i < |ws| ==> ws[i] == Some(Window(q, t))
    ensures Load(ws) == Some(if t == 0.0 then 0.0 else q / t)
  {
    LoadOne(q, t);
    hide Load;
    var x := Load([Some(Window(q, t))]).value;
    LoadBetween(ws, x, x);
  }

  lemma {:induction false} WorkJoin(a: seq<Option<Window>>, b: seq<Option<Window>>)
    ensures WorkSum(a + b) == Plus(WorkSum(a), WorkSum(b))
    decreases |b|
  {
    hide Work;
    if b == [] {
      assert a + b == a;
    } else {
      var n := |b| - 1;
      WorkJoin(a, b[..n]);
      assert (a + b)[..|a + b| - 1] == a + b[..n];
    }
  }

  lemma LoadTimes(ws: seq<Option<Window>>)
    requires ws != []
    ensures Load(ws).Some? == WorkSum(ws).Some?
    ensures Load(ws).Some? ==> Repeated(Load(ws).value, |ws|) == WorkSum(ws).value
  {
    if WorkSum(ws).Some? { Cancel(WorkSum(ws).value, |ws| as real); }
    hide WorkSum;
  }

  /** Every region weighs the same. */
  lemma LoadJoin(a: seq<Option<Window>>, b: seq<Option<Window>>)
    requires a != [] && b != [] && Load(a).Some? && Load(b).Some?
    ensures Load(a + b).Some? &&
            Repeated(Load(a + b).value, |a + b|) == Repeated(Load(a).value, |a|) + Repeated(Load(b).value, |b|)
  {
    LoadTimes(a);
    LoadTimes(b);
    LoadTimes(a + b);
    WorkJoin(a, b);
    hide Load, WorkSum, Repeated;
  }

  lemma DelayGrows(x: real, y: real, t: real)
    requires x <= y && t > 0.0
    ensures Delay(x, t) <= Delay(y, t)
  {
    Reciprocal(x, t);
    Reciprocal(y, t);
    Divided(x, y, t);
  }

  lemma {:induction false} WorkGrows(ws: seq<Option<Window>>, i: nat, w: Window)
    requires i < |ws| && WorkSum(ws).Some? && ws[i].Some?
    requires w.throughput == ws[i].value.throughput > 0.0 && w.qLen >= ws[i].value.qLen
    ensures var t := ws[i := Some(w)]; WorkSum(t).Some? && WorkSum(t).value >= WorkSum(ws).value
  {
    hide Delay;
    var t, n := ws[i := Some(w)], |ws| - 1;
    if i == n {
      assert t[..n] == ws[..n];
      DelayGrows(ws[i].value.qLen, w.qLen, w.throughput);
    } else {
      WorkGrows(ws[..n], i, w);
      assert t[..n] == ws[..n][i := Some(w)];
    }
  }

  /** A longer queue never makes a load smaller. */
  lemma LoadGrows(ws: seq<Option<Window>>, i: nat, w: Window)
    requires i < |ws| && Load(ws).Some? && ws[i].Some?
    requires w.throughput == ws[i].value.throughput > 0.0 && w.qLen >= ws[i].value.qLen
    ensures var t := ws[i := Some(w)]; Load(t).Some? && Load(t).value >= Load(ws).value
  {
    var t := ws[i := Some(w)];
    WorkGrows(ws, i, w);
    hide WorkSum;
    Divided(WorkSum(ws).value, WorkSum(t).value, |ws| as real);
  }

  /** From the windows to the load: a service all of whose windows report queue
      length q and throughput t has the load q / t, whatever the others report. */
  lemma LoadsOwn(windows: seq<seq<seq<Window>>>, s: nat, w: Window)
    requires s < |windows| && windows[s] != [] && w.throughput != 0.0
    requires forall j :: 0 <= j < |windows[s]| ==>
      windows[s][j] != [] && forall i :: 0 <= i < |windows[s][j]| ==> windows[s][j][i] == w
    ensures Loads(windows)[s] == Some(w.qLen / w.throughput)
  {
    forall j | 0 <= j < |windows[s]| ensures Averages(windows[s])[j] == Some(w) { AverageConstant(windows[s][j], w); }
    hide Load, Average;
    LoadConstant(Averages(windows[s]), w.qLen, w.throughput);
  }

  /** It has no load exactly if it has no region or one whose window is empty. */
  lemma LoadsDefined(windows: seq<seq<seq<Window>>>, s: nat)
    requires s < |windows|
    ensures Loads(windows)[s].None? <==> windows[s] == [] || exists j :: 0 <= j < |windows[s]| && windows[s][j] == []
  {
    var a := Averages(windows[s]);
    LoadDefined(a);
    hide Load;
    forall j | 0 <= j < |a| ensures a[j].None? <==> windows[s][j] == [] {}
  }

  // ---------- targets ----------

  /** Above its threshold, less the margin. */
  predicate Up(d: Demand) { d.load.Some? && d.load.value > d.threshold - 0.8 }

  predicate Down(d: Demand) { !Up(d) && d.held >= 2 }

  predicate Bare(d: Demand) { !Up(d) && d.held == 0 }

  function Number(ds: seq<Demand>, p: Demand -> bool): nat {
    if ds == [] then 0 else Number(ds[..|ds| - 1], p) + if p(ds[|ds| - 1]) then 1 else 0
  }

  /** The regions all services want together. */
  function Demanded(ds: seq<Demand>): int {
    HeldSum(ds) + Number(ds, Up) - Number(ds, Down) + Number(ds, Bare)
  }

  lemma {:induction false} WantedSum(ds: seq<Demand>)
    ensures Sum(AllWanted(ds)) == Demanded(ds)
  {
    if ds != [] { WantedSum(ds[..|ds| - 1]); }
  }

  /** One more region for a service above its threshold, one less for any other
      that has two or more, one for any other. */
  function OneStep(d: Demand): int { if Up(d) then d.held + 1 else if Down(d) then d.held - 1 else 1 }

  /** Contention by counts; without it every service moves by at most one region
      in the direction of its load; with it every service gets one region and its
      share of the others by load, rounded to the nearest number. */
  lemma TargetsExact(ds: seq<Demand>, regions: nat)
    ensures Contention(ds, regions) <==> Demanded(ds) > regions
    ensures var t := Targets(ds, regions);
            if Demanded(ds) <= regions
            then t.Some? && |t.value| == |ds| && forall i :: 0 <= i < |ds| ==> t.value[i] == OneStep(ds[i])
            else t.Some? ==>
                   Numbers(ds) && LoadSum(ds).Some? && LoadSum(ds).value != 0.0 && |t.value| == |ds| &&
                   forall i :: 0 <= i < |ds| ==>
                     var exact := (regions - |ds|) as real * ds[i].load.value / LoadSum(ds).value;
                     exact - 0.5 < (t.value[i] - 1) as real <= exact + 0.5
  {
    WantedSum(ds);
    AllWantedAt(ds);
    SumOfNumbers(ds);
    hide AllWanted, Sum, LoadSum, Demanded, Numbers;
  }

  lemma QuotaGrows(spare: nat, x: real, y: real, total: real)
    requires x <= y && total > 0.0
    ensures Quota(spare, x, total) <= Quota(spare, y, total)
  {
    Scaling(x, y, spare as real);
    Divided(spare as real * x, spare as real * y, total);
  }

  lemma ShareGrows(spare: nat, x: real, y: real, total: real)
    requires x <= y && total > 0.0
    ensures Share(spare, x, total) <= Share(spare, y, total)
  {
    QuotaGrows(spare, x, y, total);
    hide Quota;
  }

  lemma ShareNone(spare: nat, total: real)
    requires total > 0.0
    ensures Share(spare, 0.0, total) == 1
  {}

  /** Under contention a larger load never gets fewer regions, and a service
      without load gets one. */
  lemma SharesFollowLoads(ds: seq<Demand>, regions: nat, i: nat, j: nat)
    requires |ds| <= regions && Loaded(ds) && Demanded(ds) > regions && Targets(ds, regions).Some?
    requires i < |ds| && j < |ds|
    ensures Numbers(ds) && |Targets(ds, regions).value| == |ds| &&
            var n := Targets(ds, regions).value;
            (ds[i].load.value <= ds[j].load.value ==> n[i] <= n[j]) && (ds[i].load.value == 0.0 ==> n[i] == 1)
  {
    WantedSum(ds);
    SumOfNumbers(ds);
    LoadSumPositive(ds);
    hide AllWanted, Sum, LoadSum, Demanded, Share;
    var total, spare := LoadSum(ds).value, regions - |ds|;
    ShareNone(spare, total);
    if ds[i].load.value <= ds[j].load.value { ShareGrows(spare, ds[i].load.value, ds[j].load.value, total); }
  }
}
