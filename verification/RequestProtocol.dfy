/** The life of requests: applications, the task queue, the queues of the regions
    and of the devices, and the release, interleaved in any order. */
module RequestProtocol {
  import opened Registry
  import opened Services

  /** What does not change: the service of each application, the device of each
      region and the regions of each service. */
  datatype Config = Config(service: seq<nat>, device: seq<nat>, devices: nat, inst: seq<seq<nat>>)
  {
    predicate Valid() {
      (forall a :: 0 <= a < |service| ==> service[a] < |inst| && inst[service[a]] != []) &&
      (forall p :: 0 <= p < |device| ==> device[p] < devices) &&
      (forall s, k :: 0 <= s < |inst| && 0 <= k < |inst[s]| ==> inst[s][k] < |device|)
    }
  }

  /** Where an application is between getDevice and releaseDevice. */
  datatype Phase =
    | NotStarted
    | InTaskDev                // its GETDEV request is in the task queue
    | InPrrq(prr: nat)         // its request waits for a region
    | Granted(prr: nat)        // getDevice has returned
    | InTaskPrg(prr: nat)      // its GETPRG request is in the task queue
    | InPrq(prr: nat)          // its request waits to be programmed
    | Programmed(prr: nat)     // getProgram has returned
    | Running(prr: nat)        // the kernel runs
    | Finished
  {
    predicate Holds(p: nat) { !NotStarted? && !InTaskDev? && !InPrrq? && !Finished? && prr == p }
  }

  datatype Req = GetDev(app: nat) | GetPrg(app: nat)

  /** `hand` is the entry a region's daemon has popped and not granted yet. The
      last line is history: who holds each region, whom each region was granted to,
      what was sent to which region, and what arrived. */
  datatype Sys = Sys(
    phase: seq<Phase>, taskQ: seq<Req>, prrq: seq<seq<nat>>, hand: seq<Option<nat>>, prq: seq<seq<nat>>,
    status: seq<Status>, prog: seq<int>, flag: seq<nat>,
    holder: seq<Option<nat>>, granted: seq<seq<nat>>, sent: seq<(nat, nat)>, arrived: seq<nat>)

  datatype Step =
    | Request(app: nat)      // getDevice pushes its request
    | Task                   // one iteration of the task queue daemon
    | Pop(prr: nat)          // a region's daemon pops
    | Grant(prr: nat)        // and, once the region is READY, grants
    | AskProgram(app: nat)   // getProgram pushes its request
    | Program(dev: nat)      // one iteration of a device's daemon
    | Execute(app: nat)
    | Release(app: nat)      // releaseDevice

  predicate Below(q: seq<nat>, n: nat) { forall k :: 0 <= k < |q| ==> q[k] < n }

  predicate Shape(c: Config, s: Sys) {
    |s.phase| == |c.service| &&
    |s.prrq| == |s.hand| == |s.status| == |s.prog| == |s.holder| == |s.granted| == |c.device| &&
    |s.prq| == c.devices && |s.flag| == |c.inst| &&
    (forall k :: 0 <= k < |s.taskQ| ==> s.taskQ[k].app < |s.phase|) &&
    (forall p :: 0 <= p < |s.hand| && s.hand[p].Some? ==> s.hand[p].value < |s.phase|) &&
    (forall p :: 0 <= p < |s.holder| && s.holder[p].Some? ==> s.holder[p].value < |s.phase|) &&
    (forall p :: 0 <= p < |s.prrq| ==> Below(s.prrq[p], |s.phase|)) &&
    (forall d :: 0 <= d < |s.prq| ==> Below(s.prq[d], |s.phase|))
  }

  predicate HasRegion(f: Phase, regions: nat) {
    f.NotStarted? || f.InTaskDev? || f.Finished? || f.prr < regions
  }

  predicate Regions(c: Config, s: Sys) { forall a :: 0 <= a < |s.phase| ==> HasRegion(s.phase[a], |c.device|) }

  predicate Enabled(c: Config, s: Sys, step: Step) {
    c.Valid() && Shape(c, s) && Regions(c, s) &&
    match step
    case Request(a) => a < |s.phase| && s.phase[a].NotStarted?
    case Task => s.taskQ != [] && (s.taskQ[0].GetPrg? ==> s.phase[s.taskQ[0].app].InTaskPrg?)
    case Pop(p) => p < |s.prrq| && s.hand[p].None? && s.prrq[p] != []
    case Grant(p) => p < |s.prrq| && s.hand[p].Some? && s.status[p] == READY
    case AskProgram(a) => a < |s.phase| && s.phase[a].Granted?
    case Program(d) => d < |s.prq| && s.prq[d] != [] && s.phase[s.prq[d][0]].InPrq?
    case Execute(a) => a < |s.phase| && s.phase[a].Programmed?
    case Release(a) => a < |s.phase| && s.phase[a].Running?
  }

  // determinPRR with LocRR
  function Choice(c: Config, s: Sys, a: nat): nat
    requires c.Valid() && Shape(c, s) && a < |s.phase|
  {
    var inst := c.inst[c.service[a]];
    inst[s.flag[c.service[a]] % |inst|]
  }

  function Dispatch(c: Config, s: Sys, a: nat): Sys
    requires c.Valid() && Shape(c, s) && a < |s.phase|
  {
    var v := c.service[a];
    var p := Choice(c, s, a);
    s.(flag := s.flag[v := s.flag[v] + 1],
       prrq := s.prrq[p := s.prrq[p] + [a]], phase := s.phase[a := InPrrq(p)], sent := s.sent + [(a, p)])
  }

  function Apply(c: Config, s: Sys, step: Step): Sys
    requires Enabled(c, s, step)
  {
    match step
    case Request(a) => s.(taskQ := s.taskQ + [GetDev(a)], phase := s.phase[a := InTaskDev], arrived := s.arrived + [a])
    case Task =>
      var t := s.(taskQ := s.taskQ[1..]);
      var a := s.taskQ[0].app;
      if s.taskQ[0].GetDev? then Dispatch(c, t, a)
      else
        var p := s.phase[a].prr;
        if s.prog[p] == c.service[a] then t.(phase := s.phase[a := Programmed(p)])
        else t.(prq := s.prq[c.device[p] := s.prq[c.device[p]] + [a]], phase := s.phase[a := InPrq(p)])
    case Pop(p) => s.(hand := s.hand[p := Some(s.prrq[p][0])], prrq := s.prrq[p := s.prrq[p][1..]])
    case Grant(p) =>
      var a := s.hand[p].value;
      s.(hand := s.hand[p := None], status := s.status[p := RUNNING], phase := s.phase[a := Granted(p)],
         holder := s.holder[p := Some(a)], granted := s.granted[p := s.granted[p] + [a]])
    case AskProgram(a) => s.(taskQ := s.taskQ + [GetPrg(a)], phase := s.phase[a := InTaskPrg(s.phase[a].prr)])
    case Program(d) =>
      var a := s.prq[d][0];
      var p := s.phase[a].prr;
      s.(prq := s.prq[d := s.prq[d][1..]], phase := s.phase[a := Programmed(p)],
         prog := if s.prog[p] == c.service[a] then s.prog else s.prog[p := c.service[a]])
    case Execute(a) => s.(phase := s.phase[a := Running(s.phase[a].prr)])
    case Release(a) =>
      var p := s.phase[a].prr;
      s.(status := s.status[p := READY], phase := s.phase[a := Finished], holder := s.holder[p := None])
  }

  ghost predicate Next(c: Config, s: Sys, step: Step, t: Sys) { Enabled(c, s, step) && t == Apply(c, s, step) }

  predicate Init(c: Config, s: Sys) {
    c.Valid() && Shape(c, s) && s.taskQ == [] && s.sent == [] && s.arrived == [] &&
    (forall a :: 0 <= a < |s.phase| ==> s.phase[a] == NotStarted) &&
    (forall p :: 0 <= p < |c.device| ==>
       s.prrq[p] == [] && s.hand[p] == None && s.status[p] == READY && s.holder[p] == None && s.granted[p] == []) &&
    (forall d :: 0 <= d < c.devices ==> s.prq[d] == []) &&
    (forall v :: 0 <= v < |c.inst| ==> s.flag[v] == 0)
  }

  // ---------- the invariant ----------

  /** A region is RUNNING exactly while an application holds it, and it has one
      holder. */
  predicate Held(phase: seq<Phase>, status: seq<Status>, holder: seq<Option<nat>>) {
    |status| == |holder| &&
    (forall p :: 0 <= p < |holder| ==> (status[p] == RUNNING <==> holder[p].Some?)) &&
    (forall a, p :: 0 <= a < |phase| && 0 <= p < |holder| ==> (phase[a].Holds(p) <==> holder[p] == Some(a)))
  }

  predicate CanRun(f: Phase) { f.Programmed? || f.Running? }

  /** A region whose holder may run a kernel is programmed with its service. */
  predicate Fitting(service: seq<nat>, phase: seq<Phase>, prog: seq<int>) {
    |phase| == |service| &&
    forall a :: 0 <= a < |phase| && CanRun(phase[a]) ==> phase[a].prr < |prog| && prog[phase[a].prr] == service[a]
  }

  predicate Once<T(==)>(q: seq<T>) { forall i, j :: 0 <= i < j < |q| ==> q[i] != q[j] }

  predicate TaskOk(phase: seq<Phase>, taskQ: seq<Req>) {
    Once(taskQ) &&
    (forall a :: 0 <= a < |phase| ==> (GetDev(a) in taskQ <==> phase[a].InTaskDev?)) &&
    (forall a :: 0 <= a < |phase| ==> (GetPrg(a) in taskQ <==> phase[a].InTaskPrg?))
  }

  /** Everyone waiting for a region, first the one in hand. */
  function Line(hand: Option<nat>, prrq: seq<nat>): seq<nat> {
    (if hand.Some? then [hand.value] else []) + prrq
  }

  predicate LineOk(phase: seq<Phase>, p: nat, line: seq<nat>) {
    Once(line) && forall a :: 0 <= a < |phase| ==> (a in line <==> phase[a] == InPrrq(p))
  }

  predicate LinesOk(phase: seq<Phase>, hand: seq<Option<nat>>, prrq: seq<seq<nat>>) {
    |hand| == |prrq| && forall p :: 0 <= p < |prrq| ==> LineOk(phase, p, Line(hand[p], prrq[p]))
  }

  predicate At(device: seq<nat>, f: Phase, d: nat) { f.InPrq? && f.prr < |device| && device[f.prr] == d }

  predicate PrqOk(device: seq<nat>, phase: seq<Phase>, prq: seq<seq<nat>>) {
    forall d :: 0 <= d < |prq| ==>
      Once(prq[d]) && forall a :: 0 <= a < |phase| ==> (a in prq[d] <==> At(device, phase[a], d))
  }

  ghost predicate Inv(c: Config, s: Sys) {
    c.Valid() && Shape(c, s) && Regions(c, s) &&
    Held(s.phase, s.status, s.holder) && Fitting(c.service, s.phase, s.prog) &&
    TaskOk(s.phase, s.taskQ) && LinesOk(s.phase, s.hand, s.prrq) && PrqOk(c.device, s.phase, s.prq)
  }

  lemma InvInit(c: Config, s: Sys)
    requires Init(c, s)
    ensures Inv(c, s)
  {}

  // ---------- what one change of phase does to each part ----------

  lemma Appended<T>(q: seq<T>, x: T)
    requires Once(q) && x !in q
    ensures Once(q + [x]) && forall y :: y in q + [x] <==> y in q || y == x
  {}

  lemma Popped<T>(q: seq<T>)
    requires Once(q) && q != []
    ensures Once(q[1..]) && forall y :: y in q[1..] <==> y in q && y != q[0]
  {}

  predicate InTask(f: Phase) { f.InTaskDev? || f.InTaskPrg? }

  lemma TaskSame(phase: seq<Phase>, taskQ: seq<Req>, a: nat, f: Phase)
    requires TaskOk(phase, taskQ) && a < |phase| && !InTask(phase[a]) && !InTask(f)
    ensures TaskOk(phase[a := f], taskQ)
  {}

  lemma TaskPush(phase: seq<Phase>, taskQ: seq<Req>, r: Req, f: Phase)
    requires TaskOk(phase, taskQ) && r.app < |phase| && !InTask(phase[r.app])
    requires if r.GetDev? then f.InTaskDev? else f.InTaskPrg?
    ensures TaskOk(phase[r.app := f], taskQ + [r])
  {}

  lemma TaskPop(phase: seq<Phase>, taskQ: seq<Req>, f: Phase)
    requires TaskOk(phase, taskQ) && taskQ != [] && taskQ[0].app < |phase| && !InTask(f)
    ensures TaskOk(phase[taskQ[0].app := f], taskQ[1..])
    ensures var g := phase[taskQ[0].app]; if taskQ[0].GetDev? then g.InTaskDev? else g.InTaskPrg?
  {}

  lemma LinesSame(phase: seq<Phase>, hand: seq<Option<nat>>, prrq: seq<seq<nat>>, a: nat, f: Phase)
    requires LinesOk(phase, hand, prrq) && a < |phase| && !phase[a].InPrrq? && !f.InPrrq?
    ensures LinesOk(phase[a := f], hand, prrq)
  {}

  lemma LinesJoin(phase: seq<Phase>, hand: seq<Option<nat>>, prrq: seq<seq<nat>>, a: nat, p: nat)
    requires LinesOk(phase, hand, prrq) && a < |phase| && !phase[a].InPrrq? && p < |prrq|
    ensures LinesOk(phase[a := InPrrq(p)], hand, prrq[p := prrq[p] + [a]])
  {
    Appended(Line(hand[p], prrq[p]), a);
    assert Line(hand[p], prrq[p] + [a]) == Line(hand[p], prrq[p]) + [a];
    hide Line, Once;
  }

  lemma LinesPop(phase: seq<Phase>, hand: seq<Option<nat>>, prrq: seq<seq<nat>>, p: nat)
    requires LinesOk(phase, hand, prrq) && p < |prrq| && hand[p].None? && prrq[p] != []
    ensures LinesOk(phase, hand[p := Some(prrq[p][0])], prrq[p := prrq[p][1..]])
  {
    assert Line(Some(prrq[p][0]), prrq[p][1..]) == Line(hand[p], prrq[p]);
    hide Line, LineOk;
  }

  lemma LinesGrant(phase: seq<Phase>, hand: seq<Option<nat>>, prrq: seq<seq<nat>>, p: nat, f: Phase)
    requires LinesOk(phase, hand, prrq) && p < |prrq| && hand[p].Some? && hand[p].value < |phase| && !f.InPrrq?
    ensures phase[hand[p].value] == InPrrq(p) && LinesOk(phase[hand[p].value := f], hand[p := None], prrq)
  {
    var line := Line(hand[p], prrq[p]);
    assert LineOk(phase, p, line) && line[0] in line;
    Popped(line);
    assert Line(None, prrq[p]) == line[1..];
    hide Line, Once;
  }

  lemma PrqSame(device: seq<nat>, phase: seq<Phase>, prq: seq<seq<nat>>, a: nat, f: Phase)
    requires PrqOk(device, phase, prq) && a < |phase| && !phase[a].InPrq? && !f.InPrq?
    ensures PrqOk(device, phase[a := f], prq)
  {}

  lemma PrqJoin(device: seq<nat>, phase: seq<Phase>, prq: seq<seq<nat>>, a: nat, p: nat)
    requires PrqOk(device, phase, prq) && a < |phase| && !phase[a].InPrq? && p < |device| && device[p] < |prq|
    ensures PrqOk(device, phase[a := InPrq(p)], prq[device[p] := prq[device[p]] + [a]])
  {}

  lemma PrqLeave(device: seq<nat>, phase: seq<Phase>, prq: seq<seq<nat>>, d: nat, f: Phase)
    requires PrqOk(device, phase, prq) && d < |prq| && prq[d] != [] && prq[d][0] < |phase| && !f.InPrq?
    ensures At(device, phase[prq[d][0]], d) && PrqOk(device, phase[prq[d][0] := f], prq[d := prq[d][1..]])
  {}

  lemma HeldSame(phase: seq<Phase>, status: seq<Status>, holder: seq<Option<nat>>, a: nat, f: Phase)
    requires Held(phase, status, holder) && a < |phase| && forall p :: phase[a].Holds(p) <==> f.Holds(p)
    ensures Held(phase[a := f], status, holder)
  {}

  lemma HeldGrant(phase: seq<Phase>, status: seq<Status>, holder: seq<Option<nat>>, a: nat, p: nat)
    requires Held(phase, status, holder) && a < |phase| && phase[a].InPrrq? && p < |status| && status[p] == READY
    ensures Held(phase[a := Granted(p)], status[p := RUNNING], holder[p := Some(a)])
  {}

  lemma HeldRelease(phase: seq<Phase>, status: seq<Status>, holder: seq<Option<nat>>, a: nat, p: nat)
    requires Held(phase, status, holder) && a < |phase| && phase[a].Holds(p) && p < |status|
    ensures Held(phase[a := Finished], status[p := READY], holder[p := None])
  {
    assert holder[p] == Some(a);
  }

  lemma FittingSame(service: seq<nat>, phase: seq<Phase>, prog: seq<int>, a: nat, f: Phase)
    requires Fitting(service, phase, prog) && a < |phase|
    requires CanRun(f) ==> f.prr < |prog| && prog[f.prr] == service[a]
    ensures Fitting(service, phase[a := f], prog)
  {}

  /** Reprogramming a region disturbs nobody: its holder is the one asking. */
  lemma FittingProgram(service: seq<nat>, phase: seq<Phase>, prog: seq<int>, status: seq<Status>,
                       holder: seq<Option<nat>>, a: nat, p: nat)
    requires Fitting(service, phase, prog) && Held(phase, status, holder) && |holder| == |prog|
    requires a < |phase| && p < |prog| && phase[a].Holds(p)
    ensures Fitting(service, phase[a := Programmed(p)], prog[p := service[a]])
  {
    forall b | 0 <= b < |phase| && CanRun(phase[b]) && phase[b].prr == p ensures b == a {
      assert phase[b].Holds(p) && holder[p] == Some(b) && holder[p] == Some(a);
    }
  }

  // ---------- every step keeps the invariant ----------

  lemma ShapeStep(c: Config, s: Sys, step: Step)
    requires Enabled(c, s, step)
    ensures Shape(c, Apply(c, s, step)) && Regions(c, Apply(c, s, step))
  {
    if step == Task { ShapeTask(c, s); }
  }

  lemma ShapeTask(c: Config, s: Sys)
    requires Enabled(c, s, Task)
    ensures Shape(c, Apply(c, s, Task)) && Regions(c, Apply(c, s, Task))
  {
    if s.taskQ[0].GetDev? {} else {}
  }

  lemma AppStep(c: Config, s: Sys, step: Step)
    requires Inv(c, s) && Enabled(c, s, step) && (step.Request? || step.AskProgram? || step.Execute? || step.Release?)
    ensures Inv(c, Apply(c, s, step))
  {
    ShapeStep(c, s, step);
    hide Held, Fitting, TaskOk, LinesOk, PrqOk, Shape;
    var a := step.app;
    var f := Apply(c, s, step).phase[a];
    LinesSame(s.phase, s.hand, s.prrq, a, f);
    PrqSame(c.device, s.phase, s.prq, a, f);
    FittingRun(c.service, s.phase, s.prog, a);
    FittingSame(c.service, s.phase, s.prog, a, f);
    match step
    case Request(_) => TaskPush(s.phase, s.taskQ, GetDev(a), f); HeldSame(s.phase, s.status, s.holder, a, f);
    case AskProgram(_) => TaskPush(s.phase, s.taskQ, GetPrg(a), f); HeldSame(s.phase, s.status, s.holder, a, f);
    case Execute(_) => TaskSame(s.phase, s.taskQ, a, f); HeldSame(s.phase, s.status, s.holder, a, f);
    case Release(_) => TaskSame(s.phase, s.taskQ, a, f); HeldRelease(s.phase, s.status, s.holder, a, s.phase[a].prr);
  }

  lemma FittingRun(service: seq<nat>, phase: seq<Phase>, prog: seq<int>, a: nat)
    requires Fitting(service, phase, prog) && a < |phase|
    ensures CanRun(phase[a]) ==> phase[a].prr < |prog| && prog[phase[a].prr] == service[a]
  {}

  lemma DispatchStep(c: Config, s: Sys)
    requires Inv(c, s) && Enabled(c, s, Task) && s.taskQ[0].GetDev?
    ensures Inv(c, Apply(c, s, Task))
  {
    ShapeStep(c, s, Task);
    hide Held, Fitting, TaskOk, LinesOk, PrqOk, Regions;
    var a := s.taskQ[0].app;
    var p := Choice(c, s, a);
    TaskPop(s.phase, s.taskQ, InPrrq(p));
    LinesJoin(s.phase, s.hand, s.prrq, a, p);
    PrqSame(c.device, s.phase, s.prq, a, InPrrq(p));
    HeldSame(s.phase, s.status, s.holder, a, InPrrq(p));
    FittingSame(c.service, s.phase, s.prog, a, InPrrq(p));
  }

  lemma AskStep(c: Config, s: Sys)
    requires Inv(c, s) && Enabled(c, s, Task) && s.taskQ[0].GetPrg?
    ensures Inv(c, Apply(c, s, Task))
  {
    ShapeStep(c, s, Task);
    hide Held, Fitting, TaskOk, LinesOk, PrqOk;
    var a := s.taskQ[0].app;
    var p := s.phase[a].prr;
    var f := if s.prog[p] == c.service[a] then Programmed(p) else InPrq(p);
    TaskPop(s.phase, s.taskQ, f);
    LinesSame(s.phase, s.hand, s.prrq, a, f);
    HeldSame(s.phase, s.status, s.holder, a, f);
    FittingSame(c.service, s.phase, s.prog, a, f);
    if f.InPrq? { PrqJoin(c.device, s.phase, s.prq, a, p); } else { PrqSame(c.device, s.phase, s.prq, a, f); }
  }

  lemma GrantStep(c: Config, s: Sys, p: nat)
    requires Inv(c, s) && Enabled(c, s, Grant(p))
    ensures Inv(c, Apply(c, s, Grant(p)))
  {
    ShapeStep(c, s, Grant(p));
    hide Held, Fitting, TaskOk, LinesOk, PrqOk, Regions;
    var a := s.hand[p].value;
    LinesGrant(s.phase, s.hand, s.prrq, p, Granted(p));
    TaskSame(s.phase, s.taskQ, a, Granted(p));
    PrqSame(c.device, s.phase, s.prq, a, Granted(p));
    HeldGrant(s.phase, s.status, s.holder, a, p);
    FittingSame(c.service, s.phase, s.prog, a, Granted(p));
  }

  lemma ProgramStep(c: Config, s: Sys, d: nat)
    requires Inv(c, s) && Enabled(c, s, Program(d))
    ensures Inv(c, Apply(c, s, Program(d)))
  {
    ShapeStep(c, s, Program(d));
    hide Held, Fitting, TaskOk, LinesOk, PrqOk;
    var a := s.prq[d][0];
    var p := s.phase[a].prr;
    PrqLeave(c.device, s.phase, s.prq, d, Programmed(p));
    TaskSame(s.phase, s.taskQ, a, Programmed(p));
    LinesSame(s.phase, s.hand, s.prrq, a, Programmed(p));
    HeldSame(s.phase, s.status, s.holder, a, Programmed(p));
    if s.prog[p] == c.service[a] { FittingSame(c.service, s.phase, s.prog, a, Programmed(p)); }
    else { FittingProgram(c.service, s.phase, s.prog, s.status, s.holder, a, p); }
  }

  lemma PopStep(c: Config, s: Sys, p: nat)
    requires Inv(c, s) && Enabled(c, s, Pop(p))
    ensures Inv(c, Apply(c, s, Pop(p)))
  {
    ShapeStep(c, s, Pop(p));
    hide Held, Fitting, TaskOk, LinesOk, PrqOk, Regions;
    LinesPop(s.phase, s.hand, s.prrq, p);
  }

  lemma NextInv(c: Config, s: Sys, step: Step, t: Sys)
    requires Inv(c, s) && Next(c, s, step, t)
    ensures Inv(c, t)
  {
    match step
    case Task => if s.taskQ[0].GetDev? { DispatchStep(c, s); } else { AskStep(c, s); }
    case Pop(p) => PopStep(c, s, p);
    case Grant(p) => GrantStep(c, s, p);
    case Program(d) => ProgramStep(c, s, d);
    case _ => AppStep(c, s, step);
    hide Inv, Apply, Enabled;
  }

  // ---------- runs: safety ----------

  ghost predicate Run(c: Config, states: seq<Sys>, steps: seq<Step>) {
    |states| == |steps| + 1 && Init(c, states[0]) &&
    forall i, j :: 0 <= i < |steps| && j == i + 1 ==> Next(c, states[i], steps[i], states[j])
  }

  lemma {:induction false} RunInv(c: Config, states: seq<Sys>, steps: seq<Step>, n: nat)
    requires Run(c, states, steps) && n < |states|
    ensures Inv(c, states[n])
    decreases n
  {
    hide Inv, Next, Init;
    if n == 0 {
      InvInit(c, states[0]);
    } else {
      RunInv(c, states, steps, n - 1);
      NextInv(c, states[n - 1], steps[n - 1], states[n]);
    }
  }

  /** In every state of every run a region has at most one holder, is RUNNING
      exactly while it has one, and is programmed with the service of any
      application that may run its kernel on it. */
  lemma Safety(c: Config, states: seq<Sys>, steps: seq<Step>, n: nat)
    requires Run(c, states, steps) && n < |states|
    ensures var s := states[n]; |s.phase| == |c.service| && |s.status| == |s.prog| == |c.device|
    ensures var s := states[n];
            forall a, b, p :: 0 <= a < |s.phase| && 0 <= b < |s.phase| && 0 <= p < |s.status| && s.phase[a].Holds(p) ==>
              s.phase[b].Holds(p) ==> a == b
    ensures var s := states[n];
            forall p :: 0 <= p < |s.status| ==>
              (s.status[p] == RUNNING <==> exists a :: 0 <= a < |s.phase| && s.phase[a].Holds(p))
    ensures var s := states[n];
            forall a :: 0 <= a < |s.phase| && s.phase[a].Running? ==>
              s.phase[a].prr < |s.prog| && s.prog[s.phase[a].prr] == c.service[a] && s.status[s.phase[a].prr] == RUNNING
  {
    RunInv(c, states, steps, n);
    var s := states[n];
    hide TaskOk, LinesOk, PrqOk, Run;
    forall p | 0 <= p < |s.status| && s.status[p] == RUNNING
      ensures exists a :: 0 <= a < |s.phase| && s.phase[a].Holds(p)
    {
      HolderExists(c, s, p);
    }
    forall a, b, p | 0 <= a < |s.phase| && 0 <= b < |s.phase| && 0 <= p < |s.status| &&
                     s.phase[a].Holds(p) && s.phase[b].Holds(p)
      ensures a == b
    {
      assert s.holder[p] == Some(a) && s.holder[p] == Some(b);
    }
    forall a | 0 <= a < |s.phase| && s.phase[a].Running? ensures s.phase[a].Holds(s.phase[a].prr) {}
  }

  /** The recorded holder of a region is an application. */
  lemma HolderExists(c: Config, s: Sys, p: nat)
    requires Inv(c, s) && p < |s.status| && s.status[p] == RUNNING
    ensures exists a :: 0 <= a < |s.phase| && s.phase[a].Holds(p)
  {}

  // ---------- runs: order ----------

  /** The applications sent to region p, in the order the task queue took them. */
  function SentTo(sent: seq<(nat, nat)>, p: nat): seq<nat> {
    if sent == [] then []
    else SentTo(sent[..|sent| - 1], p) + if sent[|sent| - 1].1 == p then [sent[|sent| - 1].0] else []
  }

  /** The regions the requests of service v were sent to, in order. */
  function Routes(service: seq<nat>, sent: seq<(nat, nat)>, v: nat): seq<nat> {
    if sent == [] then []
    else
      var (a, p) := sent[|sent| - 1];
      Routes(service, sent[..|sent| - 1], v) + if a < |service| && service[a] == v then [p] else []
  }

  function Apps(sent: seq<(nat, nat)>): seq<nat> {
    if sent == [] then [] else Apps(sent[..|sent| - 1]) + [sent[|sent| - 1].0]
  }

  // applications with a GETDEV request in the task queue
  function Asking(q: seq<Req>): seq<nat> {
    if q == [] then [] else (if q[0].GetDev? then [q[0].app] else []) + Asking(q[1..])
  }

  lemma {:induction false} AskingSnoc(q: seq<Req>, r: Req)
    ensures Asking(q + [r]) == Asking(q) + if r.GetDev? then [r.app] else []
  {
    if q == [] {
      assert ([] + [r])[1..] == [];
    } else {
      AskingSnoc(q[1..], r);
      assert (q + [r])[1..] == q[1..] + [r];
    }
  }

  /** Round robin: the i-th request of a service went to its instance i modulo
      their number. */
  predicate RoutesOk(c: Config, sent: seq<(nat, nat)>, flag: seq<nat>) {
    c.Valid() && |flag| == |c.inst| &&
    forall v :: 0 <= v < |c.inst| && c.inst[v] != [] ==> RouteOk(c.inst[v], Routes(c.service, sent, v), flag[v])
  }

  predicate RouteOk(inst: seq<nat>, route: seq<nat>, flag: nat)
    requires inst != []
  {
    |route| == flag && forall i :: 0 <= i < |route| ==> route[i] == inst[i % |inst|]
  }

  predicate PrrOrder(sent: seq<(nat, nat)>, granted: seq<seq<nat>>, hand: seq<Option<nat>>, prrq: seq<seq<nat>>) {
    |granted| == |hand| == |prrq| &&
    forall p :: 0 <= p < |granted| ==> SentTo(sent, p) == granted[p] + Line(hand[p], prrq[p])
  }

  predicate Ordered(c: Config, s: Sys) {
    Apps(s.sent) + Asking(s.taskQ) == s.arrived &&
    PrrOrder(s.sent, s.granted, s.hand, s.prrq) && RoutesOk(c, s.sent, s.flag)
  }

  lemma OrderedInit(c: Config, s: Sys)
    requires Init(c, s)
    ensures Ordered(c, s)
  {}

  lemma DispatchRoutes(c: Config, sent: seq<(nat, nat)>, flag: seq<nat>, a: nat)
    requires RoutesOk(c, sent, flag) && a < |c.service|
    ensures var v := c.service[a];
            RoutesOk(c, sent + [(a, c.inst[v][flag[v] % |c.inst[v]|])], flag[v := flag[v] + 1])
  {}

  lemma DispatchOrder(service: seq<nat>, sent: seq<(nat, nat)>, granted: seq<seq<nat>>,
                      hand: seq<Option<nat>>, prrq: seq<seq<nat>>, a: nat, p: nat)
    requires PrrOrder(sent, granted, hand, prrq) && p < |prrq|
    ensures PrrOrder(sent + [(a, p)], granted, hand, prrq[p := prrq[p] + [a]])
  {}

  lemma DispatchArrived(sent: seq<(nat, nat)>, taskQ: seq<Req>, arrived: seq<nat>, p: nat)
    requires Apps(sent) + Asking(taskQ) == arrived && taskQ != [] && taskQ[0].GetDev?
    ensures Apps(sent + [(taskQ[0].app, p)]) + Asking(taskQ[1..]) == arrived
  {
    hide *;
    AskingHead(taskQ);
    AppsSnoc(sent, taskQ[0].app, p);
    Regroup(Apps(sent), taskQ[0].app, Asking(taskQ[1..]));
  }

  lemma AskingHead(q: seq<Req>)
    requires q != [] && q[0].GetDev?
    ensures Asking(q) == [q[0].app] + Asking(q[1..])
  {}

  lemma AppsSnoc(sent: seq<(nat, nat)>, a: nat, p: nat)
    ensures Apps(sent + [(a, p)]) == Apps(sent) + [a]
  {}

  lemma Regroup(a: seq<nat>, x: nat, b: seq<nat>)
    ensures (a + [x]) + b == a + ([x] + b)
  {}

  lemma OrderedDispatch(c: Config, s: Sys)
    requires Ordered(c, s) && Enabled(c, s, Task) && s.taskQ[0].GetDev?
    ensures Ordered(c, Apply(c, s, Task))
  {
    hide PrrOrder, RoutesOk, Regions, Apps, Asking, Below;
    var a := s.taskQ[0].app;
    var p := Choice(c, s, a);
    DispatchArrived(s.sent, s.taskQ, s.arrived, p);
    DispatchOrder(c.service, s.sent, s.granted, s.hand, s.prrq, a, p);
    DispatchRoutes(c, s.sent, s.flag, a);
  }

  lemma OrderedPrr(c: Config, s: Sys, step: Step)
    requires Ordered(c, s) && Enabled(c, s, step) && (step.Pop? || step.Grant?)
    ensures Ordered(c, Apply(c, s, step))
  {
    hide RoutesOk, Regions, SentTo, Apps, Asking;
    var p := step.prr;
    match step
    case Pop(_) => assert Line(Some(s.prrq[p][0]), s.prrq[p][1..]) == Line(s.hand[p], s.prrq[p]);
    case Grant(_) => assert Line(s.hand[p], s.prrq[p]) == [s.hand[p].value] + Line(None, s.prrq[p]);
  }

  lemma OrderedAsk(c: Config, s: Sys)
    requires Ordered(c, s) && Enabled(c, s, Task) && s.taskQ[0].GetPrg?
    ensures Ordered(c, Apply(c, s, Task))
  {
    hide PrrOrder, RoutesOk, Shape, Regions, Apps;
  }

  lemma OrderedStep(c: Config, s: Sys, step: Step)
    requires Ordered(c, s) && Enabled(c, s, step)
    ensures Ordered(c, Apply(c, s, step))
  {
    hide PrrOrder, RoutesOk, Shape, Regions, Apps, Asking;
    match step
    case Task =>
      if s.taskQ[0].GetDev? { OrderedDispatch(c, s); } else { OrderedAsk(c, s); }
    case Pop(_) => OrderedPrr(c, s, step);
    case Grant(_) => OrderedPrr(c, s, step);
    case Request(a) => AskingSnoc(s.taskQ, GetDev(a));
    case AskProgram(a) => AskingSnoc(s.taskQ, GetPrg(a));
    case _ =>
  }

  lemma {:induction false} RunOrdered(c: Config, states: seq<Sys>, steps: seq<Step>, n: nat)
    requires Run(c, states, steps) && n < |states|
    ensures Ordered(c, states[n])
    decreases n
  {
    hide Ordered, Init, Enabled, Apply;
    if n == 0 {
      OrderedInit(c, states[0]);
    } else {
      RunOrdered(c, states, steps, n - 1);
      assert Next(c, states[n - 1], steps[n - 1], states[n]);
      OrderedStep(c, states[n - 1], steps[n - 1]);
    }
  }

  /** The task queue takes GETDEV requests in the order they arrived, and every
      region grants the requests sent to it in exactly that order: none is lost,
      duplicated or overtaken. */
  lemma FirstComeFirstServed(c: Config, states: seq<Sys>, steps: seq<Step>, n: nat, p: nat)
    requires Run(c, states, steps) && n < |states| && p < |c.device|
    ensures var s := states[n];
            Apps(s.sent) <= s.arrived && p < |s.granted| && p < |s.hand| && p < |s.prrq| &&
            s.granted[p] <= SentTo(s.sent, p) &&
            SentTo(s.sent, p)[|s.granted[p]|..] == Line(s.hand[p], s.prrq[p])
  {
    RunOrdered(c, states, steps, n);
    RunInv(c, states, steps, n);
    hide Run, RoutesOk, SentTo, Apps, Asking, Regions, Held, TaskOk, LinesOk, PrqOk, Fitting, Line;
  }

  /** The services of the registry in the terms of this module: their instances by
      global id, and the same flags. */
  ghost predicate Mirrors(c: Config, s: Sys, ds: Devices, ss: seq<Service>) {
    |ss| == |c.inst| == |s.flag| &&
    forall v :: 0 <= v < |ss| ==> MirrorsOne(c.inst[v], s.flag[v], ds, ss[v])
  }

  ghost predicate MirrorsOne(inst: seq<nat>, flag: nat, ds: Devices, v: Service) {
    v.rrFlag == flag && |v.instances| == |inst| &&
    forall k :: 0 <= k < |inst| ==>
      Pair(ds, v.instances[k].0, v.instances[k].1) && Glob(ds, v.instances[k].0, v.instances[k].1) == inst[k]
  }

  /** The region a request is dispatched to is the one DeterminePRR chooses, and
      the two keep in step. */
  lemma ChoiceIsNext(c: Config, s: Sys, ds: Devices, ss: seq<Service>, a: nat)
    requires c.Valid() && Shape(c, s) && a < |s.phase| && Mirrors(c, s, ds, ss)
    ensures var v := c.service[a];
            ss[v].instances != [] &&
            var p := NextInstance(ss[v]);
            Pair(ds, p.0, p.1) && Choice(c, s, a) == Glob(ds, p.0, p.1) &&
            Mirrors(c, Dispatch(c, s, a), ds, ss[v := AfterRequest(ss[v])])
  {
    hide Below;
    assert MirrorsOne(c.inst[c.service[a]], s.flag[c.service[a]], ds, ss[c.service[a]]);
  }

  function Occurs(q: seq<nat>, p: nat): nat {
    if q == [] then 0 else Occurs(q[..|q| - 1], p) + if q[|q| - 1] == p then 1 else 0
  }

  lemma {:induction false} OccursHits(inst: seq<nat>, route: seq<nat>, f: nat, k: nat, r: nat)
    requires inst != [] && Once(inst) && RouteOk(inst, route, |route|) && f + k <= |route| && r < |inst|
    ensures Occurs(route[f..f + k], inst[r]) == Hits(f, k, |inst|, r)
    decreases k
  {
    if k > 0 {
      OccursHits(inst, route, f, k - 1, r);
      var q := route[f..f + k];
      assert q[..k - 1] == route[f..f + k - 1];
      var i := (f + k - 1) % |inst|;
      assert q[k - 1] == inst[i];
      assert inst[i] == inst[r] <==> i == r;
    }
  }

  /** Any k consecutive requests of a service reach each of its m regions k / m
      times, rounded down or up. */
  lemma Fairness(c: Config, states: seq<Sys>, steps: seq<Step>, n: nat, v: nat, f: nat, k: nat, r: nat)
    requires Run(c, states, steps) && n < |states| && v < |c.inst| && r < |c.inst[v]| && Once(c.inst[v])
    requires f + k <= |Routes(c.service, states[n].sent, v)|
    ensures var m := |c.inst[v]|;
            k / m <= Occurs(Routes(c.service, states[n].sent, v)[f..f + k], c.inst[v][r]) <= (k + m - 1) / m
  {
    RunOrdered(c, states, steps, n);
    OccursHits(c.inst[v], Routes(c.service, states[n].sent, v), f, k, r);
    RoundRobinIsFair(f, k, |c.inst[v]|, r);
    hide Run, PrrOrder, Routes, Occurs, Hits, Apps, Asking;
  }

  // ---------- runs: progress ----------

  function Rank(f: Phase): nat {
    match f
    case NotStarted => 9
    case InTaskDev => 8
    case InPrrq(_) => 6
    case Granted(_) => 5
    case InTaskPrg(_) => 4
    case InPrq(_) => 3
    case Programmed(_) => 2
    case Running(_) => 1
    case Finished => 0
  }

  function Ranks(phase: seq<Phase>): nat {
    if phase == [] then 0 else Ranks(phase[..|phase| - 1]) + Rank(phase[|phase| - 1])
  }

  function Waiting(prrq: seq<seq<nat>>): nat {
    if prrq == [] then 0 else Waiting(prrq[..|prrq| - 1]) + |prrq[|prrq| - 1]|
  }

  function Measure(s: Sys): nat { Ranks(s.phase) + Waiting(s.prrq) }

  lemma {:induction false} RanksUpdate(phase: seq<Phase>, a: nat, f: Phase)
    requires a < |phase|
    ensures Ranks(phase[a := f]) == Ranks(phase) - Rank(phase[a]) + Rank(f)
  {
    var n := |phase| - 1;
    if a < n {
      RanksUpdate(phase[..n], a, f);
      assert phase[a := f][..n] == phase[..n][a := f];
    } else {
      assert phase[a := f][..n] == phase[..n];
    }
  }

  lemma {:induction false} WaitingUpdate(prrq: seq<seq<nat>>, p: nat, q: seq<nat>)
    requires p < |prrq|
    ensures Waiting(prrq[p := q]) == Waiting(prrq) - |prrq[p]| + |q|
  {
    var n := |prrq| - 1;
    if p < n {
      WaitingUpdate(prrq[..n], p, q);
      assert prrq[p := q][..n] == prrq[..n][p := q];
    } else {
      assert prrq[p := q][..n] == prrq[..n];
    }
  }

  /** Every step brings the system closer to its end. */
  lemma Progress(c: Config, s: Sys, step: Step, t: Sys)
    requires Inv(c, s) && Next(c, s, step, t)
    ensures Measure(t) < Measure(s)
  {
    hide Held, Fitting, PrqOk, Ranks, Waiting, Regions;
    match step
    case Task =>
      var a := s.taskQ[0].app;
      RanksUpdate(s.phase, a, t.phase[a]);
      assert s.taskQ[0] in s.taskQ;
      if s.taskQ[0].GetDev? { WaitingUpdate(s.prrq, Choice(c, s, a), t.prrq[Choice(c, s, a)]); }
    case Pop(p) => WaitingUpdate(s.prrq, p, s.prrq[p][1..]);
    case Grant(p) =>
      RanksUpdate(s.phase, s.hand[p].value, Granted(p));
      LinesGrant(s.phase, s.hand, s.prrq, p, Granted(p));
    case Program(d) => RanksUpdate(s.phase, s.prq[d][0], t.phase[s.prq[d][0]]);
    case _ => RanksUpdate(s.phase, step.app, t.phase[step.app]);
  }

  /** Whatever application is not finished, some step is possible. */
  lemma NeverStuck(c: Config, s: Sys, a: nat) returns (step: Step)
    requires Inv(c, s) && a < |s.phase| && !s.phase[a].Finished?
    ensures Enabled(c, s, step)
  {
    var f := s.phase[a];
    if f.InPrrq? {
      var p := f.prr;
      assert LineOk(s.phase, p, Line(s.hand[p], s.prrq[p]));
      if s.hand[p].None? {
        step := Pop(p);
      } else if s.status[p] == READY {
        step := Grant(p);
      } else {
        step := HolderMoves(c, s, s.holder[p].value, p);
      }
    } else if f.NotStarted? {
      step := Request(a);
    } else if f.InTaskDev? {
      step := TaskMoves(c, s, GetDev(a));
    } else {
      step := HolderMoves(c, s, a, f.prr);
    }
  }

  lemma TaskMoves(c: Config, s: Sys, r: Req) returns (step: Step)
    requires Inv(c, s) && r in s.taskQ
    ensures Enabled(c, s, step)
  {
    hide Held, Fitting, PrqOk, LinesOk;
    assert s.taskQ[0] in s.taskQ;
    step := Task;
  }

  lemma HolderMoves(c: Config, s: Sys, a: nat, p: nat) returns (step: Step)
    requires Inv(c, s) && a < |s.phase| && s.phase[a].Holds(p)
    ensures Enabled(c, s, step)
  {
    hide Held, Fitting, LinesOk;
    match s.phase[a]
    case Granted(_) => step := AskProgram(a);
    case InTaskPrg(_) => step := TaskMoves(c, s, GetPrg(a));
    case InPrq(_) =>
      var d := c.device[p];
      assert At(c.device, s.phase[a], d) && a in s.prq[d];
      assert s.prq[d][0] in s.prq[d];
      step := Program(d);
    case Programmed(_) => step := Execute(a);
    case Running(_) => step := Release(a);
  }

  lemma {:induction false} RunLength(c: Config, states: seq<Sys>, steps: seq<Step>, n: nat)
    requires Run(c, states, steps) && n < |states|
    ensures n + Measure(states[n]) <= Measure(states[0])
    decreases n
  {
    hide Init, Inv, Next, Measure;
    if n > 0 {
      RunLength(c, states, steps, n - 1);
      RunInv(c, states, steps, n - 1);
      Progress(c, states[n - 1], steps[n - 1], states[n]);
    }
  }

  lemma {:induction false} AllNew(phase: seq<Phase>)
    requires forall a :: 0 <= a < |phase| ==> phase[a] == NotStarted
    ensures Ranks(phase) == 9 * |phase|
  {
    if phase != [] { AllNew(phase[..|phase| - 1]); }
  }

  lemma {:induction false} NoneWaiting(prrq: seq<seq<nat>>)
    requires forall p :: 0 <= p < |prrq| ==> prrq[p] == []
    ensures Waiting(prrq) == 0
  {
    if prrq != [] { NoneWaiting(prrq[..|prrq| - 1]); }
  }

  /** With n applications every run ends within 9n steps, and where it ends, that
      is where no step is possible any more, every request has been served and
      every region is READY again. */
  lemma EveryRunServesAll(c: Config, states: seq<Sys>, steps: seq<Step>)
    requires Run(c, states, steps)
    ensures |steps| <= 9 * |c.service|
    ensures var s := states[|steps|];
            (forall step :: !Enabled(c, s, step)) ==>
              (forall a :: 0 <= a < |s.phase| ==> s.phase[a] == Finished) &&
              (forall p :: 0 <= p < |s.status| ==> s.status[p] == READY)
  {
    var s := states[|steps|];
    RunLength(c, states, steps, |steps|);
    AllNew(states[0].phase);
    NoneWaiting(states[0].prrq);
    RunInv(c, states, steps, |steps|);
    hide Run, Fitting, TaskOk, LinesOk, PrqOk, Ranks, Waiting, Enabled;
    if forall step :: !Enabled(c, s, step) {
      forall a | 0 <= a < |s.phase| ensures s.phase[a] == Finished {
        if !s.phase[a].Finished? { var step := NeverStuck(c, s, a); }
      }
      forall p | 0 <= p < |s.status| ensures s.status[p] == READY {
        if s.status[p] == RUNNING { HolderExists(c, s, p); }
      }
    }
  }
}
