/** The queues of the devices and the task queue over whole runs: who is
    programmed at all, and in which order. */
module RequestPrograms {
  import opened Registry
  import opened Services
  import opened RequestProtocol

  // ---------- only who needs it is queued ----------

  /** Whoever waits for programming holds a region with another program. */
  predicate Needed(service: seq<nat>, phase: seq<Phase>, prog: seq<int>) {
    |phase| == |service| &&
    forall a :: 0 <= a < |phase| && phase[a].InPrq? ==> phase[a].prr < |prog| && prog[phase[a].prr] != service[a]
  }

  lemma NeededSame(service: seq<nat>, phase: seq<Phase>, prog: seq<int>, a: nat, f: Phase)
    requires Needed(service, phase, prog) && a < |phase|
    requires f.InPrq? ==> f.prr < |prog| && prog[f.prr] != service[a]
    ensures Needed(service, phase[a := f], prog)
  {}

  /** Programming a region helps nobody else: its holder is the one asking. */
  lemma NeededProgram(service: seq<nat>, phase: seq<Phase>, prog: seq<int>, status: seq<Status>,
                      holder: seq<Option<nat>>, a: nat, p: nat)
    requires Needed(service, phase, prog) && Held(phase, status, holder) && |holder| == |prog|
    requires a < |phase| && p < |prog| && phase[a].Holds(p)
    ensures Needed(service, phase[a := Programmed(p)], prog[p := service[a]])
  {
    forall b | 0 <= b < |phase| && phase[b].InPrq? && phase[b].prr == p ensures b == a {
      assert phase[b].Holds(p) && holder[p] == Some(b) && holder[p] == Some(a);
    }
  }

  /** What a step does to the phases, the programs and the rank of one
      application. */
  lemma NeededStep(c: Config, s: Sys, step: Step, t: Sys)
    requires Inv(c, s) && Next(c, s, step, t) && Needed(c.service, s.phase, s.prog)
    ensures Needed(c.service, t.phase, t.prog)
  {
    if step.Program? { ProgramNeeded(c, s, step.dev); } else { OtherNeeded(c, s, step); }
  }

  lemma ProgramNeeded(c: Config, s: Sys, d: nat)
    requires Inv(c, s) && Enabled(c, s, Program(d)) && Needed(c.service, s.phase, s.prog)
    ensures var t := Apply(c, s, Program(d)); Needed(c.service, t.phase, t.prog)
  {
    hide Held, Fitting, TaskOk, LinesOk, PrqOk, Needed;
    var a := s.prq[d][0];
    var p := s.phase[a].prr;
    NeededProgram(c.service, s.phase, s.prog, s.status, s.holder, a, p);
    NeededSame(c.service, s.phase, s.prog, a, Programmed(p));
  }

  lemma OtherNeeded(c: Config, s: Sys, step: Step)
    requires Inv(c, s) && Enabled(c, s, step) && !step.Program? && Needed(c.service, s.phase, s.prog)
    ensures var t := Apply(c, s, step); Needed(c.service, t.phase, t.prog)
  {
    hide Held, Fitting, TaskOk, LinesOk, PrqOk, Needed;
    var t := Apply(c, s, step);
    match step
    case Task => NeededSame(c.service, s.phase, s.prog, s.taskQ[0].app, t.phase[s.taskQ[0].app]);
    case Program(_) => assert false;
    case Pop(_) =>
    case Grant(p) => NeededSame(c.service, s.phase, s.prog, s.hand[p].value, Granted(p));
    case _ => NeededSame(c.service, s.phase, s.prog, step.app, t.phase[step.app]);
  }

  /** Over any run an application waits in the queue of a device only while the
      region it holds is programmed with another service; in particular every
      request that queue serves does change a region. */
  lemma {:induction false} QueuedOnlyToProgram(c: Config, states: seq<Sys>, steps: seq<Step>, n: nat)
    requires Run(c, states, steps) && n < |states|
    ensures Needed(c.service, states[n].phase, states[n].prog)
    decreases n
  {
    hide Inv, Next;
    if n > 0 {
      QueuedOnlyToProgram(c, states, steps, n - 1);
      RunInv(c, states, steps, n - 1);
      NeededStep(c, states[n - 1], steps[n - 1], states[n]);
    }
  }

  lemma RankStep(c: Config, s: Sys, step: Step, t: Sys, a: nat)
    requires Inv(c, s) && Next(c, s, step, t) && a < |s.phase|
    ensures a < |t.phase| && Rank(t.phase[a]) <= Rank(s.phase[a])
  {
    hide Held, Fitting, PrqOk, Regions;
    match step
    case Task => assert s.taskQ[0] in s.taskQ;
    case Grant(p) => LinesGrant(s.phase, s.hand, s.prrq, p, Granted(p));
    case _ =>
  }

  /** Every application only moves on. */
  lemma {:induction false} RanksFall(c: Config, states: seq<Sys>, steps: seq<Step>, m: nat, n: nat, a: nat)
    requires Run(c, states, steps) && m <= n < |states| && a < |states[m].phase|
    ensures a < |states[n].phase| && Rank(states[n].phase[a]) <= Rank(states[m].phase[a])
    decreases n
  {
    hide Inv, Next, Init, Rank;
    if m < n {
      RanksFall(c, states, steps, m, n - 1, a);
      RunInv(c, states, steps, n - 1);
      RankStep(c, states[n - 1], steps[n - 1], states[n], a);
    }
  }

  /** An application whose region already has its program is answered at once and
      never waits for a device; any other one does wait. */
  lemma AnsweredAtOnce(c: Config, states: seq<Sys>, steps: seq<Step>, i: nat, n: nat, a: nat)
    requires Run(c, states, steps) && i < n < |states| && steps[i] == Task
    requires states[i].taskQ != [] && states[i].taskQ[0] == GetPrg(a)
    ensures var s := states[i];
            a < |s.phase| == |c.service| && s.phase[a].InTaskPrg? && s.phase[a].prr < |s.prog| &&
            a < |states[i + 1].phase| && a < |states[n].phase| &&
            if s.prog[s.phase[a].prr] == c.service[a]
            then states[i + 1].phase[a] == Programmed(s.phase[a].prr) && !states[n].phase[a].InPrq?
            else states[i + 1].phase[a] == InPrq(s.phase[a].prr)
  {
    assert Next(c, states[i], steps[i], states[i + 1]);
    RunInv(c, states, steps, i);
    hide Run, Held, Fitting, TaskOk, LinesOk, PrqOk, Below;
    RanksFall(c, states, steps, i + 1, n, a);
  }

  // ---------- what arrives ----------

  /** Who asked for a device, in order. */
  function Asked(steps: seq<Step>): seq<nat> {
    if steps == [] then []
    else Asked(steps[..|steps| - 1]) + if steps[|steps| - 1].Request? then [steps[|steps| - 1].app] else []
  }

  /** The requests the task queue serves first come, first served are exactly the
      calls of getDevice. */
  lemma {:induction false} ArrivedIsAsked(c: Config, states: seq<Sys>, steps: seq<Step>, n: nat)
    requires Run(c, states, steps) && n < |states|
    ensures states[n].arrived == Asked(steps[..n])
    decreases n
  {
    hide Shape, Regions;
    if n > 0 {
      ArrivedIsAsked(c, states, steps, n - 1);
      assert Next(c, states[n - 1], steps[n - 1], states[n]);
      assert steps[..n][..n - 1] == steps[..n - 1];
    }
  }

  // ---------- no overtaking ----------

  predicate Before<T(==)>(q: seq<T>, a: T, b: T) { exists i, j :: 0 <= i < j < |q| && q[i] == a && q[j] == b }

  lemma BeforeSnoc<T>(q: seq<T>, x: T, a: T, b: T)
    requires Before(q, a, b)
    ensures Before(q + [x], a, b)
  {
    var i, j :| 0 <= i < j < |q| && q[i] == a && q[j] == b;
    assert (q + [x])[i] == a && (q + [x])[j] == b;
  }

  lemma BeforePop<T>(q: seq<T>, a: T, b: T)
    requires Before(q, a, b) && q[0] != a
    ensures Before(q[1..], a, b)
  {
    var i, j :| 0 <= i < j < |q| && q[i] == a && q[j] == b;
    assert q[1..][i - 1] == a && q[1..][j - 1] == b;
  }

  lemma PrqStep(c: Config, s: Sys, step: Step, t: Sys, d: nat, a: nat, b: nat)
    requires Inv(c, s) && Next(c, s, step, t) && d < |s.prq| && d < |t.prq| && Before(s.prq[d], a, b) && a in t.prq[d]
    ensures Before(t.prq[d], a, b)
  {
    hide Held, Fitting, TaskOk, LinesOk, Regions, Below, Before;
    match step
    case Task =>
      var x := s.taskQ[0].app;
      if t.prq[d] != s.prq[d] { BeforeSnoc(s.prq[d], x, a, b); }
    case Program(e) =>
      if e == d {
        Popped(s.prq[d]);
        BeforePop(s.prq[d], a, b);
      }
    case _ =>
  }

  /** A device programs regions in the order it was asked: as long as an earlier
      request waits, a later one waits behind it. */
  lemma {:induction false} ProgramsInOrder(c: Config, states: seq<Sys>, steps: seq<Step>, m: nat, n: nat,
                                           d: nat, a: nat, b: nat)
    requires Run(c, states, steps) && m <= n < |states|
    requires forall i :: m <= i <= n ==> d < |states[i].prq| && a in states[i].prq[d]
    requires Before(states[m].prq[d], a, b)
    ensures Before(states[n].prq[d], a, b)
    decreases n
  {
    hide Inv, Next, Init, Before;
    if m < n {
      ProgramsInOrder(c, states, steps, m, n - 1, d, a, b);
      RunInv(c, states, steps, n - 1);
      PrqStep(c, states[n - 1], steps[n - 1], states[n], d, a, b);
    }
  }

  lemma TaskStep(c: Config, s: Sys, step: Step, t: Sys, x: Req, y: Req)
    requires Inv(c, s) && Next(c, s, step, t) && Before(s.taskQ, x, y) && x in t.taskQ
    ensures Before(t.taskQ, x, y)
  {
    hide Held, Fitting, PrqOk, LinesOk, Regions, Below, Before;
    match step
    case Task =>
      Popped(s.taskQ);
      BeforePop(s.taskQ, x, y);
    case Request(a) => BeforeSnoc(s.taskQ, GetDev(a), x, y);
    case AskProgram(a) => BeforeSnoc(s.taskQ, GetPrg(a), x, y);
    case _ =>
  }

  /** So does the task queue, for requests of both kinds. */
  lemma {:induction false} TasksInOrder(c: Config, states: seq<Sys>, steps: seq<Step>, m: nat, n: nat, x: Req, y: Req)
    requires Run(c, states, steps) && m <= n < |states| && Before(states[m].taskQ, x, y)
    requires forall i :: m <= i <= n ==> x in states[i].taskQ
    ensures Before(states[n].taskQ, x, y)
    decreases n
  {
    hide Inv, Next, Init, Before;
    if m < n {
      TasksInOrder(c, states, steps, m, n - 1, x, y);
      RunInv(c, states, steps, n - 1);
      TaskStep(c, states[n - 1], steps[n - 1], states[n], x, y);
    }
  }
}
