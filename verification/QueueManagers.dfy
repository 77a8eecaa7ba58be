/** The queue managers and the client calls as an object with the queues as its
    fields. Every method is one atomic step of RequestProtocol. */
module QueueManagers {
  import opened Registry
  import opened Services
  import opened RequestProtocol

  /** A request is answered exactly while its application may go on, and from the
      grant on it names the region. */
  predicate Answer(f: Phase, done: bool, prr: nat) {
    (f.Granted? || f.Programmed? ==> done) &&
    (f.InTaskDev? || f.InPrrq? || f.InTaskPrg? || f.InPrq? ==> !done) &&
    (f.Granted? || f.InTaskPrg? || f.InPrq? || f.Programmed? || f.Running? ==> f.prr == prr)
  }

  predicate Matches(phase: seq<Phase>, isDone: seq<bool>, globPrr: seq<nat>) {
    |isDone| == |globPrr| == |phase| &&
    forall a :: 0 <= a < |phase| ==> Answer(phase[a], isDone[a], globPrr[a])
  }

  class System {
    const c: Config
    var taskQ: seq<Req>
    var prrq: seq<seq<nat>>
    var hand: seq<Option<nat>>
    var prq: seq<seq<nat>>
    var status: seq<Status>
    var prog: seq<int>
    var flag: seq<nat>
    var isDone: seq<bool>     // is_done of the latest request of each application
    var globPrr: seq<nat>     // and its glob_prr_id
    ghost var s: Sys          // the same, with what every application is doing

    ghost predicate Valid()
      reads this
    {
      Inv(c, s) && taskQ == s.taskQ && prrq == s.prrq && hand == s.hand && prq == s.prq &&
      status == s.status && prog == s.prog && flag == s.flag && Matches(s.phase, isDone, globPrr)
    }

    // getDevice, up to the wait
    method RequestDevice(a: nat)
      requires Valid() && Enabled(c, s, Request(a))
      modifies this
      ensures Valid() && s == Apply(c, old(s), Request(a))
    {
      hide Held, Fitting, TaskOk, LinesOk, PrqOk;
      NextInv(c, s, Request(a), Apply(c, s, Request(a)));
      isDone := isDone[a := false];
      taskQ := taskQ + [GetDev(a)];
      s := Apply(c, s, Request(a));
    }

    // TaskQueueManager::runDaemon pops a GETDEV request
    method ServeDev()
      requires Valid() && taskQ != [] && taskQ[0].GetDev?
      modifies this
      ensures Valid() && Enabled(c, old(s), Task) && s == Apply(c, old(s), Task)
    {
      TaskEnabled(c, s);
      NextInv(c, s, Task, Apply(c, s, Task));
      hide Held, Fitting, TaskOk, LinesOk, PrqOk;
      var a := taskQ[0].app;
      taskQ := taskQ[1..];
      var v := c.service[a];
      var p := c.inst[v][flag[v] % |c.inst[v]|];
      flag := flag[v := flag[v] + 1];
      prrq := prrq[p := prrq[p] + [a]];
      s := Apply(c, s, Task);
    }

    // and a GETPRG request
    method ServePrg()
      requires Valid() && taskQ != [] && taskQ[0].GetPrg?
      modifies this
      ensures Valid() && Enabled(c, old(s), Task) && s == Apply(c, old(s), Task)
    {
      TaskEnabled(c, s);
      NextInv(c, s, Task, Apply(c, s, Task));
      hide Held, Fitting, TaskOk, LinesOk, PrqOk;
      var a := taskQ[0].app;
      taskQ := taskQ[1..];
      var p := globPrr[a];
      if prog[p] != c.service[a] {
        var d := c.device[p];
        prq := prq[d := prq[d] + [a]];
      } else {
        isDone := isDone[a := true];
      }
      s := Apply(c, s, Task);
    }

    // one iteration of TaskQueueManager::runDaemon
    method TaskIteration()
      requires Valid() && taskQ != []
      modifies this
      ensures Valid() && Enabled(c, old(s), Task) && s == Apply(c, old(s), Task)
    {
      hide Inv, Enabled, Apply, Matches;
      match taskQ[0] {
        case GetDev(_) => ServeDev();
        case GetPrg(_) => ServePrg();
      }
    }

    // PRRQueueManager::runDaemon up to the pop
    method PrrPop(p: nat)
      requires Valid() && p < |prrq| && hand[p].None? && prrq[p] != []
      modifies this
      ensures Valid() && Enabled(c, old(s), Pop(p)) && s == Apply(c, old(s), Pop(p))
    {
      PrrEnabled(c, s, p);
      NextInv(c, s, Pop(p), Apply(c, s, Pop(p)));
      hide Held, Fitting, TaskOk, LinesOk, PrqOk;
      hand := hand[p := Some(prrq[p][0])];
      prrq := prrq[p := prrq[p][1..]];
      s := Apply(c, s, Pop(p));
    }

    // and from the end of its wait for READY
    method PrrGrant(p: nat)
      requires Valid() && p < |prrq| && hand[p].Some? && status[p] == READY
      modifies this
      ensures Valid() && Enabled(c, old(s), Grant(p)) && s == Apply(c, old(s), Grant(p))
    {
      PrrEnabled(c, s, p);
      NextInv(c, s, Grant(p), Apply(c, s, Grant(p)));
      hide Held, Fitting, TaskOk, LinesOk, PrqOk;
      var a := hand[p].value;
      status := status[p := RUNNING];
      globPrr := globPrr[a := p];
      isDone := isDone[a := true];
      hand := hand[p := None];
      s := Apply(c, s, Grant(p));
    }

    // the wait of getDevice ends, and getProgram runs up to its own wait
    method RequestProgram(a: nat)
      requires Valid() && Enabled(c, s, AskProgram(a))
      modifies this
      ensures old(isDone)[a] && Valid() && s == Apply(c, old(s), AskProgram(a))
    {
      NextInv(c, s, AskProgram(a), Apply(c, s, AskProgram(a)));
      hide Held, Fitting, TaskOk, LinesOk, PrqOk;
      isDone := isDone[a := false];
      taskQ := taskQ + [GetPrg(a)];
      s := Apply(c, s, AskProgram(a));
    }

    // one iteration of PRQueueManager::runDaemon
    method PrIteration(d: nat)
      requires Valid() && d < |prq| && prq[d] != []
      modifies this
      ensures Valid() && Enabled(c, old(s), Program(d)) && s == Apply(c, old(s), Program(d))
    {
      ProgramEnabled(c, s, d);
      NextInv(c, s, Program(d), Apply(c, s, Program(d)));
      hide Held, Fitting, TaskOk, LinesOk, PrqOk;
      var a := prq[d][0];
      prq := prq[d := prq[d][1..]];
      var p := globPrr[a];
      if prog[p] != c.service[a] {
        prog := prog[p := c.service[a]];
      }
      isDone := isDone[a := true];
      s := Apply(c, s, Program(d));
    }

    // the wait of getProgram ends and the kernel starts
    method StartKernel(a: nat)
      requires Valid() && Enabled(c, s, Execute(a))
      modifies this
      ensures old(isDone)[a] && Valid() && s == Apply(c, old(s), Execute(a))
    {
      NextInv(c, s, Execute(a), Apply(c, s, Execute(a)));
      hide Held, Fitting, TaskOk, LinesOk, PrqOk;
      s := Apply(c, s, Execute(a));
    }

    method ReleaseDevice(a: nat)
      requires Valid() && Enabled(c, s, Release(a))
      modifies this
      ensures Valid() && s == Apply(c, old(s), Release(a))
    {
      NextInv(c, s, Release(a), Apply(c, s, Release(a)));
      hide Held, Fitting, TaskOk, LinesOk, PrqOk;
      status := status[globPrr[a] := READY];
      s := Apply(c, s, Release(a));
    }
  }

  lemma TaskEnabled(c: Config, s: Sys)
    requires Inv(c, s) && s.taskQ != []
    ensures Enabled(c, s, Task)
  {
    hide Held, Fitting, LinesOk, PrqOk;
    assert s.taskQ[0] in s.taskQ;
  }

  lemma PrrEnabled(c: Config, s: Sys, p: nat)
    requires Inv(c, s) && p < |s.prrq|
    ensures s.hand[p].None? && s.prrq[p] != [] ==> Enabled(c, s, Pop(p))
    ensures s.hand[p].Some? && s.status[p] == READY ==> Enabled(c, s, Grant(p))
  {
    hide Held, Fitting, TaskOk, LinesOk, PrqOk;
  }

  lemma ProgramEnabled(c: Config, s: Sys, d: nat)
    requires Inv(c, s) && d < |s.prq| && s.prq[d] != []
    ensures Enabled(c, s, Program(d)) && s.phase[s.prq[d][0]].Holds(s.phase[s.prq[d][0]].prr)
  {
    PrqLeave(c.device, s.phase, s.prq, d, Finished);
    hide Held, Fitting, TaskOk, LinesOk, PrqOk;
  }
}
