/** Driver, controller and interrupt line together: every interleaving of
    requests, completions, interrupts and work items. */
module DmaProtocol {
  import opened DmaSpec
  import opened DmaInvariant
  import opened DmaTransfer
  import opened DmaMemory

  /** The status flags of a descriptor table are the ids whose flag is set.
      A queued work item and a raised MSI are single bits: queueing or raising
      them again changes nothing. `updates` counts the work items that ran while
      a transfer was running. The counters and `first`, the state just
      after the latest request, only record history. */
  datatype Sys = Sys(
    dma: Dma, rdFlags: set<nat>, wrFlags: set<nat>, outstanding: bool, msi: bool, work: bool,
    executed: nat, serviced: nat, updates: nat, starts: nat, first: Dma)
  {
    function Flags(): set<nat> { if dma.reading then wrFlags else rdFlags }

    function SetFlags(flags: set<nat>): Sys {
      if dma.reading then this.(wrFlags := flags) else this.(rdFlags := flags)
    }

    // get_interrupt_type: the flag of the last id submitted in the current direction
    predicate DmaUpdate() { dma.LastId() < TABLE && dma.LastId() in Flags() }
  }

  datatype Step =
    | Start(host: nat, device: nat, bytes: nat, reading: bool)   // read_write
    | Completes                                                  // the controller finishes the batch
    | Interrupt(kernel: bool)                                    // aclpci_irq, for the DMA or for a kernel
    | ThreadSync               // a host-channel command queues the relay, which is the same work item
    | Work(again: bool)        // wq_func_dma_update; an idle engine may be asked to run the relay again

  predicate Enabled(s: Sys, step: Step) {
    match step
    case Start(host, device, bytes, _) => s.dma.idle && Request(host, device, bytes)
    case Completes => s.outstanding && s.dma.log != []
    case Interrupt(kernel) => kernel || s.msi
    case ThreadSync => s.dma.idle
    case Work(_) => s.work
  }

  function Apply(pt: PageTable, s: Sys, step: Step): Sys
    requires Enabled(s, step) && CanUpdate(pt, s.dma)
  {
    match step
    case Start(host, device, bytes, reading) =>
      var d := DmaSpec.Start(s.dma, host, device, bytes, reading);
      s.(dma := d, first := d, work := true, starts := s.starts + 1)
    case Completes =>
      var b := s.dma.log[|s.dma.log|-1];
      var t := s.(outstanding := false, executed := s.executed + 1, msi := true);
      if b.reading then t.(wrFlags := t.wrFlags + {b.lastId}) else t.(rdFlags := t.rdFlags + {b.lastId})
    case Interrupt(kernel) =>
      var t := if kernel then s else s.(msi := false);
      // aclpci_dma_service_interrupt
      if s.DmaUpdate() && !s.dma.idle
      then t.SetFlags({}).(work := true, serviced := s.serviced + 1)
      else t
    case ThreadSync => s.(work := true)
    case Work(again) =>
      if s.dma.idle then s.(work := again)       // nothing but the relay
      else
        var d := Update(pt, s.dma).s;
        var t := s.(work := d.idle && again, updates := s.updates + 1, dma := d);
        // get_start_id clears the flags of the table before a batch is sent
        if |d.log| > |s.dma.log| then t.SetFlags({}).(outstanding := true) else t
  }

  ghost predicate Next(pt: PageTable, s: Sys, step: Step, t: Sys) {
    Enabled(s, step) && CanUpdate(pt, s.dma) && t == Apply(pt, s, step)
  }

  ghost predicate Init(base: int, s: Sys) {
    Idle(base, s.dma) && s.dma.log == [] && s.rdFlags == {} && s.wrFlags == {} &&
    !s.outstanding && s.executed == s.serviced == s.updates == s.starts == 0
  }

  // ---------- the invariant ----------

  predicate Clear(s: Sys) { s.rdFlags == {} && s.wrFlags == {} }

  /** A running transfer has exactly one thing to wait for. */
  predicate Waiting(s: Sys) { s.work && !s.outstanding && Clear(s) }

  predicate Running(s: Sys) {
    !s.work && s.outstanding && Clear(s) && s.dma.log != [] &&
    var b := s.dma.log[|s.dma.log|-1];
    b.reading == s.dma.reading && b.lastId == s.dma.LastId() < TABLE
  }

  predicate Flagged(s: Sys) {
    !s.work && !s.outstanding && s.dma.LastId() < TABLE && s.msi &&
    s.Flags() == {s.dma.LastId()} && (if s.dma.reading then s.rdFlags == {} else s.wrFlags == {})
  }

  function One(b: bool): nat { if b then 1 else 0 }

  predicate Counts(s: Sys) {
    s.executed + One(s.outstanding) == |s.dma.log| &&
    s.serviced + One(!s.dma.idle && Flagged(s)) == s.executed &&
    s.updates + One(!s.dma.idle && s.work) == s.starts + s.serviced
  }

  ghost predicate Inv(pt: PageTable, base: int, s: Sys) {
    Counts(s) && IdsInOrder(s.dma) && (s.starts > 0 ==> Since(pt, s.first, s.dma)) &&
    if s.dma.idle
    then Idle(base, s.dma) && !s.outstanding && Clear(s) && (s.starts > 0 ==> s.dma.sent == s.dma.bytes)
    else Busy(pt, base, s.dma) && s.starts > 0 && (Waiting(s) || Running(s) || Flagged(s))
  }

  lemma InvInit(pt: PageTable, base: int, s: Sys)
    requires Init(base, s)
    ensures Inv(pt, base, s)
  {}

  lemma InvCanUpdate(pt: PageTable, base: int, s: Sys)
    requires Inv(pt, base, s)
    ensures CanUpdate(pt, s.dma)
  {
    if !s.dma.idle && s.dma.Remaining() > 0 {
      var k := UpdateSends(pt, base, s.dma);
    }
  }

  lemma StartInv(pt: PageTable, base: int, s: Sys, step: Step)
    requires Inv(pt, base, s) && step.Start? && Enabled(s, step) && CanUpdate(pt, s.dma)
    ensures Inv(pt, base, Apply(pt, s, step))
  {
    StartOk(pt, base, s.dma, step.host, step.device, step.bytes, step.reading);
    hide Since, Busy, Consecutive, IdLog;
  }

  lemma CompletesInv(pt: PageTable, base: int, s: Sys)
    requires Inv(pt, base, s) && Enabled(s, Completes) && CanUpdate(pt, s.dma)
    ensures Inv(pt, base, Apply(pt, s, Completes))
  {
    hide Since, Busy, Idle, IdsInOrder, CanUpdate;
  }

  lemma InterruptInv(pt: PageTable, base: int, s: Sys, kernel: bool)
    requires Inv(pt, base, s) && Enabled(s, Interrupt(kernel)) && CanUpdate(pt, s.dma)
    ensures Inv(pt, base, Apply(pt, s, Interrupt(kernel)))
  {
    hide Since, Busy, Idle, IdsInOrder, CanUpdate;
  }

  lemma CompleteKeeps(pt: PageTable, base: int, d: Dma, first: Dma)
    requires Busy(pt, base, d) && d.Remaining() == 0 && Since(pt, first, d) && IdsInOrder(d)
    ensures var t := Update(pt, d).s; Since(pt, first, t) && IdsInOrder(t) && t.sent == t.bytes
  {
    hide Tiles, Total, AllDescs, IdLog, Consecutive;
  }

  lemma WorkCompletes(pt: PageTable, base: int, s: Sys, again: bool)
    requires Inv(pt, base, s) && Enabled(s, Work(again)) && !s.dma.idle && s.dma.Remaining() == 0
    ensures Inv(pt, base, Apply(pt, s, Work(again))) && Apply(pt, s, Work(again)).dma.idle
  {
    CompleteOk(pt, base, s.dma);
    CompleteKeeps(pt, base, s.dma, s.first);
    hide Since, IdsInOrder, Update;
  }

  lemma SentLast(pt: PageTable, s: Dma, t: Dma, k: nat)
    requires Sent(pt, s, t, k)
    ensures |t.log| == |s.log| + 1 && t.reading == s.reading && t.Remaining() <= s.Remaining() - 64
    ensures var b := t.log[|s.log|]; b.reading == t.reading && b.lastId == t.LastId() < TABLE
  {}

  lemma BusyFacts(pt: PageTable, base: int, s: Dma)
    requires Busy(pt, base, s)
    ensures !s.idle && s.Remaining() >= 0
  {}

  /** One batch, seen from the protocol. */
  lemma BatchFacts(pt: PageTable, base: int, d: Dma, first: Dma)
    requires Busy(pt, base, d) && d.Remaining() > 0 && Since(pt, first, d) && IdsInOrder(d)
    ensures CanUpdate(pt, d) &&
            var t := Update(pt, d).s;
            !t.idle && Busy(pt, base, t) && Since(pt, first, t) && IdsInOrder(t) &&
            |t.log| == |d.log| + 1 && 0 <= t.Remaining() <= d.Remaining() - 64 &&
            var b := t.log[|d.log|];
            b.reading == t.reading == d.reading && b.lastId == t.LastId() < TABLE
  {
    var k := UpdateSends(pt, base, d);
    var t := Update(pt, d).s;
    SinceStep(pt, first, d, t, k);
    IdsStep(pt, base, d, t, k);
    SentLast(pt, d, t, k);
    BusyFacts(pt, base, t);
    hide Since, IdsInOrder, CanUpdate, Update, Busy, Sent;
  }

  lemma WorkSends(pt: PageTable, base: int, s: Sys, again: bool)
    requires Inv(pt, base, s) && Enabled(s, Work(again)) && !s.dma.idle && s.dma.Remaining() > 0
    ensures CanUpdate(pt, s.dma) && Inv(pt, base, Apply(pt, s, Work(again)))
    ensures var t := Apply(pt, s, Work(again));
            !t.dma.idle && t.outstanding && 0 <= t.dma.Remaining() <= s.dma.Remaining() - 64
  {
    hide Since, IdsInOrder, CanUpdate, Update, Busy, Sent, Idle;
    BatchFacts(pt, base, s.dma, s.first);
  }

  lemma ThreadSyncInv(pt: PageTable, base: int, s: Sys)
    requires Inv(pt, base, s) && Enabled(s, ThreadSync) && CanUpdate(pt, s.dma)
    ensures Inv(pt, base, Apply(pt, s, ThreadSync))
  {
    hide Since, IdsInOrder, CanUpdate, Busy, Idle;
  }

  lemma WorkInv(pt: PageTable, base: int, s: Sys, again: bool)
    requires Inv(pt, base, s) && Enabled(s, Work(again)) && CanUpdate(pt, s.dma)
    ensures Inv(pt, base, Apply(pt, s, Work(again)))
  {
    if s.dma.idle {
      hide Since, IdsInOrder, CanUpdate, Update, Busy, Idle;
    } else {
      BusyFacts(pt, base, s.dma);
      hide Since, IdsInOrder, CanUpdate, Update, Busy, Counts;
      if s.dma.Remaining() == 0 { WorkCompletes(pt, base, s, again); } else { WorkSends(pt, base, s, again); }
    }
  }

  /** Every step keeps the invariant. */
  lemma NextInv(pt: PageTable, base: int, s: Sys, step: Step, t: Sys)
    requires Inv(pt, base, s) && Next(pt, s, step, t)
    ensures Inv(pt, base, t)
  {
    hide Inv, Apply, CanUpdate;
    match step
    case Start(_, _, _, _) => StartInv(pt, base, s, step);
    case Completes => CompletesInv(pt, base, s);
    case Interrupt(kernel) => InterruptInv(pt, base, s, kernel);
    case ThreadSync => ThreadSyncInv(pt, base, s);
    case Work(again) => WorkInv(pt, base, s, again);
  }

  // ---------- runs ----------

  /** A run of any length with any interleaving. */
  ghost predicate Run(pt: PageTable, states: seq<Sys>, steps: seq<Step>) {
    |states| == |steps| + 1 &&
    forall i, j :: 0 <= i < |steps| && j == i + 1 ==> Next(pt, states[i], steps[i], states[j])
  }

  lemma {:induction false} RunInv(pt: PageTable, base: int, states: seq<Sys>, steps: seq<Step>, n: nat)
    requires Run(pt, states, steps) && Init(base, states[0]) && n < |states|
    ensures Inv(pt, base, states[n])
    decreases n
  {
    if n == 0 {
      InvInit(pt, base, states[0]);
    } else {
      RunInv(pt, base, states, steps, n - 1);
      NextInv(pt, base, states[n - 1], steps[n - 1], states[n]);
    }
  }

  /** At most one batch is with the controller at any time of any run. Every
      completed batch has exactly one update after it, whichever interrupt saw
      its flag first and whether or not a host channel had the relay queued when
      the request came, and the driver hands over the next batch only after the
      flag of every earlier one was seen. */
  lemma Handshake(pt: PageTable, base: int, states: seq<Sys>, steps: seq<Step>, n: nat)
    requires Run(pt, states, steps) && Init(base, states[0]) && n < |states|
    ensures var s := states[n];
            s.executed <= |s.dma.log| <= s.executed + 1 &&
            s.starts + s.serviced == s.updates + One(!s.dma.idle && s.work) &&
            s.serviced <= s.executed <= s.serviced + 1 &&
            (s.outstanding ==> !s.work && s.executed == s.serviced) &&
            (s.work ==> s.executed == s.serviced == |s.dma.log|)
    ensures n < |steps| && |states[n + 1].dma.log| > |states[n].dma.log| ==>
              steps[n].Work? && states[n].serviced == |states[n].dma.log| && !states[n].outstanding
  {
    RunInv(pt, base, states, steps, n);
    hide Busy, Idle, Since, IdsInOrder, CanUpdate;
    if n < |steps| {
      assert Next(pt, states[n], steps[n], states[n + 1]);
    }
  }

  /** What a step asks for, seen from memory. */
  ghost predicate CopiesRequest(pt: PageTable, m: Memory, m': Memory, step: Step)
    requires step.Start?
  {
    if step.reading
    then NoAlias(pt, step.host, step.bytes) ==> IsRead(pt, m, m', step.host, step.device, step.bytes)
    else IsWrite(pt, m, m', step.host, step.device, step.bytes)
  }

  /** Step i is the latest request before state n. */
  predicate Latest(steps: seq<Step>, i: nat, n: nat) {
    i < n <= |steps| && steps[i].Start? && forall j :: i < j < n ==> !steps[j].Start?
  }

  /** Where a transfer started stays on record until the next one. */
  lemma {:induction false} LatestFirst(pt: PageTable, states: seq<Sys>, steps: seq<Step>, i: nat, n: nat)
    requires Run(pt, states, steps) && Latest(steps, i, n)
    ensures var d := states[n].first;
            d.host == steps[i].host && d.device == steps[i].device && d.bytes == steps[i].bytes &&
            d.reading == steps[i].reading && d.log == states[i].dma.log && states[n].starts > 0
    decreases n
  {
    hide CanUpdate, Update;
    assert Next(pt, states[n - 1], steps[n - 1], states[n]);
    if n > i + 1 { LatestFirst(pt, states, steps, i, n - 1); }
  }

  /** Whenever the engine is idle after a request, whatever happened in between,
      everything it sent has been executed, all its pins are released, and the
      batches sent since that request, executed from any memory contents, copy
      exactly the bytes the request named, in its direction. */
  lemma IdleMeansCopied(pt: PageTable, base: int, states: seq<Sys>, steps: seq<Step>, i: nat, n: nat, m: Memory)
    requires Run(pt, states, steps) && Init(base, states[0]) && Latest(steps, i, n) && states[n].dma.idle
    ensures var s := states[n];
            s.executed == |s.dma.log| && s.dma.lockedPages == base && states[i].dma.log <= s.dma.log &&
            CopiesRequest(pt, m, ExecLog(m, s.dma.log[|states[i].dma.log|..]), steps[i])
  {
    RunInv(pt, base, states, steps, n);
    LatestFirst(pt, states, steps, i, n);
    TransferIsMemcpy(pt, states[n].first, states[n].dma, m);
    hide Run, IsRead, IsWrite, NoAlias, ExecLog, IdsInOrder, AllDescs, Tiles, Total;
  }

  /** Over any run each direction uses its descriptor ids in order. */
  lemma RunIds(pt: PageTable, base: int, states: seq<Sys>, steps: seq<Step>, n: nat, reading: bool)
    requires Run(pt, states, steps) && Init(base, states[0]) && n < |states|
    ensures var ids := IdLog(states[n].dma.log, reading);
            forall i, j :: 0 <= i < |ids| && j == i + 1 < |ids| ==> ids[j] == (ids[i] + 1) % TABLE
  {
    RunInv(pt, base, states, steps, n);
    hide Busy, Idle, Since, IdLog;
  }

  /** Either interrupt finds the flag of a finished batch, and the next update is
      queued. */
  lemma AnyInterruptServes(pt: PageTable, base: int, s: Sys, kernel: bool)
    requires Inv(pt, base, s) && !s.dma.idle && Enabled(s, Interrupt(kernel)) && CanUpdate(pt, s.dma)
    ensures var t := Apply(pt, s, Interrupt(kernel));
            if Flagged(s) then t.work && t.rdFlags == t.wrFlags == {} && t.serviced == s.serviced + 1
            else t.work == s.work && t.serviced == s.serviced
  {
    hide Busy, Since, IdsInOrder, CanUpdate;
  }

  // ---------- progress ----------

  function Rank(s: Sys): nat { if s.outstanding then 3 else if s.work then 1 else 2 }

  function Measure(s: Sys): int {
    (if s.dma.idle then 0 else 2 * (4 * s.dma.Remaining() + Rank(s))) + One(s.msi)
  }

  /** A running transfer is never stuck: the controller, the work queue or a
      pending MSI can go on, and a set flag always has a pending MSI. */
  lemma NeverStuck(pt: PageTable, base: int, s: Sys)
    requires Inv(pt, base, s) && !s.dma.idle
    ensures Enabled(s, Completes) || Enabled(s, Work(false)) || (Enabled(s, Interrupt(false)) && s.DmaUpdate())
  {
    hide Busy, Since, IdsInOrder;
  }

  lemma WorkProgress(pt: PageTable, base: int, s: Sys, again: bool)
    requires Inv(pt, base, s) && Enabled(s, Work(again)) && CanUpdate(pt, s.dma) && !s.dma.idle
    ensures 0 <= Measure(Apply(pt, s, Work(again))) < Measure(s)
  {
    hide Since, IdsInOrder, CanUpdate, Busy, Counts, Idle, Update;
    BusyFacts(pt, base, s.dma);
    if s.dma.Remaining() == 0 {
      WorkCompletes(pt, base, s, again);
    } else {
      WorkSends(pt, base, s, again);
    }
  }

  lemma OtherProgress(pt: PageTable, base: int, s: Sys, step: Step)
    requires Inv(pt, base, s) && Enabled(s, step) && CanUpdate(pt, s.dma) && (step.Completes? || step.Interrupt?)
    ensures 0 <= Measure(Apply(pt, s, step))
    ensures if step == Interrupt(true) then Measure(Apply(pt, s, step)) <= Measure(s)
            else Measure(Apply(pt, s, step)) < Measure(s)
  {
    hide Since, IdsInOrder, CanUpdate, Busy, Counts, Idle, Update;
    if !s.dma.idle { BusyFacts(pt, base, s.dma); }
  }

  /** A step that cannot come closer to the end of a transfer: a kernel interrupt,
      and the relay of the host channels while no transfer runs. */
  predicate Idling(s: Sys, step: Step) { step == Interrupt(true) || step.ThreadSync? || (step.Work? && s.dma.idle) }

  lemma IdleProgress(pt: PageTable, base: int, s: Sys, step: Step)
    requires Inv(pt, base, s) && Enabled(s, step) && CanUpdate(pt, s.dma)
    requires s.dma.idle && (step.Work? || step.ThreadSync?)
    ensures Measure(Apply(pt, s, step)) == Measure(s)
  {
    hide Since, IdsInOrder, CanUpdate, Busy, Counts, Idle, Update;
  }

  /** Every step of a running transfer other than a kernel interrupt comes
      closer to its end, and nothing moves away from it. */
  lemma Progress(pt: PageTable, base: int, s: Sys, step: Step, t: Sys)
    requires Inv(pt, base, s) && Next(pt, s, step, t) && !step.Start?
    ensures 0 <= Measure(t)
    ensures if Idling(s, step) then Measure(t) <= Measure(s) else Measure(t) < Measure(s)
  {
    hide Inv, CanUpdate, Measure, Apply;
    match step
    case ThreadSync => IdleProgress(pt, base, s, step); MeasureIdle(s);
    case Work(again) =>
      if s.dma.idle { IdleProgress(pt, base, s, step); MeasureIdle(s); } else { WorkProgress(pt, base, s, again); }
    case _ => OtherProgress(pt, base, s, step);
  }

  lemma MeasureIdle(s: Sys)
    requires s.dma.idle
    ensures Measure(s) >= 0
  {}
}
