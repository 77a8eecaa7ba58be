/** Waking the driver's relay up: exactly when an acknowledgement is sure to be
    relayed, and what happens otherwise. */
module HostChannelWakeup {
  import opened HostChannel
  import opened HostChannelProtocol

  /** Whoever finds the relay asleep finds the sync word cleared. */
  predicate Asleep(s: Sys) { !s.work ==> !s.sync }

  /** An acknowledgement the driver has not seen is about to be seen, or its
      user thread has not finished ack_buffer yet. */
  predicate Pending(s: Sys) {
    (s.push.relayed != |s.push.acked| ==> s.work || s.push.phase != Ready) &&
    (s.pull.relayed != |s.pull.delivered| ==> s.work || s.pull.phase != Ready)
  }

  predicate Awake(s: Sys) { Asleep(s) && Pending(s) }

  predicate IsMark(step: Step) { step.MarkPush? || step.MarkPull? }

  lemma AwakeInit(s: Sys)
    requires Init(s)
    ensures Awake(s)
  {}

  lemma AwakeStep(s: Sys, step: Step, t: Sys)
    requires Inv(s) && Awake(s) && Next(s, step, t) && (IsMark(step) ==> s.work)
    ensures Awake(t)
  {
    hide PushOk, PullOk, Words, PushOffer, PullOffer, PushTaken, PullTaken;
    hide Advanced, Space, Available, RoundDown, LoopAfter;
    if step.Work? { RelayInv(s); }
  }

  // ---------- the relay falls asleep for good ----------

  /** Nobody is going to queue the relay: it is not queued, the sync word says it
      is, and no command is under way. */
  predicate Lost(s: Sys) { !s.work && s.sync && !InDriver(s.push.phase) && !InDriver(s.pull.phase) }

  lemma LateMark(s: Sys, step: Step, t: Sys)
    requires Inv(s) && Next(s, step, t) && IsMark(step) && !s.work
    ensures Lost(t)
  {
    hide PushOk, PullOk, Words;
  }

  lemma LostStep(s: Sys, step: Step, t: Sys)
    requires Lost(s) && Next(s, step, t)
    ensures Lost(t) && t.push.relayed == s.push.relayed && t.pull.relayed == s.pull.relayed
  {
    hide PushOk, PullOk, PushOffer, PullOffer, PushTaken, PullTaken, Advanced, Space, Available, RoundDown;
  }

  lemma {:induction false} LostForGood(states: seq<Sys>, steps: seq<Step>, n: nat, m: nat)
    requires Run(states, steps) && n <= m < |states| && Lost(states[n])
    ensures Lost(states[m])
    ensures states[m].push.relayed == states[n].push.relayed && states[m].pull.relayed == states[n].pull.relayed
    decreases m
  {
    hide Lost, Next, Init;
    if n < m {
      LostForGood(states, steps, n, m - 1);
      LostStep(states[m - 1], steps[m - 1], states[m]);
    }
  }

  /** One write of the sync word that comes after the relay has stopped is fatal:
      whatever follows, no acknowledgement of either channel is relayed any more. */
  lemma LateMarkIsFatal(states: seq<Sys>, steps: seq<Step>, n: nat, m: nat)
    requires Run(states, steps) && n < m < |states| && IsMark(steps[n]) && !states[n].work
    ensures Lost(states[m])
    ensures states[m].push.relayed == states[n].push.relayed && states[m].pull.relayed == states[n].pull.relayed
  {
    RunInv(states, steps, n);
    assert Next(states[n], steps[n], states[n + 1]);
    LateMark(states[n], steps[n], states[n + 1]);
    LostForGood(states, steps, n + 1, m);
    hide Run, Inv, Lost, PushOk, PullOk;
  }

  lemma {:induction false} RunAwake(states: seq<Sys>, steps: seq<Step>, n: nat)
    requires Run(states, steps) && n < |states|
    requires forall i :: 0 <= i < |steps| && IsMark(steps[i]) ==> states[i].work
    ensures Awake(states[n])
    decreases n
  {
    hide Next, Init, Inv, Awake;
    if n == 0 {
      AwakeInit(states[0]);
    } else {
      RunAwake(states, steps, n - 1);
      RunInv(states, steps, n - 1);
      AwakeStep(states[n - 1], steps[n - 1], states[n]);
    }
  }

  /** No lost wakeup, exactly: over a run, every acknowledgement the driver has
      not seen keeps its relay queued or its thread busy, and the sync word is set
      only while the relay is queued, if and only if every write of the sync word
      happens while the relay is still queued. */
  lemma WakeupExact(states: seq<Sys>, steps: seq<Step>)
    requires Run(states, steps)
    ensures (forall n :: 0 <= n < |states| ==> Awake(states[n])) <==>
            (forall i :: 0 <= i < |steps| && IsMark(steps[i]) ==> states[i].work)
  {
    hide Awake, Lost, Init, Next;
    if forall i :: 0 <= i < |steps| && IsMark(steps[i]) ==> states[i].work {
      forall n | 0 <= n < |states| ensures Awake(states[n]) { RunAwake(states, steps, n); }
    } else {
      var i :| 0 <= i < |steps| && IsMark(steps[i]) && !states[i].work;
      LateMarkIsFatal(states, steps, i, i + 1);
      LostNotAwake(states[i + 1]);
    }
  }

  lemma LostNotAwake(s: Sys)
    requires Lost(s)
    ensures !Awake(s)
  {}

  // ---------- how long the relay stays queued ----------

  function Open(s: Sys): nat { (if s.pushValid then 1 else 0) + if s.pullValid then 1 else 0 }

  /** k calls of the relay. */
  function Relays(s: Sys, k: nat): Sys { if k == 0 then s else Relay(Relays(s, k - 1)) }

  function Left(loop: nat, calls: nat): nat { if calls < loop then loop - calls else 0 }

  lemma QuietRelay(s: Sys)
    requires Inv(s) && Quiet(s)
    ensures var left := Left(s.loop, Open(s));
            Relay(s) == s.(loop := left, work := left > 0, sync := s.sync && left > 0)
  {
    PushUpdateOk(s.push);
    PullUpdateOk(s.pull);
    hide PushOk, PullOk;
  }

  lemma SameChannels(s: Sys, loop: nat, work: bool, sync: bool)
    requires Inv(s) && Quiet(s) && (sync ==> s.sync)
    ensures var t := s.(loop := loop, work := work, sync := sync);
            Inv(t) && Quiet(t) && Open(t) == Open(s)
  {
    hide PushOk, PullOk, Words;
  }

  /** With nothing new to relay, the work item stays queued for exactly as many
      calls as the counter allows, then it stops and clears the sync word. */
  lemma {:induction false} QuietRelays(s: Sys, k: nat)
    requires Inv(s) && Quiet(s)
    ensures var t := Relays(s, k);
            k > 0 ==> t == s.(loop := Left(s.loop, Open(s) * k), work := Open(s) * k < s.loop,
                              sync := s.sync && Open(s) * k < s.loop)
  {
    hide Inv, Relay, Quiet, Open;
    if k == 1 {
      QuietRelay(s);
      assert Relays(s, 0) == s;
    } else if k > 1 {
      QuietRelays(s, k - 1);
      var t := Relays(s, k - 1);
      SameChannels(s, t.loop, t.work, t.sync);
      QuietRelay(t);
      assert Open(s) * k == Open(s) * (k - 1) + Open(s);
    }
  }

  predicate PushNews(s: Sys) { s.pushValid && s.push.relayed != |s.push.acked| }

  predicate PullNews(s: Sys) { s.pullValid && s.pull.relayed != |s.pull.delivered| }

  /** A call that finds news rearms the counter. An open push channel without
      news, which is looked at after the pull channel, takes one off again. */
  lemma RelayRearms(s: Sys)
    requires Inv(s) && (PushNews(s) || PullNews(s))
    ensures var t := Relay(s);
            t.work && t.sync == s.sync && t.loop == if PushNews(s) || !s.pushValid then LOOPS else LOOPS - 1
  {
    PushUpdateOk(s.push);
    PullUpdateOk(s.pull);
    hide PushOk, PullOk;
  }

  /** So after news the relay stays queued for exactly this many quiet calls,
      however far the counter had gone down before. */
  lemma NewsLasts(s: Sys, k: nat)
    requires Inv(s) && (PushNews(s) || PullNews(s))
    ensures Relays(Relay(s), k).work <==>
            if PushNews(s) || !s.pushValid then Open(s) * k < LOOPS else Open(s) * k < LOOPS - 1
  {
    RelayRearms(s);
    RelayInv(s);
    RelayOpen(s);
    hide Relay, Inv, PushNews, PullNews, Open, Quiet;
    QuietRelays(Relay(s), k);
    if k == 0 { NoRelay(Relay(s)); }
  }

  lemma RelayOpen(s: Sys)
    ensures Open(Relay(s)) == Open(s)
  {}

  /** The two halves of the thread-sync command with k calls of the relay in
      between and nothing new to relay: the sync word is written in time exactly
      for fewer than LOOPS calls with one channel open, half as many with two. */
  lemma HalvesExact(s: Sys, test: Step, queue: Step, k: nat)
    requires (test == IoctlPush && queue == QueuePush) || (test == IoctlPull && queue == QueuePull)
    requires Inv(s) && Quiet(s) && Enabled(s, test) && !s.sync
    ensures var t := Apply(s, test);
            Enabled(t, queue) && (Relays(Apply(t, queue), k).work <==> Open(s) * k < LOOPS)
  {
    HalvesQueue(s, test, queue);
    hide Inv, Enabled, Apply, Open, Quiet, Relay, Relays;
    var u := Apply(Apply(s, test), queue);
    QuietRelays(u, k);
    if k == 0 { NoRelay(u); }
  }

  lemma HalvesQueue(s: Sys, test: Step, queue: Step)
    requires (test == IoctlPush && queue == QueuePush) || (test == IoctlPull && queue == QueuePull)
    requires Inv(s) && Quiet(s) && Enabled(s, test) && !s.sync
    ensures Enabled(Apply(s, test), queue)
    ensures var u := Apply(Apply(s, test), queue);
            Inv(u) && Quiet(u) && u.work && u.loop == LOOPS && Open(u) == Open(s)
  {
    hide PushOk, PullOk, Words;
    NextInv(s, test, Apply(s, test));
    NextInv(Apply(s, test), queue, Apply(Apply(s, test), queue));
  }

  lemma NoRelay(s: Sys)
    ensures Relays(s, 0) == s
  {}

  /** Calls of the relay between two points of a run. */
  function Works(steps: seq<Step>, i: nat, j: nat): nat
    requires i <= j <= |steps|
  {
    if i == j then 0 else Works(steps, i, j - 1) + if steps[j - 1] == Work then 1 else 0
  }

  /** After the rearming of the loop counter at i, as long as it cannot have run
      down, a thread about to write the sync word finds the relay queued. */
  predicate InTime(s: Sys, calls: nat) {
    s.loop >= Left(LOOPS, Open(s) * calls) && (s.push.phase == Mark || s.pull.phase == Mark ==> s.work)
  }

  lemma InTimeStep(s: Sys, step: Step, t: Sys, calls: nat)
    requires Inv(s) && Next(s, step, t) && InTime(s, calls)
    requires Few(Open(s), calls + if step == Work then 1 else 0)
    ensures InTime(t, calls + if step == Work then 1 else 0) && Open(t) == Open(s)
  {
    hide PushOk, PullOk, Words, PushOffer, PullOffer, PushTaken, PullTaken;
    hide Advanced, Space, Available, RoundDown, PushUpdate, PullUpdate;
    assert Open(s) * (calls + 1) == Open(s) * calls + Open(s);
  }

  lemma {:induction false} InTimeRun(states: seq<Sys>, steps: seq<Step>, i: nat, j: nat)
    requires Run(states, steps) && i < j < |states|
    requires (steps[i].IoctlPush? || steps[i].IoctlPull?) && !states[i].sync
    requires Few(Open(states[i]), Works(steps, i + 1, j))
    ensures InTime(states[j], Works(steps, i + 1, j)) && Open(states[j]) == Open(states[i])
    decreases j
  {
    hide Init, Inv, InTime, Next, Open, Few;
    RunInv(states, steps, j - 1);
    assert Next(states[j - 1], steps[j - 1], states[j]);
    if j == i + 1 {
      InTimeStart(states[i], steps[i], states[j]);
    } else {
      var w := Works(steps, i + 1, j - 1);
      FewerCalls(Open(states[i]), w);
      InTimeRun(states, steps, i, j - 1);
      InTimeStep(states[j - 1], steps[j - 1], states[j], w);
    }
  }

  predicate Few(channels: nat, calls: nat) { channels * calls < LOOPS }

  lemma FewerCalls(c: nat, w: nat)
    ensures Few(c, w + 1) ==> Few(c, w)
  {
    MoreCalls(c, w);
  }

  lemma MoreCalls(c: nat, w: nat)
    ensures c * w <= c * (w + 1)
  {}

  lemma InTimeStart(s: Sys, step: Step, t: Sys)
    requires Inv(s) && Next(s, step, t) && (step.IoctlPush? || step.IoctlPull?) && !s.sync
    ensures InTime(t, 0) && Open(t) == Open(s)
  {
    hide PushOk, PullOk, Words;
  }

  /** In any run, whatever else happens, a thread-sync command whose two halves
      have few enough relay calls between them writes the sync word in time. */
  lemma MarkInTime(states: seq<Sys>, steps: seq<Step>, i: nat, j: nat)
    requires Run(states, steps) && i < j < |steps|
    requires (steps[i].IoctlPush? || steps[i].IoctlPull?) && !states[i].sync && IsMark(steps[j])
    requires Open(states[i]) * Works(steps, i + 1, j) < LOOPS
    ensures states[j].work
  {
    hide Init, Works, Open, Next, InTime;
    InTimeRun(states, steps, i, j);
    assert Next(states[j], steps[j], states[j + 1]);
    MarkQueued(states[j], steps[j], states[j + 1], Works(steps, i + 1, j));
  }

  lemma MarkQueued(s: Sys, step: Step, t: Sys, calls: nat)
    requires Next(s, step, t) && IsMark(step) && InTime(s, calls)
    ensures s.work
  {
    hide PushOk, PullOk, Open;
  }

  // ---------- a run that loses the wakeup ----------

  lemma Extend(states: seq<Sys>, steps: seq<Step>, step: Step)
    returns (states': seq<Sys>, steps': seq<Step>)
    requires Run(states, steps) && Enabled(states[|steps|], step)
    ensures Run(states', steps') && |states'| == |steps'| + 1 && states'[0] == states[0] && steps' == steps + [step]
    ensures states'[|steps'|] == Apply(states[|steps|], step)
  {
    hide Init, Apply, Enabled;
    var t := Apply(states[|steps|], step);
    states', steps' := states + [t], steps + [step];
    forall i, j | 0 <= i < |steps'| && j == i + 1 ensures Next(states'[i], steps'[i], states'[j]) {
      if i < |steps| { assert Next(states[i], steps[i], states[j]); }
    }
  }

  /** The relay is still queued after k calls with nothing new. */
  predicate Lasts(s: Sys, k: nat) { Open(s) * k < s.loop }

  lemma LastsBefore(s: Sys, k: nat)
    ensures Lasts(s, k + 1) ==> Lasts(s, k)
  {
    MoreCalls(Open(s), k);
  }

  lemma NextRelay(s: Sys, k: nat)
    requires Inv(s) && Quiet(s) && s.work && Lasts(s, k)
    ensures Enabled(Relays(s, k), Work) && Apply(Relays(s, k), Work) == Relays(s, k + 1)
  {
    hide Inv, Quiet, Relay, Enabled, Apply, Open;
    QuietRelays(s, k);
    if k > 0 { SameChannels(s, Left(s.loop, Open(s) * k), true, s.sync); }
    WorkEnabled(Relays(s, k));
  }

  lemma {:induction false} ExtendRelays(states: seq<Sys>, steps: seq<Step>, k: nat)
    returns (states': seq<Sys>, steps': seq<Step>)
    requires Run(states, steps) && |states| == |steps| + 1
    requires var s := states[|steps|]; Inv(s) && Quiet(s) && s.work && (k > 0 ==> Lasts(s, k - 1))
    ensures Run(states', steps') && |states'| == |steps'| + 1 && states'[0] == states[0]
    ensures states'[|steps'|] == Relays(states[|steps|], k)
    decreases k
  {
    if k == 0 {
      states', steps' := states, steps;
    } else {
      hide *;
      var s := states[|steps|];
      if k > 1 { LastsBefore(s, k - 2); }
      states', steps' := ExtendRelays(states, steps, k - 1);
      NextRelay(s, k - 1);
      states', steps' := Extend(states', steps', Work);
    }
  }

  lemma WorkEnabled(s: Sys)
    requires Inv(s) && s.work
    ensures Enabled(s, Work) && Apply(s, Work) == Relay(s)
  {
    hide PushOk, PullOk, Words;
  }

  /** A channel whose user has acknowledged nothing yet, in some phase. */
  predicate Untouched(p: Push) {
    p.end == p.front == p.seen == p.freed == p.relayed == 0 && p.acked == p.received == [] &&
    Size(p.size) && |p.buf| == p.size
  }

  lemma AckNothing(p: Push)
    requires Untouched(p) && PushOk(p)
    ensures var t := PushAcked(p, 0); Untouched(t) && t.phase == Check
  {
    PushExact(p.size, 0, 0, 0);
    AdvancedPosition(p.size, 0, 0);
    hide Stored;
  }

  lemma AckWord(p: Push)
    requires Untouched(p) && PushOk(p)
    ensures var t := PushAcked(p, WORD); |t.acked| == WORD && t.relayed == 0 && t.phase == Check
  {
    PushExact(p.size, 0, 0, WORD);
    hide Stored;
  }

  predicate Opened(s: Sys, f: Phase) {
    s.pushValid && Untouched(s.push) && s.push.phase == f &&
    s.pull.phase == Ready && s.pull.relayed == |s.pull.delivered|
  }

  lemma InitOpened(s: Sys)
    requires Init(s) && s.pushValid
    ensures Opened(s, Ready) && Inv(s) && s.work && !s.sync && s.loop == LOOPS
  {}

  lemma AckOpened(s: Sys, send: nat)
    requires Inv(s) && Opened(s, Ready) && (send == 0 || send == WORD)
    ensures Enabled(s, AckPush(send))
    ensures var t := Apply(s, AckPush(send));
            t == s.(push := t.push) && t.push.phase == Check &&
            if send == 0 then Opened(t, Check) else t.push.relayed == 0 && |t.push.acked| == WORD
  {
    hide PushOk, PullOk;
    AckNothing(s.push);
    AckWord(s.push);
    hide Untouched, PushAcked;
  }

  lemma SyncOpened(s: Sys, step: Step, f: Phase, g: Phase)
    requires Inv(s) && Opened(s, f)
    requires (step == CheckPush && f == Check && g == Checked(s.sync)) ||
             (step == IoctlPush && f == Ioctl && g == Queue && !s.sync) ||
             (step == QueuePush && f == Queue && g == Mark) || (step == MarkPush && f == Mark && g == Ready)
    ensures Enabled(s, step)
    ensures var t := Apply(s, step);
            Opened(t, g) && t.push == s.push.(phase := g) && t.work == (s.work || step == QueuePush) &&
            t.sync == (s.sync || step == MarkPush) && t.loop == if step == IoctlPush then LOOPS else s.loop
  {
    hide PushOk, PullOk;
  }

  /** From the start of every session with a push channel some run loses an
      acknowledgement: the relay counts down to 0 while a thread is between
      queueing it and writing the sync word, and the next acknowledgement finds
      the word set. */
  lemma LosingRun(s: Sys) returns (states: seq<Sys>, steps: seq<Step>)
    requires Init(s) && s.pushValid
    ensures Run(states, steps) && states[0] == s
    ensures var t := states[|steps|]; Lost(t) && t.push.phase == Ready && t.push.relayed < |t.push.acked|
  {
    hide Init, Inv, Untouched, Apply, Enabled, Relay, Next, Lost, Run;
    states, steps := MarkingRun(s);
    states, steps := StoppedRun(s, states, steps);
    var u := states[|steps|];
    RunInv(states, steps, |steps|);
    SyncOpened(u, MarkPush, Mark, Ready);
    states, steps := Extend(states, steps, MarkPush);
    u := states[|steps|];
    RunInv(states, steps, |steps|);
    AckOpened(u, WORD);
    states, steps := Extend(states, steps, AckPush(WORD));
    u := states[|steps|];
    RunInv(states, steps, |steps|);
    LastCheck(u);
    states, steps := Extend(states, steps, CheckPush);
  }

  lemma LastCheck(s: Sys)
    requires Inv(s) && s.push.phase == Check && s.pull.phase == Ready && s.sync && !s.work
    ensures Enabled(s, CheckPush)
    ensures var t := Apply(s, CheckPush);
            Lost(t) && t.push.phase == Ready && t.push.relayed == s.push.relayed && t.push.acked == s.push.acked
  {
    hide PushOk, PullOk;
  }

  /** An acknowledgement of nothing leads to the middle of the command. */
  lemma MarkingRun(s: Sys) returns (states: seq<Sys>, steps: seq<Step>)
    requires Init(s) && s.pushValid
    ensures Run(states, steps) && |states| == |steps| + 1 && states[0] == s
    ensures var t := states[|steps|]; Opened(t, Mark) && t.work && !t.sync && t.loop == LOOPS && Inv(t)
  {
    states, steps := [s], [];
    InitOpened(s);
    hide Init, Inv, Opened, Apply, Enabled, Next, Run;
    OnlyInit(states, steps);
    AckOpened(s, 0);
    states, steps := Extend(states, steps, AckPush(0));
    RunInv(states, steps, |steps|);
    SyncOpened(states[|steps|], CheckPush, Check, Ioctl);
    states, steps := Extend(states, steps, CheckPush);
    RunInv(states, steps, |steps|);
    SyncOpened(states[|steps|], IoctlPush, Ioctl, Queue);
    states, steps := Extend(states, steps, IoctlPush);
    RunInv(states, steps, |steps|);
    SyncOpened(states[|steps|], QueuePush, Queue, Mark);
    states, steps := Extend(states, steps, QueuePush);
    RunInv(states, steps, |steps|);
  }

  lemma OnlyInit(states: seq<Sys>, steps: seq<Step>)
    requires |states| == 1 && steps == [] && Init(states[0])
    ensures Run(states, steps)
  {}

  /** Enough relays with nothing new stop the relay. */
  lemma StoppedRun(s: Sys, states: seq<Sys>, steps: seq<Step>) returns (states': seq<Sys>, steps': seq<Step>)
    requires Run(states, steps) && |states| == |steps| + 1 && states[0] == s
    requires var t := states[|steps|]; Opened(t, Mark) && t.work && !t.sync && t.loop == LOOPS && Inv(t)
    ensures Run(states', steps') && |states'| == |steps'| + 1 && states'[0] == s
    ensures var t := states'[|steps'|]; Opened(t, Mark) && !t.work && !t.sync
  {
    hide Init, Inv, Next, Relay, Relays, Run, Quiet, Open, Untouched;
    var t := states[|steps|];
    var k := StopsAfter(t);
    MarkQuiet(t);
    states', steps' := ExtendRelays(states, steps, k);
    QuietRelays(t, k);
  }

  lemma MarkQuiet(t: Sys)
    requires Opened(t, Mark)
    ensures Quiet(t)
  {}

  lemma StopsAfter(t: Sys) returns (k: nat)
    requires t.pushValid
    ensures k > 0 && Open(t) * (k - 1) < LOOPS <= Open(t) * k && (t.loop == LOOPS ==> Lasts(t, k - 1))
  {
    k := if t.pullValid then LOOPS / 2 else LOOPS;
  }

  // ---------- the end of ack_buffer ----------

  /** What a thread still has to do before ack_buffer returns. */
  function Duty(f: Phase): nat {
    match f
    case Check => 4
    case Ioctl => 3
    case Queue => 2
    case Mark => 1
    case Ready => 0
  }

  function Duties(s: Sys): nat { Duty(s.push.phase) + Duty(s.pull.phase) }

  predicate OfPush(step: Step) { step.CheckPush? || step.IoctlPush? || step.QueuePush? || step.MarkPush? }

  /** Every synchronisation step brings its own thread closer to the return and
      leaves the other one alone. A check goes on to the driver exactly when the
      sync word is 0, and a command that finds it set returns at once. */
  lemma DutyStep(s: Sys, step: Step, t: Sys)
    requires Inv(s) && Next(s, step, t) && IsSync(step)
    ensures if OfPush(step) then Duty(t.push.phase) < Duty(s.push.phase) && t.pull.phase == s.pull.phase
            else Duty(t.pull.phase) < Duty(s.pull.phase) && t.push.phase == s.push.phase
    ensures var f := if OfPush(step) then t.push.phase else t.pull.phase;
            (step.CheckPush? || step.CheckPull? ==> f == if s.sync then Ready else Ioctl) &&
            (step.IoctlPush? || step.IoctlPull? ==> f == if s.sync then Ready else Queue)
  {
    hide PushOk, PullOk, Words;
  }

  lemma DutyKept(s: Sys, step: Step, t: Sys)
    requires Inv(s) && Next(s, step, t) && !IsSync(step)
    ensures (step.AckPush? ==> s.push.phase == Ready && t.push.phase == Check && t.pull.phase == s.pull.phase)
    ensures (step.AckPull? ==> s.pull.phase == Ready && t.pull.phase == Check && t.push.phase == s.push.phase)
    ensures !step.AckPush? && !step.AckPull? ==> t.push.phase == s.push.phase && t.pull.phase == s.pull.phase
  {
    hide PushOk, PullOk, Words, PushOffer, PullOffer, PushTaken, PullTaken, Advanced, Space, Available, RoundDown;
  }

  function Syncs(steps: seq<Step>, i: nat, n: nat): nat
    requires i <= n <= |steps|
  {
    if i == n then 0 else Syncs(steps, i, n - 1) + if IsSync(steps[n - 1]) then 1 else 0
  }

  function Acks(steps: seq<Step>, i: nat, n: nat): nat
    requires i <= n <= |steps|
  {
    if i == n then 0 else Acks(steps, i, n - 1) + if steps[n - 1].AckPush? || steps[n - 1].AckPull? then 1 else 0
  }

  /** Over any run an acknowledgement costs at most four such steps, so
      ack_buffer returns: with SyncMoves there is always one to take until then. */
  lemma {:induction false} AckReturns(states: seq<Sys>, steps: seq<Step>, i: nat, n: nat)
    requires Run(states, steps) && i <= n < |states|
    ensures Syncs(steps, i, n) + Duties(states[n]) <= 4 * Acks(steps, i, n) + Duties(states[i])
    decreases n
  {
    hide Init, Inv, Next, Duty, IsSync;
    if i < n {
      AckReturns(states, steps, i, n - 1);
      RunInv(states, steps, n - 1);
      DutiesStep(states[n - 1], steps[n - 1], states[n]);
    }
  }

  lemma DutiesStep(s: Sys, step: Step, t: Sys)
    requires Inv(s) && Next(s, step, t)
    ensures Duties(t) + (if IsSync(step) then 1 else 0) <=
            Duties(s) + if step.AckPush? || step.AckPull? then 4 else 0
  {
    hide Inv, Next, OfPush;
    if IsSync(step) { DutyStep(s, step, t); } else { DutyKept(s, step, t); }
  }

  // ---------- somebody can always move ----------

  predicate Driving(step: Step) { step == Work || IsSync(step) }

  /** A thread inside ack_buffer, or the one that holds the driver's semaphore,
      can go on. */
  lemma SyncMoves(s: Sys) returns (step: Step)
    requires Inv(s) && (s.push.phase != Ready || s.pull.phase != Ready)
    ensures Enabled(s, step) && IsSync(step)
  {
    hide PushOk, PullOk, Words;
    step :=
      if s.push.phase == Queue then QueuePush else if s.push.phase == Mark then MarkPush
      else if s.pull.phase == Queue then QueuePull else if s.pull.phase == Mark then MarkPull
      else if s.push.phase == Check then CheckPush else if s.pull.phase == Check then CheckPull
      else if s.push.phase == Ioctl then IoctlPush else IoctlPull;
  }

  /** As long as a push channel holds bytes, the FPGA can read or publish, or the
      relay or a user thread is about to tell it more. */
  lemma PushNeverStuck(s: Sys) returns (step: Step)
    requires Inv(s) && Awake(s) && s.pushValid && s.push.freed < |s.push.acked|
    ensures Enabled(s, step)
    ensures var t := Apply(s, step).push;
            Driving(step) || (step == Read && |t.received| == |s.push.received| + 1) ||
            (step == Free(s.push.relayed) && t.freed == s.push.relayed > s.push.freed)
  {
    if |s.push.received| < s.push.relayed {
      step := Read;
    } else if s.push.freed < s.push.relayed {
      step := Free(s.push.relayed);
    } else if s.push.phase != Ready || s.pull.phase != Ready {
      step := SyncMoves(s);
    } else {
      step := Work;
    }
    hide Stored;
  }

  /** As long as a pull channel holds bytes the FPGA may not overwrite, it can
      publish more, the user can take some, or the relay or a user thread is about
      to tell it that they were taken. */
  lemma PullNeverStuck(s: Sys) returns (step: Step)
    requires Inv(s) && Awake(s) && s.pullValid && s.pull.relayed < |s.pull.stream|
    ensures Enabled(s, step)
    ensures var t := Apply(s, step).pull;
            Driving(step) || (step == Publish(|s.pull.stream|) && t.published == |s.pull.stream| > s.pull.published) ||
            (step == AckPull(1) && |t.delivered| == |s.pull.delivered| + 1)
  {
    if s.pull.published < |s.pull.stream| {
      step := Publish(|s.pull.stream|);
    } else if s.push.phase != Ready || s.pull.phase != Ready {
      step := SyncMoves(s);
    } else if |s.pull.delivered| < s.pull.published {
      step := AckPull(1);
      PullExact(s.pull.size, |s.pull.delivered|, s.pull.published, 1);
    } else {
      step := Work;
    }
    hide Stored;
  }
}
