/** The bytes themselves: what the user wrote is what the FPGA reads, and what the
    FPGA stored is what the user is handed. */
module HostChannelData {
  import opened Modular
  import opened HostChannel
  import opened HostChannelProtocol

  // ---------- push ----------

  predicate Rewrites(step: Step, at: nat) { step.Write? && step.at == at }

  /** Between two acknowledgements a byte of the offered region only changes when
      the user writes it again. */
  lemma ByteKept(s: Sys, step: Step, t: Sys, at: nat)
    requires Inv(s) && Next(s, step, t) && !step.AckPush? && !Rewrites(step, at) && s.push.end + at < s.push.size
    ensures var p, q := s.push, t.push;
            q.acked == p.acked && q.end == p.end && q.size == p.size == |p.buf| == |q.buf| &&
            q.buf[p.end + at] == p.buf[p.end + at]
  {
    hide Stored, PushOffer, PullOffer, PullAcked, Words, Exclusive;
  }

  lemma {:induction false} BytesKept(states: seq<Sys>, steps: seq<Step>, i: nat, n: nat, at: nat)
    requires Run(states, steps) && i <= n < |states| && states[i].push.end + at < states[i].push.size
    requires forall j :: i <= j < n ==> !steps[j].AckPush? && !Rewrites(steps[j], at)
    ensures var p, q := states[i].push, states[n].push;
            q.acked == p.acked && q.end == p.end && q.size == p.size == |p.buf| == |q.buf| &&
            q.buf[p.end + at] == p.buf[p.end + at]
    decreases n
  {
    RunInv(states, steps, i);
    hide Next, Init, Stored, Words, Exclusive;
    if i < n {
      BytesKept(states, steps, i, n - 1, at);
      RunInv(states, steps, n - 1);
      ByteKept(states[n - 1], steps[n - 1], states[n], at);
    }
  }

  lemma AckTakes(p: Push, send: nat, at: nat)
    requires PushOk(p)
    ensures var q := PushAcked(p, send);
            p.acked <= q.acked && (|p.acked| + at < |q.acked| ==>
              p.end + at < |p.buf| && q.acked[|p.acked| + at] == p.buf[p.end + at])
  {
    PushExact(p.size, p.freed, |p.acked|, send);
    hide Stored, PushOffer, PushTaken, Advanced, Space, RoundDown;
  }

  lemma WriteOk(s: Sys, at: nat, b: Byte, t: Sys)
    requires Inv(s) && Next(s, Write(at, b), t)
    ensures var p, q := s.push, t.push;
            q.end == p.end && q.acked == p.acked && q.end + at < q.size == |q.buf| && q.buf[q.end + at] == b
  {
    hide Stored, Words, Exclusive;
  }

  /** The byte the user wrote last at an offset of the offered region, before the
      acknowledgement that covers it, is the byte the FPGA reads there, however the
      steps of everybody else are interleaved. */
  lemma WrittenArrives(states: seq<Sys>, steps: seq<Step>, i: nat, n: nat, m: nat)
    requires Run(states, steps) && i < n < m < |states| && steps[i].Write? && steps[n].AckPush?
    requires forall j :: i < j < n ==> !steps[j].AckPush? && !Rewrites(steps[j], steps[i].at)
    ensures var at := |states[i].push.acked| + steps[i].at;
            (at < |states[n + 1].push.acked| ==> states[n + 1].push.acked[at] == steps[i].b) &&
            (at < |states[n + 1].push.acked| && at < |states[m].push.received| ==>
               states[m].push.received[at] == steps[i].b)
  {
    var at := steps[i].at;
    RunInv(states, steps, i);
    RunInv(states, steps, n);
    assert Next(states[i], steps[i], states[i + 1]);
    assert Next(states[n], steps[n], states[n + 1]);
    WriteOk(states[i], at, steps[i].b, states[i + 1]);
    BytesKept(states, steps, i + 1, n, at);
    AckTakes(states[n].push, steps[n].send, at);
    PushIsFifo(states, steps, n + 1, m);
    hide Run, Inv, Stored, PushAcked, PullOk, InOffer, PushOk;
  }

  // ---------- pull ----------

  /** The bytes the FPGA stored, in order. */
  function Fills(steps: seq<Step>): seq<Byte> {
    if steps == [] then []
    else Fills(steps[..|steps| - 1]) + if steps[|steps| - 1].Fill? then [steps[|steps| - 1].b] else []
  }

  lemma StreamStep(s: Sys, step: Step, t: Sys)
    requires Next(s, step, t)
    ensures t.pull.stream == s.pull.stream + if step.Fill? then [step.b] else []
  {
    hide PushOk, PullOk, PushAcked, PushOffer, PullOffer, PullTaken, Advanced, Available;
  }

  lemma {:induction false} StreamIsFills(states: seq<Sys>, steps: seq<Step>, n: nat)
    requires Run(states, steps) && n < |states|
    ensures states[n].pull.stream == Fills(steps[..n])
    decreases n
  {
    hide Next;
    if n > 0 {
      StreamIsFills(states, steps, n - 1);
      StreamStep(states[n - 1], steps[n - 1], states[n]);
      assert steps[..n][..n - 1] == steps[..n - 1];
    }
  }

  /** Over every run the user is handed exactly the bytes the FPGA stored, and so
      is what it sees before acknowledging. */
  lemma StoredArrives(states: seq<Sys>, steps: seq<Step>, n: nat)
    requires Run(states, steps) && n < |states|
    ensures var p, fills := states[n].pull, Fills(steps[..n]);
            p.delivered <= fills && p.front + p.offered <= |p.buf| && |p.delivered| + p.offered <= |fills| &&
            p.buf[p.front..p.front + p.offered] == fills[|p.delivered|..|p.delivered| + p.offered]
  {
    StreamIsFills(states, steps, n);
    PullIsFifo(states, steps, n, n);
    hide Run, Fills;
  }
}
