// Who confirms a UDP session, over whole runs.
module Confirmation {
  import opened Bytes
  import opened Events
  import opened UdpTunnels
  import opened SimplesTunnels
  import opened Runs
  import opened Sessions
  import opened Timing

  // A datagram, as far as it fits the buffer, that equals the token in force and comes from the
  // present or a former relay address.
  predicate Confirms(u: Udp, step: Step) {
    && step.Datagram? && step.read.Received? && u.details.Some?
    && step.read.data[..Min(|step.buff|, |step.read.data|)] == u.details.value.token
    && step.read.from in Known(u)
  }

  lemma DatagramConfirms(v: Variant, t: Tunnel, step: Step)
    requires step.Datagram?
    ensures var u := Next(v, t, step).t.udp;
            u == t.udp || (Confirms(t.udp, step) && u == t.udp.(lastConfirm := NowSec(step.clock)))
  {
    hide Extract;
    KnownMember(t.udp, step.read.GetFrom());
    var data := if step.read.Received? then step.read.data else [];
    assert Fill(step.buff, data)[..Min(|step.buff|, |data|)] == data[..Min(|step.buff|, |data|)];
  }

  // One step keeps the confirmation, sets it because of a confirming datagram, or clears it
  // because the control address changes.
  lemma StepConfirms(v: Variant, t: Tunnel, step: Step)
    ensures var o := Next(v, t, step);
            || (Moves(o.events) == 0 && o.t.udp.lastConfirm == t.udp.lastConfirm)
            || (Moves(o.events) == 0 && Confirms(t.udp, step) && o.t.udp.lastConfirm == NowSec(step.clock))
            || (Moves(o.events) > 0 && o.t.udp.lastConfirm == 0)
  {
    hide Next;
    if step.UpdateStep? {
      UpdateNext(v, t, step.update);
      hide Update;
      UpdatePings(v, t, step.update);
    } else {
      OtherPings(v, t, step);
      if step.Datagram? {
        DatagramConfirms(v, t, step);
      }
    }
  }

  // A confirmation comes from step number n, and the address has not changed since.
  predicate ConfirmedAt(v: Variant, t: Tunnel, steps: seq<Step>, n: nat)
    requires n < |steps|
  {
    && Confirms(Run(v, t, steps[..n]).t.udp, steps[n])
    && Run(v, t, steps).t.udp.lastConfirm == NowSec(steps[n].clock)
    && Moves(Run(v, Run(v, t, steps[..n + 1]).t, steps[n + 1..]).events) == 0
  }

  lemma RunStep(v: Variant, t: Tunnel, steps: seq<Step>)
    requires steps != []
    ensures var first := Next(v, t, steps[0]);
            var rest := Run(v, first.t, steps[1..]);
            Run(v, t, steps) == Out(rest.t, first.events + rest.events)
  {
    hide Next;
  }

  lemma RunTail(v: Variant, t: Tunnel, steps: seq<Step>, n: nat)
    requires 0 < n <= |steps|
    ensures Run(v, t, steps[..n]).t == Run(v, Next(v, t, steps[0]).t, steps[1..][..n - 1]).t
  {
    hide Next;
    hide Run;
    RunStep(v, t, steps[..n]);
    assert steps[..n][0] == steps[0] && steps[..n][1..] == steps[1..][..n - 1];
  }

  lemma ConfirmedLater(v: Variant, t: Tunnel, steps: seq<Step>, m: nat)
    requires m + 1 < |steps| && ConfirmedAt(v, Next(v, t, steps[0]).t, steps[1..], m)
    ensures ConfirmedAt(v, t, steps, m + 1)
  {
    hide Next;
    hide Run;
    hide Confirms;
    RunStep(v, t, steps);
    RunTail(v, t, steps, m + 2);
    RunTail(v, t, steps, m + 1);
    assert steps[m + 2..] == steps[1..][m + 1..];
  }

  lemma ConfirmedFirst(v: Variant, t: Tunnel, steps: seq<Step>)
    requires steps != [] && Confirms(t.udp, steps[0])
    requires var rest := Run(v, Next(v, t, steps[0]).t, steps[1..]);
             rest.t.udp.lastConfirm == NowSec(steps[0].clock) && Moves(rest.events) == 0
    ensures ConfirmedAt(v, t, steps, 0)
  {
    hide Next;
    hide Confirms;
    RunStep(v, t, steps);
    RunTail(v, t, steps, 1);
    assert steps[..0] == [] && steps[1..][..0] == [];
  }

  // Where a confirmation comes from; -1 if it was there before the run, or there is none.
  lemma {:induction false} ConfirmedSince(v: Variant, t: Tunnel, steps: seq<Step>) returns (n: int)
    ensures -1 <= n < |steps|
    ensures n >= 0 ==> ConfirmedAt(v, t, steps, n)
    ensures n < 0 ==>
              var r := Run(v, t, steps);
              r.t.udp.lastConfirm == 0 || (r.t.udp.lastConfirm == t.udp.lastConfirm && Moves(r.events) == 0)
    decreases steps
  {
    hide Next;
    hide Confirms;
    hide ConfirmedAt;
    n := -1;
    if steps != [] {
      var first := Next(v, t, steps[0]);
      var rest := Run(v, first.t, steps[1..]);
      StepConfirms(v, t, steps[0]);
      RunStep(v, t, steps);
      PingsConcat(first.events, rest.events);
      var m := ConfirmedSince(v, first.t, steps[1..]);
      if m >= 0 {
        n := m + 1;
        ConfirmedLater(v, t, steps, m);
      } else if rest.t.udp.lastConfirm != 0 && first.t.udp.lastConfirm != t.udp.lastConfirm {
        n := 0;
        ConfirmedFirst(v, t, steps);
      }
    }
  }

  // Confirmation safety: in every state of a run a non-zero LastConfirm is the second of a datagram
  // that equalled the token then in force and came from an address the session had then been given,
  // and the session has not been invalidated since.
  lemma ConfirmationSafety(v: Variant, t: Tunnel, steps: seq<Step>)
    requires Initial(t)
    ensures Run(v, t, steps).t.udp.lastConfirm != 0 ==> exists n :: 0 <= n < |steps| && ConfirmedAt(v, t, steps, n)
  {
    hide Run;
    var n := ConfirmedSince(v, t, steps);
  }
}
