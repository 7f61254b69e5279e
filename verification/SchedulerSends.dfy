/**
 What a service sends is what its receiver gets: every message pushed to a
 queue was sent to it, once, and unchanged.
 */
module SchedulerSends {
  import opened MessageQueues
  import opened Scheduler
  import opened SchedulerRuns

  function Sends(a: Action, q: nat): multiset<Message> {
    if a.StartSend? && a.to == q then multiset{a.message} else multiset{}
  }

  /** The messages sent to service q by the first i actions. */
  function SentTo(actions: seq<Action>, i: nat, q: nat): multiset<Message>
    requires i <= |actions|
  {
    if i == 0 then multiset{} else SentTo(actions, i - 1, q) + Sends(actions[i - 1], q)
  }

  /** The message a thread is about to push to q. */
  function Carried(pc: Pc, q: nat): multiset<Message> {
    if pc.Sending? && pc.q == q then multiset{pc.msg} else multiset{}
  }

  function InFlight(threads: seq<Pc>, q: nat): multiset<Message> {
    if threads == [] then multiset{} else Carried(threads[0], q) + InFlight(threads[1..], q)
  }

  lemma AddInFront(x: multiset<Message>, a: multiset<Message>, b: multiset<Message>,
                   c: multiset<Message>, d: multiset<Message>)
    requires a + b == c + d
    ensures (x + a) + b == (x + c) + d
  {
    assert (x + a) + b == x + (a + b);
    assert (x + c) + d == x + (c + d);
  }

  lemma {:induction false} InFlightUpdate(threads: seq<Pc>, t: nat, pc: Pc, q: nat)
    requires t < |threads|
    ensures InFlight(threads[t := pc], q) + Carried(threads[t], q) == InFlight(threads, q) + Carried(pc, q)
  {
    if t == 0 {
      assert threads[t := pc][1..] == threads[1..];
      var was, now, rest := Carried(threads[t], q), Carried(pc, q), InFlight(threads[1..], q);
      assert (now + rest) + was == (was + rest) + now;
    } else {
      assert threads[t := pc][1..] == threads[1..][t - 1 := pc];
      InFlightUpdate(threads[1..], t - 1, pc, q);
      AddInFront(Carried(threads[0], q), InFlight(threads[1..][t - 1 := pc], q), Carried(threads[t], q),
                 InFlight(threads[1..], q), Carried(pc, q));
    }
  }

  lemma {:induction false} NoneInFlight(threads: seq<Pc>, q: nat)
    requires forall t :: 0 <= t < |threads| ==> threads[t] == Idle
    ensures InFlight(threads, q) == multiset{}
  {
    if threads != [] {
      NoneInFlight(threads[1..], q);
    }
  }

  /** The history of pushes to q; empty before q exists. */
  function PushedTo(s: State, q: nat): seq<Message> {
    if q < |s.services| then s.services[q].pushed else []
  }

  /** Only a send takes a message up, and only a push gives it away. */
  lemma LocalSends(sv: Service, pc: Pc, a: Action)
    requires At(pc, a) && OnService(a)
    ensures var r := LocalStep(sv, pc, a);
            && (if a.StartSend? then r.pc == Sending(a.to, a.message) else !r.pc.Sending?)
            && r.service.pushed == sv.pushed + (if a.Push? then [pc.msg] else [])
    ensures a.Push? <==> pc.Sending?
  {
  }

  /** One step, seen from thread and queue. */
  lemma StepSends(s: State, a: Action, q: nat)
    requires Enabled(s, a)
    ensures |Do(s, a).threads| == |s.threads|
    ensures var s', t, pc := Do(s, a), a.t, s.threads[a.t];
            && s'.threads == s.threads[t := s'.threads[t]]
            && (if a.StartSend? then s'.threads[t] == Sending(a.to, a.message) else !s'.threads[t].Sending?)
            && PushedTo(s', q) == PushedTo(s, q) + (if a.Push? && pc.q == q then [pc.msg] else [])
            && (a.Push? <==> pc.Sending?)
  {
    if OnService(a) {
      DoOnService(s, a);
      var x := Target(s.threads[a.t], a);
      LocalSends(s.services[x], s.threads[a.t], a);
      hide LocalStep;
    }
  }

  lemma StepAccounts(s: State, a: Action, q: nat)
    requires Enabled(s, a)
    ensures multiset(PushedTo(Do(s, a), q)) + InFlight(Do(s, a).threads, q) ==
            multiset(PushedTo(s, q)) + InFlight(s.threads, q) + Sends(a, q)
  {
    var s', pc := Do(s, a), s.threads[a.t];
    StepSends(s, a, q);
    InFlightUpdate(s.threads, a.t, s'.threads[a.t], q);
    hide Do, Enabled, InFlight, PushedTo;
    var before, after, was := InFlight(s.threads, q), InFlight(s'.threads, q), Carried(pc, q);
    var pushed, pushed' := multiset(PushedTo(s, q)), multiset(PushedTo(s', q));
    assert Carried(s'.threads[a.t], q) == Sends(a, q);
    assert pushed' == pushed + was;
    AddInFront(pushed, after, was, before, Sends(a, q));
    assert pushed' + after == (pushed + after) + was;
  }

  lemma RunLength(states: seq<State>, actions: seq<Action>)
    requires IsRun(states, actions)
    ensures |states| == |actions| + 1
  {
  }

  lemma NothingSent(states: seq<State>, actions: seq<Action>, q: nat)
    requires IsRun(states, actions)
    ensures SentTo(actions, 0, q) == multiset(PushedTo(states[0], q)) + InFlight(states[0].threads, q)
  {
    NoneInFlight(states[0].threads, q);
    assert PushedTo(states[0], q) == [];
  }

  lemma SentNext(states: seq<State>, actions: seq<Action>, i: nat, q: nat)
    requires IsRun(states, actions) && i < |actions|
    requires SentTo(actions, i, q) == multiset(PushedTo(states[i], q)) + InFlight(states[i].threads, q)
    ensures SentTo(actions, i + 1, q) == multiset(PushedTo(states[i + 1], q)) + InFlight(states[i + 1].threads, q)
  {
    assert StepAt(states, actions, i);
    StepAccounts(states[i], actions[i], q);
    hide Do, InFlight, PushedTo, Sends;
  }

  /** On every run, what was sent to a service is what was pushed to it and what is still on its way. */
  lemma {:induction false} SendsAccounted(states: seq<State>, actions: seq<Action>, i: nat, q: nat)
    requires IsRun(states, actions) && i < |states|
    ensures SentTo(actions, i, q) == multiset(PushedTo(states[i], q)) + InFlight(states[i].threads, q)
  {
    hide *;
    if i == 0 {
      NothingSent(states, actions, q);
    } else {
      RunLength(states, actions);
      SendsAccounted(states, actions, i - 1, q);
      SentNext(states, actions, i - 1, q);
    }
  }

  /**
   On every run, each message sent to a service is on its way, waits in the
   queue, was taken by a worker, or was dropped with the queue: exactly one.
   */
  lemma EveryMessageArrives(states: seq<State>, actions: seq<Action>, i: nat, q: nat)
    requires IsRun(states, actions) && i < |states| && q < |states[i].services|
    ensures var sv := states[i].services[q];
            SentTo(actions, i, q) ==
            multiset(sv.taken) + multiset(sv.dropped) + multiset(sv.queue.msgs) + InFlight(states[i].threads, q)
  {
    SendsAccounted(states, actions, i, q);
    EveryMessageAccounted(states, actions, i, q);
  }

  /** A thread that carries a message took it up with its last action. */
  lemma {:induction false} SendingSince(states: seq<State>, actions: seq<Action>, k: nat, t: nat) returns (i: nat)
    requires IsRun(states, actions) && k < |states| && t < |states[k].threads| && states[k].threads[t].Sending?
    ensures i < k && actions[i] == StartSend(t, states[k].threads[t].q, states[k].threads[t].msg)
    ensures forall l :: i < l < k ==> actions[l].t != t
  {
    assert k > 0;
    assert StepAt(states, actions, k - 1);
    StepSends(states[k - 1], actions[k - 1], 0);
    hide Do;
    if actions[k - 1].t == t {
      i := k - 1;
    } else {
      i := SendingSince(states, actions, k - 1, t);
    }
  }

  /** On every run, a push delivers to its receiver the message its thread was last given, and to nobody else any. */
  lemma PushDelivers(states: seq<State>, actions: seq<Action>, k: nat, q: nat) returns (i: nat)
    requires IsRun(states, actions) && k < |actions| && actions[k].Push?
    ensures i < k && actions[i].StartSend? && actions[i].t == actions[k].t
    ensures forall l :: i < l < k ==> actions[l].t != actions[k].t
    ensures PushedTo(states[k + 1], q) ==
            PushedTo(states[k], q) + (if q == actions[i].to then [actions[i].message] else [])
  {
    assert StepAt(states, actions, k);
    StepSends(states[k], actions[k], q);
    hide Do;
    i := SendingSince(states, actions, k, actions[k].t);
  }
}
