/**
 That the pushes and pops of the global ring achieve something: what a push
 publishes a pop finds, and a pop gives up only for a reason.
 */
module GlobalQueueProgress {
  import opened GlobalQueue
  import opened GlobalQueueReuse

  /** On every run, a push that nobody interrupts publishes its queue behind all others. */
  lemma PushPublishes(states: seq<State>, actions: seq<Action>, i: nat, t: nat, mq: nat)
    returns (first: State, s': State)
    requires IsRun(states, actions) && i < |states| && Enabled(states[i], TakeTicket(t, mq))
    ensures first == Do(states[i], TakeTicket(t, mq)) && Runs(first, [WriteSlot(t), SetFlag(t)], s')
    ensures var s := states[i];
            && s'.threads == s.threads && s'.popped == s.popped && s'.head == s.head
            && Waiting(s') == Waiting(s) + [mq] && s'.tail == s.tail + 1 && s'.published == s.published + {s.tail}
  {
    RunKeepsInv(states, actions, i);
    first := Do(states[i], TakeTicket(t, mq));
    s' := Pushed(states[i], mq);
    PushAlone(states[i], t, mq);
  }

  /** On every run, if the oldest ticket is published, a pop that nobody interrupts takes its queue. */
  lemma PopTakesOldest(states: seq<State>, actions: seq<Action>, i: nat, t: nat) returns (s': State)
    requires IsRun(states, actions) && i < |states| && t < |states[i].threads| && states[i].threads[t] == Idle
    requires states[i].head in states[i].published
    ensures Runs(states[i], PopActions(t), s')
    ensures Waiting(states[i]) != [] && Waiting(s') == Waiting(states[i])[1..]
    ensures s'.popped == states[i].popped + [Waiting(states[i])[0]]
  {
    var s := states[i];
    RunKeepsInv(states, actions, i);
    assert Outstanding(s, s.head) && TicketOk(s, s.head);
    SlotsDiffer(s.head, s.tail);
    s' := Taken(s, t);
    PopAlone(s, t);
  }

  /** The thread is popping and has read the head as h. */
  predicate HasRead(pc: Pc, h: nat) {
    match pc
    case LoadedHead(x) => x == h
    case NotEmpty(x) => x == h
    case SawFlag(x) => x == h
    case LoadedQueue(x, _) => x == h
    case _ => false
  }

  /** It read the head h at an earlier step, when h tickets had been popped. */
  lemma {:induction false} ReadSince(states: seq<State>, actions: seq<Action>, i: nat, t: nat, h: nat) returns (l: nat)
    requires IsRun(states, actions) && i < |states| && t < |states[i].threads| && HasRead(states[i].threads[t], h)
    ensures l < i && actions[l] == LoadHead(t) && states[l].head == h
    ensures forall k :: l < k < i ==> actions[k] != LoadHead(t)
  {
    assert i > 0;
    assert StepAt(states, actions, i - 1);
    if actions[i - 1] == LoadHead(t) {
      l := i - 1;
    } else {
      l := ReadSince(states, actions, i - 1, t, h);
    }
  }

  /** The action ends an attempt to pop without a queue. */
  predicate GivesUp(s: State, a: Action) {
    && Enabled(s, a) && (a.CheckTail? || a.CheckFlag? || a.CompareAndSwap?)
    && Do(s, a).threads[a.t] == Idle
  }

  /**
   On every run, a pop that gives up found the ring empty, or its oldest ticket
   not yet published, or another pop succeeded since it had read the head.
   */
  lemma GivesUpForReason(states: seq<State>, actions: seq<Action>, i: nat) returns (l: nat)
    requires IsRun(states, actions) && i < |actions| && GivesUp(states[i], actions[i])
    ensures l < i && actions[l] == LoadHead(actions[i].t)
    ensures forall k :: l < k < i ==> actions[k] != LoadHead(actions[i].t)
    ensures Waiting(states[i]) == [] || states[i].head !in states[i].published
            || |states[i].popped| > |states[l].popped|
  {
    var s, a := states[i], actions[i];
    var pc := s.threads[a.t];
    RunKeepsInv(states, actions, i);
    assert PcOk(s, pc);
    l := ReadSince(states, actions, i, a.t, pc.h);
    RunKeepsInv(states, actions, l);
    if pc.h == s.head && s.head < s.tail {
      assert Outstanding(s, s.head) && TicketOk(s, s.head);
      SlotsDiffer(s.head, s.tail);
    }
  }
}
