/**
 Why the global ring needs its third hypothesis: a run that reuses one slot
 before the flag of its last popper is cleared, after which nothing is ever
 popped again.
 */
module GlobalQueueReuse {
  import opened GlobalQueue

  /** The actions lead from s to s', all hypotheses met. */
  predicate Runs(s: State, actions: seq<Action>, s': State)
    decreases |actions|
  {
    if actions == [] then s' == s else Enabled(s, actions[0]) && Runs(Do(s, actions[0]), actions[1..], s')
  }

  lemma {:induction false} RunsOn(s: State, first: seq<Action>, mid: State, more: seq<Action>, s': State)
    requires Runs(s, first, mid) && Runs(mid, more, s')
    ensures Runs(s, first + more, s')
    decreases |first|
  {
    if first == [] {
      assert first + more == more;
    } else {
      assert (first + more)[1..] == first[1..] + more;
      RunsOn(Do(s, first[0]), first[1..], mid, more, s');
    }
  }

  // ----- A wedged ring -----

  /** The oldest ticket's flag is clear, and no thread is about to set it or has seen it set. */
  predicate ThreadWedged(s: State, pc: Pc) {
    match pc
    case Writing(k, _) => s.head < k < s.tail
    case Flagging(k, _) => s.head < k < s.tail
    case LoadedHead(h) => h <= s.head
    case NotEmpty(h) => h <= s.head
    case SawFlag(h) => h < s.head
    case LoadedQueue(h, _) => h < s.head
    case _ => true
  }

  ghost predicate Wedged(s: State) {
    && |s.slots| == |s.flags| == MAX_GLOBAL_MQ
    && s.head < s.tail < s.head + MAX_GLOBAL_MQ && !s.flags[Slot(s.head)]
    && forall t :: 0 <= t < |s.threads| ==> ThreadWedged(s, s.threads[t])
  }

  /** A wedged ring stays wedged: no pop succeeds. */
  lemma StaysWedged(s: State, a: Action)
    requires Wedged(s) && Possible(s, a)
    ensures Wedged(Do(s, a)) && Do(s, a).head == s.head && Do(s, a).popped == s.popped
  {
    assert ThreadWedged(s, s.threads[a.t]);
    if a.SetFlag? {
      SlotsDiffer(s.head, s.threads[a.t].k);
    }
  }

  /** Whatever the threads do from then on, the ring never yields a queue again. */
  lemma {:induction false} WedgedForever(states: seq<State>, actions: seq<Action>)
    requires |states| == |actions| + 1 && Wedged(states[0])
    requires forall i :: 0 <= i < |actions| ==>
               Possible(states[i], actions[i]) && states[i + 1] == Do(states[i], actions[i])
    ensures Wedged(states[|actions|]) && states[|actions|].popped == states[0].popped
  {
    if actions != [] {
      var n := |actions| - 1;
      WedgedForever(states[..n + 1], actions[..n]);
      StaysWedged(states[n], actions[n]);
    }
  }

  // ----- How it comes to that -----

  function PopActions(t: nat): seq<Action> {
    [LoadHead(t), CheckTail(t), CheckFlag(t), LoadQueue(t), CompareAndSwap(t)]
  }

  /** A push that nobody interrupts. */
  function Pushed(s: State, mq: nat): State
    requires |s.slots| == |s.flags| == MAX_GLOBAL_MQ
  {
    s.(tail := s.tail + 1, issued := s.issued + [mq], published := s.published + {s.tail},
       slots := s.slots[Slot(s.tail) := mq], flags := s.flags[Slot(s.tail) := true])
  }

  lemma PushAlone(s: State, t: nat, mq: nat)
    requires t < |s.threads| && s.threads[t] == Idle && Possible(s, TakeTicket(t, mq))
    ensures Runs(Do(s, TakeTicket(t, mq)), [WriteSlot(t), SetFlag(t)], Pushed(s, mq))
  {
    var s1 := Do(s, TakeTicket(t, mq));
    var s2 := Do(s1, WriteSlot(t));
    var s3 := Do(s2, SetFlag(t));
    assert s3.threads == s.threads;
    assert s3 == Pushed(s, mq);
    assert Runs(s3, [], s3);
    assert [SetFlag(t)][1..] == [] && [WriteSlot(t), SetFlag(t)][1..] == [SetFlag(t)];
    assert Runs(s2, [SetFlag(t)], s3);
  }

  /** A pop that nobody interrupts, up to the clearing of the flag. */
  function Taken(s: State, t: nat): State
    requires |s.slots| == MAX_GLOBAL_MQ && t < |s.threads|
  {
    s.(head := s.head + 1, popped := s.popped + [s.slots[Slot(s.head)]], threads := s.threads[t := Clearing(s.head)])
  }

  lemma PopAlone(s: State, t: nat)
    requires |s.slots| == |s.flags| == MAX_GLOBAL_MQ && t < |s.threads| && s.threads[t] == Idle
    requires s.flags[Slot(s.head)] && Slot(s.head) != Slot(s.tail)
    ensures Runs(s, PopActions(t), Taken(s, t))
  {
    var a := PopActions(t);
    var s1 := Do(s, LoadHead(t));
    var s2 := Do(s1, CheckTail(t));
    var s3 := Do(s2, CheckFlag(t));
    var s4 := Do(s3, LoadQueue(t));
    var s5 := Do(s4, CompareAndSwap(t));
    assert s5.threads == s.threads[t := Clearing(s.head)];
    assert s5 == Taken(s, t);
    assert a[4..][1..] == [] && a[3..][1..] == a[4..] && a[2..][1..] == a[3..] && a[1..][1..] == a[2..];
    assert Runs(s4, a[4..], s5);
    assert Runs(s3, a[3..], s5);
    assert Runs(s2, a[2..], s5);
    assert Runs(s1, a[1..], s5);
  }

  /** Thread 0 popped ticket 0 and is still to clear its flag; tickets up to k were pushed and popped by thread 1. */
  ghost predicate Late(s: State, k: nat) {
    && |s.slots| == |s.flags| == MAX_GLOBAL_MQ && s.head == s.tail == k
    && s.threads == [Clearing(0), Idle]
    && forall i :: 0 < i < MAX_GLOBAL_MQ ==> !s.flags[i]
  }

  lemma RunOne(s: State, a: Action)
    requires Enabled(s, a)
    ensures Runs(s, [a], Do(s, a))
  {
    assert Runs(Do(s, a), [a][1..], Do(s, a));
  }

  /** A push and a pop by one thread, with no one in between. */
  lemma PushAndPop(s: State, t: nat) returns (actions: seq<Action>)
    requires t < |s.threads| && s.threads[t] == Idle && Enabled(s, TakeTicket(t, 7)) && s.head == s.tail
    ensures Runs(s, actions, Taken(Pushed(s, 7), t))
  {
    var s1 := Do(s, TakeTicket(t, 7));
    RunOne(s, TakeTicket(t, 7));
    PushAlone(s, t, 7);
    RunsOn(s, [TakeTicket(t, 7)], s1, [WriteSlot(t), SetFlag(t)], Pushed(s, 7));
    SlotsDiffer(s.head, s.head + 1);
    PopAlone(Pushed(s, 7), t);
    actions := [TakeTicket(t, 7)] + [WriteSlot(t), SetFlag(t)];
    RunsOn(s, actions, Pushed(s, 7), PopActions(t), Taken(Pushed(s, 7), t));
    actions := actions + PopActions(t);
  }

  /** Thread 1 goes once around: push, pop, clear. */
  lemma Cycle(s: State, k: nat) returns (actions: seq<Action>, s': State)
    requires Late(s, k) && 0 < k < MAX_GLOBAL_MQ
    ensures Runs(s, actions, s') && Late(s', k + 1)
  {
    SlotsDiffer(0, k);
    actions := PushAndPop(s, 1);
    var popped := Taken(Pushed(s, 7), 1);
    s' := Do(popped, ClearFlag(1));
    assert s'.flags[Slot(k)] == false && s'.threads == [Clearing(0), Idle];
    RunOne(popped, ClearFlag(1));
    RunsOn(s, actions, popped, [ClearFlag(1)], s');
    actions := actions + [ClearFlag(1)];
  }

  lemma FirstPop(s: State) returns (actions: seq<Action>, s': State)
    requires Init(s) && s.threads == [Idle, Idle]
    ensures Runs(s, actions, s') && Late(s', 1)
  {
    actions := PushAndPop(s, 0);
    s' := Taken(Pushed(s, 7), 0);
    assert s'.threads == [Clearing(0), Idle];
  }

  lemma {:induction false} Cycles(s: State, k: nat) returns (actions: seq<Action>, s': State)
    requires Init(s) && s.threads == [Idle, Idle] && 0 < k <= MAX_GLOBAL_MQ
    ensures Runs(s, actions, s') && Late(s', k)
  {
    if k == 1 {
      actions, s' := FirstPop(s);
    } else {
      var first, mid := Cycles(s, k - 1);
      var more;
      more, s' := Cycle(mid, k - 1);
      RunsOn(s, first, mid, more, s');
      actions := first + more;
    }
  }

  /** The late ClearFlag takes the flag of the new ticket in its slot. */
  lemma LateClear(s: State) returns (after: seq<Action>, s': State)
    requires Late(s, MAX_GLOBAL_MQ)
    ensures Possible(s, TakeTicket(1, 7)) && !SlotCleared(s, s.tail)
    ensures Runs(Do(s, TakeTicket(1, 7)), after, s')
    ensures Wedged(s') && s'.head in s'.published
  {
    SlotsRepeat(0);
    assert s.threads[0] == Clearing(0);
    PushAlone(s, 1, 7);
    var pushed := Pushed(s, 7);
    s' := Do(pushed, ClearFlag(0));
    RunOne(pushed, ClearFlag(0));
    RunsOn(Do(s, TakeTicket(1, 7)), [WriteSlot(1), SetFlag(1)], pushed, [ClearFlag(0)], s');
    after := [WriteSlot(1), SetFlag(1)] + [ClearFlag(0)];
  }

  /**
   Two threads suffice: one pops and stops before it clears the flag, the other
   pushes and pops 65535 times and pushes once more.  Only this last push takes
   a slot that is still to be cleared; every other step meets all hypotheses.
   The ring then holds a published queue that no pop will ever find.
   */
  lemma ReuseWedges() returns (s: State, before: seq<Action>, mid: State, after: seq<Action>, s': State)
    ensures Init(s) && Runs(s, before, mid)
    ensures Possible(mid, TakeTicket(1, 7)) && !SlotCleared(mid, mid.tail)
    ensures Runs(Do(mid, TakeTicket(1, 7)), after, s')
    ensures Wedged(s') && s'.head in s'.published
  {
    s := State(0, 0, seq(MAX_GLOBAL_MQ, i => 0), seq(MAX_GLOBAL_MQ, i => false), [Idle, Idle], [], {}, []);
    before, mid := Cycles(s, MAX_GLOBAL_MQ);
    after, s' := LateClear(mid);
  }
}
