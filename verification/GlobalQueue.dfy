/**
 The lock-free ring of skynet_globalmq_push and skynet_globalmq_pop, one atomic
 access per step, for any number of threads.  Tickets are unbounded; the 32-bit
 words of the C code hold them modulo 2^32.
 */
module GlobalQueue {

  const MAX_GLOBAL_MQ := 0x1_0000
  const WORD := 0x1_0000_0000

  /** GP: the slot of a ticket, computed from its 32-bit word. */
  function Slot(ticket: nat): (i: nat)
    ensures i == ticket % MAX_GLOBAL_MQ < MAX_GLOBAL_MQ
  {
    (ticket % WORD) % MAX_GLOBAL_MQ
  }

  datatype Pc =
    | Idle
    | Writing(k: nat, mq: nat)        // pushing: holds ticket k, about to write its slot
    | Flagging(k: nat, mq: nat)       // pushing: about to set the flag
    | LoadedHead(h: nat)              // popping: read the head
    | NotEmpty(h: nat)                // popping: the tail was elsewhere
    | SawFlag(h: nat)                 // popping: the flag was set
    | LoadedQueue(h: nat, mq: nat)    // popping: read the slot, about to compare and swap
    | Clearing(h: nat)                // popping: won, about to clear the flag

  /** issued[k] is the queue pushed under ticket k; popped lists what the pops returned, in order. */
  datatype State = State(
    head: nat,
    tail: nat,
    slots: seq<nat>,
    flags: seq<bool>,
    threads: seq<Pc>,
    issued: seq<nat>,
    published: set<nat>,
    popped: seq<nat>)

  datatype Action =
    | TakeTicket(t: nat, mq: nat)
    | WriteSlot(t: nat)
    | SetFlag(t: nat)
    | LoadHead(t: nat)
    | CheckTail(t: nat)
    | CheckFlag(t: nat)
    | LoadQueue(t: nat)
    | CompareAndSwap(t: nat)
    | ClearFlag(t: nat)

  predicate Init(s: State) {
    && s.head == s.tail == 0
    && s.slots == seq(MAX_GLOBAL_MQ, i => 0) && s.flags == seq(MAX_GLOBAL_MQ, i => false)
    && (forall t :: 0 <= t < |s.threads| ==> s.threads[t] == Idle)
    && s.issued == [] && s.published == {} && s.popped == []
  }

  /** No thread has yet to clear the flag of the slot that ticket k will use. */
  predicate SlotCleared(s: State, k: nat) {
    forall t :: 0 <= t < |s.threads| && s.threads[t].Clearing? ==> Slot(s.threads[t].h) != Slot(k)
  }

  /**
   When an action can happen.  Two hypotheses on the environment stand here:
   fewer than 65536 tickets outstanding, and no popper overtaken by 2^32 others.
   */
  predicate Possible(s: State, a: Action) {
    && a.t < |s.threads| && |s.slots| == |s.flags| == MAX_GLOBAL_MQ
    && var pc := s.threads[a.t];
    match a
    case TakeTicket(_, _) => pc.Idle? && s.tail + 1 - s.head < MAX_GLOBAL_MQ
    case WriteSlot(_) => pc.Writing?
    case SetFlag(_) => pc.Flagging?
    case LoadHead(_) => pc.Idle?
    case CheckTail(_) => pc.LoadedHead?
    case CheckFlag(_) => pc.NotEmpty?
    case LoadQueue(_) => pc.SawFlag?
    case CompareAndSwap(_) => pc.LoadedQueue? && s.head - pc.h < WORD
    case ClearFlag(_) => pc.Clearing?
  }

  /** A third hypothesis: no slot is reused before its last popper cleared the flag. */
  predicate Enabled(s: State, a: Action) {
    Possible(s, a) && (a.TakeTicket? ==> SlotCleared(s, s.tail))
  }

  function Do(s: State, a: Action): State
    requires Possible(s, a)
  {
    var t, pc := a.t, s.threads[a.t];
    match a
    case TakeTicket(_, mq) =>
      s.(tail := s.tail + 1, issued := s.issued + [mq], threads := s.threads[t := Writing(s.tail, mq)])
    case WriteSlot(_) =>
      s.(slots := s.slots[Slot(pc.k) := pc.mq], threads := s.threads[t := Flagging(pc.k, pc.mq)])
    case SetFlag(_) =>
      s.(flags := s.flags[Slot(pc.k) := true], published := s.published + {pc.k}, threads := s.threads[t := Idle])
    case LoadHead(_) => s.(threads := s.threads[t := LoadedHead(s.head)])
    case CheckTail(_) =>
      s.(threads := s.threads[t := if Slot(pc.h) == Slot(s.tail) then Idle else NotEmpty(pc.h)])
    case CheckFlag(_) => s.(threads := s.threads[t := if s.flags[Slot(pc.h)] then SawFlag(pc.h) else Idle])
    case LoadQueue(_) => s.(threads := s.threads[t := LoadedQueue(pc.h, s.slots[Slot(pc.h)])])
    case CompareAndSwap(_) =>
      if s.head % WORD == pc.h % WORD then
        s.(head := s.head + 1, popped := s.popped + [pc.mq], threads := s.threads[t := Clearing(pc.h)])
      else s.(threads := s.threads[t := Idle])
    case ClearFlag(_) => s.(flags := s.flags[Slot(pc.h) := false], threads := s.threads[t := Idle])
  }

  // ----- The invariant -----

  predicate Outstanding(s: State, k: nat) {
    s.head <= k < s.tail
  }

  predicate ShapeOk(s: State) {
    && |s.slots| == |s.flags| == MAX_GLOBAL_MQ
    && s.head <= s.tail && s.tail - s.head < MAX_GLOBAL_MQ
    && |s.issued| == s.tail
    && s.popped == s.issued[..s.head]
    && (forall k :: 0 <= k < s.head ==> k in s.published)
    && (forall k :: k in s.published ==> k < s.tail)
  }

  /** An outstanding ticket's flag says whether it is published, and its slot then holds its queue. */
  predicate TicketOk(s: State, k: nat)
    requires ShapeOk(s) && Outstanding(s, k)
  {
    && s.flags[Slot(k)] == (k in s.published)
    && (k in s.published ==> s.slots[Slot(k)] == s.issued[k])
  }

  ghost predicate TicketsOk(s: State)
    requires ShapeOk(s)
  {
    forall k :: Outstanding(s, k) ==> TicketOk(s, k)
  }

  /** A set flag belongs to an outstanding ticket or to a popper about to clear it. */
  ghost predicate FlagOwned(s: State, i: nat) {
    || (exists k :: Outstanding(s, k) && Slot(k) == i)
    || (exists t :: 0 <= t < |s.threads| && s.threads[t].Clearing? && Slot(s.threads[t].h) == i)
  }

  ghost predicate FlagsOwned(s: State)
    requires ShapeOk(s)
  {
    forall i :: 0 <= i < MAX_GLOBAL_MQ && s.flags[i] ==> FlagOwned(s, i)
  }

  predicate PcOk(s: State, pc: Pc)
    requires ShapeOk(s)
  {
    match pc
    case Idle => true
    case Writing(k, mq) => Outstanding(s, k) && k !in s.published && s.issued[k] == mq
    case Flagging(k, mq) =>
      Outstanding(s, k) && k !in s.published && s.issued[k] == mq && s.slots[Slot(k)] == mq
    case LoadedHead(h) => h <= s.head
    case NotEmpty(h) => h <= s.head && (h == s.head ==> s.head < s.tail)
    case SawFlag(h) => h <= s.head && (h == s.head ==> s.head < s.tail && h in s.published)
    case LoadedQueue(h, mq) =>
      h <= s.head && (h == s.head ==> s.head < s.tail && h in s.published && s.issued[h] == mq)
    case Clearing(h) => h < s.head && s.tail <= h + MAX_GLOBAL_MQ
  }

  ghost predicate ThreadsOk(s: State)
    requires ShapeOk(s)
  {
    forall t :: 0 <= t < |s.threads| ==> PcOk(s, s.threads[t])
  }

  /** Each unpublished ticket is in one thread's hands. */
  predicate Holds(pc: Pc, k: nat) {
    (pc.Writing? || pc.Flagging?) && pc.k == k
  }

  ghost predicate TicketsDiffer(s: State) {
    forall t, u :: 0 <= t < u < |s.threads| && (s.threads[t].Writing? || s.threads[t].Flagging?) ==>
      !Holds(s.threads[u], s.threads[t].k)
  }

  ghost predicate Inv(s: State) {
    ShapeOk(s) && TicketsOk(s) && FlagsOwned(s) && ThreadsOk(s) && TicketsDiffer(s)
  }

  // ----- Slots -----

  /** Tickets less than 65536 apart have different slots. */
  lemma SlotsDiffer(k: nat, l: nat)
    requires k < l < k + MAX_GLOBAL_MQ
    ensures Slot(k) != Slot(l)
  {
    hide Slot;
    assert l - k == (l / MAX_GLOBAL_MQ - k / MAX_GLOBAL_MQ) * MAX_GLOBAL_MQ + (Slot(l) - Slot(k));
  }

  /** Tickets 65536 apart have the same slot. */
  lemma SlotsRepeat(k: nat)
    ensures Slot(k + MAX_GLOBAL_MQ) == Slot(k)
  {
    hide Slot;
  }

  /** The emptiness test compares slots: it errs exactly when a nonzero multiple of 65536 tickets is outstanding. */
  lemma EmptyTestExact(head: nat, tail: nat)
    requires head <= tail
    ensures (Slot(head) == Slot(tail)) == (head == tail)
            <==> !(tail > head && (tail - head) % MAX_GLOBAL_MQ == 0)
  {
  }

  lemma NextSlotClear(s: State)
    requires Inv(s) && SlotCleared(s, s.tail) && s.tail + 1 - s.head < MAX_GLOBAL_MQ
    ensures !s.flags[Slot(s.tail)]
  {
    var i := Slot(s.tail);
    if s.flags[i] {
      assert FlagOwned(s, i);
      forall k | Outstanding(s, k)
        ensures Slot(k) != i
      {
        SlotsDiffer(k, s.tail);
      }
    }
  }

  // ----- Steps keep the invariant -----

  lemma TakeTicketKeepsTickets(s: State, a: Action)
    requires Inv(s) && Enabled(s, a) && a.TakeTicket?
    ensures ShapeOk(Do(s, a)) && TicketsOk(Do(s, a))
  {
    var s' := Do(s, a);
    NextSlotClear(s);
    assert s'.popped == s'.issued[..s'.head];
    forall k | Outstanding(s', k)
      ensures TicketOk(s', k)
    {
      assert k != s.tail ==> Outstanding(s, k) && TicketOk(s, k);
    }
  }

  /** A new ticket leaves a thread's claim alone, unless the thread is to clear the new ticket's slot. */
  lemma TicketKeepsPc(s: State, s': State, mq: nat, pc: Pc)
    requires ShapeOk(s) && ShapeOk(s') && PcOk(s, pc)
    requires s'.tail == s.tail + 1 && s'.head == s.head && s'.issued == s.issued + [mq]
    requires s'.slots == s.slots && s'.published == s.published
    requires pc.Clearing? ==> Slot(pc.h) != Slot(s.tail)
    ensures PcOk(s', pc) && !Holds(pc, s.tail)
  {
    hide Slot;
    if pc.Clearing? {
      SlotsRepeat(pc.h);
    }
  }

  lemma TakeTicketKeepsThreads(s: State, a: Action)
    requires Inv(s) && Enabled(s, a) && a.TakeTicket? && ShapeOk(Do(s, a))
    ensures ThreadsOk(Do(s, a)) && TicketsDiffer(Do(s, a))
  {
    var s' := Do(s, a);
    forall t | 0 <= t < |s.threads|
      ensures PcOk(s', s.threads[t]) && !Holds(s.threads[t], s.tail)
    {
      assert PcOk(s, s.threads[t]);
      TicketKeepsPc(s, s', a.mq, s.threads[t]);
    }
    assert PcOk(s', Writing(s.tail, a.mq));
    hide PcOk;
  }

  lemma TakeTicketKeepsInv(s: State, a: Action)
    requires Inv(s) && Enabled(s, a) && a.TakeTicket?
    ensures Inv(Do(s, a))
  {
    TakeTicketKeepsTickets(s, a);
    TakeTicketKeepsThreads(s, a);
    FlagsStayOwned(s, Do(s, a));
  }

  /** Flags that were owned stay owned if tickets and clearing threads only come. */
  lemma FlagsStayOwned(s: State, s': State)
    requires ShapeOk(s) && ShapeOk(s') && FlagsOwned(s) && s'.flags == s.flags
    requires s'.head == s.head && s'.tail >= s.tail && |s'.threads| == |s.threads|
    requires forall t :: 0 <= t < |s.threads| && s.threads[t].Clearing? ==> s'.threads[t] == s.threads[t]
    ensures FlagsOwned(s')
  {
    forall i | 0 <= i < MAX_GLOBAL_MQ && s'.flags[i]
      ensures FlagOwned(s', i)
    {
      assert FlagOwned(s, i);
      if k :| Outstanding(s, k) && Slot(k) == i {
        assert Outstanding(s', k);
      } else {
        var t :| 0 <= t < |s.threads| && s.threads[t].Clearing? && Slot(s.threads[t].h) == i;
        assert s'.threads[t].Clearing?;
      }
    }
  }

  /** Distinct outstanding tickets have distinct slots. */
  lemma OutstandingSlots(s: State, k: nat, l: nat)
    requires ShapeOk(s) && Outstanding(s, k) && Outstanding(s, l) && k != l
    ensures Slot(k) != Slot(l)
  {
    if k < l {
      SlotsDiffer(k, l);
    } else {
      SlotsDiffer(l, k);
    }
  }

  lemma WriteSlotKeepsInv(s: State, a: Action)
    requires Inv(s) && Enabled(s, a) && a.WriteSlot?
    ensures Inv(Do(s, a))
  {
    var s', mine := Do(s, a), s.threads[a.t].k;
    assert PcOk(s, s.threads[a.t]);
    forall k | Outstanding(s', k)
      ensures TicketOk(s', k)
    {
      assert TicketOk(s, k);
      if k != mine {
        OutstandingSlots(s, k, mine);
      }
    }
    forall t | 0 <= t < |s'.threads|
      ensures PcOk(s', s'.threads[t])
    {
      assert PcOk(s, s.threads[t]);
      if t != a.t && s.threads[t].Flagging? {
        assert !Holds(s.threads[t], mine) by {
          assert t < a.t ==> !Holds(s.threads[a.t], s.threads[t].k);
        }
        OutstandingSlots(s, s.threads[t].k, mine);
      }
    }
    FlagsStayOwned(s, s');
  }

  lemma SetFlagKeepsInv(s: State, a: Action)
    requires Inv(s) && Enabled(s, a) && a.SetFlag?
    ensures Inv(Do(s, a))
  {
    var s', mine := Do(s, a), s.threads[a.t].k;
    assert PcOk(s, s.threads[a.t]);
    forall k | Outstanding(s', k)
      ensures TicketOk(s', k)
    {
      assert TicketOk(s, k);
      if k != mine {
        OutstandingSlots(s, k, mine);
      }
    }
    forall i | 0 <= i < MAX_GLOBAL_MQ && s'.flags[i]
      ensures FlagOwned(s', i)
    {
      if i == Slot(mine) {
        assert Outstanding(s', mine);
      } else {
        assert FlagOwned(s, i);
        if k :| Outstanding(s, k) && Slot(k) == i {
          assert Outstanding(s', k);
        } else {
          var t :| 0 <= t < |s.threads| && s.threads[t].Clearing? && Slot(s.threads[t].h) == i;
          assert s'.threads[t].Clearing?;
        }
      }
    }
    forall t | 0 <= t < |s'.threads|
      ensures PcOk(s', s'.threads[t])
    {
      assert PcOk(s, s.threads[t]);
      if t != a.t && (s.threads[t].Writing? || s.threads[t].Flagging?) {
        assert !Holds(s.threads[t], mine) by {
          assert t < a.t ==> !Holds(s.threads[a.t], s.threads[t].k);
        }
      }
    }
  }

  /** The steps of a pop that only read. */
  lemma ReadKeepsInv(s: State, a: Action)
    requires Inv(s) && Enabled(s, a) && (a.LoadHead? || a.CheckTail? || a.CheckFlag? || a.LoadQueue?)
    ensures Inv(Do(s, a))
  {
    var s' := Do(s, a);
    assert PcOk(s, s.threads[a.t]);
    if s.head < s.tail {
      assert Outstanding(s, s.head) && TicketOk(s, s.head);
    }
    assert PcOk(s, s'.threads[a.t]);
    forall t | 0 <= t < |s'.threads|
      ensures PcOk(s', s'.threads[t])
    {
      assert t != a.t ==> PcOk(s, s.threads[t]);
    }
    forall k | Outstanding(s', k)
      ensures TicketOk(s', k)
    {
      assert Outstanding(s, k) && TicketOk(s, k);
    }
    FlagsStayOwned(s, s');
  }

  /** Within 2^32 pops, the compared words are equal exactly when the tickets are. */
  lemma WordsDecide(head: nat, h: nat)
    requires h <= head < h + WORD
    ensures head % WORD == h % WORD <==> head == h
  {
  }

  lemma CompareAndSwapKeepsInv(s: State, a: Action)
    requires Inv(s) && Enabled(s, a) && a.CompareAndSwap?
    ensures Inv(Do(s, a))
  {
    var s', h := Do(s, a), s.threads[a.t].h;
    assert PcOk(s, s.threads[a.t]);
    WordsDecide(s.head, h);
    assert ShapeOk(s') by {
      assert h == s.head ==> s.issued[..s.head + 1] == s.issued[..s.head] + [s.issued[s.head]];
    }
    forall k | Outstanding(s', k)
      ensures TicketOk(s', k)
    {
      assert Outstanding(s, k) && TicketOk(s, k);
    }
    forall i | 0 <= i < MAX_GLOBAL_MQ && s'.flags[i]
      ensures FlagOwned(s', i)
    {
      assert FlagOwned(s, i);
      if k :| Outstanding(s, k) && Slot(k) == i {
        if k == s.head && h == s.head {
          assert s'.threads[a.t].Clearing? && Slot(s'.threads[a.t].h) == i;
        } else {
          assert Outstanding(s', k);
        }
      } else {
        var t :| 0 <= t < |s.threads| && s.threads[t].Clearing? && Slot(s.threads[t].h) == i;
        assert s'.threads[t].Clearing?;
      }
    }
    forall t | 0 <= t < |s'.threads|
      ensures PcOk(s', s'.threads[t])
    {
      assert PcOk(s, s.threads[t]);
    }
  }

  lemma ClearFlagKeepsInv(s: State, a: Action)
    requires Inv(s) && Enabled(s, a) && a.ClearFlag?
    ensures Inv(Do(s, a))
  {
    var s', h := Do(s, a), s.threads[a.t].h;
    assert PcOk(s, s.threads[a.t]);
    forall k | Outstanding(s', k)
      ensures TicketOk(s', k)
    {
      assert Outstanding(s, k) && TicketOk(s, k);
      SlotsDiffer(h, k);
    }
    forall i | 0 <= i < MAX_GLOBAL_MQ && s'.flags[i]
      ensures FlagOwned(s', i)
    {
      assert FlagOwned(s, i);
      if k :| Outstanding(s, k) && Slot(k) == i {
        assert Outstanding(s', k);
      } else {
        var t :| 0 <= t < |s.threads| && s.threads[t].Clearing? && Slot(s.threads[t].h) == i;
        assert s'.threads[t].Clearing?;
      }
    }
    forall t | 0 <= t < |s'.threads|
      ensures PcOk(s', s'.threads[t])
    {
      assert PcOk(s, s.threads[t]);
    }
  }

  lemma StepKeepsInv(s: State, a: Action)
    requires Inv(s) && Enabled(s, a)
    ensures Inv(Do(s, a))
  {
    match a {
      case TakeTicket(_, _) => TakeTicketKeepsInv(s, a);
      case WriteSlot(_) => WriteSlotKeepsInv(s, a);
      case SetFlag(_) => SetFlagKeepsInv(s, a);
      case CompareAndSwap(_) => CompareAndSwapKeepsInv(s, a);
      case ClearFlag(_) => ClearFlagKeepsInv(s, a);
      case _ => ReadKeepsInv(s, a);
    }
  }

  // ----- Runs -----

  ghost predicate StepAt(states: seq<State>, actions: seq<Action>, i: nat)
    requires i < |actions| < |states|
  {
    Enabled(states[i], actions[i]) && states[i + 1] == Do(states[i], actions[i])
  }

  ghost predicate IsRun(states: seq<State>, actions: seq<Action>) {
    && |states| == |actions| + 1
    && Init(states[0])
    && forall i {:trigger StepAt(states, actions, i)} :: 0 <= i < |actions| ==> StepAt(states, actions, i)
  }

  lemma {:induction false} RunKeepsInv(states: seq<State>, actions: seq<Action>, i: nat)
    requires IsRun(states, actions) && i < |states|
    ensures Inv(states[i])
  {
    if i > 0 {
      RunKeepsInv(states, actions, i - 1);
      assert StepAt(states, actions, i - 1);
      StepKeepsInv(states[i - 1], actions[i - 1]);
    }
  }

  /** The k-th successful pop returned the queue pushed under ticket k, after its publication. */
  lemma PopsInTicketOrder(states: seq<State>, actions: seq<Action>, i: nat)
    requires IsRun(states, actions) && i < |states|
    ensures var s := states[i];
            && |s.popped| == s.head <= s.tail == |s.issued|
            && forall k :: 0 <= k < |s.popped| ==> s.popped[k] == s.issued[k] && k in s.published
  {
    RunKeepsInv(states, actions, i);
  }

  /** The queue the ring implements: what was pushed and not yet popped, oldest first. */
  function Waiting(s: State): seq<nat> {
    if s.head <= |s.issued| then s.issued[s.head..] else []
  }

  /** Each step of a run appends the pushed queue, removes the oldest one, or leaves the queue as it is. */
  lemma RefinesQueue(states: seq<State>, actions: seq<Action>, i: nat)
    requires IsRun(states, actions) && i < |actions|
    ensures var s, s', a := states[i], states[i + 1], actions[i];
            if a.TakeTicket? then Waiting(s') == Waiting(s) + [a.mq] && s'.popped == s.popped
            else if s'.popped == s.popped then Waiting(s') == Waiting(s)
            else a.CompareAndSwap? && Waiting(s) != []
                 && Waiting(s') == Waiting(s)[1..] && s'.popped == s.popped + [Waiting(s)[0]]
  {
    RunKeepsInv(states, actions, i);
    RunKeepsInv(states, actions, i + 1);
    assert StepAt(states, actions, i);
    var s, a := states[i], actions[i];
    if a.CompareAndSwap? {
      assert PcOk(s, s.threads[a.t]);
      WordsDecide(s.head, s.threads[a.t].h);
    }
  }
}
