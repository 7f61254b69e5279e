/**
 The message queue of one service (skynet_mq.c): a value-level specification of
 every operation that a LOCK..UNLOCK section performs, and the growable ring
 buffer that implements it.
 */
module MessageQueues {
  import opened Bits

  const DEFAULT_QUEUE_SIZE := 64

  // Values of the in_global flag; 0 means idle: neither queued nor held by a worker.
  const IDLE := 0
  const IN_GLOBAL := 1
  const DISPATCHING := 2
  const LOCKED := 3

  datatype Message = Message(source: nat, session: int, data: nat, sz: nat)

  datatype Queue = Queue(inGlobal: int, lockSession: int, release: bool, msgs: seq<Message>)

  /** A new queue value, and whether the section also put the queue on the global queue. */
  datatype Outcome = Outcome(queue: Queue, wake: bool)

  const NEW_QUEUE := Queue(IN_GLOBAL, 0, false, [])

  function Unlocked(q: Queue): Outcome {
    if q.inGlobal == LOCKED
    then Outcome(q.(inGlobal := IN_GLOBAL, lockSession := 0), true)
    else Outcome(q.(lockSession := 0), false)
  }

  /** True of the message that ends the session lock of q. */
  predicate EndsLock(q: Queue, m: Message) {
    q.lockSession != 0 && m.session == q.lockSession
  }

  function Pushed(q: Queue, m: Message): Outcome {
    if EndsLock(q, m) then Unlocked(q.(msgs := [m] + q.msgs))
    else if q.lockSession == 0 && q.inGlobal == IDLE
    then Outcome(q.(msgs := q.msgs + [m], inGlobal := IN_GLOBAL), true)
    else Outcome(q.(msgs := q.msgs + [m]), false)
  }

  function Popped(q: Queue): Queue {
    if q.msgs == [] then q.(inGlobal := IDLE) else q.(msgs := q.msgs[1..])
  }

  function SessionLocked(q: Queue, session: int): Queue {
    q.(inGlobal := DISPATCHING, lockSession := session)
  }

  function PushedGlobal(q: Queue): Outcome {
    if q.lockSession == 0 then Outcome(q.(inGlobal := IN_GLOBAL), true)
    else Outcome(if q.inGlobal == DISPATCHING then q.(inGlobal := LOCKED) else q, false)
  }

  function MarkedRelease(q: Queue): Outcome {
    Outcome(q.(release := true), q.inGlobal != IN_GLOBAL)
  }

  // ----- The ring as a sequence -----

  /** The messages stored in ring a between head and tail, oldest first. */
  function RingContents(a: seq<Message>, head: nat, tail: nat): (r: seq<Message>)
    requires head < |a| && tail < |a|
    ensures |r| == (if head <= tail then tail - head else tail + |a| - head) < |a|
  {
    if head <= tail then a[head..tail] else a[head..] + a[..tail]
  }

  function Next(i: nat, cap: nat): nat {
    if i + 1 >= cap then 0 else i + 1
  }

  function Previous(i: nat, cap: nat): nat
    requires i < cap
  {
    if i == 0 then cap - 1 else i - 1
  }

  /** The ring read once around from head: what the copy loop of expand_queue stores. */
  function Unrolled(a: seq<Message>, head: nat): seq<Message>
    requires head < |a|
  {
    a[head..] + a[..head]
  }

  lemma WrapIndex(x: nat, cap: nat)
    requires 0 < cap && x < 2 * cap
    ensures x % cap == if x < cap then x else x - cap
  {
    DivModUnique(x, cap, if x < cap then 0 else 1, if x < cap then x else x - cap);
  }

  /** A stored message and an advanced tail append, unless the tail has caught up with the head. */
  lemma RingAppend(a: seq<Message>, head: nat, tail: nat, m: Message)
    requires head < |a| && tail < |a|
    ensures Next(tail, |a|) != head ==>
              RingContents(a[tail := m], head, Next(tail, |a|)) == RingContents(a, head, tail) + [m]
    ensures Next(tail, |a|) == head ==>
              Unrolled(a[tail := m], head) == RingContents(a, head, tail) + [m]
  {
    var b := a[tail := m];
    if head <= tail {
      assert b[head..tail + 1] == a[head..tail] + [m];
    } else {
      assert b[..tail + 1] == a[..tail] + [m];
      assert b[head..] == a[head..];
    }
  }

  lemma RingTake(a: seq<Message>, head: nat, tail: nat)
    requires head < |a| && tail < |a| && head != tail
    ensures RingContents(a, head, tail) == [a[head]] + RingContents(a, Next(head, |a|), tail)
  {
  }

  lemma RingPrepend(a: seq<Message>, head: nat, tail: nat, m: Message)
    requires head < |a| && tail < |a|
    requires Previous(head, |a|) != tail
    ensures RingContents(a[Previous(head, |a|) := m], Previous(head, |a|), tail) == [m] + RingContents(a, head, tail)
  {
  }

  /** With one slot left, the copy loop reads that slot last, so the unrolled ring minus it is the contents. */
  lemma RingGrown(a: seq<Message>, head: nat, tail: nat, b: seq<Message>)
    requires head < |a| && tail < |a| && |a| <= |b|
    requires Previous(head, |a|) == tail
    requires b[..|a|] == Unrolled(a, head)
    ensures RingContents(b, 0, |a| - 1) == RingContents(a, head, tail)
  {
    assert b[0..|a| - 1] == b[..|a|][..|a| - 1];
  }

  // ----- The ring buffer -----

  class MessageQueue {
    const handle: nat
    var cap: nat
    var head: nat
    var tail: nat
    var inGlobal: int
    var lockSession: int
    var release: bool
    var queue: array<Message>

    ghost predicate Valid()
      reads this
    {
      cap == queue.Length && 2 <= cap && head < cap && tail < cap
    }

    ghost function Value(): Queue
      requires Valid()
      reads this, queue
    {
      Queue(inGlobal, lockSession, release, RingContents(queue[..], head, tail))
    }

    constructor (handle: nat)
      ensures Valid() && fresh(queue)
      ensures this.handle == handle && Value() == NEW_QUEUE
    {
      this.handle := handle;
      cap := DEFAULT_QUEUE_SIZE;
      head, tail := 0, 0;
      inGlobal, release, lockSession := IN_GLOBAL, false, 0;
      queue := new Message[DEFAULT_QUEUE_SIZE];
    }

    method Length() returns (n: nat)
      requires Valid()
      ensures n == |Value().msgs| && n < cap
    {
      if head <= tail {
        return tail - head;
      }
      return tail + cap - head;
    }

    method Pop() returns (taken: bool, m: Message)
      requires Valid()
      modifies this
      ensures Valid() && queue == old(queue) && cap == old(cap)
      ensures taken == (old(Value()).msgs != [])
      ensures taken ==> m == old(Value()).msgs[0]
      ensures Value() == Popped(old(Value()))
    {
      taken, m := false, Message(0, 0, 0, 0);
      if head != tail {
        RingTake(queue[..], head, tail);
        m, taken := queue[head], true;
        head := head + 1;
        if head >= cap {
          head := 0;
        }
      }
      if !taken {
        inGlobal := IDLE;
      }
    }

    method Expand()
      requires Valid()
      modifies this
      ensures Valid() && fresh(queue)
      ensures cap == 2 * old(cap) && head == 0 && tail == old(cap)
      ensures queue[..old(cap)] == Unrolled(old(queue[..]), old(head))
      ensures inGlobal == old(inGlobal) && lockSession == old(lockSession) && release == old(release)
    {
      var newQueue := new Message[cap * 2];
      for i := 0 to cap
        modifies newQueue
        invariant forall k :: 0 <= k < i ==> newQueue[k] == Unrolled(queue[..], head)[k]
      {
        WrapIndex(head + i, cap);
        newQueue[i] := queue[(head + i) % cap];
      }
      assert newQueue[..cap] == Unrolled(queue[..], head);
      head, tail := 0, cap;
      cap := cap * 2;
      queue := newQueue;
    }

    method Unlock() returns (wake: bool)
      requires Valid()
      requires inGlobal == LOCKED || inGlobal == DISPATCHING
      modifies this`inGlobal, this`lockSession
      ensures Valid()
      ensures Outcome(Value(), wake) == Unlocked(old(Value()))
    {
      wake := inGlobal == LOCKED;
      if wake {
        inGlobal := IN_GLOBAL;
      }
      lockSession := 0;
    }

    /** First half of _pushhead: the slot before the head, made free by growing if it is the tail's. */
    method SlotBeforeHead() returns (newHead: nat)
      requires Valid()
      modifies this
      ensures Valid() && (queue == old(queue) || fresh(queue))
      ensures Value() == old(Value())
      ensures newHead == Previous(head, cap) && newHead != tail
    {
      ghost var was := queue[..];
      var slot: int := head - 1;
      if slot < 0 {
        slot := cap - 1;
      }
      if slot == tail {
        Expand();
        RingGrown(was, old(head), old(tail), queue[..]);
        tail := tail - 1;
        slot := cap - 1;
      }
      newHead := slot;
    }

    method PushHead(m: Message) returns (wake: bool)
      requires Valid()
      requires inGlobal == LOCKED || inGlobal == DISPATCHING
      modifies this, queue
      ensures Valid() && (queue == old(queue) || fresh(queue))
      ensures Outcome(Value(), wake) == Unlocked(old(Value()).(msgs := [m] + old(Value()).msgs))
    {
      var newHead := SlotBeforeHead();
      RingPrepend(queue[..], head, tail, m);
      queue[newHead] := m;
      head := newHead;
      wake := Unlock();
    }

    method Push(m: Message) returns (wake: bool)
      requires Valid()
      requires EndsLock(Value(), m) ==> inGlobal == LOCKED || inGlobal == DISPATCHING
      modifies this, queue
      ensures Valid() && (queue == old(queue) || fresh(queue))
      ensures Outcome(Value(), wake) == Pushed(old(Value()), m)
    {
      wake := false;
      if lockSession != 0 && m.session == lockSession {
        wake := PushHead(m);
      } else {
        RingAppend(queue[..], head, tail, m);
        queue[tail] := m;
        tail := tail + 1;
        if tail >= cap {
          tail := 0;
        }
        if head == tail {
          Expand();
          assert queue[0..tail] == queue[..tail];
        }
        if lockSession == 0 {
          if inGlobal == IDLE {
            inGlobal := IN_GLOBAL;
            wake := true;
          }
        }
      }
    }

    method Lock(session: int)
      requires Valid()
      requires lockSession == 0 && inGlobal == IN_GLOBAL
      modifies this`inGlobal, this`lockSession
      ensures Valid() && Value() == SessionLocked(old(Value()), session)
    {
      inGlobal := DISPATCHING;
      lockSession := session;
    }

    method PushGlobal() returns (wake: bool)
      requires Valid()
      requires inGlobal != IDLE
      modifies this`inGlobal
      ensures Valid() && Outcome(Value(), wake) == PushedGlobal(old(Value()))
    {
      wake := false;
      if inGlobal == DISPATCHING {
        inGlobal := LOCKED;
      }
      if lockSession == 0 {
        wake := true;
        inGlobal := IN_GLOBAL;
      }
    }

    method MarkRelease() returns (wake: bool)
      requires Valid()
      requires !release
      modifies this`release
      ensures Valid() && Outcome(Value(), wake) == MarkedRelease(old(Value()))
    {
      release := true;
      wake := inGlobal != IN_GLOBAL;
    }

    /** _drop_queue: frees every remaining message; the count is what the caller reports. */
    method Drop() returns (dropped: nat)
      requires Valid()
      modifies this
      ensures Valid() && dropped == |old(Value()).msgs|
      ensures Value() == old(Value()).(msgs := [], inGlobal := IDLE)
    {
      dropped := 0;
      var more, m := Pop();
      while more
        invariant Valid() && queue == old(queue)
        invariant lockSession == old(lockSession) && release == old(release)
        invariant more ==> inGlobal == old(inGlobal)
        invariant !more ==> Value().msgs == [] && inGlobal == IDLE
        invariant dropped + (if more then 1 else 0) + |Value().msgs| == |old(Value()).msgs|
        decreases |Value().msgs|, more
      {
        dropped := dropped + 1;
        more, m := Pop();
      }
    }
  }
}
