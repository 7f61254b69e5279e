/**
 The reader/writer spinlock of rwlock.h for any number of threads, one access to
 the shared words per step.
 */
module RwLock {
  import opened Sequences

  datatype Pc =
    | Idle
    | Spinning        // rlock: about to read `write`
    | Entering        // rlock: read 0, about to increment `read`
    | Checking        // rlock: incremented, about to read `write` again
    | BackingOff      // rlock: a writer was there, about to decrement `read`
    | Reading         // in the reader section
    | Acquiring       // wlock: about to test-and-set `write`
    | Draining        // wlock: owns `write`, about to read `read`
    | WritingSection  // in the writer section

  datatype State = State(write: int, read: int, threads: seq<Pc>)

  /** What a thread at Idle, Reading or WritingSection does next; the others have one next step. */
  datatype Action = ReadLock(t: nat) | WriteLock(t: nat) | Step(t: nat) | Unlock(t: nat)

  predicate Init(s: State) {
    s.write == 0 && s.read == 0 && forall t :: 0 <= t < |s.threads| ==> s.threads[t] == Idle
  }

  predicate Enabled(s: State, a: Action) {
    && a.t < |s.threads|
    && var pc := s.threads[a.t];
    match a
    case ReadLock(_) => pc.Idle?
    case WriteLock(_) => pc.Idle?
    case Step(_) => !pc.Idle? && !pc.Reading? && !pc.WritingSection?
    case Unlock(_) => pc.Reading? || pc.WritingSection?
  }

  function Do(s: State, a: Action): State
    requires Enabled(s, a)
  {
    var t, pc := a.t, s.threads[a.t];
    match a
    case ReadLock(_) => s.(threads := s.threads[t := Spinning])
    case WriteLock(_) => s.(threads := s.threads[t := Acquiring])
    case Unlock(_) =>
      if pc.Reading? then s.(read := s.read - 1, threads := s.threads[t := Idle])
      else s.(write := 0, threads := s.threads[t := Idle])
    case Step(_) =>
      match pc
      case Spinning => s.(threads := s.threads[t := if s.write != 0 then Spinning else Entering])
      case Entering => s.(read := s.read + 1, threads := s.threads[t := Checking])
      case Checking => s.(threads := s.threads[t := if s.write != 0 then BackingOff else Reading])
      case BackingOff => s.(read := s.read - 1, threads := s.threads[t := Spinning])
      case Acquiring => State(1, s.read, s.threads[t := if s.write != 0 then Acquiring else Draining])
      case Draining => s.(threads := s.threads[t := if s.read != 0 then Draining else WritingSection])
      case _ => s
  }

  // ----- The invariant -----

  /** Has incremented `read` and not yet decremented it. */
  predicate CountsAsReader(pc: Pc) { pc.Checking? || pc.BackingOff? || pc.Reading? }

  predicate OwnsWrite(pc: Pc) { pc.Draining? || pc.WritingSection? }

  function ReaderCount(): Pc -> bool { pc => CountsAsReader(pc) }

  function OwnerCount(): Pc -> bool { pc => OwnsWrite(pc) }

  ghost predicate Inv(s: State) {
    && s.read == Count(s.threads, ReaderCount())
    && s.write == Count(s.threads, OwnerCount())
    && s.write <= 1
    && forall t, u :: 0 <= t < |s.threads| && 0 <= u < |s.threads| ==>
         !(s.threads[t].WritingSection? && s.threads[u].Reading?)
  }

  lemma StepKeepsInv(s: State, a: Action)
    requires Inv(s) && Enabled(s, a)
    ensures Inv(Do(s, a))
  {
    var s', t := Do(s, a), a.t;
    CountUpdate(s.threads, t, s'.threads[t], ReaderCount());
    CountUpdate(s.threads, t, s'.threads[t], OwnerCount());
    if OwnsWrite(s.threads[t]) {
      CountMember(s.threads, t, OwnerCount());
    }
    forall u, v | 0 <= u < |s'.threads| && 0 <= v < |s'.threads| && s'.threads[u].WritingSection?
      ensures !s'.threads[v].Reading?
    {
      if s.threads[u].WritingSection? {
        CountMember(s.threads, u, OwnerCount());
      }
      if s.threads[v].Reading? {
        CountMember(s.threads, v, ReaderCount());
      }
    }
  }

  // ----- Runs -----

  ghost predicate StepAt(states: seq<State>, actions: seq<Action>, i: nat)
    requires i < |actions| < |states|
  {
    Enabled(states[i], actions[i]) && states[i + 1] == Do(states[i], actions[i])
  }

  ghost predicate IsRun(states: seq<State>, actions: seq<Action>) {
    && |states| == |actions| + 1
    && Init(states[0])
    && forall i {:trigger StepAt(states, actions, i)} :: 0 <= i < |actions| ==> StepAt(states, actions, i)
  }

  lemma {:induction false} RunKeepsInv(states: seq<State>, actions: seq<Action>, i: nat)
    requires IsRun(states, actions) && i < |states|
    ensures Inv(states[i])
  {
    if i == 0 {
      CountNone(states[0].threads, ReaderCount());
      CountNone(states[0].threads, OwnerCount());
    } else {
      RunKeepsInv(states, actions, i - 1);
      assert StepAt(states, actions, i - 1);
      StepKeepsInv(states[i - 1], actions[i - 1]);
    }
  }

  /** On every run no writer is in its section together with a reader or another writer. */
  lemma Exclusion(states: seq<State>, actions: seq<Action>, i: nat, t: nat, u: nat)
    requires IsRun(states, actions) && i < |states|
    requires t < |states[i].threads| && u < |states[i].threads| && t != u
    requires states[i].threads[t].WritingSection?
    ensures !states[i].threads[u].Reading? && !states[i].threads[u].WritingSection?
  {
    RunKeepsInv(states, actions, i);
    if states[i].threads[u].WritingSection? {
      CountPair(states[i].threads, if t < u then t else u, if t < u then u else t, OwnerCount());
    }
  }

  /** On every run `read` counts the readers between increment and decrement, those about to back off included. */
  lemma ReadCounts(states: seq<State>, actions: seq<Action>, i: nat)
    requires IsRun(states, actions) && i < |states|
    ensures states[i].read == Count(states[i].threads, ReaderCount())
  {
    RunKeepsInv(states, actions, i);
  }

  // ----- No deadlock -----

  predicate InSection(pc: Pc) { pc.Reading? || pc.WritingSection? }

  predicate Requesting(pc: Pc) { !pc.Idle? && !InSection(pc) }

  /** The state after some threads take the steps they are due, in the given order. */
  function Schedule(s: State, order: seq<nat>): State
    decreases |order|
  {
    if order == [] || !Enabled(s, Step(order[0])) then s else Schedule(Do(s, Step(order[0])), order[1..])
  }

  ghost predicate SomeoneInside(s: State) {
    exists t :: 0 <= t < |s.threads| && InSection(s.threads[t])
  }

  lemma Prepend(s: State, t: nat, order: seq<nat>)
    requires Enabled(s, Step(t))
    ensures Schedule(s, [t] + order) == Schedule(Do(s, Step(t)), order)
  {
    assert ([t] + order)[1..] == order;
  }

  lemma Single(s: State, t: nat)
    requires Enabled(s, Step(t))
    ensures Schedule(s, [t]) == Do(s, Step(t))
  {
    assert [t][1..] == [];
    assert Schedule(Do(s, Step(t)), []) == Do(s, Step(t));
  }

  function AtCheck(): Pc -> bool { pc => pc == Checking }

  /** A writer waiting for readers to leave gets in: each of them, seeing it, backs off. */
  lemma {:induction false} WriterGetsIn(s: State, w: nat) returns (order: seq<nat>)
    requires Inv(s) && w < |s.threads| && s.threads[w].Draining? && !SomeoneInside(s)
    ensures SomeoneInside(Schedule(s, order))
    decreases s.read, Count(s.threads, AtCheck())
  {
    CountMember(s.threads, w, OwnerCount());
    if s.read == 0 {
      order := [w];
      Single(s, w);
      assert InSection(Do(s, Step(w)).threads[w]);
    } else {
      var u := CountWitness(s.threads, ReaderCount());
      assert !InSection(s.threads[u]);
      var s' := Do(s, Step(u));
      StepKeepsInv(s, Step(u));
      CountUpdate(s.threads, u, s'.threads[u], AtCheck());
      var rest := WriterGetsIn(s', w);
      order := [u] + rest;
      Prepend(s, u, rest);
    }
  }

  /** Steps left for a thread that nobody hinders to be inside, or to own `write` (for a writer). */
  function StepsLeft(pc: Pc): nat {
    match pc
    case BackingOff => 4
    case Spinning => 3
    case Entering => 2
    case Checking => 1
    case Acquiring => 1
    case _ => 0
  }

  lemma {:induction false} RequestGetsIn(s: State, t: nat) returns (order: seq<nat>)
    requires Inv(s) && t < |s.threads| && Requesting(s.threads[t]) && !SomeoneInside(s)
    requires s.write == 0 || s.threads[t].Draining?
    ensures SomeoneInside(Schedule(s, order))
    decreases StepsLeft(s.threads[t])
  {
    if s.threads[t].Draining? {
      order := WriterGetsIn(s, t);
    } else {
      var s' := Do(s, Step(t));
      StepKeepsInv(s, Step(t));
      if InSection(s'.threads[t]) {
        order := [t];
        Single(s, t);
        assert InSection(Do(s, Step(t)).threads[t]);
      } else {
        var rest := RequestGetsIn(s', t);
        order := [t] + rest;
        Prepend(s, t, rest);
      }
    }
  }

  /**
   On every run the lock is free of deadlock: when threads ask for it and none
   is inside, some order of their steps lets one in.
   */
  lemma NoDeadlock(states: seq<State>, actions: seq<Action>, i: nat, t: nat)
    requires IsRun(states, actions) && i < |states|
    requires t < |states[i].threads| && Requesting(states[i].threads[t]) && !SomeoneInside(states[i])
    ensures exists order :: SomeoneInside(Schedule(states[i], order))
  {
    RunKeepsInv(states, actions, i);
    var order;
    if states[i].write == 0 {
      if states[i].threads[t].Draining? {
        CountMember(states[i].threads, t, OwnerCount());
        assert false;
      }
      order := RequestGetsIn(states[i], t);
    } else {
      var w := CountWitness(states[i].threads, OwnerCount());
      assert !InSection(states[i].threads[w]);
      order := RequestGetsIn(states[i], w);
    }
    assert SomeoneInside(Schedule(states[i], order));
  }
}
