/**
 The reader/writer lock seen by its callers: a thread gets what it asked for,
 writers are alone, and readers share.
 */
module RwLockRequests {
  import opened RwLock
  import opened Sequences

  datatype Request = Nothing | Read | Write

  /** What thread t has asked for in the first i actions and not given back. */
  function Asked(actions: seq<Action>, i: nat, t: nat): Request
    requires i <= |actions|
  {
    if i == 0 then Nothing
    else if actions[i - 1].t != t then Asked(actions, i - 1, t)
    else
      match actions[i - 1]
      case ReadLock(_) => Read
      case WriteLock(_) => Write
      case Unlock(_) => Nothing
      case Step(_) => Asked(actions, i - 1, t)
  }

  /** On every run a thread is where its last request took it. */
  lemma {:induction false} RequestDecides(states: seq<State>, actions: seq<Action>, i: nat, t: nat)
    requires IsRun(states, actions) && i < |states| && t < |states[i].threads|
    ensures var pc := states[i].threads[t];
            && (Asked(actions, i, t) == Nothing <==> pc.Idle?)
            && (Asked(actions, i, t) == Read <==>
                  pc.Spinning? || pc.Entering? || pc.Checking? || pc.BackingOff? || pc.Reading?)
            && (Asked(actions, i, t) == Write <==> pc.Acquiring? || pc.Draining? || pc.WritingSection?)
  {
    if i > 0 {
      assert StepAt(states, actions, i - 1);
      RequestDecides(states, actions, i - 1, t);
    }
  }

  /** On every run, whoever asked to write and is inside is there alone. */
  lemma WriterAlone(states: seq<State>, actions: seq<Action>, i: nat, t: nat, u: nat)
    requires IsRun(states, actions) && i < |states|
    requires t < |states[i].threads| && InSection(states[i].threads[t]) && Asked(actions, i, t) == Write
    requires u < |states[i].threads| && InSection(states[i].threads[u])
    ensures t == u
  {
    RequestDecides(states, actions, i, t);
    if t != u {
      Exclusion(states, actions, i, t, u);
    }
  }

  /** When nobody asks for anything the lock is as it was at first. */
  lemma AllGivenBack(states: seq<State>, actions: seq<Action>, i: nat)
    requires IsRun(states, actions) && i < |states|
    requires forall t :: 0 <= t < |states[i].threads| ==> Asked(actions, i, t) == Nothing
    ensures Init(states[i])
  {
    forall t | 0 <= t < |states[i].threads|
      ensures states[i].threads[t] == Idle
    {
      RequestDecides(states, actions, i, t);
    }
    RunKeepsInv(states, actions, i);
    CountNone(states[i].threads, ReaderCount());
    CountNone(states[i].threads, OwnerCount());
  }

  // ----- Readers share -----

  predicate AsksToRead(pc: Pc) {
    pc.Spinning? || pc.Entering? || pc.Checking? || pc.BackingOff? || pc.Reading?
  }

  /** The steps all readers together are from being inside, if no writer comes. */
  function ReadersLeft(threads: seq<Pc>): nat {
    if threads == [] then 0
    else (if AsksToRead(threads[0]) then StepsLeft(threads[0]) else 0) + ReadersLeft(threads[1..])
  }

  lemma {:induction false} ReadersLeftUpdate(threads: seq<Pc>, t: nat, pc: Pc)
    requires t < |threads| && AsksToRead(threads[t]) && AsksToRead(pc)
    ensures ReadersLeft(threads[t := pc]) == ReadersLeft(threads) - StepsLeft(threads[t]) + StepsLeft(pc)
  {
    if t > 0 {
      assert threads[t := pc][1..] == threads[1..][t - 1 := pc];
      ReadersLeftUpdate(threads[1..], t - 1, pc);
    }
  }

  /** With no writer about, a reader that is not inside can take a step, and gets nearer. */
  lemma ReaderSteps(s: State, t: nat)
    requires s.write == 0 && t < |s.threads| && AsksToRead(s.threads[t]) && !s.threads[t].Reading?
    ensures Enabled(s, Step(t))
    ensures var s' := Do(s, Step(t));
            && s'.write == 0 && AsksToRead(s'.threads[t]) && s'.threads == s.threads[t := s'.threads[t]]
            && ReadersLeft(s'.threads) < ReadersLeft(s.threads)
  {
    ReadersLeftUpdate(s.threads, t, Do(s, Step(t)).threads[t]);
  }

  /** Where the readers have all gone in. */
  predicate ReadersIn(s: State, s': State) {
    && |s'.threads| == |s.threads|
    && forall t :: 0 <= t < |s.threads| ==>
         s'.threads[t] == if AsksToRead(s.threads[t]) then Reading else s.threads[t]
  }

  lemma {:induction false} ReadersGetIn(s: State) returns (order: seq<nat>)
    requires s.write == 0
    ensures ReadersIn(s, Schedule(s, order))
    decreases ReadersLeft(s.threads)
  {
    if t :| 0 <= t < |s.threads| && AsksToRead(s.threads[t]) && !s.threads[t].Reading? {
      ReaderSteps(s, t);
      var rest := ReadersGetIn(Do(s, Step(t)));
      order := [t] + rest;
      Prepend(s, t, rest);
    } else {
      order := [];
    }
  }

  /**
   On every run, when nobody asks to write, some order of steps brings all who
   ask to read into the section together.
   */
  lemma ReadersShare(states: seq<State>, actions: seq<Action>, i: nat) returns (order: seq<nat>)
    requires IsRun(states, actions) && i < |states|
    requires forall t :: 0 <= t < |states[i].threads| ==> Asked(actions, i, t) != Write
    ensures var s := Schedule(states[i], order);
            && |s.threads| == |states[i].threads|
            && forall t :: 0 <= t < |s.threads| ==> (s.threads[t] == Reading <==> Asked(actions, i, t) == Read)
  {
    var s := states[i];
    RunKeepsInv(states, actions, i);
    forall t | 0 <= t < |s.threads|
      ensures AsksToRead(s.threads[t]) <==> Asked(actions, i, t) == Read
      ensures !OwnsWrite(s.threads[t])
    {
      RequestDecides(states, actions, i, t);
    }
    CountNone(s.threads, OwnerCount());
    order := ReadersGetIn(s);
  }
}
