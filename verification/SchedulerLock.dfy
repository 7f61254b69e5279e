/**
 The session lock: a service that locks a session from its callback is silent
 until the session is answered or the lock is undone, and then the answer is
 the next message it dispatches.
 */
module SchedulerLock {
  import opened MessageQueues
  import opened Scheduler
  import opened SchedulerInvariant
  import opened SchedulerSteps
  import opened SchedulerRuns
  import opened Sequences

  /** Service q is locked on session, or its context is already gone: nothing may be dispatched. */
  predicate Silent(sv: Service, session: int) {
    || sv.ref == 0
    || (sv.queue.lockSession == session && (sv.queue.inGlobal == DISPATCHING || sv.queue.inGlobal == LOCKED))
  }

  /** The two ways a lock on session ends: an unlock, or a message of that session. */
  predicate Ends(s: State, a: Action, q: nat, session: int) {
    || (a.UnlockSession? && a.t < |s.threads| && s.threads[a.t].Dispatching? && s.threads[a.t].c == q)
    || (PushesTo(s, a, q) && s.threads[a.t].msg.session == session)
  }

  /** The action locks the session of service q from its callback. */
  predicate Locks(s: State, a: Action, q: nat) {
    a.LockSession? && a.t < |s.threads| && s.threads[a.t].Dispatching? && s.threads[a.t].c == q && q < |s.services|
  }

  lemma StaysDead(q: nat, sv: Service, pc: Pc, a: Action, refs: nat, deleters: nat, tokens: nat)
    requires Legal(q, sv, pc, a, refs, deleters, tokens) && sv.ref == 0
    ensures LocalStep(sv, pc, a).service.ref == 0 && LocalStep(sv, pc, a).service.taken == sv.taken
  {
  }

  lemma StaysLocked(q: nat, sv: Service, pc: Pc, a: Action, refs: nat, deleters: nat, tokens: nat, session: int)
    requires Legal(q, sv, pc, a, refs, deleters, tokens) && sv.ref != 0
    requires session != 0 && Silent(sv, session)
    requires !a.UnlockSession? && !(a.Push? && pc.msg.session == session)
    ensures Silent(LocalStep(sv, pc, a).service, session) && LocalStep(sv, pc, a).service.taken == sv.taken
  {
  }

  /** A silent service stays silent through any step that does not end the lock. */
  lemma StaysSilent(s: State, a: Action, q: nat, session: int)
    requires Inv(s) && Enabled(s, a) && q < |s.services|
    requires session != 0 && Silent(s.services[q], session) && !Ends(s, a, q, session)
    ensures q < |Do(s, a).services| && Silent(Do(s, a).services[q], session)
    ensures Do(s, a).services[q].taken == s.services[q].taken
  {
    StepOnService(s, a, q);
    if Acts(s, a, q) {
      var sv, pc := s.services[q], s.threads[a.t];
      if sv.ref == 0 {
        StaysDead(q, sv, pc, a, Refs(s, q), Deleters(s, q), Tokens(s, q));
      } else {
        StaysLocked(q, sv, pc, a, Refs(s, q), Deleters(s, q), Tokens(s, q), session);
      }
    }
  }

  lemma LockingSilences(s: State, a: Action, q: nat)
    requires Enabled(s, a) && Locks(s, a, q)
    ensures q < |Do(s, a).services|
    ensures Silent(Do(s, a).services[q], s.services[q].sessionId + 1)
    ensures Do(s, a).services[q].taken == s.services[q].taken
  {
  }

  /**
   After a callback of q locks it at step i, no message is taken from it until
   the lock's session is answered or the lock is undone.
   */
  lemma {:induction false} LockSilences(states: seq<State>, actions: seq<Action>, i: nat, j: nat, q: nat)
    requires IsRun(states, actions) && i < j < |states| && Locks(states[i], actions[i], q)
    requires var session := states[i].services[q].sessionId + 1;
             forall k :: i < k < j ==> !Ends(states[k], actions[k], q, session)
    ensures q < |states[j].services|
    ensures states[j].services[q].taken == states[i].services[q].taken
    ensures Silent(states[j].services[q], states[i].services[q].sessionId + 1)
  {
    assert StepAt(states, actions, j - 1);
    if j == i + 1 {
      LockingSilences(states[i], actions[i], q);
    } else {
      LockSilences(states, actions, i, j - 1, q);
      RunKeepsInv(states, actions, j - 1);
      StaysSilent(states[j - 1], actions[j - 1], q, states[i].services[q].sessionId + 1);
    }
  }

  ghost predicate NoCallback(s: State, q: nat) {
    forall t :: 0 <= t < |s.threads| ==> !(s.threads[t].Dispatching? && s.threads[t].c == q)
  }

  predicate Heads(sv: Service, m: Message) {
    && sv.queue.msgs != [] && sv.queue.msgs[0] == m && sv.queue.lockSession == 0
    && (sv.queue.inGlobal == DISPATCHING || sv.queue.inGlobal == IN_GLOBAL)
  }

  /** m is the next message q dispatches, if q dispatches any more. */
  ghost predicate NextUp(s: State, q: nat, m: Message)
    requires q < |s.services|
  {
    var sv := s.services[q];
    sv.ref == 0 || (Heads(sv, m) && (sv.queue.inGlobal == IN_GLOBAL ==> NoCallback(s, q)))
  }

  /** Since state s, service q took nothing and m is next, or m was the first message it took. */
  ghost predicate GoesFirst(s: State, s': State, q: nat, m: Message) {
    && q < |s.services| && q < |s'.services|
    && var before, after := s.services[q].taken, s'.services[q].taken;
       (after == before && NextUp(s', q, m)) || before + [m] <= after
  }

  /** A queue in LOCKED is in nobody's callback: what ran when it was locked has returned. */
  lemma LockedHasNoCallback(s: State, q: nat)
    requires Inv(s) && q < |s.services| && s.services[q].queue.inGlobal == LOCKED && !s.services[q].queue.release
    ensures NoCallback(s, q)
  {
    forall t | 0 <= t < |s.threads| && s.threads[t].Dispatching? && s.threads[t].c == q
      ensures false
    {
      ThreadFacts(s, t);
    }
  }

  lemma PushedHeads(sv: Service, m: Message, refs: nat, deleters: nat, tokens: nat)
    requires ServiceOk(sv, refs, deleters, tokens) && sv.ref != 0 && EndsLock(sv.queue, m)
    ensures !sv.queue.release && (sv.queue.inGlobal == LOCKED || sv.queue.inGlobal == DISPATCHING)
    ensures var queue := Pushed(sv.queue, m).queue;
            Heads(WithQueue(sv, queue), m) && (queue.inGlobal == IN_GLOBAL ==> sv.queue.inGlobal == LOCKED)
  {
  }

  /** A message of the locked session goes first: no callback is running, or the running one cannot lock again. */
  lemma EndingMessageIsNext(s: State, a: Action, q: nat)
    requires Inv(s) && Enabled(s, a) && q < |s.services|
    requires PushesTo(s, a, q) && EndsLock(s.services[q].queue, s.threads[a.t].msg)
    ensures GoesFirst(s, Do(s, a), q, s.threads[a.t].msg)
  {
    ThreadFacts(s, a.t);
    var sv := s.services[q];
    PushedHeads(sv, s.threads[a.t].msg, Refs(s, q), Deleters(s, q), Tokens(s, q));
    if sv.queue.inGlobal == LOCKED {
      LockedHasNoCallback(s, q);
    }
  }

  /** The step takes a message of the service. */
  predicate TakesMessage(sv: Service, a: Action) {
    a.PopMessage? && sv.queue.msgs != []
  }

  /** The part of NextUp that concerns the service alone. */
  lemma StaysHead(q: nat, sv: Service, pc: Pc, a: Action, refs: nat, deleters: nat, tokens: nat, m: Message)
    requires Legal(q, sv, pc, a, refs, deleters, tokens) && sv.ref != 0 && Heads(sv, m) && !a.LockSession?
    ensures var sv' := LocalStep(sv, pc, a).service;
            if TakesMessage(sv, a) then sv'.taken == sv.taken + [m]
            else
              && sv'.taken == sv.taken && (sv'.ref == 0 || Heads(sv', m))
              && (sv.queue.inGlobal == DISPATCHING && sv'.queue.inGlobal == IN_GLOBAL ==> sv'.ref == 0 || a.Return?)
  {
  }

  lemma TakenGrows(s: State, a: Action, q: nat)
    requires Enabled(s, a) && q < |s.services|
    ensures q < |Do(s, a).services| && s.services[q].taken <= Do(s, a).services[q].taken
  {
  }

  lemma LocalCallback(q: nat, sv: Service, pc: Pc, a: Action, refs: nat, deleters: nat, tokens: nat)
    requires Legal(q, sv, pc, a, refs, deleters, tokens) && LocalStep(sv, pc, a).pc.Dispatching?
    ensures LocalStep(sv, pc, a).pc.c == q && (TakesMessage(sv, a) || (pc.Dispatching? && pc.c == q))
  {
  }

  /** No thread enters q's callback except by taking a message of q. */
  lemma CallbackEntered(s: State, a: Action, q: nat)
    requires Inv(s) && Enabled(s, a) && q < |s.services| && NoCallback(s, q)
    requires !(Acts(s, a, q) && TakesMessage(s.services[q], a))
    ensures NoCallback(Do(s, a), q)
  {
    hide LocalStep, Legal, Inv;
    if OnService(a) {
      DoOnService(s, a);
      var x := Target(s.threads[a.t], a);
      var r := LocalStep(s.services[x], s.threads[a.t], a);
      if r.pc.Dispatching? {
        EnabledIsLegal(s, a);
        LocalCallback(x, s.services[x], s.threads[a.t], a, Refs(s, x), Deleters(s, x), Tokens(s, x));
      }
    }
  }

  /** Once the callback of q returns, no thread is in it. */
  lemma CallbackLeft(s: State, a: Action, q: nat)
    requires Inv(s) && Enabled(s, a) && a.Return? && s.threads[a.t].q == q
    ensures NoCallback(Do(s, a), q)
  {
    ThreadFacts(s, a.t);
    SoleHolder(s, a.t, q);
    forall t | 0 <= t < |s.threads| && s.threads[t].Dispatching? && s.threads[t].c == q
      ensures t == a.t
    {
      ThreadFacts(s, t);
    }
  }

  /** While m heads an unlocked queue outside its callback, nobody can lock it. */
  lemma NextUpNotLocked(s: State, a: Action, q: nat, m: Message)
    requires Inv(s) && Enabled(s, a) && q < |s.services| && NextUp(s, q, m) && s.services[q].ref != 0
    ensures !(a.LockSession? && Acts(s, a, q))
  {
  }

  lemma StaysNext(s: State, a: Action, q: nat, m: Message)
    requires Inv(s) && Enabled(s, a) && q < |s.services| && NextUp(s, q, m)
    ensures q < |Do(s, a).services|
    ensures var sv, sv' := s.services[q], Do(s, a).services[q];
            if sv'.taken == sv.taken then NextUp(Do(s, a), q, m) else sv'.taken == sv.taken + [m]
  {
    StepOnService(s, a, q);
    var sv, pc := s.services[q], s.threads[a.t];
    if Acts(s, a, q) && sv.ref == 0 {
      StaysDead(q, sv, pc, a, Refs(s, q), Deleters(s, q), Tokens(s, q));
    } else if Acts(s, a, q) {
      NextUpNotLocked(s, a, q, m);
      StaysHead(q, sv, pc, a, Refs(s, q), Deleters(s, q), Tokens(s, q), m);
      if TakesMessage(sv, a) {
      } else if sv.queue.inGlobal == IN_GLOBAL {
        CallbackEntered(s, a, q);
      } else if a.Return? {
        CallbackLeft(s, a, q);
      }
    } else if sv.queue.inGlobal == IN_GLOBAL && sv.ref != 0 {
      CallbackEntered(s, a, q);
    }
  }

  lemma StillGoesFirst(states: seq<State>, actions: seq<Action>, k: nat, s: State, q: nat, m: Message)
    requires IsRun(states, actions) && k < |actions| && GoesFirst(s, states[k], q, m)
    ensures GoesFirst(s, states[k + 1], q, m)
  {
    assert StepAt(states, actions, k);
    TakenGrows(states[k], actions[k], q);
    if states[k].services[q].taken == s.services[q].taken && NextUp(states[k], q, m) {
      RunKeepsInv(states, actions, k);
      StaysNext(states[k], actions[k], q, m);
    }
  }

  /**
   The message m that ends a session lock at step i is the next one dispatched,
   whatever was queued before it or is pushed after it.
   */
  lemma {:induction false} EndingMessageDispatchedFirst(
      states: seq<State>, actions: seq<Action>, i: nat, j: nat, q: nat, m: Message)
    requires IsRun(states, actions) && i < j < |states| && q < |states[i].services|
    requires PushesTo(states[i], actions[i], q) && m == states[i].threads[actions[i].t].msg
    requires EndsLock(states[i].services[q].queue, m)
    ensures GoesFirst(states[i], states[j], q, m)
  {
    if j == i + 1 {
      assert StepAt(states, actions, i);
      RunKeepsInv(states, actions, i);
      EndingMessageIsNext(states[i], actions[i], q);
    } else {
      EndingMessageDispatchedFirst(states, actions, i, j - 1, q, m);
      StillGoesFirst(states, actions, j - 1, states[i], q, m);
    }
  }
}
