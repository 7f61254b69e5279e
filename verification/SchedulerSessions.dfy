/**
 How a session lock ends: by an unlock, after which the queue is handed on like
 any other, or by the answer to the call made right after the lock, which is
 the next message dispatched.
 */
module SchedulerSessions {
  import opened MessageQueues
  import opened Scheduler
  import opened SchedulerInvariant
  import opened SchedulerSteps
  import opened SchedulerRuns
  import opened SchedulerLock
  import opened Sequences

  // ----- The end of a dispatch -----

  predicate InCallback(s: State, t: nat, q: nat) {
    t < |s.threads| && s.threads[t].Dispatching? && s.threads[t].c == q
  }

  lemma LocalReturn(q: nat, sv: Service, pc: Pc, a: Action, refs: nat, deleters: nat, tokens: nat)
    requires Legal(q, sv, pc, a, refs, deleters, tokens) && a.Return?
    ensures var r := LocalStep(sv, pc, a);
            && (r.wake <==> sv.queue.lockSession == 0) && r.service.queue.msgs == sv.queue.msgs
            && r.service.queue.lockSession == sv.queue.lockSession
    ensures About(pc, q)
  {
  }

  lemma ReturnStep(s: State, a: Action, q: nat)
    requires Inv(s) && Enabled(s, a) && a.Return? && InCallback(s, a.t, q)
    ensures q < |s.services| && q < |Do(s, a).services|
    ensures var queue, queue' := s.services[q].queue, Do(s, a).services[q].queue;
            && queue'.msgs == queue.msgs && queue'.lockSession == queue.lockSession
            && Do(s, a).global == if queue.lockSession == 0 then s.global + [q] else s.global
    ensures q !in s.global
  {
    ThreadFacts(s, a.t);
    assert ServiceOk(s.services[q], Refs(s, q), Deleters(s, q), Tokens(s, q));
    SoleHolder(s, a.t, q);
    DoOnService(s, a);
    EnabledIsLegal(s, a);
    LocalReturn(q, s.services[q], s.threads[a.t], a, Refs(s, q), Deleters(s, q), Tokens(s, q));
    hide LocalStep;
  }

  /**
   On every run, a dispatch ends with the queue at the end of the global queue,
   unless its session is locked: then it is nowhere there.
   */
  lemma ReturnHandsOn(states: seq<State>, actions: seq<Action>, i: nat, q: nat)
    requires IsRun(states, actions) && i < |actions| && actions[i].Return? && InCallback(states[i], actions[i].t, q)
    ensures q < |states[i].services| && q < |states[i + 1].services|
    ensures var s, s' := states[i], states[i + 1];
            && s'.services[q].queue.msgs == s.services[q].queue.msgs
            && s'.services[q].queue.lockSession == s.services[q].queue.lockSession
            && q !in s.global
            && s'.global == if s.services[q].queue.lockSession == 0 then s.global + [q] else s.global
  {
    assert StepAt(states, actions, i);
    RunKeepsInv(states, actions, i);
    ReturnStep(states[i], actions[i], q);
  }

  // ----- Unlocking -----

  /** Between an unlock and the end of the callback: no lock, and none can be taken. */
  predicate AfterUnlock(sv: Service) {
    sv.queue.lockSession == 0 && sv.queue.inGlobal == DISPATCHING && !sv.queue.release
  }

  lemma LocalUnlock(q: nat, sv: Service, pc: Pc, a: Action, refs: nat, deleters: nat, tokens: nat)
    requires Legal(q, sv, pc, a, refs, deleters, tokens) && a.UnlockSession?
    ensures var sv' := LocalStep(sv, pc, a).service;
            sv'.queue.msgs == sv.queue.msgs && sv'.taken == sv.taken && sv'.queue.lockSession == 0
            && (sv.ref != 0 ==> AfterUnlock(sv'))
    ensures LocalStep(sv, pc, a).pc == pc
  {
  }

  lemma LocalStaysUnlocked(q: nat, sv: Service, pc: Pc, a: Action, refs: nat, deleters: nat, tokens: nat)
    requires Legal(q, sv, pc, a, refs, deleters, tokens) && AfterUnlock(sv) && refs >= 1 && !a.Return?
    requires !pc.Idle? && HoldsToken(pc, q) ==> pc.Dispatching?
    ensures AfterUnlock(LocalStep(sv, pc, a).service)
  {
  }

  lemma UnlockStep(s: State, a: Action, q: nat)
    requires Inv(s) && Enabled(s, a) && a.UnlockSession? && InCallback(s, a.t, q)
    ensures q < |s.services| && q < |Do(s, a).services|
    ensures var sv, sv' := s.services[q], Do(s, a).services[q];
            sv'.queue.msgs == sv.queue.msgs && sv'.taken == sv.taken && AfterUnlock(sv')
    ensures Do(s, a).threads == s.threads
  {
    ThreadFacts(s, a.t);
    DoOnService(s, a);
    EnabledIsLegal(s, a);
    LocalUnlock(q, s.services[q], s.threads[a.t], a, Refs(s, q), Deleters(s, q), Tokens(s, q));
    hide LocalStep;
  }

  /**
   On every run, an unlock ends the session lock at once, leaves the messages
   alone, and leaves the queue with one token: the callback's.
   */
  lemma UnlockEnds(states: seq<State>, actions: seq<Action>, i: nat, q: nat)
    requires IsRun(states, actions) && i < |actions|
    requires actions[i].UnlockSession? && InCallback(states[i], actions[i].t, q)
    ensures q < |states[i].services| && q < |states[i + 1].services|
    ensures var sv, sv' := states[i].services[q], states[i + 1].services[q];
            && sv'.queue.lockSession == 0 && sv'.queue.msgs == sv.queue.msgs && sv'.taken == sv.taken
            && Tokens(states[i + 1], q) == 1
    ensures InCallback(states[i + 1], actions[i].t, q)
  {
    assert StepAt(states, actions, i);
    RunKeepsInv(states, actions, i);
    RunKeepsInv(states, actions, i + 1);
    UnlockStep(states[i], actions[i], q);
    var s' := states[i + 1];
    assert ServiceOk(s'.services[q], Refs(s', q), Deleters(s', q), Tokens(s', q));
  }

  lemma StaysUnlocked(s: State, a: Action, t: nat, q: nat)
    requires Inv(s) && Enabled(s, a) && InCallback(s, t, q) && q < |s.services| && AfterUnlock(s.services[q])
    requires !(a.Return? && a.t == t)
    ensures q < |Do(s, a).services| && AfterUnlock(Do(s, a).services[q]) && InCallback(Do(s, a), t, q)
  {
    ThreadFacts(s, t);
    OneToken(s, q);
    SoleHolder(s, t, q);
    StepOnService(s, a, q);
    CallbackStays(s, a, t, q);
    if Acts(s, a, q) {
      ReturnIsHolders(s, a, q);
      LocalStaysUnlocked(q, s.services[q], s.threads[a.t], a, Refs(s, q), Deleters(s, q), Tokens(s, q));
    }
    hide LocalStep, Do;
  }

  /** Who returns from the callback of q holds the token of q. */
  lemma ReturnIsHolders(s: State, a: Action, q: nat)
    requires Inv(s) && Enabled(s, a) && Acts(s, a, q)
    ensures a.Return? ==> HoldsToken(s.threads[a.t], q)
  {
    if a.Return? {
      ThreadFacts(s, a.t);
    }
  }

  /** A thread leaves its callback only by returning. */
  lemma CallbackStays(s: State, a: Action, t: nat, q: nat)
    requires Enabled(s, a) && InCallback(s, t, q) && !(a.Return? && a.t == t)
    ensures InCallback(Do(s, a), t, q)
  {
  }

  /** From an unlock to the end of its callback the queue stays unlocked: no new lock can come between. */
  lemma {:induction false} UnlockedUntil(states: seq<State>, actions: seq<Action>, i: nat, j: nat, q: nat)
    requires IsRun(states, actions) && i < j < |states|
    requires actions[i].UnlockSession? && InCallback(states[i], actions[i].t, q)
    requires forall k :: i < k < j ==> !(actions[k].Return? && actions[k].t == actions[i].t)
    ensures q < |states[j].services| && AfterUnlock(states[j].services[q]) && InCallback(states[j], actions[i].t, q)
  {
    assert StepAt(states, actions, j - 1);
    RunKeepsInv(states, actions, j - 1);
    if j == i + 1 {
      UnlockStep(states[i], actions[i], q);
    } else {
      UnlockedUntil(states, actions, i, j - 1, q);
      StaysUnlocked(states[j - 1], actions[j - 1], actions[i].t, q);
    }
  }

  /**
   On every run, a callback that has unlocked its queue returns it, unlocked, to
   the end of the global queue.
   */
  lemma UnlockHandsOn(states: seq<State>, actions: seq<Action>, i: nat, j: nat, q: nat)
    requires IsRun(states, actions) && i < j < |actions|
    requires actions[i].UnlockSession? && InCallback(states[i], actions[i].t, q)
    requires actions[j].Return? && actions[j].t == actions[i].t
    requires forall k :: i < k < j ==> !(actions[k].Return? && actions[k].t == actions[i].t)
    ensures q < |states[j + 1].services| && states[j + 1].services[q].queue.lockSession == 0
    ensures states[j + 1].global == states[j].global + [q]
  {
    UnlockedUntil(states, actions, i, j, q);
    ReturnHandsOn(states, actions, j, q);
  }

  // ----- Sessions -----

  /** The action draws a new session number of service q, for its callback or its init function. */
  predicate Draws(s: State, a: Action, q: nat) {
    && a.NewSession? && a.t < |s.threads|
    && (InCallback(s, a.t, q) || s.threads[a.t] == Initing(q))
  }

  lemma LocalDraw(sv: Service, pc: Pc, a: Action)
    requires At(pc, a) && OnService(a)
    ensures LocalStep(sv, pc, a).service.sessionId == sv.sessionId + (if a.NewSession? then 1 else 0)
  {
  }

  lemma StepDraws(s: State, a: Action, q: nat)
    requires Enabled(s, a) && q < |s.services|
    ensures q < |Do(s, a).services|
    ensures Do(s, a).services[q].sessionId == s.services[q].sessionId + (if Draws(s, a, q) then 1 else 0)
  {
    StepElsewhere(s, a, q);
    if Acts(s, a, q) {
      LocalDraw(s.services[q], s.threads[a.t], a);
    }
    hide LocalStep, Do;
  }

  /** The session numbers of a service only grow, and only by drawing one. */
  lemma {:induction false} SessionsGrow(states: seq<State>, actions: seq<Action>, i: nat, j: nat, q: nat)
    requires IsRun(states, actions) && i <= j < |states| && q < |states[i].services|
    ensures q < |states[j].services| && states[i].services[q].sessionId <= states[j].services[q].sessionId
    ensures (forall k :: i <= k < j ==> !Draws(states[k], actions[k], q)) ==>
              states[j].services[q].sessionId == states[i].services[q].sessionId
  {
    if i < j {
      SessionsGrow(states, actions, i, j - 1, q);
      assert StepAt(states, actions, j - 1);
      StepDraws(states[j - 1], actions[j - 1], q);
    }
  }

  /** The number drawn by action i is the session number of q after it. */
  lemma DrawsDiffer(states: seq<State>, actions: seq<Action>, i: nat, j: nat, q: nat)
    requires IsRun(states, actions) && i < j < |actions| && q < |states[i].services|
    requires Draws(states[i], actions[i], q) && Draws(states[j], actions[j], q)
    ensures q < |states[i + 1].services| && q < |states[j + 1].services|
    ensures 0 < states[i + 1].services[q].sessionId < states[j + 1].services[q].sessionId
  {
    assert StepAt(states, actions, i) && StepAt(states, actions, j);
    StepDraws(states[i], actions[i], q);
    SessionsGrow(states, actions, i + 1, j, q);
    StepDraws(states[j], actions[j], q);
  }

  lemma LockedSession(s: State, a: Action, q: nat)
    requires Enabled(s, a) && Locks(s, a, q)
    ensures q < |Do(s, a).services|
    ensures Do(s, a).services[q].queue.lockSession == s.services[q].sessionId + 1
    ensures Do(s, a).services[q].sessionId == s.services[q].sessionId
  {
  }

  /** A lock waits for the session that is drawn next. */
  lemma LockAwaitsNextDraw(states: seq<State>, actions: seq<Action>, i: nat, j: nat, q: nat)
    requires IsRun(states, actions) && i < j < |actions|
    requires Locks(states[i], actions[i], q) && Draws(states[j], actions[j], q)
    requires forall k :: i < k < j ==> !Draws(states[k], actions[k], q)
    ensures q < |states[i + 1].services| && q < |states[j + 1].services|
    ensures states[j + 1].services[q].sessionId == states[i + 1].services[q].queue.lockSession
  {
    assert StepAt(states, actions, i) && StepAt(states, actions, j);
    LockedSession(states[i], actions[i], q);
    SessionsGrow(states, actions, i + 1, j, q);
    StepDraws(states[j], actions[j], q);
  }

  /**
   A callback of q that locks the queue at step i, draws a session at step j for
   a call, and is sent a message of that session at step k, with no other end of
   the lock before: nothing is dispatched from q in the meantime, and at any
   later step l that message was the first taken since, or is still the next.
   */
  lemma AnswerGoesFirst(states: seq<State>, actions: seq<Action>, i: nat, j: nat, k: nat, l: nat, q: nat)
    requires IsRun(states, actions) && i < j < k < l < |states|
    requires Locks(states[i], actions[i], q) && Draws(states[j], actions[j], q)
    requires forall n :: i < n < j ==> !Draws(states[n], actions[n], q)
    requires q < |states[j + 1].services|
    requires PushesTo(states[k], actions[k], q)
    requires states[k].threads[actions[k].t].msg.session == states[j + 1].services[q].sessionId
    requires forall n :: i < n < k ==> !Ends(states[n], actions[n], q, states[j + 1].services[q].sessionId)
    ensures q < |states[k].services| && states[k].services[q].taken == states[i].services[q].taken
    ensures GoesFirst(states[k], states[l], q, states[k].threads[actions[k].t].msg)
  {
    LockAwaitsNextDraw(states, actions, i, j, q);
    assert StepAt(states, actions, i) && StepAt(states, actions, k);
    LockedSession(states[i], actions[i], q);
    LockSilences(states, actions, i, k, q);
    RunKeepsInv(states, actions, k);
    ThreadFacts(states[k], actions[k].t);
    EndingMessageDispatchedFirst(states, actions, k, l, q, states[k].threads[actions[k].t].msg);
  }
}
