/**
 Every step of the scheduling protocol keeps the invariant, and no assert that
 the protocol itself must meet can fail.
 */
module SchedulerSteps {
  import opened MessageQueues
  import opened Scheduler
  import opened SchedulerInvariant
  import opened Sequences

  /** What the invariant says of the service q a busy thread at pc works on. */
  predicate Facts(q: nat, sv: Service, pc: Pc, refs: nat, deleters: nat, tokens: nat) {
    && !pc.Idle? && pc.q == q && About(pc, q)
    && PcOk(sv, pc) && ServiceOk(sv, refs, deleters, tokens)
    && (HoldsRef(pc, q) ==> refs >= 1)
    && (HoldsToken(pc, q) ==> tokens >= 1)
    && (pc.Deleting? ==> deleters >= 1)
  }

  lemma ThreadFacts(s: State, t: nat)
    requires Inv(s) && t < |s.threads| && !s.threads[t].Idle?
    ensures var pc := s.threads[t];
            InRange(s, pc) && Facts(pc.q, s.services[pc.q], pc, Refs(s, pc.q), Deleters(s, pc.q), Tokens(s, pc.q))
  {
    HolderCounts(s, t);
    assert InRange(s, s.threads[t]);
  }

  /** With handles never reused, the context found for a queue's handle is that queue's own. */
  lemma FoundIsOwn(s: State, q: nat, c: nat)
    requires Inv(s) && q < |s.services| && Finds(s, q, c)
    ensures q == c
  {
    if q < c || c < q {
      assert false;
    }
  }

  lemma PopGlobalKeepsInv(s: State, a: Action)
    requires Inv(s) && Enabled(s, a) && a.PopGlobal?
    ensures Inv(Do(s, a))
  {
    var s', q, t := Do(s, a), s.global[0], a.t;
    forall r | 0 <= r < |s.services|
      ensures ServiceOk(s'.services[r], Refs(s', r), Deleters(s', r), Tokens(s', r))
    {
      CountUpdate(s.threads, t, GotQueue(q), RefHolder(r));
      CountUpdate(s.threads, t, GotQueue(q), Deleter(r));
      CountUpdate(s.threads, t, GotQueue(q), TokenHolder(r));
      assert ServiceOk(s.services[r], Refs(s, r), Deleters(s, r), Tokens(s, r));
    }
    assert Published(s.services[q]);
    assert ThreadsOk(s') by {
      forall u | 0 <= u < |s'.threads|
        ensures InRange(s', s'.threads[u])
        ensures !s'.threads[u].Idle? ==> PcOk(s'.services[s'.threads[u].q], s'.threads[u])
      {
        assert u != t ==> InRange(s, s.threads[u]);
      }
    }
  }

  // ----- Steps on one service, given the counts -----

  /** What is known of the target q of a step, and of the thread at pc that takes it. */
  predicate Legal(q: nat, sv: Service, pc: Pc, a: Action, refs: nat, deleters: nat, tokens: nat) {
    && At(pc, a) && OnService(a) && Target(pc, a) == q && Allows(sv, a)
    && ServiceOk(sv, refs, deleters, tokens)
    && (!pc.Idle? ==> Facts(q, sv, pc, refs, deleters, tokens))
    && (a.GrabNothing? ==> !sv.inTable)
    && (a.MarkReleased? && !sv.queue.release && sv.queue.inGlobal == DISPATCHING ==> refs >= 1)
  }

  /** The step fits: the counts still add up and nobody else's claim is disturbed. */
  predicate StepFits(q: nat, sv: Service, pc: Pc, a: Action, refs: nat, deleters: nat, tokens: nat)
    requires At(pc, a) && OnService(a)
  {
    var r := LocalStep(sv, pc, a);
    Fits(q, sv, pc, r.service, r.pc, r.wake, refs, deleters, tokens)
  }

  /** The steps of a worker up to the callback. */
  lemma WorkerFits(q: nat, sv: Service, pc: Pc, a: Action, refs: nat, deleters: nat, tokens: nat)
    requires Legal(q, sv, pc, a, refs, deleters, tokens)
    requires a.GrabContext? || a.GrabNothing? || a.PopMessage?
    ensures StepFits(q, sv, pc, a, refs, deleters, tokens)
  {
  }

  /** The steps inside a callback, and its return. */
  lemma CallbackFits(q: nat, sv: Service, pc: Pc, a: Action, refs: nat, deleters: nat, tokens: nat)
    requires Legal(q, sv, pc, a, refs, deleters, tokens)
    requires a.NewSession? || a.LockSession? || a.UnlockSession? || a.Return?
    ensures StepFits(q, sv, pc, a, refs, deleters, tokens)
  {
  }

  lemma DropReferenceFits(q: nat, sv: Service, pc: Pc, a: Action, refs: nat, deleters: nat, tokens: nat)
    requires Legal(q, sv, pc, a, refs, deleters, tokens) && a.DropReference?
    ensures StepFits(q, sv, pc, a, refs, deleters, tokens)
  {
  }

  lemma MarkReleasedFits(q: nat, sv: Service, pc: Pc, a: Action, refs: nat, deleters: nat, tokens: nat)
    requires Legal(q, sv, pc, a, refs, deleters, tokens) && a.MarkReleased?
    ensures StepFits(q, sv, pc, a, refs, deleters, tokens)
  {
  }

  /** The steps that take a handle off the table. */
  lemma RetireFits(q: nat, sv: Service, pc: Pc, a: Action, refs: nat, deleters: nat, tokens: nat)
    requires Legal(q, sv, pc, a, refs, deleters, tokens) && (a.Retire? || a.RetireOwn?)
    ensures StepFits(q, sv, pc, a, refs, deleters, tokens)
  {
  }

  /** The steps that drain and free a queue. */
  lemma ReleaseFits(q: nat, sv: Service, pc: Pc, a: Action, refs: nat, deleters: nat, tokens: nat)
    requires Legal(q, sv, pc, a, refs, deleters, tokens)
    requires a.ReleaseQueue? || a.DropMessage? || a.FreeQueue?
    ensures StepFits(q, sv, pc, a, refs, deleters, tokens)
  {
  }

  /** The steps of those that grab a context from outside: a sender's, and one that only looks. */
  lemma SenderFits(q: nat, sv: Service, pc: Pc, a: Action, refs: nat, deleters: nat, tokens: nat)
    requires Legal(q, sv, pc, a, refs, deleters, tokens)
    requires a.StartSend? || a.Touch? || a.Push?
    ensures StepFits(q, sv, pc, a, refs, deleters, tokens)
  {
  }

  /** The steps of a creator. */
  lemma CreatorFits(q: nat, sv: Service, pc: Pc, a: Action, refs: nat, deleters: nat, tokens: nat)
    requires Legal(q, sv, pc, a, refs, deleters, tokens)
    requires a.InitSucceeds? || a.InitFails? || a.SetInit? || a.Publish?
    ensures StepFits(q, sv, pc, a, refs, deleters, tokens)
  {
  }

  lemma LegalFits(q: nat, sv: Service, pc: Pc, a: Action, refs: nat, deleters: nat, tokens: nat)
    requires Legal(q, sv, pc, a, refs, deleters, tokens)
    ensures StepFits(q, sv, pc, a, refs, deleters, tokens)
  {
    if a.GrabContext? || a.GrabNothing? || a.PopMessage? {
      WorkerFits(q, sv, pc, a, refs, deleters, tokens);
    } else if a.NewSession? || a.LockSession? || a.UnlockSession? || a.Return? {
      CallbackFits(q, sv, pc, a, refs, deleters, tokens);
    } else if a.DropReference? {
      DropReferenceFits(q, sv, pc, a, refs, deleters, tokens);
    } else if a.MarkReleased? {
      MarkReleasedFits(q, sv, pc, a, refs, deleters, tokens);
    } else if a.Retire? || a.RetireOwn? {
      RetireFits(q, sv, pc, a, refs, deleters, tokens);
    } else if a.ReleaseQueue? || a.DropMessage? || a.FreeQueue? {
      ReleaseFits(q, sv, pc, a, refs, deleters, tokens);
    } else if a.StartSend? || a.Touch? || a.Push? {
      SenderFits(q, sv, pc, a, refs, deleters, tokens);
    } else {
      CreatorFits(q, sv, pc, a, refs, deleters, tokens);
    }
  }

  lemma PopKeepsMessages(sv: Service)
    requires Conserved(sv) && sv.queue.msgs != []
    ensures var popped, head := WithQueue(sv, Popped(sv.queue)), sv.queue.msgs[0];
            && Conserved(popped.(taken := sv.taken + [head]))
            && (sv.queue.release ==> Conserved(popped.(dropped := sv.dropped + [head])))
  {
    assert sv.queue.msgs == [sv.queue.msgs[0]] + sv.queue.msgs[1..];
  }

  lemma PushKeepsMessages(sv: Service, m: Message)
    requires Conserved(sv)
    ensures Conserved(WithQueue(sv, Pushed(sv.queue, m).queue).(pushed := sv.pushed + [m]))
  {
    var pushed := Pushed(sv.queue, m).queue;
    assert pushed.release == sv.queue.release && multiset(pushed.msgs) == multiset(sv.queue.msgs) + multiset{m};
    hide Pushed;
    assert multiset(sv.pushed + [m]) == multiset(sv.pushed) + multiset{m};
  }

  /** Only a push, a pop and a drop touch what Conserved speaks of. */
  lemma OtherKeepsMessages(sv: Service, pc: Pc, a: Action)
    requires At(pc, a) && OnService(a) && Conserved(sv) && !a.Push? && !a.PopMessage? && !a.DropMessage?
    ensures Conserved(LocalStep(sv, pc, a).service)
  {
  }

  /** No step loses or invents a message. */
  lemma StepKeepsMessages(q: nat, sv: Service, pc: Pc, a: Action, refs: nat, deleters: nat, tokens: nat)
    requires Legal(q, sv, pc, a, refs, deleters, tokens) && Conserved(sv)
    ensures Conserved(LocalStep(sv, pc, a).service)
  {
    if a.Push? {
      hide Conserved;
      PushKeepsMessages(sv, pc.msg);
    } else if a.PopMessage? || a.DropMessage? {
      if sv.queue.msgs != [] {
        hide Conserved;
        PopKeepsMessages(sv);
      }
    } else {
      hide Conserved;
      OtherKeepsMessages(sv, pc, a);
    }
  }

  /** The invariant makes every enabled step legal. */
  lemma EnabledIsLegal(s: State, a: Action)
    requires Inv(s) && Enabled(s, a) && OnService(a)
    ensures var pc := s.threads[a.t];
            var q := Target(pc, a);
            Legal(q, s.services[q], pc, a, Refs(s, q), Deleters(s, q), Tokens(s, q))
  {
    var pc := s.threads[a.t];
    var q := Target(pc, a);
    assert ServiceOk(s.services[q], Refs(s, q), Deleters(s, q), Tokens(s, q));
    DispatchingHolder(s, q);
    if !pc.Idle? {
      ThreadFacts(s, a.t);
      if a.GrabContext? {
        FoundIsOwn(s, pc.q, a.found);
      } else if a.GrabNothing? {
        assert !Finds(s, pc.q, pc.q);
      }
    }
  }

  lemma ServiceStepKeepsInv(s: State, a: Action)
    requires Inv(s) && Enabled(s, a) && OnService(a)
    ensures Inv(Do(s, a))
  {
    var pc := s.threads[a.t];
    var q := Target(pc, a);
    hide LocalStep;
    var r := LocalStep(s.services[q], pc, a);
    EnabledIsLegal(s, a);
    LegalFits(q, s.services[q], pc, a, Refs(s, q), Deleters(s, q), Tokens(s, q));
    StepKeepsMessages(q, s.services[q], pc, a, Refs(s, q), Deleters(s, q), Tokens(s, q));
    UpdateKeepsInv(s, a.t, r.pc, q, r.service, r.wake);
  }

  // ----- A new service -----

  lemma {:induction false} NewServiceCounts(s: State, s': State, t: nat, q: nat)
    requires Inv(s) && t < |s.threads| && s.threads[t].Idle? && s'.threads == s.threads[t := Initing(|s.services|)]
    requires s'.global == s.global && q <= |s.services|
    ensures q < |s.services| ==>
              Refs(s', q) == Refs(s, q) && Deleters(s', q) == Deleters(s, q) && Tokens(s', q) == Tokens(s, q)
    ensures q == |s.services| ==> Refs(s', q) == 1 && Deleters(s', q) == 0 && Tokens(s', q) == 1
  {
    CountUpdate(s.threads, t, Initing(|s.services|), RefHolder(q));
    CountUpdate(s.threads, t, Initing(|s.services|), Deleter(q));
    CountUpdate(s.threads, t, Initing(|s.services|), TokenHolder(q));
    if q == |s.services| {
      assert forall u :: 0 <= u < |s.threads| ==> InRange(s, s.threads[u]);
      CountNone(s.threads, RefHolder(q));
      CountNone(s.threads, Deleter(q));
      CountNone(s.threads, TokenHolder(q));
      CountNone(s.global, Entry(q));
    }
  }

  lemma CreateKeepsCounts(s: State, a: Action)
    requires Inv(s) && Enabled(s, a) && a.Create?
    ensures CountsOk(Do(s, a))
  {
    var s' := Do(s, a);
    forall q | 0 <= q < |s'.services|
      ensures ServiceOk(s'.services[q], Refs(s', q), Deleters(s', q), Tokens(s', q))
    {
      NewServiceCounts(s, s', a.t, q);
      if q < |s.services| {
        assert ServiceOk(s.services[q], Refs(s, q), Deleters(s, q), Tokens(s, q));
      }
    }
  }

  lemma CreateKeepsThreads(s: State, a: Action)
    requires ThreadsOk(s) && Enabled(s, a) && a.Create?
    ensures ThreadsOk(Do(s, a))
  {
    var s' := Do(s, a);
    forall u | 0 <= u < |s'.threads|
      ensures InRange(s', s'.threads[u])
      ensures !s'.threads[u].Idle? ==> PcOk(s'.services[s'.threads[u].q], s'.threads[u])
    {
      assert u != a.t ==> InRange(s, s.threads[u]);
    }
  }

  lemma CreateKeepsInv(s: State, a: Action)
    requires Inv(s) && Enabled(s, a) && a.Create?
    ensures Inv(Do(s, a))
  {
    CreateKeepsCounts(s, a);
    CreateKeepsThreads(s, a);
  }

  /** The invariant is kept by every step. */
  lemma StepKeepsInv(s: State, a: Action)
    requires Inv(s) && Enabled(s, a)
    ensures Inv(Do(s, a))
  {
    if a.PopGlobal? {
      PopGlobalKeepsInv(s, a);
    } else if a.Create? {
      CreateKeepsInv(s, a);
    } else {
      ServiceStepKeepsInv(s, a);
    }
  }

  lemma FactsAssert(q: nat, sv: Service, pc: Pc, a: Action, refs: nat, deleters: nat, tokens: nat)
    requires Facts(q, sv, pc, refs, deleters, tokens) && At(pc, a)
    ensures LocalAsserts(sv, sv, pc, a)
  {
  }

  /** In a state that satisfies the invariant, no assert of the protocol can fail. */
  lemma AssertsNeverFail(s: State, a: Action)
    requires Inv(s) && Enabled(s, a)
    ensures AssertsHold(s, a)
  {
    var pc := s.threads[a.t];
    if !pc.Idle? {
      ThreadFacts(s, a.t);
      FactsAssert(pc.q, s.services[pc.q], pc, a, Refs(s, pc.q), Deleters(s, pc.q), Tokens(s, pc.q));
    }
  }
}
