/**
 From every state of every run, the workers can get to the head message of a
 service that is waiting to be dispatched: no state is a dead end for it.
 */
module SchedulerProgress {
  import opened MessageQueues
  import opened Scheduler
  import opened SchedulerInvariant
  import opened SchedulerSteps
  import opened SchedulerRuns
  import opened Sequences

  /**
   The steps of threads that go on with what they have begun: workers through
   their loop, senders to the push, creators through a launch that succeeds or
   has failed.  Nobody sends, draws, locks, creates or retires anything anew.
   */
  predicate Works(a: Action) {
    && !a.NewSession? && !a.LockSession? && !a.UnlockSession? && !a.StartSend? && !a.Touch?
    && !a.Retire? && !a.Create? && !a.InitFails?
  }

  /** These steps lead from s to s'. */
  ghost predicate Path(s: State, actions: seq<Action>, s': State)
    decreases |actions|
  {
    if actions == [] then s' == s
    else Works(actions[0]) && Enabled(s, actions[0]) && Path(Do(s, actions[0]), actions[1..], s')
  }

  ghost predicate Reaches(s: State, s': State) {
    exists actions :: Path(s, actions, s')
  }

  lemma ReachesSelf(s: State)
    ensures Reaches(s, s)
  {
    assert Path(s, [], s);
  }

  /** One step more in front. */
  lemma StepReaches(s: State, a: Action, s': State)
    requires Works(a) && Enabled(s, a) && Reaches(Do(s, a), s')
    ensures Reaches(s, s')
  {
    var actions :| Path(Do(s, a), actions, s');
    assert ([a] + actions)[1..] == actions;
    assert Path(s, [a] + actions, s');
  }

  lemma {:induction false} PathsJoin(s: State, first: seq<Action>, mid: State, more: seq<Action>, s': State)
    requires Path(s, first, mid) && Path(mid, more, s')
    ensures Path(s, first + more, s')
    decreases |first|
  {
    hide Do, Enabled, Works;
    if first == [] {
      assert first + more == more;
    } else {
      assert (first + more)[1..] == first[1..] + more;
      PathsJoin(Do(s, first[0]), first[1..], mid, more, s');
    }
  }

  lemma ReachesOn(s: State, mid: State, s': State)
    requires Reaches(s, mid) && Reaches(mid, s')
    ensures Reaches(s, s')
  {
    var first :| Path(s, first, mid);
    var more :| Path(mid, more, s');
    PathsJoin(s, first, mid, more, s');
  }

  // ----- Any thread can finish -----

  /** What a thread that is not idle does next. */
  function Next(s: State, t: nat): Action
    requires t < |s.threads| && s.threads[t] != Idle && s.threads[t].q < |s.services|
  {
    match s.threads[t]
    case GotQueue(x) => if s.services[x].inTable then GrabContext(t, x) else GrabNothing(t)
    case NoContext(_) => ReleaseQueue(t)
    case HasContext(_, _) => PopMessage(t)
    case Dispatching(_, _) => Return(t)
    case Unref(_, _) => DropReference(t)
    case Deleting(_, _) => MarkReleased(t)
    case Dropping(_) => DropMessage(t)
    case Freeing(_) => FreeQueue(t)
    case Sending(_, _) => Push(t)
    case Initing(_) => InitSucceeds(t)
    case Launched(_) => SetInit(t)
    case Publishing(_) => Publish(t)
    case Aborting(_) => RetireOwn(t)
  }

  /** How far it is from being idle. */
  function Rank(pc: Pc): nat {
    match pc
    case Initing(_) => 17
    case Unref(_, after) => if after.Launch? then 16 else if after.Done? then 6 else 12
    case Deleting(_, after) =>
      match after {
        case Launch => 15
        case Abort => 11
        case Retired => 9
        case Done => 5
      }
    case Launched(_) => 14
    case Publishing(_) => 13
    case Aborting(_) => 10
    case Sending(_, _) => 10
    case GotQueue(_) => 9
    case HasContext(_, _) => 8
    case Dispatching(_, _) => 7
    case NoContext(_) => 4
    case Dropping(_) => 3
    case Freeing(_) => 2
    case Idle => 0
  }

  lemma NextEnabled(s: State, t: nat)
    requires Inv(s) && t < |s.threads| && s.threads[t] != Idle
    ensures InRange(s, s.threads[t])
    ensures var a := Next(s, t);
            Works(a) && a.t == t && OnService(a) && Enabled(s, a) && Target(s.threads[t], a) == s.threads[t].q
  {
    ThreadFacts(s, t);
    var x := s.threads[t].q;
    if s.threads[t].GotQueue? && !s.services[x].inTable {
      forall c | 0 <= c < |s.services| && Finds(s, x, c)
        ensures false
      {
        FoundIsOwn(s, x, c);
      }
    }
  }

  /** The step brings it nearer to being idle. */
  lemma NextProgresses(s: State, t: nat)
    requires Inv(s) && t < |s.threads| && s.threads[t] != Idle
    ensures InRange(s, s.threads[t])
    ensures var pc, a := s.threads[t], Next(s, t);
            && At(pc, a) && OnService(a)
            && var r := LocalStep(s.services[pc.q], pc, a);
               && (r.pc == Idle || r.pc.q == pc.q)
               && (Rank(r.pc) < Rank(pc)
                   || (r.pc == pc && |r.service.queue.msgs| < |s.services[pc.q].queue.msgs|))
  {
    NextEnabled(s, t);
    ThreadFacts(s, t);
  }

  /** Apart from the thread, its queue and new entries in the global queue, nothing changed. */
  ghost predicate Elsewhere(s: State, s': State, t: nat)
    requires t < |s.threads| && s.threads[t] != Idle
  {
    && |s'.threads| == |s.threads| && s'.threads == s.threads[t := s'.threads[t]]
    && s.global <= s'.global && |s.services| == |s'.services|
    && forall q :: 0 <= q < |s.services| && q != s.threads[t].q ==> s'.services[q] == s.services[q]
  }

  lemma ElsewhereOn(s: State, mid: State, s': State, t: nat)
    requires t < |s.threads| && s.threads[t] != Idle && Elsewhere(s, mid, t)
    requires t < |mid.threads| && mid.threads[t] != Idle && mid.threads[t].q == s.threads[t].q && Elsewhere(mid, s', t)
    ensures Elsewhere(s, s', t)
  {
  }

  /** The state after that step. */
  lemma NextStep(s: State, t: nat) returns (mid: State)
    requires Inv(s) && t < |s.threads| && s.threads[t] != Idle
    ensures InRange(s, s.threads[t]) && Works(Next(s, t)) && Enabled(s, Next(s, t)) && mid == Do(s, Next(s, t))
    ensures Inv(mid) && Elsewhere(s, mid, t)
    ensures var x := s.threads[t].q;
            && (mid.threads[t] == Idle || mid.threads[t].q == x)
            && (Rank(mid.threads[t]) < Rank(s.threads[t])
                || (mid.threads[t] == s.threads[t]
                    && |mid.services[x].queue.msgs| < |s.services[x].queue.msgs|))
    ensures var x, a := s.threads[t].q, Next(s, t);
            && At(s.threads[t], a) && OnService(a)
            && var r := LocalStep(s.services[x], s.threads[t], a);
               mid == Update(s, t, r.pc, x, r.service, r.wake)
  {
    hide LocalStep, Inv;
    NextEnabled(s, t);
    NextProgresses(s, t);
    DoOnService(s, Next(s, t));
    StepKeepsInv(s, Next(s, t));
    mid := Do(s, Next(s, t));
  }

  /** A thread can finish what it is about without touching any queue but its own. */
  lemma {:induction false} Finishes(s: State, t: nat) returns (s': State)
    requires Inv(s) && t < |s.threads| && s.threads[t] != Idle
    ensures Reaches(s, s') && Inv(s') && Elsewhere(s, s', t) && s'.threads[t] == Idle
    decreases
      Rank(s.threads[t]),
      if s.threads[t].q < |s.services| then |s.services[s.threads[t].q].queue.msgs| else 0
  {
    var mid := NextStep(s, t);
    assert |mid.threads| == |s.threads|;
    hide LocalStep, Inv, Do, Elsewhere, Enabled, Works;
    if mid.threads[t] == Idle {
      s' := mid;
      ReachesSelf(s');
    } else {
      s' := Finishes(mid, t);
      ElsewhereOn(s, mid, s', t);
    }
    StepReaches(s, Next(s, t), s');
  }

  // ----- The queue itself -----

  /** Service q is not retired, and m heads its queue with no session lock. */
  predicate Waiting(s: State, q: nat, m: Message) {
    && q < |s.services| && s.services[q].inTable
    && s.services[q].queue.msgs != [] && s.services[q].queue.msgs[0] == m && s.services[q].queue.lockSession == 0
  }

  /** A worker that has q in hand takes the message. */
  lemma HolderTakes(s: State, u: nat, q: nat, m: Message) returns (s': State)
    requires Inv(s) && Waiting(s, q, m) && u < |s.threads|
    requires s.threads[u] == GotQueue(q) || s.threads[u] == HasContext(q, q)
    ensures Reaches(s, s') && q < |s'.services| && s'.services[q].taken == s.services[q].taken + [m]
    decreases s.threads[u].GotQueue?
  {
    NextEnabled(s, u);
    var a := Next(s, u);
    DoOnService(s, a);
    if s.threads[u].GotQueue? {
      StepKeepsInv(s, a);
      s' := HolderTakes(Do(s, a), u, q, m);
    } else {
      s' := Do(s, a);
      ReachesSelf(s');
    }
    StepReaches(s, a, s');
  }

  lemma PopEnabled(s: State, t: nat)
    requires Inv(s) && t < |s.threads| && s.threads[t] == Idle && s.global != []
    ensures Enabled(s, PopGlobal(t))
  {
    assert s.global[0] < |s.services|;
  }

  /** An idle worker takes the queues before q, finishes with each, and gets to q. */
  lemma {:induction false} IdleGetsThere(s: State, t: nat, q: nat, m: Message, i: nat) returns (s': State)
    requires Inv(s) && Waiting(s, q, m) && t < |s.threads| && s.threads[t] == Idle
    requires i < |s.global| && s.global[i] == q && forall k :: 0 <= k < i ==> s.global[k] != q
    ensures Reaches(s, s') && q < |s'.services| && s'.services[q].taken == s.services[q].taken + [m]
    decreases i
  {
    hide Inv;
    PopEnabled(s, t);
    var mid := Do(s, PopGlobal(t));
    StepKeepsInv(s, PopGlobal(t));
    if i == 0 {
      s' := HolderTakes(mid, t, q, m);
    } else {
      var rest := Finishes(mid, t);
      assert forall k :: 0 <= k < i ==> rest.global[k] == s.global[k + 1];
      s' := IdleGetsThere(rest, t, q, m, i - 1);
      ReachesOn(mid, rest, s');
    }
    StepReaches(s, PopGlobal(t), s');
  }

  /** The creator of service q has seen its init function fail. */
  predicate Fails(pc: Pc, q: nat) {
    match pc
    case Unref(x, after) => x == q && after.Abort?
    case Deleting(x, after) => x == q && after.Abort?
    case Aborting(x) => x == q
    case _ => false
  }

  /** It is launching the service. */
  predicate Launches(pc: Pc, q: nat) {
    pc == Initing(q) || pc == Unref(q, Launch) || pc == Launched(q) || pc == Publishing(q)
  }

  /** Who has the token of a waiting queue: a worker, or the creator. */
  lemma WaitingHolder(s: State, u: nat, q: nat, m: Message)
    requires Inv(s) && Waiting(s, q, m) && u < |s.threads| && HoldsToken(s.threads[u], q) && !Fails(s.threads[u], q)
    ensures var pc := s.threads[u];
            pc == GotQueue(q) || pc == HasContext(q, q) || pc == Dispatching(q, q) || Launches(pc, q)
  {
    ThreadFacts(s, u);
  }

  /** Its token is in the global queue or with a thread. */
  lemma WaitingToken(s: State, q: nat, m: Message)
    requires Inv(s) && Waiting(s, q, m)
    ensures (exists u :: 0 <= u < |s.threads| && HoldsToken(s.threads[u], q)) || q in s.global
  {
    assert ServiceOk(s.services[q], Refs(s, q), Deleters(s, q), Tokens(s, q));
    if Count(s.threads, TokenHolder(q)) > 0 {
      var u := CountWitness(s.threads, TokenHolder(q));
      assert HoldsToken(s.threads[u], q);
    } else {
      var i := CountWitness(s.global, Entry(q));
      assert s.global[i] == q;
    }
  }

  lemma FirstEntry(global: seq<nat>, q: nat) returns (i: nat)
    requires q in global
    ensures i < |global| && global[i] == q && forall k :: 0 <= k < i ==> global[k] != q
  {
    i := 0;
    while global[i] != q
      invariant i < |global| && q in global[i..] && forall k :: 0 <= k < i ==> global[k] != q
      decreases |global| - i
    {
      i := i + 1;
    }
  }

  lemma HolderStep(q: nat, sv: Service, pc: Pc, a: Action, refs: nat, deleters: nat, tokens: nat)
    requires Legal(q, sv, pc, a, refs, deleters, tokens)
    requires sv.inTable && sv.queue.msgs != [] && sv.queue.lockSession == 0
    requires (pc == Dispatching(q, q) && a.Return?) || (pc == Publishing(q) && a.Publish?)
             || (Launches(pc, q) && (a.InitSucceeds? || a.DropReference? || a.SetInit?))
    ensures var r := LocalStep(sv, pc, a);
            && r.service.inTable && r.service.queue.msgs == sv.queue.msgs && r.service.queue.lockSession == 0
            && r.service.taken == sv.taken
            && (r.wake <==> a.Return? || a.Publish?) && (!r.wake ==> Launches(r.pc, q))
  {
  }

  /** One step of a callback's return or of a launch. */
  lemma HolderGoesOn(s: State, u: nat, q: nat, m: Message) returns (a: Action, mid: State)
    requires Inv(s) && Waiting(s, q, m) && u < |s.threads|
    requires s.threads[u] == Dispatching(q, q) || Launches(s.threads[u], q)
    ensures Works(a) && Enabled(s, a) && mid == Do(s, a)
    ensures Inv(mid) && Waiting(mid, q, m) && q < |mid.services|
    ensures q < |s.services| && mid.services[q].taken == s.services[q].taken
    ensures |mid.threads| == |s.threads| && mid.threads == s.threads[u := mid.threads[u]]
    ensures q in mid.global || (Launches(mid.threads[u], q) && Rank(mid.threads[u]) < Rank(s.threads[u]))
  {
    hide LocalStep, Inv, Legal, Do, Elsewhere;
    a := Next(s, u);
    mid := NextStep(s, u);
    EnabledIsLegal(s, a);
    HolderStep(q, s.services[q], s.threads[u], a, Refs(s, q), Deleters(s, q), Tokens(s, q));
    assert a.Return? || a.Publish? ==> mid.global == s.global + [q];
  }

  /** A callback's return, or the rest of a launch, puts q on the global queue. */
  lemma {:induction false} HolderPublishes(s: State, u: nat, q: nat, m: Message) returns (s': State)
    requires Inv(s) && Waiting(s, q, m) && u < |s.threads|
    requires s.threads[u] == Dispatching(q, q) || Launches(s.threads[u], q)
    ensures Reaches(s, s') && Inv(s') && Waiting(s', q, m) && q in s'.global
    ensures s'.services[q].taken == s.services[q].taken
    ensures |s'.threads| == |s.threads| && s'.threads == s.threads[u := s'.threads[u]]
    decreases Rank(s.threads[u])
  {
    hide *;
    var a, mid := HolderGoesOn(s, u, q, m);
    if q in mid.global {
      s' := mid;
      ReachesSelf(s');
    } else {
      s' := HolderPublishes(mid, u, q, m);
    }
    StepReaches(s, a, s');
  }

  lemma WaitingIsTaken(s: State, t: nat, q: nat, m: Message) returns (s': State)
    requires Inv(s) && Waiting(s, q, m) && t < |s.threads| && s.threads[t] == Idle
    requires forall u :: 0 <= u < |s.threads| ==> !Fails(s.threads[u], q)
    ensures Reaches(s, s') && q < |s'.services| && s'.services[q].taken == s.services[q].taken + [m]
  {
    hide Inv, Waiting, LocalStep, Do;
    WaitingToken(s, q, m);
    if q in s.global {
      var i := FirstEntry(s.global, q);
      s' := IdleGetsThere(s, t, q, m, i);
    } else {
      var u :| 0 <= u < |s.threads| && HoldsToken(s.threads[u], q);
      WaitingHolder(s, u, q, m);
      if s.threads[u] == GotQueue(q) || s.threads[u] == HasContext(q, q) {
        s' := HolderTakes(s, u, q, m);
      } else {
        var mid := HolderPublishes(s, u, q, m);
        var i := FirstEntry(mid.global, q);
        s' := IdleGetsThere(mid, t, q, m, i);
        ReachesOn(s, mid, s');
      }
    }
  }

  /**
   At any time of any run with an idle worker, the threads can bring the head
   message of a service to its callback by going on with what they have begun,
   if the service is not retired, not locked, and its launch has not failed.
   */
  lemma HeadCanBeDispatched(states: seq<State>, actions: seq<Action>, i: nat, t: nat, q: nat, m: Message)
    requires IsRun(states, actions) && i < |states| && Waiting(states[i], q, m)
    requires t < |states[i].threads| && states[i].threads[t] == Idle
    requires forall u :: 0 <= u < |states[i].threads| ==> !Fails(states[i].threads[u], q)
    ensures exists s' ::
              && Reaches(states[i], s') && q < |s'.services|
              && s'.services[q].taken == states[i].services[q].taken + [m]
  {
    RunKeepsInv(states, actions, i);
    var s' := WaitingIsTaken(states[i], t, q, m);
  }

  // ----- The queue of a retired service can be freed -----

  /** Off the table stays off the table, and freed stays freed. */
  lemma {:induction false} PathRetires(s: State, actions: seq<Action>, s': State, q: nat)
    requires Path(s, actions, s') && q < |s.services|
    ensures q < |s'.services|
    ensures (s'.services[q].inTable ==> s.services[q].inTable) && s.services[q].frees <= s'.services[q].frees
    decreases |actions|
  {
    if actions != [] {
      StepRetires(s, actions[0], q);
      PathRetires(Do(s, actions[0]), actions[1..], s', q);
    }
  }

  lemma ReachesRetires(s: State, s': State, q: nat)
    requires Reaches(s, s') && q < |s.services|
    ensures q < |s'.services|
    ensures (s'.services[q].inTable ==> s.services[q].inTable) && s.services[q].frees <= s'.services[q].frees
  {
    var actions :| Path(s, actions, s');
    PathRetires(s, actions, s', q);
  }

  function NotIdle(): Pc -> bool { pc => pc != Idle }

  lemma {:induction false} AllFinish(s: State) returns (s': State)
    requires Inv(s)
    ensures Reaches(s, s') && Inv(s') && |s'.threads| == |s.threads|
    ensures forall t :: 0 <= t < |s'.threads| ==> s'.threads[t] == Idle
    decreases Count(s.threads, NotIdle())
  {
    hide Inv;
    if t :| 0 <= t < |s.threads| && s.threads[t] != Idle {
      var mid := Finishes(s, t);
      CountUpdate(s.threads, t, Idle, NotIdle());
      assert mid.threads == s.threads[t := Idle];
      s' := AllFinish(mid);
      ReachesOn(s, mid, s');
    } else {
      s' := s;
      ReachesSelf(s);
    }
  }

  /** With all threads idle, an unfreed queue without a handle is released and in the global queue. */
  lemma OnlyInGlobal(s: State, q: nat)
    requires Inv(s) && q < |s.services| && !s.services[q].inTable && s.services[q].frees == 0
    requires forall t :: 0 <= t < |s.threads| ==> s.threads[t] == Idle
    ensures s.services[q].queue.release && q in s.global
  {
    assert ServiceOk(s.services[q], Refs(s, q), Deleters(s, q), Tokens(s, q));
    CountNone(s.threads, RefHolder(q));
    CountNone(s.threads, Deleter(q));
    CountNone(s.threads, TokenHolder(q));
    var i := CountWitness(s.global, Entry(q));
    assert s.global[i] == q;
  }

  /** The thread is on its way to free q. */
  predicate Frees(pc: Pc, q: nat) {
    pc == GotQueue(q) || pc == NoContext(q) || pc == Dropping(q) || pc == Freeing(q)
  }

  predicate Released(s: State, q: nat) {
    q < |s.services| && !s.services[q].inTable && s.services[q].queue.release && s.services[q].frees == 0
  }

  lemma LocalFrees(q: nat, sv: Service, pc: Pc, a: Action)
    requires Frees(pc, q) && At(pc, a) && OnService(a)
    requires a.GrabNothing? || a.ReleaseQueue? || a.DropMessage? || a.FreeQueue?
    requires !sv.inTable && sv.queue.release && sv.frees == 0
    ensures var r := LocalStep(sv, pc, a);
            if pc.Freeing? then r.service.frees == 1
            else
              && Frees(r.pc, q) && !r.service.inTable && r.service.queue.release && r.service.frees == 0
              && (Rank(r.pc) < Rank(pc)
                  || (r.pc == pc && |r.service.queue.msgs| < |sv.queue.msgs|))
  {
  }

  lemma FreeStep(s: State, t: nat, q: nat) returns (a: Action, mid: State)
    requires Inv(s) && t < |s.threads| && Frees(s.threads[t], q) && Released(s, q)
    ensures Works(a) && Enabled(s, a) && mid == Do(s, a) && Inv(mid) && t < |mid.threads|
    ensures q < |s.services| && q < |mid.services|
    ensures if s.threads[t].Freeing? then mid.services[q].frees == 1
            else
              && Frees(mid.threads[t], q) && Released(mid, q)
              && (Rank(mid.threads[t]) < Rank(s.threads[t])
                  || (mid.threads[t] == s.threads[t]
                      && |mid.services[q].queue.msgs| < |s.services[q].queue.msgs|))
  {
    hide LocalStep, Inv, Do, Elsewhere;
    a := Next(s, t);
    mid := NextStep(s, t);
    LocalFrees(q, s.services[q], s.threads[t], a);
  }

  lemma {:induction false} HolderFrees(s: State, t: nat, q: nat) returns (s': State)
    requires Inv(s) && t < |s.threads| && Frees(s.threads[t], q) && Released(s, q)
    ensures Reaches(s, s') && q < |s'.services| && s'.services[q].frees == 1
    decreases Rank(s.threads[t]), if q < |s.services| then |s.services[q].queue.msgs| else 0
  {
    hide *;
    var a, mid := FreeStep(s, t, q);
    if s.threads[t].Freeing? {
      s' := mid;
      ReachesSelf(s');
    } else {
      s' := HolderFrees(mid, t, q);
    }
    StepReaches(s, a, s');
  }

  /** An idle worker takes the queues before q, finishes with each, and frees q. */
  lemma {:induction false} IdleFrees(s: State, t: nat, q: nat, i: nat) returns (s': State)
    requires Inv(s) && Released(s, q) && t < |s.threads| && s.threads[t] == Idle
    requires i < |s.global| && s.global[i] == q && forall k :: 0 <= k < i ==> s.global[k] != q
    ensures Reaches(s, s') && q < |s'.services| && s'.services[q].frees == 1
    decreases i
  {
    hide Inv;
    PopEnabled(s, t);
    var mid := Do(s, PopGlobal(t));
    StepKeepsInv(s, PopGlobal(t));
    if i == 0 {
      s' := HolderFrees(mid, t, q);
    } else {
      var rest := Finishes(mid, t);
      assert forall k :: 0 <= k < i ==> rest.global[k] == s.global[k + 1];
      s' := IdleFrees(rest, t, q, i - 1);
      ReachesOn(mid, rest, s');
    }
    StepReaches(s, PopGlobal(t), s');
  }

  lemma RetiredIsFreed(s: State, q: nat) returns (s': State)
    requires Inv(s) && q < |s.services| && !s.services[q].inTable && |s.threads| > 0
    ensures Reaches(s, s') && q < |s'.services| && s'.services[q].frees == 1
  {
    var mid := AllFinish(s);
    ReachesRetires(s, mid, q);
    if mid.services[q].frees == 0 {
      OnlyInGlobal(mid, q);
      var i := FirstEntry(mid.global, q);
      s' := IdleFrees(mid, 0, q, i);
      ReachesOn(s, mid, s');
    } else {
      assert ServiceOk(mid.services[q], Refs(mid, q), Deleters(mid, q), Tokens(mid, q));
      s' := mid;
    }
  }

  /**
   No queue leaks: at any time of any run, once a service is off the table, the
   threads can free its queue by going on with what they have begun.
   */
  lemma RetiredCanBeFreed(states: seq<State>, actions: seq<Action>, i: nat, q: nat)
    requires IsRun(states, actions) && i < |states| && |states[i].threads| > 0
    requires q < |states[i].services| && !states[i].services[q].inTable
    ensures exists s' :: Reaches(states[i], s') && q < |s'.services| && s'.services[q].frees == 1
  {
    RunKeepsInv(states, actions, i);
    var s' := RetiredIsFreed(states[i], q);
  }

  lemma LocalFails(q: nat, sv: Service, pc: Pc, a: Action)
    requires Fails(pc, q) && At(pc, a) && OnService(a)
    requires a.DropReference? || a.MarkReleased? || a.RetireOwn?
    ensures var r := LocalStep(sv, pc, a);
            if pc.Aborting? then !r.service.inTable else Fails(r.pc, q) && Rank(r.pc) < Rank(pc)
  {
  }

  lemma FailureStep(s: State, u: nat, q: nat) returns (a: Action, mid: State)
    requires Inv(s) && u < |s.threads| && Fails(s.threads[u], q)
    ensures Works(a) && Enabled(s, a) && mid == Do(s, a) && Inv(mid) && |mid.threads| == |s.threads|
    ensures q < |mid.services|
    ensures if s.threads[u].Aborting? then !mid.services[q].inTable
            else Fails(mid.threads[u], q) && Rank(mid.threads[u]) < Rank(s.threads[u])
  {
    hide LocalStep, Inv, Do, Elsewhere;
    mid := NextStep(s, u);
    a := Next(s, u);
    LocalFails(q, s.services[q], s.threads[u], a);
  }

  /** A creator whose init function failed takes its service off the table. */
  lemma {:induction false} FailureRetires(s: State, u: nat, q: nat) returns (s': State)
    requires Inv(s) && u < |s.threads| && Fails(s.threads[u], q)
    ensures Reaches(s, s') && Inv(s') && q < |s'.services| && !s'.services[q].inTable
    ensures |s'.threads| == |s.threads|
    decreases Rank(s.threads[u])
  {
    hide *;
    var a, mid := FailureStep(s, u, q);
    if s.threads[u].Aborting? {
      s' := mid;
      ReachesSelf(s');
    } else {
      s' := FailureRetires(mid, u, q);
    }
    StepReaches(s, a, s');
  }

  /** Nor does one whose launch has failed. */
  lemma FailedCanBeFreed(states: seq<State>, actions: seq<Action>, i: nat, u: nat, q: nat)
    requires IsRun(states, actions) && i < |states| && u < |states[i].threads| && Fails(states[i].threads[u], q)
    ensures exists s' :: Reaches(states[i], s') && q < |s'.services| && s'.services[q].frees == 1
  {
    RunKeepsInv(states, actions, i);
    var mid := FailureRetires(states[i], u, q);
    var s' := RetiredIsFreed(mid, q);
    ReachesOn(states[i], mid, s');
  }

  // ----- A failed launch -----

  predicate WorksOn(pc: Pc, q: nat) {
    (pc.HasContext? || pc.Dispatching?) && pc.c == q
  }

  /** No worker has got at service q, and its creator t is about to retire it, unless that is done. */
  ghost predicate Doomed(s: State, t: nat, q: nat) {
    && t < |s.threads| && q < |s.services| && (Fails(s.threads[t], q) || !s.services[q].inTable)
    && forall u :: 0 <= u < |s.threads| ==> !WorksOn(s.threads[u], q)
  }

  lemma LocalDoomed(q: nat, sv: Service, pc: Pc, a: Action)
    requires At(pc, a) && OnService(a) && !WorksOn(pc, q) && (a.PopMessage? ==> pc.q == pc.c)
    ensures var r := LocalStep(sv, pc, a);
            && (a.PopMessage? ==> pc.q != q)
            && (WorksOn(r.pc, q) ==> a.GrabContext? && a.found == q)
            && (Fails(pc, q) ==> Fails(r.pc, q) || (a.RetireOwn? && pc.q == q))
  {
  }

  /** Nobody can find a doomed service: it is off the table, or its token is the creator's. */
  lemma DoomedUnfound(s: State, a: Action, t: nat, q: nat)
    requires Inv(s) && Enabled(s, a) && Doomed(s, t, q)
    ensures !(a.GrabContext? && a.found == q)
  {
    if a.GrabContext? && a.found == q {
      ThreadFacts(s, a.t);
      FoundIsOwn(s, s.threads[a.t].q, q);
      OneToken(s, q);
      SoleHolder(s, a.t, q);
    }
  }

  /** What the acting thread does to a doomed service q. */
  lemma DoomedStep(s: State, a: Action, t: nat, q: nat)
    requires Inv(s) && Enabled(s, a) && Doomed(s, t, q)
    ensures |Do(s, a).threads| == |s.threads| && q < |Do(s, a).services|
    ensures var pc, pc' := s.threads[a.t], Do(s, a).threads[a.t];
            && Do(s, a).threads == s.threads[a.t := pc'] && !WorksOn(pc', q)
            && (Fails(pc, q) ==> Fails(pc', q) || (a.RetireOwn? && Acts(s, a, q)))
            && (Acts(s, a, q) ==> !a.PopMessage?)
  {
    hide LocalStep, Inv, Do;
    DoomedUnfound(s, a, t, q);
    if OnService(a) {
      DoOnService(s, a);
      PopsOwn(s, a);
      LocalDoomed(q, s.services[Target(s.threads[a.t], a)], s.threads[a.t], a);
    } else {
      OffService(s, a);
    }
  }

  lemma PopsOwn(s: State, a: Action)
    requires Inv(s) && Enabled(s, a)
    ensures a.PopMessage? ==> s.threads[a.t].q == s.threads[a.t].c
  {
    if a.PopMessage? {
      ThreadFacts(s, a.t);
    }
  }

  lemma OffService(s: State, a: Action)
    requires Enabled(s, a) && !OnService(a)
    ensures s.threads[a.t] == Idle && |s.services| <= |Do(s, a).services|
    ensures var pc := Do(s, a).threads[a.t];
            Do(s, a).threads == s.threads[a.t := pc] && (pc.GotQueue? || pc.Initing?)
  {
  }

  lemma LocalTaken(sv: Service, pc: Pc, a: Action)
    requires At(pc, a) && OnService(a) && !a.PopMessage?
    ensures LocalStep(sv, pc, a).service.taken == sv.taken
  {
  }

  lemma StaysDoomed(s: State, a: Action, t: nat, q: nat)
    requires Inv(s) && Enabled(s, a) && Doomed(s, t, q)
    ensures Doomed(Do(s, a), t, q) && Do(s, a).services[q].taken == s.services[q].taken
  {
    hide LocalStep, Inv, Do;
    DoomedStep(s, a, t, q);
    StepRetires(s, a, q);
    StepElsewhere(s, a, q);
    if Acts(s, a, q) {
      LocalTaken(s.services[q], s.threads[a.t], a);
    }
  }

  /**
   On every run, a service whose init function failed never dispatches anything,
   and it is off the table by the time its creator is idle again.
   */
  lemma {:induction false} FailedNeverRuns(states: seq<State>, actions: seq<Action>, i: nat, j: nat, q: nat)
    requires IsRun(states, actions) && i < j < |states|
    requires actions[i].InitFails? && actions[i].t < |states[i].threads|
    requires states[i].threads[actions[i].t] == Initing(q)
    ensures q < |states[i].services| && Doomed(states[j], actions[i].t, q)
    ensures states[j].services[q].taken == states[i].services[q].taken
    ensures states[j].threads[actions[i].t] == Idle ==> !states[j].services[q].inTable
  {
    var t := actions[i].t;
    assert StepAt(states, actions, j - 1);
    RunKeepsInv(states, actions, j - 1);
    if i < j - 1 {
      FailedNeverRuns(states, actions, i, j - 1, q);
      StaysDoomed(states[j - 1], actions[j - 1], t, q);
    } else {
      ThreadFacts(states[i], t);
      OneToken(states[i], q);
      SoleHolder(states[i], t, q);
      NoOtherWorker(states[i], t, q);
    }
  }

  lemma NoOtherWorker(s: State, t: nat, q: nat)
    requires Inv(s) && t < |s.threads| && s.threads[t] == Initing(q)
    ensures forall u :: 0 <= u < |s.threads| ==> !WorksOn(s.threads[u], q)
  {
    forall u | 0 <= u < |s.threads| && WorksOn(s.threads[u], q)
      ensures false
    {
      ThreadFacts(s, u);
      ThreadFacts(s, t);
      OneToken(s, q);
      SoleHolder(s, t, q);
    }
  }
}
