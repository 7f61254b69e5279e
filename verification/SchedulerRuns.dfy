/**
 What the scheduling protocol guarantees on every run: exclusive dispatch, no
 lost wakeup, the lifetime of contexts and queues, and the fate of every message.
 */
module SchedulerRuns {
  import opened MessageQueues
  import opened Scheduler
  import opened SchedulerInvariant
  import opened SchedulerSteps
  import opened Sequences

  ghost predicate StepAt(states: seq<State>, actions: seq<Action>, i: nat)
    requires i < |actions| < |states|
  {
    Enabled(states[i], actions[i]) && states[i + 1] == Do(states[i], actions[i])
  }

  /** A run: the first state is initial and each action leads from one state to the next. */
  ghost predicate IsRun(states: seq<State>, actions: seq<Action>) {
    && |states| == |actions| + 1
    && Init(states[0])
    && forall i {:trigger StepAt(states, actions, i)} :: 0 <= i < |actions| ==> StepAt(states, actions, i)
  }

  lemma {:induction false} RunKeepsInv(states: seq<State>, actions: seq<Action>, i: nat)
    requires IsRun(states, actions) && i < |states|
    ensures Inv(states[i])
  {
    if i > 0 {
      RunKeepsInv(states, actions, i - 1);
      assert StepAt(states, actions, i - 1);
      StepKeepsInv(states[i - 1], actions[i - 1]);
    }
  }

  // ----- Exclusive dispatch and wakeups -----

  lemma OneToken(s: State, q: nat)
    requires Inv(s) && q < |s.services|
    ensures Tokens(s, q) <= 1
  {
    assert ServiceOk(s.services[q], Refs(s, q), Deleters(s, q), Tokens(s, q));
  }

  /** The thread is in the module code of service c, or about to enter it: its callback or its init function. */
  predicate Calls(pc: Pc, c: nat) {
    ((pc.HasContext? || pc.Dispatching?) && pc.c == c) || (pc.Initing? && pc.q == c)
  }

  /** No two threads ever run the code of one service at once. */
  lemma ExclusiveDispatch(states: seq<State>, actions: seq<Action>, i: nat, t: nat, u: nat, c: nat)
    requires IsRun(states, actions) && i < |states|
    requires t < |states[i].threads| && Calls(states[i].threads[t], c)
    requires u < |states[i].threads| && Calls(states[i].threads[u], c)
    ensures t == u
  {
    RunKeepsInv(states, actions, i);
    ThreadFacts(states[i], t);
    ThreadFacts(states[i], u);
    SoleHolder(states[i], t, c);
  }

  /** How many tokens a queue has: the global queue's entries for it plus the threads holding it. */
  lemma TokenCount(states: seq<State>, actions: seq<Action>, i: nat, q: nat)
    requires IsRun(states, actions) && i < |states| && q < |states[i].services|
    ensures var sv, tokens := states[i].services[q], Tokens(states[i], q);
            && tokens <= 1
            && (sv.frees == 1 ==> tokens == 0)
            && (sv.frees == 0 && sv.queue.release ==> tokens == 1)
            && (sv.frees == 0 && (sv.queue.inGlobal == IN_GLOBAL || sv.queue.inGlobal == DISPATCHING) ==> tokens == 1)
            && (!sv.queue.release && (sv.queue.inGlobal == IDLE || sv.queue.inGlobal == LOCKED) ==> tokens == 0)
  {
    RunKeepsInv(states, actions, i);
    assert ServiceOk(states[i].services[q], Refs(states[i], q), Deleters(states[i], q), Tokens(states[i], q));
  }

  /** A queue with messages and no session lock always has a token, until it is freed. */
  lemma NoLostWakeup(states: seq<State>, actions: seq<Action>, i: nat, q: nat)
    requires IsRun(states, actions) && i < |states| && q < |states[i].services|
    requires var sv := states[i].services[q];
             sv.queue.msgs != [] && sv.queue.lockSession == 0 && sv.frees == 0
    ensures Tokens(states[i], q) == 1
  {
    RunKeepsInv(states, actions, i);
    assert ServiceOk(states[i].services[q], Refs(states[i], q), Deleters(states[i], q), Tokens(states[i], q));
  }

  function Unfreed(): Service -> bool { (sv: Service) => sv.frees == 0 }

  /** Distinct indexes of unfreed services are at most as many as those. */
  lemma {:induction false} Pigeonhole(s: seq<nat>, services: seq<Service>)
    requires forall i :: 0 <= i < |s| ==> s[i] < |services| && services[s[i]].frees == 0
    requires forall x: nat :: Count(s, Entry(x)) <= 1
    ensures |s| <= Count(services, Unfreed())
  {
    if services == [] {
      assert s != [] ==> s[0] < 0;
    } else {
      var n := |services| - 1;
      assert services == services[..n] + [services[n]];
      CountConcat(services[..n], [services[n]], Unfreed());
      if n in s {
        var i :| 0 <= i < |s| && s[i] == n;
        WithoutOne(s, i);
        Pigeonhole(s[..i] + s[i + 1..], services[..n]);
      } else {
        Pigeonhole(s, services[..n]);
      }
    }
  }

  lemma WithoutOne(s: seq<nat>, i: nat)
    requires i < |s| && forall x: nat :: Count(s, Entry(x)) <= 1
    ensures var rest := s[..i] + s[i + 1..];
            && (forall x: nat :: Count(rest, Entry(x)) <= 1)
            && forall k :: 0 <= k < |rest| ==> rest[k] != s[i] && rest[k] in s
  {
    var front, back := s[..i], s[i + 1..];
    assert s == front + ([s[i]] + back);
    forall x: nat
      ensures Count(front + back, Entry(x)) == Count(s, Entry(x)) - (if x == s[i] then 1 else 0)
    {
      CountConcat(front, [s[i]] + back, Entry(x));
      CountConcat([s[i]], back, Entry(x));
      CountConcat(front, back, Entry(x));
    }
    forall k | 0 <= k < |front + back|
      ensures (front + back)[k] != s[i]
    {
      if (front + back)[k] == s[i] {
        CountMember(front + back, k, Entry(s[i]));
      }
    }
  }

  /** The global queue never holds more entries than there are queues not yet freed. */
  lemma GlobalQueueBounded(states: seq<State>, actions: seq<Action>, i: nat)
    requires IsRun(states, actions) && i < |states|
    ensures |states[i].global| <= Count(states[i].services, Unfreed())
  {
    RunKeepsInv(states, actions, i);
    var s := states[i];
    forall x: nat
      ensures Count(s.global, Entry(x)) <= 1
    {
      if x < |s.services| {
        assert ServiceOk(s.services[x], Refs(s, x), Deleters(s, x), Tokens(s, x));
      } else {
        CountNone(s.global, Entry(x));
      }
    }
    forall k | 0 <= k < |s.global|
      ensures s.services[s.global[k]].frees == 0
    {
      CountMember(s.global, k, Entry(s.global[k]));
      assert ServiceOk(s.services[s.global[k]], Refs(s, s.global[k]), Deleters(s, s.global[k]), Tokens(s, s.global[k]));
    }
    Pigeonhole(s.global, s.services);
  }

  /** None of the protocol's own asserts can fail on any run. */
  lemma NoAssertFails(states: seq<State>, actions: seq<Action>, i: nat)
    requires IsRun(states, actions) && i < |actions|
    ensures Enabled(states[i], actions[i]) && AssertsHold(states[i], actions[i])
  {
    assert StepAt(states, actions, i);
    RunKeepsInv(states, actions, i);
    AssertsNeverFail(states[i], actions[i]);
  }

  // ----- One step seen from one service -----

  /** The action works on service q. */
  predicate Acts(s: State, a: Action, q: nat)
    requires Enabled(s, a)
  {
    OnService(a) && Target(s.threads[a.t], a) == q
  }

  lemma DoOnService(s: State, a: Action)
    requires Enabled(s, a) && OnService(a)
    ensures var q := Target(s.threads[a.t], a);
            var r := LocalStep(s.services[q], s.threads[a.t], a);
            Do(s, a) == Update(s, a.t, r.pc, q, r.service, r.wake)
  {
    hide LocalStep;
  }

  /** Only the target of a step changes. */
  lemma StepElsewhere(s: State, a: Action, q: nat)
    requires Enabled(s, a) && q < |s.services|
    ensures q < |Do(s, a).services|
    ensures Do(s, a).services[q] ==
            if Acts(s, a, q) then LocalStep(s.services[q], s.threads[a.t], a).service else s.services[q]
  {
    hide LocalStep;
    if OnService(a) {
      DoOnService(s, a);
    }
  }

  /** Only the target of a step changes, and what is known of it there. */
  lemma StepOnService(s: State, a: Action, q: nat)
    requires Inv(s) && Enabled(s, a) && q < |s.services|
    ensures q < |Do(s, a).services|
    ensures var sv, sv' := s.services[q], Do(s, a).services[q];
            if Acts(s, a, q) then
              && sv' == LocalStep(sv, s.threads[a.t], a).service
              && Legal(q, sv, s.threads[a.t], a, Refs(s, q), Deleters(s, q), Tokens(s, q)) && Conserved(sv)
            else sv' == sv
  {
    hide LocalStep, Do, Legal;
    StepElsewhere(s, a, q);
    if Acts(s, a, q) {
      EnabledIsLegal(s, a);
    }
  }

  // ----- The global queue -----

  lemma StepGlobal(s: State, a: Action)
    requires Enabled(s, a)
    ensures if a.PopGlobal? then
              && s.global != [] && Do(s, a).global == s.global[1..] && Do(s, a).threads[a.t] == GotQueue(s.global[0])
            else s.global <= Do(s, a).global
  {
    hide LocalStep;
    if OnService(a) {
      DoOnService(s, a);
    }
  }

  /** How often a queue was taken from the global queue by the actions from i to j. */
  function Pops(actions: seq<Action>, i: nat, j: nat): nat
    requires i <= j <= |actions|
  {
    if i == j then 0 else Pops(actions, i, j - 1) + (if actions[j - 1].PopGlobal? then 1 else 0)
  }

  /** On every run, each pop of the global queue brings each queue in it one place forward. */
  lemma {:induction false} MovesUp(states: seq<State>, actions: seq<Action>, i: nat, j: nat, k: nat)
    requires IsRun(states, actions) && i <= j < |states|
    requires k < |states[i].global| && Pops(actions, i, j) <= k
    ensures k - Pops(actions, i, j) < |states[j].global|
    ensures states[j].global[k - Pops(actions, i, j)] == states[i].global[k]
  {
    if i < j {
      MovesUp(states, actions, i, j - 1, k);
      assert StepAt(states, actions, j - 1);
      StepGlobal(states[j - 1], actions[j - 1]);
      hide Do;
    }
  }

  /** So a queue with k others before it goes to the worker that makes pop number k + 1. */
  lemma PoppedInTurn(states: seq<State>, actions: seq<Action>, i: nat, j: nat, k: nat)
    requires IsRun(states, actions) && i <= j < |actions| && actions[j].PopGlobal?
    requires k < |states[i].global| && Pops(actions, i, j) == k
    ensures actions[j].t < |states[j + 1].threads|
    ensures states[j + 1].threads[actions[j].t] == GotQueue(states[i].global[k])
  {
    MovesUp(states, actions, i, j, k);
    assert StepAt(states, actions, j);
    StepGlobal(states[j], actions[j]);
    hide LocalStep;
  }

  // ----- Lifetimes -----

  predicate TouchesQueue(pc: Pc) {
    || pc.GotQueue? || pc.NoContext? || pc.HasContext? || pc.Dispatching? || pc.Deleting?
    || pc.Dropping? || pc.Freeing? || pc.Sending? || pc.Publishing?
  }

  predicate TouchesContext(pc: Pc) {
    || pc.HasContext? || pc.Dispatching? || pc.Unref? || pc.Deleting? || pc.Sending? || pc.Initing?
    || pc.Launched? || pc.Aborting?
  }

  /** The context is off the table and no thread holds it or is still deleting it. */
  ghost predicate Abandoned(s: State, q: nat)
    requires q < |s.services|
  {
    !s.services[q].inTable && Refs(s, q) == 0 && Deleters(s, q) == 0
  }

  /**
   No thread works on a freed queue.  A thread that works on a context finds it
   undeleted, except a creator that has given up its reference and is about to
   set ctx->init, or to read ctx->handle after a failed init: it finds the
   context deleted exactly when nobody else keeps it.
   */
  lemma NoUseAfterFree(states: seq<State>, actions: seq<Action>, i: nat, t: nat)
    requires IsRun(states, actions) && i < |states| && t < |states[i].threads|
    ensures var pc := states[i].threads[t];
            && (TouchesQueue(pc) ==> pc.q < |states[i].services| && states[i].services[pc.q].frees == 0)
            && (TouchesContext(pc) ==>
                  && pc.q < |states[i].services|
                  && (states[i].services[pc.q].deletions != 0
                      <==> (pc.Launched? || pc.Aborting?) && Abandoned(states[i], pc.q)))
  {
    RunKeepsInv(states, actions, i);
    if !states[i].threads[t].Idle? {
      ThreadFacts(states[i], t);
    }
  }

  // A launch during which another thread retires the new handle, step by step.

  function Launching(fails: bool, k: nat): State
    requires k <= 5
  {
    var created := NewService(7);
    var retired := created.(ref := 0, inTable := false);
    var waiting := if fails then Aborting(0) else Launched(0);
    match k
    case 0 => State([], [Idle, Idle], [])
    case 1 => State([created], [Initing(0), Idle], [])
    case 2 => State([created], [Unref(0, if fails then Abort else Launch), Idle], [])
    case 3 => State([created.(ref := 1)], [waiting, Idle], [])
    case 4 => State([retired], [waiting, Deleting(0, Done)], [])
    case 5 => State([retired.(queue := NEW_QUEUE.(release := true), deletions := 1)], [waiting, Idle], [])
  }

  function LaunchAction(fails: bool, k: nat): Action
    requires k < 5
  {
    match k
    case 0 => Create(0, 7)
    case 1 => if fails then InitFails(0) else InitSucceeds(0)
    case 2 => DropReference(0)
    case 3 => Retire(1, 0)
    case 4 => MarkReleased(1)
  }

  lemma LaunchingStep(fails: bool, k: nat)
    requires k < 5
    ensures Enabled(Launching(fails, k), LaunchAction(fails, k))
    ensures Launching(fails, k + 1) == Do(Launching(fails, k), LaunchAction(fails, k))
  {
    var s, a := Launching(fails, k), LaunchAction(fails, k);
    assert Enabled(s, a);
    if k == 0 {
      assert s.services + [NewService(7)] == [NewService(7)];
    }
  }

  /** The other case happens: another service retires the new handle while its creator launches it, or gives it up. */
  lemma CreatorMayUseDeleted(fails: bool) returns (states: seq<State>, actions: seq<Action>)
    ensures IsRun(states, actions) && |actions| == 5
    ensures var s, own := states[5], if fails then RetireOwn(0) else SetInit(0);
            && |s.services| == 1 && s.services[0].deletions == 1 && Enabled(s, own)
            && s.threads[0] == if fails then Aborting(0) else Launched(0)
  {
    hide Do, Enabled;
    states := seq(6, k requires 0 <= k < 6 => Launching(fails, k));
    actions := seq(5, k requires 0 <= k < 5 => LaunchAction(fails, k));
    forall i | 0 <= i < |actions|
      ensures StepAt(states, actions, i)
    {
      LaunchingStep(fails, i);
    }
    LaunchedEnabled(fails);
  }

  lemma LaunchedEnabled(fails: bool)
    ensures Enabled(Launching(fails, 5), if fails then RetireOwn(0) else SetInit(0))
  {
  }

  /** The thread is the creator of service q and has not yet published its queue or retired its handle. */
  predicate Creates(pc: Pc, q: nat) {
    match pc
    case Initing(x) => x == q
    case Unref(x, after) => x == q && (after.Launch? || after.Abort?)
    case Deleting(x, after) => x == q && (after.Launch? || after.Abort?)
    case Launched(x) => x == q
    case Aborting(x) => x == q
    case _ => false
  }

  lemma LocalCreates(q: nat, sv: Service, pc: Pc, a: Action, refs: nat, deleters: nat, tokens: nat, x: nat)
    requires Legal(q, sv, pc, a, refs, deleters, tokens) && Creates(LocalStep(sv, pc, a).pc, x)
    ensures Creates(pc, x) && !a.RetireOwn?
  {
  }

  /** Only the two ways of retiring take a handle off the table. */
  lemma LocalTable(sv: Service, pc: Pc, a: Action)
    requires At(pc, a) && OnService(a) && sv.inTable && !a.Retire? && !a.RetireOwn?
    ensures LocalStep(sv, pc, a).service.inTable
  {
  }

  /** While a creator is at work no other thread has the token of its queue. */
  lemma CreatorAlone(s: State, t: nat, u: nat, q: nat)
    requires Inv(s) && q < |s.services| && t < |s.threads| && u < |s.threads|
    requires Creates(s.threads[t], q) && HoldsToken(s.threads[u], q)
    ensures t == u
  {
    OneToken(s, q);
    SoleHolder(s, u, q);
  }

  lemma CreatorStays(s: State, a: Action, t: nat, q: nat)
    requires Inv(s) && Enabled(s, a) && q < |s.services| && t < |s.threads|
    requires Creates(Do(s, a).threads[t], q)
    ensures Creates(s.threads[t], q) && !(a.t == t && a.RetireOwn?)
  {
    hide LocalStep, Legal, Inv;
    if OnService(a) {
      DoOnService(s, a);
      if a.t == t {
        var x := Target(s.threads[t], a);
        EnabledIsLegal(s, a);
        LocalCreates(x, s.services[x], s.threads[t], a, Refs(s, x), Deleters(s, x), Tokens(s, x), q);
      }
    }
  }

  /** A creator was one before, and its handle stays in the table unless it is retired. */
  lemma CreatorStep(s: State, a: Action, t: nat, q: nat)
    requires Inv(s) && Enabled(s, a) && q < |s.services| && t < |s.threads|
    requires Creates(Do(s, a).threads[t], q) && !(a.Retire? && a.victim == q)
    ensures Creates(s.threads[t], q)
    ensures s.services[q].inTable ==> Do(s, a).services[q].inTable
  {
    hide LocalStep, Do, Inv;
    CreatorStays(s, a, t, q);
    StepElsewhere(s, a, q);
    if Acts(s, a, q) && a.RetireOwn? {
      CreatorAlone(s, t, a.t, q);
    } else if Acts(s, a, q) && s.services[q].inTable {
      LocalTable(s.services[q], s.threads[a.t], a);
    }
  }

  /** While its creator is at work and nobody else retires it, a new handle stays in the table. */
  lemma {:induction false} UnretiredStays(states: seq<State>, actions: seq<Action>, i: nat, t: nat, q: nat)
    requires IsRun(states, actions) && i < |states| && t < |states[i].threads| && Creates(states[i].threads[t], q)
    requires forall k :: 0 <= k < i ==> !(actions[k].Retire? && actions[k].victim == q)
    ensures q < |states[i].services| && states[i].services[q].inTable
  {
    RunKeepsInv(states, actions, i);
    ThreadFacts(states[i], t);
    if i > 0 {
      var s, a := states[i - 1], actions[i - 1];
      assert StepAt(states, actions, i - 1);
      RunKeepsInv(states, actions, i - 1);
      if q < |s.services| {
        CreatorStep(s, a, t, q);
        UnretiredStays(states, actions, i - 1, t, q);
      }
    }
  }

  /** A creator finds its context undeleted on every run in which nobody else has retired the new handle so far. */
  lemma CreatorSafe(states: seq<State>, actions: seq<Action>, i: nat, t: nat)
    requires IsRun(states, actions) && i < |states| && t < |states[i].threads|
    requires states[i].threads[t].Launched? || states[i].threads[t].Aborting?
    requires forall k :: 0 <= k < i ==> !(actions[k].Retire? && actions[k].victim == states[i].threads[t].q)
    ensures var q := states[i].threads[t].q;
            q < |states[i].services| && states[i].services[q].deletions == 0
  {
    UnretiredStays(states, actions, i, t, states[i].threads[t].q);
    NoUseAfterFree(states, actions, i, t);
  }

  /**
   The reference count is the table's reference plus those of the threads; a
   context is deleted exactly when it reaches zero and at most once; a queue is
   freed at most once and only after that, and a released queue has a token until then.
   */
  lemma Lifetime(states: seq<State>, actions: seq<Action>, i: nat, q: nat)
    requires IsRun(states, actions) && i < |states| && q < |states[i].services|
    ensures var sv := states[i].services[q];
            && sv.ref == Refs(states[i], q) + (if sv.inTable then 1 else 0)
            && sv.deletions + Deleters(states[i], q) == (if sv.ref == 0 then 1 else 0)
            && sv.frees <= sv.deletions <= 1
            && (sv.deletions == 1 && sv.frees == 0 ==> Tokens(states[i], q) == 1)
            && (sv.deletions == 1 ==> Refs(states[i], q) == 0 && !sv.inTable)
  {
    RunKeepsInv(states, actions, i);
    assert ServiceOk(states[i].services[q], Refs(states[i], q), Deleters(states[i], q), Tokens(states[i], q));
  }

  /** The thread that frees a queue is its only holder; the context is gone and the queue is drained. */
  lemma FreedBySoleHolder(states: seq<State>, actions: seq<Action>, i: nat)
    requires IsRun(states, actions) && i < |actions| && actions[i].FreeQueue?
    ensures Enabled(states[i], actions[i])
    ensures var s, t := states[i], actions[i].t;
            var q := s.threads[t].q;
            && q < |s.services| && s.services[q].deletions == 1 && s.services[q].frees == 0
            && s.services[q].queue.msgs == [] && Refs(s, q) == 0
            && (forall u :: 0 <= u < |s.threads| && HoldsToken(s.threads[u], q) ==> u == t)
            && (forall k :: 0 <= k < |s.global| ==> s.global[k] != q)
  {
    assert StepAt(states, actions, i);
    RunKeepsInv(states, actions, i);
    ThreadFacts(states[i], actions[i].t);
    SoleHolder(states[i], actions[i].t, states[i].threads[actions[i].t].q);
  }

  // ----- Retirement -----

  lemma LocalRetires(sv: Service, pc: Pc, a: Action)
    requires At(pc, a) && OnService(a)
    ensures var sv' := LocalStep(sv, pc, a).service;
            (sv'.inTable ==> sv.inTable) && sv.frees <= sv'.frees && (a.Retire? || a.RetireOwn? ==> !sv'.inTable)
  {
  }

  /** No handle comes back to the table, and no queue is unfreed. */
  lemma StepRetires(s: State, a: Action, q: nat)
    requires Enabled(s, a) && q < |s.services|
    ensures q < |Do(s, a).services|
    ensures var sv, sv' := s.services[q], Do(s, a).services[q];
            && (sv'.inTable ==> sv.inTable) && sv.frees <= sv'.frees
            && (Acts(s, a, q) && (a.Retire? || a.RetireOwn?) ==> !sv'.inTable)
  {
    StepElsewhere(s, a, q);
    if Acts(s, a, q) {
      LocalRetires(s.services[q], s.threads[a.t], a);
    }
    hide LocalStep, Do;
  }

  /** The action gets at service q through its handle. */
  predicate Looks(a: Action, q: nat) {
    match a
    case GrabContext(_, found) => found == q
    case StartSend(_, to, _) => to == q
    case Touch(_, to) => to == q
    case Retire(_, victim) => victim == q
    case _ => false
  }

  /** Whoever is retired, by another service or by its creator, is found by nobody ever after. */
  lemma {:induction false} RetiredForGood(states: seq<State>, actions: seq<Action>, i: nat, j: nat, q: nat)
    requires IsRun(states, actions) && i < j < |states|
    requires actions[i] == Retire(actions[i].t, q)
             || (actions[i].RetireOwn? && actions[i].t < |states[i].threads|
                 && states[i].threads[actions[i].t] == Aborting(q))
    ensures q < |states[j].services| && !states[j].services[q].inTable
    ensures j < |actions| ==> !Looks(actions[j], q)
  {
    assert StepAt(states, actions, j - 1);
    if i < j - 1 {
      RetiredForGood(states, actions, i, j - 1, q);
    }
    StepRetires(states[j - 1], actions[j - 1], q);
    if j < |actions| {
      assert StepAt(states, actions, j);
    }
  }

  // ----- Messages -----

  /** At all times each pushed message is queued, was taken by a worker, or was dropped with the queue: exactly one. */
  lemma EveryMessageAccounted(states: seq<State>, actions: seq<Action>, i: nat, q: nat)
    requires IsRun(states, actions) && i < |states| && q < |states[i].services|
    ensures var sv := states[i].services[q];
            multiset(sv.pushed) == multiset(sv.taken) + multiset(sv.dropped) + multiset(sv.queue.msgs)
  {
    RunKeepsInv(states, actions, i);
  }

  /** The messages that left the queue, oldest first, then those waiting. */
  function Log(sv: Service): seq<Message> {
    sv.taken + sv.dropped + sv.queue.msgs
  }

  /** The action pushes a message to service q. */
  predicate PushesTo(s: State, a: Action, q: nat) {
    a.Push? && a.t < |s.threads| && s.threads[a.t].Sending? && s.threads[a.t].q == q
  }

  function LogPushed(sv: Service, m: Message): seq<Message> {
    if EndsLock(sv.queue, m) then sv.taken + sv.dropped + [m] + sv.queue.msgs else Log(sv) + [m]
  }

  lemma PushExtendsLog(sv: Service, m: Message)
    ensures Log(WithQueue(sv, Pushed(sv.queue, m).queue).(pushed := sv.pushed + [m])) == LogPushed(sv, m)
  {
  }

  lemma PopKeepsLog(sv: Service)
    requires sv.queue.msgs != []
    ensures var popped, head := WithQueue(sv, Popped(sv.queue)), sv.queue.msgs[0];
            && (sv.dropped == [] ==> Log(popped.(taken := sv.taken + [head])) == Log(sv))
            && Log(popped.(dropped := sv.dropped + [head])) == Log(sv)
  {
    assert sv.queue.msgs == [sv.queue.msgs[0]] + sv.queue.msgs[1..];
  }

  lemma LocalStepLog(q: nat, sv: Service, pc: Pc, a: Action, refs: nat, deleters: nat, tokens: nat)
    requires Legal(q, sv, pc, a, refs, deleters, tokens) && Conserved(sv)
    ensures Log(LocalStep(sv, pc, a).service) == if a.Push? then LogPushed(sv, pc.msg) else Log(sv)
  {
    if a.Push? {
      PushExtendsLog(sv, pc.msg);
    } else if (a.PopMessage? || a.DropMessage?) && sv.queue.msgs != [] {
      PopKeepsLog(sv);
    }
  }

  /**
   No step of a run reorders messages: a push appends to the log, unless the
   message ends the session lock, which puts it in front of all that wait;
   nothing else changes the log.
   */
  lemma OrderOfConsumption(states: seq<State>, actions: seq<Action>, i: nat, q: nat)
    requires IsRun(states, actions) && i < |actions| && q < |states[i].services|
    ensures q < |states[i + 1].services|
    ensures var s, a := states[i], actions[i];
            var sv, log' := s.services[q], Log(states[i + 1].services[q]);
            if PushesTo(s, a, q) then
              var m := s.threads[a.t].msg;
              log' == if EndsLock(sv.queue, m) then sv.taken + sv.dropped + [m] + sv.queue.msgs else Log(sv) + [m]
            else log' == Log(sv)
  {
    var s, a := states[i], actions[i];
    assert StepAt(states, actions, i);
    RunKeepsInv(states, actions, i);
    StepOnService(s, a, q);
    if Acts(s, a, q) {
      LocalStepLog(q, s.services[q], s.threads[a.t], a, Refs(s, q), Deleters(s, q), Tokens(s, q));
    }
  }
}
