/**
 The inductive invariant of the scheduling protocol: what reference counts,
 tokens and flags say about each other in every reachable state.
 */
module SchedulerInvariant {
  import opened MessageQueues
  import opened Scheduler
  import opened Sequences

  // ----- Who holds what -----

  /** The thread owns one count of the context of service q. */
  predicate HoldsRef(pc: Pc, q: nat) {
    match pc
    case HasContext(_, c) => c == q
    case Dispatching(_, c) => c == q
    case Unref(x, _) => x == q
    case Sending(x, _) => x == q
    case Initing(x) => x == q
    case _ => false
  }

  /** The thread is the one that may dispatch, hand on, drain or free queue q. */
  predicate HoldsToken(pc: Pc, q: nat) {
    match pc
    case Idle => false
    case Sending(_, _) => false
    case Unref(x, after) => x == q && !after.Done?
    case Deleting(x, after) => x == q && !after.Done?
    case _ => pc.q == q
  }

  function RefHolder(q: nat): Pc -> bool { pc => HoldsRef(pc, q) }

  function TokenHolder(q: nat): Pc -> bool { pc => HoldsToken(pc, q) }

  function Deleter(q: nat): Pc -> bool { (pc: Pc) => pc.Deleting? && pc.q == q }

  function Entry(q: nat): nat -> bool { x => x == q }

  function Refs(s: State, q: nat): nat { Count(s.threads, RefHolder(q)) }

  function Deleters(s: State, q: nat): nat { Count(s.threads, Deleter(q)) }

  /** Entries of q in the global queue plus threads holding q. */
  function Tokens(s: State, q: nat): nat {
    Count(s.threads, TokenHolder(q)) + Count(s.global, Entry(q))
  }

  // ----- The invariant -----

  predicate ServiceOk(sv: Service, refs: int, deleters: int, tokens: int) {
    var queue := sv.queue;
    && sv.ref == refs + (if sv.inTable then 1 else 0)
    && deleters + sv.deletions == (if sv.ref == 0 then 1 else 0)
    && (queue.release <==> sv.deletions == 1)
    && sv.frees <= 1 && (sv.frees == 1 ==> queue.release)
    && IDLE <= queue.inGlobal <= LOCKED
    && tokens == (if sv.frees == 1 then 0
                  else if queue.release || queue.inGlobal == IN_GLOBAL || queue.inGlobal == DISPATCHING then 1
                  else 0)
    && (!queue.release ==> (queue.lockSession != 0 ==> queue.inGlobal >= DISPATCHING)
                           && (queue.inGlobal == LOCKED ==> queue.lockSession != 0))
    && (queue.inGlobal == IDLE ==> queue.msgs == [])
    && (queue.inGlobal != IN_GLOBAL && sv.inTable ==> sv.init)
  }

  /** Every message pushed is queued, was taken by a worker, or was dropped with the queue. */
  predicate Conserved(sv: Service) {
    && (!sv.queue.release ==> sv.dropped == [])
    && multiset(sv.pushed) == multiset(sv.taken) + multiset(sv.dropped) + multiset(sv.queue.msgs)
  }

  /** A queue that is held outside a callback is flagged as global, or is released. */
  predicate Claimed(sv: Service) {
    sv.queue.release || sv.queue.inGlobal == IN_GLOBAL
  }

  /** What holds of a queue while it sits in the global queue. */
  predicate Published(sv: Service) {
    Claimed(sv) && (sv.inTable ==> sv.init)
  }

  predicate PcOk(sv: Service, pc: Pc) {
    match pc
    case Idle => true
    case GotQueue(_) => Published(sv)
    case NoContext(_) => Claimed(sv) && !sv.inTable
    case HasContext(q, c) => q == c && sv.init && sv.queue.inGlobal == IN_GLOBAL
    case Dispatching(q, c) =>
      q == c && sv.init && (sv.queue.inGlobal == IN_GLOBAL || sv.queue.inGlobal == DISPATCHING)
    case Unref(_, after) => !after.Retired? && (!after.Done? ==> sv.queue.inGlobal == IN_GLOBAL && !sv.init)
    case Deleting(_, after) =>
      (!after.Done? ==> sv.queue.inGlobal == IN_GLOBAL && !sv.init) && (after.Retired? ==> !sv.inTable)
    case Dropping(_) => sv.queue.release
    case Freeing(_) => sv.queue.release && sv.queue.msgs == []
    case Sending(_, _) => true
    case Initing(_) => sv.queue.inGlobal == IN_GLOBAL && !sv.init
    case Launched(_) => sv.queue.inGlobal == IN_GLOBAL && !sv.init
    case Publishing(_) => sv.queue.inGlobal == IN_GLOBAL && (sv.inTable ==> sv.init)
    case Aborting(_) => sv.queue.inGlobal == IN_GLOBAL && !sv.init
  }

  ghost predicate CountsOk(s: State) {
    forall q :: 0 <= q < |s.services| ==> ServiceOk(s.services[q], Refs(s, q), Deleters(s, q), Tokens(s, q))
  }

  ghost predicate ThreadsOk(s: State) {
    forall t :: 0 <= t < |s.threads| ==>
      InRange(s, s.threads[t]) && (!s.threads[t].Idle? ==> PcOk(s.services[s.threads[t].q], s.threads[t]))
  }

  ghost predicate GlobalOk(s: State) {
    forall i :: 0 <= i < |s.global| ==> s.global[i] < |s.services| && Published(s.services[s.global[i]])
  }

  ghost predicate MessagesOk(s: State) {
    forall q :: 0 <= q < |s.services| ==> Conserved(s.services[q])
  }

  /** Handles are never reused. */
  ghost predicate HandlesDiffer(s: State) {
    forall q, r :: 0 <= q < r < |s.services| ==> s.services[q].handle != s.services[r].handle
  }

  ghost predicate Inv(s: State) {
    CountsOk(s) && ThreadsOk(s) && GlobalOk(s) && MessagesOk(s) && HandlesDiffer(s)
  }

  // ----- Facts about counts -----

  lemma HolderCounts(s: State, t: nat)
    requires t < |s.threads| && !s.threads[t].Idle?
    ensures var pc := s.threads[t];
            && (forall q {:trigger Refs(s, q)} :: HoldsRef(pc, q) ==> Refs(s, q) >= 1)
            && (forall q {:trigger Tokens(s, q)} :: HoldsToken(pc, q) ==> Tokens(s, q) >= 1)
            && (pc.Deleting? ==> Deleters(s, pc.q) >= 1)
  {
    var pc := s.threads[t];
    forall q: nat | HoldsRef(pc, q)
      ensures Refs(s, q) >= 1
    {
      CountMember(s.threads, t, RefHolder(q));
    }
    forall q: nat | HoldsToken(pc, q)
      ensures Tokens(s, q) >= 1
    {
      CountMember(s.threads, t, TokenHolder(q));
    }
    if pc.Deleting? {
      CountMember(s.threads, t, Deleter(pc.q));
    }
  }

  /** A token held by a thread is nowhere else when there is only one. */
  lemma SoleHolder(s: State, t: nat, q: nat)
    requires t < |s.threads| && HoldsToken(s.threads[t], q) && Tokens(s, q) <= 1
    ensures forall u :: 0 <= u < |s.threads| && HoldsToken(s.threads[u], q) ==> u == t
    ensures forall i :: 0 <= i < |s.global| ==> s.global[i] != q
  {
    CountMember(s.threads, t, TokenHolder(q));
    forall u | 0 <= u < |s.threads| && HoldsToken(s.threads[u], q)
      ensures u == t
    {
      if u < t {
        CountPair(s.threads, u, t, TokenHolder(q));
      } else if t < u {
        CountPair(s.threads, t, u, TokenHolder(q));
      }
    }
    forall i | 0 <= i < |s.global|
      ensures s.global[i] != q
    {
      if s.global[i] == q {
        CountMember(s.global, i, Entry(q));
      }
    }
  }

  /** A live queue flagged as dispatching with a lock has a thread in its callback. */
  lemma DispatchingHolder(s: State, q: nat)
    requires Inv(s) && q < |s.services|
    ensures !s.services[q].queue.release && s.services[q].queue.inGlobal == DISPATCHING ==> Refs(s, q) >= 1
  {
    if s.services[q].queue.release || s.services[q].queue.inGlobal != DISPATCHING {
    } else if Count(s.threads, TokenHolder(q)) > 0 {
      var t := CountWitness(s.threads, TokenHolder(q));
      assert PcOk(s.services[q], s.threads[t]);
      CountMember(s.threads, t, RefHolder(q));
    } else {
      var i := CountWitness(s.global, Entry(q));
      assert false;
    }
  }

  // ----- The effect of an update on counts -----

  function One(b: bool): int { if b then 1 else 0 }

  lemma UpdateCounts(s: State, t: nat, pc: Pc, q: nat, sv: Service, wake: bool, r: nat)
    requires t < |s.threads| && q < |s.services|
    ensures var s', was := Update(s, t, pc, q, sv, wake), s.threads[t];
            && Refs(s', r) == Refs(s, r) - One(HoldsRef(was, r)) + One(HoldsRef(pc, r))
            && Deleters(s', r) == Deleters(s, r) - One(was.Deleting? && was.q == r) + One(pc.Deleting? && pc.q == r)
            && Tokens(s', r) == Tokens(s, r) - One(HoldsToken(was, r)) + One(HoldsToken(pc, r)) + One(wake && r == q)
  {
    CountUpdate(s.threads, t, pc, RefHolder(r));
    CountUpdate(s.threads, t, pc, Deleter(r));
    CountUpdate(s.threads, t, pc, TokenHolder(r));
    CountConcat(s.global, [q], Entry(r));
    assert Count([q], Entry(r)) == One(q == r);
  }

  // ----- One step on one service -----

  /** A change to a service that no claim of another thread, nor an entry in the global queue, notices. */
  predicate Gentle(sv: Service, sv': Service) {
    var queue, queue' := sv.queue, sv'.queue;
    && (queue.release ==> queue'.release && queue'.msgs == queue.msgs)
    && (queue'.inGlobal == queue.inGlobal
        || (!queue.release && queue'.inGlobal == IN_GLOBAL && (queue.inGlobal == IDLE || queue.inGlobal == LOCKED)))
    && (sv'.inTable ==> sv.inTable)
    && sv'.init == sv.init
  }

  /** A claim survives a gentle change, and a thread without the token has no claim a change can break. */
  lemma ClaimSurvives(sv: Service, sv': Service, pc: Pc)
    requires !pc.Idle? && PcOk(sv, pc)
    requires Gentle(sv, sv') || !HoldsToken(pc, pc.q)
    ensures PcOk(sv', pc)
  {
    match pc {
      case Unref(_, after) =>
      case Deleting(_, after) =>
      case _ =>
    }
  }

  /** The thread works on service q or on none, before and after. */
  predicate About(pc: Pc, q: nat) {
    pc.Idle? || (pc.q == q && (pc.HasContext? || pc.Dispatching? ==> pc.c == q))
  }

  /**
   The local conditions of a step: thread moves from was to pc, service q from sv
   to sv' (given the counts before), and q joins the global queue if wake.
   */
  predicate Fits(
      q: nat, sv: Service, was: Pc, sv': Service, pc: Pc, wake: bool, refs: nat, deleters: nat, tokens: nat)
  {
    && About(was, q) && About(pc, q)
    && sv'.handle == sv.handle
    && ServiceOk(sv', refs - One(HoldsRef(was, q)) + One(HoldsRef(pc, q)),
                 deleters - One(was.Deleting?) + One(pc.Deleting?),
                 tokens - One(HoldsToken(was, q)) + One(HoldsToken(pc, q)) + One(wake))
    && (!pc.Idle? ==> PcOk(sv', pc))
    && (wake ==> Published(sv'))
    && (HoldsToken(was, q) || Gentle(sv, sv'))
  }

  lemma UpdateKeepsCounts(s: State, t: nat, pc: Pc, q: nat, sv: Service, wake: bool)
    requires CountsOk(s) && t < |s.threads| && q < |s.services|
    requires About(s.threads[t], q) && About(pc, q)
    requires var was := s.threads[t];
             ServiceOk(sv, Refs(s, q) - One(HoldsRef(was, q)) + One(HoldsRef(pc, q)),
                       Deleters(s, q) - One(was.Deleting?) + One(pc.Deleting?),
                       Tokens(s, q) - One(HoldsToken(was, q)) + One(HoldsToken(pc, q)) + One(wake))
    ensures CountsOk(Update(s, t, pc, q, sv, wake))
  {
    var s' := Update(s, t, pc, q, sv, wake);
    forall r | 0 <= r < |s'.services|
      ensures ServiceOk(s'.services[r], Refs(s', r), Deleters(s', r), Tokens(s', r))
    {
      UpdateCounts(s, t, pc, q, sv, wake, r);
      assert ServiceOk(s.services[r], Refs(s, r), Deleters(s, r), Tokens(s, r));
    }
  }

  /** What the lemma SoleHolder says of thread t and queue q. */
  ghost predicate Sole(s: State, t: nat, q: nat) {
    && (forall u :: 0 <= u < |s.threads| && HoldsToken(s.threads[u], q) ==> u == t)
    && (forall i :: 0 <= i < |s.global| ==> s.global[i] != q)
  }

  lemma UpdateKeepsThreads(s: State, t: nat, pc: Pc, q: nat, sv: Service, wake: bool, exclusive: bool)
    requires ThreadsOk(s) && t < |s.threads| && q < |s.services|
    requires About(pc, q) && (!pc.Idle? ==> PcOk(sv, pc))
    requires if exclusive then Sole(s, t, q) else Gentle(s.services[q], sv)
    ensures ThreadsOk(Update(s, t, pc, q, sv, wake))
  {
    var s' := Update(s, t, pc, q, sv, wake);
    forall u | 0 <= u < |s'.threads|
      ensures InRange(s', s'.threads[u])
      ensures !s'.threads[u].Idle? ==> PcOk(s'.services[s'.threads[u].q], s'.threads[u])
    {
      if u != t {
        assert s'.threads[u] == s.threads[u] && InRange(s, s.threads[u]);
        if !s.threads[u].Idle? && s.threads[u].q == q {
          ClaimSurvives(s.services[q], sv, s.threads[u]);
        }
      }
    }
  }

  lemma UpdateKeepsGlobal(s: State, t: nat, pc: Pc, q: nat, sv: Service, wake: bool, exclusive: bool)
    requires GlobalOk(s) && t < |s.threads| && q < |s.services|
    requires wake ==> Published(sv)
    requires if exclusive then Sole(s, t, q) else Gentle(s.services[q], sv)
    ensures GlobalOk(Update(s, t, pc, q, sv, wake))
  {
  }

  lemma UpdateKeepsRest(s: State, t: nat, pc: Pc, q: nat, sv: Service, wake: bool)
    requires MessagesOk(s) && HandlesDiffer(s) && t < |s.threads| && q < |s.services|
    requires sv.handle == s.services[q].handle && Conserved(sv)
    ensures MessagesOk(Update(s, t, pc, q, sv, wake)) && HandlesDiffer(Update(s, t, pc, q, sv, wake))
  {
  }

  /**
   An update by thread t of service q keeps the invariant if the service's
   counts still add up and nobody else's claim on q is disturbed.
   */
  lemma UpdateKeepsInv(s: State, t: nat, pc: Pc, q: nat, sv: Service, wake: bool)
    requires Inv(s) && t < |s.threads| && q < |s.services|
    requires Conserved(sv)
    requires Fits(q, s.services[q], s.threads[t], sv, pc, wake, Refs(s, q), Deleters(s, q), Tokens(s, q))
    ensures Inv(Update(s, t, pc, q, sv, wake))
  {
    var exclusive := HoldsToken(s.threads[t], q);
    if exclusive {
      SoleHolder(s, t, q);
    }
    UpdateKeepsCounts(s, t, pc, q, sv, wake);
    UpdateKeepsThreads(s, t, pc, q, sv, wake, exclusive);
    UpdateKeepsGlobal(s, t, pc, q, sv, wake, exclusive);
    UpdateKeepsRest(s, t, pc, q, sv, wake);
  }
}
