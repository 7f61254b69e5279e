/**
 The scheduling protocol of skynet_mq.c and skynet_server.c as a state machine:
 any number of services and of threads, where one step is one LOCK..UNLOCK
 section, one atomic operation on a reference count, or one section of the
 handle table's lock.
 */
module Scheduler {
  import opened MessageQueues

  /**
   A service: its context, its queue, and the history of its messages.
   `deletions` counts completed runs of _delete_context and `frees` counts
   releases of the queue's memory.
   */
  datatype Service = Service(
    handle: nat,
    inTable: bool,
    ref: int,
    init: bool,
    sessionId: nat,
    queue: Queue,
    deletions: nat,
    frees: nat,
    pushed: seq<Message>,
    taken: seq<Message>,
    dropped: seq<Message>)

  function NewService(handle: nat): Service {
    Service(handle, true, 2, false, 0, NEW_QUEUE, 0, 0, [], [], [])
  }

  /** Why a thread drops a context reference, hence what it does next. */
  datatype After = Done | Launch | Abort | Retired

  /**
   Where a thread is.  q is the queue it works on, c the context it found for
   that queue's handle; both are indexes into the services.
   */
  datatype Pc =
    | Idle
    | GotQueue(q: nat)                // popped q from the global queue
    | NoContext(q: nat)               // found no context for q; about to call skynet_mq_release
    | HasContext(q: nat, c: nat)      // grabbed context c; about to pop a message
    | Dispatching(q: nat, c: nat)     // inside the callback of c
    | Unref(q: nat, after: After)     // about to decrement the reference count
    | Deleting(q: nat, after: After)  // decremented it to zero; about to mark the queue released
    | Dropping(q: nat)                // draining a released queue
    | Freeing(q: nat)                 // drained it; about to free it
    | Sending(q: nat, msg: Message)   // grabbed q's context; about to push
    | Initing(q: nat)                 // the creator, inside the module's init function
    | Launched(q: nat)                // the creator, about to set ctx->init
    | Publishing(q: nat)              // the creator, about to put q on the global queue
    | Aborting(q: nat)                // the creator after a failed init, about to retire the handle

  datatype State = State(services: seq<Service>, threads: seq<Pc>, global: seq<nat>)

  datatype Action =
    | PopGlobal(t: nat)
    | GrabContext(t: nat, found: nat)
    | GrabNothing(t: nat)
    | PopMessage(t: nat)
    | NewSession(t: nat)
    | LockSession(t: nat)
    | UnlockSession(t: nat)
    | Return(t: nat)
    | DropReference(t: nat)
    | MarkReleased(t: nat)
    | ReleaseQueue(t: nat)
    | DropMessage(t: nat)
    | FreeQueue(t: nat)
    | StartSend(t: nat, to: nat, message: Message)
    | Touch(t: nat, to: nat)
    | Push(t: nat)
    | Retire(t: nat, victim: nat)
    | Create(t: nat, handle: nat)
    | InitSucceeds(t: nat)
    | InitFails(t: nat)
    | SetInit(t: nat)
    | Publish(t: nat)
    | RetireOwn(t: nat)

  predicate Init(s: State) {
    s.services == [] && s.global == [] && forall t :: 0 <= t < |s.threads| ==> s.threads[t] == Idle
  }

  /** skynet_handle_grab succeeds with context c for the handle of service q. */
  predicate Finds(s: State, q: nat, c: nat)
    requires q < |s.services|
  {
    c < |s.services| && s.services[c].inTable && s.services[c].handle == s.services[q].handle
  }

  /** Every index a program counter mentions is a service. */
  predicate InRange(s: State, pc: Pc) {
    !pc.Idle? ==> pc.q < |s.services| && (pc.HasContext? || pc.Dispatching? ==> pc.c < |s.services|)
  }

  const MAX_SESSION := 0x7fffffff

  /** Where a thread must be to take an action. */
  predicate At(pc: Pc, a: Action) {
    match a
    case PopGlobal(_) => pc.Idle?
    case GrabContext(_, _) => pc.GotQueue?
    case GrabNothing(_) => pc.GotQueue?
    case PopMessage(_) => pc.HasContext?
    case NewSession(_) => pc.Dispatching? || pc.Initing?
    case LockSession(_) => pc.Dispatching?
    case UnlockSession(_) => pc.Dispatching?
    case Return(_) => pc.Dispatching?
    case DropReference(_) => pc.Unref?
    case MarkReleased(_) => pc.Deleting?
    case ReleaseQueue(_) => pc.NoContext?
    case DropMessage(_) => pc.Dropping?
    case FreeQueue(_) => pc.Freeing?
    case StartSend(_, _, _) => pc.Idle?
    case Touch(_, _) => pc.Idle?
    case Push(_) => pc.Sending?
    case Retire(_, _) => pc.Idle?
    case Create(_, _) => pc.Idle?
    case InitSucceeds(_) => pc.Initing?
    case InitFails(_) => pc.Initing?
    case SetInit(_) => pc.Launched?
    case Publish(_) => pc.Publishing?
    case RetireOwn(_) => pc.Aborting?
  }

  /** The action works on one service: all but taking a queue off the global queue and creating a service. */
  predicate OnService(a: Action) {
    !a.PopGlobal? && !a.Create?
  }

  /** The service it works on (0 if it is not on one). */
  function Target(pc: Pc, a: Action): nat
    requires At(pc, a)
  {
    match a
    case PopGlobal(_) => 0
    case Create(_, _) => 0
    case GrabContext(_, found) => found
    case NewSession(_) => if pc.Dispatching? then pc.c else pc.q
    case LockSession(_) => pc.c
    case UnlockSession(_) => pc.c
    case StartSend(_, to, _) => to
    case Touch(_, to) => to
    case Retire(_, victim) => victim
    case _ => pc.q
  }

  /**
   What the service must allow, including the asserts of skynet_mq_lock and of
   the UNLOCK command as caller guards.
   */
  predicate Allows(sv: Service, a: Action) {
    match a
    case GrabContext(_, _) => sv.inTable
    case NewSession(_) => sv.sessionId < MAX_SESSION
    case LockSession(_) =>
      sv.sessionId < MAX_SESSION && sv.queue.lockSession == 0 && sv.queue.inGlobal == IN_GLOBAL
    case UnlockSession(_) => sv.queue.inGlobal == LOCKED || sv.queue.inGlobal == DISPATCHING
    case StartSend(_, _, _) => sv.inTable
    case Touch(_, _) => sv.inTable
    case Retire(_, _) => sv.inTable
    case _ => true
  }

  /** When an action can happen. */
  predicate Enabled(s: State, a: Action) {
    && a.t < |s.threads|
    && InRange(s, s.threads[a.t]) && At(s.threads[a.t], a)
    && (OnService(a) ==>
          var q := Target(s.threads[a.t], a);
          q < |s.services| && Allows(s.services[q], a))
    && match a
       case PopGlobal(_) => s.global != [] && s.global[0] < |s.services|
       case GrabContext(_, found) => Finds(s, s.threads[a.t].q, found)
       case GrabNothing(_) => !exists c :: 0 <= c < |s.services| && Finds(s, s.threads[a.t].q, c)
       case Create(_, handle) => forall c :: 0 <= c < |s.services| ==> s.services[c].handle != handle
       case _ => true
  }

  /** Thread t moves to pc, service q becomes sv, and q joins the global queue if wake. */
  function Update(s: State, t: nat, pc: Pc, q: nat, sv: Service, wake: bool): State
    requires t < |s.threads| && q < |s.services|
  {
    State(s.services[q := sv], s.threads[t := pc], if wake then s.global + [q] else s.global)
  }

  /** The service with a new queue value. */
  function WithQueue(sv: Service, queue: Queue): Service {
    sv.(queue := queue)
  }

  /** After the count reached zero and the queue was marked, or after it did not reach zero. */
  function Continue(q: nat, after: After, deleted: bool): Pc {
    match after
    case Done => Idle
    case Launch => if deleted then Publishing(q) else Launched(q)
    case Abort => Aborting(q)
    case Retired => NoContext(q)
  }

  /** skynet_handle_retire: takes the context off the table and drops the table's reference. */
  function RetiredService(sv: Service): Service {
    sv.(inTable := false, ref := sv.ref - 1)
  }

  /** The thread and the service after a step, and whether the queue joins the global queue. */
  datatype Local = Local(pc: Pc, service: Service, wake: bool)

  function LocalStep(sv: Service, pc: Pc, a: Action): Local
    requires At(pc, a) && OnService(a)
  {
    match a
    case GrabContext(_, c) => Local(HasContext(pc.q, c), sv.(ref := sv.ref + 1), false)
    case GrabNothing(_) => Local(NoContext(pc.q), sv, false)
    case PopMessage(_) =>
      var popped := WithQueue(sv, Popped(sv.queue));
      if sv.queue.msgs == [] then Local(Unref(pc.c, Done), popped, false)
      else Local(Dispatching(pc.q, pc.c), popped.(taken := sv.taken + [sv.queue.msgs[0]]), false)
    case NewSession(_) => Local(pc, sv.(sessionId := sv.sessionId + 1), false)
    case LockSession(_) => Local(pc, WithQueue(sv, SessionLocked(sv.queue, sv.sessionId + 1)), false)
    case UnlockSession(_) =>
      var result := Unlocked(sv.queue);
      Local(pc, WithQueue(sv, result.queue), result.wake)
    case Return(_) =>
      var result := PushedGlobal(sv.queue);
      Local(Unref(pc.c, Done), WithQueue(sv, result.queue), result.wake)
    case DropReference(_) =>
      var next := if sv.ref - 1 == 0 then Deleting(pc.q, pc.after) else Continue(pc.q, pc.after, false);
      Local(next, sv.(ref := sv.ref - 1), false)
    case MarkReleased(_) =>
      var result := MarkedRelease(sv.queue);
      Local(Continue(pc.q, pc.after, true), WithQueue(sv, result.queue).(deletions := sv.deletions + 1), result.wake)
    case ReleaseQueue(_) => if sv.queue.release then Local(Dropping(pc.q), sv, false) else Local(Idle, sv, true)
    case DropMessage(_) =>
      var popped := WithQueue(sv, Popped(sv.queue));
      if sv.queue.msgs == [] then Local(Freeing(pc.q), popped, false)
      else Local(pc, popped.(dropped := sv.dropped + [sv.queue.msgs[0]]), false)
    case FreeQueue(_) => Local(Idle, sv.(frees := sv.frees + 1), false)
    case StartSend(_, to, message) => Local(Sending(to, message), sv.(ref := sv.ref + 1), false)
    case Touch(_, to) => Local(Unref(to, Done), sv.(ref := sv.ref + 1), false)
    case Push(_) =>
      var result := Pushed(sv.queue, pc.msg);
      Local(Unref(pc.q, Done), WithQueue(sv, result.queue).(pushed := sv.pushed + [pc.msg]), result.wake)
    case Retire(_, victim) =>
      Local(if sv.ref - 1 == 0 then Deleting(victim, Done) else Idle, RetiredService(sv), false)
    case InitSucceeds(_) => Local(Unref(pc.q, Launch), sv, false)
    case InitFails(_) => Local(Unref(pc.q, Abort), sv, false)
    case SetInit(_) => Local(Publishing(pc.q), sv.(init := true), false)
    case Publish(_) => Local(Idle, sv, true)
    case RetireOwn(_) =>
      if !sv.inTable then Local(NoContext(pc.q), sv, false)
      else Local(if sv.ref - 1 == 0 then Deleting(pc.q, Retired) else NoContext(pc.q), RetiredService(sv), false)
  }

  function Do(s: State, a: Action): (s': State)
    requires Enabled(s, a)
    ensures |s'.threads| == |s.threads| && |s.services| <= |s'.services|
  {
    match a
    case PopGlobal(t) => s.(threads := s.threads[t := GotQueue(s.global[0])], global := s.global[1..])
    case Create(t, handle) =>
      s.(services := s.services + [NewService(handle)], threads := s.threads[t := Initing(|s.services|)])
    case _ =>
      var q := Target(s.threads[a.t], a);
      var r := LocalStep(s.services[q], s.threads[a.t], a);
      Update(s, a.t, r.pc, q, r.service, r.wake)
  }

  /**
   The asserts of the C code that no caller controls, for a step of a thread at
   pc: sv is the service of the queue it works on, context that of the context.
   */
  predicate LocalAsserts(sv: Service, context: Service, pc: Pc, a: Action)
    requires At(pc, a)
  {
    match a
    case Push(_) =>  // in _unlock, reached through _pushhead
      EndsLock(sv.queue, pc.msg) ==> sv.queue.inGlobal == LOCKED || sv.queue.inGlobal == DISPATCHING
    case PopMessage(_) => sv.queue.msgs != [] ==> context.init  // in _dispatch_message
    case Return(_) => pc.q == pc.c && sv.queue.inGlobal != IDLE  // q == ctx->queue, then in skynet_mq_pushglobal
    case ReleaseQueue(_) => !sv.queue.release ==> sv.queue.inGlobal != IDLE  // in skynet_mq_force_push
    case Publish(_) => sv.queue.inGlobal != IDLE
    case MarkReleased(_) => !sv.queue.release  // in skynet_mq_mark_release
    case _ => true
  }

  predicate AssertsHold(s: State, a: Action)
    requires Enabled(s, a)
  {
    var pc := s.threads[a.t];
    !pc.Idle? ==>
      var context := if pc.HasContext? || pc.Dispatching? then pc.c else pc.q;
      LocalAsserts(s.services[pc.q], s.services[context], pc, a)
  }
}
