/**
 Whole runs of the timer: the wheel against the list clock, and the requests
 of services and the polls of the timer thread against true time.
 */
module TimerRuns {
  import opened Clocks
  import opened Placement
  import opened Sequences
  import opened Timers

  // ----- Any sequence of additions and ticks -----

  /** The operation stays below 2^31. */
  predicate InTime(c: Clock, op: Op) {
    c.time + (if op.Add? then op.delay else 1) < MAX_TIME
  }

  method Perform(timer: Timer, op: Op)
    requires timer.Valid() && InTime(timer.Value(), op)
    modifies timer`time, timer`fired, timer`pending, timer`added, timer`owner, timer.lists, timer.owner.Keys
    ensures timer.Valid() && timer.Value() == Performed(old(timer.Value()), op)
    ensures fresh(timer.owner.Keys - old(timer.owner.Keys)) && unchanged(timer`lists, timer`current)
  {
    match op {
      case Add(delay, event) => timer.Add(delay, event);
      case Tick => timer.Update();
    }
  }

  /** From its creation on, the wheel does on every run what the list clock does. */
  method PerformAll(timer: Timer, ops: seq<Op>)
    requires timer.Valid() && timer.Value() == START
    requires forall i :: 0 <= i < |ops| ==> InTime(Exec(ops[..i]), ops[i])
    modifies timer`time, timer`fired, timer`pending, timer`added, timer`owner, timer.lists, timer.owner.Keys
    ensures timer.Valid() && timer.Value() == Exec(ops)
  {
    ghost var v := timer.Value();
    for i := 0 to |ops|
      invariant timer.Valid() && timer.Value() == v == Exec(ops[..i])
      invariant fresh(timer.owner.Keys - old(timer.owner.Keys)) && unchanged(timer`lists)
    {
      Perform(timer, ops[i]);
      v := Performed(v, ops[i]);
      assert ops[..i + 1][..i] == ops[..i];
    }
    assert ops[..|ops|] == ops;
  }

  // ----- Against true time -----

  /** A service's timeout, or a poll of the timer thread at a true time. */
  datatype Request = Timeout(delay: nat, event: TimerEvent) | Poll(seconds: nat, centis: nat) {
    function At(): nat
      requires Poll?
    {
      seconds * 100 + centis
    }
  }

  /** The true time, in centiseconds, of the last poll among the first n requests, or of the timer's creation. */
  function LastPoll(created: nat, requests: seq<Request>, n: nat): nat
    requires n <= |requests|
  {
    if n == 0 then created
    else if requests[n - 1].Poll? then requests[n - 1].At()
    else LastPoll(created, requests, n - 1)
  }

  /** A poll comes after the last and less than 2^24 seconds later, and nothing reaches 2^31 centiseconds. */
  predicate InOrder(created: nat, last: nat, request: Request) {
    match request
    case Timeout(delay, _) => last - created + delay < MAX_TIME
    case Poll(_, centis) =>
      centis < 100 && last <= request.At() < last + PERIOD && request.At() - created < MAX_TIME
  }

  /** The first n requests are so. */
  predicate Timely(created: nat, requests: seq<Request>, n: nat)
    requires n <= |requests|
  {
    n == 0
    || (Timely(created, requests, n - 1)
        && InOrder(created, LastPoll(created, requests, n - 1), requests[n - 1]))
  }

  lemma {:induction false} TimelyThere(created: nat, requests: seq<Request>, n: nat, i: nat)
    requires i < n <= |requests| && Timely(created, requests, n)
    ensures InOrder(created, LastPoll(created, requests, i), requests[i])
  {
    if i < n - 1 {
      TimelyThere(created, requests, n - 1, i);
    }
  }

  lemma {:induction false} PollsLater(created: nat, requests: seq<Request>, n: nat)
    requires n <= |requests| && Timely(created, requests, n)
    ensures created <= LastPoll(created, requests, n)
  {
    if n > 0 {
      PollsLater(created, requests, n - 1);
    }
  }

  function TickOften(n: int): seq<Op> {
    if n <= 0 then [] else TickOften(n - 1) + [Tick]
  }

  /** What the first n requests are to the list clock; a poll is one tick for each centisecond since the last. */
  function Ops(created: nat, requests: seq<Request>, n: nat): seq<Op>
    requires n <= |requests|
  {
    if n == 0 then []
    else
      Ops(created, requests, n - 1) +
      match requests[n - 1]
      case Timeout(delay, event) => [Add(delay, event)]
      case Poll(_, _) => TickOften(requests[n - 1].At() - LastPoll(created, requests, n - 1))
  }

  lemma ExecOne(ops: seq<Op>, op: Op)
    ensures Exec(ops + [op]) == Performed(Exec(ops), op)
  {
    assert (ops + [op])[..|ops|] == ops;
  }

  lemma {:induction false} ExecTicks(ops: seq<Op>, n: nat)
    ensures Exec(ops + TickOften(n)) == Ticks(Exec(ops), n)
  {
    if n == 0 {
      assert ops + [] == ops;
    } else {
      ExecTicks(ops, n - 1);
      ConcatAssociates(ops, TickOften(n - 1), [Tick]);
      ExecOne(ops + TickOften(n - 1), Tick);
      hide Exec;
    }
  }

  /** One request; last is the true time of the last poll. */
  method Serve(timer: Timer, request: Request, ghost last: nat)
    requires timer.Valid() && timer.current == last % PERIOD
    requires match request
             case Timeout(delay, _) => timer.time + delay < MAX_TIME
             case Poll(_, centis) =>
               centis < 100 && last <= request.At() < last + PERIOD && timer.time + request.At() - last < MAX_TIME
    modifies timer`current, timer`time, timer`fired, timer`pending, timer`added, timer`owner
    modifies timer.lists, timer.owner.Keys
    ensures timer.Valid() && fresh(timer.owner.Keys - old(timer.owner.Keys)) && unchanged(timer`lists)
    ensures match request
            case Timeout(delay, event) =>
              timer.current == last % PERIOD && timer.Value() == Added(old(timer.Value()), delay, event)
            case Poll(_, _) =>
              && timer.current == request.At() % PERIOD && timer.time == old(timer.time) + request.At() - last
              && timer.Value() == Ticks(old(timer.Value()), request.At() - last)
  {
    match request {
      case Timeout(delay, event) => timer.Add(delay, event);
      case Poll(seconds, centis) => timer.UpdateTime(seconds, centis, last, request.At() - last);
    }
  }

  /** What the requests so far are to the list clock, one request more. */
  lemma ExecNext(created: nat, requests: seq<Request>, n: nat)
    requires n < |requests| && InOrder(created, LastPoll(created, requests, n), requests[n])
    ensures var c, c' := Exec(Ops(created, requests, n)), Exec(Ops(created, requests, n + 1));
            match requests[n]
            case Timeout(delay, event) => c' == Added(c, delay, event)
            case Poll(_, _) =>
              var last := LastPoll(created, requests, n);
              requests[n].At() >= last && c' == Ticks(c, requests[n].At() - last)
  {
    hide Exec;
    match requests[n] {
      case Timeout(delay, event) => ExecOne(Ops(created, requests, n), Add(delay, event));
      case Poll(_, _) =>
        ExecTicks(Ops(created, requests, n), requests[n].At() - LastPoll(created, requests, n));
    }
  }

  /** The timer has served the first n requests as the list clock would, and its time is that of the last poll. */
  ghost predicate Reached(timer: Timer, created: nat, requests: seq<Request>, n: nat)
    requires n <= |requests|
    reads timer`current, timer`time, timer`fired, timer`pending, timer`added, timer`owner, timer`lists
    reads timer.near, timer.levels, timer.lists, timer.owner.Keys
  {
    && timer.Valid() && timer.Value() == Exec(Ops(created, requests, n))
    && timer.current == LastPoll(created, requests, n) % PERIOD
    && timer.time == LastPoll(created, requests, n) - created
  }

  method ServeNext(timer: Timer, ghost created: nat, requests: seq<Request>, n: nat)
    requires n < |requests| && InOrder(created, LastPoll(created, requests, n), requests[n])
    requires Reached(timer, created, requests, n)
    modifies timer`current, timer`time, timer`fired, timer`pending, timer`added, timer`owner
    modifies timer.lists, timer.owner.Keys
    ensures Reached(timer, created, requests, n + 1)
    ensures fresh(timer.owner.Keys - old(timer.owner.Keys)) && unchanged(timer`lists)
  {
    hide Exec, Timer.Valid;
    ExecNext(created, requests, n);
    Serve(timer, requests[n], LastPoll(created, requests, n));
  }

  method ServeEach(timer: Timer, ghost created: nat, requests: seq<Request>)
    requires Reached(timer, created, requests, 0) && Timely(created, requests, |requests|)
    modifies timer`current, timer`time, timer`fired, timer`pending, timer`added, timer`owner
    modifies timer.lists, timer.owner.Keys
    ensures Reached(timer, created, requests, |requests|)
  {
    hide *;
    for i := 0 to |requests|
      invariant Reached(timer, created, requests, i)
      invariant fresh(timer.owner.Keys - old(timer.owner.Keys)) && unchanged(timer`lists)
    {
      TimelyThere(created, requests, |requests|, i);
      ServeNext(timer, created, requests, i);
    }
  }

  /**
   Over any timely requests the wheel does what the list clock does, and its
   time is the true time of the last poll since the creation of the timer.
   */
  method ServeAll(timer: Timer, ghost created: nat, requests: seq<Request>)
    requires timer.Valid() && timer.Value() == START && timer.current == created % PERIOD
    requires Timely(created, requests, |requests|)
    modifies timer`current, timer`time, timer`fired, timer`pending, timer`added, timer`owner
    modifies timer.lists, timer.owner.Keys
    ensures timer.Valid() && timer.time == LastPoll(created, requests, |requests|) - created
    ensures timer.Value() == Exec(Ops(created, requests, |requests|))
  {
    hide Timer.Valid;
    ServeEach(timer, created, requests);
  }

  /** The events asked for by the first n requests, each with its expiry counted from the creation. */
  function Expiries(created: nat, requests: seq<Request>, n: nat): seq<Node>
    requires n <= |requests| && Timely(created, requests, n)
  {
    if n == 0 then []
    else
      var before := Expiries(created, requests, n - 1);
      match requests[n - 1]
      case Timeout(delay, event) =>
        PollsLater(created, requests, n - 1);
        before + [Node(LastPoll(created, requests, n - 1) - created + delay, event)]
      case Poll(_, _) => before
  }

  lemma {:induction false} TicksTime(c: Clock, n: nat)
    ensures Ticks(c, n).time == c.time + n && Ticks(c, n).added == c.added
  {
    if n > 0 {
      TicksTime(c, n - 1);
    }
  }

  /** One request more, as far as the time and the events asked for are concerned. */
  lemma NextTime(created: nat, requests: seq<Request>, n: nat)
    requires n < |requests| && InOrder(created, LastPoll(created, requests, n), requests[n])
    ensures var c, c' := Exec(Ops(created, requests, n)), Exec(Ops(created, requests, n + 1));
            match requests[n]
            case Timeout(delay, event) => c'.time == c.time && c'.added == c.added + [Node(c.time + delay, event)]
            case Poll(_, _) =>
              c'.time == c.time + requests[n].At() - LastPoll(created, requests, n) && c'.added == c.added
  {
    hide Exec, Ops, Timely, LastPoll, Ticks;
    ExecNext(created, requests, n);
    if requests[n].Poll? {
      TicksTime(Exec(Ops(created, requests, n)), requests[n].At() - LastPoll(created, requests, n));
    }
  }

  lemma LastPollNext(created: nat, requests: seq<Request>, n: nat)
    requires n < |requests|
    ensures LastPoll(created, requests, n + 1) ==
            if requests[n].Poll? then requests[n].At() else LastPoll(created, requests, n)
  {
  }

  lemma ExpiriesNext(created: nat, requests: seq<Request>, n: nat)
    requires n < |requests| && Timely(created, requests, n) && Timely(created, requests, n + 1)
    ensures created <= LastPoll(created, requests, n)
    ensures Expiries(created, requests, n + 1) == Expiries(created, requests, n) +
            match requests[n]
            case Timeout(delay, event) => [Node(LastPoll(created, requests, n) - created + delay, event)]
            case Poll(_, _) => []
  {
    PollsLater(created, requests, n);
  }

  lemma {:induction false} OpsTrackTime(created: nat, requests: seq<Request>, n: nat)
    requires n <= |requests| && Timely(created, requests, n)
    ensures var c := Exec(Ops(created, requests, n));
            && c.time == LastPoll(created, requests, n) - created
            && c.added == Expiries(created, requests, n)
  {
    if n > 0 {
      OpsTrackTime(created, requests, n - 1);
      NextTime(created, requests, n - 1);
      hide *;
      LastPollNext(created, requests, n - 1);
      ExpiriesNext(created, requests, n - 1);
    }
  }

  lemma {:induction false} TicksOnly(n: int)
    ensures forall op :: op in TickOften(n) ==> op == Tick
  {
    if n > 0 {
      TicksOnly(n - 1);
    }
  }

  lemma {:induction false} OpsPositive(created: nat, requests: seq<Request>, n: nat)
    requires n <= |requests| && forall i :: 0 <= i < n && requests[i].Timeout? ==> requests[i].delay > 0
    ensures forall op :: op in Ops(created, requests, n) && op.Add? ==> op.delay > 0
  {
    if n > 0 {
      OpsPositive(created, requests, n - 1);
      if requests[n - 1].Poll? {
        TicksOnly(requests[n - 1].At() - LastPoll(created, requests, n - 1));
      }
    }
  }

  /**
   Whatever the requests, if all delays are positive the events fired are at
   any time exactly those asked for that have expired by the true time of the
   last poll, stably sorted by expiry.
   */
  lemma FiredOnTime(created: nat, requests: seq<Request>)
    requires Timely(created, requests, |requests|)
    requires forall i :: 0 <= i < |requests| && requests[i].Timeout? ==> requests[i].delay > 0
    ensures var fired := Exec(Ops(created, requests, |requests|)).fired;
            var elapsed := LastPoll(created, requests, |requests|) - created;
            elapsed >= 0 && StableSort(fired, Filter(Expiries(created, requests, |requests|), DueBy(elapsed)))
  {
    hide *;
    PollsLater(created, requests, |requests|);
    OpsTrackTime(created, requests, |requests|);
    OpsPositive(created, requests, |requests|);
    FiredIsStableSort(Ops(created, requests, |requests|));
  }
}
