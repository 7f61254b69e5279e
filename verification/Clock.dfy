/**
 What a timer should do, stated on a plain list of pending events, and what
 follows from it on every run.
 */
module Clocks {
  import opened Sequences

  datatype TimerEvent = TimerEvent(handle: nat, session: int)

  datatype Node = Node(expire: nat, event: TimerEvent)

  /** `added` lists every event ever added, `fired` those dispatched, both in order. */
  datatype Clock = Clock(time: nat, pending: seq<Node>, fired: seq<Node>, added: seq<Node>)

  function DueAt(t: nat): Node -> bool { (n: Node) => n.expire == t }

  function NotDueAt(t: nat): Node -> bool { (n: Node) => n.expire != t }

  function WithNode(c: Clock, node: Node): Clock {
    c.(pending := c.pending + [node], added := c.added + [node])
  }

  function Added(c: Clock, delay: nat, event: TimerEvent): Clock {
    WithNode(c, Node(c.time + delay, event))
  }

  /** Dispatches what is due at the present time, in insertion order. */
  function Executed(c: Clock): Clock {
    c.(pending := Filter(c.pending, NotDueAt(c.time)), fired := c.fired + Filter(c.pending, DueAt(c.time)))
  }

  /** timer_update: the present time first (for zero delays), then the next one. */
  function Ticked(c: Clock): Clock {
    Executed(Executed(c).(time := c.time + 1))
  }

  function Ticks(c: Clock, n: nat): Clock {
    if n == 0 then c else Ticked(Ticks(c, n - 1))
  }

  datatype Op = Add(delay: nat, event: TimerEvent) | Tick

  const START := Clock(0, [], [], [])

  function Performed(c: Clock, op: Op): Clock {
    match op
    case Add(delay, event) => Added(c, delay, event)
    case Tick => Ticked(c)
  }

  function Exec(ops: seq<Op>): Clock {
    if ops == [] then START else Performed(Exec(ops[..|ops| - 1]), ops[|ops| - 1])
  }

  // ----- The invariant of runs -----

  predicate Sorted(ns: seq<Node>) {
    forall i, j :: 0 <= i < j < |ns| ==> ns[i].expire <= ns[j].expire
  }

  /** For each expiry, the events of out are those of inp, in the same order. */
  ghost predicate SameByExpiry(out: seq<Node>, inp: seq<Node>) {
    forall e: nat :: Filter(out, DueAt(e)) == Filter(inp, DueAt(e))
  }

  ghost predicate ClockOk(c: Clock) {
    && Sorted(c.fired)
    && (forall n :: n in c.fired ==> n.expire <= c.time)
    && (forall n :: n in c.pending ==> n.expire >= c.time)
    && SameByExpiry(c.fired + c.pending, c.added)
  }

  /** Nothing is due now: what holds between ticks when delays are positive. */
  predicate Fresh(c: Clock) {
    forall n :: n in c.pending ==> n.expire > c.time
  }

  lemma AddedOk(c: Clock, delay: nat, event: TimerEvent)
    requires ClockOk(c)
    ensures ClockOk(Added(c, delay, event))
    ensures Fresh(c) && delay > 0 ==> Fresh(Added(c, delay, event))
  {
    var c', node := Added(c, delay, event), Node(c.time + delay, event);
    forall e: nat
      ensures Filter(c'.fired + c'.pending, DueAt(e)) == Filter(c'.added, DueAt(e))
    {
      assert c'.fired + c'.pending == (c.fired + c.pending) + [node];
      FilterConcat(c.fired + c.pending, [node], DueAt(e));
      FilterConcat(c.added, [node], DueAt(e));
    }
  }

  lemma ExecutedOk(c: Clock)
    requires ClockOk(c)
    ensures ClockOk(Executed(c)) && Fresh(Executed(c))
  {
    var c' := Executed(c);
    var due := Filter(c.pending, DueAt(c.time));
    FilterMembers(c.pending, DueAt(c.time));
    FilterMembers(c.pending, NotDueAt(c.time));
    forall i, j | 0 <= i < j < |c'.fired|
      ensures c'.fired[i].expire <= c'.fired[j].expire
    {
      if j >= |c.fired| {
        assert c'.fired[j] in due;
        assert i < |c.fired| ==> c'.fired[i] in c.fired;
        assert i >= |c.fired| ==> c'.fired[i] in due;
      }
    }
    forall e: nat
      ensures Filter(c'.fired + c'.pending, DueAt(e)) == Filter(c'.added, DueAt(e))
    {
      ExecutedKeepsOrder(c, e);
    }
  }

  /** Splitting the pending events into those due and the rest keeps, for each expiry, their order. */
  lemma SplitKeepsOrder(pending: seq<Node>, t: nat, e: nat)
    ensures Filter(Filter(pending, DueAt(t)), DueAt(e)) + Filter(Filter(pending, NotDueAt(t)), DueAt(e)) ==
            Filter(pending, DueAt(e))
  {
    FilterMembers(pending, DueAt(t));
    FilterMembers(pending, NotDueAt(t));
    if e == t {
      FilterFilter(pending, DueAt(t), DueAt(e));
      FilterNone(Filter(pending, NotDueAt(t)), DueAt(e));
    } else {
      FilterNone(Filter(pending, DueAt(t)), DueAt(e));
      FilterFilter(pending, NotDueAt(t), DueAt(e));
    }
  }

  lemma ExecutedKeepsOrder(c: Clock, e: nat)
    ensures Filter(Executed(c).fired + Executed(c).pending, DueAt(e)) == Filter(c.fired + c.pending, DueAt(e))
  {
    var due, rest := Filter(c.pending, DueAt(c.time)), Filter(c.pending, NotDueAt(c.time));
    FilterConcat(c.fired + due, rest, DueAt(e));
    FilterConcat(c.fired, due, DueAt(e));
    FilterConcat(c.fired, c.pending, DueAt(e));
    SplitKeepsOrder(c.pending, c.time, e);
    ConcatAssociates(Filter(c.fired, DueAt(e)), Filter(due, DueAt(e)), Filter(rest, DueAt(e)));
  }

  lemma TickedOk(c: Clock)
    requires ClockOk(c)
    ensures ClockOk(Ticked(c)) && Fresh(Ticked(c))
  {
    ExecutedOk(c);
    ExecutedOk(Executed(c).(time := c.time + 1));
  }

  lemma {:induction false} RunsOk(ops: seq<Op>)
    ensures ClockOk(Exec(ops))
    ensures (forall op :: op in ops && op.Add? ==> op.delay > 0) ==> Fresh(Exec(ops))
  {
    if ops != [] {
      var prefix, op := ops[..|ops| - 1], ops[|ops| - 1];
      RunsOk(prefix);
      match op {
        case Add(delay, event) => AddedOk(Exec(prefix), delay, event);
        case Tick => TickedOk(Exec(prefix));
      }
    }
  }

  // ----- Stable sorting -----

  /** out is inp sorted by expiry, events of equal expiry in the order of inp. */
  ghost predicate StableSort(out: seq<Node>, inp: seq<Node>) {
    Sorted(out) && SameByExpiry(out, inp)
  }

  function DueBy(t: nat): Node -> bool { (n: Node) => n.expire <= t }

  function DueAfter(t: nat): Node -> bool { (n: Node) => n.expire > t }

  /** A stable sort is unique, so StableSort determines its first argument. */
  lemma {:induction false} StableSortUnique(a: seq<Node>, b: seq<Node>, inp: seq<Node>)
    requires StableSort(a, inp) && StableSort(b, inp)
    ensures a == b
  {
    SortedDetermined(a, b);
  }

  lemma {:induction false} SortedDetermined(a: seq<Node>, b: seq<Node>)
    requires Sorted(a) && Sorted(b) && SameByExpiry(a, b)
    ensures a == b
  {
    if a == [] {
      EmptyByExpiry(b);
    } else if b == [] {
      EmptyByExpiry(a);
    } else {
      HeadAtMost(a, b);
      HeadAtMost(b, a);
      var e := a[0].expire;
      assert Filter(a, DueAt(e))[0] == a[0] && Filter(b, DueAt(e))[0] == b[0];
      forall x: nat
        ensures Filter(a[1..], DueAt(x)) == Filter(b[1..], DueAt(x))
      {
        var first := if x == e then [a[0]] else [];
        var restA, restB := Filter(a[1..], DueAt(x)), Filter(b[1..], DueAt(x));
        assert first + restA == Filter(a, DueAt(x)) == Filter(b, DueAt(x)) == first + restB;
        assert restA == (first + restA)[|first|..] && restB == (first + restB)[|first|..];
      }
      SortedDetermined(a[1..], b[1..]);
    }
  }

  lemma EmptyByExpiry(b: seq<Node>)
    requires SameByExpiry([], b) || SameByExpiry(b, [])
    ensures b == []
  {
    var e := if b == [] then 0 else b[0].expire;
    assert Filter(b, DueAt(e)) == Filter([], DueAt(e));
  }

  lemma HeadAtMost(a: seq<Node>, b: seq<Node>)
    requires a != [] && b != [] && Sorted(a) && (SameByExpiry(a, b) || SameByExpiry(b, a))
    ensures a[0].expire <= b[0].expire
  {
    var e := b[0].expire;
    assert Filter(a, DueAt(e)) == Filter(b, DueAt(e));
    FilterMembers(a, DueAt(e));
    FilterMembers(b, DueAt(e));
    assert b[0] in b && b[0] in Filter(b, DueAt(e));
  }

  /**
   On every run with positive delays the events fired so far are exactly the
   events added that expire by now, stably sorted by expiry: none early, late,
   lost or twice, and equal expiries in insertion order.
   */
  lemma FiredIsStableSort(ops: seq<Op>)
    requires forall op :: op in ops && op.Add? ==> op.delay > 0
    ensures var c := Exec(ops);
            && StableSort(c.fired, Filter(c.added, DueBy(c.time)))
            && SameByExpiry(c.pending, Filter(c.added, DueAfter(c.time)))
  {
    RunsOk(ops);
    var c := Exec(ops);
    var late := DueAfter(c.time);
    forall e: nat
      ensures Filter(c.fired, DueAt(e)) == Filter(Filter(c.added, DueBy(c.time)), DueAt(e))
      ensures Filter(c.pending, DueAt(e)) == Filter(Filter(c.added, late), DueAt(e))
    {
      FilterConcat(c.fired, c.pending, DueAt(e));
      assert Filter(c.fired + c.pending, DueAt(e)) == Filter(c.added, DueAt(e));
      FilterMembers(c.added, DueBy(c.time));
      FilterMembers(c.added, late);
      if e <= c.time {
        FilterNone(c.pending, DueAt(e));
        FilterFilter(c.added, DueBy(c.time), DueAt(e));
        FilterNone(Filter(c.added, late), DueAt(e));
      } else {
        FilterNone(c.fired, DueAt(e));
        FilterFilter(c.added, late, DueAt(e));
        FilterNone(Filter(c.added, DueBy(c.time)), DueAt(e));
      }
    }
  }

  lemma TickedFires(c: Clock)
    ensures Ticked(c).time == c.time + 1
    ensures Ticked(c).fired == c.fired + Filter(c.pending, DueAt(c.time)) + Filter(c.pending, DueAt(c.time + 1))
  {
    FilterFilter(c.pending, NotDueAt(c.time), DueAt(c.time + 1));
  }

  lemma TickedLeaves(c: Clock)
    requires ClockOk(c)
    ensures Ticked(c).pending == Filter(c.pending, DueAfter(c.time + 1))
  {
    var rest := Filter(c.pending, NotDueAt(c.time));
    FilterMembers(c.pending, NotDueAt(c.time));
    FilterFilter(c.pending, NotDueAt(c.time), DueAfter(c.time + 1));
    FilterAgree(rest, NotDueAt(c.time + 1), DueAfter(c.time + 1));
  }

  lemma ExecTick(ops: seq<Op>)
    ensures Exec(ops + [Tick]) == Ticked(Exec(ops))
  {
    assert (ops + [Tick])[..|ops + [Tick]| - 1] == ops;
  }

  /**
   On every run, zero delays included, a tick to time t + 1 fires what was left
   due at t, then what is due at t + 1, each in insertion order, and keeps the rest.
   */
  lemma TickFires(ops: seq<Op>)
    ensures var c, c' := Exec(ops), Exec(ops + [Tick]);
            && c'.time == c.time + 1
            && c'.fired == c.fired + Filter(c.pending, DueAt(c.time)) + Filter(c.pending, DueAt(c.time + 1))
            && c'.pending == Filter(c.pending, DueAfter(c.time + 1))
  {
    RunsOk(ops);
    ExecTick(ops);
    TickedFires(Exec(ops));
    TickedLeaves(Exec(ops));
  }
}
