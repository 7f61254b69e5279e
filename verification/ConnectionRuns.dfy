/**
 What a socket guarantees from its opening to its close and after, over every
 sequence of sends, attempts to send, closes and ends of stream, and every
 sequence of results of write.
 */
module ConnectionRuns {
  import opened Connections
  import opened Senders
  import opened Sequences

  const NEW_SENDER := Sender([], [], 0, [], [], [])

  /** A socket as new_fd leaves it. */
  function Opened(kind: SocketType, script: seq<Outcome>): Conn {
    Conn(kind, NotClosed, NEW_SENDER, script)
  }

  lemma OpenedOk(kind: SocketType, script: seq<Outcome>)
    ensures Opened(kind, script).Ok()
  {
    assert NEW_SENDER.Schedule() == [];
  }

  /** The socket after the events, or AssertFails if one of them met a failing assert. */
  function Exec(c: Conn, events: seq<Event>): (r: Result)
    requires c.ItemsOk()
    ensures r.Done? ==> r.c.ItemsOk()
  {
    if events == [] then Done(c)
    else
      match Exec(c, events[..|events| - 1])
      case AssertFails => AssertFails
      case Done(before) => before.Step(events[|events| - 1])
  }

  lemma {:induction false} ExecSplit(c: Conn, first: seq<Event>, more: seq<Event>)
    requires c.ItemsOk()
    ensures Exec(c, first + more) ==
            match Exec(c, first) case AssertFails => AssertFails case Done(mid) => Exec(mid, more)
  {
    hide Conn.Step;
    if more == [] {
      assert first + more == first;
    } else {
      var n := |more| - 1;
      assert (first + more)[..|first| + n] == first + more[..n];
      ExecSplit(c, first, more[..n]);
    }
  }

  lemma ExecNext(c: Conn, events: seq<Event>, i: nat)
    requires c.ItemsOk() && i < |events|
    ensures Exec(c, events[..i + 1]) ==
            match Exec(c, events[..i]) case AssertFails => AssertFails case Done(mid) => mid.Step(events[i])
  {
    assert events[..i + 1][..i] == events[..i];
  }

  /** Nothing follows a failing assert. */
  lemma FailureStays(c: Conn, events: seq<Event>, i: nat)
    requires c.ItemsOk() && i <= |events| && Exec(c, events[..i]).AssertFails?
    ensures Exec(c, events).AssertFails?
  {
    assert events == events[..i] + events[i..];
    ExecSplit(c, events[..i], events[i..]);
  }

  // ----- One step -----

  lemma StepOk(c: Conn, e: Event)
    requires c.Ok() && c.kind != Reserve && c.Step(e).Done?
    ensures c.Step(e).c.Ok() && c.Step(e).c.kind != Reserve
  {
    hide Flat, ListSent;
    if c.Open() {
      match e {
        case Send(p) => c.SentOk(p);
        case Flush => c.FlushedOk();
        case Close => c.ClosedOk();
        case ReadEnds =>
      }
    }
  }

  /** The packets whose place in the order of departure is settled. */
  function Settled(v: Sender): seq<Packet> { v.sent + Packets(v.high) }

  /** What later states keep of an earlier one. */
  predicate Extends(v: Sender, v': Sender) {
    v.wire <= v'.wire && v.sent <= v'.sent && Settled(v) <= Settled(v') && v.accepted <= v'.accepted
  }

  lemma PrefixOfSame<T>(a: seq<T>, x: seq<T>, b: seq<T>, y: seq<T>)
    requires a + x == b + y && |a| <= |b|
    ensures a <= b
  {
    assert a == (a + x)[..|a|] == (b + y)[..|a|] == b[..|a|];
  }

  lemma ContinuesExtends(v: Sender, v': Sender)
    requires v.Ok() && v'.Ok() && v'.Continues(v)
    ensures Extends(v, v')
  {
    ConcatAssociates(v.wire, Unsent(v.high), Unsent(v.low));
    ConcatAssociates(v'.wire, Unsent(v'.high), Unsent(v'.low));
    ConcatAssociates(v.sent, Packets(v.high), Packets(v.low));
    ConcatAssociates(v'.sent, Packets(v'.high), Packets(v'.low));
    PrefixOfSame(v.wire, Unsent(v.high) + Unsent(v.low), v'.wire, Unsent(v'.high) + Unsent(v'.low));
    PrefixOfSame(v.sent, Packets(v.high) + Packets(v.low), v'.sent, Packets(v'.high) + Packets(v'.low));
    PrefixOfSame(Settled(v), Packets(v.low), Settled(v'), Packets(v'.low));
  }

  lemma SentExtends(c: Conn, p: Packet)
    requires c.Ok() && c.Open() && c.Sent(p).Done?
    ensures Extends(c.v, c.Sent(p).c.v)
  {
    PacketsAppend(c.v.high, Item(p, 0));
    if c.v.Idle() {
      assert Settled(c.v) == c.v.sent;
    }
  }

  lemma StepExtends(c: Conn, e: Event)
    requires c.Ok() && c.kind != Reserve && c.Step(e).Done?
    ensures Extends(c.v, c.Step(e).c.v)
  {
    if c.Open() {
      match e {
        case Send(p) =>
          SentExtends(c, p);
        case Flush =>
          c.FlushedOk();
          ContinuesExtends(c.v, c.Flushed().v);
        case Close =>
          c.ClosedOk();
          ContinuesExtends(c.v, c.Closed().v);
        case ReadEnds =>
      }
    }
  }

  // ----- Every run -----

  /** On every run the wire, the lists and wb_size agree; a drained socket left nothing behind. */
  lemma {:induction false} RunOk(kind: SocketType, script: seq<Outcome>, events: seq<Event>)
    requires kind != Invalid && kind != Reserve
    requires Exec(Opened(kind, script), events).Done?
    ensures var c := Exec(Opened(kind, script), events).c;
            c.Ok() && c.kind != Reserve
  {
    if events == [] {
      OpenedOk(kind, script);
    } else {
      RunOk(kind, script, events[..|events| - 1]);
      StepOk(Exec(Opened(kind, script), events[..|events| - 1]).c, events[|events| - 1]);
    }
  }

  lemma {:induction false} ExecExtends(c: Conn, events: seq<Event>)
    requires c.Ok() && c.kind != Reserve && Exec(c, events).Done?
    ensures var c' := Exec(c, events).c;
            c'.Ok() && c'.kind != Reserve && Extends(c.v, c'.v)
  {
    if events != [] {
      var before := Exec(c, events[..|events| - 1]).c;
      ExecExtends(c, events[..|events| - 1]);
      StepOk(before, events[|events| - 1]);
      StepExtends(before, events[|events| - 1]);
    }
  }

  /**
   On every run what is on the wire stays there, and a packet that was started
   or that joined the high list is never overtaken by a later one: a high
   packet leaves before every low one that is still waiting when it comes.
   */
  lemma NothingGoesBack(kind: SocketType, script: seq<Outcome>, events: seq<Event>, i: nat)
    requires kind != Invalid && kind != Reserve && i <= |events|
    requires Exec(Opened(kind, script), events).Done?
    ensures Exec(Opened(kind, script), events[..i]).Done?
    ensures Extends(Exec(Opened(kind, script), events[..i]).c.v, Exec(Opened(kind, script), events).c.v)
  {
    assert events == events[..i] + events[i..];
    ExecSplit(Opened(kind, script), events[..i], events[i..]);
    RunOk(kind, script, events[..i]);
    ExecExtends(Exec(Opened(kind, script), events[..i]).c, events[i..]);
  }

  /** The packets of the sends, in order. */
  function Submitted(events: seq<Event>): seq<Packet> {
    if events == [] then []
    else
      var last := events[|events| - 1];
      Submitted(events[..|events| - 1]) + (if last.Send? then [last.p] else [])
  }

  /**
   A socket accepts what is sent to it in order: nothing before it is started,
   then all of it until it is closed or half-closed.
   */
  lemma {:induction false} AcceptedIsSubmitted(kind: SocketType, script: seq<Outcome>, events: seq<Event>)
    requires kind != Invalid && kind != Reserve
    requires Exec(Opened(kind, script), events).Done?
    ensures var c := Exec(Opened(kind, script), events).c;
            && c.v.accepted <= Submitted(events)
            && (c.kind == PAccept ==> c.v.accepted == [])
            && (c.kind != Invalid && c.kind != HalfClose && c.kind != PAccept ==> c.v.accepted == Submitted(events))
  {
    if events != [] {
      AcceptedIsSubmitted(kind, script, events[..|events| - 1]);
      RunOk(kind, script, events[..|events| - 1]);
      StepAccepts(Exec(Opened(kind, script), events[..|events| - 1]).c, events[|events| - 1]);
    }
  }

  lemma StepAccepts(c: Conn, e: Event)
    requires c.Ok() && c.kind != Reserve && c.Step(e).Done?
    ensures var c' := c.Step(e).c;
            && c'.v.accepted ==
               (if e.Send? && !c.Refuses() && !c'.Refuses() then c.v.accepted + [e.p] else c.v.accepted)
            && (c.Refuses() ==> c'.Refuses()) && (c'.kind == PAccept ==> c.kind == PAccept)
  {
    if c.Open() && e.Flush? {
      c.FlushedOk();
    } else if c.Open() && e.Close? {
      c.ClosedOk();
    }
  }

  lemma {:induction false} FilterPrefix<T>(a: seq<T>, b: seq<T>, p: T -> bool)
    requires a <= b
    ensures Filter(a, p) <= Filter(b, p)
  {
    assert b == a + b[|a|..];
    FilterConcat(a, b[|a|..], p);
  }

  /** A packet of which part is on the wire was accepted. */
  lemma HeadAccepted(v: Sender)
    requires v.Ok() && v.high != []
    ensures v.high[0].packet in v.accepted
  {
    SameByPriorityPermutes(v.Schedule(), v.accepted);
    assert v.Schedule()[|v.sent|] == v.high[0].packet;
    assert v.high[0].packet in multiset(v.accepted);
  }

  lemma SentIsSubmitted(v: Sender, submitted: seq<Packet>)
    requires v.Ok() && v.accepted <= submitted
    ensures forall p :: Filter(v.sent, OfPriority(p)) <= Filter(submitted, OfPriority(p))
  {
    NeverInterleaved(v);
    forall p: Priority
      ensures Filter(v.sent, OfPriority(p)) <= Filter(submitted, OfPriority(p))
    {
      FilterPrefix(v.accepted, submitted, OfPriority(p));
    }
  }

  /**
   At any time of any run, after a close of any kind as well, the wire holds
   whole packets followed by a prefix of at most one more accepted packet, and
   the whole ones of each priority are the first submitted of that priority, in
   order.
   */
  lemma WireHoldsWholePackets(kind: SocketType, script: seq<Outcome>, events: seq<Event>)
    requires kind != Invalid && kind != Reserve
    requires Exec(Opened(kind, script), events).Done?
    ensures var v := Exec(Opened(kind, script), events).c.v;
            && v.Shape() && v.wire == Flat(v.sent) + Prefix(v.high)
            && (v.high != [] ==> v.high[0].packet in v.accepted)
            && forall p :: Filter(v.sent, OfPriority(p)) <= Filter(Submitted(events), OfPriority(p))
  {
    hide Exec;
    var v := Exec(Opened(kind, script), events).c.v;
    RunOk(kind, script, events);
    AcceptedIsSubmitted(kind, script, events);
    SentIsSubmitted(v, Submitted(events));
    if v.high != [] {
      HeadAccepted(v);
    }
  }

  // ----- Half-close -----

  /** A socket on which close_socket was called: no data is taken any more. */
  predicate Ending(c: Conn) { c.kind == HalfClose || c.kind == Invalid }

  /** A half-closed or closed socket stays one; what it accepted and the order in which that is due stay the same. */
  lemma StepEnds(c: Conn, e: Event)
    requires c.Ok() && c.kind != Reserve && (Ending(c) || e.Close?)
    ensures c.Step(e).Done?
    ensures var c' := c.Step(e).c;
            c'.Ok() && Ending(c') && c'.v.Continues(c.v) && (c.kind == Invalid ==> c' == c)
  {
    hide SameByPriority, Flat, ListSent;
    if c.Open() && e.Flush? {
      c.FlushedOk();
    } else if c.Open() && e.Close? {
      c.ClosedOk();
    }
  }

  lemma {:induction false} EndingContinues(c: Conn, events: seq<Event>)
    requires c.Ok() && c.kind != Reserve && (Ending(c) || (events != [] && events[0].Close?))
    ensures Exec(c, events).Done?
    ensures var c' := Exec(c, events).c;
            c'.Ok() && c'.kind != Reserve && c'.v.Continues(c.v) && (Ending(c) || events != [] ==> Ending(c'))
  {
    if events == [] {
    } else if |events| == 1 {
      assert Exec(c, events[..0]) == Done(c);
      StepEnds(c, events[0]);
    } else {
      EndingContinues(c, events[..|events| - 1]);
      StepEnds(Exec(c, events[..|events| - 1]).c, events[|events| - 1]);
    }
  }

  /** Once close_socket was called nothing more is accepted, whatever is sent, and no assert fails. */
  lemma HalfCloseRefuses(kind: SocketType, script: seq<Outcome>, events: seq<Event>, i: nat)
    requires kind != Invalid && kind != Reserve && i < |events| && events[i].Close?
    requires Exec(Opened(kind, script), events[..i]).Done?
    ensures Exec(Opened(kind, script), events).Done?
    ensures var c, c' := Exec(Opened(kind, script), events[..i]).c, Exec(Opened(kind, script), events).c;
            Ending(c') && c'.v.accepted == c.v.accepted
  {
    assert events == events[..i] + events[i..];
    ExecSplit(Opened(kind, script), events[..i], events[i..]);
    RunOk(kind, script, events[..i]);
    EndingContinues(Exec(Opened(kind, script), events[..i]).c, events[i..]);
  }

  /** Everything that was due is sent once nothing is left to send. */
  lemma IdleDelivers(v: Sender, v': Sender)
    requires v.Ok() && v'.Ok() && v'.Continues(v) && v'.Idle()
    ensures v'.wire == v.Stream() && v'.sent == v.Schedule()
    ensures SameByPriority(v'.sent, v.accepted) && multiset(v'.sent) == multiset(v.accepted)
  {
    assert v'.Stream() == v'.wire && v'.Schedule() == v'.sent;
    SameByPriorityPermutes(v'.sent, v'.accepted);
  }

  /**
   Half-close delivers: after close_socket on an open socket, however long
   draining takes and whatever is sent to it meanwhile, the socket ends up on
   the wire with every byte it had accepted, in the order that was due, unless
   a write fails or the peer ends the connection first.
   */
  lemma DrainDelivers(kind: SocketType, script: seq<Outcome>, events: seq<Event>, i: nat)
    requires kind != Invalid && kind != Reserve && i < |events| && events[i].Close?
    requires Exec(Opened(kind, script), events[..i]).Done?
    requires Exec(Opened(kind, script), events[..i]).c.Open()
    ensures Exec(Opened(kind, script), events).Done?
    ensures var c, c' := Exec(Opened(kind, script), events[..i]).c, Exec(Opened(kind, script), events).c;
            && c.v.Shape()
            && (c'.kind == Invalid || (c'.kind == HalfClose && c'.reason == NotClosed))
            && (c'.kind == Invalid && c'.reason != WriteError && c'.reason != ReadEnd ==>
                  && c'.v.wire == c.v.Stream() && c'.v.sent == c.v.Schedule()
                  && SameByPriority(c'.v.sent, c.v.accepted) && multiset(c'.v.sent) == multiset(c.v.accepted))
  {
    assert events == events[..i] + events[i..];
    ExecSplit(Opened(kind, script), events[..i], events[i..]);
    RunOk(kind, script, events[..i]);
    var c := Exec(Opened(kind, script), events[..i]).c;
    EndingContinues(c, events[i..]);
    ReasonGiven(kind, script, events);
    hide *;
    var c' := Exec(Opened(kind, script), events).c;
    if c'.reason == Drained {
      IdleDelivers(c.v, c'.v);
    }
  }

  lemma StepGivesReason(c: Conn, e: Event)
    requires c.ItemsOk() && c.Step(e).Done? && (c.kind == Invalid <==> c.reason != NotClosed)
    ensures c.Step(e).c.kind == Invalid <==> c.Step(e).c.reason != NotClosed
  {
    hide ListSent;
  }

  /** A socket is closed exactly when a reason was given. */
  lemma {:induction false} ReasonGiven(kind: SocketType, script: seq<Outcome>, events: seq<Event>)
    requires kind != Invalid && kind != Reserve
    requires Exec(Opened(kind, script), events).Done?
    ensures var c := Exec(Opened(kind, script), events).c;
            c.kind == Invalid <==> c.reason != NotClosed
  {
    if events != [] {
      ReasonGiven(kind, script, events[..|events| - 1]);
      StepGivesReason(Exec(Opened(kind, script), events[..|events| - 1]).c, events[|events| - 1]);
      hide Conn.Step;
    }
  }

  // ----- The assert of send_socket -----

  /** A listening socket that nobody sends to stays as it was until it is closed. */
  lemma {:induction false} ListeningStays(kind: SocketType, script: seq<Outcome>, events: seq<Event>)
    requires kind == PListen || kind == Listen
    requires forall k :: 0 <= k < |events| ==> events[k].Flush?
    ensures Exec(Opened(kind, script), events) == Done(Opened(kind, script))
  {
    if events != [] {
      ListeningStays(kind, script, events[..|events| - 1]);
    }
  }

  lemma {:induction false} OnlyFlushed(kind: SocketType, script: seq<Outcome>, events: seq<Event>)
    requires kind != Invalid && kind != Reserve
    requires Exec(Opened(kind, script), events).Done? && Exec(Opened(kind, script), events).c.Listening()
    ensures (kind == PListen || kind == Listen) && forall k :: 0 <= k < |events| ==> events[k].Flush?
  {
    if events != [] {
      var first, last := events[..|events| - 1], events[|events| - 1];
      var before := Exec(Opened(kind, script), first).c;
      assert before.Listening();
      OnlyFlushed(kind, script, first);
      ListeningStays(kind, script, first);
      assert before.v.Idle();
      forall k | 0 <= k < |events|
        ensures events[k].Flush?
      {
        assert k < |first| ==> events[k] == first[k];
      }
    }
  }

  /** A send that comes while the socket listens: after nothing but idle flushes. */
  predicate SendsFirst(events: seq<Event>) {
    exists k :: 0 <= k < |events| && events[k].Send? && forall l :: 0 <= l < k ==> events[l].Flush?
  }

  /**
   The assert of send_socket fails exactly on a listening socket that is sent
   to before it is closed.
   */
  lemma {:induction false} SendAssertFails(kind: SocketType, script: seq<Outcome>, events: seq<Event>)
    requires kind != Invalid && kind != Reserve
    ensures Exec(Opened(kind, script), events).AssertFails?
            <==> (kind == PListen || kind == Listen) && SendsFirst(events)
  {
    if (kind == PListen || kind == Listen) && SendsFirst(events) {
      var k :| 0 <= k < |events| && events[k].Send? && forall l :: 0 <= l < k ==> events[l].Flush?;
      ListeningStays(kind, script, events[..k]);
      assert events[..k + 1][..k] == events[..k];
      assert events == events[..k + 1] + events[k + 1..];
      ExecSplit(Opened(kind, script), events[..k + 1], events[k + 1..]);
    }
    if Exec(Opened(kind, script), events).AssertFails? {
      FirstFailure(kind, script, events);
    }
  }

  lemma {:induction false} FirstFailure(kind: SocketType, script: seq<Outcome>, events: seq<Event>)
    requires kind != Invalid && kind != Reserve && Exec(Opened(kind, script), events).AssertFails?
    ensures (kind == PListen || kind == Listen) && SendsFirst(events)
  {
    var n := |events| - 1;
    if Exec(Opened(kind, script), events[..n]).AssertFails? {
      FirstFailure(kind, script, events[..n]);
      var k :| 0 <= k < n && events[..n][k].Send? && forall l :: 0 <= l < k ==> events[..n][l].Flush?;
      assert events[k].Send? && forall l :: 0 <= l < k ==> events[l] == events[..n][l];
    } else {
      OnlyFlushed(kind, script, events[..n]);
      assert events[n].Send? && forall l :: 0 <= l < n ==> events[l] == events[..n][l];
    }
  }

  /** The shortest such run: a listening socket that is sent one packet. */
  lemma ListeningSendFails(p: Packet)
    ensures Exec(Opened(Listen, []), [Send(p)]).AssertFails?
  {
    SendAssertFails(Listen, [], [Send(p)]);
    assert [Send(p)][0].Send?;
  }
}
