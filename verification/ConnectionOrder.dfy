/**
 The two priorities of a socket over every run: a high packet leaves before
 every low one that was still waiting in the low list when it was accepted.
 */
module ConnectionOrder {
  import opened Connections
  import opened ConnectionRuns
  import opened Senders
  import opened Sequences

  /** How many of the packets have this priority. */
  function Number(packets: seq<Packet>, p: Priority): nat {
    |Filter(packets, OfPriority(p))|
  }

  /** How many low packets need not wait for later high ones: those sent, and one that heads the high list. */
  function LowOut(v: Sender): nat {
    Number(v.sent, Low) + (if v.high != [] && v.high[0].packet.priority == Low then 1 else 0)
  }

  lemma NumberPrefix(a: seq<Packet>, b: seq<Packet>, p: Priority)
    requires a <= b
    ensures Number(a, p) <= Number(b, p)
  {
    FilterPrefix(a, b, OfPriority(p));
  }

  lemma SettledLow(v: Sender)
    requires v.Shape()
    ensures Number(Settled(v), Low) == LowOut(v)
  {
    var packets := Packets(v.high);
    FilterConcat(v.sent, packets, OfPriority(Low));
    if v.high != [] {
      assert packets == [packets[0]] + packets[1..];
      FilterConcat([packets[0]], packets[1..], OfPriority(Low));
      FilterNone(packets[1..], OfPriority(Low));
    }
  }

  lemma SettledHigh(v: Sender)
    requires v.Ok()
    ensures Filter(Settled(v), OfPriority(High)) == Filter(v.accepted, OfPriority(High))
  {
    FilterConcat(Settled(v), Packets(v.low), OfPriority(High));
    FilterNone(Packets(v.low), OfPriority(High));
    assert Filter(v.Schedule(), OfPriority(High)) == Filter(v.accepted, OfPriority(High));
  }

  /** Accepting a high packet brings no low one forward. */
  lemma AcceptingKeepsLowOut(c: Conn, p: Packet)
    requires c.Ok() && c.Open() && p.priority == High && c.Sent(p).Done?
    ensures LowOut(c.Sent(p).c.v) <= LowOut(c.v)
  {
    hide SameByPriority, Flat;
    FilterConcat(c.v.sent, [p], OfPriority(Low));
    assert Filter([p], OfPriority(Low)) == [];
    hide Filter;
  }

  lemma LaterLowComesAfter(v: Sender, v': Sender, a: nat)
    requires v.Ok() && v'.Ok() && Extends(v, v')
    requires a < |v'.sent| && v'.sent[a].priority == Low && Number(v'.sent[..a], Low) >= LowOut(v)
    ensures Settled(v) <= v'.sent[..a]
  {
    SettledLow(v);
    if a < |Settled(v)| {
      var upTo := v'.sent[..a + 1];
      assert upTo == v'.sent[..a] + [v'.sent[a]];
      FilterConcat(v'.sent[..a], [v'.sent[a]], OfPriority(Low));
      assert upTo <= Settled(v') && upTo <= Settled(v);
      NumberPrefix(upTo, Settled(v), Low);
    }
  }

  /**
   Over every run: let p be a high packet accepted at event i.  A low packet
   that was neither sent by then nor at the head of the high list, which is to
   say one with at least LowOut low ones before it, finds p sent before it.
   */
  lemma HighOvertakes(kind: SocketType, script: seq<Outcome>, events: seq<Event>, i: nat, a: nat)
    requires kind != Invalid && kind != Reserve
    requires Exec(Opened(kind, script), events).Done?
    requires i < |events| && events[i].Send? && events[i].p.priority == High
    requires Exec(Opened(kind, script), events[..i]).Done? && Exec(Opened(kind, script), events[..i + 1]).Done?
    requires var c, next := Exec(Opened(kind, script), events[..i]).c, Exec(Opened(kind, script), events[..i + 1]).c;
             next.v.accepted == c.v.accepted + [events[i].p]
    requires var c, last := Exec(Opened(kind, script), events[..i]).c, Exec(Opened(kind, script), events).c;
             a < |last.v.sent| && last.v.sent[a].priority == Low && Number(last.v.sent[..a], Low) >= LowOut(c.v)
    ensures var next, last := Exec(Opened(kind, script), events[..i + 1]).c, Exec(Opened(kind, script), events).c;
            && events[i].p in last.v.sent[..a]
            && Number(last.v.sent[..a], High) >= Number(next.v.accepted, High)
  {
    var start, p := Opened(kind, script), events[i].p;
    RunOk(kind, script, events[..i]);
    RunOk(kind, script, events[..i + 1]);
    RunOk(kind, script, events);
    ExecNext(start, events, i);
    NothingGoesBack(kind, script, events, i + 1);
    var c, next := Exec(start, events[..i]).c, Exec(start, events[..i + 1]).c;
    var sent := Exec(start, events).c.v.sent;
    assert c.Open();
    AcceptingKeepsLowOut(c, p);
    LaterLowComesAfter(next.v, Exec(start, events).c.v, a);
    SettledHigh(next.v);
    NumberPrefix(Settled(next.v), sent[..a], High);
    FilterMembers(next.v.accepted, OfPriority(High));
    FilterMembers(Settled(next.v), OfPriority(High));
    assert p in next.v.accepted;
    assert p in Settled(next.v);
  }

  // ----- What heads the high list -----

  /** A low packet of which nothing is sent heads the high list. */
  predicate LowUnstarted(v: Sender) {
    v.high != [] && v.high[0].packet.priority == Low && v.high[0].off == 0
  }

  lemma TailIsHigh(w: Writing, w': Writing)
    requires AllOk(w.items) && w.items != [] && forall i :: 1 <= i < |w.items| ==> w.items[i].packet.priority == High
    requires AllOk(w'.items) && w'.Keeps(w.Wholly())
    ensures forall i :: 0 <= i < |w'.items| ==> w'.items[i].packet.priority == High
  {
    w'.KeepsPackets(w.Wholly());
  }

  lemma PartlyStarts(w: Writing, n: nat)
    requires AllOk(w.items) && w.items != [] && n <= |w.items[0].Rest()|
    ensures w.Partly(n).items[0].off == 0 ==> w.Partly(n).items == w.items
  {
  }

  lemma {:induction false} ListKeepsUnstarted(w: Writing, script: seq<Outcome>)
    requires w.Ok() && forall i :: 1 <= i < |w.items| ==> w.items[i].packet.priority == High
    ensures var a := ListSent(w, script);
            a.w.items != [] && a.w.items[0].off == 0 && a.w.items[0].packet.priority == Low ==> a.w.items == w.items
    decreases |w.items|
  {
    assert AllOk(w.items);
    hide Flat, Unsent, Writing.Keeps, Writing.Ok, Writing.Partly;
    if w.items != [] {
      var ready, offered := Retried(script), |w.items[0].Rest()|;
      match NextResult(ready, offered) {
        case Wrote(n) =>
          if n == offered {
            w.WhollyKeeps();
            ListSentKeeps(w.Wholly(), Left(ready));
            TailIsHigh(w, ListSent(w.Wholly(), Left(ready)).w);
          } else {
            PartlyStarts(w, n);
          }
        case _ =>
      }
    }
  }

  /** No attempt to send raises a packet of which nothing is sent. */
  lemma FlushRaisesStarted(c: Conn)
    requires c.Ok() && c.Open() && LowUnstarted(c.Flushed().v)
    ensures c.Flushed().v.high == c.v.high
  {
    ListSentKeeps(c.v.HighWriting(), c.script);
    ListKeepsUnstarted(c.v.HighWriting(), c.script);
  }

  lemma UnstartedStep(c: Conn, e: Event)
    requires c.Ok() && c.kind != Reserve && c.Step(e).Done? && LowUnstarted(c.Step(e).c.v)
    ensures var v' := c.Step(e).c.v;
            || (e == Send(v'.high[0].packet) && c.v.Idle())
            || (c.v.high != [] && c.v.high[0] == v'.high[0])
  {
    hide SameByPriority, Flat;
    if c.Open() && (e.Flush? || (e.Close? && !c.v.Idle())) {
      FlushRaisesStarted(c);
    }
  }

  /**
   On every run, a low packet of which nothing is sent is in the high list only
   if it was sent while nothing was waiting.
   */
  lemma {:induction false} UnstartedWasFirst(kind: SocketType, script: seq<Outcome>, events: seq<Event>)
    returns (k: nat)
    requires kind != Invalid && kind != Reserve
    requires Exec(Opened(kind, script), events).Done? && LowUnstarted(Exec(Opened(kind, script), events).c.v)
    ensures k < |events| && events[k] == Send(Exec(Opened(kind, script), events).c.v.high[0].packet)
    ensures Exec(Opened(kind, script), events[..k]).Done? && Exec(Opened(kind, script), events[..k]).c.v.Idle()
  {
    var first := events[..|events| - 1];
    var before := Exec(Opened(kind, script), first).c;
    RunOk(kind, script, first);
    UnstartedStep(before, events[|events| - 1]);
    if before.v.Idle() {
      k := |events| - 1;
    } else {
      k := UnstartedWasFirst(kind, script, first);
      assert first[..k] == events[..k];
    }
  }

  lemma IdleSendSettles(c: Conn, e: Event, next: Conn)
    requires c.ItemsOk() && c.v.Idle() && e.Send? && c.Step(e) == Done(next)
    requires next.v.accepted == c.v.accepted + [e.p]
    ensures Settled(next.v) == c.v.sent + [e.p]
  {
  }

  lemma SettledNext(v: Sender, next: Sender, last: Sender, p: Packet)
    requires Extends(v, last) && Extends(next, last) && Settled(next) == v.sent + [p]
    ensures v.sent <= last.sent && (|v.sent| < |last.sent| ==> last.sent[|v.sent|] == p)
  {
    assert Settled(last)[|v.sent|] == Settled(next)[|v.sent|] == p;
  }

  /** On every run, a packet accepted while nothing is waiting is the next to leave, whatever its priority. */
  lemma IdleGoesNext(kind: SocketType, script: seq<Outcome>, events: seq<Event>, i: nat)
    requires kind != Invalid && kind != Reserve
    requires Exec(Opened(kind, script), events).Done? && i < |events| && events[i].Send?
    requires Exec(Opened(kind, script), events[..i]).Done? && Exec(Opened(kind, script), events[..i]).c.v.Idle()
    requires Exec(Opened(kind, script), events[..i + 1]).Done?
    requires Exec(Opened(kind, script), events[..i + 1]).c.v.accepted ==
             Exec(Opened(kind, script), events[..i]).c.v.accepted + [events[i].p]
    ensures var sent, sent' := Exec(Opened(kind, script), events[..i]).c.v.sent,
                               Exec(Opened(kind, script), events).c.v.sent;
            sent <= sent' && (|sent| < |sent'| ==> sent'[|sent|] == events[i].p)
  {
    var start := Opened(kind, script);
    ExecNext(start, events, i);
    NothingGoesBack(kind, script, events, i);
    NothingGoesBack(kind, script, events, i + 1);
    hide *;
    var c, next, last := Exec(start, events[..i]).c, Exec(start, events[..i + 1]).c, Exec(start, events).c;
    IdleSendSettles(c, events[i], next);
    SettledNext(c.v, next.v, last.v, events[i].p);
  }
}
