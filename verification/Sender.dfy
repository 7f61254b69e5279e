/**
 The sending side of a socket as a value: packets, the two lists of what is
 unsent, the bytes on the wire, and what each operation does to them.
 */
module Senders {
  import opened Sequences

  type Bytes = seq<bv8>

  datatype Priority = High | Low

  datatype Packet = Packet(id: nat, priority: Priority, data: Bytes)

  /** A packet of which the first `off` bytes are on the wire. */
  datatype Item = Item(packet: Packet, off: nat) {
    predicate Ok() { off <= |packet.data| }

    function Rest(): Bytes
      requires Ok()
    {
      packet.data[off..]
    }
  }

  predicate AllOk(items: seq<Item>) {
    forall i :: 0 <= i < |items| ==> items[i].Ok()
  }

  /** The unsent bytes of a list, in the order they will leave. */
  function Unsent(items: seq<Item>): Bytes
    requires AllOk(items)
  {
    if items == [] then [] else items[0].Rest() + Unsent(items[1..])
  }

  /** The bytes of the first packet that have already left. */
  function Prefix(items: seq<Item>): Bytes
    requires AllOk(items)
  {
    if items == [] then [] else items[0].packet.data[..items[0].off]
  }

  function Packets(items: seq<Item>): (r: seq<Packet>)
    ensures |r| == |items|
  {
    seq(|items|, i requires 0 <= i < |items| => items[i].packet)
  }

  function Flat(packets: seq<Packet>): Bytes {
    if packets == [] then [] else Flat(packets[..|packets| - 1]) + packets[|packets| - 1].data
  }

  /** Only the first packet of a list may be partly sent. */
  predicate WholeAfterHead(items: seq<Item>) {
    forall i :: 1 <= i < |items| ==> items[i].off == 0
  }

  lemma {:induction false} UnsentAppend(items: seq<Item>, item: Item)
    requires AllOk(items) && item.Ok()
    ensures AllOk(items + [item])
    ensures Unsent(items + [item]) == Unsent(items) + item.Rest()
  {
    if items == [] {
      assert items + [item] == [item];
      assert Unsent([item][1..]) == [];
    } else {
      assert (items + [item])[1..] == items[1..] + [item];
      UnsentAppend(items[1..], item);
      ConcatAssociates(items[0].Rest(), Unsent(items[1..]), item.Rest());
    }
  }

  lemma FlatAppend(packets: seq<Packet>, p: Packet)
    ensures Flat(packets + [p]) == Flat(packets) + p.data
  {
    assert (packets + [p])[..|packets|] == packets;
  }

  lemma PacketsAppend(items: seq<Item>, item: Item)
    ensures Packets(items + [item]) == Packets(items) + [item.packet]
  {
  }

  /** The value of a list being written: the bytes on the wire, the packets completed, the size counter, the list. */
  datatype Writing = Writing(wire: Bytes, sent: seq<Packet>, size: int, items: seq<Item>) {
    predicate Ok() {
      AllOk(items) && WholeAfterHead(items) && wire == Flat(sent) + Prefix(items)
    }

    /** What writing must not change: the bytes and the packets in order, and what the counter is off by. */
    predicate Keeps(before: Writing)
      requires AllOk(items) && AllOk(before.items)
    {
      && |items| <= |before.items|
      && wire + Unsent(items) == before.wire + Unsent(before.items)
      && sent + Packets(items) == before.sent + Packets(before.items)
      && size - |Unsent(items)| == before.size - |Unsent(before.items)|
      && size <= before.size
    }

    /** What is left of the list are its last packets. */
    lemma KeepsPackets(before: Writing)
      requires AllOk(items) && AllOk(before.items) && Keeps(before)
      ensures forall i :: 0 <= i < |items| ==>
                items[i].packet == before.items[|before.items| - |items| + i].packet
    {
      var shift := |before.items| - |items|;
      forall i | 0 <= i < |items|
        ensures items[i].packet == before.items[shift + i].packet
      {
        assert |sent| + |items| == |before.sent| + |before.items|;
        assert (sent + Packets(items))[|sent| + i] == (before.sent + Packets(before.items))[|before.sent| + shift + i];
        assert Packets(items)[i] == Packets(before.items)[shift + i];
      }
    }

    function Partly(n: nat): Writing
      requires AllOk(items) && items != [] && n <= |items[0].Rest()|
    {
      Writing(wire + items[0].Rest()[..n], sent, size - n, items[0 := Item(items[0].packet, items[0].off + n)])
    }

    function Wholly(): Writing
      requires AllOk(items) && items != []
    {
      Writing(wire + items[0].Rest(), sent + [items[0].packet], size - |items[0].Rest()|, items[1..])
    }

    /** Writing n bytes of the first packet moves them from the list to the wire. */
    lemma PartlyKeeps(n: nat)
      requires Ok() && items != [] && n <= |items[0].Rest()|
      ensures Partly(n).Ok() && Partly(n).Keeps(this)
    {
      var items', head := Partly(n).items, items[0].Rest()[..n];
      assert items'[1..] == items[1..];
      assert items[0].Rest() == head + items'[0].Rest();
      ConcatAssociates(head, items'[0].Rest(), Unsent(items[1..]));
      assert Prefix(items') == Prefix(items) + head;
      ConcatAssociates(Flat(sent), Prefix(items), head);
      ConcatAssociates(wire, head, Unsent(items'));
      assert Packets(items') == Packets(items);
    }

    /** Writing the rest of the first packet completes it. */
    lemma WhollyKeeps()
      requires Ok() && items != []
      ensures Wholly().Ok() && Wholly().Keeps(this)
    {
      var rest, tail := items[0].Rest(), items[1..];
      FlatAppend(sent, items[0].packet);
      assert items[0].packet.data == Prefix(items) + rest;
      assert tail != [] ==> tail[0] == items[1];
      assert Prefix(tail) == [];
      ConcatAssociates(Flat(sent), Prefix(items), rest);
      ConcatAssociates(wire, rest, Unsent(tail));
      assert Packets(items) == [items[0].packet] + Packets(tail);
      ConcatAssociates(sent, [items[0].packet], Packets(tail));
    }
  }

  // ----- The two lists together -----

  function OfPriority(p: Priority): Packet -> bool { (x: Packet) => x.priority == p }

  /** The two lists hold the same packets, those of each priority in the same order. */
  ghost predicate SameByPriority(a: seq<Packet>, b: seq<Packet>) {
    forall p: Priority :: Filter(a, OfPriority(p)) == Filter(b, OfPriority(p))
  }

  lemma SameByPriorityAppend(a: seq<Packet>, b: seq<Packet>, x: Packet)
    requires SameByPriority(a, b)
    ensures SameByPriority(a + [x], b + [x])
  {
    forall p: Priority
      ensures Filter(a + [x], OfPriority(p)) == Filter(b + [x], OfPriority(p))
    {
      assert Filter(a, OfPriority(p)) == Filter(b, OfPriority(p));
      FilterConcat(a, [x], OfPriority(p));
      FilterConcat(b, [x], OfPriority(p));
    }
  }

  /**
   The bytes written so far, the packets completely written, the wb_size counter,
   the two lists, and the packets accepted, in submission order.
   */
  datatype Sender = Sender(
    wire: Bytes,
    sent: seq<Packet>,
    size: int,
    high: seq<Item>,
    low: seq<Item>,
    accepted: seq<Packet>)
  {
    /**
     Only the first packet of the high list may be partly sent, and only that one
     may be of low priority; the low list is for low priority.
     */
    predicate Shape() {
      && AllOk(high) && AllOk(low) && WholeAfterHead(high)
      && (forall i :: 1 <= i < |high| ==> high[i].packet.priority == High)
      && forall i :: 0 <= i < |low| ==> low[i].off == 0 && low[i].packet.priority == Low
    }

    /** The packets in the order in which they would all leave if no more came. */
    function Schedule(): seq<Packet> { sent + Packets(high) + Packets(low) }

    /** The bytes in that order, those on the wire first. */
    function Stream(): Bytes
      requires Shape()
    {
      wire + Unsent(high) + Unsent(low)
    }

    ghost predicate Ok() {
      && Shape()
      && wire == Flat(sent) + Prefix(high)
      && size == |Unsent(high)| + |Unsent(low)|
      && SameByPriority(Schedule(), accepted)
    }

    /** Sending neither reorders nor loses nor invents anything, and never goes back. */
    predicate Continues(before: Sender)
      requires Shape() && before.Shape()
    {
      && Stream() == before.Stream() && Schedule() == before.Schedule() && accepted == before.accepted
      && size <= before.size && |before.sent| <= |sent| && |low| <= |before.low|
    }

    /** Nothing is waiting. */
    predicate Idle() { high == [] && low == [] }

    function HighWriting(): Writing { Writing(wire, sent, size, high) }

    function LowWriting(): Writing { Writing(wire, sent, size, low) }

    function AfterHigh(w: Writing): Sender { Sender(w.wire, w.sent, w.size, w.items, low, accepted) }

    /** A packet partly sent from the low list is raised to the empty high list. */
    function Raised(): Sender {
      if low != [] && low[0].off != 0 then this.(high := [low[0]], low := low[1..]) else this
    }

    /** The low list is sent only while the high one is empty. */
    function LowLeft(w: Writing): Sender { Sender(w.wire, w.sent, w.size, [], w.items, accepted) }

    function AfterLow(w: Writing): Sender { LowLeft(w).Raised() }

    lemma AfterHighContinues(w: Writing)
      requires Ok() && w.Ok() && w.Keeps(HighWriting())
      ensures AfterHigh(w).Ok() && AfterHigh(w).Continues(this)
    {
      w.KeepsPackets(HighWriting());
      var v := AfterHigh(w);
      assert v.Schedule() == (w.sent + Packets(w.items)) + Packets(low);
      assert v.Stream() == (w.wire + Unsent(w.items)) + Unsent(low);
    }

    /** Raising changes neither the order of what is left nor its bytes. */
    lemma RaisedKeeps()
      requires high == [] && AllOk(low) && WholeAfterHead(low)
      requires forall i :: 0 <= i < |low| ==> low[i].packet.priority == Low
      ensures var v := Raised();
              && v.Shape() && Prefix(v.high) == Prefix(low)
              && v.Schedule() == sent + Packets(low) && v.Stream() == wire + Unsent(low)
              && |Unsent(v.high)| + |Unsent(v.low)| == |Unsent(low)|
    {
      if low != [] && low[0].off != 0 {
        RaisedPackets(low);
        ConcatAssociates(sent, Packets([low[0]]), Packets(low[1..]));
        ConcatAssociates(wire, Unsent([low[0]]), Unsent(low[1..]));
      } else {
        assert sent + Packets([]) == sent && wire + Unsent([]) == wire;
      }
    }

    lemma AfterLowContinues(w: Writing)
      requires Ok() && high == [] && w.Ok() && w.Keeps(LowWriting())
      ensures AfterLow(w).Ok() && AfterLow(w).Continues(this)
    {
      w.KeepsPackets(LowWriting());
      LowLeft(w).RaisedKeeps();
      assert Schedule() == sent + Packets(low) && Stream() == wire + Unsent(low);
    }

    /** A packet queued behind others of its class. */
    function Queued(p: Packet): Sender {
      var item := Item(p, 0);
      if p.priority == Low
      then Sender(wire, sent, size + |p.data|, high, low + [item], accepted + [p])
      else Sender(wire, sent, size + |p.data|, high + [item], low, accepted + [p])
    }

    lemma QueuedOk(p: Packet)
      requires Ok() && (high != [] || low != [])
      ensures Queued(p).Ok()
    {
      var item := Item(p, 0);
      UnsentAppend(high, item);
      UnsentAppend(low, item);
      PacketsAppend(high, item);
      PacketsAppend(low, item);
      SameByPriorityAppend(Schedule(), accepted, p);
      if p.priority == Low {
        assert Queued(p).Schedule() == Schedule() + [p];
      } else {
        forall q: Priority
          ensures Filter(Queued(p).Schedule(), OfPriority(q)) == Filter(Schedule() + [p], OfPriority(q))
        {
          HighBeforeLow(p, q);
          FilterConcat(Schedule(), [p], OfPriority(q));
        }
        hide Filter;
      }
    }

    lemma HighBeforeLow(p: Packet, q: Priority)
      requires Shape() && p.priority == High
      ensures Filter(sent + (Packets(high) + [p]) + Packets(low), OfPriority(q)) ==
              Filter(Schedule(), OfPriority(q)) + Filter([p], OfPriority(q))
    {
      var ahead, behind := sent + Packets(high), Packets(low);
      assert sent + (Packets(high) + [p]) + behind == (ahead + [p]) + behind;
      FilterConcat(ahead + [p], behind, OfPriority(q));
      FilterConcat(ahead, [p], OfPriority(q));
      FilterConcat(ahead, behind, OfPriority(q));
      if q == High {
        FilterNone(behind, OfPriority(High));
      } else {
        FilterNone([p], OfPriority(Low));
      }
    }

    /** A packet of which n bytes are written at once; the rest goes to the high list whatever its class. */
    function Direct(p: Packet, n: nat): Sender
      requires n <= |p.data|
    {
      if n == |p.data| then Sender(wire + p.data, sent + [p], size, high, low, accepted + [p])
      else Sender(wire + p.data[..n], sent, size + |p.data| - n, [Item(p, n)], low, accepted + [p])
    }

    lemma DirectSchedule(p: Packet, n: nat)
      requires Idle() && n <= |p.data|
      ensures Schedule() == sent && Direct(p, n).Schedule() == sent + [p]
    {
    }

    lemma DirectOk(p: Packet, n: nat)
      requires Ok() && high == [] && low == [] && n <= |p.data|
      ensures Direct(p, n).Ok()
    {
      hide Filter;
      FlatAppend(sent, p);
      assert n < |p.data| ==> Unsent([Item(p, n)][1..]) == [];
      assert SameByPriority(Direct(p, n).Schedule(), accepted + [p]) by {
        hide *;
        DirectSchedule(p, n);
        SameByPriorityAppend(sent, accepted, p);
      }
    }
  }

  // ----- What being on the wire means -----

  /** Same packets in the same order by priority: in particular the same packets, each as often. */
  lemma {:induction false} SameByPriorityPermutes(a: seq<Packet>, b: seq<Packet>)
    requires SameByPriority(a, b)
    ensures multiset(a) == multiset(b)
  {
    SplitByPriority(a);
    SplitByPriority(b);
    assert Filter(a, OfPriority(High)) == Filter(b, OfPriority(High));
    assert Filter(a, OfPriority(Low)) == Filter(b, OfPriority(Low));
  }

  lemma {:induction false} SplitByPriority(a: seq<Packet>)
    ensures multiset(a) == multiset(Filter(a, OfPriority(High))) + multiset(Filter(a, OfPriority(Low)))
  {
    if a != [] {
      SplitByPriority(a[1..]);
      var own, others := Filter(a[1..], OfPriority(a[0].priority)), multiset(a[1..]);
      assert a == [a[0]] + a[1..];
      assert Filter(a, OfPriority(a[0].priority)) == [a[0]] + own;
      assert multiset([a[0]] + own) == multiset{a[0]} + multiset(own);
    }
  }

  /**
   At any time the wire holds whole packets and then a prefix of at most one,
   whose rest heads the high list; the sent packets of each priority are the
   first ones submitted; and nothing accepted is lost.
   */
  lemma NeverInterleaved(v: Sender)
    requires v.Ok()
    ensures v.wire == Flat(v.sent) + (if v.high == [] then [] else v.high[0].packet.data[..v.high[0].off])
    ensures forall p :: Filter(v.sent, OfPriority(p)) <= Filter(v.accepted, OfPriority(p))
    ensures multiset(v.accepted) == multiset(v.sent) + multiset(Packets(v.high)) + multiset(Packets(v.low))
  {
    forall p: Priority
      ensures Filter(v.sent, OfPriority(p)) <= Filter(v.accepted, OfPriority(p))
    {
      assert Filter(v.Schedule(), OfPriority(p)) == Filter(v.accepted, OfPriority(p));
      FilterConcat(v.sent + Packets(v.high), Packets(v.low), OfPriority(p));
      FilterConcat(v.sent, Packets(v.high), OfPriority(p));
    }
    SameByPriorityPermutes(v.Schedule(), v.accepted);
  }

  /** Splitting a list after its first packet keeps its packets and bytes in order. */
  lemma RaisedPackets(items: seq<Item>)
    requires AllOk(items) && items != []
    ensures Packets([items[0]]) + Packets(items[1..]) == Packets(items)
    ensures AllOk(items[1..]) && Unsent([items[0]]) + Unsent(items[1..]) == Unsent(items)
    ensures Prefix([items[0]]) == Prefix(items)
  {
    assert Unsent([items[0]][1..]) == [];
  }
}
