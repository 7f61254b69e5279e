/**
 The sending side of one socket of socket_server.c, from its reservation to its
 forced close, against an arbitrary sequence of results of the write call.
 */
module Sockets {
  import opened Connections
  import opened ConnectionRuns
  import opened Senders
  import opened Sequences
  import opened WriteBuffers

  class Socket {
    const id: nat
    var kind: SocketType
    var wbSize: int
    const high: WriteBufferList
    const low: WriteBufferList
    var script: seq<Outcome>          // what the coming calls of write will return
    ghost var wire: Bytes             // every byte written to the descriptor
    ghost var sent: seq<Packet>       // the packets completely written, in wire order
    ghost var accepted: seq<Packet>   // the packets send_socket took, in submission order
    ghost var reason: CloseReason
    ghost var final: Sender           // the sending side at the last close

    ghost function Value(): Sender
      reads this, high, low
    {
      Sender(wire, sent, wbSize, high.items, low.items, accepted)
    }

    ghost predicate Open()
      reads this`kind
    {
      kind != Invalid && kind != Reserve
    }

    ghost function Model(): Conn
      reads this, high, low
    {
      Conn(kind, reason, if Open() then Value() else final, script)
    }

    ghost function Repr(): set<WriteBuffer>
      reads high, low
    {
      high.repr + low.repr
    }

    ghost predicate Lists()
      reads this, high, low, high.repr, low.repr
    {
      high != low && high.repr !! low.repr && high.Valid() && low.Valid()
    }

    /** A closed socket keeps no buffers, and what it had written stays written. */
    ghost predicate Empty()
      reads this, high, low
    {
      && high.items == [] && low.items == []
      && final.wire == wire && final.sent == sent && final.accepted == accepted
    }

    ghost predicate Valid()
      reads this, high, low, high.repr, low.repr
    {
      Lists() && (Open() || Empty()) && Model().Ok()
    }

    /**
     Whether the socket is open or was closed in any way, a failed write
     included, the wire holds whole packets and a prefix of at most one more.
     */
    lemma WireIsWhole()
      requires Valid()
      ensures var started := Model().v.high;
              && AllOk(started) && wire == Flat(sent) + Prefix(started)
              && (started != [] ==> started[0].packet in accepted)
      ensures forall p :: Filter(sent, OfPriority(p)) <= Filter(accepted, OfPriority(p))
    {
      var v := Model().v;
      NeverInterleaved(v);
      if v.high != [] {
        HeadAccepted(v);
      }
    }

    constructor (id: nat)
      ensures Valid() && kind == Invalid && this.id == id
      ensures fresh(high) && fresh(low) && fresh(high.repr) && fresh(low.repr)
    {
      this.id, kind, wbSize, script := id, Invalid, 0, [];
      wire, sent, accepted, reason, final := [], [], [], NotClosed, NEW_SENDER;
      high := new WriteBufferList();
      low := new WriteBufferList();
      new;
      OpenedOk(Invalid, []);
      hide Conn.Ok;
      assert Model() == Opened(Invalid, []);
    }

    /** reserve_id takes the slot. */
    method TakeSlot() returns (ok: bool)
      requires Valid()
      modifies this`kind
      ensures Valid() && ok == (old(kind) == Invalid) && kind == if ok then Reserve else old(kind)
    {
      ok := kind == Invalid;
      if ok {
        kind := Reserve;
      }
    }

    /** new_fd starts a new life of the slot. */
    method Reset(results: seq<Outcome>)
      requires high.items == [] && low.items == []
      modifies this`wbSize, this`script, this`wire, this`sent, this`accepted, this`reason
      ensures Value() == NEW_SENDER && script == results && reason == NotClosed
    {
      wbSize, script := 0, results;
      wire, sent, accepted, reason := [], [], [], NotClosed;
    }

    /**
     new_fd, followed by the caller's choice of type; the lists left behind are
     empty, as check_wb_list asserts.  The slot is given up if the event pool
     refuses the descriptor.
     */
    method NewFd(become: SocketType, results: seq<Outcome>, watched: bool) returns (ok: bool)
      requires Valid() && kind == Reserve && become != Invalid && become != Reserve
      modifies this
      ensures Valid() && ok == watched
      ensures Model() == if ok then Opened(become, results) else old(Model()).(kind := Invalid)
    {
      if !watched {
        kind := Invalid;
        return false;
      }
      Reset(results);
      assert high.head == null && high.tail == null;
      assert low.head == null && low.tail == null;
      kind := become;
      OpenedOk(become, results);
      hide Conn.Ok;
      assert Model() == Opened(become, results);
      return true;
    }

    // ----- write -----

    /** The write call: the next result of the script, with as many bytes as it says. */
    method Write(data: Bytes) returns (r: Outcome)
      modifies this`script, this`wire
      ensures r == NextResult(old(script), |data|) && script == Left(old(script))
      ensures wire == if r.Wrote? then old(wire) + data[..r.n] else old(wire)
    {
      if script == [] {
        return Eagain;
      }
      r := script[0];
      script := script[1..];
      if r.Wrote? {
        r := Wrote(if r.n <= |data| then r.n else |data|);
        wire := wire + data[..r.n];
      }
    }

    /** The retry loop of send_list: EINTR is never the answer. */
    method WriteRetrying(data: Bytes) returns (r: Outcome)
      modifies this`script, this`wire
      ensures r == NextResult(Retried(old(script)), |data|) && script == Left(Retried(old(script)))
      ensures wire == if r.Wrote? then old(wire) + data[..r.n] else old(wire)
    {
      ghost var ready := Retried(script);
      r := Write(data);
      while r.Eintr?
        invariant if r.Eintr? then Retried(script) == ready else r == NextResult(ready, |data|) && script == Left(ready)
        invariant wire == if r.Wrote? then old(wire) + data[..r.n] else old(wire)
        decreases |script| + (if r.Eintr? then 1 else 0)
      {
        r := Write(data);
      }
    }

    /** force_close */
    method ForceClose(ghost why: CloseReason)
      requires high != low && high.Linked() && low.Linked() && kind != Reserve
      modifies this`kind, this`reason, this`final, high, low
      ensures if old(kind) == Invalid then unchanged(this) && unchanged(high) && unchanged(low)
              else Lists() && Empty() && Model() == old(Conn(kind, reason, Value(), script)).Shut(why)
      ensures Repr() <= old(Repr())
    {
      if kind == Invalid {
        return;
      }
      assert kind != Reserve;
      final := Value();
      high.Free();
      low.Free();
      kind, reason := Invalid, why;
    }

    // ----- send_list -----

    ghost function State(list: WriteBufferList): Writing
      reads this, list
    {
      Writing(wire, sent, wbSize, list.items)
    }

    /** Notes that the first n bytes of what was left of the first packet are written. */
    method NotePart(list: WriteBufferList, n: nat, ghost before: Writing)
      requires list.Linked() && AllOk(before.items) && before.items != [] && n <= |before.items[0].Rest()|
      requires State(list) == before.(wire := before.wire + before.items[0].Rest()[..n], size := before.size - n)
      modifies list`items, list.repr
      ensures list.Linked() && State(list) == before.Partly(n)
    {
      list.Advance(n);
    }

    /** Notes that the first packet is written, and unlinks it. */
    method NoteWhole(list: WriteBufferList, ghost before: Writing)
      requires list.Linked() && AllOk(before.items) && before.items != []
      requires State(list) ==
               before.(wire := before.wire + before.items[0].Rest(), size := before.size - |before.items[0].Rest()|)
      modifies this`sent, list`head, list`nodes, list`items
      ensures list.Linked() && State(list) == before.Wholly()
    {
      var tmp := list.DropHead();
      assert tmp.Holds(before.items[0]);
      sent := sent + [tmp.packet];
    }

    /** What send_list does after a write that took n bytes of the first packet. */
    method NoteWritten(list: WriteBufferList, n: nat, ghost before: Writing) returns (whole: bool)
      requires list.Linked() && AllOk(before.items) && before.items != [] && n <= |before.items[0].Rest()|
      requires State(list) == before.(wire := before.wire + before.items[0].Rest()[..n])
      modifies this`wbSize, this`sent, list`head, list`nodes, list`items, list.repr
      ensures list.Linked() && whole == (n == |before.items[0].Rest()|)
      ensures State(list) == if whole then before.Wholly() else before.Partly(n)
    {
      assert list.nodes[0].Holds(list.items[0]);
      wbSize := wbSize - n;
      whole := n == list.head.sz;
      if whole {
        assert before.items[0].Rest()[..n] == before.items[0].Rest();
        NoteWhole(list, before);
      } else {
        NotePart(list, n, before);
      }
    }

    /** One turn of the outer loop of send_list: the first packet. */
    method SendHead(list: WriteBufferList) returns (answer: Answer)
      requires list.Linked() && list.items != []
      modifies this`script, this`wire, this`wbSize, this`sent, list`head, list`nodes, list`items, list.repr
      ensures list.Linked()
      ensures answer.Full? ==>
                && |list.items| < |old(list.items)|
                && ListSent(State(list), script) == ListSent(old(State(list)), old(script))
      ensures !answer.Full? ==>
                list.items != [] && Attempt(State(list), script, answer) == ListSent(old(State(list)), old(script))
    {
      ghost var before := State(list);
      var tmp := list.head;
      assert list.nodes[0].Holds(list.items[0]);
      var data := tmp.packet.data[tmp.ptr..tmp.ptr + tmp.sz];
      assert data == before.items[0].Rest();
      var r := WriteRetrying(data);
      if r.Wrote? {
        var whole := NoteWritten(list, r.n, before);
        return if whole then Full else Short;
      }
      return if r.Failed? then Error else Short;
    }

    /** The outer loop of send_list, up to the first packet that does not go out whole. */
    method SendWhole(list: WriteBufferList) returns (answer: Answer)
      requires list.Valid()
      modifies this`script, this`wire, this`wbSize, this`sent
      modifies list`tail, list`head, list`nodes, list`items, list.repr
      ensures if answer.Error? then list.Linked() else list.Valid()
      ensures Attempt(State(list), script, answer) == ListSent(old(State(list)), old(script))
    {
      ghost var all := ListSent(State(list), script);
      while !list.Empty()
        invariant list.Linked() && ListSent(State(list), script) == all
        decreases |list.items|
      {
        answer := SendHead(list);
        if !answer.Full? {
          return;
        }
      }
      list.tail := null;
      return Full;
    }

    /** The value v after an attempt to send one of the lists. */
    ghost function With(v: Sender, list: WriteBufferList, w: Writing): Sender {
      Sender(w.wire, w.sent, w.size, if list == high then w.items else v.high, if list == low then w.items else v.low,
             v.accepted)
    }

    /** send_list: closes the socket when a write failed. */
    method SendList(list: WriteBufferList, ghost other: WriteBufferList) returns (closed: bool)
      requires {list, other} == {high, low} && list != other && list.repr !! other.repr
      requires list.Valid() && other.Valid() && Open()
      modifies this`script, this`wire, this`wbSize, this`sent, this`kind, this`reason, this`final
      modifies list, other, list.repr
      ensures Lists() && (closed ==> Empty())
      ensures var a := ListSent(old(State(list)), old(script));
              var c := old(Model()).(v := With(old(Value()), list, a.w), script := a.script);
              closed == a.answer.Error? && Model() == if closed then c.Shut(WriteError) else c
      ensures !closed ==> list.repr == old(list.repr) && other.repr == old(other.repr)
      ensures Repr() <= old(Repr())
    {
      hide ListSent;
      ghost var v := Value();
      var answer := SendWhole(list);
      assert Value() == With(v, list, State(list));
      hide With, State;
      closed := answer.Error?;
      if closed {
        ForceClose(WriteError);
      }
    }

    // ----- send_buffer -----

    /** raise_uncomplete: the first packet of the low list moves to the empty high list. */
    method RaiseUncomplete()
      requires Lists() && high.items == [] && low.items != []
      modifies high, low, low.repr
      ensures Lists()
      ensures high.items == [old(low.items)[0]] && low.items == old(low.items)[1..]
      ensures Repr() <= old(Repr())
    {
      var tmp := low.TakeHead();
      high.PutAlone(tmp, old(low.items)[0]);
    }

    /** Step 3 of send_buffer. */
    method RaisePartly()
      requires Lists() && high.items == []
      modifies high, low, low.repr
      ensures Lists() && Value() == old(Value()).Raised()
      ensures Repr() <= old(Repr())
    {
      var partly := low.Uncomplete();
      if partly {
        RaiseUncomplete();
      }
    }

    /** Steps 2 and 3 of send_buffer: the high list is empty and the low one is not. */
    method SendLow() returns (closed: bool)
      requires Lists() && Open() && high.items == [] && low.items != []
      modifies this`script, this`wire, this`wbSize, this`sent, this`kind, this`reason, this`final
      modifies high, low, low.repr
      ensures Lists() && closed == (kind == Invalid) && (closed ==> Empty())
      ensures Model() == old(Model()).LowFlushed()
      ensures Repr() <= old(Repr())
    {
      closed := SendList(low, high);
      if !closed {
        RaisePartly();
      }
    }

    /** Step 1 of send_buffer. */
    method SendHigh() returns (closed: bool)
      requires Lists() && Open()
      modifies this`script, this`wire, this`wbSize, this`sent, this`kind, this`reason, this`final
      modifies high, low, high.repr
      ensures Lists() && (closed ==> Empty()) && (!closed ==> low.repr == old(low.repr))
      ensures var a := ListSent(old(Value()).HighWriting(), old(script));
              var c := old(Model()).(v := old(Value()).AfterHigh(a.w), script := a.script);
              closed == a.answer.Error? && Model() == if closed then c.Shut(WriteError) else c
      ensures Repr() <= old(Repr())
    {
      closed := SendList(high, low);
    }

    /** send_buffer; closed if the socket was, by a failed write or as a drained half-closed socket. */
    method SendBuffer() returns (closed: bool)
      requires Valid() && Open()
      modifies this`script, this`wire, this`wbSize, this`sent, this`kind, this`reason, this`final
      modifies high, low, high.repr, low.repr
      ensures Valid() && closed == (kind == Invalid)
      ensures Model() == old(Model()).Flushed() && old(wire) <= wire
      ensures Repr() <= old(Repr())
    {
      ghost var before := Model();
      before.FlushedOk();
      ContinuesExtends(before.v, before.Flushed().v);
      var partly := low.Uncomplete();
      assert !partly;
      closed := SendHigh();
      if closed {
        return;
      }
      if high.Empty() {
        if !low.Empty() {
          closed := SendLow();
        } else if kind == HalfClose {
          ForceClose(Drained);
          closed := true;
        }
      }
    }

    // ----- Requests -----

    /** append_sendbuffer */
    method AppendHigh(p: Packet, n: nat)
      requires Lists() && n <= |p.data|
      modifies this`wbSize, high, high.repr
      ensures Lists()
      ensures Value() == old(Value()).(high := old(high.items) + [Item(p, n)], size := old(wbSize) + |p.data| - n)
      ensures fresh(Repr() - old(Repr()))
    {
      var size := high.Append(p, n);
      wbSize := wbSize + size;
    }

    /** append_sendbuffer_low */
    method AppendLow(p: Packet)
      requires Lists()
      modifies this`wbSize, low, low.repr
      ensures Lists()
      ensures Value() == old(Value()).(low := old(low.items) + [Item(p, 0)], size := old(wbSize) + |p.data|)
      ensures fresh(Repr() - old(Repr()))
    {
      var size := low.Append(p, 0);
      wbSize := wbSize + size;
    }

    /** send_socket after a direct write of n bytes: the rest goes to the high list. */
    method KeepRest(p: Packet, n: nat, ghost before: Sender)
      requires Lists() && before.Idle() && n <= |p.data|
      requires Value() == before.(wire := before.wire + p.data[..n])
      modifies this`wbSize, this`sent, this`accepted, high, high.repr
      ensures Lists() && Value() == before.Direct(p, n)
      ensures fresh(Repr() - old(Repr()))
    {
      accepted := accepted + [p];
      if n == |p.data| {
        assert p.data[..n] == p.data;
        sent := sent + [p];
      } else {
        AppendHigh(p, n);
      }
    }

    /** send_socket on an idle socket: writes at once and keeps the rest. */
    method SendDirect(p: Packet) returns (closed: bool)
      requires Lists() && Open() && high.items == [] && low.items == []
      modifies this`script, this`wire, this`wbSize, this`sent, this`accepted, this`kind, this`reason, this`final
      modifies high, low, high.repr
      ensures Lists() && closed == (kind == Invalid) && (closed ==> Empty())
      ensures Model() == old(Model()).SentDirectly(p)
      ensures fresh(Repr() - old(Repr()))
    {
      ghost var before := Value();
      var r := Write(p.data);
      if r.Failed? {
        ForceClose(WriteError);
        return true;
      }
      var n := if r.Wrote? then r.n else 0;
      KeepRest(p, n, before);
      return false;
    }

    /** The priority branch of send_socket: queues the packet by its priority. */
    method Buffer(p: Packet)
      requires Lists()
      modifies this`wbSize, this`accepted, high, low, high.repr, low.repr
      ensures Lists() && Value() == old(Value()).Queued(p)
      ensures fresh(Repr() - old(Repr()))
    {
      accepted := accepted + [p];
      if p.priority == Low {
        AppendLow(p);
      } else {
        AppendHigh(p, 0);
      }
    }

    /** send_socket after its tests: writes at once or queues. */
    method TakePacket(p: Packet)
      requires Valid() && Open() && !Model().Refuses() && !Model().Listening()
      modifies this`script, this`wire, this`wbSize, this`sent, this`accepted, this`kind, this`reason, this`final
      modifies high, low, high.repr, low.repr
      ensures Valid() && old(wire) <= wire
      ensures Done(Model()) == old(Model()).Sent(p)
      ensures fresh(Repr() - old(Repr()))
    {
      ghost var before := Model();
      before.SentOk(p);
      SentExtends(before, p);
      hide Conn.Ok, Sender.Direct;
      if high.Empty() && low.Empty() {
        var _ := SendDirect(p);
      } else {
        Buffer(p);
      }
      assert Done(Model()) == before.Sent(p);
    }

    /**
     send_socket, which ignores an id that is not the slot's; failed if its
     assert fails.
     */
    method SendSocket(to: nat, p: Packet) returns (failed: bool)
      requires Valid() && (kind != Reserve || to != id)
      modifies this`script, this`wire, this`wbSize, this`sent, this`accepted, this`kind, this`reason, this`final
      modifies high, low, high.repr, low.repr
      ensures Valid() && old(wire) <= wire
      ensures failed || to != id ==> unchanged(this) && unchanged(high) && unchanged(low)
      ensures to != id ==> !failed
      ensures to == id ==> (if failed then AssertFails else Done(Model())) == old(Model()).Sent(p)
      ensures fresh(Repr() - old(Repr()))
    {
      failed := false;
      if kind == Invalid || to != id || kind == HalfClose || kind == PAccept {
        return;
      }
      if kind == PListen || kind == Listen {
        return true;
      }
      TakePacket(p);
    }

    /** The end of close_socket, when send_buffer left the socket open. */
    method CloseOrWait() returns (closed: bool)
      requires Valid() && Open()
      modifies this`kind, this`reason, this`final, high, low
      ensures Valid() && closed == (kind == Invalid) && wire == old(wire)
      ensures var c := old(Model()); Model() == if c.v.Idle() then c.Shut(Drained) else c.(kind := HalfClose)
      ensures Repr() <= old(Repr())
    {
      if high.Empty() && low.Empty() {
        ForceClose(Drained);
        return true;
      }
      kind := HalfClose;
      return false;
    }

    /** close_socket; closed unless data was left, which half-closes the socket. */
    method CloseSocket(to: nat) returns (closed: bool)
      requires Valid() && (kind != Reserve || to != id)
      modifies this`script, this`wire, this`wbSize, this`sent, this`kind, this`reason, this`final
      modifies high, low, high.repr, low.repr
      ensures Valid() && old(wire) <= wire
      ensures to != id ==> closed && unchanged(this) && unchanged(high) && unchanged(low)
      ensures to == id ==> closed == (kind == Invalid) && Model() == old(Model()).Closed()
      ensures Repr() <= old(Repr())
    {
      if kind == Invalid || to != id {
        return true;
      }
      if !(high.Empty() && low.Empty()) {
        closed := SendBuffer();
        if closed {
          return;
        }
      }
      closed := CloseOrWait();
    }

    /** forward_message on a read that ended the connection. */
    method ReadEnds()
      requires Valid() && kind != Reserve
      modifies this`kind, this`reason, this`final, high, low
      ensures Valid() && Model() == old(Model()).Shut(ReadEnd)
      ensures Repr() <= old(Repr())
    {
      ForceClose(ReadEnd);
    }

    // ----- The event loop -----

    /** One event for this socket. */
    method Handle(e: Event) returns (failed: bool)
      requires Valid() && kind != Reserve
      modifies this, high, low, Repr()
      ensures Valid() && kind != Reserve && old(wire) <= wire && fresh(Repr() - old(Repr()))
      ensures (if failed then AssertFails else Done(Model())) == old(Model()).Step(e)
    {
      ghost var before := Model();
      if before.Step(e).Done? {
        StepOk(before, e);
      }
      hide Conn.Ok, Lists, Empty, Conn.Sent, Conn.Flushed, Conn.Closed;
      failed := false;
      match e {
        case Send(p) =>
          failed := SendSocket(id, p);
        case Flush =>
          if kind != Invalid {
            var _ := SendBuffer();
          }
        case Close =>
          var _ := CloseSocket(id);
        case ReadEnds =>
          ReadEnds();
      }
    }

    /** Connection c has gone through the first i events without a failing assert, and the socket is where that led. */
    ghost predicate Reached(c: Conn, events: seq<Event>, i: nat)
      requires c.ItemsOk() && i <= |events|
      reads this, high, low, high.repr, low.repr
    {
      Valid() && kind != Reserve && Exec(c, events[..i]) == Done(Model())
    }

    /** The next event of a sequence. */
    method HandleNext(events: seq<Event>, i: nat, ghost c: Conn) returns (failed: bool)
      requires c.ItemsOk() && i < |events| && Reached(c, events, i)
      modifies this, high, low, Repr()
      ensures old(wire) <= wire && fresh(Repr() - old(Repr()))
      ensures if failed then Valid() && Exec(c, events) == AssertFails else Reached(c, events, i + 1)
    {
      hide Exec, Valid, Conn.Step, Conn.ItemsOk;
      ExecNext(c, events, i);
      failed := Handle(events[i]);
      if failed {
        FailureStays(c, events, i + 1);
      }
    }

    /** Any sequence of events, in order, up to the first failing assert. */
    method HandleAll(events: seq<Event>) returns (failed: bool)
      requires Valid() && kind != Reserve
      modifies this, high, low, Repr()
      ensures Valid() && old(wire) <= wire
      ensures (if failed then AssertFails else Done(Model())) == Exec(old(Model()), events)
    {
      ghost var c := Model();
      var i := 0;
      failed := false;
      assert Reached(c, events, 0);
      while i < |events| && !failed
        invariant i <= |events| && old(wire) <= wire && fresh(Repr() - old(Repr()))
        invariant if failed then Valid() && Exec(c, events) == AssertFails else Reached(c, events, i)
      {
        hide *;
        failed := HandleNext(events, i, c);
        i := i + 1;
      }
      assert events[..|events|] == events;
    }
  }
}
