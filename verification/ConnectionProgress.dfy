/**
 What an attempt to send must achieve, judged by the results of write it used
 up: it goes on until nothing is left or a write stalls or fails.
 */
module ConnectionProgress {
  import opened Connections
  import opened ConnectionRuns
  import opened Senders
  import opened Sequences

  // ----- How an attempt to send ends -----

  /** The packet to go on with. */
  function First(v: Sender): Item
    requires !v.Idle()
  {
    if v.high != [] then v.high[0] else v.low[0]
  }

  /** Of the results used up, the last one was EAGAIN, or took some bytes of a packet and not its last. */
  predicate Stalls(used: seq<Outcome>, item: Item) {
    && used != []
    && var last := used[|used| - 1];
       last.Eagain? || (last.Wrote? && last.n <= item.off < |item.packet.data|)
  }

  lemma {:induction false} RetriedUses(script: seq<Outcome>) returns (used: seq<Outcome>)
    ensures script == used + Retried(script) && forall r :: r in used ==> r.Eintr?
  {
    if script != [] && script[0].Eintr? {
      var rest := RetriedUses(script[1..]);
      used := [script[0]] + rest;
      assert script == [script[0]] + script[1..];
    } else {
      used := [];
    }
  }

  lemma {:induction false} ListSentUses(w: Writing, script: seq<Outcome>) returns (used: seq<Outcome>)
    requires AllOk(w.items)
    ensures var a := ListSent(w, script);
            && script == used + a.script
            && (a.answer.Full? <==> a.w.items == [])
            && (a.answer.Error? <==> Failed in used) && (a.answer.Error? ==> used[|used| - 1] == Failed)
            && (a.answer.Short? ==> a.script == [] || Stalls(used, a.w.items[0]))
    decreases |w.items|
  {
    used := [];
    if w.items != [] {
      var ready, offered := Retried(script), |w.items[0].Rest()|;
      used := RetriedUses(script);
      if ready != [] {
        assert ready == [ready[0]] + Left(ready);
        ConcatAssociates(used, [ready[0]], Left(ready));
        used := used + [ready[0]];
      }
      assert script == used + Left(ready);
      if NextResult(ready, offered) == Wrote(offered) {
        var more := ListSentUses(w.Wholly(), Left(ready));
        ConcatAssociates(used, more, ListSent(w, script).script);
        used := used + more;
      }
    }
  }

  /**
   However an open socket tries to send: the socket is closed as failed exactly
   if one of the writes failed, which was then the last; it is closed as drained
   exactly if it was half-closed, its low list was empty, and nothing is left;
   and if it stays open, then with nothing left, or because the last write
   stalled, or because the script ran out.
   */
  lemma FlushOutcome(c: Conn) returns (used: seq<Outcome>)
    requires c.Ok() && c.Open()
    ensures c.Step(Flush).Done?
    ensures var c' := c.Step(Flush).c;
            && c.script == used + c'.script
            && (Failed in used <==> c'.kind == Invalid && c'.reason == WriteError)
            && (Failed in used ==> used[|used| - 1] == Failed)
            && (c'.kind == Invalid && c'.reason != WriteError <==>
                  Failed !in used && c.kind == HalfClose && c.v.low == [] && c'.v.Idle())
            && (c'.kind == Invalid && c'.reason != WriteError ==> c'.reason == Drained)
            && (c'.kind != Invalid ==>
                  c'.kind == c.kind && (c'.v.Idle() || c'.script == [] || Stalls(used, First(c'.v))))
  {
    hide SameByPriority, Flat;
    var a := ListSent(c.v.HighWriting(), c.script);
    used := ListSentUses(c.v.HighWriting(), c.script);
    ListSentKeeps(c.v.HighWriting(), c.script);
    c.v.AfterHighContinues(a.w);
    if a.w.items == [] && c.v.low != [] {
      var next := c.(v := c.v.AfterHigh(a.w), script := a.script);
      var b := ListSent(next.v.LowWriting(), a.script);
      var more := ListSentUses(next.v.LowWriting(), a.script);
      ConcatAssociates(used, more, b.script);
      used := used + more;
    }
  }

  // ----- A flush that meets no resistance -----

  /** The next `count` results, EINTR passed over, take all that is offered if that is at most `bytes`. */
  predicate Takes(script: seq<Outcome>, count: nat, bytes: nat) {
    count == 0
    || (script != []
        && if script[0].Eintr? then Takes(script[1..], count, bytes)
           else script[0].Wrote? && script[0].n >= bytes && Takes(script[1..], count - 1, bytes))
  }

  lemma {:induction false} RetriedTakes(script: seq<Outcome>, count: nat, bytes: nat)
    requires count > 0 && Takes(script, count, bytes)
    ensures var ready := Retried(script);
            ready != [] && ready[0].Wrote? && ready[0].n >= bytes && Takes(ready[1..], count - 1, bytes)
  {
    if script[0].Eintr? {
      RetriedTakes(script[1..], count, bytes);
    }
  }

  lemma {:induction false} ListTaken(w: Writing, script: seq<Outcome>, more: nat, bytes: nat)
    requires AllOk(w.items) && |Unsent(w.items)| <= bytes && Takes(script, |w.items| + more, bytes)
    ensures ListSent(w, script).w.items == [] && Takes(ListSent(w, script).script, more, bytes)
    decreases |w.items|
  {
    if w.items != [] {
      RetriedTakes(script, |w.items| + more, bytes);
      ListTaken(w.Wholly(), Left(Retried(script)), more, bytes);
    }
  }

  /** If the writes take all they are offered, one attempt puts everything on the wire. */
  lemma FlushDelivers(c: Conn)
    requires c.Ok() && c.Open()
    requires Takes(c.script, |c.v.high| + |c.v.low|, |Unsent(c.v.high)| + |Unsent(c.v.low)|)
    ensures c.Step(Flush).Done?
    ensures var c' := c.Step(Flush).c;
            && c'.v.Idle() && c'.v.wire == c.v.Stream() && c'.v.sent == c.v.Schedule()
            && (if c.kind == HalfClose && c.v.low == [] then c'.kind == Invalid && c'.reason == Drained
                else c'.kind == c.kind)
  {
    var bytes := |Unsent(c.v.high)| + |Unsent(c.v.low)|;
    var a := ListSent(c.v.HighWriting(), c.script);
    ListTaken(c.v.HighWriting(), c.script, |c.v.low|, bytes);
    ListSentKeeps(c.v.HighWriting(), c.script);
    if c.v.low != [] {
      var next := c.(v := c.v.AfterHigh(a.w), script := a.script);
      ListTaken(next.v.LowWriting(), a.script, 0, bytes);
      ListSentKeeps(next.v.LowWriting(), a.script);
    }
    c.FlushedOk();
    IdleDelivers(c.v, c.Step(Flush).c.v);
  }

  /** A half-closed socket with nothing left is closed by the next attempt to send. */
  lemma DrainedCloses(c: Conn)
    requires c.kind == HalfClose && c.v.Idle()
    ensures c.Step(Flush) == Done(c.(kind := Invalid, reason := Drained))
  {
    var w := c.v.HighWriting();
    assert ListSent(w, c.script) == Attempt(w, c.script, Full);
    assert c.v.AfterHigh(w) == c.v;
  }

  // ----- However little each write takes -----

  predicate Willing(r: Outcome) {
    r.Eintr? || r.Eagain? || (r.Wrote? && r.n > 0)
  }

  function Writes(script: seq<Outcome>): nat {
    Count(script, (r: Outcome) => r.Wrote?)
  }

  /** Packets and bytes waiting. */
  function Load(v: Sender): nat
    requires v.Shape()
  {
    |v.high| + |v.low| + |Unsent(v.high)| + |Unsent(v.low)|
  }

  function ListLoad(items: seq<Item>): nat
    requires AllOk(items)
  {
    |items| + |Unsent(items)|
  }

  lemma {:induction false} RetriedWrites(script: seq<Outcome>)
    requires forall r :: r in script ==> Willing(r)
    ensures Writes(Retried(script)) == Writes(script) && |Retried(script)| <= |script|
    ensures forall r :: r in Retried(script) ==> Willing(r)
  {
    if script != [] && script[0].Eintr? {
      RetriedWrites(script[1..]);
    }
  }

  /** Each write that takes something lightens the load. */
  lemma {:induction false} ListLightens(w: Writing, script: seq<Outcome>)
    requires AllOk(w.items) && forall r :: r in script ==> Willing(r)
    ensures var a := ListSent(w, script);
            && !a.answer.Error? && (forall r :: r in a.script ==> Willing(r))
            && Writes(script) - Writes(a.script) <= ListLoad(w.items) - ListLoad(a.w.items)
            && |a.script| <= |script| && (a.answer.Full? || script == [] || |a.script| < |script|)
    decreases |w.items|
  {
    if w.items != [] {
      var ready, offered := Retried(script), |w.items[0].Rest()|;
      RetriedWrites(script);
      if ready != [] {
        assert ready[0] in ready;
        assert Writes(ready) == (if ready[0].Wrote? then 1 else 0) + Writes(Left(ready));
      }
      match NextResult(ready, offered) {
        case Wrote(n) =>
          if n == offered {
            ListLightens(w.Wholly(), Left(ready));
          } else {
            assert w.Partly(n).items[1..] == w.items[1..];
          }
        case _ =>
      }
    }
  }

  lemma FlushLightens(c: Conn)
    requires c.Ok() && c.Open() && forall r :: r in c.script ==> Willing(r)
    ensures c.Step(Flush).Done?
    ensures var c' := c.Step(Flush).c;
            && c'.Ok() && c'.v.Continues(c.v) && (c'.kind == c.kind || (c'.reason == Drained && c'.v.Idle()))
            && (forall r :: r in c'.script ==> Willing(r))
            && Writes(c.script) - Writes(c'.script) <= Load(c.v) - Load(c'.v)
            && (c'.v.Idle() || c.script == [] || |c'.script| < |c.script|)
  {
    c.FlushedOk();
    var a := ListSent(c.v.HighWriting(), c.script);
    ListLightens(c.v.HighWriting(), c.script);
    ListSentKeeps(c.v.HighWriting(), c.script);
    if a.w.items == [] && c.v.low != [] {
      var next := c.(v := c.v.AfterHigh(a.w), script := a.script);
      ListLightens(next.v.LowWriting(), a.script);
      ListSentKeeps(next.v.LowWriting(), a.script);
    }
  }

  /**
   As long as every write takes something and there are enough of them, some
   number of attempts puts everything on the wire, in the order that was due.
   */
  lemma {:induction false} FlushesDrain(c: Conn) returns (n: nat)
    requires c.Ok() && c.Open()
    requires (forall r :: r in c.script ==> Willing(r)) && Writes(c.script) >= Load(c.v)
    ensures var r := Exec(c, seq(n, _ => Flush));
            && r.Done? && r.c.v.Idle() && (r.c.kind == c.kind || r.c.reason == Drained)
            && r.c.v.wire == c.v.Stream() && r.c.v.sent == c.v.Schedule()
    decreases |c.script|
  {
    if c.v.Idle() {
      n := 0;
      IdleDelivers(c.v, c.v);
    } else {
      var next := c.Step(Flush).c;
      FlushLightens(c);
      hide *;
      if next.v.Idle() {
        n := 0;
        ExecNone(next);
        IdleDelivers(c.v, next.v);
      } else {
        n := FlushesDrain(next);
      }
      ExecFirst(c, n);
      n := n + 1;
    }
  }

  lemma ExecNone(c: Conn)
    requires c.ItemsOk()
    ensures Exec(c, seq(0, _ => Flush)) == Done(c)
  {
  }

  lemma ExecFirst(c: Conn, n: nat)
    requires c.ItemsOk() && c.Step(Flush).Done?
    ensures Exec(c, seq(n + 1, _ => Flush)) == Exec(c.Step(Flush).c, seq(n, _ => Flush))
  {
    assert [Flush][..0] == [];
    assert Exec(c, [Flush]) == c.Step(Flush);
    ExecSplit(c, [Flush], seq(n, _ => Flush));
    assert [Flush] + seq(n, _ => Flush) == seq(n + 1, _ => Flush);
  }

  // ----- The other events -----

  /**
   A send to a started socket writes at once if nothing is waiting, as much as
   the next write takes; a failed write closes the socket.  Behind waiting data
   it only queues.  Elsewhere it has no effect, or fails the assert.
   */
  lemma SendOutcome(c: Conn, p: Packet)
    requires c.ItemsOk() && c.kind != Reserve
    ensures c.kind == Invalid || c.kind == HalfClose || c.kind == PAccept ==> c.Step(Send(p)) == Done(c)
    ensures c.Step(Send(p)).AssertFails? <==> c.kind == PListen || c.kind == Listen
    ensures c.kind == Connecting || c.kind == Connected || c.kind == Bind ==>
              var c' := c.Step(Send(p)).c;
              var took := if c.script == [] || !c.script[0].Wrote? then 0
                          else if c.script[0].n < |p.data| then c.script[0].n else |p.data|;
              if !c.v.Idle() then
                && c'.kind == c.kind && c'.script == c.script && !c'.v.Idle()
                && c'.v.wire == c.v.wire && c'.v.accepted == c.v.accepted + [p]
              else
                && c'.script == (if c.script == [] then [] else c.script[1..])
                && if c.script != [] && c.script[0].Failed? then
                     c'.kind == Invalid && c'.reason == WriteError && c'.v == c.v
                   else
                     && c'.kind == c.kind && c'.v.accepted == c.v.accepted + [p]
                     && c'.v.wire == c.v.wire + p.data[..took] && (c'.v.Idle() <==> took == |p.data|)
  {
    assert p.data[..|p.data|] == p.data;
  }

  /**
   A close of an open socket with nothing left closes it at once; otherwise the
   socket is closed with everything on the wire, or because a write failed, or
   it is half-closed because the last write stalled or the script ran out.
   */
  lemma CloseOutcome(c: Conn) returns (used: seq<Outcome>)
    requires c.Ok() && c.Open()
    ensures c.v.Idle() ==> c.Step(Close) == Done(c.(kind := Invalid, reason := Drained))
    ensures c.Step(Close).Done?
    ensures var c' := c.Step(Close).c;
            && c.script == used + c'.script
            && (Failed in used <==> c'.kind == Invalid && c'.reason == WriteError)
            && (c'.kind == Invalid && c'.reason != WriteError ==>
                  c'.reason == Drained && c'.v.wire == c.v.Stream() && c'.v.sent == c.v.Schedule())
            && (c'.kind != Invalid ==>
                  && c'.kind == HalfClose && !c'.v.Idle()
                  && (c'.script == [] || Stalls(used, First(c'.v))))
  {
    hide SameByPriority, Flat, ListSent;
    var c' := c.Step(Close).c;
    c.ClosedOk();
    if c.v.Idle() {
      used := [];
    } else {
      used := FlushOutcome(c);
    }
    if c'.reason == Drained {
      IdleDelivers(c.v, c'.v);
    }
  }

  /** The end of the stream closes any socket that is not closed, and keeps on record what was sent. */
  lemma EndOutcome(c: Conn)
    requires c.ItemsOk()
    ensures c.Step(ReadEnds) == Done(if c.kind == Invalid then c else c.(kind := Invalid, reason := ReadEnd))
  {
  }
}
