/**
 One socket of socket_server.c as a value: its type, how it was closed, its
 sending side, and what the coming calls of write will return; and what a send,
 an attempt to send what is buffered, a close and the end of the stream do to it.
 */
module Connections {
  import opened Senders

  datatype SocketType =
    Invalid | Reserve | PListen | Listen | Connecting | Connected | HalfClose | PAccept | Bind

  /** One result of write: some bytes taken (at most what was offered), or an errno. */
  datatype Outcome = Wrote(n: nat) | Eintr | Eagain | Failed

  /** How sending a list ended: it is empty, a write took less than all, or one failed. */
  datatype Answer = Full | Short | Error

  datatype CloseReason = NotClosed | WriteError | ReadEnd | Drained

  // ----- write -----

  /** The result of a write of `offered` bytes; a script that has run out answers EAGAIN. */
  function NextResult(script: seq<Outcome>, offered: nat): (r: Outcome)
    ensures r.Wrote? ==> r.n <= offered
  {
    if script == [] then Eagain
    else if script[0].Wrote? && script[0].n > offered then Wrote(offered)
    else script[0]
  }

  function Left(script: seq<Outcome>): seq<Outcome> {
    if script == [] then [] else script[1..]
  }

  /** The script after the retry loop of send_list has passed over every EINTR. */
  function Retried(script: seq<Outcome>): (rest: seq<Outcome>)
    ensures rest == [] || !rest[0].Eintr?
  {
    if script != [] && script[0].Eintr? then Retried(script[1..]) else script
  }

  // ----- send_list -----

  datatype Attempt = Attempt(w: Writing, script: seq<Outcome>, answer: Answer)

  /** Packet by packet, until one does not go out whole. */
  function ListSent(w: Writing, script: seq<Outcome>): (a: Attempt)
    requires AllOk(w.items)
    ensures AllOk(a.w.items)
    decreases |w.items|
  {
    if w.items == [] then Attempt(w, script, Full)
    else
      var ready, offered := Retried(script), |w.items[0].Rest()|;
      match NextResult(ready, offered)
      case Wrote(n) =>
        if n == offered then ListSent(w.Wholly(), Left(ready)) else Attempt(w.Partly(n), Left(ready), Short)
      case Eagain => Attempt(w, Left(ready), Short)
      case _ => Attempt(w, Left(ready), Error)
  }

  predicate AllWhole(items: seq<Item>) {
    forall i :: 0 <= i < |items| ==> items[i].off == 0
  }

  /**
   Sending a list neither loses nor reorders anything and keeps the counter; it
   ends with an empty list unless a write stalled or failed, and a failed write
   leaves no new packet partly sent.
   */
  lemma {:induction false} ListSentKeeps(w: Writing, script: seq<Outcome>)
    requires w.Ok()
    ensures var a := ListSent(w, script);
            && a.w.Ok() && a.w.Keeps(w)
            && (a.answer.Full? <==> a.w.items == [])
            && (a.answer.Error? && AllWhole(w.items) ==> AllWhole(a.w.items))
    decreases |w.items|
  {
    if w.items == [] {
    } else {
      var ready, offered := Retried(script), |w.items[0].Rest()|;
      match NextResult(ready, offered) {
        case Wrote(n) =>
          if n == offered {
            w.WhollyKeeps();
            ListSentKeeps(w.Wholly(), Left(ready));
          } else {
            w.PartlyKeeps(n);
          }
        case _ =>
      }
    }
  }

  // ----- The socket -----

  datatype Result = Done(c: Conn) | AssertFails

  datatype Event = Send(p: Packet) | Flush | Close | ReadEnds

  /** v is the sending side now or, once the socket is closed, as it was at the close. */
  datatype Conn = Conn(kind: SocketType, reason: CloseReason, v: Sender, script: seq<Outcome>) {

    predicate Open() { kind != Invalid && kind != Reserve }

    predicate Listening() { kind == PListen || kind == Listen }

    /** send_socket drops what comes for a closed, half-closed or not yet started socket. */
    predicate Refuses() { kind == Invalid || kind == HalfClose || kind == PAccept }

    predicate ItemsOk() { AllOk(v.high) && AllOk(v.low) }

    ghost predicate Ok() {
      v.Ok() && (Open() ==> reason == NotClosed) && (reason == Drained ==> v.Idle())
    }

    /** force_close */
    function Shut(why: CloseReason): Conn {
      if kind == Invalid then this else this.(kind := Invalid, reason := why)
    }

    /** send_socket on an idle socket: writes at once and keeps the rest. */
    function SentDirectly(p: Packet): Conn {
      var after := this.(script := Left(script));
      match NextResult(script, |p.data|)
      case Wrote(n) => after.(v := v.Direct(p, n))
      case Failed => after.Shut(WriteError)
      case _ => after.(v := v.Direct(p, 0))
    }

    /** send_socket; its assert says that nobody sends to a listening socket. */
    function Sent(p: Packet): Result {
      if Refuses() then Done(this)
      else if Listening() then AssertFails
      else if v.Idle() then Done(SentDirectly(p))
      else Done(this.(v := v.Queued(p)))
    }

    /** Steps 2 and 3 of send_buffer: the high list is empty and the low one is not. */
    function LowFlushed(): (c: Conn)
      requires ItemsOk()
      ensures c.ItemsOk()
    {
      var a := ListSent(v.LowWriting(), script);
      if a.answer.Error? then this.(v := v.LowLeft(a.w), script := a.script).Shut(WriteError)
      else this.(v := v.AfterLow(a.w), script := a.script)
    }

    /** send_buffer */
    function Flushed(): (c: Conn)
      requires ItemsOk()
      ensures c.ItemsOk()
    {
      var a := ListSent(v.HighWriting(), script);
      var c := this.(v := v.AfterHigh(a.w), script := a.script);
      if a.answer.Error? then c.Shut(WriteError)
      else if c.v.high != [] then c
      else if c.v.low != [] then c.LowFlushed()
      else if kind.HalfClose? then c.Shut(Drained)
      else c
    }

    /** close_socket */
    function Closed(): (c: Conn)
      requires ItemsOk()
      ensures c.ItemsOk()
    {
      if kind == Invalid then this
      else
        var c := if v.Idle() then this else Flushed();
        if c.kind == Invalid then c
        else if c.v.Idle() then c.Shut(Drained)
        else c.(kind := HalfClose)
    }

    /** One event; the event loop writes only to open sockets. */
    function Step(e: Event): (r: Result)
      requires ItemsOk()
      ensures r.Done? ==> r.c.ItemsOk()
    {
      match e
      case Send(p) => Sent(p)
      case Flush => Done(if Open() then Flushed() else this)
      case Close => Done(Closed())
      case ReadEnds => Done(Shut(ReadEnd))
    }

    // ----- Every operation keeps the sender's invariant -----

    lemma SentOk(p: Packet)
      requires Ok() && Open()
      ensures Sent(p).Done? ==> Sent(p).c.Ok()
    {
      if Refuses() || Listening() {
      } else if v.Idle() {
        var r := NextResult(script, |p.data|);
        v.DirectOk(p, if r.Wrote? then r.n else 0);
      } else {
        v.QueuedOk(p);
      }
    }

    lemma LowFlushedOk()
      requires Ok() && Open() && v.high == []
      ensures LowFlushed().Ok() && LowFlushed().v.Continues(v)
      ensures LowFlushed().kind == kind || (LowFlushed().kind == Invalid && LowFlushed().reason == WriteError)
    {
      var a := ListSent(v.LowWriting(), script);
      ListSentKeeps(v.LowWriting(), script);
      v.AfterLowContinues(a.w);
    }

    /** An attempt to send loses, reorders and invents nothing, even if it ends in a close. */
    lemma FlushedOk()
      requires Ok() && Open()
      ensures Flushed().Ok() && Flushed().v.Continues(v)
    {
      var a := ListSent(v.HighWriting(), script);
      ListSentKeeps(v.HighWriting(), script);
      v.AfterHighContinues(a.w);
      var c := this.(v := v.AfterHigh(a.w), script := a.script);
      if !a.answer.Error? && c.v.high == [] && c.v.low != [] {
        c.LowFlushedOk();
      }
    }

    lemma ClosedOk()
      requires Ok() && Open()
      ensures Closed().Ok() && Closed().v.Continues(v)
    {
      if !v.Idle() {
        FlushedOk();
      }
    }
  }
}
