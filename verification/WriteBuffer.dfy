/**
 The write-buffer lists of a socket (socket_server.c): linked nodes with a head
 and a tail pointer, standing for a list of packets.
 */
module WriteBuffers {
  import opened Senders

  class WriteBuffer {
    const packet: Packet  // ptr and sz delimit what is left of packet.data
    var ptr: nat
    var sz: nat
    var next: WriteBuffer?

    ghost predicate Holds(item: Item)
      reads this
    {
      packet == item.packet && ptr == item.off && item.Ok() && sz == |item.packet.data| - item.off
    }

    constructor (packet: Packet, n: nat)
      requires n <= |packet.data|
      ensures this.packet == packet && ptr == n && sz == |packet.data| - n && next == null
    {
      this.packet := packet;
      ptr, sz, next := n, |packet.data| - n, null;
    }

    method LinkTo(buf: WriteBuffer)
      modifies this`next
      ensures next == buf
    {
      next := buf;
    }

    method Consume(n: nat)
      requires n <= sz
      modifies this`ptr, this`sz
      ensures ptr == old(ptr) + n && sz == old(sz) - n
    {
      ptr := ptr + n;
      sz := sz - n;
    }
  }

  class WriteBufferList {
    var head: WriteBuffer?
    var tail: WriteBuffer?
    ghost var nodes: seq<WriteBuffer>
    ghost var items: seq<Item>
    ghost var repr: set<WriteBuffer>

    /** The node linked at position i, or null past the end. */
    ghost function NodeAt(i: nat): WriteBuffer?
      reads this
    {
      if i < |nodes| then nodes[i] else null
    }

    /** The nodes are linked from head on, and stand for the items. */
    ghost predicate Linked()
      reads this, repr
    {
      && |nodes| == |items| && AllOk(items)
      && (forall i :: 0 <= i < |nodes| ==> nodes[i] in repr)
      && (forall i, j :: 0 <= i < j < |nodes| ==> nodes[i] != nodes[j])
      && (forall i :: 0 <= i < |nodes| ==> nodes[i].Holds(items[i]))
      && (forall i {:trigger nodes[i].next} :: 0 <= i < |nodes| ==> nodes[i].next == NodeAt(i + 1))
      && head == NodeAt(0)
      && (nodes != [] ==> tail == nodes[|nodes| - 1])
    }

    /** Moreover the tail is null when the list is empty. */
    ghost predicate Valid()
      reads this, repr
    {
      Linked() && (nodes == [] ==> tail == null)
    }

    /** The test of the head pointer decides whether the list is empty. */
    predicate Empty(): (empty: bool)
      requires Linked()
      reads this, repr
      ensures empty <==> items == []
    {
      head == null
    }

    constructor ()
      ensures Valid() && items == [] && repr == {}
    {
      head, tail, nodes, items, repr := null, null, [], [], {};
    }

    /** free_wb_list */
    method Free()
      requires Linked()
      modifies this
      ensures Valid() && items == [] && repr == {}
    {
      var wb := head;
      ghost var i := 0;
      while wb != null
        invariant 0 <= i <= |nodes| && wb == NodeAt(i)
        decreases |nodes| - i
      {
        wb := wb.next;
        i := i + 1;
      }
      head, tail, nodes, items, repr := null, null, [], [], {};
    }

    /** append_sendbuffer_ */
    method Append(packet: Packet, n: nat) returns (size: nat)
      requires Valid() && n <= |packet.data|
      modifies this, repr
      ensures Valid() && items == old(items) + [Item(packet, n)]
      ensures fresh(repr - old(repr))
      ensures size == |packet.data| - n
    {
      var buf := new WriteBuffer(packet, n);
      assert buf !in repr && buf.Holds(Item(packet, n));
      if head == null {
        head, tail := buf, buf;
      } else {
        assert tail != null;
        assert tail == nodes[|nodes| - 1] && NodeAt(|nodes|) == null;
        assert tail.next == null;
        tail.LinkTo(buf);
        tail := buf;
      }
      nodes, items, repr := nodes + [buf], items + [Item(packet, n)], repr + {buf};
      size := buf.sz;
    }

    /** Unlinks the first node, as send_list and raise_uncomplete do; the tail is the caller's business. */
    method DropHead() returns (dropped: WriteBuffer)
      requires Linked() && items != []
      modifies this`head, this`nodes, this`items
      ensures Linked() && items == old(items)[1..] && nodes == old(nodes)[1..]
      ensures dropped == old(nodes)[0] && dropped in repr && dropped !in nodes
    {
      dropped := head;
      assert nodes[0].next == NodeAt(1);
      head := head.next;
      nodes, items := nodes[1..], items[1..];
    }

    /** First half of raise_uncomplete: takes the first node off this list. */
    method TakeHead() returns (taken: WriteBuffer)
      requires Valid() && items != []
      modifies this
      ensures Valid() && items == old(items)[1..] && repr == old(repr) - {taken}
      ensures taken in old(repr) && taken.Holds(old(items)[0])
    {
      assert nodes[0].Holds(items[0]);
      taken := DropHead();
      if head == null {
        tail := null;
      }
      repr := repr - {taken};
    }

    /** Second half of raise_uncomplete: makes the node this list's only one. */
    method PutAlone(node: WriteBuffer, ghost item: Item)
      requires Valid() && items == [] && node.Holds(item)
      modifies this, node`next
      ensures Valid() && items == [item] && repr == {node}
    {
      assert head == null;
      node.next := null;
      head, tail := node, node;
      nodes, items, repr := [node], [item], {node};
    }

    /** Marks n more bytes of the first packet as written. */
    method Advance(n: nat)
      requires Linked() && items != [] && n <= |items[0].Rest()|
      modifies this`items, head`ptr, head`sz
      ensures Linked()
      ensures items == old(items)[0 := Item(old(items)[0].packet, old(items)[0].off + n)]
    {
      ghost var now := Item(items[0].packet, items[0].off + n);
      assert nodes[0].Holds(items[0]);
      assert head == nodes[0];
      head.Consume(n);
      assert nodes[0].Holds(now);
      items := items[0 := now];
    }

    /** list_uncomplete: the first packet is partly sent. */
    method Uncomplete() returns (partly: bool)
      requires Valid()
      ensures partly == (items != [] && items[0].off != 0)
    {
      if head == null {
        return false;
      }
      assert nodes[0].Holds(items[0]);
      return head.ptr != 0;
    }
  }
}
