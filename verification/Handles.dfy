/**
 The handle table of skynet_handle.c: contexts in a power-of-two slot array.
 */
module Handles {
  import opened Bits
  import opened Names
  import opened Sequences

  const DEFAULT_SLOT_SIZE := 4
  const HANDLE_MASK := 0xff_ffff
  const REMOTE_SHIFT := 24
  const HANDLES := 0x100_0000  // HANDLE_MASK + 1

  datatype Slot = Free | Used(context: nat, handle: nat)

  /** handle & (slot_size - 1), for a table of Pow2(bits) slots. */
  function Hash(handle: nat, bits: nat): (i: nat)
    ensures i < Pow2(bits)
  {
    AndMask(handle, bits);
    And(handle, Pow2(bits) - 1)
  }

  lemma HandlesIsPow2()
    ensures HANDLES == Pow2(REMOTE_SHIFT) && Pow2(24) == HANDLES
  {
    assert Pow2(8) == 0x100 && Pow2(16) == 0x1_0000 && Pow2(24) == 0x100_0000;
  }

  /** Masking to 24 bits first changes no hash: consecutive probes visit consecutive slots, even across the wrap. */
  lemma ProbeHash(x: nat, bits: nat)
    requires bits <= 24
    ensures And(x, HANDLE_MASK) == x % HANDLES
    ensures Hash(And(x, HANDLE_MASK), bits) == x % Pow2(bits)
  {
    HandlesIsPow2();
    AndMask(x, 24);
    AndMask(x % HANDLES, bits);
    Pow2Add(bits, 24 - bits);
    ModMod(x, Pow2(bits), Pow2(24 - bits), HANDLES);
  }

  /** The handle that probe number e tries, from a given handle_index on. */
  function Candidate(e: nat, index: nat): nat {
    And(e + index, HANDLE_MASK)
  }

  /** The handle `low` is that of the first probe, from the given index on, to meet a free slot. */
  ghost predicate FirstFree(table: seq<Slot>, bits: nat, index: nat, low: nat)
    requires |table| == Pow2(bits)
  {
    && low < HANDLES && table[Hash(low, bits)].Free?
    && exists d :: 0 <= d < |table| && low == Candidate(d, index)
                   && forall e :: 0 <= e < d ==> table[Hash(Candidate(e, index), bits)].Used?
  }

  /** Every slot is visited by one of the probes. */
  lemma AllProbed(index: nat, bits: nat, r: nat) returns (e: nat)
    requires bits <= 24 && r < Pow2(bits)
    ensures e < Pow2(bits) && Hash(Candidate(e, index), bits) == r
  {
    e := Covered(index, Pow2(bits), r);
    ProbeHash(e + index, bits);
  }

  lemma ProbedAll(table: seq<Slot>, bits: nat, index: nat)
    requires bits <= 24 && |table| == Pow2(bits)
    requires forall e :: 0 <= e < |table| ==> table[Hash(Candidate(e, index), bits)].Used?
    ensures AllUsed(table)
  {
    forall r | 0 <= r < |table|
      ensures table[r].Used?
    {
      var e := AllProbed(index, bits, r);
    }
  }

  /** In a table twice the size a handle hashes to the same slot or to its twin in the new half. */
  lemma HashDouble(handle: nat, bits: nat)
    ensures Hash(handle, bits + 1) == Hash(handle, bits) || Hash(handle, bits + 1) == Hash(handle, bits) + Pow2(bits)
  {
    AndMask(handle, bits);
    AndMask(handle, bits + 1);
    ModDouble(handle, Pow2(bits));
  }

  /** The full handle: the harbor byte above the 24 bits of the probe, which alone decide the hash. */
  lemma FullHandle(low: nat, harbor: nat, bits: nat)
    requires low < HANDLES && bits <= 24
    ensures var handle := Or(low, harbor * HANDLES);
            handle / HANDLES == harbor && handle % HANDLES == low && Hash(handle, bits) == Hash(low, bits)
  {
    HandlesIsPow2();
    OrDisjoint(low, harbor, 24);
    var handle := low + harbor * HANDLES;
    DivModUnique(handle, HANDLES, harbor, low);
    AndMask(handle, bits);
    AndMask(low, bits);
    Pow2Add(bits, 24 - bits);
    ModMod(handle, Pow2(bits), Pow2(24 - bits), HANDLES);
  }

  /** Table and map agree: each live handle sits in its slot, and nothing else does. */
  ghost predicate Agrees(table: seq<Slot>, bits: nat, live: map<nat, nat>, harbor: nat) {
    && |table| == Pow2(bits)
    && (forall i {:trigger table[i].handle} :: 0 <= i < |table| && table[i].Used? ==>
          table[i].handle in live && live[table[i].handle] == table[i].context && Hash(table[i].handle, bits) == i)
    && (forall h {:trigger table[Hash(h, bits)]} :: h in live ==>
          h / HANDLES == harbor && table[Hash(h, bits)] == Used(live[h], h))
  }

  /** A free slot of the right hash may take a new handle. */
  lemma OccupiedAgrees(table: seq<Slot>, bits: nat, live: map<nat, nat>, harbor: nat, context: nat, handle: nat)
    requires Agrees(table, bits, live, harbor)
    requires handle / HANDLES == harbor && table[Hash(handle, bits)].Free?
    ensures handle !in live
    ensures Agrees(table[Hash(handle, bits) := Used(context, handle)], bits, live[handle := context], harbor)
  {
    forall h | h in live
      ensures h != handle && Hash(h, bits) != Hash(handle, bits)
    {
      assert table[Hash(h, bits)] == Used(live[h], h);
    }
    UpdateAgrees(table, bits, live, harbor, handle, Used(context, handle), live[handle := context]);
  }

  /** One slot and one handle of that slot change together. */
  lemma UpdateAgrees(table: seq<Slot>, bits: nat, live: map<nat, nat>, harbor: nat,
                     handle: nat, s: Slot, live': map<nat, nat>)
    requires Agrees(table, bits, live, harbor)
    requires forall h :: h in live && h != handle ==>
               h in live' && live'[h] == live[h] && Hash(h, bits) != Hash(handle, bits)
    requires forall h :: h in live' && h != handle ==> h in live
    requires if handle in live' then handle / HANDLES == harbor && s == Used(live'[handle], handle) else s.Free?
    ensures Agrees(table[Hash(handle, bits) := s], bits, live', harbor)
  {
    var r := table[Hash(handle, bits) := s];
    forall i | 0 <= i < |r| && r[i].Used?
      ensures r[i].handle in live' && live'[r[i].handle] == r[i].context && Hash(r[i].handle, bits) == i
    {
      if i != Hash(handle, bits) {
        assert table[i].handle in live;
      }
    }
    forall h | h in live'
      ensures h / HANDLES == harbor && r[Hash(h, bits)] == Used(live'[h], h)
    {
      if h != handle {
        assert table[Hash(h, bits)] == Used(live[h], h);
      }
    }
  }

  /** The slot a handle hashes to tells whether it is live. */
  lemma LiveInSlot(table: seq<Slot>, bits: nat, live: map<nat, nat>, harbor: nat, handle: nat)
    requires Agrees(table, bits, live, harbor)
    ensures handle in live <==> table[Hash(handle, bits)].Used? && table[Hash(handle, bits)].handle == handle
    ensures handle in live ==> table[Hash(handle, bits)].context == live[handle]
  {
  }

  lemma FreedAgrees(table: seq<Slot>, bits: nat, live: map<nat, nat>, harbor: nat, handle: nat)
    requires Agrees(table, bits, live, harbor) && handle in live
    ensures Agrees(table[Hash(handle, bits) := Free], bits, live - {handle}, harbor)
  {
    forall h | h in live && h != handle
      ensures Hash(h, bits) != Hash(handle, bits)
    {
      assert table[Hash(h, bits)] == Used(live[h], h) && table[Hash(handle, bits)] == Used(live[handle], handle);
    }
    UpdateAgrees(table, bits, live, harbor, handle, Free, live - {handle});
  }

  predicate AllUsed(table: seq<Slot>) {
    forall i :: 0 <= i < |table| ==> table[i].Used?
  }

  // ----- Doubling -----

  /** The slot of a table of `size` slots that slot j of the doubled table is the twin of. */
  function Twin(j: nat, size: nat): nat {
    if j < size then j else j - size
  }

  /** The doubled table once the contexts of the first i slots are copied. */
  function Doubled(table: seq<Slot>, bits: nat, i: nat): (d: seq<Slot>)
    requires AllUsed(table) && i <= |table|
    ensures |d| == 2 * |table|
  {
    seq(2 * |table|, j requires 0 <= j < 2 * |table| =>
      var k := Twin(j, |table|);
      if k < i && Hash(table[k].handle, bits + 1) == j then table[k] else Free)
  }

  lemma HashTwin(table: seq<Slot>, bits: nat, live: map<nat, nat>, harbor: nat, k: nat)
    requires Agrees(table, bits, live, harbor) && k < |table| && table[k].Used?
    ensures var j := Hash(table[k].handle, bits + 1);
            j < 2 * |table| && Twin(j, |table|) == k
  {
    HashDouble(table[k].handle, bits);
  }

  /** No two contexts collide in the doubled table: the slot of each is free until it is copied. */
  lemma NoCollision(table: seq<Slot>, bits: nat, live: map<nat, nat>, harbor: nat, i: nat)
    requires Agrees(table, bits, live, harbor) && AllUsed(table) && i < |table|
    ensures var hash := Hash(table[i].handle, bits + 1);
            && hash < 2 * |table| && Doubled(table, bits, i)[hash] == Free
            && Doubled(table, bits, i)[hash := table[i]] == Doubled(table, bits, i + 1)
  {
    HashTwin(table, bits, live, harbor, i);
  }

  /** The doubled table agrees with the map, and has a free slot. */
  lemma DoubledAgrees(table: seq<Slot>, bits: nat, live: map<nat, nat>, harbor: nat)
    requires Agrees(table, bits, live, harbor) && AllUsed(table)
    ensures Agrees(Doubled(table, bits, |table|), bits + 1, live, harbor)
    ensures !AllUsed(Doubled(table, bits, |table|))
  {
    var d := Doubled(table, bits, |table|);
    forall h | h in live
      ensures d[Hash(h, bits + 1)] == Used(live[h], h)
    {
      HashTwin(table, bits, live, harbor, Hash(h, bits));
    }
    assert d[0].Free? || d[|table|].Free?;
  }

  class HandleStorage {
    const harbor: nat           // the harbor byte; the C field holds it shifted
    const names: NameIndex
    var handleIndex: nat
    var slotSize: nat
    var slot: array<Slot>
    ghost var bits: nat         // slotSize is Pow2(bits)
    ghost var live: map<nat, nat>  // the context registered under each handle

    ghost predicate Valid()
      reads this, slot
    {
      && 2 <= bits <= 24 && slotSize == Pow2(bits) == slot.Length
      && handleIndex <= HANDLES && harbor < 256
      && Agrees(slot[..], bits, live, harbor)
    }

    ghost predicate Full()
      reads this`slot, slot
    {
      AllUsed(slot[..])
    }

    constructor (harborByte: nat)
      requires harborByte < 256
      ensures Valid() && live == map[] && harbor == harborByte && handleIndex == 1 && fresh(slot)
      ensures names.Valid() && names.Entries() == [] && fresh(names) && fresh(names.name)
    {
      harbor, handleIndex, slotSize := harborByte, 1, DEFAULT_SLOT_SIZE;
      names := new NameIndex();
      slot := new Slot[DEFAULT_SLOT_SIZE](_ => Free);
      bits, live := 2, map[];
      assert Pow2(2) == 4;
    }

    /**
     The probes of skynet_handle_register: they find a free slot exactly when
     there is one, the first in probe order.
     */
    method Probe() returns (found: bool, low: nat)
      requires Valid()
      ensures found <==> !Full()
      ensures found ==> FirstFree(slot[..], bits, handleIndex, low)
    {
      for i := 0 to slotSize
        invariant forall e :: 0 <= e < i ==> slot[Hash(Candidate(e, handleIndex), bits)].Used?
      {
        low := And(i + handleIndex, HANDLE_MASK);
        ProbeHash(i + handleIndex, bits);
        var hash := And(low, slotSize - 1);
        if slot[hash].Free? {
          assert low == Candidate(i, handleIndex);
          return true, low;
        }
      }
      ProbedAll(slot[..], bits, handleIndex);
      return false, 0;
    }

    /** The copy loop of the doubling; its assert on collisions never fails. */
    method Rehash() returns (newSlot: array<Slot>)
      requires Valid() && Full()
      ensures fresh(newSlot) && newSlot[..] == Doubled(slot[..], bits, slotSize)
    {
      ghost var table := slot[..];
      newSlot := new Slot[slotSize * 2](_ => Free);
      for i := 0 to slotSize
        modifies newSlot
        invariant newSlot[..] == Doubled(table, bits, i)
      {
        NoCollision(table, bits, live, harbor, i);
        var hash := And(slot[i].handle, slotSize * 2 - 1);
        assert hash == Hash(table[i].handle, bits + 1);
        assert newSlot[hash].Free?;
        newSlot[hash] := slot[i];
      }
    }

    method Grow()
      requires Valid() && Full() && slotSize * 2 - 1 <= HANDLE_MASK
      modifies this`slotSize, this`slot, this`bits
      ensures Valid() && !Full() && slotSize == 2 * old(slotSize) && fresh(slot)
      ensures bits == old(bits) + 1 && slot[..] == Doubled(old(slot[..]), old(bits), old(slotSize))
    {
      assert bits < 24 && Pow2(bits + 1) == 2 * slotSize by {
        HandlesIsPow2();
        BitsBelow(bits, 24);
      }
      ghost var doubled := Doubled(slot[..], bits, slotSize);
      assert Agrees(doubled, bits + 1, live, harbor) && !AllUsed(doubled) by {
        DoubledAgrees(slot[..], bits, live, harbor);
      }
      slot := Rehash();
      slotSize, bits := slotSize * 2, bits + 1;
      assert slot[..] == doubled;
    }

    /** The successful probe of skynet_handle_register. */
    method Occupy(context: nat, low: nat) returns (handle: nat)
      requires Valid() && low < HANDLES && slot[Hash(low, bits)].Free?
      modifies this`handleIndex, this`live, slot
      ensures Valid() && handle !in old(live) && live == old(live)[handle := context]
      ensures handle / HANDLES == harbor && handle % HANDLES == low && handleIndex == low + 1
    {
      FullHandle(low, harbor, bits);
      handle := Or(low, harbor * HANDLES);
      var hash := And(low, slotSize - 1);
      OccupiedAgrees(slot[..], bits, live, harbor, context, handle);
      slot[hash] := Used(context, handle);
      handleIndex := low + 1;
      live := live[handle := context];
    }

    /** The table that the next registration takes a slot of: doubled if it is full. */
    ghost function TableToProbe(): seq<Slot>
      requires Valid()
      reads this, slot
    {
      if Full() then Doubled(slot[..], bits, slotSize) else slot[..]
    }

    /**
     skynet_handle_register, for a table that is not full at its largest size
     (the C code asserts that): the first free slot in probe order, of a table
     that doubles exactly when it was full.
     */
    method Register(context: nat) returns (handle: nat)
      requires Valid() && (Full() ==> slotSize * 2 - 1 <= HANDLE_MASK)
      modifies this`handleIndex, this`slotSize, this`slot, this`bits, this`live, slot
      ensures Valid() && (slot == old(slot) || fresh(slot))
      ensures handle !in old(live) && live == old(live)[handle := context]
      ensures handle / HANDLES == harbor && handleIndex == handle % HANDLES + 1
      ensures slotSize == (if old(Full()) then 2 * old(slotSize) else old(slotSize)) == |old(TableToProbe())|
      ensures FirstFree(old(TableToProbe()), bits, old(handleIndex), handle % HANDLES)
    {
      ghost var table, full := TableToProbe(), Full();
      var found: bool, low: nat;
      found, low := Probe();
      while !found
        invariant Valid() && live == old(live) && handleIndex == old(handleIndex) && found == !Full()
        invariant slot == old(slot) || fresh(slot)
        invariant if found then slot[..] == table
                  else full && unchanged(this) && unchanged(slot)
        invariant found ==> FirstFree(slot[..], bits, handleIndex, low)
        decreases !found
      {
        Grow();
        found, low := Probe();
      }
      handle := Occupy(context, low);
    }

    /** skynet_handle_grab */
    method Grab(handle: nat) returns (found: bool, context: nat)
      requires Valid()
      ensures found <==> handle in live
      ensures found ==> context == live[handle]
    {
      var hash := And(handle, slotSize - 1);
      LiveInSlot(slot[..], bits, live, harbor, handle);
      if slot[hash].Used? && slot[hash].handle == handle {
        return true, slot[hash].context;
      }
      return false, 0;
    }

    /** The slot part of skynet_handle_retire. */
    method Remove(handle: nat) returns (removed: bool)
      requires Valid()
      modifies this`live, slot
      ensures Valid() && removed == (handle in old(live)) && live == old(live) - {handle}
    {
      var hash := And(handle, slotSize - 1);
      LiveInSlot(slot[..], bits, live, harbor, handle);
      removed := slot[hash].Used? && slot[hash].handle == handle;
      if removed {
        FreedAgrees(slot[..], bits, live, harbor, handle);
        slot[hash] := Free;
        live := live - {handle};
      }
    }

    /**
     skynet_handle_retire: a live handle leaves the table together with all its
     names and only those; for any other handle nothing changes, not even a
     name bound to it.
     */
    method Retire(handle: nat) returns (removed: bool)
      requires Valid() && names.Valid()
      modifies this`live, slot, names`nameCount, names.name
      ensures Valid() && names.Valid()
      ensures removed == (handle in old(live)) && live == old(live) - {handle}
      ensures names.Entries() == if removed then Filter(old(names.Entries()), NotOf(handle)) else old(names.Entries())
    {
      removed := Remove(handle);
      if removed {
        names.RemoveHandle(handle);
      }
    }
  }

  lemma {:induction false} BitsBelow(k: nat, l: nat)
    requires Pow2(k) * 2 - 1 < Pow2(l)
    ensures k < l
  {
    if k > l {
      Pow2Add(l, k - l);
      MulAtLeast(Pow2(l), Pow2(k - l));
    }
  }
}
