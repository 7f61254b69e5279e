/**
 The hierarchical timing wheel of skynet_timer.c, refining the list clock, and
 the polling that drives it.
 */
module Timers {
  import opened Bits
  import opened Clocks
  import opened Placement
  import opened Sequences
  import opened TimerLists

  const PERIOD := 0x100_0000 * 100

  lemma And24(seconds: nat)
    ensures And(seconds, 0xff_ffff) == seconds % 0x100_0000
  {
    assert Pow2(8) == 0x100 && Pow2(16) == 0x1_0000 && Pow2(24) == 0x100_0000;
    AndMask(seconds, 24);
  }

  /** _gettime: the true time in centiseconds, but with the seconds kept modulo 2^24. */
  method GetTime(seconds: nat, centis: nat) returns (t: nat)
    requires centis < 100
    ensures t == (seconds * 100 + centis) % PERIOD
  {
    And24(seconds);
    DivModUnique(seconds * 100 + centis, PERIOD, seconds / 0x100_0000, seconds % 0x100_0000 * 100 + centis);
    t := And(seconds, 0xff_ffff) * 100 + centis;
  }

  /** The ticks skynet_updatetime runs when the reading goes from `last` to `ct`. */
  function Elapsed(last: nat, ct: nat): (n: int)
    ensures last < PERIOD ==> n >= 0
  {
    if ct == last then 0 else if ct >= last then ct - last else PERIOD - last + ct
  }

  /** The count is right exactly when less than 2^24 seconds passed between the two polls. */
  lemma ElapsedExact(was: nat, now: nat)
    requires was <= now
    ensures Elapsed(was % PERIOD, now % PERIOD) == now - was <==> now - was < PERIOD
  {
  }

  /** The ticks run by a sequence of polls at the given true times. */
  function TotalTicks(polls: seq<nat>): int {
    if |polls| < 2 then 0
    else
      var n := |polls| - 1;
      TotalTicks(polls[..n]) + Elapsed(polls[n - 1] % PERIOD, polls[n] % PERIOD)
  }

  /** Less than 2^24 seconds between polls: the ticks add up to the true time, however often the reading wrapped. */
  lemma {:induction false} PollsTrackTime(polls: seq<nat>)
    requires polls != [] && forall i :: 0 < i < |polls| ==> polls[i - 1] <= polls[i] < polls[i - 1] + PERIOD
    ensures polls[0] + TotalTicks(polls) == polls[|polls| - 1]
  {
    if |polls| >= 2 {
      var n := |polls| - 1;
      PollsTrackTime(polls[..n]);
      ElapsedExact(polls[n - 1], polls[n]);
    }
  }

  /** The outer loop of timer_shift: the level and list that cascade at time t, if any. */
  method FindCarry(t: nat) returns (carries: bool, i: nat, idx: nat)
    requires 0 < t < MAX_TIME
    ensures carries <==> t % NEAR_SIZE == 0
    ensures carries ==> i < 4 && CarriesTo(t, i) && idx + 1 == Digit(t, i)
  {
    var mask, turn := NEAR_SIZE, ShiftRight(t, NEAR_SHIFT);
    carries, i, idx := false, 0, 0;
    LevelBits(t, 0);
    while And(t, mask - 1) == 0
      invariant 0 <= i < 4 && mask == Unit(i) && turn == Turn(t, i)
      invariant i > 0 ==> Offset(t, i) == 0 == t % NEAR_SIZE
      decreases 4 - i
    {
      LevelBits(t, i);
      idx := And(turn, LEVEL_SIZE - 1);
      if idx != 0 {
        return true, i, idx - 1;
      }
      NextUnit(t, i);
      mask := ShiftLeft(mask, LEVEL_SHIFT);
      turn := ShiftRight(turn, LEVEL_SHIFT);
      i := i + 1;
    }
    LevelBits(t, i);
  }

  class Timer {
    const near: array<LinkList>
    const levels: array2<LinkList>
    var time: nat
    var current: nat
    var fired: seq<Node>         // the dispatched events, in order
    ghost var pending: seq<Node>
    ghost var added: seq<Node>
    ghost var lists: set<LinkList>
    ghost var owner: map<TimerNode, Slot>  // the list each node is in, sentinels included

    predicate Shape() {
      near.Length == NEAR_SIZE && levels.Length0 == 4 && levels.Length1 == LEVEL_SIZE - 1
    }

    ghost function ListOf(s: Slot): LinkList
      requires Shape() && Exists(s)
      reads near, levels
    {
      match s
      case Near(k) => near[k]
      case Level(i, j) => levels[i, j]
    }

    /** List s is well linked, all its nodes are its own, and they hold what table m says. */
    ghost predicate Owns(s: Slot, m: Table)
      requires Shape() && Exists(s)
      reads this`lists, this`owner, near, levels, lists, owner.Keys
    {
      var list := ListOf(s);
      && list in lists
      && (forall n :: n in list.chain ==> n in owner && owner[n] == s)
      && list.Valid() && Events(list.chain) == m[s]
    }

    /** The lists represent table m; no node is in two of them. */
    ghost predicate Separate(m: Table)
      reads this`lists, this`owner, near, levels, lists, owner.Keys
    {
      Shape() && forall s {:trigger Owns(s, m)} :: Exists(s) ==> Owns(s, m)
    }

    /** Every list holds the pending events that belong there now, in insertion order. */
    ghost predicate Valid()
      reads this`time, this`pending, this`lists, this`owner, near, levels, lists, owner.Keys
    {
      time < MAX_TIME && Ahead(pending, time) && Separate(Placed(pending, time))
    }

    ghost function Value(): Clock
      reads this`time, this`pending, this`fired, this`added
    {
      Clock(time, pending, fired, added)
    }

    /** A list cleared for the first time. */
    ghost predicate Cleared(list: LinkList, s: Slot)
      reads this`lists, this`owner, list, list.head
    {
      list in lists && list.chain == [list.head] && list.Valid() && list.head in owner && owner[list.head] == s
    }

    /** Nothing that was someone's changed hands. */
    twostate predicate OnlyAdded()
      reads this`lists, this`owner
    {
      && old(lists) <= lists && fresh(lists - old(lists)) && fresh(owner.Keys - old(owner.Keys))
      && forall n :: n in old(owner) ==> n in owner && owner[n] == old(owner[n])
    }

    /** The first loop of timer_create_timer. */
    method ClearNear()
      requires Shape()
      modifies this`lists, this`owner, near
      ensures OnlyAdded() && forall k :: 0 <= k < NEAR_SIZE ==> Cleared(near[k], Near(k))
    {
      for i := 0 to NEAR_SIZE
        invariant OnlyAdded()
        invariant forall k :: 0 <= k < i ==> Cleared(near[k], Near(k))
      {
        var list := new LinkList();
        near[i] := list;
        lists, owner := lists + {list}, owner[list.head := Near(i)];
      }
    }

    /** The inner loop of the second one. */
    method ClearLevel(i: nat)
      requires Shape() && i < 4
      modifies this`lists, this`owner, levels
      ensures OnlyAdded()
      ensures forall k, j :: 0 <= k < 4 && k != i && 0 <= j < LEVEL_SIZE - 1 ==> levels[k, j] == old(levels[k, j])
      ensures forall j :: 0 <= j < LEVEL_SIZE - 1 ==> Cleared(levels[i, j], Level(i, j))
    {
      for j := 0 to LEVEL_SIZE - 1
        invariant OnlyAdded()
        invariant forall k, l :: 0 <= k < 4 && k != i && 0 <= l < LEVEL_SIZE - 1 ==> levels[k, l] == old(levels[k, l])
        invariant forall l :: 0 <= l < j ==> Cleared(levels[i, l], Level(i, l))
      {
        var list := new LinkList();
        levels[i, j] := list;
        lists, owner := lists + {list}, owner[list.head := Level(i, j)];
      }
    }

    method ClearLevels()
      requires Shape()
      modifies this`lists, this`owner, levels
      ensures OnlyAdded()
      ensures forall i, j :: 0 <= i < 4 && 0 <= j < LEVEL_SIZE - 1 ==> Cleared(levels[i, j], Level(i, j))
    {
      for i := 0 to 4
        invariant OnlyAdded()
        invariant forall k, j :: 0 <= k < i && 0 <= j < LEVEL_SIZE - 1 ==> Cleared(levels[k, j], Level(k, j))
      {
        ClearLevel(i);
      }
    }

    /** timer_create_timer */
    method ClearLists()
      requires Shape() && lists == {} && owner == map[]
      modifies this`lists, this`owner, near, levels
      ensures fresh(lists) && fresh(owner.Keys)
      ensures forall s :: Exists(s) ==> Cleared(ListOf(s), s)
    {
      ClearNear();
      ClearLevels();
    }

    constructor (seconds: nat, centis: nat)
      requires centis < 100
      ensures Valid() && Value() == START && fresh(lists) && fresh(owner.Keys)
      ensures current == (seconds * 100 + centis) % PERIOD
    {
      var blank := new LinkList();
      near := new LinkList[NEAR_SIZE](_ => blank);
      levels := new LinkList[4, LEVEL_SIZE - 1]((_, _) => blank);
      var ct := GetTime(seconds, centis);
      time, current := 0, ct;
      fired, pending, added := [], [], [];
      lists, owner := {}, map[];
      new;
      ClearLists();
      forall s | Exists(s)
        ensures Owns(s, EMPTY_TABLE)
      {
        assert Cleared(ListOf(s), s);
      }
    }

    /** No operation on the lists touches these. */
    twostate predicate SameFrame()
      reads this`lists, this`current
    {
      unchanged(this`lists, this`current)
    }

    twostate predicate SameEvents()
      reads this`time, this`fired, this`pending, this`added
    {
      unchanged(this`time, this`fired, this`pending, this`added)
    }

    /** Links a node to the end of list s. */
    method Put(ghost s: Slot, list: LinkList, node: TimerNode, ghost m: Table)
      requires Separate(m) && Exists(s) && list == ListOf(s) && node !in owner
      modifies this`owner, list, list.tail`next, node`next
      ensures Separate(Appended(m, s, node.value)) && owner == old(owner)[node := s]
    {
      ghost var last, m' := list.tail, Appended(m, s, node.value);
      assert Owns(s, m) && last in list.chain && owner[last] == s;
      owner := owner[node := s];
      list.Link(node);
      forall r | Exists(r)
        ensures Owns(r, m')
      {
        assert old(Owns(r, m));
        if r != s {
          var other := ListOf(r);
          assert other.head in old(other.chain) && other != list;
          assert last !in other.chain && node !in other.chain;
          Undisturbed(other);
        }
      }
    }

    /** link_clear of list s: its nodes are in no list for now. */
    method Take(ghost s: Slot, list: LinkList, ghost m: Table)
      returns (first: TimerNode?, ghost nodes: seq<TimerNode>)
      requires Separate(m) && Exists(s) && list == ListOf(s)
      modifies this`owner, list, list.head`next
      ensures Separate(m[s := []]) && Loose(first, nodes) && Values(nodes) == m[s]
      ensures forall n :: n in nodes ==> n in old(owner) && n !in owner
      ensures owner.Keys <= old(owner.Keys)
    {
      ghost var m' := m[s := []];
      assert Owns(s, m);
      nodes := list.chain[1..];
      LinkedTail(list.chain);
      first := list.Clear();
      owner := map n | n in owner && n !in nodes :: owner[n];
      forall r | Exists(r)
        ensures Owns(r, m')
      {
        assert old(Owns(r, m));
        if r != s {
          var other := ListOf(r);
          assert other.head in old(other.chain) && other != list;
          assert list.head !in other.chain && forall n :: n in other.chain ==> n !in nodes;
          Undisturbed(other);
        }
      }
    }

    /** The search of add_node: the lowest level whose turn e and the present share. */
    method FindLevel(expire: nat) returns (i: nat)
      requires time <= expire < MAX_TIME && !Together(expire, time, 0)
      ensures i < 4 && Place(expire, time) == Level(i, Digit(expire, i) - 1)
    {
      LevelBits(expire, 0);
      var mask := ShiftLeft(NEAR_SIZE, LEVEL_SHIFT);
      i := 0;
      while i < 3
        invariant i <= 3
        invariant i < 3 ==> mask == Unit(i + 1)
        invariant forall k :: 0 <= k <= i ==> !Together(expire, time, k)
      {
        MaskedEqual(expire, time, i + 1);
        if Or(expire, mask - 1) == Or(time, mask - 1) {
          break;
        }
        LevelBits(expire, i + 1);
        mask := ShiftLeft(mask, LEVEL_SHIFT);
        i := i + 1;
      }
      PlaceAtLevel(expire, time, i);
    }

    /** add_node */
    method AddNode(node: TimerNode, ghost m: Table)
      requires Separate(m) && node !in owner && time <= node.value.expire < MAX_TIME
      modifies this`owner, lists, owner.Keys, node
      ensures Separate(Appended(m, Place(node.value.expire, time), node.value))
      ensures owner.Keys == old(owner.Keys) + {node} && SameFrame() && SameEvents()
    {
      var expire := node.value.expire;
      ghost var s := Place(expire, time);
      PlaceExists(expire, time);
      assert Owns(s, m);
      MaskedEqual(expire, time, 0);
      if Or(expire, NEAR_SIZE - 1) == Or(time, NEAR_SIZE - 1) {
        LevelBits(expire, 0);
        Put(s, near[And(expire, NEAR_SIZE - 1)], node, m);
      } else {
        var i := FindLevel(expire);
        LevelBits(expire, i);
        var digit := And(ShiftRight(expire, NEAR_SHIFT + i * LEVEL_SHIFT), LEVEL_SIZE - 1);
        Put(s, levels[i, digit - 1], node, m);
      }
    }

    /** The locked part of timer_add. */
    method AddPending(node: TimerNode)
      requires Valid() && node !in owner && time <= node.value.expire < MAX_TIME
      modifies this`pending, this`added, this`owner, lists, owner.Keys, node
      ensures Valid() && owner.Keys == old(owner.Keys) + {node}
      ensures Value() == WithNode(old(Value()), node.value) && SameFrame()
    {
      SpreadMore(EMPTY_TABLE, pending, node.value, time);
      AddNode(node, Placed(pending, time));
      pending, added := pending + [node.value], added + [node.value];
    }

    /** timer_add */
    method Add(delay: nat, event: TimerEvent)
      requires Valid() && time + delay < MAX_TIME
      modifies this`pending, this`added, this`owner, lists, owner.Keys
      ensures Valid() && Value() == Added(old(Value()), delay, event)
      ensures fresh(owner.Keys - old(owner.Keys)) && SameFrame()
    {
      hide Spread;
      ghost var was := Value();
      var expire := time + delay;
      var node := new TimerNode(Node(expire, event));
      assert Valid() && Value() == was;
      AddPending(node);
      assert Value() == WithNode(was, Node(expire, event));
    }

    /** Places the first of the nodes taken from a list, and goes on to the next. */
    method MoveOn(node: TimerNode, ghost nodes: seq<TimerNode>, ghost m: Table) returns (next: TimerNode?)
      requires Separate(m) && Loose(node, nodes) && time <= node.value.expire < MAX_TIME
      requires forall n :: n in nodes ==> n !in owner
      modifies this`owner, lists, owner.Keys, node
      ensures Separate(Appended(m, Place(node.value.expire, time), node.value))
      ensures nodes != [] && Loose(next, nodes[1..]) && Values(nodes) == [node.value] + Values(nodes[1..])
      ensures owner.Keys == old(owner.Keys) + {node} && forall n :: n in nodes[1..] ==> n !in owner
      ensures SameFrame() && SameEvents()
    {
      LooseNext(node, nodes);
      next := node.next;
      AddNode(node, m);
    }

    /** The inner loop of timer_shift: empties list t[i][idx] and places its events anew. */
    method Relink(i: nat, idx: nat, ghost m: Table)
      requires Separate(m) && i < 4 && idx < LEVEL_SIZE - 1
      requires Ahead(m[Level(i, idx)], time)
      modifies this`owner, lists, owner.Keys
      ensures Separate(Spread(m[Level(i, idx) := []], m[Level(i, idx)], time)) && owner.Keys <= old(owner.Keys)
      ensures SameFrame() && SameEvents()
    {
      ghost var moving := Level(i, idx);
      ghost var start := m[moving := []];
      assert Owns(moving, m);
      var current: TimerNode?;
      ghost var rest, done: seq<Node>;
      current, rest := Take(moving, levels[i, idx], m);
      done := [];
      while current != null
        invariant Separate(Spread(start, done, time)) && Loose(current, rest)
        invariant SameFrame() && SameEvents()
        invariant owner.Keys <= old(owner.Keys)
        invariant forall n :: n in rest ==> n in old(owner.Keys) && n !in owner
        invariant done + Values(rest) == m[moving]
        decreases |rest|
      {
        ghost var v := current.value;
        assert v in done + Values(rest) by {
          LooseNext(current, rest);
        }
        SpreadMore(start, done, v, time);
        current := MoveOn(current, rest, Spread(start, done, time));
        ConcatAssociates(done, [v], Values(rest[1..]));
        done, rest := done + [v], rest[1..];
      }
      assert done == m[moving];
    }

    /** A cascade puts every list right for the present time. */
    method Cascade(i: nat, idx: nat)
      requires 0 < time < MAX_TIME && Ahead(pending, time) && Separate(Placed(pending, time - 1))
      requires i < 4 && CarriesTo(time, i) && idx + 1 == Digit(time, i)
      modifies this`owner, lists, owner.Keys
      ensures Valid() && owner.Keys <= old(owner.Keys)
      ensures SameFrame() && SameEvents()
    {
      hide Spread;
      CarryPlaced(pending, time - 1, i);
      Relink(i, idx, Placed(pending, time - 1));
    }

    /** timer_shift */
    method Shift()
      requires Valid() && time + 1 < MAX_TIME && Ahead(pending, time + 1)
      modifies this`time, this`owner, lists, owner.Keys
      ensures Valid() && Value() == old(Value()).(time := old(time) + 1) && owner.Keys <= old(owner.Keys)
      ensures SameFrame()
    {
      hide Spread, Filter;
      time := time + 1;
      var carries, i, idx := FindCarry(time);
      if carries {
        Cascade(i, idx);
      } else {
        NoCarryPlaced(pending, time - 1);
      }
    }

    /** The body of timer_execute's loop: takes a list and sends each event's message, in order. */
    method Dispatch(k: nat, ghost m: Table)
      requires Separate(m) && k < NEAR_SIZE
      modifies this`fired, this`owner, lists, owner.Keys
      ensures Separate(m[Near(k) := []]) && owner.Keys <= old(owner.Keys)
      ensures fired == old(fired) + m[Near(k)]
      ensures SameFrame() && unchanged(this`time, this`pending, this`added)
    {
      assert Owns(Near(k), m);
      var current: TimerNode?;
      ghost var rest, nodes;
      current, nodes := Take(Near(k), near[k], m);
      rest := nodes;
      while current != null
        modifies this`fired
        invariant Loose(current, rest)
        invariant fired + Values(rest) == old(fired) + Values(nodes)
        decreases |rest|
      {
        LooseNext(current, rest);
        ConcatAssociates(fired, [current.value], Values(rest[1..]));
        fired := fired + [current.value];
        current, rest := current.next, rest[1..];
      }
    }

    /** The loop test of timer_execute. */
    method Occupied(k: nat, ghost m: Table) returns (some: bool)
      requires Separate(m) && k < NEAR_SIZE
      ensures some <==> m[Near(k)] != []
    {
      assert Owns(Near(k), m);
      some := !near[k].Empty();
    }

    /** The loop of timer_execute. */
    method DispatchAll(k: nat, ghost m: Table)
      requires Separate(m) && k < NEAR_SIZE
      modifies this`fired, this`owner, lists, owner.Keys
      ensures Separate(m[Near(k) := []]) && owner.Keys <= old(owner.Keys)
      ensures fired == old(fired) + m[Near(k)]
      ensures SameFrame() && unchanged(this`time, this`pending, this`added)
    {
      ghost var left := m[Near(k) := []];
      assert m[Near(k)] == [] ==> left == m;
      var more := Occupied(k, m);
      while more
        invariant SameFrame() && unchanged(this`time, this`pending, this`added)
        invariant owner.Keys <= old(owner.Keys) && (more ==> m[Near(k)] != [])
        invariant if more then Separate(m) && fired == old(fired)
                  else Separate(left) && fired == old(fired) + m[Near(k)]
        decreases more
      {
        Dispatch(k, m);
        more := Occupied(k, left);
      }
    }

    /** timer_execute */
    method Execute()
      requires Valid()
      modifies this`fired, this`pending, this`owner, lists, owner.Keys
      ensures Valid() && Value() == Executed(old(Value())) && owner.Keys <= old(owner.Keys)
      ensures SameFrame()
    {
      LevelBits(time, 0);
      DuePlaced(pending, time);
      DispatchAll(And(time, NEAR_SIZE - 1), Placed(pending, time));
      pending := Filter(pending, NotDueAt(time));
    }

    /** timer_update */
    method Update()
      requires Valid() && time + 1 < MAX_TIME
      modifies this`time, this`fired, this`pending, this`owner, lists, owner.Keys
      ensures Valid() && Value() == Ticked(old(Value())) && owner.Keys <= old(owner.Keys)
      ensures SameFrame()
    {
      hide Spread, Filter;
      ghost var v := Value();
      Execute();
      assert Ahead(pending, time + 1) by {
        FilterMembers(v.pending, NotDueAt(time));
      }
      Shift();
      assert Value() == Executed(v).(time := v.time + 1);
      Execute();
    }

    /** The loop of skynet_updatetime. */
    method Updates(n: nat)
      requires Valid() && time + n < MAX_TIME
      modifies this`time, this`fired, this`pending, this`owner, lists, owner.Keys
      ensures Valid() && time == old(time) + n && owner.Keys <= old(owner.Keys)
      ensures Value() == Ticks(old(Value()), n)
      ensures SameFrame()
    {
      ghost var v, start, keys := Value(), time, owner.Keys;
      for i := 0 to n
        invariant Valid() && Value() == v && v == Ticks(old(Value()), i) && time == start + i
        invariant owner.Keys <= keys && SameFrame()
      {
        Update();
        v := Ticked(v);
      }
    }

    /** skynet_updatetime after reading the clock; n is the number of ticks due. */
    method CatchUp(ct: nat, ghost n: nat)
      requires Valid() && n == Elapsed(current, ct) && time + n < MAX_TIME
      modifies this`current, this`time, this`fired, this`pending, this`owner, lists, owner.Keys
      ensures Valid() && current == ct && time == old(time) + n
      ensures Value() == Ticks(old(Value()), n)
      ensures owner.Keys <= old(owner.Keys) && unchanged(this`lists)
    {
      ghost var was := Value();
      if ct != current {
        var diff := if ct >= current then ct - current else PERIOD - current + ct;
        current := ct;
        Updates(diff);
      }
      assert Value() == Ticks(was, n);
    }

    /**
     skynet_updatetime at a true time less than 2^24 seconds after that of the
     last poll: one tick for each centisecond since.
     */
    method UpdateTime(seconds: nat, centis: nat, ghost last: nat, ghost n: nat)
      requires Valid() && current == last % PERIOD
      requires centis < 100 && last + n == seconds * 100 + centis && n < PERIOD
      requires time + n < MAX_TIME
      modifies this`current, this`time, this`fired, this`pending, this`owner, lists, owner.Keys
      ensures Valid() && current == (last + n) % PERIOD && time == old(time) + n
      ensures Value() == Ticks(old(Value()), n)
      ensures owner.Keys <= old(owner.Keys) && unchanged(this`lists)
    {
      var ct := GetTime(seconds, centis);
      ElapsedExact(last, last + n);
      CatchUp(ct, n);
    }
  }
}
