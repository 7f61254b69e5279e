/**
 Where the timing wheel keeps an event: a function of its expiry and of the
 present time, and how that place changes when time advances by one.
 */
module Placement {
  import opened Bits
  import opened Clocks
  import opened Sequences

  const NEAR_SHIFT := 8
  const LEVEL_SHIFT := 6
  const NEAR_SIZE := 256   // 1 << NEAR_SHIFT
  const LEVEL_SIZE := 64   // 1 << LEVEL_SHIFT
  const MAX_TIME := 0x8000_0000

  /** A list of the wheel: near[k], or t[i][j]. */
  datatype Slot = Near(k: nat) | Level(i: nat, j: int)

  predicate Exists(s: Slot) {
    match s
    case Near(k) => k < NEAR_SIZE
    case Level(i, j) => i < 4 && 0 <= j < LEVEL_SIZE - 1
  }

  /** How many ticks one slot of level i covers: the wheel's levels turn at these boundaries. */
  function Unit(i: nat): nat
    requires i < 4
  {
    match i
    case 0 => 0x100
    case 1 => 0x4000
    case 2 => 0x10_0000
    case 3 => 0x400_0000
  }

  /** Which slot of level i the time e lies in. */
  function Turn(e: nat, i: nat): nat
    requires i < 4
  {
    match i
    case 0 => e / 0x100
    case 1 => e / 0x4000
    case 2 => e / 0x10_0000
    case 3 => e / 0x400_0000
  }

  /** How far into that slot. */
  function Offset(e: nat, i: nat): nat
    requires i < 4
  {
    match i
    case 0 => e % 0x100
    case 1 => e % 0x4000
    case 2 => e % 0x10_0000
    case 3 => e % 0x400_0000
  }

  function Digit(e: nat, i: nat): nat
    requires i < 4
  {
    Turn(e, i) % LEVEL_SIZE
  }

  /** e and t lie in one slot of level i. */
  predicate Together(e: nat, t: nat, i: nat)
    requires i < 4
  {
    Turn(e, i) == Turn(t, i)
  }

  function Place(e: nat, t: nat): Slot {
    if Together(e, t, 0) then Near(e % NEAR_SIZE)
    else if Together(e, t, 1) then Level(0, Digit(e, 0) - 1)
    else if Together(e, t, 2) then Level(1, Digit(e, 1) - 1)
    else if Together(e, t, 3) then Level(2, Digit(e, 2) - 1)
    else Level(3, Digit(e, 3) - 1)
  }

  function PlacedAt(t: nat, s: Slot): Node -> bool { (n: Node) => Place(n.expire, t) == s }

  /** Each level's quotient is the digits above the one below. */
  lemma Nested(e: nat)
    ensures Turn(e, 1) == Turn(e, 0) / LEVEL_SIZE
    ensures Turn(e, 2) == Turn(e, 1) / LEVEL_SIZE
    ensures Turn(e, 3) == Turn(e, 2) / LEVEL_SIZE
  {
  }

  lemma TurnDivides(e: nat, i: nat)
    requires i < 4
    ensures Turn(e, i) == e / Unit(i) && Offset(e, i) == e % Unit(i)
  {
  }

  lemma UnitIsPow2(i: nat)
    requires i < 4
    ensures Unit(i) == Pow2(NEAR_SHIFT + i * LEVEL_SHIFT)
  {
    assert Pow2(6) == 0x40 && Pow2(8) == 0x100 && Pow2(14) == 0x4000;
    assert Pow2(20) == 0x10_0000 && Pow2(26) == 0x400_0000;
  }

  /** The masks and shifts of the C code say turn, offset and digit. */
  lemma LevelBits(e: nat, i: nat)
    requires i < 4
    ensures And(e, Unit(i) - 1) == Offset(e, i)
    ensures ShiftRight(e, NEAR_SHIFT + i * LEVEL_SHIFT) == Turn(e, i)
    ensures And(Turn(e, i), LEVEL_SIZE - 1) == Digit(e, i)
    ensures ShiftRight(Turn(e, i), LEVEL_SHIFT) == Turn(e, i) / LEVEL_SIZE
    ensures i < 3 ==> ShiftLeft(Unit(i), LEVEL_SHIFT) == Unit(i + 1)
  {
    assert Pow2(LEVEL_SHIFT) == LEVEL_SIZE;
    UnitIsPow2(i);
    TurnDivides(e, i);
    AndMask(e, NEAR_SHIFT + i * LEVEL_SHIFT);
    AndMask(Turn(e, i), LEVEL_SHIFT);
  }

  /** The comparison of add_node says that two times share a turn. */
  lemma MaskedEqual(e: nat, t: nat, i: nat)
    requires i < 4
    ensures Or(e, Unit(i) - 1) == Or(t, Unit(i) - 1) <==> Together(e, t, i)
  {
    UnitIsPow2(i);
    TurnDivides(e, i);
    TurnDivides(t, i);
    SameAboveMask(e, t, NEAR_SHIFT + i * LEVEL_SHIFT);
  }

  /** No index is out of range: the digit that differs is greater than the time's, hence not zero. */
  lemma PlaceExists(e: nat, t: nat)
    requires t <= e < MAX_TIME
    ensures Exists(Place(e, t))
    ensures match Place(e, t)
            case Near(k) => k == e % NEAR_SIZE && Together(e, t, 0)
            case Level(i, j) => j + 1 == Digit(e, i) > Digit(t, i) && (i < 3 ==> Together(e, t, i + 1))
  {
    TogetherAbove(e, t);
    MonotoneQuotients(e, t);
    if !Together(e, t, 0) {
      var i := if Together(e, t, 1) then 0 else if Together(e, t, 2) then 1 else if Together(e, t, 3) then 2 else 3;
      LargerDigit(e, t, i);
    }
  }

  lemma LargerDigit(e: nat, t: nat, i: nat)
    requires i < 4 && t <= e < MAX_TIME
    requires !Together(e, t, i) && (i < 3 ==> Together(e, t, i + 1))
    ensures Digit(e, i) > Digit(t, i)
  {
    Nested(e);
    Nested(t);
    MonotoneQuotients(e, t);
  }

  lemma PlaceAtLevel(e: nat, t: nat, i: nat)
    requires i < 4 && (forall k :: 0 <= k <= i ==> !Together(e, t, k)) && (i < 3 ==> Together(e, t, i + 1))
    ensures Place(e, t) == Level(i, Digit(e, i) - 1)
  {
  }

  lemma PlaceBelow(e: nat, t: nat, i: nat)
    requires i < 4 && Together(e, t, i)
    ensures Below(Place(e, t), i)
  {
  }

  /** Times that have the same in common with e, and nothing up to level i, place it alike. */
  lemma PlaceAbove(e: nat, t: nat, now: nat, i: nat)
    requires i < 4 && forall k :: 0 <= k <= i ==> !Together(e, t, k) && !Together(e, now, k)
    requires forall k :: i < k < 4 ==> Together(e, t, k) == Together(e, now, k)
    ensures Place(e, t) == Place(e, now) && !Below(Place(e, t), i)
    ensures Place(e, t).Level? && (Place(e, t).i == i ==> i == 3 || Together(e, now, i + 1))
    ensures Place(e, t).j == Digit(e, Place(e, t).i) - 1
  {
  }

  // ----- Carries -----

  /** Time t has just entered a new slot of level i, and not of level i + 1: its list cascades. */
  predicate CarriesTo(t: nat, i: nat)
    requires i < 4
  {
    Offset(t, i) == 0 && Digit(t, i) != 0
  }

  function Cascading(t: nat, i: nat): Slot
    requires i < 4
  {
    Level(i, Digit(t, i) - 1)
  }

  /** The slots of the levels below i. */
  predicate Below(s: Slot, i: nat) {
    s.Near? || s.i < i
  }

  lemma NoCarry(e: nat, t: nat)
    requires t < e && (t + 1) % NEAR_SIZE != 0
    ensures Place(e, t + 1) == Place(e, t)
  {
    Nested(t);
    Nested(t + 1);
    assert Together(t, t + 1, 0);
  }

  /** A number is a multiple of the next unit when it is one of this unit and its digit here is zero. */
  lemma NextMultiple(x: nat, i: nat)
    requires i < 3
    ensures Offset(x, i + 1) == 0 <==> Offset(x, i) == 0 && Digit(x, i) == 0
  {
    assert Unit(i + 1) == Unit(i) * LEVEL_SIZE;
    TurnDivides(x, i);
    TurnDivides(x, i + 1);
    DivProduct(x, Unit(i), LEVEL_SIZE);
    MulAtLeast(Unit(i), Digit(x, i));
  }

  lemma QuotientStep(t: nat, u: nat)
    requires u >= 1
    ensures (t + 1) / u == if (t + 1) % u == 0 then t / u + 1 else t / u
  {
    var q, r := t / u, t % u;
    QuotientNatural(t, u);
    assert t == u * q + r;
    if r + 1 == u {
      MulDistributes(u, q, 1);
      DivModUnique(t + 1, u, q + 1, 0);
    } else {
      DivModUnique(t + 1, u, q, r + 1);
    }
  }

  lemma QuotientsAtCarry(t: nat, i: nat)
    requires i < 4 && CarriesTo(t + 1, i)
    ensures forall k :: 0 <= k <= i ==> Turn(t + 1, k) == Turn(t, k) + 1
    ensures forall k :: i < k < 4 ==> Turn(t + 1, k) == Turn(t, k)
  {
    NextMultiple(t + 1, 0);
    NextMultiple(t + 1, 1);
    NextMultiple(t + 1, 2);
    forall k | 0 <= k < 4
      ensures Turn(t + 1, k) == if k <= i then Turn(t, k) + 1 else Turn(t, k)
    {
      TurnDivides(t, k);
      TurnDivides(t + 1, k);
      QuotientStep(t, Unit(k));
    }
  }

  lemma MonotoneQuotients(e: nat, t: nat)
    requires t <= e
    ensures forall k :: 0 <= k < 4 ==> Turn(t, k) <= Turn(e, k)
  {
  }

  lemma DigitDecides(a: nat, b: nat)
    ensures a == b ==> a / LEVEL_SIZE == b / LEVEL_SIZE
    ensures a / LEVEL_SIZE == b / LEVEL_SIZE ==> (a == b <==> a % LEVEL_SIZE == b % LEVEL_SIZE)
  {
  }

  /** Being together at a level means being together at every level above. */
  lemma TogetherAbove(e: nat, t: nat)
    ensures forall k :: 0 <= k < 3 ==> Together(e, t, k) ==> Together(e, t, k + 1)
    ensures forall k :: 0 <= k < 3 ==> Together(e, t, k + 1) ==> (Together(e, t, k) <==> Digit(e, k) == Digit(t, k))
    ensures e < MAX_TIME && t < MAX_TIME ==> (Together(e, t, 3) <==> Digit(e, 3) == Digit(t, 3))
  {
    Nested(e);
    Nested(t);
    forall k | 0 <= k < 3
      ensures Together(e, t, k) ==> Together(e, t, k + 1)
      ensures Together(e, t, k + 1) ==> (Together(e, t, k) <==> Digit(e, k) == Digit(t, k))
    {
      DigitDecides(Turn(e, k), Turn(t, k));
    }
  }

  /** At a carry to level i: what the events still to come have in common with the time before and after. */
  lemma TogetherAtCarry(e: nat, t: nat, now: nat, i: nat)
    requires i < 4 && now == t + 1 <= e < MAX_TIME && CarriesTo(now, i)
    ensures forall k :: 0 <= k <= i ==> !Together(e, t, k)
    ensures forall k :: i < k < 4 ==> Together(e, t, k) == Together(e, now, k)
    ensures Together(e, now, i) ==> Digit(e, i) == Digit(now, i) && (i < 3 ==> Together(e, now, i + 1))
    ensures !Together(e, now, i) ==>
              && (forall k :: 0 <= k <= i ==> !Together(e, now, k))
              && (i == 3 || Together(e, now, i + 1) ==> Digit(e, i) != Digit(now, i))
  {
    QuotientsAtCarry(t, i);
    MonotoneQuotients(e, now);
    TogetherAbove(e, now);
  }

  /**
   At a carry to level i: the events of the slot that time enters were all in
   the cascading list and belong to lower levels; no other event moves, and none
   of those was in a lower level.
   */
  lemma Carry(e: nat, t: nat, i: nat)
    requires i < 4 && t < e < MAX_TIME && CarriesTo(t + 1, i)
    ensures if Together(e, t + 1, i)
            then Place(e, t) == Cascading(t + 1, i) && Below(Place(e, t + 1), i)
            else Place(e, t + 1) == Place(e, t) != Cascading(t + 1, i) && !Below(Place(e, t), i)
  {
    var now := t + 1;
    TogetherAtCarry(e, t, now, i);
    if Together(e, now, i) {
      PlaceAtLevel(e, t, i);
      PlaceBelow(e, now, i);
    } else {
      PlaceAbove(e, t, now, i);
    }
  }

  // ----- Lists -----

  /** The events still to come fit the wheel. */
  predicate Ahead(pending: seq<Node>, t: nat) {
    forall n :: n in pending ==> t <= n.expire < MAX_TIME
  }

  /** When time advances without a carry, every list stays as it is. */
  lemma NoCarryList(pending: seq<Node>, t: nat, s: Slot)
    requires Ahead(pending, t + 1) && (t + 1) % NEAR_SIZE != 0
    ensures Filter(pending, PlacedAt(t, s)) == Filter(pending, PlacedAt(t + 1, s))
  {
    forall n | n in pending
      ensures PlacedAt(t, s)(n) == PlacedAt(t + 1, s)(n)
    {
      NoCarry(n.expire, t);
    }
    FilterAgree(pending, PlacedAt(t, s), PlacedAt(t + 1, s));
  }

  /** At a carry, emptying the cascading list and placing its events anew puts every list right, in order. */
  lemma CarryList(pending: seq<Node>, t: nat, i: nat, s: Slot)
    requires Ahead(pending, t + 1) && i < 4 && CarriesTo(t + 1, i)
    ensures var moving := Cascading(t + 1, i);
            (if s == moving then [] else Filter(pending, PlacedAt(t, s)))
            + Filter(Filter(pending, PlacedAt(t, moving)), PlacedAt(t + 1, s))
            == Filter(pending, PlacedAt(t + 1, s))
  {
    var moving := Cascading(t + 1, i);
    forall n | n in pending
      ensures if Together(n.expire, t + 1, i)
              then PlacedAt(t, moving)(n) && Below(Place(n.expire, t + 1), i)
              else Place(n.expire, t + 1) == Place(n.expire, t) != moving && !Below(Place(n.expire, t), i)
    {
      Carry(n.expire, t, i);
    }
    if Below(s, i) {
      FilterNone(pending, PlacedAt(t, s));
      FilterFilter(pending, PlacedAt(t, moving), PlacedAt(t + 1, s));
    } else {
      FilterMembers(pending, PlacedAt(t, moving));
      FilterNone(Filter(pending, PlacedAt(t, moving)), PlacedAt(t + 1, s));
      if s == moving {
        FilterNone(pending, PlacedAt(t + 1, s));
      } else {
        FilterAgree(pending, PlacedAt(t, s), PlacedAt(t + 1, s));
      }
    }
  }

  /** At a carry to level i all the lists below it are empty before the cascade. */
  lemma EmptyBelowCarry(pending: seq<Node>, t: nat, i: nat, s: Slot)
    requires Ahead(pending, t + 1) && i < 4 && CarriesTo(t + 1, i) && Below(s, i)
    ensures Filter(pending, PlacedAt(t, s)) == []
  {
    forall n | n in pending
      ensures !PlacedAt(t, s)(n)
    {
      Carry(n.expire, t, i);
    }
    FilterNone(pending, PlacedAt(t, s));
  }

  /** The near list of the present holds exactly what is due now. */
  lemma NearIsDue(pending: seq<Node>, t: nat)
    requires Ahead(pending, t)
    ensures Filter(pending, PlacedAt(t, Near(t % NEAR_SIZE))) == Filter(pending, DueAt(t))
  {
    forall n | n in pending
      ensures PlacedAt(t, Near(t % NEAR_SIZE))(n) == DueAt(t)(n)
    {
      assert Together(n.expire, t, 0) && n.expire % NEAR_SIZE == t % NEAR_SIZE ==> n.expire == t;
    }
    FilterAgree(pending, PlacedAt(t, Near(t % NEAR_SIZE)), DueAt(t));
  }

  /** Removing what is due now leaves the other lists as they are. */
  lemma OthersNotDue(pending: seq<Node>, t: nat, s: Slot)
    requires Ahead(pending, t)
    ensures Filter(Filter(pending, NotDueAt(t)), PlacedAt(t, s)) ==
            if s == Near(t % NEAR_SIZE) then [] else Filter(pending, PlacedAt(t, s))
  {
    if s == Near(t % NEAR_SIZE) {
      FilterMembers(pending, NotDueAt(t));
      NearIsDue(Filter(pending, NotDueAt(t)), t);
      FilterNone(Filter(pending, NotDueAt(t)), DueAt(t));
    } else {
      FilterFilter(pending, NotDueAt(t), PlacedAt(t, s));
    }
  }

  lemma NextUnit(t: nat, i: nat)
    requires 0 < t < MAX_TIME && i < 4 && Offset(t, i) == 0 && Digit(t, i) == 0
    ensures i < 3 && Offset(t, i + 1) == 0 && Turn(t, i + 1) == Turn(t, i) / LEVEL_SIZE
    ensures Unit(i + 1) == Unit(i) * LEVEL_SIZE
  {
    Nested(t);
    TurnDivides(t, i);
    assert t == Unit(i) * Turn(t, i);
    if i < 3 {
      NextMultiple(t, i);
    }
  }

  // ----- All lists at once -----

  /** What each list of the wheel holds. */
  type Table = m: imap<Slot, seq<Node>> | forall s: Slot :: s in m
    ghost witness imap s: Slot | true :: []

  ghost const EMPTY_TABLE: Table := imap s: Slot | true :: []

  ghost function Appended(m: Table, s: Slot, node: Node): Table {
    m[s := m[s] + [node]]
  }

  /** The events placed one after the other at time t, each behind what is already in its list. */
  ghost function Spread(m: Table, nodes: seq<Node>, t: nat): Table {
    if nodes == [] then m
    else
      var n := |nodes| - 1;
      Appended(Spread(m, nodes[..n], t), Place(nodes[n].expire, t), nodes[n])
  }

  /** Each list holding the pending events that belong there at time t, in insertion order. */
  ghost function Placed(pending: seq<Node>, t: nat): Table {
    Spread(EMPTY_TABLE, pending, t)
  }

  lemma {:induction false} SpreadAt(m: Table, nodes: seq<Node>, t: nat, s: Slot)
    ensures Spread(m, nodes, t)[s] == m[s] + Filter(nodes, PlacedAt(t, s))
  {
    if nodes != [] {
      var n := |nodes| - 1;
      assert nodes == nodes[..n] + [nodes[n]];
      SpreadAt(m, nodes[..n], t, s);
      FilterAppend(nodes[..n], nodes[n], PlacedAt(t, s));
      ConcatAssociates(m[s], Filter(nodes[..n], PlacedAt(t, s)), [nodes[n]]);
    }
  }

  lemma PlacedIs(pending: seq<Node>, t: nat, s: Slot)
    ensures Placed(pending, t)[s] == Filter(pending, PlacedAt(t, s))
  {
    SpreadAt(EMPTY_TABLE, pending, t, s);
  }

  lemma SpreadMore(m: Table, nodes: seq<Node>, node: Node, t: nat)
    ensures Spread(m, nodes + [node], t) == Appended(Spread(m, nodes, t), Place(node.expire, t), node)
  {
    assert (nodes + [node])[..|nodes|] == nodes;
  }

  lemma SameTable(a: Table, b: Table)
    requires forall s: Slot :: a[s] == b[s]
    ensures a == b
  {
  }

  lemma NoCarryPlaced(pending: seq<Node>, t: nat)
    requires Ahead(pending, t + 1) && (t + 1) % NEAR_SIZE != 0
    ensures Placed(pending, t + 1) == Placed(pending, t)
  {
    hide Spread, Filter;
    var before, after := Placed(pending, t), Placed(pending, t + 1);
    forall s: Slot
      ensures after[s] == before[s]
    {
      PlacedIs(pending, t, s);
      PlacedIs(pending, t + 1, s);
      NoCarryList(pending, t, s);
    }
    SameTable(after, before);
  }

  /** One cascade is all that a carry takes. */
  lemma CarryPlaced(pending: seq<Node>, t: nat, i: nat)
    requires Ahead(pending, t + 1) && i < 4 && CarriesTo(t + 1, i)
    ensures var moving, m := Cascading(t + 1, i), Placed(pending, t);
            && Exists(moving) && Ahead(m[moving], t + 1)
            && Spread(m[moving := []], m[moving], t + 1) == Placed(pending, t + 1)
  {
    hide Spread, Filter;
    var moving, m := Cascading(t + 1, i), Placed(pending, t);
    var cascaded, wanted := Spread(m[moving := []], m[moving], t + 1), Placed(pending, t + 1);
    PlacedIs(pending, t, moving);
    FilterMembers(pending, PlacedAt(t, moving));
    forall s: Slot
      ensures cascaded[s] == wanted[s]
    {
      SpreadAt(m[moving := []], m[moving], t + 1, s);
      PlacedIs(pending, t, s);
      PlacedIs(pending, t + 1, s);
      CarryList(pending, t, i, s);
    }
    SameTable(cascaded, wanted);
  }

  /** The near list of the present holds what is due now; emptying it leaves the rest in place. */
  lemma DuePlaced(pending: seq<Node>, t: nat)
    requires Ahead(pending, t)
    ensures var due, rest := Near(t % NEAR_SIZE), Filter(pending, NotDueAt(t));
            && Exists(due) && Placed(pending, t)[due] == Filter(pending, DueAt(t))
            && Ahead(rest, t) && Placed(rest, t) == Placed(pending, t)[due := []]
  {
    hide Spread, Filter;
    var due, rest := Near(t % NEAR_SIZE), Filter(pending, NotDueAt(t));
    var left, wanted := Placed(rest, t), Placed(pending, t)[due := []];
    NearIsDue(pending, t);
    PlacedIs(pending, t, due);
    FilterMembers(pending, NotDueAt(t));
    forall s: Slot
      ensures left[s] == wanted[s]
    {
      PlacedIs(rest, t, s);
      PlacedIs(pending, t, s);
      OthersNotDue(pending, t, s);
    }
    SameTable(left, wanted);
  }
}
