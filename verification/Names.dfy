/**
 The name index of skynet_handle.c: an array of names kept strictly sorted by
 strcmp, agreeing with a linear search.
 */
module Names {
  import opened Sequences

  datatype HandleName = HandleName(name: string, handle: nat)

  // ----- strcmp -----

  function Compare(a: string, b: string): int {
    if a == [] then (if b == [] then 0 else -1)
    else if b == [] then 1
    else if a[0] != b[0] then (if a[0] < b[0] then -1 else 1)
    else Compare(a[1..], b[1..])
  }

  lemma {:induction false} CompareEqual(a: string, b: string)
    ensures Compare(a, b) == 0 <==> a == b
  {
    if a != [] && b != [] && a[0] == b[0] {
      CompareEqual(a[1..], b[1..]);
      assert a == [a[0]] + a[1..] && b == [b[0]] + b[1..];
    }
  }

  lemma {:induction false} CompareOpposite(a: string, b: string)
    ensures Compare(a, b) < 0 <==> Compare(b, a) > 0
  {
    if a != [] && b != [] && a[0] == b[0] {
      CompareOpposite(a[1..], b[1..]);
    }
  }

  lemma {:induction false} CompareTransitive(a: string, b: string, c: string)
    requires Compare(a, b) < 0 && Compare(b, c) < 0
    ensures Compare(a, c) < 0
  {
    if a != [] && b != [] && c != [] && a[0] == b[0] && b[0] == c[0] {
      CompareTransitive(a[1..], b[1..], c[1..]);
    }
  }

  // ----- Sorted lists of names -----

  predicate Sorted(ns: seq<HandleName>) {
    forall i, j :: 0 <= i < j < |ns| ==> Compare(ns[i].name, ns[j].name) < 0
  }

  predicate Has(ns: seq<HandleName>, x: string) {
    exists i :: 0 <= i < |ns| && ns[i].name == x
  }

  /** The reference: the handle of the first entry of that name, or 0. */
  function LinearSearch(ns: seq<HandleName>, x: string): nat {
    if ns == [] then 0 else if ns[0].name == x then ns[0].handle else LinearSearch(ns[1..], x)
  }

  lemma {:induction false} SearchConcat(a: seq<HandleName>, b: seq<HandleName>, x: string)
    ensures LinearSearch(a + b, x) == if Has(a, x) then LinearSearch(a, x) else LinearSearch(b, x)
  {
    if a == [] {
      assert a + b == b;
    } else {
      assert (a + b)[1..] == a[1..] + b;
      SearchConcat(a[1..], b, x);
      if a[0].name != x {
        assert Has(a, x) ==> Has(a[1..], x);
        if i :| 0 <= i < |a[1..]| && a[1..][i].name == x {
          assert a[i + 1].name == x;
        }
      }
    }
  }

  lemma {:induction false} SearchAbsent(ns: seq<HandleName>, x: string)
    requires !Has(ns, x)
    ensures LinearSearch(ns, x) == 0
  {
    if ns != [] {
      assert ns[0].name != x;
      assert forall i :: 0 <= i < |ns[1..]| ==> ns[1..][i] == ns[i + 1];
      SearchAbsent(ns[1..], x);
    }
  }

  lemma SortedDistinct(ns: seq<HandleName>, i: nat, j: nat)
    requires Sorted(ns) && i < |ns| && j < |ns| && ns[i].name == ns[j].name
    ensures i == j
  {
    CompareEqual(ns[i].name, ns[j].name);
    CompareOpposite(ns[i].name, ns[j].name);
  }

  lemma {:induction false} SearchPresent(ns: seq<HandleName>, i: nat)
    requires Sorted(ns) && i < |ns|
    ensures LinearSearch(ns, ns[i].name) == ns[i].handle
  {
    if ns[0].name == ns[i].name {
      SortedDistinct(ns, 0, i);
    } else {
      SearchPresent(ns[1..], i - 1);
    }
  }

  /** Every name before position k is smaller than x, every other one larger. */
  predicate Splits(ns: seq<HandleName>, x: string, k: nat) {
    && k <= |ns|
    && (forall i :: 0 <= i < k ==> Compare(ns[i].name, x) < 0)
    && (forall i :: k <= i < |ns| ==> Compare(x, ns[i].name) < 0)
  }

  lemma SplitsAbsent(ns: seq<HandleName>, x: string, k: nat)
    requires Splits(ns, x, k)
    ensures !Has(ns, x)
  {
    CompareEqual(x, x);
  }

  function Inserted(ns: seq<HandleName>, k: nat, e: HandleName): seq<HandleName>
    requires k <= |ns|
  {
    ns[..k] + [e] + ns[k..]
  }

  lemma GapFilled(r: seq<HandleName>, ns: seq<HandleName>, k: nat, e: HandleName)
    requires k <= |ns| && |r| == |ns| + 1 && r[k] == e
    requires forall i :: 0 <= i < k ==> r[i] == ns[i]
    requires forall i :: k <= i < |ns| ==> r[i + 1] == ns[i]
    ensures r == Inserted(ns, k, e)
  {
    forall j | 0 <= j < |r|
      ensures r[j] == Inserted(ns, k, e)[j]
    {
      if j > k {
        assert r[(j - 1) + 1] == ns[j - 1];
      }
    }
  }

  lemma InsertedSorted(ns: seq<HandleName>, k: nat, e: HandleName)
    requires Sorted(ns) && Splits(ns, e.name, k)
    ensures Sorted(Inserted(ns, k, e))
  {
    var r := Inserted(ns, k, e);
    forall i, j | 0 <= i < j < |r|
      ensures Compare(r[i].name, r[j].name) < 0
    {
      assert r[i] == if i < k then ns[i] else if i == k then e else ns[i - 1];
      assert r[j] == if j < k then ns[j] else if j == k then e else ns[j - 1];
    }
  }

  lemma InsertedSearch(ns: seq<HandleName>, k: nat, e: HandleName, y: string)
    requires Splits(ns, e.name, k)
    ensures LinearSearch(Inserted(ns, k, e), y) == if y == e.name then e.handle else LinearSearch(ns, y)
  {
    SplitsAbsent(ns, e.name, k);
    assert Has(ns[..k], e.name) ==> Has(ns, e.name);
    assert Has([e], y) <==> y == e.name by {
      assert [e][0].name == e.name;
    }
    assert Inserted(ns, k, e) == ns[..k] + ([e] + ns[k..]);
    SearchConcat(ns[..k], [e] + ns[k..], y);
    SearchConcat([e], ns[k..], y);
    SearchConcat(ns[..k], ns[k..], y);
    assert ns == ns[..k] + ns[k..];
  }

  // ----- Retirement -----

  function NotOf(handle: nat): HandleName -> bool { (n: HandleName) => n.handle != handle }

  lemma {:induction false} FilterSorted(ns: seq<HandleName>, p: HandleName -> bool)
    requires Sorted(ns)
    ensures Sorted(Filter(ns, p))
  {
    if ns != [] {
      FilterSorted(ns[1..], p);
      FilterMembers(ns[1..], p);
      var rest := Filter(ns[1..], p);
      forall j | 0 <= j < |rest|
        ensures Compare(ns[0].name, rest[j].name) < 0
      {
        assert rest[j] in ns[1..];
        var k :| 0 <= k < |ns[1..]| && ns[1..][k] == rest[j];
        assert rest[j] == ns[k + 1];
      }
    }
  }

  /** After retiring a handle its names are gone, and every other name still finds its handle. */
  lemma RetiredSearch(ns: seq<HandleName>, handle: nat, i: nat)
    requires Sorted(ns) && i < |ns|
    ensures var r, x := Filter(ns, NotOf(handle)), ns[i].name;
            if ns[i].handle == handle then !Has(r, x) else Has(r, x) && LinearSearch(r, x) == ns[i].handle
  {
    var r := Filter(ns, NotOf(handle));
    FilterMembers(ns, NotOf(handle));
    FilterSorted(ns, NotOf(handle));
    if ns[i].handle == handle {
      forall j | 0 <= j < |r|
        ensures r[j].name != ns[i].name
      {
        assert r[j] in ns;
        var k :| 0 <= k < |ns| && ns[k] == r[j];
        if ns[k].name == ns[i].name {
          SortedDistinct(ns, k, i);
        }
      }
    } else {
      assert ns[i] in r;
      var j :| 0 <= j < |r| && r[j] == ns[i];
      SearchPresent(r, j);
    }
  }

  // ----- The array -----

  class NameIndex {
    var nameCap: nat
    var nameCount: nat
    var name: array<HandleName>

    ghost function Entries(): seq<HandleName>
      requires nameCount <= name.Length
      reads this, name
    {
      name[..nameCount]
    }

    ghost predicate Valid()
      reads this, name
    {
      1 <= nameCap == name.Length && nameCount <= nameCap && Sorted(Entries())
    }

    constructor ()
      ensures Valid() && Entries() == [] && fresh(name)
    {
      nameCap, nameCount := 2, 0;
      name := new HandleName[2](_ => HandleName("", 0));
    }

    /** The bisection of skynet_handle_findname and of _insert_name. */
    method Bisect(x: string) returns (found: bool, at: nat)
      requires Valid()
      ensures found ==> at < nameCount && Entries()[at].name == x
      ensures !found ==> Splits(Entries(), x, at)
    {
      ghost var ns := Entries();
      var begin, end := 0, nameCount - 1;
      while begin <= end
        invariant 0 <= begin <= end + 1 <= nameCount
        invariant forall i :: 0 <= i < begin ==> Compare(ns[i].name, x) < 0
        invariant forall i :: end < i < nameCount ==> Compare(x, ns[i].name) < 0
        decreases end - begin
      {
        var mid := (begin + end) / 2;
        var c := Compare(name[mid].name, x);
        if c == 0 {
          CompareEqual(name[mid].name, x);
          return true, mid;
        }
        if c < 0 {
          NamesBelow(ns, x, mid);
          begin := mid + 1;
        } else {
          CompareOpposite(x, name[mid].name);
          NamesAbove(ns, x, mid);
          end := mid - 1;
        }
      }
      return false, begin;
    }

    /** skynet_handle_findname finds what a linear search would. */
    method FindName(x: string) returns (handle: nat)
      requires Valid()
      ensures handle == LinearSearch(Entries(), x)
    {
      var found, at := Bisect(x);
      handle := 0;
      if found {
        SearchPresent(Entries(), at);
        handle := name[at].handle;
      } else {
        SplitsAbsent(Entries(), x, at);
        SearchAbsent(Entries(), x);
      }
    }

    /** The growing branch of _insert_name_before: a copy with a gap. */
    method Enlarge(before: nat)
      requires Valid() && before <= nameCount == nameCap
      modifies this`name, this`nameCap
      ensures fresh(name) && nameCap == name.Length == 2 * old(nameCap)
      ensures forall k :: 0 <= k < before ==> name[k] == old(Entries())[k]
      ensures forall k :: before <= k < nameCount ==> name[k + 1] == old(Entries())[k]
    {
      nameCap := nameCap * 2;
      var n := new HandleName[nameCap](_ => HandleName("", 0));
      for i := 0 to before
        modifies n
        invariant forall k :: 0 <= k < i ==> n[k] == name[k]
      {
        n[i] := name[i];
      }
      for i := before to nameCount
        modifies n
        invariant forall k :: 0 <= k < before ==> n[k] == name[k]
        invariant forall k :: before <= k < i ==> n[k + 1] == name[k]
      {
        n[i + 1] := name[i];
      }
      name := n;
    }

    /** The other branch: the names from `before` on move up by one, last first. */
    method ShiftUp(before: nat)
      requires Valid() && before <= nameCount < nameCap
      modifies name
      ensures forall k :: 0 <= k < before ==> name[k] == old(name[k])
      ensures forall k :: before <= k < nameCount ==> name[k + 1] == old(name[k])
    {
      var i := nameCount;
      while i > before
        invariant before <= i <= nameCount
        invariant forall k :: 0 <= k < i ==> name[k] == old(name[k])
        invariant forall k :: i <= k < nameCount ==> name[k + 1] == old(name[k])
      {
        name[i] := name[i - 1];
        i := i - 1;
      }
    }

    /** _insert_name_before */
    method InsertBefore(x: string, handle: nat, before: nat)
      requires Valid() && Splits(Entries(), x, before)
      modifies this, name
      ensures Valid() && (name == old(name) || fresh(name))
      ensures Entries() == Inserted(old(Entries()), before, HandleName(x, handle))
    {
      ghost var ns := Entries();
      var e := HandleName(x, handle);
      if nameCount >= nameCap {
        Enlarge(before);
      } else {
        ShiftUp(before);
      }
      name[before] := e;
      nameCount := nameCount + 1;
      assert Entries() == Inserted(ns, before, e) by {
        GapFilled(Entries(), ns, before, e);
      }
      InsertedSorted(ns, before, e);
    }

    /** _insert_name: a new name is added in its place; a name already there changes nothing. */
    method Insert(x: string, handle: nat) returns (inserted: bool)
      requires Valid()
      modifies this, name
      ensures Valid() && (name == old(name) || fresh(name))
      ensures inserted == !Has(old(Entries()), x)
      ensures if inserted then exists k :: Splits(old(Entries()), x, k)
                                           && Entries() == Inserted(old(Entries()), k, HandleName(x, handle))
              else Entries() == old(Entries())
    {
      var found, begin := Bisect(x);
      if found {
        return false;
      }
      SplitsAbsent(Entries(), x, begin);
      InsertBefore(x, handle, begin);
      return true;
    }

    /** The compaction of skynet_handle_retire: drops the handle's names in place, the rest keeping their order. */
    method RemoveHandle(handle: nat)
      requires Valid()
      modifies this`nameCount, name
      ensures Valid() && Entries() == Filter(old(Entries()), NotOf(handle))
    {
      ghost var ns := Entries();
      var j := 0;
      for i := 0 to nameCount
        invariant 0 <= j <= i && nameCount == old(nameCount)
        invariant name[..j] == Filter(ns[..i], NotOf(handle))
        invariant forall k :: i <= k < nameCount ==> name[k] == ns[k]
      {
        assert ns[..i + 1] == ns[..i] + [ns[i]];
        FilterConcat(ns[..i], [ns[i]], NotOf(handle));
        if name[i].handle != handle {
          if i != j {
            name[j] := name[i];
          }
          j := j + 1;
        }
      }
      assert ns[..nameCount] == ns;
      FilterSorted(ns, NotOf(handle));
      nameCount := j;
    }
  }

  lemma NamesBelow(ns: seq<HandleName>, x: string, mid: nat)
    requires Sorted(ns) && mid < |ns| && Compare(ns[mid].name, x) < 0
    ensures forall i :: 0 <= i <= mid ==> Compare(ns[i].name, x) < 0
  {
    forall i | 0 <= i < mid
      ensures Compare(ns[i].name, x) < 0
    {
      CompareTransitive(ns[i].name, ns[mid].name, x);
    }
  }

  lemma NamesAbove(ns: seq<HandleName>, x: string, mid: nat)
    requires Sorted(ns) && mid < |ns| && Compare(x, ns[mid].name) < 0
    ensures forall i :: mid <= i < |ns| ==> Compare(x, ns[i].name) < 0
  {
    forall i | mid < i < |ns|
      ensures Compare(x, ns[i].name) < 0
    {
      CompareTransitive(x, ns[mid].name, ns[i].name);
    }
  }
}
