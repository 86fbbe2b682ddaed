/**
  The hash table of the instrumentors (kedr_coi_hash_table.c): an array of lists, of a
  size that can be changed, where every allocation may fail.
*/
module HashTable {
  import opened Options

  const BITS_DEFAULT: nat := 4
  const BITS_MIN: nat := 1

  /** An element is a node at some address; different elements may have the same key. */
  datatype Elem = Elem(addr: nat, key: int)

  function Size(bits: nat): (n: nat)
    ensures n >= 1
  {
    if bits == 0 then 1 else 2 * Size(bits - 1)
  }

  /** Everything that is in some lists. */
  ghost function All(heads: seq<seq<Elem>>): multiset<Elem> {
    if heads == [] then multiset{} else All(heads[..|heads| - 1]) + multiset(heads[|heads| - 1])
  }

  /** Every element is in the list that its key belongs to. */
  ghost predicate Placed(heads: seq<seq<Elem>>, bits: nat, hash: (int, nat) -> nat) {
    forall i, e :: 0 <= i < |heads| && e in heads[i] ==> hash(e.key, bits) == i
  }

  lemma {:induction false} AllWith(heads: seq<seq<Elem>>, i: nat, list: seq<Elem>)
    requires i < |heads|
    ensures All(heads[i := list]) + multiset(heads[i]) == All(heads) + multiset(list)
  {
    var n := |heads| - 1;
    if i < n {
      AllWith(heads[..n], i, list);
      assert heads[i := list][..n] == heads[..n][i := list];
      Shuffle(All(heads[..n][i := list]), multiset(heads[i]), All(heads[..n]), multiset(list), multiset(heads[n]));
    } else {
      assert heads[i := list][..n] == heads[..n];
    }
  }

  lemma Shuffle(a: multiset<Elem>, b: multiset<Elem>, c: multiset<Elem>, d: multiset<Elem>, e: multiset<Elem>)
    requires a + b == c + d
    ensures a + e + b == c + e + d
  {
    assert a + e + b == (a + b) + e;
  }

  lemma Cancel(a: multiset<Elem>, b: multiset<Elem>, c: multiset<Elem>, d: multiset<Elem>)
    requires a + b == c + (b + d)
    ensures a == c + d
  {
    assert forall x :: (a + b)[x] == a[x] + b[x] && (c + (b + d))[x] == c[x] + b[x] + d[x];
  }

  lemma AllWithFirst(heads: seq<seq<Elem>>, i: nat, e: Elem)
    requires i < |heads|
    ensures All(heads[i := [e] + heads[i]]) == All(heads) + multiset{e}
  {
    AllWith(heads, i, [e] + heads[i]);
    assert multiset([e] + heads[i]) == multiset(heads[i]) + multiset{e};
    Cancel(All(heads[i := [e] + heads[i]]), multiset(heads[i]), All(heads), multiset{e});
  }

  lemma AllWithout(heads: seq<seq<Elem>>, i: nat, list: seq<Elem>, e: Elem)
    requires i < |heads| && multiset(heads[i]) == multiset(list) + multiset{e}
    ensures All(heads) == All(heads[i := list]) + multiset{e}
  {
    AllWith(heads, i, list);
    Cancel(All(heads), multiset(list), All(heads[i := list]), multiset{e});
  }

  lemma AllReplaced(heads: seq<seq<Elem>>, i: nat, list: seq<Elem>, e: Elem, e2: Elem)
    requires i < |heads| && e in heads[i] && multiset(list) == multiset(heads[i]) - multiset{e} + multiset{e2}
    ensures All(heads[i := list]) == All(heads) - multiset{e} + multiset{e2} && |All(heads[i := list])| == |All(heads)|
  {
    AllWith(heads, i, list);
    AllHas(heads, e);
    Exchange(All(heads[i := list]), All(heads), multiset(heads[i]), e, e2);
  }

  lemma Exchange(a: multiset<Elem>, b: multiset<Elem>, m: multiset<Elem>, e: Elem, e2: Elem)
    requires a + m == b + (m - multiset{e} + multiset{e2}) && e in m && e in b
    ensures a == b - multiset{e} + multiset{e2} && |a| == |b|
  {
    var c := b - multiset{e} + multiset{e2};
    forall x ensures a[x] == c[x] {
      assert (a + m)[x] == (b + (m - multiset{e} + multiset{e2}))[x];
    }
    assert a == c;
  }

  lemma PlacedWith(heads: seq<seq<Elem>>, bits: nat, hash: (int, nat) -> nat, i: nat, list: seq<Elem>)
    requires Placed(heads, bits, hash) && i < |heads| && forall e :: e in list ==> hash(e.key, bits) == i
    ensures Placed(heads[i := list], bits, hash)
  {
  }

  lemma {:induction false} AllHas(heads: seq<seq<Elem>>, e: Elem)
    ensures e in All(heads) <==> exists i :: 0 <= i < |heads| && e in heads[i]
  {
    if heads != [] {
      AllHas(heads[..|heads| - 1], e);
      assert forall i :: 0 <= i < |heads| - 1 ==> heads[..|heads| - 1][i] == heads[i];
    }
  }

  lemma {:induction false} AllEmpty(heads: seq<seq<Elem>>)
    requires forall i :: 0 <= i < |heads| ==> heads[i] == []
    ensures All(heads) == multiset{}
  {
    if heads != [] {
      AllEmpty(heads[..|heads| - 1]);
    }
  }

  /** The list without the node `e`. */
  function Without(list: seq<Elem>, e: Elem): (r: seq<Elem>)
    ensures multiset(r) == multiset(list) - multiset{e}
  {
    if list == [] then []
    else
      assert list == [list[0]] + list[1..];
      if list[0] == e then list[1..] else [list[0]] + Without(list[1..], e)
  }

  /** Another node takes the place of `e` in a list. */
  function Replaced(list: seq<Elem>, e: Elem, e2: Elem): (r: seq<Elem>)
    ensures e in list ==> multiset(r) == multiset(list) - multiset{e} + multiset{e2}
  {
    if list == [] then []
    else
      assert list == [list[0]] + list[1..];
      if list[0] == e then [e2] + list[1..] else [list[0]] + Replaced(list[1..], e, e2)
  }

  // ---------------------------------------------------------------- the order of elements with one key

  /** The elements of a list with some key. */
  function WithKey(list: seq<Elem>, key: int): seq<Elem> {
    if list == [] then []
    else if list[0].key == key then [list[0]] + WithKey(list[1..], key)
    else WithKey(list[1..], key)
  }

  /** All elements with some key: they are in one list. */
  function Order(heads: seq<seq<Elem>>, bits: nat, hash: (int, nat) -> nat, key: int): seq<Elem>
    requires hash(key, bits) < |heads|
  {
    WithKey(heads[hash(key, bits)], key)
  }

  function Reversed(list: seq<Elem>): seq<Elem> {
    if list == [] then [] else Reversed(list[1..]) + [list[0]]
  }

  lemma {:induction false} ReversedSnoc(list: seq<Elem>, e: Elem)
    ensures Reversed(list + [e]) == [e] + Reversed(list)
  {
    if list == [] {
      assert [] + [e] == [e];
    } else {
      assert (list + [e])[1..] == list[1..] + [e];
      ReversedSnoc(list[1..], e);
    }
  }

  lemma {:induction false} ReversedTwice(list: seq<Elem>)
    ensures Reversed(Reversed(list)) == list
  {
    if list != [] {
      ReversedTwice(list[1..]);
      ReversedSnoc(Reversed(list[1..]), list[0]);
    }
  }

  lemma {:induction false} WithKeyHas(list: seq<Elem>, key: int, e: Elem)
    ensures e in WithKey(list, key) <==> e in list && e.key == key
  {
    if list != [] {
      WithKeyHas(list[1..], key, e);
    }
  }

  lemma ListCons(x: Elem, rest: seq<Elem>, key: int, e: Elem, e2: Elem)
    ensures WithKey([x] + rest, key) == if x.key == key then [x] + WithKey(rest, key) else WithKey(rest, key)
    ensures Without([x] + rest, e) == if x == e then rest else [x] + Without(rest, e)
    ensures Replaced([x] + rest, e, e2) == if x == e then [e2] + rest else [x] + Replaced(rest, e, e2)
  {
    assert ([x] + rest)[1..] == rest;
  }

  lemma {:induction false} WithKeyWithout(list: seq<Elem>, key: int, e: Elem)
    ensures WithKey(Without(list, e), key) ==
      if key == e.key then Without(WithKey(list, key), e) else WithKey(list, key)
  {
    hide WithKey, Without, Replaced;
    if list == [] {
      ListNil(key, e, e);
    } else {
      var x, rest := list[0], list[1..];
      assert list == [x] + rest;
      WithKeyWithout(rest, key, e);
      ListCons(x, rest, key, e, e);
      ListCons(x, Without(rest, e), key, e, e);
      ListCons(x, WithKey(rest, key), key, e, e);
    }
  }

  lemma ListNil(key: int, e: Elem, e2: Elem)
    ensures WithKey([], key) == Without([], e) == Replaced([], e, e2) == []
  {
  }

  lemma {:induction false} WithKeyReplaced(list: seq<Elem>, key: int, e: Elem, e2: Elem)
    requires e2.key == e.key
    ensures WithKey(Replaced(list, e, e2), key) ==
      if key == e.key then Replaced(WithKey(list, key), e, e2) else WithKey(list, key)
  {
    hide WithKey, Without, Replaced;
    if list == [] {
      ListNil(key, e, e2);
    } else {
      var x, rest := list[0], list[1..];
      assert list == [x] + rest;
      WithKeyReplaced(rest, key, e, e2);
      ListCons(x, rest, key, e, e2);
      ListCons(x, Replaced(rest, e, e2), key, e, e2);
      ListCons(e2, rest, key, e, e2);
      ListCons(x, WithKey(rest, key), key, e, e2);
    }
  }

  /** Lists that are moved element by element: what has been moved is in reverse. */
  ghost predicate Moving(to: seq<seq<Elem>>, bitsTo: nat, from: seq<seq<Elem>>, bits: nat, hash: (int, nat) -> nat,
                         all: seq<seq<Elem>>) {
    && (forall key, b :: hash(key, b) < Size(b)) && |to| == Size(bitsTo) && |from| == |all| == Size(bits)
    && Placed(from, bits, hash)
    && forall key ::
      Reversed(Order(to, bitsTo, hash, key)) + Order(from, bits, hash, key) == Order(all, bits, hash, key)
  }

  lemma MovingFirst(to: seq<seq<Elem>>, bitsTo: nat, from: seq<seq<Elem>>, bits: nat, hash: (int, nat) -> nat,
                    all: seq<seq<Elem>>, i: nat)
    requires Moving(to, bitsTo, from, bits, hash, all) && i < |from| && from[i] != []
    ensures var e := from[i][0];
      var h := hash(e.key, bitsTo);
      h < |to| && Moving(to[h := [e] + to[h]], bitsTo, from[i := from[i][1..]], bits, hash, all)
  {
    var e := from[i][0];
    var h := hash(e.key, bitsTo);
    var to2, from2 := to[h := [e] + to[h]], from[i := from[i][1..]];
    assert Placed(from2, bits, hash);
    forall key
      ensures Reversed(Order(to2, bitsTo, hash, key)) + Order(from2, bits, hash, key) == Order(all, bits, hash, key)
    {
      hide Reversed, Order;
      MovingKey(to, bitsTo, from, bits, hash, i, key);
    }
  }

  lemma MovingKey(to: seq<seq<Elem>>, bitsTo: nat, from: seq<seq<Elem>>, bits: nat, hash: (int, nat) -> nat, i: nat,
      key: int)
    requires (forall k, b :: hash(k, b) < Size(b)) && |to| == Size(bitsTo) && |from| == Size(bits)
    requires Placed(from, bits, hash) && i < |from| && from[i] != []
    ensures var e := from[i][0];
      var h := hash(e.key, bitsTo);
      && h < |to|
      && Reversed(Order(to[h := [e] + to[h]], bitsTo, hash, key)) + Order(from[i := from[i][1..]], bits, hash, key)
        == Reversed(Order(to, bitsTo, hash, key)) + Order(from, bits, hash, key)
  {
    hide Reversed, WithKey;
    var e, rest := from[i][0], from[i][1..];
    var h := hash(e.key, bitsTo);
    assert from[i] == [e] + rest && e in from[i];
    ListCons(e, rest, key, e, e);
    ListCons(e, to[h], key, e, e);
    if key == e.key {
      ReversedCons(e, WithKey(to[h], key), WithKey(rest, key));
    }
  }

  lemma ReversedCons(e: Elem, list: seq<Elem>, rest: seq<Elem>)
    ensures Reversed([e] + list) + rest == Reversed(list) + ([e] + rest)
  {
    assert ([e] + list)[1..] == list;
    assert Reversed([e] + list) == Reversed(list) + [e];
  }

  lemma MovingNone(to: seq<seq<Elem>>, bitsTo: nat, from: seq<seq<Elem>>, bits: nat, hash: (int, nat) -> nat)
    requires (forall key, b :: hash(key, b) < Size(b)) && |to| == Size(bitsTo) && |from| == Size(bits)
    requires Placed(from, bits, hash)
    requires forall j :: 0 <= j < |to| ==> to[j] == []
    ensures Moving(to, bitsTo, from, bits, hash, from)
  {
  }

  /** When all has been moved every order is reversed. */
  lemma MovingAll(to: seq<seq<Elem>>, bitsTo: nat, from: seq<seq<Elem>>, bits: nat, hash: (int, nat) -> nat,
                  all: seq<seq<Elem>>, key: int)
    requires Moving(to, bitsTo, from, bits, hash, all) && forall j :: 0 <= j < |from| ==> from[j] == []
    ensures hash(key, bitsTo) < |to| && hash(key, bits) < |all|
    ensures Order(to, bitsTo, hash, key) == Reversed(Order(all, bits, hash, key))
  {
    hide Reversed;
    var x := Order(to, bitsTo, hash, key);
    ReversedTwice(x);
    assert Order(from, bits, hash, key) == [];
    assert Reversed(x) == Reversed(x) + Order(from, bits, hash, key) == Order(all, bits, hash, key);
  }

  class Table {
    /** Any function of key and size into the range of indices. */
    const hash: (int, nat) -> nat
    var heads: array<seq<Elem>>
    var bits: nat
    var nElems: nat

    ghost predicate Valid()
      reads this, heads
    {
      && (forall key, b :: hash(key, b) < Size(b))
      && bits >= BITS_MIN && heads.Length == Size(bits)
      && Placed(heads[..], bits, hash) && nElems == |Elements()|
    }

    /** The elements with some key, in the order in which they are found. */
    ghost function Listed(key: int): seq<Elem>
      reads this, heads
      requires Valid()
    {
      Order(heads[..], bits, hash, key)
    }

    ghost function Elements(): multiset<Elem>
      reads this, heads
    {
      All(heads[..])
    }

    constructor (hash: (int, nat) -> nat)
      requires forall key, b :: hash(key, b) < Size(b)
      ensures Valid() && fresh(heads) && Elements() == multiset{} && bits == BITS_DEFAULT && this.hash == hash
      ensures forall key :: Listed(key) == []
    {
      this.hash := hash;
      heads := new seq<Elem>[Size(BITS_DEFAULT)](i => []);
      bits := BITS_DEFAULT;
      nElems := 0;
      new;
      AllEmpty(heads[..]);
    }

    method Add(e: Elem)
      requires Valid()
      modifies this`nElems, heads
      ensures Valid() && Elements() == old(Elements()) + multiset{e} && nElems == old(nElems) + 1
      ensures forall key :: Listed(key) == if key == e.key then [e] + old(Listed(key)) else old(Listed(key))
    {
      var h := hash(e.key, bits);
      AllWithFirst(heads[..], h, e);
      PlacedWith(heads[..], bits, hash, h, [e] + heads[h]);
      heads[h] := [e] + heads[h];
      assert heads[..] == old(heads[..])[h := [e] + old(heads[h])];
      nElems := nElems + 1;
    }

    /** The element with this key that was added last, exactly if there is one. */
    method Find(key: int) returns (e: Option<Elem>)
      requires Valid()
      ensures e == if Listed(key) == [] then None else Some(Listed(key)[0])
      ensures e.Some? ==> e.value in Elements() && e.value.key == key
      ensures e.None? ==> forall x :: x in Elements() ==> x.key != key
    {
      var list := heads[hash(key, bits)];
      forall x ensures x in Elements() <==> exists i :: 0 <= i < heads.Length && x in heads[i] {
        AllHas(heads[..], x);
      }
      for i := 0 to |list|
        invariant forall j :: 0 <= j < i ==> list[j].key != key
        invariant WithKey(list[i..], key) == Listed(key)
      {
        assert list[i..][1..] == list[i + 1..];
        if list[i].key == key {
          return Some(list[i]);
        }
      }
      e := None;
    }

    /** An element is in the list of its key and nowhere else. */
    lemma IsIn(e: Elem)
      requires Valid() && e in Elements()
      ensures var h := hash(e.key, bits);
        h < heads.Length && e in multiset(heads[h]) && forall x :: x in heads[h] ==> hash(x.key, bits) == h
    {
      AllHas(heads[..], e);
    }

    method Remove(e: Elem)
      requires Valid() && e in Elements()
      modifies this`nElems, heads
      ensures Valid() && Elements() == old(Elements()) - multiset{e} && nElems == old(nElems) - 1
      ensures forall key :: Listed(key) == if key == e.key then Without(old(Listed(key)), e) else old(Listed(key))
    {
      hide All, Placed, Without;
      var h := hash(e.key, bits);
      IsIn(e);
      var list := Without(heads[h], e);
      AllWithout(heads[..], h, list, e);
      forall x | x in list ensures hash(x.key, bits) == h {
        assert x in multiset(list);
      }
      PlacedWith(heads[..], bits, hash, h, list);
      forall key
        ensures WithKey(list, key) ==
          if key == e.key then Without(WithKey(heads[h], key), e) else WithKey(heads[h], key)
      {
        WithKeyWithout(heads[h], key, e);
      }
      heads[h] := list;
      assert heads[..] == old(heads[..])[h := list];
      nElems := nElems - 1;
    }

    /** Another node takes the place of `e`. */
    method Transmit(e: Elem, addr: nat)
      requires Valid() && e in Elements()
      modifies heads
      ensures Valid() && Elements() == old(Elements()) - multiset{e} + multiset{Elem(addr, e.key)}
      ensures nElems == old(nElems)
      ensures forall key :: key != e.key ==> Listed(key) == old(Listed(key))
      ensures Listed(e.key) == Replaced(old(Listed(e.key)), e, Elem(addr, e.key))
    {
      hide All, Placed, Replaced, Without;
      var e2 := Elem(addr, e.key);
      var h := hash(e.key, bits);
      IsIn(e);
      var list := Replaced(heads[h], e, e2);
      AllReplaced(heads[..], h, list, e, e2);
      forall x | x in list ensures hash(x.key, bits) == h {
        assert x in multiset(list);
      }
      PlacedWith(heads[..], bits, hash, h, list);
      forall key
        ensures WithKey(list, key) ==
          if key == e.key then Replaced(WithKey(heads[h], key), e, e2) else WithKey(heads[h], key)
      {
        WithKeyReplaced(heads[h], key, e, e2);
      }
      heads[h] := list;
      assert heads[..] == old(heads[..])[h := list];
    }

    /** Move all elements to other lists, one by one: each goes in front of those that went before it. */
    method FillFrom(headsNew: array<seq<Elem>>, bitsNew: nat, headsOld: array<seq<Elem>>, bitsOld: nat)
      requires headsNew != headsOld && headsNew.Length == Size(bitsNew) && headsOld.Length == Size(bitsOld)
      requires forall key, b :: hash(key, b) < Size(b)
      requires Placed(headsOld[..], bitsOld, hash) && forall j :: 0 <= j < headsNew.Length ==> headsNew[j] == []
      modifies headsNew, headsOld
      ensures Placed(headsNew[..], bitsNew, hash) && All(headsNew[..]) == old(All(headsOld[..]))
      ensures forall key ::
        Order(headsNew[..], bitsNew, hash, key) == Reversed(old(Order(headsOld[..], bitsOld, hash, key)))
    {
      hide Moving, Order, Reversed, All, Placed;
      EmptyLists(headsNew[..], bitsNew, hash);
      MovingNone(headsNew[..], bitsNew, headsOld[..], bitsOld, hash);
      for i := 0 to headsOld.Length
        invariant Placed(headsNew[..], bitsNew, hash)
        invariant forall j :: 0 <= j < i ==> headsOld[j] == []
        invariant All(headsNew[..]) + All(headsOld[..]) == old(All(headsOld[..]))
        invariant Moving(headsNew[..], bitsNew, headsOld[..], bitsOld, hash, old(headsOld[..]))
      {
        while |headsOld[i]| > 0
          invariant Placed(headsNew[..], bitsNew, hash)
          invariant forall j :: 0 <= j < i ==> headsOld[j] == []
          invariant All(headsNew[..]) + All(headsOld[..]) == old(All(headsOld[..]))
          invariant Moving(headsNew[..], bitsNew, headsOld[..], bitsOld, hash, old(headsOld[..]))
          decreases |headsOld[i]|
        {
          MovingFirst(headsNew[..], bitsNew, headsOld[..], bitsOld, hash, old(headsOld[..]), i);
          MoveFirst(headsNew, bitsNew, headsOld, i);
        }
      }
      AllEmpty(headsOld[..]);
      forall key
        ensures Order(headsNew[..], bitsNew, hash, key) == Reversed(old(Order(headsOld[..], bitsOld, hash, key)))
      {
        MovingAll(headsNew[..], bitsNew, headsOld[..], bitsOld, hash, old(headsOld[..]), key);
      }
    }

    lemma EmptyLists(lists: seq<seq<Elem>>, b: nat, hash: (int, nat) -> nat)
      requires forall j :: 0 <= j < |lists| ==> lists[j] == []
      ensures Placed(lists, b, hash) && All(lists) == multiset{}
    {
      AllEmpty(lists);
    }

    /** Move the first element of a list. */
    method MoveFirst(headsNew: array<seq<Elem>>, bitsNew: nat, headsOld: array<seq<Elem>>, i: nat)
      requires headsNew != headsOld && headsNew.Length == Size(bitsNew) && i < headsOld.Length && headsOld[i] != []
      requires forall key, b :: hash(key, b) < Size(b)
      requires Placed(headsNew[..], bitsNew, hash)
      modifies headsNew, headsOld
      ensures Placed(headsNew[..], bitsNew, hash)
      ensures All(headsNew[..]) + All(headsOld[..]) == old(All(headsNew[..]) + All(headsOld[..]))
      ensures headsOld[..] == old(headsOld[..])[i := old(headsOld[i])[1..]]
      ensures var e := old(headsOld[i])[0];
        var h := hash(e.key, bitsNew);
        headsNew[..] == old(headsNew[..])[h := [e] + old(headsNew[h])]
    {
      var e := headsOld[i][0];
      var h := hash(e.key, bitsNew);
      var rest := headsOld[i][1..];
      assert headsOld[i] == [e] + rest;
      AllWithout(headsOld[..], i, rest, e);
      AllWithFirst(headsNew[..], h, e);
      PlacedWith(headsNew[..], bitsNew, hash, h, [e] + headsNew[h]);
      headsOld[i] := rest;
      headsNew[h] := [e] + headsNew[h];
      assert headsOld[..] == old(headsOld[..])[i := rest];
      assert headsNew[..] == old(headsNew[..])[h := [e] + old(headsNew[h])];
    }

    /** Lists without elements; the allocation may fail. */
    method Alloc(b: nat, succeeds: bool) returns (a: array?<seq<Elem>>)
      ensures a != null <==> succeeds
      ensures a != null ==> fresh(a) && a.Length == Size(b) && forall j :: 0 <= j < a.Length ==> a[j] == []
    {
      a := null;
      if succeeds {
        a := new seq<Elem>[Size(b)](i => []);
      }
    }

    /**
      Change the size, given which of up to three allocations succeed. Whatever happens no
      element is lost: if there is no memory the table stays as it is, but one that was to
      become smaller may end with the least size of all. Elements with one key change their
      order with every move: the one that was added last is found no more.
    */
    method Realloc(bitsNew: nat, succeeds: (bool, bool, bool)) returns (ok: bool)
      requires Valid() && bitsNew >= BITS_MIN
      modifies this`heads, this`bits, heads
      ensures Valid() && (heads == old(heads) || fresh(heads)) && Elements() == old(Elements()) && nElems == old(nElems)
      ensures ok <==> succeeds.0 || (bitsNew < old(bits) && bitsNew != BITS_MIN && succeeds.1 && succeeds.2)
      ensures bits == if ok then bitsNew else if bitsNew < old(bits) && bitsNew != BITS_MIN && succeeds.1
        then BITS_MIN else old(bits)
      ensures var once := succeeds.0 || (bitsNew < old(bits) && bitsNew != BITS_MIN && succeeds.1 && !succeeds.2);
        forall key :: Listed(key) == if once then Reversed(old(Listed(key))) else old(Listed(key))
    {
      var headsNew := Alloc(bitsNew, succeeds.0);
      if headsNew == null {
        if bits > bitsNew && bitsNew != BITS_MIN {
          ok := ReallocSlowpath(bitsNew, succeeds.1, succeeds.2);
          return;
        }
        return false;
      }
      FillFrom(headsNew, bitsNew, heads, bits);
      bits := bitsNew;
      heads := headsNew;
      ok := true;
    }

    /** Narrow to the least size, free the old lists, and only then try the size that is wanted. */
    method ReallocSlowpath(bitsNew: nat, first: bool, second: bool) returns (ok: bool)
      requires Valid() && bitsNew >= BITS_MIN
      modifies this`heads, this`bits, heads
      ensures Valid() && (heads == old(heads) || fresh(heads)) && Elements() == old(Elements()) && nElems == old(nElems)
      ensures ok <==> first && second
      ensures bits == if ok then bitsNew else if first then BITS_MIN else old(bits)
      ensures forall key :: Listed(key) == if first && !second then Reversed(old(Listed(key))) else old(Listed(key))
    {
      hide Reversed;
      var headsMin := Alloc(BITS_MIN, first);
      if headsMin == null {
        return false;
      }
      ghost var before := heads[..];
      FillFrom(headsMin, BITS_MIN, heads, bits);
      var headsNew := Alloc(bitsNew, second);
      if headsNew == null {
        heads := headsMin;
        bits := BITS_MIN;
        return false;
      }
      FillFrom(headsNew, bitsNew, headsMin, BITS_MIN);
      forall key ensures Order(headsNew[..], bitsNew, hash, key) == Order(before, bits, hash, key) {
        ReversedTwice(Order(before, bits, hash, key));
      }
      heads := headsNew;
      bits := bitsNew;
      ok := true;
    }

    /** Take the first element off a list. */
    method DropFirst(head: nat) returns (e: Elem)
      requires head < heads.Length && heads[head] != []
      modifies heads
      ensures old(Elements()) == Elements() + multiset{e}
      ensures heads[head] == old(heads[head])[1..]
      ensures forall j :: 0 <= j < heads.Length && j != head ==> heads[j] == old(heads[j])
    {
      e := heads[head][0];
      var rest := heads[head][1..];
      assert heads[head] == [e] + rest;
      AllWithout(heads[..], head, rest, e);
      heads[head] := rest;
      assert heads[..] == old(heads[..])[head := rest];
    }

    /**
      Free what is left: with a callback each element once; without one nothing is freed,
      and a warning says whether there was something.
    */
    method Destroy(callback: bool) returns (freed: seq<Elem>, warning: bool)
      requires Valid()
      modifies heads
      ensures multiset(freed) == if callback then old(Elements()) else multiset{}
      ensures warning <==> !callback && old(Elements()) != multiset{}
    {
      freed, warning := [], false;
      var head := 0;
      while head < heads.Length && |heads[head]| == 0
        invariant head <= heads.Length && forall j :: 0 <= j < head ==> heads[j] == []
      {
        head := head + 1;
      }
      if head < heads.Length {
        AllHas(heads[..], heads[head][0]);
        if !callback {
          warning := true;
          return;
        }
      } else {
        AllEmpty(heads[..]);
      }
      freed := FreeFrom(head);
    }

    method FreeFrom(head0: nat) returns (freed: seq<Elem>)
      requires head0 <= heads.Length && forall j :: 0 <= j < head0 ==> heads[j] == []
      modifies heads
      ensures multiset(freed) == old(Elements())
    {
      freed := [];
      var head := head0;
      while head < heads.Length
        invariant head <= heads.Length && forall j :: 0 <= j < head ==> heads[j] == []
        invariant multiset(freed) + Elements() == old(Elements())
      {
        while |heads[head]| > 0
          invariant forall j :: 0 <= j < head ==> heads[j] == []
          invariant multiset(freed) + Elements() == old(Elements())
          decreases |heads[head]|
        {
          var e := DropFirst(head);
          freed := freed + [e];
        }
        head := head + 1;
      }
      AllEmpty(heads[..]);
    }
  }

  /** Of two elements with one key the newer is found; once the size has changed it is the older. */
  method FoundAfterMove(hash: (int, nat) -> nat, key: int) returns (before: Option<Elem>, after: Option<Elem>)
    requires forall k, b :: hash(k, b) < Size(b)
    ensures before == Some(Elem(2, key)) && after == Some(Elem(1, key))
  {
    hide Reversed, All;
    var table := new Table(hash);
    table.Add(Elem(1, key));
    table.Add(Elem(2, key));
    before := table.Find(key);
    OrderOfTwo(Elem(1, key), Elem(2, key));
    var ok := table.Realloc(5, (true, true, true));
    after := table.Find(key);
  }

  lemma OrderOfTwo(e1: Elem, e2: Elem)
    ensures [e2] + ([e1] + []) == [e2, e1] && Reversed([e2, e1]) == [e1, e2]
  {
    assert [e2, e1][1..] == [e1] && [e1][1..] == [];
    assert Reversed([e1]) == [e1];
  }
}
