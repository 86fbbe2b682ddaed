/**
  String maps (smap.c): arrays of pairs, sorted by key when they have to be. Updating one
  with another merges the two and leaves the second one empty.
*/
module StringMap {
  import opened Options

  datatype Pair = Pair(key: string, val: string)

  // ---------------------------------------------------------------- the order of keys

  /** Lexicographic order, as of strcmp. */
  predicate Less(a: string, b: string) {
    if b == "" then false
    else if a == "" then true
    else a[0] < b[0] || (a[0] == b[0] && Less(a[1..], b[1..]))
  }

  /** A key is less than another if it is a proper part at its beginning, or smaller where they first differ. */
  lemma {:induction false} LessIs(a: string, b: string)
    ensures Less(a, b) <==> (a < b || exists i: nat :: Differ(a, b, i) && a[i] < b[i])
  {
    if a != "" && b != "" {
      LessIs(a[1..], b[1..]);
      if a[0] != b[0] {
        assert Differ(a, b, 0);
      } else {
        assert a < b <==> a[1..] < b[1..] by {
          assert a == [a[0]] + a[1..] && b == [b[0]] + b[1..];
        }
        forall i: nat | Differ(a[1..], b[1..], i)
          ensures Differ(a, b, i + 1) && a[i + 1] == a[1..][i] && b[i + 1] == b[1..][i]
        {
          assert a[..i + 1] == [a[0]] + a[1..][..i] && b[..i + 1] == [b[0]] + b[1..][..i];
        }
        forall i: nat | Differ(a, b, i)
          ensures i > 0 && Differ(a[1..], b[1..], i - 1) && a[i] == a[1..][i - 1] && b[i] == b[1..][i - 1]
        {
          assert i > 0;
          assert a[1..][..i - 1] == a[..i][1..] && b[1..][..i - 1] == b[..i][1..];
        }
      }
    }
  }

  /** The place where two keys first differ. */
  predicate Differ(a: string, b: string, i: nat) {
    i < |a| && i < |b| && a[..i] == b[..i] && a[i] != b[i]
  }

  lemma {:induction false} LessTransitive(a: string, b: string, c: string)
    requires Less(a, b) && Less(b, c)
    ensures Less(a, c)
  {
    if a != "" && a[0] == b[0] == c[0] {
      LessTransitive(a[1..], b[1..], c[1..]);
    }
  }

  lemma {:induction false} LessTotal(a: string, b: string)
    ensures Less(a, b) || a == b || Less(b, a)
    ensures !(Less(a, b) && (a == b || Less(b, a)))
  {
    if a != "" && b != "" {
      LessTotal(a[1..], b[1..]);
      assert a == [a[0]] + a[1..] && b == [b[0]] + b[1..];
    } else {
      LessIrreflexive(a);
    }
    if a == b {
      LessIrreflexive(a);
    }
  }

  lemma {:induction false} LessIrreflexive(a: string)
    ensures !Less(a, a)
  {
    if a != "" {
      LessIrreflexive(a[1..]);
    }
  }

  lemma Order()
    ensures forall a, b, c :: Less(a, b) && Less(b, c) ==> Less(a, c)
    ensures forall a, b :: Less(a, b) || a == b || Less(b, a)
    ensures forall a, b :: Less(a, b) ==> a != b && !Less(b, a)
  {
    forall a, b, c | Less(a, b) && Less(b, c) ensures Less(a, c) {
      LessTransitive(a, b, c);
    }
    forall a, b ensures (Less(a, b) || a == b || Less(b, a)) && (Less(a, b) ==> a != b && !Less(b, a)) {
      LessTotal(a, b);
    }
  }

  predicate Sorted(s: seq<Pair>) {
    forall i, j :: 0 <= i < j < |s| ==> !Less(s[j].key, s[i].key)
  }

  // ---------------------------------------------------------------- what an update is to make

  predicate HasKey(s: seq<Pair>, key: string) {
    exists i :: 0 <= i < |s| && s[i].key == key
  }

  /** The pairs whose keys are not updated. */
  function Kept(s: seq<Pair>, upd: seq<Pair>): seq<Pair> {
    if s == [] then []
    else
      var p := s[|s| - 1];
      Kept(s[..|s| - 1], upd) + if HasKey(upd, p.key) then [] else [p]
  }

  /** Read as maps, the pairs of `upd` take precedence. */
  lemma {:induction false} KeptHas(s: seq<Pair>, upd: seq<Pair>, p: Pair)
    ensures p in Kept(s, upd) <==> p in s && !HasKey(upd, p.key)
  {
    if s != [] {
      KeptHas(s[..|s| - 1], upd, p);
      assert s == s[..|s| - 1] + [s[|s| - 1]];
    }
  }

  // ---------------------------------------------------------------- maps

  /** The elements from `i` on are still there, those before have been moved elsewhere. */
  ghost predicate Taken(a: array<Option<Pair>>, s: seq<Pair>, i: nat)
    reads a
  {
    a.Length == |s| && forall j :: 0 <= j < |s| ==> a[j] == if j < i then None else Some(s[j])
  }

  class Map {
    var container: array<Option<Pair>>
    var sorted: bool

    ghost predicate Valid()
      reads this, container
    {
      (forall i :: 0 <= i < container.Length ==> container[i].Some?) && (sorted ==> Sorted(Pairs()))
    }

    ghost function Pairs(): (s: seq<Pair>)
      requires forall i :: 0 <= i < container.Length ==> container[i].Some?
      reads this, container
      ensures Taken(container, s, 0)
    {
      seq(container.Length, i requires 0 <= i < container.Length &&
        container[i].Some? reads this, container => container[i].value)
    }

    constructor ()
      ensures Valid() && fresh(container) && Pairs() == []
    {
      container := new Option<Pair>[0](i => None);
      sorted := false;
    }

    /** Sort the array if that has not been done. */
    method Sort()
      requires Valid()
      modifies this`sorted, container
      ensures Valid() && sorted && multiset(Pairs()) == multiset(old(Pairs()))
    {
      hide Sorted;
      if sorted {
        return;
      }
      var s := Values();
      var r := SortedPairs(s);
      assert |r| == |multiset(r)| && |s| == |multiset(s)|;
      Store(r);
      sorted := true;
      assert Pairs() == r;
    }

    /**
      Put the pairs of `upd` in the place of those with the same keys. The result is sorted
      and consists of the old pairs whose keys are not updated and of all new ones; `upd`
      is empty. Every pair is in the result or has been freed, once. If there is no memory
      the pairs stay where they are.
    */
    method Update(upd: Map, memory: bool) returns (ok: bool, ghost freed: seq<Pair>)
      requires Valid() && upd.Valid() && this != upd && container != upd.container
      modifies this, container, upd, upd.container
      ensures Valid() && upd.Valid() && Sorted(Pairs())
      ensures ok <==> memory || old(Pairs()) == [] || old(upd.Pairs()) == []
      ensures ok ==> upd.Pairs() == []
      ensures ok ==> multiset(Pairs()) == multiset(Kept(old(Pairs()), old(upd.Pairs()))) + multiset(old(upd.Pairs()))
      ensures ok ==> multiset(Pairs()) + multiset(freed) == multiset(old(Pairs())) + multiset(old(upd.Pairs()))
      ensures !ok ==> multiset(Pairs()) == multiset(old(Pairs())) && multiset(upd.Pairs()) == multiset(old(upd.Pairs()))
    {
      hide Sorted, Kept;
      Sort();
      upd.Sort();
      KeptPermuted(old(Pairs()), old(upd.Pairs()), Pairs(), upd.Pairs());
      SameLength(old(Pairs()), Pairs());
      SameLength(old(upd.Pairs()), upd.Pairs());
      ok, freed := UpdateSorted(upd, memory);
    }

    method UpdateSorted(upd: Map, memory: bool) returns (ok: bool, ghost freed: seq<Pair>)
      requires Valid() && upd.Valid() && this != upd && container != upd.container && sorted && upd.sorted
      modifies this`container, container, upd`container, upd.container
      ensures Valid() && upd.Valid()
      ensures ok <==> memory || old(Pairs()) == [] || old(upd.Pairs()) == []
      ensures ok ==> upd.Pairs() == []
      ensures ok ==> multiset(Pairs()) == multiset(Kept(old(Pairs()), old(upd.Pairs()))) + multiset(old(upd.Pairs()))
      ensures ok ==> multiset(Pairs()) + multiset(freed) == multiset(old(Pairs())) + multiset(old(upd.Pairs()))
      ensures !ok ==> Pairs() == old(Pairs()) && upd.Pairs() == old(upd.Pairs())
    {
      hide Sorted, Kept;
      freed := [];
      ghost var s, u := Pairs(), upd.Pairs();
      if upd.container.Length == 0 {
        KeptAll(s, u);
        return true, freed;
      }
      if container.Length == 0 {
        KeptNone(s, u);
        container, upd.container := upd.container, container;
        assert Pairs() == u && upd.Pairs() == s;
        return true, freed;
      }
      if !memory {
        return false, freed;
      }
      freed := MergeAll(upd);
      ok := true;
    }

    method MergeAll(upd: Map) returns (ghost freed: seq<Pair>)
      requires Valid() && upd.Valid() && this != upd && container != upd.container && sorted && upd.sorted
      requires upd.container.Length > 0
      modifies this`container, container, upd`container, upd.container
      ensures Valid() && upd.Valid() && upd.Pairs() == []
      ensures multiset(Pairs()) == multiset(Kept(old(Pairs()), old(upd.Pairs()))) + multiset(old(upd.Pairs()))
      ensures multiset(Pairs()) + multiset(freed) == multiset(old(Pairs())) + multiset(old(upd.Pairs()))
    {
      hide Sorted, Kept, Apart, Merged;
      ghost var s, u := Pairs(), upd.Pairs();
      var m := new Merge(container, upd.container, s, u);
      m.Run();
      freed := m.freed;
      MergedAll(s, u, m.i, m.k, m.res, m.freed);
      var res := m.res;
      container := new Option<Pair>[|res|](j requires 0 <= j < |res| => Some(res[j]));
      upd.container := new Option<Pair>[0](j => None);
      NoneSorted();
      assert Pairs() == res && upd.Pairs() == [];
    }

    method Values() returns (s: seq<Pair>)
      requires forall i :: 0 <= i < container.Length ==> container[i].Some?
      ensures s == Pairs()
    {
      s := [];
      for i := 0 to container.Length
        invariant s == Pairs()[..i]
      {
        s := s + [container[i].value];
      }
    }

    method Store(r: seq<Pair>)
      requires |r| == container.Length
      modifies container
      ensures Taken(container, r, 0)
    {
      for i := 0 to container.Length
        invariant forall j :: 0 <= j < i ==> container[j] == Some(r[j])
      {
        container[i] := Some(r[i]);
      }
    }
  }

  lemma SameLength(a: seq<Pair>, b: seq<Pair>)
    requires multiset(a) == multiset(b)
    ensures |a| == |b|
  {
    assert |a| == |multiset(a)| && |b| == |multiset(b)|;
  }

  lemma {:induction false} KeptAll(s: seq<Pair>, u: seq<Pair>)
    requires u == []
    ensures Kept(s, u) == s
  {
    hide HasKey;
    if s != [] {
      var n := |s| - 1;
      KeptAll(s[..n], u);
      NoKey(u, s[n].key);
      assert s == s[..n] + [s[n]];
    }
  }

  lemma NoKey(u: seq<Pair>, key: string)
    requires u == []
    ensures !HasKey(u, key)
  {
  }

  lemma KeptNone(s: seq<Pair>, u: seq<Pair>)
    requires s == []
    ensures Kept(s, u) == []
  {
  }

  /** A sort function, as of the C library; any that sorts will do. */
  method SortedPairs(s: seq<Pair>) returns (r: seq<Pair>)
    ensures Sorted(r) && multiset(r) == multiset(s)
  {
    hide Sorted;
    assert Sorted([]) by {
      NoneSorted();
    }
    r := [];
    for i := 0 to |s|
      invariant Sorted(r) && multiset(r) == multiset(s[..i])
    {
      r := Insert(r, s[i]);
      assert s[..i + 1] == s[..i] + [s[i]];
    }
    assert s[..|s|] == s;
  }

  lemma NoneSorted()
    ensures Sorted([])
  {
  }

  method Insert(s: seq<Pair>, p: Pair) returns (r: seq<Pair>)
    requires Sorted(s)
    ensures Sorted(r) && multiset(r) == multiset(s) + multiset{p}
  {
    hide Less, Sorted;
    var k := |s|;
    while k > 0 && Less(p.key, s[k - 1].key)
      invariant 0 <= k <= |s| && forall j :: k <= j < |s| ==> Less(p.key, s[j].key)
    {
      k := k - 1;
    }
    InsertedSame(s, k, p);
    InsertedSorted(s, k, p);
    r := s[..k] + [p] + s[k..];
  }

  lemma InsertedSame(s: seq<Pair>, k: nat, p: Pair)
    requires k <= |s|
    ensures multiset(s[..k] + [p] + s[k..]) == multiset(s) + multiset{p}
  {
    assert s == s[..k] + s[k..];
  }

  lemma InsertedSorted(s: seq<Pair>, k: nat, p: Pair)
    requires Sorted(s) && k <= |s| && (k > 0 ==> !Less(p.key, s[k - 1].key))
    requires forall j :: k <= j < |s| ==> Less(p.key, s[j].key)
    ensures Sorted(s[..k] + [p] + s[k..])
  {
    hide Less;
    var r := s[..k] + [p] + s[k..];
    forall j | k <= j < |s| ensures !Less(s[j].key, p.key) {
      LessTotal(p.key, s[j].key);
    }
    forall i | 0 <= i < k ensures !Less(p.key, s[i].key) {
      NotBefore(s, k, p, i);
    }
    forall i, j | 0 <= i < j < |r| ensures !Less(r[j].key, r[i].key) {
      if i < k {
        assert r[i] == s[i];
        assert j < k ==> r[j] == s[j];
        assert j > k ==> r[j] == s[j - 1];
      } else if i == k {
        assert r[j] == s[j - 1];
      } else {
        assert r[i] == s[i - 1] && r[j] == s[j - 1];
      }
    }
  }

  lemma NotBefore(s: seq<Pair>, k: nat, p: Pair, i: nat)
    requires Sorted(s) && i < k <= |s| && !Less(p.key, s[k - 1].key)
    ensures !Less(p.key, s[i].key)
  {
    hide Less;
    LessTotal(s[i].key, s[k - 1].key);
    if Less(p.key, s[i].key) && Less(s[i].key, s[k - 1].key) {
      LessTransitive(p.key, s[i].key, s[k - 1].key);
    }
  }

  // ---------------------------------------------------------------- the merge

  /** How often a pair is kept. */
  lemma {:induction false} KeptCount(s: seq<Pair>, upd: seq<Pair>, p: Pair)
    ensures multiset(Kept(s, upd))[p] == if HasKey(upd, p.key) then 0 else multiset(s)[p]
  {
    hide HasKey;
    if s != [] {
      KeptCount(s[..|s| - 1], upd, p);
      assert s == s[..|s| - 1] + [s[|s| - 1]];
    }
  }

  lemma KeptPermuted(s1: seq<Pair>, u1: seq<Pair>, s2: seq<Pair>, u2: seq<Pair>)
    requires multiset(s1) == multiset(s2) && multiset(u1) == multiset(u2)
    ensures multiset(Kept(s1, u1)) == multiset(Kept(s2, u2))
  {
    forall p ensures multiset(Kept(s1, u1))[p] == multiset(Kept(s2, u2))[p] {
      KeptCount(s1, u1, p);
      KeptCount(s2, u2, p);
      SameKeys(u1, u2, p.key);
      SameKeys(u2, u1, p.key);
    }
  }

  lemma SameKeys(u1: seq<Pair>, u2: seq<Pair>, key: string)
    requires multiset(u1) == multiset(u2)
    ensures HasKey(u1, key) ==> HasKey(u2, key)
  {
    forall i | 0 <= i < |u1| && u1[i].key == key ensures HasKey(u2, key) {
      assert u1[i] in multiset(u1);
      assert u1[i] in u2;
    }
  }

  /** `i` and `k` elements have been merged into `res`; what is left does not belong before its end. */
  ghost predicate Merged(s: seq<Pair>, u: seq<Pair>, i: nat, k: nat, res: seq<Pair>, freed: seq<Pair>) {
    && i <= |s| && k <= |u| && Sorted(s) && Sorted(u) && Sorted(res)
    && Counted(s[..i], u[..k], u, res, freed)
    && Behind(res, s[i..]) && Behind(res, u[k..])
  }

  /** What has been taken is in the result or freed, and it is freed if its key is updated. */
  ghost predicate Counted(s: seq<Pair>, u: seq<Pair>, all: seq<Pair>, res: seq<Pair>, freed: seq<Pair>) {
    && multiset(res) == multiset(Kept(s, all)) + multiset(u)
    && multiset(s) + multiset(u) == multiset(res) + multiset(freed)
  }

  ghost predicate Behind(res: seq<Pair>, rest: seq<Pair>) {
    forall r, j :: 0 <= r < |res| && 0 <= j < |rest| ==> !Less(rest[j].key, res[r].key)
  }

  /** What is left has other keys than what has been taken from `u`. */
  ghost predicate Apart(s: seq<Pair>, u: seq<Pair>, i: nat, k: nat) {
    && (forall a, j :: 0 <= a < k <= |u| && i <= j < |s| ==> Less(u[a].key, s[j].key))
    && (forall a, j :: 0 <= a < k <= j < |u| ==> Less(u[a].key, u[j].key))
  }

  lemma SortedSnoc(res: seq<Pair>, rest: seq<Pair>, other: seq<Pair>)
    requires Sorted(res) && Sorted(rest) && rest != [] && Behind(res, rest) && Behind(res, other)
    requires forall j :: 0 <= j < |other| ==> !Less(other[j].key, rest[0].key)
    ensures Sorted(res + [rest[0]]) && Behind(res + [rest[0]], rest[1..]) && Behind(res + [rest[0]], other)
  {
    hide Less;
    var r := res + [rest[0]];
    assert forall i :: 0 <= i < |r| ==> r[i] == if i < |res| then res[i] else rest[0];
    assert forall j :: 0 <= j < |rest| - 1 ==> rest[1..][j] == rest[j + 1];
  }

  lemma SortedRest(s: seq<Pair>, i: nat)
    requires Sorted(s) && i < |s|
    ensures Sorted(s[i..]) && s[i..][0] == s[i] && s[i..][1..] == s[i + 1..] && s[..i + 1] == s[..i] + [s[i]]
  {
  }

  lemma OneMore(a: multiset<Pair>, b: multiset<Pair>, c: multiset<Pair>, d: multiset<Pair>, p: multiset<Pair>)
    requires a + b == c + d
    ensures (a + p) + b == (c + p) + d && (a + p) + b == c + (d + p) && a + (b + p) == (c + p) + d
  {
    assert (a + p) + b == (a + b) + p && a + (b + p) == (a + b) + p;
    assert (c + p) + d == (c + d) + p && c + (d + p) == (c + d) + p;
  }

  lemma CountOld(s: seq<Pair>, u: seq<Pair>, all: seq<Pair>, res: seq<Pair>, freed: seq<Pair>, p: Pair)
    requires Counted(s, u, all, res, freed)
    ensures HasKey(all, p.key) ==> Counted(s + [p], u, all, res, freed + [p])
    ensures !HasKey(all, p.key) ==> Counted(s + [p], u, all, res + [p], freed)
  {
    hide HasKey;
    assert (s + [p])[..|s|] == s;
    OneMore(multiset(s), multiset(u), multiset(res), multiset(freed), multiset{p});
    OneMore(multiset(Kept(s, all)), multiset(u), multiset(res), multiset{}, multiset{p});
    assert multiset(Kept(s, all) + [p]) == multiset(Kept(s, all)) + multiset{p};
  }

  lemma CountNew(s: seq<Pair>, u: seq<Pair>, all: seq<Pair>, res: seq<Pair>, freed: seq<Pair>, p: Pair)
    requires Counted(s, u, all, res, freed)
    ensures Counted(s, u + [p], all, res + [p], freed)
  {
    hide HasKey, Kept;
    OneMore(multiset(s), multiset(u), multiset(res), multiset(freed), multiset{p});
    OneMore(multiset(Kept(s, all)), multiset(u), multiset(res), multiset{}, multiset{p});
    assert multiset(u + [p]) == multiset(u) + multiset{p} && multiset(res + [p]) == multiset(res) + multiset{p};
  }

  lemma TakeOld(s: seq<Pair>, u: seq<Pair>, i: nat, k: nat, res: seq<Pair>, freed: seq<Pair>)
    requires Merged(s, u, i, k, res, freed) && Apart(s, u, i, k) && i < |s| && (k < |u| ==> Less(s[i].key, u[k].key))
    ensures Merged(s, u, i + 1, k, res + [s[i]], freed) && Apart(s, u, i + 1, k)
  {
    hide Less, Counted, Behind;
    Order();
    assert !HasKey(u, s[i].key);
    SortedRest(s, i);
    CountOld(s[..i], u[..k], u, res, freed, s[i]);
    SortedSnoc(res, s[i..], u[k..]);
  }

  lemma DropOld(s: seq<Pair>, u: seq<Pair>, i: nat, k: nat, res: seq<Pair>, freed: seq<Pair>)
    requires Merged(s, u, i, k, res, freed) && Apart(s, u, i, k) && i < |s| && k < |u| && s[i].key == u[k].key
    ensures Merged(s, u, i + 1, k, res, freed + [s[i]]) && Apart(s, u, i + 1, k)
  {
    hide Less, Counted;
    assert HasKey(u, s[i].key);
    SortedRest(s, i);
    CountOld(s[..i], u[..k], u, res, freed, s[i]);
    var rest := s[i..];
    assert forall j :: 0 <= j < |rest| - 1 ==> rest[1..][j] == rest[j + 1];
  }

  lemma TakeNew(s: seq<Pair>, u: seq<Pair>, i: nat, k: nat, res: seq<Pair>, freed: seq<Pair>)
    requires Merged(s, u, i, k, res, freed) && k < |u| && forall j :: i <= j < |s| ==> !Less(s[j].key, u[k].key)
    ensures Merged(s, u, i, k + 1, res + [u[k]], freed)
  {
    hide Less, Counted, Behind;
    SortedRest(u, k);
    CountNew(s[..i], u[..k], u, res, freed, u[k]);
    SortedSnoc(res, u[k..], s[i..]);
  }

  /** Two arrays that are being merged: what has been taken is no longer there. */
  class Merge {
    const a: array<Option<Pair>>
    const b: array<Option<Pair>>
    var i: nat
    var k: nat
    var res: seq<Pair>
    ghost const s: seq<Pair>
    ghost const u: seq<Pair>
    ghost var freed: seq<Pair>

    constructor (a: array<Option<Pair>>, b: array<Option<Pair>>, ghost s: seq<Pair>, ghost u: seq<Pair>)
      requires a != b && Taken(a, s, 0) && Taken(b, u, 0) && Sorted(s) && Sorted(u)
      ensures this.a == a && this.b == b && this.s == s && this.u == u && i == 0 && k == 0 && Valid()
      ensures Apart(s, u, 0, 0)
    {
      this.a, this.b, this.s, this.u := a, b, s, u;
      i, k, res, freed := 0, 0, [], [];
      new;
      assert s[..0] == [] && u[..0] == [];
    }

    ghost predicate Valid()
      reads this, a, b
    {
      a != b && Taken(a, s, i) && Taken(b, u, k) && Merged(s, u, i, k, res, freed)
    }

    /** Move the next pair of the old map to the result. */
    method MoveOld()
      requires Valid() && Apart(s, u, i, k) && i < |s| && (k < |u| ==> Less(s[i].key, u[k].key))
      modifies this`i, this`res, a
      ensures Valid() && Apart(s, u, i, k) && i == old(i) + 1
    {
      hide Merged, Apart;
      TakeOld(s, u, i, k, res, freed);
      res := res + [a[i].value];
      a[i] := None;
      i := i + 1;
    }

    /** Free the next pair of the old map. */
    method FreeOld()
      requires Valid() && Apart(s, u, i, k) && i < |s| && k < |u| && s[i].key == u[k].key
      modifies this`i, this`freed, a
      ensures Valid() && Apart(s, u, i, k) && i == old(i) + 1
    {
      hide Merged, Apart;
      DropOld(s, u, i, k, res, freed);
      freed := freed + [s[i]];
      a[i] := None;
      i := i + 1;
    }

    /** Move the next pair of the update to the result. */
    method MoveNew()
      requires Valid() && k < |u| && forall j :: i <= j < |s| ==> !Less(s[j].key, u[k].key)
      modifies this`k, this`res, b
      ensures Valid() && k == old(k) + 1
    {
      hide Merged;
      TakeNew(s, u, i, k, res, freed);
      res := res + [b[k].value];
      b[k] := None;
      k := k + 1;
    }

    /** Everything up to the pairs that have the next key of the update, and these. */
    method NextKey()
      requires Valid() && Apart(s, u, i, k) && k < |u|
      modifies this`i, this`k, this`res, this`freed, a, b
      ensures Valid() && Apart(s, u, i, k) && k > old(k)
    {
      hide Merged, Less;
      Order();
      while i < a.Length && Less(a[i].value.key, b[k].value.key)
        invariant Valid() && Apart(s, u, i, k) && k == old(k)
        decreases |s| - i
      {
        MoveOld();
      }
      while i < a.Length && a[i].value.key == b[k].value.key
        invariant Valid() && Apart(s, u, i, k) && k == old(k)
        invariant i < |s| ==> !Less(s[i].key, u[k].key)
        decreases |s| - i
      {
        FreeOld();
        Bounds();
      }
      MoveGroup();
    }

    /** All pairs of the update with the same key. */
    method MoveGroup()
      requires Valid() && Apart(s, u, i, k) && k < |u| && (i < |s| ==> Less(u[k].key, s[i].key))
      modifies this`k, this`res, b
      ensures Valid() && Apart(s, u, i, k) && k > old(k)
    {
      hide Merged, Less;
      Order();
      Bounds();
      var key := b[k].value.key;
      ghost var k0 := k;
      while k < b.Length && b[k].value.key == key
        invariant Valid() && k0 <= k <= |u| && (k == k0 ==> u[k].key == key)
        invariant forall c :: k0 <= c < k ==> u[c].key == key
        decreases |u| - k
      {
        MoveNew();
        Bounds();
      }
      ApartGroup(s, u, i, k0, k);
    }

    /** Until nothing is left. */
    method Run()
      requires Valid() && Apart(s, u, i, k) && k < |u|
      modifies this`i, this`k, this`res, this`freed, a, b
      ensures Valid() && i == |s| && k == |u|
    {
      hide Merged, Less;
      Bounds();
      while k < b.Length
        invariant Valid() && Apart(s, u, i, k) && k <= |u| && (k == |u| ==> i == |s|)
        decreases |u| - k
      {
        NextKey();
        Bounds();
        if k == b.Length {
          while i < a.Length
            invariant Valid() && Apart(s, u, i, k) && k == |u| && i <= |s|
            decreases |s| - i
          {
            MoveOld();
            Bounds();
          }
        } else if i == a.Length {
          while k < b.Length
            invariant Valid() && k <= |u| && i == |s|
            decreases |u| - k
          {
            MoveNew();
            Bounds();
          }
        }
      }
    }

    lemma Bounds()
      requires Valid()
      ensures i <= |s| && k <= |u| && Sorted(s) && Sorted(u)
    {
    }
  }

  lemma ApartGroup(s: seq<Pair>, u: seq<Pair>, i: nat, k0: nat, k: nat)
    requires Sorted(s) && Sorted(u) && Apart(s, u, i, k0) && k0 < k <= |u| && (i < |s| ==> Less(u[k0].key, s[i].key))
    requires (forall c :: k0 <= c < k ==> u[c].key == u[k0].key) && (k < |u| ==> u[k].key != u[k0].key)
    ensures Apart(s, u, i, k)
  {
    hide Less;
    Order();
  }

  lemma MergedAll(s: seq<Pair>, u: seq<Pair>, i: nat, k: nat, res: seq<Pair>, freed: seq<Pair>)
    requires Merged(s, u, i, k, res, freed) && i == |s| && k == |u|
    ensures Sorted(res) && multiset(res) == multiset(Kept(s, u)) + multiset(u)
    ensures multiset(res) + multiset(freed) == multiset(s) + multiset(u)
  {
    hide Sorted, Kept, Behind;
    assert s[..i] == s && u[..k] == u;
  }
}
