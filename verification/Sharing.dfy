/**
  Several instrumentor objects over one memory: a call of one of them does not disturb
  the others.
*/
module Sharing {
  import opened Options
  import opened Layers
  import opened Engine
  import opened Operations
  import opened Dispatch
  import opened Runs
  import opened Systems
  import opened Memory
  import opened Instrumentors

  /** What other instrumentors own, and what it holds, is the same. */
  ghost predicate LeavesOthers(c: Config, k: Kernel, k': Kernel) {
    && Others(c, k') == Others(c, k)
    && forall a :: a in Others(c, k) ==> (a in k.mem <==> a in k'.mem) && (a in k.mem ==> k'.mem[a] == k.mem[a])
  }

  lemma ConservedLeaves(c: Config, k: Kernel, s: Inst, k': Kernel, s': Inst)
    requires Inv(c, k, s) && Inv(c, k', s') && Conserved(c, k, s, k', s')
    ensures LeavesOthers(c, k, k')
  {
    hide LiveBut, Conserved, Others, Core;
    CoreTables(c, k, s);
    CoreTables(c, k', s');
    OthersOf(c, k);
    assert Others(c, k') == Others(c, k) by { ConservedOthers(c, k, s, k', s'); }
    forall a | a in Others(c, k) ensures (a in k.mem <==> a in k'.mem) && (a in k.mem ==> k'.mem[a] == k.mem[a]) {
      ConservedElsewhere(c, k, s, k', s', a);
    }
  }

  lemma OthersOf(c: Config, k: Kernel)
    ensures forall a :: a in Others(c, k) <==> a in k.owner && k.owner[a] != c.id
    ensures forall a :: a in Others(c, k) ==> Others(c, k)[a] == k.owner[a]
  {
  }

  lemma ConservedOthers(c: Config, k: Kernel, s: Inst, k': Kernel, s': Inst)
    requires Conserved(c, k, s, k', s')
    ensures Others(c, k') == Others(c, k)
  {
  }

  /** Every call on a field leaves other instrumentors alone, whatever its outcome. */
  lemma ActLeaves(c: Config, k: Kernel, s: Inst, home: Home, act: Act, x: Field, ops: Addr)
    requires Inv(c, k, s) && ActOk(c, k, s, home, act, x, ops)
    ensures LeavesOthers(c, k, Act1(c, k, s, home, act, x, ops).k)
  {
    hide Inv, ActOk, Act1, LeavesOthers, Conserved;
    ActKeepsInv(c, k, s, home, act, x, ops);
    var r := Act1(c, k, s, home, act, x, ops);
    ConservedLeaves(c, k, s, r.k, r.s);
  }

  /** So does forgetting a direct object without restoring it, which conserves nothing else. */
  lemma DirectLeaves(c: Config, k: Kernel, s: Inst, o: Obj, norestore: bool)
    requires Inv(c, k, s)
    ensures LeavesOthers(c, k, ForgetDirect(c, k, s, o, norestore).k)
  {
    hide LiveBut, Conserved, Render, Pristine, WatchesOk;
    if o in s.objects {
      DirectNorestore(c, k, s, o);
      ForgetOk(c, k, s, o, None);
      var r := ForgetDirect(c, k, s, o, false);
      ConservedLeaves(c, k, s, r.k, r.s);
      CoreTables(c, k, s);
    }
  }

  lemma OtherStays(c: Config, k: Kernel, s: Inst, k': Kernel, c2: Config)
    requires Inv(c2, k, s) && LeavesOthers(c, k, k') && c.id != c2.id
    ensures Inv(c2, k', s)
  {
    hide Core, LiveBut, Others;
    CoreTables(c2, k, s);
    OthersOf(c, k);
    OthersOf(c, k');
    FrameInv(c2, k, s, k');
  }

  /** What makes an instrumentor valid, for memory as it is or as it was. */
  ghost predicate ValidWith(b: Instrumentor, k: Kernel)
    reads b
  {
    Inv(b.c, k, b.S()) && b.Linked() && CountsExact(b.idatas, b.objects, b.foreign, {}, {})
  }

  lemma ValidNow(b: Instrumentor)
    ensures b.Valid() <==> ValidWith(b, b.m.K())
  {
    hide Core, LiveBut, CountsExact, AbsForeign, AbsIdatas, SameWatches, FieldTable;
  }

  /** An instrumentor that is not called stays valid when another one on the same memory is called. */
  lemma OtherValid(b: Instrumentor, c: Config, k: Kernel)
    requires ValidWith(b, k) && LeavesOthers(c, k, b.m.K()) && c.id != b.c.id
    ensures b.Valid()
  {
    hide Core, LiveBut, CountsExact, AbsForeign, AbsIdatas, SameWatches, FieldTable, LeavesOthers;
    OtherStays(c, k, b.S(), b.m.K(), b.c);
    ValidNow(b);
  }

  /** A call with another instrumentor beside: both are valid afterwards. */
  method WatchBeside(a: Instrumentor, b: Instrumentor, o: Obj, ops: Addr, e: Env) returns (status: Status, ops': Addr)
    requires a.m == b.m && a.c.id != b.c.id && a.Valid() && b.Valid()
    requires OpsOk(a.c, a.m.K(), ops) && EnvOk(a.m.K(), e)
    modifies a`table, a`idatas, a`saved, a`objects, a.m
    ensures a.Valid() && b.Valid() && b.S() == old(b.S())
  {
    hide Core, LiveBut, CountsExact, AbsForeign, AbsIdatas, SameWatches, FieldTable, LeavesOthers, OpsOk, EnvOk,
      Watch, Conserved;
    ghost var k, s := a.m.K(), a.S();
    ValidNow(b);
    WatchOk(a.c, k, s, o, ops, e);
    status, ops' := a.WatchObject(o, ops, e);
    ConservedLeaves(a.c, k, s, a.m.K(), a.S());
    OtherValid(b, a.c, k);
  }

  /** Forgetting without restoring. */
  method ForgetDirectBeside(a: Instrumentor, b: Instrumentor, o: Obj, norestore: bool) returns (status: Status)
    requires a.m == b.m && a.c.id != b.c.id && a.Valid() && b.Valid()
    modifies a`table, a`idatas, a`saved, a`objects, a.m
    ensures a.Valid() && b.Valid() && b.S() == old(b.S())
  {
    hide Core, LiveBut, CountsExact, AbsForeign, AbsIdatas, SameWatches, FieldTable, LeavesOthers, ForgetDirect;
    ghost var k := a.m.K();
    ValidNow(b);
    DirectLeaves(a.c, k, a.S(), o, norestore);
    status := a.ForgetObjectDirect(o, norestore);
    OtherValid(b, a.c, k);
  }
}
