/**
  Short runs of one instrumentor that do what one would not expect of them, each from the
  start: a struct 1 of one function, which is replaced in place, and a struct 2.
*/
module Examples {
  import opened Options
  import opened Layers
  import opened Engine
  import opened Operations
  import opened Dispatch
  import opened Runs

  const EXAMPLE := Config(0, 1, [Replacement(0, 98, ReplaceAll)], map[5 := [Replacement(0, 99, ReplaceAll)]])
  const MEMORY := Kernel(map[1 := [10], 2 := [20]], map[])
  const NOTHING := Inst(map[], map[], map[], map[5 := []])
  const WORKS := Env(true, true, 3, true, true)
  const FAILS := Env(true, false, NULL, false, false)

  /** An object is watched with struct 1, in place. */
  const WATCHED := Kernel(map[1 := [98], 2 := [20]], map[1 := 0])

  function Watching(o: Obj): Inst {
    Inst(map[1 := 1], map[1 := Idata(true, 1, [10], [])], map[o := 1], map[5 := []])
  }

  lemma ExampleConfig()
    ensures WfConfig(EXAMPLE) && forall op :: IsReplacement(EXAMPLE, op) ==> op in {98, 99}
  {
    var n, r := Replacement(0, 98, ReplaceAll), Replacement(0, 99, ReplaceAll);
    assert EXAMPLE.foreign[5] == [r] && EXAMPLE.normal == [n];
    assert DistinctEntries([n], 1) && DistinctEntries([r], 1) && Apart([n], [r]);
    forall op | IsReplacement(EXAMPLE, op) ensures op in {98, 99} {
      assert IsEntry([n], op) || IsEntry([r], op);
    }
  }

  lemma ExampleOk()
    ensures Inv(EXAMPLE, MEMORY, NOTHING)
    ensures EnvOk(MEMORY, WORKS) && EnvOk(MEMORY, FAILS) && EnvOk(WATCHED, FAILS)
    ensures OpsOk(EXAMPLE, MEMORY, NULL) && OpsOk(EXAMPLE, MEMORY, 1) && OpsOk(EXAMPLE, MEMORY, 2)
    ensures OpsOk(EXAMPLE, WATCHED, 2)
  {
    hide Inv, WfConfig, IsReplacement;
    ExampleConfig();
    StartInv(EXAMPLE, MEMORY);
    assert EXAMPLE.foreign.Keys == {5};
    var start := Inst(map[], map[], map[], map f | f in EXAMPLE.foreign :: []);
    assert start.fw == NOTHING.fw;
    assert start == NOTHING;
  }

  lemma WatchOne(o: Obj)
    ensures Inv(EXAMPLE, MEMORY, NOTHING) && OpsOk(EXAMPLE, MEMORY, 1) && EnvOk(MEMORY, WORKS)
    ensures Watch(EXAMPLE, MEMORY, NOTHING, o, 1, WORKS) == Out(WATCHED, Watching(o), 1, Done)
    ensures Inv(EXAMPLE, WATCHED, Watching(o))
  {
    hide Inv, OpsOk, EnvOk;
    ExampleOk();
    WatchOk(EXAMPLE, MEMORY, NOTHING, o, 1, WORKS);
    var n := Replacement(0, 98, ReplaceAll);
    assert Stack(EXAMPLE, []) == [[n]];
    assert [[n]][..0] == [];
    assert Slot([[n]], 0, 10) == 98;
    assert Render(EXAMPLE, [10], []) == [98];
    assert MEMORY.mem[1 := [98]] == WATCHED.mem;
  }

  /** The kernel assigns struct 2 to the field; watching again fails and brings back struct 1. */
  lemma FailedUpdateExample()
    ensures Inv(EXAMPLE, WATCHED, Watching(0)) && OpsOk(EXAMPLE, WATCHED, 2) && EnvOk(WATCHED, FAILS)
    ensures var r := Watch(EXAMPLE, WATCHED, Watching(0), 0, 2, FAILS);
      r.status == NoMem && r.ops == 1 && Real(Watching(0), 2) == 2
  {
    hide Inv, OpsOk, EnvOk;
    ExampleOk();
    WatchOne(0);
    WatchAgain(EXAMPLE, WATCHED, Watching(0), 0, 2, FAILS);
  }

  /** The same assignment; a bind by a factory that does not know the object brings back struct 1. */
  lemma BindOverwritesExample()
    ensures Inv(EXAMPLE, WATCHED, Watching(0)) && OpsOk(EXAMPLE, WATCHED, 2) && EnvOk(WATCHED, FAILS)
    ensures var b := Bind(EXAMPLE, WATCHED, Watching(0), 5, 0, 8, 2, 0, FAILS);
      b.status == Already && b.ops == 1 && Real(b.s, 1) == 1 && Real(Watching(0), 2) == 2
  {
    hide Inv, OpsOk, EnvOk;
    ExampleOk();
    WatchOne(0);
    BindState(EXAMPLE, WATCHED, Watching(0), 5, 0, 8, 2, 0, FAILS);
    BindFaultsOnlyOnNull(EXAMPLE, WATCHED, Watching(0), 5, 0, 8, 2, 0, FAILS);
  }

  /** Field 0, holding struct 1, is watched under id 7. */
  lemma ForeignWatch()
    ensures Inv(EXAMPLE, MEMORY, NOTHING) && EnvOk(MEMORY, WORKS) && OpsOk(EXAMPLE, MEMORY, 1)
    ensures var w := FWatchOp(EXAMPLE, MEMORY, NOTHING, 5, 7, 8, 0, 1, WORKS);
      && w.status == Done && Inv(EXAMPLE, w.k, w.s) && OpsOk(EXAMPLE, w.k, 2)
      && 5 in w.s.fw && w.s.fw[5] == [FWatch(7, 8, 0, 1)] && 2 !in w.s.table
      && 1 in w.s.idatas && w.s.idatas[1] == Idata(true, 1, [10], [5])
      && w.s.objects == map[] && 1 in w.s.table && w.s.table[1] == 1 && EnvOk(w.k, FAILS) && OpsOk(EXAMPLE, w.k, 1)
  {
    hide Inv, Slot;
    ExampleOk();
    var g := Create(EXAMPLE, MEMORY, NOTHING, 1, WORKS);
    assert g.Got? && g.k.mem[2] == [20] && 2 !in g.k.owner && |g.k.mem[1]| == 1;
    FWatchOk(EXAMPLE, MEMORY, NOTHING, 5, 7, 8, 0, 1, WORKS);
    FWatchNew(EXAMPLE, MEMORY, NOTHING, 5, 7, 8, 0, 1, WORKS);
  }

  /** The kernel assigns struct 2; forgetting the watch brings back struct 1. */
  lemma StaleForgetExample()
    ensures Inv(EXAMPLE, MEMORY, NOTHING) && EnvOk(MEMORY, WORKS) && OpsOk(EXAMPLE, MEMORY, 1)
    ensures var w := FWatchOp(EXAMPLE, MEMORY, NOTHING, 5, 7, 8, 0, 1, WORKS);
      Inv(EXAMPLE, w.k, w.s) && w.status == Done && FForget(EXAMPLE, w.k, w.s, 5, 7, Some(2)).ops == 1
  {
    hide Inv, OpsOk, EnvOk, FWatchOp;
    ForeignWatch();
    var w := FWatchOp(EXAMPLE, MEMORY, NOTHING, 5, 7, 8, 0, 1, WORKS);
    FForgetEffect(EXAMPLE, w.k, w.s, 5, 7, Some(2));
  }

  /** The kernel assigns struct 2; updating the watch without memory reads through an error pointer. */
  lemma UpdateOopsExample()
    ensures Inv(EXAMPLE, MEMORY, NOTHING) && EnvOk(MEMORY, WORKS) && OpsOk(EXAMPLE, MEMORY, 1)
    ensures var w := FWatchOp(EXAMPLE, MEMORY, NOTHING, 5, 7, 8, 0, 1, WORKS);
      && Inv(EXAMPLE, w.k, w.s) && w.status == Done && OpsOk(EXAMPLE, w.k, 2) && EnvOk(w.k, FAILS)
      && FWatchOp(EXAMPLE, w.k, w.s, 5, 7, 8, 0, 2, FAILS).status == Oops
  {
    hide Inv, OpsOk, FWatchOp;
    ForeignWatch();
    var w := FWatchOp(EXAMPLE, MEMORY, NOTHING, 5, 7, 8, 0, 1, WORKS);
    assert FindId(w.s.fw[5], 7) == 0;
    FWatchAgain(EXAMPLE, w.k, w.s, 5, 7, 8, 0, 2, FAILS);
  }

  /** A factory that knows the object's tie hands over to the normal replacement; one that does not leaves it out. */
  lemma BindChainsExample()
    ensures Inv(EXAMPLE, MEMORY, NOTHING) && EnvOk(MEMORY, WORKS) && OpsOk(EXAMPLE, MEMORY, 1)
    ensures var w := FWatchOp(EXAMPLE, MEMORY, NOTHING, 5, 7, 8, 0, 1, WORKS);
      && Inv(EXAMPLE, w.k, w.s) && w.status == Done && OpsOk(EXAMPLE, w.k, 1) && EnvOk(w.k, FAILS)
      && Bind(EXAMPLE, w.k, w.s, 5, 0, 8, 1, 0, FAILS).chained == Some(98)
      && Bind(EXAMPLE, w.k, w.s, 5, 0, 9, 1, 0, FAILS).chained == Some(10)
  {
    hide Inv, FWatchOp, Bind, EnvOk;
    ForeignWatch();
    ExampleConfig();
    var w := FWatchOp(EXAMPLE, MEMORY, NOTHING, 5, 7, 8, 0, 1, WORKS);
    var n := Replacement(0, 98, ReplaceAll);
    assert EXAMPLE.normal == [n] && Entry([n], 0) == Some(n);
    assert FindTie(w.s.fw[5], 8) == 0 && FindTie(w.s.fw[5], 9) < 0;
    assert IndexOf([5], 5) == 0 && [5][..0] == [];
    BindAnswer(EXAMPLE, w.k, w.s, 5, 0, 8, 1, 0, FAILS);
    BindAnswer(EXAMPLE, w.k, w.s, 5, 0, 9, 1, 0, FAILS);
  }

  /** A struct that is instrumented already gets the layer of a factory: factories stack. */
  lemma StackExample()
    ensures Inv(EXAMPLE, WATCHED, Watching(0)) && OpsOk(EXAMPLE, WATCHED, 1) && EnvOk(WATCHED, WORKS)
    ensures var w := FWatchOp(EXAMPLE, WATCHED, Watching(0), 5, 7, 8, 0, 1, WORKS);
      w.status == Done && w.ops == 1 && 1 in w.s.idatas && w.s.idatas[1].layers == [5]
  {
    hide Inv, Render;
    ExampleOk();
    WatchOne(0);
    FWatchNew(EXAMPLE, WATCHED, Watching(0), 5, 7, 8, 0, 1, WORKS);
    FGetDataOk(EXAMPLE, WATCHED, Watching(0), 5, 1, WORKS);
  }

  /** Binding an object without operations that nobody watches reads through the null pointer. */
  lemma BindNullExample()
    ensures Inv(EXAMPLE, MEMORY, NOTHING) && OpsOk(EXAMPLE, MEMORY, NULL) && EnvOk(MEMORY, FAILS)
    ensures Bind(EXAMPLE, MEMORY, NOTHING, 5, 0, 8, NULL, 0, FAILS).status == Oops
  {
    hide Inv, OpsOk, EnvOk;
    ExampleOk();
    BindFaultsOnlyOnNull(EXAMPLE, MEMORY, NOTHING, 5, 0, 8, NULL, 0, FAILS);
  }

  /** A watched object without operations has got a copy; binding another object that was given the copy does too. */
  lemma BindCopyExample()
    ensures Inv(EXAMPLE, MEMORY, NOTHING) && OpsOk(EXAMPLE, MEMORY, NULL) && EnvOk(MEMORY, WORKS)
    ensures var w := Watch(EXAMPLE, MEMORY, NOTHING, 0, NULL, WORKS);
      && w.status == Done && Inv(EXAMPLE, w.k, w.s) && OpsOk(EXAMPLE, w.k, w.ops) && EnvOk(w.k, FAILS)
      && w.ops != NULL && Bind(EXAMPLE, w.k, w.s, 5, 1, 8, w.ops, 0, FAILS).status == Oops
  {
    hide Inv;
    ExampleOk();
    WatchOk(EXAMPLE, MEMORY, NOTHING, 0, NULL, WORKS);
    var w := Watch(EXAMPLE, MEMORY, NOTHING, 0, NULL, WORKS);
    var g := Create(EXAMPLE, MEMORY, NOTHING, NULL, WORKS);
    assert g.Got? && g.h == 3 && |g.k.mem[3]| == 1;
    assert w.k == g.k && OpsOk(EXAMPLE, w.k, 3) && EnvOk(w.k, FAILS);
    BindFaultsOnlyOnNull(EXAMPLE, w.k, w.s, 5, 1, 8, 3, 0, FAILS);
  }

  /**
    Object 1 is its own struct. Forgotten without restoring it keeps the replacement, whose
    original is lost then; forgotten otherwise, all is as it was.
  */
  lemma NorestoreExample()
    ensures Inv(EXAMPLE, WATCHED, Watching(1))
    ensures ForgetDirect(EXAMPLE, WATCHED, Watching(1), 1, false).k == MEMORY
    ensures var n := ForgetDirect(EXAMPLE, WATCHED, Watching(1), 1, true);
      && n.k.mem == map[1 := [98], 2 := [20]] && n.s == NOTHING && Inv(EXAMPLE, n.k, n.s)
      && GetOrig(EXAMPLE, n.k, n.s, 1, 1, 0) == Answer(Lost, None)
  {
    hide Core, LiveBut, Render, GetOrig;
    WatchOne(1);
    DirectNorestore(EXAMPLE, WATCHED, Watching(1), 1);
    assert MEMORY.mem == WATCHED.mem[1 := [10]];
    ReplacedLost();
  }

  /** A struct that holds the intermediate, and nobody who knows about it. */
  lemma ReplacedLost()
    ensures var k := Kernel(WATCHED.mem, map[]);
      Inv(EXAMPLE, k, NOTHING) && GetOrig(EXAMPLE, k, NOTHING, 1, 1, 0) == Answer(Lost, None)
  {
    hide Inv, Core, WfConfig;
    ExampleConfig();
    StartInv(EXAMPLE, Kernel(WATCHED.mem, map[]));
    assert Inst(map[], map[], map[], map f | f in EXAMPLE.foreign :: []) == NOTHING by {
      assert EXAMPLE.foreign.Keys == {5};
    }
    InvCore(EXAMPLE, Kernel(WATCHED.mem, map[]), NOTHING);
    assert IsEntry(EXAMPLE.normal, 98) by {
      assert EXAMPLE.normal[0].repl == 98;
    }
  }

  lemma InvCore(c: Config, k: Kernel, s: Inst)
    requires Inv(c, k, s)
    ensures Core(c, k, s)
  {
  }
}
