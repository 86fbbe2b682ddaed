/**
  What an intermediate operation finds out (kedr_coi_interceptors.c): the engine says which
  operation is the original one, the payloads say which handlers are to run around it.
*/
module Interception {
  import opened Options
  import opened Layers
  import opened Engine
  import opened Operations
  import opened Dispatch
  import opened Runs
  import opened Instrumentors
  import P = Payloads

  /**
    Original operation and handlers, or an error, or a read through a null pointer;
    null-terminated arrays, none if there are no handlers.
  */
  datatype Info = Info(orig: Fn, pre: seq<Fn>, post: seq<Fn>) | Error | Fault

  /**
    The intermediate gets handlers exactly for objects that are watched. Nothing can be said of
    operations that are not instrumented: if they are missing altogether the code reads through
    a null pointer, and if they hold one of the intermediates their original is lost.
  */
  method GetIntermediateInfo(payloads: P.OperationPayloads, engine: Instrumentor, o: Obj, ops: Addr, off: nat)
      returns (info: Info)
    requires payloads.Valid() && payloads.InUse(false) && engine.Valid()
    requires off < engine.c.size && (ops != NULL ==> ops in engine.m.mem && |engine.m.mem[ops]| == engine.c.size)
    requires exists i :: 0 <= i < |payloads.operations| && payloads.operations[i].offset == off
    ensures var a := GetOrig(engine.c, engine.m.K(), engine.S(), o, ops, off);
      info ==
        if a.status == Oops then Fault
        else if a.status == Lost then Error
        else if o in engine.S().objects then Handled(payloads.used, off, a.op.value)
        else Info(a.op.value, [], [])
    ensures var s, m := engine.S(), engine.m;
      if o in s.objects then
        && s.objects[o] in s.idatas && off < |s.idatas[s.objects[o]].saved|
        && info.Info? && info.orig == s.idatas[s.objects[o]].saved[off]
        && P.Lists(info.pre, P.PreHandlers(payloads.used), off, info.orig == NULL)
        && P.Lists(info.post, P.PostHandlers(payloads.used), off, info.orig == NULL)
      else if ops in s.table then
        && s.table[ops] in s.idatas && off < |s.idatas[s.table[ops]].saved|
        && info == Info(s.idatas[s.table[ops]].saved[off], [], [])
      else if ops == NULL then info == Fault
      else if IsEntry(engine.c.normal, m.mem[ops][off]) then info == Error
      else info == Info(m.mem[ops][off], [], [])
    ensures var unknown := o !in engine.S().objects && ops !in engine.S().table;
      && (info.Fault? <==> unknown && ops == NULL)
      && (info.Error? <==> unknown && ops != NULL && IsEntry(engine.c.normal, engine.m.mem[ops][off]))
  {
    hide Core, LiveBut, GetOrig, P.AllFuncsFor, P.Lists, P.PreHandlers, P.PostHandlers;
    var status, op := engine.GetOrigOperation(o, ops, off);
    OrigStatus(engine.c, engine.m.K(), engine.S(), o, ops, off);
    if status == Done {
      var pre, post := payloads.GetInterceptionInfo(off, op.value == NULL);
      info := Info(op.value, pre, post);
    } else if op.Some? {
      info := Info(op.value, [], []);
    } else {
      info := if status == Oops then Fault else Error;
    }
  }

  /** All handlers of the payloads in use for an operation, those for a missing one if it is null. */
  function Handled(used: seq<P.Payload>, off: nat, orig: Fn): Info {
    Info(orig,
         P.NullTerminated(P.AllFuncsFor(used, off, orig == NULL, false)),
         P.NullTerminated(P.AllFuncsFor(used, off, orig == NULL, true)))
  }

  lemma OrigStatus(c: Config, k: Kernel, s: Inst, o: Obj, ops: Addr, off: nat)
    requires Core(c, k, s) && off < c.size && (ops != NULL ==> ops in k.mem && |k.mem[ops]| == c.size)
    ensures var a := GetOrig(c, k, s, o, ops, off);
      var unknown := o !in s.objects && ops !in s.table;
      && (a.status == Done <==> o in s.objects)
      && (a.op.None? <==> a.status in {Oops, Lost})
      && (a.status == Oops <==> unknown && ops == NULL)
      && (a.status == Lost <==> unknown && ops != NULL && IsEntry(c.normal, k.mem[ops][off]))
      && (o in s.objects ==>
        && s.objects[o] in s.idatas && off < |s.idatas[s.objects[o]].saved|
        && a.op == Some(s.idatas[s.objects[o]].saved[off]))
      && (o !in s.objects && ops in s.table ==>
        && s.table[ops] in s.idatas && off < |s.idatas[s.table[ops]].saved|
        && a.op == Some(s.idatas[s.table[ops]].saved[off]))
      && (unknown && a.op.Some? ==> ops != NULL && a.op.value == k.mem[ops][off])
  {
    if o in s.objects {
      assert IdataOk(c, k, s.objects[o], s.idatas[s.objects[o]]);
    } else if ops in s.table {
      assert IdataOk(c, k, s.table[ops], s.idatas[s.table[ops]]);
    }
  }

  // ---------------------------------------------------------------- factory intermediates

  /** What to chain to, and the handlers that belong to the way the object was made. */
  datatype FactoryInfo = FactoryInfo(status: Status, chained: Option<Fn>, orig: Option<Fn>, pre: seq<Fn>, post: seq<Fn>)

  /** A factory's intermediate gets its handlers exactly if the object was not watched and now is. */
  method BindFactoryObject(payloads: P.OperationPayloads, engine: Instrumentor, f: FId, o: Obj, tie: Tie, ops: Addr,
      off: nat, e: Env)
      returns (info: FactoryInfo, ops': Addr)
    requires payloads.Valid() && payloads.InUse(true) && engine.Valid() && f in engine.c.foreign && off < engine.c.size
    requires OpsOk(engine.c, engine.m.K(), ops) && EnvOk(engine.m.K(), e)
    requires exists i :: 0 <= i < |payloads.operations| && payloads.operations[i].offset == off
    modifies engine`table, engine`idatas, engine`saved, engine`objects, engine.m
    ensures engine.Valid()
    ensures var b := Bind(engine.c, old(engine.m.K()), old(engine.S()), f, o, tie, ops, off, e);
      && Bound(engine.m.K(), engine.S(), ops', info.status, info.chained, info.orig) == b
      && (b.status == Done ==>
        b.orig.Some? && Info(b.orig.value, info.pre, info.post) == Handled(payloads.used, off, b.orig.value))
      && (b.status == Done ==>
        && P.Lists(info.pre, P.PreHandlers(payloads.used), off, b.orig.value == NULL)
        && P.Lists(info.post, P.PostHandlers(payloads.used), off, b.orig.value == NULL))
      && (b.status != Done ==> info.pre == [] && info.post == [])
  {
    hide Core, LiveBut, Bind, OpsOk, EnvOk, P.AllFuncsFor, P.Lists, P.PreHandlers, P.PostHandlers;
    DoneHasOrig(engine.c, engine.m.K(), engine.S(), f, o, tie, ops, off, e);
    var status, chained, orig;
    status, ops', chained, orig := engine.BindObject(f, o, tie, ops, off, e);
    info := FactoryInfo(status, chained, orig, [], []);
    if status == Done {
      var pre, post := payloads.GetInterceptionInfo(off, orig.value == NULL);
      info := info.(pre := pre, post := post);
    }
  }

  lemma DoneHasOrig(c: Config, k: Kernel, s: Inst, f: FId, o: Obj, tie: Tie, ops: Addr, off: nat, e: Env)
    requires Inv(c, k, s) && f in c.foreign && OpsOk(c, k, ops) && EnvOk(k, e) && off < c.size
    ensures var b := Bind(c, k, s, f, o, tie, ops, off, e); b.status == Done ==> b.orig.Some?
  {
    hide LiveBut, IdataOk, RefsOk, IdsOk, FieldsOk, Watch, SavedOp, NormalOp, ChainOp;
  }

  /** When that is: the factory is watched, the object was not, and there was memory to watch it. */
  lemma FactoryHandlersRun(c: Config, k: Kernel, s: Inst, f: FId, o: Obj, tie: Tie, ops: Addr, off: nat, e: Env)
    requires Inv(c, k, s) && f in c.foreign && f in s.fw && OpsOk(c, k, ops) && EnvOk(k, e) && off < c.size
    ensures Bind(c, k, s, f, o, tie, ops, off, e).status == Done <==>
      FindTie(s.fw[f], tie) >= 0 && o !in s.objects && Available(k, s, ops, e) && e.watch
  {
    hide LiveBut, IdataOk, RefsOk, IdsOk, FieldsOk, Watch, SavedOp, NormalOp, ChainOp, GetData;
    if FindTie(s.fw[f], tie) >= 0 {
      if o in s.objects {
        WatchAgain(c, k, s, o, ops, e);
      } else {
        WatchNew(c, k, s, o, ops, e);
      }
    }
  }

  // ---------------------------------------------------------------- interception is exact

  /** An operation that is not wanted has no handlers. */
  lemma {:induction false} NotWanted(ps: seq<P.Payload>, off: nat, missing: bool)
    requires !P.Wanted(ps, off, missing)
    ensures P.AllFuncsFor(ps, off, missing, false) == [] && P.AllFuncsFor(ps, off, missing, true) == []
  {
    if ps != [] {
      var n := |ps| - 1;
      P.WantedSnoc(ps[..n], ps[n], off, missing);
      assert ps == ps[..n] + [ps[n]];
      NotWanted(ps[..n], off, missing);
      NoneFor(ps[n].pre, off, missing);
      NoneFor(ps[n].post, off, missing);
    }
  }

  lemma {:induction false} NoneFor(hs: seq<P.Handler>, off: nat, missing: bool)
    requires !P.AnyFor(hs, off, missing)
    ensures P.FuncsFor(hs, off, missing) == []
  {
    if hs != [] {
      var n := |hs| - 1;
      P.AnySnoc(hs[..n], hs[n], off, missing);
      assert hs == hs[..n] + [hs[n]];
      NoneFor(hs[..n], off, missing);
    }
  }

  /**
    Calling operation `i` of a watched object, whatever foreign layers are on its struct: what
    they leave of it is the intermediate if handlers or a group ask for it, else the original;
    and if it is the original no handler was to be called.
  */
  lemma WatchedOperation(c: Config, k: Kernel, s: Inst, o: Obj, ops: seq<P.Operation>, ps: seq<P.Payload>, i: nat)
    requires Inv(c, k, s) && o in s.objects && s.objects[o] in s.idatas
    requires P.Intercepts(ops, ps, false) && c.normal == P.ReplacementsOf(ops) && i < |ops| && ops[i].offset < c.size
    ensures var h, off := s.objects[o], ops[i].offset;
      var orig := SavedOp(c, k, s, h, off);
      var wanted := if orig != NULL then P.Wanted(ps, off, false) else P.MissingTaken(ops, ps, false, i);
      && NormalOp(c, k, s, h, off) == (if wanted then ops[i].repl else orig)
      && (!wanted ==> Handled(ps, off, orig) == Info(orig, [], []))
      && (s.idatas[h].layers == [] ==> h in k.mem && off < |k.mem[h]| && k.mem[h][off] == NormalOp(c, k, s, h, off))
  {
    hide P.AllFuncsFor, P.Wanted, P.ReplacementsOf, P.Intercepts, LiveBut;
    var h, off := s.objects[o], ops[i].offset;
    var orig := SavedOp(c, k, s, h, off);
    P.Decision(ops, ps, false, i, orig, orig);
    NormalAlone(c.normal, off, orig);
    if orig != NULL {
      if !P.Wanted(ps, off, false) {
        NotWanted(ps, off, false);
      }
    } else if !P.MissingTaken(ops, ps, false, i) {
      NotWanted(ps, off, true);
    }
    SlotOf(c, k, s, h, off);
    assert s.idatas[h].layers == [] ==> Stack(c, s.idatas[h].layers) == [c.normal];
  }
}
