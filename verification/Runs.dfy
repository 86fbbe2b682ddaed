/**
  Single calls on an operations field: what each does to the field, the watch tables and the
  operations the field stands for. Systems.dfy puts such calls together to runs.
*/
module Runs {
  import opened Options
  import opened Layers
  import opened Engine
  import opened Operations
  import opened Dispatch

  /** A call that works on one operations field. `gone` means the object does not exist any more. */
  datatype Act =
    | AWatch(o: Obj, e: Env)
    | AForget(o: Obj)
    | AFWatch(f: FId, id: Id, tie: Tie, e: Env)
    | AFForget(f: FId, id: Id)
    | ABind(f: FId, o: Obj, tie: Tie, off: nat, e: Env)

  /** The operations field that belongs to each object of a normal instrumentor. */
  type Home = map<Obj, Field>

  ghost predicate ActOk(c: Config, k: Kernel, s: Inst, home: Home, act: Act, x: Field, ops: Addr) {
    OpsOk(c, k, ops) && CallOk(c, k, s, home, act, x)
  }

  /** The call is on the field that belongs to its object or id. */
  ghost predicate CallOk(c: Config, k: Kernel, s: Inst, home: Home, act: Act, x: Field) {
    match act
    case AWatch(o, e) => EnvOk(k, e) && o in home && home[o] == x
    case AForget(o) => o in home && home[o] == x
    case AFWatch(f, id, _, e) => f in c.foreign && f in s.fw && EnvOk(k, e) &&
      (FindId(s.fw[f], id) >= 0 ==> s.fw[f][FindId(s.fw[f], id)].field == x)
    case AFForget(f, id) => f in c.foreign && f in s.fw &&
      (FindId(s.fw[f], id) >= 0 ==> s.fw[f][FindId(s.fw[f], id)].field == x)
    case ABind(f, o, _, off, e) => f in c.foreign && EnvOk(k, e) && off < c.size && o in home && home[o] == x
  }

  ghost function Act1(c: Config, k: Kernel, s: Inst, home: Home, act: Act, x: Field, ops: Addr): Out
    requires Inv(c, k, s) && ActOk(c, k, s, home, act, x, ops)
  {
    match act
    case AWatch(o, e) => Watch(c, k, s, o, ops, e)
    case AForget(o) => Forget(c, k, s, o, Some(ops))
    case AFWatch(f, id, tie, e) => FWatchOp(c, k, s, f, id, tie, x, ops, e)
    case AFForget(f, id) => FForget(c, k, s, f, id, Some(ops))
    case ABind(f, o, tie, off, e) => var b := Bind(c, k, s, f, o, tie, ops, off, e); Out(b.k, b.s, b.ops, b.status)
  }

  lemma ActKeepsInv(c: Config, k: Kernel, s: Inst, home: Home, act: Act, x: Field, ops: Addr)
    requires Inv(c, k, s) && ActOk(c, k, s, home, act, x, ops)
    ensures var r := Act1(c, k, s, home, act, x, ops); Inv(c, r.k, r.s) && Conserved(c, k, s, r.k, r.s)
  {
    hide Core, LiveBut, Conserved, Watch, Forget, FWatchOp, FForget, Bind, OpsOk, EnvOk;
    match act
    case AWatch(o, e) => WatchOk(c, k, s, o, ops, e);
    case AForget(o) => ForgetOk(c, k, s, o, Some(ops));
    case AFWatch(f, id, tie, e) => FWatchOk(c, k, s, f, id, tie, x, ops, e);
    case AFForget(f, id) => FForgetOk(c, k, s, f, id, Some(ops));
    case ABind(f, o, tie, off, e) => BindOk(c, k, s, f, o, tie, ops, off, e);
  }

  // ---------------------------------------------------------------- what a field really points to

  /**
    The operations a field would hold without the engine: the original of a replaced struct, anything else is
    itself.
  */
  function Real(s: Inst, a: Addr): Addr {
    if a in s.table && s.table[a] in s.idatas then s.idatas[s.table[a]].orig else a
  }

  /** Some watch of idata `h` is for field `x`. */
  ghost predicate Registered(s: Inst, home: Home, x: Field, h: Addr) {
    || (exists o :: o in s.objects && o in home && s.objects[o] == h && home[o] == x)
    || (exists f, i :: f in s.fw && 0 <= i < |s.fw[f]| && s.fw[f][i].idata == h && s.fw[f][i].field == x)
  }

  /**
    When a call leaves the field pointing at the same real operations.  A normal watch whose update
    fails puts back the original of the PREVIOUS operations; a foreign forget puts back the original
    of its watch even if the field was given other operations since; so does a bind of an object
    that is watched with other operations.
  */
  ghost predicate Faithful(c: Config, k: Kernel, s: Inst, act: Act, ops: Addr)
    requires ops == NULL || ops in k.mem
  {
    match act
    case AWatch(o, e) =>
      o in s.objects && s.objects[o] in s.idatas ==>
        Mine(s.idatas[s.objects[o]], s.objects[o], ops) || Available(k, s, ops, e)
    case AForget(o) => true
    case AFWatch(f, id, tie, e) => true
    case AFForget(f, id) =>
      f in s.fw && FindId(s.fw[f], id) >= 0 ==>
        var h := s.fw[f][FindId(s.fw[f], id)].idata;
        h in s.idatas ==> Mine(s.idatas[h], h, ops)
    case ABind(f, o, tie, off, e) =>
      o in s.objects && s.objects[o] in s.idatas ==>
        Mine(s.idatas[s.objects[o]], s.objects[o], ops) ||
          (f in s.fw && FindTie(s.fw[f], tie) >= 0 && Available(k, s, ops, e))
  }

  /** Idatas that stay keep their original; a new one is in place or at a fresh address. */
  ghost predicate SameReal(k: Kernel, s: Inst, s': Inst) {
    && (forall h :: h in s.idatas && h in s'.idatas ==> s'.idatas[h].orig == s.idatas[h].orig)
    && (forall h :: h in s'.idatas && h !in s.idatas ==> s'.idatas[h].orig == h || (h != NULL && h !in k.mem))
  }

  lemma GetDataReal(c: Config, k: Kernel, s: Inst, ops: Addr, e: Env)
    requires TablesOk(c, k, s) && EnvOk(k, e) && (ops == NULL || ops in k.mem)
    ensures var g := GetData(c, k, s, ops, e);
            g.Got? ==> SameReal(k, s, g.s) && g.h in g.s.idatas && g.s.idatas[g.h].orig == Real(s, ops)
  {
    hide Render, Original;
  }

  /** Idatas only go away, or change their layers. */
  ghost predicate Shrinks(s: Inst, s': Inst) {
    forall h :: h in s'.idatas ==> h in s.idatas && s'.idatas[h].orig == s.idatas[h].orig
  }

  lemma ReleaseShrinks(k: Kernel, s: Inst, h: Addr)
    requires h in s.idatas
    ensures Shrinks(s, Release(k, s, h, true).1)
    ensures Release(k, s, h, true).1.fw == s.fw && Release(k, s, h, true).1.objects == s.objects
  {
  }

  lemma DropLayerShrinks(c: Config, k: Kernel, s: Inst, f: FId, h: Addr)
    requires h in s.idatas && f in s.idatas[h].layers
    ensures Shrinks(s, DropLayer(c, k, s, f, h).1)
    ensures DropLayer(c, k, s, f, h).1.fw == s.fw && DropLayer(c, k, s, f, h).1.objects == s.objects
  {
    hide Release, Render, Held;
    if !Held(s, f, h) {
      var d := s.idatas[h];
      var layers := Without(d.layers, IndexOf(d.layers, f));
      var s1 := s.(idatas := s.idatas[h := d.(layers := layers)]);
      ReleaseShrinks(k.(mem := k.mem[h := Render(c, d.saved, layers)]), s1, h);
    }
  }

  /** In a consistent state an address is its own idata's replaced struct, its original, or not instrumented. */
  lemma RealIs(c: Config, k: Kernel, s: Inst, h: Addr, a: Addr)
    requires TablesOk(c, k, s) && h in s.idatas
    ensures Mine(s.idatas[h], h, a) <==> a in s.table && s.table[a] == h
    ensures Mine(s.idatas[h], h, a) <==> Real(s, a) == s.idatas[h].orig
    ensures Real(s, h) == s.idatas[h].orig && Real(s, s.idatas[h].orig) == s.idatas[h].orig
    ensures Real(s, a) != a ==> a in s.idatas
  {
  }

  /** What a watch of a watched object does. */
  lemma WatchAgain(c: Config, k: Kernel, s: Inst, o: Obj, ops: Addr, e: Env)
    requires Inv(c, k, s) && OpsOk(c, k, ops) && EnvOk(k, e) && o in s.objects
    ensures s.objects[o] in s.idatas
    ensures var r := Watch(c, k, s, o, ops, e);
            var h := s.objects[o];
            && r.s.fw == s.fw && SameReal(k, s, r.s)
            && if Mine(s.idatas[h], h, ops) || Available(k, s, ops, e)
               then r.status == Already && r.s.objects == s.objects[o := r.ops] && r.ops in r.s.idatas
                 && r.s.idatas[r.ops].orig == Real(s, ops)
               else r.status == Refusal(k, s, ops, e) && r.s.objects == s.objects - {o} && r.ops == s.idatas[h].orig
  {
    hide IdataOk, RefsOk, IdsOk, FieldsOk, LiveBut, Conserved, GetData, Release, TablesOk;
    WatchOk(c, k, s, o, ops, e);
    GetDataOk(c, k, s, ops, e);
    GetDataReal(c, k, s, ops, e);
    ObjectRef(c, s, o);
    var g := GetData(c, k, s, ops, e);
    var r := Watch(c, k, s, o, ops, e);
    var h := s.objects[o];
    RealIs(c, k, s, h, ops);
    if Mine(s.idatas[h], h, ops) {
    } else if g.Got? {
      var s1 := g.s.(objects := g.s.objects[o := g.h]);
      assert SameReal(k, s, s1);
      ReleaseShrinks(g.k, s1, h);
      assert g.h in r.s.idatas by { ObjectRef(c, r.s, o); }
    } else {
      var s1 := s.(objects := s.objects - {o});
      ReleaseShrinks(k, s1, h);
    }
  }

  lemma WatchNew(c: Config, k: Kernel, s: Inst, o: Obj, ops: Addr, e: Env)
    requires Inv(c, k, s) && OpsOk(c, k, ops) && EnvOk(k, e) && o !in s.objects
    ensures var r := Watch(c, k, s, o, ops, e);
            && r.s.fw == s.fw && SameReal(k, s, r.s)
            && if Available(k, s, ops, e) && e.watch
               then r.status == Done && r.s.objects == s.objects[o := r.ops] && r.ops in r.s.idatas
                 && r.s.idatas[r.ops].orig == Real(s, ops)
               else r.status == Refusal(k, s, ops, e) && r.k == k && r.s == s && r.ops == ops
  {
    hide IdataOk, RefsOk, IdsOk, FieldsOk, LiveBut, Conserved, GetData, Release, TablesOk;
    TableAvailable(k, s, ops, e);
    GetDataOk(c, k, s, ops, e);
    GetDataReal(c, k, s, ops, e);
  }

  lemma ForgetEffect(c: Config, k: Kernel, s: Inst, o: Obj, ops: Option<Addr>)
    requires Inv(c, k, s)
    ensures var r := Forget(c, k, s, o, ops);
            && r.s.fw == s.fw && SameReal(k, s, r.s)
            && if o in s.objects
               then r.status == Done && r.s.objects == s.objects - {o} && s.objects[o] in s.idatas
                 && (ops.Some? ==> r.ops == (if Mine(s.idatas[s.objects[o]], s.objects[o], ops.value)
                                             then s.idatas[s.objects[o]].orig else ops.value))
               else r.status == NotWatched && r.k == k && r.s == s && (ops.Some? ==> r.ops == ops.value)
  {
    hide IdataOk, RefsOk, IdsOk, FieldsOk, LiveBut, Conserved, Release, TablesOk;
    if o in s.objects {
      ForgetOk(c, k, s, o, ops);
      ObjectRef(c, s, o);
      var s1 := s.(objects := s.objects - {o});
      ReleaseShrinks(k, s1, s.objects[o]);
    }
  }

  lemma FGetDataReal(c: Config, k: Kernel, s: Inst, f: FId, ops: Addr, e: Env)
    requires Inv(c, k, s) && f in c.foreign && OpsOk(c, k, ops) && EnvOk(k, e)
    ensures var g := FGetData(c, k, s, f, ops, e);
            g.Got? ==>
              && SameReal(k, s, g.s) && g.h in g.s.idatas && g.s.idatas[g.h].orig == Real(s, ops)
              && forall h :: h in s.idatas ==> h in g.s.idatas
  {
    hide WfConfig, IdataOk, TablesOk, WatchesOk, LiveBut, Conserved, GetData, AddLayer, Mine;
    GetDataOk(c, k, s, ops, e);
    GetDataReal(c, k, s, ops, e);
    TableRef(c, k, s, ops);
    var g := GetData(c, k, s, ops, e);
    if g.Got? {
      AddLayerIs(c, g.k, g.s, f, g.h);
    }
  }

  lemma TableRef(c: Config, k: Kernel, s: Inst, a: Addr)
    requires TablesOk(c, k, s)
    ensures a in s.table ==> s.table[a] in s.idatas && s.idatas[s.table[a]].orig == Real(s, a)
  {
  }

  /** What a foreign watch of a known id does. */
  lemma FWatchAgain(c: Config, k: Kernel, s: Inst, f: FId, id: Id, tie: Tie, x: Field, ops: Addr, e: Env)
    requires Inv(c, k, s) && f in c.foreign && OpsOk(c, k, ops) && EnvOk(k, e)
    requires f in s.fw && FindId(s.fw[f], id) >= 0
    ensures var r := FWatchOp(c, k, s, f, id, tie, x, ops, e);
            var i := FindId(s.fw[f], id);
            var h := s.fw[f][i].idata;
            && h in s.idatas && r.s.objects == s.objects && SameReal(k, s, r.s)
            && if Mine(s.idatas[h], h, ops) || LayerAvailable(k, s, f, ops, e)
               then r.status == Already && r.s.fw == s.fw[f := s.fw[f][i := s.fw[f][i].(idata := r.ops)]]
                 && r.ops in r.s.idatas && r.s.idatas[r.ops].orig == Real(s, ops)
               else r.status == Oops && r.k == k && r.s == s && r.ops == ops
  {
    hide IdataOk, RefsOk, IdsOk, FieldsOk, LiveBut, Conserved, FGetData, DropLayer, TablesOk, LayerAvailable, Refusal;
    FWatchOk(c, k, s, f, id, tie, x, ops, e);
    FGetDataOk(c, k, s, f, ops, e);
    FGetDataReal(c, k, s, f, ops, e);
    var g := FGetData(c, k, s, f, ops, e);
    var r := FWatchOp(c, k, s, f, id, tie, x, ops, e);
    var i := FindId(s.fw[f], id);
    WatchRef(c, s, f, i);
    var h := s.fw[f][i].idata;
    RealIs(c, k, s, h, ops);
    if Mine(s.idatas[h], h, ops) {
      assert s.fw[f][i := s.fw[f][i].(idata := h)] == s.fw[f];
      assert s.fw[f := s.fw[f]] == s.fw;
    } else if g.Got? {
      var s1 := SetFw(g.s, f, s.fw[f][i := s.fw[f][i].(idata := g.h)]);
      DropLayerShrinks(c, g.k, s1, f, h);
      assert r.s.fw[f][i].idata == g.h;
      WatchRef(c, r.s, f, i);
    }
  }

  lemma FWatchNew(c: Config, k: Kernel, s: Inst, f: FId, id: Id, tie: Tie, x: Field, ops: Addr, e: Env)
    requires Inv(c, k, s) && f in c.foreign && OpsOk(c, k, ops) && EnvOk(k, e)
    requires f in s.fw && FindId(s.fw[f], id) < 0
    ensures var r := FWatchOp(c, k, s, f, id, tie, x, ops, e);
            && r.s.objects == s.objects && SameReal(k, s, r.s)
            && if !FieldWatched(s, x) && LayerAvailable(k, s, f, ops, e) && e.watch
               then r.status == Done && r.s.fw == s.fw[f := [FWatch(id, tie, x, r.ops)] + s.fw[f]]
                 && r.ops in r.s.idatas && r.s.idatas[r.ops].orig == Real(s, ops)
               else
                 && r.k == k && r.s == s && r.ops == ops
                 && r.status == if FieldWatched(s, x) then Busy else Refusal(k, s, ops, e)
  {
    hide IdataOk, RefsOk, IdsOk, FieldsOk, LiveBut, Conserved, FGetData, DropLayer, TablesOk, FieldWatched;
    FGetDataOk(c, k, s, f, ops, e);
    FGetDataReal(c, k, s, f, ops, e);
    FGetDataUndo(c, k, s, f, ops, e);
  }

  lemma FForgetEffect(c: Config, k: Kernel, s: Inst, f: FId, id: Id, ops: Option<Addr>)
    requires Inv(c, k, s) && f in c.foreign && f in s.fw
    ensures var r := FForget(c, k, s, f, id, ops);
            var i := FindId(s.fw[f], id);
            && r.s.objects == s.objects && SameReal(k, s, r.s)
            && if i >= 0
               then r.status == Done && r.s.fw == s.fw[f := Without(s.fw[f], i)] && s.fw[f][i].idata in s.idatas
                 && (ops.Some? ==> r.ops == s.idatas[s.fw[f][i].idata].orig)
               else r.status == NotWatched && r.k == k && r.s == s && (ops.Some? ==> r.ops == ops.value)
  {
    hide IdataOk, RefsOk, IdsOk, FieldsOk, LiveBut, Conserved, DropLayer, TablesOk;
    var i := FindId(s.fw[f], id);
    if i >= 0 {
      FForgetOk(c, k, s, f, id, ops);
      WatchRef(c, s, f, i);
      var s1 := SetFw(s, f, Without(s.fw[f], i));
      DropLayerShrinks(c, k, s1, f, s.fw[f][i].idata);
    }
  }

  // ---------------------------------------------------------------- what a call does to fields

  /** Changing only what field `x` is watched for leaves other fields' registrations. */
  lemma OthersRegistered(s: Inst, s': Inst, home: Home, x: Field)
    requires forall o :: o in s.objects && o in home && home[o] != x ==>
      o in s'.objects && s'.objects[o] == s.objects[o]
    requires forall f, i :: f in s.fw && 0 <= i < |s.fw[f]| && s.fw[f][i].field != x ==>
      f in s'.fw && s.fw[f][i] in s'.fw[f]
    ensures forall y, h :: y != x && Registered(s, home, y, h) ==> Registered(s', home, y, h)
  {
    forall y: Field, h: Addr | y != x && Registered(s, home, y, h) ensures Registered(s', home, y, h) {
      if o :| o in s.objects && o in home && s.objects[o] == h && home[o] == y {
        assert s'.objects[o] == h;
      } else {
        var f, i :| f in s.fw && 0 <= i < |s.fw[f]| && s.fw[f][i].idata == h && s.fw[f][i].field == y;
        assert s.fw[f][i] in s'.fw[f];
      }
    }
  }

  /**
    Every other field stays registered; this one is registered if it holds a replaced struct that is
    not the original.  What it gets is in memory, and is the instrumentor's own if it is new.
  */
  ghost predicate FieldsKept(k: Kernel, s: Inst, home: Home, x: Field, ops: Addr, r: Out) {
    && SameReal(k, s, r.s)
    && (forall y, h :: y != x && Registered(s, home, y, h) ==> Registered(r.s, home, y, h))
    && (Real(r.s, r.ops) != r.ops ==> Registered(r.s, home, x, r.ops))
    && (r.ops == NULL || r.ops in r.k.mem)
    && (r.ops == ops || r.ops in s.table || r.ops in r.s.table)
  }

  /** A field that was covered stays so, and points at the same real operations. */
  lemma CoveredStays(c: Config, k: Kernel, s: Inst, k': Kernel, s': Inst, home: Home, x: Field, a: Addr)
    requires Core(c, k, s) && SameReal(k, s, s') && Core(c, k', s') && Conserved(c, k, s, k', s')
    requires a == NULL || a in k.mem
    requires Real(s, a) != a ==> Registered(s', home, x, a)
    ensures Real(s', a) == Real(s, a)
    ensures a == NULL || a in k'.mem
  {
    hide Render, Pristine, LayersOk, IdsOk, FieldsOk, WfConfig;
    if Real(s, a) != a {
      RealIs(c, k, s, a, a);
      assert a in s'.idatas;
      assert IdataOk(c, k', a, s'.idatas[a]);
    } else if a != NULL {
      assert a in s.idatas ==> IdataOk(c, k, a, s.idatas[a]);
      assert a in Undone(k, s);
    }
  }

  lemma OrigInMemory(c: Config, k: Kernel, s: Inst, k': Kernel, s': Inst, home: Home, x: Field, h: Addr)
    requires Core(c, k, s) && SameReal(k, s, s') && Core(c, k', s') && Conserved(c, k, s, k', s') && h in s.idatas
    ensures s.idatas[h].orig in s.table
    ensures s.idatas[h].orig == NULL || s.idatas[h].orig in k'.mem
  {
    hide Conserved, WatchesOk, WfConfig, Render;
    RealIs(c, k, s, h, h);
    assert IdataOk(c, k, h, s.idatas[h]);
    CoveredStays(c, k, s, k', s', home, x, s.idatas[h].orig);
  }

  lemma IdataInMemory(c: Config, k: Kernel, s: Inst, h: Addr)
    requires Core(c, k, s) && h in s.idatas
    ensures h in k.mem && h in s.table
  {
    assert IdataOk(c, k, h, s.idatas[h]);
  }

  lemma WatchFields(c: Config, k: Kernel, s: Inst, home: Home, o: Obj, x: Field, ops: Addr, e: Env)
    requires Inv(c, k, s) && ActOk(c, k, s, home, AWatch(o, e), x, ops)
    requires Real(s, ops) != ops ==> Registered(s, home, x, ops)
    ensures var r := Watch(c, k, s, o, ops, e);
            && FieldsKept(k, s, home, x, ops, r)
            && (Faithful(c, k, s, AWatch(o, e), ops) <==> Real(r.s, r.ops) == Real(s, ops))
  {
    hide IdataOk, RefsOk, IdsOk, FieldsOk, LiveBut, Conserved, GetData, TablesOk, Watch;
    var r := Watch(c, k, s, o, ops, e);
    WatchOk(c, k, s, o, ops, e);
    if o in s.objects {
      WatchAgain(c, k, s, o, ops, e);
      RealIs(c, k, s, s.objects[o], ops);
    } else {
      WatchNew(c, k, s, o, ops, e);
    }
    OthersRegistered(s, r.s, home, x);
    if r.status in {Done, Already} {
      RealIs(c, r.k, r.s, r.ops, r.ops);
      IdataInMemory(c, r.k, r.s, r.ops);
      assert r.s.objects[o] == r.ops && home[o] == x;
    } else if o in s.objects {
      GetDataOk(c, k, s, ops, e);
      OrigReal(c, k, s, r.k, r.s, s.objects[o]);
      OrigInMemory(c, k, s, r.k, r.s, home, x, s.objects[o]);
    }
  }

  /** The original of an idata is not a copy, before and after. */
  lemma OrigReal(c: Config, k: Kernel, s: Inst, k': Kernel, s': Inst, h: Addr)
    requires Core(c, k, s) && TablesOk(c, k', s') && SameReal(k, s, s') && h in s.idatas
    ensures Real(s', s.idatas[h].orig) == s.idatas[h].orig
  {
    hide WatchesOk, Render, Pristine, LayersOk;
    var a := s.idatas[h].orig;
    assert IdataOk(c, k, h, s.idatas[h]);
    if a in s'.idatas && a in s.idatas {
      assert s.table[a] == h;
    }
  }

  lemma ForgetFields(c: Config, k: Kernel, s: Inst, home: Home, o: Obj, x: Field, ops: Addr)
    requires Inv(c, k, s) && ActOk(c, k, s, home, AForget(o), x, ops)
    requires Real(s, ops) != ops ==> Registered(s, home, x, ops)
    ensures var r := Forget(c, k, s, o, Some(ops));
            FieldsKept(k, s, home, x, ops, r) && Real(r.s, r.ops) == Real(s, ops)
  {
    hide IdataOk, RefsOk, IdsOk, FieldsOk, LiveBut, Conserved, TablesOk, Forget;
    var r := Forget(c, k, s, o, Some(ops));
    ForgetOk(c, k, s, o, Some(ops));
    ForgetEffect(c, k, s, o, Some(ops));
    OthersRegistered(s, r.s, home, x);
    if o in s.objects {
      var h := s.objects[o];
      RealIs(c, k, s, h, ops);
      if Mine(s.idatas[h], h, ops) {
        OrigReal(c, k, s, r.k, r.s, h);
        OrigInMemory(c, k, s, r.k, r.s, home, x, h);
      } else {
        StillReal(c, k, s, home, x, ops, h, r);
        CoveredStays(c, k, s, r.k, r.s, home, x, ops);
      }
    }
  }

  /** A field that holds somebody else's operations keeps its registration when one watch on it goes. */
  lemma StillReal(c: Config, k: Kernel, s: Inst, home: Home, x: Field, ops: Addr, h: Addr, r: Out)
    requires TablesOk(c, k, s) && Core(c, r.k, r.s) && SameReal(k, s, r.s) && (ops == NULL || ops in k.mem)
    requires Real(s, ops) != ops ==> Registered(s, home, x, ops)
    requires ops != h
    requires r.s.fw == s.fw
    requires forall o :: o in s.objects && s.objects[o] != h ==> o in r.s.objects && r.s.objects[o] == s.objects[o]
    ensures Real(r.s, ops) == Real(s, ops)
    ensures Real(r.s, ops) != ops ==> Registered(r.s, home, x, ops)
  {
    hide IdataOk, IdsOk, FieldsOk;
    if Registered(s, home, x, ops) {
      if o :| o in s.objects && o in home && s.objects[o] == ops && home[o] == x {
        assert r.s.objects[o] == ops;
      }
      assert Registered(r.s, home, x, ops);
      assert ops in r.s.idatas;
    }
  }

  /** A watch that moves to another idata is the only one that changes. */
  lemma OthersWatched(fw: map<FId, seq<FWatch>>, f: FId, i: nat, h: Addr, x: Field)
    requires f in fw && i < |fw[f]| && fw[f][i].field == x
    ensures var fw2 := fw[f := fw[f][i := fw[f][i].(idata := h)]];
      forall g, j :: g in fw && 0 <= j < |fw[g]| && fw[g][j].field != x ==> fw[g][j] in fw2[g]
  {
    var fw2 := fw[f := fw[f][i := fw[f][i].(idata := h)]];
    forall g, j | g in fw && 0 <= j < |fw[g]| && fw[g][j].field != x ensures fw[g][j] in fw2[g] {
      assert fw2[g][j] == fw[g][j];
    }
  }

  lemma FWatchFields(c: Config, k: Kernel, s: Inst, home: Home, f: FId, id: Id, tie: Tie, x: Field, ops: Addr, e: Env)
    requires Inv(c, k, s) && ActOk(c, k, s, home, AFWatch(f, id, tie, e), x, ops)
    requires Real(s, ops) != ops ==> Registered(s, home, x, ops)
    ensures var r := FWatchOp(c, k, s, f, id, tie, x, ops, e);
            FieldsKept(k, s, home, x, ops, r) && Real(r.s, r.ops) == Real(s, ops)
  {
    hide IdataOk, RefsOk, IdsOk, FieldsOk, LiveBut, Conserved, TablesOk, FWatchOp, FGetData, FieldWatched, Pristine;
    hide FieldsKept, SameReal, OpsOk, EnvOk, Registered, Real;
    var r := FWatchOp(c, k, s, f, id, tie, x, ops, e);
    FWatchOk(c, k, s, f, id, tie, x, ops, e);
    FieldInMemory(c, k, ops);
    var i := FindId(s.fw[f], id);
    if i >= 0 {
      FWatchAgain(c, k, s, f, id, tie, x, ops, e);
      if r.status == Already {
        OthersWatched(s.fw, f, i, r.ops, x);
        KeptByWatch(c, k, s, home, x, ops, r, f, i);
      } else {
        KeptAsIs(k, s, home, x, ops, r);
      }
    } else {
      FWatchNew(c, k, s, f, id, tie, x, ops, e);
      if r.status == Done {
        OthersAfter(s.fw, f, FWatch(id, tie, x, r.ops));
        KeptByWatch(c, k, s, home, x, ops, r, f, 0);
      } else {
        KeptAsIs(k, s, home, x, ops, r);
      }
    }
  }

  lemma FieldInMemory(c: Config, k: Kernel, ops: Addr)
    requires OpsOk(c, k, ops)
    ensures ops == NULL || ops in k.mem
  {
  }

  lemma OthersAfter(fw: map<FId, seq<FWatch>>, f: FId, w: FWatch)
    requires f in fw
    ensures forall g, j :: g in fw && 0 <= j < |fw[g]| ==> fw[g][j] in fw[f := [w] + fw[f]][g]
  {
    forall g, j | g in fw && 0 <= j < |fw[g]| ensures fw[g][j] in fw[f := [w] + fw[f]][g] {
      assert g == f ==> ([w] + fw[f])[j + 1] == fw[g][j];
    }
  }

  lemma OthersWithout(fw: map<FId, seq<FWatch>>, f: FId, i: nat)
    requires f in fw && i < |fw[f]|
    ensures forall g, j :: g in fw && 0 <= j < |fw[g]| && fw[g][j].field != fw[f][i].field ==>
      fw[g][j] in fw[f := Without(fw[f], i)][g]
  {
    forall g, j | g in fw && 0 <= j < |fw[g]| && fw[g][j].field != fw[f][i].field
      ensures fw[g][j] in fw[f := Without(fw[f], i)][g]
    {
      assert g == f ==> Without(fw[f], i)[if j < i then j else j - 1] == fw[g][j];
    }
  }

  /** A call that changes nothing. */
  lemma KeptAsIs(k: Kernel, s: Inst, home: Home, x: Field, ops: Addr, r: Out)
    requires r.k == k && r.s == s && r.ops == ops && (ops == NULL || ops in k.mem)
    requires Real(s, ops) != ops ==> Registered(s, home, x, ops)
    ensures FieldsKept(k, s, home, x, ops, r)
  {
  }

  /** A call after which a foreign watch of the field has what the field holds. */
  lemma KeptByWatch(c: Config, k: Kernel, s: Inst, home: Home, x: Field, ops: Addr, r: Out, f: FId, i: nat)
    requires Core(c, r.k, r.s) && SameReal(k, s, r.s) && r.s.objects == s.objects && r.ops in r.s.idatas
    requires f in r.s.fw && i < |r.s.fw[f]| && r.s.fw[f][i].idata == r.ops && r.s.fw[f][i].field == x
    requires forall g, j :: g in s.fw && 0 <= j < |s.fw[g]| && s.fw[g][j].field != x ==>
      g in r.s.fw && s.fw[g][j] in r.s.fw[g]
    ensures FieldsKept(k, s, home, x, ops, r) && Real(r.s, r.ops) == r.s.idatas[r.ops].orig
  {
    hide IdataOk, WatchesOk;
    OthersRegistered(s, r.s, home, x);
    RealIs(c, r.k, r.s, r.ops, r.ops);
    IdataInMemory(c, r.k, r.s, r.ops);
  }

  lemma FForgetFields(c: Config, k: Kernel, s: Inst, home: Home, f: FId, id: Id, x: Field, ops: Addr)
    requires Inv(c, k, s) && ActOk(c, k, s, home, AFForget(f, id), x, ops)
    requires Real(s, ops) != ops ==> Registered(s, home, x, ops)
    ensures var r := FForget(c, k, s, f, id, Some(ops));
            && FieldsKept(k, s, home, x, ops, r)
            && (Faithful(c, k, s, AFForget(f, id), ops) <==> Real(r.s, r.ops) == Real(s, ops))
  {
    hide Core, LiveBut, Conserved, FForget, FieldsKept, SameReal, OpsOk, Registered, Real;
    var r := FForget(c, k, s, f, id, Some(ops));
    FForgetOk(c, k, s, f, id, Some(ops));
    FForgetEffect(c, k, s, f, id, Some(ops));
    FieldInMemory(c, k, ops);
    CoreParts(c, k, s);
    var i := FindId(s.fw[f], id);
    if i >= 0 {
      var h := s.fw[f][i].idata;
      OthersWithout(s.fw, f, i);
      KeptByForget(c, k, s, home, x, ops, r, h);
      RealIs(c, k, s, h, ops);
    } else {
      KeptAsIs(k, s, home, x, ops, r);
    }
  }

  lemma CoreParts(c: Config, k: Kernel, s: Inst)
    requires Core(c, k, s)
    ensures TablesOk(c, k, s) && WatchesOk(c, s)
  {
  }

  /** A call that gives the field back its original. */
  lemma KeptByForget(c: Config, k: Kernel, s: Inst, home: Home, x: Field, ops: Addr, r: Out, h: Addr)
    requires Core(c, k, s) && Core(c, r.k, r.s) && SameReal(k, s, r.s) && Conserved(c, k, s, r.k, r.s)
    requires h in s.idatas && r.ops == s.idatas[h].orig && r.s.objects == s.objects
    requires forall g, j :: g in s.fw && 0 <= j < |s.fw[g]| && s.fw[g][j].field != x ==>
      g in r.s.fw && s.fw[g][j] in r.s.fw[g]
    ensures FieldsKept(k, s, home, x, ops, r) && Real(r.s, r.ops) == s.idatas[h].orig
  {
    hide Core, Conserved, SameReal, Real;
    CoreParts(c, r.k, r.s);
    OthersRegistered(s, r.s, home, x);
    OrigReal(c, k, s, r.k, r.s, h);
    OrigInMemory(c, k, s, r.k, r.s, home, x, h);
  }

  lemma BindFields(c: Config, k: Kernel, s: Inst, home: Home, f: FId, o: Obj, tie: Tie, x: Field, ops: Addr, off: nat,
      e: Env)
    requires Inv(c, k, s) && ActOk(c, k, s, home, ABind(f, o, tie, off, e), x, ops)
    requires Real(s, ops) != ops ==> Registered(s, home, x, ops)
    ensures var b := Bind(c, k, s, f, o, tie, ops, off, e);
            && FieldsKept(k, s, home, x, ops, Out(b.k, b.s, b.ops, b.status))
            && (Faithful(c, k, s, ABind(f, o, tie, off, e), ops) <==> Real(b.s, b.ops) == Real(s, ops))
  {
    hide IdataOk, RefsOk, IdsOk, FieldsOk, LiveBut, Conserved, TablesOk, Watch, GetData, Bind;
    BindState(c, k, s, f, o, tie, ops, off, e);
    if FindTie(s.fw[f], tie) >= 0 {
      WatchFields(c, k, s, home, o, x, ops, e);
      if o in s.objects { ObjectRef(c, s, o); }
      assert Faithful(c, k, s, ABind(f, o, tie, off, e), ops) <==> Faithful(c, k, s, AWatch(o, e), ops);
    } else if o in s.objects {
      ObjectRef(c, s, o);
      RealIs(c, k, s, s.objects[o], ops);
      IdataInMemory(c, k, s, s.objects[o]);
    } else if ops in s.table {
      RealIs(c, k, s, s.table[ops], ops);
      SelfConserved(c, k, s);
      OrigInMemory(c, k, s, k, s, home, x, s.table[ops]);
    }
  }

  // ---------------------------------------------------------------- where a field loses its operations

  /** Forgetting a foreign watch overwrites a field that was given other operations since. */
  lemma StaleForget(c: Config, k: Kernel, s: Inst, f: FId, id: Id, ops: Addr)
    requires Inv(c, k, s) && f in c.foreign && f in s.fw && FindId(s.fw[f], id) >= 0
    ensures var h := s.fw[f][FindId(s.fw[f], id)].idata;
      && h in s.idatas
      && (FForget(c, k, s, f, id, Some(ops)).ops != Real(s, ops) <==> !Mine(s.idatas[h], h, ops))
  {
    hide IdataOk, RefsOk, IdsOk, FieldsOk, LiveBut, FForget;
    FForgetEffect(c, k, s, f, id, Some(ops));
    RealIs(c, k, s, s.fw[f][FindId(s.fw[f], id)].idata, ops);
  }

  /** A watch of a watched object that fails puts back the operations it had BEFORE, not those it has. */
  lemma FailedUpdate(c: Config, k: Kernel, s: Inst, o: Obj, ops: Addr, e: Env)
    requires Inv(c, k, s) && OpsOk(c, k, ops) && EnvOk(k, e) && o in s.objects
    requires !Available(k, s, ops, e)
    ensures var h := s.objects[o];
      && h in s.idatas
      && (Watch(c, k, s, o, ops, e).status in {NoMem, Busy} <==> !Mine(s.idatas[h], h, ops))
      && (!Mine(s.idatas[h], h, ops) ==> Watch(c, k, s, o, ops, e).ops == s.idatas[h].orig != Real(s, ops))
  {
    hide IdataOk, RefsOk, IdsOk, FieldsOk, LiveBut, Watch, GetData;
    WatchAgain(c, k, s, o, ops, e);
    RealIs(c, k, s, s.objects[o], ops);
  }

  /** An ordinary object is forgotten with or without a field to put back: the struct is restored either way. */
  lemma ForgetWithoutField(c: Config, k: Kernel, s: Inst, o: Obj, ops: Addr)
    requires Inv(c, k, s)
    ensures var r, n := Forget(c, k, s, o, Some(ops)), Forget(c, k, s, o, None);
      n.k == r.k && n.s == r.s && Conserved(c, k, s, n.k, n.s)
  {
    hide Core, LiveBut, Conserved, Release;
    ForgetOk(c, k, s, o, None);
  }

  /**
    A direct object that is forgotten without restoring is forgotten all the same, but if nothing else
    needs its struct, and that is replaced in place, it is left as it was replaced.
  */
  lemma DirectNorestore(c: Config, k: Kernel, s: Inst, o: Obj)
    requires Inv(c, k, s) && o in s.objects
    ensures s.objects[o] in s.idatas && s.objects[o] in k.mem
    ensures ForgetDirect(c, k, s, o, false).status == ForgetDirect(c, k, s, o, true).status == Done
    ensures ForgetDirect(c, k, s, o, true).s.objects == s.objects - {o}
    ensures var h := s.objects[o];
      var d := s.idatas[h];
      var r, n := ForgetDirect(c, k, s, o, false), ForgetDirect(c, k, s, o, true);
      && n.s == r.s && n.k.owner == r.k.owner
      && Conserved(c, k, s, r.k, r.s)
      && r.k == Forget(c, k, s, o, None).k && r.s == Forget(c, k, s, o, None).s
      && (if h in r.s.idatas || !d.inPlace then n.k == r.k
          else r.k.mem == k.mem[h := d.saved] && n.k.mem == k.mem && k.mem[h] == Render(c, d.saved, []))
  {
    hide LiveBut, Conserved, Render, WatchesOk, TablesOk, Pristine;
    ForgetOk(c, k, s, o, None);
    DirectRef(c, s, o);
    assert IdataOk(c, k, s.objects[o], s.idatas[s.objects[o]]);
  }

  lemma DirectRef(c: Config, s: Inst, o: Obj)
    requires WatchesOk(c, s) && o in s.objects
    ensures s.objects[o] in s.idatas
  {
  }
}
