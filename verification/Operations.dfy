/**
  The calls of kedr_coi_instrumentors.c as functions on the engine's state.  An
  operations field `*ops_p` is passed in by value and its new value is returned.
*/
module Operations {
  import opened Options
  import opened Layers
  import opened Engine

  /** The outcome of a call: new state, new value of the operations field, return code. */
  datatype Out = Out(k: Kernel, s: Inst, ops: Addr, status: Status)

  // ---------------------------------------------------------------- normal watches

  ghost function Watch(c: Config, k: Kernel, s: Inst, o: Obj, ops: Addr, e: Env): Out
    requires ops == NULL || ops in k.mem
    requires Inv(c, k, s) && OpsOk(c, k, ops) && EnvOk(k, e)
  {
    GetDataOk(c, k, s, ops, e);
    var g := GetData(c, k, s, ops, e);
    if o in s.objects then
      var h := s.objects[o];
      if Mine(s.idatas[h], h, ops) then Out(k, s, h, Already)
      else if g.Failed? then
        // the watch is dropped, and the field gets the original operations of the OLD watch
        var r := Release(k, s.(objects := s.objects - {o}), h, true);
        Out(r.0, r.1, s.idatas[h].orig, g.status)
      else
        var r := Release(g.k, g.s.(objects := g.s.objects[o := g.h]), h, true);
        Out(r.0, r.1, g.h, Already)
    else if g.Failed? then Out(k, s, ops, g.status)
    else if !e.watch then
      var r := Release(g.k, g.s, g.h, true);
      Out(r.0, r.1, ops, NoMem)
    else Out(g.k, g.s.(objects := g.s.objects[o := g.h]), g.h, Done)
  }

  /** `ops` is None when the caller passes no field to restore. */
  ghost function Forget(c: Config, k: Kernel, s: Inst, o: Obj, ops: Option<Addr>): Out
    requires Core(c, k, s)
  {
    var given := if ops.Some? then ops.value else NULL;
    if o !in s.objects then Out(k, s, given, NotWatched)
    else
      var h := s.objects[o];
      var d := s.idatas[h];
      var r := Release(k, s.(objects := s.objects - {o}), h, true);
      Out(r.0, r.1, if ops.Some? && Mine(d, h, ops.value) then d.orig else given, Done)
  }

  /** An object that is its own operations struct; with `norestore` the struct is left replaced. */
  ghost function ForgetDirect(c: Config, k: Kernel, s: Inst, o: Obj, norestore: bool): Out
    requires Core(c, k, s)
  {
    if o !in s.objects then Out(k, s, o, NotWatched)
    else
      var r := Release(k, s.(objects := s.objects - {o}), s.objects[o], !norestore);
      Out(r.0, r.1, o, Done)
  }

  // ---------------------------------------------------------------- foreign watches

  ghost function FGetData(c: Config, k: Kernel, s: Inst, f: FId, ops: Addr, e: Env): Got
    requires ops == NULL || ops in k.mem
    requires Inv(c, k, s) && OpsOk(c, k, ops) && EnvOk(k, e)
  {
    GetDataOk(c, k, s, ops, e);
    if ops in s.table && f in s.idatas[s.table[ops]].layers then Got(k, s, s.table[ops])
    else
      var g := GetData(c, k, s, ops, e);
      if g.Failed? then g
      else if !e.layer then Failed(NoMem)   // the reference just taken is given back
      else var r := AddLayer(c, g.k, g.s, f, g.h); Got(r.0, r.1, g.h)
  }

  /** A layer is there, or the operations can be instrumented and there is memory for the layer. */
  predicate LayerAvailable(k: Kernel, s: Inst, f: FId, ops: Addr, e: Env) {
    (ops in s.table && s.table[ops] in s.idatas && f in s.idatas[s.table[ops]].layers) ||
      (Available(k, s, ops, e) && e.layer)
  }

  /** The newest watch that fits, or -1. */
  function FindFirst(ws: seq<FWatch>, fits: FWatch -> bool): (i: int)
    ensures -1 <= i < |ws|
    ensures i >= 0 ==> fits(ws[i]) && forall j :: 0 <= j < i ==> !fits(ws[j])
    ensures i < 0 ==> forall j :: 0 <= j < |ws| ==> !fits(ws[j])
  {
    if ws == [] then -1
    else if fits(ws[0]) then 0
    else var i := FindFirst(ws[1..], fits); if i < 0 then -1 else i + 1
  }

  function FindId(ws: seq<FWatch>, id: Id): (i: int)
    ensures -1 <= i < |ws|
    ensures i >= 0 ==> ws[i].id == id && forall j :: 0 <= j < i ==> ws[j].id != id
    ensures i < 0 ==> forall j :: 0 <= j < |ws| ==> ws[j].id != id
  {
    FindFirst(ws, (w: FWatch) => w.id == id)
  }

  /** The newest watch with a tie. */
  function FindTie(ws: seq<FWatch>, tie: Tie): (i: int)
    ensures -1 <= i < |ws|
    ensures i >= 0 ==> ws[i].tie == tie && forall j :: 0 <= j < i ==> ws[j].tie != tie
    ensures i < 0 ==> forall j :: 0 <= j < |ws| ==> ws[j].tie != tie
  {
    FindFirst(ws, (w: FWatch) => w.tie == tie)
  }

  ghost predicate HasField(fw: map<FId, seq<FWatch>>, x: Field) {
    exists f, i :: f in fw && 0 <= i < |fw[f]| && fw[f][i].field == x
  }

  ghost predicate FieldWatched(s: Inst, x: Field) {
    HasField(s.fw, x)
  }

  ghost function SetFw(s: Inst, f: FId, ws: seq<FWatch>): Inst {
    s.(fw := s.fw[f := ws])
  }

  /**
    Watch the field `x` under `id`.  When a known id comes with foreign operations that cannot be
    instrumented, the code reads through the error pointer it was just given: that is `Oops`.
  */
  ghost function FWatchOp(c: Config, k: Kernel, s: Inst, f: FId, id: Id, tie: Tie, x: Field, ops: Addr, e: Env): Out
    requires Inv(c, k, s) && f in c.foreign && OpsOk(c, k, ops) && EnvOk(k, e)
  {
    FGetDataOk(c, k, s, f, ops, e);
    var g := FGetData(c, k, s, f, ops, e);
    var ws := s.fw[f];
    var i := FindId(ws, id);
    if i >= 0 then
      var h := ws[i].idata;
      if Mine(s.idatas[h], h, ops) then Out(k, s, h, Already)
      else if g.Failed? then Out(k, s, ops, Oops)
      else
        var r := DropLayer(c, g.k, SetFw(g.s, f, ws[i := ws[i].(idata := g.h)]), f, h);
        Out(r.0, r.1, g.h, Already)
    else if FieldWatched(s, x) then Out(k, s, ops, Busy)
    else if g.Failed? then Out(k, s, ops, g.status)
    else if !e.watch then
      var r := DropLayer(c, g.k, g.s, f, g.h);
      Out(r.0, r.1, ops, NoMem)
    else Out(g.k, SetFw(g.s, f, [FWatch(id, tie, x, g.h)] + ws), g.h, Done)
  }

  ghost function FForget(c: Config, k: Kernel, s: Inst, f: FId, id: Id, ops: Option<Addr>): Out
    requires Core(c, k, s) && f in c.foreign
  {
    var ws := s.fw[f];
    var i := FindId(ws, id);
    var given := if ops.Some? then ops.value else NULL;
    if i < 0 then Out(k, s, given, NotWatched)
    else
      var h := ws[i].idata;
      var r := DropLayer(c, k, SetFw(s, f, Without(ws, i)), f, h);
      Out(r.0, r.1, if ops.Some? then s.idatas[h].orig else given, Done)
  }

  // ---------------------------------------------------------------- changing the watch tables

  /** Watch tables play no part in the rest of the invariant, nor in what is conserved. */
  lemma SwapWatches(c: Config, k: Kernel, s: Inst, s': Inst)
    requires Core(c, k, s) && WatchesOk(c, s')
    requires s'.idatas == s.idatas && s'.table == s.table
    ensures Core(c, k, s') && Conserved(c, k, s, k, s')
  {
    hide IdataOk, RefsOk, IdsOk, FieldsOk;
    SameUndone(k, s, k, s');
  }

  lemma ObjectsTables(c: Config, s: Inst, s': Inst)
    requires WatchesOk(c, s) && s' == s.(objects := s'.objects)
    requires forall o :: o in s'.objects ==> s'.objects[o] in s.idatas
    ensures WatchesOk(c, s')
  {
  }

  lemma DropObject(c: Config, k: Kernel, s: Inst, o: Obj)
    requires Core(c, k, s) && LiveBut(s, {}, {}) && o in s.objects
    ensures var s' := s.(objects := s.objects - {o});
            Core(c, k, s') && LiveBut(s', {s.objects[o]}, {}) && Conserved(c, k, s, k, s')
  {
    hide IdataOk, TablesOk, Conserved, IdsOk, FieldsOk;
    var s' := s.(objects := s.objects - {o});
    assert WatchesOk(c, s') by { ObjectsTables(c, s, s'); }
    SwapWatches(c, k, s, s');
    ObjectsLive(s, s', {o});
  }

  lemma PutObject(c: Config, k: Kernel, s: Inst, o: Obj, h: Addr)
    requires Core(c, k, s) && LiveBut(s, {h}, {}) && h in s.idatas
    ensures var s' := s.(objects := s.objects[o := h]);
            Core(c, k, s') && LiveBut(s', if o in s.objects then {s.objects[o]} else {}, {}) &&
              Conserved(c, k, s, k, s')
  {
    hide IdataOk, TablesOk, Conserved, IdsOk, FieldsOk;
    var s' := s.(objects := s.objects[o := h]);
    assert WatchesOk(c, s') by { ObjectsTables(c, s, s'); }
    SwapWatches(c, k, s, s');
    ObjectsLive(s, s', {o});
    assert s'.objects[o] == h;
  }

  /** Changing one object's watch: what other objects watch is still watched. */
  lemma ObjectsLive(s: Inst, s': Inst, changed: set<Obj>)
    requires s' == s.(objects := s'.objects)
    requires forall o :: o in s.objects && o !in changed ==> o in s'.objects && s'.objects[o] == s.objects[o]
    ensures forall h :: Watched(s, h) && (forall o :: o in changed && o in s.objects ==> s.objects[o] != h) ==>
      Watched(s', h)
    ensures forall f, h :: Held(s, f, h) <==> Held(s', f, h)
  {
    forall h | Watched(s, h) && (forall o :: o in changed && o in s.objects ==> s.objects[o] != h)
      ensures Watched(s', h)
    {
      var o :| o in s.objects && s.objects[o] == h;
      assert s'.objects[o] == h;
    }
  }

  /** Every watch of `s` is still there, but for the one at `(f, i)`. */
  ghost predicate KeepsWatches(s: Inst, s': Inst, f: FId, i: int) {
    && s' == s.(fw := s'.fw)
    && forall g, j :: g in s.fw && 0 <= j < |s.fw[g]| && (g != f || j != i) ==> g in s'.fw && s.fw[g][j] in s'.fw[g]
  }

  lemma FwLive(s: Inst, s': Inst, f: FId, i: int, ls: set<(Addr, FId)>, ls': set<(Addr, FId)>)
    requires KeepsWatches(s, s', f, i) && LiveBut(s, {}, ls)
    requires forall p :: p in ls ==> p in ls' || Held(s', p.1, p.0)
    requires f in s.fw && 0 <= i < |s.fw[f]| ==> (s.fw[f][i].idata, f) in ls'
    ensures LiveBut(s', {}, ls')
  {
    assert forall h :: Watched(s, h) ==> Watched(s', h);
    forall g: FId, h: Addr | Held(s, g, h) && (h, g) !in ls' ensures Held(s', g, h) {
      var j :| 0 <= j < |s.fw[g]| && s.fw[g][j].idata == h;
      assert s.fw[g][j] in s'.fw[g];
    }
  }

  /** With a new watch in front, every watch is that one or an old one. */
  lemma PutFwWatch(s: Inst, f: FId, w: FWatch, g: FId, i: nat)
    requires f in s.fw && g in s.fw && i < |SetFw(s, f, [w] + s.fw[f]).fw[g]|
    ensures var x, i' := SetFw(s, f, [w] + s.fw[f]).fw[g][i], if g == f then i - 1 else i;
      if g == f && i == 0 then x == w else 0 <= i' < |s.fw[g]| && x == s.fw[g][i']
  {
  }

  lemma PutFwTables(c: Config, s: Inst, f: FId, w: FWatch)
    requires WatchesOk(c, s) && f in s.fw && w.idata in s.idatas && f in s.idatas[w.idata].layers
    requires FindId(s.fw[f], w.id) < 0 && !FieldWatched(s, w.field)
    ensures WatchesOk(c, SetFw(s, f, [w] + s.fw[f]))
  {
    hide RefsOk, IdsOk, FieldsOk, FieldWatched, FindId;
    var s' := SetFw(s, f, [w] + s.fw[f]);
    assert RefsOk(s') by { PutFwRefs(s, f, w); }
    assert IdsOk(s') by { PutFwIds(s, f, w); }
    assert FieldsOk(s') by { PutFwFields(s, f, w); }
  }

  lemma PutFwRefs(s: Inst, f: FId, w: FWatch)
    requires RefsOk(s) && f in s.fw && w.idata in s.idatas && f in s.idatas[w.idata].layers
    ensures RefsOk(SetFw(s, f, [w] + s.fw[f]))
  {
  }

  lemma PutFwIds(s: Inst, f: FId, w: FWatch)
    requires IdsOk(s) && f in s.fw && FindId(s.fw[f], w.id) < 0
    ensures IdsOk(SetFw(s, f, [w] + s.fw[f]))
  {
    var s' := SetFw(s, f, [w] + s.fw[f]);
    hide SetFw;
    forall g, i, j | g in s'.fw && 0 <= i < j < |s'.fw[g]| ensures s'.fw[g][i].id != s'.fw[g][j].id {
      PutFwWatch(s, f, w, g, i);
      PutFwWatch(s, f, w, g, j);
    }
  }

  lemma PutFwFields(s: Inst, f: FId, w: FWatch)
    requires FieldsOk(s) && f in s.fw && !FieldWatched(s, w.field)
    ensures FieldsOk(SetFw(s, f, [w] + s.fw[f]))
  {
    var s' := SetFw(s, f, [w] + s.fw[f]);
    forall g, h, i, j |
      g in s'.fw && h in s'.fw && 0 <= i < |s'.fw[g]| && 0 <= j < |s'.fw[h]| && s'.fw[g][i].field == s'.fw[h][j].field
      ensures g == h && i == j
    {
      PutFwWatch(s, f, w, g, i);
      PutFwWatch(s, f, w, h, j);
    }
  }

  lemma PutFw(c: Config, k: Kernel, s: Inst, f: FId, w: FWatch)
    requires Core(c, k, s) && LiveBut(s, {}, {(w.idata, f)}) && f in c.foreign
    requires w.idata in s.idatas && f in s.idatas[w.idata].layers
    requires FindId(s.fw[f], w.id) < 0 && !FieldWatched(s, w.field)
    ensures var s' := SetFw(s, f, [w] + s.fw[f]);
            Core(c, k, s') && LiveBut(s', {}, {}) && Conserved(c, k, s, k, s')
  {
    hide IdataOk, TablesOk, Conserved, RefsOk, IdsOk, FieldsOk, FieldWatched, LiveBut;
    var s' := SetFw(s, f, [w] + s.fw[f]);
    PutFwTables(c, s, f, w);
    SwapWatches(c, k, s, s');
    assert s'.fw[f][0].idata == w.idata;
    FwLive(s, s', f, -1, {(w.idata, f)}, {});
  }

  lemma MoveFwTables(c: Config, s: Inst, f: FId, i: nat, h: Addr)
    requires WatchesOk(c, s) && f in s.fw && i < |s.fw[f]| && h in s.idatas && f in s.idatas[h].layers
    ensures WatchesOk(c, SetFw(s, f, s.fw[f][i := s.fw[f][i].(idata := h)]))
  {
    var s' := SetFw(s, f, s.fw[f][i := s.fw[f][i].(idata := h)]);
    assert forall g, j :: g in s.fw && 0 <= j < |s.fw[g]| ==>
      s'.fw[g][j].field == s.fw[g][j].field && s'.fw[g][j].id == s.fw[g][j].id;
    assert RefsOk(s') && IdsOk(s') && FieldsOk(s');
  }

  /** Moving a watch to another idata may leave the old layer unneeded. */
  lemma MoveFw(c: Config, k: Kernel, s: Inst, f: FId, i: nat, h: Addr)
    requires Core(c, k, s) && LiveBut(s, {}, {(h, f)}) && f in c.foreign && i < |s.fw[f]|
    requires h in s.idatas && f in s.idatas[h].layers
    ensures var s' := SetFw(s, f, s.fw[f][i := s.fw[f][i].(idata := h)]);
            Core(c, k, s') && LiveBut(s', {}, {(s.fw[f][i].idata, f)}) && Conserved(c, k, s, k, s')
  {
    hide IdataOk, TablesOk, Conserved, RefsOk, IdsOk, FieldsOk, LiveBut;
    var s' := SetFw(s, f, s.fw[f][i := s.fw[f][i].(idata := h)]);
    MoveFwTables(c, s, f, i, h);
    SwapWatches(c, k, s, s');
    assert s'.fw[f][i].idata == h;
    assert forall j :: 0 <= j < |s.fw[f]| && j != i ==> s'.fw[f][j] == s.fw[f][j];
    FwLive(s, s', f, i, {(h, f)}, {(s.fw[f][i].idata, f)});
  }

  /** With a watch taken out, every watch is an old one, and they keep their order. */
  function TakenFrom(f: FId, i: nat, g: FId, j: nat): nat {
    if g == f && j >= i then j + 1 else j
  }

  lemma TakeFwWatch(s: Inst, f: FId, i: nat, g: FId, j: nat)
    requires f in s.fw && i < |s.fw[f]| && g in s.fw && j < |SetFw(s, f, Without(s.fw[f], i)).fw[g]|
    ensures var j' := TakenFrom(f, i, g, j);
      j' < |s.fw[g]| && SetFw(s, f, Without(s.fw[f], i)).fw[g][j] == s.fw[g][j']
  {
  }

  lemma TakeFwTables(c: Config, s: Inst, f: FId, i: nat)
    requires WatchesOk(c, s) && f in s.fw && i < |s.fw[f]|
    ensures WatchesOk(c, SetFw(s, f, Without(s.fw[f], i)))
  {
    var s' := SetFw(s, f, Without(s.fw[f], i));
    assert s'.fw.Keys == s.fw.Keys && s'.idatas == s.idatas && s'.objects == s.objects;
    hide SetFw, Without;
    forall g, j | g in s'.fw && 0 <= j < |s'.fw[g]|
      ensures s'.fw[g][j].idata in s'.idatas && g in s'.idatas[s'.fw[g][j].idata].layers
    {
      TakeFwWatch(s, f, i, g, j);
    }
    assert IdsOk(s') && FieldsOk(s') by { TakeFwDistinct(s, f, i); }
  }

  lemma TakeFwDistinct(s: Inst, f: FId, i: nat)
    requires IdsOk(s) && FieldsOk(s) && f in s.fw && i < |s.fw[f]|
    ensures var s' := SetFw(s, f, Without(s.fw[f], i)); IdsOk(s') && FieldsOk(s')
  {
    var s' := SetFw(s, f, Without(s.fw[f], i));
    assert s'.fw.Keys == s.fw.Keys;
    hide SetFw, Without;
    forall g, j, l | g in s'.fw && 0 <= j < l < |s'.fw[g]| ensures s'.fw[g][j].id != s'.fw[g][l].id {
      TakeFwWatch(s, f, i, g, j);
      TakeFwWatch(s, f, i, g, l);
    }
    forall g, h, j, l |
      g in s'.fw && h in s'.fw && 0 <= j < |s'.fw[g]| && 0 <= l < |s'.fw[h]| && s'.fw[g][j].field == s'.fw[h][l].field
      ensures g == h && j == l
    {
      TakeFwWatch(s, f, i, g, j);
      TakeFwWatch(s, f, i, h, l);
    }
  }

  lemma TakeFw(c: Config, k: Kernel, s: Inst, f: FId, i: nat)
    requires Core(c, k, s) && LiveBut(s, {}, {}) && f in c.foreign && i < |s.fw[f]|
    ensures var s' := SetFw(s, f, Without(s.fw[f], i));
            Core(c, k, s') && LiveBut(s', {}, {(s.fw[f][i].idata, f)}) && Conserved(c, k, s, k, s')
  {
    hide IdataOk, TablesOk, Conserved, RefsOk, IdsOk, FieldsOk, LiveBut;
    var s' := SetFw(s, f, Without(s.fw[f], i));
    TakeFwTables(c, s, f, i);
    SwapWatches(c, k, s, s');
    forall j | 0 <= j < |s.fw[f]| && j != i ensures s.fw[f][j] in s'.fw[f] {
      assert s'.fw[f][if j < i then j else j - 1] == s.fw[f][j];
    }
    FwLive(s, s', f, i, {}, {(s.fw[f][i].idata, f)});
  }

  // ---------------------------------------------------------------- the calls keep the invariant

  lemma FGetDataWhen(c: Config, k: Kernel, s: Inst, f: FId, ops: Addr, e: Env)
    requires Inv(c, k, s) && f in c.foreign && OpsOk(c, k, ops) && EnvOk(k, e)
    ensures var g := FGetData(c, k, s, f, ops, e);
      && (g.Got? <==> LayerAvailable(k, s, f, ops, e))
      && (g.Failed? ==> g.status == Refusal(k, s, ops, e))
  {
    hide Core, LiveBut, Conserved, Held, Watched, GetData, AddLayer, Available, Refusal;
    GetDataOk(c, k, s, ops, e);
    FoundIdata(c, k, s, ops);
    TableAvailable(k, s, ops, e);
  }

  lemma FGetDataOk(c: Config, k: Kernel, s: Inst, f: FId, ops: Addr, e: Env)
    requires Inv(c, k, s) && f in c.foreign && OpsOk(c, k, ops) && EnvOk(k, e)
    ensures var g := FGetData(c, k, s, f, ops, e);
            && (g.Got? <==> LayerAvailable(k, s, f, ops, e))
            && (g.Failed? ==> g.status == Refusal(k, s, ops, e))
            && (g.Got? ==>
              && Core(c, g.k, g.s) && LiveBut(g.s, {}, {(g.h, f)}) && Conserved(c, k, s, g.k, g.s)
              && g.h in g.s.idatas && Mine(g.s.idatas[g.h], g.h, ops)
              && (ops in s.table ==> g.h == s.table[ops])
              && g.s.idatas[g.h].layers == LayersWith(if g.h in s.idatas then s.idatas[g.h].layers else [], f)
              && g.s.objects == s.objects && g.s.fw == s.fw
              && (forall h :: h in s.idatas ==> h in g.s.idatas && g.s.idatas[h].orig == s.idatas[h].orig)
              && (forall h :: h in s.idatas && h != g.h ==> g.s.idatas[h] == s.idatas[h]))
  {
    hide Core, Conserved, Held, Watched, GetData, AddLayer, Available, LayerAvailable, Refusal;
    FGetDataWhen(c, k, s, f, ops, e);
    GetDataOk(c, k, s, ops, e);
    FoundIdata(c, k, s, ops);
    var g0 := GetData(c, k, s, ops, e);
    if ops in s.table && f in s.idatas[s.table[ops]].layers {
      SelfConserved(c, k, s);
    } else if g0.Got? && e.layer {
      hide LiveBut;
      AddLayerOk(c, g0.k, g0.s, f, g0.h);
      AddLayerIs(c, g0.k, g0.s, f, g0.h);
      ConservedTwice(c, k, s, g0.k, g0.s, FGetData(c, k, s, f, ops, e).k, FGetData(c, k, s, f, ops, e).s);
    }
  }

  /** A layer is put on top, once. */
  function LayersWith(layers: seq<FId>, f: FId): seq<FId> {
    if f in layers then layers else layers + [f]
  }

  lemma TableAvailable(k: Kernel, s: Inst, ops: Addr, e: Env)
    ensures ops in s.table ==> Available(k, s, ops, e) && Refusal(k, s, ops, e) == NoMem
    ensures Available(k, s, ops, e) ==> Refusal(k, s, ops, e) == NoMem
  {
  }

  lemma FoundIdata(c: Config, k: Kernel, s: Inst, ops: Addr)
    requires Core(c, k, s)
    ensures ops in s.table ==> s.table[ops] in s.idatas && Mine(s.idatas[s.table[ops]], s.table[ops], ops)
  {
  }

  lemma SelfConserved(c: Config, k: Kernel, s: Inst)
    ensures Conserved(c, k, s, k, s)
  {
  }

  lemma ConservedTwice(c: Config, k: Kernel, s: Inst, k1: Kernel, s1: Inst, k2: Kernel, s2: Inst)
    requires Conserved(c, k, s, k1, s1) && Conserved(c, k1, s1, k2, s2)
    ensures Conserved(c, k, s, k2, s2)
  {
  }

  lemma AddLayerIs(c: Config, k: Kernel, s: Inst, f: FId, h: Addr)
    requires h in s.idatas
    ensures var s' := AddLayer(c, k, s, f, h).1;
            && s'.objects == s.objects && s'.fw == s.fw && s'.idatas.Keys == s.idatas.Keys
            && s'.idatas[h].orig == s.idatas[h].orig && s'.idatas[h].layers == s.idatas[h].layers + [f]
            && forall h' :: h' in s.idatas && h' != h ==> s'.idatas[h'] == s.idatas[h']
  {
  }

  /** Giving back a foreign reference just taken leaves no trace. */
  lemma FGetDataUndo(c: Config, k: Kernel, s: Inst, f: FId, ops: Addr, e: Env)
    requires Inv(c, k, s) && f in c.foreign && OpsOk(c, k, ops) && EnvOk(k, e)
    ensures var g := FGetData(c, k, s, f, ops, e);
            g.Got? ==> g.h in g.s.idatas && f in g.s.idatas[g.h].layers && DropLayer(c, g.k, g.s, f, g.h) == (k, s)
  {
    hide IdataOk, WatchesOk, Undone, Others, Watched, GetData;
    GetDataOk(c, k, s, ops, e);
    FGetDataOk(c, k, s, f, ops, e);
    var g0 := GetData(c, k, s, ops, e);
    var g := FGetData(c, k, s, f, ops, e);
    if ops in s.table && f in s.idatas[s.table[ops]].layers {
      assert Held(s, f, g.h) by { assert LiveBut(s, {}, {}); }
    } else if g.Got? {
      assert !Held(g.s, f, g.h) by { NotHeld(c, g0.s, g.s, f, g.h); }
      AddDrop(c, g0.k, g0.s, f, g0.h);
    }
  }

  lemma NotHeld(c: Config, s: Inst, s': Inst, f: FId, h: Addr)
    requires WatchesOk(c, s) && h in s.idatas && f !in s.idatas[h].layers && s'.fw == s.fw
    ensures !Held(s', f, h)
  {
  }

  lemma AddDrop(c: Config, k: Kernel, s: Inst, f: FId, h: Addr)
    requires Core(c, k, s) && h in s.idatas && f !in s.idatas[h].layers
    requires var r := AddLayer(c, k, s, f, h); !Held(r.1, f, h)
    ensures var r := AddLayer(c, k, s, f, h); DropLayer(c, r.0, r.1, f, h) == Release(k, s, h, true)
  {
    hide TablesOk, WatchesOk, Render, Release;
    assert IdataOk(c, k, h, s.idatas[h]);
    var d := s.idatas[h];
    var layers := d.layers + [f];
    assert layers[|d.layers|] == f && IndexOf(layers, f) == |d.layers|;
    assert Without(layers, |d.layers|) == d.layers;
    assert k.mem[h := Render(c, d.saved, layers)][h := Render(c, d.saved, d.layers)] == k.mem;
    assert s.idatas[h := d.(layers := layers)][h := d] == s.idatas;
  }

  lemma WatchOk(c: Config, k: Kernel, s: Inst, o: Obj, ops: Addr, e: Env)
    requires Inv(c, k, s) && OpsOk(c, k, ops) && EnvOk(k, e)
    ensures var r := Watch(c, k, s, o, ops, e); Inv(c, r.k, r.s) && Conserved(c, k, s, r.k, r.s)
  {
    hide IdataOk, TablesOk, Undone, Others, Watched, Held, LiveBut, GetData;
    GetDataOk(c, k, s, ops, e);
    var g := GetData(c, k, s, ops, e);
    if o in s.objects {
      var h := s.objects[o];
      if !Mine(s.idatas[h], h, ops) {
        if g.Failed? {
          DropObject(c, k, s, o);
          ReleaseOk(c, k, s.(objects := s.objects - {o}), h);
        } else {
          PutObject(c, g.k, g.s, o, g.h);
          ReleaseOk(c, g.k, g.s.(objects := g.s.objects[o := g.h]), h);
        }
      }
    } else if g.Got? {
      PutObject(c, g.k, g.s, o, g.h);
    }
  }

  lemma ForgetOk(c: Config, k: Kernel, s: Inst, o: Obj, ops: Option<Addr>)
    requires Inv(c, k, s)
    ensures var r := Forget(c, k, s, o, ops); Inv(c, r.k, r.s) && Conserved(c, k, s, r.k, r.s)
  {
    hide IdataOk, TablesOk, Undone, Others, Watched, Held, LiveBut;
    if o in s.objects {
      DropObject(c, k, s, o);
      ReleaseOk(c, k, s.(objects := s.objects - {o}), s.objects[o]);
    }
  }

  lemma WatchRef(c: Config, s: Inst, f: FId, i: nat)
    requires WatchesOk(c, s) && f in s.fw && i < |s.fw[f]|
    ensures s.fw[f][i].idata in s.idatas && f in s.idatas[s.fw[f][i].idata].layers
  {
  }

  lemma FWatchOk(c: Config, k: Kernel, s: Inst, f: FId, id: Id, tie: Tie, x: Field, ops: Addr, e: Env)
    requires Inv(c, k, s) && f in c.foreign && OpsOk(c, k, ops) && EnvOk(k, e)
    ensures var r := FWatchOp(c, k, s, f, id, tie, x, ops, e); Inv(c, r.k, r.s) && Conserved(c, k, s, r.k, r.s)
  {
    hide IdataOk, TablesOk, Undone, Others, Watched, Held, LiveBut, RefsOk, FieldsOk, IdsOk, FGetData, HasField,
      DropLayer;
    FGetDataOk(c, k, s, f, ops, e);
    var g := FGetData(c, k, s, f, ops, e);
    var i := FindId(s.fw[f], id);
    if i >= 0 {
      WatchRef(c, s, f, i);
      var h := s.fw[f][i].idata;
      if g.Got? && !Mine(s.idatas[h], h, ops) {
        MoveFw(c, g.k, g.s, f, i, g.h);
        DropLayerOk(c, g.k, SetFw(g.s, f, s.fw[f][i := s.fw[f][i].(idata := g.h)]), f, h);
      }
    } else if g.Got? && !FieldWatched(s, x) {
      if e.watch {
        PutFw(c, g.k, g.s, f, FWatch(id, tie, x, g.h));
      } else {
        DropLayerOk(c, g.k, g.s, f, g.h);
      }
    }
  }

  lemma FForgetOk(c: Config, k: Kernel, s: Inst, f: FId, id: Id, ops: Option<Addr>)
    requires Inv(c, k, s) && f in c.foreign
    ensures var r := FForget(c, k, s, f, id, ops); Inv(c, r.k, r.s) && Conserved(c, k, s, r.k, r.s)
  {
    hide IdataOk, TablesOk, Undone, Others, Watched, Held, LiveBut, FieldsOk, IdsOk;
    var i := FindId(s.fw[f], id);
    if i >= 0 {
      TakeFw(c, k, s, f, i);
      DropLayerOk(c, k, SetFw(s, f, Without(s.fw[f], i)), f, s.fw[f][i].idata);
    }
  }
}
