/**
  What happens when somebody calls an operation of an instrumented object.

  A replacement of the normal instrumentor asks for the original operation and calls
  it; a replacement of a foreign instrumentor binds the object and calls what bind
  says comes next.  Following these steps always ends at the original operation.
*/
module Dispatch {
  import opened Options
  import opened Layers
  import opened Engine
  import opened Operations

  /** What a replacement function is told to call: None stands for an error pointer. */
  datatype Answer = Answer(status: Status, op: Option<Fn>)

  datatype Bound = Bound(k: Kernel, s: Inst, ops: Addr, status: Status, chained: Option<Fn>, orig: Option<Fn>)

  // ---------------------------------------------------------------- the two queries

  /** No data for `ops`: read the slot, but never hand out one of the instrumentor's own replacements. */
  ghost function NoData(rs: Replacements, k: Kernel, ops: Addr, off: nat): (a: Answer)
    requires ops != NULL ==> ops in k.mem && off < |k.mem[ops]|
    ensures a.op.Some? ==> !IsEntry(rs, a.op.value)
  {
    if ops == NULL then Answer(Oops, None)
    else if IsEntry(rs, k.mem[ops][off]) then Answer(Lost, None)
    else Answer(NotWatched, Some(k.mem[ops][off]))
  }

  ghost function GetOrig(c: Config, k: Kernel, s: Inst, o: Obj, ops: Addr, off: nat): Answer
    requires Core(c, k, s) && off < c.size
    requires ops != NULL ==> ops in k.mem && |k.mem[ops]| == c.size
  {
    if o in s.objects then Answer(Done, Some(SavedOp(c, k, s, s.objects[o], off)))
    else if ops in s.table then Answer(NotWatched, Some(SavedOp(c, k, s, s.table[ops], off)))
    else NoData(c.normal, k, ops, off)
  }

  ghost function SavedOp(c: Config, k: Kernel, s: Inst, h: Addr, off: nat): Fn
    requires Core(c, k, s) && h in s.idatas && off < c.size
  {
    assert IdataOk(c, k, h, s.idatas[h]);
    s.idatas[h].saved[off]
  }

  /** What the slot would hold with the normal instrumentor alone. */
  ghost function NormalOp(c: Config, k: Kernel, s: Inst, h: Addr, off: nat): Fn
    requires Core(c, k, s) && h in s.idatas && off < c.size
  {
    Slot([c.normal], off, SavedOp(c, k, s, h, off))
  }

  /** What layer `f` put its replacement over, the normal replacement not counted. */
  ghost function ChainOp(c: Config, k: Kernel, s: Inst, h: Addr, f: FId, off: nat): Fn
    requires Core(c, k, s) && h in s.idatas && off < c.size && f in s.idatas[h].layers
  {
    var layers := s.idatas[h].layers;
    Slot(Lists(c, layers[..IndexOf(layers, f)]), off, SavedOp(c, k, s, h, off))
  }

  ghost function Bind(c: Config, k: Kernel, s: Inst, f: FId, o: Obj, tie: Tie, ops: Addr, off: nat, e: Env): Bound
    requires Inv(c, k, s) && f in c.foreign && OpsOk(c, k, ops) && EnvOk(k, e) && off < c.size
  {
    var t := FindTie(s.fw[f], tie);
    if t >= 0 then
      var h := s.fw[f][t].idata;
      var r := Watch(c, k, s, o, ops, e);
      Bound(r.k, r.s, r.ops, r.status, Some(NormalOp(c, k, s, h, off)), Some(SavedOp(c, k, s, h, off)))
    else if o in s.objects then
      var h := s.objects[o];
      assert IdataOk(c, k, h, s.idatas[h]);
      if f in s.idatas[h].layers then
        Bound(k, s, h, Already, Some(NormalOp(c, k, s, h, off)), Some(SavedOp(c, k, s, h, off)))
      else
        var a := NoData(c.foreign[f], k, h, off);
        Bound(k, s, h, if a.op.Some? then Already else Oops, a.op, Some(SavedOp(c, k, s, h, off)))
    else if ops in s.table then
      var h := s.table[ops];
      assert IdataOk(c, k, h, s.idatas[h]);
      if f in s.idatas[h].layers then
        Bound(k, s, ops, Already, Some(ChainOp(c, k, s, h, f, off)), Some(SavedOp(c, k, s, h, off)))
      else
        var ops' := s.idatas[h].orig;
        var a := NoData(c.foreign[f], k, ops', off);
        Bound(k, s, ops', if a.op.Some? then Already else Oops, a.op, Some(SavedOp(c, k, s, h, off)))
    else
      var a := NoData(c.foreign[f], k, ops, off);
      Bound(k, s, ops, if a.op.Some? then Already else a.status, a.op, a.op)
  }

  /** What a bind does to the state and the field, whatever it answers. */
  lemma BindState(c: Config, k: Kernel, s: Inst, f: FId, o: Obj, tie: Tie, ops: Addr, off: nat, e: Env)
    requires Inv(c, k, s) && f in c.foreign && OpsOk(c, k, ops) && EnvOk(k, e) && off < c.size
    ensures f in s.fw && (ops in s.table ==> s.table[ops] in s.idatas)
    ensures var b := Bind(c, k, s, f, o, tie, ops, off, e);
            if FindTie(s.fw[f], tie) >= 0 then
              Watch(c, k, s, o, ops, e) == Out(b.k, b.s, b.ops, b.status)
            else
              && b.k == k && b.s == s
              && (b.ops == if o in s.objects then s.objects[o]
                           else if ops in s.table && f !in s.idatas[s.table[ops]].layers
                             then s.idatas[s.table[ops]].orig
                           else ops)
  {
    hide Core, LiveBut, Inv, SavedOp, NormalOp, ChainOp, Watch, OpsOk;
    BindRefs(c, k, s, f, ops);
  }

  lemma BindRefs(c: Config, k: Kernel, s: Inst, f: FId, ops: Addr)
    requires Inv(c, k, s) && f in c.foreign
    ensures f in s.fw && (ops in s.table ==> s.table[ops] in s.idatas)
  {
  }

  // ---------------------------------------------------------------- slots of a replaced struct

  lemma SlotOf(c: Config, k: Kernel, s: Inst, h: Addr, off: nat)
    requires Core(c, k, s) && h in s.idatas && off < c.size
    ensures |s.idatas[h].saved| == c.size && h in k.mem && |k.mem[h]| == c.size
    ensures !IsReplacement(c, s.idatas[h].saved[off])
    ensures k.mem[h][off] == Slot(Stack(c, s.idatas[h].layers), off, s.idatas[h].saved[off])
    ensures Separate(Stack(c, s.idatas[h].layers), off, s.idatas[h].saved[off])
  {
    assert IdataOk(c, k, h, s.idatas[h]);
    SeparateStack(c, s.idatas[h].saved, s.idatas[h].layers, off);
  }

  lemma SavedPristine(c: Config, k: Kernel, s: Inst, h: Addr, off: nat)
    requires Core(c, k, s) && h in s.idatas && off < c.size
    ensures !IsReplacement(c, SavedOp(c, k, s, h, off)) && WfConfig(c)
  {
    assert IdataOk(c, k, h, s.idatas[h]);
  }

  lemma EntryOwner(c: Config, f: FId, g: FId, off: nat, off': nat)
    requires WfConfig(c) && f in c.foreign
    requires Entry(c.foreign[f], off).Some?
    ensures IsEntry(c.foreign[f], Entry(c.foreign[f], off).value.repl)
    ensures !IsEntry(c.normal, Entry(c.foreign[f], off).value.repl)
    ensures g in c.foreign && g != f ==> !IsEntry(c.foreign[g], Entry(c.foreign[f], off).value.repl)
  {
    EntryIn(c.foreign[f], off);
  }

  // ---------------------------------------------------------------- following a call

  /**
    The object's operations pointer belongs to the live idata `h`, which is also what the object is
    watched through, if it is watched, and what any watch found by the object's ties is for.
  */
  ghost predicate Bearing(c: Config, k: Kernel, s: Inst, o: Obj, ties: map<FId, Tie>, h: Addr, ops: Addr) {
    && Inv(c, k, s) && ties.Keys == c.foreign.Keys
    && h in s.idatas && Mine(s.idatas[h], h, ops) && ops != NULL
    && (o in s.objects ==> s.objects[o] == h)
    && forall g, t :: g in c.foreign && t == FindTie(s.fw[g], ties[g]) && t >= 0 ==> s.fw[g][t].idata == h
  }

  lemma BearingOps(c: Config, k: Kernel, s: Inst, o: Obj, ties: map<FId, Tie>, h: Addr, ops: Addr)
    requires Bearing(c, k, s, o, ties, h, ops)
    ensures ops in s.table && s.table[ops] == h && OpsOk(c, k, ops) && h != NULL
    ensures s.fw.Keys == c.foreign.Keys && LayersOk(c, s.idatas[h].layers)
  {
    assert IdataOk(c, k, h, s.idatas[h]);
  }

  /** The only thing left to chance in a bind of an instrumented object. */
  function Luck(watch: bool): Env {
    Env(false, false, NULL, watch, false)
  }

  /** Watching an object whose operations are instrumented already creates and destroys nothing. */
  lemma WatchInstrumented(c: Config, k: Kernel, s: Inst, o: Obj, ops: Addr, h: Addr, e: Env)
    requires Inv(c, k, s) && OpsOk(c, k, ops) && EnvOk(k, e)
    requires h in s.idatas && s.idatas[h].layers != [] && ops in s.table && s.table[ops] == h
    requires o in s.objects ==> s.objects[o] == h
    ensures var r := Watch(c, k, s, o, ops, e);
            && r.k == k && r.s == (if e.watch || o in s.objects then s.(objects := s.objects[o := h]) else s)
            && r.ops == (if o in s.objects || e.watch then h else ops)
            && r.status == (if o in s.objects then Already else if e.watch then Done else NoMem)
  {
    hide IdataOk, LiveBut, WatchesOk;
    assert TablesOk(c, k, s);
    if o in s.objects {
      assert s.objects[o := h] == s.objects;
    }
  }

  lemma BindOk(c: Config, k: Kernel, s: Inst, f: FId, o: Obj, tie: Tie, ops: Addr, off: nat, e: Env)
    requires Inv(c, k, s) && f in c.foreign && OpsOk(c, k, ops) && EnvOk(k, e) && off < c.size
    ensures var b := Bind(c, k, s, f, o, tie, ops, off, e); Inv(c, b.k, b.s) && Conserved(c, k, s, b.k, b.s)
  {
    hide Core, LiveBut, Conserved, Watch, Bind, OpsOk, EnvOk;
    BindState(c, k, s, f, o, tie, ops, off, e);
    if FindTie(s.fw[f], tie) >= 0 {
      WatchOk(c, k, s, o, ops, e);
    } else {
      SelfConserved(c, k, s);
    }
  }

  /** What the normal list alone makes of a slot. */
  ghost function NormalOver(c: Config, off: nat, orig: Fn): Fn {
    if Active(c.normal, off, orig) then Entry(c.normal, off).value.repl else orig
  }

  /** `f` replaces the slot in the topmost of these layers that replaces it at all; it is the original if none does. */
  ghost predicate TopmostOf(c: Config, layers: seq<FId>, off: nat, orig: Fn, f: Fn) {
    || (f == orig && forall i :: 0 <= i < |layers| ==> !Active(ListOf(c, layers[i]), off, orig))
    || (exists i :: 0 <= i < |layers| && ReplacesAt(c, layers, off, orig, f, i))
  }

  ghost predicate ReplacesAt(c: Config, layers: seq<FId>, off: nat, orig: Fn, f: Fn, i: nat)
    requires i < |layers|
  {
    && Active(ListOf(c, layers[i]), off, orig) && f == Entry(ListOf(c, layers[i]), off).value.repl
    && forall j :: i < j < |layers| ==> !Active(ListOf(c, layers[j]), off, orig)
  }

  lemma NormalOpIs(c: Config, k: Kernel, s: Inst, h: Addr, off: nat)
    requires Core(c, k, s) && h in s.idatas && off < c.size
    ensures |s.idatas[h].saved| == c.size && SavedOp(c, k, s, h, off) == s.idatas[h].saved[off]
    ensures NormalOp(c, k, s, h, off) == NormalOver(c, off, s.idatas[h].saved[off])
  {
    assert IdataOk(c, k, h, s.idatas[h]);
    NormalAlone(c.normal, off, s.idatas[h].saved[off]);
  }

  /** The slot that some layers make, from the topmost active one. */
  lemma {:induction false} LayersSlot(c: Config, layers: seq<FId>, off: nat, orig: Fn)
    ensures TopmostOf(c, layers, off, orig, Slot(Lists(c, layers), off, orig))
  {
    var stack := Lists(c, layers);
    SlotIsTopmost(stack, off, orig);
    var t := TopActive(stack, off, orig);
    assert forall i :: 0 <= i < |layers| ==> stack[i] == ListOf(c, layers[i]);
    hide Slot, Active, Lists;
    if t >= 0 {
      assert ReplacesAt(c, layers, off, orig, Slot(stack, off, orig), t);
    } else {
      assert forall i :: 0 <= i < |stack| ==> !Active(stack[i], off, orig);
      assert forall i :: 0 <= i < |layers| ==> !Active(ListOf(c, layers[i]), off, orig);
    }
  }

  lemma ChainOpIs(c: Config, k: Kernel, s: Inst, h: Addr, f: FId, off: nat)
    requires Core(c, k, s) && h in s.idatas && off < c.size && f in s.idatas[h].layers
    ensures |s.idatas[h].saved| == c.size
    ensures var layers := s.idatas[h].layers;
      TopmostOf(c, layers[..IndexOf(layers, f)], off, s.idatas[h].saved[off], ChainOp(c, k, s, h, f, off))
    ensures !IsEntry(c.normal, ChainOp(c, k, s, h, f, off))
  {
    var layers := s.idatas[h].layers;
    var below, orig := layers[..IndexOf(layers, f)], SavedOp(c, k, s, h, off);
    NormalOpIs(c, k, s, h, off);
    SavedPristine(c, k, s, h, off);
    LayersSlot(c, below, off, orig);
    var op := ChainOp(c, k, s, h, f, off);
    if i :| 0 <= i < |below| && ReplacesAt(c, below, off, orig, op, i) {
      assert below[i] in c.foreign by { assert IdataOk(c, k, h, s.idatas[h]); }
      EntryOwner(c, below[i], f, off, off);
    }
  }

  /**
    What bind answers where a struct carries the layer of `f`. If the tie is watched it is the struct of
    that watch that counts, else that of the object's watch, and the normal replacement comes next if there is
    one for the slot: the object is watched, or is to be. If neither is watched the object is none of the normal
    instrumentor's business: next is the highest layer below, and the normal replacement is left out.
  */
  lemma BindAnswer(c: Config, k: Kernel, s: Inst, f: FId, o: Obj, tie: Tie, ops: Addr, off: nat, e: Env)
    requires Inv(c, k, s) && f in c.foreign && OpsOk(c, k, ops) && EnvOk(k, e) && off < c.size
    ensures f in s.fw
    ensures var t, b := FindTie(s.fw[f], tie), Bind(c, k, s, f, o, tie, ops, off, e);
      if t >= 0 then
        AnswersNormal(c, s, s.fw[f][t].idata, off, b)
      else if o in s.objects then
        s.objects[o] in s.idatas && (f in s.idatas[s.objects[o]].layers ==> AnswersNormal(c, s, s.objects[o], off, b))
      else if ops in s.table then
        s.table[ops] in s.idatas && (f in s.idatas[s.table[ops]].layers ==> AnswersBelow(c, s, s.table[ops], f, off, b))
      else
        ops != NULL && b.status != Lost ==>
          ops in k.mem && off < |k.mem[ops]| && b.chained == b.orig == Some(k.mem[ops][off])
  {
    hide LiveBut, IdataOk, RefsOk, IdsOk, FieldsOk, TablesOk, SavedOp, NormalOp, ChainOp, FindTie, Watch, WfConfig,
      NoData;
    BindRefs(c, k, s, f, ops);
    var t := FindTie(s.fw[f], tie);
    if t >= 0 {
      WatchRef(c, s, f, t);
      NormalOpIs(c, k, s, s.fw[f][t].idata, off);
    } else if o in s.objects {
      ObjectRef(c, s, o);
      NormalOpIs(c, k, s, s.objects[o], off);
    } else if ops in s.table {
      NormalOpIs(c, k, s, s.table[ops], off);
      if f in s.idatas[s.table[ops]].layers {
        ChainOpIs(c, k, s, s.table[ops], f, off);
      }
    } else if ops != NULL {
      NoDataIs(c.foreign[f], k, ops, off);
    }
  }

  lemma NoDataIs(rs: Replacements, k: Kernel, ops: Addr, off: nat)
    requires ops != NULL && ops in k.mem && off < |k.mem[ops]|
    ensures var a := NoData(rs, k, ops, off);
      if IsEntry(rs, k.mem[ops][off]) then a == Answer(Lost, None) else a == Answer(NotWatched, Some(k.mem[ops][off]))
  {
  }

  /** The original of the slot, and the normal replacement before it if it applies. */
  ghost predicate AnswersNormal(c: Config, s: Inst, h: Addr, off: nat, b: Bound) {
    && h in s.idatas && off < |s.idatas[h].saved|
    && b.orig == Some(s.idatas[h].saved[off])
    && b.chained == Some(if Active(c.normal, off, s.idatas[h].saved[off]) then Entry(c.normal, off).value.repl
                         else s.idatas[h].saved[off])
  }

  /**
    The original of the slot, and the replacement of the highest layer below `f` that applies, never the normal
    one.
  */
  ghost predicate AnswersBelow(c: Config, s: Inst, h: Addr, f: FId, off: nat, b: Bound) {
    && h in s.idatas && off < |s.idatas[h].saved| && f in s.idatas[h].layers
    && b.orig == Some(s.idatas[h].saved[off]) && b.chained.Some? && !IsEntry(c.normal, b.chained.value)
    && TopmostOf(c, s.idatas[h].layers[..IndexOf(s.idatas[h].layers, f)], off, s.idatas[h].saved[off], b.chained.value)
  }

  /** Somebody whom the call meets knows the object: the normal instrumentor, or the factory by the object's tie. */
  ghost predicate Known(s: Inst, o: Obj, ties: map<FId, Tie>, g: FId) {
    o in s.objects || (g in s.fw && g in ties && FindTie(s.fw[g], ties[g]) >= 0)
  }

  lemma BindStep(c: Config, k: Kernel, s: Inst, f: FId, o: Obj, ties: map<FId, Tie>, h: Addr, ops: Addr, off: nat,
      watch: bool)
    requires Bearing(c, k, s, o, ties, h, ops) && f in s.idatas[h].layers && f in c.foreign && off < c.size
    requires OpsOk(c, k, ops) && ops in s.table && s.table[ops] == h
    ensures var b := Bind(c, k, s, f, o, ties[f], ops, off, Luck(watch));
      && b.k == k && b.s == (if Known(s, o, ties, f) && watch then s.(objects := s.objects[o := h]) else s)
      && (b.ops == ops || b.ops == h) && (!Known(s, o, ties, f) ==> b.ops == ops)
      && b.orig == Some(SavedOp(c, k, s, h, off))
      && b.chained == Some(if Known(s, o, ties, f) then NormalOp(c, k, s, h, off) else ChainOp(c, k, s, h, f, off))
  {
    hide Inv, Core, OpsOk, Conserved, Watch, NormalOp, ChainOp, SavedOp;
    BearingOps(c, k, s, o, ties, h, ops);
    if FindTie(s.fw[f], ties[f]) >= 0 {
      WatchInstrumented(c, k, s, o, ops, h, Luck(watch));
    }
    if o in s.objects {
      assert s.objects[o := h] == s.objects;
    }
  }

  /** A bind of an object whose struct carries the foreign layer changes at most whether the object is watched. */
  lemma BindEffect(c: Config, k: Kernel, s: Inst, f: FId, o: Obj, ties: map<FId, Tie>, h: Addr, ops: Addr, off: nat,
      watch: bool)
    requires Bearing(c, k, s, o, ties, h, ops) && f in s.idatas[h].layers && f in c.foreign && off < c.size
    requires OpsOk(c, k, ops)
    ensures var b := Bind(c, k, s, f, o, ties[f], ops, off, Luck(watch));
      && Bearing(c, b.k, b.s, o, ties, h, b.ops) && b.k == k && b.s.idatas == s.idatas
      && (!Known(s, o, ties, f) ==> b.ops == ops)
      && b.s == (if Known(s, o, ties, f) && watch then s.(objects := s.objects[o := h]) else s)
      && b.orig == Some(SavedOp(c, k, s, h, off))
      && b.chained == Some(if Known(s, o, ties, f) then NormalOp(c, k, s, h, off) else ChainOp(c, k, s, h, f, off))
  {
    hide Inv, Core, OpsOk, Conserved, NormalOp, ChainOp, SavedOp, Bind, Known;
    BearingOps(c, k, s, o, ties, h, ops);
    BindOk(c, k, s, f, o, ties[f], ops, off, Luck(watch));
    BindStep(c, k, s, f, o, ties, h, ops, off, watch);
  }

  /** Where a call ends up: in a function that replaces nothing, after the replacement functions of `path`. */
  datatype Dest = Reached(op: Fn, path: seq<Fn>, s: Inst) | Dropped | Unfinished

  /** Call `f` for the object; one element of `luck` per replacement function on the way. */
  ghost function Call(c: Config, k: Kernel, s: Inst, o: Obj, ties: map<FId, Tie>, ops: Addr, off: nat, f: Fn,
      luck: seq<bool>): Dest
    requires Inv(c, k, s) && ties.Keys == c.foreign.Keys && off < c.size
    decreases |luck|
  {
    if !IsReplacement(c, f) then Reached(f, [], s)
    else if luck == [] then Unfinished
    else if !OpsOk(c, k, ops) then Dropped
    else if IsEntry(c.normal, f) then
      var a := GetOrig(c, k, s, o, ops, off);
      if a.op.None? then Dropped else Hop(f, Call(c, k, s, o, ties, ops, off, a.op.value, luck[1..]))
    else
      var g: FId :| g in c.foreign && IsEntry(c.foreign[g], f);
      BindOk(c, k, s, g, o, ties[g], ops, off, Luck(luck[0]));
      var b := Bind(c, k, s, g, o, ties[g], ops, off, Luck(luck[0]));
      if b.chained.None? then Dropped else Hop(f, Call(c, b.k, b.s, o, ties, b.ops, off, b.chained.value, luck[1..]))
  }

  function Hop(f: Fn, d: Dest): Dest {
    if d.Reached? then d.(path := [f] + d.path) else d
  }

  /** The normal replacement of a slot, if it applies. */
  ghost function NormalPart(c: Config, off: nat, orig: Fn): seq<Fn> {
    if Active(c.normal, off, orig) then [Entry(c.normal, off).value.repl] else []
  }

  /**
    What a call runs from the `n` lowest layers: those that replace the slot, from the top down to the first
    one that finds somebody who knows the object. That one hands over to the normal replacement; without it this
    is left out.
  */
  ghost function Route(c: Config, s: Inst, o: Obj, ties: map<FId, Tie>, layers: seq<FId>, off: nat, orig: Fn,
      n: nat): seq<Fn>
    requires n <= |layers|
  {
    if n == 0 then []
    else if !Active(ListOf(c, layers[n - 1]), off, orig) then Route(c, s, o, ties, layers, off, orig, n - 1)
    else
      [Entry(ListOf(c, layers[n - 1]), off).value.repl] +
      if Known(s, o, ties, layers[n - 1]) then NormalPart(c, off, orig)
        else Route(c, s, o, ties, layers, off, orig, n - 1)
  }

  /** How many functions run before the one that hands over. */
  ghost function HandOver(c: Config, s: Inst, o: Obj, ties: map<FId, Tie>, layers: seq<FId>, off: nat, orig: Fn,
      n: nat): (p: Option<nat>)
    requires n <= |layers|
    ensures p.Some? ==> p.value < n
    ensures p.Some? <==> exists i ::
      0 <= i < n && Active(ListOf(c, layers[i]), off, orig) && Known(s, o, ties, layers[i])
  {
    if n == 0 then None
    else
      var p := HandOver(c, s, o, ties, layers, off, orig, n - 1);
      if !Active(ListOf(c, layers[n - 1]), off, orig) then p
      else if Known(s, o, ties, layers[n - 1]) then Some(0)
      else if p.Some? then Some(p.value + 1)
      else None
  }

  /** The object is watched by the bind that hands over, if there is memory for that. */
  ghost function Afterwards(s: Inst, o: Obj, h: Addr, p: Option<nat>, luck: seq<bool>): Inst
    requires p.Some? ==> p.value < |luck|
  {
    if p.Some? && luck[p.value] then s.(objects := s.objects[o := h]) else s
  }

  /** Calling what the normal list makes of the slot: its replacement runs if it applies, and finds the original. */
  lemma CallNormal(c: Config, k: Kernel, s: Inst, o: Obj, ties: map<FId, Tie>, h: Addr, ops: Addr, off: nat,
      luck: seq<bool>)
    requires Bearing(c, k, s, o, ties, h, ops) && off < c.size && luck != []
    ensures var orig := SavedOp(c, k, s, h, off);
      Call(c, k, s, o, ties, ops, off, NormalOp(c, k, s, h, off), luck) == Reached(orig, NormalPart(c, off, orig), s)
  {
    hide Core, LiveBut, OpsOk, Slot, Stack, Bind, NormalOp, IsReplacement, NormalOver, WfConfig;
    var orig := SavedOp(c, k, s, h, off);
    SavedPristine(c, k, s, h, off);
    BearingOps(c, k, s, o, ties, h, ops);
    NormalOpIs(c, k, s, h, off);
    if Active(c.normal, off, orig) {
      NormalCalled(c, off);
      var f := NormalOp(c, k, s, h, off);
      NormalOverIs(c, off, orig);
      assert f == Entry(c.normal, off).value.repl;
      assert GetOrig(c, k, s, o, ops, off).op == Some(orig);
      assert Call(c, k, s, o, ties, ops, off, orig, luck[1..]) == Reached(orig, [], s);
    } else {
      NormalOverIs(c, off, orig);
    }
  }

  lemma NormalOverIs(c: Config, off: nat, orig: Fn)
    ensures NormalOver(c, off, orig) == if Active(c.normal, off, orig) then Entry(c.normal, off).value.repl else orig
  {
  }

  lemma NormalCalled(c: Config, off: nat)
    requires Entry(c.normal, off).Some?
    ensures IsEntry(c.normal, Entry(c.normal, off).value.repl) && IsReplacement(c, Entry(c.normal, off).value.repl)
  {
    EntryIn(c.normal, off);
  }

  /** The slot that the `n` lowest layers make. */
  ghost function LowerSlot(c: Config, layers: seq<FId>, off: nat, orig: Fn, n: nat): Fn
    requires n <= |layers|
  {
    Slot(Lists(c, layers[..n]), off, orig)
  }

  lemma LowerSlotIs(c: Config, layers: seq<FId>, off: nat, orig: Fn, n: nat)
    requires n <= |layers|
    ensures LowerSlot(c, layers, off, orig, n) ==
      if n == 0 then orig
      else if Active(ListOf(c, layers[n - 1]), off, orig) then Entry(ListOf(c, layers[n - 1]), off).value.repl
      else LowerSlot(c, layers, off, orig, n - 1)
  {
    if n > 0 {
      var stack := Lists(c, layers[..n]);
      assert stack[n - 1] == ListOf(c, layers[n - 1]);
      assert stack[..n - 1] == Lists(c, layers[..n - 1]);
    }
  }

  /** A call of what the lower layers make of the slot follows the route. */
  lemma {:induction false} CallFrom(c: Config, k: Kernel, s: Inst, o: Obj, ties: map<FId, Tie>, h: Addr, ops: Addr,
      off: nat, n: nat, luck: seq<bool>)
    requires Bearing(c, k, s, o, ties, h, ops) && off < c.size
    requires n <= |s.idatas[h].layers| && n < |luck|
    ensures var layers, orig := s.idatas[h].layers, SavedOp(c, k, s, h, off);
      Call(c, k, s, o, ties, ops, off, LowerSlot(c, layers, off, orig, n), luck) ==
        Reached(orig, Route(c, s, o, ties, layers, off, orig, n),
          Afterwards(s, o, h, HandOver(c, s, o, ties, layers, off, orig, n), luck))
    decreases n
  {
    hide Core, LiveBut, OpsOk, LowerSlot, Known, Active, Entry, Call, Route, HandOver, Afterwards, Bearing;
    BearingOps(c, k, s, o, ties, h, ops);
    CoreOf(c, k, s, o, ties, h, ops);
    var layers := s.idatas[h].layers;
    var orig := SavedOp(c, k, s, h, off);
    LowerSlotIs(c, layers, off, orig, n);
    RouteStep(c, s, o, ties, h, off, orig, n, luck);
    if n == 0 {
      SavedPristine(c, k, s, h, off);
      CallOriginal(c, k, s, o, ties, ops, off, orig, luck);
    } else if !Active(ListOf(c, layers[n - 1]), off, orig) {
      CallFrom(c, k, s, o, ties, h, ops, off, n - 1, luck);
    } else {
      CallLayer(c, k, s, o, ties, h, ops, off, n - 1, luck);
      if !Known(s, o, ties, layers[n - 1]) {
        CallFrom(c, k, s, o, ties, h, ops, off, n - 1, luck[1..]);
      }
    }
  }

  lemma CoreOf(c: Config, k: Kernel, s: Inst, o: Obj, ties: map<FId, Tie>, h: Addr, ops: Addr)
    requires Bearing(c, k, s, o, ties, h, ops)
    ensures Inv(c, k, s) && h in s.idatas && ties.Keys == c.foreign.Keys && Mine(s.idatas[h], h, ops) && ops != NULL
  {
  }

  lemma CallOriginal(c: Config, k: Kernel, s: Inst, o: Obj, ties: map<FId, Tie>, ops: Addr, off: nat, f: Fn,
      luck: seq<bool>)
    requires Inv(c, k, s) && ties.Keys == c.foreign.Keys && off < c.size && !IsReplacement(c, f)
    ensures Call(c, k, s, o, ties, ops, off, f, luck) == Reached(f, [], s)
  {
  }

  /** One layer more on the route. */
  lemma RouteStep(c: Config, s: Inst, o: Obj, ties: map<FId, Tie>, h: Addr, off: nat, orig: Fn, n: nat, luck: seq<bool>)
    requires h in s.idatas && n <= |s.idatas[h].layers| && n < |luck|
    ensures var layers := s.idatas[h].layers;
      var route := Route(c, s, o, ties, layers, off, orig, n);
      var after := Afterwards(s, o, h, HandOver(c, s, o, ties, layers, off, orig, n), luck);
      if n == 0 then route == [] && after == s
      else
        var less := Route(c, s, o, ties, layers, off, orig, n - 1);
        var p := HandOver(c, s, o, ties, layers, off, orig, n - 1);
        if !Active(ListOf(c, layers[n - 1]), off, orig) then route == less && after == Afterwards(s, o, h, p, luck)
        else
          var f := Entry(ListOf(c, layers[n - 1]), off).value.repl;
          if Known(s, o, ties, layers[n - 1]) then
            route == [f] + NormalPart(c, off, orig) && after == if luck[0] then s.(objects := s.objects[o := h]) else s
          else
            route == [f] + less && after == Afterwards(s, o, h, p, luck[1..])
  {
    hide Known, NormalPart;
  }

  /** One layer: it hands over to the normal replacement, or calls what the layers below it make of the slot. */
  lemma CallLayer(c: Config, k: Kernel, s: Inst, o: Obj, ties: map<FId, Tie>, h: Addr, ops: Addr, off: nat, j: nat,
      luck: seq<bool>)
    requires Bearing(c, k, s, o, ties, h, ops) && off < c.size && j < |s.idatas[h].layers| && |luck| > 1
    requires Active(ListOf(c, s.idatas[h].layers[j]), off, SavedOp(c, k, s, h, off))
    ensures var layers, orig := s.idatas[h].layers, SavedOp(c, k, s, h, off);
      var f := Entry(ListOf(c, layers[j]), off).value.repl;
      Call(c, k, s, o, ties, ops, off, f, luck) ==
        if Known(s, o, ties, layers[j]) then
          Reached(orig, [f] + NormalPart(c, off, orig), if luck[0] then s.(objects := s.objects[o := h]) else s)
        else Hop(f, Call(c, k, s, o, ties, ops, off, LowerSlot(c, layers, off, orig, j), luck[1..]))
  {
    hide Core, LiveBut, OpsOk, Bind, NormalOp, ChainOp, Known, Slot;
    var layers, orig := s.idatas[h].layers, SavedOp(c, k, s, h, off);
    var g := layers[j];
    var f := Entry(ListOf(c, g), off).value.repl;
    BearingOps(c, k, s, o, ties, h, ops);
    LayerCall(c, k, s, o, ties, ops, off, f, g, luck);
    BindEffect(c, k, s, g, o, ties, h, ops, off, luck[0]);
    var b := Bind(c, k, s, g, o, ties[g], ops, off, Luck(luck[0]));
    if Known(s, o, ties, g) {
      CallNormal(c, b.k, b.s, o, ties, h, b.ops, off, luck[1..]);
      SameSaved(c, k, s, b.s, h, off);
    } else {
      ChainIsLower(c, k, s, h, off, j);
    }
  }

  /** Calling a layer's replacement is a bind with that layer's instrumentor. */
  lemma LayerCall(c: Config, k: Kernel, s: Inst, o: Obj, ties: map<FId, Tie>, ops: Addr, off: nat, f: Fn, g: FId,
      luck: seq<bool>)
    requires Inv(c, k, s) && ties.Keys == c.foreign.Keys && off < c.size && luck != []
    requires OpsOk(c, k, ops) && g in c.foreign && Entry(c.foreign[g], off).Some?
    requires f == Entry(c.foreign[g], off).value.repl
    ensures var b := Bind(c, k, s, g, o, ties[g], ops, off, Luck(luck[0]));
            Inv(c, b.k, b.s) &&
            (b.chained.Some? ==>
              Call(c, k, s, o, ties, ops, off, f, luck)
                == Hop(f, Call(c, b.k, b.s, o, ties, b.ops, off, b.chained.value, luck[1..])))
  {
    BindOk(c, k, s, g, o, ties[g], ops, off, Luck(luck[0]));
    forall g' | g' in c.foreign && IsEntry(c.foreign[g'], f) ensures g' == g {
      EntryOwner(c, g, g', off, off);
    }
    EntryOwner(c, g, g, off, off);
    hide Core, LiveBut, Bind, OpsOk, WfConfig, DistinctEntries, Apart;
  }

  /** What layer `j` chains to is what the layers below it make of the slot. */
  lemma ChainIsLower(c: Config, k: Kernel, s: Inst, h: Addr, off: nat, j: nat)
    requires Core(c, k, s) && h in s.idatas && off < c.size && j < |s.idatas[h].layers|
    ensures var layers := s.idatas[h].layers;
      ChainOp(c, k, s, h, layers[j], off) == LowerSlot(c, layers, off, SavedOp(c, k, s, h, off), j)
  {
    hide Slot, WatchesOk, TablesOk;
    assert IdataOk(c, k, h, s.idatas[h]);
    assert IndexOf(s.idatas[h].layers, s.idatas[h].layers[j]) == j;
  }

  lemma SameSaved(c: Config, k: Kernel, s: Inst, s': Inst, h: Addr, off: nat)
    requires Core(c, k, s) && Core(c, k, s') && h in s.idatas && s'.idatas == s.idatas && off < c.size
    ensures |s.idatas[h].saved| == c.size
    ensures SavedOp(c, k, s', h, off) == SavedOp(c, k, s, h, off) == s.idatas[h].saved[off]
    ensures NormalOp(c, k, s', h, off) == NormalOp(c, k, s, h, off)
  {
  }

  /** The slot of a whole stack: of the layers if one of them replaces it, else of the normal list. */
  lemma {:induction false} StackSlot(c: Config, layers: seq<FId>, off: nat, orig: Fn, n: nat)
    requires n <= |layers|
    ensures Slot(Stack(c, layers[..n]), off, orig) ==
      if exists i :: 0 <= i < n && Active(ListOf(c, layers[i]), off, orig) then LowerSlot(c, layers, off, orig, n)
      else Slot([c.normal], off, orig)
  {
    hide Active, Entry, LowerSlot;
    LowerSlotIs(c, layers, off, orig, n);
    var stack := Stack(c, layers[..n]);
    if n == 0 {
      assert stack == [c.normal];
    } else {
      StackSlot(c, layers, off, orig, n - 1);
      assert stack[n] == ListOf(c, layers[n - 1]);
      assert stack[..n] == Stack(c, layers[..n - 1]);
      LastOver(stack, off, orig);
    }
  }

  lemma LastOver(stack: seq<Replacements>, off: nat, orig: Fn)
    requires stack != []
    ensures var last := stack[|stack| - 1];
      Slot(stack, off, orig) ==
        if Active(last, off, orig) then Entry(last, off).value.repl else Slot(stack[..|stack| - 1], off, orig)
  {
  }

  /** What a call of an instrumented object runs: nothing if the object has its original operations still. */
  ghost function Path(c: Config, s: Inst, o: Obj, ties: map<FId, Tie>, h: Addr, ops: Addr, off: nat, orig: Fn): seq<Fn>
    requires h in s.idatas
  {
    var layers := s.idatas[h].layers;
    if ops != h then []
    else if exists i :: 0 <= i < |layers| && Active(ListOf(c, layers[i]), off, orig)
    then Route(c, s, o, ties, layers, off, orig, |layers|)
    else NormalPart(c, off, orig)
  }

  /**
    Calling what the slot of an instrumented object holds runs exactly the replacement functions of
    `Path`, at most one per foreign layer and one normal one, and then the original operation (NULL: its
    default). Whether the object is watched afterwards is for the layer that hands over to try.
  */
  lemma DispatchReachesOriginal(c: Config, k: Kernel, s: Inst, o: Obj, ties: map<FId, Tie>, h: Addr, ops: Addr,
      off: nat, luck: seq<bool>)
    requires Bearing(c, k, s, o, ties, h, ops) && off < c.size && |luck| > |s.idatas[h].layers|
    ensures ops in k.mem && |k.mem[ops]| == c.size && |s.idatas[h].saved| == c.size
    ensures var orig, layers := s.idatas[h].saved[off], s.idatas[h].layers;
      var d := Call(c, k, s, o, ties, ops, off, k.mem[ops][off], luck);
      var p := if ops == h then HandOver(c, s, o, ties, layers, off, orig, |layers|) else None;
      && d == Reached(orig, Path(c, s, o, ties, h, ops, off, orig), Afterwards(s, o, h, p, luck))
      && |d.path| <= |layers| + 1
  {
    hide Core, LiveBut, OpsOk, Call, Route, HandOver, Active, Entry, LowerSlot, Bearing, IsReplacement;
    BearingOps(c, k, s, o, ties, h, ops);
    CoreOf(c, k, s, o, ties, h, ops);
    var layers, orig := s.idatas[h].layers, SavedOp(c, k, s, h, off);
    SameSaved(c, k, s, s, h, off);
    RouteLength(c, s, o, ties, layers, off, orig, |layers|);
    if ops != h {
      OriginalSlot(c, k, s, h, ops, off);
      SavedPristine(c, k, s, h, off);
      CallOriginal(c, k, s, o, ties, ops, off, orig, luck);
    } else {
      SlotWhole(c, k, s, h, off);
      if exists i :: 0 <= i < |layers| && Active(ListOf(c, layers[i]), off, orig) {
        CallFrom(c, k, s, o, ties, h, ops, off, |layers|, luck);
      } else {
        CallNormal(c, k, s, o, ties, h, ops, off, luck);
      }
    }
  }

  lemma SlotWhole(c: Config, k: Kernel, s: Inst, h: Addr, off: nat)
    requires Core(c, k, s) && h in s.idatas && off < c.size
    ensures var layers, orig := s.idatas[h].layers, SavedOp(c, k, s, h, off);
      h in k.mem && |k.mem[h]| == c.size && k.mem[h][off] ==
        if exists i :: 0 <= i < |layers| && Active(ListOf(c, layers[i]), off, orig)
        then LowerSlot(c, layers, off, orig, |layers|) else NormalOp(c, k, s, h, off)
  {
    hide Core, Active, LowerSlot, Slot, Stack, IsReplacement;
    var layers := s.idatas[h].layers;
    SlotOf(c, k, s, h, off);
    StackSlot(c, layers, off, SavedOp(c, k, s, h, off), |layers|);
    assert layers[..|layers|] == layers;
  }

  /** The original struct of a copy is as it was. */
  lemma OriginalSlot(c: Config, k: Kernel, s: Inst, h: Addr, ops: Addr, off: nat)
    requires Core(c, k, s) && h in s.idatas && Mine(s.idatas[h], h, ops) && ops != h && ops != NULL && off < c.size
    ensures ops in k.mem && |k.mem[ops]| == c.size && k.mem[ops][off] == SavedOp(c, k, s, h, off)
  {
    assert IdataOk(c, k, h, s.idatas[h]);
  }

  lemma {:induction false} RouteLength(c: Config, s: Inst, o: Obj, ties: map<FId, Tie>, layers: seq<FId>, off: nat,
      orig: Fn, n: nat)
    requires n <= |layers|
    ensures |Route(c, s, o, ties, layers, off, orig, n)| <= n + 1
  {
    if n > 0 {
      RouteLength(c, s, o, ties, layers, off, orig, n - 1);
    }
  }

  /**
    The normal replacement runs exactly once if it applies and either no layer replaces the slot or one
    that does finds somebody who knows the object; otherwise it does not run.
  */
  lemma NormalRuns(c: Config, k: Kernel, s: Inst, o: Obj, ties: map<FId, Tie>, h: Addr, ops: Addr, off: nat)
    requires Bearing(c, k, s, o, ties, h, ops) && off < c.size && Entry(c.normal, off).Some?
    ensures |s.idatas[h].saved| == c.size
    ensures var orig, layers := s.idatas[h].saved[off], s.idatas[h].layers;
      var known := exists i ::
        0 <= i < |layers| && Active(ListOf(c, layers[i]), off, orig) && Known(s, o, ties, layers[i]);
      var alone := forall i :: 0 <= i < |layers| ==> !Active(ListOf(c, layers[i]), off, orig);
      multiset(Path(c, s, o, ties, h, ops, off, orig))[Entry(c.normal, off).value.repl] ==
        if ops == h && Active(c.normal, off, orig) && (alone || known) then 1 else 0
  {
    hide Core, LiveBut, OpsOk, Route, Bearing, Active, Entry, Known, WfConfig, IsReplacement;
    BearingOps(c, k, s, o, ties, h, ops);
    CoreOf(c, k, s, o, ties, h, ops);
    SameSaved(c, k, s, s, h, off);
    SavedPristine(c, k, s, h, off);
    var layers, orig := s.idatas[h].layers, s.idatas[h].saved[off];
    RouteNormal(c, s, o, ties, layers, off, orig, |layers|);
    NormalCount(c, off, orig);
  }

  lemma NormalCount(c: Config, off: nat, orig: Fn)
    requires Entry(c.normal, off).Some?
    ensures multiset(NormalPart(c, off, orig))[Entry(c.normal, off).value.repl] ==
      if Active(c.normal, off, orig) then 1 else 0
  {
  }

  lemma {:induction false} RouteNormal(c: Config, s: Inst, o: Obj, ties: map<FId, Tie>, layers: seq<FId>, off: nat,
      orig: Fn, n: nat)
    requires WfConfig(c) && LayersOk(c, layers) && n <= |layers| && Entry(c.normal, off).Some?
    ensures multiset(Route(c, s, o, ties, layers, off, orig, n))[Entry(c.normal, off).value.repl] ==
      if Active(c.normal, off, orig) && HandOver(c, s, o, ties, layers, off, orig, n).Some? then 1 else 0
  {
    hide Known, WfConfig, NormalPart, Active, Entry;
    if n > 0 {
      RouteNormal(c, s, o, ties, layers, off, orig, n - 1);
      NormalCount(c, off, orig);
      var g := layers[n - 1];
      if Active(ListOf(c, g), off, orig) {
        ActiveEntry(ListOf(c, g), off, orig);
        EntryOwner(c, g, g, off, off);
        EntryIn(c.normal, off);
        var f, r := Entry(ListOf(c, g), off).value.repl, Entry(c.normal, off).value.repl;
        assert IsEntry(c.normal, r) && f != r;
        OneBefore(f, r, NormalPart(c, off, orig));
        OneBefore(f, r, Route(c, s, o, ties, layers, off, orig, n - 1));
      }
    }
  }

  lemma OneBefore(f: Fn, r: Fn, path: seq<Fn>)
    requires f != r
    ensures multiset([f] + path)[r] == multiset(path)[r]
  {
  }

  // ---------------------------------------------------------------- where a bind can go wrong

  /** A struct without a foreign instrumentor's layer holds none of its replacement functions. */
  lemma NoGarbage(c: Config, k: Kernel, s: Inst, f: FId, h: Addr, a: Addr, off: nat)
    requires Core(c, k, s) && h in s.idatas && f in c.foreign && f !in s.idatas[h].layers
    requires Mine(s.idatas[h], h, a) && a != NULL && off < c.size
    ensures a in k.mem && |k.mem[a]| == c.size && !IsEntry(c.foreign[f], k.mem[a][off])
  {
    hide Core, Active, LowerSlot, IsReplacement, NormalOver, TopmostOf, IsEntry;
    SavedPristine(c, k, s, h, off);
    if a != h {
      OriginalSlot(c, k, s, h, a, off);
    } else {
      SlotWhole(c, k, s, h, off);
      NormalOpIs(c, k, s, h, off);
      NormalNotForeign(c, k, s, h, off, f);
      LowerNotForeign(c, k, s, h, off, f);
    }
    NotEntry(c, f, SavedOp(c, k, s, h, off));
  }

  lemma NotEntry(c: Config, f: FId, op: Fn)
    requires f in c.foreign && !IsReplacement(c, op)
    ensures !IsEntry(c.foreign[f], op)
  {
  }

  lemma NormalNotForeign(c: Config, k: Kernel, s: Inst, h: Addr, off: nat, f: FId)
    requires Core(c, k, s) && h in s.idatas && off < c.size && f in c.foreign
    ensures !IsEntry(c.foreign[f], NormalOp(c, k, s, h, off))
  {
    hide TablesOk, WatchesOk;
    NormalOpIs(c, k, s, h, off);
    SavedPristine(c, k, s, h, off);
    EntryIn(c.normal, off);
  }

  lemma LowerNotForeign(c: Config, k: Kernel, s: Inst, h: Addr, off: nat, f: FId)
    requires Core(c, k, s) && h in s.idatas && off < c.size && f in c.foreign && f !in s.idatas[h].layers
    ensures var layers := s.idatas[h].layers;
      !IsEntry(c.foreign[f], LowerSlot(c, layers, off, SavedOp(c, k, s, h, off), |layers|))
  {
    hide TablesOk, WatchesOk, Active, Slot;
    var layers, orig := s.idatas[h].layers, SavedOp(c, k, s, h, off);
    SavedPristine(c, k, s, h, off);
    LayersSlot(c, layers, off, orig);
    assert layers[..|layers|] == layers;
    var op := LowerSlot(c, layers, off, orig, |layers|);
    if i :| 0 <= i < |layers| && ReplacesAt(c, layers, off, orig, op, i) {
      LayerEntry(c, k, s, h, i);
      ActiveEntry(ListOf(c, layers[i]), off, orig);
      EntryOwner(c, layers[i], f, off, off);
    }
  }

  lemma LayerEntry(c: Config, k: Kernel, s: Inst, h: Addr, i: nat)
    requires Core(c, k, s) && h in s.idatas && i < |s.idatas[h].layers|
    ensures s.idatas[h].layers[i] in c.foreign && ListOf(c, s.idatas[h].layers[i]) == c.foreign[s.idatas[h].layers[i]]
  {
    assert IdataOk(c, k, h, s.idatas[h]);
  }

  lemma ActiveEntry(rs: Replacements, off: nat, orig: Fn)
    requires Active(rs, off, orig)
    ensures Entry(rs, off).Some?
  {
  }

  /**
    The engine's own sanity checks never fail: bind faults only when it has to read a slot
    through a null operations pointer.  A lost original is reported exactly for a struct that
    this instrumentor does not know, but another one has, and that holds one of the foreign replacements.
  */
  lemma BindFaultsOnlyOnNull(c: Config, k: Kernel, s: Inst, f: FId, o: Obj, tie: Tie, ops: Addr, off: nat, e: Env)
    requires Inv(c, k, s) && f in c.foreign && OpsOk(c, k, ops) && EnvOk(k, e) && off < c.size
    ensures var b := Bind(c, k, s, f, o, tie, ops, off, e);
            var adrift := FindTie(s.fw[f], tie) < 0 && o !in s.objects;
            && (b.status == Oops <==>
                adrift && (if ops in s.table
                  then f !in s.idatas[s.table[ops]].layers && s.idatas[s.table[ops]].orig == NULL
                           else ops == NULL))
            && (b.status == Lost <==>
              adrift && ops !in s.table && ops != NULL && IsEntry(c.foreign[f], k.mem[ops][off]))
            && (b.status == Lost ==> ops in k.owner && k.owner[ops] != c.id)
  {
    hide Inv, Bind, OpsOk, EnvOk;
    TableIdata(c, k, s, ops);
    if FindTie(s.fw[f], tie) >= 0 {
      BindTied(c, k, s, f, o, tie, ops, off, e);
    } else if o in s.objects {
      BindWatched(c, k, s, f, o, tie, ops, off, e);
    } else if ops in s.table {
      BindInstrumented(c, k, s, f, o, tie, ops, off, e);
    } else {
      BindFree(c, k, s, f, o, tie, ops, off, e);
    }
  }

  lemma TableIdata(c: Config, k: Kernel, s: Inst, a: Addr)
    requires Inv(c, k, s)
    ensures s.fw.Keys == c.foreign.Keys && (a in s.table ==> s.table[a] in s.idatas)
  {
  }

  lemma BindTied(c: Config, k: Kernel, s: Inst, f: FId, o: Obj, tie: Tie, ops: Addr, off: nat, e: Env)
    requires Inv(c, k, s) && f in c.foreign && OpsOk(c, k, ops) && EnvOk(k, e) && off < c.size
    requires f in s.fw && FindTie(s.fw[f], tie) >= 0
    ensures Bind(c, k, s, f, o, tie, ops, off, e).status in {Done, Already, NoMem, Busy}
  {
    hide LiveBut, IdataOk, RefsOk, IdsOk, FieldsOk, TablesOk, SavedOp, NormalOp, Watch, FindTie;
    WatchStatus(c, k, s, o, ops, e);
  }

  lemma BindWatched(c: Config, k: Kernel, s: Inst, f: FId, o: Obj, tie: Tie, ops: Addr, off: nat, e: Env)
    requires Inv(c, k, s) && f in c.foreign && OpsOk(c, k, ops) && EnvOk(k, e) && off < c.size
    requires f in s.fw && FindTie(s.fw[f], tie) < 0 && o in s.objects
    ensures Bind(c, k, s, f, o, tie, ops, off, e).status == Already
  {
    hide LiveBut, IdataOk, RefsOk, IdsOk, FieldsOk, TablesOk, SavedOp, NormalOp, FindTie;
    var h := s.objects[o];
    ObjectRef(c, s, o);
    IdataAddr(c, k, s, h);
    if f !in s.idatas[h].layers {
      NoGarbage(c, k, s, f, h, h, off);
    }
  }

  lemma BindInstrumented(c: Config, k: Kernel, s: Inst, f: FId, o: Obj, tie: Tie, ops: Addr, off: nat, e: Env)
    requires Inv(c, k, s) && f in c.foreign && OpsOk(c, k, ops) && EnvOk(k, e) && off < c.size
    requires f in s.fw && FindTie(s.fw[f], tie) < 0 && o !in s.objects && ops in s.table
    ensures s.table[ops] in s.idatas
    ensures Bind(c, k, s, f, o, tie, ops, off, e).status ==
      if f !in s.idatas[s.table[ops]].layers && s.idatas[s.table[ops]].orig == NULL then Oops else Already
  {
    hide LiveBut, IdataOk, RefsOk, IdsOk, FieldsOk, SavedOp, ChainOp, FindTie;
    var h := s.table[ops];
    if f !in s.idatas[h].layers && s.idatas[h].orig != NULL {
      NoGarbage(c, k, s, f, h, s.idatas[h].orig, off);
    }
  }

  lemma BindFree(c: Config, k: Kernel, s: Inst, f: FId, o: Obj, tie: Tie, ops: Addr, off: nat, e: Env)
    requires Inv(c, k, s) && f in c.foreign && OpsOk(c, k, ops) && EnvOk(k, e) && off < c.size
    requires f in s.fw && FindTie(s.fw[f], tie) < 0 && o !in s.objects && ops !in s.table
    ensures ops != NULL ==> ops in k.mem && |k.mem[ops]| == c.size
    ensures var b := Bind(c, k, s, f, o, tie, ops, off, e);
      && (b.status == Oops <==> ops == NULL)
      && (b.status == Lost <==> ops != NULL && IsEntry(c.foreign[f], k.mem[ops][off]))
      && (b.status == Lost ==> ops in k.owner && k.owner[ops] != c.id)
  {
    hide LiveBut, IdataOk, RefsOk, IdsOk, FieldsOk, IsEntry, FindTie;
    if ops != NULL {
      LostElsewhere(c, k, s, f, ops, off);
    }
  }

  lemma LostElsewhere(c: Config, k: Kernel, s: Inst, f: FId, ops: Addr, off: nat)
    requires TablesOk(c, k, s) && f in c.foreign && OpsOk(c, k, ops) && off < c.size && ops !in s.table && ops != NULL
    ensures IsEntry(c.foreign[f], k.mem[ops][off]) ==> ops in k.owner && k.owner[ops] != c.id
  {
    var op := k.mem[ops][off];
    assert IsEntry(c.foreign[f], op) ==> IsReplacement(c, op);
  }

  lemma ObjectRef(c: Config, s: Inst, o: Obj)
    requires WatchesOk(c, s) && o in s.objects
    ensures s.objects[o] in s.idatas
  {
  }

  lemma IdataAddr(c: Config, k: Kernel, s: Inst, h: Addr)
    requires Core(c, k, s) && h in s.idatas
    ensures h != NULL
  {
    assert IdataOk(c, k, h, s.idatas[h]);
  }

  lemma WatchStatus(c: Config, k: Kernel, s: Inst, o: Obj, ops: Addr, e: Env)
    requires Inv(c, k, s) && OpsOk(c, k, ops) && EnvOk(k, e)
    ensures Watch(c, k, s, o, ops, e).status in {Done, Already, NoMem, Busy}
  {
    hide Core, LiveBut, Release;
    GetDataOk(c, k, s, ops, e);
  }
}
