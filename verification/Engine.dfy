/**
  The instrumentation engine, as a value: which operations structs are
  instrumented, by whom, who watches what, and what memory holds.

  Every struct the engine replaces is described declaratively: its contents are
  `Render` of the saved original and the list of foreign layers.  The classes in
  Instrumentors.dfy patch slots one by one and count references; they are proved
  to follow the functions of this module.
*/
module Engine {
  import opened Layers

  type Addr = nat        // address of an operations struct; 0 is NULL
  type Obj = nat         // a watched object
  type FId = nat         // a foreign instrumentor
  type Id = nat          // identifies a foreign watch
  type Tie = nat         // what bind looks a foreign watch up by
  type Field = nat       // address of an object's operations field

  /** One normal instrumentor and the foreign ones bound to it. */
  datatype Config = Config(id: nat, size: nat, normal: Replacements, foreign: map<FId, Replacements>)

  /** Memory holding operations structs, and the table of all instrumented addresses. */
  datatype Kernel = Kernel(mem: map<Addr, Struct>, owner: map<Addr, nat>)

  /** Instrumentation of one struct; it is named by the address of the replaced struct. */
  datatype Idata = Idata(inPlace: bool, orig: Addr, saved: Struct, layers: seq<FId>)

  datatype FWatch = FWatch(id: Id, tie: Tie, field: Field, idata: Addr)

  /** The tables of one normal instrumentor and its foreign ones; foreign watches are newest first. */
  datatype Inst = Inst(
    table: map<Addr, Addr>,
    idatas: map<Addr, Idata>,
    objects: map<Obj, Addr>,
    fw: map<FId, seq<FWatch>>)

  /** What the environment decides during one call; `copy` is NULL when the struct cannot be allocated. */
  datatype Env = Env(place: bool, idata: bool, copy: Addr, watch: bool, layer: bool)

  datatype Status = Done | Already | NotWatched | NoMem | Busy | Lost | Oops

  // ---------------------------------------------------------------- assumptions about the environment

  ghost predicate DistinctEntries(rs: Replacements, size: nat) {
    && OnePerOffset(rs)
    && (forall r :: r in rs ==> r.offset < size && r.repl != NULL)
    && (forall i, j :: 0 <= i < j < |rs| ==> rs[i].repl != rs[j].repl)
  }

  ghost predicate Apart(rs: Replacements, rs': Replacements) {
    forall r, r' :: r in rs && r' in rs' ==> r.repl != r'.repl
  }

  /** Replacement functions are pairwise distinct, one entry per offset. */
  ghost predicate WfConfig(c: Config) {
    && DistinctEntries(c.normal, c.size)
    && (forall f :: f in c.foreign ==> DistinctEntries(c.foreign[f], c.size) && Apart(c.normal, c.foreign[f]))
    && (forall f, g :: f in c.foreign && g in c.foreign && f != g ==> Apart(c.foreign[f], c.foreign[g]))
  }

  ghost predicate IsEntry(rs: Replacements, op: Fn) {
    exists r :: r in rs && r.repl == op
  }

  ghost predicate IsReplacement(c: Config, op: Fn) {
    || IsEntry(c.normal, op)
    || exists f :: f in c.foreign && IsEntry(c.foreign[f], op)
  }

  /** A struct of the right size none of whose slots holds a replacement function. */
  ghost predicate Pristine(c: Config, st: Struct) {
    |st| == c.size && forall off :: 0 <= off < |st| ==> !IsReplacement(c, st[off])
  }

  function Zeros(n: nat): Struct {
    seq(n, _ => NULL)
  }

  /** What an address stands for as an original struct: NULL is a struct of NULLs. */
  function Original(c: Config, mem: map<Addr, Struct>, a: Addr): Struct {
    if a != NULL && a in mem then mem[a] else Zeros(c.size)
  }

  // ---------------------------------------------------------------- contents of a replaced struct

  function ListOf(c: Config, f: FId): Replacements {
    if f in c.foreign then c.foreign[f] else []
  }

  function Lists(c: Config, layers: seq<FId>): seq<Replacements> {
    seq(|layers|, i requires 0 <= i < |layers| => ListOf(c, layers[i]))
  }

  function Stack(c: Config, layers: seq<FId>): seq<Replacements> {
    [c.normal] + Lists(c, layers)
  }

  ghost function Render(c: Config, saved: Struct, layers: seq<FId>): Struct {
    seq(|saved|, off requires 0 <= off < |saved| => Slot(Stack(c, layers), off, saved[off]))
  }

  ghost predicate LayersOk(c: Config, layers: seq<FId>) {
    && (forall i :: 0 <= i < |layers| ==> layers[i] in c.foreign)
    && (forall i, j :: 0 <= i < j < |layers| ==> layers[i] != layers[j])
  }

  lemma ListEntry(rs: Replacements, size: nat, off: nat)
    requires DistinctEntries(rs, size)
    ensures Entry(rs, off).Some? ==> Entry(rs, off).value in rs && IsEntry(rs, Entry(rs, off).value.repl)
  {
    EntryIn(rs, off);
  }

  lemma ApartEntries(rs: Replacements, rs': Replacements, size: nat, off: nat)
    requires DistinctEntries(rs, size) && DistinctEntries(rs', size) && Apart(rs, rs')
    ensures Entry(rs, off).Some? && Entry(rs', off).Some? ==> Entry(rs, off).value.repl != Entry(rs', off).value.repl
  {
    EntryIn(rs, off);
    EntryIn(rs', off);
  }

  /** Every list of a stack is one of the configuration's, and different positions hold different ones. */
  lemma StackLists(c: Config, layers: seq<FId>, i: nat)
    requires WfConfig(c) && LayersOk(c, layers) && i < |Stack(c, layers)|
    ensures DistinctEntries(Stack(c, layers)[i], c.size)
    ensures Stack(c, layers)[i] == c.normal || exists f :: f in c.foreign && Stack(c, layers)[i] == c.foreign[f]
    ensures forall j :: i < j < |Stack(c, layers)| ==> Apart(Stack(c, layers)[i], Stack(c, layers)[j])
  {
    if i > 0 {
      assert Stack(c, layers)[i] == c.foreign[layers[i - 1]];
    }
    forall j | i < j < |Stack(c, layers)| ensures Apart(Stack(c, layers)[i], Stack(c, layers)[j]) {
      assert Stack(c, layers)[j] == c.foreign[layers[j - 1]];
    }
  }

  lemma SeparateStack(c: Config, saved: Struct, layers: seq<FId>, off: nat)
    requires WfConfig(c) && Pristine(c, saved) && LayersOk(c, layers) && off < c.size
    ensures Separate(Stack(c, layers), off, saved[off])
  {
    var stack := Stack(c, layers);
    assert !IsReplacement(c, saved[off]);
    forall i | 0 <= i < |stack|
      ensures OnePerOffset(stack[i])
      ensures Entry(stack[i], off).Some? ==> Entry(stack[i], off).value.repl != saved[off]
    {
      StackLists(c, layers, i);
      ListEntry(stack[i], c.size, off);
    }
    forall i, j | 0 <= i < j < |stack| && Entry(stack[i], off).Some? && Entry(stack[j], off).Some?
      ensures Entry(stack[i], off).value.repl != Entry(stack[j], off).value.repl
    {
      StackLists(c, layers, i);
      StackLists(c, layers, j);
      ApartEntries(stack[i], stack[j], c.size, off);
    }
  }

  // ---------------------------------------------------------------- the invariant

  /** The addresses an idata answers for: the replaced struct and the original one. */
  predicate Mine(d: Idata, h: Addr, a: Addr) {
    a == h || a == d.orig
  }

  ghost predicate IdataOk(c: Config, k: Kernel, h: Addr, d: Idata) {
    && h != NULL && h in k.mem
    && Pristine(c, d.saved) && LayersOk(c, d.layers)
    && k.mem[h] == Render(c, d.saved, d.layers)
    && (if d.inPlace then d.orig == h
        else d.orig != h && (d.orig == NULL || d.orig in k.mem) && d.saved == Original(c, k.mem, d.orig))
  }

  /**
    The instrumentor's search table holds exactly the two addresses of each idata, and so does its share of the
    global table.
  */
  ghost predicate TablesOk(c: Config, k: Kernel, s: Inst) {
    && (forall a :: a in s.table <==> a in k.owner && k.owner[a] == c.id)
    && (forall a :: a in s.table ==> s.table[a] in s.idatas && Mine(s.idatas[s.table[a]], s.table[a], a))
    && (forall h :: h in s.idatas ==> h in s.table && s.table[h] == h)
    && (forall h :: h in s.idatas ==> s.idatas[h].orig in s.table && s.table[s.idatas[h].orig] == h)
  }

  ghost predicate RefsOk(s: Inst) {
    && (forall o :: o in s.objects ==> s.objects[o] in s.idatas)
    && (forall f, i :: f in s.fw && 0 <= i < |s.fw[f]| ==>
          s.fw[f][i].idata in s.idatas && f in s.idatas[s.fw[f][i].idata].layers)
  }

  /** A foreign instrumentor has one watch per id. */
  ghost predicate IdsOk(s: Inst) {
    forall f, i, j :: f in s.fw && 0 <= i < j < |s.fw[f]| ==> s.fw[f][i].id != s.fw[f][j].id
  }

  /** No field is watched twice, whichever foreign instrumentor watches it. */
  ghost predicate FieldsOk(s: Inst) {
    forall f, g, i, j ::
      (f in s.fw && g in s.fw && 0 <= i < |s.fw[f]| && 0 <= j < |s.fw[g]| && s.fw[f][i].field == s.fw[g][j].field) ==>
        f == g && i == j
  }

  ghost predicate WatchesOk(c: Config, s: Inst) {
    s.fw.Keys == c.foreign.Keys && RefsOk(s) && IdsOk(s) && FieldsOk(s)
  }

  ghost predicate Core(c: Config, k: Kernel, s: Inst) {
    && WfConfig(c)
    && (forall h :: h in s.idatas ==> IdataOk(c, k, h, s.idatas[h]))
    && TablesOk(c, k, s)
    && WatchesOk(c, s)
  }

  ghost predicate Watched(s: Inst, h: Addr) {
    exists o :: o in s.objects && s.objects[o] == h
  }

  ghost predicate Held(s: Inst, f: FId, h: Addr) {
    f in s.fw && exists i :: 0 <= i < |s.fw[f]| && s.fw[f][i].idata == h
  }

  /** Every idata but those in `hs`, and every layer but those in `ls`, is there because some watch needs it. */
  ghost predicate LiveBut(s: Inst, hs: set<Addr>, ls: set<(Addr, FId)>) {
    && (forall h :: h in s.idatas && h !in hs ==> Watched(s, h) || s.idatas[h].layers != [])
    && (forall h, f :: h in s.idatas && f in s.idatas[h].layers && (h, f) !in ls ==> Held(s, f, h))
  }

  ghost predicate Inv(c: Config, k: Kernel, s: Inst) {
    Core(c, k, s) && LiveBut(s, {}, {})
  }

  /** An instrumentor that has done nothing yet is consistent with any memory. */
  lemma StartInv(c: Config, k: Kernel)
    requires WfConfig(c) && forall a :: a in k.owner ==> k.owner[a] != c.id
    ensures Inv(c, k, Inst(map[], map[], map[], map f | f in c.foreign :: []))
  {
  }

  // ---------------------------------------------------------------- what the engine conserves

  ghost predicate IsCopy(s: Inst, a: Addr) {
    a in s.idatas && !s.idatas[a].inPlace
  }

  /** Memory as it would be without this instrumentor: copies gone, structs replaced in place put back. */
  ghost function Undone(k: Kernel, s: Inst): map<Addr, Struct> {
    map a | a in k.mem && !IsCopy(s, a) :: if a in s.idatas then s.idatas[a].saved else k.mem[a]
  }

  /** What other instrumentors own. */
  ghost function Others(c: Config, k: Kernel): map<Addr, nat> {
    map a | a in k.owner && k.owner[a] != c.id :: k.owner[a]
  }

  ghost predicate Conserved(c: Config, k: Kernel, s: Inst, k': Kernel, s': Inst) {
    Undone(k', s') == Undone(k, s) && Others(c, k') == Others(c, k)
  }

  // ---------------------------------------------------------------- idata: find, create, release

  datatype Got = Got(k: Kernel, s: Inst, h: Addr) | Failed(status: Status)

  ghost predicate OpsOk(c: Config, k: Kernel, ops: Addr) {
    && (ops != NULL ==> ops in k.mem && |k.mem[ops]| == c.size)
    && (ops != NULL && ops !in k.owner ==> Pristine(c, k.mem[ops]))
  }

  ghost predicate EnvOk(k: Kernel, e: Env) {
    e.copy != NULL ==> e.copy !in k.mem && e.copy !in k.owner
  }

  ghost function Create(c: Config, k: Kernel, s: Inst, ops: Addr, e: Env): Got
    requires ops == NULL || ops in k.mem
  {
    var saved := Original(c, k.mem, ops);
    if !e.idata || e.copy == NULL then Failed(NoMem)
    else if ops in k.owner then Failed(Busy)
    else
      var place := ops != NULL && e.place;
      var h := if place then ops else e.copy;
      var d := Idata(place, ops, saved, []);
      Got(Kernel(k.mem[h := Render(c, saved, [])], k.owner[ops := c.id][h := c.id]),
          s.(table := s.table[ops := h][h := h], idatas := s.idatas[h := d]),
          h)
  }

  /** Operations that are instrumented, or that nobody has and for which there is memory. */
  predicate Available(k: Kernel, s: Inst, ops: Addr, e: Env) {
    ops in s.table || (ops !in k.owner && e.idata && e.copy != NULL)
  }

  /** The error when it fails: somebody else has the operations, or there is no memory. */
  function Refusal(k: Kernel, s: Inst, ops: Addr, e: Env): Status {
    if ops !in s.table && ops in k.owner && e.idata && e.copy != NULL then Busy else NoMem
  }

  ghost function GetData(c: Config, k: Kernel, s: Inst, ops: Addr, e: Env): Got
    requires ops == NULL || ops in k.mem
  {
    if ops in s.table then Got(k, s, s.table[ops]) else Create(c, k, s, ops, e)
  }

  ghost function Destroy(k: Kernel, s: Inst, h: Addr, restore: bool): (Kernel, Inst)
    requires h in s.idatas
  {
    var d := s.idatas[h];
    (Kernel(if !d.inPlace then k.mem - {h} else if restore then k.mem[h := d.saved] else k.mem, k.owner - {h, d.orig}),
     s.(table := s.table - {h, d.orig}, idatas := s.idatas - {h}))
  }

  /** Drop the idata if nothing refers to it any more. */
  ghost function Release(k: Kernel, s: Inst, h: Addr, restore: bool): (Kernel, Inst)
    requires h in s.idatas
  {
    if Watched(s, h) || s.idatas[h].layers != [] then (k, s) else Destroy(k, s, h, restore)
  }

  ghost function AddLayer(c: Config, k: Kernel, s: Inst, f: FId, h: Addr): (Kernel, Inst)
    requires h in s.idatas
  {
    var d := s.idatas[h];
    var layers := d.layers + [f];
    (k.(mem := k.mem[h := Render(c, d.saved, layers)]), s.(idatas := s.idatas[h := d.(layers := layers)]))
  }

  function IndexOf(layers: seq<FId>, f: FId): (i: nat)
    requires f in layers
    ensures i < |layers| && layers[i] == f && f !in layers[..i]
  {
    if layers[0] == f then 0 else 1 + IndexOf(layers[1..], f)
  }

  /**
    Drop a foreign layer if no foreign watch needs it: the struct is rendered without it, and the idata may go
    as well.
  */
  ghost function DropLayer(c: Config, k: Kernel, s: Inst, f: FId, h: Addr): (Kernel, Inst)
    requires h in s.idatas && f in s.idatas[h].layers
  {
    if Held(s, f, h) then (k, s)
    else
      var d := s.idatas[h];
      var layers := Without(d.layers, IndexOf(d.layers, f));
      Release(k.(mem := k.mem[h := Render(c, d.saved, layers)]), s.(idatas := s.idatas[h := d.(layers := layers)]), h,
        true)
  }

  // ---------------------------------------------------------------- lemmas about creation

  lemma CreateIdatas(c: Config, k: Kernel, s: Inst, ops: Addr, e: Env)
    requires Core(c, k, s) && OpsOk(c, k, ops) && EnvOk(k, e) && ops !in s.table
    ensures var g := Create(c, k, s, ops, e);
            g.Got? ==> g.h !in s.idatas && forall h :: h in g.s.idatas ==> IdataOk(c, g.k, h, g.s.idatas[h])
  {
    var g := Create(c, k, s, ops, e);
    if g.Got? {
      assert Pristine(c, Zeros(c.size));
      assert g.h !in s.idatas;
      forall h | h in s.idatas ensures IdataOk(c, g.k, h, s.idatas[h]) {
        assert IdataOk(c, k, h, s.idatas[h]);
        assert s.idatas[h].orig != g.h;
      }
    }
  }

  lemma CreateTables(c: Config, k: Kernel, s: Inst, ops: Addr, e: Env)
    requires TablesOk(c, k, s) && EnvOk(k, e) && ops !in s.table
    requires ops == NULL || ops in k.mem
    ensures var g := Create(c, k, s, ops, e);
            g.Got? ==> TablesOk(c, g.k, g.s) && Mine(g.s.idatas[g.h], g.h, ops)
  {
  }

  /** The pointwise way to show that memory undone is the same. */
  lemma SameUndone(k: Kernel, s: Inst, k': Kernel, s': Inst)
    requires forall a :: a in k.mem && !IsCopy(s, a) <==> a in k'.mem && !IsCopy(s', a)
    requires forall a :: a in k.mem && !IsCopy(s, a) ==>
      (if a in s'.idatas then s'.idatas[a].saved else k'.mem[a])
        == (if a in s.idatas then s.idatas[a].saved else k.mem[a])
    ensures Undone(k', s') == Undone(k, s)
  {
  }

  lemma SameOthers(c: Config, k: Kernel, k': Kernel, own: set<Addr>)
    requires forall a :: a !in own ==> (a in k.owner <==> a in k'.owner) && (a in k.owner ==> k.owner[a] == k'.owner[a])
    requires forall a :: a in own ==> (a in k.owner ==> k.owner[a] == c.id) && (a in k'.owner ==> k'.owner[a] == c.id)
    ensures Others(c, k') == Others(c, k)
  {
  }

  lemma PutBack<V>(m: map<Addr, V>, a: Addr, b: Addr, v: V)
    requires a !in m && b !in m
    ensures m[a := v][b := v] - {b, a} == m
  {
  }

  /** Dropping a fresh idata takes everything back. */
  lemma CreateUndo(c: Config, k: Kernel, s: Inst, ops: Addr, e: Env)
    requires TablesOk(c, k, s) && EnvOk(k, e) && ops !in s.table
    requires ops == NULL || ops in k.mem
    ensures var g := Create(c, k, s, ops, e);
            g.Got? ==> Destroy(g.k, g.s, g.h, true) == (k, s)
  {
    var g := Create(c, k, s, ops, e);
    if g.Got? {
      assert g.h !in s.table && g.h !in s.idatas;
      PutBack(k.owner, ops, g.h, c.id);
      PutBack(s.table, ops, g.h, g.h);
      PutBack(s.idatas, g.h, g.h, g.s.idatas[g.h]);
      assert s.idatas[g.h := g.s.idatas[g.h]] - {g.h} == s.idatas;
      assert Destroy(g.k, g.s, g.h, true).0.mem == k.mem;
    }
  }

  lemma CreateConserves(c: Config, k: Kernel, s: Inst, ops: Addr, e: Env)
    requires TablesOk(c, k, s) && EnvOk(k, e) && ops !in s.table
    requires ops == NULL || ops in k.mem
    ensures var g := Create(c, k, s, ops, e);
            g.Got? ==> Conserved(c, k, s, g.k, g.s)
  {
    var g := Create(c, k, s, ops, e);
    if g.Got? {
      SameUndone(k, s, g.k, g.s);
      SameOthers(c, k, g.k, {ops, g.h});
    }
  }

  /** Watches do not care about an idata no watch refers to. */
  lemma CreateLive(c: Config, s: Inst, s': Inst, h: Addr)
    requires WatchesOk(c, s) && LiveBut(s, {}, {})
    requires h !in s.idatas && s'.idatas.Keys == s.idatas.Keys + {h} && s'.idatas[h].layers == []
    requires forall h' :: h' in s.idatas ==> s'.idatas[h'] == s.idatas[h']
    requires s'.objects == s.objects && s'.fw == s.fw
    ensures WatchesOk(c, s') && LiveBut(s', {h}, {}) && !Watched(s', h)
  {
    assert forall h' :: Watched(s, h') <==> Watched(s', h');
    assert forall f, h' :: Held(s, f, h') <==> Held(s', f, h');
  }

  lemma CreateShape(c: Config, k: Kernel, s: Inst, ops: Addr, e: Env)
    requires ops == NULL || ops in k.mem
    ensures var g := Create(c, k, s, ops, e);
      g.Got? ==>
        && g.s.idatas.Keys == s.idatas.Keys + {g.h} && g.s.idatas[g.h].layers == []
        && (forall h :: h in s.idatas && h != g.h ==> g.s.idatas[h] == s.idatas[h])
        && g.s.objects == s.objects && g.s.fw == s.fw
  {
    hide Render, Original;
  }

  lemma CreateOk(c: Config, k: Kernel, s: Inst, ops: Addr, e: Env)
    requires Core(c, k, s) && LiveBut(s, {}, {}) && OpsOk(c, k, ops) && EnvOk(k, e) && ops !in s.table
    ensures var g := Create(c, k, s, ops, e);
            g.Got? ==>
              && Core(c, g.k, g.s) && LiveBut(g.s, {g.h}, {})
              && g.h in g.s.idatas && Mine(g.s.idatas[g.h], g.h, ops) && g.s.idatas[g.h].layers == []
              && g.h !in s.idatas && !Watched(g.s, g.h)
              && Conserved(c, k, s, g.k, g.s)
              && Destroy(g.k, g.s, g.h, true) == (k, s)
  {
    hide IdataOk, TablesOk, WatchesOk, LiveBut, Conserved, Destroy, Create;
    CreateShape(c, k, s, ops, e);
    CreateIdatas(c, k, s, ops, e);
    CreateTables(c, k, s, ops, e);
    CreateUndo(c, k, s, ops, e);
    CreateConserves(c, k, s, ops, e);
    var g := Create(c, k, s, ops, e);
    if g.Got? {
      CreateLive(c, s, g.s, g.h);
    }
  }

  lemma GetDataOk(c: Config, k: Kernel, s: Inst, ops: Addr, e: Env)
    requires Inv(c, k, s) && OpsOk(c, k, ops) && EnvOk(k, e)
    ensures var g := GetData(c, k, s, ops, e);
            && (g.Got? ==>
              && Core(c, g.k, g.s) && LiveBut(g.s, {g.h}, {}) && Conserved(c, k, s, g.k, g.s)
              && g.h in g.s.idatas && Mine(g.s.idatas[g.h], g.h, ops)
              && (if ops in s.table then g.h == s.table[ops] else g.s.idatas[g.h].layers == [])
              && g.s.objects == s.objects && g.s.fw == s.fw
              && (forall h :: h in s.idatas ==> h in g.s.idatas && g.s.idatas[h] == s.idatas[h])
              && Release(g.k, g.s, g.h, true) == (k, s))
            && (g.Got? && ops !in s.table ==>
              var place := ops != NULL && e.place;
              g.s.idatas[g.h].inPlace == place && g.h == (if place then ops else e.copy) && g.s.idatas[g.h].orig == ops)
            && (g.Got? <==> Available(k, s, ops, e))
            && (g.Failed? ==> g.status == Refusal(k, s, ops, e))
  {
    hide IdataOk, WatchesOk;
    if ops !in s.table {
      CreateOk(c, k, s, ops, e);
    }
  }

  // ---------------------------------------------------------------- lemmas about release

  lemma DestroyIdatas(c: Config, k: Kernel, s: Inst, h: Addr, restore: bool)
    requires TablesOk(c, k, s) && h in s.idatas
    requires forall h' :: h' in s.idatas ==> IdataOk(c, k, h', s.idatas[h'])
    ensures var r := Destroy(k, s, h, restore);
            forall h' :: h' in r.1.idatas ==> IdataOk(c, r.0, h', r.1.idatas[h'])
  {
    var r := Destroy(k, s, h, restore);
    forall h' | h' in r.1.idatas ensures IdataOk(c, r.0, h', r.1.idatas[h']) {
      assert IdataOk(c, k, h', s.idatas[h']);
      assert s.idatas[h'].orig != h;
    }
  }

  lemma DestroyTables(c: Config, k: Kernel, s: Inst, h: Addr, restore: bool)
    requires TablesOk(c, k, s) && h in s.idatas
    ensures var r := Destroy(k, s, h, restore); TablesOk(c, r.0, r.1)
  {
    var r := Destroy(k, s, h, restore);
    var d := s.idatas[h];
    assert s.table[h] == h && s.table[d.orig] == h;
    forall a | a in r.1.table
      ensures r.1.table[a] in r.1.idatas && Mine(r.1.idatas[r.1.table[a]], r.1.table[a], a)
    {
      assert Mine(s.idatas[s.table[a]], s.table[a], a);
    }
  }

  lemma DestroyConserves(c: Config, k: Kernel, s: Inst, h: Addr)
    requires TablesOk(c, k, s) && h in s.idatas && IdataOk(c, k, h, s.idatas[h])
    ensures var r := Destroy(k, s, h, true); Conserved(c, k, s, r.0, r.1)
  {
    var r := Destroy(k, s, h, true);
    SameUndone(k, s, r.0, r.1);
    SameOthers(c, k, r.0, {h, s.idatas[h].orig});
  }

  lemma DestroyLive(c: Config, k: Kernel, s: Inst, h: Addr, restore: bool)
    requires WatchesOk(c, s) && LiveBut(s, {h}, {}) && h in s.idatas && !Watched(s, h) && s.idatas[h].layers == []
    ensures var r := Destroy(k, s, h, restore); WatchesOk(c, r.1) && LiveBut(r.1, {}, {})
  {
    var s' := Destroy(k, s, h, restore).1;
    assert forall h' :: Watched(s, h') <==> Watched(s', h');
    assert forall f, h' :: Held(s, f, h') <==> Held(s', f, h');
  }

  lemma ReleaseInv(c: Config, k: Kernel, s: Inst, h: Addr, restore: bool)
    requires Core(c, k, s) && LiveBut(s, {h}, {}) && h in s.idatas
    ensures var r := Release(k, s, h, restore); Inv(c, r.0, r.1)
  {
    hide IdataOk, TablesOk, WatchesOk;
    if !Watched(s, h) && s.idatas[h].layers == [] {
      DestroyIdatas(c, k, s, h, restore);
      DestroyTables(c, k, s, h, restore);
      DestroyLive(c, k, s, h, restore);
    }
  }

  lemma ReleaseOk(c: Config, k: Kernel, s: Inst, h: Addr)
    requires Core(c, k, s) && LiveBut(s, {h}, {}) && h in s.idatas
    ensures var r := Release(k, s, h, true); Inv(c, r.0, r.1) && Conserved(c, k, s, r.0, r.1)
  {
    hide IdataOk, TablesOk, WatchesOk;
    ReleaseInv(c, k, s, h, true);
    if !Watched(s, h) && s.idatas[h].layers == [] {
      DestroyConserves(c, k, s, h);
    }
  }

  // ---------------------------------------------------------------- lemmas about layers

  /** Rewriting the layers of one struct keeps everything else. */
  lemma RelayerIdatas(c: Config, k: Kernel, s: Inst, h: Addr, layers: seq<FId>, k': Kernel, s': Inst)
    requires TablesOk(c, k, s) && forall h' :: h' in s.idatas ==> IdataOk(c, k, h', s.idatas[h'])
    requires h in s.idatas && LayersOk(c, layers)
    requires k' == k.(mem := k.mem[h := Render(c, s.idatas[h].saved, layers)])
    requires s' == s.(idatas := s.idatas[h := s.idatas[h].(layers := layers)])
    ensures forall h' :: h' in s'.idatas ==> IdataOk(c, k', h', s'.idatas[h'])
  {
    hide Render, Pristine, LayersOk;
    forall h' | h' in s'.idatas ensures IdataOk(c, k', h', s'.idatas[h']) {
      assert IdataOk(c, k, h', s.idatas[h']);
      assert h' != h ==> s.idatas[h'].orig != h;
    }
  }

  lemma RelayerTables(c: Config, k: Kernel, s: Inst, h: Addr, layers: seq<FId>, k': Kernel, s': Inst)
    requires TablesOk(c, k, s) && h in s.idatas && k'.owner == k.owner
    requires s' == s.(idatas := s.idatas[h := s.idatas[h].(layers := layers)])
    ensures TablesOk(c, k', s')
  {
  }

  lemma RelayerConserves(c: Config, k: Kernel, s: Inst, h: Addr, layers: seq<FId>, k': Kernel, s': Inst)
    requires h in s.idatas && h in k.mem
    requires k' == k.(mem := k.mem[h := Render(c, s.idatas[h].saved, layers)])
    requires s' == s.(idatas := s.idatas[h := s.idatas[h].(layers := layers)])
    ensures Conserved(c, k, s, k', s')
  {
    hide Render;
    SameUndone(k, s, k', s');
  }

  lemma AddLayerLive(c: Config, s: Inst, f: FId, h: Addr, s': Inst)
    requires WatchesOk(c, s) && LiveBut(s, {h}, {}) && h in s.idatas && f !in s.idatas[h].layers
    requires s' == s.(idatas := s.idatas[h := s.idatas[h].(layers := s.idatas[h].layers + [f])])
    ensures WatchesOk(c, s') && LiveBut(s', {}, {(h, f)})
  {
    assert forall h' :: Watched(s, h') <==> Watched(s', h');
    assert forall g, h' :: Held(s, g, h') <==> Held(s', g, h');
  }

  lemma AddLayerOk(c: Config, k: Kernel, s: Inst, f: FId, h: Addr)
    requires Core(c, k, s) && LiveBut(s, {h}, {}) && h in s.idatas && f in c.foreign && f !in s.idatas[h].layers
    ensures var r := AddLayer(c, k, s, f, h);
            Core(c, r.0, r.1) && LiveBut(r.1, {}, {(h, f)}) && Conserved(c, k, s, r.0, r.1)
  {
    var r := AddLayer(c, k, s, f, h);
    assert IdataOk(c, k, h, s.idatas[h]);
    assert LayersOk(c, s.idatas[h].layers + [f]);
    RelayerOk(c, k, s, h, s.idatas[h].layers + [f], r.0, r.1);
    AddLayerLive(c, s, f, h, r.1);
  }

  lemma RelayerOk(c: Config, k: Kernel, s: Inst, h: Addr, layers: seq<FId>, k': Kernel, s': Inst)
    requires Core(c, k, s) && h in s.idatas && LayersOk(c, layers)
    requires k' == k.(mem := k.mem[h := Render(c, s.idatas[h].saved, layers)])
    requires s' == s.(idatas := s.idatas[h := s.idatas[h].(layers := layers)])
    ensures WatchesOk(c, s') ==> Core(c, k', s')
    ensures Conserved(c, k, s, k', s')
  {
    hide Render, TablesOk, WatchesOk, Conserved, LayersOk, Pristine;
    assert IdataOk(c, k, h, s.idatas[h]);
    RelayerIdatas(c, k, s, h, layers, k', s');
    RelayerTables(c, k, s, h, layers, k', s');
    RelayerConserves(c, k, s, h, layers, k', s');
  }

  /** The last but one step of dropping a layer leaves an idata that may or may not be needed. */
  lemma DropLayerMid(c: Config, k: Kernel, s: Inst, f: FId, h: Addr)
    requires Core(c, k, s) && LiveBut(s, {}, {(h, f)}) && h in s.idatas && f in s.idatas[h].layers && !Held(s, f, h)
    ensures var d := s.idatas[h];
            var layers := Without(d.layers, IndexOf(d.layers, f));
            var k1 := k.(mem := k.mem[h := Render(c, d.saved, layers)]);
            var s1 := s.(idatas := s.idatas[h := d.(layers := layers)]);
            Core(c, k1, s1) && LiveBut(s1, {h}, {}) && Conserved(c, k, s, k1, s1)
  {
    hide Render, TablesOk, WatchesOk, Pristine, LiveBut, Undone, Others, Held;
    var d := s.idatas[h];
    var layers := Without(d.layers, IndexOf(d.layers, f));
    var k1 := k.(mem := k.mem[h := Render(c, d.saved, layers)]);
    var s1 := s.(idatas := s.idatas[h := d.(layers := layers)]);
    assert IdataOk(c, k, h, d);
    RelayerOk(c, k, s, h, layers, k1, s1);
    DropLayerLive(c, s, f, h, s1);
  }

  lemma DropLayerOk(c: Config, k: Kernel, s: Inst, f: FId, h: Addr)
    requires Core(c, k, s) && LiveBut(s, {}, {(h, f)}) && h in s.idatas && f in s.idatas[h].layers
    ensures var r := DropLayer(c, k, s, f, h); Inv(c, r.0, r.1) && Conserved(c, k, s, r.0, r.1)
  {
    hide Render, Core, LiveBut, Undone, Others, Release;
    if !Held(s, f, h) {
      var d := s.idatas[h];
      var layers := Without(d.layers, IndexOf(d.layers, f));
      var k1 := k.(mem := k.mem[h := Render(c, d.saved, layers)]);
      var s1 := s.(idatas := s.idatas[h := d.(layers := layers)]);
      DropLayerMid(c, k, s, f, h);
      ReleaseOk(c, k1, s1, h);
    } else {
      HeldLive(s, f, h);
    }
  }

  lemma HeldLive(s: Inst, f: FId, h: Addr)
    requires LiveBut(s, {}, {(h, f)}) && Held(s, f, h)
    ensures LiveBut(s, {}, {})
  {
  }

  lemma DropLayerLive(c: Config, s: Inst, f: FId, h: Addr, s': Inst)
    requires WatchesOk(c, s) && LiveBut(s, {}, {(h, f)}) && h in s.idatas && f in s.idatas[h].layers && !Held(s, f, h)
    requires s' == s.(idatas := s.idatas[h := s.idatas[h].(layers := Without(s.idatas[h].layers,
      IndexOf(s.idatas[h].layers, f)))])
    requires LayersOk(c, s.idatas[h].layers)
    ensures WatchesOk(c, s') && LiveBut(s', {h}, {})
  {
    var layers := s.idatas[h].layers;
    var i := IndexOf(layers, f);
    assert forall g :: g in layers && g != f ==> g in Without(layers, i);
    assert forall h' :: Watched(s, h') <==> Watched(s', h');
    assert forall f, h' :: Held(s, f, h') <==> Held(s', f, h');
  }
}
