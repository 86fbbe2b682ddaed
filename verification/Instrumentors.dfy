/**
  The normal instrumentor with its foreign ones, as the code keeps them: reference
  counts, search tables, tables of watches by object, id, tie and field.
*/
module Instrumentors {
  import opened Options
  import opened Layers
  import opened Engine
  import opened Operations
  import opened Dispatch
  import opened Memory
  import opened Systems

  /** Foreign data of one foreign instrumentor on one struct. */
  datatype LayerRec = LayerRec(f: FId, refs: int)

  /** `copy` is the saved original of a struct replaced in place. */
  datatype IdataRec = IdataRec(refs: int, inPlace: bool, orig: Addr, copy: Struct, layers: seq<LayerRec>)

  datatype FWatchRec = FWatchRec(tie: Tie, field: Field, idata: Addr)

  datatype TieElem = TieElem(tie: Tie, id: Id)

  /** Watches by id; entries of the table of ties, newest first. */
  datatype ForeignRec = ForeignRec(ids: map<Id, FWatchRec>, ties: seq<TieElem>)

  // ---------------------------------------------------------------- what the tables stand for

  function LayerIds(ls: seq<LayerRec>): (fs: seq<FId>)
    ensures |fs| == |ls| && forall i :: 0 <= i < |ls| ==> fs[i] == ls[i].f
  {
    seq(|ls|, i requires 0 <= i < |ls| => ls[i].f)
  }

  ghost function AbsIdata(r: IdataRec, saved: Struct): Idata {
    Idata(r.inPlace, r.orig, saved, LayerIds(r.layers))
  }

  ghost function AbsIdatas(rs: map<Addr, IdataRec>, saved: map<Addr, Struct>): map<Addr, Idata> {
    map h | h in rs && h in saved :: AbsIdata(rs[h], saved[h])
  }

  ghost function AbsWatch(r: ForeignRec, t: TieElem): FWatch {
    if t.id in r.ids then FWatch(t.id, t.tie, r.ids[t.id].field, r.ids[t.id].idata) else FWatch(t.id, t.tie, 0, NULL)
  }

  ghost function AbsWatches(r: ForeignRec): (ws: seq<FWatch>)
    ensures |ws| == |r.ties| && forall i :: 0 <= i < |ws| ==> ws[i] == AbsWatch(r, r.ties[i])
  {
    seq(|r.ties|, i requires 0 <= i < |r.ties| => AbsWatch(r, r.ties[i]))
  }

  ghost function AbsForeign(foreign: map<FId, ForeignRec>): map<FId, seq<FWatch>> {
    map f | f in foreign :: AbsWatches(foreign[f])
  }

  /** The two tables of a foreign instrumentor index the same watches. */
  ghost predicate SameWatches(r: ForeignRec) {
    && (forall i :: 0 <= i < |r.ties| ==> r.ties[i].id in r.ids && r.ids[r.ties[i].id].tie == r.ties[i].tie)
    && (forall i, j :: 0 <= i < j < |r.ties| ==> r.ties[i].id != r.ties[j].id)
    && (forall id :: id in r.ids ==> InTies(r.ties, id))
  }

  ghost predicate InTies(ties: seq<TieElem>, id: Id) {
    exists i :: 0 <= i < |ties| && ties[i].id == id
  }

  /** The table of fields holds exactly the fields some foreign watch is for. */
  ghost predicate FieldTable(fields: set<Field>, fw: map<FId, seq<FWatch>>) {
    forall x :: x in fields <==> HasField(fw, x)
  }

  // ---------------------------------------------------------------- reference counts

  ghost function Users(m: map<nat, Addr>, h: Addr): set<nat> {
    set x | x in m && m[x] == h
  }

  ghost function Count(m: map<nat, Addr>, h: Addr): nat {
    |Users(m, h)|
  }

  ghost function IdataOf(ids: map<Id, FWatchRec>): map<nat, Addr> {
    map id | id in ids :: ids[id].idata
  }

  ghost function FwCount(foreign: map<FId, ForeignRec>, f: FId, h: Addr): nat {
    if f in foreign then Count(IdataOf(foreign[f].ids), h) else 0
  }

  function One(b: bool): nat {
    if b then 1 else 0
  }

  /** Every count is exact, but for references the current call holds itself. */
  ghost predicate CountsExact(rs: map<Addr, IdataRec>, objects: map<Obj, Addr>, foreign: map<FId, ForeignRec>,
      xs: set<Addr>, ls: set<(Addr, FId)>) {
    && (forall h :: h in rs ==> rs[h].refs == Count(objects, h) + |rs[h].layers| + One(h in xs))
    && (forall h, j :: h in rs && 0 <= j < |rs[h].layers| ==>
          rs[h].layers[j].refs == FwCount(foreign, rs[h].layers[j].f, h) + One((h, rs[h].layers[j].f) in ls))
  }

  lemma CountPut(m: map<nat, Addr>, x: nat, h: Addr, h': Addr)
    ensures Count(m[x := h], h') == Count(m, h') + One(h' == h) - One(x in m && m[x] == h')
  {
    if h' == h {
      assert Users(m[x := h], h') == Users(m, h') + {x};
    } else {
      assert Users(m[x := h], h') == Users(m, h') - {x};
    }
  }

  lemma CountDrop(m: map<nat, Addr>, x: nat, h: Addr)
    requires x in m
    ensures Count(m - {x}, h) == Count(m, h) - One(m[x] == h)
  {
    assert Users(m - {x}, h) == Users(m, h) - {x};
  }

  lemma CountZero(m: map<nat, Addr>, h: Addr)
    ensures Count(m, h) == 0 <==> forall x :: x in m ==> m[x] != h
  {
    assert Users(m, h) == {} <==> forall x :: x in m ==> m[x] != h by {
      assert forall x :: x in m && m[x] == h ==> x in Users(m, h);
    }
  }

  // ---------------------------------------------------------------- idata records

  lemma AbsPut(rs: map<Addr, IdataRec>, saved: map<Addr, Struct>, h: Addr, r: IdataRec, st: Struct)
    requires rs.Keys == saved.Keys
    ensures AbsIdatas(rs[h := r], saved[h := st]) == AbsIdatas(rs, saved)[h := AbsIdata(r, st)]
  {
  }

  lemma AbsHas(rs: map<Addr, IdataRec>, saved: map<Addr, Struct>, h: Addr)
    requires rs.Keys == saved.Keys && h in rs
    ensures h in AbsIdatas(rs, saved) && AbsIdatas(rs, saved)[h] == AbsIdata(rs[h], saved[h])
  {
  }

  lemma LayerIdsSnoc(ls: seq<LayerRec>, f: FId)
    ensures LayerIds(ls + [LayerRec(f, 1)]) == LayerIds(ls) + [f]
  {
  }

  lemma LayerIdsWithout(ls: seq<LayerRec>, i: nat)
    requires i < |ls|
    ensures LayerIds(Without(ls, i)) == Without(LayerIds(ls), i)
  {
  }

  lemma AbsDrop(rs: map<Addr, IdataRec>, saved: map<Addr, Struct>, h: Addr)
    requires rs.Keys == saved.Keys
    ensures AbsIdatas(rs - {h}, saved - {h}) == AbsIdatas(rs, saved) - {h}
  {
  }

  /** Only the count of a record changes. */
  lemma AbsCount(rs: map<Addr, IdataRec>, saved: map<Addr, Struct>, h: Addr, n: int)
    requires rs.Keys == saved.Keys && h in rs
    ensures AbsIdatas(rs[h := rs[h].(refs := n)], saved) == AbsIdatas(rs, saved)
  {
  }

  // ---------------------------------------------------------------- foreign watch tables

  lemma AbsForeignPut(foreign: map<FId, ForeignRec>, f: FId, r: ForeignRec)
    ensures AbsForeign(foreign[f := r]) == AbsForeign(foreign)[f := AbsWatches(r)]
  {
  }

  /** Looking an id up in its table finds the watch the list of watches has under it. */
  lemma FindIdIs(r: ForeignRec, id: Id)
    requires SameWatches(r)
    ensures var i := FindId(AbsWatches(r), id);
            && (i >= 0 <==> id in r.ids)
            && (i >= 0 ==>
              r.ties[i].id == id && AbsWatches(r)[i] == FWatch(id, r.ids[id].tie, r.ids[id].field, r.ids[id].idata))
  {
  }

  /** The number of watches of a foreign instrumentor on an idata is what its layer is held by. */
  lemma HeldIsCount(foreign: map<FId, ForeignRec>, s: Inst, f: FId, h: Addr)
    requires s.fw == AbsForeign(foreign) && (f in foreign ==> SameWatches(foreign[f]))
    ensures Held(s, f, h) <==> FwCount(foreign, f, h) > 0
  {
    if f in foreign {
      var r := foreign[f];
      CountZero(IdataOf(r.ids), h);
      if FwCount(foreign, f, h) > 0 {
        var id :| id in IdataOf(r.ids) && IdataOf(r.ids)[id] == h;
        var i :| 0 <= i < |r.ties| && r.ties[i].id == id;
        assert s.fw[f][i].idata == h;
      }
      if Held(s, f, h) {
        var i :| 0 <= i < |s.fw[f]| && s.fw[f][i].idata == h;
        assert IdataOf(r.ids)[r.ties[i].id] == h;
      }
    }
  }

  /** A new watch goes to the front. */
  lemma PutWatch(r: ForeignRec, id: Id, w: FWatchRec)
    requires SameWatches(r) && id !in r.ids
    ensures var r' := ForeignRec(r.ids[id := w], [TieElem(w.tie, id)] + r.ties);
            SameWatches(r') && AbsWatches(r') == [FWatch(id, w.tie, w.field, w.idata)] + AbsWatches(r)
  {
    var r' := ForeignRec(r.ids[id := w], [TieElem(w.tie, id)] + r.ties);
    assert r'.ties[0].id == id && forall i :: 1 <= i < |r'.ties| ==> r'.ties[i] == r.ties[i - 1];
    forall id' | id' in r'.ids ensures InTies(r'.ties, id') {
      if id' != id {
        var i :| 0 <= i < |r.ties| && r.ties[i].id == id';
        assert r'.ties[i + 1].id == id';
      }
    }
    hide InTies;
    assert forall i :: 1 <= i < |r'.ties| ==> AbsWatch(r', r'.ties[i]) == AbsWatch(r, r.ties[i - 1]);
  }

  function MoveRec(r: ForeignRec, id: Id, h: Addr): ForeignRec
    requires id in r.ids
  {
    r.(ids := r.ids[id := r.ids[id].(idata := h)])
  }

  lemma MoveSame(r: ForeignRec, id: Id, h: Addr)
    requires SameWatches(r) && id in r.ids
    ensures SameWatches(MoveRec(r, id, h))
  {
    hide InTies;
  }

  lemma MoveAbs(r: ForeignRec, id: Id, h: Addr)
    requires SameWatches(r) && id in r.ids
    ensures var i := FindId(AbsWatches(r), id);
            i >= 0 && AbsWatches(MoveRec(r, id, h)) == AbsWatches(r)[i := AbsWatches(r)[i].(idata := h)]
  {
    FindIdIs(r, id);
    hide InTies;
    var i := FindId(AbsWatches(r), id);
    var ws := AbsWatches(r)[i := AbsWatches(r)[i].(idata := h)];
    forall j | 0 <= j < |ws| ensures AbsWatches(MoveRec(r, id, h))[j] == ws[j] {
      assert j != i ==> r.ties[j].id != id;
    }
  }

  function TakeRec(r: ForeignRec, id: Id, i: nat): ForeignRec
    requires i < |r.ties|
  {
    ForeignRec(r.ids - {id}, Without(r.ties, i))
  }

  lemma TakeAt(r: ForeignRec, id: Id, i: nat)
    requires i < |r.ties|
    ensures var ties := TakeRec(r, id, i).ties;
            |ties| == |r.ties| - 1 && forall j :: 0 <= j < |ties| ==> ties[j] == r.ties[if j < i then j else j + 1]
  {
  }

  lemma TakeSame(r: ForeignRec, id: Id, i: nat)
    requires SameWatches(r) && i < |r.ties| && r.ties[i].id == id
    ensures SameWatches(TakeRec(r, id, i))
  {
    hide TakeRec, Without;
    TakeAt(r, id, i);
    var r' := TakeRec(r, id, i);
    assert r'.ids == r.ids - {id} by { TakeIds(r, id, i); }
    forall id' | id' in r'.ids ensures InTies(r'.ties, id') {
      assert InTies(r.ties, id');
      var j :| 0 <= j < |r.ties| && r.ties[j].id == id';
      assert r'.ties[if j < i then j else j - 1].id == id';
    }
  }

  lemma TakeIds(r: ForeignRec, id: Id, i: nat)
    requires i < |r.ties|
    ensures TakeRec(r, id, i).ids == r.ids - {id}
  {
  }

  lemma TakeAbs(r: ForeignRec, id: Id, i: nat)
    requires SameWatches(r) && i < |r.ties| && r.ties[i].id == id
    ensures AbsWatches(TakeRec(r, id, i)) == Without(AbsWatches(r), i)
  {
    hide InTies;
    TakeAt(r, id, i);
    var r' := TakeRec(r, id, i);
    forall j | 0 <= j < |r'.ties| ensures AbsWatches(r')[j] == Without(AbsWatches(r), i)[j] {
      var j' := if j < i then j else j + 1;
      assert r'.ties[j] == r.ties[j'] && r.ties[j'].id != id;
      assert AbsWatch(r', r'.ties[j]) == AbsWatch(r, r.ties[j']);
    }
  }

  lemma PutFwCounts(rs: map<Addr, IdataRec>, objects: map<Obj, Addr>, foreign: map<FId, ForeignRec>, f: FId,
      r: ForeignRec, id: Id, w: FWatchRec)
    requires CountsExact(rs, objects, foreign, {}, {(w.idata, f)}) && f in foreign && id !in foreign[f].ids
    requires r.ids == foreign[f].ids[id := w]
    ensures CountsExact(rs, objects, foreign[f := r], {}, {})
  {
    assert IdataOf(r.ids) == IdataOf(foreign[f].ids)[id := w.idata];
    forall h ensures FwCount(foreign[f := r], f, h) == FwCount(foreign, f, h) + One(h == w.idata) {
      CountPut(IdataOf(foreign[f].ids), id, w.idata, h);
    }
  }

  lemma MoveFwCounts(rs: map<Addr, IdataRec>, objects: map<Obj, Addr>, foreign: map<FId, ForeignRec>, f: FId, id: Id,
      h: Addr)
    requires CountsExact(rs, objects, foreign, {}, {(h, f)}) && f in foreign && id in foreign[f].ids
    requires foreign[f].ids[id].idata != h
    ensures CountsExact(rs, objects, foreign[f := MoveRec(foreign[f], id, h)], {}, {(foreign[f].ids[id].idata, f)})
  {
    var r := MoveRec(foreign[f], id, h);
    assert IdataOf(r.ids) == IdataOf(foreign[f].ids)[id := h];
    forall h' ensures FwCount(foreign[f := r], f, h') ==
      (FwCount(foreign, f, h') + One(h' == h) - One(h' == foreign[f].ids[id].idata))
    {
      CountPut(IdataOf(foreign[f].ids), id, h, h');
    }
  }

  lemma TakeFwCounts(rs: map<Addr, IdataRec>, objects: map<Obj, Addr>, foreign: map<FId, ForeignRec>, f: FId,
      r: ForeignRec, id: Id)
    requires CountsExact(rs, objects, foreign, {}, {}) && f in foreign && id in foreign[f].ids
    requires r.ids == foreign[f].ids - {id}
    ensures CountsExact(rs, objects, foreign[f := r], {}, {(foreign[f].ids[id].idata, f)})
  {
    assert IdataOf(r.ids) == IdataOf(foreign[f].ids) - {id};
    forall h ensures FwCount(foreign[f := r], f, h) == FwCount(foreign, f, h) - One(h == foreign[f].ids[id].idata) {
      CountDrop(IdataOf(foreign[f].ids), id, h);
    }
  }

  // ---------------------------------------------------------------- the table of fields

  lemma PutFields(fields: set<Field>, fw: map<FId, seq<FWatch>>, f: FId, w: FWatch)
    requires FieldTable(fields, fw) && f in fw
    ensures FieldTable(fields + {w.field}, fw[f := [w] + fw[f]])
  {
    var fw' := fw[f := [w] + fw[f]];
    assert fw'[f][0] == w;
    forall x ensures HasField(fw', x) <==> HasField(fw, x) || x == w.field {
      if HasField(fw, x) {
        var g, i :| g in fw && 0 <= i < |fw[g]| && fw[g][i].field == x;
        assert fw'[g][if g == f then i + 1 else i].field == x;
      }
    }
  }

  lemma MoveFields(fields: set<Field>, fw: map<FId, seq<FWatch>>, f: FId, i: nat, h: Addr)
    requires FieldTable(fields, fw) && f in fw && i < |fw[f]|
    ensures FieldTable(fields, fw[f := fw[f][i := fw[f][i].(idata := h)]])
  {
    var fw': map<FId, seq<FWatch>> := fw[f := fw[f][i := fw[f][i].(idata := h)]];
    assert forall g, j :: g in fw && 0 <= j < |fw[g]| ==> fw'[g][j].field == fw[g][j].field;
    forall x ensures HasField(fw', x) <==> HasField(fw, x) {
      if HasField(fw, x) {
        var g, j :| g in fw && 0 <= j < |fw[g]| && fw[g][j].field == x;
        assert fw'[g][j].field == x;
      }
    }
  }

  lemma TakeFields(fields: set<Field>, s: Inst, f: FId, i: nat)
    requires FieldTable(fields, s.fw) && FieldsOk(s) && f in s.fw && i < |s.fw[f]|
    ensures FieldTable(fields - {s.fw[f][i].field}, s.fw[f := Without(s.fw[f], i)])
  {
    var fw' := s.fw[f := Without(s.fw[f], i)];
    assert forall g, j :: g in fw' && 0 <= j < |fw'[g]| ==> fw'[g][j] == s.fw[g][if g == f && j >= i then j + 1 else j];
    forall x ensures HasField(fw', x) <==> HasField(s.fw, x) && x != s.fw[f][i].field {
      if HasField(s.fw, x) && x != s.fw[f][i].field {
        var g, j :| g in s.fw && 0 <= j < |s.fw[g]| && s.fw[g][j].field == x;
        assert fw'[g][if g == f && j > i then j - 1 else j].field == x;
      }
    }
  }

  lemma StartTables(c: Config)
    ensures var foreign: map<FId, ForeignRec> := map f | f in c.foreign :: ForeignRec(map[], []);
            && AbsForeign(foreign) == (map f | f in c.foreign :: []) && FieldTable({}, AbsForeign(foreign))
            && (forall f :: f in foreign ==> SameWatches(foreign[f]))
            && CountsExact(map[], map[], foreign, {}, {})
    ensures AbsIdatas(map[], map[]) == map[]
  {
  }

  class Instrumentor {
    const m: OpsMemory
    const c: Config

    /** Idatas by each of their addresses, and their records. */
    var table: map<Addr, Addr>
    var idatas: map<Addr, IdataRec>
    /** Watches by object. */
    var objects: map<Obj, Addr>
    /** Foreign watches, and the fields they are for. */
    var foreign: map<FId, ForeignRec>
    var foreignOpsP: set<Field>
    /** The original contents of every struct now replaced. */
    ghost var saved: map<Addr, Struct>

    ghost function S(): Inst
      reads this
    {
      Inst(table, AbsIdatas(idatas, saved), objects, AbsForeign(foreign))
    }

    ghost predicate Linked()
      reads this
    {
      && saved.Keys == idatas.Keys
      && (forall h :: h in idatas && idatas[h].inPlace ==> idatas[h].copy == saved[h])
      && (forall f :: f in foreign ==> SameWatches(foreign[f]))
      && FieldTable(foreignOpsP, AbsForeign(foreign))
    }

    /** In the middle of a call that itself holds the references in `xs` and `ls`. */
    ghost predicate Mid(xs: set<Addr>, ls: set<(Addr, FId)>)
      reads this, m
    {
      && Core(c, m.K(), S()) && LiveBut(S(), xs, ls) && Linked()
      && CountsExact(idatas, objects, foreign, xs, ls)
    }

    ghost predicate Valid()
      reads this, m
    {
      Mid({}, {})
    }

    /** An instrumentor that has instrumented nothing yet. */
    constructor (m: OpsMemory, c: Config)
      requires WfConfig(c) && forall a :: a in m.owner ==> m.owner[a] != c.id
      ensures this.m == m && this.c == c && Valid()
      ensures S() == Inst(map[], map[], map[], map f | f in c.foreign :: [])
    {
      hide Core, LiveBut, AbsForeign, AbsIdatas, FieldTable, CountsExact, SameWatches;
      this.m, this.c := m, c;
      table, idatas, objects, saved := map[], map[], map[], map[];
      foreign := map f | f in c.foreign :: ForeignRec(map[], []);
      foreignOpsP := {};
      new;
      StartTables(c);
      StartInv(c, m.K());
      assert Linked();
      assert CountsExact(idatas, objects, foreign, {}, {});
      assert S() == Inst(map[], map[], map[], map f | f in c.foreign :: []);
      assert Core(c, m.K(), S());
      assert LiveBut(S(), {}, {});
    }

    /** Enter a new record, with the caller's reference to it. */
    method EnterIdata(h: Addr, r: IdataRec, st: Struct)
      requires Linked() && CountsExact(idatas, objects, foreign, {}, {}) && h !in idatas && r.refs == 1
      requires r.layers == []
      requires (r.inPlace ==> r.copy == st) && forall o :: o in objects ==> objects[o] in idatas
      modifies this`idatas, this`saved
      ensures S() == old(S()).(idatas := old(S()).idatas[h := AbsIdata(r, st)])
      ensures Linked() && CountsExact(idatas, objects, foreign, {h}, {}) && idatas.Keys == old(idatas.Keys) + {h}
    {
      hide CountsExact, SameWatches, FieldTable, AbsForeign, AbsIdatas, AbsIdata;
      AbsPut(idatas, saved, h, r, st);
      NewCounts(idatas, objects, foreign, h, r);
      idatas := idatas[h := r];
      saved := saved[h := st];
    }

    /** Instrument a struct where it is, keeping a copy of the original. */
    method CreateInPlace(ops: Addr)
      requires Valid() && OpsOk(c, m.K(), ops) && ops != NULL && ops !in m.owner
      modifies this`table, this`idatas, this`saved, m
      ensures m.K() == Kernel(old(m.mem)[ops := Render(c, old(m.mem[ops]), [])], old(m.owner)[ops := c.id])
      ensures S() == old(S()).(table := old(table)[ops := ops],
                               idatas := old(S()).idatas[ops := Idata(true, ops, old(m.mem[ops]), [])])
      ensures Linked() && CountsExact(idatas, objects, foreign, {ops}, {})
      ensures idatas.Keys == old(idatas.Keys) + {ops}
    {
      hide Core, LiveBut, Render, Pristine, CountsExact, SameWatches, FieldTable, AbsForeign, AbsIdatas, Watched;
      FreshAddr(c, m.K(), idatas, saved, S());
      EnterIdata(ops, IdataRec(1, true, ops, m.mem[ops], []), m.mem[ops]);
      m.owner := m.owner[ops := c.id];
      table := table[ops := ops];
      m.Replace(ops, c);
    }

    /** Instrument a copy at the fresh address `a`. */
    method CreateCopy(ops: Addr, a: Addr)
      requires Valid() && OpsOk(c, m.K(), ops) && ops !in m.owner && a != NULL && a !in m.mem && a !in m.owner
      modifies this`table, this`idatas, this`saved, m
      ensures var orig := Original(c, old(m.mem), ops);
              && m.K() == Kernel(old(m.mem)[a := Render(c, orig, [])], old(m.owner)[ops := c.id][a := c.id])
              && S() == old(S()).(table := old(table)[ops := a][a := a],
                                  idatas := old(S()).idatas[a := Idata(false, ops, orig, [])])
      ensures Linked() && CountsExact(idatas, objects, foreign, {a}, {})
      ensures idatas.Keys == old(idatas.Keys) + {a}
    {
      hide Core, LiveBut, Render, Pristine, CountsExact, SameWatches, FieldTable, AbsForeign, AbsIdatas, Watched;
      FreshAddr(c, m.K(), idatas, saved, S());
      var st := Original(c, m.mem, ops);
      EnterIdata(a, IdataRec(1, false, ops, [], []), st);
      m.owner := m.owner[ops := c.id][a := c.id];
      table := table[ops := a][a := a];
      m.ReplaceCopy(a, st, c);
    }

    /** A new idata, in place or with a copy; the caller gets its first reference. */
    method CreateIdata(ops: Addr, e: Env) returns (status: Status, h: Addr)
      requires Valid() && OpsOk(c, m.K(), ops) && EnvOk(m.K(), e) && ops !in table
      modifies this`table, this`idatas, this`saved, m
      ensures var g := Create(c, old(m.K()), old(S()), ops, e);
              if g.Got? then status == Done && h == g.h && m.K() == g.k && S() == g.s && Linked()
                && CountsExact(idatas, objects, foreign, {h}, {})
              else status == g.status && unchanged(this) && unchanged(m)
      ensures forall x :: x in old(idatas) ==> x in idatas
      ensures status == Done ==> h in idatas
    {
      hide Core, LiveBut, Render, Pristine, CountsExact, Linked, AbsForeign, AbsIdatas;
      status, h := Done, NULL;
      if !e.idata || e.copy == NULL {
        status := NoMem;
      } else if ops in m.owner {
        status := Busy;
      } else if ops != NULL && e.place {
        h := ops;
        CreateInPlace(ops);
        assert old(m.owner)[ops := c.id][ops := c.id] == old(m.owner)[ops := c.id];
        assert old(table)[ops := ops][ops := ops] == old(table)[ops := ops];
      } else {
        h := e.copy;
        CreateCopy(ops, h);
      }
    }

    /** Find the idata of an address, or make one; the caller gets a reference. */
    method GetIdata(ops: Addr, e: Env) returns (status: Status, h: Addr)
      requires Valid() && OpsOk(c, m.K(), ops) && EnvOk(m.K(), e)
      modifies this`table, this`idatas, this`saved, m
      ensures var g := GetData(c, old(m.K()), old(S()), ops, e);
              if g.Got? then status == Done && h == g.h && m.K() == g.k && S() == g.s && Mid({h}, {})
              else status == g.status && unchanged(this) && unchanged(m)
      ensures forall x :: x in old(idatas) ==> x in idatas
      ensures status == Done ==> h in idatas
    {
      hide Core, LiveBut, CountsExact, AbsForeign, AbsIdatas, Create;
      GetDataOk(c, m.K(), S(), ops, e);
      if ops in table {
        h := table[ops];
        TableRefs(c, m.K(), S(), idatas, saved);
        AbsCount(idatas, saved, h, idatas[h].refs + 1);
        RefCounts(idatas, objects, foreign, h, 1);
        idatas := idatas[h := idatas[h].(refs := idatas[h].refs + 1)];
        status := Done;
      } else {
        status, h := CreateIdata(ops, e);
      }
    }

    /** The last reference is gone: put the struct back unless told not to, and forget the idata. */
    method DestroyIdata(h: Addr, restore: bool)
      requires Mid({h}, {}) && h in idatas && S().idatas[h].layers == [] && !Watched(S(), h)
      modifies this`table, this`idatas, this`saved, m
      ensures var r := Destroy(old(m.K()), old(S()), h, restore); m.K() == r.0 && S() == r.1
      ensures Linked() && CountsExact(idatas, objects, foreign, {}, {})
    {
      hide Core, LiveBut, CountsExact, AbsForeign, AbsIdatas, SameWatches, FieldTable, Render, Pristine, Watched;
      IdataFacts(c, m.K(), S(), idatas, saved, h);
      AbsDrop(idatas, saved, h);
      DropCounts(idatas, objects, foreign, h);
      var r := idatas[h];
      if r.inPlace {
        if restore {
          m.Restore(h, c, r.copy);
        }
      } else {
        m.mem := m.mem - {h};
      }
      table := table - {h, r.orig};
      m.owner := m.owner - {h, r.orig};
      idatas := idatas - {h};
      saved := saved - {h};
    }

    /** Give a reference back. */
    method UnrefIdata(h: Addr, restore: bool)
      requires Mid({h}, {}) && h in idatas
      modifies this`table, this`idatas, this`saved, m
      ensures var r := Release(old(m.K()), old(S()), h, restore); m.K() == r.0 && S() == r.1
      ensures Valid()
    {
      hide Core, CountsExact, AbsForeign, SameWatches, FieldTable, Destroy, Watched, Held;
      ReleaseInv(c, m.K(), S(), h, restore);
      RefsZero(idatas, saved, objects, foreign, S(), h);
      if idatas[h].refs - 1 == 0 {
        DestroyIdata(h, restore);
      } else {
        RefCounts(idatas, objects, foreign, h, -1);
        PutRefs(h, idatas[h].refs - 1);
      }
    }

    // -------------------------------------------------------------- normal watches

    /** A watched object may have got other operations since. */
    method UpdateWatch(o: Obj, ops: Addr, e: Env) returns (status: Status, ops': Addr)
      requires Valid() && OpsOk(c, m.K(), ops) && EnvOk(m.K(), e) && o in objects
      modifies this`table, this`idatas, this`saved, this`objects, m
      ensures Valid()
      ensures Out(m.K(), S(), ops', status) == Watch(c, old(m.K()), old(S()), o, ops, e)
    {
      hide Core, LiveBut, CountsExact, AbsForeign, SameWatches, FieldTable, GetData, Release, OpsOk;
      GetDataOk(c, m.K(), S(), ops, e);
      var h := objects[o];
      ObjectIdata(c, m.K(), S(), idatas, saved, o);
      if ops == h || ops == idatas[h].orig {
        return Already, h;
      }
      var orig := idatas[h].orig;
      var h';
      status, h' := GetIdata(ops, e);
      if status != Done {
        ObjDropCounts(idatas, objects, foreign, o);
        DropObject(c, m.K(), S(), o);
        objects := objects - {o};
        UnrefIdata(h, true);
        return status, orig;
      }
      ObjPutCounts(idatas, objects, foreign, o, h');
      PutObject(c, m.K(), S(), o, h');
      objects := objects[o := h'];
      UnrefIdata(h, true);
      return Already, h';
    }

    /** Watch an object whose operations field holds `ops`; the field's new value is returned. */
    method WatchObject(o: Obj, ops: Addr, e: Env) returns (status: Status, ops': Addr)
      requires Valid() && OpsOk(c, m.K(), ops) && EnvOk(m.K(), e)
      modifies this`table, this`idatas, this`saved, this`objects, m
      ensures Valid()
      ensures Out(m.K(), S(), ops', status) == Watch(c, old(m.K()), old(S()), o, ops, e)
    {
      hide Core, LiveBut, CountsExact, AbsForeign, AbsIdatas, SameWatches, FieldTable, GetData, Release, OpsOk;
      if o in objects {
        status, ops' := UpdateWatch(o, ops, e);
        return;
      }
      GetDataOk(c, m.K(), S(), ops, e);
      var h;
      status, h := GetIdata(ops, e);
      if status != Done {
        return status, ops;
      }
      if !e.watch {
        UnrefIdata(h, true);
        return NoMem, ops;
      }
      ObjPutCounts(idatas, objects, foreign, o, h);
      PutObject(c, m.K(), S(), o, h);
      objects := objects[o := h];
      ops' := h;
    }

    /** Forget an object; `ops` is what its operations field holds, None if it must not be touched. */
    method ForgetObject(o: Obj, ops: Option<Addr>) returns (status: Status, ops': Addr)
      requires Valid()
      modifies this`table, this`idatas, this`saved, this`objects, m
      ensures Valid()
      ensures Out(m.K(), S(), ops', status) == Forget(c, old(m.K()), old(S()), o, ops)
      ensures objects == old(objects) - {o}
    {
      hide Core, LiveBut, CountsExact, AbsForeign, SameWatches, FieldTable, Release;
      ops' := if ops.Some? then ops.value else NULL;
      if o !in objects {
        return NotWatched, ops';
      }
      var h := objects[o];
      ObjectIdata(c, m.K(), S(), idatas, saved, o);
      if ops.Some? && (ops.value == h || ops.value == idatas[h].orig) {
        ops' := idatas[h].orig;
      }
      ObjDropCounts(idatas, objects, foreign, o);
      DropObject(c, m.K(), S(), o);
      objects := objects - {o};
      UnrefIdata(h, true);
      status := Done;
    }

    /** Forget an object that is its own operations struct. */
    method ForgetObjectDirect(o: Obj, norestore: bool) returns (status: Status)
      requires Valid()
      modifies this`table, this`idatas, this`saved, this`objects, m
      ensures Valid()
      ensures Out(m.K(), S(), o, status) == ForgetDirect(c, old(m.K()), old(S()), o, norestore)
    {
      hide Core, LiveBut, CountsExact, AbsForeign, SameWatches, FieldTable, Release;
      if o !in objects {
        return NotWatched;
      }
      var h := objects[o];
      ObjectIdata(c, m.K(), S(), idatas, saved, o);
      ObjDropCounts(idatas, objects, foreign, o);
      DropObject(c, m.K(), S(), o);
      objects := objects - {o};
      UnrefIdata(h, !norestore);
      status := Done;
    }

    // -------------------------------------------------------------- foreign layers

    /** The original contents of an instrumented struct. */
    method OriginalOf(h: Addr) returns (st: Struct)
      requires h in idatas && Core(c, m.K(), S()) && Linked()
      ensures h in saved && st == saved[h]
    {
      assert IdataOk(c, m.K(), h, S().idatas[h]);
      st := if idatas[h].inPlace then idatas[h].copy else Original(c, m.mem, idatas[h].orig);
    }

    /** Put a foreign layer on a struct; it takes over the caller's reference to the idata. */
    method AttachLayer(h: Addr, f: FId)
      requires Mid({h}, {}) && h in idatas && f in c.foreign && f !in LayerIds(idatas[h].layers)
      modifies this`idatas, m`mem
      ensures h in old(S()).idatas
      ensures var r := AddLayer(c, old(m.K()), old(S()), f, h); m.K() == r.0 && S() == r.1
      ensures Mid({}, {(h, f)}) && idatas.Keys == old(idatas.Keys)
    {
      hide Core, LiveBut, CountsExact, AbsForeign, SameWatches, FieldTable, Render, Pristine;
      IdataFacts(c, m.K(), S(), idatas, saved, h);
      AddLayerOk(c, m.K(), S(), f, h);
      hide AbsIdatas, LayerIds;
      var st := OriginalOf(h);
      var ls := idatas[h].layers;
      NoWatches(c, m.K(), S(), foreign, f, h);
      AttachCounts(idatas, objects, foreign, h, f);
      m.Overlay(h, c, f, st, LayerIds(ls));
      LayerIdsSnoc(ls, f);
      PutLayers(h, ls + [LayerRec(f, 1)]);
    }

    /** Another list of layers for an idata. */
    method PutLayers(h: Addr, ls: seq<LayerRec>)
      requires h in idatas && Linked()
      modifies this`idatas
      ensures h in old(S()).idatas && idatas == old(idatas)[h := old(idatas[h]).(layers := ls)]
      ensures S() == old(S()).(idatas := old(S()).idatas[h := old(S()).idatas[h].(layers := LayerIds(ls))])
      ensures Linked()
    {
      hide AbsForeign, SameWatches, FieldTable, LayerIds;
      var r := idatas[h].(layers := ls);
      AbsPut(idatas, saved, h, r, saved[h]);
      assert saved[h := saved[h]] == saved;
      idatas := idatas[h := r];
    }

    /** Another count of references to an idata. */
    method PutRefs(h: Addr, n: int)
      requires h in idatas && Linked()
      modifies this`idatas
      ensures idatas == old(idatas)[h := old(idatas[h]).(refs := n)]
      ensures S() == old(S()) && Linked()
    {
      hide AbsForeign, SameWatches, FieldTable, LayerIds;
      AbsCount(idatas, saved, h, n);
      idatas := idatas[h := idatas[h].(refs := n)];
    }

    /** The foreign data of `f` on an idata, by going through its list. */
    method FindLayer(ls: seq<LayerRec>, f: FId) returns (i: int)
      ensures -1 <= i < |ls|
      ensures i >= 0 ==> f in LayerIds(ls) && i == IndexOf(LayerIds(ls), f)
      ensures i < 0 ==> f !in LayerIds(ls)
    {
      i := 0;
      while i < |ls|
        invariant 0 <= i <= |ls|
        invariant f !in LayerIds(ls)[..i]
      {
        if ls[i].f == f {
          IndexOfFirst(LayerIds(ls), i);
          return;
        }
        assert LayerIds(ls)[..i + 1] == LayerIds(ls)[..i] + [ls[i].f];
        i := i + 1;
      }
      assert LayerIds(ls)[..|ls|] == LayerIds(ls);
      i := -1;
    }

    /** One reference more to a layer. */
    method RefLayer(h: Addr, f: FId, i: nat)
      requires Valid() && h in idatas && i < |idatas[h].layers| && idatas[h].layers[i].f == f
      modifies this`idatas
      ensures m.K() == old(m.K()) && S() == old(S()) && Mid({}, {(h, f)}) && idatas.Keys == old(idatas.Keys)
    {
      hide Core, LiveBut, CountsExact, AbsForeign, AbsIdatas, SameWatches, FieldTable;
      var r := idatas[h];
      var r' := SetLayerRefs(r, i, r.layers[i].refs + 1);
      IdataLayers(c, m.K(), S(), idatas, saved, h);
      LayerCounts(idatas, objects, foreign, h, i, 1);
      AbsLayerRefs(idatas, saved, h, i, r.layers[i].refs + 1);
      LiveMore(S(), {(h, f)});
      idatas := idatas[h := r'];
    }

    /** Find or put on the layer of a foreign instrumentor; the caller gets a reference to it. */
    method GetForeign(f: FId, ops: Addr, e: Env) returns (status: Status, h: Addr)
      requires Valid() && f in c.foreign && OpsOk(c, m.K(), ops) && EnvOk(m.K(), e)
      modifies this`table, this`idatas, this`saved, m
      ensures var g := FGetData(c, old(m.K()), old(S()), f, ops, e);
              if g.Got? then status == Done && h == g.h && m.K() == g.k && S() == g.s && Mid({}, {(h, f)})
              else status == g.status && m.K() == old(m.K()) && S() == old(S()) && Valid()
      ensures status == Done ==> h in idatas && forall x :: x in old(idatas) ==> x in idatas
    {
      hide Core, LiveBut, CountsExact, AbsForeign, SameWatches, FieldTable, Conserved, Release, GetData, OpsOk, EnvOk,
        AddLayer;
      h := NULL;
      GetDataOk(c, m.K(), S(), ops, e);
      TableRefs(c, m.K(), S(), idatas, saved);
      if ops in table {
        h := table[ops];
        var i := FindLayer(idatas[h].layers, f);
        if i >= 0 {
          RefLayer(h, f, i);
          return Done, h;
        }
      }
      status, h := GetIdata(ops, e);
      if status != Done {
        return;
      }
      if !e.layer {
        UnrefIdata(h, true);
        return NoMem, NULL;
      }
      AttachLayer(h, f);
    }

    /** Take the layer out of the struct; what it held of the idata becomes the caller's. */
    method DetachLayer(h: Addr, f: FId, i: nat)
      requires Mid({}, {(h, f)}) && h in idatas && i < |idatas[h].layers| && idatas[h].layers[i].f == f
      requires !Held(S(), f, h)
      modifies this`idatas, m`mem
      ensures var d := old(S()).idatas[h];
              var layers := Without(d.layers, i);
              && h in old(S()).idatas && i < |d.layers|
              && m.K() == old(m.K()).(mem := old(m.mem)[h := Render(c, d.saved, layers)])
              && S() == old(S()).(idatas := old(S()).idatas[h := d.(layers := layers)])
      ensures Linked() && CountsExact(idatas, objects, foreign, {h}, {}) && idatas.Keys == old(idatas.Keys)
    {
      hide Core, LiveBut, CountsExact, AbsForeign, SameWatches, FieldTable, Render, Pristine, Held;
      IdataFacts(c, m.K(), S(), idatas, saved, h);
      IdataLayers(c, m.K(), S(), idatas, saved, h);
      hide AbsIdatas, LayerIds;
      var st := OriginalOf(h);
      var ls := idatas[h].layers;
      DetachCounts(idatas, objects, foreign, h, i);
      m.Detach(h, c, st, LayerIds(ls), i);
      LayerIdsWithout(ls, i);
      PutLayers(h, Without(ls, i));
    }

    /** Give a reference to a layer back. */
    method UnrefLayer(h: Addr, f: FId)
      requires Mid({}, {(h, f)}) && h in idatas && f in LayerIds(idatas[h].layers)
      modifies this`table, this`idatas, this`saved, m
      ensures h in old(S()).idatas && f in old(S()).idatas[h].layers
      ensures var r := DropLayer(c, old(m.K()), old(S()), f, h); m.K() == r.0 && S() == r.1
      ensures Valid() && Conserved(c, old(m.K()), old(S()), m.K(), S())
    {
      hide Core, LiveBut, CountsExact, AbsForeign, AbsIdatas, SameWatches, FieldTable, Render, Held, Release, Conserved;
      AbsHas(idatas, saved, h);
      DropLayerOk(c, m.K(), S(), f, h);
      IdataLayers(c, m.K(), S(), idatas, saved, h);
      var i := FindLayer(idatas[h].layers, f);
      LayerRefs(idatas, objects, foreign, h, i);
      HeldIsCount(foreign, S(), f, h);
      if idatas[h].layers[i].refs - 1 == 0 {
        DropLayerMid(c, m.K(), S(), f, h);
        DetachLayer(h, f, i);
        UnrefIdata(h, true);
      } else {
        UnrefLayerOnly(h, i);
      }
    }

    /** One reference less to a layer that has more. */
    method UnrefLayerOnly(h: Addr, i: nat)
      requires h in idatas && i < |idatas[h].layers| && Linked()
      requires CountsExact(idatas, objects, foreign, {}, {(h, idatas[h].layers[i].f)})
      requires forall a, b :: 0 <= a < b < |idatas[h].layers| ==> idatas[h].layers[a].f != idatas[h].layers[b].f
      modifies this`idatas
      ensures S() == old(S()) && Linked() && CountsExact(idatas, objects, foreign, {}, {})
    {
      hide CountsExact, AbsForeign, SameWatches, FieldTable;
      LayerCounts(idatas, objects, foreign, h, i, -1);
      AbsLayerRefs(idatas, saved, h, i, idatas[h].layers[i].refs - 1);
      idatas := idatas[h := SetLayerRefs(idatas[h], i, idatas[h].layers[i].refs - 1)];
    }

    // -------------------------------------------------------------- foreign watches

    /** Enter a watch in the three tables that index it; the reference to its layer goes into it. */
    method AddWatch(f: FId, id: Id, w: FWatchRec)
      requires Mid({}, {(w.idata, f)}) && f in c.foreign && f in foreign && id !in foreign[f].ids
      requires w.field !in foreignOpsP
      requires w.idata in idatas && f in LayerIds(idatas[w.idata].layers)
      modifies this`foreign, this`foreignOpsP
      ensures Valid() && m.K() == old(m.K())
      ensures S() == SetFw(old(S()), f, [FWatch(id, w.tie, w.field, w.idata)] + old(S()).fw[f])
    {
      hide Core, LiveBut, CountsExact, AbsWatches, SameWatches, HasField, Conserved;
      var r := ForeignRec(foreign[f].ids[id := w], [TieElem(w.tie, id)] + foreign[f].ties);
      FindIdIs(foreign[f], id);
      PutFw(c, m.K(), S(), f, FWatch(id, w.tie, w.field, w.idata));
      PutFwCounts(idatas, objects, foreign, f, r, id, w);
      PutFields(foreignOpsP, AbsForeign(foreign), f, FWatch(id, w.tie, w.field, w.idata));
      PutWatch(foreign[f], id, w);
      AbsForeignPut(foreign, f, r);
      foreign := foreign[f := r];
      foreignOpsP := foreignOpsP + {w.field};
    }

    /** Let a watch refer to another idata; the reference it had is the caller's. */
    method MoveWatch(f: FId, id: Id, h: Addr)
      requires Mid({}, {(h, f)}) && f in c.foreign && f in foreign && id in foreign[f].ids
      requires foreign[f].ids[id].idata != h
      requires h in idatas && f in LayerIds(idatas[h].layers)
      modifies this`foreign
      ensures var ws := old(S()).fw[f];
              var i := FindId(ws, id);
              && i >= 0 && ws[i].idata == old(foreign[f].ids[id].idata)
              && S() == SetFw(old(S()), f, ws[i := ws[i].(idata := h)])
      ensures Mid({}, {(old(foreign[f].ids[id].idata), f)}) && m.K() == old(m.K())
    {
      hide Core, LiveBut, CountsExact, AbsWatches, SameWatches, HasField, Conserved, FieldTable;
      var r := MoveRec(foreign[f], id, h);
      FindIdIs(foreign[f], id);
      ghost var i := FindId(AbsWatches(foreign[f]), id);
      MoveFw(c, m.K(), S(), f, i, h);
      MoveFwCounts(idatas, objects, foreign, f, id, h);
      MoveFields(foreignOpsP, AbsForeign(foreign), f, i, h);
      MoveSame(foreign[f], id, h);
      MoveAbs(foreign[f], id, h);
      AbsForeignPut(foreign, f, r);
      foreign := foreign[f := r];
    }

    /** Remove a watch from its three tables; the reference it had is the caller's. */
    method TakeWatch(f: FId, id: Id)
      requires Valid() && f in c.foreign && f in foreign && id in foreign[f].ids
      modifies this`foreign, this`foreignOpsP
      ensures var ws := old(S()).fw[f];
              var i := FindId(ws, id);
              && i >= 0 && ws[i].idata == old(foreign[f].ids[id].idata)
              && S() == SetFw(old(S()), f, Without(ws, i))
      ensures Mid({}, {(old(foreign[f].ids[id].idata), f)}) && m.K() == old(m.K())
      ensures foreign.Keys == old(foreign.Keys) && foreign[f].ids == old(foreign[f].ids) - {id}
      ensures forall g :: g in foreign && g != f ==> foreign[g] == old(foreign[g])
      ensures Conserved(c, old(m.K()), old(S()), m.K(), S())
    {
      hide Core, LiveBut, CountsExact, AbsWatches, SameWatches, HasField, Conserved, FieldTable;
      FindIdIs(foreign[f], id);
      ghost var i := FindId(AbsWatches(foreign[f]), id);
      var j := FindElem(foreign[f].ties, id);
      assert i == j by { SameElem(foreign[f], id, i, j); }
      var r := TakeRec(foreign[f], id, j);
      TakeFw(c, m.K(), S(), f, i);
      FieldsDistinct(c, m.K(), S());
      TakeFields(foreignOpsP, S(), f, i);
      TakeFwCounts(idatas, objects, foreign, f, r, id);
      TakeSame(foreign[f], id, j);
      TakeAbs(foreign[f], id, j);
      AbsForeignPut(foreign, f, r);
      foreignOpsP := foreignOpsP - {foreign[f].ids[id].field};
      foreign := foreign[f := r];
    }

    /** The entry of a watch in the table of ties. */
    method FindElem(ties: seq<TieElem>, id: Id) returns (i: nat)
      requires InTies(ties, id)
      ensures i < |ties| && ties[i].id == id
    {
      i := 0;
      while ties[i].id != id
        invariant i < |ties| && forall j :: 0 <= j < i ==> ties[j].id != id
        decreases |ties| - i
      {
        i := i + 1;
      }
    }

    /** The newest entry for a tie. */
    method FindTieElem(ties: seq<TieElem>, tie: Tie) returns (i: int)
      ensures -1 <= i < |ties|
      ensures i >= 0 ==> ties[i].tie == tie && forall j :: 0 <= j < i ==> ties[j].tie != tie
      ensures i < 0 ==> forall j :: 0 <= j < |ties| ==> ties[j].tie != tie
    {
      i := 0;
      while i < |ties|
        invariant 0 <= i <= |ties| && forall j :: 0 <= j < i ==> ties[j].tie != tie
      {
        if ties[i].tie == tie {
          return;
        }
        i := i + 1;
      }
      i := -1;
    }

    /** A known id may come with other operations. */
    method UpdateForeign(f: FId, id: Id, tie: Tie, x: Field, ops: Addr, e: Env) returns (status: Status, ops': Addr)
      requires Valid() && f in c.foreign && OpsOk(c, m.K(), ops) && EnvOk(m.K(), e)
      requires f in foreign && id in foreign[f].ids
      modifies this`table, this`idatas, this`saved, this`foreign, m
      ensures Valid()
      ensures Out(m.K(), S(), ops', status) == FWatchOp(c, old(m.K()), old(S()), f, id, tie, x, ops, e)
    {
      hide Core, LiveBut, CountsExact, FieldTable, FGetData, DropLayer, OpsOk, EnvOk, AbsWatches, SameWatches,
        Conserved;
      FGetDataOk(c, m.K(), S(), f, ops, e);
      FindIdIs(foreign[f], id);
      var h := foreign[f].ids[id].idata;
      ForeignIdata(c, m.K(), S(), idatas, saved, f, FindId(AbsWatches(foreign[f]), id));
      if ops == h || ops == idatas[h].orig {
        return Already, h;
      }
      var h';
      status, h' := GetForeign(f, ops, e);
      if status != Done {
        return Oops, ops;
      }
      MoveWatch(f, id, h');
      UnrefLayer(h, f);
      return Already, h';
    }

    /** Watch the operations field `x`, which holds `ops`; its new value is returned. */
    method WatchForeign(f: FId, id: Id, tie: Tie, x: Field, ops: Addr, e: Env) returns (status: Status, ops': Addr)
      requires Valid() && f in c.foreign && OpsOk(c, m.K(), ops) && EnvOk(m.K(), e)
      modifies this`table, this`idatas, this`saved, this`foreign, this`foreignOpsP, m
      ensures Valid()
      ensures Out(m.K(), S(), ops', status) == FWatchOp(c, old(m.K()), old(S()), f, id, tie, x, ops, e)
    {
      hide Core, LiveBut, CountsExact, FGetData, DropLayer, OpsOk, EnvOk, AbsWatches, SameWatches, Conserved, HasField;
      ForeignKeys(c, m.K(), S(), foreign);
      FGetDataOk(c, m.K(), S(), f, ops, e);
      FindIdIs(foreign[f], id);
      if id in foreign[f].ids {
        status, ops' := UpdateForeign(f, id, tie, x, ops, e);
        return;
      }
      if x in foreignOpsP {
        return Busy, ops;
      }
      var h;
      status, h := GetForeign(f, ops, e);
      if status != Done {
        return status, ops;
      }
      if !e.watch {
        UnrefLayer(h, f);
        return NoMem, ops;
      }
      AddWatch(f, id, FWatchRec(tie, x, h));
      return Done, h;
    }

    /** Forget a foreign watch; `ops` is what its field holds, None if it must not be touched. */
    method ForgetForeign(f: FId, id: Id, ops: Option<Addr>) returns (status: Status, ops': Addr)
      requires Valid() && f in c.foreign
      modifies this`table, this`idatas, this`saved, this`foreign, this`foreignOpsP, m
      ensures Valid()
      ensures Out(m.K(), S(), ops', status) == FForget(c, old(m.K()), old(S()), f, id, ops)
    {
      hide Core, LiveBut, CountsExact, DropLayer, AbsWatches, SameWatches, HasField, FieldTable;
      ForeignKeys(c, m.K(), S(), foreign);
      FindIdIs(foreign[f], id);
      ops' := if ops.Some? then ops.value else NULL;
      if id !in foreign[f].ids {
        return NotWatched, ops';
      }
      var h := foreign[f].ids[id].idata;
      ForeignIdata(c, m.K(), S(), idatas, saved, f, FindId(AbsWatches(foreign[f]), id));
      if ops.Some? {
        ops' := idatas[h].orig;
      }
      TakeWatch(f, id);
      UnrefLayer(h, f);
      status := Done;
    }

    // -------------------------------------------------------------- queries of the replacement functions

    /** Read a slot of a struct that is not instrumented, refusing one of our own replacements. */
    method ReadSlot(rs: Replacements, ops: Addr, off: nat) returns (status: Status, op: Option<Fn>)
      requires ops != NULL ==> ops in m.mem && off < |m.mem[ops]|
      ensures Answer(status, op) == NoData(rs, m.K(), ops, off)
    {
      if ops == NULL {
        return Oops, None;
      }
      var f := m.mem[ops][off];
      for j := 0 to |rs|
        invariant forall n :: 0 <= n < j ==> rs[n].repl != f
      {
        if rs[j].repl == f {
          return Lost, None;
        }
      }
      return NotWatched, Some(f);
    }

    /** The original operation of an instrumented struct. */
    method OriginalOp(h: Addr, off: nat) returns (op: Fn)
      requires h in idatas && Core(c, m.K(), S()) && Linked() && off < c.size
      ensures h in S().idatas && op == SavedOp(c, m.K(), S(), h, off)
    {
      IdataFacts(c, m.K(), S(), idatas, saved, h);
      var st := OriginalOf(h);
      op := st[off];
    }

    /** What a normal replacement function has to call. */
    method GetOrigOperation(o: Obj, ops: Addr, off: nat) returns (status: Status, op: Option<Fn>)
      requires Valid() && off < c.size && (ops != NULL ==> ops in m.mem && |m.mem[ops]| == c.size)
      ensures Answer(status, op) == GetOrig(c, m.K(), S(), o, ops, off)
    {
      hide Core, LiveBut, CountsExact, AbsForeign, SameWatches, FieldTable, SavedOp, NoData;
      var f;
      if o in objects {
        ObjectIdata(c, m.K(), S(), idatas, saved, o);
        f := OriginalOp(objects[o], off);
        return Done, Some(f);
      }
      TableRefs(c, m.K(), S(), idatas, saved);
      if ops in table {
        f := OriginalOp(table[ops], off);
        return NotWatched, Some(f);
      }
      status, op := ReadSlot(c.normal, ops, off);
    }

    /** The normal operation at an offset, rebuilt from the original one. */
    method NormalOpOf(h: Addr, off: nat) returns (op: Fn)
      requires h in idatas && Core(c, m.K(), S()) && Linked() && off < c.size
      ensures h in S().idatas && op == NormalOp(c, m.K(), S(), h, off)
    {
      IdataFacts(c, m.K(), S(), idatas, saved, h);
      var orig := OriginalOp(h, off);
      op := NormalOperation(c.normal, off, orig);
    }

    /** What a layer chains to, going back through the layers below it. */
    method ChainOpOf(h: Addr, f: FId, off: nat) returns (op: Fn)
      requires h in idatas && Core(c, m.K(), S()) && Linked() && off < c.size && f in LayerIds(idatas[h].layers)
      ensures h in S().idatas && f in S().idatas[h].layers && op == ChainOp(c, m.K(), S(), h, f, off)
    {
      hide Slot, TablesOk, WatchesOk, Separate;
      IdataFacts(c, m.K(), S(), idatas, saved, h);
      IdataLayers(c, m.K(), S(), idatas, saved, h);
      var orig := OriginalOp(h, off);
      var layers := LayerIds(idatas[h].layers);
      var i := FindLayer(idatas[h].layers, f);
      SeparateStack(c, saved[h], layers, off);
      SeparateTail(c.normal, Lists(c, layers), off, orig);
      op := ChainOperation(Lists(c, layers), i, off, orig);
      assert Lists(c, layers)[..i] == Lists(c, layers[..i]);
    }

    /** Called by a replacement function of foreign instrumentor `f` for an object made from what `tie` identifies. */
    method BindObject(f: FId, o: Obj, tie: Tie, ops: Addr, off: nat, e: Env)
        returns (status: Status, ops': Addr, chained: Option<Fn>, orig: Option<Fn>)
      requires Valid() && f in c.foreign && OpsOk(c, m.K(), ops) && EnvOk(m.K(), e) && off < c.size
      modifies this`table, this`idatas, this`saved, this`objects, m
      ensures Valid()
      ensures Bound(m.K(), S(), ops', status, chained, orig) == Bind(c, old(m.K()), old(S()), f, o, tie, ops, off, e)
    {
      hide Core, LiveBut, CountsExact, SameWatches, FieldTable, SavedOp, NoData, NormalOp, ChainOp, Watch, EnvOk;
      ForeignKeys(c, m.K(), S(), foreign);
      var t := FindTieElem(foreign[f].ties, tie);
      FindTieIs(foreign[f], tie, t);
      if t >= 0 {
        var h := foreign[f].ids[foreign[f].ties[t].id].idata;
        ForeignIdata(c, m.K(), S(), idatas, saved, f, t);
        var op := NormalOpOf(h, off);
        var op0 := OriginalOp(h, off);
        status, ops' := WatchObject(o, ops, e);
        return status, ops', Some(op), Some(op0);
      }
      status, ops', chained, orig := BindUntied(f, o, ops, off);
    }

    /** The tie is not watched: find out what to call without changing anything but the field. */
    method BindUntied(f: FId, o: Obj, ops: Addr, off: nat)
        returns (status: Status, ops': Addr, chained: Option<Fn>, orig: Option<Fn>)
      requires Valid() && f in c.foreign && OpsOk(c, m.K(), ops) && off < c.size
      ensures forall tie, e :: f in S().fw && FindTie(S().fw[f], tie) < 0 && EnvOk(m.K(), e) ==>
        Bound(m.K(), S(), ops', status, chained, orig) == Bind(c, m.K(), S(), f, o, tie, ops, off, e)
    {
      hide Core, LiveBut, CountsExact, SameWatches, FieldTable, SavedOp, NoData, NormalOp, ChainOp, Watch, EnvOk;
      TableRefs(c, m.K(), S(), idatas, saved);
      if o in objects || ops in table {
        var h := if o in objects then objects[o] else table[ops];
        if o in objects {
          ObjectIdata(c, m.K(), S(), idatas, saved, o);
        }
        IdataFacts(c, m.K(), S(), idatas, saved, h);
        var op0 := OriginalOp(h, off);
        orig := Some(op0);
        var i := FindLayer(idatas[h].layers, f);
        if i >= 0 {
          ops' := if o in objects then h else ops;
          var op;
          if o in objects {
            op := NormalOpOf(h, off);
          } else {
            op := ChainOpOf(h, f, off);
          }
          return Already, ops', Some(op), orig;
        }
        ops' := if o in objects then h else idatas[h].orig;
        OriginalInMemory(c, m.K(), S(), idatas, saved, h);
        var _, op := ReadSlot(c.foreign[f], ops', off);
        return if op.Some? then Already else Oops, ops', op, orig;
      }
      status, chained := ReadSlot(c.foreign[f], ops, off);
      return if chained.Some? then Already else status, ops, chained, chained;
    }

    // -------------------------------------------------------------- destroying

    /** Stop a foreign instrumentor: every watch it still has is dropped and reported once. */
    method DestroyForeign(f: FId) returns (report: seq<Id>)
      requires Valid() && f in c.foreign
      modifies this`table, this`idatas, this`saved, this`foreign, this`foreignOpsP, m
      ensures Valid() && Conserved(c, old(m.K()), old(S()), m.K(), S())
      ensures f in old(foreign) && foreign == old(foreign)[f := ForeignRec(map[], [])]
      ensures |report| == |old(foreign[f].ids)| && forall id :: id in report <==> id in old(foreign[f].ids)
    {
      hide Core, LiveBut, CountsExact, SameWatches, FieldTable, AbsWatches, AbsForeign, AbsIdatas, Conserved, DropLayer;
      ForeignKeys(c, m.K(), S(), foreign);
      report := [];
      SelfConserved(c, m.K(), S());
      while foreign[f].ids != map[]
        invariant Valid() && Conserved(c, old(m.K()), old(S()), m.K(), S())
        invariant foreign.Keys == old(foreign.Keys) && f in foreign
        invariant forall g :: g in foreign && g != f ==> foreign[g] == old(foreign[g])
        invariant |report| + |foreign[f].ids| == |old(foreign[f].ids)|
        invariant forall id :: id in old(foreign[f].ids) <==> id in report || id in foreign[f].ids
        invariant forall id :: id in report ==> id !in foreign[f].ids
        decreases |foreign[f].ids|
      {
        var id :| id in foreign[f].ids;
        var h := foreign[f].ids[id].idata;
        WatchedIdata(c, m.K(), S(), idatas, saved, foreign, f, id);
        ghost var k1, s1 := m.K(), S();
        TakeWatch(f, id);
        ConservedTwice(c, old(m.K()), old(S()), k1, s1, m.K(), S());
        ghost var k2, s2 := m.K(), S();
        UnrefLayer(h, f);
        ConservedTwice(c, old(m.K()), old(S()), k2, s2, m.K(), S());
        report := report + [id];
      }
      EmptyTies(foreign[f]);
    }

    /**
      Stop the instrumentor: every object still watched is dropped and reported once.  When the
      foreign ones were stopped before, nothing of it is left in any table, and memory is restored.
    */
    method DestroyAll() returns (report: seq<Obj>)
      requires Valid()
      modifies this`table, this`idatas, this`saved, this`objects, m
      ensures Valid() && Conserved(c, old(m.K()), old(S()), m.K(), S())
      ensures objects == map[]
      ensures |report| == |old(objects)| && forall o :: o in report <==> o in old(objects)
      ensures (forall f :: f in foreign ==> foreign[f].ids == map[]) ==>
        && table == map[] && idatas == map[] && foreignOpsP == {}
        && (forall f :: f in foreign ==> foreign[f].ties == [])
        && (forall a :: a in m.owner ==> m.owner[a] != c.id)
        && m.mem == Undone(old(m.K()), old(S()))
    {
      hide Core, LiveBut, CountsExact, SameWatches, FieldTable, AbsWatches, AbsForeign, Conserved, Release, Undone;
      report := [];
      SelfConserved(c, m.K(), S());
      while objects != map[]
        invariant Valid() && Conserved(c, old(m.K()), old(S()), m.K(), S())
        invariant |report| + |objects| == |old(objects)|
        invariant forall o :: o in old(objects) <==> o in report || o in objects
        invariant forall o :: o in report ==> o !in objects
        decreases |objects|
      {
        var o :| o in objects;
        ObjectIdata(c, m.K(), S(), idatas, saved, o);
        ghost var k1, s1 := m.K(), S();
        ForgetOk(c, k1, s1, o, None);
        var _, _ := ForgetObject(o, None);
        ConservedTwice(c, old(m.K()), old(S()), k1, s1, m.K(), S());
        report := report + [o];
      }
      if forall f :: f in foreign ==> foreign[f].ids == map[] {
        NothingLeft(c, m.K(), S(), idatas, saved, foreign, foreignOpsP);
        NothingUndone(c, m.K(), S(), old(m.K()), old(S()));
      }
    }
  }

  lemma WatchedIdata(c: Config, k: Kernel, s: Inst, rs: map<Addr, IdataRec>, saved: map<Addr, Struct>,
      foreign: map<FId, ForeignRec>, f: FId, id: Id)
    requires Core(c, k, s) && s.idatas == AbsIdatas(rs, saved) && rs.Keys == saved.Keys && s.fw == AbsForeign(foreign)
    requires f in foreign && SameWatches(foreign[f]) && id in foreign[f].ids
    ensures var h := foreign[f].ids[id].idata; h in rs && f in LayerIds(rs[h].layers)
  {
    FindIdIs(foreign[f], id);
    ForeignIdata(c, k, s, rs, saved, f, FindId(AbsWatches(foreign[f]), id));
  }

  lemma EmptyTies(r: ForeignRec)
    requires SameWatches(r) && r.ids == map[]
    ensures r == ForeignRec(map[], [])
  {
    hide SameWatches;
    if r.ties != [] {
      TieHasId(r);
    }
  }

  lemma TieHasId(r: ForeignRec)
    requires SameWatches(r) && r.ties != []
    ensures r.ids != map[]
  {
    assert r.ties[0].id in r.ids;
  }

  lemma NothingLeft(c: Config, k: Kernel, s: Inst, rs: map<Addr, IdataRec>, saved: map<Addr, Struct>,
      foreign: map<FId, ForeignRec>, fields: set<Field>)
    requires Inv(c, k, s) && s.idatas == AbsIdatas(rs, saved) && rs.Keys == saved.Keys && s.fw == AbsForeign(foreign)
    requires s.objects == map[] && forall f :: f in foreign ==> foreign[f].ids == map[]
    requires (forall f :: f in foreign ==> SameWatches(foreign[f])) && FieldTable(fields, s.fw)
    ensures s.table == map[] && rs == map[] && fields == {} && forall f :: f in foreign ==> foreign[f].ties == []
    ensures forall a :: a in k.owner ==> k.owner[a] != c.id
  {
    forall f | f in foreign ensures foreign[f].ties == [] && s.fw[f] == [] {
      EmptyTies(foreign[f]);
    }
    ForgottenIsEmpty(c, k, s);
    assert forall x :: !HasField(s.fw, x);
    assert s.idatas.Keys == rs.Keys;
  }

  lemma NothingUndone(c: Config, k: Kernel, s: Inst, k0: Kernel, s0: Inst)
    requires Conserved(c, k0, s0, k, s) && s.idatas == map[]
    ensures k.mem == Undone(k0, s0)
  {
    assert Undone(k, s) == k.mem;
  }

  lemma SeparateTail(normal: Replacements, lists: seq<Replacements>, off: nat, orig: Fn)
    requires Separate([normal] + lists, off, orig)
    ensures Separate(lists, off, orig)
  {
    var stack := [normal] + lists;
    assert forall i :: 0 <= i < |lists| ==> lists[i] == stack[i + 1];
  }

  lemma FindTieIs(r: ForeignRec, tie: Tie, t: int)
    requires SameWatches(r) && -1 <= t < |r.ties|
    requires t >= 0 ==> r.ties[t].tie == tie && forall j :: 0 <= j < t ==> r.ties[j].tie != tie
    requires t < 0 ==> forall j :: 0 <= j < |r.ties| ==> r.ties[j].tie != tie
    ensures FindTie(AbsWatches(r), tie) == t
    ensures t >= 0 ==> r.ties[t].id in r.ids && AbsWatches(r)[t].idata == r.ids[r.ties[t].id].idata
  {
    hide InTies;
    assert forall j :: 0 <= j < |r.ties| ==> AbsWatches(r)[j].tie == r.ties[j].tie;
  }

  lemma OriginalInMemory(c: Config, k: Kernel, s: Inst, rs: map<Addr, IdataRec>, saved: map<Addr, Struct>, h: Addr)
    requires Core(c, k, s) && s.idatas == AbsIdatas(rs, saved) && rs.Keys == saved.Keys && h in rs
    ensures rs[h].orig != NULL ==> rs[h].orig in k.mem && |k.mem[rs[h].orig]| == c.size
    ensures h in k.mem && |k.mem[h]| == c.size
  {
    assert IdataOk(c, k, h, s.idatas[h]);
  }

  lemma ForeignKeys(c: Config, k: Kernel, s: Inst, foreign: map<FId, ForeignRec>)
    requires Core(c, k, s) && s.fw == AbsForeign(foreign)
    ensures foreign.Keys == c.foreign.Keys
  {
    assert s.fw.Keys == foreign.Keys;
  }

  lemma FieldsDistinct(c: Config, k: Kernel, s: Inst)
    requires Core(c, k, s)
    ensures FieldsOk(s)
  {
  }

  lemma SameElem(r: ForeignRec, id: Id, i: nat, j: nat)
    requires SameWatches(r) && i < |r.ties| && j < |r.ties| && r.ties[i].id == id && r.ties[j].id == id
    ensures i == j
  {
  }

  lemma ForeignIdata(c: Config, k: Kernel, s: Inst, rs: map<Addr, IdataRec>, saved: map<Addr, Struct>, f: FId, i: nat)
    requires Core(c, k, s) && s.idatas == AbsIdatas(rs, saved) && rs.Keys == saved.Keys && f in s.fw && i < |s.fw[f]|
    ensures var h := s.fw[f][i].idata;
      h in rs && s.idatas[h] == AbsIdata(rs[h], saved[h]) && f in LayerIds(rs[h].layers)
  {
  }

  lemma LayerRefs(rs: map<Addr, IdataRec>, objects: map<Obj, Addr>, foreign: map<FId, ForeignRec>, h: Addr, i: nat)
    requires h in rs && i < |rs[h].layers|
    requires CountsExact(rs, objects, foreign, {}, {(h, rs[h].layers[i].f)})
    ensures rs[h].layers[i].refs == FwCount(foreign, rs[h].layers[i].f, h) + 1
  {
  }

  lemma DetachCounts(rs: map<Addr, IdataRec>, objects: map<Obj, Addr>, foreign: map<FId, ForeignRec>, h: Addr, i: nat)
    requires h in rs && i < |rs[h].layers|
    requires CountsExact(rs, objects, foreign, {}, {(h, rs[h].layers[i].f)})
    requires forall a, b :: 0 <= a < b < |rs[h].layers| ==> rs[h].layers[a].f != rs[h].layers[b].f
    ensures CountsExact(rs[h := rs[h].(layers := Without(rs[h].layers, i))], objects, foreign, {h}, {})
  {
    var ls := Without(rs[h].layers, i);
    assert forall j :: 0 <= j < |ls| ==> ls[j] == rs[h].layers[if j < i then j else j + 1];
  }

  lemma {:induction false} IndexOfFirst(layers: seq<FId>, i: nat)
    requires i < |layers| && layers[i] !in layers[..i]
    ensures IndexOf(layers, layers[i]) == i
  {
    if i > 0 {
      assert layers[0] in layers[..i];
      assert layers[1..][..i - 1] == layers[..i][1..];
      IndexOfFirst(layers[1..], i - 1);
    }
  }

  function SetLayerRefs(r: IdataRec, i: nat, n: int): IdataRec
    requires i < |r.layers|
  {
    r.(layers := r.layers[i := r.layers[i].(refs := n)])
  }

  lemma AbsLayerRefs(rs: map<Addr, IdataRec>, saved: map<Addr, Struct>, h: Addr, i: nat, n: int)
    requires h in rs && i < |rs[h].layers|
    ensures AbsIdatas(rs[h := SetLayerRefs(rs[h], i, n)], saved) == AbsIdatas(rs, saved)
  {
    assert LayerIds(SetLayerRefs(rs[h], i, n).layers) == LayerIds(rs[h].layers);
  }

  lemma IdataLayers(c: Config, k: Kernel, s: Inst, rs: map<Addr, IdataRec>, saved: map<Addr, Struct>, h: Addr)
    requires Core(c, k, s) && s.idatas == AbsIdatas(rs, saved) && rs.Keys == saved.Keys && h in rs
    ensures forall i, j :: 0 <= i < j < |rs[h].layers| ==> rs[h].layers[i].f != rs[h].layers[j].f
    ensures LayersOk(c, LayerIds(rs[h].layers))
  {
    assert IdataOk(c, k, h, s.idatas[h]);
    var ls := LayerIds(rs[h].layers);
    assert s.idatas[h].layers == ls;
    assert forall i, j :: 0 <= i < j < |ls| ==> ls[i] != ls[j];
  }

  /** Taking or giving back a reference to a layer. */
  lemma LayerCounts(rs: map<Addr, IdataRec>, objects: map<Obj, Addr>, foreign: map<FId, ForeignRec>, h: Addr, i: nat,
      d: int)
    requires h in rs && i < |rs[h].layers| && (d == 1 || d == -1)
    requires forall a, b :: 0 <= a < b < |rs[h].layers| ==> rs[h].layers[a].f != rs[h].layers[b].f
    requires CountsExact(rs, objects, foreign, {}, if d == 1 then {} else {(h, rs[h].layers[i].f)})
    ensures CountsExact(rs[h := SetLayerRefs(rs[h], i, rs[h].layers[i].refs + d)], objects, foreign, {},
                        if d == 1 then {(h, rs[h].layers[i].f)} else {})
  {
  }

  lemma LiveMore(s: Inst, ls: set<(Addr, FId)>)
    requires LiveBut(s, {}, {})
    ensures LiveBut(s, {}, ls)
  {
  }

  /** No foreign watch of an instrumentor is on an idata it has no layer on. */
  lemma NoWatches(c: Config, k: Kernel, s: Inst, foreign: map<FId, ForeignRec>, f: FId, h: Addr)
    requires Core(c, k, s) && s.fw == AbsForeign(foreign) && (f in foreign ==> SameWatches(foreign[f]))
    requires h in s.idatas && f !in s.idatas[h].layers
    ensures FwCount(foreign, f, h) == 0
  {
    HeldIsCount(foreign, s, f, h);
  }

  lemma AttachCounts(rs: map<Addr, IdataRec>, objects: map<Obj, Addr>, foreign: map<FId, ForeignRec>, h: Addr, f: FId)
    requires CountsExact(rs, objects, foreign, {h}, {}) && h in rs && FwCount(foreign, f, h) == 0
    requires f !in LayerIds(rs[h].layers)
    ensures CountsExact(rs[h := rs[h].(layers := rs[h].layers + [LayerRec(f, 1)])], objects, foreign, {}, {(h, f)})
  {
    assert forall j :: 0 <= j < |rs[h].layers| ==> LayerIds(rs[h].layers)[j] == rs[h].layers[j].f;
  }

  /** A watched object refers to a live idata. */
  lemma ObjectIdata(c: Config, k: Kernel, s: Inst, rs: map<Addr, IdataRec>, saved: map<Addr, Struct>, o: Obj)
    requires Core(c, k, s) && s.idatas == AbsIdatas(rs, saved) && rs.Keys == saved.Keys && o in s.objects
    ensures s.objects[o] in rs && s.idatas[s.objects[o]] == AbsIdata(rs[s.objects[o]], saved[s.objects[o]])
  {
  }

  lemma ObjPutCounts(rs: map<Addr, IdataRec>, objects: map<Obj, Addr>, foreign: map<FId, ForeignRec>, o: Obj, h: Addr)
    requires CountsExact(rs, objects, foreign, {h}, {}) && (o in objects ==> objects[o] != h)
    ensures CountsExact(rs, objects[o := h], foreign, if o in objects then {objects[o]} else {}, {})
  {
    forall h'
      ensures Count(objects[o := h], h') == Count(objects, h') + One(h' == h) - One(o in objects && objects[o] == h')
    {
      CountPut(objects, o, h, h');
    }
  }

  lemma ObjDropCounts(rs: map<Addr, IdataRec>, objects: map<Obj, Addr>, foreign: map<FId, ForeignRec>, o: Obj)
    requires CountsExact(rs, objects, foreign, {}, {}) && o in objects
    ensures CountsExact(rs, objects - {o}, foreign, {objects[o]}, {})
  {
    forall h' ensures Count(objects - {o}, h') == Count(objects, h') - One(objects[o] == h') {
      CountDrop(objects, o, h');
    }
  }

  lemma TableRefs(c: Config, k: Kernel, s: Inst, rs: map<Addr, IdataRec>, saved: map<Addr, Struct>)
    requires Core(c, k, s) && s.idatas == AbsIdatas(rs, saved)
    ensures forall a :: a in s.table ==> s.table[a] in rs
  {
  }

  lemma IdataFacts(c: Config, k: Kernel, s: Inst, rs: map<Addr, IdataRec>, saved: map<Addr, Struct>, h: Addr)
    requires Core(c, k, s) && s.idatas == AbsIdatas(rs, saved) && rs.Keys == saved.Keys && h in rs
    ensures s.idatas[h] == AbsIdata(rs[h], saved[h]) && WfConfig(c) && Pristine(c, saved[h])
    ensures h in k.mem && k.mem[h] == Render(c, saved[h], LayerIds(rs[h].layers))
    ensures forall a :: a in s.table ==> a in k.owner
  {
    assert IdataOk(c, k, h, s.idatas[h]);
  }

  /** Taking or giving back the reference the current call holds. */
  lemma RefCounts(rs: map<Addr, IdataRec>, objects: map<Obj, Addr>, foreign: map<FId, ForeignRec>, h: Addr, d: int)
    requires h in rs && (d == 1 || d == -1)
    requires CountsExact(rs, objects, foreign, if d == 1 then {} else {h}, {})
    ensures CountsExact(rs[h := rs[h].(refs := rs[h].refs + d)], objects, foreign, if d == 1 then {h} else {}, {})
  {
  }

  lemma DropCounts(rs: map<Addr, IdataRec>, objects: map<Obj, Addr>, foreign: map<FId, ForeignRec>, h: Addr)
    requires CountsExact(rs, objects, foreign, {h}, {})
    ensures CountsExact(rs - {h}, objects, foreign, {}, {})
  {
  }

  /** The count says exactly whether anything still refers to the idata. */
  lemma RefsZero(rs: map<Addr, IdataRec>, saved: map<Addr, Struct>, objects: map<Obj, Addr>,
      foreign: map<FId, ForeignRec>, s: Inst, h: Addr)
    requires CountsExact(rs, objects, foreign, {h}, {}) && h in rs && h in saved
    requires s.idatas == AbsIdatas(rs, saved) && s.objects == objects
    ensures h in s.idatas && (rs[h].refs - 1 == 0 <==> !Watched(s, h) && s.idatas[h].layers == [])
  {
    CountZero(objects, h);
  }

  lemma FreshAddr(c: Config, k: Kernel, rs: map<Addr, IdataRec>, saved: map<Addr, Struct>, s: Inst)
    requires Core(c, k, s) && s.idatas == AbsIdatas(rs, saved) && rs.Keys == saved.Keys
    ensures forall h :: h in rs ==> h in s.table
    ensures forall a :: a in s.table ==> a in k.owner
    ensures forall o :: o in s.objects ==> s.objects[o] in rs
    ensures WfConfig(c)
  {
  }

  lemma NewCounts(rs: map<Addr, IdataRec>, objects: map<Obj, Addr>, foreign: map<FId, ForeignRec>, h: Addr, r: IdataRec)
    requires CountsExact(rs, objects, foreign, {}, {}) && h !in rs && r.refs == 1 && r.layers == []
    requires forall o :: o in objects ==> objects[o] in rs
    ensures CountsExact(rs[h := r], objects, foreign, {h}, {})
  {
    CountZero(objects, h);
  }
}
