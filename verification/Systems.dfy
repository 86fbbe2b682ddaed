/**
  Whole runs.  Several normal instrumentors, each with its foreign ones, share memory
  and the global table of instrumented addresses; the calls on them are atomic steps,
  and kernel code assigns operations fields in between.
*/
module Systems {
  import opened Options
  import opened Layers
  import opened Engine
  import opened Operations
  import opened Dispatch
  import opened Runs

  /** The instrumentors by number, and the operations field of each object they may watch. */
  datatype Plan = Plan(configs: map<nat, Config>, homes: map<nat, Home>)

  datatype Sys = Sys(k: Kernel, insts: map<nat, Inst>, fields: map<Field, Addr>)

  /**
    A call of instrumentor `i` on field `x` (`gone`: the field disappears with its object), or an assignment by
    the kernel.
  */
  datatype Cmd =
    | Call(i: nat, x: Field, act: Act, gone: bool)
    | Assign(x: Field, a: Addr)

  // ---------------------------------------------------------------- the invariant of the whole system

  /** Every field holding a replaced copy is registered with the instrumentor that made the copy. */
  ghost predicate Covered(s: Inst, home: Home, fields: map<Field, Addr>) {
    forall x :: x in fields && Real(s, fields[x]) != fields[x] ==> Registered(s, home, x, fields[x])
  }

  ghost predicate FieldsInMemory(k: Kernel, fields: map<Field, Addr>) {
    forall x :: x in fields && fields[x] != NULL ==> fields[x] in k.mem
  }

  ghost predicate SysInv(p: Plan, y: Sys) {
    && p.configs.Keys == y.insts.Keys && p.homes.Keys == y.insts.Keys
    && (forall i :: i in y.insts ==> p.configs[i].id == i && Inv(p.configs[i], y.k, y.insts[i]))
    && (forall a :: a in y.k.owner ==> y.k.owner[a] in y.insts)
    && (forall i :: i in y.insts ==> Covered(y.insts[i], p.homes[i], y.fields))
    && FieldsInMemory(y.k, y.fields)
    && Clean(p, y)
  }

  /** Memory as it would be without the engine holds no replacement function of any instrumentor. */
  ghost predicate Clean(p: Plan, y: Sys) {
    forall i, a :: i in p.configs && Plain(y, a).Some? ==> NoReplacement(p.configs[i], Plain(y, a).value)
  }

  ghost predicate NoReplacement(c: Config, st: Struct) {
    forall off :: 0 <= off < |st| ==> !IsReplacement(c, st[off])
  }

  /** What the field of a call holds: operations of the type that the instrumentor is for. */
  ghost predicate Fits(c: Config, k: Kernel, ops: Addr) {
    ops != NULL ==> ops in k.mem && |k.mem[ops]| == c.size
  }

  ghost predicate CmdOk(p: Plan, y: Sys, cmd: Cmd) {
    match cmd
    case Call(i, x, act, gone) =>
      i in y.insts && i in p.configs && i in p.homes && x in y.fields
      && Fits(p.configs[i], y.k, y.fields[x]) && CallOk(p.configs[i], y.k, y.insts[i], p.homes[i], act, x)
    case Assign(x, a) => (a == NULL || a in y.k.mem) && forall i :: i in y.insts ==> Real(y.insts[i], a) == a
  }

  /** A struct that nobody instruments is as it would be without the engine: it can be instrumented. */
  lemma CleanOps(p: Plan, y: Sys, i: nat, ops: Addr)
    requires SysInv(p, y) && i in p.configs && Fits(p.configs[i], y.k, ops)
    ensures OpsOk(p.configs[i], y.k, ops)
  {
    hide Inv, Covered, FieldsInMemory, Undone, IsReplacement;
    if ops != NULL && ops !in y.k.owner {
      assert Plain(y, ops) == Some(y.k.mem[ops]);
    }
  }

  lemma CallReady(p: Plan, y: Sys, i: nat, x: Field, act: Act, gone: bool)
    requires SysInv(p, y) && CmdOk(p, y, Call(i, x, act, gone))
    ensures ActOk(p.configs[i], y.k, y.insts[i], p.homes[i], act, x, y.fields[x])
  {
    hide SysInv, CallOk;
    CleanOps(p, y, i, y.fields[x]);
  }

  lemma CleanStays(p: Plan, y: Sys, y': Sys)
    requires Clean(p, y) && forall a :: Plain(y', a) == Plain(y, a)
    ensures Clean(p, y')
  {
    hide Plain, NoReplacement;
  }

  ghost function Step(p: Plan, y: Sys, cmd: Cmd): Sys
    requires SysInv(p, y) && CmdOk(p, y, cmd)
  {
    match cmd
    case Call(i, x, act, gone) =>
      CallReady(p, y, i, x, act, gone);
      var r := Act1(p.configs[i], y.k, y.insts[i], p.homes[i], act, x, y.fields[x]);
      Sys(r.k, y.insts[i := r.s], if gone then y.fields - {x} else y.fields[x := r.ops])
    case Assign(x, a) => y.(fields := y.fields[x := a])
  }

  // ---------------------------------------------------------------- other instrumentors are left alone

  /** What belongs to nobody or to somebody else is untouched. */
  lemma ConservedElsewhere(c: Config, k: Kernel, s: Inst, k': Kernel, s': Inst, a: Addr)
    requires TablesOk(c, k, s) && TablesOk(c, k', s') && Conserved(c, k, s, k', s')
    requires a in k.owner && k.owner[a] != c.id
    ensures a in k'.owner && k'.owner[a] == k.owner[a]
    ensures (a in k.mem <==> a in k'.mem) && (a in k.mem ==> k'.mem[a] == k.mem[a])
  {
    assert a in Others(c, k) && Others(c, k)[a] == k.owner[a];
    assert a in Others(c, k');
    assert a !in s.idatas && a !in s'.idatas;
    assert a in k.mem <==> a in Undone(k, s);
    assert a in k'.mem <==> a in Undone(k', s');
  }

  lemma OwnersElsewhere(c: Config, k: Kernel, k': Kernel, a: Addr)
    requires Others(c, k') == Others(c, k)
    requires a in k'.owner && k'.owner[a] != c.id
    ensures a in k.owner && k.owner[a] == k'.owner[a]
  {
    assert a in Others(c, k') && Others(c, k')[a] == k'.owner[a];
    assert a in Others(c, k);
  }

  /** An instrumentor does not notice changes outside its own addresses. */
  lemma FrameInv(c: Config, k: Kernel, s: Inst, k': Kernel)
    requires Inv(c, k, s)
    requires forall a :: a in k'.owner && k'.owner[a] == c.id ==> a in s.table
    requires forall a :: a in s.table ==>
      a in k'.owner && k'.owner[a] == c.id && (a in k.mem ==> a in k'.mem && k'.mem[a] == k.mem[a])
    ensures Inv(c, k', s)
  {
    hide WatchesOk, LiveBut, Render, Pristine, LayersOk;
    forall h | h in s.idatas ensures IdataOk(c, k', h, s.idatas[h]) {
      assert IdataOk(c, k, h, s.idatas[h]);
      assert s.idatas[h].orig in s.table;
    }
    assert TablesOk(c, k', s);
  }

  lemma OtherInv(c: Config, k: Kernel, s: Inst, k': Kernel, s': Inst, c2: Config, s2: Inst)
    requires TablesOk(c, k, s) && TablesOk(c, k', s') && Conserved(c, k, s, k', s')
    requires c2.id != c.id && Inv(c2, k, s2)
    ensures Inv(c2, k', s2)
  {
    assert TablesOk(c2, k, s2);
    hide Core, LiveBut, Undone, Others;
    forall a | a in s2.table
      ensures a in k'.owner && k'.owner[a] == c2.id && (a in k.mem ==> a in k'.mem && k'.mem[a] == k.mem[a])
    {
      ConservedElsewhere(c, k, s, k', s', a);
    }
    forall a | a in k'.owner && k'.owner[a] == c2.id ensures a in s2.table {
      OwnersElsewhere(c, k, k', a);
    }
    FrameInv(c2, k, s2, k');
  }

  // ---------------------------------------------------------------- fields across instrumentors

  lemma ActFields(c: Config, k: Kernel, s: Inst, home: Home, act: Act, x: Field, ops: Addr)
    requires Inv(c, k, s) && ActOk(c, k, s, home, act, x, ops)
    requires Real(s, ops) != ops ==> Registered(s, home, x, ops)
    ensures var r := Act1(c, k, s, home, act, x, ops);
            && FieldsKept(k, s, home, x, ops, r)
            && (Faithful(c, k, s, act, ops) <==> Real(r.s, r.ops) == Real(s, ops))
  {
    hide Core, LiveBut, FieldsKept, Watch, Forget, FWatchOp, FForget, Bind, Real, Registered, GetData;
    match act
    case AWatch(o, e) => WatchFields(c, k, s, home, o, x, ops, e);
    case AForget(o) => ForgetFields(c, k, s, home, o, x, ops);
    case AFWatch(f, id, tie, e) => FWatchFields(c, k, s, home, f, id, tie, x, ops, e);
    case AFForget(f, id) => FForgetFields(c, k, s, home, f, id, x, ops);
    case ABind(f, o, tie, off, e) => BindFields(c, k, s, home, f, o, tie, x, ops, off, e);
  }

  // ---------------------------------------------------------------- one step

  /** Memory as it would be without any instrumentor. */
  ghost function Plain(y: Sys, a: Addr): Option<Struct> {
    if a in y.k.owner && y.k.owner[a] in y.insts then
      var u := Undone(y.k, y.insts[y.k.owner[a]]);
      if a in u then Some(u[a]) else None
    else if a in y.k.mem then Some(y.k.mem[a]) else None
  }

  /** The operations an address stands for, whoever instrumented it. */
  ghost function RealAll(y: Sys, a: Addr): Addr {
    if a in y.k.owner && y.k.owner[a] in y.insts then Real(y.insts[y.k.owner[a]], a) else a
  }

  /** From `y` to `y'` only instrumentor `i` moved, conserving what it must. */
  ghost predicate Moved(p: Plan, y: Sys, i: nat, y': Sys) {
    && i in y.insts && i in p.configs && p.configs[i].id == i
    && i in y'.insts && y'.insts == y.insts[i := y'.insts[i]]
    && TablesOk(p.configs[i], y.k, y.insts[i]) && TablesOk(p.configs[i], y'.k, y'.insts[i])
    && Conserved(p.configs[i], y.k, y.insts[i], y'.k, y'.insts[i])
  }

  lemma StepMoves(p: Plan, y: Sys, i: nat, x: Field, act: Act, gone: bool)
    requires SysInv(p, y) && CmdOk(p, y, Call(i, x, act, gone))
    ensures var y' := Step(p, y, Call(i, x, act, gone)); Moved(p, y, i, y') && Inv(p.configs[i], y'.k, y'.insts[i])
  {
    hide Core, LiveBut, Conserved, Act1, ActOk, Covered, FieldsInMemory;
    var c := p.configs[i];
    CallReady(p, y, i, x, act, gone);
    ActKeepsInv(c, y.k, y.insts[i], p.homes[i], act, x, y.fields[x]);
    var y' := Step(p, y, Call(i, x, act, gone));
    CoreTables(c, y.k, y.insts[i]);
    CoreTables(c, y'.k, y'.insts[i]);
  }

  lemma CoreTables(c: Config, k: Kernel, s: Inst)
    requires Inv(c, k, s)
    ensures TablesOk(c, k, s)
  {
  }

  lemma MovedInv(p: Plan, y: Sys, i: nat, y': Sys, j: nat)
    requires Moved(p, y, i, y') && j in y.insts && j != i && j in p.configs && p.configs[j].id == j
    requires Inv(p.configs[j], y.k, y.insts[j])
    ensures Inv(p.configs[j], y'.k, y'.insts[j])
  {
    hide Inv, TablesOk, Conserved;
    OtherInv(p.configs[i], y.k, y.insts[i], y'.k, y'.insts[i], p.configs[j], y.insts[j]);
  }

  lemma MovedOwners(p: Plan, y: Sys, i: nat, y': Sys)
    requires Moved(p, y, i, y') && forall a :: a in y.k.owner ==> y.k.owner[a] in y.insts
    ensures forall a :: a in y'.k.owner ==> y'.k.owner[a] in y'.insts
  {
    hide TablesOk, Undone, Others;
    forall a | a in y'.k.owner ensures y'.k.owner[a] in y'.insts {
      if y'.k.owner[a] != i {
        OwnersElsewhere(p.configs[i], y.k, y'.k, a);
      }
    }
  }

  /** A step changes nothing in memory but what the engine itself put there. */
  lemma MovedPlain(p: Plan, y: Sys, i: nat, y': Sys, a: Addr)
    requires Moved(p, y, i, y')
    ensures Plain(y', a) == Plain(y, a)
  {
    hide TablesOk;
    var c := p.configs[i];
    if a in y.k.owner && y.k.owner[a] != i {
      hide Undone, Others, Conserved;
      ConservedElsewhere(c, y.k, y.insts[i], y'.k, y'.insts[i], a);
      PlainElsewhere(y, y', a);
    } else {
      hide Undone, Others;
      if a in y'.k.owner && y'.k.owner[a] != i {
        OwnersElsewhere(c, y.k, y'.k, a);
      }
      PlainIsUndone(p, y, i, a);
      PlainIsUndone(p, y', i, a);
    }
  }

  lemma PlainElsewhere(y: Sys, y': Sys, a: Addr)
    requires a in y.k.owner && a in y'.k.owner && y'.k.owner[a] == y.k.owner[a]
    requires y.k.owner[a] in y.insts <==> y.k.owner[a] in y'.insts
    requires y.k.owner[a] in y.insts ==> y'.insts[y.k.owner[a]] == y.insts[y.k.owner[a]]
    requires (a in y.k.mem <==> a in y'.k.mem) && (a in y.k.mem ==> y'.k.mem[a] == y.k.mem[a])
    ensures Plain(y', a) == Plain(y, a)
  {
  }

  /** What nobody else owns is plain exactly as instrumentor `i` would leave it. */
  lemma PlainIsUndone(p: Plan, y: Sys, i: nat, a: Addr)
    requires i in y.insts && i in p.configs && p.configs[i].id == i && TablesOk(p.configs[i], y.k, y.insts[i])
    requires a in y.k.owner ==> y.k.owner[a] == i
    ensures var u := Undone(y.k, y.insts[i]); Plain(y, a) == if a in u then Some(u[a]) else None
  {
  }

  /** The call's effect on fields, in terms of the whole system. */
  ghost predicate FieldsMoved(p: Plan, y: Sys, i: nat, x: Field, y': Sys, v: Addr) {
    && i in y.insts && i in p.homes && i in y'.insts && x in y.fields
    && FieldsKept(y.k, y.insts[i], p.homes[i], x, y.fields[x], Out(y'.k, y'.insts[i], v, Done))
  }

  /** A field the call is not about. */
  lemma MovedOtherField(p: Plan, y: Sys, i: nat, x: Field, y': Sys, v: Addr, z: Field)
    requires SysInv(p, y) && Moved(p, y, i, y') && Inv(p.configs[i], y'.k, y'.insts[i])
    requires FieldsMoved(p, y, i, x, y', v)
    requires z in y.fields && z != x
    ensures forall j :: j in y'.insts && Real(y'.insts[j], y.fields[z]) != y.fields[z] ==>
      j in p.homes && Registered(y'.insts[j], p.homes[j], z, y.fields[z])
    ensures y.fields[z] == NULL || y.fields[z] in y'.k.mem
    ensures Real(y'.insts[i], y.fields[z]) == Real(y.insts[i], y.fields[z])
  {
    hide Core, LiveBut, Conserved, TablesOk, Registered, SameReal;
    var a := y.fields[z];
    assert Inv(p.configs[i], y.k, y.insts[i]);
    assert Real(y.insts[i], a) != a ==> Registered(y'.insts[i], p.homes[i], z, a);
    CoveredStays(p.configs[i], y.k, y.insts[i], y'.k, y'.insts[i], p.homes[i], z, a);
  }

  /** An address of one instrumentor means nothing to another. */
  lemma NotMine(c: Config, k: Kernel, s: Inst, c2: Config, s2: Inst, a: Addr)
    requires TablesOk(c, k, s) && TablesOk(c2, k, s2) && c.id != c2.id && a in s.table
    ensures a !in s2.table
  {
  }

  /** The field the call is about. */
  lemma MovedThisField(p: Plan, y: Sys, i: nat, x: Field, y': Sys, v: Addr)
    requires SysInv(p, y) && Moved(p, y, i, y') && FieldsMoved(p, y, i, x, y', v)
    requires forall j :: j in y'.insts ==> Inv(p.configs[j], y'.k, y'.insts[j])
    ensures forall j :: j in y'.insts && Real(y'.insts[j], v) != v ==>
      j in p.homes && Registered(y'.insts[j], p.homes[j], x, v)
    ensures v == NULL || v in y'.k.mem
  {
    hide Core, LiveBut, Conserved, TablesOk, Registered, SameReal;
    forall j | j in y'.insts && Real(y'.insts[j], v) != v
      ensures j in p.homes && Registered(y'.insts[j], p.homes[j], x, v)
    {
      if j != i {
        assert Inv(p.configs[j], y.k, y.insts[j]) && Inv(p.configs[j], y'.k, y'.insts[j]);
        CoreTables(p.configs[j], y.k, y.insts[j]);
        CoreTables(p.configs[j], y'.k, y'.insts[j]);
        if v in y.insts[i].table {
          NotMine(p.configs[i], y.k, y.insts[i], p.configs[j], y.insts[j], v);
        } else if v in y'.insts[i].table {
          NotMine(p.configs[i], y'.k, y'.insts[i], p.configs[j], y'.insts[j], v);
        }
        assert v == y.fields[x];
        assert Covered(y.insts[j], p.homes[j], y.fields);
      }
    }
  }

  /** Every step keeps the invariant of the whole system. */
  lemma StepKeepsInv(p: Plan, y: Sys, cmd: Cmd)
    requires SysInv(p, y) && CmdOk(p, y, cmd)
    ensures SysInv(p, Step(p, y, cmd))
    ensures forall a :: Plain(Step(p, y, cmd), a) == Plain(y, a)
  {
    hide SysInv, Plain, CmdOk, Step;
    match cmd
    case Assign(x, a) =>
      AssignInv(p, y, x, a);
    case Call(i, x, act, gone) =>
      CallInv(p, y, i, x, act, gone);
  }

  lemma AssignInv(p: Plan, y: Sys, x: Field, a: Addr)
    requires SysInv(p, y) && CmdOk(p, y, Assign(x, a))
    ensures SysInv(p, Step(p, y, Assign(x, a)))
    ensures forall b :: Plain(Step(p, y, Assign(x, a)), b) == Plain(y, b)
  {
    hide Inv, Registered, Real, Undone, Fits, CallOk, NoReplacement;
    forall b ensures Plain(Step(p, y, Assign(x, a)), b) == Plain(y, b) {
    }
    hide Plain;
    CleanStays(p, y, Step(p, y, Assign(x, a)));
  }

  lemma CallInv(p: Plan, y: Sys, i: nat, x: Field, act: Act, gone: bool)
    requires SysInv(p, y) && CmdOk(p, y, Call(i, x, act, gone))
    ensures SysInv(p, Step(p, y, Call(i, x, act, gone)))
    ensures forall a :: Plain(Step(p, y, Call(i, x, act, gone)), a) == Plain(y, a)
  {
    hide Core, LiveBut, Conserved, TablesOk, Registered, SameReal, Plain, Act1, ActOk, CallOk, Real, Clean;
    hide Covered, FieldsInMemory;
    var y' := Step(p, y, Call(i, x, act, gone));
    CallReady(p, y, i, x, act, gone);
    var v := Act1(p.configs[i], y.k, y.insts[i], p.homes[i], act, x, y.fields[x]).ops;
    StepMoves(p, y, i, x, act, gone);
    forall j | j in y'.insts ensures Inv(p.configs[j], y'.k, y'.insts[j]) {
      if j != i {
        MovedInv(p, y, i, y', j);
      }
    }
    MovedOwners(p, y, i, y');
    CallFieldsMoved(p, y, i, x, act, gone);
    MovedThisField(p, y, i, x, y', v);
    forall z | z in y.fields && z != x
      ensures FieldOk(p, y', z, y.fields[z])
    {
      MovedOtherField(p, y, i, x, y', v, z);
    }
    assert FieldOk(p, y', x, v);
    CoveredAll(p, y');
    forall a ensures Plain(y', a) == Plain(y, a) {
      MovedPlain(p, y, i, y', a);
    }
    CleanStays(p, y, y');
  }

  ghost predicate FieldOk(p: Plan, y: Sys, z: Field, a: Addr) {
    && (forall j :: j in y.insts && Real(y.insts[j], a) != a ==>
      j in p.homes && Registered(y.insts[j], p.homes[j], z, a))
    && (a == NULL || a in y.k.mem)
  }

  lemma CoveredAll(p: Plan, y: Sys)
    requires forall z :: z in y.fields ==> FieldOk(p, y, z, y.fields[z])
    ensures forall j :: j in y.insts && j in p.homes ==> Covered(y.insts[j], p.homes[j], y.fields)
    ensures FieldsInMemory(y.k, y.fields)
  {
    hide Registered, Real;
    forall z | z in y.fields ensures FieldOk(p, y, z, y.fields[z]) {
    }
  }

  lemma CallFieldsMoved(p: Plan, y: Sys, i: nat, x: Field, act: Act, gone: bool)
    requires SysInv(p, y) && CmdOk(p, y, Call(i, x, act, gone))
    ensures ActOk(p.configs[i], y.k, y.insts[i], p.homes[i], act, x, y.fields[x])
    ensures var r := Act1(p.configs[i], y.k, y.insts[i], p.homes[i], act, x, y.fields[x]);
            && FieldsMoved(p, y, i, x, Step(p, y, Call(i, x, act, gone)), r.ops)
            && (Faithful(p.configs[i], y.k, y.insts[i], act, y.fields[x]) <==>
                Real(r.s, r.ops) == Real(y.insts[i], y.fields[x]))
  {
    hide Core, LiveBut, TablesOk, Registered, SameReal, Act1, Faithful, Real;
    CallReady(p, y, i, x, act, gone);
    ActFields(p.configs[i], y.k, y.insts[i], p.homes[i], act, x, y.fields[x]);
  }

  // ---------------------------------------------------------------- what fields point to, step by step

  /** Whether a step leaves its field pointing at the same real operations. */
  ghost predicate StepFaithful(p: Plan, y: Sys, cmd: Cmd)
    requires SysInv(p, y) && CmdOk(p, y, cmd)
  {
    match cmd
    case Call(i, x, act, gone) => gone || Faithful(p.configs[i], y.k, y.insts[i], act, y.fields[x])
    case Assign(x, a) => true
  }

  lemma RealOfOwner(p: Plan, y: Sys, i: nat, a: Addr)
    requires i in y.insts && i in p.configs && p.configs[i].id == i && TablesOk(p.configs[i], y.k, y.insts[i])
    requires a in y.k.owner ==> y.k.owner[a] == i
    ensures RealAll(y, a) == Real(y.insts[i], a)
  {
  }

  /** An address keeps its meaning when the instrumentor that moved gives it the same one. */
  lemma MovedReal(p: Plan, y: Sys, i: nat, y': Sys, a: Addr)
    requires Moved(p, y, i, y') && Real(y'.insts[i], a) == Real(y.insts[i], a)
    ensures RealAll(y', a) == RealAll(y, a)
  {
    hide TablesOk, Undone, Others, Real;
    var c := p.configs[i];
    if a in y.k.owner && y.k.owner[a] != i {
      ConservedElsewhere(c, y.k, y.insts[i], y'.k, y'.insts[i], a);
    } else {
      if a in y'.k.owner && y'.k.owner[a] != i {
        OwnersElsewhere(c, y.k, y'.k, a);
      }
      RealOfOwner(p, y, i, a);
      RealOfOwner(p, y', i, a);
    }
  }

  lemma MovedRealThis(p: Plan, y: Sys, i: nat, y': Sys, a: Addr, v: Addr)
    requires Moved(p, y, i, y') && Real(y'.insts[i], v) == Real(y.insts[i], a)
    requires v == a || v in y.insts[i].table || v in y'.insts[i].table
    ensures RealAll(y', v) == RealAll(y, a)
  {
    var c := p.configs[i];
    if v == a {
      MovedReal(p, y, i, y', a);
    } else {
      hide Undone, Others, Conserved;
      if a in y.k.owner && y.k.owner[a] != i {
        ConservedElsewhere(c, y.k, y.insts[i], y'.k, y'.insts[i], a);
        assert false;
      }
      if v in y'.k.owner && y'.k.owner[v] != i {
        OwnersElsewhere(c, y.k, y'.k, v);
        assert false;
      }
      RealOfOwner(p, y, i, a);
      RealOfOwner(p, y', i, v);
    }
  }

  /** A faithful step changes no field's real operations, except by assignment. */
  lemma StepReal(p: Plan, y: Sys, cmd: Cmd)
    requires SysInv(p, y) && CmdOk(p, y, cmd) && StepFaithful(p, y, cmd)
    ensures var y' := Step(p, y, cmd);
            forall z :: z in y'.fields ==> z in y.fields || (cmd.Assign? && z == cmd.x)
    ensures var y' := Step(p, y, cmd);
            forall z :: z in y'.fields ==>
              RealAll(y', y'.fields[z]) == if cmd.Assign? && z == cmd.x then cmd.a else RealAll(y, y.fields[z])
  {
    hide Core, LiveBut, Conserved, TablesOk, Registered, SameReal, Act1, ActOk, Faithful, RealAll, Real;
    var y' := Step(p, y, cmd);
    match cmd
    case Assign(x, a) =>
      AssignReal(p, y, x, a);
    case Call(i, x, act, gone) =>
      CallReady(p, y, i, x, act, gone);
      var v := Act1(p.configs[i], y.k, y.insts[i], p.homes[i], act, x, y.fields[x]).ops;
      StepMoves(p, y, i, x, act, gone);
      CallFieldsMoved(p, y, i, x, act, gone);
      forall z | z in y'.fields ensures RealAll(y', y'.fields[z]) == RealAll(y, y.fields[z]) {
        if z == x {
          MovedRealThis(p, y, i, y', y.fields[x], v);
        } else {
          MovedOtherField(p, y, i, x, y', v, z);
          MovedReal(p, y, i, y', y.fields[z]);
        }
      }
  }

  lemma AssignReal(p: Plan, y: Sys, x: Field, a: Addr)
    requires SysInv(p, y) && CmdOk(p, y, Assign(x, a))
    ensures RealAll(Step(p, y, Assign(x, a)), a) == a
    ensures forall b :: RealAll(Step(p, y, Assign(x, a)), b) == RealAll(y, b)
  {
    hide Inv, Covered, Real;
  }

  // ---------------------------------------------------------------- whole runs

  ghost predicate RunOk(p: Plan, y: Sys, cmds: seq<Cmd>)
    requires SysInv(p, y)
    decreases |cmds|
  {
    cmds == [] || (CmdOk(p, y, cmds[0]) && (StepKeepsInv(p, y, cmds[0]); RunOk(p, Step(p, y, cmds[0]), cmds[1..])))
  }

  ghost function Run(p: Plan, y: Sys, cmds: seq<Cmd>): Sys
    requires SysInv(p, y) && RunOk(p, y, cmds)
    decreases |cmds|
  {
    if cmds == [] then y
    else StepKeepsInv(p, y, cmds[0]); Run(p, Step(p, y, cmds[0]), cmds[1..])
  }

  ghost predicate RunFaithful(p: Plan, y: Sys, cmds: seq<Cmd>)
    requires SysInv(p, y) && RunOk(p, y, cmds)
    decreases |cmds|
  {
    cmds == [] ||
      (StepFaithful(p, y, cmds[0]) && (StepKeepsInv(p, y, cmds[0]); RunFaithful(p, Step(p, y, cmds[0]), cmds[1..])))
  }

  /** What each field would hold if there were no engine: the kernel's last assignment to it. */
  function Assigned(fields: map<Field, Addr>, cmds: seq<Cmd>): map<Field, Addr>
    decreases |cmds|
  {
    if cmds == [] then fields
    else Assigned(match cmds[0]
                  case Assign(x, a) => fields[x := a]
                  case Call(i, x, act, gone) => if gone then fields - {x} else fields, cmds[1..])
  }

  ghost predicate PointsAt(y: Sys, fields: map<Field, Addr>) {
    y.fields.Keys == fields.Keys && forall x :: x in y.fields ==> RealAll(y, y.fields[x]) == fields[x]
  }

  /** Whatever is called in whatever order, the invariant holds and the memory underneath is never lost. */
  lemma {:induction false} RunKeepsInv(p: Plan, y: Sys, cmds: seq<Cmd>)
    requires SysInv(p, y) && RunOk(p, y, cmds)
    ensures var z := Run(p, y, cmds); SysInv(p, z) && forall a :: Plain(z, a) == Plain(y, a)
    decreases |cmds|
  {
    hide SysInv, CmdOk, Step, Plain;
    if cmds != [] {
      StepKeepsInv(p, y, cmds[0]);
      RunKeepsInv(p, Step(p, y, cmds[0]), cmds[1..]);
    }
  }

  lemma {:induction false} RunKeepsFields(p: Plan, y: Sys, cmds: seq<Cmd>, fields: map<Field, Addr>)
    requires SysInv(p, y) && RunOk(p, y, cmds) && RunFaithful(p, y, cmds) && PointsAt(y, fields)
    ensures PointsAt(Run(p, y, cmds), Assigned(fields, cmds))
    decreases |cmds|
  {
    if cmds != [] {
      var fields' := match cmds[0]
                     case Assign(x, a) => fields[x := a]
                     case Call(i, x, act, gone) => if gone then fields - {x} else fields;
      StepKeepsInv(p, y, cmds[0]);
      StepPoints(p, y, cmds[0], fields, fields');
      hide SysInv, CmdOk, Step, PointsAt, StepFaithful;
      RunKeepsFields(p, Step(p, y, cmds[0]), cmds[1..], fields');
    }
  }

  lemma StepPoints(p: Plan, y: Sys, cmd: Cmd, fields: map<Field, Addr>, fields': map<Field, Addr>)
    requires SysInv(p, y) && CmdOk(p, y, cmd) && StepFaithful(p, y, cmd) && PointsAt(y, fields)
    requires fields' == match cmd
                        case Assign(x, a) => fields[x := a]
                        case Call(i, x, act, gone) => if gone then fields - {x} else fields
    ensures PointsAt(Step(p, y, cmd), fields')
  {
    hide SysInv, StepFaithful, RealAll, ActOk, Act1;
    StepReal(p, y, cmd);
  }

  // ---------------------------------------------------------------- putting everything back

  /** No instrumentor has any watch left. */
  ghost predicate AllForgotten(y: Sys) {
    forall i :: i in y.insts ==> y.insts[i].objects == map[] && forall f :: f in y.insts[i].fw ==>
      y.insts[i].fw[f] == []
  }

  /** An instrumentor without watches has nothing in any table. */
  lemma ForgottenIsEmpty(c: Config, k: Kernel, s: Inst)
    requires Inv(c, k, s) && s.objects == map[] && forall f :: f in s.fw ==> s.fw[f] == []
    ensures s.idatas == map[] && s.table == map[] && forall a :: a in k.owner ==> k.owner[a] != c.id
  {
    hide LiveBut;
    if h :| h in s.idatas {
      LiveWitness(s, h);
      assert false;
    }
    assert s.table == map[];
  }

  /** An idata is there because some watch is. */
  lemma LiveWitness(s: Inst, h: Addr)
    requires LiveBut(s, {}, {}) && h in s.idatas
    ensures s.objects != map[] || exists f :: f in s.fw && s.fw[f] != []
  {
    if Watched(s, h) {
      var o :| o in s.objects && s.objects[o] == h;
    } else {
      assert Held(s, s.idatas[h].layers[0], h);
    }
  }

  lemma AllForgottenIsClean(p: Plan, y: Sys)
    requires SysInv(p, y) && AllForgotten(y)
    ensures y.k.owner == map[]
    ensures forall i :: i in y.insts ==> y.insts[i].table == map[] && y.insts[i].idatas == map[]
    ensures forall a :: Plain(y, a) == if a in y.k.mem then Some(y.k.mem[a]) else None
    ensures forall a :: RealAll(y, a) == a
  {
    forall i | i in y.insts ensures y.insts[i].table == map[] && y.insts[i].idatas == map[] {
      ForgottenIsEmpty(p.configs[i], y.k, y.insts[i]);
    }
    forall a | a in y.k.owner ensures false {
      CoreTables(p.configs[y.k.owner[a]], y.k, y.insts[y.k.owner[a]]);
    }
    assert y.k.owner == map[];
  }

  /**
    After any run from a state without watches to a state without watches, memory is word for word
    what it was, no table holds anything, and - if no step was unfaithful - every field holds
    exactly what the kernel last assigned to it.
  */
  lemma RunRestores(p: Plan, y: Sys, cmds: seq<Cmd>)
    requires SysInv(p, y) && AllForgotten(y) && RunOk(p, y, cmds)
    requires AllForgotten(Run(p, y, cmds))
    ensures var z := Run(p, y, cmds);
            && z.k == y.k && z.k.owner == map[]
            && (forall i :: i in z.insts ==> z.insts[i].table == map[] && z.insts[i].idatas == map[])
            && (RunFaithful(p, y, cmds) ==> z.fields == Assigned(y.fields, cmds))
  {
    hide SysInv, RunOk, Run, RunFaithful, Plain, RealAll, AllForgotten;
    var z := Run(p, y, cmds);
    RunKeepsInv(p, y, cmds);
    AllForgottenIsClean(p, y);
    AllForgottenIsClean(p, z);
    assert forall a :: Plain(z, a) == Plain(y, a);
    forall a ensures a in z.k.mem <==> a in y.k.mem ensures a in z.k.mem ==> z.k.mem[a] == y.k.mem[a] {
      assert Plain(z, a) == Plain(y, a);
    }
    assert z.k.mem == y.k.mem;
    if RunFaithful(p, y, cmds) {
      assert PointsAt(y, y.fields);
      RunKeepsFields(p, y, cmds, y.fields);
      assert z.fields == Assigned(y.fields, cmds);
    }
  }

  /** Before anything is watched. */
  function StartSys(p: Plan, k: Kernel, fields: map<Field, Addr>): Sys {
    Sys(k, map i | i in p.configs :: Inst(map[], map[], map[], map f | f in p.configs[i].foreign :: []), fields)
  }

  /** Runs can start from any memory that no instrumentor has touched and that holds no replacement functions. */
  lemma StartSysInv(p: Plan, k: Kernel, fields: map<Field, Addr>)
    requires p.configs.Keys == p.homes.Keys
    requires forall i :: i in p.configs ==> p.configs[i].id == i && WfConfig(p.configs[i])
    requires k.owner == map[] && FieldsInMemory(k, fields)
    requires forall i, a :: i in p.configs && a in k.mem ==> NoReplacement(p.configs[i], k.mem[a])
    ensures SysInv(p, StartSys(p, k, fields)) && AllForgotten(StartSys(p, k, fields))
  {
    hide Inv, WfConfig, Covered, FieldsInMemory, NoReplacement, Undone, StartSys;
    StartParts(p, k, fields);
    forall i | i in p.configs ensures Inv(p.configs[i], k, StartSys(p, k, fields).insts[i]) {
      StartInv(p.configs[i], k);
    }
    forall i | i in p.configs ensures Covered(StartSys(p, k, fields).insts[i], p.homes[i], fields) {
      NothingCovered(p.configs[i], p.homes[i], fields);
    }
  }

  lemma StartParts(p: Plan, k: Kernel, fields: map<Field, Addr>)
    requires k.owner == map[]
    ensures var y := StartSys(p, k, fields);
      && y.k == k && y.fields == fields && y.insts.Keys == p.configs.Keys && AllForgotten(y)
      && (forall i :: i in p.configs ==>
        y.insts[i] == Inst(map[], map[], map[], map f | f in p.configs[i].foreign :: []))
      && forall a :: Plain(y, a) == if a in k.mem then Some(k.mem[a]) else None
  {
  }

  lemma NothingCovered(c: Config, home: Home, fields: map<Field, Addr>)
    ensures Covered(Inst(map[], map[], map[], map f | f in c.foreign :: []), home, fields)
  {
  }

  /** What an address may be for an instrumentor: a struct it replaced or the original of one. */
  ghost predicate Instruments(y: Sys, i: nat, h: Addr, a: Addr) {
    i in y.insts && h in y.insts[i].idatas && Mine(y.insts[i].idatas[h], h, a)
  }

  /**
    Every address in the global table belongs to one struct of one instrumentor. Nothing is
    instrumented twice: no replaced struct is another one's original, and the tables of the
    instrumentors are disjoint and make up the global one.
  */
  lemma OneOwner(p: Plan, y: Sys, a: Addr)
    requires SysInv(p, y)
    ensures a in y.k.owner <==> exists i :: i in y.insts && a in y.insts[i].table
    ensures a in y.k.owner <==> exists i, h :: Instruments(y, i, h, a)
    ensures forall i, j, g, h :: Instruments(y, i, g, a) && Instruments(y, j, h, a) ==> i == j && g == h
    ensures forall i, h :: Instruments(y, i, h, a) ==>
      a in y.k.owner && y.k.owner[a] == i && a in y.insts[i].table && y.insts[i].table[a] == h
  {
    hide SysInv, Instruments;
    forall i, h | Instruments(y, i, h, a)
      ensures i in y.insts && a in y.insts[i].table && y.insts[i].table[a] == h && a in y.k.owner && y.k.owner[a] == i
    {
      OwnerOf(p, y, i, h, a);
    }
    forall i | i in y.insts && a in y.insts[i].table ensures Instruments(y, i, y.insts[i].table[a], a) {
      TableOwner(p, y, i, a);
    }
    if a in y.k.owner {
      OwnerTable(p, y, a);
    }
  }

  lemma OwnerOf(p: Plan, y: Sys, i: nat, h: Addr, a: Addr)
    requires SysInv(p, y) && Instruments(y, i, h, a)
    ensures i in y.insts && a in y.insts[i].table && y.insts[i].table[a] == h && a in y.k.owner && y.k.owner[a] == i
  {
    hide Core, LiveBut, TablesOk, Covered, FieldsInMemory;
    CoreTables(p.configs[i], y.k, y.insts[i]);
    MineInTable(p.configs[i], y.k, y.insts[i], h, a);
  }

  lemma TableOwner(p: Plan, y: Sys, i: nat, a: Addr)
    requires SysInv(p, y) && i in y.insts && a in y.insts[i].table
    ensures Instruments(y, i, y.insts[i].table[a], a)
  {
    hide Core, LiveBut, Covered, FieldsInMemory;
    CoreTables(p.configs[i], y.k, y.insts[i]);
  }

  lemma OwnerTable(p: Plan, y: Sys, a: Addr)
    requires SysInv(p, y) && a in y.k.owner
    ensures y.k.owner[a] in y.insts && a in y.insts[y.k.owner[a]].table
  {
    hide Core, LiveBut, Covered, FieldsInMemory;
    CoreTables(p.configs[y.k.owner[a]], y.k, y.insts[y.k.owner[a]]);
  }

  lemma MineInTable(c: Config, k: Kernel, s: Inst, h: Addr, a: Addr)
    requires TablesOk(c, k, s) && h in s.idatas && Mine(s.idatas[h], h, a)
    ensures a in s.table && s.table[a] == h && a in k.owner && k.owner[a] == c.id
  {
  }
}
