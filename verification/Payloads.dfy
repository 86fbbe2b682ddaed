/**
  Payloads of an interceptor (payloads.c): which of its operations are to be intercepted,
  with which handlers, and in which mode they are to be replaced.
*/
module Payloads {
  import opened Options
  import opened Layers

  /** A handler for an operation; external ones are called for a missing operation too. */
  datatype Handler = Handler(offset: nat, func: Fn, external: bool)

  datatype Payload = Payload(id: nat, mod: Option<nat>, pre: seq<Handler>, post: seq<Handler>)

  /** A growing array of pointers with a null pointer at its end; no array if there are none. */
  datatype Funcs = Funcs(elems: seq<Fn>, n: nat)

  const NO_FUNCS := Funcs([], 0)

  function WithFunc(a: Funcs, f: Fn): Funcs
    requires a.n <= |a.elems|
  {
    Funcs(a.elems[..a.n] + [f, NULL], a.n + 1)
  }

  predicate FuncsOk(a: Funcs) {
    if a.n == 0 then a.elems == [] else |a.elems| == a.n + 1 && a.elems[a.n] == NULL
  }

  function Content(a: Funcs): seq<Fn>
    requires a.n <= |a.elems|
  {
    a.elems[..a.n]
  }

  /** An operation that can be intercepted, and how it is. */
  datatype Operation = Operation(offset: nat, repl: Fn, group: nat, internalOnly: bool,
                                 used: Use, default: Use)

  /** Interception of an operation that is there, or of one that is missing. */
  datatype Use = Use(on: bool, pre: Funcs, post: Funcs)

  const NO_USE := Use(false, NO_FUNCS, NO_FUNCS)

  predicate UseOk(u: Use) {
    FuncsOk(u.pre) && FuncsOk(u.post) && (!u.on ==> u == NO_USE)
  }

  predicate OperationOk(op: Operation) {
    UseOk(op.used) && UseOk(op.default)
  }

  predicate Blank(op: Operation) {
    op.used == NO_USE && op.default == NO_USE
  }

  /** Forget all interception; the arrays are freed if the flag says that there are any. */
  function Cleared(op: Operation): (r: Operation)
    ensures OperationOk(op) ==> r == op.(used := NO_USE, default := NO_USE)
  {
    op.(used := if op.used.on then NO_USE else op.used, default := if op.default.on then NO_USE else op.default)
  }

  function WithHandler(u: Use, f: Fn, post: bool): (r: Use)
    requires UseOk(u)
    ensures UseOk(r)
  {
    if post then Use(true, u.pre, WithFunc(u.post, f)) else Use(true, WithFunc(u.pre, f), u.post)
  }

  // ---------------------------------------------------------------- which handlers an operation has

  /** The functions among handlers that are for an offset; only external ones for a missing operation. */
  function FuncsFor(hs: seq<Handler>, off: nat, missing: bool): seq<Fn> {
    if hs == [] then []
    else
      var h := hs[|hs| - 1];
      FuncsFor(hs[..|hs| - 1], off, missing) + if h.offset == off && (missing ==> h.external) then [h.func] else []
  }

  predicate AnyFor(hs: seq<Handler>, off: nat, missing: bool) {
    exists i :: 0 <= i < |hs| && hs[i].offset == off && (missing ==> hs[i].external)
  }

  /** The same for payloads one after the other. */
  function AllFuncsFor(ps: seq<Payload>, off: nat, missing: bool, post: bool): seq<Fn> {
    if ps == [] then []
    else
      var p := ps[|ps| - 1];
      AllFuncsFor(ps[..|ps| - 1], off, missing, post) + FuncsFor(if post then p.post else p.pre, off, missing)
  }

  predicate Wanted(ps: seq<Payload>, off: nat, missing: bool) {
    exists i :: 0 <= i < |ps| && (AnyFor(ps[i].pre, off, missing) || AnyFor(ps[i].post, off, missing))
  }

  // ---------------------------------------------------------------- the same without recursion

  /** All handlers to be called before an operation, payload after payload. */
  function PreHandlers(ps: seq<Payload>): seq<Handler> {
    if ps == [] then [] else PreHandlers(ps[..|ps| - 1]) + ps[|ps| - 1].pre
  }

  /** All handlers to be called after an operation. */
  function PostHandlers(ps: seq<Payload>): seq<Handler> {
    if ps == [] then [] else PostHandlers(ps[..|ps| - 1]) + ps[|ps| - 1].post
  }

  /** Where the handlers for an operation are in a list of handlers, in order. */
  ghost predicate Places(hs: seq<Handler>, off: nat, missing: bool, places: seq<nat>) {
    && (forall i :: 0 <= i < |places| ==> places[i] < |hs|)
    && (forall i, j :: 0 <= i < j < |places| ==> places[i] < places[j])
    && (forall k: nat :: k < |hs| ==> (k in places <==> hs[k].offset == off && (missing ==> hs[k].external)))
  }

  /** An array with the functions of exactly these handlers in order, and a null pointer; no array if there are none. */
  ghost predicate Lists(a: seq<Fn>, hs: seq<Handler>, off: nat, missing: bool) {
    exists places: seq<nat> :: Places(hs, off, missing, places)
      && (places == [] ==> a == [])
      && (places != [] ==> |a| == |places| + 1 && a[|places|] == NULL && forall i :: 0 <= i < |places| ==>
        a[i] == hs[places[i]].func)
  }

  /** The array that is built for the payloads in use lists the handlers of its kind. */
  lemma ListsHandlers(ps: seq<Payload>, off: nat, missing: bool)
    ensures Lists(NullTerminated(AllFuncsFor(ps, off, missing, false)), PreHandlers(ps), off, missing)
    ensures Lists(NullTerminated(AllFuncsFor(ps, off, missing, true)), PostHandlers(ps), off, missing)
  {
    AllFuncsOf(ps, off, missing);
    ListsFuncs(PreHandlers(ps), off, missing);
    ListsFuncs(PostHandlers(ps), off, missing);
  }

  lemma {:induction false} AllFuncsOf(ps: seq<Payload>, off: nat, missing: bool)
    ensures AllFuncsFor(ps, off, missing, false) == FuncsFor(PreHandlers(ps), off, missing)
    ensures AllFuncsFor(ps, off, missing, true) == FuncsFor(PostHandlers(ps), off, missing)
  {
    hide FuncsFor;
    if ps == [] {
      NoFuncs(off, missing);
    } else {
      var n := |ps| - 1;
      AllFuncsOf(ps[..n], off, missing);
      FuncsTogether(PreHandlers(ps[..n]), ps[n].pre, off, missing);
      FuncsTogether(PostHandlers(ps[..n]), ps[n].post, off, missing);
    }
  }

  lemma NoFuncs(off: nat, missing: bool)
    ensures FuncsFor([], off, missing) == []
  {
  }

  lemma {:induction false} FuncsTogether(hs: seq<Handler>, more: seq<Handler>, off: nat, missing: bool)
    ensures FuncsFor(hs + more, off, missing) == FuncsFor(hs, off, missing) + FuncsFor(more, off, missing)
  {
    hide FuncsFor;
    if more == [] {
      NoFuncs(off, missing);
      assert hs + more == hs;
    } else {
      var n := |more| - 1;
      FuncsTogether(hs, more[..n], off, missing);
      AnySnoc(hs + more[..n], more[n], off, missing);
      AnySnoc(more[..n], more[n], off, missing);
      assert hs + more == (hs + more[..n]) + [more[n]] && more == more[..n] + [more[n]];
    }
  }

  lemma {:induction false} ListsFuncs(hs: seq<Handler>, off: nat, missing: bool)
    ensures Lists(NullTerminated(FuncsFor(hs, off, missing)), hs, off, missing)
  {
    var places := PlacesOf(hs, off, missing);
    var a := NullTerminated(FuncsFor(hs, off, missing));
    assert places != [] ==> forall i :: 0 <= i < |places| ==> a[i] == hs[places[i]].func;
  }

  lemma {:induction false} PlacesOf(hs: seq<Handler>, off: nat, missing: bool) returns (places: seq<nat>)
    ensures Places(hs, off, missing, places) && |places| == |FuncsFor(hs, off, missing)|
    ensures forall i :: 0 <= i < |places| ==> FuncsFor(hs, off, missing)[i] == hs[places[i]].func
  {
    if hs == [] {
      places := [];
    } else {
      var n := |hs| - 1;
      places := PlacesOf(hs[..n], off, missing);
      var less := places;
      if hs[n].offset == off && (missing ==> hs[n].external) {
        places := places + [n];
      }
      forall k: nat | k < |hs| ensures k in places <==> hs[k].offset == off && (missing ==> hs[k].external) {
        if k < n {
          assert hs[..n][k] == hs[k];
          assert k in places <==> k in less;
        }
      }
    }
  }

  /** Handlers of one kind are not called as the other. */
  lemma {:induction false} OfOneKind(ps: seq<Payload>)
    ensures (forall p :: p in ps ==> p.pre == []) ==> PreHandlers(ps) == []
    ensures (forall p :: p in ps ==> p.post == []) ==> PostHandlers(ps) == []
  {
    if ps != [] {
      OfOneKind(ps[..|ps| - 1]);
    }
  }

  // ---------------------------------------------------------------- adding handlers to operations

  ghost predicate Distinct(ops: seq<Operation>) {
    forall i, j :: 0 <= i < j < |ops| ==> ops[i].offset != ops[j].offset
  }

  ghost predicate AllOk(ops: seq<Operation>) {
    forall i :: 0 <= i < |ops| ==> OperationOk(ops[i])
  }

  predicate SameOperation(a: Operation, b: Operation) {
    a.offset == b.offset && a.repl == b.repl && a.group == b.group && a.internalOnly == b.internalOnly
  }

  ghost predicate SameOperations(a: seq<Operation>, b: seq<Operation>) {
    |a| == |b| && forall i :: 0 <= i < |a| ==> SameOperation(a[i], b[i])
  }

  predicate Known(ops: seq<Operation>, hs: seq<Handler>) {
    forall h :: h in hs ==> exists i :: 0 <= i < |ops| && ops[i].offset == h.offset
  }

  /** What the handlers of some payloads make of an operation that was `base` before. */
  ghost predicate Gathered(base: Operation, op: Operation, ps: seq<Payload>) {
    && SameOperation(base, op) && OperationOk(base) && OperationOk(op)
    && GatheredUse(base.used, op.used, ps, base.offset, false)
    && GatheredUse(base.default, op.default, ps, base.offset, true)
  }

  ghost predicate GatheredUse(base: Use, u: Use, ps: seq<Payload>, off: nat, missing: bool)
    requires UseOk(base) && UseOk(u)
  {
    && u.on == (base.on || Wanted(ps, off, missing))
    && Content(u.pre) == Content(base.pre) + AllFuncsFor(ps, off, missing, false)
    && Content(u.post) == Content(base.post) + AllFuncsFor(ps, off, missing, true)
  }

  function Added(op: Operation, h: Handler, post: bool): (r: Operation)
    requires OperationOk(op)
    ensures OperationOk(r) && SameOperation(op, r)
  {
    op.(used := WithHandler(op.used, h.func, post),
        default := if h.external then WithHandler(op.default, h.func, post) else op.default)
  }

  /** A payload up to some handler. */
  function Upto(p: Payload, k: nat, post: bool): Payload
    requires k <= |if post then p.post else p.pre|
  {
    if post then p.(post := p.post[..k]) else p.(pre := p.pre[..k], post := [])
  }

  lemma WantedSnoc(ps: seq<Payload>, p: Payload, off: nat, missing: bool)
    ensures Wanted(ps + [p], off, missing) <==>
      Wanted(ps, off, missing) || AnyFor(p.pre, off, missing) || AnyFor(p.post, off, missing)
  {
    var qs := ps + [p];
    assert forall i :: 0 <= i < |ps| ==> qs[i] == ps[i];
    assert qs[|ps|] == p;
  }

  lemma AnySnoc(hs: seq<Handler>, h: Handler, off: nat, missing: bool)
    ensures AnyFor(hs + [h], off, missing) <==>
      AnyFor(hs, off, missing) || (h.offset == off && (missing ==> h.external))
    ensures FuncsFor(hs + [h], off, missing) == FuncsFor(hs, off, missing) + if h.offset == off &&
      (missing ==> h.external) then [h.func] else []
  {
    var gs := hs + [h];
    assert forall i :: 0 <= i < |hs| ==> gs[i] == hs[i];
    assert gs[|hs|] == h && gs[..|hs|] == hs;
  }

  /** One more handler of the last payload. */
  lemma GatherUse(base: Use, u: Use, ps: seq<Payload>, p: Payload, k: nat, post: bool, off: nat, missing: bool)
    requires k < |if post then p.post else p.pre| && UseOk(base) && UseOk(u)
    requires GatheredUse(base, u, ps + [Upto(p, k, post)], off, missing)
    ensures var h := if post then p.post[k] else p.pre[k];
      var u2 := if h.offset == off && (missing ==> h.external) then WithHandler(u, h.func, post) else u;
      GatheredUse(base, u2, ps + [Upto(p, k + 1, post)], off, missing)
  {
    hide FuncsOk, FuncsFor, AnyFor, Wanted, AllFuncsFor, WithFunc, Content;
    var q, q2 := Upto(p, k, post), Upto(p, k + 1, post);
    WantedSnoc(ps, q, off, missing);
    WantedSnoc(ps, q2, off, missing);
    AllSnoc(ps, q, off, missing);
    AllSnoc(ps, q2, off, missing);
    if post {
      AnySnoc(p.post[..k], p.post[k], off, missing);
      assert p.post[..k + 1] == p.post[..k] + [p.post[k]];
      ContentSnoc(u.post, p.post[k].func);
    } else {
      AnySnoc(p.pre[..k], p.pre[k], off, missing);
      assert p.pre[..k + 1] == p.pre[..k] + [p.pre[k]];
      ContentSnoc(u.pre, p.pre[k].func);
    }
  }

  lemma ContentSnoc(a: Funcs, f: Fn)
    requires FuncsOk(a)
    ensures a.n <= |a.elems| && Content(WithFunc(a, f)) == Content(a) + [f]
  {
  }

  lemma AllSnoc(ps: seq<Payload>, p: Payload, off: nat, missing: bool)
    ensures AllFuncsFor(ps + [p], off, missing, false)
      == AllFuncsFor(ps, off, missing, false) + FuncsFor(p.pre, off, missing)
    ensures AllFuncsFor(ps + [p], off, missing, true)
      == AllFuncsFor(ps, off, missing, true) + FuncsFor(p.post, off, missing)
  {
    assert (ps + [p])[..|ps|] == ps;
  }

  lemma GatherStep(base: Operation, op: Operation, ps: seq<Payload>, p: Payload, k: nat, post: bool)
    requires k < |if post then p.post else p.pre| && Gathered(base, op, ps + [Upto(p, k, post)])
    ensures var h := if post then p.post[k] else p.pre[k];
      Gathered(base, if h.offset == op.offset then Added(op, h, post) else op, ps + [Upto(p, k + 1, post)])
  {
    hide GatheredUse, UseOk, WithHandler;
    GatherUse(base.used, op.used, ps, p, k, post, base.offset, false);
    GatherUse(base.default, op.default, ps, p, k, post, base.offset, true);
  }

  /** A payload none of whose handlers has been looked at is as good as none. */
  lemma GatherStart(base: Operation, op: Operation, ps: seq<Payload>, p: Payload)
    requires Gathered(base, op, ps)
    ensures Gathered(base, op, ps + [Upto(p, 0, false)])
  {
    var q := Upto(p, 0, false);
    WantedSnoc(ps, q, base.offset, false);
    WantedSnoc(ps, q, base.offset, true);
    assert (ps + [q])[..|ps|] == ps;
  }

  ghost predicate AllGathered(base: seq<Operation>, ops: seq<Operation>, ps: seq<Payload>) {
    |base| == |ops| && Distinct(ops) && forall i :: 0 <= i < |ops| ==> Gathered(base[i], ops[i], ps)
  }

  lemma AllGatherStep(base: seq<Operation>, ops: seq<Operation>, ps: seq<Payload>, p: Payload, k: nat, post: bool,
      i: nat)
    requires k < |if post then p.post else p.pre| && AllGathered(base, ops, ps + [Upto(p, k, post)]) && i < |ops|
    requires ops[i].offset == (if post then p.post[k] else p.pre[k]).offset
    ensures AllGathered(base, ops[i := Added(ops[i], if post then p.post[k] else p.pre[k], post)],
      ps + [Upto(p, k + 1, post)])
  {
    hide Gathered, Added, Upto;
    forall j | 0 <= j < |ops| ensures Gathered(base[j], ops[j], ps + [Upto(p, k, post)]) && OperationOk(ops[j]) {
      GatheredOk(base[j], ops[j], ps + [Upto(p, k, post)]);
    }
    var h := if post then p.post[k] else p.pre[k];
    var ops2 := ops[i := Added(ops[i], h, post)];
    forall j | 0 <= j < |ops|
      ensures Gathered(base[j], ops2[j], ps + [Upto(p, k + 1, post)]) && ops2[j].offset == ops[j].offset
    {
      GatherStep(base[j], ops[j], ps, p, k, post);
    }
  }

  lemma GatheredOk(base: Operation, op: Operation, ps: seq<Payload>)
    requires Gathered(base, op, ps)
    ensures OperationOk(op) && SameOperation(base, op)
  {
  }

  // ---------------------------------------------------------------- groups

  /** All operations of a group are intercepted for missing operations if one of them is. */
  predicate InGroupOf(ops: seq<Operation>, i: nat, j: nat)
    requires i < |ops| && j < |ops|
  {
    ops[i].group == ops[j].group && ops[i].group != 0
  }

  predicate ClosedOn(ops: seq<Operation>, i: nat)
    requires i < |ops|
  {
    ops[i].default.on || exists j :: 0 <= j < |ops| && InGroupOf(ops, i, j) && ops[j].default.on
  }

  function Closed(ops: seq<Operation>): seq<Operation> {
    seq(|ops|, i requires 0 <= i < |ops| => ops[i].(default := ops[i].default.(on := ClosedOn(ops, i))))
  }

  ghost predicate GroupClosed(ops: seq<Operation>, on: set<nat>) {
    forall i, j :: 0 <= i < |ops| && 0 <= j < |ops| && j in on && InGroupOf(ops, i, j) ==> i in on
  }

  ghost function DefaultOn(ops: seq<Operation>): set<nat> {
    set i | 0 <= i < |ops| && ops[i].default.on
  }

  /** One pass over the groups gives the least set that is closed under them. */
  lemma ClosedIsLeast(ops: seq<Operation>, on: set<nat>)
    ensures DefaultOn(ops) <= DefaultOn(Closed(ops)) && GroupClosed(ops, DefaultOn(Closed(ops)))
    ensures DefaultOn(ops) <= on && GroupClosed(ops, on) ==> DefaultOn(Closed(ops)) <= on
  {
    forall i, j | 0 <= i < |ops| && 0 <= j < |ops| && j in DefaultOn(Closed(ops)) && InGroupOf(ops, i, j)
      ensures i in DefaultOn(Closed(ops))
    {
      if ops[j].default.on {
        assert ClosedOn(ops, i);
      } else {
        var k :| 0 <= k < |ops| && InGroupOf(ops, j, k) && ops[k].default.on;
        assert InGroupOf(ops, i, k);
      }
    }
    if DefaultOn(ops) <= on && GroupClosed(ops, on) {
      forall i | i in DefaultOn(Closed(ops)) ensures i in on {
        if !ops[i].default.on {
          var j :| 0 <= j < |ops| && InGroupOf(ops, i, j) && ops[j].default.on;
          assert j in DefaultOn(ops);
        }
      }
    }
  }

  // ---------------------------------------------------------------- replacements

  function ModeOf(op: Operation): Mode {
    if op.default.on then if op.used.on then ReplaceAll else ReplaceNull else ReplaceNotNull
  }

  /** What is intercepted is replaced, in the mode for which it is. */
  function ReplacementsOf(ops: seq<Operation>): Replacements {
    if ops == [] then []
    else
      var op := ops[|ops| - 1];
      ReplacementsOf(ops[..|ops| - 1]) +
      if op.used.on || op.default.on then [Replacement(op.offset, op.repl, ModeOf(op))] else []
  }

  /** Every operation gets one replacement at most. */
  lemma {:induction false} ReplacementsOnce(ops: seq<Operation>)
    requires Distinct(ops)
    ensures forall r :: r in ReplacementsOf(ops) ==> exists i :: 0 <= i < |ops| && ops[i].offset == r.offset
    ensures OnePerOffset(ReplacementsOf(ops))
  {
    hide ModeOf;
    if ops != [] {
      var n := |ops| - 1;
      assert forall i :: 0 <= i < n ==> ops[..n][i] == ops[i];
      ReplacementsOnce(ops[..n]);
    }
  }

  /** The replacement for an offset is that of the operation there. */
  lemma {:induction false} ReplacementFor(ops: seq<Operation>, i: nat)
    requires Distinct(ops) && i < |ops|
    ensures var op := ops[i];
      Entry(ReplacementsOf(ops), op.offset) ==
        if op.used.on || op.default.on then Some(Replacement(op.offset, op.repl, ModeOf(op))) else None
  {
    hide ModeOf, Entry;
    var n := |ops| - 1;
    var less, last := ReplacementsOf(ops[..n]), ops[n];
    assert less + [] == less;
    EntrySnoc(less, Replacement(last.offset, last.repl, ModeOf(last)), ops[i].offset);
    if i < n {
      assert Distinct(ops[..n]);
      ReplacementFor(ops[..n], i);
    } else {
      NoReplacementFor(ops[..n], last.offset);
    }
  }

  lemma {:induction false} NoReplacementFor(ops: seq<Operation>, off: nat)
    requires forall i :: 0 <= i < |ops| ==> ops[i].offset != off
    ensures Entry(ReplacementsOf(ops), off) == None
  {
    hide ModeOf;
    if ops != [] {
      var n := |ops| - 1;
      var less, last := ReplacementsOf(ops[..n]), ops[n];
      assert less + [] == less;
      EntrySnoc(less, Replacement(last.offset, last.repl, ModeOf(last)), off);
      NoReplacementFor(ops[..n], off);
    }
  }

  // ---------------------------------------------------------------- the decision

  /** With everything to be intercepted, missing operations are too where that is possible. */
  function Marked(ops: seq<Operation>, all: bool): seq<Operation> {
    if !all then ops
    else seq(|ops|, i requires 0 <= i < |ops| => MarkedOne(ops[i]))
  }

  function MarkedOne(op: Operation): Operation {
    op.(used := op.used.(on := true), default := op.default.(on := op.default.on || !op.internalOnly))
  }

  /** An operation that is missing is wanted by itself. */
  predicate MissingWanted(op: Operation, ps: seq<Payload>, all: bool) {
    (all && !op.internalOnly) || Wanted(ps, op.offset, true)
  }

  /** ... or together with its group. */
  ghost predicate MissingTaken(ops: seq<Operation>, ps: seq<Payload>, all: bool, i: nat)
    requires i < |ops|
  {
    MissingWanted(ops[i], ps, all) || exists j ::
      0 <= j < |ops| && InGroupOf(ops, i, j) && MissingWanted(ops[j], ps, all)
  }

  /** What these payloads are to make of operations: flags and arrays of handlers, exactly. */
  ghost predicate Intercepts(ops: seq<Operation>, ps: seq<Payload>, all: bool) {
    AllOk(ops) && Distinct(ops) && forall i :: 0 <= i < |ops| ==>
      && ops[i].used.on == (all || Wanted(ps, ops[i].offset, false))
      && ops[i].default.on == MissingTaken(ops, ps, all, i)
      && HandlersAre(ops[i].used, ps, ops[i].offset, false) && HandlersAre(ops[i].default, ps, ops[i].offset, true)
  }

  ghost predicate HandlersAre(u: Use, ps: seq<Payload>, off: nat, missing: bool)
    requires UseOk(u)
  {
    Content(u.pre) == AllFuncsFor(ps, off, missing, false) && Content(u.post) == AllFuncsFor(ps, off, missing, true)
  }

  lemma ClosedIntercepts(base: seq<Operation>, ops: seq<Operation>, ps: seq<Payload>, all: bool)
    requires (forall i :: 0 <= i < |base| ==> Blank(base[i])) && AllGathered(Marked(base, all), ops, ps)
    ensures Intercepts(Closed(ops), ps, all) && SameOperations(base, Closed(ops))
  {
    hide AllFuncsFor, Wanted;
    var closed := Closed(ops);
    forall i | 0 <= i < |ops|
      ensures SameOperation(base[i], ops[i]) && OperationOk(ops[i]) && OperationOk(closed[i])
      ensures ops[i].default.on == MissingWanted(closed[i], ps, all)
      ensures ops[i].used.on == (all || Wanted(ps, ops[i].offset, false))
      ensures HandlersAre(closed[i].used, ps, closed[i].offset, false)
      ensures HandlersAre(closed[i].default, ps, closed[i].offset, true)
    {
      assert Gathered(Marked(base, all)[i], ops[i], ps);
    }
    forall i | 0 <= i < |ops| ensures closed[i].default.on == MissingTaken(closed, ps, all, i) {
      assert forall j :: 0 <= j < |ops| ==> InGroupOf(closed, i, j) == InGroupOf(ops, i, j);
    }
  }

  /** Missing operations: of those without a group each is taken for itself, those of a group are taken together. */
  lemma GroupsShare(ops: seq<Operation>, ps: seq<Payload>, all: bool, i: nat, j: nat)
    requires Intercepts(ops, ps, all) && i < |ops| && j < |ops|
    ensures ops[i].group == 0 ==>
      (ops[i].default.on <==> (all && !ops[i].internalOnly) || Wanted(ps, ops[i].offset, true))
    ensures ops[i].group == ops[j].group != 0 ==> ops[i].default.on == ops[j].default.on
    ensures ops[i].default.on ==> exists l ::
      && 0 <= l < |ops| && (l == i || ops[l].group == ops[i].group != 0)
      && ((all && !ops[l].internalOnly) || Wanted(ps, ops[l].offset, true))
  {
    hide Wanted, HandlersAre;
    assert ops[i].default.on == MissingTaken(ops, ps, all, i) && ops[j].default.on == MissingTaken(ops, ps, all, j);
    if ops[i].group == ops[j].group != 0 {
      if MissingTaken(ops, ps, all, i) {
        Together(ops, ps, all, i, j);
      }
      if MissingTaken(ops, ps, all, j) {
        Together(ops, ps, all, j, i);
      }
    }
    if ops[i].default.on && !MissingWanted(ops[i], ps, all) {
      var l :| 0 <= l < |ops| && InGroupOf(ops, i, l) && MissingWanted(ops[l], ps, all);
      assert ops[l].group == ops[i].group != 0;
    }
  }

  lemma Together(ops: seq<Operation>, ps: seq<Payload>, all: bool, i: nat, j: nat)
    requires i < |ops| && j < |ops| && ops[i].group == ops[j].group != 0 && MissingTaken(ops, ps, all, i)
    ensures MissingTaken(ops, ps, all, j)
  {
    hide Wanted;
    if MissingWanted(ops[i], ps, all) {
      assert InGroupOf(ops, j, i);
    } else {
      var l :| 0 <= l < |ops| && InGroupOf(ops, i, l) && MissingWanted(ops[l], ps, all);
      assert InGroupOf(ops, j, l);
    }
  }

  /** The instrumentor that gets these replacements takes a slot over exactly if its operation is wanted. */
  lemma Decision(ops: seq<Operation>, ps: seq<Payload>, all: bool, i: nat, orig: Fn, below: Fn)
    requires Intercepts(ops, ps, all) && i < |ops|
    ensures Over(ReplacementsOf(ops), ops[i].offset, orig, below) ==
      if if orig != NULL then all || Wanted(ps, ops[i].offset, false) else MissingTaken(ops, ps, all, i)
        then ops[i].repl else below
  {
    hide AllFuncsFor, Wanted, ReplacementsOf, MissingTaken;
    ReplacementFor(ops, i);
  }

  // ---------------------------------------------------------------- how much memory it takes

  /** Array elements for a handler: one for each array it goes into. */
  function Cost(h: Handler): nat {
    if h.external then 2 else 1
  }

  function HandlersCost(hs: seq<Handler>): (n: nat)
    ensures n == 0 <==> hs == []
  {
    if hs == [] then 0 else HandlersCost(hs[..|hs| - 1]) + Cost(hs[|hs| - 1])
  }

  function PayloadsCost(ps: seq<Payload>): nat {
    if ps == [] then 0
    else var p := ps[|ps| - 1]; PayloadsCost(ps[..|ps| - 1]) + HandlersCost(p.pre) + HandlersCost(p.post)
  }

  /** All of it: the handlers, and the array of replacements if there is anything to replace. */
  function UseCost(ops: seq<Operation>, ps: seq<Payload>, all: bool): nat {
    PayloadsCost(ps) + if (all && ops != []) || PayloadsCost(ps) > 0 then 1 else 0
  }

  lemma {:induction false} HandlersUpto(hs: seq<Handler>, k: nat)
    requires k < |hs|
    ensures HandlersCost(hs[..k]) + Cost(hs[k]) == HandlersCost(hs[..k + 1]) <= HandlersCost(hs)
    decreases |hs| - k
  {
    assert hs[..k + 1][..k] == hs[..k];
    if k + 1 < |hs| {
      HandlersUpto(hs, k + 1);
    } else {
      assert hs[..k + 1] == hs;
    }
  }

  lemma {:induction false} PayloadsUpto(ps: seq<Payload>, k: nat)
    requires k < |ps|
    ensures PayloadsCost(ps[..k]) + HandlersCost(ps[k].pre) + HandlersCost(ps[k].post) == PayloadsCost(ps[..k + 1])
    ensures PayloadsCost(ps[..k + 1]) <= PayloadsCost(ps)
    decreases |ps| - k
  {
    assert ps[..k + 1][..k] == ps[..k];
    if k + 1 < |ps| {
      PayloadsUpto(ps, k + 1);
    } else {
      assert ps[..k + 1] == ps;
    }
  }

  /** Something is replaced if anything is to be intercepted. */
  lemma ReplacesAny(ops: seq<Operation>, ps: seq<Payload>, all: bool)
    requires Intercepts(ops, ps, all) && forall p :: p in ps ==> Accepted(ops, p)
    ensures ReplacementsOf(ops) != [] <==> (all && ops != []) || PayloadsCost(ps) > 0
  {
    hide HandlersAre, ReplacementsOf, PayloadsCost, AnyFor, Accepted;
    AnyReplacement(ops);
    if i :| 0 <= i < |ops| && (ops[i].used.on || ops[i].default.on) && !all {
      WantedCosts(ops, ps, i);
    }
    if PayloadsCost(ps) > 0 {
      var i := CostsWanted(ops, ps);
      assert ops[i].used.on;
    }
    if all && ops != [] {
      assert ops[0].used.on;
    }
  }

  lemma {:induction false} AnyReplacement(ops: seq<Operation>)
    ensures ReplacementsOf(ops) != [] <==> exists i :: 0 <= i < |ops| && (ops[i].used.on || ops[i].default.on)
  {
    if ops != [] {
      var n := |ops| - 1;
      AnyReplacement(ops[..n]);
      assert forall i :: 0 <= i < n ==> ops[..n][i] == ops[i];
    }
  }

  lemma WantedCosts(ops: seq<Operation>, ps: seq<Payload>, i: nat)
    requires i < |ops| && (Wanted(ps, ops[i].offset, false) || MissingTaken(ops, ps, false, i))
    ensures PayloadsCost(ps) > 0
  {
    hide PayloadsCost;
    if off, missing, k :| 0 <= k < |ps| && (AnyFor(ps[k].pre, off, missing) || AnyFor(ps[k].post, off, missing)) {
      PayloadsUpto(ps, k);
    }
  }

  lemma {:induction false} CostsWanted(ops: seq<Operation>, ps: seq<Payload>) returns (i: nat)
    requires PayloadsCost(ps) > 0 && forall p :: p in ps ==> Accepted(ops, p)
    ensures i < |ops| && Wanted(ps, ops[i].offset, false)
  {
    var n := |ps| - 1;
    var p := ps[n];
    if p.pre == [] && p.post == [] {
      i := CostsWanted(ops, ps[..n]);
      WantedSnoc(ps[..n], p, ops[i].offset, false);
      assert ps == ps[..n] + [p];
    } else {
      var hs := if p.pre != [] then p.pre else p.post;
      assert p in ps && Accepted(ops, p);
      assert hs[0] in hs && Allowed(ops, hs[0]);
      i :| 0 <= i < |ops| && ops[i].offset == hs[0].offset;
      assert AnyFor(hs, ops[i].offset, false);
    }
  }

  // ---------------------------------------------------------------- payloads of an interceptor

  /** A registered payload, and whether it is fixed for interception. */
  datatype PayloadElem = PayloadElem(payload: Payload, fixed: bool)

  function Fixed(elems: seq<PayloadElem>): seq<Payload> {
    if elems == [] then []
    else
      var e := elems[|elems| - 1];
      Fixed(elems[..|elems| - 1]) + if e.fixed then [e.payload] else []
  }

  /** The modules that payloads belong to. */
  function PinsOf(ps: seq<Payload>): multiset<nat> {
    if ps == [] then multiset{}
    else
      var p := ps[|ps| - 1];
      PinsOf(ps[..|ps| - 1]) + if p.mod.Some? then multiset{p.mod.value} else multiset{}
  }

  /** Where the payloads of a module are. */
  function Members(ps: seq<Payload>, m: nat): set<nat> {
    set i | 0 <= i < |ps| && ps[i].mod == Some(m)
  }

  /** A module is held once for each of its payloads. */
  lemma {:induction false} PinsCount(ps: seq<Payload>, m: nat)
    ensures PinsOf(ps)[m] == |Members(ps, m)|
  {
    if ps != [] {
      var n := |ps| - 1;
      PinsCount(ps[..n], m);
      assert Members(ps, m) == Members(ps[..n], m) + (if ps[n].mod == Some(m) then {n} else {});
    } else {
      assert Members(ps, m) == {};
    }
  }

  /** The payloads whose modules do not go away. */
  function Ready(elems: seq<PayloadElem>, leaving: set<nat>): seq<PayloadElem> {
    seq(|elems|, i requires 0 <= i < |elems| => elems[i].(fixed := IsReady(elems[i].payload, leaving)))
  }

  predicate IsReady(p: Payload, leaving: set<nat>) {
    p.mod.Some? ==> p.mod.value !in leaving
  }

  function Released(elems: seq<PayloadElem>): seq<PayloadElem> {
    seq(|elems|, i requires 0 <= i < |elems| => elems[i].(fixed := false))
  }

  lemma FixedSnoc(elems: seq<PayloadElem>, e: PayloadElem)
    ensures Fixed(elems + [e]) == Fixed(elems) + if e.fixed then [e.payload] else []
  {
    assert (elems + [e])[..|elems|] == elems;
  }

  lemma PinsSnoc(ps: seq<Payload>, p: Payload)
    ensures PinsOf(ps + [p]) == PinsOf(ps) + if p.mod.Some? then multiset{p.mod.value} else multiset{}
  {
    assert (ps + [p])[..|ps|] == ps;
  }

  lemma {:induction false} NoneFixed(elems: seq<PayloadElem>)
    ensures Fixed(Released(elems)) == []
    ensures (forall e :: e in elems ==> !e.fixed) ==> Fixed(elems) == [] && Released(elems) == elems
  {
    if elems != [] {
      var n := |elems| - 1;
      NoneFixed(elems[..n]);
      assert Released(elems)[..n] == Released(elems[..n]);
      assert forall e :: e in elems[..n] ==> e in elems;
      if forall e :: e in elems ==> !e.fixed {
        assert elems == Released(elems);
      }
    }
  }

  /** A payload may be registered if its handlers are for operations that can be intercepted like that. */
  predicate Accepted(ops: seq<Operation>, p: Payload) {
    AllowedAll(ops, p.pre) && AllowedAll(ops, p.post)
  }

  predicate AllowedAll(ops: seq<Operation>, hs: seq<Handler>) {
    forall h :: h in hs ==> Allowed(ops, h)
  }

  predicate Allowed(ops: seq<Operation>, h: Handler) {
    exists i :: 0 <= i < |ops| && ops[i].offset == h.offset && (h.external ==> !ops[i].internalOnly)
  }

  lemma AcceptedSame(ops1: seq<Operation>, ops2: seq<Operation>, p: Payload)
    requires SameOperations(ops1, ops2) && Accepted(ops1, p)
    ensures Accepted(ops2, p) && Known(ops2, p.pre) && Known(ops2, p.post)
  {
    forall h | h in p.pre || h in p.post ensures Allowed(ops2, h) {
      var i :| 0 <= i < |ops1| && ops1[i].offset == h.offset && (h.external ==> !ops1[i].internalOnly);
      assert SameOperation(ops1[i], ops2[i]);
    }
  }

  /** Every payload is registered once, and acceptable. */
  ghost predicate ElemsOk(ops: seq<Operation>, elems: seq<PayloadElem>) {
    && (forall i, j :: 0 <= i < j < |elems| ==> elems[i].payload.id != elems[j].payload.id)
    && (forall i :: 0 <= i < |elems| ==> Accepted(ops, elems[i].payload))
  }

  lemma ElemsStillOk(ops1: seq<Operation>, elems1: seq<PayloadElem>, ops2: seq<Operation>, elems2: seq<PayloadElem>)
    requires ElemsOk(ops1, elems1) && SameOperations(ops1, ops2)
    requires |elems1| == |elems2| && forall i :: 0 <= i < |elems1| ==> elems2[i].payload == elems1[i].payload
    ensures ElemsOk(ops2, elems2)
  {
    hide Accepted;
    forall i | 0 <= i < |elems2| ensures Accepted(ops2, elems2[i].payload) {
      AcceptedSame(ops1, ops2, elems1[i].payload);
    }
  }

  lemma {:induction false} FixedAccepted(ops: seq<Operation>, elems: seq<PayloadElem>)
    requires ElemsOk(ops, elems)
    ensures forall p :: p in Fixed(elems) ==> Accepted(ops, p)
  {
    hide Accepted;
    if elems != [] {
      var n := |elems| - 1;
      assert forall i :: 0 <= i < n ==> elems[..n][i] == elems[i];
      FixedAccepted(ops, elems[..n]);
    }
  }

  datatype Status = Done | Interrupted | Busy | NoMemory | Invalid | Exists | NotFound | Crash

  datatype PayloadsState = PayloadsState(elems: seq<PayloadElem>, operations: seq<Operation>, isUsed: bool,
      used: seq<Payload>, replacements: Replacements)

  /** The references to kernel modules. */
  class Modules {
    var pins: multiset<nat>

    constructor ()
      ensures pins == multiset{}
    {
      pins := multiset{};
    }
  }

  class OperationPayloads {
    var elems: seq<PayloadElem>
    var operations: seq<Operation>
    var isUsed: bool
    var used: seq<Payload>
    var replacements: Replacements

    ghost predicate Valid()
      reads this
    {
      && AllOk(operations) && Distinct(operations)
      && ElemsOk(operations, elems)
      && used == Fixed(elems)
      && (!isUsed ==> Idle())
    }

    /** Nothing is intercepted and no module is held. */
    ghost predicate Idle()
      reads this
    {
      !isUsed && replacements == [] && used == [] && elems == Released(elems) && forall i :: 0 <= i < |operations| ==>
        Blank(operations[i])
    }

    /** Operations are given with distinct offsets. */
    constructor (intermediates: seq<Operation>)
      requires Distinct(intermediates)
      ensures Valid() && Idle() && elems == [] && SameOperations(intermediates, operations)
    {
      elems, isUsed, used, replacements := [], false, [], [];
      operations := seq(|intermediates|,
        i requires 0 <= i < |intermediates| => intermediates[i].(used := NO_USE, default := NO_USE));
    }

    method FindOperation(off: nat) returns (i: Option<nat>)
      ensures i.Some? ==> i.value < |operations| && operations[i.value].offset == off
      ensures i.None? ==> forall j :: 0 <= j < |operations| ==> operations[j].offset != off
    {
      for j := 0 to |operations|
        invariant forall l :: 0 <= l < j ==> operations[l].offset != off
      {
        if operations[j].offset == off {
          return Some(j);
        }
      }
      i := None;
    }

    /** Add a handler to an operation; there is memory for `memory` more array elements. */
    method AddHandler(i: nat, h: Handler, post: bool, memory: nat) returns (ok: bool, left: nat)
      requires i < |operations| && OperationOk(operations[i])
      modifies this`operations
      ensures (ok <==> memory >= Cost(h)) && (ok ==> left == memory - Cost(h))
      ensures ok ==> operations == old(operations)[i := Added(old(operations)[i], h, post)]
      ensures !ok ==> exists op ::
        OperationOk(op) && SameOperation(old(operations)[i], op) && operations == old(operations)[i := op]
    {
      hide WithHandler, UseOk;
      left := memory;
      var op := operations[i];
      if left == 0 {
        assert operations == operations[i := op];
        return false, left;
      }
      left := left - 1;
      op := op.(used := WithHandler(op.used, h.func, post));
      operations := operations[i := op];
      if h.external {
        if left == 0 {
          assert OperationOk(op) && SameOperation(old(operations)[i], op);
          return false, left;
        }
        left := left - 1;
        op := op.(default := WithHandler(op.default, h.func, post));
        operations := operations[i := op];
      }
      ok := true;
      assert op == Added(old(operations)[i], h, post);
    }

    /** Add all handlers of one kind of a payload. */
    method AddHandlers(p: Payload, post: bool, memory: nat, ghost base: seq<Operation>, ghost ps: seq<Payload>)
        returns (ok: bool, left: nat)
      requires AllGathered(base, operations, ps + [Upto(p, 0, post)])
      requires Known(operations, if post then p.post else p.pre)
      modifies this`operations
      ensures var cost := HandlersCost(if post then p.post else p.pre);
        (ok <==> memory >= cost) && (ok ==> left == memory - cost)
      ensures ok ==> AllGathered(base, operations, ps + [Upto(p, |if post then p.post else p.pre|, post)])
      ensures SameOperations(old(operations), operations) && AllOk(operations)
    {
      hide Gathered, Upto, Added, OperationOk, Cost;
      var hs := if post then p.post else p.pre;
      left := memory;
      AllGatheredOk(base, operations, ps + [Upto(p, 0, post)]);
      for k := 0 to |hs|
        invariant left + HandlersCost(hs[..k]) == memory
        invariant AllGathered(base, operations, ps + [Upto(p, k, post)])
        invariant SameOperations(old(operations), operations) && AllOk(operations)
      {
        assert hs[k] in hs;
        HandlersUpto(hs, k);
        var i := FindOperation(hs[k].offset);
        label L:
        ok, left := AddHandler(i.value, hs[k], post, left);
        if !ok {
          return;
        }
        AllGatherStep(base, old@L(operations), ps, p, k, post, i.value);
        AllGatheredOk(base, operations, ps + [Upto(p, k + 1, post)]);
      }
      assert hs[..|hs|] == hs;
      ok := true;
    }

    /** Use a fixed payload for interception; there is no rollback on an error. */
    method UseElem(p: Payload, memory: nat, ghost base: seq<Operation>, ghost ps: seq<Payload>)
        returns (ok: bool, left: nat)
      requires AllGathered(base, operations, ps) && Known(operations, p.pre) && Known(operations, p.post)
      modifies this`operations
      ensures var cost := HandlersCost(p.pre) + HandlersCost(p.post);
        (ok <==> memory >= cost) && (ok ==> left == memory - cost)
      ensures ok ==> AllGathered(base, operations, ps + [p])
      ensures SameOperations(old(operations), operations) && AllOk(operations)
    {
      hide Gathered, OperationOk;
      forall i | 0 <= i < |operations| ensures Gathered(base[i], operations[i], ps + [Upto(p, 0, false)]) {
        GatherStart(base[i], operations[i], ps, p);
      }
      ok, left := AddHandlers(p, false, memory, base, ps);
      if ok {
        assert Upto(p, |p.pre|, false) == Upto(p, 0, true);
        ok, left := AddHandlers(p, true, left, base, ps);
        assert Upto(p, |p.post|, true) == p;
      }
    }

    // ------------------------------------------------------------ fixing and releasing

    /** Fix a payload, unless its module is going away. */
    method FixElem(i: nat, ms: Modules, leaving: set<nat>)
      requires i < |elems| && !elems[i].fixed && used == Fixed(elems[..i])
      modifies this`elems, this`used, ms
      ensures elems == old(elems)[i := old(elems)[i].(fixed := IsReady(old(elems)[i].payload, leaving))]
      ensures used == Fixed(elems[..i + 1]) && ms.pins + PinsOf(old(used)) == old(ms.pins) + PinsOf(used)
    {
      var p := elems[i].payload;
      ghost var before := elems[..i];
      if p.mod.None? || p.mod.value !in leaving {
        if p.mod.Some? {
          ms.pins := ms.pins + multiset{p.mod.value};
        }
        PinsSnoc(used, p);
        used := used + [p];
        elems := elems[i := elems[i].(fixed := true)];
      }
      FixedSnoc(before, elems[i]);
      assert elems[..i + 1] == before + [elems[i]];
    }

    /** Payloads whose module is going away are left out; that is no error. */
    method FixAll(ms: Modules, leaving: set<nat>)
      requires used == [] && elems == Released(elems)
      modifies this`elems, this`used, ms
      ensures elems == Ready(old(elems), leaving) && used == Fixed(elems)
      ensures ms.pins == old(ms.pins) + PinsOf(used)
    {
      hide Fixed, PinsOf;
      NoPins();
      for i := 0 to |elems|
        invariant |elems| == |old(elems)| && used == Fixed(elems[..i]) && ms.pins == old(ms.pins) + PinsOf(used)
        invariant forall j :: 0 <= j < i ==> elems[j] == Ready(old(elems), leaving)[j]
        invariant forall j :: i <= j < |elems| ==> elems[j] == old(elems)[j]
      {
        label L:
        assert elems[i] == Released(old(elems))[i];
        FixElem(i, ms, leaving);
        Balance(ms.pins, PinsOf(old@L(used)), old(ms.pins), PinsOf(used));
      }
      assert elems[..|elems|] == elems;
    }

    /** Release a payload if it is fixed; it is the first of those that are in use. */
    method ReleaseElem(i: nat, ms: Modules)
      requires i < |elems| && used == Fixed(elems[i..]) && PinsOf(used) <= ms.pins
      modifies this`elems, this`used, ms
      ensures elems == old(elems)[i := old(elems)[i].(fixed := false)] && used == Fixed(elems[i + 1..])
      ensures PinsOf(used) <= ms.pins && old(ms.pins) - PinsOf(old(used)) == ms.pins - PinsOf(used)
    {
      hide Fixed, PinsOf;
      FixedFirst(elems[i..]);
      assert elems[i..][1..] == elems[i + 1..];
      if elems[i].fixed {
        var p := elems[i].payload;
        PinsFirst(used);
        if p.mod.Some? {
          ms.pins := ms.pins - multiset{p.mod.value};
        }
        used := used[1..];
        elems := elems[i := elems[i].(fixed := false)];
        assert elems[i + 1..] == old(elems)[i + 1..];
      }
    }

    /** Release what was fixed. */
    method ReleaseAll(ms: Modules)
      requires used == Fixed(elems) && PinsOf(used) <= ms.pins
      modifies this`elems, this`used, ms
      ensures elems == Released(old(elems)) && used == [] && ms.pins == old(ms.pins) - PinsOf(old(used))
    {
      hide Fixed, PinsOf;
      NoPins();
      assert elems[0..] == elems;
      for i := 0 to |elems|
        invariant |elems| == |old(elems)| && used == Fixed(elems[i..])
        invariant PinsOf(used) <= ms.pins && ms.pins - PinsOf(used) == old(ms.pins) - PinsOf(old(used))
        invariant forall j :: 0 <= j < i ==> elems[j] == Released(old(elems))[j]
        invariant forall j :: i <= j < |elems| ==> elems[j] == old(elems)[j]
      {
        ReleaseElem(i, ms);
      }
      assert elems[|elems|..] == [];
    }

    // ------------------------------------------------------------ using payloads

    /** Mark everything as intercepted. */
    method MarkAll()
      requires forall i :: 0 <= i < |operations| ==> Blank(operations[i])
      modifies this`operations
      ensures operations == Marked(old(operations), true)
    {
      for i := 0 to |operations|
        invariant |operations| == |old(operations)|
        invariant forall j :: 0 <= j < i ==> operations[j] == MarkedOne(old(operations)[j])
        invariant forall j :: i <= j < |operations| ==> operations[j] == old(operations)[j]
      {
        var op := operations[i];
        op := op.(used := op.used.(on := true));
        if !op.internalOnly {
          op := op.(default := op.default.(on := true));
        }
        operations := operations[i := op];
      }
    }

    method UnuseAll()
      requires AllOk(operations)
      modifies this`operations
      ensures SameOperations(old(operations), operations) && AllOk(operations)
      ensures forall i :: 0 <= i < |operations| ==> Blank(operations[i])
    {
      for i := 0 to |operations|
        invariant |operations| == |old(operations)|
        invariant forall j :: 0 <= j < i ==> Blank(operations[j]) && SameOperation(old(operations)[j], operations[j])
        invariant forall j :: i <= j < |operations| ==> operations[j] == old(operations)[j]
      {
        operations := operations[i := Cleared(operations[i])];
      }
    }

    /** Close the intercepted missing operations under groups, in one pass. */
    method CloseOperations()
      modifies this`operations
      ensures operations == Closed(old(operations))
    {
      hide InGroupOf;
      for k := 0 to |operations|
        invariant |operations| == |old(operations)|
        invariant forall j :: 0 <= j < |operations| ==> operations[j] == ClosedUpto(old(operations), k, j)
      {
        ghost var before := operations;
        if operations[k].group != 0 && operations[k].default.on {
          for j := 0 to |operations|
            invariant |operations| == |before| && forall l :: j <= l < |operations| ==> operations[l] == before[l]
            invariant forall l :: 0 <= l < j ==>
              operations[l] == if before[l].group == before[k].group
                then before[l].(default := before[l].default.(on := true)) else before[l]
          {
            if operations[j].group == operations[k].group {
              operations := operations[j := operations[j].(default := operations[j].default.(on := true))];
            }
          }
        }
        forall j | 0 <= j < |operations| ensures operations[j] == ClosedUpto(old(operations), k + 1, j) {
          ClosedStep(old(operations), k, j);
        }
      }
    }

    /** Make the array of replacements; nothing is allocated if there are none. */
    method CreateReplacements(memory: nat) returns (ok: bool)
      requires replacements == []
      modifies this`replacements
      ensures ok <==> memory > 0 || ReplacementsOf(operations) == []
      ensures ok ==> replacements == ReplacementsOf(operations)
      ensures !ok ==> replacements == []
    {
      hide ModeOf;
      var n := 0;
      for i := 0 to |operations|
        invariant n == |ReplacementsOf(operations[..i])|
      {
        assert operations[..i + 1][..i] == operations[..i];
        if operations[i].used.on || operations[i].default.on {
          n := n + 1;
        }
      }
      assert operations[..|operations|] == operations;
      if n == 0 {
        return true;
      }
      if memory == 0 {
        return false;
      }
      var rs: Replacements := [];
      for i := 0 to |operations|
        invariant rs == ReplacementsOf(operations[..i])
      {
        assert operations[..i + 1][..i] == operations[..i];
        var op := operations[i];
        if op.used.on || op.default.on {
          rs := rs + [Replacement(op.offset, op.repl, ModeOf(op))];
        }
      }
      replacements := rs;
      ok := true;
    }

    /** Take the handlers of all fixed payloads. */
    method UseElems(memory: nat, ghost base: seq<Operation>) returns (ok: bool, left: nat)
      requires AllGathered(base, operations, []) && forall p :: p in used ==> Accepted(operations, p)
      modifies this`operations
      ensures (ok <==> memory >= PayloadsCost(used)) && (ok ==> left == memory - PayloadsCost(used))
      ensures ok ==> AllGathered(base, operations, used)
      ensures SameOperations(old(operations), operations) && AllOk(operations)
    {
      hide Gathered, AllGathered, Accepted, Known, OperationOk, PayloadsCost;
      left := memory;
      NoCost();
      AllGatheredOk(base, operations, []);
      for k := 0 to |used|
        invariant left + PayloadsCost(used[..k]) == memory
        invariant AllGathered(base, operations, used[..k])
        invariant SameOperations(old(operations), operations) && AllOk(operations)
      {
        AcceptedSame(old(operations), operations, used[k]);
        PayloadsUpto(used, k);
        ok, left := UseElem(used[k], left, base, used[..k]);
        if !ok {
          return;
        }
        assert used[..k + 1] == used[..k] + [used[k]];
      }
      assert used[..|used|] == used;
      ok := true;
    }

    /**
      Use the payloads for interception. Afterwards flags, handlers and replacements are
      what the fixed payloads make of them; a failure, of whatever kind, leaves everything
      as it was. To intercept all works for one operation only.
    */
    method Use(all: bool, ms: Modules, leaving: set<nat>, locked: bool, memory: nat) returns (status: Status)
      requires Valid()
      modifies this, ms
      ensures status == Done ==>
        Valid() && InUse(all) && elems == Ready(old(elems), leaving) && SameOperations(old(operations), operations)
      ensures status == Done ==> !old(isUsed) && ms.pins == old(ms.pins) + PinsOf(used)
      ensures status == Done ==> forall i :: 0 <= i < |elems| ==>
        && elems[i].payload == old(elems)[i].payload
        && (elems[i].fixed <==> elems[i].payload.mod.None? || elems[i].payload.mod.value !in leaving)
      ensures status == Done ==> forall m :: ms.pins[m] == old(ms.pins)[m] + |Members(used, m)|
      ensures status != Done && status != Crash ==>
        State() == old(State()) && ms.pins == old(ms.pins)
      ensures status ==
        if !locked then Interrupted else if old(isUsed) then Busy
        else if memory < UseCost(old(operations), Fixed(Ready(old(elems), leaving)), all) then NoMemory
        else if all && |old(operations)| != 1 then Crash else Done
    {
      hide AllGathered, Intercepts, ReplacementsOf, Fixed, Accepted, ElemsOk, PinsOf, Blank, OperationOk;
      if !locked {
        return Interrupted;
      }
      if isUsed {
        return Busy;
      }
      FixAll(ms, leaving);
      ElemsStillOk(operations, old(elems), operations, elems);
      FixedAccepted(operations, elems);
      var ok := UseFixed(all, memory);
      if !ok {
        PinsBack(old(ms.pins), used);
        UnuseAll();
        ReleaseAll(ms);
        BlankSame(old(operations), operations);
        ReadyReleased(old(elems), leaving);
        return NoMemory;
      }
      forall m ensures PinsOf(used)[m] == |Members(used, m)| {
        PinsCount(used, m);
      }
      if all {
        AllReplaced(operations, used);
        if |replacements| != 1 {
          return Crash;
        }
      }
      isUsed := true;
      status := Done;
      ElemsStillOk(old(operations), old(elems), operations, elems);
    }

    ghost predicate InUse(all: bool)
      reads this
    {
      isUsed && Intercepts(operations, used, all) && replacements == ReplacementsOf(operations)
    }

    ghost function State(): PayloadsState
      reads this
    {
      PayloadsState(elems, operations, isUsed, used, replacements)
    }

    /** From the fixed payloads to the replacements. */
    method UseFixed(all: bool, memory: nat) returns (ok: bool)
      requires Distinct(operations) && AllOk(operations) && replacements == []
      requires forall i :: 0 <= i < |operations| ==> Blank(operations[i])
      requires forall p :: p in used ==> Accepted(operations, p)
      modifies this`operations, this`replacements
      ensures ok <==> memory >= UseCost(operations, used, all)
      ensures SameOperations(old(operations), operations) && AllOk(operations)
      ensures ok ==> Intercepts(operations, used, all) && replacements == ReplacementsOf(operations)
      ensures !ok ==> replacements == []
    {
      hide Gathered, AllGathered, ReplacementsOf, Accepted, Closed, Intercepts;
      MarkedGathered(operations, all);
      if all {
        MarkAll();
      }
      forall p | p in used ensures Accepted(operations, p) {
        AcceptedSame(old(operations), operations, p);
      }
      var left;
      ok, left := UseElems(memory, Marked(old(operations), all));
      if !ok {
        return;
      }
      ClosedIntercepts(old(operations), operations, used, all);
      CloseOperations();
      InterceptsOk(operations, used, all);
      forall p | p in used ensures Accepted(operations, p) {
        AcceptedSame(old(operations), operations, p);
      }
      ReplacesAny(operations, used, all);
      ok := CreateReplacements(left);
    }

    /** Stop using payloads: no operation is intercepted, and what had been fixed is released. */
    method Unuse(ms: Modules)
      requires Valid() && isUsed && PinsOf(used) <= ms.pins
      modifies this, ms
      ensures Valid() && Idle() && SameOperations(old(operations), operations)
      ensures elems == Released(old(elems)) && ms.pins == old(ms.pins) - PinsOf(old(used))
    {
      hide Fixed, ElemsOk, PinsOf, Blank, OperationOk;
      isUsed := false;
      replacements := [];
      UnuseAll();
      ReleaseAll(ms);
      NoneFixed(old(elems));
      ElemsStillOk(old(operations), old(elems), operations, elems);
    }

    // ------------------------------------------------------------ registering payloads

    /** Whether all handlers are for operations that can be intercepted like that. */
    method CheckHandlers(hs: seq<Handler>) returns (ok: bool)
      requires Distinct(operations)
      ensures ok <==> AllowedAll(operations, hs)
    {
      for k := 0 to |hs|
        invariant forall l :: 0 <= l < k ==> Allowed(operations, hs[l])
      {
        var i := FindOperation(hs[k].offset);
        if i.None? || (hs[k].external && operations[i.value].internalOnly) {
          assert !Allowed(operations, hs[k]);
          return false;
        }
      }
      ok := true;
    }

    method Add(p: Payload, locked: bool, memory: bool) returns (status: Status)
      requires Valid()
      modifies this`elems
      ensures Valid()
      ensures elems == if status == Done then old(elems) + [PayloadElem(p, false)] else old(elems)
      ensures status == if !Accepted(operations, p) then Invalid else if !memory then NoMemory else if !locked
        then Interrupted
                        else if Registered(old(elems), p.id) then Exists else Done
      ensures status == Invalid <==> exists h ::
        && (h in p.pre || h in p.post)
        && forall i :: 0 <= i < |operations| && operations[i].offset == h.offset ==>
          h.external && operations[i].internalOnly
    {
      hide AllowedAll, ElemsOk, Fixed;
      var pre := CheckHandlers(p.pre);
      var post := CheckHandlers(p.post);
      NotAccepted(operations, p);
      if !pre || !post {
        return Invalid;
      }
      if !memory {
        return NoMemory;
      }
      if !locked {
        return Interrupted;
      }
      for i := 0 to |elems|
        invariant forall j :: 0 <= j < i ==> elems[j].payload.id != p.id
      {
        if elems[i].payload.id == p.id {
          return Exists;
        }
      }
      FixedSnoc(elems, PayloadElem(p, false));
      AddedOk(operations, elems, p);
      elems := elems + [PayloadElem(p, false)];
      status := Done;
    }

    /** A payload that is in use cannot be removed; one that is not can, even while others are. */
    method Remove(id: nat, locked: bool) returns (status: Status)
      requires Valid()
      modifies this`elems
      ensures Valid()
      ensures status == Done ==> exists i :: RemovableAt(old(elems), i, id) && elems == Without(old(elems), i)
      ensures status != Done ==> elems == old(elems)
      ensures status ==
        if !locked then Interrupted else if !Registered(old(elems), id) then NotFound
        else if IsFixed(old(elems), id) then Busy else Done
    {
      if !locked {
        return Interrupted;
      }
      for i := 0 to |elems|
        invariant forall j :: 0 <= j < i ==> elems[j].payload.id != id
      {
        if elems[i].payload.id == id {
          if elems[i].fixed {
            return Busy;
          }
          assert RemovableAt(elems, i, id);
          FixedWithout(elems, i);
          RemovedOk(operations, elems, i);
          elems := Without(elems, i);
          return Done;
        }
      }
      status := NotFound;
    }

    /** The arrays of handlers of an operation, as the interceptor gets them. */
    method GetInterceptionInfo(off: nat, missing: bool) returns (pre: seq<Fn>, post: seq<Fn>)
      requires Valid() && isUsed && exists i :: 0 <= i < |operations| && operations[i].offset == off
      ensures (exists all :: Intercepts(operations, used, all)) ==>
        Lists(pre, PreHandlers(used), off, missing) && Lists(post, PostHandlers(used), off, missing)
      ensures forall all :: Intercepts(operations, used, all) ==>
        pre == NullTerminated(AllFuncsFor(used, off, missing, false)) &&
          post == NullTerminated(AllFuncsFor(used, off, missing, true))
    {
      var i := FindOperation(off);
      var op := operations[i.value];
      var u := if missing then op.default else op.used;
      pre, post := u.pre.elems, u.post.elems;
      ListsHandlers(used, off, missing);
      forall all | Intercepts(operations, used, all)
        ensures pre == NullTerminated(AllFuncsFor(used, off, missing, false))
        ensures post == NullTerminated(AllFuncsFor(used, off, missing, true))
      {
        assert HandlersAre(u, used, off, missing);
        TerminatedIs(u.pre);
        TerminatedIs(u.post);
      }
    }
  }

  /** The array for some functions: a null pointer (no array) or one that ends with a null pointer. */
  function NullTerminated(fs: seq<Fn>): seq<Fn> {
    if fs == [] then [] else fs + [NULL]
  }

  lemma TerminatedIs(a: Funcs)
    requires FuncsOk(a)
    ensures a.n <= |a.elems| && a.elems == NullTerminated(Content(a))
  {
  }

  lemma {:induction false} FixedWithout(elems: seq<PayloadElem>, i: nat)
    requires i < |elems| && !elems[i].fixed
    ensures Fixed(Without(elems, i)) == Fixed(elems)
  {
    var n := |elems| - 1;
    if i < n {
      FixedWithout(elems[..n], i);
      assert Without(elems, i)[..n - 1] == Without(elems[..n], i);
    } else {
      assert Without(elems, i) == elems[..n];
    }
  }

  predicate Registered(elems: seq<PayloadElem>, id: nat) {
    exists i :: 0 <= i < |elems| && elems[i].payload.id == id
  }

  predicate RemovableAt(elems: seq<PayloadElem>, i: nat, id: nat) {
    i < |elems| && elems[i].payload.id == id && !elems[i].fixed
  }

  predicate IsFixed(elems: seq<PayloadElem>, id: nat) {
    exists i :: 0 <= i < |elems| && elems[i].payload.id == id && elems[i].fixed
  }

  lemma NotAccepted(ops: seq<Operation>, p: Payload)
    ensures Accepted(ops, p) <==> !exists h ::
      && (h in p.pre || h in p.post)
      && forall i :: 0 <= i < |ops| && ops[i].offset == h.offset ==> h.external && ops[i].internalOnly
  {
    forall h ensures Allowed(ops, h) <==>
      !forall i :: 0 <= i < |ops| && ops[i].offset == h.offset ==> h.external && ops[i].internalOnly
    {
    }
  }

  lemma AddedOk(ops: seq<Operation>, elems: seq<PayloadElem>, p: Payload)
    requires ElemsOk(ops, elems) && Accepted(ops, p) && !Registered(elems, p.id)
    ensures var more := elems + [PayloadElem(p, false)];
      ElemsOk(ops, more) && (elems == Released(elems) ==> more == Released(more))
  {
    hide Accepted;
    var more := elems + [PayloadElem(p, false)];
    if elems == Released(elems) {
      forall j | 0 <= j < |more| ensures more[j] == Released(more)[j] {
        if j < |elems| {
          assert elems[j] == Released(elems)[j];
        }
      }
    }
  }

  lemma RemovedOk(ops: seq<Operation>, elems: seq<PayloadElem>, i: nat)
    requires ElemsOk(ops, elems) && i < |elems|
    ensures ElemsOk(ops, Without(elems, i))
    ensures elems == Released(elems) ==> Without(elems, i) == Released(Without(elems, i))
  {
    hide Accepted;
    var rest := Without(elems, i);
    assert forall j :: 0 <= j < |rest| ==> rest[j] == if j < i then elems[j] else elems[j + 1];
    if elems == Released(elems) {
      forall j | 0 <= j < |rest| ensures rest[j] == Released(rest)[j] {
        var l := if j < i then j else j + 1;
        assert elems[l] == Released(elems)[l];
      }
    }
  }

  lemma AllReplaced(ops: seq<Operation>, ps: seq<Payload>)
    requires Intercepts(ops, ps, true)
    ensures |ReplacementsOf(ops)| == |ops|
  {
    hide Wanted, MissingTaken, HandlersAre;
    AllOnReplaced(ops);
  }

  lemma {:induction false} AllOnReplaced(ops: seq<Operation>)
    requires forall i :: 0 <= i < |ops| ==> ops[i].used.on
    ensures |ReplacementsOf(ops)| == |ops|
  {
    if ops != [] {
      AllOnReplaced(ops[..|ops| - 1]);
    }
  }

  lemma InterceptsOk(ops: seq<Operation>, ps: seq<Payload>, all: bool)
    requires Intercepts(ops, ps, all)
    ensures AllOk(ops)
  {
  }

  lemma MarkedGathered(base: seq<Operation>, all: bool)
    requires Distinct(base) && AllOk(base) && forall i :: 0 <= i < |base| ==> Blank(base[i])
    ensures AllGathered(Marked(base, all), Marked(base, all), []) && SameOperations(base, Marked(base, all))
  {
    var ops := Marked(base, all);
    forall i | 0 <= i < |ops| ensures Gathered(ops[i], ops[i], []) && SameOperation(base[i], ops[i]) {
      assert Blank(base[i]);
    }
  }

  /** Operations without any interception do not differ. */
  lemma BlankSame(a: seq<Operation>, b: seq<Operation>)
    requires SameOperations(a, b) && (forall i :: 0 <= i < |a| ==> Blank(a[i]))
    requires forall i :: 0 <= i < |b| ==> Blank(b[i])
    ensures a == b
  {
    forall i | 0 <= i < |a| ensures a[i] == b[i] {
      assert SameOperation(a[i], b[i]) && Blank(a[i]) && Blank(b[i]);
    }
  }

  lemma PinsBack(before: multiset<nat>, ps: seq<Payload>)
    ensures PinsOf(ps) <= before + PinsOf(ps) && before + PinsOf(ps) - PinsOf(ps) == before
  {
  }

  lemma ReadyReleased(elems: seq<PayloadElem>, leaving: set<nat>)
    requires elems == Released(elems)
    ensures Released(Ready(elems, leaving)) == elems
  {
    forall i | 0 <= i < |elems| ensures Released(Ready(elems, leaving))[i] == elems[i] {
      assert elems[i] == Released(elems)[i];
    }
  }

  /** A flag after the groups of the first operations have been closed. */
  function ClosedUpto(ops: seq<Operation>, k: nat, j: nat): Operation
    requires k <= |ops| && j < |ops|
  {
    ops[j].(default := ops[j].default.(on := ops[j].default.on || exists i ::
      0 <= i < k && InGroupOf(ops, j, i) && ops[i].default.on))
  }

  lemma ClosedStep(ops: seq<Operation>, k: nat, j: nat)
    requires k < |ops| && j < |ops|
    ensures ClosedUpto(ops, k + 1, j) ==
      if ClosedUpto(ops, k, k).default.on && InGroupOf(ops, j, k) then ops[j].(default := ops[j].default.(on := true))
        else ClosedUpto(ops, k, j)
    ensures InGroupOf(ops, j, k) <==> ops[k].group != 0 && ops[j].group == ops[k].group
    ensures ClosedUpto(ops, |ops|, j) == Closed(ops)[j]
  {
    if ClosedUpto(ops, k, k).default.on && InGroupOf(ops, j, k) && !ops[k].default.on {
      var i :| 0 <= i < k && InGroupOf(ops, k, i) && ops[i].default.on;
      assert InGroupOf(ops, j, i);
    }
  }

  lemma NoCost()
    ensures PayloadsCost([]) == 0
  {
  }

  lemma NoPins()
    ensures PinsOf([]) == multiset{} && Fixed([]) == []
  {
  }

  lemma Balance(m: multiset<nat>, a: multiset<nat>, m0: multiset<nat>, b: multiset<nat>)
    requires m + a == m0 + a + b
    ensures m == m0 + b
  {
    assert forall x :: (m + a)[x] == m[x] + a[x] && (m0 + a + b)[x] == m0[x] + a[x] + b[x];
  }

  lemma {:induction false} FixedFirst(elems: seq<PayloadElem>)
    requires elems != []
    ensures Fixed(elems) == (if elems[0].fixed then [elems[0].payload] else []) + Fixed(elems[1..])
  {
    hide Fixed;
    var n := |elems| - 1;
    var last := elems[n];
    assert elems == elems[..n] + [last];
    FixedSnoc(elems[..n], last);
    NoPins();
    if n > 0 {
      FixedFirst(elems[..n]);
      assert elems[1..] == elems[..n][1..] + [last];
      FixedSnoc(elems[..n][1..], last);
    } else {
      assert elems[..n] == [] && elems[1..] == [];
    }
  }

  lemma {:induction false} PinsFirst(ps: seq<Payload>)
    requires ps != []
    ensures PinsOf(ps) == (if ps[0].mod.Some? then multiset{ps[0].mod.value} else multiset{}) + PinsOf(ps[1..])
  {
    var n := |ps| - 1;
    if n > 0 {
      PinsFirst(ps[..n]);
      assert ps[..n][1..] == ps[1..][..n - 1];
    } else {
      assert ps[..n] == [];
    }
  }

  lemma AllGatheredOk(base: seq<Operation>, ops: seq<Operation>, ps: seq<Payload>)
    requires AllGathered(base, ops, ps)
    ensures AllOk(ops) && SameOperations(base, ops) && SameOperations(ops, ops)
  {
    hide OperationOk;
    forall i | 0 <= i < |ops| ensures OperationOk(ops[i]) && SameOperation(base[i], ops[i]) {
      GatheredOk(base[i], ops[i], ps);
    }
  }

  const GONE := Payload(1, Some(3), [], [])
  const STAYS := Payload(2, None, [Handler(0, 50, false)], [])

  lemma TwoPayloads(ops: seq<Operation>)
    requires |ops| == 1 && ops[0].offset == 0
    ensures Accepted(ops, GONE) && Accepted(ops, STAYS)
    ensures var elems := Ready([PayloadElem(GONE, false), PayloadElem(STAYS, false)], {3});
      && elems == [PayloadElem(GONE, false), PayloadElem(STAYS, true)]
      && Fixed(elems) == [STAYS] && Registered(elems, 1) && !IsFixed(elems, 1)
    ensures UseCost(ops, [STAYS], false) == 2
  {
    var gone, stays := PayloadElem(GONE, false), PayloadElem(STAYS, true);
    assert ops[0].offset == 0 && Allowed(ops, STAYS.pre[0]);
    FixedSnoc([gone], stays);
    FixedSnoc([], gone);
    assert [] + [gone] == [gone] && [gone] + [stays] == [gone, stays];
    assert Fixed([]) == [];
    assert [gone, stays][0].payload.id == 1;
    var hs := STAYS.pre;
    assert hs[..0] == [] && HandlersCost(hs) == 1;
    assert [STAYS][..0] == [] && PayloadsCost([STAYS]) == 1;
  }

  /** A payload whose module went away is removed while another one is used for interception. */
  method RemoveWhileUsed(memory: nat) returns (status: Status, used: seq<Payload>)
    ensures memory >= 2 ==> status == Done && used == [STAYS]
  {
    hide Accepted, Intercepts, Registered, IsFixed, UseCost, Ready, Fixed, ReplacementsOf, Released;
    var ms := new Modules();
    var all := new OperationPayloads([Operation(0, 98, 0, false, NO_USE, NO_USE)]);
    TwoPayloads(all.operations);
    NotRegistered();
    var added := all.Add(GONE, true, true);
    assert all.elems == [PayloadElem(GONE, false)];
    added := all.Add(STAYS, true, true);
    assert all.elems == [PayloadElem(GONE, false), PayloadElem(STAYS, false)];
    status := all.Use(false, ms, {3}, true, memory);
    if status == Done {
      status := all.Remove(1, true);
    }
    used := all.used;
  }

  lemma NotRegistered()
    ensures !Registered([], GONE.id) && !Registered([PayloadElem(GONE, false)], STAYS.id)
  {
  }
}
