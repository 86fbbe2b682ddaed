/**
  Evaluation of a template group (mist_base.c): every template is evaluated at most once,
  and while it is being evaluated it has no values.
*/
module MistEval {
  import opened Options
  import opened MistValues
  import opened MistTemplates
  import opened MistMeaning
  import opened MistWalk
  import opened MistLazy

  // ---------------------------------------------------------------- references

  /** Each of these templates refers to the next one. */
  ghost predicate Chain(tpls: map<string, Template>, path: seq<string>) {
    && (forall n :: n in path ==> n in tpls)
    && (forall i :: 0 < i < |path| ==> path[i] in Names(tpls[path[i - 1]]))
  }

  ghost predicate Cycle(tpls: map<string, Template>, path: seq<string>) {
    path != [] && Chain(tpls, path) && path[0] in Names(tpls[path[|path| - 1]])
  }

  /** A way from `root` to a template with a condition that lies on the way. */
  ghost predicate Blocked(tpls: map<string, Template>, root: string, path: seq<string>) {
    && path != [] && path[0] == root && Chain(tpls, path)
    && exists k :: k in path && k in CondNames(tpls[path[|path| - 1]])
  }

  /** A way that is gone whatever branches are taken. */
  ghost predicate MustChain(tpls: map<string, Template>, path: seq<string>) {
    && path != [] && (forall n :: n in path ==> n in tpls)
    && (forall i :: 0 < i < |path| ==> path[i] in MustNames(tpls[path[i - 1]]))
  }

  /** A way from `root` to `n` without `k`. */
  ghost predicate Avoids(tpls: map<string, Template>, root: string, n: string, k: string, path: seq<string>) {
    path != [] && Chain(tpls, path) && path[0] == root && path[|path| - 1] == n && k !in path
  }

  ghost predicate Acyclic(tpls: map<string, Template>) {
    forall path :: !Cycle(tpls, path)
  }

  // ---------------------------------------------------------------- the state of an evaluation

  /** A group, the values its attributes were given, and the template that is evaluated. */
  datatype Graph = Graph(tpls: map<string, Template>, given: Env, root: string)

  /** Values, the `evaluated` flags, and for each evaluated template what led to it. */
  datatype Memo = Memo(vals: Env, evaluated: set<string>, ctx: map<string, seq<string>>)

  function AttrVals(given: Env, n: string): (vs: seq<string>)
    ensures vs != []
  {
    if Look(given, n) == [] then [""] else given[n]
  }

  /** The values of a template fit those of the others, but for those it was evaluated for. */
  ghost predicate Solved(g: Graph, m: Memo, done: set<string>, n: string) {
    && n in g.tpls && n in m.vals && n in m.ctx
    && Chain(g.tpls, m.ctx[n]) && m.ctx[n] != [] && m.ctx[n][0] == g.root && m.ctx[n][|m.ctx[n]| - 1] == n
    && (forall k :: k in m.ctx[n] ==> k in m.evaluated)
    && (if IsAttr(g.tpls[n]) then m.vals[n] == AttrVals(g.given, n)
        else WfTemplate(g.tpls[n]) && SolvedFor(g.tpls[n], m.vals[n], Seen(m.vals, m.ctx[n]), done, m.ctx[n]))
  }

  ghost predicate SolvedFor(t: Template, vals: seq<string>, env: Env, done: set<string>, path: seq<string>)
    requires WfTemplate(t)
  {
    && vals == TplVals(t, env) && Decided(t, env)
    && forall n :: n in Uses(t, env) ==> n in done || n in path
  }

  ghost predicate MemoOk(g: Graph, m: Memo, path: seq<string>) {
    && WfGroup(g.tpls) && m.vals.Keys == g.tpls.Keys && m.evaluated <= g.tpls.Keys
    && Chain(g.tpls, path) && (path != [] ==> path[0] == g.root)
    && (forall n :: n in path ==> n in m.evaluated && m.vals[n] == [])
    && (forall n :: n in g.tpls && n !in m.evaluated && IsAttr(g.tpls[n]) ==> m.vals[n] == Look(g.given, n))
    && AllSolved(g, m, Done(m, path))
  }

  ghost predicate AllSolved(g: Graph, m: Memo, done: set<string>) {
    forall n :: n in done ==> Solved(g, m, done, n)
  }

  function Done(m: Memo, path: seq<string>): set<string> {
    set n | n in m.evaluated && n !in path
  }

  /** More has been evaluated; what had been evaluated is as it was. */
  ghost predicate Grows(m1: Memo, m2: Memo) {
    && m1.vals.Keys == m2.vals.Keys && m1.evaluated <= m2.evaluated && m1.evaluated <= m1.vals.Keys
    && (forall n :: n in m1.evaluated ==> m2.vals[n] == m1.vals[n])
  }

  lemma SolvedFrame(g: Graph, m1: Memo, m2: Memo, done1: set<string>, done2: set<string>, n: string)
    requires Solved(g, m1, done1, n) && n in done1 && done1 <= done2 && done1 <= m1.vals.Keys
    requires m1.vals.Keys == m2.vals.Keys
    requires forall k :: k in done1 ==> m2.vals[k] == m1.vals[k]
    requires n in m2.ctx && m2.ctx[n] == m1.ctx[n] && m1.evaluated <= m2.evaluated
    ensures Solved(g, m2, done2, n)
  {
    hide TplVals, Decided, Uses, WfTemplate;
    if !IsAttr(g.tpls[n]) {
      var e1, e2 := Seen(m1.vals, m1.ctx[n]), Seen(m2.vals, m1.ctx[n]);
      forall k | k in Uses(g.tpls[n], e1) ensures Look(e1, k) == Look(e2, k) {
      }
      AgreeTpl(g.tpls[n], e1, e2);
    }
  }

  /** Nothing changes for what is solved if something else changes. */
  lemma AllSolvedFrame(g: Graph, m1: Memo, m2: Memo, done: set<string>)
    requires AllSolved(g, m1, done) && done <= m1.vals.Keys && m1.vals.Keys == m2.vals.Keys
    requires m1.evaluated <= m2.evaluated
    requires forall k :: k in done ==> m2.vals[k] == m1.vals[k]
    requires forall k :: k in done && k in m1.ctx ==> k in m2.ctx && m2.ctx[k] == m1.ctx[k]
    ensures AllSolved(g, m2, done)
  {
    forall n | n in done ensures Solved(g, m2, done, n) {
      assert Solved(g, m1, done, n);
      SolvedFrame(g, m1, m2, done, done, n);
    }
  }

  /** One more that is solved. */
  lemma AllSolvedMore(g: Graph, m1: Memo, m2: Memo, done: set<string>, n: string)
    requires AllSolved(g, m1, done) && done <= m1.vals.Keys && m1.vals.Keys == m2.vals.Keys
    requires m1.evaluated <= m2.evaluated
    requires forall k :: k in done ==> m2.vals[k] == m1.vals[k]
    requires forall k :: k in done && k in m1.ctx ==> k in m2.ctx && m2.ctx[k] == m1.ctx[k]
    requires n !in done && Solved(g, m2, done + {n}, n)
    ensures AllSolved(g, m2, done + {n})
  {
    forall k | k in done ensures Solved(g, m2, done + {n}, k) {
      assert Solved(g, m1, done, k);
      SolvedFrame(g, m1, m2, done, done + {n}, k);
    }
  }

  /** What was seen stays as it was seen. */
  lemma SeenGrows(t: Template, m1: Memo, m2: Memo, path: seq<string>)
    requires WfTemplate(t) && Grows(m1, m2) && forall n :: n in Uses(t, Seen(m1.vals, path)) ==> n in m1.evaluated
    ensures TplVals(t, Seen(m1.vals, path)) == TplVals(t, Seen(m2.vals, path))
    ensures Uses(t, Seen(m1.vals, path)) == Uses(t, Seen(m2.vals, path))
    ensures Decided(t, Seen(m1.vals, path)) <==> Decided(t, Seen(m2.vals, path))
  {
    hide TplVals, Decided, Uses, WfTemplate;
    AgreeTpl(t, Seen(m1.vals, path), Seen(m2.vals, path));
  }

  lemma PhSeenGrows(p: Placeholder, m1: Memo, m2: Memo, path: seq<string>)
    requires WfPlaceholder(p) && Grows(m1, m2) && forall n :: n in PhUses(p, Seen(m1.vals, path)) ==> n in m1.evaluated
    ensures PhVals(p, Seen(m1.vals, path)) == PhVals(p, Seen(m2.vals, path))
    ensures PhUses(p, Seen(m1.vals, path)) == PhUses(p, Seen(m2.vals, path))
    ensures PhDecided(p, Seen(m1.vals, path)) <==> PhDecided(p, Seen(m2.vals, path))
  {
    hide PhVals, PhDecided, PhUses, WfPlaceholder;
    AgreePh(p, Seen(m1.vals, path), Seen(m2.vals, path));
  }

  // ---------------------------------------------------------------- the evaluator

  /** An `if` without a value is on a template that is being evaluated. */
  lemma FaultIsBlocked(g: Graph, m: Memo, path: seq<string>, n: string)
    requires MemoOk(g, m, path) && path != [] && n in CondNames(g.tpls[path[|path| - 1]])
    requires n in m.evaluated && Look(Seen(m.vals, path), n) == []
    ensures Blocked(g.tpls, g.root, path)
  {
    hide WfGroup;
    assert n !in path ==> Solved(g, m, Done(m, path), n);
  }

  function StateOf(m: Memo): (s: State)
    ensures s.ok
  {
    State(true, m.vals, m.evaluated)
  }

  /** What is being evaluated has no values anyway. */
  lemma SeenIsNow(g: Graph, m: Memo, path: seq<string>)
    requires MemoOk(g, m, path)
    ensures Seen(m.vals, path) == m.vals && Ready(g.tpls, StateOf(m))
  {
    hide AllSolved, Chain, WfGroup;
  }

  lemma KnownNames(g: Graph, m: Memo, path: seq<string>)
    requires MemoOk(g, m, path) && path != []
    ensures path[|path| - 1] in g.tpls && Names(g.tpls[path[|path| - 1]]) <= g.tpls.Keys
  {
    hide AllSolved;
    assert path[|path| - 1] in path;
    assert Names(Template([], [])) == {};
  }

  lemma RunsAgain(g: Graph, m: Memo, path: seq<string>, n: string)
    requires MemoOk(g, m, path) && n in m.evaluated && n in g.tpls
    ensures Ready(g.tpls, StateOf(m)) && Run(g.tpls, StateOf(m), n) == StateOf(m)
  {
    hide MemoOk, Run;
    SeenIsNow(g, m, path);
    RunAgain(g.tpls, StateOf(m), n);
  }

  lemma AttrRuns(g: Graph, m: Memo, path: seq<string>, n: string)
    requires MemoOk(g, m, path) && n in g.tpls && n !in m.evaluated && IsAttr(g.tpls[n])
    requires n in m.vals && AttrVals(g.given, n) == if m.vals[n] == [] then [""] else m.vals[n]
    ensures Ready(g.tpls, StateOf(m))
    ensures Run(g.tpls, StateOf(m), n) == StateOf(Left(Entered(m, n), path, n, AttrVals(g.given, n)))
  {
    hide MemoOk, WfGroup, Run, AttrVals, IsAttr;
    SeenIsNow(g, m, path);
    RunAttr(g.tpls, StateOf(m), n);
    assert m.vals[n := []][n := AttrVals(g.given, n)] == m.vals[n := AttrVals(g.given, n)];
  }

  lemma OwnFails(g: Graph, m: Memo, path: seq<string>, n: string)
    requires MemoOk(g, m, path) && n in g.tpls && n !in m.evaluated && !IsAttr(g.tpls[n])
    ensures Ready(g.tpls, StateOf(m)) && Ready(g.tpls, StateOf(Entered(m, n)))
    ensures WfTemplate(g.tpls[n]) && Names(g.tpls[n]) <= g.tpls.Keys
    ensures !RunWhole(g.tpls, StateOf(Entered(m, n)), g.tpls[n]).ok ==> !Run(g.tpls, StateOf(m), n).ok
  {
    hide MemoOk, WfGroup, WfTemplate, Names, Run, RunWhole, TplVals, IsAttr;
    SeenIsNow(g, m, path);
    RunOwn(g.tpls, StateOf(m), n);
  }

  /** A template of its own gets its values from what is there then. */
  lemma OwnRuns(g: Graph, m: Memo, path: seq<string>, n: string, m2: Memo, r: seq<string>)
    requires Ready(g.tpls, StateOf(m)) && n in g.tpls && n !in m.evaluated && !IsAttr(g.tpls[n])
    requires WfTemplate(g.tpls[n])
    requires MemoOk(g, m2, path + [n]) && TplDone(g.tpls[n], r, Seen(m2.vals, path + [n]), m2.evaluated)
    requires Ready(g.tpls, StateOf(Entered(m, n))) && Names(g.tpls[n]) <= g.tpls.Keys
    requires RunWhole(g.tpls, StateOf(Entered(m, n)), g.tpls[n]) == StateOf(m2)
    ensures Run(g.tpls, StateOf(m), n) == StateOf(Left(m2, path, n, r))
  {
    hide MemoOk, WfGroup, WfTemplate, Names, Run, RunWhole, TplVals, Decided, Uses, Seen, IsAttr;
    SeenIsNow(g, m2, path + [n]);
    RunOwn(g.tpls, StateOf(m), n);
  }

  /** Starting on a template: it loses its values and is marked. */
  function Entered(m: Memo, n: string): Memo {
    m.(vals := m.vals[n := []], evaluated := m.evaluated + {n})
  }

  /** Done with a template: it gets its values. */
  function Left(m: Memo, path: seq<string>, n: string, r: seq<string>): Memo {
    m.(vals := m.vals[n := r], ctx := m.ctx[n := path + [n]])
  }

  lemma Enter(g: Graph, m: Memo, path: seq<string>, n: string)
    requires MemoOk(g, m, path) && n in g.tpls && n !in m.evaluated && !IsAttr(g.tpls[n])
    requires Chain(g.tpls, path + [n]) && (path == [] ==> n == g.root)
    ensures MemoOk(g, Entered(m, n), path + [n]) && WfTemplate(g.tpls[n])
    ensures |g.tpls.Keys - Entered(m, n).evaluated| < |g.tpls.Keys - m.evaluated|
  {
    hide WfGroup, Chain, WfTemplate, AllSolved;
    var m2 := Entered(m, n);
    assert Done(m2, path + [n]) == Done(m, path);
    AllSolvedFrame(g, m, m2, Done(m, path));
    assert m2.vals.Keys == m.vals.Keys;
    assert g.tpls.Keys - m.evaluated == (g.tpls.Keys - m2.evaluated) + {n};
    WfMember(g.tpls, n);
  }

  lemma WfMember(tpls: map<string, Template>, n: string)
    requires WfGroup(tpls) && n in tpls
    ensures IsAttr(tpls[n]) <==> tpls[n].chunks == []
    ensures !IsAttr(tpls[n]) ==> WfTemplate(tpls[n])
  {
  }

  lemma Leave(g: Graph, m: Memo, path: seq<string>, n: string, r: seq<string>)
    requires MemoOk(g, m, path + [n]) && n in g.tpls && n !in path && !IsAttr(g.tpls[n])
    requires TplDone(g.tpls[n], r, Seen(m.vals, path + [n]), m.evaluated)
    ensures MemoOk(g, Left(m, path, n, r), path)
  {
    hide WfGroup, TplVals, Uses, Decided, WfTemplate, AllSolved;
    var m2 := Left(m, path, n, r);
    var p := path + [n];
    assert n in p && n in m.evaluated;
    assert Done(m2, path) == Done(m, p) + {n};
    assert Seen(m2.vals, p) == Seen(m.vals, p);
    assert Solved(g, m2, Done(m2, path), n);
    AllSolvedMore(g, m, m2, Done(m, p), n);
    ChainLast(g.tpls, path, n);
    assert path != [] ==> path[0] == p[0];
    assert forall k :: k in path ==> k in p;
  }

  lemma EnterLeave(m: Memo, path: seq<string>, n: string, m2: Memo, r: seq<string>)
    requires n !in m.evaluated && n in m.vals && m.evaluated <= m.vals.Keys && Grows(Entered(m, n), m2)
    ensures Grows(m, Left(m2, path, n, r)) && n in m2.evaluated && Left(m2, path, n, r).evaluated == m2.evaluated
  {
  }

  /** An attribute has the values it was given, or one empty one. */
  lemma TakeAttr(g: Graph, m: Memo, path: seq<string>, n: string)
    requires MemoOk(g, m, path) && n in g.tpls && n !in m.evaluated && IsAttr(g.tpls[n])
    requires Chain(g.tpls, path + [n]) && (path == [] ==> n == g.root)
    ensures n in m.vals && AttrVals(g.given, n) == if m.vals[n] == [] then [""] else m.vals[n]
    ensures var m2 := Left(Entered(m, n), path, n, AttrVals(g.given, n));
      MemoOk(g, m2, path) && Grows(m, m2)
  {
    hide WfGroup, Chain, TplVals, Uses, Decided, WfTemplate, SolvedFor, AllSolved;
    var m2 := Left(Entered(m, n), path, n, AttrVals(g.given, n));
    assert Done(m2, path) == Done(m, path) + {n};
    AllSolvedMore(g, m, m2, Done(m, path), n);
    assert m2.vals.Keys == m.vals.Keys;
  }

  lemma GroupOk(g: Graph, m: Memo, path: seq<string>, n: string)
    requires MemoOk(g, m, path) && n in g.tpls
    ensures IsAttr(g.tpls[n]) <==> g.tpls[n].chunks == []
    ensures !IsAttr(g.tpls[n]) ==> WfTemplate(g.tpls[n])
  {
    WfMember(g.tpls, n);
  }

  lemma LogSnoc(log: seq<string>, evaluated: set<string>, n: string)
    requires LogOk(log, evaluated) && n !in evaluated
    ensures LogOk(log + [n], evaluated + {n})
  {
  }

  lemma NotOnPath(g: Graph, m: Memo, path: seq<string>, n: string)
    requires MemoOk(g, m, path) && n in g.tpls && n !in m.evaluated
    ensures n !in path && n in m.vals && m.evaluated <= m.vals.Keys
  {
  }

  lemma ChainLast(tpls: map<string, Template>, path: seq<string>, n: string)
    requires Chain(tpls, path + [n])
    ensures n in tpls && Chain(tpls, path)
  {
    assert n in path + [n];
    assert forall k :: k in path ==> k in path + [n];
    assert forall i :: 0 <= i < |path| ==> (path + [n])[i] == path[i];
  }

  lemma ChainNext(tpls: map<string, Template>, path: seq<string>, n: string)
    requires WfGroup(tpls) && Chain(tpls, path) && path != [] && n in Names(tpls[path[|path| - 1]])
    ensures Chain(tpls, path + [n])
  {
    assert path[|path| - 1] in path;
    assert Names(Template([], [])) == {};
  }

  lemma GrowsTwice(m1: Memo, m2: Memo, m3: Memo)
    requires Grows(m1, m2) && Grows(m2, m3)
    ensures Grows(m1, m3)
  {
  }

  /** Whoever has more evaluated has less to do. */
  lemma FewerLeft(g: Graph, m1: Memo, path: seq<string>, m2: Memo)
    requires MemoOk(g, m1, path) && Grows(m1, m2)
    ensures |g.tpls.Keys - m2.evaluated| <= |g.tpls.Keys - m1.evaluated|
  {
    Smaller(g.tpls.Keys - m2.evaluated, g.tpls.Keys - m1.evaluated);
  }

  /** A placeholder of a template that is being evaluated can be followed. */
  lemma NameOf(g: Graph, m: Memo, path: seq<string>, p: Placeholder)
    requires MemoOk(g, m, path) && path != [] && PhNames(p) <= Names(g.tpls[path[|path| - 1]])
    ensures Chain(g.tpls, path + [p.name])
  {
    assert p.name in PhNames(p);
    ChainNext(g.tpls, path, p.name);
  }

  lemma Known(g: Graph, m: Memo, path: seq<string>, n: string)
    requires MemoOk(g, m, path) && n in m.evaluated
    ensures n in m.vals && Look(Seen(m.vals, path), n) == m.vals[n]
  {
  }

  lemma StillKnown(m1: Memo, m2: Memo, path: seq<string>, n: string)
    requires Grows(m1, m2) && n in m1.evaluated
    ensures n in m2.evaluated && Look(Seen(m2.vals, path), n) == Look(Seen(m1.vals, path), n)
  {
  }

  lemma PlainDone(p: Placeholder, env: Env, evaluated: set<string>)
    requires !p.Cond? && p.name in evaluated
    ensures PhDone(p, PhValues(Look(env, p.name), if p.Join? then Some(p.sep) else None), env, evaluated)
  {
  }

  lemma GrowsSelf(g: Graph, m: Memo, path: seq<string>)
    requires MemoOk(g, m, path)
    ensures Grows(m, m)
  {
  }

  lemma {:induction false} Smaller<T>(a: set<T>, b: set<T>)
    requires a <= b
    ensures |a| <= |b|
  {
    assert b == a + (b - a);
  }

  ghost predicate LogOk(log: seq<string>, evaluated: set<string>) {
    && (forall n :: n in log <==> n in evaluated)
    && (forall i, j :: 0 <= i < j < |log| ==> log[i] != log[j])
  }

  /** An evaluation goes, and ends, as the function says. */
  ghost predicate Follows(ok: bool, now: State, r: State) {
    ok == r.ok && (ok ==> now == r)
  }

  /** How many values a conditional has, given those of the branches that are chosen. */
  function NumChosen(n: nat, th: Option<seq<string>>, el: Option<seq<string>>): nat {
    Most(n, Most(if th.Some? then |th.value| else 0, if el.Some? then |el.value| else 0))
  }

  lemma NoneChosen(n: nat)
    ensures NumChosen(n, None, None) == n
  {
  }

  lemma OneMoreChosen(n: nat, th: Option<seq<string>>, el: Option<seq<string>>, r: seq<string>)
    ensures th.None? ==> NumChosen(n, Some(r), el) == Most(NumChosen(n, th, el), |r|)
    ensures el.None? ==> NumChosen(n, th, Some(r)) == Most(NumChosen(n, th, el), |r|)
  {
  }

  lemma NoneIsLess(n: nat, th: Option<seq<string>>, el: Option<seq<string>>)
    ensures th.Some? ==> |th.value| <= NumChosen(n, th, el)
    ensures el.Some? ==> |el.value| <= NumChosen(n, th, el)
  {
  }

  class Group {
    const tpls: map<string, Template>
    var vals: Env
    var evaluated: set<string>
    ghost var ctx: map<string, seq<string>>
    /** The templates in the order in which their evaluation began. */
    ghost var log: seq<string>

    ghost function M(): Memo
      reads this
    {
      Memo(vals, evaluated, ctx)
    }

    ghost function Now(): State
      reads this
    {
      StateOf(M())
    }

    ghost predicate Valid(g: Graph, path: seq<string>)
      reads this
    {
      g.tpls == tpls && MemoOk(g, M(), path) && LogOk(log, evaluated)
    }

    constructor (tpls: map<string, Template>)
      ensures this.tpls == tpls && vals.Keys == tpls.Keys && forall n :: n in tpls ==> vals[n] == []
    {
      this.tpls := tpls;
      vals := map n | n in tpls :: [];
      evaluated, ctx, log := {}, map[], [];
    }

    /** One more value for an attribute; names that are not known are ignored. */
    method AddValue(name: string, val: string)
      requires vals.Keys == tpls.Keys
      modifies this`vals
      ensures vals == if name in tpls then old(vals)[name := old(vals)[name] + [val]] else old(vals)
    {
      if name in tpls {
        vals := vals[name := vals[name] + [val]];
      }
    }

    /**
      The values of the main template, exactly as the function `Run` says, which says too
      whether there are any. Every template is evaluated at most once (the log has no
      repetition), and if it has been, its values fit those of the others as they were
      seen; without recursion these are the values that evaluating everything anew would
      give. It fails only on a condition that lies on the way to it. When it does not,
      all that is needed in any case has been evaluated, and to each template there is a
      way without the conditions it needs in any case; nothing has been evaluated that
      no template used: branches that are not chosen are left alone. Where branches refer to nothing
      the references alone decide.
    */
    method Evaluate(main: string) returns (ok: bool, r: seq<string>)
      requires WfGroup(tpls) && vals.Keys == tpls.Keys && main in tpls
      modifies this
      ensures Follows(ok, Now(), Run(tpls, State(true, old(vals), {}), main))
      ensures ok ==> Valid(Graph(tpls, old(vals), main), []) && main in evaluated && r == vals[main] != []
      ensures ok && Acyclic(tpls) ==> r == Sem(tpls, old(vals), [], main)
      ensures ok ==> forall n :: n in tpls && IsAttr(tpls[n]) ==> AttrVals(vals, n) == AttrVals(old(vals), n)
      ensures ok ==> forall n :: n in evaluated ==> Needed(tpls, Now(), main, n)
      ensures ok ==> forall n :: n in evaluated && IsAttr(tpls[n]) ==>
        vals[n] == if old(vals)[n] == [] then [""] else old(vals)[n]
      ensures !ok ==> exists p :: Blocked(tpls, main, p)
      ensures ok ==> forall p :: MustChain(tpls, p) && p[0] == main ==> p[|p| - 1] in evaluated
      ensures ok ==> forall n, k :: n in evaluated && k in MustCondNames(tpls[n]) ==>
        exists p :: Avoids(tpls, main, n, k, p)
      ensures Acyclic(tpls) ==> ok
      ensures LiteralGroup(tpls) ==> (ok <==> Walk(tpls, [], {}, main).ok)
    {
      hide WfGroup, Names, Blocked, MustChain, Avoids, WfTemplate, Cycle, Run, Walk, LiteralGroup, Needed;
      ghost var g := Graph(tpls, vals, main);
      evaluated := {};
      log := [];
      r := [];
      ok := EvalTemplate(main, g, []);
      OnlyNeeded(tpls, g.given, main);
      if ok {
        r := vals[main];
        Outcome(g, M());
      } else {
        BlockedIsCycle(tpls, main);
      }
      if LiteralGroup(tpls) {
        LiteralFails(tpls, old(vals), main);
      }
    }

    method EvalTemplate(name: string, ghost g: Graph, ghost path: seq<string>) returns (ok: bool)
      requires Valid(g, path) && Chain(tpls, path + [name]) && (path == [] ==> name == g.root)
      modifies this
      ensures ok ==> Valid(g, path) && Grows(old(M()), M()) && name in evaluated
      ensures Follows(ok, Now(), Run(tpls, old(Now()), name))
      ensures !ok ==> exists p :: Blocked(tpls, g.root, p)
      decreases |tpls.Keys - evaluated|, 0, 1
    {
      hide MemoOk, LogOk, Grows, Chain, Blocked, TplDone, Names, CondNames, WfTemplate, AttrVals, Seen, Run, Ready;
      hide StateOf, Entered, Left;
      ChainLast(tpls, path, name);
      if name in evaluated {
        RunsAgain(g, M(), path, name);
        GrowsSelf(g, M(), path);
        return true;
      }
      var t := tpls[name];
      LogSnoc(log, evaluated, name);
      NotOnPath(g, M(), path, name);
      GroupOk(g, M(), path, name);
      if |t.chunks| == 0 {
        TakeAttr(g, M(), path, name);
        AttrRuns(g, M(), path, name);
        TakeAttribute(name, g, path);
        return true;
      }
      ok := EvalOwn(name, g, path);
    }

    /** The values of a template that has none yet. */
    method EvalOwn(name: string, ghost g: Graph, ghost path: seq<string>) returns (ok: bool)
      requires Valid(g, path) && Chain(tpls, path + [name]) && (path == [] ==> name == g.root)
      requires name in tpls && name !in path && name !in evaluated && name in vals && evaluated <= vals.Keys
      requires !IsAttr(tpls[name])
      modifies this
      ensures ok ==> Valid(g, path) && Grows(old(M()), M()) && name in evaluated
      ensures Follows(ok, Now(), Run(tpls, old(Now()), name))
      ensures !ok ==> exists p :: Blocked(tpls, g.root, p)
      decreases |tpls.Keys - evaluated|, 0, 0
    {
      hide MemoOk, LogOk, Grows, Chain, Blocked, TplDone, Names, CondNames, WfTemplate, Seen, Entered, Left, IsAttr;
      hide Run, RunWhole, Ready, StateOf;
      OwnFails(g, M(), path, name);
      LogSnoc(log, evaluated, name);
      Enter(g, M(), path, name);
      Mark(name);
      assert (path + [name])[|path|] == name;
      label L:
      var r: seq<string>;
      ok, r := EvalBody(tpls[name], g, path + [name]);
      if ok {
        OwnRuns(g, old(M()), path, name, M(), r);
        Leave(g, M(), path, name, r);
        EnterLeave(old(M()), path, name, M(), r);
        Store(name, r, path);
      }
    }

    /** A template that is being evaluated has no values. */
    method Mark(name: string)
      modifies this
      ensures M() == Entered(old(M()), name) && log == old(log) + [name] && evaluated == old(evaluated) + {name}
    {
      vals := vals[name := []];
      evaluated := evaluated + {name};
      log := log + [name];
    }

    method Store(name: string, r: seq<string>, ghost path: seq<string>)
      modifies this
      ensures M() == Left(old(M()), path, name, r) && log == old(log) && evaluated == old(evaluated)
    {
      vals := vals[name := r];
      ctx := ctx[name := path + [name]];
    }

    /** An attribute without values gets an empty one. */
    method TakeAttribute(name: string, ghost g: Graph, ghost path: seq<string>)
      requires name in vals && AttrVals(g.given, name) == if vals[name] == [] then [""] else vals[name]
      modifies this
      ensures M() == Left(Entered(old(M()), name), path, name, AttrVals(g.given, name))
      ensures log == old(log) + [name] && evaluated == old(evaluated) + {name}
    {
      hide AttrVals;
      if |vals[name]| == 0 {
        vals := vals[name := [""]];
      }
      evaluated := evaluated + {name};
      ctx, log := ctx[name := path + [name]], log + [name];
      assert vals == old(vals)[name := []][name := AttrVals(g.given, name)];
    }

    /** The values of a template or a branch, once all it refers to is evaluated. */
    method EvalBody(t: Template, ghost g: Graph, ghost path: seq<string>) returns (ok: bool, r: seq<string>)
      requires Valid(g, path) && path != [] && WfTemplate(t)
      requires Names(t) <= Names(tpls[path[|path| - 1]]) && CondNames(t) <= CondNames(tpls[path[|path| - 1]])
      modifies this
      ensures ok ==> Valid(g, path) && Grows(old(M()), M())
      ensures ok ==> TplDone(t, r, Seen(vals, path), evaluated)
      ensures Follows(ok, Now(), RunWhole(tpls, old(Now()), t))
      ensures !ok ==> exists p :: Blocked(tpls, g.root, p)
      decreases |tpls.Keys - evaluated|, 1, t, 0
    {
      hide MemoOk, LogOk, Grows, Chain, Blocked, Seen, Names, CondNames, PhDone, TplDone, PhNames, PhCondNames, Values;
      hide RunBody, RunPlaceholder, Ready, WfTemplate, WfPlaceholder, StateOf;
      SeenIsNow(g, M(), path);
      KnownNames(g, M(), path);
      RunNone(tpls, Now(), t);
      var ps: seq<PhValues> := [];
      r := [];
      GrowsSelf(g, M(), path);
      for k := 0 to |t.phs|
        invariant Valid(g, path) && Grows(old(M()), M()) && |ps| == k && Now() == RunBody(tpls, old(Now()), t, k)
        invariant forall j :: 0 <= j < k ==> PhDone(t.phs[j], ps[j], Seen(vals, path), evaluated)
      {
        label L:
        FewerLeft(g, old(M()), path, M());
        NamesOfPart(t, k);
        RunNext(tpls, old(Now()), t, k);
        var p;
        ok, p := EvalPlaceholder(t.phs[k], g, path);
        if !ok {
          return;
        }
        forall j | 0 <= j < k ensures PhDone(t.phs[j], ps[j], Seen(vals, path), evaluated) {
          PhDoneGrows(t.phs[j], ps[j], old@L(M()), M(), path);
        }
        GrowsTwice(old(M()), old@L(M()), M());
        ps := ps + [p];
      }
      r := BuildValues(t.chunks, ps);
      AllDone(t, ps, Seen(vals, path), evaluated);
      ok := true;
    }

    method EvalPlaceholder(p: Placeholder, ghost g: Graph, ghost path: seq<string>) returns (ok: bool, v: PhValues)
      requires Valid(g, path) && path != [] && WfPlaceholder(p)
      requires PhNames(p) <= Names(tpls[path[|path| - 1]]) && PhCondNames(p) <= CondNames(tpls[path[|path| - 1]])
      modifies this
      ensures ok ==> Valid(g, path) && Grows(old(M()), M()) && PhDone(p, v, Seen(vals, path), evaluated)
      ensures Follows(ok, Now(), RunPlaceholder(tpls, old(Now()), p))
      ensures !ok ==> exists q :: Blocked(tpls, g.root, q)
      decreases |tpls.Keys - evaluated|, 1, p, 2
    {
      hide MemoOk, LogOk, Grows, Chain, Blocked, Seen, Names, CondNames, PhDone, TplDone, CondValues, WfPlaceholder;
      hide Run, RunWhole, RunChosen, RunPlaceholder, Ready, TakesThen;
      SeenIsNow(g, M(), path);
      KnownNames(g, M(), path);
      RunParts(tpls, Now(), p);
      v := PhValues([], None);
      NameOf(g, M(), path, p);
      ok := EvalTemplate(p.name, g, path);
      if !ok {
        return;
      }
      Known(g, M(), path, p.name);
      FewerLeft(g, old(M()), path, M());
      if !p.Cond? {
        PlainDone(p, Seen(vals, path), evaluated);
        v := PhValues(vals[p.name], if p.Join? then Some(p.sep) else None);
        return;
      }
      var cond := vals[p.name];
      if |cond| == 0 {
        FaultIsBlocked(g, M(), path, p.name);
        return false, v;
      }
      label L:
      var r: seq<string>;
      if p.concat {
        ok, r := EvalConcat(p, cond, g, path);
      } else {
        ok, r := EvalChoice(p, cond, g, path);
      }
      if ok {
        GrowsTwice(old(M()), old@L(M()), M());
      }
      v := PhValues(r, None);
    }

    /** One branch for all: the first one if some value of the condition is not empty. */
    method EvalConcat(p: Placeholder, cond: seq<string>, ghost g: Graph, ghost path: seq<string>)
        returns (ok: bool, r: seq<string>)
      requires Valid(g, path) && path != [] && WfPlaceholder(p) && p.Cond? && p.concat
      requires PhNames(p) <= Names(tpls[path[|path| - 1]]) && PhCondNames(p) <= CondNames(tpls[path[|path| - 1]])
      requires p.name in evaluated && cond == Look(Seen(vals, path), p.name) && cond != []
      modifies this
      ensures ok ==> Valid(g, path) && Grows(old(M()), M()) && PhDone(p, PhValues(r, None), Seen(vals, path), evaluated)
      ensures Follows(ok, Now(), RunWhole(tpls, old(Now()), if TakesThen(cond) then p.tplThen else p.tplElse))
      ensures !ok ==> exists q :: Blocked(tpls, g.root, q)
      decreases |tpls.Keys - evaluated|, 1, p, 0
    {
      hide MemoOk, LogOk, Grows, Chain, Blocked, Seen, Names, CondNames, PhDone, TplDone, Ready, RunBody;
      var some := false;
      var c := 0;
      while c < |cond| && !some
        invariant 0 <= c <= |cond| && some == TakesThen(cond[..c])
      {
        some := cond[c] != "";
        c := c + 1;
      }
      assert some == TakesThen(cond);
      ok, r := EvalBody(if some then p.tplThen else p.tplElse, g, path);
      if ok {
        StillKnown(old(M()), M(), path, p.name);
        ConcatDone(p, cond, r, Seen(vals, path), evaluated);
      }
    }

    /** Every value of the condition chooses a branch. */
    method EvalChoice(p: Placeholder, cond: seq<string>, ghost g: Graph, ghost path: seq<string>)
        returns (ok: bool, r: seq<string>)
      requires Valid(g, path) && path != [] && WfPlaceholder(p) && p.Cond? && !p.concat
      requires PhNames(p) <= Names(tpls[path[|path| - 1]]) && PhCondNames(p) <= CondNames(tpls[path[|path| - 1]])
      requires p.name in evaluated && cond == Look(Seen(vals, path), p.name) && cond != []
      modifies this
      ensures ok ==> Valid(g, path) && Grows(old(M()), M()) && PhDone(p, PhValues(r, None), Seen(vals, path), evaluated)
      ensures Follows(ok, Now(), RunChosen(tpls, old(Now()), p, cond, |cond|))
      ensures !ok ==> exists q :: Blocked(tpls, g.root, q)
      decreases |tpls.Keys - evaluated|, 1, p, 1
    {
      hide MemoOk, LogOk, Grows, Chain, Blocked, Seen, Names, CondNames, PhDone, TplDone, TakesThen, TakesElse,
        RunChosen, Ready;
      r := [];
      var th, el, ntotal;
      ok, th, el, ntotal := EvalChosen(p, cond, g, path);
      if ok {
        r := Choose(cond, th, el, ntotal);
        StillKnown(old(M()), M(), path, p.name);
        ChoiceDone(p, cond, th, el, r, Seen(vals, path), evaluated);
      }
    }

    /** The first pass: the branches that are chosen are evaluated once, and how many values there will be. */
    method EvalChosen(p: Placeholder, cond: seq<string>, ghost g: Graph, ghost path: seq<string>)
      returns (ok: bool, th: Option<seq<string>>, el: Option<seq<string>>, ntotal: nat)
      requires Valid(g, path) && path != [] && WfPlaceholder(p) && p.Cond?
      requires PhNames(p) <= Names(tpls[path[|path| - 1]]) && PhCondNames(p) <= CondNames(tpls[path[|path| - 1]])
      modifies this
      ensures ok ==>
        Valid(g, path) && Grows(old(M()), M()) && th.Some? == TakesThen(cond) && el.Some? == TakesElse(cond, false)
      ensures ok && th.Some? ==> th.value != [] && TplDone(p.tplThen, th.value, Seen(vals, path), evaluated)
      ensures ok && el.Some? ==> el.value != [] && TplDone(p.tplElse, el.value, Seen(vals, path), evaluated)
      ensures Follows(ok, Now(), RunChosen(tpls, old(Now()), p, cond, |cond|))
      ensures ok ==> ntotal == NumChosen(|cond|, th, el)
      ensures !ok ==> exists q :: Blocked(tpls, g.root, q)
      decreases |tpls.Keys - evaluated|, 1, p, 0
    {
      hide MemoOk, LogOk, Grows, Chain, Blocked, Seen, Names, CondNames, TplDone, TakesThen, TakesElse;
      hide RunWhole, RunChosen, Ready, WfTemplate, WfPlaceholder, StateOf, NumChosen;
      SeenIsNow(g, M(), path);
      KnownNames(g, M(), path);
      RunNoneChosen(tpls, Now(), p, cond);
      GrowsSelf(g, M(), path);
      TakesNone(cond);
      th, el, ntotal := None, None, |cond|;
      NoneChosen(|cond|);
      for c := 0 to |cond|
        invariant Valid(g, path) && Grows(old(M()), M()) && Now() == RunChosen(tpls, old(Now()), p, cond, c)
        invariant th.Some? == TakesThen(cond[..c]) && el.Some? == TakesElse(cond[..c], false)
        invariant th.Some? ==> th.value != [] && TplDone(p.tplThen, th.value, Seen(vals, path), evaluated)
        invariant el.Some? ==> el.value != [] && TplDone(p.tplElse, el.value, Seen(vals, path), evaluated)
        invariant ntotal == NumChosen(|cond|, th, el)
      {
        label L:
        NoneIsLess(|cond|, th, el);
        FewerLeft(g, old(M()), path, M());
        TakesSnoc(cond, c);
        RunChosenNext(tpls, old(Now()), p, cond, c);
        var r;
        if cond[c] != "" {
          if th.None? {
            ok, r := EvalNext(p.tplThen, p.tplElse, el, g, path);
            if !ok {
              return;
            }
            GrowsTwice(old(M()), old@L(M()), M());
            OneMoreChosen(|cond|, th, el, r);
            th := Some(r);
          }
        } else {
          if el.None? {
            ok, r := EvalNext(p.tplElse, p.tplThen, th, g, path);
            if !ok {
              return;
            }
            GrowsTwice(old(M()), old@L(M()), M());
            OneMoreChosen(|cond|, th, el, r);
            el := Some(r);
          }
        }
        var nvals := |if cond[c] != "" then th.value else el.value|;
        if nvals > ntotal {
          ntotal := nvals;
        }
      }
      assert cond[..|cond|] == cond;
      ok := true;
    }

    /** Evaluate a branch; a branch that has been evaluated keeps its values. */
    method EvalNext(t: Template, ghost other: Template, ghost r0: Option<seq<string>>, ghost g: Graph,
        ghost path: seq<string>)
      returns (ok: bool, r: seq<string>)
      requires Valid(g, path) && path != [] && WfTemplate(t)
      requires Names(t) <= Names(tpls[path[|path| - 1]]) && CondNames(t) <= CondNames(tpls[path[|path| - 1]])
      requires r0.Some? ==> TplDone(other, r0.value, Seen(vals, path), evaluated)
      modifies this
      ensures ok ==> Valid(g, path) && Grows(old(M()), M()) && r != [] && TplDone(t, r, Seen(vals, path), evaluated)
      ensures ok && r0.Some? ==> TplDone(other, r0.value, Seen(vals, path), evaluated)
      ensures Follows(ok, Now(), RunWhole(tpls, old(Now()), t))
      ensures !ok ==> exists q :: Blocked(tpls, g.root, q)
      decreases |tpls.Keys - evaluated|, 1, t, 1
    {
      hide MemoOk, LogOk, Grows, Chain, Blocked, Seen, Names, CondNames, Ready, RunBody;
      ok, r := EvalBody(t, g, path);
      if ok && r0.Some? {
        TplDoneGrows(other, r0.value, old(M()), M(), path);
      }
    }
  }

  lemma ConcatDone(p: Placeholder, cond: seq<string>, r: seq<string>, env: Env, evaluated: set<string>)
    requires WfPlaceholder(p) && p.Cond? && p.concat && cond == Look(env, p.name) && cond != [] && p.name in evaluated
    requires TplDone(if TakesThen(cond) then p.tplThen else p.tplElse, r, env, evaluated)
    ensures PhDone(p, PhValues(r, None), env, evaluated)
  {
    hide TplVals, Uses, Decided, WfTemplate;
  }

  lemma ChoiceDone(p: Placeholder, cond: seq<string>, th: Option<seq<string>>, el: Option<seq<string>>,
      r: seq<string>, env: Env, evaluated: set<string>)
    requires WfPlaceholder(p) && p.Cond? && !p.concat && cond == Look(env, p.name) && cond != [] && p.name in evaluated
    requires (TakesThen(cond) <==> th.Some?) && (TakesElse(cond, false) <==> el.Some?)
    requires th.Some? ==> TplDone(p.tplThen, th.value, env, evaluated)
    requires el.Some? ==> TplDone(p.tplElse, el.value, env, evaluated)
    requires var tv, ev := if th.Some? then th.value else [""], if el.Some? then el.value else [""];
      |r| == NumCondValues(cond, tv, ev) && tv != [] && ev != [] && forall i :: 0 <= i < |r| ==>
        r[i] == CondValue(cond, tv, ev, i)
    ensures PhDone(p, PhValues(r, None), env, evaluated)
  {
    hide TplVals, Uses, Decided, WfTemplate, TakesThen, TakesElse, NumCondValues, CondValue;
    var tv, ev := if th.Some? then th.value else [""], if el.Some? then el.value else [""];
    assert r == CondValues(cond, false, tv, ev);
    CondAgree(cond, false, tv, ev, TplVals(p.tplThen, env), TplVals(p.tplElse, env));
  }

  lemma TakesNone(cond: seq<string>)
    ensures !TakesThen(cond[..0]) && !TakesElse(cond[..0], false)
  {
  }

  lemma TakesSnoc(cond: seq<string>, c: nat)
    requires c < |cond|
    ensures TakesThen(cond[..c + 1]) == (TakesThen(cond[..c]) || cond[c] != "")
    ensures TakesElse(cond[..c + 1], false) == (TakesElse(cond[..c], false) || cond[c] == "")
  {
    assert cond[..c + 1] == cond[..c] + [cond[c]];
  }

  /** The second pass over a conditional. */
  method Choose(cond: seq<string>, th: Option<seq<string>>, el: Option<seq<string>>, ntotal: nat)
      returns (r: seq<string>)
    requires cond != [] && (TakesThen(cond) ==> th.Some? && th.value != [])
    requires TakesElse(cond, false) ==> el.Some? && el.value != []
    ensures |r| == ntotal
    ensures forall i :: 0 <= i < ntotal ==>
      r[i] == CondValue(cond, if TakesThen(cond) then th.value else [""], if TakesElse(cond, false) then el.value
        else [""], i)
  {
    r := [];
    var c := 0;
    for i := 0 to ntotal
      invariant c == (if i < |cond| then i else |cond| - 1) && |r| == i
      invariant forall j :: 0 <= j < i ==>
        r[j] == CondValue(cond, if TakesThen(cond) then th.value else [""], if TakesElse(cond, false) then el.value
          else [""], j)
    {
      assert cond[c] != "" || cond[c] == "";
      var branch := if cond[c] != "" then th.value else el.value;
      r := r + [if i < |branch| then branch[i] else branch[|branch| - 1]];
      if c + 1 < |cond| {
        c := c + 1;
      }
    }
  }

  ghost predicate TplDone(t: Template, r: seq<string>, env: Env, evaluated: set<string>) {
    WfTemplate(t) && r == TplVals(t, env) && Decided(t, env) && Uses(t, env) <= evaluated
  }

  ghost predicate PhDone(p: Placeholder, v: PhValues, env: Env, evaluated: set<string>) {
    WfPlaceholder(p) && v == PhVals(p, env) && PhDecided(p, env) && PhUses(p, env) <= evaluated
  }

  lemma PhDoneGrows(p: Placeholder, v: PhValues, m1: Memo, m2: Memo, path: seq<string>)
    requires Grows(m1, m2) && PhDone(p, v, Seen(m1.vals, path), m1.evaluated)
    ensures PhDone(p, v, Seen(m2.vals, path), m2.evaluated)
  {
    PhSeenGrows(p, m1, m2, path);
  }

  lemma TplDoneGrows(t: Template, r: seq<string>, m1: Memo, m2: Memo, path: seq<string>)
    requires Grows(m1, m2) && TplDone(t, r, Seen(m1.vals, path), m1.evaluated)
    ensures TplDone(t, r, Seen(m2.vals, path), m2.evaluated)
  {
    SeenGrows(t, m1, m2, path);
  }

  lemma AllDone(t: Template, ps: seq<PhValues>, env: Env, evaluated: set<string>)
    requires |ps| == |t.phs| && |t.chunks| == |ps| + 1
    requires forall i :: 0 <= i < |ps| ==> PhDone(t.phs[i], ps[i], env, evaluated)
    ensures TplDone(t, Values(t.chunks, ps), env, evaluated)
  {
    hide Values, PhVals, PhUses, PhDecided, WfPlaceholder;
    forall i | 0 <= i < |ps|
      ensures WfPlaceholder(t.phs[i]) && ps[i] == PhVals(t.phs[i], env) && PhDecided(t.phs[i], env)
      ensures PhUses(t.phs[i], env) <= evaluated
    {
      assert PhDone(t.phs[i], ps[i], env, evaluated);
    }
    assert ps == seq(|t.phs|, i requires 0 <= i < |t.phs| => PhVals(t.phs[i], env));
  }

  // ---------------------------------------------------------------- what comes out of it

  /** The value of a name, evaluated anew wherever it is used; a recursion ends with nothing. */
  ghost function Sem(tpls: map<string, Template>, given: Env, path: seq<string>, n: string): seq<string>
    requires WfGroup(tpls) && n in tpls
    decreases |tpls.Keys - (set k | k in path)|
  {
    if n in path then []
    else if IsAttr(tpls[n]) then AttrVals(given, n)
    else
      PathGrows(tpls, path, n);
      TplVals(tpls[n], map k | k in tpls :: Sem(tpls, given, path + [n], k))
  }

  lemma PathGrows(tpls: map<string, Template>, path: seq<string>, n: string)
    requires n in tpls && n !in path
    ensures |tpls.Keys - (set k | k in path + [n])| < |tpls.Keys - (set k | k in path)|
  {
    assert tpls.Keys - (set k | k in path) == (tpls.Keys - (set k | k in path + [n])) + {n};
  }

  /** Without recursion, the shared values are the ones that evaluating anew would give. */
  lemma {:induction false} SharedIsAnew(g: Graph, m: Memo, path: seq<string>, n: string)
    requires MemoOk(g, m, []) && Acyclic(g.tpls) && n in m.evaluated && Chain(g.tpls, path + [n])
    ensures Sem(g.tpls, g.given, path, n) == m.vals[n]
    decreases |g.tpls.Keys - (set k | k in path)|
  {
    hide TplVals, Uses, Decided, WfTemplate, IsAttr, Cycle;
    assert n in Done(m, []);
    NotAgain(g.tpls, path, n);
    if !IsAttr(g.tpls[n]) {
      PathGrows(g.tpls, path, n);
      var t := g.tpls[n];
      var seen := Seen(m.vals, m.ctx[n]);
      var anew := map k | k in g.tpls :: Sem(g.tpls, g.given, path + [n], k);
      UsesAreNames(t, seen);
      forall k | k in Uses(t, seen) ensures Look(seen, k) == Look(anew, k) {
        NextNotAgain(g.tpls, m.ctx[n], n, k);
        ChainNext(g.tpls, path + [n], k);
        SharedIsAnew(g, m, path + [n], k);
      }
      AgreeTpl(t, seen, anew);
    }
  }

  lemma NotAgain(tpls: map<string, Template>, path: seq<string>, n: string)
    requires Acyclic(tpls) && Chain(tpls, path + [n])
    ensures n !in path
  {
    hide Cycle, Chain;
    if n in path {
      CycleThrough(tpls, path, n);
    }
  }

  lemma CycleThrough(tpls: map<string, Template>, path: seq<string>, n: string)
    requires Chain(tpls, path + [n]) && n in path
    ensures exists p :: Cycle(tpls, p)
  {
    var k :| 0 <= k < |path| && path[k] == n;
    var p := path[k..];
    ChainLast(tpls, path, n);
    forall i | 0 < i < |p| ensures p[i] in Names(tpls[p[i - 1]]) {
      assert p[i] == path[k + i] && p[i - 1] == path[k + i - 1];
    }
    assert (path + [n])[|path|] == n && (path + [n])[|path| - 1] == path[|path| - 1];
    assert Cycle(tpls, p);
  }

  lemma NextNotAgain(tpls: map<string, Template>, path: seq<string>, n: string, k: string)
    requires WfGroup(tpls) && Acyclic(tpls) && Chain(tpls, path) && path != [] && path[|path| - 1] == n && n in tpls
    requires k in Names(tpls[n])
    ensures k !in path
  {
    ChainNext(tpls, path, k);
    NotAgain(tpls, path, k);
  }

  lemma {:induction false} UsesAreNames(t: Template, env: Env)
    ensures Uses(t, env) <= Names(t)
    decreases t
  {
    forall i | 0 <= i < |t.phs| ensures PhUses(t.phs[i], env) <= PhNames(t.phs[i]) {
      var p := t.phs[i];
      if p.Cond? {
        UsesAreNames(p.tplThen, env);
        UsesAreNames(p.tplElse, env);
      }
    }
  }

  /** Values that were given count only through what an attribute makes of them. */
  lemma {:induction false} SemOfGiven(tpls: map<string, Template>, g1: Env, g2: Env, path: seq<string>, n: string)
    requires WfGroup(tpls) && n in tpls
    requires forall k :: k in tpls && IsAttr(tpls[k]) ==> AttrVals(g1, k) == AttrVals(g2, k)
    ensures Sem(tpls, g1, path, n) == Sem(tpls, g2, path, n)
    decreases |tpls.Keys - (set k | k in path)|
  {
    hide TplVals, AttrVals;
    if n !in path && !IsAttr(tpls[n]) {
      PathGrows(tpls, path, n);
      forall k | k in tpls ensures Sem(tpls, g1, path + [n], k) == Sem(tpls, g2, path + [n], k) {
        SemOfGiven(tpls, g1, g2, path + [n], k);
      }
      assert (map k | k in tpls :: Sem(tpls, g1, path + [n], k)) == (map k | k in tpls :: Sem(tpls, g2, path + [n], k));
    }
  }

  /** What is needed in any case has been evaluated. */
  lemma MustBeEvaluated(g: Graph, m: Memo, q: seq<string>)
    requires MemoOk(g, m, []) && g.root in m.evaluated && MustChain(g.tpls, q) && q[0] == g.root
    ensures q[|q| - 1] in m.evaluated
  {
    hide TplVals, WfTemplate, Chain;
    var i := 0;
    while i + 1 < |q|
      invariant 0 <= i < |q| && q[i] in m.evaluated
    {
      assert q[i] in Done(m, []);
      MustIsUsed(g.tpls[q[i]], Seen(m.vals, m.ctx[q[i]]), q[i + 1]);
      i := i + 1;
    }
  }

  /** A condition that is needed in any case was not on the way. */
  lemma MustBeAvoided(g: Graph, m: Memo, n: string, k: string)
    requires MemoOk(g, m, []) && n in m.evaluated && k in MustCondNames(g.tpls[n])
    ensures exists p :: Avoids(g.tpls, g.root, n, k, p)
  {
    hide TplVals, WfTemplate, Chain;
    assert n in Done(m, []);
    var seen := Seen(m.vals, m.ctx[n]);
    assert k in m.ctx[n] ==> Look(seen, k) == [];
    DecidedConds(g.tpls[n], seen, k);
    assert Avoids(g.tpls, g.root, n, k, m.ctx[n]);
  }

  lemma DecidedConds(t: Template, env: Env, n: string)
    ensures Decided(t, env) && n in MustCondNames(t) ==> Look(env, n) != []
  {
    if Decided(t, env) && n in MustCondNames(t) {
      var i :| 0 <= i < |t.phs| && t.phs[i].Cond? && t.phs[i].name == n;
      assert PhDecided(t.phs[i], env);
    }
  }

  lemma MustIsUsed(t: Template, env: Env, n: string)
    requires n in MustNames(t)
    ensures n in Uses(t, env)
  {
    var i :| 0 <= i < |t.phs| && t.phs[i].name == n;
    assert n in PhUses(t.phs[i], env);
  }

  /** A condition on the way to it closes a cycle. */
  lemma BlockedIsCycle(tpls: map<string, Template>, root: string)
    requires exists p :: Blocked(tpls, root, p)
    ensures !Acyclic(tpls)
  {
    hide WfTemplate, Names, CondNames;
    var p :| Blocked(tpls, root, p);
    var n :| n in p && n in CondNames(tpls[p[|p| - 1]]);
    CondsAreNames(tpls[p[|p| - 1]]);
    var k :| 0 <= k < |p| && p[k] == n;
    var q := p[k..];
    forall i | 0 < i < |q| ensures q[i] in Names(tpls[q[i - 1]]) {
      assert q[i] == p[k + i] && q[i - 1] == p[k + i - 1];
    }
    assert q[|q| - 1] == p[|p| - 1] && forall m :: m in q ==> m in p;
    assert Cycle(tpls, q);
  }

  lemma {:induction false} CondsAreNames(t: Template)
    ensures CondNames(t) <= Names(t)
    decreases t
  {
    forall i | 0 <= i < |t.phs| ensures PhCondNames(t.phs[i]) <= PhNames(t.phs[i]) {
      var p := t.phs[i];
      if p.Cond? {
        CondsAreNames(p.tplThen);
        CondsAreNames(p.tplElse);
      }
    }
  }

  lemma Outcome(g: Graph, m: Memo)
    requires MemoOk(g, m, []) && g.root in m.evaluated
    ensures m.vals[g.root] != []
    ensures Acyclic(g.tpls) ==> m.vals[g.root] == Sem(g.tpls, g.given, [], g.root)
    ensures forall n :: n in g.tpls && IsAttr(g.tpls[n]) ==> AttrVals(m.vals, n) == AttrVals(g.given, n)
    ensures g.given.Keys == g.tpls.Keys ==> forall n :: n in m.evaluated && IsAttr(g.tpls[n]) ==>
      n in m.vals && m.vals[n] == if g.given[n] == [] then [""] else g.given[n]
    ensures forall q :: MustChain(g.tpls, q) && q[0] == g.root ==> q[|q| - 1] in m.evaluated
    ensures forall n, k :: n in m.evaluated && k in MustCondNames(g.tpls[n]) ==>
      exists p :: Avoids(g.tpls, g.root, n, k, p)
  {
    hide WfGroup, Names, Avoids, Cycle, TplVals, Decided, Uses;
    assert g.root in Done(m, []);
    if Acyclic(g.tpls) {
      SharedIsAnew(g, m, [], g.root);
    }
    forall q | MustChain(g.tpls, q) && q[0] == g.root ensures q[|q| - 1] in m.evaluated {
      MustBeEvaluated(g, m, q);
    }
    forall n, k | n in m.evaluated && k in MustCondNames(g.tpls[n])
      ensures exists p :: Avoids(g.tpls, g.root, n, k, p)
    {
      MustBeAvoided(g, m, n, k);
    }
    forall n | n in m.evaluated && IsAttr(g.tpls[n]) ensures n in m.vals && m.vals[n] == AttrVals(g.given, n) {
      assert n in Done(m, []);
    }
    forall n | n in g.tpls && IsAttr(g.tpls[n]) ensures AttrVals(m.vals, n) == AttrVals(g.given, n) {
      if n in m.evaluated {
        assert n in Done(m, []);
      }
    }
  }

  function NoValues(tpls: map<string, Template>): (r: Env)
    ensures r.Keys == tpls.Keys
  {
    map n | n in tpls :: []
  }

  /** Recursion through a condition, evaluated: on itself, from outside, and begun at either of two templates. */
  method EvaluateRecursive() returns (itself: bool, outside: bool, fromN: bool, fromK: bool)
    ensures !itself && !outside && fromN && !fromK
  {
    hide WfGroup, LiteralGroup, Run, Walk, IfOn, RefersTo, Blocked, Acyclic;
    var one := map["A" := IfOn("A")];
    var two := map["A" := IfOn("A"), "M" := RefersTo("A")];
    IfOnItself(NoValues(one));
    RefersToIfOnItself(NoValues(two));
    WhereOneBegins(NoValues(TURNING));
    itself := EvaluateNew(one, "A");
    outside := EvaluateNew(two, "M");
    fromN := EvaluateNew(TURNING, "N");
    fromK := EvaluateNew(TURNING, "K");
  }

  /** Whether a new group, whose attributes have no values, can be evaluated. */
  method EvaluateNew(tpls: map<string, Template>, main: string) returns (ok: bool)
    requires WfGroup(tpls) && main in tpls
    ensures ok == Run(tpls, State(true, NoValues(tpls), {}), main).ok
  {
    hide WfGroup, LiteralGroup, Run, Walk, Blocked, Acyclic;
    var group := new Group(tpls);
    assert group.vals == NoValues(tpls);
    var r;
    ok, r := group.Evaluate(main);
  }
}
