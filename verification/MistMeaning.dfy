/**
  What templates mean (mist_base.c): their values if those of the names they refer to are
  given, and the evaluation of a group as a function of its templates and attributes.
*/
module MistMeaning {
  import opened Options
  import opened MistValues
  import opened MistTemplates

  // ---------------------------------------------------------------- what a template means

  type Env = map<string, seq<string>>

  function Look(env: Env, n: string): seq<string> {
    if n in env then env[n] else []
  }

  /** The values as they are seen while the templates of `path` are being evaluated. */
  function Seen(vals: Env, path: seq<string>): Env {
    map n | n in vals :: if n in path then [] else vals[n]
  }

  /** Some value of a condition is not empty: the first branch is needed. */
  predicate TakesThen(cond: seq<string>) {
    exists c :: 0 <= c < |cond| && cond[c] != ""
  }

  predicate TakesElse(cond: seq<string>, concat: bool) {
    if concat then cond != [] && !TakesThen(cond) else exists c :: 0 <= c < |cond| && cond[c] == ""
  }

  function Most(a: nat, b: nat): nat {
    if a < b then b else a
  }

  function NumCondValues(cond: seq<string>, thenVals: seq<string>, elseVals: seq<string>): nat {
    Most(|cond|, Most(if TakesThen(cond) then |thenVals| else 0, if TakesElse(cond, false) then |elseVals| else 0))
  }

  /** Value `i` of a conditional: condition `i` chooses the branch, the last one from there on. */
  function CondValue(cond: seq<string>, thenVals: seq<string>, elseVals: seq<string>, i: nat): string
    requires cond != [] && thenVals != [] && elseVals != []
  {
    var c := if i < |cond| then i else |cond| - 1;
    var branch := if cond[c] != "" then thenVals else elseVals;
    if i < |branch| then branch[i] else branch[|branch| - 1]
  }

  function CondValues(cond: seq<string>, concat: bool, thenVals: seq<string>, elseVals: seq<string>): seq<string>
    requires thenVals != [] && elseVals != []
  {
    if cond == [] then []
    else if concat then if TakesThen(cond) then thenVals else elseVals
    else seq(NumCondValues(cond, thenVals, elseVals), i requires 0 <= i => CondValue(cond, thenVals, elseVals, i))
  }

  function TplVals(t: Template, env: Env): (vs: seq<string>)
    requires WfTemplate(t)
    ensures vs != []
  {
    Values(t.chunks, seq(|t.phs|, i requires 0 <= i < |t.phs| => PhVals(t.phs[i], env)))
  }

  function PhVals(p: Placeholder, env: Env): PhValues
    requires WfPlaceholder(p)
  {
    match p
    case Plain(n) => PhValues(Look(env, n), None)
    case Join(n, sep) => PhValues(Look(env, n), Some(sep))
    case Cond(n, concat, tplThen, tplElse) =>
      PhValues(CondValues(Look(env, n), concat, TplVals(tplThen, env), TplVals(tplElse, env)), None)
  }

  /** The names whose values matter: branches that are not taken are not evaluated. */
  function Uses(t: Template, env: Env): set<string> {
    set i, n | 0 <= i < |t.phs| && n in PhUses(t.phs[i], env) :: n
  }

  function PhUses(p: Placeholder, env: Env): set<string> {
    {p.name} +
    if !p.Cond? then {}
    else
      (if TakesThen(Look(env, p.name)) then Uses(p.tplThen, env) else {}) +
      (if TakesElse(Look(env, p.name), p.concat) then Uses(p.tplElse, env) else {})
  }

  /** Every condition that matters has a value. */
  predicate Decided(t: Template, env: Env) {
    forall i :: 0 <= i < |t.phs| ==> PhDecided(t.phs[i], env)
  }

  predicate PhDecided(p: Placeholder, env: Env) {
    p.Cond? ==>
      && Look(env, p.name) != []
      && (TakesThen(Look(env, p.name)) ==> Decided(p.tplThen, env))
      && (TakesElse(Look(env, p.name), p.concat) ==> Decided(p.tplElse, env))
  }

  lemma {:induction false} AgreeTpl(t: Template, e1: Env, e2: Env)
    requires WfTemplate(t) && forall n :: n in Uses(t, e1) ==> Look(e1, n) == Look(e2, n)
    ensures TplVals(t, e1) == TplVals(t, e2) && Uses(t, e1) == Uses(t, e2) && (Decided(t, e1) <==> Decided(t, e2))
    decreases t
  {
    hide Values, PhVals, PhUses, PhDecided, WfPlaceholder;
    forall i | 0 <= i < |t.phs|
      ensures PhVals(t.phs[i], e1) == PhVals(t.phs[i], e2) && PhUses(t.phs[i], e1) == PhUses(t.phs[i], e2)
      ensures PhDecided(t.phs[i], e1) <==> PhDecided(t.phs[i], e2)
    {
      forall n | n in PhUses(t.phs[i], e1) ensures n in Uses(t, e1) {
      }
      AgreePh(t.phs[i], e1, e2);
    }
    var p1 := seq(|t.phs|, i requires 0 <= i < |t.phs| => PhVals(t.phs[i], e1));
    var p2 := seq(|t.phs|, i requires 0 <= i < |t.phs| => PhVals(t.phs[i], e2));
    assert p1 == p2;
  }

  lemma {:induction false} AgreePh(p: Placeholder, e1: Env, e2: Env)
    requires WfPlaceholder(p) && forall n :: n in PhUses(p, e1) ==> Look(e1, n) == Look(e2, n)
    ensures PhVals(p, e1) == PhVals(p, e2) && PhUses(p, e1) == PhUses(p, e2) && (PhDecided(p, e1) <==> PhDecided(p, e2))
    decreases p
  {
    hide TplVals, CondValues, Uses, Decided, WfTemplate, TakesThen, TakesElse;
    assert p.name in PhUses(p, e1);
    if p.Cond? {
      var cond := Look(e1, p.name);
      if TakesThen(cond) {
        AgreeTpl(p.tplThen, e1, e2);
      }
      if TakesElse(cond, p.concat) {
        AgreeTpl(p.tplElse, e1, e2);
      }
      CondAgree(cond, p.concat, TplVals(p.tplThen, e1), TplVals(p.tplElse, e1), TplVals(p.tplThen, e2),
        TplVals(p.tplElse, e2));
    }
  }

  /** A branch that is not taken has no influence. */
  lemma CondAgree(cond: seq<string>, concat: bool, t1: seq<string>, e1: seq<string>, t2: seq<string>, e2: seq<string>)
    requires t1 != [] && e1 != [] && t2 != [] && e2 != []
    requires TakesThen(cond) ==> t1 == t2
    requires TakesElse(cond, concat) ==> e1 == e2
    ensures CondValues(cond, concat, t1, e1) == CondValues(cond, concat, t2, e2)
  {
    if cond != [] && !concat {
      forall i: nat ensures CondValue(cond, t1, e1, i) == CondValue(cond, t2, e2, i) {
        var c := if i < |cond| then i else |cond| - 1;
        assert cond[c] != "" || cond[c] == "";
      }
    }
  }

  // ---------------------------------------------------------------- evaluation as a function

  /** Values and `evaluated` flags; not `ok` if a condition had no value. */
  datatype State = State(ok: bool, vals: Env, seen: set<string>)

  ghost predicate Ready(tpls: map<string, Template>, s: State) {
    s.ok && WfGroup(tpls) && s.vals.Keys == tpls.Keys && s.seen <= tpls.Keys
  }

  /** What evaluation never undoes. */
  ghost predicate Further(tpls: map<string, Template>, s: State, r: State) {
    r.vals.Keys == tpls.Keys && s.seen <= r.seen <= tpls.Keys
  }

  /** One template: nothing if it is marked; else it is marked, has no values, and gets them in the end. */
  ghost function Run(tpls: map<string, Template>, s: State, n: string): (r: State)
    requires Ready(tpls, s) && n in tpls
    ensures Further(tpls, s, r) && n in r.seen
    decreases |tpls.Keys - s.seen|, 0
  {
    if n in s.seen then s
    else if IsAttr(tpls[n]) then State(true, s.vals[n := if s.vals[n] == [] then [""] else s.vals[n]], s.seen + {n})
    else
      OneLess(tpls.Keys, s.seen, n);
      var r := RunBody(tpls, State(true, s.vals[n := []], s.seen + {n}), tpls[n], |tpls[n].phs|);
      if r.ok then r.(vals := r.vals[n := TplVals(tpls[n], r.vals)]) else r
  }

  /** The first `k` placeholders of a template or a branch. */
  ghost function RunBody(tpls: map<string, Template>, s: State, t: Template, k: nat): (r: State)
    requires Ready(tpls, s) && WfTemplate(t) && Names(t) <= tpls.Keys && k <= |t.phs|
    ensures Further(tpls, s, r)
    decreases |tpls.Keys - s.seen|, 1, t, 0, k
  {
    if k == 0 then s
    else
      var r := RunBody(tpls, s, t, k - 1);
      if !r.ok then r
      else
        NoMoreLeft(tpls.Keys, s.seen, r.seen);
        NamesOfPart(t, k - 1);
        RunPlaceholder(tpls, r, t.phs[k - 1])
  }

  /** What is referred to, then the branches that are chosen; a condition must have a value. */
  ghost function RunPlaceholder(tpls: map<string, Template>, s: State, p: Placeholder): (r: State)
    requires Ready(tpls, s) && WfPlaceholder(p) && PhNames(p) <= tpls.Keys
    ensures Further(tpls, s, r)
    decreases |tpls.Keys - s.seen|, 1, p, 1
  {
    assert p.name in PhNames(p);
    var r := Run(tpls, s, p.name);
    if !r.ok || !p.Cond? then r
    else
      NoMoreLeft(tpls.Keys, s.seen, r.seen);
      var cond := r.vals[p.name];
      if cond == [] then r.(ok := false)
      else if p.concat then RunWhole(tpls, r, if TakesThen(cond) then p.tplThen else p.tplElse)
      else RunChosen(tpls, r, p, cond, |cond|)
  }

  ghost function RunWhole(tpls: map<string, Template>, s: State, t: Template): (r: State)
    requires Ready(tpls, s) && WfTemplate(t) && Names(t) <= tpls.Keys
    ensures Further(tpls, s, r)
    decreases |tpls.Keys - s.seen|, 1, t, 1
  {
    RunBody(tpls, s, t, |t.phs|)
  }

  /** The branches that the first `c` values of a condition choose, in the order in which they do. */
  ghost function RunChosen(tpls: map<string, Template>, s: State, p: Placeholder, cond: seq<string>, c: nat): (r: State)
    requires Ready(tpls, s) && WfPlaceholder(p) && p.Cond? && PhNames(p) <= tpls.Keys && c <= |cond|
    ensures Further(tpls, s, r)
    decreases |tpls.Keys - s.seen|, 1, p, 0, c
  {
    if c == 0 then s
    else
      var r := RunChosen(tpls, s, p, cond, c - 1);
      var first := cond[c - 1] != "";
      if !r.ok || (if first then TakesThen(cond[..c - 1]) else TakesElse(cond[..c - 1], false)) then r
      else
        NoMoreLeft(tpls.Keys, s.seen, r.seen);
        RunWhole(tpls, r, if first then p.tplThen else p.tplElse)
  }

  lemma RunAgain(tpls: map<string, Template>, s: State, n: string)
    requires Ready(tpls, s) && n in tpls && n in s.seen
    ensures Run(tpls, s, n) == s
  {
  }

  lemma RunAttr(tpls: map<string, Template>, s: State, n: string)
    requires Ready(tpls, s) && n in tpls && n !in s.seen && IsAttr(tpls[n])
    ensures Run(tpls, s, n) == State(true, s.vals[n := if s.vals[n] == [] then [""] else s.vals[n]], s.seen + {n})
  {
    hide WfGroup, RunBody;
  }

  lemma RunOwn(tpls: map<string, Template>, s: State, n: string)
    requires Ready(tpls, s) && n in tpls && n !in s.seen && !IsAttr(tpls[n])
    ensures var s2 := State(true, s.vals[n := []], s.seen + {n});
      && Ready(tpls, s2) && WfTemplate(tpls[n]) && Names(tpls[n]) <= tpls.Keys
      && var r := RunWhole(tpls, s2, tpls[n]);
        Run(tpls, s, n) == if r.ok then r.(vals := r.vals[n := TplVals(tpls[n], r.vals)]) else r
  {
    hide WfTemplate, Names, TplVals, RunBody;
  }

  lemma RunNone(tpls: map<string, Template>, s: State, t: Template)
    requires Ready(tpls, s) && WfTemplate(t) && Names(t) <= tpls.Keys
    ensures RunBody(tpls, s, t, 0) == s && |t.chunks| == |t.phs| + 1
  {
  }

  lemma RunNoneChosen(tpls: map<string, Template>, s: State, p: Placeholder, cond: seq<string>)
    requires Ready(tpls, s) && WfPlaceholder(p) && p.Cond? && PhNames(p) <= tpls.Keys
    ensures RunChosen(tpls, s, p, cond, 0) == s && WfTemplate(p.tplThen) && WfTemplate(p.tplElse)
  {
  }

  /** One more placeholder; once it has failed it stays so. */
  lemma RunNext(tpls: map<string, Template>, s: State, t: Template, k: nat)
    requires Ready(tpls, s) && WfTemplate(t) && Names(t) <= tpls.Keys && k < |t.phs|
    ensures WfPlaceholder(t.phs[k]) && PhNames(t.phs[k]) <= tpls.Keys
    ensures var r := RunBody(tpls, s, t, k);
      r.ok ==> Ready(tpls, r) && RunBody(tpls, s, t, k + 1) == RunPlaceholder(tpls, r, t.phs[k])
    ensures !RunBody(tpls, s, t, k + 1).ok ==> !RunWhole(tpls, s, t).ok
  {
    hide WfGroup, WfPlaceholder, Names, PhNames, RunPlaceholder;
    NamesOfPart(t, k);
    RunFails(tpls, s, t, k + 1, |t.phs|);
  }

  lemma {:induction false} RunFails(tpls: map<string, Template>, s: State, t: Template, k: nat, m: nat)
    requires Ready(tpls, s) && WfTemplate(t) && Names(t) <= tpls.Keys && k <= m <= |t.phs|
    ensures !RunBody(tpls, s, t, k).ok ==> !RunBody(tpls, s, t, m).ok
    decreases m - k
  {
    hide WfGroup, WfTemplate, Names, PhNames, RunPlaceholder;
    if k < m {
      RunFails(tpls, s, t, k, m - 1);
    }
  }

  lemma RunParts(tpls: map<string, Template>, s: State, p: Placeholder)
    requires Ready(tpls, s) && WfPlaceholder(p) && PhNames(p) <= tpls.Keys
    ensures p.name in tpls
    ensures var r := Run(tpls, s, p.name);
      RunPlaceholder(tpls, s, p) ==
        if !r.ok || !p.Cond? then r
        else if r.vals[p.name] == [] then r.(ok := false)
        else if p.concat then RunWhole(tpls, r, if TakesThen(r.vals[p.name]) then p.tplThen else p.tplElse)
        else RunChosen(tpls, r, p, r.vals[p.name], |r.vals[p.name]|)
  {
    hide WfGroup, WfTemplate, Names, Run, RunWhole, RunChosen, TakesThen;
    assert p.name in PhNames(p);
  }

  /** One more value of a condition; once it has failed it stays so. */
  lemma RunChosenNext(tpls: map<string, Template>, s: State, p: Placeholder, cond: seq<string>, c: nat)
    requires Ready(tpls, s) && WfPlaceholder(p) && p.Cond? && PhNames(p) <= tpls.Keys && c < |cond|
    ensures var r, first := RunChosen(tpls, s, p, cond, c), cond[c] != "";
      var taken := if first then TakesThen(cond[..c]) else TakesElse(cond[..c], false);
      r.ok ==>
        && Ready(tpls, r)
        && RunChosen(tpls, s, p, cond, c + 1) ==
          (if taken then r else RunWhole(tpls, r, if first then p.tplThen else p.tplElse))
    ensures !RunChosen(tpls, s, p, cond, c + 1).ok ==> !RunChosen(tpls, s, p, cond, |cond|).ok
  {
    hide WfGroup, WfTemplate, Names, RunWhole, TakesThen, TakesElse;
    RunChosenFails(tpls, s, p, cond, c + 1, |cond|);
  }

  lemma {:induction false} RunChosenFails(tpls: map<string, Template>, s: State, p: Placeholder, cond: seq<string>,
      c: nat, m: nat)
    requires Ready(tpls, s) && WfPlaceholder(p) && p.Cond? && PhNames(p) <= tpls.Keys && c <= m <= |cond|
    ensures !RunChosen(tpls, s, p, cond, c).ok ==> !RunChosen(tpls, s, p, cond, m).ok
    decreases m - c
  {
    hide WfGroup, WfTemplate, Names, RunWhole, TakesThen, TakesElse;
    if c < m {
      RunChosenFails(tpls, s, p, cond, c, m - 1);
    }
  }

  lemma OneLess(all: set<string>, seen: set<string>, n: string)
    requires n in all && n !in seen
    ensures |all - (seen + {n})| < |all - seen|
  {
    assert all - seen == (all - (seen + {n})) + {n};
  }

  lemma NoMoreLeft(all: set<string>, seen: set<string>, more: set<string>)
    requires seen <= more
    ensures |all - more| <= |all - seen|
  {
    assert all - seen == (all - more) + ((all - seen) * more);
  }

  lemma NamesOfPart(t: Template, k: nat)
    requires k < |t.phs|
    ensures PhNames(t.phs[k]) <= Names(t) && PhCondNames(t.phs[k]) <= CondNames(t)
  {
  }
}
