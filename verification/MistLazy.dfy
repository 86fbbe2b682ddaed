/**
  Evaluation is lazy: it evaluates what is used, and nothing else. Branches that no value of
  their condition chooses are left alone.
*/
module MistLazy {
  import opened Options
  import opened MistValues
  import opened MistTemplates
  import opened MistMeaning

  /** The template at the end of `path` uses `m`, with the values it saw; it has seen to all that it uses. */
  ghost predicate UsesIt(tpls: map<string, Template>, r: State, path: seq<string>, m: string) {
    && path != [] && path[|path| - 1] in tpls && path[|path| - 1] in r.seen
    && m in Uses(tpls[path[|path| - 1]], Seen(r.vals, path))
    && Uses(tpls[path[|path| - 1]], Seen(r.vals, path)) <= r.seen
    && WfTemplate(tpls[path[|path| - 1]])
  }

  /** Below `path`, somebody whose evaluation began after `s` uses `m`. */
  ghost predicate UsedBelow(tpls: map<string, Template>, s: State, r: State, path: seq<string>, m: string) {
    exists q :: path < q && q[|q| - 1] !in s.seen && UsesIt(tpls, r, q, m)
  }

  /** At `path` or below. */
  ghost predicate UsedFrom(tpls: map<string, Template>, s: State, r: State, path: seq<string>, m: string) {
    exists q :: path <= q && q != [] && q[|q| - 1] !in s.seen && UsesIt(tpls, r, q, m)
  }

  /** What is being evaluated has no values. */
  ghost predicate Pending(s: State, path: seq<string>) {
    forall n :: n in path ==> n in s.seen && n in s.vals && s.vals[n] == []
  }

  /**
    What had been seen keeps its values; `used` has been seen to; all that is new is in `used` or used by what
    is new.
  */
  ghost predicate OnlyUsed(tpls: map<string, Template>, s: State, r: State, path: seq<string>, used: set<string>) {
    && r.ok && s.seen <= r.seen && r.vals.Keys == s.vals.Keys && used <= r.seen
    && (forall n :: n in s.seen && n in s.vals ==> r.vals[n] == s.vals[n])
    && forall m :: m in r.seen && m !in s.seen ==> m in used || UsedBelow(tpls, s, r, path, m)
  }

  // ---------------------------------------------------------------- putting steps together

  lemma UsesStay(tpls: map<string, Template>, s: State, r: State, q: seq<string>, m: string)
    requires UsesIt(tpls, s, q, m) && s.seen <= r.seen && r.vals.Keys == s.vals.Keys
    requires forall n :: n in s.seen && n in s.vals ==> r.vals[n] == s.vals[n]
    ensures UsesIt(tpls, r, q, m)
  {
    hide Uses, WfTemplate, TplVals, Decided;
    var t := tpls[q[|q| - 1]];
    forall n | n in Uses(t, Seen(s.vals, q)) ensures Look(Seen(s.vals, q), n) == Look(Seen(r.vals, q), n) {
    }
    AgreeTpl(t, Seen(s.vals, q), Seen(r.vals, q));
  }

  /** Two steps one after the other. */
  lemma OnlyUsedTwice(tpls: map<string, Template>, s: State, s1: State, r: State, path: seq<string>,
      used1: set<string>, used2: set<string>)
    requires OnlyUsed(tpls, s, s1, path, used1) && OnlyUsed(tpls, s1, r, path, used2)
    ensures OnlyUsed(tpls, s, r, path, used1 + used2)
  {
    hide UsesIt;
    forall m | m in r.seen && m !in s.seen ensures m in used1 + used2 || UsedBelow(tpls, s, r, path, m) {
      if m in s1.seen {
        if m !in used1 {
          var q :| path < q && q[|q| - 1] !in s.seen && UsesIt(tpls, s1, q, m);
          UsesStay(tpls, s1, r, q, m);
        }
      } else if m !in used2 {
        var q :| path < q && q[|q| - 1] !in s1.seen && UsesIt(tpls, r, q, m);
      }
    }
  }

  lemma OnlyUsedNot(tpls: map<string, Template>, s: State, path: seq<string>)
    requires s.ok
    ensures OnlyUsed(tpls, s, s, path, {})
  {
  }

  lemma PendingStays(tpls: map<string, Template>, s: State, r: State, path: seq<string>, used: set<string>)
    requires Pending(s, path) && OnlyUsed(tpls, s, r, path, used)
    ensures Pending(r, path)
  {
  }

  /** More may be said to be used if it has been seen to. */
  lemma OnlyUsedMore(tpls: map<string, Template>, s: State, r: State, path: seq<string>, used: set<string>,
      more: set<string>)
    requires OnlyUsed(tpls, s, r, path, used) && used <= more <= r.seen
    ensures OnlyUsed(tpls, s, r, path, more)
  {
    hide UsedBelow;
  }

  // ---------------------------------------------------------------- the evaluation

  ghost function UsesUpto(t: Template, k: nat, env: Env): set<string>
    requires k <= |t.phs|
  {
    set i, n | 0 <= i < k && n in PhUses(t.phs[i], env) :: n
  }

  lemma UsesUptoNext(t: Template, k: nat, env: Env)
    requires k < |t.phs|
    ensures UsesUpto(t, k + 1, env) == UsesUpto(t, k, env) + PhUses(t.phs[k], env)
    ensures UsesUpto(t, |t.phs|, env) == Uses(t, env) && UsesUpto(t, 0, env) == {}
  {
    hide PhUses;
  }

  /** What has been seen to is used just the same later. */
  lemma UptoStays(t: Template, k: nat, e1: Env, e2: Env)
    requires WfTemplate(t) && k <= |t.phs|
    requires forall n :: n in UsesUpto(t, k, e1) ==> Look(e1, n) == Look(e2, n)
    ensures UsesUpto(t, k, e2) == UsesUpto(t, k, e1)
  {
    hide PhUses, PhVals, PhDecided, WfPlaceholder;
    forall i | 0 <= i < k ensures PhUses(t.phs[i], e1) == PhUses(t.phs[i], e2) {
      assert forall n :: n in PhUses(t.phs[i], e1) ==> n in UsesUpto(t, k, e1);
      WfPart(t, i);
      AgreePh(t.phs[i], e1, e2);
    }
  }

  lemma WfPart(t: Template, i: nat)
    requires WfTemplate(t) && i < |t.phs|
    ensures WfPlaceholder(t.phs[i])
  {
  }

  lemma {:induction false} RunOnlyUsed(tpls: map<string, Template>, s: State, path: seq<string>, n: string)
    requires Ready(tpls, s) && n in tpls && Pending(s, path) && Run(tpls, s, n).ok
    ensures OnlyUsed(tpls, s, Run(tpls, s, n), path, {n})
    ensures var r := Run(tpls, s, n);
      n in r.seen && forall m :: m in r.seen && m !in s.seen && m != n ==> UsedFrom(tpls, s, r, path + [n], m)
    decreases |tpls.Keys - s.seen|, 0
  {
    hide Run, WfGroup, RunWhole, OnlyUsed, Pending, UsedFrom;
    if n in s.seen {
      RunAgain(tpls, s, n);
      OnlyUsedNot(tpls, s, path);
      OnlyUsedMore(tpls, s, s, path, {}, {n});
    } else if IsAttr(tpls[n]) {
      RunAttr(tpls, s, n);
      AttrOnly(tpls, s, path, n);
    } else {
      RunOwn(tpls, s, n);
      OneLess(tpls.Keys, s.seen, n);
      var s2 := State(true, s.vals[n := []], s.seen + {n});
      var r := RunWhole(tpls, s2, tpls[n]);
      PendingMore(s, s2, path, n);
      WholeOnlyUsed(tpls, s2, path + [n], tpls[n]);
      OwnOnly(tpls, s, path, n, r);
    }
  }

  lemma AttrOnly(tpls: map<string, Template>, s: State, path: seq<string>, n: string)
    requires Ready(tpls, s) && n in tpls && n !in s.seen && IsAttr(tpls[n])
    ensures OnlyUsed(tpls, s, State(true, s.vals[n := if s.vals[n] == [] then [""] else s.vals[n]], s.seen + {n}),
      path, {n})
  {
    hide WfGroup;
  }

  lemma PendingMore(s: State, s2: State, path: seq<string>, n: string)
    requires Pending(s, path) && s2.seen == s.seen + {n} && s2.vals == s.vals[n := []]
    ensures Pending(s2, path + [n])
  {
    assert forall k :: k in path + [n] ==> k in path || k == n;
  }

  /** A template of its own: what it uses is used below it. */
  lemma OwnOnly(tpls: map<string, Template>, s: State, path: seq<string>, n: string, r: State)
    requires Ready(tpls, s) && n in tpls && n !in s.seen && WfTemplate(tpls[n]) && Pending(s, path)
    requires var s2 := State(true, s.vals[n := []], s.seen + {n});
      OnlyUsed(tpls, s2, r, path + [n], Uses(tpls[n], r.vals))
    ensures var r2 := r.(vals := r.vals[n := TplVals(tpls[n], r.vals)]);
      && OnlyUsed(tpls, s, r2, path, {n})
      && forall m :: m in r2.seen && m !in s.seen && m != n ==> UsedFrom(tpls, s, r2, path + [n], m)
  {
    hide WfGroup, WfTemplate, Uses, TplVals, UsesIt, UsedFrom, UsedBelow;
    var s2 := State(true, s.vals[n := []], s.seen + {n});
    var r2 := r.(vals := r.vals[n := TplVals(tpls[n], r.vals)]);
    forall m | m in r2.seen && m !in s.seen && m != n
      ensures UsedFrom(tpls, s, r2, path + [n], m) && UsedBelow(tpls, s, r2, path, m)
    {
      OwnUses(tpls, s, path, n, r, m);
      FromBelow(tpls, s, r2, path, n, m);
    }
  }

  lemma FromBelow(tpls: map<string, Template>, s: State, r: State, path: seq<string>, n: string, m: string)
    requires UsedFrom(tpls, s, r, path + [n], m)
    ensures UsedBelow(tpls, s, r, path, m)
  {
    hide UsesIt;
    var q :| path + [n] <= q && q != [] && q[|q| - 1] !in s.seen && UsesIt(tpls, r, q, m);
    assert path < q;
  }

  lemma OwnUses(tpls: map<string, Template>, s: State, path: seq<string>, n: string, r: State, m: string)
    requires Ready(tpls, s) && n in tpls && n !in s.seen && WfTemplate(tpls[n]) && Pending(s, path)
    requires var s2 := State(true, s.vals[n := []], s.seen + {n});
      OnlyUsed(tpls, s2, r, path + [n], Uses(tpls[n], r.vals))
    requires m in r.seen && m !in s.seen && m != n
    ensures UsedFrom(tpls, s, r.(vals := r.vals[n := TplVals(tpls[n], r.vals)]), path + [n], m)
  {
    hide WfGroup, WfTemplate, Uses, TplVals, UsesIt;
    var s2 := State(true, s.vals[n := []], s.seen + {n});
    var r2 := r.(vals := r.vals[n := TplVals(tpls[n], r.vals)]);
    var p := path + [n];
    assert p[|p| - 1] == n && n in s2.seen;
    if m in Uses(tpls[n], r.vals) {
      OwnSees(tpls, s, path, n, r);
      UsesHere(tpls, r2, p, n, m);
      assert p <= p && UsesIt(tpls, r2, p, m);
    } else {
      var q :| p < q && q[|q| - 1] !in s2.seen && UsesIt(tpls, r, q, m);
      assert n in q by { assert q[|path|] == n; }
      UsesHidden(tpls, r, r2, q, n, m);
      assert p <= q && UsesIt(tpls, r2, q, m);
    }
  }

  /** While a template is evaluated it sees the values that are there. */
  lemma OwnSees(tpls: map<string, Template>, s: State, path: seq<string>, n: string, r: State)
    requires Ready(tpls, s) && n in tpls && n !in s.seen && WfTemplate(tpls[n]) && Pending(s, path)
    requires var s2 := State(true, s.vals[n := []], s.seen + {n});
      OnlyUsed(tpls, s2, r, path + [n], Uses(tpls[n], r.vals))
    ensures Seen(r.vals[n := TplVals(tpls[n], r.vals)], path + [n]) == r.vals
  {
    hide WfGroup, WfTemplate, Uses, TplVals, UsedBelow;
    var s2 := State(true, s.vals[n := []], s.seen + {n});
    var p := path + [n];
    forall k | k in p && k in r.vals ensures r.vals[k] == [] {
      assert k in path || k == n;
      assert k in s2.seen && k in s2.vals && s2.vals[k] == [];
    }
  }

  lemma UsesHere(tpls: map<string, Template>, r: State, p: seq<string>, n: string, m: string)
    requires p != [] && p[|p| - 1] == n && n in tpls && n in r.seen && WfTemplate(tpls[n])
    requires m in Uses(tpls[n], Seen(r.vals, p)) && Uses(tpls[n], Seen(r.vals, p)) <= r.seen
    ensures UsesIt(tpls, r, p, m)
  {
  }

  /** A value that is hidden does not matter. */
  lemma UsesHidden(tpls: map<string, Template>, r: State, r2: State, q: seq<string>, n: string, m: string)
    requires UsesIt(tpls, r, q, m) && n in q && r2.seen == r.seen && n in r.vals
    requires r2.vals == r.vals[n := if n in r2.vals then r2.vals[n] else []]
    ensures UsesIt(tpls, r2, q, m)
  {
    hide Uses, WfTemplate;
    assert Seen(r2.vals, q) == Seen(r.vals, q);
  }

  lemma {:induction false} WholeOnlyUsed(tpls: map<string, Template>, s: State, path: seq<string>, t: Template)
    requires Ready(tpls, s) && WfTemplate(t) && Names(t) <= tpls.Keys && Pending(s, path) && RunWhole(tpls, s, t).ok
    ensures OnlyUsed(tpls, s, RunWhole(tpls, s, t), path, Uses(t, RunWhole(tpls, s, t).vals))
    decreases |tpls.Keys - s.seen|, 1, t, 1
  {
    hide RunBody, WfGroup, WfTemplate, Names, OnlyUsed, Pending, Uses;
    BodyOnlyUsed(tpls, s, path, t, |t.phs|);
    UsesAll(t, RunWhole(tpls, s, t).vals);
  }

  lemma UsesAll(t: Template, env: Env)
    ensures UsesUpto(t, |t.phs|, env) == Uses(t, env)
  {
    hide PhUses;
  }

  lemma {:induction false} BodyOnlyUsed(tpls: map<string, Template>, s: State, path: seq<string>, t: Template, k: nat)
    requires Ready(tpls, s) && WfTemplate(t) && Names(t) <= tpls.Keys && k <= |t.phs|
    requires Pending(s, path) && RunBody(tpls, s, t, k).ok
    ensures OnlyUsed(tpls, s, RunBody(tpls, s, t, k), path, UsesUpto(t, k, RunBody(tpls, s, t, k).vals))
    decreases |tpls.Keys - s.seen|, 1, t, 0, k
  {
    hide RunBody, RunPlaceholder, WfGroup, WfTemplate, WfPlaceholder, Names, PhNames, OnlyUsed, Pending, UsesUpto,
      PhUses;
    if k == 0 {
      RunNone(tpls, s, t);
      NoUses(t, s.vals);
      OnlyUsedNot(tpls, s, path);
    } else {
      var s1 := RunBody(tpls, s, t, k - 1);
      RunFails(tpls, s, t, k - 1, k);
      BodyOnlyUsed(tpls, s, path, t, k - 1);
      RunNext(tpls, s, t, k - 1);
      NoMoreLeft(tpls.Keys, s.seen, s1.seen);
      PendingStays(tpls, s, s1, path, UsesUpto(t, k - 1, s1.vals));
      PlaceholderOnlyUsed(tpls, s1, path, t.phs[k - 1]);
      var r := RunPlaceholder(tpls, s1, t.phs[k - 1]);
      OnlyUsedTwice(tpls, s, s1, r, path, UsesUpto(t, k - 1, s1.vals), PhUses(t.phs[k - 1], r.vals));
      UptoLater(tpls, s, s1, r, path, t, k - 1);
      UsesUptoNext(t, k - 1, r.vals);
    }
  }

  lemma NoUses(t: Template, env: Env)
    ensures UsesUpto(t, 0, env) == {}
  {
  }

  lemma UptoLater(tpls: map<string, Template>, s: State, s1: State, r: State, path: seq<string>, t: Template, k: nat)
    requires WfTemplate(t) && k < |t.phs|
    requires OnlyUsed(tpls, s, s1, path, UsesUpto(t, k, s1.vals))
    requires OnlyUsed(tpls, s1, r, path, PhUses(t.phs[k], r.vals))
    ensures UsesUpto(t, k, r.vals) == UsesUpto(t, k, s1.vals)
  {
    hide UsesUpto, PhUses, WfTemplate, UsedBelow;
    forall n | n in UsesUpto(t, k, s1.vals) ensures Look(s1.vals, n) == Look(r.vals, n) {
    }
    UptoStays(t, k, s1.vals, r.vals);
  }

  lemma {:induction false} PlaceholderOnlyUsed(tpls: map<string, Template>, s: State, path: seq<string>, p: Placeholder)
    requires Ready(tpls, s) && WfPlaceholder(p) && PhNames(p) <= tpls.Keys
    requires Pending(s, path) && RunPlaceholder(tpls, s, p).ok
    ensures OnlyUsed(tpls, s, RunPlaceholder(tpls, s, p), path, PhUses(p, RunPlaceholder(tpls, s, p).vals))
    decreases |tpls.Keys - s.seen|, 1, p, 1
  {
    hide Run, RunWhole, RunChosen, RunPlaceholder, WfGroup, WfTemplate, Names, OnlyUsed, Pending, Uses, TakesThen,
      TakesElse;
    hide PhUses, ChosenUses;
    RunParts(tpls, s, p);
    var s1 := Run(tpls, s, p.name);
    var r := RunPlaceholder(tpls, s, p);
    assert s1.ok;
    RunOnlyUsed(tpls, s, path, p.name);
    if p.Cond? {
      var cond := s1.vals[p.name];
      NoMoreLeft(tpls.Keys, s.seen, s1.seen);
      PendingStays(tpls, s, s1, path, {p.name});
      if p.concat {
        var t := if TakesThen(cond) then p.tplThen else p.tplElse;
        WholeOnlyUsed(tpls, s1, path, t);
        OnlyUsedTwice(tpls, s, s1, r, path, {p.name}, Uses(t, r.vals));
        SeenLook(tpls, s1, r, path, Uses(t, r.vals), p.name);
        PhUsesIs(p, r.vals, cond);
      } else {
        ChosenOnlyUsed(tpls, s1, path, p, cond, |cond|);
        assert cond[..|cond|] == cond;
        OnlyUsedTwice(tpls, s, s1, r, path, {p.name}, ChosenUses(p, cond, r.vals));
        SeenLook(tpls, s1, r, path, ChosenUses(p, cond, r.vals), p.name);
        PhUsesIs(p, r.vals, cond);
      }
    } else {
      PhUsesIs(p, r.vals, []);
    }
  }

  lemma PhUsesIs(p: Placeholder, env: Env, cond: seq<string>)
    requires p.Cond? ==> Look(env, p.name) == cond != []
    ensures !p.Cond? ==> PhUses(p, env) == {p.name}
    ensures p.Cond? ==>
      PhUses(p, env) == {p.name} +
      if p.concat then Uses(if TakesThen(cond) then p.tplThen else p.tplElse, env)
      else ChosenUses(p, cond, env)
  {
    hide Uses;
    if p.Cond? {
      ConcatTakes(cond);
    }
  }

  lemma SeenLook(tpls: map<string, Template>, s: State, r: State, path: seq<string>, used: set<string>, n: string)
    requires OnlyUsed(tpls, s, r, path, used) && n in s.seen && n in s.vals
    ensures Look(r.vals, n) == s.vals[n]
  {
  }

  lemma ConcatTakes(cond: seq<string>)
    requires cond != []
    ensures TakesElse(cond, true) <==> !TakesThen(cond)
  {
  }

  /** What the chosen branches use. */
  ghost function ChosenUses(p: Placeholder, cond: seq<string>, env: Env): set<string>
    requires p.Cond?
  {
    (if TakesThen(cond) then Uses(p.tplThen, env) else {}) + (if TakesElse(cond, false) then Uses(p.tplElse, env)
      else {})
  }

  lemma {:induction false} ChosenOnlyUsed(tpls: map<string, Template>, s: State, path: seq<string>, p: Placeholder,
      cond: seq<string>, c: nat)
    requires Ready(tpls, s) && WfPlaceholder(p) && p.Cond? && PhNames(p) <= tpls.Keys && c <= |cond|
    requires Pending(s, path) && RunChosen(tpls, s, p, cond, c).ok
    ensures OnlyUsed(tpls, s, RunChosen(tpls, s, p, cond, c), path,
      ChosenUses(p, cond[..c], RunChosen(tpls, s, p, cond, c).vals))
    decreases |tpls.Keys - s.seen|, 1, p, 0, c
  {
    hide RunWhole, RunChosen, WfGroup, WfTemplate, Names, OnlyUsed, Pending, Uses, TakesThen, TakesElse, ChosenUses;
    if c == 0 {
      RunNoneChosen(tpls, s, p, cond);
      OnlyUsedNot(tpls, s, path);
      NoneChosenUses(p, cond, s.vals);
    } else {
      var s1 := RunChosen(tpls, s, p, cond, c - 1);
      RunChosenFails(tpls, s, p, cond, c - 1, c);
      ChosenOnlyUsed(tpls, s, path, p, cond, c - 1);
      RunChosenNext(tpls, s, p, cond, c - 1);
      var r := RunChosen(tpls, s, p, cond, c);
      var used := ChosenUses(p, cond[..c - 1], s1.vals);
      ChosenUsesNext(p, cond, c - 1, r.vals);
      var first := cond[c - 1] != "";
      if !(if first then TakesThen(cond[..c - 1]) else TakesElse(cond[..c - 1], false)) {
        NoMoreLeft(tpls.Keys, s.seen, s1.seen);
        PendingStays(tpls, s, s1, path, used);
        var t := if first then p.tplThen else p.tplElse;
        WholeOnlyUsed(tpls, s1, path, t);
        OnlyUsedTwice(tpls, s, s1, r, path, used, Uses(t, r.vals));
        ChosenLater(tpls, s, s1, r, path, p, cond[..c - 1], Uses(t, r.vals));
      }
    }
  }

  lemma NoneChosenUses(p: Placeholder, cond: seq<string>, env: Env)
    requires p.Cond?
    ensures ChosenUses(p, cond[..0], env) == {}
  {
    hide Uses;
  }

  lemma ChosenUsesNext(p: Placeholder, cond: seq<string>, c: nat, env: Env)
    requires p.Cond? && c < |cond|
    ensures ChosenUses(p, cond[..c + 1], env) ==
      ChosenUses(p, cond[..c], env) + Uses(if cond[c] != "" then p.tplThen else p.tplElse, env)
    ensures (if cond[c] != "" then TakesThen(cond[..c]) else TakesElse(cond[..c], false)) ==>
      ChosenUses(p, cond[..c + 1], env) == ChosenUses(p, cond[..c], env)
  {
    hide Uses;
    assert cond[..c + 1] == cond[..c] + [cond[c]];
    assert TakesThen(cond[..c + 1]) == (TakesThen(cond[..c]) || cond[c] != "");
    assert TakesElse(cond[..c + 1], false) == (TakesElse(cond[..c], false) || cond[c] == "");
  }

  lemma ChosenLater(tpls: map<string, Template>, s: State, s1: State, r: State, path: seq<string>, p: Placeholder,
      cond: seq<string>, more: set<string>)
    requires WfPlaceholder(p) && p.Cond?
    requires OnlyUsed(tpls, s, s1, path, ChosenUses(p, cond, s1.vals)) && OnlyUsed(tpls, s1, r, path, more)
    ensures ChosenUses(p, cond, r.vals) == ChosenUses(p, cond, s1.vals)
  {
    hide Uses, WfTemplate, TakesThen, TakesElse, UsedBelow, TplVals, Decided;
    forall n | n in ChosenUses(p, cond, s1.vals) ensures Look(s1.vals, n) == Look(r.vals, n) {
    }
    if TakesThen(cond) {
      AgreeTpl(p.tplThen, s1.vals, r.vals);
    }
    if TakesElse(cond, false) {
      AgreeTpl(p.tplElse, s1.vals, r.vals);
    }
  }

  // ---------------------------------------------------------------- a whole group

  /** Some template, evaluated on a way from the main one, uses `m`. */
  ghost predicate Needed(tpls: map<string, Template>, r: State, main: string, m: string) {
    m == main || exists q :: q != [] && q[0] == main && UsesIt(tpls, r, q, m)
  }

  /** After a success nothing has been evaluated but the main template and what is used. */
  lemma OnlyNeeded(tpls: map<string, Template>, given: Env, main: string)
    requires WfGroup(tpls) && given.Keys == tpls.Keys && main in tpls
    ensures var r := Run(tpls, State(true, given, {}), main);
      r.ok ==> main in r.seen && forall m :: m in r.seen ==> Needed(tpls, r, main, m)
  {
    hide Run, WfGroup, UsesIt;
    var s := State(true, given, {});
    var r := Run(tpls, s, main);
    if r.ok {
      RunOnlyUsed(tpls, s, [], main);
      forall m | m in r.seen && m != main ensures Needed(tpls, r, main, m) {
        var q :| [] + [main] <= q && q != [] && q[|q| - 1] !in s.seen && UsesIt(tpls, r, q, m);
        assert q[0] == ([] + [main])[0];
      }
    }
  }
}
