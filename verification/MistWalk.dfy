/**
  When evaluation fails. A group may refer to itself; what evaluation cannot do is to
  choose by a condition that is still being evaluated. Where branches refer to nothing,
  whether that happens is a matter of the references alone: a walk through them tells.
*/
module MistWalk {
  import opened Options
  import opened MistValues
  import opened MistTemplates
  import opened MistMeaning

  /** Branches that refer to nothing. */
  predicate Literal(t: Template) {
    forall i :: 0 <= i < |t.phs| && t.phs[i].Cond? ==> Names(t.phs[i].tplThen) == {} && Names(t.phs[i].tplElse) == {}
  }

  ghost predicate LiteralGroup(tpls: map<string, Template>) {
    forall n :: n in tpls ==> Literal(tpls[n])
  }

  /** Where a walk has been; not `ok` if it met a condition on its own path. */
  datatype Trail = Trail(ok: bool, seen: set<string>)

  /** Depth first through the references of a template in their order; nothing is entered twice. */
  function Walk(tpls: map<string, Template>, path: seq<string>, seen: set<string>, n: string): (w: Trail)
    requires WfGroup(tpls) && seen <= tpls.Keys && n in tpls
    ensures seen <= w.seen <= tpls.Keys
    decreases |tpls.Keys - seen|, 0
  {
    if n in seen then Trail(true, seen)
    else
      OneLess(tpls.Keys, seen, n);
      WalkBody(tpls, path + [n], seen + {n}, tpls[n], |tpls[n].phs|)
  }

  function WalkBody(tpls: map<string, Template>, path: seq<string>, seen: set<string>, t: Template, k: nat): (w: Trail)
    requires WfGroup(tpls) && seen <= tpls.Keys && Names(t) <= tpls.Keys && k <= |t.phs|
    ensures seen <= w.seen <= tpls.Keys
    decreases |tpls.Keys - seen|, 1, k
  {
    if k == 0 then Trail(true, seen)
    else
      var w := WalkBody(tpls, path, seen, t, k - 1);
      if !w.ok then w
      else
        NoMoreLeft(tpls.Keys, seen, w.seen);
        var p := t.phs[k - 1];
        NamesOfPart(t, k - 1);
        var next := Walk(tpls, path, w.seen, p.name);
        if p.Cond? && p.name in path then next.(ok := false) else next
  }

  /** What is being evaluated has no values, what has been evaluated has some. */
  ghost predicate Consistent(s: State, path: seq<string>) {
    && (forall n :: n in path ==> n in s.seen)
    && (forall n :: n in s.seen ==> n in s.vals && (s.vals[n] == [] <==> n in path))
  }

  /** The walk goes as the evaluation does. */
  ghost predicate Alike(r: State, w: Trail, path: seq<string>) {
    r.ok == w.ok && (r.ok ==> r.seen == w.seen && Consistent(r, path))
  }

  lemma {:induction false} WalkIsRun(tpls: map<string, Template>, s: State, path: seq<string>, n: string)
    requires Ready(tpls, s) && LiteralGroup(tpls) && n in tpls && Consistent(s, path)
    ensures Alike(Run(tpls, s, n), Walk(tpls, path, s.seen, n), path)
    decreases |tpls.Keys - s.seen|, 0
  {
    hide TplVals, WfGroup, WfTemplate, Names, RunBody, WalkBody, Literal;
    if n !in s.seen {
      InGroup(tpls, n);
      OneLess(tpls.Keys, s.seen, n);
      var t := tpls[n];
      var s2 := State(true, s.vals[n := []], s.seen + {n});
      if IsAttr(t) {
        WalkNone(tpls, path + [n], s2.seen, t);
      } else {
        BodyIsRun(tpls, s2, path + [n], t, |t.phs|);
        GetsValues(RunBody(tpls, s2, t, |t.phs|), path, n, t);
      }
    }
  }

  lemma InGroup(tpls: map<string, Template>, n: string)
    requires WfGroup(tpls) && n in tpls
    ensures Names(tpls[n]) <= tpls.Keys && (IsAttr(tpls[n]) || WfTemplate(tpls[n]))
  {
  }

  lemma GetsValues(r: State, path: seq<string>, n: string, t: Template)
    requires WfTemplate(t) && n !in path
    requires r.ok ==> Consistent(r, path + [n])
    ensures r.ok ==> Consistent(r.(vals := r.vals[n := TplVals(t, r.vals)]), path)
  {
    hide TplVals, WfTemplate;
    assert n in path + [n];
    assert forall k :: k in path + [n] <==> k in path || k == n;
  }

  lemma {:induction false} BodyIsRun(tpls: map<string, Template>, s: State, path: seq<string>, t: Template, k: nat)
    requires Ready(tpls, s) && LiteralGroup(tpls) && Consistent(s, path)
    requires WfTemplate(t) && Literal(t) && Names(t) <= tpls.Keys && k <= |t.phs|
    ensures Alike(RunBody(tpls, s, t, k), WalkBody(tpls, path, s.seen, t, k), path)
    decreases |tpls.Keys - s.seen|, 1, k
  {
    hide TplVals, WfGroup, Names, RunPlaceholder, Walk, Consistent, Literal, LiteralGroup, WfTemplate, WfPlaceholder;
    hide RunBody, WalkBody;
    if k == 0 {
      RunNone(tpls, s, t);
      WalkNone(tpls, path, s.seen, t);
    } else {
      BodyIsRun(tpls, s, path, t, k - 1);
      var r := RunBody(tpls, s, t, k - 1);
      RunFails(tpls, s, t, k - 1, k);
      WalkNext(tpls, path, s.seen, t, k - 1);
      if r.ok {
        RunNext(tpls, s, t, k - 1);
        NoMoreLeft(tpls.Keys, s.seen, r.seen);
        PartOf(t, k - 1);
        WalkIsRun(tpls, r, path, t.phs[k - 1].name);
        PlaceholderIsRun(tpls, r, path, t.phs[k - 1]);
      }
    }
  }

  lemma WalkNone(tpls: map<string, Template>, path: seq<string>, seen: set<string>, t: Template)
    requires WfGroup(tpls) && seen <= tpls.Keys && Names(t) <= tpls.Keys
    ensures WalkBody(tpls, path, seen, t, 0) == Trail(true, seen)
  {
  }

  lemma WalkNext(tpls: map<string, Template>, path: seq<string>, seen: set<string>, t: Template, k: nat)
    requires WfGroup(tpls) && seen <= tpls.Keys && Names(t) <= tpls.Keys && k < |t.phs|
    ensures t.phs[k].name in tpls
    ensures var w, p := WalkBody(tpls, path, seen, t, k), t.phs[k];
      WalkBody(tpls, path, seen, t, k + 1) ==
        if !w.ok then w
        else var next := Walk(tpls, path, w.seen, p.name);
          if p.Cond? && p.name in path then next.(ok := false) else next
  {
    hide WfGroup, Names, PhNames, Walk;
    NamesOfPart(t, k);
    NameIn(tpls, t.phs[k]);
  }

  lemma PartOf(t: Template, k: nat)
    requires WfTemplate(t) && Literal(t) && k < |t.phs|
    ensures WfPlaceholder(t.phs[k])
    ensures t.phs[k].Cond? ==> Names(t.phs[k].tplThen) == {} && Names(t.phs[k].tplElse) == {}
  {
  }

  lemma NameIn(tpls: map<string, Template>, p: Placeholder)
    requires PhNames(p) <= tpls.Keys
    ensures p.name in tpls
  {
    assert p.name in PhNames(p);
  }

  /** A condition decides here: it has no value exactly if it is on the path. */
  lemma PlaceholderIsRun(tpls: map<string, Template>, s: State, path: seq<string>, p: Placeholder)
    requires Ready(tpls, s) && Consistent(s, path) && WfPlaceholder(p) && PhNames(p) <= tpls.Keys && p.name in tpls
    requires p.Cond? ==> Names(p.tplThen) == {} && Names(p.tplElse) == {}
    requires Alike(Run(tpls, s, p.name), Walk(tpls, path, s.seen, p.name), path)
    ensures var w := Walk(tpls, path, s.seen, p.name);
      Alike(RunPlaceholder(tpls, s, p), if p.Cond? && p.name in path then w.(ok := false) else w, path)
  {
    hide TplVals, WfGroup, WfTemplate, Names, Run, Walk, RunBody, RunWhole, RunChosen, TakesThen, TakesElse;
    var r := Run(tpls, s, p.name);
    if r.ok && p.Cond? && r.vals[p.name] != [] {
      BranchesRunNothing(tpls, r, p, r.vals[p.name]);
    }
  }

  /** Evaluating branches that refer to nothing changes nothing. */
  lemma BranchesRunNothing(tpls: map<string, Template>, s: State, p: Placeholder, cond: seq<string>)
    requires Ready(tpls, s) && WfPlaceholder(p) && p.Cond? && PhNames(p) <= tpls.Keys
    requires Names(p.tplThen) == {} && Names(p.tplElse) == {}
    ensures RunWhole(tpls, s, p.tplThen) == s && RunWhole(tpls, s, p.tplElse) == s
    ensures RunChosen(tpls, s, p, cond, |cond|) == s
  {
    hide WfGroup, Names, RunWhole, RunChosen;
    RunsNothing(tpls, s, p.tplThen);
    RunsNothing(tpls, s, p.tplElse);
    ChosenRunNothing(tpls, s, p, cond, |cond|);
  }

  lemma {:induction false} ChosenRunNothing(tpls: map<string, Template>, s: State, p: Placeholder, cond: seq<string>,
      c: nat)
    requires Ready(tpls, s) && WfPlaceholder(p) && p.Cond? && PhNames(p) <= tpls.Keys && c <= |cond|
    requires RunWhole(tpls, s, p.tplThen) == s && RunWhole(tpls, s, p.tplElse) == s
    ensures RunChosen(tpls, s, p, cond, c) == s
  {
    hide WfGroup, Names, RunWhole, TakesThen, TakesElse;
    if c > 0 {
      ChosenRunNothing(tpls, s, p, cond, c - 1);
    }
  }

  lemma RunsNothing(tpls: map<string, Template>, s: State, t: Template)
    requires Ready(tpls, s) && WfTemplate(t) && Names(t) == {}
    ensures RunWhole(tpls, s, t) == s
  {
    if t.phs != [] {
      HasName(t);
    }
  }

  lemma HasName(t: Template)
    requires t.phs != []
    ensures Names(t) != {}
  {
    assert t.phs[0].name in PhNames(t.phs[0]);
    assert t.phs[0].name in Names(t);
  }

  /**
    Where branches refer to nothing, evaluation fails exactly if the walk from the main
    template meets a condition on its own path, whatever values attributes have.
  */
  lemma LiteralFails(tpls: map<string, Template>, given: Env, main: string)
    requires WfGroup(tpls) && LiteralGroup(tpls) && given.Keys == tpls.Keys && main in tpls
    ensures Run(tpls, State(true, given, {}), main).ok <==> Walk(tpls, [], {}, main).ok
  {
    WalkIsRun(tpls, State(true, given, {}), [], main);
  }

  // ---------------------------------------------------------------- examples

  /** The text "x" if the condition has a value that is not empty. */
  function IfOn(name: string): Template {
    Template(["", ""], [Cond(name, false, Template(["x"], []), Template([""], []))])
  }

  function RefersTo(name: string): Template {
    Template(["", ""], [Plain(name)])
  }

  lemma ExampleTemplates(name: string)
    ensures WfTemplate(IfOn(name)) && Names(IfOn(name)) == {name} && Literal(IfOn(name))
    ensures WfTemplate(RefersTo(name)) && Names(RefersTo(name)) == {name} && Literal(RefersTo(name))
  {
    OneName(IfOn(name));
    OneName(RefersTo(name));
    NoName(Template(["x"], []));
    NoName(Template([""], []));
  }

  lemma NoName(t: Template)
    requires t.phs == []
    ensures Names(t) == {}
  {
  }

  lemma OneName(t: Template)
    requires |t.phs| == 1 && (t.phs[0].Cond? ==> t.phs[0].tplThen.phs == t.phs[0].tplElse.phs == [])
    ensures Names(t) == {t.phs[0].name}
  {
    var p := t.phs[0];
    if p.Cond? {
      NoName(p.tplThen);
      NoName(p.tplElse);
    }
    forall n ensures n in Names(t) <==> n == p.name {
      assert n in PhNames(p) <==> n == p.name;
      assert n in Names(t) <==> n in PhNames(t.phs[0]);
    }
  }

  /** A template with a single reference, walked for the first time. */
  lemma WalkOne(tpls: map<string, Template>, path: seq<string>, seen: set<string>, n: string)
    requires WfGroup(tpls) && seen <= tpls.Keys && n in tpls && n !in seen && |tpls[n].phs| == 1
    ensures tpls[n].phs[0].name in tpls
    ensures var p := tpls[n].phs[0];
      var w := Walk(tpls, path + [n], seen + {n}, p.name);
      Walk(tpls, path, seen, n) == if p.Cond? && p.name in path + [n] then w.(ok := false) else w
  {
    InGroup(tpls, n);
    NamesOfPart(tpls[n], 0);
    NameIn(tpls, tpls[n].phs[0]);
    assert WalkBody(tpls, path + [n], seen + {n}, tpls[n], 0) == Trail(true, seen + {n});
  }

  /** A template that is conditional on itself: evaluating it fails, although recursion is said to be harmless. */
  lemma IfOnItself(given: Env)
    requires given.Keys == {"A"}
    ensures var tpls := map["A" := IfOn("A")];
      WfGroup(tpls) && !Run(tpls, State(true, given, {}), "A").ok
  {
    ExampleTemplates("A");
    var tpls := map["A" := IfOn("A")];
    WalkOne(tpls, [], {}, "A");
    LiteralFails(tpls, given, "A");
  }

  /** It fails as well when another template refers to it. */
  lemma RefersToIfOnItself(given: Env)
    requires given.Keys == {"A", "M"}
    ensures var tpls := map["A" := IfOn("A"), "M" := RefersTo("A")];
      WfGroup(tpls) && !Run(tpls, State(true, given, {}), "M").ok
  {
    ExampleTemplates("A");
    var tpls := map["A" := IfOn("A"), "M" := RefersTo("A")];
    WalkOne(tpls, [], {}, "M");
    WalkOne(tpls, ["M"], {"M"}, "A");
    LiteralFails(tpls, given, "M");
  }

  const TURNING := map["N" := IfOn("K"), "K" := RefersTo("N")]

  lemma TurningOk()
    ensures WfGroup(TURNING) && LiteralGroup(TURNING)
    ensures TURNING["N"].phs[0].name == "K" && TURNING["K"].phs[0].name == "N"
    ensures |TURNING["N"].phs| == |TURNING["K"].phs| == 1
    ensures TURNING["N"].phs[0].Cond? && TURNING["K"].phs[0].Plain?
  {
    ExampleTemplates("K");
    ExampleTemplates("N");
  }

  /** One and the same recursion through a condition, entered at two places: it depends on where one begins. */
  lemma WhereOneBegins(given: Env)
    requires given.Keys == {"K", "N"}
    ensures WfGroup(TURNING)
    ensures Run(TURNING, State(true, given, {}), "N").ok
    ensures !Run(TURNING, State(true, given, {}), "K").ok
  {
    hide Run, WfGroup, LiteralGroup, IfOn, RefersTo;
    TurningOk();
    WalkFromN();
    WalkFromK();
    LiteralFails(TURNING, given, "N");
    LiteralFails(TURNING, given, "K");
  }

  lemma WalkFromN()
    ensures WfGroup(TURNING) && Walk(TURNING, [], {}, "N").ok
  {
    hide WfGroup, LiteralGroup, IfOn, RefersTo, WalkBody;
    TurningOk();
    WalkOne(TURNING, [], {}, "N");
    var path, seen := [] + ["N"], {} + {"N"};
    WalkOne(TURNING, path, seen, "K");
    assert "N" in seen + {"K"};
    assert path == ["N"];
  }

  lemma WalkFromK()
    ensures WfGroup(TURNING) && !Walk(TURNING, [], {}, "K").ok
  {
    hide WfGroup, LiteralGroup, IfOn, RefersTo, WalkBody;
    TurningOk();
    WalkOne(TURNING, [], {}, "K");
    var path, seen := [] + ["K"], {} + {"K"};
    WalkOne(TURNING, path, seen, "N");
    assert path == ["K"] && "K" in path + ["N"];
  }

  // ---------------------------------------------------------------- where values decide

  /** Refers to `B` if the condition has a value that is not empty. */
  function RefersIf(name: string): Template {
    Template(["", ""], [Cond(name, false, RefersTo("B"), Template([""], []))])
  }

  /** `M` refers to `B`, which is conditional on itself, if the attribute `A` says so. */
  const ASKING := map["M" := RefersIf("A"), "A" := Template([], []), "B" := IfOn("B")]

  lemma AskingOk()
    ensures WfGroup(ASKING) && IsAttr(ASKING["A"]) && ASKING.Keys == {"A", "B", "M"}
    ensures ASKING["B"].phs == [IfOn("B").phs[0]] && ASKING["M"].phs == [RefersIf("A").phs[0]]
    ensures WfTemplate(RefersTo("B")) && Names(RefersTo("B")) == {"B"}
    ensures WfTemplate(Template([""], [])) && Names(Template([""], [])) == {}
    ensures !IsAttr(ASKING["B"]) && !IsAttr(ASKING["M"])
  {
    ExampleTemplates("B");
    var t, p := RefersIf("A"), RefersIf("A").phs[0];
    assert t.phs == [p] && p.tplThen == RefersTo("B") && p.tplElse == Template([""], []);
    assert Names(p.tplElse) == {};
    assert PhNames(p) == {"A", "B"};
    assert Names(t) == {"A", "B"} by {
      assert forall n :: n in Names(t) <==> n in PhNames(t.phs[0]);
    }
  }

  lemma RunSingle(tpls: map<string, Template>, s: State, t: Template)
    requires Ready(tpls, s) && WfTemplate(t) && Names(t) <= tpls.Keys && |t.phs| == 1
    ensures WfPlaceholder(t.phs[0]) && PhNames(t.phs[0]) <= tpls.Keys
    ensures RunWhole(tpls, s, t) == RunPlaceholder(tpls, s, t.phs[0])
  {
    hide RunBody, RunPlaceholder, WfTemplate, WfPlaceholder, Names, PhNames, Ready;
    RunNone(tpls, s, t);
    ReadyOk(tpls, s);
    RunNext(tpls, s, t, 0);
  }

  lemma ReadyOk(tpls: map<string, Template>, s: State)
    requires Ready(tpls, s)
    ensures s.ok
  {
  }

  lemma IfOnIs()
    ensures ASKING["B"].phs == [Cond("B", false, Template(["x"], []), Template([""], []))]
  {
  }

  lemma RefersToFails(s: State)
    requires WfGroup(ASKING) && Ready(ASKING, s) && "B" !in s.seen
    requires WfTemplate(RefersTo("B")) && Names(RefersTo("B")) <= ASKING.Keys
    ensures !RunWhole(ASKING, s, RefersTo("B")).ok
  {
    hide WfGroup, Names, PhNames, Run, RunWhole, RunPlaceholder, IfOn;
    AskingOk();
    RunSingle(ASKING, s, RefersTo("B"));
    RunParts(ASKING, s, RefersTo("B").phs[0]);
    RunOwn(ASKING, s, "B");
    var s2 := State(true, s.vals["B" := []], s.seen + {"B"});
    RunSingle(ASKING, s2, ASKING["B"]);
    RunParts(ASKING, s2, ASKING["B"].phs[0]);
    RunAgain(ASKING, s2, "B");
    IfOnIs();
  }

  /** Evaluating `M` fails or not as the value of the attribute is: references alone do not decide. */
  lemma ValuesDecide(given: Env, v: string)
    requires given.Keys == {"A", "B", "M"} && given["A"] == [v]
    ensures WfGroup(ASKING)
    ensures Run(ASKING, State(true, given, {}), "M").ok <==> v == ""
  {
    hide WfGroup, Names, PhNames, Run, RunWhole, RunPlaceholder, RunChosen, RefersTo, IfOn;
    AskingOk();
    var s := State(true, given, {});
    RunOwn(ASKING, s, "M");
    var s2 := State(true, given["M" := []], {} + {"M"});
    RunSingle(ASKING, s2, ASKING["M"]);
    var p := ASKING["M"].phs[0];
    assert p == Cond("A", false, RefersTo("B"), Template([""], []));
    RunParts(ASKING, s2, p);
    RunAttr(ASKING, s2, "A");
    var r := Run(ASKING, s2, "A");
    assert r.ok && r.vals["A"] == [v] && r.seen == {"M", "A"};
    RunNoneChosen(ASKING, r, p, [v]);
    RunChosenNext(ASKING, r, p, [v], 0);
    assert !TakesThen([v][..0]) && !TakesElse([v][..0], false);
    if v == "" {
      RunsNothing(ASKING, r, p.tplElse);
    } else {
      RefersToFails(r);
    }
  }
}
