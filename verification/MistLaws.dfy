/**
  Laws of values: what the definitions in MistValues and MistMeaning amount to, said
  without them.
*/
module MistLaws {
  import opened Options
  import opened MistValues
  import opened MistTemplates
  import opened MistMeaning

  // ---------------------------------------------------------------- placeholders and chunks

  /** A placeholder without values leaves nothing. */
  lemma OnlyNothing(sep: Option<string>)
    ensures Values(["", ""], [PhValues([], sep)]) == [""]
  {
    var p := PhValues([], sep);
    ValueOfOne("", p, "", 0);
    assert Pick(p, 0) == "" && NumValues([p]) == 1;
    assert "" + "" + "" == "";
  }

  /** Two templates written one after the other, the chunks that meet being put together. */
  function Meeting(c1: seq<string>, c2: seq<string>): (c: seq<string>)
    requires c1 != [] && c2 != []
    ensures |c| == |c1| + |c2| - 1
  {
    c1[..|c1| - 1] + [c1[|c1| - 1] + c2[0]] + c2[1..]
  }

  /** The value of two templates written one after the other is the first value and then the second. */
  lemma {:induction false} ValueTogether(c1: seq<string>, p1: seq<PhValues>, c2: seq<string>, p2: seq<PhValues>, i: nat)
    requires |c1| == |p1| + 1 && |c2| == |p2| + 1
    ensures Value(Meeting(c1, c2), p1 + p2, i) == Value(c1, p1, i) + Value(c2, p2, i)
  {
    hide Pick;
    var c, ps := Meeting(c1, c2), p1 + p2;
    if p2 == [] {
      assert ps == p1;
      if p1 != [] {
        assert c[..|p1|] == c1[..|p1|];
        assert c[|p1|] == c1[|p1|] + c2[0];
      }
    } else {
      var n := |p2| - 1;
      ValueTogether(c1, p1, c2[..|p2|], p2[..n], i);
      assert c[..|ps|] == Meeting(c1, c2[..|p2|]);
      assert ps[..|ps| - 1] == p1 + p2[..n];
      assert c[|ps|] == c2[|p2|] && ps[|ps| - 1] == p2[n];
    }
  }

  /** A template without placeholders has the value of its chunk. */
  lemma OnlyChunk(chunk: string)
    ensures Values([chunk], []) == [chunk]
  {
  }

  lemma JoinedOne(v: string, sep: string)
    ensures Joined([v], sep) == v
  {
  }

  /** Joining is from the first value to the last, with the separator in between. */
  lemma {:induction false} JoinedTogether(a: seq<string>, b: seq<string>, sep: string)
    requires a != [] && b != []
    ensures Joined(a + b, sep) == Joined(a, sep) + sep + Joined(b, sep)
  {
    hide Joined;
    var n := |b| - 1;
    assert a + b == a + b[..n] + [b[n]] && b == b[..n] + [b[n]];
    JoinedSnoc(a + b[..n], b[n], sep);
    if n > 0 {
      JoinedTogether(a, b[..n], sep);
      JoinedSnoc(b[..n], b[n], sep);
    } else {
      assert b == [b[0]] && a + b[..n] == a;
      JoinedOne(b[0], sep);
    }
  }

  lemma JoinedSnoc(vals: seq<string>, v: string, sep: string)
    requires vals != []
    ensures Joined(vals + [v], sep) == Joined(vals, sep) + sep + v
  {
    assert (vals + [v])[..|vals|] == vals;
  }

  // ---------------------------------------------------------------- conditionals

  /** With a single condition the values are those of the branch it chooses. */
  lemma OneCondition(v: string, concat: bool, th: seq<string>, el: seq<string>)
    requires th != [] && el != []
    ensures CondValues([v], concat, th, el) == if v != "" then th else el
  {
    var cond := [v];
    assert TakesThen(cond) <==> v != "" by { assert cond[0] == v; }
    assert TakesElse(cond, false) <==> v == "" by { assert cond[0] == v; }
    var branch := if v != "" then th else el;
    assert forall i: nat :: i < |branch| ==> CondValue(cond, th, el, i) == branch[i];
  }

  /** With as many values in each branch as conditions, each condition chooses one of the two beside it. */
  lemma SideBySide(cond: seq<string>, th: seq<string>, el: seq<string>)
    requires cond != [] && |th| == |el| == |cond|
    ensures |CondValues(cond, false, th, el)| == |cond|
    ensures forall i :: 0 <= i < |cond| ==> CondValues(cond, false, th, el)[i] == if cond[i] != "" then th[i] else el[i]
  {
  }

  /** Joined conditions choose one branch for all: the first one if any of them holds. */
  lemma OneForAll(cond: seq<string>, th: seq<string>, el: seq<string>)
    requires cond != [] && th != [] && el != []
    ensures (exists i :: 0 <= i < |cond| && cond[i] != "") ==> CondValues(cond, true, th, el) == th
    ensures (forall i :: 0 <= i < |cond| ==> cond[i] == "") ==> CondValues(cond, true, th, el) == el
  {
  }

  /** Conditions and values of branches that have run out are served by their last ones. */
  lemma LastServes(cond: seq<string>, th: seq<string>, el: seq<string>, i: nat)
    requires cond != [] && th != [] && el != []
    ensures CondValue(cond + [cond[|cond| - 1]], th, el, i) == CondValue(cond, th, el, i)
    ensures CondValue(cond, th + [th[|th| - 1]], el, i) == CondValue(cond, th, el, i)
    ensures CondValue(cond, th, el + [el[|el| - 1]], i) == CondValue(cond, th, el, i)
  {
  }

  /**
    How many values a conditional has: none that its conditions or its chosen branches have is left out, and no
    more.
  */
  lemma HowMany(cond: seq<string>, th: seq<string>, el: seq<string>)
    requires cond != [] && th != [] && el != []
    ensures var n := |CondValues(cond, false, th, el)|;
      var first, second := exists i :: 0 <= i < |cond| && cond[i] != "", exists i :: 0 <= i < |cond| && cond[i] == "";
      && n >= |cond| && (first ==> n >= |th|) && (second ==> n >= |el|)
      && (n == |cond| || (first && n == |th|) || (second && n == |el|))
  {
  }

  // ---------------------------------------------------------------- templates

  /** A placeholder and nothing around it. */
  function Bare(p: Placeholder): Template {
    Template(["", ""], [p])
  }

  lemma BareVals(p: Placeholder, env: Env)
    requires WfPlaceholder(p)
    ensures WfTemplate(Bare(p)) && TplVals(Bare(p), env) == Values(["", ""], [PhVals(p, env)])
  {
    assert seq(1, i requires 0 <= i < 1 => PhVals(Bare(p).phs[i], env)) == [PhVals(p, env)];
  }

  /** What the four kinds of placeholders stand for. */
  lemma PlaceholderMeans(n: string, sep: string, concat: bool, t1: Template, t2: Template, env: Env, v: string)
    requires WfTemplate(t1) && WfTemplate(t2) && Look(env, n) != []
    ensures WfTemplate(Bare(Plain(n))) && TplVals(Bare(Plain(n)), env) == Look(env, n)
    ensures WfTemplate(Bare(Join(n, sep))) && TplVals(Bare(Join(n, sep)), env) == [Joined(Look(env, n), sep)]
    ensures WfTemplate(Bare(Cond(n, concat, t1, t2)))
    ensures Look(env, n) == [v] ==>
      TplVals(Bare(Cond(n, concat, t1, t2)), env) == if v != "" then TplVals(t1, env) else TplVals(t2, env)
  {
    var vals := Look(env, n);
    BareVals(Plain(n), env);
    OnlyPlaceholder(vals);
    BareVals(Join(n, sep), env);
    OnlyJoined(vals, sep);
    BareVals(Cond(n, concat, t1, t2), env);
    if vals == [v] {
      var th, el := TplVals(t1, env), TplVals(t2, env);
      OneCondition(v, concat, th, el);
      OnlyPlaceholder(if v != "" then th else el);
    }
  }
}
