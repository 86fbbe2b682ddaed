/**
  Templates (mist_base.c): string chunks with placeholders in between. Placeholders refer
  to other templates of the group by name; the branches of a conditional are templates
  that belong to their placeholder.
*/
module MistTemplates {
  datatype Template = Template(chunks: seq<string>, phs: seq<Placeholder>)

  datatype Placeholder =
    | Plain(name: string)
    | Join(name: string, sep: string)
    | Cond(name: string, concat: bool, tplThen: Template, tplElse: Template)

  predicate WfTemplate(t: Template) {
    |t.chunks| == |t.phs| + 1 && forall i :: 0 <= i < |t.phs| ==> WfPlaceholder(t.phs[i])
  }

  predicate WfPlaceholder(p: Placeholder) {
    p.Cond? ==> WfTemplate(p.tplThen) && WfTemplate(p.tplElse)
  }

  /** All names a template refers to, in its branches too. */
  function Names(t: Template): set<string> {
    set i, n | 0 <= i < |t.phs| && n in PhNames(t.phs[i]) :: n
  }

  function PhNames(p: Placeholder): set<string> {
    {p.name} + if p.Cond? then Names(p.tplThen) + Names(p.tplElse) else {}
  }

  /** The names used as conditions. */
  function CondNames(t: Template): set<string> {
    set i, n | 0 <= i < |t.phs| && n in PhCondNames(t.phs[i]) :: n
  }

  function PhCondNames(p: Placeholder): set<string> {
    if p.Cond? then {p.name} + CondNames(p.tplThen) + CondNames(p.tplElse) else {}
  }

  /** The names a template needs whatever branches are taken. */
  function MustNames(t: Template): set<string> {
    set i | 0 <= i < |t.phs| :: t.phs[i].name
  }

  function MustCondNames(t: Template): set<string> {
    set i | 0 <= i < |t.phs| && t.phs[i].Cond? :: t.phs[i].name
  }

  /** Attributes are templates without chunks; every name that is referred to is known. */
  ghost predicate WfGroup(tpls: map<string, Template>) {
    forall n :: n in tpls ==> IsAttr(tpls[n]) || (WfTemplate(tpls[n]) && Names(tpls[n]) <= tpls.Keys)
  }

  predicate IsAttr(t: Template) {
    t.chunks == [] && t.phs == []
  }

  // ---------------------------------------------------------------- attributes

  /** The names that no template has. */
  function Missing(tpls: map<string, Template>): set<string> {
    set t, n | t in tpls && n in Names(tpls[t]) && n !in tpls :: n
  }

  /** Names a template refers to, its branches included, that are not those of templates. */
  method CollectAttrs(tpls: map<string, Template>, t: Template, attrs0: seq<string>) returns (attrs: seq<string>)
    ensures forall n :: n in attrs <==> n in attrs0 || (n in Names(t) && n !in tpls)
    decreases t
  {
    attrs := attrs0;
    for k := 0 to |t.phs|
      invariant forall n :: n in attrs <==>
        n in attrs0 || (n !in tpls && exists i :: 0 <= i < k && n in PhNames(t.phs[i]))
    {
      var p := t.phs[k];
      if p.name !in tpls {
        attrs := attrs + [p.name];
      }
      if p.Cond? {
        attrs := CollectAttrs(tpls, p.tplThen, attrs);
        attrs := CollectAttrs(tpls, p.tplElse, attrs);
      }
    }
  }

  /** What is missing in the whole group. */
  method CollectAll(tpls: map<string, Template>, order: seq<string>) returns (attrs: seq<string>)
    requires forall n :: n in order <==> n in tpls
    ensures forall n :: n in attrs <==> n in Missing(tpls)
    ensures forall n :: n in attrs ==> n !in tpls
  {
    attrs := [];
    for i := 0 to |order|
      invariant forall n :: n in attrs <==> n !in tpls && exists j :: 0 <= j < i && n in Names(tpls[order[j]])
    {
      attrs := CollectAttrs(tpls, tpls[order[i]], attrs);
    }
    forall n | n in Missing(tpls) ensures n in attrs {
      var t :| t in tpls && n in Names(tpls[t]) && n !in tpls;
      var j :| 0 <= j < |order| && order[j] == t;
    }
  }

  /** Every name that is missing becomes an attribute, and then all names are known. */
  method CreateAttrs(tpls: map<string, Template>, order: seq<string>) returns (group: map<string, Template>)
    requires (forall n :: n in tpls ==> WfTemplate(tpls[n])) && forall n :: n in order <==> n in tpls
    ensures WfGroup(group) && group.Keys == tpls.Keys + Missing(tpls)
    ensures forall n :: n in group ==> if n in tpls then group[n] == tpls[n] else IsAttr(group[n])
  {
    hide Missing, WfTemplate, WfGroup;
    var attrs := CollectAll(tpls, order);
    group := tpls;
    for i := 0 to |attrs|
      invariant forall n :: n in group <==> n in tpls || n in attrs[..i]
      invariant forall n :: n in group ==> if n in tpls then group[n] == tpls[n] else IsAttr(group[n])
    {
      group := group[attrs[i] := Template([], [])];
      assert attrs[..i + 1] == attrs[..i] + [attrs[i]];
    }
    assert attrs[..|attrs|] == attrs;
    AllNamed(tpls, group);
  }

  lemma AllNamed(tpls: map<string, Template>, group: map<string, Template>)
    requires forall n :: n in tpls ==> WfTemplate(tpls[n])
    requires forall n :: n in group <==> n in tpls || n in Missing(tpls)
    requires forall n :: n in group ==> if n in tpls then group[n] == tpls[n] else IsAttr(group[n])
    ensures WfGroup(group) && group.Keys == tpls.Keys + Missing(tpls)
  {
    hide WfTemplate, Names;
    forall n, k | n in tpls && k in Names(tpls[n]) ensures k in group {
      assert k !in tpls ==> k in Missing(tpls);
    }
  }
}
