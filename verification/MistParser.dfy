/**
  Syntax analysis of templates (mist_base.c). The parser works its way through the tokens
  by recursive descent; an `if` without `else` gets an empty second branch.
*/
module MistParser {
  import opened Options
  import opened MistStrings
  import opened MistTemplates
  import opened MistTokens

  // ---------------------------------------------------------------- single placeholders

  /** The index of the first `c`; the length if there is none. */
  function IndexOf(s: string, c: char): (n: nat)
    ensures n <= |s| && (forall i :: 0 <= i < n ==> s[i] != c) && (n < |s| ==> s[n] == c)
  {
    if s == "" || s[0] == c then 0 else 1 + IndexOf(s[1..], c)
  }

  /** `name`, or `name: join(separator)`. */
  function Reference(body: string): Option<Placeholder> {
    var t := Trimmed(body);
    var i := IndexOf(t, ':');
    if i == |t| then if NameBad(t) then None else Some(Plain(t))
    else
      var name := Trimmed(t[..i]);
      var rest := Trimmed(t[i + 1..]);
      if !("join" <= rest) then None
      else
        var args := Trimmed(rest[4..]);
        if args == "" || args[0] != '(' || args[|args| - 1] != ')' || NameBad(name) then None
        else Some(Join(name, Unescaped(args[1..|args| - 1])))
  }

  method ParseReference(body: string) returns (p: Option<Placeholder>)
    ensures p == Reference(body) && (p.Some? ==> !p.value.Cond?)
  {
    hide Trimmed, NameBad, Unescaped;
    var expr := TrimString(body);
    var name := expr;
    var i := 0;
    while i < |expr| && expr[i] != ':'
      invariant 0 <= i <= |expr| && forall k :: 0 <= k < i ==> expr[k] != ':'
    {
      i := i + 1;
    }
    assert i == IndexOf(expr, ':');
    var sep := None;
    if i < |expr| {
      name := TrimString(expr[..i]);
      var rest := TrimString(expr[i + 1..]);
      if |rest| == 0 || !("join" <= rest) {
        return None;
      }
      var args := TrimString(rest[4..]);
      if |args| == 0 || args[0] != '(' || args[|args| - 1] != ')' {
        return None;
      }
      var s := Unescape(args[1..|args| - 1]);
      sep := Some(s);
    }
    var bad := NameIsBad(name);
    p := if bad then None else if sep.None? then Some(Plain(name)) else Some(Join(name, sep.value));
  }

  /** `name`, or `concat(name)`. */
  function Condition(expr: string): (string, bool) {
    if |expr| < 9 || expr[|expr| - 1] != ')' || !("concat" <= expr) then (expr, false)
    else
      var args := TrimLeft(expr[6..|expr| - 1]);
      if args == "" || args[0] != '(' then (expr, false)
      else
        var name := Trimmed(args[1..]);
        if name == "" then (expr, false) else (name, true)
  }

  method ParseCondition(expr: string) returns (name: string, concat: bool)
    requires expr != ""
    ensures (name, concat) == Condition(expr)
  {
    hide Trimmed, TrimLeft, WSPACE, Condition;
    var end := |expr| - 1;
    if expr[end] != ')' || |expr| < 9 || !("concat" <= expr) {
      NotConcat(expr);
      return expr, false;
    }
    var nbeg := FindFirstNotOf(expr, 6, end, WSPACE);
    Concat(expr, nbeg);
    if expr[nbeg] != '(' {
      return expr, false;
    }
    var lo, hi := TrimRange(expr, nbeg + 1, end);
    if lo == hi {
      return expr, false;
    }
    name, concat := expr[lo..hi], true;
  }

  lemma NotConcat(expr: string)
    requires expr != "" && (expr[|expr| - 1] != ')' || |expr| < 9 || !("concat" <= expr))
    ensures Condition(expr) == (expr, false)
  {
  }

  /** What a condition is once the white space after `concat` has been skipped. */
  lemma Concat(expr: string, nbeg: nat)
    requires |expr| >= 9 && expr[|expr| - 1] == ')' && "concat" <= expr
    requires 6 <= nbeg < |expr| && (forall i :: 6 <= i < nbeg ==> expr[i] in WSPACE)
    requires nbeg < |expr| - 1 ==> expr[nbeg] !in WSPACE
    ensures expr[nbeg] != '(' ==> Condition(expr) == (expr, false)
    ensures expr[nbeg] == '(' ==> nbeg + 1 < |expr|
    ensures expr[nbeg] == '(' ==>
      var name := Trimmed(expr[nbeg + 1..|expr| - 1]);
      Condition(expr) == if name == "" then (expr, false) else (name, true)
  {
    hide Trimmed, TrimLeft, WSPACE;
    var end := |expr| - 1;
    TrimLeftIs(expr[6..end], nbeg - 6);
    PartOfPart(expr, 6, end, nbeg - 6, end - 6);
    if nbeg < end {
      PartOfPart(expr, nbeg, end, 1, end - nbeg);
    }
  }

  // ---------------------------------------------------------------- items, and templates as lists of them

  datatype Item = Chunk(text: string) | Leaf(p: Placeholder) | If(name: string, concat: bool) | Else | EndIf | Bad

  function ItemOf(token: Token): Item {
    match token.kind
    case SCH => Chunk(token.text)
    case PH => var p := Reference(token.text); if p.None? then Bad else Leaf(p.value)
    case IF => var c := Condition(token.text); if NameBad(c.0) then Bad else If(c.0, c.1)
    case ELSE => Else
    case ENDIF => EndIf
  }

  function Items(tokens: seq<Token>): seq<Item> {
    seq(|tokens|, i requires 0 <= i < |tokens| => ItemOf(tokens[i]))
  }

  /** A template written down again, with both branches of every conditional. */
  function Flatten(t: Template): seq<Item>
    requires WfTemplate(t)
    decreases t, |t.phs| + 1
  {
    FlattenFrom(t, 0)
  }

  function FlattenFrom(t: Template, k: nat): seq<Item>
    requires WfTemplate(t) && k <= |t.phs|
    decreases t, |t.phs| - k
  {
    [Chunk(t.chunks[k])] + if k == |t.phs| then [] else FlattenPlaceholder(t.phs[k]) + FlattenFrom(t, k + 1)
  }

  function FlattenPlaceholder(p: Placeholder): seq<Item>
    requires WfPlaceholder(p)
    decreases p
  {
    if p.Cond? then [If(p.name, p.concat)] + (Flatten(p.tplThen) + ([Else] + (Flatten(p.tplElse) + [EndIf])))
      else [Leaf(p)]
  }

  /**
    `if`, `else` and `endif` nest correctly: every `else` and `endif` has its `if`, no `if`
    has two `else`. The stack says of each open `if` whether its `else` has been seen.
  */
  predicate Nested(items: seq<Item>, open: seq<bool>) {
    if items == [] then open == []
    else
      var rest := items[1..];
      match items[0]
      case Chunk(_) => Nested(rest, open)
      case Leaf(_) => Nested(rest, open)
      case If(_, _) => Nested(rest, [false] + open)
      case Else => open != [] && !open[0] && Nested(rest, [true] + open[1..])
      case EndIf => open != [] && Nested(rest, open[1..])
      case Bad => false
  }

  /** The items with an empty `else` wherever it was left out. */
  function Completed(items: seq<Item>, open: seq<bool>): seq<Item> {
    if items == [] then []
    else
      var rest := items[1..];
      match items[0]
      case If(_, _) => [items[0]] + Completed(rest, [false] + open)
      case Else => [Else] + Completed(rest, if open == [] then [] else [true] + open[1..])
      case EndIf =>
        (if open != [] && !open[0] then [Else, Chunk(""), EndIf] else [EndIf]) + Completed(rest, if open == [] then []
          else open[1..])
      case _ => [items[0]] + Completed(rest, open)
  }

  // ---------------------------------------------------------------- writing down and completing

  /** What follows a template: nothing, or the item that ends a branch. */
  predicate Stops(items: seq<Item>) {
    items == [] || items[0].Else? || items[0].EndIf?
  }

  /** These items are a template followed by others: in any context they nest and are completed like this. */
  ghost predicate Reads(items: seq<Item>, t: seq<Item>, rest: seq<Item>) {
    forall open :: (Nested(items, open) <==> Nested(rest, open)) && Completed(items, open) == t + Completed(rest, open)
  }

  lemma ReadsOne(x: Item, rest: seq<Item>)
    requires x.Chunk? || x.Leaf?
    ensures Reads([x] + rest, [x], rest)
  {
    var items := [x] + rest;
    assert items[0] == x && items[1..] == rest;
  }

  lemma ReadsTwice(items: seq<Item>, t1: seq<Item>, middle: seq<Item>, t2: seq<Item>, rest: seq<Item>)
    requires Reads(items, t1, middle) && Reads(middle, t2, rest)
    ensures Reads(items, t1 + t2, rest)
  {
    hide Nested, Completed;
    forall open
      ensures (Nested(items, open) <==> Nested(rest, open)) && Completed(items, open) == t1 + t2 + Completed(rest, open)
    {
      assert Nested(items, open) <==> Nested(middle, open);
      assert Nested(middle, open) <==> Nested(rest, open);
    }
  }

  lemma AtIf(n: string, c: bool, rest: seq<Item>, open: seq<bool>)
    ensures Nested([If(n, c)] + rest, open) <==> Nested(rest, [false] + open)
    ensures Completed([If(n, c)] + rest, open) == [If(n, c)] + Completed(rest, [false] + open)
  {
    assert ([If(n, c)] + rest)[1..] == rest;
  }

  lemma AtElse(rest: seq<Item>, open: seq<bool>)
    ensures Nested([Else] + rest, [false] + open) <==> Nested(rest, [true] + open)
    ensures Completed([Else] + rest, [false] + open) == [Else] + Completed(rest, [true] + open)
  {
    assert ([Else] + rest)[1..] == rest && ([false] + open)[1..] == open;
  }

  lemma AtEndIf(rest: seq<Item>, b: bool, open: seq<bool>)
    ensures Nested([EndIf] + rest, [b] + open) <==> Nested(rest, open)
    ensures Completed([EndIf] + rest, [b] + open)
      == (if b then [EndIf] else [Else, Chunk(""), EndIf]) + Completed(rest, open)
  {
    assert ([EndIf] + rest)[1..] == rest && ([b] + open)[1..] == open;
  }

  /** A conditional with both branches. */
  lemma ReadsIfElse(n: string, c: bool, afterIf: seq<Item>, t1: seq<Item>, afterElse: seq<Item>, t2: seq<Item>,
      rest: seq<Item>)
    requires Reads(afterIf, t1, [Else] + afterElse) && Reads(afterElse, t2, [EndIf] + rest)
    ensures Reads([If(n, c)] + afterIf, [If(n, c)] + (t1 + ([Else] + (t2 + [EndIf]))), rest)
  {
    hide Nested, Completed;
    forall open
      ensures Nested([If(n, c)] + afterIf, open) <==> Nested(rest, open)
      ensures Completed([If(n, c)] + afterIf, open)
        == [If(n, c)] + (t1 + ([Else] + (t2 + [EndIf]))) + Completed(rest, open)
    {
      AtIf(n, c, afterIf, open);
      AtElse(afterElse, open);
      AtEndIf(rest, true, open);
      Grouped(If(n, c), t1, t2, Completed(rest, open));
    }
  }

  lemma Grouped(x: Item, t1: seq<Item>, t2: seq<Item>, rest: seq<Item>)
    ensures [x] + (t1 + ([Else] + (t2 + ([EndIf] + rest)))) == [x] + (t1 + ([Else] + (t2 + [EndIf]))) + rest
  {
  }

  /** A conditional without `else`. */
  lemma ReadsIf(n: string, c: bool, afterIf: seq<Item>, t1: seq<Item>, rest: seq<Item>)
    requires Reads(afterIf, t1, [EndIf] + rest)
    ensures Reads([If(n, c)] + afterIf, [If(n, c)] + (t1 + ([Else] + ([Chunk("")] + [EndIf]))), rest)
  {
    hide Nested, Completed;
    forall open
      ensures Nested([If(n, c)] + afterIf, open) <==> Nested(rest, open)
      ensures Completed([If(n, c)] + afterIf, open)
        == [If(n, c)] + (t1 + ([Else] + ([Chunk("")] + [EndIf]))) + Completed(rest, open)
    {
      AtIf(n, c, afterIf, open);
      AtEndIf(rest, false, open);
      Grouped(If(n, c), t1, [Chunk("")], Completed(rest, open));
      assert [Else, Chunk(""), EndIf] + Completed(rest, open)
        == [Else] + ([Chunk("")] + ([EndIf] + Completed(rest, open)));
    }
  }

  /** A template written down is read as what it is. */
  lemma {:induction false} ReadsFlat(t: Template, k: nat, rest: seq<Item>)
    requires WfTemplate(t) && k <= |t.phs|
    ensures Reads(FlattenFrom(t, k) + rest, FlattenFrom(t, k), rest)
    decreases t, |t.phs| - k
  {
    hide Reads;
    var c := Chunk(t.chunks[k]);
    if k == |t.phs| {
      ReadsOne(c, rest);
      assert FlattenFrom(t, k) == [c];
    } else {
      var p, more := FlattenPlaceholder(t.phs[k]), FlattenFrom(t, k + 1);
      ReadsFlat(t, k + 1, rest);
      ReadsFlatPlaceholder(t.phs[k], more + rest);
      ReadsOne(c, p + (more + rest));
      ReadsTwice(p + (more + rest), p, more + rest, more, rest);
      ReadsTwice([c] + (p + (more + rest)), [c], p + (more + rest), p + more, rest);
      assert FlattenFrom(t, k) + rest == [c] + (p + (more + rest));
    }
  }

  lemma {:induction false} ReadsFlatPlaceholder(p: Placeholder, rest: seq<Item>)
    requires WfPlaceholder(p)
    ensures Reads(FlattenPlaceholder(p) + rest, FlattenPlaceholder(p), rest)
    decreases p
  {
    hide Reads;
    if p.Cond? {
      var t1, t2 := Flatten(p.tplThen), Flatten(p.tplElse);
      var afterElse := t2 + ([EndIf] + rest);
      ReadsFlat(p.tplElse, 0, [EndIf] + rest);
      ReadsFlat(p.tplThen, 0, [Else] + afterElse);
      ReadsIfElse(p.name, p.concat, t1 + ([Else] + afterElse), t1, afterElse, t2, rest);
      assert FlattenPlaceholder(p) + rest == [If(p.name, p.concat)] + (t1 + ([Else] + afterElse));
    } else {
      ReadsOne(Leaf(p), rest);
    }
  }

  // ---------------------------------------------------------------- no two templates are written alike

  lemma {:induction false} SameTemplate(t1: Template, k1: nat, r1: seq<Item>, t2: Template, k2: nat, r2: seq<Item>)
    requires WfTemplate(t1) && k1 <= |t1.phs| && WfTemplate(t2) && k2 <= |t2.phs| && Stops(r1) && Stops(r2)
    requires FlattenFrom(t1, k1) + r1 == FlattenFrom(t2, k2) + r2
    ensures t1.chunks[k1..] == t2.chunks[k2..] && t1.phs[k1..] == t2.phs[k2..] && r1 == r2
    decreases t1, |t1.phs| - k1
  {
    hide FlattenPlaceholder, FlattenFrom, WfPlaceholder;
    AfterChunk(t1, k1, r1);
    AfterChunk(t2, k2, r2);
    if k1 < |t1.phs| {
      PlaceholderStarts(t1.phs[k1]);
    }
    if k2 < |t2.phs| {
      PlaceholderStarts(t2.phs[k2]);
    }
    if k1 < |t1.phs| && k2 < |t2.phs| {
      SamePlaceholder(t1.phs[k1], FlattenFrom(t1, k1 + 1) + r1, t2.phs[k2], FlattenFrom(t2, k2 + 1) + r2);
      SameTemplate(t1, k1 + 1, r1, t2, k2 + 1, r2);
      OneMore(t1.chunks, k1);
      OneMore(t2.chunks, k2);
      OneMore(t1.phs, k1);
      OneMore(t2.phs, k2);
    }
  }

  lemma OneMore<T>(s: seq<T>, k: nat)
    requires k < |s|
    ensures s[k..] == [s[k]] + s[k + 1..]
  {
  }

  lemma AfterChunk(t: Template, k: nat, r: seq<Item>)
    requires WfTemplate(t) && k <= |t.phs|
    ensures FlattenFrom(t, k) != [] && (FlattenFrom(t, k) + r)[0] == Chunk(t.chunks[k])
    ensures (FlattenFrom(t, k) + r)[1..] ==
      if k == |t.phs| then r else FlattenPlaceholder(t.phs[k]) + (FlattenFrom(t, k + 1) + r)
  {
    hide FlattenPlaceholder;
  }

  lemma PlaceholderStarts(p: Placeholder)
    requires WfPlaceholder(p)
    ensures FlattenPlaceholder(p) != [] && !Stops(FlattenPlaceholder(p)) && !FlattenPlaceholder(p)[0].Chunk?
  {
  }

  lemma {:induction false} SamePlaceholder(p1: Placeholder, r1: seq<Item>, p2: Placeholder, r2: seq<Item>)
    requires WfPlaceholder(p1) && WfPlaceholder(p2)
    requires FlattenPlaceholder(p1) + r1 == FlattenPlaceholder(p2) + r2
    ensures p1 == p2 && r1 == r2
    decreases p1
  {
    var f1, f2 := FlattenPlaceholder(p1) + r1, FlattenPlaceholder(p2) + r2;
    assert f1[0] == FlattenPlaceholder(p1)[0] && f2[0] == FlattenPlaceholder(p2)[0];
    if p1.Cond? && p2.Cond? {
      var e1, e2 := Flatten(p1.tplElse) + ([EndIf] + r1), Flatten(p2.tplElse) + ([EndIf] + r2);
      var b1, b2 := Flatten(p1.tplThen) + ([Else] + e1), Flatten(p2.tplThen) + ([Else] + e2);
      assert f1 == [If(p1.name, p1.concat)] + b1 && f2 == [If(p2.name, p2.concat)] + b2;
      assert b1 == f1[1..] && b2 == f2[1..];
      SameTemplate(p1.tplThen, 0, [Else] + e1, p2.tplThen, 0, [Else] + e2);
      assert e1 == ([Else] + e1)[1..] && e2 == ([Else] + e2)[1..];
      SameTemplate(p1.tplElse, 0, [EndIf] + r1, p2.tplElse, 0, [EndIf] + r2);
      assert r1 == ([EndIf] + r1)[1..] && r2 == ([EndIf] + r2)[1..];
      WholeTemplate(p1.tplThen, p2.tplThen);
      WholeTemplate(p1.tplElse, p2.tplElse);
    } else {
      assert r1 == f1[1..] || p1.Cond?;
      assert r2 == f2[1..] || p2.Cond?;
    }
  }

  lemma WholeTemplate(t1: Template, t2: Template)
    requires t1.chunks[0..] == t2.chunks[0..] && t1.phs[0..] == t2.phs[0..]
    ensures t1 == t2
  {
    assert t1.chunks[0..] == t1.chunks && t2.chunks[0..] == t2.chunks;
    assert t1.phs[0..] == t1.phs && t2.phs[0..] == t2.phs;
  }

  // ---------------------------------------------------------------- the parser

  ghost predicate NeverNested(items: seq<Item>) {
    forall open :: !Nested(items, open)
  }

  lemma NeverAfter(items: seq<Item>, t: seq<Item>, rest: seq<Item>)
    requires Reads(items, t, rest) && NeverNested(rest)
    ensures NeverNested(items)
  {
    hide Nested, Completed;
    forall open ensures !Nested(items, open) {
      assert Nested(items, open) <==> Nested(rest, open);
    }
  }

  lemma {:induction false} FlattenSnoc(t: Template, p: Placeholder, c: string, k: nat)
    requires WfTemplate(t) && WfPlaceholder(p) && k <= |t.phs|
    ensures var t2 := Template(t.chunks + [c], t.phs + [p]);
      WfTemplate(t2) && FlattenFrom(t2, k) == FlattenFrom(t, k) + (FlattenPlaceholder(p) + [Chunk(c)])
    decreases |t.phs| - k
  {
    hide FlattenPlaceholder, WfPlaceholder;
    var t2 := Template(t.chunks + [c], t.phs + [p]);
    assert WfTemplate(t2);
    if k == |t.phs| {
      assert FlattenFrom(t2, k + 1) == [Chunk(c)];
      assert FlattenFrom(t2, k) == [Chunk(t.chunks[k])] + (FlattenPlaceholder(p) + FlattenFrom(t2, k + 1));
      assert FlattenFrom(t, k) == [Chunk(t.chunks[k])];
    } else {
      FlattenSnoc(t, p, c, k + 1);
      assert t2.phs[k] == t.phs[k] && t2.chunks[k] == t.chunks[k];
    }
  }

  ghost predicate TemplateRead(items: seq<Item>, i: nat, t: Template, j: nat) {
    i < j <= |items| && j % 2 == 1 && WfTemplate(t) && Stops(items[j..]) && Reads(items[i..], Flatten(t), items[j..])
  }

  ghost predicate PlaceholderRead(items: seq<Item>, i: nat, p: Placeholder, j: nat) {
    i < j < |items| && j % 2 == 0 && WfPlaceholder(p) && Reads(items[i..], FlattenPlaceholder(p), items[j..])
  }

  lemma At0(items: seq<Item>, i: nat)
    requires i < |items|
    ensures items[i..] == [items[i]] + items[i + 1..] && items[i..][0] == items[i] && items[i..][1..] == items[i + 1..]
  {
  }

  /** A chunk, and then placeholders and chunks until the tokens or the branch end. */
  method ParseTemplate(tokens: seq<Token>, i: nat) returns (ok: bool, t: Template, j: nat)
    requires Alternate(tokens) && i < |tokens| && i % 2 == 0
    ensures ok ==> TemplateRead(Items(tokens), i, t, j)
    ensures !ok ==> NeverNested(Items(tokens)[i..])
    decreases |tokens| - i
  {
    hide Nested, Completed, Reads, WfTemplate, WfPlaceholder, FlattenPlaceholder, NeverNested, FlattenFrom;
    ghost var items := Items(tokens);
    t, j, ok := Template([tokens[i].text], []), i + 1, true;
    ReadsChunk(tokens, i);
    while j < |tokens|
      invariant i < j <= |tokens| && j % 2 == 1 && WfTemplate(t) && Reads(items[i..], Flatten(t), items[j..])
    {
      var p, k;
      ok, p, k := ParseExpression(tokens, j);
      if !ok {
        NeverAfter(items[i..], Flatten(t), items[j..]);
        return;
      }
      if p.None? {
        break;
      }
      var c := tokens[k].text;
      ReadsChunk(tokens, k);
      ReadsTwice(items[j..], FlattenPlaceholder(p.value), items[k..], [Chunk(c)], items[k + 1..]);
      ReadsTwice(items[i..], Flatten(t), items[j..], FlattenPlaceholder(p.value) + [Chunk(c)], items[k + 1..]);
      FlattenSnoc(t, p.value, c, 0);
      t := Template(t.chunks + [c], t.phs + [p.value]);
      j := k + 1;
    }
  }

  lemma ReadsChunk(tokens: seq<Token>, i: nat)
    requires Alternate(tokens) && i < |tokens| && i % 2 == 0
    ensures var c := tokens[i].text;
      Reads(Items(tokens)[i..], [Chunk(c)], Items(tokens)[i + 1..])
      && WfTemplate(Template([c], [])) && Flatten(Template([c], [])) == [Chunk(c)]
  {
    At0(Items(tokens), i);
    ReadsOne(Chunk(tokens[i].text), Items(tokens)[i + 1..]);
  }

  /** A placeholder of any kind; none before the `else` or `endif` of a branch. */
  method ParseExpression(tokens: seq<Token>, i: nat) returns (ok: bool, p: Option<Placeholder>, j: nat)
    requires Alternate(tokens) && i < |tokens| && i % 2 == 1
    ensures ok && p.Some? ==> PlaceholderRead(Items(tokens), i, p.value, j)
    ensures ok && p.None? ==> j == i && Stops(Items(tokens)[i..])
    ensures !ok ==> NeverNested(Items(tokens)[i..])
    decreases |tokens| - i, 1
  {
    hide Completed, Reads, Reference, Condition, NameBad, Flatten, FlattenFrom, WfTemplate;
    ok, p, j := true, None, i;
    At0(Items(tokens), i);
    if tokens[i].kind == IF {
      var c;
      ok, c, j := ParseConditional(tokens, i);
      if ok {
        p := Some(c);
      }
    } else if tokens[i].kind == PH {
      p := ParseReference(tokens[i].text);
      ok := p.Some?;
      j := i + 1;
      if ok {
        ReadsOne(Leaf(p.value), Items(tokens)[j..]);
      }
    }
  }

  method MatchIf(tokens: seq<Token>, i: nat) returns (ok: bool, name: string, concat: bool)
    requires i < |tokens| && tokens[i].kind == IF
    ensures ok ==> Items(tokens)[i] == If(name, concat)
    ensures !ok ==> NeverNested(Items(tokens)[i..])
  {
    hide NeverNested;
    name, concat := ParseCond(tokens[i].text);
    var bad := NameIsBad(name);
    ok := !bad;
    if bad {
      NeverBad(Items(tokens), i);
    }
  }

  /** The second branch, from the item on that ends the first one, and the `endif`. */
  method ParseElse(tokens: seq<Token>, i: nat) returns (ok: bool, t: Template, j: nat)
    requires Alternate(tokens) && i < |tokens| && i % 2 == 1 && (tokens[i].kind == ELSE || tokens[i].kind == ENDIF)
    ensures ok ==> WfTemplate(t) && i < j < |tokens| && j % 2 == 0 && ElseRead(Items(tokens), i, t, j)
    ensures !ok ==> forall open :: !Nested(Items(tokens)[i..], [false] + open)
    decreases |tokens| - i, 0
  {
    hide Nested, Completed, Reads, WfTemplate, NeverNested, FlattenFrom, Flatten, Condition, Reference, NameBad,
      EmptyTemplate, ElseRead;
    ghost var items := Items(tokens);
    if tokens[i].kind == ELSE {
      ok, t, j := ParseTemplate(tokens, i + 1);
      if !ok || j >= |tokens| || tokens[j].kind != ENDIF {
        NoSecondBranch(items, i, ok, t, j);
        return false, t, j;
      }
    } else {
      ok, t, j := true, EmptyTemplate(), i;
    }
    EndsElse(items, i, t, j);
    j := j + 1;
  }

  lemma EndsElse(items: seq<Item>, i: nat, t: Template, j: nat)
    requires i <= j < |items| && items[j] == EndIf && WfTemplate(t)
    requires if items[i] == Else then TemplateRead(items, i + 1, t, j) else i == j && t == EmptyTemplate()
    ensures ElseRead(items, i, t, j + 1)
  {
    hide Nested, Completed, Reads, WfTemplate, Flatten, EmptyTemplate;
    At0(items, j);
  }

  /** The branch that stands for one that was left out. */
  function EmptyTemplate(): (t: Template)
    ensures WfTemplate(t) && Flatten(t) == [Chunk("")]
  {
    Template([""], [])
  }

  ghost predicate ElseRead(items: seq<Item>, i: nat, t: Template, j: nat)
    requires WfTemplate(t) && i < |items| && 0 < j <= |items|
  {
    if items[i] == Else then Reads(items[i + 1..], Flatten(t), [EndIf] + items[j..])
    else items[i] == EndIf && t == EmptyTemplate() && items[i..] == [EndIf] + items[j..]
  }

  method ParseConditional(tokens: seq<Token>, i: nat) returns (ok: bool, p: Placeholder, j: nat)
    requires Alternate(tokens) && i < |tokens| && i % 2 == 1 && tokens[i].kind == IF
    ensures ok ==> PlaceholderRead(Items(tokens), i, p, j)
    ensures !ok ==> NeverNested(Items(tokens)[i..])
    decreases |tokens| - i, 0
  {
    hide Nested, Completed, Reads, WfTemplate, FlattenPlaceholder, NeverNested, FlattenFrom, ElseRead, Condition,
      Reference, EmptyTemplate, Flatten;
    ghost var items := Items(tokens);
    p, j := Plain(""), i;
    var name, concat;
    ok, name, concat := MatchIf(tokens, i);
    if !ok {
      return;
    }
    var tplThen, tplElse;
    ok, tplThen, j := ParseTemplate(tokens, i + 1);
    if !ok || j >= |tokens| {
      NoBranch(items, i, ok, tplThen, j);
      return false, p, j;
    }
    var k := j;
    At0(items, k);
    ok, tplElse, j := ParseElse(tokens, k);
    if !ok {
      NoConditional(items, i, tplThen, k);
      return;
    }
    p := Cond(name, concat, tplThen, tplElse);
    ReadsConditional(items, i, p, k, j);
  }

  lemma ReadsConditional(items: seq<Item>, i: nat, p: Placeholder, k: nat, j: nat)
    requires p.Cond? && i < |items| && items[i] == If(p.name, p.concat) && TemplateRead(items, i + 1, p.tplThen, k)
    requires WfTemplate(p.tplElse) && k < j < |items| && j % 2 == 0 && ElseRead(items, k, p.tplElse, j)
    ensures PlaceholderRead(items, i, p, j)
  {
    hide Nested, Completed, Reads, WfTemplate, FlattenFrom;
    At0(items, i);
    At0(items, k);
    if items[k] == Else {
      ReadsIfElse(p.name, p.concat, items[i + 1..], Flatten(p.tplThen), items[k + 1..], Flatten(p.tplElse), items[j..]);
    } else {
      ReadsIf(p.name, p.concat, items[i + 1..], Flatten(p.tplThen), items[j..]);
    }
  }

  method ParseCond(expr: string) returns (name: string, concat: bool)
    ensures (name, concat) == Condition(expr)
  {
    if |expr| == 0 {
      return "", false;
    }
    name, concat := ParseCondition(expr);
  }

  lemma NeverBad(items: seq<Item>, i: nat)
    requires i < |items| && items[i] == Bad
    ensures NeverNested(items[i..])
  {
    At0(items, i);
  }

  lemma NoBranch(items: seq<Item>, i: nat, ok: bool, t: Template, j: nat)
    requires i < |items| && items[i].If?
    requires if ok then TemplateRead(items, i + 1, t, j) && j >= |items| else NeverNested(items[i + 1..])
    ensures NeverNested(items[i..])
  {
    At0(items, i);
    forall open ensures !Nested(items[i..], open) {
      assert Nested(items[i..], open) <==> Nested(items[i + 1..], [false] + open);
      if ok {
        assert Nested(items[i + 1..], [false] + open) <==> Nested(items[j..], [false] + open);
      }
    }
  }

  lemma NoSecondBranch(items: seq<Item>, i: nat, ok: bool, t: Template, j: nat)
    requires i < |items| && items[i] == Else
    requires if ok then TemplateRead(items, i + 1, t, j) && (j >= |items| || items[j] != EndIf)
      else NeverNested(items[i + 1..])
    ensures forall open :: !Nested(items[i..], [false] + open)
  {
    At0(items, i);
    forall open ensures !Nested(items[i..], [false] + open) {
      var o := [true] + ([false] + open)[1..];
      assert Nested(items[i..], [false] + open) <==> Nested(items[i + 1..], o);
      if ok {
        assert Nested(items[i + 1..], o) <==> Nested(items[j..], o);
        if j < |items| {
          At0(items, j);
        }
      }
    }
  }

  lemma NoConditional(items: seq<Item>, i: nat, t: Template, j: nat)
    requires i < |items| && items[i].If? && TemplateRead(items, i + 1, t, j)
    requires forall open :: !Nested(items[j..], [false] + open)
    ensures NeverNested(items[i..])
  {
    At0(items, i);
    forall open ensures !Nested(items[i..], open) {
      assert Nested(items[i..], open) <==> Nested(items[i + 1..], [false] + open);
      assert Nested(items[i + 1..], [false] + open) <==> Nested(items[j..], [false] + open);
    }
  }

  // ---------------------------------------------------------------- the whole source

  /** What the parser makes of tokens. */
  ghost predicate Parsed(tokens: seq<Token>, r: Option<Template>) {
    && (r.Some? <==> Nested(Items(tokens), []))
    && (r.Some? ==> WfTemplate(r.value) && Flatten(r.value) == Completed(Items(tokens), []))
  }

  /** A template, exactly if conditionals nest and all names are good; it loses nothing. */
  method FromTokens(tokens: seq<Token>) returns (r: Option<Template>)
    requires Alternate(tokens)
    ensures Parsed(tokens, r)
  {
    hide Reads, WfTemplate, Flatten, Condition, Reference, NameBad;
    var ok, t, j := ParseTemplate(tokens, 0);
    ghost var items := Items(tokens);
    assert items[0..] == items;
    if ok {
      ReadsAt(items, Flatten(t), items[j..], []);
    }
    // stopped before an `else` or `endif` without `if`
    r := if ok && j >= |tokens| then Some(t) else None;
  }

  lemma ReadsAt(items: seq<Item>, t: seq<Item>, rest: seq<Item>, open: seq<bool>)
    requires Reads(items, t, rest)
    ensures Nested(items, open) <==> Nested(rest, open)
    ensures Completed(items, open) == t + Completed(rest, open)
  {
  }

  /** Tokens have one meaning. */
  lemma OneMeaning(tokens: seq<Token>, r1: Option<Template>, r2: Option<Template>)
    requires Parsed(tokens, r1) && Parsed(tokens, r2)
    ensures r1 == r2
  {
    hide Nested, Completed, WfTemplate;
    if r1.Some? {
      assert Flatten(r1.value) + [] == Flatten(r2.value) + [];
      SameTemplate(r1.value, 0, [], r2.value, 0, []);
      WholeTemplate(r1.value, r2.value);
    }
  }

  /** Tokens that say what a template is are read as that template. */
  lemma ReadBack(tokens: seq<Token>, t: Template)
    requires WfTemplate(t) && Items(tokens) == Flatten(t)
    ensures Parsed(tokens, Some(t))
  {
    ReadsFlat(t, 0, []);
    assert Flatten(t) + [] == Flatten(t);
    ReadsAt(Flatten(t), Flatten(t), [], []);
  }

  /** A conditional without `else` is read as one with an empty second branch. */
  lemma ElseLeftOut(tokens: seq<Token>, x: string, n: string, concat: bool, y: string, z: string)
    requires Items(tokens) == [Chunk(x), If(n, concat), Chunk(y), EndIf, Chunk(z)]
    ensures Parsed(tokens, Some(Template([x, z], [Cond(n, concat, Template([y], []), Template([""], []))])))
  {
    hide Nested, Completed, Flatten, WfTemplate;
    ShortFlat(x, n, concat, y, z);
    ShortRead(x, n, concat, y, z);
  }

  lemma ShortFlat(x: string, n: string, concat: bool, y: string, z: string)
    ensures var t := Template([x, z], [Cond(n, concat, Template([y], []), Template([""], []))]);
      && WfTemplate(t)
      && Flatten(t) == [Chunk(x), If(n, concat), Chunk(y), Else, Chunk(""), EndIf, Chunk(z)]
  {
    var first, second := Template([y], []), Template([""], []);
    var p := Cond(n, concat, first, second);
    var t := Template([x, z], [p]);
    OneChunkFlat(y);
    OneChunkFlat("");
    assert FlattenFrom(t, 1) == [Chunk(z)];
    assert WfPlaceholder(p);
    assert FlattenPlaceholder(p) == [If(n, concat)] + (Flatten(first) + ([Else] + (Flatten(second) + [EndIf])));
  }

  lemma OneChunkFlat(text: string)
    ensures WfTemplate(Template([text], [])) && Flatten(Template([text], [])) == [Chunk(text)]
  {
    var t := Template([text], []);
    assert FlattenFrom(t, 0) == [Chunk(t.chunks[0])] + [];
  }

  lemma ShortRead(x: string, n: string, concat: bool, y: string, z: string)
    ensures var items := [Chunk(x), If(n, concat), Chunk(y), EndIf, Chunk(z)];
      && Nested(items, [])
      && Completed(items, []) == [Chunk(x), If(n, concat), Chunk(y), Else, Chunk(""), EndIf, Chunk(z)]
  {
    hide Nested, Completed;
    var i5 := [Chunk(z)];
    var i4 := [EndIf] + i5;
    var i3 := [Chunk(y)] + i4;
    var i2 := [If(n, concat)] + i3;
    AtChunk(x, i2, []);
    AtIf(n, concat, i3, []);
    AtChunk(y, i4, [false]);
    AtEndIf(i5, false, []);
    AtChunk(z, [], []);
    AtEnd();
    assert [false] + [] == [false] && i5 == [Chunk(z)] + [];
    assert [Chunk(x), If(n, concat), Chunk(y), EndIf, Chunk(z)] == [Chunk(x)] + i2;
  }

  lemma AtChunk(x: string, rest: seq<Item>, open: seq<bool>)
    ensures Nested([Chunk(x)] + rest, open) <==> Nested(rest, open)
    ensures Completed([Chunk(x)] + rest, open) == [Chunk(x)] + Completed(rest, open)
  {
    assert ([Chunk(x)] + rest)[1..] == rest;
  }

  lemma AtEnd()
    ensures Nested([], []) && Completed([], []) == []
  {
  }

  // ---------------------------------------------------------------- tokens of a template

  /** Names that the parser accepts and leaves as they are. */
  predicate GoodName(name: string) {
    !NameBad(name) && name[|name| - 1] != ' '
  }

  function Shown(x: Item): Token {
    match x
    case Chunk(text) => Token(SCH, text)
    case Leaf(p) => Token(PH, if p.Join? then p.name + ":join(" + Escaped(p.sep) + ")" else p.name)
    case If(name, concat) => Token(IF, if concat then "concat(" + name + ")" else name)
    case Else => Token(ELSE, "else")
    case EndIf => Token(ENDIF, "endif")
    case Bad => Token(PH, "")
  }

  predicate GoodItem(x: Item) {
    match x
    case Leaf(p) => !p.Cond? && GoodName(p.name)
    case If(name, _) => GoodName(name)
    case _ => true
  }

  lemma GoodNameTrim(name: string)
    requires GoodName(name)
    ensures name != "" && Trim(name) && Trimmed(name) == name
    ensures (forall i :: 0 <= i < |name| ==> name[i] != ':' && name[i] != ')')
  {
    assert forall i :: 0 <= i < |name| ==> NameChar(name[i]);
    TrimmedStays(name);
  }

  lemma IndexOfIs(s: string, c: char, n: nat)
    requires n <= |s| && (forall i :: 0 <= i < n ==> s[i] != c) && (n < |s| ==> s[n] == c)
    ensures IndexOf(s, c) == n
  {
  }

  lemma PlainBack(name: string)
    requires GoodName(name)
    ensures Reference(name) == Some(Plain(name))
  {
    hide NameBad, Trimmed;
    GoodNameTrim(name);
    IndexOfIs(name, ':', |name|);
  }

  lemma JoinBack(name: string, sep: string)
    requires GoodName(name)
    ensures Reference(name + ":join(" + Escaped(sep) + ")") == Some(Join(name, sep))
  {
    hide NameBad, Trimmed, Escaped, Unescaped, IndexOf;
    GoodNameTrim(name);
    JoinText(name, Escaped(sep));
    UnescapeUndoesEscape(sep);
  }

  /** There may be white space around the colon, before the parenthesis and at either end. */
  lemma SpacedJoinBack(l: string, name: string, w1: string, w2: string, w3: string, sep: string, r: string)
    requires GoodName(name) && Blank(l) && Blank(w1) && Blank(w2) && Blank(w3) && Blank(r)
    ensures Reference(l + (name + w1 + ":" + (w2 + ("join" + (w3 + ("(" + Escaped(sep) + ")"))))) + r)
      == Some(Join(name, sep))
  {
    hide NameBad, Trimmed, Escaped, Unescaped, IndexOf, Blank, WSPACE;
    GoodNameTrim(name);
    var args := "(" + Escaped(sep) + ")";
    var rest := "join" + (w3 + args);
    var body := name + w1 + ":" + (w2 + rest);
    NotSpace();
    BlankNothing();
    TrimBegins(name);
    Ends(args, '(', ')');
    Ends(rest, 'j', ')');
    Ends(body, name[0], ')');
    TrimmedBetween(l, body, r);
    BlankNoColon(w1);
    IndexOfIs(body, ':', |name + w1|);
    assert body[..|name + w1|] == name + w1 && body[|name + w1| + 1..] == w2 + rest;
    TrimmedBetween("", name, w1);
    assert "" + name + w1 == name + w1;
    TrimmedBetween(w2, rest, "");
    assert w2 + rest + "" == w2 + rest;
    assert rest[4..] == w3 + args;
    TrimmedBetween(w3, args, "");
    assert w3 + args + "" == w3 + args;
    assert args[1..|args| - 1] == Escaped(sep);
    UnescapeUndoesEscape(sep);
  }

  lemma Ends(s: string, first: char, last: char)
    requires s != "" && s[0] == first && s[|s| - 1] == last && first !in WSPACE && last !in WSPACE
    ensures Trim(s)
  {
  }

  lemma NotSpace()
    ensures '(' !in WSPACE && ')' !in WSPACE && 'j' !in WSPACE
  {
  }

  lemma BlankNoColon(w: string)
    requires Blank(w)
    ensures forall i :: 0 <= i < |w| ==> w[i] != ':'
  {
  }

  /** There may be white space before the parenthesis and inside. */
  lemma SpacedConditionBack(w: string, l: string, name: string, r: string)
    requires GoodName(name) && Blank(w) && Blank(l) && Blank(r)
    ensures Condition("concat" + (w + ("(" + (l + name + r))) + ")") == (name, true)
  {
    hide NameBad, Trimmed, TrimLeft, Blank, WSPACE;
    GoodNameTrim(name);
    var args := "(" + (l + name + r);
    var inner := w + args;
    var expr := "concat" + inner + ")";
    assert |expr| >= 9 && expr[|expr| - 1] == ')' && "concat" <= expr && expr[6..|expr| - 1] == inner;
    TrimLeftBetween(w, args);
    assert args[1..] == l + name + r;
    TrimmedBetween(l, name, r);
  }

  lemma TrimLeftBetween(w: string, s: string)
    requires Blank(w) && s != "" && s[0] == '('
    ensures TrimLeft(w + s) == s
  {
    assert forall i :: 0 <= i < |w| ==> (w + s)[i] == w[i];
    TrimLeftIs(w + s, |w|);
    assert (w + s)[|w|..] == s;
  }

  /** The parts of a reference that is joined. */
  lemma JoinText(name: string, esc: string)
    requires GoodName(name)
    ensures var body, rest, args := name + ":join(" + esc + ")", "join(" + esc + ")", "(" + esc + ")";
      && Trimmed(body) == body && Trimmed(rest) == rest && Trimmed(args) == args
      && IndexOf(body, ':') == |name| && body[..|name|] == name && body[|name| + 1..] == rest
      && "join" <= rest && rest[4..] == args && args[1..|args| - 1] == esc
  {
    hide NameBad, Trimmed, IndexOf;
    GoodNameTrim(name);
    var args := "(" + esc + ")";
    var rest := "join" + args;
    var body := name + ":" + rest;
    assert body == name + ":join(" + esc + ")" && rest == "join(" + esc + ")";
    TrimmedStays(args);
    TrimmedStays(rest);
    TrimmedStays(body);
    IndexOfIs(body, ':', |name|);
  }

  /** What is read as a reference is a name, or a name and a join with its separator in parentheses. */
  lemma ReferenceShape(body: string)
    ensures var p := Reference(body);
      p.Some? ==>
        && !p.value.Cond? && !NameBad(p.value.name)
        && (p.value.Plain? ==> Trimmed(body) == p.value.name && ':' !in p.value.name)
        && (p.value.Join? ==> exists before, after, esc ::
          JoinShape(body, before, after, esc) && p.value.name == Trimmed(before) && p.value.sep == Unescaped(esc))
  {
    hide NameBad, Trimmed, Unescaped;
    var t := Trimmed(body);
    var i := IndexOf(t, ':');
    if i < |t| && Reference(body).Some? {
      var rest := Trimmed(t[i + 1..]);
      var args := Trimmed(rest[4..]);
      assert t == t[..i] + ":" + t[i + 1..];
      assert rest == "join" + rest[4..];
      assert |args| >= 2;
      assert args == "(" + args[1..|args| - 1] + ")";
      assert JoinShape(body, t[..i], rest[4..], args[1..|args| - 1]);
    }
  }

  ghost predicate JoinShape(body: string, before: string, after: string, esc: string) {
    && ':' !in before && Trimmed(after) == "(" + esc + ")"
    && exists rest :: Trimmed(body) == before + ":" + rest && Trimmed(rest) == "join" + after
  }

  /** What is read as a condition is all of the expression, or what is in the parentheses of a `concat`. */
  lemma ConditionShape(expr: string)
    ensures !Condition(expr).1 ==> Condition(expr).0 == expr
    ensures Condition(expr).1 ==> exists space, name ::
      && expr == "concat" + space + "(" + name + ")" && TrimLeft(space) == "" &&
        Trimmed(name) == Condition(expr).0 != ""
  {
    hide Trimmed;
    if Condition(expr).1 {
      var inner := expr[6..|expr| - 1];
      var args := TrimLeft(inner);
      var space := LeftOf(inner);
      assert expr == "concat" + inner + ")";
      assert inner == space + args;
      assert args == "(" + args[1..];
      assert expr == "concat" + space + "(" + args[1..] + ")";
    }
  }

  lemma {:induction false} LeftOf(s: string) returns (space: string)
    ensures s == space + TrimLeft(s) && TrimLeft(space) == ""
  {
    if s != "" && s[0] in WSPACE {
      var less := LeftOf(s[1..]);
      space := [s[0]] + less;
      assert space[1..] == less;
      assert s == [s[0]] + s[1..];
    } else {
      space := "";
    }
  }

  lemma ConditionBack(name: string)
    requires GoodName(name)
    ensures Condition(name) == (name, false) && Condition("concat(" + name + ")") == (name, true)
  {
    hide NameBad, Trimmed;
    GoodNameTrim(name);
    var expr := "concat(" + name + ")";
    assert expr[6..|expr| - 1] == "(" + name;
    var args := "(" + name;
    TrimLeftIs(args, 0);
    assert args[0..] == args && args[1..] == name;
  }

  lemma ShownBack(x: Item)
    requires GoodItem(x) && !x.Bad?
    ensures ItemOf(Shown(x)) == x
  {
    hide NameBad, Reference, Condition, Escaped;
    match x
    case Leaf(p) =>
      if p.Join? {
        JoinBack(p.name, p.sep);
      } else {
        PlainBack(p.name);
      }
    case If(name, _) =>
      ConditionBack(name);
    case _ =>
  }

  function ShownTemplate(t: Template): seq<Token>
    requires WfTemplate(t)
  {
    seq(|Flatten(t)|, i requires 0 <= i < |Flatten(t)| => Shown(Flatten(t)[i]))
  }

  /** A template with good names, shown as tokens, is read back. */
  lemma RoundTrip(t: Template)
    requires WfTemplate(t) && forall x :: x in Flatten(t) ==> GoodItem(x)
    ensures Parsed(ShownTemplate(t), Some(t))
  {
    hide GoodItem, Shown, ItemOf, Parsed, Nested, WfTemplate, Flatten;
    var flat := Flatten(t);
    var tokens := ShownTemplate(t);
    NoBadAtAll(t);
    forall i | 0 <= i < |flat| ensures ItemOf(tokens[i]) == flat[i] {
      ShownBack(flat[i]);
    }
    assert Items(tokens) == flat;
    ReadBack(tokens, t);
  }

  lemma NoBadAtAll(t: Template)
    requires WfTemplate(t)
    ensures Bad !in Flatten(t)
  {
    NoBad(t, 0);
  }

  lemma {:induction false} NoBad(t: Template, k: nat)
    requires WfTemplate(t) && k <= |t.phs|
    ensures Bad !in FlattenFrom(t, k)
    decreases t, |t.phs| - k
  {
    hide FlattenPlaceholder, WfPlaceholder;
    if k < |t.phs| {
      NoBadPlaceholder(t.phs[k]);
      NoBad(t, k + 1);
    }
  }

  lemma {:induction false} NoBadPlaceholder(p: Placeholder)
    requires WfPlaceholder(p)
    ensures Bad !in FlattenPlaceholder(p)
    decreases p
  {
    hide FlattenFrom, WfTemplate;
    if p.Cond? {
      NoBad(p.tplThen, 0);
      NoBad(p.tplElse, 0);
    }
  }
}
