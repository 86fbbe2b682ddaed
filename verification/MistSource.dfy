/**
  Templates and their sources (mist_base.c): what is written between markers is read back
  as what it stands for.
*/
module MistSource {
  import opened Options
  import opened MistStrings
  import opened MistTemplates
  import opened MistTokens
  import opened MistParser

  // ---------------------------------------------------------------- one placeholder

  /** How a placeholder is written. */
  function Body(x: Item): string {
    match x
    case Chunk(text) => text
    case Leaf(p) => if p.Join? then p.name + ":join(" + Escaped(p.sep) + ")" else p.name
    case If(name, concat) => if concat then "if concat(" + name + ")" else "if " + name
    case Else => "else"
    case EndIf => "endif"
    case Bad => ""
  }

  predicate Keyword(word: string) {
    word == "if" || word == "else" || word == "endif"
  }

  function FirstWordOf(s: string): string {
    s[..WordLength(s)]
  }

  /** An item other than a chunk that can be written: a reference must not begin with a keyword. */
  predicate Writable(x: Item) {
    !x.Chunk? && !x.Bad? && GoodItem(x) && (x.Leaf? ==> !Keyword(FirstWordOf(Body(x))))
  }

  /** What is classified is what is between white space, by its first word. */
  lemma ClassifyBy(l: string, b: string, r: string)
    requires Blank(l) && Blank(r) && Trim(b) && b != ""
    ensures Classify(l + b + r) ==
      var word := FirstWordOf(b);
      if word == "if" then
        var expr := TrimLeft(b[|word|..]);
        if expr == "" then None else Some(Token(IF, expr))
      else if word == "else" then if b == word then Some(Token(ELSE, b)) else None
      else if word == "endif" then if b == word then Some(Token(ENDIF, b)) else None
      else Some(Token(PH, b))
  {
    hide WSPACE, Trimmed, TrimLeft, WordLength;
    TrimmedBetween(l, b, r);
  }

  lemma BodyTrim(x: Item)
    requires GoodItem(x) && !x.Chunk? && !x.Bad?
    ensures Trim(Body(x)) && Body(x) != ""
  {
    hide NameBad, Escaped;
    match x
    case Leaf(p) => GoodNameTrim(p.name);
    case If(name, _) => GoodNameTrim(name);
    case _ =>
  }

  /** The first word of a condition is `if`, and what follows it is the condition. */
  lemma IfWord(expr: string)
    requires expr != "" && expr[0] !in WSPACE
    ensures FirstWordOf("if " + expr) == "if" && TrimLeft(("if " + expr)[2..]) == expr
  {
    var b := "if " + expr;
    WordLengthIs(b, 2);
    RestIs(b, 3);
    assert b[..2] == "if" && b[3..] == expr;
  }

  lemma WholeWord(s: string)
    requires forall i :: 0 <= i < |s| ==> s[i] !in WSPACE
    ensures FirstWordOf(s) == s
  {
    WordLengthIs(s, |s|);
  }

  lemma Words()
    ensures FirstWordOf("else") == "else" && FirstWordOf("endif") == "endif"
  {
    WholeWord("else");
    WholeWord("endif");
  }

  /**
    A placeholder with good names, written with any white space around it, is read as what it is -
    exactly if it is not a reference that begins with a keyword.
  */
  lemma BodyBack(x: Item, l: string, r: string)
    requires GoodItem(x) && !x.Chunk? && !x.Bad? && Blank(l) && Blank(r)
    ensures (Classify(l + Body(x) + r).Some? && ItemOf(Classify(l + Body(x) + r).value) == x) <==> Writable(x)
    ensures Writable(x) ==> Classify(l + Body(x) + r) == Some(Shown(x))
  {
    hide Trimmed, TrimLeft, WSPACE, WordLength, NameBad, Reference, Condition, Escaped, Classify, FirstWordOf, Blank,
      Trim, GoodItem;
    BodyTrim(x);
    ClassifyBy(l, Body(x), r);
    ShownBack(x);
    match x
    case Leaf(p) =>
      LeafKeyword(x, l, r);
    case If(name, concat) =>
      IfBack(name, concat);
    case Else =>
      Words();
    case EndIf =>
      Words();
    case _ =>
  }

  /** A template may be named like a keyword, but a plain reference to it is read as the keyword. */
  lemma NamedLikeKeyword()
    ensures GoodName("else") && Classify(Body(Leaf(Plain("else")))) == Some(Token(ELSE, "else"))
  {
    hide Trimmed, WSPACE, WordLength;
    BodyTrim(Else);
    Words();
    ClassifyBy("", "else", "");
    assert "" + "else" + "" == "else";
  }

  lemma LeafKeyword(x: Item, l: string, r: string)
    requires x.Leaf? && GoodItem(x) && Body(x) != "" && Blank(l) && Blank(r) && Trim(Body(x))
    ensures Writable(x) ==> Classify(l + Body(x) + r) == Some(Shown(x))
    ensures !Writable(x) ==>
      Classify(l + Body(x) + r) == None || Classify(l + Body(x) + r).value.kind in {IF, ELSE, ENDIF}
    ensures Classify(l + Body(x) + r).Some? && Classify(l + Body(x) + r).value.kind in {IF, ELSE, ENDIF} ==>
      ItemOf(Classify(l + Body(x) + r).value) != x
  {
    hide Trimmed, TrimLeft, WSPACE, WordLength, NameBad, Reference, Condition, Escaped, Classify, Blank, Trim, GoodItem;
    ClassifyBy(l, Body(x), r);
    var word := FirstWordOf(Body(x));
    assert Writable(x) <==> !Keyword(word);
  }

  lemma ConcatBegins(name: string)
    ensures ("concat(" + name + ")")[0] !in WSPACE
  {
    assert ("concat(" + name + ")")[0] == 'c';
  }

  lemma IfBack(name: string, concat: bool)
    requires GoodItem(If(name, concat))
    ensures var x := If(name, concat);
      FirstWordOf(Body(x)) == "if" && TrimLeft(Body(x)[2..]) == Shown(x).text != ""
  {
    hide NameBad, TrimLeft, WordLength, FirstWordOf, NameChar, Trimmed, WSPACE, Trim;
    GoodNameTrim(name);
    TrimBegins(name);
    ConcatBegins(name);
    var expr := Shown(If(name, concat)).text;
    assert Body(If(name, concat)) == "if " + expr;
    IfWord(expr);
  }

  // ---------------------------------------------------------------- a whole source

  /** Items written one after the other, placeholders between markers and with some white space around them. */
  function Written(items: seq<Item>, bm: string, em: string, l: string, r: string): string {
    if items == [] then ""
    else WrittenItem(items[0], bm, em, l, r) + Written(items[1..], bm, em, l, r)
  }

  function WrittenItem(x: Item, bm: string, em: string, l: string, r: string): string {
    if x.Chunk? then x.text else bm + (l + Body(x) + r) + em
  }

  /** No marker begins in the first part of a string. */
  ghost predicate NoneBegins(part: string, rest: string, m: string) {
    var s := part + rest;
    forall q :: 0 <= q < |part| ==> !At(s, q, |s|, m)
  }

  /**
    No chunk and no placeholder contains a marker or makes one with what follows it that would be found first.
  */
  ghost predicate Clear(items: seq<Item>, bm: string, em: string, l: string, r: string) {
    items != [] ==>
      var rest := Written(items[1..], bm, em, l, r);
      && Clear(items[1..], bm, em, l, r)
      && if items[0].Chunk? then NoneBegins(items[0].text, rest, bm) && Nowhere(items[0].text, 0, |items[0].text|, em)
         else
           var b := l + Body(items[0]) + r;
           NoneBegins(b, em + rest, em) && Nowhere(b, 0, |b|, bm)
  }

  /** Chunk, placeholder, ..., chunk. */
  predicate Alternating(items: seq<Item>) {
    |items| % 2 == 1 && forall i :: 0 <= i < |items| ==> (items[i].Chunk? <==> i % 2 == 0)
  }

  function AllShown(items: seq<Item>): seq<Token> {
    seq(|items|, i requires 0 <= i < |items| => Shown(items[i]))
  }

  lemma AtSuffix(pre: string, s: string, q: nat, m: string)
    ensures At(pre + s, |pre| + q, |pre + s|, m) <==> At(s, q, |s|, m)
  {
    if |pre| + q + |m| <= |pre + s| {
      assert (pre + s)[|pre| + q..|pre| + q + |m|] == s[q..q + |m|];
    }
  }

  lemma AtInside(pre: string, part: string, post: string, q: nat, m: string)
    ensures At(pre + part + post, |pre| + q, |pre| + |part|, m) <==> At(part, q, |part|, m)
  {
    if q + |m| <= |part| {
      assert (pre + part + post)[|pre| + q..|pre| + q + |m|] == part[q..q + |m|];
    }
  }

  lemma NowhereInside(pre: string, part: string, post: string, m: string)
    requires Nowhere(part, 0, |part|, m)
    ensures Nowhere(pre + part + post, |pre|, |pre| + |part|, m)
  {
    hide At;
    var s, hi := pre + part + post, |pre| + |part|;
    forall q: int | |pre| <= q <= hi ensures !At(s, q, hi, m) {
      AtInside(pre, part, post, q - |pre|, m);
    }
  }

  /** A marker after a part in which none begins is the first one. */
  lemma FirstAfter(pre: string, part: string, m: string, post: string)
    requires NoneBegins(part, m + post, m)
    ensures FirstAt(pre + (part + (m + post)), |pre|, |pre| + |part|, m)
  {
    var s := part + (m + post);
    var src := pre + s;
    AtSuffix(pre, s, |part|, m);
    assert s[|part|..|part| + |m|] == m;
    forall q: nat | |pre| <= q < |pre| + |part| ensures !At(src, q, |src|, m) {
      AtSuffix(pre, s, q - |pre|, m);
    }
  }

  lemma NoneToEnd(pre: string, text: string, m: string)
    requires NoneBegins(text, "", m) && m != ""
    ensures Nowhere(pre + text, |pre|, |pre + text|, m)
  {
    assert text + "" == text;
    var s := pre + text;
    forall q: int | |pre| <= q <= |s| ensures !At(s, q, |s|, m) {
      AtSuffix(pre, text, q - |pre|, m);
    }
  }

  /** What is written is cut where it was put together, into what it shows. */
  lemma {:induction false} CutAsWritten(pre: string, items: seq<Item>, bm: string, em: string, l: string, r: string)
      returns (cuts: seq<Cut>)
    requires bm != "" && em != "" && Alternating(items) && Clear(items, bm, em, l, r) && Blank(l) && Blank(r)
    requires forall i :: 0 <= i < |items| ==> items[i].Chunk? || Writable(items[i])
    ensures Cuts(pre + Written(items, bm, em, l, r), bm, em, |pre|, cuts)
    ensures TokensOf(pre + Written(items, bm, em, l, r), bm, em, |pre|, cuts) == AllShown(items)
    decreases |items|
  {
    hide Clear, Written, CutHere, Classify, Nowhere, Shown, Writable, NoneBegins, Blank;
    var src := pre + Written(items, bm, em, l, r);
    if |items| == 1 {
      cuts := [];
      LastWritten(pre, items, bm, em, l, r);
    } else {
      var next := NextWritten(pre, items, bm, em, l, r);
      var rest := items[2..];
      var more := CutAsWritten(next, rest, bm, em, l, r);
      var c := Cut(|pre| + |items[0].text|, |next| - |em|);
      cuts := [c] + more;
      assert cuts[0] == c && cuts[1..] == more;
      assert c.end + |em| == |next|;
      assert AllShown(items) == [Shown(items[0]), Shown(items[1])] + AllShown(rest);
    }
  }

  lemma LastWritten(pre: string, items: seq<Item>, bm: string, em: string, l: string, r: string)
    requires bm != "" && em != "" && |items| == 1 && items[0].Chunk? && Clear(items, bm, em, l, r)
    ensures Written(items, bm, em, l, r) == items[0].text
    ensures var src := pre + Written(items, bm, em, l, r);
      && Cuts(src, bm, em, |pre|, []) && TokensOf(src, bm, em, |pre|, []) == AllShown(items)
  {
    hide NoneBegins, Nowhere;
    var text := items[0].text;
    assert Written(items[1..], bm, em, l, r) == "";
    assert Written(items, bm, em, l, r) == text + "" == text;
    NoneToEnd(pre, text, bm);
    NowhereInside(pre, text, "", em);
    assert pre + text + "" == pre + text;
    assert (pre + text)[|pre|..] == text;
  }

  /** The first chunk and placeholder; what comes before the next chunk is returned. */
  lemma NextWritten(pre: string, items: seq<Item>, bm: string, em: string, l: string, r: string) returns (next: string)
    requires bm != "" && em != "" && |items| >= 2 && items[0].Chunk? && Writable(items[1])
    requires Clear(items, bm, em, l, r) && Blank(l) && Blank(r)
    ensures pre + Written(items, bm, em, l, r) == next + Written(items[2..], bm, em, l, r)
    ensures Clear(items[2..], bm, em, l, r)
    ensures var src, c := pre + Written(items, bm, em, l, r), Cut(|pre| + |items[0].text|, |next| - |em|);
      && |next| >= |pre| + |items[0].text| + |bm| + |em| && CutHere(src, bm, em, |pre|, c)
      && Token(SCH, src[|pre|..c.beg]) == Shown(items[0])
      && Classify(src[c.beg + |bm|..c.end]) == Some(Shown(items[1]))
  {
    hide NoneBegins, Nowhere, Clear, Written, Classify, Writable, Blank, FirstAt;
    var text, b := items[0].text, l + Body(items[1]) + r;
    var tail := Written(items[2..], bm, em, l, r);
    GoodOf(items[1]);
    ClearTwo(items, bm, em, l, r);
    WrittenTwo(items, bm, em, l, r);
    next := pre + text + bm + b + em;
    var src := pre + Written(items, bm, em, l, r);
    assert src == pre + (text + (bm + (b + em + tail)));
    Arranged(pre, text, bm, b, em, tail);
    FirstAfter(pre, text, bm, b + em + tail);
    FirstAfter(pre + text + bm, b, em, tail);
    NowhereInside(pre, text, bm + b + em + tail, em);
    NowhereInside(pre + text + bm, b, em + tail, bm);
    BodyBack(items[1], l, r);
  }

  /** The same string in other words, and where its parts are. */
  lemma Arranged(pre: string, text: string, bm: string, b: string, em: string, tail: string)
    ensures var src, next := pre + (text + (bm + (b + em + tail))), pre + text + bm + b + em;
      && src == pre + text + bm + (b + (em + tail))
      && src == pre + text + (bm + b + em + tail)
      && src == pre + text + bm + b + (em + tail)
      && src == next + tail
      && src[|pre|..|pre| + |text|] == text
      && src[|pre| + |text| + |bm|..|next| - |em|] == b
  {
    var src := pre + (text + (bm + (b + em + tail)));
    var s := pre + text + bm + b + em + tail;
    assert src == s;
    assert pre + text + bm + (b + (em + tail)) == s;
    assert pre + text + (bm + b + em + tail) == s;
    assert pre + text + bm + b + (em + tail) == s;
  }

  lemma GoodOf(x: Item)
    requires Writable(x)
    ensures GoodItem(x) && !x.Chunk? && !x.Bad?
  {
  }

  lemma WrittenTwo(items: seq<Item>, bm: string, em: string, l: string, r: string)
    requires |items| >= 2 && items[0].Chunk? && !items[1].Chunk?
    ensures Written(items, bm, em, l, r) ==
      items[0].text + (bm + ((l + Body(items[1]) + r) + em + Written(items[2..], bm, em, l, r)))
  {
    assert items[1..][1..] == items[2..];
  }

  lemma ClearTwo(items: seq<Item>, bm: string, em: string, l: string, r: string)
    requires |items| >= 2 && items[0].Chunk? && !items[1].Chunk? && Clear(items, bm, em, l, r)
    ensures var text, b, tail := items[0].text, l + Body(items[1]) + r, Written(items[2..], bm, em, l, r);
      && NoneBegins(text, bm + (b + em + tail), bm) && Nowhere(text, 0, |text|, em)
      && NoneBegins(b, em + tail, em) && Nowhere(b, 0, |b|, bm)
    ensures Clear(items[2..], bm, em, l, r)
  {
    hide NoneBegins, Nowhere;
    assert items[1..][1..] == items[2..];
    var b := l + Body(items[1]) + r;
    assert Written(items[1..], bm, em, l, r) == bm + (b + em + Written(items[2..], bm, em, l, r));
  }

  // ---------------------------------------------------------------- reading a source

  /**
    This is a source of a template: all of its placeholders can be written, and no marker appears but where it
    is written.
  */
  ghost predicate SourceOf(src: string, bm: string, em: string, t: Template, l: string, r: string) {
    && WfTemplate(t) && Blank(l) && Blank(r)
    && (forall x :: x in Flatten(t) ==> x.Chunk? || Writable(x))
    && Clear(Flatten(t), bm, em, l, r) && src == Written(Flatten(t), bm, em, l, r)
  }

  lemma AlternatesTogether(a: seq<Item>, x: Item, b: seq<Item>)
    requires Alternating(a) && !x.Chunk? && Alternating(b)
    ensures Alternating(a + ([x] + b))
  {
    var items := a + ([x] + b);
    forall i | 0 <= i < |items| ensures items[i].Chunk? <==> i % 2 == 0 {
      if i < |a| {
        assert items[i] == a[i];
      } else if i > |a| {
        var j := i - |a| - 1;
        assert items[i] == b[j];
        assert j % 2 == i % 2;
      }
    }
  }

  lemma {:induction false} FlattenAlternates(t: Template, k: nat)
    requires WfTemplate(t) && k <= |t.phs|
    ensures Alternating(FlattenFrom(t, k))
    decreases t, |t.phs| - k
  {
    hide Alternating, FlattenPlaceholder, WfPlaceholder;
    ChunkAlternates(t.chunks[k]);
    assert [Chunk(t.chunks[k])] + [] == [Chunk(t.chunks[k])];
    if k < |t.phs| {
      FlattenAlternates(t, k + 1);
      PlaceholderAlternates(t.chunks[k], t.phs[k], FlattenFrom(t, k + 1));
    }
  }

  lemma ChunkAlternates(text: string)
    ensures Alternating([Chunk(text)])
  {
  }

  lemma {:induction false} PlaceholderAlternates(text: string, p: Placeholder, more: seq<Item>)
    requires WfPlaceholder(p) && Alternating(more)
    ensures Alternating([Chunk(text)] + (FlattenPlaceholder(p) + more))
    decreases p
  {
    hide Alternating, WfTemplate, FlattenFrom;
    ChunkAlternates(text);
    if p.Cond? {
      var a, b := Flatten(p.tplThen), Flatten(p.tplElse);
      FlattenAlternates(p.tplThen, 0);
      FlattenAlternates(p.tplElse, 0);
      var m1 := b + ([EndIf] + more);
      var m2 := a + ([Else] + m1);
      AlternatesTogether(b, EndIf, more);
      AlternatesTogether(a, Else, m1);
      AlternatesTogether([Chunk(text)], If(p.name, p.concat), m2);
      assert FlattenPlaceholder(p) + more == [If(p.name, p.concat)] + m2;
    } else {
      AlternatesTogether([Chunk(text)], Leaf(p), more);
    }
  }

  /** A source of a template can be cut, and what it is cut into is that template. */
  lemma SourceBack(src: string, bm: string, em: string, t: Template, l: string, r: string)
    requires bm != "" && em != "" && SourceOf(src, bm, em, t, l, r)
    ensures exists cuts :: Cuts(src, bm, em, 0, cuts) && Parsed(TokensOf(src, bm, em, 0, cuts), Some(t))
  {
    hide Cuts, TokensOf, Parsed, Flatten, Clear, Written, Writable, Shown, ItemOf, Blank, WfTemplate, Alternating;
    var items := Flatten(t);
    FlattenWhole(t);
    FlattenAlternates(t, 0);
    var cuts := CutAsWritten("", items, bm, em, l, r);
    assert "" + src == src;
    forall i | 0 <= i < |items| ensures ItemOf(AllShown(items)[i]) == items[i] {
      assert items[i] in items;
      ItemShown(items[i]);
    }
    assert Items(AllShown(items)) == items;
    ReadBack(AllShown(items), t);
  }

  lemma FlattenWhole(t: Template)
    requires WfTemplate(t)
    ensures Flatten(t) == FlattenFrom(t, 0)
  {
  }

  lemma ItemShown(x: Item)
    requires x.Chunk? || Writable(x)
    ensures ItemOf(Shown(x)) == x
  {
    ShownBack(x);
  }

  /**
    A source that cannot be cut at its markers is no template; else its one cut says what it is. What a template
    was written as is read as that template.
  */
  method FromString(src: string, bm: string, em: string) returns (r: Option<Template>)
    requires bm != "" && em != ""
    ensures forall cuts :: Cuts(src, bm, em, 0, cuts) ==> Parsed(TokensOf(src, bm, em, 0, cuts), r)
    ensures r.Some? ==> exists cuts :: Cuts(src, bm, em, 0, cuts)
    ensures forall t, before, after :: SourceOf(src, bm, em, t, before, after) ==> r == Some(t)
  {
    hide Parsed, Cuts, TokensOf, SourceOf;
    forall t, before, after | SourceOf(src, bm, em, t, before, after)
      ensures exists cuts :: Cuts(src, bm, em, 0, cuts) && Parsed(TokensOf(src, bm, em, 0, cuts), Some(t))
    {
      SourceBack(src, bm, em, t, before, after);
    }
    var lexed := Tokenize(src, bm, em);
    if lexed.Failed? {
      return None;
    }
    ghost var cuts :| Cuts(src, bm, em, 0, cuts) && lexed.tokens == TokensOf(src, bm, em, 0, cuts);
    TokensAlternate(src, bm, em, 0, cuts);
    r := FromTokens(lexed.tokens);
    forall c | Cuts(src, bm, em, 0, c) ensures Parsed(TokensOf(src, bm, em, 0, c), r) {
      OneWay(src, bm, em, 0, cuts, c);
    }
    forall t, before, after | SourceOf(src, bm, em, t, before, after) ensures r == Some(t) {
      ghost var c :| Cuts(src, bm, em, 0, c) && Parsed(TokensOf(src, bm, em, 0, c), Some(t));
      OneMeaning(TokensOf(src, bm, em, 0, c), r, Some(t));
    }
  }

  // ---------------------------------------------------------------- when no marker appears by chance

  /** Neither chunks nor placeholders contain the characters that the markers begin with. */
  predicate WithoutMarkerChars(items: seq<Item>, bm: string, em: string, l: string, r: string)
    requires bm != "" && em != ""
  {
    forall x :: x in items ==> bm[0] !in PartOf(x, l, r) && em[0] !in PartOf(x, l, r)
  }

  function PartOf(x: Item, l: string, r: string): string {
    if x.Chunk? then x.text else l + Body(x) + r
  }

  lemma {:induction false} ClearOfChars(items: seq<Item>, bm: string, em: string, l: string, r: string)
    requires bm != "" && em != "" && WithoutMarkerChars(items, bm, em, l, r)
    ensures Clear(items, bm, em, l, r)
  {
    hide Written, Body;
    if items != [] {
      ClearOfChars(items[1..], bm, em, l, r);
      var rest := Written(items[1..], bm, em, l, r);
      var part := PartOf(items[0], l, r);
      NoneOfChar(part, rest, bm);
      NoneOfChar(part, em + rest, em);
      NoneOfChar(part, "", bm);
      NoneOfChar(part, "", em);
      assert part + "" == part;
    }
  }

  lemma NoneOfChar(part: string, rest: string, m: string)
    requires m != "" && m[0] !in part
    ensures NoneBegins(part, rest, m) && Nowhere(part, 0, |part|, m)
  {
    var s := part + rest;
    forall q: int | 0 <= q < |part| ensures !At(s, q, |s|, m) {
      assert q + |m| <= |s| ==> s[q..q + |m|][0] == part[q];
    }
    forall q: int | 0 <= q <= |part| ensures !At(part, q, |part|, m) {
      assert q + |m| <= |part| ==> part[q..q + |m|][0] == part[q];
    }
  }

  /** A conditional as it is usually written. */
  method ReadConditional() returns (r: Option<Template>)
    ensures r == Some(CONDITIONAL)
  {
    hide SourceOf, Cuts, TokensOf, Parsed;
    var bm, em := "<$", "$>";
    ConditionalSource(bm, em);
    r := FromString(bm + "if c" + em + "a" + bm + "else" + em + "b" + bm + "endif" + em, bm, em);
  }

  const CONDITIONAL := Template(["", ""], [Cond("c", false, Template(["a"], []), Template(["b"], []))])
  const CONDITIONAL_ITEMS := [Chunk(""), If("c", false), Chunk("a"), Else, Chunk("b"), EndIf, Chunk("")]

  lemma ConditionalSource(bm: string, em: string)
    requires bm != "" && em != "" && bm[0] in "<$" && em[0] in "<$"
    ensures SourceOf(bm + "if c" + em + "a" + bm + "else" + em + "b" + bm + "endif" + em, bm, em, CONDITIONAL, "", "")
  {
    hide Clear, Written, WfTemplate, Flatten;
    ConditionalFlat();
    ConditionalItems(bm, em);
    ClearOfChars(CONDITIONAL_ITEMS, bm, em, "", "");
    ConditionalWritten(bm, em);
  }

  lemma ConditionalItems(bm: string, em: string)
    requires bm != "" && em != "" && bm[0] in "<$" && em[0] in "<$"
    ensures WithoutMarkerChars(CONDITIONAL_ITEMS, bm, em, "", "")
    ensures forall x :: x in CONDITIONAL_ITEMS ==> x.Chunk? || Writable(x)
  {
    hide Body, PartOf, Writable;
    Parts();
    NoMarkerChar(bm[0]);
    NoMarkerChar(em[0]);
    assert forall x :: x in CONDITIONAL_ITEMS ==>
      x in [Chunk(""), Chunk("a"), Chunk("b")] || x in [If("c", false), Else, EndIf];
  }

  lemma NoMarkerChar(c: char)
    requires c in "<$"
    ensures c !in "" && c !in "a" && c !in "b" && c !in "if c" && c !in "else" && c !in "endif"
  {
  }

  lemma Parts()
    ensures PartOf(Chunk(""), "", "") == "" && PartOf(Chunk("a"), "", "") == "a" && PartOf(Chunk("b"), "", "") == "b"
    ensures PartOf(If("c", false), "", "") == "if c"
    ensures PartOf(Else, "", "") == "else" && PartOf(EndIf, "", "") == "endif"
    ensures Writable(If("c", false)) && Writable(Else) && Writable(EndIf)
    ensures Body(If("c", false)) == "if c" && Body(Else) == "else" && Body(EndIf) == "endif"
  {
    assert GoodName("c");
    assert "if " + "c" == "if c";
  }

  lemma ConditionalFlat()
    ensures WfTemplate(CONDITIONAL) && Flatten(CONDITIONAL) == CONDITIONAL_ITEMS
  {
    var p := CONDITIONAL.phs[0];
    OneChunkFlat("a");
    OneChunkFlat("b");
    assert WfPlaceholder(p);
    assert FlattenFrom(CONDITIONAL, 1) == [Chunk("")];
    assert FlattenPlaceholder(p) == [If("c", false), Chunk("a"), Else, Chunk("b"), EndIf];
  }

  lemma ConditionalWritten(bm: string, em: string)
    ensures Written(CONDITIONAL_ITEMS, bm, em, "", "")
      == bm + "if c" + em + "a" + bm + "else" + em + "b" + bm + "endif" + em
  {
    hide Written, Body;
    var items := CONDITIONAL_ITEMS;
    Parts();
    WrittenTwoMore(items, bm, em);
    WrittenTwoMore(items[2..], bm, em);
    WrittenTwoMore(items[4..], bm, em);
    assert items[2..][2..] == items[4..] && items[4..][2..] == [Chunk("")];
    WrittenChunk("", bm, em);
    ThreeWritten(bm, em, "if c", "a", "else", "b", "endif");
  }

  lemma ThreeWritten(bm: string, em: string, b1: string, c1: string, b2: string, c2: string, b3: string)
    ensures "" + bm + b1 + em + (c1 + bm + b2 + em + (c2 + bm + b3 + em + ""))
      == bm + b1 + em + c1 + bm + b2 + em + c2 + bm + b3 + em
  {
  }

  lemma WrittenTwoMore(items: seq<Item>, bm: string, em: string)
    requires |items| >= 2 && items[0].Chunk? && !items[1].Chunk?
    ensures Written(items, bm, em, "", "")
      == items[0].text + bm + Body(items[1]) + em + Written(items[2..], bm, em, "", "")
  {
    hide Written, Body;
    WrittenTwo(items, bm, em, "", "");
    LeftToRight(items[0].text, bm, Body(items[1]), em, Written(items[2..], bm, em, "", ""));
  }

  lemma LeftToRight(a: string, b: string, c: string, d: string, e: string)
    ensures a + (b + (("" + c + "") + d + e)) == a + b + c + d + e
  {
  }

  lemma WrittenChunk(text: string, bm: string, em: string)
    ensures Written([Chunk(text)], bm, em, "", "") == text
  {
    assert [Chunk(text)][1..] == [];
    assert text + "" == text;
  }
}
