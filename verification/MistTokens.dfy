/**
  Lexical analysis of templates (mist_base.c): a source is cut at its markers into string
  chunks and placeholders of some kind.
*/
module MistTokens {
  import opened Options
  import opened MistStrings

  datatype Kind = SCH | PH | IF | ELSE | ENDIF

  datatype Token = Token(kind: Kind, text: string)

  datatype LexError = NoBeginMarker | NoEndMarker | TooManyBeginMarkers | InvalidPlaceholder

  datatype Lexed = Tokens(tokens: seq<Token>) | Failed(error: LexError)

  // ---------------------------------------------------------------- searching

  /** There is an `m` at `p`, not reaching beyond `hi`. */
  predicate At(s: string, p: nat, hi: nat, m: string) {
    p + |m| <= hi <= |s| && s[p..p + |m|] == m
  }

  ghost predicate Nowhere(s: string, lo: nat, hi: nat, m: string) {
    forall q :: lo <= q <= hi ==> !At(s, q, hi, m)
  }

  ghost predicate FirstAt(s: string, lo: nat, p: nat, m: string) {
    lo <= p && At(s, p, |s|, m) && forall q :: lo <= q < p ==> !At(s, q, |s|, m)
  }

  /** The first `m` in a part of a string. */
  method Search(s: string, lo: nat, hi: nat, m: string) returns (pos: Option<nat>)
    requires lo <= hi <= |s|
    ensures pos.None? ==> Nowhere(s, lo, hi, m)
    ensures pos.Some? ==> lo <= pos.value && At(s, pos.value, hi, m) && forall q :: lo <= q < pos.value ==>
      !At(s, q, hi, m)
  {
    var p := lo;
    while p <= hi
      invariant lo <= p <= hi + 1 && forall q :: lo <= q < p ==> !At(s, q, hi, m)
    {
      if At(s, p, hi, m) {
        return Some(p);
      }
      p := p + 1;
    }
    pos := None;
  }

  // ---------------------------------------------------------------- kinds of placeholders

  /** The length of the first word. */
  function WordLength(s: string): (n: nat)
    ensures n <= |s| && (forall i :: 0 <= i < n ==> s[i] !in WSPACE) && (n < |s| ==> s[n] in WSPACE)
  {
    if s == "" || s[0] in WSPACE then 0 else 1 + WordLength(s[1..])
  }

  /** What stands between two markers; `None` if that is no placeholder. */
  function Classify(body: string): (t: Option<Token>)
    ensures t.Some? ==> t.value.kind != SCH
  {
    var b := Trimmed(body);
    var word := b[..WordLength(b)];
    if b == "" then None
    else if word == "if" then
      var expr := TrimLeft(b[2..]);
      if expr == "" then None else Some(Token(IF, expr))
    else if word == "else" then if b == word then Some(Token(ELSE, b)) else None
    else if word == "endif" then if b == word then Some(Token(ENDIF, b)) else None
    else Some(Token(PH, b))
  }

  lemma WordLengthIs(s: string, n: nat)
    requires n <= |s| && (forall i :: 0 <= i < n ==> s[i] !in WSPACE) && (n < |s| ==> s[n] in WSPACE)
    ensures WordLength(s) == n
  {
  }

  lemma PartOfPart(s: string, lo: nat, hi: nat, i: nat, j: nat)
    requires lo <= hi <= |s| && i <= j <= hi - lo
    ensures s[lo..hi][i..j] == s[lo + i..lo + j]
  {
    var a, b := s[lo..hi][i..j], s[lo + i..lo + j];
    assert |a| == |b| && forall k :: 0 <= k < |a| ==> a[k] == b[k];
  }

  /** The range without white space at its ends; empty if there is nothing else. */
  method TrimRange(src: string, beg0: nat, end0: nat) returns (beg: nat, end: nat)
    requires beg0 <= end0 <= |src|
    ensures beg0 <= beg <= end <= end0 && src[beg..end] == Trimmed(src[beg0..end0])
  {
    hide Trimmed, TrimLeft, WSPACE;
    beg := FindFirstNotOf(src, beg0, end0, WSPACE);
    if beg == end0 {
      RangeBlank(src, beg0, end0);
      return beg, beg;
    }
    end := FindLastNotOf(src, beg, end0, WSPACE);
    assert end < end0;
    end := end + 1;
    RangeTrimmed(src, beg0, end0, beg, end);
  }

  lemma RangeBlank(src: string, lo: nat, hi: nat)
    requires lo <= hi <= |src| && forall i :: lo <= i < hi ==> src[i] in WSPACE
    ensures Trimmed(src[lo..hi]) == src[hi..hi]
  {
    hide WSPACE, TrimLeft;
    TrimLeftIs(src[lo..hi], hi - lo);
  }

  lemma RangeTrimmed(src: string, lo: nat, hi: nat, beg: nat, end: nat)
    requires lo <= beg < end <= hi <= |src| && src[beg] !in WSPACE && src[end - 1] !in WSPACE
    requires (forall i :: lo <= i < beg ==> src[i] in WSPACE) && forall i :: end <= i < hi ==> src[i] in WSPACE
    ensures Trimmed(src[lo..hi]) == src[beg..end]
  {
    hide WSPACE, Trimmed;
    var body := src[lo..hi];
    assert forall i :: 0 <= i < |body| ==> body[i] == src[lo + i];
    TrimmedIs(body, beg - lo, end - lo);
    PartOfPart(src, lo, hi, beg - lo, end - lo);
  }

  method TokenFromPlaceholder(src: string, beg0: nat, end0: nat) returns (token: Option<Token>)
    requires beg0 <= end0 <= |src|
    ensures token == Classify(src[beg0..end0])
  {
    hide Trimmed, TrimLeft, WordLength, WSPACE;
    var beg, end := TrimRange(src, beg0, end0);
    if beg == end {
      return None;
    }
    var b := src[beg..end];
    var pos := FindFirstOf(src, beg, end, WSPACE);
    FirstWord(src, beg, pos, end);
    var word := src[beg..pos];
    if word == "if" {
      var next := FindFirstNotOf(src, pos, end, WSPACE);
      AfterIf(src, beg, pos, next, end);
      if next == end {
        return None;
      }
      token := Some(Token(IF, src[next..end]));
    } else if word == "else" {
      token := if pos != end then None else Some(Token(ELSE, b));
    } else if word == "endif" {
      token := if pos != end then None else Some(Token(ENDIF, b));
    } else {
      token := Some(Token(PH, b));
    }
  }

  lemma FirstWord(src: string, beg: nat, pos: nat, end: nat)
    requires beg <= pos <= end <= |src| && (forall i :: beg <= i < pos ==> src[i] !in WSPACE)
    requires pos < end ==> src[pos] in WSPACE
    ensures var b := src[beg..end];
      b[..WordLength(b)] == src[beg..pos] && (b == src[beg..pos] <==> pos == end)
  {
    hide WSPACE, WordLength;
    var b := src[beg..end];
    assert forall i :: 0 <= i < |b| ==> b[i] == src[beg + i];
    WordLengthIs(b, pos - beg);
    PartOfPart(src, beg, end, 0, pos - beg);
  }

  lemma AfterIf(src: string, beg: nat, pos: nat, next: nat, end: nat)
    requires beg + 2 == pos <= next <= end <= |src|
    requires (forall i :: pos <= i < next ==> src[i] in WSPACE) && (next < end ==> src[next] !in WSPACE)
    ensures TrimLeft(src[beg..end][2..]) == src[next..end]
  {
    hide WSPACE, TrimLeft;
    var b := src[beg..end];
    assert forall i :: 0 <= i < |b| ==> b[i] == src[beg + i];
    RestIs(b, next - beg);
    PartOfPart(src, beg, end, next - beg, |b|);
  }

  lemma RestIs(b: string, k: nat)
    requires 2 <= k <= |b| && (forall i :: 2 <= i < k ==> b[i] in WSPACE) && (k < |b| ==> b[k] !in WSPACE)
    ensures TrimLeft(b[2..]) == b[k..]
  {
    TrimLeftIs(b[2..], k - 2);
  }

  // ---------------------------------------------------------------- cutting a source at its markers

  /** Where a begin marker and the end marker that follows it are. */
  datatype Cut = Cut(beg: nat, end: nat)

  /**
    From `str` on, the source consists of these placeholders and chunks in between: no
    marker appears before its place, neither chunks nor placeholders contain one.
  */
  ghost predicate Cuts(src: string, bm: string, em: string, str: nat, cuts: seq<Cut>)
    decreases |cuts|
  {
    str <= |src| &&
    if cuts == [] then Nowhere(src, str, |src|, bm) && Nowhere(src, str, |src|, em)
    else CutHere(src, bm, em, str, cuts[0]) && Cuts(src, bm, em, cuts[0].end + |em|, cuts[1..])
  }

  ghost predicate CutHere(src: string, bm: string, em: string, str: nat, c: Cut) {
    && FirstAt(src, str, c.beg, bm) && FirstAt(src, c.beg + |bm|, c.end, em)
    && Nowhere(src, c.beg + |bm|, c.end, bm) && Nowhere(src, str, c.beg, em)
    && Classify(src[c.beg + |bm|..c.end]).Some?
  }

  ghost function TokensOf(src: string, bm: string, em: string, str: nat, cuts: seq<Cut>): seq<Token>
    requires Cuts(src, bm, em, str, cuts)
    decreases |cuts|
  {
    if cuts == [] then [Token(SCH, src[str..])]
    else
      var c := cuts[0];
      [Token(SCH, src[str..c.beg]), Classify(src[c.beg + |bm|..c.end]).value] + TokensOf(src, bm, em, c.end + |em|,
        cuts[1..])
  }

  /** Chunks and placeholders with the markers around them, put together again. */
  ghost function Assembled(src: string, bm: string, em: string, str: nat, cuts: seq<Cut>): string
    requires Cuts(src, bm, em, str, cuts)
    decreases |cuts|
  {
    if cuts == [] then src[str..]
    else
      var c := cuts[0];
      src[str..c.beg] + bm + src[c.beg + |bm|..c.end] + em + Assembled(src, bm, em, c.end + |em|, cuts[1..])
  }

  /** Neither a chunk nor what stands between two markers contains a marker. */
  lemma NoMarkersInside(src: string, bm: string, em: string, str: nat, c: Cut)
    requires CutHere(src, bm, em, str, c) && bm != "" && em != ""
    ensures Nowhere(src, str, c.beg, bm) && Nowhere(src, str, c.beg, em)
    ensures Nowhere(src, c.beg + |bm|, c.end, bm) && Nowhere(src, c.beg + |bm|, c.end, em)
  {
    hide Classify;
    assert forall q :: str <= q <= c.beg && At(src, q, c.beg, bm) ==> q < c.beg && At(src, q, |src|, bm);
    assert forall q :: c.beg + |bm| <= q <= c.end && At(src, q, c.end, em) ==> q < c.end && At(src, q, |src|, em);
  }

  lemma MarkersAround(src: string, bm: string, em: string, str: nat, c: Cut)
    requires CutHere(src, bm, em, str, c)
    ensures str <= c.beg <= c.beg + |bm| <= c.end <= c.end + |em| <= |src|
    ensures src[c.beg..c.beg + |bm|] == bm && src[c.end..c.end + |em|] == em
  {
    hide Classify;
  }

  /** Nothing of the source is lost. */
  lemma {:induction false} AssembledIsSource(src: string, bm: string, em: string, str: nat, cuts: seq<Cut>)
    requires Cuts(src, bm, em, str, cuts)
    ensures Assembled(src, bm, em, str, cuts) == src[str..]
    decreases |cuts|
  {
    hide Cuts, Assembled;
    if cuts == [] {
      AssembledNone(src, bm, em, str, cuts);
    } else {
      AssembledStep(src, bm, em, str, cuts);
      var c := cuts[0];
      var next := c.end + |em|;
      AssembledIsSource(src, bm, em, next, cuts[1..]);
      RejoinAll(src, str, c.beg, c.beg + |bm|, c.end, next);
    }
  }

  lemma AssembledNone(src: string, bm: string, em: string, str: nat, cuts: seq<Cut>)
    requires cuts == [] && Cuts(src, bm, em, str, cuts)
    ensures str <= |src| && Assembled(src, bm, em, str, cuts) == src[str..]
  {
  }

  lemma AssembledStep(src: string, bm: string, em: string, str: nat, cuts: seq<Cut>)
    requires cuts != [] && Cuts(src, bm, em, str, cuts)
    ensures var c := cuts[0];
      var i1, i2, i3, i4 := c.beg, c.beg + |bm|, c.end, c.end + |em|;
      && str <= i1 <= i2 <= i3 <= i4 <= |src| && Cuts(src, bm, em, i4, cuts[1..])
      && Assembled(src, bm, em, str, cuts)
        == src[str..i1] + src[i1..i2] + src[i2..i3] + src[i3..i4] + Assembled(src, bm, em, i4, cuts[1..])
  {
    hide Classify, Nowhere, CutHere;
    MarkersAround(src, bm, em, str, cuts[0]);
  }

  lemma RejoinAll(s: string, i0: nat, i1: nat, i2: nat, i3: nat, i4: nat)
    requires i0 <= i1 <= i2 <= i3 <= i4 <= |s|
    ensures s[i0..i1] + s[i1..i2] + s[i2..i3] + s[i3..i4] + s[i4..] == s[i0..]
  {
    Rejoin(s, i0, i1);
    Rejoin(s, i1, i2);
    Rejoin(s, i2, i3);
    Rejoin(s, i3, i4);
    Regroup(s[i0..i1], s[i1..i2], s[i2..i3], s[i3..i4], s[i4..]);
  }

  lemma Regroup(a: string, b: string, c: string, d: string, e: string)
    ensures a + b + c + d + e == a + (b + (c + (d + e)))
  {
  }

  lemma Rejoin(s: string, i: nat, j: nat)
    requires i <= j <= |s|
    ensures s[i..] == s[i..j] + s[j..]
  {
  }

  lemma SameCut(src: string, bm: string, em: string, str: nat, c1: Cut, c2: Cut)
    requires CutHere(src, bm, em, str, c1) && CutHere(src, bm, em, str, c2)
    ensures c1 == c2
  {
    hide Classify, At;
  }

  lemma CutOrEnd(src: string, bm: string, em: string, str: nat, c: Cut)
    requires CutHere(src, bm, em, str, c)
    ensures !Nowhere(src, str, |src|, bm)
  {
    hide Classify;
    assert At(src, c.beg, |src|, bm);
  }

  lemma NoCut(src: string, bm: string, em: string, str: nat)
    requires Nowhere(src, str, |src|, bm)
    ensures forall c :: !CutHere(src, bm, em, str, c)
  {
    hide Classify;
    assert forall c :: CutHere(src, bm, em, str, c) ==> At(src, c.beg, |src|, bm);
  }

  lemma NoEnd(src: string, bm: string, em: string, str: nat, beg: nat)
    requires FirstAt(src, str, beg, bm) && Nowhere(src, beg + |bm|, |src|, em)
    ensures forall c :: !CutHere(src, bm, em, str, c)
  {
    hide Classify;
    assert forall c :: CutHere(src, bm, em, str, c) ==> c.beg == beg && At(src, c.end, |src|, em);
  }

  /** There is one way to cut a source at most. */
  lemma {:induction false} OneWay(src: string, bm: string, em: string, str: nat, c1: seq<Cut>, c2: seq<Cut>)
    requires Cuts(src, bm, em, str, c1) && Cuts(src, bm, em, str, c2)
    ensures c1 == c2
    decreases |c1|
  {
    hide CutHere, Nowhere;
    if c1 != [] {
      CutOrEnd(src, bm, em, str, c1[0]);
    }
    if c2 != [] {
      CutOrEnd(src, bm, em, str, c2[0]);
    }
    if c1 != [] && c2 != [] {
      SameCut(src, bm, em, str, c1[0], c2[0]);
      OneWay(src, bm, em, c1[0].end + |em|, c1[1..], c2[1..]);
      assert c1 == [c1[0]] + c1[1..] && c2 == [c2[0]] + c2[1..];
    }
  }

  /** Chunk, placeholder, ..., chunk. */
  predicate Alternate(tokens: seq<Token>) {
    |tokens| % 2 == 1 && forall i :: 0 <= i < |tokens| ==> (tokens[i].kind == SCH <==> i % 2 == 0)
  }

  lemma {:induction false} TokensAlternate(src: string, bm: string, em: string, str: nat, cuts: seq<Cut>)
    requires Cuts(src, bm, em, str, cuts)
    ensures Alternate(TokensOf(src, bm, em, str, cuts)) && |TokensOf(src, bm, em, str, cuts)| == 2 * |cuts| + 1
    decreases |cuts|
  {
    hide Nowhere, FirstAt, Classify;
    if cuts != [] {
      var c := cuts[0];
      TokensAlternate(src, bm, em, c.end + |em|, cuts[1..]);
      var rest := TokensOf(src, bm, em, c.end + |em|, cuts[1..]);
      var tokens := TokensOf(src, bm, em, str, cuts);
      forall i | 0 <= i < |tokens| ensures tokens[i].kind == SCH <==> i % 2 == 0 {
        if i >= 2 {
          assert tokens[i] == rest[i - 2];
        }
      }
    }
  }

  // ---------------------------------------------------------------- errors

  /** After these placeholders the scan is at `str`. */
  ghost predicate Reaches(src: string, bm: string, em: string, from: nat, cuts: seq<Cut>, str: nat)
    decreases |cuts|
  {
    if cuts == [] then from == str
    else CutHere(src, bm, em, from, cuts[0]) && Reaches(src, bm, em, cuts[0].end + |em|, cuts[1..], str)
  }

  lemma {:induction false} ReachesSnoc(src: string, bm: string, em: string, from: nat, cuts: seq<Cut>, str: nat, c: Cut)
    requires Reaches(src, bm, em, from, cuts, str) && CutHere(src, bm, em, str, c)
    ensures Reaches(src, bm, em, from, cuts + [c], c.end + |em|)
    decreases |cuts|
  {
    hide CutHere;
    if cuts != [] {
      ReachesSnoc(src, bm, em, cuts[0].end + |em|, cuts[1..], str, c);
      assert (cuts + [c])[1..] == cuts[1..] + [c];
    }
  }

  /** Markers where a placeholder may be. */
  ghost predicate Bracket(src: string, bm: string, em: string, str: nat, c: Cut) {
    FirstAt(src, str, c.beg, bm) && FirstAt(src, c.beg + |bm|, c.end, em)
  }

  /** Why the scan cannot go on from `str`; the reasons are tried in this order. */
  ghost predicate Stuck(src: string, bm: string, em: string, str: nat, error: LexError) {
    match error
    case NoEndMarker => exists beg: nat :: FirstAt(src, str, beg, bm) && Nowhere(src, beg + |bm|, |src|, em)
    case TooManyBeginMarkers => exists c :: Bracket(src, bm, em, str, c) && !Nowhere(src, c.beg + |bm|, c.end, bm)
    case NoBeginMarker =>
      || (Nowhere(src, str, |src|, bm) && !Nowhere(src, str, |src|, em))
      || (exists c ::
        Bracket(src, bm, em, str, c) && Nowhere(src, c.beg + |bm|, c.end, bm) && !Nowhere(src, str, c.beg, em))
    case InvalidPlaceholder =>
      exists c :: Bracket(src, bm, em, str, c) && Nowhere(src, c.beg + |bm|, c.end, bm) && Nowhere(src, str, c.beg, em)
                  && c.beg + |bm| <= c.end <= |src| && Classify(src[c.beg + |bm|..c.end]) == None
  }

  /** There is one reason at most. */
  lemma OneReason(src: string, bm: string, em: string, str: nat, e1: LexError, e2: LexError)
    requires Stuck(src, bm, em, str, e1) && Stuck(src, bm, em, str, e2)
    ensures e1 == e2
  {
    hide Classify, At;
    if e1 != e2 {
      SameBracket(src, bm, em, str);
      AtIn(src, bm, em, str);
    }
  }

  lemma SameBracket(src: string, bm: string, em: string, str: nat)
    ensures forall c, d :: Bracket(src, bm, em, str, c) && Bracket(src, bm, em, str, d) ==> c == d
  {
    hide At;
  }

  lemma AtIn(src: string, bm: string, em: string, str: nat)
    ensures forall beg: nat :: FirstAt(src, str, beg, bm) ==> !Nowhere(src, str, |src|, bm)
    ensures forall c, beg: nat :: Bracket(src, bm, em, str, c) && FirstAt(src, str, beg, bm) ==>
      c.beg == beg && !Nowhere(src, beg + |bm|, |src|, em)
  {
    forall beg: nat | FirstAt(src, str, beg, bm) ensures !Nowhere(src, str, |src|, bm) {
      assert At(src, beg, |src|, bm);
    }
    forall c, beg: nat | Bracket(src, bm, em, str, c) && FirstAt(src, str, beg, bm)
      ensures c.beg == beg && !Nowhere(src, beg + |bm|, |src|, em)
    {
      assert At(src, c.end, |src|, em);
    }
  }

  // ---------------------------------------------------------------- the scan

  function Rest(c: seq<Cut>, n: nat): seq<Cut> {
    if n <= |c| then c[n..] else []
  }

  /** How far the source has been cut: whatever cuts the whole begins like this. */
  ghost predicate Progress(src: string, bm: string, em: string, done: seq<Cut>, tokens: seq<Token>, str: nat) {
    && (forall c :: Cuts(src, bm, em, 0, c) ==> done <= c && Cuts(src, bm, em, str, Rest(c, |done|)))
    && (forall c :: Cuts(src, bm, em, str, c) ==> Continues(src, bm, em, done, tokens, str, c))
  }

  ghost predicate Continues(src: string, bm: string, em: string, done: seq<Cut>, tokens: seq<Token>, str: nat,
      c: seq<Cut>)
    requires Cuts(src, bm, em, str, c)
  {
    Cuts(src, bm, em, 0, done + c) && TokensOf(src, bm, em, 0, done + c) == tokens + TokensOf(src, bm, em, str, c)
  }

  lemma ProgressNone(src: string, bm: string, em: string)
    ensures Progress(src, bm, em, [], [], 0)
  {
    hide TokensOf, Cuts;
    forall c | Cuts(src, bm, em, 0, c) ensures Rest(c, 0) == c && Continues(src, bm, em, [], [], 0, c) {
      assert [] + c == c;
      var none: seq<Token> := [];
      assert none + TokensOf(src, bm, em, 0, c) == TokensOf(src, bm, em, 0, c);
    }
  }

  lemma ProgressStep(src: string, bm: string, em: string, done: seq<Cut>, tokens: seq<Token>, str: nat, c: Cut)
    requires Progress(src, bm, em, done, tokens, str) && str <= |src| && CutHere(src, bm, em, str, c)
    ensures c.beg + |bm| <= c.end <= c.end + |em| <= |src| && str <= c.beg
    ensures Progress(src, bm, em, done + [c],
      tokens + [Token(SCH, src[str..c.beg]), Classify(src[c.beg + |bm|..c.end]).value], c.end + |em|)
  {
    hide Classify, Continues, Cuts, CutHere;
    CutOk(src, bm, em, str, c);
    var done2, next := done + [c], c.end + |em|;
    forall d | Cuts(src, bm, em, 0, d) ensures done2 <= d && Cuts(src, bm, em, next, Rest(d, |done2|)) {
      StepBack(src, bm, em, done, str, c, d);
    }
    var two := [Token(SCH, src[str..c.beg]), Classify(src[c.beg + |bm|..c.end]).value];
    forall d | Cuts(src, bm, em, next, d) ensures Continues(src, bm, em, done2, tokens + two, next, d) {
      StepOn(src, bm, em, done, tokens, str, c, d);
    }
  }

  lemma CutOk(src: string, bm: string, em: string, str: nat, c: Cut)
    requires CutHere(src, bm, em, str, c)
    ensures str <= c.beg && c.beg + |bm| <= c.end && c.end + |em| <= |src|
    ensures Classify(src[c.beg + |bm|..c.end]).Some?
  {
    hide Classify, Nowhere;
  }

  lemma StepOn(src: string, bm: string, em: string, done: seq<Cut>, tokens: seq<Token>, str: nat, c: Cut, d: seq<Cut>)
    requires Progress(src, bm, em, done, tokens, str) && str <= |src| && CutHere(src, bm, em, str, c)
    requires c.beg + |bm| <= c.end <= |src| && str <= c.beg && Cuts(src, bm, em, c.end + |em|, d)
    requires Classify(src[c.beg + |bm|..c.end]).Some?
    ensures Continues(src, bm, em, done + [c],
      tokens + [Token(SCH, src[str..c.beg]), Classify(src[c.beg + |bm|..c.end]).value], c.end + |em|, d)
  {
    hide Classify, Nowhere, FirstAt;
    var e := [c] + d;
    assert e[0] == c && e[1..] == d;
    assert Cuts(src, bm, em, str, e);
    assert Continues(src, bm, em, done, tokens, str, e);
    assert done + [c] + d == done + e;
    var two := [Token(SCH, src[str..c.beg]), Classify(src[c.beg + |bm|..c.end]).value];
    assert tokens + two + TokensOf(src, bm, em, c.end + |em|, d)
      == tokens + (two + TokensOf(src, bm, em, c.end + |em|, d));
  }

  lemma StepBack(src: string, bm: string, em: string, done: seq<Cut>, str: nat, c: Cut, d: seq<Cut>)
    requires done <= d && Cuts(src, bm, em, str, Rest(d, |done|)) && CutHere(src, bm, em, str, c)
    ensures done + [c] <= d && Cuts(src, bm, em, c.end + |em|, Rest(d, |done| + 1))
  {
    hide CutHere, Nowhere;
    CutOrEnd(src, bm, em, str, c);
    var e := d[|done|..];
    SameCut(src, bm, em, str, c, e[0]);
    assert e[1..] == d[|done| + 1..];
  }

  /** If the rest cannot be cut, the whole cannot. */
  lemma NoProgress(src: string, bm: string, em: string, done: seq<Cut>, tokens: seq<Token>, str: nat)
    requires !Nowhere(src, str, |src|, bm) || !Nowhere(src, str, |src|, em)
    requires Progress(src, bm, em, done, tokens, str) && forall c :: !CutHere(src, bm, em, str, c)
    ensures forall c :: !Cuts(src, bm, em, 0, c)
  {
    hide CutHere, Nowhere;
    forall c ensures !Cuts(src, bm, em, 0, c) {
      assert Cuts(src, bm, em, 0, c) ==> Cuts(src, bm, em, str, Rest(c, |done|));
    }
  }

  /** A source is split into tokens exactly if it can be cut, and then into the tokens of that cut. */
  method Tokenize(src: string, bm: string, em: string) returns (r: Lexed)
    requires bm != "" && em != ""
    ensures r.Tokens? ==> exists cuts :: Cuts(src, bm, em, 0, cuts) && r.tokens == TokensOf(src, bm, em, 0, cuts)
    ensures r.Failed? ==> forall cuts :: !Cuts(src, bm, em, 0, cuts)
    ensures r.Failed? ==> exists cuts, str :: Reaches(src, bm, em, 0, cuts, str) && Stuck(src, bm, em, str, r.error)
  {
    hide Classify, At, Progress, Cuts, TokensOf, Reaches, Stuck;
    assert Reaches(src, bm, em, 0, [], 0) by {
      ReachesNothing(src, bm, em);
    }
    var tokens: seq<Token> := [];
    var str := 0;
    ghost var done: seq<Cut> := [];
    ProgressNone(src, bm, em);
    while true
      invariant str <= |src| && Progress(src, bm, em, done, tokens, str) && Reaches(src, bm, em, 0, done, str)
      decreases |src| - str
    {
      var cut, token;
      cut, token, r := NextCut(src, bm, em, str);
      if cut.None? {
        if r.Failed? {
          NoProgress(src, bm, em, done, tokens, str);
        } else {
          LastChunk(src, bm, em, done, tokens, str);
          r := Tokens(tokens + [Token(SCH, src[str..])]);
        }
        return;
      }
      ProgressStep(src, bm, em, done, tokens, str, cut.value);
      ReachesSnoc(src, bm, em, 0, done, str, cut.value);
      tokens := tokens + [Token(SCH, src[str..cut.value.beg]), token];
      done := done + [cut.value];
      str := cut.value.end + |em|;
    }
  }

  lemma ReachesNothing(src: string, bm: string, em: string)
    ensures Reaches(src, bm, em, 0, [], 0)
  {
  }

  lemma LastChunk(src: string, bm: string, em: string, done: seq<Cut>, tokens: seq<Token>, str: nat)
    requires str <= |src| && Progress(src, bm, em, done, tokens, str)
    requires Nowhere(src, str, |src|, bm) && Nowhere(src, str, |src|, em)
    ensures Cuts(src, bm, em, 0, done) && TokensOf(src, bm, em, 0, done) == tokens + [Token(SCH, src[str..])]
  {
    hide Nowhere;
    assert Cuts(src, bm, em, str, []);
    assert Continues(src, bm, em, done, tokens, str, []);
    assert done + [] == done;
  }

  /** One round of the scan: the next placeholder, or the end of the source, or an error. */
  method NextCut(src: string, bm: string, em: string, str: nat) returns (cut: Option<Cut>, token: Token, r: Lexed)
    requires bm != "" && em != "" && str <= |src|
    ensures cut.Some? ==> CutHere(src, bm, em, str, cut.value)
    ensures cut.Some? ==> Some(token) == Classify(src[cut.value.beg + |bm|..cut.value.end])
    ensures cut.None? && r.Tokens? ==> Nowhere(src, str, |src|, bm) && Nowhere(src, str, |src|, em)
    ensures cut.None? && r.Failed? ==> forall c :: !CutHere(src, bm, em, str, c)
    ensures cut.None? && r.Failed? ==> !Nowhere(src, str, |src|, bm) || !Nowhere(src, str, |src|, em)
    ensures cut.None? && r.Failed? ==> Stuck(src, bm, em, str, r.error)
  {
    hide Classify, At;
    cut, token, r := None, Token(SCH, ""), Tokens([]);
    var beg := Search(src, str, |src|, bm);
    if beg.None? {
      var lone := Search(src, str, |src|, em);
      if lone.Some? {
        NoCut(src, bm, em, str);
        r := Failed(NoBeginMarker);
      }
      return;
    }
    var pos := beg.value + |bm|;
    AtFits(src, beg.value, |src|, bm);
    var end := Search(src, pos, |src|, em);
    if end.None? {
      NoEnd(src, bm, em, str, beg.value);
      return None, token, Failed(NoEndMarker);
    }
    AtFits(src, end.value, |src|, em);
    ghost var here := Cut(beg.value, end.value);
    assert Bracket(src, bm, em, str, here);
    var other := Search(src, pos, end.value, bm);
    if other.Some? {
      return None, token, Failed(TooManyBeginMarkers);
    }
    other := Search(src, str, beg.value, em);
    if other.Some? {
      return None, token, Failed(NoBeginMarker);
    }
    var tok := TokenFromPlaceholder(src, pos, end.value);
    if tok.None? {
      return None, token, Failed(InvalidPlaceholder);
    }
    cut, token := Some(Cut(beg.value, end.value)), tok.value;
  }

  lemma AtFits(s: string, p: nat, hi: nat, m: string)
    requires At(s, p, hi, m)
    ensures p + |m| <= hi <= |s|
  {
  }
}
