/**
  String functions (mist_string_utils.c): finding characters, trimming, and replacing
  escape sequences. Strings do not contain the terminator.
*/
module MistStrings {
  const WSPACE := " \t\n\r"

  // ---------------------------------------------------------------- finding characters in [beg, end)

  method FindFirstOf(s: string, beg: nat, end: nat, syms: string) returns (pos: nat)
    requires beg <= end <= |s|
    ensures beg <= pos <= end && (forall i :: beg <= i < pos ==> s[i] !in syms) && (pos < end ==> s[pos] in syms)
  {
    pos := beg;
    while pos < end
      invariant beg <= pos <= end && forall i :: beg <= i < pos ==> s[i] !in syms
    {
      var j := 0;
      while j < |syms| && s[pos] != syms[j]
        invariant 0 <= j <= |syms| && forall k :: 0 <= k < j ==> s[pos] != syms[k]
      {
        j := j + 1;
      }
      if j < |syms| {
        break;
      }
      pos := pos + 1;
    }
  }

  method FindFirstNotOf(s: string, beg: nat, end: nat, syms: string) returns (pos: nat)
    requires beg <= end <= |s|
    ensures beg <= pos <= end && (forall i :: beg <= i < pos ==> s[i] in syms) && (pos < end ==> s[pos] !in syms)
  {
    pos := beg;
    while pos < end
      invariant beg <= pos <= end && forall i :: beg <= i < pos ==> s[i] in syms
    {
      var j := 0;
      while j < |syms| && s[pos] != syms[j]
        invariant 0 <= j <= |syms| && forall k :: 0 <= k < j ==> s[pos] != syms[k]
      {
        j := j + 1;
      }
      if j == |syms| {
        break;
      }
      pos := pos + 1;
    }
  }

  /** The last character that is not one of these; `end` if there is none. */
  method FindLastNotOf(s: string, beg: nat, end: nat, syms: string) returns (pos: nat)
    requires beg <= end <= |s|
    ensures beg <= pos <= end && (pos < end ==> s[pos] !in syms && forall i :: pos < i < end ==> s[i] in syms)
    ensures pos == end ==> forall i :: beg <= i < end ==> s[i] in syms
  {
    var p: int := end - 1;
    while p >= beg
      invariant beg - 1 <= p < end && forall i :: p < i < end ==> s[i] in syms
    {
      var j := 0;
      while j < |syms| && s[p] != syms[j]
        invariant 0 <= j <= |syms| && forall k :: 0 <= k < j ==> s[p] != syms[k]
      {
        j := j + 1;
      }
      if j == |syms| {
        return p;
      }
      p := p - 1;
    }
    pos := end;
  }

  // ---------------------------------------------------------------- trimming

  function TrimLeft(s: string): (t: string)
    ensures |t| <= |s| && (t != "" ==> t[0] !in WSPACE)
  {
    if s != "" && s[0] in WSPACE then TrimLeft(s[1..]) else s
  }

  function Trimmed(s: string): string
    decreases |s|
  {
    var t := TrimLeft(s);
    if t != "" && t[|t| - 1] in WSPACE then Trimmed(t[..|t| - 1]) else t
  }

  predicate Trim(s: string) {
    s != "" ==> s[0] !in WSPACE && s[|s| - 1] !in WSPACE
  }

  lemma {:induction false} TrimLeftIs(s: string, i: nat)
    requires i <= |s| && (forall k :: 0 <= k < i ==> s[k] in WSPACE) && (i < |s| ==> s[i] !in WSPACE)
    ensures TrimLeft(s) == s[i..]
  {
    if i > 0 {
      TrimLeftIs(s[1..], i - 1);
    }
  }

  lemma {:induction false} TrimmedIs(s: string, i: nat, j: nat)
    requires i < j <= |s| && (forall k :: 0 <= k < i ==> s[k] in WSPACE) && s[i] !in WSPACE
    requires s[j - 1] !in WSPACE && forall k :: j <= k < |s| ==> s[k] in WSPACE
    ensures Trimmed(s) == s[i..j]
    decreases |s| - j
  {
    TrimLeftIs(s, i);
    var t := s[i..];
    if j < |s| {
      TrimmedIs(t[..|t| - 1], 0, j - i);
    }
  }

  /** What has no white space at its ends stays; else some goes and nothing else. */
  lemma TrimmedStays(s: string)
    requires Trim(s)
    ensures Trimmed(s) == s
  {
    if s != "" {
      TrimmedIs(s, 0, |s|);
    }
  }

  predicate Blank(s: string) {
    forall i :: 0 <= i < |s| ==> s[i] in WSPACE
  }

  lemma TrimmedBetween(l: string, b: string, r: string)
    requires Blank(l) && Blank(r) && Trim(b)
    ensures Trimmed(l + b + r) == b
  {
    hide WSPACE, Trimmed;
    var s := l + b + r;
    if b == "" {
      BlankTrimmed(s);
    } else {
      assert s[|l|..|l| + |b|] == b && s[|l|] == b[0] && s[|l| + |b| - 1] == b[|b| - 1];
      assert forall k :: |l| + |b| <= k < |s| ==> s[k] == r[k - |l| - |b|];
      TrimmedIs(s, |l|, |l| + |b|);
    }
  }

  lemma TrimBegins(s: string)
    requires Trim(s) && s != ""
    ensures s[0] !in WSPACE
  {
  }

  lemma BlankNothing()
    ensures Blank("")
  {
  }

  lemma BlankTrimmed(s: string)
    requires Blank(s)
    ensures Trimmed(s) == ""
  {
    hide WSPACE, TrimLeft;
    TrimLeftIs(s, |s|);
  }

  /** The string of a buffer from `str` on, cut in place. */
  method TrimString(s: string) returns (t: string)
    ensures t == Trimmed(s) && Trim(t)
  {
    if |s| == 0 {
      return "";
    }
    var beg := FindFirstNotOf(s, 0, |s|, WSPACE);
    if beg == |s| {
      TrimLeftIs(s, |s|);
      return "";
    }
    var end := FindLastNotOf(s, 0, |s|, WSPACE);
    if end != |s| {
      end := end + 1;
    }
    TrimmedIs(s, beg, end);
    t := s[beg..end];
  }

  // ---------------------------------------------------------------- names

  predicate NameChar(c: char) {
    c == ' ' || c == '-' || c == '.' || c == '_' || '0' <= c <= '9' || 'A' <= c <= 'Z' || 'a' <= c <= 'z'
  }

  predicate NameBad(name: string) {
    name == "" || name[0] == '.' || name[0] == ' ' || exists i :: 0 <= i < |name| && !NameChar(name[i])
  }

  method NameIsBad(name: string) returns (bad: bool)
    ensures bad == NameBad(name)
    ensures !bad <==>
      && name != "" && name[0] != '.' && name[0] != ' '
      && forall i :: 0 <= i < |name| ==>
        name[i] in " -._" || '0' <= name[i] <= '9' || 'A' <= name[i] <= 'Z' || 'a' <= name[i] <= 'z'
  {
    if |name| == 0 || name[0] == '.' || name[0] == ' ' {
      return true;
    }
    for i := 0 to |name|
      invariant forall k :: 0 <= k < i ==> NameChar(name[k])
    {
      if !NameChar(name[i]) {
        return true;
      }
    }
    bad := false;
  }

  // ---------------------------------------------------------------- escape sequences

  const WHAT := "tnr"
  const TO := "\t\n\r"

  function Special(c: char): char {
    if c == 't' then '\t' else if c == 'n' then '\n' else '\r'
  }

  /** A sequence that is not known stays as it is, and so does a backslash at the end. */
  function Unescaped(s: string): (t: string)
    ensures |t| <= |s|
  {
    if s == "" then ""
    else if s[0] != '\\' then [s[0]] + Unescaped(s[1..])
    else if |s| == 1 then "\\"
    else if s[1] == '\\' then "\\" + Unescaped(s[2..])
    else if s[1] in WHAT then [Special(s[1])] + Unescaped(s[2..])
    else "\\" + Unescaped(s[1..])
  }

  function Escaped(s: string): string {
    if s == "" then ""
    else
      (if s[0] == '\\' then "\\\\"
       else if s[0] == '\t' then "\\t"
       else if s[0] == '\n' then "\\n"
       else if s[0] == '\r' then "\\r"
       else [s[0]]) + Escaped(s[1..])
  }

  lemma {:induction false} UnescapeUndoesEscape(s: string)
    ensures Unescaped(Escaped(s)) == s
  {
    hide Unescaped;
    if s == "" {
      UnescapedEnd();
    } else {
      var c, rest := s[0], s[1..];
      UnescapeUndoesEscape(rest);
      assert s == [c] + rest;
      var e := if c == '\\' then '\\' else if c == '\t' then 't' else if c == '\n' then 'n' else 'r';
      if c in "\\\t\n\r" {
        assert Escaped(s) == ['\\', e] + Escaped(rest);
        UnescapedSequence(e, Escaped(rest));
      } else {
        UnescapedChar(c, Escaped(rest));
      }
    }
  }

  lemma UnescapedEnd()
    ensures Unescaped("") == "" && Unescaped("\\") == "\\"
  {
  }

  lemma UnescapedChar(c: char, rest: string)
    requires c != '\\'
    ensures Unescaped([c] + rest) == [c] + Unescaped(rest)
  {
    assert ([c] + rest)[1..] == rest;
  }

  lemma UnescapedSequence(c: char, rest: string)
    ensures Unescaped(['\\', c] + rest) ==
      if c == '\\' then "\\" + Unescaped(rest)
      else if c in WHAT then [Special(c)] + Unescaped(rest)
      else "\\" + Unescaped([c] + rest)
  {
    var s := ['\\', c] + rest;
    assert s[1..] == [c] + rest && s[2..] == rest;
  }

  /** What the sequence at a backslash stands for. */
  lemma UnescapedAt(s: string, pos: nat)
    requires pos < |s|
    ensures s[pos] != '\\' ==> Unescaped(s[pos..]) == [s[pos]] + Unescaped(s[pos + 1..])
    ensures s[pos] == '\\' ==>
      if pos + 1 == |s| then Unescaped(s[pos..]) == "\\"
      else if s[pos + 1] == '\\' then Unescaped(s[pos..]) == "\\" + Unescaped(s[pos + 2..])
      else if s[pos + 1] in WHAT then Unescaped(s[pos..]) == [Special(s[pos + 1])] + Unescaped(s[pos + 2..])
      else Unescaped(s[pos..]) == "\\" + Unescaped(s[pos + 1..])
  {
    hide Unescaped;
    UnescapedEnd();
    if s[pos] != '\\' {
      assert s[pos..] == [s[pos]] + s[pos + 1..];
      UnescapedChar(s[pos], s[pos + 1..]);
    } else if pos + 1 < |s| {
      assert s[pos..] == ['\\', s[pos + 1]] + s[pos + 2..];
      assert s[pos + 1..] == [s[pos + 1]] + s[pos + 2..];
      UnescapedSequence(s[pos + 1], s[pos + 2..]);
    } else {
      assert s[pos..] == "\\";
    }
  }

  /** There is an escape sequence at some place. */
  predicate HasSequence(s: string) {
    exists i :: 0 <= i < |s| - 1 && s[i] == '\\' && (s[i + 1] == '\\' || s[i + 1] in WHAT)
  }

  /** Nothing changes exactly if there is no escape sequence. */
  lemma {:induction false} UnchangedIff(s: string)
    ensures Unescaped(s) == s <==> !HasSequence(s)
    ensures HasSequence(s) ==> |Unescaped(s)| < |s|
  {
    hide HasSequence;
    if |s| > 1 {
      UnchangedIff(s[1..]);
      SequenceHere(s);
      assert s == [s[0]] + s[1..];
    } else {
      SequenceNot(s);
    }
  }

  lemma SequenceNot(s: string)
    requires |s| <= 1
    ensures !HasSequence(s)
  {
  }

  lemma SequenceHere(s: string)
    requires |s| > 1
    ensures HasSequence(s) <==> (s[0] == '\\' && (s[1] == '\\' || s[1] in WHAT)) || HasSequence(s[1..])
  {
    var t := s[1..];
    if HasSequence(t) {
      var i :| 0 <= i < |t| - 1 && t[i] == '\\' && (t[i + 1] == '\\' || t[i + 1] in WHAT);
      assert s[i + 1] == t[i] && s[i + 2] == t[i + 1];
    }
    if HasSequence(s) && !(s[0] == '\\' && (s[1] == '\\' || s[1] in WHAT)) {
      var i :| 0 <= i < |s| - 1 && s[i] == '\\' && (s[i + 1] == '\\' || s[i + 1] in WHAT);
      assert t[i - 1] == s[i] && t[i] == s[i + 1];
    }
  }

  /** Append a segment of a string to a buffer. */
  method Copy(res: array<char>, r: nat, s: string, beg: nat, end: nat) returns (n: nat)
    requires beg <= end <= |s| && r + (end - beg) <= res.Length
    modifies res
    ensures n == r + (end - beg) && res[..n] == old(res[..r]) + s[beg..end]
  {
    n := r;
    while n < r + (end - beg)
      invariant r <= n <= r + (end - beg) && res[..n] == old(res[..r]) + s[beg..beg + (n - r)]
    {
      res[n] := s[beg + (n - r)];
      n := n + 1;
    }
  }

  /** What has been written, a segment still to be copied, and what is to come. */
  function Whole(written: string, segment: string, rest: string): string {
    written + segment + Unescaped(rest)
  }

  lemma WholeEnds(written: string, segment: string)
    ensures Whole("", "", segment) == Unescaped(segment) && Whole(written, segment, "") == written + segment
  {
  }

  lemma WholeNext(written: string, s: string, beg: nat, pos: nat)
    requires beg <= pos < |s| && s[pos] != '\\'
    ensures Whole(written, s[beg..pos + 1], s[pos + 1..]) == Whole(written, s[beg..pos], s[pos..])
  {
    hide Unescaped;
    UnescapedAt(s, pos);
    assert s[beg..pos + 1] == s[beg..pos] + [s[pos]];
  }

  lemma WholePut(written: string, segment: string, c: char, rest: string, rest': string)
    requires Unescaped(rest) == [c] + Unescaped(rest')
    ensures Whole(written + segment + [c], "", rest') == Whole(written, segment, rest)
  {
    hide Unescaped;
  }

  method Put(res: array<char>, r: nat, c: char)
    requires r < res.Length
    modifies res
    ensures res[..r + 1] == old(res[..r]) + [c]
  {
    res[r] := c;
  }

  /** Copy the segment before a backslash and replace the sequence that it begins. */
  method Replace(res: array<char>, r0: nat, s: string, beg: nat, pos0: nat) returns (r: nat, pos: nat)
    requires r0 <= beg <= pos0 < |s| && res.Length == |s| + 1 && s[pos0] == '\\'
    modifies res
    ensures r <= pos <= |s| && pos0 < pos
    ensures Whole(res[..r], "", s[pos..]) == Whole(old(res[..r0]), s[beg..pos0], s[pos0..])
  {
    hide Unescaped, Whole;
    UnescapedAt(s, pos0);
    UnescapedEnd();
    r := Copy(res, r0, s, beg, pos0);
    pos := pos0 + 1;
    var c := '\\';
    if pos < |s| {
      if s[pos] == '\\' {
        pos := pos + 1;
      } else {
        var i := 0;
        while i < |WHAT| && s[pos] != WHAT[i]
          invariant 0 <= i <= |WHAT| && forall k :: 0 <= k < i ==> s[pos] != WHAT[k]
        {
          i := i + 1;
        }
        if i < |WHAT| {
          c := TO[i];
          pos := pos + 1;
        }
      }
    }
    WholePut(old(res[..r0]), s[beg..pos0], c, s[pos0..], s[pos..]);
    Put(res, r, c);
    r := r + 1;
  }

  /** The segments between sequences are copied as a whole; the buffer is as long as the string. */
  method Unescape(s: string) returns (t: string)
    ensures t == Unescaped(s)
  {
    if |s| < 2 {
      assert |s| == 1 ==> s == [s[0]] + "";
      return s;
    }
    hide Unescaped, Whole;
    var res := new char[|s| + 1];
    var r: nat, beg: nat, pos: nat := 0, 0, 0;
    WholeEnds("", s);
    assert s[0..] == s;
    while pos < |s|
      invariant r <= beg <= pos <= |s|
      invariant Unescaped(s) == Whole(res[..r], s[beg..pos], s[pos..])
    {
      if s[pos] == '\\' {
        r, pos := Replace(res, r, s, beg, pos);
        beg := pos;
      } else {
        WholeNext(res[..r], s, beg, pos);
        pos := pos + 1;
      }
    }
    WholeEnds(res[..r], s[beg..]);
    r := Copy(res, r, s, beg, |s|);
    res[r] := '\0';
    t := res[..r];
  }
}
