/**
  The values of a template, and how mist_base.c writes them: all values are built side
  by side in buffers whose size was computed beforehand.
*/
module MistValues {
  import opened Options

  /** What a placeholder refers to, evaluated; with a separator if its values are joined. */
  datatype PhValues = PhValues(vals: seq<string>, sep: Option<string>)

  // ---------------------------------------------------------------- what the values are

  function Joined(vals: seq<string>, sep: string): string {
    if vals == [] then ""
    else if |vals| == 1 then vals[0]
    else Joined(vals[..|vals| - 1], sep) + sep + vals[|vals| - 1]
  }

  /** The part of value `i` that comes from a placeholder; its last value serves from there on. */
  function Pick(p: PhValues, i: nat): string {
    if p.vals == [] then ""
    else if p.sep.Some? then Joined(p.vals, p.sep.value)
    else if i < |p.vals| then p.vals[i]
    else p.vals[|p.vals| - 1]
  }

  /** Value `i` of a template: chunks with the placeholders' values in between. */
  function Value(chunks: seq<string>, ps: seq<PhValues>, i: nat): string
    requires |chunks| == |ps| + 1
  {
    if ps == [] then chunks[0]
    else Value(chunks[..|ps|], ps[..|ps| - 1], i) + Pick(ps[|ps| - 1], i) + chunks[|ps|]
  }

  /** How many values a template has. */
  function NumValues(ps: seq<PhValues>): (n: nat)
    ensures n >= 1
    ensures forall p :: p in ps && p.sep.None? ==> |p.vals| <= n
    ensures n == 1 || exists p :: p in ps && p.sep.None? && |p.vals| == n
  {
    if ps == [] then 1
    else
      var n := NumValues(ps[..|ps| - 1]);
      var p := ps[|ps| - 1];
      assert forall q :: q in ps ==> q == p || q in ps[..|ps| - 1];
      assert forall q :: q in ps[..|ps| - 1] ==> q in ps;
      if p.sep.None? && n < |p.vals| then |p.vals| else n
  }

  function Values(chunks: seq<string>, ps: seq<PhValues>): (vs: seq<string>)
    requires |chunks| == |ps| + 1
    ensures |vs| == NumValues(ps) && forall i :: 0 <= i < |vs| ==> vs[i] == Value(chunks, ps, i)
  {
    seq(NumValues(ps), i requires 0 <= i => Value(chunks, ps, i))
  }

  // ---------------------------------------------------------------- laws of values

  /** The last value of a placeholder, which is not joined, once more. */
  function LastTwice(p: PhValues): PhValues
    requires p.vals != []
  {
    p.(vals := p.vals + [p.vals[|p.vals| - 1]])
  }

  lemma PickLastTwice(p: PhValues, i: nat)
    requires p.sep.None? && p.vals != []
    ensures Pick(LastTwice(p), i) == Pick(p, i)
  {
  }

  /** Saying the last value of a placeholder once more changes no value: it served from there on. */
  lemma {:induction false} RepeatLast(chunks: seq<string>, ps: seq<PhValues>, k: nat, i: nat)
    requires |chunks| == |ps| + 1 && k < |ps| && ps[k].sep.None? && ps[k].vals != []
    ensures Value(chunks, ps[k := LastTwice(ps[k])], i) == Value(chunks, ps, i)
  {
    hide Pick;
    var n := |ps| - 1;
    var qs := ps[k := LastTwice(ps[k])];
    if k == n {
      assert qs[..n] == ps[..n];
      PickLastTwice(ps[k], i);
    } else {
      assert qs[..n] == ps[..n][k := LastTwice(ps[k])];
      RepeatLast(chunks[..|ps|], ps[..n], k, i);
    }
  }

  lemma ValueOfOne(a: string, p: PhValues, b: string, i: nat)
    ensures Value([a, b], [p], i) == a + Pick(p, i) + b
  {
    assert [a, b][..1] == [a] && [p][..0] == [];
    assert Value([a], [], i) == a;
  }

  /** One placeholder and nothing around it: the values are its own. */
  lemma OnlyPlaceholder(vals: seq<string>)
    requires vals != []
    ensures Values(["", ""], [PhValues(vals, None)]) == vals
  {
    var p := PhValues(vals, None);
    assert p in [p];
    forall i: nat | i < |vals| ensures Value(["", ""], [p], i) == vals[i] {
      ValueOfOne("", p, "", i);
    }
    assert NumValues([p]) == |vals|;
  }

  /** The same if they are joined: one value, of all of them. */
  lemma OnlyJoined(vals: seq<string>, sep: string)
    requires vals != []
    ensures Values(["", ""], [PhValues(vals, Some(sep))]) == [Joined(vals, sep)]
  {
    var p := PhValues(vals, Some(sep));
    ValueOfOne("", p, "", 0);
    assert NumValues([p]) == 1 && Pick(p, 0) == Joined(vals, sep);
    assert "" + Joined(vals, sep) + "" == Joined(vals, sep);
  }

  /** Joined values are, in every value, as good as the one that they are joined to. */
  lemma {:induction false} JoinedIsOne(chunks: seq<string>, ps: seq<PhValues>, k: nat, i: nat)
    requires |chunks| == |ps| + 1 && k < |ps| && ps[k].sep.Some? && ps[k].vals != []
    ensures Value(chunks, ps[k := JoinedToOne(ps[k])], i) == Value(chunks, ps, i)
  {
    hide Joined;
    var n := |ps| - 1;
    var qs := ps[k := JoinedToOne(ps[k])];
    if k == n {
      assert qs[..n] == ps[..n];
    } else {
      assert qs[..n] == ps[..n][k := JoinedToOne(ps[k])];
      JoinedIsOne(chunks[..|ps|], ps[..n], k, i);
    }
  }

  function JoinedToOne(p: PhValues): PhValues
    requires p.sep.Some?
  {
    PhValues([Joined(p.vals, p.sep.value)], None)
  }

  // ---------------------------------------------------------------- how long they can get

  function TotalLength(strs: seq<string>): nat {
    if strs == [] then 0 else TotalLength(strs[..|strs| - 1]) + |strs[|strs| - 1]|
  }

  function LongestLength(strs: seq<string>): (n: nat)
    ensures forall s :: s in strs ==> |s| <= n
  {
    if strs == [] then 0
    else
      var n := LongestLength(strs[..|strs| - 1]);
      var s := strs[|strs| - 1];
      assert forall t :: t in strs ==> t == s || t in strs[..|strs| - 1];
      if n < |s| then |s| else n
  }

  function PhMaxLength(p: PhValues): nat {
    if p.vals == [] then 0
    else if p.sep.Some? then TotalLength(p.vals) + (|p.vals| - 1) * |p.sep.value|
    else LongestLength(p.vals)
  }

  function PhsMaxLength(ps: seq<PhValues>): nat {
    if ps == [] then 0 else PhsMaxLength(ps[..|ps| - 1]) + PhMaxLength(ps[|ps| - 1])
  }

  function MaxLength(chunks: seq<string>, ps: seq<PhValues>): nat {
    TotalLength(chunks) + PhsMaxLength(ps)
  }

  lemma {:induction false} JoinedLength(vals: seq<string>, sep: string)
    requires vals != []
    ensures |Joined(vals, sep)| == TotalLength(vals) + (|vals| - 1) * |sep|
  {
    if |vals| == 1 {
      assert vals[..0] == [];
    } else {
      JoinedLength(vals[..|vals| - 1], sep);
    }
  }

  lemma PickLength(p: PhValues, i: nat)
    ensures |Pick(p, i)| <= PhMaxLength(p)
  {
    if p.vals != [] && p.sep.Some? {
      JoinedLength(p.vals, p.sep.value);
    }
  }

  /** No value is longer than what was computed for the buffers. */
  lemma {:induction false} ValueFits(chunks: seq<string>, ps: seq<PhValues>, i: nat)
    requires |chunks| == |ps| + 1
    ensures |Value(chunks, ps, i)| <= MaxLength(chunks, ps)
  {
    if ps == [] {
      assert chunks[..0] == [];
    } else {
      PickLength(ps[|ps| - 1], i);
      ValueFits(chunks[..|ps|], ps[..|ps| - 1], i);
      assert chunks[..|chunks| - 1] == chunks[..|ps|];
    }
  }

  /** What has been built after some of the placeholders is a prefix of the value. */
  lemma {:induction false} PartFits(chunks: seq<string>, ps: seq<PhValues>, k: nat, i: nat)
    requires |chunks| == |ps| + 1 && k < |ps|
    ensures |Value(chunks[..k + 1], ps[..k], i)| + |Pick(ps[k], i)| + |chunks[k + 1]| <= |Value(chunks, ps, i)|
    ensures Value(chunks[..k + 2], ps[..k + 1], i)
      == Value(chunks[..k + 1], ps[..k], i) + Pick(ps[k], i) + chunks[k + 1]
  {
    assert chunks[..k + 2][..k + 1] == chunks[..k + 1];
    assert ps[..k + 1][..k] == ps[..k];
    if k + 1 == |ps| {
      assert chunks[..k + 2] == chunks && ps[..k + 1] == ps;
    } else {
      PartFits(chunks[..|ps|], ps[..|ps| - 1], k, i);
      assert chunks[..|ps|][..k + 1] == chunks[..k + 1] && ps[..|ps| - 1][..k] == ps[..k];
    }
  }

  // ---------------------------------------------------------------- buffers

  /** The first `n` characters of a row of buffers. */
  ghost function Row(buf: array2<char>, i: nat, n: nat): string
    requires i < buf.Length0 && n <= buf.Length1
    reads buf
  {
    seq(n, j requires 0 <= j < n reads buf => buf[i, j])
  }

  class Builder {
    /** One row per value, and how far each has been written. */
    const buf: array2<char>
    const pos: array<nat>

    ghost predicate Valid()
      reads this, pos
    {
      pos.Length == buf.Length0 && forall i :: 0 <= i < pos.Length ==> pos[i] < buf.Length1
    }

    /** What has been written to a row. */
    ghost function Text(i: nat): (text: string)
      requires Valid() && i < pos.Length
      reads this, buf, pos
      ensures |text| == pos[i]
    {
      Row(buf, i, pos[i])
    }

    constructor (nvals: nat, maxLen: nat)
      ensures Valid() && fresh(buf) && fresh(pos) && pos.Length == nvals && buf.Length1 == maxLen + 1
      ensures forall i :: 0 <= i < nvals ==> Text(i) == ""
    {
      buf := new char[nvals, maxLen + 1]((i, j) => '\0');
      pos := new nat[nvals](i => 0);
    }

    /** Append a string to one row; a character is left for the terminator. */
    method Append(i: nat, str: string)
      requires Valid() && i < pos.Length && pos[i] + |str| < buf.Length1
      modifies buf, pos
      ensures Valid() && Text(i) == old(Text(i)) + str && pos[i] == old(pos[i]) + |str|
      ensures forall j :: 0 <= j < pos.Length && j != i ==> pos[j] == old(pos[j]) && Text(j) == old(Text(j))
    {
      var n := 0;
      var p := pos[i];
      while n < |str|
        invariant n <= |str|
        invariant forall k :: 0 <= k < n ==> buf[i, p + k] == str[k]
        invariant forall a, b :: 0 <= a < buf.Length0 && 0 <= b < buf.Length1 && (a != i || b < p) ==>
          buf[a, b] == old(buf[a, b])
        invariant forall j :: 0 <= j < pos.Length ==> pos[j] == old(pos[j])
      {
        buf[i, p + n] := str[n];
        n := n + 1;
      }
      pos[i] := p + |str|;
      forall b | 0 <= b < pos[i] ensures Text(i)[b] == (old(Text(i)) + str)[b] {
        if b >= p {
          assert buf[i, p + (b - p)] == str[b - p];
        }
      }
      forall j | 0 <= j < pos.Length && j != i ensures Text(j) == old(Text(j)) {
      }
    }

    /** Append a string to every row. */
    method CopyString(str: string)
      requires Valid() && forall i :: 0 <= i < pos.Length ==> pos[i] + |str| < buf.Length1
      modifies buf, pos
      ensures Valid()
      ensures forall i :: 0 <= i < pos.Length ==> Text(i) == old(Text(i)) + str
    {
      for i := 0 to pos.Length
        invariant Valid()
        invariant forall j :: 0 <= j < i ==> Text(j) == old(Text(j)) + str
        invariant forall j :: i <= j < pos.Length ==> pos[j] == old(pos[j]) && Text(j) == old(Text(j))
      {
        Append(i, str);
      }
    }

    /** Append the joined values to the first row. */
    method JoinValues(vals: seq<string>, sep: string)
      requires Valid() && pos.Length > 0 && pos[0] + |Joined(vals, sep)| < buf.Length1
      modifies buf, pos
      ensures Valid() && Text(0) == old(Text(0)) + Joined(vals, sep)
      ensures forall j :: 1 <= j < pos.Length ==> pos[j] == old(pos[j]) && Text(j) == old(Text(j))
    {
      if |vals| == 0 {
        return;
      }
      hide Joined, Text;
      JoinedLength(vals, sep);
      JoinedFirst(vals, sep);
      Append(0, vals[0]);
      for k := 1 to |vals|
        invariant Valid() && Text(0) == old(Text(0)) + Joined(vals[..k], sep)
        invariant forall j :: 1 <= j < pos.Length ==> pos[j] == old(pos[j]) && Text(j) == old(Text(j))
      {
        JoinedNext(vals, sep, k, old(Text(0)));
        Append(0, sep);
        Append(0, vals[k]);
      }
      assert vals[..|vals|] == vals;
    }

    /** Append the values of a placeholder, the last of them to all rows that are left. */
    method CopyPlaceholder(p: PhValues)
      requires Valid() && pos.Length > 0 && (p.sep.None? ==> |p.vals| <= pos.Length)
      requires forall i :: 0 <= i < pos.Length ==> pos[i] + |Pick(p, i)| < buf.Length1
      modifies buf, pos
      ensures Valid()
      ensures forall i :: 0 <= i < pos.Length ==> Text(i) == old(Text(i)) + Pick(p, i)
    {
      if |p.vals| == 0 {
        return;
      }
      if p.sep.Some? {
        var start := pos[0];
        JoinValues(p.vals, p.sep.value);
        var joined := seq(pos[0] - start, j requires 0 <= j < pos[0] - start &&
          pos[0] < buf.Length1 reads buf, pos => buf[0, start + j]);
        assert joined == Text(0)[start..];
        for i := 1 to pos.Length
          invariant Valid() && Text(0) == old(Text(0)) + joined
          invariant forall j :: 0 <= j < i ==> Text(j) == old(Text(j)) + joined
          invariant forall j :: i <= j < pos.Length ==> pos[j] == old(pos[j]) && Text(j) == old(Text(j))
        {
          assert Pick(p, i) == joined;
          Append(i, joined);
        }
      } else {
        for i := 0 to pos.Length
          invariant Valid()
          invariant forall j :: 0 <= j < i ==> Text(j) == old(Text(j)) + Pick(p, j)
          invariant forall j :: i <= j < pos.Length ==> pos[j] == old(pos[j]) && Text(j) == old(Text(j))
        {
          Append(i, if i < |p.vals| then p.vals[i] else p.vals[|p.vals| - 1]);
        }
      }
    }

    /** Write the values of a template, row by row alike. */
    method Fill(chunks: seq<string>, ps: seq<PhValues>)
      requires Valid() && |chunks| == |ps| + 1 && pos.Length == NumValues(ps)
      requires buf.Length1 == MaxLength(chunks, ps) + 1
      requires forall i :: 0 <= i < pos.Length ==> Text(i) == ""
      modifies buf, pos
      ensures Valid() && forall i :: 0 <= i < pos.Length ==> Text(i) == Value(chunks, ps, i)
    {
      hide MaxLength, NumValues;
      forall i | 0 <= i < pos.Length ensures pos[i] + |chunks[0]| < buf.Length1 {
        FirstFits(chunks, ps, i);
        ValueFits(chunks, ps, i);
        assert |Text(i)| == 0;
      }
      CopyString(chunks[0]);
      assert chunks[..1] == [chunks[0]];
      for k := 0 to |ps|
        invariant Valid() && forall i :: 0 <= i < pos.Length ==> Text(i) == Value(chunks[..k + 1], ps[..k], i)
      {
        FillStep(chunks, ps, k);
      }
      assert chunks[..|ps| + 1] == chunks && ps[..|ps|] == ps;
    }

    /** Write one placeholder and the chunk behind it. */
    method FillStep(chunks: seq<string>, ps: seq<PhValues>, k: nat)
      requires Valid() && |chunks| == |ps| + 1 && k < |ps| && pos.Length == NumValues(ps)
      requires buf.Length1 == MaxLength(chunks, ps) + 1
      requires forall i :: 0 <= i < pos.Length ==> Text(i) == Value(chunks[..k + 1], ps[..k], i)
      modifies buf, pos
      ensures Valid() && forall i :: 0 <= i < pos.Length ==> Text(i) == Value(chunks[..k + 2], ps[..k + 1], i)
    {
      hide MaxLength, Value, Pick;
      forall i | 0 <= i < pos.Length ensures pos[i] + |Pick(ps[k], i)| + |chunks[k + 1]| < buf.Length1 {
        PartFits(chunks, ps, k, i);
        ValueFits(chunks, ps, i);
        assert |Text(i)| == |Value(chunks[..k + 1], ps[..k], i)|;
      }
      assert ps[k] in ps;
      CopyPlaceholder(ps[k]);
      forall i | 0 <= i < pos.Length ensures pos[i] + |chunks[k + 1]| < buf.Length1 {
        assert |Text(i)| == |old(Text(i))| + |Pick(ps[k], i)|;
      }
      CopyString(chunks[k + 1]);
      forall i | 0 <= i < pos.Length ensures Text(i) == Value(chunks[..k + 2], ps[..k + 1], i) {
        PartFits(chunks, ps, k, i);
      }
    }

    /** Write the terminators, then the rows are the values. */
    method Read() returns (vals: seq<string>)
      requires Valid()
      modifies buf
      ensures Valid() && |vals| == pos.Length && forall i :: 0 <= i < |vals| ==> vals[i] == old(Text(i))
    {
      for i := 0 to pos.Length
        invariant Valid() && forall a, b :: 0 <= a < pos.Length && 0 <= b < pos[a] ==> buf[a, b] == old(buf[a, b])
      {
        buf[i, pos[i]] := '\0';
      }
      vals := [];
      for i := 0 to pos.Length
        invariant |vals| == i && forall j :: 0 <= j < i ==> vals[j] == old(Text(j))
      {
        var row := seq(pos[i], c requires 0 <= c < pos[i] && pos[i] < buf.Length1 && i < buf.Length0 &&
          i < pos.Length reads buf, pos => buf[i, c]);
        assert row == old(Text(i));
        vals := vals + [row];
      }
    }
  }

  /** Joining some of the values never takes more room than joining all. */
  lemma {:induction false} JoinedPrefix(vals: seq<string>, sep: string, k: nat)
    requires 1 <= k <= |vals|
    ensures |Joined(vals[..k], sep)| <= |Joined(vals, sep)|
  {
    if k == |vals| {
      assert vals[..k] == vals;
    } else {
      JoinedPrefix(vals[..|vals| - 1], sep, k);
      assert vals[..|vals| - 1][..k] == vals[..k];
    }
  }

  lemma JoinedFirst(vals: seq<string>, sep: string)
    requires vals != []
    ensures Joined(vals[..1], sep) == vals[0] && |vals[0]| <= |Joined(vals, sep)|
  {
    JoinedPrefix(vals, sep, 1);
    assert vals[..1] == [vals[0]];
  }

  lemma JoinedNext(vals: seq<string>, sep: string, k: nat, text: string)
    requires 1 <= k < |vals|
    ensures text + Joined(vals[..k], sep) + sep + vals[k] == text + Joined(vals[..k + 1], sep)
    ensures |Joined(vals[..k], sep)| + |sep| + |vals[k]| == |Joined(vals[..k + 1], sep)| <= |Joined(vals, sep)|
  {
    JoinedPrefix(vals, sep, k + 1);
    assert vals[..k + 1][..k] == vals[..k];
    assert Joined(vals[..k + 1], sep) == Joined(vals[..k], sep) + sep + vals[k];
  }

  /** The number of values, as the code counts them. */
  method CountValues(ps: seq<PhValues>) returns (n: nat)
    ensures n == NumValues(ps)
  {
    n := 1;
    for k := 0 to |ps|
      invariant n == NumValues(ps[..k])
    {
      assert ps[..k + 1][..k] == ps[..k];
      if ps[k].sep.None? && n < |ps[k].vals| {
        n := |ps[k].vals|;
      }
    }
    assert ps[..|ps|] == ps;
  }

  lemma BuiltByLaw(chunks: seq<string>, ps: seq<PhValues>)
    requires |chunks| == |ps| + 1
    ensures forall k, i :: 0 <= k < |ps| && ps[k].sep.None? && ps[k].vals != [] && 0 <= i < |Values(chunks, ps)| ==>
      Values(chunks, ps)[i] == Value(chunks, ps[k := LastTwice(ps[k])], i)
    ensures forall k, i :: 0 <= k < |ps| && ps[k].sep.Some? && ps[k].vals != [] && 0 <= i < |Values(chunks, ps)| ==>
      Values(chunks, ps)[i] == Value(chunks, ps[k := JoinedToOne(ps[k])], i)
    ensures chunks == ["", ""] && ps[0].sep.None? && ps[0].vals != [] ==> Values(chunks, ps) == ps[0].vals
  {
    hide Value;
    forall k, i: nat | 0 <= k < |ps| && ps[k].sep.None? && ps[k].vals != []
      ensures Value(chunks, ps, i) == Value(chunks, ps[k := LastTwice(ps[k])], i)
    {
      RepeatLast(chunks, ps, k, i);
    }
    forall k, i: nat | 0 <= k < |ps| && ps[k].sep.Some? && ps[k].vals != []
      ensures Value(chunks, ps, i) == Value(chunks, ps[k := JoinedToOne(ps[k])], i)
    {
      JoinedIsOne(chunks, ps, k, i);
    }
    if chunks == ["", ""] && ps[0].sep.None? && ps[0].vals != [] {
      assert ps == [PhValues(ps[0].vals, None)];
      OnlyPlaceholder(ps[0].vals);
    }
  }

  /** All values of a template: none of the writes leaves its buffer. */
  method BuildValues(chunks: seq<string>, ps: seq<PhValues>) returns (vals: seq<string>)
    requires |chunks| == |ps| + 1
    ensures vals == Values(chunks, ps)
    ensures forall k, i :: 0 <= k < |ps| && ps[k].sep.None? && ps[k].vals != [] && 0 <= i < |vals| ==>
      vals[i] == Value(chunks, ps[k := LastTwice(ps[k])], i)
    ensures forall k, i :: 0 <= k < |ps| && ps[k].sep.Some? && ps[k].vals != [] && 0 <= i < |vals| ==>
      vals[i] == Value(chunks, ps[k := JoinedToOne(ps[k])], i)
    ensures chunks == ["", ""] && ps[0].sep.None? && ps[0].vals != [] ==> vals == ps[0].vals
  {
    hide Value, MaxLength;
    BuiltByLaw(chunks, ps);
    var n := CountValues(ps);
    var b := new Builder(n, MaxLength(chunks, ps));
    b.Fill(chunks, ps);
    vals := b.Read();
  }

  lemma {:induction false} FirstFits(chunks: seq<string>, ps: seq<PhValues>, i: nat)
    requires |chunks| == |ps| + 1
    ensures |chunks[0]| <= |Value(chunks, ps, i)|
  {
    if ps != [] {
      FirstFits(chunks[..|ps|], ps[..|ps| - 1], i);
    }
  }
}
