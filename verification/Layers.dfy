/**
  What one slot of a replaced operations struct holds.

  A normal instrumentor replaces some slots of a struct; any number of foreign
  (factory) instrumentors then put further replacements on top, each judging the
  slot by its ORIGINAL value.  `Slot` says what a stack of replacement lists makes
  of a slot; the methods are the loops of kedr_coi_instrumentors_impl.c over one
  slot, proved against it.
*/
module Layers {
  import opened Options

  /** The address of a function; 0 is the null pointer. */
  type Fn = nat
  const NULL: nat := 0

  /** The contents of an operations struct, one function pointer per offset. */
  type Struct = seq<Fn>

  datatype Mode = ReplaceNull | ReplaceNotNull | ReplaceAll

  datatype Replacement = Replacement(offset: nat, repl: Fn, mode: Mode)

  type Replacements = seq<Replacement>

  predicate Applies(mode: Mode, orig: Fn) {
    match mode
    case ReplaceAll => true
    case ReplaceNotNull => orig != NULL
    case ReplaceNull => orig == NULL
  }

  /** One step of a replacement loop: what is judged is the original value, not the current one. */
  function ReplaceGeneric(op: Fn, orig: Fn, r: Replacement): Fn {
    if Applies(r.mode, orig) then r.repl else op
  }

  ghost predicate OnePerOffset(rs: Replacements) {
    forall i, j :: 0 <= i < j < |rs| ==> rs[i].offset != rs[j].offset
  }

  /** The entry for an offset. */
  ghost function Entry(rs: Replacements, off: nat): Option<Replacement> {
    if rs == [] then None
    else if rs[0].offset == off then Some(rs[0])
    else Entry(rs[1..], off)
  }

  /** The list has an entry that replaces a slot whose original value is `orig`. */
  ghost predicate Active(rs: Replacements, off: nat, orig: Fn) {
    var e := Entry(rs, off);
    e.Some? && Applies(e.value.mode, orig)
  }

  /** The slot after one list of replacements went over it. */
  ghost function Over(rs: Replacements, off: nat, orig: Fn, below: Fn): Fn {
    if Active(rs, off, orig) then Entry(rs, off).value.repl else below
  }

  /** The slot after a whole stack of lists, bottom first, went over its original value. */
  ghost function Slot(stack: seq<Replacements>, off: nat, orig: Fn): Fn {
    if stack == [] then orig
    else Over(stack[|stack| - 1], off, orig, Slot(stack[..|stack| - 1], off, orig))
  }

  /** No two lists of the stack use the same function at an offset, and none uses the original one. */
  ghost predicate Separate(stack: seq<Replacements>, off: nat, orig: Fn) {
    && (forall i :: 0 <= i < |stack| ==> OnePerOffset(stack[i]))
    && (forall i :: 0 <= i < |stack| && Entry(stack[i], off).Some? ==> Entry(stack[i], off).value.repl != orig)
    && (forall i, j :: 0 <= i < j < |stack| && Entry(stack[i], off).Some? && Entry(stack[j], off).Some? ==>
          Entry(stack[i], off).value.repl != Entry(stack[j], off).value.repl)
  }

  function Without<T>(s: seq<T>, i: nat): seq<T>
    requires i < |s|
  {
    s[..i] + s[i + 1..]
  }

  // ---------------------------------------------------------------- entries

  lemma {:induction false} EntryIn(rs: Replacements, off: nat)
    ensures Entry(rs, off).Some? ==> Entry(rs, off).value in rs && Entry(rs, off).value.offset == off
    ensures Entry(rs, off).None? ==> forall r :: r in rs ==> r.offset != off
    ensures OnePerOffset(rs) ==> forall r :: r in rs && r.offset == off ==> Entry(rs, off) == Some(r)
  {
    if rs != [] {
      EntryIn(rs[1..], off);
      assert forall r :: r in rs ==> r == rs[0] || r in rs[1..];
    }
  }

  lemma {:induction false} EntrySnoc(rs: Replacements, r: Replacement, off: nat)
    ensures Entry(rs + [r], off) ==
            if Entry(rs, off).Some? then Entry(rs, off) else if r.offset == off then Some(r) else None
  {
    if rs == [] {
      assert rs + [r] == [r];
    } else {
      assert (rs + [r])[1..] == rs[1..] + [r];
      EntrySnoc(rs[1..], r, off);
    }
  }

  // ---------------------------------------------------------------- the stack

  /** The index of the topmost list that replaces the slot, or -1. */
  ghost function TopActive(stack: seq<Replacements>, off: nat, orig: Fn): (t: int)
    ensures -1 <= t < |stack|
    ensures t >= 0 ==> Active(stack[t], off, orig)
    ensures forall j :: t < j < |stack| ==> !Active(stack[j], off, orig)
  {
    if stack == [] then -1
    else if Active(stack[|stack| - 1], off, orig) then |stack| - 1
    else TopActive(stack[..|stack| - 1], off, orig)
  }

  /** A slot holds the replacement of the topmost list that applies to its original value, else the original. */
  lemma {:induction false} SlotIsTopmost(stack: seq<Replacements>, off: nat, orig: Fn)
    ensures var t := TopActive(stack, off, orig);
            Slot(stack, off, orig) == if t >= 0 then Entry(stack[t], off).value.repl else orig
  {
    if stack != [] {
      SlotIsTopmost(stack[..|stack| - 1], off, orig);
    }
  }

  lemma NormalAlone(normal: Replacements, off: nat, orig: Fn)
    ensures Slot([normal], off, orig) == Over(normal, off, orig, orig)
  {
    assert [normal][..0] == [];
  }

  /** Lists above index `n` that do not replace the slot do not show. */
  lemma {:induction false} SlotDrop(stack: seq<Replacements>, n: nat, off: nat, orig: Fn)
    requires n <= |stack|
    requires forall j :: n <= j < |stack| ==> !Active(stack[j], off, orig)
    ensures Slot(stack, off, orig) == Slot(stack[..n], off, orig)
  {
    if n < |stack| {
      SlotDrop(stack[..|stack| - 1], n, off, orig);
      assert stack[..|stack| - 1][..n] == stack[..n];
    } else {
      assert stack[..n] == stack;
    }
  }

  /** A slot shows list `i` exactly when `i` is the topmost one that applies. */
  lemma SlotShows(stack: seq<Replacements>, i: nat, off: nat, orig: Fn)
    requires i < |stack| && Separate(stack, off, orig)
    requires Entry(stack[i], off).Some?
    ensures Slot(stack, off, orig) == Entry(stack[i], off).value.repl <==> TopActive(stack, off, orig) == i
  {
    SlotIsTopmost(stack, off, orig);
  }

  /** Taking out a list that does not show leaves the slot as it is. */
  lemma {:induction false} SlotWithoutHidden(stack: seq<Replacements>, i: nat, off: nat, orig: Fn)
    requires i < |stack|
    requires TopActive(stack, off, orig) != i
    ensures Slot(Without(stack, i), off, orig) == Slot(stack, off, orig)
  {
    var n := |stack| - 1;
    if i == n {
      assert Without(stack, i) == stack[..n];
    } else {
      assert Without(stack, i)[..n - 1] == Without(stack[..n], i);
      assert Without(stack, i)[n - 1] == stack[n];
      if !Active(stack[n], off, orig) {
        SlotWithoutHidden(stack[..n], i, off, orig);
      }
    }
  }

  /** Taking out the list that shows uncovers what was below it when it was put on. */
  lemma SlotWithoutTop(stack: seq<Replacements>, i: nat, off: nat, orig: Fn)
    requires i < |stack|
    requires TopActive(stack, off, orig) == i
    ensures Slot(Without(stack, i), off, orig) == Slot(stack[..i], off, orig)
  {
    var w := Without(stack, i);
    assert forall j :: i <= j < |w| ==> w[j] == stack[j + 1];
    SlotDrop(w, i, off, orig);
    assert w[..i] == stack[..i];
  }

  // ---------------------------------------------------------------- the loops over one slot

  /** Apply every entry of a list for one offset to a slot. */
  method ReplaceSlot(rs: Replacements, off: nat, orig: Fn, op: Fn) returns (op': Fn)
    requires OnePerOffset(rs)
    ensures op' == Over(rs, off, orig, op)
  {
    op' := op;
    for j := 0 to |rs|
      invariant op' == Over(rs[..j], off, orig, op)
    {
      assert rs[..j + 1] == rs[..j] + [rs[j]];
      EntrySnoc(rs[..j], rs[j], off);
      EntryIn(rs[..j], off);
      if rs[j].offset == off {
        op' := ReplaceGeneric(op', orig, rs[j]);
      }
    }
    assert rs[..|rs|] == rs;
  }

  /** What the slot of an object watched by the normal instrumentor alone would hold. */
  method NormalOperation(normal: Replacements, off: nat, orig: Fn) returns (op: Fn)
    requires OnePerOffset(normal)
    ensures op == Slot([normal], off, orig)
  {
    op := orig;
    EntryIn(normal, off);
    assert [normal][..0] == [];
    for j := 0 to |normal|
      invariant op == orig
      invariant forall n :: 0 <= n < j ==> normal[n].offset != off
    {
      if normal[j].offset == off {
        op := ReplaceGeneric(op, op, normal[j]);
        break;
      }
    }
  }

  /** What layer `i` passes a call on to: the layers below it, skipping the normal replacement. */
  method ChainOperation(layers: seq<Replacements>, i: nat, off: nat, orig: Fn) returns (op: Fn)
    requires i < |layers| && Separate(layers, off, orig)
    ensures op == Slot(layers[..i], off, orig)
  {
    op := orig;
    var k := i;
    while k > 0
      invariant 0 <= k <= i && op == orig
      invariant Slot(layers[..k], off, orig) == Slot(layers[..i], off, orig)
    {
      k := k - 1;
      assert layers[..k + 1][..k] == layers[..k];
      EntryIn(layers[k], off);
      var rs := layers[k];
      for j := 0 to |rs|
        invariant op == orig
        invariant forall n :: 0 <= n < j && rs[n].offset == off ==> !Applies(rs[n].mode, orig)
      {
        if rs[j].offset == off {
          op := ReplaceGeneric(op, op, rs[j]);
          if op != orig {
            return op;
          }
        }
      }
    }
  }

  /**
    Take layer `i` out of one slot.  The slot is left alone unless it shows the layer's own
    replacement; otherwise the lower layers, then the normal list, are replayed from the top
    until the slot changes, and the original value is the last resort.
  */
  method DetachSlot(normal: Replacements, layers: seq<Replacements>, i: nat, r: Replacement, orig: Fn, op: Fn)
      returns (op': Fn)
    requires i < |layers| && r in layers[i]
    requires Separate([normal] + layers, r.offset, orig)
    requires op == Slot([normal] + layers, r.offset, orig)
    ensures op' == Slot([normal] + Without(layers, i), r.offset, orig)
  {
    var off := r.offset;
    ghost var stack := [normal] + layers;
    assert stack[i + 1] == layers[i];
    EntryIn(stack[i + 1], off);
    SlotShows(stack, i + 1, off, orig);
    assert Without(stack, i + 1) == [normal] + Without(layers, i);
    op' := op;
    if op' != r.repl {
      SlotWithoutHidden(stack, i + 1, off, orig);
      return;
    }
    SlotWithoutTop(stack, i + 1, off, orig);
    assert [normal] + layers[..i] == stack[..i + 1];
    forall rs | rs in [normal] + layers[..i]
      ensures OnePerOffset(rs) && (Entry(rs, off).Some? ==> Entry(rs, off).value.repl != r.repl)
    {
      var n :| 0 <= n <= i && stack[n] == rs;
    }
    op' := ReplayBelow(normal, layers[..i], off, orig, r.repl);
  }

  /** The lists below a layer, from the top, over a slot that shows the layer's own replacement. */
  method ReplayBelow(normal: Replacements, layers: seq<Replacements>, off: nat, orig: Fn, own: Fn) returns (op': Fn)
    requires forall rs :: rs in [normal] + layers ==>
      OnePerOffset(rs) && (Entry(rs, off).Some? ==> Entry(rs, off).value.repl != own)
    ensures op' == Slot([normal] + layers, off, orig)
  {
    hide OnePerOffset, Entry;
    ghost var stack := [normal] + layers;
    op' := own;
    var k := |layers|;
    assert stack[..k + 1] == stack;
    while k > 0
      invariant 0 <= k <= |layers| && op' == own
      invariant Slot(stack[..k + 1], off, orig) == Slot(stack, off, orig)
    {
      k := k - 1;
      assert stack[..k + 2][..k + 1] == stack[..k + 1] && stack[k + 1] == layers[k];
      op' := ReplaceSlot(layers[k], off, orig, op');
      if op' != own {
        return;
      }
    }
    assert stack[..1] == [normal] && [normal][..0] == [];
    assert stack[0] == normal;
    op' := ReplayNormal(normal, off, orig, op');
  }

  /** The normal list alone, over a slot that shows none of its replacements. */
  method ReplayNormal(normal: Replacements, off: nat, orig: Fn, op: Fn) returns (op': Fn)
    requires OnePerOffset(normal) && (Entry(normal, off).Some? ==> Entry(normal, off).value.repl != op)
    ensures op' == Over(normal, off, orig, orig)
  {
    EntryIn(normal, off);
    op' := op;
    for j := 0 to |normal|
      invariant op' == op
      invariant forall n :: 0 <= n < j && normal[n].offset == off ==> !Applies(normal[n].mode, orig)
    {
      if normal[j].offset == off {
        op' := ReplaceGeneric(op', orig, normal[j]);
        if op' != op {
          break;
        }
      }
    }
    if op' == op {
      op' := orig;
    }
  }
}
