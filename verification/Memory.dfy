/**
  Memory holding operations structs, with the loops of kedr_coi_instrumentors_impl.c
  that rewrite one struct slot by slot, and the global table of instrumented addresses.
*/
module Memory {
  import opened Layers
  import opened Engine

  /** Without layers only the normal replacements show. */
  lemma RenderBare(c: Config, saved: Struct, off: nat)
    requires off < |saved|
    ensures Slot(Stack(c, []), off, saved[off]) == Over(c.normal, off, saved[off], saved[off])
  {
    assert Stack(c, []) == [c.normal];
    assert [c.normal][..0] == [];
  }

  /** One more layer goes over everything below. */
  lemma StackSnoc(c: Config, layers: seq<FId>, f: FId, off: nat, orig: Fn)
    ensures Slot(Stack(c, layers + [f]), off, orig) == Over(ListOf(c, f), off, orig, Slot(Stack(c, layers), off, orig))
  {
    var stack := Stack(c, layers + [f]);
    assert stack[..|stack| - 1] == Stack(c, layers);
  }

  /** Going over the first entries of a list leaves the offsets of the others as they were. */
  lemma OverPrefix(rs: Replacements, j: nat, off: nat, orig: Fn, below: Fn)
    requires OnePerOffset(rs) && j < |rs|
    ensures Over(rs[..j + 1], off, orig, below) ==
            if rs[j].offset == off then ReplaceGeneric(below, orig, rs[j]) else Over(rs[..j], off, orig, below)
    ensures rs[j].offset == off ==> Over(rs[..j], off, orig, below) == below
  {
    assert rs[..j + 1] == rs[..j] + [rs[j]];
    EntrySnoc(rs[..j], rs[j], off);
    EntryIn(rs[..j], off);
  }

  /** A layer without an entry for a slot does not show in it. */
  lemma HiddenSlot(c: Config, layers: seq<FId>, i: nat, off: nat, orig: Fn)
    requires i < |layers|
    ensures Entry(ListOf(c, layers[i]), off).None? ==>
      Slot(Stack(c, Without(layers, i)), off, orig) == Slot(Stack(c, layers), off, orig)
  {
    var stack := Stack(c, layers);
    assert Without(stack, i + 1) == Stack(c, Without(layers, i));
    assert stack[i + 1] == ListOf(c, layers[i]);
    if Entry(ListOf(c, layers[i]), off).None? {
      SlotWithoutHidden(stack, i + 1, off, orig);
    }
  }

  lemma ListsWf(c: Config, saved: Struct, layers: seq<FId>, i: nat)
    requires WfConfig(c) && Pristine(c, saved) && LayersOk(c, layers) && i < |layers|
    ensures |saved| == c.size && DistinctEntries(c.foreign[layers[i]], c.size)
  {
  }

  function Put(st: Struct, off: nat, op: Fn): (st': Struct)
    requires off < |st|
    ensures |st'| == |st|
  {
    st[off := op]
  }

  class OpsMemory {
    var mem: map<Addr, Struct>
    var owner: map<Addr, nat>

    constructor ()
      ensures mem == map[] && owner == map[]
    {
      mem, owner := map[], map[];
    }

    ghost function K(): Kernel
      reads this
    {
      Kernel(mem, owner)
    }

    method Write(a: Addr, off: nat, op: Fn)
      requires a in mem && off < |mem[a]|
      modifies this`mem
      ensures mem == old(mem)[a := Put(old(mem[a]), off, op)]
    {
      mem := mem[a := Put(mem[a], off, op)];
    }

    /** A copy of a struct, with the normal replacements applied to it. */
    method ReplaceCopy(a: Addr, st: Struct, c: Config)
      requires WfConfig(c) && |st| == c.size
      modifies this`mem
      ensures mem == old(mem)[a := Render(c, st, [])]
    {
      hide WfConfig, Render;
      mem := mem[a := st];
      Replace(a, c);
    }

    /** The normal replacements, applied to a struct that holds its original contents. */
    method Replace(a: Addr, c: Config)
      requires WfConfig(c) && a in mem && |mem[a]| == c.size
      modifies this`mem
      ensures mem == old(mem)[a := Render(c, old(mem[a]), [])]
    {
      ghost var saved := mem[a];
      for j := 0 to |c.normal|
        invariant mem.Keys == old(mem.Keys) && |mem[a]| == c.size
        invariant forall b :: b in mem && b != a ==> mem[b] == old(mem[b])
        invariant forall off :: 0 <= off < c.size ==> mem[a][off] == Over(c.normal[..j], off, saved[off], saved[off])
      {
        var r := c.normal[j];
        forall off | 0 <= off < c.size
          ensures Over(c.normal[..j + 1], off, saved[off], saved[off]) ==
                  if r.offset == off then ReplaceGeneric(saved[off], saved[off], r)
                    else Over(c.normal[..j], off, saved[off], saved[off])
          ensures r.offset == off ==> Over(c.normal[..j], off, saved[off], saved[off]) == saved[off]
        {
          OverPrefix(c.normal, j, off, saved[off], saved[off]);
        }
        var op := mem[a][r.offset];
        Write(a, r.offset, ReplaceGeneric(op, op, r));
      }
      assert c.normal[..|c.normal|] == c.normal;
      forall off | 0 <= off < c.size ensures mem[a][off] == Render(c, saved, [])[off] {
        RenderBare(c, saved, off);
      }
      assert mem[a] == Render(c, saved, []);
    }

    /** One foreign layer more, each slot judged by its original value. */
    method Overlay(a: Addr, c: Config, f: FId, saved: Struct, ghost layers: seq<FId>)
      requires WfConfig(c) && f in c.foreign && |saved| == c.size
      requires a in mem && mem[a] == Render(c, saved, layers)
      modifies this`mem
      ensures mem == old(mem)[a := Render(c, saved, layers + [f])]
    {
      var rs := c.foreign[f];
      ghost var under := mem[a];
      for j := 0 to |rs|
        invariant mem.Keys == old(mem.Keys) && |mem[a]| == c.size
        invariant forall b :: b in mem && b != a ==> mem[b] == old(mem[b])
        invariant forall off :: 0 <= off < c.size ==> mem[a][off] == Over(rs[..j], off, saved[off], under[off])
      {
        var r := rs[j];
        forall off | 0 <= off < c.size
          ensures Over(rs[..j + 1], off, saved[off], under[off]) ==
                  if r.offset == off then ReplaceGeneric(mem[a][off], saved[off], r)
                    else Over(rs[..j], off, saved[off], under[off])
        {
          OverPrefix(rs, j, off, saved[off], under[off]);
        }
        Write(a, r.offset, ReplaceGeneric(mem[a][r.offset], saved[r.offset], r));
      }
      assert rs[..|rs|] == rs;
      forall off | 0 <= off < c.size ensures mem[a][off] == Render(c, saved, layers + [f])[off] {
        StackSnoc(c, layers, f, off, saved[off]);
      }
      assert mem[a] == Render(c, saved, layers + [f]);
    }

    /** Take layer `i` out of a struct, slot by slot. */
    method Detach(a: Addr, c: Config, saved: Struct, layers: seq<FId>, i: nat)
      requires WfConfig(c) && Pristine(c, saved) && LayersOk(c, layers) && i < |layers|
      requires a in mem && mem[a] == Render(c, saved, layers)
      modifies this`mem
      ensures mem == old(mem)[a := Render(c, saved, Without(layers, i))]
    {
      hide Slot, Separate, Over, WfConfig, Apart;
      assert |saved| == c.size && DistinctEntries(c.foreign[layers[i]], c.size) by { ListsWf(c, saved, layers, i); }
      var rs := c.foreign[layers[i]];
      var lists := Lists(c, layers);
      assert lists[i] == rs;
      assert [c.normal] + Without(lists, i) == Stack(c, Without(layers, i));
      for j := 0 to |rs|
        invariant mem.Keys == old(mem.Keys) && |mem[a]| == c.size
        invariant forall b :: b in mem && b != a ==> mem[b] == old(mem[b])
        invariant forall off :: 0 <= off < c.size && Entry(rs[..j], off).None? ==>
          mem[a][off] == Slot(Stack(c, layers), off, saved[off])
        invariant forall off :: 0 <= off < c.size && Entry(rs[..j], off).Some? ==>
          mem[a][off] == Slot(Stack(c, Without(layers, i)), off, saved[off])
      {
        var r := rs[j];
        assert rs[..j + 1] == rs[..j] + [r];
        EntryIn(rs[..j], r.offset);
        forall off | 0 <= off < c.size
          ensures Entry(rs[..j + 1], off).Some? <==> Entry(rs[..j], off).Some? || r.offset == off
        {
          EntrySnoc(rs[..j], r, off);
        }
        SeparateStack(c, saved, layers, r.offset);
        var op := DetachSlot(c.normal, lists, i, r, saved[r.offset], mem[a][r.offset]);
        Write(a, r.offset, op);
      }
      assert rs[..|rs|] == rs;
      forall off | 0 <= off < c.size ensures mem[a][off] == Render(c, saved, Without(layers, i))[off] {
        HiddenSlot(c, layers, i, off, saved[off]);
      }
      assert mem[a] == Render(c, saved, Without(layers, i));
    }

    /** Put original operations back where a replacement is still in place. */
    method Restore(a: Addr, c: Config, saved: Struct)
      requires WfConfig(c) && Pristine(c, saved) && a in mem && mem[a] == Render(c, saved, [])
      modifies this`mem
      ensures mem == old(mem)[a := saved]
    {
      var rs := c.normal;
      forall off | 0 <= off < c.size ensures mem[a][off] == Over(rs, off, saved[off], saved[off]) {
        RenderBare(c, saved, off);
      }
      for j := 0 to |rs|
        invariant mem.Keys == old(mem.Keys) && |mem[a]| == c.size
        invariant forall b :: b in mem && b != a ==> mem[b] == old(mem[b])
        invariant forall off :: 0 <= off < c.size ==>
          mem[a][off] == if Entry(rs[..j], off).Some? then saved[off] else Over(rs, off, saved[off], saved[off])
      {
        var r := rs[j];
        assert rs[..j + 1] == rs[..j] + [r];
        EntryIn(rs, r.offset);
        EntryIn(rs[..j], r.offset);
        forall off | 0 <= off < c.size
          ensures Entry(rs[..j + 1], off).Some? <==> Entry(rs[..j], off).Some? || r.offset == off
        {
          EntrySnoc(rs[..j], r, off);
        }
        if r.repl == mem[a][r.offset] {
          Write(a, r.offset, saved[r.offset]);
        }
      }
      assert rs[..|rs|] == rs;
      assert mem[a] == saved;
    }
  }
}
