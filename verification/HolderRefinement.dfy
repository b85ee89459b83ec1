/** What the holder of a buffer writes, in bytes: data, the header updates of `done` and the reset of a
    slice are exactly the block updates the buffer modules make, and touch no other block. */
module HolderRefinement {
  import opened Bytes
  import opened BufferLists
  import opened PoolLayout
  import opened PoolRefinement
  import P = BufferPool
  import C = SliceChains

  /** Only bytes of held node `i` of list `k` behind its capacity may differ. */
  predicate HeldStep(m: seq<Byte>, r: seq<Byte>, lists: seq<BufferList>, offset: nat, frees: seq<seq<nat>>, k: nat,
                     i: nat) {
    && AllInMemory(m, lists, frees) && Stacked(lists, offset) && k < |lists| && i < lists[k].num && i !in frees[k]
    && |r| == |m|
    && forall x | 0 <= x < |m| && !(Addr(lists[k], i) + 4 <= x < Addr(lists[k], i) + NODE_HEADER + lists[k].cap) :: r[x] == m[x]
  }

  /** Another node's bytes are the same. */
  lemma OtherNode(m: seq<Byte>, r: seq<Byte>, lists: seq<BufferList>, offset: nat, frees: seq<seq<nat>>, k: nat,
                  i: nat, l: nat, j: nat)
    requires HeldStep(m, r, lists, offset, frees, k, i) && l < |lists| && j < lists[l].num && (l, j) != (k, i)
    ensures forall x | Addr(lists[l], j) <= x < Addr(lists[l], j) + NODE_HEADER + lists[l].cap :: x < |m| && r[x] == m[x]
  {
    hide InMemory;
    hide Stacked;
    hide At;
    NodeIn(m, lists[l], frees[l], j);
    BuffersApart(lists, offset, k, i, l, j);
  }

  /** The blocks after the step: the held one is read anew, the others are the same. */
  lemma HeldBlock(m: seq<Byte>, r: seq<Byte>, lists: seq<BufferList>, offset: nat, frees: seq<seq<nat>>, k: nat,
                  i: nat, l: nat, j: nat)
    requires HeldStep(m, r, lists, offset, frees, k, i) && l < |lists| && j < lists[l].num
    ensures var o := Addr(lists[l], j);
            && Readable(m, o) && Readable(r, o)
            && ((l, j) == (k, i) ==> o !in FreeAddrs(lists, frees))
            && ((l, j) != (k, i) ==>
                  BlockAt(r, o, o in FreeAddrs(lists, frees)) == BlockAt(m, o, o in FreeAddrs(lists, frees)))
  {
    hide InMemory;
    hide Stacked;
    hide FreeAddrs;
    hide BlockAt;
    hide Load;
    var o := Addr(lists[l], j);
    NodeIn(m, lists[l], frees[l], j);
    if (l, j) == (k, i) {
      FreesSmall(m, lists, frees);
      FreeAddrIff(lists, offset, frees, k, i);
      hide Addr;
      LoadSame(m, r, o, 4);
    } else {
      OtherNode(m, r, lists, offset, frees, k, i, l, j);
      hide Addr;
      SameBlock(m, r, o, lists[l].cap, o in FreeAddrs(lists, frees));
    }
  }

  /** A step of a holder changes exactly its own block. */
  lemma HeldRefines(m: seq<Byte>, r: seq<Byte>, lists: seq<BufferList>, offset: nat, frees: seq<seq<nat>>, k: nat,
                    i: nat)
    requires HeldStep(m, r, lists, offset, frees, k, i)
    ensures AllIn(m, NodeAddrs(lists)) && AllIn(r, NodeAddrs(lists))
    ensures var o, p := Addr(lists[k], i), PoolIn(m, lists, frees);
            && o in p.blocks && Readable(m, o) && Readable(r, o) && p.blocks[o] == BlockAt(m, o, false)
            && PoolIn(r, lists, frees) == p.(blocks := p.blocks[o := BlockAt(r, o, false)])
  {
    AddrIn(lists, k, i);
    HeldBlock(m, r, lists, offset, frees, k, i, k, i);
    hide InMemory;
    hide Stacked;
    hide FreeAddrs;
    hide BlockAt;
    hide Readable;
    hide HeldStep;
    hide Addr;
    var o := Addr(lists[k], i);
    forall x | x in NodeAddrs(lists)
      ensures Readable(m, x) && Readable(r, x)
      ensures x != o ==> BlockAt(r, x, x in FreeAddrs(lists, frees)) == BlockAt(m, x, x in FreeAddrs(lists, frees))
    {
      var l, j := NodeOf(lists, x);
      HeldBlock(m, r, lists, offset, frees, k, i, l, j);
    }
    hide NodeAddrs;
    hide BlocksIn;
    var a, b := BlocksIn(m, lists, frees), BlocksIn(r, lists, frees);
    MapsAgree(a, b, o, BlockAt(r, o, false));
  }

  // ---------------------------------------------------------------------------------------------
  // The block after each kind of write
  // ---------------------------------------------------------------------------------------------

  lemma DataBlock(m: seq<Byte>, o: nat, cap: nat, at: nat, bytes: seq<Byte>)
    requires o + NODE_HEADER + cap <= |m| && Load(m, o, 4) == cap && at + |bytes| <= cap
    ensures var r, b := Splice(m, o + NODE_HEADER + at, bytes), BlockAt(m, o, false);
            && Readable(m, o) && Readable(r, o) && |b.data| == cap
            && BlockAt(r, o, false) == b.(data := Splice(b.data, at, bytes))
  {
    var r, b := Splice(m, o + NODE_HEADER + at, bytes), BlockAt(m, o, false);
    hide Load;
    LoadSame(m, r, o, 4);
    LoadSame(m, r, o + 4, 4);
    LoadSame(m, r, o + 8, 4);
    LoadSame(m, r, o + 12, 4);
    var from := o + NODE_HEADER;
    assert r[from..from + cap] == Splice(m[from..from + cap], at, bytes);
  }

  /** A header word other than the capacity, stored: the rest of the node is the same. */
  lemma WordStored(m: seq<Byte>, o: nat, cap: nat, f: nat, v: nat)
    requires o + NODE_HEADER + cap <= |m| && Load(m, o, 4) == cap && 1 <= f <= 3 && v < U32_LIMIT
    ensures var r := Splice(m, o + 4 * f, Little(v, 4));
            && Load(r, o, 4) == cap && Load(r, o + 4 * f, 4) == v && r[o + 16] == m[o + 16]
            && (forall g | 1 <= g <= 3 && g != f :: Load(r, o + 4 * g, 4) == Load(m, o + 4 * g, 4))
            && r[o + NODE_HEADER..o + NODE_HEADER + cap] == m[o + NODE_HEADER..o + NODE_HEADER + cap]
  {
    var r := Splice(m, o + 4 * f, Little(v, 4));
    Widths();
    LoadStored(m, o + 4 * f, v, 4);
    hide Load;
    hide Little;
    LoadSame(m, r, o, 4);
    forall g | 1 <= g <= 3 && g != f ensures Load(r, o + 4 * g, 4) == Load(m, o + 4 * g, 4) { LoadSame(m, r, o + 4 * g, 4); }
    var from := o + NODE_HEADER;
    assert r[from..from + cap] == m[from..from + cap];
  }

  lemma SizeBlock(m: seq<Byte>, o: nat, cap: nat, v: nat)
    requires o + NODE_HEADER + cap <= |m| && Load(m, o, 4) == cap && v < U32_LIMIT
    ensures var r := Splice(m, o + 4, Little(v, 4));
            Readable(m, o) && Readable(r, o) && BlockAt(r, o, false) == BlockAt(m, o, false).(size := v)
  {
    hide Load;
    hide Little;
    hide Splice;
    WordStored(m, o, cap, 1, v);
    assert o + 4 * 2 == o + 8 && o + 4 * 3 == o + 12;
  }

  lemma StartBlock(m: seq<Byte>, o: nat, cap: nat, v: nat)
    requires o + NODE_HEADER + cap <= |m| && Load(m, o, 4) == cap && v < U32_LIMIT
    ensures var r := Splice(m, o + 8, Little(v, 4));
            Readable(m, o) && Readable(r, o) && BlockAt(r, o, false) == BlockAt(m, o, false).(start := v)
  {
    hide Load;
    hide Little;
    hide Splice;
    WordStored(m, o, cap, 2, v);
    assert o + 4 * 1 == o + 4 && o + 4 * 3 == o + 12;
  }

  /** The flag byte with the link bit set. */
  function WithLink(flag: Byte): (f: Byte)
    ensures f % 2 == 1 && f / 2 == flag / 2
  {
    if flag % 2 == 1 then flag else flag + 1
  }

  /** A link and its flag. */
  lemma LinkBlock(m: seq<Byte>, o: nat, cap: nat, v: nat)
    requires o + NODE_HEADER + cap <= |m| && Load(m, o, 4) == cap && v < U32_LIMIT
    ensures var r := Splice(Splice(m, o + 12, Little(v, 4)), o + 16, [WithLink(m[o + 16])]);
            && Readable(m, o) && Readable(r, o)
            && BlockAt(r, o, false) == BlockAt(m, o, false).(next := v, hasNext := true)
  {
    hide Load;
    hide Little;
    hide Splice;
    WordStored(m, o, cap, 3, v);
    assert o + 4 * 1 == o + 4 && o + 4 * 2 == o + 8;
    FlagBlock(Splice(m, o + 12, Little(v, 4)), o, cap, WithLink(m[o + 16]));
  }

  /** The flag byte, stored. */
  lemma FlagBlock(m: seq<Byte>, o: nat, cap: nat, flag: Byte)
    requires o + NODE_HEADER + cap <= |m| && Load(m, o, 4) == cap
    ensures var r, b := Splice(m, o + 16, [flag]), BlockAt(m, o, false);
            && Readable(m, o) && Readable(r, o)
            && BlockAt(r, o, false) ==
               b.(hasNext := flag % 2 == 1, next := if flag % 2 == 1 then Load(m, o + 12, 4) else 0, inUsed := flag / 2 % 2 == 1)
  {
    var r := Splice(m, o + 16, [flag]);
    assert r[o + 16] == r[o + 16..o + 16 + 1][0] == flag;
    hide Load;
    LoadSame(m, r, o, 4);
    LoadSame(m, r, o + 4, 4);
    LoadSame(m, r, o + 8, 4);
    LoadSame(m, r, o + 12, 4);
    var from := o + NODE_HEADER;
    assert r[from..from + cap] == m[from..from + cap];
  }

  // ---------------------------------------------------------------------------------------------
  // On mapped memory
  // ---------------------------------------------------------------------------------------------

  /** The caller holds node `i` of list `k`. */
  ghost predicate Holding(p: PoolMemory, k: nat, i: nat)
    reads p.mem, p.lists
  {
    p.Valid() && k < |p.lists| && i < p.lists[k].num && i !in p.Free()[k]
  }

  lemma HoldingIn(p: PoolMemory, k: nat, i: nat)
    requires Holding(p, k, i)
    ensures HeldStep(p.mem[..], p.mem[..], p.lists, p.offset, FreeOf(p.lists), k, i)
    ensures p.lists[k].base <= Addr(p.lists[k], i)
  {
    hide LaidOut;
    hide End;
    hide Load;
    hide ListOk;
    hide WindowSize;
    hide InMemory;
    hide Stacked;
    InOrder(p.lists, p.mem, p.offset);
    AllToMemory(p.lists, p.mem, p.offset);
  }

  /** The bytes of the held node, and the block they stand for. */
  lemma HoldingFacts(p: PoolMemory, k: nat, i: nat)
    requires Holding(p, k, i)
    ensures k < |p.lists| && p.Valid()
    ensures var o, m := Addr(p.lists[k], i), p.mem[..];
            && o + NODE_HEADER + p.lists[k].cap <= |m| && Load(m, o, 4) == p.lists[k].cap
            && o in Abs(p).blocks && Readable(m, o) && Abs(p).blocks[o] == BlockAt(m, o, false)
  {
    hide LaidOut;
    hide End;
    hide ListOk;
    hide WindowSize;
    hide Stacked;
    hide FreeAddrs;
    hide NodeAddrs;
    hide BlockAt;
    hide PoolIn;
    hide Addr;
    hide Load;
    hide InMemory;
    hide Readable;
    HoldingIn(p, k, i);
    NodeIn(p.mem[..], p.lists[k], FreeOf(p.lists)[k], i);
    HeldRefines(p.mem[..], p.mem[..], p.lists, p.offset, FreeOf(p.lists), k, i);
  }

  /** A splice into the held node is a step of its holder. */
  lemma SpliceStep(m: seq<Byte>, lists: seq<BufferList>, offset: nat, frees: seq<seq<nat>>, k: nat, i: nat, at: nat,
                   bytes: seq<Byte>)
    requires HeldStep(m, m, lists, offset, frees, k, i) && Addr(lists[k], i) + 4 <= at && at + |bytes| <= |m|
    requires at + |bytes| <= Addr(lists[k], i) + NODE_HEADER + lists[k].cap
    ensures HeldStep(m, Splice(m, at, bytes), lists, offset, frees, k, i)
  {
    hide InMemory;
    hide Stacked;
    hide Addr;
  }

  /** One write of a holder. */
  method WriteHeld(p: PoolMemory, k: nat, ghost i: nat, at: nat, bytes: seq<Byte>)
    requires Holding(p, k, i) && Addr(p.lists[k], i) + 4 <= at
    requires at + |bytes| <= Addr(p.lists[k], i) + NODE_HEADER + p.lists[k].cap
    modifies p.mem
    ensures Holding(p, k, i) && at + |bytes| <= p.mem.Length && p.mem[..] == Splice(old(p.mem[..]), at, bytes)
    ensures var o, q := Addr(p.lists[k], i), old(Abs(p));
            && o in q.blocks && Readable(p.mem[..], o)
            && Abs(p) == q.(blocks := q.blocks[o := BlockAt(p.mem[..], o, false)])
  {
    hide LaidOut;
    hide End;
    hide ListOk;
    hide WindowSize;
    hide At;
    hide FreeAddrs;
    hide NodeAddrs;
    hide BlockAt;
    hide PoolIn;
    hide Load;
    hide HeldStep;
    hide Readable;
    HoldingIn(p, k, i);
    ghost var m := p.mem[..];
    p.WriteTo(k, i, at - p.lists[k].base, bytes);
    SpliceStep(m, p.lists, p.offset, FreeOf(p.lists), k, i, at, bytes);
    HeldRefines(m, p.mem[..], p.lists, p.offset, FreeOf(p.lists), k, i);
  }

  /** `append` of a slice: bytes of the data area. */
  method WriteData(p: PoolMemory, k: nat, ghost i: nat, o: nat, at: nat, bytes: seq<Byte>)
    requires Holding(p, k, i) && o == Addr(p.lists[k], i) && at + |bytes| <= p.lists[k].cap
    modifies p.mem
    ensures Holding(p, k, i) && o in old(Abs(p)).blocks && |old(Abs(p)).blocks[o].data| == p.lists[k].cap
    ensures Abs(p) == C.WithData(old(Abs(p)), o, Splice(old(Abs(p)).blocks[o].data, at, bytes))
  {
    hide Holding;
    hide PoolMemory.Valid;
    hide Abs;
    hide Load;
    hide BlockAt;
    hide Addr;
    hide Readable;
    HoldingFacts(p, k, i);
    DataBlock(p.mem[..], o, p.lists[k].cap, at, bytes);
    WriteHeld(p, k, i, o + NODE_HEADER + at, bytes);
  }

  /** `update` of a slice without a successor: its length and start go into the header. */
  method UpdateHeader(p: PoolMemory, k: nat, ghost i: nat, o: nat, size: nat, start: nat)
    requires Holding(p, k, i) && o == Addr(p.lists[k], i) && size < U32_LIMIT && start < U32_LIMIT
    modifies p.mem
    ensures Holding(p, k, i) && o in old(Abs(p)).blocks
    ensures var q := old(Abs(p)); Abs(p) == q.(blocks := q.blocks[o := q.blocks[o].(size := size, start := start)])
  {
    hide Holding;
    hide PoolMemory.Valid;
    hide Abs;
    hide Load;
    hide Little;
    hide BlockAt;
    hide Addr;
    hide Readable;
    HoldingFacts(p, k, i);
    SizeBlock(p.mem[..], o, p.lists[k].cap, size);
    WriteHeld(p, k, i, o + 4, Little(size, 4));
    HoldingFacts(p, k, i);
    StartBlock(p.mem[..], o, p.lists[k].cap, start);
    WriteHeld(p, k, i, o + 8, Little(start, 4));
  }

  /** `link_next`: the successor's offset and its flag. */
  method LinkNext(p: PoolMemory, k: nat, ghost i: nat, o: nat, next: nat)
    requires Holding(p, k, i) && o == Addr(p.lists[k], i) && next < U32_LIMIT
    modifies p.mem
    ensures Holding(p, k, i) && o in old(Abs(p)).blocks
    ensures var q := old(Abs(p)); Abs(p) == q.(blocks := q.blocks[o := q.blocks[o].(next := next, hasNext := true)])
  {
    hide Holding;
    hide PoolMemory.Valid;
    hide Abs;
    hide Load;
    hide Little;
    hide BlockAt;
    hide Addr;
    hide Readable;
    HoldingFacts(p, k, i);
    var flag := WithLink(p.mem[o + 16]);
    LinkBlock(p.mem[..], o, p.lists[k].cap, next);
    WriteHeld(p, k, i, o + 12, Little(next, 4));
    HoldingFacts(p, k, i);
    WriteHeld(p, k, i, o + 16, [flag]);
  }

  /** `reset` of a slice that is held: the pool is the one in which the block has lost its bit. */
  method ResetHeader(p: PoolMemory, k: nat, ghost i: nat, o: nat)
    requires Holding(p, k, i) && o == Addr(p.lists[k], i)
    modifies p.mem
    ensures Holding(p, k, i) && o in old(Abs(p)).blocks && Abs(p) == P.Cleared(old(Abs(p)), o)
  {
    hide Holding;
    hide PoolMemory.Valid;
    hide Abs;
    hide Load;
    hide BlockAt;
    hide Addr;
    hide Readable;
    UpdateHeader(p, k, i, o, 0, 0);
    HoldingFacts(p, k, i);
    FlagBlock(p.mem[..], o, p.lists[k].cap, 0);
    WriteHeld(p, k, i, o + 16, [0]);
  }
}
