/** The bytes of a pool, read as the pool value the other modules work on: pops and pushes of the
    bytes are pops and recyclings of the value. */
module PoolRefinement {
  import opened Basics
  import opened Bytes
  import opened BufferLists
  import opened PoolLayout
  import P = BufferPool

  // ---------------------------------------------------------------------------------------------
  // Reading a pool out of memory
  // ---------------------------------------------------------------------------------------------

  /** Where buffer `i` of a list starts in memory. */
  function Addr(l: BufferList, i: nat): nat {
    l.base + At(i, l.cap)
  }

  function NodeAddrs(lists: seq<BufferList>): set<nat> {
    set k: nat, i: nat | k < |lists| && i < lists[k].num :: Addr(lists[k], i)
  }

  function FreeAddrs(lists: seq<BufferList>, frees: seq<seq<nat>>): set<nat>
    requires |frees| == |lists|
  {
    set k: nat, j: nat | k < |lists| && j < |frees[k]| :: Addr(lists[k], frees[k][j])
  }

  /** The header at `o` and its data area.  The link of a free buffer belongs to its list, and a link
      without its flag means nothing: both read as no link. */
  function BlockAt(m: seq<Byte>, o: nat, free: bool): P.Block
    requires Readable(m, o)
  {
    var linked := !free && m[o + 16] % 2 == 1;
    P.Block(Load(m, o, 4), Load(m, o + 4, 4), Load(m, o + 8, 4), if linked then Load(m, o + 12, 4) else 0, linked,
            m[o + 16] / 2 % 2 == 1, m[o + NODE_HEADER..o + NODE_HEADER + Load(m, o, 4)])
  }

  predicate Readable(m: seq<Byte>, o: nat) {
    o + NODE_HEADER <= |m| && o + NODE_HEADER + Load(m, o, 4) <= |m|
  }

  predicate AllIn(m: seq<Byte>, addrs: set<nat>) {
    forall o | o in addrs :: Readable(m, o)
  }

  function BlocksIn(m: seq<Byte>, lists: seq<BufferList>, frees: seq<seq<nat>>): (b: map<nat, P.Block>)
    requires |frees| == |lists| && AllIn(m, NodeAddrs(lists))
    ensures b.Keys == NodeAddrs(lists) && forall o | o in b :: b[o] == BlockAt(m, o, o in FreeAddrs(lists, frees))
  {
    var all := NodeAddrs(lists);
    map o | o in all :: BlockAt(m, o, o in FreeAddrs(lists, frees))
  }

  function Offsets(l: BufferList, free: seq<nat>): (c: seq<nat>)
    ensures |c| == |free| && forall j | 0 <= j < |free| :: c[j] == Addr(l, free[j])
  {
    seq(|free|, j requires 0 <= j < |free| => Addr(l, free[j]))
  }

  function ListsIn(lists: seq<BufferList>, frees: seq<seq<nat>>): (ls: seq<P.FreeList>)
    requires |frees| == |lists|
    ensures |ls| == |lists|
    ensures forall k | 0 <= k < |ls| :: ls[k] == P.FreeList(lists[k].cap, lists[k].num, Offsets(lists[k], frees[k]))
  {
    seq(|lists|, k requires 0 <= k < |lists| => P.FreeList(lists[k].cap, lists[k].num, Offsets(lists[k], frees[k])))
  }

  /** The pool the bytes stand for. */
  function PoolIn(m: seq<Byte>, lists: seq<BufferList>, frees: seq<seq<nat>>): P.Pool
    requires |frees| == |lists| && AllIn(m, NodeAddrs(lists))
  {
    P.Pool(ListsIn(lists, frees), BlocksIn(m, lists, frees))
  }

  // ---------------------------------------------------------------------------------------------
  // Buffers have their own addresses
  // ---------------------------------------------------------------------------------------------

  lemma AddrsDiffer(lists: seq<BufferList>, offset: nat, k: nat, i: nat, l: nat, j: nat)
    requires Stacked(lists, offset) && k < |lists| && l < |lists| && i < lists[k].num && j < lists[l].num
    ensures Addr(lists[k], i) == Addr(lists[l], j) <==> (k, i) == (l, j)
  {
    if (k, i) != (l, j) { BuffersApart(lists, offset, k, i, l, j); }
  }

  /** Free nodes are nodes. */
  predicate Small(lists: seq<BufferList>, frees: seq<seq<nat>>) {
    |frees| == |lists| && forall l, j | 0 <= l < |lists| && 0 <= j < |frees[l]| :: frees[l][j] < lists[l].num
  }

  lemma SmallSet(lists: seq<BufferList>, frees: seq<seq<nat>>, k: nat, free: seq<nat>)
    requires Small(lists, frees) && k < |lists| && forall j | 0 <= j < |free| :: free[j] < lists[k].num
    ensures Small(lists, frees[k := free])
  {
  }

  lemma FreeAddrIff(lists: seq<BufferList>, offset: nat, frees: seq<seq<nat>>, k: nat, i: nat)
    requires Stacked(lists, offset) && Small(lists, frees) && k < |lists| && i < lists[k].num
    ensures Addr(lists[k], i) in FreeAddrs(lists, frees) <==> i in frees[k]
  {
    hide Addr;
    if i in frees[k] {
      var j :| 0 <= j < |frees[k]| && frees[k][j] == i;
      assert Addr(lists[k], frees[k][j]) in FreeAddrs(lists, frees);
    }
    if Addr(lists[k], i) in FreeAddrs(lists, frees) {
      var l: nat, j: nat :| l < |lists| && j < |frees[l]| && Addr(lists[l], frees[l][j]) == Addr(lists[k], i);
      AddrsDiffer(lists, offset, k, i, l, frees[l][j]);
    }
  }

  /** A node of a list in memory: its capacity, and its place. */
  lemma NodeIn(m: seq<Byte>, l: BufferList, free: seq<nat>, i: nat)
    requires InMemory(m, l, free) && i < l.num
    ensures Readable(m, Addr(l, i)) && Load(m, Addr(l, i), 4) == l.cap && l.cap > 0
    ensures Addr(l, i) + NODE_HEADER + l.cap <= |m|
    ensures l.base + LIST_HEADER <= Addr(l, i) && Addr(l, i) + NODE_HEADER + l.cap <= l.base + WindowSize(l.num, l.cap)
  {
    hide Load;
    hide FreeOk;
    var n := WindowSize(l.num, l.cap);
    var w := m[l.base..l.base + n];
    assert NodeOk(w, l.cap, i);
    Inside(i, l.num, l.cap);
    FirstBytes(i, l.cap);
    WindowLoad(m, l.base, n, At(i, l.cap), 4);
  }

  lemma AllReadable(m: seq<Byte>, lists: seq<BufferList>, frees: seq<seq<nat>>)
    requires AllInMemory(m, lists, frees)
    ensures AllIn(m, NodeAddrs(lists))
  {
    hide Readable;
    hide InMemory;
    hide Addr;
    forall o | o in NodeAddrs(lists) ensures Readable(m, o) {
      var k: nat, i: nat :| k < |lists| && i < lists[k].num && o == Addr(lists[k], i);
      NodeIn(m, lists[k], frees[k], i);
    }
  }

  lemma FreesSmall(m: seq<Byte>, lists: seq<BufferList>, frees: seq<seq<nat>>)
    requires AllInMemory(m, lists, frees)
    ensures Small(lists, frees)
  {
    forall l, j | 0 <= l < |lists| && 0 <= j < |frees[l]| ensures frees[l][j] < lists[l].num {
      FreeSmall(m, lists[l], frees[l], j);
    }
  }

  lemma FreeSmall(m: seq<Byte>, l: BufferList, free: seq<nat>, j: nat)
    requires InMemory(m, l, free) && j < |free|
    ensures free[j] < l.num
  {
    hide Load;
    hide FreeOk;
    hide NodeOk;
  }

  /** The same bytes make the same block. */
  lemma SameBlock(m: seq<Byte>, r: seq<Byte>, o: nat, cap: nat, free: bool)
    requires |r| == |m| && o + NODE_HEADER + cap <= |m| && Load(m, o, 4) == cap
    requires forall x | o <= x < o + NODE_HEADER + cap :: r[x] == m[x]
    ensures Readable(r, o) && BlockAt(r, o, free) == BlockAt(m, o, free)
  {
    hide Load;
    LoadSame(m, r, o, 4);
    LoadSame(m, r, o + 4, 4);
    LoadSame(m, r, o + 8, 4);
    LoadSame(m, r, o + 12, 4);
    assert r[o + NODE_HEADER..o + NODE_HEADER + cap] == m[o + NODE_HEADER..o + NODE_HEADER + cap];
  }

  // ---------------------------------------------------------------------------------------------
  // Pop and push
  // ---------------------------------------------------------------------------------------------

  /** Bytes inside and outside the window of a list, seen from the whole memory. */
  lemma InWindow(m: seq<Byte>, base: nat, n: nat, x: nat)
    requires base + n <= |m| && base <= x < base + n
    ensures m[base..base + n][x - base] == m[x]
  {
  }

  lemma OutOfWindow(m: seq<Byte>, r: seq<Byte>, base: nat, n: nat, x: nat)
    requires Outside(m, r, base, n) && x < |m| && !(base <= x < base + n)
    ensures r[x] == m[x]
  {
    if x < base {
      assert r[..base][x] == m[..base][x];
    } else {
      assert r[base + n..][x - base - n] == m[base + n..][x - base - n];
    }
  }

  function Window(m: seq<Byte>, l: BufferList): seq<Byte>
    requires l.base + WindowSize(l.num, l.cap) <= |m|
  {
    m[l.base..l.base + WindowSize(l.num, l.cap)]
  }

  /** A node of another list, or one whose bytes the step did not touch. */
  lemma NodeKept(m: seq<Byte>, r: seq<Byte>, lists: seq<BufferList>, offset: nat, frees: seq<seq<nat>>, k: nat,
                 l: nat, i: nat)
    requires AllInMemory(m, lists, frees) && Stacked(lists, offset) && k < |lists| && l < |lists| && i < lists[l].num
    requires Outside(m, r, lists[k].base, WindowSize(lists[k].num, lists[k].cap))
    requires l == k ==>
      lists[k].base + WindowSize(lists[k].num, lists[k].cap) <= |m|
      && SameNode(Window(m, lists[k]), Window(r, lists[k]), lists[k].cap, i)
    ensures forall x | Addr(lists[l], i) <= x < Addr(lists[l], i) + NODE_HEADER + lists[l].cap :: x < |m| && r[x] == m[x]
  {
    hide ListOk;
    hide At;
    hide WindowSize;
    var a, b := lists[k], lists[l];
    NodeIn(m, b, frees[l], i);
    if l != k { Elsewhere(lists, offset, k, l); }
    forall x | Addr(b, i) <= x < Addr(b, i) + NODE_HEADER + b.cap ensures x < |m| && r[x] == m[x] {
      if l != k {
        OutOfWindow(m, r, a.base, WindowSize(a.num, a.cap), x);
      } else {
        InWindow(m, a.base, WindowSize(a.num, a.cap), x);
        InWindow(r, a.base, WindowSize(a.num, a.cap), x);
        assert Window(r, a)[x - a.base] == Window(m, a)[x - a.base];
      }
    }
  }

  lemma PoppedBytes(m: seq<Byte>, r: seq<Byte>, l: BufferList, free: seq<nat>)
    requires InMemory(m, l, free) && |free| > 1 && l.base + WindowSize(l.num, l.cap) <= |m| == |r|
    requires PopOf(Window(m, l), Window(r, l), l.num, l.cap, free)
    ensures var o := Addr(l, free[0]);
            && o + NODE_HEADER + l.cap <= |m| && Load(m, o, 4) == l.cap && r[o + 16] == IN_USED
            && forall x | o <= x < o + NODE_HEADER + l.cap && x != o + 16 :: r[x] == m[x]
  {
    FreeSmall(m, l, free, 0);
    NodeIn(m, l, free, free[0]);
    hide ListOk;
    hide Load;
    hide At;
    hide WindowSize;
    hide InMemory;
    hide Readable;
    var o, n := Addr(l, free[0]), WindowSize(l.num, l.cap);
    forall x | o <= x < o + NODE_HEADER + l.cap && x != o + 16 ensures r[x] == m[x] {
      InWindow(m, l.base, n, x);
      InWindow(r, l.base, n, x);
      assert Window(r, l)[x - l.base] == Window(m, l)[x - l.base];
    }
    InWindow(r, l.base, n, o + 16);
  }

  /** A free block whose flag byte is set to in-used. */
  lemma MarkedBlock(m: seq<Byte>, r: seq<Byte>, o: nat, cap: nat)
    requires |r| == |m| && o + NODE_HEADER + cap <= |m| && Load(m, o, 4) == cap && r[o + 16] == IN_USED
    requires forall x | o <= x < o + NODE_HEADER + cap && x != o + 16 :: r[x] == m[x]
    ensures Readable(m, o) && Readable(r, o)
    ensures BlockAt(r, o, false) == BlockAt(m, o, true).(hasNext := false, inUsed := true)
  {
    hide Load;
    LoadSame(m, r, o, 4);
    LoadSame(m, r, o + 4, 4);
    LoadSame(m, r, o + 8, 4);
    assert r[o + NODE_HEADER..o + NODE_HEADER + cap] == m[o + NODE_HEADER..o + NODE_HEADER + cap];
  }

  lemma PopSameNode(w: seq<Byte>, r: seq<Byte>, num: nat, cap: nat, free: seq<nat>, i: nat)
    requires ListOk(w, num, cap, free) && |free| > 1 && PopOf(w, r, num, cap, free) && i < num && i != free[0]
    ensures SameNode(w, r, cap, i)
  {
    hide Load;
    hide FreeOk;
    hide NodeOk;
    hide At;
    assert forall x :: x == At(free[0], cap) + 16 ==> InHeader(x, free[0], cap);
    Untouched(w, r, num, cap, free[0], free[0], i);
  }

  /** A pop takes one address out of the free ones. */
  lemma PopMembership(m: seq<Byte>, lists: seq<BufferList>, offset: nat, frees: seq<seq<nat>>, k: nat, l: nat, i: nat)
    requires AllInMemory(m, lists, frees) && Stacked(lists, offset) && k < |lists| && |frees[k]| > 1
    requires l < |lists| && i < lists[l].num
    ensures var o, less := Addr(lists[l], i), frees[k := frees[k][1..]];
            && (o in FreeAddrs(lists, less) <==> o in FreeAddrs(lists, frees) && (l, i) != (k, frees[k][0]))
            && ((l, i) == (k, frees[k][0]) ==> o in FreeAddrs(lists, frees))
  {
    var less := frees[k := frees[k][1..]];
    FreesSmall(m, lists, frees);
    Inhabited(m, lists[k], frees[k]);
    hide InMemory;
    hide Addr;
    hide FreeAddrs;
    hide Stacked;
    SmallSet(lists, frees, k, frees[k][1..]);
    hide Small;
    FreeAddrIff(lists, offset, frees, l, i);
    FreeAddrIff(lists, offset, less, l, i);
    FirstGone(frees[k], i);
  }

  /** The blocks after a pop of list `k`. */
  lemma PopBlock(m: seq<Byte>, r: seq<Byte>, lists: seq<BufferList>, offset: nat, frees: seq<seq<nat>>, k: nat,
                 l: nat, i: nat)
    requires AllInMemory(m, lists, frees) && Stacked(lists, offset) && k < |lists| && |frees[k]| > 1
    requires Outside(m, r, lists[k].base, WindowSize(lists[k].num, lists[k].cap))
    requires lists[k].base + WindowSize(lists[k].num, lists[k].cap) <= |m| == |r|
    requires PopOf(Window(m, lists[k]), Window(r, lists[k]), lists[k].num, lists[k].cap, frees[k])
    requires l < |lists| && i < lists[l].num
    ensures var o, less := Addr(lists[l], i), frees[k := frees[k][1..]];
            && Readable(m, o) && Readable(r, o)
            && BlockAt(r, o, o in FreeAddrs(lists, less)) ==
               if (l, i) == (k, frees[k][0]) then Marked(BlockAt(m, o, o in FreeAddrs(lists, frees)))
               else BlockAt(m, o, o in FreeAddrs(lists, frees))
  {
    hide InMemory;
    hide Addr;
    hide FreeAddrs;
    hide BlockAt;
    hide Readable;
    hide PopOf;
    hide WindowSize;
    hide Outside;
    hide Stacked;
    var o := Addr(lists[l], i);
    PopMembership(m, lists, offset, frees, k, l, i);
    NodeIn(m, lists[l], frees[l], i);
    if (l, i) == (k, frees[k][0]) {
      PoppedBytes(m, r, lists[k], frees[k]);
      MarkedBlock(m, r, o, lists[k].cap);
    } else {
      if l == k { PopSame(m, r, lists[k], frees[k], i); }
      NodeKept(m, r, lists, offset, frees, k, l, i);
      SameBlock(m, r, o, lists[l].cap, o in FreeAddrs(lists, frees));
    }
  }

  lemma PopSame(m: seq<Byte>, r: seq<Byte>, l: BufferList, free: seq<nat>, i: nat)
    requires InMemory(m, l, free) && |free| > 1 && l.base + WindowSize(l.num, l.cap) <= |m| == |r|
    requires PopOf(Window(m, l), Window(r, l), l.num, l.cap, free) && i < l.num && i != free[0]
    ensures SameNode(Window(m, l), Window(r, l), l.cap, i)
  {
    PopSameNode(Window(m, l), Window(r, l), l.num, l.cap, free, i);
  }

  lemma Inhabited(m: seq<Byte>, l: BufferList, free: seq<nat>)
    requires InMemory(m, l, free)
    ensures Distinct(free) && free != []
  {
  }

  lemma FirstGone(c: seq<nat>, i: nat)
    requires Distinct(c) && c != []
    ensures i in c[1..] <==> i in c && i != c[0]
  {
    assert c == [c[0]] + c[1..];
  }

  lemma ListsSet(lists: seq<BufferList>, frees: seq<seq<nat>>, k: nat, free: seq<nat>)
    requires |frees| == |lists| && k < |lists|
    ensures var ls := ListsIn(lists, frees);
            ListsIn(lists, frees[k := free]) == ls[k := ls[k].(free := Offsets(lists[k], free))]
  {
    hide Addr;
  }

  lemma PoppedMap(m: seq<Byte>, r: seq<Byte>, lists: seq<BufferList>, offset: nat, frees: seq<seq<nat>>, k: nat)
    requires AllInMemory(m, lists, frees) && Stacked(lists, offset) && k < |lists| && |frees[k]| > 1
    requires Outside(m, r, lists[k].base, WindowSize(lists[k].num, lists[k].cap))
    requires lists[k].base + WindowSize(lists[k].num, lists[k].cap) <= |m| == |r|
    requires PopOf(Window(m, lists[k]), Window(r, lists[k]), lists[k].num, lists[k].cap, frees[k])
    ensures AllIn(m, NodeAddrs(lists)) && AllIn(r, NodeAddrs(lists))
    ensures var o, b := Addr(lists[k], frees[k][0]), BlocksIn(m, lists, frees);
            && o in b
            && BlocksIn(r, lists, frees[k := frees[k][1..]]) == b[o := Marked(b[o])]
  {
    FreeSmall(m, lists[k], frees[k], 0);
    PopBlocks(m, r, lists, offset, frees, k);
    AddrIn(lists, k, frees[k][0]);
    hide InMemory;
    hide Addr;
    hide FreeAddrs;
    hide BlockAt;
    hide Readable;
    hide PopOf;
    hide WindowSize;
    hide Outside;
    hide Stacked;
    hide NodeAddrs;
    hide BlocksIn;
    hide AllIn;
    var o, a, b := Addr(lists[k], frees[k][0]), BlocksIn(m, lists, frees), BlocksIn(r, lists, frees[k := frees[k][1..]]);
    forall x | x in a ensures x in b && b[x] == if x == o then Marked(a[x]) else a[x] {}
    MapsAgree(a, b, o, Marked(a[o]));
  }

  function Marked(b: P.Block): P.Block {
    b.(hasNext := false, inUsed := true)
  }

  lemma MapsAgree(a: map<nat, P.Block>, b: map<nat, P.Block>, o: nat, v: P.Block)
    requires o in a && b.Keys == a.Keys && forall x | x in a :: b[x] == if x == o then v else a[x]
    ensures b == a[o := v]
  {
  }

  lemma AddrIn(lists: seq<BufferList>, k: nat, i: nat)
    requires k < |lists| && i < lists[k].num
    ensures Addr(lists[k], i) in NodeAddrs(lists)
  {
  }

  /** A pop of the bytes is a pop of the pool they stand for. */
  lemma PopRefines(m: seq<Byte>, r: seq<Byte>, lists: seq<BufferList>, offset: nat, frees: seq<seq<nat>>, k: nat)
    requires AllInMemory(m, lists, frees) && Stacked(lists, offset) && k < |lists| && |frees[k]| > 1
    requires Outside(m, r, lists[k].base, WindowSize(lists[k].num, lists[k].cap))
    requires lists[k].base + WindowSize(lists[k].num, lists[k].cap) <= |m| == |r|
    requires PopOf(Window(m, lists[k]), Window(r, lists[k]), lists[k].num, lists[k].cap, frees[k])
    ensures AllIn(m, NodeAddrs(lists)) && AllIn(r, NodeAddrs(lists))
    ensures var p := PoolIn(m, lists, frees);
            && P.CanPop(p.lists[k]) && p.lists[k].free[0] == Addr(lists[k], frees[k][0]) && p.lists[k].free[0] in p.blocks
            && PoolIn(r, lists, frees[k := frees[k][1..]]) == P.Popped(p, k)
  {
    hide InMemory;
    hide Addr;
    hide PopOf;
    hide WindowSize;
    hide Outside;
    hide Stacked;
    hide BlocksIn;
    PoppedMap(m, r, lists, offset, frees, k);
    ListsSet(lists, frees, k, frees[k][1..]);
    OffsetsDrop(lists[k], frees[k]);
    hide Offsets;
  }

  lemma OffsetsDrop(l: BufferList, free: seq<nat>)
    requires free != []
    ensures Offsets(l, free[1..]) == Offsets(l, free)[1..]
  {
  }

  lemma PopBlocks(m: seq<Byte>, r: seq<Byte>, lists: seq<BufferList>, offset: nat, frees: seq<seq<nat>>, k: nat)
    requires AllInMemory(m, lists, frees) && Stacked(lists, offset) && k < |lists| && |frees[k]| > 1
    requires Outside(m, r, lists[k].base, WindowSize(lists[k].num, lists[k].cap))
    requires lists[k].base + WindowSize(lists[k].num, lists[k].cap) <= |m| == |r|
    requires PopOf(Window(m, lists[k]), Window(r, lists[k]), lists[k].num, lists[k].cap, frees[k])
    ensures AllIn(m, NodeAddrs(lists)) && AllIn(r, NodeAddrs(lists))
    ensures var less := frees[k := frees[k][1..]];
            forall o | o in NodeAddrs(lists) ::
              BlockAt(r, o, o in FreeAddrs(lists, less)) ==
              if o == Addr(lists[k], frees[k][0]) then Marked(BlockAt(m, o, o in FreeAddrs(lists, frees)))
              else BlockAt(m, o, o in FreeAddrs(lists, frees))
  {
    FreeSmall(m, lists[k], frees[k], 0);
    hide InMemory;
    hide Addr;
    hide FreeAddrs;
    hide BlockAt;
    hide Readable;
    hide PopOf;
    hide WindowSize;
    hide Outside;
    hide Stacked;
    var less := frees[k := frees[k][1..]];
    forall o | o in NodeAddrs(lists)
      ensures Readable(m, o) && Readable(r, o)
      ensures BlockAt(r, o, o in FreeAddrs(lists, less)) ==
              if o == Addr(lists[k], frees[k][0]) then Marked(BlockAt(m, o, o in FreeAddrs(lists, frees)))
              else BlockAt(m, o, o in FreeAddrs(lists, frees))
    {
      var l: nat, i: nat :| l < |lists| && i < lists[l].num && o == Addr(lists[l], i);
      PopBlock(m, r, lists, offset, frees, k, l, i);
      AddrsDiffer(lists, offset, l, i, k, frees[k][0]);
    }
  }

  /** Outside the headers of the two nodes a push touches, bytes are kept. */
  lemma PushedBytes(m: seq<Byte>, r: seq<Byte>, l: BufferList, free: seq<nat>, i: nat, j: nat)
    requires InMemory(m, l, free) && l.base + WindowSize(l.num, l.cap) <= |m| == |r|
    requires i < l.num && i !in free && j < l.num && PushOf(Window(m, l), Window(r, l), l.num, l.cap, free, i)
    ensures var o := Addr(l, j);
            && o + NODE_HEADER + l.cap <= |m| && Load(m, o, 4) == l.cap
            && forall x | o <= x < o + NODE_HEADER + l.cap && !((j == i || j == free[|free| - 1]) && o + 4 <= x < o + NODE_HEADER) ::
                 r[x] == m[x]
  {
    NodeIn(m, l, free, j);
    Inhabited(m, l, free);
    FreeSmall(m, l, free, |free| - 1);
    hide ListOk;
    hide Load;
    hide WindowSize;
    hide InMemory;
    hide Readable;
    var o, n, t := Addr(l, j), WindowSize(l.num, l.cap), free[|free| - 1];
    FirstBytes(j, l.cap);
    forall x | o <= x < o + NODE_HEADER + l.cap && !((j == i || j == t) && o + 4 <= x < o + NODE_HEADER) ensures r[x] == m[x] {
      InWindow(m, l.base, n, x);
      InWindow(r, l.base, n, x);
      if j != i { Apart(j, i, l.cap, x - l.base); }
      if j != t { Apart(j, t, l.cap, x - l.base); }
      assert Window(r, l)[x - l.base] == Window(m, l)[x - l.base];
    }
  }

  /** A load through a window. */
  lemma LoadIn(m: seq<Byte>, l: BufferList, x: nat)
    requires l.base + WindowSize(l.num, l.cap) <= |m| && x + 4 <= WindowSize(l.num, l.cap)
    ensures Load(Window(m, l), x, 4) == Load(m, l.base + x, 4)
  {
    hide Load;
    hide WindowSize;
    WindowLoad(m, l.base, WindowSize(l.num, l.cap), x, 4);
  }

  /** The header of the pushed node is empty. */
  lemma PushedHeader(m: seq<Byte>, r: seq<Byte>, l: BufferList, free: seq<nat>, i: nat)
    requires InMemory(m, l, free) && l.base + WindowSize(l.num, l.cap) <= |m| == |r|
    requires i < l.num && i !in free && PushOf(Window(m, l), Window(r, l), l.num, l.cap, free, i)
    ensures var o := Addr(l, i);
            o + NODE_HEADER <= |r| && Load(r, o + 4, 4) == 0 && Load(r, o + 8, 4) == 0 && r[o + 16] == 0
  {
    NodeIn(m, l, free, i);
    hide ListOk;
    hide Load;
    hide WindowSize;
    hide InMemory;
    hide At;
    hide Readable;
    var a := At(i, l.cap);
    LoadIn(r, l, a + 4);
    LoadIn(r, l, a + 8);
    InWindow(r, l.base, WindowSize(l.num, l.cap), l.base + a + 16);
  }

  /** A free buffer's header in memory. */
  lemma FreeHeader(m: seq<Byte>, l: BufferList, free: seq<nat>, j: nat)
    requires InMemory(m, l, free) && j < |free|
    ensures var o := Addr(l, free[j]);
            && o + NODE_HEADER <= |m| && Load(m, o + 4, 4) == 0 && Load(m, o + 8, 4) == 0
            && m[o + 16] == if j + 1 < |free| then HAS_NEXT else 0
  {
    FreeSmall(m, l, free, j);
    NodeIn(m, l, free, free[j]);
    var a, w := At(free[j], l.cap), m[l.base..l.base + WindowSize(l.num, l.cap)];
    assert FreeOk(w, l.cap, free, j);
    hide ListOk;
    hide Load;
    hide WindowSize;
    hide At;
    hide Readable;
    LoadIn(m, l, a + 4);
    LoadIn(m, l, a + 8);
    InWindow(m, l.base, WindowSize(l.num, l.cap), l.base + a + 16);
  }

  /** The header of the old tail is empty but for its link. */
  lemma TailHeader(m: seq<Byte>, r: seq<Byte>, l: BufferList, free: seq<nat>, i: nat)
    requires InMemory(m, l, free) && l.base + WindowSize(l.num, l.cap) <= |m| == |r|
    requires i < l.num && i !in free && PushOf(Window(m, l), Window(r, l), l.num, l.cap, free, i) && free != []
    ensures var o := Addr(l, free[|free| - 1]);
            && o + NODE_HEADER <= |r|
            && Load(m, o + 4, 4) == 0 && Load(m, o + 8, 4) == 0 && m[o + 16] == 0
            && Load(r, o + 4, 4) == 0 && Load(r, o + 8, 4) == 0 && r[o + 16] == HAS_NEXT
  {
    FreeHeader(m, l, free, |free| - 1);
    hide InMemory;
    hide Load;
    hide WindowSize;
    hide At;
    var a := At(free[|free| - 1], l.cap);
    LoadIn(r, l, a + 4);
    LoadIn(r, l, a + 8);
    InWindow(r, l.base, WindowSize(l.num, l.cap), l.base + a + 16);
  }

  /** A held block whose header was reset and is now free. */
  lemma ResetBlock(m: seq<Byte>, r: seq<Byte>, o: nat, cap: nat)
    requires |r| == |m| && o + NODE_HEADER + cap <= |m| && Load(m, o, 4) == cap
    requires forall x | o <= x < o + NODE_HEADER + cap && !(o + 4 <= x < o + NODE_HEADER) :: r[x] == m[x]
    requires Load(r, o + 4, 4) == 0 && Load(r, o + 8, 4) == 0 && r[o + 16] == 0
    ensures Readable(m, o) && Readable(r, o) && BlockAt(r, o, true) == P.Reset(BlockAt(m, o, false))
  {
    hide Load;
    LoadSame(m, r, o, 4);
    assert r[o + NODE_HEADER..o + NODE_HEADER + cap] == m[o + NODE_HEADER..o + NODE_HEADER + cap];
  }

  /** A free block whose link changed reads the same. */
  lemma RelinkedBlock(m: seq<Byte>, r: seq<Byte>, o: nat, cap: nat)
    requires |r| == |m| && o + NODE_HEADER + cap <= |m| && Load(m, o, 4) == cap
    requires forall x | o <= x < o + NODE_HEADER + cap && !(o + 4 <= x < o + NODE_HEADER) :: r[x] == m[x]
    requires Load(m, o + 4, 4) == 0 && Load(m, o + 8, 4) == 0 && m[o + 16] == 0
    requires Load(r, o + 4, 4) == 0 && Load(r, o + 8, 4) == 0 && r[o + 16] == HAS_NEXT
    ensures Readable(m, o) && Readable(r, o) && BlockAt(r, o, true) == BlockAt(m, o, true)
  {
    hide Load;
    LoadSame(m, r, o, 4);
    assert r[o + NODE_HEADER..o + NODE_HEADER + cap] == m[o + NODE_HEADER..o + NODE_HEADER + cap];
  }

  lemma PushMembership(m: seq<Byte>, lists: seq<BufferList>, offset: nat, frees: seq<seq<nat>>, k: nat, i: nat,
                       l: nat, j: nat)
    requires AllInMemory(m, lists, frees) && Stacked(lists, offset) && k < |lists| && i < lists[k].num && i !in frees[k]
    requires l < |lists| && j < lists[l].num
    ensures var o, more := Addr(lists[l], j), frees[k := frees[k] + [i]];
            && (o in FreeAddrs(lists, more) <==> o in FreeAddrs(lists, frees) || (l, j) == (k, i))
            && ((l, j) == (k, i) ==> o !in FreeAddrs(lists, frees))
            && (o in FreeAddrs(lists, frees) <==> j in frees[l])
  {
    var more := frees[k := frees[k] + [i]];
    FreesSmall(m, lists, frees);
    hide InMemory;
    hide Addr;
    hide FreeAddrs;
    hide Stacked;
    SmallSet(lists, frees, k, frees[k] + [i]);
    hide Small;
    FreeAddrIff(lists, offset, frees, l, j);
    FreeAddrIff(lists, offset, more, l, j);
  }

  /** A push of the step, as the lemmas below need it. */
  predicate PushStep(m: seq<Byte>, r: seq<Byte>, lists: seq<BufferList>, offset: nat, frees: seq<seq<nat>>, k: nat,
                     i: nat) {
    && AllInMemory(m, lists, frees) && Stacked(lists, offset) && k < |lists| && i < lists[k].num && i !in frees[k]
    && Outside(m, r, lists[k].base, WindowSize(lists[k].num, lists[k].cap))
    && lists[k].base + WindowSize(lists[k].num, lists[k].cap) <= |m| == |r|
    && PushOf(Window(m, lists[k]), Window(r, lists[k]), lists[k].num, lists[k].cap, frees[k], i)
  }

  lemma PushSame(m: seq<Byte>, r: seq<Byte>, l: BufferList, free: seq<nat>, i: nat, j: nat)
    requires InMemory(m, l, free) && l.base + WindowSize(l.num, l.cap) <= |m| == |r|
    requires i < l.num && j < l.num && free != [] && j != i && j != free[|free| - 1]
    requires PushOf(Window(m, l), Window(r, l), l.num, l.cap, free, i)
    ensures SameNode(Window(m, l), Window(r, l), l.cap, j)
  {
    hide Load;
    hide FreeOk;
    hide NodeOk;
    hide At;
    Untouched(Window(m, l), Window(r, l), l.num, l.cap, i, free[|free| - 1], j);
  }

  /** The blocks after a push of node `i` to list `k`. */
  lemma PushBlock(m: seq<Byte>, r: seq<Byte>, lists: seq<BufferList>, offset: nat, frees: seq<seq<nat>>, k: nat,
                  i: nat, l: nat, j: nat)
    requires PushStep(m, r, lists, offset, frees, k, i) && l < |lists| && j < lists[l].num
    ensures var o, more := Addr(lists[l], j), frees[k := frees[k] + [i]];
            && Readable(m, o) && Readable(r, o)
            && BlockAt(r, o, o in FreeAddrs(lists, more)) ==
               if (l, j) == (k, i) then P.Reset(BlockAt(m, o, o in FreeAddrs(lists, frees)))
               else BlockAt(m, o, o in FreeAddrs(lists, frees))
  {
    hide InMemory;
    hide Addr;
    hide FreeAddrs;
    hide BlockAt;
    hide Readable;
    hide PushOf;
    hide WindowSize;
    hide Outside;
    hide Stacked;
    var o, free, a := Addr(lists[l], j), frees[k], lists[k];
    PushMembership(m, lists, offset, frees, k, i, l, j);
    NodeIn(m, lists[l], frees[l], j);
    Inhabited(m, a, free);
    if (l, j) == (k, i) {
      PushedBytes(m, r, a, free, i, i);
      PushedHeader(m, r, a, free, i);
      ResetBlock(m, r, o, a.cap);
    } else if (l, j) == (k, free[|free| - 1]) {
      PushedBytes(m, r, a, free, i, j);
      TailHeader(m, r, a, free, i);
      RelinkedBlock(m, r, o, a.cap);
    } else {
      if l == k { PushSame(m, r, a, free, i, j); }
      NodeKept(m, r, lists, offset, frees, k, l, j);
      SameBlock(m, r, o, lists[l].cap, o in FreeAddrs(lists, frees));
    }
  }

  lemma PushBlocks(m: seq<Byte>, r: seq<Byte>, lists: seq<BufferList>, offset: nat, frees: seq<seq<nat>>, k: nat,
                   i: nat)
    requires PushStep(m, r, lists, offset, frees, k, i)
    ensures AllIn(m, NodeAddrs(lists)) && AllIn(r, NodeAddrs(lists))
    ensures var more := frees[k := frees[k] + [i]];
            forall o | o in NodeAddrs(lists) ::
              BlockAt(r, o, o in FreeAddrs(lists, more)) ==
              if o == Addr(lists[k], i) then P.Reset(BlockAt(m, o, o in FreeAddrs(lists, frees)))
              else BlockAt(m, o, o in FreeAddrs(lists, frees))
  {
    hide InMemory;
    hide Addr;
    hide FreeAddrs;
    hide BlockAt;
    hide Readable;
    hide PushOf;
    hide WindowSize;
    hide Outside;
    hide Stacked;
    var more := frees[k := frees[k] + [i]];
    forall o | o in NodeAddrs(lists)
      ensures Readable(m, o) && Readable(r, o)
      ensures BlockAt(r, o, o in FreeAddrs(lists, more)) ==
              if o == Addr(lists[k], i) then P.Reset(BlockAt(m, o, o in FreeAddrs(lists, frees)))
              else BlockAt(m, o, o in FreeAddrs(lists, frees))
    {
      var l: nat, j: nat :| l < |lists| && j < lists[l].num && o == Addr(lists[l], j);
      PushBlock(m, r, lists, offset, frees, k, i, l, j);
      AddrsDiffer(lists, offset, l, j, k, i);
    }
  }

  lemma PushedMap(m: seq<Byte>, r: seq<Byte>, lists: seq<BufferList>, offset: nat, frees: seq<seq<nat>>, k: nat, i: nat)
    requires PushStep(m, r, lists, offset, frees, k, i)
    ensures AllIn(m, NodeAddrs(lists)) && AllIn(r, NodeAddrs(lists))
    ensures var o, b := Addr(lists[k], i), BlocksIn(m, lists, frees);
            o in b && BlocksIn(r, lists, frees[k := frees[k] + [i]]) == b[o := P.Reset(b[o])]
  {
    PushBlocks(m, r, lists, offset, frees, k, i);
    AddrIn(lists, k, i);
    hide InMemory;
    hide Addr;
    hide FreeAddrs;
    hide BlockAt;
    hide Readable;
    hide PushOf;
    hide WindowSize;
    hide Outside;
    hide Stacked;
    hide NodeAddrs;
    hide BlocksIn;
    hide AllIn;
    var o, a, b := Addr(lists[k], i), BlocksIn(m, lists, frees), BlocksIn(r, lists, frees[k := frees[k] + [i]]);
    forall x | x in a ensures x in b && b[x] == if x == o then P.Reset(a[x]) else a[x] {}
    MapsAgree(a, b, o, P.Reset(a[o]));
  }

  predicate Rising(lists: seq<BufferList>) {
    forall k, l | 0 <= k < l < |lists| :: lists[k].cap < lists[l].cap
  }

  lemma ClassOfList(lists: seq<BufferList>, frees: seq<seq<nat>>, k: nat)
    requires |frees| == |lists| && k < |lists| && Rising(lists)
    ensures P.Class(ListsIn(lists, frees), lists[k].cap) == k && P.Ascending(ListsIn(lists, frees))
  {
    P.ClassAt(ListsIn(lists, frees), k);
  }

  /** A push of the bytes recycles the buffer in the pool they stand for, when its in-used bit is set. */
  lemma PushRefines(m: seq<Byte>, r: seq<Byte>, lists: seq<BufferList>, offset: nat, frees: seq<seq<nat>>, k: nat,
                    i: nat, s: P.Slice)
    requires PushStep(m, r, lists, offset, frees, k, i) && Rising(lists)
    requires s.isShm && s.off == Addr(lists[k], i) && s.cap == lists[k].cap
    ensures AllIn(m, NodeAddrs(lists)) && AllIn(r, NodeAddrs(lists))
    ensures var p := PoolIn(m, lists, frees);
            && s.off in p.blocks
            && (p.blocks[s.off].inUsed ==> PoolIn(r, lists, frees[k := frees[k] + [i]]) == P.Recycled(p, s))
  {
    hide InMemory;
    hide Addr;
    hide PushOf;
    hide WindowSize;
    hide Outside;
    hide Stacked;
    hide BlocksIn;
    PushedMap(m, r, lists, offset, frees, k, i);
    ClassOfList(lists, frees, k);
    ListsSet(lists, frees, k, frees[k] + [i]);
    assert Offsets(lists[k], frees[k] + [i]) == Offsets(lists[k], frees[k]) + [s.off];
  }

  // ---------------------------------------------------------------------------------------------
  // The pool is well-formed
  // ---------------------------------------------------------------------------------------------

  /** Buffers that are not free carry the in-used bit. */
  predicate HeldMarked(m: seq<Byte>, lists: seq<BufferList>, frees: seq<seq<nat>>) {
    |frees| == |lists| &&
    forall k, i | 0 <= k < |lists| && 0 <= i < lists[k].num && i !in frees[k] :: InUse(m, Addr(lists[k], i))
  }

  predicate InUse(m: seq<Byte>, o: nat) {
    o + NODE_HEADER <= |m| && m[o + 16] / 2 % 2 == 1
  }

  /** The addresses of the first `n` buffers of a list. */
  function FirstAddrs(l: BufferList, n: nat): (a: set<nat>)
    ensures |a| == n && (forall i | 0 <= i < n :: Addr(l, i) in a)
    ensures forall o | o in a :: exists i: nat :: i < n && o == Addr(l, i)
    ensures forall o | o in a :: n > 0 && o < Addr(l, n - 1) + 1
  {
    if n == 0 then {}
    else
      assert n > 1 ==> Addr(l, n - 2) < Addr(l, n - 1) by { if n > 1 { Spread(n - 2, n - 1, l.cap); } }
      FirstAddrs(l, n - 1) + {Addr(l, n - 1)}
  }

  lemma FreeBlockAt(m: seq<Byte>, o: nat, cap: nat)
    requires Readable(m, o) && Load(m, o, 4) == cap && Load(m, o + 4, 4) == 0 && Load(m, o + 8, 4) == 0 && m[o + 16] < 2
    ensures P.FreeBlock(BlockAt(m, o, true), cap)
  {
    hide Load;
  }

  lemma BlockSize(m: seq<Byte>, o: nat, cap: nat, free: bool)
    requires Readable(m, o) && Load(m, o, 4) == cap
    ensures BlockAt(m, o, free).cap == cap && |BlockAt(m, o, free).data| == cap
    ensures InUse(m, o) ==> BlockAt(m, o, free).inUsed
  {
    hide Load;
  }

  lemma FreeFacts(m: seq<Byte>, l: BufferList, free: seq<nat>, i: nat)
    requires InMemory(m, l, free) && i in free
    ensures Readable(m, Addr(l, i)) && P.FreeBlock(BlockAt(m, Addr(l, i), true), l.cap)
  {
    var j :| 0 <= j < |free| && free[j] == i;
    FreeSmall(m, l, free, j);
    hide InMemory;
    hide Load;
    hide Addr;
    hide Readable;
    hide BlockAt;
    NodeIn(m, l, free, i);
    FreeHeader(m, l, free, j);
    FreeBlockAt(m, Addr(l, i), l.cap);
  }

  lemma BlockFacts(m: seq<Byte>, lists: seq<BufferList>, offset: nat, frees: seq<seq<nat>>, k: nat, i: nat)
    requires AllInMemory(m, lists, frees) && Stacked(lists, offset) && HeldMarked(m, lists, frees)
    requires k < |lists| && i < lists[k].num && AllIn(m, NodeAddrs(lists))
    ensures var o, b := Addr(lists[k], i), BlocksIn(m, lists, frees);
            && o in b && b[o].cap == lists[k].cap && |b[o].data| == b[o].cap
            && (i in frees[k] ==> P.FreeBlock(b[o], lists[k].cap)) && (i !in frees[k] ==> b[o].inUsed)
  {
    hide InMemory;
    hide Addr;
    hide FreeAddrs;
    hide NodeAddrs;
    hide Stacked;
    hide Load;
    hide BlockAt;
    hide Readable;
    hide BlocksIn;
    hide Small;
    hide InUse;
    FreesSmall(m, lists, frees);
    FreeAddrIff(lists, offset, frees, k, i);
    AddrIn(lists, k, i);
    NodeIn(m, lists[k], frees[k], i);
    BlockSize(m, Addr(lists[k], i), lists[k].cap, i in frees[k]);
    if i in frees[k] { FreeFacts(m, lists[k], frees[k], i); }
  }

  /** The list and number of a buffer. */
  lemma NodeOf(lists: seq<BufferList>, o: nat) returns (l: nat, i: nat)
    requires o in NodeAddrs(lists)
    ensures l < |lists| && i < lists[l].num && o == Addr(lists[l], i)
  {
    l, i :| l < |lists| && i < lists[l].num && o == Addr(lists[l], i);
  }

  /** The buffers of one capacity are those of one list. */
  lemma ClassSize(m: seq<Byte>, lists: seq<BufferList>, offset: nat, frees: seq<seq<nat>>, k: nat)
    requires AllInMemory(m, lists, frees) && Stacked(lists, offset) && HeldMarked(m, lists, frees) && Rising(lists)
    requires k < |lists| && AllIn(m, NodeAddrs(lists))
    ensures |P.BlocksOf(BlocksIn(m, lists, frees), lists[k].cap)| == lists[k].num
  {
    hide AllInMemory;
    hide Addr;
    hide BlocksIn;
    hide Stacked;
    hide HeldMarked;
    hide FirstAddrs;
    hide NodeAddrs;
    hide BlockAt;
    hide FreeAddrs;
    hide AllIn;
    Sized(m, lists, frees);
    var b, a := BlocksIn(m, lists, frees), FirstAddrs(lists[k], lists[k].num);
    forall o | o in P.BlocksOf(b, lists[k].cap) ensures o in a {
      var l, i := NodeOf(lists, o);
      BlockFacts(m, lists, offset, frees, l, i);
      CapTells(lists, k, l);
    }
    forall o | o in a ensures o in P.BlocksOf(b, lists[k].cap) {
      var i: nat :| i < lists[k].num && o == Addr(lists[k], i);
      BlockFacts(m, lists, offset, frees, k, i);
    }
    assert P.BlocksOf(b, lists[k].cap) == a;
  }

  lemma Sized(m: seq<Byte>, lists: seq<BufferList>, frees: seq<seq<nat>>)
    requires AllInMemory(m, lists, frees)
    ensures |frees| == |lists|
  {
  }

  lemma CapTells(lists: seq<BufferList>, k: nat, l: nat)
    requires Rising(lists) && k < |lists| && l < |lists| && lists[k].cap == lists[l].cap
    ensures k == l
  {
  }

  lemma DistinctOffsets(m: seq<Byte>, lists: seq<BufferList>, offset: nat, frees: seq<seq<nat>>, k: nat)
    requires AllInMemory(m, lists, frees) && Stacked(lists, offset) && k < |lists|
    ensures Distinct(Offsets(lists[k], frees[k])) && frees[k] != []
  {
    Inhabited(m, lists[k], frees[k]);
    var c := Offsets(lists[k], frees[k]);
    forall i, j | 0 <= i < j < |c| ensures c[i] != c[j] {
      FreeSmall(m, lists[k], frees[k], i);
      FreeSmall(m, lists[k], frees[k], j);
      AddrsDiffer(lists, offset, k, frees[k][i], k, frees[k][j]);
    }
  }

  lemma FreeBlockIn(m: seq<Byte>, lists: seq<BufferList>, offset: nat, frees: seq<seq<nat>>, k: nat, j: nat)
    requires AllInMemory(m, lists, frees) && Stacked(lists, offset) && HeldMarked(m, lists, frees)
    requires k < |lists| && j < |frees[k]| && AllIn(m, NodeAddrs(lists))
    ensures var o, b := Addr(lists[k], frees[k][j]), BlocksIn(m, lists, frees);
            o in b && P.FreeBlock(b[o], lists[k].cap)
  {
    FreeSmall(m, lists[k], frees[k], j);
    hide InMemory;
    hide BlocksIn;
    hide Addr;
    hide BlockAt;
    hide Stacked;
    hide HeldMarked;
    hide AllIn;
    BlockFacts(m, lists, offset, frees, k, frees[k][j]);
  }

  lemma ListInOk(m: seq<Byte>, lists: seq<BufferList>, offset: nat, frees: seq<seq<nat>>, k: nat)
    requires AllInMemory(m, lists, frees) && Stacked(lists, offset) && HeldMarked(m, lists, frees) && Rising(lists)
    requires k < |lists| && AllIn(m, NodeAddrs(lists))
    ensures P.ListOk(PoolIn(m, lists, frees), k)
  {
    DistinctOffsets(m, lists, offset, frees, k);
    FreeSmall(m, lists[k], frees[k], 0);
    NodeIn(m, lists[k], frees[k], frees[k][0]);
    hide InMemory;
    hide Addr;
    hide BlocksIn;
    hide BlockAt;
    hide Stacked;
    hide HeldMarked;
    hide AllIn;
    hide P.BlocksOf;
    hide P.FreeBlock;
    hide Distinct;
    hide Readable;
    ClassSize(m, lists, offset, frees, k);
    var p := PoolIn(m, lists, frees);
    forall o | o in p.lists[k].free ensures o in p.blocks && P.FreeBlock(p.blocks[o], p.lists[k].cap) {
      var j :| 0 <= j < |frees[k]| && o == Addr(lists[k], frees[k][j]);
      FreeBlockIn(m, lists, offset, frees, k, j);
    }
  }

  lemma BlockInOk(m: seq<Byte>, lists: seq<BufferList>, offset: nat, frees: seq<seq<nat>>, o: nat)
    requires AllInMemory(m, lists, frees) && Stacked(lists, offset) && HeldMarked(m, lists, frees) && Rising(lists)
    requires o in NodeAddrs(lists) && AllIn(m, NodeAddrs(lists))
    ensures o in PoolIn(m, lists, frees).blocks && P.BlockOk(PoolIn(m, lists, frees), o)
    ensures PoolIn(m, lists, frees).blocks[o].inUsed <==> o !in FreeAddrs(lists, frees)
  {
    hide InMemory;
    hide Addr;
    hide BlocksIn;
    hide BlockAt;
    hide Stacked;
    hide HeldMarked;
    hide AllIn;
    hide FreeAddrs;
    Sized(m, lists, frees);
    var l, i := NodeOf(lists, o);
    BlockFacts(m, lists, offset, frees, l, i);
    ClassOfList(lists, frees, l);
    FreesSmall(m, lists, frees);
    FreeAddrIff(lists, offset, frees, l, i);
    if i in frees[l] {
      var j :| 0 <= j < |frees[l]| && frees[l][j] == i;
      assert Offsets(lists[l], frees[l])[j] == o;
    }
  }

  /** The bytes of a pool with ascending classes stand for a well-formed pool, in which exactly the
      buffers off the free lists are in use. */
  lemma PoolInOk(m: seq<Byte>, lists: seq<BufferList>, offset: nat, frees: seq<seq<nat>>)
    requires AllInMemory(m, lists, frees) && Stacked(lists, offset) && HeldMarked(m, lists, frees) && Rising(lists)
    requires lists != []
    ensures AllIn(m, NodeAddrs(lists)) && P.PoolOk(PoolIn(m, lists, frees))
    ensures P.Used(PoolIn(m, lists, frees)) == NodeAddrs(lists) - FreeAddrs(lists, frees)
  {
    AllReadable(m, lists, frees);
    hide InMemory;
    hide Addr;
    hide BlocksIn;
    hide BlockAt;
    hide Stacked;
    hide HeldMarked;
    hide AllIn;
    hide FreeAddrs;
    hide NodeAddrs;
    hide P.ListOk;
    hide P.BlockOk;
    var p := PoolIn(m, lists, frees);
    ClassOfList(lists, frees, 0);
    forall k | 0 <= k < |p.lists| ensures P.ListOk(p, k) { ListInOk(m, lists, offset, frees, k); }
    forall o | o in p.blocks
      ensures P.BlockOk(p, o) && (p.blocks[o].inUsed <==> o !in FreeAddrs(lists, frees))
    {
      BlockInOk(m, lists, offset, frees, o);
    }
  }

  // ---------------------------------------------------------------------------------------------
  // The pool in mapped memory
  // ---------------------------------------------------------------------------------------------

  ghost function Abs(p: PoolMemory): P.Pool
    requires p.Valid()
    reads p.mem, p.lists
  {
    AllToMemory(p.lists, p.mem, p.offset);
    AllReadable(p.mem[..], p.lists, FreeOf(p.lists));
    PoolIn(p.mem[..], p.lists, FreeOf(p.lists))
  }

  /** The classes were given with ascending sizes. */
  ghost predicate SizesRise(pairs: seq<SizePercent>) {
    forall k, l | 0 <= k < l < |pairs| :: pairs[k].size < pairs[l].size
  }

  /** A created pool stands for a well-formed pool with nothing in use: what sessions start from. */
  method NewPool(pairs: seq<SizePercent>, mem: array<Byte>, offset: nat) returns (r: Option<PoolMemory>)
    requires 0 < |pairs| < U16_LIMIT && mem.Length < U32_LIMIT
    requires mem.Length != offset + 1 && offset + MANAGER_HEADER < U32_LIMIT
    requires forall k | 0 <= k < |pairs| :: pairs[k].size < U32_LIMIT && pairs[k].percent < U32_LIMIT - 100
    modifies mem
    ensures r.Some? <==>
            HeadersFit(mem.Length, offset, |pairs|)
            && Divisible(mem.Length - offset - LIST_HEADER * |pairs| - MANAGER_HEADER, pairs)
    ensures r.Some? ==> r.value.Valid()
    ensures r.Some? && SizesRise(pairs) ==>
      Rising(r.value.lists) && P.PoolOk(Abs(r.value)) && P.Used(Abs(r.value)) == {}
  {
    hide P.PoolOk;
    hide P.Used;
    hide PoolIn;
    hide LaidOut;
    hide End;
    hide Load;
    hide Cut;
    hide SumPercent;
    hide Carved;
    hide Divisible;
    r := CreatePool(pairs, mem, offset);
    if r.Some? && SizesRise(pairs) {
      AllFree(r.value, mem.Length - offset - LIST_HEADER * |pairs| - MANAGER_HEADER, pairs);
    }
  }

  lemma CarvedRises(lists: seq<BufferList>, region: nat, pairs: seq<SizePercent>)
    requires Carved(lists, region, pairs)
    requires SizesRise(pairs)
    ensures Rising(lists)
    ensures forall k, i | 0 <= k < |lists| && 0 <= i < lists[k].num :: i in FreeOf(lists)[k]
  {
    hide Cut;
    forall k, i | 0 <= k < |lists| && 0 <= i < lists[k].num ensures i in FreeOf(lists)[k] {
      assert FreeOf(lists)[k][i] == i;
    }
  }

  lemma NoneUsed(m: seq<Byte>, lists: seq<BufferList>, offset: nat, frees: seq<seq<nat>>)
    requires AllInMemory(m, lists, frees) && Stacked(lists, offset) && Rising(lists) && lists != []
    requires forall k, i | 0 <= k < |lists| && 0 <= i < lists[k].num :: i in frees[k]
    ensures AllIn(m, NodeAddrs(lists)) && P.PoolOk(PoolIn(m, lists, frees)) && P.Used(PoolIn(m, lists, frees)) == {}
  {
    hide InMemory;
    hide Addr;
    hide Stacked;
    hide P.PoolOk;
    hide P.Used;
    hide PoolIn;
    hide AllIn;
    hide FreeAddrs;
    PoolInOk(m, lists, offset, frees);
    FreesSmall(m, lists, frees);
    forall o | o in NodeAddrs(lists) ensures o in FreeAddrs(lists, frees) {
      var l, i := NodeOf(lists, o);
      FreeAddrIff(lists, offset, frees, l, i);
    }
  }

  lemma AllFree(p: PoolMemory, region: nat, pairs: seq<SizePercent>)
    requires p.Valid() && Carved(p.lists, region, pairs)
    requires SizesRise(pairs)
    ensures Rising(p.lists) && P.PoolOk(Abs(p)) && P.Used(Abs(p)) == {}
  {
    InOrder(p.lists, p.mem, p.offset);
    hide P.PoolOk;
    hide P.Used;
    hide PoolIn;
    hide LaidOut;
    hide End;
    hide Load;
    hide Carved;
    hide Rising;
    hide AllInMemory;
    hide Stacked;
    AllToMemory(p.lists, p.mem, p.offset);
    CarvedRises(p.lists, region, pairs);
    NoneUsed(p.mem[..], p.lists, p.offset, FreeOf(p.lists));
  }

  /** `pop` on mapped memory refines the pop of the pool. */
  method PopPool(p: PoolMemory, k: nat) returns (r: Option<BufferLists.Slice>)
    requires p.Valid() && k < |p.lists| && P.PoolOk(Abs(p))
    modifies p.mem, p.lists[k]
    ensures p.Valid() && P.PoolOk(Abs(p)) && k < |old(Abs(p)).lists| && (r.Some? <==> P.CanPop(old(Abs(p)).lists[k]))
    ensures r == None ==> Abs(p) == old(Abs(p))
    ensures r.Some? ==>
      var q := old(Abs(p));
      && q.lists[k].free[0] in q.blocks && Abs(p) == P.Popped(q, k)
      && P.PoppedSlice(q, k) == P.Slice(true, r.value.offset, r.value.cap, r.value.start, r.value.start,
                                        r.value.start + r.value.size, [])
  {
    ghost var m, frees, q := p.mem[..], FreeOf(p.lists), Abs(p);
    AllToMemory(p.lists, p.mem, p.offset);
    r := p.PopFrom(k);
    if r.Some? {
      P.PoppedOk(q, k);
      P.PoppedSliceOk(q, k);
      PopRefines(m, p.mem[..], p.lists, p.offset, frees, k);
    }
  }

  /** `push` on mapped memory refines the recycling of a slice in use. */
  method PushPool(p: PoolMemory, k: nat, ghost i: nat, s: P.Slice)
    requires p.Valid() && Rising(p.lists) && k < |p.lists| && i < p.lists[k].num && i !in p.Free()[k]
    requires P.PoolOk(Abs(p)) && s.isShm && s.off == Addr(p.lists[k], i) && P.SliceOk(s, Abs(p).blocks)
    modifies p.mem, p.lists[k]
    ensures p.Valid() && P.PoolOk(Abs(p)) && s.off in old(Abs(p)).blocks && Abs(p) == P.Recycled(old(Abs(p)), s)
  {
    hide P.PoolOk;
    hide PoolIn;
    hide LaidOut;
    hide Stacked;
    hide End;
    hide Load;
    hide P.Recycled;
    hide P.SliceOk;
    hide PushOf;
    hide Outside;
    hide WindowSize;
    hide ListOk;
    hide InMemory;
    hide Rising;
    ghost var m, frees, l := p.mem[..], FreeOf(p.lists), p.lists[k];
    InOrder(p.lists, p.mem, p.offset);
    AllToMemory(p.lists, p.mem, p.offset);
    ListFacts(p, k);
    p.PushTo(k, s.off, i);
    ListFacts(p, k);
    PushedPool(m, p.mem[..], p.lists, p.offset, frees, k, i, s);
  }

  lemma ListFacts(p: PoolMemory, k: nat)
    requires p.Valid() && k < |p.lists|
    ensures var l := p.lists[k];
            && l.mem == p.mem && l.Placed() && l.base + WindowSize(l.num, l.cap) <= p.mem.Length
            && l.Window() == Window(p.mem[..], l) && AllIn(p.mem[..], NodeAddrs(p.lists))
  {
    hide ListOk;
    hide WindowSize;
    hide End;
    hide Load;
    AllToMemory(p.lists, p.mem, p.offset);
    AllReadable(p.mem[..], p.lists, FreeOf(p.lists));
  }

  lemma PushedPool(m: seq<Byte>, r: seq<Byte>, lists: seq<BufferList>, offset: nat, frees: seq<seq<nat>>, k: nat,
                   i: nat, s: P.Slice)
    requires PushStep(m, r, lists, offset, frees, k, i) && Rising(lists) && AllIn(m, NodeAddrs(lists))
    requires P.PoolOk(PoolIn(m, lists, frees)) && P.SliceOk(s, PoolIn(m, lists, frees).blocks)
    requires s.isShm && s.off == Addr(lists[k], i)
    ensures AllIn(r, NodeAddrs(lists)) && s.off in PoolIn(m, lists, frees).blocks
    ensures var q := PoolIn(r, lists, frees[k := frees[k] + [i]]);
            q == P.Recycled(PoolIn(m, lists, frees), s) && P.PoolOk(q)
  {
    SliceCap(m, lists, offset, frees, k, i);
    hide P.PoolOk;
    hide P.Recycled;
    hide PoolIn;
    hide InMemory;
    hide PushOf;
    hide Outside;
    hide WindowSize;
    hide Stacked;
    PushRefines(m, r, lists, offset, frees, k, i, s);
    P.RecycledOk(PoolIn(m, lists, frees), s);
  }

  lemma SliceCap(m: seq<Byte>, lists: seq<BufferList>, offset: nat, frees: seq<seq<nat>>, k: nat, i: nat)
    requires AllInMemory(m, lists, frees) && k < |lists| && i < lists[k].num && AllIn(m, NodeAddrs(lists))
    ensures var o, p := Addr(lists[k], i), PoolIn(m, lists, frees); o in p.blocks && p.blocks[o].cap == lists[k].cap
  {
    hide InMemory;
    hide Addr;
    hide FreeAddrs;
    hide Load;
    AddrIn(lists, k, i);
    NodeIn(m, lists[k], frees[k], i);
  }
}
