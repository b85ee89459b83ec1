/** The buffer pool of one session, between operations: the free lists as sequences of offsets and
    the blocks they manage.  How one list behaves in memory and under concurrency is the subject of
    `BufferList` and `FreeListProtocol`; here pop and push are single steps.  `PoolRefinement` shows
    that the bytes of a created pool stand for such a pool.
 */
module BufferPool {
  import opened Basics
  import opened Bytes

  /** A block of shared memory: its header and its data area. */
  datatype Block = Block(cap: nat, size: nat, start: nat, next: nat, hasNext: bool, inUsed: bool, data: seq<Byte>)

  /** One buffer class: `num` blocks in all, `free` from head to tail. */
  datatype FreeList = FreeList(cap: nat, num: nat, free: seq<nat>)

  datatype Pool = Pool(lists: seq<FreeList>, blocks: map<nat, Block>)

  /** A slice held by a process: a window on a block, or on heap storage of its own. */
  datatype Slice = Slice(isShm: bool, off: nat, cap: nat, start: nat, read: nat, write: nat, heap: seq<Byte>)

  function Size(s: Slice): int { s.write - s.read }

  function Remain(s: Slice): int { s.cap - s.write }

  // ---------------------------------------------------------------------------------------------
  // Well-formed pools
  // ---------------------------------------------------------------------------------------------

  /** The list that manages blocks of capacity `c`: the first of equal capacity. */
  function Class(lists: seq<FreeList>, c: nat): (i: nat)
    ensures i <= |lists|
    ensures i < |lists| ==> lists[i].cap == c
    ensures forall j | 0 <= j < i :: lists[j].cap != c
  {
    if lists == [] then 0
    else if lists[0].cap == c then 0
    else 1 + Class(lists[1..], c)
  }

  predicate Ascending(lists: seq<FreeList>) {
    forall i, j | 0 <= i < j < |lists| :: lists[i].cap < lists[j].cap
  }

  predicate ListOk(p: Pool, i: nat)
    requires i < |p.lists|
  {
    var l := p.lists[i];
    && l.cap > 0
    && |l.free| >= 1
    && Distinct(l.free)
    && (forall o | o in l.free :: o in p.blocks && FreeBlock(p.blocks[o], l.cap))
    && |BlocksOf(p.blocks, l.cap)| == l.num
  }

  /** What push and `create` leave in a free header; its link belongs to the list, not to the block. */
  predicate FreeBlock(b: Block, c: nat) {
    b.cap == c && b.size == 0 && b.start == 0 && !b.inUsed
  }

  function BlocksOf(blocks: map<nat, Block>, c: nat): set<nat> {
    set o | o in blocks && blocks[o].cap == c
  }

  /** A block is as large as it says, has a class, and is on its free list unless it is in use. */
  predicate BlockOk(p: Pool, o: nat)
    requires o in p.blocks
  {
    var b := p.blocks[o];
    var i := Class(p.lists, b.cap);
    |b.data| == b.cap && i < |p.lists| && (!b.inUsed ==> o in p.lists[i].free)
  }

  predicate PoolOk(p: Pool) {
    && p.lists != []
    && Ascending(p.lists)
    && (forall i | 0 <= i < |p.lists| :: ListOk(p, i))
    && (forall o | o in p.blocks :: BlockOk(p, o))
  }

  /** The offsets out of the free lists. */
  function Used(p: Pool): set<nat> {
    set o | o in p.blocks && p.blocks[o].inUsed
  }

  // ---------------------------------------------------------------------------------------------
  // Pop and push of one list
  // ---------------------------------------------------------------------------------------------

  /** The last buffer of a list is never handed out. */
  predicate CanPop(l: FreeList) {
    |l.free| > 1
  }

  function Popped(p: Pool, i: nat): Pool
    requires i < |p.lists| && CanPop(p.lists[i]) && p.lists[i].free[0] in p.blocks
  {
    var l := p.lists[i];
    var o := l.free[0];
    p.(lists := p.lists[i := l.(free := l.free[1..])],
       blocks := p.blocks[o := p.blocks[o].(hasNext := false, inUsed := true)])
  }

  function PoppedSlice(p: Pool, i: nat): Slice
    requires i < |p.lists| && CanPop(p.lists[i]) && p.lists[i].free[0] in p.blocks
  {
    var l := p.lists[i];
    var b := p.blocks[l.free[0]];
    Slice(true, l.free[0], b.cap, b.start, b.start, b.start + b.size, [])
  }

  /** The header a push resets; a link without its flag reads as 0. */
  function Reset(b: Block): Block {
    b.(size := 0, start := 0, next := 0, hasNext := false, inUsed := false)
  }

  function Recycled(p: Pool, s: Slice): Pool
    requires s.isShm ==> s.off in p.blocks
  {
    if !s.isShm || !p.blocks[s.off].inUsed then p
    else
      var i := Class(p.lists, s.cap);
      if i == |p.lists| then p
      else
        var l := p.lists[i];
        p.(lists := p.lists[i := l.(free := l.free + [s.off])],
           blocks := p.blocks[s.off := Reset(p.blocks[s.off])])
  }

  lemma ClassAt(lists: seq<FreeList>, i: nat)
    requires Ascending(lists) && i < |lists|
    ensures Class(lists, lists[i].cap) == i
  {
  }

  lemma {:induction false} ClassSame(a: seq<FreeList>, b: seq<FreeList>, c: nat)
    requires |a| == |b| && forall i | 0 <= i < |a| :: a[i].cap == b[i].cap
    ensures Class(a, c) == Class(b, c)
  {
  }

  lemma BlocksOfSame(a: map<nat, Block>, b: map<nat, Block>, c: nat)
    requires a.Keys == b.Keys && forall o | o in a :: a[o].cap == b[o].cap
    ensures BlocksOf(a, c) == BlocksOf(b, c)
  {
  }

  lemma PoppedListOk(p: Pool, i: nat, j: nat)
    requires PoolOk(p) && i < |p.lists| && CanPop(p.lists[i]) && p.lists[i].free[0] in p.blocks && j < |p.lists|
    ensures ListOk(Popped(p, i), j)
  {
    hide BlocksOf;
    hide BlockOk;
    var q := Popped(p, i);
    assert ListOk(p, i) && ListOk(p, j);
    BlocksOfSame(p.blocks, q.blocks, p.lists[j].cap);
    var o := p.lists[i].free[0];
    if i == j {
      assert forall x | x in q.lists[i].free :: x in p.lists[i].free && x != o;
    } else {
      assert o !in p.lists[j].free by {
        assert p.blocks[o].cap == p.lists[i].cap;
      }
    }
  }

  lemma PoppedBlockOk(p: Pool, i: nat, x: nat)
    requires PoolOk(p) && i < |p.lists| && CanPop(p.lists[i]) && p.lists[i].free[0] in p.blocks && x in p.blocks
    ensures BlockOk(Popped(p, i), x)
  {
    hide BlocksOf;
    var q := Popped(p, i);
    assert BlockOk(p, x) && ListOk(p, i);
    ClassSame(p.lists, q.lists, p.blocks[x].cap);
    var l := p.lists[i];
    assert l.free == [l.free[0]] + l.free[1..];
  }

  /** A pop takes the oldest free block, marks it in use, and leaves every other block alone. */
  lemma PoppedOk(p: Pool, i: nat)
    requires PoolOk(p) && i < |p.lists| && CanPop(p.lists[i])
    ensures p.lists[i].free[0] in p.blocks
    ensures PoolOk(Popped(p, i))
    ensures Used(Popped(p, i)) == Used(p) + {p.lists[i].free[0]}
    ensures p.lists[i].free[0] !in Used(p)
  {
    hide BlocksOf;
    hide BlockOk;
    assert ListOk(p, i);
    var q := Popped(p, i);
    forall j | 0 <= j < |q.lists| ensures ListOk(q, j) { PoppedListOk(p, i, j); }
    forall x | x in q.blocks ensures BlockOk(q, x) { PoppedBlockOk(p, i, x); }
  }

  lemma RecycledListOk(p: Pool, s: Slice, j: nat)
    requires PoolOk(p) && s.isShm && s.off in p.blocks && p.blocks[s.off].inUsed && p.blocks[s.off].cap == s.cap
    requires j < |p.lists|
    ensures j < |Recycled(p, s).lists| && ListOk(Recycled(p, s), j)
  {
    hide BlocksOf;
    var q, i := Recycled(p, s), Class(p.lists, s.cap);
    assert BlockOk(p, s.off) && ListOk(p, i) && ListOk(p, j);
    hide BlockOk;
    BlocksOfSame(p.blocks, q.blocks, p.lists[j].cap);
  }

  lemma RecycledBlockOk(p: Pool, s: Slice, x: nat)
    requires PoolOk(p) && s.isShm && s.off in p.blocks && p.blocks[s.off].inUsed && p.blocks[s.off].cap == s.cap
    requires x in p.blocks
    ensures x in Recycled(p, s).blocks && BlockOk(Recycled(p, s), x)
  {
    hide BlocksOf;
    var q, i := Recycled(p, s), Class(p.lists, s.cap);
    assert BlockOk(p, s.off) && BlockOk(p, x);
    ClassSame(p.lists, q.lists, p.blocks[x].cap);
  }

  /** Recycling a slice that is in use puts its block at the end of its own list. */
  lemma RecycledOk(p: Pool, s: Slice)
    requires PoolOk(p) && s.isShm && s.off in p.blocks && p.blocks[s.off].inUsed && p.blocks[s.off].cap == s.cap
    ensures PoolOk(Recycled(p, s))
    ensures Used(Recycled(p, s)) == Used(p) - {s.off}
    ensures Recycled(p, s).blocks == p.blocks[s.off := Reset(p.blocks[s.off])]
  {
    hide BlocksOf;
    var q := Recycled(p, s);
    assert BlockOk(p, s.off);
    hide BlockOk;
    forall j | 0 <= j < |q.lists| ensures ListOk(q, j) { RecycledListOk(p, s, j); }
    forall x | x in q.blocks ensures BlockOk(q, x) { RecycledBlockOk(p, s, x); }
  }

  /** The slices have blocks in this pool, whatever the headers say. */
  predicate Backed(ss: seq<Slice>, p: Pool) {
    forall i | 0 <= i < |ss| && ss[i].isShm :: ss[i].off in p.blocks
  }

  /** The pool after the slices were recycled one by one. */
  function RecycledAll(p: Pool, ss: seq<Slice>): Pool
    requires Backed(ss, p)
    decreases |ss|
  {
    if ss == [] then p
    else
      assert ss[0].isShm ==> ss[0].off in p.blocks;
      BackedRest(ss, p);
      RecycledAll(Recycled(p, ss[0]), ss[1..])
  }

  lemma BackedRest(ss: seq<Slice>, p: Pool)
    requires Backed(ss, p) && ss != [] && (ss[0].isShm ==> ss[0].off in p.blocks)
    ensures Backed(ss[1..], Recycled(p, ss[0]))
  {
  }

  /** The block is on the free list of its class. */
  predicate Returned(p: Pool, o: nat) {
    o in p.blocks &&
    var i := Class(p.lists, p.blocks[o].cap);
    i < |p.lists| && o in p.lists[i].free
  }

  lemma ReturnedIff(p: Pool, o: nat)
    requires PoolOk(p) && o in p.blocks
    ensures Returned(p, o) <==> o !in Used(p)
  {
    assert BlockOk(p, o);
    var i := Class(p.lists, p.blocks[o].cap);
    assert ListOk(p, i);
  }

  // ---------------------------------------------------------------------------------------------
  // A held block whose header is reset
  // ---------------------------------------------------------------------------------------------

  /** `BufferSlice::reset` on the header of a held block. */
  function Cleared(p: Pool, o: nat): Pool
    requires o in p.blocks
  {
    p.(blocks := p.blocks[o := Reset(p.blocks[o])])
  }

  /** The same pool, had the in-used bit been kept. */
  function Marked(p: Pool, o: nat): Pool
    requires o in p.blocks
  {
    p.(blocks := p.blocks[o := p.blocks[o].(inUsed := true)])
  }

  /** A held block's header does not matter to the pool as long as its bit is set. */
  lemma HeldHeader(p: Pool, o: nat, b: Block)
    requires PoolOk(p) && o in Used(p) && b.inUsed && b.cap == p.blocks[o].cap && b.data == p.blocks[o].data
    ensures var q := p.(blocks := p.blocks[o := b]); PoolOk(q) && Used(q) == Used(p)
  {
    hide BlocksOf;
    var q := p.(blocks := p.blocks[o := b]);
    forall j | 0 <= j < |q.lists| ensures ListOk(q, j) { HeldHeaderList(p, o, b, j); }
    hide ListOk;
    forall x | x in q.blocks ensures BlockOk(q, x) { assert BlockOk(p, x); }
  }

  lemma HeldHeaderList(p: Pool, o: nat, b: Block, j: nat)
    requires PoolOk(p) && o in Used(p) && b.inUsed && b.cap == p.blocks[o].cap && j < |p.lists|
    ensures ListOk(p.(blocks := p.blocks[o := b]), j)
  {
    hide BlocksOf;
    hide BlockOk;
    assert ListOk(p, j);
    BlocksOfSame(p.blocks, p.blocks[o := b], p.lists[j].cap);
  }

  /** A block that lost its bit while it was held is on no free list and stays off it when it is
      recycled, so the pool never again has all its buffers. */
  lemma ClearedIsLost(p: Pool, o: nat, s: Slice)
    requires PoolOk(p) && o in Used(p) && s.isShm && s.off == o
    ensures var q := Cleared(p, o); Recycled(q, s) == q && !Returned(q, o) && !AllReturned(q)
  {
    ReturnedIff(p, o);
    AllReturnedIff(p);
  }

  // ---------------------------------------------------------------------------------------------
  // All buffers returned
  // ---------------------------------------------------------------------------------------------

  /** `check_buffer_returned`: every list is back at its full size. */
  predicate AllReturned(p: Pool) {
    forall i | 0 <= i < |p.lists| :: |p.lists[i].free| == p.lists[i].num
  }

  lemma SubsetOfSameSize(a: set<nat>, b: set<nat>)
    requires a <= b && |a| == |b|
    ensures a == b
  {
    assert b == a + (b - a);
    assert |b| == |a| + |b - a|;
  }

  lemma ListReturnedIff(p: Pool, i: nat)
    requires PoolOk(p) && i < |p.lists|
    ensures |p.lists[i].free| == p.lists[i].num <==>
            forall o | o in p.blocks && p.blocks[o].cap == p.lists[i].cap :: !p.blocks[o].inUsed
  {
    assert ListOk(p, i);
    var l := p.lists[i];
    var all := BlocksOf(p.blocks, l.cap);
    ElemsSize(l.free);
    assert Elems(l.free) <= all;
    ClassAt(p.lists, i);
    if |l.free| == l.num {
      SubsetOfSameSize(Elems(l.free), all);
      forall o | o in p.blocks && p.blocks[o].cap == l.cap ensures !p.blocks[o].inUsed {
        assert o in all;
      }
    }
    if forall o | o in p.blocks && p.blocks[o].cap == l.cap :: !p.blocks[o].inUsed {
      forall o | o in all ensures o in Elems(l.free) { assert BlockOk(p, o); }
      assert Elems(l.free) == all;
    }
  }

  /** The shutdown check passes exactly when nothing is in use any more. */
  lemma AllReturnedIff(p: Pool)
    requires PoolOk(p)
    ensures AllReturned(p) <==> Used(p) == {}
  {
    forall i | 0 <= i < |p.lists|
      ensures |p.lists[i].free| == p.lists[i].num <==>
              forall o | o in p.blocks && p.blocks[o].cap == p.lists[i].cap :: !p.blocks[o].inUsed
    {
      ListReturnedIff(p, i);
    }
    if AllReturned(p) {
      forall o | o in p.blocks ensures !p.blocks[o].inUsed {
        assert BlockOk(p, o);
        assert p.lists[Class(p.lists, p.blocks[o].cap)].cap == p.blocks[o].cap;
      }
    } else {
      var i :| 0 <= i < |p.lists| && |p.lists[i].free| != p.lists[i].num;
      var o :| o in p.blocks && p.blocks[o].cap == p.lists[i].cap && p.blocks[o].inUsed;
      assert o in Used(p);
    }
  }

  // ---------------------------------------------------------------------------------------------
  // Slices in a pool
  // ---------------------------------------------------------------------------------------------

  /** A slice that is held: its indices are in range and its block, if it has one, is in use. */
  predicate SliceOk(s: Slice, blocks: map<nat, Block>) {
    && s.read <= s.write <= s.cap
    && if s.isShm
       then s.off in blocks && blocks[s.off].inUsed && blocks[s.off].cap == s.cap && |blocks[s.off].data| == s.cap
       else |s.heap| == s.cap
  }

  predicate SlicesOk(ss: seq<Slice>, blocks: map<nat, Block>) {
    forall i | 0 <= i < |ss| :: SliceOk(ss[i], blocks)
  }

  /** No block is held twice. */
  predicate Apart(ss: seq<Slice>) {
    forall i, j | 0 <= i < j < |ss| && ss[i].isShm && ss[j].isShm :: ss[i].off != ss[j].off
  }

  function Offs(ss: seq<Slice>): set<nat> {
    set s | s in ss && s.isShm :: s.off
  }

  function SumCap(ss: seq<Slice>): nat {
    if ss == [] then 0 else SumCap(ss[..|ss| - 1]) + ss[|ss| - 1].cap
  }

  /** The blocks of `keep` are what they were. */
  predicate Kept(p: Pool, q: Pool, keep: set<nat>) {
    forall o | o in keep :: o in p.blocks && o in q.blocks && q.blocks[o] == p.blocks[o]
  }

  predicate FreshSlice(s: Slice) {
    s.start == 0 && s.read == 0 && s.write == 0 && s.cap > 0
  }

  /** `got` was taken from the free lists of `p`, leaving `q`. */
  predicate Allocated(p: Pool, q: Pool, got: seq<Slice>) {
    && PoolOk(q)
    && (forall i | 0 <= i < |got| :: got[i].isShm && FreshSlice(got[i]) && !HasLink(q, got[i]))
    && SlicesOk(got, q.blocks)
    && Apart(got)
    && Offs(got) !! Used(p)
    && Used(q) == Used(p) + Offs(got)
    && Kept(p, q, Used(p))
    && q.blocks.Keys == p.blocks.Keys
    && SameClasses(p.lists, q.lists)
  }

  predicate HasLink(p: Pool, s: Slice) {
    s.isShm && s.off in p.blocks && p.blocks[s.off].hasNext
  }

  predicate SameClasses(a: seq<FreeList>, b: seq<FreeList>) {
    |a| == |b| && forall i | 0 <= i < |a| :: a[i].cap == b[i].cap && a[i].num == b[i].num
  }

  lemma OffsAppend(ss: seq<Slice>, s: Slice)
    ensures Offs(ss + [s]) == Offs(ss) + (if s.isShm then {s.off} else {})
  {
    assert forall x :: x in ss + [s] <==> x in ss || x == s;
  }

  lemma SumCapAppend(ss: seq<Slice>, s: Slice)
    ensures SumCap(ss + [s]) == SumCap(ss) + s.cap
  {
    assert (ss + [s])[..|ss|] == ss;
  }

  lemma AllocatedNone(p: Pool)
    requires PoolOk(p)
    ensures Allocated(p, p, [])
  {
    assert Offs([]) == {};
  }

  lemma PoppedSliceOk(p: Pool, i: nat)
    requires PoolOk(p) && i < |p.lists| && CanPop(p.lists[i])
    ensures p.lists[i].free[0] in p.blocks
    ensures var s := PoppedSlice(p, i);
            s.isShm && FreshSlice(s) && SliceOk(s, Popped(p, i).blocks) && !HasLink(Popped(p, i), s)
            && s.off == p.lists[i].free[0] && s.cap == p.lists[i].cap
  {
    assert ListOk(p, i);
    assert BlockOk(p, p.lists[i].free[0]);
  }

  lemma AllocatedMore(p: Pool, q: Pool, got: seq<Slice>, i: nat)
    requires Allocated(p, q, got) && i < |q.lists| && CanPop(q.lists[i])
    ensures q.lists[i].free[0] in q.blocks
    ensures Allocated(p, Popped(q, i), got + [PoppedSlice(q, i)])
  {
    hide PoolOk;
    PoppedOk(q, i);
    PoppedSliceOk(q, i);
    var s, r := PoppedSlice(q, i), Popped(q, i);
    OffsAppend(got, s);
    assert forall k | 0 <= k < |got| :: got[k].off in Offs(got) && got[k].off != s.off;
  }
}
