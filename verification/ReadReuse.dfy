/** Reusing the slice that was read last for writing, and what becomes of its block.

    `release_previous_read_and_reserve` keeps a single exhausted slice and resets it.  The reset
    clears the in-used bit, which only the allocator sets, and recycling passes over blocks without
    it.
 */
module ReadReuse {
  import opened BufferPool
  import opened Manager
  import opened SliceChains
  import opened LinkedBuffers
  import opened EndToEnd

  /** Every one of these blocks is on its free list. */
  predicate AllBack(p: Pool, blocks: set<nat>) {
    forall o | o in blocks :: Returned(p, o)
  }

  lemma TransferBack(p: Pool, q: Pool, own: set<nat>)
    requires PoolOk(q) && Transfer(p, q, own, {})
    ensures AllBack(q, own)
  {
    hide PoolOk;
    hide Returned;
    forall o | o in own ensures Returned(q, o) {
      assert o in Used(p) && o in q.blocks && o !in Used(q);
      ReturnedIff(q, o);
    }
  }

  lemma OnlyCleared(p: Pool, o: nat, s: Slice)
    requires PoolOk(p) && o in Used(p) && s.isShm && s.off == o
    ensures var q := Cleared(p, o); Backed([s], q) && RecycledAll(q, [s]) == q && !Returned(q, o) && !AllReturned(q)
  {
    ClearedIsLost(p, o, s);
    hide Recycled;
    assert [s][1..] == [];
  }

  /** The call followed by `recycle`: every block the buffer held goes back if and only if no slice was
      kept for writing.  The block of such a slice is on no free list and never comes back. */
  method ReuseThenRecycle(buf: LinkedBuffer)
    requires buf.Valid()
    modifies buf, buf.mgr
    ensures buf.slices == [] && buf.pinned == [] && buf.len == 0
    ensures AllBack(buf.mgr.pool, old(buf.Owned())) <==> !old(buf.Reuses())
    ensures old(buf.Reuses()) ==> !AllReturned(buf.mgr.pool)
    ensures !old(buf.Reuses()) ==> buf.Valid() && Transfer(old(buf.mgr.pool), buf.mgr.pool, old(buf.Owned()), {})
  {
    hide PoolOk;
    hide Transfer;
    hide Holds;
    hide Flat;
    hide Marked;
    hide Cleared;
    hide Recycled;
    hide AllBack;
    hide AllReturned;
    ghost var p, own, reuses, was := buf.mgr.pool, buf.Owned(), buf.Reuses(), buf.slices;
    if reuses {
      HoldsFront(buf.slices, buf.pinned, p);
      assert (buf.pinned + buf.slices)[|buf.pinned|] == buf.slices[0];
      assert buf.slices[0].off in own;
    }
    buf.ReleaseAndReserve();
    ghost var q, own1 := buf.mgr.pool, buf.Owned();
    if reuses {
      ghost var s := buf.slices[0];
      KeptIsLost(buf.slices, q, own);
    } else {
      HoldsBacked(buf.slices, buf.pinned, q);
    }
    buf.RecycleAll();
    if !reuses {
      assert Offs([]) == {};
      TransferThen(p, q, buf.mgr.pool, own, own1, {});
      HoldsPool(buf.slices, buf.pinned, buf.mgr.pool);
      TransferBack(p, buf.mgr.pool, own);
    }
  }

  /** The state the call leaves when it keeps a slice. */
  lemma KeptIsLost(slices: seq<Slice>, q: Pool, own: set<nat>)
    requires |slices| == 1 && slices[0].isShm && slices[0].off in q.blocks && slices[0].off in own
    requires Holds(slices, [], Marked(q, slices[0].off)) && q == Cleared(Marked(q, slices[0].off), slices[0].off)
    ensures Backed(slices, q) && RecycledAll(q, slices) == q && !AllBack(q, own) && !AllReturned(q)
  {
    var s, p := slices[0], Marked(q, slices[0].off);
    HoldsFront(slices, [], p);
    assert s.off in Used(p);
    hide PoolOk;
    hide Marked;
    hide Cleared;
    OnlyCleared(p, s.off, s);
    assert slices == [s];
  }

  // ---------------------------------------------------------------------------------------------
  // The stream's two buffers
  // ---------------------------------------------------------------------------------------------

  /** Recycling a list that is held, block by block. */
  lemma {:induction false} RecycledAllOk(slices: seq<Slice>, p: Pool)
    requires Holds(slices, [], p)
    ensures Backed(slices, p)
    ensures var q := RecycledAll(p, slices); PoolOk(q) && Transfer(p, q, Offs(slices), {})
    decreases |slices|
  {
    hide PoolOk;
    hide Holds;
    hide Transfer;
    hide Recycled;
    hide Flat;
    HoldsBacked(slices, [], p);
    HoldsUsed(slices, [], p);
    HoldsPool(slices, [], p);
    assert [] + slices == slices;
    if slices == [] {
      assert Offs(slices) == {};
      TransferSelf(p, {});
    } else {
      var s, rest := slices[0], slices[1..];
      BackedRest(slices, p);
      DropFront(slices, [], p);
      RecycledHeap(p, s);
      RecycledAllOk(rest, Recycled(p, s));
      assert [] + rest == rest;
      TransferThen(p, Recycled(p, s), RecycledAll(p, slices), Offs(slices), Offs(rest), {});
    }
  }

  /** Recycling other slices and losing the bit of a block do not affect each other. */
  lemma ClearedElsewhere(p: Pool, o: nat, s: Slice)
    requires o in p.blocks && (s.isShm ==> s.off in p.blocks && s.off != o)
    ensures o in Recycled(p, s).blocks && Recycled(Cleared(p, o), s) == Cleared(Recycled(p, s), o)
  {
    if s.isShm {
      var x, y := Reset(p.blocks[o]), Reset(p.blocks[s.off]);
      assert p.blocks[o := x][s.off := y] == p.blocks[s.off := y][o := x];
    }
  }

  lemma {:induction false} ClearedThrough(p: Pool, o: nat, slices: seq<Slice>)
    requires o in p.blocks && Backed(slices, p) && o !in Offs(slices)
    ensures Backed(slices, Cleared(p, o)) && o in RecycledAll(p, slices).blocks
    ensures RecycledAll(Cleared(p, o), slices) == Cleared(RecycledAll(p, slices), o)
    decreases |slices|
  {
    assert Backed(slices, Cleared(p, o));
    if slices != [] {
      var s := slices[0];
      assert s in slices && (s.isShm ==> s.off in p.blocks);
      BackedRest(slices, p);
      BackedRest(slices, Cleared(p, o));
      ClearedElsewhere(p, o, s);
      hide Recycled;
      hide Cleared;
      assert forall x | x in slices[1..] :: x in slices;
      ClearedThrough(Recycled(p, s), o, slices[1..]);
    }
  }

  /** `std::swap` of two buffers. */
  method Swap(a: LinkedBuffer, b: LinkedBuffer)
    requires a != b && a.mgr == b.mgr
    modifies a, b
    ensures a.slices == old(b.slices) && a.pinned == old(b.pinned) && a.len == old(b.len)
    ensures b.slices == old(a.slices) && b.pinned == old(a.pinned) && b.len == old(a.len)
    ensures a.cursor == old(b.cursor) && b.cursor == old(a.cursor)
    ensures a.fromShm == old(b.fromShm) && b.fromShm == old(a.fromShm)
    ensures a.currentPinned == old(b.currentPinned) && b.currentPinned == old(a.currentPinned)
  {
    a.slices, b.slices := b.slices, a.slices;
    a.cursor, b.cursor := b.cursor, a.cursor;
    a.pinned, b.pinned := b.pinned, a.pinned;
    a.currentPinned, b.currentPinned := b.currentPinned, a.currentPinned;
    a.fromShm, b.fromShm := b.fromShm, a.fromShm;
    a.len, b.len := b.len, a.len;
  }

  /** `release_read_and_reuse`, and what a later `close` recycles: every block of the stream goes back
      if and only if the receive buffer had no slice to reuse. */
  method ReuseThenClose(recv: LinkedBuffer, send: LinkedBuffer)
    requires recv != send && recv.mgr == send.mgr && recv.Valid() && send.Valid()
    requires recv.Owned() !! send.Owned() && send.pinned == []
    modifies recv, send, recv.mgr
    ensures recv.slices == [] && send.slices == [] && recv.pinned == [] && send.pinned == []
    ensures AllBack(recv.mgr.pool, old(recv.Owned() + send.Owned())) <==> !old(recv.Reuses())
    ensures old(recv.Reuses()) ==> !AllReturned(recv.mgr.pool)
  {
    hide PoolOk;
    hide Transfer;
    hide Holds;
    hide Flat;
    hide Marked;
    hide Cleared;
    hide Recycled;
    hide AllBack;
    hide AllReturned;
    hide Offs;
    ghost var p, own, other, reuses := recv.mgr.pool, recv.Owned(), send.Owned(), recv.Reuses();
    HoldsUsed(send.slices, send.pinned, p);
    if reuses { OwnsFront(recv.slices, recv.pinned, p); }
    recv.ReleaseAndReserve();
    ghost var q, own1 := recv.mgr.pool, recv.Owned();
    if reuses {
      ghost var s := recv.slices[0];
      HoldsPool(recv.slices, [], Marked(q, s.off));
      OtherBuffer(send.slices, send.pinned, p, Marked(q, s.off), own, own1);
      OwnsFront(recv.slices, recv.pinned, Marked(q, s.off));
      assert [] + send.slices == send.slices;
      BothLost(s, send.slices, q, own + other);
      assert recv.slices == [s];
    } else {
      HoldsPool(recv.slices, recv.pinned, q);
      OtherBuffer(send.slices, send.pinned, p, q, own, own1);
      Widen(p, q, own, own1, other);
      HoldsUsed(send.slices, send.pinned, q);
      HoldsBacked(recv.slices, recv.pinned, q);
    }
    if recv.len == 0 && |recv.slices| == 1 {
      Swap(recv, send);
    }
    recv.RecycleAll();
    ghost var q1 := recv.mgr.pool;
    if !reuses {
      OffsNone();
      HoldsPool(recv.slices, recv.pinned, q1);
      OtherBuffer(send.slices, send.pinned, q, q1, own1, {});
      Widen(q, q1, own1, {}, other);
      HoldsBacked(send.slices, send.pinned, q1);
    }
    send.RecycleAll();
    if !reuses {
      ghost var q2 := recv.mgr.pool;
      TransferThen(p, q, q1, own + other, own1 + other, {} + other);
      assert {} + other == other;
      TransferThen(p, q1, q2, own + other, other, {});
      HoldsPool(send.slices, send.pinned, q2);
      TransferBack(p, q2, own + other);
    }
  }

  lemma OwnsFront(slices: seq<Slice>, pinned: seq<Slice>, p: Pool)
    requires Holds(slices, pinned, p) && slices != [] && slices[0].isShm
    ensures slices[0].off in Offs(pinned + slices) && slices[0].off in Used(p)
  {
    HoldsFront(slices, pinned, p);
    assert (pinned + slices)[|pinned|] == slices[0];
  }

  /** The send buffer's own slices go back, the one that was kept does not. */
  lemma BothLost(s: Slice, sent: seq<Slice>, q: Pool, own: set<nat>)
    requires s.isShm && s.off in q.blocks && s.off in own && s.off !in Offs(sent)
    requires var p := Marked(q, s.off); s.off in Used(p) && Holds(sent, [], p) && q == Cleared(p, s.off)
    ensures Backed(sent, q)
    ensures var r := RecycledAll(q, sent);
            Backed([s], r) && RecycledAll(r, [s]) == r && !AllBack(r, own) && !AllReturned(r)
  {
    hide PoolOk;
    hide Marked;
    hide Cleared;
    hide Holds;
    hide Recycled;
    var p, o := Marked(q, s.off), s.off;
    RecycledAllOk(sent, p);
    ClearedThrough(p, o, sent);
    OnlyCleared(RecycledAll(p, sent), o, s);
  }

  // ---------------------------------------------------------------------------------------------
  // A buffer that loses its block
  // ---------------------------------------------------------------------------------------------

  /** One class of two buffers of four bytes. */
  function SmallPool(): Pool {
    var b := Block(4, 0, 0, 0, false, false, [0, 0, 0, 0]);
    Pool([FreeList(4, 2, [0, 24])], map[0 := b, 24 := b])
  }

  lemma SmallPoolOk()
    ensures PoolOk(SmallPool()) && AllReturned(SmallPool()) && Fits(SmallPool(), 1)
  {
    var p := SmallPool();
    assert BlocksOf(p.blocks, 4) == {0, 24};
    assert ListOk(p, 0);
    assert Class(p.lists, 4) == 0 && FirstFit(p.lists, 1) == 0;
    forall o | o in p.blocks ensures BlockOk(p, o) {
      assert p.lists[0].free[0] == 0 && p.lists[0].free[1] == 24;
    }
  }

  /** One byte written, read and released for reuse: although the buffer is then recycled, the pool
      that had all its buffers has not any more. */
  method LosesBlock() returns (mgr: BufferManager)
    ensures AllReturned(SmallPool()) && !AllReturned(mgr.pool)
  {
    hide PoolOk;
    hide Transfer;
    hide Holds;
    hide Flat;
    hide AllReturned;
    hide Fits;
    hide SmallPool;
    SmallPoolOk();
    mgr := new BufferManager(SmallPool());
    var buf := new LinkedBuffer(mgr);
    var n := buf.WriteBytes([7]);
    var r := buf.ReadBytes(1);
    assert |buf.slices| == 1 && buf.slices[0].isShm;
    ReuseThenRecycle(buf);
  }
}
