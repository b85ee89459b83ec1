/** A message in shared memory: `done` writes a send buffer into the headers of its blocks, the ring
    carries the first offset, and the peer walks the headers and rebuilds the bytes. */
module Publish {
  import opened Basics
  import opened Bytes
  import opened BufferPool
  import opened SliceChains
  import opened LinkedBuffers

  // ---------------------------------------------------------------------------------------------
  // Headers of a published message
  // ---------------------------------------------------------------------------------------------

  /** `BufferSlice::update` of slice `i` of the list. */
  function Updated(b: Block, slices: seq<Slice>, i: nat): Block
    requires i < |slices| && slices[i].read <= slices[i].write
  {
    var s := slices[i];
    var b1 := b.(size := s.write - s.read, start := s.start);
    if i + 1 < |slices| then b1.(next := slices[i + 1].off, hasNext := true) else b1
  }

  /** The blocks after the updates of the first `n` slices. */
  function PublishedTo(blocks: map<nat, Block>, slices: seq<Slice>, n: nat): map<nat, Block>
    requires n <= |slices| && forall i | 0 <= i < |slices| :: slices[i].off in blocks && slices[i].read <= slices[i].write
    ensures PublishedTo(blocks, slices, n).Keys == blocks.Keys
  {
    if n == 0 then blocks
    else
      var m := PublishedTo(blocks, slices, n - 1);
      m[slices[n - 1].off := Updated(m[slices[n - 1].off], slices, n - 1)]
  }

  /** Each block is written once, and nothing else is. */
  lemma {:induction false} PublishedAt(blocks: map<nat, Block>, slices: seq<Slice>, n: nat, o: nat)
    requires n <= |slices| && AllShm(slices) && Apart(slices) && SlicesOk(slices, blocks) && o in blocks
    ensures forall i | 0 <= i < |slices| :: slices[i].off in blocks && slices[i].read <= slices[i].write
    ensures forall i | 0 <= i < n && slices[i].off == o :: PublishedTo(blocks, slices, n)[o] == Updated(blocks[o], slices, i)
    ensures (forall i | 0 <= i < n :: slices[i].off != o) ==> PublishedTo(blocks, slices, n)[o] == blocks[o]
  {
    forall i | 0 <= i < |slices| ensures slices[i].off in blocks && slices[i].read <= slices[i].write {
      assert SliceOk(slices[i], blocks);
    }
    if n > 0 {
      PublishedAt(blocks, slices, n - 1, o);
    }
  }

  // ---------------------------------------------------------------------------------------------
  // Chains
  // ---------------------------------------------------------------------------------------------

  predicate LinkOk(blocks: map<nat, Block>, chain: seq<nat>, i: nat)
    requires i < |chain|
  {
    && chain[i] in blocks
    && blocks[chain[i]].inUsed
    && |blocks[chain[i]].data| == blocks[chain[i]].cap
    && blocks[chain[i]].start + blocks[chain[i]].size <= blocks[chain[i]].cap
    && blocks[chain[i]].hasNext == (i + 1 < |chain|)
    && (i + 1 < |chain| ==> blocks[chain[i]].next == chain[i + 1])
  }

  /** The header links lead from `root` through exactly the blocks of `chain`. */
  predicate Chain(blocks: map<nat, Block>, root: nat, chain: seq<nat>) {
    && chain != [] && chain[0] == root
    && Distinct(chain)
    && forall i | 0 <= i < |chain| :: LinkOk(blocks, chain, i)
  }

  /** The slice the peer builds from a header: `read_buffer_slice`. */
  function SliceFrom(o: nat, b: Block): Slice {
    Slice(true, o, b.cap, b.start, b.start, b.start + b.size, [])
  }

  function SlicesFrom(blocks: map<nat, Block>, chain: seq<nat>): (ss: seq<Slice>)
    requires forall i | 0 <= i < |chain| :: chain[i] in blocks
    ensures |ss| == |chain| && forall i | 0 <= i < |ss| :: ss[i] == SliceFrom(chain[i], blocks[chain[i]])
  {
    seq(|chain|, i requires 0 <= i < |chain| => SliceFrom(chain[i], blocks[chain[i]]))
  }

  function OffsOf(slices: seq<Slice>): (c: seq<nat>)
    ensures |c| == |slices| && forall i | 0 <= i < |c| :: c[i] == slices[i].off
  {
    seq(|slices|, i requires 0 <= i < |slices| => slices[i].off)
  }

  /** A chain in memory that carries `bytes`. */
  predicate Message(blocks: map<nat, Block>, root: nat, chain: seq<nat>, bytes: seq<Byte>) {
    && Chain(blocks, root, chain)
    && (forall i | 0 <= i < |chain| :: chain[i] in blocks)
    && SlicesOk(SlicesFrom(blocks, chain), blocks)
    && Flat(SlicesFrom(blocks, chain), blocks) == bytes
  }

  /** What `done` leaves in memory. */
  function Published(p: Pool, slices: seq<Slice>): Pool
    requires forall i | 0 <= i < |slices| :: slices[i].off in p.blocks && slices[i].read <= slices[i].write
  {
    p.(blocks := PublishedTo(p.blocks, slices, |slices|))
  }

  lemma PublishedBlock(p: Pool, slices: seq<Slice>, i: nat)
    requires i < |slices| && AllShm(slices) && Apart(slices) && SlicesOk(slices, p.blocks) && SendOnly(slices, p)
    ensures forall i | 0 <= i < |slices| :: slices[i].off in p.blocks && slices[i].read <= slices[i].write
    ensures var b := Published(p, slices).blocks[slices[i].off];
            && LinkOk(Published(p, slices).blocks, OffsOf(slices), i)
            && b.data == p.blocks[slices[i].off].data && b.cap == slices[i].cap
            && b.start == slices[i].read && b.start + b.size == slices[i].write
  {
    PublishedAt(p.blocks, slices, |slices|, slices[i].off);
    assert SliceOk(slices[i], p.blocks);
  }

  /** A buffer that was only written to publishes a chain of its own blocks, and the peer's slices
      of that chain carry the same bytes. */
  lemma PublishedChain(p: Pool, slices: seq<Slice>)
    requires slices != [] && AllShm(slices) && Apart(slices) && SlicesOk(slices, p.blocks) && SendOnly(slices, p)
    ensures forall i | 0 <= i < |slices| :: slices[i].off in p.blocks && slices[i].read <= slices[i].write
    ensures var q := Published(p, slices);
            Message(q.blocks, slices[0].off, OffsOf(slices), Flat(slices, p.blocks))
  {
    hide Flat;
    hide Unread;
    hide SliceOk;
    hide SendOnly;
    hide Published;
    hide LinkOk;
    PublishedBlock(p, slices, 0);
    var q, chain := Published(p, slices), OffsOf(slices);
    forall i | 0 <= i < |slices| ensures chain[i] in q.blocks && LinkOk(q.blocks, chain, i) {
      PublishedBlock(p, slices, i);
      LinkIn(q.blocks, chain, i);
    }
    var ss := SlicesFrom(q.blocks, chain);
    forall i | 0 <= i < |ss|
      ensures SliceOk(ss[i], q.blocks) && SliceOk(slices[i], p.blocks) && Unread(ss[i], q.blocks) == Unread(slices[i], p.blocks)
    {
      PublishedUnread(p, slices, i);
    }
    FlatPointwise(ss, q.blocks, slices, p.blocks);
  }

  lemma LinkIn(blocks: map<nat, Block>, chain: seq<nat>, i: nat)
    requires i < |chain| && LinkOk(blocks, chain, i)
    ensures chain[i] in blocks && SliceOk(SliceFrom(chain[i], blocks[chain[i]]), blocks)
  {
  }

  lemma PublishedUnread(p: Pool, slices: seq<Slice>, i: nat)
    requires i < |slices| && AllShm(slices) && Apart(slices) && SlicesOk(slices, p.blocks) && SendOnly(slices, p)
    ensures forall i | 0 <= i < |slices| :: slices[i].off in p.blocks && slices[i].read <= slices[i].write
    ensures var q := Published(p, slices);
            var o := slices[i].off;
            && o in q.blocks && SliceOk(SliceFrom(o, q.blocks[o]), q.blocks) && SliceOk(slices[i], p.blocks)
            && Unread(SliceFrom(o, q.blocks[o]), q.blocks) == Unread(slices[i], p.blocks)
  {
    PublishedBlock(p, slices, i);
    assert SliceOk(slices[i], p.blocks);
  }

  lemma {:induction false} FlatPointwise(a: seq<Slice>, ba: map<nat, Block>, b: seq<Slice>, bb: map<nat, Block>)
    requires |a| == |b| && SlicesOk(a, ba) && SlicesOk(b, bb)
    requires forall i | 0 <= i < |a| :: Unread(a[i], ba) == Unread(b[i], bb)
    ensures Flat(a, ba) == Flat(b, bb)
  {
    hide Unread;
    hide SliceOk;
    if a != [] {
      FlatHead(a, ba);
      FlatHead(b, bb);
      forall i | 0 <= i < |a| - 1 ensures Unread(a[1..][i], ba) == Unread(b[1..][i], bb) {
        assert a[1..][i] == a[i + 1] && b[1..][i] == b[i + 1];
      }
      FlatPointwise(a[1..], ba, b[1..], bb);
    }
  }

  // ---------------------------------------------------------------------------------------------
  // `done`
  // ---------------------------------------------------------------------------------------------

  /** Only headers of blocks in use differ, and not their capacity or their in-used bit. */
  predicate HeadersOnly(p: Pool, q: Pool) {
    && q.lists == p.lists && q.blocks.Keys == p.blocks.Keys
    && forall o | o in p.blocks ::
         && q.blocks[o].cap == p.blocks[o].cap && q.blocks[o].inUsed == p.blocks[o].inUsed
         && q.blocks[o].data == p.blocks[o].data
         && (!p.blocks[o].inUsed ==> q.blocks[o] == p.blocks[o])
  }

  lemma HeadersListOk(p: Pool, q: Pool, i: nat)
    requires PoolOk(p) && HeadersOnly(p, q) && i < |p.lists|
    ensures ListOk(q, i)
  {
    hide BlocksOf;
    hide BlockOk;
    assert ListOk(p, i);
    BlocksOfSame(p.blocks, q.blocks, p.lists[i].cap);
  }

  lemma HeadersOnlyOk(p: Pool, q: Pool)
    requires PoolOk(p) && HeadersOnly(p, q)
    ensures PoolOk(q) && Used(q) == Used(p)
  {
    hide ListOk;
    forall i | 0 <= i < |q.lists| ensures ListOk(q, i) { HeadersListOk(p, q, i); }
    forall o | o in q.blocks ensures BlockOk(q, o) { assert BlockOk(p, o); }
  }

  /** A buffer's slices are untouched by header updates. */
  lemma HeadersOnlyHolds(slices: seq<Slice>, pinned: seq<Slice>, p: Pool, q: Pool)
    requires Holds(slices, pinned, p) && HeadersOnly(p, q)
    ensures Holds(slices, pinned, q) && Flat(slices, q.blocks) == Flat(slices, p.blocks)
  {
    HeadersOnlyOk(p, q);
    hide PoolOk;
    hide Flat;
    hide Apart;
    HeadersSame(slices, p, q);
    HeadersSame(pinned, p, q);
    FlatSame(slices, p.blocks, q.blocks);
    FlatSame(pinned, p.blocks, q.blocks);
  }

  lemma HeadersSame(ss: seq<Slice>, p: Pool, q: Pool)
    requires SlicesOk(ss, p.blocks) && HeadersOnly(p, q)
    ensures SameData(ss, p.blocks, q.blocks)
  {
    forall i | 0 <= i < |ss| && ss[i].isShm ensures ss[i].off in p.blocks {
      assert SliceOk(ss[i], p.blocks);
    }
  }

  lemma PublishedHeaders(slices: seq<Slice>, p: Pool)
    requires AllShm(slices) && Apart(slices) && SlicesOk(slices, p.blocks)
    ensures forall i | 0 <= i < |slices| :: slices[i].off in p.blocks && slices[i].read <= slices[i].write
    ensures HeadersOnly(p, Published(p, slices))
    ensures forall o | o in p.blocks && o !in Offs(slices) :: Published(p, slices).blocks[o] == p.blocks[o]
  {
    forall i | 0 <= i < |slices| ensures slices[i].off in p.blocks && slices[i].read <= slices[i].write {
      assert SliceOk(slices[i], p.blocks);
    }
    var q := Published(p, slices);
    forall o | o in p.blocks
      ensures q.blocks[o].cap == p.blocks[o].cap && q.blocks[o].inUsed == p.blocks[o].inUsed
      ensures q.blocks[o].data == p.blocks[o].data && (!p.blocks[o].inUsed ==> q.blocks[o] == p.blocks[o])
      ensures o !in Offs(slices) ==> q.blocks[o] == p.blocks[o]
    {
      PublishedAt(p.blocks, slices, |slices|, o);
      if i :| 0 <= i < |slices| && slices[i].off == o {
        assert SliceOk(slices[i], p.blocks);
        assert slices[i] in slices;
      }
    }
  }

  lemma ListApart(slices: seq<Slice>, pinned: seq<Slice>)
    requires Apart(pinned + slices)
    ensures Apart(slices)
  {
    forall i | 0 <= i < |slices| ensures slices[i] == (pinned + slices)[|pinned| + i] {}
  }

  /** `done`: the headers of a send buffer describe its slices as one chain.  The cursor is on the
      last slice, so there is no unused tail to split off. */
  method Done(buf: LinkedBuffer)
    requires buf.Valid()
    modifies buf.mgr
    ensures buf.Valid() && buf.Contents() == old(buf.Contents())
    ensures !buf.fromShm ==> buf.mgr.pool == old(buf.mgr.pool)
    ensures Transfer(old(buf.mgr.pool), buf.mgr.pool, buf.Owned(), buf.Owned())
    ensures HeadersOnly(old(buf.mgr.pool), buf.mgr.pool)
    ensures buf.fromShm && buf.slices != [] && old(SendOnly(buf.slices, buf.mgr.pool)) ==>
      && Message(buf.mgr.pool.blocks, buf.slices[0].off, OffsOf(buf.slices), old(buf.Contents()))
      && Elems(OffsOf(buf.slices)) == Offs(buf.slices)
  {
    hide PoolOk;
    hide SlicesOk;
    hide Apart;
    hide Flat;
    hide Offs;
    hide Transfer;
    hide SendOnly;
    hide AllShm;
    hide HeadersOnly;
    hide Updated;
    hide Published;
    hide Message;
    ghost var p, slices := buf.mgr.pool, buf.slices;
    HoldsUsed(slices, buf.pinned, p);
    TransferSelf(p, Offs(buf.pinned + slices));
    HeadersOnlySelf(p);
    if buf.fromShm {
      DoneFacts(slices, buf.pinned, p);
      UpdateAll(buf);
    }
  }

  /** The loop of `done`: every slice's `update`, front to back. */
  method UpdateAll(buf: LinkedBuffer)
    requires forall i | 0 <= i < |buf.slices| ::
               buf.slices[i].off in buf.mgr.pool.blocks && buf.slices[i].read <= buf.slices[i].write
    modifies buf.mgr
    ensures buf.mgr.pool == Published(old(buf.mgr.pool), buf.slices)
  {
    hide Updated;
    ghost var p := buf.mgr.pool;
    var i := 0;
    while i < |buf.slices|
      invariant 0 <= i <= |buf.slices|
      invariant buf.mgr.pool == p.(blocks := PublishedTo(p.blocks, buf.slices, i))
    {
      var s := buf.slices[i];
      var b := buf.mgr.pool.blocks[s.off];
      buf.mgr.pool := buf.mgr.pool.(blocks := buf.mgr.pool.blocks[s.off := Updated(b, buf.slices, i)]);
      i := i + 1;
    }
  }

  lemma DoneFacts(slices: seq<Slice>, pinned: seq<Slice>, p: Pool)
    requires Holds(slices, pinned, p) && AllShm(slices)
    ensures forall i | 0 <= i < |slices| :: slices[i].off in p.blocks && slices[i].read <= slices[i].write
    ensures var q := Published(p, slices);
            && HeadersOnly(p, q) && Holds(slices, pinned, q) && Flat(slices, q.blocks) == Flat(slices, p.blocks)
            && Transfer(p, q, Offs(pinned + slices), Offs(pinned + slices))
            && (slices != [] && SendOnly(slices, p) ==>
                  && Message(q.blocks, slices[0].off, OffsOf(slices), Flat(slices, p.blocks))
                  && Elems(OffsOf(slices)) == Offs(slices))
  {
    hide PoolOk;
    hide SlicesOk;
    hide Apart;
    hide Flat;
    hide Offs;
    hide Transfer;
    hide SendOnly;
    hide AllShm;
    hide HeadersOnly;
    hide Published;
    hide Message;
    ListApart(slices, pinned);
    PublishedHeaders(slices, p);
    var q := Published(p, slices);
    HeadersOnlyHolds(slices, pinned, p, q);
    PublishTransfer(slices, pinned, p, q);
    if slices != [] && SendOnly(slices, p) {
      PublishedChain(p, slices);
      ChainElems(slices);
    }
  }

  lemma HeadersOnlySelf(p: Pool)
    ensures HeadersOnly(p, p)
  {
  }

  lemma ChainElems(slices: seq<Slice>)
    requires AllShm(slices)
    ensures Elems(OffsOf(slices)) == Offs(slices)
  {
    var c := OffsOf(slices);
    forall o | o in Elems(c) ensures o in Offs(slices) {
      var i :| 0 <= i < |c| && c[i] == o;
      assert slices[i] in slices;
    }
    forall o | o in Offs(slices) ensures o in Elems(c) {
      var i :| 0 <= i < |slices| && slices[i].isShm && slices[i].off == o;
      assert c[i] == o;
    }
  }

  lemma PublishTransfer(slices: seq<Slice>, pinned: seq<Slice>, p: Pool, q: Pool)
    requires Holds(slices, pinned, p) && HeadersOnly(p, q)
    requires forall o | o in p.blocks && o !in Offs(slices) :: q.blocks[o] == p.blocks[o]
    ensures Transfer(p, q, Offs(pinned + slices), Offs(pinned + slices))
  {
    HeadersOnlyOk(p, q);
    HoldsUsed(slices, pinned, p);
    hide PoolOk;
    hide Offs;
    OffsConcat(pinned, slices);
  }
}
