/** From the sender's writes to the receiver's read, through shared memory. */
module EndToEnd {
  import opened Basics
  import opened Bytes
  import opened BufferPool
  import opened Manager
  import opened SliceChains
  import opened LinkedBuffers
  import opened Publish
  import opened Receive

  /** One call of the writer: `write_bytes`, or `reserve` followed by a copy into the span. */
  datatype WriteOp = Write(bytes: seq<Byte>) | ReserveAndFill(bytes: seq<Byte>)

  function Joined(script: seq<WriteOp>): seq<Byte> {
    if script == [] then [] else Joined(script[..|script| - 1]) + script[|script| - 1].bytes
  }

  /** A buffer is not affected by what another buffer of the same pool does. */
  lemma OtherBuffer(slices: seq<Slice>, pinned: seq<Slice>, p: Pool, q: Pool, before: set<nat>, after: set<nat>)
    requires Holds(slices, pinned, p) && PoolOk(q) && Transfer(p, q, before, after)
    requires Offs(pinned + slices) !! before
    ensures Holds(slices, pinned, q) && Flat(slices, q.blocks) == Flat(slices, p.blocks)
    ensures Offs(pinned + slices) !! after
  {
    hide PoolOk;
    hide Offs;
    hide Flat;
    hide Apart;
    HoldsUsed(slices, pinned, p);
    OffsConcat(pinned, slices);
    KeptIsSameData(slices, p, q, Used(p) - before);
    KeptIsSameData(pinned, p, q, Used(p) - before);
    FlatSame(slices, p.blocks, q.blocks);
    FlatSame(pinned, p.blocks, q.blocks);
  }

  /** Why a write may need the heap: no class has a buffer to give or, for a reservation, its own has
      not. */
  predicate Starved(q: Pool, op: WriteOp) {
    Exhausted(q) || (op.ReserveAndFill? && !Fits(q, |op.bytes|))
  }

  ghost predicate AnyStarved(q: Pool, script: seq<WriteOp>) {
    exists i :: 0 <= i < |script| && Starved(q, script[i])
  }

  lemma StarvedStill(p: Pool, q: Pool, op: WriteOp)
    requires NoMore(p, q) && Starved(p, op)
    ensures Starved(q, op)
  {
    if op.ReserveAndFill? { FirstFitSame(p.lists, q.lists, |op.bytes|); }
  }

  /** One more write of a script. */
  lemma StarvedMore(a: seq<Slice>, b: seq<Slice>, c: seq<Slice>, x: bool, y: bool, z: bool, p: Pool, q: Pool, r: Pool,
                    script: seq<WriteOp>, i: nat)
    requires i < |script| && Enlarged(a, b, x, y, p, q) && Enlarged(b, c, y, z, q, r)
    requires ShmFrom(b, |a|) || AnyStarved(q, script[..i])
    requires ShmFrom(c, |b|) || Starved(r, script[i])
    ensures Enlarged(a, c, x, z, p, r)
    ensures ShmFrom(c, |a|) || AnyStarved(r, script[..i + 1])
  {
    EnlargedThen1(a, b, c, x, y, z, p, q, r);
    hide Starved;
    if !ShmFrom(c, |a|) {
      if ShmFrom(c, |b|) {
        var k :| 0 <= k < |script[..i]| && Starved(q, script[..i][k]);
        StarvedStill(q, r, script[k]);
        assert script[..i + 1][k] == script[k];
      } else {
        assert script[..i + 1][i] == script[i];
      }
    }
  }

  /** Any history of writes appends the concatenation of what was written. */
  method WriteAll(buf: LinkedBuffer, script: seq<WriteOp>)
    requires buf.Valid() && forall i | 0 <= i < |script| :: script[i].ReserveAndFill? ==> script[i].bytes != []
    modifies buf, buf.mgr
    ensures buf.Valid() && buf.Contents() == old(buf.Contents()) + Joined(script)
    ensures Transfer(old(buf.mgr.pool), buf.mgr.pool, old(buf.Owned()), buf.Owned())
    ensures buf.pinned == old(buf.pinned)
    ensures old(SendOnly(buf.slices, buf.mgr.pool)) ==> SendOnly(buf.slices, buf.mgr.pool)
    ensures Enlarged(old(buf.slices), buf.slices, old(buf.fromShm), buf.fromShm, old(buf.mgr.pool), buf.mgr.pool)
    ensures ShmFrom(buf.slices, |old(buf.slices)|) || AnyStarved(buf.mgr.pool, script)
  {
    hide PoolOk;
    hide SlicesOk;
    hide Apart;
    hide Flat;
    hide Offs;
    hide Transfer;
    hide SendOnly;
    hide Enlarged;
    hide ShmFrom;
    hide AnyStarved;
    hide Starved;
    ghost var p := buf.mgr.pool;
    EnlargedNot(buf.slices, buf.fromShm, p);
    SparedFits(buf.slices, buf.slices, p, 0);
    ShmFromEnd(buf.slices);
    HoldsUsed(buf.slices, buf.pinned, p);
    TransferSelf(p, Offs(buf.pinned + buf.slices));
    assert script[..0] == [];
    var i := 0;
    while i < |script|
      invariant 0 <= i <= |script| && buf.Valid()
      invariant buf.Contents() == old(buf.Contents()) + Joined(script[..i])
      invariant Transfer(p, buf.mgr.pool, old(buf.Owned()), buf.Owned())
      invariant buf.pinned == old(buf.pinned)
      invariant old(SendOnly(buf.slices, buf.mgr.pool)) ==> SendOnly(buf.slices, buf.mgr.pool)
      invariant Enlarged(old(buf.slices), buf.slices, old(buf.fromShm), buf.fromShm, p, buf.mgr.pool)
      invariant ShmFrom(buf.slices, |old(buf.slices)|) || AnyStarved(buf.mgr.pool, script[..i])
    {
      ghost var q, own, was, shm := buf.mgr.pool, buf.Owned(), buf.slices, buf.fromShm;
      assert script[..i + 1][..i] == script[..i];
      WriteOne(buf, script[i]);
      StarvedMore(old(buf.slices), was, buf.slices, old(buf.fromShm), shm, buf.fromShm, p, q, buf.mgr.pool, script, i);
      TransferThen(p, q, buf.mgr.pool, old(buf.Owned()), own, buf.Owned());
      i := i + 1;
    }
    assert script[..i] == script;
  }

  method WriteOne(buf: LinkedBuffer, op: WriteOp)
    requires buf.Valid() && (op.ReserveAndFill? ==> op.bytes != [])
    modifies buf, buf.mgr
    ensures buf.Valid() && buf.Contents() == old(buf.Contents()) + op.bytes
    ensures Transfer(old(buf.mgr.pool), buf.mgr.pool, old(buf.Owned()), buf.Owned())
    ensures buf.pinned == old(buf.pinned)
    ensures old(SendOnly(buf.slices, buf.mgr.pool)) ==> SendOnly(buf.slices, buf.mgr.pool)
    ensures op.Write? && op.bytes != [] && old(buf.slices == [] && Fits(buf.mgr.pool, |op.bytes|)) ==>
      buf.slices != [] && buf.slices[0].isShm
    ensures Enlarged(old(buf.slices), buf.slices, old(buf.fromShm), buf.fromShm, old(buf.mgr.pool), buf.mgr.pool)
    ensures ShmFrom(buf.slices, |old(buf.slices)|) || Starved(buf.mgr.pool, op)
  {
    hide PoolOk;
    hide SlicesOk;
    hide Apart;
    hide Flat;
    hide Offs;
    hide Transfer;
    hide SendOnly;
    hide Fits;
    hide Enlarged;
    hide ShmFrom;
    match op
    case Write(bytes) =>
      var n := buf.WriteBytes(bytes);
    case ReserveAndFill(bytes) =>
      ghost var p, own, was := buf.mgr.pool, buf.Owned(), buf.Contents();
      buf.Reserve(|bytes|);
      ghost var q, own1, mid := buf.mgr.pool, buf.Owned(), buf.slices;
      buf.FillReserved(bytes);
      EnlargedThen1(old(buf.slices), mid, buf.slices, old(buf.fromShm), buf.fromShm, buf.fromShm, p, q, buf.mgr.pool);
      FilledStarved(old(buf.slices), mid, buf.slices, buf.fromShm, q, buf.mgr.pool, |bytes|);
      TransferThen(p, q, buf.mgr.pool, own, own1, buf.Owned());
  }

  lemma ShmFromEnd(slices: seq<Slice>)
    ensures ShmFrom(slices, |slices|)
  {
  }

  lemma FilledStarved(a: seq<Slice>, b: seq<Slice>, c: seq<Slice>, shm: bool, q: Pool, r: Pool, size: nat)
    requires Enlarged(b, c, shm, shm, q, r) && |c| == |b| && (ShmFrom(b, |a|) || !Fits(q, size))
    ensures ShmFrom(c, |a|) || !Fits(r, size)
  {
    FirstFitSame(q.lists, r.lists, size);
  }

  /** Sender and receiver over one pool.  When the sender's buffer stayed in shared memory, flushing
      it and moving the chain on the other side gives the receiver exactly the written bytes; the
      sender is left empty.  Nothing is delivered this way when a heap slice was needed. */
  method RoundTrip(sender: LinkedBuffer, receiver: LinkedBuffer, script: seq<WriteOp>)
    returns (sent: bool, r: ReadResult)
    requires sender != receiver && sender.mgr == receiver.mgr && sender.Valid() && receiver.Valid()
    requires sender.Owned() !! receiver.Owned()
    requires sender.slices == [] && receiver.Contents() == []
    requires forall i | 0 <= i < |script| :: script[i].ReserveAndFill? ==> script[i].bytes != []
    modifies sender, receiver, sender.mgr
    ensures sender.Valid() && receiver.Valid() && sender.Owned() !! receiver.Owned()
    ensures sent ==> !r.NotEnoughData? && r.bytes == Joined(script) && sender.Contents() == [] && receiver.Contents() == []
    ensures !sent ==> receiver.Contents() == [] && sender.Contents() == Joined(script)
    ensures !sent ==>
      || Joined(script) == [] || !old(sender.fromShm)
      || (!AllShm(sender.slices) && AnyStarved(sender.mgr.pool, script))
    ensures sent ==> Joined(script) != [] && old(sender.fromShm)
    ensures Transfer(old(sender.mgr.pool), sender.mgr.pool, old(sender.Owned() + receiver.Owned()),
                     sender.Owned() + receiver.Owned())
  {
    hide PoolOk;
    hide SlicesOk;
    hide Apart;
    hide Flat;
    hide Offs;
    hide Transfer;
    hide SendOnly;
    hide Message;
    hide Enlarged;
    hide AnyStarved;
    ghost var p, os, or := sender.mgr.pool, sender.Owned(), receiver.Owned();
    NothingSent(p);
    HoldsUsed(receiver.slices, receiver.pinned, p);
    WriteAll(sender, script);
    ghost var q := sender.mgr.pool;
    OtherBuffer(receiver.slices, receiver.pinned, p, q, os, sender.Owned());
    Widen(p, q, os, sender.Owned(), or);
    EnlargedFlag(sender.slices, old(sender.fromShm), sender.fromShm, p, q);
    if !sender.fromShm || sender.len == 0 {
      return false, NotEnoughData;
    }
    ghost var mid := sender.Owned() + receiver.Owned();
    r := Hand(sender, receiver);
    TransferThen(p, q, sender.mgr.pool, os + or, mid, sender.Owned() + receiver.Owned());
    return true, r;
  }

  /** A flag that told whether every slice is in shared memory still does. */
  lemma FlagStill(was: seq<Slice>, now: seq<Slice>, before: bool, after: bool, p: Pool, q: Pool)
    requires Enlarged(was, now, before, after, p, q) && before == AllShm(was)
    ensures after == AllShm(now)
  {
    if ShmFrom(now, |was|) && AllShm(was) {
      forall i | 0 <= i < |now| ensures now[i].isShm {
        if i < |was| { assert was[i].isShm; }
      }
    }
    if AllShm(now) {
      forall i | 0 <= i < |was| ensures was[i].isShm { assert now[i].isShm; }
    }
  }

  lemma EnlargedFlag(now: seq<Slice>, before: bool, after: bool, p: Pool, q: Pool)
    requires Enlarged([], now, before, after, p, q)
    ensures (after <==> before && AllShm(now)) && (ShmFrom(now, 0) <==> AllShm(now))
  {
  }

  lemma NothingSent(p: Pool)
    ensures SendOnly([], p) && SlicesOk([], p.blocks) && Flat([], p.blocks) == []
  {
  }

  /** A transfer of one buffer, seen together with another that took no part. */
  lemma Widen(p: Pool, q: Pool, before: set<nat>, after: set<nat>, other: set<nat>)
    requires Transfer(p, q, before, after) && other <= Used(p) && other !! before
    ensures Transfer(p, q, before + other, after + other)
  {
  }

  /** `done`, the first block's offset handed to the peer, its `move_pending_data`, then one read of
      everything. */
  method Hand(sender: LinkedBuffer, receiver: LinkedBuffer) returns (r: ReadResult)
    requires sender != receiver && sender.mgr == receiver.mgr && sender.Valid() && receiver.Valid()
    requires sender.Owned() !! receiver.Owned() && receiver.Contents() == []
    requires sender.fromShm && sender.len > 0 && SendOnly(sender.slices, sender.mgr.pool)
    modifies sender, receiver, sender.mgr
    ensures sender.Valid() && receiver.Valid() && sender.Owned() !! receiver.Owned()
    ensures !r.NotEnoughData? && r.bytes == old(sender.Contents())
    ensures sender.Contents() == [] && receiver.Contents() == []
    ensures Transfer(old(sender.mgr.pool), sender.mgr.pool, old(sender.Owned() + receiver.Owned()),
                     sender.Owned() + receiver.Owned())
  {
    hide PoolOk;
    hide SlicesOk;
    hide Apart;
    hide Flat;
    hide Offs;
    hide Transfer;
    hide SendOnly;
    hide Message;
    hide HeadersOnly;
    ghost var p, os, or, bytes := sender.mgr.pool, sender.Owned(), receiver.Owned(), sender.Contents();
    HoldsUsed(receiver.slices, receiver.pinned, p);
    NotLast(sender.slices, p);
    Done(sender);
    ghost var q1 := sender.mgr.pool;
    OtherBuffer(receiver.slices, receiver.pinned, p, q1, os, os);
    Widen(p, q1, os, os, or);
    var root := sender.slices[0].off;
    ghost var chain := OffsOf(sender.slices);
    OffsConcat(sender.pinned, sender.slices);
    SplitOwned(sender.slices, sender.pinned, q1);
    sender.Clean();
    MoveChain(receiver, root, chain, bytes);
    ghost var q2, or2 := sender.mgr.pool, receiver.Owned();
    OtherBuffer(sender.slices, sender.pinned, q1, q2, or + Elems(chain), or2);
    Widen(q1, q2, or + Elems(chain), or2, sender.Owned());
    assert os + or == (or + Elems(chain)) + sender.Owned();
    TransferThen(p, q1, q2, os + or, os + or, or2 + sender.Owned());
    r := receiver.ReadBytes(receiver.len);
    OtherBuffer(sender.slices, sender.pinned, q2, sender.mgr.pool, or2, receiver.Owned());
    Widen(q2, sender.mgr.pool, or2, receiver.Owned(), sender.Owned());
    TransferThen(p, q2, sender.mgr.pool, os + or, or2 + sender.Owned(), receiver.Owned() + sender.Owned());
    assert receiver.Owned() + sender.Owned() == sender.Owned() + receiver.Owned();
  }

  lemma SplitOwned(slices: seq<Slice>, pinned: seq<Slice>, p: Pool)
    requires Holds(slices, pinned, p)
    ensures Offs(slices) !! Offs(pinned) && Offs(pinned) <= Used(p) && Offs(slices) <= Used(p)
  {
    hide PoolOk;
    HoldsUsed(slices, pinned, p);
    OffsConcat(pinned, slices);
    var all := pinned + slices;
    forall i, j | 0 <= i < |slices| && slices[i].isShm && 0 <= j < |pinned| && pinned[j].isShm
      ensures pinned[j].off != slices[i].off
    {
      assert all[j] == pinned[j] && all[|pinned| + i] == slices[i];
    }
    forall o | o in Offs(slices) ensures o !in Offs(pinned) {
      var i :| 0 <= i < |slices| && slices[i].isShm && slices[i].off == o;
      forall s | s in pinned && s.isShm ensures s.off != o {
        var j :| 0 <= j < |pinned| && pinned[j] == s;
      }
    }
  }
}
