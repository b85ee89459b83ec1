/** One message, two ways: as a chain of blocks announced through the ring, or as bytes in a frame
    on the socket.  The receiver cannot tell which. */
module Transports {
  import opened Basics
  import opened Bytes
  import opened BufferPool
  import opened SliceChains
  import opened LinkedBuffers
  import opened Publish
  import opened Receive
  import opened EndToEnd
  import opened QueueRefinement
  import opened Framing
  import Ring

  /** What `write_fallback` copies: of each slice as many bytes as are unread, but from the start of
      its storage. */
  function Raw(s: Slice, blocks: map<nat, Block>): (b: seq<Byte>)
    requires SliceOk(s, blocks)
  {
    Storage(s, blocks)[..s.write - s.read]
  }

  /** That is the unread part, whatever the storage holds, exactly when nothing of the slice has
      been read or nothing is left of it. */
  lemma RawIff(s: Slice)
    requires s.read <= s.write <= s.cap
    ensures s.read == 0 || s.read == s.write <==>
            forall heap: seq<Byte>, blocks: map<nat, Block> | SliceOk(s.(heap := heap), blocks) ::
              Raw(s.(heap := heap), blocks) == Unread(s.(heap := heap), blocks)
  {
    if s.read != 0 && s.read != s.write {
      var data: seq<Byte> := seq(s.cap, i => if i == s.read then 1 else 0);
      var blocks := map[s.off := Block(s.cap, 0, 0, 0, false, true, data)];
      var t := s.(heap := data);
      assert SliceOk(t, blocks) && Raw(t, blocks)[0] == 0 && Unread(t, blocks)[0] == 1;
    }
  }

  /** Nothing has been read from any of the slices. */
  predicate FromStart(slices: seq<Slice>) {
    forall i | 0 <= i < |slices| :: slices[i].read == 0
  }

  /** The copying loop of `write_fallback`, up to the write cursor. */
  method Gather(buf: LinkedBuffer) returns (data: seq<Byte>)
    requires buf.Valid() && FromStart(buf.slices)
    ensures data == buf.Contents()
  {
    hide PoolOk;
    hide SliceOk;
    hide SlicesOk;
    hide Apart;
    hide Flat;
    hide Offs;
    hide Unread;
    hide Raw;
    ghost var all := buf.Contents();
    var slices := buf.slices;
    data := [];
    var e, more := 0, true;
    assert slices[0..] == slices;
    while more && e < |slices|
      invariant 0 <= e <= |slices| && (!more ==> e == |slices|)
      invariant SlicesOk(slices[e..], buf.mgr.pool.blocks)
      invariant all == data + Flat(slices[e..], buf.mgr.pool.blocks)
    {
      assert slices[e..][0] == slices[e] && slices[e..][1..] == slices[e + 1..];
      FlatHead(slices[e..], buf.mgr.pool.blocks);
      RawUnread(slices[e], buf.mgr.pool);
      data := data + Raw(slices[e], buf.mgr.pool.blocks);
      more := buf.cursor != At(e);
      e := e + 1;
    }
    assert slices[e..] == [];
    FlatPast(slices[e..], buf.mgr.pool);
  }

  lemma RawUnread(s: Slice, p: Pool)
    requires SliceOk(s, p.blocks) && s.read == 0
    ensures Raw(s, p.blocks) == Unread(s, p.blocks)
  {
  }

  /** `write_fallback`: the frame carries the whole buffer, and every block goes back; a buffer too
      long for the length field is dropped. */
  method WriteFallback(buf: LinkedBuffer, version: Byte, id: nat, status: nat) returns (frame: Option<seq<Byte>>)
    requires buf.Valid() && FromStart(buf.slices)
    modifies buf, buf.mgr
    ensures buf.Valid() && buf.Contents() == [] && buf.slices == [] && buf.pinned == old(buf.pinned) && buf.fromShm
    ensures frame == None <==> old(buf.len) > U32_LIMIT - 1 - 16
    ensures frame.Some? ==> frame.value == Encode(FallbackData(version, id, status, old(buf.Contents())))
    ensures Transfer(old(buf.mgr.pool), buf.mgr.pool, old(buf.Owned()), buf.Owned())
  {
    hide PoolOk;
    hide Transfer;
    hide Holds;
    hide Flat;
    HoldsBacked(buf.slices, buf.pinned, buf.mgr.pool);
    if buf.len > U32_LIMIT - 1 - 16 {
      buf.RecycleAll();
      return None;
    }
    var event := Header(16 + buf.len, version, 3) + Big(id, 4) + Big(status, 4);
    var data := Gather(buf);
    buf.RecycleAll();
    return Some(event + data);
  }

  /** `handle_fallback_data` and, when the reader asks, `move_pending_data` of its slice. */
  method TakeFallback(buf: LinkedBuffer, frame: seq<Byte>, ghost e: Event, ghost rest: seq<Byte>)
    returns (id: nat, status: nat, used: nat)
    requires buf.Valid() && e.FallbackData? && Encodable(e) && frame == Encode(e) + rest
    modifies buf
    ensures buf.Valid() && buf.Contents() == old(buf.Contents()) + e.payload && buf.Owned() == old(buf.Owned())
    ensures id == e.id && status == e.status % 256 && used == |Encode(e)|
  {
    hide PoolOk;
    hide Holds;
    hide Flat;
    hide Views;
    hide ScanOne;
    hide Encode;
    ScanFrame(e, rest, frame);
    var r := ScanOne(frame);
    var bytes := r.event.payload;
    var s := Slice(false, 0, |bytes|, 0, 0, |bytes|, bytes);
    HeapOf(bytes, s, buf.mgr.pool);
    buf.AppendSlice(s);
    assert buf.Owned() == old(buf.Owned());
    return r.event.id, r.event.status, r.used;
  }

  /** What both transports promise: the receiver has the sender's bytes behind its own, under the
      same stream id and the same state; every block is with one of them or free. */
  twostate predicate Delivered(sender: LinkedBuffer, receiver: LinkedBuffer)
    requires old(sender.Valid() && receiver.Valid()) && sender.mgr == receiver.mgr
    reads sender, receiver, sender.mgr
  {
    && sender.Valid() && receiver.Valid() && sender.Owned() !! receiver.Owned()
    && sender.Contents() == [] && receiver.Contents() == old(receiver.Contents()) + old(sender.Contents())
    && Transfer(old(sender.mgr.pool), sender.mgr.pool, old(sender.Owned() + receiver.Owned()),
                sender.Owned() + receiver.Owned())
  }

  /** The socket path of `flush`; it works for any mix of shared and heap slices. */
  method ViaSocket(sender: LinkedBuffer, receiver: LinkedBuffer, version: Byte, id: nat, status: nat)
    returns (gotId: nat, gotStatus: nat)
    requires sender != receiver && sender.mgr == receiver.mgr && sender.Valid() && receiver.Valid()
    requires sender.Owned() !! receiver.Owned() && FromStart(sender.slices)
    requires version != 0 && id < U32_LIMIT && status < 256 && sender.len <= U32_LIMIT - 1 - 16
    modifies sender, receiver, sender.mgr
    ensures Delivered(sender, receiver) && gotId == id && gotStatus == status
  {
    hide PoolOk;
    hide Transfer;
    hide Holds;
    hide Flat;
    hide Encode;
    hide FromStart;
    ghost var p, os, or := sender.mgr.pool, sender.Owned(), receiver.Owned();
    ghost var e := FallbackData(version, id, status, sender.Contents());
    HoldsUsed(receiver.slices, receiver.pinned, p);
    var frame := WriteFallback(sender, version, id, status);
    ghost var q := sender.mgr.pool;
    HoldsPool(sender.slices, sender.pinned, q);
    OtherBuffer(receiver.slices, receiver.pinned, p, q, os, sender.Owned());
    Widen(p, q, os, sender.Owned(), or);
    assert frame.value == Encode(e) + [];
    var used;
    gotId, gotStatus, used := TakeFallback(receiver, frame.value, e, []);
  }

  /** The ring path of `flush`, for a buffer that is all in shared memory: 12 bytes through a ring that
      has room, behind whatever is there, and the peer's walk of the chain. */
  method ViaRing(sender: LinkedBuffer, receiver: LinkedBuffer, ring: Ring.Queue, id: nat, status: nat)
    returns (gotId: nat, gotStatus: nat, ahead: seq<Ring.Element>)
    requires sender != receiver && sender.mgr == receiver.mgr && sender.Valid() && receiver.Valid()
    requires sender.Owned() !! receiver.Owned() && SendOnly(sender.slices, sender.mgr.pool)
    requires sender.fromShm && sender.len > 0 && forall o | o in sender.mgr.pool.blocks :: o < U32_LIMIT
    requires ring.Ok() && |ring.Items()| < Ring.Cap(ring.mem[..], ring.base)
    requires Ring.Tail(ring.mem[..], ring.base) + 1 < I64_LIMIT && id < U32_LIMIT && status < 256
    modifies sender, receiver, sender.mgr, ring.mem
    ensures Delivered(sender, receiver) && gotId == id && gotStatus == status
    ensures ahead == old(ring.Items()) && ring.Ok() && ring.Items() == []
  {
    hide PoolOk;
    hide Transfer;
    hide Apart;
    hide SlicesOk;
    hide Flat;
    hide Offs;
    hide SendOnly;
    hide Message;
    hide HeadersOnly;
    hide Views;
    hide Elems;
    hide Ring.Valid;
    hide Ring.Contents;
    hide Ring.Tail;
    hide Ring.Cap;
    ghost var p, os, or, bytes := sender.mgr.pool, sender.Owned(), receiver.Owned(), sender.Contents();
    HoldsUsed(receiver.slices, receiver.pinned, p);
    NotLast(sender.slices, p);
    Done(sender);
    ghost var q1 := sender.mgr.pool;
    OtherBuffer(receiver.slices, receiver.pinned, p, q1, os, os);
    Widen(p, q1, os, os, or);
    ghost var chain := OffsOf(sender.slices);
    OffsConcat(sender.pinned, sender.slices);
    SplitOwned(sender.slices, sender.pinned, q1);
    RootKnown(sender.slices, q1, p);
    var elem;
    ahead, elem := ThroughRing(ring, Ring.Element(id, sender.slices[0].off, status));
    sender.Clean();
    MoveChain(receiver, elem.offset, chain, bytes);
    ghost var q2, or2 := sender.mgr.pool, receiver.Owned();
    OtherBuffer(sender.slices, sender.pinned, q1, q2, or + Elems(chain), or2);
    Widen(q1, q2, or + Elems(chain), or2, sender.Owned());
    assert os + or == (or + Elems(chain)) + sender.Owned();
    TransferThen(p, q1, q2, os + or, os + or, or2 + sender.Owned());
    assert or2 + sender.Owned() == sender.Owned() + or2;
    return elem.seqId, elem.status % 256, ahead;
  }

  lemma RootKnown(slices: seq<Slice>, q: Pool, p: Pool)
    requires slices != [] && SlicesOk(slices, q.blocks) && AllShm(slices) && q.blocks.Keys == p.blocks.Keys
    requires forall o | o in p.blocks :: o < U32_LIMIT
    ensures slices[0].off < U32_LIMIT
  {
    assert SliceOk(slices[0], q.blocks);
  }

  /** A put, and the peer's drain of the ring up to it. */
  method ThroughRing(ring: Ring.Queue, e: Ring.Element) returns (ahead: seq<Ring.Element>, r: Ring.Element)
    requires ring.Ok() && |ring.Items()| < Ring.Cap(ring.mem[..], ring.base) && Ring.Fits(e)
    requires Ring.Tail(ring.mem[..], ring.base) + 1 < I64_LIMIT
    modifies ring.mem
    ensures r == e && ahead == old(ring.Items()) && ring.Ok() && ring.Items() == []
  {
    hide Load;
    hide Store;
    hide Ring.PutBytes;
    hide Ring.PopBytes;
    hide Ring.Record;
    hide Ring.Contents;
    hide Ring.Tail;
    hide Ring.Head;
    hide Ring.Cap;
    ghost var before := ring.Items();
    var ok := ring.Put(e);
    var got := ring.Pop();
    ahead := [];
    while got.Some?
      invariant ring.Ok() && Ring.Tail(ring.mem[..], ring.base) < I64_LIMIT
      invariant before + [e] == ahead + (if got.Some? then [got.value] else []) + ring.Items()
      invariant got.None? ==> ring.Items() == []
      decreases got.Some?, |ring.Items()|
    {
      ahead := ahead + [got.value];
      ghost var left := ring.Items();
      got := ring.Pop();
      assert left == (if got.Some? then [got.value] else []) + ring.Items();
    }
    assert ahead == before + [e];
    return ahead[..|ahead| - 1], ahead[|ahead| - 1];
  }
}
