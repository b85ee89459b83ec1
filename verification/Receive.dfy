/** The read path of a stream: chains that arrived through the ring, and heap slices that arrived
    through the socket, are moved into the receive buffer. */
module Receive {
  import opened Basics
  import opened Bytes
  import opened BufferPool
  import opened SliceChains
  import opened LinkedBuffers
  import opened Publish

  lemma NotOwned(s: Slice, slices: seq<Slice>, pinned: seq<Slice>)
    requires s.off !in Offs(pinned + slices)
    ensures Elsewhere(s, slices) && Elsewhere(s, pinned)
  {
    var all := pinned + slices;
    forall i | 0 <= i < |slices| && slices[i].isShm ensures slices[i].off != s.off {
      assert all[|pinned| + i] == slices[i];
    }
    forall i | 0 <= i < |pinned| && pinned[i].isShm ensures pinned[i].off != s.off {
      assert all[i] == pinned[i];
    }
  }

  /** Recycling a block the buffer does not hold. */
  lemma RecycleForeign(slices: seq<Slice>, pinned: seq<Slice>, p: Pool, s: Slice)
    requires Holds(slices, pinned, p) && SliceOk(s, p.blocks) && s.isShm && s.off !in Offs(pinned + slices)
    ensures var q := Recycled(p, s);
            && Holds(slices, pinned, q) && Flat(slices, q.blocks) == Flat(slices, p.blocks)
            && Transfer(p, q, Offs(pinned + slices) + {s.off}, Offs(pinned + slices))
            && SameData(slices, p.blocks, q.blocks) && SameData(pinned, p.blocks, q.blocks)
  {
    hide PoolOk;
    hide Recycled;
    hide SliceOk;
    hide Offs;
    hide Transfer;
    hide Apart;
    hide Flat;
    NotOwned(s, slices, pinned);
    HoldsUsed(slices, pinned, p);
    RecycleHeld(s, slices, p);
    RecycleHeld(s, pinned, p);
    InUse(s, p);
    DropTransfer(p, Recycled(p, s), s.off, Offs(pinned + slices) + {s.off}, Offs(pinned + slices));
  }

  /** Views survive whatever leaves the data of the buffer's blocks alone. */
  lemma SameDataViews(slices: seq<Slice>, pinned: seq<Slice>, currentPinned: bool, p: Pool, q: Pool)
    requires SlicesOk(slices, p.blocks) && SlicesOk(pinned, p.blocks)
    requires SameData(slices, p.blocks, q.blocks) && SameData(pinned, p.blocks, q.blocks)
    ensures var v := ViewedOffs(slices, pinned, currentPinned); Views(p, q, v, v)
  {
    KeptViews(pinned, p, q);
    if slices != [] { assert SliceOk(slices[0], p.blocks); }
  }

  lemma InUse(s: Slice, p: Pool)
    requires SliceOk(s, p.blocks) && s.isShm
    ensures s.off in Used(p)
  {
  }

  /** A block in use moves from the chain into the buffer: nothing changes in the pool. */
  lemma AdoptTransfer(p: Pool, own: set<nat>, o: nat)
    requires own <= Used(p) && o in Used(p)
    ensures Transfer(p, p, own + {o}, own + {o})
  {
  }

  /** Unlinking the last slice of the buffer touches only its header. */
  function BackCleared(p: Pool, slices: seq<Slice>): Pool
    requires slices != [] && slices[|slices| - 1].isShm ==> slices[|slices| - 1].off in p.blocks
  {
    if slices == [] || !slices[|slices| - 1].isShm then p
    else
      var o := slices[|slices| - 1].off;
      p.(blocks := p.blocks[o := p.blocks[o].(hasNext := false, inUsed := true)])
  }

  lemma BackClearedHeaders(p: Pool, slices: seq<Slice>)
    requires SlicesOk(slices, p.blocks)
    ensures slices != [] && slices[|slices| - 1].isShm ==> slices[|slices| - 1].off in p.blocks
    ensures var q := BackCleared(p, slices);
            && HeadersOnly(p, q)
            && forall o | o in p.blocks && !(slices != [] && slices[|slices| - 1].isShm && o == slices[|slices| - 1].off) ::
                 q.blocks[o] == p.blocks[o]
  {
    if slices != [] { assert SliceOk(slices[|slices| - 1], p.blocks); }
  }

  lemma BackClearedOk(p: Pool, slices: seq<Slice>, pinned: seq<Slice>)
    requires Holds(slices, pinned, p)
    ensures slices != [] && slices[|slices| - 1].isShm ==> slices[|slices| - 1].off in p.blocks
    ensures var q := BackCleared(p, slices);
            && Holds(slices, pinned, q) && Flat(slices, q.blocks) == Flat(slices, p.blocks)
            && Transfer(p, q, Offs(pinned + slices), Offs(pinned + slices))
            && SameData(slices, p.blocks, q.blocks) && SameData(pinned, p.blocks, q.blocks)
  {
    hide PoolOk;
    hide SliceOk;
    hide SlicesOk;
    hide Flat;
    hide Apart;
    hide Offs;
    hide BackCleared;
    BackClearedHeaders(p, slices);
    var q := BackCleared(p, slices);
    HeadersSame(slices, p, q);
    HeadersSame(pinned, p, q);
    if slices != [] { AtOwned(slices, pinned, |slices| - 1); }
    HeadersOnlyHolds(slices, pinned, p, q);
    HeadersOnlyOk(p, q);
    HoldsUsed(slices, pinned, p);
    WriteTransfer(p, q, Offs(pinned + slices));
  }

  /** The slices of a chain that stay in the buffer: those that carry something. */
  function Landed(ss: seq<Slice>): seq<Slice> {
    if ss == [] then []
    else Landed(ss[..|ss| - 1]) + if Size(ss[|ss| - 1]) == 0 then [] else [ss[|ss| - 1]]
  }

  lemma LandedNone()
    ensures Landed([]) == []
  {
  }

  lemma LandedOne(s: Slice)
    ensures Landed([s]) == if Size(s) == 0 then [] else [s]
  {
    assert [s][..0] == [];
  }

  lemma LandedStep(ss: seq<Slice>, k: nat)
    requires k < |ss|
    ensures Landed(ss[..k + 1]) == Landed(ss[..k]) + Landed([ss[k]])
  {
    assert ss[..k + 1][..k] == ss[..k];
    LandedOne(ss[k]);
  }

  /** The last slice of the list is not linked on. */
  predicate Ended(slices: seq<Slice>, p: Pool) {
    slices != [] ==> !HasLink(p, slices[|slices| - 1])
  }

  lemma ClearedEnds(p: Pool, slices: seq<Slice>)
    requires slices != [] && slices[|slices| - 1].isShm ==> slices[|slices| - 1].off in p.blocks
    ensures Ended(slices, BackCleared(p, slices))
  {
  }

  /** One round of the loop of `move_pending_data`: the slice at `offset` joins the buffer, or goes
      back to the pool when it is empty. */
  method TakeSlice(buf: LinkedBuffer, offset: nat) returns (hasNext: bool, next: nat)
    requires buf.Valid() && offset in buf.mgr.pool.blocks && offset !in buf.Owned()
    requires SliceOk(SliceFrom(offset, buf.mgr.pool.blocks[offset]), buf.mgr.pool.blocks)
    modifies buf, buf.mgr
    ensures buf.Valid()
    ensures buf.Contents() == old(buf.Contents())
              + old(Unread(SliceFrom(offset, buf.mgr.pool.blocks[offset]), buf.mgr.pool.blocks))
    ensures hasNext == old(buf.mgr.pool.blocks[offset].hasNext) && next == old(buf.mgr.pool.blocks[offset].next)
    ensures Transfer(old(buf.mgr.pool), buf.mgr.pool, old(buf.Owned()) + {offset}, buf.Owned())
    ensures buf.Owned() <= old(buf.Owned()) + {offset}
    ensures buf.slices == old(buf.slices) + Landed([SliceFrom(offset, old(buf.mgr.pool.blocks[offset]))])
    ensures buf.pinned == old(buf.pinned) && Views(old(buf.mgr.pool), buf.mgr.pool, old(buf.Viewed()), buf.Viewed())
    ensures buf.fromShm == old(buf.fromShm) && buf.currentPinned == old(buf.currentPinned)
    ensures !hasNext ==> Ended(buf.slices, buf.mgr.pool)
    ensures var b := old(buf.mgr.pool.blocks[offset]);
            && (b.size > 0 ==> buf.mgr.pool == old(buf.mgr.pool))
            && (b.size == 0 && hasNext ==> buf.mgr.pool == Recycled(old(buf.mgr.pool), SliceFrom(offset, b)))
  {
    hide PoolOk;
    hide SlicesOk;
    hide SliceOk;
    hide Apart;
    hide Flat;
    hide Offs;
    hide Transfer;
    hide Recycled;
    hide Views;
    hide SameData;
    hide ViewedOffs;
    ghost var p, own, seen := buf.mgr.pool, buf.Owned(), buf.Viewed();
    var b := buf.mgr.pool.blocks[offset];
    var s := SliceFrom(offset, b);
    hasNext, next := b.hasNext, b.next;
    LandedOne(s);
    HoldsUsed(buf.slices, buf.pinned, p);
    InUse(s, p);
    if b.size == 0 {
      RecycleForeign(buf.slices, buf.pinned, p, s);
      assert buf.Contents() + [] == buf.Contents();
      buf.mgr.Recycle(s);
      SameDataViews(buf.slices, buf.pinned, buf.currentPinned, p, buf.mgr.pool);
      if !hasNext {
        ghost var q := buf.mgr.pool;
        BackClearedOk(q, buf.slices, buf.pinned);
        ClearedEnds(q, buf.slices);
        buf.mgr.pool := BackCleared(buf.mgr.pool, buf.slices);
        TransferThen(p, q, buf.mgr.pool, own + {offset}, own, own);
        SameDataViews(buf.slices, buf.pinned, buf.currentPinned, q, buf.mgr.pool);
        ViewsThen(p, q, buf.mgr.pool, seen, seen, seen);
      }
    } else {
      AdoptTransfer(p, own, offset);
      buf.AppendSlice(s);
    }
  }

  // ---------------------------------------------------------------------------------------------
  // A whole chain
  // ---------------------------------------------------------------------------------------------

  /** The part of a chain not yet walked, as it was when the walk began. */
  ghost predicate Ahead(p: Pool, q: Pool, chain: seq<nat>, k: nat, own: set<nat>) {
    forall j | k <= j < |chain| :: chain[j] in p.blocks && chain[j] in q.blocks && chain[j] !in own
                                   && q.blocks[chain[j]] == p.blocks[chain[j]]
  }

  lemma AheadStep(p: Pool, q: Pool, r: Pool, chain: seq<nat>, k: nat, own: set<nat>, now: set<nat>)
    requires Distinct(chain) && k < |chain| && Ahead(p, q, chain, k, own)
    requires forall j | k <= j < |chain| :: chain[j] in Used(q)
    requires Transfer(q, r, own + {chain[k]}, now) && now <= own + {chain[k]}
    ensures Ahead(p, r, chain, k + 1, now) && forall j | k + 1 <= j < |chain| :: chain[j] in Used(r)
  {
    forall j | k + 1 <= j < |chain|
      ensures chain[j] in r.blocks && chain[j] !in now && r.blocks[chain[j]] == p.blocks[chain[j]] && chain[j] in Used(r)
    {
      assert chain[j] in Used(q) - (own + {chain[k]});
    }
  }

  lemma ElemsFrom(chain: seq<nat>, k: nat)
    requires k < |chain| && Distinct(chain)
    ensures Elems(chain[k..]) == {chain[k]} + Elems(chain[k + 1..])
    ensures chain[k] !in Elems(chain[k + 1..])
  {
    assert chain[k..] == [chain[k]] + chain[k + 1..];
  }

  /** One more block of the chain has found its owner. */
  lemma TransferAhead(p: Pool, q: Pool, r: Pool, all: set<nat>, own: set<nat>, now: set<nat>, o: nat, rest: set<nat>)
    requires Transfer(p, q, all, own + ({o} + rest)) && Transfer(q, r, own + {o}, now)
    requires rest !! own && o !in rest && now <= own + {o}
    ensures Transfer(p, r, all, now + rest)
  {
    assert rest <= Used(q) - (own + {o});
  }

  lemma FlatStep(ss: seq<Slice>, blocks: map<nat, Block>, k: nat)
    requires SlicesOk(ss, blocks) && k < |ss|
    ensures SlicesOk(ss[..k], blocks) && SlicesOk(ss[..k + 1], blocks) && SliceOk(ss[k], blocks)
    ensures Flat(ss[..k + 1], blocks) == Flat(ss[..k], blocks) + Unread(ss[k], blocks)
  {
    hide SliceOk;
    hide Unread;
    hide Flat;
    assert SliceOk(ss[k], blocks) && SlicesOk(ss[..k], blocks);
    FlatOne(ss[k], blocks);
    FlatConcat(ss[..k], [ss[k]], blocks);
    assert ss[..k + 1] == ss[..k] + [ss[k]];
  }

  lemma SameSlice(o: nat, p: Pool, q: Pool)
    requires o in p.blocks && o in q.blocks && q.blocks[o] == p.blocks[o]
    requires SliceOk(SliceFrom(o, p.blocks[o]), p.blocks)
    ensures SliceOk(SliceFrom(o, q.blocks[o]), q.blocks)
    ensures Unread(SliceFrom(o, q.blocks[o]), q.blocks) == Unread(SliceFrom(o, p.blocks[o]), p.blocks)
  {
  }

  lemma ChainUsed(blocks: map<nat, Block>, p: Pool, root: nat, chain: seq<nat>)
    requires Chain(blocks, root, chain) && p.blocks == blocks
    ensures forall j | 0 <= j < |chain| :: chain[j] in blocks && chain[j] in Used(p) && LinkOk(blocks, chain, j)
    ensures Elems(chain) <= Used(p)
  {
    forall j | 0 <= j < |chain| ensures chain[j] in blocks && chain[j] in Used(p) && LinkOk(blocks, chain, j) {
      assert LinkOk(blocks, chain, j);
    }
  }

  /** How things stood when the walk of a chain began. */
  datatype Before = Before(p: Pool, own: set<nat>, text: seq<Byte>, slices: seq<Slice>, pinned: seq<Slice>,
                           seen: set<nat>)

  /** The walk has passed the first `k` blocks of the chain. */
  ghost predicate Walked(buf: LinkedBuffer, b: Before, chain: seq<nat>, k: nat)
    requires forall j | 0 <= j < |chain| :: chain[j] in b.p.blocks
    requires SlicesOk(SlicesFrom(b.p.blocks, chain), b.p.blocks)
    reads buf, buf.mgr
  {
    var ss := SlicesFrom(b.p.blocks, chain);
    && k <= |chain| && buf.Valid() && buf.pinned == b.pinned
    && SlicesOk(ss[..k], b.p.blocks) && buf.Contents() == b.text + Flat(ss[..k], b.p.blocks)
    && buf.slices == b.slices + Landed(ss[..k])
    && Ahead(b.p, buf.mgr.pool, chain, k, buf.Owned())
    && (forall j | k <= j < |chain| :: chain[j] in Used(buf.mgr.pool))
    && Transfer(b.p, buf.mgr.pool, b.own + Elems(chain), buf.Owned() + Elems(chain[k..]))
    && buf.Owned() <= b.own + Elems(chain)
    && Views(b.p, buf.mgr.pool, b.seen, buf.Viewed())
  }

  /** One block of the walk. */
  method MoveOne(buf: LinkedBuffer, offset: nat, ghost b: Before, ghost chain: seq<nat>, ghost k: nat)
    returns (hasNext: bool, next: nat)
    requires k < |chain| && Chain(b.p.blocks, chain[0], chain) && offset == chain[k]
    requires forall j | 0 <= j < |chain| :: chain[j] in b.p.blocks
    requires SlicesOk(SlicesFrom(b.p.blocks, chain), b.p.blocks)
    requires Walked(buf, b, chain, k)
    modifies buf, buf.mgr
    ensures Walked(buf, b, chain, k + 1)
    ensures hasNext == b.p.blocks[chain[k]].hasNext && next == b.p.blocks[chain[k]].next
    ensures buf.fromShm == old(buf.fromShm) && buf.currentPinned == old(buf.currentPinned)
    ensures !hasNext ==> Ended(buf.slices, buf.mgr.pool)
  {
    hide PoolOk;
    hide SlicesOk;
    hide SliceOk;
    hide Apart;
    hide Flat;
    hide Offs;
    hide Transfer;
    hide Ahead;
    hide Elems;
    hide Unread;
    hide Views;
    hide ViewedOffs;
    hide Landed;
    ghost var p, q, own, seen := b.p, buf.mgr.pool, buf.Owned(), buf.Viewed();
    ghost var ss := SlicesFrom(p.blocks, chain);
    AheadAt(p, q, chain, k, own);
    LinkIn(p.blocks, chain, k);
    SameSlice(offset, p, q);
    FlatStep(ss, p.blocks, k);
    LandedStep(ss, k);
    hasNext, next := TakeSlice(buf, offset);
    ViewsThen(p, q, buf.mgr.pool, b.seen, seen, buf.Viewed());
    WalkStep(p, q, buf.mgr.pool, chain, k, b.own + Elems(chain), own, buf.Owned());
  }

  /** `move_pending_data` for one chain: the peer's walk from the root delivers exactly the bytes of
      the message, and each block of the chain ends in the buffer or, if it carried nothing, in its
      free list. */
  method MoveChain(buf: LinkedBuffer, root: nat, ghost chain: seq<nat>, ghost bytes: seq<Byte>)
    requires buf.Valid() && Message(buf.mgr.pool.blocks, root, chain, bytes)
    requires Elems(chain) !! buf.Owned()
    modifies buf, buf.mgr
    ensures buf.Valid() && buf.Contents() == old(buf.Contents()) + bytes
    ensures Transfer(old(buf.mgr.pool), buf.mgr.pool, old(buf.Owned()) + Elems(chain), buf.Owned())
    ensures buf.Owned() <= old(buf.Owned()) + Elems(chain)
    ensures forall j | 0 <= j < |chain| :: chain[j] in old(buf.mgr.pool.blocks)
    ensures buf.slices == old(buf.slices) + Landed(SlicesFrom(old(buf.mgr.pool.blocks), chain))
    ensures buf.pinned == old(buf.pinned) && Views(old(buf.mgr.pool), buf.mgr.pool, old(buf.Viewed()), buf.Viewed())
    ensures Ended(buf.slices, buf.mgr.pool)
    ensures buf.fromShm == old(buf.fromShm) && buf.currentPinned == old(buf.currentPinned)
  {
    hide Ended;
    hide PoolOk;
    hide SlicesOk;
    hide SliceOk;
    hide Apart;
    hide Flat;
    hide Offs;
    hide Transfer;
    hide Ahead;
    hide Elems;
    hide Unread;
    hide Views;
    hide ViewedOffs;
    hide Landed;
    LandedNone();
    ViewsSelf(buf.slices, buf.pinned, buf.currentPinned, buf.mgr.pool);
    ghost var p := buf.mgr.pool;
    ghost var b := Before(p, buf.Owned(), buf.Contents(), buf.slices, buf.pinned, buf.Viewed());
    ghost var ss := SlicesFrom(p.blocks, chain);
    ChainUsed(p.blocks, p, root, chain);
    HoldsUsed(buf.slices, buf.pinned, p);
    TransferSelf(p, b.own + Elems(chain));
    AheadFirst(p, chain, b.own);
    assert chain[0..] == chain && ss[..0] == [] && ss[..|ss|] == ss;
    NoSlices(p);
    var offset, more := root, true;
    ghost var k := 0;
    while more
      invariant more ==> k < |chain| && offset == chain[k]
      invariant !more ==> k == |chain| && Ended(buf.slices, buf.mgr.pool)
      invariant buf.fromShm == old(buf.fromShm) && buf.currentPinned == old(buf.currentPinned)
      invariant Walked(buf, b, chain, k)
      decreases |chain| - k
    {
      LinkIn(p.blocks, chain, k);
      var hasNext, next := MoveOne(buf, offset, b, chain, k);
      k := k + 1;
      if hasNext {
        offset := next;
      } else {
        more := false;
      }
    }
    assert chain[k..] == [];
    ElemsNone();
    assert buf.Owned() + {} == buf.Owned();
  }

  lemma NoSlices(p: Pool)
    ensures SlicesOk([], p.blocks) && Flat([], p.blocks) == []
  {
  }

  lemma WalkStep(p: Pool, q: Pool, r: Pool, chain: seq<nat>, k: nat, all: set<nat>, own: set<nat>, now: set<nat>)
    requires Distinct(chain) && k < |chain| && Ahead(p, q, chain, k, own)
    requires forall j | k <= j < |chain| :: chain[j] in Used(q)
    requires Transfer(p, q, all, own + Elems(chain[k..])) && Transfer(q, r, own + {chain[k]}, now)
    requires now <= own + {chain[k]}
    ensures Ahead(p, r, chain, k + 1, now) && forall j | k + 1 <= j < |chain| :: chain[j] in Used(r)
    ensures Transfer(p, r, all, now + Elems(chain[k + 1..]))
    ensures chain[k] in Elems(chain)
  {
    hide Ahead;
    hide Transfer;
    hide Elems;
    ElemsFrom(chain, k);
    AheadStep(p, q, r, chain, k, own, now);
    RestApart(p, q, chain, k, own);
    TransferAhead(p, q, r, all, own, now, chain[k], Elems(chain[k + 1..]));
    InChain(chain, k);
  }

  lemma ElemsNone()
    ensures Elems([]) == {}
  {
  }

  lemma InChain(chain: seq<nat>, k: nat)
    requires k < |chain|
    ensures chain[k] in Elems(chain)
  {
  }

  lemma AheadFirst(p: Pool, chain: seq<nat>, own: set<nat>)
    requires (forall j | 0 <= j < |chain| :: chain[j] in p.blocks) && Elems(chain) !! own
    ensures Ahead(p, p, chain, 0, own)
  {
    forall j | 0 <= j < |chain| ensures chain[j] !in own { assert chain[j] in Elems(chain); }
  }

  lemma AheadAt(p: Pool, q: Pool, chain: seq<nat>, k: nat, own: set<nat>)
    requires Ahead(p, q, chain, k, own) && k < |chain|
    ensures chain[k] in p.blocks && chain[k] in q.blocks && chain[k] !in own && q.blocks[chain[k]] == p.blocks[chain[k]]
  {
  }

  lemma RestApart(p: Pool, q: Pool, chain: seq<nat>, k: nat, own: set<nat>)
    requires Ahead(p, q, chain, k, own) && k < |chain|
    ensures Elems(chain[k + 1..]) !! own
  {
    forall o | o in Elems(chain[k + 1..]) ensures o !in own {
      var j :| 0 <= j < |chain[k + 1..]| && chain[k + 1..][j] == o;
      assert chain[k + 1 + j] == o;
    }
  }
}
