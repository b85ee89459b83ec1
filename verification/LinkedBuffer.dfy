/** `LinkedBuffer`: a byte queue over a list of slices.

    The source's singly linked `SliceList` is the sequence `slices`; the slice it writes to is named by `cursor`,
    an index that moves with the list and would be `Dangling` if its slice were popped.
 */
module LinkedBuffers {
  import opened Bytes
  import opened BufferPool
  import opened Manager
  import opened SliceChains

  const DEFAULT_SINGLE_BUFFER_SIZE := 4096

  datatype Cursor = NoCursor | At(i: nat) | Dangling

  /** What a read hands out: a view into a slice, which is shared memory or heap storage, or a copy. */
  datatype ReadResult =
    | NotEnoughData
    | View(bytes: seq<Byte>, inShm: bool, off: nat, from: nat)
    | Copy(bytes: seq<Byte>)

  function LastOf(slices: seq<Slice>): Cursor {
    if slices == [] then NoCursor else At(|slices| - 1)
  }

  predicate AllShm(slices: seq<Slice>) {
    forall i | 0 <= i < |slices| :: slices[i].isShm
  }

  predicate EmptyHeap(h: Slice) {
    !h.isShm && h.start == 0 && h.read == 0 && h.write == 0 && |h.heap| == h.cap && h.cap > 0
  }

  /** `from_heap` of a zeroed vector. */
  function HeapSlice(cap: nat): (h: Slice)
    requires cap > 0
    ensures EmptyHeap(h) && h.cap == cap
  {
    Slice(false, 0, cap, 0, 0, 0, seq(cap, i => 0))
  }

  /** The blocks behind views that were handed out and not released. */
  function ViewedOffs(slices: seq<Slice>, pinned: seq<Slice>, currentPinned: bool): set<nat> {
    Offs(pinned) + if currentPinned && slices != [] && slices[0].isShm then {slices[0].off} else {}
  }

  /** Blocks behind views are still there, in use, with the same bytes. */
  predicate Views(p: Pool, q: Pool, before: set<nat>, after: set<nat>) {
    && before <= after
    && forall o | o in before ::
         o in p.blocks && o in q.blocks && q.blocks[o].inUsed && q.blocks[o].data == p.blocks[o].data
  }

  lemma ViewsThen(p: Pool, q: Pool, r: Pool, a: set<nat>, b: set<nat>, c: set<nat>)
    requires Views(p, q, a, b) && Views(q, r, b, c)
    ensures Views(p, r, a, c)
  {
  }

  lemma ViewsSelf(slices: seq<Slice>, pinned: seq<Slice>, currentPinned: bool, p: Pool)
    requires Holds(slices, pinned, p)
    ensures var v := ViewedOffs(slices, pinned, currentPinned); Views(p, p, v, v)
  {
    hide PoolOk;
    HoldsUsed(slices, pinned, p);
    OffsConcat(pinned, slices);
    if slices != [] { assert slices[0] in slices; }
  }

  /** Pinning the front slice only adds to what is viewed. */
  lemma ViewsMore(p: Pool, q: Pool, before: set<nat>, now: set<nat>, slices: seq<Slice>, pinned: seq<Slice>)
    requires Views(p, q, before, now) && slices != []
    requires now == ViewedOffs(slices, pinned, false) || now == ViewedOffs(slices, pinned, true)
    ensures Views(p, q, before, ViewedOffs(slices, pinned, true))
    ensures slices[0].isShm ==> slices[0].off in ViewedOffs(slices, pinned, true)
  {
  }

  lemma AppendViews(slices: seq<Slice>, pinned: seq<Slice>, currentPinned: bool, p: Pool, s: Slice)
    requires Holds(slices, pinned, p)
    ensures Views(p, p, ViewedOffs(slices, pinned, currentPinned), ViewedOffs(slices + [s], pinned, currentPinned))
  {
    ViewsSelf(slices, pinned, currentPinned, p);
  }

  lemma ReadNextViews(slices: seq<Slice>, pinned: seq<Slice>, currentPinned: bool, p: Pool)
    requires Holds(slices, pinned, p) && slices != []
    ensures SliceOk(slices[0], p.blocks)
    ensures var f := slices[0];
            var before := ViewedOffs(slices, pinned, currentPinned);
            if !f.isShm then Views(p, p, before, ViewedOffs(slices[1..], pinned, false))
            else if currentPinned then Views(p, p, before, ViewedOffs(slices[1..], pinned + [f], false))
            else Views(p, Recycled(p, f), before, ViewedOffs(slices[1..], pinned, false))
  {
    hide PoolOk;
    var f := slices[0];
    assert SliceOk(f, p.blocks);
    ViewsSelf(slices, pinned, currentPinned, p);
    OffsAppend(pinned, f);
    if f.isShm && !currentPinned {
      FrontElsewhere(slices, pinned);
      RecycleHeld(f, pinned, p);
      hide Recycled;
      KeptViews(pinned, p, Recycled(p, f));
    }
  }

  lemma KeptViews(pinned: seq<Slice>, p: Pool, q: Pool)
    requires SlicesOk(pinned, p.blocks) && SameData(pinned, p.blocks, q.blocks)
    ensures Views(p, q, Offs(pinned), Offs(pinned))
  {
    forall o | o in Offs(pinned)
      ensures o in p.blocks && o in q.blocks && q.blocks[o].inUsed && q.blocks[o].data == p.blocks[o].data
    {
      var i :| 0 <= i < |pinned| && pinned[i].isShm && pinned[i].off == o;
      assert SliceOk(pinned[i], p.blocks);
    }
  }

  /** The slice the next read starts with. */
  function FirstUnread(slices: seq<Slice>): Slice
    requires slices != []
  {
    if Size(slices[0]) == 0 && |slices| > 1 then slices[1] else slices[0]
  }

  predicate ViewOf(r: ReadResult, s: Slice) {
    r.View? && r.inShm == s.isShm && r.off == s.off && r.from == s.read
  }

  /** The list after `n` bytes were taken from its front: slices leave it one by one as long as they
      hold less than what is still to be taken. */
  function Advanced(slices: seq<Slice>, n: nat): seq<Slice> {
    if slices == [] then []
    else if n <= Size(slices[0]) then slices[0 := slices[0].(read := slices[0].read + n)]
    else Advanced(slices[1..], n - Size(slices[0]))
  }

  function Total(slices: seq<Slice>): int {
    if slices == [] then 0 else Size(slices[0]) + Total(slices[1..])
  }

  /** Read indices do not pass write indices. */
  predicate Tidy(slices: seq<Slice>) {
    forall i | 0 <= i < |slices| :: slices[i].read <= slices[i].write
  }

  /** The front slice stays exactly while no more is taken than it holds. */
  lemma {:induction false} AdvancedLength(slices: seq<Slice>, n: nat)
    requires slices != [] && Tidy(slices)
    ensures |Advanced(slices, n)| <= |slices|
    ensures |Advanced(slices, n)| == |slices| <==> n <= Size(slices[0])
    ensures n <= Size(slices[0]) ==> Advanced(slices, n) == slices[0 := slices[0].(read := slices[0].read + n)]
    decreases |slices|
  {
    if n > Size(slices[0]) && |slices| > 1 {
      AdvancedLength(slices[1..], n - Size(slices[0]));
    }
  }

  lemma AdvancedInside(slices: seq<Slice>, n: nat)
    requires slices != [] && n <= Size(slices[0])
    ensures Advanced(slices, n) == slices[0 := slices[0].(read := slices[0].read + n)]
  {
  }

  lemma AdvancedPop(slices: seq<Slice>, n: nat)
    requires slices != [] && Size(slices[0]) == 0 < n
    ensures Advanced(slices, n) == Advanced(slices[1..], n)
  {
  }

  /** One slice's `read`, and then the next slice if more is wanted. */
  lemma AdvancedFront(slices: seq<Slice>, n: nat, p: Pool)
    requires slices != [] && SlicesOk(slices, p.blocks)
    ensures var k := Min(n, Size(slices[0]));
            var now := slices[0 := slices[0].(read := slices[0].read + k)];
            && k <= n && Advanced(slices, n) == if k < n then Advanced(now[1..], n - k) else Advanced(now, 0)
  {
    assert SliceOk(slices[0], p.blocks);
    var k := Min(n, Size(slices[0]));
    var now := slices[0 := slices[0].(read := slices[0].read + k)];
    assert now[1..] == slices[1..];
    if k == n { assert now[0 := now[0]] == now; }
  }

  lemma AdvancedNone(slices: seq<Slice>)
    requires Tidy(slices)
    ensures Advanced(slices, 0) == slices
  {
    if slices != [] { assert slices[0 := slices[0]] == slices; }
  }

  lemma {:induction false} AdvancedTidy(slices: seq<Slice>, n: nat)
    requires Tidy(slices)
    ensures Tidy(Advanced(slices, n))
    ensures n <= Total(slices) ==> Total(Advanced(slices, n)) == Total(slices) - n
    decreases |slices|
  {
    if slices != [] {
      if n > Size(slices[0]) {
        AdvancedTidy(slices[1..], n - Size(slices[0]));
      } else {
        assert Advanced(slices, n)[1..] == slices[1..];
      }
    }
  }

  /** Taking twice is taking the sum. */
  lemma {:induction false} AdvancedTwice(slices: seq<Slice>, m: nat, n: nat)
    requires Tidy(slices)
    ensures Advanced(Advanced(slices, m), n) == Advanced(slices, m + n)
    decreases |slices|
  {
    if slices != [] {
      if m > Size(slices[0]) {
        AdvancedTwice(slices[1..], m - Size(slices[0]), n);
      } else {
        var now := Advanced(slices, m);
        assert now[1..] == slices[1..];
        if m + n <= Size(slices[0]) {
          assert now[0 := now[0].(read := now[0].read + n)] == slices[0 := slices[0].(read := slices[0].read + (m + n))];
        }
      }
    }
  }

  /** What joins at the back does not matter to what is taken in front of it. */
  lemma {:induction false} AdvancedAppend(slices: seq<Slice>, more: seq<Slice>, n: nat)
    requires Tidy(slices) && n <= Total(slices) && Tidy(more)
    ensures Advanced(slices + more, n) == Advanced(slices, n) + more
    decreases |slices|
  {
    var all := slices + more;
    if slices == [] {
      assert all == more;
      AdvancedNone(more);
    } else {
      assert all[1..] == slices[1..] + more;
      if n > Size(slices[0]) {
        AdvancedAppend(slices[1..], more, n - Size(slices[0]));
      } else {
        assert Advanced(all, n) == Advanced(slices, n) + more;
      }
    }
  }

  lemma {:induction false} TotalFlat(slices: seq<Slice>, p: Pool)
    requires SlicesOk(slices, p.blocks)
    ensures Tidy(slices) && Total(slices) == |Flat(slices, p.blocks)|
    decreases |slices|
  {
    hide Unread;
    if slices != [] {
      FlatHead(slices, p.blocks);
      TotalFlat(slices[1..], p);
      assert forall i | 0 < i < |slices| :: slices[i] == slices[1..][i - 1];
    }
  }

  /** What reading does to the pinned blocks: the front slice joins them when it is left behind with a
      view out, and no other does; `n` slices are left. */
  predicate PinnedFrom(a: seq<Slice>, pa: seq<Slice>, viewed: bool, n: nat, pb: seq<Slice>) {
    && n <= |a|
    && Offs(pb) == Offs(pa) + (if n < |a| && viewed && a[0].isShm then {a[0].off} else {})
  }

  /** `reserve` takes a new slice only when the current one has no room, and, on an empty list, when
      neither of the first two slices it was given has. */
  predicate Frugal(a: seq<Slice>, b: seq<Slice>, size: nat) {
    if a == [] then (|b| > 1 ==> Remain(b[0]) < size) && (|b| > 2 ==> Remain(b[1]) < size)
    else |b| <= |a| + 1 && (|b| > |a| ==> Remain(a[|a| - 1]) < size)
  }

  lemma FrugalRewritten(a: seq<Slice>, b: seq<Slice>, c: seq<Slice>, size: nat)
    requires Frugal(a, b, size) && b != [] && Rewritten(b, c, |b| - 1, size)
    ensures Frugal(a, c, size)
  {
  }

  /** As long as no slice is left behind the front is the same block. */
  predicate SameFront(a: seq<Slice>, b: seq<Slice>) {
    |b| <= |a| && (|b| == |a| && a != [] ==> b[0].off == a[0].off && b[0].isShm == a[0].isShm)
  }

  lemma PinnedSame(a: seq<Slice>, pa: seq<Slice>, viewed: bool)
    ensures PinnedFrom(a, pa, viewed, |a|, pa)
  {
  }

  lemma PinnedThen(a: seq<Slice>, pa: seq<Slice>, viewed: bool, b: seq<Slice>, pb: seq<Slice>, n: nat, pc: seq<Slice>)
    requires PinnedFrom(a, pa, viewed, |b|, pb) && PinnedFrom(b, pb, viewed && |b| == |a|, n, pc) && SameFront(a, b)
    ensures PinnedFrom(a, pa, viewed, n, pc)
  {
    hide Offs;
  }

  class LinkedBuffer {
    const mgr: BufferManager
    var slices: seq<Slice>
    var cursor: Cursor
    var pinned: seq<Slice>
    var currentPinned: bool
    var fromShm: bool
    var len: nat

    /** The write cursor is null or on the last slice, and every slice is held properly. */
    ghost predicate Sound()
      reads this, mgr
    {
      Holds(slices, pinned, mgr.pool) && cursor == LastOf(slices) && (fromShm ==> AllShm(slices))
    }

    ghost predicate Valid()
      reads this, mgr
    {
      Sound() && len == |Flat(slices, mgr.pool.blocks)|
    }

    /** The unread bytes. */
    ghost function Contents(): seq<Byte>
      requires Valid()
      reads this, mgr
    {
      Flat(slices, mgr.pool.blocks)
    }

    /** The blocks this buffer holds. */
    ghost function Owned(): set<nat>
      reads this
    {
      Offs(pinned + slices)
    }

    ghost function Viewed(): set<nat>
      reads this
    {
      ViewedOffs(slices, pinned, currentPinned)
    }

    constructor (mgr: BufferManager)
      requires PoolOk(mgr.pool)
      ensures this.mgr == mgr && Valid() && Contents() == [] && Owned() == {} && fromShm
      ensures slices == [] && pinned == [] && !currentPinned
    {
      this.mgr := mgr;
      slices, cursor, pinned, currentPinned, fromShm, len := [], NoCursor, [], false, true, 0;
    }

    // -------------------------------------------------------------------------------------------
    // Reading
    // -------------------------------------------------------------------------------------------

    /** `read_next_slice`: the front slice is done with; it is pinned if a view of it is out. */
    method ReadNextSlice()
      requires Sound() && |slices| >= 2 && Size(slices[0]) == 0
      modifies this, mgr
      ensures Sound() && slices == old(slices)[1..] && len == old(len)
      ensures pinned == if old(slices)[0].isShm && old(currentPinned) then old(pinned) + [old(slices)[0]] else old(pinned)
      ensures PinnedFrom(old(slices), old(pinned), old(currentPinned), |slices|, pinned)
      ensures !currentPinned && fromShm == old(fromShm)
      ensures Flat(slices, mgr.pool.blocks) == old(Flat(slices, mgr.pool.blocks))
      ensures Transfer(old(mgr.pool), mgr.pool, old(Owned()), Owned())
      ensures Views(old(mgr.pool), mgr.pool, old(Viewed()), Viewed())
    {
      hide PoolOk;
      hide SlicesOk;
      hide Apart;
      hide Flat;
      hide Transfer;
      hide Offs;
      hide Recycled;
      hide Views;
      hide ViewedOffs;
      var front := slices[0];
      ghost var p, was := mgr.pool, slices;
      HoldsUsed(slices, pinned, p);
      TransferSelf(p, Offs(pinned + slices));
      DropFront(slices, pinned, p);
      FrontFacts(slices, p);
      ReadNextViews(slices, pinned, currentPinned, p);
      slices := slices[1..];
      cursor := if cursor == At(0) then Dangling else At(cursor.i - 1);
      if front.isShm {
        if currentPinned {
          PinFront(was, pinned, p);
          OffsAppend(pinned, front);
          pinned := pinned + [front];
        } else {
          mgr.Recycle(front);
        }
      }
      currentPinned := false;
    }

    /** One slice's `read`: up to `size` bytes from the front slice. */
    method ReadFront(size: nat) returns (b: seq<Byte>)
      requires Sound() && slices != []
      modifies this
      ensures var k := Min(size, Size(old(slices)[0]));
              && b == old(Flat(slices, mgr.pool.blocks))[..k] && |b| == k
              && slices == old(slices)[0 := old(slices)[0].(read := old(slices)[0].read + k)]
      ensures Sound() && Flat(slices, mgr.pool.blocks) == old(Flat(slices, mgr.pool.blocks))[|b|..]
      ensures Owned() == old(Owned()) && Viewed() == old(Viewed())
      ensures SliceOk(old(slices)[0], mgr.pool.blocks)
      ensures b == Storage(slices[0], mgr.pool.blocks)[old(slices)[0].read..old(slices)[0].read + |b|]
      ensures len == old(len) && pinned == old(pinned) && currentPinned == old(currentPinned) && fromShm == old(fromShm)
    {
      hide PoolOk;
      hide SlicesOk;
      hide Apart;
      hide Flat;
      hide Offs;
      var front := slices[0];
      FrontFacts(slices, mgr.pool);
      var k := if size <= front.write - front.read then size else front.write - front.read;
      AdvanceFront(slices, pinned, mgr.pool, k);
      FlatHead(slices, mgr.pool.blocks);
      b := Storage(front, mgr.pool.blocks)[front.read..front.read + k];
      slices := slices[0 := front.(read := front.read + k)];
    }

    /** `read_bytes`: the fast path hands out a view of the front slice and pins it, the slow path
        copies across slices; both take exactly the next `size` bytes. */
    method ReadBytes(size: nat) returns (r: ReadResult)
      requires Valid()
      modifies this, mgr
      ensures Valid()
      ensures r.NotEnoughData? <==> size > 0 && old(len) < size
      ensures r.NotEnoughData? || size == 0 ==> unchanged(this) && mgr.pool == old(mgr.pool)
      ensures !r.NotEnoughData? ==>
        size <= |old(Contents())| && r.bytes == old(Contents())[..size] && Contents() == old(Contents())[size..]
      ensures Transfer(old(mgr.pool), mgr.pool, old(Owned()), Owned())
      ensures Views(old(mgr.pool), mgr.pool, old(Viewed()), Viewed())
      ensures r.View? && r.inShm ==> r.off in Viewed() && ViewBacked(mgr.pool, r)
      ensures PinnedFrom(old(slices), old(pinned), old(currentPinned), |slices|, pinned) && fromShm == old(fromShm)
      ensures currentPinned == (r.View? || (old(currentPinned) && |slices| == |old(slices)|))
      ensures !r.NotEnoughData? ==> slices == Advanced(old(slices), size)
      ensures r.View? ==> size > 0 && old(slices) != [] && (!old(slices)[0].isShm ==> pinned == old(pinned))
      ensures size > 0 && !r.NotEnoughData? ==> old(slices) != [] && (r.View? <==> Size(FirstUnread(old(slices))) >= size)
      ensures r.View? ==> old(slices) != [] && ViewOf(r, FirstUnread(old(slices)))
      ensures |old(slices)| == 1 && size > 0 && !r.NotEnoughData? ==> r.View?
    {
      hide PoolOk;
      hide SlicesOk;
      hide Apart;
      hide Flat;
      hide Transfer;
      hide Offs;
      hide Views;
      hide Advanced;
      hide Tidy;
      hide Total;
      hide PinnedFrom;
      ghost var p := mgr.pool;
      PinnedSame(slices, pinned, currentPinned);
      OnlySize(slices, p);
      TotalFlat(slices, p);
      AdvancedNone(slices);
      HoldsUsed(slices, pinned, p);
      TransferSelf(p, Offs(pinned + slices));
      ViewsSelf(slices, pinned, currentPinned, p);
      if size == 0 {
        return Copy([]);
      }
      if len < size {
        return NotEnoughData;
      }
      ghost var all := Contents();
      if slices != [] && Size(slices[0]) == 0 {
        NotLast(slices, p);
        AdvancedPop(slices, size);
        ReadNextSlice();
      }
      NotLast(slices, mgr.pool);
      ghost var q, own, seen := mgr.pool, Owned(), Viewed();
      ghost var ss, pins := slices, pinned;
      len := len - size;
      if slices[0].write - slices[0].read >= size {
        AdvancedInside(slices, size);
        r := ReadView(size);
        PinnedSame(ss, pins, old(currentPinned) && |ss| == |old(slices)|);
        PinnedThen(old(slices), old(pinned), old(currentPinned), ss, pins, |slices|, pinned);
        ViewsThen(p, q, mgr.pool, old(Viewed()), seen, Viewed());
        return;
      }
      var result := CopyAcross(size);
      TransferThen(p, q, mgr.pool, old(Owned()), own, Owned());
      ViewsThen(p, q, mgr.pool, old(Viewed()), seen, Viewed());
      PinnedThen(old(slices), old(pinned), old(currentPinned), ss, pins, |slices|, pinned);
      return Copy(result);
    }

    /** The fast path of `read_bytes`. */
    method ReadView(size: nat) returns (r: ReadResult)
      requires Sound() && slices != [] && size <= Size(slices[0])
      modifies this
      ensures Sound() && len == old(len) && Owned() == old(Owned())
      ensures r.View? && size <= |old(Flat(slices, mgr.pool.blocks))| && r.bytes == old(Flat(slices, mgr.pool.blocks))[..size]
      ensures Flat(slices, mgr.pool.blocks) == old(Flat(slices, mgr.pool.blocks))[size..]
      ensures Views(mgr.pool, mgr.pool, old(Viewed()), Viewed())
      ensures r.inShm ==> r.off in Viewed() && ViewBacked(mgr.pool, r)
      ensures slices == old(slices)[0 := old(slices)[0].(read := old(slices)[0].read + size)] && pinned == old(pinned)
      ensures ViewOf(r, old(slices)[0]) && currentPinned && fromShm == old(fromShm)
    {
      hide PoolOk;
      hide SlicesOk;
      hide Apart;
      hide Flat;
      hide Offs;
      hide Views;
      ViewsSelf(slices, pinned, currentPinned, mgr.pool);
      ViewsMore(mgr.pool, mgr.pool, Viewed(), Viewed(), slices, pinned);
      FlatHead(slices, mgr.pool.blocks);
      currentPinned := true;
      var front := slices[0];
      var b := ReadFront(size);
      assert Storage(slices[0], mgr.pool.blocks) == if front.isShm then mgr.pool.blocks[front.off].data else front.heap;
      return View(b, front.isShm, front.off, front.read);
    }

    /** The slow path of `read_bytes`. */
    method CopyAcross(size: nat) returns (result: seq<Byte>)
      requires Sound() && size <= |Flat(slices, mgr.pool.blocks)|
      modifies this, mgr
      ensures Sound() && len == old(len)
      ensures result == old(Flat(slices, mgr.pool.blocks))[..size] && slices == Advanced(old(slices), size)
      ensures Flat(slices, mgr.pool.blocks) == old(Flat(slices, mgr.pool.blocks))[size..]
      ensures Transfer(old(mgr.pool), mgr.pool, old(Owned()), Owned())
      ensures Views(old(mgr.pool), mgr.pool, old(Viewed()), Viewed())
      ensures PinnedFrom(old(slices), old(pinned), old(currentPinned), |slices|, pinned) && fromShm == old(fromShm)
      ensures currentPinned == (old(currentPinned) && |slices| == |old(slices)|) && |slices| <= |old(slices)|
    {
      hide PoolOk;
      hide SlicesOk;
      hide Apart;
      hide Flat;
      hide Transfer;
      hide Offs;
      hide Views;
      hide ViewedOffs;
      hide Advanced;
      hide Tidy;
      hide PinnedFrom;
      ghost var p := mgr.pool;
      PinnedSame(slices, pinned, currentPinned);
      ghost var all := Flat(slices, p.blocks);
      HoldsUsed(slices, pinned, p);
      TransferSelf(p, Offs(pinned + slices));
      ViewsSelf(slices, pinned, currentPinned, p);
      result := [];
      var left: nat := size;
      while left > 0
        invariant Sound() && len == old(len)
        invariant left + |result| == size <= |all| && result == all[..|result|]
        invariant Flat(slices, mgr.pool.blocks) == all[|result|..]
        invariant Advanced(slices, left) == Advanced(old(slices), size)
        invariant Transfer(p, mgr.pool, old(Owned()), Owned())
        invariant Views(p, mgr.pool, old(Viewed()), Viewed())
        invariant PinnedFrom(old(slices), old(pinned), old(currentPinned), |slices|, pinned) && fromShm == old(fromShm)
        invariant currentPinned == (old(currentPinned) && |slices| == |old(slices)|)
        invariant SameFront(old(slices), slices)
        decreases left, |slices|
      {
        NotLast(slices, mgr.pool);
        ghost var q, own, seen := mgr.pool, Owned(), Viewed();
        AdvancedFront(slices, left, mgr.pool);
        var b := ReadFront(left);
        result := result + b;
        if |b| != left {
          NotLast(slices, mgr.pool);
          ghost var ss, pins := slices, pinned;
          ReadNextSlice();
          PinnedThen(old(slices), old(pinned), old(currentPinned), ss, pins, |slices|, pinned);
          TransferThen(p, q, mgr.pool, old(Owned()), own, Owned());
          ViewsThen(p, q, mgr.pool, old(Viewed()), seen, Viewed());
        }
        left := left - |b|;
      }
      TotalFlat(slices, mgr.pool);
      AdvancedNone(slices);
    }

    /** `peek`: the same bytes as a read, and nothing but the pin changes. */
    method Peek(size: nat) returns (r: ReadResult)
      requires Valid()
      modifies this`currentPinned
      ensures Valid() && Contents() == old(Contents())
      ensures r.NotEnoughData? <==> size > 0 && len < size
      ensures !r.NotEnoughData? ==> size <= |Contents()| && r.bytes == Contents()[..size]
      ensures Views(old(mgr.pool), mgr.pool, old(Viewed()), Viewed())
      ensures r.View? && r.inShm ==> r.off in Viewed() && ViewBacked(mgr.pool, r)
      ensures currentPinned == (old(currentPinned) || r.View?)
      ensures r.View? ==> size > 0 && slices != [] && ViewOf(r, slices[0]) && size <= Size(slices[0])
    {
      hide PoolOk;
      hide SlicesOk;
      hide Apart;
      hide Flat;
      hide Offs;
      hide Views;
      ViewsSelf(slices, pinned, currentPinned, mgr.pool);
      if size == 0 {
        return Copy([]);
      }
      if len < size {
        return NotEnoughData;
      }
      ghost var all := Contents();
      NotLast(slices, mgr.pool);
      ViewsMore(mgr.pool, mgr.pool, Viewed(), Viewed(), slices, pinned);
      var front := slices[0];
      if front.write - front.read >= size {
        currentPinned := true;
        AdvanceFront(slices, pinned, mgr.pool, size);
        return View(Storage(front, mgr.pool.blocks)[front.read..front.read + size], front.isShm, front.off, front.read);
      }
      var result := CopyPeek(size);
      return Copy(result);
    }

    /** The slow path of `peek`. */
    method CopyPeek(size: nat) returns (result: seq<Byte>)
      requires Valid() && size <= len
      ensures result == Contents()[..size]
    {
      hide PoolOk;
      hide SlicesOk;
      hide SliceOk;
      hide Apart;
      hide Flat;
      hide Offs;
      hide Unread;
      ghost var all := Contents();
      result := [];
      var left: nat := size;
      var e := 0;
      assert slices[0..] == slices;
      while left > 0 && e < |slices|
        invariant e <= |slices|
        invariant left + |result| == size <= |all| && result == all[..|result|]
        invariant SlicesOk(slices[e..], mgr.pool.blocks)
        invariant left > 0 ==> Flat(slices[e..], mgr.pool.blocks) == all[|result|..]
      {
        assert slices[e..][0] == slices[e] && slices[e..][1..] == slices[e + 1..];
        FlatHead(slices[e..], mgr.pool.blocks);
        var b := PeekSlice(slices[e], mgr.pool, left);
        assert b == all[|result|..][..|b|];
        result := result + b;
        left := left - |b|;
        e := e + 1;
      }
      assert |slices[e..]| == |slices| - e;
      FlatPast(slices[e..], mgr.pool);
    }

    /** `discard`. */
    method Discard(size: nat) returns (ok: bool, n: nat)
      requires Valid()
      modifies this, mgr
      ensures Valid() && ok == (size <= old(len))
      ensures !ok ==> n == 0 && unchanged(this) && mgr.pool == old(mgr.pool)
      ensures ok ==> n == size && size <= |old(Contents())| && Contents() == old(Contents())[size..]
      ensures ok ==> slices == Advanced(old(slices), size)
      ensures old(slices) == [] ==> slices == []
      ensures Transfer(old(mgr.pool), mgr.pool, old(Owned()), Owned())
      ensures Views(old(mgr.pool), mgr.pool, old(Viewed()), Viewed())
      ensures PinnedFrom(old(slices), old(pinned), old(currentPinned), |slices|, pinned) && fromShm == old(fromShm)
      ensures currentPinned == (old(currentPinned) && |slices| == |old(slices)|)
    {
      hide PoolOk;
      hide SlicesOk;
      hide Apart;
      hide Flat;
      hide Transfer;
      hide Offs;
      hide Views;
      hide ViewedOffs;
      hide Advanced;
      hide Tidy;
      hide PinnedFrom;
      ghost var p := mgr.pool;
      PinnedSame(slices, pinned, currentPinned);
      ghost var all := Contents();
      HoldsUsed(slices, pinned, p);
      TransferSelf(p, Offs(pinned + slices));
      ViewsSelf(slices, pinned, currentPinned, p);
      if len < size {
        return false, 0;
      }
      n := 0;
      var left: nat := size;
      var more := true;
      while more && slices != []
        invariant Sound() && len == old(len)
        invariant left + n == size <= |all| && (old(slices) == [] ==> slices == [])
        invariant Advanced(slices, left) == Advanced(old(slices), size)
        invariant Flat(slices, mgr.pool.blocks) == all[n..]
        invariant more || left == 0
        invariant Transfer(p, mgr.pool, old(Owned()), Owned())
        invariant Views(p, mgr.pool, old(Viewed()), Viewed())
        invariant PinnedFrom(old(slices), old(pinned), old(currentPinned), |slices|, pinned) && fromShm == old(fromShm)
        invariant currentPinned == (old(currentPinned) && |slices| == |old(slices)|)
        invariant SameFront(old(slices), slices)
        decreases more, |slices|
      {
        ghost var q, own, seen := mgr.pool, Owned(), Viewed();
        AdvancedFront(slices, left, mgr.pool);
        var b := ReadFront(left);
        n := n + |b|;
        left := left - |b|;
        if left == 0 {
          more := false;
        } else {
          NotLast(slices, mgr.pool);
          ghost var ss, pins := slices, pinned;
          ReadNextSlice();
          PinnedThen(old(slices), old(pinned), old(currentPinned), ss, pins, |slices|, pinned);
          TransferThen(p, q, mgr.pool, old(Owned()), own, Owned());
          ViewsThen(p, q, mgr.pool, old(Viewed()), seen, Viewed());
        }
      }
      FlatPast(slices, mgr.pool);
      TotalFlat(slices, mgr.pool);
      AdvancedNone(slices);
      len := len - n;
      ok := true;
    }

    /** `append_buffer_slice`: a received slice joins at the back. */
    method AppendSlice(s: Slice)
      requires Valid() && SliceOk(s, mgr.pool.blocks) && (s.isShm ==> s.off !in Owned())
      modifies this
      ensures Valid() && Contents() == old(Contents()) + Unread(s, mgr.pool.blocks)
      ensures slices == old(slices) + [s] && pinned == old(pinned)
      ensures fromShm == (old(fromShm) && s.isShm) && currentPinned == old(currentPinned)
      ensures Owned() == old(Owned()) + (if s.isShm then {s.off} else {})
      ensures Views(old(mgr.pool), mgr.pool, old(Viewed()), Viewed())
    {
      hide PoolOk;
      hide SlicesOk;
      hide SliceOk;
      hide Apart;
      hide Flat;
      hide Offs;
      hide Views;
      JoinOne(slices, pinned, mgr.pool, s);
      AppendViews(slices, pinned, currentPinned, mgr.pool, s);
      if !s.isShm {
        fromShm := false;
      }
      len := len + (s.write - s.read);
      slices := slices + [s];
      cursor := At(|slices| - 1);
    }

    // -------------------------------------------------------------------------------------------
    // Writing
    // -------------------------------------------------------------------------------------------

    /** `alloc`: one buffer of the smallest class that fits; else buffers from the largest class
        down; and for what is still missing when every class is exhausted, one heap buffer. */
    method Alloc(size: nat)
      requires Holds(slices, pinned, mgr.pool) && (fromShm ==> AllShm(slices))
      modifies this`slices, this`fromShm, mgr
      ensures Holds(slices, pinned, mgr.pool) && (fromShm ==> old(fromShm) && AllShm(slices))
      ensures |old(slices)| <= |slices| && slices[..|old(slices)|] == old(slices)
      ensures Flat(slices, mgr.pool.blocks) == old(Flat(slices, mgr.pool.blocks))
      ensures Transfer(old(mgr.pool), mgr.pool, old(Owned()), Owned())
      ensures Grown(slices[|old(slices)|..], size)
      ensures Enlarged(old(slices), slices, old(fromShm), fromShm, old(mgr.pool), mgr.pool)
      ensures Spared(old(slices), slices, mgr.pool)
      ensures HeapTail(slices[|old(slices)|..], size)
      ensures var i := FirstFit(old(mgr.pool).lists, size);
              i < |old(mgr.pool).lists| && CanPop(old(mgr.pool).lists[i]) ==>
                |slices| == |old(slices)| + 1 && slices[|old(slices)|].isShm
                && slices[|old(slices)|].cap == old(mgr.pool).lists[i].cap
      ensures old(SendOnly(slices, mgr.pool)) ==> SendOnly(slices, mgr.pool)
    {
      hide PoolOk;
      hide SlicesOk;
      hide Apart;
      hide Flat;
      hide Transfer;
      hide Offs;
      hide Allocated;
      hide Holds;
      hide SendOnly;
      hide AllShm;
      hide Grown;
      hide Enlarged;
      hide Spared;
      hide NoMore;
      hide HeapTail;
      ghost var p, n, was := mgr.pool, |slices|, slices;
      HoldsPool(slices, pinned, p);
      var buf := mgr.AllocBuffer(size);
      if buf.Some? {
        AddAllocated(slices, pinned, p, mgr.pool, [buf.value]);
        GrownOne(buf.value, size, p, mgr.pool);
        EnlargedBy(was, [buf.value], fromShm, p, mgr.pool);
        HeapTailNone([buf.value], size);
        slices := slices + [buf.value];
        return;
      }
      var got, total := mgr.AllocBuffers(size);
      AddAllocated(slices, pinned, p, mgr.pool, got);
      GrownMany(p, mgr.pool, got, size);
      EnlargedBy(was, got, fromShm, p, mgr.pool);
      HeapTailNone(got, size);
      slices := slices + got;
      if size > total {
        var more := if size - total < DEFAULT_SINGLE_BUFFER_SIZE then DEFAULT_SINGLE_BUFFER_SIZE else size - total;
        var h := HeapSlice(more);
        AddHeap(slices, pinned, mgr.pool, h, n);
        GrownHeap(p, mgr.pool, got, h, size);
        EnlargedHeap(was, got, h, fromShm, p, mgr.pool);
        HeapTailOne(got, h, size);
        slices := slices + [h];
        fromShm := false;
      }
    }

    /** A slice's `append` at the write cursor: as many bytes as still fit. */
    method AppendToCursor(b: seq<Byte>) returns (k: nat)
      requires Holds(slices, pinned, mgr.pool) && cursor.At? && cursor.i < |slices|
      requires AllEmpty(slices[cursor.i + 1..])
      modifies this`slices, mgr
      ensures Holds(slices, pinned, mgr.pool)
      ensures k == Min(|b|, Remain(old(slices)[cursor.i])) <= |b|
      ensures Flat(slices, mgr.pool.blocks) == old(Flat(slices, mgr.pool.blocks)) + b[..k]
      ensures Transfer(old(mgr.pool), mgr.pool, old(Owned()), Owned())
      ensures Rewritten(old(slices), slices, cursor.i, k) && mgr.pool.lists == old(mgr.pool.lists)
      ensures old(SendOnly(slices, mgr.pool)) ==> SendOnly(slices, mgr.pool)
    {
      hide PoolOk;
      hide SlicesOk;
      hide SliceOk;
      hide Apart;
      hide Flat;
      hide Offs;
      hide Transfer;
      hide SendOnly;
      hide AllEmpty;
      var n := cursor.i;
      var s := slices[n];
      SliceAt(slices, mgr.pool, n);
      k := if |b| <= s.cap - s.write then |b| else s.cap - s.write;
      WriteAt(slices, pinned, mgr.pool, n, b[..k]);
      WrittenSendOnly(slices, mgr.pool, n, b[..k]);
      var (t, q) := Written(s, mgr.pool, b[..k]);
      slices := slices[n := t];
      mgr.pool := q;
    }

    /** The cursor moves to the next slice, after an allocation when there is none. */
    method StepCursor(left: nat)
      requires Holds(slices, pinned, mgr.pool) && (fromShm ==> AllShm(slices)) && left > 0
      requires cursor.At? && cursor.i < |slices|
      requires cursor.i + 1 < |slices| ==> Underway(slices, cursor.i + 1, left) && Remain(slices[cursor.i + 1]) > 0
      modifies this`slices, this`fromShm, this`cursor, mgr
      ensures Holds(slices, pinned, mgr.pool) && (fromShm ==> old(fromShm) && AllShm(slices))
      ensures cursor.At? && cursor.i < |slices|
      ensures Underway(slices, cursor.i, left) && Remain(slices[cursor.i]) > 0
      ensures Flat(slices, mgr.pool.blocks) == old(Flat(slices, mgr.pool.blocks))
      ensures Transfer(old(mgr.pool), mgr.pool, old(Owned()), Owned())
      ensures old(SendOnly(slices, mgr.pool)) ==> SendOnly(slices, mgr.pool)
      ensures Enlarged(old(slices), slices, old(fromShm), fromShm, old(mgr.pool), mgr.pool)
      ensures Spared(old(slices), slices, mgr.pool)
    {
      hide PoolOk;
      hide SlicesOk;
      hide Apart;
      hide Flat;
      hide Offs;
      hide Transfer;
      hide SendOnly;
      hide Grown;
      hide AllShm;
      hide Underway;
      hide Enlarged;
      hide Spared;
      EnlargedNot(slices, fromShm, mgr.pool);
      HoldsUsed(slices, pinned, mgr.pool);
      TransferSelf(mgr.pool, Offs(pinned + slices));
      if cursor.i + 1 == |slices| {
        ghost var was := slices;
        Alloc(left);
        UnderwayAlloc(was, slices, left);
      }
      cursor := At(cursor.i + 1);
    }

    /** The start of `write_bytes`: a cursor, after an allocation when there is none. */
    method StartWrite(size: nat)
      requires Sound() && size > 0
      modifies this`slices, this`fromShm, this`cursor, mgr
      ensures Holds(slices, pinned, mgr.pool) && (fromShm ==> old(fromShm) && AllShm(slices))
      ensures cursor.At? && cursor.i < |slices| && Underway(slices, cursor.i, size)
      ensures Flat(slices, mgr.pool.blocks) == old(Flat(slices, mgr.pool.blocks))
      ensures Transfer(old(mgr.pool), mgr.pool, old(Owned()), Owned())
      ensures old(SendOnly(slices, mgr.pool)) ==> SendOnly(slices, mgr.pool)
      ensures old(slices == [] && Fits(mgr.pool, size)) ==> OneRoom(slices, 0, size)
      ensures Enlarged(old(slices), slices, old(fromShm), fromShm, old(mgr.pool), mgr.pool)
      ensures Spared(old(slices), slices, mgr.pool)
    {
      hide PoolOk;
      hide SlicesOk;
      hide Apart;
      hide Flat;
      hide Offs;
      hide Transfer;
      hide SendOnly;
      hide Grown;
      hide AllShm;
      hide Underway;
      hide OneRoom;
      hide Enlarged;
      hide Spared;
      EnlargedNot(slices, fromShm, mgr.pool);
      HoldsUsed(slices, pinned, mgr.pool);
      TransferSelf(mgr.pool, Offs(pinned + slices));
      if cursor == NoCursor {
        ghost var one := Fits(mgr.pool, size);
        Alloc(size);
        assert slices[0..] == slices;
        UnderwayFirst(slices, size);
        if one { OneRoomFirst(slices, size); }
        cursor := At(0);
      } else {
        UnderwayLast(slices, size);
      }
    }

    /** One round of the loop of `write_bytes`: as much as fits at the cursor, and if that is not all,
        the cursor moves on. */
    method WriteRound(rest: seq<Byte>, ghost one: bool, ghost n: nat, ghost size: nat) returns (k: nat)
      requires Holds(slices, pinned, mgr.pool) && (fromShm ==> AllShm(slices)) && n + |rest| == size && rest != []
      requires cursor.At? && cursor.i < |slices| && Underway(slices, cursor.i, |rest|)
      requires one ==> OneRoom(slices, n, size)
      modifies this`slices, this`fromShm, this`cursor, mgr
      ensures Holds(slices, pinned, mgr.pool) && (fromShm ==> AllShm(slices)) && cursor.At? && cursor.i < |slices|
      ensures k <= |rest| && (k == 0 ==> Remain(old(slices)[old(cursor).i]) == 0)
      ensures k < |rest| ==> Underway(slices, cursor.i, |rest| - k) && Remain(slices[cursor.i]) > 0
      ensures k == |rest| ==> cursor == LastOf(slices)
      ensures Flat(slices, mgr.pool.blocks) == old(Flat(slices, mgr.pool.blocks)) + rest[..k]
      ensures Transfer(old(mgr.pool), mgr.pool, old(Owned()), Owned())
      ensures old(SendOnly(slices, mgr.pool)) ==> SendOnly(slices, mgr.pool)
      ensures one ==> OneRoom(slices, n + k, size)
      ensures Enlarged(old(slices), slices, old(fromShm), fromShm, old(mgr.pool), mgr.pool)
      ensures Spared(old(slices), slices, mgr.pool)
    {
      hide PoolOk;
      hide SlicesOk;
      hide Apart;
      hide Flat;
      hide Offs;
      hide Transfer;
      hide SendOnly;
      hide Grown;
      hide AllShm;
      hide Rewritten;
      hide Underway;
      hide OneRoom;
      hide Enlarged;
      hide Spared;
      ghost var q, own, was, shm := mgr.pool, Owned(), slices, fromShm;
      UnderwayEmpty(slices, cursor.i, |rest|);
      k := AppendToCursor(rest);
      RewrittenShm(was, slices, cursor.i, k);
      EnlargedRewritten(was, slices, cursor.i, k, fromShm, q, mgr.pool);
      if one { OneRoomStep(was, slices, cursor.i, k, n, size); }
      if k < |rest| {
        UnderwayNext(was, slices, cursor.i, |rest|, k);
        ghost var q2, own2, mid := mgr.pool, Owned(), slices;
        StepCursor(|rest| - k);
        TransferThen(q, q2, mgr.pool, own, own2, Owned());
        EnlargedThen(was, mid, slices, shm, shm, fromShm, q, q2, mgr.pool);
      } else {
        UnderwayDone(was, slices, cursor.i, |rest|, k);
      }
    }

    /** `write_bytes`: however many slices it takes, the bytes are appended whole, and the cursor
        ends on the last slice. */
    method WriteBytes(bytes: seq<Byte>) returns (n: nat)
      requires Valid()
      modifies this, mgr
      ensures Valid() && n == |bytes| && Contents() == old(Contents()) + bytes
      ensures Transfer(old(mgr.pool), mgr.pool, old(Owned()), Owned())
      ensures pinned == old(pinned) && currentPinned == old(currentPinned)
      ensures Enlarged(old(slices), slices, old(fromShm), fromShm, old(mgr.pool), mgr.pool)
      ensures Spared(old(slices), slices, mgr.pool)
      ensures old(SendOnly(slices, mgr.pool)) ==> SendOnly(slices, mgr.pool)
      ensures old(slices) == [] && bytes != [] && old(Fits(mgr.pool, |bytes|)) ==> |slices| == 1 && slices[0].isShm
    {
      hide PoolOk;
      hide SlicesOk;
      hide Apart;
      hide Flat;
      hide Offs;
      hide Transfer;
      hide SendOnly;
      hide Grown;
      hide AllShm;
      hide Rewritten;
      hide Underway;
      hide OneRoom;
      hide Fits;
      hide Enlarged;
      hide Spared;
      EnlargedNot(slices, fromShm, mgr.pool);
      ghost var one := slices == [] && Fits(mgr.pool, |bytes|);
      ghost var p, all := mgr.pool, Contents();
      HoldsUsed(slices, pinned, p);
      TransferSelf(p, Offs(pinned + slices));
      if bytes == [] {
        return 0;
      }
      StartWrite(|bytes|);
      n := 0;
      var more := true;
      while more
        invariant Holds(slices, pinned, mgr.pool) && pinned == old(pinned) && currentPinned == old(currentPinned)
        invariant (fromShm ==> AllShm(slices)) && len == old(len)
        invariant n <= |bytes| && cursor.At? && cursor.i < |slices|
        invariant more ==> n < |bytes| && Underway(slices, cursor.i, |bytes| - n)
        invariant !more ==> n == |bytes| && cursor == LastOf(slices)
        invariant Flat(slices, mgr.pool.blocks) == all + bytes[..n]
        invariant Transfer(p, mgr.pool, old(Owned()), Owned())
        invariant old(SendOnly(slices, mgr.pool)) ==> SendOnly(slices, mgr.pool)
        invariant one ==> OneRoom(slices, n, |bytes|)
        invariant Enlarged(old(slices), slices, old(fromShm), fromShm, p, mgr.pool) && Spared(old(slices), slices, mgr.pool)
        decreases |bytes| - n, if more && Remain(slices[cursor.i]) == 0 then 1 else 0
      {
        ghost var q, own, was, m, shm := mgr.pool, Owned(), slices, n, fromShm;
        var k := WriteRound(bytes[n..], one, n, |bytes|);
        TransferThen(p, q, mgr.pool, old(Owned()), own, Owned());
        EnlargedThen(old(slices), was, slices, old(fromShm), shm, fromShm, p, q, mgr.pool);
        n := n + k;
        assert bytes[..n] == bytes[..m] + bytes[m..][..k];
        more := n < |bytes|;
      }
      if one { OneRoomShm(slices, n, |bytes|); }
      len := len + n;
      assert bytes[..n] == bytes;
    }

    /** A slice's `reserve` on the last slice: the write index moves over `size` bytes. */
    method ReserveLast(size: nat)
      requires Holds(slices, pinned, mgr.pool) && slices != [] && size <= Remain(slices[|slices| - 1])
      modifies this`slices
      ensures Holds(slices, pinned, mgr.pool) && Rewritten(old(slices), slices, |old(slices)| - 1, size)
      ensures Extends(old(Flat(slices, mgr.pool.blocks)), Flat(slices, mgr.pool.blocks), size)
      ensures Owned() == old(Owned())
      ensures old(SendOnly(slices, mgr.pool)) ==> SendOnly(slices, mgr.pool)
    {
      hide PoolOk;
      hide SlicesOk;
      hide SliceOk;
      hide Apart;
      hide Flat;
      hide Offs;
      hide Transfer;
      hide SendOnly;
      hide Written;
      hide Storage;
      var n := |slices| - 1;
      var s := slices[n];
      SliceAt(slices, mgr.pool, n);
      ghost var junk := Storage(s, mgr.pool.blocks)[s.write..s.write + size];
      BumpIsWrite(s, mgr.pool, size);
      assert slices[n + 1..] == [];
      WriteAt(slices, pinned, mgr.pool, n, junk);
      WrittenSendOnly(slices, mgr.pool, n, junk);
      slices := slices[n := s.(write := s.write + size)];
    }

    /** `reserve`: room for `size` bytes in one slice: in the current one, in the next one, or in a
        new one.  The bytes of the span are whatever the memory held. */
    method Reserve(size: nat)
      requires Valid() && (size > 0 || slices != [] || Fits(mgr.pool, 0))
      modifies this, mgr
      ensures Valid() && Extends(old(Contents()), Contents(), size)
      ensures slices != [] && Size(slices[|slices| - 1]) >= size
      ensures Transfer(old(mgr.pool), mgr.pool, old(Owned()), Owned())
      ensures pinned == old(pinned) && currentPinned == old(currentPinned)
      ensures Frugal(old(slices), slices, size)
      ensures Enlarged(old(slices), slices, old(fromShm), fromShm, old(mgr.pool), mgr.pool)
      ensures ShmFrom(slices, |old(slices)|) || !Fits(mgr.pool, size)
      ensures old(SendOnly(slices, mgr.pool)) ==> SendOnly(slices, mgr.pool)
    {
      hide PoolOk;
      hide SlicesOk;
      hide Apart;
      hide Flat;
      hide Offs;
      hide Transfer;
      hide SendOnly;
      hide Grown;
      hide AllShm;
      hide Rewritten;
      hide Enlarged;
      hide Spared;
      hide ShmFrom;
      hide Fits;
      hide Frugal;
      ghost var p := mgr.pool;
      Place(size);
      ghost var q, was := mgr.pool, slices;
      SliceAt(slices, mgr.pool, |slices| - 1);
      ReserveLast(size);
      FrugalRewritten(old(slices), was, slices, size);
      RewrittenShm(was, slices, |was| - 1, size);
      RewrittenSize(was, slices, |was| - 1, size);
      EnlargedRewritten(was, slices, |was| - 1, size, fromShm, q, q);
      SparedFits(was, slices, q, size);
      ShmFromThen(old(slices), was, slices, old(fromShm), fromShm, fromShm, p, q, q, size);
      EnlargedThen1(old(slices), was, slices, old(fromShm), fromShm, fromShm, p, q, q);
      len := len + size;
    }

    /** Where `reserve` puts its span: the cursor ends on the last slice, which has room for it. */
    method Place(size: nat)
      requires Sound() && (size > 0 || slices != [] || Fits(mgr.pool, 0))
      modifies this`slices, this`cursor, this`fromShm, mgr
      ensures Sound() && slices != [] && size <= Remain(slices[|slices| - 1])
      ensures Flat(slices, mgr.pool.blocks) == old(Flat(slices, mgr.pool.blocks))
      ensures Transfer(old(mgr.pool), mgr.pool, old(Owned()), Owned())
      ensures old(SendOnly(slices, mgr.pool)) ==> SendOnly(slices, mgr.pool)
      ensures Enlarged(old(slices), slices, old(fromShm), fromShm, old(mgr.pool), mgr.pool)
      ensures Frugal(old(slices), slices, size)
      ensures ShmFrom(slices, |old(slices)|) || !Fits(mgr.pool, size)
    {
      hide PoolOk;
      hide SlicesOk;
      hide Apart;
      hide Flat;
      hide Offs;
      hide Transfer;
      hide SendOnly;
      hide Grown;
      hide AllShm;
      hide Enlarged;
      hide Spared;
      hide ShmFrom;
      hide Fits;
      ghost var p := mgr.pool;
      EnlargedNot(slices, fromShm, p);
      SparedFits(slices, slices, p, size);
      HoldsUsed(slices, pinned, p);
      TransferSelf(p, Offs(pinned + slices));
      if cursor == NoCursor {
        StartReserve(size);
      }
      ghost var q, own, mid, shm := mgr.pool, Owned(), slices, fromShm;
      SliceAt(slices, mgr.pool, cursor.i);
      if slices[cursor.i].cap - slices[cursor.i].write < size {
        if cursor.i + 1 < |slices| && slices[cursor.i + 1].cap - slices[cursor.i + 1].write >= size {
          cursor := At(cursor.i + 1);
        } else {
          AddSlice(size);
          TransferThen(p, q, mgr.pool, old(Owned()), own, Owned());
          ShmFromThen(old(slices), mid, slices, old(fromShm), shm, fromShm, p, q, mgr.pool, size);
          EnlargedThen1(old(slices), mid, slices, old(fromShm), shm, fromShm, p, q, mgr.pool);
        }
      }
    }

    /** The allocation at the start of `reserve` on an empty list. */
    method StartReserve(size: nat)
      requires Sound() && slices == [] && (size > 0 || Fits(mgr.pool, 0))
      modifies this`slices, this`cursor, this`fromShm, mgr
      ensures Holds(slices, pinned, mgr.pool) && (fromShm ==> AllShm(slices)) && cursor == At(0) && slices != []
      ensures Remain(slices[0]) >= size ==> |slices| == 1
      ensures |slices| >= 2 && Remain(slices[1]) >= size ==> |slices| == 2
      ensures |slices| == 1 ==> Remain(slices[0]) >= size
      ensures Flat(slices, mgr.pool.blocks) == old(Flat(slices, mgr.pool.blocks))
      ensures Transfer(old(mgr.pool), mgr.pool, old(Owned()), Owned())
      ensures old(SendOnly(slices, mgr.pool)) ==> SendOnly(slices, mgr.pool)
      ensures Enlarged(old(slices), slices, old(fromShm), fromShm, old(mgr.pool), mgr.pool)
      ensures ShmFrom(slices, |old(slices)|) || !Fits(mgr.pool, size)
    {
      hide PoolOk;
      hide SlicesOk;
      hide Apart;
      hide Flat;
      hide Offs;
      hide Transfer;
      hide SendOnly;
      hide Grown;
      hide AllShm;
      hide Enlarged;
      hide Spared;
      hide ShmFrom;
      hide Fits;
      if Fits(mgr.pool, 0) { FitsHas(mgr.pool, 0); }
      Alloc(size);
      SparedFits([], slices, mgr.pool, size);
      assert slices[0..] == slices;
      FirstTwo(slices, size);
      cursor := At(0);
    }

    /** The last resort of `reserve`: one new slice that holds `size` bytes. */
    method AddSlice(size: nat)
      requires Holds(slices, pinned, mgr.pool) && (fromShm ==> AllShm(slices)) && size > 0
      modifies this`slices, this`cursor, this`fromShm, mgr
      ensures Holds(slices, pinned, mgr.pool) && (fromShm ==> old(fromShm) && AllShm(slices))
      ensures slices != [] && cursor == LastOf(slices) && Remain(slices[|slices| - 1]) >= size
      ensures Flat(slices, mgr.pool.blocks) == old(Flat(slices, mgr.pool.blocks))
      ensures Transfer(old(mgr.pool), mgr.pool, old(Owned()), Owned())
      ensures old(SendOnly(slices, mgr.pool)) ==> SendOnly(slices, mgr.pool)
      ensures Enlarged(old(slices), slices, old(fromShm), fromShm, old(mgr.pool), mgr.pool)
      ensures ShmFrom(slices, |old(slices)|) || !Fits(mgr.pool, size)
      ensures |slices| == |old(slices)| + 1 && slices[..|old(slices)|] == old(slices)
      ensures slices[|old(slices)|].isShm || slices[|old(slices)|].cap == Max(DEFAULT_SINGLE_BUFFER_SIZE, size)
    {
      hide PoolOk;
      hide SlicesOk;
      hide Apart;
      hide Flat;
      hide Offs;
      hide Transfer;
      hide SendOnly;
      hide AllShm;
      hide Allocated;
      hide Grown;
      hide Holds;
      hide Enlarged;
      hide NoMore;
      ghost var p, was := mgr.pool, slices;
      HoldsPool(slices, pinned, p);
      HoldsUsed(slices, pinned, p);
      TransferSelf(p, Offs(pinned + slices));
      var buf := mgr.AllocBuffer(size);
      if buf.Some? {
        AddAllocated(slices, pinned, p, mgr.pool, [buf.value]);
        GrownOne(buf.value, size, p, mgr.pool);
        OneFresh(buf.value, p, mgr.pool);
        EnlargedBy(was, [buf.value], fromShm, p, mgr.pool);
        slices := slices + [buf.value];
      } else {
        var h := HeapSlice(if size < DEFAULT_SINGLE_BUFFER_SIZE then DEFAULT_SINGLE_BUFFER_SIZE else size);
        AddHeap(slices, pinned, p, h, 0);
        EnlargedHeap(was, [], h, fromShm, p, mgr.pool);
        assert was + [] == was;
        slices := slices + [h];
        fromShm := false;
      }
      cursor := At(|slices| - 1);
    }

    /** What the caller of `reserve` does with its span: the last `|b|` bytes become `b`. */
    method FillReserved(b: seq<Byte>)
      requires Valid() && slices != [] && |b| <= Size(slices[|slices| - 1])
      modifies this`slices, mgr
      ensures Valid() && |b| <= |old(Contents())|
      ensures Contents() == old(Contents())[..|old(Contents())| - |b|] + b
      ensures Transfer(old(mgr.pool), mgr.pool, old(Owned()), Owned())
      ensures old(SendOnly(slices, mgr.pool)) ==> SendOnly(slices, mgr.pool)
      ensures Enlarged(old(slices), slices, fromShm, fromShm, old(mgr.pool), mgr.pool) && |slices| == |old(slices)|
    {
      hide PoolOk;
      hide SlicesOk;
      hide SliceOk;
      hide Apart;
      hide Flat;
      hide Offs;
      hide Transfer;
      hide SendOnly;
      hide Rewritten;
      var n := |slices| - 1;
      var s := slices[n].(write := slices[n].write - |b|);
      Unwrite(slices, pinned, mgr.pool, |b|);
      UnwriteSendOnly(slices, mgr.pool, |b|);
      ghost var less := slices[n := s];
      assert less[n + 1..] == [];
      WriteAt(less, pinned, mgr.pool, n, b);
      WrittenSendOnly(less, mgr.pool, n, b);
      RewrittenShm(less, less[n := Written(s, mgr.pool, b).0], n, |b|);
      var (t, q) := Written(s, mgr.pool, b);
      assert slices[n := t] == less[n := t];
      EnlargedSame(slices, slices[n := t], n, fromShm, mgr.pool, q);
      slices := slices[n := t];
      mgr.pool := q;
    }

    // -------------------------------------------------------------------------------------------
    // Giving blocks back
    // -------------------------------------------------------------------------------------------

    /** `clean_pinned_list`. */
    method CleanPinned()
      requires Sound()
      modifies this, mgr
      ensures Sound() && pinned == [] && slices == old(slices) && len == old(len) && cursor == old(cursor)
      ensures Flat(slices, mgr.pool.blocks) == old(Flat(slices, mgr.pool.blocks))
      ensures Transfer(old(mgr.pool), mgr.pool, old(Owned()), Owned())
      ensures fromShm == old(fromShm) && currentPinned == (old(currentPinned) && old(pinned) == [])
    {
      hide PoolOk;
      hide SlicesOk;
      hide Apart;
      hide Flat;
      hide Offs;
      hide Transfer;
      hide Recycled;
      ghost var p := mgr.pool;
      HoldsUsed(slices, pinned, p);
      TransferSelf(p, Offs(pinned + slices));
      if pinned == [] {
        return;
      }
      currentPinned := false;
      while pinned != []
        invariant Sound() && slices == old(slices) && len == old(len) && cursor == old(cursor)
        invariant fromShm == old(fromShm) && !currentPinned
        invariant Flat(slices, mgr.pool.blocks) == old(Flat(slices, mgr.pool.blocks))
        invariant Transfer(p, mgr.pool, old(Owned()), Owned())
        decreases |pinned|
      {
        ghost var q, own := mgr.pool, Owned();
        DropPinned(slices, pinned, q);
        var s := pinned[0];
        pinned := pinned[1..];
        mgr.Recycle(s);
        TransferThen(p, q, mgr.pool, old(Owned()), own, Owned());
      }
    }

    /** `release_previous_read`: views end, pinned blocks go back, and so does a single slice that
        has been read to its end. */
    method ReleasePreviousRead()
      requires Valid()
      modifies this, mgr
      ensures Valid() && Contents() == old(Contents()) && pinned == []
      ensures fromShm == old(fromShm) && currentPinned == (old(currentPinned) && old(pinned) == [])
      ensures old(|slices|) == 1 && old(len) == 0 ==> slices == [] && Owned() == {}
      ensures !(old(|slices|) == 1 && old(len) == 0) ==> slices == old(slices)
      ensures Transfer(old(mgr.pool), mgr.pool, old(Owned()), Owned())
    {
      hide PoolOk;
      hide SlicesOk;
      hide SliceOk;
      hide Apart;
      hide Flat;
      hide Transfer;
      hide Recycled;
      hide Offs;
      CleanPinned();
      if slices == [] {
        return;
      }
      FlatHead(slices, mgr.pool.blocks);
      FlatPast(slices[1..], mgr.pool);
      if slices[0].write - slices[0].read == 0 && cursor == At(0) {
        ghost var p, own := mgr.pool, Owned();
        DropOnly();
        TransferThen(old(mgr.pool), p, mgr.pool, old(Owned()), own, Owned());
      }
    }

    /** The end of `release_previous_read`: the one slice left, read to its end, goes back. */
    method DropOnly()
      requires Valid() && |slices| == 1 && Size(slices[0]) == 0 && pinned == []
      modifies this, mgr
      ensures Valid() && Contents() == [] && slices == [] && pinned == [] && Owned() == {}
      ensures fromShm == old(fromShm) && currentPinned == old(currentPinned)
      ensures Transfer(old(mgr.pool), mgr.pool, old(Owned()), Owned())
    {
      hide PoolOk;
      hide SlicesOk;
      hide Apart;
      hide Flat;
      hide Transfer;
      hide Recycled;
      hide Offs;
      DropFront(slices, pinned, mgr.pool);
      FrontFacts(slices, mgr.pool);
      var front := slices[0];
      assert slices[1..] == [] && pinned + [] == [];
      slices := [];
      cursor := NoCursor;
      mgr.Recycle(front);
      FlatPast(slices, mgr.pool);
      OffsNone();
    }

    /** The condition under which `release_previous_read_and_reserve` keeps a slice for writing. */
    ghost predicate Reuses()
      reads this
    {
      len == 0 && |slices| == 1 && slices[0].isShm
    }

    /** `release_previous_read_and_reserve`: pinned blocks go back, and a single slice that has been
        read to its end is reset to be written again.  No byte is lost.  The reset clears the in-used
        bit of a block that is held: everything is as it should be but for that bit. */
    method ReleaseAndReserve()
      requires Valid()
      modifies this, mgr
      ensures pinned == [] && len == old(len) && cursor == LastOf(slices)
      ensures fromShm == old(fromShm) && currentPinned == (old(currentPinned) && old(pinned) == [])
      ensures !old(Reuses()) ==>
        && Valid() && Contents() == old(Contents())
        && slices == (if old(|slices|) == 1 && old(len) == 0 then [] else old(slices))
        && Transfer(old(mgr.pool), mgr.pool, old(Owned()), Owned())
      ensures old(Reuses()) ==>
        var s := old(slices)[0].(start := 0, read := 0, write := 0);
        && slices == [s] && s.off in mgr.pool.blocks && !mgr.pool.blocks[s.off].inUsed
        && var p := Marked(mgr.pool, s.off);
           && Holds(slices, [], p) && Flat(slices, p.blocks) == [] == old(Contents()) && !HasLink(p, s)
           && Transfer(old(mgr.pool), p, old(Owned()), Owned())
           && mgr.pool == Cleared(p, s.off)
    {
      hide PoolOk;
      hide SlicesOk;
      hide SliceOk;
      hide Apart;
      hide Flat;
      hide Transfer;
      hide Recycled;
      hide Offs;
      hide Holds;
      hide Marked;
      hide Cleared;
      CleanPinned();
      if len == 0 && |slices| == 1 {
        if slices[0].isShm {
          ghost var q, own := mgr.pool, Owned();
          ResetHeld(slices, q);
          var s := slices[0];
          slices := [s.(start := 0, read := 0, write := 0)];
          mgr.pool := mgr.pool.(blocks := mgr.pool.blocks[s.off := Reset(mgr.pool.blocks[s.off])]);
          TransferThen(old(mgr.pool), q, Marked(mgr.pool, s.off), old(Owned()), own, Owned());
        } else {
          NoSlices([], mgr.pool);
          HeapOnly(slices);
          slices := [];
        }
        if |slices| == 0 {
          cursor := NoCursor;
        }
      }
    }

    /** `recycle`: every slice of the list goes back; the pinned list is left alone. */
    method RecycleAll()
      requires Backed(slices, mgr.pool)
      modifies this, mgr
      ensures slices == [] && pinned == old(pinned) && fromShm && cursor == NoCursor && len == 0 && !currentPinned
      ensures Owned() == Offs(pinned) && mgr.pool == RecycledAll(old(mgr.pool), old(slices))
      ensures old(Sound()) ==>
        Valid() && Contents() == [] && Transfer(old(mgr.pool), mgr.pool, old(Owned()), Owned())
    {
      hide PoolOk;
      hide SlicesOk;
      hide SliceOk;
      hide Apart;
      hide Offs;
      hide Transfer;
      hide Recycled;
      hide Holds;
      ghost var p, sound := mgr.pool, Sound();
      if sound {
        HoldsUsed(slices, pinned, p);
        TransferSelf(p, Offs(pinned + slices));
      }
      while slices != []
        invariant Backed(slices, mgr.pool) && RecycledAll(mgr.pool, slices) == RecycledAll(p, old(slices))
        invariant pinned == old(pinned)
        invariant sound ==> Holds(slices, pinned, mgr.pool) && Transfer(p, mgr.pool, old(Owned()), Owned())
        decreases |slices|
      {
        ghost var q, own := mgr.pool, Owned();
        var s := slices[0];
        assert s.isShm ==> s.off in q.blocks;
        BackedRest(slices, q);
        if sound {
          DropFront(slices, pinned, q);
          HoldsFront(slices, pinned, q);
        }
        slices := slices[1..];
        RecycledHeap(q, s);
        if s.isShm {
          mgr.Recycle(s);
        }
        if sound { TransferThen(p, q, mgr.pool, old(Owned()), own, Owned()); }
      }
      if sound { NoSlices(pinned, mgr.pool); }
      assert pinned + [] == pinned;
      cursor, fromShm, currentPinned, len := NoCursor, true, false, 0;
    }

    /** `clean`: the list is forgotten, its blocks now belong to the peer. */
    method Clean()
      requires Sound()
      modifies this
      ensures Valid() && Contents() == [] && slices == [] && pinned == old(pinned) && fromShm && !currentPinned
      ensures Owned() == Offs(pinned) && old(Owned()) == Owned() + Offs(old(slices))
    {
      hide PoolOk;
      hide SliceOk;
      hide Offs;
      OffsConcat(pinned, slices);
      ApartPrefix(pinned, slices);
      slices := [];
      assert pinned + [] == pinned;
      cursor, fromShm, currentPinned, len := NoCursor, true, false, 0;
    }
  }

  lemma HoldsFront(slices: seq<Slice>, pinned: seq<Slice>, p: Pool)
    requires Holds(slices, pinned, p) && slices != []
    ensures PoolOk(p) && SliceOk(slices[0], p.blocks)
  {
    hide PoolOk;
  }

  lemma HoldsBacked(slices: seq<Slice>, pinned: seq<Slice>, p: Pool)
    requires Holds(slices, pinned, p)
    ensures Backed(slices, p)
  {
    hide PoolOk;
    forall i | 0 <= i < |slices| && slices[i].isShm ensures slices[i].off in p.blocks {
      assert SliceOk(slices[i], p.blocks);
    }
  }

  lemma NoSlices(pinned: seq<Slice>, p: Pool)
    requires exists slices :: Holds(slices, pinned, p)
    ensures Holds([], pinned, p) && Flat([], p.blocks) == [] && pinned + [] == pinned
  {
    hide PoolOk;
    hide SliceOk;
    var slices :| Holds(slices, pinned, p);
    ApartPrefix(pinned, slices);
    assert pinned + [] == pinned;
  }

  lemma RecycledHeap(p: Pool, s: Slice)
    requires s.isShm ==> s.off in p.blocks
    ensures !s.isShm ==> Recycled(p, s) == p
  {
  }

  lemma HeapOnly(slices: seq<Slice>)
    requires |slices| == 1 && !slices[0].isShm
    ensures Offs([] + slices) == {} == Offs([] + [])
  {
    assert [] + slices == [slices[0]];
  }

  /** All there is to read is in the only slice. */
  lemma OnlySize(slices: seq<Slice>, p: Pool)
    requires SlicesOk(slices, p.blocks)
    ensures |slices| == 1 ==> |Flat(slices, p.blocks)| == Size(slices[0])
  {
    hide SliceOk;
    if |slices| == 1 {
      FlatHead(slices, p.blocks);
      FlatPast(slices[1..], p);
    }
  }

  /** A slice that is reset with its block still counts as held, once the bit is put back. */
  lemma ResetHeld(slices: seq<Slice>, p: Pool)
    requires Holds(slices, [], p) && |slices| == 1 && slices[0].isShm
    ensures slices[0].off in p.blocks
    ensures var s := slices[0].(start := 0, read := 0, write := 0);
            var c := Cleared(p, s.off);
            && s.off in c.blocks && !c.blocks[s.off].inUsed && c == p.(blocks := p.blocks[s.off := Reset(p.blocks[s.off])])
            && var q := Marked(c, s.off);
               && Holds([s], [], q) && Flat([s], q.blocks) == [] && !HasLink(q, s)
               && Transfer(p, q, Offs([] + slices), Offs([] + [s]))
               && c == Cleared(q, s.off)
  {
    hide PoolOk;
    hide Apart;
    hide Offs;
    hide Transfer;
    hide Cleared;
    hide Marked;
    assert SliceOk(slices[0], p.blocks);
    var o, s := slices[0].off, slices[0].(start := 0, read := 0, write := 0);
    ClearedThenMarked(p, o);
    var q := Marked(Cleared(p, o), o);
    assert [] + slices == [slices[0]] && [] + [s] == [s];
    assert SliceOk(s, q.blocks);
    FlatHead([s], q.blocks);
    OnlyOff(slices[0]);
    OnlyOff(s);
  }

  lemma OnlyOff(s: Slice)
    requires s.isShm
    ensures Offs([s]) == {s.off} && Apart([s])
  {
  }

  lemma ClearedThenMarked(p: Pool, o: nat)
    requires PoolOk(p) && o in Used(p)
    ensures var c := Cleared(p, o);
            && c == p.(blocks := p.blocks[o := Reset(p.blocks[o])])
            && o in c.blocks && !c.blocks[o].inUsed
            && var q := Marked(c, o);
               && PoolOk(q) && q.blocks == p.blocks[o := Reset(p.blocks[o]).(inUsed := true)]
               && Transfer(p, q, {o}, {o}) && c == Cleared(q, o)
  {
    hide PoolOk;
    HeldHeader(p, o, Reset(p.blocks[o]).(inUsed := true));
    var q := Marked(Cleared(p, o), o);
    assert q == p.(blocks := p.blocks[o := Reset(p.blocks[o]).(inUsed := true)]);
    assert Cleared(p, o) == Cleared(q, o);
  }

  // ---------------------------------------------------------------------------------------------
  // What writing adds, and where it lies
  // ---------------------------------------------------------------------------------------------

  function Max(a: int, b: int): int { if a < b then b else a }

  /** From slice `n` on everything is in shared memory. */
  predicate ShmFrom(slices: seq<Slice>, n: nat) {
    forall i | n <= i < |slices| :: slices[i].isShm
  }

  /** The list grew at its end, the flag says whether all that was added is in shared memory, and the
      pool has not got more to give. */
  predicate Enlarged(was: seq<Slice>, now: seq<Slice>, before: bool, after: bool, p: Pool, q: Pool) {
    && |was| <= |now| && (forall i | 0 <= i < |was| :: now[i].isShm == was[i].isShm)
    && (after <==> before && ShmFrom(now, |was|))
    && NoMore(p, q)
  }

  /** A heap slice was added only if no class has a buffer to give. */
  predicate Spared(was: seq<Slice>, now: seq<Slice>, q: Pool) {
    ShmFrom(now, |was|) || Exhausted(q)
  }

  /** At most the last of the added slices is on the heap, as large as what is missing and not smaller
      than the default. */
  predicate HeapTail(got: seq<Slice>, size: nat) {
    forall k | 0 <= k < |got| && !got[k].isShm ::
      k == |got| - 1 && size > SumCap(got[..k]) && got[k].cap == Max(DEFAULT_SINGLE_BUFFER_SIZE, size - SumCap(got[..k]))
  }

  lemma HeapTailNone(got: seq<Slice>, size: nat)
    requires AllShm(got)
    ensures HeapTail(got, size)
  {
  }

  lemma HeapTailOne(got: seq<Slice>, h: Slice, size: nat)
    requires AllShm(got) && size > SumCap(got) && h.cap == Max(DEFAULT_SINGLE_BUFFER_SIZE, size - SumCap(got))
    ensures HeapTail(got + [h], size)
  {
    assert (got + [h])[..|got|] == got;
  }

  lemma EnlargedNot(slices: seq<Slice>, shm: bool, p: Pool)
    ensures Enlarged(slices, slices, shm, shm, p, p) && Spared(slices, slices, p)
  {
  }

  lemma EnlargedBy(was: seq<Slice>, got: seq<Slice>, shm: bool, p: Pool, q: Pool)
    requires AllShm(got) && NoMore(p, q)
    ensures Enlarged(was, was + got, shm, shm, p, q) && Spared(was, was + got, q) && ShmFrom(was + got, |was|)
  {
  }

  lemma EnlargedHeap(was: seq<Slice>, got: seq<Slice>, h: Slice, shm: bool, p: Pool, q: Pool)
    requires AllShm(got) && !h.isShm && NoMore(p, q)
    ensures Enlarged(was, was + got + [h], shm, false, p, q)
    ensures Exhausted(q) ==> Spared(was, was + got + [h], q)
  {
    assert (was + got + [h])[|was| + |got|] == h;
  }

  /** Two steps of growth are one. */
  lemma EnlargedThen1(a: seq<Slice>, b: seq<Slice>, c: seq<Slice>, x: bool, y: bool, z: bool, p: Pool, q: Pool, r: Pool)
    requires Enlarged(a, b, x, y, p, q) && Enlarged(b, c, y, z, q, r)
    ensures Enlarged(a, c, x, z, p, r)
  {
  }

  lemma EnlargedThen(a: seq<Slice>, b: seq<Slice>, c: seq<Slice>, x: bool, y: bool, z: bool, p: Pool, q: Pool, r: Pool)
    requires Enlarged(a, b, x, y, p, q) && Enlarged(b, c, y, z, q, r) && Spared(a, b, q) && Spared(b, c, r)
    ensures Enlarged(a, c, x, z, p, r) && Spared(a, c, r)
  {
  }

  lemma ShmFromThen(a: seq<Slice>, b: seq<Slice>, c: seq<Slice>, x: bool, y: bool, z: bool, p: Pool, q: Pool, r: Pool,
                    size: nat)
    requires Enlarged(a, b, x, y, p, q) && Enlarged(b, c, y, z, q, r)
    requires (ShmFrom(b, |a|) || !Fits(q, size)) && (ShmFrom(c, |b|) || !Fits(r, size))
    ensures ShmFrom(c, |a|) || !Fits(r, size)
  {
    FirstFitSame(q.lists, r.lists, size);
  }

  lemma {:induction false} FirstFitSame(a: seq<FreeList>, b: seq<FreeList>, size: nat)
    requires |a| == |b| && forall i | 0 <= i < |a| :: b[i].cap == a[i].cap
    ensures FirstFit(a, size) == FirstFit(b, size)
  {
    var i := FirstFit(a, size);
    if i < |a| { FirstFitIs(b, size, i); } else { FirstFitNone(b, size); }
  }

  lemma SparedFits(was: seq<Slice>, now: seq<Slice>, q: Pool, size: nat)
    ensures was == now || Spared(was, now, q) ==> ShmFrom(now, |was|) || !Fits(q, size)
  {
  }

  lemma EnlargedSame(was: seq<Slice>, now: seq<Slice>, n: nat, shm: bool, p: Pool, q: Pool)
    requires n < |was| == |now| && now[n].isShm == was[n].isShm && q.lists == p.lists
    requires forall i | 0 <= i < |was| && i != n :: now[i] == was[i]
    ensures Enlarged(was, now, shm, shm, p, q) && Spared(was, now, q)
  {
  }

  lemma EnlargedRewritten(was: seq<Slice>, now: seq<Slice>, n: nat, k: nat, shm: bool, p: Pool, q: Pool)
    requires Rewritten(was, now, n, k) && q.lists == p.lists
    ensures Enlarged(was, now, shm, shm, p, q) && Spared(was, now, q)
  {
    EnlargedSame(was, now, n, shm, p, q);
  }

  lemma FitsHas(p: Pool, size: nat)
    requires Fits(p, size)
    ensures FirstFit(p.lists, size) < |p.lists| && CanPop(p.lists[FirstFit(p.lists, size)])
  {
  }

  /** The class of the request has a buffer to give. */
  predicate Fits(p: Pool, size: nat) {
    var i := FirstFit(p.lists, size);
    i < |p.lists| && CanPop(p.lists[i])
  }

  /** The one slice of a request that fits its class: before the write it has room for all of it. */
  predicate OneRoom(slices: seq<Slice>, n: nat, size: nat) {
    |slices| == 1 && slices[0].isShm && (n < size ==> n == 0 && Remain(slices[0]) >= size)
  }

  lemma OneRoomShm(slices: seq<Slice>, n: nat, size: nat)
    requires OneRoom(slices, n, size)
    ensures |slices| == 1 && slices[0].isShm
  {
  }

  lemma OneRoomFirst(slices: seq<Slice>, size: nat)
    requires Grown(slices, size) && |slices| == 1 && slices[0].isShm
    ensures OneRoom(slices, 0, size)
  {
    SumCapAppend([], slices[0]);
    assert [] + [slices[0]] == slices;
  }

  lemma OneRoomStep(was: seq<Slice>, now: seq<Slice>, i: nat, k: nat, n: nat, size: nat)
    requires OneRoom(was, n, size) && Rewritten(was, now, i, k) && n < size && k == Min(size - n, Remain(was[i]))
    ensures n + k == size && OneRoom(now, n + k, size)
  {
  }

  /** What an allocation of `size` bytes adds: fresh slices that cover it, none of them in excess. */
  predicate Grown(got: seq<Slice>, size: nat) {
    && (forall k | 0 <= k < |got| :: FreshSlice(got[k]))
    && SumCap(got) >= size
    && (size > 0 ==> got != [] && SumCap(got[..|got| - 1]) < size)
    && (size == 0 ==> |got| <= 1)
  }

  /** A list that has only been written to: nothing read from it, no block linked. */
  predicate SendOnly(slices: seq<Slice>, p: Pool) {
    forall i | 0 <= i < |slices| :: slices[i].start == 0 && slices[i].read == 0 && !HasLink(p, slices[i])
  }

  lemma HoldsPool(slices: seq<Slice>, pinned: seq<Slice>, p: Pool)
    requires Holds(slices, pinned, p)
    ensures PoolOk(p)
  {
  }

  lemma AddAllocated(slices: seq<Slice>, pinned: seq<Slice>, p: Pool, q: Pool, got: seq<Slice>)
    requires Holds(slices, pinned, p) && Allocated(p, q, got)
    ensures Holds(slices + got, pinned, q)
    ensures Flat(slices + got, q.blocks) == Flat(slices, p.blocks)
    ensures Transfer(p, q, Offs(pinned + slices), Offs(pinned + (slices + got)))
    ensures (slices + got)[|slices|..] == got && (slices + got)[..|slices|] == slices
    ensures AllShm(got) && (AllShm(slices) ==> AllShm(slices + got))
    ensures SendOnly(slices, p) ==> SendOnly(slices + got, q)
  {
    hide Holds;
    hide Transfer;
    hide Flat;
    JoinAllocated(slices, pinned, p, q, got);
    if SendOnly(slices, p) { JoinSendOnly(slices, p, q, got, pinned); }
    AllocatedGrown(p, q, got);
  }

  lemma AddHeap(slices: seq<Slice>, pinned: seq<Slice>, p: Pool, h: Slice, n: nat)
    requires Holds(slices, pinned, p) && n <= |slices| && EmptyHeap(h)
    ensures Holds(slices + [h], pinned, p)
    ensures Flat(slices + [h], p.blocks) == Flat(slices, p.blocks)
    ensures Offs(pinned + (slices + [h])) == Offs(pinned + slices)
    ensures (slices + [h])[n..] == slices[n..] + [h] && (slices + [h])[..n] == slices[..n]
    ensures SendOnly(slices, p) ==> SendOnly(slices + [h], p)
  {
    AddHeapSlicing(slices, h, n);
    AddHeapSendOnly(slices, p, h);
    HeapSliceOk(h, p);
    assert !h.isShm;
    hide EmptyHeap;
    hide Holds;
    hide Flat;
    hide Unread;
    hide SliceOk;
    hide Offs;
    hide SendOnly;
    JoinHeap(slices, pinned, p, h);
  }

  lemma AddHeapSlicing(slices: seq<Slice>, h: Slice, n: nat)
    requires n <= |slices|
    ensures (slices + [h])[n..] == slices[n..] + [h] && (slices + [h])[..n] == slices[..n]
  {
  }

  lemma AddHeapSendOnly(slices: seq<Slice>, p: Pool, h: Slice)
    requires EmptyHeap(h)
    ensures SendOnly(slices, p) ==> SendOnly(slices + [h], p)
  {
    var more := slices + [h];
    if SendOnly(slices, p) {
      forall i | 0 <= i < |more| ensures more[i].start == 0 && more[i].read == 0 && !HasLink(p, more[i]) {
        if i < |slices| { assert more[i] == slices[i]; } else { assert more[i] == h; }
      }
    }
  }

  lemma HeapSliceOk(h: Slice, p: Pool)
    requires EmptyHeap(h)
    ensures SliceOk(h, p.blocks) && Unread(h, p.blocks) == []
  {
  }

  lemma GrownOne(s: Slice, size: nat, p: Pool, q: Pool)
    requires Allocated(p, q, [s]) && s.cap >= size
    ensures Grown([s], size) && s.isShm
  {
    AllocatedGrown(p, q, [s]);
    SumCapAppend([], s);
    assert [] + [s] == [s] && [s][..0] == [];
    assert FreshSlice([s][0]) && [s][0].isShm;
  }

  lemma GrownMany(p: Pool, q: Pool, got: seq<Slice>, size: nat)
    requires Allocated(p, q, got) && (got != [] ==> SumCap(got[..|got| - 1]) < size)
    ensures SumCap(got) >= size ==> Grown(got, size)
  {
    AllocatedGrown(p, q, got);
  }

  lemma GrownHeap(p: Pool, q: Pool, got: seq<Slice>, h: Slice, size: nat)
    requires Allocated(p, q, got) && SumCap(got) < size <= SumCap(got) + h.cap && EmptyHeap(h)
    ensures Grown(got + [h], size)
  {
    AllocatedGrown(p, q, got);
    SumCapAppend(got, h);
    assert (got + [h])[..|got|] == got;
  }

  lemma AllocatedGrown(p: Pool, q: Pool, got: seq<Slice>)
    requires Allocated(p, q, got)
    ensures AllShm(got) && forall k | 0 <= k < |got| :: FreshSlice(got[k])
  {
    hide PoolOk;
  }

  lemma JoinSendOnly(slices: seq<Slice>, p: Pool, q: Pool, got: seq<Slice>, pinned: seq<Slice>)
    requires Holds(slices, pinned, p) && Allocated(p, q, got) && SendOnly(slices, p)
    ensures SendOnly(slices + got, q)
  {
    hide PoolOk;
    hide Apart;
    forall i | 0 <= i < |slices| && slices[i].isShm ensures slices[i].off in Used(p) {
      assert SliceOk(slices[i], p.blocks);
    }
  }

  /** Only slice `n` changed, by `k` bytes at its end. */
  predicate Rewritten(was: seq<Slice>, now: seq<Slice>, n: nat, k: nat) {
    && |now| == |was| && n < |was|
    && (forall i | 0 <= i < |was| && i != n :: now[i] == was[i])
    && now[n].isShm == was[n].isShm && now[n].cap == was[n].cap && now[n].write == was[n].write + k
    && now[n].read == was[n].read && now[n].start == was[n].start
  }

  /** `left` bytes are still to be written at slice `n`: behind it come only fresh slices, and
      without the last of them there would not be room. */
  predicate Underway(slices: seq<Slice>, n: nat, left: nat) {
    && n < |slices|
    && (forall k | n < k < |slices| :: FreshSlice(slices[k]))
    && (n + 1 < |slices| ==> Remain(slices[n]) + SumCap(slices[n + 1..|slices| - 1]) < left)
  }

  lemma SliceAt(slices: seq<Slice>, p: Pool, n: nat)
    requires SlicesOk(slices, p.blocks) && n < |slices|
    ensures SliceOk(slices[n], p.blocks) && Remain(slices[n]) >= 0 && Size(slices[n]) >= 0
    ensures |Storage(slices[n], p.blocks)| == slices[n].cap
  {
  }

  lemma WrittenSendOnly(slices: seq<Slice>, p: Pool, n: nat, b: seq<Byte>)
    requires n < |slices| && SliceOk(slices[n], p.blocks) && |b| <= Remain(slices[n])
    ensures var (t, q) := Written(slices[n], p, b);
            Rewritten(slices, slices[n := t], n, |b|) && (SendOnly(slices, p) ==> SendOnly(slices[n := t], q))
  {
  }

  lemma UnderwayFirst(slices: seq<Slice>, size: nat)
    requires Grown(slices, size) && size > 0
    ensures Underway(slices, 0, size) && Remain(slices[0]) > 0
  {
    if |slices| > 1 {
      assert slices[..|slices| - 1] == [slices[0]] + slices[1..|slices| - 1];
      SumCapCons(slices[0], slices[1..|slices| - 1]);
    }
  }

  lemma UnderwayLast(slices: seq<Slice>, size: nat)
    requires slices != []
    ensures Underway(slices, |slices| - 1, size)
  {
  }

  lemma UnderwayEmpty(slices: seq<Slice>, n: nat, left: nat)
    requires Underway(slices, n, left)
    ensures AllEmpty(slices[n + 1..])
  {
    var back := slices[n + 1..];
    forall i | 0 <= i < |back| ensures Size(back[i]) == 0 {
      assert back[i] == slices[n + 1 + i];
    }
  }

  lemma RewrittenShm(was: seq<Slice>, now: seq<Slice>, n: nat, k: nat)
    requires Rewritten(was, now, n, k)
    ensures AllShm(was) <==> AllShm(now)
    ensures |now| == |was| && now[n].isShm == was[n].isShm
  {
    forall i | 0 <= i < |was| ensures now[i].isShm == was[i].isShm {}
  }

  lemma UnderwayNext(was: seq<Slice>, now: seq<Slice>, n: nat, left: nat, k: nat)
    requires Underway(was, n, left) && Rewritten(was, now, n, k) && k == Remain(was[n]) < left
    ensures n + 1 < |now| ==> Underway(now, n + 1, left - k) && Remain(now[n + 1]) > 0
  {
    if n + 1 < |now| {
      var last := |now| - 1;
      assert now[n + 1..last] == was[n + 1..last];
      if n + 2 < |now| {
        assert now[n + 1..last] == [now[n + 1]] + now[n + 2..last];
        SumCapCons(now[n + 1], now[n + 2..last]);
      }
    }
  }

  lemma UnderwayAlloc(was: seq<Slice>, now: seq<Slice>, left: nat)
    requires |was| <= |now| && now[..|was|] == was && Grown(now[|was|..], left) && left > 0
    ensures Underway(now, |was|, left) && Remain(now[|was|]) > 0
  {
    var n, got := |was|, now[|was|..];
    forall k | n <= k < |now| ensures FreshSlice(now[k]) { assert now[k] == got[k - n]; }
    UnderwayFirst(got, left);
    if n + 1 < |now| {
      assert got[1..|got| - 1] == now[n + 1..|now| - 1];
    }
  }

  lemma UnderwayDone(was: seq<Slice>, now: seq<Slice>, n: nat, left: nat, k: nat)
    requires Underway(was, n, left) && Rewritten(was, now, n, k) && k == left <= Remain(was[n])
    ensures n == |now| - 1
  {
  }

  /** `now` is `was` with `k` more bytes. */
  predicate Extends(was: seq<Byte>, now: seq<Byte>, k: nat) {
    |now| == |was| + k && now[..|was|] == was
  }

  /** After an allocation, only the last slice can hold the whole request. */
  lemma FirstTwo(slices: seq<Slice>, size: nat)
    requires Grown(slices, size) && (size > 0 || |slices| == 1)
    ensures slices != [] && (Remain(slices[0]) >= size ==> |slices| == 1)
    ensures |slices| >= 2 && Remain(slices[1]) >= size ==> |slices| == 2
    ensures |slices| == 1 ==> Remain(slices[0]) >= size
  {
    var front := slices[..|slices| - 1];
    if |slices| == 1 {
      assert slices == [] + [slices[0]];
      SumCapAppend([], slices[0]);
    }
    if |slices| >= 2 {
      assert front == [slices[0]] + front[1..];
      SumCapCons(slices[0], front[1..]);
    }
    if |slices| >= 3 {
      assert front[1..] == [slices[1]] + front[2..];
      SumCapCons(slices[1], front[2..]);
    }
  }

  lemma OneFresh(s: Slice, p: Pool, q: Pool)
    requires Allocated(p, q, [s])
    ensures FreshSlice(s)
  {
    AllocatedGrown(p, q, [s]);
    assert FreshSlice([s][0]);
  }

  lemma RewrittenSize(was: seq<Slice>, now: seq<Slice>, n: nat, k: nat)
    requires Rewritten(was, now, n, k) && Size(was[n]) >= 0
    ensures Size(now[n]) >= k
  {
  }

  lemma UnreadShorter(s: Slice, blocks: map<nat, Block>, k: nat)
    requires SliceOk(s, blocks) && k <= Size(s)
    ensures var t := s.(write := s.write - k);
            SliceOk(t, blocks) && Unread(t, blocks) == Unread(s, blocks)[..Size(s) - k] && Remain(t) >= k
  {
    var st := Storage(s, blocks);
    assert st[s.read..s.write][..Size(s) - k] == st[s.read..s.write - k];
  }

  /** Taking the last `k` bytes back. */
  lemma Unwrite(slices: seq<Slice>, pinned: seq<Slice>, p: Pool, k: nat)
    requires Holds(slices, pinned, p) && slices != [] && k <= Size(slices[|slices| - 1])
    ensures var n := |slices| - 1;
            var s := slices[n].(write := slices[n].write - k);
            var less := slices[n := s];
            && Holds(less, pinned, p) && SliceOk(s, p.blocks) && Remain(s) >= k
            && k <= |Flat(slices, p.blocks)|
            && Flat(less, p.blocks) == Flat(slices, p.blocks)[..|Flat(slices, p.blocks)| - k]
            && Offs(pinned + less) == Offs(pinned + slices)
  {
    hide PoolOk;
    hide SliceOk;
    hide Unread;
    hide Flat;
    hide Apart;
    hide Offs;
    var n := |slices| - 1;
    var s := slices[n].(write := slices[n].write - k);
    var less := slices[n := s];
    assert slices[n + 1..] == [] && less[n + 1..] == [];
    FlatAt(slices, p.blocks, n);
    UnreadShorter(slices[n], p.blocks, k);
    assert less[..n] == slices[..n];
    UpdatedOk(slices, p.blocks, n, s);
    FlatAt(less, p.blocks, n);
    SameOffs(pinned + slices, pinned + less);
  }

  lemma UnwriteSendOnly(slices: seq<Slice>, p: Pool, k: nat)
    requires slices != [] && k <= slices[|slices| - 1].write
    ensures var n := |slices| - 1;
            var less := slices[n := slices[n].(write := slices[n].write - k)];
            && (SendOnly(slices, p) ==> SendOnly(less, p))
            && (AllShm(slices) <==> AllShm(less))
  {
    var n := |slices| - 1;
    var less := slices[n := slices[n].(write := slices[n].write - k)];
    forall i | 0 <= i < |slices| ensures less[i].isShm == slices[i].isShm && less[i].off == slices[i].off {}
  }

  lemma OffsNone()
    ensures Offs([]) == {}
  {
  }

  lemma ApartPrefix(a: seq<Slice>, b: seq<Slice>)
    requires Apart(a + b)
    ensures Apart(a)
  {
    forall i | 0 <= i < |a| ensures (a + b)[i] == a[i] {}
  }

  /** A slice's `peek`. */
  function PeekSlice(s: Slice, p: Pool, size: nat): (b: seq<Byte>)
    requires SliceOk(s, p.blocks)
    ensures b == Unread(s, p.blocks)[..Min(size, Size(s))]
  {
    var st, k := Storage(s, p.blocks), Min(size, Size(s));
    assert st[s.read..s.write][..k] == st[s.read..s.read + k];
    st[s.read..s.read + k]
  }

  lemma FlatPast(slices: seq<Slice>, p: Pool)
    requires SlicesOk(slices, p.blocks)
    ensures slices == [] ==> Flat(slices, p.blocks) == []
  {
  }

  function Min(a: nat, b: int): int {
    if a <= b then a else b
  }

  /** The bytes of a view are the bytes of its block. */
  predicate ViewBacked(p: Pool, r: ReadResult)
    requires r.View?
  {
    && r.off in p.blocks
    && r.from + |r.bytes| <= |p.blocks[r.off].data|
    && p.blocks[r.off].data[r.from..r.from + |r.bytes|] == r.bytes
  }

  lemma FrontFacts(slices: seq<Slice>, p: Pool)
    requires SlicesOk(slices, p.blocks) && slices != []
    ensures SliceOk(slices[0], p.blocks)
    ensures AllShm(slices) ==> AllShm(slices[1..])
  {
  }

  /** While bytes are left there is a front slice, and an empty one is not the last. */
  lemma NotLast(slices: seq<Slice>, p: Pool)
    requires SlicesOk(slices, p.blocks) && Flat(slices, p.blocks) != []
    ensures slices != [] && SliceOk(slices[0], p.blocks)
    ensures Size(slices[0]) == 0 ==> |slices| >= 2
  {
    FlatHead(slices, p.blocks);
  }
}
