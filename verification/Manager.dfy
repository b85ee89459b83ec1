/** `BufferManager`: allocation and recycling over all buffer classes. */
module Manager {
  import opened Basics
  import opened BufferPool

  /** The smallest class that holds `size` bytes. */
  function FirstFit(lists: seq<FreeList>, size: nat): (i: nat)
    ensures i <= |lists|
    ensures i < |lists| ==> size <= lists[i].cap
    ensures forall j | 0 <= j < i :: lists[j].cap < size
  {
    if lists == [] || size <= lists[0].cap then 0 else 1 + FirstFit(lists[1..], size)
  }

  /** Every class is down to the buffer it keeps. */
  predicate Exhausted(p: Pool) {
    forall i | 0 <= i < |p.lists| :: !CanPop(p.lists[i])
  }

  /** The same classes, and none that has a buffer to give now had none before. */
  predicate NoMore(p: Pool, q: Pool) {
    |q.lists| == |p.lists|
    && forall i | 0 <= i < |p.lists| :: q.lists[i].cap == p.lists[i].cap && (CanPop(q.lists[i]) ==> CanPop(p.lists[i]))
  }

  lemma PoppedNoMore(p: Pool, i: nat)
    requires i < |p.lists| && CanPop(p.lists[i]) && p.lists[i].free[0] in p.blocks
    ensures NoMore(p, Popped(p, i))
  {
  }

  lemma FirstFitIs(lists: seq<FreeList>, size: nat, i: nat)
    requires i < |lists| && size <= lists[i].cap && forall j | 0 <= j < i :: lists[j].cap < size
    ensures FirstFit(lists, size) == i
  {
  }

  lemma FirstFitNone(lists: seq<FreeList>, size: nat)
    requires forall j | 0 <= j < |lists| :: lists[j].cap < size
    ensures FirstFit(lists, size) == |lists|
  {
  }

  lemma Descending(p: Pool, i: nat)
    requires PoolOk(p) && i < |p.lists|
    ensures forall j | 0 <= j <= i :: p.lists[j].cap <= p.lists[i].cap
  {
  }

  /** Partway down the classes: the request was not covered before the last slice, and what comes
      next is no larger than what was taken first. */
  predicate Covers(p: Pool, got: seq<Slice>, size: nat, i: nat)
    requires i <= |p.lists|
  {
    got != [] ==>
      && SumCap(got[..|got| - 1]) < size
      && (forall k | 0 <= k < |got| :: got[k].cap <= got[0].cap)
      && (forall j | 0 <= j < i :: p.lists[j].cap <= got[0].cap)
  }

  lemma CoversMore(p: Pool, got: seq<Slice>, size: nat, i: nat)
    requires PoolOk(p) && i < |p.lists| && CanPop(p.lists[i]) && p.lists[i].free[0] in p.blocks
    requires Covers(p, got, size, i + 1) && SumCap(got) < size
    ensures var more, q := got + [PoppedSlice(p, i)], Popped(p, i);
            Covers(q, more, size, i + 1) && SumCap(more) == SumCap(got) + PoppedSlice(p, i).cap
            && |q.lists| == |p.lists| && forall j | i < j < |p.lists| :: q.lists[j] == p.lists[j]
  {
    PoppedSliceOk(p, i);
    Descending(p, i);
    SumCapAppend(got, PoppedSlice(p, i));
    var more := got + [PoppedSlice(p, i)];
    assert more[..|more| - 1] == got;
  }

  /** No buffer was taken while a larger one was there to take. */
  predicate TopDown(p: Pool, got: seq<Slice>) {
    forall k, j | 0 <= k < |got| && 0 <= j < |p.lists| && CanPop(p.lists[j]) :: p.lists[j].cap <= got[k].cap
  }

  lemma NothingYet(p: Pool)
    ensures NoMore(p, p) && TopDown(p, [])
  {
  }

  lemma TopDownMore(p0: Pool, p: Pool, got: seq<Slice>, i: nat)
    requires PoolOk(p) && i < |p.lists| && CanPop(p.lists[i]) && p.lists[i].free[0] in p.blocks
    requires NoMore(p0, p) && TopDown(p, got) && forall j | i < j < |p.lists| :: !CanPop(p.lists[j])
    ensures NoMore(p0, Popped(p, i)) && TopDown(Popped(p, i), got + [PoppedSlice(p, i)])
  {
    hide PoolOk;
    Descending(p, i);
    PoppedSliceOk(p, i);
    PoppedNoMore(p, i);
    hide PoppedSlice;
  }

  /** The classes from `i` on have no buffer to give. */
  predicate Drained(p: Pool, i: nat) {
    forall j | i <= j < |p.lists| :: !CanPop(p.lists[j])
  }

  lemma StillDrained(p: Pool, i: nat)
    requires i < |p.lists| && CanPop(p.lists[i]) && p.lists[i].free[0] in p.blocks && Drained(p, i + 1)
    ensures Drained(Popped(p, i), i + 1) && |Popped(p, i).lists| == |p.lists|
  {
  }

  /** The first buffer of an allocation is of the largest class. */
  predicate Begun(p0: Pool, p: Pool, got: seq<Slice>) {
    if got == [] then p == p0 else LargestFirst(p0, got[0])
  }

  /** The loops of `alloc_shm_buffers`, with the classes below `n` to come. */
  ghost predicate Going(p0: Pool, p: Pool, got: seq<Slice>, size: nat, n: nat) {
    && Allocated(p0, p, got) && n <= |p.lists| && Covers(p, got, size, n)
    && Begun(p0, p, got) && NoMore(p0, p) && TopDown(p, got)
  }

  lemma GoingDown(p0: Pool, p: Pool, got: seq<Slice>, size: nat, i: nat)
    requires Going(p0, p, got, size, i + 1)
    ensures Going(p0, p, got, size, i)
  {
    hide Allocated;
    hide NoMore;
    hide TopDown;
    hide Begun;
  }

  lemma Ending(p0: Pool, p: Pool, got: seq<Slice>, size: nat, n: nat)
    requires Going(p0, p, got, size, n)
    ensures got != [] ==> SumCap(got[..|got| - 1]) < size
    ensures forall k | 0 <= k < |got| :: got[k].cap <= got[0].cap
    ensures if got == [] then p == p0 else LargestFirst(p0, got[0])
  {
    hide Allocated;
    hide NoMore;
    hide TopDown;
  }

  /** The slice is of the largest class that has a buffer to give. */
  predicate LargestFirst(p: Pool, s: Slice) {
    && (exists i :: 0 <= i < |p.lists| && CanPop(p.lists[i]) && s.cap == p.lists[i].cap)
    && (forall j | 0 <= j < |p.lists| && CanPop(p.lists[j]) :: p.lists[j].cap <= s.cap)
  }

  lemma LargestIs(p: Pool, i: nat, s: Slice)
    requires PoolOk(p) && i < |p.lists| && CanPop(p.lists[i]) && s.cap == p.lists[i].cap
    requires forall j | i < j < |p.lists| :: !CanPop(p.lists[j])
    ensures LargestFirst(p, s)
  {
    Descending(p, i);
  }

  lemma AllocatedPool(p: Pool, q: Pool, got: seq<Slice>)
    requires Allocated(p, q, got)
    ensures PoolOk(q) && |q.lists| == |p.lists|
  {
  }

  lemma OneAllocated(p: Pool, i: nat)
    requires PoolOk(p) && i < |p.lists| && CanPop(p.lists[i])
    ensures p.lists[i].free[0] in p.blocks
    ensures Allocated(p, Popped(p, i), [PoppedSlice(p, i)])
    ensures PoppedSlice(p, i).cap == p.lists[i].cap
  {
    hide PoolOk;
    AllocatedNone(p);
    PoppedSliceOk(p, i);
    AllocatedMore(p, p, [], i);
    assert [] + [PoppedSlice(p, i)] == [PoppedSlice(p, i)];
  }

  class BufferManager {
    var pool: Pool

    constructor (p: Pool)
      requires PoolOk(p)
      ensures pool == p
    {
      pool := p;
    }

    /** `BufferList::pop` of list `i`. */
    method PopFrom(i: nat) returns (r: Option<Slice>)
      requires PoolOk(pool) && i < |pool.lists|
      modifies this
      ensures r.Some? == CanPop(old(pool).lists[i])
      ensures r == None ==> pool == old(pool)
      ensures r.Some? ==>
        var o := old(pool).lists[i].free[0];
        o in old(pool).blocks && r.value == PoppedSlice(old(pool), i) && pool == Popped(old(pool), i)
    {
      assert ListOk(pool, i);
      if |pool.lists[i].free| <= 1 {
        return None;
      }
      r := Some(PoppedSlice(pool, i));
      pool := Popped(pool, i);
    }

    /** `alloc_shm_buffer`: one buffer of the smallest class that fits, or nothing at all. */
    method AllocBuffer(size: nat) returns (r: Option<Slice>)
      requires PoolOk(pool)
      modifies this
      ensures PoolOk(pool)
      ensures r == None ==> pool == old(pool)
      ensures r.Some? ==> Allocated(old(pool), pool, [r.value])
      ensures NoMore(old(pool), pool)
      ensures var i := FirstFit(old(pool).lists, size);
              && (r.Some? <==> i < |old(pool).lists| && CanPop(old(pool).lists[i]))
              && (r.Some? ==> r.value.cap == old(pool).lists[i].cap)
    {
      assert pool.lists != [];
      Descending(pool, |pool.lists| - 1);
      hide PoolOk;
      hide Popped;
      hide PoppedSlice;
      if size <= pool.lists[|pool.lists| - 1].cap {
        var i := 0;
        while i < |pool.lists|
          invariant 0 <= i <= |pool.lists|
          invariant pool == old(pool)
          invariant forall j | 0 <= j < i :: pool.lists[j].cap < size
        {
          if size <= pool.lists[i].cap {
            FirstFitIs(pool.lists, size, i);
            if CanPop(pool.lists[i]) {
              OneAllocated(pool, i);
              PoppedNoMore(pool, i);
            }
            r := PopFrom(i);
            return;
          }
          i := i + 1;
        }
      }
      FirstFitNone(pool.lists, size);
      r := None;
    }

    /** `alloc_shm_buffers`: buffers from the largest class down until the request is covered. */
    method AllocBuffers(size: nat) returns (got: seq<Slice>, total: nat)
      requires PoolOk(pool)
      modifies this
      ensures Allocated(old(pool), pool, got) && total == SumCap(got)
      ensures total >= size || Exhausted(pool)
      ensures got != [] ==> SumCap(got[..|got| - 1]) < size
      ensures forall k | 0 <= k < |got| :: got[k].cap <= got[0].cap
      ensures if got == [] then pool == old(pool) else LargestFirst(old(pool), got[0])
      ensures NoMore(old(pool), pool) && TopDown(pool, got)
    {
      hide NoMore;
      hide TopDown;
      hide PoolOk;
      hide Allocated;
      hide Popped;
      hide PoppedSlice;
      got, total := [], 0;
      AllocatedNone(pool);
      NothingYet(pool);
      var i := |pool.lists|;
      while i > 0 && total < size
        invariant 0 <= i <= |pool.lists| && total == SumCap(got)
        invariant Going(old(pool), pool, got, size, i)
        invariant total < size ==> Drained(pool, i)
      {
        i := i - 1;
        var more := true;
        while total < size && more
          invariant 0 <= i < |pool.lists| && total == SumCap(got)
          invariant Going(old(pool), pool, got, size, i + 1) && Drained(pool, i + 1)
          invariant !more ==> !CanPop(pool.lists[i])
          decreases more, size - total
        {
          var r := TakeFrom(i, got, size, old(pool));
          if r == None {
            more := false;
          } else {
            got := got + [r.value];
            total := total + r.value.cap;
          }
        }
        GoingDown(old(pool), pool, got, size, i);
      }
      Ending(old(pool), pool, got, size, i);
    }

    /** One pop of the inner loop of `alloc_shm_buffers`. */
    method TakeFrom(i: nat, got: seq<Slice>, ghost size: nat, ghost p0: Pool) returns (r: Option<Slice>)
      requires i < |pool.lists| && Going(p0, pool, got, size, i + 1) && Drained(pool, i + 1) && SumCap(got) < size
      modifies this
      ensures r == None ==> pool == old(pool) && !CanPop(pool.lists[i])
      ensures r.Some? ==>
        && r.value.cap > 0 && SumCap(got + [r.value]) == SumCap(got) + r.value.cap && |pool.lists| == |old(pool).lists|
        && Going(p0, pool, got + [r.value], size, i + 1) && Drained(pool, i + 1)
    {
      hide NoMore;
      hide TopDown;
      hide PoolOk;
      hide Allocated;
      hide Popped;
      hide PoppedSlice;
      hide Covers;
      AllocatedPool(p0, pool, got);
      ghost var p := pool;
      r := PopFrom(i);
      if r.Some? {
        AllocatedMore(p0, p, got, i);
        PoppedSliceOk(p, i);
        CoversMore(p, got, size, i);
        TopDownMore(p0, p, got, i);
        StillDrained(p, i);
        if got == [] {
          LargestIs(p, i, r.value);
        } else {
          assert (got + [r.value])[0] == got[0];
        }
      }
    }

    /** `recycle_buffer`. */
    method Recycle(s: Slice)
      requires s.isShm ==> s.off in pool.blocks
      modifies this
      ensures pool == Recycled(old(pool), s) && (!s.isShm ==> pool == old(pool))
      ensures old(PoolOk(pool)) && (s.isShm ==> old(SliceOk(s, pool.blocks))) ==>
        PoolOk(pool) && Used(pool) == Used(old(pool)) - Offs([s]) && Kept(old(pool), pool, Used(pool))
    {
      OffsAppend([], s);
      assert [] + [s] == [s] && Offs([]) == {};
      if s.isShm {
        if PoolOk(pool) && SliceOk(s, pool.blocks) { RecycledOk(pool, s); }
        pool := Recycled(pool, s);
      }
    }
  }
}
