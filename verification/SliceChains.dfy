/** Lists of slices, some in shared memory and some on the heap: the bytes they stand for, and what
    popping, pinning, recycling, allocating and writing do to those bytes and to the pool. */
module SliceChains {
  import opened Bytes
  import opened BufferPool

  // ---------------------------------------------------------------------------------------------
  // The bytes of a list of slices
  // ---------------------------------------------------------------------------------------------

  function Storage(s: Slice, blocks: map<nat, Block>): seq<Byte>
    requires SliceOk(s, blocks)
  {
    if s.isShm then blocks[s.off].data else s.heap
  }

  function Unread(s: Slice, blocks: map<nat, Block>): (b: seq<Byte>)
    requires SliceOk(s, blocks)
    ensures |b| == Size(s)
  {
    Storage(s, blocks)[s.read..s.write]
  }

  function Flat(ss: seq<Slice>, blocks: map<nat, Block>): seq<Byte>
    requires SlicesOk(ss, blocks)
  {
    if ss == [] then [] else Unread(ss[0], blocks) + Flat(ss[1..], blocks)
  }

  lemma SlicesOkConcat(a: seq<Slice>, b: seq<Slice>, blocks: map<nat, Block>)
    ensures SlicesOk(a + b, blocks) <==> SlicesOk(a, blocks) && SlicesOk(b, blocks)
  {
    forall i | 0 <= i < |a| ensures a[i] == (a + b)[i] {}
    forall i | 0 <= i < |b| ensures b[i] == (a + b)[|a| + i] {}
  }

  lemma {:induction false} FlatConcat(a: seq<Slice>, b: seq<Slice>, blocks: map<nat, Block>)
    requires SlicesOk(a, blocks) && SlicesOk(b, blocks)
    ensures SlicesOk(a + b, blocks) && Flat(a + b, blocks) == Flat(a, blocks) + Flat(b, blocks)
  {
    hide Unread;
    hide SliceOk;
    SlicesOkConcat(a, b, blocks);
    if a == [] {
      assert a + b == b;
    } else {
      assert (a + b)[1..] == a[1..] + b;
      FlatConcat(a[1..], b, blocks);
      assert Flat(a + b, blocks) == Unread(a[0], blocks) + (Flat(a[1..], blocks) + Flat(b, blocks));
    }
  }

  lemma FlatOne(s: Slice, blocks: map<nat, Block>)
    requires SliceOk(s, blocks)
    ensures SlicesOk([s], blocks) && Flat([s], blocks) == Unread(s, blocks)
  {
    assert [s][1..] == [];
  }

  /** The blocks of `ss` have the same data and are still in use. */
  predicate SameData(ss: seq<Slice>, a: map<nat, Block>, b: map<nat, Block>) {
    forall i | 0 <= i < |ss| && ss[i].isShm ::
      var o := ss[i].off;
      o in a && o in b && b[o].inUsed == a[o].inUsed && b[o].cap == a[o].cap && b[o].data == a[o].data
  }

  lemma {:induction false} FlatSame(ss: seq<Slice>, a: map<nat, Block>, b: map<nat, Block>)
    requires SlicesOk(ss, a) && SameData(ss, a, b)
    ensures SlicesOk(ss, b) && Flat(ss, b) == Flat(ss, a)
  {
    forall i | 0 <= i < |ss| ensures SliceOk(ss[i], b) {
      assert SliceOk(ss[i], a);
    }
    if ss != [] {
      forall i | 0 <= i < |ss[1..]| ensures ss[1..][i] == ss[i + 1] {}
      FlatSame(ss[1..], a, b);
    }
  }

  lemma KeptIsSameData(ss: seq<Slice>, p: Pool, q: Pool, keep: set<nat>)
    requires Kept(p, q, keep) && Offs(ss) <= keep
    ensures SameData(ss, p.blocks, q.blocks)
  {
    forall i | 0 <= i < |ss| && ss[i].isShm ensures ss[i].off in keep {
      assert ss[i] in ss;
      assert ss[i].off in Offs(ss);
    }
  }

  // ---------------------------------------------------------------------------------------------
  // Who holds what
  // ---------------------------------------------------------------------------------------------

  /** The pool is intact, and the buffer's slices are blocks in use, each held once. */
  predicate Holds(slices: seq<Slice>, pinned: seq<Slice>, p: Pool) {
    && PoolOk(p)
    && SlicesOk(slices, p.blocks)
    && SlicesOk(pinned, p.blocks)
    && Apart(pinned + slices)
    && (forall i | 0 <= i < |pinned| :: pinned[i].isShm)
  }

  /** Blocks went only between the free lists and this buffer: everyone else's blocks are still in
      use, with the same header and data. */
  predicate Transfer(p: Pool, q: Pool, before: set<nat>, after: set<nat>) {
    && Used(q) == (Used(p) - before) + after
    && after !! (Used(p) - before)
    && before <= Used(p)
    && Kept(p, q, Used(p) - before)
    && q.blocks.Keys == p.blocks.Keys
  }

  lemma TransferSelf(p: Pool, own: set<nat>)
    requires own <= Used(p)
    ensures Transfer(p, p, own, own)
  {
  }

  lemma TransferThen(p: Pool, q: Pool, r: Pool, a: set<nat>, b: set<nat>, c: set<nat>)
    requires Transfer(p, q, a, b) && Transfer(q, r, b, c)
    ensures Transfer(p, r, a, c)
  {
    assert Used(q) - b == Used(p) - a;
  }

  lemma HoldsUsed(slices: seq<Slice>, pinned: seq<Slice>, p: Pool)
    requires Holds(slices, pinned, p)
    ensures Offs(pinned + slices) <= Used(p)
  {
    hide PoolOk;
    forall o | o in Offs(pinned + slices) ensures o in Used(p) {
      var s :| s in pinned + slices && s.isShm && s.off == o;
      var i :| 0 <= i < |pinned + slices| && (pinned + slices)[i] == s;
      SlicesOkConcat(pinned, slices, p.blocks);
      assert SliceOk((pinned + slices)[i], p.blocks);
    }
  }

  predicate Elsewhere(s: Slice, rest: seq<Slice>) {
    forall i | 0 <= i < |rest| && rest[i].isShm :: rest[i].off != s.off
  }

  /** Recycling one held slice leaves the others as they were. */
  lemma RecycleHeld(s: Slice, rest: seq<Slice>, p: Pool)
    requires PoolOk(p) && SliceOk(s, p.blocks) && s.isShm
    requires SlicesOk(rest, p.blocks) && Elsewhere(s, rest)
    ensures var q := Recycled(p, s);
            && PoolOk(q) && SlicesOk(rest, q.blocks) && SameData(rest, p.blocks, q.blocks)
            && Used(q) == Used(p) - {s.off} && Kept(p, q, Used(p) - {s.off}) && q.blocks.Keys == p.blocks.Keys
            && Flat(rest, q.blocks) == Flat(rest, p.blocks)
  {
    RecycledOk(p, s);
    var q := Recycled(p, s);
    hide Recycled;
    hide PoolOk;
    forall i | 0 <= i < |rest| && rest[i].isShm
      ensures rest[i].off in p.blocks && q.blocks[rest[i].off] == p.blocks[rest[i].off]
    {
      assert SliceOk(rest[i], p.blocks);
    }
    FlatSame(rest, p.blocks, q.blocks);
  }

  lemma OffsConcat(a: seq<Slice>, b: seq<Slice>)
    ensures Offs(a + b) == Offs(a) + Offs(b)
  {
    assert forall x :: x in a + b <==> x in a || x in b;
  }

  lemma OffsCons(s: Slice, rest: seq<Slice>)
    ensures Offs([s] + rest) == (if s.isShm then {s.off} else {}) + Offs(rest)
  {
    OffsConcat([s], rest);
    assert Offs([s]) == if s.isShm then {s.off} else {} by {
      assert [] + [s] == [s];
      OffsAppend([], s);
      assert Offs([]) == {};
    }
  }

  lemma ElsewhereNotIn(s: Slice, rest: seq<Slice>)
    requires Elsewhere(s, rest)
    ensures s.off !in Offs(rest)
  {
    forall r | r in rest && r.isShm ensures r.off != s.off {
      var i :| 0 <= i < |rest| && rest[i] == r;
    }
  }

  /** The front slice against the rest of a list and the pinned list. */
  lemma FrontElsewhere(slices: seq<Slice>, pinned: seq<Slice>)
    requires slices != [] && slices[0].isShm && Apart(pinned + slices)
    ensures Elsewhere(slices[0], slices[1..]) && Elsewhere(slices[0], pinned)
  {
    var all, n := pinned + slices, |pinned|;
    assert all[n] == slices[0];
    forall i | 0 <= i < |slices[1..]| && slices[1..][i].isShm ensures slices[1..][i].off != slices[0].off {
      assert all[n + i + 1] == slices[1..][i];
    }
    forall i | 0 <= i < |pinned| && pinned[i].isShm ensures pinned[i].off != slices[0].off {
      assert all[i] == pinned[i];
    }
  }

  lemma ApartTail(slices: seq<Slice>, pinned: seq<Slice>)
    requires slices != [] && Apart(pinned + slices)
    ensures Apart(pinned + slices[1..])
  {
    var all, less, n := pinned + slices, pinned + slices[1..], |pinned|;
    forall i, j | 0 <= i < j < |less| && less[i].isShm && less[j].isShm ensures less[i].off != less[j].off {
      assert less[i] == all[if i < n then i else i + 1];
      assert less[j] == all[if j < n then j else j + 1];
    }
  }

  lemma FlatHead(slices: seq<Slice>, blocks: map<nat, Block>)
    requires SlicesOk(slices, blocks) && slices != []
    ensures SliceOk(slices[0], blocks) && SlicesOk(slices[1..], blocks)
    ensures Flat(slices, blocks) == Unread(slices[0], blocks) + Flat(slices[1..], blocks)
    ensures Flat(slices[1..], blocks) == Flat(slices, blocks)[Size(slices[0])..]
  {
    hide SliceOk;
    assert SliceOk(slices[0], blocks);
    assert slices == [slices[0]] + slices[1..];
    SlicesOkConcat([slices[0]], slices[1..], blocks);
  }

  lemma OffsFront(slices: seq<Slice>, pinned: seq<Slice>)
    requires slices != [] && Apart(pinned + slices)
    ensures var own, less := Offs(pinned + slices), Offs(pinned + slices[1..]);
            if slices[0].isShm then own == less + {slices[0].off} && slices[0].off !in less else own == less
  {
    var s, rest := slices[0], slices[1..];
    assert slices == [s] + rest;
    OffsConcat(pinned, slices);
    OffsConcat(pinned, rest);
    OffsCons(s, rest);
    if s.isShm {
      FrontElsewhere(slices, pinned);
      ElsewhereNotIn(s, rest);
      ElsewhereNotIn(s, pinned);
    }
  }

  lemma DropTransfer(p: Pool, q: Pool, o: nat, own: set<nat>, less: set<nat>)
    requires Used(q) == Used(p) - {o} && Kept(p, q, Used(p) - {o}) && q.blocks.Keys == p.blocks.Keys
    requires own == less + {o} && o !in less && own <= Used(p)
    ensures Transfer(p, q, own, less)
  {
  }

  /** Popping the front slice and recycling it. */
  lemma DropFront(slices: seq<Slice>, pinned: seq<Slice>, p: Pool)
    requires Holds(slices, pinned, p) && slices != []
    ensures var q := if slices[0].isShm then Recycled(p, slices[0]) else p;
            && Holds(slices[1..], pinned, q)
            && SameData(pinned + slices[1..], p.blocks, q.blocks)
            && Flat(slices[1..], q.blocks) == Flat(slices, p.blocks)[Size(slices[0])..]
            && Transfer(p, q, Offs(pinned + slices), Offs(pinned + slices[1..]))
  {
    hide PoolOk;
    hide Recycled;
    hide SliceOk;
    hide Offs;
    hide Transfer;
    var s, rest := slices[0], slices[1..];
    FlatHead(slices, p.blocks);
    ApartTail(slices, pinned);
    HoldsUsed(slices, pinned, p);
    OffsFront(slices, pinned);
    SlicesOkConcat(pinned, rest, p.blocks);
    if s.isShm {
      FrontElsewhere(slices, pinned);
      ElsewhereBoth(s, pinned, rest);
      RecycleHeld(s, pinned + rest, p);
      RecycleHeld(s, rest, p);
      RecycleHeld(s, pinned, p);
      DropTransfer(p, Recycled(p, s), s.off, Offs(pinned + slices), Offs(pinned + rest));
    } else {
      TransferSelf(p, Offs(pinned + slices));
      SameDataSelf(pinned + rest, p.blocks);
    }
  }

  lemma ElsewhereBoth(s: Slice, a: seq<Slice>, b: seq<Slice>)
    requires Elsewhere(s, a) && Elsewhere(s, b)
    ensures Elsewhere(s, a + b)
  {
  }

  lemma SameDataSelf(ss: seq<Slice>, blocks: map<nat, Block>)
    requires SlicesOk(ss, blocks)
    ensures SameData(ss, blocks, blocks)
  {
    forall i | 0 <= i < |ss| && ss[i].isShm ensures ss[i].off in blocks {
      assert SliceOk(ss[i], blocks);
    }
  }

  /** Popping the front slice onto the pinned list. */
  lemma PinFront(slices: seq<Slice>, pinned: seq<Slice>, p: Pool)
    requires Holds(slices, pinned, p) && slices != [] && slices[0].isShm
    ensures var more := pinned + [slices[0]];
            && Holds(slices[1..], more, p)
            && Flat(slices[1..], p.blocks) == Flat(slices, p.blocks)[Size(slices[0])..]
            && Offs(more + slices[1..]) == Offs(pinned + slices)
  {
    hide PoolOk;
    hide SliceOk;
    hide Flat;
    var more := pinned + [slices[0]];
    assert more + slices[1..] == pinned + slices;
    FlatHead(slices, p.blocks);
    assert SlicesOk([slices[0]], p.blocks);
    SlicesOkConcat(pinned, [slices[0]], p.blocks);
  }

  lemma SameOffs(a: seq<Slice>, b: seq<Slice>)
    requires |a| == |b| && forall i | 0 <= i < |a| :: a[i].isShm == b[i].isShm && a[i].off == b[i].off
    ensures Apart(a) <==> Apart(b)
    ensures Offs(a) == Offs(b)
  {
    forall o | o in Offs(a) ensures o in Offs(b) {
      var i :| 0 <= i < |a| && a[i].isShm && a[i].off == o;
      assert b[i] in b;
    }
    forall o | o in Offs(b) ensures o in Offs(a) {
      var i :| 0 <= i < |b| && b[i].isShm && b[i].off == o;
      assert a[i] in a;
    }
  }

  lemma AdvanceSlice(s: Slice, blocks: map<nat, Block>, k: nat)
    requires SliceOk(s, blocks) && k <= Size(s)
    ensures var t := s.(read := s.read + k);
            SliceOk(t, blocks) && Unread(t, blocks) == Unread(s, blocks)[k..]
            && Unread(s, blocks)[..k] == Storage(s, blocks)[s.read..s.read + k]
  {
    var st, r, w := Storage(s, blocks), s.read, s.write;
    assert st[r..w][k..] == st[r + k..w];
    assert st[r..w][..k] == st[r..r + k];
  }

  /** Moving the read index of the front slice. */
  lemma AdvanceFront(slices: seq<Slice>, pinned: seq<Slice>, p: Pool, k: nat)
    requires Holds(slices, pinned, p) && slices != [] && k <= Size(slices[0])
    ensures var s := slices[0].(read := slices[0].read + k);
            var more := slices[0 := s];
            && SliceOk(slices[0], p.blocks)
            && Holds(more, pinned, p)
            && Flat(more, p.blocks) == Flat(slices, p.blocks)[k..]
            && Flat(slices, p.blocks)[..k] == Storage(slices[0], p.blocks)[slices[0].read..slices[0].read + k]
            && Offs(pinned + more) == Offs(pinned + slices)
  {
    hide PoolOk;
    hide SliceOk;
    hide Unread;
    hide Storage;
    var f := slices[0];
    var s := f.(read := f.read + k);
    var more := slices[0 := s];
    assert SliceOk(f, p.blocks);
    AdvanceSlice(f, p.blocks, k);
    FlatHead(slices, p.blocks);
    assert more[1..] == slices[1..];
    assert SlicesOk(more, p.blocks);
    FlatHead(more, p.blocks);
    SameOffs(pinned + slices, pinned + more);
  }

  // ---------------------------------------------------------------------------------------------
  // Growing a list
  // ---------------------------------------------------------------------------------------------

  predicate AllEmpty(ss: seq<Slice>) {
    forall i | 0 <= i < |ss| :: Size(ss[i]) == 0
  }

  lemma {:induction false} FlatEmpty(ss: seq<Slice>, blocks: map<nat, Block>)
    requires SlicesOk(ss, blocks) && AllEmpty(ss)
    ensures Flat(ss, blocks) == []
  {
    if ss != [] {
      FlatHead(ss, blocks);
      FlatEmpty(ss[1..], blocks);
    }
  }

  lemma ApartJoin(a: seq<Slice>, b: seq<Slice>)
    requires Apart(a) && Apart(b) && Offs(a) !! Offs(b)
    ensures Apart(a + b)
  {
    var ab := a + b;
    forall i, j | 0 <= i < j < |ab| && ab[i].isShm && ab[j].isShm ensures ab[i].off != ab[j].off {
      if i < |a| <= j {
        assert ab[i] in a && ab[j] in b;
        assert ab[i].off in Offs(a) && ab[j].off in Offs(b);
      } else if j < |a| {
        assert ab[i] == a[i] && ab[j] == a[j];
      } else {
        assert ab[i] == b[i - |a|] && ab[j] == b[j - |a|];
      }
    }
  }

  lemma AllocatedFacts(p: Pool, q: Pool, got: seq<Slice>)
    requires Allocated(p, q, got)
    ensures PoolOk(q) && SlicesOk(got, q.blocks) && Apart(got) && AllEmpty(got)
  {
    hide PoolOk;
  }

  lemma JoinTransfer(p: Pool, q: Pool, got: seq<Slice>, own: set<nat>)
    requires Allocated(p, q, got) && own <= Used(p)
    ensures own !! Offs(got) && Transfer(p, q, own, own + Offs(got))
  {
    hide PoolOk;
    hide SlicesOk;
    hide Apart;
    hide Offs;
  }

  lemma AllocatedKeeps(ss: seq<Slice>, p: Pool, q: Pool, got: seq<Slice>)
    requires SlicesOk(ss, p.blocks) && Offs(ss) <= Used(p) && Allocated(p, q, got)
    ensures SlicesOk(ss, q.blocks) && SameData(ss, p.blocks, q.blocks) && Flat(ss, q.blocks) == Flat(ss, p.blocks)
  {
    hide PoolOk;
    hide SlicesOk;
    hide Offs;
    KeptIsSameData(ss, p, q, Used(p));
    FlatSame(ss, p.blocks, q.blocks);
  }

  /** Slices just taken from the pool join the list without changing its bytes. */
  lemma JoinAllocated(slices: seq<Slice>, pinned: seq<Slice>, p: Pool, q: Pool, got: seq<Slice>)
    requires Holds(slices, pinned, p) && Allocated(p, q, got)
    ensures Holds(slices + got, pinned, q)
    ensures Flat(slices + got, q.blocks) == Flat(slices, p.blocks)
    ensures Transfer(p, q, Offs(pinned + slices), Offs(pinned + (slices + got)))
    ensures SameData(pinned + slices, p.blocks, q.blocks)
  {
    hide PoolOk;
    hide SlicesOk;
    hide SameData;
    hide Apart;
    hide Offs;
    hide Allocated;
    hide Transfer;
    hide Flat;
    HoldsUsed(slices, pinned, p);
    AllocatedFacts(p, q, got);
    SlicesOkConcat(pinned, slices, p.blocks);
    OffsConcat(pinned, slices);
    JoinTransfer(p, q, got, Offs(pinned + slices));
    AllocatedKeeps(pinned + slices, p, q, got);
    AllocatedKeeps(pinned, p, q, got);
    AllocatedKeeps(slices, p, q, got);
    FlatEmpty(got, q.blocks);
    FlatConcat(slices, got, q.blocks);
    assert pinned + (slices + got) == (pinned + slices) + got;
    OffsConcat(pinned + slices, got);
    ApartJoin(pinned + slices, got);
  }

  /** A heap slice joins the list. */
  lemma JoinHeap(slices: seq<Slice>, pinned: seq<Slice>, p: Pool, h: Slice)
    requires Holds(slices, pinned, p) && !h.isShm && SliceOk(h, p.blocks)
    ensures Holds(slices + [h], pinned, p)
    ensures Flat(slices + [h], p.blocks) == Flat(slices, p.blocks) + Unread(h, p.blocks)
    ensures Offs(pinned + (slices + [h])) == Offs(pinned + slices)
  {
    hide PoolOk;
    hide SliceOk;
    FlatOne(h, p.blocks);
    FlatConcat(slices, [h], p.blocks);
    assert pinned + (slices + [h]) == (pinned + slices) + [h];
    OffsAppend(pinned + slices, h);
    assert Apart((pinned + slices) + [h]);
  }

  // ---------------------------------------------------------------------------------------------
  // Writing at the end
  // ---------------------------------------------------------------------------------------------

  /** The slice and the pool after `b` was copied behind the write index of `s`. */
  function Written(s: Slice, p: Pool, b: seq<Byte>): (Slice, Pool)
    requires SliceOk(s, p.blocks) && |b| <= Remain(s)
  {
    if s.isShm then
      var blk := p.blocks[s.off];
      (s.(write := s.write + |b|), WithData(p, s.off, Splice(blk.data, s.write, b)))
    else
      (s.(write := s.write + |b|, heap := Splice(s.heap, s.write, b)), p)
  }

  function WithData(p: Pool, o: nat, d: seq<Byte>): Pool
    requires o in p.blocks
  {
    p.(blocks := p.blocks[o := p.blocks[o].(data := d)])
  }

  lemma DataListOk(p: Pool, o: nat, d: seq<Byte>, i: nat)
    requires PoolOk(p) && o in p.blocks && i < |p.lists|
    ensures ListOk(WithData(p, o, d), i)
  {
    hide BlocksOf;
    hide BlockOk;
    assert ListOk(p, i);
    BlocksOfSame(p.blocks, WithData(p, o, d).blocks, p.lists[i].cap);
  }

  lemma DataChangeOk(p: Pool, o: nat, d: seq<Byte>)
    requires PoolOk(p) && o in p.blocks && |d| == |p.blocks[o].data|
    ensures var q := WithData(p, o, d);
            PoolOk(q) && Used(q) == Used(p) && q.blocks.Keys == p.blocks.Keys
  {
    hide ListOk;
    var q := WithData(p, o, d);
    forall i | 0 <= i < |q.lists| ensures ListOk(q, i) { DataListOk(p, o, d, i); }
    forall x | x in q.blocks ensures BlockOk(q, x) {
      assert BlockOk(p, x);
    }
  }

  lemma WrittenSlice(s: Slice, p: Pool, b: seq<Byte>)
    requires PoolOk(p) && SliceOk(s, p.blocks) && |b| <= Remain(s)
    ensures var (t, q) := Written(s, p, b);
            && PoolOk(q) && SliceOk(t, q.blocks) && t.isShm == s.isShm && t.off == s.off
            && Unread(t, q.blocks) == Unread(s, p.blocks) + b
            && Used(q) == Used(p) && q.blocks.Keys == p.blocks.Keys
            && (forall o | o in p.blocks && !(s.isShm && o == s.off) :: q.blocks[o] == p.blocks[o])
  {
    if s.isShm {
      DataChangeOk(p, s.off, Splice(p.blocks[s.off].data, s.write, b));
    }
    hide PoolOk;
    var st := Storage(s, p.blocks);
    var sp := Splice(st, s.write, b);
    assert sp[s.read..s.write + |b|] == st[s.read..s.write] + b;
  }

  lemma AtElsewhere(slices: seq<Slice>, pinned: seq<Slice>, n: nat)
    requires n < |slices| && Apart(pinned + slices) && slices[n].isShm
    ensures Elsewhere(slices[n], slices[..n]) && Elsewhere(slices[n], slices[n + 1..]) && Elsewhere(slices[n], pinned)
  {
    var all, m := pinned + slices, |pinned|;
    assert all[m + n] == slices[n];
    forall i | 0 <= i < |slices| && i != n && slices[i].isShm ensures slices[i].off != slices[n].off {
      assert all[m + i] == slices[i];
    }
    forall i | 0 <= i < |pinned| && pinned[i].isShm ensures pinned[i].off != slices[n].off {
      assert all[i] == pinned[i];
    }
  }

  lemma ElsewhereKept(s: Slice, rest: seq<Slice>, p: Pool, q: Pool)
    requires SlicesOk(rest, p.blocks) && (s.isShm ==> Elsewhere(s, rest)) && q.blocks.Keys == p.blocks.Keys
    requires forall o | o in p.blocks && !(s.isShm && o == s.off) :: q.blocks[o] == p.blocks[o]
    ensures SlicesOk(rest, q.blocks) && Flat(rest, q.blocks) == Flat(rest, p.blocks)
  {
    forall i | 0 <= i < |rest| && rest[i].isShm
      ensures rest[i].off in p.blocks && q.blocks[rest[i].off] == p.blocks[rest[i].off]
    {
      assert SliceOk(rest[i], p.blocks);
    }
    FlatSame(rest, p.blocks, q.blocks);
  }

  lemma WriteTransfer(p: Pool, q: Pool, own: set<nat>)
    requires Used(q) == Used(p) && q.blocks.Keys == p.blocks.Keys && own <= Used(p)
    requires forall o | o in p.blocks && o !in own :: q.blocks[o] == p.blocks[o]
    ensures Transfer(p, q, own, own)
  {
  }

  lemma AtOwned(slices: seq<Slice>, pinned: seq<Slice>, n: nat)
    requires n < |slices|
    ensures slices[n].isShm ==> slices[n].off in Offs(pinned + slices)
  {
    assert (pinned + slices)[|pinned| + n] == slices[n];
  }

  /** The bytes of a list whose slices behind index `n` are empty. */
  lemma FlatAt(slices: seq<Slice>, blocks: map<nat, Block>, n: nat)
    requires SlicesOk(slices, blocks) && n < |slices| && AllEmpty(slices[n + 1..])
    ensures SlicesOk(slices[..n], blocks) && SliceOk(slices[n], blocks)
    ensures Flat(slices, blocks) == Flat(slices[..n], blocks) + Unread(slices[n], blocks)
  {
    hide SliceOk;
    hide Unread;
    hide Flat;
    var front, s, back := slices[..n], slices[n], slices[n + 1..];
    assert SlicesOk(front, blocks) && SlicesOk(back, blocks) && SliceOk(s, blocks);
    assert slices == front + ([s] + back);
    FlatOne(s, blocks);
    FlatEmpty(back, blocks);
    FlatConcat([s], back, blocks);
    FlatConcat(front, [s] + back, blocks);
  }

  /** Copying bytes behind the write index of the last slice in use appends them. */
  lemma WriteAt(slices: seq<Slice>, pinned: seq<Slice>, p: Pool, n: nat, b: seq<Byte>)
    requires Holds(slices, pinned, p) && n < |slices| && AllEmpty(slices[n + 1..])
    requires |b| <= Remain(slices[n])
    ensures SliceOk(slices[n], p.blocks)
    ensures var (t, q) := Written(slices[n], p, b);
            var more := slices[n := t];
            && Holds(more, pinned, q)
            && Flat(more, q.blocks) == Flat(slices, p.blocks) + b
            && Offs(pinned + more) == Offs(pinned + slices)
            && Transfer(p, q, Offs(pinned + slices), Offs(pinned + more))
  {
    hide SliceOk;
    hide Unread;
    hide Flat;
    hide Written;
    hide PoolOk;
    hide Offs;
    hide Transfer;
    hide Apart;
    var s := slices[n];
    FlatAt(slices, p.blocks, n);
    WrittenSlice(s, p, b);
    var (t, q) := Written(s, p, b);
    var more := slices[n := t];
    var front, back := slices[..n], slices[n + 1..];
    if s.isShm { AtElsewhere(slices, pinned, n); }
    assert SlicesOk(back, p.blocks);
    ElsewhereKept(s, front, p, q);
    ElsewhereKept(s, back, p, q);
    ElsewhereKept(s, pinned, p, q);
    assert more[..n] == front && more[n + 1..] == back && more[n] == t;
    UpdatedOk(slices, q.blocks, n, t);
    FlatAt(more, q.blocks, n);
    SameOffs(pinned + slices, pinned + more);
    HoldsUsed(slices, pinned, p);
    AtOwned(slices, pinned, n);
    WriteTransfer(p, q, Offs(pinned + slices));
  }

  lemma UpdatedOk(slices: seq<Slice>, blocks: map<nat, Block>, n: nat, t: Slice)
    requires n < |slices| && SliceOk(t, blocks)
    requires SlicesOk(slices[..n], blocks) && SlicesOk(slices[n + 1..], blocks)
    ensures SlicesOk(slices[n := t], blocks)
  {
    hide SliceOk;
    var more := slices[n := t];
    forall i | 0 <= i < |more| ensures SliceOk(more[i], blocks) {
      if i < n { assert slices[..n][i] == more[i]; }
      else if i > n { assert slices[n + 1..][i - n - 1] == more[i]; }
    }
  }

  /** Moving the write index of a slice over memory as it is. */
  lemma BumpIsWrite(s: Slice, p: Pool, k: nat)
    requires SliceOk(s, p.blocks) && k <= Remain(s)
    ensures Written(s, p, Storage(s, p.blocks)[s.write..s.write + k]) == (s.(write := s.write + k), p)
  {
    var st := Storage(s, p.blocks);
    assert Splice(st, s.write, st[s.write..s.write + k]) == st;
    if s.isShm {
      assert p.blocks[s.off := p.blocks[s.off]] == p.blocks;
    }
  }

  lemma {:induction false} SumCapCons(s: Slice, rest: seq<Slice>)
    ensures SumCap([s] + rest) == s.cap + SumCap(rest)
  {
    var all := [s] + rest;
    if rest == [] {
      assert all[..0] == [];
    } else {
      SumCapCons(s, rest[..|rest| - 1]);
      assert all[..|all| - 1] == [s] + rest[..|rest| - 1];
    }
  }

  /** A held slice that is not the buffer's own joins the list. */
  lemma JoinOne(slices: seq<Slice>, pinned: seq<Slice>, p: Pool, s: Slice)
    requires Holds(slices, pinned, p) && SliceOk(s, p.blocks)
    requires s.isShm ==> s.off !in Offs(pinned + slices)
    ensures Holds(slices + [s], pinned, p)
    ensures Flat(slices + [s], p.blocks) == Flat(slices, p.blocks) + Unread(s, p.blocks)
    ensures Offs(pinned + (slices + [s])) == Offs(pinned + slices) + (if s.isShm then {s.off} else {})
  {
    hide PoolOk;
    hide SliceOk;
    FlatOne(s, p.blocks);
    FlatConcat(slices, [s], p.blocks);
    hide Flat;
    var all := pinned + slices;
    assert pinned + (slices + [s]) == all + [s];
    OffsAppend(all, s);
    forall i | 0 <= i < |all| && all[i].isShm && s.isShm ensures all[i].off != s.off {
      assert all[i] in all;
      assert all[i].off in Offs(all);
    }
    assert Apart(all + [s]);
  }

  lemma PinnedElsewhere(slices: seq<Slice>, pinned: seq<Slice>)
    requires pinned != [] && pinned[0].isShm && Apart(pinned + slices)
    ensures Elsewhere(pinned[0], slices) && Elsewhere(pinned[0], pinned[1..])
    ensures Apart(pinned[1..] + slices)
    ensures Offs(pinned + slices) == Offs(pinned[1..] + slices) + {pinned[0].off}
    ensures pinned[0].off !in Offs(pinned[1..] + slices)
  {
    var all, less := pinned + slices, pinned[1..] + slices;
    assert all == [pinned[0]] + less;
    forall i | 0 <= i < |less| ensures less[i] == all[i + 1] {}
    forall i | 0 <= i < |less| && less[i].isShm ensures less[i].off != pinned[0].off {
      assert all[0] == pinned[0] && all[i + 1] == less[i];
    }
    forall i | 0 <= i < |slices| ensures slices[i] == less[|pinned| - 1 + i] {}
    forall i | 0 <= i < |pinned[1..]| ensures pinned[1..][i] == less[i] {}
    OffsCons(pinned[0], less);
    ElsewhereNotIn(pinned[0], less);
  }

  /** Recycling the oldest pinned slice. */
  lemma DropPinned(slices: seq<Slice>, pinned: seq<Slice>, p: Pool)
    requires Holds(slices, pinned, p) && pinned != []
    ensures SliceOk(pinned[0], p.blocks)
    ensures var q := Recycled(p, pinned[0]);
            && Holds(slices, pinned[1..], q)
            && Flat(slices, q.blocks) == Flat(slices, p.blocks)
            && Transfer(p, q, Offs(pinned + slices), Offs(pinned[1..] + slices))
  {
    hide PoolOk;
    hide Recycled;
    hide SliceOk;
    hide Offs;
    hide Transfer;
    hide Apart;
    hide Flat;
    var s, rest := pinned[0], pinned[1..];
    assert SliceOk(s, p.blocks);
    assert pinned == [s] + rest;
    SlicesOkConcat([s], rest, p.blocks);
    PinnedElsewhere(slices, pinned);
    HoldsUsed(slices, pinned, p);
    RecycleHeld(s, rest, p);
    RecycleHeld(s, slices, p);
    DropTransfer(p, Recycled(p, s), s.off, Offs(pinned + slices), Offs(rest + slices));
  }
}
