/** All buffers of both endpoints over one shared pool, and the messages between them. */
module Arenas {
  import opened Basics
  import opened Bytes
  import opened BufferPool
  import opened Manager
  import opened SliceChains
  import opened LinkedBuffers
  import opened Publish
  import opened Receive
  import opened EndToEnd
  import opened QueueRefinement
  import opened Conservation
  import opened Transports
  import Framing

  /** What a buffer is used for; a sending one is `Flushing` while its message waits for the ring, a
      receiving one is `Retired` once its stream is closed. */
  datatype Role = Sending | Flushing | Receiving | Retired {
    predicate Inbound() { Receiving? || Retired? }
  }

  predicate RoleOk(role: Role, slices: seq<Slice>, p: Pool) {
    match role
    case Sending => SendOnly(slices, p)
    case Flushing => Ready(slices, p)
    case Receiving => true
    case Retired => slices == []
  }

  /** The headers of `slices` carry its bytes. */
  predicate Ready(slices: seq<Slice>, p: Pool) {
    && slices != [] && AllShm(slices) && FromStart(slices) && SlicesOk(slices, p.blocks)
    && Message(p.blocks, slices[0].off, OffsOf(slices), Flat(slices, p.blocks))
  }

  lemma SendOnlyKept(slices: seq<Slice>, p: Pool, q: Pool, keep: set<nat>)
    requires SendOnly(slices, p) && Kept(p, q, keep) && Offs(slices) <= keep
    ensures SendOnly(slices, q)
  {
    forall i | 0 <= i < |slices| ensures !HasLink(q, slices[i]) {
      assert !HasLink(p, slices[i]);
      assert slices[i] in slices;
      assert slices[i].isShm ==> slices[i].off in Offs(slices);
    }
  }

  lemma ReadyKept(slices: seq<Slice>, p: Pool, q: Pool, keep: set<nat>)
    requires Ready(slices, p) && Kept(p, q, keep) && Offs(slices) <= keep
    ensures Ready(slices, q)
  {
    hide Message;
    hide Flat;
    hide SlicesOk;
    ChainElems(slices);
    hide Offs;
    KeptIsSameData(slices, p, q, keep);
    FlatSame(slices, p.blocks, q.blocks);
    MessageKept(p, q, slices[0].off, OffsOf(slices), Flat(slices, p.blocks), keep);
  }

  /** A buffer that took no part in a step. */
  lemma Bystander(role: Role, slices: seq<Slice>, pinned: seq<Slice>, p: Pool, q: Pool, before: set<nat>,
                  after: set<nat>)
    requires Holds(slices, pinned, p) && RoleOk(role, slices, p)
    requires PoolOk(q) && Transfer(p, q, before, after) && Offs(pinned + slices) !! before
    ensures Holds(slices, pinned, q) && RoleOk(role, slices, q) && Flat(slices, q.blocks) == Flat(slices, p.blocks)
  {
    hide PoolOk;
    hide Offs;
    hide Ready;
    hide SendOnly;
    OtherBuffer(slices, pinned, p, q, before, after);
    HoldsUsed(slices, pinned, p);
    OffsConcat(pinned, slices);
    hide Holds;
    if role == Sending { SendOnlyKept(slices, p, q, Used(p) - before); }
    if role == Flushing { ReadyKept(slices, p, q, Used(p) - before); }
  }

  // ---------------------------------------------------------------------------------------------
  // Recycling a chain
  // ---------------------------------------------------------------------------------------------

  /** `recycle_buffers`: the whole chain goes back to the free lists. */
  method RecycleChain(mgr: BufferManager, root: nat, ghost chain: seq<nat>)
    requires PoolOk(mgr.pool) && Chain(mgr.pool.blocks, root, chain)
    modifies mgr
    ensures PoolOk(mgr.pool) && Transfer(old(mgr.pool), mgr.pool, Elems(chain), {})
  {
    hide PoolOk;
    hide Transfer;
    hide Ahead;
    hide Elems;
    hide Recycled;
    hide SliceOk;
    ghost var p := mgr.pool;
    ChainUsed(p.blocks, p, root, chain);
    TransferSelf(p, Elems(chain));
    AheadFirst(p, chain, {});
    assert chain[0..] == chain && {} + Elems(chain) == Elems(chain);
    var offset, more := root, true;
    ghost var k := 0;
    while more
      invariant PoolOk(mgr.pool) && 0 <= k <= |chain|
      invariant more ==> k < |chain| && offset == chain[k]
      invariant !more ==> k == |chain|
      invariant Ahead(p, mgr.pool, chain, k, {})
      invariant forall j | k <= j < |chain| :: chain[j] in Used(mgr.pool)
      invariant Transfer(p, mgr.pool, Elems(chain), {} + Elems(chain[k..]))
      decreases |chain| - k
    {
      ghost var q := mgr.pool;
      AheadAt(p, q, chain, k, {});
      LinkIn(p.blocks, chain, k);
      SameSlice(offset, p, q);
      var b := mgr.pool.blocks[offset];
      var s := SliceFrom(offset, b);
      OneBack(q, s);
      mgr.Recycle(s);
      WalkStep(p, q, mgr.pool, chain, k, Elems(chain), {}, {});
      k := k + 1;
      if b.hasNext {
        offset := b.next;
      } else {
        more := false;
      }
    }
    assert chain[k..] == [];
    ElemsNone();
    assert {} + Elems(chain[k..]) == {};
  }

  lemma OneBack(p: Pool, s: Slice)
    requires PoolOk(p) && SliceOk(s, p.blocks) && s.isShm
    ensures Transfer(p, Recycled(p, s), {} + {s.off}, {})
  {
    hide PoolOk;
    RecycleHeld(s, [], p);
  }

  // ---------------------------------------------------------------------------------------------
  // The arena
  // ---------------------------------------------------------------------------------------------

  class Arena {
    const mgr: BufferManager
    var bufs: seq<LinkedBuffer>
    var roles: seq<Role>
    ghost var carried: map<nat, Letter>

    ghost function Owned(): (owned: seq<set<nat>>)
      reads this, bufs
      ensures |owned| == |bufs| && forall i | 0 <= i < |bufs| :: owned[i] == bufs[i].Owned()
    {
      seq(|bufs|, i requires 0 <= i < |bufs| reads this, bufs => bufs[i].Owned())
    }

    ghost predicate BufferOk(i: nat)
      requires i < |bufs| == |roles|
      reads this, mgr, bufs
    {
      && bufs[i].mgr == mgr && bufs[i].Valid() && RoleOk(roles[i], bufs[i].slices, mgr.pool)
      && (!roles[i].Inbound() ==> bufs[i].pinned == [] && bufs[i].fromShm == AllShm(bufs[i].slices))
    }

    ghost predicate Ok()
      reads this, mgr, bufs
    {
      && PoolOk(mgr.pool)
      && |roles| == |bufs|
      && (forall i | 0 <= i < |bufs| :: BufferOk(i))
      && (forall i, j | 0 <= i < j < |bufs| :: bufs[i] != bufs[j])
      && Conserved(mgr.pool, Owned(), carried)
    }

    /** The unread bytes of every buffer. */
    ghost function Texts(): (t: seq<seq<Byte>>)
      requires Ok()
      reads this, mgr, bufs
      ensures |t| == |bufs| && forall i | 0 <= i < |bufs| :: BufferOk(i) && t[i] == bufs[i].Contents()
    {
      seq(|bufs|, i requires Ok() && 0 <= i < |bufs| reads this, mgr, bufs => assert BufferOk(i); bufs[i].Contents())
    }

    constructor (mgr: BufferManager)
      requires PoolOk(mgr.pool) && Used(mgr.pool) == {}
      ensures this.mgr == mgr && Ok() && bufs == [] && carried == map[]
    {
      this.mgr := mgr;
      bufs, roles, carried := [], [], map[];
    }

    /** A new, empty buffer. */
    method AddBuffer(role: Role) returns (b: LinkedBuffer)
      requires Ok() && (role == Sending || role == Receiving)
      modifies this`bufs, this`roles
      ensures Ok() && bufs == old(bufs) + [b] && fresh(b) && b.slices == [] && roles == old(roles) + [role]
      ensures Texts() == old(Texts()) + [[]] && Owned() == old(Owned()) + [{}]
    {
      hide PoolOk;
      hide Conserved;
      hide Holds;
      hide RoleOk;
      ghost var owned := Owned();
      b := new LinkedBuffer(mgr);
      NewBuffer(mgr.pool, owned, carried);
      EmptyRole(mgr.pool);
      bufs := bufs + [b];
      roles := roles + [role];
      assert Owned() == owned + [{}];
      forall i | 0 <= i < |bufs| ensures BufferOk(i) {
        assert i < |old(bufs)| ==> old(BufferOk(i)) && bufs[i] == old(bufs)[i];
      }
    }

    /** `Stream::Stream`: a buffer to send from and one to receive into. */
    method Open() returns (send: LinkedBuffer, recv: LinkedBuffer)
      requires Ok()
      modifies this`bufs, this`roles
      ensures Ok() && roles == old(roles) + [Sending, Receiving]
      ensures bufs == old(bufs) + [send, recv] && fresh(send) && fresh(recv)
      ensures send.slices == [] && recv.slices == []
      ensures Texts() == old(Texts()) + [[], []] && Owned() == old(Owned()) + [{}, {}]
    {
      hide Ok;
      hide BufferOk;
      send := AddBuffer(Sending);
      recv := AddBuffer(Receiving);
    }

    /** One call on one buffer: writes on a sending one, reads and releases on a receiving one, and
        `recycle` on any. */
    method Call(k: nat, op: Op) returns (a: Answer)
      requires Ok() && k < |bufs| && Callable(op) && !op.Attach?
      requires if op.Put? then roles[k] == Sending else if op.Adopt? then roles[k] == Receiving
               else op.Drop? || roles[k].Inbound()
      modifies this`roles, bufs[k], mgr
      ensures Ok() && bufs == old(bufs) && carried == old(carried)
      ensures Texts() == old(Texts())[k := Next(old(Texts())[k], op)] && a == Reply(old(Texts())[k], op)
      ensures Owned() == old(Owned())[k := bufs[k].Owned()]
      ensures roles == if op.Drop? && old(roles)[k] == Flushing then old(roles)[k := Sending] else old(roles)
      ensures op.Drop? ==> bufs[k].slices == [] && bufs[k].pinned == old(bufs[k].pinned)
      ensures op.Release? || !roles[k].Inbound() ==> bufs[k].pinned == []
      ensures op.Put? && old(bufs[k].fromShm) && !bufs[k].fromShm ==> Starved(mgr.pool, op.op)
      ensures op.Drop? && old(bufs[k].slices) == [] ==> mgr.pool == old(mgr.pool)
      ensures op.Put? && op.op.Write? && op.op.bytes != [] && old(bufs[k].slices == [] && Fits(mgr.pool, |op.op.bytes|)) ==>
        Owned()[k] != {}
    {
      hide PoolOk;
      hide Conserved;
      hide Transfer;
      hide Holds;
      hide SendOnly;
      hide Ready;
      hide Views;
      hide Next;
      hide Reply;
      hide Message;
      hide Elems;
      hide Offs;
      hide Flat;
      hide ViewedOffs;
      hide Starved;
      ghost var p, owned := mgr.pool, Owned();
      assert BufferOk(k) && bufs[k].Owned() + {} == bufs[k].Owned();
      a := Step(bufs[k], op);
      OwnsFirst(bufs[k].slices, bufs[k].pinned);
      HoldsPool(bufs[k].slices, bufs[k].pinned, mgr.pool);
      if op.Drop? && roles[k] == Flushing {
        roles := roles[k := Sending];
      }
      EmptyRole(mgr.pool);
      forall i | 0 <= i < |bufs| && i != k
        ensures BufferOk(i) && old(BufferOk(i)) && bufs[i].Contents() == old(bufs[i].Contents())
      {
        assert old(BufferOk(i));
        OthersApart(p, owned, carried, i, k);
        Bystander(roles[i], bufs[i].slices, bufs[i].pinned, p, mgr.pool, owned[k], bufs[k].Owned());
      }
      assert Owned() == owned[k := bufs[k].Owned()];
      BufferConserves(p, mgr.pool, owned, carried, k, bufs[k].Owned());
    }

    /** A sending buffer's flag says whether all its slices are in shared memory. */
    lemma FlagIff(k: nat)
      requires Ok() && k < |bufs| && !roles[k].Inbound()
      ensures bufs[k].fromShm == AllShm(bufs[k].slices)
    {
      assert BufferOk(k);
    }

    lemma Length(k: nat)
      requires Ok() && k < |bufs|
      ensures bufs[k].len == |Texts()[k]|
    {
      assert BufferOk(k);
    }

    lemma RetiredEmpty(k: nat)
      requires Ok() && k < |bufs| && roles[k] == Retired
      ensures bufs[k].slices == []
    {
      assert BufferOk(k);
    }

    lemma RetiredText(k: nat)
      requires Ok() && k < |bufs| && roles[k] == Retired
      ensures Texts()[k] == []
    {
      assert BufferOk(k);
      FlatPast(bufs[k].slices, mgr.pool);
    }

    /** The stream of receiving buffer `k` is closed. */
    method Retire(k: nat)
      requires Ok() && k < |bufs| && roles[k] == Receiving && bufs[k].slices == []
      modifies this`roles
      ensures Ok() && bufs == old(bufs) && roles == old(roles)[k := Retired] && carried == old(carried)
      ensures Texts() == old(Texts()) && Owned() == old(Owned())
    {
      hide PoolOk;
      hide Conserved;
      hide Holds;
      hide SendOnly;
      hide Ready;
      roles := roles[k := Retired];
      forall i | 0 <= i < |bufs| ensures BufferOk(i) { assert old(BufferOk(i)); }
      assert Owned() == old(Owned());
    }

    /** `done` on a sending buffer; a message that is all in shared memory is now ready. */
    method Publish(k: nat)
      requires Ok() && k < |bufs| && roles[k] == Sending && bufs[k].len > 0
      modifies this`roles, mgr
      ensures Ok() && bufs == old(bufs) && carried == old(carried)
      ensures Texts() == old(Texts()) && Owned() == old(Owned())
      ensures roles == if bufs[k].fromShm then old(roles)[k := Flushing] else old(roles)
    {
      hide PoolOk;
      hide Conserved;
      hide Transfer;
      hide Holds;
      hide SendOnly;
      hide Ready;
      hide HeadersOnly;
      hide Flat;
      ghost var p, owned := mgr.pool, Owned();
      assert BufferOk(k);
      Done(bufs[k]);
      HoldsPool(bufs[k].slices, bufs[k].pinned, mgr.pool);
      PublishedRole(bufs[k].slices, bufs[k].pinned, p, mgr.pool, bufs[k].fromShm);
      if bufs[k].fromShm {
        roles := roles[k := Flushing];
      }
      forall i | 0 <= i < |bufs| && i != k
        ensures BufferOk(i) && old(BufferOk(i)) && bufs[i].Contents() == old(bufs[i].Contents())
      {
        assert old(BufferOk(i));
        OthersApart(p, owned, carried, i, k);
        Bystander(roles[i], bufs[i].slices, bufs[i].pinned, p, mgr.pool, owned[k], bufs[k].Owned());
      }
      assert Owned() == owned[k := bufs[k].Owned()];
      BufferConserves(p, mgr.pool, owned, carried, k, bufs[k].Owned());
    }

    /** The ring took the message of buffer `k`: the buffer forgets its blocks. */
    method Launch(k: nat) returns (root: nat)
      requires Ok() && k < |bufs| && roles[k] == Flushing
      modifies this`roles, this`carried, bufs[k]
      ensures Ok() && bufs == old(bufs) && roles == old(roles)[k := Sending]
      ensures Texts() == old(Texts())[k := []] && Owned() == old(Owned())[k := bufs[k].Owned()]
      ensures root !in old(carried) && carried.Keys == old(carried).Keys + {root}
      ensures carried[root].bytes == old(Texts())[k]
      ensures forall r | r in old(carried) :: carried[r] == old(carried)[r]
    {
      hide PoolOk;
      hide Conserved;
      hide Holds;
      hide SendOnly;
      hide Flat;
      hide Message;
      ghost var p, owned, buf, was := mgr.pool, Owned(), bufs[k], bufs[k].slices;
      assert BufferOk(k);
      ghost var l := Letter(OffsOf(was), buf.Contents());
      root := bufs[k].slices[0].off;
      ChainElems(was);
      SplitOwned(was, buf.pinned, p);
      OffsConcat(buf.pinned, was);
      InChain(l.chain, 0);
      hide Offs;
      hide Elems;
      RootIsNew(p, owned, carried, k, root);
      LaunchConserves(p, owned, carried, k, Offs(buf.pinned), root, l);
      bufs[k].Clean();
      roles := roles[k := Sending];
      carried := carried[root := l];
      EmptyRole(p);
      forall i | 0 <= i < |bufs| && i != k
        ensures BufferOk(i) && old(BufferOk(i)) && bufs[i].Contents() == old(bufs[i].Contents())
      {
        assert old(BufferOk(i));
      }
      assert Owned() == owned[k := Offs(buf.pinned)];
    }

    /** `write_fallback` of buffer `k`. */
    method Fallback(k: nat, version: Byte, id: nat, status: nat) returns (sent: bool, payload: seq<Byte>)
      requires Ok() && k < |bufs| && !roles[k].Inbound()
      modifies this`roles, bufs[k], mgr
      ensures Ok() && bufs == old(bufs) && roles == old(roles)[k := Sending] && carried == old(carried)
      ensures Texts() == old(Texts())[k := []] && Owned() == old(Owned())[k := bufs[k].Owned()]
      ensures sent <==> |old(Texts())[k]| <= U32_LIMIT - 1 - 16
      ensures sent ==> payload == old(Texts())[k]
    {
      hide PoolOk;
      hide Conserved;
      hide Transfer;
      hide Holds;
      hide Flat;
      hide Message;
      hide Framing.Encode;
      ghost var p, owned := mgr.pool, Owned();
      assert BufferOk(k) && bufs[k].Owned() + {} == bufs[k].Owned();
      PayloadOf(version, id, status, bufs[k].Contents());
      var frame := WriteFallback(bufs[k], version, id, status);
      sent, payload := frame.Some?, if frame.Some? then frame.value[16..] else [];
      HoldsPool(bufs[k].slices, bufs[k].pinned, mgr.pool);
      roles := roles[k := Sending];
      EmptyRole(mgr.pool);
      hide SendOnly;
      hide Ready;
      forall i | 0 <= i < |bufs| && i != k
        ensures BufferOk(i) && old(BufferOk(i)) && bufs[i].Contents() == old(bufs[i].Contents())
      {
        assert old(BufferOk(i));
        OthersApart(p, owned, carried, i, k);
        Bystander(roles[i], bufs[i].slices, bufs[i].pinned, p, mgr.pool, owned[k], bufs[k].Owned());
      }
      assert Owned() == owned[k := bufs[k].Owned()];
      BufferConserves(p, mgr.pool, owned, carried, k, bufs[k].Owned());
    }

    /** `done` and then `write_fallback`. */
    method Divert(k: nat, version: Byte, id: nat, status: nat) returns (sent: bool, payload: seq<Byte>)
      requires Ok() && k < |bufs| == |roles| && roles[k] == Sending && bufs[k].len > 0
      modifies this`roles, bufs[k], mgr
      ensures Ok() && bufs == old(bufs) && roles == old(roles) && carried == old(carried)
      ensures Texts() == old(Texts())[k := []] && Owned() == old(Owned())[k := bufs[k].Owned()]
      ensures sent <==> |old(Texts())[k]| <= U32_LIMIT - 1 - 16
      ensures sent ==> payload == old(Texts())[k]
    {
      hide Ok;
      hide BufferOk;
      Publish(k);
      sent, payload := Fallback(k, version, id, status);
    }

    /** `move_pending_data` of one chain into buffer `k`. */
    method Land(k: nat, root: nat)
      requires Ok() && k < |bufs| && roles[k] == Receiving && root in carried
      modifies this`carried, bufs[k], mgr
      ensures Ok() && bufs == old(bufs) && roles == old(roles) && carried == old(carried) - {root}
      ensures Texts() == old(Texts())[k := old(Texts())[k] + old(carried)[root].bytes]
      ensures Owned() == old(Owned())[k := bufs[k].Owned()]
    {
      hide Landed;
      hide SlicesFrom;
      hide LinkedBuffer.Viewed;
      hide Offs;
      hide PoolOk;
      hide Conserved;
      hide Transfer;
      hide Holds;
      hide SendOnly;
      hide Ready;
      hide Views;
      hide Message;
      hide Elems;
      hide Flat;
      ghost var p, owned, l := mgr.pool, Owned(), carried[root];
      assert BufferOk(k);
      LetterApart(p, owned, carried, root);
      MoveChain(bufs[k], root, l.chain, l.bytes);
      HoldsPool(bufs[k].slices, bufs[k].pinned, mgr.pool);
      forall i | 0 <= i < |bufs| && i != k
        ensures BufferOk(i) && old(BufferOk(i)) && bufs[i].Contents() == old(bufs[i].Contents())
      {
        assert old(BufferOk(i));
        OthersApart(p, owned, carried, i, k);
        Bystander(roles[i], bufs[i].slices, bufs[i].pinned, p, mgr.pool, owned[k] + Elems(l.chain), bufs[k].Owned());
      }
      LandingConserves(p, mgr.pool, owned, carried, k, bufs[k].Owned(), root);
      carried := carried - {root};
      assert Owned() == owned[k := bufs[k].Owned()];
    }

    /** A message nobody wants goes back to the pool. */
    method Scrap(root: nat)
      requires Ok() && root in carried
      modifies this`carried, mgr
      ensures Ok() && bufs == old(bufs) && roles == old(roles) && carried == old(carried) - {root}
      ensures Texts() == old(Texts()) && Owned() == old(Owned())
    {
      hide PoolOk;
      hide Conserved;
      hide Transfer;
      hide Holds;
      hide SendOnly;
      hide Ready;
      hide Elems;
      hide Flat;
      ghost var p, owned, l := mgr.pool, Owned(), carried[root];
      LetterApart(p, owned, carried, root);
      RecycleChain(mgr, root, l.chain);
      forall i | 0 <= i < |bufs|
        ensures BufferOk(i) && old(BufferOk(i)) && bufs[i].Contents() == old(bufs[i].Contents())
      {
        assert old(BufferOk(i));
        Bystander(roles[i], bufs[i].slices, bufs[i].pinned, p, mgr.pool, Elems(l.chain), {});
      }
      ScrapConserves(p, mgr.pool, owned, carried, root);
      carried := carried - {root};
      assert Owned() == owned;
    }
  }

  lemma PayloadOf(version: Byte, id: nat, status: nat, payload: seq<Byte>)
    ensures var f := Framing.Encode(Framing.FallbackData(version, id, status, payload));
            |f| == 16 + |payload| && f[16..] == payload
  {
  }

  lemma LetterApart(p: Pool, owned: seq<set<nat>>, carried: map<nat, Letter>, r: nat)
    requires Conserved(p, owned, carried) && r in carried
    ensures Message(p.blocks, r, carried[r].chain, carried[r].bytes)
    ensures forall i | 0 <= i < |owned| :: owned[i] !! Elems(carried[r].chain)
  {
    hide Message;
    forall i | 0 <= i < |owned| ensures owned[i] !! Elems(carried[r].chain) { Apart2(owned, carried, i, r); }
  }

  lemma PublishedRole(slices: seq<Slice>, pinned: seq<Slice>, p: Pool, q: Pool, fromShm: bool)
    requires SendOnly(slices, p) && Holds(slices, pinned, q) && (fromShm ==> AllShm(slices))
    requires Flat(slices, q.blocks) != [] && (!fromShm ==> q == p)
    requires fromShm && slices != [] ==> Message(q.blocks, slices[0].off, OffsOf(slices), Flat(slices, q.blocks))
    ensures if fromShm then Ready(slices, q) else RoleOk(Sending, slices, q)
  {
  }

  lemma OwnsFirst(slices: seq<Slice>, pinned: seq<Slice>)
    ensures slices != [] && slices[0].isShm ==> Offs(pinned + slices) != {}
  {
    if slices != [] && slices[0].isShm {
      assert (pinned + slices)[|pinned|] == slices[0];
      assert slices[0].off in Offs(pinned + slices);
    }
  }

  lemma EmptyRole(p: Pool)
    ensures RoleOk(Sending, [], p) && RoleOk(Receiving, [], p) && RoleOk(Retired, [], p)
  {
  }

  lemma OthersApart(p: Pool, owned: seq<set<nat>>, carried: map<nat, Letter>, i: nat, k: nat)
    requires Conserved(p, owned, carried) && i < |owned| && k < |owned| && i != k
    ensures owned[i] !! owned[k]
  {
    BuffersApart(owned, carried, i, k);
  }
}
