/** Who holds each block, over the whole system: the buffers of all streams, and the messages on
    their way between them.  `owned` lists what each buffer holds; `carried` the messages in flight,
    by the offset of their first block. */
module Conservation {
  import opened Basics
  import opened Bytes
  import opened BufferPool
  import opened SliceChains
  import opened Publish
  import opened Receive

  datatype Letter = Letter(chain: seq<nat>, bytes: seq<Byte>)

  /** A block is claimed by a buffer or by a message. */
  datatype Claim = Buffer(i: nat) | Flight(root: nat)

  predicate Claims(owned: seq<set<nat>>, carried: map<nat, Letter>, c: Claim, o: nat) {
    match c
    case Buffer(i) => i < |owned| && o in owned[i]
    case Flight(r) => r in carried && o in Elems(carried[r].chain)
  }

  /** No block has two claimants. */
  ghost predicate Exclusive(owned: seq<set<nat>>, carried: map<nat, Letter>) {
    forall o, c, d | Claims(owned, carried, c, o) && Claims(owned, carried, d, o) :: c == d
  }

  /** The claimed blocks are the blocks in use. */
  ghost predicate Accounted(p: Pool, owned: seq<set<nat>>, carried: map<nat, Letter>) {
    && (forall o | o in Used(p) :: exists c :: Claims(owned, carried, c, o))
    && (forall o, c | Claims(owned, carried, c, o) :: o in Used(p))
  }

  predicate Flying(p: Pool, carried: map<nat, Letter>) {
    forall r | r in carried :: Message(p.blocks, r, carried[r].chain, carried[r].bytes)
  }

  ghost predicate Conserved(p: Pool, owned: seq<set<nat>>, carried: map<nat, Letter>) {
    Exclusive(owned, carried) && Accounted(p, owned, carried) && Flying(p, carried)
  }

  // ---------------------------------------------------------------------------------------------
  // What conservation means
  // ---------------------------------------------------------------------------------------------

  /** A block is free exactly when nobody claims it, and else it has exactly one claimant. */
  lemma OnePlace(p: Pool, owned: seq<set<nat>>, carried: map<nat, Letter>, o: nat)
    requires PoolOk(p) && Conserved(p, owned, carried) && o in p.blocks
    ensures var l := Class(p.lists, p.blocks[o].cap);
            l < |p.lists| && (o in p.lists[l].free <==> !exists c :: Claims(owned, carried, c, o))
    ensures forall l | 0 <= l < |p.lists| && o in p.lists[l].free :: l == Class(p.lists, p.blocks[o].cap)
    ensures forall c, d | Claims(owned, carried, c, o) && Claims(owned, carried, d, o) :: c == d
  {
    hide Claims;
    assert BlockOk(p, o);
    forall l | 0 <= l < |p.lists| && o in p.lists[l].free ensures l == Class(p.lists, p.blocks[o].cap) && !p.blocks[o].inUsed {
      assert ListOk(p, l);
      ClassAt(p.lists, l);
    }
    assert o in Used(p) <==> p.blocks[o].inUsed;
    assert o in Used(p) <==> exists c :: Claims(owned, carried, c, o);
  }

  /** The shutdown check passes exactly when every buffer is empty and nothing is in flight. */
  lemma AllBackIff(p: Pool, owned: seq<set<nat>>, carried: map<nat, Letter>)
    requires PoolOk(p) && Conserved(p, owned, carried)
    ensures AllReturned(p) <==> (forall i | 0 <= i < |owned| :: owned[i] == {}) && carried == map[]
  {
    AllReturnedIff(p);
    forall i | 0 <= i < |owned| ensures owned[i] <= Used(p) {
      forall o | o in owned[i] ensures o in Used(p) { assert Claims(owned, carried, Buffer(i), o); }
    }
    forall r | r in carried ensures r in Used(p) { LetterRoot(p, carried, r); }
    forall o | o in Used(p) ensures (exists i :: 0 <= i < |owned| && o in owned[i]) || carried != map[] {
      var c :| Claims(owned, carried, c, o);
    }
  }

  lemma LetterRoot(p: Pool, carried: map<nat, Letter>, r: nat)
    requires Flying(p, carried) && r in carried
    ensures r in Elems(carried[r].chain) && carried[r].chain != [] && Elems(carried[r].chain) <= Used(p)
  {
    ChainUsed(p.blocks, p, r, carried[r].chain);
    InChain(carried[r].chain, 0);
  }

  // ---------------------------------------------------------------------------------------------
  // Steps
  // ---------------------------------------------------------------------------------------------

  /** A message in flight is untouched while its blocks are. */
  lemma MessageKept(p: Pool, q: Pool, r: nat, chain: seq<nat>, bytes: seq<Byte>, keep: set<nat>)
    requires Message(p.blocks, r, chain, bytes) && Kept(p, q, keep) && Elems(chain) <= keep
    ensures Message(q.blocks, r, chain, bytes)
  {
    hide Flat;
    hide SliceOk;
    forall i | 0 <= i < |chain|
      ensures chain[i] in p.blocks && chain[i] in q.blocks && q.blocks[chain[i]] == p.blocks[chain[i]]
      ensures LinkOk(q.blocks, chain, i)
    {
      InChain(chain, i);
      assert LinkOk(p.blocks, chain, i);
    }
    var ss := SlicesFrom(p.blocks, chain);
    assert SlicesFrom(q.blocks, chain) == ss;
    forall i | 0 <= i < |ss| && ss[i].isShm
      ensures ss[i].off in p.blocks && ss[i].off in q.blocks && q.blocks[ss[i].off] == p.blocks[ss[i].off]
    {
      assert ss[i].off == chain[i];
    }
    FlatSame(ss, p.blocks, q.blocks);
  }

  /** Messages whose blocks no one moved fly on. */
  lemma FlyOn(p: Pool, q: Pool, carried: map<nat, Letter>, before: set<nat>, after: set<nat>, rest: map<nat, Letter>)
    requires Flying(p, carried) && Transfer(p, q, before, after)
    requires forall r | r in rest :: r in carried && rest[r] == carried[r] && Elems(rest[r].chain) !! before
    ensures Flying(q, rest)
  {
    hide Message;
    forall r | r in rest ensures Message(q.blocks, r, rest[r].chain, rest[r].bytes) {
      LetterRoot(p, carried, r);
      MessageKept(p, q, r, rest[r].chain, rest[r].bytes, Used(p) - before);
    }
  }

  lemma Apart2(owned: seq<set<nat>>, carried: map<nat, Letter>, k: nat, r: nat)
    requires Exclusive(owned, carried) && k < |owned| && r in carried
    ensures owned[k] !! Elems(carried[r].chain)
  {
    forall o | o in owned[k] ensures o !in Elems(carried[r].chain) {
      assert Claims(owned, carried, Buffer(k), o);
      assert Buffer(k) != Flight(r) && !Claims(owned, carried, Flight(r), o);
    }
  }

  lemma FlightsApart(owned: seq<set<nat>>, carried: map<nat, Letter>, r: nat, t: nat)
    requires Exclusive(owned, carried) && r in carried && t in carried && r != t
    ensures Elems(carried[r].chain) !! Elems(carried[t].chain)
  {
    forall o | o in Elems(carried[r].chain) ensures o !in Elems(carried[t].chain) {
      assert Claims(owned, carried, Flight(r), o);
      assert Flight(r) != Flight(t) && !Claims(owned, carried, Flight(t), o);
    }
  }

  lemma BuffersApart(owned: seq<set<nat>>, carried: map<nat, Letter>, i: nat, j: nat)
    requires Exclusive(owned, carried) && i < |owned| && j < |owned| && i != j
    ensures owned[i] !! owned[j]
  {
    forall o | o in owned[i] ensures o !in owned[j] {
      assert Claims(owned, carried, Buffer(i), o);
      assert Buffer(i) != Buffer(j) && !Claims(owned, carried, Buffer(j), o);
    }
  }

  /** Buffer `k` and some messages changed hands as `Transfer` says; the rest stayed. */
  predicate Moved(p: Pool, q: Pool, owned: seq<set<nat>>, carried: map<nat, Letter>, k: nat, now: set<nat>,
                  gone: set<nat>, rest: map<nat, Letter>)
  {
    && k < |owned|
    && Transfer(p, q, owned[k] + gone, now)
    && (forall r | r in rest :: r in carried && rest[r] == carried[r] && Elems(rest[r].chain) !! gone)
    && (forall r | r in carried && r !in rest :: Elems(carried[r].chain) <= gone)
    && (forall i | 0 <= i < |owned| && i != k :: owned[i] !! gone)
  }

  /** Blocks that did not move are still claimed as before. */
  lemma ClaimsAfter(p: Pool, q: Pool, owned: seq<set<nat>>, carried: map<nat, Letter>, k: nat, now: set<nat>,
                    gone: set<nat>, rest: map<nat, Letter>, c: Claim, o: nat)
    requires Conserved(p, owned, carried) && Moved(p, q, owned, carried, k, now, gone, rest)
    ensures Claims(owned[k := now], rest, c, o) <==>
            if c == Buffer(k) then o in now else Claims(owned, carried, c, o) && o !in owned[k] + gone
  {
    match c
    case Buffer(i) =>
      if i < |owned| && i != k { BuffersApart(owned, carried, i, k); }
    case Flight(r) =>
      if r in carried { Apart2(owned, carried, k, r); }
  }

  lemma MovedExclusive(p: Pool, q: Pool, owned: seq<set<nat>>, carried: map<nat, Letter>, k: nat, now: set<nat>,
                       gone: set<nat>, rest: map<nat, Letter>)
    requires Conserved(p, owned, carried) && Moved(p, q, owned, carried, k, now, gone, rest)
    ensures Exclusive(owned[k := now], rest)
  {
    hide Claims;
    hide Flying;
    var own2 := owned[k := now];
    forall o, c, d | Claims(own2, rest, c, o) && Claims(own2, rest, d, o) ensures c == d {
      ClaimsAfter(p, q, owned, carried, k, now, gone, rest, c, o);
      ClaimsAfter(p, q, owned, carried, k, now, gone, rest, d, o);
      assert c != Buffer(k) ==> o in Used(p) - (owned[k] + gone);
      assert d != Buffer(k) ==> o in Used(p) - (owned[k] + gone);
    }
  }

  lemma MovedAccounted(p: Pool, q: Pool, owned: seq<set<nat>>, carried: map<nat, Letter>, k: nat, now: set<nat>,
                       gone: set<nat>, rest: map<nat, Letter>)
    requires Conserved(p, owned, carried) && Moved(p, q, owned, carried, k, now, gone, rest)
    ensures Accounted(q, owned[k := now], rest)
  {
    hide Claims;
    hide Flying;
    hide Exclusive;
    var own2 := owned[k := now];
    forall o | o in Used(q) ensures exists c :: Claims(own2, rest, c, o) {
      if o in now {
        ClaimsAfter(p, q, owned, carried, k, now, gone, rest, Buffer(k), o);
        assert Claims(own2, rest, Buffer(k), o);
      } else {
        var c :| Claims(owned, carried, c, o);
        ClaimsAfter(p, q, owned, carried, k, now, gone, rest, c, o);
        if c == Buffer(k) { OwnClaim(owned, carried, k, o); }
        assert Claims(own2, rest, c, o);
      }
    }
    forall o, c | Claims(own2, rest, c, o) ensures o in Used(q) {
      ClaimsAfter(p, q, owned, carried, k, now, gone, rest, c, o);
    }
  }

  lemma OwnClaim(owned: seq<set<nat>>, carried: map<nat, Letter>, k: nat, o: nat)
    ensures Claims(owned, carried, Buffer(k), o) <==> k < |owned| && o in owned[k]
  {
  }

  /** One buffer works on its own blocks and on those of messages handed to it. */
  lemma MovedConserves(p: Pool, q: Pool, owned: seq<set<nat>>, carried: map<nat, Letter>, k: nat, now: set<nat>,
                       gone: set<nat>, rest: map<nat, Letter>)
    requires Conserved(p, owned, carried) && Moved(p, q, owned, carried, k, now, gone, rest)
    ensures Conserved(q, owned[k := now], rest)
  {
    MovedExclusive(p, q, owned, carried, k, now, gone, rest);
    MovedAccounted(p, q, owned, carried, k, now, gone, rest);
    forall r | r in rest ensures Elems(rest[r].chain) !! (owned[k] + gone) {
      Apart2(owned, carried, k, r);
    }
    FlyOn(p, q, carried, owned[k] + gone, now, rest);
  }

  /** A buffer operation that involves no message. */
  lemma BufferConserves(p: Pool, q: Pool, owned: seq<set<nat>>, carried: map<nat, Letter>, k: nat, now: set<nat>)
    requires Conserved(p, owned, carried) && k < |owned| && Transfer(p, q, owned[k], now)
    ensures Conserved(q, owned[k := now], carried)
  {
    hide Conserved;
    hide Transfer;
    assert owned[k] + {} == owned[k];
    MovedConserves(p, q, owned, carried, k, now, {}, carried);
  }

  /** The blocks of message `r` are taken into buffer `k`, or go back to the pool. */
  lemma LandingConserves(p: Pool, q: Pool, owned: seq<set<nat>>, carried: map<nat, Letter>, k: nat, now: set<nat>,
                         r: nat)
    requires Conserved(p, owned, carried) && k < |owned| && r in carried
    requires Transfer(p, q, owned[k] + Elems(carried[r].chain), now)
    ensures Conserved(q, owned[k := now], carried - {r})
  {
    hide Transfer;
    hide Accounted;
    hide Elems;
    hide Flying;
    forall t | t in carried && t != r ensures Elems(carried[t].chain) !! Elems(carried[r].chain) {
      FlightsApart(owned, carried, t, r);
    }
    forall i | 0 <= i < |owned| ensures owned[i] !! Elems(carried[r].chain) { Apart2(owned, carried, i, r); }
    hide Exclusive;
    MovedConserves(p, q, owned, carried, k, now, Elems(carried[r].chain), carried - {r});
  }

  /** Buffer `k` lets go of a message it has published. */
  lemma LaunchConserves(p: Pool, owned: seq<set<nat>>, carried: map<nat, Letter>, k: nat, rest: set<nat>, r: nat,
                        l: Letter)
    requires Conserved(p, owned, carried) && k < |owned| && r !in carried
    requires owned[k] == rest + Elems(l.chain) && rest !! Elems(l.chain)
    requires Message(p.blocks, r, l.chain, l.bytes)
    ensures Conserved(p, owned[k := rest], carried[r := l])
  {
    var own2, car2 := owned[k := rest], carried[r := l];
    forall o, c | Claims(own2, car2, c, o)
      ensures Claims(owned, carried, if c == Flight(r) then Buffer(k) else c, o)
    {
    }
    hide Message;
    hide Elems;
    forall o, c, d | Claims(own2, car2, c, o) && Claims(own2, car2, d, o) ensures c == d {
      var c1, d1 := if c == Flight(r) then Buffer(k) else c, if d == Flight(r) then Buffer(k) else d;
      assert c1 == d1;
    }
    forall o | o in Used(p) ensures exists c :: Claims(own2, car2, c, o) {
      var c :| Claims(owned, carried, c, o);
      assert Claims(own2, car2, if c == Buffer(k) && o !in rest then Flight(r) else c, o);
    }
  }

  /** A published message starts at a block of the buffer, so its root is not yet in flight. */
  lemma RootIsNew(p: Pool, owned: seq<set<nat>>, carried: map<nat, Letter>, k: nat, r: nat)
    requires Conserved(p, owned, carried) && k < |owned| && r in owned[k]
    ensures r !in carried
  {
    if r in carried {
      LetterRoot(p, carried, r);
      Apart2(owned, carried, k, r);
    }
  }

  /** A new buffer holds nothing. */
  lemma NewBuffer(p: Pool, owned: seq<set<nat>>, carried: map<nat, Letter>)
    requires Conserved(p, owned, carried)
    ensures Conserved(p, owned + [{}], carried)
  {
    var more := owned + [{}];
    forall o, c ensures Claims(more, carried, c, o) <==> Claims(owned, carried, c, o) {}
  }

  lemma DropEmpty(p: Pool, owned: seq<set<nat>>, carried: map<nat, Letter>)
    requires Conserved(p, owned + [{}], carried)
    ensures Conserved(p, owned, carried)
  {
    var more := owned + [{}];
    forall o, c ensures Claims(more, carried, c, o) <==> Claims(owned, carried, c, o) {}
  }

  /** The blocks of message `r` go back to the pool. */
  lemma ScrapConserves(p: Pool, q: Pool, owned: seq<set<nat>>, carried: map<nat, Letter>, r: nat)
    requires Conserved(p, owned, carried) && r in carried && Transfer(p, q, Elems(carried[r].chain), {})
    ensures Conserved(q, owned, carried - {r})
  {
    hide Conserved;
    hide Transfer;
    NewBuffer(p, owned, carried);
    var more := owned + [{}];
    assert more[|owned|] + Elems(carried[r].chain) == Elems(carried[r].chain);
    LandingConserves(p, q, more, carried, |owned|, {}, r);
    assert more[|owned| := {}] == more;
    DropEmpty(q, owned, carried - {r});
  }
}
