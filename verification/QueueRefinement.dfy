/** `LinkedBuffer` against a plain byte queue: any mix of operations gives the answers the plain
    queue would give, and views stay valid until they are released. */
module QueueRefinement {
  import opened Basics
  import opened Bytes
  import opened BufferPool
  import opened Manager
  import opened SliceChains
  import opened LinkedBuffers
  import opened Publish
  import opened Receive
  import opened EndToEnd
  import opened Conservation

  /** One call on a buffer.  `Adopt` is `append_buffer_slice` of bytes that came over the socket;
      `Attach` appends the slices of a chain that came through the ring, given by its first block
      and, for the proof, its blocks and bytes. */
  datatype Op =
    | Put(op: WriteOp)
    | Adopt(bytes: seq<Byte>)
    | Attach(root: nat, chain: seq<nat>, bytes: seq<Byte>)
    | Read(size: nat)
    | Look(size: nat)
    | Skip(size: nat)
    | Release
    | Drop

  /** What the caller is told. */
  datatype Answer = Fine | TooShort | Got(bytes: seq<Byte>)

  // ---------------------------------------------------------------------------------------------
  // The plain queue
  // ---------------------------------------------------------------------------------------------

  function Next(q: seq<Byte>, op: Op): seq<Byte> {
    match op
    case Put(w) => q + w.bytes
    case Adopt(bytes) => q + bytes
    case Attach(_, _, bytes) => q + bytes
    case Read(size) => if size <= |q| then q[size..] else q
    case Look(_) => q
    case Skip(size) => if size <= |q| then q[size..] else q
    case Release => q
    case Drop => []
  }

  function Reply(q: seq<Byte>, op: Op): Answer {
    match op
    case Read(size) => if size <= |q| then Got(q[..size]) else TooShort
    case Look(size) => if size <= |q| then Got(q[..size]) else TooShort
    case Skip(size) => if size <= |q| then Fine else TooShort
    case _ => Fine
  }

  function Queue(q: seq<Byte>, ops: seq<Op>): seq<Byte> {
    if ops == [] then q else Next(Queue(q, ops[..|ops| - 1]), ops[|ops| - 1])
  }

  function Replies(q: seq<Byte>, ops: seq<Op>): seq<Answer> {
    if ops == [] then []
    else Replies(q, ops[..|ops| - 1]) + [Reply(Queue(q, ops[..|ops| - 1]), ops[|ops| - 1])]
  }

  // ---------------------------------------------------------------------------------------------
  // The buffer
  // ---------------------------------------------------------------------------------------------

  predicate Callable(op: Op) {
    op.Put? && op.op.ReserveAndFill? ==> op.op.bytes != []
  }

  /** The operations that do not end views. */
  predicate Viewing(op: Op) {
    op.Read? || op.Look? || op.Skip? || op.Adopt? || op.Attach?
  }

  /** The blocks an operation brings to the buffer. */
  function Brings(op: Op): set<nat> {
    if op.Attach? then Elems(op.chain) else {}
  }

  function Brought(ops: seq<Op>): set<nat> {
    if ops == [] then {} else Brought(ops[..|ops| - 1]) + Brings(ops[|ops| - 1])
  }

  /** The chain an operation attaches is a message in memory, and none of its blocks is the buffer's. */
  predicate Arriving(op: Op, p: Pool, own: set<nat>) {
    op.Attach? ==> Message(p.blocks, op.root, op.chain, op.bytes) && Elems(op.chain) !! own
  }

  /** All the chains of a run are on their way, each with blocks of its own. */
  predicate InFlight(ops: seq<Op>, p: Pool, own: set<nat>) {
    && (forall i | 0 <= i < |ops| :: Arriving(ops[i], p, own))
    && (forall i, j | 0 <= i < j < |ops| :: Brings(ops[i]) !! Brings(ops[j]))
  }

  lemma BringsUsed(op: Op, p: Pool, own: set<nat>)
    requires Arriving(op, p, own)
    ensures Brings(op) <= Used(p) && Brings(op) !! own
  {
    if op.Attach? { ChainUsed(p.blocks, p, op.root, op.chain); }
  }

  /** A chain stays what it is while blocks move elsewhere. */
  lemma StillArriving(op: Op, p: Pool, q: Pool, own: set<nat>, before: set<nat>, after: set<nat>)
    requires Arriving(op, p, own) && Transfer(p, q, before, after) && Brings(op) !! before
    ensures Arriving(op, q, after)
  {
    if op.Attach? {
      BringsUsed(op, p, own);
      MessageKept(p, q, op.root, op.chain, op.bytes, Used(p) - before);
    }
  }

  lemma StillInFlight(ops: seq<Op>, p: Pool, q: Pool, own: set<nat>, after: set<nat>)
    requires InFlight(ops, p, own) && Transfer(p, q, own, after)
    ensures InFlight(ops, q, after)
  {
    hide Transfer;
    hide Arriving;
    hide Brings;
    forall i | 0 <= i < |ops| ensures Arriving(ops[i], q, after) {
      BringsUsed(ops[i], p, own);
      StillArriving(ops[i], p, q, own, own, after);
    }
  }

  lemma {:induction false} BroughtApart(ops: seq<Op>, i: nat, k: nat, p: Pool, own: set<nat>)
    requires InFlight(ops, p, own) && k <= i < |ops|
    ensures Brought(ops[..k]) !! Brings(ops[i])
  {
    hide Arriving;
    hide Brings;
    if k > 0 {
      BroughtApart(ops, i, k - 1, p, own);
      assert ops[..k][..k - 1] == ops[..k - 1];
    }
  }

  /** What the next operation of a run finds, and the blocks moved so far seen together with it. */
  lemma NextArrives(ops: seq<Op>, i: nat, p: Pool, q: Pool, own: set<nat>, now: set<nat>)
    requires InFlight(ops, p, own) && i < |ops| && Transfer(p, q, own + Brought(ops[..i]), now)
    ensures Arriving(ops[i], q, now)
    ensures Transfer(p, q, own + Brought(ops[..i + 1]), now + Brings(ops[i]))
    ensures Gains(ops[i], q) == Gains(ops[i], p)
  {
    hide Transfer;
    hide Arriving;
    hide Brings;
    hide Gains;
    BroughtApart(ops, i, i, p, own);
    BringsUsed(ops[i], p, own);
    StillArriving(ops[i], p, q, own, own + Brought(ops[..i]), now);
    GainsKept(ops[i], p, q, own, own + Brought(ops[..i]), now);
    Widen(p, q, own + Brought(ops[..i]), now, Brings(ops[i]));
    assert ops[..i + 1][..i] == ops[..i];
    assert own + Brought(ops[..i + 1]) == own + Brought(ops[..i]) + Brings(ops[i]);
  }

  // ---------------------------------------------------------------------------------------------
  // What happens to the list
  // ---------------------------------------------------------------------------------------------

  /** The bytes an operation takes from the front. */
  function Takes(q: seq<Byte>, op: Op): nat {
    if (op.Read? || op.Skip?) && op.size <= |q| then op.size else 0
  }

  function Taken(q: seq<Byte>, ops: seq<Op>): nat {
    if ops == [] then 0 else Taken(q, ops[..|ops| - 1]) + Takes(Queue(q, ops[..|ops| - 1]), ops[|ops| - 1])
  }

  /** The slices an operation adds at the back. */
  function Gains(op: Op, p: Pool): seq<Slice> {
    if op.Adopt? then [Slice(false, 0, |op.bytes|, 0, 0, |op.bytes|, op.bytes)]
    else if op.Attach? && InPool(op.chain, p) then Landed(SlicesFrom(p.blocks, op.chain))
    else []
  }

  predicate InPool(chain: seq<nat>, p: Pool) {
    forall j | 0 <= j < |chain| :: chain[j] in p.blocks
  }

  function Gained(ops: seq<Op>, p: Pool): seq<Slice> {
    if ops == [] then [] else Gained(ops[..|ops| - 1], p) + Gains(ops[|ops| - 1], p)
  }

  lemma {:induction false} LandedTidy(ss: seq<Slice>)
    requires Tidy(ss)
    ensures Tidy(Landed(ss))
  {
    if ss != [] { LandedTidy(ss[..|ss| - 1]); }
  }

  lemma GainsTidy(op: Op, p: Pool)
    ensures Tidy(Gains(op, p))
  {
    if op.Attach? && InPool(op.chain, p) { LandedTidy(SlicesFrom(p.blocks, op.chain)); }
  }

  lemma {:induction false} GainedTidy(ops: seq<Op>, p: Pool)
    ensures Tidy(Gained(ops, p))
  {
    if ops != [] {
      GainedTidy(ops[..|ops| - 1], p);
      GainsTidy(ops[|ops| - 1], p);
    }
  }

  /** A chain brings the same slices as long as its blocks are left alone. */
  lemma GainsKept(op: Op, p: Pool, q: Pool, own: set<nat>, before: set<nat>, after: set<nat>)
    requires Arriving(op, p, own) && Transfer(p, q, before, after) && Brings(op) !! before
    ensures Gains(op, q) == Gains(op, p)
  {
    if op.Attach? {
      BringsUsed(op, p, own);
      forall j | 0 <= j < |op.chain|
        ensures op.chain[j] in p.blocks && op.chain[j] in q.blocks && q.blocks[op.chain[j]] == p.blocks[op.chain[j]]
      {
        InChain(op.chain, j);
        assert op.chain[j] in Used(p) - before;
      }
      hide Message;
      assert SlicesFrom(q.blocks, op.chain) == SlicesFrom(p.blocks, op.chain);
    }
  }

  lemma {:induction false} GainedKept(ops: seq<Op>, n: nat, p: Pool, q: Pool, own: set<nat>, after: set<nat>)
    requires InFlight(ops, p, own) && Transfer(p, q, own, after) && n <= |ops|
    ensures Gained(ops[..n], q) == Gained(ops[..n], p)
  {
    hide Transfer;
    hide Arriving;
    hide Brings;
    hide Gains;
    if n > 0 {
      GainedKept(ops, n - 1, p, q, own, after);
      assert ops[..n][..n - 1] == ops[..n - 1];
      BringsUsed(ops[n - 1], p, own);
      GainsKept(ops[n - 1], p, q, own, own, after);
    }
  }

  /** Where a list stands after some operations: what was gained is at its back, and what was taken is
      gone from its front. */
  predicate Moved(was: seq<Slice>, now: seq<Slice>, gained: seq<Slice>, taken: nat) {
    taken <= Total(was + gained) && now == Advanced(was + gained, taken)
  }

  lemma MovedNot(was: seq<Slice>)
    requires Tidy(was)
    ensures Moved(was, was, [], 0)
  {
    assert was + [] == was;
    AdvancedNone(was);
    AdvancedTidy(was, 0);
    TidyTotal(was);
  }

  lemma {:induction false} TidyTotal(slices: seq<Slice>)
    requires Tidy(slices)
    ensures Total(slices) >= 0
  {
    if slices != [] { TidyTotal(slices[1..]); }
  }

  lemma {:induction false} TotalConcat(a: seq<Slice>, b: seq<Slice>)
    ensures Total(a + b) == Total(a) + Total(b)
  {
    if a == [] {
      assert a + b == b;
    } else {
      assert (a + b)[1..] == a[1..] + b;
      TotalConcat(a[1..], b);
    }
  }

  /** One more operation. */
  lemma MovedMore(was: seq<Slice>, now: seq<Slice>, gained: seq<Slice>, taken: nat, more: seq<Slice>, n: nat)
    requires Moved(was, now, gained, taken) && Tidy(was) && Tidy(gained) && Tidy(more) && n <= Total(now)
    ensures Moved(was, Advanced(now + more, n), gained + more, taken + n)
  {
    var all := was + gained;
    hide Advanced;
    assert was + (gained + more) == all + more;
    AdvancedTidy(all, taken);
    AdvancedAppend(all, more, taken);
    AdvancedTwice(all + more, taken, n);
    TotalConcat(all, more);
    TidyTotal(more);
  }

  function Answered(r: ReadResult): Answer {
    if r.NotEnoughData? then TooShort else Got(r.bytes)
  }

  method Step(buf: LinkedBuffer, op: Op) returns (a: Answer)
    requires buf.Valid() && Callable(op) && Arriving(op, buf.mgr.pool, buf.Owned())
    modifies buf, buf.mgr
    ensures buf.Valid()
    ensures buf.Contents() == Next(old(buf.Contents()), op) && a == Reply(old(buf.Contents()), op)
    ensures Transfer(old(buf.mgr.pool), buf.mgr.pool, old(buf.Owned()) + Brings(op), buf.Owned())
    ensures Viewing(op) ==> Views(old(buf.mgr.pool), buf.mgr.pool, old(buf.Viewed()), buf.Viewed())
    ensures Viewing(op) ==>
      buf.slices == Advanced(old(buf.slices) + Gains(op, old(buf.mgr.pool)), Takes(old(buf.Contents()), op))
    ensures op.Put? && old(SendOnly(buf.slices, buf.mgr.pool)) ==> SendOnly(buf.slices, buf.mgr.pool)
    ensures op.Drop? ==> buf.slices == [] && buf.pinned == old(buf.pinned)
    ensures op.Release? ==> buf.pinned == []
    ensures op.Put? ==> buf.pinned == old(buf.pinned)
    ensures op.Put? && old(buf.fromShm == AllShm(buf.slices)) ==> buf.fromShm == AllShm(buf.slices)
    ensures op.Put? && old(buf.fromShm) && !buf.fromShm ==> Starved(buf.mgr.pool, op.op)
    ensures op.Read? || op.Look? || op.Skip? || op.Release? ==> buf.fromShm == old(buf.fromShm)
    ensures op.Adopt? ==> !buf.fromShm
    ensures op.Drop? ==> buf.fromShm
    ensures old(buf.slices) == [] && !op.Put? && !op.Adopt? && !op.Attach? ==> buf.slices == []
    ensures op.Drop? && old(buf.slices) == [] ==> buf.mgr.pool == old(buf.mgr.pool)
    ensures op.Put? && op.op.Write? && op.op.bytes != [] && old(buf.slices == [] && Fits(buf.mgr.pool, |op.op.bytes|)) ==>
      buf.slices != [] && buf.slices[0].isShm
  {
    hide SendOnly;
    hide PoolOk;
    hide SlicesOk;
    hide SliceOk;
    hide Apart;
    hide Flat;
    hide Offs;
    hide Transfer;
    hide Views;
    hide ViewedOffs;
    hide Message;
    hide Elems;
    hide Advanced;
    hide Tidy;
    hide Landed;
    hide Gains;
    hide AllShm;
    hide Enlarged;
    hide ShmFrom;
    hide Starved;
    ghost var was := buf.slices;
    ListAfter(was, buf.mgr.pool, op);
    HoldsUsed(buf.slices, buf.pinned, buf.mgr.pool);
    TransferSelf(buf.mgr.pool, Offs(buf.pinned + buf.slices));
    a := Fine;
    FlatPast(buf.slices, buf.mgr.pool);
    assert !op.Attach? ==> buf.Owned() + Brings(op) == buf.Owned();
    match op
    case Attach(root, chain, bytes) =>
      MoveChain(buf, root, chain, bytes);
    case Put(w) =>
      ghost var flag, p := buf.fromShm, buf.mgr.pool;
      WriteOne(buf, w);
      if flag == AllShm(was) { FlagStill(was, buf.slices, flag, buf.fromShm, p, buf.mgr.pool); }
      FlagWhy(was, buf.slices, flag, buf.fromShm, p, buf.mgr.pool);
    case Adopt(bytes) =>
      var s := Slice(false, 0, |bytes|, 0, 0, |bytes|, bytes);
      HeapOf(bytes, s, buf.mgr.pool);
      buf.AppendSlice(s);
      assert buf.Owned() == old(buf.Owned());
    case Read(size) =>
      var r := buf.ReadBytes(size);
      a := Answered(r);
    case Look(size) =>
      var r := buf.Peek(size);
      a := Answered(r);
    case Skip(size) =>
      var ok, n := buf.Discard(size);
      a := if ok then Fine else TooShort;
    case Release =>
      buf.ReleasePreviousRead();
    case Drop =>
      HoldsBacked(buf.slices, buf.pinned, buf.mgr.pool);
      buf.RecycleAll();
  }

  lemma FlagWhy(was: seq<Slice>, now: seq<Slice>, before: bool, after: bool, p: Pool, q: Pool)
    requires Enlarged(was, now, before, after, p, q)
    ensures before && !after ==> !ShmFrom(now, |was|)
  {
  }

  lemma HeapOf(bytes: seq<Byte>, s: Slice, p: Pool)
    requires s == Slice(false, 0, |bytes|, 0, 0, |bytes|, bytes)
    ensures SliceOk(s, p.blocks) && Unread(s, p.blocks) == bytes
  {
  }

  lemma TakesLess(q: seq<Byte>, op: Op)
    ensures Takes(q, op) <= |q|
  {
  }

  /** What the appends do to the list, and what the operations that add nothing leave to be said. */
  lemma ListAfter(slices: seq<Slice>, p: Pool, op: Op)
    requires SlicesOk(slices, p.blocks)
    ensures Tidy(slices) && Advanced(slices, 0) == slices
    ensures op.Adopt? || op.Attach? ==> Advanced(slices + Gains(op, p), 0) == slices + Gains(op, p)
    ensures !op.Adopt? && !op.Attach? ==> slices + Gains(op, p) == slices
    ensures op.Adopt? ==> Gains(op, p) == [Slice(false, 0, |op.bytes|, 0, 0, |op.bytes|, op.bytes)]
    ensures op.Attach? && InPool(op.chain, p) ==> Gains(op, p) == Landed(SlicesFrom(p.blocks, op.chain))
  {
    TotalFlat(slices, p);
    hide Advanced;
    hide Landed;
    AdvancedNone(slices);
    GainsTidy(op, p);
    AdvancedNone(slices + Gains(op, p));
  }

  /** Any run: same answers and same bytes as the plain queue, with the buffer sound throughout; so
      the write cursor never leaves the list, and `len` never drifts. */
  method Run(buf: LinkedBuffer, ops: seq<Op>) returns (answers: seq<Answer>)
    requires buf.Valid() && forall i | 0 <= i < |ops| :: Callable(ops[i])
    requires InFlight(ops, buf.mgr.pool, buf.Owned())
    modifies buf, buf.mgr
    ensures buf.Valid() && buf.cursor == LastOf(buf.slices) && buf.len == |buf.Contents()|
    ensures buf.Contents() == Queue(old(buf.Contents()), ops) && answers == Replies(old(buf.Contents()), ops)
    ensures Transfer(old(buf.mgr.pool), buf.mgr.pool, old(buf.Owned()) + Brought(ops), buf.Owned())
    ensures (forall i | 0 <= i < |ops| :: Viewing(ops[i])) ==>
              && Views(old(buf.mgr.pool), buf.mgr.pool, old(buf.Viewed()), buf.Viewed())
              && Moved(old(buf.slices), buf.slices, Gained(ops, old(buf.mgr.pool)), Taken(old(buf.Contents()), ops))
  {
    hide PoolOk;
    hide SlicesOk;
    hide SliceOk;
    hide Apart;
    hide Flat;
    hide Offs;
    hide Transfer;
    hide Views;
    hide ViewedOffs;
    hide Next;
    hide Reply;
    hide Brings;
    hide Arriving;
    hide InFlight;
    hide Moved;
    hide Advanced;
    hide Tidy;
    hide Total;
    hide Takes;
    hide Gains;
    hide Callable;
    ghost var p, all := buf.mgr.pool, buf.Contents();
    TotalFlat(buf.slices, p);
    MovedNot(buf.slices);
    HoldsUsed(buf.slices, buf.pinned, p);
    TransferSelf(p, Offs(buf.pinned + buf.slices));
    ViewsSelf(buf.slices, buf.pinned, buf.currentPinned, p);
    answers := [];
    assert ops[..0] == [] && buf.Owned() + Brought([]) == buf.Owned();
    var i := 0;
    while i < |ops|
      invariant 0 <= i <= |ops| && buf.Valid()
      invariant buf.Contents() == Queue(all, ops[..i]) && answers == Replies(all, ops[..i])
      invariant Transfer(p, buf.mgr.pool, old(buf.Owned()) + Brought(ops[..i]), buf.Owned())
      invariant (forall j | 0 <= j < i :: Viewing(ops[j])) ==>
                  && Views(p, buf.mgr.pool, old(buf.Viewed()), buf.Viewed())
                  && Moved(old(buf.slices), buf.slices, Gained(ops[..i], p), Taken(all, ops[..i]))
    {
      ghost var q, own, seen := buf.mgr.pool, buf.Owned(), buf.Viewed();
      assert ops[..i + 1][..i] == ops[..i];
      NextArrives(ops, i, p, q, old(buf.Owned()), own);
      ghost var was, text := buf.slices, buf.Contents();
      TotalFlat(was, q);
      var a := Step(buf, ops[i]);
      answers := answers + [a];
      TransferThen(p, q, buf.mgr.pool, old(buf.Owned()) + Brought(ops[..i + 1]), own + Brings(ops[i]), buf.Owned());
      if forall j | 0 <= j < i + 1 :: Viewing(ops[j]) {
        assert Viewing(ops[i]);
        ViewsThen(p, q, buf.mgr.pool, old(buf.Viewed()), seen, buf.Viewed());
        TakesLess(text, ops[i]);
        GainedTidy(ops[..i], p);
        GainsTidy(ops[i], p);
        MovedMore(old(buf.slices), was, Gained(ops[..i], p), Taken(all, ops[..i]), Gains(ops[i], p), Takes(text, ops[i]));
      }
      i := i + 1;
    }
    assert ops[..i] == ops;
  }

  /** A view handed out by a read or a peek: after any later reads, peeks, discards and appends its
      block is still in use and still holds the bytes of the view. */
  method ViewThenRun(buf: LinkedBuffer, size: nat, take: bool, ops: seq<Op>)
    returns (r: ReadResult, answers: seq<Answer>)
    requires buf.Valid() && forall i | 0 <= i < |ops| :: Viewing(ops[i])
    requires InFlight(ops, buf.mgr.pool, buf.Owned())
    modifies buf, buf.mgr
    ensures buf.Valid()
    ensures r.NotEnoughData? <==> |old(buf.Contents())| < size
    ensures !r.NotEnoughData? ==> r.bytes == old(buf.Contents())[..size]
    ensures var q := if take && !r.NotEnoughData? then old(buf.Contents())[size..] else old(buf.Contents());
            answers == Replies(q, ops) && buf.Contents() == Queue(q, ops)
    ensures r.View? && r.inShm ==> ViewBacked(buf.mgr.pool, r) && r.off in Used(buf.mgr.pool) && r.off in buf.Viewed()
  {
    hide PoolOk;
    hide SlicesOk;
    hide SliceOk;
    hide Apart;
    hide Flat;
    hide Offs;
    hide Transfer;
    hide ViewedOffs;
    hide InFlight;
    hide Replies;
    hide Queue;
    ghost var p, own := buf.mgr.pool, buf.Owned();
    if take {
      r := buf.ReadBytes(size);
      StillInFlight(ops, p, buf.mgr.pool, own, buf.Owned());
    } else {
      r := buf.Peek(size);
    }
    answers := Run(buf, ops);
  }

  // ---------------------------------------------------------------------------------------------
  // Views of heap slices
  // ---------------------------------------------------------------------------------------------

  /** The slice a view is of; heap storage holds its bytes. */
  predicate ViewIn(r: ReadResult, s: Slice) {
    && r.View? && r.inShm == s.isShm
    && (!s.isShm ==> r.from + |r.bytes| <= |s.heap| && r.bytes == s.heap[r.from..r.from + |r.bytes|])
  }

  /** The next bytes are those of the slice the next read starts with. */
  lemma ViewedBytes(slices: seq<Slice>, p: Pool, r: ReadResult)
    requires SlicesOk(slices, p.blocks) && slices != [] && ViewOf(r, FirstUnread(slices))
    requires 0 < |r.bytes| <= Size(FirstUnread(slices)) && r.bytes <= Flat(slices, p.blocks)
    ensures ViewIn(r, FirstUnread(slices))
  {
    hide Unread;
    hide Flat;
    FlatHead(slices, p.blocks);
    if Size(slices[0]) == 0 { FlatHead(slices[1..], p.blocks); }
    var s := FirstUnread(slices);
    UnreadOf(s, p);
    assert r.bytes == Unread(s, p.blocks)[..|r.bytes|];
  }

  lemma UnreadOf(s: Slice, p: Pool)
    requires SliceOk(s, p.blocks)
    ensures !s.isShm ==> Unread(s, p.blocks) == s.heap[s.read..s.write]
  {
  }

  /** The list right after a view was handed out; its slice is the front. */
  lemma AfterView(slices: seq<Slice>, size: nat)
    requires slices != [] && 0 < size <= Size(FirstUnread(slices)) && (Size(slices[0]) == 0 ==> |slices| > 1)
    ensures var now, s := Advanced(slices, size), FirstUnread(slices);
            now != [] && now[0] == s.(read := s.read + size)
  {
  }

  /** The list a view leaves: a read takes the bytes, a peek does not. */
  function ListOf(slices: seq<Slice>, size: nat, take: bool): seq<Slice> {
    if take then Advanced(slices, size) else slices
  }

  /** What becomes of the slice at the front of `list` when `taken` bytes are taken: it stays, in its
      place, if and only if it holds that many; else it is gone. */
  predicate FrontStaysIff(list: seq<Slice>, now: seq<Slice>, taken: nat)
    requires list != []
  {
    && (|now| == |list| <==> taken <= Size(list[0]))
    && now == if taken <= Size(list[0]) then list[0 := list[0].(read := list[0].read + taken)]
              else Advanced(list[1..], taken - Size(list[0]))
  }

  lemma FrontStays(list: seq<Slice>, taken: nat)
    requires list != [] && Tidy(list)
    ensures FrontStaysIff(list, Advanced(list, taken), taken)
  {
    AdvancedLength(list, taken);
  }

  /** A view handed out by a read or a peek, and any later reads, peeks, discards and appends: its slice
      is still the front of the list if and only if the reads and discards took no more than it had left.
      A heap slice is in no other list, so that is exactly when such a view is still backed. */
  method HeapViewIff(buf: LinkedBuffer, size: nat, take: bool, ops: seq<Op>)
    returns (r: ReadResult, answers: seq<Answer>)
    requires buf.Valid() && forall i | 0 <= i < |ops| :: Viewing(ops[i])
    requires InFlight(ops, buf.mgr.pool, buf.Owned())
    modifies buf, buf.mgr
    ensures buf.Valid() && forall s | s in buf.pinned :: s.isShm
    ensures r.View? ==>
      && size <= |old(buf.Contents())|
      && var text := if take then old(buf.Contents())[size..] else old(buf.Contents());
         var after := ListOf(old(buf.slices), size, take);
         && after != [] && ViewIn(r, after[0])
         && FrontStaysIff(after + Gained(ops, old(buf.mgr.pool)), buf.slices, Taken(text, ops))
  {
    hide PoolOk;
    hide SlicesOk;
    hide SliceOk;
    hide Apart;
    hide Flat;
    hide Offs;
    hide Transfer;
    hide ViewedOffs;
    hide Views;
    hide InFlight;
    hide Advanced;
    hide Tidy;
    hide Gained;
    hide Taken;
    hide FrontStaysIff;
    ghost var p, own, was := buf.mgr.pool, buf.Owned(), buf.slices;
    TotalFlat(was, p);
    if take {
      r := buf.ReadBytes(size);
      StillInFlight(ops, p, buf.mgr.pool, own, buf.Owned());
      GainedKept(ops, |ops|, p, buf.mgr.pool, own, buf.Owned());
      assert ops[..|ops|] == ops;
    } else {
      r := buf.Peek(size);
    }
    if r.View? {
      if buf.slices == [] || take { NotLast(was, p); }
      ViewedBytes(was, p, r);
      if take { AfterView(was, size); }
    }
    ghost var after, q := buf.slices, buf.mgr.pool;
    answers := Run(buf, ops);
    if r.View? {
      TotalFlat(after, q);
      GainedTidy(ops, p);
      TidyConcat(after, Gained(ops, p));
      FrontStays(after + Gained(ops, p), Taken(if take then old(buf.Contents())[size..] else old(buf.Contents()), ops));
    }
  }

  lemma TidyConcat(a: seq<Slice>, b: seq<Slice>)
    requires Tidy(a) && Tidy(b)
    ensures Tidy(a + b)
  {
  }

  /** Two slices of one byte, and the second read drops the storage the first one handed out. */
  method HeapViewDropped(mgr: BufferManager, x: Byte, y: Byte) returns (buf: LinkedBuffer, r: ReadResult)
    requires PoolOk(mgr.pool) && x != y
    modifies mgr
    ensures buf.Valid() && r == View([x], false, 0, 0)
    ensures forall s | s in buf.pinned + buf.slices :: s.heap != r.bytes
  {
    hide PoolOk;
    hide SlicesOk;
    hide SliceOk;
    hide Apart;
    hide Flat;
    hide Offs;
    hide Transfer;
    hide Views;
    hide ViewedOffs;
    var s, t := Slice(false, 0, 1, 0, 0, 1, [x]), Slice(false, 0, 1, 0, 0, 1, [y]);
    HeapOf([x], s, mgr.pool);
    HeapOf([y], t, mgr.pool);
    buf := new LinkedBuffer(mgr);
    buf.AppendSlice(s);
    buf.AppendSlice(t);
    assert buf.slices == [s, t] && buf.Contents() == [x, y];
    r := buf.ReadBytes(1);
    assert buf.slices == [s.(read := 1), t];
    var next := buf.ReadBytes(1);
    assert buf.slices == [t.(read := 1)] && buf.pinned + buf.slices == [t.(read := 1)];
  }
}
