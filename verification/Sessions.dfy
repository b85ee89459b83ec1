/** Two endpoints, any number of streams, two rings and a socket: where every block is, over any run
    of opens, writes, flushes, polls, reads, releases and closes.  Each step is one call; what happens
    when calls overlap is the subject of the protocol modules. */
module Sessions {
  import opened Basics
  import opened Bytes
  import opened BufferPool
  import opened Manager
  import opened LinkedBuffers
  import opened EndToEnd
  import opened QueueRefinement
  import opened Conservation
  import opened Arenas
  import opened ReadReuse
  import opened SessionParts
  import opened SessionState
  import opened SessionView
  import M = SessionModel
  import W = SessionWakeUps

  class Pair {
    const arena: Arena
    const cap: nat
    const version: Byte
    var streams: seq<Stream>
    var table: map<(bool, nat), nat>
    var rings: Duo<seq<Elem>>
    var wires: Duo<seq<Frame>>

    /** The arena conserves its blocks, and every message in flight waits in exactly one place: in a
        ring, with a stream, or in the hands of the running call (`loose`). */
    ghost predicate InvWith(loose: multiset<nat>)
      reads this, arena, arena.mgr, arena.bufs
    {
      && arena.Ok() && |arena.bufs| == 2 * |streams|
      && Shaped(streams, arena.roles) && Tabled(table, streams)
      && loose + Waiting(rings, streams) == multiset(arena.carried.Keys)
    }

    ghost predicate Inv()
      reads this, arena, arena.mgr, arena.bufs
    {
      InvWith(multiset{})
    }

    constructor (mgr: BufferManager, cap: nat, version: Byte)
      requires PoolOk(mgr.pool) && Used(mgr.pool) == {}
      ensures Inv() && M.Init(Abs()) && arena.mgr == mgr && fresh(arena) && arena.bufs == []
      ensures streams == [] && this.cap == cap && this.version == version
    {
      hide Arena.Ok;
      arena := new Arena(mgr);
      this.cap, this.version := cap, version;
      streams, table, rings, wires := [], map[], Duo([], []), Duo([], []);
      new;
      assert multiset(arena.carried.Keys) == multiset{};
    }

    /** A new stream of endpoint `client`, in its table. */
    method NewStream(client: bool, id: nat, ghost loose: multiset<nat>)
      returns (i: nat, ghost send: LinkedBuffer, ghost recv: LinkedBuffer)
      requires InvWith(loose)
      modifies this`streams, this`table, arena`bufs, arena`roles
      ensures InvWith(loose) && i == |old(streams)| && table == old(table)[(client, id) := i]
      ensures streams == old(streams) + [NewStreamOf(client, id)]
      ensures arena.bufs == old(arena.bufs) + [send, recv] && fresh(send) && fresh(recv)
      ensures arena.Texts() == old(arena.Texts()) + [[], []] && arena.carried == old(arena.carried)
      ensures arena.Owned() == old(arena.Owned()) + [{}, {}] && send.slices == [] && recv.slices == []
    {
      hide Arena.Ok;
      hide Arena.BufferOk;
      hide Waiting;
      hide Shaped;
      hide Tabled;
      var s := NewStreamOf(client, id);
      NoneWaiting(rings, streams, s);
      ShapedNew(streams, arena.roles, s);
      TabledNew(table, streams, s);
      send, recv := arena.Open();
      i := |streams|;
      streams := streams + [s];
      table := table[(client, id) := i];
    }

    // -------------------------------------------------------------------------------------------
    // Arrivals
    // -------------------------------------------------------------------------------------------

    /** The chains of `waiting` go back to the pool. */
    method Discharge(waiting: seq<Wrapper>, ghost loose: multiset<nat>)
      requires InvWith(loose + WaitRoots(waiting))
      modifies arena`carried, arena.mgr
      ensures InvWith(loose) && arena.Owned() == old(arena.Owned())
      ensures arena.Texts() == old(arena.Texts()) && Fewer(arena.carried, old(arena.carried))
      ensures waiting == [] ==> arena.mgr.pool == old(arena.mgr.pool)
    {
      hide Arena.Ok;
      hide Arena.BufferOk;
      hide Waiting;
      hide WaitRoots;
      hide Shaped;
      hide Tabled;
      var n := 0;
      NoRoots();
      assert waiting[0..] == waiting;
      while n < |waiting|
        invariant 0 <= n <= |waiting|
        invariant InvWith(loose + WaitRoots(waiting[n..])) && arena.Owned() == old(arena.Owned())
        invariant arena.Texts() == old(arena.Texts()) && Fewer(arena.carried, old(arena.carried))
        invariant n == 0 ==> arena.mgr.pool == old(arena.mgr.pool)
      {
        WaitFrom(waiting, n);
        ghost var more := WaitRoots(waiting[n + 1..]);
        if waiting[n].Shm? {
          assert loose + WaitRoots(waiting[n..]) == (loose + more) + multiset{waiting[n].root};
          KeysWithout(loose + more, Waiting(rings, streams), arena.carried.Keys, waiting[n].root);
          arena.Scrap(waiting[n].root);
        } else {
          assert WaitRoots(waiting[n..]) == more;
        }
        n := n + 1;
      }
      assert waiting[n..] == [];
      assert loose + multiset{} == loose;
    }

    /** `clean_pending_data`: every chain that waits with stream `i` goes back to the pool. */
    method CleanPending(i: nat, ghost loose: multiset<nat>)
      requires InvWith(loose) && i < |streams|
      modifies this`streams, arena`carried, arena.mgr
      ensures InvWith(loose) && streams == old(streams)[i := old(streams)[i].(pending := [])]
      ensures arena.Owned() == old(arena.Owned())
      ensures arena.Texts() == old(arena.Texts()) && Fewer(arena.carried, old(arena.carried))
      ensures old(streams)[i].pending == [] ==> arena.mgr.pool == old(arena.mgr.pool)
    {
      hide Arena.Ok;
      hide Arena.BufferOk;
      hide Waiting;
      hide WaitRoots;
      hide Shaped;
      hide Tabled;
      hide StreamOk;
      var waiting := streams[i].pending;
      SetPending(i, []);
      SwapOut(rings, streams, i, streams[i].(pending := []));
      streams := streams[i := streams[i].(pending := [])];
      assert loose + (WaitRoots(waiting) + Waiting(rings, streams)) == (loose + WaitRoots(waiting)) + Waiting(rings, streams);
      Discharge(waiting, loose);
    }

    /** The receiving buffer of stream `i` is recycled; its pinned blocks stay. */
    method DropReceived(i: nat, ghost loose: multiset<nat>)
      requires InvWith(loose) && i < |streams|
      modifies arena`roles, arena.bufs[2 * i + 1], arena.mgr
      ensures InvWith(loose)
      ensures arena.Owned() == old(arena.Owned())[2 * i + 1 := Offs(old(arena.bufs[2 * i + 1].pinned))]
      ensures arena.Texts() == old(arena.Texts())[2 * i + 1 := []] && arena.carried == old(arena.carried)
      ensures arena.roles == old(arena.roles) && arena.bufs[2 * i + 1].slices == []
      ensures old(arena.bufs[2 * i + 1].slices) == [] ==> arena.mgr.pool == old(arena.mgr.pool)
    {
      hide Offs;
      hide Arena.Ok;
      hide Arena.BufferOk;
      hide Waiting;
      hide Shaped;
      hide Tabled;
      hide Next;
      hide Reply;
      ReceivingRole(streams, arena.roles, i);
      DropsAll(arena.Texts()[2 * i + 1]);
      var a := arena.Call(2 * i + 1, Drop);
      assert arena.bufs[2 * i + 1].pinned + [] == arena.bufs[2 * i + 1].pinned;
    }

    /** `fill_data_to_read_buffer`: data waits with its stream; a closed stream takes none, and what
        was pushed is cleaned away with whatever waits. */
    method Fill(i: nat, w: Wrapper, ghost loose: multiset<nat>)
      requires InvWith(loose + if w.Shm? then multiset{w.root} else multiset{}) && i < |streams|
      modifies this`streams, arena`carried, arena`roles, arena.bufs[2 * i + 1], arena.mgr
      ensures InvWith(loose) && streams == old(streams)[i := Filled(old(streams)[i], w)]
      ensures SameSenders(old(arena.Owned()), arena.Owned())
      ensures arena.Texts() == old(arena.Texts()) && Fewer(arena.carried, old(arena.carried))
    {
      hide Arena.Owned;
      hide Arena.Texts;
      hide Arena.BufferOk;
      hide Fewer;
      hide Arena.Ok;
      hide Waiting;
      hide Shaped;
      hide Tabled;
      hide StreamOk;
      hide SameSenders;
      SameSelf(streams, arena.Owned());
      FewerSelf(arena.carried);
      if streams[i].status == Closed {
        Refuse(i, w, loose);
        assert streams[i := streams[i]] == streams;
      } else {
        ghost var held := if w.Shm? then multiset{w.root} else multiset{};
        SetPending(i, streams[i].pending + [w]);
        PushPending(rings, streams, i, w);
        assert (loose + held) + Waiting(rings, streams) == loose + (Waiting(rings, streams) + held);
        streams := streams[i := streams[i].(pending := streams[i].pending + [w])];
      }
    }

    /** What a closed stream does with data. */
    method Refuse(i: nat, w: Wrapper, ghost loose: multiset<nat>)
      requires InvWith(loose + if w.Shm? then multiset{w.root} else multiset{})
      requires i < |streams| && streams[i].status == Closed
      modifies arena`carried, arena`roles, arena.bufs[2 * i + 1], arena.mgr
      ensures InvWith(loose) && SameSenders(old(arena.Owned()), arena.Owned())
      ensures arena.Texts() == old(arena.Texts()) && Fewer(arena.carried, old(arena.carried))
    {
      hide Arena.Ok;
      hide Waiting;
      hide Shaped;
      hide Tabled;
      hide StreamOk;
      hide SameSenders;
      ReceivingRole(streams, arena.roles, i);
      var waiting := streams[i].pending + [w];
      WaitPut([], w);
      NoRoots();
      assert waiting == [] + [w];
      hide WaitRoots;
      Discharge(waiting, loose);
      SendersSet(arena.Owned(), 2 * i + 1, Offs(arena.bufs[2 * i + 1].pinned));
      ghost var texts := arena.Texts();
      arena.RetiredText(2 * i + 1);
      DropReceived(i, loose);
      assert texts[2 * i + 1 := []] == texts;
    }

    /** `half_close`. */
    method HalfClose(i: nat)
      requires Inv() && i < |streams|
      modifies this`streams
      ensures Inv() && streams == old(streams)[i := HalfClosedStream(old(streams)[i])]
    {
      hide Arena.Ok;
      hide Waiting;
      hide Shaped;
      hide Tabled;
      if streams[i].status == Opened {
        ShapedAt(streams, arena.roles, i);
        Update(i, streams[i].(status := HalfClosed), arena.roles[2 * i]);
        streams := streams[i := streams[i].(status := HalfClosed)];
      }
    }

    /** `get_stream` and `handle_stream_message` for data: it goes to the stream of that id, which a
        server opens on first contact; a client does not take data for a stream it does not know. */
    method Arrive(side: bool, id: nat, w: Wrapper) returns (taken: bool)
      requires InvWith(if w.Shm? then multiset{w.root} else multiset{})
      modifies this`streams, this`table, arena, arena.bufs, arena.mgr
      ensures InvWith(if w.Shm? && !taken then multiset{w.root} else multiset{})
      ensures taken <==> (side, id) in old(table) || !side
      ensures streams == Arrived(old(streams), old(table), side, id, w)
      ensures table == TableAfter(old(table), |old(streams)|, side, id)
      ensures arena.Texts() == old(arena.Texts()) + (if |streams| > |old(streams)| then [[], []] else [])
      ensures Fewer(arena.carried, old(arena.carried))
      ensures Younger(old(arena.bufs), arena.bufs) && SameSenders(old(arena.Owned()), arena.Owned())
    {
      hide Arena.Owned;
      hide Arena.Texts;
      hide LinkedBuffer.Owned;
      hide Arena.Ok;
      hide Arena.BufferOk;
      hide LinkedBuffer.Valid;
      hide Fewer;
      hide SameSenders;
      hide Waiting;
      hide Shaped;
      hide StreamOk;
      ghost var none: multiset<nat> := multiset{};
      ghost var held := if w.Shm? then multiset{w.root} else none;
      assert held == none + held;
      FewerSelf(arena.carried);
      SameSelf(streams, arena.Owned());
      assert arena.Texts() + [] == arena.Texts();
      if (side, id) in table {
        Fill(table[(side, id)], w, none);
        return true;
      }
      if side {
        return false;
      }
      FirstContact(id, w);
      return true;
    }

    /** Data for a stream the server does not know opens it. */
    method FirstContact(id: nat, w: Wrapper)
      requires InvWith(if w.Shm? then multiset{w.root} else multiset{})
      modifies this`streams, this`table, arena, arena.bufs, arena.mgr
      ensures Inv() && streams == old(streams) + [Filled(NewStreamOf(false, id), w)]
      ensures table == old(table)[(false, id) := |old(streams)|]
      ensures arena.Texts() == old(arena.Texts()) + [[], []] && Fewer(arena.carried, old(arena.carried))
      ensures Younger(old(arena.bufs), arena.bufs) && SameSenders(old(arena.Owned()), arena.Owned())
    {
      hide Arena.Ok;
      hide Arena.BufferOk;
      hide Arena.Owned;
      hide Arena.Texts;
      hide LinkedBuffer.Valid;
      hide LinkedBuffer.Owned;
      hide Fewer;
      hide SameSenders;
      hide Waiting;
      hide Shaped;
      hide StreamOk;
      hide Tabled;
      ghost var none: multiset<nat> := multiset{};
      ghost var held := if w.Shm? then multiset{w.root} else none;
      assert held == none + held;
      ghost var x := arena.Owned();
      var i, send, recv := NewStream(false, id, held);
      ghost var y := arena.Owned();
      SendersMore(x);
      Fill(i, w, none);
      SendersThen(x, y, arena.Owned());
    }

    /** One element of `handle_polling` on endpoint `side`; data nobody takes goes back to the pool. */
    method Poll(side: bool)
      requires Inv()
      modifies this, arena, arena.bufs, arena.mgr
      ensures Inv() && Younger(old(arena.bufs), arena.bufs) && SameSenders(old(arena.Owned()), arena.Owned())
      ensures streams == if old(rings).At(side) == [] then old(streams)
                         else Polled(old(streams), old(table), side, old(rings).At(side)[0])
      ensures wires == old(wires) && Fewer(arena.carried, old(arena.carried))
      ensures arena.Texts() == old(arena.Texts()) + (if |streams| > |old(streams)| then [[], []] else [])
      ensures table == if old(rings).At(side) == [] || old(rings).At(side)[0].Goodbye? then old(table)
                       else TableAfter(old(table), |old(streams)|, side, old(rings).At(side)[0].id)
      ensures rings == if old(rings).At(side) == [] then old(rings) else old(rings).Set(side, old(rings).At(side)[1..])
    {
      hide InvWith;
      hide Arena.Ok;
      hide Arena.BufferOk;
      hide Arena.Owned;
      hide Arena.Texts;
      hide LinkedBuffer.Valid;
      hide LinkedBuffer.Owned;
      hide SameSenders;
      hide Fewer;
      hide Arrived;
      hide Parted;
      hide TableAfter;
      hide Tabled;
      SameSelf(streams, arena.Owned());
      FewerSelf(arena.carried);
      Known();
      Sane();
      assert arena.Texts() + [] == arena.Texts();
      if rings.At(side) == [] {
        return;
      }
      var e := TakeFirst(side);
      match e
      case Goodbye(id) =>
        Part(side, id);
      case Message(id, root) =>
        PollMessage(side, id, root);
    }

    /** The first element of the ring of endpoint `side`. */
    method TakeFirst(side: bool) returns (e: Elem)
      requires Inv() && rings.At(side) != []
      modifies this`rings
      ensures InvWith(if e.Message? then multiset{e.root} else multiset{})
      ensures e == old(rings).At(side)[0] && rings == old(rings).Set(side, old(rings).At(side)[1..])
    {
      hide Arena.Ok;
      hide Waiting;
      hide Shaped;
      hide Tabled;
      RingPopped(rings, streams, side);
      e := rings.At(side)[0];
      rings := rings.Set(side, rings.At(side)[1..]);
    }

    /** A close reaches the stream of its id. */
    method Part(side: bool, id: nat)
      requires Inv()
      modifies this`streams
      ensures Inv() && streams == Parted(old(streams), table, side, id) && |streams| == |old(streams)|
    {
      hide Arena.Ok;
      hide Waiting;
      hide Shaped;
      if (side, id) in table {
        HalfClose(table[(side, id)]);
      }
    }

    /** A chain that a ring element brings; nobody may want it. */
    method PollMessage(side: bool, id: nat, root: nat)
      requires InvWith(multiset{root})
      modifies this`streams, this`table, arena, arena.bufs, arena.mgr
      ensures Inv() && Younger(old(arena.bufs), arena.bufs) && SameSenders(old(arena.Owned()), arena.Owned())
      ensures streams == Arrived(old(streams), old(table), side, id, Shm(root))
      ensures table == TableAfter(old(table), |old(streams)|, side, id)
      ensures arena.Texts() == old(arena.Texts()) + (if |streams| > |old(streams)| then [[], []] else [])
      ensures Fewer(arena.carried, old(arena.carried))
    {
      hide Arena.Owned;
      hide Arena.Texts;
      hide LinkedBuffer.Owned;
      hide Arena.Ok;
      hide Arena.BufferOk;
      hide LinkedBuffer.Valid;
      hide Waiting;
      hide Shaped;
      hide StreamOk;
      hide SameSenders;
      hide Arrived;
      var taken := Arrive(side, id, Shm(root));
      if !taken {
        ghost var none: multiset<nat> := multiset{};
        assert none + multiset{root} == multiset{root};
        KeysWithout(none, Waiting(rings, streams), arena.carried.Keys, root);
        arena.Scrap(root);
      }
    }

    /** One frame of the socket on endpoint `side`. */
    method Deliver(side: bool)
      requires Inv()
      modifies this, arena, arena.bufs, arena.mgr
      ensures Inv() && Younger(old(arena.bufs), arena.bufs) && rings == old(rings)
      ensures streams == if old(wires).At(side) == [] then old(streams)
                         else Handled(old(streams), old(table), side, old(wires).At(side)[0])
      ensures Fewer(arena.carried, old(arena.carried))
      ensures arena.Texts() == old(arena.Texts()) + (if |streams| > |old(streams)| then [[], []] else [])
      ensures table == if old(wires).At(side) == [] then old(table)
                       else if old(wires).At(side)[0].Bye? then old(table) - {(side, old(wires).At(side)[0].id)}
                       else TableAfter(old(table), |old(streams)|, side, old(wires).At(side)[0].id)
      ensures wires == if old(wires).At(side) == [] then old(wires) else old(wires).Set(side, old(wires).At(side)[1..])
    {
      hide Arena.Owned;
      hide Arena.Texts;
      hide LinkedBuffer.Valid;
      hide LinkedBuffer.Owned;
      hide Arena.Ok;
      hide Waiting;
      hide Shaped;
      hide StreamOk;
      FewerSelf(arena.carried);
      assert arena.Texts() + [] == arena.Texts();
      var wire := wires.At(side);
      if wire == [] {
        return;
      }
      wires := wires.Set(side, wire[1..]);
      match wire[0]
      case Bye(id) =>
        if (side, id) in table {
          var i := table[(side, id)];
          table := table - {(side, id)};
          HalfClose(i);
        } else {
          assert table - {(side, id)} == table;
        }
      case Data(id, bytes) =>
        var taken := Arrive(side, id, Heap(bytes));
    }

    // -------------------------------------------------------------------------------------------
    // Calls of the user
    // -------------------------------------------------------------------------------------------

    /** One round of `move_pending_data`. */
    method PullOne(i: nat, w: Wrapper, ghost loose: multiset<nat>)
      requires InvWith(loose + if w.Shm? then multiset{w.root} else multiset{})
      requires i < |streams| && streams[i].status != Closed
      modifies this`streams, arena`carried, arena`roles, arena.bufs[2 * i + 1], arena.mgr
      ensures InvWith(loose) && (w.Shm? ==> w.root in old(arena.carried))
      ensures streams == old(streams)[i := old(streams)[i].(fallback := old(streams)[i].fallback || w.Heap?)]
      ensures arena.carried == if w.Shm? then old(arena.carried) - {w.root} else old(arena.carried)
      ensures arena.Texts() == old(arena.Texts())[2 * i + 1 := old(arena.Texts())[2 * i + 1] + PayloadOne(w, old(arena.carried))]
    {
      hide Arena.Owned;
      hide Arena.Texts;
      hide LinkedBuffer.Valid;
      hide LinkedBuffer.Owned;
      hide Arena.Ok;
      hide Arena.BufferOk;
      hide Waiting;
      hide Shaped;
      hide Tabled;
      hide Reply;
      ReceivingRole(streams, arena.roles, i);
      if w.Shm? {
        KeysWithout(loose, Waiting(rings, streams), arena.carried.Keys, w.root);
        arena.Land(2 * i + 1, w.root);
        assert streams[i := streams[i]] == streams;
      } else {
        assert loose + multiset{} == loose;
        Update(i, streams[i].(fallback := true), arena.roles[2 * i]);
        var a := arena.Call(2 * i + 1, Adopt(w.bytes));
        streams := streams[i := streams[i].(fallback := true)];
      }
    }

    /** The loop of `move_pending_data` over what was swapped out. */
    method PullAll(i: nat, waiting: seq<Wrapper>)
      requires InvWith(WaitRoots(waiting)) && i < |streams| && (waiting != [] ==> streams[i].status != Closed)
      modifies this`streams, arena`carried, arena`roles, arena.bufs[2 * i + 1], arena.mgr
      ensures Inv()
      ensures streams == old(streams)[i := old(streams)[i].(fallback := old(streams)[i].fallback || SomeHeap(waiting))]
      ensures Fewer(arena.carried, old(arena.carried))
      ensures arena.Texts() == old(arena.Texts())[2 * i + 1 :=
        old(arena.Texts())[2 * i + 1] + Payload(waiting, old(arena.carried))]
    {
      hide Arena.Ok;
      hide Arena.BufferOk;
      hide InvWith;
      hide WaitRoots;
      hide PayloadOne;
      hide Payload;
      hide Fewer;
      hide Longer;
      Sized(i, WaitRoots(waiting));
      FewerSelf(arena.carried);
      ghost var texts, letters, ss, k := arena.Texts(), arena.carried, streams, 2 * i + 1;
      var n := 0;
      NoRoots();
      assert waiting[0..] == waiting && waiting[..0] == [];
      PayloadNone(texts, k, letters);
      hide SomeHeap;
      NoHeap();
      assert ss[i := ss[i].(fallback := ss[i].fallback || false)] == ss;
      while n < |waiting|
        invariant 0 <= n <= |waiting| && InvWith(WaitRoots(waiting[n..])) && arena.Ok()
        invariant |streams| == |ss| && streams == ss[i := ss[i].(fallback := ss[i].fallback || SomeHeap(waiting[..n]))]
        invariant Fewer(arena.carried, letters)
        invariant Longer(texts, arena.Texts(), k, Payload(waiting[..n], letters))
      {
        PullNext(i, waiting, n, texts, letters);
        HeapNext(waiting, n);
        n := n + 1;
        Sized(i, WaitRoots(waiting[n..]));
      }
      assert waiting[n..] == [] && waiting[..n] == waiting;
      LongerIs(texts, arena.Texts(), k, Payload(waiting, letters));
    }

    method PullNext(i: nat, waiting: seq<Wrapper>, n: nat, ghost texts: seq<seq<Byte>>, ghost letters: map<nat, Letter>)
      requires i < |streams| && n < |waiting| && InvWith(WaitRoots(waiting[n..])) && streams[i].status != Closed
      requires Fewer(arena.carried, letters) && Longer(texts, arena.Texts(), 2 * i + 1, Payload(waiting[..n], letters))
      modifies this`streams, arena`carried, arena`roles, arena.bufs[2 * i + 1], arena.mgr
      ensures InvWith(WaitRoots(waiting[n + 1..])) && Fewer(arena.carried, letters)
      ensures streams == old(streams)[i := old(streams)[i].(fallback := old(streams)[i].fallback || waiting[n].Heap?)]
      ensures Longer(texts, arena.Texts(), 2 * i + 1, Payload(waiting[..n + 1], letters))
    {
      hide Arena.Ok;
      hide Arena.BufferOk;
      hide InvWith;
      hide WaitRoots;
      hide PayloadOne;
      hide Payload;
      WaitFrom(waiting, n);
      ghost var more, now := WaitRoots(waiting[n + 1..]), arena.carried;
      assert WaitRoots(waiting[n..]) == more + if waiting[n].Shm? then multiset{waiting[n].root} else multiset{};
      PullOne(i, waiting[n], more);
      Sized(i, more);
      SamePayload(waiting[n], now, letters);
      PayloadNext(texts, 2 * i + 1, waiting, n, letters);
    }

    lemma Sized(i: nat, loose: multiset<nat>)
      requires InvWith(loose) && i < |streams|
      ensures arena.Ok() && 2 * i + 1 < |arena.bufs|
    {
    }

    /** `move_pending_data`: what waits with stream `i` moves into its receiving buffer, in order. */
    method Pull(i: nat)
      requires Inv() && i < |streams|
      modifies this`streams, arena`carried, arena`roles, arena.bufs[2 * i + 1], arena.mgr
      ensures Inv() && streams[i].pending == []
      ensures var s := old(streams)[i];
              streams == old(streams)[i := s.(pending := [], fallback := s.fallback || SomeHeap(s.pending))]
      ensures Fewer(arena.carried, old(arena.carried))
      ensures arena.Texts() == old(arena.Texts())[2 * i + 1 :=
        old(arena.Texts())[2 * i + 1] + Payload(old(streams)[i].pending, old(arena.carried))]
    {
      hide Arena.Ok;
      hide Arena.BufferOk;
      hide Waiting;
      hide Shaped;
      hide Tabled;
      hide WaitRoots;
      hide Payload;
      hide StreamOk;
      hide SomeHeap;
      var waiting := streams[i].pending;
      ReceivingRole(streams, arena.roles, i);
      SetPending(i, []);
      SwapOut(rings, streams, i, streams[i].(pending := []));
      streams := streams[i := streams[i].(pending := [])];
      PullAll(i, waiting);
    }

    /** Reads, peeks, discards and releases on the receiving buffer. */
    method Use(i: nat, op: Op) returns (a: Answer)
      requires Inv() && i < |streams| && (op.Read? || op.Look? || op.Skip? || op.Release?)
      modifies arena`roles, arena.bufs[2 * i + 1], arena.mgr
      ensures Inv() && arena.Owned() == old(arena.Owned())[2 * i + 1 := arena.bufs[2 * i + 1].Owned()]
      ensures arena.Texts() == old(arena.Texts())[2 * i + 1 := Next(old(arena.Texts())[2 * i + 1], op)]
      ensures arena.carried == old(arena.carried)
      ensures a == Reply(old(arena.Texts())[2 * i + 1], op)
      ensures op.Release? ==> arena.bufs[2 * i + 1].pinned == []
      ensures op.Release? && streams[i].status == Closed ==> arena.Owned()[2 * i + 1] == {}
    {
      hide Arena.Ok;
      hide Arena.BufferOk;
      hide Shaped;
      hide Next;
      hide Reply;
      ReceivingRole(streams, arena.roles, i);
      a := arena.Call(2 * i + 1, op);
      if op.Release? && streams[i].status == Closed {
        arena.RetiredEmpty(2 * i + 1);
        OffsNone();
        assert arena.bufs[2 * i + 1].pinned + arena.bufs[2 * i + 1].slices == [];
      }
    }

    /** `write_bytes` or `reserve` on the sending buffer, while no flush is waiting. */
    method Write(i: nat, w: WriteOp)
      requires Inv() && i < |streams| && streams[i].retry == None && Callable(Put(w))
      modifies arena`roles, arena.bufs[2 * i], arena.mgr
      ensures Inv() && arena.Owned() == old(arena.Owned())[2 * i := arena.bufs[2 * i].Owned()]
      ensures arena.carried == old(arena.carried)
      ensures arena.Texts() == old(arena.Texts())[2 * i := old(arena.Texts())[2 * i] + w.bytes]
      ensures old(arena.bufs[2 * i].fromShm) && !arena.bufs[2 * i].fromShm ==> Starved(arena.mgr.pool, w)
      ensures old(arena.bufs[2 * i].slices) == [] && w.Write? && w.bytes != [] && old(Fits(arena.mgr.pool, |w.bytes|)) ==>
        arena.Owned()[2 * i] != {}
    {
      hide Arena.Ok;
      hide Arena.BufferOk;
      hide Shaped;
      hide Reply;
      hide Starved;
      ShapedAt(streams, arena.roles, i);
      var a := arena.Call(2 * i, Put(w));
    }

    /** The ring towards the peer of stream `i` has room. */
    ghost predicate Room(i: nat)
      requires i < |streams|
      reads this
    {
      |rings.At(!streams[i].client)| < cap
    }

    /** The text of stream `i`'s sending buffer is now a message behind what the ring held. */
    ghost predicate Launched(i: nat, client: bool, id: nat, texts: seq<seq<Byte>>, was: Duo<seq<Elem>>)
      requires arena.Ok() && 2 * i < |texts|
      reads this, arena, arena.mgr, arena.bufs
    {
      && arena.Texts() == texts[2 * i := []]
      && exists root :: root in arena.carried && arena.carried[root].bytes == texts[2 * i]
                        && rings == was.Set(!client, was.At(!client) + [Message(id, root)])
    }

    /** The message of stream `i` goes into the ring, if there is room. */
    method TryPut(i: nat) returns (ok: bool)
      requires Inv() && i < |streams| && arena.roles[2 * i] == Flushing
      modifies this`rings, this`streams, arena`roles, arena`carried, arena.bufs[2 * i]
      ensures ok <==> old(Room(i))
      ensures ok ==> Inv() && Launched(i, old(streams)[i].client, old(streams)[i].id, old(arena.Texts()), old(rings))
      ensures ok ==> Fewer(old(arena.carried), arena.carried)
      ensures ok ==> streams == old(streams)[i := old(streams)[i].(retry := None)]
      ensures !ok ==> unchanged(this) && unchanged(arena) && unchanged(arena.bufs[2 * i])
    {
      hide Arena.Owned;
      hide Arena.Texts;
      hide LinkedBuffer.Owned;
      hide Arena.Ok;
      hide Arena.BufferOk;
      hide Waiting;
      hide Shaped;
      hide Tabled;
      var s := streams[i];
      var ring := rings.At(!s.client);
      if |ring| >= cap {
        return false;
      }
      ghost var keys := arena.carried.Keys;
      ShapedAt(streams, arena.roles, i);
      Update(i, s.(retry := None), Sending);
      var root := arena.Launch(2 * i);
      KeysWith(multiset{}, Waiting(rings, streams), keys, root);
      streams := streams[i := s.(retry := None)];
      RingPushed(rings, streams, !s.client, Message(s.id, root));
      rings := rings.Set(!s.client, ring + [Message(s.id, root)]);
      return true;
    }

    /** The sending buffer of stream `i` is recycled and its flush, if any, given up. */
    method GiveUp(i: nat)
      requires Inv() && i < |streams|
      modifies this`streams, arena`roles, arena.bufs[2 * i], arena.mgr
      ensures Inv() && streams == old(streams)[i := old(streams)[i].(retry := None)]
      ensures arena.Owned() == old(arena.Owned())[2 * i := {}] && arena.bufs[2 * i].slices == []
      ensures arena.Texts() == old(arena.Texts())[2 * i := []] && arena.carried == old(arena.carried)
      ensures arena.roles == old(arena.roles)[2 * i := Sending]
      ensures old(arena.bufs[2 * i].slices) == [] ==> arena.mgr.pool == old(arena.mgr.pool)
    {
      hide Arena.Owned;
      hide Arena.Texts;
      hide LinkedBuffer.Valid;
      hide Offs;
      hide Arena.Ok;
      hide Arena.BufferOk;
      hide Waiting;
      hide Shaped;
      hide Tabled;
      hide Next;
      hide Reply;
      ShapedAt(streams, arena.roles, i);
      Update(i, streams[i].(retry := None), Sending);
      DropsAll(arena.Texts()[2 * i]);
      assert arena.roles[2 * i] == Sending ==> arena.roles[2 * i := Sending] == arena.roles;
      var a := arena.Call(2 * i, Drop);
      OffsNone();
      assert arena.bufs[2 * i].pinned + arena.bufs[2 * i].slices == [];
      streams := streams[i := streams[i].(retry := None)];
    }

    /** `done` and then `write_fallback`: from now on the stream sends over the socket only. */
    method SendOverSocket(i: nat)
      requires Inv() && i < |streams| && arena.roles[2 * i] == Sending && arena.bufs[2 * i].len > 0
      modifies this`streams, this`wires, arena`roles, arena.bufs[2 * i], arena.mgr
      ensures arena.carried == old(arena.carried)
      ensures Inv() && arena.Texts() == old(arena.Texts())[2 * i := []]
      ensures streams == old(streams)[i := old(streams)[i].(fallback := true)]
      ensures wires == Mailed(old(streams)[i], old(arena.Texts())[2 * i], old(wires))
    {
      hide Arena.Owned;
      hide Arena.Texts;
      hide LinkedBuffer.Valid;
      hide LinkedBuffer.Owned;
      hide Arena.Ok;
      hide Arena.BufferOk;
      hide Waiting;
      hide Shaped;
      hide Tabled;
      var s := streams[i].(fallback := true);
      ShapedAt(streams, arena.roles, i);
      Update(i, s, Sending);
      var sent, payload := arena.Divert(2 * i, version, s.id, 0);
      streams := streams[i := s];
      if sent {
        wires := wires.Set(!s.client, wires.At(!s.client) + [Data(s.id, payload)]);
      }
    }

    /** `done` and then the ring; without room there the message waits in the sending buffer. */
    method SendOverRing(i: nat)
      requires Inv() && i < |streams| && streams[i].retry == None
      requires arena.roles[2 * i] == Sending && arena.bufs[2 * i].len > 0 && arena.bufs[2 * i].fromShm
      modifies this`streams, this`rings, arena`roles, arena`carried, arena.bufs[2 * i], arena.mgr
      ensures Inv()
      ensures Fewer(old(arena.carried), arena.carried)
      ensures if old(Room(i)) then
                Launched(i, old(streams)[i].client, old(streams)[i].id, old(arena.Texts()), old(rings)) && streams == old(streams)
              else
                && rings == old(rings) && arena.Texts() == old(arena.Texts())
                && streams == old(streams)[i := old(streams)[i].(retry := Some(0))]
    {
      hide Fewer;
      hide Arena.Owned;
      hide Arena.Texts;
      hide LinkedBuffer.Valid;
      hide LinkedBuffer.Owned;
      hide Arena.Ok;
      hide Arena.BufferOk;
      hide Waiting;
      hide Shaped;
      hide Tabled;
      hide Launched;
      FewerSelf(arena.carried);
      var s := streams[i].(retry := Some(0));
      ShapedAt(streams, arena.roles, i);
      Update(i, s, Flushing);
      arena.Publish(2 * i);
      streams := streams[i := s];
      var ok := TryPut(i);
    }

    /** `flush`, up to the first attempt to put. */
    method Flush(i: nat)
      requires Inv() && i < |streams| && streams[i].retry == None
      modifies this`streams, this`rings, this`wires, arena`roles, arena`carried, arena.bufs[2 * i], arena.mgr
      ensures Inv() && Fewer(old(arena.carried), arena.carried)
      ensures var s, text := old(streams)[i], old(arena.Texts())[2 * i];
              if text == [] then unchanged(this) && arena.Texts() == old(arena.Texts())
              else if s.status != Opened then
                && rings == old(rings) && wires == old(wires) && arena.Texts() == old(arena.Texts())[2 * i := []]
                && streams == old(streams)
              else if s.fallback || !old(arena.bufs[2 * i].fromShm) then
                && rings == old(rings) && streams == old(streams)[i := s.(fallback := true)]
                && arena.Texts() == old(arena.Texts())[2 * i := []]
                && wires == Mailed(s, text, old(wires))
              else if old(Room(i)) then
                wires == old(wires) && streams == old(streams) && Launched(i, s.client, s.id, old(arena.Texts()), old(rings))
              else
                && wires == old(wires) && rings == old(rings) && arena.Texts() == old(arena.Texts())
                && streams == old(streams)[i := s.(retry := Some(0))]
    {
      hide Arena.Owned;
      hide Arena.Texts;
      hide LinkedBuffer.Owned;
      hide Fewer;
      hide Launched;
      hide Mailed;
      hide Arena.BufferOk;
      hide Arena.Ok;
      hide Waiting;
      hide Shaped;
      hide Tabled;
      FewerSelf(arena.carried);
      assert streams[i := streams[i].(retry := None)] == streams;
      ShapedAt(streams, arena.roles, i);
      arena.Length(2 * i);
      if arena.bufs[2 * i].len > 0 {
        if streams[i].status != Opened {
          GiveUp(i);
        } else if streams[i].fallback || !arena.bufs[2 * i].fromShm {
          SendOverSocket(i);
        } else {
          SendOverRing(i);
        }
      }
    }

    /** `flush`, one more attempt: it ends when the stream is no longer open, when the ring takes
        the message, or after the last retry. */
    method Retry(i: nat)
      requires Inv() && i < |streams| && streams[i].retry.Some?
      modifies this`streams, this`rings, arena`roles, arena`carried, arena.bufs[2 * i], arena.mgr
      ensures Inv() && Fewer(old(arena.carried), arena.carried)
      ensures var s := old(streams)[i];
              if s.status == Opened && old(Room(i)) then
                && Launched(i, s.client, s.id, old(arena.Texts()), old(rings)) && streams == old(streams)[i := s.(retry := None)]
              else if s.status == Opened && s.retry.value + 1 < 10 then
                && rings == old(rings) && arena.Texts() == old(arena.Texts())
                && streams == old(streams)[i := s.(retry := Some(s.retry.value + 1))]
              else
                && rings == old(rings) && arena.Texts() == old(arena.Texts())[2 * i := []]
                && streams == old(streams)[i := s.(retry := None)]
    {
      hide Arena.Owned;
      hide Arena.Texts;
      hide LinkedBuffer.Owned;
      hide Fewer;
      hide Launched;
      hide Arena.Ok;
      hide Arena.BufferOk;
      hide LinkedBuffer.Valid;
      hide Room;
      hide Waiting;
      hide Shaped;
      hide Tabled;
      FewerSelf(arena.carried);
      ShapedAt(streams, arena.roles, i);
      if streams[i].status != Opened {
        GiveUp(i);
        return;
      }
      var ok := TryPut(i);
      if !ok {
        var n := streams[i].retry.value + 1;
        if n >= FLUSH_RETRIES {
          GiveUp(i);
        } else {
          Update(i, streams[i].(retry := Some(n)), arena.roles[2 * i]);
          streams := streams[i := streams[i].(retry := Some(n))];
        }
      }
    }

    /** `close`: the stream leaves the table, everything it holds but pinned blocks goes back, and the
        peer is told, through the ring if there is room and the stream did not fall back. */
    method Close(i: nat)
      requires Inv() && i < |streams|
      modifies this, arena`roles, arena`carried, arena.bufs[2 * i], arena.bufs[2 * i + 1], arena.mgr
      ensures Inv() && arena.bufs == old(arena.bufs) && Fewer(arena.carried, old(arena.carried))
      ensures old(streams)[i].status == Closed ==>
        unchanged(this) && arena.Owned() == old(arena.Owned()) && arena.Texts() == old(arena.Texts())
      ensures old(streams)[i].status != Closed ==>
        var s := old(streams)[i];
        && streams == old(streams)[i := s.(status := Closed, pending := [], retry := None)]
        && table == old(table) - {(s.client, s.id)}
        && arena.Owned() == old(arena.Owned())[2 * i + 1 := Offs(old(arena.bufs[2 * i + 1].pinned))][2 * i := {}]
        && arena.Texts() == old(arena.Texts())[2 * i + 1 := []][2 * i := []]
        && arena.bufs[2 * i].slices == []
        && (rings, wires) == (if s.status == Opened then Told(s, cap, old(rings), old(wires)) else (old(rings), old(wires)))
      ensures old(Idle(i)) ==> arena.mgr.pool == old(arena.mgr.pool)
    {
      hide Inv;
      hide Arena.Ok;
      hide Arena.BufferOk;
      hide Offs;
      hide Fewer;
      hide Told;
      Sane();
      FewerSelf(arena.carried);
      if streams[i].status != Closed {
        CloseOpen(i);
      }
    }

    /** The close of a stream that is not closed. */
    method CloseOpen(i: nat)
      requires Inv() && i < |streams| && streams[i].status != Closed
      modifies this, arena`roles, arena`carried, arena.bufs[2 * i], arena.bufs[2 * i + 1], arena.mgr
      ensures Inv() && Fewer(arena.carried, old(arena.carried))
      ensures var s := old(streams)[i];
        && streams == old(streams)[i := s.(status := Closed, pending := [], retry := None)]
        && table == old(table) - {(s.client, s.id)}
        && (rings, wires) == (if s.status == Opened then Told(s, cap, old(rings), old(wires)) else (old(rings), old(wires)))
      ensures arena.Owned() == old(arena.Owned())[2 * i + 1 := Offs(old(arena.bufs[2 * i + 1].pinned))][2 * i := {}]
      ensures arena.Texts() == old(arena.Texts())[2 * i + 1 := []][2 * i := []] && arena.bufs[2 * i].slices == []
      ensures old(Idle(i)) ==> arena.mgr.pool == old(arena.mgr.pool)
    {
      hide Inv;
      hide Arena.Owned;
      hide Arena.Texts;
      hide LinkedBuffer.Valid;
      hide LinkedBuffer.Owned;
      hide Arena.Ok;
      hide Arena.BufferOk;
      hide Offs;
      hide Fewer;
      hide Told;
      var was := streams[i];
      Sane();
      Forget(was.client, was.id);
      Abandon(i);
      Sane();
      TellPeer(was);
    }

    lemma Sane()
      requires Inv()
      ensures arena.Ok() && |arena.bufs| == 2 * |streams|
    {
    }

    /** The peer of a stream that was open hears of the close. */
    method TellPeer(s: Stream)
      requires Inv()
      modifies this`rings, this`wires
      ensures Inv()
      ensures (rings, wires) == if s.status == Opened then Told(s, cap, old(rings), old(wires)) else (old(rings), old(wires))
    {
      hide Inv;
      if s.status == Opened {
        Announce(s);
      }
    }

    /** Neither buffer of the stream has a slice, and nothing waits with it. */
    ghost predicate Idle(i: nat)
      requires i < |streams| && |arena.bufs| == 2 * |streams|
      reads this, arena, arena.bufs
    {
      arena.bufs[2 * i].slices == [] && arena.bufs[2 * i + 1].slices == [] && streams[i].pending == []
    }

    /** What `clean` gives back; the stream is closed from now on. */
    method Abandon(i: nat)
      requires Inv() && i < |streams| && streams[i].status != Closed
      modifies this`streams, arena`roles, arena`carried, arena.bufs[2 * i], arena.bufs[2 * i + 1], arena.mgr
      ensures Inv() && streams == old(streams)[i := old(streams)[i].(status := Closed, pending := [], retry := None)]
      ensures arena.Owned() == old(arena.Owned())[2 * i + 1 := Offs(old(arena.bufs[2 * i + 1].pinned))][2 * i := {}]
      ensures arena.Texts() == old(arena.Texts())[2 * i + 1 := []][2 * i := []] && Fewer(arena.carried, old(arena.carried))
      ensures arena.bufs[2 * i].slices == [] && (old(Idle(i)) ==> arena.mgr.pool == old(arena.mgr.pool))
    {
      hide Arena.Owned;
      hide Arena.Texts;
      hide LinkedBuffer.Owned;
      hide Arena.Ok;
      hide Fewer;
      hide Arena.BufferOk;
      hide StreamOk;
      hide LinkedBuffer.Valid;
      hide Waiting;
      hide Shaped;
      hide Tabled;
      hide Offs;
      ghost var letters := arena.carried;
      CleanPending(i, multiset{});
      DropReceived(i, multiset{});
      GiveUp(i);
      SetClosed(i);
    }

    /** The state of stream `i` becomes closed once it holds nothing to read. */
    method SetClosed(i: nat)
      requires Inv() && i < |streams| && streams[i].status != Closed && streams[i].pending == []
      requires arena.bufs[2 * i + 1].slices == []
      modifies this`streams, arena`roles
      ensures Inv() && streams == old(streams)[i := old(streams)[i].(status := Closed)]
      ensures arena.Owned() == old(arena.Owned()) && arena.Texts() == old(arena.Texts()) && arena.carried == old(arena.carried)
    {
      hide Arena.Ok;
      hide Arena.BufferOk;
      hide Waiting;
      hide Shaped;
      hide Tabled;
      ReceivingRole(streams, arena.roles, i);
      ShapedClosed(streams, arena.roles, i);
      TabledSet(table, streams, i, streams[i].(status := Closed));
      SamePending(rings, streams, i, streams[i].(status := Closed));
      arena.Retire(2 * i + 1);
      streams := streams[i := streams[i].(status := Closed)];
    }

    /** `on_stream_close`. */
    method Forget(client: bool, id: nat)
      requires Inv()
      modifies this`table
      ensures Inv() && table == old(table) - {(client, id)}
    {
      hide Arena.Ok;
      hide Waiting;
      table := table - {(client, id)};
    }

    /** The peer hears of the close over the ring or over the socket. */
    method Announce(s: Stream)
      requires Inv()
      modifies this`rings, this`wires
      ensures Inv() && (rings, wires) == Told(s, cap, old(rings), old(wires))
    {
      hide Arena.Ok;
      hide Waiting;
      if !s.fallback && |rings.At(!s.client)| < cap {
        RingPushed(rings, streams, !s.client, Goodbye(s.id));
        rings := rings.Set(!s.client, rings.At(!s.client) + [Goodbye(s.id)]);
      } else {
        wires := wires.Set(!s.client, wires.At(!s.client) + [Bye(s.id)]);
      }
    }

    // -------------------------------------------------------------------------------------------
    // Runs
    // -------------------------------------------------------------------------------------------

    /** What the two endpoints hold, and what it is in the model. */
    ghost function State(): (d: Desk)
      requires Inv()
      reads this, arena, arena.mgr, arena.bufs
      ensures d.Ok()
    {
      Desk(cap, streams, table, rings, wires, arena.Texts())
    }

    ghost function Abs(): M.World
      requires Inv()
      reads this, arena, arena.mgr, arena.bufs
    {
      WorldOf(State(), arena.carried)
    }

    lemma AllRooted()
      requires Inv()
      ensures Rooted(rings, streams, arena.carried)
    {
      hide Waiting;
      hide Rooted;
      var none: multiset<nat> := multiset{};
      assert none + Waiting(rings, streams) == Waiting(rings, streams);
      RootedIn(rings, streams, arena.carried);
    }

    /** The messages that are gone since are not part of what is held now. */
    lemma AbsFewer(letters: map<nat, Letter>)
      requires Inv() && Fewer(arena.carried, letters)
      ensures Abs() == WorldOf(State(), letters)
    {
      hide Inv;
      hide WorldOf;
      hide Fewer;
      hide Rooted;
      AllRooted();
      ViewFewer(State(), arena.carried, letters);
    }

    /** One action, which is the model's; one that does not apply to the state does nothing. */
    method Do(a: Action) returns (ghost e: M.Event)
      requires Inv()
      modifies this, arena, arena.bufs, arena.mgr
      ensures Inv() && Younger(old(arena.bufs), arena.bufs) && e.a == a && Abs() == M.Stepped(old(Abs()), e)
      ensures a.OfStream? && a.i < |old(streams)| ==> e.heap == !old(AllShm(arena.bufs[2 * a.i].slices))
    {
      hide Inv;
      hide Abs;
      e := M.Event(a, false);
      match a
      case Poll(side) => DoPoll(side);
      case Deliver(side) => DoDeliver(side);
      case Open(id) => DoOpen(id);
      case OfStream(i, c) =>
        Alike();
        if i < |streams| {
          ghost var heap := DoStream(i, c);
          e := M.Event(a, heap);
        }
    }

    lemma Flagged(i: nat)
      requires Inv() && i < |streams|
      ensures 2 * i < |arena.bufs| && arena.bufs[2 * i].fromShm == AllShm(arena.bufs[2 * i].slices)
    {
      hide Arena.Ok;
      ReceivingRole(streams, arena.roles, i);
      arena.FlagIff(2 * i);
    }

    lemma Alike()
      requires Inv()
      ensures |Abs().streams| == |streams|
    {
    }

    method DoPoll(side: bool)
      requires Inv()
      modifies this, arena, arena.bufs, arena.mgr
      ensures Inv() && Younger(old(arena.bufs), arena.bufs) && Abs() == M.Polled(old(Abs()), side)
    {
      hide Inv;
      hide Arena.Ok;
      hide Arena.BufferOk;
      hide Arena.Owned;
      hide Arena.Texts;
      hide LinkedBuffer.Valid;
      hide LinkedBuffer.Owned;
      hide WorldOf;
      hide Fewer;
      hide Rooted;
      hide SameSenders;
      hide M.Polled;
      ghost var d, letters := State(), arena.carried;
      ViewPolled(d, letters, side);
      Poll(side);
      assert d.texts + [] == d.texts;
      assert State() == PolledDesk(d, side);
      AbsFewer(letters);
    }

    method DoDeliver(side: bool)
      requires Inv()
      modifies this, arena, arena.bufs, arena.mgr
      ensures Inv() && Younger(old(arena.bufs), arena.bufs) && Abs() == M.Delivered(old(Abs()), side)
    {
      hide Inv;
      hide Arena.Ok;
      hide Arena.BufferOk;
      hide Arena.Owned;
      hide Arena.Texts;
      hide LinkedBuffer.Valid;
      hide LinkedBuffer.Owned;
      hide WorldOf;
      hide Fewer;
      hide Rooted;
      hide SameSenders;
      hide M.Delivered;
      ghost var d, letters := State(), arena.carried;
      ViewDelivered(d, letters, side);
      Deliver(side);
      assert d.texts + [] == d.texts;
      assert State() == DeliveredDesk(d, side);
      AbsFewer(letters);
    }

    method DoOpen(id: nat)
      requires Inv()
      modifies this, arena, arena.bufs, arena.mgr
      ensures Inv() && Younger(old(arena.bufs), arena.bufs) && Abs() == M.Stepped(old(Abs()), M.Event(Open(id), false))
    {
      hide Inv;
      hide Arena.Ok;
      hide Arena.BufferOk;
      hide Arena.Owned;
      hide Arena.Texts;
      ViewOpened(State(), arena.carried, id);
      OpenStream(id);
    }

    /** The client opens a stream under an id it does not use. */
    method OpenStream(id: nat)
      requires Inv()
      modifies this`streams, this`table, arena`bufs, arena`roles
      ensures Inv() && Younger(old(arena.bufs), arena.bufs)
      ensures (true, id) !in old(table) ==>
        && table == old(table)[(true, id) := |old(streams)|] && arena.Texts() == old(arena.Texts()) + [[], []]
        && streams == old(streams) + [NewStreamOf(true, id)] && |arena.bufs| == 2 * |streams| && Idle(|old(streams)|)
      ensures (true, id) in old(table) ==> unchanged(this) && unchanged(arena)
      ensures arena.carried == old(arena.carried)
    {
      hide Arena.Ok;
      hide Shaped;
      hide Waiting;
      if (true, id) !in table {
        var i, send, recv := NewStream(true, id, multiset{});
      }
    }

    /** What a call on stream `i` does; `heap` is whether its sending buffer needed the heap. */
    method DoStream(i: nat, c: StreamAction) returns (ghost heap: bool)
      requires Inv() && i < |streams|
      modifies this, arena, arena.bufs, arena.mgr
      ensures Inv() && arena.bufs == old(arena.bufs) && heap == !old(AllShm(arena.bufs[2 * i].slices))
      ensures i < |old(Abs()).streams| && Abs() == M.OnStream(old(Abs()), i, c, heap)
    {
      hide Inv;
      hide Abs;
      Alike();
      Sane();
      Flagged(i);
      heap := !arena.bufs[2 * i].fromShm;
      match c
      case Write(w) => DoWrite(i, w);
      case Flush => DoFlush(i);
      case Retry => DoRetry(i);
      case Pull => DoPull(i);
      case Use(op) => DoUse(i, op);
      case Close => DoClose(i);
    }

    method DoWrite(i: nat, w: WriteOp)
      requires Inv() && i < |streams|
      modifies arena`roles, arena.bufs[2 * i], arena.mgr
      ensures Inv() && i < |old(Abs()).streams| && Abs() == M.OnStream(old(Abs()), i, StreamAction.Write(w), false)
    {
      hide Inv;
      hide Arena.Ok;
      hide Arena.BufferOk;
      hide Arena.Owned;
      hide Arena.Texts;
      hide LinkedBuffer.Valid;
      hide LinkedBuffer.Owned;
      hide WorldOf;
      hide Fewer;
      hide Rooted;
      hide SameSenders;
      ghost var d, letters := State(), arena.carried;
      ViewAt(d, letters, i);
      ViewText(d, letters, i, d.texts[2 * i] + w.bytes, d.texts[2 * i + 1]);
      if streams[i].retry == None && Callable(Put(w)) {
        Write(i, w);
        ghost var now := d.texts[2 * i := d.texts[2 * i] + w.bytes];
        assert now[2 * i + 1 := d.texts[2 * i + 1]] == now;
      }
    }

    method DoUse(i: nat, op: Op)
      requires Inv() && i < |streams|
      modifies arena`roles, arena.bufs[2 * i + 1], arena.mgr
      ensures Inv() && i < |old(Abs()).streams| && Abs() == M.OnStream(old(Abs()), i, StreamAction.Use(op), false)
    {
      hide Inv;
      hide Arena.Ok;
      hide Arena.BufferOk;
      hide Arena.Owned;
      hide Arena.Texts;
      hide LinkedBuffer.Valid;
      hide LinkedBuffer.Owned;
      hide WorldOf;
      hide Fewer;
      hide Rooted;
      hide SameSenders;
      hide Next;
      hide Reply;
      ghost var d, letters := State(), arena.carried;
      ViewAt(d, letters, i);
      ViewText(d, letters, i, d.texts[2 * i], Next(d.texts[2 * i + 1], op));
      if op.Read? || op.Look? || op.Skip? || op.Release? {
        var a := Use(i, op);
        assert d.texts[2 * i := d.texts[2 * i]] == d.texts;
      }
    }

    method DoPull(i: nat)
      requires Inv() && i < |streams|
      modifies this`streams, arena`carried, arena`roles, arena.bufs[2 * i + 1], arena.mgr
      ensures Inv() && i < |old(Abs()).streams| && Abs() == M.OnStream(old(Abs()), i, StreamAction.Pull, false)
    {
      hide Inv;
      hide Arena.Ok;
      hide Arena.BufferOk;
      hide Arena.Owned;
      hide Arena.Texts;
      hide LinkedBuffer.Valid;
      hide LinkedBuffer.Owned;
      hide WorldOf;
      hide Fewer;
      hide Rooted;
      hide SameSenders;
      hide Payload;
      hide SomeHeap;
      hide M.Pulled;
      ghost var d, letters := State(), arena.carried;
      ViewAt(d, letters, i);
      ViewPulled(d, letters, i);
      Pull(i);
      AbsFewer(letters);
    }

    method DoClose(i: nat)
      requires Inv() && i < |streams|
      modifies this, arena`roles, arena`carried, arena.bufs[2 * i], arena.bufs[2 * i + 1], arena.mgr
      ensures Inv() && i < |old(Abs()).streams| && Abs() == M.OnStream(old(Abs()), i, StreamAction.Close, false)
    {
      hide Inv;
      hide Arena.Ok;
      hide Arena.BufferOk;
      hide Arena.Owned;
      hide Arena.Texts;
      hide LinkedBuffer.Valid;
      hide LinkedBuffer.Owned;
      hide WorldOf;
      hide Fewer;
      hide Rooted;
      hide SameSenders;
      hide Told;
      hide Offs;
      hide Idle;
      ghost var d, letters := State(), arena.carried;
      ViewAt(d, letters, i);
      if streams[i].status != Closed {
        ViewClosed(d, letters, i);
        hide M.ShutDown;
        Close(i);
        AbsFewer(letters);
      } else {
        Close(i);
        AbsFewer(letters);
      }
    }

    lemma LaunchedView(i: nat, d: Desk)
      requires Inv() && d.Ok() && i < |d.streams| && table == d.table && wires == d.wires && cap == d.cap
      requires Launched(i, d.streams[i].client, d.streams[i].id, d.texts, d.rings)
      requires streams == d.streams[i := d.streams[i].(retry := None)]
      ensures Abs() == M.Posted(WorldOf(d, arena.carried), i)
    {
      hide Inv;
      hide Arena.Ok;
      hide WorldOf;
      hide M.Posted;
      var s := d.streams[i];
      var root :| root in arena.carried && arena.carried[root].bytes == d.texts[2 * i]
                  && rings == d.rings.Set(!s.client, d.rings.At(!s.client) + [Message(s.id, root)]);
      ViewPosted(d, arena.carried, i, root);
    }

    /** A message more does not change what was held before it. */
    lemma AbsMore(d: Desk, letters: map<nat, Letter>)
      requires Inv() && d.Ok() && Fewer(letters, arena.carried) && Rooted(d.rings, d.streams, letters)
      ensures WorldOf(d, letters) == WorldOf(d, arena.carried)
    {
      hide Inv;
      ViewFewer(d, letters, arena.carried);
    }

    method DoFlush(i: nat)
      requires Inv() && i < |streams|
      modifies this`streams, this`rings, this`wires, arena`roles, arena`carried, arena.bufs[2 * i], arena.mgr
      ensures Inv() && i < |old(Abs()).streams|
      ensures Abs() == M.OnStream(old(Abs()), i, StreamAction.Flush, !old(arena.bufs[2 * i].fromShm))
    {
      hide Inv;
      hide Arena.Ok;
      hide Arena.BufferOk;
      hide Arena.Owned;
      hide Arena.Texts;
      hide LinkedBuffer.Valid;
      hide LinkedBuffer.Owned;
      hide WorldOf;
      hide Fewer;
      hide Rooted;
      hide Launched;
      hide Mailed;
      hide M.Flushed;
      Sane();
      ghost var d, letters := State(), arena.carried;
      ViewAt(d, letters, i);
      if streams[i].retry == None {
        AllRooted();
        ghost var heap := !arena.bufs[2 * i].fromShm;
        Flush(i);
        AbsMore(d, letters);
        FlushedView(i, d, heap);
      } else {
        NotFlushed(WorldOf(d, letters), i, !arena.bufs[2 * i].fromShm);
      }
    }

    /** What `Flush` says about the state after it is what the model does. */
    lemma FlushedView(i: nat, d: Desk, heap: bool)
      requires Inv() && d.Ok() && i < |d.streams| && d.streams[i].retry == None
      requires table == d.table && cap == d.cap
      requires var s, text := d.streams[i], d.texts[2 * i];
               if text == [] then State() == d
               else if s.status != Opened then State() == d.(texts := d.texts[2 * i := []])
               else if s.fallback || heap then
                 && rings == d.rings && streams == d.streams[i := s.(fallback := true)] && arena.Texts() == d.texts[2 * i := []]
                 && wires == Mailed(s, text, d.wires)
               else if |d.rings.At(!s.client)| < cap then
                 wires == d.wires && streams == d.streams && Launched(i, s.client, s.id, d.texts, d.rings)
               else State() == d.(streams := d.streams[i := s.(retry := Some(0))])
      ensures i < |WorldOf(d, arena.carried).streams| && Abs() == M.Flushed(WorldOf(d, arena.carried), i, heap)
    {
      hide Inv;
      hide Arena.Ok;
      hide Arena.BufferOk;
      hide Arena.Owned;
      hide Arena.Texts;
      hide LinkedBuffer.Valid;
      hide LinkedBuffer.Owned;
      hide WorldOf;
      hide Launched;
      hide Mailed;
      hide M.Mailed;
      hide M.Posted;
      var s, letters := d.streams[i], arena.carried;
      ViewAt(d, letters, i);
      ViewRoom(d, letters, i);
      assert d.texts[2 * i := d.texts[2 * i]] == d.texts && d.streams[i := s] == d.streams && s == s.(retry := None);
      if d.texts[2 * i] != [] {
        if s.status != Opened {
          ViewWaits(d, letters, i, None, []);
        } else if s.fallback || heap {
          ViewMailed(d, letters, i);
        } else if |d.rings.At(!s.client)| < cap {
          LaunchedView(i, d);
        } else {
          ViewWaits(d, letters, i, Some(0), d.texts[2 * i]);
        }
      }
    }

    method DoRetry(i: nat)
      requires Inv() && i < |streams|
      modifies this`streams, this`rings, arena`roles, arena`carried, arena.bufs[2 * i], arena.mgr
      ensures Inv() && i < |old(Abs()).streams| && Abs() == M.OnStream(old(Abs()), i, StreamAction.Retry, false)
    {
      hide Inv;
      hide Arena.Ok;
      hide Arena.BufferOk;
      hide Arena.Owned;
      hide Arena.Texts;
      hide LinkedBuffer.Valid;
      hide LinkedBuffer.Owned;
      hide WorldOf;
      hide Fewer;
      hide Rooted;
      hide Launched;
      hide M.Retried;
      Sane();
      ghost var d, letters := State(), arena.carried;
      ViewAt(d, letters, i);
      if streams[i].retry.Some? {
        AllRooted();
        Retry(i);
        AbsMore(d, letters);
        RetriedView(i, d);
      } else {
        NotRetried(WorldOf(d, letters), i);
      }
    }

    lemma RetriedView(i: nat, d: Desk)
      requires Inv() && d.Ok() && i < |d.streams| && d.streams[i].retry.Some?
      requires table == d.table && cap == d.cap && wires == d.wires
      requires var s := d.streams[i];
               if s.status == Opened && |d.rings.At(!s.client)| < cap then
                 Launched(i, s.client, s.id, d.texts, d.rings) && streams == d.streams[i := s.(retry := None)]
               else if s.status == Opened && s.retry.value + 1 < FLUSH_RETRIES then
                 State() == d.(streams := d.streams[i := s.(retry := Some(s.retry.value + 1))])
               else
                 State() == d.(streams := d.streams[i := s.(retry := None)], texts := d.texts[2 * i := []])
      ensures i < |WorldOf(d, arena.carried).streams| && Abs() == M.Retried(WorldOf(d, arena.carried), i)
    {
      hide Inv;
      hide Arena.Ok;
      hide Arena.BufferOk;
      hide Arena.Owned;
      hide Arena.Texts;
      hide LinkedBuffer.Valid;
      hide LinkedBuffer.Owned;
      hide WorldOf;
      hide Launched;
      hide M.Posted;
      var s, letters := d.streams[i], arena.carried;
      ViewAt(d, letters, i);
      ViewRoom(d, letters, i);
      assert d.texts[2 * i := d.texts[2 * i]] == d.texts;
      if s.status == Opened && |d.rings.At(!s.client)| < cap {
        LaunchedView(i, d);
      } else if s.status == Opened && s.retry.value + 1 < FLUSH_RETRIES {
        ViewWaits(d, letters, i, Some(s.retry.value + 1), d.texts[2 * i]);
      } else {
        ViewWaits(d, letters, i, None, []);
      }
    }

    /** Any run of the two endpoints is a run of the model. */
    method Run(script: seq<Action>) returns (ghost run: seq<M.Event>)
      requires Inv()
      modifies this, arena, arena.bufs, arena.mgr
      ensures Inv() && Younger(old(arena.bufs), arena.bufs)
      ensures |run| == |script| && (forall n | 0 <= n < |run| :: run[n].a == script[n]) && Abs() == M.Exec(old(Abs()), run)
    {
      hide Inv;
      hide Abs;
      hide M.Stepped;
      var n := 0;
      run := [];
      while n < |script|
        invariant 0 <= n <= |script| && Inv() && Younger(old(arena.bufs), arena.bufs)
        invariant |run| == n && (forall m | 0 <= m < n :: run[m].a == script[m]) && Abs() == M.Exec(old(Abs()), run)
      {
        ghost var e := Do(script[n]);
        assert (run + [e])[..n] == run;
        run := run + [e];
        n := n + 1;
      }
    }

    /** A run in which both endpoints follow their sockets: a ring is polled once its polling event was
        reached, and until it is empty; a frame is taken when it is the next thing on the socket.  A step
        that is not its turn is left out. */
    method Drive(script: seq<W.Step>) returns (ghost moves: seq<W.Move>)
      requires Inv() && M.Init(Abs())
      modifies this, arena, arena.bufs, arena.mgr
      ensures Inv() && Younger(old(arena.bufs), arena.bufs)
      ensures W.Permitted(W.Opening(old(Abs())), moves) && W.Runs(W.Opening(old(Abs())), moves).world == Abs()
      ensures W.Follows(W.Opening(old(Abs())), script, moves)
    {
      hide Inv;
      hide Abs;
      hide M.Stepped;
      hide W.Follows;
      hide W.Permitted;
      hide W.Runs;
      ghost var w := Abs();
      var bells := Duo(W.Silent, W.Silent);
      moves := [];
      W.NoMoves(W.Opening(w));
      assert script[..0] == [];
      var n := 0;
      while n < |script|
        invariant 0 <= n <= |script| && Inv() && Younger(old(arena.bufs), arena.bufs)
        invariant W.Permitted(W.Opening(w), moves) && W.Runs(W.Opening(w), moves) == W.Office(Abs(), bells)
        invariant W.Follows(W.Opening(w), script[..n], moves)
      {
        W.FollowsNext(W.Opening(w), script, n, moves);
        match script[n] {
          case Reached(side) =>
            if bells.At(side) == W.Rung(0) {
              W.RunsNext(W.Opening(w), moves, W.Wake(side));
              bells := bells.Set(side, W.Draining);
              moves := moves + [W.Wake(side)];
            }
          case Call(a) =>
            if W.MayAct(bells, a) {
              ghost var e;
              bells, e := DoAndRing(a, bells);
              W.RunsNext(W.Opening(w), moves, W.Act(e));
              moves := moves + [W.Act(e)];
            }
        }
        n := n + 1;
      }
      assert script[..n] == script;
    }

    /** After such a run, what was read from the first stream under a key with one sender is a prefix of
        what that sender flushed; while the stream is in the table the rest is in its receive buffer,
        waits with it, or is on its way in the ring or on the wire. */
    lemma DrivenInOrder(w: M.World, moves: seq<W.Move>, k: M.Key, j: nat)
      requires Inv() && M.Init(w) && W.Permitted(W.Opening(w), moves) && W.Runs(W.Opening(w), moves).world == Abs()
      requires M.OneSender(Abs(), k) && M.IsFirst(Abs(), k, j)
      ensures var run := W.Events(moves);
              && M.Read(w, run, j) <= M.Sent(w, run, k)
              && (k in table && table[k] == j ==>
                    M.Sent(w, run, k) == M.Read(w, run, j) + arena.Texts()[2 * j + 1] + Payload(streams[j].pending, arena.carried)
                                         + M.Join(M.Mailbox(Abs(), k)) + M.Join(M.Postbag(Abs(), k)))
    {
      hide Inv;
      hide M.Read;
      hide M.Sent;
      hide M.OneSender;
      hide M.IsFirst;
      hide W.Permitted;
      hide W.Runs;
      hide Payload;
      hide M.Contents;
      hide PeersOf;
      hide M.Mailbox;
      hide M.Postbag;
      W.ReadInOrder(w, moves, k, j);
      FirstIs(j, k);
      ViewAt(State(), arena.carried, j);
      ContentsOf(streams[j].pending, arena.carried);
    }

    lemma FirstIs(j: nat, k: M.Key)
      requires Inv() && M.IsFirst(Abs(), k, j)
      ensures j < |streams| && |arena.Texts()| == 2 * |streams|
    {
    }

    /** One action and what becomes of the polling events. */
    method DoAndRing(a: Action, bells: Duo<W.Bell>) returns (after: Duo<W.Bell>, ghost e: M.Event)
      requires Inv()
      modifies this, arena, arena.bufs, arena.mgr
      ensures Inv() && Younger(old(arena.bufs), arena.bufs) && e.a == a
      ensures W.Office(Abs(), after) == W.Moved(W.Office(old(Abs()), bells), W.Act(e))
    {
      hide Inv;
      hide Abs;
      hide M.Stepped;
      hide W.Rings;
      Lengths();
      var r, f := rings, wires;
      e := Do(a);
      Lengths();
      after := Duo(W.Rings(a, true, bells.client, |r.client|, |f.client|, |rings.client|, |wires.client|),
                   W.Rings(a, false, bells.server, |r.server|, |f.server|, |rings.server|, |wires.server|));
    }

    lemma Lengths()
      requires Inv()
      ensures Abs().wires == wires
      ensures |Abs().rings.client| == |rings.client| && |Abs().rings.server| == |rings.server|
    {
    }

    /** In every reachable state a block is free, or in one buffer, or in one message that waits in
        exactly one ring slot or pending list. */
    lemma OneHome(o: nat)
      requires Inv() && o in arena.mgr.pool.blocks
      ensures var p := arena.mgr.pool;
              var l := Class(p.lists, p.blocks[o].cap);
              && l < |p.lists|
              && (o in p.lists[l].free <==> !exists c :: Claims(arena.Owned(), arena.carried, c, o))
      ensures forall c, d | Claims(arena.Owned(), arena.carried, c, o) && Claims(arena.Owned(), arena.carried, d, o) :: c == d
      ensures forall r :: Waiting(rings, streams)[r] == if r in arena.carried then 1 else 0
    {
      hide Claims;
      hide Waiting;
      hide Conserved;
      OnePlace(arena.mgr.pool, arena.Owned(), arena.carried, o);
      var none: multiset<nat> := multiset{};
      assert none + Waiting(rings, streams) == Waiting(rings, streams);
    }

    /** `check_buffer_returned` is true exactly when no buffer holds a block and no message waits. */
    lemma ReturnedIff()
      requires Inv()
      ensures AllReturned(arena.mgr.pool) <==>
              (forall k | 0 <= k < |arena.bufs| :: arena.Owned()[k] == {}) && Waiting(rings, streams) == multiset{}
    {
      hide Waiting;
      hide Conserved;
      hide AllReturned;
      AllBackIff(arena.mgr.pool, arena.Owned(), arena.carried);
      var none: multiset<nat> := multiset{};
      assert none + Waiting(rings, streams) == Waiting(rings, streams);
      NoKeys(arena.carried);
    }

    /** Both rings are drained, every view is released and every stream closed: then every block is
        back in its free list, so `unmap` need not wait, if and only if the streams that were closed
        before hold nothing in their sending buffers. */
    method Shutdown()
      requires Inv()
      modifies this, arena, arena.bufs, arena.mgr
      ensures Inv() && |old(arena.Owned())| == 2 * |old(streams)|
      ensures AllReturned(arena.mgr.pool) <==> NothingLeft(old(streams), old(arena.Owned()))
    {
      hide Inv;
      hide AllReturned;
      hide RingRoots;
      hide SameClosed;
      hide SameSenders;
      hide NothingLeft;
      Counted();
      ghost var ss0, x0 := streams, arena.Owned();
      Drain(true);
      ghost var ss1, x1 := streams, arena.Owned();
      Drain(false);
      Counted();
      SameThen(ss0, ss1, streams, x0, x1, arena.Owned());
      LeftoverSame(ss0, x0, streams, arena.Owned());
      CloseAll();
    }

    /** Release and close of every stream. */
    method CloseAll()
      requires Inv() && rings.client == [] && rings.server == []
      modifies this, arena, arena.bufs, arena.mgr
      ensures Inv() && |old(arena.Owned())| == 2 * |old(streams)|
      ensures AllReturned(arena.mgr.pool) <==> NothingLeft(old(streams), old(arena.Owned()))
    {
      hide Inv;
      hide AllReturned;
      hide Emptied;
      hide RingRoots;
      hide NothingLeft;
      hide Leftover;
      Counted();
      NoRoots();
      LeftoverNone(streams, arena.Owned());
      ghost var left := Leftover(streams, arena.Owned());
      EmptiedFirst(streams, arena.Owned());
      var i := 0;
      while i < |streams|
        invariant 0 <= i <= |streams| == |left| && Inv() && arena.bufs == old(arena.bufs)
        invariant Emptied(streams, arena.Owned(), left, i)
        invariant RingRoots(rings.client) == multiset{} && RingRoots(rings.server) == multiset{}
        decreases |streams| - i
      {
        Counted();
        CloseOne(i, left);
        i := i + 1;
      }
      EmptiedAll(streams, arena.Owned(), left);
      Counted();
      ReturnedIff();
    }

    /** `handle_polling` until the ring of endpoint `side` is empty. */
    method Drain(side: bool)
      requires Inv()
      modifies this, arena, arena.bufs, arena.mgr
      ensures Inv() && Younger(old(arena.bufs), arena.bufs)
      ensures rings == old(rings).Set(side, [])
      ensures SameClosed(old(streams), streams) && SameSenders(old(arena.Owned()), arena.Owned())
    {
      hide Inv;
      hide SameSenders;
      hide SameClosed;
      SameSelf(streams, arena.Owned());
      while rings.At(side) != []
        invariant Inv() && Younger(old(arena.bufs), arena.bufs)
        invariant rings.At(!side) == old(rings).At(!side)
        invariant SameClosed(old(streams), streams) && SameSenders(old(arena.Owned()), arena.Owned())
        decreases |rings.At(side)|
      {
        Known();
        ghost var ss, x := streams, arena.Owned();
        PolledClosed(streams, table, side, rings.At(side)[0]);
        Poll(side);
        SameThen(old(streams), ss, streams, old(arena.Owned()), x, arena.Owned());
      }
    }

    /** Release and close of one stream. */
    method CloseOne(i: nat, ghost left: seq<set<nat>>)
      requires Inv() && i < |streams| && Emptied(streams, arena.Owned(), left, i)
      requires RingRoots(rings.client) == multiset{} && RingRoots(rings.server) == multiset{}
      modifies this, arena`roles, arena`carried, arena.bufs[2 * i], arena.bufs[2 * i + 1], arena.mgr
      ensures Inv() && |streams| == |old(streams)| && arena.bufs == old(arena.bufs)
      ensures Emptied(streams, arena.Owned(), left, i + 1)
      ensures RingRoots(rings.client) == multiset{} && RingRoots(rings.server) == multiset{}
    {
      hide Arena.Ok;
      hide Waiting;
      hide Shaped;
      hide Tabled;
      hide Offs;
      hide RingRoots;
      hide Emptied;
      hide Told;
      hide Next;
      hide Reply;
      hide StreamOk;
      ghost var owned, s := arena.Owned(), streams[i];
      ReceivingRole(streams, arena.roles, i);
      ToldRoots(s, cap, rings, wires);
      var a := Use(i, Release);
      OffsNone();
      ghost var x := arena.bufs[2 * i + 1].Owned();
      Close(i);
      if s.status == Closed {
        EmptiedClosed(streams, owned, left, i);
      } else {
        EmptiedNext(old(streams), owned, left, i, streams[i], x);
      }
    }

    lemma Known()
      requires Inv()
      ensures Tabled(table, streams)
    {
    }

    lemma Counted()
      requires Inv()
      ensures |arena.Owned()| == 2 * |streams| == |arena.bufs|
    {
    }

    /** Stream `i` and the role of its sending buffer change; its pending list does not. */
    lemma Update(i: nat, s: Stream, r: Role)
      requires Shaped(streams, arena.roles) && Tabled(table, streams) && i < |streams| && 2 * i < |arena.roles|
      requires s.client == streams[i].client && s.id == streams[i].id && s.pending == streams[i].pending
      requires Settles(streams[i], s, arena.roles[2 * i], r)
      ensures var ss, rs := streams[i := s], arena.roles[2 * i := r];
              Shaped(ss, rs) && Tabled(table, ss) && Waiting(rings, ss) == Waiting(rings, streams)
              && (r == arena.roles[2 * i] ==> rs == arena.roles)
    {
      ShapedAt(streams, arena.roles, i);
      ShapedSet(streams, arena.roles, i, s, r);
      TabledSet(table, streams, i, s);
      SamePending(rings, streams, i, s);
    }

    /** Only the pending list of stream `i` changes. */
    lemma SetPending(i: nat, pending: seq<Wrapper>)
      requires Shaped(streams, arena.roles) && Tabled(table, streams) && i < |streams|
      requires streams[i].status == Closed ==> pending == []
      ensures var s := streams[i := streams[i].(pending := pending)];
              Shaped(s, arena.roles) && Tabled(table, s)
    {
      ShapedAt(streams, arena.roles, i);
      ShapedSet(streams, arena.roles, i, streams[i].(pending := pending), arena.roles[2 * i]);
      TabledSet(table, streams, i, streams[i].(pending := pending));
    }
  }

  lemma NotFlushed(w: M.World, i: nat, heap: bool)
    requires i < |w.streams| && w.streams[i].retry.Some?
    ensures M.Flushed(w, i, heap) == w
  {
  }

  lemma NotRetried(w: M.World, i: nat)
    requires i < |w.streams| && w.streams[i].retry == None
    ensures M.Retried(w, i) == w
  {
  }

  /** A write to a closed stream, and another close, which does nothing: the block that was taken is
      not given back. */
  method WriteToClosed(pair: Pair, i: nat)
    requires pair.Inv() && i < |pair.streams| && pair.streams[i].status == Closed && pair.streams[i].retry == None
    requires pair.arena.bufs[2 * i].slices == [] && Fits(pair.arena.mgr.pool, 1)
    modifies pair, pair.arena, pair.arena.bufs, pair.arena.mgr
    ensures pair.Inv() && pair.streams == old(pair.streams) && !AllReturned(pair.arena.mgr.pool)
  {
    hide AllReturned;
    hide PoolOk;
    hide Fits;
    hide Told;
    hide Arena.Ok;
    hide Shaped;
    hide Waiting;
    hide Tabled;
    hide Arena.BufferOk;
    pair.Write(i, WriteOp.Write([7]));
    pair.Close(i);
    pair.ReturnedIff();
    assert pair.arena.Owned()[2 * i] != {};
  }

  /** Open, close, write, close: in the end the pool lacks a buffer. */
  method WriteAfterClose() returns (pair: Pair)
    ensures pair.Inv() && |pair.streams| == 1 && pair.streams[0].status == Closed
    ensures !AllReturned(pair.arena.mgr.pool)
  {
    hide AllReturned;
    hide PoolOk;
    hide Pair.Inv;
    hide Fits;
    hide Told;
    SmallPoolOk();
    hide SmallPool;
    AllReturnedIff(SmallPool());
    var mgr := new BufferManager(SmallPool());
    pair := new Pair(mgr, 4, 3);
    pair.OpenStream(1);
    pair.Close(0);
    pair.Counted();
    WriteToClosed(pair, 0);
  }

  /** The buffers of `b` are those of `a` and newer ones. */
  twostate predicate Younger(a: seq<LinkedBuffer>, new b: seq<LinkedBuffer>) {
    forall i | 0 <= i < |b| :: b[i] in a || fresh(b[i])
  }
}
