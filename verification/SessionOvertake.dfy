/** A stream id with two senders: a server whose stream was closed opens another one under the same id
    when more data comes for it.  What the second one sends may overtake what the first one sent over the
    socket, so the condition of one sender in `SessionWakeUps.ReadInOrder` is needed. */
module SessionOvertake {
  import opened Basics
  import opened Bytes
  import opened SessionParts
  import opened SessionModel
  import opened SessionWakeUps
  import Q = QueueRefinement
  import E = EndToEnd

  const BACK: Key := (true, 1)

  function Empty(): World {
    World(4, [], map[], Duo([], []), Duo([], []))
  }

  /** A permitted run leads here, with these bytes sent to the client under id 1 and read by its first
      stream. */
  ghost predicate Reached(o: Office, sent: seq<Byte>, read: seq<Byte>) {
    exists moves :: Leads(moves, o, sent, read)
  }

  predicate Leads(moves: seq<Move>, o: Office, sent: seq<Byte>, read: seq<Byte>) {
    && Permitted(Opening(Empty()), moves) && Runs(Opening(Empty()), moves) == o
    && Sent(Empty(), Events(moves), BACK) == sent && Read(Empty(), Events(moves), 0) == read
  }

  lemma Begin()
    ensures Reached(Opening(Empty()), [], [])
  {
    assert Leads([], Opening(Empty()), [], []);
  }

  lemma Go(o: Office, sent: seq<Byte>, read: seq<Byte>, m: Move)
    requires Reached(o, sent, read) && Allowed(o, m)
    ensures Reached(Moved(o, m), if m.Act? then sent + SentBy(o.world, m.e, BACK) else sent,
                    if m.Act? then read + ReadBy(o.world, m.e, 0) else read)
  {
    hide Moved;
    hide Allowed;
    hide SentBy;
    hide ReadBy;
    var moves :| Leads(moves, o, sent, read);
    var more := moves + [m];
    RunsNext(Opening(Empty()), moves, m);
    RunsWorld(Empty(), moves);
    assert more[..|moves|] == moves;
    if m.Act? {
      assert (Events(moves) + [m.e])[..|Events(moves)|] == Events(moves);
      assert Events(more) == Events(moves) + [m.e];
      assert Leads(more, Moved(o, m), sent + SentBy(o.world, m.e, BACK), read + ReadBy(o.world, m.e, 0));
    } else {
      assert Events(more) == Events(moves);
      assert Leads(more, Moved(o, m), sent, read);
    }
  }

  lemma Unsent()
    ensures forall b: seq<Byte> :: b + [] == b
  {
  }

  function Do(i: nat, c: StreamAction): Move { Act(Event(OfStream(i, c), false)) }

  function Put(i: nat, b: Byte): Move { Do(i, Write(E.WriteOp.Write([b]))) }

  /** The stream writes one byte and flushes it into the ring of its peer, whose bell rings if it was
      silent. */
  lemma Posts1(o: Office, sent: seq<Byte>, read: seq<Byte>, i: nat, b: Byte)
    requires Reached(o, sent, read) && i < |o.world.streams|
    requires var p := o.world.streams[i];
             p.status == Opened && !p.fallback && p.retry == None && p.out == [] && Room(o.world, p)
    ensures var w, p := o.world, o.world.streams[i];
            var r := w.(rings := w.rings.Set(!p.client, w.rings.At(!p.client) + [Letter(p.id, [b])]));
            var bell := o.bells.At(!p.client);
            Reached(Office(r, o.bells.Set(!p.client, if bell.Silent? then Rung(|w.wires.At(!p.client)|) else bell)),
                    if Sends(p, BACK) then sent + [b] else sent, read)
  {
    hide Reached;
    var w, p := o.world, o.world.streams[i];
    var o1 := o.(world := WithStream(w, i, p.(out := [b])));
    Go(o, sent, read, Put(i, b));
    assert p.out + [b] == [b];
    assert Moved(o, Put(i, b)) == o1;
    assert sent + [] == sent && read + [] == read;
    Go(o1, sent, read, Do(i, Flush));
    assert o1.world.streams[i := p] == w.streams;
  }

  /** The same, over the socket. */
  lemma Mails1(o: Office, sent: seq<Byte>, read: seq<Byte>, i: nat, b: Byte)
    requires Reached(o, sent, read) && i < |o.world.streams|
    requires var p := o.world.streams[i];
             p.status == Opened && !p.fallback && p.retry == None && p.out == []
    ensures var w, p := o.world, o.world.streams[i];
            var r := w.(streams := w.streams[i := p.(fallback := true)],
                        wires := w.wires.Set(!p.client, w.wires.At(!p.client) + [Data(p.id, [b])]));
            Reached(o.(world := r), if Sends(p, BACK) then sent + [b] else sent, read)
  {
    hide Reached;
    var w, p := o.world, o.world.streams[i];
    var o1 := o.(world := WithStream(w, i, p.(out := [b])));
    Go(o, sent, read, Put(i, b));
    assert p.out + [b] == [b];
    assert Moved(o, Put(i, b)) == o1;
    assert sent + [] == sent && read + [] == read;
    Go(o1, sent, read, Act(Event(OfStream(i, Flush), true)));
    assert o1.world.streams[i := p.(fallback := true)] == w.streams[i := p.(fallback := true)];
  }

  /** An endpoint reaches its polling event, takes the one message that is there, and finds no other. */
  lemma Serves1(o: Office, sent: seq<Byte>, read: seq<Byte>, side: bool)
    requires Reached(o, sent, read) && o.bells.At(side) == Rung(0) && |o.world.rings.At(side)| == 1
    requires o.world.rings.At(side)[0].Letter?
    ensures var w := o.world;
            var r := Arrived(w.(rings := w.rings.Set(side, [])), (side, w.rings.At(side)[0].id),
                             Parcel(w.rings.At(side)[0].bytes, false));
            Reached(Office(r, o.bells.Set(side, Silent)), sent, read)
  {
    hide Reached;
    var w := o.world;
    assert sent + [] == sent && read + [] == read;
    Go(o, sent, read, Wake(side));
    var o1 := o.(bells := o.bells.Set(side, Draining));
    Go(o1, sent, read, Act(Event(Poll(side), false)));
    assert w.rings.At(side)[1..] == [];
    PolledKeeps(w, side);
    var o2 := o1.(world := Polled(w, side));
    assert Moved(o1, Act(Event(Poll(side), false))) == o2;
    Go(o2, sent, read, Act(Event(Poll(side), false)));
  }

  // ---------------------------------------------------------------------------------------------
  // The run
  // ---------------------------------------------------------------------------------------------

  function Client(pending: seq<Parcel>, ready: seq<Byte>, fallback: bool): Peer {
    Peer(true, 1, Opened, fallback, None, [], pending, ready)
  }

  /** The first stream of the server: open, fallen back, closed. */
  function First(fallback: bool): Peer {
    Peer(false, 1, Opened, fallback, None, [], [Parcel([1], false)], [])
  }

  function Gone(): Peer { Peer(false, 1, Closed, true, None, [], [], []) }

  function Second(): Peer { Peer(false, 1, Opened, false, None, [], [Parcel([4], false)], []) }

  /** The client has opened its stream and sent a message, and the server has taken it. */
  function Met(): Office {
    Office(World(4, [Client([], [], false), First(false)], map[(true, 1) := 0, (false, 1) := 1], Duo([], []), Duo([], [])),
           Duo(Silent, Silent))
  }

  lemma Meet()
    ensures Reached(Met(), [], [])
  {
    hide Reached;
    Begin();
    var o := Opening(Empty());
    Unsent();
    Go(o, [], [], Act(Event(Open(1), false)));
    var w := World(4, [Client([], [], false)], map[(true, 1) := 0], Duo([], []), Duo([], []));
    assert Moved(o, Act(Event(Open(1), false))) == Office(w, Duo(Silent, Silent));
    Posts1(Office(w, Duo(Silent, Silent)), [], [], 0, 1);
    var w1 := w.(rings := Duo([], [Letter(1, [1])]));
    assert [] + [Letter(1, [1])] == [Letter(1, [1])];
    Serves1(Office(w1, Duo(Silent, Rung(0))), [], [], false);
    assert [] + [Parcel([1], false)] == [Parcel([1], false)];
    assert w.streams + [First(false)] == Met().world.streams;
    assert w.table[(false, 1) := 1] == Met().world.table;
  }

  /** The server answers once through the ring and once over the socket, and closes its stream. */
  function Left(): Office {
    Office(World(4, [Client([], [], false), Gone()], map[(true, 1) := 0], Duo([Letter(1, [2])], []),
                 Duo([Data(1, [3]), Bye(1)], [])),
           Duo(Rung(0), Silent))
  }

  lemma Leave()
    ensures Reached(Left(), [2, 3], [])
  {
    hide Reached;
    Meet();
    var o, w := Met(), Met().world;
    Posts1(o, [], [], 1, 2);
    var w1 := w.(rings := Duo([Letter(1, [2])], []));
    assert [] + [Letter(1, [2])] == [Letter(1, [2])];
    var o1 := Office(w1, Duo(Rung(0), Silent));
    assert [] + [2] == [2];
    Mails1(o1, [2], [], 1, 3);
    var w2 := w1.(streams := [Client([], [], false), First(true)], wires := Duo([Data(1, [3])], []));
    assert w1.streams[1 := First(true)] == w2.streams;
    assert [] + [Data(1, [3])] == [Data(1, [3])];
    var o2 := o1.(world := w2);
    assert [2] + [3] == [2, 3];
    Go(o2, [2, 3], [], Do(1, Close));
    assert w2.table - {(false, 1)} == Left().world.table;
    assert [Data(1, [3])] + [Bye(1)] == [Data(1, [3]), Bye(1)];
    assert w2.streams[1 := Gone()] == Left().world.streams;
    assert Moved(o2, Do(1, Close)) == Left();
    assert [2, 3] + [] == [2, 3];
    Unsent();
  }

  /** More data of the client opens a second stream under the same id, and that one answers. */
  function Back(): Office {
    var w := Left().world;
    Office(w.(streams := w.streams + [Second()], table := map[(true, 1) := 0, (false, 1) := 2],
              rings := Duo([Letter(1, [2]), Letter(1, [5])], [])),
           Duo(Rung(0), Silent))
  }

  lemma ComeBack()
    ensures Reached(Back(), [2, 3, 5], [])
  {
    hide Reached;
    Leave();
    var o, w := Left(), Left().world;
    Posts1(o, [2, 3], [], 0, 4);
    var w1 := w.(rings := Duo([Letter(1, [2])], [Letter(1, [4])]));
    assert [] + [Letter(1, [4])] == [Letter(1, [4])];
    var o1 := Office(w1, Duo(Rung(0), Rung(0)));
    Serves1(o1, [2, 3], [], false);
    var w2 := w.(streams := w.streams + [Second()], table := map[(true, 1) := 0, (false, 1) := 2]);
    var o2 := Office(w2, Duo(Rung(0), Silent));
    assert [] + [Parcel([4], false)] == [Parcel([4], false)];
    assert w.table[(false, 1) := 2] == w2.table;
    assert Arrived(w1.(rings := w1.rings.Set(false, [])), (false, 1), Parcel([4], false)) == w2;
    Posts1(o2, [2, 3], [], 2, 5);
    assert [Letter(1, [2])] + [Letter(1, [5])] == [Letter(1, [2]), Letter(1, [5])];
    assert [2, 3] + [5] == [2, 3, 5];
  }

  /** The client follows its polling event and empties its ring before it takes the frame. */
  function Mixed(): Office {
    var w := Back().world;
    Office(w.(streams := [Client([Parcel([2], false), Parcel([5], false), Parcel([3], true)], [], false), Gone(), Second()],
              rings := Duo([], []), wires := Duo([Bye(1)], [])),
           Duo(Silent, Silent))
  }

  lemma Mix()
    ensures Reached(Mixed(), [2, 3, 5], [])
  {
    hide Reached;
    ComeBack();
    var o, w, poll, sent := Back(), Back().world, Act(Event(Poll(true), false)), [2, 3, 5];
    assert sent + [] == sent;
    Unsent();
    Go(o, sent, [], Wake(true));
    var o1 := Office(w, Duo(Draining, Silent));
    Go(o1, sent, [], poll);
    var w1 := w.(streams := [Client([Parcel([2], false)], [], false), Gone(), Second()], rings := Duo([Letter(1, [5])], []));
    assert [] + [Parcel([2], false)] == [Parcel([2], false)];
    assert w.streams[0 := w1.streams[0]] == w1.streams && w.rings.client[1..] == w1.rings.client;
    assert Moved(o1, poll) == Office(w1, Duo(Draining, Silent));
    Go(Office(w1, Duo(Draining, Silent)), sent, [], poll);
    var w2 := w1.(streams := [Client([Parcel([2], false), Parcel([5], false)], [], false), Gone(), Second()], rings := Duo([], []));
    assert [Parcel([2], false)] + [Parcel([5], false)] == [Parcel([2], false), Parcel([5], false)];
    assert w1.streams[0 := w2.streams[0]] == w2.streams && w1.rings.client[1..] == [];
    assert Moved(Office(w1, Duo(Draining, Silent)), poll) == Office(w2, Duo(Draining, Silent));
    Go(Office(w2, Duo(Draining, Silent)), sent, [], poll);
    Go(Office(w2, Duo(Silent, Silent)), sent, [], Act(Event(Deliver(true), false)));
    assert [Parcel([2], false), Parcel([5], false)] + [Parcel([3], true)]
        == [Parcel([2], false), Parcel([5], false), Parcel([3], true)];
    assert w2.streams[0 := Mixed().world.streams[0]] == Mixed().world.streams && w2.wires.client[1..] == [Bye(1)];
    assert Moved(Office(w2, Duo(Silent, Silent)), Act(Event(Deliver(true), false))) == Mixed();
  }

  function Done(ready: seq<Byte>): Office {
    var w := Mixed().world;
    Mixed().(world := w.(streams := [Client([], ready, true), Gone(), Second()]))
  }

  lemma ReadAll()
    ensures Reached(Done([]), [2, 3, 5], [2, 5, 3])
  {
    hide Reached;
    hide Contents;
    hide AnyHeap;
    Mix();
    Unsent();
    AllThree();
    var o, o1, sent := Mixed(), Done([2, 5, 3]), [2, 3, 5];
    Go(o, sent, [], Do(0, Pull));
    assert [] + [2, 5, 3] == [2, 5, 3];
    assert o.world.streams[0 := o1.world.streams[0]] == o1.world.streams;
    assert Moved(o, Do(0, Pull)) == o1;
    Go(o1, sent, [], Do(0, Use(Q.Read(3))));
    assert [2, 5, 3][..3] == [2, 5, 3] && [2, 5, 3][3..] == [];
    assert o1.world.streams[0 := Done([]).world.streams[0]] == Done([]).world.streams;
    assert Moved(o1, Do(0, Use(Q.Read(3)))) == Done([]);
  }

  /** In this permitted run the client reads three bytes, and not in the order they were flushed. */
  lemma TwoSenders()
    ensures exists moves ::
              && Permitted(Opening(Empty()), moves) && IsFirst(Runs(Opening(Empty()), moves).world, BACK, 0)
              && Sent(Empty(), Events(moves), BACK) == [2, 3, 5] && Read(Empty(), Events(moves), 0) == [2, 5, 3]
  {
    hide Permitted;
    hide Runs;
    hide Sent;
    hide Read;
    ReadAll();
    var moves :| Leads(moves, Done([]), [2, 3, 5], [2, 5, 3]);
    assert IsFirst(Done([]).world, BACK, 0);
  }

  lemma AllThree()
    ensures var ps := [Parcel([2], false), Parcel([5], false), Parcel([3], true)];
            Contents(ps) == [2, 5, 3] && AnyHeap(ps)
  {
    var ps := [Parcel([2], false), Parcel([5], false), Parcel([3], true)];
    assert ps[..2] == [ps[0], ps[1]] && ps[..2][..1] == [ps[0]] && [ps[0]][..0] == [];
    assert Contents(ps[..2][..1]) == [2] && Contents(ps[..2]) == [2, 5];
    assert ps[2].heap;
  }
}
