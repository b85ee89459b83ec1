/** When an endpoint looks at its ring and when it takes a frame: a message that finds the peer's queue
    idle is followed by one polling event on the socket, behind the frames already there; when the event
    is reached the ring is drained before another frame is taken.  This is why the frames of a stream
    never overtake its messages, so that what is read is in the order it was flushed. */
module SessionWakeUps {
  import opened Basics
  import opened Bytes
  import opened SessionParts
  import opened SessionModel
  import Q = QueueRefinement

  /** The working flag of a queue and where its polling event is: `Silent` when the flag is down, `Rung`
      with the number of frames ahead of the event, `Draining` once the event was reached. */
  datatype Bell = Silent | Rung(ahead: nat) | Draining

  datatype Office = Office(world: World, bells: Duo<Bell>)

  datatype Move = Act(e: Event) | Wake(side: bool)

  /** An endpoint polls its ring only while it drains it, and takes frames only before that and up to
      the polling event. */
  predicate MayAct(bells: Duo<Bell>, a: Action) {
    match a
    case Poll(side) => bells.At(side).Draining?
    case Deliver(side) => !bells.At(side).Draining? && bells.At(side) != Rung(0)
    case _ => true
  }

  predicate Allowed(o: Office, m: Move) {
    match m
    case Wake(side) => o.bells.At(side) == Rung(0)
    case Act(e) => MayAct(o.bells, e.a)
  }

  /** The bell of an endpoint after an action that found `ring` elements and `wire` frames there and
      left `ring'` and `wire'`. */
  function Rings(a: Action, side: bool, b: Bell, ring: nat, wire: nat, ring': nat, wire': nat): Bell {
    if a == Poll(side) then
      if ring == 0 then Silent else b
    else if a == Deliver(side) then
      if wire > 0 && b.Rung? && b.ahead > 0 then Rung(b.ahead - 1) else b
    else if ring' > ring && b.Silent? then Rung(wire')
    else b
  }

  /** The bell of endpoint `side` when the world goes from `w` to `r`. */
  function BellAfter(w: World, r: World, a: Action, side: bool, b: Bell): Bell {
    Rings(a, side, b, |w.rings.At(side)|, |w.wires.At(side)|, |r.rings.At(side)|, |r.wires.At(side)|)
  }

  function Moved(o: Office, m: Move): Office {
    match m
    case Wake(side) => o.(bells := o.bells.Set(side, Draining))
    case Act(e) =>
      var r := Stepped(o.world, e);
      Office(r, Duo(BellAfter(o.world, r, e.a, true, o.bells.client), BellAfter(o.world, r, e.a, false, o.bells.server)))
  }

  function Runs(o: Office, moves: seq<Move>): Office {
    if moves == [] then o else Moved(Runs(o, moves[..|moves| - 1]), moves[|moves| - 1])
  }

  predicate Permitted(o: Office, moves: seq<Move>) {
    moves != [] ==>
      var front := moves[..|moves| - 1];
      Permitted(o, front) && Allowed(Runs(o, front), moves[|moves| - 1])
  }

  lemma RunsNext(o: Office, moves: seq<Move>, m: Move)
    ensures Runs(o, moves + [m]) == Moved(Runs(o, moves), m)
    ensures Permitted(o, moves + [m]) <==> Permitted(o, moves) && Allowed(Runs(o, moves), m)
  {
    assert (moves + [m])[..|moves|] == moves;
  }

  function Events(moves: seq<Move>): seq<Event> {
    if moves == [] then []
    else Events(moves[..|moves| - 1]) + match moves[|moves| - 1] case Act(e) => [e] case Wake(side) => []
  }

  function Opening(w: World): Office {
    Office(w, Duo(Silent, Silent))
  }

  /** What an endpoint is asked to do next: a call, or to look for a polling event on its socket. */
  datatype Step = Call(a: Action) | Reached(side: bool)

  predicate Possible(o: Office, s: Step) {
    match s
    case Call(a) => MayAct(o.bells, a)
    case Reached(side) => o.bells.At(side) == Rung(0)
  }

  predicate Matches(s: Step, m: Move) {
    match s
    case Call(a) => m.Act? && m.e.a == a
    case Reached(side) => m == Wake(side)
  }

  /** The moves are the steps of the script in order, without exactly those that were not possible when
      they came. */
  predicate Follows(o: Office, script: seq<Step>, moves: seq<Move>)
    decreases |script|
  {
    if script == [] then moves == []
    else
      var front, s := script[..|script| - 1], script[|script| - 1];
      || (moves != [] && Follows(o, front, moves[..|moves| - 1]) && Matches(s, moves[|moves| - 1])
          && Possible(Runs(o, moves[..|moves| - 1]), s))
      || (Follows(o, front, moves) && !Possible(Runs(o, moves), s))
  }

  lemma NoMoves(o: Office)
    ensures Follows(o, [], []) && Permitted(o, []) && Runs(o, []) == o
  {
  }

  lemma FollowsNext(o: Office, script: seq<Step>, n: nat, moves: seq<Move>)
    requires n < |script| && Follows(o, script[..n], moves)
    ensures !Possible(Runs(o, moves), script[n]) ==> Follows(o, script[..n + 1], moves)
    ensures forall m | Possible(Runs(o, moves), script[n]) && Matches(script[n], m) :: Follows(o, script[..n + 1], moves + [m])
  {
    var front := script[..n + 1];
    assert front[..n] == script[..n] && front[n] == script[n];
    forall m | Possible(Runs(o, moves), script[n]) && Matches(script[n], m) ensures Follows(o, front, moves + [m]) {
      assert (moves + [m])[..|moves|] == moves;
    }
  }

  /** The moves of the endpoints are a run of the session. */
  lemma {:induction false} RunsWorld(w: World, moves: seq<Move>)
    ensures Runs(Opening(w), moves).world == Exec(w, Events(moves))
  {
    if moves != [] {
      var front, m := moves[..|moves| - 1], moves[|moves| - 1];
      RunsWorld(w, front);
      if m.Act? {
        assert (Events(front) + [m.e])[..|Events(front)|] == Events(front);
      } else {
        assert Events(front) + [] == Events(front);
      }
    }
  }

  // ---------------------------------------------------------------------------------------------
  // Frames are taken in turn
  // ---------------------------------------------------------------------------------------------

  /** A message in the ring of endpoint `side` is announced, nothing is announced without one, and the
      event lies within the wire. */
  predicate Heard(o: Office, side: bool) {
    var ring, b := o.world.rings.At(side), o.bells.At(side);
    && (ring != [] ==> !b.Silent?) && (b.Rung? ==> ring != [])
    && (b.Rung? ==> b.ahead <= |o.world.wires.At(side)|)
  }

  /** While a message of the key is in the ring, the polling event is ahead of every frame of the key. */
  predicate Ahead(o: Office, k: Key)
    requires Heard(o, k.0)
  {
    var b := o.bells.At(k.0);
    Mailbox(o.world, k) != [] ==>
      b.Draining? || (b.Rung? && Frames(o.world.wires.At(k.0)[..b.ahead], k.1) == [])
  }

  /** What a step does to the ring and the wire of one endpoint. */
  predicate Sides(a: Action, side: bool, ring: seq<Mail>, wire: seq<Frame>, ring': seq<Mail>, wire': seq<Frame>) {
    if a == Poll(side) then wire' == wire && ring' == if ring == [] then ring else ring[1..]
    else if a == Deliver(side) then ring' == ring && wire' == if wire == [] then wire else wire[1..]
    else
      || (ring' == ring && wire' == wire)
      || (ring' == ring && |wire'| == |wire| + 1 && wire' == wire + [wire'[|wire|]])
      || (wire' == wire && |ring'| == |ring| + 1 && ring' == ring + [ring'[|ring|]])
  }

  lemma StepSides(w: World, e: Event, side: bool)
    ensures var r := Stepped(w, e);
            Sides(e.a, side, w.rings.At(side), w.wires.At(side), r.rings.At(side), r.wires.At(side))
  {
    hide Polled;
    hide Delivered;
    hide OnStream;
    hide HandsOver;
    match e.a
    case Open(id) =>
    case Poll(p) => PolledKeeps(w, p);
    case Deliver(p) => DeliveredKeeps(w, p);
    case OfStream(i, c) =>
      if i < |w.streams| {
        OnStreamSends(w, i, c, e.heap);
        OverIsNoClose(w, i, c, e.heap);
      }
  }

  lemma HeardStep(o: Office, m: Move, side: bool)
    requires Heard(o, side) && Allowed(o, m)
    ensures Heard(Moved(o, m), side)
  {
    hide Stepped;
    if m.Act? { StepSides(o.world, m.e, side); }
  }

  lemma {:induction false} FramesPrefix(wire: seq<Frame>, n: nat, id: nat)
    requires n <= |wire|
    ensures Frames(wire, id) == [] ==> Frames(wire[..n], id) == []
  {
    if n > 0 {
      assert wire[..n][1..] == wire[1..][..n - 1];
      FramesPrefix(wire[1..], n - 1, id);
    }
  }

  lemma FramesTail(wire: seq<Frame>, n: nat, id: nat)
    requires 0 < n <= |wire| && Frames(wire[..n], id) == []
    ensures Frames(wire[1..][..n - 1], id) == [] && !(wire[0].Data? && wire[0].id == id)
  {
    assert wire[..n][1..] == wire[1..][..n - 1];
  }

  /** The frame that is taken does not overtake a message. */
  lemma TakenInTurn(o: Office, e: Event, k: Key)
    requires Heard(o, k.0) && Ahead(o, k) && Allowed(o, Act(e))
    ensures InTurn(o.world, e, k)
  {
    var b := o.bells.At(k.0);
    if DeliversFor(o.world, e, k) && Mailbox(o.world, k) != [] {
      FramesTail(o.world.wires.At(k.0), b.ahead, k.1);
    }
  }

  lemma AheadStep(o: Office, m: Move, k: Key)
    requires Heard(o, k.0) && Ahead(o, k) && Channel(o.world, k) && Allowed(o, m) && Heard(Moved(o, m), k.0)
    ensures Ahead(Moved(o, m), k)
  {
    match m
    case Wake(side) =>
    case Act(e) => AheadAct(o, e, k);
  }

  /** Only a stream that has no frame on the wire puts into the ring. */
  lemma PosterHasNoFrames(w: World, e: Event, k: Key)
    requires Channel(w, k) && Posts(w, e, k)
    ensures Postbag(w, k) == []
  {
    assert Sends(w.streams[e.a.i], k) && MayPost(w.streams[e.a.i]);
  }

  lemma AheadAct(o: Office, e: Event, k: Key)
    requires Heard(o, k.0) && Ahead(o, k) && Channel(o.world, k) && Allowed(o, Act(e)) && Heard(Moved(o, Act(e)), k.0)
    ensures Ahead(Moved(o, Act(e)), k)
  {
    hide Stepped;
    hide Frames;
    hide Letters;
    hide Posts;
    var w, side := o.world, k.0;
    var r, b := Stepped(w, e), o.bells.At(side);
    StepSides(w, e, side);
    MailboxStep(w, e, k);
    var wire := w.wires.At(side);
    if Mailbox(r, k) != [] {
      if Posts(w, e, k) {
        PosterHasNoFrames(w, e, k);
        PostKeepsWire(w, e, k);
        FramesPrefix(wire, |wire|, k.1);
        if b.Rung? { FramesPrefix(wire, b.ahead, k.1); }
        assert wire[..|wire|] == wire;
      } else {
        PollLeaves(w, e, k);
        if b.Rung? {
          if e.a == Deliver(side) {
            if wire != [] { FramesTail(wire, b.ahead, k.1); }
          } else {
            assert r.wires.At(side)[..b.ahead] == wire[..b.ahead];
          }
        }
      }
    }
  }

  lemma PostKeepsWire(w: World, e: Event, k: Key)
    requires Posts(w, e, k)
    ensures Stepped(w, e).wires.At(k.0) == w.wires.At(k.0) && e.a.OfStream?
    ensures |Stepped(w, e).rings.At(k.0)| > |w.rings.At(k.0)|
  {
    hide OnStream;
    OnStreamSends(w, e.a.i, e.a.c, e.heap);
  }

  lemma PollLeaves(w: World, e: Event, k: Key)
    requires !Posts(w, e, k) && Mailbox(Stepped(w, e), k) != []
    ensures Mailbox(w, k) != [] && w.rings.At(k.0) != []
  {
    hide Stepped;
    hide Posts;
    MailboxStep(w, e, k);
  }

  /** Every permitted run takes the frames of a key with one sender in turn. */
  lemma {:induction false} PermittedInTurn(w: World, moves: seq<Move>, k: Key)
    requires Init(w) && Permitted(Opening(w), moves) && OneSender(Runs(Opening(w), moves).world, k)
    ensures AlwaysInTurn(w, Events(moves), k)
    ensures var o := Runs(Opening(w), moves);
            Heard(o, k.0) && Ahead(o, k) && Channel(o.world, k) && Traffic(o.world, k)
    decreases |moves|
  {
    if moves != [] {
      var front, m := moves[..|moves| - 1], moves[|moves| - 1];
      var o := Runs(Opening(w), front);
      hide Stepped;
      if m.Act? { OneSenderBack(o.world, m.e, k); }
      PermittedInTurn(w, front, k);
      RunsWorld(w, front);
      hide Ahead;
      hide Heard;
      hide Channel;
      hide Traffic;
      hide OneSender;
      hide Allowed;
      HeardStep(o, m, k.0);
      AheadStep(o, m, k);
      if m.Act? {
        TakenInTurn(o, m.e, k);
        ChannelStep(o.world, m.e, k);
        TrafficStep(o.world, m.e, k);
        assert (Events(front) + [m.e])[..|Events(front)|] == Events(front);
      } else {
        assert Events(front) + [] == Events(front);
      }
    }
  }

  /** Whatever is read from the first stream under a key with one sender is a prefix of what that sender
      flushed; and while the stream is in the table the rest is at hand, in the ring or on the wire. */
  lemma ReadInOrder(w: World, moves: seq<Move>, k: Key, j: nat)
    requires Init(w) && Permitted(Opening(w), moves)
    requires var e := Runs(Opening(w), moves).world; OneSender(e, k) && IsFirst(e, k, j)
    ensures var e, run := Runs(Opening(w), moves).world, Events(moves);
            && Read(w, run, j) <= Sent(w, run, k)
            && (k in e.table && e.table[k] == j ==>
                  Sent(w, run, k) == Read(w, run, j) + e.streams[j].ready + Contents(e.streams[j].pending)
                                     + Join(Mailbox(e, k)) + Join(Postbag(e, k)))
  {
    hide Permitted;
    hide Sent;
    hide Read;
    hide OneSender;
    hide IsFirst;
    PermittedInTurn(w, moves, k);
    RunsWorld(w, moves);
    BytesInOrder(w, Events(moves), k, j);
  }

  // ---------------------------------------------------------------------------------------------
  // A client's stream is the only sender of its id
  // ---------------------------------------------------------------------------------------------

  predicate Opens(run: seq<Event>, id: nat) {
    exists n :: 0 <= n < |run| && run[n].a == Open(id)
  }

  /** The counter that ids come from gives each once. */
  predicate OpensOnce(run: seq<Event>, id: nat) {
    forall m, n | 0 <= m < n < |run| :: !(run[m].a == Open(id) && run[n].a == Open(id))
  }

  /** A stream that is new is a server's, or the one the client opens. */
  lemma WhoIsNew(w: World, e: Event, i: nat)
    requires |w.streams| <= i < |Stepped(w, e).streams|
    ensures Stepped(w, e).streams[i].client ==> e.a == Open(Stepped(w, e).streams[i].id)
  {
    match e.a
    case Open(id) =>
    case Poll(side) =>
    case Deliver(side) =>
    case OfStream(i, c) => if i < |w.streams| { OnStreamKeeps(w, i, c, e.heap); }
  }

  lemma {:induction false} OneClient(w: World, run: seq<Event>, id: nat)
    requires Init(w) && OpensOnce(run, id)
    ensures OneSender(Exec(w, run), (false, id))
    ensures !Opens(run, id) ==> NoSender(Exec(w, run), (false, id))
    decreases |run|
  {
    if run != [] {
      var front, e, k := run[..|run| - 1], run[|run| - 1], (false, id);
      var u := Exec(w, front);
      var r := Stepped(u, e);
      hide Stepped;
      OneClient(w, front, id);
      SteppedKeeps(u, e);
      assert run[|front|] == e;
      forall i | 0 <= i < |r.streams| && Sends(r.streams[i], k)
        ensures if i < |u.streams| then Sends(u.streams[i], k) else e.a == Open(id)
      {
        if i < |u.streams| {
          assert SameName(u.streams[i], r.streams[i]);
        } else {
          WhoIsNew(u, e, i);
        }
      }
      if e.a != Open(id) && Opens(front, id) {
        var n :| 0 <= n < |front| && front[n].a == Open(id);
        assert run[n].a == Open(id);
      }
    }
  }

  /** From client to server: the server's first stream of an id reads what the client flushed on the
      stream of that id, in order and without loss. */
  lemma ServerReadsInOrder(w: World, moves: seq<Move>, id: nat, j: nat)
    requires Init(w) && Permitted(Opening(w), moves) && OpensOnce(Events(moves), id)
    requires IsFirst(Runs(Opening(w), moves).world, (false, id), j)
    ensures var e, run, k := Runs(Opening(w), moves).world, Events(moves), (false, id);
            && Read(w, run, j) <= Sent(w, run, k)
            && (k in e.table && e.table[k] == j ==>
                  Sent(w, run, k) == Read(w, run, j) + e.streams[j].ready + Contents(e.streams[j].pending)
                                     + Join(Mailbox(e, k)) + Join(Postbag(e, k)))
  {
    hide Permitted;
    hide Sent;
    hide Read;
    hide OneSender;
    hide IsFirst;
    RunsWorld(w, moves);
    OneClient(w, Events(moves), id);
    ReadInOrder(w, moves, (false, id), j);
  }

  // ---------------------------------------------------------------------------------------------
  // Whatever was sent arrives
  // ---------------------------------------------------------------------------------------------

  /** What endpoint `side` has to do next about its ring and its wire. */
  function NextMove(o: Office, side: bool): Move {
    if o.bells.At(side).Draining? then Act(Event(Poll(side), false))
    else if o.bells.At(side) == Rung(0) then Wake(side)
    else Act(Event(Deliver(side), false))
  }

  predicate Served(o: Office, side: bool) {
    o.world.rings.At(side) == [] && o.world.wires.At(side) == [] && o.bells.At(side).Silent?
  }

  function Work(o: Office, side: bool): nat {
    |o.world.rings.At(side)| + |o.world.wires.At(side)| +
    match o.bells.At(side) case Silent => 0 case Rung(_) => 2 case Draining => 1
  }

  lemma NextMoveWorks(o: Office, side: bool)
    requires Heard(o, side) && !Served(o, side)
    ensures var m := NextMove(o, side);
            Allowed(o, m) && Heard(Moved(o, m), side) && Work(Moved(o, m), side) < Work(o, side)
  {
    var m := NextMove(o, side);
    HeardStep(o, m, side);
    hide Stepped;
    if m.Act? { StepSides(o.world, m.e, side); }
  }

  /** An endpoint that goes on reading its socket empties its ring and its wire. */
  function Serving(o: Office, side: bool): (moves: seq<Move>)
    requires Heard(o, side)
    ensures |moves| <= Work(o, side)
    decreases Work(o, side)
  {
    if Served(o, side) then []
    else
      NextMoveWorks(o, side);
      [NextMove(o, side)] + Serving(Moved(o, NextMove(o, side)), side)
  }

  lemma {:induction false} RunsFirst(o: Office, m: Move, moves: seq<Move>)
    ensures Runs(o, [m] + moves) == Runs(Moved(o, m), moves)
    ensures Permitted(o, [m] + moves) <==> Allowed(o, m) && Permitted(Moved(o, m), moves)
    decreases |moves|
  {
    var all := [m] + moves;
    hide Moved;
    hide Allowed;
    if moves == [] {
      assert all[..0] == [];
      assert Runs(o, []) == o && Permitted(o, []);
    } else {
      assert all[..|all| - 1] == [m] + moves[..|moves| - 1];
      RunsFirst(o, m, moves[..|moves| - 1]);
    }
  }

  lemma {:induction false} ServingEnds(o: Office, side: bool)
    requires Heard(o, side)
    ensures Permitted(o, Serving(o, side)) && Served(Runs(o, Serving(o, side)), side)
    decreases Work(o, side)
  {
    hide Moved;
    hide Allowed;
    hide Heard;
    if !Served(o, side) {
      NextMoveWorks(o, side);
      var m := NextMove(o, side);
      ServingEnds(Moved(o, m), side);
      RunsFirst(o, m, Serving(Moved(o, m), side));
    }
  }

  lemma {:induction false} HeardAlways(w: World, moves: seq<Move>, side: bool)
    requires Init(w) && Permitted(Opening(w), moves)
    ensures Heard(Runs(Opening(w), moves), side)
    decreases |moves|
  {
    hide Moved;
    hide Allowed;
    if moves != [] {
      var front := moves[..|moves| - 1];
      HeardAlways(w, front, side);
      HeardStep(Runs(Opening(w), front), moves[|moves| - 1], side);
    }
  }

  lemma {:induction false} RunsThen(o: Office, moves: seq<Move>, more: seq<Move>)
    ensures Runs(o, moves + more) == Runs(Runs(o, moves), more)
    ensures Permitted(o, moves + more) <==> Permitted(o, moves) && Permitted(Runs(o, moves), more)
    decreases |more|
  {
    hide Moved;
    hide Allowed;
    if more == [] {
      assert moves + more == moves;
    } else {
      assert (moves + more)[..|moves + more| - 1] == moves + more[..|more| - 1];
      RunsThen(o, moves, more[..|more| - 1]);
    }
  }

  /** Every permitted run can go on, by moves of one endpoint alone, until its ring and its wire are
      empty. */
  lemma CanBeServed(w: World, moves: seq<Move>, side: bool)
    requires Init(w) && Permitted(Opening(w), moves)
    ensures Heard(Runs(Opening(w), moves), side)
    ensures var all := moves + Serving(Runs(Opening(w), moves), side);
            Permitted(Opening(w), all) && Served(Runs(Opening(w), all), side)
  {
    hide Permitted;
    hide Runs;
    hide Serving;
    HeardAlways(w, moves, side);
    var o := Runs(Opening(w), moves);
    ServingEnds(o, side);
    RunsThen(Opening(w), moves, Serving(o, side));
  }

  /** Then nothing that was flushed is missing: it was read, can be read, or waits with the stream. */
  lemma NothingMissing(w: World, moves: seq<Move>, k: Key, j: nat)
    requires Init(w) && Permitted(Opening(w), moves) && Served(Runs(Opening(w), moves), k.0)
    requires var e := Runs(Opening(w), moves).world;
             OneSender(e, k) && IsFirst(e, k, j) && k in e.table && e.table[k] == j
    ensures var e, run := Runs(Opening(w), moves).world, Events(moves);
            Sent(w, run, k) == Read(w, run, j) + e.streams[j].ready + Contents(e.streams[j].pending)
  {
    hide Permitted;
    hide Sent;
    hide Read;
    hide OneSender;
    hide IsFirst;
    hide Runs;
    hide Contents;
    ReadInOrder(w, moves, k, j);
    Nothing();
  }
}
