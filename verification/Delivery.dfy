/** Order of delivery over the two channels of a session.

    One direction of a session: each stream's thread flushes messages and finally closes, through
    the shared ring or, once the stream has fallen back, through the socket.  The peer's read loop
    takes socket frames one at a time; a polling frame sends it into the drain of the ring, which
    it leaves by the protocol of `WakeUp`.  Raising the flag and queueing the polling frame are one
    step here; the look at the fallback flag, the put and the wake-up are three, and the flag may be
    set from outside between any of them.
 */
module Delivery {

  type Sid = nat
  type Msg = nat

  datatype Item = Data(id: Sid, msg: Msg) | Close(id: Sid)

  datatype Frame = Polling | Carry(item: Item)

  /** Where a stream's thread is: outside a call, between its look at the fallback flag and its put into
      the ring, or between that and its wake-up. */
  datatype Phase = Free | Putting(item: Item) | Waking

  datatype Stream = Stream(fallback: bool, closed: bool, thread: Phase)

  datatype Consumer = Waiting | Draining | Lowering | Checking | Raising

  /** `sent` and `arrived` are auxiliary: what the senders handed over, in the order of their
      flushes and closes, and what the receiver dispatched to its streams, in that order. */
  datatype State = State(
    cap: nat,
    ring: seq<Item>,
    flag: bool,
    socket: seq<Frame>,
    streams: map<Sid, Stream>,
    consumer: Consumer,
    sent: seq<Item>,
    arrived: seq<Item>)

  datatype Action =
    | Flush(id: Sid, msg: Msg, inShm: bool)
    | FlushLost(id: Sid)
    | EndStream(id: Sid)
    | Put(id: Sid)
    | GiveUp(id: Sid)
    | Wake(id: Sid)
    | PeerFellBack(id: Sid)
    | Reset(id: Sid)
    | Receive
    | Pop
    | Lower
    | Check
    | Raise

  /** The stream is open and its thread is not inside another call. */
  predicate Ready(s: State, id: Sid) {
    id in s.streams && !s.streams[id].closed && s.streams[id].thread.Free?
  }

  predicate Enabled(s: State, a: Action) {
    match a
    case Flush(id, _, _) => Ready(s, id)
    case FlushLost(id) => Ready(s, id)
    case EndStream(id) => Ready(s, id)
    case Put(id) => id in s.streams && s.streams[id].thread.Putting?
    case GiveUp(id) => id in s.streams && s.streams[id].thread.Putting? && s.streams[id].thread.item.Data?
    case Wake(id) => id in s.streams && s.streams[id].thread.Waking?
    case PeerFellBack(id) => id in s.streams && !s.streams[id].closed
    case Reset(id) => Ready(s, id)
    case Receive => s.consumer.Waiting? && s.socket != []
    case Pop => s.consumer.Draining?
    case Lower => s.consumer.Lowering?
    case Check => s.consumer.Checking?
    case Raise => s.consumer.Raising?
  }

  function With(s: State, id: Sid, st: Stream): State {
    s.(streams := s.streams[id := st])
  }

  function ToRing(s: State, item: Item): State {
    s.(ring := s.ring + [item], sent := s.sent + [item])
  }

  function ToSocket(s: State, item: Item): State {
    s.(socket := s.socket + [Carry(item)], sent := s.sent + [item])
  }

  function Apply(s: State, a: Action): State
    requires Enabled(s, a)
  {
    match a
    case Flush(id, m, inShm) =>
      var fb := s.streams[id].fallback || !inShm;
      if fb then ToSocket(With(s, id, s.streams[id].(fallback := true)), Data(id, m))
      else With(s, id, s.streams[id].(thread := Putting(Data(id, m))))
    case FlushLost(id) => With(s, id, s.streams[id].(fallback := true))
    case EndStream(id) =>
      if s.streams[id].fallback then ToSocket(With(s, id, s.streams[id].(closed := true)), Close(id))
      else With(s, id, s.streams[id].(thread := Putting(Close(id))))
    case Put(id) =>
      var st, x := s.streams[id], s.streams[id].thread.item;
      if |s.ring| < s.cap then ToRing(With(s, id, st.(thread := Waking, closed := st.closed || x.Close?)), x)
      else if x.Close? then ToSocket(With(s, id, st.(thread := Free, closed := true)), x)
      else s                                    // queue full: the flush tries again or gives up
    case GiveUp(id) => With(s, id, s.streams[id].(thread := Free))
    case Wake(id) =>
      var s' := With(s, id, s.streams[id].(thread := Free));
      if s.flag then s' else s'.(flag := true, socket := s.socket + [Polling])
    case PeerFellBack(id) => With(s, id, s.streams[id].(fallback := true))
    case Reset(id) => With(s, id, s.streams[id].(fallback := false))
    case Receive =>
      if s.socket[0].Polling? then s.(socket := s.socket[1..], consumer := Draining)
      else s.(socket := s.socket[1..], arrived := s.arrived + [s.socket[0].item])
    case Pop =>
      if s.ring == [] then s.(consumer := Lowering)
      else s.(ring := s.ring[1..], arrived := s.arrived + [s.ring[0]])
    case Lower => s.(flag := false, consumer := Checking)
    case Check => s.(consumer := if s.ring == [] then Waiting else Raising)
    case Raise => s.(flag := true, consumer := Draining)
  }

  // ---------------------------------------------------------------------------------------------
  // What belongs to one stream
  // ---------------------------------------------------------------------------------------------

  function Of(items: seq<Item>, id: Sid): seq<Item> {
    if items == [] then []
    else (if items[0].id == id then [items[0]] else []) + Of(items[1..], id)
  }

  function Carried(frames: seq<Frame>): seq<Item> {
    if frames == [] then []
    else (if frames[0].Carry? then [frames[0].item] else []) + Carried(frames[1..])
  }

  lemma {:induction false} OfConcat(a: seq<Item>, b: seq<Item>, id: Sid)
    ensures Of(a + b, id) == Of(a, id) + Of(b, id)
  {
    if a == [] {
      assert a + b == b;
    } else {
      assert (a + b)[1..] == a[1..] + b;
      OfConcat(a[1..], b, id);
      var h := if a[0].id == id then [a[0]] else [];
      assert Of(a + b, id) == h + (Of(a[1..], id) + Of(b, id));
      assert Of(a, id) == h + Of(a[1..], id);
    }
  }

  lemma {:induction false} CarriedConcat(a: seq<Frame>, b: seq<Frame>)
    ensures Carried(a + b) == Carried(a) + Carried(b)
  {
    if a == [] {
      assert a + b == b;
    } else {
      assert (a + b)[1..] == a[1..] + b;
      CarriedConcat(a[1..], b);
      var h := if a[0].Carry? then [a[0].item] else [];
      assert Carried(a + b) == h + (Carried(a[1..]) + Carried(b));
      assert Carried(a) == h + Carried(a[1..]);
    }
  }

  lemma OfOne(x: Item, id: Sid)
    ensures Of([x], id) == if x.id == id then [x] else []
  {
    assert [x][1..] == [];
  }

  // ---------------------------------------------------------------------------------------------
  // What comes before the next drain of the ring, and what after
  // ---------------------------------------------------------------------------------------------

  /** The messages ahead of the first polling frame. */
  function Near(frames: seq<Frame>): seq<Item> {
    if frames == [] || frames[0].Polling? then [] else [frames[0].item] + Near(frames[1..])
  }

  /** The messages behind it. */
  function Far(frames: seq<Frame>): seq<Item> {
    if frames == [] then []
    else if frames[0].Polling? then Carried(frames)
    else Far(frames[1..])
  }

  lemma {:induction false} NearFar(frames: seq<Frame>)
    ensures Carried(frames) == Near(frames) + Far(frames)
  {
    if frames != [] && frames[0].Carry? {
      var rest := frames[1..];
      NearFar(rest);
      var x := [frames[0].item];
      assert x + (Near(rest) + Far(rest)) == (x + Near(rest)) + Far(rest);
    }
  }

  lemma {:induction false} NoneFar(frames: seq<Frame>)
    requires Polling !in frames
    ensures Far(frames) == []
  {
    if frames != [] {
      assert frames == [frames[0]] + frames[1..];
      NoneFar(frames[1..]);
    }
  }

  lemma {:induction false} NearFarAppend(frames: seq<Frame>, x: Item)
    ensures var more := frames + [Carry(x)];
            if Polling in frames then Near(more) == Near(frames) && Far(more) == Far(frames) + [x]
            else Near(more) == Near(frames) + [x] && Far(more) == []
  {
    var more := frames + [Carry(x)];
    if frames == [] {
      assert more[1..] == [];
    } else if frames[0].Polling? {
      CarriedConcat(frames, [Carry(x)]);
      assert [Carry(x)][1..] == [];
    } else {
      assert more[1..] == frames[1..] + [Carry(x)];
      assert frames == [frames[0]] + frames[1..];
      NearFarAppend(frames[1..], x);
    }
  }

  lemma {:induction false} NearFarPolling(frames: seq<Frame>)
    ensures var more := frames + [Polling]; Near(more) == Near(frames) && Far(more) == Far(frames)
  {
    var more := frames + [Polling];
    if frames == [] || frames[0].Polling? {
      PollingCarried(frames);
    } else {
      assert more[1..] == frames[1..] + [Polling];
      NearFarPolling(frames[1..]);
    }
  }

  lemma PollingCarried(frames: seq<Frame>)
    ensures Carried(frames + [Polling]) == Carried(frames)
  {
    CarriedConcat(frames, [Polling]);
    assert [Polling][1..] == [];
  }

  lemma AppendCarried(frames: seq<Frame>, x: Item)
    ensures Carried(frames + [Carry(x)]) == Carried(frames) + [x]
  {
    CarriedConcat(frames, [Carry(x)]);
    assert [Carry(x)][1..] == [];
  }

  /** What a waiting consumer will dispatch before it looks at the ring again. */
  function Ahead(s: State): seq<Item> {
    if s.consumer.Waiting? then Near(s.socket) else []
  }

  /** The messages in the socket that a drain of the ring may come before. */
  function Behind(s: State): seq<Item> {
    if s.consumer.Waiting? then Far(s.socket) else Carried(s.socket)
  }

  // ---------------------------------------------------------------------------------------------
  // What every state keeps
  // ---------------------------------------------------------------------------------------------

  /** Per stream: what was sent is what arrived, then what is dispatched before the next drain, then
      what the ring holds, then what is behind it in the socket. */
  predicate Split(s: State, id: Sid) {
    Of(s.sent, id) == Of(s.arrived, id) + Of(Ahead(s), id) + Of(s.ring, id) + Of(Behind(s), id)
  }

  ghost predicate Ordered(s: State) {
    forall id: Sid :: Split(s, id)
  }

  /** It has not fallen back, or it had not when its thread looked. */
  predicate MayPut(st: Stream) {
    !st.closed && (!st.fallback || st.thread.Putting?)
  }

  /** A stream that may still use the ring has nothing behind it in the socket. */
  predicate RingFirst(s: State) {
    s.cap > 0 ==> forall id | id in s.streams && MayPut(s.streams[id]) :: Of(Behind(s), id) == []
  }

  /** What a thread is about to put is its own stream's, which is not closed. */
  predicate Threads(s: State) {
    forall id | id in s.streams && s.streams[id].thread.Putting? ::
      s.streams[id].thread.item.id == id && !s.streams[id].closed
  }

  /** A stream's elements in the ring have been announced, unless its thread is about to. */
  predicate Announced(s: State) {
    forall id | id in s.streams && !s.streams[id].thread.Waking? && s.consumer.Waiting? && Polling !in s.socket ::
      Of(s.ring, id) == []
  }

  predicate FlagCovered(s: State) {
    s.flag ==> s.consumer.Draining? || s.consumer.Lowering? || s.consumer.Raising? || Polling in s.socket
  }

  predicate Known(s: State) {
    && (forall x | x in s.ring :: x.id in s.streams)
    && (forall x | x in s.sent :: x.id in s.streams)
  }

  /** A close is the last thing its stream sends. */
  predicate CloseLast(items: seq<Item>) {
    forall i | 0 <= i < |items| - 1 :: !items[i].Close?
  }

  predicate Finished(s: State) {
    forall id | id in s.streams :: FinishedOk(Of(s.sent, id), s.streams[id].closed)
  }

  predicate FinishedOk(mine: seq<Item>, closed: bool) {
    CloseLast(mine) && (mine != [] && mine[|mine| - 1].Close? ==> closed)
  }

  ghost predicate Inv(s: State) {
    Ordered(s) && RingFirst(s) && Announced(s) && FlagCovered(s) && Known(s) && Finished(s) && Threads(s)
  }

  predicate Init(s: State) {
    && s.ring == [] && s.socket == [] && s.sent == [] && s.arrived == []
    && !s.flag && s.consumer.Waiting?
    && (forall id | id in s.streams :: s.streams[id] == Stream(false, false, Free))
  }

  /** A `reset` is sound when no drain of the ring can come before a frame of the stream: the socket
      holds none, or the consumer waits and no polling frame is ahead of them.  A ring without room
      is never used. */
  predicate Sound(s: State, a: Action) {
    a.Reset? ==> s.cap == 0 || Of(Behind(s), a.id) == []
  }

  // ---------------------------------------------------------------------------------------------
  // Preservation, clause by clause
  // ---------------------------------------------------------------------------------------------

  lemma Regroup(a: seq<Item>, b: seq<Item>, c: seq<Item>, d: seq<Item>)
    ensures a + b + c + d == a + (b + (c + d))
  {
  }

  lemma ToRingSplit(s: State, x: Item, id: Sid)
    requires Split(s, id) && (x.id == id ==> Of(Behind(s), id) == [])
    ensures Split(ToRing(s, x), id)
  {
    hide Of;
    hide Ahead;
    hide Behind;
    var r := ToRing(s, x);
    AheadSame(s, r);
    OfOne(x, id);
    OfConcat(s.sent, [x], id);
    OfConcat(s.ring, [x], id);
    var one := Of([x], id);
    var front := Of(s.arrived, id) + Of(Ahead(s), id);
    assert (front + Of(s.ring, id)) + one == front + (Of(s.ring, id) + one);
  }

  lemma AheadSame(s: State, r: State)
    requires r.socket == s.socket && r.consumer == s.consumer
    ensures Ahead(r) == Ahead(s) && Behind(r) == Behind(s)
  {
  }

  /** A frame put at the back of the socket: its stream's share of the ring is drained first, or it
      is empty. */
  lemma ToSocketSplit(s: State, x: Item, id: Sid)
    requires Split(s, id) && Announced(s) && x.id in s.streams && !s.streams[x.id].thread.Waking?
    ensures Split(ToSocket(s, x), id)
  {
    hide Of;
    hide Near;
    hide Far;
    hide Carried;
    var r := ToSocket(s, x);
    NearFarAppend(s.socket, x);
    if Polling !in s.socket { NoneFar(s.socket); }
    AppendCarried(s.socket, x);
    OfOne(x, id);
    OfConcat(s.sent, [x], id);
    if s.consumer.Waiting? && Polling !in s.socket {
      OfConcat(Near(s.socket), [x], id);
      var one := Of([x], id);
      OfNone(id);
      if x.id == id {
        assert Of(s.ring, id) == [];
        assert Of(s.arrived, id) + (Of(Ahead(s), id) + one) == (Of(s.arrived, id) + Of(Ahead(s), id)) + one;
      }
    } else {
      OfConcat(Behind(s), [x], id);
      var front := Of(s.arrived, id) + Of(Ahead(s), id) + Of(s.ring, id);
      assert (front + Of(Behind(s), id)) + Of([x], id) == front + (Of(Behind(s), id) + Of([x], id));
    }
  }

  lemma OfNone(id: Sid)
    ensures Of([], id) == []
  {
  }

  lemma WakeSplit(s: State, r: State, id: Sid)
    requires Split(s, id) && r.socket == s.socket + [Polling] && r.consumer == s.consumer
    requires r.sent == s.sent && r.arrived == s.arrived && r.ring == s.ring
    ensures Split(r, id) && Ahead(r) == Ahead(s) && Behind(r) == Behind(s)
  {
    NearFarPolling(s.socket);
    PollingCarried(s.socket);
  }

  /** What a dispatched frame does to the two shares. */
  lemma ReceiveShares(s: State)
    requires Enabled(s, Receive)
    ensures var r := Apply(s, Receive);
            && Behind(r) == Behind(s)
            && (if s.socket[0].Carry? then Ahead(s) == [s.socket[0].item] + Ahead(r) else Ahead(s) == [] == Ahead(r))
  {
  }

  lemma ReceiveSplit(s: State, id: Sid)
    requires Split(s, id) && Enabled(s, Receive)
    ensures Split(Apply(s, Receive), id)
  {
    ReceiveShares(s);
    hide Of;
    hide Ahead;
    hide Behind;
    if s.socket[0].Carry? {
      var x, r := s.socket[0].item, Apply(s, Receive);
      OfConcat(s.arrived, [x], id);
      OfConcat([x], Ahead(r), id);
      assert Of(s.arrived, id) + (Of([x], id) + Of(Ahead(r), id)) == (Of(s.arrived, id) + Of([x], id)) + Of(Ahead(r), id);
    }
  }

  lemma PopSplit(s: State, id: Sid)
    requires Split(s, id) && s.consumer.Draining?
    ensures Split(Apply(s, Pop), id)
  {
    hide Of;
    hide Carried;
    if s.ring != [] {
      var x, rest := s.ring[0], s.ring[1..];
      OfConcat(s.arrived, [x], id);
      OfConcat([x], rest, id);
      OfNone(id);
      assert s.ring == [x] + rest;
      assert Of(s.arrived, id) + (Of([x], id) + Of(rest, id)) == (Of(s.arrived, id) + Of([x], id)) + Of(rest, id);
    }
  }

  /** Going back to waiting over an empty ring brings the frames at the front ahead. */
  lemma CheckSplit(s: State, id: Sid)
    requires Split(s, id) && s.consumer.Checking?
    ensures Split(Apply(s, Check), id)
  {
    hide Of;
    hide Near;
    hide Far;
    hide Carried;
    if s.ring == [] {
      NearFar(s.socket);
      OfConcat(Near(s.socket), Far(s.socket), id);
      OfNone(id);
    }
  }

  lemma OrderedStep(s: State, a: Action)
    requires Ordered(s) && RingFirst(s) && Announced(s) && Threads(s) && Enabled(s, a)
    ensures Ordered(Apply(s, a))
  {
    hide Of;
    var s' := Apply(s, a);
    forall id: Sid ensures Split(s', id) {
      assert Split(s, id);
      match a
      case Flush(i, m, inShm) =>
        if s.streams[i].fallback || !inShm {
          ToSocketSplit(With(s, i, s.streams[i].(fallback := true)), Data(i, m), id);
        }
      case EndStream(i) =>
        if s.streams[i].fallback { ToSocketSplit(s, Close(i), id); }
      case Put(i) =>
        var x := s.streams[i].thread.item;
        if |s.ring| < s.cap {
          ToRingSplit(s, x, id);
        } else if x.Close? {
          ToSocketSplit(s, x, id);
        }
      case Wake(_) => if !s.flag { WakeSplit(s, s', id); }
      case Receive => ReceiveSplit(s, id);
      case Pop => PopSplit(s, id);
      case Check => CheckSplit(s, id);
      case _ =>
    }
  }

  predicate Sends(a: Action) {
    a.Flush? || a.EndStream? || a.Put?
  }

  /** What a step does to a stream's share behind the ring. */
  lemma BehindShare(s: State, a: Action, id: Sid)
    requires Threads(s) && Enabled(s, a) && Of(Behind(s), id) == [] && !(Sends(a) && a.id == id)
    ensures Of(Behind(Apply(s, a)), id) == []
  {
    hide Of;
    match a
    case Flush(i, m, inShm) => BehindAppend(s, Data(i, m), id);
    case EndStream(i) => BehindAppend(s, Close(i), id);
    case Put(i) => BehindAppend(s, s.streams[i].thread.item, id);
    case Wake(_) =>
      NearFarPolling(s.socket);
      PollingCarried(s.socket);
    case Receive => ReceiveShares(s);
    case Check =>
      NearFar(s.socket);
      OfConcat(Near(s.socket), Far(s.socket), id);
    case _ =>
  }

  lemma BehindAppend(s: State, x: Item, id: Sid)
    requires Of(Behind(s), id) == [] && x.id != id
    ensures Of(Behind(ToSocket(s, x)), id) == []
  {
    hide Of;
    NearFarAppend(s.socket, x);
    AppendCarried(s.socket, x);
    OfOne(x, id);
    OfNone(id);
    OfConcat(Behind(s), [x], id);
  }

  lemma RingFirstStep(s: State, a: Action)
    requires RingFirst(s) && Threads(s) && Enabled(s, a) && Sound(s, a)
    ensures RingFirst(Apply(s, a))
  {
    hide Of;
    hide Behind;
    var s' := Apply(s, a);
    if s'.cap > 0 {
      forall id | id in s'.streams && MayPut(s'.streams[id])
        ensures Of(Behind(s'), id) == []
      {
        if !(Sends(a) && a.id == id) {
          BehindShare(s, a, id);
        } else {
          AheadSame(s, s');
        }
      }
    }
  }

  /** What a step does to the ring's share of a stream. */
  lemma RingShare(s: State, a: Action, id: Sid)
    requires Threads(s) && Enabled(s, a) && Of(s.ring, id) == [] && !(a.Put? && a.id == id)
    ensures Of(Apply(s, a).ring, id) == []
  {
    match a
    case Put(i) =>
      var x := s.streams[i].thread.item;
      OfOne(x, id);
      OfConcat(s.ring, [x], id);
    case _ =>
  }

  lemma FlagCoveredStep(s: State, a: Action)
    requires FlagCovered(s) && Enabled(s, a)
    ensures FlagCovered(Apply(s, a))
  {
    var s' := Apply(s, a);
    if a.Receive? && s.socket[0].Carry? {
      assert s.socket == [s.socket[0]] + s'.socket;
    }
  }

  lemma AnnouncedStep(s: State, a: Action)
    requires Announced(s) && FlagCovered(s) && Threads(s) && Enabled(s, a)
    ensures Announced(Apply(s, a))
  {
    var s' := Apply(s, a);
    forall id | id in s'.streams && !s'.streams[id].thread.Waking? && s'.consumer.Waiting? && Polling !in s'.socket
      ensures Of(s'.ring, id) == []
    {
      if a.Check? {
        assert s'.ring == [];
      } else {
        if a.Receive? { assert s.socket == [s.socket[0]] + s'.socket; }
        assert Polling !in s.socket;
        if a.Put? && a.id == id {
          assert s'.ring == s.ring;
        } else if !a.Wake? {
          RingShare(s, a, id);
        }
      }
    }
  }

  lemma KnownStep(s: State, a: Action)
    requires Known(s) && Threads(s) && Enabled(s, a)
    ensures Known(Apply(s, a))
  {
  }

  /** What a sending step sends, if it sends. */
  function SentBy(s: State, a: Action): Item
    requires Enabled(s, a) && Sends(a)
  {
    if a.Flush? then Data(a.id, a.msg) else if a.EndStream? then Close(a.id) else s.streams[a.id].thread.item
  }

  lemma ThreadsStep(s: State, a: Action)
    requires Threads(s) && Enabled(s, a)
    ensures Threads(Apply(s, a))
  {
  }

  lemma SentStep(s: State, a: Action)
    requires Enabled(s, a)
    ensures var s' := Apply(s, a);
            || s'.sent == s.sent
            || (Sends(a) && s'.sent == s.sent + [SentBy(s, a)] && (SentBy(s, a).Close? ==> s'.streams[a.id].closed))
    ensures forall id | id in Apply(s, a).streams :: id in s.streams
              && (s.streams[id].closed ==> Apply(s, a).streams[id].closed)
  {
  }

  lemma FinishedAppend(sent: seq<Item>, x: Item, id: Sid, before: bool, after: bool)
    requires FinishedOk(Of(sent, id), before) && (before ==> after)
    requires x.id == id ==> !before && (x.Close? ==> after)
    ensures FinishedOk(Of(sent + [x], id), after)
  {
    OfOne(x, id);
    OfConcat(sent, [x], id);
  }

  lemma FinishedStep(s: State, a: Action)
    requires Finished(s) && Threads(s) && Enabled(s, a)
    ensures Finished(Apply(s, a))
  {
    var s' := Apply(s, a);
    SentStep(s, a);
    forall id | id in s'.streams ensures FinishedOk(Of(s'.sent, id), s'.streams[id].closed) {
      if s'.sent != s.sent {
        FinishedAppend(s.sent, SentBy(s, a), id, s.streams[id].closed, s'.streams[id].closed);
      }
    }
  }

  lemma StepInv(s: State, a: Action)
    requires Inv(s) && Enabled(s, a) && Sound(s, a)
    ensures Inv(Apply(s, a))
  {
    OrderedStep(s, a);
    RingFirstStep(s, a);
    AnnouncedStep(s, a);
    FlagCoveredStep(s, a);
    KnownStep(s, a);
    FinishedStep(s, a);
    ThreadsStep(s, a);
  }

  // ---------------------------------------------------------------------------------------------
  // Whole runs
  // ---------------------------------------------------------------------------------------------

  predicate Runs(s: State, acts: seq<Action>)
    decreases acts
  {
    acts == [] || (Enabled(s, acts[0]) && Runs(Apply(s, acts[0]), acts[1..]))
  }

  predicate AlwaysSound(s: State, acts: seq<Action>)
    requires Runs(s, acts)
    decreases acts
  {
    acts == [] || (Sound(s, acts[0]) && AlwaysSound(Apply(s, acts[0]), acts[1..]))
  }

  function Exec(s: State, acts: seq<Action>): State
    requires Runs(s, acts)
    decreases acts
  {
    if acts == [] then s else Exec(Apply(s, acts[0]), acts[1..])
  }

  lemma {:induction false} RunInv(s: State, acts: seq<Action>)
    requires Inv(s) && Runs(s, acts) && AlwaysSound(s, acts)
    ensures Inv(Exec(s, acts))
    decreases acts
  {
    if acts != [] {
      StepInv(s, acts[0]);
      RunInv(Apply(s, acts[0]), acts[1..]);
    }
  }

  lemma InitInv(s: State)
    requires Init(s)
    ensures Inv(s)
  {
    assert forall i: Sid :: Split(s, i);
  }

  // ---------------------------------------------------------------------------------------------
  // What was asked for
  // ---------------------------------------------------------------------------------------------

  /** What the calls on a stream ask to be sent, from the list of actions alone: every flush and the
      close, in order, without the messages that were given up. */
  function Asked(acts: seq<Action>, id: Sid): seq<Item> {
    if acts == [] then []
    else Asking(Asked(acts[..|acts| - 1], id), acts[|acts| - 1], id)
  }

  function Asking(so: seq<Item>, a: Action, id: Sid): seq<Item> {
    match a
    case Flush(i, m, _) => if i == id then so + [Data(id, m)] else so
    case EndStream(i) => if i == id then so + [Close(id)] else so
    case GiveUp(i) => if i == id && so != [] then so[..|so| - 1] else so
    case _ => so
  }

  /** What the stream's thread is about to put. */
  function InHand(s: State, id: Sid): seq<Item> {
    if id in s.streams && s.streams[id].thread.Putting? then [s.streams[id].thread.item] else []
  }

  /** A step hands over exactly what it is asked to, or holds it in hand. */
  lemma AskedStep(s: State, a: Action, id: Sid, so: seq<Item>)
    requires Threads(s) && Enabled(s, a) && so == Of(s.sent, id) + InHand(s, id)
    ensures var s' := Apply(s, a); Asking(so, a, id) == Of(s'.sent, id) + InHand(s', id)
  {
    hide Of;
    match a
    case Flush(i, m, _) =>
      OfOne(Data(i, m), id);
      OfConcat(s.sent, [Data(i, m)], id);
    case EndStream(i) =>
      OfOne(Close(i), id);
      OfConcat(s.sent, [Close(i)], id);
    case Put(i) =>
      var x := s.streams[i].thread.item;
      OfOne(x, id);
      OfConcat(s.sent, [x], id);
    case _ =>
  }

  lemma {:induction false} ExecSnoc(s: State, acts: seq<Action>)
    requires Runs(s, acts) && acts != []
    ensures var front, a := acts[..|acts| - 1], acts[|acts| - 1];
            Runs(s, front) && Enabled(Exec(s, front), a) && Exec(s, acts) == Apply(Exec(s, front), a)
    decreases acts
  {
    hide Enabled;
    hide Apply;
    if |acts| > 1 {
      ExecSnoc(Apply(s, acts[0]), acts[1..]);
      assert acts[..|acts| - 1][1..] == acts[1..][..|acts| - 2];
    }
  }

  lemma {:induction false} ThreadsRun(s: State, acts: seq<Action>)
    requires Threads(s) && Runs(s, acts)
    ensures Threads(Exec(s, acts))
    decreases acts
  {
    hide Threads;
    hide Enabled;
    hide Apply;
    if acts != [] {
      ThreadsStep(s, acts[0]);
      ThreadsRun(Apply(s, acts[0]), acts[1..]);
    }
  }

  /** In every run, from whatever the streams are at: what was sent is what was asked for, but for the
      message that is still in hand. */
  lemma {:induction false} SentIsAsked(s: State, acts: seq<Action>, id: Sid)
    requires Init(s) && Runs(s, acts)
    ensures Asked(acts, id) == Of(Exec(s, acts).sent, id) + InHand(Exec(s, acts), id)
    decreases |acts|
  {
    if acts != [] {
      hide Of;
      var front, a := acts[..|acts| - 1], acts[|acts| - 1];
      ExecSnoc(s, acts);
      SentIsAsked(s, front, id);
      ThreadsRun(s, front);
      hide Enabled;
      hide Apply;
      hide Threads;
      hide Asking;
      hide InHand;
      AskedStep(Exec(s, front), a, id, Asked(front, id));
    }
  }

  /** In every run, what a stream's peer has seen is a prefix of what the stream was asked to send, a
      close that has arrived has everything before it arrived too, and when both channels are empty and
      no put is under way nothing is missing: neither channel overtakes the other. */
  lemma InOrderAcrossChannels(s: State, acts: seq<Action>, id: Sid)
    requires Init(s) && Runs(s, acts) && AlwaysSound(s, acts)
    ensures var e, asked := Exec(s, acts), Asked(acts, id);
            && Of(e.arrived, id) <= asked
            && (id in e.streams && Close(id) in Of(e.arrived, id) ==> Of(e.arrived, id) == asked)
            && (e.ring == [] && e.socket == [] && InHand(e, id) == [] ==> Of(e.arrived, id) == asked)
  {
    SentIsAsked(s, acts, id);
    SentInOrder(s, acts, id);
    var e := Exec(s, acts);
    if id in e.streams && Close(id) in Of(e.arrived, id) { CloseIsLast(s, acts, id); }
  }

  /** After its close has been sent a stream has nothing in hand. */
  lemma CloseIsLast(s: State, acts: seq<Action>, id: Sid)
    requires Init(s) && Runs(s, acts) && AlwaysSound(s, acts)
    requires id in Exec(s, acts).streams && Close(id) in Of(Exec(s, acts).sent, id)
    ensures InHand(Exec(s, acts), id) == []
  {
    InitInv(s);
    RunInv(s, acts);
    var mine := Of(Exec(s, acts).sent, id);
    var k :| 0 <= k < |mine| && mine[k] == Close(id);
    assert k == |mine| - 1;
  }

  /** The same against the record of what was sent. */
  lemma SentInOrder(s: State, acts: seq<Action>, id: Sid)
    requires Init(s) && Runs(s, acts) && AlwaysSound(s, acts)
    ensures var e := Exec(s, acts);
            && Of(e.arrived, id) <= Of(e.sent, id)
            && (id in e.streams && Close(id) in Of(e.arrived, id) ==> Of(e.arrived, id) == Of(e.sent, id))
            && (e.ring == [] && e.socket == [] ==> Of(e.arrived, id) == Of(e.sent, id))
  {
    hide Inv;
    hide Of;
    InitInv(s);
    RunInv(s, acts);
    OrderIn(Exec(s, acts), id);
  }

  lemma OrderIn(e: State, id: Sid)
    requires Inv(e)
    ensures Of(e.arrived, id) <= Of(e.sent, id)
    ensures id in e.streams && Close(id) in Of(e.arrived, id) ==> Of(e.arrived, id) == Of(e.sent, id)
    ensures e.ring == [] && e.socket == [] ==> Of(e.arrived, id) == Of(e.sent, id)
  {
    assert Split(e, id);
    Regroup(Of(e.arrived, id), Of(Ahead(e), id), Of(e.ring, id), Of(Behind(e), id));
    OfNone(id);
    hide Of;
    if id in e.streams && Close(id) in Of(e.arrived, id) {
      var k :| 0 <= k < |Of(e.arrived, id)| && Of(e.arrived, id)[k] == Close(id);
      assert Of(e.sent, id)[k] == Close(id);
      assert FinishedOk(Of(e.sent, id), e.streams[id].closed);
      assert k == |Of(e.sent, id)| - 1;
    }
  }

  // ---------------------------------------------------------------------------------------------
  // Which channel
  // ---------------------------------------------------------------------------------------------

  /** Whether a stream has fallen back, from the list of actions alone: the last flush that needed the
      heap, lost flush or fallback of the peer came after the last reset. */
  predicate FellBack(acts: seq<Action>, id: Sid) {
    acts != [] &&
    match acts[|acts| - 1]
    case Flush(i, _, inShm) => (i == id && !inShm) || FellBack(acts[..|acts| - 1], id)
    case FlushLost(i) => i == id || FellBack(acts[..|acts| - 1], id)
    case PeerFellBack(i) => i == id || FellBack(acts[..|acts| - 1], id)
    case Reset(i) => i != id && FellBack(acts[..|acts| - 1], id)
    case _ => FellBack(acts[..|acts| - 1], id)
  }

  lemma {:induction false} FallbackIff(s: State, acts: seq<Action>, id: Sid)
    requires Init(s) && Runs(s, acts)
    ensures Exec(s, acts).streams.Keys == s.streams.Keys
    ensures id in s.streams ==> (Exec(s, acts).streams[id].fallback <==> FellBack(acts, id))
    decreases |acts|
  {
    if acts != [] {
      ExecSnoc(s, acts);
      FallbackIff(s, acts[..|acts| - 1], id);
      var e := Exec(s, acts[..|acts| - 1]);
      KeysStep(e, acts[|acts| - 1]);
    }
  }

  lemma KeysStep(s: State, a: Action)
    requires Enabled(s, a)
    ensures Apply(s, a).streams.Keys == s.streams.Keys
  {
  }

  /** In every run a flush goes for the ring if and only if it is in shared memory and its stream has not
      fallen back, and what goes for the ring is in it as soon as there is room; only a close gives up at
      once and takes the socket. */
  lemma ChannelIff(s: State, acts: seq<Action>, a: Action)
    requires Init(s) && Runs(s, acts) && Enabled(Exec(s, acts), a)
    ensures var e := Exec(s, acts);
            var r := Apply(e, a);
            && (a.Flush? && a.inShm && !FellBack(acts, a.id) ==>
                  r.ring == e.ring && r.socket == e.socket && InHand(r, a.id) == [Data(a.id, a.msg)])
            && (a.Flush? && !(a.inShm && !FellBack(acts, a.id)) ==>
                  r.ring == e.ring && r.socket == e.socket + [Carry(Data(a.id, a.msg))])
            && (a.EndStream? && !FellBack(acts, a.id) ==>
                  r.ring == e.ring && r.socket == e.socket && InHand(r, a.id) == [Close(a.id)])
            && (a.Put? && |e.ring| < e.cap ==> r.ring == e.ring + InHand(e, a.id) && r.socket == e.socket)
            && (a.Put? && |e.ring| >= e.cap && InHand(e, a.id)[0].Data? ==> r == e)
  {
    if a.Flush? || a.EndStream? { FallbackIff(s, acts, a.id); }
  }

  /** Whether the flag was raised after it was last lowered. */
  predicate Up(acts: seq<Action>) {
    acts != [] &&
    match acts[|acts| - 1]
    case Wake(_) => true
    case Raise => true
    case Lower => false
    case _ => Up(acts[..|acts| - 1])
  }

  lemma {:induction false} FlagIff(s: State, acts: seq<Action>)
    requires Init(s) && Runs(s, acts)
    ensures Exec(s, acts).flag <==> Up(acts)
    decreases |acts|
  {
    if acts != [] {
      ExecSnoc(s, acts);
      FlagIff(s, acts[..|acts| - 1]);
    }
  }

  // ---------------------------------------------------------------------------------------------
  // Everything arrives
  // ---------------------------------------------------------------------------------------------

  /** A step that asks for nothing new and is not an attempt on a full ring. */
  predicate Settling(s: State, a: Action) {
    && Enabled(s, a)
    && (a.Put? || a.GiveUp? || a.Wake? || a.Receive? || a.Pop? || a.Lower? || a.Check? || a.Raise?)
    && (a.Put? ==> |s.ring| < s.cap || s.streams[a.id].thread.item.Close?)
  }

  predicate Settles(s: State, acts: seq<Action>)
    decreases acts
  {
    acts == [] || (Settling(s, acts[0]) && Settles(Apply(s, acts[0]), acts[1..]))
  }

  function Puts(streams: map<Sid, Stream>): set<Sid> {
    set id | id in streams && streams[id].thread.Putting?
  }

  function Wakes(streams: map<Sid, Stream>): set<Sid> {
    set id | id in streams && streams[id].thread.Waking?
  }

  function Frames(frames: seq<Frame>): nat {
    if frames == [] then 0 else (if frames[0].Polling? then 5 else 1) + Frames(frames[1..])
  }

  function Rank(c: Consumer, empty: bool): nat {
    match c
    case Waiting => 0
    case Draining => 4
    case Lowering => if empty then 3 else 7
    case Checking => if empty then 2 else 6
    case Raising => 5
  }

  function Work(s: State): nat {
    |s.ring| + Frames(s.socket) + 12 * |Puts(s.streams)| + 6 * |Wakes(s.streams)| + Rank(s.consumer, s.ring == [])
  }

  lemma {:induction false} FramesAppend(frames: seq<Frame>, f: Frame)
    ensures Frames(frames + [f]) == Frames(frames) + if f.Polling? then 5 else 1
  {
    var more := frames + [f];
    if frames == [] {
      assert more[1..] == [];
    } else {
      assert more[1..] == frames[1..] + [f];
      FramesAppend(frames[1..], f);
    }
  }

  lemma PutsUpdate(streams: map<Sid, Stream>, id: Sid, st: Stream)
    requires id in streams
    ensures |Puts(streams[id := st])| == |Puts(streams)|
            - (if streams[id].thread.Putting? then 1 else 0) + (if st.thread.Putting? then 1 else 0)
  {
    var rest := Puts(streams) - {id};
    assert Puts(streams) == if streams[id].thread.Putting? then rest + {id} else rest;
    assert Puts(streams[id := st]) == if st.thread.Putting? then rest + {id} else rest;
  }

  lemma WakesUpdate(streams: map<Sid, Stream>, id: Sid, st: Stream)
    requires id in streams
    ensures |Wakes(streams[id := st])| == |Wakes(streams)|
            - (if streams[id].thread.Waking? then 1 else 0) + (if st.thread.Waking? then 1 else 0)
  {
    var rest := Wakes(streams) - {id};
    assert Wakes(streams) == if streams[id].thread.Waking? then rest + {id} else rest;
    assert Wakes(streams[id := st]) == if st.thread.Waking? then rest + {id} else rest;
  }

  lemma WorkStep(s: State, a: Action)
    requires Settling(s, a)
    ensures Work(Apply(s, a)) < Work(s)
  {
    hide Puts;
    hide Wakes;
    if a.Put? || a.GiveUp? || a.Wake? {
      PutsUpdate(s.streams, a.id, Apply(s, a).streams[a.id]);
      WakesUpdate(s.streams, a.id, Apply(s, a).streams[a.id]);
    }
    match a
    case Put(id) =>
      FramesAppend(s.socket, Carry(s.streams[id].thread.item));
    case Wake(id) => FramesAppend(s.socket, Polling);
    case _ =>
  }

  ghost predicate Settled(s: State) {
    forall a: Action :: !Settling(s, a)
  }

  /** Where nothing is left to do, nothing is on its way. */
  lemma SettledIsEmpty(s: State)
    requires Inv(s) && Settled(s)
    ensures s.ring == [] && s.socket == [] && forall id: Sid :: InHand(s, id) == []
  {
    assert !Settling(s, Receive) && !Settling(s, Pop) && !Settling(s, Lower) && !Settling(s, Check) && !Settling(s, Raise);
    forall id | id in s.streams ensures s.streams[id].thread.Free? {
      assert !Settling(s, Wake(id)) && !Settling(s, GiveUp(id)) && !Settling(s, Put(id));
    }
    if s.ring != [] {
      OfHead(s.ring);
      assert false;
    }
  }

  lemma OfHead(items: seq<Item>)
    requires items != []
    ensures items[0] in items && Of(items, items[0].id) != []
  {
  }

  lemma {:induction false} SettlesRuns(s: State, acts: seq<Action>)
    requires Settles(s, acts)
    ensures Runs(s, acts) && AlwaysSound(s, acts)
    decreases acts
  {
    if acts != [] { SettlesRuns(Apply(s, acts[0]), acts[1..]); }
  }

  lemma {:induction false} SettlesEnd(s: State, acts: seq<Action>)
    requires Settles(s, acts) && Runs(s, acts)
    ensures |acts| + Work(Exec(s, acts)) <= Work(s)
    decreases acts
  {
    hide Work;
    hide Settling;
    if acts != [] {
      WorkStep(s, acts[0]);
      SettlesEnd(Apply(s, acts[0]), acts[1..]);
    }
  }

  /** From any state of any sound run: once nothing new is asked for, every way to go on is bounded, and
      where it can go no further everything a stream sent has arrived, in order. */
  lemma EverythingArrives(s: State, acts: seq<Action>)
    requires Inv(s) && Settles(s, acts)
    ensures Runs(s, acts) && |acts| <= Work(s)
    ensures var e := Exec(s, acts);
            Settled(e) ==> e.ring == [] && e.socket == [] && forall id: Sid :: Of(e.arrived, id) == Of(e.sent, id)
  {
    SettlesRuns(s, acts);
    SettlesEnd(s, acts);
    RunInv(s, acts);
    var e := Exec(s, acts);
    if Settled(e) {
      SettledIsEmpty(e);
      forall id: Sid ensures Of(e.arrived, id) == Of(e.sent, id) {
        assert Split(e, id);
        NearFar([]);
        OfNone(id);
      }
    }
  }

  // ---------------------------------------------------------------------------------------------
  // When `reset` keeps the order
  // ---------------------------------------------------------------------------------------------

  /** No peer has seen anything but a prefix of what its stream sent. */
  ghost predicate InOrder(s: State) {
    forall id: Sid :: Of(s.arrived, id) <= Of(s.sent, id)
  }

  /** Whatever comes next, as long as further resets are sound. */
  ghost predicate StaysInOrder(s: State) {
    forall acts: seq<Action> | Runs(s, acts) && AlwaysSound(s, acts) :: InOrder(Exec(s, acts))
  }

  lemma InvStays(s: State)
    requires Inv(s)
    ensures StaysInOrder(s)
  {
    forall acts: seq<Action> | Runs(s, acts) && AlwaysSound(s, acts) ensures InOrder(Exec(s, acts)) {
      RunInv(s, acts);
      InvInOrder(Exec(s, acts));
    }
  }

  lemma InvInOrder(s: State)
    requires Inv(s)
    ensures InOrder(s)
  {
    forall id: Sid ensures Of(s.arrived, id) <= Of(s.sent, id) {
      assert Split(s, id);
      Regroup(Of(s.arrived, id), Of(Ahead(s), id), Of(s.ring, id), Of(Behind(s), id));
    }
  }

  lemma StaysBack(s: State, a: Action)
    requires Enabled(s, a) && Sound(s, a) && StaysInOrder(s)
    ensures StaysInOrder(Apply(s, a))
  {
    hide Enabled;
    hide Apply;
    hide Sound;
    hide InOrder;
    var r := Apply(s, a);
    forall acts: seq<Action> | Runs(r, acts) && AlwaysSound(r, acts) ensures InOrder(Exec(r, acts)) {
      var more := [a] + acts;
      assert more[1..] == acts;
      assert Runs(s, more) && AlwaysSound(s, more) && Exec(s, more) == Exec(r, acts);
    }
  }

  /** A stream that may use the ring while frames of its own are behind it. */
  predicate Overtaking(s: State, id: Sid) {
    && Ready(s, id) && !s.streams[id].fallback && s.cap > 0
    && Split(s, id) && Of(Behind(s), id) != []
  }

  /** The message that gets ahead: not the one it overtakes. */
  function Rival(s: State, id: Sid): Item
    requires Of(Behind(s), id) != []
  {
    var x := Of(Behind(s), id)[0];
    Data(id, if x.Data? then x.msg + 1 else 0)
  }

  /** It has arrived ahead of the frames behind the ring. */
  lemma Overtook(s: State, e: State, id: Sid, y: Item)
    requires Split(s, id) && Of(Behind(s), id) != [] && Of(s.ring, id) == [] && Of(Ahead(s), id) == []
    requires y.id == id && y != Of(Behind(s), id)[0]
    requires e.arrived == s.arrived + [y] && e.sent == s.sent + [y]
    ensures !InOrder(e)
  {
    hide Of;
    hide Behind;
    hide Ahead;
    OfOne(y, id);
    OfConcat(s.arrived, [y], id);
    OfConcat(s.sent, [y], id);
    var n := |Of(s.arrived, id)|;
    assert Of(e.arrived, id)[n] == y;
    assert Of(e.sent, id)[n] == Of(Behind(s), id)[0];
    assert !(Of(e.arrived, id) <= Of(e.sent, id));
  }

  /** With the ring drained, one more flush and one more pop. */
  lemma OvertakesDraining(s: State, id: Sid)
    requires Overtaking(s, id) && s.consumer.Draining? && s.ring == []
    ensures !StaysInOrder(s)
  {
    var y := Rival(s, id);
    var s1 := Apply(s, Flush(id, y.msg, true));
    var s2 := Apply(s1, Put(id));
    var s3 := Apply(s2, Pop);
    OfNone(id);
    Overtook(s, s3, id, y);
    NotNow(s3);
    if StaysInOrder(s) {
      StaysBack(s, Flush(id, y.msg, true));
      StaysBack(s1, Put(id));
      StaysBack(s2, Pop);
    }
  }

  lemma NotNow(s: State)
    requires !InOrder(s)
    ensures !StaysInOrder(s)
  {
    assert Runs(s, []) && AlwaysSound(s, []) && Exec(s, []) == s;
  }

  /** The consumer is about to look at the ring again: a flush in time makes it drain. */
  lemma OvertakesChecking(s: State, id: Sid)
    requires Overtaking(s, id) && s.consumer.Checking? && s.ring == []
    ensures !StaysInOrder(s)
  {
    var y := Rival(s, id);
    var s0 := Apply(s, Flush(id, y.msg, true));
    var s1 := Apply(s0, Put(id));
    var s2 := Apply(s1, Check);
    var s3 := Apply(s2, Raise);
    var s4 := Apply(s3, Pop);
    OfNone(id);
    Overtook(s, s4, id, y);
    NotNow(s4);
    if StaysInOrder(s) {
      StaysBack(s, Flush(id, y.msg, true));
      StaysBack(s0, Put(id));
      StaysBack(s1, Check);
      StaysBack(s2, Raise);
      StaysBack(s3, Pop);
    }
  }

  /** How far the consumer is from a drained ring. */
  function Distance(s: State): nat {
    |s.socket| + |s.ring| + match s.consumer
      case Waiting => 5
      case Draining => 0
      case Raising => 1
      case Checking => 2
      case Lowering => 3
  }

  /** The consumer's next step towards a drained ring keeps the frames behind it. */
  lemma OvertakingStep(s: State, id: Sid, a: Action)
    requires Overtaking(s, id) && Enabled(s, a)
    requires a == Receive || a == Lower || a == Raise || (a == Pop && s.ring != []) || (a == Check && s.ring != [])
    ensures Overtaking(Apply(s, a), id) && Distance(Apply(s, a)) < Distance(s)
  {
    match a
    case Receive =>
      ReceiveSplit(s, id);
      ReceiveShares(s);
    case Pop => PopSplit(s, id);
    case Check => CheckSplit(s, id);
    case _ =>
  }

  /** From any such state a continuation breaks the order. */
  lemma {:induction false} Overtakes(s: State, id: Sid)
    requires Overtaking(s, id)
    ensures !StaysInOrder(s)
    decreases Distance(s)
  {
    if s.consumer.Draining? && s.ring == [] {
      OvertakesDraining(s, id);
    } else if s.consumer.Checking? && s.ring == [] {
      OvertakesChecking(s, id);
    } else {
      if s.consumer.Waiting? && s.socket == [] { OfNone(id); }
      var a := match s.consumer
        case Waiting => Receive
        case Draining => Pop
        case Raising => Raise
        case Checking => Check
        case Lowering => Lower;
      OvertakingStep(s, id, a);
      Overtakes(Apply(s, a), id);
      if StaysInOrder(s) { StaysBack(s, a); }
    }
  }

  /** After a `reset` every continuation keeps the order if and only if the reset was sound: no frame
      of the stream is in the socket, or the consumer waits and reaches them all before it drains the
      ring again (or there is no ring to speak of). */
  lemma ResetIff(s: State, id: Sid)
    requires Inv(s) && Enabled(s, Reset(id))
    ensures StaysInOrder(Apply(s, Reset(id))) <==> s.cap == 0 || Of(Behind(s), id) == []
  {
    var r := Apply(s, Reset(id));
    AheadSame(s, r);
    if Sound(s, Reset(id)) {
      StepInv(s, Reset(id));
      InvStays(r);
    } else {
      assert Split(s, id);
      Overtakes(r, id);
    }
  }

  /** The guard of `put_or_close_stream`: a stream that has not fallen back may be reset. */
  lemma ResetGuard(s: State, id: Sid)
    requires Inv(s) && Enabled(s, Reset(id)) && !s.streams[id].fallback
    ensures Sound(s, Reset(id)) && StaysInOrder(Apply(s, Reset(id)))
  {
    ResetIff(s, id);
  }

  /** Without that condition the order breaks: stream 1 falls back while stream 2 has woken the
      consumer, resets, and its next message is drained from the ring ahead of the socket frame. */
  function ResetStart(): State {
    State(8, [], false, [], map[1 := Stream(false, false, Free), 2 := Stream(false, false, Free)],
          Waiting, [], [])
  }

  function ResetMiddle(): State {
    State(8, [Data(2, 20)], true, [Polling, Carry(Data(1, 10))],
          map[1 := Stream(false, false, Free), 2 := Stream(false, false, Free)],
          Waiting, [Data(2, 20), Data(1, 10)], [])
  }

  const RESET_ACTIONS := [Flush(2, 20, true), Put(2), Wake(2), Flush(1, 10, false), Reset(1)]
  const AFTER_RESET := [Flush(1, 11, true), Put(1), Receive, Pop, Pop]

  lemma RunOne(s: State, a: Action, rest: seq<Action>)
    requires Enabled(s, a) && Runs(Apply(s, a), rest)
    ensures Runs(s, [a] + rest) && Exec(s, [a] + rest) == Exec(Apply(s, a), rest)
  {
    assert ([a] + rest)[1..] == rest;
  }

  lemma RunFive(s: State, a: Action, b: Action, c: Action, d: Action, e: Action)
    requires Enabled(s, a) && Enabled(Apply(s, a), b) && Enabled(Apply(Apply(s, a), b), c)
    requires Enabled(Apply(Apply(Apply(s, a), b), c), d)
    requires Enabled(Apply(Apply(Apply(Apply(s, a), b), c), d), e)
    ensures Runs(s, [a, b, c, d, e])
    ensures Exec(s, [a, b, c, d, e]) == Apply(Apply(Apply(Apply(Apply(s, a), b), c), d), e)
  {
    hide Enabled;
    hide Apply;
    var s1, s2 := Apply(s, a), Apply(Apply(s, a), b);
    var s3, s4 := Apply(s2, c), Apply(Apply(s2, c), d);
    RunOne(s4, e, []);
    RunOne(s3, d, [e]);
    RunOne(s2, c, [d, e]);
    RunOne(s1, b, [c, d, e]);
    RunOne(s, a, [b, c, d, e]);
    assert [e] == [e] + [] && [d, e] == [d] + [e] && [c, d, e] == [c] + [d, e];
    assert [b, c, d, e] == [b] + [c, d, e] && [a, b, c, d, e] == [a] + [b, c, d, e];
  }

  lemma ResetFirstHalf()
    ensures Init(ResetStart()) && Runs(ResetStart(), RESET_ACTIONS)
            && Exec(ResetStart(), RESET_ACTIONS) == ResetMiddle()
  {
    hide Runs;
    hide Exec;
    var s := ResetStart();
    var s1 := Apply(s, Flush(2, 20, true));
    var s2 := Apply(s1, Put(2));
    var s3 := Apply(s2, Wake(2));
    assert s3.streams == s.streams;
    var s4 := Apply(s3, Flush(1, 10, false));
    var s5 := Apply(s4, Reset(1));
    assert s5.streams == s.streams;
    RunFive(s, Flush(2, 20, true), Put(2), Wake(2), Flush(1, 10, false), Reset(1));
  }

  lemma ResetSecondHalf()
    ensures Runs(ResetMiddle(), AFTER_RESET)
    ensures Exec(ResetMiddle(), AFTER_RESET).sent == [Data(2, 20), Data(1, 10), Data(1, 11)]
    ensures Exec(ResetMiddle(), AFTER_RESET).arrived == [Data(2, 20), Data(1, 11)]
  {
    hide Runs;
    hide Exec;
    var s := ResetMiddle();
    RunFive(s, Flush(1, 11, true), Put(1), Receive, Pop, Pop);
  }

  lemma ResetOvertakes()
    ensures Init(ResetStart()) && Runs(ResetStart(), RESET_ACTIONS)
    ensures var m := Exec(ResetStart(), RESET_ACTIONS);
            Runs(m, AFTER_RESET)
            && Of(Exec(m, AFTER_RESET).sent, 1) == [Data(1, 10), Data(1, 11)]
            && Of(Exec(m, AFTER_RESET).arrived, 1) == [Data(1, 11)]
  {
    ResetFirstHalf();
    ResetSecondHalf();
    assert [Data(2, 20), Data(1, 10), Data(1, 11)][1..] == [Data(1, 10), Data(1, 11)];
    assert [Data(1, 10), Data(1, 11)][1..] == [Data(1, 11)];
    assert [Data(2, 20), Data(1, 11)][1..] == [Data(1, 11)];
    OfOne(Data(1, 11), 1);
  }
}
