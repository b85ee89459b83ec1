/** The endpoints seen as the byte queues of `SessionModel`: chains become the bytes they carry, and the
    two buffers of a stream become their texts.  Every operation on the values of `SessionState` is the
    operation of the model. */
module SessionView {
  import opened Basics
  import opened Bytes
  import opened EndToEnd
  import opened QueueRefinement
  import opened Conservation
  import opened SessionParts
  import opened SessionState
  import M = SessionModel

  function ParcelOf(w: Wrapper, letters: map<nat, Letter>): M.Parcel {
    M.Parcel(PayloadOne(w, letters), w.Heap?)
  }

  function ParcelsOf(pending: seq<Wrapper>, letters: map<nat, Letter>): (r: seq<M.Parcel>)
    ensures |r| == |pending|
  {
    seq(|pending|, i requires 0 <= i < |pending| => ParcelOf(pending[i], letters))
  }

  function PeerOf(s: Stream, out: seq<Byte>, ready: seq<Byte>, letters: map<nat, Letter>): M.Peer {
    M.Peer(s.client, s.id, s.status, s.fallback, s.retry, out, ParcelsOf(s.pending, letters), ready)
  }

  /** Stream `i` has texts 2 i, to send, and 2 i + 1, to read. */
  function PeersOf(streams: seq<Stream>, texts: seq<seq<Byte>>, letters: map<nat, Letter>): (r: seq<M.Peer>)
    requires |texts| == 2 * |streams|
    ensures |r| == |streams|
  {
    seq(|streams|, i requires 0 <= i < |streams| => PeerOf(streams[i], texts[2 * i], texts[2 * i + 1], letters))
  }

  function MailOf(e: Elem, letters: map<nat, Letter>): M.Mail {
    match e
    case Message(id, root) => M.Letter(id, PayloadOne(Shm(root), letters))
    case Goodbye(id) => M.Farewell(id)
  }

  function RingOf(ring: seq<Elem>, letters: map<nat, Letter>): (r: seq<M.Mail>)
    ensures |r| == |ring|
  {
    seq(|ring|, i requires 0 <= i < |ring| => MailOf(ring[i], letters))
  }

  function RingsOf(rings: Duo<seq<Elem>>, letters: map<nat, Letter>): Duo<seq<M.Mail>> {
    Duo(RingOf(rings.client, letters), RingOf(rings.server, letters))
  }

  /** What two endpoints hold, apart from the memory it lies in. */
  datatype Desk = Desk(cap: nat, streams: seq<Stream>, table: map<(bool, nat), nat>, rings: Duo<seq<Elem>>,
                       wires: Duo<seq<Frame>>, texts: seq<seq<Byte>>) {
    predicate Ok() { |texts| == 2 * |streams| && Tabled(table, streams) }
  }

  function WorldOf(d: Desk, letters: map<nat, Letter>): (w: M.World)
    requires d.Ok()
    ensures |w.streams| == |d.streams|
  {
    M.World(d.cap, PeersOf(d.streams, d.texts, letters), d.table, RingsOf(d.rings, letters), d.wires)
  }

  // ---------------------------------------------------------------------------------------------
  // Messages that are in flight
  // ---------------------------------------------------------------------------------------------

  /** Every chain that waits is among the letters. */
  predicate Rooted(rings: Duo<seq<Elem>>, streams: seq<Stream>, letters: map<nat, Letter>) {
    && (forall i | 0 <= i < |rings.client| :: RootIn(rings.client[i], letters))
    && (forall i | 0 <= i < |rings.server| :: RootIn(rings.server[i], letters))
    && (forall i | 0 <= i < |streams| :: AllIn(streams[i].pending, letters))
  }

  predicate RootIn(e: Elem, letters: map<nat, Letter>) { e.Message? ==> e.root in letters }

  predicate AllIn(pending: seq<Wrapper>, letters: map<nat, Letter>) {
    forall i | 0 <= i < |pending| :: pending[i].Shm? ==> pending[i].root in letters
  }

  lemma {:induction false} RingHolds(ring: seq<Elem>, i: nat)
    requires i < |ring| && ring[i].Message?
    ensures RingRoots(ring)[ring[i].root] > 0
  {
    if i > 0 {
      RingHolds(ring[1..], i - 1);
    }
  }

  lemma {:induction false} WaitHolds(pending: seq<Wrapper>, i: nat)
    requires i < |pending| && pending[i].Shm?
    ensures WaitRoots(pending)[pending[i].root] > 0
  {
    if i > 0 {
      WaitHolds(pending[1..], i - 1);
    }
  }

  lemma {:induction false} PendingHolds(streams: seq<Stream>, i: nat, r: nat)
    requires i < |streams| && WaitRoots(streams[i].pending)[r] > 0
    ensures PendingRoots(streams)[r] > 0
  {
    if i > 0 {
      PendingHolds(streams[1..], i - 1, r);
    }
  }

  lemma RootedIn(rings: Duo<seq<Elem>>, streams: seq<Stream>, letters: map<nat, Letter>)
    requires Waiting(rings, streams) == multiset(letters.Keys)
    ensures Rooted(rings, streams, letters)
  {
    hide RingRoots;
    hide PendingRoots;
    hide WaitRoots;
    forall r | Waiting(rings, streams)[r] > 0 ensures r in letters {
      assert multiset(letters.Keys)[r] > 0;
    }
    forall i | 0 <= i < |rings.client| && rings.client[i].Message? ensures rings.client[i].root in letters {
      RingHolds(rings.client, i);
    }
    forall i | 0 <= i < |rings.server| && rings.server[i].Message? ensures rings.server[i].root in letters {
      RingHolds(rings.server, i);
    }
    forall i | 0 <= i < |streams| ensures AllIn(streams[i].pending, letters) {
      forall k | 0 <= k < |streams[i].pending| && streams[i].pending[k].Shm?
        ensures streams[i].pending[k].root in letters
      {
        WaitHolds(streams[i].pending, k);
        PendingHolds(streams, i, streams[i].pending[k].root);
      }
    }
  }

  /** Letters that nobody waits for can be forgotten. */
  lemma ViewFewer(d: Desk, now: map<nat, Letter>, letters: map<nat, Letter>)
    requires d.Ok() && Fewer(now, letters) && Rooted(d.rings, d.streams, now)
    ensures WorldOf(d, now) == WorldOf(d, letters)
  {
    hide Tabled;
    RingFewer(d.rings.client, now, letters);
    RingFewer(d.rings.server, now, letters);
    PeersFewer(d.streams, d.texts, now, letters);
  }

  lemma RingFewer(ring: seq<Elem>, now: map<nat, Letter>, letters: map<nat, Letter>)
    requires Fewer(now, letters) && forall i | 0 <= i < |ring| :: RootIn(ring[i], now)
    ensures RingOf(ring, now) == RingOf(ring, letters)
  {
    forall i | 0 <= i < |ring| ensures MailOf(ring[i], now) == MailOf(ring[i], letters) {
      assert RootIn(ring[i], now);
    }
  }

  lemma PeersFewer(streams: seq<Stream>, texts: seq<seq<Byte>>, now: map<nat, Letter>, letters: map<nat, Letter>)
    requires |texts| == 2 * |streams| && Fewer(now, letters)
    requires forall i | 0 <= i < |streams| :: AllIn(streams[i].pending, now)
    ensures PeersOf(streams, texts, now) == PeersOf(streams, texts, letters)
  {
    forall i | 0 <= i < |streams| ensures ParcelsOf(streams[i].pending, now) == ParcelsOf(streams[i].pending, letters) {
      var p := streams[i].pending;
      assert AllIn(p, now);
      forall k | 0 <= k < |p| ensures ParcelOf(p[k], now) == ParcelOf(p[k], letters) {
        SamePayload(p[k], now, letters);
      }
    }
  }

  // ---------------------------------------------------------------------------------------------
  // One stream changes, or a new one comes
  // ---------------------------------------------------------------------------------------------

  lemma PeersSet(streams: seq<Stream>, texts: seq<seq<Byte>>, letters: map<nat, Letter>, i: nat, s: Stream,
                 out: seq<Byte>, ready: seq<Byte>)
    requires |texts| == 2 * |streams| && i < |streams|
    ensures PeersOf(streams[i := s], texts[2 * i := out][2 * i + 1 := ready], letters) ==
            PeersOf(streams, texts, letters)[i := PeerOf(s, out, ready, letters)]
  {
    hide PeerOf;
  }

  lemma PeersNew(streams: seq<Stream>, texts: seq<seq<Byte>>, letters: map<nat, Letter>, s: Stream)
    requires |texts| == 2 * |streams|
    ensures PeersOf(streams + [s], texts + [[], []], letters) ==
            PeersOf(streams, texts, letters) + [PeerOf(s, [], [], letters)]
  {
    hide PeerOf;
    var ts := texts + [[], []];
    forall i | 0 <= i < |streams| ensures ts[2 * i] == texts[2 * i] && ts[2 * i + 1] == texts[2 * i + 1] {
    }
  }

  lemma RingsSet(rings: Duo<seq<Elem>>, letters: map<nat, Letter>, side: bool, ring: seq<Elem>)
    ensures RingsOf(rings.Set(side, ring), letters) == RingsOf(rings, letters).Set(side, RingOf(ring, letters))
    ensures RingsOf(rings, letters).At(side) == RingOf(rings.At(side), letters)
  {
  }

  lemma RingAdd(ring: seq<Elem>, letters: map<nat, Letter>, e: Elem)
    ensures RingOf(ring + [e], letters) == RingOf(ring, letters) + [MailOf(e, letters)]
  {
  }

  lemma RingTail(ring: seq<Elem>, letters: map<nat, Letter>)
    requires ring != []
    ensures RingOf(ring, letters)[1..] == RingOf(ring[1..], letters)
    ensures RingOf(ring, letters)[0] == MailOf(ring[0], letters)
  {
  }

  lemma ParcelsAdd(pending: seq<Wrapper>, letters: map<nat, Letter>, w: Wrapper)
    ensures ParcelsOf(pending + [w], letters) == ParcelsOf(pending, letters) + [ParcelOf(w, letters)]
  {
  }

  lemma {:induction false} ContentsOf(pending: seq<Wrapper>, letters: map<nat, Letter>)
    ensures M.Contents(ParcelsOf(pending, letters)) == Payload(pending, letters)
    ensures M.AnyHeap(ParcelsOf(pending, letters)) <==> SomeHeap(pending)
  {
    var ps := ParcelsOf(pending, letters);
    if pending != [] {
      var front := pending[..|pending| - 1];
      ContentsOf(front, letters);
      assert ps[..|ps| - 1] == ParcelsOf(front, letters);
    }
    assert forall i | 0 <= i < |pending| :: ps[i].heap <==> pending[i].Heap?;
  }

  /** Stream `i` and its two texts change. */
  function WithPeer(d: Desk, i: nat, s: Stream, out: seq<Byte>, ready: seq<Byte>): Desk
    requires d.Ok() && i < |d.streams|
  {
    d.(streams := d.streams[i := s], texts := d.texts[2 * i := out][2 * i + 1 := ready])
  }

  lemma ViewPeer(d: Desk, letters: map<nat, Letter>, i: nat, s: Stream, out: seq<Byte>, ready: seq<Byte>)
    requires d.Ok() && i < |d.streams| && s.client == d.streams[i].client && s.id == d.streams[i].id
    ensures WithPeer(d, i, s, out, ready).Ok()
    ensures WorldOf(WithPeer(d, i, s, out, ready), letters) == M.WithStream(WorldOf(d, letters), i, PeerOf(s, out, ready, letters))
  {
    hide PeerOf;
    hide PeersOf;
    PeersSet(d.streams, d.texts, letters, i, s, out, ready);
    TabledSet(d.table, d.streams, i, s);
  }

  lemma ViewAt(d: Desk, letters: map<nat, Letter>, i: nat)
    requires d.Ok() && i < |d.streams|
    ensures WorldOf(d, letters).streams[i] == PeerOf(d.streams[i], d.texts[2 * i], d.texts[2 * i + 1], letters)
  {
    hide PeerOf;
    hide Tabled;
  }

  // ---------------------------------------------------------------------------------------------
  // Arrivals
  // ---------------------------------------------------------------------------------------------

  function ArrivedDesk(d: Desk, side: bool, id: nat, w: Wrapper): Desk
    requires d.Ok()
  {
    var ss := Arrived(d.streams, d.table, side, id, w);
    d.(streams := ss, table := TableAfter(d.table, |d.streams|, side, id),
       texts := d.texts + if |ss| > |d.streams| then [[], []] else [])
  }

  lemma ViewArrived(d: Desk, letters: map<nat, Letter>, side: bool, id: nat, w: Wrapper)
    requires d.Ok()
    ensures ArrivedDesk(d, side, id, w).Ok()
    ensures WorldOf(ArrivedDesk(d, side, id, w), letters) == M.Arrived(WorldOf(d, letters), (side, id), ParcelOf(w, letters))
  {
    hide PeersOf;
    hide ParcelsOf;
    hide ParcelOf;
    hide M.Filled;
    hide Filled;
    if (side, id) in d.table {
      ViewFilled(d, letters, d.table[(side, id)], w);
      assert d.texts + [] == d.texts;
    } else if side {
      assert d.texts + [] == d.texts;
    } else {
      ViewFirst(d, letters, id, w);
    }
  }

  lemma ViewFilled(d: Desk, letters: map<nat, Letter>, i: nat, w: Wrapper)
    requires d.Ok() && i < |d.streams|
    ensures var e := d.(streams := d.streams[i := Filled(d.streams[i], w)]);
            && e.Ok()
            && WorldOf(e, letters) ==
               M.WithStream(WorldOf(d, letters), i, M.Filled(WorldOf(d, letters).streams[i], ParcelOf(w, letters)))
  {
    hide PeersOf;
    hide ParcelsOf;
    hide ParcelOf;
    ParcelsAdd(d.streams[i].pending, letters, w);
    ViewPeer(d, letters, i, Filled(d.streams[i], w), d.texts[2 * i], d.texts[2 * i + 1]);
    ViewAt(d, letters, i);
    assert d.texts[2 * i := d.texts[2 * i]][2 * i + 1 := d.texts[2 * i + 1]] == d.texts;
  }

  lemma ViewFirst(d: Desk, letters: map<nat, Letter>, id: nat, w: Wrapper)
    requires d.Ok()
    ensures var e := d.(streams := d.streams + [Filled(NewStreamOf(false, id), w)],
                        table := d.table[(false, id) := |d.streams|], texts := d.texts + [[], []]);
            && e.Ok()
            && WorldOf(e, letters) == M.NewStream(WorldOf(d, letters), M.Filled(M.Fresh(false, id), ParcelOf(w, letters)))
  {
    hide PeersOf;
    hide ParcelsOf;
    hide ParcelOf;
    var s := Filled(NewStreamOf(false, id), w);
    ParcelsAdd([], letters, w);
    NoParcels(letters);
    assert [] + [w] == [w];
    PeersNew(d.streams, d.texts, letters, s);
    TabledNew(d.table, d.streams, s);
  }

  lemma NoParcels(letters: map<nat, Letter>)
    ensures ParcelsOf([], letters) == []
  {
  }

  lemma ViewParted(d: Desk, letters: map<nat, Letter>, side: bool, id: nat)
    requires d.Ok()
    ensures var e := d.(streams := Parted(d.streams, d.table, side, id));
            e.Ok() && WorldOf(e, letters) == M.Parted(WorldOf(d, letters), (side, id))
  {
    hide PeersOf;
    hide ParcelsOf;
    if (side, id) in d.table {
      var i := d.table[(side, id)];
      ViewPeer(d, letters, i, HalfClosedStream(d.streams[i]), d.texts[2 * i], d.texts[2 * i + 1]);
      ViewAt(d, letters, i);
      assert d.texts[2 * i := d.texts[2 * i]][2 * i + 1 := d.texts[2 * i + 1]] == d.texts;
    }
  }

  function PolledDesk(d: Desk, side: bool): Desk
    requires d.Ok()
  {
    if d.rings.At(side) == [] then d
    else
      var rest := d.(rings := d.rings.Set(side, d.rings.At(side)[1..]));
      match d.rings.At(side)[0]
      case Message(id, root) => ArrivedDesk(rest, side, id, Shm(root))
      case Goodbye(id) => rest.(streams := Parted(d.streams, d.table, side, id))
  }

  lemma ViewPolled(d: Desk, letters: map<nat, Letter>, side: bool)
    requires d.Ok()
    ensures PolledDesk(d, side).Ok()
    ensures WorldOf(PolledDesk(d, side), letters) == M.Polled(WorldOf(d, letters), side)
  {
    hide ArrivedDesk;
    hide Parted;
    hide M.Arrived;
    hide M.Parted;
    hide PeersOf;
    hide RingOf;
    hide Tabled;
    var ring := d.rings.At(side);
    RingsSet(d.rings, letters, side, ring);
    if ring != [] {
      RingsSet(d.rings, letters, side, ring[1..]);
      RingTail(ring, letters);
      var rest := d.(rings := d.rings.Set(side, ring[1..]));
      match ring[0]
      case Message(id, root) => ViewArrived(rest, letters, side, id, Shm(root));
      case Goodbye(id) => ViewParted(rest, letters, side, id);
    }
  }

  function DeliveredDesk(d: Desk, side: bool): Desk
    requires d.Ok()
  {
    if d.wires.At(side) == [] then d
    else
      var rest := d.(wires := d.wires.Set(side, d.wires.At(side)[1..]));
      match d.wires.At(side)[0]
      case Data(id, bytes) => ArrivedDesk(rest, side, id, Heap(bytes))
      case Bye(id) => rest.(streams := Parted(d.streams, d.table, side, id), table := d.table - {(side, id)})
  }

  lemma ViewDelivered(d: Desk, letters: map<nat, Letter>, side: bool)
    requires d.Ok()
    ensures DeliveredDesk(d, side).Ok()
    ensures WorldOf(DeliveredDesk(d, side), letters) == M.Delivered(WorldOf(d, letters), side)
  {
    hide ArrivedDesk;
    hide Parted;
    hide M.Arrived;
    hide M.Parted;
    hide PeersOf;
    hide RingOf;
    var wire := d.wires.At(side);
    if wire != [] {
      var rest := d.(wires := d.wires.Set(side, wire[1..]));
      match wire[0]
      case Data(id, bytes) => ViewArrived(rest, letters, side, id, Heap(bytes));
      case Bye(id) => ViewParted(rest, letters, side, id);
    }
  }

  lemma ViewOpened(d: Desk, letters: map<nat, Letter>, id: nat)
    requires d.Ok()
    ensures var e := d.(streams := d.streams + [NewStreamOf(true, id)], table := d.table[(true, id) := |d.streams|],
                        texts := d.texts + [[], []]);
            e.Ok() && WorldOf(e, letters) == M.NewStream(WorldOf(d, letters), M.Fresh(true, id))
  {
    hide PeersOf;
    var s := NewStreamOf(true, id);
    PeersNew(d.streams, d.texts, letters, s);
    TabledNew(d.table, d.streams, s);
  }

  // ---------------------------------------------------------------------------------------------
  // Calls on a stream
  // ---------------------------------------------------------------------------------------------

  lemma ViewText(d: Desk, letters: map<nat, Letter>, i: nat, out: seq<Byte>, ready: seq<Byte>)
    requires d.Ok() && i < |d.streams|
    ensures var e := d.(texts := d.texts[2 * i := out][2 * i + 1 := ready]);
            var p := WorldOf(d, letters).streams[i];
            e.Ok() && WorldOf(e, letters) == M.WithStream(WorldOf(d, letters), i, p.(out := out, ready := ready))
  {
    hide PeersOf;
    hide ParcelsOf;
    ViewPeer(d, letters, i, d.streams[i], out, ready);
    ViewAt(d, letters, i);
    assert d.streams[i := d.streams[i]] == d.streams;
  }

  lemma ViewPulled(d: Desk, letters: map<nat, Letter>, i: nat)
    requires d.Ok() && i < |d.streams|
    ensures var s := d.streams[i];
            var e := d.(streams := d.streams[i := s.(pending := [], fallback := s.fallback || SomeHeap(s.pending))],
                        texts := d.texts[2 * i + 1 := d.texts[2 * i + 1] + Payload(s.pending, letters)]);
            e.Ok() && WorldOf(e, letters) == M.WithStream(WorldOf(d, letters), i, M.Pulled(WorldOf(d, letters).streams[i]))
  {
    hide PeersOf;
    hide ParcelsOf;
    hide SomeHeap;
    hide Payload;
    hide M.Contents;
    hide M.AnyHeap;
    var s := d.streams[i];
    ContentsOf(s.pending, letters);
    NoParcels(letters);
    ViewAt(d, letters, i);
    ViewPeer(d, letters, i, s.(pending := [], fallback := s.fallback || SomeHeap(s.pending)), d.texts[2 * i],
             d.texts[2 * i + 1] + Payload(s.pending, letters));
    assert d.texts[2 * i := d.texts[2 * i]] == d.texts;
  }

  lemma ViewMailed(d: Desk, letters: map<nat, Letter>, i: nat)
    requires d.Ok() && i < |d.streams|
    ensures var s := d.streams[i];
            var e := d.(streams := d.streams[i := s.(fallback := true)], texts := d.texts[2 * i := []],
                        wires := Mailed(s, d.texts[2 * i], d.wires));
            e.Ok() && WorldOf(e, letters) == M.Mailed(WorldOf(d, letters), i)
  {
    hide PeersOf;
    hide ParcelsOf;
    ViewAt(d, letters, i);
    ViewPeer(d, letters, i, d.streams[i].(fallback := true), [], d.texts[2 * i + 1]);
    assert d.texts[2 * i := []][2 * i + 1 := d.texts[2 * i + 1]] == d.texts[2 * i := []];
  }

  lemma ViewPosted(d: Desk, letters: map<nat, Letter>, i: nat, root: nat)
    requires d.Ok() && i < |d.streams| && root in letters && letters[root].bytes == d.texts[2 * i]
    ensures var s := d.streams[i];
            var ring := d.rings.At(!s.client) + [Message(s.id, root)];
            var e := d.(streams := d.streams[i := s.(retry := None)], texts := d.texts[2 * i := []],
                        rings := d.rings.Set(!s.client, ring));
            e.Ok() && WorldOf(e, letters) == M.Posted(WorldOf(d, letters), i)
  {
    hide PeersOf;
    hide ParcelsOf;
    hide RingOf;
    var s := d.streams[i];
    ViewAt(d, letters, i);
    ViewPeer(d, letters, i, s.(retry := None), [], d.texts[2 * i + 1]);
    var ring := d.rings.At(!s.client);
    RingsSet(d.rings, letters, !s.client, ring + [Message(s.id, root)]);
    RingAdd(ring, letters, Message(s.id, root));
    assert d.texts[2 * i := []][2 * i + 1 := d.texts[2 * i + 1]] == d.texts[2 * i := []];
  }

  /** A flush or a retry that only counts, or gives the text up. */
  lemma ViewWaits(d: Desk, letters: map<nat, Letter>, i: nat, retry: Option<nat>, out: seq<Byte>)
    requires d.Ok() && i < |d.streams|
    ensures var e := d.(streams := d.streams[i := d.streams[i].(retry := retry)], texts := d.texts[2 * i := out]);
            var p := WorldOf(d, letters).streams[i];
            e.Ok() && WorldOf(e, letters) == M.WithStream(WorldOf(d, letters), i, p.(retry := retry, out := out))
  {
    hide PeersOf;
    hide ParcelsOf;
    ViewAt(d, letters, i);
    ViewPeer(d, letters, i, d.streams[i].(retry := retry), out, d.texts[2 * i + 1]);
    assert d.texts[2 * i := out][2 * i + 1 := d.texts[2 * i + 1]] == d.texts[2 * i := out];
  }

  lemma ViewRoom(d: Desk, letters: map<nat, Letter>, i: nat)
    requires d.Ok() && i < |d.streams|
    ensures var w := WorldOf(d, letters);
            M.Room(w, w.streams[i]) <==> |d.rings.At(!d.streams[i].client)| < d.cap
  {
    hide PeersOf;
    ViewAt(d, letters, i);
  }

  lemma ViewTold(d: Desk, letters: map<nat, Letter>, s: Stream, p: M.Peer)
    requires d.Ok() && p.client == s.client && p.id == s.id && p.status == s.status && p.fallback == s.fallback
    ensures var (r, w) := if s.status == Opened then Told(s, d.cap, d.rings, d.wires) else (d.rings, d.wires);
            WorldOf(d.(rings := r, wires := w), letters) == M.Told(WorldOf(d, letters), p)
  {
    hide PeersOf;
    hide RingOf;
    hide Tabled;
    var ring := d.rings.At(!s.client);
    RingsSet(d.rings, letters, !s.client, ring + [Goodbye(s.id)]);
    RingAdd(ring, letters, Goodbye(s.id));
  }

  lemma ViewClosed(d: Desk, letters: map<nat, Letter>, i: nat)
    requires d.Ok() && i < |d.streams| && d.streams[i].status != Closed
    ensures var s := d.streams[i];
            var (r, w) := if s.status == Opened then Told(s, d.cap, d.rings, d.wires) else (d.rings, d.wires);
            var e := d.(streams := d.streams[i := s.(status := Closed, pending := [], retry := None)],
                        table := d.table - {(s.client, s.id)}, texts := d.texts[2 * i + 1 := []][2 * i := []],
                        rings := r, wires := w);
            e.Ok() && WorldOf(e, letters) == M.ShutDown(WorldOf(d, letters), i)
  {
    hide PeersOf;
    hide ParcelsOf;
    hide RingsOf;
    hide Told;
    hide M.Told;
    var s := d.streams[i];
    var t := s.(status := Closed, pending := [], retry := None);
    ViewAt(d, letters, i);
    NoParcels(letters);
    ViewPeer(d, letters, i, t, [], []);
    assert d.texts[2 * i + 1 := []][2 * i := []] == d.texts[2 * i := []][2 * i + 1 := []];
    var c := WithPeer(d, i, t, [], []).(table := d.table - {(s.client, s.id)});
    ViewTold(c, letters, s, WorldOf(d, letters).streams[i]);
  }
}
