/** What the endpoints of a session have in common with their model. */
module SessionParts {
  import opened Bytes
  import opened EndToEnd
  import opened QueueRefinement

  datatype Status = Opened | HalfClosed | Closed

  /** What the socket carries. */
  datatype Frame = Data(id: nat, bytes: seq<Byte>) | Bye(id: nat)

  /** One value for each endpoint. */
  datatype Duo<T> = Duo(client: T, server: T) {
    function At(side: bool): T { if side then client else server }

    function Set(side: bool, v: T): (d: Duo<T>)
      ensures d.At(side) == v && d.At(!side) == At(!side)
    {
      if side then this.(client := v) else this.(server := v)
    }
  }

  datatype StreamAction = Write(w: WriteOp) | Flush | Retry | Pull | Use(op: Op) | Close

  datatype Action = Open(id: nat) | Poll(side: bool) | Deliver(side: bool) | OfStream(i: nat, c: StreamAction)

  const FLUSH_RETRIES := 10
}

/** Two endpoints and their streams as plain byte queues: what a session does when blocks, chains and
    buffers are left out.  `Sessions` shows that the real endpoints are exactly this; here it is proved
    where the bytes go. */
module SessionModel {
  import opened Basics
  import opened Bytes
  import opened SessionParts
  import Q = QueueRefinement

  /** What a ring carries: the bytes of a message, or a close. */
  datatype Mail = Letter(id: nat, bytes: seq<Byte>) | Farewell(id: nat)

  /** Data waiting with a stream; `heap` when it came over the socket. */
  datatype Parcel = Parcel(bytes: seq<Byte>, heap: bool)

  /** A stream: what is written and not flushed, what has arrived and was not asked for, and what can be
      read.  `retry` counts the attempts of a flush that waits for room in the ring. */
  datatype Peer = Peer(client: bool, id: nat, status: Status, fallback: bool, retry: Option<nat>,
                       out: seq<Byte>, pending: seq<Parcel>, ready: seq<Byte>)

  type Key = (bool, nat)

  datatype World = World(cap: nat, streams: seq<Peer>, table: map<Key, nat>, rings: Duo<seq<Mail>>, wires: Duo<seq<Frame>>)

  /** An action, and whether the buffer a flush sends from needed the heap. */
  datatype Event = Event(a: Action, heap: bool)

  /** What a frame of the socket can carry. */
  const FRAME_LIMIT := U32_LIMIT - 1 - 16

  // ---------------------------------------------------------------------------------------------
  // The machine
  // ---------------------------------------------------------------------------------------------

  function Fresh(client: bool, id: nat): Peer {
    Peer(client, id, Opened, false, None, [], [], [])
  }

  function WithStream(w: World, i: nat, p: Peer): World
    requires i < |w.streams|
  {
    w.(streams := w.streams[i := p])
  }

  function NewStream(w: World, p: Peer): World {
    w.(streams := w.streams + [p], table := w.table[(p.client, p.id) := |w.streams|])
  }

  function Filled(p: Peer, x: Parcel): Peer {
    if p.status == Closed then p else p.(pending := p.pending + [x])
  }

  function Arrived(w: World, k: Key, x: Parcel): World {
    if k in w.table then
      if w.table[k] < |w.streams| then WithStream(w, w.table[k], Filled(w.streams[w.table[k]], x)) else w
    else if k.0 then w
    else NewStream(w, Filled(Fresh(k.0, k.1), x))
  }

  function HalfClose(p: Peer): Peer {
    if p.status == Opened then p.(status := HalfClosed) else p
  }

  function Parted(w: World, k: Key): World {
    if k in w.table && w.table[k] < |w.streams| then WithStream(w, w.table[k], HalfClose(w.streams[w.table[k]])) else w
  }

  function Polled(w: World, side: bool): World {
    var ring := w.rings.At(side);
    if ring == [] then w
    else
      var rest := w.(rings := w.rings.Set(side, ring[1..]));
      match ring[0]
      case Letter(id, bytes) => Arrived(rest, (side, id), Parcel(bytes, false))
      case Farewell(id) => Parted(rest, (side, id))
  }

  function Delivered(w: World, side: bool): World {
    var wire := w.wires.At(side);
    if wire == [] then w
    else
      var rest := w.(wires := w.wires.Set(side, wire[1..]));
      match wire[0]
      case Data(id, bytes) => Arrived(rest, (side, id), Parcel(bytes, true))
      case Bye(id) => Parted(rest, (side, id)).(table := w.table - {(side, id)})
  }

  predicate Room(w: World, p: Peer) {
    |w.rings.At(!p.client)| < w.cap
  }

  function Posted(w: World, i: nat): World
    requires i < |w.streams|
  {
    var p := w.streams[i];
    WithStream(w, i, p.(out := [], retry := None)).(rings :=
      w.rings.Set(!p.client, w.rings.At(!p.client) + [Letter(p.id, p.out)]))
  }

  function Mailed(w: World, i: nat): World
    requires i < |w.streams|
  {
    var p := w.streams[i];
    var r := WithStream(w, i, p.(out := [], fallback := true));
    if |p.out| <= FRAME_LIMIT
    then r.(wires := w.wires.Set(!p.client, w.wires.At(!p.client) + [Data(p.id, p.out)]))
    else r
  }

  function Flushed(w: World, i: nat, heap: bool): World
    requires i < |w.streams|
  {
    var p := w.streams[i];
    if p.retry.Some? || p.out == [] then w
    else if p.status != Opened then WithStream(w, i, p.(out := []))
    else if p.fallback || heap then Mailed(w, i)
    else if Room(w, p) then Posted(w, i)
    else WithStream(w, i, p.(retry := Some(0)))
  }

  function Retried(w: World, i: nat): World
    requires i < |w.streams|
  {
    var p := w.streams[i];
    if p.retry == None then w
    else if p.status == Opened && Room(w, p) then Posted(w, i)
    else if p.status == Opened && p.retry.value + 1 < FLUSH_RETRIES
    then WithStream(w, i, p.(retry := Some(p.retry.value + 1)))
    else WithStream(w, i, p.(out := [], retry := None))
  }

  function Contents(parcels: seq<Parcel>): seq<Byte> {
    if parcels == [] then [] else Contents(parcels[..|parcels| - 1]) + parcels[|parcels| - 1].bytes
  }

  predicate AnyHeap(parcels: seq<Parcel>) {
    exists i :: 0 <= i < |parcels| && parcels[i].heap
  }

  function Pulled(p: Peer): Peer {
    p.(ready := p.ready + Contents(p.pending), pending := [], fallback := p.fallback || AnyHeap(p.pending))
  }

  predicate Usable(op: Q.Op) {
    op.Read? || op.Look? || op.Skip? || op.Release?
  }

  function Told(w: World, p: Peer): World {
    if p.status != Opened then w
    else if !p.fallback && Room(w, p)
    then w.(rings := w.rings.Set(!p.client, w.rings.At(!p.client) + [Farewell(p.id)]))
    else w.(wires := w.wires.Set(!p.client, w.wires.At(!p.client) + [Bye(p.id)]))
  }

  function ClosedPeer(p: Peer): Peer {
    p.(status := Closed, pending := [], retry := None, out := [], ready := [])
  }

  function ShutDown(w: World, i: nat): World
    requires i < |w.streams|
  {
    var p := w.streams[i];
    if p.status == Closed then w
    else Told(WithStream(w, i, ClosedPeer(p)).(table := w.table - {(p.client, p.id)}), p)
  }

  function OnStream(w: World, i: nat, c: StreamAction, heap: bool): World
    requires i < |w.streams|
  {
    var p := w.streams[i];
    match c
    case Write(x) => if p.retry == None && Q.Callable(Q.Put(x)) then WithStream(w, i, p.(out := p.out + x.bytes)) else w
    case Flush => Flushed(w, i, heap)
    case Retry => Retried(w, i)
    case Pull => WithStream(w, i, Pulled(p))
    case Use(op) => if Usable(op) then WithStream(w, i, p.(ready := Q.Next(p.ready, op))) else w
    case Close => ShutDown(w, i)
  }

  function Stepped(w: World, e: Event): World {
    match e.a
    case Open(id) => if (true, id) in w.table then w else NewStream(w, Fresh(true, id))
    case Poll(side) => Polled(w, side)
    case Deliver(side) => Delivered(w, side)
    case OfStream(i, c) => if i < |w.streams| then OnStream(w, i, c, e.heap) else w
  }

  function Exec(w: World, run: seq<Event>): World {
    if run == [] then w else Stepped(Exec(w, run[..|run| - 1]), run[|run| - 1])
  }

  predicate Init(w: World) {
    w.streams == [] && w.table == map[] && w.rings == Duo([], []) && w.wires == Duo([], [])
  }

  // ---------------------------------------------------------------------------------------------
  // The bytes on their way to one endpoint's stream id
  // ---------------------------------------------------------------------------------------------

  function Letters(ring: seq<Mail>, id: nat): seq<seq<Byte>> {
    if ring == [] then []
    else (if ring[0].Letter? && ring[0].id == id then [ring[0].bytes] else []) + Letters(ring[1..], id)
  }

  function Frames(wire: seq<Frame>, id: nat): seq<seq<Byte>> {
    if wire == [] then []
    else (if wire[0].Data? && wire[0].id == id then [wire[0].bytes] else []) + Frames(wire[1..], id)
  }

  function Join(parts: seq<seq<Byte>>): seq<Byte> {
    if parts == [] then [] else parts[0] + Join(parts[1..])
  }

  function Mailbox(w: World, k: Key): seq<seq<Byte>> { Letters(w.rings.At(k.0), k.1) }

  function Postbag(w: World, k: Key): seq<seq<Byte>> { Frames(w.wires.At(k.0), k.1) }

  lemma {:induction false} LettersAppend(ring: seq<Mail>, m: Mail, id: nat)
    ensures Letters(ring + [m], id) == Letters(ring, id) + if m.Letter? && m.id == id then [m.bytes] else []
  {
    var more := ring + [m];
    if ring == [] {
      assert more[1..] == [];
    } else {
      assert more[1..] == ring[1..] + [m];
      LettersAppend(ring[1..], m, id);
    }
  }

  lemma {:induction false} FramesAppend(wire: seq<Frame>, f: Frame, id: nat)
    ensures Frames(wire + [f], id) == Frames(wire, id) + if f.Data? && f.id == id then [f.bytes] else []
  {
    var more := wire + [f];
    if wire == [] {
      assert more[1..] == [];
    } else {
      assert more[1..] == wire[1..] + [f];
      FramesAppend(wire[1..], f, id);
    }
  }

  lemma {:induction false} JoinAppend(parts: seq<seq<Byte>>, b: seq<Byte>)
    ensures Join(parts + [b]) == Join(parts) + b
  {
    var more := parts + [b];
    if parts == [] {
      assert more[1..] == [] && Join([]) == [];
      assert b + [] == b && [] + b == b;
    } else {
      assert more[1..] == parts[1..] + [b];
      JoinAppend(parts[1..], b);
    }
  }

  lemma ContentsAppend(parcels: seq<Parcel>, x: Parcel)
    ensures Contents(parcels + [x]) == Contents(parcels) + x.bytes
  {
    assert (parcels + [x])[..|parcels|] == parcels;
  }

  // ---------------------------------------------------------------------------------------------
  // What was sent, what came, what was read
  // ---------------------------------------------------------------------------------------------

  /** The stream sends to, or receives under, this key. */
  predicate Receives(p: Peer, k: Key) { p.client == k.0 && p.id == k.1 }

  predicate Sends(p: Peer, k: Key) { p.client == !k.0 && p.id == k.1 }

  /** The flush or retry hands the stream's text over. */
  predicate HandsOver(w: World, i: nat, c: StreamAction, heap: bool)
    requires i < |w.streams|
  {
    var p := w.streams[i];
    && p.status == Opened
    && (c.Flush? ==> p.retry == None && p.out != []
                     && if p.fallback || heap then |p.out| <= FRAME_LIMIT else Room(w, p))
    && (c.Retry? ==> p.retry.Some? && Room(w, p))
    && (c.Flush? || c.Retry?)
  }

  function SentBy(w: World, e: Event, k: Key): seq<Byte> {
    if e.a.OfStream? && e.a.i < |w.streams| && Sends(w.streams[e.a.i], k) && HandsOver(w, e.a.i, e.a.c, e.heap)
    then w.streams[e.a.i].out else []
  }

  /** What a poll or a frame brings for the key. */
  function CameBy(w: World, e: Event, k: Key): seq<Byte> {
    match e.a
    case Poll(side) =>
      var ring := w.rings.At(side);
      if side == k.0 && ring != [] && ring[0].Letter? && ring[0].id == k.1 then ring[0].bytes else []
    case Deliver(side) =>
      var wire := w.wires.At(side);
      if side == k.0 && wire != [] && wire[0].Data? && wire[0].id == k.1 then wire[0].bytes else []
    case _ => []
  }

  function ReadBy(w: World, e: Event, j: nat): seq<Byte> {
    if e.a.OfStream? && e.a.i == j < |w.streams| && e.a.c.Use? && (e.a.c.op.Read? || e.a.c.op.Skip?)
       && e.a.c.op.size <= |w.streams[j].ready|
    then w.streams[j].ready[..e.a.c.op.size] else []
  }

  function Sent(w: World, run: seq<Event>, k: Key): seq<Byte> {
    if run == [] then []
    else
      var front := run[..|run| - 1];
      Sent(w, front, k) + SentBy(Exec(w, front), run[|run| - 1], k)
  }

  function Came(w: World, run: seq<Event>, k: Key): seq<Byte> {
    if run == [] then []
    else
      var front := run[..|run| - 1];
      Came(w, front, k) + CameBy(Exec(w, front), run[|run| - 1], k)
  }

  function Read(w: World, run: seq<Event>, j: nat): seq<Byte> {
    if run == [] then []
    else
      var front := run[..|run| - 1];
      Read(w, front, j) + ReadBy(Exec(w, front), run[|run| - 1], j)
  }

  /** A frame of the key is taken only when no message of the key is left in the ring. */
  predicate InTurn(w: World, e: Event, k: Key) {
    DeliversFor(w, e, k) ==> Mailbox(w, k) == []
  }

  predicate AlwaysInTurn(w: World, run: seq<Event>, k: Key) {
    run != [] ==>
      var front := run[..|run| - 1];
      AlwaysInTurn(w, front, k) && InTurn(Exec(w, front), run[|run| - 1], k)
  }

  predicate OneSender(w: World, k: Key) {
    forall i, j | 0 <= i < j < |w.streams| :: !(Sends(w.streams[i], k) && Sends(w.streams[j], k))
  }

  predicate NoReceiver(w: World, k: Key) {
    forall i | 0 <= i < |w.streams| :: !Receives(w.streams[i], k)
  }

  predicate NoSender(w: World, k: Key) {
    forall i | 0 <= i < |w.streams| :: !Sends(w.streams[i], k)
  }

  /** Stream `j` is the first one under the key. */
  predicate IsFirst(w: World, k: Key, j: nat) {
    j < |w.streams| && Receives(w.streams[j], k) && forall i | 0 <= i < j :: !Receives(w.streams[i], k)
  }

  // ---------------------------------------------------------------------------------------------
  // What one step does
  // ---------------------------------------------------------------------------------------------

  /** The step puts the text of a stream into the ring, or into a frame, for the key. */
  predicate Posts(w: World, e: Event, k: Key) {
    && e.a.OfStream? && e.a.i < |w.streams| && Sends(w.streams[e.a.i], k) && HandsOver(w, e.a.i, e.a.c, e.heap)
    && !(e.a.c.Flush? && (w.streams[e.a.i].fallback || e.heap))
  }

  predicate Mails(w: World, e: Event, k: Key) {
    && e.a.OfStream? && e.a.i < |w.streams| && Sends(w.streams[e.a.i], k) && HandsOver(w, e.a.i, e.a.c, e.heap)
    && e.a.c.Flush? && (w.streams[e.a.i].fallback || e.heap)
  }

  predicate PollsFor(w: World, e: Event, k: Key) {
    e.a == Poll(k.0) && var ring := w.rings.At(k.0); ring != [] && ring[0].Letter? && ring[0].id == k.1
  }

  predicate DeliversFor(w: World, e: Event, k: Key) {
    e.a == Deliver(k.0) && var wire := w.wires.At(k.0); wire != [] && wire[0].Data? && wire[0].id == k.1
  }

  lemma ArrivedKeeps(w: World, q: Key, x: Parcel)
    ensures var r := Arrived(w, q, x);
            && r.rings == w.rings && r.wires == w.wires && SameStreams(w.streams, r.streams)
            && (TableOk(w) ==> TableOk(r))
  {
  }

  lemma PartedKeeps(w: World, q: Key)
    ensures var r := Parted(w, q);
            && r.rings == w.rings && r.wires == w.wires && r.table == w.table && SameStreams(w.streams, r.streams)
            && (TableOk(w) ==> TableOk(r))
  {
  }

  /** Streams keep their endpoint and id, and at most one is new; none gets leave to use the ring. */
  predicate SameStreams(a: seq<Peer>, b: seq<Peer>) {
    && |a| <= |b| <= |a| + 1
    && (forall i | 0 <= i < |a| :: SameName(a[i], b[i]) && (MayPost(b[i]) ==> MayPost(a[i])))
  }

  predicate SameName(p: Peer, q: Peer) {
    q.client == p.client && q.id == p.id
  }

  lemma PolledKeeps(w: World, side: bool)
    ensures var r, ring := Polled(w, side), w.rings.At(side);
            && r.wires == w.wires && SameStreams(w.streams, r.streams) && (TableOk(w) ==> TableOk(r))
            && r.rings == if ring == [] then w.rings else w.rings.Set(side, ring[1..])
  {
    hide Arrived;
    hide Parted;
    var ring := w.rings.At(side);
    if ring != [] {
      var rest := w.(rings := w.rings.Set(side, ring[1..]));
      match ring[0]
      case Letter(id, bytes) => ArrivedKeeps(rest, (side, id), Parcel(bytes, false));
      case Farewell(id) => PartedKeeps(rest, (side, id));
    }
  }

  lemma DeliveredKeeps(w: World, side: bool)
    ensures var r, wire := Delivered(w, side), w.wires.At(side);
            && r.rings == w.rings && SameStreams(w.streams, r.streams) && (TableOk(w) ==> TableOk(r))
            && r.wires == if wire == [] then w.wires else w.wires.Set(side, wire[1..])
  {
    hide Arrived;
    hide Parted;
    var wire := w.wires.At(side);
    if wire != [] {
      var rest := w.(wires := w.wires.Set(side, wire[1..]));
      match wire[0]
      case Data(id, bytes) => ArrivedKeeps(rest, (side, id), Parcel(bytes, true));
      case Bye(id) => PartedKeeps(rest, (side, id));
    }
  }

  /** The ring and the wire after a call on a stream. */
  lemma OnStreamSends(w: World, i: nat, c: StreamAction, heap: bool)
    requires i < |w.streams|
    ensures var p, r, over := w.streams[i], OnStream(w, i, c, heap), HandsOver(w, i, c, heap);
            var ring, wire := w.rings.At(!p.client), w.wires.At(!p.client);
            var socket := c.Flush? && (p.fallback || heap);
            var bye := c.Close? && p.status == Opened;
            && r.rings == (if over && !socket then w.rings.Set(!p.client, ring + [Letter(p.id, p.out)])
                           else if bye && !p.fallback && Room(w, p) then w.rings.Set(!p.client, ring + [Farewell(p.id)])
                           else w.rings)
            && r.wires == (if over && socket then w.wires.Set(!p.client, wire + [Data(p.id, p.out)])
                           else if bye && !(!p.fallback && Room(w, p)) then w.wires.Set(!p.client, wire + [Bye(p.id)])
                           else w.wires)
  {
  }

  /** A call leaves the other streams alone. */
  predicate OnlyAt(a: seq<Peer>, b: seq<Peer>, i: nat) {
    && |b| == |a| && i < |a| && SameName(a[i], b[i])
    && (MayPost(b[i]) ==> MayPost(a[i])) && (forall n | 0 <= n < |a| && n != i :: b[n] == a[n])
  }

  lemma FlushedKeeps(w: World, i: nat, heap: bool)
    requires i < |w.streams|
    ensures var p, r := w.streams[i], Flushed(w, i, heap);
            && OnlyAt(w.streams, r.streams, i) && r.table == w.table && r.streams[i].status == p.status
            && (HandsOver(w, i, Flush, heap) && (p.fallback || heap) ==> !MayPost(r.streams[i]))
  {
  }

  lemma RetriedKeeps(w: World, i: nat)
    requires i < |w.streams|
    ensures var r := Retried(w, i);
            OnlyAt(w.streams, r.streams, i) && r.table == w.table && r.streams[i].status == w.streams[i].status
  {
  }

  lemma ShutKeeps(w: World, i: nat)
    requires i < |w.streams|
    ensures var p, r := w.streams[i], ShutDown(w, i);
            && OnlyAt(w.streams, r.streams, i)
            && r.table == (if p.status == Closed then w.table else w.table - {(p.client, p.id)})
            && r.streams[i] == (if p.status == Closed then p else ClosedPeer(p))
  {
  }

  lemma OnStreamKeeps(w: World, i: nat, c: StreamAction, heap: bool)
    requires i < |w.streams|
    ensures var p, r := w.streams[i], OnStream(w, i, c, heap);
            && OnlyAt(w.streams, r.streams, i)
            && (HandsOver(w, i, c, heap) && c.Flush? && (p.fallback || heap) ==> !MayPost(r.streams[i]))
            && r.table == (if c.Close? && p.status != Closed then w.table - {(p.client, p.id)} else w.table)
            && (!c.Close? ==> r.streams[i].status == p.status)
  {
    hide Flushed;
    hide Retried;
    hide ShutDown;
    hide HandsOver;
    FlushedKeeps(w, i, heap);
    RetriedKeeps(w, i);
    ShutKeeps(w, i);
  }

  lemma OnlyAtSame(a: seq<Peer>, b: seq<Peer>, i: nat)
    requires OnlyAt(a, b, i)
    ensures SameStreams(a, b)
  {
  }

  lemma OnStreamTable(w: World, i: nat, c: StreamAction, heap: bool)
    requires i < |w.streams| && TableOk(w)
    ensures TableOk(OnStream(w, i, c, heap))
  {
    hide OnStream;
    hide HandsOver;
    hide MayPost;
    OnStreamKeeps(w, i, c, heap);
    var r := OnStream(w, i, c, heap);
    forall q | q in r.table
      ensures r.table[q] < |r.streams| && Receives(r.streams[r.table[q]], q) && r.streams[r.table[q]].status != Closed
    {
      assert Receives(w.streams[w.table[q]], q);
    }
  }

  lemma SteppedKeeps(w: World, e: Event)
    ensures var r := Stepped(w, e); SameStreams(w.streams, r.streams) && (TableOk(w) ==> TableOk(r))
  {
    hide Polled;
    hide Delivered;
    hide OnStream;
    hide TableOk;
    match e.a
    case Open(id) => OpenKeeps(w, id);
    case Poll(side) => PolledKeeps(w, side);
    case Deliver(side) => DeliveredKeeps(w, side);
    case OfStream(i, c) =>
      if i < |w.streams| {
        OnStreamKeeps(w, i, c, e.heap);
        OnlyAtSame(w.streams, OnStream(w, i, c, e.heap).streams, i);
        if TableOk(w) { OnStreamTable(w, i, c, e.heap); }
      }
  }

  lemma OpenKeeps(w: World, id: nat)
    ensures TableOk(w) ==> TableOk(NewStream(w, Fresh(true, id)))
    ensures SameStreams(w.streams, NewStream(w, Fresh(true, id)).streams)
  {
  }

  lemma MailboxStep(w: World, e: Event, k: Key)
    ensures PollsFor(w, e, k) ==> Mailbox(w, k) == [CameBy(w, e, k)] + Mailbox(Stepped(w, e), k)
    ensures Posts(w, e, k) ==> Mailbox(Stepped(w, e), k) == Mailbox(w, k) + [SentBy(w, e, k)]
    ensures !PollsFor(w, e, k) && !Posts(w, e, k) ==> Mailbox(Stepped(w, e), k) == Mailbox(w, k)
  {
    hide Polled;
    hide Delivered;
    hide OnStream;
    hide HandsOver;
    match e.a
    case Open(id) =>
    case Poll(side) => PolledKeeps(w, side);
    case Deliver(side) => DeliveredKeeps(w, side);
    case OfStream(i, c) =>
      if i < |w.streams| { MailboxOnStream(w, e, k); }
  }

  lemma MailboxOnStream(w: World, e: Event, k: Key)
    requires e.a.OfStream? && e.a.i < |w.streams|
    ensures Posts(w, e, k) ==> Mailbox(Stepped(w, e), k) == Mailbox(w, k) + [SentBy(w, e, k)]
    ensures !Posts(w, e, k) ==> Mailbox(Stepped(w, e), k) == Mailbox(w, k)
  {
    hide Letters;
    hide OnStream;
    hide HandsOver;
    var p, i, c := w.streams[e.a.i], e.a.i, e.a.c;
    OnStreamSends(w, i, c, e.heap);
    LettersAppend(w.rings.At(!p.client), Letter(p.id, p.out), k.1);
    LettersAppend(w.rings.At(!p.client), Farewell(p.id), k.1);
    OverIsNoClose(w, i, c, e.heap);
  }

  lemma OverIsNoClose(w: World, i: nat, c: StreamAction, heap: bool)
    requires i < |w.streams|
    ensures HandsOver(w, i, c, heap) ==> c.Flush? || c.Retry?
  {
  }

  lemma PostbagStep(w: World, e: Event, k: Key)
    ensures DeliversFor(w, e, k) ==> Postbag(w, k) == [CameBy(w, e, k)] + Postbag(Stepped(w, e), k)
    ensures Mails(w, e, k) ==> Postbag(Stepped(w, e), k) == Postbag(w, k) + [SentBy(w, e, k)]
    ensures !DeliversFor(w, e, k) && !Mails(w, e, k) ==> Postbag(Stepped(w, e), k) == Postbag(w, k)
  {
    hide Polled;
    hide Delivered;
    hide OnStream;
    hide HandsOver;
    match e.a
    case Open(id) =>
    case Poll(side) => PolledKeeps(w, side);
    case Deliver(side) => DeliveredKeeps(w, side);
    case OfStream(i, c) =>
      if i < |w.streams| { PostbagOnStream(w, e, k); }
  }

  lemma PostbagOnStream(w: World, e: Event, k: Key)
    requires e.a.OfStream? && e.a.i < |w.streams|
    ensures Mails(w, e, k) ==> Postbag(Stepped(w, e), k) == Postbag(w, k) + [SentBy(w, e, k)]
    ensures !Mails(w, e, k) ==> Postbag(Stepped(w, e), k) == Postbag(w, k)
  {
    hide Frames;
    hide OnStream;
    hide HandsOver;
    var p, i, c := w.streams[e.a.i], e.a.i, e.a.c;
    OnStreamSends(w, i, c, e.heap);
    FramesAppend(w.wires.At(!p.client), Data(p.id, p.out), k.1);
    FramesAppend(w.wires.At(!p.client), Bye(p.id), k.1);
    OverIsNoClose(w, i, c, e.heap);
  }

  // ---------------------------------------------------------------------------------------------
  // What every world keeps, for one key
  // ---------------------------------------------------------------------------------------------

  /** What was sent is what came, then what the ring holds, then what the wire holds. */
  predicate Flow(w: World, k: Key, sent: seq<Byte>, came: seq<Byte>) {
    sent == came + Join(Mailbox(w, k)) + Join(Postbag(w, k))
  }

  predicate MayPost(p: Peer) {
    p.status == Opened && (!p.fallback || p.retry.Some?)
  }

  /** A stream that may still use the ring has no frame on the wire. */
  predicate Channel(w: World, k: Key) {
    forall i | 0 <= i < |w.streams| && Sends(w.streams[i], k) && MayPost(w.streams[i]) :: Postbag(w, k) == []
  }

  predicate TableOk(w: World) {
    forall q | q in w.table ::
      w.table[q] < |w.streams| && Receives(w.streams[w.table[q]], q) && w.streams[w.table[q]].status != Closed
  }

  /** Without a sender there is no traffic. */
  predicate Traffic(w: World, k: Key) {
    NoSender(w, k) ==> Mailbox(w, k) == [] && Postbag(w, k) == []
  }

  /** A server's stream is opened by a client's. */
  predicate Born(w: World, id: nat) {
    NoReceiver(w, (true, id)) ==> NoReceiver(w, (false, id))
  }

  lemma Shift(a: seq<Byte>, b: seq<Byte>, c: seq<Byte>, d: seq<Byte>)
    ensures (a + b) + c + d == a + (b + c) + d
    ensures a + b + (c + d) == (a + b + c) + d
    ensures a + (b + c) + d == (a + b) + c + d
  {
  }

  /** Two texts whose order does not matter. */
  predicate Commute(a: seq<Byte>, b: seq<Byte>) { a + b == b + a }

  /** What breaks the order, exactly: a message put into the ring while frames of the key are on the wire,
      or a frame taken while messages of the key are in the ring, unless swapping them shows no
      difference. */
  lemma FlowIff(w: World, e: Event, k: Key, sent: seq<Byte>, came: seq<Byte>)
    requires Flow(w, k, sent, came)
    ensures Flow(Stepped(w, e), k, sent + SentBy(w, e, k), came + CameBy(w, e, k)) <==>
            && (Posts(w, e, k) ==> Commute(Join(Postbag(w, k)), SentBy(w, e, k)))
            && (DeliversFor(w, e, k) ==> Commute(Join(Mailbox(w, k)), CameBy(w, e, k)))
  {
    MailboxStep(w, e, k);
    PostbagStep(w, e, k);
    ByNothing(w, e, k);
    var r, m, p, x, y := Stepped(w, e), Mailbox(w, k), Postbag(w, k), SentBy(w, e, k), CameBy(w, e, k);
    Nothing();
    hide Stepped;
    hide Mailbox;
    hide Postbag;
    hide SentBy;
    hide CameBy;
    hide Posts;
    hide Mails;
    hide PollsFor;
    hide DeliversFor;
    hide Commute;
    hide Join;
    if Posts(w, e, k) {
      JoinAppend(m, x);
      PutBehind(came, Join(m), Join(p), x);
    } else if Mails(w, e, k) {
      JoinAppend(p, x);
      Shift(came, Join(m), Join(p), x);
    } else if PollsFor(w, e, k) {
      JoinHead(y, Mailbox(r, k));
      Shift(came, y, Join(Mailbox(r, k)), Join(p));
    } else if DeliversFor(w, e, k) {
      JoinHead(y, Postbag(r, k));
      TakenAhead(came, Join(m), y, Join(Postbag(r, k)));
    }
  }

  /** The steps that hand nothing over and bring nothing. */
  lemma ByNothing(w: World, e: Event, k: Key)
    ensures !Posts(w, e, k) && !Mails(w, e, k) ==> SentBy(w, e, k) == []
    ensures !PollsFor(w, e, k) && !DeliversFor(w, e, k) ==> CameBy(w, e, k) == []
    ensures Posts(w, e, k) || Mails(w, e, k) ==> !PollsFor(w, e, k) && !DeliversFor(w, e, k)
    ensures Mails(w, e, k) ==> !Posts(w, e, k)
    ensures PollsFor(w, e, k) ==> !DeliversFor(w, e, k)
  {
    hide HandsOver;
  }

  lemma Swapped(a: seq<Byte>, b: seq<Byte>, c: seq<Byte>, d: seq<Byte>)
    ensures a + (b + c) + d == a + (c + b) + d <==> Commute(b, c)
  {
    var x, y := a + (b + c) + d, a + (c + b) + d;
    assert x[|a|..|a| + |b + c|] == b + c && y[|a|..|a| + |b + c|] == c + b;
  }

  lemma PutBehind(came: seq<Byte>, m: seq<Byte>, p: seq<Byte>, x: seq<Byte>)
    ensures came + m + p + x == came + (m + x) + p <==> Commute(p, x)
  {
    Swapped(came + m, p, x, []);
    assert came + m + p + x == (came + m) + (p + x) + [];
    assert came + (m + x) + p == (came + m) + (x + p) + [];
  }

  lemma TakenAhead(came: seq<Byte>, m: seq<Byte>, y: seq<Byte>, rest: seq<Byte>)
    ensures came + m + (y + rest) == (came + y) + m + rest <==> Commute(m, y)
  {
    Swapped(came, m, y, rest);
    assert came + m + (y + rest) == came + (m + y) + rest;
    assert (came + y) + m + rest == came + (y + m) + rest;
  }

  lemma FlowStep(w: World, e: Event, k: Key, sent: seq<Byte>, came: seq<Byte>)
    requires Flow(w, k, sent, came) && Channel(w, k) && InTurn(w, e, k)
    ensures Flow(Stepped(w, e), k, sent + SentBy(w, e, k), came + CameBy(w, e, k))
  {
    assert Posts(w, e, k) ==> Postbag(w, k) == [];
    hide Stepped;
    hide Mailbox;
    hide Postbag;
    hide Posts;
    hide SentBy;
    hide CameBy;
    Nothing();
    assert forall a: seq<Byte> :: [] + a == a;
    FlowIff(w, e, k, sent, came);
  }

  lemma Nothing()
    ensures Join([]) == [] && forall a: seq<Byte> :: a + [] == a
  {
  }

  lemma JoinHead(b: seq<Byte>, parts: seq<seq<Byte>>)
    ensures Join([b] + parts) == b + Join(parts)
  {
    assert ([b] + parts)[1..] == parts;
  }

  lemma OneSenderBack(w: World, e: Event, k: Key)
    requires OneSender(Stepped(w, e), k)
    ensures OneSender(w, k)
  {
    hide Stepped;
    SteppedKeeps(w, e);
    var r := Stepped(w, e);
    forall i, j | 0 <= i < j < |w.streams| ensures !(Sends(w.streams[i], k) && Sends(w.streams[j], k)) {
      assert SameName(w.streams[i], r.streams[i]) && SameName(w.streams[j], r.streams[j]);
    }
  }

  lemma OnlySender(w: World, k: Key, i: nat, j: nat)
    requires OneSender(w, k) && i < |w.streams| && j < |w.streams| && Sends(w.streams[i], k) && Sends(w.streams[j], k)
    ensures i == j
  {
  }

  /** The stream that is about to mail may not use the ring any more. */
  lemma MailerStep(w: World, e: Event, k: Key)
    requires Mails(w, e, k)
    ensures e.a.OfStream? && e.a.i < |Stepped(w, e).streams|
    ensures Sends(Stepped(w, e).streams[e.a.i], k) && !MayPost(Stepped(w, e).streams[e.a.i])
  {
    OnStreamKeeps(w, e.a.i, e.a.c, e.heap);
  }

  lemma ChannelStep(w: World, e: Event, k: Key)
    requires Channel(w, k) && Traffic(w, k) && OneSender(Stepped(w, e), k)
    ensures Channel(Stepped(w, e), k)
  {
    hide Stepped;
    hide Postbag;
    hide MayPost;
    hide Mails;
    hide OneSender;
    var r := Stepped(w, e);
    SteppedKeeps(w, e);
    PostbagStep(w, e, k);
    if Mails(w, e, k) { MailerStep(w, e, k); }
    forall i | 0 <= i < |r.streams| && Sends(r.streams[i], k) && MayPost(r.streams[i]) ensures Postbag(r, k) == [] {
      if Mails(w, e, k) { OnlySender(r, k, i, e.a.i); }
      if i < |w.streams| {
        assert SameName(w.streams[i], r.streams[i]) && Sends(w.streams[i], k);
      } else {
        NewSender(w, r, k, i);
      }
    }
  }

  /** The only sender is new: there was none, so nothing was on its way. */
  lemma NewSender(w: World, r: World, k: Key, i: nat)
    requires OneSender(r, k) && SameStreams(w.streams, r.streams) && |w.streams| <= i < |r.streams| && Sends(r.streams[i], k)
    ensures NoSender(w, k)
  {
    forall n | 0 <= n < |w.streams| ensures !Sends(w.streams[n], k) {
      assert SameName(w.streams[n], r.streams[n]);
    }
  }

  lemma TrafficStep(w: World, e: Event, k: Key)
    requires Traffic(w, k)
    ensures Traffic(Stepped(w, e), k)
  {
    hide Stepped;
    hide Mailbox;
    hide Postbag;
    hide MayPost;
    SteppedKeeps(w, e);
    MailboxStep(w, e, k);
    PostbagStep(w, e, k);
    var r := Stepped(w, e);
    if NoSender(r, k) { SendersBack(w, r, k); }
  }

  lemma SendersBack(w: World, r: World, k: Key)
    requires SameStreams(w.streams, r.streams) && NoSender(r, k)
    ensures NoSender(w, k)
  {
    forall i | 0 <= i < |w.streams| ensures !Sends(w.streams[i], k) {
      assert SameName(w.streams[i], r.streams[i]) && !Sends(r.streams[i], k);
    }
  }

  lemma BornStep(w: World, e: Event, id: nat)
    requires Born(w, id) && Traffic(w, (false, id))
    ensures Born(Stepped(w, e), id)
  {
    hide Stepped;
    hide Mailbox;
    hide Postbag;
    hide MayPost;
    SteppedKeeps(w, e);
    var r := Stepped(w, e);
    if NoReceiver(r, (true, id)) {
      ReceiversBack(w, r, (true, id));
      NoClientNoSender(w, id);
      NoTrafficNoNew(w, e, id);
      forall i | 0 <= i < |r.streams| ensures !Receives(r.streams[i], (false, id)) {
        if i < |w.streams| { assert SameName(w.streams[i], r.streams[i]) && !Receives(w.streams[i], (false, id)); }
      }
    }
  }

  lemma ReceiversBack(w: World, r: World, k: Key)
    requires SameStreams(w.streams, r.streams) && NoReceiver(r, k)
    ensures NoReceiver(w, k)
  {
    forall i | 0 <= i < |w.streams| ensures !Receives(w.streams[i], k) {
      assert SameName(w.streams[i], r.streams[i]) && !Receives(r.streams[i], k);
    }
  }

  lemma NoClientNoSender(w: World, id: nat)
    ensures NoReceiver(w, (true, id)) <==> NoSender(w, (false, id))
  {
    assert forall i | 0 <= i < |w.streams| :: Receives(w.streams[i], (true, id)) <==> Sends(w.streams[i], (false, id));
  }

  /** Without anything on its way no server's stream is opened. */
  lemma NoTrafficNoNew(w: World, e: Event, id: nat)
    requires Mailbox(w, (false, id)) == [] && Postbag(w, (false, id)) == []
    ensures var r := Stepped(w, e); |r.streams| > |w.streams| ==> !Receives(r.streams[|w.streams|], (false, id))
  {
    hide OnStream;
    if e.a.OfStream? && e.a.i < |w.streams| { OnStreamKeeps(w, e.a.i, e.a.c, e.heap); }
  }

  // ---------------------------------------------------------------------------------------------
  // The receiving stream
  // ---------------------------------------------------------------------------------------------

  /** What the step brings to stream `j` under the key. */
  predicate Reaches(w: World, k: Key, j: nat) {
    if k in w.table then w.table[k] == j else !k.0 && j == |w.streams|
  }

  function GotBy(w: World, e: Event, k: Key, j: nat): seq<Byte> {
    if Reaches(w, k, j) then CameBy(w, e, k) else []
  }

  function Got(w: World, run: seq<Event>, k: Key, j: nat): seq<Byte> {
    if run == [] then []
    else
      var front := run[..|run| - 1];
      Got(w, front, k, j) + GotBy(Exec(w, front), run[|run| - 1], k, j)
  }

  /** Stream `j` is the first under the key, or will be. */
  predicate FirstOrNone(w: World, k: Key, j: nat) {
    IsFirst(w, k, j) || (NoReceiver(w, k) && j >= |w.streams|)
  }

  /** What a stream got is what was read, what can be read and what waits; closing it drops the rest. */
  predicate Holds(p: Peer, got: seq<Byte>, read: seq<Byte>) {
    if p.status == Closed then read <= got && p.ready == [] && p.pending == []
    else got == read + p.ready + Contents(p.pending)
  }

  /** Everything that comes under the key goes to its first stream as long as that is in the table. */
  predicate OneStream(w: World, k: Key, j: nat, came: seq<Byte>, got: seq<Byte>, read: seq<Byte>) {
    if NoReceiver(w, k) then came == [] && got == [] && read == []
    else
      && j < |w.streams| && got <= came && Holds(w.streams[j], got, read)
      && (k in w.table ==> w.table[k] >= j && (w.table[k] == j ==> got == came))
  }

  lemma FirstBack(w: World, e: Event, k: Key, j: nat)
    requires FirstOrNone(Stepped(w, e), k, j)
    ensures FirstOrNone(w, k, j)
  {
    hide Stepped;
    hide MayPost;
    SteppedKeeps(w, e);
    var r := Stepped(w, e);
    if NoReceiver(r, k) {
      ReceiversBack(w, r, k);
    } else if j < |w.streams| {
      assert SameName(w.streams[j], r.streams[j]);
      forall i | 0 <= i < j ensures !Receives(w.streams[i], k) {
        assert SameName(w.streams[i], r.streams[i]) && !Receives(r.streams[i], k);
      }
    } else {
      forall i | 0 <= i < |w.streams| ensures !Receives(w.streams[i], k) {
        assert SameName(w.streams[i], r.streams[i]) && !Receives(r.streams[i], k);
      }
    }
  }

  lemma HoldsFilled(p: Peer, x: Parcel, got: seq<Byte>, read: seq<Byte>)
    requires Holds(p, got, read) && p.status != Closed
    ensures Holds(Filled(p, x), got + x.bytes, read)
  {
    ContentsAppend(p.pending, x);
    assert (read + p.ready + Contents(p.pending)) + x.bytes == read + p.ready + (Contents(p.pending) + x.bytes);
  }

  lemma HoldsParted(p: Peer, got: seq<Byte>, read: seq<Byte>)
    requires Holds(p, got, read)
    ensures Holds(HalfClose(p), got, read)
  {
  }

  lemma HoldsPulled(p: Peer, got: seq<Byte>, read: seq<Byte>)
    requires Holds(p, got, read)
    ensures Holds(Pulled(p), got, read)
  {
    assert read + (p.ready + Contents(p.pending)) + [] == read + p.ready + Contents(p.pending);
  }

  lemma HoldsTaken(p: Peer, n: nat, got: seq<Byte>, read: seq<Byte>)
    requires Holds(p, got, read) && n <= |p.ready|
    ensures Holds(p.(ready := p.ready[n..]), got, read + p.ready[..n])
  {
    var c := Contents(p.pending);
    hide Contents;
    assert p.ready == p.ready[..n] + p.ready[n..];
    assert read + (p.ready[..n] + p.ready[n..]) + c == (read + p.ready[..n]) + p.ready[n..] + c;
    if p.status == Closed { assert read + [] == read; }
  }

  lemma HoldsUsed(p: Peer, op: Q.Op, got: seq<Byte>, read: seq<Byte>)
    requires Holds(p, got, read) && Usable(op)
    ensures var n := if (op.Read? || op.Skip?) && op.size <= |p.ready| then op.size else 0;
            Holds(p.(ready := Q.Next(p.ready, op)), got, read + p.ready[..n])
  {
    hide Holds;
    var n := if (op.Read? || op.Skip?) && op.size <= |p.ready| then op.size else 0;
    HoldsTaken(p, n, got, read);
    assert p.ready[0..] == p.ready;
  }

  lemma HoldsClosed(p: Peer, got: seq<Byte>, read: seq<Byte>)
    requires Holds(p, got, read)
    ensures Holds(ClosedPeer(p), got, read)
  {
  }

  /** Only what is read, received or dropped matters. */
  lemma HoldsSame(p: Peer, q: Peer, got: seq<Byte>, read: seq<Byte>)
    requires Holds(p, got, read) && q.ready == p.ready && q.pending == p.pending && q.status == p.status
    ensures Holds(q, got, read)
  {
  }

  lemma OnStreamHolds(w: World, i: nat, c: StreamAction, heap: bool, got: seq<Byte>, read: seq<Byte>)
    requires i < |w.streams| && Holds(w.streams[i], got, read)
    ensures var r := OnStream(w, i, c, heap);
            i < |r.streams| && Holds(r.streams[i], got, read + ReadBy(w, Event(OfStream(i, c), heap), i))
  {
    hide Holds;
    var p := w.streams[i];
    assert read + [] == read;
    match c
    case Write(x) => HoldsSame(p, p.(out := p.out + x.bytes), got, read);
    case Flush => HoldsSame(p, Flushed(w, i, heap).streams[i], got, read);
    case Retry => HoldsSame(p, Retried(w, i).streams[i], got, read);
    case Pull => HoldsPulled(p, got, read);
    case Use(op) => if Usable(op) { HoldsUsed(p, op, got, read); assert p.ready[..0] == []; }
    case Close =>
      ShutKeeps(w, i);
      HoldsClosed(p, got, read);
  }

  /** Nothing comes for a key without a receiver but what opens one. */
  lemma NothingForNobody(w: World, e: Event, k: Key)
    requires NoReceiver(w, k) && TableOk(w) && Born(w, k.1) && Traffic(w, k)
    ensures k !in w.table
    ensures k.0 ==> CameBy(w, e, k) == []
  {
    NotTabled(w, k);
    if k.0 { NoSenderBack(w, k); }
  }

  lemma NotTabled(w: World, k: Key)
    requires NoReceiver(w, k) && TableOk(w)
    ensures k !in w.table
  {
  }

  lemma NoSenderBack(w: World, k: Key)
    requires k.0 && NoReceiver(w, k) && Born(w, k.1)
    ensures NoSender(w, k)
  {
    assert k == (true, k.1);
    forall i | 0 <= i < |w.streams| ensures !Sends(w.streams[i], k) {
      assert !Receives(w.streams[i], (false, k.1));
    }
  }

  /** An arrival, from the point of view of one stream. */
  lemma ArrivedAt(w: World, q: Key, x: Parcel, k: Key, j: nat, came: seq<Byte>, got: seq<Byte>, read: seq<Byte>)
    requires TableOk(w) && OneStream(w, k, j, came, got, read) && FirstOrNone(Arrived(w, q, x), k, j)
    requires q == k && k.0 ==> !NoReceiver(w, k)
    ensures var y := if q == k then x.bytes else [];
            OneStream(Arrived(w, q, x), k, j, came + y, got + (if Reaches(w, k, j) then y else []), read)
  {
    hide Holds;
    var r := Arrived(w, q, x);
    Nothing();
    if NoReceiver(w, k) {
      NotTabled(w, k);
      if q == k {
        assert Receives(r.streams[|w.streams|], k);
        EmptyHolds(k);
        HoldsFilled(Fresh(k.0, k.1), x, [], []);
        assert [] + x.bytes == x.bytes;
      } else {
        NewOfOther(w, q, x, k);
      }
    } else {
      assert !NoReceiver(r, k) by { KeepsReceiver(w, r, k, q, x); }
      if q in w.table && w.table[q] == j {
        assert Receives(w.streams[j], q);
        FirstReceives(w, r, k, j, q, x);
        HoldsFilled(w.streams[j], x, got, read);
      }
    }
  }

  lemma FirstReceives(w: World, r: World, k: Key, j: nat, q: Key, x: Parcel)
    requires r == Arrived(w, q, x) && FirstOrNone(r, k, j) && !NoReceiver(r, k) && j < |w.streams|
    requires Receives(w.streams[j], q)
    ensures q == k
  {
    ArrivedKeeps(w, q, x);
    assert SameName(w.streams[j], r.streams[j]);
    assert Receives(r.streams[j], k);
  }

  lemma KeepsReceiver(w: World, r: World, k: Key, q: Key, x: Parcel)
    requires r == Arrived(w, q, x) && !NoReceiver(w, k)
    ensures !NoReceiver(r, k)
  {
    ArrivedKeeps(w, q, x);
    var i :| 0 <= i < |w.streams| && Receives(w.streams[i], k);
    assert SameName(w.streams[i], r.streams[i]);
    assert Receives(r.streams[i], k);
  }

  lemma NewOfOther(w: World, q: Key, x: Parcel, k: Key)
    requires NoReceiver(w, k) && q != k
    ensures NoReceiver(Arrived(w, q, x), k)
  {
    ArrivedKeeps(w, q, x);
    var r := Arrived(w, q, x);
    forall i | 0 <= i < |r.streams| ensures !Receives(r.streams[i], k) {
      if i < |w.streams| { assert SameName(w.streams[i], r.streams[i]) && !Receives(w.streams[i], k); }
    }
  }

  lemma EmptyHolds(k: Key)
    ensures Holds(Fresh(k.0, k.1), [], [])
  {
  }

  lemma PartedAt(w: World, q: Key, k: Key, j: nat, came: seq<Byte>, got: seq<Byte>, read: seq<Byte>)
    requires OneStream(w, k, j, came, got, read)
    ensures OneStream(Parted(w, q), k, j, came, got, read)
  {
    hide Holds;
    PartedKeeps(w, q);
    var r := Parted(w, q);
    SameReceivers(w, r, k);
    if !NoReceiver(w, k) && q in w.table && w.table[q] == j { HoldsParted(w.streams[j], got, read); }
  }

  lemma SameReceivers(w: World, r: World, k: Key)
    requires SameStreams(w.streams, r.streams) && |r.streams| == |w.streams|
    ensures NoReceiver(r, k) <==> NoReceiver(w, k)
  {
    assert forall i | 0 <= i < |w.streams| :: SameName(w.streams[i], r.streams[i]);
    if NoReceiver(r, k) { ReceiversBack(w, r, k); }
    if NoReceiver(w, k) {
      forall i | 0 <= i < |r.streams| ensures !Receives(r.streams[i], k) { assert !Receives(w.streams[i], k); }
    }
  }

  lemma OnStreamAt(w: World, i: nat, c: StreamAction, heap: bool, k: Key, j: nat, came: seq<Byte>, got: seq<Byte>, read: seq<Byte>)
    requires i < |w.streams| && OneStream(w, k, j, came, got, read) && (NoReceiver(w, k) ==> j >= |w.streams|)
    ensures OneStream(OnStream(w, i, c, heap), k, j, came, got, read + ReadBy(w, Event(OfStream(i, c), heap), j))
  {
    hide Holds;
    hide OnStream;
    hide HandsOver;
    hide MayPost;
    OnStreamKeeps(w, i, c, heap);
    var r := OnStream(w, i, c, heap);
    OnlyAtSame(w.streams, r.streams, i);
    SameReceivers(w, r, k);
    Nothing();
    if !NoReceiver(w, k) && i == j { OnStreamHolds(w, i, c, heap, got, read); }
  }

  /** The same world but for its channels. */
  lemma ChannelsAside(w: World, r: World, k: Key, j: nat, came: seq<Byte>, got: seq<Byte>, read: seq<Byte>)
    requires OneStream(w, k, j, came, got, read) && r.streams == w.streams && r.table == w.table
    ensures OneStream(r, k, j, came, got, read)
  {
  }

  lemma TableAside(w: World, q: Key, k: Key, j: nat, came: seq<Byte>, got: seq<Byte>, read: seq<Byte>)
    requires OneStream(w, k, j, came, got, read)
    ensures OneStream(w.(table := w.table - {q}), k, j, came, got, read)
  {
    hide Holds;
  }

  lemma OpenAt(w: World, id: nat, k: Key, j: nat, came: seq<Byte>, got: seq<Byte>, read: seq<Byte>)
    requires TableOk(w) && OneStream(w, k, j, came, got, read) && (true, id) !in w.table
    requires FirstOrNone(NewStream(w, Fresh(true, id)), k, j)
    ensures OneStream(NewStream(w, Fresh(true, id)), k, j, came, got, read)
  {
    hide Holds;
    var r := NewStream(w, Fresh(true, id));
    if NoReceiver(w, k) {
      if k == (true, id) {
        assert Receives(r.streams[|w.streams|], k);
        EmptyHolds(k);
      } else {
        NotTabled(w, k);
        forall i | 0 <= i < |r.streams| ensures !Receives(r.streams[i], k) {
          if i < |w.streams| { assert r.streams[i] == w.streams[i]; }
        }
      }
    } else {
      var i :| 0 <= i < |w.streams| && Receives(w.streams[i], k);
      assert r.streams[i] == w.streams[i];
    }
  }

  lemma PolledAt(w: World, side: bool, k: Key, j: nat, came: seq<Byte>, got: seq<Byte>, read: seq<Byte>)
    requires TableOk(w) && OneStream(w, k, j, came, got, read) && FirstOrNone(Polled(w, side), k, j)
    requires k.0 && NoReceiver(w, k) ==> CameBy(w, Event(Poll(side), false), k) == [] && Mailbox(w, k) == []
    ensures var e := Event(Poll(side), false);
            OneStream(Polled(w, side), k, j, came + CameBy(w, e, k), got + GotBy(w, e, k, j), read)
  {
    hide OneStream;
    hide FirstOrNone;
    hide Arrived;
    hide Parted;
    Nothing();
    var ring := w.rings.At(side);
    if ring != [] {
      var rest := w.(rings := w.rings.Set(side, ring[1..]));
      ChannelsAside(w, rest, k, j, came, got, read);
      match ring[0]
      case Letter(id, bytes) =>
        if (side, id) == k && k.0 && NoReceiver(w, k) {
          assert false;
        } else {
          ArrivedAt(rest, (side, id), Parcel(bytes, false), k, j, came, got, read);
        }
      case Farewell(id) => PartedAt(rest, (side, id), k, j, came, got, read);
    }
  }

  lemma DeliveredAt(w: World, side: bool, k: Key, j: nat, came: seq<Byte>, got: seq<Byte>, read: seq<Byte>)
    requires TableOk(w) && OneStream(w, k, j, came, got, read) && FirstOrNone(Delivered(w, side), k, j)
    requires k.0 && NoReceiver(w, k) ==> Postbag(w, k) == []
    ensures var e := Event(Deliver(side), false);
            OneStream(Delivered(w, side), k, j, came + CameBy(w, e, k), got + GotBy(w, e, k, j), read)
  {
    hide OneStream;
    hide FirstOrNone;
    hide Arrived;
    hide Parted;
    Nothing();
    var wire := w.wires.At(side);
    if wire != [] {
      var rest := w.(wires := w.wires.Set(side, wire[1..]));
      ChannelsAside(w, rest, k, j, came, got, read);
      match wire[0]
      case Data(id, bytes) =>
        if (side, id) == k && k.0 && NoReceiver(w, k) {
          assert false;
        } else {
          ArrivedAt(rest, (side, id), Parcel(bytes, true), k, j, came, got, read);
        }
      case Bye(id) =>
        PartedAt(rest, (side, id), k, j, came, got, read);
        PartedKeeps(rest, (side, id));
        TableAside(Parted(rest, (side, id)), (side, id), k, j, came, got, read);
    }
  }

  lemma OneStreamStep(w: World, e: Event, k: Key, j: nat, came: seq<Byte>, got: seq<Byte>, read: seq<Byte>)
    requires OneStream(w, k, j, came, got, read) && TableOk(w) && Born(w, k.1) && Traffic(w, k)
    requires FirstOrNone(Stepped(w, e), k, j)
    ensures OneStream(Stepped(w, e), k, j, came + CameBy(w, e, k), got + GotBy(w, e, k, j), read + ReadBy(w, e, j))
  {
    hide OneStream;
    FirstBack(w, e, k, j);
    hide FirstOrNone;
    hide Polled;
    hide Delivered;
    hide OnStream;
    Nothing();
    if k.0 && NoReceiver(w, k) { NoSenderBack(w, k); }
    match e.a
    case Open(id) => if (true, id) !in w.table { OpenAt(w, id, k, j, came, got, read); }
    case Poll(side) => PolledAt(w, side, k, j, came, got, read);
    case Deliver(side) => DeliveredAt(w, side, k, j, came, got, read);
    case OfStream(i, c) =>
      if i < |w.streams| {
        NoneIsLater(w, k, j);
        OnStreamAt(w, i, c, e.heap, k, j, came, got, read);
      }
  }

  lemma NoneIsLater(w: World, k: Key, j: nat)
    requires FirstOrNone(w, k, j)
    ensures NoReceiver(w, k) ==> j >= |w.streams|
  {
  }

  // ---------------------------------------------------------------------------------------------
  // Whole runs
  // ---------------------------------------------------------------------------------------------

  predicate Good(w: World, k: Key, j: nat, sent: seq<Byte>, came: seq<Byte>, got: seq<Byte>, read: seq<Byte>) {
    && Flow(w, k, sent, came) && Channel(w, k) && TableOk(w) && Traffic(w, k) && Traffic(w, (false, k.1)) && Born(w, k.1)
    && OneStream(w, k, j, came, got, read)
  }

  lemma {:induction false} RunGood(w: World, run: seq<Event>, k: Key, j: nat)
    requires Init(w) && AlwaysInTurn(w, run, k) && OneSender(Exec(w, run), k) && FirstOrNone(Exec(w, run), k, j)
    ensures Good(Exec(w, run), k, j, Sent(w, run, k), Came(w, run, k), Got(w, run, k, j), Read(w, run, j))
    decreases |run|
  {
    if run == [] {
      Nothing();
    } else {
      var front, e := run[..|run| - 1], run[|run| - 1];
      var u := Exec(w, front);
      hide Stepped;
      OneSenderBack(u, e, k);
      FirstBack(u, e, k, j);
      RunGood(w, front, k, j);
      hide Flow;
      hide Channel;
      hide TableOk;
      hide Traffic;
      hide Born;
      hide OneStream;
      hide OneSender;
      hide FirstOrNone;
      hide InTurn;
      FlowStep(u, e, k, Sent(w, front, k), Came(w, front, k));
      ChannelStep(u, e, k);
      SteppedKeeps(u, e);
      TrafficStep(u, e, k);
      TrafficStep(u, e, (false, k.1));
      BornStep(u, e, k.1);
      OneStreamStep(u, e, k, j, Came(w, front, k), Got(w, front, k, j), Read(w, front, j));
    }
  }

  /** In every run in which the frames of a key are taken in turn, whatever is read from the first stream
      under it is, if it has one sender, a prefix of what that sender flushed, in order; and as long as the stream is in
      the table nothing is missing: the rest can be read, waits with it, or is in the ring or on the
      wire. */
  lemma BytesInOrder(w: World, run: seq<Event>, k: Key, j: nat)
    requires Init(w) && AlwaysInTurn(w, run, k) && OneSender(Exec(w, run), k) && IsFirst(Exec(w, run), k, j)
    ensures Read(w, run, j) <= Sent(w, run, k)
    ensures var e := Exec(w, run);
            k in e.table && e.table[k] == j ==>
              Sent(w, run, k) == Read(w, run, j) + e.streams[j].ready + Contents(e.streams[j].pending)
                                 + Join(Mailbox(e, k)) + Join(Postbag(e, k))
  {
    hide Good;
    hide Sent;
    hide Came;
    hide Got;
    hide Read;
    hide Exec;
    RunGood(w, run, k, j);
    GoodLaw(Exec(w, run), k, j, Sent(w, run, k), Came(w, run, k), Got(w, run, k, j), Read(w, run, j));
  }

  lemma GoodLaw(w: World, k: Key, j: nat, sent: seq<Byte>, came: seq<Byte>, got: seq<Byte>, read: seq<Byte>)
    requires Good(w, k, j, sent, came, got, read) && IsFirst(w, k, j)
    ensures read <= sent
    ensures k in w.table && w.table[k] == j ==>
              sent == read + w.streams[j].ready + Contents(w.streams[j].pending) + Join(Mailbox(w, k)) + Join(Postbag(w, k))
  {
    hide Mailbox;
    hide Postbag;
    hide Join;
    hide Contents;
    hide Channel;
    hide Traffic;
    hide Born;
    var p, m, f := w.streams[j], Join(Mailbox(w, k)), Join(Postbag(w, k));
    assert Receives(p, k) && !NoReceiver(w, k);
    assert got <= came && Holds(p, got, read);
    assert sent == came + m + f;
    Prefixes(read, got, came, sent, p.ready, Contents(p.pending), m, f);
    if k in w.table && w.table[k] == j { assert p.status != Closed; }
  }

  lemma Prefixes(read: seq<Byte>, got: seq<Byte>, came: seq<Byte>, sent: seq<Byte>, a: seq<Byte>, b: seq<Byte>,
                 m: seq<Byte>, f: seq<Byte>)
    requires got <= came && sent == came + m + f && (read <= got || got == read + a + b)
    ensures read <= sent
  {
    assert came + m + f == came + (m + f);
    if got == read + a + b { assert read + a + b == read + (a + b); }
  }
}
