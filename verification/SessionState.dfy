/** The state of two endpoints as values: streams and their table, rings and wires, what waits where,
    and what an arrival, a close or a flush does to them. */
module SessionState {
  import opened Basics
  import opened Bytes
  import opened LinkedBuffers
  import opened EndToEnd
  import opened QueueRefinement
  import opened Conservation
  import opened Arenas
  import opened SessionParts

  /** `BufferSliceWrapper`: a chain in shared memory, or bytes that came over the socket. */
  datatype Wrapper = Shm(root: nat) | Heap(bytes: seq<Byte>)

  /** A ring element; a close carries no chain. */
  datatype Elem = Message(id: nat, root: nat) | Goodbye(id: nat)

  /** `retry` counts the attempts of a flush that waits for room in the ring. */
  datatype Stream = Stream(client: bool, id: nat, status: Status, fallback: bool, pending: seq<Wrapper>,
                           retry: Option<nat>)

  // ---------------------------------------------------------------------------------------------
  // Where messages wait
  // ---------------------------------------------------------------------------------------------

  function RingRoots(ring: seq<Elem>): multiset<nat> {
    if ring == [] then multiset{}
    else (if ring[0].Message? then multiset{ring[0].root} else multiset{}) + RingRoots(ring[1..])
  }

  function WaitRoots(pending: seq<Wrapper>): multiset<nat> {
    if pending == [] then multiset{}
    else (if pending[0].Shm? then multiset{pending[0].root} else multiset{}) + WaitRoots(pending[1..])
  }

  function PendingRoots(streams: seq<Stream>): multiset<nat> {
    if streams == [] then multiset{} else WaitRoots(streams[0].pending) + PendingRoots(streams[1..])
  }

  lemma {:induction false} RingConcat(a: seq<Elem>, b: seq<Elem>)
    ensures RingRoots(a + b) == RingRoots(a) + RingRoots(b)
  {
    if a == [] {
      assert a + b == b;
    } else {
      assert (a + b)[1..] == a[1..] + b;
      RingConcat(a[1..], b);
    }
  }

  lemma RingPut(ring: seq<Elem>, e: Elem)
    ensures RingRoots(ring + [e]) == RingRoots(ring) + (if e.Message? then multiset{e.root} else multiset{})
  {
    RingConcat(ring, [e]);
    assert [e][1..] == [];
  }

  lemma {:induction false} WaitConcat(a: seq<Wrapper>, b: seq<Wrapper>)
    ensures WaitRoots(a + b) == WaitRoots(a) + WaitRoots(b)
  {
    if a == [] {
      assert a + b == b;
    } else {
      assert (a + b)[1..] == a[1..] + b;
      WaitConcat(a[1..], b);
    }
  }

  lemma WaitPut(pending: seq<Wrapper>, w: Wrapper)
    ensures WaitRoots(pending + [w]) == WaitRoots(pending) + (if w.Shm? then multiset{w.root} else multiset{})
  {
    WaitConcat(pending, [w]);
    assert [w][1..] == [];
  }

  lemma {:induction false} PendingAt(streams: seq<Stream>, i: nat, s: Stream)
    requires i < |streams|
    ensures PendingRoots(streams[i := s]) + WaitRoots(streams[i].pending) == PendingRoots(streams) + WaitRoots(s.pending)
  {
    var more := streams[i := s];
    if i == 0 {
      assert more[1..] == streams[1..];
    } else {
      assert more[1..] == streams[1..][i - 1 := s];
      PendingAt(streams[1..], i - 1, s);
      var first, old1, new1 := WaitRoots(streams[0].pending), WaitRoots(streams[i].pending), WaitRoots(s.pending);
      assert PendingRoots(more) + old1 == first + (PendingRoots(more[1..]) + old1);
      assert PendingRoots(streams) + new1 == first + (PendingRoots(streams[1..]) + new1);
    }
  }

  lemma {:induction false} PendingNew(streams: seq<Stream>, s: Stream)
    requires s.pending == []
    ensures PendingRoots(streams + [s]) == PendingRoots(streams)
  {
    var more := streams + [s];
    if streams == [] {
      assert more[1..] == [];
    } else {
      assert more[1..] == streams[1..] + [s];
      PendingNew(streams[1..], s);
    }
  }

  /** Everything that waits in a ring or with a stream. */
  function Waiting(rings: Duo<seq<Elem>>, streams: seq<Stream>): multiset<nat> {
    RingRoots(rings.client) + RingRoots(rings.server) + PendingRoots(streams)
  }

  /** Taking one message out of flight. */
  lemma KeysWithout(loose: multiset<nat>, rest: multiset<nat>, keys: set<nat>, r: nat)
    requires (loose + multiset{r}) + rest == multiset(keys)
    ensures r in keys && loose + rest == multiset(keys - {r})
  {
    assert ((loose + multiset{r}) + rest)[r] >= 1;
    assert loose + rest == multiset(keys) - multiset{r};
  }

  lemma KeysWith(loose: multiset<nat>, rest: multiset<nat>, keys: set<nat>, r: nat)
    requires loose + rest == multiset(keys) && r !in keys
    ensures loose + (rest + multiset{r}) == multiset(keys + {r})
  {
    assert multiset(keys + {r}) == multiset(keys) + multiset{r};
    assert loose + (rest + multiset{r}) == (loose + rest) + multiset{r};
  }

  /** One stream's share changed from `v` to `w`, and with it the total from `p` to `q`. */
  lemma Balance(r: multiset<nat>, p: multiset<nat>, q: multiset<nat>, v: multiset<nat>, w: multiset<nat>,
                d: multiset<nat>)
    requires q + v == p + w
    ensures w == multiset{} ==> r + p == v + (r + q)
    ensures w == v + d ==> r + q == (r + p) + d
  {
    if w == multiset{} {
      assert r + p == r + (q + v);
      assert r + (q + v) == v + (r + q);
    }
    if w == v + d {
      assert (q + v) - v == q;
      assert (p + (v + d)) - v == p + d;
      assert r + (p + d) == (r + p) + d;
    }
  }

  lemma NoRoots()
    ensures WaitRoots([]) == multiset{} && RingRoots([]) == multiset{}
  {
  }

  lemma WaitFrom(pending: seq<Wrapper>, n: nat)
    requires n < |pending|
    ensures WaitRoots(pending[n..]) ==
            (if pending[n].Shm? then multiset{pending[n].root} else multiset{}) + WaitRoots(pending[n + 1..])
  {
    assert pending[n..][1..] == pending[n + 1..];
  }

  /** A stream's pending list is emptied into the hands of the caller. */
  lemma SwapOut(rings: Duo<seq<Elem>>, streams: seq<Stream>, i: nat, s: Stream)
    requires i < |streams| && s.pending == []
    ensures Waiting(rings, streams) == WaitRoots(streams[i].pending) + Waiting(rings, streams[i := s])
  {
    hide RingRoots;
    hide PendingRoots;
    PendingAt(streams, i, s);
    Balance(RingRoots(rings.client) + RingRoots(rings.server), PendingRoots(streams), PendingRoots(streams[i := s]),
            WaitRoots(streams[i].pending), multiset{}, multiset{});
  }

  lemma PushPending(rings: Duo<seq<Elem>>, streams: seq<Stream>, i: nat, w: Wrapper)
    requires i < |streams|
    ensures Waiting(rings, streams[i := streams[i].(pending := streams[i].pending + [w])]) ==
            Waiting(rings, streams) + (if w.Shm? then multiset{w.root} else multiset{})
  {
    hide RingRoots;
    hide PendingRoots;
    hide WaitRoots;
    var s := streams[i].(pending := streams[i].pending + [w]);
    var d := if w.Shm? then multiset{w.root} else multiset{};
    PendingAt(streams, i, s);
    WaitPut(streams[i].pending, w);
    Balance(RingRoots(rings.client) + RingRoots(rings.server), PendingRoots(streams), PendingRoots(streams[i := s]),
            WaitRoots(streams[i].pending), WaitRoots(s.pending), d);
  }

  /** Anything about a stream but its pending list may change. */
  lemma SamePending(rings: Duo<seq<Elem>>, streams: seq<Stream>, i: nat, s: Stream)
    requires i < |streams| && s.pending == streams[i].pending
    ensures Waiting(rings, streams[i := s]) == Waiting(rings, streams)
  {
    hide RingRoots;
    hide PendingRoots;
    hide WaitRoots;
    PendingAt(streams, i, s);
    var v := WaitRoots(s.pending);
    assert v == v + multiset{};
    Balance(RingRoots(rings.client) + RingRoots(rings.server), PendingRoots(streams), PendingRoots(streams[i := s]),
            v, v, multiset{});
  }

  lemma RingPopped(rings: Duo<seq<Elem>>, streams: seq<Stream>, side: bool)
    requires rings.At(side) != []
    ensures var e := rings.At(side)[0];
            Waiting(rings, streams) == (if e.Message? then multiset{e.root} else multiset{})
                                       + Waiting(rings.Set(side, rings.At(side)[1..]), streams)
  {
  }

  lemma RingPushed(rings: Duo<seq<Elem>>, streams: seq<Stream>, side: bool, e: Elem)
    ensures Waiting(rings.Set(side, rings.At(side) + [e]), streams) ==
            Waiting(rings, streams) + (if e.Message? then multiset{e.root} else multiset{})
  {
    hide PendingRoots;
    RingPut(rings.At(side), e);
  }

  // ---------------------------------------------------------------------------------------------
  // The two endpoints
  // ---------------------------------------------------------------------------------------------

  /** The role of the buffer a stream receives into. */
  function Inbox(s: Stream): Role {
    if s.status == Closed then Retired else Receiving
  }

  /** How a stream relates to the roles of the buffer it sends from and the one it receives into. */
  predicate StreamOk(s: Stream, sending: Role, receiving: Role) {
    && receiving == Inbox(s) && !sending.Inbound()
    && (s.status == Closed ==> s.pending == [])
    && (sending == Flushing ==> s.retry.Some?)
    && (s.retry.Some? && s.status == Opened ==> sending == Flushing)
  }

  /** A change of a stream and of the role of its sending buffer that keeps them in step. */
  predicate Settles(s: Stream, t: Stream, r: Role, q: Role) {
    (s.status == Closed <==> t.status == Closed) && (StreamOk(s, r, Inbox(s)) ==> StreamOk(t, q, Inbox(t)))
  }

  /** Stream `i` sends from buffer 2 i and receives into buffer 2 i + 1. */
  predicate Shaped(streams: seq<Stream>, roles: seq<Role>) {
    && |roles| == 2 * |streams|
    && forall i | 0 <= i < |streams| :: StreamOk(streams[i], roles[2 * i], roles[2 * i + 1])
  }

  lemma ShapedAt(streams: seq<Stream>, roles: seq<Role>, i: nat)
    requires Shaped(streams, roles) && i < |streams|
    ensures 2 * i + 1 < |roles| && StreamOk(streams[i], roles[2 * i], roles[2 * i + 1])
  {
  }

  lemma ReceivingRole(streams: seq<Stream>, roles: seq<Role>, i: nat)
    requires Shaped(streams, roles) && i < |streams|
    ensures 2 * i + 1 < |roles| && roles[2 * i + 1] == Inbox(streams[i]) && !roles[2 * i].Inbound()
    ensures streams[i].status == Closed ==> streams[i].pending == []
  {
    ShapedAt(streams, roles, i);
  }

  lemma ShapedSet(streams: seq<Stream>, roles: seq<Role>, i: nat, s: Stream, r: Role)
    requires Shaped(streams, roles) && i < |streams| && StreamOk(s, r, Inbox(s))
    requires s.status == Closed <==> streams[i].status == Closed
    ensures Shaped(streams[i := s], roles[2 * i := r])
    ensures r == roles[2 * i] ==> Shaped(streams[i := s], roles)
  {
    assert r == roles[2 * i] ==> roles[2 * i := r] == roles;
  }

  lemma ShapedClosed(streams: seq<Stream>, roles: seq<Role>, i: nat)
    requires Shaped(streams, roles) && i < |streams| && streams[i].pending == []
    ensures Shaped(streams[i := streams[i].(status := Closed)], roles[2 * i + 1 := Retired])
  {
  }

  lemma ShapedNew(streams: seq<Stream>, roles: seq<Role>, s: Stream)
    requires Shaped(streams, roles) && s.retry == None && s.status == Opened
    ensures Shaped(streams + [s], roles + [Sending, Receiving])
  {
    var ss, rs := streams + [s], roles + [Sending, Receiving];
    forall i | 0 <= i < |ss| ensures StreamOk(ss[i], rs[2 * i], rs[2 * i + 1]) {
      if i < |streams| { assert StreamOk(streams[i], roles[2 * i], roles[2 * i + 1]); }
    }
  }

  // ---------------------------------------------------------------------------------------------
  // What arrivals do to the streams
  // ---------------------------------------------------------------------------------------------

  /** Data for a stream waits with it; a closed stream keeps none. */
  function Filled(s: Stream, w: Wrapper): Stream {
    if s.status == Closed then s else s.(pending := s.pending + [w])
  }

  function NewStreamOf(client: bool, id: nat): Stream {
    Stream(client, id, Opened, false, [], None)
  }

  /** Data reaches the stream of its id, which a server opens on first contact. */
  function Arrived(streams: seq<Stream>, table: map<(bool, nat), nat>, side: bool, id: nat, w: Wrapper): seq<Stream>
    requires Tabled(table, streams)
  {
    if (side, id) in table then
      var i := table[(side, id)];
      streams[i := Filled(streams[i], w)]
    else if side then streams
    else streams + [Filled(NewStreamOf(side, id), w)]
  }

  /** A server's new stream is in the table. */
  function TableAfter(table: map<(bool, nat), nat>, count: nat, side: bool, id: nat): map<(bool, nat), nat> {
    if (side, id) in table || side then table else table[(side, id) := count]
  }

  function HalfClosedStream(s: Stream): Stream {
    if s.status == Opened then s.(status := HalfClosed) else s
  }

  function Parted(streams: seq<Stream>, table: map<(bool, nat), nat>, side: bool, id: nat): seq<Stream>
    requires Tabled(table, streams)
  {
    if (side, id) in table then
      var i := table[(side, id)];
      streams[i := HalfClosedStream(streams[i])]
    else streams
  }

  function Polled(streams: seq<Stream>, table: map<(bool, nat), nat>, side: bool, e: Elem): seq<Stream>
    requires Tabled(table, streams)
  {
    match e
    case Message(id, root) => Arrived(streams, table, side, id, Shm(root))
    case Goodbye(id) => Parted(streams, table, side, id)
  }

  function Handled(streams: seq<Stream>, table: map<(bool, nat), nat>, side: bool, f: Frame): seq<Stream>
    requires Tabled(table, streams)
  {
    match f
    case Data(id, bytes) => Arrived(streams, table, side, id, Heap(bytes))
    case Bye(id) => Parted(streams, table, side, id)
  }

  /** The rings and the wires after a stream has told its peer that it closes. */
  function Told(s: Stream, cap: nat, rings: Duo<seq<Elem>>, wires: Duo<seq<Frame>>): (Duo<seq<Elem>>, Duo<seq<Frame>>) {
    if !s.fallback && |rings.At(!s.client)| < cap
    then (rings.Set(!s.client, rings.At(!s.client) + [Goodbye(s.id)]), wires)
    else (rings, wires.Set(!s.client, wires.At(!s.client) + [Bye(s.id)]))
  }

  lemma ToldRoots(s: Stream, cap: nat, rings: Duo<seq<Elem>>, wires: Duo<seq<Frame>>)
    ensures var r := Told(s, cap, rings, wires).0;
            RingRoots(r.client) == RingRoots(rings.client) && RingRoots(r.server) == RingRoots(rings.server)
  {
    RingPut(rings.At(!s.client), Goodbye(s.id));
  }

  /** The wires after a text was sent over the socket; one too long for a frame is dropped. */
  function Mailed(s: Stream, text: seq<Byte>, wires: Duo<seq<Frame>>): Duo<seq<Frame>> {
    if |text| <= U32_LIMIT - 1 - 16 then wires.Set(!s.client, wires.At(!s.client) + [Data(s.id, text)]) else wires
  }

  lemma DropsAll(text: seq<Byte>)
    ensures Next(text, Drop) == []
  {
  }

  /** The payloads of what waits with a stream. */
  function Payload(pending: seq<Wrapper>, carried: map<nat, Letter>): seq<Byte> {
    if pending == [] then []
    else Payload(pending[..|pending| - 1], carried) + PayloadOne(pending[|pending| - 1], carried)
  }

  function PayloadOne(w: Wrapper, carried: map<nat, Letter>): seq<Byte> {
    if w.Heap? then w.bytes else if w.root in carried then carried[w.root].bytes else []
  }

  /** Text `k` grew by `more`, the others are as they were. */
  predicate Longer(texts: seq<seq<Byte>>, now: seq<seq<Byte>>, k: nat, more: seq<Byte>) {
    k < |texts| && now == texts[k := texts[k] + more]
  }

  lemma LongerIs(texts: seq<seq<Byte>>, now: seq<seq<Byte>>, k: nat, more: seq<Byte>)
    requires Longer(texts, now, k, more)
    ensures k < |texts| && now == texts[k := texts[k] + more]
  {
  }

  lemma PayloadNone(texts: seq<seq<Byte>>, k: nat, letters: map<nat, Letter>)
    requires k < |texts|
    ensures Longer(texts, texts, k, Payload([], letters))
  {
    assert texts[k] + [] == texts[k];
  }

  lemma PayloadNext(texts: seq<seq<Byte>>, k: nat, waiting: seq<Wrapper>, n: nat, letters: map<nat, Letter>)
    requires k < |texts| && n < |waiting|
    ensures var was := texts[k := texts[k] + Payload(waiting[..n], letters)];
            was[k := was[k] + PayloadOne(waiting[n], letters)] == texts[k := texts[k] + Payload(waiting[..n + 1], letters)]
  {
    hide PayloadOne;
    assert waiting[..n + 1][..n] == waiting[..n];
    var so, one := Payload(waiting[..n], letters), PayloadOne(waiting[n], letters);
    assert Payload(waiting[..n + 1], letters) == so + one;
    assert (texts[k] + so) + one == texts[k] + (so + one);
  }

  /** `now` is what is left of `letters`. */
  predicate Fewer(now: map<nat, Letter>, letters: map<nat, Letter>) {
    forall x | x in now :: x in letters && now[x] == letters[x]
  }

  predicate SomeHeap(pending: seq<Wrapper>) {
    exists i :: 0 <= i < |pending| && pending[i].Heap?
  }

  lemma NoHeap()
    ensures !SomeHeap([])
  {
  }

  lemma HeapNext(waiting: seq<Wrapper>, n: nat)
    requires n < |waiting|
    ensures SomeHeap(waiting[..n + 1]) <==> SomeHeap(waiting[..n]) || waiting[n].Heap?
  {
    var a, b := waiting[..n], waiting[..n + 1];
    assert b[n] == waiting[n] && forall i | 0 <= i < n :: b[i] == a[i];
  }

  lemma FewerSelf(letters: map<nat, Letter>)
    ensures Fewer(letters, letters)
  {
  }

  lemma SamePayload(w: Wrapper, now: map<nat, Letter>, letters: map<nat, Letter>)
    requires Fewer(now, letters)
    requires w.Shm? ==> w.root in now
    ensures PayloadOne(w, now) == PayloadOne(w, letters)
  {
  }

  // ---------------------------------------------------------------------------------------------
  // What a shutdown leaves
  // ---------------------------------------------------------------------------------------------

  /** The sending buffers hold what they held. */
  predicate SameSenders(x: seq<set<nat>>, y: seq<set<nat>>) {
    |x| <= |y| && forall k | 0 <= k < |x| && k % 2 == 0 :: y[k] == x[k]
  }

  /** No stream was closed in between; the new ones are open. */
  predicate SameClosed(a: seq<Stream>, b: seq<Stream>) {
    && |a| <= |b|
    && (forall i | 0 <= i < |a| :: b[i].status == Closed <==> a[i].status == Closed)
    && (forall i | |a| <= i < |b| :: b[i].status != Closed)
  }

  /** What the streams that are closed already hold in their sending buffers. */
  function Leftover(streams: seq<Stream>, owned: seq<set<nat>>): (left: seq<set<nat>>)
    requires |owned| == 2 * |streams|
    ensures |left| == |streams|
  {
    seq(|streams|, j requires 0 <= j < |streams| => if streams[j].status == Closed then owned[2 * j] else {})
  }

  predicate NothingLeft(streams: seq<Stream>, owned: seq<set<nat>>)
    requires |owned| == 2 * |streams|
  {
    forall i | 0 <= i < |streams| && streams[i].status == Closed :: owned[2 * i] == {}
  }

  lemma LeftoverSame(a: seq<Stream>, x: seq<set<nat>>, b: seq<Stream>, y: seq<set<nat>>)
    requires |x| == 2 * |a| && |y| == 2 * |b| && SameClosed(a, b) && SameSenders(x, y)
    ensures NothingLeft(a, x) <==> NothingLeft(b, y)
  {
    forall i | 0 <= i < |a| ensures y[2 * i] == x[2 * i] { assert (2 * i) % 2 == 0; }
    if NothingLeft(b, y) {
      forall i | 0 <= i < |a| && a[i].status == Closed ensures x[2 * i] == {} { assert b[i].status == Closed; }
    }
  }

  lemma SendersSet(x: seq<set<nat>>, k: nat, v: set<nat>)
    requires k < |x| && k % 2 == 1
    ensures SameSenders(x, x[k := v])
  {
  }

  lemma SendersThen(x: seq<set<nat>>, y: seq<set<nat>>, z: seq<set<nat>>)
    requires SameSenders(x, y) && SameSenders(y, z)
    ensures SameSenders(x, z)
  {
  }

  lemma SendersMore(x: seq<set<nat>>)
    ensures SameSenders(x, x + [{}, {}])
  {
  }

  lemma SameSelf(a: seq<Stream>, x: seq<set<nat>>)
    ensures SameClosed(a, a) && SameSenders(x, x)
  {
  }

  lemma SameThen(a: seq<Stream>, b: seq<Stream>, c: seq<Stream>, x: seq<set<nat>>, y: seq<set<nat>>, z: seq<set<nat>>)
    requires SameClosed(a, b) && SameClosed(b, c) && SameSenders(x, y) && SameSenders(y, z)
    ensures SameClosed(a, c) && SameSenders(x, z)
  {
  }

  lemma PolledClosed(streams: seq<Stream>, table: map<(bool, nat), nat>, side: bool, e: Elem)
    requires Tabled(table, streams)
    ensures SameClosed(streams, Polled(streams, table, side, e))
  {
  }

  /** The first `n` streams hold nothing but what was left to them. */
  predicate Emptied(streams: seq<Stream>, owned: seq<set<nat>>, left: seq<set<nat>>, n: nat) {
    && n <= |streams| == |left| && |owned| == 2 * |streams|
    && (forall j | 0 <= j < n :: streams[j].pending == [] && owned[2 * j] == left[j] && owned[2 * j + 1] == {})
    && (forall j | n <= j < |streams| :: left[j] == if streams[j].status == Closed then owned[2 * j] else {})
  }

  lemma EmptiedClosed(streams: seq<Stream>, owned: seq<set<nat>>, left: seq<set<nat>>, i: nat)
    requires i < |streams| && Emptied(streams, owned, left, i) && streams[i].pending == [] && streams[i].status == Closed
    ensures Emptied(streams, owned[2 * i + 1 := {}], left, i + 1)
  {
  }

  lemma EmptiedNext(streams: seq<Stream>, owned: seq<set<nat>>, left: seq<set<nat>>, i: nat, s: Stream, x: set<nat>)
    requires i < |streams| && Emptied(streams, owned, left, i) && s.pending == [] && streams[i].status != Closed
    ensures Emptied(streams[i := s], owned[2 * i + 1 := x][2 * i + 1 := {}][2 * i := {}], left, i + 1)
  {
  }

  lemma EmptiedFirst(streams: seq<Stream>, owned: seq<set<nat>>)
    requires |owned| == 2 * |streams|
    ensures Emptied(streams, owned, Leftover(streams, owned), 0)
  {
  }

  lemma {:induction false} NonePending(streams: seq<Stream>)
    requires forall j | 0 <= j < |streams| :: streams[j].pending == []
    ensures PendingRoots(streams) == multiset{}
  {
    if streams != [] {
      NonePending(streams[1..]);
    }
  }

  lemma EmptiedAll(streams: seq<Stream>, owned: seq<set<nat>>, left: seq<set<nat>>)
    requires Emptied(streams, owned, left, |streams|)
    ensures PendingRoots(streams) == multiset{}
    ensures (forall k | 0 <= k < |owned| :: owned[k] == {}) <==> (forall j | 0 <= j < |left| :: left[j] == {})
  {
    NonePending(streams);
    if forall j | 0 <= j < |left| :: left[j] == {} {
      forall k | 0 <= k < |owned| ensures owned[k] == {} {
        var j := k / 2;
        assert streams[j].pending == [] && (k == 2 * j || k == 2 * j + 1);
      }
    }
    if forall k | 0 <= k < |owned| :: owned[k] == {} {
      forall j | 0 <= j < |left| ensures left[j] == {} { assert streams[j].pending == []; }
    }
  }

  lemma LeftoverNone(streams: seq<Stream>, owned: seq<set<nat>>)
    requires |owned| == 2 * |streams|
    ensures NothingLeft(streams, owned) <==>
            (forall j | 0 <= j < |streams| :: Leftover(streams, owned)[j] == {})
  {
    var left := Leftover(streams, owned);
    if forall j | 0 <= j < |streams| :: left[j] == {} {
      forall i | 0 <= i < |streams| && streams[i].status == Closed ensures owned[2 * i] == {} {
        assert left[i] == owned[2 * i];
      }
    }
  }

  predicate Tabled(table: map<(bool, nat), nat>, streams: seq<Stream>) {
    forall k | k in table :: table[k] < |streams| && streams[table[k]].client == k.0 && streams[table[k]].id == k.1
  }

  lemma TabledSet(table: map<(bool, nat), nat>, streams: seq<Stream>, i: nat, s: Stream)
    requires Tabled(table, streams) && i < |streams| && s.client == streams[i].client && s.id == streams[i].id
    ensures Tabled(table, streams[i := s])
  {
  }

  lemma TabledNew(table: map<(bool, nat), nat>, streams: seq<Stream>, s: Stream)
    requires Tabled(table, streams)
    ensures Tabled(table[(s.client, s.id) := |streams|], streams + [s])
  {
  }

  lemma NoneWaiting(rings: Duo<seq<Elem>>, streams: seq<Stream>, s: Stream)
    requires s.pending == []
    ensures Waiting(rings, streams + [s]) == Waiting(rings, streams)
  {
    PendingNew(streams, s);
  }

  lemma NoKeys(carried: map<nat, Letter>)
    ensures carried == map[] <==> multiset(carried.Keys) == multiset{}
  {
    if carried != map[] {
      var r :| r in carried;
      assert multiset(carried.Keys)[r] == 1;
    }
  }
}
