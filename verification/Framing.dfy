/** Event frames on the socket, and the loop that reads them through a compacting buffer. */
module Framing {
  import opened Bytes

  const MAGIC := 0x7758
  const HEADER_SIZE := 8

  /** What a session sends over the socket once the handshake is over. */
  datatype Event =
    | Polling(version: Byte)
    | StreamClose(version: Byte, id: nat)
    | FallbackData(version: Byte, id: nat, status: nat, payload: seq<Byte>)

  datatype Fault = NoFault | InvalidVersion | InvalidMsgType

  // ---------------------------------------------------------------------------------------------
  // Frames
  // ---------------------------------------------------------------------------------------------

  function Header(length: nat, version: Byte, msgType: Byte): (h: seq<Byte>)
    ensures |h| == HEADER_SIZE
  {
    Big(length, 4) + Big(MAGIC, 2) + [version, msgType]
  }

  function Encode(e: Event): (b: seq<Byte>)
    ensures |b| >= HEADER_SIZE
  {
    match e
    case Polling(v) => Header(HEADER_SIZE, v, 1)
    case StreamClose(v, id) => Header(12, v, 2) + Big(id, 4)
    case FallbackData(v, id, status, payload) =>
      Header(16 + |payload|, v, 3) + Big(id, 4) + Big(status, 4) + payload
  }

  /** The field widths of the format. */
  predicate Encodable(e: Event) {
    && e.version != 0
    && (e.Polling? || e.id < U32_LIMIT)
    && (e.FallbackData? ==> e.status < U32_LIMIT && 16 + |e.payload| < U32_LIMIT)
  }

  /** What the handlers are told: of a status word only the low byte counts. */
  function Told(e: Event): Event {
    if e.FallbackData? then e.(status := e.status % 256) else e
  }

  function EncodeAll(events: seq<Event>): seq<Byte> {
    if events == [] then [] else Encode(events[0]) + EncodeAll(events[1..])
  }

  function TellAll(events: seq<Event>): seq<Event> {
    seq(|events|, i requires 0 <= i < |events| => Told(events[i]))
  }

  /** How many frames lie entirely in the first `n` bytes. */
  function Complete(events: seq<Event>, n: nat): (k: nat)
    ensures k <= |events|
  {
    if events == [] || n < |Encode(events[0])| then 0
    else 1 + Complete(events[1..], n - |Encode(events[0])|)
  }

  // ---------------------------------------------------------------------------------------------
  // One frame
  // ---------------------------------------------------------------------------------------------

  datatype Scan = Short(need: nat) | Frame(event: Event, used: nat) | Bad(fault: Fault)

  function LengthOf(b: seq<Byte>): nat
    requires |b| >= HEADER_SIZE
  {
    FromBig(b[..4])
  }

  /** A data frame with a good header announces at least its own sixteen bytes of header. */
  predicate Roomy(b: seq<Byte>)
    requires |b| >= HEADER_SIZE
  {
    FaultOf(b) == NoFault && b[7] == 3 ==> LengthOf(b) >= 16
  }

  /** `check_event_valid`, then the handler for the frame's type. */
  function ScanOne(b: seq<Byte>): Scan
    requires |b| >= HEADER_SIZE && Roomy(b)
  {
    if FromBig(b[4..6]) != MAGIC || b[6] == 0 then Bad(InvalidVersion)
    else if b[7] > 9 then Bad(InvalidMsgType)
    else if b[7] == 1 then Frame(Polling(b[6]), HEADER_SIZE)
    else if b[7] == 2 then
      if |b| < 12 then Short(12) else Frame(StreamClose(b[6], FromBig(b[8..12])), 12)
    else if b[7] == 3 then
      MagicBytes(b[4..6]);
      var n := LengthOf(b);
      if |b| < n then Short(n)
      else Frame(FallbackData(b[6], FromBig(b[8..12]), FromBig(b[12..16]) % 256, b[16..n]), n)
    else Bad(InvalidMsgType)
  }

  lemma HeaderFields(b: seq<Byte>, length: nat, version: Byte, msgType: Byte)
    requires |b| >= HEADER_SIZE && b[..HEADER_SIZE] == Header(length, version, msgType) && length < U32_LIMIT
    ensures LengthOf(b) == length && FromBig(b[4..6]) == MAGIC && b[6] == version && b[7] == msgType
  {
    Widths();
    BigRoundTrip(length, 4);
    BigRoundTrip(MAGIC, 2);
    hide Big;
    hide FromBig;
    var h := b[..HEADER_SIZE];
    assert b[..4] == h[..4] && b[4..6] == h[4..6] && b[6] == h[6] && b[7] == h[7];
    assert h[..4] == Big(length, 4) && h[4..6] == Big(MAGIC, 2);
  }

  function HeaderLength(e: Event): nat {
    match e
    case Polling(_) => HEADER_SIZE
    case StreamClose(_, _) => 12
    case FallbackData(_, _, _, payload) => 16 + |payload|
  }

  lemma FrameLength(e: Event)
    ensures |Encode(e)| == HeaderLength(e)
    ensures Encode(e)[..HEADER_SIZE] ==
            Header(HeaderLength(e), e.version, if e.Polling? then 1 else if e.StreamClose? then 2 else 3)
  {
  }

  /** A prefix of a frame asks for exactly the frame; a whole frame is decoded, whatever follows. */
  lemma ScanFrame(e: Event, rest: seq<Byte>, b: seq<Byte>)
    requires Encodable(e) && b <= Encode(e) + rest && |b| >= HEADER_SIZE
    ensures Roomy(b)
    ensures ScanOne(b) == if |b| < |Encode(e)| then Short(|Encode(e)|) else Frame(Told(e), |Encode(e)|)
  {
    FrameLength(e);
    var f := Encode(e);
    assert b[..HEADER_SIZE] == f[..HEADER_SIZE];
    HeaderFields(b, HeaderLength(e), e.version, if e.Polling? then 1 else if e.StreamClose? then 2 else 3);
    if |b| >= |f| {
      assert b[..|f|] == f;
      if !e.Polling? {
        Widths();
        BigRoundTrip(e.id, 4);
        assert b[8..12] == f[8..12] == Big(e.id, 4);
      }
      if e.FallbackData? {
        BigRoundTrip(e.status, 4);
        assert b[12..16] == f[12..16] == Big(e.status, 4);
        assert b[16..|f|] == f[16..] == e.payload;
      }
    }
  }

  /** What is wrong with a header: the magic number, a version of zero, or a type that a session does
      not take once the handshake is over. */
  function FaultOf(h: seq<Byte>): Fault
    requires |h| >= HEADER_SIZE
  {
    if h[4..6] != [0x77, 0x58] || h[6] == 0 then InvalidVersion
    else if h[7] !in {1, 2, 3} then InvalidMsgType
    else NoFault
  }

  predicate Faulty(b: seq<Byte>) { |b| >= HEADER_SIZE && FaultOf(b) != NoFault }

  /** Exactly the faulty headers are refused, each for its fault. */
  lemma ScanFault(b: seq<Byte>)
    requires |b| >= HEADER_SIZE && Roomy(b)
    ensures ScanOne(b).Bad? <==> Faulty(b)
    ensures Faulty(b) ==> ScanOne(b) == Bad(FaultOf(b))
  {
    MagicBytes(b[4..6]);
    hide FromBig;
  }

  lemma MagicBytes(m: seq<Byte>)
    requires |m| == 2
    ensures FromBig(m) == MAGIC <==> m == [0x77, 0x58]
  {
    var high: int, low: int := m[0], m[1];
    assert m[..1][..0] == [] && FromBig(m[..1]) == high;
    assert FromBig(m) == 256 * high + low;
    assert m == [m[0], m[1]];
  }

  /** More bytes behind a header do not change what is wrong with it. */
  lemma SameFault(b: seq<Byte>, tail: seq<Byte>)
    requires HEADER_SIZE <= |b| && b <= tail
    ensures FaultOf(b) == FaultOf(tail)
  {
    assert b[4..6] == tail[4..6];
  }

  // ---------------------------------------------------------------------------------------------
  // `handle_events`
  // ---------------------------------------------------------------------------------------------

  lemma {:induction false} EncodeConcat(a: seq<Event>, b: seq<Event>)
    ensures EncodeAll(a + b) == EncodeAll(a) + EncodeAll(b)
  {
    if a == [] {
      assert a + b == b;
    } else {
      assert (a + b)[1..] == a[1..] + b;
      EncodeConcat(a[1..], b);
      assert Encode(a[0]) + (EncodeAll(a[1..]) + EncodeAll(b)) == (Encode(a[0]) + EncodeAll(a[1..])) + EncodeAll(b);
    }
  }

  lemma EncodeSplit(events: seq<Event>, n: nat)
    requires n < |events|
    ensures EncodeAll(events[n..]) == Encode(events[n]) + EncodeAll(events[n + 1..])
    ensures EncodeAll(events[..n + 1]) == EncodeAll(events[..n]) + Encode(events[n])
    ensures TellAll(events[..n + 1]) == TellAll(events[..n]) + [Told(events[n])]
  {
    assert events[n..][1..] == events[n + 1..];
    assert events[..n + 1] == events[..n] + [events[n]];
    EncodeConcat(events[..n], [events[n]]);
    assert [events[n]][1..] == [];
    assert EncodeAll([events[n]]) == Encode(events[n]) + EncodeAll([]);
  }

  /** `n` frames lie in the first `m` bytes and the next one does not. */
  lemma {:induction false} CompleteIs(events: seq<Event>, m: nat, n: nat)
    requires n <= |events| && |EncodeAll(events[..n])| <= m
    requires n < |events| ==> m < |EncodeAll(events[..n])| + |Encode(events[n])|
    ensures Complete(events, m) == n
  {
    hide Encode;
    if n > 0 {
      var rest := events[1..];
      assert events[..n][1..] == rest[..n - 1];
      assert n < |events| ==> events[n] == rest[n - 1];
      CompleteIs(rest, m - |Encode(events[0])|, n - 1);
    } else {
      assert events[..0] == [];
    }
  }

  predicate AllEncodable(events: seq<Event>) {
    forall i | 0 <= i < |events| :: Encodable(events[i])
  }

  /** The peer sends frames and then perhaps something with a faulty header. */
  predicate Sending(wire: seq<Byte>, events: seq<Event>, tail: seq<Byte>) {
    AllEncodable(events) && wire <= EncodeAll(events) + tail && (tail == [] || Faulty(tail))
  }

  /** The frames and the header behind them have arrived. */
  predicate Spoiled(n: nat, events: seq<Event>, tail: seq<Byte>) {
    tail != [] && n >= |EncodeAll(events)| + HEADER_SIZE
  }

  /** Every complete frame at the front of `buf` is dispatched, and what is asked for next is more
      than is left, but no more than the next frame.  A faulty header behind the frames ends it, and
      nothing behind that is looked at. */
  method HandleEvents(buf: seq<Byte>, ghost events: seq<Event>, ghost tail: seq<Byte>)
    returns (consumed: nat, required: nat, fault: Fault, told: seq<Event>)
    requires Sending(buf, events, tail)
    ensures var n := Complete(events, |buf|);
            && told == TellAll(events[..n])
            && (if Spoiled(|buf|, events, tail) then
                  && fault == FaultOf(tail) && required == HEADER_SIZE
                  && consumed == |EncodeAll(events)| + HEADER_SIZE && n == |events|
                else
                  && fault == NoFault && consumed == |EncodeAll(events[..n])| <= |buf|
                  && |buf| - consumed < required
                  && (if n < |events| then required <= |Encode(events[n])| else required == HEADER_SIZE))
  {
    hide Encode;
    hide ScanOne;
    hide EncodeAll;
    hide TellAll;
    hide Told;
    NoFrames();
    consumed, required, fault, told := 0, HEADER_SIZE, NoFault, [];
    ghost var n := 0;
    var stop := false;
    assert events[..0] == [] && events[0..] == events && buf[0..] == buf;
    while !stop && |buf| - consumed >= HEADER_SIZE
      invariant 0 <= n <= |events| && consumed <= |buf| && fault == NoFault
      invariant consumed == |EncodeAll(events[..n])| && told == TellAll(events[..n])
      invariant buf[consumed..] <= EncodeAll(events[n..]) + tail
      invariant !stop ==> required == HEADER_SIZE
      invariant stop ==> n < |events| && |buf| - consumed < required == |Encode(events[n])|
      decreases !stop, |buf| - consumed
    {
      ghost var b := buf[consumed..];
      if n == |events| {
        AtEnd(b, events, tail);
      } else {
        FrameNext(b, events, n, tail);
      }
      var r := ScanOne(buf[consumed..]);
      match r
      case Bad(f) =>
        CompleteIs(events, |buf|, n);
        consumed, fault := consumed + HEADER_SIZE, f;
        return;
      case Short(need) =>
        required, stop := need, true;
      case Frame(event, used) =>
        assert b[used..] == buf[consumed + used..];
        told := told + [event];
        consumed := consumed + used;
        n := n + 1;
    }
    NotSpoiled(buf, events, n, tail);
    CompleteIs(events, |buf|, n);
  }

  /** Behind the frames comes the faulty header. */
  lemma AtEnd(b: seq<Byte>, events: seq<Event>, tail: seq<Byte>)
    requires Sending([], events, tail) && b <= EncodeAll(events[|events|..]) + tail && |b| >= HEADER_SIZE
    ensures events[..|events|] == events && tail != [] && Roomy(b) && ScanOne(b) == Bad(FaultOf(tail))
  {
    hide ScanOne;
    hide FaultOf;
    assert events[|events|..] == [] && events[..|events|] == events;
    assert [] + tail == tail;
    SameFault(b, tail);
    ScanFault(b);
  }

  lemma FrameNext(b: seq<Byte>, events: seq<Event>, n: nat, tail: seq<Byte>)
    requires AllEncodable(events) && n < |events| && b <= EncodeAll(events[n..]) + tail && |b| >= HEADER_SIZE
    ensures Roomy(b)
    ensures var f := Encode(events[n]);
            if |b| < |f| then ScanOne(b) == Short(|f|)
            else ScanOne(b) == Frame(Told(events[n]), |f|) && b[|f|..] <= EncodeAll(events[n + 1..]) + tail
    ensures EncodeAll(events[..n + 1]) == EncodeAll(events[..n]) + Encode(events[n])
    ensures TellAll(events[..n + 1]) == TellAll(events[..n]) + [Told(events[n])]
  {
    hide Encode;
    hide ScanOne;
    hide EncodeAll;
    hide TellAll;
    hide LengthOf;
    var f, rest := Encode(events[n]), EncodeAll(events[n + 1..]) + tail;
    EncodeSplit(events, n);
    assert (f + EncodeAll(events[n + 1..])) + tail == f + rest;
    ScanFrame(events[n], rest, b);
    if |b| >= |f| { PrefixRest(b, f, rest); }
  }

  lemma NotSpoiled(buf: seq<Byte>, events: seq<Event>, n: nat, tail: seq<Byte>)
    requires n <= |events| && |EncodeAll(events[..n])| <= |buf|
    requires if n < |events| then |buf| < |EncodeAll(events[..n])| + |Encode(events[n])|
             else |buf| < |EncodeAll(events[..n])| + HEADER_SIZE
    ensures !Spoiled(|buf|, events, tail)
  {
    hide Encode;
    assert events[..|events|] == events;
    if n < |events| {
      EncodeSplit(events, n);
      assert events == events[..n + 1] + events[n + 1..];
      EncodeConcat(events[..n + 1], events[n + 1..]);
    }
  }

  lemma PrefixRest(b: seq<Byte>, f: seq<Byte>, rest: seq<Byte>)
    requires b <= f + rest && |f| <= |b|
    ensures b[|f|..] <= rest
  {
    assert (f + rest)[|f|..] == rest;
  }

  // ---------------------------------------------------------------------------------------------
  // The socket and the buffer
  // ---------------------------------------------------------------------------------------------

  /** A stream socket: `rest` is what the peer sent and was not read yet.  `splits` decides how the
      bytes arrive: a read delivers as many as the next entry says, at least one and at most what
      was asked for; an entry of zero is a read cut short by a signal. */
  class Socket {
    var rest: seq<Byte>
    var splits: seq<nat>

    /** The next `n` bytes are copied out. */
    method Deliver(a: array<Byte>, at: nat, n: nat)
      requires at + n <= a.Length && n <= |rest|
      modifies a
      ensures a[..] == old(a[..])[..at] + rest[..n] + old(a[..])[at + n..]
    {
      ghost var m := a[..];
      for i := 0 to n
        invariant forall x | 0 <= x < i :: a[at + x] == rest[x]
        invariant forall x | 0 <= x < a.Length && !(at <= x < at + i) :: a[x] == m[x]
      {
        a[at + i] := rest[i];
      }
    }

    /** `read(2)` into `a[at..at + room]`: never called with no room. */
    method Read(a: array<Byte>, at: nat, room: nat) returns (size: int)
      requires room > 0 && at + room <= a.Length
      modifies this, a
      ensures |splits| <= |old(splits)|
      ensures size < 0 ==> rest == old(rest) && a[..] == old(a[..]) && |splits| < |old(splits)|
      ensures size == 0 ==> rest == old(rest) == [] && a[..] == old(a[..])
      ensures size > 0 ==> size <= room && size <= |old(rest)| && rest == old(rest)[size..]
      ensures size > 0 ==> a[..] == old(a[..])[..at] + old(rest)[..size] + old(a[..])[at + size..]
    {
      var want := room;
      if splits != [] {
        want := splits[0];
        splits := splits[1..];
        if want == 0 {
          return -1;
        }
      }
      var n := if want < room then want else room;
      n := if n < |rest| then n else |rest|;
      Deliver(a, at, n);
      rest := rest[n..];
      return n;
    }
  }

  class BufReader {
    const sock: Socket
    const buf: array<Byte>
    var pos: nat
    var len: nat

    ghost predicate Valid()
      reads this, buf
    {
      pos <= len <= buf.Length
    }

    /** The bytes read from the socket and not consumed. */
    ghost function Buffered(): seq<Byte>
      requires Valid()
      reads this, buf
    {
      buf[pos..len]
    }

    constructor (sock: Socket, capacity: nat)
      ensures Valid() && this.sock == sock && buf.Length == capacity && fresh(buf) && Buffered() == []
    {
      this.sock := sock;
      buf := new Byte[capacity](i => 0);
      pos, len := 0, 0;
    }

    /** `memmove` of `n` bytes from `pos` to the front. */
    method MoveDown(n: nat)
      requires pos + n <= buf.Length
      modifies buf
      ensures buf[..n] == old(buf[pos..pos + n])
    {
      ghost var was := buf[..];
      for i := 0 to n
        invariant forall x | 0 <= x < i :: buf[x] == was[pos + x]
        invariant forall x | i <= x < buf.Length :: buf[x] == was[x]
      {
        assert buf[pos + i] == was[pos + i];
        buf[i] := buf[pos + i];
      }
    }

    /** `compact`: the unread bytes move to the front of the buffer. */
    method Compact()
      requires Valid()
      modifies this, buf
      ensures Valid() && pos == 0 && Buffered() == old(Buffered())
    {
      if len == pos {
        pos, len := 0, 0;
        return;
      }
      var remaining := len - pos;
      MoveDown(remaining);
      pos, len := 0, remaining;
    }

    /** `fill_buf_at_least`: enough bytes are buffered, or the peer has closed the connection; either
        way no byte is lost, and every read has room. */
    method FillAtLeast(n: nat) returns (ok: bool)
      requires Valid() && n <= buf.Length
      modifies this, buf, sock
      ensures Valid() && Buffered() + sock.rest == old(Buffered() + sock.rest)
      ensures ok == (|Buffered()| >= n) && (!ok ==> sock.rest == [])
      ensures |sock.rest| <= |old(sock.rest)|
    {
      if len - pos >= n {
        return true;
      }
      if n > buf.Length - pos {
        Compact();
      }
      while len - pos < n
        invariant Valid() && n <= buf.Length - pos
        invariant Buffered() + sock.rest == old(Buffered() + sock.rest)
        invariant |sock.rest| <= |old(sock.rest)|
        decreases |sock.rest| + |sock.splits|
      {
        ghost var was, more, a := Buffered(), sock.rest, buf[..];
        var size := sock.Read(buf, len, buf.Length - len);
        if size == 0 {
          assert Buffered() == was;
          return false;
        }
        if size > 0 {
          ReadJoins(a, buf[..], pos, len, more, size);
          len := len + size;
        } else {
          assert Buffered() == was;
        }
      }
      ok := true;
    }

    method Consume(amount: nat)
      requires Valid()
      modifies this`pos
      ensures Valid() && pos == if old(pos) + amount < len then old(pos) + amount else len
    {
      pos := if pos + amount < len then pos + amount else len;
    }

    /** One round of `read_loop`: fill, dispatch, consume.  `events` are the frames still to come. */
    method Round(need: nat, ghost events: seq<Event>, ghost tail: seq<Byte>)
      returns (ok: bool, required: nat, fault: Fault, told: seq<Event>, ghost n: nat)
      requires Valid() && |Buffered()| < need <= buf.Length
      requires Sending(Buffered() + sock.rest, events, tail)
      modifies this, buf, sock
      ensures Valid()
      ensures !ok ==> n == 0 && sock.rest == [] && |Buffered()| < need && Buffered() == old(Buffered() + sock.rest)
                      && fault == NoFault
      ensures ok ==> n <= |events| && told == TellAll(events[..n])
      ensures ok && fault != NoFault ==>
        Spoiled(|old(Buffered() + sock.rest)|, events, tail) && n == |events| && fault == FaultOf(tail)
      ensures ok && fault == NoFault ==>
        && |EncodeAll(events[..n])| <= |old(Buffered() + sock.rest)|
        && Buffered() + sock.rest == old(Buffered() + sock.rest)[|EncodeAll(events[..n])|..]
        && |Buffered()| < required && |sock.rest| < |old(sock.rest)|
        && (if n < |events| then required <= |Encode(events[n])| else required == HEADER_SIZE)
    {
      hide Encode;
      hide EncodeAll;
      hide TellAll;
      hide Complete;
      hide FaultOf;
      required, fault, told, n := need, NoFault, [], 0;
      ghost var wire := Buffered() + sock.rest;
      ok := FillAtLeast(need);
      if !ok {
        assert Buffered() + [] == Buffered();
        return;
      }
      ghost var b := Buffered();
      assert b == wire[..|b|];
      var consumed;
      consumed, required, fault, told := HandleEvents(buf[pos..len], events, tail);
      n := Complete(events, |b|);
      Consume(consumed);
      if fault == NoFault {
        assert Buffered() == b[consumed..];
        assert Buffered() + sock.rest == wire[consumed..];
      }
    }

    /** `read_loop`, until the connection ends or a header is refused: whatever the sizes of the reads,
        exactly the frames that were sent whole are dispatched, once each and in order; a faulty header
        ends the loop with its fault exactly when it has arrived whole. */
    method ReadLoop(ghost events: seq<Event>, ghost tail: seq<Byte>) returns (told: seq<Event>, fault: Fault)
      requires Valid() && Buffered() == [] && buf.Length >= HEADER_SIZE
      requires Sending(sock.rest, events, tail)
      requires forall i | 0 <= i < |events| :: |Encode(events[i])| <= buf.Length
      modifies this, buf, sock
      ensures told == TellAll(events[..Complete(events, |old(sock.rest)|)])
      ensures fault == if Spoiled(|old(sock.rest)|, events, tail) then FaultOf(tail) else NoFault
      ensures fault == NoFault ==> sock.rest == []
    {
      hide Encode;
      hide EncodeAll;
      hide TellAll;
      hide Complete;
      hide FaultOf;
      told, fault := [], NoFault;
      ghost var wire, k := sock.rest, 0;
      var need, eof := HEADER_SIZE, false;
      NoFrames();
      assert events[..0] == [] && events[0..] == events;
      assert Buffered() + sock.rest == wire;
      while !eof
        invariant Valid() && 0 <= k <= |events| && |Buffered()| < need <= buf.Length
        invariant told == TellAll(events[..k]) && |EncodeAll(events[..k])| + |Buffered() + sock.rest| == |wire|
        invariant Buffered() + sock.rest <= EncodeAll(events[k..]) + tail
        invariant if k < |events| then need <= |Encode(events[k])| else need == HEADER_SIZE
        invariant fault == NoFault && (eof ==> sock.rest == [])
        decreases !eof, |sock.rest|
      {
        ghost var all := Buffered() + sock.rest;
        var ok, required, more;
        ghost var n;
        ok, required, fault, more, n := Round(need, events[k..], tail);
        if !ok {
          assert Buffered() + [] == Buffered();
          eof, fault := true, NoFault;
        } else {
          Advance(events, k, n);
          if fault != NoFault {
            SpoiledThen(events, k, |all|, |wire|, tail);
            told := told + more;
            return;
          }
          assert EncodeAll(events[k..]) + tail == EncodeAll(events[k..][..n]) + (EncodeAll(events[k + n..]) + tail);
          PrefixRest(all, EncodeAll(events[k..][..n]), EncodeAll(events[k + n..]) + tail);
          assert k + n < |events| ==> events[k..][n] == events[k + n];
          need, told, k := required, told + more, k + n;
        }
      }
      NotSpoiled(wire, events, k, tail);
      CompleteIs(events, |wire|, k);
    }
  }

  /** The rest of the frames and the header behind them have arrived: all frames have. */
  lemma SpoiledThen(events: seq<Event>, k: nat, m: nat, n: nat, tail: seq<Byte>)
    requires k <= |events| && |EncodeAll(events[..k])| + m == n && Spoiled(m, events[k..], tail)
    ensures Spoiled(n, events, tail) && Complete(events, n) == |events| && events[..|events|] == events
  {
    hide Encode;
    assert events == events[..k] + events[k..] && events[..|events|] == events;
    EncodeConcat(events[..k], events[k..]);
    CompleteIs(events, n, |events|);
  }

  lemma NoFrames()
    ensures EncodeAll([]) == [] && TellAll([]) == []
  {
  }

  lemma ReadJoins(a: seq<Byte>, b: seq<Byte>, pos: nat, len: nat, rest: seq<Byte>, size: nat)
    requires pos <= len && len + size <= |a| && size <= |rest|
    requires b == a[..len] + rest[..size] + a[len + size..]
    ensures b[pos..len + size] + rest[size..] == a[pos..len] + rest
  {
    assert b[pos..len + size] == a[pos..len] + rest[..size];
    assert rest == rest[..size] + rest[size..];
  }

  /** `n` more frames behind the first `k`. */
  lemma Advance(events: seq<Event>, k: nat, n: nat)
    requires k + n <= |events|
    ensures events[k..][..n] == events[k..k + n] && events[k..][n..] == events[k + n..]
    ensures EncodeAll(events[..k + n]) == EncodeAll(events[..k]) + EncodeAll(events[k..][..n])
    ensures EncodeAll(events[k..]) == EncodeAll(events[k..][..n]) + EncodeAll(events[k + n..])
    ensures TellAll(events[..k + n]) == TellAll(events[..k]) + TellAll(events[k..][..n])
  {
    hide Encode;
    hide Told;
    assert events[..k + n] == events[..k] + events[k..k + n];
    assert events[k..] == events[k..k + n] + events[k + n..];
    EncodeConcat(events[..k], events[k..k + n]);
    EncodeConcat(events[k..k + n], events[k + n..]);
  }
}
