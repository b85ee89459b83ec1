/** Each party of the handshake against any peer: which bytes bring it to the end, which make it give
    up, and what it sends.  The other party may be older, newer or broken. */
module HandshakePeers {
  import opened Bytes
  import opened Framing
  import opened Handshake

  /** A header of this type, from any version but zero. */
  predicate Says(h: seq<Byte>, msgType: Byte) {
    |h| == HEADER_SIZE && h[4..6] == [0x77, 0x58] && h[6] != 0 && h[7] == msgType
  }

  /** The length a header announces. */
  function Announced(h: seq<Byte>): nat
    requires |h| == HEADER_SIZE
  {
    FromBig(h[..4])
  }

  /** A header is taken exactly when it is the encoding of its fields, for a version and a type there
      are. */
  lemma ReadIff(h: seq<Byte>, version: Byte, msgType: Byte, length: nat)
    requires |h| == HEADER_SIZE
    ensures ReadHeader(h) == Fields(version, msgType, length) <==>
            h == Header(length, version, msgType) && length < U32_LIMIT && version != 0 && msgType <= 9
  {
    Widths();
    MagicBytes(h[4..6]);
    BigOfBytes(h[..4]);
    BigRoundTrip(MAGIC, 2);
    BigOfBytes(h[4..6]);
    if ReadHeader(h) == Fields(version, msgType, length) {
      hide Big;
      hide FromBig;
      assert h == h[..4] + h[4..6] + [h[6], h[7]];
    }
    if h == Header(length, version, msgType) && length < U32_LIMIT {
      assert h[..HEADER_SIZE] == h;
      HeaderFields(h, length, version, msgType);
    }
  }

  lemma {:induction false} BigOfBytes(b: seq<Byte>)
    ensures Big(FromBig(b), |b|) == b && FromBig(b) < Pow256(|b|)
  {
    if b != [] {
      var front := b[..|b| - 1];
      BigOfBytes(front);
      assert FromBig(b) / 256 == FromBig(front) && FromBig(b) % 256 == b[|b| - 1];
      assert b == front + [b[|b| - 1]];
    }
  }

  lemma ReadSays(h: seq<Byte>, msgType: Byte)
    requires |h| == HEADER_SIZE && msgType <= 9
    ensures Says(h, msgType) <==> !ReadHeader(h).Invalid? && ReadHeader(h).msgType == msgType
    ensures Says(h, msgType) ==> ReadHeader(h) == Fields(h[6], msgType, Announced(h))
  {
    MagicBytes(h[4..6]);
  }

  /** The paths are taken from a body exactly when it starts with their encoding. */
  lemma ExtractWhen(body: seq<Byte>, buffer: seq<Byte>, queue: seq<Byte>)
    ensures Extract(body) == Paths(buffer, queue) <==>
            |buffer| < U16_LIMIT && |queue| < U16_LIMIT && Body(buffer, queue) <= body
  {
    hide Extract;
    hide Body;
    if Extract(body) == Paths(buffer, queue) { ExtractedIs(body, buffer, queue); }
    if |buffer| < U16_LIMIT && |queue| < U16_LIMIT && Body(buffer, queue) <= body { ExtractPrefix(body, buffer, queue); }
  }

  lemma ExtractedIs(body: seq<Byte>, buffer: seq<Byte>, queue: seq<Byte>)
    requires Extract(body) == Paths(buffer, queue)
    ensures |buffer| < U16_LIMIT && |queue| < U16_LIMIT && Body(buffer, queue) <= body
  {
    BigBound(body);
    hide Big;
    hide FromBig;
    var n, m := |queue|, |buffer|;
    TwoIs(body[..2]);
    TwoIs(body[2 + n..2 + n + 2]);
    var x, q, y, b := body[..2], body[2..2 + n], body[2 + n..2 + n + 2], body[2 + n + 2..2 + n + 2 + m];
    assert x + q + y + b == body[..2 + n + 2 + m];
  }

  lemma ExtractPrefix(body: seq<Byte>, buffer: seq<Byte>, queue: seq<Byte>)
    requires |buffer| < U16_LIMIT && |queue| < U16_LIMIT && Body(buffer, queue) <= body
    ensures Extract(body) == Paths(buffer, queue)
  {
    hide Big;
    hide FromBig;
    Length16(|queue|);
    Length16(|buffer|);
    var b, n := Body(buffer, queue), |queue|;
    Pieces(Big(|queue|, 2), queue, Big(|buffer|, 2), buffer);
    assert body[..2] == b[..2] && body[2..2 + n] == b[2..2 + n] && body[2 + n..2 + n + 2] == b[2 + n..2 + n + 2];
    assert body[2 + n + 2..2 + n + 2 + |buffer|] == b[2 + n + 2..2 + n + 2 + |buffer|];
  }

  lemma TwoIs(b: seq<Byte>)
    requires |b| == 2
    ensures FromBig(b) < U16_LIMIT && Big(FromBig(b), 2) == b && FromBig(b) % U16_LIMIT == FromBig(b)
  {
    Widths();
    BigOfBytes(b);
  }

  // ---------------------------------------------------------------------------------------------
  // The client
  // ---------------------------------------------------------------------------------------------

  /** Where the client gets with these bytes from its peer, what it has sent by then, and whether it
      passed its descriptors. */
  datatype Talk<T> = Talk(pc: T, sent: seq<Byte>, passed: bool)

  function ClientTalk(c: Config, pc: ClientPc, input: seq<Byte>): Talk<ClientPc>
    decreases ClientFuture(c, pc)
  {
    var n := ClientNeeds(pc);
    if pc.CDone? || pc.CFailed? || |input| < n then Talk(pc, [], false)
    else
      var (next, out) := ClientMove(c, pc, input[..n]);
      var more := ClientTalk(c, next, input[n..]);
      Talk(more.pc, out + more.sent, next.CWaitAck? || more.passed)
  }

  function Hello(): seq<Byte> { Header(HEADER_SIZE, 3, EXCHANGE_VERSION) }

  /** The first, second and third header. */
  function Nth(input: seq<Byte>, k: nat): seq<Byte> {
    if |input| < (k + 1) * HEADER_SIZE then [] else input[k * HEADER_SIZE..(k + 1) * HEADER_SIZE]
  }

  /** The client ends with version 3 exactly when its peer announces version 3 or later, says that it is
      ready for the descriptors, and acknowledges them; with version 2 exactly when it shares a file, or
      its peer announces version 2. */
  lemma ClientEnds(c: Config, input: seq<Byte>)
    ensures var pc := ClientTalk(c, CStart, input).pc;
            && (pc == CDone(3) <==>
                  c.memfd && Says(Nth(input, 0), EXCHANGE_VERSION) && Nth(input, 0)[6] >= 3
                  && Says(Nth(input, 1), ACK_READY_RECV_FD) && Says(Nth(input, 2), ACK_SHARE_MEMORY))
            && (pc == CDone(2) <==> !c.memfd || (Says(Nth(input, 0), EXCHANGE_VERSION) && Nth(input, 0)[6] == 2))
            && (pc.CDone? ==> pc.version == 2 || pc.version == 3)
  {
    if c.memfd {
      ClientFromVersion(c, input);
    } else {
      ClientFile(c, input);
    }
  }

  /** The descriptors are passed exactly when a peer of version 3 or later has said that it is ready. */
  lemma ClientPasses(c: Config, input: seq<Byte>)
    ensures ClientTalk(c, CStart, input).passed <==>
              c.memfd && Says(Nth(input, 0), EXCHANGE_VERSION) && Nth(input, 0)[6] >= 3 && Says(Nth(input, 1), ACK_READY_RECV_FD)
  {
    if c.memfd {
      ClientFromVersion(c, input);
    } else {
      ClientFile(c, input);
    }
  }

  /** A client that shares a file sends its paths at once; one that shares descriptors sends its version,
      and then, in the format that both sides know, its paths, and nothing to a peer it cannot talk to. */
  lemma ClientSends(c: Config, input: seq<Byte>)
    ensures ClientTalk(c, CStart, input).sent ==
            if !c.memfd then Metadata(FILE_PATH, 2, c.buffer, c.queue)
            else if !Says(Nth(input, 0), EXCHANGE_VERSION) || Nth(input, 0)[6] < 2 then Hello()
            else Hello() + (if Nth(input, 0)[6] == 2 then Metadata(FILE_PATH, 2, c.buffer, c.queue)
                            else Metadata(MEMFD, 3, c.buffer, c.queue))
  {
    if c.memfd {
      ClientFromVersion(c, input);
    } else {
      ClientFile(c, input);
    }
  }

  lemma Unsent()
    ensures forall b: seq<Byte> :: b + [] == b
  {
  }

  lemma ClientFile(c: Config, input: seq<Byte>)
    requires !c.memfd
    ensures ClientTalk(c, CStart, input) == Talk(CDone(2), Metadata(FILE_PATH, 2, c.buffer, c.queue), false)
  {
    hide Metadata;
    hide Header;
    Unsent();
    assert input[0..] == input;
    assert ClientTalk(c, CDone(2), input) == Talk(CDone(2), [], false);
    assert ClientTalk(c, CFlush, input) == Talk(CDone(2), [], false);
  }

  lemma ClientFromVersion(c: Config, input: seq<Byte>)
    requires c.memfd
    ensures var t, h := ClientTalk(c, CStart, input), Nth(input, 0);
            && (t == if !Says(h, EXCHANGE_VERSION) || h[6] < 2 then
                       Talk(if |input| < HEADER_SIZE then CWaitVersion else CFailed, Hello(), false)
                     else if h[6] == 2 then Talk(CDone(2), Hello() + Metadata(FILE_PATH, 2, c.buffer, c.queue), false)
                     else
                       var u := ClientTalk(c, CWaitReady, input[HEADER_SIZE..]);
                       Talk(u.pc, Hello() + Metadata(MEMFD, 3, c.buffer, c.queue), u.passed))
            && (h != [] && Says(h, EXCHANGE_VERSION) && h[6] >= 3 ==>
                  && (t.passed <==> Says(Nth(input, 1), ACK_READY_RECV_FD))
                  && (t.pc == CDone(3) <==> Says(Nth(input, 1), ACK_READY_RECV_FD) && Says(Nth(input, 2), ACK_SHARE_MEMORY))
                  && (t.pc.CDone? ==> t.pc == CDone(3)))
  {
    hide Metadata;
    hide Header;
    hide ReadHeader;
    Unsent();
    assert input[0..] == input;
    if |input| < HEADER_SIZE {
      assert ClientTalk(c, CWaitVersion, input) == Talk(CWaitVersion, [], false);
    } else {
      var h, rest := input[..HEADER_SIZE], input[HEADER_SIZE..];
      assert Nth(input, 0) == h;
      ReadSays(h, EXCHANGE_VERSION);
      assert rest[0..] == rest;
      assert ClientTalk(c, CFailed, rest) == Talk(CFailed, [], false);
      assert ClientTalk(c, CDone(2), rest) == Talk(CDone(2), [], false);
      assert ClientTalk(c, CFlush, rest) == Talk(CDone(2), [], false);
      ClientFromReady(c, rest);
      assert Nth(input, 1) == Nth(rest, 0) && Nth(input, 2) == Nth(rest, 1);
    }
  }

  lemma ClientFromReady(c: Config, rest: seq<Byte>)
    ensures var u := ClientTalk(c, CWaitReady, rest);
            && u.sent == [] && (u.passed <==> Says(Nth(rest, 0), ACK_READY_RECV_FD))
            && (u.pc == CDone(3) <==> Says(Nth(rest, 0), ACK_READY_RECV_FD) && Says(Nth(rest, 1), ACK_SHARE_MEMORY))
            && (u.pc.CDone? ==> u.pc == CDone(3))
  {
    hide ReadHeader;
    if |rest| >= HEADER_SIZE {
      var h, last := rest[..HEADER_SIZE], rest[HEADER_SIZE..];
      assert Nth(rest, 0) == h;
      ReadSays(h, ACK_READY_RECV_FD);
      assert ClientTalk(c, CFailed, last) == Talk(CFailed, [], false);
      ClientFromAck(c, last);
      assert Nth(rest, 1) == Nth(last, 0);
    }
  }

  lemma ClientFromAck(c: Config, last: seq<Byte>)
    ensures var u := ClientTalk(c, CWaitAck, last);
            && u.sent == [] && !u.passed && (u.pc == CDone(3) <==> Says(Nth(last, 0), ACK_SHARE_MEMORY))
            && (u.pc.CDone? ==> u.pc == CDone(3))
  {
    hide ReadHeader;
    if |last| >= HEADER_SIZE {
      var h, end := last[..HEADER_SIZE], last[HEADER_SIZE..];
      assert Nth(last, 0) == h;
      ReadSays(h, ACK_SHARE_MEMORY);
      assert ClientTalk(c, CFailed, end) == Talk(CFailed, [], false);
      assert ClientTalk(c, CDone(3), end) == Talk(CDone(3), [], false);
    }
  }

  // ---------------------------------------------------------------------------------------------
  // The server
  // ---------------------------------------------------------------------------------------------

  /** Where the server gets with these bytes and descriptors from its peer. */
  function ServerTalk(pc: ServerPc, input: seq<Byte>, fds: seq<(nat, nat)>): Talk<ServerPc>
    decreases ServerFuture(pc)
  {
    var n := ServerNeeds(pc);
    if pc.SDone? || pc.SFailed? || |input| < n || (pc.SWaitFds? && fds == []) then Talk(pc, [], false)
    else
      var (next, out) := ServerMove(pc, input[..n], fds);
      var more := ServerTalk(next, input[n..], if pc.SWaitFds? then fds[1..] else fds);
      Talk(more.pc, out + more.sent, pc.SWaitFds? || more.passed)
  }

  /** A message of this type, header and body, is at the front. */
  predicate Comes(input: seq<Byte>, msgType: Byte) {
    && Says(Nth(input, 0), msgType) && Announced(Nth(input, 0)) >= HEADER_SIZE
    && |input| >= Announced(Nth(input, 0))
  }

  function BodyOf(input: seq<Byte>, msgType: Byte): seq<Byte>
    requires Comes(input, msgType)
  {
    input[HEADER_SIZE..Announced(Nth(input, 0))]
  }

  function Reply(msgType: Byte): seq<Byte> { Header(HEADER_SIZE, 3, msgType) }

  /** The server ends with version 2 exactly on a file-path message of version 2, and with version 3
      exactly when its peer of version 3 first asks for the version and then sends paths, and with them,
      for anonymous memory, descriptors; it has the paths that the body says. */
  lemma ServerEnds(input: seq<Byte>, fds: seq<(nat, nat)>, p: Paths)
    ensures var pc := ServerTalk(SStart, input, fds).pc;
            && (pc == SDone(2, p) <==>
                  Comes(input, FILE_PATH) && input[6] == 2 && p == Extract(BodyOf(input, FILE_PATH)))
            && (pc == SDone(3, p) <==>
                  && Says(Nth(input, 0), EXCHANGE_VERSION) && input[6] == 3
                  && var rest := input[HEADER_SIZE..];
                  || (Comes(rest, FILE_PATH) && p == Extract(BodyOf(rest, FILE_PATH)))
                  || (Comes(rest, MEMFD) && fds != [] && p == Extract(BodyOf(rest, MEMFD))))
            && (pc.SDone? ==> pc.version == 2 || pc.version == 3)
  {
    ServerStarts(input, fds);
    if |input| >= HEADER_SIZE { ServerMeta(input[HEADER_SIZE..], fds); }
  }

  /** What the server answers: nothing to a peer of version 2; its version to one of version 3, then that
      it is ready for descriptors if it is to get some, and the acknowledgement once it has what it
      needs. */
  lemma ServerAnswers(input: seq<Byte>, fds: seq<(nat, nat)>)
    ensures var t := ServerTalk(SStart, input, fds);
            if !Says(Nth(input, 0), EXCHANGE_VERSION) || input[6] != 3 then t.sent == [] && !t.passed
            else
              var rest := input[HEADER_SIZE..];
              && t.sent == Hello() +
                   (if Comes(rest, FILE_PATH) then Reply(ACK_SHARE_MEMORY)
                    else if !Comes(rest, MEMFD) then []
                    else if fds == [] then Reply(ACK_READY_RECV_FD)
                    else Reply(ACK_READY_RECV_FD) + Reply(ACK_SHARE_MEMORY))
              && (t.passed <==> Comes(rest, MEMFD) && fds != [])
  {
    ServerStarts(input, fds);
    if |input| >= HEADER_SIZE { ServerMeta(input[HEADER_SIZE..], fds); }
  }

  lemma ServerStops(pc: ServerPc, input: seq<Byte>, fds: seq<(nat, nat)>)
    requires pc.SDone? || pc.SFailed?
    ensures ServerTalk(pc, input, fds) == Talk(pc, [], false)
  {
  }

  lemma ServerStarts(input: seq<Byte>, fds: seq<(nat, nat)>)
    ensures var t, h := ServerTalk(SStart, input, fds), Nth(input, 0);
            if h == [] then t == Talk(SStart, [], false)
            else if Says(h, EXCHANGE_VERSION) && h[6] == 3 then
              var u := ServerTalk(SWaitMeta, input[HEADER_SIZE..], fds);
              t == Talk(u.pc, Hello() + u.sent, u.passed)
            else
              && t.sent == [] && !t.passed
              && (t.pc.SDone? ==> t.pc.version == 2)
              && (t.pc.SDone? <==> Comes(input, FILE_PATH) && h[6] == 2)
              && (Comes(input, FILE_PATH) && h[6] == 2 ==> t.pc == SDone(2, Extract(BodyOf(input, FILE_PATH))))
  {
    hide Header;
    hide ReadHeader;
    hide Extract;
    if |input| >= HEADER_SIZE {
      var h, rest := input[..HEADER_SIZE], input[HEADER_SIZE..];
      assert Nth(input, 0) == h;
      ReadSays(h, EXCHANGE_VERSION);
      ReadSays(h, FILE_PATH);
      ReadVersion(h);
      ServerStops(SFailed, rest, fds);
      if Says(h, FILE_PATH) && h[6] == 2 && Announced(h) >= HEADER_SIZE {
        ServerBody2(Announced(h) - HEADER_SIZE, rest, fds);
        if |input| >= Announced(h) {
          assert rest[..Announced(h) - HEADER_SIZE] == BodyOf(input, FILE_PATH);
        }
      }
    }
  }

  lemma ReadVersion(h: seq<Byte>)
    requires |h| == HEADER_SIZE
    ensures !ReadHeader(h).Invalid? ==> ReadHeader(h).version == h[6]
  {
  }

  lemma ServerBody2(n: nat, rest: seq<Byte>, fds: seq<(nat, nat)>)
    ensures var t := ServerTalk(SBody(2, false, n), rest, fds);
            t == if |rest| < n then Talk(SBody(2, false, n), [], false) else Talk(SDone(2, Extract(rest[..n])), [], false)
  {
    hide Extract;
    if |rest| >= n { ServerStops(SDone(2, Extract(rest[..n])), rest[n..], fds); }
  }

  lemma ServerMeta(rest: seq<Byte>, fds: seq<(nat, nat)>)
    ensures var u := ServerTalk(SWaitMeta, rest, fds);
            if Comes(rest, FILE_PATH) then u == Talk(SDone(3, Extract(BodyOf(rest, FILE_PATH))), Reply(ACK_SHARE_MEMORY), false)
            else if !Comes(rest, MEMFD) then u.sent == [] && !u.passed && !u.pc.SDone?
            else if fds == [] then u == Talk(SWaitFds(Extract(BodyOf(rest, MEMFD))), Reply(ACK_READY_RECV_FD), false)
            else u == Talk(SDone(3, Extract(BodyOf(rest, MEMFD))), Reply(ACK_READY_RECV_FD) + Reply(ACK_SHARE_MEMORY), true)
  {
    hide Header;
    hide ReadHeader;
    hide Extract;
    if |rest| >= HEADER_SIZE {
      var h, more := rest[..HEADER_SIZE], rest[HEADER_SIZE..];
      assert Nth(rest, 0) == h;
      ReadSays(h, FILE_PATH);
      ReadSays(h, MEMFD);
      ReadLength(h);
      ServerStops(SFailed, more, fds);
      if Announced(h) >= HEADER_SIZE {
        var n := Announced(h) - HEADER_SIZE;
        if Says(h, FILE_PATH) {
          ServerBody3(n, more, fds);
          if |more| >= n { assert more[..n] == BodyOf(rest, FILE_PATH); }
        } else if Says(h, MEMFD) {
          ServerBodyFds(n, more, fds);
          if |more| >= n { assert more[..n] == BodyOf(rest, MEMFD); }
        }
      }
    }
  }

  lemma ReadLength(h: seq<Byte>)
    requires |h| == HEADER_SIZE
    ensures !ReadHeader(h).Invalid? ==> ReadHeader(h).length == Announced(h)
  {
  }

  lemma ServerBody3(n: nat, more: seq<Byte>, fds: seq<(nat, nat)>)
    ensures var u := ServerTalk(SBody(3, false, n), more, fds);
            u == if |more| < n then Talk(SBody(3, false, n), [], false)
                 else Talk(SDone(3, Extract(more[..n])), Reply(ACK_SHARE_MEMORY), false)
  {
    hide Extract;
    hide Header;
    Unsent();
    if |more| >= n {
      var p, end := Extract(more[..n]), more[n..];
      assert end[0..] == end;
      ServerStops(SDone(3, p), end, fds);
      assert ServerTalk(SFlush(p, (0, 0)), end, fds) == Talk(SDone(3, p), [], false);
    }
  }

  lemma ServerBodyFds(n: nat, more: seq<Byte>, fds: seq<(nat, nat)>)
    ensures var u := ServerTalk(SBody(3, true, n), more, fds);
            u == if |more| < n then Talk(SBody(3, true, n), [], false)
                 else if fds == [] then Talk(SWaitFds(Extract(more[..n])), Reply(ACK_READY_RECV_FD), false)
                 else Talk(SDone(3, Extract(more[..n])), Reply(ACK_READY_RECV_FD) + Reply(ACK_SHARE_MEMORY), true)
  {
    hide Extract;
    hide Header;
    Unsent();
    if |more| >= n {
      var p, end := Extract(more[..n]), more[n..];
      assert end[0..] == end;
      if fds != [] {
        ServerStops(SDone(3, p), end, fds[1..]);
        assert ServerTalk(SFlush(p, fds[0]), end, fds[1..]) == Talk(SDone(3, p), [], false);
        assert ServerTalk(SWaitFds(p), end, fds) == Talk(SDone(3, p), Reply(ACK_SHARE_MEMORY), true);
      }
    }
  }
}
