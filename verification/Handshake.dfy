/** The exchange that opens a connection: protocol versions, the two shared-memory paths and, for
    anonymous memory, the two file descriptors.

    Client and server run over two byte channels.  A blocking write may hand over any part of its
    bytes at a time, and a blocking read may pick up any part of what is there; control moves on when
    the write is empty and the read is full.
 */
module Handshake {
  import opened Bytes
  import opened Framing

  const FILE_PATH: Byte := 0
  const EXCHANGE_VERSION: Byte := 4
  const MEMFD: Byte := 5
  const ACK_SHARE_MEMORY: Byte := 6
  const ACK_READY_RECV_FD: Byte := 7
  const MAX_VERSION: Byte := 3

  /** What the client brings: how the memory is shared, the paths, and the descriptors. */
  datatype Config = Config(memfd: bool, buffer: seq<Byte>, queue: seq<Byte>, fds: (nat, nat))

  // ---------------------------------------------------------------------------------------------
  // The metadata message
  // ---------------------------------------------------------------------------------------------

  /** `generate_shm_metadata` behind its header; a length is cut to 16 bits. */
  function Body(buffer: seq<Byte>, queue: seq<Byte>): seq<Byte> {
    Big(|queue| % U16_LIMIT, 2) + queue + Big(|buffer| % U16_LIMIT, 2) + buffer
  }

  function Metadata(msgType: Byte, version: Byte, buffer: seq<Byte>, queue: seq<Byte>): seq<Byte> {
    Header((HEADER_SIZE + 4 + |buffer| + |queue|) % U32_LIMIT, version, msgType) + Body(buffer, queue)
  }

  datatype Paths = Paths(buffer: seq<Byte>, queue: seq<Byte>) | Garbled

  /** `extract_shm_metadata`; where the source would read past the body, the result is `Garbled`. */
  function Extract(body: seq<Byte>): Paths {
    if |body| < 2 then Garbled
    else
      var n := FromBig(body[..2]);
      if |body| < 2 + n + 2 then Garbled
      else
        var m := FromBig(body[2 + n..2 + n + 2]);
        if |body| < 2 + n + 2 + m then Garbled
        else Paths(body[2 + n + 2..2 + n + 2 + m], body[2..2 + n])
  }

  lemma ExtractBody(buffer: seq<Byte>, queue: seq<Byte>)
    requires |buffer| < U16_LIMIT && |queue| < U16_LIMIT
    ensures Extract(Body(buffer, queue)) == Paths(buffer, queue)
  {
    hide Big;
    hide FromBig;
    Length16(|queue|);
    Length16(|buffer|);
    Pieces(Big(|queue|, 2), queue, Big(|buffer|, 2), buffer);
  }

  lemma Length16(n: nat)
    requires n < U16_LIMIT
    ensures FromBig(Big(n, 2)) == n && n % U16_LIMIT == n
  {
    Widths();
    BigRoundTrip(n, 2);
  }

  lemma Pieces(x: seq<Byte>, q: seq<Byte>, y: seq<Byte>, b: seq<Byte>)
    requires |x| == |y| == 2
    ensures var all, n := x + q + y + b, |q|;
            && |all| == 2 + n + 2 + |b| && all[..2] == x && all[2..2 + n] == q
            && all[2 + n..2 + n + 2] == y && all[2 + n + 2..2 + n + 2 + |b|] == b
  {
  }

  /** The server decodes exactly the client's paths if and only if both fit a 16-bit length. */
  lemma ExtractIff(buffer: seq<Byte>, queue: seq<Byte>)
    ensures Extract(Body(buffer, queue)) == Paths(buffer, queue) <==> |buffer| < U16_LIMIT && |queue| < U16_LIMIT
  {
    if |buffer| < U16_LIMIT && |queue| < U16_LIMIT {
      ExtractBody(buffer, queue);
    } else {
      Widths();
      BigRoundTrip(|queue| % U16_LIMIT, 2);
      var b := Body(buffer, queue);
      assert b[..2] == Big(|queue| % U16_LIMIT, 2);
      BigBound(b);
    }
  }

  /** A decoded path is shorter than 65536 bytes, whatever the body. */
  lemma BigBound(body: seq<Byte>)
    ensures Extract(body).Paths? ==> |Extract(body).buffer| < U16_LIMIT && |Extract(body).queue| < U16_LIMIT
  {
    if |body| >= 2 {
      TwoBytes(body[..2]);
      var n := FromBig(body[..2]);
      if |body| >= 2 + n + 2 { TwoBytes(body[2 + n..2 + n + 2]); }
    }
  }

  lemma TwoBytes(b: seq<Byte>)
    requires |b| == 2
    ensures FromBig(b) < U16_LIMIT
  {
    assert FromBig(b[..1]) == 256 * FromBig(b[..1][..0]) + b[..1][0];
  }

  // ---------------------------------------------------------------------------------------------
  // The two parties
  // ---------------------------------------------------------------------------------------------

  datatype ClientPc = CStart | CWaitVersion | CWaitReady | CWaitAck | CFlush | CDone(version: nat) | CFailed

  datatype ServerPc =
    | SStart
    | SBody(version: nat, memfd: bool, length: nat)
    | SWaitMeta
    | SWaitFds(paths: Paths)
    | SFlush(paths: Paths, fds: (nat, nat))
    | SDone(version: nat, paths: Paths)
    | SFailed

  /** A party: where it is, what it still has to write, and what it has read so far. */
  datatype Party<T> = Party(pc: T, out: seq<Byte>, got: seq<Byte>)

  datatype State = State(
    client: Party<ClientPc>,
    server: Party<ServerPc>,
    up: seq<Byte>,      // client to server
    down: seq<Byte>,    // server to client
    fds: seq<(nat, nat)>)

  function Initial(): State {
    State(Party(CStart, [], []), Party(SStart, [], []), [], [], [])
  }

  function ClientNeeds(pc: ClientPc): nat {
    if pc.CWaitVersion? || pc.CWaitReady? || pc.CWaitAck? then HEADER_SIZE else 0
  }

  function ServerNeeds(pc: ServerPc): nat {
    match pc
    case SStart => HEADER_SIZE
    case SWaitMeta => HEADER_SIZE
    case SBody(_, _, length) => length
    case _ => 0
  }

  datatype Fields = Fields(version: Byte, msgType: Byte, length: nat) | Invalid

  /** `block_read_event_header`. */
  function ReadHeader(b: seq<Byte>): Fields
    requires |b| == HEADER_SIZE
  {
    if FromBig(b[4..6]) != MAGIC || b[6] == 0 || b[7] > 9 then Invalid else Fields(b[6], b[7], LengthOf(b))
  }

  /** One move of the client's control: what it does once it has read what it waits for. */
  function ClientMove(c: Config, pc: ClientPc, got: seq<Byte>): (ClientPc, seq<Byte>)
    requires |got| == ClientNeeds(pc)
  {
    match pc
    case CStart =>
      if !c.memfd then (CFlush, Metadata(FILE_PATH, 2, c.buffer, c.queue))
      else (CWaitVersion, Header(HEADER_SIZE, MAX_VERSION, EXCHANGE_VERSION))
    case CWaitVersion =>
      var h := ReadHeader(got);
      if h.Invalid? || h.msgType != EXCHANGE_VERSION then (CFailed, [])
      else if h.version == 2 then (CFlush, Metadata(FILE_PATH, 2, c.buffer, c.queue))
      else if h.version >= 3 then (CWaitReady, Metadata(MEMFD, 3, c.buffer, c.queue))
      else (CFailed, [])
    case CWaitReady =>
      var h := ReadHeader(got);
      if h.Invalid? || h.msgType != ACK_READY_RECV_FD then (CFailed, []) else (CWaitAck, [])
    case CWaitAck =>
      var h := ReadHeader(got);
      if h.Invalid? || h.msgType != ACK_SHARE_MEMORY then (CFailed, []) else (CDone(3), [])
    case CFlush => (CDone(2), [])
    case _ => (pc, [])
  }

  /** One move of the server's control; `fds` are the descriptors that have arrived. */
  function ServerMove(pc: ServerPc, got: seq<Byte>, fds: seq<(nat, nat)>): (ServerPc, seq<Byte>)
    requires |got| == ServerNeeds(pc) && (pc.SWaitFds? ==> fds != [])
  {
    match pc
    case SStart =>
      var h := ReadHeader(got);
      if h.Invalid? then (SFailed, [])
      else if h.version == 2 then
        if h.msgType == FILE_PATH && h.length >= HEADER_SIZE then (SBody(2, false, h.length - HEADER_SIZE), [])
        else (SFailed, [])
      else if h.version == 3 then
        if h.msgType == EXCHANGE_VERSION then (SWaitMeta, Header(HEADER_SIZE, MAX_VERSION, EXCHANGE_VERSION))
        else (SFailed, [])
      else (SFailed, [])
    case SWaitMeta =>
      var h := ReadHeader(got);
      if h.Invalid? || h.length < HEADER_SIZE then (SFailed, [])
      else if h.msgType == FILE_PATH then (SBody(3, false, h.length - HEADER_SIZE), [])
      else if h.msgType == MEMFD then (SBody(3, true, h.length - HEADER_SIZE), [])
      else (SFailed, [])
    case SBody(version, memfd, _) =>
      if version == 2 then (SDone(2, Extract(got)), [])
      else if memfd then (SWaitFds(Extract(got)), Header(HEADER_SIZE, 3, ACK_READY_RECV_FD))
      else (SFlush(Extract(got), (0, 0)), Header(HEADER_SIZE, 3, ACK_SHARE_MEMORY))
    case SWaitFds(paths) => (SFlush(paths, fds[0]), Header(HEADER_SIZE, 3, ACK_SHARE_MEMORY))
    case SFlush(paths, _) => (SDone(3, paths), [])
    case _ => (pc, [])
  }

  datatype Action =
    | ClientWrite(k: nat) | ClientRead(k: nat) | ClientStep
    | ServerWrite(k: nat) | ServerRead(k: nat) | ServerStep

  predicate ClientMoves(s: State) {
    && s.client.out == [] && |s.client.got| == ClientNeeds(s.client.pc)
    && !s.client.pc.CDone? && !s.client.pc.CFailed?
  }

  predicate ServerMoves(s: State) {
    && s.server.out == [] && |s.server.got| == ServerNeeds(s.server.pc)
    && !s.server.pc.SDone? && !s.server.pc.SFailed? && (s.server.pc.SWaitFds? ==> s.fds != [])
  }

  predicate Enabled(s: State, a: Action) {
    match a
    case ClientWrite(k) => 0 < k <= |s.client.out|
    case ClientRead(k) => s.client.out == [] && 0 < k <= |s.down| && |s.client.got| + k <= ClientNeeds(s.client.pc)
    case ClientStep => ClientMoves(s)
    case ServerWrite(k) => 0 < k <= |s.server.out|
    case ServerRead(k) => s.server.out == [] && 0 < k <= |s.up| && |s.server.got| + k <= ServerNeeds(s.server.pc)
    case ServerStep => ServerMoves(s)
  }

  function Apply(c: Config, s: State, a: Action): State
    requires Enabled(s, a)
  {
    match a
    case ClientWrite(k) => s.(client := s.client.(out := s.client.out[k..]), up := s.up + s.client.out[..k])
    case ClientRead(k) => s.(client := s.client.(got := s.client.got + s.down[..k]), down := s.down[k..])
    case ClientStep =>
      var (pc, out) := ClientMove(c, s.client.pc, s.client.got);
      s.(client := Party(pc, out, []), fds := if pc.CWaitAck? then s.fds + [c.fds] else s.fds)
    case ServerWrite(k) => s.(server := s.server.(out := s.server.out[k..]), down := s.down + s.server.out[..k])
    case ServerRead(k) => s.(server := s.server.(got := s.server.got + s.up[..k]), up := s.up[k..])
    case ServerStep =>
      var (pc, out) := ServerMove(s.server.pc, s.server.got, s.fds);
      s.(server := Party(pc, out, []), fds := if s.server.pc.SWaitFds? then s.fds[1..] else s.fds)
  }

  predicate Runs(c: Config, s: State, run: seq<Action>)
    decreases run
  {
    run == [] || (Enabled(s, run[0]) && Runs(c, Apply(c, s, run[0]), run[1..]))
  }

  function Exec(c: Config, s: State, run: seq<Action>): State
    requires Runs(c, s, run)
    decreases run
  {
    if run == [] then s else Exec(c, Apply(c, s, run[0]), run[1..])
  }

  // ---------------------------------------------------------------------------------------------
  // The invariant
  // ---------------------------------------------------------------------------------------------

  /** The bytes on their way to the server, from those it has picked up to those not written yet. */
  function Up(s: State): seq<Byte> {
    s.server.got + s.up + s.client.out
  }

  function Down(s: State): seq<Byte> {
    s.client.got + s.down + s.server.out
  }

  /** The conversation, stage by stage: where the parties are and what is under way. */
  predicate Inv(c: Config, s: State) {
    && |c.buffer| < U16_LIMIT && |c.queue| < U16_LIMIT
    && var paths := Paths(c.buffer, c.queue);
    && var body := Body(c.buffer, c.queue);
    match (s.client.pc, s.server.pc)
    case (CStart, SStart) => Up(s) == [] && Down(s) == [] && s.fds == []
    case (CWaitVersion, SStart) =>
      c.memfd && Up(s) == Header(HEADER_SIZE, 3, EXCHANGE_VERSION) && Down(s) == [] && s.fds == []
    case (CWaitVersion, SWaitMeta) =>
      c.memfd && Up(s) == [] && Down(s) == Header(HEADER_SIZE, 3, EXCHANGE_VERSION) && s.fds == []
    case (CWaitReady, SWaitMeta) =>
      c.memfd && Up(s) == Metadata(MEMFD, 3, c.buffer, c.queue) && Down(s) == [] && s.fds == []
    case (CWaitReady, SBody(v, m, n)) =>
      c.memfd && v == 3 && m && n == |body| && Up(s) == body && Down(s) == [] && s.fds == []
    case (CWaitReady, SWaitFds(p)) =>
      c.memfd && p == paths && Up(s) == [] && Down(s) == Header(HEADER_SIZE, 3, ACK_READY_RECV_FD) && s.fds == []
    case (CWaitAck, SWaitFds(p)) => c.memfd && p == paths && Up(s) == [] && Down(s) == [] && s.fds == [c.fds]
    case (CWaitAck, SFlush(p, f)) =>
      c.memfd && p == paths && f == c.fds && Up(s) == [] && Down(s) == Header(HEADER_SIZE, 3, ACK_SHARE_MEMORY) && s.fds == []
    case (CWaitAck, SDone(v, p)) =>
      c.memfd && v == 3 && p == paths && Up(s) == [] && Down(s) == Header(HEADER_SIZE, 3, ACK_SHARE_MEMORY) && s.fds == []
    case (CDone(w), SFlush(p, f)) =>
      c.memfd && w == 3 && p == paths && f == c.fds && Up(s) == [] && Down(s) == [] && s.fds == []
    case (CDone(w), SDone(v, p)) => w == v == (if c.memfd then 3 else 2) && p == paths && Up(s) == [] && Down(s) == [] && s.fds == []
    case (CDone(w), SStart) =>
      !c.memfd && w == 2 && Up(s) == Metadata(FILE_PATH, 2, c.buffer, c.queue) && Down(s) == [] && s.fds == []
    case (CDone(w), SBody(v, m, n)) =>
      !c.memfd && w == 2 && v == 2 && !m && n == |body| && Up(s) == body && Down(s) == [] && s.fds == []
    case (CFlush, SStart) =>
      !c.memfd && Up(s) == Metadata(FILE_PATH, 2, c.buffer, c.queue) && Down(s) == [] && s.fds == []
    case (CFlush, SBody(v, m, n)) =>
      !c.memfd && v == 2 && !m && n == |body| && Up(s) == body && Down(s) == [] && s.fds == []
    case (CFlush, SDone(v, p)) => !c.memfd && v == 2 && p == paths && Up(s) == [] && Down(s) == [] && s.fds == []
    case _ => false
  }

  /** A piece moved from the front of `c` to the back of `b`. */
  lemma Handed(a: seq<Byte>, b: seq<Byte>, c: seq<Byte>, k: nat)
    requires k <= |c|
    ensures a + (b + c[..k]) + c[k..] == a + b + c
  {
    assert c == c[..k] + c[k..];
  }

  /** A piece moved from the front of `b` to the back of `a`. */
  lemma Taken(a: seq<Byte>, b: seq<Byte>, c: seq<Byte>, k: nat)
    requires k <= |b|
    ensures (a + b[..k]) + b[k..] + c == a + b + c
  {
    assert b == b[..k] + b[k..];
  }

  /** Handing bytes over changes no flow. */
  lemma CopyKeeps(c: Config, s: State, a: Action)
    requires Enabled(s, a) && !a.ClientStep? && !a.ServerStep?
    ensures var r := Apply(c, s, a);
            && Up(r) == Up(s) && Down(r) == Down(s) && r.fds == s.fds
            && r.client.pc == s.client.pc && r.server.pc == s.server.pc
  {
    match a
    case ClientWrite(k) => Handed(s.server.got, s.up, s.client.out, k);
    case ClientRead(k) => Taken(s.client.got, s.down, s.server.out, k);
    case ServerWrite(k) => Handed(s.client.got, s.down, s.server.out, k);
    case ServerRead(k) => Taken(s.server.got, s.up, s.client.out, k);
  }

  /** A flow that is exactly one header, read whole. */
  lemma OneHeader(got: seq<Byte>, rest: seq<Byte>, length: nat, version: Byte, msgType: Byte)
    requires |got| == HEADER_SIZE && got + rest == Header(length, version, msgType)
    requires length < U32_LIMIT && version != 0 && msgType <= 9
    ensures rest == [] && ReadHeader(got) == Fields(version, msgType, length)
  {
    assert |got + rest| == HEADER_SIZE;
    assert got + [] == got;
    assert got[..HEADER_SIZE] == got;
    HeaderFields(got, length, version, msgType);
  }

  /** The header of a metadata message, read whole. */
  lemma MetadataHeader(got: seq<Byte>, rest: seq<Byte>, msgType: Byte, version: Byte, buffer: seq<Byte>,
                       queue: seq<Byte>)
    requires |got| == HEADER_SIZE && got + rest == Metadata(msgType, version, buffer, queue)
    requires |buffer| < U16_LIMIT && |queue| < U16_LIMIT && version != 0 && msgType <= 9
    ensures rest == Body(buffer, queue) && ReadHeader(got) == Fields(version, msgType, HEADER_SIZE + |Body(buffer, queue)|)
  {
    hide Big;
    var n := (HEADER_SIZE + 4 + |buffer| + |queue|) % U32_LIMIT;
    var h := Header(n, version, msgType);
    assert got == (got + rest)[..HEADER_SIZE] == h;
    assert rest == (got + rest)[HEADER_SIZE..] == Body(buffer, queue);
    assert got[..HEADER_SIZE] == got;
    HeaderFields(got, n, version, msgType);
  }

  /** Nothing under way. */
  lemma Idle(a: seq<Byte>, b: seq<Byte>, c: seq<Byte>)
    requires a + b + c == []
    ensures a == [] && b == [] && c == []
  {
    assert |a + b + c| == |a| + |b| + |c|;
  }

  lemma Group(a: seq<Byte>, b: seq<Byte>, c: seq<Byte>)
    ensures a + b + c == a + (b + c)
  {
  }

  lemma ClientKeeps(c: Config, s: State)
    requires Inv(c, s) && ClientMoves(s)
    ensures Inv(c, Apply(c, s, ClientStep))
  {
    hide Header;
    hide Metadata;
    hide Body;
    hide Extract;
    hide ReadHeader;
    var got := s.client.got;
    Group(got, s.down, s.server.out);
    match s.client.pc
    case CStart => Idle(s.server.got, s.up, s.client.out);
    case CWaitVersion =>
      if s.server.pc.SStart? {
        Idle(got, s.down, s.server.out);
      } else {
        Idle(s.server.got, s.up, s.client.out);
        OneHeader(got, s.down + s.server.out, HEADER_SIZE, 3, EXCHANGE_VERSION);
        assert |s.down + s.server.out| == |s.down| + |s.server.out|;
      }
    case CWaitReady =>
      if s.server.pc.SWaitFds? {
        OneHeader(got, s.down + s.server.out, HEADER_SIZE, 3, ACK_READY_RECV_FD);
        assert |s.down + s.server.out| == |s.down| + |s.server.out|;
      } else {
        Idle(got, s.down, s.server.out);
      }
    case CWaitAck =>
      if s.server.pc.SWaitFds? {
        Idle(got, s.down, s.server.out);
      } else {
        OneHeader(got, s.down + s.server.out, HEADER_SIZE, 3, ACK_SHARE_MEMORY);
        assert |s.down + s.server.out| == |s.down| + |s.server.out|;
      }
    case _ =>
  }

  /** The whole body read, and nothing behind it. */
  lemma OneBody(got: seq<Byte>, rest: seq<Byte>, body: seq<Byte>)
    requires got + rest == body && |got| == |body|
    ensures rest == [] && got == body
  {
    assert |got + rest| == |got| + |rest|;
    assert got + [] == got;
  }

  lemma ServerStartKeeps(c: Config, s: State)
    requires Inv(c, s) && ServerMoves(s) && s.server.pc.SStart?
    ensures Inv(c, Apply(c, s, ServerStep))
  {
    hide Header;
    hide Metadata;
    hide Body;
    hide Extract;
    hide ReadHeader;
    var got, rest := s.server.got, s.up + s.client.out;
    Group(got, s.up, s.client.out);
    assert |rest| == |s.up| + |s.client.out|;
    if s.client.pc.CStart? {
      Idle(got, s.up, s.client.out);
    } else if s.client.pc.CWaitVersion? {
      Idle(s.client.got, s.down, s.server.out);
      OneHeader(got, rest, HEADER_SIZE, 3, EXCHANGE_VERSION);
    } else {
      MetadataHeader(got, rest, FILE_PATH, 2, c.buffer, c.queue);
    }
  }

  lemma ServerMetaKeeps(c: Config, s: State)
    requires Inv(c, s) && ServerMoves(s) && s.server.pc.SWaitMeta?
    ensures Inv(c, Apply(c, s, ServerStep))
  {
    hide Header;
    hide Metadata;
    hide Body;
    hide Extract;
    hide ReadHeader;
    var got, rest := s.server.got, s.up + s.client.out;
    Group(got, s.up, s.client.out);
    if s.client.pc.CWaitVersion? {
      Idle(got, s.up, s.client.out);
    } else {
      MetadataHeader(got, rest, MEMFD, 3, c.buffer, c.queue);
    }
  }

  lemma ServerBodyKeeps(c: Config, s: State)
    requires Inv(c, s) && ServerMoves(s) && s.server.pc.SBody?
    ensures Inv(c, Apply(c, s, ServerStep))
  {
    hide Header;
    hide Metadata;
    hide Body;
    hide Extract;
    var got, rest := s.server.got, s.up + s.client.out;
    Group(got, s.up, s.client.out);
    assert |rest| == |s.up| + |s.client.out|;
    OneBody(got, rest, Body(c.buffer, c.queue));
    ExtractBody(c.buffer, c.queue);
    Idle(s.client.got, s.down, s.server.out);
  }

  lemma ServerKeeps(c: Config, s: State)
    requires Inv(c, s) && ServerMoves(s)
    ensures Inv(c, Apply(c, s, ServerStep))
  {
    hide Header;
    hide Metadata;
    hide Body;
    hide Extract;
    hide ReadHeader;
    match s.server.pc
    case SStart => ServerStartKeeps(c, s);
    case SWaitMeta => ServerMetaKeeps(c, s);
    case SBody(_, _, _) => ServerBodyKeeps(c, s);
    case SWaitFds(_) => Idle(s.client.got, s.down, s.server.out);
    case _ =>
  }

  lemma StepKeeps(c: Config, s: State, a: Action)
    requires Inv(c, s) && Enabled(s, a)
    ensures Inv(c, Apply(c, s, a))
  {
    if a.ClientStep? {
      ClientKeeps(c, s);
    } else if a.ServerStep? {
      ServerKeeps(c, s);
    } else {
      CopyKeeps(c, s, a);
      SameFlows(c, s, Apply(c, s, a));
    }
  }

  lemma SameFlows(c: Config, s: State, r: State)
    requires Inv(c, s) && Up(r) == Up(s) && Down(r) == Down(s) && r.fds == s.fds
    requires r.client.pc == s.client.pc && r.server.pc == s.server.pc
    ensures Inv(c, r)
  {
    hide Up;
    hide Down;
    hide Header;
    hide Metadata;
    hide Body;
  }

  lemma {:induction false} RunKeeps(c: Config, s: State, run: seq<Action>)
    requires Inv(c, s) && Runs(c, s, run)
    ensures Inv(c, Exec(c, s, run))
    decreases run
  {
    hide Inv;
    if run != [] {
      StepKeeps(c, s, run[0]);
      RunKeeps(c, Apply(c, s, run[0]), run[1..]);
    }
  }

  // ---------------------------------------------------------------------------------------------
  // The handshake
  // ---------------------------------------------------------------------------------------------

  predicate Short(c: Config) {
    |c.buffer| < U16_LIMIT && |c.queue| < U16_LIMIT
  }

  predicate BothDone(s: State) {
    s.client.pc.CDone? && s.server.pc.SDone?
  }

  /** In no interleaving does a party meet an event it does not expect; and when both are done they
      agree on the version, the server has the client's paths, and no byte or descriptor is left. */
  lemma Agreement(c: Config, run: seq<Action>)
    requires Short(c) && Runs(c, Initial(), run)
    ensures var s := Exec(c, Initial(), run);
            && !s.client.pc.CFailed? && !s.server.pc.SFailed?
            && (BothDone(s) ==>
                  && s.client.pc.version == s.server.pc.version == (if c.memfd then 3 else 2)
                  && s.server.pc.paths == Paths(c.buffer, c.queue)
                  && s.up == [] && s.down == [] && s.fds == [])
            && (s.server.pc.SFlush? ==> s.server.pc.fds == c.fds)
  {
    RunKeeps(c, Initial(), run);
    var s := Exec(c, Initial(), run);
    if BothDone(s) {
      Idle(s.server.got, s.up, s.client.out);
      Idle(s.client.got, s.down, s.server.out);
    }
  }

  ghost predicate SomeEnabled(s: State) {
    exists a :: Enabled(s, a)
  }

  lemma Witness(s: State, a: Action)
    requires Enabled(s, a)
    ensures SomeEnabled(s)
  {
  }

  /** The client can read, move or is served by the server's pending write. */
  lemma ClientGoes(s: State)
    requires !s.client.pc.CDone? && !s.client.pc.CFailed? && |s.client.got| <= ClientNeeds(s.client.pc) <= |Down(s)|
    ensures SomeEnabled(s)
  {
    if s.client.out != [] {
      Witness(s, ClientWrite(1));
    } else if |s.client.got| == ClientNeeds(s.client.pc) {
      Witness(s, ClientStep);
    } else if s.down != [] {
      Witness(s, ClientRead(1));
    } else {
      assert |Down(s)| == |s.client.got| + |s.down| + |s.server.out|;
      Witness(s, ServerWrite(1));
    }
  }

  lemma ServerGoes(s: State)
    requires !s.server.pc.SDone? && !s.server.pc.SFailed? && |s.server.got| <= ServerNeeds(s.server.pc) <= |Up(s)|
    requires s.server.pc.SWaitFds? ==> s.fds != []
    ensures SomeEnabled(s)
  {
    if s.server.out != [] {
      Witness(s, ServerWrite(1));
    } else if |s.server.got| == ServerNeeds(s.server.pc) {
      Witness(s, ServerStep);
    } else if s.up != [] {
      Witness(s, ServerRead(1));
    } else {
      assert |Up(s)| == |s.server.got| + |s.up| + |s.client.out|;
      Witness(s, ClientWrite(1));
    }
  }

  /** Nobody has read more than the message it waits for. */
  predicate Measured(s: State) {
    |s.client.got| <= ClientNeeds(s.client.pc) && |s.server.got| <= ServerNeeds(s.server.pc)
  }

  lemma {:induction false} RunMeasured(c: Config, s: State, run: seq<Action>)
    requires Measured(s) && Runs(c, s, run)
    ensures Measured(Exec(c, s, run))
    decreases run
  {
    if run != [] {
      RunMeasured(c, Apply(c, s, run[0]), run[1..]);
    }
  }

  /** Until both are done some step is possible: the handshake cannot get stuck. */
  lemma NoDeadlock(c: Config, run: seq<Action>)
    requires Short(c) && Runs(c, Initial(), run)
    ensures var s := Exec(c, Initial(), run); BothDone(s) || SomeEnabled(s)
  {
    RunKeeps(c, Initial(), run);
    RunMeasured(c, Initial(), run);
    Unfinished(c, Exec(c, Initial(), run));
  }

  lemma Unfinished(c: Config, s: State)
    requires Inv(c, s) && Measured(s)
    ensures BothDone(s) || SomeEnabled(s)
  {
    hide Up;
    hide Down;
    hide SomeEnabled;
    if s.client.pc == CStart || s.client.pc == CFlush {
      ClientGoes(s);
    } else if s.client.pc.CDone? {
      if !s.server.pc.SDone? { ServerGoes(s); }
    } else if s.client.pc == CWaitVersion {
      if s.server.pc == SStart { ServerGoes(s); } else { ClientGoes(s); }
    } else if s.client.pc == CWaitReady {
      if s.server.pc.SWaitFds? { ClientGoes(s); } else { ServerGoes(s); }
    } else {
      if s.server.pc.SWaitFds? { ServerGoes(s); } else { ClientGoes(s); }
    }
  }

  // ---------------------------------------------------------------------------------------------
  // It ends
  // ---------------------------------------------------------------------------------------------

  /** What the client may still do: its moves, and two for each byte it may still send. */
  function ClientFuture(c: Config, pc: ClientPc): nat {
    var m := 2 * (HEADER_SIZE + |Body(c.buffer, c.queue)|);
    match pc
    case CStart => m + 2 * HEADER_SIZE + 5
    case CWaitVersion => m + 4
    case CWaitReady => 3
    case CWaitAck => 2
    case CFlush => 1
    case _ => 0
  }

  function ServerFuture(pc: ServerPc): nat {
    match pc
    case SStart => 6 * HEADER_SIZE + 6
    case SWaitMeta => 4 * HEADER_SIZE + 5
    case SBody(_, _, _) => 4 * HEADER_SIZE + 4
    case SWaitFds(_) => 2 * HEADER_SIZE + 3
    case SFlush(_, _) => 1
    case _ => 0
  }

  function Left(c: Config, s: State): nat {
    ClientFuture(c, s.client.pc) + ServerFuture(s.server.pc)
    + 2 * (|s.client.out| + |s.server.out|) + |s.up| + |s.down|
  }

  lemma StepDescends(c: Config, s: State, a: Action)
    requires Enabled(s, a)
    ensures Left(c, Apply(c, s, a)) < Left(c, s)
  {
    hide ReadHeader;
    hide Extract;
    hide Big;
  }

  lemma {:induction false} RunsEnd(c: Config, s: State, run: seq<Action>)
    requires Runs(c, s, run)
    ensures |run| + Left(c, Exec(c, s, run)) <= Left(c, s)
    decreases run
  {
    hide Left;
    if run != [] {
      StepDescends(c, s, run[0]);
      RunsEnd(c, Apply(c, s, run[0]), run[1..]);
    }
  }
}
