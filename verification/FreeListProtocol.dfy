/** The lock-free free list of one buffer class, as a state machine.

    Any number of threads of both processes run `push` and `pop` on one list.  Every shared
    access of either operation is a step of its own: the loads and compare-exchanges of `head`
    and `tail`, the two stores of `link_next`, the fetch-and-adds of `size` and `counter`, and the
    flag writes on a slice that was just popped or is about to be pushed.  Holders of a slice may
    rewrite its header in any way between a pop and the next push.
 */
module FreeListProtocol {
  import opened Basics

  type Node = nat      // offset of a buffer inside the list's region
  type Tid = nat

  const MAX_RETRY := 200

  datatype Header = Header(next: Node, hasNext: bool, inUsed: bool)

  /** Where a thread is inside a call; each constructor names the access it is about to make. */
  datatype Pc =
    | Idle
    | PushReset(node: Node)
    | PushLoad(node: Node)
    | PushCas(node: Node, seen: Node)
    | PushNext(node: Node, prev: Node)
    | PushFlag(node: Node, prev: Node)
    | PushSize
    | PushCounter
    | PopHead
    | PopSub(seen: Node)
    | PopFlag(seen: Node, retry: nat)
    | PopNext(seen: Node, retry: nat, version: nat)
    | PopCas(seen: Node, next: Node, retry: nat, version: nat)
    | PopLast(retry: nat)
    | PopReload(retry: nat)
    | PopUndo
    | PopClear(node: Node)
    | PopMark(node: Node)
    | PopCount(node: Node)

  datatype Owner = Free | Held | InCall(t: Tid)

  /** `owner`, `chain`, `debtor` and `version` are auxiliary: no step branches on them.  `chain`
      lists the free nodes in the order of their tail exchanges, `debtor` names the pusher that
      still owes the link into a node, `version` counts the successful head exchanges. */
  datatype State = State(
    headers: map<Node, Header>,
    head: Node,
    tail: Node,
    size: int,
    counter: int,
    threads: map<Tid, Pc>,
    owner: map<Node, Owner>,
    chain: seq<Node>,
    debtor: map<Node, Tid>,
    version: nat)

  datatype Action =
    | StartPush(t: Tid, n: Node)
    | StartPop(t: Tid)
    | Advance(t: Tid)
    | WriteHeld(n: Node, h: Header)

  predicate Enabled(s: State, a: Action) {
    match a
    case StartPush(t, n) => t in s.threads && s.threads[t].Idle? && n in s.owner && s.owner[n].Held?
    case StartPop(t) => t in s.threads && s.threads[t].Idle?
    case Advance(t) => t in s.threads && !s.threads[t].Idle? && Touches(s.threads[t]) <= s.headers.Keys
    case WriteHeld(n, _) => n in s.headers && n in s.owner && s.owner[n].Held?
  }

  /** The nodes whose header the next access of a thread touches. */
  function Touches(pc: Pc): set<Node> {
    match pc
    case PushReset(n) => {n}
    case PushNext(_, p) => {p}
    case PushFlag(_, p) => {p}
    case PopFlag(n, _) => {n}
    case PopNext(n, _, _) => {n}
    case PopClear(n) => {n}
    case PopMark(n) => {n}
    case _ => {}
  }

  /** The program of `push` and `pop`: the access of `t` and where it leaves the thread. */
  function NextPc(s: State, t: Tid): Pc
    requires Enabled(s, Advance(t))
  {
    match s.threads[t]
    case Idle => Idle
    case PushReset(n) => PushLoad(n)
    case PushLoad(n) => PushCas(n, s.tail)
    case PushCas(n, seen) => if s.tail == seen then PushNext(n, seen) else PushLoad(n)
    case PushNext(n, prev) => PushFlag(n, prev)
    case PushFlag(n, prev) => PushSize
    case PushSize => PushCounter
    case PushCounter => Idle
    case PopHead => PopSub(s.head)
    case PopSub(seen) => if s.size <= 1 then PopUndo else PopFlag(seen, 0)
    case PopFlag(seen, r) =>
      if r >= MAX_RETRY then PopUndo
      else if s.headers[seen].hasNext then PopNext(seen, r, s.version)
      else PopLast(r)
    case PopNext(seen, r, v) => PopCas(seen, s.headers[seen].next, r, v)
    case PopCas(seen, next, r, _) => if s.head == seen then PopClear(seen) else PopReload(r)
    case PopLast(r) => if s.size <= 1 then PopUndo else PopReload(r)
    case PopReload(r) => PopFlag(s.head, r + 1)
    case PopUndo => Idle
    case PopClear(n) => PopMark(n)
    case PopMark(n) => PopCount(n)
    case PopCount(n) => Idle
  }

  /** The header store of an access, if it makes one. */
  function HeaderStore(s: State, t: Tid): Option<(Node, Header)>
    requires Enabled(s, Advance(t))
  {
    match s.threads[t]
    case PushReset(n) => Some((n, s.headers[n].(hasNext := false, inUsed := false)))
    case PushNext(n, prev) => Some((prev, s.headers[prev].(next := n)))
    case PushFlag(n, prev) => Some((prev, s.headers[prev].(hasNext := true)))
    case PopClear(n) => Some((n, s.headers[n].(hasNext := false, inUsed := false)))
    case PopMark(n) => Some((n, s.headers[n].(inUsed := true)))
    case _ => None
  }

  function SizeDelta(pc: Pc): int {
    if pc.PushSize? || pc.PopUndo? then 1 else if pc.PopSub? then -1 else 0
  }

  function CounterDelta(pc: Pc): int {
    if pc.PopCount? then 1 else if pc.PushCounter? then -1 else 0
  }

  /** The tail exchange of `t` would succeed. */
  predicate Pushing(s: State, t: Tid) {
    t in s.threads && s.threads[t].PushCas? && s.threads[t].seen == s.tail
  }

  /** The head exchange of `t` would succeed. */
  predicate Popping(s: State, t: Tid) {
    t in s.threads && s.threads[t].PopCas? && s.threads[t].seen == s.head
  }

  function Stored(m: map<Node, Header>, w: Option<(Node, Header)>): map<Node, Header> {
    if w.Some? then m[w.value.0 := w.value.1] else m
  }

  function NewOwner(s: State, t: Tid): map<Node, Owner>
    requires t in s.threads
  {
    if Pushing(s, t) then s.owner[s.threads[t].node := Free]
    else if Popping(s, t) then s.owner[s.threads[t].seen := InCall(t)]
    else if s.threads[t].PopCount? then s.owner[s.threads[t].node := Held]
    else s.owner
  }

  function NewChain(s: State, t: Tid): seq<Node> {
    if Pushing(s, t) then s.chain + [s.threads[t].node]
    else if Popping(s, t) && s.chain != [] then s.chain[1..]
    else s.chain
  }

  function NewDebtor(s: State, t: Tid): map<Node, Tid>
    requires t in s.threads
  {
    if Pushing(s, t) then s.debtor[s.threads[t].node := t]
    else if s.threads[t].PushFlag? then s.debtor - {s.threads[t].node}
    else s.debtor
  }

  function Step(s: State, t: Tid): State
    requires Enabled(s, Advance(t))
  {
    State(
      headers := Stored(s.headers, HeaderStore(s, t)),
      head := if Popping(s, t) then s.threads[t].next else s.head,
      tail := if Pushing(s, t) then s.threads[t].node else s.tail,
      size := s.size + SizeDelta(s.threads[t]),
      counter := s.counter + CounterDelta(s.threads[t]),
      threads := s.threads[t := NextPc(s, t)],
      owner := NewOwner(s, t),
      chain := NewChain(s, t),
      debtor := NewDebtor(s, t),
      version := if Popping(s, t) then s.version + 1 else s.version)
  }

  function Apply(s: State, a: Action): State
    requires Enabled(s, a)
  {
    match a
    case StartPush(t, n) => s.(threads := s.threads[t := PushReset(n)], owner := s.owner[n := InCall(t)])
    case StartPop(t) => s.(threads := s.threads[t := PopHead])
    case WriteHeld(n, h) => s.(headers := s.headers[n := h])
    case Advance(t) => Step(s, t)
  }

  // ---------------------------------------------------------------------------------------------
  // What every state keeps
  // ---------------------------------------------------------------------------------------------

  /** A thread that owns a node: a pusher before its tail exchange, a popper after its head exchange. */
  predicate HasNode(pc: Pc) {
    pc.PushReset? || pc.PushLoad? || pc.PushCas? || pc.PopClear? || pc.PopMark? || pc.PopCount?
  }

  predicate Owns(pc: Pc, n: Node) {
    HasNode(pc) && pc.node == n
  }

  /** A pusher that has exchanged the tail and still owes the link into `n`. */
  predicate Owes(pc: Pc, n: Node) {
    (pc.PushNext? || pc.PushFlag?) && pc.node == n
  }

  /** The free nodes form one non-empty sequence of distinct nodes from `head` to `tail`. */
  predicate Shape(s: State) {
    && |s.chain| >= 1
    && Distinct(s.chain)
    && s.chain[0] == s.head
    && s.chain[|s.chain| - 1] == s.tail
  }

  /** The owner of a node is the chain, a caller, or the one thread whose call holds it. */
  predicate Ownership(s: State) {
    s.owner.Keys == s.headers.Keys && ChainOwned(s.owner, s.chain) && CallsOwned(s.owner, s.threads)
  }

  predicate ChainOwned(owner: map<Node, Owner>, chain: seq<Node>) {
    && (forall n | n in chain :: n in owner && owner[n] == Free)
    && (forall n | n in owner && owner[n] == Free :: n in chain)
  }

  predicate CallsOwned(owner: map<Node, Owner>, ts: map<Tid, Pc>) {
    && (forall t | t in ts && HasNode(ts[t]) :: ts[t].node in owner && owner[ts[t].node] == InCall(t))
    && (forall n | n in owner && owner[n].InCall? :: owner[n].t in ts && Owns(ts[owner[n].t], n))
  }

  /** Every adjacent pair is linked in the headers, or owed by the pusher `debtor` names. */
  predicate Links(s: State) {
    && (forall n | n in s.chain :: n in s.headers && !s.headers[n].inUsed)
    && s.tail in s.headers
    && !s.headers[s.tail].hasNext
    && (forall i | 0 <= i < |s.chain| - 1 :: LinkOk(s, i))
  }

  predicate LinkOk(s: State, i: nat)
    requires i + 1 < |s.chain|
  {
    var p, n := s.chain[i], s.chain[i + 1];
    p in s.headers &&
    if s.headers[p].hasNext then s.headers[p].next == n
    else n in s.debtor && s.debtor[n] in s.threads && Owes(s.threads[s.debtor[n]], n)
         && s.threads[s.debtor[n]].prev == p
  }

  /** A debt is always for an adjacent pair whose first node is not linked yet, and only the
      pusher that `debtor` names owes the link into a node. */
  ghost predicate Debts(s: State) {
    forall t | t in s.threads :: DebtOk(s, t, s.threads[t])
  }

  ghost predicate DebtOk(s: State, t: Tid, pc: Pc) {
    pc.PushNext? || pc.PushFlag? ==>
      && pc.node in s.debtor && s.debtor[pc.node] == t
      && Adjacent(s.chain, pc.prev, pc.node)
      && pc.prev in s.headers && !s.headers[pc.prev].hasNext
      && (pc.PushFlag? ==> s.headers[pc.prev].next == pc.node)
  }

  ghost predicate Adjacent(c: seq<Node>, p: Node, n: Node) {
    exists i | 0 <= i < |c| - 1 :: c[i] == p && c[i + 1] == n
  }

  /** What the local variables of threads in flight say about the shared state. */
  predicate Locals(s: State) {
    forall t | t in s.threads :: LocalOk(s, s.threads[t])
  }

  predicate LocalOk(s: State, pc: Pc) {
    match pc
    case PushLoad(n) => n in s.headers && !s.headers[n].hasNext && !s.headers[n].inUsed
    case PushCas(n, _) => n in s.headers && !s.headers[n].hasNext && !s.headers[n].inUsed
    case PopSub(n) => n in s.headers
    case PopFlag(n, _) => n in s.headers
    case PopNext(n, _, v) =>
      n in s.headers && v <= s.version
      && (v == s.version && s.head == n ==> s.headers[n].hasNext)
    case PopCas(n, x, _, v) =>
      n in s.headers && v <= s.version
      && (v == s.version && s.head == n ==> s.headers[n].hasNext && s.headers[n].next == x)
    case PopMark(n) => n in s.headers && !s.headers[n].hasNext
    case PopCount(n) => n in s.headers && !s.headers[n].hasNext && s.headers[n].inUsed
    case _ => true
  }

  /** The fetch-and-adds a thread still owes. */
  datatype Due = SizeAdd | SizeSub | CountAdd | CountSub

  predicate Pending(d: Due, pc: Pc) {
    match d
    case SizeAdd => pc.PushNext? || pc.PushFlag? || pc.PushSize?
    case SizeSub =>
      pc.PopFlag? || pc.PopNext? || pc.PopCas? || pc.PopLast? || pc.PopReload? || pc.PopUndo?
    case CountAdd => pc.PopClear? || pc.PopMark? || pc.PopCount?
    case CountSub => pc.PushNext? || pc.PushFlag? || pc.PushSize? || pc.PushCounter?
  }

  function Waiting(d: Due, ts: map<Tid, Pc>): set<Tid> {
    set t | t in ts && Pending(d, ts[t])
  }

  function Count(d: Due, ts: map<Tid, Pc>): nat {
    |Waiting(d, ts)|
  }

  /** `size` is the chain length less the additions not yet made and the subtractions made early;
      `counter` is the number of nodes off the chain, corrected in the same way. */
  predicate Accounting(s: State) {
    && s.size == |s.chain| - Count(SizeAdd, s.threads) - Count(SizeSub, s.threads)
    && s.counter == |s.headers| - |s.chain| - Count(CountAdd, s.threads) + Count(CountSub, s.threads)
  }

  ghost predicate Inv(s: State) {
    Shape(s) && Ownership(s) && Links(s) && Debts(s) && Locals(s) && Accounting(s)
  }

  /** The state `BufferList::create` leaves: all nodes chained, none held. */
  predicate Init(s: State) {
    && |s.chain| >= 1
    && Distinct(s.chain)
    && s.headers.Keys == s.owner.Keys == Elems(s.chain)
    && s.head == s.chain[0]
    && s.tail == s.chain[|s.chain| - 1]
    && (forall n | n in s.owner :: s.owner[n] == Free)
    && (forall i | 0 <= i < |s.chain| - 1 :: s.headers[s.chain[i]] == Header(s.chain[i + 1], true, false))
    && !s.headers[s.tail].hasNext && !s.headers[s.tail].inUsed
    && s.size == |s.chain|
    && s.counter == 0
    && (forall t | t in s.threads :: s.threads[t].Idle?)
    && s.debtor == map[]
    && s.version == 0
  }

  // ---------------------------------------------------------------------------------------------
  // Counting
  // ---------------------------------------------------------------------------------------------

  lemma CountUpdate(d: Due, ts: map<Tid, Pc>, t: Tid, pc: Pc)
    requires t in ts
    ensures Count(d, ts[t := pc]) ==
            Count(d, ts) - (if Pending(d, ts[t]) then 1 else 0) + (if Pending(d, pc) then 1 else 0)
  {
    hide Pending;
    var base := Waiting(d, ts) - {t};
    assert Waiting(d, ts[t := pc]) == if Pending(d, pc) then base + {t} else base;
    assert Waiting(d, ts) == if Pending(d, ts[t]) then base + {t} else base;
  }

  // ---------------------------------------------------------------------------------------------
  // Preservation, clause by clause
  // ---------------------------------------------------------------------------------------------

  lemma NothingDue(ts: map<Tid, Pc>, d: Due)
    requires forall t | t in ts :: ts[t].Idle?
    ensures Count(d, ts) == 0
  {
    assert Waiting(d, ts) == {};
  }

  lemma InitAccounting(s: State)
    requires Init(s)
    ensures Accounting(s)
  {
    hide Count;
    ElemsSize(s.chain);
    assert |s.headers| == |s.headers.Keys|;
    forall d: Due ensures Count(d, s.threads) == 0 { NothingDue(s.threads, d); }
  }

  lemma InitInv(s: State)
    requires Init(s)
    ensures Inv(s)
  {
    InitAccounting(s);
    hide Accounting;
    forall n | n in s.chain ensures n in s.headers && !s.headers[n].inUsed {
      var i :| 0 <= i < |s.chain| && s.chain[i] == n;
      assert i < |s.chain| - 1 ==> s.headers[s.chain[i]] == Header(s.chain[i + 1], true, false);
    }
  }

  /** The exchange installs the link the head carries now. */
  predicate FreshLink(s: State, t: Tid)
    requires Popping(s, t)
  {
    && s.head in s.headers
    && s.headers[s.head].hasNext
    && s.headers[s.head].next == s.threads[t].next
  }

  /** What a run is asked for: a head exchange that succeeds installs the current link. */
  predicate Sound(s: State, a: Action) {
    a.Advance? && Popping(s, a.t) ==> FreshLink(s, a.t)
  }

  lemma ShapeStep(s: State, t: Tid)
    requires Shape(s) && Links(s) && Enabled(s, Advance(t)) && Sound(s, Advance(t))
    requires Pushing(s, t) ==> s.threads[t].node !in s.chain
    ensures Shape(Step(s, t))
  {
    if Popping(s, t) {
      assert |s.chain| >= 2;
      assert LinkOk(s, 0);
    }
  }

  function Ind(d: Due, pc: Pc): int {
    if Pending(d, pc) then 1 else 0
  }

  lemma SizeBalance(s: State, t: Tid)
    requires Enabled(s, Advance(t))
    ensures SizeDelta(s.threads[t]) + Ind(SizeAdd, NextPc(s, t)) + Ind(SizeSub, NextPc(s, t))
            == (if Pushing(s, t) then 1 else if Popping(s, t) then -1 else 0)
               + Ind(SizeAdd, s.threads[t]) + Ind(SizeSub, s.threads[t])
  {
  }

  lemma CounterBalance(s: State, t: Tid)
    requires Enabled(s, Advance(t))
    ensures CounterDelta(s.threads[t]) + Ind(CountAdd, NextPc(s, t)) - Ind(CountSub, NextPc(s, t))
            == (if Pushing(s, t) then -1 else if Popping(s, t) then 1 else 0)
               + Ind(CountAdd, s.threads[t]) - Ind(CountSub, s.threads[t])
  {
  }

  lemma AccountingStep(s: State, t: Tid)
    requires Accounting(s) && Enabled(s, Advance(t)) && s.chain != []
    ensures Accounting(Step(s, t))
  {
    SizeBalance(s, t);
    CounterBalance(s, t);
    var pc := NextPc(s, t);
    CountUpdate(SizeAdd, s.threads, t, pc);
    CountUpdate(SizeSub, s.threads, t, pc);
    CountUpdate(CountAdd, s.threads, t, pc);
    CountUpdate(CountSub, s.threads, t, pc);
    KeysKept(s.headers, HeaderStore(s, t));
  }

  lemma KeysKept(m: map<Node, Header>, w: Option<(Node, Header)>)
    requires w.Some? ==> w.value.0 in m
    ensures Stored(m, w).Keys == m.Keys
    ensures |Stored(m, w)| == |m|
  {
    assert Stored(m, w).Keys == m.Keys;
    assert |Stored(m, w)| == |Stored(m, w).Keys|;
    assert |m| == |m.Keys|;
  }

  /** A node changes hands only at the two exchanges and when a pop returns. */
  lemma OwnsStep(s: State, t: Tid)
    requires Enabled(s, Advance(t))
    ensures Pushing(s, t) || s.threads[t].PopCount? ==> !HasNode(NextPc(s, t)) && HasNode(s.threads[t])
    ensures Popping(s, t) ==> Owns(NextPc(s, t), s.head) && !HasNode(s.threads[t])
    ensures !Pushing(s, t) && !Popping(s, t) && !s.threads[t].PopCount? ==>
              HasNode(NextPc(s, t)) == HasNode(s.threads[t])
              && (HasNode(s.threads[t]) ==> NextPc(s, t).node == s.threads[t].node)
  {
  }

  lemma ChainOwnedStep(s: State, t: Tid)
    requires Shape(s) && Ownership(s) && Enabled(s, Advance(t))
    ensures ChainOwned(NewOwner(s, t), NewChain(s, t))
  {
    var c := NewChain(s, t);
    if Pushing(s, t) {
      assert forall m :: m in c <==> m in s.chain || m == s.threads[t].node;
    } else if Popping(s, t) {
      assert s.chain == [s.head] + c;
      assert forall m :: m in c <==> m in s.chain && m != s.head;
    }
  }

  lemma CallsOwnedStep(s: State, t: Tid)
    requires Shape(s) && Ownership(s) && Enabled(s, Advance(t))
    ensures NewOwner(s, t).Keys == s.owner.Keys
    ensures CallsOwned(NewOwner(s, t), s.threads[t := NextPc(s, t)])
  {
    OwnsStep(s, t);
  }

  lemma OwnershipStep(s: State, t: Tid)
    requires Shape(s) && Ownership(s) && Enabled(s, Advance(t))
    ensures Ownership(Step(s, t))
  {
    KeysKept(s.headers, HeaderStore(s, t));
    ChainOwnedStep(s, t);
    CallsOwnedStep(s, t);
  }

  /** A step stores only into a node its thread owns, or into an unlinked chain node it owes a link. */
  lemma StoreTarget(s: State, t: Tid)
    requires Ownership(s) && Debts(s) && Enabled(s, Advance(t))
    ensures var w := HeaderStore(s, t);
            w.Some? ==>
              if s.threads[t].PushNext? || s.threads[t].PushFlag?
              then w.value.0 in s.chain && w.value.0 == s.threads[t].prev && !s.headers[w.value.0].hasNext
              else Owns(s.threads[t], w.value.0) && w.value.0 !in s.chain
  {
    assert DebtOk(s, t, s.threads[t]);
  }

  lemma OwnLocal(s: State, t: Tid)
    requires Shape(s) && Locals(s) && Links(s) && Enabled(s, Advance(t))
    ensures LocalOk(Step(s, t), NextPc(s, t))
  {
    assert LocalOk(s, s.threads[t]);
  }

  lemma OtherLocal(s: State, t: Tid, u: Tid)
    requires Shape(s) && Ownership(s) && Debts(s) && Locals(s) && Enabled(s, Advance(t))
    requires u in s.threads && u != t
    ensures LocalOk(Step(s, t), s.threads[u])
  {
    StoreTarget(s, t);
    assert LocalOk(s, s.threads[u]);
    var w := HeaderStore(s, t);
    if w.Some? && HasNode(s.threads[u]) {
      assert w.value.0 != s.threads[u].node;
    }
  }

  lemma LocalsStep(s: State, t: Tid)
    requires Shape(s) && Ownership(s) && Links(s) && Debts(s) && Locals(s) && Enabled(s, Advance(t))
    ensures Locals(Step(s, t))
  {
    var s' := Step(s, t);
    forall u | u in s'.threads ensures LocalOk(s', s'.threads[u]) {
      if u == t { OwnLocal(s, t); } else { OtherLocal(s, t, u); }
    }
  }

  /** A pair whose link is owed stays adjacent: its first node is not the head being popped. */
  lemma OwedStaysAdjacent(s: State, t: Tid, p: Node, n: Node)
    requires Shape(s) && Enabled(s, Advance(t)) && Sound(s, Advance(t)) && Adjacent(s.chain, p, n)
    requires p in s.headers && !s.headers[p].hasNext
    ensures Adjacent(NewChain(s, t), p, n)
  {
    var i :| 0 <= i < |s.chain| - 1 && s.chain[i] == p && s.chain[i + 1] == n;
    var c := NewChain(s, t);
    if Popping(s, t) {
      assert i > 0;
      assert c[i - 1] == p && c[i] == n;
    } else {
      assert c[i] == p && c[i + 1] == n;
    }
  }

  lemma OtherDebt(s: State, t: Tid, u: Tid)
    requires Shape(s) && Ownership(s) && Links(s) && Debts(s) && Enabled(s, Advance(t)) && Sound(s, Advance(t))
    requires u in s.threads && u != t
    ensures DebtOk(Step(s, t), u, s.threads[u])
  {
    var pc := s.threads[u];
    if pc.PushNext? || pc.PushFlag? {
      StoreTarget(s, t);
      assert DebtOk(s, u, pc);
      assert DebtOk(s, t, s.threads[t]);
      OwedStaysAdjacent(s, t, pc.prev, pc.node);
      DebtPrev(s, t, u);
      hide Adjacent;
      hide NewChain;
    }
  }

  /** Two pushers in debt owe links out of different nodes. */
  lemma DebtPrev(s: State, t: Tid, u: Tid)
    requires Shape(s) && Debts(s) && t in s.threads && u in s.threads && u != t
    requires s.threads[u].PushNext? || s.threads[u].PushFlag?
    ensures s.threads[t].PushNext? || s.threads[t].PushFlag? ==>
              s.threads[t].prev != s.threads[u].prev && s.threads[t].node != s.threads[u].node
  {
    assert DebtOk(s, u, s.threads[u]) && DebtOk(s, t, s.threads[t]);
  }

  lemma OwnDebt(s: State, t: Tid)
    requires Shape(s) && Links(s) && Debts(s) && Enabled(s, Advance(t))
    ensures DebtOk(Step(s, t), t, NextPc(s, t))
  {
    assert DebtOk(s, t, s.threads[t]);
    if Pushing(s, t) {
      var c, i := NewChain(s, t), |s.chain| - 1;
      assert c[i] == s.tail && c[i + 1] == s.threads[t].node;
    }
  }

  lemma DebtsStep(s: State, t: Tid)
    requires Shape(s) && Ownership(s) && Links(s) && Debts(s) && Enabled(s, Advance(t)) && Sound(s, Advance(t))
    ensures Debts(Step(s, t))
  {
    var s' := Step(s, t);
    forall u | u in s'.threads ensures DebtOk(s', u, s'.threads[u]) {
      if u == t { OwnDebt(s, t); } else { OtherDebt(s, t, u); }
    }
  }

  lemma ChainHeaders(s: State, t: Tid)
    requires Shape(s) && Ownership(s) && Links(s) && Debts(s) && Locals(s) && Enabled(s, Advance(t))
    ensures var s' := Step(s, t);
            forall n | n in s'.chain :: n in s'.headers && !s'.headers[n].inUsed
    ensures var s' := Step(s, t); s'.tail in s'.headers && !s'.headers[s'.tail].hasNext
  {
    StoreTarget(s, t);
    assert LocalOk(s, s.threads[t]);
    assert DebtOk(s, t, s.threads[t]);
    var s' := Step(s, t);
    assert forall n | n in s'.chain :: n in s.chain || (Pushing(s, t) && n == s.threads[t].node);
  }

  /** A pair that stays adjacent stays linked or owed. */
  lemma LinkKept(s: State, t: Tid, i: nat)
    requires Shape(s) && Ownership(s) && Links(s) && Debts(s) && Enabled(s, Advance(t)) && Sound(s, Advance(t))
    requires i + 1 < |s.chain| && (Popping(s, t) ==> i > 0)
    ensures var j := if Popping(s, t) then i - 1 else i;
            j + 1 < |NewChain(s, t)| && NewChain(s, t)[j] == s.chain[i] && NewChain(s, t)[j + 1] == s.chain[i + 1]
            && LinkOk(Step(s, t), j)
  {
    assert LinkOk(s, i);
    StoreTarget(s, t);
    assert DebtOk(s, t, s.threads[t]);
    var p, n := s.chain[i], s.chain[i + 1];
    if s.threads[t].PushFlag? && s.threads[t].prev == p {
      var k :| 0 <= k < |s.chain| - 1 && s.chain[k] == s.threads[t].prev && s.chain[k + 1] == s.threads[t].node;
      assert k == i;
    }
    if !s.headers[p].hasNext && s.debtor[n] != t {
      DebtPrev(s, t, s.debtor[n]);
      assert Pushing(s, t) ==> s.threads[t].node !in s.chain;
    }
  }

  lemma LinksStep(s: State, t: Tid)
    requires Shape(s) && Ownership(s) && Links(s) && Debts(s) && Locals(s)
    requires Enabled(s, Advance(t)) && Sound(s, Advance(t))
    ensures Links(Step(s, t))
  {
    var s' := Step(s, t);
    ChainHeaders(s, t);
    forall j | 0 <= j < |s'.chain| - 1 ensures LinkOk(s', j) {
      if Pushing(s, t) && j == |s.chain| - 1 {
        OwnDebt(s, t);
      } else {
        LinkKept(s, t, if Popping(s, t) then j + 1 else j);
      }
    }
  }

  lemma StartInv(s: State, a: Action)
    requires Inv(s) && Enabled(s, a) && (a.StartPop? || a.StartPush?)
    ensures Inv(Apply(s, a))
  {
    StartShape(s, a);
    StartAccounting(s, a);
    StartOwnership(s, a);
    StartLinks(s, a);
  }

  lemma StartShape(s: State, a: Action)
    requires Shape(s) && Enabled(s, a) && !a.Advance?
    ensures Shape(Apply(s, a))
  {
  }

  lemma StartOwnership(s: State, a: Action)
    requires Ownership(s) && Enabled(s, a) && (a.StartPop? || a.StartPush?)
    ensures Ownership(Apply(s, a))
  {
  }

  lemma StartAccounting(s: State, a: Action)
    requires Accounting(s) && Enabled(s, a) && (a.StartPop? || a.StartPush?)
    ensures Accounting(Apply(s, a))
  {
    var pc := if a.StartPop? then PopHead else PushReset(a.n);
    CountUpdate(SizeAdd, s.threads, a.t, pc);
    CountUpdate(SizeSub, s.threads, a.t, pc);
    CountUpdate(CountAdd, s.threads, a.t, pc);
    CountUpdate(CountSub, s.threads, a.t, pc);
  }

  lemma StartLinks(s: State, a: Action)
    requires Links(s) && Debts(s) && Locals(s) && Enabled(s, a) && (a.StartPop? || a.StartPush?)
    ensures Links(Apply(s, a)) && Debts(Apply(s, a)) && Locals(Apply(s, a))
  {
    var s' := Apply(s, a);
    forall u | u in s'.threads ensures DebtOk(s', u, s'.threads[u]) && LocalOk(s', s'.threads[u]) {
      assert DebtOk(s, u, s.threads[u]) && LocalOk(s, s.threads[u]);
    }
    forall i | 0 <= i < |s'.chain| - 1 ensures LinkOk(s', i) {
      assert LinkOk(s, i);
    }
  }

  lemma WriteHeldInv(s: State, n: Node, h: Header)
    requires Inv(s) && Enabled(s, WriteHeld(n, h))
    ensures Inv(Apply(s, WriteHeld(n, h)))
  {
    var s' := Apply(s, WriteHeld(n, h));
    KeysKept(s.headers, Some((n, h)));
    assert n !in s.chain;
    forall u | u in s'.threads ensures DebtOk(s', u, s'.threads[u]) && LocalOk(s', s'.threads[u]) {
      assert DebtOk(s, u, s.threads[u]) && LocalOk(s, s.threads[u]);
      if HasNode(s.threads[u]) { assert s.threads[u].node != n; }
    }
    forall i | 0 <= i < |s'.chain| - 1 ensures LinkOk(s', i) {
      assert LinkOk(s, i);
    }
  }

  lemma StepInv(s: State, t: Tid)
    requires Inv(s) && Enabled(s, Advance(t)) && Sound(s, Advance(t))
    ensures Inv(Step(s, t))
  {
    ShapeStep(s, t);
    OwnershipStep(s, t);
    LinksStep(s, t);
    DebtsStep(s, t);
    LocalsStep(s, t);
    AccountingStep(s, t);
  }

  lemma ActionInv(s: State, a: Action)
    requires Inv(s) && Enabled(s, a) && Sound(s, a)
    ensures Inv(Apply(s, a))
  {
    match a
    case StartPush(_, _) => StartInv(s, a);
    case StartPop(_) => StartInv(s, a);
    case WriteHeld(n, h) => WriteHeldInv(s, n, h);
    case Advance(t) => StepInv(s, t);
  }

  /** An exchange that installs anything but the current link breaks the list. */
  lemma StaleLinkBreaks(s: State, t: Tid)
    requires Inv(s) && Enabled(s, Advance(t)) && Popping(s, t) && !FreshLink(s, t)
    ensures !Inv(Step(s, t))
  {
    var s' := Step(s, t);
    if |s.chain| >= 2 && s.chain[1] == s.threads[t].next {
      assert LinkOk(s, 0);
      var u := s.debtor[s.chain[1]];
      assert s'.threads[u] == s.threads[u] && s'.threads[u].prev == s.head;
      assert s.chain == [s.head] + s'.chain;
      assert s.head !in s'.chain;
      assert !DebtOk(s', u, s'.threads[u]);
    }
  }

  lemma ActionInvIff(s: State, a: Action)
    requires Inv(s) && Enabled(s, a)
    ensures Inv(Apply(s, a)) <==> Sound(s, a)
  {
    if Sound(s, a) { ActionInv(s, a); } else { StaleLinkBreaks(s, a.t); }
  }

  // ---------------------------------------------------------------------------------------------
  // Whole runs
  // ---------------------------------------------------------------------------------------------

  predicate Runs(s: State, acts: seq<Action>)
    decreases acts
  {
    acts == [] || (Enabled(s, acts[0]) && Runs(Apply(s, acts[0]), acts[1..]))
  }

  function Exec(s: State, acts: seq<Action>): State
    requires Runs(s, acts)
    decreases acts
  {
    if acts == [] then s else Exec(Apply(s, acts[0]), acts[1..])
  }

  /** The list is intact in every state of the run. */
  ghost predicate AlwaysInv(s: State, acts: seq<Action>)
    requires Runs(s, acts)
    decreases acts
  {
    Inv(s) && (acts == [] || AlwaysInv(Apply(s, acts[0]), acts[1..]))
  }

  predicate AlwaysSound(s: State, acts: seq<Action>)
    requires Runs(s, acts)
    decreases acts
  {
    acts == [] || (Sound(s, acts[0]) && AlwaysSound(Apply(s, acts[0]), acts[1..]))
  }

  /** Over every interleaving of any number of pushes and pops, the list is intact throughout
      exactly when every successful head exchange installs the link the head carries then. */
  lemma {:induction false} RunInvIff(s: State, acts: seq<Action>)
    requires Inv(s) && Runs(s, acts)
    ensures AlwaysInv(s, acts) <==> AlwaysSound(s, acts)
    decreases acts
  {
    if acts != [] {
      ActionInvIff(s, acts[0]);
      if Inv(Apply(s, acts[0])) {
        RunInvIff(Apply(s, acts[0]), acts[1..]);
      } else {
        assert !AlwaysInv(Apply(s, acts[0]), acts[1..]);
      }
    }
  }

  /** No other popper is between its flag read and its exchange when a head exchange succeeds.
      This holds when pops do not overlap, and when the reads and the exchange are one step. */
  predicate NoOverlap(s: State, a: Action) {
    a.Advance? && Popping(s, a.t) ==>
      forall u | u in s.threads && u != a.t :: !Reading(s.threads[u])
  }

  predicate Reading(pc: Pc) {
    pc.PopNext? || pc.PopCas?
  }

  predicate NeverOverlaps(s: State, acts: seq<Action>)
    requires Runs(s, acts)
    decreases acts
  {
    acts == [] || (NoOverlap(s, acts[0]) && NeverOverlaps(Apply(s, acts[0]), acts[1..]))
  }

  /** Every popper past its flag read has seen the current head version. */
  predicate Current(s: State) {
    forall t | t in s.threads && Reading(s.threads[t]) :: s.threads[t].version == s.version
  }

  lemma CurrentStep(s: State, a: Action)
    requires Current(s) && Enabled(s, a) && NoOverlap(s, a)
    ensures Current(Apply(s, a))
  {
  }

  lemma {:induction false} NoOverlapIsSound(s: State, acts: seq<Action>)
    requires Inv(s) && Current(s) && Runs(s, acts) && NeverOverlaps(s, acts)
    ensures AlwaysSound(s, acts)
    decreases acts
  {
    if acts != [] {
      var a := acts[0];
      if a.Advance? && Popping(s, a.t) {
        assert LocalOk(s, s.threads[a.t]);
      }
      ActionInv(s, a);
      CurrentStep(s, a);
      NoOverlapIsSound(Apply(s, a), acts[1..]);
    }
  }

  /** From a fresh list, every run whose pops do not overlap keeps the list intact. */
  lemma FreshListStaysIntact(s: State, acts: seq<Action>)
    requires Init(s) && Runs(s, acts) && NeverOverlaps(s, acts)
    ensures AlwaysInv(s, acts)
  {
    InitInv(s);
    NoOverlapIsSound(s, acts);
    RunInvIff(s, acts);
  }

  // ---------------------------------------------------------------------------------------------
  // What an intact list gives its users
  // ---------------------------------------------------------------------------------------------

  /** No node is both free and out of the list, and no node is in two calls at once. */
  lemma ExclusiveOwners(s: State, n: Node)
    requires Inv(s) && n in s.headers
    ensures n in s.chain ==> !s.owner[n].Held? && forall t | t in s.threads :: !Owns(s.threads[t], n)
    ensures s.owner[n].Held? ==> forall t | t in s.threads :: !Owns(s.threads[t], n)
    ensures forall t, u | t in s.threads && u in s.threads && Owns(s.threads[t], n) && Owns(s.threads[u], n) :: t == u
    ensures n in s.chain || s.owner[n].Held? || exists t | t in s.threads :: Owns(s.threads[t], n)
  {
    if s.owner[n].InCall? {
      assert Owns(s.threads[s.owner[n].t], n);
    }
  }

  lemma QuietCounts(s: State)
    requires Accounting(s) && forall t | t in s.threads :: s.threads[t].Idle?
    ensures s.size == |s.chain| && s.size + s.counter == |s.headers|
  {
    hide Count;
    forall d: Due ensures Count(d, s.threads) == 0 { NothingDue(s.threads, d); }
  }

  lemma NothingHeld(s: State)
    requires Shape(s) && Ownership(s) && forall t | t in s.threads :: s.threads[t].Idle?
    requires forall n | n in s.owner :: !s.owner[n].Held?
    ensures |s.chain| == |s.headers|
  {
    ElemsSize(s.chain);
    assert s.headers.Keys == Elems(s.chain);
    assert |s.headers| == |s.headers.Keys|;
  }

  /** Between calls the header links spell out the whole chain, and the two counters are exact. */
  lemma QuietList(s: State)
    requires Inv(s) && forall t | t in s.threads :: s.threads[t].Idle?
    ensures forall i | 0 <= i < |s.chain| - 1 ::
              s.chain[i] in s.headers && s.headers[s.chain[i]] == Header(s.chain[i + 1], true, false)
    ensures s.size == |s.chain| && s.size + s.counter == |s.headers|
    ensures (forall n | n in s.owner :: !s.owner[n].Held?) ==> s.size == |s.headers| && s.counter == 0
  {
    QuietCounts(s);
    if forall n | n in s.owner :: !s.owner[n].Held? { NothingHeld(s); }
    hide Accounting;
    hide Ownership;
    hide Locals;
    forall i | 0 <= i < |s.chain| - 1
      ensures s.chain[i] in s.headers && s.headers[s.chain[i]] == Header(s.chain[i + 1], true, false)
    {
      assert LinkOk(s, i);
      assert s.chain[i] in s.chain;
    }
  }
}
