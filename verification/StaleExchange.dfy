/** Why the soundness condition of `FreeListProtocol` is needed: the head exchange compares offsets
    only, so a popper that was overtaken can install a link that is no longer current.  Here is a run
    from a fresh list of four buffers in which a held buffer becomes the head and is handed out
    again. */
module StaleExchange {
  import opened Basics
  import opened FreeListProtocol

  // ---------------------------------------------------------------------------------------------
  // Runs of one thread with no step of others in between
  // ---------------------------------------------------------------------------------------------

  ghost predicate Reaches(s: State, r: State) {
    exists acts :: Runs(s, acts) && Exec(s, acts) == r
  }

  lemma ReachesSelf(s: State)
    ensures Reaches(s, s)
  {
    assert Runs(s, []) && Exec(s, []) == s;
  }

  lemma {:induction false} ExecThen(s: State, acts: seq<Action>, a: Action)
    requires Runs(s, acts) && Enabled(Exec(s, acts), a)
    ensures Runs(s, acts + [a]) && Exec(s, acts + [a]) == Apply(Exec(s, acts), a)
    decreases acts
  {
    hide Enabled;
    hide Apply;
    var more := acts + [a];
    if acts == [] {
      assert more[1..] == [];
    } else {
      ExecThen(Apply(s, acts[0]), acts[1..], a);
      assert more[1..] == acts[1..] + [a];
    }
  }

  lemma ReachesThen(s: State, m: State, a: Action)
    requires Reaches(s, m) && Enabled(m, a)
    ensures Reaches(s, Apply(m, a))
  {
    hide Enabled;
    hide Apply;
    var acts :| Runs(s, acts) && Exec(s, acts) == m;
    ExecThen(s, acts, a);
  }

  function AtPc(s: State, t: Tid, pc: Pc): State {
    s.(threads := s.threads[t := pc])
  }

  /** One access of thread `t`, which is at `from`. */
  lemma ReachStep(s0: State, s: State, t: Tid, from: Pc, r: State, to: Pc)
    requires Reaches(s0, AtPc(s, t, from)) && Enabled(AtPc(s, t, from), Advance(t))
    requires Step(AtPc(s, t, from), t) == AtPc(r, t, to)
    ensures Reaches(s0, AtPc(r, t, to))
  {
    hide Reaches;
    ReachesThen(s0, AtPc(s, t, from), Advance(t));
  }

  lemma AtPcAgain(s: State, t: Tid, p: Pc, q: Pc)
    ensures AtPc(AtPc(s, t, p), t, q) == AtPc(s, t, q)
    ensures t in s.threads && s.threads[t] == p ==> AtPc(s, t, p) == s
  {
    assert s.threads[t := p][t := q] == s.threads[t := q];
    assert t in s.threads && s.threads[t] == p ==> s.threads[t := p] == s.threads;
  }

  /** A popper up to its head exchange. */
  function BeforeExchange(s: State, t: Tid): State
    requires s.head in s.headers
  {
    AtPc(s.(size := s.size - 1), t, PopCas(s.head, s.headers[s.head].next, 0, s.version))
  }

  predicate CanPop(s: State, t: Tid) {
    && t in s.threads && s.threads[t].Idle? && s.size > 1 && s.chain != []
    && s.head in s.headers && s.headers[s.head].hasNext && s.head in s.owner
  }

  lemma ReachExchange(s0: State, s: State, t: Tid)
    requires Reaches(s0, s) && CanPop(s, t)
    ensures Reaches(s0, BeforeExchange(s, t))
  {
    hide Reaches;
    var h, u := s.head, s.(size := s.size - 1);
    ReachesThen(s0, s, StartPop(t));
    AtPcAgain(s, t, PopHead, PopSub(h));
    ReachStep(s0, s, t, PopHead, s, PopSub(h));
    AtPcAgain(s, t, PopSub(h), PopFlag(h, 0));
    ReachStep(s0, s, t, PopSub(h), u, PopFlag(h, 0));
    AtPcAgain(u, t, PopFlag(h, 0), PopNext(h, 0, s.version));
    ReachStep(s0, u, t, PopFlag(h, 0), u, PopNext(h, 0, s.version));
    AtPcAgain(u, t, PopNext(h, 0, s.version), PopCas(h, s.headers[h].next, 0, s.version));
    ReachStep(s0, u, t, PopNext(h, 0, s.version), u, PopCas(h, s.headers[h].next, 0, s.version));
  }

  /** The list after `t` has popped its head. */
  function AfterPop(s: State, t: Tid): State
    requires s.head in s.headers && s.chain != []
  {
    s.(headers := s.headers[s.head := s.headers[s.head].(hasNext := false, inUsed := true)],
       head := s.headers[s.head].next, size := s.size - 1, counter := s.counter + 1,
       owner := s.owner[s.head := Held], chain := s.chain[1..], version := s.version + 1)
  }

  /** The list right after the head exchange. */
  function Exchanged(s: State, t: Tid): State
    requires s.head in s.headers && s.chain != []
  {
    s.(size := s.size - 1, head := s.headers[s.head].next, owner := s.owner[s.head := InCall(t)],
       chain := s.chain[1..], version := s.version + 1)
  }

  lemma ReachExchanged(s0: State, s: State, t: Tid)
    requires Reaches(s0, s) && CanPop(s, t)
    ensures Reaches(s0, AtPc(Exchanged(s, t), t, PopClear(s.head)))
  {
    hide Reaches;
    ReachExchange(s0, s, t);
    var u, cas := s.(size := s.size - 1), PopCas(s.head, s.headers[s.head].next, 0, s.version);
    AtPcAgain(u, t, cas, PopClear(s.head));
    ReachStep(s0, u, t, cas, Exchanged(s, t), PopClear(s.head));
  }

  /** A popper marks the node it took. */
  lemma ReachMarked(s0: State, v: State, t: Tid, h: Node)
    requires Reaches(s0, AtPc(v, t, PopClear(h))) && h in v.headers
    ensures Reaches(s0, AtPc(v.(headers := v.headers[h := v.headers[h].(hasNext := false, inUsed := true)]), t, PopCount(h)))
  {
    hide Reaches;
    var w := v.(headers := v.headers[h := v.headers[h].(hasNext := false, inUsed := false)]);
    AtPcAgain(v, t, PopClear(h), PopMark(h));
    ReachStep(s0, v, t, PopClear(h), w, PopMark(h));
    var x := v.(headers := v.headers[h := v.headers[h].(hasNext := false, inUsed := true)]);
    AtPcAgain(w, t, PopMark(h), PopCount(h));
    assert w.headers[h := w.headers[h].(inUsed := true)] == x.headers;
    ReachStep(s0, w, t, PopMark(h), x, PopCount(h));
  }

  /** The list when a popper returns with the node it took. */
  function Handed(v: State, h: Node): State
    requires h in v.headers
  {
    v.(headers := v.headers[h := v.headers[h].(hasNext := false, inUsed := true)],
       counter := v.counter + 1, owner := v.owner[h := Held])
  }

  lemma ReachHanded(s0: State, v: State, t: Tid, h: Node)
    requires Reaches(s0, AtPc(v, t, PopClear(h))) && h in v.headers
    ensures Reaches(s0, AtPc(Handed(v, h), t, Idle))
  {
    hide Reaches;
    ReachMarked(s0, v, t, h);
    var x := v.(headers := v.headers[h := v.headers[h].(hasNext := false, inUsed := true)]);
    AtPcAgain(x, t, PopCount(h), Idle);
    ReachStep(s0, x, t, PopCount(h), Handed(v, h), Idle);
  }

  lemma ReachPop(s0: State, s: State, t: Tid)
    requires Reaches(s0, s) && CanPop(s, t)
    ensures Reaches(s0, AfterPop(s, t))
  {
    hide Reaches;
    var h, v, r := s.head, Exchanged(s, t), AfterPop(s, t);
    ReachExchanged(s0, s, t);
    ReachHanded(s0, v, t, h);
    assert s.owner[h := InCall(t)][h := Held] == s.owner[h := Held];
    AtPcAgain(r, t, Idle, Idle);
  }

  predicate CanPush(s: State, t: Tid, n: Node) {
    && t in s.threads && s.threads[t].Idle? && n in s.owner && s.owner[n].Held? && n in s.headers
    && s.tail in s.headers && s.tail != n && n !in s.debtor
  }

  /** The list after `t` has pushed node `n`. */
  function AfterPush(s: State, t: Tid, n: Node): State
    requires n in s.headers && s.tail in s.headers
  {
    s.(headers := s.headers[n := s.headers[n].(hasNext := false, inUsed := false)]
                           [s.tail := s.headers[s.tail].(next := n, hasNext := true)],
       tail := n, size := s.size + 1, counter := s.counter - 1, owner := s.owner[n := Free], chain := s.chain + [n])
  }

  lemma ReachPush(s0: State, s: State, t: Tid, n: Node)
    requires Reaches(s0, s) && CanPush(s, t, n)
    ensures Reaches(s0, AfterPush(s, t, n))
  {
    hide Reaches;
    var p := s.tail;
    ReachesThen(s0, s, StartPush(t, n));
    var u := s.(owner := s.owner[n := InCall(t)]);
    var v := u.(headers := s.headers[n := s.headers[n].(hasNext := false, inUsed := false)]);
    AtPcAgain(u, t, PushReset(n), PushLoad(n));
    ReachStep(s0, u, t, PushReset(n), v, PushLoad(n));
    AtPcAgain(v, t, PushLoad(n), PushCas(n, p));
    ReachStep(s0, v, t, PushLoad(n), v, PushCas(n, p));
    var w := v.(tail := n, owner := s.owner[n := Free], chain := s.chain + [n], debtor := s.debtor[n := t]);
    AtPcAgain(v, t, PushCas(n, p), PushNext(n, p));
    assert s.owner[n := InCall(t)][n := Free] == s.owner[n := Free];
    ReachStep(s0, v, t, PushCas(n, p), w, PushNext(n, p));
    ReachLink(s0, s, w, t, n);
  }

  /** The second half of a push: the link and the counts. */
  lemma ReachLink(s0: State, s: State, w: State, t: Tid, n: Node)
    requires CanPush(s, t, n) && Reaches(s0, AtPc(w, t, PushNext(n, s.tail)))
    requires w == s.(headers := s.headers[n := s.headers[n].(hasNext := false, inUsed := false)],
                     tail := n, owner := s.owner[n := Free], chain := s.chain + [n], debtor := s.debtor[n := t])
    ensures Reaches(s0, AfterPush(s, t, n))
  {
    hide Reaches;
    var p := s.tail;
    ReachLinked(s0, w, t, n, p, s.debtor);
    var y := w.(headers := w.headers[p := w.headers[p].(next := n, hasNext := true)], debtor := s.debtor);
    var z := y.(size := s.size + 1);
    AtPcAgain(y, t, PushSize, PushCounter);
    ReachStep(s0, y, t, PushSize, z, PushCounter);
    var r := AfterPush(s, t, n);
    AtPcAgain(z, t, PushCounter, Idle);
    ReachStep(s0, z, t, PushCounter, r, Idle);
    AtPcAgain(r, t, Idle, Idle);
  }

  lemma ReachLinked(s0: State, w: State, t: Tid, n: Node, p: Node, debtor: map<Node, Tid>)
    requires Reaches(s0, AtPc(w, t, PushNext(n, p))) && p in w.headers
    requires n !in debtor && w.debtor == debtor[n := t]
    ensures Reaches(s0, AtPc(w.(headers := w.headers[p := w.headers[p].(next := n, hasNext := true)], debtor := debtor),
                             t, PushSize))
  {
    hide Reaches;
    var x := w.(headers := w.headers[p := w.headers[p].(next := n)]);
    AtPcAgain(w, t, PushNext(n, p), PushFlag(n, p));
    ReachStep(s0, w, t, PushNext(n, p), x, PushFlag(n, p));
    var y := w.(headers := w.headers[p := w.headers[p].(next := n, hasNext := true)], debtor := debtor);
    AtPcAgain(x, t, PushFlag(n, p), PushSize);
    assert x.headers[p := x.headers[p].(hasNext := true)] == y.headers;
    assert debtor[n := t] - {n} == debtor;
    ReachStep(s0, x, t, PushFlag(n, p), y, PushSize);
  }

  // ---------------------------------------------------------------------------------------------
  // The run
  // ---------------------------------------------------------------------------------------------

  /** Four buffers, as `BufferList::create` leaves them, and two threads. */
  function Fresh(): State {
    State(headers := map[0 := Header(1, true, false), 1 := Header(2, true, false),
                         2 := Header(3, true, false), 3 := Header(0, false, false)],
          head := 0, tail := 3, size := 4, counter := 0, threads := map[7 := Idle, 8 := Idle],
          owner := map[0 := Free, 1 := Free, 2 := Free, 3 := Free],
          chain := [0, 1, 2, 3], debtor := map[], version := 0)
  }

  lemma FreshNodes()
    ensures var s := Fresh(); s.headers.Keys == s.owner.Keys == Elems(s.chain)
  {
    var s := Fresh();
    var all: set<Node> := {0, 1, 2, 3};
    assert s.headers.Keys == all && s.owner.Keys == all;
    forall n: Node ensures n in s.chain <==> n in all {
      assert s.chain[0] == 0 && s.chain[1] == 1 && s.chain[2] == 2 && s.chain[3] == 3;
    }
    assert Elems(s.chain) == all;
  }

  lemma FreshIsInit()
    ensures Init(Fresh())
  {
    FreshNodes();
    hide Elems;
  }

  /** Thread 7 has read head 0 and link 1.  Then thread 8 makes four pops and two pushes; buffer 0 is
      the head again, but buffer 1 is held. */
  function Overtaken(): State {
    State(headers := map[0 := Header(2, true, false), 1 := Header(2, false, true),
                         2 := Header(3, false, false), 3 := Header(0, false, true)],
          head := 0, tail := 2, size := 1, counter := 2,
          threads := map[7 := PopCas(0, 1, 0, 0), 8 := Idle],
          owner := map[0 := Free, 1 := Held, 2 := Free, 3 := Held],
          chain := [0, 2], debtor := map[], version := 4)
  }

  lemma OvertakenIsReached()
    ensures Reaches(Fresh(), Overtaken())
  {
    hide Reaches;
    var s0 := Fresh();
    ReachesSelf(s0);
    ReachExchange(s0, s0, 7);
    var s1 := BeforeExchange(s0, 7);
    ReachPop(s0, s1, 8);
    var s2 := AfterPop(s1, 8);
    assert s2.chain == [1, 2, 3];
    ReachPop(s0, s2, 8);
    var s3 := AfterPop(s2, 8);
    assert s3.chain == [2, 3];
    ReachPush(s0, s3, 8, 0);
    var s4 := AfterPush(s3, 8, 0);
    assert s4.chain == [2, 3, 0];
    ReachPop(s0, s4, 8);
    var s5 := AfterPop(s4, 8);
    assert s5.chain == [3, 0];
    ReachPush(s0, s5, 8, 2);
    var s6 := AfterPush(s5, 8, 2);
    assert s6.chain == [3, 0, 2];
    ReachPop(s0, s6, 8);
    var s7 := AfterPop(s6, 8);
    assert s7.chain == [0, 2];
    assert s7 == Overtaken();
  }

  /** Thread 7's exchange now succeeds and makes a buffer that a caller holds the head of the free
      list: the list is no longer intact. */
  lemma HeldBufferIsFree()
    ensures Init(Fresh()) && Reaches(Fresh(), Overtaken())
    ensures var s := Overtaken();
            && Enabled(s, Advance(7)) && Popping(s, 7) && !FreshLink(s, 7)
            && Step(s, 7).head == 1 && Step(s, 7).owner[1] == Held && !Inv(Step(s, 7))
  {
    FreshIsInit();
    OvertakenIsReached();
    hide Init;
    hide Reaches;
    hide Fresh;
    var s := Overtaken();
    assert !Shape(Step(s, 7)) by {
      assert Step(s, 7).chain == [2];
    }
  }

  /** Thread 7 has returned with buffer 0, thread 8 has pushed buffer 3, and the holder of buffer 1 has
      set its link again, as it may.  Thread 8 pops again: it is about to exchange the head,
      which is the buffer that is held. */
  function Again(): State {
    State(headers := map[0 := Header(2, false, true), 1 := Header(2, true, true),
                         2 := Header(3, true, false), 3 := Header(0, false, false)],
          head := 1, tail := 3, size := 1, counter := 2,
          threads := map[7 := Idle, 8 := PopCas(1, 2, 0, 5)],
          owner := map[0 := Held, 1 := Held, 2 := Free, 3 := Free],
          chain := [2, 3], debtor := map[], version := 5)
  }

  /** The overtaken pop runs to its end. */
  function Returned(): State {
    State(headers := map[0 := Header(2, false, true), 1 := Header(2, false, true),
                         2 := Header(3, false, false), 3 := Header(0, false, true)],
          head := 1, tail := 2, size := 1, counter := 3, threads := map[7 := Idle, 8 := Idle],
          owner := map[0 := Held, 1 := Held, 2 := Free, 3 := Held],
          chain := [2], debtor := map[], version := 5)
  }

  lemma ReturnedIsReached()
    ensures Reaches(Fresh(), Returned())
  {
    OvertakenIsReached();
    hide Reaches;
    hide Fresh;
    var s0, s := Fresh(), Overtaken();
    ReachesThen(s0, s, Advance(7));
    var v := Step(s, 7);
    AtPcAgain(v, 7, PopClear(0), Idle);
    ReachHanded(s0, v, 7, 0);
    assert AtPc(Handed(v, 0), 7, Idle) == Returned() by { ReturnedFields(); }
  }

  lemma ReturnedFields()
    ensures AtPc(Handed(Step(Overtaken(), 7), 0), 7, Idle) == Returned()
  {
    var v, r := Step(Overtaken(), 7), Returned();
    assert v.chain == [2];
    assert v.threads[7 := Idle] == r.threads;
    assert v.owner[0 := Held] == r.owner;
    assert Handed(v, 0).headers == r.headers;
  }

  lemma AgainIsReached()
    ensures Reaches(Fresh(), Again())
  {
    ReturnedIsReached();
    hide Reaches;
    hide Fresh;
    var s0, s := Fresh(), Returned();
    ReachPush(s0, s, 8, 3);
    var s1 := AfterPush(s, 8, 3);
    ReachesThen(s0, s1, WriteHeld(1, Header(2, true, true)));
    var s2 := Apply(s1, WriteHeld(1, Header(2, true, true)));
    assert s2.chain == [2, 3];
    ReachExchange(s0, s2, 8);
    assert BeforeExchange(s2, 8) == Again();
  }

  /** Thread 8's exchange takes the buffer that is held: it is handed out a second time, to a caller
      who will hold it beside the first. */
  lemma HandedOutTwice()
    ensures Init(Fresh()) && Reaches(Fresh(), Again())
    ensures var s := Again();
            && s.owner[1] == Held && Enabled(s, Advance(8)) && Popping(s, 8)
            && Step(s, 8).threads[8] == PopClear(1) && Step(s, 8).owner[1] == InCall(8)
  {
    FreshIsInit();
    AgainIsReached();
    hide Init;
    hide Reaches;
    hide Fresh;
  }
}
