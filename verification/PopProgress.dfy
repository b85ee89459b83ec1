/** What a pop achieves: a popper that lost an exchange takes the next head when it is left alone, and
    one that returns without a buffer had a reason to. */
module PopProgress {
  import opened FreeListProtocol

  // ---------------------------------------------------------------------------------------------
  // Left alone
  // ---------------------------------------------------------------------------------------------

  /** Thread `t` can make `n` steps with none of others in between. */
  predicate SoloRuns(s: State, t: Tid, n: nat)
    decreases n
  {
    n == 0 || (Enabled(s, Advance(t)) && SoloRuns(Step(s, t), t, n - 1))
  }

  function Solo(s: State, t: Tid, n: nat): State
    requires SoloRuns(s, t, n)
    decreases n
  {
    if n == 0 then s else Solo(Step(s, t), t, n - 1)
  }

  function At(s: State, t: Tid, pc: Pc): State {
    s.(threads := s.threads[t := pc])
  }

  /** One step that leads from `s` to `r`, and `n` more. */
  lemma SoloMore(s: State, t: Tid, r: State, n: nat)
    requires Enabled(s, Advance(t)) && Step(s, t) == r && SoloRuns(r, t, n)
    ensures SoloRuns(s, t, n + 1) && Solo(s, t, n + 1) == Solo(r, t, n)
  {
  }

  lemma Again(s: State, t: Tid, p: Pc, q: Pc)
    ensures At(At(s, t, p), t, q) == At(s, t, q)
  {
    assert s.threads[t := p][t := q] == s.threads[t := q];
  }

  /** The list after the exchange, and after the node was marked in use. */
  function Taken(s: State, t: Tid, h: Node, next: Node): State {
    s.(head := next, owner := s.owner[h := InCall(t)], version := s.version + 1,
       chain := if s.chain != [] then s.chain[1..] else s.chain)
  }

  function Flagged(s: State, h: Node, used: bool): State
    requires h in s.headers
  {
    s.(headers := s.headers[h := s.headers[h].(hasNext := false, inUsed := used)])
  }

  /** The single steps. */
  lemma FlagStep(s: State, t: Tid, h: Node, r: nat)
    requires h in s.headers && s.headers[h].hasNext && r < MAX_RETRY
    ensures var a := At(s, t, PopFlag(h, r)); Enabled(a, Advance(t)) && Step(a, t) == At(s, t, PopNext(h, r, s.version))
  {
    Again(s, t, PopFlag(h, r), PopNext(h, r, s.version));
  }

  lemma NextStep(s: State, t: Tid, h: Node, r: nat, v: nat)
    requires h in s.headers
    ensures var a := At(s, t, PopNext(h, r, v));
            Enabled(a, Advance(t)) && Step(a, t) == At(s, t, PopCas(h, s.headers[h].next, r, v))
  {
    Again(s, t, PopNext(h, r, v), PopCas(h, s.headers[h].next, r, v));
  }

  lemma CasStep(s: State, t: Tid, next: Node, r: nat, v: nat)
    ensures var a := At(s, t, PopCas(s.head, next, r, v));
            Enabled(a, Advance(t)) && Step(a, t) == At(Taken(s, t, s.head, next), t, PopClear(s.head))
  {
    Again(s, t, PopCas(s.head, next, r, v), PopClear(s.head));
  }

  lemma ClearStep(s: State, t: Tid, h: Node)
    requires h in s.headers
    ensures var a := At(s, t, PopClear(h));
            Enabled(a, Advance(t)) && Step(a, t) == At(Flagged(s, h, false), t, PopMark(h))
  {
    Again(s, t, PopClear(h), PopMark(h));
  }

  lemma MarkStep(s: State, t: Tid, h: Node)
    requires h in s.headers
    ensures var a := At(Flagged(s, h, false), t, PopMark(h));
            Enabled(a, Advance(t)) && Step(a, t) == At(Flagged(s, h, true), t, PopCount(h))
  {
    var u := Flagged(s, h, false);
    Again(u, t, PopMark(h), PopCount(h));
    assert u.headers[h := u.headers[h].(inUsed := true)] == Flagged(s, h, true).headers;
  }

  lemma CountStep(s: State, t: Tid, h: Node)
    ensures var a := At(s, t, PopCount(h));
            Enabled(a, Advance(t)) && Step(a, t) == At(s.(counter := s.counter + 1, owner := s.owner[h := Held]), t, Idle)
  {
    Again(s, t, PopCount(h), Idle);
  }

  /** A popper that has the node returns with it. */
  lemma MarkAlone(s: State, t: Tid, h: Node)
    requires h in s.headers
    ensures SoloRuns(At(s, t, PopClear(h)), t, 3)
    ensures var r := Flagged(s, h, true);
            Solo(At(s, t, PopClear(h)), t, 3) == At(r.(counter := s.counter + 1, owner := s.owner[h := Held]), t, Idle)
  {
    hide Step;
    hide Enabled;
    var a, b, c := At(s, t, PopClear(h)), At(Flagged(s, h, false), t, PopMark(h)), At(Flagged(s, h, true), t, PopCount(h));
    var e := At(Flagged(s, h, true).(counter := s.counter + 1, owner := s.owner[h := Held]), t, Idle);
    ClearStep(s, t, h);
    MarkStep(s, t, h);
    CountStep(Flagged(s, h, true), t, h);
    SoloMore(c, t, e, 0);
    SoloMore(b, t, c, 1);
    SoloMore(a, t, b, 2);
  }

  /** What the call leaves of the list: the head is taken and counted. */
  predicate TookHead(s: State, e: State, t: Tid) {
    && s.head in s.headers
    && e.threads == s.threads[t := Idle] && e.owner == s.owner[s.head := Held] && e.head == s.headers[s.head].next
    && s.chain != [] && e.chain == s.chain[1..] && e.size == s.size && e.counter == s.counter + 1 && e.tail == s.tail
  }

  /** From the look at the flag on, with attempts left and a linked head. */
  lemma AttemptAlone(s: State, t: Tid, r: nat)
    requires s.head in s.headers && s.headers[s.head].hasNext && r < MAX_RETRY && s.chain != []
    ensures SoloRuns(At(s, t, PopFlag(s.head, r)), t, 6)
    ensures TookHead(s, Solo(At(s, t, PopFlag(s.head, r)), t, 6), t)
  {
    hide Step;
    hide Enabled;
    hide SoloRuns;
    hide Solo;
    var h, next, v := s.head, s.headers[s.head].next, s.version;
    var a, b, c := At(s, t, PopFlag(h, r)), At(s, t, PopNext(h, r, v)), At(s, t, PopCas(h, next, r, v));
    var u := Taken(s, t, h, next);
    FlagStep(s, t, h, r);
    NextStep(s, t, h, r, v);
    CasStep(s, t, next, r, v);
    MarkAlone(u, t, h);
    assert s.owner[h := InCall(t)][h := Held] == s.owner[h := Held];
    SoloMore(c, t, At(u, t, PopClear(h)), 3);
    SoloMore(b, t, c, 4);
    SoloMore(a, t, b, 5);
  }

  lemma ReloadStep(s: State, t: Tid, r: nat)
    requires t in s.threads && s.threads[t] == PopReload(r)
    ensures Enabled(s, Advance(t)) && Step(s, t) == At(s, t, PopFlag(s.head, r + 1))
  {
  }

  lemma HeadStep(s: State, t: Tid)
    ensures var a := At(s, t, PopHead); Enabled(a, Advance(t)) && Step(a, t) == At(s, t, PopSub(s.head))
  {
    Again(s, t, PopHead, PopSub(s.head));
  }

  lemma SubStep(s: State, t: Tid)
    requires s.size > 1
    ensures var a := At(s, t, PopSub(s.head));
            Enabled(a, Advance(t)) && Step(a, t) == At(s.(size := s.size - 1), t, PopFlag(s.head, 0))
  {
    Again(s, t, PopSub(s.head), PopFlag(s.head, 0));
  }

  lemma HasHead(s: State)
    requires Inv(s)
    ensures s.chain != []
  {
  }

  /** A popper whose exchange has just failed and whose attempts are not used up: alone, it reloads the
      head and, if that is linked, returns with it. */
  lemma LoserTakesHead(s: State, t: Tid, r: nat)
    requires Inv(s) && t in s.threads && s.threads[t] == PopReload(r) && r + 1 < MAX_RETRY
    requires s.head in s.headers && s.headers[s.head].hasNext
    ensures SoloRuns(s, t, 7) && TookHead(s, Solo(s, t, 7), t)
  {
    hide Inv;
    hide Step;
    hide Enabled;
    hide SoloRuns;
    hide Solo;
    hide TookHead;
    HasHead(s);
    ReloadStep(s, t, r);
    AttemptAlone(s, t, r + 1);
    SoloMore(s, t, At(s, t, PopFlag(s.head, r + 1)), 6);
  }

  /** A call on a list with more than one buffer and a linked head, left alone from its beginning. */
  lemma PopAlone(s: State, t: Tid)
    requires Inv(s) && t in s.threads && s.threads[t] == Idle && s.size > 1
    requires s.head in s.headers && s.headers[s.head].hasNext
    ensures var u := At(s, t, PopHead);
            Enabled(s, StartPop(t)) && Apply(s, StartPop(t)) == u
            && SoloRuns(u, t, 8) && TookHead(s.(size := s.size - 1), Solo(u, t, 8), t)
  {
    StartStep(s, t);
    hide Inv;
    hide Step;
    hide Enabled;
    hide Apply;
    hide SoloRuns;
    hide Solo;
    hide TookHead;
    HasHead(s);
    var u, a, b := At(s, t, PopHead), At(s, t, PopSub(s.head)), At(s.(size := s.size - 1), t, PopFlag(s.head, 0));
    HeadStep(s, t);
    SubStep(s, t);
    AttemptAlone(s.(size := s.size - 1), t, 0);
    SoloMore(a, t, b, 6);
    SoloMore(u, t, a, 7);
  }

  lemma StartStep(s: State, t: Tid)
    requires t in s.threads && s.threads[t] == Idle
    ensures Enabled(s, StartPop(t)) && Apply(s, StartPop(t)) == At(s, t, PopHead)
  {
  }

  /** What an exchange that fails leads to. */
  lemma LoserReloads(s: State, t: Tid, h: Node, next: Node, r: nat, v: nat)
    requires Enabled(s, Advance(t)) && s.threads[t] == PopCas(h, next, r, v) && s.head != h
    ensures Step(s, t) == s.(threads := s.threads[t := PopReload(r)])
  {
  }

  // ---------------------------------------------------------------------------------------------
  // Empty-handed
  // ---------------------------------------------------------------------------------------------

  /** How many steps thread `t` has made since its last call began: from the list of actions alone. */
  function Since(acts: seq<Action>, t: Tid): nat {
    if acts == [] then 0
    else
      var front := acts[..|acts| - 1];
      match acts[|acts| - 1]
      case StartPop(u) => if u == t then 0 else Since(front, t)
      case StartPush(u, _) => if u == t then 0 else Since(front, t)
      case Advance(u) => Since(front, t) + if u == t then 1 else 0
      case WriteHeld(_, _) => Since(front, t)
  }

  /** Since its last call began thread `t` has read a size of at most 1. */
  predicate SawFew(s: State, acts: seq<Action>, t: Tid)
    requires Runs(s, acts)
    decreases |acts|
  {
    acts != [] &&
    var front, a := acts[..|acts| - 1], acts[|acts| - 1];
    Runs(s, front) &&
    var e := Exec(s, front);
    match a
    case StartPop(u) => u != t && SawFew(s, front, t)
    case StartPush(u, _) => u != t && SawFew(s, front, t)
    case Advance(u) =>
      || SawFew(s, front, t)
      || (u == t && t in e.threads && (e.threads[t].PopSub? || e.threads[t].PopLast?) && e.size <= 1)
    case WriteHeld(_, _) => SawFew(s, front, t)
  }

  lemma {:induction false} ExecSnoc(s: State, acts: seq<Action>)
    requires Runs(s, acts) && acts != []
    ensures var front, a := acts[..|acts| - 1], acts[|acts| - 1];
            Runs(s, front) && Enabled(Exec(s, front), a) && Exec(s, acts) == Apply(Exec(s, front), a)
    decreases acts
  {
    hide Enabled;
    hide Apply;
    if |acts| > 1 {
      ExecSnoc(Apply(s, acts[0]), acts[1..]);
      assert acts[..|acts| - 1][1..] == acts[1..][..|acts| - 2];
    }
  }

  /** An attempt takes at least three steps. */
  const STEPS := 3

  /** How many steps a popper must have made to be where it is, and why it would give up. */
  predicate Earned(pc: Pc, n: nat, few: bool) {
    match pc
    case PopHead => !few
    case PopSub(_) => n >= 1 && !few
    case PopFlag(_, r) => n >= 2 + STEPS * r && !few
    case PopNext(_, r, _) => n >= 3 + STEPS * r && !few
    case PopCas(_, _, r, _) => n >= 4 + STEPS * r && !few
    case PopLast(r) => n >= 3 + STEPS * r && !few
    case PopReload(r) => n >= 4 + STEPS * r && !few
    case PopClear(_) => !few
    case PopMark(_) => !few
    case PopCount(_) => !few
    case PopUndo => few || n >= 3 + STEPS * MAX_RETRY
    case _ => true
  }

  /** And how many it can have made: an attempt takes at most four. */
  predicate Paced(pc: Pc, n: nat) {
    match pc
    case PopHead => n == 0
    case PopSub(_) => n == 1
    case PopFlag(_, r) => r <= MAX_RETRY && n <= 2 + 4 * r
    case PopNext(_, r, _) => r < MAX_RETRY && n <= 3 + 4 * r
    case PopCas(_, _, r, _) => r < MAX_RETRY && n <= 4 + 4 * r
    case PopLast(r) => r < MAX_RETRY && n <= 3 + 4 * r
    case PopReload(r) => r < MAX_RETRY && n <= 5 + 4 * r
    case PopUndo => n <= 3 + 4 * MAX_RETRY
    case PopClear(_) => n <= 5 + 4 * MAX_RETRY
    case PopMark(_) => n <= 6 + 4 * MAX_RETRY
    case PopCount(_) => n <= 7 + 4 * MAX_RETRY
    case _ => true
  }

  predicate InPop(pc: Pc) {
    pc.PopHead? || pc.PopSub? || pc.PopFlag? || pc.PopNext? || pc.PopCas? || pc.PopLast? || pc.PopReload? || pc.PopUndo?
    || pc.PopClear? || pc.PopMark? || pc.PopCount?
  }

  lemma EarnedStep(s: State, t: Tid, n: nat, few: bool)
    requires Enabled(s, Advance(t)) && Earned(s.threads[t], n, few) && Paced(s.threads[t], n)
    ensures Paced(NextPc(s, t), n + 1)
    ensures Earned(NextPc(s, t), n + 1, few || ((s.threads[t].PopSub? || s.threads[t].PopLast?) && s.size <= 1))
  {
  }

  lemma {:induction false} RunEarned(s: State, acts: seq<Action>, t: Tid)
    requires Runs(s, acts) && t in s.threads && s.threads[t] == Idle
    ensures t in Exec(s, acts).threads && Earned(Exec(s, acts).threads[t], Since(acts, t), SawFew(s, acts, t))
    ensures Paced(Exec(s, acts).threads[t], Since(acts, t))
    decreases |acts|
  {
    if acts != [] {
      var front, a := acts[..|acts| - 1], acts[|acts| - 1];
      ExecSnoc(s, acts);
      RunEarned(s, front, t);
      if a == Advance(t) { EarnedStep(Exec(s, front), t, Since(front, t), SawFew(s, front, t)); }
    }
  }

  /** In every run, a pop that is about to return without a buffer has read a size of at most 1 since it
      began, or has made all its attempts. */
  lemma EmptyHanded(s: State, acts: seq<Action>, t: Tid)
    requires Runs(s, acts) && t in s.threads && s.threads[t] == Idle
    requires t in Exec(s, acts).threads && Exec(s, acts).threads[t] == PopUndo
    ensures SawFew(s, acts, t) || Since(acts, t) >= 3 * 200
  {
    RunEarned(s, acts, t);
  }

  /** And one that is about to return with a buffer has never read such a size: the last buffer of a list
      is not handed out. */
  lemma LastIsKept(s: State, acts: seq<Action>, t: Tid)
    requires Runs(s, acts) && t in s.threads && s.threads[t] == Idle
    requires t in Exec(s, acts).threads && Exec(s, acts).threads[t].PopCount?
    ensures !SawFew(s, acts, t)
  {
    RunEarned(s, acts, t);
  }

  /** Whatever the others do, a pop is over after a bounded number of its own steps. */
  lemma PopIsBounded(s: State, acts: seq<Action>, t: Tid)
    requires Runs(s, acts) && t in s.threads && s.threads[t] == Idle
    requires t in Exec(s, acts).threads && InPop(Exec(s, acts).threads[t])
    ensures Since(acts, t) <= 7 + 4 * 200
  {
    RunEarned(s, acts, t);
  }
}
