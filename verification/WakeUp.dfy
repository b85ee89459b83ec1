/** The working-flag protocol between the producers of a ring and its one consumer.

    A producer puts an element, tries to raise the flag, and sends a polling event only when it
    raised it.  The consumer, woken by a polling event, drains the ring, lowers the flag, looks at
    the ring again, and raises the flag and resumes when something arrived in between.  Every
    shared access is a step of its own.
 */
module WakeUp {

  type Tid = nat

  /** A producer outside a call, between its put and its flag exchange, or between a won exchange
      and the send of its polling event. */
  datatype Producer = Outside | Announcing | Sending

  /** The consumer waiting for an event, popping, about to lower the flag, about to look at the
      size again, about to raise the flag again. */
  datatype Consumer = Waiting | Draining | Lowering | Checking | Raising

  datatype State = State(
    cap: nat,
    ring: nat,                       // elements between head and tail
    flag: bool,
    events: nat,                     // polling events sent and not yet received
    producers: map<Tid, Producer>,
    consumer: Consumer)

  datatype Action =
    | Put(p: Tid)
    | Exchange(p: Tid)
    | Send(p: Tid)
    | Receive
    | Pop
    | Lower
    | Check
    | Raise

  predicate Enabled(s: State, a: Action) {
    match a
    case Put(p) => p in s.producers && s.producers[p].Outside?
    case Exchange(p) => p in s.producers && s.producers[p].Announcing?
    case Send(p) => p in s.producers && s.producers[p].Sending?
    case Receive => s.consumer.Waiting? && s.events > 0
    case Pop => s.consumer.Draining?
    case Lower => s.consumer.Lowering?
    case Check => s.consumer.Checking?
    case Raise => s.consumer.Raising?
  }

  function Apply(s: State, a: Action): State
    requires Enabled(s, a)
  {
    match a
    case Put(p) =>
      if s.ring >= s.cap then s     // kQueueFull: nothing stored, nobody woken
      else s.(ring := s.ring + 1, producers := s.producers[p := Announcing])
    case Exchange(p) =>
      s.(flag := true, producers := s.producers[p := if s.flag then Outside else Sending])
    case Send(p) => s.(events := s.events + 1, producers := s.producers[p := Outside])
    case Receive => s.(events := s.events - 1, consumer := Draining)
    case Pop => if s.ring > 0 then s.(ring := s.ring - 1) else s.(consumer := Lowering)
    case Lower => s.(flag := false, consumer := Checking)
    case Check => s.(consumer := if s.ring == 0 then Waiting else Raising)
    case Raise => s.(flag := true, consumer := Draining)
  }

  predicate Init(s: State) {
    && s.ring == 0 && !s.flag && s.events == 0 && s.consumer.Waiting?
    && (forall p | p in s.producers :: s.producers[p].Outside?)
  }

  predicate SomeSending(s: State) {
    exists p | p in s.producers :: s.producers[p].Sending?
  }

  predicate SomeAnnouncing(s: State) {
    exists p | p in s.producers :: s.producers[p].Announcing?
  }

  /** A raised flag always has someone behind it who will pop before the flag is lowered. */
  predicate FlagCovered(s: State) {
    s.flag ==> s.consumer.Draining? || s.consumer.Lowering? || s.events > 0 || SomeSending(s)
               || s.consumer.Raising?
  }

  /** No lost wake-up: what is in the ring will be noticed. */
  predicate RingCovered(s: State) {
    s.ring > 0 ==> !s.consumer.Waiting? || s.events > 0 || SomeSending(s) || SomeAnnouncing(s)
  }

  predicate Inv(s: State) {
    FlagCovered(s) && RingCovered(s)
  }

  /** The exchange or send of one producer leaves the others where they are. */
  lemma Others(s: State, p: Tid, pc: Producer)
    requires p in s.producers
    ensures var s' := s.(producers := s.producers[p := pc]);
            && (s.producers[p].Outside? ==> (SomeSending(s) ==> SomeSending(s')) && (SomeAnnouncing(s) ==> SomeAnnouncing(s')))
            && (s.producers[p].Announcing? ==> SomeSending(s) ==> SomeSending(s'))
            && (pc.Sending? ==> SomeSending(s'))
            && (pc.Announcing? ==> SomeAnnouncing(s'))
  {
    var s' := s.(producers := s.producers[p := pc]);
    if SomeSending(s) && !s.producers[p].Sending? {
      var q :| q in s.producers && s.producers[q].Sending?;
      assert s'.producers[q].Sending?;
    }
    if SomeAnnouncing(s) && s.producers[p].Outside? {
      var q :| q in s.producers && s.producers[q].Announcing?;
      assert s'.producers[q].Announcing?;
    }
    assert s'.producers[p] == pc;
  }

  lemma StepInv(s: State, a: Action)
    requires Inv(s) && Enabled(s, a)
    ensures Inv(Apply(s, a))
  {
    match a
    case Put(p) => Others(s, p, Announcing);
    case Exchange(p) => Others(s, p, if s.flag then Outside else Sending);
    case Send(p) =>
    case _ =>
  }

  predicate Runs(s: State, acts: seq<Action>)
    decreases acts
  {
    acts == [] || (Enabled(s, acts[0]) && Runs(Apply(s, acts[0]), acts[1..]))
  }

  function Exec(s: State, acts: seq<Action>): State
    requires Runs(s, acts)
    decreases acts
  {
    if acts == [] then s else Exec(Apply(s, acts[0]), acts[1..])
  }

  lemma {:induction false} RunInv(s: State, acts: seq<Action>)
    requires Inv(s) && Runs(s, acts)
    ensures Inv(Exec(s, acts))
    decreases acts
  {
    if acts != [] {
      StepInv(s, acts[0]);
      RunInv(Apply(s, acts[0]), acts[1..]);
    }
  }

  /** Nothing is under way: no producer inside a call, no event in transit, the consumer waiting. */
  predicate Quiescent(s: State) {
    && s.consumer.Waiting? && s.events == 0
    && (forall p | p in s.producers :: s.producers[p].Outside?)
  }

  /** In every reachable state that is quiescent, the ring is empty and the flag is down. */
  lemma NoLostWakeUp(s: State, acts: seq<Action>)
    requires Init(s) && Runs(s, acts)
    ensures RingCovered(Exec(s, acts))
    ensures Quiescent(Exec(s, acts)) ==> Exec(s, acts).ring == 0 && !Exec(s, acts).flag
  {
    RunInv(s, acts);
  }

  // ---------------------------------------------------------------------------------------------
  // Once nobody puts any more, the ring is drained within a bounded number of steps
  // ---------------------------------------------------------------------------------------------

  function Weight(pc: Producer): nat {
    match pc case Outside => 0 case Announcing => 7 case Sending => 6
  }

  function Weights(ps: map<Tid, Producer>): nat {
    7 * |In(ps, Announcing)| + 6 * |In(ps, Sending)|
  }

  function In(ps: map<Tid, Producer>, pc: Producer): set<Tid> {
    set p | p in ps && ps[p] == pc
  }

  function Rank(c: Consumer, ring: nat): nat {
    match c
    case Waiting => 0
    case Draining => 4
    case Lowering => if ring > 0 then 7 else 3
    case Checking => if ring > 0 then 6 else 2
    case Raising => 5
  }

  function Measure(s: State): nat {
    s.ring + Weights(s.producers) + 5 * s.events + Rank(s.consumer, s.ring)
  }

  lemma InUpdate(ps: map<Tid, Producer>, p: Tid, pc: Producer, k: Producer)
    requires p in ps
    ensures |In(ps[p := pc], k)| == |In(ps, k)| - (if ps[p] == k then 1 else 0) + (if pc == k then 1 else 0)
  {
    var base := In(ps, k) - {p};
    assert In(ps[p := pc], k) == if pc == k then base + {p} else base;
    assert In(ps, k) == if ps[p] == k then base + {p} else base;
  }

  lemma WeightsUpdate(ps: map<Tid, Producer>, p: Tid, pc: Producer)
    requires p in ps
    ensures Weights(ps[p := pc]) == Weights(ps) - Weight(ps[p]) + Weight(pc)
  {
    hide In;
    InUpdate(ps, p, pc, Announcing);
    InUpdate(ps, p, pc, Sending);
  }

  lemma StepDescends(s: State, a: Action)
    requires Enabled(s, a) && !a.Put?
    ensures Measure(Apply(s, a)) < Measure(s)
  {
    match a
    case Exchange(p) => WeightsUpdate(s.producers, p, if s.flag then Outside else Sending);
    case Send(p) => WeightsUpdate(s.producers, p, Outside);
    case _ =>
  }

  ghost predicate Stuck(s: State) {
    forall a: Action :: !a.Put? ==> !Enabled(s, a)
  }

  /** From any reachable state, every run without further puts is shorter than the measure, and
      when it can go no further the ring is empty: the consumer never idles over waiting data. */
  lemma {:induction false} Drains(s: State, acts: seq<Action>)
    requires Inv(s) && Runs(s, acts)
    requires forall i | 0 <= i < |acts| :: !acts[i].Put?
    ensures |acts| + Measure(Exec(s, acts)) <= Measure(s)
    ensures Stuck(Exec(s, acts)) ==> Quiescent(Exec(s, acts)) && Exec(s, acts).ring == 0
    decreases acts
  {
    if acts == [] {
      if Stuck(s) {
        assert !Enabled(s, Receive) && !Enabled(s, Pop) && !Enabled(s, Lower) && !Enabled(s, Check) && !Enabled(s, Raise);
        forall p | p in s.producers ensures s.producers[p].Outside? {
          assert !Enabled(s, Exchange(p)) && !Enabled(s, Send(p));
        }
      }
    } else {
      StepInv(s, acts[0]);
      StepDescends(s, acts[0]);
      Drains(Apply(s, acts[0]), acts[1..]);
    }
  }

  // ---------------------------------------------------------------------------------------------
  // What the state is, from the list of actions alone
  // ---------------------------------------------------------------------------------------------

  /** How many elements a bounded counter would hold. */
  function Filled(acts: seq<Action>, cap: nat): nat {
    if acts == [] then 0
    else
      var n := Filled(acts[..|acts| - 1], cap);
      match acts[|acts| - 1]
      case Put(_) => if n < cap then n + 1 else n
      case Pop => if n > 0 then n - 1 else 0
      case _ => n
  }

  /** Whether the flag was raised after it was last lowered. */
  predicate Up(acts: seq<Action>) {
    acts != [] &&
    match acts[|acts| - 1]
    case Exchange(_) => true
    case Raise => true
    case Lower => false
    case _ => Up(acts[..|acts| - 1])
  }

  /** How often a producer raised the flag from down. */
  function Won(acts: seq<Action>): nat {
    if acts == [] then 0
    else
      var front := acts[..|acts| - 1];
      Won(front) + if acts[|acts| - 1].Exchange? && !Up(front) then 1 else 0
  }

  function Sends(acts: seq<Action>): nat {
    if acts == [] then 0 else Sends(acts[..|acts| - 1]) + if acts[|acts| - 1].Send? then 1 else 0
  }

  function Receives(acts: seq<Action>): nat {
    if acts == [] then 0 else Receives(acts[..|acts| - 1]) + if acts[|acts| - 1].Receive? then 1 else 0
  }

  lemma {:induction false} ExecSnoc(s: State, acts: seq<Action>)
    requires Runs(s, acts) && acts != []
    ensures var front, a := acts[..|acts| - 1], acts[|acts| - 1];
            Runs(s, front) && Enabled(Exec(s, front), a) && Exec(s, acts) == Apply(Exec(s, front), a)
    decreases acts
  {
    hide Enabled;
    hide Apply;
    if |acts| > 1 {
      ExecSnoc(Apply(s, acts[0]), acts[1..]);
      assert acts[..|acts| - 1][1..] == acts[1..][..|acts| - 2];
    }
  }

  lemma SendingStep(s: State, a: Action)
    requires Enabled(s, a)
    ensures |In(Apply(s, a).producers, Sending)| == |In(s.producers, Sending)|
            + (if a.Exchange? && !s.flag then 1 else 0) - (if a.Send? then 1 else 0)
  {
    hide In;
    match a
    case Put(p) => InUpdate(s.producers, p, Announcing, Sending);
    case Exchange(p) => InUpdate(s.producers, p, if s.flag then Outside else Sending, Sending);
    case Send(p) => InUpdate(s.producers, p, Outside, Sending);
    case _ =>
  }

  /** The consumer's last step. */
  function LastTurn(acts: seq<Action>): Action {
    if acts == [] then Check
    else
      var a := acts[|acts| - 1];
      if a.Put? || a.Exchange? || a.Send? then LastTurn(acts[..|acts| - 1]) else a
  }

  /** In every run the ring holds what a bounded counter would, the flag is up exactly when it was raised
      since it was lowered, one polling event is sent for each time a producer raised it from down, and the consumer pops
      only after an event or after it has raised the flag itself. */
  lemma {:induction false} History(s: State, acts: seq<Action>)
    requires Init(s) && Runs(s, acts)
    ensures var e := Exec(s, acts);
            && e.cap == s.cap && e.ring == Filled(acts, s.cap) && e.flag == Up(acts)
            && (e.consumer.Draining? ==> var a := LastTurn(acts); a.Receive? || a.Raise? || a.Pop?)
            && e.events + Receives(acts) == Sends(acts) && Sends(acts) + |In(e.producers, Sending)| == Won(acts)
    decreases |acts|
  {
    if acts == [] {
      assert In(s.producers, Sending) == {};
    } else {
      hide In;
      ExecSnoc(s, acts);
      History(s, acts[..|acts| - 1]);
      SendingStep(Exec(s, acts[..|acts| - 1]), acts[|acts| - 1]);
    }
  }
}
