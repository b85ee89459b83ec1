/** The ring under concurrency: producers serialised by the put mutex, one consumer without it.

    Each word store of a record, the tail store, each word load and the head store are steps of
    their own, in the order of the code: a put publishes its record by the tail store that comes
    last, a pop frees the slot by the head store that comes last.
 */
module RingProtocol {
  import Ring

  const WORDS := 3

  type Record = r: seq<nat> | |r| == WORDS witness [0, 0, 0]

  datatype Producer = NoPut | Storing(r: Record, done: nat)
  datatype Consumer = NoPop | Loading(got: seq<nat>)

  /** `accepted` and `returned` are auxiliary: the records of all completed puts and pops. */
  datatype State = State(
    slots: seq<Record>,
    head: nat,
    tail: nat,
    producer: Producer,
    consumer: Consumer,
    accepted: seq<Record>,
    returned: seq<seq<nat>>)

  datatype Action = BeginPut(r: Record) | StoreWord | StoreTail | BeginPop | LoadWord | StoreHead

  predicate Enabled(s: State, a: Action) {
    match a
    case BeginPut(_) => s.producer.NoPut?
    case StoreWord => s.producer.Storing? && s.producer.done < WORDS && s.slots != []
    case StoreTail => s.producer.Storing? && s.producer.done == WORDS
    case BeginPop => s.consumer.NoPop?
    case LoadWord => s.consumer.Loading? && |s.consumer.got| < WORDS && s.slots != []
    case StoreHead => s.consumer.Loading? && |s.consumer.got| == WORDS
  }

  function Apply(s: State, a: Action): State
    requires Enabled(s, a)
  {
    match a
    case BeginPut(r) => if s.tail - s.head >= |s.slots| then s else s.(producer := Storing(r, 0))
    case StoreWord =>
      var i, k := s.tail % |s.slots|, s.producer.done;
      s.(slots := s.slots[i := s.slots[i][k := s.producer.r[k]]], producer := Storing(s.producer.r, k + 1))
    case StoreTail => s.(tail := s.tail + 1, producer := NoPut, accepted := s.accepted + [s.producer.r])
    case BeginPop => if s.head >= s.tail then s else s.(consumer := Loading([]))
    case LoadWord =>
      s.(consumer := Loading(s.consumer.got + [s.slots[s.head % |s.slots|][|s.consumer.got|]]))
    case StoreHead => s.(head := s.head + 1, consumer := NoPop, returned := s.returned + [s.consumer.got])
  }

  predicate Bounded(s: State) {
    s.head <= s.tail <= s.head + |s.slots| && s.tail == |s.accepted|
  }

  /** Every record between head and tail is complete. */
  predicate Published(s: State)
    requires Bounded(s)
  {
    forall i | s.head <= i < s.tail :: s.slots[i % |s.slots|] == s.accepted[i]
  }

  predicate ProducerOk(s: State)
    requires Bounded(s)
  {
    s.producer.Storing? ==>
      && s.tail - s.head < |s.slots|
      && s.producer.done <= WORDS
      && s.slots[s.tail % |s.slots|][..s.producer.done] == s.producer.r[..s.producer.done]
  }

  predicate ConsumerOk(s: State)
    requires Bounded(s)
  {
    && (s.consumer.Loading? ==>
          s.head < s.tail && |s.consumer.got| <= WORDS
          && s.consumer.got == s.accepted[s.head][..|s.consumer.got|])
    && |s.returned| == s.head
    && (forall i | 0 <= i < s.head :: s.returned[i] == s.accepted[i])
  }

  predicate Inv(s: State) {
    Bounded(s) && Published(s) && ProducerOk(s) && ConsumerOk(s)
  }

  predicate Init(s: State) {
    s.head == 0 && s.tail == 0 && s.producer.NoPut? && s.consumer.NoPop? && s.accepted == [] && s.returned == []
  }

  lemma SlotsDiffer(cap: nat, i: nat, j: nat)
    requires i < j < i + cap
    ensures i % cap != j % cap
  {
    if i % cap == j % cap {
      Ring.SameSlot(cap, i, j);
    }
  }

  lemma StoreWordInv(s: State)
    requires Inv(s) && Enabled(s, StoreWord)
    ensures Inv(Apply(s, StoreWord))
  {
    var s' := Apply(s, StoreWord);
    var cap, k := |s.slots|, s.producer.done;
    forall i | s.head <= i < s.tail ensures s'.slots[i % cap] == s'.accepted[i] {
      SlotsDiffer(cap, i, s.tail);
    }
    var now := s'.slots[s.tail % cap];
    assert now[..k + 1] == s.slots[s.tail % cap][..k] + [s.producer.r[k]];
    assert s.producer.r[..k + 1] == s.producer.r[..k] + [s.producer.r[k]];
  }

  lemma StoreTailInv(s: State)
    requires Inv(s) && Enabled(s, StoreTail)
    ensures Inv(Apply(s, StoreTail))
  {
    var r := s.producer.r;
    var now := s.slots[s.tail % |s.slots|];
    assert now[..WORDS] == now && r[..WORDS] == r;
  }

  lemma LoadWordInv(s: State)
    requires Inv(s) && Enabled(s, LoadWord)
    ensures Inv(Apply(s, LoadWord))
  {
    var k := |s.consumer.got|;
    var r := s.accepted[s.head];
    assert r[..k + 1] == r[..k] + [r[k]];
  }

  lemma StepInv(s: State, a: Action)
    requires Inv(s) && Enabled(s, a)
    ensures Inv(Apply(s, a))
  {
    match a
    case StoreWord => StoreWordInv(s);
    case StoreTail => StoreTailInv(s);
    case LoadWord => LoadWordInv(s);
    case StoreHead => assert s.accepted[s.head][..WORDS] == s.accepted[s.head];
    case BeginPut(_) =>
    case BeginPop =>
  }

  predicate Runs(s: State, acts: seq<Action>)
    decreases acts
  {
    acts == [] || (Enabled(s, acts[0]) && Runs(Apply(s, acts[0]), acts[1..]))
  }

  function Exec(s: State, acts: seq<Action>): State
    requires Runs(s, acts)
    decreases acts
  {
    if acts == [] then s else Exec(Apply(s, acts[0]), acts[1..])
  }

  lemma {:induction false} RunInv(s: State, acts: seq<Action>)
    requires Inv(s) && Runs(s, acts)
    ensures Inv(Exec(s, acts))
    decreases acts
  {
    if acts != [] {
      StepInv(s, acts[0]);
      RunInv(Apply(s, acts[0]), acts[1..]);
    }
  }

  /** In every interleaving, the completed pops returned a prefix of what the completed puts
      stored, whole record by whole record, and never more than `cap` records are between them. */
  lemma FifoOfWholeRecords(s: State, acts: seq<Action>)
    requires Init(s) && Runs(s, acts)
    ensures var e := Exec(s, acts);
            && |e.returned| <= |e.accepted| <= |e.returned| + |e.slots|
            && (forall i | 0 <= i < |e.returned| :: e.returned[i] == e.accepted[i])
  {
    RunInv(s, acts);
  }

  // ---------------------------------------------------------------------------------------------
  // What is accepted, from the list of actions alone
  // ---------------------------------------------------------------------------------------------

  function Tails(acts: seq<Action>): nat {
    if acts == [] then 0 else Tails(acts[..|acts| - 1]) + if acts[|acts| - 1].StoreTail? then 1 else 0
  }

  function Heads(acts: seq<Action>): nat {
    if acts == [] then 0 else Heads(acts[..|acts| - 1]) + if acts[|acts| - 1].StoreHead? then 1 else 0
  }

  /** The records of the puts that found room. */
  function Begun(acts: seq<Action>, cap: nat): seq<Record> {
    if acts == [] then []
    else
      var front, a := acts[..|acts| - 1], acts[|acts| - 1];
      if a.BeginPut? && Tails(front) - Heads(front) < cap then Begun(front, cap) + [a.r] else Begun(front, cap)
  }

  /** The words stored since the last put that found room began. */
  function Words(acts: seq<Action>, cap: nat): nat {
    if acts == [] then 0
    else
      var front := acts[..|acts| - 1];
      match acts[|acts| - 1]
      case BeginPut(_) => if Tails(front) - Heads(front) < cap then 0 else Words(front, cap)
      case StoreWord => Words(front, cap) + 1
      case _ => Words(front, cap)
  }

  /** Whether a pop that found a record is under way, and how many words it has read. */
  predicate Popping(acts: seq<Action>) {
    acts != [] &&
    var front := acts[..|acts| - 1];
    match acts[|acts| - 1]
    case BeginPop => Popping(front) || Heads(front) < Tails(front)
    case StoreHead => false
    case _ => Popping(front)
  }

  function Loads(acts: seq<Action>): nat {
    if acts == [] then 0
    else
      match acts[|acts| - 1]
      case BeginPop => 0
      case LoadWord => Loads(acts[..|acts| - 1]) + 1
      case _ => Loads(acts[..|acts| - 1])
  }

  lemma {:induction false} ExecSnoc(s: State, acts: seq<Action>)
    requires Runs(s, acts) && acts != []
    ensures var front, a := acts[..|acts| - 1], acts[|acts| - 1];
            Runs(s, front) && Enabled(Exec(s, front), a) && Exec(s, acts) == Apply(Exec(s, front), a)
    decreases acts
  {
    hide Enabled;
    hide Apply;
    if |acts| > 1 {
      ExecSnoc(Apply(s, acts[0]), acts[1..]);
      assert acts[..|acts| - 1][1..] == acts[1..][..|acts| - 2];
    }
  }

  /** In every run a put is accepted exactly when there is room, and its record is published after three
      word stores; a pop is served exactly when a record is there, after three word loads. */
  lemma {:induction false} History(s: State, acts: seq<Action>)
    requires Init(s) && Runs(s, acts)
    ensures var e, cap := Exec(s, acts), |s.slots|;
            && |e.slots| == cap && e.tail == Tails(acts) && e.head == Heads(acts)
            && Begun(acts, cap) == e.accepted + (if e.producer.Storing? then [e.producer.r] else [])
            && (e.producer.Storing? ==> e.producer.done == Words(acts, cap))
            && (e.consumer.Loading? <==> Popping(acts))
            && (e.consumer.Loading? ==> |e.consumer.got| == Loads(acts))
    decreases |acts|
  {
    if acts != [] {
      ExecSnoc(s, acts);
      History(s, acts[..|acts| - 1]);
    }
  }
}
