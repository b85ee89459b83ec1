/** Data arriving for a stream, and being read, while it is being closed.

    Any number of threads, each bringing one chain (`fill_data_to_read_buffer`), moving what is pending
    to the receive buffer (`move_pending_data`) or closing the stream (`close`), interleaved at the
    granularity of the pending lock, the loads and exchanges of the state, the single append and the
    single recycling.  A chain is named by a number.
 */
module CloseRace {

  datatype Thread =
    | Bringing(chain: nat)         // before the push to the pending list
    | Checking                     // before the look at the state
    | Closing                      // before the exchange of the state
    | Swapping                     // before the pending list is taken
    | Recycling(left: seq<nat>)    // with the chains it took
    | Emptying                     // before the receive buffer is recycled
    | Reading                      // before the pending list is taken to be read
    | Moving(left: seq<nat>)       // with the chains it took
    | Finished

  /** `received` are the chains in the receive buffer. */
  datatype State = State(closed: bool, pending: seq<nat>, received: seq<nat>, threads: seq<Thread>, recycled: seq<nat>)

  /** The next step of thread `i`. */
  function Apply(s: State, i: nat): State
    requires i < |s.threads|
  {
    match s.threads[i]
    case Bringing(c) => s.(pending := s.pending + [c], threads := s.threads[i := Checking])
    case Checking => s.(threads := s.threads[i := if s.closed then Swapping else Finished])
    case Closing => s.(closed := true, threads := s.threads[i := if s.closed then Finished else Swapping])
    case Swapping => s.(pending := [], threads := s.threads[i := Recycling(s.pending)])
    case Recycling(left) =>
      if left == [] then s.(threads := s.threads[i := Emptying])
      else s.(recycled := s.recycled + [left[0]], threads := s.threads[i := Recycling(left[1..])])
    case Emptying => s.(recycled := s.recycled + s.received, received := [], threads := s.threads[i := Finished])
    case Reading => s.(pending := [], threads := s.threads[i := Moving(s.pending)])
    case Moving(left) =>
      if left == [] then s.(threads := s.threads[i := Finished])
      else s.(received := s.received + [left[0]], threads := s.threads[i := Moving(left[1..])])
    case Finished => s
  }

  predicate Enabled(s: State, i: nat) {
    i < |s.threads| && s.threads[i] != Finished
  }

  function Exec(s: State, run: seq<nat>): State
    requires Runs(s, run)
    decreases run
  {
    if run == [] then s else Exec(Apply(s, run[0]), run[1..])
  }

  predicate Runs(s: State, run: seq<nat>)
    decreases run
  {
    run == [] || (Enabled(s, run[0]) && Runs(Apply(s, run[0]), run[1..]))
  }

  predicate Start(s: State) {
    !s.closed && s.pending == [] && s.received == [] && s.recycled == []
    && forall i | 0 <= i < |s.threads| :: s.threads[i].Bringing? || s.threads[i].Closing? || s.threads[i].Reading?
  }

  // ---------------------------------------------------------------------------------------------
  // Where the chains are
  // ---------------------------------------------------------------------------------------------

  function Held(t: Thread): multiset<nat> {
    match t
    case Bringing(c) => multiset{c}
    case Recycling(left) => multiset(left)
    case Moving(left) => multiset(left)
    case _ => multiset{}
  }

  function AllHeld(threads: seq<Thread>): multiset<nat> {
    if threads == [] then multiset{} else Held(threads[0]) + AllHeld(threads[1..])
  }

  function Listed(s: State): multiset<nat> {
    multiset(s.pending) + multiset(s.received) + multiset(s.recycled)
  }

  /** Every chain, wherever it is. */
  function Everything(s: State): multiset<nat> {
    AllHeld(s.threads) + Listed(s)
  }

  lemma {:induction false} HeldAt(threads: seq<Thread>, i: nat, t: Thread)
    requires i < |threads|
    ensures AllHeld(threads[i := t]) + Held(threads[i]) == AllHeld(threads) + Held(t)
  {
    hide Held;
    var more := threads[i := t];
    if i == 0 {
      assert more[1..] == threads[1..];
    } else {
      assert more[1..] == threads[1..][i - 1 := t];
      HeldAt(threads[1..], i - 1, t);
      var first := Held(threads[0]);
      assert AllHeld(more) + Held(threads[i]) == first + (AllHeld(more[1..]) + Held(threads[i]));
      assert AllHeld(threads) + Held(t) == first + (AllHeld(threads[1..]) + Held(t));
    }
  }

  /** A thread's share changed from `v` to `w` and the rest from `x` to `y`: the total stays. */
  lemma Balance(p: multiset<nat>, q: multiset<nat>, v: multiset<nat>, w: multiset<nat>, x: multiset<nat>,
                y: multiset<nat>)
    requires q + v == p + w && w + y == v + x
    ensures q + y == p + x
  {
    assert (q + v) + y == (p + w) + y;
    assert (p + w) + y == p + (w + y) == p + (v + x);
    assert q + y == (q + v) + y - v;
    assert p + x == p + (v + x) - v;
  }

  /** What a thread and the lists hold between them. */
  function Share(t: Thread, s: State): multiset<nat> {
    Held(t) + Listed(s)
  }

  lemma BringStep(s: State, i: nat)
    requires i < |s.threads| && s.threads[i].Bringing?
    ensures var r := Apply(s, i); Share(r.threads[i], r) == Share(s.threads[i], s)
  {
    var c := s.threads[i].chain;
    Appended(s.pending, [c]);
    Shuffle(multiset{c}, multiset{}, multiset(s.pending), multiset(s.received), multiset(s.recycled));
  }

  lemma RecycleStep(s: State, i: nat)
    requires i < |s.threads| && s.threads[i].Recycling? && s.threads[i].left != []
    ensures var r := Apply(s, i); Share(r.threads[i], r) == Share(s.threads[i], s)
  {
    var left := s.threads[i].left;
    assert left == [left[0]] + left[1..];
    Appended(s.recycled, [left[0]]);
    Shuffle(multiset{left[0]}, multiset(left[1..]), multiset(s.pending), multiset(s.received), multiset(s.recycled));
  }

  lemma MoveStep(s: State, i: nat)
    requires i < |s.threads| && s.threads[i].Moving? && s.threads[i].left != []
    ensures var r := Apply(s, i); Share(r.threads[i], r) == Share(s.threads[i], s)
  {
    var left := s.threads[i].left;
    assert left == [left[0]] + left[1..];
    Appended(s.received, [left[0]]);
    Shuffle(multiset{left[0]}, multiset(left[1..]), multiset(s.pending), multiset(s.received), multiset(s.recycled));
  }

  lemma EmptyStep(s: State, i: nat)
    requires i < |s.threads| && s.threads[i].Emptying?
    ensures var r := Apply(s, i); Share(r.threads[i], r) == Share(s.threads[i], s)
  {
    Appended(s.recycled, s.received);
    var none: multiset<nat> := multiset{};
    Shuffle(none, none, multiset(s.pending), multiset(s.received), multiset(s.recycled));
  }

  lemma TakeStep(s: State, i: nat)
    requires i < |s.threads| && (s.threads[i].Swapping? || s.threads[i].Reading?)
    ensures var r := Apply(s, i); Share(r.threads[i], r) == Share(s.threads[i], s)
  {
    Shuffle(multiset{}, multiset{}, multiset(s.pending), multiset(s.received), multiset(s.recycled));
  }

  /** The steps that move no chain. */
  lemma QuietStep(s: State, i: nat)
    requires i < |s.threads|
    requires s.threads[i].Checking? || s.threads[i].Closing? || s.threads[i] == Recycling([]) || s.threads[i] == Moving([])
    ensures var r := Apply(s, i); Share(r.threads[i], r) == Share(s.threads[i], s)
  {
    hide Listed;
    assert Listed(Apply(s, i)) == Listed(s) by { ListedSame(s, Apply(s, i)); }
  }

  lemma ListedSame(s: State, r: State)
    requires r.pending == s.pending && r.received == s.received && r.recycled == s.recycled
    ensures Listed(r) == Listed(s)
  {
  }

  /** What a step takes from the thread it adds to the lists, and the other way round. */
  lemma LocalStep(s: State, i: nat)
    requires Enabled(s, i)
    ensures var r := Apply(s, i);
            r.threads == s.threads[i := r.threads[i]] && Share(r.threads[i], r) == Share(s.threads[i], s)
  {
    hide Share;
    var t := s.threads[i];
    if t.Bringing? {
      BringStep(s, i);
    } else if t.Recycling? && t.left != [] {
      RecycleStep(s, i);
    } else if t.Moving? && t.left != [] {
      MoveStep(s, i);
    } else if t.Emptying? {
      EmptyStep(s, i);
    } else if t.Swapping? || t.Reading? {
      TakeStep(s, i);
    } else {
      QuietStep(s, i);
    }
  }

  lemma Appended(a: seq<nat>, b: seq<nat>)
    ensures multiset(a + b) == multiset(a) + multiset(b)
  {
  }

  /** The ways a step moves chains around. */
  lemma Shuffle(c: multiset<nat>, a: multiset<nat>, p: multiset<nat>, v: multiset<nat>, d: multiset<nat>)
    ensures a + ((p + c) + v + d) == (c + a) + (p + v + d)
    ensures a + (p + (v + c) + d) == (c + a) + (p + v + d)
    ensures a + (p + v + (d + c)) == (c + a) + (p + v + d)
    ensures a + (p + multiset{} + (d + v)) == a + (p + v + d)
    ensures p + (multiset{} + v + d) == multiset{} + (p + v + d)
  {
  }

  /** No step loses or duplicates a chain. */
  lemma StepConserves(s: State, i: nat)
    requires Enabled(s, i)
    ensures Everything(Apply(s, i)) == Everything(s)
  {
    LocalStep(s, i);
    hide Apply;
    hide Held;
    hide AllHeld;
    var r := Apply(s, i);
    hide Listed;
    HeldAt(s.threads, i, r.threads[i]);
    Balance(AllHeld(s.threads), AllHeld(r.threads), Held(s.threads[i]), Held(r.threads[i]), Listed(s), Listed(r));
  }

  // ---------------------------------------------------------------------------------------------
  // Somebody still cleans up
  // ---------------------------------------------------------------------------------------------

  predicate Cleaner(t: Thread) {
    t.Checking? || t.Swapping?
  }

  /** Giving chains back; the last thing it does is to empty the receive buffer. */
  predicate Cleaning(t: Thread) {
    t.Swapping? || t.Recycling? || t.Emptying?
  }

  /** While the stream is open nobody recycles; once it is closed, whatever is pending has somebody
      who will look after it. */
  ghost predicate Covered(s: State) {
    && (s.closed && s.pending != [] ==> exists i :: 0 <= i < |s.threads| && Cleaner(s.threads[i]))
    && (!s.closed ==>
          s.recycled == [] && forall i | 0 <= i < |s.threads| :: !Cleaning(s.threads[i]))
  }

  lemma StepCovered(s: State, i: nat)
    requires Enabled(s, i) && Covered(s)
    ensures Covered(Apply(s, i))
  {
    var r := Apply(s, i);
    if r.closed && r.pending != [] {
      if Cleaner(r.threads[i]) {
      } else {
        var j :| 0 <= j < |s.threads| && Cleaner(s.threads[j]);
        assert j != i && r.threads[j] == s.threads[j];
      }
    }
  }

  lemma {:induction false} RunKeeps(s: State, run: seq<nat>)
    requires Runs(s, run) && Covered(s)
    ensures Covered(Exec(s, run)) && Everything(Exec(s, run)) == Everything(s)
    ensures |Exec(s, run).threads| == |s.threads|
    decreases run
  {
    hide Everything;
    hide Covered;
    if run != [] {
      StepCovered(s, run[0]);
      StepConserves(s, run[0]);
      RunKeeps(Apply(s, run[0]), run[1..]);
    }
  }

  // ---------------------------------------------------------------------------------------------
  // The race
  // ---------------------------------------------------------------------------------------------

  predicate AllFinished(s: State) {
    forall i | 0 <= i < |s.threads| :: s.threads[i] == Finished
  }

  lemma {:induction false} FinishedHoldNothing(threads: seq<Thread>)
    requires forall i | 0 <= i < |threads| :: threads[i] == Finished
    ensures AllHeld(threads) == multiset{}
  {
    if threads != [] { FinishedHoldNothing(threads[1..]); }
  }

  /** However arrivals, reads and closes interleave: when all calls have returned and the stream is
      closed, nothing is pending, and every chain was recycled exactly as often as it was brought but
      for those in the receive buffer; when no call closed it, all of them are pending or received. */
  lemma NoChainLeft(s: State, run: seq<nat>)
    requires Start(s) && Runs(s, run) && AllFinished(Exec(s, run))
    ensures var r := Exec(s, run);
            && (r.closed ==> r.pending == [] && multiset(r.recycled) + multiset(r.received) == AllHeld(s.threads))
            && (!r.closed ==> multiset(r.pending) + multiset(r.received) == AllHeld(s.threads) && r.recycled == [])
  {
    hide AllHeld;
    RunKeeps(s, run);
    var r := Exec(s, run);
    FinishedHoldNothing(r.threads);
    assert Everything(s) == AllHeld(s.threads);
    assert Everything(r) == Listed(r);
    assert forall i | 0 <= i < |r.threads| :: !Cleaner(r.threads[i]);
  }

  /** The stream is closed at the end exactly when some thread closes it. */
  ghost predicate Closer(s: State) {
    exists i :: 0 <= i < |s.threads| && s.threads[i] == Closing
  }

  lemma {:induction false} ClosedIff(s: State, run: seq<nat>)
    requires Runs(s, run) && AllFinished(Exec(s, run))
    ensures Exec(s, run).closed <==> s.closed || Closer(s)
    decreases run
  {
    if run != [] {
      var i, r := run[0], Apply(s, run[0]);
      ClosedIff(r, run[1..]);
      assert forall j | 0 <= j < |s.threads| && j != i :: r.threads[j] == s.threads[j];
      if Closer(s) && !Closer(r) {
        var j :| 0 <= j < |s.threads| && s.threads[j] == Closing;
        assert j == i;
      }
      if Closer(r) {
        var j :| 0 <= j < |r.threads| && r.threads[j] == Closing;
        assert j != i;
      }
    }
  }

  // ---------------------------------------------------------------------------------------------
  // Every run ends
  // ---------------------------------------------------------------------------------------------

  function Weight(t: Thread): nat {
    match t
    case Bringing(_) => 6
    case Checking => 4
    case Closing => 4
    case Swapping => 3
    case Recycling(left) => 2 + |left|
    case Emptying => 1
    case Reading => 2
    case Moving(left) => 1 + |left|
    case Finished => 0
  }

  function Weights(threads: seq<Thread>): nat {
    if threads == [] then 0 else Weight(threads[0]) + Weights(threads[1..])
  }

  /** Steps left: a chain that is pending may still be recycled. */
  function Left(s: State): nat {
    Weights(s.threads) + |s.pending|
  }

  lemma {:induction false} WeightsAt(threads: seq<Thread>, i: nat, t: Thread)
    requires i < |threads|
    ensures Weights(threads[i := t]) + Weight(threads[i]) == Weights(threads) + Weight(t)
  {
    var more := threads[i := t];
    if i == 0 {
      assert more[1..] == threads[1..];
    } else {
      assert more[1..] == threads[1..][i - 1 := t];
      WeightsAt(threads[1..], i - 1, t);
    }
  }

  /** Each step brings the end nearer, so no run is longer than `Left` of its first state. */
  lemma StepDescends(s: State, i: nat)
    requires Enabled(s, i)
    ensures Left(Apply(s, i)) < Left(s)
  {
    var r := Apply(s, i);
    assert r.threads == s.threads[i := r.threads[i]];
    WeightsAt(s.threads, i, r.threads[i]);
  }

  lemma {:induction false} RunsEnd(s: State, run: seq<nat>)
    requires Runs(s, run)
    ensures |run| + Left(Exec(s, run)) <= Left(s)
    decreases run
  {
    hide Left;
    if run != [] {
      StepDescends(s, run[0]);
      RunsEnd(Apply(s, run[0]), run[1..]);
    }
  }

  /** And a run stops only when all calls have returned. */
  lemma Progress(s: State)
    requires !AllFinished(s)
    ensures exists i :: Enabled(s, i)
  {
    var i :| 0 <= i < |s.threads| && s.threads[i] != Finished;
    assert Enabled(s, i);
  }

  // ---------------------------------------------------------------------------------------------
  // What stays in the receive buffer
  // ---------------------------------------------------------------------------------------------

  /** When all calls have returned and the stream is closed, nothing is left in the receive buffer. */
  ghost predicate AlwaysEmptied(s: State) {
    forall run: seq<nat> | Runs(s, run) && AllFinished(Exec(s, run)) && Exec(s, run).closed :: Exec(s, run).received == []
  }

  predicate Loaded(t: Thread) {
    t.Moving? && t.left != []
  }

  /** A reader has chains in its hands, or may still get some. */
  ghost predicate Carrying(s: State) {
    || (exists i :: 0 <= i < |s.threads| && Loaded(s.threads[i]))
    || ((exists i :: 0 <= i < |s.threads| && s.threads[i] == Reading)
        && (s.pending != [] || exists i :: 0 <= i < |s.threads| && s.threads[i].Bringing?))
  }

  /** Once the stream is closed, whatever was received has somebody who will empty the buffer. */
  ghost predicate WillEmpty(s: State) {
    s.closed && s.received != [] ==> exists i :: 0 <= i < |s.threads| && Cleaning(s.threads[i])
  }

  lemma StepCarriesNothing(s: State, i: nat)
    requires Enabled(s, i) && !Carrying(s)
    ensures !Carrying(Apply(s, i))
  {
    var r := Apply(s, i);
    assert forall j | 0 <= j < |s.threads| && j != i :: r.threads[j] == s.threads[j];
  }

  lemma StepWillEmpty(s: State, i: nat)
    requires Enabled(s, i) && !Carrying(s) && WillEmpty(s)
    ensures WillEmpty(Apply(s, i))
  {
    var r := Apply(s, i);
    if r.closed && r.received != [] && !Cleaning(r.threads[i]) {
      assert !Loaded(s.threads[i]);
      var j :| 0 <= j < |s.threads| && Cleaning(s.threads[j]);
      assert j != i && r.threads[j] == s.threads[j];
    }
  }

  lemma {:induction false} NothingStays(s: State, run: seq<nat>)
    requires Runs(s, run) && !Carrying(s) && WillEmpty(s)
    requires AllFinished(Exec(s, run)) && Exec(s, run).closed
    ensures Exec(s, run).received == []
    decreases run
  {
    hide Carrying;
    if run != [] {
      hide WillEmpty;
      StepCarriesNothing(s, run[0]);
      StepWillEmpty(s, run[0]);
      NothingStays(Apply(s, run[0]), run[1..]);
    }
  }

  lemma EmptiedBack(s: State, i: nat)
    requires Enabled(s, i) && AlwaysEmptied(s)
    ensures AlwaysEmptied(Apply(s, i))
  {
    hide Apply;
    hide AllFinished;
    var r := Apply(s, i);
    forall run: seq<nat> | Runs(r, run) && AllFinished(Exec(r, run)) && Exec(r, run).closed ensures Exec(r, run).received == [] {
      var more := [i] + run;
      assert more[1..] == run;
      assert Runs(s, more) && Exec(s, more) == Exec(r, run);
    }
  }

  /** Everybody else has returned, and the reader now appends what it carries. */
  lemma {:induction false} LastReader(s: State, j: nat)
    requires j < |s.threads| && s.closed && s.threads[j].Moving? && (s.threads[j].left != [] || s.received != [])
    requires forall i | 0 <= i < |s.threads| && i != j :: s.threads[i] == Finished
    ensures !AlwaysEmptied(s)
    decreases |s.threads[j].left|
  {
    var r := Apply(s, j);
    if s.threads[j].left == [] {
      assert Runs(r, []) && Exec(r, []) == r && AllFinished(r);
    } else {
      LastReader(r, j);
    }
    if AlwaysEmptied(s) { EmptiedBack(s, j); }
  }

  /** A reader with chains in its hands may be the last to move. */
  lemma {:induction false} ReaderWaits(s: State, j: nat)
    requires j < |s.threads| && Loaded(s.threads[j]) && (s.closed || Closer(s))
    ensures !AlwaysEmptied(s)
    decreases Left(s)
  {
    if i :| 0 <= i < |s.threads| && i != j && s.threads[i] != Finished {
      var r := Apply(s, i);
      assert forall k | 0 <= k < |s.threads| && k != i :: r.threads[k] == s.threads[k];
      StepDescends(s, i);
      hide Left;
      ReaderWaits(r, j);
      if AlwaysEmptied(s) { EmptiedBack(s, i); }
    } else {
      LastReader(s, j);
    }
  }

  lemma ReaderTakes(s: State, j: nat)
    requires j < |s.threads| && s.threads[j] == Reading && s.pending != [] && (s.closed || Closer(s))
    ensures !AlwaysEmptied(s)
  {
    var r := Apply(s, j);
    assert forall k | 0 <= k < |s.threads| && k != j :: r.threads[k] == s.threads[k];
    ReaderWaits(r, j);
    if AlwaysEmptied(s) { EmptiedBack(s, j); }
  }

  lemma CarryingStays(s: State)
    requires Carrying(s) && Closer(s)
    ensures !AlwaysEmptied(s)
  {
    if j :| 0 <= j < |s.threads| && Loaded(s.threads[j]) {
      ReaderWaits(s, j);
    } else {
      var j :| 0 <= j < |s.threads| && s.threads[j] == Reading;
      if s.pending != [] {
        ReaderTakes(s, j);
      } else {
        var k :| 0 <= k < |s.threads| && s.threads[k].Bringing?;
        var r := Apply(s, k);
        assert forall i | 0 <= i < |s.threads| && i != k :: r.threads[i] == s.threads[i];
        ReaderTakes(r, j);
        if AlwaysEmptied(s) { EmptiedBack(s, k); }
      }
    }
  }

  /** While the stream is open, whatever calls are under way: nothing will be left in the receive buffer
      of the closed stream, however the calls interleave, if and only if no call closes it or no reader
      has, or may still get, chains that it has not appended. */
  lemma EmptiedIff(s: State)
    requires !s.closed
    ensures AlwaysEmptied(s) <==> !Closer(s) || !Carrying(s)
  {
    if Closer(s) && Carrying(s) {
      CarryingStays(s);
    } else {
      forall run: seq<nat> | Runs(s, run) && AllFinished(Exec(s, run)) && Exec(s, run).closed
        ensures Exec(s, run).received == []
      {
        ClosedIff(s, run);
        NothingStays(s, run);
      }
    }
  }

  ghost predicate Reader(s: State) {
    exists i :: 0 <= i < |s.threads| && s.threads[i] == Reading
  }

  ghost predicate Bringer(s: State) {
    exists i :: 0 <= i < |s.threads| && s.threads[i].Bringing?
  }

  /** So from the start of the calls: it takes an arrival, a read and a close together. */
  lemma EmptiedAtStart(s: State)
    requires Start(s)
    ensures AlwaysEmptied(s) <==> !(Closer(s) && Reader(s) && Bringer(s))
  {
    EmptiedIff(s);
    assert forall i | 0 <= i < |s.threads| :: !Loaded(s.threads[i]);
  }

  /** One of each is enough. */
  lemma ReaderLeavesChain()
    ensures var s := State(false, [], [], [Bringing(1), Reading, Closing], []);
            Start(s) && !AlwaysEmptied(s)
  {
    var s := State(false, [], [], [Bringing(1), Reading, Closing], []);
    assert s.threads[0] == Bringing(1) && s.threads[1] == Reading && s.threads[2] == Closing;
    assert Closer(s) && Reader(s) && Bringer(s);
    EmptiedAtStart(s);
  }

  // ---------------------------------------------------------------------------------------------
  // A second close
  // ---------------------------------------------------------------------------------------------

  lemma {:induction false} ExecSnoc(s: State, run: seq<nat>)
    requires Runs(s, run) && run != []
    ensures var front, i := run[..|run| - 1], run[|run| - 1];
            Runs(s, front) && Enabled(Exec(s, front), i) && Exec(s, run) == Apply(Exec(s, front), i)
    decreases run
  {
    hide Apply;
    if |run| > 1 {
      ExecSnoc(Apply(s, run[0]), run[1..]);
      assert run[..|run| - 1][1..] == run[1..][..|run| - 2];
    }
  }

  /** A thread that has made no step is where it was; once a close has made one the stream is closed. */
  lemma {:induction false} ClosedBy(s: State, run: seq<nat>)
    requires Runs(s, run)
    ensures var e := Exec(s, run);
            && |e.threads| == |s.threads|
            && (forall i | 0 <= i < |s.threads| && i !in run :: e.threads[i] == s.threads[i])
            && (e.closed <==> s.closed || exists i :: i in run && 0 <= i < |s.threads| && s.threads[i] == Closing)
    decreases |run|
  {
    if run != [] {
      ExecSnoc(s, run);
      var front, i := run[..|run| - 1], run[|run| - 1];
      ClosedBy(s, front);
      assert run == front + [i];
      var e, r := Exec(s, front), Exec(s, run);
      if r.closed && !e.closed {
        assert e.threads[i] == Closing;
        if i in front { StartedClose(s, front, i); }
        assert i in run && s.threads[i] == Closing;
      }
    }
  }

  /** Nobody comes to the exchange but from the start. */
  lemma {:induction false} StartedClose(s: State, run: seq<nat>, i: nat)
    requires Runs(s, run) && i < |s.threads| && |Exec(s, run).threads| == |s.threads|
    ensures Exec(s, run).threads[i] == Closing ==> i !in run && s.threads[i] == Closing
    decreases |run|
  {
    if run != [] {
      ExecSnoc(s, run);
      var front, k := run[..|run| - 1], run[|run| - 1];
      assert run == front + [k];
      LengthSame(s, front);
      StartedClose(s, front, i);
    }
  }

  lemma {:induction false} LengthSame(s: State, run: seq<nat>)
    requires Runs(s, run)
    ensures |Exec(s, run).threads| == |s.threads|
    decreases run
  {
    if run != [] { LengthSame(Apply(s, run[0]), run[1..]); }
  }

  /** A close that comes after another one returns at once and touches nothing. */
  lemma LateClose(s: State, run: seq<nat>, k: nat, i: nat)
    requires Start(s) && Runs(s, run) && k in run && k < |s.threads| && s.threads[k] == Closing
    requires i < |s.threads| && s.threads[i] == Closing && i !in run
    ensures var e := Exec(s, run);
            && i < |e.threads| && Enabled(e, i)
            && Apply(e, i) == e.(threads := e.threads[i := Finished])
  {
    ClosedBy(s, run);
  }
}
