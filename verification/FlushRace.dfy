/** A flush of a stream while it is being closed.

    One `flush` of a filled send buffer and any number of `close` calls on the same stream, interleaved
    at the loads and exchanges of the state, the put into the ring, the copy into a frame, and the `clean`
    and `recycle` of the send buffer; the peer may half-close the stream at any time.  The chain in the
    buffer goes to the peer with the put, and `clean` makes the buffer forget it; a stream that has fallen
    back copies the bytes into a frame and recycles the chain itself; `recycle` gives back whatever chain
    the buffer still has.
 */
module FlushRace {

  const RETRIES := 10

  datatype Flush =
    | Looking                // before the load of the state
    | Putting(retry: nat)    // before a put into the ring
    | Waiting(retry: nat)    // the ring was full, before the next look at the state
    | Cleaning               // the put succeeded, before `clean`
    | Measuring              // fallen back, before the length of the frame is read
    | Copying                // before the bytes are copied into the frame
    | Dropping               // before `recycle`
    | Returned

  datatype Close =
    | Closing                // before the exchange of the state
    | Recycling              // before `recycle` of the send buffer
    | Closed

  datatype Status = Open | HalfClosed | FullyClosed

  /** `sent` and `recycled` count what happened to the chain; `bogus` tells that an element was put, or a
      frame made, although the buffer had no chain any more. */
  datatype State = State(status: Status, fellBack: bool, inBuffer: bool, sent: nat, recycled: nat, bogus: bool,
                         flush: Flush, closes: seq<Close>)

  /** One step of the flush, where a put may find the ring full, or of one of the closes, or a
      half-close. */
  datatype Action = Step(full: bool) | CloseStep(i: nat) | HalfClose

  predicate Enabled(s: State, a: Action) {
    match a
    case Step(_) => s.flush != Returned
    case CloseStep(i) => i < |s.closes| && s.closes[i] != Closed
    case HalfClose => true
  }

  function Recycled(s: State): State {
    if s.inBuffer then s.(inBuffer := false, recycled := s.recycled + 1) else s
  }

  /** The put of the first buffer's offset: there may be none. */
  function Sent(s: State): State {
    if s.inBuffer then s.(sent := s.sent + 1, flush := Cleaning) else s.(bogus := true, flush := Cleaning)
  }

  function Apply(s: State, a: Action): State
    requires Enabled(s, a)
  {
    match a
    case Step(full) => (
      match s.flush
      case Looking => s.(flush := if s.status != Open then Dropping else if s.fellBack then Measuring else Putting(0))
      case Putting(n) => if full then s.(flush := Waiting(n)) else Sent(s)
      case Waiting(n) => s.(flush := if s.status != Open || n >= RETRIES then Dropping else Putting(n + 1))
      case Cleaning => s.(inBuffer := false, flush := Returned)
      case Measuring => s.(flush := Copying, bogus := s.bogus || !s.inBuffer)
      case Copying => s.(flush := Dropping, bogus := s.bogus || !s.inBuffer)
      case Dropping => Recycled(s).(flush := Returned)
      case Returned => s)
    case CloseStep(i) => (
      match s.closes[i]
      case Closing =>
        s.(status := FullyClosed, closes := s.closes[i := if s.status == FullyClosed then Closed else Recycling])
      case Recycling => Recycled(s).(closes := s.closes[i := Closed])
      case Closed => s)
    case HalfClose => if s.status == Open then s.(status := HalfClosed) else s
  }

  predicate Runs(s: State, acts: seq<Action>)
    decreases acts
  {
    acts == [] || (Enabled(s, acts[0]) && Runs(Apply(s, acts[0]), acts[1..]))
  }

  function Exec(s: State, acts: seq<Action>): State
    requires Runs(s, acts)
    decreases acts
  {
    if acts == [] then s else Exec(Apply(s, acts[0]), acts[1..])
  }

  predicate Start(s: State) {
    && s.status == Open && s.inBuffer && s.sent == 0 && s.recycled == 0 && !s.bogus && s.flush == Looking
    && forall i | 0 <= i < |s.closes| :: s.closes[i] == Closing
  }

  /** The chain went to the peer or back to the pool, not both, and nothing else went to the peer. */
  predicate Fair(s: State) {
    s.sent + s.recycled <= 1 && !s.bogus
  }

  ghost predicate AlwaysFair(s: State) {
    forall acts: seq<Action> | Runs(s, acts) :: Fair(Exec(s, acts))
  }

  // ---------------------------------------------------------------------------------------------
  // When the two can meet
  // ---------------------------------------------------------------------------------------------

  /** Some close has not yet exchanged the state. */
  ghost predicate Coming(s: State) {
    s.status != FullyClosed && exists i :: 0 <= i < |s.closes| && s.closes[i] == Closing
  }

  /** Some close has still to recycle the send buffer. */
  ghost predicate Active(s: State) {
    Coming(s) || exists i :: 0 <= i < |s.closes| && s.closes[i] == Recycling
  }

  /** The flush has looked at the state, or will before it changes, and a close will recycle under it. */
  ghost predicate Exposed(s: State) {
    match s.flush
    case Looking => s.status == Open && Coming(s)
    case Putting(_) => !s.inBuffer || Active(s)
    case Measuring => !s.inBuffer || Active(s)
    case Copying => !s.inBuffer || Active(s)
    case Waiting(n) => n < RETRIES && s.status == Open && Coming(s)
    case Cleaning => Active(s)
    case Dropping => false
    case Returned => false
  }

  /** What holds in every fair run so far. */
  predicate Accounted(s: State) {
    && Fair(s)
    && s.sent + s.recycled == (if s.flush == Cleaning then 1 else if s.inBuffer then 0 else 1)
    && (s.flush == Cleaning ==> s.inBuffer && s.sent == 1)
    && (s.sent == 1 ==> s.flush == Cleaning || s.flush == Returned)
    && (s.flush == Returned ==> !s.inBuffer)
  }

  /** At most one close recycles, and only after the state was exchanged. */
  predicate OneRecycler(s: State) {
    && (forall i | 0 <= i < |s.closes| && s.closes[i] == Recycling :: s.status == FullyClosed)
    && (forall i, j | 0 <= i < j < |s.closes| :: s.closes[i] != Recycling || s.closes[j] != Recycling)
    && (!s.inBuffer && s.flush != Returned ==>
          s.status == FullyClosed && forall i | 0 <= i < |s.closes| :: s.closes[i] != Recycling)
  }

  predicate Inv(s: State) {
    Accounted(s) && OneRecycler(s)
  }

  lemma StartInv(s: State)
    requires Start(s)
    ensures Inv(s)
  {
  }

  lemma CloseKeepsInv(s: State, i: nat)
    requires Inv(s) && Enabled(s, CloseStep(i)) && Fair(Apply(s, CloseStep(i)))
    ensures Inv(Apply(s, CloseStep(i)))
  {
  }

  lemma FlushKeepsInv(s: State, full: bool)
    requires Inv(s) && Enabled(s, Step(full)) && Fair(Apply(s, Step(full)))
    ensures Inv(Apply(s, Step(full)))
  {
  }

  /** Every state of a run that was fair so far satisfies the invariant. */
  lemma StepInv(s: State, a: Action)
    requires Inv(s) && Enabled(s, a) && Fair(Apply(s, a))
    ensures Inv(Apply(s, a))
  {
    match a
    case Step(full) => FlushKeepsInv(s, full);
    case CloseStep(i) => CloseKeepsInv(s, i);
    case HalfClose =>
  }

  ghost predicate FairSoFar(s: State, acts: seq<Action>)
    requires Runs(s, acts)
    decreases acts
  {
    Fair(s) && (acts != [] ==> FairSoFar(Apply(s, acts[0]), acts[1..]))
  }

  lemma {:induction false} RunInv(s: State, acts: seq<Action>)
    requires Inv(s) && Runs(s, acts) && FairSoFar(s, acts)
    ensures Inv(Exec(s, acts))
    decreases acts
  {
    hide Inv;
    hide Apply;
    hide Enabled;
    hide Fair;
    if acts != [] {
      StepInv(s, acts[0]);
      RunInv(Apply(s, acts[0]), acts[1..]);
    }
  }

  // ---------------------------------------------------------------------------------------------
  // Unexposed states stay fair
  // ---------------------------------------------------------------------------------------------

  lemma StaysFair(s: State, a: Action)
    requires Inv(s) && Enabled(s, a) && !Exposed(s)
    ensures Fair(Apply(s, a))
  {
  }

  lemma StaysUnexposed(s: State, a: Action)
    requires Inv(s) && Enabled(s, a) && !Exposed(s)
    ensures !Exposed(Apply(s, a))
  {
    var r := Apply(s, a);
    if a.CloseStep? {
      assert forall j | 0 <= j < |s.closes| && j != a.i :: r.closes[j] == s.closes[j];
    }
  }

  lemma {:induction false} UnexposedFair(s: State, acts: seq<Action>)
    requires Inv(s) && !Exposed(s) && Runs(s, acts)
    ensures Fair(Exec(s, acts))
    decreases acts
  {
    if acts != [] {
      var a := acts[0];
      StaysFair(s, a);
      StepInv(s, a);
      StaysUnexposed(s, a);
      UnexposedFair(Apply(s, a), acts[1..]);
    }
  }

  // ---------------------------------------------------------------------------------------------
  // From an exposed state some run is not fair
  // ---------------------------------------------------------------------------------------------

  lemma FairBack(s: State, a: Action)
    requires Enabled(s, a) && AlwaysFair(s)
    ensures AlwaysFair(Apply(s, a))
  {
    hide Enabled;
    hide Apply;
    hide Fair;
    var r := Apply(s, a);
    forall acts: seq<Action> | Runs(r, acts) ensures Fair(Exec(r, acts)) {
      var more := [a] + acts;
      assert more[1..] == acts;
      assert Runs(s, more) && Exec(s, more) == Exec(r, acts);
    }
  }

  lemma FairNow(s: State)
    requires AlwaysFair(s)
    ensures Fair(s)
  {
    assert Runs(s, []) && Exec(s, []) == s;
  }

  /** A close that is still to recycle gets that far without the flush moving. */
  lemma RecycleNow(s: State) returns (r: State)
    requires Inv(s) && Active(s) && s.inBuffer
    ensures r == Recycled(s).(status := r.status, closes := r.closes)
    ensures AlwaysFair(s) ==> AlwaysFair(r)
  {
    var i, t := 0, s;
    if exists k :: 0 <= k < |s.closes| && s.closes[k] == Recycling {
      i :| 0 <= i < |s.closes| && s.closes[i] == Recycling;
    } else {
      i :| 0 <= i < |s.closes| && s.closes[i] == Closing;
      if AlwaysFair(s) { FairBack(s, CloseStep(i)); }
      t := Apply(s, CloseStep(i));
    }
    if AlwaysFair(t) { FairBack(t, CloseStep(i)); }
    r := Apply(t, CloseStep(i));
  }

  /** About to send what is in the buffer. */
  predicate Using(f: Flush) {
    f.Putting? || f == Measuring || f == Copying
  }

  /** The buffer has no chain any more and the put or the copy comes. */
  lemma UseBogus(s: State)
    requires Using(s.flush) && !s.inBuffer
    ensures !AlwaysFair(s)
  {
    if AlwaysFair(s) {
      FairBack(s, Step(false));
      FairNow(Apply(s, Step(false)));
    }
  }

  lemma UsingUnfair(s: State)
    requires Inv(s) && Using(s.flush) && (!s.inBuffer || Active(s))
    ensures !AlwaysFair(s)
  {
    if s.inBuffer {
      var r := RecycleNow(s);
      UseBogus(r);
    } else {
      UseBogus(s);
    }
  }

  lemma ExposedUnfair(s: State)
    requires Inv(s) && Exposed(s)
    ensures !AlwaysFair(s)
  {
    if Using(s.flush) {
      UsingUnfair(s);
    } else if s.flush == Cleaning {
      var r := RecycleNow(s);
      if AlwaysFair(r) { FairNow(r); }
    } else {
      var r := Apply(s, Step(false));
      assert Coming(r);
      UsingUnfair(r);
      if AlwaysFair(s) { FairBack(s, Step(false)); }
    }
  }

  // ---------------------------------------------------------------------------------------------
  // Results
  // ---------------------------------------------------------------------------------------------

  lemma InvIff(s: State)
    requires Inv(s)
    ensures AlwaysFair(s) <==> !Exposed(s)
  {
    if Exposed(s) {
      ExposedUnfair(s);
    } else {
      forall acts: seq<Action> | Runs(s, acts) ensures Fair(Exec(s, acts)) { UnexposedFair(s, acts); }
    }
  }

  /** From any state of any run that was fair so far, every continuation is fair if and only if no close
      can recycle the send buffer between the flush's look at the state and its `clean`. */
  lemma FairIff(s: State, acts: seq<Action>)
    requires Start(s) && Runs(s, acts) && FairSoFar(s, acts)
    ensures AlwaysFair(Exec(s, acts)) <==> !Exposed(Exec(s, acts))
  {
    StartInv(s);
    RunInv(s, acts);
    InvIff(Exec(s, acts));
  }

  /** So a flush is safe from its start if and only if no close runs beside it. */
  lemma FlushAlone(s: State)
    requires Start(s)
    ensures AlwaysFair(s) <==> s.closes == []
  {
    StartInv(s);
    InvIff(s);
    if s.closes != [] { assert s.closes[0] == Closing; }
  }

  /** After it has returned the chain is with the peer or back, and any number of closes is safe. */
  lemma CloseAfterFlush(s: State, acts: seq<Action>)
    requires Start(s) && Runs(s, acts) && FairSoFar(s, acts) && Exec(s, acts).flush == Returned
    ensures AlwaysFair(Exec(s, acts)) && Exec(s, acts).sent + Exec(s, acts).recycled == 1
  {
    FairIff(s, acts);
    StartInv(s);
    RunInv(s, acts);
  }

  // ---------------------------------------------------------------------------------------------
  // What a flush does, from the list of actions alone
  // ---------------------------------------------------------------------------------------------

  lemma {:induction false} ExecSnoc(s: State, acts: seq<Action>)
    requires Runs(s, acts) && acts != []
    ensures var front, a := acts[..|acts| - 1], acts[|acts| - 1];
            Runs(s, front) && Enabled(Exec(s, front), a) && Exec(s, acts) == Apply(Exec(s, front), a)
    decreases acts
  {
    hide Enabled;
    hide Apply;
    if |acts| > 1 {
      ExecSnoc(Apply(s, acts[0]), acts[1..]);
      assert acts[..|acts| - 1][1..] == acts[1..][..|acts| - 2];
    }
  }

  function Steps(acts: seq<Action>): nat {
    if acts == [] then 0 else Steps(acts[..|acts| - 1]) + if acts[|acts| - 1].Step? then 1 else 0
  }

  /** The steps a flush has made when it is there. */
  predicate Paced(f: Flush, n: nat) {
    match f
    case Looking => n == 0
    case Putting(r) => r <= RETRIES && n == 1 + 2 * r
    case Waiting(r) => r <= RETRIES && n == 2 + 2 * r
    case Cleaning => n <= 2 + 2 * RETRIES
    case Measuring => n == 1
    case Copying => n == 2
    case Dropping => n <= 3 + 2 * RETRIES
    case Returned => n <= 4 + 2 * RETRIES
  }

  /** Whatever closes and half-closes do beside it, a flush returns within 24 steps of its own. */
  lemma {:induction false} FlushIsBounded(s: State, acts: seq<Action>)
    requires Start(s) && Runs(s, acts)
    ensures Steps(acts) <= 24 && Paced(Exec(s, acts).flush, Steps(acts))
    decreases |acts|
  {
    if acts != [] {
      ExecSnoc(s, acts);
      FlushIsBounded(s, acts[..|acts| - 1]);
    }
  }

  /** All the steps are the flush's own. */
  predicate Undisturbed(acts: seq<Action>) {
    forall i | 0 <= i < |acts| :: acts[i].Step?
  }

  /** The first `n` puts all found the ring full. */
  predicate FullPuts(acts: seq<Action>, n: nat) {
    2 * n <= |acts| && forall k | 0 <= k < n :: acts[2 * k + 1] == Step(true)
  }

  predicate Outcome(s: State, acts: seq<Action>)
    requires Runs(s, acts)
  {
    var e := Exec(s, acts);
    && e.status == Open && e.closes == s.closes && e.fellBack == s.fellBack
    && match e.flush
       case Looking => acts == []
       case Putting(n) => !s.fellBack && n <= RETRIES && |acts| == 1 + 2 * n && FullPuts(acts, n)
       case Waiting(n) => !s.fellBack && n <= RETRIES && |acts| == 2 + 2 * n && FullPuts(acts, n + 1)
       case Measuring => s.fellBack && |acts| == 1
       case Copying => s.fellBack && |acts| == 2
       case Cleaning => !s.fellBack && |acts| % 2 == 0 && |acts| >= 2 && acts[|acts| - 1] == Step(false)
                        && FullPuts(acts, |acts| / 2 - 1) && |acts| / 2 - 1 <= RETRIES
       case Dropping => if s.fellBack then |acts| == 3 else |acts| == 3 + 2 * RETRIES && FullPuts(acts, RETRIES + 1)
       case Returned => e.sent == 0 && !s.fellBack ==> FullPuts(acts, RETRIES + 1)
  }

  lemma {:induction false} OutcomeRun(s: State, acts: seq<Action>)
    requires Start(s) && Runs(s, acts) && Undisturbed(acts) && s.closes == []
    ensures Outcome(s, acts) && Inv(Exec(s, acts))
    decreases |acts|
  {
    if acts == [] {
      StartInv(s);
    } else {
      var front, a := acts[..|acts| - 1], acts[|acts| - 1];
      ExecSnoc(s, acts);
      OutcomeRun(s, front);
      OutcomeStep(s, acts);
      var e := Exec(s, front);
      StaysFair(e, a);
      StepInv(e, a);
    }
  }

  lemma OutcomeStep(s: State, acts: seq<Action>)
    requires acts != [] && Runs(s, acts) && Undisturbed(acts) && Start(s)
    requires var front := acts[..|acts| - 1]; Runs(s, front) && Outcome(s, front) && Inv(Exec(s, front))
    ensures Outcome(s, acts)
  {
    ExecSnoc(s, acts);
    var front := acts[..|acts| - 1];
    forall n: nat | FullPuts(front, n) ensures FullPuts(acts, n) {
      assert forall k | 0 <= k < n :: acts[2 * k + 1] == front[2 * k + 1];
    }
  }

  /** A flush that nobody disturbs: a stream that has not fallen back puts its chain into the ring, unless
      eleven puts in a row found it full; one that has copies it into a frame and puts nothing. */
  lemma FlushOutcome(s: State, acts: seq<Action>)
    requires Start(s) && Runs(s, acts) && Undisturbed(acts) && s.closes == [] && Exec(s, acts).flush == Returned
    ensures var e := Exec(s, acts);
            && e.sent + e.recycled == 1 && !e.bogus
            && (s.fellBack ==> e.sent == 0)
            && (!s.fellBack && e.sent == 0 ==> FullPuts(acts, 11))
            && (e.sent == 1 ==> !s.fellBack && !FullPuts(acts, 11))
  {
    OutcomeRun(s, acts);
    ReturnedHow(s, acts);
  }

  lemma ReturnedHow(s: State, acts: seq<Action>)
    requires Start(s) && Runs(s, acts) && Undisturbed(acts) && s.closes == [] && Exec(s, acts).flush == Returned
    ensures Exec(s, acts).sent == 1 ==> !s.fellBack && !FullPuts(acts, 11)
    ensures s.fellBack ==> Exec(s, acts).sent == 0
  {
    var front := acts[..|acts| - 1];
    ExecSnoc(s, acts);
    OutcomeRun(s, front);
    var e := Exec(s, front);
    if e.flush == Cleaning {
      var k := |front| / 2 - 1;
      assert acts[2 * k + 1] == front[|front| - 1] == Step(false);
    }
  }

  /** A stream that was half-closed before the flush looks: the chain goes back. */
  lemma HalfClosedFirst(s: State, f: bool, g: bool)
    requires Start(s)
    ensures var acts := [HalfClose, Step(f), Step(g)];
            Runs(s, acts) && Exec(s, acts).flush == Returned && Exec(s, acts).recycled == 1 && Exec(s, acts).sent == 0
  {
    var s1 := Apply(s, HalfClose);
    var s2 := Apply(s1, Step(f));
    var s3 := Apply(s2, Step(g));
    assert [HalfClose, Step(f), Step(g)][1..] == [Step(f), Step(g)] && [Step(f), Step(g)][1..] == [Step(g)] && [Step(g)][1..] == [];
    assert Runs(s2, [Step(g)]) && Exec(s2, [Step(g)]) == s3;
    assert Runs(s1, [Step(f), Step(g)]) && Exec(s1, [Step(f), Step(g)]) == s3;
  }
}
