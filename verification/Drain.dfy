/**
 The accept loop of `ListenAndServe`, the goroutines of its connections and the
 callers of `Shutdown`, in server.go, as steps that interleave in any order: one
 call of `ListenAndServe`, whose listener is set. How long a connection is
 handled, when Accept fails and when a caller's context is done are all left to
 the schedule.
 */
module Drain {
  /** Where `ListenAndServe` is: accepting, the three steps that start a connection, and the way out. */
  datatype Serve = Accepting | Joining | Counting | Launching | Waiting | Closing | Ended

  /** Where a connection is: handled, and then its deferred calls, the last one first. */
  datatype Conn = Handling | ClosingSocket | Uncounting | Leaving | Gone

  datatype Caller = Idle | Selecting(ctxDone: bool) | ReturnedNil | ReturnedError

  datatype State = State(
    serve: Serve,
    conns: seq<Conn>,
    callers: seq<Caller>,
    listening: bool,
    group: int,
    active: int,
    closes: nat)

  datatype Step =
    | Accept | AcceptFails | Join | Count | Launch | Wait | CloseChannel
    | Proceed(conn: nat)
    | Call(caller: nat) | Expire(caller: nat) | ReturnNil(caller: nat) | ReturnError(caller: nat)

  /** `isShuttingDown`: the channel is closed. */
  predicate IsShuttingDown(s: State) {
    s.closes > 0
  }

  predicate Enabled(s: State, step: Step) {
    match step
    case Accept => s.serve == Accepting && s.listening
    case AcceptFails => s.serve == Accepting
    case Join => s.serve == Joining
    case Count => s.serve == Counting
    case Launch => s.serve == Launching
    case Wait => s.serve == Waiting && s.group == 0
    case CloseChannel => s.serve == Closing
    case Proceed(i) => i < |s.conns| && s.conns[i] != Gone
    case Call(i) => i < |s.callers| && s.callers[i] == Idle
    case Expire(i) => i < |s.callers| && s.callers[i] == Selecting(false)
    case ReturnNil(i) => i < |s.callers| && s.callers[i].Selecting? && IsShuttingDown(s)
    case ReturnError(i) => i < |s.callers| && s.callers[i] == Selecting(true)
  }

  function Advance(c: Conn): Conn {
    match c
    case Handling => ClosingSocket
    case ClosingSocket => Uncounting
    case Uncounting => Leaving
    case _ => Gone
  }

  function Next(s: State, step: Step): State
    requires Enabled(s, step)
  {
    match step
    case Accept => s.(serve := Joining)
    case AcceptFails => s.(serve := Waiting)
    case Join => s.(serve := Counting, group := s.group + 1)
    case Count => s.(serve := Launching, active := s.active + 1)
    case Launch => s.(serve := Accepting, conns := s.conns + [Handling])
    case Wait => s.(serve := Closing)
    case CloseChannel => s.(serve := Ended, closes := s.closes + 1)
    case Proceed(i) =>
      s.(conns := s.conns[i := Advance(s.conns[i])],
         active := if s.conns[i] == Uncounting then s.active - 1 else s.active,
         group := if s.conns[i] == Leaving then s.group - 1 else s.group)
    case Call(i) => s.(listening := false, callers := s.callers[i := Selecting(false)])
    case Expire(i) => s.(callers := s.callers[i := Selecting(true)])
    case ReturnNil(i) => s.(callers := s.callers[i := ReturnedNil])
    case ReturnError(i) => s.(callers := s.callers[i := ReturnedError])
  }

  function Start(callers: nat): State {
    State(Accepting, [], seq(callers, _ => Idle), true, 0, 0, 0)
  }

  /** The states of a run, one step after another. */
  ghost predicate Reaches(s: State, steps: seq<Step>, t: State)
    decreases |steps|
  {
    if steps == [] then s == t
    else Enabled(s, steps[0]) && Reaches(Next(s, steps[0]), steps[1..], t)
  }

  // ----- sums over connections and callers

  function Sum<T>(f: T -> nat, xs: seq<T>): nat {
    if xs == [] then 0 else Sum(f, xs[..|xs| - 1]) + f(xs[|xs| - 1])
  }

  lemma {:induction false} SumSnoc<T>(f: T -> nat, xs: seq<T>, x: T)
    ensures Sum(f, xs + [x]) == Sum(f, xs) + f(x)
  {
    assert (xs + [x])[..|xs|] == xs;
  }

  lemma {:induction false} SumUpdate<T>(f: T -> nat, xs: seq<T>, i: nat, x: T)
    requires i < |xs|
    ensures Sum(f, xs[i := x]) + f(xs[i]) == Sum(f, xs) + f(x)
    decreases |xs|
  {
    var n := |xs| - 1;
    if i < n {
      SumUpdate(f, xs[..n], i, x);
      assert xs[i := x][..n] == xs[..n][i := x];
    } else {
      assert xs[i := x][..n] == xs[..n];
    }
  }

  lemma {:induction false} SumZero<T>(f: T -> nat, xs: seq<T>, i: nat)
    requires i < |xs| && Sum(f, xs) == 0
    ensures f(xs[i]) == 0
    decreases |xs|
  {
    if i < |xs| - 1 {
      SumZero(f, xs[..|xs| - 1], i);
    }
  }

  /** 1 for a connection that the wait group still counts. */
  function InGroup(c: Conn): nat {
    if c == Gone then 0 else 1
  }

  /** 1 for a connection that the active count still counts. */
  function IsActive(c: Conn): nat {
    if c == Leaving || c == Gone then 0 else 1
  }

  // ----- the invariant

  /** The wait group and the counter are exactly the connections at the stages that hold them. */
  predicate Inv(s: State) {
    && s.group == Sum(InGroup, s.conns) + (if s.serve in {Counting, Launching} then 1 else 0)
    && s.active == Sum(IsActive, s.conns) + (if s.serve == Launching then 1 else 0)
    && s.closes == (if s.serve == Ended then 1 else 0)
    && (s.serve in {Closing, Ended} ==> s.group == 0)
    && forall i :: 0 <= i < |s.callers| ==> CallerOk(s, s.callers[i])
  }

  /** A caller past Idle has closed the listener; one with nil has seen the channel closed. */
  predicate CallerOk(s: State, c: Caller) {
    (c != Idle ==> !s.listening) && (c == ReturnedNil ==> IsShuttingDown(s))
  }

  lemma {:induction false} ProceedKeepsInv(s: State, i: nat)
    requires Inv(s) && Enabled(s, Proceed(i))
    ensures Inv(Next(s, Proceed(i)))
  {
    SumUpdate(InGroup, s.conns, i, Advance(s.conns[i]));
    SumUpdate(IsActive, s.conns, i, Advance(s.conns[i]));
    if s.group == 0 {
      SumZero(InGroup, s.conns, i);
    }
  }

  lemma {:induction false} NextKeepsInv(s: State, step: Step)
    requires Inv(s) && Enabled(s, step)
    ensures Inv(Next(s, step))
  {
    match step
    case Proceed(i) => ProceedKeepsInv(s, i);
    case Launch =>
      SumSnoc(InGroup, s.conns, Handling);
      SumSnoc(IsActive, s.conns, Handling);
    case _ =>
  }

  lemma {:induction false} RunKeepsInv(s: State, steps: seq<Step>, t: State)
    requires Inv(s) && Reaches(s, steps, t)
    ensures Inv(t)
    decreases |steps|
  {
    if steps != [] {
      NextKeepsInv(s, steps[0]);
      RunKeepsInv(Next(s, steps[0]), steps[1..], t);
    }
  }

  // ----- what a drained server looks like

  /** Every accepted connection has finished and nothing counts any more. */
  predicate Drained(s: State) {
    && s.group == 0 && s.active == 0
    && forall i :: 0 <= i < |s.conns| ==> s.conns[i] == Gone
  }

  lemma {:induction false} EmptyGroup(s: State)
    requires Inv(s) && s.group == 0 && s.serve == Ended
    ensures Drained(s)
  {
    forall i | 0 <= i < |s.conns| ensures s.conns[i] == Gone {
      SumZero(InGroup, s.conns, i);
    }
    AllGone(s.conns);
  }

  lemma {:induction false} AllGone(conns: seq<Conn>)
    requires forall i :: 0 <= i < |conns| ==> conns[i] == Gone
    ensures Sum(IsActive, conns) == 0
    decreases |conns|
  {
    if conns != [] {
      AllGone(conns[..|conns| - 1]);
    }
  }

  /**
   Over every interleaving the channel is closed at most once, and only when
   every accepted connection has finished; so a Shutdown that returned nil, now
   or at any time before, leaves no active connection.
   */
  lemma {:induction false} GracefulDrain(callers: nat, steps: seq<Step>, t: State)
    requires Reaches(Start(callers), steps, t)
    ensures t.closes <= 1 && t.group >= 0 && t.active >= 0
    ensures IsShuttingDown(t) ==> Drained(t)
    ensures ReturnedNil in t.callers ==> Drained(t)
  {
    RunKeepsInv(Start(callers), steps, t);
    if IsShuttingDown(t) {
      EmptyGroup(t);
    }
    if ReturnedNil in t.callers {
      var i :| 0 <= i < |t.callers| && t.callers[i] == ReturnedNil;
      assert CallerOk(t, t.callers[i]);
    }
  }

  /** No connection that is still handled ever sees the server shutting down. */
  lemma {:induction false} HandledMeansNotShuttingDown(callers: nat, steps: seq<Step>, t: State, i: nat)
    requires Reaches(Start(callers), steps, t) && i < |t.conns| && t.conns[i] != Gone
    ensures !IsShuttingDown(t)
  {
    GracefulDrain(callers, steps, t);
  }

  // ----- progress

  function ServeRank(p: Serve): nat {
    match p
    case Joining => 10
    case Counting => 9
    case Launching => 8
    case Accepting => 3
    case Waiting => 2
    case Closing => 1
    case Ended => 0
  }

  function ConnRank(c: Conn): nat {
    match c
    case Handling => 4
    case ClosingSocket => 3
    case Uncounting => 2
    case Leaving => 1
    case Gone => 0
  }

  function CallerRank(c: Caller): nat {
    match c
    case Idle => 3
    case Selecting(ctxDone) => if ctxDone then 1 else 2
    case _ => 0
  }

  /** The steps left, once the listener is closed. */
  function Measure(s: State): nat {
    ServeRank(s.serve) + Sum(ConnRank, s.conns) + Sum(CallerRank, s.callers)
  }

  lemma {:induction false} MeasureDecreases(s: State, step: Step)
    requires Enabled(s, step) && step != Accept
    ensures Measure(Next(s, step)) < Measure(s)
  {
    match step
    case Launch => SumSnoc(ConnRank, s.conns, Handling);
    case Proceed(i) => SumUpdate(ConnRank, s.conns, i, Advance(s.conns[i]));
    case Call(i) => SumUpdate(CallerRank, s.callers, i, Selecting(false));
    case Expire(i) => SumUpdate(CallerRank, s.callers, i, Selecting(true));
    case ReturnNil(i) => SumUpdate(CallerRank, s.callers, i, ReturnedNil);
    case ReturnError(i) => SumUpdate(CallerRank, s.callers, i, ReturnedError);
    case _ =>
  }

  /** Nothing is left to do: the loop has returned, and so has every caller. */
  predicate Over(s: State) {
    s.serve == Ended && Drained(s) && forall i :: 0 <= i < |s.callers| ==> s.callers[i] in {ReturnedNil, ReturnedError}
  }

  /** With the listener closed, some step can be taken as long as something is left to do. */
  lemma {:induction false} NoDeadlock(s: State)
    requires Inv(s) && !s.listening
    ensures Over(s) || exists step :: Enabled(s, step)
  {
    if i :| 0 <= i < |s.conns| && s.conns[i] != Gone {
      assert Enabled(s, Proceed(i));
    } else if s.serve != Ended {
      ServeCanStep(s);
    } else if i :| 0 <= i < |s.callers| && s.callers[i] !in {ReturnedNil, ReturnedError} {
      assert Enabled(s, if s.callers[i] == Idle then Call(i) else ReturnNil(i));
    } else {
      EmptyGroup(s);
    }
  }

  lemma {:induction false} ServeCanStep(s: State)
    requires Inv(s) && s.serve != Ended && forall i :: 0 <= i < |s.conns| ==> s.conns[i] == Gone
    ensures exists step :: Enabled(s, step)
  {
    match s.serve
    case Accepting => assert Enabled(s, AcceptFails);
    case Joining => assert Enabled(s, Join);
    case Counting => assert Enabled(s, Count);
    case Launching => assert Enabled(s, Launch);
    case Closing => assert Enabled(s, CloseChannel);
    case Waiting =>
      NoneInGroup(s.conns);
      assert Enabled(s, Wait);
  }

  lemma {:induction false} NoneInGroup(conns: seq<Conn>)
    requires forall i :: 0 <= i < |conns| ==> conns[i] == Gone
    ensures Sum(InGroup, conns) == 0
    decreases |conns|
  {
    if conns != [] {
      NoneInGroup(conns[..|conns| - 1]);
    }
  }

  /** Once the listener is closed, every schedule is finite, and one that cannot go on has drained the server. */
  lemma {:induction false} DrainEnds(s: State, steps: seq<Step>, t: State)
    requires Inv(s) && !s.listening && Reaches(s, steps, t)
    ensures |steps| <= Measure(s)
    ensures (forall step :: !Enabled(t, step)) ==> Over(t)
    decreases |steps|
  {
    if steps == [] {
      NoDeadlock(t);
    } else {
      NextKeepsInv(s, steps[0]);
      MeasureDecreases(s, steps[0]);
      DrainEnds(Next(s, steps[0]), steps[1..], t);
    }
  }
}
