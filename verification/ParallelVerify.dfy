/**
 `parallelVerify` of middleware/authres/dkim/verify.go as a concurrent protocol.

 One copier reads the body and writes every chunk into one blocking pipe after
 the other.  At the other end of each pipe a verifier either hashes what it
 receives, or has stopped early and only drains the pipe.  When the source of
 the body fails, the copier returns at once and closes no pipe.  A state is
 changed by one step at a time, of the copier, of one verifier, or of both when
 bytes cross a pipe; any enabled step may be the next one.
 */
module ParallelVerify {
  import opened BodyCanonical

  /** What one verifier does: stop before reading the body, or conclude from its canonical form. */
  datatype Task<V> = Early(v: V) | Late(alg: Algorithm, conclude: string -> V)

  /** The verdict of a verifier that reads the whole body by itself. */
  function Sequential<V>(t: Task<V>, body: string): V {
    match t
    case Early(v) => v
    case Late(alg, conclude) => conclude(Canonical(alg, body))
  }

  datatype Verifier<V> =
    | Starting
    | Hashing(alg: Algorithm, conclude: string -> V, st: BodyState)
    | Draining(v: V)
    | Sent(v: V)

  datatype Copier<V> =
    | Reading(rest: string)
    | Writing(rest: string, chunk: string, i: nat, left: string)
    | Closing(i: nat)
    | Collecting(got: seq<V>)
    | Failed(rest: string)

  datatype State<V> = State(copier: Copier<V>, verifiers: seq<Verifier<V>>, closed: seq<bool>)

  datatype Step =
    | ReadChunk(n: nat)
    | SourceEnds
    | SourceFails
    | Transfer(n: nat)
    | NextPipe
    | ChunkWritten
    | ClosePipe
    | AllClosed
    | Receive
    | Begin(i: nat)
    | EndOfBody(i: nat)
    | Send(i: nat)

  function Init<V>(body: string, n: nat): State<V> {
    State(Reading(body), seq(n, _ => Starting), seq(n, _ => false))
  }

  predicate Done<V>(s: State<V>) {
    s.copier.Collecting? && |s.copier.got| >= |s.verifiers|
  }

  /** `parallelVerify` has returned, with all verdicts or with the error of the source. */
  predicate Over<V>(s: State<V>) {
    Done(s) || s.copier.Failed?
  }

  predicate Enabled<V>(s: State<V>, step: Step) {
    var c, n := s.copier, |s.verifiers|;
    match step
    case ReadChunk(k) => c.Reading? && 1 <= k <= |c.rest|
    case SourceEnds => c.Reading? && c.rest == ""
    case SourceFails => c.Reading?
    case Transfer(k) =>
      c.Writing? && c.i < n && 1 <= k <= |c.left| && (s.verifiers[c.i].Hashing? || s.verifiers[c.i].Draining?)
    case NextPipe => c.Writing? && c.i < n && c.left == ""
    case ChunkWritten => c.Writing? && c.i >= n
    case ClosePipe => c.Closing? && c.i < n && n == |s.closed|
    case AllClosed => c.Closing? && c.i >= n
    case Receive => c.Collecting? && |c.got| < n && s.verifiers[|c.got|].Sent?
    case Begin(i) => i < n && s.verifiers[i].Starting?
    case EndOfBody(i) => i < n == |s.closed| && s.verifiers[i].Hashing? && s.closed[i]
    case Send(i) => i < n == |s.closed| && s.verifiers[i].Draining? && s.closed[i]
  }

  function Consume<V>(v: Verifier<V>, bytes: string): Verifier<V> {
    if v.Hashing? then v.(st := Write(v.st, bytes)) else v
  }

  function Next<V>(tasks: seq<Task<V>>, s: State<V>, step: Step): State<V>
    requires Enabled(s, step) && |tasks| == |s.verifiers|
  {
    var c, vs := s.copier, s.verifiers;
    match step
    case ReadChunk(k) => s.(copier := Writing(c.rest[k..], c.rest[..k], 0, c.rest[..k]))
    case SourceEnds => s.(copier := Closing(0))
    case SourceFails => s.(copier := Failed(c.rest))
    case Transfer(k) => s.(copier := c.(left := c.left[k..]), verifiers := vs[c.i := Consume(vs[c.i], c.left[..k])])
    case NextPipe => s.(copier := c.(i := c.i + 1, left := c.chunk))
    case ChunkWritten => s.(copier := Reading(c.rest))
    case ClosePipe => s.(copier := Closing(c.i + 1), closed := s.closed[c.i := true])
    case AllClosed => s.(copier := Collecting([]))
    case Receive => s.(copier := Collecting(c.got + [vs[|c.got|].v]))
    case Begin(i) =>
      s.(verifiers := vs[i := match tasks[i]
                              case Early(v) => Draining(v)
                              case Late(alg, conclude) => Hashing(alg, conclude, Start(alg))])
    case EndOfBody(i) => s.(verifiers := vs[i := Draining(vs[i].conclude(Close(vs[i].st)))])
    case Send(i) => s.(verifiers := vs[i := Sent(vs[i].v)])
  }

  // ----- the invariant

  /** The part of the body that has not yet crossed pipe `i`. */
  function Pending<V>(c: Copier<V>, i: nat): string {
    match c
    case Reading(rest) => rest
    case Failed(rest) => rest
    case Writing(rest, chunk, j, left) => if i < j then rest else if i == j then left + rest else chunk + rest
    case _ => ""
  }

  /** The part of the body that has crossed pipe `i`. */
  function Crossed<V>(body: string, c: Copier<V>, i: nat): string
    requires |Pending(c, i)| <= |body|
  {
    body[..|body| - |Pending(c, i)|]
  }

  ghost predicate VerifierOk<V>(body: string, t: Task<V>, v: Verifier<V>, crossed: string, closed: bool) {
    match v
    case Starting => crossed == ""
    case Hashing(alg, conclude, st) => t == Late(alg, conclude) && Tracks(st, alg, crossed)
    case Draining(r) => r == Sequential(t, body)
    case Sent(r) => r == Sequential(t, body) && closed
  }

  /** Which pipes the copier has closed. */
  predicate IsClosed<V>(c: Copier<V>, i: nat) {
    match c
    case Closing(k) => i < k
    case Collecting(_) => true
    case _ => false
  }

  ghost predicate CopierOk<V>(body: string, tasks: seq<Task<V>>, c: Copier<V>) {
    match c
    case Reading(rest) => IsSuffix(rest, body)
    case Failed(rest) => IsSuffix(rest, body)
    case Writing(rest, chunk, i, left) =>
      chunk != "" && i <= |tasks| && IsSuffix(chunk + rest, body) && IsSuffix(left, chunk)
        && (i == |tasks| ==> left == chunk)
    case Closing(i) => i <= |tasks|
    case Collecting(got) => |got| <= |tasks| && forall i :: 0 <= i < |got| ==> got[i] == Sequential(tasks[i], body)
  }

  predicate IsSuffix(a: string, b: string) {
    |a| <= |b| && b[|b| - |a|..] == a
  }

  ghost predicate Inv<V>(body: string, tasks: seq<Task<V>>, s: State<V>) {
    && |s.verifiers| == |s.closed| == |tasks|
    && CopierOk(body, tasks, s.copier)
    && (forall i :: 0 <= i < |tasks| ==> s.closed[i] == IsClosed(s.copier, i))
    && (forall i :: 0 <= i < |tasks| ==> |Pending(s.copier, i)| <= |body| && IsSuffix(Pending(s.copier, i), body))
    && (forall i :: 0 <= i < |tasks| ==>
          VerifierOk(body, tasks[i], s.verifiers[i], Crossed(body, s.copier, i), s.closed[i]))
  }

  /** An invariant of one pipe and its verifier. */
  ghost predicate PipeOk<V>(body: string, tasks: seq<Task<V>>, s: State<V>, i: nat)
    requires i < |tasks| == |s.verifiers| == |s.closed|
  {
    && s.closed[i] == IsClosed(s.copier, i)
    && IsSuffix(Pending(s.copier, i), body)
    && VerifierOk(body, tasks[i], s.verifiers[i], Crossed(body, s.copier, i), s.closed[i])
  }

  lemma {:induction false} InvOfParts<V>(body: string, tasks: seq<Task<V>>, s: State<V>)
    requires |s.verifiers| == |s.closed| == |tasks|
    ensures Inv(body, tasks, s)
            <==> CopierOk(body, tasks, s.copier) && forall i :: 0 <= i < |tasks| ==> PipeOk(body, tasks, s, i)
  {
    if Inv(body, tasks, s) {
      forall i | 0 <= i < |tasks| ensures PipeOk(body, tasks, s, i) {
      }
    }
    if CopierOk(body, tasks, s.copier) && forall i :: 0 <= i < |tasks| ==> PipeOk(body, tasks, s, i) {
      forall i | 0 <= i < |tasks|
        ensures s.closed[i] == IsClosed(s.copier, i) && IsSuffix(Pending(s.copier, i), body)
        ensures VerifierOk(body, tasks[i], s.verifiers[i], Crossed(body, s.copier, i), s.closed[i])
      {
        assert PipeOk(body, tasks, s, i);
      }
    }
  }

  lemma {:induction false} InitInv<V>(body: string, tasks: seq<Task<V>>)
    ensures Inv(body, tasks, Init(body, |tasks|))
  {
    assert body[|body| - |body|..] == body;
  }

  /** A step of the copier alone leaves every pipe as it is. */
  lemma {:induction false} CopierStepKeeps<V>(body: string, tasks: seq<Task<V>>, s: State<V>, step: Step, i: nat)
    requires Inv(body, tasks, s) && Enabled(s, step) && i < |tasks|
    requires !step.Transfer? && !step.Begin? && !step.EndOfBody? && !step.Send?
    ensures var s' := Next(tasks, s, step);
            && s'.verifiers == s.verifiers && |s'.closed| == |tasks|
            && s'.closed[i] == IsClosed(s'.copier, i)
            && Pending(s'.copier, i) == Pending(s.copier, i)
            && (s.closed[i] ==> s'.closed[i])
  {
    var c := s.copier;
    assert s.closed[i] == IsClosed(c, i);
    match step
    case ReadChunk(k) => assert c.rest == c.rest[..k] + c.rest[k..];
    case NextPipe => assert "" + c.rest == c.rest;
    case ChunkWritten =>
    case _ =>
  }

  lemma {:induction false} CopierStepOk<V>(body: string, tasks: seq<Task<V>>, s: State<V>, step: Step)
    requires Inv(body, tasks, s) && Enabled(s, step)
    ensures CopierOk(body, tasks, Next(tasks, s, step).copier)
  {
    var c := s.copier;
    match step
    case ReadChunk(k) =>
      assert c.rest == c.rest[..k] + c.rest[k..];
      assert c.rest[..k][|c.rest[..k]| - k..] == c.rest[..k];
    case Transfer(k) =>
      SuffixTail(c.left, k, c.chunk);
    case NextPipe =>
      assert c.chunk[|c.chunk| - |c.chunk|..] == c.chunk;
    case ChunkWritten =>
      SuffixOfSuffix(c.chunk, c.rest, body);
    case Receive =>
      var i := |c.got|;
      assert VerifierOk(body, tasks[i], s.verifiers[i], Crossed(body, c, i), s.closed[i]);
    case _ =>
  }

  lemma {:induction false} SuffixTail(a: string, k: nat, b: string)
    requires IsSuffix(a, b) && k <= |a|
    ensures IsSuffix(a[k..], b)
  {
    assert b[|b| - |a|..][k..] == b[|b| - |a[k..]|..];
  }

  lemma {:induction false} SuffixOfSuffix(a: string, r: string, b: string)
    requires IsSuffix(a + r, b)
    ensures IsSuffix(r, b)
  {
    SuffixTail(a + r, |a|, b);
    assert (a + r)[|a|..] == r;
  }

  lemma {:induction false} SuffixMoves(body: string, p: string, k: nat)
    requires IsSuffix(p, body) && k <= |p|
    ensures IsSuffix(p[k..], body)
    ensures body[..|body| - |p[k..]|] == body[..|body| - |p|] + p[..k]
  {
    SuffixTail(p, k, body);
    var n := |body| - |p|;
    assert p[..k] == body[n..][..k];
  }

  lemma {:induction false} TransferMoves<V>(body: string, tasks: seq<Task<V>>, s: State<V>, k: nat, i: nat)
    requires |tasks| == |s.verifiers| == |s.closed| && Enabled(s, Transfer(k)) && i == s.copier.i
    requires PipeOk(body, tasks, s, i)
    ensures PipeOk(body, tasks, Next(tasks, s, Transfer(k)), i)
  {
    var c, c' := s.copier, Next(tasks, s, Transfer(k)).copier;
    PendingMoves(body, c, c', k);
    ConsumeKeeps(body, tasks[i], s.verifiers[i], Crossed(body, c, i), c.left[..k], s.closed[i]);
  }

  /** Bytes that cross a pipe move from what is pending to what the verifier has consumed. */
  lemma {:induction false} TransferKeeps<V>(body: string, tasks: seq<Task<V>>, s: State<V>, k: nat, i: nat)
    requires Inv(body, tasks, s) && Enabled(s, Transfer(k)) && i < |tasks|
    ensures PipeOk(body, tasks, Next(tasks, s, Transfer(k)), i)
  {
    InvOfParts(body, tasks, s);
    assert PipeOk(body, tasks, s, i);
    if i == s.copier.i {
      TransferMoves(body, tasks, s, k, i);
    } else {
      assert Pending(Next(tasks, s, Transfer(k)).copier, i) == Pending(s.copier, i);
    }
  }

  lemma {:induction false} PendingMoves<V>(body: string, c: Copier<V>, c': Copier<V>, k: nat)
    requires c.Writing? && k <= |c.left| && c' == c.(left := c.left[k..])
    requires IsSuffix(Pending(c, c.i), body)
    ensures IsSuffix(Pending(c', c.i), body)
    ensures Crossed(body, c', c.i) == Crossed(body, c, c.i) + c.left[..k]
  {
    CutOff(c.left, k, c.rest);
    SuffixMoves(body, c.left + c.rest, k);
  }

  lemma {:induction false} CutOff(left: string, k: nat, rest: string)
    requires k <= |left|
    ensures (left + rest)[k..] == left[k..] + rest && (left + rest)[..k] == left[..k]
  {
  }

  lemma {:induction false} ConsumeKeeps<V>(body: string, t: Task<V>, v: Verifier<V>, crossed: string, bytes: string,
                                           closed: bool)
    requires VerifierOk(body, t, v, crossed, closed) && (v.Hashing? || v.Draining?)
    ensures VerifierOk(body, t, Consume(v, bytes), crossed + bytes, closed)
  {
    if v.Hashing? {
      WriteTracks(v.st, v.alg, crossed, bytes);
    }
  }

  /** A verifier's own steps keep its invariant; at the end of the body it concludes from the canonical body. */
  lemma {:induction false} VerifierStepKeeps<V>(body: string, tasks: seq<Task<V>>, s: State<V>, step: Step, i: nat)
    requires Inv(body, tasks, s) && Enabled(s, step) && i < |tasks|
    requires step.Begin? || step.EndOfBody? || step.Send?
    ensures PipeOk(body, tasks, Next(tasks, s, step), i)
  {
    InvOfParts(body, tasks, s);
    assert PipeOk(body, tasks, s, i);
    if step.i == i {
      if step.EndOfBody? {
        EndKeeps(body, tasks, s, i);
      } else if step.Begin? {
        BeginKeeps(body, tasks, s, i);
      }
    }
  }

  lemma {:induction false} BeginKeeps<V>(body: string, tasks: seq<Task<V>>, s: State<V>, i: nat)
    requires |tasks| == |s.verifiers| == |s.closed| && i < |tasks|
    requires PipeOk(body, tasks, s, i) && Enabled(s, Begin(i))
    ensures PipeOk(body, tasks, Next(tasks, s, Begin(i)), i)
  {
  }

  lemma {:induction false} EndKeeps<V>(body: string, tasks: seq<Task<V>>, s: State<V>, i: nat)
    requires |tasks| == |s.verifiers| == |s.closed| && i < |tasks|
    requires PipeOk(body, tasks, s, i) && Enabled(s, EndOfBody(i))
    ensures PipeOk(body, tasks, Next(tasks, s, EndOfBody(i)), i)
  {
    assert Pending(s.copier, i) == "" && Crossed(body, s.copier, i) == body;
    CloseTracks(s.verifiers[i].st, s.verifiers[i].alg, body);
  }

  lemma {:induction false} NextKeepsInv<V>(body: string, tasks: seq<Task<V>>, s: State<V>, step: Step)
    requires Inv(body, tasks, s) && Enabled(s, step)
    ensures Inv(body, tasks, Next(tasks, s, step))
  {
    var s' := Next(tasks, s, step);
    CopierStepOk(body, tasks, s, step);
    assert |s'.verifiers| == |s'.closed| == |tasks|;
    forall i | 0 <= i < |tasks| ensures PipeOk(body, tasks, s', i) {
      if step.Transfer? {
        TransferKeeps(body, tasks, s, step.n, i);
      } else if step.Begin? || step.EndOfBody? || step.Send? {
        VerifierStepKeeps(body, tasks, s, step, i);
      } else {
        CopierStepKeeps(body, tasks, s, step, i);
        InvOfParts(body, tasks, s);
        assert PipeOk(body, tasks, s, i);
      }
    }
    InvOfParts(body, tasks, s');
  }

  // ----- progress

  /** Some step that a state allows which is not over: no reachable state is deadlocked. */
  function SomeStep<V>(s: State<V>): Step
    requires |s.verifiers| == |s.closed|
  {
    var c, n := s.copier, |s.verifiers|;
    match c
    case Reading(rest) => if rest == "" then SourceEnds else ReadChunk(|rest|)
    case Writing(rest, chunk, i, left) =>
      if i >= n then ChunkWritten
      else if left == "" then NextPipe
      else if s.verifiers[i].Starting? then Begin(i)
      else Transfer(|left|)
    case Closing(i) => if i >= n then AllClosed else ClosePipe
    case Failed(_) => SourceFails
    case Collecting(got) =>
      if |got| >= n then Receive
      else match s.verifiers[|got|]
           case Starting => Begin(|got|)
           case Hashing(_, _, _) => EndOfBody(|got|)
           case Draining(_) => Send(|got|)
           case Sent(_) => Receive
  }

  lemma {:induction false} NoDeadlock<V>(body: string, tasks: seq<Task<V>>, s: State<V>)
    requires Inv(body, tasks, s) && !Over(s)
    ensures Enabled(s, SomeStep(s))
  {
    InvOfParts(body, tasks, s);
    match s.copier
    case Writing(_, _, i, _) =>
      if i < |tasks| {
        assert PipeOk(body, tasks, s, i);
      }
    case Collecting(got) =>
      assert PipeOk(body, tasks, s, |got|);
    case _ =>
  }

  // ----- termination

  function StepsLeft<V>(v: Verifier<V>): nat {
    match v
    case Starting => 3
    case Hashing(_, _, _) => 2
    case Draining(_) => 1
    case Sent(_) => 0
  }

  function AllStepsLeft<V>(vs: seq<Verifier<V>>): nat {
    if vs == [] then 0 else StepsLeft(vs[0]) + AllStepsLeft(vs[1..])
  }

  function Times(a: nat, b: nat): nat {
    if a == 0 then 0 else b + Times(a - 1, b)
  }

  /** Bound on the steps that the copier still takes with `n` pipes. */
  function CopierSteps<V>(c: Copier<V>, n: nat): int {
    match c
    case Reading(rest) => 2 * n + 2 + Times(|rest|, 2 * n + 2)
    case Writing(rest, chunk, i, left) =>
      2 * n + 2 + Times(|rest|, 2 * n + 2) + Times(if i < n then n - i else 0, |chunk| + 1) + 1 - (|chunk| - |left|)
    case Closing(i) => 2 * n - i + 1
    case Collecting(got) => n - |got|
    case Failed(_) => 0
  }

  function Measure<V>(s: State<V>): int {
    CopierSteps(s.copier, |s.verifiers|) + AllStepsLeft(s.verifiers)
  }

  lemma {:induction false} StepsLeftUpdate<V>(vs: seq<Verifier<V>>, i: nat, v: Verifier<V>)
    requires i < |vs|
    ensures AllStepsLeft(vs[i := v]) == AllStepsLeft(vs) - StepsLeft(vs[i]) + StepsLeft(v)
  {
    var vs' := vs[i := v];
    if i == 0 {
      assert vs'[1..] == vs[1..];
    } else {
      assert vs'[1..] == vs[1..][i - 1 := v];
      StepsLeftUpdate(vs[1..], i - 1, v);
    }
  }

  lemma {:induction false} TimesAdd(a: nat, a': nat, b: nat)
    ensures Times(a + a', b) == Times(a, b) + Times(a', b)
  {
    if a > 0 {
      TimesAdd(a - 1, a', b);
    }
  }

  lemma {:induction false} TimesNext(a: nat, b: nat)
    ensures Times(a, b + 1) == Times(a, b) + a && Times(a, 0) == 0
  {
    if a > 0 {
      TimesNext(a - 1, b);
    }
  }

  lemma {:induction false} BytesPay(k: nat, n: nat)
    requires k >= 1
    ensures Times(n, k + 1) + 2 <= Times(k, 2 * n + 2)
  {
    TimesNext(n, k);
    if k == 1 {
      TimesNext(n, 0);
      assert Times(0, 2 * n + 2) == 0;
    } else {
      BytesPay(k - 1, n);
    }
  }

  /** Reading a chunk of `k` bytes pays for writing it into all pipes. */
  lemma {:induction false} ChunkIsPaid(r: nat, k: nat, n: nat)
    requires 1 <= k <= r
    ensures Times(r - k, 2 * n + 2) + Times(n, k + 1) + 1 < Times(r, 2 * n + 2)
  {
    TimesAdd(r - k, k, 2 * n + 2);
    BytesPay(k, n);
  }

  lemma {:induction false} CopierStepPaid<V>(tasks: seq<Task<V>>, s: State<V>, step: Step)
    requires Enabled(s, step) && |tasks| == |s.verifiers|
    requires s.copier.Writing? && s.copier.i >= |tasks| ==> s.copier.left == s.copier.chunk
    requires s.copier.Closing? ==> s.copier.i <= |tasks|
    requires !step.Begin? && !step.EndOfBody? && !step.Send?
    ensures CopierSteps(Next(tasks, s, step).copier, |tasks|) < CopierSteps(s.copier, |tasks|)
  {
    if step.ReadChunk? {
      ChunkIsPaid(|s.copier.rest|, step.n, |tasks|);
    }
  }

  lemma {:induction false} MeasureDecreases<V>(body: string, tasks: seq<Task<V>>, s: State<V>, step: Step)
    requires Inv(body, tasks, s) && Enabled(s, step)
    ensures Measure(Next(tasks, s, step)) < Measure(s)
  {
    if step.Begin? || step.EndOfBody? || step.Send? {
      VerifierStepPaid(tasks, s, step);
    } else {
      CopierStepPaid(tasks, s, step);
      CopierStepLeaves(tasks, s, step);
    }
  }

  lemma {:induction false} VerifierStepPaid<V>(tasks: seq<Task<V>>, s: State<V>, step: Step)
    requires Enabled(s, step) && |tasks| == |s.verifiers|
    requires step.Begin? || step.EndOfBody? || step.Send?
    ensures var s' := Next(tasks, s, step);
            s'.copier == s.copier && AllStepsLeft(s'.verifiers) < AllStepsLeft(s.verifiers)
  {
    StepsLeftUpdate(s.verifiers, step.i, Next(tasks, s, step).verifiers[step.i]);
  }

  lemma {:induction false} CopierStepLeaves<V>(tasks: seq<Task<V>>, s: State<V>, step: Step)
    requires Enabled(s, step) && |tasks| == |s.verifiers|
    requires !step.Begin? && !step.EndOfBody? && !step.Send?
    ensures AllStepsLeft(Next(tasks, s, step).verifiers) == AllStepsLeft(s.verifiers)
  {
    if step.Transfer? {
      StepsLeftUpdate(s.verifiers, s.copier.i, Next(tasks, s, step).verifiers[s.copier.i]);
    }
  }

  lemma {:induction false} MeasureIsNat<V>(body: string, tasks: seq<Task<V>>, s: State<V>)
    requires Inv(body, tasks, s)
    ensures Measure(s) >= 0
  {
  }

  // ----- whole runs

  /** `s'` is reached from `s` by the given steps. */
  ghost predicate Run<V>(tasks: seq<Task<V>>, s: State<V>, steps: seq<Step>, s': State<V>)
    decreases |steps|
  {
    if steps == [] then s' == s
    else |tasks| == |s.verifiers| && Enabled(s, steps[0]) && Run(tasks, Next(tasks, s, steps[0]), steps[1..], s')
  }

  lemma {:induction false} RunKeepsInv<V>(body: string, tasks: seq<Task<V>>, s: State<V>, steps: seq<Step>,
                                          s': State<V>)
    requires Inv(body, tasks, s) && Run(tasks, s, steps, s')
    ensures Inv(body, tasks, s') && |steps| + Measure(s') <= Measure(s)
    decreases |steps|
  {
    if steps != [] {
      NextKeepsInv(body, tasks, s, steps[0]);
      MeasureDecreases(body, tasks, s, steps[0]);
      RunKeepsInv(body, tasks, Next(tasks, s, steps[0]), steps[1..], s');
    }
  }

  /** No schedule is longer than this. */
  function Bound<V>(body: string, tasks: seq<Task<V>>): int {
    Measure(Init<V>(body, |tasks|))
  }

  /**
   Every schedule from the start is bounded in length; where it stands it can go
   on, or the source has failed, or all verdicts have been collected, and then
   they are the sequential ones, also for the verifiers that stopped early.
   */
  lemma {:induction false} EverySchedule<V>(body: string, tasks: seq<Task<V>>, steps: seq<Step>, s: State<V>)
    requires Run(tasks, Init(body, |tasks|), steps, s)
    ensures |steps| <= Bound(body, tasks)
    ensures if Done(s) then
              |s.copier.got| == |tasks|
              && forall i :: 0 <= i < |tasks| ==> s.copier.got[i] == Sequential(tasks[i], body)
            else s.copier.Failed? || (|s.verifiers| == |s.closed| && Enabled(s, SomeStep(s)))
  {
    InitInv(body, tasks);
    RunKeepsInv(body, tasks, Init(body, |tasks|), steps, s);
    MeasureIsNat(body, tasks, s);
    if !Over(s) {
      NoDeadlock(body, tasks, s);
    }
  }

  // ----- a source that fails

  lemma {:induction false} FailsOnce<V>(tasks: seq<Task<V>>, s: State<V>, steps: seq<Step>, s': State<V>)
    requires Run(tasks, s, steps, s')
    ensures s'.copier.Failed? <==> s.copier.Failed? || SourceFails in steps
    decreases |steps|
  {
    if steps != [] {
      FailsOnce(tasks, Next(tasks, s, steps[0]), steps[1..], s');
      assert steps == [steps[0]] + steps[1..];
    }
  }

  /** Nobody can take a step. */
  ghost predicate Stuck<V>(s: State<V>) {
    forall step :: !Enabled(s, step)
  }

  lemma {:induction false} StuckIsOver<V>(body: string, tasks: seq<Task<V>>, s: State<V>)
    requires Inv(body, tasks, s) && Stuck(s)
    ensures Over(s)
  {
    if !Over(s) {
      NoDeadlock(body, tasks, s);
    }
  }

  /** The verifier waits for bytes or for the end of a body that it will never get. */
  predicate WaitsForEver<V>(s: State<V>, i: nat)
    requires i < |s.verifiers| == |s.closed|
  {
    (s.verifiers[i].Hashing? || s.verifiers[i].Draining?) && !s.closed[i]
  }

  /** When nothing moves any more, each verifier has sent its verdict or waits at a pipe that nobody closed. */
  lemma {:induction false} StuckVerifier<V>(body: string, tasks: seq<Task<V>>, s: State<V>, i: nat)
    requires Inv(body, tasks, s) && Stuck(s) && i < |tasks|
    ensures if s.copier.Failed? then WaitsForEver(s, i) else Done(s) && s.verifiers[i].Sent?
  {
    InvOfParts(body, tasks, s);
    assert PipeOk(body, tasks, s, i);
    StuckIsOver(body, tasks, s);
    assert !Enabled(s, Begin(i)) && !Enabled(s, EndOfBody(i)) && !Enabled(s, Send(i));
  }

  /**
   Wherever a schedule cannot go on: if the source never failed, every verifier
   has sent its verdict; and if it failed, at whatever point of the body, not one
   of them ends, because no pipe is closed.
   */
  lemma {:induction false} FailureStrandsVerifiers<V>(body: string, tasks: seq<Task<V>>, steps: seq<Step>, s: State<V>)
    requires Run(tasks, Init(body, |tasks|), steps, s) && Stuck(s)
    ensures |s.verifiers| == |s.closed| == |tasks|
    ensures SourceFails !in steps ==> Done(s) && forall i :: 0 <= i < |tasks| ==> s.verifiers[i].Sent?
    ensures SourceFails in steps ==> forall i :: 0 <= i < |tasks| ==> WaitsForEver(s, i)
  {
    InitInv(body, tasks);
    RunKeepsInv(body, tasks, Init(body, |tasks|), steps, s);
    FailsOnce(tasks, Init(body, |tasks|), steps, s);
    forall i | 0 <= i < |tasks|
      ensures if SourceFails in steps then WaitsForEver(s, i) else s.verifiers[i].Sent?
    {
      StuckVerifier(body, tasks, s, i);
    }
    StuckIsOver(body, tasks, s);
  }
}
