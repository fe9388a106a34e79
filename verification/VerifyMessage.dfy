/** `VerifyWithOptions`: all signatures of a message, verified in parallel when there is not exactly one. */
module VerifyMessage {
  import opened Header
  import opened Verifying
  import P = ParallelVerify

  /** The verifier of one signature as a participant of the protocol. */
  function TaskOf(h: seq<string>, sigField: string, w: World): P.Task<Verification> {
    match Prepare(ParseField(sigField).1, w)
    case Stop(v) => P.Early(v)
    case Go(plan) => P.Late(plan.bodyCan, bytes => Conclude(plan, h, sigField, bytes, w))
  }

  function Tasks(h: seq<string>, sigs: seq<string>, w: World): (ts: seq<P.Task<Verification>>)
    ensures |ts| == |sigs|
  {
    if sigs == [] then [] else [TaskOf(h, sigs[0], w)] + Tasks(h, sigs[1..], w)
  }

  /** Taken alone, the participant gives the verdict of `verify` on the whole body. */
  lemma {:induction false} TaskIsVerify(h: seq<string>, body: string, sigField: string, w: World)
    ensures P.Sequential(TaskOf(h, sigField, w), body) == VerifyOne(h, body, sigField, w)
  {
  }

  lemma {:induction false} TasksAreVerify(h: seq<string>, body: string, sigs: seq<string>, w: World, i: nat)
    requires i < |sigs|
    ensures P.Sequential(Tasks(h, sigs, w)[i], body) == VerifyEach(h, body, sigs, w)[i]
  {
    if i == 0 {
      TaskIsVerify(h, body, sigs[0], w);
    } else {
      TasksAreVerify(h, body, sigs[1..], w, i - 1);
    }
  }

  /**
   However the copier and the verifiers are scheduled, once all verdicts are
   collected they are those of verifying the signatures one after the other.
   */
  lemma {:induction false} ParallelIsSequential(h: seq<string>, body: string, sigs: seq<string>, w: World,
                                                steps: seq<P.Step>, s: P.State<Verification>)
    requires P.Run(Tasks(h, sigs, w), P.Init(body, |sigs|), steps, s) && P.Done(s)
    ensures s.copier.got == VerifyEach(h, body, sigs, w)
  {
    var tasks := Tasks(h, sigs, w);
    P.EverySchedule(body, tasks, steps, s);
    forall i | 0 <= i < |sigs| ensures s.copier.got[i] == VerifyEach(h, body, sigs, w)[i] {
      TasksAreVerify(h, body, sigs, w, i);
    }
  }

  /** The scheduler of a source that does not fail: it picks any other enabled step. */
  method PickStep(s: P.State<Verification>, preferred: P.Step) returns (step: P.Step)
    requires |s.verifiers| == |s.closed|
    requires !P.Over(s) && P.Enabled(s, P.SomeStep(s))
    ensures P.Enabled(s, step) && step != P.SourceFails
  {
    step := if P.Enabled(s, preferred) && preferred != P.SourceFails then preferred else P.SomeStep(s);
  }

  /** `parallelVerify` of a source that does not fail, under the schedule that `preferences` asks for if possible. */
  method VerifyParallel(h: seq<string>, body: string, sigs: seq<string>, w: World,
                        preferences: P.State<Verification> -> P.Step)
    returns (vs: seq<Verification>)
    ensures vs == VerifyEach(h, body, sigs, w)
  {
    var tasks := Tasks(h, sigs, w);
    var s: P.State<Verification> := P.Init(body, |sigs|);
    P.InitInv(body, tasks);
    while !P.Done(s)
      invariant P.Inv(body, tasks, s) && !s.copier.Failed?
      decreases P.Measure(s)
    {
      P.NoDeadlock(body, tasks, s);
      P.MeasureIsNat(body, tasks, s);
      var step := PickStep(s, preferences(s));
      P.NextKeepsInv(body, tasks, s, step);
      P.MeasureDecreases(body, tasks, s, step);
      P.MeasureIsNat(body, tasks, P.Next(tasks, s, step));
      s := P.Next(tasks, s, step);
    }
    vs := s.copier.got;
    forall i | 0 <= i < |sigs| ensures vs[i] == VerifyEach(h, body, sigs, w)[i] {
      TasksAreVerify(h, body, sigs, w, i);
    }
  }

  lemma {:induction false} SignaturesAt(h: seq<string>, i: nat)
    requires i < |h|
    ensures Signatures(h[i..]) == (if IsSignature(h[i]) then [h[i]] else []) + Signatures(h[i + 1..])
  {
    assert h[i..][1..] == h[i + 1..];
  }

  lemma {:induction false} Found(a: seq<string>, x: string, b: seq<string>)
    ensures a + [x] + b == a + ([x] + b) && a + b == a + ([] + b)
  {
  }

  method ScanSignatures(h: seq<string>) returns (signatures: seq<string>)
    ensures signatures == Signatures(h)
  {
    signatures := [];
    ghost var all := Signatures(h);
    assert h[0..] == h && [] + all == all;
    for i := 0 to |h|
      invariant signatures + Signatures(h[i..]) == all
    {
      var kv := h[i];
      SignaturesAt(h, i);
      Found(signatures, kv, Signatures(h[i + 1..]));
      var found := IsSignature(kv);
      if found {
        signatures := signatures + [kv];
      }
    }
    assert h[|h|..] == [] && signatures + [] == signatures;
  }

  /** A single signature is verified directly, any other number in parallel. */
  method VerifySignatures(h: seq<string>, body: string, sigs: seq<string>, w: World,
                          preferences: P.State<Verification> -> P.Step)
    returns (vs: seq<Verification>)
    ensures vs == VerifyEach(h, body, sigs, w)
  {
    if |sigs| == 1 {
      var v := Verify(h, body, sigs[0], w);
      vs := [v];
      assert sigs[1..] == [];
    } else {
      vs := VerifyParallel(h, body, sigs, w, preferences);
    }
  }

  method VerifyWithOptions(msg: string, max: int, w: World, preferences: P.State<Verification> -> P.Step)
    returns (report: Report)
    ensures report == VerifyAll(msg, max, w)
  {
    var read := ReadHeaderLines(msg);
    if read.UnexpectedEOF? {
      return NoHeader;
    }
    var signatures := ScanSignatures(read.h);
    var tooManySignatures := false;
    if max > 0 && |signatures| > max {
      tooManySignatures := true;
      signatures := signatures[..max];
    }
    var verifs := VerifySignatures(read.h, read.rest, signatures, w, preferences);
    return Report(verifs, tooManySignatures);
  }
}
