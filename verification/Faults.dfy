/** No fault is lost: which failing calls a run met, and how its caller is told. */
module Faults {
  import opened Wrappers
  import opened Batches
  import opened Records
  import opened Writer
  import opened WriterSafety
  import opened WriterTheorems

  /** The move makes a call that fails: an allocation in flush(), a close of the
      file by the calling thread, or a write of a row group. */
  predicate Meets<R>(s: State<R>, m: Move) {
    && m.fault.Some?
    && match m
       case Caller(_) => s.caller.pc.Finish? || s.caller.pc.Reserve? || s.caller.pc.CloseWriter? || s.caller.pc.CloseSink?
       case Thread(_) => s.thread.pc.Write?
  }

  /** The exception the failing call is to end in. */
  function FaultOf<R>(s: State<R>, m: Move): Failure
    requires Meets(s, m)
  {
    if m.Thread? then WriterFailed(m.fault.value)
    else if s.caller.pc.Finish? || s.caller.pc.Reserve? then AllocationFailed(m.fault.value)
    else FileCloseFailed(m.fault.value)
  }

  /** All the faults a run meets, in order. */
  function FaultsMet<R>(c: Config, script: Script<R>, s: State<R>, moves: seq<Move>): seq<Failure>
    decreases |moves|
  {
    if moves == [] then [] else
    (if Meets(s, moves[0]) then [FaultOf(s, moves[0])] else [])
    + FaultsMet(c, script, Step(c, script, s, moves[0]), moves[1..])
  }

  /** An exception so far is a fault met, a short record, or the caller's own. */
  ghost predicate ThrowIsFounded<R>(script: Script<R>, p: CallerState<R>, met: seq<Failure>) {
    p.outcome.Threw? ==>
      || p.outcome.why in met
      || (p.outcome.why.ShortRecord? && p.next < |script.records| && script.records[p.next].Short?)
      || (p.outcome.why.CallerStopped? && p.next == |script.records| && script.ending.Abandon?)
  }

  /** A fault met has been thrown, or is the writer thread's status or about to be. */
  ghost predicate Told<R>(script: Script<R>, s: State<R>, met: seq<Failure>) {
    && (met != [] ==> s.caller.outcome.Threw? || s.status.Error? || s.thread.pc.SetStatus?)
    && (s.status.Error? ==> WriterFailed(s.status.text) in met)
    && (s.thread.pc.SetStatus? ==> WriterFailed(s.thread.pc.text) in met)
    && ThrowIsFounded(script, s.caller, met)
  }

  lemma StepTells<R>(c: Config, script: Script<R>, s: State<R>, m: Move, met: seq<Failure>)
    requires Inv(c, script, s) && Told(script, s, met)
    ensures Told(script, Step(c, script, s, m), met + if Meets(s, m) then [FaultOf(s, m)] else [])
  {
    if m.Caller? {
      CallerTells(c, script, s, m, met);
    } else {
      ThreadTells(script, s, m, met);
    }
  }

  lemma CallerTells<R>(c: Config, script: Script<R>, s: State<R>, m: Move, met: seq<Failure>)
    requires m.Caller? && ControlInv(script, s.caller) && FailureInv(s) && Told(script, s, met)
    ensures Told(script, StepCaller(c, script, s, m.fault), met + if Meets(s, m) then [FaultOf(s, m)] else [])
  {
    var now := met + if Meets(s, m) then [FaultOf(s, m)] else [];
    assert forall f :: f in met ==> f in now;
    assert Meets(s, m) ==> FaultOf(s, m) in now;
  }

  lemma ThreadTells<R>(script: Script<R>, s: State<R>, m: Move, met: seq<Failure>)
    requires m.Thread? && Told(script, s, met)
    ensures Told(script, StepThread(s, m.fault), met + if Meets(s, m) then [FaultOf(s, m)] else [])
  {
    var now := met + if Meets(s, m) then [FaultOf(s, m)] else [];
    assert forall f :: f in met ==> f in now;
    assert Meets(s, m) ==> FaultOf(s, m) in now;
  }

  lemma {:induction false} RunTells<R>(c: Config, script: Script<R>, s: State<R>, moves: seq<Move>, met: seq<Failure>)
    requires Inv(c, script, s) && Told(script, s, met)
    ensures Inv(c, script, Run(c, script, s, moves))
    ensures Told(script, Run(c, script, s, moves), met + FaultsMet(c, script, s, moves))
    decreases |moves|
  {
    if moves == [] {
      assert met + [] == met;
    } else {
      var now := if Meets(s, moves[0]) then [FaultOf(s, moves[0])] else [];
      StepTells(c, script, s, moves[0], met);
      StepKeepsInv(c, script, s, moves[0]);
      var s1 := Step(c, script, s, moves[0]);
      RunTells(c, script, s1, moves[1..], met + now);
      Associate(met, now, FaultsMet(c, script, s1, moves[1..]));
    }
  }

  /** The faults of a whole run. */
  function Met<R>(c: Config, script: Script<R>, moves: seq<Move>): seq<Failure> {
    FaultsMet(c, script, Init(c), moves)
  }

  lemma MetAreTold<R>(c: Config, script: Script<R>, moves: seq<Move>)
    requires c.Valid()
    ensures Inv(c, script, Start(c, script, moves)) && Told(script, Start(c, script, moves), Met(c, script, moves))
  {
    InitInv(c, script);
    RunTells(c, script, Init(c), moves, []);
    assert [] + Met(c, script, moves) == Met(c, script, moves);
  }

  /** Whatever the interleaving, close() does not return once a call has failed:
      not a flush, a write of the other thread, or a close of the file. */
  lemma NoFaultIsLost<R>(c: Config, script: Script<R>, moves: seq<Move>)
    requires c.Valid() && Met(c, script, moves) != []
    ensures !Start(c, script, moves).caller.outcome.Returned?
  {
    MetAreTold(c, script, moves);
  }

  /** A finished writer returned exactly if its caller closed it, no record was
      short, and no call failed. */
  lemma ReturnedIff<R>(c: Config, script: Script<R>, moves: seq<Move>)
    requires c.Valid() && Finished(Start(c, script, moves))
    ensures Start(c, script, moves).caller.outcome.Returned? <==>
              script.ending.Close? && NoShort(script.records) && Met(c, script, moves) == []
  {
    MetAreTold(c, script, moves);
    if Start(c, script, moves).caller.outcome.Returned? {
      CloseReturnsEveryRow(c, script, moves);
    }
  }

  /** And what it threw otherwise is one of the faults met, with its text, the
      short record that comes next, or the caller's own end. */
  lemma ThrowsWhatFailed<R>(c: Config, script: Script<R>, moves: seq<Move>)
    requires c.Valid() && Start(c, script, moves).caller.outcome.Threw?
    ensures var p := Start(c, script, moves).caller;
            match p.outcome.why
            case ShortRecord => p.next < |script.records| && script.records[p.next].Short?
            case CallerStopped => p.next == |script.records| && script.ending.Abandon?
            case why => why in Met(c, script, moves)
  {
    MetAreTold(c, script, moves);
    MetAreCalls(c, script, Init(c), moves);
  }

  lemma {:induction false} MetAreCalls<R>(c: Config, script: Script<R>, s: State<R>, moves: seq<Move>)
    ensures forall f :: f in FaultsMet(c, script, s, moves) ==> !f.ShortRecord? && !f.CallerStopped?
    decreases |moves|
  {
    if moves != [] {
      MetAreCalls(c, script, Step(c, script, s, moves[0]), moves[1..]);
    }
  }

  // ---- append() after a failure ----

  /** Once the failure flag is up, append() throws the status and takes nothing. */
  lemma AppendThrowsOnceFailed<R>(c: Config, script: Script<R>, moves: seq<Move>, f: Option<string>, g: Option<string>)
    requires c.Valid()
    requires var s := Start(c, script, moves); s.failed && s.caller.pc.Ready? && s.caller.next < |script.records|
    ensures var s := Start(c, script, moves);
            var s' := Step(c, script, Step(c, script, s, Move.Caller(f)), Move.Caller(g));
            && s.status.Error? && s'.caller.outcome == Threw(WriterFailed(s.status.text))
            && s'.caller.next == s.caller.next && s'.caller.open == s.caller.open && s'.caller.flushed == s.caller.flushed
  {
    Reached(c, script, moves);
  }

  lemma StepAfterFailure<R>(c: Config, script: Script<R>, s: State<R>, m: Move)
    requires s.failed && Inv(c, script, s)
    ensures var s' := Step(c, script, s, m);
            s'.failed && Left(s'.caller) <= Left(s.caller) && s.caller.next <= s'.caller.next
            && s'.caller.next - s.caller.next <= Left(s.caller) - Left(s'.caller)
  {
  }

  /** The records still taken after a failure: the one append() is at, if it has
      looked at the flag already. */
  function Left<R>(p: CallerState<R>): nat {
    if p.pc.Build? then 1 else 0
  }

  /** However the run goes on after a failure, no further append() takes a
      record; only one that had looked at the flag before still does. */
  lemma {:induction false} FailureStopsAppends<R>(c: Config, script: Script<R>, s: State<R>, more: seq<Move>)
    requires Inv(c, script, s) && s.failed
    ensures s.caller.next <= Run(c, script, s, more).caller.next <= s.caller.next + Left(s.caller)
    decreases |more|
  {
    if more != [] {
      StepAfterFailure(c, script, s, more[0]);
      StepKeepsInv(c, script, s, more[0]);
      FailureStopsAppends(c, script, Step(c, script, s, more[0]), more[1..]);
    }
  }
}
