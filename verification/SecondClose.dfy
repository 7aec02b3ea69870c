/** What close() gives when it is called a second time. */
module SecondClose {
  import opened Wrappers
  import opened Batches
  import opened Records
  import opened Writer
  import opened WriterSafety
  import opened WriterLiveness
  import opened WriterTheorems

  /** close() called again returns the row count without looking at the failure. */
  function CloseAgain<R>(s: State<R>): Outcome
    requires s.caller.closed
  {
    Returned(s.thread.written)
  }

  /** So a second close() agrees with the first exactly when the first returned,
      that is, if only writes can fail, when none did. */
  lemma Agrees<R>(c: Config, script: Script<R>, moves: seq<Move>)
    requires c.Valid() && Start(c, script, moves).caller.closed
    ensures var s := Start(c, script, moves);
            CloseAgain(s) == s.caller.outcome <==> s.caller.outcome.Returned?
    ensures var s := Start(c, script, moves);
            Finished(s) && NoShort(script.records) && OnlyWritesFail(moves) ==>
              (CloseAgain(s) == s.caller.outcome <==> !s.failed)
  {
    Reached(c, script, moves);
    if Finished(Start(c, script, moves)) && NoShort(script.records) && OnlyWritesFail(moves) {
      CloseReportsFailedWrite(c, script, moves);
    }
  }

  // ---- A second close() may read the count while the thread still writes it ----

  /** close() has ended and the writer is not being destroyed yet, so it can be
      called again. */
  predicate CanCloseAgain<R>(p: CallerState<R>) {
    p.closed && !p.outcome.Running? && (p.pc.PushEnd? || p.pc.Gone?)
  }

  /** In no run that brings the calling thread here can the next step of the
      writer thread change the count. */
  ghost predicate CountIsOrdered<R>(c: Config, script: Script<R>, p: CallerState<R>) {
    forall moves: seq<Move>, fault: Option<string> :: Start(c, script, moves).caller == p ==>
      StepThread(Start(c, script, moves), fault).thread.written == Start(c, script, moves).thread.written
  }

  lemma RunOne<R>(c: Config, script: Script<R>, s: State<R>, m: Move, more: seq<Move>)
    ensures Run(c, script, s, [m] + more) == Run(c, script, Step(c, script, s, m), more)
  {
    assert ([m] + more)[1..] == more;
  }

  lemma StartPush<R>(c: Config, script: Script<R>, moves: seq<Move>, m: Move)
    ensures Start(c, script, moves + [m]) == Step(c, script, Start(c, script, moves), m)
  {
    RunJoin(c, script, Init(c), moves, [m]);
    RunOne(c, script, Start(c, script, moves), m, []);
    assert [m] + [] == [m];
  }

  /** The calls up to the flush of close(), and the moment it has thrown. */
  predicate BeforeJoin<R>(p: CallerState<R>) {
    || p.pc.Ready? || p.pc.Build? || p.pc.Finish? || p.pc.Push? || p.pc.Reserve?
    || (p.pc.PushEnd? && p.closed && p.outcome.Threw?)
  }

  /** The writer thread as slow as it can be: it has written the last batch
      pushed and not counted it yet. */
  ghost predicate Lags<R>(s: State<R>) {
    var pushed := |s.caller.flushed| - if s.caller.pc.Push? then 1 else 0;
    && s.queue == [] && !s.failed && pushed >= 0
    && s.thread.pc == if pushed == 0 then Pop else Count(s.caller.flushed[pushed - 1])
  }

  /** The writer thread counts a batch and writes the next. */
  lemma CatchUp<R>(c: Config, script: Script<R>, s: State<R>, batch: seq<R>) returns (moves: seq<Move>)
    requires s.queue == [Batch(batch)] && !s.failed && (s.thread.pc.Pop? || s.thread.pc.Count?)
    ensures var s' := Run(c, script, s, moves);
            s'.caller == s.caller && s'.queue == [] && !s'.failed && s'.thread.pc == Count(batch)
  {
    var go := Move.Thread(None);
    var s0 := if s.thread.pc.Count? then Step(c, script, s, go) else s;
    var s1 := Step(c, script, s0, go);
    var s2 := Step(c, script, s1, go);
    var s3 := Step(c, script, s2, go);
    RunOne(c, script, s2, go, []);
    RunOne(c, script, s1, go, [go] + []);
    RunOne(c, script, s0, go, [go] + ([go] + []));
    moves := [go] + ([go] + ([go] + []));
    if s.thread.pc.Count? {
      RunOne(c, script, s, go, moves);
      moves := [go] + moves;
    }
  }

  lemma StepBeforeJoin<R>(c: Config, script: Script<R>, s: State<R>, fault: Option<string>)
    requires Inv(c, script, s) && BeforeJoin(StepCaller(c, script, s, fault).caller)
    ensures BeforeJoin(s.caller)
  {
  }

  /** A step before the join goes the same way in a run where the writer thread
      lags, as no failure and no full queue stands in its way. */
  lemma SameStep<R>(c: Config, script: Script<R>, s: State<R>, t: State<R>, fault: Option<string>)
    requires BeforeJoin(s.caller) && BeforeJoin(StepCaller(c, script, s, fault).caller)
    requires StepCaller(c, script, s, fault).caller != s.caller
    requires t.caller == s.caller && Lags(t) && !s.caller.pc.Push?
    ensures var t' := StepCaller(c, script, t, fault);
            t'.caller == StepCaller(c, script, s, fault).caller && Lags(t')
  {
    if s.caller.pc.Finish? {
      SameFinish(c, s, t, fault);
    } else if s.caller.pc.Reserve? {
      SameReserve(c, s, t, fault);
    } else {
      SameAppend(c, script, s, t);
      AppendHandsNothingOver(c, script, t);
      StillLags(t, StepAppend(c, script, t));
    }
  }

  lemma SameAppend<R>(c: Config, script: Script<R>, s: State<R>, t: State<R>)
    requires s.caller.pc.Ready? || s.caller.pc.Build?
    requires BeforeJoin(StepAppend(c, script, s))
    requires t.caller == s.caller && !t.failed
    ensures StepAppend(c, script, t) == StepAppend(c, script, s)
  {
  }

  lemma AppendHandsNothingOver<R>(c: Config, script: Script<R>, t: State<R>)
    requires t.caller.pc.Ready? || t.caller.pc.Build?
    ensures var p := StepAppend(c, script, t); p.flushed == t.caller.flushed && !p.pc.Push?
  {
  }

  lemma StillLags<R>(t: State<R>, p: CallerState<R>)
    requires Lags(t) && !t.caller.pc.Push? && !p.pc.Push? && p.flushed == t.caller.flushed
    ensures Lags(t.(caller := p))
  {
  }

  lemma SameReserve<R>(c: Config, s: State<R>, t: State<R>, fault: Option<string>)
    requires s.caller.pc.Reserve? && t.caller == s.caller && Lags(t)
    ensures StepFlush(c, t, fault).caller == StepFlush(c, s, fault).caller && Lags(StepFlush(c, t, fault))
  {
  }

  lemma SameFinish<R>(c: Config, s: State<R>, t: State<R>, fault: Option<string>)
    requires s.caller.pc.Finish? && t.caller == s.caller && Lags(t)
    ensures StepFlush(c, t, fault).caller == StepFlush(c, s, fault).caller && Lags(StepFlush(c, t, fault))
  {
    if fault.None? {
      var flushed := s.caller.flushed + [s.caller.open];
      assert flushed[..|s.caller.flushed|] == s.caller.flushed;
    }
  }

  lemma SamePush<R>(c: Config, script: Script<R>, s: State<R>, t: State<R>, fault: Option<string>)
    requires c.Valid() && s.caller.pc.Push? && FlowInv(s)
    requires StepCaller(c, script, s, fault).caller != s.caller
    requires t.caller == s.caller && Lags(t)
    ensures var t' := StepCaller(c, script, t, fault);
            && t'.caller == StepCaller(c, script, s, fault).caller && t'.queue == [Batch(s.caller.pc.batch)]
            && !t'.failed && t'.thread == t.thread
            && |t'.caller.flushed| > 0 && t'.caller.flushed[|t'.caller.flushed| - 1] == s.caller.pc.batch
  {
  }

  /** Every state of the calling thread before the join is also reached with a
      writer thread that lags. */
  lemma {:induction false} LaggingRun<R>(c: Config, script: Script<R>, moves: seq<Move>) returns (lagging: seq<Move>)
    requires c.Valid() && BeforeJoin(Start(c, script, moves).caller)
    ensures Start(c, script, lagging).caller == Start(c, script, moves).caller && Lags(Start(c, script, lagging))
    decreases |moves|
  {
    if moves == [] {
      return [];
    }
    var before, m := moves[..|moves| - 1], moves[|moves| - 1];
    var s := Start(c, script, before);
    assert moves == before + [m];
    StartPush(c, script, before, m);
    Reached(c, script, before);
    if m.Caller? {
      StepBeforeJoin(c, script, s, m.fault);
    }
    lagging := LaggingRun(c, script, before);
    if Step(c, script, s, m).caller != s.caller {
      lagging := LaggingStep(c, script, s, lagging, m.fault);
    }
  }

  lemma LaggingStep<R>(c: Config, script: Script<R>, s: State<R>, slow: seq<Move>, fault: Option<string>)
    returns (lagging: seq<Move>)
    requires Inv(c, script, s) && BeforeJoin(s.caller) && BeforeJoin(StepCaller(c, script, s, fault).caller)
    requires StepCaller(c, script, s, fault).caller != s.caller
    requires Start(c, script, slow).caller == s.caller && Lags(Start(c, script, slow))
    ensures Start(c, script, lagging).caller == StepCaller(c, script, s, fault).caller
    ensures Lags(Start(c, script, lagging))
  {
    var t := Start(c, script, slow);
    StartPush(c, script, slow, Move.Caller(fault));
    lagging := slow + [Move.Caller(fault)];
    if !s.caller.pc.Push? {
      SameStep(c, script, s, t, fault);
    } else {
      SamePush(c, script, s, t, fault);
      var catchUp := CatchUp(c, script, Start(c, script, lagging), s.caller.pc.batch);
      RunJoin(c, script, Init(c), lagging, catchUp);
      lagging := lagging + catchUp;
    }
  }

  /** A second close() reads the count in order exactly when the first one came
      to the join, or no batch was ever handed over. Otherwise, when the flush
      in close() threw, the same calls have a run in which the thread is about
      to change the count that the second close() returns. */
  lemma ReadIsOrderedIff<R>(c: Config, script: Script<R>, moves: seq<Move>)
    requires c.Valid() && CanCloseAgain(Start(c, script, moves).caller)
    ensures var p := Start(c, script, moves).caller;
            CountIsOrdered(c, script, p) <==> p.joined || p.flushed == []
  {
    var p := Start(c, script, moves).caller;
    Reached(c, script, moves);
    if p.joined || p.flushed == [] {
      forall other: seq<Move>, fault: Option<string> | Start(c, script, other).caller == p
        ensures StepThread(Start(c, script, other), fault).thread.written == Start(c, script, other).thread.written
      {
        Reached(c, script, other);
      }
    } else {
      var lagging := LaggingRun(c, script, moves);
      var t := Start(c, script, lagging);
      Reached(c, script, lagging);
      assert |t.thread.pc.batch| > 0;
      assert StepThread(t, None).thread.written != t.thread.written;
    }
  }

  /** The calling thread on its own, with steps that do not fail. */
  function CallerAlone(n: nat): seq<Move> {
    seq(n, _ => Move.Caller(None))
  }

  lemma CallerAloneStep<R>(c: Config, script: Script<R>, n: nat)
    requires n > 0
    ensures Start(c, script, CallerAlone(n)) ==
            Step(c, script, Start(c, script, CallerAlone(n - 1)), Move.Caller(None))
  {
    assert CallerAlone(n) == CallerAlone(n - 1) + [Move.Caller(None)];
    StartPush(c, script, CallerAlone(n - 1), Move.Caller(None));
  }

  /** Such a run: two rows fill a batch, a third is open, and its flush throws
      while the first batch is written and not counted. */
  lemma ReadCanRace<R>(a: R, b: R, d: R) returns (moves: seq<Move>)
    ensures var c, script := Config(2, 1), Script([Row(a), Row(b), Row(d)], Close);
            var s := Start(c, script, moves);
            && CanCloseAgain(s.caller) && s.caller.outcome == Threw(AllocationFailed("no memory"))
            && CloseAgain(s) == Returned(0)
            && StepThread(s, None).thread.written == 2
  {
    var c, script := Config(2, 1), Script([Row(a), Row(b), Row(d)], Close);
    hide Run, CallerAlone;
    var alone := CallerAlone(10);
    AloneToClose(a, b, d);
    StartPush(c, script, alone, Move.Caller(Some("no memory")));
    moves := LaggingRun(c, script, alone + [Move.Caller(Some("no memory"))]);
    Reached(c, script, moves);
    OnlyBatchIsUncounted(Start(c, script, moves), [a, b]);
  }

  lemma OnlyBatchIsUncounted<R>(s: State<R>, batch: seq<R>)
    requires FlowInv(s) && CountInv(s.thread) && s.thread.pc == Count(batch) && s.caller.flushed == [batch]
    ensures s.thread.written == 0 && StepThread(s, None).thread.written == |batch|
  {
    assert s.thread.groups == [batch];
    assert [batch][..0] == [] && TotalRows([batch]) == |batch|;
  }

  lemma AloneToClose<R>(a: R, b: R, d: R)
    ensures var c, script := Config(2, 1), Script([Row(a), Row(b), Row(d)], Close);
            var p := Start(c, script, CallerAlone(10)).caller;
            p.pc == Finish(InClose) && p.closed && p.outcome.Running? && !p.joined && p.flushed == [[a, b]]
  {
    var c, script := Config(2, 1), Script([Row(a), Row(b), Row(d)], Close);
    AloneToFirstFlush(a, b, d);
    for n := 7 to 10
      invariant var s := Start(c, script, CallerAlone(n));
                && !s.failed && s.caller.flushed == [[a, b]] && s.caller.outcome.Running? && !s.caller.joined
                && match n
                   case 7 => s.caller.pc.Ready? && s.caller.next == 2 && s.caller.open == []
                   case 8 => s.caller.pc.Build? && s.caller.next == 2 && s.caller.open == []
                   case 9 => s.caller.pc.Ready? && s.caller.next == 3 && s.caller.open == [d]
                   case _ => s.caller.pc == Finish(InClose) && s.caller.closed
    {
      CallerAloneStep(c, script, n + 1);
    }
  }

  lemma AloneToFirstFlush<R>(a: R, b: R, d: R)
    ensures var c, script := Config(2, 1), Script([Row(a), Row(b), Row(d)], Close);
            var s := Start(c, script, CallerAlone(7));
            && !s.failed && s.caller.flushed == [[a, b]] && s.caller.outcome.Running? && !s.caller.joined
            && s.caller.pc.Ready? && s.caller.next == 2 && s.caller.open == []
  {
    var c, script := Config(2, 1), Script([Row(a), Row(b), Row(d)], Close);
    for n := 0 to 7
      invariant var s := Start(c, script, CallerAlone(n));
                && !s.failed && s.caller.outcome.Running? && !s.caller.joined && (n < 6 ==> s.queue == [])
                && s.caller.flushed == (if n < 5 then [] else [[a, b]])
                && match n
                   case 0 => s.caller.pc.Ready? && s.caller.next == 0 && s.caller.open == []
                   case 1 => s.caller.pc.Build? && s.caller.next == 0 && s.caller.open == []
                   case 2 => s.caller.pc.Ready? && s.caller.next == 1 && s.caller.open == [a]
                   case 3 => s.caller.pc.Build? && s.caller.next == 1 && s.caller.open == [a]
                   case 4 => s.caller.pc == Finish(InAppend) && s.caller.next == 2 && s.caller.open == [a, b]
                   case 5 => s.caller.pc == Push([a, b], InAppend) && s.caller.next == 2 && s.caller.open == []
                   case 6 => s.caller.pc == Reserve(InAppend) && s.caller.next == 2 && s.caller.open == []
                   case _ => s.caller.pc.Ready? && s.caller.next == 2 && s.caller.open == []
    {
      CallerAloneStep(c, script, n + 1);
    }
  }

  /** Both threads take turns, and every write fails. */
  function TurnsWithFullDisk(n: nat): seq<seq<Move>> {
    seq(n, _ => [Move.Caller(None), Move.Thread(Some("disk full"))])
  }

  lemma {:induction false} TurnsMoves(n: nat)
    ensures forall m: Move :: m in Concat(TurnsWithFullDisk(n)) ==>
              m == Move.Caller(None) || m == Move.Thread(Some("disk full"))
  {
    if n > 0 {
      TurnsMoves(n - 1);
      assert TurnsWithFullDisk(n)[1..] == TurnsWithFullDisk(n - 1);
    }
  }

  lemma {:induction false} FullDiskWritesNothing<R>(c: Config, script: Script<R>, s: State<R>, moves: seq<Move>)
    requires forall m: Move :: m in moves && m.Thread? ==> m.fault.Some?
    requires s.thread.groups == [] && s.thread.written == 0 && !s.thread.pc.Count?
    ensures Run(c, script, s, moves).thread.groups == [] && Run(c, script, s, moves).thread.written == 0
    decreases |moves|
  {
    if moves != [] {
      assert moves[0] in moves;
      assert forall m: Move :: m in moves[1..] ==> m in moves;
      FullDiskWritesNothing(c, script, Step(c, script, s, moves[0]), moves[1..]);
    }
  }

  /** A failed close() can look like a success to a caller that calls it twice:
      for every script shorter than a batch there is a run in which close()
      throws for the failed write and a second close() returns. */
  lemma CanHideFailure<R>(c: Config, script: Script<R>) returns (moves: seq<Move>)
    requires c.Valid() && script.ending.Close? && NoShort(script.records)
    requires 0 < |RowsOf(script.records)| < c.batchRows
    ensures var s := Start(c, script, moves);
            && s.caller.closed
            && s.caller.outcome == Threw(WriterFailed("disk full"))
            && CloseAgain(s) == Returned(0)
  {
    var rounds := TurnsWithFullDisk(20 + 14 * |script.records|);
    moves := Concat(rounds);
    TurnsMoves(|rounds|);
    forall r: seq<Move> | r in rounds
      ensures Fair(r)
    {
      assert r[0].Caller? && r[1].Thread?;
    }
    FairRunsEnd(c, script, rounds);
    forall i | 0 <= i < |moves| && moves[i].Caller?
      ensures moves[i].fault.None?
    {
      assert moves[i] in moves;
    }
    CloseReportsFailedWrite(c, script, moves);
    var s := Start(c, script, moves);
    FullDiskWritesNothing(c, script, Init(c), moves);
    if !s.failed {
      CloseReturnsEveryRow(c, script, moves);
    }
    ShortScriptFlushesInClose(c, script, moves);
    FullDiskStatus(c, script, Init(c), moves);
  }

  lemma ShortScriptFlushesInClose<R>(c: Config, script: Script<R>, moves: seq<Move>)
    requires c.Valid() && |RowsOf(script.records)| < c.batchRows
    requires Start(c, script, moves).status.Error?
    ensures Start(c, script, moves).caller.closed
  {
    Reached(c, script, moves);
    var p := Start(c, script, moves).caller;
    RowsGrow(script.records, p.next);
    if p.flushed != [] {
      assert |p.flushed[0]| <= |Concat(p.flushed)|;
    }
  }

  lemma {:induction false} RowsGrow<R>(records: seq<Record<R>>, n: nat)
    requires n <= |records|
    ensures |RowsOf(records[..n])| <= |RowsOf(records)|
    decreases |records| - n
  {
    if n < |records| {
      TakeNext(records, n);
      RowsGrow(records, n + 1);
    } else {
      assert records[..n] == records;
    }
  }

  lemma {:induction false} FullDiskStatus<R>(c: Config, script: Script<R>, s: State<R>, moves: seq<Move>)
    requires forall m: Move :: m in moves && m.Thread? ==> m.fault == Some("disk full")
    requires s.status.Error? ==> s.status.text == "disk full"
    requires s.thread.pc.SetStatus? ==> s.thread.pc.text == "disk full"
    ensures Run(c, script, s, moves).status.Error? ==> Run(c, script, s, moves).status.text == "disk full"
    decreases |moves|
  {
    if moves != [] {
      assert moves[0] in moves;
      FullDiskStatus(c, script, Step(c, script, s, moves[0]), moves[1..]);
    }
  }
}
