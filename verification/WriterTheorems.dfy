/** The writer's promises, over every script of calls and every interleaving. */
module WriterTheorems {
  import opened Wrappers
  import opened Batches
  import opened Records
  import opened Writer
  import opened WriterSafety

  function Start<R>(c: Config, script: Script<R>, moves: seq<Move>): State<R> {
    Run(c, script, Init(c), moves)
  }

  lemma Reached<R>(c: Config, script: Script<R>, moves: seq<Move>)
    requires c.Valid()
    ensures Inv(c, script, Start(c, script, moves))
  {
    InitInv(c, script);
    RunKeepsInv(c, script, Init(c), moves);
  }

  // ---- Conservation ----

  function Wrap<R>(batches: seq<seq<R>>): (items: seq<Item<R>>) {
    seq(|batches|, i requires 0 <= i < |batches| => Batch(batches[i]))
  }

  function List<T>(o: Option<T>): seq<T> {
    if o.Some? then [o.value] else []
  }

  function InPush<R>(p: Producer<R>): seq<Item<R>> {
    if p.Push? then [Batch(p.batch)] else []
  }

  /** All items the calling thread has made, in the order it made them. */
  function Made<R>(s: State<R>): seq<Item<R>> {
    Wrap(s.caller.flushed) + if s.caller.sentinels > 0 then [Sentinel] else []
  }

  /** The items on their way: in the writer thread's hand, queued, being pushed. */
  function OnTheWay<R>(s: State<R>): seq<Item<R>> {
    List(InHand(s.thread.pc)) + s.queue + InPush(s.caller.pc)
  }

  lemma MadeAt<R>(s: State<R>, k: nat)
    requires s.caller.sentinels <= 1 && k < |Made(s)|
    ensures Made(s)[k] == Sent(s.caller.flushed, k)
  {
  }

  lemma OnTheWayAt<R>(s: State<R>, k: nat)
    requires FlowInv(s) && s.caller.sentinels <= 1 && k < |OnTheWay(s)|
    ensures |Made(s)| - |OnTheWay(s)| == Popped(s) - |List(InHand(s.thread.pc))| >= 0
    ensures OnTheWay(s)[k] == Made(s)[|Made(s)| - |OnTheWay(s)| + k]
  {
    var hand := |List(InHand(s.thread.pc))|;
    MadeAt(s, |Made(s)| - |OnTheWay(s)| + k);
    if hand <= k < hand + |s.queue| {
      assert OnTheWay(s)[k] == s.queue[k - hand];
    }
  }

  lemma WayIsTheEnd<R>(s: State<R>)
    requires FlowInv(s) && s.caller.sentinels <= 1
    ensures |s.thread.groups| + |OnTheWay(s)| <= |Made(s)|
    ensures OnTheWay(s) == Made(s)[|Made(s)| - |OnTheWay(s)|..]
    ensures s.failed <==> |s.thread.groups| + |OnTheWay(s)| < |Made(s)|
  {
    var made, way := Made(s), OnTheWay(s);
    assert |made| - |way| == Popped(s) - |List(InHand(s.thread.pc))|;
    forall k | 0 <= k < |way|
      ensures way[k] == made[|made| - |way| + k]
    {
      OnTheWayAt(s, k);
    }
  }

  lemma FileIsTheStart<R>(s: State<R>)
    requires s.thread.groups <= s.caller.flushed
    ensures Wrap(s.thread.groups) == Made(s)[..|s.thread.groups|]
  {
  }

  /** The file is always the beginning of the batches handed over. Until a
      write fails, the file and what is on its way are all of them; after, what
      is on its way is their end and the failed batch lies in between. The row
      count is that of the file, one batch behind between a write and its count. */
  lemma BatchesConserved<R>(c: Config, script: Script<R>, moves: seq<Move>)
    requires c.Valid()
    ensures var s := Start(c, script, moves);
            && s.thread.groups <= s.caller.flushed
            && (!s.failed ==> Wrap(s.thread.groups) + OnTheWay(s) == Made(s))
            && (s.failed ==> |s.thread.groups| + |OnTheWay(s)| < |Made(s)|)
            && |OnTheWay(s)| <= |Made(s)|
            && OnTheWay(s) == Made(s)[|Made(s)| - |OnTheWay(s)|..]
            && TotalRows(s.thread.groups) == s.thread.written + if s.thread.pc.Count? then |s.thread.pc.batch| else 0
  {
    Reached(c, script, moves);
    var s := Start(c, script, moves);
    WayIsTheEnd(s);
    FileIsTheStart(s);
    assert Made(s) == Made(s)[..|s.thread.groups|] + Made(s)[|s.thread.groups|..];
  }

  // ---- Failure ----

  /** The batch whose write failed is the one the file lacks next. */
  lemma FailedBatchIsNext<R>(c: Config, script: Script<R>, moves: seq<Move>)
    requires c.Valid()
    requires Start(c, script, moves).thread.pc.SetStatus? || Start(c, script, moves).thread.pc.SetFailed?
    ensures var s := Start(c, script, moves);
            && s.thread.groups + [s.thread.pc.batch] <= s.caller.flushed
            && s.status.Error? == s.thread.pc.SetFailed?
  {
    Reached(c, script, moves);
  }

  lemma StepKeepsFailure<R>(c: Config, script: Script<R>, s: State<R>, m: Move)
    requires Inv(c, script, s) && s.status.Error?
    ensures var s' := Step(c, script, s, m);
            s'.status == s.status && s'.thread.groups == s.thread.groups
  {
  }

  lemma {:induction false} RunKeepsFailure<R>(c: Config, script: Script<R>, s: State<R>, more: seq<Move>)
    requires Inv(c, script, s) && s.status.Error?
    ensures var s' := Run(c, script, s, more);
            Inv(c, script, s') && s'.status == s.status && s'.thread.groups == s.thread.groups
    decreases |more|
  {
    if more != [] {
      StepKeepsFailure(c, script, s, more[0]);
      StepKeepsInv(c, script, s, more[0]);
      RunKeepsFailure(c, script, Step(c, script, s, more[0]), more[1..]);
    }
  }

  /** Once a write has failed the file never grows again, the status is never
      rewritten, the footer is never written, and close() does not return. */
  lemma FailureIsFinal<R>(c: Config, script: Script<R>, moves: seq<Move>, more: seq<Move>)
    requires c.Valid()
    requires Start(c, script, moves).status.Error?
    ensures var s, s' := Start(c, script, moves), Run(c, script, Start(c, script, moves), more);
            && s'.status == s.status
            && s'.thread.groups == s.thread.groups
            && |s'.thread.groups| < |s'.caller.flushed|
            && !s'.caller.footer
            && !s'.caller.outcome.Returned?
  {
    Reached(c, script, moves);
    RunKeepsFailure(c, script, Start(c, script, moves), more);
  }

  /** The status and the row count are plain variables. The caller reads the
      status only when the thread will never write it again, and the row count
      only when the thread has exited. */
  lemma PlainReadsAreSafe<R>(c: Config, script: Script<R>, moves: seq<Move>, fault: Option<string>)
    requires c.Valid()
    ensures var s := Start(c, script, moves);
            && (s.caller.pc.ReadStatus? ==> s.status.Error? && StepThread(s, fault).status == s.status)
            && (s.caller.pc.CloseSink? ==> s.thread.pc.Exited?)
  {
    Reached(c, script, moves);
  }

  // ---- Memory ----

  function RowsIn<R>(items: seq<Item<R>>): nat {
    if items == [] then 0 else
    (if items[0].Batch? then |items[0].rows| else 0) + RowsIn(items[1..])
  }

  function RowsInHand<R>(pc: Consumer<R>): nat {
    if pc.Count? then |pc.batch| else RowsIn(List(InHand(pc)))
  }

  lemma {:induction false} RowsInBound<R>(items: seq<Item<R>>, n: nat)
    requires forall i :: 0 <= i < |items| && items[i].Batch? ==> |items[i].rows| <= n
    ensures RowsIn(items) <= n * |items|
  {
    if items != [] {
      forall i | 0 <= i < |items[1..]| && items[1..][i].Batch?
        ensures |items[1..][i].rows| <= n
      {
        assert items[1..][i] == items[i + 1];
      }
      RowsInBound(items[1..], n);
      assert n * |items| == n + n * (|items| - 1);
    }
  }

  lemma HandBound<R>(n: nat, s: State<R>)
    requires FlowInv(s) && CountInv(s.thread) && Cut(s.caller.flushed, n)
    ensures RowsInHand(s.thread.pc) <= n
  {
    var hand := InHand(s.thread.pc);
    if s.thread.pc.Count? {
      assert s.caller.flushed[|s.thread.groups| - 1] == s.thread.pc.batch;
    } else if hand.Some? {
      assert RowsIn(List(hand)[1..]) == 0;
      assert hand.value == Sent(s.caller.flushed, Popped(s) - 1);
    }
  }

  lemma QueueBound<R>(n: nat, s: State<R>)
    requires FlowInv(s) && Cut(s.caller.flushed, n)
    ensures RowsIn(s.queue) <= n * |s.queue|
    ensures RowsIn(InPush(s.caller.pc)) <= n
    ensures !s.caller.pc.Push? ==> RowsIn(InPush(s.caller.pc)) == 0
  {
    RowsInBound(s.queue, n);
    if s.caller.pc.Push? {
      assert InPush(s.caller.pc)[1..] == [];
    }
  }

  function LiveRows<R>(s: State<R>): nat {
    |s.caller.open| + RowsIn(InPush(s.caller.pc)) + RowsIn(s.queue) + RowsInHand(s.thread.pc)
  }

  lemma LiveRowsOf<R>(n: nat, s: State<R>)
    requires FlowInv(s) && CountInv(s.thread) && Cut(s.caller.flushed, n)
    requires |s.caller.open| <= n && (s.caller.pc.Push? ==> s.caller.open == [])
    ensures LiveRows(s) <= n * (|s.queue| + 2)
  {
    HandBound(n, s);
    QueueBound(n, s);
    assert n * (|s.queue| + 2) == n * |s.queue| + n + n;
  }

  /** The rows alive at any time, being built or pushed, queued, and being
      encoded, fit in as many batches as the queue holds and two more. */
  lemma LiveRowsBounded<R>(c: Config, script: Script<R>, moves: seq<Move>)
    requires c.Valid()
    ensures LiveRows(Start(c, script, moves)) <= c.batchRows * (c.depth + 2)
  {
    Reached(c, script, moves);
    var s := Start(c, script, moves);
    LiveRowsOf(c.batchRows, s);
    MulMonotone(c.batchRows, |s.queue| + 2, c.depth + 2);
  }

  /** The batches alive: the one reserved or being pushed, those queued, and the
      one in the writer thread's hand. */
  function LiveBatches<R>(s: State<R>): nat {
    (if s.caller.reserved > 0 || s.caller.open != [] || s.caller.pc.Push? then 1 else 0) + BatchesIn(s.queue)
    + if s.thread.pc.Count? then 1 else BatchesIn(List(InHand(s.thread.pc)))
  }

  function BatchesIn<R>(items: seq<Item<R>>): nat {
    if items == [] then 0 else (if items[0].Batch? then 1 else 0) + BatchesIn(items[1..])
  }

  lemma {:induction false} BatchesAreItems<R>(items: seq<Item<R>>)
    ensures BatchesIn(items) <= |items|
  {
    if items != [] {
      BatchesAreItems(items[1..]);
    }
  }

  /** So no more batches than that are alive either. */
  lemma LiveBatchesBounded<R>(c: Config, script: Script<R>, moves: seq<Move>)
    requires c.Valid()
    ensures LiveBatches(Start(c, script, moves)) <= c.depth + 2
  {
    Reached(c, script, moves);
    var s := Start(c, script, moves);
    BatchesAreItems(s.queue);
    BatchesAreItems(List(InHand(s.thread.pc)));
  }

  lemma MulMonotone(n: nat, a: nat, b: nat)
    requires a <= b
    ensures n * a <= n * b
  {
  }

  /** Before every append() of the builder the open batch holds fewer rows than
      are reserved, for a batch of full size. */
  lemma AppendHasRoom<R>(c: Config, script: Script<R>, moves: seq<Move>)
    requires c.Valid()
    requires Start(c, script, moves).caller.pc.Build?
    ensures |Start(c, script, moves).caller.open| < Start(c, script, moves).caller.reserved == c.batchRows
  {
    Reached(c, script, moves);
  }

  // ---- close() ----

  /** When close() returns, the file is exactly the partition of the rows
      appended, whatever the queue depth and the interleaving, and every record
      was written or skipped. */
  lemma CloseReturnsEveryRow<R>(c: Config, script: Script<R>, moves: seq<Move>)
    requires c.Valid()
    requires Start(c, script, moves).caller.outcome.Returned?
    ensures var s := Start(c, script, moves);
            && s.thread.groups == Partition(RowsOf(script.records), c.batchRows)
            && s.caller.footer
            && s.caller.outcome.rows == |RowsOf(script.records)|
            && s.caller.skipped == SkippedOf(script.records)
            && s.caller.outcome.rows + s.caller.skipped == |script.records|
            && NoShort(script.records) && script.ending.Close?
  {
    Reached(c, script, moves);
    var s := Start(c, script, moves);
    FooterMeansAll(c, script, moves);
    PartitionIsCut(RowsOf(script.records), c.batchRows);
    assert script.records[..s.caller.next] == script.records;
    TotalRowsIsLength(s.thread.groups);
    RowsAndSkipped(script.records);
  }

  /** The footer is only ever written under a file that holds every row, also
      when close() throws after it. */
  lemma FooterMeansAll<R>(c: Config, script: Script<R>, moves: seq<Move>)
    requires c.Valid()
    requires Start(c, script, moves).caller.footer
    ensures var s := Start(c, script, moves);
            && s.thread.groups == Partition(RowsOf(script.records), c.batchRows)
            && NoShort(script.records) && script.ending.Close? && s.caller.joined && !s.failed
  {
    Reached(c, script, moves);
    var s := Start(c, script, moves);
    SentinelIsLast(s);
    assert script.records[..s.caller.next] == script.records;
    assert s.thread.groups == s.caller.flushed;
    assert Concat(s.caller.flushed) + [] == Concat(s.caller.flushed);
    CutIsPartition(s.caller.flushed, c.batchRows);
  }

  /** The only calls that may fail are the writes of row groups. */
  ghost predicate OnlyWritesFail(moves: seq<Move>) {
    forall i :: 0 <= i < |moves| && moves[i].Caller? ==> moves[i].fault.None?
  }

  ghost predicate NoFaults(moves: seq<Move>) {
    forall i :: 0 <= i < |moves| ==> moves[i].fault.None?
  }

  /** An exception so far carries the writer thread's one status. */
  ghost predicate ThrowsStatus<R>(s: State<R>) {
    s.caller.outcome.Threw? ==> s.status.Error? && s.caller.outcome.why == WriterFailed(s.status.text)
  }

  lemma StepThrowsStatus<R>(c: Config, script: Script<R>, s: State<R>, m: Move)
    requires ControlInv(script, s.caller) && FailureInv(s) && ThrowsStatus(s)
    requires script.ending.Close? && NoShort(script.records)
    requires m.Caller? ==> m.fault.None?
    ensures ThrowsStatus(Step(c, script, s, m))
  {
  }

  lemma {:induction false} RunThrowsStatus<R>(c: Config, script: Script<R>, s: State<R>, moves: seq<Move>)
    requires Inv(c, script, s) && ThrowsStatus(s)
    requires script.ending.Close? && NoShort(script.records) && OnlyWritesFail(moves)
    ensures Inv(c, script, Run(c, script, s, moves)) && ThrowsStatus(Run(c, script, s, moves))
    decreases |moves|
  {
    if moves != [] {
      StepThrowsStatus(c, script, s, moves[0]);
      StepKeepsInv(c, script, s, moves[0]);
      forall i | 0 <= i < |moves[1..]| && moves[1..][i].Caller?
        ensures moves[1..][i].fault.None?
      {
        assert moves[1..][i] == moves[i + 1];
      }
      RunThrowsStatus(c, script, Step(c, script, s, moves[0]), moves[1..]);
    }
  }

  /** A failed write is never lost: it is the one reason close(), or an append()
      before it, throws, and without one close() returns. */
  lemma CloseReportsFailedWrite<R>(c: Config, script: Script<R>, moves: seq<Move>)
    requires c.Valid() && script.ending.Close? && NoShort(script.records) && OnlyWritesFail(moves)
    requires Finished(Start(c, script, moves))
    ensures var s := Start(c, script, moves);
            && (s.failed <==> s.status.Error?)
            && s.caller.outcome == if s.status.Error? then Threw(WriterFailed(s.status.text))
                                   else Returned(|RowsOf(script.records)|)
  {
    InitInv(c, script);
    RunThrowsStatus(c, script, Init(c), moves);
    var s := Start(c, script, moves);
    if s.caller.outcome.Returned? {
      CloseReturnsEveryRow(c, script, moves);
    }
  }

  lemma {:induction false} NoFaultsNoFailure<R>(c: Config, script: Script<R>, s: State<R>, moves: seq<Move>)
    requires NoFaults(moves) && s.status.Ok? && !s.failed && !s.thread.pc.SetStatus? && !s.thread.pc.SetFailed?
    ensures !Run(c, script, s, moves).failed
    decreases |moves|
  {
    if moves != [] {
      assert moves[0].fault.None?;
      forall i | 0 <= i < |moves[1..]|
        ensures moves[1..][i].fault.None?
      {
        assert moves[1..][i] == moves[i + 1];
      }
      NoFaultsNoFailure(c, script, Step(c, script, s, moves[0]), moves[1..]);
    }
  }

  /** When nothing fails, a finished writer holds every row of its script. */
  lemma NoFaultsNoLoss<R>(c: Config, script: Script<R>, moves: seq<Move>)
    requires c.Valid() && script.ending.Close? && NoShort(script.records) && NoFaults(moves)
    requires Finished(Start(c, script, moves))
    ensures Start(c, script, moves).caller.outcome == Returned(|RowsOf(script.records)|)
    ensures Start(c, script, moves).thread.groups == Partition(RowsOf(script.records), c.batchRows)
  {
    NoFaultsNoFailure(c, script, Init(c), moves);
    CloseReportsFailedWrite(c, script, moves);
    CloseReturnsEveryRow(c, script, moves);
  }

  /** Every way a writer's life can end, close() or not, sends one sentinel
      after all batches, empties the queue, and joins the thread. */
  lemma EveryLifeEndsJoined<R>(c: Config, script: Script<R>, moves: seq<Move>)
    requires c.Valid()
    requires Finished(Start(c, script, moves))
    ensures var s := Start(c, script, moves);
            && s.caller.sentinels == 1 && s.queue == [] && s.thread.pc.Exited? && s.caller.joined
            && OnTheWay(s) == [Sentinel] && Made(s)[|Made(s)| - 1] == Sentinel
            && !s.caller.outcome.Running?
  {
    Reached(c, script, moves);
    SentinelIsLast(Start(c, script, moves));
  }
}
