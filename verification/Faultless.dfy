/** What a writer's life comes to when nothing fails: one thing for each script,
    whatever the queue depth and the interleaving, also when it ends in a throw. */
module Faultless {
  import opened Wrappers
  import opened Batches
  import opened Records
  import opened Writer
  import opened WriterSafety
  import opened WriterTheorems

  /** The records before the first that is too short. */
  function BeforeShort<R>(records: seq<Record<R>>): seq<Record<R>> {
    if records == [] || records[0].Short? then [] else [records[0]] + BeforeShort(records[1..])
  }

  lemma {:induction false} BeforeShortIs<R>(records: seq<Record<R>>, n: nat)
    requires n <= |records| && NoShort(records[..n]) && (n < |records| ==> records[n].Short?)
    ensures BeforeShort(records) == records[..n]
    ensures NoShort(records) <==> n == |records|
  {
    if n > 0 {
      var rest := records[1..];
      assert !records[..n][0].Short?;
      assert rest[..n - 1] == records[..n][1..];
      BeforeShortIs(rest, n - 1);
      assert records == [records[0]] + rest && records[..n] == [records[0]] + rest[..n - 1];
    }
    assert n == |records| ==> records[..n] == records;
  }

  /** The batches filled by some rows, without the last one if it is not full. */
  function FullBatches<T>(rows: seq<T>, n: nat): seq<seq<T>>
    requires n > 0
  {
    if |rows| < n then [] else [rows[..n]] + FullBatches(rows[n..], n)
  }

  lemma {:induction false} FullBatchesAre<T>(parts: seq<seq<T>>, open: seq<T>, n: nat)
    requires n > 0 && |open| < n && forall k :: 0 <= k < |parts| ==> |parts[k]| == n
    ensures parts == FullBatches(Concat(parts) + open, n)
  {
    if parts != [] {
      var rest := parts[1..];
      FullBatchesAre(rest, open, n);
      var rows := Concat(parts) + open;
      Associate(parts[0], Concat(rest), open);
      assert rows[..n] == parts[0] && rows[n..] == Concat(rest) + open;
      assert parts == [parts[0]] + rest;
    }
  }

  /** What is left of a writer's life: how it ended, the file, and the skips. */
  datatype Result<R> = Result(outcome: Outcome, groups: seq<seq<R>>, skipped: nat, footer: bool)

  function ResultOf<R>(s: State<R>): Result<R> {
    Result(s.caller.outcome, s.thread.groups, s.caller.skipped, s.caller.footer)
  }

  /** The result of a script on its own: close() returns with every row, a short
      record ends it in a throw, and so does whoever stops calling. A throw
      leaves the full batches before it in the file, and no footer. */
  ghost function ResultWithoutFaults<R>(batchRows: nat, script: Script<R>): Result<R>
    requires batchRows > 0
  {
    var taken := BeforeShort(script.records);
    var rows := RowsOf(taken);
    if NoShort(script.records) && script.ending.Close? then
      Result(Returned(|rows|), Partition(rows, batchRows), SkippedOf(taken), true)
    else
      Result(Threw(if NoShort(script.records) then CallerStopped else ShortRecord),
             FullBatches(rows, batchRows), SkippedOf(taken), false)
  }

  /** A throw so far came of the script, with room left in the open batch. */
  ghost predicate ThrowsOfScript<R>(c: Config, script: Script<R>, p: CallerState<R>) {
    p.outcome.Threw? ==>
      && !p.closed && |p.open| < c.batchRows && p.next <= |script.records|
      && match p.outcome.why
         case ShortRecord => p.next < |script.records| && script.records[p.next].Short?
         case CallerStopped => p.next == |script.records| && script.ending.Abandon?
         case _ => false
  }

  lemma StepThrowsOfScript<R>(c: Config, script: Script<R>, s: State<R>, m: Move)
    requires Inv(c, script, s) && !s.status.Error? && ThrowsOfScript(c, script, s.caller) && m.fault.None?
    ensures ThrowsOfScript(c, script, Step(c, script, s, m).caller)
  {
  }

  lemma {:induction false} RunThrowsOfScript<R>(c: Config, script: Script<R>, s: State<R>, moves: seq<Move>)
    requires Inv(c, script, s) && ThrowsOfScript(c, script, s.caller) && NoFaults(moves)
    requires s.status.Ok? && !s.failed && !s.thread.pc.SetStatus? && !s.thread.pc.SetFailed?
    ensures var s' := Run(c, script, s, moves);
            Inv(c, script, s') && ThrowsOfScript(c, script, s'.caller) && !s'.failed
    decreases |moves|
  {
    if moves != [] {
      StepThrowsOfScript(c, script, s, moves[0]);
      StepKeepsInv(c, script, s, moves[0]);
      assert forall i :: 0 <= i < |moves[1..]| ==> moves[1..][i] == moves[i + 1];
      StaysOk(c, script, s, moves[0]);
      RunThrowsOfScript(c, script, Step(c, script, s, moves[0]), moves[1..]);
    }
  }

  lemma StaysOk<R>(c: Config, script: Script<R>, s: State<R>, m: Move)
    requires m.fault.None? && s.status.Ok? && !s.failed && !s.thread.pc.SetStatus? && !s.thread.pc.SetFailed?
    ensures var s' := Step(c, script, s, m);
            s'.status.Ok? && !s'.failed && !s'.thread.pc.SetStatus? && !s'.thread.pc.SetFailed?
  {
  }

  /** Every finished run without faults has the result of its script. */
  lemma FaultlessRunsAgree<R>(c: Config, script: Script<R>, moves: seq<Move>)
    requires c.Valid() && NoFaults(moves) && Finished(Start(c, script, moves))
    ensures ResultOf(Start(c, script, moves)) == ResultWithoutFaults(c.batchRows, script)
  {
    InitInv(c, script);
    RunThrowsOfScript(c, script, Init(c), moves);
    var s := Start(c, script, moves);
    BeforeShortIs(script.records, s.caller.next);
    if s.caller.outcome.Returned? {
      CloseReturnsEveryRow(c, script, moves);
      assert script.records[..s.caller.next] == script.records;
    } else {
      SentinelIsLast(s);
      assert s.thread.groups == s.caller.flushed;
      FullBatchesAre(s.caller.flushed, s.caller.open, c.batchRows);
    }
  }
}
