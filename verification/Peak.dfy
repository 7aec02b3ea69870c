/** The bound on the rows alive is reached: for every batch size and queue depth
    there is a run that holds as many. */
module Peak {
  import opened Wrappers
  import opened Records
  import opened Writer
  import opened WriterSafety
  import opened WriterLiveness
  import opened WriterTheorems

  /** All records are rows. */
  predicate AllRows<R>(script: Script<R>) {
    forall i :: 0 <= i < |script.records| ==> script.records[i].Row?
  }

  predicate FullItems<R>(items: seq<Item<R>>, n: nat) {
    forall i :: 0 <= i < |items| ==> items[i].Batch? && |items[i].rows| == n
  }

  lemma {:induction false} RowsInFull<R>(items: seq<Item<R>>, n: nat)
    requires FullItems(items, n)
    ensures RowsIn(items) == n * |items|
  {
    if items != [] {
      RowsInFull(items[1..], n);
      assert n * |items| == n + n * (|items| - 1);
    }
  }

  lemma RunTwo<R>(c: Config, script: Script<R>, s: State<R>, a: Move, b: Move)
    ensures Run(c, script, s, [a, b]) == Step(c, script, Step(c, script, s, a), b)
  {
    var s1 := Step(c, script, s, a);
    assert [a, b][1..] == [b] && [b][1..] == [];
    assert Run(c, script, s1, [b]) == Run(c, script, Step(c, script, s1, b), []);
  }

  /** The caller appends rows until the open batch is full. */
  lemma {:induction false} FillOpen<R>(c: Config, script: Script<R>, s: State<R>) returns (moves: seq<Move>)
    requires s.caller.pc.Ready? && |s.caller.open| < c.batchRows && !s.failed && AllRows(script)
    requires s.caller.next + (c.batchRows - |s.caller.open|) <= |script.records|
    ensures var s' := Run(c, script, s, moves);
            && s'.caller.pc == Finish(InAppend) && |s'.caller.open| == c.batchRows
            && s'.caller.next == s.caller.next + (c.batchRows - |s.caller.open|)
            && s' == s.(caller := s'.caller)
    decreases c.batchRows - |s.caller.open|
  {
    var go := Move.Caller(None);
    RunTwo(c, script, s, go, go);
    var s2 := Run(c, script, s, [go, go]);
    assert |s2.caller.open| == |s.caller.open| + 1 && s2 == s.(caller := s2.caller);
    if |s2.caller.open| == c.batchRows {
      moves := [go, go];
    } else {
      var more := FillOpen(c, script, s2);
      RunJoin(c, script, s, [go, go], more);
      moves := [go, go] + more;
    }
  }

  /** And hands it over while the queue has room. */
  lemma HandOver<R>(c: Config, script: Script<R>, s: State<R>) returns (moves: seq<Move>)
    requires s.caller.pc == Finish(InAppend) && |s.queue| < c.depth
    ensures var s' := Run(c, script, s, moves);
            && s'.caller.pc.Ready? && s'.caller.open == [] && s'.caller.next == s.caller.next
            && s' == s.(caller := s'.caller, queue := s.queue + [Batch(s.caller.open)])
  {
    var go := Move.Caller(None);
    RunTwo(c, script, s, go, go);
    var s2 := Run(c, script, s, [go, go]);
    RunJoin(c, script, s, [go, go], [go]);
    assert [go][1..] == [];
    assert Run(c, script, s2, [go]) == Run(c, script, Step(c, script, s2, go), []);
    moves := [go, go] + [go];
  }

  /** The thread holds one batch, `q` are queued, and the caller starts the next. */
  ghost predicate Filled<R>(c: Config, s: State<R>, q: nat) {
    && s.caller.pc.Ready? && s.caller.open == [] && !s.failed && s.caller.next == c.batchRows * (q + 1)
    && s.thread.pc.Write? && |s.thread.pc.batch| == c.batchRows
    && |s.queue| == q && FullItems(s.queue, c.batchRows)
  }

  /** The first batch reaches the writer thread, which is about to write it. */
  lemma FirstBatch<R>(c: Config, script: Script<R>) returns (moves: seq<Move>)
    requires c.Valid() && AllRows(script) && |script.records| >= c.batchRows
    ensures Filled(c, Start(c, script, moves), 0)
  {
    var s0: State<R> := Init(c);
    var fill := FillOpen(c, script, s0);
    var s1 := Run(c, script, s0, fill);
    var hand := HandOver(c, script, s1);
    RunJoin(c, script, s0, fill, hand);
    var s2 := Run(c, script, s1, hand);
    var take := Move.Thread(None);
    RunTwo(c, script, s2, take, take);
    RunJoin(c, script, s0, fill + hand, [take, take]);
    moves := fill + hand + [take, take];
  }

  /** The thread stands still, and the caller fills the queue and one more batch. */
  lemma {:induction false} FillQueue<R>(c: Config, script: Script<R>, s: State<R>, q: nat) returns (moves: seq<Move>)
    requires c.Valid() && AllRows(script) && |script.records| >= c.batchRows * (c.depth + 2)
    requires q <= c.depth && Filled(c, s, q)
    ensures LiveRows(Run(c, script, s, moves)) == c.batchRows * (c.depth + 2)
    decreases c.depth - q
  {
    assert c.batchRows * (q + 2) == c.batchRows * (q + 1) + c.batchRows;
    MulMonotone(c.batchRows, q + 2, c.depth + 2);
    moves := FillOpen(c, script, s);
    var s1 := Run(c, script, s, moves);
    if q < c.depth {
      var hand := HandOver(c, script, s1);
      RunJoin(c, script, s, moves, hand);
      var more := FillQueue(c, script, Run(c, script, s1, hand), q + 1);
      RunJoin(c, script, s, moves + hand, more);
      moves := moves + hand + more;
    } else {
      RowsInFull(s.queue, c.batchRows);
      assert List(InHand(s.thread.pc))[1..] == [];
    }
  }

  /** Given rows enough, some run holds as many as the bound allows: the open
      batch is full, the queue is full, and the thread writes one more. */
  lemma LiveRowsReached<R>(c: Config, script: Script<R>) returns (moves: seq<Move>)
    requires c.Valid() && AllRows(script) && |script.records| >= c.batchRows * (c.depth + 2)
    ensures LiveRows(Start(c, script, moves)) == c.batchRows * (c.depth + 2)
  {
    MulMonotone(c.batchRows, 1, c.depth + 2);
    var first := FirstBatch(c, script);
    var more := FillQueue(c, script, Start(c, script, first), 0);
    RunJoin(c, script, Init(c), first, more);
    moves := first + more;
  }
}
