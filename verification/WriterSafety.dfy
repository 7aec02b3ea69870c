/** What every interleaving of the two threads keeps. */
module WriterSafety {
  import opened Wrappers
  import opened Batches
  import opened Records
  import opened Writer

  /** The calling thread is inside close(). */
  predicate Closing<R>(p: CallerState<R>) {
    match p.pc
    case ReadStatus(k) => k.InClose?
    case Finish(k) => k.InClose?
    case Push(_, k) => k.InClose?
    case Reserve(k) => k.InClose?
    case PushEnd => p.outcome.Running?
    case Join => p.outcome.Running?
    case CheckFailed => true
    case CloseWriter => true
    case CloseSink => true
    case _ => false
  }

  predicate PastJoin<R>(pc: Producer<R>) {
    pc.CheckFailed? || pc.CloseWriter? || pc.CloseSink? || pc.Gone? || pc == ReadStatus(InClose)
  }

  ghost predicate ControlInv<R>(script: Script<R>, p: CallerState<R>) {
    && p.next <= |script.records|
    && (p.pc.Build? || p.pc == ReadStatus(InAppend) ==> p.next < |script.records|)
    && p.sentinels == (if p.pc.Join? || PastJoin(p.pc) then 1 else 0)
    && (p.joined <==> PastJoin(p.pc))
    && (p.pc.Gone? ==> !p.outcome.Running?)
    && (!p.outcome.Running? ==> p.pc.PushEnd? || p.pc.Join? || p.pc.Gone?)
    && (p.outcome.Running? ==> (p.closed <==> Closing(p)))
    && (p.closed ==> p.next == |script.records| && script.ending.Close?)
    && (p.pc.CloseSink? || p.outcome.Returned? ==> p.footer)
    && (p.footer ==> p.closed && p.joined)
    && (p.outcome.Returned? ==> p.pc.Gone?)
  }

  /** The batches handed over and the open batch hold the rows appended so far. */
  ghost predicate RowsInv<R>(script: Script<R>, p: CallerState<R>)
    requires p.next <= |script.records|
  {
    && Concat(p.flushed) + p.open == RowsOf(script.records[..p.next])
    && p.skipped == SkippedOf(script.records[..p.next])
    && NoShort(script.records[..p.next])
  }

  ghost predicate DataInv<R>(c: Config, script: Script<R>, p: CallerState<R>)
    requires p.next <= |script.records|
  {
    RowsInv(script, p) && CutInv(c.batchRows, p)
  }

  ghost predicate CutInv<R>(n: nat, p: CallerState<R>) {
    && |p.open| <= n
    && (p.pc.Ready? || p.pc.Build? || p.pc == ReadStatus(InAppend) ==> |p.open| < n == p.reserved)
    && (p.pc == Finish(InAppend) ==> |p.open| == n)
    && (p.pc == Finish(InClose) ==> 0 < |p.open|)
    && (p.pc.Push? || p.pc.Reserve? ==> p.open == [])
    && (p.closed && p.outcome.Running? && !p.pc.Finish? ==> p.open == [])
    && (p.footer ==> p.open == [])
    && Cut(p.flushed, n)
    && (!p.closed || p.pc.Finish? ==> forall k :: 0 <= k < |p.flushed| ==> |p.flushed[k]| == n)
  }

  ghost predicate CountInv<R>(t: ThreadState<R>) {
    && TotalRows(t.groups) == t.written + (if t.pc.Count? then |t.pc.batch| else 0)
    && (t.pc.Count? ==> t.groups != [] && t.groups[|t.groups| - 1] == t.pc.batch)
  }

  /** The failure flag, the status it guards, and who touches them when. */
  ghost predicate FailureInv<R>(s: State<R>) {
    && (s.status.Error? <==> s.failed || s.thread.pc.SetFailed?)
    && (s.failed ==> s.thread.pc.Pop? || s.thread.pc.Got? || s.thread.pc.Exited?)
    && (s.caller.pc.ReadStatus? ==> s.failed)
    && (s.caller.joined ==> s.thread.pc.Exited?)
    && (s.caller.pc.CloseWriter? || s.caller.footer ==> !s.failed)
    && (s.caller.outcome.Returned? ==> s.caller.outcome.rows == s.thread.written)
  }

  /** The k-th item ever pushed: a batch, or after the batches the sentinel. */
  function Sent<R>(flushed: seq<seq<R>>, k: nat): Item<R> {
    if k < |flushed| then Batch(flushed[k]) else Sentinel
  }

  /** How many items the writer thread has popped. */
  function Popped<R>(s: State<R>): int {
    |s.caller.flushed| + s.caller.sentinels - |s.queue| - if s.caller.pc.Push? then 1 else 0
  }

  /** The item the writer thread holds; once exited, the sentinel that ended it.
      A counted batch is in the file, so it is no longer in hand. */
  function InHand<R>(pc: Consumer<R>): Option<Item<R>> {
    match pc
    case Pop => None
    case Got(item) => Some(item)
    case Write(b) => Some(Batch(b))
    case Count(_) => None
    case SetStatus(b, _) => Some(Batch(b))
    case SetFailed(b) => Some(Batch(b))
    case Exited => Some(Sentinel)
  }

  /** Nothing sent is reordered, duplicated or made up, and the file holds the
      batches popped unless a write failed, and then fewer. */
  ghost predicate FlowInv<R>(s: State<R>) {
    var flushed := s.caller.flushed;
    var popped := Popped(s);
    var hand := InHand(s.thread.pc);
    && 0 <= popped
    && (forall i :: 0 <= i < |s.queue| ==> s.queue[i] == Sent(flushed, popped + i))
    && (hand.Some? ==> 0 < popped && hand.value == Sent(flushed, popped - 1))
    && (s.caller.pc.Push? ==> flushed != [] && flushed[|flushed| - 1] == s.caller.pc.batch && s.caller.sentinels == 0)
    && (popped > |flushed| ==> hand == Some(Sentinel))
    && s.thread.groups <= flushed
    && |s.thread.groups| + (if hand.Some? then 1 else 0) <= popped
    && (s.failed <==> |s.thread.groups| + (if hand.Some? then 1 else 0) < popped)
  }

  ghost predicate Inv<R>(c: Config, script: Script<R>, s: State<R>) {
    && c.Valid()
    && |s.queue| <= c.depth
    && ControlInv(script, s.caller)
    && DataInv(c, script, s.caller)
    && CountInv(s.thread)
    && FailureInv(s)
    && FlowInv(s)
  }

  /** The sentinel is the last item, so nothing is behind it. */
  lemma SentinelIsLast<R>(s: State<R>)
    requires FlowInv(s) && s.caller.sentinels <= 1 && InHand(s.thread.pc) == Some(Sentinel)
    ensures s.queue == [] && !s.caller.pc.Push? && s.caller.sentinels == 1
    ensures Popped(s) == |s.caller.flushed| + 1
  {
  }

  lemma ReadyKeeps<R>(c: Config, script: Script<R>, s: State<R>)
    requires s.caller.pc.Ready? && Inv(c, script, s)
    ensures Inv(c, script, s.(caller := StepAppend(c, script, s)))
  {
    SameFlow(s, s.(caller := StepAppend(c, script, s)));
  }

  lemma BuildKeepsRows<R>(c: Config, script: Script<R>, s: State<R>)
    requires s.caller.pc.Build? && s.caller.next < |script.records| && RowsInv(script, s.caller)
    ensures RowsInv(script, StepAppend(c, script, s))
  {
    TakeNext(script.records, s.caller.next);
  }

  lemma BuildKeeps<R>(c: Config, script: Script<R>, s: State<R>)
    requires s.caller.pc.Build? && Inv(c, script, s)
    ensures Inv(c, script, s.(caller := StepAppend(c, script, s)))
  {
    BuildKeepsRows(c, script, s);
    SameFlow(s, s.(caller := StepAppend(c, script, s)));
  }

  lemma FinishKeepsRows<R>(c: Config, script: Script<R>, s: State<R>, fault: Option<string>)
    requires s.caller.pc.Finish? && s.caller.next <= |script.records| && RowsInv(script, s.caller)
    ensures StepFlush(c, s, fault).caller.next <= |script.records| && RowsInv(script, StepFlush(c, s, fault).caller)
  {
    ConcatPush(s.caller.flushed, s.caller.open);
  }

  lemma FinishKeepsCut<R>(c: Config, script: Script<R>, s: State<R>, fault: Option<string>)
    requires s.caller.pc.Finish? && c.Valid() && ControlInv(script, s.caller) && CutInv(c.batchRows, s.caller)
    ensures CutInv(c.batchRows, StepFlush(c, s, fault).caller)
  {
  }

  lemma FinishKeepsFlow<R>(c: Config, s: State<R>, fault: Option<string>)
    requires s.caller.pc.Finish? && s.caller.sentinels == 0 && FlowInv(s)
    ensures FlowInv(StepFlush(c, s, fault))
  {
  }

  lemma FinishKeeps<R>(c: Config, script: Script<R>, s: State<R>, fault: Option<string>)
    requires s.caller.pc.Finish? && Inv(c, script, s)
    ensures Inv(c, script, StepFlush(c, s, fault))
  {
    FinishKeepsRows(c, script, s, fault);
    FinishKeepsCut(c, script, s, fault);
    FinishKeepsFlow(c, s, fault);
  }

  lemma PushKeepsFlow<R>(c: Config, s: State<R>)
    requires s.caller.pc.Push? && FlowInv(s)
    ensures FlowInv(StepFlush(c, s, None))
  {
  }

  lemma PushKeeps<R>(c: Config, script: Script<R>, s: State<R>, fault: Option<string>)
    requires s.caller.pc.Push? && Inv(c, script, s)
    ensures Inv(c, script, StepFlush(c, s, fault))
  {
    PushKeepsFlow(c, s);
  }

  lemma ReserveKeeps<R>(c: Config, script: Script<R>, s: State<R>, fault: Option<string>)
    requires s.caller.pc.Reserve? && Inv(c, script, s)
    ensures Inv(c, script, StepFlush(c, s, fault))
  {
    SameFlow(s, StepFlush(c, s, fault));
  }

  lemma EndKeepsFlow<R>(c: Config, s: State<R>)
    requires s.caller.pc.PushEnd? && s.caller.sentinels == 0 && FlowInv(s)
    ensures FlowInv(StepEnd(c, s))
  {
  }

  lemma EndKeeps<R>(c: Config, script: Script<R>, s: State<R>)
    requires s.caller.pc.PushEnd? || s.caller.pc.Join?
    requires Inv(c, script, s)
    ensures Inv(c, script, StepEnd(c, s))
  {
    if s.caller.pc.PushEnd? {
      EndKeepsFlow(c, s);
    } else {
      SameFlow(s, StepEnd(c, s));
    }
  }

  lemma CheckKeeps<R>(c: Config, script: Script<R>, s: State<R>, fault: Option<string>)
    requires s.caller.pc.ReadStatus? || s.caller.pc.CheckFailed? || s.caller.pc.CloseWriter? || s.caller.pc.CloseSink?
    requires Inv(c, script, s)
    ensures Inv(c, script, s.(caller := StepCheck(s, fault)))
  {
    SameFlow(s, s.(caller := StepCheck(s, fault)));
  }

  lemma SameFlow<R>(s: State<R>, s': State<R>)
    requires FlowInv(s)
    requires s'.queue == s.queue && s'.thread == s.thread && s'.failed == s.failed
    requires s'.caller.flushed == s.caller.flushed && s'.caller.sentinels == s.caller.sentinels
    requires !s.caller.pc.Push? && !s'.caller.pc.Push?
    ensures FlowInv(s')
  {
    assert Popped(s') == Popped(s);
  }

  lemma ThreadKeepsCount<R>(s: State<R>, fault: Option<string>)
    requires CountInv(s.thread)
    ensures CountInv(StepThread(s, fault).thread)
  {
    if s.thread.pc.Write? {
      assert (s.thread.groups + [s.thread.pc.batch])[..|s.thread.groups|] == s.thread.groups;
    }
  }

  lemma ThreadKeepsFailure<R>(script: Script<R>, s: State<R>, fault: Option<string>)
    requires ControlInv(script, s.caller) && FailureInv(s)
    ensures FailureInv(StepThread(s, fault))
  {
  }

  lemma PopKeepsFlow<R>(s: State<R>, fault: Option<string>)
    requires s.thread.pc.Pop? && FlowInv(s) && FailureInv(s)
    ensures FlowInv(StepThread(s, fault))
  {
  }

  lemma OthersKeepFlow<R>(s: State<R>, fault: Option<string>)
    requires !s.thread.pc.Pop? && FlowInv(s) && FailureInv(s)
    ensures FlowInv(StepThread(s, fault))
  {
  }

  lemma ThreadKeeps<R>(c: Config, script: Script<R>, s: State<R>, fault: Option<string>)
    requires Inv(c, script, s)
    ensures Inv(c, script, StepThread(s, fault))
  {
    ThreadKeepsCount(s, fault);
    ThreadKeepsFailure(script, s, fault);
    if s.thread.pc.Pop? {
      PopKeepsFlow(s, fault);
    } else {
      OthersKeepFlow(s, fault);
    }
  }

  lemma StepKeepsInv<R>(c: Config, script: Script<R>, s: State<R>, m: Move)
    requires Inv(c, script, s)
    ensures Inv(c, script, Step(c, script, s, m))
  {
    match m
    case Caller(fault) =>
      match s.caller.pc {
        case Ready => ReadyKeeps(c, script, s);
        case Build => BuildKeeps(c, script, s);
        case Finish(_) => FinishKeeps(c, script, s, fault);
        case Push(_, _) => PushKeeps(c, script, s, fault);
        case Reserve(_) => ReserveKeeps(c, script, s, fault);
        case PushEnd => EndKeeps(c, script, s);
        case Join => EndKeeps(c, script, s);
        case Gone =>
        case _ => CheckKeeps(c, script, s, fault);
      }
    case Thread(fault) =>
      ThreadKeeps(c, script, s, fault);
  }

  lemma {:induction false} RunKeepsInv<R>(c: Config, script: Script<R>, s: State<R>, moves: seq<Move>)
    requires Inv(c, script, s)
    ensures Inv(c, script, Run(c, script, s, moves))
    decreases |moves|
  {
    if moves != [] {
      StepKeepsInv(c, script, s, moves[0]);
      RunKeepsInv(c, script, Step(c, script, s, moves[0]), moves[1..]);
    }
  }

  lemma InitInv<R>(c: Config, script: Script<R>)
    requires c.Valid()
    ensures Inv(c, script, Init(c))
  {
    var p: CallerState<R> := Init<R>(c).caller;
    assert script.records[..p.next] == [];
    assert Concat(p.flushed) + p.open == [];
  }
}
