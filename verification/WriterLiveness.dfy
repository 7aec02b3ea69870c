/** The writer never deadlocks and always ends, failed writes or not. */
module WriterLiveness {
  import opened Wrappers
  import opened Batches
  import opened Writer
  import opened WriterSafety

  /** An upper bound on the steps the calling thread still takes. A batch it
      pushes pays for the five steps the writer thread spends on it. */
  function CallerWork<R>(script: Script<R>, p: CallerState<R>): int {
    var left := |script.records| - p.next;
    match p.pc
    case Ready => 20 + 14 * left
    case ReadStatus(k) => if k.InAppend? then 16 + 14 * left else 3
    case Build => 15 + 14 * left
    case Finish(k) => if k.InAppend? then 28 + 14 * left else 19
    case Push(_, k) => if k.InAppend? then 27 + 14 * left else 18
    case Reserve(k) => if k.InAppend? then 21 + 14 * left else 12
    case PushEnd => 11
    case Join => 5
    case CheckFailed => 4
    case CloseWriter => 2
    case CloseSink => 1
    case Gone => 0
  }

  function ThreadWork<R>(pc: Consumer<R>): nat {
    match pc
    case Got(_) => 4
    case Write(_) => 3
    case SetStatus(_, _) => 2
    case SetFailed(_) => 1
    case Count(_) => 1
    case _ => 0
  }

  function Work<R>(script: Script<R>, s: State<R>): int {
    CallerWork(script, s.caller) + 5 * |s.queue| + ThreadWork(s.thread.pc)
  }

  lemma AppendReducesWork<R>(c: Config, script: Script<R>, s: State<R>)
    requires s.caller.pc.Ready? || s.caller.pc.Build?
    requires ControlInv(script, s.caller)
    ensures CallerWork(script, StepAppend(c, script, s)) < CallerWork(script, s.caller)
  {
  }

  lemma FlushReducesWork<R>(c: Config, script: Script<R>, s: State<R>, fault: Option<string>)
    requires s.caller.pc.Finish? || s.caller.pc.Push? || s.caller.pc.Reserve?
    requires ControlInv(script, s.caller)
    ensures StepFlush(c, s, fault) != s ==> Work(script, StepFlush(c, s, fault)) < Work(script, s)
  {
  }

  lemma EndReducesWork<R>(c: Config, script: Script<R>, s: State<R>)
    requires s.caller.pc.PushEnd? || s.caller.pc.Join?
    ensures StepEnd(c, s) != s ==> Work(script, StepEnd(c, s)) < Work(script, s)
  {
  }

  lemma CheckReducesWork<R>(script: Script<R>, s: State<R>, fault: Option<string>)
    requires s.caller.pc.ReadStatus? || s.caller.pc.CheckFailed? || s.caller.pc.CloseWriter? || s.caller.pc.CloseSink?
    requires ControlInv(script, s.caller)
    ensures CallerWork(script, StepCheck(s, fault)) < CallerWork(script, s.caller)
  {
  }

  lemma ThreadReducesWork<R>(script: Script<R>, s: State<R>, fault: Option<string>)
    ensures StepThread(s, fault) != s ==> Work(script, StepThread(s, fault)) < Work(script, s)
  {
  }

  /** A step that only polls leaves the state as it is. Every other step
      reduces the work left. */
  lemma StepReducesWork<R>(c: Config, script: Script<R>, s: State<R>, m: Move)
    requires ControlInv(script, s.caller)
    ensures Step(c, script, s, m) != s ==> Work(script, Step(c, script, s, m)) < Work(script, s)
    ensures Work(script, s) >= 0
  {
    match m
    case Thread(fault) => ThreadReducesWork(script, s, fault);
    case Caller(fault) =>
      match s.caller.pc {
        case Ready => AppendReducesWork(c, script, s);
        case Build => AppendReducesWork(c, script, s);
        case Finish(_) => FlushReducesWork(c, script, s, fault);
        case Push(_, _) => FlushReducesWork(c, script, s, fault);
        case Reserve(_) => FlushReducesWork(c, script, s, fault);
        case PushEnd => EndReducesWork(c, script, s);
        case Join => EndReducesWork(c, script, s);
        case Gone =>
        case _ => CheckReducesWork(script, s, fault);
      }
  }

  /** When a step is a poll: a push when the queue holds as many batches as it
      may, a join while the other thread lives, a pop when nothing is queued. */
  lemma PollsIff<R>(c: Config, script: Script<R>, s: State<R>, f: Option<string>, g: Option<string>)
    requires Inv(c, script, s)
    ensures Step(c, script, s, Caller(f)) == s <==>
              || ((s.caller.pc.Push? || s.caller.pc.PushEnd?) && |s.queue| == c.depth)
              || (s.caller.pc.Join? && !s.thread.pc.Exited?)
              || s.caller.pc.Gone?
    ensures Step(c, script, s, Thread(g)) == s <==>
              (s.thread.pc.Pop? && s.queue == []) || s.thread.pc.Exited?
  {
    StepReducesWork(c, script, s, Caller(f));
    StepReducesWork(c, script, s, Thread(g));
  }

  /** In an unfinished state one of the threads has a step that is not a poll,
      whatever the outcomes of the calls it makes. */
  lemma NoDeadlock<R>(c: Config, script: Script<R>, s: State<R>, f: Option<string>, g: Option<string>)
    requires Inv(c, script, s) && !Finished(s)
    ensures Step(c, script, s, Caller(f)) != s || Step(c, script, s, Thread(g)) != s
  {
    if StepThread(s, g) == s {
      if s.thread.pc.Exited? {
        SentinelIsLast(s);
      }
      CallerCanStep(c, script, s, f);
    }
  }

  lemma CallerCanStep<R>(c: Config, script: Script<R>, s: State<R>, f: Option<string>)
    requires Inv(c, script, s) && !Finished(s)
    requires s.queue == [] && (s.thread.pc.Pop? || s.thread.pc.Exited?)
    ensures StepCaller(c, script, s, f) != s
  {
  }

  /** A stretch of the schedule in which each thread runs at least once. */
  ghost predicate Fair(moves: seq<Move>) {
    && (exists i :: 0 <= i < |moves| && moves[i].Caller?)
    && (exists i :: 0 <= i < |moves| && moves[i].Thread?)
  }

  lemma {:induction false} RunReducesWork<R>(c: Config, script: Script<R>, s: State<R>, moves: seq<Move>)
    requires Inv(c, script, s)
    ensures Work(script, Run(c, script, s, moves)) <= Work(script, s)
    ensures Work(script, Run(c, script, s, moves)) == Work(script, s) ==>
              forall i :: 0 <= i < |moves| ==> Step(c, script, s, moves[i]) == s
    decreases |moves|
  {
    if moves != [] {
      var s1 := Step(c, script, s, moves[0]);
      StepKeepsInv(c, script, s, moves[0]);
      StepReducesWork(c, script, s, moves[0]);
      RunReducesWork(c, script, s1, moves[1..]);
      if s1 == s && Work(script, Run(c, script, s, moves)) == Work(script, s) {
        forall i | 0 <= i < |moves|
          ensures Step(c, script, s, moves[i]) == s
        {
          assert i > 0 ==> moves[i] == moves[1..][i - 1];
        }
      }
    }
  }

  lemma FairReducesWork<R>(c: Config, script: Script<R>, s: State<R>, moves: seq<Move>)
    requires Inv(c, script, s) && !Finished(s) && Fair(moves)
    ensures Work(script, Run(c, script, s, moves)) < Work(script, s)
  {
    RunReducesWork(c, script, s, moves);
    var i :| 0 <= i < |moves| && moves[i].Caller?;
    var j :| 0 <= j < |moves| && moves[j].Thread?;
    NoDeadlock(c, script, s, moves[i].fault, moves[j].fault);
  }

  lemma {:induction false} RunJoin<R>(c: Config, script: Script<R>, s: State<R>, a: seq<Move>, b: seq<Move>)
    ensures Run(c, script, s, a + b) == Run(c, script, Run(c, script, s, a), b)
    decreases |a|
  {
    if a == [] {
      assert a + b == b;
    } else {
      assert (a + b)[1..] == a[1..] + b;
      RunJoin(c, script, Step(c, script, s, a[0]), a[1..], b);
    }
  }

  lemma {:induction false} FinishedStays<R>(c: Config, script: Script<R>, s: State<R>, moves: seq<Move>)
    requires Finished(s)
    ensures Finished(Run(c, script, s, moves))
    decreases |moves|
  {
    if moves != [] {
      FinishedStays(c, script, Step(c, script, s, moves[0]), moves[1..]);
    }
  }

  lemma {:induction false} FairFrom<R>(c: Config, script: Script<R>, s: State<R>, rounds: seq<seq<Move>>)
    requires Inv(c, script, s)
    requires forall r :: r in rounds ==> Fair(r)
    requires |rounds| >= Work(script, s)
    ensures Finished(Run(c, script, s, Concat(rounds)))
    decreases |rounds|
  {
    if Finished(s) {
      FinishedStays(c, script, s, Concat(rounds));
    } else {
      WorkLeft(c, script, s);
      var s1 := Run(c, script, s, rounds[0]);
      FairReducesWork(c, script, s, rounds[0]);
      RunKeepsInv(c, script, s, rounds[0]);
      RunJoin(c, script, s, rounds[0], Concat(rounds[1..]));
      FairFrom(c, script, s1, rounds[1..]);
    }
  }

  lemma WorkLeft<R>(c: Config, script: Script<R>, s: State<R>)
    requires Inv(c, script, s) && !Finished(s)
    ensures Work(script, s) > 0
  {
  }

  /** Any schedule that keeps running both threads ends the writer's life, in a
      number of rounds linear in the number of records: the calls return or
      throw, and the writer thread is joined. */
  lemma FairRunsEnd<R>(c: Config, script: Script<R>, rounds: seq<seq<Move>>)
    requires c.Valid()
    requires forall r :: r in rounds ==> Fair(r)
    requires |rounds| >= 20 + 14 * |script.records|
    ensures var s := Run(c, script, Init(c), Concat(rounds));
            Finished(s) && s.caller.joined && s.thread.pc.Exited? && s.queue == []
  {
    InitInv(c, script);
    FairFrom(c, script, Init(c), rounds);
    RunKeepsInv(c, script, Init(c), Concat(rounds));
    SentinelIsLast(Run(c, script, Init(c), Concat(rounds)));
  }
}
