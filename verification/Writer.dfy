/** The threaded Parquet writer as two processes over one bounded queue: the
    thread that calls append() and close(), and the writer thread. One `Move`
    lets one process take one step, so a sequence of moves is an interleaving.
    Every access to a variable both threads touch is a step of its own. */
module Writer {
  import opened Wrappers
  import opened Records

  /** The capacity of the queue between the two threads, in batches. */
  const QUEUE_DEPTH: nat := 4

  /** How the calls on a writer end: with close(), or with its destruction. */
  datatype Ending = Close | Abandon

  datatype Script<R> = Script(records: seq<Record<R>>, ending: Ending)

  datatype Config = Config(batchRows: nat, depth: nat)
  {
    predicate Valid() {
      batchRows > 0 && depth > 0
    }
  }

  datatype Item<R> = Batch(rows: seq<R>) | Sentinel

  datatype Status = Ok | Error(text: string)

  datatype Failure =
    | WriterFailed(text: string)
    | AllocationFailed(text: string)
    | FileCloseFailed(text: string)
    | ShortRecord
    | CallerStopped

  datatype Outcome = Running | Returned(rows: nat) | Threw(why: Failure)

  datatype Caller = InAppend | InClose

  /** Program counter of the calling thread. `PushEnd` and `Join` belong to
      close() while the outcome is `Running` and to the destructor after. */
  datatype Producer<R> =
    | Ready
    | ReadStatus(caller: Caller)
    | Build
    | Finish(caller: Caller)
    | Push(batch: seq<R>, caller: Caller)
    | Reserve(caller: Caller)
    | PushEnd
    | Join
    | CheckFailed
    | CloseWriter
    | CloseSink
    | Gone

  /** Program counter of the writer thread, with the item it holds. */
  datatype Consumer<R> =
    | Pop
    | Got(item: Item<R>)
    | Write(batch: seq<R>)
    | Count(batch: seq<R>)
    | SetStatus(batch: seq<R>, text: string)
    | SetFailed(batch: seq<R>)
    | Exited

  /** The calling thread and the fields only it writes. `flushed` and
      `sentinels` are history: every batch handed to enqueue(), and how many
      sentinels were pushed. `reserved` is the room taken for the open batch. */
  datatype CallerState<R> = CallerState(
    pc: Producer<R>,
    next: nat,
    open: seq<R>,
    reserved: nat,
    skipped: nat,
    closed: bool,
    joined: bool,
    outcome: Outcome,
    footer: bool,
    flushed: seq<seq<R>>,
    sentinels: nat)

  /** The writer thread and the fields only it writes. `groups` are the row
      groups whose write succeeded. */
  datatype ThreadState<R> = ThreadState(pc: Consumer<R>, written: nat, groups: seq<seq<R>>)

  datatype State<R> = State(
    caller: CallerState<R>,
    thread: ThreadState<R>,
    queue: seq<Item<R>>,
    status: Status,
    failed: bool)

  /** One step of one thread. `fault` is the error the step's fallible call
      returns, if any; steps that cannot fail ignore it. */
  datatype Move = Caller(fault: Option<string>) | Thread(fault: Option<string>)

  function Init<R>(c: Config): State<R> {
    State(CallerState(Ready, 0, [], c.batchRows, 0, false, false, Running, false, [], 0),
          ThreadState(Pop, 0, []), [], Ok, false)
  }

  /** An exception leaves the call and unwinds into the destructor, which sends
      a sentinel and joins unless close() already joined. */
  function Throw<R>(p: CallerState<R>, why: Failure): CallerState<R> {
    p.(outcome := Threw(why), pc := if p.joined then Gone else PushEnd)
  }

  /** append(): check for a failure, then hand the record to the builder. At
      the end of the script the caller closes the writer or destroys it. */
  function StepAppend<R>(c: Config, script: Script<R>, s: State<R>): CallerState<R>
    requires s.caller.pc.Ready? || s.caller.pc.Build?
  {
    var p := s.caller;
    if p.pc.Ready? then
      if p.next < |script.records| then
        p.(pc := if s.failed then ReadStatus(InAppend) else Build)
      else if script.ending.Close? then
        p.(closed := true, pc := if p.open == [] then PushEnd else Finish(InClose))
      else
        Throw(p, CallerStopped)
    else if p.next >= |script.records| then p
    else
      match script.records[p.next]
      case Other => p.(skipped := p.skipped + 1, next := p.next + 1, pc := Ready)
      case Short => Throw(p, ShortRecord)
      case Row(r) =>
        p.(open := p.open + [r], next := p.next + 1,
           pc := if |p.open| + 1 >= c.batchRows then Finish(InAppend) else Ready)
  }

  /** flush() of a batch with rows, from append() or from close(). */
  function StepFlush<R>(c: Config, s: State<R>, fault: Option<string>): State<R>
    requires s.caller.pc.Finish? || s.caller.pc.Push? || s.caller.pc.Reserve?
  {
    var p := s.caller;
    match p.pc
    case Finish(k) =>
      if fault.Some? then s.(caller := Throw(p, AllocationFailed(fault.value)))
      else s.(caller := p.(open := [], reserved := 0, flushed := p.flushed + [p.open], pc := Push(p.open, k)))
    case Push(batch, k) =>
      if |s.queue| < c.depth then
        s.(queue := s.queue + [Batch(batch)], caller := p.(pc := Reserve(k)))
      else s
    case Reserve(k) =>
      if fault.Some? then s.(caller := Throw(p, AllocationFailed(fault.value)))
      else s.(caller := p.(reserved := c.batchRows, pc := if k.InAppend? then Ready else PushEnd))
  }

  /** The sentinel and the join, in close() or in the destructor. */
  function StepEnd<R>(c: Config, s: State<R>): State<R>
    requires s.caller.pc.PushEnd? || s.caller.pc.Join?
  {
    var p := s.caller;
    if p.pc.PushEnd? then
      if |s.queue| < c.depth then
        s.(queue := s.queue + [Sentinel], caller := p.(pc := Join, sentinels := p.sentinels + 1))
      else s
    else if s.thread.pc.Exited? then
      s.(caller := p.(joined := true, pc := if p.outcome.Running? then CheckFailed else Gone))
    else s
  }

  /** The status check in append() and close(), and the end of close(). */
  function StepCheck<R>(s: State<R>, fault: Option<string>): CallerState<R>
    requires s.caller.pc.ReadStatus? || s.caller.pc.CheckFailed? || s.caller.pc.CloseWriter? || s.caller.pc.CloseSink?
  {
    var p := s.caller;
    match p.pc
    case ReadStatus(k) =>
      if s.status.Error? then Throw(p, WriterFailed(s.status.text))
      else p.(pc := if k.InAppend? then Build else CloseWriter)
    case CheckFailed =>
      p.(pc := if s.failed then ReadStatus(InClose) else CloseWriter)
    case CloseWriter =>
      if fault.Some? then Throw(p, FileCloseFailed(fault.value))
      else p.(footer := true, pc := CloseSink)
    case CloseSink =>
      if fault.Some? then Throw(p, FileCloseFailed(fault.value))
      else p.(outcome := Returned(s.thread.written), pc := Gone)
  }

  function StepCaller<R>(c: Config, script: Script<R>, s: State<R>, fault: Option<string>): State<R> {
    match s.caller.pc
    case Ready => s.(caller := StepAppend(c, script, s))
    case Build => s.(caller := StepAppend(c, script, s))
    case Finish(_) => StepFlush(c, s, fault)
    case Push(_, _) => StepFlush(c, s, fault)
    case Reserve(_) => StepFlush(c, s, fault)
    case PushEnd => StepEnd(c, s)
    case Join => StepEnd(c, s)
    case Gone => s
    case _ => s.(caller := StepCheck(s, fault))
  }

  function StepThread<R>(s: State<R>, fault: Option<string>): State<R> {
    var t := s.thread;
    match t.pc
    case Pop =>
      if s.queue == [] then s
      else s.(queue := s.queue[1..], thread := t.(pc := Got(s.queue[0])))
    case Got(item) =>
      (match item
       case Sentinel => s.(thread := t.(pc := Exited))
       case Batch(rows) => s.(thread := t.(pc := if s.failed then Pop else Write(rows))))
    case Write(batch) =>
      if fault.Some? then s.(thread := t.(pc := SetStatus(batch, fault.value)))
      else s.(thread := t.(groups := t.groups + [batch], pc := Count(batch)))
    case Count(batch) => s.(thread := t.(written := t.written + |batch|, pc := Pop))
    case SetStatus(batch, text) => s.(status := Error(text), thread := t.(pc := SetFailed(batch)))
    case SetFailed(batch) => s.(failed := true, thread := t.(pc := Pop))
    case Exited => s
  }

  function Step<R>(c: Config, script: Script<R>, s: State<R>, m: Move): State<R> {
    match m
    case Caller(fault) => StepCaller(c, script, s, fault)
    case Thread(fault) => StepThread(s, fault)
  }

  function Run<R>(c: Config, script: Script<R>, s: State<R>, moves: seq<Move>): State<R>
    decreases |moves|
  {
    if moves == [] then s else Run(c, script, Step(c, script, s, moves[0]), moves[1..])
  }

  predicate Finished<R>(s: State<R>) {
    s.caller.pc.Gone?
  }
}
