/** Playing a served stream: the thread that decodes it and the player thread,
    as two processes over one bounded queue. One turn lets one of them take one
    step, so a sequence of turns is an interleaving. */
module Player {
  import opened Wrappers
  import opened Bytes
  import opened Batches
  import opened Backplay

  /** What the decoder emits, and whether run() then ends normally; if not, an
      exception unwinds into the destructor. */
  datatype Input = Input(batches: seq<RecordBatch>, normal: bool)

  /** Program counter of the decoding thread. `PushEnd` and `Join` belong to
      run() when the input ended normally and to the destructor otherwise. */
  datatype Producer = Decode | Push(batch: RecordBatch) | PushEnd | Join | Gone

  /** Program counter of the player thread, with the item it popped; a null
      batch is the sentinel. */
  datatype Consumer = Pop | Hold(item: Option<RecordBatch>) | Exited

  datatype Result = Running | Returned(rows: nat) | Threw

  datatype State = State(
    pc: Producer,
    received: nat,
    sentinels: nat,
    result: Result,
    queue: seq<Option<RecordBatch>>,
    player: Consumer,
    played: seq<RecordBatch>,
    playedBatches: nat,
    playedRows: nat)

  datatype Turn = Caller | Thread

  const Init: State := State(Decode, 0, 0, Running, [], Pop, [], 0, 0)

  function StepCaller(depth: nat, input: Input, s: State): State {
    match s.pc
    case Decode =>
      if s.received < |input.batches| then
        s.(pc := Push(input.batches[s.received]), received := s.received + 1)
      else s.(pc := PushEnd)
    case Push(batch) =>
      if |s.queue| < depth then s.(queue := s.queue + [Some(batch)], pc := Decode) else s
    case PushEnd =>
      if |s.queue| < depth then s.(queue := s.queue + [None], pc := Join, sentinels := s.sentinels + 1) else s
    case Join =>
      if s.player.Exited? then
        s.(pc := Gone, result := if input.normal then Returned(RowSum(input.batches)) else Threw)
      else s
    case Gone => s
  }

  function StepPlayer(s: State): State {
    match s.player
    case Pop => if s.queue == [] then s else s.(queue := s.queue[1..], player := Hold(s.queue[0]))
    case Hold(None) => s.(player := Exited)
    case Hold(Some(batch)) =>
      s.(player := Pop, played := s.played + [batch],
         playedBatches := s.playedBatches + 1, playedRows := s.playedRows + batch.rows)
    case Exited => s
  }

  function Step(depth: nat, input: Input, s: State, turn: Turn): State {
    if turn.Caller? then StepCaller(depth, input, s) else StepPlayer(s)
  }

  function Run(depth: nat, input: Input, s: State, turns: seq<Turn>): State
    decreases |turns|
  {
    if turns == [] then s else Run(depth, input, Step(depth, input, s, turns[0]), turns[1..])
  }

  // ---- What every interleaving keeps ----

  /** The k-th item pushed: a batch, or after all batches the sentinel. */
  function Sent(batches: seq<RecordBatch>, k: nat): Option<RecordBatch> {
    if k < |batches| then Some(batches[k]) else None
  }

  function Popped(s: State): int {
    s.received + s.sentinels - |s.queue| - if s.pc.Push? then 1 else 0
  }

  /** The item in the player's hand; once exited, the sentinel that ended it. */
  function InHand(c: Consumer): seq<Option<RecordBatch>> {
    match c
    case Pop => []
    case Hold(item) => [item]
    case Exited => [None]
  }

  function InPush(p: Producer): seq<Option<RecordBatch>> {
    if p.Push? then [Some(p.batch)] else []
  }

  ghost predicate CallerInv(input: Input, s: State) {
    && s.received <= |input.batches|
    && s.sentinels == (if s.pc.Join? || s.pc.Gone? then 1 else 0)
    && (s.pc.PushEnd? || s.pc.Join? || s.pc.Gone? ==> s.received == |input.batches|)
    && (s.pc.Gone? ==> s.player.Exited?)
    && s.result == if !s.pc.Gone? then Running
                   else if input.normal then Returned(RowSum(input.batches)) else Threw
  }

  ghost predicate FlowInv(batches: seq<RecordBatch>, s: State) {
    var popped, hand := Popped(s), InHand(s.player);
    && |hand| <= popped
    && (forall i :: 0 <= i < |s.queue| ==> s.queue[i] == Sent(batches, popped + i))
    && (hand != [] ==> hand[0] == Sent(batches, popped - 1))
    && (s.pc.Push? ==> 0 < s.received <= |batches| && s.pc.batch == batches[s.received - 1])
    && |s.played| == popped - |hand| <= |batches|
    && s.played == batches[..|s.played|]
  }

  ghost predicate Inv(depth: nat, input: Input, s: State) {
    && depth > 0 && |s.queue| <= depth
    && CallerInv(input, s)
    && FlowInv(input.batches, s)
    && s.playedBatches == |s.played| && s.playedRows == RowSum(s.played)
  }

  lemma CallerKeepsControl(depth: nat, input: Input, s: State)
    requires CallerInv(input, s)
    ensures CallerInv(input, StepCaller(depth, input, s))
  {
  }

  /** Receiving a batch and joining leave everything sent in its place. */
  lemma QuietStepKeepsFlow(depth: nat, input: Input, s: State)
    requires s.pc.Decode? || s.pc.Join? || s.pc.Gone?
    requires FlowInv(input.batches, s)
    ensures FlowInv(input.batches, StepCaller(depth, input, s))
  {
    assert Popped(StepCaller(depth, input, s)) == Popped(s);
  }

  lemma PushKeepsFlow(depth: nat, input: Input, s: State)
    requires s.pc.Push? && s.sentinels == 0 && FlowInv(input.batches, s)
    ensures FlowInv(input.batches, StepCaller(depth, input, s))
  {
    assert Popped(StepCaller(depth, input, s)) == Popped(s);
  }

  lemma PushEndKeepsFlow(depth: nat, input: Input, s: State)
    requires s.pc.PushEnd? && s.sentinels == 0 && s.received == |input.batches| && FlowInv(input.batches, s)
    ensures FlowInv(input.batches, StepCaller(depth, input, s))
  {
    assert Popped(StepCaller(depth, input, s)) == Popped(s);
  }

  lemma CallerKeepsInv(depth: nat, input: Input, s: State)
    requires Inv(depth, input, s)
    ensures Inv(depth, input, StepCaller(depth, input, s))
  {
    CallerKeepsControl(depth, input, s);
    match s.pc {
      case Push(_) => PushKeepsFlow(depth, input, s);
      case PushEnd => PushEndKeepsFlow(depth, input, s);
      case _ => QuietStepKeepsFlow(depth, input, s);
    }
  }

  lemma PlayerKeepsInv(depth: nat, input: Input, s: State)
    requires Inv(depth, input, s)
    ensures Inv(depth, input, StepPlayer(s))
  {
    hide FlowInv, Popped;
    if s.player.Hold? && s.player.item.Some? {
      PlayKeepsFlow(input, s);
      assert StepPlayer(s).played[..|s.played|] == s.played;
    } else {
      QuietPlayerKeepsFlow(input, s);
    }
  }

  /** Popping an item and leaving on the sentinel. */
  lemma QuietPlayerKeepsFlow(input: Input, s: State)
    requires s.player.Hold? ==> s.player.item.None?
    requires FlowInv(input.batches, s)
    ensures FlowInv(input.batches, StepPlayer(s))
  {
  }

  lemma PlayKeepsFlow(input: Input, s: State)
    requires s.player.Hold? && s.player.item.Some? && FlowInv(input.batches, s)
    ensures FlowInv(input.batches, StepPlayer(s))
  {
    var played := s.played + [s.player.item.value];
    assert played[..|s.played|] == s.played;
    assert input.batches[..|s.played| + 1] == input.batches[..|s.played|] + [input.batches[|s.played|]];
  }

  lemma StepKeepsInv(depth: nat, input: Input, s: State, turn: Turn)
    requires Inv(depth, input, s)
    ensures Inv(depth, input, Step(depth, input, s, turn))
  {
    if turn.Caller? {
      CallerKeepsInv(depth, input, s);
    } else {
      PlayerKeepsInv(depth, input, s);
    }
  }

  lemma {:induction false} RunKeepsInv(depth: nat, input: Input, s: State, turns: seq<Turn>)
    requires Inv(depth, input, s)
    ensures Inv(depth, input, Run(depth, input, s, turns))
    decreases |turns|
  {
    if turns != [] {
      StepKeepsInv(depth, input, s, turns[0]);
      RunKeepsInv(depth, input, Step(depth, input, s, turns[0]), turns[1..]);
    }
  }

  lemma Reached(depth: nat, input: Input, turns: seq<Turn>)
    requires depth > 0
    ensures Inv(depth, input, Run(depth, input, Init, turns))
  {
    RunKeepsInv(depth, input, Init, turns);
  }

  // ---- Conservation ----

  function Wrap(batches: seq<RecordBatch>): (items: seq<Option<RecordBatch>>)
    ensures |items| == |batches| && forall i :: 0 <= i < |batches| ==> items[i] == Some(batches[i])
  {
    seq(|batches|, i requires 0 <= i < |batches| => Some(batches[i]))
  }

  /** At every moment the batches played, in the player's hand, queued and being
      pushed are, in order, the batches received, with the sentinel behind them
      once it is sent. At most `depth` and two more are alive. */
  lemma BatchesConserved(depth: nat, input: Input, turns: seq<Turn>)
    requires depth > 0
    ensures var s := Run(depth, input, Init, turns);
            && s.received <= |input.batches|
            && Wrap(s.played) + InHand(s.player) + s.queue + InPush(s.pc) ==
               Wrap(input.batches[..s.received]) + (if s.sentinels > 0 then [None] else [])
            && |InHand(s.player) + s.queue + InPush(s.pc)| <= depth + 2
            && s.playedBatches == |s.played| && s.playedRows == RowSum(s.played)
  {
    Reached(depth, input, turns);
    ItemsInOrder(input, Run(depth, input, Init, turns));
  }

  lemma ItemsInOrder(input: Input, s: State)
    requires CallerInv(input, s) && FlowInv(input.batches, s)
    ensures Wrap(s.played) + InHand(s.player) + s.queue + InPush(s.pc) ==
            Wrap(input.batches[..s.received]) + (if s.sentinels > 0 then [None] else [])
  {
    var now := Wrap(s.played) + InHand(s.player) + s.queue + InPush(s.pc);
    var made := Wrap(input.batches[..s.received]) + if s.sentinels > 0 then [None] else [];
    assert |now| == |made|;
    forall k | 0 <= k < |now|
      ensures now[k] == made[k]
    {
      ItemAt(input, s, k);
      assert made[k] == Sent(input.batches, k);
    }
  }

  lemma ItemAt(input: Input, s: State, k: nat)
    requires CallerInv(input, s) && FlowInv(input.batches, s)
    requires k < |s.played| + |InHand(s.player)| + |s.queue| + |InPush(s.pc)|
    ensures (Wrap(s.played) + InHand(s.player) + s.queue + InPush(s.pc))[k] == Sent(input.batches, k)
  {
    var now := Wrap(s.played) + InHand(s.player) + s.queue + InPush(s.pc);
    var popped := Popped(s);
    if popped <= k < popped + |s.queue| {
      assert now[k] == s.queue[k - popped];
    }
  }

  /** A joined player has played every batch received, in order and once, and
      counted its rows, whether run() returned or threw. */
  lemma JoinedPlayedEverything(depth: nat, input: Input, turns: seq<Turn>)
    requires depth > 0
    requires Run(depth, input, Init, turns).pc.Gone?
    ensures var s := Run(depth, input, Init, turns);
            && s.played == input.batches
            && s.playedBatches == |input.batches| && s.playedRows == RowSum(input.batches)
            && s.queue == [] && s.sentinels == 1 && s.player.Exited?
            && s.result == if input.normal then Returned(s.playedRows) else Threw
  {
    Reached(depth, input, turns);
    var s := Run(depth, input, Init, turns);
    assert s.played == input.batches[..|input.batches|];
  }

  /** From the bytes of the connection to what is played: what serving them in
      one piece emits, for every queue depth and every interleaving. */
  lemma PlaysTheStream<S(!new)>(d: Decoder<S>, start: S, data: seq<byte>, tail: Tail, depth: nat, turns: seq<Turn>)
    requires MakesProgress(d) && depth > 0
    requires Run(depth, InputOf(Serve(d, start, data, tail)), Init, turns).pc.Gone?
    ensures var r, s := Serve(d, start, data, tail), Run(depth, InputOf(Serve(d, start, data, tail)), Init, turns);
            && s.played == r.batches && s.playedRows == RowSum(r.batches)
            && (s.result == Returned(s.playedRows) <==> r.stop.EndOfStream? || r.stop.ClosedAtStep?)
  {
    JoinedPlayedEverything(depth, InputOf(Serve(d, start, data, tail)), turns);
  }

  function InputOf(r: Served): Input {
    Input(r.batches, Normal(r.stop))
  }

  /** run() on a connection: the decoding loop reads the socket, and the player
      thread plays what it emits. However the bytes arrive, a joined player has
      played what serving them in one piece emits. */
  method RunConnection<S(!new)>(d: Decoder<S>, start: S, fd: Socket, depth: nat, turns: seq<Turn>) returns (s: State)
    requires MakesProgress(d) && fd.Valid() && depth > 0
    modifies fd
    ensures var r := Serve(d, start, old(Stream(fd.arrivals)), fd.tail);
            s.pc.Gone? ==>
              && s.played == r.batches && s.playedRows == RowSum(r.batches)
              && s.result == if r.stop.EndOfStream? || r.stop.ClosedAtStep? then Returned(s.playedRows) else Threw
  {
    ghost var data := Stream(fd.arrivals);
    var received, _, _, stop, _ := Backplay.Decode(d, start, fd);
    s := Run(depth, Input(received, Normal(stop)), Init, turns);
    if s.pc.Gone? {
      JoinedPlayedEverything(depth, Input(received, Normal(stop)), turns);
    }
  }

  // ---- Progress ----

  /** When a turn is a poll: a push when the queue holds as many batches as it
      may, a join while the player lives, a pop when nothing is queued. */
  lemma PollsIff(depth: nat, input: Input, s: State)
    requires Inv(depth, input, s)
    ensures StepCaller(depth, input, s) == s <==>
              || ((s.pc.Push? || s.pc.PushEnd?) && |s.queue| == depth)
              || (s.pc.Join? && !s.player.Exited?)
              || s.pc.Gone?
    ensures StepPlayer(s) == s <==> (s.player.Pop? && s.queue == []) || s.player.Exited?
  {
  }

  /** An upper bound on the steps left that are not polls. */
  function Work(input: Input, s: State): int {
    (match s.pc
     case Decode => 6 + 4 * (|input.batches| - s.received)
     case Push(_) => 9 + 4 * (|input.batches| - s.received)
     case PushEnd => 5
     case Join => 1
     case Gone => 0) +
    2 * |s.queue| + if s.player.Hold? then 1 else 0
  }

  lemma StepReducesWork(depth: nat, input: Input, s: State, turn: Turn)
    requires CallerInv(input, s)
    ensures Work(input, s) >= 0
    ensures Step(depth, input, s, turn) != s ==> Work(input, Step(depth, input, s, turn)) < Work(input, s)
  {
  }

  lemma NoDeadlock(depth: nat, input: Input, s: State)
    requires Inv(depth, input, s) && !s.pc.Gone?
    ensures StepCaller(depth, input, s) != s || StepPlayer(s) != s
  {
  }

  lemma {:induction false} RunReducesWork(depth: nat, input: Input, s: State, turns: seq<Turn>)
    requires Inv(depth, input, s)
    ensures Work(input, Run(depth, input, s, turns)) <= Work(input, s)
    ensures Work(input, Run(depth, input, s, turns)) == Work(input, s) ==>
              forall turn :: turn in turns ==> Step(depth, input, s, turn) == s
    decreases |turns|
  {
    if turns != [] {
      var s1 := Step(depth, input, s, turns[0]);
      StepReducesWork(depth, input, s, turns[0]);
      StepKeepsInv(depth, input, s, turns[0]);
      RunReducesWork(depth, input, s1, turns[1..]);
      if s1 == s && Work(input, Run(depth, input, s, turns)) == Work(input, s) {
        forall turn | turn in turns
          ensures Step(depth, input, s, turn) == s
        {
          assert turn == turns[0] || turn in turns[1..];
        }
      }
    }
  }

  /** A stretch of the schedule in which both threads run. */
  predicate Fair(turns: seq<Turn>) {
    Turn.Caller in turns && Turn.Thread in turns
  }

  lemma FairReducesWork(depth: nat, input: Input, s: State, turns: seq<Turn>)
    requires Inv(depth, input, s) && !s.pc.Gone? && Fair(turns)
    ensures Work(input, Run(depth, input, s, turns)) < Work(input, s)
  {
    RunReducesWork(depth, input, s, turns);
    NoDeadlock(depth, input, s);
    assert Step(depth, input, s, Turn.Caller) != s || Step(depth, input, s, Turn.Thread) != s;
  }

  lemma {:induction false} RunJoin(depth: nat, input: Input, s: State, a: seq<Turn>, b: seq<Turn>)
    ensures Run(depth, input, s, a + b) == Run(depth, input, Run(depth, input, s, a), b)
    decreases |a|
  {
    if a == [] {
      assert a + b == b;
    } else {
      assert (a + b)[1..] == a[1..] + b;
      RunJoin(depth, input, Step(depth, input, s, a[0]), a[1..], b);
    }
  }

  lemma {:induction false} FairFrom(depth: nat, input: Input, s: State, rounds: seq<seq<Turn>>)
    requires Inv(depth, input, s)
    requires forall r :: r in rounds ==> Fair(r)
    requires |rounds| >= Work(input, s)
    ensures Run(depth, input, s, Concat(rounds)).pc.Gone?
    decreases |rounds|
  {
    if s.pc.Gone? {
      GoneStays(depth, input, s, Concat(rounds));
    } else {
      var s1 := Run(depth, input, s, rounds[0]);
      assert Work(input, s) > 0;
      FairReducesWork(depth, input, s, rounds[0]);
      RunKeepsInv(depth, input, s, rounds[0]);
      RunJoin(depth, input, s, rounds[0], Concat(rounds[1..]));
      FairFrom(depth, input, s1, rounds[1..]);
    }
  }

  lemma {:induction false} GoneStays(depth: nat, input: Input, s: State, turns: seq<Turn>)
    requires s.pc.Gone?
    ensures Run(depth, input, s, turns).pc.Gone?
    decreases |turns|
  {
    if turns != [] {
      GoneStays(depth, input, Step(depth, input, s, turns[0]), turns[1..]);
    }
  }

  /** Any schedule that keeps running both threads joins the player, after a
      number of rounds linear in the number of batches. */
  lemma FairRunsEnd(depth: nat, input: Input, rounds: seq<seq<Turn>>)
    requires depth > 0
    requires forall r :: r in rounds ==> Fair(r)
    requires |rounds| >= 6 + 4 * |input.batches|
    ensures Run(depth, input, Init, Concat(rounds)).pc.Gone?
  {
    FairFrom(depth, input, Init, rounds);
  }
}
