/** The workers that convert a tree of files, and how each output is committed:
    written beside its place and renamed when complete. */
module Commit {
  import opened Wrappers
  import opened Batches

  // ---- Paths below the output directory ----

  datatype Path = Path(dir: seq<string>, name: string)

  const INPUT_SUFFIX := ".dbn.zst"
  const OUTPUT_SUFFIX := ".parquet"
  const TMP_SUFFIX := ".tmp"

  predicate IsInput(f: Path) {
    |f.name| >= |INPUT_SUFFIX| && f.name[|f.name| - |INPUT_SUFFIX|..] == INPUT_SUFFIX
  }

  /** The output of an input: the same place in the tree, another suffix. */
  function Out(f: Path): Path
    requires IsInput(f)
  {
    Path(f.dir, f.name[..|f.name| - |INPUT_SUFFIX|] + OUTPUT_SUFFIX)
  }

  function Tmp(f: Path): Path
    requires IsInput(f)
  {
    Path(f.dir, Out(f).name + TMP_SUFFIX)
  }

  lemma Stem(f: Path)
    requires IsInput(f)
    ensures f.name == Out(f).name[..|Out(f).name| - |OUTPUT_SUFFIX|] + INPUT_SUFFIX
  {
  }

  /** Different inputs have different outputs and temporary files, and no output
      is a temporary file. */
  lemma PathsDistinct(f: Path, g: Path)
    requires IsInput(f) && IsInput(g)
    ensures Out(f) == Out(g) ==> f == g
    ensures Tmp(f) == Tmp(g) ==> f == g
    ensures Out(f) != Tmp(g)
  {
    Stem(f);
    Stem(g);
    var o, t := Out(f).name, Tmp(g).name;
    assert o[|o| - 1] == 't' && t[|t| - 1] == 'p';
    if Tmp(f) == Tmp(g) {
      assert Out(f).name == Tmp(f).name[..|Tmp(f).name| - |TMP_SUFFIX|];
      assert Out(g).name == Tmp(g).name[..|Tmp(g).name| - |TMP_SUFFIX|];
    }
  }

  // ---- The workers ----

  /** What a file holds: something from before the run, an unfinished
      conversion, or a complete one. */
  datatype Content<F> = Before(id: nat) | Partial(input: nat) | Complete(file: F)

  /** The inputs of a run, and the file each one's conversion ends in, or None
      if it throws. */
  datatype Tree<F> = Tree(files: seq<Path>, results: seq<Option<F>>)
  {
    ghost predicate Valid() {
      && |results| == |files|
      && (forall i :: 0 <= i < |files| ==> IsInput(files[i]))
      && (forall i, j :: 0 <= i < j < |files| ==> files[i] != files[j])
    }
  }

  datatype Worker =
    | Fetch
    | Open(i: nat)
    | Convert(i: nat)
    | Remove(i: nat)
    | Rename(i: nat)
    | Report(i: nat)
    | CountFailure(i: nat)
    | Exited

  /** The input a worker has in hand. */
  function Busy(w: Worker): Option<nat> {
    match w
    case Fetch => None
    case Exited => None
    case Open(i) => Some(i)
    case Convert(i) => Some(i)
    case Remove(i) => Some(i)
    case Rename(i) => Some(i)
    case Report(i) => Some(i)
    case CountFailure(i) => Some(i)
  }

  /** `owner`, `ended` and `late` are history: which worker took each input, the
      inputs done with and whether as a success, and those that were in place
      when reporting them failed. */
  datatype State<F> = State(workers: seq<Worker>, next: nat, failed: nat, fs: map<Path, Content<F>>,
                            owner: map<nat, nat>, ended: map<nat, bool>, late: set<nat>)

  /** How a fallible step goes. For opening, an early failure is one before the
      temporary file is open. */
  datatype Event = Good | Bad | Early

  datatype Move = Move(worker: nat, event: Event)

  function Init<F>(jobs: nat, fs: map<Path, Content<F>>): State<F> {
    State(seq(jobs, _ => Fetch), 0, 0, fs, map[], map[], {})
  }

  /** Fetching adds one to the shared counter and takes its old value. */
  function FetchNext<F>(n: nat, s: State<F>, w: nat): State<F>
    requires w < |s.workers|
  {
    if s.next < n then
      s.(next := s.next + 1, owner := s.owner[s.next := w], workers := s.workers[w := Open(s.next)])
    else
      s.(next := s.next + 1, workers := s.workers[w := Exited])
  }

  /** The phase after the one a worker is in; `converts` says whether the
      conversion of its input returns. */
  function NextPhase(w: Worker, e: Event, converts: bool): Worker
    requires Busy(w).Some?
  {
    match w
    case Open(i) => if e.Good? then Convert(i) else if e.Bad? then Remove(i) else CountFailure(i)
    case Convert(i) => if converts then Rename(i) else Remove(i)
    case Remove(i) => CountFailure(i)
    case Rename(i) => if e.Good? then Report(i) else CountFailure(i)
    case Report(i) => if e.Good? then Fetch else CountFailure(i)
    case CountFailure(_) => Fetch
  }

  /** What a phase does to the files of its input: opening truncates the
      temporary file, converting completes it, removing deletes it unless that
      fails, and renaming moves it over the output. */
  function FilesAfter<F>(fs: map<Path, Content<F>>, file: Path, w: Worker, e: Event, result: Option<F>)
    : map<Path, Content<F>>
    requires IsInput(file) && Busy(w).Some?
  {
    match w
    case Open(i) => if e.Good? then fs[Tmp(file) := Partial(i)] else fs
    case Convert(i) => if result.Some? then fs[Tmp(file) := Complete(result.value)] else fs
    case Remove(_) => if e.Good? then fs - {Tmp(file)} else fs
    case Rename(_) => if e.Good? && Tmp(file) in fs then (fs - {Tmp(file)})[Out(file) := fs[Tmp(file)]] else fs
    case _ => fs
  }

  /** One step of one worker. */
  function Step<F>(t: Tree<F>, s: State<F>, m: Move): State<F>
    requires t.Valid()
  {
    if m.worker >= |s.workers| then s else
    var w := s.workers[m.worker];
    if w.Fetch? then FetchNext(|t.files|, s, m.worker) else
    if Busy(w).None? || Busy(w).value >= |t.files| then s else
    var i := Busy(w).value;
    var after := NextPhase(w, m.event, t.results[i].Some?);
    State(s.workers[m.worker := after],
          s.next,
          s.failed + (if w.CountFailure? then 1 else 0),
          FilesAfter(s.fs, t.files[i], w, m.event, t.results[i]),
          s.owner,
          if after.Fetch? then s.ended[i := w.Report?] else s.ended,
          if w.Report? && after.CountFailure? then s.late + {i} else s.late)
  }

  function Run<F>(t: Tree<F>, s: State<F>, moves: seq<Move>): State<F>
    requires t.Valid()
    decreases |moves|
  {
    if moves == [] then s else Run(t, Step(t, s, moves[0]), moves[1..])
  }

  // ---- What every interleaving keeps ----

  function Exits(ws: seq<Worker>): nat {
    if ws == [] then 0 else Exits(ws[1..]) + if ws[0].Exited? then 1 else 0
  }

  lemma {:induction false} ExitsUpdate(ws: seq<Worker>, w: nat, x: Worker)
    requires w < |ws|
    ensures Exits(ws[w := x]) == Exits(ws) + (if x.Exited? then 1 else 0) - (if ws[w].Exited? then 1 else 0)
  {
    if w == 0 {
      assert ws[w := x][1..] == ws[1..];
    } else {
      ExitsUpdate(ws[1..], w - 1, x);
      assert ws[w := x][1..] == ws[1..][w - 1 := x];
    }
  }

  function Failures(ended: map<nat, bool>): set<nat> {
    set i | i in ended && !ended[i]
  }

  /** Every input fetched has one worker; it is in that worker's hands until it
      is done with, and in no other's ever. */
  ghost predicate ClaimInv<F>(n: nat, s: State<F>) {
    && (forall i :: i in s.owner <==> 0 <= i < s.next && i < n)
    && (forall i :: i in s.ended ==> i in s.owner)
    && (forall w :: 0 <= w < |s.workers| && Busy(s.workers[w]).Some? ==>
          var i := Busy(s.workers[w]).value; i in s.owner && s.owner[i] == w && i !in s.ended)
    && (forall i :: i in s.owner && i !in s.ended ==>
          s.owner[i] < |s.workers| && Busy(s.workers[s.owner[i]]) == Some(i))
  }

  ghost predicate CountInv<F>(n: nat, s: State<F>) {
    && s.next == (if s.next < n then s.next else n) + Exits(s.workers)
    && s.failed == |Failures(s.ended)|
  }

  function Lookup<F>(fs: map<Path, Content<F>>, p: Path): Option<Content<F>> {
    if p in fs then Some(fs[p]) else None
  }

  /** The worker that has input `i` in hand, if one has. */
  function Phase<F>(s: State<F>, i: nat): Worker {
    if i in s.owner && i !in s.ended && s.owner[i] < |s.workers| then s.workers[s.owner[i]] else Fetch
  }

  /** The output of input `i` has been put in place. */
  predicate Placed<F>(s: State<F>, i: nat) {
    Phase(s, i) == Report(i) || i in s.late || (i in s.ended && s.ended[i])
  }

  /** An output holds its conversion if it was put in place and otherwise what it
      held before; a file about to be renamed is complete. */
  ghost predicate FileRight<F>(t: Tree<F>, fs0: map<Path, Content<F>>, s: State<F>, i: nat)
    requires t.Valid() && i < |t.files|
  {
    && (Placed(s, i) ==> t.results[i].Some?)
    && Lookup(s.fs, Out(t.files[i])) ==
       (if Placed(s, i) then Some(Complete(t.results[i].value)) else Lookup(fs0, Out(t.files[i])))
    && (Phase(s, i) == Rename(i) ==>
          t.results[i].Some? && Lookup(s.fs, Tmp(t.files[i])) == Some(Complete(t.results[i].value)))
    && (i in s.late ==> Phase(s, i) == CountFailure(i) || (i in s.ended && !s.ended[i]))
  }

  ghost predicate FileInv<F>(t: Tree<F>, fs0: map<Path, Content<F>>, s: State<F>)
    requires t.Valid()
  {
    forall i :: 0 <= i < |t.files| ==> FileRight(t, fs0, s, i)
  }

  lemma FetchKeepsClaims<F>(n: nat, s: State<F>, w: nat)
    requires w < |s.workers| && s.workers[w].Fetch? && ClaimInv(n, s)
    ensures ClaimInv(n, FetchNext(n, s, w))
  {
    var s' := FetchNext(n, s, w);
    forall v | 0 <= v < |s'.workers| && Busy(s'.workers[v]).Some?
      ensures var i := Busy(s'.workers[v]).value; i in s'.owner && s'.owner[i] == v && i !in s'.ended
    {
      assert v != w ==> s'.workers[v] == s.workers[v];
    }
    forall i | i in s'.owner && i !in s'.ended
      ensures s'.owner[i] < |s'.workers| && Busy(s'.workers[s'.owner[i]]) == Some(i)
    {
      assert i in s.owner || i == s.next;
    }
  }

  lemma PhaseKeepsClaims<F>(n: nat, s: State<F>, s': State<F>, w: nat, after: Worker)
    requires w < |s.workers| && Busy(s.workers[w]).Some? && ClaimInv(n, s)
    requires s'.workers == s.workers[w := after] && s'.next == s.next && s'.owner == s.owner
    requires if after.Fetch? then s'.ended.Keys == s.ended.Keys + {Busy(s.workers[w]).value}
             else Busy(after) == Busy(s.workers[w]) && s'.ended == s.ended
    ensures ClaimInv(n, s')
  {
  }

  lemma StepKeepsClaims<F>(t: Tree<F>, s: State<F>, m: Move)
    requires t.Valid() && ClaimInv(|t.files|, s)
    ensures ClaimInv(|t.files|, Step(t, s, m))
  {
    if m.worker < |s.workers| {
      var w := s.workers[m.worker];
      if w.Fetch? {
        FetchKeepsClaims(|t.files|, s, m.worker);
      } else if Busy(w).Some? {
        PhaseKeepsClaims(|t.files|, s, Step(t, s, m), m.worker,
                         NextPhase(w, m.event, t.results[Busy(w).value].Some?));
      }
    }
  }

  lemma FailuresAfter<F>(s: State<F>, i: nat, ok: bool)
    requires i !in s.ended
    ensures |Failures(s.ended[i := ok])| == |Failures(s.ended)| + if ok then 0 else 1
  {
    if ok {
      assert Failures(s.ended[i := ok]) == Failures(s.ended);
    } else {
      assert Failures(s.ended[i := ok]) == Failures(s.ended) + {i};
    }
  }

  lemma FetchKeepsCounts<F>(n: nat, s: State<F>, w: nat)
    requires w < |s.workers| && s.workers[w].Fetch? && CountInv(n, s)
    ensures CountInv(n, FetchNext(n, s, w))
  {
    ExitsUpdate(s.workers, w, FetchNext(n, s, w).workers[w]);
  }

  lemma PhaseKeepsCounts<F>(n: nat, s: State<F>, s': State<F>, w: nat, after: Worker, ok: bool)
    requires w < |s.workers| && Busy(s.workers[w]).Some? && !after.Exited? && CountInv(n, s)
    requires Busy(s.workers[w]).value !in s.ended
    requires s'.workers == s.workers[w := after] && s'.next == s.next
    requires s'.ended == if after.Fetch? then s.ended[Busy(s.workers[w]).value := ok] else s.ended
    requires s'.failed == s.failed + if after.Fetch? && !ok then 1 else 0
    ensures CountInv(n, s')
  {
    ExitsUpdate(s.workers, w, after);
    FailuresAfter(s, Busy(s.workers[w]).value, ok);
  }

  lemma StepKeepsCounts<F>(t: Tree<F>, s: State<F>, m: Move)
    requires t.Valid() && ClaimInv(|t.files|, s) && CountInv(|t.files|, s)
    ensures CountInv(|t.files|, Step(t, s, m))
  {
    if m.worker < |s.workers| {
      var w := s.workers[m.worker];
      if w.Fetch? {
        FetchKeepsCounts(|t.files|, s, m.worker);
      } else if Busy(w).Some? {
        PhaseKeepsCounts(|t.files|, s, Step(t, s, m), m.worker,
                         NextPhase(w, m.event, t.results[Busy(w).value].Some?), w.Report?);
      }
    }
  }

  /** A step on input `i` leaves the files of input `j` alone. */
  lemma OtherFiles<F>(t: Tree<F>, fs: map<Path, Content<F>>, i: nat, j: nat, w: Worker, e: Event)
    requires t.Valid() && i < |t.files| && j < |t.files| && i != j && Busy(w).Some?
    ensures var fs' := FilesAfter(fs, t.files[i], w, e, t.results[i]);
            && Lookup(fs', Out(t.files[j])) == Lookup(fs, Out(t.files[j]))
            && Lookup(fs', Tmp(t.files[j])) == Lookup(fs, Tmp(t.files[j]))
  {
    PathsDistinct(t.files[i], t.files[j]);
    PathsDistinct(t.files[j], t.files[i]);
  }

  /** And what it does to its own files. */
  lemma OwnFiles<F>(t: Tree<F>, fs: map<Path, Content<F>>, i: nat, w: Worker, e: Event)
    requires t.Valid() && i < |t.files| && Busy(w) == Some(i)
    requires w.Rename? ==> t.results[i].Some? && Lookup(fs, Tmp(t.files[i])) == Some(Complete(t.results[i].value))
    ensures var fs' := FilesAfter(fs, t.files[i], w, e, t.results[i]);
            && Lookup(fs', Out(t.files[i])) ==
               (if w.Rename? && e.Good? then Some(Complete(t.results[i].value)) else Lookup(fs, Out(t.files[i])))
            && (w.Convert? && t.results[i].Some? ==>
                  Lookup(fs', Tmp(t.files[i])) == Some(Complete(t.results[i].value)))
  {
    PathsDistinct(t.files[i], t.files[i]);
  }

  lemma FetchKeepsFile<F>(t: Tree<F>, fs0: map<Path, Content<F>>, s: State<F>, w: nat, j: nat)
    requires t.Valid() && ClaimInv(|t.files|, s) && j < |t.files| && w < |s.workers| && s.workers[w].Fetch?
    requires FileRight(t, fs0, s, j)
    ensures FileRight(t, fs0, FetchNext(|t.files|, s, w), j)
  {
    var s' := FetchNext(|t.files|, s, w);
    assert Phase(s', j) == Phase(s, j) || (Phase(s, j) == Fetch && Phase(s', j) == Open(j));
  }

  lemma OwnPhaseKeepsFile<F>(t: Tree<F>, fs0: map<Path, Content<F>>, s: State<F>, m: Move, j: nat)
    requires t.Valid() && j < |t.files| && m.worker < |s.workers| && Busy(s.workers[m.worker]) == Some(j)
    requires j in s.owner && s.owner[j] == m.worker && j !in s.ended
    requires FileRight(t, fs0, s, j)
    ensures FileRight(t, fs0, Step(t, s, m), j)
  {
    assert Phase(s, j) == s.workers[m.worker];
    OwnFiles(t, s.fs, j, s.workers[m.worker], m.event);
  }

  lemma OtherPhaseKeepsFile<F>(t: Tree<F>, fs0: map<Path, Content<F>>, s: State<F>, m: Move, i: nat, j: nat)
    requires t.Valid() && i < |t.files| && j < |t.files| && i != j && ClaimInv(|t.files|, s)
    requires m.worker < |s.workers| && Busy(s.workers[m.worker]) == Some(i)
    requires FileRight(t, fs0, s, j)
    ensures FileRight(t, fs0, Step(t, s, m), j)
  {
    OtherFiles(t, s.fs, i, j, s.workers[m.worker], m.event);
    assert Phase(Step(t, s, m), j) == Phase(s, j);
  }

  lemma FileKept<F>(t: Tree<F>, fs0: map<Path, Content<F>>, s: State<F>, m: Move, j: nat)
    requires t.Valid() && ClaimInv(|t.files|, s) && j < |t.files| && m.worker < |s.workers|
    requires FileRight(t, fs0, s, j)
    ensures FileRight(t, fs0, Step(t, s, m), j)
  {
    var w := s.workers[m.worker];
    if w.Fetch? {
      FetchKeepsFile(t, fs0, s, m.worker, j);
    } else if Busy(w) == Some(j) {
      OwnPhaseKeepsFile(t, fs0, s, m, j);
    } else if Busy(w).Some? && Busy(w).value < |t.files| {
      OtherPhaseKeepsFile(t, fs0, s, m, Busy(w).value, j);
    }
  }

  lemma StepKeepsFiles<F>(t: Tree<F>, fs0: map<Path, Content<F>>, s: State<F>, m: Move)
    requires t.Valid() && ClaimInv(|t.files|, s) && FileInv(t, fs0, s)
    ensures FileInv(t, fs0, Step(t, s, m))
  {
    if m.worker < |s.workers| {
      forall j | 0 <= j < |t.files|
        ensures FileRight(t, fs0, Step(t, s, m), j)
      {
        FileKept(t, fs0, s, m, j);
      }
    }
  }

  ghost predicate Inv<F>(t: Tree<F>, fs0: map<Path, Content<F>>, jobs: nat, s: State<F>)
    requires t.Valid()
  {
    |s.workers| == jobs && ClaimInv(|t.files|, s) && CountInv(|t.files|, s) && FileInv(t, fs0, s)
  }

  lemma {:induction false} RunKeepsInv<F>(t: Tree<F>, fs0: map<Path, Content<F>>, jobs: nat, s: State<F>, moves: seq<Move>)
    requires t.Valid() && Inv(t, fs0, jobs, s)
    ensures Inv(t, fs0, jobs, Run(t, s, moves))
    decreases |moves|
  {
    if moves != [] {
      StepKeepsClaims(t, s, moves[0]);
      StepKeepsCounts(t, s, moves[0]);
      StepKeepsFiles(t, fs0, s, moves[0]);
      RunKeepsInv(t, fs0, jobs, Step(t, s, moves[0]), moves[1..]);
    }
  }

  lemma {:induction false} NoExits(jobs: nat)
    ensures Exits(seq(jobs, _ => Fetch)) == 0
  {
    if jobs > 0 {
      NoExits(jobs - 1);
      assert seq(jobs, _ => Fetch)[1..] == seq(jobs - 1, _ => Fetch);
    }
  }

  lemma Reached<F>(t: Tree<F>, fs0: map<Path, Content<F>>, jobs: nat, moves: seq<Move>)
    requires t.Valid()
    ensures Inv(t, fs0, jobs, Run(t, Init(jobs, fs0), moves))
  {
    NoExits(jobs);
    assert Failures(map[]) == {};
    RunKeepsInv(t, fs0, jobs, Init(jobs, fs0), moves);
  }

  // ---- The promises of a conversion run ----

  /** At every step of every interleaving each output is what it was before, or
      absent as before, or the complete conversion of its own input. */
  lemma OutputsAlwaysWhole<F>(t: Tree<F>, fs0: map<Path, Content<F>>, jobs: nat, moves: seq<Move>, i: nat)
    requires t.Valid() && i < |t.files|
    ensures var now := Lookup(Run(t, Init(jobs, fs0), moves).fs, Out(t.files[i]));
            now == Lookup(fs0, Out(t.files[i])) || (t.results[i].Some? && now == Some(Complete(t.results[i].value)))
  {
    Reached(t, fs0, jobs, moves);
    assert FileRight(t, fs0, Run(t, Init(jobs, fs0), moves), i);
  }

  /** An input done with has its new output exactly if it ended as a success or
      only its report failed; otherwise its output is untouched. */
  lemma NewOutputIff<F>(t: Tree<F>, fs0: map<Path, Content<F>>, jobs: nat, moves: seq<Move>, i: nat)
    requires t.Valid() && i < |t.files|
    ensures var s := Run(t, Init(jobs, fs0), moves);
            i in s.ended ==>
              if s.ended[i] || i in s.late then
                t.results[i].Some? && Lookup(s.fs, Out(t.files[i])) == Some(Complete(t.results[i].value))
              else
                Lookup(s.fs, Out(t.files[i])) == Lookup(fs0, Out(t.files[i]))
  {
    Reached(t, fs0, jobs, moves);
    assert FileRight(t, fs0, Run(t, Init(jobs, fs0), moves), i);
  }

  lemma {:induction false} OwnersStay<F>(t: Tree<F>, s: State<F>, moves: seq<Move>, i: nat)
    requires t.Valid() && ClaimInv(|t.files|, s) && i in s.owner
    ensures i in Run(t, s, moves).owner && Run(t, s, moves).owner[i] == s.owner[i]
    decreases |moves|
  {
    if moves != [] {
      StepKeepsClaims(t, s, moves[0]);
      StepKeepsOwner(t, s, moves[0], i);
      OwnersStay(t, Step(t, s, moves[0]), moves[1..], i);
    }
  }

  lemma StepKeepsOwner<F>(t: Tree<F>, s: State<F>, m: Move, i: nat)
    requires t.Valid() && ClaimInv(|t.files|, s) && i in s.owner
    ensures i in Step(t, s, m).owner && Step(t, s, m).owner[i] == s.owner[i]
  {
  }

  ghost predicate AllExited<F>(s: State<F>) {
    forall w :: 0 <= w < |s.workers| ==> s.workers[w].Exited?
  }

  lemma {:induction false} CountExits(ws: seq<Worker>)
    requires forall w :: 0 <= w < |ws| ==> ws[w].Exited?
    ensures Exits(ws) == |ws|
  {
    if ws != [] {
      CountExits(ws[1..]);
    }
  }

  /** When the workers are done, every input was taken by one of them and done
      with, the counter stands at the inputs plus the workers, the failures are
      counted, and every success has its output. */
  lemma EveryInputOnce<F>(t: Tree<F>, fs0: map<Path, Content<F>>, jobs: nat, moves: seq<Move>)
    requires t.Valid() && jobs > 0
    requires AllExited(Run(t, Init(jobs, fs0), moves))
    ensures var s := Run(t, Init(jobs, fs0), moves);
            && (forall i :: i in s.ended <==> 0 <= i < |t.files|)
            && s.next == |t.files| + jobs
            && s.failed == |Failures(s.ended)|
            && (forall i :: 0 <= i < |t.files| && s.ended[i] ==>
                  t.results[i].Some? && Lookup(s.fs, Out(t.files[i])) == Some(Complete(t.results[i].value)))
  {
    Reached(t, fs0, jobs, moves);
    var s := Run(t, Init(jobs, fs0), moves);
    CountExits(s.workers);
    forall i | 0 <= i < |t.files|
      ensures i in s.ended
    {
      assert i in s.owner;
      assert s.owner[i] < |s.workers| ==> s.workers[s.owner[i]].Exited?;
    }
    forall i | 0 <= i < |t.files| && s.ended[i]
      ensures t.results[i].Some? && Lookup(s.fs, Out(t.files[i])) == Some(Complete(t.results[i].value))
    {
      NewOutputIff(t, fs0, jobs, moves, i);
    }
  }

  // ---- When an input ends as a success, and what is left of it ----

  /** The move takes a step of input `i` that does not go well. */
  predicate GoesBadly<F>(s: State<F>, m: Move, i: nat) {
    m.worker < |s.workers| && Busy(s.workers[m.worker]) == Some(i) && !m.event.Good?
  }

  /** It is one of the three steps that decide: opening the temporary file,
      renaming it, and reporting. */
  predicate Breaks<F>(s: State<F>, m: Move, i: nat) {
    && GoesBadly(s, m, i)
    && (s.workers[m.worker].Open? || s.workers[m.worker].Rename? || s.workers[m.worker].Report?)
  }

  /** Opening, renaming or reporting input `i` went wrong in the run. */
  predicate Broke<F>(t: Tree<F>, s: State<F>, moves: seq<Move>, i: nat)
    requires t.Valid()
    decreases |moves|
  {
    moves != [] && (Breaks(s, moves[0], i) || Broke(t, Step(t, s, moves[0]), moves[1..], i))
  }

  /** It is one of those that can leave a temporary file: a failure before the
      file is open, which may find one there, or of removing or renaming it. */
  predicate Litters<F>(s: State<F>, m: Move, i: nat) {
    && GoesBadly(s, m, i)
    && match s.workers[m.worker]
       case Open(_) => m.event.Early?
       case Remove(_) => true
       case Rename(_) => true
       case _ => false
  }

  predicate Littered<F>(t: Tree<F>, s: State<F>, moves: seq<Move>, i: nat)
    requires t.Valid()
    decreases |moves|
  {
    moves != [] && (Litters(s, moves[0], i) || Littered(t, Step(t, s, moves[0]), moves[1..], i))
  }

  /** Where an input stands, given whether one of its deciding steps broke. */
  ghost predicate Stands<F>(t: Tree<F>, s: State<F>, i: nat, broke: bool)
    requires t.Valid() && i < |t.files|
  {
    if i in s.ended then s.ended[i] <==> t.results[i].Some? && !broke else
    match Phase(s, i)
    case Rename(_) => !broke && t.results[i].Some?
    case Report(_) => !broke && t.results[i].Some?
    case Remove(_) => broke || t.results[i].None?
    case CountFailure(_) => broke || t.results[i].None?
    case _ => !broke
  }

  lemma OwnStepKeepsStanding<F>(t: Tree<F>, s: State<F>, m: Move, i: nat, broke: bool)
    requires t.Valid() && i < |t.files| && ClaimInv(|t.files|, s) && Stands(t, s, i, broke)
    requires m.worker < |s.workers| && Busy(s.workers[m.worker]) == Some(i)
    ensures Stands(t, Step(t, s, m), i, broke || Breaks(s, m, i))
  {
    assert Phase(s, i) == s.workers[m.worker];
  }

  lemma FetchKeepsStanding<F>(t: Tree<F>, s: State<F>, m: Move, i: nat, broke: bool)
    requires t.Valid() && i < |t.files| && ClaimInv(|t.files|, s) && i !in s.owner && Stands(t, s, i, broke)
    requires m.worker < |s.workers| && Busy(s.workers[m.worker]) != Some(i)
    ensures Stands(t, Step(t, s, m), i, broke)
  {
  }

  lemma StepKeepsStanding<F>(t: Tree<F>, s: State<F>, m: Move, i: nat, broke: bool)
    requires t.Valid() && i < |t.files| && ClaimInv(|t.files|, s) && Stands(t, s, i, broke)
    ensures Stands(t, Step(t, s, m), i, broke || Breaks(s, m, i))
  {
    if m.worker < |s.workers| {
      if Busy(s.workers[m.worker]) == Some(i) {
        OwnStepKeepsStanding(t, s, m, i, broke);
      } else if i in s.owner {
        OtherStepKeepsPhase(t, s, m, i);
        if i in s.ended {
          OthersEnd(t, s, m, i);
        }
      } else {
        FetchKeepsStanding(t, s, m, i, broke);
      }
    }
  }

  lemma OthersEnd<F>(t: Tree<F>, s: State<F>, m: Move, i: nat)
    requires t.Valid() && i < |t.files| && i in s.ended
    requires m.worker < |s.workers| && Busy(s.workers[m.worker]) != Some(i)
    ensures i in Step(t, s, m).ended && Step(t, s, m).ended[i] == s.ended[i]
  {
  }

  lemma {:induction false} RunKeepsStanding<F>(t: Tree<F>, s: State<F>, moves: seq<Move>, i: nat, broke: bool)
    requires t.Valid() && i < |t.files| && ClaimInv(|t.files|, s) && Stands(t, s, i, broke)
    ensures Stands(t, Run(t, s, moves), i, broke || Broke(t, s, moves, i))
    decreases |moves|
  {
    if moves != [] {
      StepKeepsStanding(t, s, moves[0], i, broke);
      StepKeepsClaims(t, s, moves[0]);
      RunKeepsStanding(t, Step(t, s, moves[0]), moves[1..], i, broke || Breaks(s, moves[0], i));
    }
  }

  /** An input done with ended as a success exactly if its conversion returned
      and opening, renaming and reporting all went well. */
  lemma SuccessIff<F>(t: Tree<F>, fs0: map<Path, Content<F>>, jobs: nat, moves: seq<Move>, i: nat)
    requires t.Valid() && i < |t.files|
    ensures var s := Run(t, Init(jobs, fs0), moves);
            i in s.ended ==>
              (s.ended[i] <==> t.results[i].Some? && !Broke(t, Init(jobs, fs0), moves, i))
  {
    Reached(t, fs0, jobs, []);
    RunKeepsStanding(t, Init(jobs, fs0), moves, i, false);
  }

  /** The inputs that cannot end as a success. */
  function Failing<F>(t: Tree<F>, s: State<F>, moves: seq<Move>): set<nat>
    requires t.Valid()
  {
    set i | 0 <= i < |t.files| && (t.results[i].None? || Broke(t, s, moves, i))
  }

  /** When the workers are done, the failures counted are these inputs. */
  lemma FailedIsFailing<F>(t: Tree<F>, fs0: map<Path, Content<F>>, jobs: nat, moves: seq<Move>)
    requires t.Valid() && jobs > 0
    requires AllExited(Run(t, Init(jobs, fs0), moves))
    ensures Run(t, Init(jobs, fs0), moves).failed == |Failing(t, Init(jobs, fs0), moves)|
  {
    var s := Run(t, Init(jobs, fs0), moves);
    EveryInputOnce(t, fs0, jobs, moves);
    forall i | 0 <= i < |t.files|
      ensures i in Failures(s.ended) <==> i in Failing(t, Init(jobs, fs0), moves)
    {
      SuccessIff(t, fs0, jobs, moves, i);
    }
    assert Failures(s.ended) == Failing(t, Init(jobs, fs0), moves);
  }

  /** While no step litters, the temporary file of an input is there only from
      opening to renaming or removing it. */
  ghost predicate Tidy<F>(t: Tree<F>, s: State<F>, i: nat)
    requires t.Valid() && i < |t.files|
  {
    && (i in s.ended || Phase(s, i).Report? || Phase(s, i).CountFailure? ==> Tmp(t.files[i]) !in s.fs)
    && (Phase(s, i).Rename? || Phase(s, i).Convert? ==> Tmp(t.files[i]) in s.fs)
  }

  lemma OwnStepKeepsTidy<F>(t: Tree<F>, s: State<F>, m: Move, i: nat)
    requires t.Valid() && i < |t.files| && ClaimInv(|t.files|, s) && Tidy(t, s, i) && !Litters(s, m, i)
    requires m.worker < |s.workers| && Busy(s.workers[m.worker]) == Some(i)
    ensures Tidy(t, Step(t, s, m), i)
  {
    assert Phase(s, i) == s.workers[m.worker];
    PathsDistinct(t.files[i], t.files[i]);
  }

  lemma FetchKeepsTidy<F>(t: Tree<F>, s: State<F>, m: Move, i: nat)
    requires t.Valid() && i < |t.files| && ClaimInv(|t.files|, s) && i !in s.owner
    requires m.worker < |s.workers| && Busy(s.workers[m.worker]) != Some(i)
    ensures Tidy(t, Step(t, s, m), i)
  {
  }

  lemma StepKeepsTidy<F>(t: Tree<F>, s: State<F>, m: Move, i: nat)
    requires t.Valid() && i < |t.files| && ClaimInv(|t.files|, s) && Tidy(t, s, i) && !Litters(s, m, i)
    ensures Tidy(t, Step(t, s, m), i)
  {
    if m.worker < |s.workers| {
      if Busy(s.workers[m.worker]) == Some(i) {
        OwnStepKeepsTidy(t, s, m, i);
      } else if i in s.owner {
        OtherStepKeepsPhase(t, s, m, i);
        assert SameFiles(t, s.fs, Step(t, s, m).fs, i);
      } else {
        FetchKeepsTidy(t, s, m, i);
      }
    }
  }

  lemma {:induction false} RunKeepsTidy<F>(t: Tree<F>, s: State<F>, moves: seq<Move>, i: nat)
    requires t.Valid() && i < |t.files| && ClaimInv(|t.files|, s) && Tidy(t, s, i) && !Littered(t, s, moves, i)
    ensures Tidy(t, Run(t, s, moves), i)
    decreases |moves|
  {
    if moves != [] {
      StepKeepsTidy(t, s, moves[0], i);
      StepKeepsClaims(t, s, moves[0]);
      RunKeepsTidy(t, Step(t, s, moves[0]), moves[1..], i);
    }
  }

  /** An input done with leaves no temporary file, also when opening it failed
      half way or its conversion threw, unless one of those three steps failed. */
  lemma NoTemporaryFileLeft<F>(t: Tree<F>, fs0: map<Path, Content<F>>, jobs: nat, moves: seq<Move>, i: nat)
    requires t.Valid() && i < |t.files| && !Littered(t, Init(jobs, fs0), moves, i)
    ensures var s := Run(t, Init(jobs, fs0), moves);
            i in s.ended ==> Tmp(t.files[i]) !in s.fs
  {
    Reached(t, fs0, jobs, []);
    RunKeepsTidy(t, Init(jobs, fs0), moves, i);
  }

  // ---- What the steps that decide leave behind, whatever happens after ----

  /** Input `i` is past every step that touches its files. */
  predicate Settled<F>(s: State<F>, i: nat) {
    i in s.ended || Phase(s, i).Report? || Phase(s, i).CountFailure?
  }

  ghost predicate SameFiles<F>(t: Tree<F>, fs: map<Path, Content<F>>, fs': map<Path, Content<F>>, i: nat)
    requires t.Valid() && i < |t.files|
  {
    Lookup(fs', Tmp(t.files[i])) == Lookup(fs, Tmp(t.files[i])) && Lookup(fs', Out(t.files[i])) == Lookup(fs, Out(t.files[i]))
  }

  lemma OwnStepKeepsSettled<F>(t: Tree<F>, s: State<F>, m: Move, i: nat)
    requires t.Valid() && i < |t.files| && ClaimInv(|t.files|, s) && Settled(s, i)
    requires m.worker < |s.workers| && Busy(s.workers[m.worker]) == Some(i)
    ensures Settled(Step(t, s, m), i) && Step(t, s, m).fs == s.fs
  {
    assert Phase(s, i) == s.workers[m.worker];
  }

  lemma OtherStepKeepsPhase<F>(t: Tree<F>, s: State<F>, m: Move, i: nat)
    requires t.Valid() && i < |t.files| && ClaimInv(|t.files|, s) && i in s.owner
    requires m.worker < |s.workers| && Busy(s.workers[m.worker]) != Some(i)
    ensures Phase(Step(t, s, m), i) == Phase(s, i) && (i in Step(t, s, m).ended <==> i in s.ended)
    ensures SameFiles(t, s.fs, Step(t, s, m).fs, i)
  {
    var w := s.workers[m.worker];
    if Busy(w).Some? {
      OtherFiles(t, s.fs, Busy(w).value, i, w, m.event);
    }
  }

  lemma StepKeepsSettled<F>(t: Tree<F>, s: State<F>, m: Move, i: nat)
    requires t.Valid() && i < |t.files| && ClaimInv(|t.files|, s) && Settled(s, i)
    ensures Settled(Step(t, s, m), i) && SameFiles(t, s.fs, Step(t, s, m).fs, i)
  {
    if m.worker < |s.workers| {
      if Busy(s.workers[m.worker]) == Some(i) {
        OwnStepKeepsSettled(t, s, m, i);
      } else {
        assert i in s.owner;
        OtherStepKeepsPhase(t, s, m, i);
      }
    }
  }

  lemma {:induction false} RunKeepsSettled<F>(t: Tree<F>, s: State<F>, moves: seq<Move>, i: nat)
    requires t.Valid() && i < |t.files| && ClaimInv(|t.files|, s) && Settled(s, i)
    ensures SameFiles(t, s.fs, Run(t, s, moves).fs, i)
    decreases |moves|
  {
    if moves != [] {
      StepKeepsSettled(t, s, moves[0], i);
      StepKeepsClaims(t, s, moves[0]);
      RunKeepsSettled(t, Step(t, s, moves[0]), moves[1..], i);
    }
  }

  /** The move is the step of input `i` in this phase. */
  predicate IsStep<F>(s: State<F>, m: Move, phase: Worker) {
    m.worker < |s.workers| && s.workers[m.worker] == phase
  }

  lemma SettledByStep<F>(t: Tree<F>, fs0: map<Path, Content<F>>, jobs: nat, before: seq<Move>, m: Move, after: seq<Move>, i: nat)
    requires t.Valid() && i < |t.files|
    requires var s := Run(t, Init(jobs, fs0), before);
             (IsStep(s, m, Rename(i)) || IsStep(s, m, Remove(i)) || IsStep(s, m, Open(i))) && Settled(Step(t, s, m), i)
    ensures SameFiles(t, Step(t, Run(t, Init(jobs, fs0), before), m).fs, Run(t, Init(jobs, fs0), before + [m] + after).fs, i)
  {
    var s := Run(t, Init(jobs, fs0), before);
    Reached(t, fs0, jobs, before);
    StepKeepsClaims(t, s, m);
    RunKeepsSettled(t, Step(t, s, m), after, i);
    RunJoin(t, Init(jobs, fs0), before, [m] + after);
    RunOne(t, s, m, after);
    assert before + [m] + after == before + ([m] + after);
  }

  /** A rename that fails leaves the complete file under its temporary name, and
      the output as it was. */
  lemma FailedRenameKeepsBoth<F>(t: Tree<F>, fs0: map<Path, Content<F>>, jobs: nat, before: seq<Move>, m: Move,
                                 after: seq<Move>, i: nat)
    requires t.Valid() && i < |t.files| && !m.event.Good?
    requires IsStep(Run(t, Init(jobs, fs0), before), m, Rename(i))
    ensures var fs := Run(t, Init(jobs, fs0), before + [m] + after).fs;
            && t.results[i].Some? && Lookup(fs, Tmp(t.files[i])) == Some(Complete(t.results[i].value))
            && Lookup(fs, Out(t.files[i])) == Lookup(fs0, Out(t.files[i]))
  {
    var s := Run(t, Init(jobs, fs0), before);
    Reached(t, fs0, jobs, before);
    assert Phase(s, i) == Rename(i) && FileRight(t, fs0, s, i);
    SettledByStep(t, fs0, jobs, before, m, after, i);
  }

  /** A conversion that threw and whose file could be removed leaves none, and
      the output as it was. */
  lemma RemovedIsGone<F>(t: Tree<F>, fs0: map<Path, Content<F>>, jobs: nat, before: seq<Move>, m: Move,
                         after: seq<Move>, i: nat)
    requires t.Valid() && i < |t.files| && m.event.Good?
    requires IsStep(Run(t, Init(jobs, fs0), before), m, Remove(i))
    ensures var fs := Run(t, Init(jobs, fs0), before + [m] + after).fs;
            Tmp(t.files[i]) !in fs && Lookup(fs, Out(t.files[i])) == Lookup(fs0, Out(t.files[i]))
  {
    var s := Run(t, Init(jobs, fs0), before);
    Reached(t, fs0, jobs, before);
    assert Phase(s, i) == Remove(i) && FileRight(t, fs0, s, i);
    PathsDistinct(t.files[i], t.files[i]);
    SettledByStep(t, fs0, jobs, before, m, after, i);
  }

  /** Before input `i` is opened its temporary file is as before the run. */
  ghost predicate Unopened<F>(t: Tree<F>, fs0: map<Path, Content<F>>, s: State<F>, i: nat)
    requires t.Valid() && i < |t.files|
  {
    i !in s.owner || Phase(s, i) == Open(i) ==> Lookup(s.fs, Tmp(t.files[i])) == Lookup(fs0, Tmp(t.files[i]))
  }

  lemma StepKeepsUnopened<F>(t: Tree<F>, fs0: map<Path, Content<F>>, s: State<F>, m: Move, i: nat)
    requires t.Valid() && i < |t.files| && ClaimInv(|t.files|, s) && Unopened(t, fs0, s, i)
    ensures Unopened(t, fs0, Step(t, s, m), i)
  {
    if m.worker < |s.workers| && Busy(s.workers[m.worker]).Some? && Busy(s.workers[m.worker]) != Some(i) {
      var w := s.workers[m.worker];
      OtherFiles(t, s.fs, Busy(w).value, i, w, m.event);
      assert Phase(Step(t, s, m), i) == Phase(s, i);
    }
  }

  lemma {:induction false} RunKeepsUnopened<F>(t: Tree<F>, fs0: map<Path, Content<F>>, s: State<F>, moves: seq<Move>, i: nat)
    requires t.Valid() && i < |t.files| && ClaimInv(|t.files|, s) && Unopened(t, fs0, s, i)
    ensures Unopened(t, fs0, Run(t, s, moves), i)
    decreases |moves|
  {
    if moves != [] {
      StepKeepsUnopened(t, fs0, s, moves[0], i);
      StepKeepsClaims(t, s, moves[0]);
      RunKeepsUnopened(t, fs0, Step(t, s, moves[0]), moves[1..], i);
    }
  }

  /** A conversion that fails before its file is open touches nothing, and a
      temporary file from an earlier run stays. */
  lemma EarlyFailureTouchesNothing<F>(t: Tree<F>, fs0: map<Path, Content<F>>, jobs: nat, before: seq<Move>, m: Move,
                                      after: seq<Move>, i: nat)
    requires t.Valid() && i < |t.files| && m.event.Early?
    requires IsStep(Run(t, Init(jobs, fs0), before), m, Open(i))
    ensures SameFiles(t, fs0, Run(t, Init(jobs, fs0), before + [m] + after).fs, i)
  {
    var s := Run(t, Init(jobs, fs0), before);
    Reached(t, fs0, jobs, before);
    Reached(t, fs0, jobs, []);
    assert Phase(s, i) == Open(i) && FileRight(t, fs0, s, i);
    RunKeepsUnopened(t, fs0, Init(jobs, fs0), before, i);
    SettledByStep(t, fs0, jobs, before, m, after, i);
  }

  predicate AllGood(moves: seq<Move>) {
    forall k :: 0 <= k < |moves| ==> moves[k].event.Good?
  }

  lemma {:induction false} GoodDoesNotBreak<F>(t: Tree<F>, s: State<F>, moves: seq<Move>, i: nat)
    requires t.Valid() && AllGood(moves)
    ensures !Broke(t, s, moves, i) && !Littered(t, s, moves, i)
    decreases |moves|
  {
    if moves != [] {
      assert forall k :: 0 <= k < |moves[1..]| ==> moves[1..][k] == moves[k + 1];
      GoodDoesNotBreak(t, Step(t, s, moves[0]), moves[1..], i);
    }
  }

  function Throwing<F>(results: seq<Option<F>>): set<nat> {
    set i | 0 <= i < |results| && results[i].None?
  }

  /** When the file system never fails, a run of all workers counts exactly the
      conversions that throw; the other inputs have their new output, those that
      throw keep the old one, and no temporary file is left. */
  lemma GoodRun<F>(t: Tree<F>, fs0: map<Path, Content<F>>, jobs: nat, moves: seq<Move>)
    requires t.Valid() && jobs > 0 && AllGood(moves)
    requires AllExited(Run(t, Init(jobs, fs0), moves))
    ensures var s := Run(t, Init(jobs, fs0), moves);
            && s.failed == |Throwing(t.results)|
            && forall i :: 0 <= i < |t.files| ==>
                 && i in s.ended && (s.ended[i] <==> t.results[i].Some?)
                 && Lookup(s.fs, Out(t.files[i])) ==
                    (if t.results[i].Some? then Some(Complete(t.results[i].value)) else Lookup(fs0, Out(t.files[i])))
                 && Tmp(t.files[i]) !in s.fs
  {
    var s := Run(t, Init(jobs, fs0), moves);
    EveryInputOnce(t, fs0, jobs, moves);
    forall i | 0 <= i < |t.files|
      ensures && (s.ended[i] <==> t.results[i].Some?)
              && Lookup(s.fs, Out(t.files[i])) ==
                 (if t.results[i].Some? then Some(Complete(t.results[i].value)) else Lookup(fs0, Out(t.files[i])))
              && Tmp(t.files[i]) !in s.fs
    {
      GoodDoesNotBreak(t, Init(jobs, fs0), moves, i);
      SuccessIff(t, fs0, jobs, moves, i);
      NewOutputIff(t, fs0, jobs, moves, i);
      NoTemporaryFileLeft(t, fs0, jobs, moves, i);
    }
    assert Failures(s.ended) == Throwing(t.results);
  }

  // ---- The workers come to an end ----

  function Rank(w: Worker): nat {
    match w
    case Exited => 0
    case Fetch => 1
    case CountFailure(_) => 2
    case Report(_) => 3
    case Remove(_) => 3
    case Rename(_) => 4
    case Convert(_) => 5
    case Open(_) => 6
  }

  function Ranks(ws: seq<Worker>): nat {
    if ws == [] then 0 else Ranks(ws[1..]) + Rank(ws[0])
  }

  lemma {:induction false} RanksUpdate(ws: seq<Worker>, w: nat, x: Worker)
    requires w < |ws|
    ensures Ranks(ws[w := x]) == Ranks(ws) + Rank(x) - Rank(ws[w])
  {
    if w == 0 {
      assert ws[w := x][1..] == ws[1..];
    } else {
      RanksUpdate(ws[1..], w - 1, x);
      assert ws[w := x][1..] == ws[1..][w - 1 := x];
    }
  }

  /** A bound on the steps left: six for each input not fetched yet, and those
      of the inputs in hand. */
  function Work<F>(n: nat, s: State<F>): nat {
    6 * (if s.next < n then n - s.next else 0) + Ranks(s.workers)
  }

  /** Every step of a worker that has not exited reduces the work left, however
      the step goes; a worker that has exited takes no step. */
  lemma StepReducesWork<F>(t: Tree<F>, s: State<F>, m: Move)
    requires t.Valid() && ClaimInv(|t.files|, s)
    ensures if m.worker < |s.workers| && !s.workers[m.worker].Exited?
            then Work(|t.files|, Step(t, s, m)) < Work(|t.files|, s)
            else Step(t, s, m) == s
  {
    if m.worker < |s.workers| && !s.workers[m.worker].Exited? {
      RanksUpdate(s.workers, m.worker, Step(t, s, m).workers[m.worker]);
    }
  }

  ghost predicate Runs(w: nat, moves: seq<Move>) {
    exists k :: 0 <= k < |moves| && moves[k].worker == w
  }

  /** A stretch of the schedule in which every worker runs at least once. */
  ghost predicate Fair(jobs: nat, moves: seq<Move>) {
    forall w :: 0 <= w < jobs ==> Runs(w, moves)
  }

  lemma {:induction false} RunReducesWork<F>(t: Tree<F>, s: State<F>, moves: seq<Move>)
    requires t.Valid() && ClaimInv(|t.files|, s)
    ensures var s' := Run(t, s, moves);
            && ClaimInv(|t.files|, s') && |s'.workers| == |s.workers|
            && Work(|t.files|, s') <= Work(|t.files|, s)
            && (Work(|t.files|, s') == Work(|t.files|, s) ==>
                  s' == s && forall k :: 0 <= k < |moves| && moves[k].worker < |s.workers| ==> s.workers[moves[k].worker].Exited?)
    decreases |moves|
  {
    if moves != [] {
      StepReducesWork(t, s, moves[0]);
      StepKeepsClaims(t, s, moves[0]);
      RunReducesWork(t, Step(t, s, moves[0]), moves[1..]);
      assert forall k :: 0 < k < |moves| ==> moves[k] == moves[1..][k - 1];
    }
  }

  lemma FairReducesWork<F>(t: Tree<F>, s: State<F>, moves: seq<Move>)
    requires t.Valid() && ClaimInv(|t.files|, s) && Fair(|s.workers|, moves) && !AllExited(s)
    ensures Work(|t.files|, Run(t, s, moves)) < Work(|t.files|, s)
  {
    RunReducesWork(t, s, moves);
    var w :| 0 <= w < |s.workers| && !s.workers[w].Exited?;
    assert Runs(w, moves);
  }

  lemma {:induction false} RunJoin<F>(t: Tree<F>, s: State<F>, a: seq<Move>, b: seq<Move>)
    requires t.Valid()
    ensures Run(t, s, a + b) == Run(t, Run(t, s, a), b)
    decreases |a|
  {
    if a == [] {
      assert a + b == b;
    } else {
      assert (a + b)[1..] == a[1..] + b;
      RunJoin(t, Step(t, s, a[0]), a[1..], b);
    }
  }

  lemma {:induction false} ExitedStay<F>(t: Tree<F>, s: State<F>, moves: seq<Move>)
    requires t.Valid() && AllExited(s)
    ensures Run(t, s, moves) == s
    decreases |moves|
  {
    if moves != [] {
      ExitedStay(t, s, moves[1..]);
    }
  }

  lemma {:induction false} FairFrom<F>(t: Tree<F>, s: State<F>, rounds: seq<seq<Move>>)
    requires t.Valid() && ClaimInv(|t.files|, s)
    requires forall r :: r in rounds ==> Fair(|s.workers|, r)
    requires |rounds| >= Work(|t.files|, s)
    ensures AllExited(Run(t, s, Concat(rounds)))
    decreases |rounds|
  {
    if AllExited(s) {
      ExitedStay(t, s, Concat(rounds));
    } else if rounds == [] {
      FairReducesWork(t, s, RoundRobin(|s.workers|));
    } else {
      FairReducesWork(t, s, rounds[0]);
      RunReducesWork(t, s, rounds[0]);
      RunJoin(t, s, rounds[0], Concat(rounds[1..]));
      FairFrom(t, Run(t, s, rounds[0]), rounds[1..]);
    }
  }

  function RoundRobin(jobs: nat): (moves: seq<Move>)
    ensures Fair(jobs, moves)
  {
    var moves := seq(jobs, w requires 0 <= w < jobs => Move(w, Good));
    assert forall w :: 0 <= w < jobs ==> moves[w].worker == w && Runs(w, moves);
    moves
  }

  lemma {:induction false} FreshRanks(jobs: nat)
    ensures Ranks(seq(jobs, _ => Fetch)) == jobs
  {
    if jobs > 0 {
      FreshRanks(jobs - 1);
      assert seq(jobs, _ => Fetch)[1..] == seq(jobs - 1, _ => Fetch);
    }
  }

  /** However its steps go, any schedule that keeps running all the workers comes
      to its end, in rounds linear in the inputs: every input has been done with
      once, each success has its output, and the failures are counted. */
  lemma FairRunsEnd<F>(t: Tree<F>, fs0: map<Path, Content<F>>, jobs: nat, rounds: seq<seq<Move>>)
    requires t.Valid() && jobs > 0
    requires forall r :: r in rounds ==> Fair(jobs, r)
    requires |rounds| >= 6 * |t.files| + jobs
    ensures var s := Run(t, Init(jobs, fs0), Concat(rounds));
            && AllExited(s)
            && (forall i :: i in s.ended <==> 0 <= i < |t.files|)
            && s.failed == |Failures(s.ended)|
            && forall i :: 0 <= i < |t.files| && s.ended[i] ==>
                 t.results[i].Some? && Lookup(s.fs, Out(t.files[i])) == Some(Complete(t.results[i].value))
  {
    FreshRanks(jobs);
    Reached(t, fs0, jobs, []);
    FairFrom(t, Init(jobs, fs0), rounds);
    EveryInputOnce(t, fs0, jobs, Concat(rounds));
  }

  lemma RunOne<F>(t: Tree<F>, s: State<F>, m: Move, more: seq<Move>)
    requires t.Valid()
    ensures Run(t, s, [m] + more) == Run(t, Step(t, s, m), more)
  {
    assert ([m] + more)[1..] == more;
  }

  /** A counted failure need not mean a missing output: reporting reads the size
      of the input, and if that throws the file is counted as failed although
      its output is in place. */
  lemma FailureWithOutput<F>(file: Path, result: F, fs0: map<Path, Content<F>>) returns (moves: seq<Move>)
    requires IsInput(file)
    ensures var t := Tree([file], [Some(result)]);
            && t.Valid()
            && var s := Run(t, Init(1, fs0), moves);
               s.failed == 1 && s.ended == map[0 := false] && Lookup(s.fs, Out(file)) == Some(Complete(result))
  {
    var t := Tree([file], [Some(result)]);
    var good, bad := Move(0, Good), Move(0, Bad);
    var s0 := Init(1, fs0);
    var s1 := Step(t, s0, good);
    var s2 := Step(t, s1, good);
    var s3 := Step(t, s2, good);
    assert s3.workers == [Rename(0)];
    var more := [good] + ([bad] + ([good] + []));
    moves := [good] + ([good] + ([good] + more));
    RunOne(t, s0, good, [good] + ([good] + more));
    RunOne(t, s1, good, [good] + more);
    RunOne(t, s2, good, more);
    PathsDistinct(file, file);
    LateFailure(file, result, s3);
  }

  lemma LateFailure<F>(file: Path, result: F, s: State<F>)
    requires IsInput(file) && s.workers == [Rename(0)] && s.failed == 0 && s.ended == map[]
    requires Lookup(s.fs, Tmp(file)) == Some(Complete(result))
    ensures var t := Tree([file], [Some(result)]);
            && t.Valid()
            && var s' := Run(t, s, [Move(0, Good)] + ([Move(0, Bad)] + ([Move(0, Good)] + [])));
               s'.failed == 1 && s'.ended == map[0 := false] && Lookup(s'.fs, Out(file)) == Some(Complete(result))
  {
    var t := Tree([file], [Some(result)]);
    var good, bad := Move(0, Good), Move(0, Bad);
    PathsDistinct(file, file);
    var s1 := Step(t, s, good);
    assert s1.workers == [Report(0)];
    var s2 := Step(t, s1, bad);
    RunOne(t, s, good, [bad] + ([good] + []));
    RunOne(t, s1, bad, [good] + []);
    RunOne(t, s2, good, []);
  }
}
