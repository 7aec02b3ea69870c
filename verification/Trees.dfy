/** Converting a tree of files: what the outputs hold when the workers commit
    what the conversions wrote. */
module Trees {
  import opened Wrappers
  import opened Rows
  import opened Pipeline
  import W = Writer
  import C = Commit

  type RowGroups = seq<seq<Row>>

  /** One input's conversion: its bytes as delivered, and how it goes. */
  datatype Job = Job(delivery: Delivery, opt: Options, depth: nat, moves: seq<W.Move>)
  {
    function State(): Option<W.State<Row>> {
      match PlanBytes(BytesOf(delivery), EndingOf(delivery), opt)
      case Failure(_) => None
      case Success(p) => Some(Convert(p, opt, depth, moves))
    }

    /** The row groups of the file it ends in; None if it throws. */
    function Result(): Option<RowGroups> {
      var s := State();
      if s.Some? && s.value.caller.outcome.Returned? then Some(s.value.thread.groups) else None
    }
  }

  function TreeOf(files: seq<C.Path>, jobs: seq<Job>): C.Tree<RowGroups> {
    C.Tree(files, seq(|jobs|, i requires 0 <= i < |jobs| => jobs[i].Result()))
  }

  /** At every step of every run of the workers, an output that is not as it was
      before holds the decoded records of its own input, all of them and in
      order, cut into full batches, with the footer written. */
  lemma OutputsHoldTheirRecords(files: seq<C.Path>, jobs: seq<Job>, fs0: map<C.Path, C.Content<RowGroups>>,
                                workers: nat, moves: seq<C.Move>, i: nat)
    requires TreeOf(files, jobs).Valid() && i < |files| && jobs[i].depth > 0
    ensures var now := C.Lookup(C.Run(TreeOf(files, jobs), C.Init(workers, fs0), moves).fs, C.Out(files[i]));
            now != C.Lookup(fs0, C.Out(files[i])) ==>
              var plan := PlanBytes(BytesOf(jobs[i].delivery), EndingOf(jobs[i].delivery), jobs[i].opt);
              && plan.Success? && jobs[i].State().Some?
              && Written(jobs[i].State().value, plan.value, jobs[i].opt.batchRows)
              && now == Some(C.Complete(jobs[i].State().value.thread.groups))
  {
    hide PlanBytes, Convert, Written, C.Run, C.Out;
    var t := TreeOf(files, jobs);
    C.OutputsAlwaysWhole(t, fs0, workers, moves, i);
    if t.results[i].Some? {
      var p := PlanBytes(BytesOf(jobs[i].delivery), EndingOf(jobs[i].delivery), jobs[i].opt).value;
      PlanIsWritten(p, jobs[i].opt, jobs[i].depth, jobs[i].moves);
    }
  }
}
