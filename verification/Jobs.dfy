/** How many files are converted at once, in the 64-bit arithmetic of the code. */
module Jobs {
  import opened Wrappers
  import opened Dbn
  import opened Rows
  import opened Schemas
  import opened Peak
  import Records
  import W = Writer
  import opened WriterTheorems

  const ROW_BYTES: nat := 80
  const FIXED_BYTES: nat := 0x400_0000

  /** The memory of the open batch, the queued ones, the one being encoded, and
      64 MiB for the decoder and the file buffers. */
  function Estimate(batchRows: nat): (bytes: nat) {
    batchRows * ROW_BYTES * (W.QUEUE_DEPTH + 2) + FIXED_BYTES
  }

  /** The estimate as it is computed: sums and products wrap at 64 bits. */
  function PeakMemory(batchRows: nat): (bytes: nat)
    ensures bytes < U64
    ensures bytes == Estimate(batchRows) <==> Estimate(batchRows) < U64
    ensures bytes == Estimate(batchRows) % U64
  {
    var rows := batchRows % U64;
    var bytes := (rows * ROW_BYTES) % U64;
    var batches := (bytes * (W.QUEUE_DEPTH + 2)) % U64;
    WrapOnce(batchRows);
    (batches + FIXED_BYTES) % U64
  }

  /** Wrapping after every operation is wrapping once at the end. */
  lemma WrapOnce(batchRows: nat)
    ensures ((((batchRows % U64) * ROW_BYTES) % U64 * (W.QUEUE_DEPTH + 2)) % U64 + FIXED_BYTES) % U64
            == Estimate(batchRows) % U64
  {
    var rows := batchRows % U64;
    var bytes := (rows * ROW_BYTES) % U64;
    var batches := (bytes * (W.QUEUE_DEPTH + 2)) % U64;
    var turns := 480 * (batchRows / U64) + 6 * (rows * ROW_BYTES / U64) + bytes * 6 / U64;
    assert Estimate(batchRows) == batches + FIXED_BYTES + turns * U64;
    TurnsVanish(batches + FIXED_BYTES, turns);
  }

  lemma {:induction false} TurnsVanish(x: nat, turns: nat)
    ensures (x + turns * U64) % U64 == x % U64
  {
    if turns > 0 {
      TurnsVanish(x, turns - 1);
      assert x + turns * U64 == x + (turns - 1) * U64 + U64;
    }
  }

  // ---- What the estimate covers ----

  /** The 80 bytes a row are enough for every schema but mbo with `ts_out`. */
  lemma RowFitsIff(k: Kind, tsOut: bool)
    ensures RowBits(k, tsOut) <= 8 * ROW_BYTES <==> !(k.MboKind? && tsOut)
  {
    RowBitsAre(k, tsOut);
  }

  /** The values and validity bits of the rows alive stay within the estimate
      less its fixed part. */
  predicate Covers<R>(k: Kind, tsOut: bool, batchRows: nat, s: W.State<R>) {
    RowBits(k, tsOut) * LiveRows(s) + 8 * FIXED_BYTES <= 8 * Estimate(batchRows)
  }

  /** The offsets of the two text columns: one buffer a column, which all its
      batches share. */
  function OffsetBits(batchRows: nat): nat {
    2 * 32 * (batchRows + 1)
  }

  lemma Times(a: nat, b: nat, x: nat, y: nat)
    requires a <= b && x <= y
    ensures a * x <= b * y
  {
  }

  /** In every run of a schema of at most 80 bytes a row the estimate covers the
      rows alive, and from 32 rows a batch on the offsets as well. */
  lemma EstimateCoversLiveRows<R>(k: Kind, tsOut: bool, batchRows: nat, script: W.Script<R>, moves: seq<W.Move>)
    requires batchRows > 0 && !(k.MboKind? && tsOut)
    ensures var s := Start(W.Config(batchRows, W.QUEUE_DEPTH), script, moves);
            && Covers(k, tsOut, batchRows, s)
            && (batchRows >= 32 ==>
                  RowBits(k, tsOut) * LiveRows(s) + OffsetBits(batchRows) + 8 * FIXED_BYTES <= 8 * Estimate(batchRows))
  {
    var live := LiveRows(Start(W.Config(batchRows, W.QUEUE_DEPTH), script, moves));
    LiveRowsBounded(W.Config(batchRows, W.QUEUE_DEPTH), script, moves);
    RowBitsAre(k, tsOut);
    Times(RowBits(k, tsOut), 629, live, 6 * batchRows);
  }

  ghost predicate CoversEveryRun<R(!new)>(k: Kind, tsOut: bool, batchRows: nat) {
    forall script: W.Script<R>, moves: seq<W.Move> ::
      Covers(k, tsOut, batchRows, Start(W.Config(batchRows, W.QUEUE_DEPTH), script, moves))
  }

  /** Whatever the batch size, the estimate covers every run of a schema exactly
      if that is not mbo with `ts_out`: there, a run that fills the queue needs
      more. */
  lemma EstimateCoversIff<R(!new)>(k: Kind, tsOut: bool, batchRows: nat, row: R)
    requires batchRows > 0
    ensures CoversEveryRun<R>(k, tsOut, batchRows) <==> !(k.MboKind? && tsOut)
  {
    if k.MboKind? && tsOut {
      var c := W.Config(batchRows, W.QUEUE_DEPTH);
      var script := W.Script(seq(6 * batchRows, _ => Records.Row(row)), W.Close);
      var moves := LiveRowsReached(c, script);
      RowBitsAre(k, tsOut);
      assert !Covers(k, tsOut, batchRows, Start(c, script, moves));
    } else {
      forall script: W.Script<R>, moves: seq<W.Move>
        ensures Covers(k, tsOut, batchRows, Start(W.Config(batchRows, W.QUEUE_DEPTH), script, moves))
      {
        EstimateCoversLiveRows(k, tsOut, batchRows, script, moves);
      }
    }
  }

  /** The memory the jobs may take: 60% of what is available. */
  function Budget(memory: nat): (budget: nat)
    ensures 100 * budget <= 60 * memory < 100 * budget + 600
  {
    memory / 10 * 6
  }

  /** The most jobs that neither half the cores nor the budget forbids, but at
      least one. */
  method JobsFitting(cores: nat, budget: nat, peak: nat) returns (jobs: nat)
    requires peak > 0
    ensures jobs >= 1 && (jobs > 1 ==> jobs <= cores / 2 && jobs * peak <= budget)
    ensures jobs < cores / 2 ==> (jobs + 1) * peak > budget
  {
    jobs := if cores / 2 > 1 then cores / 2 else 1;
    var byMemory := budget / peak;
    DivisionFits(budget, peak);
    var fit := if byMemory > 1 then byMemory else 1;
    jobs := if jobs < fit then jobs else fit;
    if jobs > 1 {
      Scale(jobs, byMemory, peak);
    }
    if jobs < cores / 2 {
      Scale(byMemory + 1, jobs + 1, peak);
    }
  }

  /** As many jobs as half the cores, the budget and the files allow; one when
      the memory is unknown. None when the wrapped estimate is zero and the
      division by it traps. */
  method AutoJobs(hardwareCores: nat, memory: Option<nat>, files: nat, batchRows: nat) returns (r: Option<nat>)
    requires files > 0 && (memory.Some? ==> memory.value < U64)
    ensures r.None? <==> memory.Some? && PeakMemory(batchRows) == 0
    ensures r.Some? ==> 1 <= r.value <= files
    ensures r.Some? && memory.None? ==> r.value == 1
    ensures r.Some? && r.value > 1 ==>
              && memory.Some? && r.value <= hardwareCores / 2
              && r.value * PeakMemory(batchRows) <= Budget(memory.value)
              && 100 * (r.value * PeakMemory(batchRows)) <= 60 * memory.value
    ensures r.Some? && memory.Some? && r.value < files && r.value < hardwareCores / 2 ==>
              (r.value + 1) * PeakMemory(batchRows) > Budget(memory.value)
  {
    var cores := if hardwareCores == 0 then 2 else hardwareCores;
    var jobs := 1;
    if memory.Some? {
      var peak := PeakMemory(batchRows);
      if peak == 0 {
        return None;
      }
      jobs := JobsFitting(cores, Budget(memory.value), peak);
    }
    var least := if jobs < files then jobs else files;
    if memory.Some? {
      Scale(least, jobs, PeakMemory(batchRows));
    }
    r := Some(least);
  }

  lemma DivisionFits(n: nat, d: nat)
    requires d > 0
    ensures n / d * d <= n < (n / d + 1) * d
  {
  }

  lemma Scale(a: nat, b: nat, d: nat)
    requires a <= b
    ensures a * d <= b * d
  {
  }

  /** Measured by the true estimate, more than one job fits the budget exactly
      when the estimate does not wrap. */
  lemma JobsFitIff(jobs: nat, memory: nat, batchRows: nat)
    requires jobs > 1 && memory < U64
    requires jobs * PeakMemory(batchRows) <= Budget(memory)
    ensures jobs * Estimate(batchRows) <= Budget(memory) <==> Estimate(batchRows) < U64
  {
    if Estimate(batchRows) >= U64 {
      Scale(1, jobs, Estimate(batchRows));
      assert Budget(memory) <= memory;
    }
  }

  /** A positive 64-bit batch size whose estimate wraps to zero. */
  lemma PeakMemoryCanBeZero() returns (batchRows: nat)
    ensures 0 < batchRows < U64 / 2
    ensures PeakMemory(batchRows) == 0
  {
    batchRows := 153722867280773120;
    assert Estimate(batchRows) == 4 * U64;
  }

  /** An explicit job count is held between one and the number of files, which
      the comparison takes modulo 2^32. */
  function ExplicitJobs(jobs: nat, files: nat): (n: nat)
    requires 0 < jobs < U32 && files > 0
    ensures 1 <= n <= files
    ensures files < U32 ==> n == if jobs < files then jobs else files
  {
    var narrow := files % U32;
    var least := if jobs < narrow then jobs else narrow;
    if least > 1 then least else 1
  }
}
