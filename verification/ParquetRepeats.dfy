/**
 * When rows reach the disk twice.  A batch that fails after its first chunk is
 * kept as a whole, and a batch of more than one chunk only exists when the
 * writer retains a full buffer.
 */
module ParquetRepeats {
  import opened ParquetWriter

  /** Every accepted row is on disk, in memory or dropped exactly once. */
  ghost predicate AccountedOnce(c: Config, fails: Oracle, files: map<File, seq<Row>>, ops: seq<Op>)
    requires Sane(c)
  {
    var w := Run(c, fails, NewWriter(files), ops);
    PartRows(w.disk.parts) + BatchRows(w.pending) + w.log.dropped == w.log.accepted
  }

  // ---- A batch of one chunk never fails late ---------------------------------------------------

  lemma SmallBatchNotLate(c: Config, fails: Oracle, w: Writer, b: Batch)
    requires Sane(c) && |b.rows| <= c.maxBuffer
    ensures FlushBatch(c, fails, w, b).0.log.lateFailures == w.log.lateFailures
  {
    if b.rows != [] && !fails(w.disk.attempts) {
      var d, next := w.disk.(attempts := w.disk.attempts + 1), SeqOf(w.seqs, b.key);
      if !fails(d.attempts) {
        assert End(c, b.rows, 0) == |b.rows|;
        var e := WriteChunk(c, d, next + 1, b.key, b.rows[0..|b.rows|]);
        assert WriteChunks(c, fails, e, next + 1, b.key, b.rows, |b.rows|).ok;
      }
    }
  }

  lemma {:induction false} SmallBatchesNotLate(c: Config, fails: Oracle, w: Writer, todo: seq<Batch>, kept: seq<Batch>)
    requires Sane(c) && Count(todo) <= c.maxBuffer
    ensures FlushBatches(c, fails, w, todo, kept).log.lateFailures == w.log.lateFailures
    decreases |todo|
  {
    if todo != [] {
      SmallBatchNotLate(c, fails, w, todo[0]);
      var (n, stays) := FlushBatch(c, fails, w, todo[0]);
      SmallBatchesNotLate(c, fails, n, todo[1..], if stays then kept + [todo[0]] else kept);
    }
  }

  lemma {:induction false} DropNotLate(c: Config, w: Writer)
    ensures DropOldest(c, w).log.lateFailures == w.log.lateFailures
    decreases |w.pending|
  {
    if w.pending != [] && c.maxPending / 2 < w.pendingCount {
      var b := w.pending[0];
      DropNotLate(c, w.(pending := w.pending[1..], pendingCount := w.pendingCount - |b.rows|,
                        log := w.log.(dropped := w.log.dropped + multiset(b.rows))));
    }
  }

  lemma SmallFlushNotLate(c: Config, fails: Oracle, w: Writer)
    requires Sane(c) && Count(w.pending) <= c.maxBuffer
    ensures Flush(c, fails, w).log.lateFailures == w.log.lateFailures
  {
    hide FlushBatches, DropOldest;
    SmallBatchesNotLate(c, fails, w, w.pending, []);
    DropNotLate(c, FlushBatches(c, fails, w, w.pending, []));
  }

  /** With fewer rows retained than fill a buffer, no batch has more than one chunk. */
  lemma {:induction false} NeverLate(c: Config, fails: Oracle, files: map<File, seq<Row>>, ops: seq<Op>)
    requires Sane(c) && FreshRunId(c, files) && c.maxPending < c.maxBuffer
    ensures Run(c, fails, NewWriter(files), ops).log.lateFailures == 0
  {
    if ops != [] {
      var w, op := Run(c, fails, NewWriter(files), ops[..|ops| - 1]), ops[|ops| - 1];
      NeverLate(c, fails, files, ops[..|ops| - 1]);
      RunKeeps(c, fails, files, ops[..|ops| - 1]);
      StepNotLate(c, fails, w, op);
    }
  }

  lemma StepNotLate(c: Config, fails: Oracle, w: Writer, op: Op)
    requires Sane(c) && Inv(c, w) && w.pendingCount < c.maxBuffer
    ensures Apply(c, fails, w, op).log.lateFailures == w.log.lateFailures
  {
    hide Flush;
    SmallFlushNotLate(c, fails, w);
    if op.AddRow? && op.row.id !in w.seen {
      AcceptKeeps(c, w, op.row);
      SmallFlushNotLate(c, fails, Accept(w, op.row));
    }
  }

  // ---- A retained full buffer can fail late ------------------------------------------------------

  function Sample(key: Key, k: nat): Row { Row(Id(k), key, 0) }

  function Samples(key: Key, k: nat): (r: seq<Row>)
    ensures |r| == k
  {
    if k == 0 then [] else Samples(key, k - 1) + [Sample(key, k - 1)]
  }

  function Adds(key: Key, k: nat): (r: seq<Op>)
    ensures |r| == k
  {
    if k == 0 then [] else Adds(key, k - 1) + [AddRow(Sample(key, k - 1))]
  }

  /** Creating the directory fails first, and the second chunk later. */
  predicate FailsTwice(n: nat) { n == 0 || n == 3 }

  /** k rows of one partition are pending, and the oracle has been asked `attempts` times. */
  ghost predicate Filled(w: Writer, key: Key, k: nat, attempts: nat) {
    && w.pending == (if k == 0 then [] else [Batch(key, Samples(key, k))]) && w.pendingCount == k
    && (forall id :: id in w.seen ==> |id| < k)
    && w.disk.attempts == attempts && w.log.lateFailures == 0
  }

  lemma AcceptFills(w: Writer, key: Key, k: nat, attempts: nat)
    requires Filled(w, key, k, attempts)
    ensures Sample(key, k).id !in w.seen
    ensures Filled(Accept(w, Sample(key, k)), key, k + 1, attempts)
  {
    var row := Sample(key, k);
    assert |row.id| == k && Samples(key, k + 1) == Samples(key, k) + [row];
    if k == 0 {
      assert Samples(key, 1) == [row];
    } else {
      assert w.pending[1..] == [];
      assert Append(w.pending, row) == [Batch(key, Samples(key, k) + [row])];
    }
  }

  lemma {:induction false} Fill(c: Config, files: map<File, seq<Row>>, key: Key, k: nat)
    requires Sane(c) && k < c.maxBuffer
    ensures Filled(Run(c, FailsTwice, NewWriter(files), Adds(key, k)), key, k, 0)
  {
    hide Filled, Flush, Accept;
    if k == 0 {
      FilledAtFirst(files, key);
    } else {
      Fill(c, files, key, k - 1);
      var w := Run(c, FailsTwice, NewWriter(files), Adds(key, k - 1));
      AddsUnfold(key, k);
      AcceptFills(w, key, k - 1, 0);
      FilledCount(Accept(w, Sample(key, k - 1)), key, k, 0);
    }
  }

  lemma FilledAtFirst(files: map<File, seq<Row>>, key: Key)
    ensures Filled(NewWriter(files), key, 0, 0)
  {
  }

  lemma FilledCount(w: Writer, key: Key, k: nat, attempts: nat)
    requires Filled(w, key, k, attempts)
    ensures w.pendingCount == k
  {
  }

  lemma AddsUnfold(key: Key, k: nat)
    requires 0 < k
    ensures Adds(key, k)[..k - 1] == Adds(key, k - 1) && Adds(key, k)[k - 1] == AddRow(Sample(key, k - 1))
  {
  }

  /** The flush of the full buffer fails before it has written anything. */
  lemma FirstFlush(c: Config, w: Writer, key: Key, k: nat)
    requires Sane(c) && 0 < k <= c.maxPending && Filled(w, key, k, 0)
    ensures Filled(Flush(c, FailsTwice, w), key, k, 1)
  {
    var b := Batch(key, Samples(key, k));
    var (n, stays) := FlushBatch(c, FailsTwice, w, b);
    assert stays && n.log.lateFailures == 0;
    assert [b][1..] == [] && [] + [b] == [b];
    assert FlushBatches(c, FailsTwice, w, [b], []) == FlushBatches(c, FailsTwice, n, [], [b]) == n.(pending := [b]);
  }

  /** The second flush, of one row more, writes a full chunk and then fails. */
  lemma SecondFlush(c: Config, w: Writer, key: Key)
    requires Sane(c) && Filled(w, key, c.maxBuffer + 1, 1)
    ensures Flush(c, FailsTwice, w).log.lateFailures == 1
  {
    var b := Batch(key, Samples(key, c.maxBuffer + 1));
    SecondBatch(c, w, b);
    var (n, stays) := FlushBatch(c, FailsTwice, w, b);
    assert [b][1..] == [] && [] + [b] == [b];
    assert FlushBatches(c, FailsTwice, w, [b], []) == FlushBatches(c, FailsTwice, n, [], [b]) == n.(pending := [b]);
    DropNotLate(c, n.(pending := [b]));
  }

  lemma SecondBatch(c: Config, w: Writer, b: Batch)
    requires Sane(c) && |b.rows| == c.maxBuffer + 1 && w.disk.attempts == 1 && w.log.lateFailures == 0
    ensures var (n, stays) := FlushBatch(c, FailsTwice, w, b); stays && n.log.lateFailures == 1
  {
    var d, next := w.disk.(attempts := 2), SeqOf(w.seqs, b.key);
    assert End(c, b.rows, 0) == c.maxBuffer;
    var e := WriteChunk(c, d, next + 1, b.key, b.rows[0..c.maxBuffer]);
    assert WriteChunks(c, FailsTwice, e, next + 1, b.key, b.rows, c.maxBuffer).landed == c.maxBuffer;
    assert WriteChunks(c, FailsTwice, d, next, b.key, b.rows, 0).landed == c.maxBuffer;
  }

  /** One row more than a buffer, and a disk that fails twice. */
  lemma LateRun(c: Config, files: map<File, seq<Row>>, key: Key)
    requires Sane(c) && c.maxBuffer <= c.maxPending
    ensures Run(c, FailsTwice, NewWriter(files), Adds(key, c.maxBuffer + 1)).log.lateFailures == 1
  {
    hide Filled, Flush, Accept;
    var n := c.maxBuffer;
    var w := Run(c, FailsTwice, NewWriter(files), Adds(key, n - 1));
    Fill(c, files, key, n - 1);
    AddsUnfold(key, n);
    AcceptFills(w, key, n - 1, 0);
    var x := Accept(w, Sample(key, n - 1));
    FilledCount(x, key, n, 0);
    FirstFlush(c, x, key, n);
    var y := Flush(c, FailsTwice, x);
    assert Run(c, FailsTwice, NewWriter(files), Adds(key, n)) == y;
    AddsUnfold(key, n + 1);
    AcceptFills(y, key, n, 1);
    var z := Accept(y, Sample(key, n));
    FilledCount(z, key, n + 1, 1);
    SecondFlush(c, z, key);
  }

  /**
   * Every accepted row is accounted for exactly once, over all runs and all
   * patterns of failures, if and only if fewer rows may be retained than fill
   * a buffer.
   */
  lemma AlwaysOnceExactly(c: Config, files: map<File, seq<Row>>)
    requires Sane(c) && FreshRunId(c, files)
    ensures (forall fails: Oracle, ops :: AccountedOnce(c, fails, files, ops)) <==> c.maxPending < c.maxBuffer
  {
    hide Run;
    if c.maxPending < c.maxBuffer {
      forall fails: Oracle, ops
        ensures AccountedOnce(c, fails, files, ops)
      {
        NeverLate(c, fails, files, ops);
        ExactlyOnce(c, fails, files, ops);
      }
    } else {
      var key := Key("", "");
      var ops := Adds(key, c.maxBuffer + 1);
      LateRun(c, files, key);
      ExactlyOnce(c, FailsTwice, files, ops);
      assert !AccountedOnce(c, FailsTwice, files, ops);
    }
  }
}
