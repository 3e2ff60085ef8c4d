/**
 * The buffered writer of src/alpha/research/parquet_writer.py as functions on
 * its state.  The file system is a map from part file to rows; whether the
 * n-th attempt to create a directory or write a chunk raises is decided by an
 * arbitrary oracle `fails`.
 */
module ParquetWriter {

  datatype Key = Key(symbol: string, sessionDate: string)

  /** `id` is the obs_id and `data` stands for the other columns. */
  datatype Row = Row(id: string, key: Key, data: int)

  /** part-{runId}-{seq}.parquet in the partition `key`. */
  datatype File = File(runId: string, key: Key, seq_: nat)

  datatype Part = Part(file: File, rows: seq<Row>)

  datatype Batch = Batch(key: Key, rows: seq<Row>)

  datatype Config = Config(runId: string, maxBuffer: nat, maxPending: nat)

  type Oracle = nat -> bool

  /** `files` is the file system, `parts` this writer's files in writing order,
      `attempts` the number of operations the oracle has decided. */
  datatype Disk = Disk(files: map<File, seq<Row>>, parts: seq<Part>, attempts: nat)

  /** History: rows accepted and dropped, rows on disk whose batch then failed
      and was kept, how often that happened, and the ids accepted since the last reset. */
  datatype Log = Log(accepted: multiset<Row>, dropped: multiset<Row>, repeated: multiset<Row>,
                     lateFailures: nat, session: seq<string>)

  datatype Writer = Writer(pending: seq<Batch>, pendingCount: int, seen: set<string>,
                           seqs: map<Key, nat>, rowsWritten: nat, flushErrors: nat,
                           disk: Disk, log: Log)

  predicate Sane(c: Config) { 0 < c.maxBuffer }

  function NewWriter(files: map<File, seq<Row>>): Writer {
    Writer([], 0, {}, map[], 0, 0, Disk(files, [], 0), Log(multiset{}, multiset{}, multiset{}, 0, []))
  }

  function SeqOf(seqs: map<Key, nat>, key: Key): nat { if key in seqs then seqs[key] else 0 }

  // ---- Writing one batch --------------------------------------------------------------

  function End(c: Config, rows: seq<Row>, start: nat): (r: nat)
    ensures start <= |rows| ==> start <= r <= |rows|
  {
    if start + c.maxBuffer <= |rows| then start + c.maxBuffer else |rows|
  }

  /** `landed` rows are on disk; `next` is the last sequence number used. */
  datatype Written = Written(disk: Disk, next: nat, landed: nat, ok: bool)

  function WriteChunk(c: Config, d: Disk, next: nat, key: Key, chunk: seq<Row>): Disk {
    var f := File(c.runId, key, next);
    Disk(d.files[f := chunk], d.parts + [Part(f, chunk)], d.attempts + 1)
  }

  /** The chunk loop of _write_partition; a sequence number is used up even when the write fails. */
  function WriteChunks(c: Config, fails: Oracle, d: Disk, next: nat, key: Key, rows: seq<Row>, start: nat): (r: Written)
    requires Sane(c) && start <= |rows|
    ensures start <= r.landed <= |rows| && (r.ok <==> r.landed == |rows|)
    decreases |rows| - start
  {
    if start == |rows| then Written(d, next, start, true)
    else if fails(d.attempts) then Written(d.(attempts := d.attempts + 1), next + 1, start, false)
    else
      var end := End(c, rows, start);
      WriteChunks(c, fails, WriteChunk(c, d, next + 1, key, rows[start..end]), next + 1, key, rows, end)
  }

  /** mkdir, then the chunks. */
  function WritePartition(c: Config, fails: Oracle, d: Disk, next: nat, key: Key, rows: seq<Row>): (r: Written)
    requires Sane(c) && rows != []
    ensures r.landed <= |rows| && (r.ok <==> r.landed == |rows|)
  {
    if fails(d.attempts) then Written(d.(attempts := d.attempts + 1), next, 0, false)
    else WriteChunks(c, fails, d.(attempts := d.attempts + 1), next, key, rows, 0)
  }

  // ---- flush, add, reset_session ---------------------------------------------------------

  /** One round of the flush loop, and whether the batch stays. */
  function FlushBatch(c: Config, fails: Oracle, w: Writer, b: Batch): (Writer, bool)
    requires Sane(c)
  {
    if b.rows == [] then (w, false)
    else
      var r := WritePartition(c, fails, w.disk, SeqOf(w.seqs, b.key), b.key, b.rows);
      var seqs := w.seqs[b.key := r.next];
      if r.ok then
        (w.(disk := r.disk, seqs := seqs, rowsWritten := w.rowsWritten + |b.rows|,
            pendingCount := w.pendingCount - |b.rows|), false)
      else
        (w.(disk := r.disk, seqs := seqs, flushErrors := w.flushErrors + 1,
            log := w.log.(repeated := w.log.repeated + multiset(b.rows[..r.landed]),
                          lateFailures := w.log.lateFailures + (if 0 < r.landed then 1 else 0))), true)
  }

  function FlushBatches(c: Config, fails: Oracle, w: Writer, todo: seq<Batch>, kept: seq<Batch>): Writer
    requires Sane(c)
    decreases |todo|
  {
    if todo == [] then w.(pending := kept)
    else
      var (n, stays) := FlushBatch(c, fails, w, todo[0]);
      FlushBatches(c, fails, n, todo[1..], if stays then kept + [todo[0]] else kept)
  }

  /** The overflow guard drops whole batches, oldest first, down to half the limit. */
  function DropOldest(c: Config, w: Writer): Writer
    decreases |w.pending|
  {
    if w.pending == [] || w.pendingCount <= c.maxPending / 2 then w
    else
      var b := w.pending[0];
      DropOldest(c, w.(pending := w.pending[1..], pendingCount := w.pendingCount - |b.rows|,
                       log := w.log.(dropped := w.log.dropped + multiset(b.rows))))
  }

  function Flush(c: Config, fails: Oracle, w: Writer): Writer
    requires Sane(c)
  {
    if w.pendingCount == 0 then w
    else
      var n := FlushBatches(c, fails, w, w.pending, []);
      if c.maxPending < n.pendingCount then DropOldest(c, n) else n
  }

  /** `self._pending[key].append(row)`, a defaultdict in insertion order. */
  function Append(pending: seq<Batch>, row: Row): seq<Batch> {
    if pending == [] then [Batch(row.key, [row])]
    else if pending[0].key == row.key then [Batch(row.key, pending[0].rows + [row])] + pending[1..]
    else [pending[0]] + Append(pending[1..], row)
  }

  function Accept(w: Writer, row: Row): Writer {
    w.(seen := w.seen + {row.id}, pending := Append(w.pending, row), pendingCount := w.pendingCount + 1,
       log := w.log.(accepted := w.log.accepted + multiset{row}, session := w.log.session + [row.id]))
  }

  function Add(c: Config, fails: Oracle, w: Writer, row: Row): Writer
    requires Sane(c)
  {
    if row.id in w.seen then w
    else
      var n := Accept(w, row);
      if c.maxBuffer <= n.pendingCount then Flush(c, fails, n) else n
  }

  function ResetSession(c: Config, fails: Oracle, w: Writer): Writer
    requires Sane(c)
  {
    var n := Flush(c, fails, w);
    n.(seen := {}, log := n.log.(session := []))
  }

  datatype Op = AddRow(row: Row) | FlushNow | Reset

  function Apply(c: Config, fails: Oracle, w: Writer, op: Op): Writer
    requires Sane(c)
  {
    match op
    case AddRow(row) => Add(c, fails, w, row)
    case FlushNow => Flush(c, fails, w)
    case Reset => ResetSession(c, fails, w)
  }

  function Run(c: Config, fails: Oracle, w: Writer, ops: seq<Op>): Writer
    requires Sane(c)
  {
    if ops == [] then w else Apply(c, fails, Run(c, fails, w, ops[..|ops| - 1]), ops[|ops| - 1])
  }

  // ---- The disk --------------------------------------------------------------------------

  function PartRows(ps: seq<Part>): multiset<Row> {
    if ps == [] then multiset{} else PartRows(ps[..|ps| - 1]) + multiset(ps[|ps| - 1].rows)
  }

  function BatchRows(bs: seq<Batch>): multiset<Row> {
    if bs == [] then multiset{} else multiset(bs[0].rows) + BatchRows(bs[1..])
  }

  function Count(bs: seq<Batch>): nat {
    if bs == [] then 0 else |bs[0].rows| + Count(bs[1..])
  }

  /** The rows belong to one partition. */
  ghost predicate AllKey(rows: seq<Row>, key: Key) {
    forall i :: 0 <= i < |rows| ==> rows[i].key == key
  }

  /** The part is on disk under its own name, in its partition, and no larger than allowed. */
  ghost predicate PartOk(c: Config, d: Disk, seqs: map<Key, nat>, p: Part) {
    && p.file in d.files && d.files[p.file] == p.rows
    && p.file.runId == c.runId && 1 <= p.file.seq_ <= SeqOf(seqs, p.file.key)
    && 0 < |p.rows| <= c.maxBuffer && AllKey(p.rows, p.file.key)
  }

  /** The writer's files are exactly its parts, each written once. */
  ghost predicate DiskInv(c: Config, d: Disk, seqs: map<Key, nat>) {
    && (forall i :: 0 <= i < |d.parts| ==> PartOk(c, d, seqs, d.parts[i]))
    && (forall i, j :: 0 <= i < j < |d.parts| ==> d.parts[i].file != d.parts[j].file)
    && (forall f :: f in d.files && f.runId == c.runId ==> f.seq_ <= SeqOf(seqs, f.key))
  }

  /** Every file of d is in e with the same rows. */
  ghost predicate Grows(d: Disk, e: Disk) {
    forall f :: f in d.files ==> f in e.files && e.files[f] == d.files[f]
  }

  /** From d to e the rows `landed` reached the disk and nothing on it changed. */
  ghost predicate DiskStep(c: Config, d: Disk, e: Disk, seqs: map<Key, nat>, landed: multiset<Row>) {
    DiskInv(c, e, seqs) && Grows(d, e) && PartRows(e.parts) == PartRows(d.parts) + landed
  }

  lemma DiskSteps(c: Config, d: Disk, e: Disk, s: map<Key, nat>, m: multiset<Row>, f: Disk, t: map<Key, nat>, n: multiset<Row>)
    requires DiskStep(c, d, e, s, m) && DiskStep(c, e, f, t, n)
    ensures DiskStep(c, d, f, t, m + n)
  {
  }

  lemma OnePart(ps: seq<Part>, p: Part)
    ensures PartRows(ps + [p]) == PartRows(ps) + multiset(p.rows)
  {
    assert (ps + [p])[..|ps|] == ps;
  }

  lemma ChunkKeeps(c: Config, d: Disk, seqs: map<Key, nat>, key: Key, chunk: seq<Row>)
    requires DiskInv(c, d, seqs) && 0 < |chunk| <= c.maxBuffer && AllKey(chunk, key)
    ensures var n := SeqOf(seqs, key) + 1; var e := WriteChunk(c, d, n, key, chunk);
            DiskStep(c, d, e, seqs[key := n], multiset(chunk)) && DiskInv(c, e, seqs[key := n])
  {
    hide AllKey, PartRows;
    var n := SeqOf(seqs, key) + 1;
    OnePart(d.parts, Part(File(c.runId, key, n), chunk));
    var e := WriteChunk(c, d, n, key, chunk);
    assert File(c.runId, key, n) !in d.files;
    forall i | 0 <= i < |e.parts|
      ensures PartOk(c, e, seqs[key := n], e.parts[i])
    {
      if i < |d.parts| {
        assert PartOk(c, d, seqs, d.parts[i]);
      }
    }
  }

  lemma AttemptKeeps(c: Config, d: Disk, seqs: map<Key, nat>, key: Key, n: nat)
    requires DiskInv(c, d, seqs) && SeqOf(seqs, key) <= n
    ensures DiskStep(c, d, d.(attempts := d.attempts + 1), seqs[key := n], multiset{})
  {
    forall i | 0 <= i < |d.parts|
      ensures PartOk(c, d.(attempts := d.attempts + 1), seqs[key := n], d.parts[i])
    {
      assert PartOk(c, d, seqs, d.parts[i]);
    }
  }

  lemma SliceAllKey(rows: seq<Row>, key: Key, lo: nat, hi: nat)
    requires AllKey(rows, key) && lo <= hi <= |rows|
    ensures AllKey(rows[lo..hi], key)
  {
  }

  lemma IdleKeeps(c: Config, d: Disk, seqs: map<Key, nat>, key: Key)
    requires DiskInv(c, d, seqs)
    ensures DiskStep(c, d, d, seqs[key := SeqOf(seqs, key)], multiset{})
  {
    forall i | 0 <= i < |d.parts|
      ensures PartOk(c, d, seqs[key := SeqOf(seqs, key)], d.parts[i])
    {
      assert PartOk(c, d, seqs, d.parts[i]);
    }
  }

  /** One chunk, and then the rest. */
  lemma ChunkThen(c: Config, d: Disk, seqs: map<Key, nat>, key: Key, rows: seq<Row>, start: nat, end: nat, r: Written)
    requires DiskInv(c, d, seqs) && AllKey(rows, key) && start < end <= |rows| && end - start <= c.maxBuffer && end <= r.landed <= |rows|
    requires var n := SeqOf(seqs, key) + 1;
             DiskStep(c, WriteChunk(c, d, n, key, rows[start..end]), r.disk, seqs[key := n][key := r.next],
                      multiset(rows[end..r.landed]))
    ensures DiskStep(c, d, r.disk, seqs[key := r.next], multiset(rows[start..r.landed]))
  {
    SliceAllKey(rows, key, start, end);
    SliceRows(rows, start, end, r.landed);
    hide *;
    var n := SeqOf(seqs, key) + 1;
    ChunkKeeps(c, d, seqs, key, rows[start..end]);
    assert seqs[key := n][key := r.next] == seqs[key := r.next];
    DiskSteps(c, d, WriteChunk(c, d, n, key, rows[start..end]), seqs[key := n], multiset(rows[start..end]),
              r.disk, seqs[key := r.next], multiset(rows[end..r.landed]));
  }

  lemma SliceRows(rows: seq<Row>, a: nat, b: nat, k: nat)
    requires a <= b <= k <= |rows|
    ensures multiset(rows[a..k]) == multiset(rows[a..b]) + multiset(rows[b..k])
    ensures rows[a..a] == []
  {
    assert rows[a..k] == rows[a..b] + rows[b..k];
  }

  lemma ChunksStop(c: Config, fails: Oracle, d: Disk, seqs: map<Key, nat>, key: Key, rows: seq<Row>, start: nat)
    requires Sane(c) && start <= |rows| && DiskInv(c, d, seqs)
    requires start == |rows| || fails(d.attempts)
    ensures var r := WriteChunks(c, fails, d, SeqOf(seqs, key), key, rows, start);
            DiskStep(c, d, r.disk, seqs[key := r.next], multiset(rows[start..r.landed]))
  {
    SliceRows(rows, start, start, start);
    if start == |rows| {
      IdleKeeps(c, d, seqs, key);
    } else {
      AttemptKeeps(c, d, seqs, key, SeqOf(seqs, key) + 1);
    }
  }

  /** The next chunk lands where ChunksKeep goes on. */
  lemma ChunkNext(c: Config, fails: Oracle, d: Disk, seqs: map<Key, nat>, key: Key, rows: seq<Row>, start: nat)
    requires Sane(c) && start < |rows| && AllKey(rows, key) && DiskInv(c, d, seqs) && !fails(d.attempts)
    ensures var n, end := SeqOf(seqs, key) + 1, End(c, rows, start);
            var e := WriteChunk(c, d, n, key, rows[start..end]);
            && 0 < end - start <= c.maxBuffer && SeqOf(seqs[key := n], key) == n && DiskInv(c, e, seqs[key := n])
            && WriteChunks(c, fails, d, n - 1, key, rows, start) == WriteChunks(c, fails, e, n, key, rows, end)
  {
    var end := End(c, rows, start);
    SliceAllKey(rows, key, start, end);
    ChunkKeeps(c, d, seqs, key, rows[start..end]);
  }

  /** Chunks land in order, each in a file of its own. */
  lemma {:induction false} ChunksKeep(c: Config, fails: Oracle, d: Disk, seqs: map<Key, nat>, key: Key, rows: seq<Row>, start: nat)
    requires Sane(c) && start <= |rows| && AllKey(rows, key) && DiskInv(c, d, seqs)
    ensures var r := WriteChunks(c, fails, d, SeqOf(seqs, key), key, rows, start);
            DiskStep(c, d, r.disk, seqs[key := r.next], multiset(rows[start..r.landed]))
    decreases |rows| - start
  {
    hide *;
    if start == |rows| || fails(d.attempts) {
      ChunksStop(c, fails, d, seqs, key, rows, start);
    } else {
      var n, end := SeqOf(seqs, key) + 1, End(c, rows, start);
      var e := WriteChunk(c, d, n, key, rows[start..end]);
      ChunkNext(c, fails, d, seqs, key, rows, start);
      ChunksKeep(c, fails, e, seqs[key := n], key, rows, end);
      ChunkThen(c, d, seqs, key, rows, start, end, WriteChunks(c, fails, e, n, key, rows, end));
    }
  }

  lemma PartitionKeeps(c: Config, fails: Oracle, d: Disk, seqs: map<Key, nat>, key: Key, rows: seq<Row>)
    requires Sane(c) && rows != [] && AllKey(rows, key) && DiskInv(c, d, seqs)
    ensures var r := WritePartition(c, fails, d, SeqOf(seqs, key), key, rows);
            DiskStep(c, d, r.disk, seqs[key := r.next], multiset(rows[..r.landed]))
  {
    hide AllKey, PartRows, Grows, PartOk;
    var next := SeqOf(seqs, key);
    var e := d.(attempts := d.attempts + 1);
    var same := seqs[key := next];
    AttemptKeeps(c, d, seqs, key, next);
    if !fails(d.attempts) {
      var r := WriteChunks(c, fails, e, next, key, rows, 0);
      ChunksKeep(c, fails, e, same, key, rows, 0);
      DiskSteps(c, d, e, same, multiset{}, r.disk, same[key := r.next], multiset(rows[0..r.landed]));
      assert same[key := r.next] == seqs[key := r.next];
      assert rows[0..r.landed] == rows[..r.landed];
    }
  }

  // ---- The writer -------------------------------------------------------------------------

  /** Every accepted row is on disk, in memory (`held`) or dropped, and on disk
      once more for every batch that failed after it had been written. */
  ghost predicate Balanced(c: Config, w: Writer, held: multiset<Row>) {
    && DiskInv(c, w.disk, w.seqs)
    && PartRows(w.disk.parts) + held + w.log.dropped == w.log.accepted + w.log.repeated
    && (w.log.lateFailures == 0 <==> w.log.repeated == multiset{})
  }

  ghost predicate BatchesOk(bs: seq<Batch>) {
    && (forall i :: 0 <= i < |bs| ==> AllKey(bs[i].rows, bs[i].key))
    && (forall i, j :: 0 <= i < j < |bs| ==> bs[i].key != bs[j].key)
  }

  /** The dedup set is what was accepted since the last reset, and nothing twice. */
  ghost predicate Deduped(w: Writer) {
    && (forall id :: id in w.seen <==> id in w.log.session)
    && (forall i, j :: 0 <= i < j < |w.log.session| ==> w.log.session[i] != w.log.session[j])
  }

  ghost predicate Inv(c: Config, w: Writer) {
    && Balanced(c, w, BatchRows(w.pending))
    && w.pendingCount == Count(w.pending)
    && BatchesOk(w.pending)
    && Deduped(w)
  }

  /** What flushing never touches. */
  ghost predicate Frame(w: Writer, n: Writer) {
    && Grows(w.disk, n.disk)
    && n.seen == w.seen && n.log.accepted == w.log.accepted && n.log.session == w.log.session
  }

  function Held(b: Batch, stays: bool): multiset<Row> { if stays then multiset(b.rows) else multiset{} }

  lemma GrowsSame(d: Disk)
    ensures Grows(d, d)
  {
  }

  lemma GrowsTrans(d: Disk, e: Disk, f: Disk)
    requires Grows(d, e) && Grows(e, f)
    ensures Grows(d, f)
  {
  }

  /** x goes from memory to disk, or stays there although `landed` of it is on disk. */
  lemma BalanceWritten(disk: multiset<Row>, held: multiset<Row>, dropped: multiset<Row>, accepted: multiset<Row>,
                       repeated: multiset<Row>, x: multiset<Row>, landed: multiset<Row>)
    requires disk + (held + x) + dropped == accepted + repeated
    ensures disk + x + (held + multiset{}) + dropped == accepted + repeated
    ensures disk + landed + (held + x) + dropped == accepted + (repeated + landed)
  {
    assert disk + x + held + dropped == disk + (held + x) + dropped;
    assert held + multiset{} == held;
    assert disk + landed + (held + x) + dropped == disk + (held + x) + dropped + landed;
  }

  lemma BalanceAccepted(disk: multiset<Row>, held: multiset<Row>, dropped: multiset<Row>, accepted: multiset<Row>,
                        repeated: multiset<Row>, x: multiset<Row>)
    requires disk + held + dropped == accepted + repeated
    ensures disk + (held + x) + dropped == accepted + x + repeated
  {
    assert disk + (held + x) + dropped == disk + held + dropped + x;
    assert accepted + repeated + x == accepted + x + repeated;
  }

  lemma LateCount(log: Log, rows: seq<Row>)
    requires log.lateFailures == 0 <==> log.repeated == multiset{}
    ensures log.lateFailures + (if 0 < |rows| then 1 else 0) == 0 <==> log.repeated + multiset(rows) == multiset{}
  {
    if rows != [] {
      assert rows[0] in log.repeated + multiset(rows);
    }
  }

  lemma FlushBatchKeeps(c: Config, fails: Oracle, w: Writer, b: Batch, held: multiset<Row>)
    requires Sane(c) && AllKey(b.rows, b.key) && Balanced(c, w, held + multiset(b.rows))
    ensures var (n, stays) := FlushBatch(c, fails, w, b);
            && Balanced(c, n, held + Held(b, stays)) && Frame(w, n)
            && n.log.dropped == w.log.dropped
            && n.pendingCount == w.pendingCount - (if stays then 0 else |b.rows|)
  {
    hide DiskInv, Grows, PartRows, WritePartition;
    if b.rows == [] {
      GrowsSame(w.disk);
      assert multiset(b.rows) == multiset{} == Held(b, false);
    } else {
      PartitionKeeps(c, fails, w.disk, w.seqs, b.key, b.rows);
      var r := WritePartition(c, fails, w.disk, SeqOf(w.seqs, b.key), b.key, b.rows);
      assert b.rows[..|b.rows|] == b.rows;
      LateCount(w.log, b.rows[..r.landed]);
      BalanceWritten(PartRows(w.disk.parts), held, w.log.dropped, w.log.accepted, w.log.repeated,
                     multiset(b.rows), multiset(b.rows[..r.landed]));
    }
  }

  lemma {:induction false} BatchRowsConcat(a: seq<Batch>, b: seq<Batch>)
    ensures BatchRows(a + b) == BatchRows(a) + BatchRows(b)
    ensures Count(a + b) == Count(a) + Count(b)
    decreases |a|
  {
    if a == [] {
      assert a + b == b;
    } else {
      assert (a + b)[1..] == a[1..] + b;
      BatchRowsConcat(a[1..], b);
    }
  }

  lemma {:induction false} FlushBatchesKeeps(c: Config, fails: Oracle, w: Writer, todo: seq<Batch>, kept: seq<Batch>)
    requires Sane(c) && BatchesOk(kept + todo)
    requires Balanced(c, w, BatchRows(kept) + BatchRows(todo)) && w.pendingCount == Count(kept) + Count(todo)
    ensures var n := FlushBatches(c, fails, w, todo, kept);
            && Balanced(c, n, BatchRows(n.pending)) && Frame(w, n)
            && n.pendingCount == Count(n.pending) && BatchesOk(n.pending)
    decreases |todo|
  {
    hide DiskInv, Grows, PartRows, FlushBatch, BatchesOk, AllKey;
    assert BatchRows([]) == multiset{} && Count([]) == 0;
    if todo == [] {
      assert kept + todo == kept;
      assert BatchRows(kept) + BatchRows(todo) == BatchRows(kept);
      GrowsSame(w.disk);
    } else {
      var b := todo[0];
      var (n, stays) := FlushBatch(c, fails, w, b);
      var more := if stays then kept + [b] else kept;
      assert BatchRows(kept) + BatchRows(todo) == BatchRows(kept) + BatchRows(todo[1..]) + multiset(b.rows);
      assert todo == [b] + todo[1..];
      StillOk(kept, b, todo[1..], stays);
      FlushBatchKeeps(c, fails, w, b, BatchRows(kept) + BatchRows(todo[1..]));
      OneBatch(kept, b);
      assert BatchRows(kept) + BatchRows(todo[1..]) + Held(b, stays) == BatchRows(more) + BatchRows(todo[1..]);
      FlushBatchesKeeps(c, fails, n, todo[1..], more);
      GrowsTrans(w.disk, n.disk, FlushBatches(c, fails, n, todo[1..], more).disk);
    }
  }

  lemma OneBatch(kept: seq<Batch>, b: Batch)
    ensures BatchRows(kept + [b]) == BatchRows(kept) + multiset(b.rows)
    ensures Count(kept + [b]) == Count(kept) + |b.rows|
  {
    BatchRowsConcat(kept, [b]);
    assert [b][1..] == [];
  }

  lemma StillOk(kept: seq<Batch>, b: Batch, rest: seq<Batch>, stays: bool)
    requires BatchesOk(kept + ([b] + rest))
    ensures BatchesOk((if stays then kept + [b] else kept) + rest)
    ensures AllKey(b.rows, b.key)
  {
    var all := kept + ([b] + rest);
    var r := (if stays then kept + [b] else kept) + rest;
    var at := (i: int) => if i < |kept| || stays then i else i + 1;
    assert all[|kept|] == b;
    assert forall i :: 0 <= i < |r| ==> r[i] == all[at(i)];
  }

  ghost function DropOne(w: Writer): Writer
    requires w.pending != []
  {
    var b := w.pending[0];
    w.(pending := w.pending[1..], pendingCount := w.pendingCount - |b.rows|,
       log := w.log.(dropped := w.log.dropped + multiset(b.rows)))
  }

  lemma DropOneKeeps(c: Config, w: Writer)
    requires Inv(c, w) && w.pending != []
    ensures Inv(c, DropOne(w))
  {
    var b, n := w.pending[0], DropOne(w);
    assert BatchesOk(n.pending);
    assert BatchRows(w.pending) == multiset(b.rows) + BatchRows(n.pending);
    hide BatchesOk, BatchRows, DiskInv, PartRows;
    MoveToDropped(PartRows(w.disk.parts), BatchRows(n.pending), multiset(b.rows), w.log.dropped);
  }

  lemma MoveToDropped(disk: multiset<Row>, held: multiset<Row>, x: multiset<Row>, dropped: multiset<Row>)
    ensures disk + (x + held) + dropped == disk + held + (dropped + x)
  {
  }

  lemma {:induction false} DropOldestKeeps(c: Config, w: Writer)
    requires Inv(c, w)
    ensures var n := DropOldest(c, w);
            Inv(c, n) && Frame(w, n) && n.pendingCount <= c.maxPending
    decreases |w.pending|
  {
    if w.pending != [] && c.maxPending / 2 < w.pendingCount {
      DropOneKeeps(c, w);
      hide Inv, Grows;
      DropOldestKeeps(c, DropOne(w));
    } else {
      GrowsSame(w.disk);
    }
  }

  lemma DedupedFrame(w: Writer, n: Writer)
    requires Deduped(w) && n.seen == w.seen && n.log.session == w.log.session
    ensures Deduped(n)
  {
  }

  lemma FlushKeeps(c: Config, fails: Oracle, w: Writer)
    requires Sane(c) && Inv(c, w)
    ensures var n := Flush(c, fails, w);
            Inv(c, n) && Frame(w, n) && n.pendingCount <= c.maxPending
  {
    hide Balanced, BatchesOk, Deduped, Grows, FlushBatches, DropOldest;
    if w.pendingCount == 0 {
      GrowsSame(w.disk);
    } else {
      assert BatchRows([]) + BatchRows(w.pending) == BatchRows(w.pending);
      assert [] + w.pending == w.pending;
      FlushBatchesKeeps(c, fails, w, w.pending, []);
      var n := FlushBatches(c, fails, w, w.pending, []);
      DedupedFrame(w, n);
      if c.maxPending < n.pendingCount {
        DropOldestKeeps(c, n);
        GrowsTrans(w.disk, n.disk, DropOldest(c, n).disk);
      }
    }
  }

  lemma {:induction false} AppendAdds(pending: seq<Batch>, row: Row)
    ensures BatchRows(Append(pending, row)) == BatchRows(pending) + multiset{row}
    ensures Count(Append(pending, row)) == Count(pending) + 1
    decreases |pending|
  {
    if pending == [] {
      assert [Batch(row.key, [row])][1..] == [];
    } else {
      var r := Append(pending, row);
      if pending[0].key == row.key {
        assert r[1..] == pending[1..];
      } else {
        assert r[1..] == Append(pending[1..], row);
        AppendAdds(pending[1..], row);
      }
    }
  }

  lemma {:induction false} AppendKeys(pending: seq<Batch>, row: Row)
    requires BatchesOk(pending)
    ensures BatchesOk(Append(pending, row))
    ensures forall b :: b in Append(pending, row) ==> b.key == row.key || exists i :: 0 <= i < |pending| && pending[i].key == b.key
    decreases |pending|
  {
    if pending != [] && pending[0].key != row.key {
      var first, tail := pending[0], pending[1..];
      assert BatchesOk(tail);
      AppendKeys(tail, row);
      var rest := Append(tail, row);
      forall i | 0 <= i < |rest|
        ensures first.key != rest[i].key
      {
        assert rest[i] in rest;
        if rest[i].key != row.key {
          var k :| 0 <= k < |tail| && tail[k].key == rest[i].key;
          assert pending[k + 1] == tail[k];
        }
      }
      assert Append(pending, row) == [first] + rest;
    }
  }

  lemma DedupAdd(w: Writer, row: Row)
    requires Deduped(w) && row.id !in w.seen
    ensures Deduped(Accept(w, row))
  {
    assert forall i :: 0 <= i < |w.log.session| ==> w.log.session[i] in w.log.session;
  }

  lemma AcceptKeeps(c: Config, w: Writer, row: Row)
    requires Inv(c, w) && row.id !in w.seen
    ensures Inv(c, Accept(w, row))
  {
    AppendAdds(w.pending, row);
    AppendKeys(w.pending, row);
    DedupAdd(w, row);
    hide DiskInv, PartRows, BatchRows, Count, Append, BatchesOk, Deduped;
    var n := Accept(w, row);
    BalanceAccepted(PartRows(w.disk.parts), BatchRows(w.pending), w.log.dropped, w.log.accepted, w.log.repeated,
                    multiset{row});
    assert Balanced(c, n, BatchRows(n.pending));
  }

  /** The bound on the rows in memory between two calls. */
  ghost predicate Bounded(c: Config, w: Writer) {
    w.pendingCount <= c.maxBuffer - 1 || w.pendingCount <= c.maxPending
  }

  lemma ApplyKeeps(c: Config, fails: Oracle, w: Writer, op: Op)
    requires Sane(c) && Inv(c, w) && Bounded(c, w)
    ensures var n := Apply(c, fails, w, op);
            Inv(c, n) && Bounded(c, n) && Grows(w.disk, n.disk)
  {
    match op
    case AddRow(row) =>
      if row.id !in w.seen {
        AcceptKeeps(c, w, row);
        FlushKeeps(c, fails, Accept(w, row));
      }
    case FlushNow => FlushKeeps(c, fails, w);
    case Reset =>
      FlushKeeps(c, fails, w);
      var n := Flush(c, fails, w);
      assert Deduped(n.(seen := {}, log := n.log.(session := [])));
  }

  /** There is no part file of this run id with a number the writer will use. */
  ghost predicate FreshRunId(c: Config, files: map<File, seq<Row>>) {
    forall f :: f in files && f.runId == c.runId ==> f.seq_ == 0
  }

  lemma NewInv(c: Config, files: map<File, seq<Row>>)
    requires FreshRunId(c, files)
    ensures Inv(c, NewWriter(files)) && Bounded(c, NewWriter(files))
  {
    var w := NewWriter(files);
    assert PartRows([]) == BatchRows([]) == multiset{};
    assert Balanced(c, w, multiset{});
  }

  lemma {:induction false} RunKeeps(c: Config, fails: Oracle, files: map<File, seq<Row>>, ops: seq<Op>)
    requires Sane(c) && FreshRunId(c, files)
    ensures var w := Run(c, fails, NewWriter(files), ops);
            Inv(c, w) && Bounded(c, w) && Grows(NewWriter(files).disk, w.disk)
  {
    if ops == [] {
      NewInv(c, files);
    } else {
      RunKeeps(c, fails, files, ops[..|ops| - 1]);
      ApplyKeeps(c, fails, Run(c, fails, NewWriter(files), ops[..|ops| - 1]), ops[|ops| - 1]);
    }
  }

  // ---- Main results -------------------------------------------------------------------------

  /**
   * Over any run of add, flush and reset_session, with writes failing at
   * arbitrary chunks: the pending count is the rows in memory and stays bounded,
   * every accepted row is on disk, in memory or dropped, no part file is ever
   * overwritten, each holds 1 to maxBuffer rows of its own partition, and no
   * obs_id is accepted twice between two resets.
   */
  lemma WriterSafety(c: Config, fails: Oracle, files: map<File, seq<Row>>, ops: seq<Op>)
    requires Sane(c) && FreshRunId(c, files)
    ensures var w := Run(c, fails, NewWriter(files), ops);
            && w.pendingCount == Count(w.pending)
            && (w.pendingCount <= c.maxBuffer - 1 || w.pendingCount <= c.maxPending)
            && w.log.accepted <= PartRows(w.disk.parts) + BatchRows(w.pending) + w.log.dropped
            && (forall f :: f in files ==> f in w.disk.files && w.disk.files[f] == files[f])
            && (forall i :: 0 <= i < |w.disk.parts| ==>
                  var p := w.disk.parts[i];
                  p.file in w.disk.files && w.disk.files[p.file] == p.rows
                  && 0 < |p.rows| <= c.maxBuffer && AllKey(p.rows, p.file.key))
            && (forall i, j :: 0 <= i < j < |w.disk.parts| ==> w.disk.parts[i].file != w.disk.parts[j].file)
            && (forall i, j :: 0 <= i < j < |w.log.session| ==> w.log.session[i] != w.log.session[j])
  {
    RunKeeps(c, fails, files, ops);
    var w := Run(c, fails, NewWriter(files), ops);
    var got := PartRows(w.disk.parts) + BatchRows(w.pending) + w.log.dropped;
    assert w.log.accepted <= w.log.accepted + w.log.repeated == got;
    forall i | 0 <= i < |w.disk.parts|
      ensures PartOk(c, w.disk, w.seqs, w.disk.parts[i])
    {
    }
  }

  /** A later call never touches what an earlier one wrote. */
  lemma {:induction false} NeverOverwrites(c: Config, fails: Oracle, files: map<File, seq<Row>>, ops: seq<Op>, more: seq<Op>)
    requires Sane(c) && FreshRunId(c, files)
    ensures Grows(Run(c, fails, NewWriter(files), ops).disk, Run(c, fails, NewWriter(files), ops + more).disk)
    decreases |more|
  {
    if more == [] {
      assert ops + more == ops;
    } else {
      var init := ops + more[..|more| - 1];
      assert (ops + more)[..|ops + more| - 1] == init;
      NeverOverwrites(c, fails, files, ops, more[..|more| - 1]);
      RunKeeps(c, fails, files, init);
      ApplyKeeps(c, fails, Run(c, fails, NewWriter(files), init), more[|more| - 1]);
    }
  }

  /** Every accepted row is accounted for exactly once if and only if no batch
      ever failed after one of its chunks had been written. */
  lemma ExactlyOnce(c: Config, fails: Oracle, files: map<File, seq<Row>>, ops: seq<Op>)
    requires Sane(c) && FreshRunId(c, files)
    ensures var w := Run(c, fails, NewWriter(files), ops);
            PartRows(w.disk.parts) + BatchRows(w.pending) + w.log.dropped == w.log.accepted <==>
              w.log.lateFailures == 0
  {
    RunKeeps(c, fails, files, ops);
    var w := Run(c, fails, NewWriter(files), ops);
    if w.log.repeated == multiset{} {
      assert w.log.accepted + w.log.repeated == w.log.accepted;
    } else {
      assert |w.log.accepted + w.log.repeated| == |w.log.accepted| + |w.log.repeated|;
    }
  }

  lemma {:induction false} HealthyBatches(c: Config, fails: Oracle, w: Writer, todo: seq<Batch>)
    requires Sane(c) && forall n :: !fails(n)
    ensures var n := FlushBatches(c, fails, w, todo, []);
            n.pending == [] && n.log == w.log
    decreases |todo|
  {
    if todo != [] {
      if todo[0].rows != [] {
        HealthyChunks(c, fails, w.disk.(attempts := w.disk.attempts + 1), SeqOf(w.seqs, todo[0].key), todo[0].key, todo[0].rows, 0);
      }
      HealthyBatches(c, fails, FlushBatch(c, fails, w, todo[0]).0, todo[1..]);
    }
  }

  lemma {:induction false} HealthyChunks(c: Config, fails: Oracle, d: Disk, next: nat, key: Key, rows: seq<Row>, start: nat)
    requires Sane(c) && start <= |rows| && forall n :: !fails(n)
    ensures WriteChunks(c, fails, d, next, key, rows, start).ok
    decreases |rows| - start
  {
    if start < |rows| {
      var end := End(c, rows, start);
      HealthyChunks(c, fails, WriteChunk(c, d, next + 1, key, rows[start..end]), next + 1, key, rows, end);
    }
  }

  lemma {:induction false} HealthyRun(c: Config, fails: Oracle, files: map<File, seq<Row>>, ops: seq<Op>)
    requires Sane(c) && FreshRunId(c, files) && forall n :: !fails(n)
    ensures var w := Run(c, fails, NewWriter(files), ops);
            w.log.lateFailures == 0 && w.log.dropped == multiset{}
  {
    if ops != [] {
      var w, op := Run(c, fails, NewWriter(files), ops[..|ops| - 1]), ops[|ops| - 1];
      HealthyRun(c, fails, files, ops[..|ops| - 1]);
      RunKeeps(c, fails, files, ops[..|ops| - 1]);
      HealthyFlush(c, fails, w);
      if op.AddRow? && op.row.id !in w.seen {
        AcceptKeeps(c, w, op.row);
        HealthyFlush(c, fails, Accept(w, op.row));
      }
    }
  }

  lemma HealthyFlush(c: Config, fails: Oracle, w: Writer)
    requires Sane(c) && Inv(c, w) && forall n :: !fails(n)
    ensures var n := Flush(c, fails, w); n.log == w.log && BatchRows(n.pending) == multiset{}
  {
    if w.pendingCount == 0 {
      NothingHeld(w.pending);
    } else {
      HealthyBatches(c, fails, w, w.pending);
      FlushBatchesKeeps(c, fails, w, w.pending, []) by {
        assert [] + w.pending == w.pending;
        assert BatchRows([]) + BatchRows(w.pending) == BatchRows(w.pending);
      }
    }
  }

  lemma {:induction false} NothingHeld(bs: seq<Batch>)
    requires Count(bs) == 0
    ensures BatchRows(bs) == multiset{}
  {
    if bs != [] {
      NothingHeld(bs[1..]);
    }
  }

  /** With a disk that never fails, a final flush leaves every accepted row in
      the files, once. */
  lemma HealthyDiskHasEverything(c: Config, fails: Oracle, files: map<File, seq<Row>>, ops: seq<Op>)
    requires Sane(c) && FreshRunId(c, files) && forall n :: !fails(n)
    ensures var w := Run(c, fails, NewWriter(files), ops + [FlushNow]);
            PartRows(w.disk.parts) == w.log.accepted
  {
    var all := ops + [FlushNow];
    assert all[..|all| - 1] == ops;
    RunKeeps(c, fails, files, ops);
    HealthyFlush(c, fails, Run(c, fails, NewWriter(files), ops));
    HealthyRun(c, fails, files, all);
    ExactlyOnce(c, fails, files, all);
    var w := Run(c, fails, NewWriter(files), all);
    assert PartRows(w.disk.parts) + BatchRows(w.pending) + w.log.dropped == PartRows(w.disk.parts);
  }

  // ---- Restarts ---------------------------------------------------------------------------

  /** Every file that was there before the run is still there with the same rows. */
  ghost predicate KeepsFiles(c: Config, fails: Oracle, files: map<File, seq<Row>>, ops: seq<Op>)
    requires Sane(c)
  {
    var now := Run(c, fails, NewWriter(files), ops).disk.files;
    forall f :: f in files ==> f in now && now[f] == files[f]
  }

  function Id(k: nat): string { seq(k, i => 'x') }

  /** k times one row into the same partition, flushed at once. */
  function Rounds(key: Key, data: int, k: nat): seq<Op> {
    if k == 0 then [] else Rounds(key, data, k - 1) + [AddRow(Row(Id(k - 1), key, data)), FlushNow]
  }

  /** After k such rounds nothing is pending and number k is the last one used. */
  ghost predicate AfterRounds(w: Writer, key: Key, k: nat) {
    && w.pending == [] && w.pendingCount == 0 && SeqOf(w.seqs, key) == k
    && forall id :: id in w.seen ==> |id| < k
  }

  /** Flushing a single row on a healthy disk writes the next file of its partition. */
  lemma FlushOneRow(c: Config, fails: Oracle, w: Writer, row: Row)
    requires Sane(c) && (forall n :: !fails(n)) && w.pending == [Batch(row.key, [row])] && w.pendingCount == 1
    ensures var n, next := Flush(c, fails, w), SeqOf(w.seqs, row.key) + 1;
            && n.pending == [] && n.pendingCount == 0 && n.seen == w.seen && SeqOf(n.seqs, row.key) == next
            && n.disk.files == w.disk.files[File(c.runId, row.key, next) := [row]]
  {
    var b := Batch(row.key, [row]);
    var next := SeqOf(w.seqs, row.key);
    var d := w.disk.(attempts := w.disk.attempts + 1);
    assert End(c, b.rows, 0) == 1 && b.rows[0..1] == [row];
    var e := WriteChunk(c, d, next + 1, row.key, [row]);
    assert WriteChunks(c, fails, e, next + 1, row.key, b.rows, 1) == Written(e, next + 1, 1, true);
    assert WritePartition(c, fails, w.disk, next, row.key, b.rows) == Written(e, next + 1, 1, true);
    var m := FlushBatch(c, fails, w, b).0;
    assert [b][1..] == [];
    assert FlushBatches(c, fails, w, [b], []) == FlushBatches(c, fails, m, [], []) == m.(pending := []);
  }

  lemma RoundWrites(c: Config, fails: Oracle, w: Writer, key: Key, k: nat, row: Row)
    requires Sane(c) && (forall n :: !fails(n)) && AfterRounds(w, key, k) && row.key == key && |row.id| == k
    ensures var n := Apply(c, fails, Apply(c, fails, w, AddRow(row)), FlushNow);
            AfterRounds(n, key, k + 1) && n.disk.files == w.disk.files[File(c.runId, key, k + 1) := [row]]
  {
    var a := Accept(w, row);
    assert a.pending == [Batch(key, [row])];
    FlushOneRow(c, fails, a, row);
    hide FlushBatches;
    assert row.id !in w.seen;
  }

  lemma RunTwo(c: Config, fails: Oracle, w: Writer, ops: seq<Op>, a: Op, b: Op)
    requires Sane(c)
    ensures Run(c, fails, w, ops + [a, b]) == Apply(c, fails, Apply(c, fails, Run(c, fails, w, ops), a), b)
  {
    hide Apply;
    var all := ops + [a, b];
    assert all[..|all| - 1] == ops + [a];
    assert (ops + [a])[..|ops|] == ops;
    assert Run(c, fails, w, ops + [a]) == Apply(c, fails, Run(c, fails, w, ops), a);
  }

  /** The last of k rounds has written its row to file number k. */
  lemma {:induction false} RoundsWrite(c: Config, fails: Oracle, files: map<File, seq<Row>>, key: Key, data: int, k: nat)
    requires Sane(c) && forall n :: !fails(n)
    ensures var w := Run(c, fails, NewWriter(files), Rounds(key, data, k));
            && AfterRounds(w, key, k)
            && (0 < k ==> var f := File(c.runId, key, k);
                          f in w.disk.files && w.disk.files[f] == [Row(Id(k - 1), key, data)])
  {
    hide *;
    if k == 0 {
      NoRounds(c, fails, files, key, data);
    } else {
      var row, before := Row(Id(k - 1), key, data), Rounds(key, data, k - 1);
      RoundsWrite(c, fails, files, key, data, k - 1);
      RoundUnfolds(key, data, k);
      RunTwo(c, fails, NewWriter(files), before, AddRow(row), FlushNow);
      RoundWrites(c, fails, Run(c, fails, NewWriter(files), before), key, k - 1, row);
    }
  }

  lemma NoRounds(c: Config, fails: Oracle, files: map<File, seq<Row>>, key: Key, data: int)
    requires Sane(c)
    ensures AfterRounds(Run(c, fails, NewWriter(files), Rounds(key, data, 0)), key, 0)
  {
  }

  lemma RoundUnfolds(key: Key, data: int, k: nat)
    requires 0 < k
    ensures Rounds(key, data, k) == Rounds(key, data, k - 1) + [AddRow(Row(Id(k - 1), key, data)), FlushNow]
    ensures |Id(k - 1)| == k - 1
  {
  }

  /** A file of this run id with a number from 1 on is replaced by that many rounds. */
  lemma ReusedRunIdOverwrites(c: Config, fails: Oracle, files: map<File, seq<Row>>, f: File) returns (ops: seq<Op>)
    requires Sane(c) && (forall n :: !fails(n)) && f in files && f.runId == c.runId && 1 <= f.seq_
    ensures !KeepsFiles(c, fails, files, ops)
  {
    var k := f.seq_;
    var data := if files[f] == [Row(Id(k - 1), f.key, 0)] then 1 else 0;
    RoundsWrite(c, fails, files, f.key, data, k);
    ops := Rounds(f.key, data, k);
    hide Run, AfterRounds, Rounds;
    assert [Row(Id(k - 1), f.key, data)][0] == Row(Id(k - 1), f.key, data);
    assert [Row(Id(k - 1), f.key, data)] != files[f];
  }

  /**
   * Restarting never replaces a part file, whatever is added and whatever
   * fails, if and only if the run id has no part file with a number from 1 on.
   */
  lemma RestartsKeepFilesExactly(c: Config, files: map<File, seq<Row>>)
    requires Sane(c)
    ensures (forall fails: Oracle, ops :: KeepsFiles(c, fails, files, ops)) <==> FreshRunId(c, files)
  {
    if FreshRunId(c, files) {
      forall fails: Oracle, ops
        ensures KeepsFiles(c, fails, files, ops)
      {
        RunKeeps(c, fails, files, ops);
        hide Inv, Run;
      }
    } else {
      var f :| f in files && f.runId == c.runId && f.seq_ != 0;
      var healthy: Oracle := (n: nat) => false;
      var ops := ReusedRunIdOverwrites(c, healthy, files, f);
    }
  }
}
