/**
 * What a flush achieves.  A failing partition costs only its own batch: every
 * other batch is written out in full, in files of its own partition, and the
 * failed ones are kept as they were.
 */
module ParquetFlush {
  import opened ParquetWriter

  /** The rows in the part files number a + 1 to b of a partition, in order. */
  ghost function RowsIn(files: map<File, seq<Row>>, runId: string, key: Key, a: nat, b: nat): seq<Row>
    decreases b - a
  {
    if b <= a then []
    else
      var f := File(runId, key, a + 1);
      (if f in files then files[f] else []) + RowsIn(files, runId, key, a + 1, b)
  }

  /** How many of the operations number a to b - 1 raise. */
  ghost function Raised(fails: Oracle, a: nat, b: nat): nat
    decreases b - a
  {
    if b <= a then 0 else (if fails(a) then 1 else 0) + Raised(fails, a + 1, b)
  }

  lemma {:induction false} RaisedSplit(fails: Oracle, a: nat, b: nat, k: nat)
    requires a <= b <= k
    ensures Raised(fails, a, k) == Raised(fails, a, b) + Raised(fails, b, k)
    decreases b - a
  {
    if a < b {
      RaisedSplit(fails, a + 1, b, k);
    }
  }

  /** Files outside numbers above n of the partition are as they were. */
  ghost predicate Untouched(c: Config, d: Disk, e: Disk, key: Key, n: nat) {
    forall f: File :: f.runId != c.runId || f.key != key || f.seq_ <= n ==>
      (f in e.files <==> f in d.files) && (f in d.files ==> e.files[f] == d.files[f])
  }

  /** No part file of the partition has a number above n. */
  ghost predicate NoneAbove(c: Config, d: Disk, key: Key, n: nat) {
    forall f :: f in d.files && f.runId == c.runId && f.key == key ==> f.seq_ <= n
  }

  /** From d to r.disk the rows from `start` on have landed in the next files, all but
      the last of them full. If they have not all landed one operation raised, and the
      number of the chunk that failed, if any, is used up. */
  ghost predicate Lands(c: Config, fails: Oracle, d: Disk, next: nat, key: Key, rows: seq<Row>, start: nat, r: Written)
    requires start <= r.landed <= |rows|
  {
    && next <= r.next && d.attempts <= r.disk.attempts
    && RowsIn(r.disk.files, c.runId, key, next, r.next) == rows[start..r.landed]
    && (r.ok && start == |rows| ==> r.next == next)
    && (r.ok && start < |rows| ==>
          (r.next - next - 1) * c.maxBuffer < |rows| - start <= (r.next - next) * c.maxBuffer)
    && (!r.ok && next == r.next ==> r.landed == start)
    && (!r.ok && next < r.next ==> r.landed - start == (r.next - next - 1) * c.maxBuffer)
    && Raised(fails, d.attempts, r.disk.attempts) == (if r.ok then 0 else 1)
    && Untouched(c, d, r.disk, key, next) && NoneAbove(c, r.disk, key, r.next)
  }

  /** Nothing left to write, or a write that raises. */
  lemma ChunksEnd(c: Config, fails: Oracle, d: Disk, next: nat, key: Key, rows: seq<Row>, start: nat)
    requires Sane(c) && start <= |rows| && NoneAbove(c, d, key, next) && (start == |rows| || fails(d.attempts))
    ensures var r := WriteChunks(c, fails, d, next, key, rows, start);
            Lands(c, fails, d, next, key, rows, start, r) && (!r.ok ==> next < r.next)
  {
    assert RowsIn(d.files, c.runId, key, next, next + 1) == [];
    assert Raised(fails, d.attempts, d.attempts + 1) == if fails(d.attempts) then 1 else 0;
  }

  lemma {:induction false} ChunksLand(c: Config, fails: Oracle, d: Disk, next: nat, key: Key, rows: seq<Row>, start: nat)
    requires Sane(c) && start <= |rows| && NoneAbove(c, d, key, next)
    ensures var r := WriteChunks(c, fails, d, next, key, rows, start);
            Lands(c, fails, d, next, key, rows, start, r) && (!r.ok ==> next < r.next)
    decreases |rows| - start
  {
    hide Lands;
    if start == |rows| || fails(d.attempts) {
      ChunksEnd(c, fails, d, next, key, rows, start);
    } else {
      var end := End(c, rows, start);
      var e := WriteChunk(c, d, next + 1, key, rows[start..end]);
      ChunksLand(c, fails, e, next + 1, key, rows, end);
      ChunkFirst(c, fails, d, next, key, rows, start, WriteChunks(c, fails, d, next, key, rows, start));
    }
  }

  lemma ChunkFirst(c: Config, fails: Oracle, d: Disk, next: nat, key: Key, rows: seq<Row>, start: nat, r: Written)
    requires Sane(c) && start < |rows| && NoneAbove(c, d, key, next) && !fails(d.attempts)
    requires var end := End(c, rows, start);
             && start < end <= r.landed <= |rows| && (r.ok <==> r.landed == |rows|)
             && (!r.ok ==> next + 1 < r.next)
             && Lands(c, fails, WriteChunk(c, d, next + 1, key, rows[start..end]), next + 1, key, rows, end, r)
    ensures Lands(c, fails, d, next, key, rows, start, r)
  {
    var end := End(c, rows, start);
    var e := WriteChunk(c, d, next + 1, key, rows[start..end]);
    var f := File(c.runId, key, next + 1);
    assert f in e.files && e.files[f] == rows[start..end];
    assert f in r.disk.files && r.disk.files[f] == rows[start..end];
    assert rows[start..end] + rows[end..r.landed] == rows[start..r.landed];
    ChunkCount(c.maxBuffer, r.next - next - 1, |rows| - start, |rows| - end);
    FailedCount(c.maxBuffer, r.next - next - 1, r.landed - start);
  }

  lemma FailedCount(size: int, n: int, rows: int)
    ensures rows - size == (n - 1) * size <==> rows == n * size
  {
  }

  lemma ChunkCount(size: int, n: int, rows: int, rest: int)
    requires 0 < size && 0 <= n && 0 < rows && (rest == rows - size >= 0 || (rest == 0 && rows <= size))
    ensures rest == 0 && n == 0 ==> n * size < rows <= (n + 1) * size
    ensures 0 < rest && (n - 1) * size < rest <= n * size ==> n * size < rows <= (n + 1) * size
  {
  }

  // ---- One batch ------------------------------------------------------------------------------

  ghost predicate Numbered(c: Config, w: Writer) {
    forall f :: f in w.disk.files && f.runId == c.runId ==> f.seq_ <= SeqOf(w.seqs, f.key)
  }

  /** What happened to b: its rows are in the files written for its partition since
      the numbers `was`, all of them, or, if it stays, only some of the first, in full
      chunks before the number that failed. */
  ghost predicate Outcome(c: Config, was: map<Key, nat>, n: Writer, b: Batch, stays: bool) {
    var from, to := SeqOf(was, b.key), SeqOf(n.seqs, b.key);
    var got := RowsIn(n.disk.files, c.runId, b.key, from, to);
    if stays then
      && got < b.rows && (to == from ==> got == [])
      && (from < to ==> |got| == (to - from - 1) * c.maxBuffer)
    else
      && got == b.rows
      && (b.rows == [] ==> to == from)
      && (b.rows != [] ==> (to - from - 1) * c.maxBuffer < |b.rows| <= (to - from) * c.maxBuffer)
  }

  /** From w to n nothing happened to the files and the number of partition `key`. */
  ghost predicate Spared(c: Config, w: Writer, n: Writer, key: Key) {
    && SeqOf(n.seqs, key) == SeqOf(w.seqs, key)
    && forall f: File :: f.key == key ==>
         (f in n.disk.files <==> f in w.disk.files) && (f in w.disk.files ==> n.disk.files[f] == w.disk.files[f])
  }

  lemma PartitionLands(c: Config, fails: Oracle, d: Disk, next: nat, key: Key, rows: seq<Row>)
    requires Sane(c) && rows != [] && NoneAbove(c, d, key, next)
    ensures Lands(c, fails, d, next, key, rows, 0, WritePartition(c, fails, d, next, key, rows))
  {
    if !fails(d.attempts) {
      ChunksLand(c, fails, d.(attempts := d.attempts + 1), next, key, rows, 0);
    }
  }

  /** The ledger of a part of a flush: `stayed` batches were kept and `written` rows left. */
  ghost predicate Accounts(fails: Oracle, w: Writer, n: Writer, stayed: nat, written: int) {
    && w.disk.attempts <= n.disk.attempts && Raised(fails, w.disk.attempts, n.disk.attempts) == stayed
    && n.flushErrors == w.flushErrors + stayed
    && n.rowsWritten == w.rowsWritten + written && n.pendingCount == w.pendingCount - written
  }

  lemma BatchAccounts(c: Config, fails: Oracle, w: Writer, b: Batch)
    requires Sane(c) && Numbered(c, w)
    ensures var (n, stays) := FlushBatch(c, fails, w, b);
            Accounts(fails, w, n, if stays then 1 else 0, if stays then 0 else |b.rows|)
  {
    hide WritePartition, RowsIn, Untouched;
    if b.rows != [] {
      PartitionLands(c, fails, w.disk, SeqOf(w.seqs, b.key), b.key, b.rows);
    }
  }

  lemma BatchSpares(c: Config, fails: Oracle, w: Writer, b: Batch, key: Key)
    requires Sane(c) && Numbered(c, w) && key != b.key
    ensures Spared(c, w, FlushBatch(c, fails, w, b).0, key)
  {
    hide WritePartition, RowsIn, Raised;
    if b.rows != [] {
      PartitionLands(c, fails, w.disk, SeqOf(w.seqs, b.key), b.key, b.rows);
    }
  }

  lemma BatchNumbers(c: Config, fails: Oracle, w: Writer, b: Batch)
    requires Sane(c) && Numbered(c, w)
    ensures Numbered(c, FlushBatch(c, fails, w, b).0)
  {
    hide WritePartition, RowsIn, Raised;
    if b.rows != [] {
      PartitionLands(c, fails, w.disk, SeqOf(w.seqs, b.key), b.key, b.rows);
      var n := FlushBatch(c, fails, w, b).0;
      forall f | f in n.disk.files && f.runId == c.runId
        ensures f.seq_ <= SeqOf(n.seqs, f.key)
      {
        if f.key != b.key {
          assert f in w.disk.files;
        }
      }
    }
  }

  lemma BatchState(c: Config, fails: Oracle, w: Writer, b: Batch)
    requires Sane(c) && b.rows != []
    ensures var (n, stays) := FlushBatch(c, fails, w, b);
            var r := WritePartition(c, fails, w.disk, SeqOf(w.seqs, b.key), b.key, b.rows);
            n.disk == r.disk && SeqOf(n.seqs, b.key) == r.next && (stays <==> !r.ok)
  {
    hide WritePartition;
  }

  lemma LandedOutcome(c: Config, fails: Oracle, d: Disk, was: map<Key, nat>, n: Writer, b: Batch, r: Written)
    requires b.rows != [] && r.landed <= |b.rows| && (r.ok <==> r.landed == |b.rows|)
    requires Lands(c, fails, d, SeqOf(was, b.key), b.key, b.rows, 0, r) && n.disk == r.disk && SeqOf(n.seqs, b.key) == r.next
    ensures Outcome(c, was, n, b, !r.ok)
  {
    hide RowsIn, Untouched, Raised, NoneAbove;
    assert b.rows[0..r.landed] == b.rows[..r.landed];
    assert b.rows[..|b.rows|] == b.rows;
  }

  lemma BatchWritten(c: Config, fails: Oracle, w: Writer, b: Batch)
    requires Sane(c) && Numbered(c, w)
    ensures var (n, stays) := FlushBatch(c, fails, w, b); Outcome(c, w.seqs, n, b, stays)
  {
    var (n, stays) := FlushBatch(c, fails, w, b);
    if b.rows != [] {
      hide FlushBatch, WritePartition, Lands, Outcome;
      StartsAbove(c, w, b.key);
      PartitionLands(c, fails, w.disk, SeqOf(w.seqs, b.key), b.key, b.rows);
      BatchState(c, fails, w, b);
      LandedOutcome(c, fails, w.disk, w.seqs, n, b,
                    WritePartition(c, fails, w.disk, SeqOf(w.seqs, b.key), b.key, b.rows));
    }
  }

  lemma StartsAbove(c: Config, w: Writer, key: Key)
    requires Numbered(c, w)
    ensures NoneAbove(c, w.disk, key, SeqOf(w.seqs, key))
  {
  }

  // ---- All batches ------------------------------------------------------------------------------

  lemma {:induction false} RowsInSame(c: Config, w: Writer, n: Writer, key: Key, a: nat, b: nat)
    requires Spared(c, w, n, key)
    ensures RowsIn(n.disk.files, c.runId, key, a, b) == RowsIn(w.disk.files, c.runId, key, a, b)
    decreases b - a
  {
    if a < b {
      RowsInSame(c, w, n, key, a + 1, b);
    }
  }

  /** The outcome of a batch is not changed by writing other partitions. */
  lemma OutcomeLasts(c: Config, was: map<Key, nat>, m: Writer, n: Writer, b: Batch, stays: bool)
    requires Outcome(c, was, m, b, stays) && Spared(c, m, n, b.key)
    ensures Outcome(c, was, n, b, stays)
  {
    RowsInSame(c, m, n, b.key, SeqOf(was, b.key), SeqOf(m.seqs, b.key));
  }

  /** The batches of `todo` whose key is among those of `stay`. */
  function Keep(todo: seq<Batch>, keys: set<Key>): seq<Batch> {
    if todo == [] then [] else (if todo[0].key in keys then [todo[0]] else []) + Keep(todo[1..], keys)
  }

  function Keys(bs: seq<Batch>): set<Key> {
    if bs == [] then {} else {bs[0].key} + Keys(bs[1..])
  }

  ghost predicate Distinct(bs: seq<Batch>) {
    forall i, j :: 0 <= i < j < |bs| ==> bs[i].key != bs[j].key
  }

  /** The loop over `todo` has kept exactly `stay`. */
  ghost predicate FlushedAs(c: Config, fails: Oracle, w: Writer, n: Writer, todo: seq<Batch>, stay: seq<Batch>) {
    && stay == Keep(todo, Keys(stay)) && Keys(stay) <= Keys(todo)
    && (forall b :: b in todo ==> Outcome(c, w.seqs, n, b, b.key in Keys(stay)))
    && Accounts(fails, w, n, |stay|, Count(todo) - Count(stay))
    && (forall key :: key !in Keys(todo) ==> Spared(c, w, n, key))
  }

  lemma {:induction false} KeysAre(bs: seq<Batch>, key: Key)
    ensures key in Keys(bs) <==> exists i :: 0 <= i < |bs| && bs[i].key == key
  {
    if bs != [] {
      KeysAre(bs[1..], key);
      if key in Keys(bs[1..]) {
        var i :| 0 <= i < |bs[1..]| && bs[1..][i].key == key;
        assert bs[i + 1].key == key;
      }
    }
  }

  lemma {:induction false} KeepSame(todo: seq<Batch>, keys: set<Key>, more: set<Key>)
    requires forall b :: b in todo ==> (b.key in keys <==> b.key in more)
    ensures Keep(todo, keys) == Keep(todo, more)
  {
    if todo != [] {
      KeepSame(todo[1..], keys, more);
    }
  }

  lemma {:induction false} BatchesOutcome(c: Config, fails: Oracle, w: Writer, todo: seq<Batch>, kept: seq<Batch>)
    returns (stay: seq<Batch>)
    requires Sane(c) && Numbered(c, w) && Distinct(todo)
    ensures var n := FlushBatches(c, fails, w, todo, kept);
            n.pending == kept + stay && FlushedAs(c, fails, w, n, todo, stay)
    decreases |todo|
  {
    hide FlushBatch, Outcome, Accounts, Spared, Numbered;
    var n := FlushBatches(c, fails, w, todo, kept);
    if todo == [] {
      stay := [];
      NothingFlushed(fails, w, kept);
      NothingSpares(c, w, kept);
    } else {
      var b := todo[0];
      var (m, stays) := FlushBatch(c, fails, w, b);
      BatchNumbers(c, fails, w, b);
      var rest := BatchesOutcome(c, fails, m, todo[1..], if stays then kept + [b] else kept);
      stay := (if stays then [b] else []) + rest;
      assert n.pending == kept + stay;
      FirstBatch(c, fails, w, todo, n, rest);
    }
  }

  lemma NothingFlushed(fails: Oracle, w: Writer, kept: seq<Batch>)
    ensures Accounts(fails, w, w.(pending := kept), 0, 0)
  {
  }

  lemma NothingSpares(c: Config, w: Writer, kept: seq<Batch>)
    ensures forall key :: Spared(c, w, w.(pending := kept), key)
  {
  }

  lemma AccountsAdd(fails: Oracle, w: Writer, m: Writer, n: Writer, a: nat, x: int, b: nat, y: int)
    requires Accounts(fails, w, m, a, x) && Accounts(fails, m, n, b, y)
    ensures Accounts(fails, w, n, a + b, x + y)
  {
    RaisedSplit(fails, w.disk.attempts, m.disk.attempts, n.disk.attempts);
  }

  lemma SparedTwice(c: Config, w: Writer, m: Writer, n: Writer, key: Key)
    requires Spared(c, w, m, key) && Spared(c, m, n, key)
    ensures Spared(c, w, n, key)
  {
  }

  lemma SameOutcome(c: Config, w: Writer, m: Writer, n: Writer, b: Batch, stays: bool)
    requires Spared(c, w, m, b.key) && Outcome(c, m.seqs, n, b, stays)
    ensures Outcome(c, w.seqs, n, b, stays)
  {
    hide RowsIn;
  }

  /** The keys and batches kept, the first one included. */
  lemma FirstKept(todo: seq<Batch>, rest: seq<Batch>, stays: bool)
    requires Distinct(todo) && todo != [] && rest == Keep(todo[1..], Keys(rest)) && Keys(rest) <= Keys(todo[1..])
    ensures var stay := (if stays then [todo[0]] else []) + rest;
            && stay == Keep(todo, Keys(stay)) && Keys(stay) <= Keys(todo)
            && (todo[0].key in Keys(stay) <==> stays)
            && (forall key :: key != todo[0].key ==> (key in Keys(stay) <==> key in Keys(rest)))
            && Count(stay) == Count(rest) + if stays then |todo[0].rows| else 0
  {
    var b, stay := todo[0], (if stays then [todo[0]] else []) + rest;
    if stays {
      assert stay[1..] == rest;
    } else {
      assert stay == rest;
    }
    assert b.key !in Keys(todo[1..]) by {
      KeysAre(todo[1..], b.key);
    }
    KeepSame(todo[1..], Keys(rest), Keys(stay));
  }

  lemma OtherKeys(todo: seq<Batch>, x: Batch)
    requires Distinct(todo) && x in todo
    ensures x == todo[0] || (x in todo[1..] && x.key != todo[0].key)
  {
    var i :| 0 <= i < |todo| && todo[i] == x;
    assert 0 < i ==> todo[1..][i - 1] == x;
  }

  lemma OtherOutcomes(c: Config, fails: Oracle, w: Writer, todo: seq<Batch>, n: Writer, keys: set<Key>, x: Batch)
    requires Sane(c) && Numbered(c, w) && Distinct(todo) && todo != [] && x in todo && x != todo[0]
    requires forall b :: b in todo[1..] ==> Outcome(c, FlushBatch(c, fails, w, todo[0]).0.seqs, n, b, b.key in keys)
    ensures Outcome(c, w.seqs, n, x, x.key in keys)
  {
    hide FlushBatch, Outcome, Spared, Numbered, Distinct;
    OtherKeys(todo, x);
    BatchSpares(c, fails, w, todo[0], x.key);
    SameOutcome(c, w, FlushBatch(c, fails, w, todo[0]).0, n, x, x.key in keys);
  }

  /** One batch, and then the others. */
  lemma FirstBatch(c: Config, fails: Oracle, w: Writer, todo: seq<Batch>, n: Writer, rest: seq<Batch>)
    requires Sane(c) && Numbered(c, w) && Distinct(todo) && todo != []
    requires FlushedAs(c, fails, FlushBatch(c, fails, w, todo[0]).0, n, todo[1..], rest)
    ensures var stays := FlushBatch(c, fails, w, todo[0]).1;
            FlushedAs(c, fails, w, n, todo, (if stays then [todo[0]] else []) + rest)
  {
    hide FlushBatch, Outcome, Accounts, Spared, Numbered, Keep, Keys, Distinct, Count;
    var b := todo[0];
    var (m, stays) := FlushBatch(c, fails, w, b);
    var stay := (if stays then [b] else []) + rest;
    FirstKept(todo, rest, stays);
    FirstSums(todo);
    BatchAccounts(c, fails, w, b);
    AccountsAdd(fails, w, m, n, if stays then 1 else 0, if stays then 0 else |b.rows|, |rest|, Count(todo[1..]) - Count(rest));
    BatchWritten(c, fails, w, b);
    OutcomeLasts(c, w.seqs, m, n, b, stays);
    forall x | x in todo
      ensures Outcome(c, w.seqs, n, x, x.key in Keys(stay))
    {
      if x != b {
        OtherKeys(todo, x);
        OtherOutcomes(c, fails, w, todo, n, Keys(rest), x);
      }
    }
    forall key | key !in Keys(todo)
      ensures Spared(c, w, n, key)
    {
      BatchSpares(c, fails, w, b, key);
      SparedTwice(c, w, m, n, key);
    }
  }

  lemma FirstSums(todo: seq<Batch>)
    requires todo != [] && Distinct(todo)
    ensures Keys(todo) == {todo[0].key} + Keys(todo[1..]) && todo[0].key !in Keys(todo[1..])
    ensures Count(todo) == |todo[0].rows| + Count(todo[1..])
  {
    KeysAre(todo[1..], todo[0].key);
  }

  // ---- The overflow guard -------------------------------------------------------------------------

  /** Of the batches that stay the first k are dropped: none within the limit, else just
      as many as it takes to come down to half of it. */
  ghost predicate Guarded(c: Config, stay: seq<Batch>, k: nat) {
    && k <= |stay|
    && (Count(stay) <= c.maxPending ==> k == 0)
    && (c.maxPending < Count(stay) ==>
          0 < k && Count(stay[k..]) <= c.maxPending / 2 < Count(stay[k - 1..]))
  }

  ghost function Dropped(w: Writer, k: nat): Writer
    requires k <= |w.pending|
  {
    w.(pending := w.pending[k..], pendingCount := Count(w.pending[k..]),
       log := w.log.(dropped := w.log.dropped + BatchRows(w.pending[..k])))
  }

  lemma DropsNothing(w: Writer)
    requires w.pendingCount == Count(w.pending)
    ensures Dropped(w, 0) == w
  {
    assert w.pending[..0] == [] && w.pending[0..] == w.pending;
    assert w.log.dropped + BatchRows([]) == w.log.dropped;
  }

  lemma DropsOneMore(w: Writer, i: nat)
    requires w.pending != [] && i < |w.pending|
    ensures Dropped(DropOne(w), i) == Dropped(w, i + 1)
  {
    var b, k := w.pending[0], i + 1;
    assert w.pending[1..][i..] == w.pending[k..];
    assert w.pending[..k][1..] == w.pending[1..][..i] && w.pending[..k][0] == b;
    assert BatchRows(w.pending[..k]) == multiset(b.rows) + BatchRows(w.pending[1..][..i]);
  }

  lemma {:induction false} GuardDrops(c: Config, w: Writer) returns (k: nat)
    requires w.pendingCount == Count(w.pending)
    ensures k <= |w.pending| && DropOldest(c, w) == Dropped(w, k)
    ensures Count(w.pending[k..]) <= c.maxPending / 2
    ensures 0 < k ==> c.maxPending / 2 < Count(w.pending[k - 1..])
    decreases |w.pending|
  {
    hide Dropped, BatchRows;
    assert w.pending[0..] == w.pending;
    if w.pending == [] || w.pendingCount <= c.maxPending / 2 {
      k := 0;
      DropsNothing(w);
    } else {
      var i := GuardDrops(c, DropOne(w));
      k := i + 1;
      DropsOneMore(w, i);
      assert w.pending[1..][i..] == w.pending[k..];
      assert 0 < i ==> w.pending[1..][i - 1..] == w.pending[k - 1..];
    }
  }

  /**
   * A flush with work to do tries every batch.  `stay` are the batches whose own
   * write raised, as many as operations did; all others are on disk.  The guard
   * then drops the first k of them.
   */
  lemma FlushOutcome(c: Config, fails: Oracle, w: Writer) returns (m: Writer, stay: seq<Batch>, k: nat)
    requires Sane(c) && Inv(c, w)
    ensures w.pendingCount == 0 ==> Flush(c, fails, w) == w
    ensures w.pendingCount != 0 ==>
              && FlushedAs(c, fails, w, m, w.pending, stay)
              && m.pending == stay && Guarded(c, stay, k)
              && Flush(c, fails, w) == Dropped(m, k)
  {
    hide FlushedAs, DropOldest, Inv, FlushBatches, Dropped, Count, Numbered, Distinct;
    m := FlushBatches(c, fails, w, w.pending, []);
    k := 0;
    InvNumbers(c, w);
    stay := BatchesOutcome(c, fails, w, w.pending, []);
    assert [] + stay == stay && stay[0..] == stay;
    FlushCount(c, fails, w);
    DropsNothing(m);
    if c.maxPending < Count(stay) {
      k := GuardDrops(c, m);
    }
  }

  lemma InvNumbers(c: Config, w: Writer)
    requires Inv(c, w)
    ensures Numbered(c, w) && Distinct(w.pending)
  {
    hide PartRows, BatchRows, Count, PartOk;
  }

  lemma FlushCount(c: Config, fails: Oracle, w: Writer)
    requires Sane(c) && Inv(c, w)
    ensures var m := FlushBatches(c, fails, w, w.pending, []); m.pendingCount == Count(m.pending)
  {
    hide FlushBatches, DiskInv, PartRows;
    assert [] + w.pending == w.pending;
    assert BatchRows([]) + BatchRows(w.pending) == BatchRows(w.pending);
    FlushBatchesKeeps(c, fails, w, w.pending, []);
  }

  /** So a flush during which nothing raises leaves nothing behind and nothing unwritten. */
  lemma QuietFlush(c: Config, fails: Oracle, w: Writer)
    requires Sane(c) && Inv(c, w) && w.pendingCount != 0
    requires Raised(fails, w.disk.attempts, Flush(c, fails, w).disk.attempts) == 0
    ensures var n := Flush(c, fails, w);
            && n.pending == [] && n.flushErrors == w.flushErrors && n.rowsWritten == w.rowsWritten + Count(w.pending)
            && forall b :: b in w.pending ==> Outcome(c, w.seqs, n, b, false)
  {
    hide Outcome, Inv, Flush, Raised, Spared;
    var m, stay, k := FlushOutcome(c, fails, w);
    forall b | b in w.pending
      ensures Outcome(c, w.seqs, Dropped(m, k), b, false)
    {
      assert Outcome(c, w.seqs, m, b, b.key in Keys(stay));
      OutcomeLasts(c, w.seqs, m, Dropped(m, k), b, false) by {
        SparedByGuard(c, m, k, b.key);
      }
    }
  }

  lemma SparedByGuard(c: Config, w: Writer, k: nat, key: Key)
    requires k <= |w.pending|
    ensures Spared(c, w, Dropped(w, k), key)
  {
  }

  // ---- What is accepted, and where it waits ---------------------------------------------------------

  /** The ids added since the last reset. */
  function SessionIds(ops: seq<Op>): set<string> {
    if ops == [] then {}
    else
      match ops[|ops| - 1]
      case AddRow(row) => SessionIds(ops[..|ops| - 1]) + {row.id}
      case FlushNow => SessionIds(ops[..|ops| - 1])
      case Reset => {}
  }

  /** The rows whose id is new in their session. */
  function NewRows(ops: seq<Op>): multiset<Row> {
    if ops == [] then multiset{}
    else
      var before, op := ops[..|ops| - 1], ops[|ops| - 1];
      NewRows(before) + if op.AddRow? && op.row.id !in SessionIds(before) then multiset{op.row} else multiset{}
  }

  lemma {:induction false} BatchesFrame(c: Config, fails: Oracle, w: Writer, todo: seq<Batch>, kept: seq<Batch>)
    requires Sane(c)
    ensures var n := FlushBatches(c, fails, w, todo, kept); n.seen == w.seen && n.log.accepted == w.log.accepted
    decreases |todo|
  {
    hide WritePartition;
    if todo != [] {
      var (n, stays) := FlushBatch(c, fails, w, todo[0]);
      BatchesFrame(c, fails, n, todo[1..], if stays then kept + [todo[0]] else kept);
    }
  }

  lemma {:induction false} DropFrame(c: Config, w: Writer)
    ensures var n := DropOldest(c, w); n.seen == w.seen && n.log.accepted == w.log.accepted
    decreases |w.pending|
  {
    if w.pending != [] && c.maxPending / 2 < w.pendingCount {
      DropFrame(c, DropOne(w));
    }
  }

  lemma FlushFrame(c: Config, fails: Oracle, w: Writer)
    requires Sane(c)
    ensures var n := Flush(c, fails, w); n.seen == w.seen && n.log.accepted == w.log.accepted
  {
    hide FlushBatches, DropOldest;
    BatchesFrame(c, fails, w, w.pending, []);
    DropFrame(c, FlushBatches(c, fails, w, w.pending, []));
  }

  /** Over any run a row is accepted if and only if its id is new since the last reset. */
  lemma {:induction false} AcceptsExactlyNew(c: Config, fails: Oracle, files: map<File, seq<Row>>, ops: seq<Op>)
    requires Sane(c)
    ensures var w := Run(c, fails, NewWriter(files), ops);
            w.seen == SessionIds(ops) && w.log.accepted == NewRows(ops)
  {
    if ops != [] {
      hide Flush;
      var w, op := Run(c, fails, NewWriter(files), ops[..|ops| - 1]), ops[|ops| - 1];
      AcceptsExactlyNew(c, fails, files, ops[..|ops| - 1]);
      FlushFrame(c, fails, w);
      if op.AddRow? {
        FlushFrame(c, fails, Accept(w, op.row));
        assert op.row.id in w.seen ==> w.seen + {op.row.id} == w.seen;
      }
    }
  }

  /** The pending rows of one partition, in the order they came. */
  function RowsOf(pending: seq<Batch>, key: Key): seq<Row> {
    if pending == [] then []
    else (if pending[0].key == key then pending[0].rows else []) + RowsOf(pending[1..], key)
  }

  function KeyOrder(pending: seq<Batch>): seq<Key> {
    if pending == [] then [] else [pending[0].key] + KeyOrder(pending[1..])
  }

  /** An accepted row is the last of its partition, and a new partition comes last. */
  lemma {:induction false} AppendIsLast(pending: seq<Batch>, row: Row, key: Key)
    requires Distinct(pending)
    ensures RowsOf(Append(pending, row), key) == RowsOf(pending, key) + if key == row.key then [row] else []
    ensures KeyOrder(Append(pending, row)) == KeyOrder(pending) + if row.key in KeyOrder(pending) then [] else [row.key]
    decreases |pending|
  {
    if pending == [] {
      assert [Batch(row.key, [row])][1..] == [];
    } else if pending[0].key == row.key {
      assert Append(pending, row)[1..] == pending[1..];
      NoneLeft(pending[1..], row.key);
    } else {
      assert Append(pending, row)[1..] == Append(pending[1..], row);
      AppendIsLast(pending[1..], row, key);
    }
  }

  lemma {:induction false} NoneLeft(pending: seq<Batch>, key: Key)
    requires forall i :: 0 <= i < |pending| ==> pending[i].key != key
    ensures RowsOf(pending, key) == []
  {
    if pending != [] {
      NoneLeft(pending[1..], key);
    }
  }

  // ---- When add flushes -------------------------------------------------------------------------------

  lemma {:induction false} ChunksTry(c: Config, fails: Oracle, d: Disk, next: nat, key: Key, rows: seq<Row>, start: nat)
    requires Sane(c) && start <= |rows|
    ensures d.attempts <= WriteChunks(c, fails, d, next, key, rows, start).disk.attempts
    decreases |rows| - start
  {
    if start < |rows| && !fails(d.attempts) {
      var end := End(c, rows, start);
      ChunksTry(c, fails, WriteChunk(c, d, next + 1, key, rows[start..end]), next + 1, key, rows, end);
    }
  }

  lemma BatchTries(c: Config, fails: Oracle, w: Writer, b: Batch)
    requires Sane(c)
    ensures var n := FlushBatch(c, fails, w, b).0;
            if b.rows == [] then n.disk.attempts == w.disk.attempts else w.disk.attempts < n.disk.attempts
  {
    if b.rows != [] {
      ChunksTry(c, fails, w.disk.(attempts := w.disk.attempts + 1), SeqOf(w.seqs, b.key), b.key, b.rows, 0);
    }
    hide WriteChunks;
  }

  lemma {:induction false} BatchesTry(c: Config, fails: Oracle, w: Writer, todo: seq<Batch>, kept: seq<Batch>)
    requires Sane(c)
    ensures var n := FlushBatches(c, fails, w, todo, kept);
            if Count(todo) == 0 then n.disk.attempts == w.disk.attempts else w.disk.attempts < n.disk.attempts
    decreases |todo|
  {
    hide FlushBatch;
    if todo != [] {
      var (n, stays) := FlushBatch(c, fails, w, todo[0]);
      BatchTries(c, fails, w, todo[0]);
      BatchesTry(c, fails, n, todo[1..], if stays then kept + [todo[0]] else kept);
    }
  }

  /** Adding a new row touches the disk exactly when the rows in memory then fill a buffer. */
  lemma AddFlushesExactly(c: Config, fails: Oracle, w: Writer, row: Row)
    requires Sane(c) && Inv(c, w)
    ensures var n := Add(c, fails, w, row);
            && (row.id !in w.seen ==> (w.disk.attempts < n.disk.attempts <==> c.maxBuffer <= Count(w.pending) + 1))
            && (row.id in w.seen ==> n == w)
  {
    hide FlushBatches, DropOldest, Append, DiskInv, PartRows, BatchRows;
    var a := Accept(w, row);
    AppendAdds(w.pending, row);
    if row.id !in w.seen && c.maxBuffer <= a.pendingCount {
      BatchesTry(c, fails, a, a.pending, []);
      DropDisk(c, FlushBatches(c, fails, a, a.pending, []));
    }
  }

  lemma {:induction false} DropDisk(c: Config, w: Writer)
    ensures DropOldest(c, w).disk == w.disk
    decreases |w.pending|
  {
    if w.pending != [] && c.maxPending / 2 < w.pendingCount {
      DropDisk(c, DropOne(w));
    }
  }

  /** A session's end writes everything out, too. */
  lemma HealthyResetHasEverything(c: Config, fails: Oracle, files: map<File, seq<Row>>, ops: seq<Op>)
    requires Sane(c) && FreshRunId(c, files) && forall n :: !fails(n)
    ensures var w := Run(c, fails, NewWriter(files), ops + [Reset]);
            PartRows(w.disk.parts) == w.log.accepted && w.pendingCount == 0
  {
    var before := Run(c, fails, NewWriter(files), ops);
    assert (ops + [Reset])[..|ops|] == ops && (ops + [FlushNow])[..|ops|] == ops;
    HealthyDiskHasEverything(c, fails, files, ops);
    RunKeeps(c, fails, files, ops);
    hide Run, Inv;
    HealthyFlushes(c, fails, before);
  }

  lemma HealthyFlushes(c: Config, fails: Oracle, w: Writer)
    requires Sane(c) && Inv(c, w) && forall n :: !fails(n)
    ensures Flush(c, fails, w).pendingCount == 0
  {
    if w.pendingCount != 0 {
      HealthyBatches(c, fails, w, w.pending);
      FlushCount(c, fails, w);
    }
    hide FlushBatches, Inv;
  }
}
