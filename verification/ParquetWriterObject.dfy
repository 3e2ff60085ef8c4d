/**
 * LevelObservationWriter as the mutable object it is.  Each method is tied to
 * the function of module ParquetWriter on the object's whole state.
 */
module ParquetWriterObject {
  import opened PW = ParquetWriter

  class LevelObservationWriter {
    const config: Config
    /** Which file operations raise. */
    const fails: Oracle

    var pending: seq<Batch>
    var pendingCount: int
    var seen: set<string>
    var seqs: map<Key, nat>
    var rowsWritten: nat
    var flushErrors: nat
    var disk: Disk
    ghost var log: Log

    ghost function View(): Writer
      reads this
    {
      Writer(pending, pendingCount, seen, seqs, rowsWritten, flushErrors, disk, log)
    }

    constructor (config: Config, fails: Oracle, files: map<File, seq<Row>>)
      requires Sane(config)
      ensures this.config == config && this.fails == fails && View() == NewWriter(files)
    {
      this.config, this.fails := config, fails;
      pending, pendingCount, seen, seqs := [], 0, {}, map[];
      rowsWritten, flushErrors := 0, 0;
      disk := Disk(files, [], 0);
      log := NewWriter(files).log;
    }

    /** One file operation: true when it raises. */
    method Attempt() returns (raises: bool)
      modifies `disk
      ensures raises == fails(old(disk.attempts))
      ensures disk == old(disk).(attempts := old(disk.attempts) + 1)
    {
      raises := fails(disk.attempts);
      disk := disk.(attempts := disk.attempts + 1);
    }

    /** The next chunk goes to the next part file, unless the write raises. */
    method WriteOneChunk(key: Key, rows: seq<Row>, start: nat) returns (raises: bool, end: nat)
      requires Sane(config) && start < |rows|
      modifies `disk, `seqs
      ensures end == End(config, rows, start) && start < end <= |rows|
      ensures seqs == old(seqs)[key := SeqOf(old(seqs), key) + 1]
      ensures raises == fails(old(disk.attempts))
      ensures raises ==> disk == old(disk).(attempts := old(disk.attempts) + 1)
      ensures !raises ==> disk == WriteChunk(config, old(disk), SeqOf(seqs, key), key, rows[start..end])
    {
      end := if start + config.maxBuffer <= |rows| then start + config.maxBuffer else |rows|;
      var chunk := rows[start..end];
      var number := SeqOf(seqs, key) + 1;
      seqs := seqs[key := number];
      raises := Attempt();
      if !raises {
        var file := File(config.runId, key, number);
        disk := disk.(files := disk.files[file := chunk], parts := disk.parts + [Part(file, chunk)]);
      }
    }

    method WritePartition(key: Key, rows: seq<Row>) returns (ok: bool, ghost landed: nat)
      requires Sane(config) && rows != []
      modifies `disk, `seqs
      ensures var r := PW.WritePartition(config, fails, old(disk), SeqOf(old(seqs), key), key, rows);
              && disk == r.disk && seqs == old(seqs)[key := r.next] && ok == r.ok && landed == r.landed
    {
      landed := 0;
      seqs := seqs[key := SeqOf(seqs, key)];
      var raises := Attempt();
      if raises {
        return false, 0;
      }
      ghost var goal := WriteChunks(config, fails, disk, SeqOf(seqs, key), key, rows, 0);
      var start := 0;
      while start < |rows|
        invariant start <= |rows|
        invariant seqs == old(seqs)[key := SeqOf(seqs, key)]
        invariant goal == WriteChunks(config, fails, disk, SeqOf(seqs, key), key, rows, start)
      {
        var end;
        raises, end := WriteOneChunk(key, rows, start);
        if raises {
          return false, start;
        }
        start := end;
      }
      ok, landed := true, start;
    }

    /** The body of the flush loop for one batch. */
    method FlushOne(b: Batch) returns (stays: bool)
      requires Sane(config)
      modifies `disk, `seqs, `rowsWritten, `flushErrors, `pendingCount, `log
      ensures (View(), stays) == FlushBatch(config, fails, old(View()), b)
    {
      stays := false;
      if b.rows == [] {
        return;
      }
      ghost var landed: nat;
      var ok: bool;
      ok, landed := WritePartition(b.key, b.rows);
      if ok {
        rowsWritten := rowsWritten + |b.rows|;
        pendingCount := pendingCount - |b.rows|;
      } else {
        flushErrors := flushErrors + 1;
        log := log.(repeated := log.repeated + multiset(b.rows[..landed]),
                    lateFailures := log.lateFailures + (if 0 < landed then 1 else 0));
        stays := true;
      }
    }

    method Flush()
      requires Sane(config)
      modifies this
      ensures View() == PW.Flush(config, fails, old(View()))
    {
      if pendingCount == 0 {
        return;
      }
      var todo, kept := pending, [];
      while todo != []
        invariant pending == old(pending)
        invariant FlushBatches(config, fails, old(View()), old(pending), [])
               == FlushBatches(config, fails, View(), todo, kept)
        decreases |todo|
      {
        var stays := FlushOne(todo[0]);
        kept := if stays then kept + [todo[0]] else kept;
        todo := todo[1..];
      }
      pending := kept;
      DropOverflow();
    }

    method DropOverflow()
      modifies `pending, `pendingCount, `log
      ensures View() == if config.maxPending < old(pendingCount) then DropOldest(config, old(View())) else old(View())
    {
      if pendingCount <= config.maxPending {
        return;
      }
      while pending != [] && config.maxPending / 2 < pendingCount
        invariant DropOldest(config, old(View())) == DropOldest(config, View())
        decreases |pending|
      {
        var dropped := pending[0].rows;
        pending := pending[1..];
        pendingCount := pendingCount - |dropped|;
        log := log.(dropped := log.dropped + multiset(dropped));
      }
    }

    method Add(row: Row)
      requires Sane(config)
      modifies this
      ensures View() == PW.Add(config, fails, old(View()), row)
    {
      if row.id in seen {
        return;
      }
      seen := seen + {row.id};
      pending := Append(pending, row);
      pendingCount := pendingCount + 1;
      log := log.(accepted := log.accepted + multiset{row}, session := log.session + [row.id]);
      if config.maxBuffer <= pendingCount {
        Flush();
      }
    }

    method ResetSession()
      requires Sane(config)
      modifies this
      ensures View() == PW.ResetSession(config, fails, old(View()))
    {
      Flush();
      seen := {};
      log := log.(session := []);
    }
  }
}
