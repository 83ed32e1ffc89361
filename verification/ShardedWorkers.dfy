/** The chunk workers of a gather running at the same time on one staging buffer. */
module ShardedWorkers {
  import opened Arithmetic
  import opened Options
  import opened ShardedTable
  import opened ShardedGather

  // ------------------------------------------------------------- workers as copiers

  /** A worker copies `[lo, hi)` of the gathered bytes to the same place in the buffer; it
      has done the first `done` of them. */
  datatype Worker = Worker(lo: nat, hi: nat, done: nat)

  /** The workers cover the first `size` bytes one after the other. */
  predicate Chained(workers: seq<Worker>, size: nat) {
    && workers != [] && workers[0].lo == 0 && workers[|workers| - 1].hi == size
    && (forall w :: 0 <= w < |workers| ==> workers[w].lo + workers[w].done <= workers[w].hi)
    && (forall w :: 0 <= w < |workers| - 1 ==> workers[w].hi == workers[w + 1].lo)
  }

  /** Workers are in buffer order. */
  lemma {:induction false} EarlierEndsFirst(workers: seq<Worker>, size: nat, v: nat, w: nat)
    requires Chained(workers, size) && v < w < |workers|
    ensures workers[v].hi <= workers[w].lo
    decreases w - v
  {
    if v + 1 < w {
      EarlierEndsFirst(workers, size, v + 1, w);
    }
  }

  lemma {:induction false} WithinSize(workers: seq<Worker>, size: nat, w: nat)
    requires Chained(workers, size) && w < |workers|
    ensures workers[w].hi <= size
  {
    if w < |workers| - 1 {
      EarlierEndsFirst(workers, size, w, |workers| - 1);
    }
  }

  lemma {:induction false} Covered(workers: seq<Worker>, size: nat, q: nat, n: nat) returns (w: nat)
    requires Chained(workers, size) && 0 < n <= |workers| && q < workers[n - 1].hi
    ensures w < |workers| && workers[w].lo <= q < workers[w].hi
  {
    if q >= workers[n - 1].lo {
      w := n - 1;
    } else {
      w := Covered(workers, size, q, n - 1);
    }
  }

  datatype Buffer = Buffer(bytes: seq<Byte>, workers: seq<Worker>)

  /** Worker `w` writes its next byte. */
  function StepWorker(source: seq<Byte>, b: Buffer, w: nat): (r: Buffer)
    requires Sane(source, b)
    ensures Sane(source, r)
  {
    if w >= |b.workers| || b.workers[w].lo + b.workers[w].done >= b.workers[w].hi then b
    else
      WithinSize(b.workers, |source|, w);
      var at := b.workers[w].lo + b.workers[w].done;
      Buffer(b.bytes[at := source[at]], b.workers[w := b.workers[w].(done := b.workers[w].done + 1)])
  }

  predicate Sane(source: seq<Byte>, b: Buffer) {
    Chained(b.workers, |source|) && |source| <= |b.bytes|
  }

  /** Every byte a worker says it did is the right one; nothing past the rows changed. */
  predicate Right(source: seq<Byte>, was: seq<Byte>, b: Buffer)
    requires Sane(source, b)
  {
    && |b.bytes| == |was| && b.bytes[|source|..] == was[|source|..]
    && (forall w, q :: (0 <= w < |b.workers| && b.workers[w].lo <= q < b.workers[w].lo + b.workers[w].done
                        && q < |source|) ==> b.bytes[q] == source[q])
  }

  lemma StepStaysRight(source: seq<Byte>, was: seq<Byte>, b: Buffer, w: nat)
    requires Sane(source, b) && Right(source, was, b)
    ensures var b' := StepWorker(source, b, w); Sane(source, b') && Right(source, was, b')
  {
    var b' := StepWorker(source, b, w);
    if b' != b {
      WithinSize(b.workers, |source|, w);
      var at := b.workers[w].lo + b.workers[w].done;
      assert b'.bytes[|source|..] == b.bytes[|source|..];
    }
  }

  /** Any schedule of the workers, byte by byte. */
  function RunSchedule(source: seq<Byte>, b: Buffer, schedule: seq<nat>): (r: Buffer)
    requires Sane(source, b)
    ensures Sane(source, r)
    decreases |schedule|
  {
    if schedule == [] then b
    else
      var b' := StepWorker(source, b, schedule[0]);
      RunSchedule(source, b', schedule[1..])
  }

  lemma {:induction false} ScheduleStaysRight(source: seq<Byte>, was: seq<Byte>, b: Buffer, schedule: seq<nat>)
    requires Sane(source, b) && Right(source, was, b)
    ensures Right(source, was, RunSchedule(source, b, schedule))
    decreases |schedule|
  {
    if schedule != [] {
      StepStaysRight(source, was, b, schedule[0]);
      ScheduleStaysRight(source, was, StepWorker(source, b, schedule[0]), schedule[1..]);
    }
  }

  predicate Unstarted(b: Buffer) {
    forall w :: 0 <= w < |b.workers| ==> b.workers[w].done == 0
  }

  predicate Finished(b: Buffer) {
    forall w :: 0 <= w < |b.workers| ==> b.workers[w].lo + b.workers[w].done == b.workers[w].hi
  }

  /** Whatever the interleaving of the workers' writes, once all are done the buffer holds
      what gathering the chunks one after the other leaves. */
  lemma InterleavingDoesNotMatter(source: seq<Byte>, b: Buffer, schedule: seq<nat>)
    requires Sane(source, b) && Unstarted(b) && Finished(RunSchedule(source, b, schedule))
    ensures RunSchedule(source, b, schedule).bytes == Placed(b.bytes, 0, source)
  {
    ScheduleStaysRight(source, b.bytes, b, schedule);
    var r := RunSchedule(source, b, schedule);
    forall q | 0 <= q < |source|
      ensures r.bytes[q] == source[q]
    {
      var w := Covered(r.workers, |source|, q, |r.workers|);
    }
    assert r.bytes == r.bytes[..|source|] + r.bytes[|source|..];
    assert r.bytes[..|source|] == source;
  }

  /** The workers of a gather: one per `chunk` ids. */
  function Workers(n: nat, chunk: nat, rb: nat, a: nat): seq<Worker>
    requires chunk > 0
    decreases n - a
  {
    if a >= n then []
    else
      var b := if a + chunk < n then a + chunk else n;
      [Worker(a * rb, b * rb, 0)] + Workers(n, chunk, rb, b)
  }

  lemma {:induction false} WorkersAreChained(n: nat, chunk: nat, rb: nat, a: nat)
    requires chunk > 0 && a < n
    ensures var ws := Workers(n, chunk, rb, a);
            && ws != [] && ws[0].lo == a * rb && ws[|ws| - 1].hi == n * rb
            && (forall w :: 0 <= w < |ws| ==> ws[w].done == 0 && ws[w].lo <= ws[w].hi)
            && (forall w :: 0 <= w < |ws| - 1 ==> ws[w].hi == ws[w + 1].lo)
    decreases n - a
  {
    var b := if a + chunk < n then a + chunk else n;
    ChunkFits(a, b, n, rb);
    var ws, rest := Workers(n, chunk, rb, a), Workers(n, chunk, rb, b);
    if b < n {
      WorkersAreChained(n, chunk, rb, b);
      forall w | 0 <= w < |ws| - 1
        ensures ws[w].hi == ws[w + 1].lo
      {
        if w > 0 {
          assert ws[w] == rest[w - 1] && ws[w + 1] == rest[w];
        }
      }
    }
  }

  // ------------------------------------------- workers as they read and address rows

  /** A worker with its part of the ids, as `GatherChunk` runs it: about to transfer byte
      `byte` of its row `row`, or to go to the next row. */
  datatype RowWorker = RowWorker(ids: seq<int>, start: nat, row: nat, byte: nat)
  datatype RowBuffer = RowBuffer(bytes: seq<Byte>, workers: seq<RowWorker>)

  /** The positional read of one row. */
  type Reader = int -> Option<seq<Byte>>

  /** Worker `w` reads one byte of the row of its current id and writes it to that row of
      the staging buffer, or goes to the next row; a failed read stops it. */
  function StepRow(read: Reader, rb: nat, b: RowBuffer, w: nat): RowBuffer {
    if w >= |b.workers| || b.workers[w].row >= |b.workers[w].ids| then b
    else
      var worker := b.workers[w];
      if worker.byte >= rb then b.(workers := b.workers[w := worker.(row := worker.row + 1, byte := 0)])
      else
        var row := read(worker.ids[worker.row]);
        var at := (worker.start + worker.row) * rb + worker.byte;
        if row.None? || worker.byte >= |row.value| || at >= |b.bytes| then b
        else RowBuffer(b.bytes[at := row.value[worker.byte]], b.workers[w := worker.(byte := worker.byte + 1)])
  }

  function RunRows(read: Reader, rb: nat, b: RowBuffer, schedule: seq<nat>): RowBuffer
    decreases |schedule|
  {
    if schedule == [] then b else RunRows(read, rb, StepRow(read, rb, b, schedule[0]), schedule[1..])
  }

  /** The worker has a stretch of the ids, and stands inside it. */
  predicate InPart(rb: nat, ids: seq<int>, w: RowWorker) {
    && w.start + |w.ids| <= |ids| && w.ids == ids[w.start..w.start + |w.ids|]
    && w.row <= |w.ids| && w.byte <= (if w.row < |w.ids| then rb else 0)
  }

  predicate InParts(rb: nat, ids: seq<int>, workers: seq<RowWorker>) {
    forall w :: 0 <= w < |workers| ==> InPart(rb, ids, workers[w])
  }

  /** The same worker as a copier of gathered bytes. */
  function View(rb: nat, w: RowWorker): Worker {
    Worker(w.start * rb, (w.start + |w.ids|) * rb, w.row * rb + w.byte)
  }

  function Views(rb: nat, workers: seq<RowWorker>): (r: seq<Worker>)
    ensures |r| == |workers|
  {
    seq(|workers|, w requires 0 <= w < |workers| => View(rb, workers[w]))
  }

  function Seen(rb: nat, b: RowBuffer): Buffer {
    Buffer(b.bytes, Views(rb, b.workers))
  }

  /** Where a worker writes is where its view does. */
  lemma RowByteAddress(rb: nat, w: RowWorker)
    requires w.row < |w.ids| && w.byte < rb
    ensures var view := View(rb, w);
            (w.start + w.row) * rb + w.byte == view.lo + view.done < view.hi
  {
    RowAddress(w.start, w.row, rb);
    RowAddress(w.start, |w.ids|, rb);
    RowEnds(|w.ids|, w.row, rb);
  }

  /** Row `k` of `source` is the row read for id `k`. */
  predicate RowStands(read: Reader, rb: nat, ids: seq<int>, source: seq<Byte>, k: nat) {
    && k < |ids| && k * rb + rb <= |source|
    && read(ids[k]) == Some(source[k * rb..k * rb + rb])
  }

  /** `source` holds the rows of the ids. */
  ghost predicate HoldsRows(read: Reader, rb: nat, ids: seq<int>, source: seq<Byte>) {
    forall k: nat {:trigger RowStands(read, rb, ids, source, k)} :: k < |ids| ==> RowStands(read, rb, ids, source, k)
  }

  /** What a worker reads is the byte of `source` at its address. */
  lemma GatheredByte(read: Reader, rb: nat, ids: seq<int>, source: seq<Byte>, k: nat, byte: nat, at: nat)
    requires HoldsRows(read, rb, ids, source) && k < |ids| && byte < rb && at == k * rb + byte
    ensures at < |source| && read(ids[k]).Some? && byte < |read(ids[k]).value|
    ensures read(ids[k]).value[byte] == source[at]
  {
    assert RowStands(read, rb, ids, source, k);
  }

  lemma SeenUpdate(rb: nat, workers: seq<RowWorker>, w: nat, worker: RowWorker)
    requires w < |workers|
    ensures Views(rb, workers[w := worker]) == Views(rb, workers)[w := View(rb, worker)]
  {
  }

  lemma PartsUpdate(rb: nat, ids: seq<int>, workers: seq<RowWorker>, w: nat, worker: RowWorker)
    requires InParts(rb, ids, workers) && w < |workers| && InPart(rb, ids, worker)
    ensures InParts(rb, ids, workers[w := worker])
  {
  }

  /** Going to the next row shows nowhere. */
  lemma NextRowIsUnseen(rb: nat, ids: seq<int>, workers: seq<RowWorker>, w: nat)
    requires InParts(rb, ids, workers) && w < |workers|
    requires workers[w].row < |workers[w].ids| && workers[w].byte >= rb
    ensures var worker := workers[w].(row := workers[w].row + 1, byte := 0);
            InParts(rb, ids, workers[w := worker]) && Views(rb, workers[w := worker]) == Views(rb, workers)
  {
    var before, worker := workers[w], workers[w].(row := workers[w].row + 1, byte := 0);
    assert InPart(rb, ids, before);
    PartsUpdate(rb, ids, workers, w, worker);
    RowAddress(0, before.row, rb);
    assert View(rb, worker) == View(rb, before);
    SeenUpdate(rb, workers, w, worker);
    assert Views(rb, workers)[w := View(rb, before)] == Views(rb, workers);
  }

  /** The worker moved on by one byte. */
  function Further(w: RowWorker): RowWorker { w.(byte := w.byte + 1) }

  /** A transfer is a step of the view. */
  lemma TransferIsCopy(rb: nat, source: seq<Byte>, b: RowBuffer, w: nat, at: nat)
    requires w < |b.workers| && b.workers[w].row < |b.workers[w].ids| && b.workers[w].byte < rb
    requires Sane(source, Seen(rb, b)) && at == (b.workers[w].start + b.workers[w].row) * rb + b.workers[w].byte
    ensures at < |source| <= |b.bytes|
    ensures Seen(rb, RowBuffer(b.bytes[at := source[at]], b.workers[w := Further(b.workers[w])])) ==
            StepWorker(source, Seen(rb, b), w)
  {
    var worker := Further(b.workers[w]);
    RowByteAddress(rb, b.workers[w]);
    WithinSize(Views(rb, b.workers), |source|, w);
    SeenUpdate(rb, b.workers, w, worker);
  }

  lemma StepIsTransfer(read: Reader, rb: nat, b: RowBuffer, w: nat, at: nat, value: Byte)
    requires w < |b.workers| && b.workers[w].row < |b.workers[w].ids| && b.workers[w].byte < rb
    requires at == (b.workers[w].start + b.workers[w].row) * rb + b.workers[w].byte && at < |b.bytes|
    requires var row := read(b.workers[w].ids[b.workers[w].row]);
             row.Some? && b.workers[w].byte < |row.value| && row.value[b.workers[w].byte] == value
    ensures StepRow(read, rb, b, w) == RowBuffer(b.bytes[at := value], b.workers[w := Further(b.workers[w])])
  {
  }

  /** The step reads the byte of `source` that belongs where it writes. */
  lemma StepTransfers(read: Reader, rb: nat, ids: seq<int>, source: seq<Byte>, b: RowBuffer, w: nat) returns (at: nat)
    requires HoldsRows(read, rb, ids, source) && w < |b.workers| && InPart(rb, ids, b.workers[w])
    requires |source| <= |b.bytes| && b.workers[w].row < |b.workers[w].ids| && b.workers[w].byte < rb
    ensures at == (b.workers[w].start + b.workers[w].row) * rb + b.workers[w].byte < |source|
    ensures StepRow(read, rb, b, w) == RowBuffer(b.bytes[at := source[at]], b.workers[w := Further(b.workers[w])])
  {
    var worker := b.workers[w];
    at := (worker.start + worker.row) * rb + worker.byte;
    assert worker.ids[worker.row] == ids[worker.start + worker.row];
    GatheredByte(read, rb, ids, source, worker.start + worker.row, worker.byte, at);
    StepIsTransfer(read, rb, b, w, at, source[at]);
  }

  /** A step of a row worker is a step of its view, or none. */
  lemma StepRowRefines(read: Reader, rb: nat, ids: seq<int>, source: seq<Byte>, b: RowBuffer, w: nat)
    requires HoldsRows(read, rb, ids, source) && InParts(rb, ids, b.workers) && Sane(source, Seen(rb, b))
    ensures var b' := StepRow(read, rb, b, w);
            && InParts(rb, ids, b'.workers)
            && (Seen(rb, b') == Seen(rb, b) || Seen(rb, b') == StepWorker(source, Seen(rb, b), w))
  {
    if w < |b.workers| && b.workers[w].row < |b.workers[w].ids| {
      if b.workers[w].byte >= rb {
        NextRowIsUnseen(rb, ids, b.workers, w);
      } else {
        var at := StepTransfers(read, rb, ids, source, b, w);
        TransferIsCopy(rb, source, b, w, at);
        PartsUpdate(rb, ids, b.workers, w, Further(b.workers[w]));
      }
    }
  }

  /** A run of row workers is a run of their views. */
  lemma {:induction false} RunRowsRefines(read: Reader, rb: nat, ids: seq<int>, source: seq<Byte>, b: RowBuffer,
                                          schedule: seq<nat>)
      returns (copies: seq<nat>)
    requires HoldsRows(read, rb, ids, source) && InParts(rb, ids, b.workers) && Sane(source, Seen(rb, b))
    ensures InParts(rb, ids, RunRows(read, rb, b, schedule).workers)
    ensures Seen(rb, RunRows(read, rb, b, schedule)) == RunSchedule(source, Seen(rb, b), copies)
    decreases |schedule|
  {
    if schedule == [] {
      copies := [];
    } else {
      var next := StepRow(read, rb, b, schedule[0]);
      StepRowRefines(read, rb, ids, source, b, schedule[0]);
      copies := RunRowsRefines(read, rb, ids, source, next, schedule[1..]);
      if Seen(rb, next) != Seen(rb, b) {
        assert ([schedule[0]] + copies)[1..] == copies;
        copies := [schedule[0]] + copies;
      }
    }
  }

  /** The workers a gather starts, from id `a` on. */
  function RowWorkers(ids: seq<int>, chunk: nat, a: nat): seq<RowWorker>
    requires chunk > 0
    decreases |ids| - a
  {
    if a >= |ids| then []
    else
      var b := if a + chunk < |ids| then a + chunk else |ids|;
      [RowWorker(ids[a..b], a, 0, 0)] + RowWorkers(ids, chunk, b)
  }

  lemma {:induction false} RowWorkersAreWorkers(ids: seq<int>, chunk: nat, rb: nat, a: nat)
    requires chunk > 0
    ensures Views(rb, RowWorkers(ids, chunk, a)) == Workers(|ids|, chunk, rb, a)
    ensures InParts(rb, ids, RowWorkers(ids, chunk, a))
    decreases |ids| - a
  {
    if a < |ids| {
      var b := if a + chunk < |ids| then a + chunk else |ids|;
      RowWorkersAreWorkers(ids, chunk, rb, b);
      var first := RowWorker(ids[a..b], a, 0, 0);
      assert View(rb, first) == Worker(a * rb, b * rb, 0);
      assert Views(rb, [first] + RowWorkers(ids, chunk, b)) == [View(rb, first)] + Views(rb, RowWorkers(ids, chunk, b));
    }
  }

  /** Every worker has read and written all of its rows. */
  predicate AllRowsDone(b: RowBuffer) {
    forall w :: 0 <= w < |b.workers| ==> b.workers[w].row == |b.workers[w].ids|
  }

  lemma DoneIsFinished(rb: nat, ids: seq<int>, b: RowBuffer)
    requires InParts(rb, ids, b.workers) && AllRowsDone(b)
    ensures Finished(Seen(rb, b))
  {
    forall w | 0 <= w < |b.workers|
      ensures var view := View(rb, b.workers[w]); view.lo + view.done == view.hi
    {
      assert InPart(rb, ids, b.workers[w]);
      RowAddress(b.workers[w].start, |b.workers[w].ids|, rb);
    }
  }

  /** Finished row workers have copied exactly the rows. */
  lemma RowsAreCopied(read: Reader, rb: nat, ids: seq<int>, source: seq<Byte>, b: RowBuffer, schedule: seq<nat>)
    requires HoldsRows(read, rb, ids, source) && InParts(rb, ids, b.workers) && Sane(source, Seen(rb, b))
    requires Unstarted(Seen(rb, b)) && AllRowsDone(RunRows(read, rb, b, schedule))
    ensures RunRows(read, rb, b, schedule).bytes == Placed(b.bytes, 0, source)
  {
    var copies := RunRowsRefines(read, rb, ids, source, b, schedule);
    DoneIsFinished(rb, ids, RunRows(read, rb, b, schedule));
    InterleavingDoesNotMatter(source, Seen(rb, b), copies);
  }

  lemma BytesHoldRows(disk: Disk, t: Table, ids: seq<int>)
    requires Readable(disk, t, ids)
    ensures HoldsRows(id => ReadRow(disk, t, id), t.rowBytes, ids, Bytes(disk, t, ids))
  {
    var read: Reader := id => ReadRow(disk, t, id);
    forall k: nat | k < |ids|
      ensures RowStands(read, t.rowBytes, ids, Bytes(disk, t, ids), k)
    {
      RowOfBytes(disk, t, ids, k);
    }
  }

  /** The concurrent gather is the gather: for every list of readable ids, positive chunk
      size and interleaving of the workers' byte transfers, once all rows are done the
      staging buffer holds the rows in order and is otherwise untouched. */
  lemma ConcurrentGather(disk: Disk, t: Table, ids: seq<int>, chunk: nat, staging: seq<Byte>, schedule: seq<nat>)
    requires Readable(disk, t, ids) && ids != [] && chunk > 0
    requires |ids| * t.rowBytes <= |staging|
    ensures |Bytes(disk, t, ids)| <= |staging|
    ensures var start := RowBuffer(staging, RowWorkers(ids, chunk, 0));
            var end := RunRows(id => ReadRow(disk, t, id), t.rowBytes, start, schedule);
            AllRowsDone(end) ==> end.bytes == Placed(staging, 0, Bytes(disk, t, ids))
  {
    var rb, source := t.rowBytes, Bytes(disk, t, ids);
    var b := RowBuffer(staging, RowWorkers(ids, chunk, 0));
    var read: Reader := id => ReadRow(disk, t, id);
    BytesLength(disk, t, ids);
    BytesHoldRows(disk, t, ids);
    WorkersAreChained(|ids|, chunk, rb, 0);
    RowWorkersAreWorkers(ids, chunk, rb, 0);
    assert Sane(source, Seen(rb, b));
    if AllRowsDone(RunRows(read, rb, b, schedule)) {
      RowsAreCopied(read, rb, ids, source, b, schedule);
    }
  }
}
