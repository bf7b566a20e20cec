/** ExternalLogHandler: records are buffered and shipped in batches, when
    the buffer reaches the batch size or when the batch timeout has passed
    since the last shipment. Time is integer milliseconds; shipping a batch
    appends it to `shipped`. */
module ExternalHandler {
  import opened Values

  const DefaultBatchSize: int := 100
  const DefaultTimeoutMs: int := 5000

  datatype Handler<R> = Handler(
    batch: seq<R>,
    batchSize: int,
    timeoutMs: int,
    lastFlush: int,
    shipped: seq<seq<R>>)

  function OrElse(o: Option<int>, d: int): int {
    if o.Some? then o.value else d
  }

  /** The constructor: configured size and timeout (defaults 100 records and
      5000 ms), an empty buffer, and the clock read as the last flush. */
  function New<R>(batchSize: Option<int>, timeoutMs: Option<int>, now: int): (h: Handler<R>)
    ensures h.batch == [] && h.shipped == [] && h.lastFlush == now
    ensures batchSize.None? ==> h.batchSize == 100
    ensures batchSize.Some? ==> h.batchSize == batchSize.value
    ensures timeoutMs.None? ==> h.timeoutMs == 5000
    ensures timeoutMs.Some? ==> h.timeoutMs == timeoutMs.value
  {
    Handler([], OrElse(batchSize, DefaultBatchSize), OrElse(timeoutMs, DefaultTimeoutMs), now, [])
  }

  /** All shipped batches, in order, as one sequence. */
  function Concat<R>(ss: seq<seq<R>>): seq<R>
    decreases |ss|
  {
    if ss == [] then [] else Concat(ss[..|ss| - 1]) + ss[|ss| - 1]
  }

  /** shouldFlush: the buffer is full, or the timeout has passed. */
  predicate ShouldFlush<R>(h: Handler<R>, now: int) {
    |h.batch| >= h.batchSize || now - h.lastFlush >= h.timeoutMs
  }

  /** flush: an empty buffer ships nothing and keeps the last-flush time;
      otherwise the whole buffer is shipped as one batch, the buffer is
      emptied and the clock is read as the last flush. */
  function Flush<R>(h: Handler<R>, now: int): (h': Handler<R>)
    ensures h.batch == [] ==> h' == h
    ensures h.batch != [] ==> h' == h.(batch := [], lastFlush := now, shipped := h.shipped + [h.batch])
    ensures h'.batch == [] && Concat(h'.shipped) == Concat(h.shipped) + h.batch
  {
    if h.batch == [] then h
    else
      var h' := h.(batch := [], lastFlush := now, shipped := h.shipped + [h.batch]);
      assert h'.shipped[..|h'.shipped| - 1] == h.shipped;
      h'
  }

  /** write: buffer the record, then flush when shouldFlush says so. Both
      clock reads of one write are taken as the same instant. */
  function Write<R>(h: Handler<R>, record: R, now: int): (h': Handler<R>)
    ensures h'.batchSize == h.batchSize && h'.timeoutMs == h.timeoutMs
    ensures Concat(h'.shipped) + h'.batch == Concat(h.shipped) + h.batch + [record]
    ensures h'.batch == [] <==> (|h.batch| + 1 >= h.batchSize || now - h.lastFlush >= h.timeoutMs)
    ensures h'.batch == [] ==> h'.shipped == h.shipped + [h.batch + [record]] && h'.lastFlush == now
    ensures h'.batch != [] ==> h'.batch == h.batch + [record] && h'.shipped == h.shipped && h'.lastFlush == h.lastFlush
  {
    var b := h.(batch := h.batch + [record]);
    if ShouldFlush(b, now) then Flush(b, now) else b
  }

  /** __destruct: a final flush. */
  function Destruct<R>(h: Handler<R>, now: int): (h': Handler<R>)
    ensures h'.batch == []
    ensures Concat(h'.shipped) == Concat(h.shipped) + h.batch
  {
    Flush(h, now)
  }

  /** A write that finds the buffer full ships it with the new record. */
  lemma WriteAtSizeShips<R>(h: Handler<R>, record: R, now: int)
    requires |h.batch| + 1 >= h.batchSize
    ensures Write(h, record, now).batch == []
    ensures Write(h, record, now).shipped == h.shipped + [h.batch + [record]]
    ensures Write(h, record, now).lastFlush == now
  {
  }

  /** A write after the timeout ships the buffer however small it is. */
  lemma WriteAfterTimeoutShips<R>(h: Handler<R>, record: R, now: int)
    requires now - h.lastFlush >= h.timeoutMs
    ensures Write(h, record, now).batch == []
    ensures Write(h, record, now).shipped == h.shipped + [h.batch + [record]]
  {
  }

  /** Otherwise the record waits in the buffer and nothing is shipped. */
  lemma WriteBelowBothKeeps<R>(h: Handler<R>, record: R, now: int)
    requires |h.batch| + 1 < h.batchSize && now - h.lastFlush < h.timeoutMs
    ensures Write(h, record, now) == h.(batch := h.batch + [record])
  {
  }

  /** The writes of a run, the i-th at time `times[i]`. */
  function Run<R>(h: Handler<R>, records: seq<R>, times: seq<int>): Handler<R>
    requires |times| == |records|
    decreases |records|
  {
    if records == [] then h else Run(Write(h, records[0], times[0]), records[1..], times[1..])
  }

  /** With a batch size of at least one, the buffer never reaches the batch
      size after a write. */
  lemma {:induction false} RunKeepsBufferBelowSize<R>(h: Handler<R>, records: seq<R>, times: seq<int>)
    requires |times| == |records|
    requires 1 <= h.batchSize && |h.batch| < h.batchSize
    ensures |Run(h, records, times).batch| < h.batchSize
    ensures Run(h, records, times).batchSize == h.batchSize
    decreases |records|
  {
    if records != [] {
      var h1 := Write(h, records[0], times[0]);
      assert h1.batchSize == h.batchSize;
      assert |h1.batch| < h.batchSize;
      RunKeepsBufferBelowSize(h1, records[1..], times[1..]);
    }
  }

  /** Conservation: what was shipped, followed by what is still buffered,
      is every record written, in order; nothing is lost or duplicated. */
  lemma {:induction false} RunConserves<R>(h: Handler<R>, records: seq<R>, times: seq<int>)
    requires |times| == |records|
    ensures Concat(Run(h, records, times).shipped) + Run(h, records, times).batch
         == Concat(h.shipped) + h.batch + records
    decreases |records|
  {
    if records != [] {
      var h1 := Write(h, records[0], times[0]);
      assert Concat(h1.shipped) + h1.batch == Concat(h.shipped) + h.batch + [records[0]];
      RunConserves(h1, records[1..], times[1..]);
      assert [records[0]] + records[1..] == records;
    }
  }

  /** No shipped batch is empty. */
  ghost predicate NoEmptyBatch<R>(h: Handler<R>) {
    forall i :: 0 <= i < |h.shipped| ==> h.shipped[i] != []
  }

  lemma {:induction false} RunShipsNoEmptyBatch<R>(h: Handler<R>, records: seq<R>, times: seq<int>)
    requires |times| == |records|
    requires NoEmptyBatch(h)
    ensures NoEmptyBatch(Run(h, records, times))
    decreases |records|
  {
    if records != [] {
      var h1 := Write(h, records[0], times[0]);
      assert NoEmptyBatch(h1);
      RunShipsNoEmptyBatch(h1, records[1..], times[1..]);
    }
  }

  /** A handler's whole life: created, written to, destroyed. Every record
      is shipped, in order. */
  lemma LifetimeShipsEverything<R>(batchSize: Option<int>, timeoutMs: Option<int>, start: int,
                                   records: seq<R>, times: seq<int>, end: int)
    requires |times| == |records|
    ensures var h := Run(New<R>(batchSize, timeoutMs, start), records, times);
      Concat(Destruct(h, end).shipped) == records
  {
    RunConserves(New<R>(batchSize, timeoutMs, start), records, times);
  }
}
