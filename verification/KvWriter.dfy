/** The writer as the program has it: buffers, counters, a shared file and a worker with
    its queue, all updated in place (ncf-kvcache/src/writer.rs). Each method is proved to
    do to the whole state what the function of the same name in KvProtocol says. */
module KvWriter {
  import opened Bytes
  import opened KvHeader
  import opened KvIndex
  import P = KvProtocol
  import T = KvTokens
  import opened KvReader

  /** The file, shared by the writer's header mapping, the worker and readers. */
  class Storage {
    var bytes: seq<byte>

    constructor (bytes: seq<byte>)
      ensures this.bytes == bytes
    {
      this.bytes := bytes;
    }
  }

  class ColumnBuffer {
    const layer: nat
    const head: nat
    var blockIdx: nat
    var tokenCount: nat
    var existingTokens: nat
    var data: seq<byte>

    ghost function View(): P.Column
      reads this
    {
      P.Column(layer, head, blockIdx, tokenCount, existingTokens, data)
    }

    constructor (layer: nat, head: nat)
      ensures View() == P.Column(layer, head, 0, 0, 0, [])
    {
      this.layer, this.head := layer, head;
      blockIdx, tokenCount, existingTokens, data := 0, 0, 0, [];
    }

    method AppendToken(token: seq<byte>)
      modifies this
      ensures View() == P.AppendToken(old(View()), token)
    {
      data := data + token;
      tokenCount := tokenCount + 1;
    }

    method Reset()
      modifies this
      ensures View() == P.ResetColumn(old(View()))
    {
      data := [];
      tokenCount := 0;
      existingTokens := 0;
      blockIdx := WrapAdd(blockIdx, 1);
    }

    method Trim(count: nat, elementBytes: nat)
      modifies this
      ensures View() == P.TrimColumn(old(View()), count, elementBytes)
    {
      tokenCount := count;
      existingTokens := Min(existingTokens, count);
      if count * elementBytes <= |data| { data := data[..count * elementBytes]; }
    }
  }

  /** The background thread and its channel. */
  class FlushWorker {
    const storage: Storage
    var queue: seq<P.FlushBatch>
    var phase: P.Phase

    constructor (storage: Storage)
      ensures this.storage == storage && queue == [] && phase == P.Idle
    {
      this.storage := storage;
      queue, phase := [], P.Idle;
    }

    method Send(b: P.FlushBatch)
      modifies this
      ensures queue == old(queue) + [b] && phase == old(phase)
    {
      queue := queue + [b];
    }

    /** `write_batch` up to the epoch check: payloads one after another, then the index
        block, then its trailer, always at the end of the file. */
    method AppendToFile(c: Codec, b: P.FlushBatch) returns (at: nat)
      requires |storage.bytes| >= HEADER_SIZE
      modifies storage
      ensures storage.bytes == P.AppendBatch(c, old(storage.bytes), b)
      ensures at == P.TrailerAt(c, old(storage.bytes), b)
    {
      ghost var f := storage.bytes;
      var entries := [];
      var n := P.Pairs(b);
      for i := 0 to n
        invariant storage.bytes == f + Flatten(b.payloads[..i])
        invariant entries == P.Placed(b, |f|)[..i]
      {
        OnePayloadMore(f, b.payloads, i);
        var offset := |storage.bytes|;
        storage.bytes := storage.bytes + b.payloads[i];
        entries := entries + [b.entries[i].(byteOffset := offset, byteLen := |b.payloads[i]|)];
      }
      assert entries == P.Placed(b, |f|);
      var cbor := c.enc(IndexBlock(b.prev, b.blockIdx, entries));
      storage.bytes := storage.bytes + cbor;
      at := |storage.bytes|;
      var trailer := EncodeTrailer(Trailer(TRAILER_MAGIC, |cbor|, b.prev));
      storage.bytes := storage.bytes + trailer[..];
      JoinTail(f, Flatten(b.payloads[..n]), cbor, trailer[..]);
    }

    /** One atomic step. */
    method Advance(c: Codec)
      requires |storage.bytes| >= HEADER_SIZE
      modifies this, storage
      ensures |storage.bytes| >= HEADER_SIZE
      ensures forall w: P.World ::
        w.file == old(storage.bytes) && w.queue == old(queue) && w.worker == old(phase) ==>
          P.WorkerStep(c, w) == w.(file := storage.bytes, queue := queue, worker := phase)
    {
      match phase {
        case Idle =>
          if queue != [] {
            var b := queue[0];
            queue := queue[1..];
            var at := AppendToFile(c, b);
            phase := P.Written(b, at);
          }
        case Written(b, at) =>
          phase := if b.epoch == Epoch(storage.bytes) then P.Cleared(b, at) else P.Idle;
        case Cleared(b, at) =>
          phase := P.Loaded(b, at, Valid(storage.bytes));
        case Loaded(b, at, seen) =>
          var increment := SatSub(b.tokenCount, b.existingTokens);
          storage.bytes := SetValid(storage.bytes, SatAdd(seen, increment));
          phase := P.Counted(at);
        case Counted(at) =>
          storage.bytes := SetHead(storage.bytes, at % TWO_64);
          phase := P.Idle;
      }
    }

    /** `flush_loop` until the Stop command: everything queued is processed, in order. */
    method FlushLoop(c: Codec, ghost w: P.World)
      requires |storage.bytes| >= HEADER_SIZE
      requires w.file == storage.bytes && w.queue == queue && w.worker == phase
      modifies this, storage
      ensures P.Settle(c, w) == w.(file := storage.bytes, queue := queue, worker := phase)
      ensures |storage.bytes| >= HEADER_SIZE
    {
      ghost var v := w;
      while !(queue == [] && phase == P.Idle)
        invariant |storage.bytes| >= HEADER_SIZE
        invariant v == w.(file := storage.bytes, queue := queue, worker := phase)
        invariant P.Settle(c, v) == P.Settle(c, w)
        decreases P.Work(v)
      {
        P.StepWorks(c, v);
        Advance(c);
        v := P.WorkerStep(c, v);
      }
    }
  }

  lemma OnePayloadMore(f: seq<byte>, payloads: seq<seq<byte>>, i: nat)
    requires i < |payloads|
    ensures f + Flatten(payloads[..i]) + payloads[i] == f + Flatten(payloads[..i + 1])
  {
    assert payloads[..i + 1][..i] == payloads[..i];
  }

  lemma JoinTail(f: seq<byte>, payloads: seq<byte>, cbor: seq<byte>, trailer: seq<byte>)
    ensures f + payloads + cbor + trailer == f + (payloads + cbor + trailer)
  {
  }

  lemma WrapOnce(n: nat, i: nat)
    ensures WrapAdd(WrapAdd(n, i), 1) == WrapAdd(n, i + 1)
  {
  }

  /** The worker neither reads nor changes a truncate in progress. */
  lemma StepIgnoresTruncation(c: Codec, w: P.World, v: P.World)
    requires v == w.(truncation := None)
    ensures P.WorkerStep(c, v) == P.WorkerStep(c, w).(truncation := None)
    ensures P.WorkerStep(c, w).truncation == w.truncation
  {
  }

  lemma {:induction false} StepsIgnoreTruncation(c: Codec, w: P.World, v: P.World, k: nat)
    requires v == w.(truncation := None)
    ensures T.WorkerSteps(c, v, k) == T.WorkerSteps(c, w, k).(truncation := None)
    ensures T.WorkerSteps(c, w, k).truncation == w.truncation
    decreases k
  {
    if k > 0 {
      StepIgnoresTruncation(c, w, v);
      StepsIgnoreTruncation(c, P.WorkerStep(c, w), P.WorkerStep(c, v), k - 1);
    }
  }

  ghost predicate Distinct(buffers: seq<ColumnBuffer>) {
    forall i, j :: 0 <= i < j < |buffers| ==> buffers[i] != buffers[j]
  }

  class KvCacheWriter {
    const cfg: KvCacheConfig
    const storage: Storage
    const worker: FlushWorker
    const buffers: seq<ColumnBuffer>
    var currentTokenCount: nat
    var nextChunkId: nat
    var pendingBlockIdx: nat

    ghost predicate Valid()
      reads this, storage, worker, buffers
    {
      && worker.storage == storage
      && |buffers| >= 1 && |buffers| == cfg.Columns()
      && Distinct(buffers) && Decode(storage.bytes).Ok? && nextChunkId < TWO_64
    }

    ghost function Columns(): (cs: seq<P.Column>)
      reads this, buffers
      ensures |cs| == |buffers| && forall i :: 0 <= i < |cs| ==> cs[i] == buffers[i].View()
    {
      seq(|buffers|, i requires 0 <= i < |buffers| reads this, buffers => buffers[i].View())
    }

    /** The whole state as a value. */
    ghost function View(): P.World
      requires Valid()
      reads this, storage, worker, buffers
    {
      P.World(cfg, storage.bytes, Columns(), currentTokenCount, nextChunkId, pendingBlockIdx,
              worker.queue, worker.phase, None)
    }

    constructor FromParts(cfg: KvCacheConfig, storage: Storage, worker: FlushWorker, buffers: seq<ColumnBuffer>,
                          committed: nat, nextChunkId: nat, pendingBlock: nat)
      requires worker.storage == storage && worker.queue == [] && worker.phase == P.Idle
      requires |buffers| >= 1 && |buffers| == cfg.Columns() && nextChunkId < TWO_64
      requires Distinct(buffers)
      requires Decode(storage.bytes).Ok?
      ensures Valid() && this.cfg == cfg && this.storage == storage && this.worker == worker && this.buffers == buffers
      ensures currentTokenCount == committed && this.nextChunkId == nextChunkId && pendingBlockIdx == pendingBlock
    {
      this.cfg, this.storage, this.worker, this.buffers := cfg, storage, worker, buffers;
      currentTokenCount, this.nextChunkId, pendingBlockIdx := committed, nextChunkId, pendingBlock;
    }

    /** `append_frame`. */
    method AppendFrame(frame: seq<byte>) returns (ok: bool)
      requires Valid()
      modifies this, worker, buffers
      ensures Valid() && ok == (|frame| == cfg.Stride())
      ensures View() == P.AppendFrame(old(View()), frame)
    {
      if |frame| != cfg.Stride() { return false; }
      ghost var w := View();
      DealOut(frame);
      currentTokenCount := SatAdd(currentTokenCount, 1);
      assert Columns() == P.Buffered(w, frame).columns;
      if buffers[0].tokenCount == BLOCK_TOKEN_COUNT { FlushBlock(); }
      ok := true;
    }

    /** The loop of `append_frame`. */
    method DealOut(frame: seq<byte>)
      requires Valid() && |frame| == cfg.Stride()
      modifies buffers
      ensures Valid()
      ensures forall j :: 0 <= j < |buffers| ==> buffers[j].View() == P.AppendToken(old(buffers[j].View()), P.Cell(cfg, frame, j))
    {
      for i := 0 to |buffers|
        invariant Valid()
        invariant forall j :: 0 <= j < i ==> buffers[j].View() == P.AppendToken(old(buffers[j].View()), P.Cell(cfg, frame, j))
        invariant forall j :: i <= j < |buffers| ==> buffers[j].View() == old(buffers[j].View())
      {
        MulLe(i + 1, cfg.Columns(), cfg.elementBytes);
        buffers[i].AppendToken(frame[i * cfg.elementBytes..(i + 1) * cfg.elementBytes]);
      }
    }

    method TakeColumn(i: nat, tokenCount: nat) returns (entry: ChunkIndexEntry, payload: seq<byte>)
      requires Valid() && i < |buffers|
      modifies this`nextChunkId, buffers[i]
      ensures Valid() && nextChunkId == WrapAdd(old(nextChunkId), 1)
      ensures var col := old(buffers[i].View());
        && entry == Entry(old(nextChunkId), col.layer, col.head, col.blockIdx, 0, 0, tokenCount)
        && payload == col.data && buffers[i].View() == col.(data := [])
    {
      var buffer := buffers[i];
      var chunkId := nextChunkId;
      nextChunkId := WrapAdd(nextChunkId, 1);
      payload := buffer.data;
      buffer.data := [];
      entry := Entry(chunkId, buffer.layer, buffer.head, buffer.blockIdx, 0, 0, tokenCount);
    }

    /** The first loop of `flush_block`: allocate chunk ids and move the payloads out. */
    method TakeBatch() returns (b: P.FlushBatch)
      requires Valid()
      modifies this`nextChunkId, buffers
      ensures Valid() && b == P.BatchOf(old(View())) && nextChunkId == WrapAdd(old(nextChunkId), |buffers|)
      ensures forall j :: 0 <= j < |buffers| ==> buffers[j].View() == old(buffers[j].View()).(data := [])
    {
      ghost var w := View();
      var tokenCount, existing := buffers[0].tokenCount, buffers[0].existingTokens;
      var prev := Decode(storage.bytes).value.indexHeadOffset;
      var entries, payloads := [], [];
      for i := 0 to |buffers|
        invariant Valid() && nextChunkId == WrapAdd(w.nextChunkId, i)
        invariant |entries| == |payloads| == i
        invariant forall j :: 0 <= j < i ==> entries[j] == P.EntryFor(w, j) && payloads[j] == w.columns[j].data
        invariant forall j :: 0 <= j < i ==> buffers[j].View() == w.columns[j].(data := [])
        invariant forall j :: i <= j < |buffers| ==> buffers[j].View() == w.columns[j]
      {
        WrapOnce(w.nextChunkId, i);
        var entry, payload := TakeColumn(i, tokenCount);
        assert entry == P.EntryFor(w, i);
        entries := entries + [entry];
        payloads := payloads + [payload];
      }
      b := P.Batch(pendingBlockIdx, Epoch(storage.bytes), tokenCount, existing, entries, payloads, prev);
    }

    method ResetBuffers()
      requires Valid()
      modifies buffers
      ensures Valid()
      ensures forall j :: 0 <= j < |buffers| ==> buffers[j].View() == P.ResetColumn(old(buffers[j].View()))
    {
      for i := 0 to |buffers|
        invariant Valid()
        invariant forall j :: 0 <= j < i ==> buffers[j].View() == P.ResetColumn(old(buffers[j].View()))
        invariant forall j :: i <= j < |buffers| ==> buffers[j].View() == old(buffers[j].View())
      {
        buffers[i].Reset();
      }
    }

    /** `flush_pending`, and `flush_block` but for the final drain. */
    method FlushBlock()
      requires Valid()
      modifies this, worker, buffers
      ensures Valid() && View() == P.FlushBlock(old(View()))
    {
      if buffers[0].tokenCount == 0 { return; }
      ghost var w := View();
      var b := TakeBatch();
      worker.Send(b);
      pendingBlockIdx := WrapAdd(pendingBlockIdx, 1);
      ResetBuffers();
      assert Columns() == P.FlushBlock(w).columns;
    }

    /** `drain_flush_worker`: Stop, then join. */
    method DrainFlushWorker(c: Codec)
      requires Valid()
      modifies this, worker, storage
      ensures Valid() && View() == P.Settle(c, old(View()))
    {
      ghost var w := View();
      worker.FlushLoop(c, w);
      SettleDecodes(c, w);
      assert View() == P.Settle(c, w);
    }

    method WorkerTurn(c: Codec)
      requires Valid()
      modifies worker, storage
      ensures Valid() && View() == P.WorkerStep(c, old(View()))
    {
      ghost var v := View();
      FixedFieldsStay(v.file, P.WorkerStep(c, v).file);
      worker.Advance(c);
    }

    /** Turns of the worker while a call of its owner is under way. */
    method WorkerTurns(c: Codec, n: nat)
      requires Valid()
      modifies worker, storage
      ensures Valid() && View() == T.WorkerSteps(c, old(View()), n)
    {
      ghost var w := View();
      for i := 0 to n
        invariant Valid() && T.WorkerSteps(c, View(), n - i) == T.WorkerSteps(c, w, n)
      {
        T.OneMoreStep(c, View(), n - i - 1);
        WorkerTurn(c);
      }
    }

    /** `truncate`, between whose two accesses of the header the worker takes `turns` steps.
        On the overflow errors the epoch stays bumped. */
    method Truncate(c: Codec, turns: nat, count: u64) returns (r: KvResult<()>)
      requires Valid()
      modifies this, worker, storage, buffers
      ensures Valid()
      ensures count > old(currentTokenCount) ==> r == Err(Layout) && View() == old(View())
      ensures count <= old(currentTokenCount) ==>
        var u := T.WorkerSteps(c, P.TruncateBegin(old(View()), count), turns);
        && View() == P.TruncateRest(u)
        && r == match P.TruncateEnd(u) case Ok(_) => Ok(()) case Err(e) => Err(e)
    {
      if count > currentTokenCount { return Err(Layout); }
      ghost var u := P.TruncateBegin(View(), count);
      FixedFieldsStay(storage.bytes, u.file);
      var nextEpoch := WrapAdd(Epoch(storage.bytes), 1);
      storage.bytes := SetEpoch(storage.bytes, nextEpoch);
      assert View() == u.(truncation := None);
      StepsIgnoreTruncation(c, u, View(), turns);
      WorkerTurns(c, turns);
      r := FinishTruncate(count, T.WorkerSteps(c, u, turns));
    }

    /** What follows the epoch bump. */
    method FinishTruncate(count: u64, ghost u: P.World) returns (r: KvResult<()>)
      requires Valid() && u == View().(truncation := Some(count))
      modifies this`currentTokenCount, storage, buffers
      ensures Valid() && View() == P.TruncateRest(u)
      ensures r == match P.TruncateEnd(u) case Ok(_) => Ok(()) case Err(e) => Err(e)
    {
      var committed := KvHeader.Valid(storage.bytes);
      if count <= committed {
        LowerCommitted(count);
        r := Ok(());
      } else {
        r := TrimPending(count, committed, u);
      }
    }

    method LowerCommitted(count: u64)
      requires Valid()
      modifies this`currentTokenCount, storage
      ensures Valid()
      ensures View() == old(View()).(localCount := count, file := SetValid(old(storage.bytes), count))
    {
      FixedFieldsStay(storage.bytes, SetValid(storage.bytes, count));
      currentTokenCount := count;
      storage.bytes := SetValid(storage.bytes, count);
    }

    method TrimPending(count: u64, committed: nat, ghost u: P.World) returns (r: KvResult<()>)
      requires Valid() && committed == KvHeader.Valid(storage.bytes) && count > committed
      requires u == View().(truncation := Some(count))
      modifies this`currentTokenCount, buffers
      ensures Valid()
      ensures r == match P.TruncateEnd(u) case Ok(_) => Ok(()) case Err(e) => Err(e)
      ensures View() == P.TruncateRest(u)
    {
      if currentTokenCount < committed { return Err(Overflow); }
      var pendingCount := currentTokenCount - committed;
      var keepPending := count - committed;
      if pendingCount < keepPending { return Err(Overflow); }
      var dropTokens := (pendingCount - keepPending) % TWO_32;
      if buffers[0].tokenCount < dropTokens { return Err(Overflow); }
      var kept := buffers[0].tokenCount - dropTokens;
      assert P.TruncateEnd(u) == Ok(P.TrimBuffers(u, kept, count));
      TrimAll(kept);
      currentTokenCount := count;
      assert Columns() == P.TrimBuffers(u, kept, count).columns;
      r := Ok(());
    }

    method TrimAll(kept: nat)
      requires Valid()
      modifies buffers
      ensures Valid()
      ensures forall j :: 0 <= j < |buffers| ==>
        buffers[j].View() == P.TrimColumn(old(buffers[j].View()), kept, cfg.elementBytes)
    {
      for i := 0 to |buffers|
        invariant Valid()
        invariant forall j :: 0 <= j < i ==> buffers[j].View() == P.TrimColumn(old(buffers[j].View()), kept, cfg.elementBytes)
        invariant forall j :: i <= j < |buffers| ==> buffers[j].View() == old(buffers[j].View())
      {
        buffers[i].Trim(kept, cfg.elementBytes);
      }
    }

    /** `Drop`: flush what is buffered, stop the worker and wait for it. */
    method Close(c: Codec)
      requires Valid()
      modifies this, worker, storage, buffers
      ensures Valid() && storage.bytes == P.Close(c, old(View())) && P.Quiet(View())
    {
      FlushBlock();
      DrainFlushWorker(c);
    }
  }

  /** The buffers of a new cache, in (layer, head) order. */
  method EmptyBuffers(cfg: KvCacheConfig) returns (buffers: seq<ColumnBuffer>)
    ensures |buffers| == cfg.Columns() && Distinct(buffers)
    ensures forall i :: 0 <= i < |buffers| ==> fresh(buffers[i]) && buffers[i].View() == P.EmptyColumn(cfg, i)
  {
    buffers := [];
    for layer := 0 to cfg.layers
      invariant |buffers| == layer * cfg.heads && Distinct(buffers)
      invariant forall i :: 0 <= i < |buffers| ==> fresh(buffers[i]) && buffers[i].View() == P.EmptyColumn(cfg, i)
    {
      for head := 0 to cfg.heads
        invariant |buffers| == layer * cfg.heads + head && Distinct(buffers)
        invariant forall i :: 0 <= i < |buffers| ==> fresh(buffers[i]) && buffers[i].View() == P.EmptyColumn(cfg, i)
      {
        P.ColumnOf(cfg, layer, head);
        var buffer := new ColumnBuffer(layer, head);
        buffers := buffers + [buffer];
      }
      assert (layer + 1) * cfg.heads == layer * cfg.heads + cfg.heads;
    }
  }

  /** `create`. The metadata block's bytes are given. */
  method CreateCache(cfg: KvCacheConfig, metadata: seq<byte>) returns (w: KvCacheWriter)
    ensures fresh(w) && fresh(w.storage) && fresh(w.worker) && w.Valid()
    ensures w.View() == P.Create(cfg, metadata)
  {
    P.SomeColumn(cfg);
    var h := NewHeader(cfg, |metadata| % TWO_32);
    var header := Encode(h);
    DecodeEncoded(h, metadata);
    var buffers := EmptyBuffers(cfg);
    var storage := new Storage(header[..] + metadata);
    var worker := new FlushWorker(storage);
    w := new KvCacheWriter.FromParts(cfg, storage, worker, buffers, 0, 0, 0);
    assert w.Columns() == P.Create(cfg, metadata).columns;
  }

  lemma {:induction false} ReloadErrs(r: KvcacheReader, f: seq<byte>, cfg: KvCacheConfig, n: nat, m: nat,
                                      partialCount: nat, last: nat, pending: nat)
    requires r.payloadOffset <= r.mappedLen <= |f| && n <= m
    requires P.ReloadColumns(r, f, cfg, n, partialCount, last, pending).Err?
    ensures P.ReloadColumns(r, f, cfg, m, partialCount, last, pending) ==
      P.ReloadColumns(r, f, cfg, n, partialCount, last, pending)
  {
    if n < m { ReloadErrs(r, f, cfg, n, m - 1, partialCount, last, pending); }
  }

  /** One buffer of a reopened writer, reloaded if the last block is partial. */
  method ReloadBuffer(r: KvcacheReader, f: seq<byte>, cfg: KvCacheConfig, layer: nat, head: nat,
                      partialCount: nat, last: nat, pending: nat)
    returns (res: KvResult<ColumnBuffer>)
    requires r.payloadOffset <= r.mappedLen <= |f| && layer < cfg.layers && head < cfg.heads
    ensures var spec := P.ReloadedColumn(r, f, cfg, layer * cfg.heads + head, partialCount, last, pending);
      if spec.Err? then res == Err(spec.error) else res.Ok? && fresh(res.value) && res.value.View() == spec.value
  {
    P.ColumnOf(cfg, layer, head);
    var buffer := new ColumnBuffer(layer, head);
    buffer.blockIdx := pending;
    if partialCount > 0 {
      var existing := BlockBytes(r, f, layer, head, last);
      match existing {
        case Got(bytes) =>
          buffer.data := bytes;
          buffer.tokenCount := partialCount;
          buffer.existingTokens := partialCount;
        case Missing => return Err(Layout);
        case OutOfRange => return Err(Panic);
      }
    }
    res := Ok(buffer);
  }

  /** The buffers of a reopened writer, in (layer, head) order. */
  method ReloadBuffers(r: KvcacheReader, f: seq<byte>, cfg: KvCacheConfig, partialCount: nat, last: nat, pending: nat)
    returns (res: KvResult<seq<ColumnBuffer>>)
    requires r.payloadOffset <= r.mappedLen <= |f|
    ensures var spec := P.ReloadColumns(r, f, cfg, cfg.Columns(), partialCount, last, pending);
      if spec.Err? then res == Err(spec.error)
      else res.Ok? && |res.value| == cfg.Columns() && Distinct(res.value)
           && forall i :: 0 <= i < |res.value| ==> fresh(res.value[i]) && res.value[i].View() == spec.value[i]
  {
    var buffers: seq<ColumnBuffer> := [];
    ghost var spec := P.ReloadColumns(r, f, cfg, 0, partialCount, last, pending);
    for layer := 0 to cfg.layers
      invariant |buffers| == layer * cfg.heads && Distinct(buffers)
      invariant spec == P.ReloadColumns(r, f, cfg, |buffers|, partialCount, last, pending) && spec.Ok?
      invariant forall i :: 0 <= i < |buffers| ==> fresh(buffers[i]) && buffers[i].View() == spec.value[i]
    {
      for head := 0 to cfg.heads
        invariant |buffers| == layer * cfg.heads + head && Distinct(buffers)
        invariant spec == P.ReloadColumns(r, f, cfg, |buffers|, partialCount, last, pending) && spec.Ok?
        invariant forall i :: 0 <= i < |buffers| ==> fresh(buffers[i]) && buffers[i].View() == spec.value[i]
      {
        P.ColumnOf(cfg, layer, head);
        var buffer := ReloadBuffer(r, f, cfg, layer, head, partialCount, last, pending);
        if buffer.Err? {
          ReloadErrs(r, f, cfg, |buffers| + 1, cfg.Columns(), partialCount, last, pending);
          return Err(buffer.error);
        }
        buffers := buffers + [buffer.value];
        spec := P.ReloadColumns(r, f, cfg, |buffers|, partialCount, last, pending);
      }
      assert (layer + 1) * cfg.heads == layer * cfg.heads + cfg.heads;
    }
    res := Ok(buffers);
  }

  lemma OpenedReader(c: Codec, f: seq<byte>)
    requires Decode(f).Ok? && WalkEnds(c, f, Decode(f).value.indexHeadOffset) && Open(c, f).Ok?
    ensures var r := Open(c, f).value; r.payloadOffset <= r.mappedLen == |f| && r.nextChunkId < TWO_64
  {
    NextIdFits(FullWalk(c, f, Decode(f).value.indexHeadOffset).blocks);
  }

  /** `open`. */
  method OpenCache(c: Codec, storage: Storage) returns (res: KvResult<KvCacheWriter>)
    requires Decode(storage.bytes).Ok? ==> WalkEnds(c, storage.bytes, Decode(storage.bytes).value.indexHeadOffset)
    ensures var spec := P.OpenWriter(c, storage.bytes);
      if spec.Err? then res == Err(spec.error)
      else res.Ok? && fresh(res.value) && fresh(res.value.worker) && res.value.storage == storage
           && res.value.Valid() && res.value.View() == spec.value
  {
    var f := storage.bytes;
    var reading := OpenReader(c, f);
    if reading.Err? { return Err(reading.error); }
    var r := reading.value;
    var h := r.header;
    OpenedReader(c, f);
    if !(1 <= h.layers < TWO_32 && 1 <= h.heads < TWO_32 && 1 <= h.elementBytes < TWO_32) { return Err(Layout); }
    var cfg: KvCacheConfig := Config(h.layers, h.heads, h.elementBytes);
    P.SomeColumn(cfg);
    var committed := KvHeader.Valid(f);
    var lastBlock := if committed == 0 then 0 else (committed - 1) / BLOCK_TOKEN_COUNT;
    var partialCount := committed % BLOCK_TOKEN_COUNT;
    var pending := if partialCount == 0 then committed / BLOCK_TOKEN_COUNT else lastBlock;
    assert lastBlock == P.LastBlockOf(committed) && pending == P.PendingBlockAfter(committed);
    var buffers := ReloadBuffers(r, f, cfg, partialCount, lastBlock, pending);
    if buffers.Err? { return Err(buffers.error); }
    var worker := new FlushWorker(storage);
    var w := new KvCacheWriter.FromParts(cfg, storage, worker, buffers.value, committed, r.nextChunkId, pending);
    assert w.Columns() == P.OpenFrom(r, f, cfg).value.columns;
    res := Ok(w);
  }

  lemma {:induction false} SettleDecodes(c: Codec, w: P.World)
    requires Decode(w.file).Ok?
    ensures Decode(P.Settle(c, w).file).Ok?
    decreases P.Work(w)
  {
    if !P.Quiet(w) {
      P.StepWorks(c, w);
      FixedFieldsStay(w.file, P.WorkerStep(c, w).file);
      SettleDecodes(c, P.WorkerStep(c, w));
    }
  }
}
