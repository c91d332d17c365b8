/** The writer and its flush worker as a state machine (ncf-kvcache/src/writer.rs).
    Each function below is what one call, or one atomic step of the worker, does to the
    whole state; the classes in KvWriter are proved to compute exactly these. */
module KvProtocol {
  import opened Bytes
  import opened KvHeader
  import opened KvIndex
  import Reader = KvReader

  datatype Column = Column(
    layer: nat, head: nat, blockIdx: nat, tokenCount: nat, existingTokens: nat, data: seq<byte>)

  datatype FlushBatch = Batch(
    blockIdx: nat, epoch: nat, tokenCount: nat, existingTokens: nat,
    entries: seq<ChunkIndexEntry>, payloads: seq<seq<byte>>, prev: nat)

  /** Where the worker stands between two of its atomic accesses to shared state. */
  datatype Phase =
    | Idle
    | Written(batch: FlushBatch, at: nat)             // block and trailer are in the file
    | Cleared(batch: FlushBatch, at: nat)             // the epoch check has passed
    | Loaded(batch: FlushBatch, at: nat, seen: nat)   // valid_token_count has been loaded
    | Counted(at: nat)                                // valid_token_count has been stored

  datatype RawWorld = World(
    cfg: KvCacheConfig,
    file: seq<byte>,
    columns: seq<Column>,
    localCount: nat,
    nextChunkId: nat,
    pendingBlock: nat,
    queue: seq<FlushBatch>,
    worker: Phase,
    truncation: Option<u64>)   // the argument of a truncate whose second half is still to run

  type World = w: RawWorld |
    |w.file| >= HEADER_SIZE && |w.columns| >= 1 && |w.columns| == w.cfg.Columns()
    witness World(Config(1, 1, 1), seq(64, _ => 0), [Column(0, 0, 0, 0, 0, [])], 0, 0, 0, [], Idle, None)

  lemma SomeColumn(cfg: KvCacheConfig)
    ensures cfg.Columns() >= 1
  {
    MulLe(1, cfg.layers, cfg.heads);
  }

  /** Every (layer, head) is a column, and each column is one. */
  lemma ColumnOf(cfg: KvCacheConfig, layer: nat, head: nat)
    requires layer < cfg.layers && head < cfg.heads
    ensures layer * cfg.heads + head < cfg.Columns()
    ensures cfg.LayerOf(layer * cfg.heads + head) == layer && cfg.HeadOf(layer * cfg.heads + head) == head
  {
    MulLe(layer + 1, cfg.layers, cfg.heads);
    DivMod(layer, head, cfg.heads);
  }

  // ---- append and flush ----

  /** Column i's share of a frame. */
  function Cell(cfg: KvCacheConfig, frame: seq<byte>, i: nat): (s: seq<byte>)
    requires |frame| == cfg.Stride() && i < cfg.Columns()
    ensures |s| == cfg.elementBytes
  {
    MulLe(i + 1, cfg.Columns(), cfg.elementBytes);
    frame[i * cfg.elementBytes..(i + 1) * cfg.elementBytes]
  }

  function AppendToken(col: Column, token: seq<byte>): Column {
    col.(data := col.data + token, tokenCount := col.tokenCount + 1)
  }

  /** The frame dealt out to the columns. */
  function Buffered(w: World, frame: seq<byte>): World
    requires |frame| == w.cfg.Stride()
  {
    w.(columns := seq(|w.columns|, i requires 0 <= i < |w.columns| => AppendToken(w.columns[i], Cell(w.cfg, frame, i))),
       localCount := SatAdd(w.localCount, 1))
  }

  function AppendFrame(w: World, frame: seq<byte>): World {
    if |frame| != w.cfg.Stride() then w
    else
      var b := Buffered(w, frame);
      if b.columns[0].tokenCount == BLOCK_TOKEN_COUNT then FlushBlock(b) else b
  }

  function EntryFor(w: World, i: nat): ChunkIndexEntry
    requires i < |w.columns|
  {
    var col := w.columns[i];
    Entry(WrapAdd(w.nextChunkId, i), col.layer, col.head, col.blockIdx, 0, 0, w.columns[0].tokenCount)
  }

  function BatchOf(w: World): FlushBatch {
    Batch(w.pendingBlock, Epoch(w.file), w.columns[0].tokenCount, w.columns[0].existingTokens,
          seq(|w.columns|, i requires 0 <= i < |w.columns| => EntryFor(w, i)),
          seq(|w.columns|, i requires 0 <= i < |w.columns| => w.columns[i].data),
          Head(w.file))
  }

  function ResetColumn(col: Column): Column {
    col.(data := [], tokenCount := 0, existingTokens := 0, blockIdx := WrapAdd(col.blockIdx, 1))
  }

  function FlushBlock(w: World): World {
    if w.columns[0].tokenCount == 0 then w
    else w.(queue := w.queue + [BatchOf(w)],
            nextChunkId := WrapAdd(w.nextChunkId, |w.columns|),
            pendingBlock := WrapAdd(w.pendingBlock, 1),
            columns := seq(|w.columns|, i requires 0 <= i < |w.columns| => ResetColumn(w.columns[i])))
  }

  // ---- the worker ----

  /** The zip of payloads and entries stops at the shorter of the two. */
  function Pairs(b: FlushBatch): nat { Min(|b.entries|, |b.payloads|) }

  /** Entries with the offsets and lengths of their payloads, the first one placed at `base`. */
  function Placed(b: FlushBatch, base: nat): seq<ChunkIndexEntry> {
    seq(Pairs(b), i requires 0 <= i < Pairs(b) =>
      b.entries[i].(byteOffset := base + |Flatten(b.payloads[..i])|, byteLen := |b.payloads[i]|))
  }

  function BlockOf(f: seq<byte>, b: FlushBatch): IndexBlock {
    IndexBlock(b.prev, b.blockIdx, Placed(b, |f|))
  }

  function TrailerAt(c: Codec, f: seq<byte>, b: FlushBatch): nat {
    |f| + |Flatten(b.payloads[..Pairs(b)])| + |c.enc(BlockOf(f, b))|
  }

  /** Payloads, then the index block, then its trailer, all at the end of the file. */
  function AppendBatch(c: Codec, f: seq<byte>, b: FlushBatch): seq<byte>
    requires |f| >= HEADER_SIZE
  {
    var cbor := c.enc(BlockOf(f, b));
    Appended(f, Flatten(b.payloads[..Pairs(b)]) + cbor + EncodedTrailer(Trailer(TRAILER_MAGIC, |cbor|, b.prev)))
  }

  /** The worker's next atomic step; nothing when it has nothing to do. */
  function WorkerStep(c: Codec, w: World): World {
    match w.worker
    case Idle =>
      if w.queue == [] then w
      else
        var b := w.queue[0];
        w.(queue := w.queue[1..], file := AppendBatch(c, w.file, b), worker := Written(b, TrailerAt(c, w.file, b)))
    case Written(b, at) =>
      w.(worker := if b.epoch == Epoch(w.file) then Cleared(b, at) else Idle)
    case Cleared(b, at) =>
      w.(worker := Loaded(b, at, Valid(w.file)))
    case Loaded(b, at, seen) =>
      w.(file := SetValid(w.file, SatAdd(seen, SatSub(b.tokenCount, b.existingTokens))), worker := Counted(at))
    case Counted(at) =>
      w.(file := SetHead(w.file, at % TWO_64), worker := Idle)
  }

  predicate Quiet(w: World) { w.queue == [] && w.worker == Idle }

  function Work(w: World): nat {
    6 * |w.queue| + match w.worker case Idle => 0 case Written(_, _) => 4 case Cleared(_, _) => 3
                                   case Loaded(_, _, _) => 2 case Counted(_) => 1
  }

  lemma StepWorks(c: Codec, w: World)
    ensures var v := WorkerStep(c, w);
      && v == w.(file := v.file, queue := v.queue, worker := v.worker)
      && (!Quiet(w) ==> Work(v) < Work(w))
  {
  }

  /** The worker run until its queue is empty. */
  function Settle(c: Codec, w: World): (r: World)
    ensures Quiet(r)
    decreases Work(w)
  {
    if Quiet(w) then w else Settle(c, WorkerStep(c, w))
  }

  // ---- truncate ----

  /** The range check and the epoch bump. */
  function TruncateBegin(w: World, count: u64): World {
    if count > w.localCount then w
    else w.(file := SetEpoch(w.file, WrapAdd(Epoch(w.file), 1)), truncation := Some(count))
  }

  function TrimColumn(col: Column, count: nat, elementBytes: nat): Column {
    col.(tokenCount := count,
         existingTokens := Min(col.existingTokens, count),
         data := if count * elementBytes <= |col.data| then col.data[..count * elementBytes] else col.data)
  }

  function TrimBuffers(w: World, kept: nat, count: nat): World {
    w.(truncation := None, localCount := count,
       columns := seq(|w.columns|, i requires 0 <= i < |w.columns| => TrimColumn(w.columns[i], kept, w.cfg.elementBytes)))
  }

  /** The rest of truncate: load the committed count, then either lower it or trim the buffers. */
  function TruncateEnd(w: World): KvResult<World> {
    if w.truncation.None? then Ok(w)
    else
      var count := w.truncation.value;
      var committed := Valid(w.file);
      if count <= committed then
        Ok(w.(truncation := None, localCount := count, file := SetValid(w.file, count)))
      else if w.localCount < committed then Err(Overflow)
      else if w.localCount - committed < count - committed then Err(Overflow)
      else
        var drop := (w.localCount - committed - (count - committed)) % TWO_32;
        if w.columns[0].tokenCount < drop then Err(Overflow)
        else
          Ok(TrimBuffers(w, w.columns[0].tokenCount - drop, count))
  }

  /** truncate returns its error with the epoch already bumped and nothing else changed. */
  function TruncateRest(w: World): World {
    match TruncateEnd(w)
    case Ok(v) => v
    case Err(_) => w.(truncation := None)
  }

  // ---- events and runs ----

  /** One call of the writer's owner (truncate in its two halves), or one worker step. */
  datatype Event =
    | Append(frame: seq<byte>)
    | FlushPending
    | BeginTruncate(count: u64)
    | EndTruncate
    | WorkerMoves

  function Step(c: Codec, w: World, ev: Event): World {
    match ev
    case WorkerMoves => WorkerStep(c, w)
    case EndTruncate => TruncateRest(w)
    case Append(frame) => if w.truncation.Some? then w else AppendFrame(w, frame)
    case FlushPending => if w.truncation.Some? then w else FlushBlock(w)
    case BeginTruncate(count) => if w.truncation.Some? then w else TruncateBegin(w, count)
  }

  /** Any interleaving of calls and worker steps. */
  function Run(c: Codec, w: World, evs: seq<Event>): World {
    if evs == [] then w else Step(c, Run(c, w, evs[..|evs| - 1]), evs[|evs| - 1])
  }

  // ---- sessions ----

  function EmptyColumn(cfg: KvCacheConfig, i: nat): Column {
    Column(cfg.LayerOf(i), cfg.HeadOf(i), 0, 0, 0, [])
  }

  /** `create`: header, metadata, and a writer with empty buffers. */
  function Create(cfg: KvCacheConfig, metadata: seq<byte>): World {
    SomeColumn(cfg);
    World(cfg, Encoded(NewHeader(cfg, |metadata| % TWO_32)) + metadata,
          seq(cfg.Columns(), i requires 0 <= i < cfg.Columns() => EmptyColumn(cfg, i)),
          0, 0, 0, [], Idle, None)
  }

  /** A reopened column starts from the bytes of the partial last block, if there is one. */
  function ReloadedColumn(r: Reader.KvcacheReader, f: seq<byte>, cfg: KvCacheConfig, i: nat,
                          partialCount: nat, lastBlock: nat, pendingBlock: nat): KvResult<Column>
    requires r.payloadOffset <= r.mappedLen <= |f|
  {
    var col := EmptyColumn(cfg, i).(blockIdx := pendingBlock);
    if partialCount == 0 then Ok(col)
    else match Reader.BlockBytes(r, f, col.layer, col.head, lastBlock)
      case Got(bytes) => Ok(col.(data := bytes, tokenCount := partialCount, existingTokens := partialCount))
      case Missing => Err(Layout)
      case OutOfRange => Err(Panic)
  }

  function ReloadColumns(r: Reader.KvcacheReader, f: seq<byte>, cfg: KvCacheConfig, n: nat,
                         partialCount: nat, lastBlock: nat, pendingBlock: nat): (res: KvResult<seq<Column>>)
    requires r.payloadOffset <= r.mappedLen <= |f|
    ensures res.Ok? ==> |res.value| == n
  {
    if n == 0 then Ok([])
    else
      var before :- ReloadColumns(r, f, cfg, n - 1, partialCount, lastBlock, pendingBlock);
      var col :- ReloadedColumn(r, f, cfg, n - 1, partialCount, lastBlock, pendingBlock);
      Ok(before + [col])
  }

  /** The block of the last committed token. */
  function LastBlockOf(committed: nat): nat {
    if committed == 0 then 0 else (committed - 1) / BLOCK_TOKEN_COUNT
  }

  /** `open`'s two cases for where the next block goes. */
  function PendingBlockAfter(committed: nat): nat {
    if committed % BLOCK_TOKEN_COUNT == 0 then committed / BLOCK_TOKEN_COUNT else LastBlockOf(committed)
  }

  /** `open` once the file has been read back: continue from its committed count. */
  function OpenFrom(r: Reader.KvcacheReader, f: seq<byte>, cfg: KvCacheConfig): KvResult<World>
    requires |f| >= HEADER_SIZE && r.payloadOffset <= r.mappedLen <= |f|
  {
    var committed := Valid(f);
    var lastBlock := LastBlockOf(committed);
    var pending := PendingBlockAfter(committed);
    SomeColumn(cfg);
    var columns :- ReloadColumns(r, f, cfg, cfg.Columns(), committed % BLOCK_TOKEN_COUNT, lastBlock, pending);
    Ok(World(cfg, f, columns, committed, r.nextChunkId, pending, [], Idle, None))
  }

  /** `open`. A header with a zero layer, head or element count is outside the model and
      counts as an error. */
  ghost function OpenWriter(c: Codec, f: seq<byte>): KvResult<World>
    requires Decode(f).Ok? ==> Reader.WalkEnds(c, f, Decode(f).value.indexHeadOffset)
  {
    var r :- Reader.Open(c, f);
    var h := r.header;
    if !(1 <= h.layers < TWO_32 && 1 <= h.heads < TWO_32 && 1 <= h.elementBytes < TWO_32) then Err(Layout)
    else OpenFrom(r, f, Config(h.layers, h.heads, h.elementBytes))
  }

  /** Dropping the writer: flush what is buffered and let the worker finish. */
  function Close(c: Codec, w: World): seq<byte> {
    Settle(c, FlushBlock(w)).file
  }
}
