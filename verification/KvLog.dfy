/** What a cache file means: a log of frames; and what one flush does to that meaning. */
module KvLog {
  import opened Bytes
  import opened KvHeader
  import opened KvIndex
  import opened KvProtocol
  import opened KvReader
  import opened KvChains
  import KvTokens

  type Frame = seq<byte>

  ghost predicate Sized(cfg: KvCacheConfig, log: seq<Frame>) {
    forall t :: 0 <= t < |log| ==> |log[t]| == cfg.Stride()
  }

  /** Column i of the frames, token after token. */
  function ColumnData(cfg: KvCacheConfig, frames: seq<Frame>, i: nat): seq<byte>
    requires Sized(cfg, frames) && i < cfg.Columns()
  {
    if frames == [] then []
    else var k := |frames| - 1; ColumnData(cfg, frames[..k], i) + Cell(cfg, frames[k], i)
  }

  lemma {:induction false} ColumnDataLength(cfg: KvCacheConfig, frames: seq<Frame>, i: nat)
    requires Sized(cfg, frames) && i < cfg.Columns()
    ensures |ColumnData(cfg, frames, i)| == |frames| * cfg.elementBytes
  {
    if frames != [] {
      ColumnDataLength(cfg, frames[..|frames| - 1], i);
    }
  }

  lemma {:induction false} ColumnDataPrefix(cfg: KvCacheConfig, frames: seq<Frame>, i: nat, k: nat)
    requires Sized(cfg, frames) && i < cfg.Columns() && k <= |frames|
    ensures k * cfg.elementBytes <= |ColumnData(cfg, frames, i)|
    ensures ColumnData(cfg, frames[..k], i) == ColumnData(cfg, frames, i)[..k * cfg.elementBytes]
  {
    ColumnDataLength(cfg, frames, i);
    ColumnDataLength(cfg, frames[..k], i);
    MulLe(k, |frames|, cfg.elementBytes);
    if k == |frames| {
      assert frames[..k] == frames;
    } else {
      var m := |frames| - 1;
      ColumnDataPrefix(cfg, frames[..m], i, k);
      assert frames[..m][..k] == frames[..k];
      assert ColumnData(cfg, frames[..m], i) <= ColumnData(cfg, frames, i);
    }
  }

  /** Token t of a column is that column's cell of frame t. */
  lemma ColumnDataAt(cfg: KvCacheConfig, frames: seq<Frame>, i: nat, t: nat)
    requires Sized(cfg, frames) && i < cfg.Columns() && t < |frames|
    ensures t * cfg.elementBytes + cfg.elementBytes <= |ColumnData(cfg, frames, i)|
    ensures ColumnData(cfg, frames, i)[t * cfg.elementBytes..t * cfg.elementBytes + cfg.elementBytes] ==
      Cell(cfg, frames[t], i)
  {
    var upto := frames[..t + 1];
    assert (t + 1) * cfg.elementBytes == t * cfg.elementBytes + cfg.elementBytes;
    ColumnDataPrefix(cfg, frames, i, t + 1);
    ColumnDataLength(cfg, upto[..t], i);
    assert ColumnData(cfg, upto, i) == ColumnData(cfg, upto[..t], i) + Cell(cfg, frames[t], i);
  }

  /** The frames of block b. */
  function BlockFrames(log: seq<Frame>, b: nat): seq<Frame> {
    log[Min(BLOCK_TOKEN_COUNT * b, |log|)..Min(BLOCK_TOKEN_COUNT * b + BLOCK_TOKEN_COUNT, |log|)]
  }

  /** A block that reaches the end of the log. */
  lemma LastBlock(log: seq<Frame>, b: nat)
    requires BLOCK_TOKEN_COUNT * b <= |log| <= BLOCK_TOKEN_COUNT * b + BLOCK_TOKEN_COUNT
    ensures BlockFrames(log, b) == log[BLOCK_TOKEN_COUNT * b..]
  {
  }

  function ColumnKey(cfg: KvCacheConfig, i: nat, block: nat): Key {
    Key(cfg.LayerOf(i), cfg.HeadOf(i), block)
  }

  /** The payload of the newest entry for a key, in file f. */
  function PayloadIn(chain: seq<IndexBlock>, f: seq<byte>, k: Key): Fetched {
    var hit := Lookup(chain, k);
    if hit.None? then Missing
    else if hit.value.byteOffset + hit.value.byteLen <= |f| then
      Got(f[hit.value.byteOffset..hit.value.byteOffset + hit.value.byteLen])
    else OutOfRange
  }

  /** The newest payload stored for a key. */
  ghost function Stored(c: Codec, f: seq<byte>, k: Key): Fetched
    requires |f| >= HEADER_SIZE && Linked(c, f, PayloadOffset(f), Head(f))
  {
    PayloadIn(Chain(c, f, PayloadOffset(f), Head(f)), f, k)
  }

  /** The tokens counted by the newest entry for a key. */
  ghost function Tally(c: Codec, f: seq<byte>, k: Key): Option<nat>
    requires |f| >= HEADER_SIZE && Linked(c, f, PayloadOffset(f), Head(f))
  {
    var hit := Lookup(Chain(c, f, PayloadOffset(f), Head(f)), k);
    if hit.Some? then Some(hit.value.tokenCount) else None
  }

  ghost predicate HitInside(chain: seq<IndexBlock>, k: Key, lo: nat, hi: nat) {
    var hit := Lookup(chain, k);
    hit.Some? ==> lo <= hit.value.byteOffset && hit.value.byteOffset + hit.value.byteLen <= hi
  }

  lemma SliceStays(f: seq<byte>, g: seq<byte>, a: nat, b: nat)
    requires Extends(f, g) && HEADER_SIZE <= a <= b <= |f|
    ensures f[a..b] == g[a..b]
  {
  }

  lemma PayloadStays(chain: seq<IndexBlock>, f: seq<byte>, g: seq<byte>, k: Key)
    requires Extends(f, g) && HitInside(chain, k, HEADER_SIZE, |f|)
    ensures PayloadIn(chain, g, k) == PayloadIn(chain, f, k)
  {
    var hit := Lookup(chain, k);
    if hit.Some? { SliceStays(f, g, hit.value.byteOffset, hit.value.byteOffset + hit.value.byteLen); }
  }

  lemma PayloadOnTop(block: IndexBlock, before: seq<IndexBlock>, g: seq<byte>, k: Key)
    ensures var hit := FindLast(block.entries, k);
      PayloadIn([block] + before, g, k) ==
        if hit.None? then PayloadIn(before, g, k)
        else if hit.value.byteOffset + hit.value.byteLen <= |g| then
          Got(g[hit.value.byteOffset..hit.value.byteOffset + hit.value.byteLen])
        else OutOfRange
  {
    var chain := [block] + before;
    assert chain[0] == block && chain[1..] == before;
    assert Lookup(chain, k) == if FindLast(block.entries, k).Some? then FindLast(block.entries, k) else Lookup(before, k);
  }

  /** Every hit of a well-formed chain lies between the payload offset and the end of the file. */
  lemma HitsInside(c: Codec, f: seq<byte>, k: Key)
    requires |f| >= HEADER_SIZE && Linked(c, f, PayloadOffset(f), Head(f))
    ensures HitInside(Chain(c, f, PayloadOffset(f), Head(f)), k, PayloadOffset(f), |f|)
    ensures Stored(c, f, k) != OutOfRange
  {
    if Lookup(Chain(c, f, PayloadOffset(f), Head(f)), k).Some? {
      ChainEntriesInside(c, f, PayloadOffset(f), Head(f), k);
    }
  }

  ghost predicate ReadableFile(c: Codec, cfg: KvCacheConfig, f: seq<byte>) {
    FileOk(cfg, f) && Linked(c, f, PayloadOffset(f), Head(f))
  }

  /** Every block of the log is stored, its newest payload being exactly that block's column of
      the log and its newest entry counting that block's frames; the count may be lower. */
  ghost predicate Stocked(c: Codec, cfg: KvCacheConfig, f: seq<byte>, log: seq<Frame>) {
    && ReadableFile(c, cfg, f) && Sized(cfg, log)
    && Tallied(c, cfg, f, log)
    && forall i: nat, b: nat :: i < cfg.Columns() && BLOCK_TOKEN_COUNT * b < |log| ==>
         Stored(c, f, ColumnKey(cfg, i, b)) == Got(ColumnData(cfg, BlockFrames(log, b), i))
  }

  /** The newest entry of every block of the log counts the block's frames. */
  ghost predicate Tallied(c: Codec, cfg: KvCacheConfig, f: seq<byte>, log: seq<Frame>)
    requires ReadableFile(c, cfg, f)
  {
    forall i: nat, b: nat :: i < cfg.Columns() && BLOCK_TOKEN_COUNT * b < |log| ==>
      Tally(c, f, ColumnKey(cfg, i, b)) == Some(|BlockFrames(log, b)|)
  }

  /** The file stands for the log: every frame is counted, and every block is stored. */
  ghost predicate Faithful(c: Codec, cfg: KvCacheConfig, f: seq<byte>, log: seq<Frame>) {
    Stocked(c, cfg, f, log) && Valid(f) == |log|
  }

  lemma StoredStays(c: Codec, f: seq<byte>, g: seq<byte>, k: Key)
    requires HEADER_SIZE <= |f| && Extends(f, g) && Head(g) == Head(f) && PayloadOffset(g) == PayloadOffset(f)
    requires Linked(c, f, PayloadOffset(f), Head(f))
    ensures Linked(c, g, PayloadOffset(f), Head(f)) && Stored(c, g, k) == Stored(c, f, k)
  {
    ChainStays(c, f, g, PayloadOffset(f), Head(f));
    HitsInside(c, f, k);
    PayloadStays(Chain(c, f, PayloadOffset(f), Head(f)), f, g, k);
  }

  lemma StockStays(c: Codec, cfg: KvCacheConfig, f: seq<byte>, g: seq<byte>, log: seq<Frame>)
    requires Stocked(c, cfg, f, log) && Extends(f, g) && Head(g) == Head(f)
    ensures Stocked(c, cfg, g, log)
  {
    FileStaysOk(cfg, f, g);
    ChainStays(c, f, g, PayloadOffset(f), Head(f));
    forall i: nat, b: nat | i < cfg.Columns() && BLOCK_TOKEN_COUNT * b < |log|
      ensures Stored(c, g, ColumnKey(cfg, i, b)) == Got(ColumnData(cfg, BlockFrames(log, b), i))
    {
      StoredStays(c, f, g, ColumnKey(cfg, i, b));
    }
    TallyStays(c, cfg, f, g, log);
  }

  lemma TallyStays(c: Codec, cfg: KvCacheConfig, f: seq<byte>, g: seq<byte>, log: seq<Frame>)
    requires ReadableFile(c, cfg, f) && Tallied(c, cfg, f, log) && Extends(f, g) && Head(g) == Head(f)
    ensures ReadableFile(c, cfg, g) && Tallied(c, cfg, g, log)
  {
    FileStaysOk(cfg, f, g);
    ChainStays(c, f, g, PayloadOffset(f), Head(f));
    forall i: nat, b: nat | i < cfg.Columns() && BLOCK_TOKEN_COUNT * b < |log|
      ensures Tally(c, g, ColumnKey(cfg, i, b)) == Some(|BlockFrames(log, b)|)
    {
      assert Tally(c, g, ColumnKey(cfg, i, b)) == Tally(c, f, ColumnKey(cfg, i, b));
    }
  }

  /** Appending bytes and moving the epoch do not change what the file stands for. */
  lemma FaithfulStays(c: Codec, cfg: KvCacheConfig, f: seq<byte>, g: seq<byte>, log: seq<Frame>)
    requires Faithful(c, cfg, f, log) && Extends(f, g) && Head(g) == Head(f) && Valid(g) == Valid(f)
    ensures Faithful(c, cfg, g, log)
  {
    StockStays(c, cfg, f, g, log);
  }

  lemma BlockFramesShortened(log: seq<Frame>, count: nat, b: nat)
    requires count <= |log| && BLOCK_TOKEN_COUNT * b < count
    requires count % BLOCK_TOKEN_COUNT == 0 || count == |log|
    ensures BlockFrames(log[..count], b) == BlockFrames(log, b)
  {
    if count == |log| {
      assert log[..count] == log;
    } else {
      var from := BLOCK_TOKEN_COUNT * b;
      assert from + BLOCK_TOKEN_COUNT <= count;
      SliceOfSlice(log, 0, count, from, from + BLOCK_TOKEN_COUNT);
    }
  }

  lemma SameBlocksStocked(c: Codec, cfg: KvCacheConfig, f: seq<byte>, log: seq<Frame>, short: seq<Frame>)
    requires Stocked(c, cfg, f, log) && short <= log
    requires forall b: nat :: BLOCK_TOKEN_COUNT * b < |short| ==> BlockFrames(short, b) == BlockFrames(log, b)
    ensures Stocked(c, cfg, f, short)
  {
  }

  /** Lowering the count to a whole number of blocks, or not at all, stands for the shorter log. */
  lemma FaithfulShortened(c: Codec, cfg: KvCacheConfig, f: seq<byte>, g: seq<byte>, log: seq<Frame>, count: nat)
    requires Faithful(c, cfg, f, log) && count <= |log|
    requires count % BLOCK_TOKEN_COUNT == 0 || count == |log|
    requires Extends(f, g) && Head(g) == Head(f) && |g| >= HEADER_SIZE && Valid(g) == count
    ensures Faithful(c, cfg, g, log[..count])
  {
    StockStays(c, cfg, f, g, log);
    forall b: nat | BLOCK_TOKEN_COUNT * b < count ensures BlockFrames(log[..count], b) == BlockFrames(log, b) {
      BlockFramesShortened(log, count, b);
    }
    SameBlocksStocked(c, cfg, g, log, log[..count]);
  }

  // ---- one flush, run to completion ----

  /** A file after a batch has been written, counted and published. */
  function Published(c: Codec, f: seq<byte>, b: FlushBatch): seq<byte>
    requires |f| >= HEADER_SIZE
  {
    SetHead(SetValid(AppendBatch(c, f, b), SatAdd(Valid(f), KvTokens.Adds(b))), TrailerAt(c, f, b) % TWO_64)
  }

  /** An idle worker given one batch takes its five steps and publishes it. */
  lemma SettleOne(c: Codec, w: World)
    requires Quiet(w) && w.columns[0].tokenCount != 0
    ensures Settle(c, FlushBlock(w)) ==
      FlushBlock(w).(queue := [], worker := Idle, file := Published(c, w.file, BatchOf(w)))
  {
    var b, g, at := BatchOf(w), AppendBatch(c, w.file, BatchOf(w)), TrailerAt(c, w.file, BatchOf(w));
    var v0 := FlushBlock(w);
    assert v0.queue == [b];
    var v1 := v0.(queue := [], file := g, worker := Written(b, at));
    assert WorkerStep(c, v0) == v1;
    var v2 := v1.(worker := Cleared(b, at));
    assert WorkerStep(c, v1) == v2;
    var v3 := v2.(worker := Loaded(b, at, Valid(g)));
    assert WorkerStep(c, v2) == v3;
    var v4 := WorkerStep(c, v3);
    var v5 := WorkerStep(c, v4);
    assert Settle(c, v0) == Settle(c, v1) == Settle(c, v2) == Settle(c, v3) == Settle(c, v4) == Settle(c, v5) == v5;
  }

  lemma PublishedWords(c: Codec, f: seq<byte>, b: FlushBatch)
    requires |f| >= HEADER_SIZE && TrailerAt(c, f, b) < TWO_64
    ensures var g0, g := AppendBatch(c, f, b), Published(c, f, b);
      && |g| == |g0| && Extends(f, g) && Extends(g0, g)
      && Valid(g) == SatAdd(Valid(f), KvTokens.Adds(b)) && Epoch(g) == Epoch(f) && Head(g) == TrailerAt(c, f, b)
  {
    var g0, at := AppendBatch(c, f, b), TrailerAt(c, f, b);
    assert at % TWO_64 == at;
    var g1 := SetValid(g0, SatAdd(Valid(f), KvTokens.Adds(b)));
    ExtendsTransitive(g0, g1, SetHead(g1, at));
    ExtendsTransitive(f, g0, SetHead(g1, at));
  }

  lemma PublishedChain(c: Codec, cfg: KvCacheConfig, f: seq<byte>, b: FlushBatch)
    requires Lawful(c) && ReadableFile(c, cfg, f) && BatchOk(cfg, b) && |AppendBatch(c, f, b)| < TWO_64
    requires Linked(c, f, PayloadOffset(f), b.prev)
    ensures var g := Published(c, f, b);
      && ReadableFile(c, cfg, g) && PayloadOffset(g) == PayloadOffset(f)
      && Chain(c, g, PayloadOffset(f), Head(g)) == [BlockOf(f, b)] + Chain(c, f, PayloadOffset(f), b.prev)
  {
    AppendedChain(cfg, c, f, b);
    PublishedWords(c, f, b);
    FileStaysOk(cfg, f, Published(c, f, b));
    ChainStays(c, AppendBatch(c, f, b), Published(c, f, b), PayloadOffset(f), TrailerAt(c, f, b));
  }

  lemma ColumnKeysDiffer(cfg: KvCacheConfig, i: nat, j: nat, block: nat)
    requires ColumnKey(cfg, i, block) == ColumnKey(cfg, j, block)
    ensures i == j
  {
    assert i == cfg.LayerOf(i) * cfg.heads + cfg.HeadOf(i);
    assert j == cfg.LayerOf(j) * cfg.heads + cfg.HeadOf(j);
  }

  /** Each column's own key finds its own entry in the new block. */
  lemma NewEntryFound(cfg: KvCacheConfig, f: seq<byte>, b: FlushBatch, i: nat)
    requires BatchOk(cfg, b) && i < cfg.Columns()
    ensures FindLast(BlockOf(f, b).entries, ColumnKey(cfg, i, b.blockIdx)) == Some(BlockOf(f, b).entries[i])
  {
    var es := BlockOf(f, b).entries;
    assert KeyOf(es[i]) == ColumnKey(cfg, i, b.blockIdx) by {
      assert EntryOk(cfg, b.entries[i], i, b.blockIdx, b.tokenCount);
    }
    forall j | 0 <= j < |es| && KeyOf(es[j]) == ColumnKey(cfg, i, b.blockIdx) ensures j == i {
      assert EntryOk(cfg, b.entries[j], j, b.blockIdx, b.tokenCount);
      ColumnKeysDiffer(cfg, i, j, b.blockIdx);
    }
    FindUnique(es, ColumnKey(cfg, i, b.blockIdx), i);
  }

  lemma {:induction false} FindUnique(es: seq<ChunkIndexEntry>, k: Key, i: nat)
    requires i < |es| && KeyOf(es[i]) == k
    requires forall j :: 0 <= j < |es| && KeyOf(es[j]) == k ==> j == i
    ensures FindLast(es, k) == Some(es[i])
  {
    if i < |es| - 1 { FindUnique(es[..|es| - 1], k, i); }
  }

  lemma OtherBlocksMissed(cfg: KvCacheConfig, f: seq<byte>, b: FlushBatch, k: Key)
    requires BatchOk(cfg, b) && k.blockIdx != b.blockIdx
    ensures FindLast(BlockOf(f, b).entries, k) == None
  {
    var es := BlockOf(f, b).entries;
    forall e | e in es ensures KeyOf(e) != k {
      var j :| 0 <= j < |es| && es[j] == e;
      assert EntryOk(cfg, b.entries[j], j, b.blockIdx, b.tokenCount);
    }
  }

  /** The file after a flush has run to completion. */
  function Flushed(c: Codec, w: World): seq<byte> { Settle(c, FlushBlock(w)).file }

  ghost predicate Flushable(c: Codec, w: World) {
    && Quiet(w) && ReadableFile(c, w.cfg, w.file)
    && w.columns[0].existingTokens <= w.columns[0].tokenCount && 1 <= w.columns[0].tokenCount <= BLOCK_TOKEN_COUNT
    && w.pendingBlock + 1 < TWO_64 && TagsEqual(w)
  }

  lemma FlushedIsPublished(c: Codec, w: World)
    requires Flushable(c, w)
    ensures Flushed(c, w) == Published(c, w.file, BatchOf(w)) && BatchOk(w.cfg, BatchOf(w))
    ensures |Flushed(c, w)| == |AppendBatch(c, w.file, BatchOf(w))|
    ensures BatchOf(w).prev == Head(w.file)
  {
    SettleOne(c, w);
    BatchOfOk(w);
  }

  /** A completed flush counts the new tokens and puts one block on top of the chain. */
  lemma FlushedChain(c: Codec, w: World)
    requires Lawful(c) && Flushable(c, w) && |Flushed(c, w)| < TWO_64
    ensures var f, g := w.file, Flushed(c, w);
      && ReadableFile(c, w.cfg, g) && Extends(f, g) && PayloadOffset(g) == PayloadOffset(f)
      && Valid(g) == SatAdd(Valid(f), SatSub(w.columns[0].tokenCount, w.columns[0].existingTokens))
      && Epoch(g) == Epoch(f)
      && Chain(c, g, PayloadOffset(f), Head(g)) == [BlockOf(f, BatchOf(w))] + Chain(c, f, PayloadOffset(f), Head(f))
  {
    FlushedIsPublished(c, w);
    PublishedWords(c, w.file, BatchOf(w));
    PublishedChain(c, w.cfg, w.file, BatchOf(w));
  }

  lemma NewPayload(c: Codec, f: seq<byte>, b: FlushBatch, i: nat)
    requires |f| >= HEADER_SIZE && i < Pairs(b)
    ensures var g, e := AppendBatch(c, f, b), Placed(b, |f|)[i];
      && |f| <= e.byteOffset && e.byteOffset + e.byteLen <= |g|
      && g[e.byteOffset..e.byteOffset + e.byteLen] == b.payloads[i]
  {
    PlacedAt(b, |f|, i);
    var g, ps, e := AppendBatch(c, f, b), Flatten(b.payloads[..Pairs(b)]), Placed(b, |f|)[i];
    var tail := g[|f| + |ps|..];
    assert g == f + ps + tail by { assert g[|f|..][..|ps|] == ps; }
    MiddleSlice(f, ps, tail, e.byteOffset - |f|, e.byteOffset - |f| + e.byteLen);
  }

  lemma PublishedNew(c: Codec, cfg: KvCacheConfig, f: seq<byte>, b: FlushBatch, i: nat, before: seq<IndexBlock>)
    requires |f| >= HEADER_SIZE && BatchOk(cfg, b) && i < cfg.Columns() && TrailerAt(c, f, b) < TWO_64
    ensures PayloadIn([BlockOf(f, b)] + before, Published(c, f, b), ColumnKey(cfg, i, b.blockIdx)) == Got(b.payloads[i])
  {
    PublishedWords(c, f, b);
    NewEntryFound(cfg, f, b, i);
    NewPayload(c, f, b, i);
    var e := Placed(b, |f|)[i];
    SliceStays(AppendBatch(c, f, b), Published(c, f, b), e.byteOffset, e.byteOffset + e.byteLen);
    PayloadOnTop(BlockOf(f, b), before, Published(c, f, b), ColumnKey(cfg, i, b.blockIdx));
  }

  lemma PublishedOld(c: Codec, cfg: KvCacheConfig, f: seq<byte>, b: FlushBatch, k: Key, before: seq<IndexBlock>)
    requires |f| >= HEADER_SIZE && BatchOk(cfg, b) && k.blockIdx != b.blockIdx && TrailerAt(c, f, b) < TWO_64
    requires HitInside(before, k, HEADER_SIZE, |f|)
    ensures PayloadIn([BlockOf(f, b)] + before, Published(c, f, b), k) == PayloadIn(before, f, k)
  {
    PublishedWords(c, f, b);
    OtherBlocksMissed(cfg, f, b, k);
    PayloadOnTop(BlockOf(f, b), before, Published(c, f, b), k);
    PayloadStays(before, f, Published(c, f, b), k);
  }

  /** What a completed flush stores: the buffered bytes under the pending block's keys,
      and nothing else changes. */
  lemma FlushedStore(c: Codec, w: World, i: nat, block: nat)
    requires Lawful(c) && Flushable(c, w) && |Flushed(c, w)| < TWO_64 && i < w.cfg.Columns()
    ensures ReadableFile(c, w.cfg, Flushed(c, w))
    ensures Stored(c, Flushed(c, w), ColumnKey(w.cfg, i, block)) ==
      if block == w.pendingBlock then Got(w.columns[i].data) else Stored(c, w.file, ColumnKey(w.cfg, i, block))
  {
    FlushedChain(c, w);
    FlushedIsPublished(c, w);
    var b, before := BatchOf(w), Chain(c, w.file, PayloadOffset(w.file), Head(w.file));
    if block == w.pendingBlock {
      PublishedNew(c, w.cfg, w.file, b, i, before);
      assert b.payloads[i] == w.columns[i].data;
    } else {
      HitsInside(c, w.file, ColumnKey(w.cfg, i, block));
      PublishedOld(c, w.cfg, w.file, b, ColumnKey(w.cfg, i, block), before);
    }
  }

  /** What the newest entry for a column of the flushed block says: whose it is, the tokens it
      counts, and where its bytes lie. */
  ghost predicate EntrySays(e: ChunkIndexEntry, id: nat, layer: nat, head: nat, block: nat, count: nat, g: seq<byte>, data: seq<byte>) {
    && e.chunkId == id && e.layer == layer && e.head == head && e.blockIdx == block && e.tokenCount == count
    && e.byteLen == |data| && e.byteOffset + |data| <= |g| && g[e.byteOffset..e.byteOffset + |data|] == data
  }

  lemma OnTop(block: IndexBlock, before: seq<IndexBlock>, k: Key)
    ensures Lookup([block] + before, k) == if FindLast(block.entries, k).Some? then FindLast(block.entries, k) else Lookup(before, k)
  {
    var chain := [block] + before;
    assert chain[0] == block && chain[1..] == before;
  }

  lemma PlacedSays(c: Codec, cfg: KvCacheConfig, f: seq<byte>, b: FlushBatch, i: nat, g: seq<byte>)
    requires |f| >= HEADER_SIZE && BatchOk(cfg, b) && i < cfg.Columns() && TrailerAt(c, f, b) < TWO_64
    requires g == Published(c, f, b)
    ensures EntrySays(Placed(b, |f|)[i], b.entries[i].chunkId, cfg.LayerOf(i), cfg.HeadOf(i), b.blockIdx, b.tokenCount, g, b.payloads[i])
  {
    var e := Placed(b, |f|)[i];
    assert EntryOk(cfg, b.entries[i], i, b.blockIdx, b.tokenCount);
    NewPayload(c, f, b, i);
    PublishedWords(c, f, b);
    SliceStays(AppendBatch(c, f, b), g, e.byteOffset, e.byteOffset + e.byteLen);
  }

  /** The block that a completed flush puts on top. */
  lemma FlushedTop(c: Codec, w: World, after: seq<IndexBlock>)
    requires Lawful(c) && Flushable(c, w) && |Flushed(c, w)| < TWO_64
    requires ReadableFile(c, w.cfg, Flushed(c, w))
    requires after == Chain(c, Flushed(c, w), PayloadOffset(Flushed(c, w)), Head(Flushed(c, w)))
    ensures after != [] && after[0].blockIdx == w.pendingBlock && after[0].prevIndexOffset == Head(w.file)
    ensures |after[0].entries| == w.cfg.Columns() && after[1..] == Chain(c, w.file, PayloadOffset(w.file), Head(w.file))
  {
    FlushedChain(c, w);
    FlushedIsPublished(c, w);
    var before := Chain(c, w.file, PayloadOffset(w.file), Head(w.file));
    assert ([BlockOf(w.file, BatchOf(w))] + before)[1..] == before;
  }

  /** What a completed flush indexes: under each key of the pending block one entry, with the
      next free chunk id, the column's labels, the flushed number of tokens and the place of the
      flushed bytes; every other key finds what it found before. */
  lemma FlushedEntry(c: Codec, w: World, i: nat, block: nat, before: seq<IndexBlock>, after: seq<IndexBlock>)
    requires Lawful(c) && Flushable(c, w) && |Flushed(c, w)| < TWO_64 && i < w.cfg.Columns()
    requires before == Chain(c, w.file, PayloadOffset(w.file), Head(w.file))
    requires ReadableFile(c, w.cfg, Flushed(c, w))
    requires after == Chain(c, Flushed(c, w), PayloadOffset(Flushed(c, w)), Head(Flushed(c, w)))
    ensures block != w.pendingBlock ==> Lookup(after, ColumnKey(w.cfg, i, block)) == Lookup(before, ColumnKey(w.cfg, i, block))
    ensures block == w.pendingBlock ==>
      && Lookup(after, ColumnKey(w.cfg, i, block)).Some?
      && EntrySays(Lookup(after, ColumnKey(w.cfg, i, block)).value, (w.nextChunkId + i) % TWO_64, w.cfg.LayerOf(i),
                   w.cfg.HeadOf(i), block, w.columns[0].tokenCount, Flushed(c, w), w.columns[i].data)
  {
    var k := ColumnKey(w.cfg, i, block);
    if block == w.pendingBlock {
      EntryId(w, i);
      NewKeyFinds(c, w, i, before, after, k, (w.nextChunkId + i) % TWO_64);
    } else {
      FlushedChain(c, w);
      FlushedIsPublished(c, w);
      OnTop(BlockOf(w.file, BatchOf(w)), before, k);
      OtherBlocksMissed(w.cfg, w.file, BatchOf(w), k);
    }
  }

  lemma EntryId(w: World, i: nat)
    requires i < |w.columns|
    ensures |BatchOf(w).entries| == |w.columns| && BatchOf(w).entries[i].chunkId == (w.nextChunkId + i) % TWO_64
  {
    WrapIsMod(w.nextChunkId, i);
  }

  lemma NewKeyFinds(c: Codec, w: World, i: nat, before: seq<IndexBlock>, after: seq<IndexBlock>, k: Key, id: nat)
    requires Lawful(c) && Flushable(c, w) && |Flushed(c, w)| < TWO_64 && i < w.cfg.Columns()
    requires before == Chain(c, w.file, PayloadOffset(w.file), Head(w.file))
    requires ReadableFile(c, w.cfg, Flushed(c, w))
    requires after == Chain(c, Flushed(c, w), PayloadOffset(Flushed(c, w)), Head(Flushed(c, w)))
    requires k == ColumnKey(w.cfg, i, w.pendingBlock) && id == BatchOf(w).entries[i].chunkId
    ensures Lookup(after, k).Some?
    ensures EntrySays(Lookup(after, k).value, id, w.cfg.LayerOf(i), w.cfg.HeadOf(i), w.pendingBlock,
                      w.columns[0].tokenCount, Flushed(c, w), w.columns[i].data)
  {
    var b := BatchOf(w);
    FlushedChain(c, w);
    FlushedIsPublished(c, w);
    OnTop(BlockOf(w.file, b), before, k);
    NewEntryFound(w.cfg, w.file, b, i);
    PlacedSays(c, w.cfg, w.file, b, i, Flushed(c, w));
    assert b.payloads[i] == w.columns[i].data;
  }

  lemma FlushedTally(c: Codec, w: World, i: nat, block: nat)
    requires Lawful(c) && Flushable(c, w) && |Flushed(c, w)| < TWO_64 && i < w.cfg.Columns()
    ensures ReadableFile(c, w.cfg, Flushed(c, w))
    ensures Tally(c, Flushed(c, w), ColumnKey(w.cfg, i, block)) ==
      if block == w.pendingBlock then Some(w.columns[0].tokenCount) else Tally(c, w.file, ColumnKey(w.cfg, i, block))
  {
    FlushedChain(c, w);
    var g := Flushed(c, w);
    FlushedEntry(c, w, i, block, Chain(c, w.file, PayloadOffset(w.file), Head(w.file)), Chain(c, g, PayloadOffset(g), Head(g)));
  }
}
