/** What every interleaving of calls and worker steps keeps, with no assumption on how
    the writer is used: files only grow, chains stay well formed, columns stay in lockstep. */
module KvChains {
  import opened Bytes
  import opened KvHeader
  import opened KvIndex
  import opened KvProtocol
  import opened KvReader

  // ---- append-only ----

  lemma ExtendsTransitive(f: seq<byte>, g: seq<byte>, h: seq<byte>)
    requires Extends(f, g) && Extends(g, h)
    ensures Extends(f, h)
  {
  }

  lemma StepExtends(c: Codec, w: World, ev: Event)
    ensures Extends(w.file, Step(c, w, ev).file) && Step(c, w, ev).cfg == w.cfg
  {
  }

  /** No run changes a byte outside header offsets 32..55. */
  lemma {:induction false} RunExtends(c: Codec, w: World, evs: seq<Event>)
    ensures Extends(w.file, Run(c, w, evs).file) && Run(c, w, evs).cfg == w.cfg
    decreases |evs|
  {
    if evs != [] {
      var k := |evs| - 1;
      RunExtends(c, w, evs[..k]);
      StepExtends(c, Run(c, w, evs[..k]), evs[k]);
    }
  }

  lemma {:induction false} SettleExtends(c: Codec, w: World)
    ensures Extends(w.file, Settle(c, w).file) && Settle(c, w).cfg == w.cfg
    ensures Epoch(Settle(c, w).file) == Epoch(w.file)
    decreases Work(w)
  {
    if !Quiet(w) {
      SettleExtends(c, WorkerStep(c, w));
      StepExtends(c, w, WorkerMoves);
    }
  }

  /** A reader opened on w's file sees the same block bytes after any run. */
  lemma {:induction false} SnapshotReads(c: Codec, r: KvcacheReader, w: World, evs: seq<Event>,
                                         layer: nat, head: nat, blockIdx: nat)
    requires HEADER_SIZE <= r.payloadOffset <= r.mappedLen <= |w.file|
    ensures |w.file| <= |Run(c, w, evs).file|
    ensures BlockBytes(r, Run(c, w, evs).file, layer, head, blockIdx) == BlockBytes(r, w.file, layer, head, blockIdx)
  {
    RunExtends(c, w, evs);
    var g, f := Run(c, w, evs).file, w.file;
    forall a, b | HEADER_SIZE <= a <= b <= |f| ensures f[a..b] == g[a..b] {}
  }

  // ---- lockstep of the columns ----

  /** All columns hold the same number of tokens of the same block. */
  ghost predicate Lockstep(w: World) {
    var n, x := w.columns[0].tokenCount, w.columns[0].existingTokens;
    && x <= n < BLOCK_TOKEN_COUNT
    && w.pendingBlock < TWO_64 && w.nextChunkId < TWO_64
    && forall i :: 0 <= i < |w.columns| ==> InStep(w.cfg, w.columns[i], i, w.pendingBlock, n, x)
  }

  ghost predicate InStep(cfg: KvCacheConfig, col: Column, i: nat, block: nat, n: nat, x: nat) {
    Tagged(cfg, col, i, block, n, x) && |col.data| == n * cfg.elementBytes
  }

  ghost predicate Tagged(cfg: KvCacheConfig, col: Column, i: nat, block: nat, n: nat, x: nat) {
    && col.layer == cfg.LayerOf(i) && col.head == cfg.HeadOf(i)
    && col.blockIdx == block && col.tokenCount == n && col.existingTokens == x
  }

  lemma BufferedLockstep(w: World, frame: seq<byte>)
    requires Lockstep(w) && |frame| == w.cfg.Stride()
    ensures var v := Buffered(w, frame); var n := w.columns[0].tokenCount + 1;
      && v.columns[0].tokenCount == n && v.columns[0].existingTokens == w.columns[0].existingTokens
      && forall i :: 0 <= i < |v.columns| ==>
           InStep(v.cfg, v.columns[i], i, v.pendingBlock, n, w.columns[0].existingTokens)
  {
    var n := w.columns[0].tokenCount;
    assert (n + 1) * w.cfg.elementBytes == n * w.cfg.elementBytes + w.cfg.elementBytes;
    var v := Buffered(w, frame);
    forall i | 0 <= i < |v.columns|
      ensures InStep(v.cfg, v.columns[i], i, v.pendingBlock, n + 1, w.columns[0].existingTokens)
    {
      assert InStep(w.cfg, w.columns[i], i, w.pendingBlock, n, w.columns[0].existingTokens);
    }
  }

  lemma AppendLockstep(w: World, frame: seq<byte>)
    requires Lockstep(w)
    ensures Lockstep(AppendFrame(w, frame))
  {
    if |frame| == w.cfg.Stride() { BufferedLockstep(w, frame); }
  }

  lemma TrimInStep(cfg: KvCacheConfig, col: Column, i: nat, block: nat, n: nat, x: nat, kept: nat)
    requires InStep(cfg, col, i, block, n, x) && kept <= n
    ensures InStep(cfg, TrimColumn(col, kept, cfg.elementBytes), i, block, kept, Min(x, kept))
  {
    MulLe(kept, n, cfg.elementBytes);
  }

  lemma TrimLockstep(w: World, kept: nat, count: nat)
    requires Lockstep(w) && kept <= w.columns[0].tokenCount
    ensures Lockstep(TrimBuffers(w, kept, count))
  {
    var v, n, x := TrimBuffers(w, kept, count), w.columns[0].tokenCount, w.columns[0].existingTokens;
    forall i | 0 <= i < |v.columns| ensures InStep(v.cfg, v.columns[i], i, v.pendingBlock, kept, Min(x, kept)) {
      TrimInStep(w.cfg, w.columns[i], i, w.pendingBlock, n, x, kept);
    }
  }

  lemma TruncateLockstep(w: World)
    requires Lockstep(w) && TruncateEnd(w).Ok?
    ensures Lockstep(TruncateEnd(w).value)
  {
    var v := TruncateEnd(w).value;
    if v.columns != w.columns {
      var kept := w.columns[0].tokenCount - (w.localCount - w.truncation.value) % TWO_32;
      assert v == TrimBuffers(w, kept, w.truncation.value);
      TrimLockstep(w, kept, w.truncation.value);
    }
  }

  lemma StepLockstep(c: Codec, w: World, ev: Event)
    requires Lockstep(w)
    ensures Lockstep(Step(c, w, ev))
  {
    if ev.Append? { AppendLockstep(w, ev.frame); }
    if ev.EndTruncate? && TruncateEnd(w).Ok? { TruncateLockstep(w); }
  }

  /** Lockstep but for the buffers' lengths: all that the chains depend on. It holds even
      after a rollback that cuts inside a block. */
  ghost predicate Tags(w: World) {
    && w.pendingBlock < TWO_64 && w.nextChunkId < TWO_64
    && w.columns[0].tokenCount < BLOCK_TOKEN_COUNT && TagsEqual(w)
  }

  ghost predicate TagsEqual(w: World) {
    var n, x := w.columns[0].tokenCount, w.columns[0].existingTokens;
    x <= n && forall i :: 0 <= i < |w.columns| ==> Tagged(w.cfg, w.columns[i], i, w.pendingBlock, n, x)
  }

  lemma LockstepTags(w: World)
    requires Lockstep(w)
    ensures Tags(w)
  {
    forall i | 0 <= i < |w.columns|
      ensures Tagged(w.cfg, w.columns[i], i, w.pendingBlock, w.columns[0].tokenCount, w.columns[0].existingTokens)
    {
      assert InStep(w.cfg, w.columns[i], i, w.pendingBlock, w.columns[0].tokenCount, w.columns[0].existingTokens);
    }
  }

  lemma BufferedTags(w: World, frame: seq<byte>)
    requires TagsEqual(w) && |frame| == w.cfg.Stride()
    ensures TagsEqual(Buffered(w, frame)) && Buffered(w, frame).columns[0].tokenCount == w.columns[0].tokenCount + 1
  {
  }

  lemma FlushTags(w: World)
    requires TagsEqual(w) && w.pendingBlock < TWO_64 && w.nextChunkId < TWO_64 && w.columns[0].tokenCount != 0
    ensures Tags(FlushBlock(w))
  {
  }

  lemma TrimTags(w: World, kept: nat, count: nat)
    requires Tags(w) && kept <= w.columns[0].tokenCount
    ensures Tags(TrimBuffers(w, kept, count))
  {
  }

  lemma StepTags(c: Codec, w: World, ev: Event)
    requires Tags(w)
    ensures Tags(Step(c, w, ev))
  {
    if ev.Append? && |ev.frame| == w.cfg.Stride() {
      BufferedTags(w, ev.frame);
      if w.columns[0].tokenCount + 1 == BLOCK_TOKEN_COUNT { FlushTags(Buffered(w, ev.frame)); }
    } else if ev.FlushPending? && w.columns[0].tokenCount != 0 {
      FlushTags(w);
    } else if ev.EndTruncate? && TruncateEnd(w).Ok? && TruncateEnd(w).value.columns != w.columns {
      var kept := w.columns[0].tokenCount - (w.localCount - w.truncation.value) % TWO_32;
      assert TruncateEnd(w).value == TrimBuffers(w, kept, w.truncation.value);
      TrimTags(w, kept, w.truncation.value);
    }
  }

  lemma {:induction false} RunTags(c: Codec, w: World, evs: seq<Event>)
    requires Tags(w)
    ensures Tags(Run(c, w, evs))
    decreases |evs|
  {
    if evs != [] {
      RunTags(c, w, evs[..|evs| - 1]);
      StepTags(c, Run(c, w, evs[..|evs| - 1]), evs[|evs| - 1]);
    }
  }

  /** Between calls all columns agree on block, token count and reloaded count, and each
      buffer holds exactly token_count elements: in every run, however scheduled. */
  lemma {:induction false} RunLockstep(c: Codec, w: World, evs: seq<Event>)
    requires Lockstep(w)
    ensures Lockstep(Run(c, w, evs))
    decreases |evs|
  {
    if evs != [] {
      RunLockstep(c, w, evs[..|evs| - 1]);
      StepLockstep(c, Run(c, w, evs[..|evs| - 1]), evs[|evs| - 1]);
    }
  }

  // ---- batches ----

  ghost predicate EntryOk(cfg: KvCacheConfig, e: ChunkIndexEntry, i: nat, block: nat, tokens: nat) {
    && e.chunkId < TWO_64 && e.layer == cfg.LayerOf(i) && e.head == cfg.HeadOf(i)
    && e.blockIdx == block && e.tokenCount == tokens
  }

  ghost predicate BatchOk(cfg: KvCacheConfig, b: FlushBatch) {
    && 1 <= b.tokenCount <= BLOCK_TOKEN_COUNT && b.existingTokens <= b.tokenCount
    && b.blockIdx < TWO_64 && b.prev < TWO_64
    && |b.entries| == |b.payloads| == cfg.Columns()
    && forall i :: 0 <= i < |b.entries| ==> EntryOk(cfg, b.entries[i], i, b.blockIdx, b.tokenCount)
  }

  lemma LabelsInRange(cfg: KvCacheConfig, i: nat)
    requires i < cfg.Columns()
    ensures cfg.LayerOf(i) < cfg.layers && cfg.HeadOf(i) < cfg.heads
    ensures cfg.Columns() < TWO_64
  {
    if cfg.LayerOf(i) >= cfg.layers { MulLe(cfg.layers, cfg.LayerOf(i), cfg.heads); }
    MulLe(cfg.layers, TWO_32, cfg.heads);
  }

  lemma BatchOfOk(w: World)
    requires 1 <= w.columns[0].tokenCount <= BLOCK_TOKEN_COUNT && w.pendingBlock < TWO_64 && TagsEqual(w)
    ensures BatchOk(w.cfg, BatchOf(w))
  {
  }

  lemma PlacedAt(b: FlushBatch, base: nat, i: nat)
    requires i < Pairs(b)
    ensures var e := Placed(b, base)[i];
      && base <= e.byteOffset && e.byteOffset + e.byteLen <= base + |Flatten(b.payloads[..Pairs(b)])|
      && Flatten(b.payloads[..Pairs(b)])[e.byteOffset - base..e.byteOffset - base + e.byteLen] == b.payloads[i]
  {
    var ps := b.payloads[..Pairs(b)];
    FlattenAt(ps, i);
    assert ps[..i] == b.payloads[..i];
  }

  lemma BlockInRange(cfg: KvCacheConfig, c: Codec, f: seq<byte>, b: FlushBatch)
    requires BatchOk(cfg, b) && |f| >= HEADER_SIZE && |AppendBatch(c, f, b)| < TWO_64
    ensures InRangeBlock(BlockOf(f, b))
    ensures EntriesInside(BlockOf(f, b).entries, |f|, |f| + |Flatten(b.payloads[..Pairs(b)])|)
  {
    var es := Placed(b, |f|);
    SomeColumn(cfg);
    LabelsInRange(cfg, 0);
    forall e | e in es
      ensures InRangeEntry(e) && |f| <= e.byteOffset && e.byteOffset + e.byteLen <= |f| + |Flatten(b.payloads[..Pairs(b)])|
    {
      var i :| 0 <= i < |es| && es[i] == e;
      PlacedAt(b, |f|, i);
      assert EntryOk(cfg, b.entries[i], i, b.blockIdx, b.tokenCount);
      LabelsInRange(cfg, i);
    }
  }

  lemma LinkAt(c: Codec, g: seq<byte>, at: nat, cbor: seq<byte>, block: IndexBlock, t: IndexTrailer)
    requires t == Trailer(TRAILER_MAGIC, |cbor|, t.prevIndexOffset) && t.prevIndexOffset < TWO_64 && |cbor| < TWO_64
    requires |cbor| <= at && at + TRAILER_SIZE <= |g| && c.dec(cbor) == Some(block)
    requires g[at - |cbor|..at] == cbor && g[at..at + TRAILER_SIZE] == EncodedTrailer(t)
    ensures ReadLink(c, g, at) == Ok(Link(block, at - |cbor|, t.prevIndexOffset))
  {
    TrailerRoundTrip(t, EncodedTrailer(t));
  }

  /** The trailer just written reads back as the block just written. */
  lemma AppendedLink(cfg: KvCacheConfig, c: Codec, f: seq<byte>, b: FlushBatch)
    requires Lawful(c) && BatchOk(cfg, b) && |f| >= HEADER_SIZE && |AppendBatch(c, f, b)| < TWO_64
    ensures ReadLink(c, AppendBatch(c, f, b), TrailerAt(c, f, b)) ==
      Ok(Link(BlockOf(f, b), |f| + |Flatten(b.payloads[..Pairs(b)])|, b.prev))
  {
    BlockInRange(cfg, c, f, b);
    var g, at, cbor := AppendBatch(c, f, b), TrailerAt(c, f, b), c.enc(BlockOf(f, b));
    var t := Trailer(TRAILER_MAGIC, |cbor|, b.prev);
    var before := f + Flatten(b.payloads[..Pairs(b)]);
    assert g == before + cbor + EncodedTrailer(t);
    LastTwoParts(before, cbor, EncodedTrailer(t));
    LinkAt(c, g, at, cbor, BlockOf(f, b), t);
  }

  // ---- chains ----

  /** The trailer offset the worker holds but has not published. */
  function Unpublished(p: Phase): Option<nat> {
    match p
    case Idle => None
    case Written(_, at) => Some(at)
    case Cleared(_, at) => Some(at)
    case Loaded(_, at, _) => Some(at)
    case Counted(at) => Some(at)
  }

  ghost predicate FileOk(cfg: KvCacheConfig, f: seq<byte>) {
    && Decode(f).Ok?
    && Decode(f).value.layers == cfg.layers && Decode(f).value.heads == cfg.heads
    && Decode(f).value.elementBytes == cfg.elementBytes
    && PayloadOffset(f) <= |f|
  }

  /** The head, every queued predecessor and the worker's own trailer are well-formed chains. */
  ghost predicate ChainsOk(c: Codec, w: World) {
    ChainsHold(c, w.cfg, w.file, w.queue, w.worker)
  }

  ghost predicate ChainsHold(c: Codec, cfg: KvCacheConfig, f: seq<byte>, queue: seq<FlushBatch>, worker: Phase) {
    && FileOk(cfg, f)
    && Linked(c, f, PayloadOffset(f), Head(f))
    && (forall j :: 0 <= j < |queue| ==> BatchOk(cfg, queue[j]) && Linked(c, f, PayloadOffset(f), queue[j].prev))
    && (Unpublished(worker).Some? ==>
          var at := Unpublished(worker).value;
          Head(f) < at < |f| && Linked(c, f, PayloadOffset(f), at))
  }

  lemma FileStaysOk(cfg: KvCacheConfig, f: seq<byte>, g: seq<byte>)
    requires FileOk(cfg, f) && Extends(f, g)
    ensures FileOk(cfg, g) && PayloadOffset(g) == PayloadOffset(f)
  {
    FixedFieldsStay(f, g);
    assert g[56..60] == f[56..60];
  }

  lemma LinkedBelow(c: Codec, f: seq<byte>, lo: nat, at: nat)
    requires Linked(c, f, lo, at) && |f| >= HEADER_SIZE
    ensures at < |f|
  {
  }

  /** The chain at the trailer just written is the new block on top of its predecessor's chain. */
  lemma AppendedChain(cfg: KvCacheConfig, c: Codec, f: seq<byte>, b: FlushBatch)
    requires Lawful(c) && FileOk(cfg, f) && BatchOk(cfg, b) && |AppendBatch(c, f, b)| < TWO_64
    requires Linked(c, f, PayloadOffset(f), b.prev)
    ensures var g, at, lo := AppendBatch(c, f, b), TrailerAt(c, f, b), PayloadOffset(f);
      && |f| <= at < |g| && Linked(c, g, lo, at)
      && Chain(c, g, lo, at) == [BlockOf(f, b)] + Chain(c, f, lo, b.prev)
  {
    AppendedLink(cfg, c, f, b);
    BlockInRange(cfg, c, f, b);
    LinkedBelow(c, f, PayloadOffset(f), b.prev);
    ChainStays(c, f, AppendBatch(c, f, b), PayloadOffset(f), b.prev);
  }

  lemma AllChainsStay(c: Codec, cfg: KvCacheConfig, f: seq<byte>, g: seq<byte>)
    requires FileOk(cfg, f) && Extends(f, g)
    ensures FileOk(cfg, g) && PayloadOffset(g) == PayloadOffset(f)
    ensures forall o: nat :: Linked(c, f, PayloadOffset(f), o) ==> Linked(c, g, PayloadOffset(f), o)
  {
    FileStaysOk(cfg, f, g);
    forall o: nat | Linked(c, f, PayloadOffset(f), o) ensures Linked(c, g, PayloadOffset(f), o) {
      ChainStays(c, f, g, PayloadOffset(f), o);
    }
  }

  lemma WriteChains(c: Codec, w: World)
    requires Lawful(c) && ChainsOk(c, w) && w.worker.Idle? && w.queue != []
    requires |AppendBatch(c, w.file, w.queue[0])| < TWO_64
    ensures ChainsHold(c, w.cfg, AppendBatch(c, w.file, w.queue[0]), w.queue[1..],
                       Written(w.queue[0], TrailerAt(c, w.file, w.queue[0])))
  {
    var g, at := AppendBatch(c, w.file, w.queue[0]), TrailerAt(c, w.file, w.queue[0]);
    assert Head(g) == Head(w.file) && Extends(w.file, g);
    AppendedChain(w.cfg, c, w.file, w.queue[0]);
    AllChainsStay(c, w.cfg, w.file, g);
    LinkedBelow(c, w.file, PayloadOffset(w.file), Head(w.file));
  }

  lemma HeaderStoreChains(c: Codec, w: World, g: seq<byte>, p: Phase)
    requires ChainsOk(c, w) && Extends(w.file, g) && |g| >= HEADER_SIZE && Head(g) == Head(w.file)
    requires Unpublished(p) == Unpublished(w.worker)
    ensures ChainsHold(c, w.cfg, g, w.queue, p)
  {
    AllChainsStay(c, w.cfg, w.file, g);
  }

  lemma PublishChains(c: Codec, w: World, g: seq<byte>)
    requires ChainsOk(c, w) && Unpublished(w.worker).Some?
    requires Extends(w.file, g) && |g| >= HEADER_SIZE && Head(g) == Unpublished(w.worker).value
    ensures ChainsHold(c, w.cfg, g, w.queue, Idle)
  {
    AllChainsStay(c, w.cfg, w.file, g);
  }

  lemma CheckChains(c: Codec, w: World)
    requires ChainsOk(c, w) && (w.worker.Written? || w.worker.Cleared? || w.worker.Loaded?)
    ensures ChainsOk(c, WorkerStep(c, w))
  {
    var v := WorkerStep(c, w);
    if v.worker.Idle? {
      assert v.file == w.file;
    } else {
      HeaderStoreChains(c, w, v.file, v.worker);
    }
  }

  lemma PublishStepChains(c: Codec, w: World)
    requires ChainsOk(c, w) && w.worker.Counted? && |w.file| < TWO_64
    ensures ChainsOk(c, WorkerStep(c, w))
  {
    SmallMod(w.worker.at);
    PublishChains(c, w, SetHead(w.file, w.worker.at));
  }

  lemma WorkerChains(c: Codec, w: World)
    requires Lawful(c) && ChainsOk(c, w) && |WorkerStep(c, w).file| < TWO_64
    ensures ChainsOk(c, WorkerStep(c, w))
  {
    if w.worker.Idle? {
      if w.queue != [] { WriteChains(c, w); }
    } else if w.worker.Counted? {
      PublishStepChains(c, w);
    } else {
      CheckChains(c, w);
    }
  }

  lemma FlushChains(c: Codec, w: World)
    requires ChainsOk(c, w) && BatchOk(w.cfg, BatchOf(w))
    ensures ChainsOk(c, FlushBlock(w))
  {
    assert BatchOf(w).prev == Head(w.file);
  }

  lemma AppendChains(c: Codec, w: World, frame: seq<byte>)
    requires ChainsOk(c, w) && Tags(w)
    ensures ChainsOk(c, AppendFrame(w, frame))
  {
    if |frame| == w.cfg.Stride() {
      BufferedTags(w, frame);
      var v := Buffered(w, frame);
      BatchOfOk(v);
      FlushChains(c, v);
    }
  }

  lemma FlushPendingChains(c: Codec, w: World)
    requires ChainsOk(c, w) && Tags(w)
    ensures ChainsOk(c, FlushBlock(w))
  {
    if w.columns[0].tokenCount != 0 {
      BatchOfOk(w);
      FlushChains(c, w);
    }
  }

  lemma TruncateFrame(c: Codec, w: World, ev: Event)
    requires ev.BeginTruncate? || ev.EndTruncate?
    ensures var v := Step(c, w, ev);
      && v.cfg == w.cfg && v.queue == w.queue && v.worker == w.worker
      && Extends(w.file, v.file) && Head(v.file) == Head(w.file)
  {
  }

  lemma KeptChains(c: Codec, w: World, v: World)
    requires ChainsOk(c, w) && v.cfg == w.cfg && v.queue == w.queue && v.worker == w.worker
    requires Extends(w.file, v.file) && Head(v.file) == Head(w.file)
    ensures ChainsOk(c, v)
  {
    HeaderStoreChains(c, w, v.file, w.worker);
  }

  lemma StepChains(c: Codec, w: World, ev: Event)
    requires Lawful(c) && ChainsOk(c, w) && Tags(w) && |Step(c, w, ev).file| < TWO_64
    ensures ChainsOk(c, Step(c, w, ev))
  {
    if ev.WorkerMoves? {
      WorkerChains(c, w);
    } else if ev.Append? {
      AppendChains(c, w, ev.frame);
    } else if ev.FlushPending? {
      FlushPendingChains(c, w);
    } else {
      TruncateFrame(c, w, ev);
      KeptChains(c, w, Step(c, w, ev));
    }
  }

  /** In every reachable state, however calls and worker steps interleave, the head is 0 or
      a valid trailer above strictly smaller valid trailers, and so is everything queued;
      so reopening at any moment finishes its walk and meets no error. */
  lemma {:induction false} RunChains(c: Codec, w: World, evs: seq<Event>)
    requires Lawful(c) && ChainsOk(c, w) && Tags(w) && |Run(c, w, evs).file| < TWO_64
    ensures ChainsOk(c, Run(c, w, evs))
    ensures var f := Run(c, w, evs).file;
      WalkEnds(c, f, Head(f)) && FullWalk(c, f, Head(f)) == Walked(Chain(c, f, PayloadOffset(f), Head(f)))
    decreases |evs|
  {
    if evs != [] {
      var k := |evs| - 1;
      var v := Run(c, w, evs[..k]);
      StepExtends(c, v, evs[k]);
      RunChains(c, w, evs[..k]);
      RunTags(c, w, evs[..k]);
      StepChains(c, v, evs[k]);
    }
    var f := Run(c, w, evs).file;
    LinkedWalks(c, f, PayloadOffset(f), Head(f), Head(f));
  }
}
