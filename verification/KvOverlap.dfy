/** Appends that outrun the worker. A flush that does not find it idle reads a head behind which
    the batches in flight are not yet; so some block never becomes reachable again. */
module KvOverlap {
  import opened Bytes
  import opened KvHeader
  import opened KvIndex
  import opened KvProtocol
  import opened KvReader
  import opened KvChains
  import opened KvTokens
  import opened KvLog
  import opened KvSession
  import opened KvReadback
  import opened KvRefinement
  import opened KvIds
  import opened KvExact

  // ---- one flush ----

  /** Whatever was in flight when a block is flushed is hidden by it: once everything has been
      drained, every other block is stored as it was before the flush. */
  lemma FlushHidesFlight(c: Codec, w: World, k: Key)
    requires Lawful(c) && ChainsOk(c, w) && Tags(w) && w.columns[0].tokenCount != 0
    requires |Flushed(c, w)| < TWO_64 && k.blockIdx != w.pendingBlock
    ensures ReadableFile(c, w.cfg, Flushed(c, w)) && Stored(c, Flushed(c, w), k) == Stored(c, w.file, k)
  {
    var s, b := Settle(c, w).file, BatchOf(w);
    FlushAfterOthers(c, w);
    BatchOfOk(w);
    SettleExtends(c, w);
    SettledChains(c, w);
    PublishedLength(c, s, b);
    PublishedHides(c, w.cfg, w.file, s, b, k);
  }

  lemma PublishedHides(c: Codec, cfg: KvCacheConfig, f: seq<byte>, s: seq<byte>, b: FlushBatch, k: Key)
    requires Lawful(c) && ReadableFile(c, cfg, f) && ReadableFile(c, cfg, s) && Extends(f, s)
    requires BatchOk(cfg, b) && b.prev == Head(f) && k.blockIdx != b.blockIdx && |AppendBatch(c, s, b)| < TWO_64
    ensures ReadableFile(c, cfg, Published(c, s, b)) && Stored(c, Published(c, s, b), k) == Stored(c, f, k)
  {
    var before, lo := Chain(c, f, PayloadOffset(f), Head(f)), PayloadOffset(f);
    FileStaysOk(cfg, f, s);
    ChainStays(c, f, s, lo, Head(f));
    PublishedChain(c, cfg, s, b);
    HitsInside(c, f, k);
    PublishedOld(c, cfg, s, b, k, before);
    PayloadStays(before, f, s, k);
  }

  lemma {:induction false} SettledChains(c: Codec, w: World)
    requires Lawful(c) && ChainsOk(c, w) && |Settle(c, w).file| < TWO_64
    ensures ChainsOk(c, Settle(c, w))
    decreases Work(w)
  {
    if !Quiet(w) {
      var v := WorkerStep(c, w);
      StepWorks(c, w);
      SettleExtends(c, v);
      WorkerChains(c, w);
      SettledChains(c, v);
    }
  }

  // ---- the lengths of all chains in play ----

  ghost function Len(c: Codec, f: seq<byte>, at: nat): nat
    requires |f| >= HEADER_SIZE && Linked(c, f, PayloadOffset(f), at)
  {
    |Chain(c, f, PayloadOffset(f), at)|
  }

  /** The entries of each block carry its own number. */
  ghost predicate Uniform(chain: seq<IndexBlock>) {
    forall j, e :: 0 <= j < |chain| && e in chain[j].entries ==> e.blockIdx == chain[j].blockIdx
  }

  ghost predicate UniformAt(c: Codec, f: seq<byte>, at: nat)
    requires |f| >= HEADER_SIZE && Linked(c, f, PayloadOffset(f), at)
  {
    Uniform(Chain(c, f, PayloadOffset(f), at))
  }

  ghost predicate PrevsLinked(c: Codec, f: seq<byte>, queue: seq<FlushBatch>)
    requires |f| >= HEADER_SIZE
  {
    forall j :: 0 <= j < |queue| ==> Linked(c, f, PayloadOffset(f), queue[j].prev)
  }

  /** How long the chain of each queued batch will be. */
  ghost function QueueLens(c: Codec, f: seq<byte>, queue: seq<FlushBatch>): (s: seq<nat>)
    requires |f| >= HEADER_SIZE && PrevsLinked(c, f, queue)
    ensures |s| == |queue|
  {
    seq(|queue|, j requires 0 <= j < |queue| => Len(c, f, queue[j].prev) + 1)
  }

  ghost function WorkerLens(c: Codec, f: seq<byte>, worker: Phase): (s: seq<nat>)
    requires |f| >= HEADER_SIZE
    requires Unpublished(worker).Some? ==> Linked(c, f, PayloadOffset(f), Unpublished(worker).value)
    ensures |s| == if worker.Idle? then 0 else 1
  {
    if Unpublished(worker).Some? then [Len(c, f, Unpublished(worker).value)] else []
  }

  /** The chain from the head, from the batch being written, and from each queued batch once
      it will be written: oldest first. */
  ghost function Lens(c: Codec, cfg: KvCacheConfig, f: seq<byte>, queue: seq<FlushBatch>, worker: Phase): (s: seq<nat>)
    requires ChainsHold(c, cfg, f, queue, worker)
    ensures |s| == 1 + |queue| + if worker.Idle? then 0 else 1
  {
    [Len(c, f, Head(f))] + WorkerLens(c, f, worker) + QueueLens(c, f, queue)
  }

  ghost predicate AllUniform(c: Codec, cfg: KvCacheConfig, f: seq<byte>, queue: seq<FlushBatch>, worker: Phase)
    requires ChainsHold(c, cfg, f, queue, worker)
  {
    && UniformAt(c, f, Head(f))
    && (Unpublished(worker).Some? ==> UniformAt(c, f, Unpublished(worker).value))
    && forall j :: 0 <= j < |queue| ==> UniformAt(c, f, queue[j].prev)
  }

  lemma AtStays(c: Codec, cfg: KvCacheConfig, f: seq<byte>, g: seq<byte>, at: nat)
    requires FileOk(cfg, f) && Extends(f, g) && |g| >= HEADER_SIZE && Linked(c, f, PayloadOffset(f), at)
    ensures FileOk(cfg, g) && PayloadOffset(g) == PayloadOffset(f) && Linked(c, g, PayloadOffset(g), at)
    ensures Len(c, g, at) == Len(c, f, at) && (UniformAt(c, g, at) <==> UniformAt(c, f, at))
  {
    FileStaysOk(cfg, f, g);
    ChainStays(c, f, g, PayloadOffset(f), at);
  }

  lemma QueueStays(c: Codec, cfg: KvCacheConfig, f: seq<byte>, g: seq<byte>, queue: seq<FlushBatch>)
    requires FileOk(cfg, f) && Extends(f, g) && |g| >= HEADER_SIZE && PrevsLinked(c, f, queue)
    ensures PrevsLinked(c, g, queue) && QueueLens(c, g, queue) == QueueLens(c, f, queue)
    ensures forall j :: 0 <= j < |queue| ==> (UniformAt(c, g, queue[j].prev) <==> UniformAt(c, f, queue[j].prev))
  {
    forall j | 0 <= j < |queue|
      ensures Linked(c, g, PayloadOffset(g), queue[j].prev) && Len(c, g, queue[j].prev) == Len(c, f, queue[j].prev)
      ensures UniformAt(c, g, queue[j].prev) <==> UniformAt(c, f, queue[j].prev)
    {
      AtStays(c, cfg, f, g, queue[j].prev);
    }
  }

  lemma LensStay(c: Codec, cfg: KvCacheConfig, f: seq<byte>, g: seq<byte>, queue: seq<FlushBatch>, worker: Phase, after: Phase)
    requires ChainsHold(c, cfg, f, queue, worker) && Extends(f, g) && |g| >= HEADER_SIZE && Head(g) == Head(f)
    requires ChainsHold(c, cfg, g, queue, after) && Unpublished(after) == Unpublished(worker)
    ensures Lens(c, cfg, g, queue, after) == Lens(c, cfg, f, queue, worker)
    ensures AllUniform(c, cfg, f, queue, worker) ==> AllUniform(c, cfg, g, queue, after)
  {
    AtStays(c, cfg, f, g, Head(f));
    if Unpublished(worker).Some? { AtStays(c, cfg, f, g, Unpublished(worker).value); }
    QueueStays(c, cfg, f, g, queue);
  }

  lemma NewBlockUniform(cfg: KvCacheConfig, f: seq<byte>, b: FlushBatch, before: seq<IndexBlock>)
    requires BatchOk(cfg, b) && Uniform(before)
    ensures Uniform([BlockOf(f, b)] + before)
  {
    var es := BlockOf(f, b).entries;
    forall e | e in es ensures e.blockIdx == b.blockIdx {
      var i :| 0 <= i < |es| && es[i] == e;
      assert EntryOk(cfg, b.entries[i], i, b.blockIdx, b.tokenCount);
    }
    var chain := [BlockOf(f, b)] + before;
    forall j, e | 0 <= j < |chain| && e in chain[j].entries ensures e.blockIdx == chain[j].blockIdx {
      if j > 0 { assert chain[j] == before[j - 1]; }
    }
  }

  lemma WrittenAt(c: Codec, cfg: KvCacheConfig, f: seq<byte>, b: FlushBatch)
    requires Lawful(c) && FileOk(cfg, f) && BatchOk(cfg, b) && |AppendBatch(c, f, b)| < TWO_64
    requires Linked(c, f, PayloadOffset(f), b.prev)
    ensures var g, at := AppendBatch(c, f, b), TrailerAt(c, f, b);
      && PayloadOffset(g) == PayloadOffset(f) && Linked(c, g, PayloadOffset(g), at)
      && Len(c, g, at) == Len(c, f, b.prev) + 1 && (UniformAt(c, f, b.prev) ==> UniformAt(c, g, at))
  {
    AppendedChain(cfg, c, f, b);
    FileStaysOk(cfg, f, AppendBatch(c, f, b));
    if UniformAt(c, f, b.prev) { NewBlockUniform(cfg, f, b, Chain(c, f, PayloadOffset(f), b.prev)); }
  }

  /** The world before the worker writes its next batch, the file after it, and what is left. */
  ghost predicate Writes(c: Codec, w: World, g: seq<byte>, rest: seq<FlushBatch>, p: Phase) {
    && ChainsOk(c, w) && w.worker.Idle? && w.queue != []
    && g == AppendBatch(c, w.file, w.queue[0]) && |g| < TWO_64 && rest == w.queue[1..]
    && p == Written(w.queue[0], TrailerAt(c, w.file, w.queue[0])) && ChainsHold(c, w.cfg, g, rest, p)
  }

  lemma WriteUniform(c: Codec, w: World, g: seq<byte>, rest: seq<FlushBatch>, p: Phase)
    requires Lawful(c) && Writes(c, w, g, rest, p) && AllUniform(c, w.cfg, w.file, w.queue, w.worker)
    ensures AllUniform(c, w.cfg, g, rest, p)
  {
    AtStays(c, w.cfg, w.file, g, Head(w.file));
    WrittenAt(c, w.cfg, w.file, w.queue[0]);
    forall j | 0 <= j < |rest| ensures UniformAt(c, g, rest[j].prev) {
      assert rest[j] == w.queue[j + 1];
      AtStays(c, w.cfg, w.file, g, rest[j].prev);
    }
  }

  lemma WriteQueueLens(c: Codec, w: World, g: seq<byte>, rest: seq<FlushBatch>, p: Phase, n: nat)
    requires Writes(c, w, g, rest, p) && n == Len(c, w.file, w.queue[0].prev) + 1
    ensures PrevsLinked(c, w.file, w.queue) && PrevsLinked(c, g, rest)
    ensures QueueLens(c, w.file, w.queue) == [n] + QueueLens(c, g, rest)
  {
    FirstLen(c, w.file, w.queue, rest);
    QueueStays(c, w.cfg, w.file, g, rest);
  }

  lemma WriteWorkerLens(c: Codec, w: World, g: seq<byte>, rest: seq<FlushBatch>, p: Phase, n: nat)
    requires Lawful(c) && Writes(c, w, g, rest, p) && n == Len(c, w.file, w.queue[0].prev) + 1
    ensures WorkerLens(c, g, p) == [n] && Len(c, g, Head(g)) == Len(c, w.file, Head(w.file))
  {
    AtStays(c, w.cfg, w.file, g, Head(w.file));
    WrittenAt(c, w.cfg, w.file, w.queue[0]);
  }

  lemma WriteLens(c: Codec, w: World, g: seq<byte>, rest: seq<FlushBatch>, p: Phase)
    requires Lawful(c) && Writes(c, w, g, rest, p)
    ensures Lens(c, w.cfg, g, rest, p) == Lens(c, w.cfg, w.file, w.queue, w.worker)
  {
    var n := Len(c, w.file, w.queue[0].prev) + 1;
    WriteQueueLens(c, w, g, rest, p, n);
    WriteWorkerLens(c, w, g, rest, p, n);
    JoinFirst(Len(c, w.file, Head(w.file)), n, QueueLens(c, g, rest));
  }

  lemma FirstLen(c: Codec, f: seq<byte>, queue: seq<FlushBatch>, rest: seq<FlushBatch>)
    requires |f| >= HEADER_SIZE && queue != [] && PrevsLinked(c, f, queue) && rest == queue[1..]
    ensures PrevsLinked(c, f, rest)
    ensures QueueLens(c, f, queue) == [Len(c, f, queue[0].prev) + 1] + QueueLens(c, f, rest)
  {
    assert forall j :: 0 <= j < |rest| ==> rest[j] == queue[j + 1];
  }

  lemma JoinFirst(h: nat, x: nat, rest: seq<nat>)
    ensures [h] + [] + ([x] + rest) == [h] + [x] + rest
  {
  }

  lemma PublishLens(c: Codec, w: World, g: seq<byte>)
    requires ChainsOk(c, w) && Unpublished(w.worker).Some?
    requires Extends(w.file, g) && |g| >= HEADER_SIZE && Head(g) == Unpublished(w.worker).value
    ensures ChainsHold(c, w.cfg, g, w.queue, Idle)
    ensures Lens(c, w.cfg, g, w.queue, Idle) == Lens(c, w.cfg, w.file, w.queue, w.worker)[1..]
    ensures AllUniform(c, w.cfg, w.file, w.queue, w.worker) ==> AllUniform(c, w.cfg, g, w.queue, Idle)
  {
    PublishChains(c, w, g);
    AtStays(c, w.cfg, w.file, g, Head(g));
    assert PrevsLinked(c, w.file, w.queue);
    QueueStays(c, w.cfg, w.file, g, w.queue);
    DropFirst(Len(c, w.file, Head(w.file)), Len(c, g, Head(g)), QueueLens(c, g, w.queue));
  }

  lemma DropFirst(h: nat, x: nat, rest: seq<nat>)
    ensures [x] + [] + rest == ([h] + [x] + rest)[1..]
  {
  }

  // ---- the invariant of a run of appends ----

  ghost predicate Current(w: World) {
    && (forall j :: 0 <= j < |w.queue| ==> w.queue[j].epoch == Epoch(w.file))
    && (w.worker.Written? ==> w.worker.batch.epoch == Epoch(w.file))
  }

  /** Of the blocks flushed so far, those not in flight are an upper bound for the chain from
      the head, and so on along the batches in flight. */
  ghost predicate Bounded(lens: seq<nat>, flushed: nat) {
    forall j :: 0 <= j < |lens| ==> lens[j] + |lens| - 1 <= flushed + j
  }

  ghost predicate TrailsHold(c: Codec, cfg: KvCacheConfig, f: seq<byte>, queue: seq<FlushBatch>, worker: Phase, n: nat) {
    && ChainsHold(c, cfg, f, queue, worker)
    && AllUniform(c, cfg, f, queue, worker) && Bounded(Lens(c, cfg, f, queue, worker), n)
  }

  /** The chain of the newest batch misses one of the blocks flushed so far. */
  ghost predicate LossyHold(c: Codec, cfg: KvCacheConfig, f: seq<byte>, queue: seq<FlushBatch>, worker: Phase, n: nat) {
    && TrailsHold(c, cfg, f, queue, worker, n)
    && var lens := Lens(c, cfg, f, queue, worker); lens[|lens| - 1] < n
  }

  ghost predicate Trails(c: Codec, w: World) {
    TrailsHold(c, w.cfg, w.file, w.queue, w.worker, w.pendingBlock) && Tags(w) && Current(w) && w.truncation.None?
  }

  ghost predicate Lossy(c: Codec, w: World) {
    LossyHold(c, w.cfg, w.file, w.queue, w.worker, w.pendingBlock)
  }

  lemma WriteTrails(c: Codec, w: World, v: World, n: nat)
    requires Lawful(c) && Trails(c, w) && w.worker.Idle? && w.queue != []
    requires v == WorkerStep(c, w) && |v.file| < TWO_64 && n == w.pendingBlock
    ensures TrailsHold(c, w.cfg, v.file, v.queue, v.worker, n)
    ensures Lossy(c, w) ==> LossyHold(c, w.cfg, v.file, v.queue, v.worker, n)
  {
    WriteChains(c, w);
    WriteLens(c, w, v.file, v.queue, v.worker);
    WriteUniform(c, w, v.file, v.queue, v.worker);
  }

  lemma PublishedHolds(c: Codec, cfg: KvCacheConfig, f: seq<byte>, g: seq<byte>, queue: seq<FlushBatch>, worker: Phase, n: nat)
    requires TrailsHold(c, cfg, f, queue, worker, n) && !worker.Idle? && ChainsHold(c, cfg, g, queue, Idle)
    requires Lens(c, cfg, g, queue, Idle) == Lens(c, cfg, f, queue, worker)[1..] && AllUniform(c, cfg, g, queue, Idle)
    ensures TrailsHold(c, cfg, g, queue, Idle, n)
    ensures LossyHold(c, cfg, f, queue, worker, n) ==> LossyHold(c, cfg, g, queue, Idle, n)
  {
  }

  lemma PublishTrails(c: Codec, w: World, v: World, n: nat)
    requires Trails(c, w) && w.worker.Counted? && |w.file| < TWO_64
    requires v == WorkerStep(c, w) && n == w.pendingBlock
    ensures TrailsHold(c, w.cfg, v.file, v.queue, v.worker, n)
    ensures Lossy(c, w) ==> LossyHold(c, w.cfg, v.file, v.queue, v.worker, n)
  {
    SmallMod(w.worker.at);
    PublishLens(c, w, v.file);
    PublishedHolds(c, w.cfg, w.file, v.file, w.queue, w.worker, n);
  }

  lemma CheckedFile(c: Codec, w: World)
    requires ChainsOk(c, w) && (w.worker.Written? || MidCount(w))
    ensures var v := WorkerStep(c, w);
      && Extends(w.file, v.file) && |v.file| >= HEADER_SIZE && Head(v.file) == Head(w.file) && v.queue == w.queue
      && (v.worker.Idle? || Unpublished(v.worker) == Unpublished(w.worker)) && ChainsHold(c, w.cfg, v.file, w.queue, v.worker)
  {
    CheckChains(c, w);
  }

  lemma TrailsStay(c: Codec, cfg: KvCacheConfig, f: seq<byte>, g: seq<byte>, queue: seq<FlushBatch>, worker: Phase, after: Phase, n: nat)
    requires TrailsHold(c, cfg, f, queue, worker, n) && Extends(f, g) && |g| >= HEADER_SIZE && Head(g) == Head(f)
    requires ChainsHold(c, cfg, g, queue, after) && Unpublished(after) == Unpublished(worker)
    ensures TrailsHold(c, cfg, g, queue, after, n)
    ensures LossyHold(c, cfg, f, queue, worker, n) ==> LossyHold(c, cfg, g, queue, after, n)
  {
    LensStay(c, cfg, f, g, queue, worker, after);
  }

  lemma CheckTrails(c: Codec, w: World, v: World, n: nat)
    requires Trails(c, w) && (w.worker.Written? || MidCount(w)) && v == WorkerStep(c, w) && n == w.pendingBlock
    ensures TrailsHold(c, w.cfg, v.file, v.queue, v.worker, n)
    ensures Lossy(c, w) ==> LossyHold(c, w.cfg, v.file, v.queue, v.worker, n)
  {
    CheckedFile(c, w);
    TrailsStay(c, w.cfg, w.file, v.file, w.queue, w.worker, v.worker, n);
  }

  lemma CurrentStays(c: Codec, w: World)
    requires Current(w)
    ensures Current(WorkerStep(c, w))
  {
  }

  lemma WorkerKeeps(c: Codec, w: World)
    requires Tags(w) && Current(w) && w.truncation.None?
    ensures var v := WorkerStep(c, w);
      && Tags(v) && Current(v) && v.truncation.None? && v.cfg == w.cfg && v.pendingBlock == w.pendingBlock
      && (!w.worker.Idle? ==> v.queue == w.queue)
  {
    StepTags(c, w, WorkerMoves);
    CurrentStays(c, w);
    StepWorks(c, w);
  }

  lemma WorkerTrails(c: Codec, w: World)
    requires Lawful(c) && Trails(c, w) && |WorkerStep(c, w).file| < TWO_64
    ensures Trails(c, WorkerStep(c, w)) && (Lossy(c, w) ==> Lossy(c, WorkerStep(c, w)))
  {
    var v, n := WorkerStep(c, w), w.pendingBlock;
    WorkerKeeps(c, w);
    if w.worker.Idle? {
      if w.queue != [] { WriteTrails(c, w, v, n); }
    } else if w.worker.Counted? {
      PublishTrails(c, w, v, n);
    } else {
      CheckTrails(c, w, v, n);
    }
  }

  lemma MoreHolds(c: Codec, cfg: KvCacheConfig, f: seq<byte>, queue: seq<FlushBatch>, worker: Phase, b: FlushBatch, more: seq<FlushBatch>)
    requires ChainsHold(c, cfg, f, queue, worker) && BatchOk(cfg, b) && b.prev == Head(f) && more == queue + [b]
    ensures ChainsHold(c, cfg, f, more, worker) && PrevsLinked(c, f, queue) && PrevsLinked(c, f, more)
    ensures QueueLens(c, f, more) == QueueLens(c, f, queue) + [Len(c, f, Head(f)) + 1]
    ensures AllUniform(c, cfg, f, queue, worker) ==> AllUniform(c, cfg, f, more, worker)
  {
    assert forall j :: 0 <= j < |queue| ==> more[j] == queue[j];
  }

  lemma MoreLens(c: Codec, cfg: KvCacheConfig, f: seq<byte>, queue: seq<FlushBatch>, worker: Phase, b: FlushBatch,
                 more: seq<FlushBatch>, h: nat)
    requires ChainsHold(c, cfg, f, queue, worker) && BatchOk(cfg, b) && b.prev == Head(f) && more == queue + [b]
    requires h == Len(c, f, Head(f))
    ensures ChainsHold(c, cfg, f, more, worker)
    ensures Lens(c, cfg, f, more, worker) == Lens(c, cfg, f, queue, worker) + [h + 1]
    ensures Lens(c, cfg, f, queue, worker)[0] == h
  {
    MoreHolds(c, cfg, f, queue, worker, b, more);
    AddLast([h] + WorkerLens(c, f, worker), QueueLens(c, f, queue), h + 1);
  }

  lemma FlushLens(c: Codec, cfg: KvCacheConfig, f: seq<byte>, queue: seq<FlushBatch>, worker: Phase, n: nat, b: FlushBatch)
    requires TrailsHold(c, cfg, f, queue, worker, n) && BatchOk(cfg, b) && b.prev == Head(f)
    ensures TrailsHold(c, cfg, f, queue + [b], worker, n + 1)
    ensures LossyHold(c, cfg, f, queue, worker, n) || queue != [] || !worker.Idle?
      ==> LossyHold(c, cfg, f, queue + [b], worker, n + 1)
  {
    var more, h := queue + [b], Len(c, f, Head(f));
    MoreHolds(c, cfg, f, queue, worker, b, more);
    MoreLens(c, cfg, f, queue, worker, b, more, h);
    BoundedMore(Lens(c, cfg, f, queue, worker), h, n);
  }

  lemma AddLast(s: seq<nat>, t: seq<nat>, x: nat)
    ensures s + (t + [x]) == s + t + [x]
  {
  }

  lemma BoundedMore(s: seq<nat>, h: nat, n: nat)
    requires Bounded(s, n) && s != [] && s[0] == h
    ensures Bounded(s + [h + 1], n + 1)
  {
  }

  lemma FlushKeeps(w: World)
    requires TagsEqual(w) && Current(w) && w.truncation.None? && w.pendingBlock + 1 < TWO_64 && w.nextChunkId < TWO_64
    requires 1 <= w.columns[0].tokenCount <= BLOCK_TOKEN_COUNT
    ensures var v := FlushBlock(w);
      && Tags(v) && Current(v) && v.truncation.None? && v.pendingBlock == w.pendingBlock + 1
      && v.cfg == w.cfg && v.file == w.file && v.worker == w.worker && v.queue == w.queue + [BatchOf(w)]
  {
    FlushTags(w);
  }

  lemma FlushTrails(c: Codec, w: World, n: nat)
    requires TrailsHold(c, w.cfg, w.file, w.queue, w.worker, n) && TagsEqual(w) && Current(w) && n == w.pendingBlock
    requires w.truncation.None? && n + 1 < TWO_64 && w.nextChunkId < TWO_64
    requires 1 <= w.columns[0].tokenCount <= BLOCK_TOKEN_COUNT
    ensures Trails(c, FlushBlock(w))
    ensures Lossy(c, w) || !Quiet(w) ==> Lossy(c, FlushBlock(w))
  {
    BatchOfOk(w);
    FlushKeeps(w);
    FlushLens(c, w.cfg, w.file, w.queue, w.worker, n, BatchOf(w));
  }

  lemma AppendTrails(c: Codec, w: World, frame: Frame)
    requires Trails(c, w) && |frame| == w.cfg.Stride() && w.pendingBlock + 1 < TWO_64
    ensures Trails(c, AppendFrame(w, frame))
    ensures Lossy(c, w) || (Completes(w, Append(frame)) && !Quiet(w)) ==> Lossy(c, AppendFrame(w, frame))
  {
    var u := Buffered(w, frame);
    BufferedTags(w, frame);
    if u.columns[0].tokenCount == BLOCK_TOKEN_COUNT { FlushTrails(c, u, u.pendingBlock); }
  }

  lemma StepTrails(c: Codec, w: World, ev: Event)
    requires Lawful(c) && Trails(c, w) && (ev.WorkerMoves? || ev.Append?)
    requires w.pendingBlock + 1 < TWO_64 && |Step(c, w, ev).file| < TWO_64
    ensures Trails(c, Step(c, w, ev))
    ensures Lossy(c, w) || (Completes(w, ev) && !Quiet(w)) ==> Lossy(c, Step(c, w, ev))
  {
    match ev
    case WorkerMoves => WorkerTrails(c, w);
    case Append(frame) => if |frame| == w.cfg.Stride() { AppendTrails(c, w, frame); }
  }

  lemma {:induction false} RunTrails(c: Codec, w: World, evs: seq<Event>)
    requires Lawful(c) && Trails(c, w) && Appending(c, w, evs)
    ensures Trails(c, Run(c, w, evs))
    ensures Lossy(c, w) || !FlushesIdle(c, w, evs) ==> Lossy(c, Run(c, w, evs))
    decreases |evs|
  {
    if evs != [] {
      var k := |evs| - 1;
      RunTrails(c, w, evs[..k]);
      RoomBoundsFile(c, Run(c, w, evs));
      StepTrails(c, Run(c, w, evs[..k]), evs[k]);
    }
  }

  lemma RoomBoundsFile(c: Codec, w: World)
    requires Room(c, w)
    ensures |w.file| < TWO_64
  {
    SettleExtends(c, FlushBlock(w));
  }

  lemma {:induction false} SettleTrails(c: Codec, w: World)
    requires Lawful(c) && Trails(c, w) && |Settle(c, w).file| < TWO_64
    ensures Trails(c, Settle(c, w)) && (Lossy(c, w) ==> Lossy(c, Settle(c, w)))
    decreases Work(w)
  {
    if !Quiet(w) {
      var v := WorkerStep(c, w);
      StepWorks(c, w);
      SettleExtends(c, v);
      WorkerTrails(c, w);
      SettleTrails(c, v);
    }
  }

  // ---- a chain that is too short misses a block ----

  function Numbers(chain: seq<IndexBlock>): set<nat> {
    if chain == [] then {} else {chain[0].blockIdx} + Numbers(chain[1..])
  }

  lemma {:induction false} FewNumbers(chain: seq<IndexBlock>)
    ensures |Numbers(chain)| <= |chain|
  {
    if chain != [] { FewNumbers(chain[1..]); }
  }

  lemma {:induction false} FoundIsNumbered(chain: seq<IndexBlock>, k: Key)
    requires Uniform(chain) && Lookup(chain, k).Some?
    ensures k.blockIdx in Numbers(chain)
  {
    if FindLast(chain[0].entries, k).None? {
      var rest := chain[1..];
      assert forall j :: 0 <= j < |rest| ==> rest[j] == chain[j + 1];
      FoundIsNumbered(rest, k);
    }
  }

  lemma {:induction false} RangeSize(n: nat, s: set<nat>)
    requires forall b :: 0 <= b < n ==> b in s
    ensures |s| >= n
  {
    if n > 0 {
      RangeSize(n - 1, s - {n - 1});
    }
  }

  lemma ShortChainMisses(cfg: KvCacheConfig, chain: seq<IndexBlock>, n: nat) returns (b: nat)
    requires Uniform(chain) && |chain| < n
    ensures b < n && Lookup(chain, ColumnKey(cfg, 0, b)).None?
  {
    if forall b: nat :: b < n ==> Lookup(chain, ColumnKey(cfg, 0, b)).Some? {
      forall b: nat | b < n ensures b in Numbers(chain) { FoundIsNumbered(chain, ColumnKey(cfg, 0, b)); }
      RangeSize(n, Numbers(chain));
      FewNumbers(chain);
    }
    b :| b < n && Lookup(chain, ColumnKey(cfg, 0, b)).None?;
  }

  lemma MissingBlockUnread(c: Codec, cfg: KvCacheConfig, f: seq<byte>, log: seq<Frame>, b: nat)
    requires ReadableFile(c, cfg, f) && BLOCK_TOKEN_COUNT * b < |log|
    requires Lookup(Chain(c, f, PayloadOffset(f), Head(f)), ColumnKey(cfg, 0, b)).None?
    ensures !ReadsLog(c, cfg, f, log)
  {
    SomeColumn(cfg);
    ReaderOpens(c, cfg, f);
    BuildMapIsLookup(Chain(c, f, PayloadOffset(f), Head(f)), ColumnKey(cfg, 0, b));
    assert BLOCK_TOKEN_COUNT * b / BLOCK_TOKEN_COUNT == b;
    if ReadsLog(c, cfg, f, log) { ReadsLogAt(c, cfg, f, log, 0, BLOCK_TOKEN_COUNT * b); }
  }

  // ---- the exact condition ----

  /** A new cache; the frames of a run are where they should be, but for what overlaps lose. */
  lemma NewTrails(c: Codec, cfg: KvCacheConfig, metadata: seq<byte>)
    requires |metadata| < TWO_32
    ensures Trails(c, Create(cfg, metadata))
  {
    CreatedIsSound(c, cfg, metadata);
    NewHead(cfg, metadata);
    var w := Create(cfg, metadata);
    assert Lens(c, cfg, w.file, [], Idle) == [0];
  }

  lemma ClosingFlush(c: Codec, v: World, u: World)
    requires Lawful(c) && Trails(c, v) && v.pendingBlock + 1 < TWO_64 && (Lossy(c, v) || !MayClose(v))
    requires u == FlushBlock(v)
    ensures Trails(c, u) && Lossy(c, u) && u.cfg == v.cfg
    ensures u.pendingBlock == v.pendingBlock + if v.columns[0].tokenCount > 0 then 1 else 0
  {
    if v.columns[0].tokenCount > 0 {
      FlushKeeps(v);
      FlushTrails(c, v, v.pendingBlock);
    }
  }

  /** Closing a run of appends: what the last flush finds decides as every other does. */
  lemma CloseTrails(c: Codec, v: World, u: World, s: World)
    requires Lawful(c) && Trails(c, v) && Room(c, v) && (Lossy(c, v) || !MayClose(v))
    requires u == FlushBlock(v) && s == Settle(c, u)
    ensures Quiet(s) && s.file == Close(c, v) && Trails(c, s) && Lossy(c, s) && s.cfg == v.cfg
    ensures s.pendingBlock == v.pendingBlock + if v.columns[0].tokenCount > 0 then 1 else 0
  {
    ClosingFlush(c, v, u);
    SettleTrails(c, u);
    SettleKeepsBuffers(c, u);
  }

  lemma LossyUnread(c: Codec, s: World, log: seq<Frame>)
    requires Trails(c, s) && Lossy(c, s) && Quiet(s) && BLOCK_TOKEN_COUNT * s.pendingBlock < |log| + BLOCK_TOKEN_COUNT
    ensures !ReadsLog(c, s.cfg, s.file, log)
  {
    var chain := Chain(c, s.file, PayloadOffset(s.file), Head(s.file));
    assert |chain| < s.pendingBlock;
    var b := ShortChainMisses(s.cfg, chain, s.pendingBlock);
    MissingBlockUnread(c, s.cfg, s.file, log, b);
  }

  lemma AppendingStep(c: Codec, w: World, v: World, ev: Event)
    requires w.truncation.None? && (ev.WorkerMoves? || ev.Append?) && w.localCount + 1 < TWO_64 && v == Step(c, w, ev)
    ensures v.truncation.None? && v.cfg == w.cfg
    ensures v.localCount == w.localCount + if ev.Append? && |ev.frame| == w.cfg.Stride() then 1 else 0
  {
    StepWorks(c, w);
  }

  lemma {:induction false} AppendingCounts(c: Codec, w: World, evs: seq<Event>)
    requires w.truncation.None? && Appending(c, w, evs) && w.localCount == 0
    ensures Run(c, w, evs).localCount == |Frames(w.cfg, evs)| && Run(c, w, evs).truncation.None? && Run(c, w, evs).cfg == w.cfg
    decreases |evs|
  {
    if evs != [] {
      var k := |evs| - 1;
      AppendingCounts(c, w, evs[..k]);
      AppendingStep(c, Run(c, w, evs[..k]), Run(c, w, evs), evs[k]);
    }
  }

  /** Frames appended to a new cache, under any schedule of the worker, read back if and only
      if every flush, the closing one included, found the worker idle. */
  lemma AppendsReadIffIdle(c: Codec, cfg: KvCacheConfig, metadata: seq<byte>, evs: seq<Event>)
    requires Lawful(c) && |metadata| < TWO_32 && Appending(c, Create(cfg, metadata), evs)
    ensures var w := Create(cfg, metadata);
      ReadsLog(c, cfg, Close(c, Run(c, w, evs)), Frames(cfg, evs))
      <==> FlushesIdle(c, w, evs) && MayClose(Run(c, w, evs))
  {
    var w := Create(cfg, metadata);
    var v := Run(c, w, evs);
    if FlushesIdle(c, w, evs) && MayClose(v) {
      PatientCacheReads(c, cfg, metadata, evs);
    } else {
      CreateFollows(c, cfg, metadata);
      NewTrails(c, cfg, metadata);
      RunTrails(c, w, evs);
      AppendingStaysInPlace(c, w, evs);
      AppendingCounts(c, w, evs);
      var s := Settle(c, FlushBlock(v));
      CloseTrails(c, v, FlushBlock(v), s);
      LossyUnread(c, s, Frames(cfg, evs));
    }
  }

  // ---- the worker never gets a turn ----

  ghost predicate OnlyFrames(cfg: KvCacheConfig, evs: seq<Event>) {
    forall i :: 0 <= i < |evs| ==> evs[i].Append? && |evs[i].frame| == cfg.Stride()
  }

  /** n frames have been appended and nothing else has happened. */
  ghost predicate Burst(w: World, n: nat) {
    && w.truncation.None? && w.worker == Idle && |w.queue| == w.pendingBlock == n / BLOCK_TOKEN_COUNT
    && w.columns[0].tokenCount == n % BLOCK_TOKEN_COUNT
  }

  lemma BurstStep(w: World, n: nat, frame: Frame)
    requires Burst(w, n) && |frame| == w.cfg.Stride() && w.pendingBlock + 1 < TWO_64
    ensures Burst(AppendFrame(w, frame), n + 1) && AppendFrame(w, frame).cfg == w.cfg
  {
    var u := Buffered(w, frame);
    assert u.columns[0].tokenCount == w.columns[0].tokenCount + 1;
    if u.columns[0].tokenCount == BLOCK_TOKEN_COUNT {
      var v := FlushBlock(u);
      assert v.columns[0].tokenCount == 0 && |v.queue| == |w.queue| + 1;
    }
  }

  lemma {:induction false} BurstState(c: Codec, w: World, evs: seq<Event>)
    requires Burst(w, 0) && OnlyFrames(w.cfg, evs) && Appending(c, w, evs)
    ensures Burst(Run(c, w, evs), |evs|) && Run(c, w, evs).cfg == w.cfg
    decreases |evs|
  {
    if evs != [] {
      var k := |evs| - 1;
      BurstState(c, w, evs[..k]);
      BurstStep(Run(c, w, evs[..k]), k, evs[k].frame);
    }
  }

  /** The n-th frame makes its flush find an older one: from the second block on. */
  predicate Overlaps(n: nat) { n >= 2 * BLOCK_TOKEN_COUNT && n % BLOCK_TOKEN_COUNT == 0 }

  lemma Divided(n: nat)
    ensures n % BLOCK_TOKEN_COUNT + 1 == BLOCK_TOKEN_COUNT <==> (n + 1) % BLOCK_TOKEN_COUNT == 0
    ensures n / BLOCK_TOKEN_COUNT == 0 <==> n < BLOCK_TOKEN_COUNT
  {
  }

  lemma BurstQuiet(w: World, n: nat, ev: Event)
    requires Burst(w, n) && ev.Append? && |ev.frame| == w.cfg.Stride()
    ensures (Completes(w, ev) ==> Quiet(w)) <==> !Overlaps(n + 1)
  {
    Divided(n);
  }

  lemma BurstMayClose(w: World, n: nat)
    requires Burst(w, n)
    ensures MayClose(w) <==> n < BLOCK_TOKEN_COUNT || n % BLOCK_TOKEN_COUNT == 0
  {
    Divided(n);
  }

  lemma {:induction false} BurstFlushes(c: Codec, w: World, evs: seq<Event>)
    requires Burst(w, 0) && OnlyFrames(w.cfg, evs) && Appending(c, w, evs)
    ensures FlushesIdle(c, w, evs) <==> |evs| < 2 * BLOCK_TOKEN_COUNT
    decreases |evs|
  {
    if evs != [] {
      var k := |evs| - 1;
      BurstFlushes(c, w, evs[..k]);
      BurstState(c, w, evs[..k]);
      BurstQuiet(Run(c, w, evs[..k]), k, evs[k]);
      FirstOverlap(k);
    }
  }

  lemma FirstOverlap(k: nat)
    ensures k < 2 * BLOCK_TOKEN_COUNT && !Overlaps(k + 1) <==> k + 1 < 2 * BLOCK_TOKEN_COUNT
  {
  }

  lemma NewBurst(cfg: KvCacheConfig, metadata: seq<byte>)
    ensures Burst(Create(cfg, metadata), 0) && Create(cfg, metadata).cfg == cfg
  {
  }

  /** The input behind the guard: frames appended before the worker gets a turn read back if
      and only if they fill no more than one block. */
  lemma BurstReadsIffOneBlock(c: Codec, cfg: KvCacheConfig, metadata: seq<byte>, evs: seq<Event>)
    requires Lawful(c) && |metadata| < TWO_32 && OnlyFrames(cfg, evs) && Appending(c, Create(cfg, metadata), evs)
    ensures ReadsLog(c, cfg, Close(c, Run(c, Create(cfg, metadata), evs)), Frames(cfg, evs)) <==> |evs| <= BLOCK_TOKEN_COUNT
  {
    NewBurst(cfg, metadata);
    AppendsReadIffIdle(c, cfg, metadata, evs);
    BurstCloses(c, Create(cfg, metadata), evs);
  }

  lemma BurstCloses(c: Codec, w: World, evs: seq<Event>)
    requires Burst(w, 0) && OnlyFrames(w.cfg, evs) && Appending(c, w, evs)
    ensures FlushesIdle(c, w, evs) && MayClose(Run(c, w, evs)) <==> |evs| <= BLOCK_TOKEN_COUNT
  {
    BurstFlushes(c, w, evs);
    BurstState(c, w, evs);
    BurstMayClose(Run(c, w, evs), |evs|);
    OneBlock(|evs|);
  }

  lemma OneBlock(n: nat)
    ensures n < 2 * BLOCK_TOKEN_COUNT && (n < BLOCK_TOKEN_COUNT || n % BLOCK_TOKEN_COUNT == 0) <==> n <= BLOCK_TOKEN_COUNT
  {
  }
}
