/** Chunk ids rise along the chain, and chains stay well formed, over any number of sessions
    used in any way at all: idle or busy flushes, fenced-off batches, rollbacks anywhere. */
module KvIds {
  import opened Bytes
  import opened KvHeader
  import opened KvIndex
  import opened KvProtocol
  import opened KvReader
  import opened KvChains
  import opened KvLog
  import opened KvReadback
  import opened KvSession
  import opened KvTokens
  import opened KvRefinement

  ghost predicate IdsUp(es: seq<ChunkIndexEntry>) {
    forall j, k :: 0 <= j < k < |es| ==> es[j].chunkId < es[k].chunkId
  }

  /** Newest block first: its ids rise, stay below the bound, and lie above all older ids. */
  ghost predicate Rises(chain: seq<IndexBlock>, bound: nat) {
    chain == [] ||
    var es := chain[0].entries;
    es != [] && IdsUp(es) && es[|es| - 1].chunkId < bound && Rises(chain[1..], es[0].chunkId)
  }

  /** All entries from the oldest to the newest. */
  function AllEntries(chain: seq<IndexBlock>): seq<ChunkIndexEntry> {
    if chain == [] then [] else AllEntries(chain[1..]) + chain[0].entries
  }

  lemma {:induction false} RisesMeansUp(chain: seq<IndexBlock>, bound: nat)
    requires Rises(chain, bound)
    ensures IdsUp(AllEntries(chain))
    ensures forall j :: 0 <= j < |AllEntries(chain)| ==> AllEntries(chain)[j].chunkId < bound
  {
    if chain != [] {
      RisesMeansUp(chain[1..], chain[0].entries[0].chunkId);
    }
  }

  lemma RisesHigher(chain: seq<IndexBlock>, bound: nat, higher: nat)
    requires Rises(chain, bound) && bound <= higher
    ensures Rises(chain, higher)
  {
  }

  /** Reopening computes an id above all reachable ones. */
  lemma RisesToNext(chain: seq<IndexBlock>, bound: nat)
    requires Rises(chain, bound) && bound < TWO_64
    ensures Rises(chain, BuildNextId(chain))
  {
    if chain != [] {
      var es := chain[0].entries;
      RaisedAbove(BuildNextId(chain[1..]), es);
    }
  }

  lemma RaisedAbove(n: nat, es: seq<ChunkIndexEntry>)
    requires es != [] && es[|es| - 1].chunkId + 1 < TWO_64
    ensures es[|es| - 1].chunkId < RaiseNextId(n, es)
  {
  }

  // ---- the invariant ----

  ghost predicate BatchRises(c: Codec, f: seq<byte>, b: FlushBatch, next: nat)
    requires |f| >= HEADER_SIZE && Linked(c, f, PayloadOffset(f), b.prev)
  {
    && b.entries != [] && IdsUp(b.entries) && b.entries[|b.entries| - 1].chunkId < next
    && Rises(Chain(c, f, PayloadOffset(f), b.prev), b.entries[0].chunkId)
  }

  ghost predicate IdsHold(c: Codec, cfg: KvCacheConfig, f: seq<byte>, queue: seq<FlushBatch>, worker: Phase, next: nat)
    requires ChainsHold(c, cfg, f, queue, worker)
  {
    && Rises(Chain(c, f, PayloadOffset(f), Head(f)), next)
    && (Unpublished(worker).Some? ==> Rises(Chain(c, f, PayloadOffset(f), Unpublished(worker).value), next))
    && forall j :: 0 <= j < |queue| ==> BatchRises(c, f, queue[j], next)
  }

  /** Whatever is or may become reachable carries rising ids below the next one. */
  ghost predicate IdsOk(c: Codec, w: World) {
    ChainsOk(c, w) && IdsHold(c, w.cfg, w.file, w.queue, w.worker, w.nextChunkId)
  }

  lemma IdsStay(c: Codec, cfg: KvCacheConfig, f: seq<byte>, g: seq<byte>, queue: seq<FlushBatch>, worker: Phase, next: nat)
    requires ChainsHold(c, cfg, f, queue, worker) && IdsHold(c, cfg, f, queue, worker, next)
    requires Extends(f, g) && |g| >= HEADER_SIZE && Head(g) == Head(f)
    ensures ChainsHold(c, cfg, g, queue, worker) && IdsHold(c, cfg, g, queue, worker, next)
  {
    AllChainsStay(c, cfg, f, g);
    var lo := PayloadOffset(f);
    ChainStays(c, f, g, lo, Head(f));
    if Unpublished(worker).Some? { ChainStays(c, f, g, lo, Unpublished(worker).value); }
    forall j | 0 <= j < |queue| ensures BatchRises(c, g, queue[j], next) {
      ChainStays(c, f, g, lo, queue[j].prev);
    }
  }

  lemma PlacedRises(b: FlushBatch, base: nat, cfg: KvCacheConfig)
    requires BatchOk(cfg, b) && IdsUp(b.entries)
    ensures |Placed(b, base)| == |b.entries| && IdsUp(Placed(b, base))
    ensures forall i :: 0 <= i < |b.entries| ==> Placed(b, base)[i].chunkId == b.entries[i].chunkId
  {
  }

  lemma NewChainRises(c: Codec, cfg: KvCacheConfig, f: seq<byte>, b: FlushBatch, next: nat)
    requires Lawful(c) && FileOk(cfg, f) && BatchOk(cfg, b) && |AppendBatch(c, f, b)| < TWO_64
    requires Linked(c, f, PayloadOffset(f), b.prev) && BatchRises(c, f, b, next)
    ensures var g, at := AppendBatch(c, f, b), TrailerAt(c, f, b);
      Linked(c, g, PayloadOffset(f), at) && Rises(Chain(c, g, PayloadOffset(f), at), next)
  {
    AppendedChain(cfg, c, f, b);
    PlacedRises(b, |f|, cfg);
    var before := Chain(c, f, PayloadOffset(f), b.prev);
    var chain := [BlockOf(f, b)] + before;
    assert chain[1..] == before && chain[0] == BlockOf(f, b);
    assert Rises(chain, next);
  }

  lemma WriteIds(c: Codec, w: World)
    requires Lawful(c) && IdsOk(c, w) && w.worker.Idle? && w.queue != []
    requires |AppendBatch(c, w.file, w.queue[0])| < TWO_64
    ensures ChainsHold(c, w.cfg, AppendBatch(c, w.file, w.queue[0]), w.queue[1..],
                       Written(w.queue[0], TrailerAt(c, w.file, w.queue[0])))
    ensures IdsHold(c, w.cfg, AppendBatch(c, w.file, w.queue[0]), w.queue[1..],
                    Written(w.queue[0], TrailerAt(c, w.file, w.queue[0])), w.nextChunkId)
  {
    var b, g, lo := w.queue[0], AppendBatch(c, w.file, w.queue[0]), PayloadOffset(w.file);
    WriteChains(c, w);
    assert Extends(w.file, g) && Head(g) == Head(w.file);
    IdsStay(c, w.cfg, w.file, g, w.queue, Idle, w.nextChunkId);
    FileStaysOk(w.cfg, w.file, g);
    assert BatchRises(c, w.file, b, w.nextChunkId);
    NewChainRises(c, w.cfg, w.file, b, w.nextChunkId);
    forall j | 0 <= j < |w.queue| - 1 ensures BatchRises(c, g, w.queue[1..][j], w.nextChunkId) {
      assert w.queue[1..][j] == w.queue[j + 1];
    }
  }

  lemma PublishIds(c: Codec, w: World, g: seq<byte>)
    requires IdsOk(c, w) && Unpublished(w.worker).Some?
    requires Extends(w.file, g) && |g| >= HEADER_SIZE && Head(g) == Unpublished(w.worker).value
    ensures ChainsHold(c, w.cfg, g, w.queue, Idle) && IdsHold(c, w.cfg, g, w.queue, Idle, w.nextChunkId)
  {
    PublishChains(c, w, g);
    var f, lo := w.file, PayloadOffset(w.file);
    FileStaysOk(w.cfg, f, g);
    ChainStays(c, f, g, lo, Head(g));
    forall j | 0 <= j < |w.queue| ensures BatchRises(c, g, w.queue[j], w.nextChunkId) {
      ChainStays(c, f, g, lo, w.queue[j].prev);
    }
  }

  lemma CheckIds(c: Codec, w: World)
    requires IdsOk(c, w) && (w.worker.Written? || w.worker.Cleared? || w.worker.Loaded?)
    ensures IdsOk(c, WorkerStep(c, w))
  {
    var v := WorkerStep(c, w);
    CheckChains(c, w);
    IdsStay(c, w.cfg, w.file, v.file, w.queue, w.worker, w.nextChunkId);
  }

  lemma PublishStepIds(c: Codec, w: World)
    requires IdsOk(c, w) && w.worker.Counted? && |w.file| < TWO_64
    ensures IdsOk(c, WorkerStep(c, w))
  {
    SmallMod(w.worker.at);
    PublishIds(c, w, SetHead(w.file, w.worker.at));
  }

  lemma WorkerIds(c: Codec, w: World)
    requires Lawful(c) && IdsOk(c, w) && |WorkerStep(c, w).file| < TWO_64
    ensures IdsOk(c, WorkerStep(c, w))
  {
    if w.worker.Idle? {
      if w.queue != [] { WriteIds(c, w); }
    } else if w.worker.Counted? {
      PublishStepIds(c, w);
    } else {
      CheckIds(c, w);
    }
  }

  lemma BatchOfRises(w: World)
    requires w.nextChunkId + |w.columns| < TWO_64
    ensures var es := BatchOf(w).entries;
      IdsUp(es) && es != [] && es[0].chunkId == w.nextChunkId && es[|es| - 1].chunkId < w.nextChunkId + |w.columns|
  {
    assert forall i :: 0 <= i < |w.columns| ==> BatchOf(w).entries[i].chunkId == w.nextChunkId + i;
  }

  lemma FlushIds(c: Codec, w: World)
    requires IdsOk(c, w) && TagsEqual(w) && w.pendingBlock < TWO_64
    requires w.columns[0].tokenCount <= BLOCK_TOKEN_COUNT && w.nextChunkId + |w.columns| < TWO_64
    ensures IdsOk(c, FlushBlock(w))
  {
    if w.columns[0].tokenCount != 0 {
      BatchOfOk(w);
      FlushChains(c, w);
      SmallMod(w.nextChunkId + |w.columns|);
      QueueRises(c, w, w.nextChunkId + |w.columns|);
    }
  }

  lemma NewBatchRises(c: Codec, w: World, next: nat)
    requires IdsOk(c, w) && next == w.nextChunkId + |w.columns| < TWO_64
    ensures Linked(c, w.file, PayloadOffset(w.file), BatchOf(w).prev) && BatchRises(c, w.file, BatchOf(w), next)
  {
    BatchOfRises(w);
  }

  lemma QueueRises(c: Codec, w: World, next: nat)
    requires IdsOk(c, w) && next == w.nextChunkId + |w.columns| < TWO_64 && ChainsOk(c, FlushBlock(w))
    requires w.columns[0].tokenCount != 0
    ensures IdsHold(c, w.cfg, w.file, w.queue + [BatchOf(w)], w.worker, next)
  {
    NewBatchRises(c, w, next);
    RisesHigher(Chain(c, w.file, PayloadOffset(w.file), Head(w.file)), w.nextChunkId, next);
    if Unpublished(w.worker).Some? {
      RisesHigher(Chain(c, w.file, PayloadOffset(w.file), Unpublished(w.worker).value), w.nextChunkId, next);
    }
  }

  lemma TruncateIds(c: Codec, w: World, ev: Event)
    requires IdsOk(c, w) && (ev.BeginTruncate? || ev.EndTruncate?)
    ensures IdsOk(c, Step(c, w, ev))
  {
    var v := Step(c, w, ev);
    TruncateFrame(c, w, ev);
    assert v.nextChunkId == w.nextChunkId;
    IdsStay(c, w.cfg, w.file, v.file, w.queue, w.worker, w.nextChunkId);
  }

  lemma AppendIds(c: Codec, w: World, frame: seq<byte>)
    requires IdsOk(c, w) && Tags(w) && w.nextChunkId + |w.columns| < TWO_64
    ensures IdsOk(c, AppendFrame(w, frame))
  {
    if |frame| == w.cfg.Stride() {
      BufferedTags(w, frame);
      FlushIds(c, Buffered(w, frame));
    }
  }

  lemma StepIds(c: Codec, w: World, ev: Event)
    requires Lawful(c) && IdsOk(c, w) && Tags(w) && |Step(c, w, ev).file| < TWO_64
    requires w.nextChunkId + |w.columns| < TWO_64
    ensures IdsOk(c, Step(c, w, ev))
  {
    if ev.WorkerMoves? {
      WorkerIds(c, w);
    } else if ev.Append? {
      AppendIds(c, w, ev.frame);
    } else if ev.FlushPending? {
      FlushIds(c, w);
    } else {
      TruncateIds(c, w, ev);
    }
  }

  /** Offsets and ids do not run out. */
  ghost predicate IdRoom(c: Codec, w: World, evs: seq<Event>)
    decreases |evs|
  {
    && |Run(c, w, evs).file| < TWO_64
    && Run(c, w, evs).nextChunkId + |Run(c, w, evs).columns| < TWO_64
    && (evs != [] ==> IdRoom(c, w, evs[..|evs| - 1]))
  }

  lemma {:induction false} RunIds(c: Codec, w: World, evs: seq<Event>)
    requires Lawful(c) && IdsOk(c, w) && Tags(w) && IdRoom(c, w, evs)
    ensures IdsOk(c, Run(c, w, evs)) && Tags(Run(c, w, evs))
    decreases |evs|
  {
    if evs != [] {
      var k := |evs| - 1;
      RunIds(c, w, evs[..k]);
      StepIds(c, Run(c, w, evs[..k]), evs[k]);
      StepTags(c, Run(c, w, evs[..k]), evs[k]);
    }
  }

  lemma {:induction false} SettleIds(c: Codec, w: World)
    requires Lawful(c) && IdsOk(c, w) && |Settle(c, w).file| < TWO_64
    ensures IdsOk(c, Settle(c, w)) && Settle(c, w).nextChunkId == w.nextChunkId
    decreases Work(w)
  {
    if !Quiet(w) {
      var v := WorkerStep(c, w);
      StepWorks(c, w);
      SettleExtends(c, v);
      WorkerIds(c, w);
      SettleIds(c, v);
      assert Settle(c, w) == Settle(c, v) && IdsOk(c, Settle(c, v));
    }
  }

  // ---- across sessions ----

  /** A readable file whose reachable chunk ids strictly increase from oldest to newest. */
  ghost predicate RisingFile(c: Codec, cfg: KvCacheConfig, f: seq<byte>) {
    ReadableFile(c, cfg, f) && Rises(Chain(c, f, PayloadOffset(f), Head(f)), TWO_64 - 1)
  }

  /** Every column holds the n reloaded tokens of its block. */
  ghost predicate AllReloaded(cfg: KvCacheConfig, cols: seq<Column>, pending: nat, n: nat) {
    forall i :: 0 <= i < |cols| ==> Tagged(cfg, cols[i], i, pending, n, n)
  }

  lemma OneMoreReloaded(cfg: KvCacheConfig, cols: seq<Column>, col: Column, pending: nat, n: nat)
    requires AllReloaded(cfg, cols, pending, n) && Tagged(cfg, col, |cols|, pending, n, n)
    ensures AllReloaded(cfg, cols + [col], pending, n)
  {
    var all := cols + [col];
    forall i | 0 <= i < |all| ensures Tagged(cfg, all[i], i, pending, n, n) {
      assert all[i] == if i < |cols| then cols[i] else col;
    }
  }

  lemma ReloadTag(r: KvcacheReader, f: seq<byte>, cfg: KvCacheConfig, i: nat, n: nat, last: nat, pending: nat)
    requires r.payloadOffset <= r.mappedLen <= |f|
    ensures var res := ReloadedColumn(r, f, cfg, i, n, last, pending);
      res.Ok? ==> Tagged(cfg, res.value, i, pending, n, n)
  {
  }

  lemma {:induction false} ReloadTags(r: KvcacheReader, f: seq<byte>, cfg: KvCacheConfig, m: nat,
                                      n: nat, last: nat, pending: nat)
    requires r.payloadOffset <= r.mappedLen <= |f|
    ensures var res := ReloadColumns(r, f, cfg, m, n, last, pending);
      res.Ok? ==> AllReloaded(cfg, res.value, pending, n)
  {
    if m > 0 && ReloadColumns(r, f, cfg, m, n, last, pending).Ok? {
      ReloadTags(r, f, cfg, m - 1, n, last, pending);
      ReloadTag(r, f, cfg, m - 1, n, last, pending);
      OneMoreReloaded(cfg, ReloadColumns(r, f, cfg, m - 1, n, last, pending).value,
                      ReloadedColumn(r, f, cfg, m - 1, n, last, pending).value, pending, n);
    }
  }

  lemma OpenFromShape(r: KvcacheReader, f: seq<byte>, cfg: KvCacheConfig)
    requires |f| >= HEADER_SIZE && r.payloadOffset <= r.mappedLen <= |f|
    ensures OpenFrom(r, f, cfg).Ok? ==>
      var w := OpenFrom(r, f, cfg).value;
      && w == World(cfg, f, w.columns, Valid(f), r.nextChunkId, Valid(f) / BLOCK_TOKEN_COUNT, [], Idle, None)
      && TagsEqual(w) && w.columns[0].tokenCount == w.columns[0].existingTokens == Valid(f) % BLOCK_TOKEN_COUNT
  {
    var committed := Valid(f);
    var n, last, pending := committed % BLOCK_TOKEN_COUNT, LastBlockOf(committed), PendingBlockAfter(committed);
    PendingIsQuotient(committed);
    ReloadTags(r, f, cfg, cfg.Columns(), n, last, pending);
    SomeColumn(cfg);
    var res := ReloadColumns(r, f, cfg, cfg.Columns(), n, last, pending);
    if res.Ok? { ReloadedShape(cfg, res.value, pending, n); }
  }

  lemma ReloadedShape(cfg: KvCacheConfig, cols: seq<Column>, pending: nat, n: nat)
    requires |cols| == cfg.Columns() > 0 && AllReloaded(cfg, cols, pending, n)
    ensures cols[0].tokenCount == cols[0].existingTokens == n
  {
    assert Tagged(cfg, cols[0], 0, pending, n, n);
  }

  /** What opening any readable file gives, when it succeeds. */
  lemma OpenShape(c: Codec, cfg: KvCacheConfig, f: seq<byte>)
    requires ReadableFile(c, cfg, f)
    ensures Resume(c, f).Ok? ==>
      var w := Resume(c, f).value;
      && w == World(cfg, f, w.columns, Valid(f), BuildNextId(Chain(c, f, PayloadOffset(f), Head(f))),
                    Valid(f) / BLOCK_TOKEN_COUNT, [], Idle, None)
      && TagsEqual(w) && w.columns[0].tokenCount == w.columns[0].existingTokens == Valid(f) % BLOCK_TOKEN_COUNT
  {
    ReaderOpens(c, cfg, f);
    if Resume(c, f).Ok? {
      var r := Open(c, f).value;
      var same: KvCacheConfig := Config(r.header.layers, r.header.heads, r.header.elementBytes);
      assert same == cfg;
      assert Resume(c, f) == OpenFrom(r, f, cfg);
      OpenFromShape(r, f, cfg);
    }
  }

  lemma OpenIds(c: Codec, cfg: KvCacheConfig, f: seq<byte>)
    requires RisingFile(c, cfg, f) && |f| < TWO_64
    ensures Resume(c, f).Ok? ==>
      var w := Resume(c, f).value; w.cfg == cfg && w.file == f && IdsOk(c, w) && Tags(w)
  {
    OpenShape(c, cfg, f);
    var chain := Chain(c, f, PayloadOffset(f), Head(f));
    RisesToNext(chain, TWO_64 - 1);
    NextIdFits(chain);
    if Resume(c, f).Ok? {
      var w := Resume(c, f).value;
      assert ChainsHold(c, cfg, f, [], Idle);
      assert IdsHold(c, cfg, f, [], Idle, w.nextChunkId);
    }
  }

  ghost predicate SessionsRoom(c: Codec, f: seq<byte>, ss: seq<seq<Event>>) {
    && |AfterSessions(c, f, ss)| < TWO_64
    && (ss != [] ==>
          var k := |ss| - 1;
          && SessionsRoom(c, f, ss[..k])
          && var start := Resume(c, AfterSessions(c, f, ss[..k]));
             start.Ok? ==> IdRoom(c, start.value, ss[k]))
  }

  /** No guard on how sessions are used: after any number of them, each under any schedule,
      the file is readable, the walk from its head ends without error, and the chunk ids it
      reaches strictly increase from the oldest entry to the newest. */
  lemma {:induction false} SessionsKeepChains(c: Codec, cfg: KvCacheConfig, f: seq<byte>, ss: seq<seq<Event>>)
    requires Lawful(c) && RisingFile(c, cfg, f) && SessionsRoom(c, f, ss)
    ensures var g := AfterSessions(c, f, ss);
      && RisingFile(c, cfg, g) && WalkEnds(c, g, Head(g))
      && FullWalk(c, g, Head(g)) == Walked(Chain(c, g, PayloadOffset(g), Head(g)))
      && IdsUp(AllEntries(Chain(c, g, PayloadOffset(g), Head(g))))
  {
    var g := AfterSessions(c, f, ss);
    if ss != [] {
      var k := |ss| - 1;
      var before := AfterSessions(c, f, ss[..k]);
      SessionsKeepChains(c, cfg, f, ss[..k]);
      OpenIds(c, cfg, before);
      if Resume(c, before).Ok? {
        var w := Resume(c, before).value;
        RunIds(c, w, ss[k]);
        RunExtends(c, w, ss[k]);
        CloseIds(c, Run(c, w, ss[k]));
      }
    }
    LinkedWalks(c, g, PayloadOffset(g), Head(g), Head(g));
    RisesMeansUp(Chain(c, g, PayloadOffset(g), Head(g)), TWO_64 - 1);
  }

  lemma CloseIds(c: Codec, w: World)
    requires Lawful(c) && IdsOk(c, w) && Tags(w) && |Close(c, w)| < TWO_64 && w.nextChunkId + |w.columns| < TWO_64
    ensures RisingFile(c, w.cfg, Close(c, w))
  {
    FlushIds(c, w);
    SettleIds(c, FlushBlock(w));
    SettleExtends(c, FlushBlock(w));
    var v := Settle(c, FlushBlock(w));
    assert v.nextChunkId <= TWO_64 - 1;
    RisesHigher(Chain(c, v.file, PayloadOffset(v.file), Head(v.file)), v.nextChunkId, TWO_64 - 1);
  }

  // ---- where runs start ----

  /** Everything the run invariants start from. */
  ghost predicate Sound(c: Codec, w: World) {
    && IdsOk(c, w) && Tags(w) && Lockstep(w) && InPosition(w)
    && EpochsOk(w) && Accounted(w) && PromisedMeansReset(w)
  }

  lemma QuietSound(c: Codec, w: World)
    requires Quiet(w) && w.truncation.None? && Lockstep(w) && InPosition(w) && ReadableFile(c, w.cfg, w.file)
    requires Valid(w.file) + Unflushed(w) == w.localCount
    requires Rises(Chain(c, w.file, PayloadOffset(w.file), Head(w.file)), w.nextChunkId)
    ensures Sound(c, w)
  {
    LockstepTags(w);
    assert ChainsHold(c, w.cfg, w.file, [], Idle);
  }

  /** A new cache starts sound. */
  lemma CreatedIsSound(c: Codec, cfg: KvCacheConfig, metadata: seq<byte>)
    requires |metadata| < TWO_32
    ensures Sound(c, Create(cfg, metadata)) && RisingFile(c, cfg, Create(cfg, metadata).file)
  {
    var w := Create(cfg, metadata);
    CreateFollows(c, cfg, metadata);
    TracksCounts(c, w, []);
    assert Head(w.file) == 0 by { NewHead(cfg, metadata); }
    QuietSound(c, w);
  }

  /** So does every reopening of a file that stands for a log and has rising ids. */
  lemma ReopenedIsSound(c: Codec, cfg: KvCacheConfig, f: seq<byte>, log: seq<Frame>)
    requires Faithful(c, cfg, f, log) && RisingFile(c, cfg, f) && |f| < TWO_64
    ensures Resume(c, f).Ok? && Sound(c, Resume(c, f).value)
  {
    OpenFollows(c, cfg, f, log);
    OpenIds(c, cfg, f);
    var v := Resume(c, f).value;
    TracksCounts(c, v, log);
    QuietSound(c, v);
  }

  lemma NewHead(cfg: KvCacheConfig, metadata: seq<byte>)
    requires |metadata| < TWO_32
    ensures Head(Create(cfg, metadata).file) == 0
  {
    assert |metadata| % TWO_32 == |metadata|;
    var h := NewHeader(cfg, |metadata|);
    DecodeEncoded(h, metadata);
  }
}
