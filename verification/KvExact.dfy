/** The guards are exact: each of them is proved to be necessary as well as sufficient for
    what it buys. Here: flushing while others are in flight, rolling back and reopening, and
    reading in the middle of a publish. */
module KvExact {
  import opened Bytes
  import opened KvHeader
  import opened KvIndex
  import opened KvProtocol
  import opened KvReader
  import opened KvChains
  import opened KvTokens
  import opened KvLog
  import opened KvSession
  import opened KvReadback
  import opened KvRefinement
  import opened KvIds
  import opened KvPosition

  // ---- a flush and what is in flight ----

  /** The trailers reachable from an offset, newest first. */
  ghost function Trailers(c: Codec, f: seq<byte>, lo: nat, at: nat): seq<nat>
    requires Linked(c, f, lo, at)
    decreases at
  {
    if at == 0 then [] else [at] + Trailers(c, f, lo, ReadLink(c, f, at).value.prev)
  }

  lemma {:induction false} TrailersStay(c: Codec, f: seq<byte>, g: seq<byte>, lo: nat, at: nat)
    requires Extends(f, g) && Linked(c, f, lo, at)
    ensures Linked(c, g, lo, at) && Trailers(c, g, lo, at) == Trailers(c, f, lo, at)
    decreases at
  {
    if at != 0 {
      LinkStays(c, f, g, at);
      TrailersStay(c, f, g, lo, ReadLink(c, f, at).value.prev);
    }
    ChainStays(c, f, g, lo, at);
  }

  /** Publishing never moves the head back, and moves it forward for anything not fenced. */
  lemma {:induction false} HeadRises(c: Codec, w: World)
    requires Lawful(c) && ChainsOk(c, w) && EpochsOk(w) && |Settle(c, w).file| < TWO_64
    ensures ChainsOk(c, Settle(c, w))
    ensures Head(Settle(c, w).file) >= Head(w.file)
    ensures Fenced(w) <==> Head(Settle(c, w).file) == Head(w.file)
    decreases Work(w)
  {
    if Quiet(w) {
      assert Fenced(w);
    } else {
      var v := WorkerStep(c, w);
      StepWorks(c, w);
      SettleBounds(c, w, v);
      WorkerChains(c, w);
      WorkerEpochs(c, w);
      HeadRises(c, v);
      OneStepRises(c, w);
    }
  }

  lemma SettleBounds(c: Codec, w: World, v: World)
    requires !Quiet(w) && v == WorkerStep(c, w)
    ensures Settle(c, w) == Settle(c, v) && |w.file| <= |v.file| <= |Settle(c, w).file|
  {
    StepExtends(c, w, WorkerMoves);
    SettleExtends(c, v);
  }

  lemma ConsForall(q: seq<FlushBatch>, epoch: nat)
    requires q != []
    ensures (forall j :: 0 <= j < |q| ==> q[j].epoch != epoch)
      <==> q[0].epoch != epoch && forall j :: 0 <= j < |q[1..]| ==> q[1..][j].epoch != epoch
  {
    assert q == [q[0]] + q[1..];
  }

  lemma OneStepRises(c: Codec, w: World)
    requires ChainsOk(c, w) && !Quiet(w) && |w.file| < TWO_64
    ensures var v := WorkerStep(c, w);
      if w.worker.Counted? then Head(v.file) > Head(w.file) && !Fenced(w)
      else Head(v.file) == Head(w.file) && (Fenced(w) <==> Fenced(v))
  {
    if w.worker.Counted? {
      SmallMod(w.worker.at);
    } else if w.worker.Idle? {
      ConsForall(w.queue, Epoch(w.file));
    }
  }

  function Enqueued(w: World, b: FlushBatch): World { w.(queue := w.queue + [b]) }

  /** A batch enqueued behind others is handled after them. */
  lemma {:induction false} SettleInOrder(c: Codec, w: World, b: FlushBatch)
    ensures Settle(c, Enqueued(w, b)) == Settle(c, Enqueued(Settle(c, w), b))
    decreases Work(w)
  {
    if !Quiet(w) {
      var v := WorkerStep(c, w);
      StepWorks(c, w);
      if w.worker.Idle? {
        assert (w.queue + [b])[1..] == w.queue[1..] + [b];
      }
      assert WorkerStep(c, Enqueued(w, b)) == Enqueued(v, b);
      SettleInOrder(c, v, b);
    }
  }

  lemma SettleBatch(c: Codec, w: World, b: FlushBatch)
    requires Quiet(w) && b.epoch == Epoch(w.file)
    ensures Settle(c, Enqueued(w, b)) == w.(file := Published(c, w.file, b))
  {
    var g, at := AppendBatch(c, w.file, b), TrailerAt(c, w.file, b);
    var v0 := Enqueued(w, b);
    var v1 := w.(file := g, worker := Written(b, at));
    assert WorkerStep(c, v0) == v1;
    var v2 := v1.(worker := Cleared(b, at));
    assert WorkerStep(c, v1) == v2;
    var v3 := v2.(worker := Loaded(b, at, Valid(g)));
    assert WorkerStep(c, v2) == v3;
    var v4 := WorkerStep(c, v3);
    var v5 := WorkerStep(c, v4);
    assert Settle(c, v0) == Settle(c, v1) == Settle(c, v2) == Settle(c, v3) == Settle(c, v4) == Settle(c, v5) == v5;
  }

  /** A flush drained after everything before it, starting from the settled file. */
  lemma FlushAfterOthers(c: Codec, w: World)
    requires w.columns[0].tokenCount != 0
    ensures Flushed(c, w) == Published(c, Settle(c, w).file, BatchOf(w))
  {
    var b, v := BatchOf(w), FlushBlock(w).(queue := w.queue);
    assert FlushBlock(w) == Enqueued(v, b);
    SettleInOrder(c, v, b);
    SettleIgnoresBuffers(c, w, v);
    SettleExtends(c, w);
    SettleBatch(c, Settle(c, v), b);
  }

  lemma {:induction false} SettleIgnoresBuffers(c: Codec, w: World, v: World)
    requires v.cfg == w.cfg && v.file == w.file && v.queue == w.queue && v.worker == w.worker
    ensures Settle(c, v).file == Settle(c, w).file
    decreases Work(w)
  {
    if !Quiet(w) {
      StepWorks(c, w);
      SettleIgnoresBuffers(c, WorkerStep(c, w), WorkerStep(c, v));
    }
  }

  /** The index stays complete, exactly: once the worker has caught up, the flushed block's
      trailer sits on top of every trailer that was otherwise going to be reachable, if and
      only if nothing of the current epoch was in flight when flush read the head. */
  lemma FlushKeepsIndexIffIdle(c: Codec, w: World)
    requires Lawful(c) && ChainsOk(c, w) && Tags(w) && EpochsOk(w)
    requires w.columns[0].tokenCount != 0 && |Flushed(c, w)| < TWO_64
    ensures var s, g, lo := Settle(c, w).file, Flushed(c, w), PayloadOffset(w.file);
      && Linked(c, s, lo, Head(s)) && Linked(c, g, lo, Head(g))
      && (Trailers(c, g, lo, Head(g)) == [Head(g)] + Trailers(c, s, lo, Head(s)) <==> Fenced(w))
  {
    var s, g, b, lo := Settle(c, w).file, Flushed(c, w), BatchOf(w), PayloadOffset(w.file);
    FlushAfterOthers(c, w);
    BatchOfOk(w);
    SettleExtends(c, w);
    AllChainsStay(c, w.cfg, w.file, s);
    PublishedLength(c, s, b);
    HeadRises(c, w);
    OneMoreTrailer(c, w.cfg, s, b);
    var before := Trailers(c, s, lo, Head(s));
    var kept := Trailers(c, s, lo, b.prev);
    assert before != [] ==> before[0] == Head(s);
    assert kept != [] ==> kept[0] == b.prev;
    assert ([Head(g)] + kept)[1..] == kept && ([Head(g)] + before)[1..] == before;
  }

  lemma PublishedLength(c: Codec, f: seq<byte>, b: FlushBatch)
    requires |f| >= HEADER_SIZE
    ensures |Published(c, f, b)| == |AppendBatch(c, f, b)|
  {
  }

  lemma OneMoreTrailer(c: Codec, cfg: KvCacheConfig, f: seq<byte>, b: FlushBatch)
    requires Lawful(c) && ReadableFile(c, cfg, f) && BatchOk(cfg, b) && |AppendBatch(c, f, b)| < TWO_64
    requires Linked(c, f, PayloadOffset(f), b.prev)
    ensures var g, lo := Published(c, f, b), PayloadOffset(f);
      && Head(g) != 0 && Linked(c, g, lo, Head(g))
      && Trailers(c, g, lo, Head(g)) == [Head(g)] + Trailers(c, f, lo, b.prev)
  {
    var g0, g, lo := AppendBatch(c, f, b), Published(c, f, b), PayloadOffset(f);
    AppendedChain(cfg, c, f, b);
    AppendedLink(cfg, c, f, b);
    PublishedWords(c, f, b);
    TrailersStay(c, f, g, lo, b.prev);
    TrailersStay(c, g0, g, lo, TrailerAt(c, f, b));
    LinkStays(c, g0, g, TrailerAt(c, f, b));
  }

  // ---- appending after a committed rollback ----

  lemma RepublishedBlock(c: Codec, e: World, log: seq<Frame>, i: nat, b: nat)
    requires Lawful(c) && Flushable(c, e) && |Flushed(c, e)| < TWO_64 && ReadableFile(c, e.cfg, Flushed(c, e))
    requires Stocked(c, e.cfg, e.file, log) && |log| == BLOCK_TOKEN_COUNT * e.pendingBlock + e.columns[0].tokenCount
    requires Buffers(e, log[BLOCK_TOKEN_COUNT * e.pendingBlock..])
    requires i < e.cfg.Columns() && BLOCK_TOKEN_COUNT * b < |log|
    ensures Stored(c, Flushed(c, e), ColumnKey(e.cfg, i, b)) == Got(ColumnData(e.cfg, BlockFrames(log, b), i))
    ensures Tally(c, Flushed(c, e), ColumnKey(e.cfg, i, b)) == Some(|BlockFrames(log, b)|)
  {
    LastBlock(log, e.pendingBlock);
    FlushedStore(c, e, i, b);
    FlushedTally(c, e, i, b);
  }

  lemma RepublishedStock(c: Codec, e: World, g: seq<byte>, log: seq<Frame>)
    requires Lawful(c) && Flushable(c, e) && g == Flushed(c, e) && |g| < TWO_64 && ReadableFile(c, e.cfg, g)
    requires Stocked(c, e.cfg, e.file, log) && |log| == BLOCK_TOKEN_COUNT * e.pendingBlock + e.columns[0].tokenCount
    requires Buffers(e, log[BLOCK_TOKEN_COUNT * e.pendingBlock..])
    ensures Stocked(c, e.cfg, g, log)
  {
    forall i: nat, b: nat | i < e.cfg.Columns() && BLOCK_TOKEN_COUNT * b < |log|
      ensures Stored(c, g, ColumnKey(e.cfg, i, b)) == Got(ColumnData(e.cfg, BlockFrames(log, b), i))
      ensures Tally(c, g, ColumnKey(e.cfg, i, b)) == Some(|BlockFrames(log, b)|)
    {
      RepublishedBlock(c, e, log, i, b);
    }
  }

  /** Re-publishing the reloaded partial block stores the same bytes again. */
  lemma RepublishStocks(c: Codec, e: World, log: seq<Frame>)
    requires Lawful(c) && Quiet(e) && Even(e) && e.pendingBlock + 1 < TWO_64 && |Close(c, e)| < TWO_64
    requires Stocked(c, e.cfg, e.file, log) && Unflushed(e) == 0
    requires |log| == BLOCK_TOKEN_COUNT * e.pendingBlock + e.columns[0].tokenCount
    requires Buffers(e, log[BLOCK_TOKEN_COUNT * e.pendingBlock..])
    ensures Stocked(c, e.cfg, Close(c, e), log) && Valid(Close(c, e)) == Valid(e.file) && Epoch(Close(c, e)) == Epoch(e.file)
  {
    if e.columns[0].tokenCount != 0 {
      EvenFlushable(c, e);
      FlushedChain(c, e);
      RepublishedStock(c, e, Flushed(c, e), log);
    }
  }

  /** An append of the frame that starts or continues a block, and a close, flush once. */
  lemma AppendThenClose(c: Codec, w: World, frame: Frame)
    requires |frame| == w.cfg.Stride()
    ensures Close(c, AppendFrame(w, frame)) == Flushed(c, Buffered(w, frame))
  {
    var u := Buffered(w, frame);
    assert AppendFrame(w, frame) == u || AppendFrame(w, frame) == FlushBlock(u);
    assert FlushBlock(FlushBlock(u)) == FlushBlock(u);
  }

  lemma BufferedFlushable(c: Codec, w: World, frame: Frame)
    requires Quiet(w) && TagsEqual(w) && ReadableFile(c, w.cfg, w.file)
    requires 0 < w.columns[0].tokenCount < BLOCK_TOKEN_COUNT && w.columns[0].tokenCount == w.columns[0].existingTokens
    requires |frame| == w.cfg.Stride() && w.pendingBlock + 1 < TWO_64
    ensures var u := Buffered(w, frame);
      && Flushable(c, u) && Unflushed(u) == 1 && u.columns[0].tokenCount > 0
      && u.file == w.file && u.cfg == w.cfg && u.pendingBlock == w.pendingBlock
  {
    BufferedTags(w, frame);
  }

  /** One append into a partly filled block, then close: the block as it was, one cell longer. */
  lemma AppendIntoBlock(c: Codec, w: World, frame: Frame, i: nat, g: seq<byte>)
    requires Lawful(c) && Quiet(w) && TagsEqual(w) && ReadableFile(c, w.cfg, w.file)
    requires 0 < w.columns[0].tokenCount < BLOCK_TOKEN_COUNT && w.columns[0].tokenCount == w.columns[0].existingTokens
    requires |frame| == w.cfg.Stride() && i < w.cfg.Columns() && w.pendingBlock + 1 < TWO_64
    requires g == Close(c, AppendFrame(w, frame)) && |g| < TWO_64
    ensures ReadableFile(c, w.cfg, g) && Valid(g) == SatAdd(Valid(w.file), 1)
    ensures Stored(c, g, ColumnKey(w.cfg, i, w.pendingBlock)) == Got(w.columns[i].data + Cell(w.cfg, frame, i))
  {
    var u := Buffered(w, frame);
    AppendThenClose(c, w, frame);
    BufferedFlushable(c, w, frame);
    FlushedChain(c, u);
    FlushedStore(c, u, i, w.pendingBlock);
  }

  /** Opening at a count inside a block, appending one frame and closing: the block becomes
      all it held before, then the new frame. */
  lemma ReopenInsideBlock(c: Codec, cfg: KvCacheConfig, f: seq<byte>, datas: seq<seq<byte>>, frame: Frame, i: nat, g: seq<byte>)
    requires Lawful(c) && ReadableFile(c, cfg, f) && LastBlockIs(c, cfg, f, datas) && |f| < TWO_64
    requires Valid(f) % BLOCK_TOKEN_COUNT != 0 && i < cfg.Columns()
    requires |frame| == cfg.Stride() && g == AfterSession(c, f, [Append(frame)]) && |g| < TWO_64
    ensures ReadableFile(c, cfg, g) && Valid(g) == SatAdd(Valid(f), 1)
    ensures Stored(c, g, ColumnKey(cfg, i, Valid(f) / BLOCK_TOKEN_COUNT)) == Got(datas[i] + Cell(cfg, frame, i))
  {
    OpenFinds(c, cfg, f, datas);
    var w := Resume(c, f).value;
    OneAppend(c, f, w, frame);
    AppendIntoBlock(c, w, frame, i, g);
  }

  /** The bytes with which each column of block q is reloaded. */
  function BlockData(cfg: KvCacheConfig, log: seq<Frame>, q: nat): seq<seq<byte>>
    requires Sized(cfg, log) && BLOCK_TOKEN_COUNT * q <= |log|
  {
    seq(cfg.Columns(), j requires 0 <= j < cfg.Columns() => ColumnData(cfg, BlockFrames(log, q), j))
  }

  lemma StockedLastBlock(c: Codec, cfg: KvCacheConfig, f: seq<byte>, log: seq<Frame>, q: nat)
    requires Stocked(c, cfg, f, log) && Valid(f) < |log| && Valid(f) % BLOCK_TOKEN_COUNT != 0 && q == Valid(f) / BLOCK_TOKEN_COUNT
    ensures LastBlockIs(c, cfg, f, BlockData(cfg, log, q))
  {
  }

  lemma OtherFrame(cfg: KvCacheConfig, frame: Frame) returns (other: Frame)
    requires |frame| == cfg.Stride()
    ensures |other| == cfg.Stride() && cfg.Columns() >= 1 && Cell(cfg, other, 0) != Cell(cfg, frame, 0)
  {
    SomeColumn(cfg);
    MulLe(1, cfg.Columns(), cfg.elementBytes);
    var b: byte := if frame[0] == 0 then 1 else 0;
    other := frame[0 := b];
    assert Cell(cfg, other, 0)[0] == b && Cell(cfg, frame, 0)[0] == frame[0];
  }

  lemma OneAppend(c: Codec, f: seq<byte>, w: World, frame: Frame)
    requires Resume(c, f) == Ok(w) && w.truncation.None?
    ensures AfterSession(c, f, [Append(frame)]) == Close(c, AppendFrame(w, frame))
  {
    assert Run(c, w, [Append(frame)][..0]) == w;
    assert Run(c, w, [Append(frame)]) == AppendFrame(w, frame);
  }

  /** A token is read from its old place in a block that has only become longer. */
  lemma ReadsInLongerBlock(c: Codec, cfg: KvCacheConfig, g: seq<byte>, log: seq<Frame>, more: seq<byte>, t: nat)
    requires ReadableFile(c, cfg, g) && |g| < TWO_64 && t < Valid(g) && t < |log| && Sized(cfg, log) && cfg.Columns() >= 1
    requires Stored(c, g, ColumnKey(cfg, 0, t / BLOCK_TOKEN_COUNT))
      == Got(ColumnData(cfg, BlockFrames(log, t / BLOCK_TOKEN_COUNT), 0) + more)
    ensures WalkEnds(c, g, Decode(g).value.indexHeadOffset) && Open(c, g).Ok?
    ensures TokenBytes(Open(c, g).value, g, cfg.LayerOf(0), cfg.HeadOf(0), t) == Got(Cell(cfg, log[t], 0))
  {
    var frames, skip := BlockFrames(log, t / BLOCK_TOKEN_COUNT), InnerOffset(cfg, t);
    FrameInBlock(log, t);
    ColumnDataAt(cfg, frames, 0, t % BLOCK_TOKEN_COUNT);
    SliceOfFirst(ColumnData(cfg, frames, 0), more, skip, skip + cfg.elementBytes);
    TokenInBlock(c, cfg, g, cfg.LayerOf(0), cfg.HeadOf(0), t, skip);
  }

  /** The token after the cut reads as the one that was cut away. */
  lemma ReadsOldToken(c: Codec, cfg: KvCacheConfig, f: seq<byte>, log: seq<Frame>, frame: Frame, g: seq<byte>)
    requires Lawful(c) && Stocked(c, cfg, f, log) && |f| < TWO_64 && Valid(f) < |log| && Valid(f) % BLOCK_TOKEN_COUNT != 0
    requires Valid(f) + 1 < TWO_64 && |frame| == cfg.Stride() && g == AfterSession(c, f, [Append(frame)]) && |g| < TWO_64
    ensures cfg.Columns() >= 1
    ensures ReadableFile(c, cfg, g) && WalkEnds(c, g, Decode(g).value.indexHeadOffset) && Open(c, g).Ok?
    ensures TokenBytes(Open(c, g).value, g, cfg.LayerOf(0), cfg.HeadOf(0), Valid(f)) == Got(Cell(cfg, log[Valid(f)], 0))
  {
    SomeColumn(cfg);
    var q := Valid(f) / BLOCK_TOKEN_COUNT;
    StockedLastBlock(c, cfg, f, log, q);
    ReopenInsideBlock(c, cfg, f, BlockData(cfg, log, q), frame, 0, g);
    ReadsInLongerBlock(c, cfg, g, log, Cell(cfg, frame, 0), Valid(f));
  }

  /** A cut inside a block leaves old tokens in the way of the next frame. */
  lemma CutInsideBlock(c: Codec, cfg: KvCacheConfig, f: seq<byte>, log: seq<Frame>) returns (frame: Frame)
    requires Lawful(c) && Stocked(c, cfg, f, log) && |f| < TWO_64 && Valid(f) < |log| && Valid(f) % BLOCK_TOKEN_COUNT != 0
    requires Valid(f) + 1 < TWO_64
    requires forall x: Frame :: |x| == cfg.Stride() ==> |AfterSession(c, f, [Append(x)])| < TWO_64
    ensures |frame| == cfg.Stride()
    ensures !ReadsLog(c, cfg, AfterSession(c, f, [Append(frame)]), log[..Valid(f)] + [frame])
  {
    var count := Valid(f);
    frame := OtherFrame(cfg, log[count]);
    var g, expected := AfterSession(c, f, [Append(frame)]), log[..count] + [frame];
    ReadsOldToken(c, cfg, f, log, frame, g);
    assert expected[count] == frame && |expected| == count + 1;
    assert Got(Cell(cfg, log[count], 0)) != Got(Cell(cfg, expected[count], 0));
    if ReadsLog(c, cfg, g, expected) { ReadsLogAt(c, cfg, g, expected, 0, count); }
  }

  /** After a clean cut, appending one frame and closing reads back. */
  lemma CleanCutReads(c: Codec, cfg: KvCacheConfig, f: seq<byte>, log: seq<Frame>, frame: Frame)
    requires Lawful(c) && Faithful(c, cfg, f, log) && |f| < TWO_64 && |frame| == cfg.Stride()
    requires |log| + 2 < TWO_64 && Epoch(f) + 1 < TWO_64 && |AfterSession(c, f, [Append(frame)])| < TWO_64
    ensures ReadsLog(c, cfg, AfterSession(c, f, [Append(frame)]), log + [frame])
  {
    OpenFollows(c, cfg, f, log);
    var w := Resume(c, f).value;
    OneAppend(c, f, w, frame);
    TracksCounts(c, w, log);
    AppendCloses(c, w, log, frame);
    ReadsBack(c, cfg, AfterSession(c, f, [Append(frame)]), log + [frame]);
  }

  lemma FollowingReads(c: Codec, v: World, log: seq<Frame>)
    requires Lawful(c) && Follows(c, v, log) && v.localCount + 2 < TWO_64 && v.pendingBlock + 1 < TWO_64
    requires Epoch(v.file) + 1 < TWO_64 && |Close(c, v)| < TWO_64 && MayClose(v)
    requires forall x: Frame :: |x| == v.cfg.Stride() ==> |AfterSession(c, Close(c, v), [Append(x)])| < TWO_64
    ensures forall x: Frame :: |x| == v.cfg.Stride() ==>
      ReadsLog(c, v.cfg, AfterSession(c, Close(c, v), [Append(x)]), log + [x])
  {
    SettleKeepsBuffers(c, v);
    TracksCounts(c, Settle(c, v), log);
    CloseIsFaithful(c, v, log);
    SettleExtends(c, FlushBlock(v));
    forall x: Frame | |x| == v.cfg.Stride()
      ensures ReadsLog(c, v.cfg, AfterSession(c, Close(c, v), [Append(x)]), log + [x])
    {
      CleanCutReads(c, v.cfg, Close(c, v), log, x);
    }
  }

  /** The file left by a committed rollback and a close. */
  function RolledBack(c: Codec, w: World, count: u64): seq<byte> {
    Close(c, Step(c, TruncateBegin(w, count), EndTruncate))
  }

  lemma RollbackStocks(c: Codec, w: World, u: World, v: World, log: seq<Frame>, count: u64)
    requires Lawful(c) && Tracks(c, w, log) && Lockstep(w) && InPosition(w) && Unflushed(w) == 0 && Bumped(w, u, count)
    requires v == u.(truncation := None, localCount := count, file := v.file)
    requires Extends(u.file, v.file) && Valid(v.file) == count && Head(v.file) == Head(u.file)
    requires w.pendingBlock + 1 < TWO_64 && |Close(c, v)| < TWO_64
    ensures Stocked(c, w.cfg, Close(c, v), log) && Valid(Close(c, v)) == count
  {
    InPositionContinues(w, log, Valid(w.file));
    assert log[..Valid(w.file)] == log;
    ExtendsTransitive(w.file, u.file, v.file);
    StockStays(c, w.cfg, w.file, v.file, log);
    RepublishStocks(c, v, log);
  }

  /** Roll back committed tokens, close, reopen, append one frame, close: every such frame
      reads back behind the kept prefix if and only if the cut was on a block boundary or
      removed nothing. */
  lemma RollbackReadsIffClean(c: Codec, w: World, log: seq<Frame>, count: u64)
    requires Lawful(c) && Follows(c, w, log) && Quiet(w) && InPosition(w) && Unflushed(w) == 0
    requires count <= Valid(w.file) && w.localCount + 2 < TWO_64 && Epoch(w.file) + 2 < TWO_64
    requires |RolledBack(c, w, count)| < TWO_64
    requires forall x: Frame :: |x| == w.cfg.Stride() ==> |AfterSession(c, RolledBack(c, w, count), [Append(x)])| < TWO_64
    ensures count <= |log|
    ensures (forall x: Frame :: |x| == w.cfg.Stride() ==>
               ReadsLog(c, w.cfg, AfterSession(c, RolledBack(c, w, count), [Append(x)]), log[..count] + [x]))
      <==> CutsCleanly(count, Valid(w.file))
  {
    var f := RolledBack(c, w, count);
    var u := TruncateBegin(w, count);
    var v := u.(truncation := None, localCount := count, file := SetValid(u.file, count));
    TracksCounts(c, w, log);
    BeginBumps(w, count);
    RolledState(c, w, u, v, count);
    if CutsCleanly(count, Valid(w.file)) {
      CleanRollbackReads(c, w, v, log, count);
    } else {
      RollbackStocks(c, w, u, v, log, count);
      var x := CutInsideBlock(c, w.cfg, f, log);
    }
  }

  lemma RolledState(c: Codec, w: World, u: World, v: World, count: u64)
    requires u == TruncateBegin(w, count) && count <= w.localCount && Valid(u.file) == Valid(w.file) && count <= Valid(w.file)
    requires v == u.(truncation := None, localCount := count, file := SetValid(u.file, count))
    ensures TruncateEnd(u) == Ok(v) && RolledBack(c, w, count) == Close(c, v)
  {
  }

  lemma CleanRollbackReads(c: Codec, w: World, v: World, log: seq<Frame>, count: u64)
    requires Lawful(c) && Follows(c, w, log) && Quiet(w) && InPosition(w) && Unflushed(w) == 0
    requires count <= Valid(w.file) && w.localCount + 2 < TWO_64 && Epoch(w.file) + 2 < TWO_64
    requires count <= w.localCount && Ok(v) == TruncateEnd(TruncateBegin(w, count)) && CutsCleanly(count, Valid(w.file))
    requires |Close(c, v)| < TWO_64
    requires forall x: Frame :: |x| == w.cfg.Stride() ==> |AfterSession(c, Close(c, v), [Append(x)])| < TWO_64
    ensures count <= |log|
    ensures forall x: Frame :: |x| == w.cfg.Stride() ==>
      ReadsLog(c, w.cfg, AfterSession(c, Close(c, v), [Append(x)]), log[..count] + [x])
  {
    TracksCounts(c, w, log);
    BeginBumps(w, count);
    FollowsRollback(c, w, log, count);
    assert v.cfg == w.cfg && v.localCount == count && v.pendingBlock == w.pendingBlock <= w.localCount && Quiet(v);
    FollowingReads(c, v, log[..count]);
  }

  // ---- reading between the worker's two stores ----

  /** Four steps take an idle worker with one current batch to where the count is stored and
      the head is not. */
  lemma FourSteps(c: Codec, w: World, b: FlushBatch)
    requires w.queue == [b] && w.worker.Idle? && b.epoch == Epoch(w.file)
    ensures var v, g := WorkerSteps(c, w, 4), AppendBatch(c, w.file, b);
      && v == w.(queue := [], worker := Counted(TrailerAt(c, w.file, b)),
                 file := SetValid(g, SatAdd(Valid(w.file), Adds(b))))
      && Extends(w.file, v.file) && Valid(v.file) == SatAdd(Valid(w.file), Adds(b)) && Head(v.file) == Head(w.file)
  {
    var g, at := AppendBatch(c, w.file, b), TrailerAt(c, w.file, b);
    var v1 := w.(queue := [], file := g, worker := Written(b, at));
    assert WorkerStep(c, w) == v1;
    var v2 := v1.(worker := Cleared(b, at));
    assert WorkerStep(c, v1) == v2;
    var v3 := v2.(worker := Loaded(b, at, Valid(g)));
    assert WorkerStep(c, v2) == v3;
    var v4 := WorkerStep(c, v3);
    assert WorkerSteps(c, w, 4) == WorkerSteps(c, v1, 3) == WorkerSteps(c, v2, 2);
    assert WorkerSteps(c, v2, 2) == WorkerSteps(c, v3, 1) == WorkerSteps(c, v4, 0) == v4;
    ExtendsTransitive(w.file, g, v4.file);
  }

  /** That moment is a real exception: a reader opened then counts the first frame of a new
      cache and does not find it. */
  lemma CountRunsAhead(c: Codec, cfg: KvCacheConfig, metadata: seq<byte>, frame: Frame)
    requires |metadata| < TWO_32 && |frame| == cfg.Stride()
    ensures var v := WorkerSteps(c, FlushBlock(AppendFrame(Create(cfg, metadata), frame)), 4);
      && v.worker.Counted? && Valid(v.file) == 1
      && Decode(v.file).Ok? && WalkEnds(c, v.file, Decode(v.file).value.indexHeadOffset) && Open(c, v.file).Ok?
      && TokenBytes(Open(c, v.file).value, v.file, 0, 0, 0) == Missing
  {
    var w := Create(cfg, metadata);
    CreateFollows(c, cfg, metadata);
    NewHead(cfg, metadata);
    var u := Buffered(w, frame);
    BufferedIsEven(w, frame);
    assert AppendFrame(w, frame) == u;
    var v0 := FlushBlock(u);
    FourSteps(c, v0, BatchOf(u));
    var f := WorkerSteps(c, v0, 4).file;
    FileStaysOk(cfg, w.file, f);
    assert Linked(c, f, PayloadOffset(f), Head(f));
    ReaderOpens(c, cfg, f);
  }
}
