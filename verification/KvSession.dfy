/** Sessions refine a log of frames: any interleaving of a session's calls with its worker
    leaves a file that stands for the log. */
module KvSession {
  import opened Bytes
  import opened KvHeader
  import opened KvIndex
  import opened KvProtocol
  import opened KvReader
  import opened KvChains
  import opened KvTokens
  import opened KvLog

  // ---- quiet states ----

  /** The columns agree; a full block is allowed, as it is in the middle of append. */
  ghost predicate Even(w: World) {
    var n, x := w.columns[0].tokenCount, w.columns[0].existingTokens;
    && x <= n <= BLOCK_TOKEN_COUNT
    && w.pendingBlock < TWO_64 && w.nextChunkId < TWO_64
    && forall i :: 0 <= i < |w.columns| ==> InStep(w.cfg, w.columns[i], i, w.pendingBlock, n, x)
  }

  ghost predicate Buffers(w: World, frames: seq<Frame>)
    requires Sized(w.cfg, frames)
  {
    forall i :: 0 <= i < |w.columns| ==> w.columns[i].data == ColumnData(w.cfg, frames, i)
  }

  /** The next token goes where the reader will look for it. */
  predicate InPosition(w: World) {
    w.localCount == BLOCK_TOKEN_COUNT * w.pendingBlock + w.columns[0].tokenCount
  }

  /** The buffers continue the log, of which `valid` frames are published. */
  ghost predicate Continues(w: World, log: seq<Frame>, valid: nat)
    requires Sized(w.cfg, log)
  {
    && |log| == BLOCK_TOKEN_COUNT * w.pendingBlock + w.columns[0].tokenCount
    && valid == BLOCK_TOKEN_COUNT * w.pendingBlock + w.columns[0].existingTokens
    && Buffers(w, log[BLOCK_TOKEN_COUNT * w.pendingBlock..])
  }

  /** Everything is published; what is still buffered was reloaded and is not visible. */
  ghost predicate Sealed(w: World, log: seq<Frame>, valid: nat) {
    && valid == |log|
    && w.columns[0].tokenCount == w.columns[0].existingTokens
    && (w.columns[0].tokenCount > 0 ==> |log| <= BLOCK_TOKEN_COUNT * w.pendingBlock)
  }

  ghost predicate Mode(w: World, log: seq<Frame>, valid: nat)
    requires Sized(w.cfg, log)
  {
    Continues(w, log, valid) || Sealed(w, log, valid)
  }

  /** A quiet writer whose file and buffers together stand for the log. */
  ghost predicate Tracks(c: Codec, w: World, log: seq<Frame>) {
    && Quiet(w) && w.truncation.None? && Even(w)
    && Sized(w.cfg, log) && w.localCount == |log| && Valid(w.file) <= |log|
    && Faithful(c, w.cfg, w.file, log[..Valid(w.file)])
    && Mode(w, log, Valid(w.file))
  }

  lemma ResetIsEven(w: World)
    requires Even(w) && w.columns[0].tokenCount != 0 && w.pendingBlock + 1 < TWO_64
    ensures Even(FlushBlock(w)) && FlushBlock(w).pendingBlock == w.pendingBlock + 1
    ensures FlushBlock(w).columns[0].tokenCount == 0 && FlushBlock(w).columns[0].existingTokens == 0
  {
    var v := FlushBlock(w);
    forall i | 0 <= i < |v.columns| ensures InStep(v.cfg, v.columns[i], i, v.pendingBlock, 0, 0) {
      assert InStep(w.cfg, w.columns[i], i, w.pendingBlock, w.columns[0].tokenCount, w.columns[0].existingTokens);
    }
  }

  lemma TracksIsFlushable(c: Codec, w: World, log: seq<Frame>)
    requires Tracks(c, w, log) && w.columns[0].tokenCount != 0 && w.pendingBlock + 1 < TWO_64
    ensures Flushable(c, w)
  {
  }

  lemma BlockBelow(log: seq<Frame>, valid: nat, b: nat)
    requires valid <= |log| && (BLOCK_TOKEN_COUNT * b + BLOCK_TOKEN_COUNT <= valid || valid == |log|)
    ensures BlockFrames(log[..valid], b) == BlockFrames(log, b)
  {
    if valid == |log| {
      assert log[..valid] == log;
    } else {
      SliceOfSlice(log, 0, valid, BLOCK_TOKEN_COUNT * b, BLOCK_TOKEN_COUNT * b + BLOCK_TOKEN_COUNT);
    }
  }

  lemma FlushedBlock(c: Codec, w: World, log: seq<Frame>, valid: nat, i: nat, b: nat)
    requires Lawful(c) && Flushable(c, w) && |Flushed(c, w)| < TWO_64
    requires ReadableFile(c, w.cfg, Flushed(c, w))
    requires Sized(w.cfg, log) && valid <= |log| && Mode(w, log, valid) && Faithful(c, w.cfg, w.file, log[..valid])
    requires i < w.cfg.Columns() && BLOCK_TOKEN_COUNT * b < |log|
    ensures Stored(c, Flushed(c, w), ColumnKey(w.cfg, i, b)) == Got(ColumnData(w.cfg, BlockFrames(log, b), i))
  {
    FlushedStore(c, w, i, b);
    if b == w.pendingBlock {
      assert Continues(w, log, valid);
      LastBlock(log, b);
    } else {
      BlockBelow(log, valid, b);
    }
  }

  lemma TracksCounts(c: Codec, w: World, log: seq<Frame>)
    requires Tracks(c, w, log)
    ensures Valid(w.file) + Unflushed(w) == w.localCount == |log|
    ensures w.columns[0].tokenCount < BLOCK_TOKEN_COUNT ==> Lockstep(w)
  {
  }

  /** A completed flush publishes the whole log. */
  lemma FlushIsFaithful(c: Codec, w: World, log: seq<Frame>)
    requires Lawful(c) && Tracks(c, w, log) && w.columns[0].tokenCount != 0
    requires w.pendingBlock + 1 < TWO_64 && w.localCount < TWO_64 && |Flushed(c, w)| < TWO_64
    ensures Faithful(c, w.cfg, Flushed(c, w), log)
  {
    TracksIsFlushable(c, w, log);
    TracksCounts(c, w, log);
    FlushedChain(c, w);
    FlushedStock(c, w, Flushed(c, w), log, Valid(w.file));
  }

  lemma FlushedStock(c: Codec, w: World, g: seq<byte>, log: seq<Frame>, valid: nat)
    requires Lawful(c) && Flushable(c, w) && g == Flushed(c, w) && |g| < TWO_64 && ReadableFile(c, w.cfg, g)
    requires Sized(w.cfg, log) && valid <= |log| && Mode(w, log, valid) && Faithful(c, w.cfg, w.file, log[..valid])
    ensures Stocked(c, w.cfg, g, log)
  {
    forall i: nat, b: nat | i < w.cfg.Columns() && BLOCK_TOKEN_COUNT * b < |log|
      ensures Stored(c, g, ColumnKey(w.cfg, i, b)) == Got(ColumnData(w.cfg, BlockFrames(log, b), i))
    {
      FlushedBlock(c, w, log, valid, i, b);
    }
    FlushedTallies(c, w, g, log, valid);
  }

  lemma FlushedCount(c: Codec, w: World, log: seq<Frame>, valid: nat, i: nat, b: nat)
    requires Lawful(c) && Flushable(c, w) && |Flushed(c, w)| < TWO_64
    requires ReadableFile(c, w.cfg, Flushed(c, w))
    requires Sized(w.cfg, log) && valid <= |log| && Mode(w, log, valid) && Tallied(c, w.cfg, w.file, log[..valid])
    requires i < w.cfg.Columns() && BLOCK_TOKEN_COUNT * b < |log|
    ensures Tally(c, Flushed(c, w), ColumnKey(w.cfg, i, b)) == Some(|BlockFrames(log, b)|)
  {
    FlushedTally(c, w, i, b);
    if b == w.pendingBlock {
      assert Continues(w, log, valid);
      LastBlock(log, b);
    } else {
      BlockBelow(log, valid, b);
    }
  }

  lemma FlushedTallies(c: Codec, w: World, g: seq<byte>, log: seq<Frame>, valid: nat)
    requires Lawful(c) && Flushable(c, w) && g == Flushed(c, w) && |g| < TWO_64 && ReadableFile(c, w.cfg, g)
    requires Sized(w.cfg, log) && valid <= |log| && Mode(w, log, valid) && Tallied(c, w.cfg, w.file, log[..valid])
    ensures Tallied(c, w.cfg, g, log)
  {
    forall i: nat, b: nat | i < w.cfg.Columns() && BLOCK_TOKEN_COUNT * b < |log|
      ensures Tally(c, g, ColumnKey(w.cfg, i, b)) == Some(|BlockFrames(log, b)|)
    {
      FlushedCount(c, w, log, valid, i, b);
    }
  }

  lemma TracksFlush(c: Codec, w: World, log: seq<Frame>)
    requires Lawful(c) && Tracks(c, w, log)
    requires w.pendingBlock + 1 < TWO_64 && w.localCount < TWO_64 && |Flushed(c, w)| < TWO_64
    ensures Tracks(c, Settle(c, FlushBlock(w)), log)
    ensures w.columns[0].tokenCount != 0 ==> Valid(Flushed(c, w)) == |log|
  {
    if w.columns[0].tokenCount != 0 {
      FlushIsFaithful(c, w, log);
      ResetIsEven(w);
      SettleOne(c, w);
      assert log[..|log|] == log;
      var v := Settle(c, FlushBlock(w));
      assert Sealed(v, log, Valid(v.file));
    }
  }

  lemma BufferedData(w: World, frames: seq<Frame>, frame: Frame)
    requires Sized(w.cfg, frames) && |frame| == w.cfg.Stride() && Buffers(w, frames)
    ensures Sized(w.cfg, frames + [frame]) && Buffers(Buffered(w, frame), frames + [frame])
  {
    assert (frames + [frame])[..|frames|] == frames;
  }

  lemma BufferedIsEven(w: World, frame: Frame)
    requires Even(w) && w.columns[0].tokenCount < BLOCK_TOKEN_COUNT && |frame| == w.cfg.Stride()
    ensures Even(Buffered(w, frame))
    ensures Buffered(w, frame).columns[0].tokenCount == w.columns[0].tokenCount + 1
    ensures Buffered(w, frame).columns[0].existingTokens == w.columns[0].existingTokens
  {
    assert Lockstep(w);
    BufferedLockstep(w, frame);
  }

  /** An empty, aligned buffer continues the log too. */
  lemma InPositionContinues(w: World, log: seq<Frame>, valid: nat)
    requires Sized(w.cfg, log) && Even(w) && Mode(w, log, valid) && w.localCount == |log| && InPosition(w)
    ensures Continues(w, log, valid)
  {
    if !Continues(w, log, valid) {
      assert w.columns[0].tokenCount == 0;
      forall i | 0 <= i < |w.columns| ensures w.columns[i].data == [] {
        assert InStep(w.cfg, w.columns[i], i, w.pendingBlock, 0, 0);
      }
      assert log[BLOCK_TOKEN_COUNT * w.pendingBlock..] == [];
    }
  }

  lemma TracksBuffer(c: Codec, w: World, log: seq<Frame>, frame: Frame)
    requires Tracks(c, w, log) && InPosition(w) && |frame| == w.cfg.Stride()
    requires w.columns[0].tokenCount < BLOCK_TOKEN_COUNT && w.localCount + 1 < TWO_64
    ensures Tracks(c, Buffered(w, frame), log + [frame])
  {
    var v, start := Buffered(w, frame), BLOCK_TOKEN_COUNT * w.pendingBlock;
    InPositionContinues(w, log, Valid(w.file));
    BufferedIsEven(w, frame);
    BufferedData(w, log[start..], frame);
    assert (log + [frame])[start..] == log[start..] + [frame];
    assert (log + [frame])[..Valid(w.file)] == log[..Valid(w.file)];
  }

  // ---- position ----

  /** What takes the writer out of position: flushing a partly filled block, and rolling
      back committed tokens. */
  ghost predicate LosesPosition(w: World, ev: Event) {
    match ev
    case FlushPending => w.truncation.None? && w.columns[0].tokenCount > 0
    case EndTruncate => w.truncation.Some? && w.truncation.value <= Valid(w.file) && w.truncation.value < w.localCount
    case _ => false
  }

  /** A truncate in progress is within its range, and nothing is queued if it will trim. */
  ghost predicate TruncateInRange(w: World) {
    w.truncation.Some? ==>
      && w.truncation.value <= w.localCount
      && (w.truncation.value > Valid(w.file) ==> Valid(w.file) + Unflushed(w) == w.localCount)
  }

  /** One step keeps the position, exactly unless it is one of those two. */
  lemma PositionKeptIff(c: Codec, w: World, ev: Event)
    requires Lockstep(w) && InPosition(w) && TruncateInRange(w)
    requires w.localCount + 1 < TWO_64 && w.pendingBlock + 1 < TWO_64
    ensures InPosition(Step(c, w, ev)) <==> !LosesPosition(w, ev)
  {
    match ev
    case WorkerMoves => StepWorks(c, w);
    case Append(frame) => if w.truncation.None? { AppendKeepsPosition(w, frame); }
    case FlushPending => if w.truncation.None? { FlushPosition(w); }
    case BeginTruncate(count) =>
    case EndTruncate => if w.truncation.Some? { EndPosition(c, w); }
  }

  lemma AppendKeepsPosition(w: World, frame: seq<byte>)
    requires Lockstep(w) && InPosition(w) && w.localCount + 1 < TWO_64 && w.pendingBlock + 1 < TWO_64
    ensures InPosition(AppendFrame(w, frame))
  {
    if |frame| == w.cfg.Stride() { BufferedLockstep(w, frame); }
  }

  lemma FlushPosition(w: World)
    requires Lockstep(w) && InPosition(w) && w.pendingBlock + 1 < TWO_64
    ensures InPosition(FlushBlock(w)) <==> w.columns[0].tokenCount == 0
  {
  }

  lemma EndPosition(c: Codec, w: World)
    requires Lockstep(w) && InPosition(w) && TruncateInRange(w) && w.truncation.Some?
    ensures InPosition(Step(c, w, EndTruncate)) <==> !LosesPosition(w, EndTruncate)
  {
    if w.truncation.value > Valid(w.file) { TrimIsExact(w); }
  }

  /** Hence a run without them stays in position throughout. */
  ghost predicate StaysInPlace(c: Codec, w: World, evs: seq<Event>)
    decreases |evs|
  {
    evs == [] ||
    var k := |evs| - 1;
    var v := Run(c, w, evs[..k]);
    && StaysInPlace(c, w, evs[..k]) && !LosesPosition(v, evs[k]) && TruncateInRange(v)
    && v.localCount + 1 < TWO_64 && v.pendingBlock + 1 < TWO_64
  }

  lemma {:induction false} RunKeepsPosition(c: Codec, w: World, evs: seq<Event>)
    requires Lockstep(w) && InPosition(w) && StaysInPlace(c, w, evs)
    ensures Lockstep(Run(c, w, evs)) && InPosition(Run(c, w, evs))
    decreases |evs|
  {
    if evs != [] {
      var k := |evs| - 1;
      RunKeepsPosition(c, w, evs[..k]);
      StepLockstep(c, Run(c, w, evs[..k]), evs[k]);
      PositionKeptIff(c, Run(c, w, evs[..k]), evs[k]);
    }
  }

  // ---- schedules ----

  /** Batches the worker has not finished with. */
  function Flight(w: World): nat { |w.queue| + if w.worker.Idle? then 0 else 1 }

  /** A writer between calls, at any point of the worker's schedule. */
  ghost predicate Follows(c: Codec, w: World, log: seq<Frame>) {
    && w.truncation.None? && Lockstep(w) && EpochsOk(w)
    && Flight(w) <= 1 && (!Quiet(w) ==> w.columns[0].existingTokens == 0)
    && Tracks(c, Settle(c, w), log)
    && (!w.worker.Counted? ==> Valid(w.file) <= |log| && Faithful(c, w.cfg, w.file, log[..Valid(w.file)]))
  }

  lemma {:induction false} SettleKeepsBuffers(c: Codec, w: World)
    ensures var v := Settle(c, w); v == w.(file := v.file, queue := v.queue, worker := v.worker)
    decreases Work(w)
  {
    if !Quiet(w) { SettleKeepsBuffers(c, WorkerStep(c, w)); }
  }

  lemma StepBuffered(c: Codec, w: World, frame: Frame)
    requires |frame| == w.cfg.Stride()
    ensures WorkerStep(c, w).cfg == w.cfg && WorkerStep(c, Buffered(w, frame)) == Buffered(WorkerStep(c, w), frame)
  {
  }

  /** Buffering a frame and worker steps commute. */
  lemma {:induction false} SettleBuffered(c: Codec, w: World, frame: Frame)
    requires |frame| == w.cfg.Stride()
    ensures Settle(c, w).cfg == w.cfg
    ensures Settle(c, Buffered(w, frame)) == Buffered(Settle(c, w), frame)
    decreases Work(w)
  {
    SettleKeepsBuffers(c, w);
    if !Quiet(w) {
      StepWorks(c, w);
      StepBuffered(c, w, frame);
      SettleBuffered(c, WorkerStep(c, w), frame);
    }
  }

  lemma FollowsWorker(c: Codec, w: World, log: seq<Frame>)
    requires Follows(c, w, log) && Epoch(w.file) + 1 < TWO_64
    ensures Follows(c, WorkerStep(c, w), log)
  {
    if !Quiet(w) {
      var v := WorkerStep(c, w);
      StepLockstep(c, w, WorkerMoves);
      StepEpochs(c, w, WorkerMoves);
      StepExtends(c, w, WorkerMoves);
      if w.worker.Counted? {
        assert Quiet(v);
      } else if !v.worker.Counted? {
        FaithfulStays(c, w.cfg, w.file, v.file, log[..Valid(w.file)]);
      }
    }
  }

  /** The flush of an idle worker's writer, whatever the worker does with it later. */
  lemma FollowsFlush(c: Codec, w: World, log: seq<Frame>)
    requires Lawful(c) && Tracks(c, w, log) && EpochsOk(w) && w.columns[0].tokenCount != 0
    requires w.pendingBlock + 1 < TWO_64 && w.localCount < TWO_64 && |Flushed(c, w)| < TWO_64
    ensures Follows(c, FlushBlock(w), log)
  {
    TracksFlush(c, w, log);
    ResetIsEven(w);
  }

  lemma QuietFollows(c: Codec, w: World, log: seq<Frame>)
    requires Tracks(c, w, log) && EpochsOk(w) && w.columns[0].tokenCount < BLOCK_TOKEN_COUNT
    ensures Follows(c, w, log)
  {
  }

  lemma FollowsBuffer(c: Codec, w: World, log: seq<Frame>, frame: Frame)
    requires Follows(c, w, log) && |frame| == w.cfg.Stride() && InPosition(w)
    requires w.columns[0].tokenCount + 1 < BLOCK_TOKEN_COUNT && w.localCount + 1 < TWO_64
    ensures Follows(c, Buffered(w, frame), log + [frame])
  {
    SettleKeepsBuffers(c, w);
    TracksBuffer(c, Settle(c, w), log, frame);
    SettleBuffered(c, w, frame);
    AppendLockstep(w, frame);
    if !w.worker.Counted? { assert (log + [frame])[..Valid(w.file)] == log[..Valid(w.file)]; }
  }

  lemma FollowsAppend(c: Codec, w: World, log: seq<Frame>, frame: Frame)
    requires Lawful(c) && Follows(c, w, log) && |frame| == w.cfg.Stride() && InPosition(w)
    requires w.columns[0].tokenCount + 1 == BLOCK_TOKEN_COUNT ==> Quiet(w)
    requires w.pendingBlock + 1 < TWO_64 && w.localCount + 1 < TWO_64
    requires |Close(c, AppendFrame(w, frame))| < TWO_64
    ensures Follows(c, AppendFrame(w, frame), log + [frame])
  {
    var v := Buffered(w, frame);
    if w.columns[0].tokenCount + 1 == BLOCK_TOKEN_COUNT {
      TracksBuffer(c, w, log, frame);
      assert AppendFrame(w, frame) == FlushBlock(v);
      ResetIsEven(v);
      assert FlushBlock(FlushBlock(v)) == FlushBlock(v);
      FollowsFlush(c, v, log + [frame]);
    } else {
      FollowsBuffer(c, w, log, frame);
      assert AppendFrame(w, frame) == v;
    }
  }

  // ---- truncation ----

  lemma TrimContinues(w: World, log: seq<Frame>, valid: nat, kept: nat, count: nat)
    requires Lockstep(w) && Sized(w.cfg, log) && Continues(w, log, valid)
    requires w.columns[0].existingTokens <= kept <= w.columns[0].tokenCount
    requires count == BLOCK_TOKEN_COUNT * w.pendingBlock + kept
    ensures count <= |log| && Continues(TrimBuffers(w, kept, count), log[..count], valid)
  {
    var v, start := TrimBuffers(w, kept, count), BLOCK_TOKEN_COUNT * w.pendingBlock;
    TrimmedData(w, kept, count);
    assert log[..count][start..] == log[start..][..kept];
    forall i | 0 <= i < |v.columns| ensures v.columns[i].data == ColumnData(v.cfg, log[start..][..kept], i) {
      ColumnDataPrefix(w.cfg, log[start..], i, kept);
    }
  }

  /** What the epoch bump leaves alone. */
  ghost predicate Bumped(w: World, u: World, count: u64) {
    && u == w.(file := u.file, truncation := Some(count))
    && Extends(w.file, u.file) && Valid(u.file) == Valid(w.file) && Head(u.file) == Head(w.file)
  }

  lemma BeginBumps(w: World, count: u64)
    requires count <= w.localCount && EpochsOk(w) && Epoch(w.file) + 1 < TWO_64
    ensures Bumped(w, TruncateBegin(w, count), count) && EpochsOk(TruncateBegin(w, count))
    ensures Epoch(TruncateBegin(w, count).file) == Epoch(w.file) + 1
  {
  }

  lemma BumpedTrim(c: Codec, w: World, u: World, log: seq<Frame>, count: u64, kept: nat)
    requires Tracks(c, w, log) && Lockstep(w) && Bumped(w, u, count) && EpochsOk(u)
    requires Valid(w.file) < count <= |log| && kept == w.columns[0].tokenCount - (w.localCount - count)
    requires w.columns[0].existingTokens < kept
    ensures Follows(c, TrimBuffers(u, kept, count), log[..count])
  {
    TrimLockstep(u, kept, count);
    FaithfulStays(c, w.cfg, w.file, u.file, log[..Valid(w.file)]);
    assert log[..count][..Valid(w.file)] == log[..Valid(w.file)];
    TrimContinues(u, log, Valid(u.file), kept, count);
    QuietFollows(c, TrimBuffers(u, kept, count), log[..count]);
  }

  /** Truncating tokens that are still buffered. */
  lemma TracksTrim(c: Codec, w: World, log: seq<Frame>, count: u64)
    requires Tracks(c, w, log) && Epoch(w.file) + 1 < TWO_64 && EpochsOk(w)
    requires w.columns[0].tokenCount < BLOCK_TOKEN_COUNT
    requires Valid(w.file) < count <= |log|
    ensures TruncateEnd(TruncateBegin(w, count)).Ok?
    ensures Follows(c, TruncateEnd(TruncateBegin(w, count)).value, log[..count])
  {
    var u := TruncateBegin(w, count);
    TracksCounts(c, w, log);
    BeginBumps(w, count);
    TrimIsExact(u);
    var kept := u.columns[0].tokenCount - (u.localCount - count);
    var v := TrimBuffers(u, kept, count);
    assert TruncateEnd(u) == Ok(v);
    BumpedTrim(c, w, u, log, count, kept);
    assert Follows(c, v, log[..count]);
  }

  /** The blocks a committed rollback may cut at. */
  predicate CutsCleanly(count: nat, committed: nat) {
    count % BLOCK_TOKEN_COUNT == 0 || count == committed
  }

  lemma RollbackMode(w: World, log: seq<Frame>, valid: nat, count: nat)
    requires Sized(w.cfg, log) && Mode(w, log, valid) && Even(w) && w.columns[0].tokenCount < BLOCK_TOKEN_COUNT
    requires count <= valid <= |log| && CutsCleanly(count, valid) && Unflushed(w) == 0
    ensures Mode(w, log[..count], count)
  {
    if Continues(w, log, valid) && count == valid {
      assert log[..count] == log;
    }
  }

  lemma ShortenedFile(c: Codec, cfg: KvCacheConfig, f: seq<byte>, u: seq<byte>, g: seq<byte>, log: seq<Frame>, count: nat)
    requires |f| >= HEADER_SIZE && Valid(f) <= |log| && Faithful(c, cfg, f, log[..Valid(f)])
    requires count <= Valid(f) && CutsCleanly(count, Valid(f))
    requires Extends(f, u) && Extends(u, g) && Head(u) == Head(f) == Head(g) && Valid(g) == count
    ensures Faithful(c, cfg, g, log[..count])
  {
    ExtendsTransitive(f, u, g);
    FaithfulShortened(c, cfg, f, g, log[..Valid(f)], count);
    PrefixOfPrefix(log, Valid(f), count);
  }

  lemma BumpedRollback(c: Codec, w: World, u: World, v: World, log: seq<Frame>, count: u64)
    requires Follows(c, w, log) && !MidPublish(w) && Bumped(w, u, count) && EpochsOk(u) && Fenced(u)
    requires v == u.(truncation := None, localCount := count, file := v.file)
    requires Extends(u.file, v.file) && Valid(v.file) == count && Head(v.file) == Head(u.file) && Epoch(v.file) == Epoch(u.file)
    requires count <= Valid(w.file) && Unflushed(w) == 0 && CutsCleanly(count, Valid(w.file))
    ensures count <= |log| && Follows(c, v, log[..count])
  {
    ShortenedFile(c, w.cfg, w.file, u.file, v.file, log, count);
    if Quiet(w) { RollbackMode(w, log, Valid(w.file), count); }
    FencedFollows(c, v, log[..count]);
  }

  /** Lowering the committed count, with whatever was in flight fenced off. */
  lemma FollowsRollback(c: Codec, w: World, log: seq<Frame>, count: u64)
    requires Follows(c, w, log) && !MidPublish(w) && Epoch(w.file) + 1 < TWO_64
    requires count <= Valid(w.file) && count <= w.localCount && Unflushed(w) == 0 && CutsCleanly(count, Valid(w.file))
    ensures TruncateEnd(TruncateBegin(w, count)).Ok? && count <= |log|
    ensures Follows(c, TruncateEnd(TruncateBegin(w, count)).value, log[..count])
  {
    var u := TruncateBegin(w, count);
    BeginBumps(w, count);
    BumpFences(w, count);
    BumpedRollback(c, w, u, TruncateEnd(u).value, log, count);
  }

  /** A writer with only fenced work in flight and a faithful file follows the log. */
  lemma FencedFollows(c: Codec, v: World, log: seq<Frame>)
    requires v.truncation.None? && Lockstep(v) && EpochsOk(v) && Fenced(v) && Flight(v) <= 1
    requires !Quiet(v) ==> v.columns[0].existingTokens == 0
    requires Faithful(c, v.cfg, v.file, log) && v.localCount == |log| == Valid(v.file) && Unflushed(v) == 0
    requires Quiet(v) ==> Mode(v, log, |log|)
    ensures Follows(c, v, log)
  {
    assert log[..|log|] == log;
    FencedSettle(c, v);
    var s := Settle(c, v);
    FaithfulStays(c, v.cfg, v.file, s.file, log);
    assert Sealed(s, log, |log|) || Quiet(v);
  }
}
