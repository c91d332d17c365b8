/** The main results: files refine logs of frames, over any number of sessions, under any
    schedule of the worker; and a reader finds exactly the frames of the log. */
module KvRefinement {
  import opened Bytes
  import opened KvHeader
  import opened KvIndex
  import opened KvProtocol
  import KvReader
  import opened KvReadback
  import opened KvChains
  import opened KvTokens
  import opened KvLog
  import opened KvSession

  // ---- the specification ----

  /** The abstract cache: append adds a frame, truncate keeps a prefix. */
  function LogStep(cfg: KvCacheConfig, log: seq<Frame>, ev: Event): seq<Frame> {
    match ev
    case Append(frame) => if |frame| == cfg.Stride() then log + [frame] else log
    case BeginTruncate(count) => if count <= |log| then log[..count] else log
    case _ => log
  }

  function LogAfter(cfg: KvCacheConfig, log: seq<Frame>, evs: seq<Event>): seq<Frame> {
    if evs == [] then log else LogStep(cfg, LogAfter(cfg, log, evs[..|evs| - 1]), evs[|evs| - 1])
  }

  // ---- how a session must be used ----

  /** The guards, on the state in which a call is made. Worker steps are never restricted.
      A truncate is one call, so nothing but worker steps separates its halves. */
  ghost predicate Allowed(w: World, ev: Event) {
    if w.truncation.Some? then ev.WorkerMoves? || ev.EndTruncate?
    else match ev
      case WorkerMoves => true
      case EndTruncate => true
      case Append(frame) =>
        |frame| == w.cfg.Stride() ==>
          InPosition(w) && (w.columns[0].tokenCount + 1 == BLOCK_TOKEN_COUNT ==> Quiet(w))
      case FlushPending => w.columns[0].tokenCount > 0 ==> Quiet(w)
      case BeginTruncate(count) =>
        count <= w.localCount ==>
          if count > Valid(w.file) then Quiet(w)
          else !MidPublish(w) && Unflushed(w) == 0 && CutsCleanly(count, Valid(w.file))
  }

  /** Counters and offsets stay below 2^64. */
  ghost predicate Room(c: Codec, w: World) {
    && w.localCount + 1 < TWO_64 && w.pendingBlock + 1 < TWO_64
    && Epoch(w.file) + 1 < TWO_64 && |Close(c, w)| < TWO_64
  }

  ghost predicate WellUsed(c: Codec, w: World, evs: seq<Event>)
    decreases |evs|
  {
    && Room(c, Run(c, w, evs))
    && (evs != [] ==>
          var k := |evs| - 1;
          WellUsed(c, w, evs[..k]) && Allowed(Run(c, w, evs[..k]), evs[k]))
  }

  /** The session may end here: the last flush, too, must find the worker idle. */
  ghost predicate MayClose(w: World) {
    w.truncation.None? && (w.columns[0].tokenCount > 0 ==> Quiet(w))
  }

  // ---- one session ----

  /** The invariant of a session, also between the halves of a truncate. */
  ghost predicate Simulates(c: Codec, w: World, log: seq<Frame>) {
    if w.truncation.None? then Follows(c, w, log)
    else
      && Fenced(w) && EpochsOk(w) && (w.truncation.value > Valid(w.file) ==> Quiet(w))
      && TruncateEnd(w).Ok? && Follows(c, TruncateEnd(w).value, log)
  }

  lemma AppendBehindValid(c: Codec, f: seq<byte>, b: FlushBatch, n: nat)
    requires |f| >= HEADER_SIZE && n < TWO_64
    ensures SetValid(AppendBatch(c, f, b), n) == AppendBatch(c, SetValid(f, n), b)
    ensures TrailerAt(c, SetValid(f, n), b) == TrailerAt(c, f, b)
  {
    var s := AppendBatch(c, f, b)[|f|..];
    assert AppendBatch(c, f, b) == f + s;
    assert AppendBatch(c, SetValid(f, n), b) == SetValid(f, n) + s;
    assert SetValid(f + s, n) == SetValid(f, n) + s;
  }

  /** Fenced worker steps commute with the second half of a rollback. */
  lemma RollbackCommutes(c: Codec, w: World)
    requires w.truncation.Some? && Fenced(w) && w.truncation.value <= Valid(w.file)
    ensures var v := WorkerStep(c, w);
      TruncateEnd(w).Ok? && TruncateEnd(v).Ok? && TruncateEnd(v).value == WorkerStep(c, TruncateEnd(w).value)
  {
    var count := w.truncation.value;
    var e := w.(truncation := None, localCount := count, file := SetValid(w.file, count));
    assert TruncateEnd(w) == Ok(e);
    if w.worker.Idle? && w.queue != [] { AppendBehindValid(c, w.file, w.queue[0], count); }
  }

  lemma SimulatesWorker(c: Codec, w: World, log: seq<Frame>)
    requires Simulates(c, w, log) && Epoch(w.file) + 1 < TWO_64
    ensures Simulates(c, WorkerStep(c, w), log)
  {
    if w.truncation.None? {
      FollowsWorker(c, w, log);
    } else if w.truncation.value <= Valid(w.file) {
      FencedStep(c, w);
      RollbackWorks(c, w, TruncateEnd(w).value, log);
    }
  }

  lemma RollbackWorks(c: Codec, w: World, e: World, log: seq<Frame>)
    requires w.truncation.Some? && Fenced(w) && EpochsOk(w) && w.truncation.value <= Valid(w.file)
    requires TruncateEnd(w) == Ok(e) && Follows(c, e, log) && Epoch(e.file) + 1 < TWO_64
    ensures EpochsOk(WorkerStep(c, w))
    ensures TruncateEnd(WorkerStep(c, w)).Ok? && Follows(c, TruncateEnd(WorkerStep(c, w)).value, log)
  {
    RollbackCommutes(c, w);
    WorkerEpochs(c, w);
    FollowsWorker(c, e, log);
  }

  lemma SimulatesBegin(c: Codec, w: World, log: seq<Frame>, count: u64)
    requires Follows(c, w, log) && Epoch(w.file) + 1 < TWO_64 && Allowed(w, BeginTruncate(count))
    ensures Simulates(c, TruncateBegin(w, count), LogStep(w.cfg, log, BeginTruncate(count)))
  {
    SettleKeepsBuffers(c, w);
    assert |log| == w.localCount;
    if count <= w.localCount {
      if count > Valid(w.file) {
        TracksTrim(c, w, log, count);
      } else {
        FollowsRollback(c, w, log, count);
        BumpFences(w, count);
      }
      BeginBumps(w, count);
    }
  }

  lemma SimulatesStep(c: Codec, w: World, log: seq<Frame>, ev: Event)
    requires Lawful(c) && Simulates(c, w, log) && Allowed(w, ev) && Room(c, w) && Room(c, Step(c, w, ev))
    ensures Simulates(c, Step(c, w, ev), LogStep(w.cfg, log, ev))
  {
    match ev
    case WorkerMoves => SimulatesWorker(c, w, log);
    case EndTruncate =>
    case Append(frame) => if |frame| == w.cfg.Stride() { FollowsAppend(c, w, log, frame); }
    case FlushPending => if w.columns[0].tokenCount > 0 { FollowsFlush(c, w, log); }
    case BeginTruncate(count) => SimulatesBegin(c, w, log, count);
  }

  lemma {:induction false} RunSimulates(c: Codec, w: World, log: seq<Frame>, evs: seq<Event>)
    requires Lawful(c) && Simulates(c, w, log) && WellUsed(c, w, evs)
    ensures Simulates(c, Run(c, w, evs), LogAfter(w.cfg, log, evs))
    decreases |evs|
  {
    if evs != [] {
      var k := |evs| - 1;
      RunSimulates(c, w, log, evs[..k]);
      RunExtends(c, w, evs[..k]);
      SimulatesStep(c, Run(c, w, evs[..k]), LogAfter(w.cfg, log, evs[..k]), evs[k]);
    }
  }

  lemma SettledIsFaithful(c: Codec, s: World, log: seq<Frame>)
    requires Tracks(c, s, log) && s.columns[0].tokenCount == 0
    ensures Faithful(c, s.cfg, s.file, log)
  {
    TracksCounts(c, s, log);
    assert log[..Valid(s.file)] == log;
  }

  lemma CloseIsFaithful(c: Codec, w: World, log: seq<Frame>)
    requires Lawful(c) && Follows(c, w, log) && Room(c, w) && MayClose(w)
    ensures Faithful(c, w.cfg, Close(c, w), log)
  {
    if w.columns[0].tokenCount > 0 {
      assert Tracks(c, w, log);
      FlushIsFaithful(c, w, log);
    } else {
      SettleKeepsBuffers(c, w);
      SettledIsFaithful(c, Settle(c, w), log);
    }
  }

  // ---- any number of sessions ----

  /** Opening, with a chain that never ends counted as an error. */
  ghost function Resume(c: Codec, f: seq<byte>): KvResult<World> {
    if Decode(f).Ok? && !KvReader.WalkEnds(c, f, Decode(f).value.indexHeadOffset) then Err(Panic)
    else OpenWriter(c, f)
  }

  /** Open, run a schedule, close; a file that does not open is left alone. */
  ghost function AfterSession(c: Codec, f: seq<byte>, evs: seq<Event>): seq<byte> {
    match Resume(c, f)
    case Ok(w) => Close(c, Run(c, w, evs))
    case Err(_) => f
  }

  ghost function AfterSessions(c: Codec, f: seq<byte>, ss: seq<seq<Event>>): seq<byte> {
    if ss == [] then f else AfterSession(c, AfterSessions(c, f, ss[..|ss| - 1]), ss[|ss| - 1])
  }

  function LogAfterSessions(cfg: KvCacheConfig, log: seq<Frame>, ss: seq<seq<Event>>): seq<Frame> {
    if ss == [] then log else LogAfter(cfg, LogAfterSessions(cfg, log, ss[..|ss| - 1]), ss[|ss| - 1])
  }

  ghost predicate SessionsWellUsed(c: Codec, f: seq<byte>, ss: seq<seq<Event>>) {
    && |AfterSessions(c, f, ss)| < TWO_64
    && (ss != [] ==>
          var k := |ss| - 1;
          && SessionsWellUsed(c, f, ss[..k])
          && var start := Resume(c, AfterSessions(c, f, ss[..k]));
             start.Ok? ==> WellUsed(c, start.value, ss[k]) && MayClose(Run(c, start.value, ss[k])))
  }

  /** One session on a file that stands for a log: the file it leaves stands for the log
      its calls make, whatever the schedule of the worker. */
  lemma SessionRefines(c: Codec, cfg: KvCacheConfig, f: seq<byte>, log: seq<Frame>, evs: seq<Event>)
    requires Lawful(c) && Faithful(c, cfg, f, log) && |f| < TWO_64
    ensures Resume(c, f).Ok? && Resume(c, f).value.cfg == cfg
    ensures WellUsed(c, Resume(c, f).value, evs) && MayClose(Run(c, Resume(c, f).value, evs)) ==>
      Faithful(c, cfg, AfterSession(c, f, evs), LogAfter(cfg, log, evs))
  {
    OpenFollows(c, cfg, f, log);
    var w := Resume(c, f).value;
    if WellUsed(c, w, evs) && MayClose(Run(c, w, evs)) {
      RunSimulates(c, w, log, evs);
      RunExtends(c, w, evs);
      CloseIsFaithful(c, Run(c, w, evs), LogAfter(cfg, log, evs));
    }
  }

  lemma {:induction false} SessionsRefine(c: Codec, cfg: KvCacheConfig, f: seq<byte>, log: seq<Frame>, ss: seq<seq<Event>>)
    requires Lawful(c) && Faithful(c, cfg, f, log) && SessionsWellUsed(c, f, ss)
    ensures Faithful(c, cfg, AfterSessions(c, f, ss), LogAfterSessions(cfg, log, ss))
  {
    if ss != [] {
      var k := |ss| - 1;
      SessionsRefine(c, cfg, f, log, ss[..k]);
      SessionRefines(c, cfg, AfterSessions(c, f, ss[..k]), LogAfterSessions(cfg, log, ss[..k]), ss[k]);
    }
  }

  /** From creation through any number of sessions of any lengths - appending, re-publishing
      a partial block, truncating pending or committed tokens - a fresh reader counts the
      log's frames, in all and by blocks, and returns each of their cells. */
  lemma CacheRefinesLog(c: Codec, cfg: KvCacheConfig, metadata: seq<byte>, first: seq<Event>, ss: seq<seq<Event>>)
    requires Lawful(c) && |metadata| < TWO_32
    requires WellUsed(c, Create(cfg, metadata), first) && MayClose(Run(c, Create(cfg, metadata), first))
    requires SessionsWellUsed(c, Close(c, Run(c, Create(cfg, metadata), first)), ss)
    ensures ReadsLog(c, cfg, AfterSessions(c, Close(c, Run(c, Create(cfg, metadata), first)), ss),
                     LogAfterSessions(cfg, LogAfter(cfg, [], first), ss))
    ensures CountsBlocks(c, cfg, AfterSessions(c, Close(c, Run(c, Create(cfg, metadata), first)), ss),
                         LogAfterSessions(cfg, LogAfter(cfg, [], first), ss))
  {
    var w := Create(cfg, metadata);
    CreateFollows(c, cfg, metadata);
    RunSimulates(c, w, [], first);
    RunExtends(c, w, first);
    CloseIsFaithful(c, Run(c, w, first), LogAfter(cfg, [], first));
    var f0, log0 := Close(c, Run(c, w, first)), LogAfter(cfg, [], first);
    SessionsRefine(c, cfg, f0, log0, ss);
    ReadsBack(c, cfg, AfterSessions(c, f0, ss), LogAfterSessions(cfg, log0, ss));
    BlocksCounted(c, cfg, AfterSessions(c, f0, ss), LogAfterSessions(cfg, log0, ss));
  }

  // ---- the guards can be met ----

  /** A session of appends under any schedule, with room. */
  ghost predicate Appending(c: Codec, w: World, evs: seq<Event>)
    decreases |evs|
  {
    && Room(c, Run(c, w, evs))
    && (evs != [] ==>
          var k := |evs| - 1;
          Appending(c, w, evs[..k]) && (evs[k].WorkerMoves? || evs[k].Append?))
  }

  /** The frame that completes a block. */
  predicate Completes(w: World, ev: Event) {
    ev.Append? && |ev.frame| == w.cfg.Stride() && w.columns[0].tokenCount + 1 == BLOCK_TOKEN_COUNT
  }

  /** Every flush of a run of appends finds the worker idle. */
  ghost predicate FlushesIdle(c: Codec, w: World, evs: seq<Event>)
    decreases |evs|
  {
    evs == [] ||
    var k := |evs| - 1;
    var v := Run(c, w, evs[..k]);
    FlushesIdle(c, w, evs[..k]) && (Completes(v, evs[k]) ==> Quiet(v))
  }

  /** Appending never leaves the position the next append needs. */
  lemma {:induction false} AppendingStaysInPlace(c: Codec, w: World, evs: seq<Event>)
    requires Lockstep(w) && InPosition(w) && w.truncation.None? && Appending(c, w, evs)
    ensures var v := Run(c, w, evs); Lockstep(v) && InPosition(v) && v.truncation.None? && v.cfg == w.cfg
    decreases |evs|
  {
    if evs != [] {
      var k := |evs| - 1;
      AppendingStaysInPlace(c, w, evs[..k]);
      var v := Run(c, w, evs[..k]);
      StepLockstep(c, v, evs[k]);
      PositionKeptIff(c, v, evs[k]);
      StepExtends(c, v, evs[k]);
    }
  }

  /** So a session of appends meets all guards if it waits for the worker before each frame
      that completes a block. */
  lemma {:induction false} PatientIsWellUsed(c: Codec, w: World, evs: seq<Event>)
    requires Lockstep(w) && InPosition(w) && w.truncation.None? && Appending(c, w, evs) && FlushesIdle(c, w, evs)
    ensures WellUsed(c, w, evs)
    decreases |evs|
  {
    if evs != [] {
      var k := |evs| - 1;
      PatientIsWellUsed(c, w, evs[..k]);
      AppendingStaysInPlace(c, w, evs[..k]);
    }
  }

  /** The frames a run accepts. */
  function Frames(cfg: KvCacheConfig, evs: seq<Event>): seq<Frame> {
    if evs == [] then []
    else
      var k := |evs| - 1;
      Frames(cfg, evs[..k]) + if evs[k].Append? && |evs[k].frame| == cfg.Stride() then [evs[k].frame] else []
  }

  lemma {:induction false} AppendingLog(c: Codec, w: World, evs: seq<Event>)
    requires Appending(c, w, evs)
    ensures LogAfter(w.cfg, [], evs) == Frames(w.cfg, evs)
    decreases |evs|
  {
    if evs != [] { AppendingLog(c, w, evs[..|evs| - 1]); }
  }

  /** Frames appended patiently to a new cache read back, under any schedule. */
  lemma PatientCacheReads(c: Codec, cfg: KvCacheConfig, metadata: seq<byte>, evs: seq<Event>)
    requires Lawful(c) && |metadata| < TWO_32
    requires Appending(c, Create(cfg, metadata), evs) && FlushesIdle(c, Create(cfg, metadata), evs)
    requires MayClose(Run(c, Create(cfg, metadata), evs))
    ensures ReadsLog(c, cfg, Close(c, Run(c, Create(cfg, metadata), evs)), Frames(cfg, evs))
  {
    var w := Create(cfg, metadata);
    CreateFollows(c, cfg, metadata);
    PatientIsWellUsed(c, w, evs);
    AppendingLog(c, w, evs);
    var none: seq<seq<Event>> := [];
    CacheRefinesLog(c, cfg, metadata, evs, none);
  }

  // ---- schedules do not matter ----

  /** The synchronous reading of a call: the worker finishes before the next one. */
  function SyncRun(c: Codec, w: World, evs: seq<Event>): World {
    if evs == [] then Settle(c, w)
    else Settle(c, Step(c, SyncRun(c, w, evs[..|evs| - 1]), evs[|evs| - 1]))
  }

  /** Appends and flushes only, each flush finding the worker idle. */
  ghost predicate IdleFlushes(c: Codec, w: World, evs: seq<Event>)
    decreases |evs|
  {
    evs == [] ||
    var k := |evs| - 1;
    var v := Run(c, w, evs[..k]);
    && IdleFlushes(c, w, evs[..k])
    && match evs[k]
       case WorkerMoves => true
       case Append(frame) => v.columns[0].tokenCount + 1 == BLOCK_TOKEN_COUNT ==> Quiet(v)
       case FlushPending => Quiet(v)
       case _ => false
  }

  lemma SyncStep(c: Codec, v: World, ev: Event)
    requires v.truncation.None?
    requires match ev
             case WorkerMoves => true
             case Append(frame) => v.columns[0].tokenCount + 1 == BLOCK_TOKEN_COUNT ==> Quiet(v)
             case FlushPending => Quiet(v)
             case _ => false
    ensures Settle(c, Step(c, v, ev)) == Settle(c, Step(c, Settle(c, v), ev)) && Step(c, v, ev).truncation.None?
  {
    SettleKeepsBuffers(c, v);
    if ev.Append? && |ev.frame| == v.cfg.Stride() && !Quiet(v) {
      SettleBuffered(c, v, ev.frame);
      var s := Settle(c, v);
      assert AppendFrame(v, ev.frame) == Buffered(v, ev.frame);
      assert AppendFrame(s, ev.frame) == Buffered(s, ev.frame);
    }
  }

  /** Under idle flushes, every interleaving with the worker ends in the very state, file
      bytes included, of the run in which the worker finishes after each call. */
  lemma {:induction false} ScheduleIndependent(c: Codec, w: World, evs: seq<Event>)
    requires w.truncation.None? && IdleFlushes(c, w, evs)
    ensures Settle(c, Run(c, w, evs)) == SyncRun(c, w, evs) && Run(c, w, evs).truncation.None?
    decreases |evs|
  {
    if evs != [] {
      var k := |evs| - 1;
      ScheduleIndependent(c, w, evs[..k]);
      SyncStep(c, Run(c, w, evs[..k]), evs[k]);
    }
  }
}
