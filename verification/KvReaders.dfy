/** What a reader sees that is opened in the middle of a session. */
module KvReaders {
  import opened Bytes
  import opened KvHeader
  import opened KvIndex
  import opened KvProtocol
  import opened KvReader
  import opened KvChains
  import opened KvTokens
  import opened KvLog
  import opened KvSession
  import opened KvReadback
  import opened KvRefinement

  /** The log as readers may see it: a truncate counts when it returns, not when it begins. */
  function Shown(cfg: KvCacheConfig, log: seq<Frame>, evs: seq<Event>): seq<Frame> {
    if evs == [] then log
    else
      var k := |evs| - 1;
      if evs[k].WorkerMoves? || evs[k].BeginTruncate? then Shown(cfg, log, evs[..k]) else LogAfter(cfg, log, evs)
  }

  /** The count before the worker's store of it, while the store of the head is still to come. */
  function PublishedCount(c: Codec, w: World, evs: seq<Event>): nat {
    var v := Run(c, w, evs);
    if evs != [] && v.worker.Counted? then PublishedCount(c, w, evs[..|evs| - 1]) else Valid(v.file)
  }

  /** What readers rely on: `now` is the log the calls make, `shown` the one before a truncate
      in progress, `base` the count that the head covers. */
  ghost predicate Serves(c: Codec, w: World, now: seq<Frame>, shown: seq<Frame>, base: nat) {
    && Simulates(c, w, now)
    && (w.worker.Loaded? ==> w.worker.seen == Valid(w.file))
    && (if w.truncation.None? then shown == now else ShowsPrefix(c, w.cfg, w.file, shown))
    && (if w.worker.Counted? then GapHolds(c, w.cfg, w.file, now, base) else base == Valid(w.file))
  }

  ghost predicate ShowsPrefix(c: Codec, cfg: KvCacheConfig, f: seq<byte>, shown: seq<Frame>) {
    |f| >= HEADER_SIZE && Valid(f) <= |shown| && Faithful(c, cfg, f, shown[..Valid(f)])
  }

  ghost predicate GapHolds(c: Codec, cfg: KvCacheConfig, f: seq<byte>, now: seq<Frame>, base: nat) {
    |f| >= HEADER_SIZE && base <= Valid(f) <= |now| && Stocked(c, cfg, f, now[..base])
  }

  lemma PrefixStays(c: Codec, cfg: KvCacheConfig, f: seq<byte>, g: seq<byte>, shown: seq<Frame>)
    requires ShowsPrefix(c, cfg, f, shown) && Extends(f, g) && |g| >= HEADER_SIZE && Head(g) == Head(f) && Valid(g) == Valid(f)
    ensures ShowsPrefix(c, cfg, g, shown)
  {
    FaithfulStays(c, cfg, f, g, shown[..Valid(f)]);
  }

  /** A truncate begins: readers still see the log before it. */
  lemma BeginShows(c: Codec, w: World, log: seq<Frame>, count: u64)
    requires Follows(c, w, log) && Epoch(w.file) + 1 < TWO_64 && Allowed(w, BeginTruncate(count)) && count <= w.localCount
    ensures ShowsPrefix(c, w.cfg, TruncateBegin(w, count).file, log) && !w.worker.Counted? && !w.worker.Loaded?
  {
    BeginBumps(w, count);
    PrefixStays(c, w.cfg, w.file, TruncateBegin(w, count).file, log);
  }

  lemma CountsTheNewest(c: Codec, w: World, log: seq<Frame>)
    requires Follows(c, w, log) && w.worker.Counted?
    ensures Valid(w.file) <= |log|
  {
    var v := WorkerStep(c, w);
    assert Quiet(v) && Settle(c, w) == v;
  }

  /** The store of the count opens the gap: everything below the base count is still stored. */
  lemma GapOpens(c: Codec, w: World, log: seq<Frame>)
    requires Follows(c, w, log) && w.worker.Loaded? && w.worker.seen == Valid(w.file) && Epoch(w.file) + 1 < TWO_64
    ensures WorkerStep(c, w).worker.Counted? && GapHolds(c, w.cfg, WorkerStep(c, w).file, log, Valid(w.file))
  {
    var v := WorkerStep(c, w);
    FollowsWorker(c, w, log);
    CountsTheNewest(c, v, log);
    StockStays(c, w.cfg, w.file, v.file, log[..Valid(w.file)]);
  }

  lemma ServesWorker(c: Codec, w: World, v: World, now: seq<Frame>, shown: seq<Frame>, base: nat)
    requires Serves(c, w, now, shown, base) && Epoch(w.file) + 1 < TWO_64 && v == WorkerStep(c, w)
    ensures Serves(c, v, now, shown, if v.worker.Counted? then base else Valid(v.file))
  {
    StepWorks(c, w);
    SimulatesWorker(c, w, now);
    if w.truncation.Some? {
      FencedStep(c, w);
      PrefixStays(c, w.cfg, w.file, v.file, shown);
    } else if w.worker.Loaded? {
      GapOpens(c, w, now);
    }
  }

  /** In the gap no call touches the file. */
  lemma GapStays(c: Codec, w: World, now: seq<Frame>, base: nat, ev: Event)
    requires Simulates(c, w, now) && w.worker.Counted? && GapHolds(c, w.cfg, w.file, now, base)
    requires Allowed(w, ev) && !ev.WorkerMoves?
    ensures var v := Step(c, w, ev);
      && v.worker == w.worker && v.file == w.file && v.truncation.None? && w.truncation.None?
      && GapHolds(c, w.cfg, v.file, LogStep(w.cfg, now, ev), base)
  {
    SettleKeepsBuffers(c, w);
    var after := LogStep(w.cfg, now, ev);
    assert now <= after;
    assert after[..base] == now[..base];
  }

  lemma ServesInGap(c: Codec, w: World, v: World, now: seq<Frame>, after: seq<Frame>, shown: seq<Frame>, base: nat, ev: Event)
    requires Serves(c, w, now, shown, base) && Simulates(c, v, after) && w.worker.Counted?
    requires Allowed(w, ev) && !ev.WorkerMoves? && v == Step(c, w, ev) && after == LogStep(w.cfg, now, ev)
    ensures Serves(c, v, after, after, base) && v.worker.Counted? && (ev.BeginTruncate? ==> shown == after)
  {
    GapStays(c, w, now, base, ev);
    if ev.BeginTruncate? { SettleKeepsBuffers(c, w); }
  }

  lemma CallsLeaveWorker(c: Codec, w: World, v: World, ev: Event)
    requires v == Step(c, w, ev) && Allowed(w, ev) && !ev.WorkerMoves? && !ev.BeginTruncate?
    ensures v.worker == w.worker && (w.truncation.None? ==> v.file == w.file && v.truncation.None?)
    ensures w.truncation.Some? && TruncateEnd(w).Ok? ==> v.truncation.None?
  {
  }

  /** Outside the gap a call shows its effect at once, save the beginning of a truncate. */
  lemma ServesCall(c: Codec, w: World, v: World, now: seq<Frame>, after: seq<Frame>, shown: seq<Frame>, base: nat, ev: Event)
    requires Serves(c, w, now, shown, base) && Simulates(c, v, after)
    requires v == Step(c, w, ev) && Allowed(w, ev) && !w.worker.Counted? && !ev.WorkerMoves? && !ev.BeginTruncate?
    ensures Serves(c, v, after, after, Valid(v.file)) && !v.worker.Counted?
  {
    CallsLeaveWorker(c, w, v, ev);
  }

  lemma ServesBegin(c: Codec, w: World, v: World, now: seq<Frame>, after: seq<Frame>, base: nat, count: u64)
    requires Serves(c, w, now, now, base) && Simulates(c, v, after) && !w.worker.Counted? && w.truncation.None?
    requires Epoch(w.file) + 1 < TWO_64 && Allowed(w, BeginTruncate(count)) && v == TruncateBegin(w, count)
    requires after == LogStep(w.cfg, now, BeginTruncate(count))
    ensures Serves(c, v, after, now, Valid(v.file)) && !v.worker.Counted?
  {
    if count <= w.localCount {
      BeginShows(c, w, now, count);
    } else {
      SettleKeepsBuffers(c, w);
      assert after == now && v == w;
    }
  }

  lemma ServesStep(c: Codec, w: World, v: World, now: seq<Frame>, after: seq<Frame>, shown: seq<Frame>, base: nat, ev: Event)
    requires Lawful(c) && Serves(c, w, now, shown, base) && Allowed(w, ev) && Room(c, w) && Room(c, v)
    requires v == Step(c, w, ev) && after == LogStep(w.cfg, now, ev)
    ensures Serves(c, v, after, if ev.WorkerMoves? || ev.BeginTruncate? then shown else after,
                   if v.worker.Counted? then base else Valid(v.file))
  {
    SimulatesStep(c, w, now, ev);
    if ev.WorkerMoves? {
      ServesWorker(c, w, v, now, shown, base);
    } else if w.worker.Counted? {
      ServesInGap(c, w, v, now, after, shown, base, ev);
    } else if ev.BeginTruncate? {
      ServesBegin(c, w, v, now, after, base, ev.count);
    } else {
      ServesCall(c, w, v, now, after, shown, base, ev);
    }
  }

  lemma {:induction false} RunServes(c: Codec, w: World, log: seq<Frame>, evs: seq<Event>)
    requires Lawful(c) && Serves(c, w, log, log, Valid(w.file)) && !w.worker.Counted? && WellUsed(c, w, evs)
    ensures Serves(c, Run(c, w, evs), LogAfter(w.cfg, log, evs), Shown(w.cfg, log, evs), PublishedCount(c, w, evs))
    decreases |evs|
  {
    if evs != [] {
      var k := |evs| - 1;
      RunServes(c, w, log, evs[..k]);
      RunExtends(c, w, evs[..k]);
      ServesStep(c, Run(c, w, evs[..k]), Run(c, w, evs), LogAfter(w.cfg, log, evs[..k]), LogAfter(w.cfg, log, evs),
                 Shown(w.cfg, log, evs[..k]), PublishedCount(c, w, evs[..k]), evs[k]);
    }
  }

  /** At the start of a session. */
  lemma StartServes(c: Codec, w: World, log: seq<Frame>)
    requires Follows(c, w, log) && Quiet(w)
    ensures Serves(c, w, log, log, Valid(w.file))
  {
  }

  lemma RoomForReaders(c: Codec, w: World, evs: seq<Event>)
    requires WellUsed(c, w, evs)
    ensures |Run(c, w, evs).file| < TWO_64 && Run(c, w, evs).cfg == w.cfg
  {
    RunExtends(c, w, evs);
    SettleExtends(c, FlushBlock(Run(c, w, evs)));
  }

  /** A reader opened at any moment of a guarded session, truncates in progress included, but
      not between the worker's two stores, finds exactly the published prefix of the log;
      during a truncate, of the log before it. */
  lemma ReadersSeePrefixes(c: Codec, w: World, log: seq<Frame>, evs: seq<Event>)
    requires Lawful(c) && Follows(c, w, log) && Quiet(w) && WellUsed(c, w, evs)
    ensures var v, shown := Run(c, w, evs), Shown(w.cfg, log, evs);
      !v.worker.Counted? ==>
        && Valid(v.file) <= |shown| && ReadsLog(c, w.cfg, v.file, shown[..Valid(v.file)])
        && CountsBlocks(c, w.cfg, v.file, shown[..Valid(v.file)])
  {
    var v, shown := Run(c, w, evs), Shown(w.cfg, log, evs);
    StartServes(c, w, log);
    RunServes(c, w, log, evs);
    RoomForReaders(c, w, evs);
    if !v.worker.Counted? {
      ReadsBack(c, w.cfg, v.file, shown[..Valid(v.file)]);
      BlocksCounted(c, w.cfg, v.file, shown[..Valid(v.file)]);
    }
  }

  /** A reader of a file whose count may run ahead of its blocks still finds what is stored. */
  ghost predicate ReadsFirst(c: Codec, cfg: KvCacheConfig, f: seq<byte>, log: seq<Frame>, n: nat) {
    && Decode(f).Ok? && WalkEnds(c, f, Decode(f).value.indexHeadOffset) && Open(c, f).Ok?
    && n <= |log| && Sized(cfg, log)
    && forall i: nat, token: nat :: i < cfg.Columns() && token < n ==>
         TokenBytes(Open(c, f).value, f, cfg.LayerOf(i), cfg.HeadOf(i), token) == Got(Cell(cfg, log[token], i))
  }

  lemma StockReads(c: Codec, cfg: KvCacheConfig, f: seq<byte>, log: seq<Frame>, n: nat)
    requires n <= |log| && Stocked(c, cfg, f, log[..n]) && Sized(cfg, log) && n <= Valid(f) && |f| < TWO_64
    ensures ReadsFirst(c, cfg, f, log, n)
  {
    ReaderOpens(c, cfg, f);
    var r := Open(c, f).value;
    assert HEADER_SIZE <= r.payloadOffset <= r.mappedLen <= |f|;
    forall i: nat, token: nat | i < cfg.Columns() && token < n
      ensures TokenBytes(r, f, cfg.LayerOf(i), cfg.HeadOf(i), token) == Got(Cell(cfg, log[token], i))
    {
      ReadsCell(c, cfg, f, log[..n], i, token);
      assert log[..n][token] == log[token];
    }
  }

  lemma BlockNotStored(c: Codec, cfg: KvCacheConfig, f: seq<byte>, log: seq<Frame>, token: nat)
    requires ReadableFile(c, cfg, f) && token < |log| && |f| < TWO_64
    requires Stored(c, f, ColumnKey(cfg, 0, token / BLOCK_TOKEN_COUNT)) == Missing
    ensures !ReadsLog(c, cfg, f, log)
  {
    SomeColumn(cfg);
    ReaderOpens(c, cfg, f);
    BuildMapIsLookup(Chain(c, f, PayloadOffset(f), Head(f)), ColumnKey(cfg, 0, token / BLOCK_TOKEN_COUNT));
    HitsInside(c, f, ColumnKey(cfg, 0, token / BLOCK_TOKEN_COUNT));
    if ReadsLog(c, cfg, f, log) { ReadsLogAt(c, cfg, f, log, 0, token); }
  }

  /** The newest counted token's block has never been stored. */
  ghost predicate NewBlock(c: Codec, cfg: KvCacheConfig, f: seq<byte>)
    requires ReadableFile(c, cfg, f)
  {
    Valid(f) > 0 && Stored(c, f, ColumnKey(cfg, 0, (Valid(f) - 1) / BLOCK_TOKEN_COUNT)) == Missing
  }

  lemma GapReads(c: Codec, cfg: KvCacheConfig, f: seq<byte>, log: seq<Frame>, base: nat)
    requires GapHolds(c, cfg, f, log, base) && Sized(cfg, log) && |f| < TWO_64
    ensures ReadsFirst(c, cfg, f, log, base)
    ensures base == Valid(f) ==> ReadsLog(c, cfg, f, log[..Valid(f)])
    ensures NewBlock(c, cfg, f) ==> base < Valid(f) && !ReadsLog(c, cfg, f, log[..Valid(f)])
  {
    StockReads(c, cfg, f, log, base);
    if base == Valid(f) { ReadsBack(c, cfg, f, log[..base]); }
    if NewBlock(c, cfg, f) {
      SomeColumn(cfg);
      BlockNotStored(c, cfg, f, log[..Valid(f)], Valid(f) - 1);
    }
  }

  lemma ServesGap(c: Codec, v: World, now: seq<Frame>, shown: seq<Frame>, base: nat)
    requires Serves(c, v, now, shown, base) && v.worker.Counted?
    ensures GapHolds(c, v.cfg, v.file, now, base) && Sized(v.cfg, now)
  {
    SettleKeepsBuffers(c, v);
  }

  lemma GapIsOpen(c: Codec, w: World, log: seq<Frame>, evs: seq<Event>)
    requires Lawful(c) && Follows(c, w, log) && Quiet(w) && WellUsed(c, w, evs) && Run(c, w, evs).worker.Counted?
    ensures GapHolds(c, w.cfg, Run(c, w, evs).file, LogAfter(w.cfg, log, evs), PublishedCount(c, w, evs))
    ensures Sized(w.cfg, LogAfter(w.cfg, log, evs)) && |Run(c, w, evs).file| < TWO_64
  {
    StartServes(c, w, log);
    RunServes(c, w, log, evs);
    ServesGap(c, Run(c, w, evs), LogAfter(w.cfg, log, evs), Shown(w.cfg, log, evs), PublishedCount(c, w, evs));
    RoomForReaders(c, w, evs);
  }

  /** Between the two stores every token published before still reads, and if the batch added no
      tokens the counted prefix of the log reads back. If it added tokens to a block that was
      never stored, that prefix does not read back. */
  lemma ReadersInTheGap(c: Codec, w: World, log: seq<Frame>, evs: seq<Event>)
    requires Lawful(c) && Follows(c, w, log) && Quiet(w) && WellUsed(c, w, evs) && Run(c, w, evs).worker.Counted?
    ensures var v, now, base := Run(c, w, evs), LogAfter(w.cfg, log, evs), PublishedCount(c, w, evs);
      && base <= Valid(v.file) <= |now| && ReadsFirst(c, w.cfg, v.file, now, base) && ReadableFile(c, w.cfg, v.file)
      && (base == Valid(v.file) || NewBlock(c, w.cfg, v.file) ==>
            (ReadsLog(c, w.cfg, v.file, now[..Valid(v.file)]) <==> base == Valid(v.file)))
  {
    GapIsOpen(c, w, log, evs);
    GapReads(c, w.cfg, Run(c, w, evs).file, LogAfter(w.cfg, log, evs), PublishedCount(c, w, evs));
  }
}
