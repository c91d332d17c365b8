/** Over whole runs: which of the published index blocks stay reachable from the head. */
module KvTrailers {
  import opened Bytes
  import opened KvHeader
  import opened KvIndex
  import opened KvProtocol
  import opened KvReader
  import opened KvChains
  import opened KvTokens
  import opened KvRefinement
  import opened KvExact

  /** The trailers that have been the head, newest first; `before` are those at the start. */
  ghost function Heads(c: Codec, w: World, before: seq<nat>, evs: seq<Event>): seq<nat> {
    if evs == [] then before
    else
      var k := |evs| - 1;
      HeadsStep(Run(c, w, evs[..k]), Heads(c, w, before, evs[..k]), evs[k])
  }

  ghost function HeadsStep(w: World, heads: seq<nat>, ev: Event): seq<nat> {
    if Publishes(w, ev) then [w.worker.at] + heads else heads
  }

  ghost predicate Publishes(w: World, ev: Event) { ev.WorkerMoves? && w.worker.Counted? }

  /** The trailer at an offset names the head as its predecessor. */
  ghost predicate OnHead(c: Codec, f: seq<byte>, at: nat) {
    |f| >= HEADER_SIZE && ReadLink(c, f, at).Ok? && ReadLink(c, f, at).value.start >= HEADER_SIZE
    && ReadLink(c, f, at).value.prev == Head(f)
  }

  /** Every trailer was published on top of the one that was the head just before. */
  ghost predicate InOrder(c: Codec, w: World, evs: seq<Event>)
    decreases |evs|
  {
    evs == [] ||
    var k := |evs| - 1;
    var v := Run(c, w, evs[..k]);
    InOrder(c, w, evs[..k]) && (Publishes(v, evs[k]) ==> OnHead(c, v.file, v.worker.at))
  }

  /** `reached` are the trailers reachable from the head. */
  ghost predicate Reach(c: Codec, f: seq<byte>, reached: seq<nat>) {
    |f| >= HEADER_SIZE && Linked(c, f, PayloadOffset(f), Head(f)) && Trailers(c, f, PayloadOffset(f), Head(f)) == reached
  }

  ghost predicate TopIsHead(f: seq<byte>, heads: seq<nat>) {
    |f| >= HEADER_SIZE && (if heads == [] then Head(f) == 0 else heads[0] == Head(f) != 0)
  }

  lemma ReachStays(c: Codec, cfg: KvCacheConfig, f: seq<byte>, g: seq<byte>, heads: seq<nat>)
    requires FileOk(cfg, f) && Extends(f, g) && |g| >= HEADER_SIZE && Head(g) == Head(f)
    requires Linked(c, f, PayloadOffset(f), Head(f))
    ensures Reach(c, g, heads) <==> Reach(c, f, heads)
  {
    FileStaysOk(cfg, f, g);
    TrailersStay(c, f, g, PayloadOffset(f), Head(f));
  }

  /** Only the worker's last store moves the head. */
  lemma HeadStays(c: Codec, w: World, ev: Event)
    requires !Publishes(w, ev)
    ensures Head(Step(c, w, ev).file) == Head(w.file)
  {
  }

  lemma TopOfReach(c: Codec, f: seq<byte>, heads: seq<nat>)
    requires Reach(c, f, heads)
    ensures TopIsHead(f, heads)
  {
  }

  lemma PublishOneMore(c: Codec, w: World, heads: seq<nat>)
    requires ChainsOk(c, w) && w.worker.Counted? && |w.file| < TWO_64 && TopIsHead(w.file, heads)
    ensures var v := WorkerStep(c, w);
      && TopIsHead(v.file, [w.worker.at] + heads)
      && (Reach(c, v.file, [w.worker.at] + heads) <==> Reach(c, w.file, heads) && OnHead(c, w.file, w.worker.at))
  {
    var f, at, lo := w.file, w.worker.at, PayloadOffset(w.file);
    var g := SetHead(f, at);
    SmallMod(at);
    FileStaysOk(w.cfg, f, g);
    TrailersStay(c, f, g, lo, at);
    var prev := ReadLink(c, f, at).value.prev;
    var below := Trailers(c, f, lo, prev);
    assert Trailers(c, f, lo, at) == [at] + below;
    assert ([at] + below)[1..] == below && ([at] + heads)[1..] == heads;
    assert below != [] ==> below[0] == prev;
  }

  lemma StepReaches(c: Codec, w: World, g: seq<byte>, heads: seq<nat>, after: seq<nat>, ev: Event)
    requires ChainsOk(c, w) && TopIsHead(w.file, heads) && g == Step(c, w, ev).file && |g| < TWO_64
    requires after == HeadsStep(w, heads, ev)
    ensures TopIsHead(g, after)
    ensures Reach(c, g, after) <==>
      Reach(c, w.file, heads) && (Publishes(w, ev) ==> OnHead(c, w.file, w.worker.at))
  {
    StepExtends(c, w, ev);
    if Publishes(w, ev) {
      PublishOneMore(c, w, heads);
    } else {
      HeadStays(c, w, ev);
      ReachStays(c, w.cfg, w.file, g, heads);
    }
  }

  /** Exactly when everything was published in order, the index blocks reachable from the head
      are all those ever published. */
  lemma {:induction false} ReachesAllIffInOrder(c: Codec, w: World, before: seq<nat>, evs: seq<Event>)
    requires Lawful(c) && ChainsOk(c, w) && Tags(w) && Reach(c, w.file, before) && |Run(c, w, evs).file| < TWO_64
    ensures TopIsHead(Run(c, w, evs).file, Heads(c, w, before, evs))
    ensures Reach(c, Run(c, w, evs).file, Heads(c, w, before, evs)) <==> InOrder(c, w, evs)
    decreases |evs|
  {
    if evs == [] {
      TopOfReach(c, w.file, before);
    } else {
      var k := |evs| - 1;
      var v := Run(c, w, evs[..k]);
      StepExtends(c, v, evs[k]);
      ReachesAllIffInOrder(c, w, before, evs[..k]);
      RunChains(c, w, evs[..k]);
      StepReaches(c, v, Run(c, w, evs).file, Heads(c, w, before, evs[..k]), Heads(c, w, before, evs), evs[k]);
    }
  }

  // ---- flushes that find nothing in flight ----

  /** At most the newest queued batch is of the current epoch; then nothing is being
      published, and it was built on the present head. */
  ghost predicate NewestOnly(queue: seq<FlushBatch>, epoch: nat, head: nat, publishing: bool) {
    forall j :: 0 <= j < |queue| && queue[j].epoch == epoch ==> j == |queue| - 1 && !publishing && queue[j].prev == head
  }

  predicate Publishing(w: World) {
    MidPublish(w) || (w.worker.Written? && w.worker.batch.epoch == Epoch(w.file))
  }

  /** At most one batch is going to be published, and it was built on the present head. */
  ghost predicate OneLive(c: Codec, w: World) {
    && NewestOnly(w.queue, Epoch(w.file), Head(w.file), Publishing(w))
    && (Publishing(w) ==> OnHead(c, w.file, Unpublished(w.worker).value))
  }

  /** Every call that hands over a batch finds nothing live, and the epoch does not wrap. */
  ghost predicate FlushesFenced(c: Codec, w: World, evs: seq<Event>)
    decreases |evs|
  {
    evs == [] ||
    var k := |evs| - 1;
    var v := Run(c, w, evs[..k]);
    && FlushesFenced(c, w, evs[..k]) && Epoch(v.file) + 1 < TWO_64
    && (HandsOver(v, evs[k]) ==> Fenced(v))
  }

  /** A flush of buffered tokens, or an append that fills the block. */
  predicate HandsOver(w: World, ev: Event) {
    && w.truncation.None?
    && match ev
       case FlushPending => w.columns[0].tokenCount > 0
       case Append(frame) => |frame| == w.cfg.Stride() && w.columns[0].tokenCount + 1 == BLOCK_TOKEN_COUNT
       case _ => false
  }

  lemma OnHeadStays(c: Codec, f: seq<byte>, g: seq<byte>, at: nat)
    requires OnHead(c, f, at) && Extends(f, g) && |g| >= HEADER_SIZE && Head(g) == Head(f)
    ensures OnHead(c, g, at)
  {
    LinkStays(c, f, g, at);
  }

  lemma PopNewest(queue: seq<FlushBatch>, epoch: nat, head: nat)
    requires queue != [] && NewestOnly(queue, epoch, head, false)
    ensures NewestOnly(queue[1..], epoch, head, queue[0].epoch == epoch)
    ensures queue[0].epoch == epoch ==> queue[0].prev == head
  {
  }

  lemma OneLiveWrite(c: Codec, w: World)
    requires Lawful(c) && ChainsOk(c, w) && OneLive(c, w) && w.worker.Idle? && w.queue != []
    requires |AppendBatch(c, w.file, w.queue[0])| < TWO_64
    ensures OneLive(c, WorkerStep(c, w))
  {
    PopNewest(w.queue, Epoch(w.file), Head(w.file));
    AppendedLink(w.cfg, c, w.file, w.queue[0]);
    assert Epoch(AppendBatch(c, w.file, w.queue[0])) == Epoch(w.file);
  }

  lemma OneLiveWorker(c: Codec, w: World)
    requires Lawful(c) && ChainsOk(c, w) && OneLive(c, w) && |WorkerStep(c, w).file| < TWO_64
    ensures OneLive(c, WorkerStep(c, w))
  {
    var v := WorkerStep(c, w);
    if w.worker.Idle? {
      if w.queue != [] { OneLiveWrite(c, w); }
    } else if w.worker.Loaded? {
      OnHeadStays(c, w.file, v.file, w.worker.at);
    }
  }

  lemma OneLiveFlush(c: Codec, w: World)
    requires OneLive(c, w) && (w.columns[0].tokenCount > 0 ==> Fenced(w))
    ensures OneLive(c, FlushBlock(w))
  {
    if w.columns[0].tokenCount > 0 { assert BatchOf(w).prev == Head(w.file); }
  }

  lemma OneLiveAppend(c: Codec, w: World, frame: seq<byte>)
    requires OneLive(c, w) && |frame| == w.cfg.Stride()
    requires w.columns[0].tokenCount + 1 == BLOCK_TOKEN_COUNT ==> Fenced(w)
    ensures OneLive(c, AppendFrame(w, frame))
  {
    var v := Buffered(w, frame);
    assert OneLive(c, v);
    if v.columns[0].tokenCount == BLOCK_TOKEN_COUNT { OneLiveFlush(c, v); }
  }

  lemma OneLiveBump(c: Codec, w: World, count: u64)
    requires OneLive(c, w) && EpochsOk(w) && count <= w.localCount && Epoch(w.file) + 1 < TWO_64
    ensures OneLive(c, TruncateBegin(w, count))
  {
    var v := TruncateBegin(w, count);
    if MidPublish(w) { OnHeadStays(c, w.file, v.file, Unpublished(w.worker).value); }
  }

  lemma OneLiveEnd(c: Codec, w: World)
    requires OneLive(c, w)
    ensures OneLive(c, TruncateRest(w))
  {
    if Publishing(w) { OnHeadStays(c, w.file, TruncateRest(w).file, Unpublished(w.worker).value); }
  }

  lemma OneLiveCall(c: Codec, w: World, ev: Event)
    requires OneLive(c, w) && EpochsOk(w) && Epoch(w.file) + 1 < TWO_64 && (HandsOver(w, ev) ==> Fenced(w))
    requires !ev.WorkerMoves?
    ensures OneLive(c, Step(c, w, ev))
  {
    match ev
    case Append(frame) => if w.truncation.None? && |frame| == w.cfg.Stride() { OneLiveAppend(c, w, frame); }
    case FlushPending => if w.truncation.None? { OneLiveFlush(c, w); }
    case BeginTruncate(count) => if w.truncation.None? && count <= w.localCount { OneLiveBump(c, w, count); }
    case EndTruncate => OneLiveEnd(c, w);
  }

  lemma OneLiveStep(c: Codec, w: World, v: World, ev: Event)
    requires Lawful(c) && ChainsOk(c, w) && OneLive(c, w) && EpochsOk(w) && Epoch(w.file) + 1 < TWO_64
    requires v == Step(c, w, ev) && |v.file| < TWO_64 && (HandsOver(w, ev) ==> Fenced(w))
    ensures OneLive(c, v) && EpochsOk(v)
    ensures Publishes(w, ev) ==> OnHead(c, w.file, w.worker.at)
  {
    StepEpochs(c, w, ev);
    if ev.WorkerMoves? { OneLiveWorker(c, w); } else { OneLiveCall(c, w, ev); }
  }

  lemma {:induction false} FencedRun(c: Codec, w: World, evs: seq<Event>)
    requires Lawful(c) && ChainsOk(c, w) && Tags(w) && EpochsOk(w) && OneLive(c, w)
    requires FlushesFenced(c, w, evs) && |Run(c, w, evs).file| < TWO_64
    ensures OneLive(c, Run(c, w, evs)) && EpochsOk(Run(c, w, evs)) && InOrder(c, w, evs)
    decreases |evs|
  {
    if evs != [] {
      var k := |evs| - 1;
      var v := Run(c, w, evs[..k]);
      StepExtends(c, v, evs[k]);
      FencedRun(c, w, evs[..k]);
      RunChains(c, w, evs[..k]);
      OneLiveStep(c, v, Run(c, w, evs), evs[k]);
    }
  }

  /** If every flush finds nothing live, then after any run, truncates and rollbacks included,
      the trailers reachable from the head are exactly those ever published, newest first. */
  lemma FencedFlushesReachAll(c: Codec, w: World, before: seq<nat>, evs: seq<Event>)
    requires Lawful(c) && ChainsOk(c, w) && Tags(w) && EpochsOk(w) && Quiet(w) && Reach(c, w.file, before)
    requires FlushesFenced(c, w, evs) && |Run(c, w, evs).file| < TWO_64
    ensures Reach(c, Run(c, w, evs).file, Heads(c, w, before, evs))
  {
    FencedRun(c, w, evs);
    ReachesAllIffInOrder(c, w, before, evs);
  }

  /** The guards of a session include this one. */
  lemma {:induction false} GuardedFlushesFenced(c: Codec, w: World, evs: seq<Event>)
    requires WellUsed(c, w, evs)
    ensures FlushesFenced(c, w, evs)
    decreases |evs|
  {
    if evs != [] {
      var k := |evs| - 1;
      GuardedFlushesFenced(c, w, evs[..k]);
      if HandsOver(Run(c, w, evs[..k]), evs[k]) { QuietHandOver(Run(c, w, evs[..k]), evs[k]); }
    }
  }

  lemma QuietHandOver(w: World, ev: Event)
    requires Allowed(w, ev) && HandsOver(w, ev)
    ensures Fenced(w)
  {
  }
}
