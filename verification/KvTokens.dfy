/** The epoch fence, and the conservation of tokens over every interleaving. */
module KvTokens {
  import opened Bytes
  import opened KvHeader
  import opened KvIndex
  import opened KvProtocol
  import opened KvChains

  // ---- the epoch fence ----

  /** Nothing carries an epoch from the future. */
  ghost predicate EpochsOk(w: World) {
    && (forall j :: 0 <= j < |w.queue| ==> w.queue[j].epoch <= Epoch(w.file))
    && (w.worker.Written? ==> w.worker.batch.epoch <= Epoch(w.file))
  }

  lemma FlushEpochs(w: World)
    requires EpochsOk(w)
    ensures EpochsOk(FlushBlock(w))
  {
  }

  lemma WorkerEpochs(c: Codec, w: World)
    requires EpochsOk(w)
    ensures EpochsOk(WorkerStep(c, w))
  {
  }

  lemma AppendEpochs(w: World, frame: seq<byte>)
    requires EpochsOk(w)
    ensures EpochsOk(AppendFrame(w, frame))
  {
    if |frame| == w.cfg.Stride() { FlushEpochs(Buffered(w, frame)); }
  }

  lemma TruncateEpochs(c: Codec, w: World, ev: Event)
    requires EpochsOk(w) && Epoch(w.file) + 1 < TWO_64 && (ev.BeginTruncate? || ev.EndTruncate?)
    ensures EpochsOk(Step(c, w, ev))
  {
    var v := Step(c, w, ev);
    assert v.queue == w.queue && v.worker == w.worker && Epoch(v.file) >= Epoch(w.file);
  }

  lemma StepEpochs(c: Codec, w: World, ev: Event)
    requires EpochsOk(w) && Epoch(w.file) + 1 < TWO_64
    ensures EpochsOk(Step(c, w, ev))
  {
    match ev
    case WorkerMoves => WorkerEpochs(c, w);
    case Append(frame) => AppendEpochs(w, frame);
    case FlushPending => FlushEpochs(w);
    case _ => TruncateEpochs(c, w, ev);
  }

  /** The worker is between its epoch check and its last store. */
  predicate MidPublish(w: World) {
    w.worker.Cleared? || w.worker.Loaded? || w.worker.Counted?
  }

  /** Whatever is queued or written carries an outdated epoch. */
  ghost predicate Fenced(w: World) {
    && (forall j :: 0 <= j < |w.queue| ==> w.queue[j].epoch != Epoch(w.file))
    && (w.worker.Idle? || (w.worker.Written? && w.worker.batch.epoch != Epoch(w.file)))
  }

  function WorkerSteps(c: Codec, w: World, k: nat): World
    decreases k
  {
    if k == 0 then w else WorkerSteps(c, WorkerStep(c, w), k - 1)
  }

  /** w and v agree on everything but the appended bytes, the queue and the worker. */
  ghost predicate SamePublished(w: World, v: World) {
    && Extends(w.file, v.file)
    && Epoch(v.file) == Epoch(w.file) && Valid(v.file) == Valid(w.file) && Head(v.file) == Head(w.file)
    && v == w.(file := v.file, queue := v.queue, worker := v.worker)
  }

  lemma FencedStep(c: Codec, w: World)
    requires Fenced(w)
    ensures Fenced(WorkerStep(c, w)) && SamePublished(w, WorkerStep(c, w))
  {
  }

  lemma {:induction false} FencedSteps(c: Codec, w: World, k: nat)
    requires Fenced(w)
    ensures Fenced(WorkerSteps(c, w, k)) && SamePublished(w, WorkerSteps(c, w, k))
    decreases k
  {
    if k > 0 {
      FencedStep(c, w);
      FencedSteps(c, WorkerStep(c, w), k - 1);
    }
  }

  lemma {:induction false} FencedSettle(c: Codec, w: World)
    requires Fenced(w)
    ensures Fenced(Settle(c, w)) && SamePublished(w, Settle(c, w))
    decreases Work(w)
  {
    if !Quiet(w) {
      FencedStep(c, w);
      FencedSettle(c, WorkerStep(c, w));
    }
  }

  lemma BumpFences(w: World, count: u64)
    requires EpochsOk(w) && count <= w.localCount && Epoch(w.file) + 1 < TWO_64 && !MidPublish(w)
    ensures Fenced(TruncateBegin(w, count))
    ensures var v := TruncateBegin(w, count);
      Valid(v.file) == Valid(w.file) && Head(v.file) == Head(w.file) && Extends(w.file, v.file)
  {
  }

  ghost predicate FenceHolds(c: Codec, w: World) {
    forall k: nat :: var v := WorkerSteps(c, w, k);
      Valid(v.file) == Valid(w.file) && Head(v.file) == Head(w.file)
  }

  lemma MidStep(c: Codec, w: World)
    requires MidPublish(w) && Unpublished(w.worker).value < TWO_64
    ensures var v := WorkerStep(c, w);
      if w.worker.Counted? then Head(v.file) == Unpublished(w.worker).value
      else MidPublish(v) && Unpublished(v.worker) == Unpublished(w.worker) && Work(v) < Work(w)
  {
    if w.worker.Counted? { assert w.worker.at % TWO_64 == w.worker.at; }
  }

  lemma OneMoreStep(c: Codec, w: World, k: nat)
    ensures WorkerSteps(c, w, k + 1) == WorkerSteps(c, WorkerStep(c, w), k)
  {
  }

  /** Once the check has passed, the stale trailer becomes the head within three steps. */
  lemma {:induction false} MidPublishLeaks(c: Codec, w: World) returns (k: nat)
    requires MidPublish(w) && Unpublished(w.worker).value < TWO_64
    ensures Head(WorkerSteps(c, w, k).file) == Unpublished(w.worker).value
    decreases Work(w)
  {
    var j := 0;
    MidStep(c, w);
    if !w.worker.Counted? { j := MidPublishLeaks(c, WorkerStep(c, w)); }
    OneMoreStep(c, w, j);
    k := j + 1;
  }

  /** The fence, exactly: after truncate's epoch bump no worker schedule changes the valid
      count or the head, if and only if the bump did not land between the worker's epoch
      check and its stores. */
  lemma EpochFence(c: Codec, w: World, count: u64)
    requires EpochsOk(w) && ChainsOk(c, w) && count <= w.localCount && Epoch(w.file) + 1 < TWO_64
    requires |w.file| < TWO_64
    ensures FenceHolds(c, TruncateBegin(w, count)) <==> !MidPublish(w)
  {
    var v := TruncateBegin(w, count);
    assert Head(v.file) == Head(w.file) && v.worker == w.worker;
    if MidPublish(w) {
      var k := MidPublishLeaks(c, v);
    } else {
      BumpFences(w, count);
      forall k: nat ensures var u := WorkerSteps(c, v, k); Valid(u.file) == Valid(v.file) && Head(u.file) == Head(v.file) {
        FencedSteps(c, v, k);
      }
    }
  }

  lemma EndIgnoresFenced(c: Codec, v: World, x: World)
    requires Fenced(x) && SamePublished(v, x)
    ensures var a, b := Step(c, v, EndTruncate), Step(c, x, EndTruncate);
      Fenced(b) && SamePublished(a, a.(file := b.file, queue := b.queue, worker := b.worker))
      && b == a.(file := b.file, queue := b.queue, worker := b.worker)
  {
  }

  /** Worker steps may fall anywhere inside and after a truncate: the published state and
      the writer's buffers come out as if the truncate had run alone. */
  lemma TruncateThenDrain(c: Codec, w: World, count: u64, j: nat)
    requires EpochsOk(w) && count <= w.localCount && Epoch(w.file) + 1 < TWO_64 && !MidPublish(w)
    ensures var alone := Step(c, TruncateBegin(w, count), EndTruncate);
      var mixed := Settle(c, Step(c, WorkerSteps(c, TruncateBegin(w, count), j), EndTruncate));
      Quiet(mixed) && SamePublished(alone, mixed)
  {
    BumpFences(w, count);
    var v := TruncateBegin(w, count);
    FencedSteps(c, v, j);
    EndIgnoresFenced(c, v, WorkerSteps(c, v, j));
    FencedSettle(c, Step(c, WorkerSteps(c, v, j), EndTruncate));
  }

  // ---- conservation ----

  function Adds(b: FlushBatch): nat { SatSub(b.tokenCount, b.existingTokens) }

  function QueuedTokens(q: seq<FlushBatch>, epoch: nat): nat {
    if q == [] then 0
    else QueuedTokens(q[..|q| - 1], epoch) + if q[|q| - 1].epoch == epoch then Adds(q[|q| - 1]) else 0
  }

  /** Tokens handed to the worker that it will still add to the valid count. */
  function Promised(w: World): nat {
    QueuedTokens(w.queue, Epoch(w.file)) +
    match w.worker
    case Written(b, _) => if b.epoch == Epoch(w.file) then Adds(b) else 0
    case Cleared(b, _) => Adds(b)
    case Loaded(b, _, _) => Adds(b)
    case _ => 0
  }

  function Unflushed(w: World): nat {
    SatSub(w.columns[0].tokenCount, w.columns[0].existingTokens)
  }

  /** Every token appended is published, promised or buffered, and counted once. */
  ghost predicate Conserved(w: World) {
    && (w.worker.Loaded? ==> w.worker.seen == Valid(w.file))
    && Valid(w.file) + Promised(w) + Unflushed(w) == w.localCount
  }

  lemma {:induction false} PopTokens(q: seq<FlushBatch>, epoch: nat)
    requires q != []
    ensures QueuedTokens(q, epoch) == (if q[0].epoch == epoch then Adds(q[0]) else 0) + QueuedTokens(q[1..], epoch)
  {
    if |q| > 1 {
      PopTokens(q[..|q| - 1], epoch);
      assert q[1..][..|q| - 2] == q[..|q| - 1][1..];
    }
  }

  lemma {:induction false} FencedTokens(q: seq<FlushBatch>, epoch: nat)
    requires forall j :: 0 <= j < |q| ==> q[j].epoch != epoch
    ensures QueuedTokens(q, epoch) == 0
  {
    if q != [] { FencedTokens(q[..|q| - 1], epoch); }
  }

  lemma WorkerConserves(c: Codec, w: World)
    requires Conserved(w) && w.localCount < TWO_64
    ensures Conserved(WorkerStep(c, w))
  {
    if w.worker.Idle? && w.queue != [] { PopTokens(w.queue, Epoch(w.file)); }
  }

  lemma FlushConserves(w: World)
    requires Conserved(w)
    ensures Conserved(FlushBlock(w))
  {
    if w.columns[0].tokenCount != 0 {
      assert FlushBlock(w).queue[..|w.queue|] == w.queue;
    }
  }

  lemma AppendConserves(w: World, frame: seq<byte>)
    requires Conserved(w) && w.columns[0].existingTokens <= w.columns[0].tokenCount && w.localCount + 1 < TWO_64
    ensures Conserved(AppendFrame(w, frame))
  {
    if |frame| == w.cfg.Stride() { FlushConserves(Buffered(w, frame)); }
  }

  /** When truncate may be called without losing or inventing tokens. */
  ghost predicate TruncateSafe(w: World, count: nat) {
    if count > Valid(w.file) then Promised(w) == 0 else Unflushed(w) == 0
  }

  /** The worker has passed its epoch check and has not stored the count yet. */
  predicate MidCount(w: World) { w.worker.Cleared? || w.worker.Loaded? }

  /** Nothing in flight will be added to the count any more. */
  ghost predicate NothingCounts(w: World) {
    && (forall j :: 0 <= j < |w.queue| ==> w.queue[j].epoch != Epoch(w.file))
    && !MidCount(w) && (w.worker.Written? ==> w.worker.batch.epoch != Epoch(w.file))
  }

  /** Between the two halves of a truncate. */
  ghost predicate Midway(w: World) {
    && w.truncation.Some? && w.truncation.value <= w.localCount
    && NothingCounts(w)
    && if w.truncation.value <= Valid(w.file) then Unflushed(w) == 0
       else Valid(w.file) + Unflushed(w) == w.localCount
  }

  ghost predicate Accounted(w: World) {
    if w.truncation.None? then Conserved(w) else Midway(w)
  }

  lemma TrimmedData(w: World, kept: nat, count: nat)
    requires Lockstep(w) && w.columns[0].existingTokens <= kept <= w.columns[0].tokenCount
    ensures var v := TrimBuffers(w, kept, count);
      forall i :: 0 <= i < |v.columns| ==>
        && kept * w.cfg.elementBytes <= |w.columns[i].data|
        && v.columns[i] == w.columns[i].(tokenCount := kept, data := w.columns[i].data[..kept * w.cfg.elementBytes])
  {
    var n := w.columns[0].tokenCount;
    MulLe(kept, n, w.cfg.elementBytes);
    forall i | 0 <= i < |w.columns|
      ensures kept * w.cfg.elementBytes <= |w.columns[i].data| && w.columns[i].existingTokens <= kept
    {
      assert InStep(w.cfg, w.columns[i], i, w.pendingBlock, n, w.columns[0].existingTokens);
    }
  }

  /** Truncating pending tokens: no checked subtraction fails, exactly the unwanted tokens
      leave the buffers, and the reloaded ones stay. */
  lemma TrimIsExact(w: World)
    requires Tags(w) && w.truncation.Some?
    requires Valid(w.file) < w.truncation.value <= w.localCount
    requires Valid(w.file) + Unflushed(w) == w.localCount
    ensures var count := w.truncation.value; var kept := w.columns[0].tokenCount - (w.localCount - count);
      && w.columns[0].existingTokens < kept
      && TruncateEnd(w) == Ok(TrimBuffers(w, kept, count))
      && TrimBuffers(w, kept, count).columns[0].existingTokens == w.columns[0].existingTokens
  {
    var drop := w.localCount - w.truncation.value;
    assert 0 <= drop < w.columns[0].tokenCount && drop % TWO_32 == drop;
  }

  lemma EndConserves(w: World)
    requires Tags(w) && Midway(w)
    ensures TruncateEnd(w).Ok? && Conserved(TruncateEnd(w).value)
  {
    FencedTokens(w.queue, Epoch(w.file));
    if w.truncation.value > Valid(w.file) {
      TrimIsExact(w);
      assert TruncateEnd(w).value.columns[0].tokenCount == w.columns[0].tokenCount - (w.localCount - w.truncation.value);
    }
  }

  /** The epoch bump stops everything in flight, unless it is past its check. */
  lemma BumpStops(w: World, v: World, count: u64)
    requires EpochsOk(w) && Epoch(w.file) + 1 < TWO_64 && !MidCount(w) && count <= w.localCount && v == TruncateBegin(w, count)
    ensures NothingCounts(v) && Promised(v) == 0
    ensures v == w.(file := v.file, truncation := Some(count)) && Valid(v.file) == Valid(w.file)
  {
    FencedTokens(w.queue, Epoch(w.file) + 1);
  }

  lemma BeginConserves(w: World, count: u64)
    requires Conserved(w) && w.truncation.None? && EpochsOk(w) && Epoch(w.file) + 1 < TWO_64 && !MidCount(w)
    requires count <= w.localCount && TruncateSafe(w, count)
    ensures Midway(TruncateBegin(w, count))
  {
    BumpStops(w, TruncateBegin(w, count), count);
  }

  /** The only assumption on the schedule: truncate is called when it is safe. */
  ghost predicate TruncatesSafely(c: Codec, w: World, evs: seq<Event>)
    decreases |evs|
  {
    evs == [] ||
    var k := |evs| - 1;
    var v := Run(c, w, evs[..k]);
    && TruncatesSafely(c, w, evs[..k])
    && v.localCount + 1 < TWO_64 && Epoch(v.file) + 1 < TWO_64
    && (evs[k].BeginTruncate? && v.truncation.None? && evs[k].count <= v.localCount ==>
          !MidCount(v) && TruncateSafe(v, evs[k].count))
  }

  lemma StoppedStep(c: Codec, w: World)
    requires NothingCounts(w)
    ensures var v := WorkerStep(c, w);
      && NothingCounts(v) && Valid(v.file) == Valid(w.file)
      && v == w.(file := v.file, queue := v.queue, worker := v.worker)
  {
  }

  lemma StepAccounts(c: Codec, w: World, ev: Event)
    requires Accounted(w) && Tags(w) && EpochsOk(w)
    requires w.localCount + 1 < TWO_64 && Epoch(w.file) + 1 < TWO_64
    requires ev.BeginTruncate? && w.truncation.None? && ev.count <= w.localCount ==>
      !MidCount(w) && TruncateSafe(w, ev.count)
    ensures Accounted(Step(c, w, ev))
  {
    match ev
    case WorkerMoves => if w.truncation.None? { WorkerConserves(c, w); } else { StoppedStep(c, w); }
    case Append(frame) => if w.truncation.None? { AppendConserves(w, frame); }
    case FlushPending => if w.truncation.None? { FlushConserves(w); }
    case BeginTruncate(count) =>
      if w.truncation.None? && count <= w.localCount { BeginConserves(w, count); }
    case EndTruncate => if w.truncation.Some? { EndConserves(w); }
  }

  /** valid + promised + buffered == local count, over every interleaving; columns need not
      hold what their counts say, as they do not after a rollback inside a block. */
  lemma {:induction false} RunConserves(c: Codec, w: World, evs: seq<Event>)
    requires Accounted(w) && Tags(w) && EpochsOk(w) && TruncatesSafely(c, w, evs)
    ensures Accounted(Run(c, w, evs)) && Tags(Run(c, w, evs)) && EpochsOk(Run(c, w, evs))
    decreases |evs|
  {
    if evs != [] {
      var k := |evs| - 1;
      var v := Run(c, w, evs[..k]);
      RunConserves(c, w, evs[..k]);
      StepAccounts(c, v, evs[k]);
      StepTags(c, v, evs[k]);
      StepEpochs(c, v, evs[k]);
    }
  }

  lemma {:induction false} SettleConserves(c: Codec, w: World)
    requires Conserved(w) && w.localCount < TWO_64
    ensures Conserved(Settle(c, w)) && Settle(c, w).localCount == w.localCount && Settle(c, w).columns == w.columns
    decreases Work(w)
  {
    if !Quiet(w) {
      WorkerConserves(c, w);
      SettleConserves(c, WorkerStep(c, w));
    }
  }

  /** Hence closing publishes exactly the local count, whatever was still in flight. */
  lemma ClosePublishesAll(c: Codec, w: World)
    requires Conserved(w) && w.localCount < TWO_64
    ensures Valid(Close(c, w)) == w.localCount
  {
    FlushConserves(w);
    SettleConserves(c, FlushBlock(w));
  }

  /** Tokens are only ever promised by a flush, and a flush resets the buffers. */
  ghost predicate PromisedMeansReset(w: World) {
    Promised(w) > 0 ==> w.columns[0].existingTokens == 0
  }

  lemma WorkerPromises(c: Codec, w: World)
    ensures Promised(WorkerStep(c, w)) <= Promised(w) && WorkerStep(c, w).columns == w.columns
  {
    if w.worker.Idle? && w.queue != [] { PopTokens(w.queue, Epoch(w.file)); }
  }

  lemma FlushPromisesReset(w: World)
    requires PromisedMeansReset(w)
    ensures PromisedMeansReset(FlushBlock(w))
  {
  }

  lemma AppendPromisesReset(w: World, frame: seq<byte>)
    requires PromisedMeansReset(w)
    ensures PromisedMeansReset(AppendFrame(w, frame))
  {
    if |frame| == w.cfg.Stride() {
      assert Buffered(w, frame).columns[0].existingTokens == w.columns[0].existingTokens;
      FlushPromisesReset(Buffered(w, frame));
    }
  }

  lemma BumpShape(w: World, v: World, count: u64)
    requires Epoch(w.file) + 1 < TWO_64 && count <= w.localCount && v == TruncateBegin(w, count)
    ensures v == w.(file := v.file, truncation := Some(count)) && Epoch(v.file) == Epoch(w.file) + 1
  {
  }

  lemma BumpPromises(w: World, v: World, count: u64)
    requires EpochsOk(w) && Epoch(w.file) + 1 < TWO_64 && v == TruncateBegin(w, count)
    ensures Promised(v) <= Promised(w) && v.columns == w.columns
  {
    if count <= w.localCount {
      BumpShape(w, v, count);
      FencedTokens(w.queue, Epoch(v.file));
    }
  }

  lemma StepPromisesReset(c: Codec, w: World, ev: Event)
    requires PromisedMeansReset(w) && EpochsOk(w) && Epoch(w.file) + 1 < TWO_64
    ensures PromisedMeansReset(Step(c, w, ev))
  {
    match ev
    case WorkerMoves => WorkerPromises(c, w);
    case Append(frame) => AppendPromisesReset(w, frame);
    case FlushPending => FlushPromisesReset(w);
    case BeginTruncate(count) => BumpPromises(w, TruncateBegin(w, count), count);
    case EndTruncate => EndKeepsPromises(c, w);
  }

  lemma EndKeepsPromises(c: Codec, w: World)
    ensures var v := Step(c, w, EndTruncate);
      Promised(v) == Promised(w) && v.columns[0].existingTokens <= w.columns[0].existingTokens
  {
  }

  lemma {:induction false} RunPromisesReset(c: Codec, w: World, evs: seq<Event>)
    requires Accounted(w) && Tags(w) && EpochsOk(w) && PromisedMeansReset(w) && TruncatesSafely(c, w, evs)
    ensures PromisedMeansReset(Run(c, w, evs))
    decreases |evs|
  {
    if evs != [] {
      var k := |evs| - 1;
      RunPromisesReset(c, w, evs[..k]);
      RunConserves(c, w, evs[..k]);
      StepPromisesReset(c, Run(c, w, evs[..k]), evs[k]);
    }
  }

  /** Safety of truncate is exact: unless the worker is between its epoch check and its store
      of the count, and with fewer than 2^32 tokens in flight (the drop count is cut to 32
      bits), tokens are conserved across a truncate if and only if the call was safe. */
  lemma TruncateConservesIffSafe(c: Codec, w: World, count: u64)
    requires Conserved(w) && w.truncation.None? && Tags(w) && EpochsOk(w) && Epoch(w.file) + 1 < TWO_64
    requires !MidCount(w) && count <= w.localCount && Promised(w) < TWO_32
    requires PromisedMeansReset(w)
    ensures Conserved(Step(c, TruncateBegin(w, count), EndTruncate)) <==> TruncateSafe(w, count)
  {
    var v := TruncateBegin(w, count);
    BumpStops(w, v, count);
    if TruncateSafe(w, count) {
      BeginConserves(w, count);
      EndConserves(v);
    } else {
      UnsafeTruncateLoses(c, v, Promised(w));
    }
  }

  /** Dropping a number cut to 32 bits, while fewer than 2^32 but some tokens are in flight, never
      arrives at the count asked for. */
  lemma DropMisses(local: nat, count: nat, valid: nat, buffered: nat, lost: nat, drop: nat)
    requires valid + lost + buffered == local && count <= local && 0 < lost < TWO_32
    requires drop == (local - count) % TWO_32 && drop <= buffered
    ensures valid + (buffered - drop) != count
  {
    var q := (local - count) / TWO_32;
    assert local - count == TWO_32 * q + drop;
  }

  lemma TrimCounts(v: World, kept: nat, count: nat)
    requires v.columns[0].existingTokens == 0
    ensures var u := TrimBuffers(v, kept, count);
      Unflushed(u) == kept && Promised(u) == Promised(v) && Valid(u.file) == Valid(v.file) && u.localCount == count
  {
  }

  lemma UnsafeTruncateLoses(c: Codec, v: World, lost: nat)
    requires v.truncation.Some? && v.truncation.value <= v.localCount && Tags(v) && Promised(v) == 0
    requires Valid(v.file) + lost + Unflushed(v) == v.localCount && lost < TWO_32
    requires if v.truncation.value <= Valid(v.file) then Unflushed(v) > 0 else lost > 0 && v.columns[0].existingTokens == 0
    ensures !Conserved(Step(c, v, EndTruncate))
  {
    var count := v.truncation.value;
    if count > Valid(v.file) && TruncateEnd(v).Ok? {
      var drop := (v.localCount - count) % TWO_32;
      assert TruncateEnd(v) == Ok(TrimBuffers(v, v.columns[0].tokenCount - drop, count));
      TrimCounts(v, v.columns[0].tokenCount - drop, count);
      DropMisses(v.localCount, count, Valid(v.file), v.columns[0].tokenCount, lost, drop);
    }
  }
}
