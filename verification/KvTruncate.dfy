/** What truncate answers, whatever is in flight and whatever the worker does meanwhile. */
module KvTruncate {
  import opened Bytes
  import opened KvHeader
  import opened KvIndex
  import opened KvProtocol
  import opened KvTokens

  /** b is column a with all but its first n tokens cut off. */
  ghost predicate CutTo(a: Column, b: Column, n: nat, elementBytes: nat) {
    && b.layer == a.layer && b.head == a.head && b.blockIdx == a.blockIdx && b.tokenCount == n
    && b.existingTokens == (if a.existingTokens <= n then a.existingTokens else n)
    && b.data <= a.data && |b.data| == if n * elementBytes <= |a.data| then n * elementBytes else |a.data|
  }

  ghost predicate AllCutTo(w: World, v: World, n: nat) {
    |v.columns| == |w.columns| && forall i :: 0 <= i < |w.columns| ==> CutTo(w.columns[i], v.columns[i], n, w.cfg.elementBytes)
  }

  /** The tokens a truncate wants to take out of the buffers, as the 32-bit number it uses. */
  function Unwanted(w: World, count: nat): nat
    requires count <= w.localCount
  {
    (w.localCount - count) % 0x1_0000_0000
  }

  lemma CutColumn(a: Column, b: Column, n: nat, elementBytes: nat, room: nat)
    requires room == n * elementBytes && b == TrimColumn(a, n, elementBytes)
    ensures CutTo(a, b, n, elementBytes)
  {
  }

  lemma CutColumns(w: World, n: nat, count: nat)
    ensures AllCutTo(w, TrimBuffers(w, n, count), n)
  {
    forall i | 0 <= i < |w.columns| ensures CutTo(w.columns[i], TrimBuffers(w, n, count).columns[i], n, w.cfg.elementBytes) {
      CutColumn(w.columns[i], TrimBuffers(w, n, count).columns[i], n, w.cfg.elementBytes, n * w.cfg.elementBytes);
    }
  }

  /** The second half, above the committed count: it succeeds if and only if the unwanted tokens,
      cut to 32 bits, are all still buffered; then the buffers lose exactly these and the local
      count is the one asked for. Otherwise it reports the overflow and changes nothing. */
  lemma TrimsIffBuffered(w: World, count: u64)
    requires w.truncation == Some(count) && Valid(w.file) < count <= w.localCount
    ensures TruncateEnd(w).Ok? <==> Unwanted(w, count) <= w.columns[0].tokenCount
    ensures TruncateEnd(w).Err? ==> TruncateEnd(w) == Err(Overflow) && TruncateRest(w) == w.(truncation := None)
    ensures TruncateEnd(w).Ok? ==>
      var v := TruncateRest(w);
      && TruncateEnd(w) == Ok(v) && v == w.(truncation := None, localCount := count, columns := v.columns)
      && AllCutTo(w, v, w.columns[0].tokenCount - Unwanted(w, count))
  {
    if Unwanted(w, count) <= w.columns[0].tokenCount {
      CutColumns(w, w.columns[0].tokenCount - Unwanted(w, count), count);
    }
  }

  /** The second half, at or below the committed count: that count is lowered and nothing else. */
  lemma LowersCount(w: World, count: u64)
    requires w.truncation == Some(count) && count <= Valid(w.file)
    ensures TruncateEnd(w).Ok?
    ensures var v := TruncateRest(w);
      && TruncateEnd(w) == Ok(v) && v == w.(truncation := None, localCount := count, file := v.file)
      && |v.file| == |w.file| && Valid(v.file) == count && Epoch(v.file) == Epoch(w.file) && Head(v.file) == Head(w.file)
  {
  }

  lemma {:induction false} TurnsKeep(c: Codec, w: World, k: nat)
    ensures var v := WorkerSteps(c, w, k);
      v == w.(file := v.file, queue := v.queue, worker := v.worker) && Epoch(v.file) == Epoch(w.file)
    decreases k
  {
    if k > 0 {
      StepWorks(c, w);
      TurnKeepsEpoch(c, w);
      TurnsKeep(c, WorkerStep(c, w), k - 1);
    }
  }

  lemma TurnKeepsEpoch(c: Codec, w: World)
    ensures Epoch(WorkerStep(c, w).file) == Epoch(w.file)
  {
  }

  /** What the owner sees after truncate: the answer, the count, the buffers, the epoch. */
  ghost predicate Truncated(w: World, committed: nat, count: nat, r: KvResult<World>, v: World) {
    && v.truncation.None? && Epoch(v.file) == (Epoch(w.file) + 1) % 0x1_0000_0000_0000_0000
    && v.cfg == w.cfg && v.nextChunkId == w.nextChunkId && v.pendingBlock == w.pendingBlock
    && if count <= committed then
         r.Ok? && v.localCount == Valid(v.file) == count && v.columns == w.columns
       else if count <= w.localCount && Unwanted(w, count) <= w.columns[0].tokenCount then
         && r.Ok? && v.localCount == count && Valid(v.file) == committed
         && AllCutTo(w, v, w.columns[0].tokenCount - Unwanted(w, count))
       else
         r == Err(Overflow) && v.localCount == w.localCount && v.columns == w.columns && Valid(v.file) == committed
  }

  lemma SecondHalfAnswers(w: World, u: World, count: u64)
    requires count <= w.localCount && Epoch(u.file) == (Epoch(w.file) + 1) % 0x1_0000_0000_0000_0000
    requires u == w.(file := u.file, queue := u.queue, worker := u.worker, truncation := Some(count))
    ensures Truncated(w, Valid(u.file), count, TruncateEnd(u), TruncateRest(u))
  {
    if count <= Valid(u.file) { LowersCount(u, count); } else { TrimsIffBuffered(u, count); }
  }

  lemma BumpAnswers(w: World, count: u64)
    requires w.truncation.None? && count <= w.localCount
    ensures var b := TruncateBegin(w, count);
      && b == w.(file := b.file, truncation := Some(count)) && |b.file| == |w.file|
      && Epoch(b.file) == (Epoch(w.file) + 1) % 0x1_0000_0000_0000_0000
      && Valid(b.file) == Valid(w.file) && Head(b.file) == Head(w.file)
  {
    WrapIsMod(Epoch(w.file), 1);
  }

  /** The whole call, with any number of worker steps between its halves: out of range it does
      nothing; otherwise the epoch moves on, and the committed count found after these steps
      decides between lowering it, trimming the buffers, and the overflow. */
  lemma TruncateAnswers(c: Codec, w: World, count: u64, turns: nat)
    requires w.truncation.None?
    ensures count > w.localCount ==> TruncateBegin(w, count) == w
    ensures count <= w.localCount ==>
      var u := WorkerSteps(c, TruncateBegin(w, count), turns);
      Truncated(w, Valid(u.file), count, TruncateEnd(u), TruncateRest(u))
  {
    if count <= w.localCount {
      var b := TruncateBegin(w, count);
      BumpAnswers(w, count);
      TurnsKeep(c, b, turns);
      SecondHalfAnswers(w, WorkerSteps(c, b, turns), count);
    }
  }

  /** A rollback that falls between the worker's load of the count and its store is undone by the store,
      which adds to the count that was loaded: the count ends where it would have without the rollback. */
  lemma StaleStoreUndoesRollback(c: Codec, w: World, count: u64)
    requires w.worker.Loaded? && w.truncation.None? && count <= w.localCount && count <= Valid(w.file)
    ensures var v := TruncateRest(TruncateBegin(w, count));
      && v.worker == w.worker && Valid(v.file) == count && v.localCount == count
      && Valid(WorkerStep(c, v).file) == Valid(WorkerStep(c, w).file)
      && Valid(WorkerStep(c, v).file) ==
           Min(w.worker.seen + SatSub(w.worker.batch.tokenCount, w.worker.batch.existingTokens), 0xFFFF_FFFF_FFFF_FFFF)
  {
    BumpAnswers(w, count);
    LowersCount(TruncateBegin(w, count), count);
  }
}
