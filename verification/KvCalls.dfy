/** What append_frame and flush_pending do to every writer, in whatever state. */
module KvCalls {
  import opened Bytes
  import opened KvHeader
  import opened KvIndex
  import opened KvProtocol

  /** Everything but the buffers, the queue and the counters is left alone. */
  ghost predicate SameBut(w: World, v: World) {
    v.cfg == w.cfg && v.file == w.file && v.worker == w.worker && v.truncation == w.truncation && |v.columns| == |w.columns|
  }

  /** Column b is column a with one token behind. */
  ghost predicate OneMore(a: Column, b: Column, token: seq<byte>) {
    && b.layer == a.layer && b.head == a.head && b.blockIdx == a.blockIdx && b.existingTokens == a.existingTokens
    && b.tokenCount == a.tokenCount + 1 && b.data == a.data + token
  }

  /** Column b is column a, emptied and moved on to the next block. */
  ghost predicate MovedOn(a: Column, b: Column) {
    && b.layer == a.layer && b.head == a.head && b.blockIdx == (a.blockIdx + 1) % 0x1_0000_0000_0000_0000
    && b.tokenCount == 0 && b.existingTokens == 0 && b.data == []
  }

  /** Batch b takes the pending block of w out of buffers with this count and these bytes. */
  ghost predicate TakenFrom(w: World, b: FlushBatch, count: nat, datas: seq<seq<byte>>) {
    && b.blockIdx == w.pendingBlock && b.epoch == Epoch(w.file) && b.prev == Head(w.file)
    && b.tokenCount == count && b.existingTokens == w.columns[0].existingTokens
    && b.payloads == datas && |b.entries| == |w.columns| == |datas|
    && forall i :: 0 <= i < |w.columns| ==>
         && b.entries[i].chunkId == (w.nextChunkId + i) % 0x1_0000_0000_0000_0000
         && b.entries[i].layer == w.columns[i].layer && b.entries[i].head == w.columns[i].head
         && b.entries[i].blockIdx == w.columns[i].blockIdx && b.entries[i].tokenCount == count
  }

  ghost predicate HandedOver(w: World, v: World, count: nat, datas: seq<seq<byte>>) {
    && |v.queue| == |w.queue| + 1 && v.queue[..|w.queue|] == w.queue && TakenFrom(w, v.queue[|w.queue|], count, datas)
    && v.nextChunkId == (w.nextChunkId + |w.columns|) % 0x1_0000_0000_0000_0000
    && v.pendingBlock == (w.pendingBlock + 1) % 0x1_0000_0000_0000_0000
    && |v.columns| == |w.columns| && forall i :: 0 <= i < |w.columns| ==> MovedOn(w.columns[i], v.columns[i])
  }

  ghost function Datas(cols: seq<Column>): seq<seq<byte>> {
    seq(|cols|, i requires 0 <= i < |cols| => cols[i].data)
  }

  lemma BatchTaken(w: World)
    ensures TakenFrom(w, BatchOf(w), w.columns[0].tokenCount, Datas(w.columns))
  {
    forall i | 0 <= i < |w.columns|
      ensures BatchOf(w).entries[i].chunkId == (w.nextChunkId + i) % 0x1_0000_0000_0000_0000
    {
      WrapIsMod(w.nextChunkId, i);
    }
  }

  /** flush_pending: with nothing buffered, nothing; otherwise exactly what is buffered is handed
      over, whatever is in flight. */
  lemma FlushAnswers(w: World)
    ensures w.columns[0].tokenCount == 0 ==> FlushBlock(w) == w
    ensures w.columns[0].tokenCount > 0 ==>
      var v := FlushBlock(w);
      SameBut(w, v) && v.localCount == w.localCount && HandedOver(w, v, w.columns[0].tokenCount, Datas(w.columns))
  {
    if w.columns[0].tokenCount > 0 {
      BatchTaken(w);
      WrapIsMod(w.nextChunkId, |w.columns|);
      WrapIsMod(w.pendingBlock, 1);
      forall i | 0 <= i < |w.columns| ensures MovedOn(w.columns[i], FlushBlock(w).columns[i]) {
        WrapIsMod(w.columns[i].blockIdx, 1);
      }
    }
  }

  /** Column i's bytes of the frame. */
  function Share(cfg: KvCacheConfig, frame: seq<byte>, i: nat): seq<byte>
    requires |frame| == cfg.layers * cfg.heads * cfg.elementBytes && i < cfg.layers * cfg.heads
  {
    MulLe(i + 1, cfg.layers * cfg.heads, cfg.elementBytes);
    frame[i * cfg.elementBytes..][..cfg.elementBytes]
  }

  ghost function Longer(w: World, frame: seq<byte>): seq<seq<byte>>
    requires |frame| == w.cfg.layers * w.cfg.heads * w.cfg.elementBytes
  {
    seq(|w.columns|, i requires 0 <= i < |w.columns| => w.columns[i].data + Share(w.cfg, frame, i))
  }

  ghost predicate Dealt(w: World, v: World, frame: seq<byte>)
    requires |frame| == w.cfg.layers * w.cfg.heads * w.cfg.elementBytes
  {
    && |v.columns| == |w.columns|
    && forall i :: 0 <= i < |w.columns| ==> OneMore(w.columns[i], v.columns[i], Share(w.cfg, frame, i))
  }

  lemma ShareIsCell(cfg: KvCacheConfig, frame: seq<byte>, i: nat)
    requires |frame| == cfg.Stride() && i < cfg.Columns()
    ensures Share(cfg, frame, i) == Cell(cfg, frame, i)
  {
    assert (i + 1) * cfg.elementBytes == i * cfg.elementBytes + cfg.elementBytes;
    MulLe(i + 1, cfg.Columns(), cfg.elementBytes);
    SliceOfSlice(frame, i * cfg.elementBytes, |frame|, 0, cfg.elementBytes);
    assert frame[i * cfg.elementBytes..] == frame[i * cfg.elementBytes..|frame|];
  }

  lemma BufferedDeals(w: World, frame: seq<byte>)
    requires |frame| == w.cfg.Stride()
    ensures Dealt(w, Buffered(w, frame), frame) && Datas(Buffered(w, frame).columns) == Longer(w, frame)
  {
    forall i | 0 <= i < |w.columns| ensures Share(w.cfg, frame, i) == Cell(w.cfg, frame, i) {
      ShareIsCell(w.cfg, frame, i);
    }
  }

  ghost predicate HandedOverFrom(w: World, u: World, v: World, datas: seq<seq<byte>>) {
    HandedOver(u, v, 64, datas) && u == w.(columns := u.columns, localCount := u.localCount)
  }

  /** append_frame: a frame of the wrong size changes nothing; any other adds each column its share and
      counts one token, saturating. The token that makes 64 hands the block over at once. */
  lemma AppendAnswers(w: World, frame: seq<byte>)
    ensures |frame| != w.cfg.layers * w.cfg.heads * w.cfg.elementBytes ==> AppendFrame(w, frame) == w
    ensures |frame| == w.cfg.layers * w.cfg.heads * w.cfg.elementBytes ==>
      var v := AppendFrame(w, frame);
      && SameBut(w, v) && v.localCount == Min(w.localCount + 1, 0xFFFF_FFFF_FFFF_FFFF)
      && if w.columns[0].tokenCount + 1 == 64 then
           exists u :: Dealt(w, u, frame) && HandedOverFrom(w, u, v, Longer(w, frame))
         else
           Dealt(w, v, frame) && v == w.(columns := v.columns, localCount := v.localCount)
  {
    if |frame| == w.cfg.Stride() {
      var u := Buffered(w, frame);
      BufferedDeals(w, frame);
      FlushAnswers(u);
      if w.columns[0].tokenCount + 1 == 64 { assert HandedOverFrom(w, u, AppendFrame(w, frame), Longer(w, frame)); }
    }
  }
}
