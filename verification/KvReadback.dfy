/** Reading and reopening a file that stands for a log. */
module KvReadback {
  import opened Bytes
  import opened KvHeader
  import opened KvIndex
  import opened KvProtocol
  import opened KvReader
  import opened KvChains
  import opened KvTokens
  import opened KvLog
  import opened KvSession

  /** A well-formed file opens, and the reader's map is the newest-first search of its chain. */
  lemma ReaderOpens(c: Codec, cfg: KvCacheConfig, f: seq<byte>)
    requires ReadableFile(c, cfg, f)
    ensures WalkEnds(c, f, Decode(f).value.indexHeadOffset) && Open(c, f).Ok?
    ensures var r, chain := Open(c, f).value, Chain(c, f, PayloadOffset(f), Head(f));
      && r.header == Decode(f).value && r.payloadOffset == PayloadOffset(f) && r.mappedLen == |f|
      && r.blockMap == BuildMap(chain) && r.nextChunkId == BuildNextId(chain)
  {
    LinkedWalks(c, f, PayloadOffset(f), Head(f), Head(f));
  }

  /** `block_bytes` on a freshly opened reader is the newest stored payload; no slice is
      ever out of range. */
  lemma BlockBytesIsStored(c: Codec, cfg: KvCacheConfig, f: seq<byte>, layer: nat, head: nat, block: nat)
    requires ReadableFile(c, cfg, f) && |f| < TWO_64
    ensures WalkEnds(c, f, Decode(f).value.indexHeadOffset) && Open(c, f).Ok?
    ensures BlockBytes(Open(c, f).value, f, layer, head, block) == Stored(c, f, Key(layer, head, block))
    ensures Stored(c, f, Key(layer, head, block)) != OutOfRange
  {
    ReaderOpens(c, cfg, f);
    var chain, k := Chain(c, f, PayloadOffset(f), Head(f)), Key(layer, head, block);
    BuildMapIsLookup(chain, k);
    HitsInside(c, f, k);
  }

  lemma TokenOfEntry(r: KvcacheReader, f: seq<byte>, layer: nat, head: nat, token: nat, skip: nat)
    requires HEADER_SIZE <= r.payloadOffset <= r.mappedLen == |f| < TWO_64 && token < Valid(f)
    requires Key(layer, head, token / BLOCK_TOKEN_COUNT) in r.blockMap
    requires skip == token % BLOCK_TOKEN_COUNT * r.header.elementBytes
    requires var e := r.blockMap[Key(layer, head, token / BLOCK_TOKEN_COUNT)];
      && r.payloadOffset <= e.byteOffset && e.byteOffset + e.byteLen <= |f|
      && skip + r.header.elementBytes <= e.byteLen
    ensures var e := r.blockMap[Key(layer, head, token / BLOCK_TOKEN_COUNT)];
      TokenBytes(r, f, layer, head, token) ==
        Got(f[e.byteOffset..e.byteOffset + e.byteLen][skip..skip + r.header.elementBytes])
  {
    var e := r.blockMap[Key(layer, head, token / BLOCK_TOKEN_COUNT)];
    SliceOfSlice(f, e.byteOffset, e.byteOffset + e.byteLen, skip, skip + r.header.elementBytes);
  }

  /** A token that lies inside the newest payload of its block is read from there. */
  lemma TokenInBlock(c: Codec, cfg: KvCacheConfig, f: seq<byte>, layer: nat, head: nat, token: nat, skip: nat)
    requires ReadableFile(c, cfg, f) && |f| < TWO_64 && token < Valid(f)
    requires skip == InnerOffset(cfg, token)
    requires var s := Stored(c, f, Key(layer, head, token / BLOCK_TOKEN_COUNT));
      s.Got? && skip + cfg.elementBytes <= |s.bytes|
    ensures WalkEnds(c, f, Decode(f).value.indexHeadOffset) && Open(c, f).Ok?
    ensures TokenBytes(Open(c, f).value, f, layer, head, token) ==
      Got(Stored(c, f, Key(layer, head, token / BLOCK_TOKEN_COUNT)).bytes[skip..skip + cfg.elementBytes])
  {
    ReaderOpens(c, cfg, f);
    var r, k := Open(c, f).value, Key(layer, head, token / BLOCK_TOKEN_COUNT);
    EntryOfStored(c, cfg, f, r, k);
    TokenOfEntry(r, f, layer, head, token, skip);
  }

  lemma EntryOfStored(c: Codec, cfg: KvCacheConfig, f: seq<byte>, r: KvcacheReader, k: Key)
    requires ReadableFile(c, cfg, f) && |f| < TWO_64 && Stored(c, f, k).Got?
    requires r.blockMap == BuildMap(Chain(c, f, PayloadOffset(f), Head(f)))
    ensures k in r.blockMap && PayloadOffset(f) <= r.blockMap[k].byteOffset
    ensures r.blockMap[k].byteOffset + r.blockMap[k].byteLen <= |f|
    ensures Stored(c, f, k).bytes == f[r.blockMap[k].byteOffset..r.blockMap[k].byteOffset + r.blockMap[k].byteLen]
  {
    BuildMapIsLookup(Chain(c, f, PayloadOffset(f), Head(f)), k);
    HitsInside(c, f, k);
  }

  function TokenPlace(e: ChunkIndexEntry, token: nat, elementBytes: nat): nat {
    e.byteOffset + token % 64 * elementBytes
  }

  function BytesAt(f: seq<byte>, at: nat, n: nat): Fetched {
    if at + n <= |f| then Got(f[at..at + n]) else OutOfRange
  }

  /** What `token_bytes` of a fresh reader answers for any token: nothing at or above the visible
      count and for a block without entry; otherwise the bytes at the token's place behind the
      newest entry's offset, wherever that entry ends, or a panic if they leave the file. */
  lemma TokenAnswers(c: Codec, cfg: KvCacheConfig, f: seq<byte>, layer: nat, head: nat, token: nat)
    requires ReadableFile(c, cfg, f) && |f| + 64 * cfg.elementBytes < TWO_64
    ensures WalkEnds(c, f, Decode(f).value.indexHeadOffset) && Open(c, f).Ok?
    ensures var hit := Lookup(Chain(c, f, PayloadOffset(f), Head(f)), Key(layer, head, token / 64));
      TokenBytes(Open(c, f).value, f, layer, head, token) ==
        if token >= Valid(f) || hit.None? then Missing
        else BytesAt(f, TokenPlace(hit.value, token, cfg.elementBytes), cfg.elementBytes)
  {
    ReaderOpens(c, cfg, f);
    var k := Key(layer, head, token / 64);
    BuildMapIsLookup(Chain(c, f, PayloadOffset(f), Head(f)), k);
    HitsInside(c, f, k);
    MulLe(token % 64, 63, cfg.elementBytes);
  }

  lemma FrameInBlock(log: seq<Frame>, token: nat)
    requires token < |log|
    ensures var b, t := token / BLOCK_TOKEN_COUNT, token % BLOCK_TOKEN_COUNT;
      BLOCK_TOKEN_COUNT * b < |log| && t < |BlockFrames(log, b)| && BlockFrames(log, b)[t] == log[token]
  {
  }

  lemma StockedBlock(c: Codec, cfg: KvCacheConfig, f: seq<byte>, log: seq<Frame>, i: nat, b: nat)
    requires Stocked(c, cfg, f, log) && i < cfg.Columns() && BLOCK_TOKEN_COUNT * b < |log|
    ensures Sized(cfg, BlockFrames(log, b))
    ensures Stored(c, f, ColumnKey(cfg, i, b)) == Got(ColumnData(cfg, BlockFrames(log, b), i))
  {
  }

  function InnerOffset(cfg: KvCacheConfig, token: nat): nat {
    token % BLOCK_TOKEN_COUNT * cfg.elementBytes
  }

  /** The newest payload of a visible token's block holds that token's cell in its place. */
  lemma StockedCell(c: Codec, cfg: KvCacheConfig, f: seq<byte>, log: seq<Frame>, i: nat, token: nat, skip: nat)
    requires Stocked(c, cfg, f, log) && i < cfg.Columns() && token < |log| && skip == InnerOffset(cfg, token)
    ensures var s := Stored(c, f, ColumnKey(cfg, i, token / BLOCK_TOKEN_COUNT));
      s.Got? && skip + cfg.elementBytes <= |s.bytes| && s.bytes[skip..skip + cfg.elementBytes] == Cell(cfg, log[token], i)
  {
    FrameInBlock(log, token);
    StockedBlock(c, cfg, f, log, i, token / BLOCK_TOKEN_COUNT);
    ColumnDataAt(cfg, BlockFrames(log, token / BLOCK_TOKEN_COUNT), i, token % BLOCK_TOKEN_COUNT);
  }

  /** The file opens, and its reader counts the frames of the log and returns each of their
      cells, and nothing beyond. */
  ghost predicate ReadsLog(c: Codec, cfg: KvCacheConfig, f: seq<byte>, log: seq<Frame>) {
    && Decode(f).Ok? && WalkEnds(c, f, Decode(f).value.indexHeadOffset) && Open(c, f).Ok?
    && Sized(cfg, log) && Valid(f) == |log|
    && forall i: nat, token: nat :: i < cfg.Columns() ==>
         TokenBytes(Open(c, f).value, f, cfg.LayerOf(i), cfg.HeadOf(i), token) ==
           if token < |log| then Got(Cell(cfg, log[token], i)) else Missing
  }

  lemma ReadsLogAt(c: Codec, cfg: KvCacheConfig, f: seq<byte>, log: seq<Frame>, i: nat, token: nat)
    requires ReadsLog(c, cfg, f, log) && i < cfg.Columns() && token < |log|
    ensures TokenBytes(Open(c, f).value, f, cfg.LayerOf(i), cfg.HeadOf(i), token) == Got(Cell(cfg, log[token], i))
  {
  }

  lemma ReadsCell(c: Codec, cfg: KvCacheConfig, f: seq<byte>, log: seq<Frame>, i: nat, token: nat)
    requires Stocked(c, cfg, f, log) && |f| < TWO_64 && i < cfg.Columns() && token < |log| && token < Valid(f)
    ensures WalkEnds(c, f, Decode(f).value.indexHeadOffset) && Open(c, f).Ok?
    ensures TokenBytes(Open(c, f).value, f, cfg.LayerOf(i), cfg.HeadOf(i), token) == Got(Cell(cfg, log[token], i))
  {
    var skip := InnerOffset(cfg, token);
    StockedCell(c, cfg, f, log, i, token, skip);
    TokenInBlock(c, cfg, f, cfg.LayerOf(i), cfg.HeadOf(i), token, skip);
  }

  /** `block_token_count` on a freshly opened reader is the count in the newest entry. */
  lemma BlockCountIsTally(c: Codec, cfg: KvCacheConfig, f: seq<byte>, layer: nat, head: nat, block: nat)
    requires ReadableFile(c, cfg, f)
    ensures WalkEnds(c, f, Decode(f).value.indexHeadOffset) && Open(c, f).Ok?
    ensures BlockTokenCount(Open(c, f).value, layer, head, block) == Tally(c, f, Key(layer, head, block))
  {
    ReaderOpens(c, cfg, f);
    BuildMapIsLookup(Chain(c, f, PayloadOffset(f), Head(f)), Key(layer, head, block));
  }

  /** The reader's block counts are the log's: 64 for every block but the last, which has the rest. */
  ghost predicate CountsBlocks(c: Codec, cfg: KvCacheConfig, f: seq<byte>, log: seq<Frame>) {
    && Decode(f).Ok? && WalkEnds(c, f, Decode(f).value.indexHeadOffset) && Open(c, f).Ok?
    && forall i: nat, b: nat :: i < cfg.Columns() && 64 * b < |log| ==>
         BlockTokenCount(Open(c, f).value, cfg.LayerOf(i), cfg.HeadOf(i), b) == Some(Min(64, |log| - 64 * b))
  }

  lemma BlocksCounted(c: Codec, cfg: KvCacheConfig, f: seq<byte>, log: seq<Frame>)
    requires Stocked(c, cfg, f, log)
    ensures CountsBlocks(c, cfg, f, log)
  {
    ReaderOpens(c, cfg, f);
    forall i: nat, b: nat | i < cfg.Columns() && 64 * b < |log|
      ensures BlockTokenCount(Open(c, f).value, cfg.LayerOf(i), cfg.HeadOf(i), b) == Some(Min(64, |log| - 64 * b))
    {
      BlockCountIsTally(c, cfg, f, cfg.LayerOf(i), cfg.HeadOf(i), b);
      assert Tally(c, f, ColumnKey(cfg, i, b)) == Some(|BlockFrames(log, b)|);
    }
  }

  lemma ReadsBack(c: Codec, cfg: KvCacheConfig, f: seq<byte>, log: seq<Frame>)
    requires Faithful(c, cfg, f, log) && |f| < TWO_64
    ensures ReadsLog(c, cfg, f, log)
  {
    ReaderOpens(c, cfg, f);
    var r := Open(c, f).value;
    assert Valid(f) == |log| && HEADER_SIZE <= r.payloadOffset <= r.mappedLen <= |f|;
    forall i: nat, token: nat | i < cfg.Columns()
      ensures TokenBytes(r, f, cfg.LayerOf(i), cfg.HeadOf(i), token) ==
        if token < |log| then Got(Cell(cfg, log[token], i)) else Missing
    {
      if token < |log| { ReadsCell(c, cfg, f, log, i, token); }
    }
  }

  /** The first n cells of a frame. */
  function Cells(cfg: KvCacheConfig, frame: Frame, n: nat): seq<seq<byte>>
    requires |frame| == cfg.Stride() && n <= cfg.Columns()
  {
    seq(n, i requires 0 <= i < n => Cell(cfg, frame, i))
  }

  /** Gathering a frame's cells in (layer, head) order gives the frame back. */
  lemma {:induction false} CellsMakeFrame(cfg: KvCacheConfig, frame: Frame, n: nat)
    requires |frame| == cfg.Stride() && n <= cfg.Columns()
    ensures n * cfg.elementBytes <= |frame|
    ensures Flatten(Cells(cfg, frame, n)) == frame[..n * cfg.elementBytes]
  {
    MulLe(n, cfg.Columns(), cfg.elementBytes);
    if n > 0 {
      var at := (n - 1) * cfg.elementBytes;
      CellsMakeFrame(cfg, frame, n - 1);
      assert Cells(cfg, frame, n)[..n - 1] == Cells(cfg, frame, n - 1);
      assert n * cfg.elementBytes == at + cfg.elementBytes;
      JoinSlices(frame, at, at + cfg.elementBytes);
    }
  }

  lemma JoinSlices(s: seq<byte>, a: nat, b: nat)
    requires a <= b <= |s|
    ensures s[..a] + s[a..b] == s[..b]
  {
  }

  // ---- reopening ----

  /** A reloaded column: `committed` tokens in all, the last block's bytes at hand. */
  function ResumedColumn(cfg: KvCacheConfig, committed: nat, i: nat, data: seq<byte>): Column {
    var p := committed % BLOCK_TOKEN_COUNT;
    Column(cfg.LayerOf(i), cfg.HeadOf(i), committed / BLOCK_TOKEN_COUNT, p, p, data)
  }

  lemma {:induction false} ReloadedColumns(r: KvcacheReader, f: seq<byte>, cfg: KvCacheConfig, n: nat,
                                           committed: nat, last: nat, datas: seq<seq<byte>>)
    requires r.payloadOffset <= r.mappedLen <= |f| && n <= cfg.Columns() == |datas|
    requires forall i: nat :: i < cfg.Columns() ==>
      if committed % BLOCK_TOKEN_COUNT == 0 then datas[i] == []
      else BlockBytes(r, f, cfg.LayerOf(i), cfg.HeadOf(i), last) == Got(datas[i])
    ensures var res := ReloadColumns(r, f, cfg, n, committed % BLOCK_TOKEN_COUNT, last, committed / BLOCK_TOKEN_COUNT);
      res.Ok? && forall i: nat :: i < n ==> res.value[i] == ResumedColumn(cfg, committed, i, datas[i])
  {
    if n > 0 { ReloadedColumns(r, f, cfg, n - 1, committed, last, datas); }
  }

  /** `open`'s two-case computation is the quotient by 64. */
  lemma PendingIsQuotient(committed: nat)
    ensures PendingBlockAfter(committed) == committed / BLOCK_TOKEN_COUNT
    ensures committed % BLOCK_TOKEN_COUNT != 0 ==> LastBlockOf(committed) == committed / BLOCK_TOKEN_COUNT
  {
  }

  /** What a writer needs to find to reopen: the stored bytes of a partial last block. */
  ghost predicate LastBlockIs(c: Codec, cfg: KvCacheConfig, f: seq<byte>, datas: seq<seq<byte>>)
    requires ReadableFile(c, cfg, f)
  {
    && |datas| == cfg.Columns()
    && forall i: nat :: i < cfg.Columns() ==>
         if Valid(f) % BLOCK_TOKEN_COUNT == 0 then datas[i] == []
         else Stored(c, f, ColumnKey(cfg, i, Valid(f) / BLOCK_TOKEN_COUNT)) == Got(datas[i])
  }

  lemma ReloadFinds(c: Codec, cfg: KvCacheConfig, f: seq<byte>, r: KvcacheReader, last: nat, datas: seq<seq<byte>>)
    requires ReadableFile(c, cfg, f) && LastBlockIs(c, cfg, f, datas) && |f| < TWO_64
    requires WalkEnds(c, f, Decode(f).value.indexHeadOffset) && Open(c, f) == Ok(r)
    requires r.payloadOffset <= r.mappedLen <= |f|
    requires Valid(f) % BLOCK_TOKEN_COUNT != 0 ==> last == Valid(f) / BLOCK_TOKEN_COUNT
    ensures var res := ReloadColumns(r, f, cfg, cfg.Columns(), Valid(f) % BLOCK_TOKEN_COUNT, last,
                                     Valid(f) / BLOCK_TOKEN_COUNT);
      res.Ok? && forall i: nat :: i < cfg.Columns() ==> res.value[i] == ResumedColumn(cfg, Valid(f), i, datas[i])
  {
    forall i: nat | i < cfg.Columns() && Valid(f) % BLOCK_TOKEN_COUNT != 0
      ensures BlockBytes(r, f, cfg.LayerOf(i), cfg.HeadOf(i), last) == Got(datas[i])
    {
      BlockBytesIsStored(c, cfg, f, cfg.LayerOf(i), cfg.HeadOf(i), last);
      assert Key(cfg.LayerOf(i), cfg.HeadOf(i), last) == ColumnKey(cfg, i, last);
    }
    ReloadedColumns(r, f, cfg, cfg.Columns(), Valid(f), last, datas);
  }

  /** What reopening finds, spelled out. */
  lemma OpenFinds(c: Codec, cfg: KvCacheConfig, f: seq<byte>, datas: seq<seq<byte>>)
    requires ReadableFile(c, cfg, f) && LastBlockIs(c, cfg, f, datas) && |f| < TWO_64
    ensures WalkEnds(c, f, Decode(f).value.indexHeadOffset) && OpenWriter(c, f).Ok?
    ensures var w := OpenWriter(c, f).value;
      && w == World(cfg, f, w.columns, Valid(f), w.nextChunkId, Valid(f) / BLOCK_TOKEN_COUNT, [], Idle, None)
      && w.nextChunkId == BuildNextId(Chain(c, f, PayloadOffset(f), Head(f))) < TWO_64
      && forall i: nat :: i < |w.columns| ==> w.columns[i] == ResumedColumn(cfg, Valid(f), i, datas[i])
  {
    ReaderOpens(c, cfg, f);
    SomeColumn(cfg);
    var r := Open(c, f).value;
    NextIdFits(Chain(c, f, PayloadOffset(f), Head(f)));
    PendingIsQuotient(Valid(f));
    ReloadFinds(c, cfg, f, r, LastBlockOf(Valid(f)), datas);
    var h := r.header;
    var same: KvCacheConfig := Config(h.layers, h.heads, h.elementBytes);
    assert same == cfg;
  }

  /** Reopening a file that stands for a log resumes exactly that log, in position. */
  lemma OpenFollows(c: Codec, cfg: KvCacheConfig, f: seq<byte>, log: seq<Frame>)
    requires Faithful(c, cfg, f, log) && |f| < TWO_64
    ensures WalkEnds(c, f, Decode(f).value.indexHeadOffset) && OpenWriter(c, f).Ok?
    ensures var w := OpenWriter(c, f).value;
      w.cfg == cfg && w.file == f && Follows(c, w, log) && Quiet(w) && InPosition(w) && Unflushed(w) == 0
  {
    var p, b := |log| % BLOCK_TOKEN_COUNT, |log| / BLOCK_TOKEN_COUNT;
    LastBlock(log, b);
    var datas := seq(cfg.Columns(), i requires 0 <= i < cfg.Columns() => ColumnData(cfg, BlockFrames(log, b), i));
    OpenFinds(c, cfg, f, datas);
    var w := OpenWriter(c, f).value;
    forall i | 0 <= i < |w.columns| ensures InStep(cfg, w.columns[i], i, b, p, p) {
      ColumnDataLength(cfg, BlockFrames(log, b), i);
    }
    assert log[..|log|] == log;
    assert Continues(w, log, |log|);
    QuietFollows(c, w, log);
  }

  lemma NewFileIsFaithful(c: Codec, cfg: KvCacheConfig, metadata: seq<byte>)
    requires |metadata| < TWO_32
    ensures var f := Encoded(NewHeader(cfg, |metadata|)) + metadata;
      Epoch(f) == 0 && Valid(f) == 0 && Faithful(c, cfg, f, [])
  {
    var h := NewHeader(cfg, |metadata|);
    var f := Encoded(h) + metadata;
    DecodeEncoded(h, metadata);
    assert Decode(f) == Ok(h);
    assert Epoch(f) == h.commitEpoch && Valid(f) == h.validTokenCount && Head(f) == h.indexHeadOffset;
  }

  lemma EmptyFollows(c: Codec, w: World)
    requires Quiet(w) && w.truncation.None? && w.localCount == 0 && w.pendingBlock == 0 && w.nextChunkId == 0
    requires Epoch(w.file) == 0 && Valid(w.file) == 0 && Faithful(c, w.cfg, w.file, [])
    requires forall i :: 0 <= i < |w.columns| ==> w.columns[i] == EmptyColumn(w.cfg, i)
    ensures Follows(c, w, []) && InPosition(w) && Unflushed(w) == 0
  {
    forall i | 0 <= i < |w.columns| ensures InStep(w.cfg, w.columns[i], i, 0, 0, 0) {}
    var none: seq<Frame> := [];
    assert none[..0] == none && none[0..] == none;
    assert Continues(w, none, 0);
    QuietFollows(c, w, none);
  }

  /** A new file stands for the empty log. */
  lemma CreateFollows(c: Codec, cfg: KvCacheConfig, metadata: seq<byte>)
    requires |metadata| < TWO_32
    ensures var w := Create(cfg, metadata);
      w.cfg == cfg && Follows(c, w, []) && Quiet(w) && InPosition(w) && Unflushed(w) == 0
  {
    assert |metadata| % TWO_32 == |metadata|;
    var w := Create(cfg, metadata);
    NewFileIsFaithful(c, cfg, metadata);
    EmptyFollows(c, w);
  }

  /** The file that `create` leaves: the header's fields, the metadata right behind it, nothing else. */
  lemma CreatedFile(cfg: KvCacheConfig, metadata: seq<byte>, f: seq<byte>)
    requires |metadata| < 0x1_0000_0000 && f == Create(cfg, metadata).file
    ensures |f| == 64 + |metadata| && f[64..] == metadata && Decode(f).Ok?
    ensures var h := Decode(f).value;
      && h.version == 1 && h.flags == 1 && h.blockSize == 64 && h.reserved1 == 0
      && h.layers == cfg.layers && h.heads == cfg.heads && h.elementBytes == cfg.elementBytes
      && h.commitEpoch == 0 && h.validTokenCount == 0 && h.indexHeadOffset == 0 && h.metadataLen == |metadata|
  {
    SmallMod32(|metadata|);
    DecodeEncoded(NewHeader(cfg, |metadata|), metadata);
  }

  /** The writer that `create` leaves: an empty buffer for every layer and head, counters at zero. */
  lemma CreatedWriter(cfg: KvCacheConfig, metadata: seq<byte>, w: World, layer: nat, head: nat, i: nat)
    requires w == Create(cfg, metadata) && layer < cfg.layers && head < cfg.heads && i == layer * cfg.heads + head
    ensures |w.columns| == cfg.layers * cfg.heads && i < |w.columns| && w.columns[i] == Column(layer, head, 0, 0, 0, [])
    ensures w.localCount == 0 && w.nextChunkId == 0 && w.pendingBlock == 0
    ensures w.queue == [] && w.worker == Idle && w.truncation == None
  {
    ColumnOf(cfg, layer, head);
  }

  lemma SmallMod32(n: nat)
    requires n < TWO_32
    ensures n % TWO_32 == n
  {
  }

  lemma {:induction false} ReloadsIffFound(r: KvcacheReader, f: seq<byte>, cfg: KvCacheConfig, n: nat,
                                           partial: nat, last: nat, pending: nat)
    requires r.payloadOffset <= r.mappedLen <= |f|
    requires forall i: nat :: i < n ==> BlockBytes(r, f, cfg.LayerOf(i), cfg.HeadOf(i), last) != OutOfRange
    ensures ReloadColumns(r, f, cfg, n, partial, last, pending).Ok?
      <==> partial == 0 || forall i: nat :: i < n ==> BlockBytes(r, f, cfg.LayerOf(i), cfg.HeadOf(i), last).Got?
    ensures ReloadColumns(r, f, cfg, n, partial, last, pending).Err? ==>
      ReloadColumns(r, f, cfg, n, partial, last, pending).error == Layout
  {
    if n > 0 { ReloadsIffFound(r, f, cfg, n - 1, partial, last, pending); }
  }

  /** A readable file reopens for writing if and only if its last block is full or stored for
      every column; otherwise the missing payload is reported. */
  lemma OpensForWritingIff(c: Codec, cfg: KvCacheConfig, f: seq<byte>)
    requires ReadableFile(c, cfg, f) && |f| < TWO_64
    ensures WalkEnds(c, f, Decode(f).value.indexHeadOffset)
    ensures OpenWriter(c, f).Ok? <==>
      Valid(f) % 64 == 0 || forall i: nat :: i < cfg.Columns() ==> Stored(c, f, ColumnKey(cfg, i, Valid(f) / 64)).Got?
    ensures OpenWriter(c, f).Err? ==> OpenWriter(c, f) == Err(Layout)
  {
    ReaderOpens(c, cfg, f);
    var r, last := Open(c, f).value, LastBlockOf(Valid(f));
    PendingIsQuotient(Valid(f));
    forall i: nat | i < cfg.Columns()
      ensures BlockBytes(r, f, cfg.LayerOf(i), cfg.HeadOf(i), last) == Stored(c, f, ColumnKey(cfg, i, last)) != OutOfRange
    {
      BlockBytesIsStored(c, cfg, f, cfg.LayerOf(i), cfg.HeadOf(i), last);
    }
    ReloadsIffFound(r, f, cfg, cfg.Columns(), Valid(f) % 64, last, PendingBlockAfter(Valid(f)));
    var same: KvCacheConfig := Config(r.header.layers, r.header.heads, r.header.elementBytes);
    assert same == cfg;
  }
}
