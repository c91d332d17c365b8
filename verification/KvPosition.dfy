/** The position guard is exact: out of position, some next frame does not read back. */
module KvPosition {
  import opened Bytes
  import opened KvHeader
  import opened KvIndex
  import opened KvProtocol
  import opened KvReader
  import opened KvChains
  import opened KvTokens
  import opened KvLog
  import opened KvSession
  import opened KvReadback
  import opened KvRefinement

  /** Nothing, or bytes that begin with this one. */
  ghost predicate BeginsWith(r: Fetched, b: byte) { r.Got? ==> r.bytes != [] && r.bytes[0] == b }

  /** What a fresh reader of column 0 gets for a token, if anything, begins with this byte. */
  ghost predicate TokenBeginsWith(c: Codec, cfg: KvCacheConfig, f: seq<byte>, token: nat, b: byte) {
    && Decode(f).Ok? && WalkEnds(c, f, Decode(f).value.indexHeadOffset) && Open(c, f).Ok?
    && BeginsWith(TokenBytes(Open(c, f).value, f, cfg.LayerOf(0), cfg.HeadOf(0), token), b)
  }

  lemma TokenBegins(r: KvcacheReader, f: seq<byte>, layer: nat, head: nat, token: nat, at: nat)
    requires HEADER_SIZE <= r.payloadOffset <= r.mappedLen == |f| && 1 <= r.header.elementBytes < TWO_32
    requires Key(layer, head, token / BLOCK_TOKEN_COUNT) in r.blockMap
    requires var e := r.blockMap[Key(layer, head, token / BLOCK_TOKEN_COUNT)];
      r.payloadOffset <= e.byteOffset && at == e.byteOffset + token % BLOCK_TOKEN_COUNT * r.header.elementBytes < |f|
    ensures BeginsWith(TokenBytes(r, f, layer, head, token), f[at])
  {
    MulLe(token % BLOCK_TOKEN_COUNT, BLOCK_TOKEN_COUNT, r.header.elementBytes);
  }

  /** Where the reader looks for a token of column 0; 0 if its block is not indexed. */
  ghost function Place(c: Codec, cfg: KvCacheConfig, f: seq<byte>, token: nat): nat
    requires ReadableFile(c, cfg, f)
  {
    var hit := Lookup(Chain(c, f, PayloadOffset(f), Head(f)), ColumnKey(cfg, 0, token / BLOCK_TOKEN_COUNT));
    if hit.None? then 0 else hit.value.byteOffset + InnerOffset(cfg, token)
  }

  /** The reader looks at that place whatever the entry's length is. */
  lemma TokenAtPlace(c: Codec, cfg: KvCacheConfig, f: seq<byte>, token: nat)
    requires ReadableFile(c, cfg, f) && |f| < TWO_64 && Place(c, cfg, f, token) < |f|
    ensures TokenBeginsWith(c, cfg, f, token, f[Place(c, cfg, f, token)])
  {
    ReaderOpens(c, cfg, f);
    var chain, k := Chain(c, f, PayloadOffset(f), Head(f)), ColumnKey(cfg, 0, token / BLOCK_TOKEN_COUNT);
    BuildMapIsLookup(chain, k);
    HitsInside(c, f, k);
    if Lookup(chain, k).Some? {
      TokenBegins(Open(c, f).value, f, cfg.LayerOf(0), cfg.HeadOf(0), token, Place(c, cfg, f, token));
    }
  }

  /** The next token's place lies inside the file if all stored blocks are. */
  lemma PlaceInside(c: Codec, cfg: KvCacheConfig, f: seq<byte>, log: seq<Frame>, token: nat)
    requires Stocked(c, cfg, f, log) && token <= |log|
    ensures Place(c, cfg, f, token) < |f|
  {
    SomeColumn(cfg);
    var lo, q := PayloadOffset(f), token / BLOCK_TOKEN_COUNT;
    LinkedBelow(c, f, lo, Head(f));
    if Lookup(Chain(c, f, lo, Head(f)), ColumnKey(cfg, 0, q)).Some? {
      ChainEntriesInside(c, f, lo, Head(f), ColumnKey(cfg, 0, q));
      if token % BLOCK_TOKEN_COUNT != 0 {
        ColumnDataLength(cfg, BlockFrames(log, q), 0);
        MulLe(token % BLOCK_TOKEN_COUNT, |BlockFrames(log, q)|, cfg.elementBytes);
      }
    }
  }

  lemma BuffersOne(c: Codec, w: World, frame: Frame)
    requires Quiet(w) && Even(w) && ReadableFile(c, w.cfg, w.file) && w.pendingBlock + 1 < TWO_64
    requires w.columns[0].tokenCount < BLOCK_TOKEN_COUNT && |frame| == w.cfg.Stride()
    ensures Flushable(c, Buffered(w, frame)) && Close(c, AppendFrame(w, frame)) == Flushed(c, Buffered(w, frame))
    ensures Buffered(w, frame).columns[0].tokenCount == w.columns[0].tokenCount + 1
    ensures Buffered(w, frame).columns[0].existingTokens == w.columns[0].existingTokens
    ensures Buffered(w, frame).columns[0].data == w.columns[0].data + Cell(w.cfg, frame, 0)
  {
    var u := Buffered(w, frame);
    BufferedIsEven(w, frame);
    EvenFlushable(c, u);
    assert FlushBlock(FlushBlock(u)) == FlushBlock(u);
  }

  lemma EvenFlushable(c: Codec, u: World)
    requires Quiet(u) && Even(u) && ReadableFile(c, u.cfg, u.file)
    requires u.columns[0].tokenCount != 0 && u.pendingBlock + 1 < TWO_64
    ensures Flushable(c, u)
  {
    forall i | 0 <= i < |u.columns|
      ensures Tagged(u.cfg, u.columns[i], i, u.pendingBlock, u.columns[0].tokenCount, u.columns[0].existingTokens)
    {
      assert InStep(u.cfg, u.columns[i], i, u.pendingBlock, u.columns[0].tokenCount, u.columns[0].existingTokens);
    }
  }

  /** A flush leaves the place of a token of another block alone, and the byte there. */
  lemma PlaceStays(c: Codec, u: World, token: nat)
    requires Lawful(c) && Flushable(c, u) && |Flushed(c, u)| < TWO_64 && token / BLOCK_TOKEN_COUNT != u.pendingBlock
    ensures ReadableFile(c, u.cfg, Flushed(c, u)) && Place(c, u.cfg, Flushed(c, u), token) == Place(c, u.cfg, u.file, token)
  {
    FlushedChain(c, u);
    FlushedIsPublished(c, u);
    var b, k := BatchOf(u), ColumnKey(u.cfg, 0, token / BLOCK_TOKEN_COUNT);
    OtherBlocksMissed(u.cfg, u.file, b, k);
    LookupBelow(BlockOf(u.file, b), Chain(c, u.file, PayloadOffset(u.file), Head(u.file)), k);
  }

  lemma LookupBelow(block: IndexBlock, before: seq<IndexBlock>, k: Key)
    requires FindLast(block.entries, k).None?
    ensures Lookup([block] + before, k) == Lookup(before, k)
  {
    assert ([block] + before)[1..] == before;
  }

  /** A writer whose next token would not go where readers look for it. */
  ghost predicate Misplaced(c: Codec, w: World, stock: seq<Frame>) {
    && Quiet(w) && Even(w) && w.columns[0].tokenCount < BLOCK_TOKEN_COUNT && w.pendingBlock + 1 < TWO_64
    && Unflushed(w) == 0 && Stocked(c, w.cfg, w.file, stock) && Valid(w.file) <= |stock| && Valid(w.file) + 1 < TWO_64
    && Valid(w.file) != BLOCK_TOKEN_COUNT * w.pendingBlock + w.columns[0].tokenCount
  }

  /** The byte at which the frame after the count is told from what readers get. */
  ghost function TellTale(c: Codec, w: World, stock: seq<Frame>): byte
    requires Misplaced(c, w, stock)
  {
    var v, e, n := Valid(w.file), w.cfg.elementBytes, w.columns[0].tokenCount;
    if v / BLOCK_TOKEN_COUNT != w.pendingBlock then
      PlaceInside(c, w.cfg, w.file, stock, v);
      w.file[Place(c, w.cfg, w.file, v)]
    else if n > v % BLOCK_TOKEN_COUNT then
      TellTaleInside(w, v % BLOCK_TOKEN_COUNT);
      w.columns[0].data[v % BLOCK_TOKEN_COUNT * e]
    else
      SomeColumn(w.cfg);
      Cell(w.cfg, stock[BLOCK_TOKEN_COUNT * w.pendingBlock + n], 0)[0]
  }

  lemma TellTaleInside(w: World, t: nat)
    requires Even(w) && t < w.columns[0].tokenCount
    ensures t * w.cfg.elementBytes + w.cfg.elementBytes <= |w.columns[0].data|
  {
    assert InStep(w.cfg, w.columns[0], 0, w.pendingBlock, w.columns[0].tokenCount, w.columns[0].existingTokens);
    MulLe(t + 1, w.columns[0].tokenCount, w.cfg.elementBytes);
    assert (t + 1) * w.cfg.elementBytes == t * w.cfg.elementBytes + w.cfg.elementBytes;
  }

  /** The next token goes to another block: the reader finds an old byte, or nothing. */
  lemma ReadsOldPlace(c: Codec, w: World, stock: seq<Frame>, x: Frame)
    requires Lawful(c) && Misplaced(c, w, stock) && |x| == w.cfg.Stride() && |Close(c, AppendFrame(w, x))| < TWO_64
    requires Valid(w.file) / BLOCK_TOKEN_COUNT != w.pendingBlock
    ensures TokenBeginsWith(c, w.cfg, Close(c, AppendFrame(w, x)), Valid(w.file), TellTale(c, w, stock))
  {
    var u, v := Buffered(w, x), Valid(w.file);
    BuffersOne(c, w, x);
    PlaceInside(c, w.cfg, w.file, stock, v);
    FlushedChain(c, u);
    PlaceStays(c, u, v);
    TokenAtPlace(c, w.cfg, Flushed(c, u), v);
    PlaceBeyondHeader(c, w.cfg, w.file, v);
  }

  lemma PlaceBeyondHeader(c: Codec, cfg: KvCacheConfig, f: seq<byte>, token: nat)
    requires ReadableFile(c, cfg, f)
    ensures Place(c, cfg, f, token) == 0 || Place(c, cfg, f, token) >= HEADER_SIZE
  {
    HitsInside(c, f, ColumnKey(cfg, 0, token / BLOCK_TOKEN_COUNT));
  }

  /** The next token goes to its block, but behind tokens that were cut away: an old token is read. */
  lemma ReadsOldBuffer(c: Codec, w: World, stock: seq<Frame>, x: Frame)
    requires Lawful(c) && Misplaced(c, w, stock) && |x| == w.cfg.Stride() && |Close(c, AppendFrame(w, x))| < TWO_64
    requires Valid(w.file) / BLOCK_TOKEN_COUNT == w.pendingBlock
    requires Valid(w.file) % BLOCK_TOKEN_COUNT < w.columns[0].tokenCount
    ensures TokenBeginsWith(c, w.cfg, Close(c, AppendFrame(w, x)), Valid(w.file), TellTale(c, w, stock))
  {
    var u, v := Buffered(w, x), Valid(w.file);
    SomeColumn(w.cfg);
    BuffersOne(c, w, x);
    FlushedChain(c, u);
    FlushedStore(c, u, 0, w.pendingBlock);
    TellTaleInside(w, v % BLOCK_TOKEN_COUNT);
    OldCellReads(c, w.cfg, Flushed(c, u), w.columns[0].data, Cell(w.cfg, x, 0), v, InnerOffset(w.cfg, v));
  }

  lemma OldCellReads(c: Codec, cfg: KvCacheConfig, g: seq<byte>, data: seq<byte>, more: seq<byte>, t: nat, skip: nat)
    requires ReadableFile(c, cfg, g) && |g| < TWO_64 && t < Valid(g) && cfg.Columns() >= 1
    requires skip == InnerOffset(cfg, t) && skip + cfg.elementBytes <= |data|
    requires Stored(c, g, ColumnKey(cfg, 0, t / BLOCK_TOKEN_COUNT)) == Got(data + more)
    ensures TokenBeginsWith(c, cfg, g, t, data[skip])
  {
    SliceOfFirst(data, more, skip, skip + cfg.elementBytes);
    TokenInBlock(c, cfg, g, cfg.LayerOf(0), cfg.HeadOf(0), t, skip);
  }

  /** The next token takes the place of an earlier one. */
  lemma ReadsNewTooEarly(c: Codec, w: World, stock: seq<Frame>, x: Frame, t: nat, b: byte)
    requires Lawful(c) && Misplaced(c, w, stock) && |x| == w.cfg.Stride() && |Close(c, AppendFrame(w, x))| < TWO_64
    requires Valid(w.file) / BLOCK_TOKEN_COUNT == w.pendingBlock
    requires w.columns[0].tokenCount < Valid(w.file) % BLOCK_TOKEN_COUNT
    requires t == BLOCK_TOKEN_COUNT * w.pendingBlock + w.columns[0].tokenCount
    requires w.cfg.Columns() >= 1 && b == Cell(w.cfg, x, 0)[0]
    ensures TokenBeginsWith(c, w.cfg, Close(c, AppendFrame(w, x)), t, b)
  {
    var u, n := Buffered(w, x), w.columns[0].tokenCount;
    BuffersOne(c, w, x);
    FlushedChain(c, u);
    FlushedStore(c, u, 0, w.pendingBlock);
    assert InStep(w.cfg, w.columns[0], 0, w.pendingBlock, n, w.columns[0].existingTokens);
    LastCellReads(c, w.cfg, Flushed(c, u), w.pendingBlock, n, w.columns[0].data, x, t, b);
  }

  lemma LastCellReads(c: Codec, cfg: KvCacheConfig, g: seq<byte>, p: nat, n: nat, data: seq<byte>, x: Frame, t: nat, b: byte)
    requires ReadableFile(c, cfg, g) && |g| < TWO_64 && |x| == cfg.Stride() && cfg.Columns() >= 1
    requires n < BLOCK_TOKEN_COUNT && |data| == n * cfg.elementBytes && t == BLOCK_TOKEN_COUNT * p + n < Valid(g)
    requires Stored(c, g, ColumnKey(cfg, 0, p)) == Got(data + Cell(cfg, x, 0)) && b == Cell(cfg, x, 0)[0]
    ensures TokenBeginsWith(c, cfg, g, t, b)
  {
    var skip := |data|;
    InBlock(p, n);
    assert skip == InnerOffset(cfg, t);
    HoldsSecond(data, Cell(cfg, x, 0));
    TokenInBlock(c, cfg, g, cfg.LayerOf(0), cfg.HeadOf(0), t, skip);
  }

  lemma InBlock(p: nat, n: nat)
    requires n < BLOCK_TOKEN_COUNT
    ensures (BLOCK_TOKEN_COUNT * p + n) / BLOCK_TOKEN_COUNT == p && (BLOCK_TOKEN_COUNT * p + n) % BLOCK_TOKEN_COUNT == n
  {
  }

  /** A frame whose first byte is another one. */
  lemma FrameWithout(cfg: KvCacheConfig, b: byte) returns (x: Frame)
    ensures |x| == cfg.Stride() && cfg.Columns() >= 1 && Cell(cfg, x, 0)[0] != b
  {
    SomeColumn(cfg);
    MulLe(1, cfg.Columns(), cfg.elementBytes);
    x := seq(cfg.Stride(), _ => if b == 0 then 1 else 0);
  }

  lemma TellTaleOfFrame(c: Codec, w: World, stock: seq<Frame>, t: nat)
    requires Misplaced(c, w, stock) && Valid(w.file) / BLOCK_TOKEN_COUNT == w.pendingBlock
    requires w.columns[0].tokenCount < Valid(w.file) % BLOCK_TOKEN_COUNT
    requires t == BLOCK_TOKEN_COUNT * w.pendingBlock + w.columns[0].tokenCount
    ensures t < Valid(w.file) <= |stock| && |stock[t]| == w.cfg.Stride() && w.cfg.Columns() >= 1
    ensures TellTale(c, w, stock) == Cell(w.cfg, stock[t], 0)[0]
  {
    SomeColumn(w.cfg);
  }

  lemma PrefixContradicts(c: Codec, cfg: KvCacheConfig, g: seq<byte>, stock: seq<Frame>, v: nat, x: Frame, t: nat, b: byte)
    requires t < v <= |stock| && |stock[t]| == cfg.Stride() && cfg.Columns() >= 1 && Cell(cfg, stock[t], 0)[0] != b
    requires TokenBeginsWith(c, cfg, g, t, b)
    ensures !ReadsLog(c, cfg, g, stock[..v] + [x])
  {
    assert (stock[..v] + [x])[t] == stock[t];
    Contradicts(c, cfg, g, stock[..v] + [x], t, b);
  }

  lemma BufferedTooLittle(c: Codec, w: World, stock: seq<Frame>, x: Frame)
    requires Lawful(c) && Misplaced(c, w, stock) && |x| == w.cfg.Stride() && |Close(c, AppendFrame(w, x))| < TWO_64
    requires Valid(w.file) / BLOCK_TOKEN_COUNT == w.pendingBlock
    requires w.columns[0].tokenCount < Valid(w.file) % BLOCK_TOKEN_COUNT
    requires w.cfg.Columns() >= 1 && Cell(w.cfg, x, 0)[0] != TellTale(c, w, stock)
    ensures !ReadsLog(c, w.cfg, Close(c, AppendFrame(w, x)), stock[..Valid(w.file)] + [x])
  {
    var t, b := BLOCK_TOKEN_COUNT * w.pendingBlock + w.columns[0].tokenCount, Cell(w.cfg, x, 0)[0];
    ReadsNewTooEarly(c, w, stock, x, t, b);
    TellTaleOfFrame(c, w, stock, t);
    PrefixContradicts(c, w.cfg, Close(c, AppendFrame(w, x)), stock, Valid(w.file), x, t, b);
  }

  lemma NextTokenUnread(c: Codec, w: World, stock: seq<Frame>, x: Frame, g: seq<byte>)
    requires Misplaced(c, w, stock) && |x| == w.cfg.Stride() && w.cfg.Columns() >= 1
    requires Cell(w.cfg, x, 0)[0] != TellTale(c, w, stock)
    requires TokenBeginsWith(c, w.cfg, g, Valid(w.file), TellTale(c, w, stock))
    ensures !ReadsLog(c, w.cfg, g, stock[..Valid(w.file)] + [x])
  {
    var log := stock[..Valid(w.file)] + [x];
    assert log[Valid(w.file)] == x;
    Contradicts(c, w.cfg, g, log, Valid(w.file), TellTale(c, w, stock));
  }

  /** Out of position, some next frame does not read back behind the visible ones. */
  lemma MisplacedAppendFails(c: Codec, w: World, stock: seq<Frame>) returns (x: Frame)
    requires Lawful(c) && Misplaced(c, w, stock)
    requires forall y: Frame :: |y| == w.cfg.Stride() ==> |Close(c, AppendFrame(w, y))| < TWO_64
    ensures |x| == w.cfg.Stride()
    ensures !ReadsLog(c, w.cfg, Close(c, AppendFrame(w, x)), stock[..Valid(w.file)] + [x])
  {
    x := FrameWithout(w.cfg, TellTale(c, w, stock));
    if Valid(w.file) / BLOCK_TOKEN_COUNT != w.pendingBlock {
      ReadsOldPlace(c, w, stock, x);
      NextTokenUnread(c, w, stock, x, Close(c, AppendFrame(w, x)));
    } else if w.columns[0].tokenCount > Valid(w.file) % BLOCK_TOKEN_COUNT {
      ReadsOldBuffer(c, w, stock, x);
      NextTokenUnread(c, w, stock, x, Close(c, AppendFrame(w, x)));
    } else {
      BufferedTooLittle(c, w, stock, x);
    }
  }

  lemma Contradicts(c: Codec, cfg: KvCacheConfig, g: seq<byte>, log: seq<Frame>, t: nat, b: byte)
    requires TokenBeginsWith(c, cfg, g, t, b)
    requires t < |log| && |log[t]| == cfg.Stride() && cfg.Columns() >= 1 && Cell(cfg, log[t], 0)[0] != b
    ensures !ReadsLog(c, cfg, g, log)
  {
    if ReadsLog(c, cfg, g, log) { ReadsLogAt(c, cfg, g, log, 0, t); }
  }

  lemma AppendCounts(w: World, frame: Frame)
    requires Quiet(w) && Lockstep(w) && |frame| == w.cfg.Stride() && w.localCount + 1 < TWO_64 && w.pendingBlock + 1 < TWO_64
    ensures var v := AppendFrame(w, frame);
      && v.localCount == w.localCount + 1 && v.pendingBlock <= w.pendingBlock + 1 && v.file == w.file && v.cfg == w.cfg
      && v.truncation == w.truncation && (v.columns[0].tokenCount > 0 ==> Quiet(v))
  {
    BufferedLockstep(w, frame);
  }

  lemma AppendCloses(c: Codec, w: World, log: seq<Frame>, frame: Frame)
    requires Lawful(c) && Follows(c, w, log) && Quiet(w) && InPosition(w) && |frame| == w.cfg.Stride()
    requires w.localCount + 2 < TWO_64 && Epoch(w.file) + 1 < TWO_64 && |Close(c, AppendFrame(w, frame))| < TWO_64
    ensures Faithful(c, w.cfg, Close(c, AppendFrame(w, frame)), log + [frame])
  {
    FollowsAppend(c, w, log, frame);
    AppendCounts(w, frame);
    CloseIsFaithful(c, AppendFrame(w, frame), log + [frame]);
  }

  ghost predicate AnyAppendFits(c: Codec, w: World) {
    forall x: Frame :: |x| == w.cfg.Stride() ==> |Close(c, AppendFrame(w, x))| < TWO_64
  }

  /** Whatever frame is appended next, closing leaves a file from which a fresh reader reads the
      log with that frame behind it. */
  ghost predicate AnyAppendReads(c: Codec, w: World, log: seq<Frame>) {
    forall x: Frame :: |x| == w.cfg.Stride() ==> ReadsLog(c, w.cfg, Close(c, AppendFrame(w, x)), log + [x])
  }

  lemma PlacedAppendReads(c: Codec, w: World, log: seq<Frame>)
    requires Lawful(c) && Follows(c, w, log) && Quiet(w) && InPosition(w) && AnyAppendFits(c, w)
    requires w.localCount + 2 < TWO_64 && Epoch(w.file) + 1 < TWO_64
    ensures AnyAppendReads(c, w, log)
  {
    forall x: Frame | |x| == w.cfg.Stride() ensures ReadsLog(c, w.cfg, Close(c, AppendFrame(w, x)), log + [x]) {
      AppendCloses(c, w, log, x);
      ReadsBack(c, w.cfg, Close(c, AppendFrame(w, x)), log + [x]);
    }
  }

  /** The position guard is exact, for readers and in every quiet state that stands for a log:
      every next frame reads back behind the log if and only if the writer is in position. */
  lemma AppendReadsIffInPosition(c: Codec, w: World, log: seq<Frame>)
    requires Lawful(c) && Follows(c, w, log) && Quiet(w) && AnyAppendFits(c, w)
    requires w.localCount + 2 < TWO_64 && w.pendingBlock + 1 < TWO_64 && Epoch(w.file) + 1 < TWO_64
    ensures AnyAppendReads(c, w, log) <==> InPosition(w)
  {
    if InPosition(w) {
      PlacedAppendReads(c, w, log);
    } else {
      OutOfPositionIsMisplaced(c, w, log);
      MisplacedMeansUnread(c, w, log);
    }
  }

  lemma OutOfPositionIsMisplaced(c: Codec, w: World, log: seq<Frame>)
    requires Follows(c, w, log) && Quiet(w) && !InPosition(w)
    requires w.localCount + 2 < TWO_64 && w.pendingBlock + 1 < TWO_64
    ensures Misplaced(c, w, log) && log[..Valid(w.file)] == log
  {
    TracksCounts(c, w, log);
    assert !Continues(w, log, Valid(w.file));
    assert Sealed(w, log, Valid(w.file));
    assert log[..|log|] == log;
  }

  lemma MisplacedMeansUnread(c: Codec, w: World, stock: seq<Frame>)
    requires Lawful(c) && Misplaced(c, w, stock) && AnyAppendFits(c, w)
    ensures !AnyAppendReads(c, w, stock[..Valid(w.file)])
  {
    var x := MisplacedAppendFails(c, w, stock);
  }

  lemma AlignedIffEmpty(w: World)
    requires Lockstep(w) && InPosition(w)
    ensures w.localCount % BLOCK_TOKEN_COUNT == 0 <==> w.columns[0].tokenCount == 0
  {
    InBlock(w.pendingBlock, w.columns[0].tokenCount);
  }

  /** Flush, then append: it reads back if and only if the flush had nothing to do, that is,
      if it came on a block boundary. */
  lemma AppendAfterFlushIffAligned(c: Codec, w: World, log: seq<Frame>)
    requires Lawful(c) && Follows(c, w, log) && Quiet(w) && InPosition(w)
    requires w.localCount + 2 < TWO_64 && w.pendingBlock + 2 < TWO_64 && Epoch(w.file) + 1 < TWO_64
    requires |Flushed(c, w)| < TWO_64 && AnyAppendFits(c, Settle(c, FlushBlock(w)))
    ensures AnyAppendReads(c, Settle(c, FlushBlock(w)), log) <==> w.localCount % BLOCK_TOKEN_COUNT == 0
  {
    AlignedIffEmpty(w);
    if w.columns[0].tokenCount == 0 {
      AppendReadsIffInPosition(c, w, log);
    } else {
      var v := Settle(c, FlushBlock(w));
      SettledFollows(c, w, v, log);
      AppendReadsIffInPosition(c, v, log);
    }
  }

  lemma SettledFollows(c: Codec, w: World, v: World, log: seq<Frame>)
    requires Lawful(c) && Follows(c, w, log) && Quiet(w) && w.columns[0].tokenCount != 0
    requires w.localCount < TWO_64 && w.pendingBlock + 1 < TWO_64 && |Flushed(c, w)| < TWO_64
    requires v == Settle(c, FlushBlock(w))
    ensures Follows(c, v, log) && Quiet(v) && v.localCount == w.localCount && v.pendingBlock == w.pendingBlock + 1
    ensures v.columns[0].tokenCount == 0 && Epoch(v.file) == Epoch(w.file) && v.cfg == w.cfg
  {
    TracksFlush(c, w, log);
    ResetIsEven(w);
    SettleKeepsBuffers(c, FlushBlock(w));
    SettleExtends(c, FlushBlock(w));
    QuietFollows(c, v, log);
  }

  /** Roll back committed tokens, then append in the same session: it reads back if and only
      if the count cut to is where the buffers continue; for a writer in position, if nothing
      was removed. */
  lemma AppendAfterRollbackIffInPlace(c: Codec, w: World, log: seq<Frame>, count: u64)
    requires Lawful(c) && Follows(c, w, log) && Quiet(w) && Unflushed(w) == 0 && count <= Valid(w.file)
    requires w.localCount + 2 < TWO_64 && w.pendingBlock + 1 < TWO_64 && Epoch(w.file) + 2 < TWO_64
    requires AnyAppendFits(c, Step(c, TruncateBegin(w, count), EndTruncate))
    ensures count <= |log|
    ensures AnyAppendReads(c, Step(c, TruncateBegin(w, count), EndTruncate), log[..count])
      <==> count == BLOCK_TOKEN_COUNT * w.pendingBlock + w.columns[0].tokenCount
    ensures InPosition(w) ==>
      (count == BLOCK_TOKEN_COUNT * w.pendingBlock + w.columns[0].tokenCount <==> count == Valid(w.file))
  {
    var u := TruncateBegin(w, count);
    var v := u.(truncation := None, localCount := count, file := SetValid(u.file, count));
    TracksCounts(c, w, log);
    BeginBumps(w, count);
    assert Step(c, u, EndTruncate) == v;
    if count == BLOCK_TOKEN_COUNT * w.pendingBlock + w.columns[0].tokenCount {
      CutInPlaceIsClean(c, w, log, count);
      FollowsRollback(c, w, log, count);
      PlacedAppendReads(c, v, log[..count]);
    } else {
      assert log[..Valid(w.file)] == log;
      ExtendsTransitive(w.file, u.file, v.file);
      StockStays(c, w.cfg, w.file, v.file, log);
      MisplacedMeansUnread(c, v, log);
    }
  }

  lemma CutInPlaceIsClean(c: Codec, w: World, log: seq<Frame>, count: u64)
    requires Tracks(c, w, log) && Lockstep(w) && Unflushed(w) == 0 && count <= Valid(w.file)
    requires count == BLOCK_TOKEN_COUNT * w.pendingBlock + w.columns[0].tokenCount
    ensures CutsCleanly(count, Valid(w.file))
  {
    if Sealed(w, log, Valid(w.file)) && w.columns[0].tokenCount == 0 { InBlock(w.pendingBlock, 0); }
  }
}
