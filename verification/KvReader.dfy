/** Reading a cache file (ncf-kvcache/src/reader.rs). */
module KvReader {
  import opened Bytes
  import opened KvHeader
  import opened KvIndex

  // ---- walking the chain ----

  /** One index block as found in front of the trailer at some offset. */
  datatype Link = Link(block: IndexBlock, start: nat, prev: nat)

  /** Lines 82-103 of the walk: the checks and decoding done at one trailer. */
  function ReadLink(c: Codec, f: seq<byte>, at: nat): (r: KvResult<Link>) {
    if at + TRAILER_SIZE > |f| then Err(Layout)
    else
      var t :- DecodeTrailer(f[at..at + TRAILER_SIZE]);
      if t.magic != TRAILER_MAGIC then Err(Layout)
      else if t.cborLen > at then Err(Overflow)
      else match c.dec(f[at - t.cborLen..at])
        case None => Err(Cbor)
        case Some(b) => Ok(Link(b, at - t.cborLen, t.prevIndexOffset))
  }

  /** A trailer is good if the file has 24 bytes there, they begin with "KVCFTR!!", the length
      in them is not above the offset, and the bytes of that length before it decode. */
  ghost predicate GoodTrailer(c: Codec, f: seq<byte>, at: nat) {
    && at + 24 <= |f| && f[at..at + 8] == [0x4B, 0x56, 0x43, 0x46, 0x54, 0x52, 0x21, 0x21]
    && Word(f, at + 8) <= at && c.dec(f[at - Word(f, at + 8)..at]).Some?
  }

  /** Exactly the good trailers are followed, to the offset that the last eight bytes name; a bad
      one is reported by what is wrong with it first. */
  lemma FollowsIffGood(c: Codec, f: seq<byte>, at: nat)
    ensures ReadLink(c, f, at).Ok? <==> GoodTrailer(c, f, at)
    ensures GoodTrailer(c, f, at) ==>
      var len := Word(f, at + 8);
      ReadLink(c, f, at).value == Link(c.dec(f[at - len..at]).value, at - len, Word(f, at + 16))
    ensures ReadLink(c, f, at) == Err(Layout)
      <==> at + 24 > |f| || f[at..at + 8] != [0x4B, 0x56, 0x43, 0x46, 0x54, 0x52, 0x21, 0x21]
    ensures ReadLink(c, f, at) == Err(Overflow)
      <==> at + 24 <= |f| && f[at..at + 8] == [0x4B, 0x56, 0x43, 0x46, 0x54, 0x52, 0x21, 0x21] && Word(f, at + 8) > at
    ensures ReadLink(c, f, at).Err? ==> ReadLink(c, f, at).error in {Layout, Overflow, Cbor}
  {
    if at + 24 <= |f| {
      SliceOfSlice(f, at, at + 24, 0, 8);
      SliceOfSlice(f, at, at + 24, 8, 16);
      SliceOfSlice(f, at, at + 24, 16, 24);
    }
  }

  datatype WalkResult = Unfinished | Corrupt(error: Error) | Walked(blocks: seq<IndexBlock>)

  /** The walk cut off after `steps` trailers. */
  function Walk(c: Codec, f: seq<byte>, at: nat, steps: nat): WalkResult
    decreases steps
  {
    if at == 0 then Walked([])
    else if steps == 0 then Unfinished
    else match ReadLink(c, f, at)
      case Err(e) => Corrupt(e)
      case Ok(l) =>
        match Walk(c, f, l.prev, steps - 1)
        case Walked(bs) => Walked([l.block] + bs)
        case other => other
  }

  /** The walk ends, in success or in an error; on a cyclic chain it never does. */
  ghost predicate WalkEnds(c: Codec, f: seq<byte>, at: nat) {
    exists n: nat :: !Walk(c, f, at, n).Unfinished?
  }

  lemma {:induction false} WalkStable(c: Codec, f: seq<byte>, at: nat, m: nat, n: nat)
    requires !Walk(c, f, at, m).Unfinished? && m <= n
    ensures Walk(c, f, at, n) == Walk(c, f, at, m)
    decreases m
  {
    if at != 0 && ReadLink(c, f, at).Ok? {
      WalkStable(c, f, ReadLink(c, f, at).value.prev, m - 1, n - 1);
    }
  }

  /** The finished walk, newest block first. */
  ghost function FullWalk(c: Codec, f: seq<byte>, at: nat): (r: WalkResult)
    requires WalkEnds(c, f, at)
    ensures !r.Unfinished?
    ensures forall n: nat :: !Walk(c, f, at, n).Unfinished? ==> Walk(c, f, at, n) == r
  {
    var n: nat :| !Walk(c, f, at, n).Unfinished?;
    forall m: nat | !Walk(c, f, at, m).Unfinished? ensures Walk(c, f, at, m) == Walk(c, f, at, n) {
      WalkStable(c, f, at, Min(m, n), Max(m, n));
    }
    Walk(c, f, at, n)
  }

  lemma WalkUnfold(c: Codec, f: seq<byte>, at: nat)
    requires WalkEnds(c, f, at) && at != 0 && ReadLink(c, f, at).Ok?
    ensures WalkEnds(c, f, ReadLink(c, f, at).value.prev)
    ensures var l := ReadLink(c, f, at).value;
      FullWalk(c, f, at) == match FullWalk(c, f, l.prev) case Walked(bs) => Walked([l.block] + bs) case other => other
  {
    var n: nat :| !Walk(c, f, at, n).Unfinished?;
    var l := ReadLink(c, f, at).value;
    assert !Walk(c, f, l.prev, n - 1).Unfinished?;
  }

  /** The first loop of `reconstruct_index`: follow the trailers, collecting the blocks newest first. */
  method CollectBlocks(c: Codec, f: seq<byte>, head: nat) returns (r: KvResult<seq<IndexBlock>>)
    requires WalkEnds(c, f, head)
    ensures FullWalk(c, f, head) == match r case Ok(blocks) => Walked(blocks) case Err(e) => Corrupt(e)
  {
    var blocks := [];
    var at := head;
    ghost var left: nat :| !Walk(c, f, head, left).Unfinished?;
    while at != 0
      invariant !Walk(c, f, at, left).Unfinished? && WalkEnds(c, f, at)
      invariant FullWalk(c, f, head) == Behind(blocks, FullWalk(c, f, at))
      decreases left
    {
      var link := ReadLink(c, f, at);
      if link.Err? {
        assert Walk(c, f, at, left).Corrupt?;
        return Err(link.error);
      }
      WalkUnfold(c, f, at);
      MoreBehind(blocks, link.value.block, FullWalk(c, f, link.value.prev));
      blocks := blocks + [link.value.block];
      at := link.value.prev;
      left := left - 1;
    }
    WalkAtZero(c, f);
    assert blocks + [] == blocks;
    r := Ok(blocks);
  }

  /** A walk that began with these blocks. */
  function Behind(blocks: seq<IndexBlock>, w: WalkResult): WalkResult {
    match w case Walked(bs) => Walked(blocks + bs) case other => other
  }

  lemma MoreBehind(blocks: seq<IndexBlock>, block: IndexBlock, w: WalkResult)
    ensures Behind(blocks, Behind([block], w)) == Behind(blocks + [block], w)
  {
    if w.Walked? { assert blocks + ([block] + w.blocks) == blocks + [block] + w.blocks; }
  }

  /** The second loop: insert them oldest first. */
  method InsertBlocks(blocks: seq<IndexBlock>) returns (index: KvcacheIndex)
    ensures fresh(index) && index.blockMap == BuildMap(blocks) && index.nextChunkId == BuildNextId(blocks)
  {
    index := new KvcacheIndex();
    var i := |blocks|;
    while i > 0
      invariant 0 <= i <= |blocks| && fresh(index)
      invariant index.blockMap == BuildMap(blocks[i..]) && index.nextChunkId == BuildNextId(blocks[i..])
    {
      i := i - 1;
      BuildOneMore(blocks, i);
      index.InsertEntries(blocks[i].entries);
    }
    assert blocks[0..] == blocks;
  }

  /** `reconstruct_index` terminates exactly when the walk ends, and its result is that of the walk. */
  method ReconstructIndex(c: Codec, f: seq<byte>, head: nat) returns (r: KvResult<KvcacheIndex>)
    requires WalkEnds(c, f, head)
    ensures r.Ok? <==> FullWalk(c, f, head).Walked?
    ensures r.Ok? ==> fresh(r.value)
    ensures r.Ok? ==> r.value.blockMap == BuildMap(FullWalk(c, f, head).blocks)
    ensures r.Ok? ==> r.value.nextChunkId == BuildNextId(FullWalk(c, f, head).blocks)
    ensures r.Err? ==> FullWalk(c, f, head) == Corrupt(r.error)
  {
    var blocks :- CollectBlocks(c, f, head);
    var index := InsertBlocks(blocks);
    r := Ok(index);
  }

  lemma WalkAtZero(c: Codec, f: seq<byte>)
    ensures WalkEnds(c, f, 0) && FullWalk(c, f, 0) == Walked([])
  {
    assert Walk(c, f, 0, 0) == Walked([]);
  }

  /** Inserting the entries of block i on top of the older blocks behind it. */
  lemma BuildOneMore(blocks: seq<IndexBlock>, i: nat)
    requires i < |blocks|
    ensures BuildMap(blocks[i..]) == InsertAll(BuildMap(blocks[i + 1..]), blocks[i].entries)
    ensures BuildNextId(blocks[i..]) == RaiseNextId(BuildNextId(blocks[i + 1..]), blocks[i].entries)
  {
    assert blocks[i..][1..] == blocks[i + 1..];
  }

  // ---- chains as the writer leaves them ----

  function PayloadOffset(f: seq<byte>): nat
    requires |f| >= HEADER_SIZE
  {
    HEADER_SIZE + FromLE(f[56..60])
  }

  ghost predicate EntriesInside(es: seq<ChunkIndexEntry>, lo: nat, hi: nat) {
    forall e :: e in es ==> lo <= e.byteOffset && e.byteOffset + e.byteLen <= hi
  }

  /** `at` is 0 or a trailer whose block points at payloads lying between `lo` and the
      block, and whose predecessor is such an offset again, strictly smaller. */
  ghost predicate Linked(c: Codec, f: seq<byte>, lo: nat, at: nat)
    decreases at
  {
    at == 0 ||
    (match ReadLink(c, f, at)
     case Err(_) => false
     case Ok(l) => HEADER_SIZE <= l.start && EntriesInside(l.block.entries, lo, l.start)
                   && l.prev < at && Linked(c, f, lo, l.prev))
  }

  /** The blocks reachable from `at`, newest first. */
  ghost function Chain(c: Codec, f: seq<byte>, lo: nat, at: nat): seq<IndexBlock>
    requires Linked(c, f, lo, at)
    decreases at
  {
    if at == 0 then []
    else var l := ReadLink(c, f, at).value; [l.block] + Chain(c, f, lo, l.prev)
  }

  /** On a linked chain the walk finishes within `at` steps and never errs. */
  lemma {:induction false} LinkedWalks(c: Codec, f: seq<byte>, lo: nat, at: nat, steps: nat)
    requires Linked(c, f, lo, at) && at <= steps
    ensures Walk(c, f, at, steps) == Walked(Chain(c, f, lo, at))
    ensures WalkEnds(c, f, at) && FullWalk(c, f, at) == Walked(Chain(c, f, lo, at))
    decreases at
  {
    if at != 0 { LinkedWalks(c, f, lo, ReadLink(c, f, at).value.prev, steps - 1); }
    assert Walk(c, f, at, steps) == Walked(Chain(c, f, lo, at));
  }

  lemma LinkStays(c: Codec, f: seq<byte>, g: seq<byte>, at: nat)
    requires Extends(f, g) && ReadLink(c, f, at).Ok? && ReadLink(c, f, at).value.start >= HEADER_SIZE
    ensures ReadLink(c, g, at) == ReadLink(c, f, at)
  {
    var l := ReadLink(c, f, at).value;
    assert g[at..at + TRAILER_SIZE] == f[at..at + TRAILER_SIZE];
    assert g[l.start..at] == f[l.start..at];
  }

  /** Appending and header stores never disturb a chain. */
  lemma {:induction false} ChainStays(c: Codec, f: seq<byte>, g: seq<byte>, lo: nat, at: nat)
    requires Extends(f, g) && Linked(c, f, lo, at)
    ensures Linked(c, g, lo, at) && Chain(c, g, lo, at) == Chain(c, f, lo, at)
    decreases at
  {
    if at != 0 {
      LinkStays(c, f, g, at);
      ChainStays(c, f, g, lo, ReadLink(c, f, at).value.prev);
    }
  }

  lemma {:induction false} ChainEntriesInside(c: Codec, f: seq<byte>, lo: nat, at: nat, k: Key)
    requires Linked(c, f, lo, at)
    requires Lookup(Chain(c, f, lo, at), k).Some?
    ensures var e := Lookup(Chain(c, f, lo, at), k).value;
      KeyOf(e) == k && lo <= e.byteOffset && e.byteOffset + e.byteLen <= at <= |f|
    decreases at
  {
    var l := ReadLink(c, f, at).value;
    assert Chain(c, f, lo, at)[1..] == Chain(c, f, lo, l.prev);
    if FindLast(l.block.entries, k).None? { ChainEntriesInside(c, f, lo, l.prev, k); }
  }

  // ---- an opened reader ----

  /** What `KvcacheReader::open` keeps: the header and index as of opening, and the
      extent of the mapping. */
  datatype KvcacheReader = Reader(
    header: KvCacheHeader, blockMap: map<Key, ChunkIndexEntry>, nextChunkId: nat,
    payloadOffset: nat, mappedLen: nat)

  ghost function Open(c: Codec, f: seq<byte>): (r: KvResult<KvcacheReader>)
    requires Decode(f).Ok? ==> WalkEnds(c, f, Decode(f).value.indexHeadOffset)
  {
    var h :- Decode(f);
    if HEADER_SIZE + h.metadataLen > |f| then Err(Layout)
    else match FullWalk(c, f, h.indexHeadOffset)
      case Walked(blocks) =>
        Ok(Reader(h, BuildMap(blocks), BuildNextId(blocks), HEADER_SIZE + h.metadataLen, |f|))
      case Corrupt(e) => Err(e)
      case Unfinished => Err(Panic)
  }

  /** `KvcacheReader::open`; the metadata block's own CBOR is not decoded here. */
  method OpenReader(c: Codec, f: seq<byte>) returns (r: KvResult<KvcacheReader>)
    requires Decode(f).Ok? ==> WalkEnds(c, f, Decode(f).value.indexHeadOffset)
    ensures r == Open(c, f)
  {
    var h :- Decode(f);
    var metadataEnd := HEADER_SIZE + h.metadataLen;
    if metadataEnd > |f| { return Err(Layout); }
    var index :- ReconstructIndex(c, f, h.indexHeadOffset);
    r := Ok(Reader(h, index.blockMap, index.nextChunkId, metadataEnd, |f|));
  }

  /** A file opens if and only if it has a header with the right magic and a metadata block
      inside the file, and the walk from the head at offset 48 meets only good trailers. */
  lemma OpensIff(c: Codec, f: seq<byte>)
    requires Decode(f).Ok? ==> WalkEnds(c, f, Decode(f).value.indexHeadOffset)
    ensures Decode(f).Ok? <==> |f| >= 64 && f[..8] == [0x4E, 0x43, 0x46, 0x4B, 0x56, 0x43, 0x43, 0x48]
    ensures Decode(f).Err? || 64 + FromLE(f[56..60]) > |f| ==> Open(c, f) == Err(Layout)
    ensures Decode(f).Ok? && 64 + FromLE(f[56..60]) <= |f| ==>
      && WalkEnds(c, f, Word(f, 48))
      && match FullWalk(c, f, Word(f, 48))
         case Walked(blocks) =>
           && Open(c, f).Ok? && Open(c, f).value.payloadOffset == 64 + FromLE(f[56..60]) && Open(c, f).value.mappedLen == |f|
           && Decode(f) == Ok(Open(c, f).value.header)
         case Corrupt(e) => Open(c, f) == Err(e)
         case Unfinished => false
  {
    if Decode(f).Ok? {
      assert Decode(f).value.indexHeadOffset == Word(f, 48);
      var n: nat :| !Walk(c, f, Word(f, 48), n).Unfinished?;
    }
  }

  /** One trailer of the walk: the end, a bad trailer, or its block and the walk from its
      predecessor. */
  lemma WalkGoes(c: Codec, f: seq<byte>, at: nat)
    requires WalkEnds(c, f, at)
    ensures at == 0 ==> FullWalk(c, f, at) == Walked([])
    ensures at != 0 && !GoodTrailer(c, f, at) ==> ReadLink(c, f, at).Err? && FullWalk(c, f, at) == Corrupt(ReadLink(c, f, at).error)
    ensures at != 0 && GoodTrailer(c, f, at) ==>
      && WalkEnds(c, f, Word(f, at + 16))
      && match FullWalk(c, f, Word(f, at + 16))
         case Walked(bs) => FullWalk(c, f, at) == Walked([c.dec(f[at - Word(f, at + 8)..at]).value] + bs)
         case other => FullWalk(c, f, at) == other
  {
    FollowsIffGood(c, f, at);
    if at != 0 && GoodTrailer(c, f, at) { WalkUnfold(c, f, at); }
  }

  /** A read either finds nothing, yields bytes, or slices out of range (a panic). */
  datatype Fetched = Missing | Got(bytes: seq<byte>) | OutOfRange

  function Slice(r: KvcacheReader, f: seq<byte>, start: nat, end: nat): Fetched
    requires r.payloadOffset <= r.mappedLen <= |f|
  {
    if start <= end && r.payloadOffset + end <= r.mappedLen
    then Got(f[r.payloadOffset + start..r.payloadOffset + end])
    else OutOfRange
  }

  /** `block_bytes` of a reader opened earlier, on the file's present bytes f. */
  function BlockBytes(r: KvcacheReader, f: seq<byte>, layer: nat, head: nat, blockIdx: nat): Fetched
    requires r.payloadOffset <= r.mappedLen <= |f|
  {
    var k := Key(layer, head, blockIdx);
    if k !in r.blockMap then Missing
    else
      var e := r.blockMap[k];
      if e.byteOffset < r.payloadOffset then Missing
      else
        var start := e.byteOffset - r.payloadOffset;
        if start + e.byteLen >= TWO_64 then Missing
        else Slice(r, f, start, start + e.byteLen)
  }

  /** `block_token_count`: the count in the entry, as of opening. */
  function BlockTokenCount(r: KvcacheReader, layer: nat, head: nat, blockIdx: nat): Option<nat> {
    var k := Key(layer, head, blockIdx);
    if k in r.blockMap then Some(r.blockMap[k].tokenCount) else None
  }

  /** `token_bytes`: the visible count is read live, the index is the one of opening. */
  function TokenBytes(r: KvcacheReader, f: seq<byte>, layer: nat, head: nat, token: nat): Fetched
    requires HEADER_SIZE <= r.payloadOffset <= r.mappedLen <= |f|
  {
    if token >= Valid(f) then Missing
    else
      var k := Key(layer, head, token / BLOCK_TOKEN_COUNT);
      if k !in r.blockMap then Missing
      else
        var e := r.blockMap[k];
        if e.byteOffset < r.payloadOffset then Missing
        else
          var skip := token % BLOCK_TOKEN_COUNT * r.header.elementBytes;
          var start := e.byteOffset - r.payloadOffset + (if skip < TWO_64 then skip else TWO_64 - 1);
          if start >= TWO_64 || start + r.header.elementBytes >= TWO_64 then Missing
          else Slice(r, f, start, start + r.header.elementBytes)
  }
}
