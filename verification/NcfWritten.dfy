/** The file that finalize writes, field by field, and when it writes none. */
module NcfWritten {
  import opened Bytes
  import opened NcfFormat
  import opened NcfWriter
  import opened NcfReader
  import opened NcfLayout
  import opened NcfOpening

  /** The first 48 bytes of the written file: magic, version, flags, and the extents of the blocks. The
      compressed flag is set if it was asked for or some tensor, whichever, is to be compressed. */
  lemma WrittenPrefix(c: Codecs, meta: Metadata, flags: NcfFlags, ts: seq<Tensor>, p: Plan, g: Blob)
    requires PlanOf(c, meta, flags, ts, p) && g == Emit(p)
    ensures |g| >= 48 && g[..8] == [0x4E, 0x43, 0x46, 0x00, 0xDE, 0xAD, 0xBE, 0xEF] && FromLE(g[8..12]) == 0x0001_0000
    ensures FromLE(g[12..16]) % 2 == 1
      <==> flags.compressed || exists i :: 0 <= i < |ts| && ts[i].schema.compression != NoCompression
    ensures FromLE(g[12..16]) / 2 % 2 == 1 <==> flags.encrypted
    ensures FromLE(g[12..16]) / 4 % 2 == 1 <==> flags.streamingSafe
    ensures HeaderLen(g) == |c.encHeader(meta)| && SchemaStart(g) == 48 + |c.encHeader(meta)|
    ensures IndexStart(g) == SchemaStart(g) + |c.encSchemas(p.schemas)| + Span(p.chunks) && Word(g, 40) == |ts|
  {
    PlanNumbers(c, meta, flags, ts, p);
    LayoutAgrees(c, meta, flags, ts, p);
    PrefixAt(g);
  }

  /** Chunk i of the written file: behind schemas and earlier chunks, a header with its number, the
      length-based flag and both lengths; then the packed payload; then the payload's hash. */
  lemma WrittenChunk(c: Codecs, meta: Metadata, flags: NcfFlags, ts: seq<Tensor>, p: Plan, g: Blob, i: nat, at: nat)
    returns (packed: Blob)
    requires PlanOf(c, meta, flags, ts, p) && g == Emit(p) && i < |ts| && |p.chunks| == |ts| && at == EmittedAt(p, i)
    ensures if ts[i].schema.compression == NoCompression then packed == ts[i].payload
            else c.pack(ts[i].payload, ts[i].schema.compression) == Some(packed)
    ensures at + 62 + |packed| <= |g| && g[at..at + 4] == [0x4E, 0x43, 0x46, 0x4B]
    ensures Word(g, at + 4) == i && FromLE(g[at + 12..at + 14]) == if |packed| == |ts[i].payload| then 0 else 1
    ensures Word(g, at + 14) == |ts[i].payload| && Word(g, at + 22) == |packed|
    ensures g[at + 30..at + 30 + |packed|] == packed
    ensures g[at + 30 + |packed|..at + 62 + |packed|] == c.hash(ts[i].payload)
  {
    PlanParts(c, meta, flags, ts, p);
    PrepareLengths(c, ts);
    ChunkIsThere(c, meta, flags, ts, p, i);
    packed := p.chunks[i].packed;
    ChunkAt(g, at, p.chunks[i], i);
  }

  lemma ChunkAt(g: seq<byte>, at: nat, chunk: Prepared, i: nat)
    requires i < MAX_VEC && chunk.uncompressedLen < TWO_64 && Holds(g, at, ChunkBytes(chunk, i))
    ensures var n := |chunk.packed|;
      && at + 62 + n <= |g| && g[at..at + 4] == [0x4E, 0x43, 0x46, 0x4B]
      && Word(g, at + 4) == i && FromLE(g[at + 12..at + 14]) == (if n == chunk.uncompressedLen then 0 else 1)
      && Word(g, at + 14) == chunk.uncompressedLen && Word(g, at + 22) == n
      && g[at + 30..at + 30 + n] == chunk.packed && g[at + 30 + n..at + 62 + n] == chunk.checksum
  {
    var b := ChunkBytes(chunk, i);
    var n := |chunk.packed|;
    ChunkParts(chunk, i);
    SliceOfSlice(g, at, at + |b|, 0, 30);
    SliceOfSlice(g, at, at + |b|, 30, 30 + n);
    SliceOfSlice(g, at, at + |b|, 30 + n, 62 + n);
    assert b[30 + n..62 + n] == b[30 + n..];
    HeaderWordsAt(g, at, HeaderFor(chunk, i));
  }

  lemma HeaderWordsAt(g: seq<byte>, at: nat, h: ChunkHeader)
    requires at + 30 <= |g| && DecodeChunkHeader(g[at..at + 30]) == Ok(h)
    ensures g[at..at + 4] == [0x4E, 0x43, 0x46, 0x4B]
    ensures Word(g, at + 4) == h.chunkId && FromLE(g[at + 12..at + 14]) == h.flags
    ensures Word(g, at + 14) == h.uncompressedLen && Word(g, at + 22) == h.compressedLen
  {
    SliceOfSlice(g, at, at + 30, 0, 4);
    SliceOfSlice(g, at, at + 30, 4, 12);
    SliceOfSlice(g, at, at + 30, 12, 14);
    SliceOfSlice(g, at, at + 30, 14, 22);
    SliceOfSlice(g, at, at + 30, 22, 30);
  }

  /** What schema and index record about tensor i: the schema as given with one reference in place of
      whatever references it had, and an entry with the same numbers and the name's hash. The
      first reference is behind prefix, metadata and placeholder schemas, each other one behind the one before. */
  lemma WrittenRecords(c: Codecs, meta: Metadata, flags: NcfFlags, ts: seq<Tensor>, p: Plan, i: nat)
    requires PlanOf(c, meta, flags, ts, p) && i < |ts|
    ensures |p.schemas| == |p.index.entries| == |p.chunks| == |ts| && |p.schemas[i].chunks| == 1
    ensures var s, t, r, e := p.schemas[i], ts[i].schema, p.schemas[i].chunks[0], p.index.entries[i];
      && s.name == t.name && s.dtype == t.dtype && s.shape == t.shape && s.layout == t.layout
      && s.compression == t.compression && s.encoding == t.encoding
      && r.chunkId == i && r.byteLen == 62 + |p.chunks[i].packed| && r.uncompressedLen == |ts[i].payload|
      && r.checksum == c.hash(ts[i].payload)
      && e == IndexEntry(i, r.byteOffset, r.byteLen, c.nameHash(t.name))
    ensures p.index.entries[i].byteOffset ==
      if i == 0 then 48 + |c.encHeader(meta)| + |c.encSchemas(Placeholders(ts))|
      else p.index.entries[i - 1].byteOffset + p.index.entries[i - 1].byteLen
  {
    PlanParts(c, meta, flags, ts, p);
    PlanNumbers(c, meta, flags, ts, p);
    PrepareLengths(c, ts);
    if i == 0 { assert p.chunks[..0] == []; } else { RecordedRanges(c, meta, flags, ts, p, i - 1, i); }
  }

  // ---- when there is no file ----

  lemma {:induction false} PreparesIffPacks(c: Codecs, ts: seq<Tensor>)
    ensures Prepare(c, ts).Ok? <==> forall i :: 0 <= i < |ts| ==> CompressPayload(c, ts[i].payload, ts[i].schema.compression).Some?
    ensures Prepare(c, ts).Err? ==> Prepare(c, ts) == Err(Other)
  {
    if ts != [] { PreparesIffPacks(c, ts[..|ts| - 1]); }
  }

  /** The final schemas and the index keep to their sizes. */
  ghost predicate BlocksFit(c: Codecs, header: seq<byte>, ps: seq<Prepared>, schemas: seq<TensorSchema>, index: NcfIndex) {
    && |c.encSchemas(schemas)| <= 256 * 1024 * 1024
    && 48 + |header| + |c.encSchemas(schemas)| + Span(ps) < 0x1_0000_0000_0000_0000
    && |c.encIndex(index)| <= 128 * 1024 * 1024
  }

  lemma SealsIff(c: Codecs, flags: NcfFlags, header: seq<byte>, ps: seq<Prepared>, compressed: bool,
                 schemas: seq<TensorSchema>, entries: seq<IndexEntry>, tensorMap: map<Name, u64>)
    requires |ps| < MAX_VEC && |header| <= MAX_HEADER_SIZE
    ensures var r := Seal(c, flags, header, ps, compressed, schemas, entries, tensorMap);
      (r.Ok? <==> BlocksFit(c, header, ps, schemas, NcfIndex(|ps|, entries, tensorMap))) && (r.Err? ==> r.error == Header)
  {
  }

  /** The chunks fit behind the placeholder schemas, and the final blocks fit too. */
  ghost predicate Fits(c: Codecs, header: seq<byte>, ts: seq<Tensor>, ps: seq<Prepared>, base: nat) {
    && |c.encSchemas(Placeholders(ts))| <= 256 * 1024 * 1024 && base + Span(ps) < 0x1_0000_0000_0000_0000
    && Planned(ts, ps, base)
    && BlocksFit(c, header, ps, FinalSchemas(ts, ps, base), NcfIndex(|ts|, Entries(c, ts, ps, base), TensorMap(ts)))
  }

  lemma PlansIff(c: Codecs, meta: Metadata, flags: NcfFlags, ts: seq<Tensor>, header: seq<byte>, ps: seq<Prepared>, base: nat)
    requires |ts| < MAX_VEC && header == c.encHeader(meta) && |header| <= MAX_HEADER_SIZE && Prepare(c, ts) == Ok(ps)
    requires base == BaseOffset(c, header, ts)
    ensures MakePlan(c, meta, flags, ts).Ok? <==> Fits(c, header, ts, ps, base)
    ensures MakePlan(c, meta, flags, ts).Err? ==> MakePlan(c, meta, flags, ts).error == Header
  {
    PrepareLengths(c, ts);
    if Planned(ts, ps, base) {
      SealsIff(c, flags, header, ps, AnyCompressed(ts), FinalSchemas(ts, ps, base), Entries(c, ts, ps, base), TensorMap(ts));
    }
  }

  /** finalize writes a file if and only if the metadata block is of legal size, every payload packs, and
      the planned blocks fit. A payload that does not pack is the only failure with an error of its own. */
  lemma FinalizesIff(c: Codecs, meta: Metadata, flags: NcfFlags, ts: seq<Tensor>)
    requires |ts| < MAX_VEC
    ensures Prepare(c, ts).Ok? <==> forall i :: 0 <= i < |ts| ==>
      ts[i].schema.compression == NoCompression || c.pack(ts[i].payload, ts[i].schema.compression).Some?
    ensures |c.encHeader(meta)| > 64 * 1024 * 1024 ==> MakePlan(c, meta, flags, ts) == Err(Header)
    ensures |c.encHeader(meta)| <= 64 * 1024 * 1024 && Prepare(c, ts).Err? ==> MakePlan(c, meta, flags, ts) == Err(Other)
    ensures |c.encHeader(meta)| <= 64 * 1024 * 1024 && Prepare(c, ts).Ok? ==>
      var base := 48 + |c.encHeader(meta)| + |c.encSchemas(Placeholders(ts))|;
      && (MakePlan(c, meta, flags, ts).Ok? <==> Fits(c, c.encHeader(meta), ts, Prepare(c, ts).value, base))
      && (MakePlan(c, meta, flags, ts).Err? ==> MakePlan(c, meta, flags, ts).error == Header)
  {
    PreparesIffPacks(c, ts);
    var header := c.encHeader(meta);
    if |header| <= MAX_HEADER_SIZE && Prepare(c, ts).Ok? {
      PlansIff(c, meta, flags, ts, header, Prepare(c, ts).value, BaseOffset(c, header, ts));
    }
  }
}
