/** The planned offsets against the emitted bytes, and the written file against the reader. */
module NcfLayout {
  import opened Bytes
  import opened NcfFormat
  import opened NcfWriter
  import opened NcfReader

  // ---- where things are ----

  /** Where chunk i is emitted. */
  function EmittedAt(p: Plan, i: nat): nat
    requires i <= |p.chunks|
  {
    p.prefix.schemaOffset + |p.schemaBytes| + Span(p.chunks[..i])
  }

  lemma {:induction false} ChunkInStream(ps: seq<Prepared>, i: nat)
    requires i < |ps| < MAX_VEC && forall j :: 0 <= j < |ps| ==> ps[j].uncompressedLen < TWO_64
    ensures Holds(EmittedChunks(ps), Span(ps[..i]), ChunkBytes(ps[i], i))
  {
    var k := |ps| - 1;
    var init := ps[..k];
    if i < k {
      ChunkInStream(init, i);
      assert init[..i] == ps[..i];
      HoldsFirst(EmittedChunks(init), ChunkBytes(ps[k], k), Span(ps[..i]), ChunkBytes(ps[i], i));
    } else {
      HoldsSecond(EmittedChunks(init), ChunkBytes(ps[k], k));
    }
  }

  /** The parts of a concatenation, by position. */
  lemma PartsAt(a: seq<byte>, b: seq<byte>, s: seq<byte>, t: seq<byte>, i: seq<byte>, m: seq<byte>, n: seq<byte>)
    ensures var g := a + b + s + t + i + m + n;
      var ob, os := |a|, |a| + |b|;
      var ot := os + |s|; var oi := ot + |t|; var om := oi + |i|; var on := om + |m|;
      && |g| == on + |n|
      && g[..|a|] == a && g[ob..os] == b && g[os..ot] == s && g[os..oi] == s + t && g[ot..oi] == t
      && g[oi..om] == i && g[om..on] == m && g[on..] == n
  {
  }

  ghost predicate PlanOf(c: Codecs, meta: Metadata, flags: NcfFlags, ts: seq<Tensor>, p: Plan) {
    |ts| < MAX_VEC && MakePlan(c, meta, flags, ts) == Ok(p) && Emittable(p)
  }

  /** The prefix gives the offsets of the blocks. */
  ghost predicate Consistent(p: Plan) {
    && Emittable(p) && |p.indexBytes| <= MAX_INDEX_SIZE
    && p.prefix.headerLen == |p.header| && p.prefix.schemaOffset == PREFIX_SIZE + |p.header|
    && p.prefix.indexOffset == p.prefix.schemaOffset + |p.schemaBytes| + Span(p.chunks)
  }

  /** The numbers of a plan. */
  lemma PlanNumbers(c: Codecs, meta: Metadata, flags: NcfFlags, ts: seq<Tensor>, p: Plan)
    requires PlanOf(c, meta, flags, ts, p)
    ensures p.header == c.encHeader(meta) && p.schemaBytes == c.encSchemas(p.schemas) && p.indexBytes == c.encIndex(p.index)
    ensures |p.header| <= MAX_HEADER_SIZE && |p.schemaBytes| <= MAX_SCHEMA_SIZE && Consistent(p)
    ensures |p.chunks| == |ts| == p.prefix.chunkCount == p.index.entryCount
    ensures p.prefix.version == 0x0001_0000
    ensures p.prefix.flags.compressed
      <==> flags.compressed || exists i :: 0 <= i < |ts| && ts[i].schema.compression != NoCompression
    ensures p.prefix.flags.encrypted == flags.encrypted && p.prefix.flags.streamingSafe == flags.streamingSafe
  {
  }

  /** The blocks lie where the prefix says, and nothing follows the footer. */
  ghost predicate LaidOut(p: Plan)
    requires Consistent(p)
  {
    var g, so, io, n := Emit(p), p.prefix.schemaOffset, p.prefix.indexOffset, |p.indexBytes|;
    && |g| == io + n + FOOTER_SIZE
    && DecodePrefix(g[..PREFIX_SIZE]) == Ok(p.prefix)
    && g[PREFIX_SIZE..PREFIX_SIZE + p.prefix.headerLen] == p.header && so == PREFIX_SIZE + p.prefix.headerLen
    && so + |p.schemaBytes| <= io && g[so..so + |p.schemaBytes|] == p.schemaBytes
    && g[so..io] == p.schemaBytes + EmittedChunks(p.chunks)
    && g[io..io + n] == p.indexBytes
    && g[io + n..io + n + 8] == FOOTER_MAGIC && g[io + n + 8..] == LE(n, 8)
  }

  lemma ConsistentIsLaidOut(p: Plan)
    requires Consistent(p)
    ensures LaidOut(p)
  {
    PartsAt(EncodedPrefix(p.prefix), p.header, p.schemaBytes, EmittedChunks(p.chunks), p.indexBytes,
            FOOTER_MAGIC, LE(|p.indexBytes|, 8));
    PrefixRoundTrip(p.prefix);
  }

  /** Layout: the blocks lie where the prefix says, each chunk lies behind the schemas and
      the chunks before it, and nothing follows the footer. */
  lemma LayoutAgrees(c: Codecs, meta: Metadata, flags: NcfFlags, ts: seq<Tensor>, p: Plan)
    requires PlanOf(c, meta, flags, ts, p)
    ensures Consistent(p) && LaidOut(p)
  {
    PlanNumbers(c, meta, flags, ts, p);
    ConsistentIsLaidOut(p);
  }

  lemma ChunkInPlan(p: Plan, i: nat)
    requires Consistent(p) && LaidOut(p) && i < |p.chunks|
    ensures Holds(Emit(p), EmittedAt(p, i), ChunkBytes(p.chunks[i], i))
  {
    ChunkInStream(p.chunks, i);
    InArea(Emit(p), p.prefix.schemaOffset, p.schemaBytes, EmittedChunks(p.chunks), Span(p.chunks[..i]), ChunkBytes(p.chunks[i], i));
  }

  /** Each chunk's bytes are found behind the schemas and the chunks before it. */
  lemma ChunkIsThere(c: Codecs, meta: Metadata, flags: NcfFlags, ts: seq<Tensor>, p: Plan, i: nat)
    requires PlanOf(c, meta, flags, ts, p) && i < |p.chunks|
    ensures Holds(Emit(p), EmittedAt(p, i), ChunkBytes(p.chunks[i], i))
  {
    LayoutAgrees(c, meta, flags, ts, p);
    ChunkInPlan(p, i);
  }

  lemma InArea(g: seq<byte>, so: nat, s: seq<byte>, t: seq<byte>, at: nat, x: seq<byte>)
    requires Holds(g, so, s + t) && Holds(t, at, x)
    ensures Holds(g, so + |s| + at, x)
  {
    HoldsBehind(s, t, at, x);
    HoldsInside(g, so, s + t, |s| + at, x);
  }

  // ---- opening ----

  /** The reader measures schemas and chunks together against the schema limit: a written
      file opens if and only if they fit, and then everything comes back. */
  lemma OpensIffSchemaAreaFits(c: Codecs, meta: Metadata, flags: NcfFlags, ts: seq<Tensor>, p: Plan)
    requires Lawful(c) && PlanOf(c, meta, flags, ts, p) && |Emit(p)| < MAX_VEC
    ensures Open(c, Emit(p)).Ok? <==> |p.schemaBytes| + Span(p.chunks) <= MAX_SCHEMA_SIZE
    ensures Open(c, Emit(p)).Ok? ==>
      var o := Open(c, Emit(p)).value;
      && InFile(o, Emit(p)) && o.metadata == meta && o.prefix == p.prefix && o.index == p.index
      && o.chunkMap == ChunkMap(p.index.entries) && SchemasOf(c, Emit(p), o) == Ok(p.schemas)
  {
    LayoutAgrees(c, meta, flags, ts, p);
    PlanNumbers(c, meta, flags, ts, p);
    IndexOpens(c, Emit(p), p.prefix.indexOffset, p.index);
  }

  lemma IndexOpens(c: Codecs, g: Blob, io: nat, index: NcfIndex)
    requires c.decIndex(c.encIndex(index)) == Some(index) && |c.encIndex(index)| <= MAX_INDEX_SIZE
    requires var n := |c.encIndex(index)|;
      && |g| == io + n + FOOTER_SIZE && g[io..io + n] == c.encIndex(index)
      && g[io + n..io + n + 8] == FOOTER_MAGIC && g[io + n + 8..] == LE(n, 8)
    ensures OpenIndex(c, g, io) == Ok(index)
  {
    var n := |c.encIndex(index)|;
    assert g[io + n + 8..io + n + 16] == g[io + n + 8..];
    WordOfLE(n);
  }

  // ---- recorded ranges and the two lookup paths ----

  /** Schemas and index as planned for a first chunk at `base`. */
  ghost predicate PartsOf(c: Codecs, ts: seq<Tensor>, p: Plan, base: nat) {
    && Planned(ts, p.chunks, base) && p.schemas == FinalSchemas(ts, p.chunks, base)
    && p.index == NcfIndex(|ts|, Entries(c, ts, p.chunks, base), TensorMap(ts))
  }

  lemma PlanParts(c: Codecs, meta: Metadata, flags: NcfFlags, ts: seq<Tensor>, p: Plan)
    requires PlanOf(c, meta, flags, ts, p)
    ensures PartsOf(c, ts, p, BaseOffset(c, p.header, ts)) && Prepare(c, ts) == Ok(p.chunks)
  {
    var ps := Prepare(c, ts).value;
    PrepareLengths(c, ts);
    SealParts(c, flags, c.encHeader(meta), ps, AnyCompressed(ts), p.schemas, p.index.entries, p.index.tensorMap, p);
  }

  lemma SealParts(c: Codecs, flags: NcfFlags, header: seq<byte>, ps: seq<Prepared>, compressed: bool,
                  schemas: seq<TensorSchema>, entries: seq<IndexEntry>, tensorMap: map<Name, u64>, p: Plan)
    requires |ps| < MAX_VEC && |header| <= MAX_HEADER_SIZE
    requires Seal(c, flags, header, ps, compressed, schemas, entries, tensorMap) == Ok(p)
    ensures p.header == header && p.chunks == ps && p.schemas == schemas && p.index == NcfIndex(|ps|, entries, tensorMap)
  {
  }

  lemma RangesOfParts(c: Codecs, ts: seq<Tensor>, p: Plan, base: nat, i: nat, j: nat)
    requires PartsOf(c, ts, p, base) && i < j < |ts|
    ensures var e := p.index.entries;
      && e[i].byteOffset + e[i].byteLen <= e[j].byteOffset
      && (j == i + 1 ==> e[i].byteOffset + e[i].byteLen == e[j].byteOffset)
  {
    SpanPrefix(p.chunks, i);
    SpanPrefix(p.chunks[..j], i + 1);
    assert p.chunks[..j][..i + 1] == p.chunks[..i + 1];
    if j == i + 1 { assert p.chunks[..j] == p.chunks[..i + 1]; }
  }

  /** The recorded ranges follow one another without a gap, so no two of them overlap. */
  lemma RecordedRanges(c: Codecs, meta: Metadata, flags: NcfFlags, ts: seq<Tensor>, p: Plan, i: nat, j: nat)
    requires PlanOf(c, meta, flags, ts, p) && i < j < |ts|
    ensures |p.index.entries| == |ts|
    ensures var e := p.index.entries; e[i].byteOffset + e[i].byteLen <= e[j].byteOffset
    ensures var e := p.index.entries; j == i + 1 ==> e[i].byteOffset + e[i].byteLen == e[j].byteOffset
  {
    PlanParts(c, meta, flags, ts, p);
    RangesOfParts(c, ts, p, BaseOffset(c, p.header, ts), i, j);
  }

  /** The last tensor added under a name. */
  ghost predicate LastNamed(ts: seq<Tensor>, name: Name, i: nat) {
    i < |ts| && ts[i].schema.name == name && forall j :: i < j < |ts| ==> ts[j].schema.name != name
  }

  ghost predicate Named(ts: seq<Tensor>, name: Name) {
    exists i :: 0 <= i < |ts| && ts[i].schema.name == name
  }

  lemma {:induction false} TensorMapIsLast(ts: seq<Tensor>, name: Name)
    requires |ts| < MAX_VEC
    ensures name in TensorMap(ts) <==> Named(ts, name)
    ensures name in TensorMap(ts) ==> LastNamed(ts, name, TensorMap(ts)[name])
  {
    if ts != [] {
      var k := |ts| - 1;
      TensorMapIsLast(ts[..k], name);
      if Named(ts[..k], name) {
        var i :| 0 <= i < k && ts[..k][i].schema.name == name;
        assert ts[i].schema.name == name;
      }
    }
  }

  lemma {:induction false} SchemaMapIsLast(ts: seq<Tensor>, ss: seq<TensorSchema>, name: Name)
    requires |ss| == |ts| < MAX_VEC && forall i :: 0 <= i < |ts| ==> ss[i].name == ts[i].schema.name
    ensures name in SchemaMap(ss) <==> name in TensorMap(ts)
    ensures name in SchemaMap(ss) ==> SchemaMap(ss)[name] == TensorMap(ts)[name]
  {
    if ts != [] {
      var k := |ts| - 1;
      SchemaMapIsLast(ts[..k], ss[..k], name);
    }
  }

  lemma {:induction false} ChunkMapIsIndexing(es: seq<IndexEntry>, i: nat)
    requires i < |es| && forall j :: 0 <= j < |es| ==> es[j].chunkId == j
    ensures i in ChunkMap(es) && ChunkMap(es)[i] == es[i]
  {
    if i < |es| - 1 { ChunkMapIsIndexing(es[..|es| - 1], i); }
  }

  /** Index and schemas send a name to the same chunk, that of the last tensor added under it. */
  ghost predicate PathsAgree(c: Codecs, ts: seq<Tensor>, p: Plan, name: Name)
    requires name in p.index.tensorMap && FindIn(p.schemas, name).Some?
  {
    var id := p.index.tensorMap[name];
    var m := ChunkMap(p.index.entries);
    var s := FindIn(p.schemas, name).value;
    && LastNamed(ts, name, id) && id in m && |s.chunks| == 1
    && m[id].chunkId == s.chunks[0].chunkId == id
    && m[id].byteOffset == s.chunks[0].byteOffset && m[id].byteLen == s.chunks[0].byteLen
    && m[id].nameHash == c.nameHash(name)
  }

  lemma PathsOfParts(c: Codecs, ts: seq<Tensor>, p: Plan, base: nat, name: Name)
    requires PartsOf(c, ts, p, base)
    ensures name in p.index.tensorMap <==> Named(ts, name)
    ensures FindIn(p.schemas, name).Some? <==> Named(ts, name)
    ensures Named(ts, name) ==> PathsAgree(c, ts, p, name)
  {
    TensorMapIsLast(ts, name);
    SchemaMapIsLast(ts, p.schemas, name);
    if Named(ts, name) { ChunkMapIsIndexing(p.index.entries, p.index.tensorMap[name]); }
  }

  /** For every name, repeated ones included, the path through the index and the path
      through the schemas name the same chunk: that of the last tensor added under it. */
  lemma LookupPathsAgree(c: Codecs, meta: Metadata, flags: NcfFlags, ts: seq<Tensor>, p: Plan, name: Name)
    requires PlanOf(c, meta, flags, ts, p)
    ensures name in p.index.tensorMap <==> Named(ts, name)
    ensures FindIn(p.schemas, name).Some? <==> Named(ts, name)
    ensures Named(ts, name) ==> PathsAgree(c, ts, p, name)
  {
    PlanParts(c, meta, flags, ts, p);
    PathsOfParts(c, ts, p, BaseOffset(c, p.header, ts), name);
  }

  // ---- reading a chunk that is where the schema says ----

  /** How far the recorded offsets fall short of the emitted ones: the same for all chunks. */
  lemma Shortfall(c: Codecs, meta: Metadata, flags: NcfFlags, ts: seq<Tensor>, p: Plan, i: nat)
    requires PlanOf(c, meta, flags, ts, p) && i < |ts|
    ensures |p.schemas| == |p.chunks| == |ts| && |p.schemas[i].chunks| == 1
    ensures p.schemas[i].chunks[0] == ChunkRef(i, p.schemas[i].chunks[0].byteOffset, ChunkLen(p.chunks[i]),
                                               |ts[i].payload|, c.hash(ts[i].payload))
    ensures EmittedAt(p, i) - p.schemas[i].chunks[0].byteOffset == |p.schemaBytes| - |c.encSchemas(Placeholders(ts))|
  {
    PlanParts(c, meta, flags, ts, p);
    PlanNumbers(c, meta, flags, ts, p);
    PrepareLengths(c, ts);
  }

  /** Compression undoes itself. */
  ghost predicate Unpacks(c: Codecs) {
    forall d: Blob, m :: m != NoCompression && c.pack(d, m).Some? ==> c.unpack(c.pack(d, m).value, m) == Some(d)
  }

  /** The flag in the chunk header says compressed exactly when the schema does. */
  ghost predicate FlagHonest(t: Tensor, chunk: Prepared) {
    (|chunk.packed| != |t.payload|) == (t.schema.compression != NoCompression)
  }

  lemma ChunkParts(chunk: Prepared, i: nat)
    requires i < MAX_VEC && chunk.uncompressedLen < TWO_64
    ensures var b := ChunkBytes(chunk, i); var n := |chunk.packed|;
      && DecodeChunkHeader(b[..CHUNK_HEADER_SIZE]) == Ok(HeaderFor(chunk, i))
      && b[CHUNK_HEADER_SIZE..CHUNK_HEADER_SIZE + n] == chunk.packed
      && b[CHUNK_HEADER_SIZE + n..] == chunk.checksum
  {
    ChunkHeaderRoundTrip(HeaderFor(chunk, i));
    var h := EncodedChunkHeader(HeaderFor(chunk, i));
    assert ChunkBytes(chunk, i) == h + chunk.packed + chunk.checksum;
    assert ChunkBytes(chunk, i)[..CHUNK_HEADER_SIZE] == h;
  }

  /** The parts of chunk i lie where the reference points. */
  ghost predicate ChunkFound(f: Blob, chunk: Prepared, i: nat, ref: ChunkRef)
    requires i < MAX_VEC && chunk.uncompressedLen < TWO_64
  {
    var at, n := ref.byteOffset + CHUNK_HEADER_SIZE, |chunk.packed|;
    && at + n + CHECKSUM_SIZE <= |f| && ref.byteLen == CHUNK_OVERHEAD + n && ref.chunkId == i
    && HeaderAt(f, ref) == Ok(HeaderFor(chunk, i))
    && f[at..at + n] == chunk.packed && f[at + n..at + n + CHECKSUM_SIZE] == chunk.checksum
  }

  lemma HeldChunkFound(f: Blob, chunk: Prepared, i: nat, ref: ChunkRef)
    requires i < MAX_VEC && chunk.uncompressedLen < TWO_64
    requires ref.chunkId == i && ref.byteLen == ChunkLen(chunk) && Holds(f, ref.byteOffset, ChunkBytes(chunk, i))
    ensures ChunkFound(f, chunk, i, ref)
  {
    var at, n := ref.byteOffset, |chunk.packed|;
    ChunkParts(chunk, i);
    SliceOfSlice(f, at, at + ref.byteLen, 0, CHUNK_HEADER_SIZE);
    SliceOfSlice(f, at, at + ref.byteLen, CHUNK_HEADER_SIZE, CHUNK_HEADER_SIZE + n);
    SliceOfSlice(f, at, at + ref.byteLen, CHUNK_HEADER_SIZE + n, ref.byteLen);
  }

  /** Decompressing what was packed gives the payload back. */
  lemma PackedUnpacks(c: Codecs, t: Tensor, chunk: Prepared)
    requires Unpacks(c) && CompressPayload(c, t.payload, t.schema.compression) == Some(chunk.packed)
    ensures Decompress(c, chunk.packed, t.schema.compression) == Some(t.payload)
  {
  }

  lemma FoundChunkReads(c: Codecs, f: Blob, t: Tensor, schema: TensorSchema, chunk: Prepared, i: nat, ref: ChunkRef)
    requires i < MAX_VEC && chunk.uncompressedLen == |t.payload| && ChunkFound(f, chunk, i, ref)
    requires schema.compression == t.schema.compression && Decompress(c, chunk.packed, schema.compression) == Some(t.payload)
    ensures ReadChunk(c, f, schema, ref) == if FlagHonest(t, chunk) then Ok(t.payload) else Err(InvalidData)
  {
  }

  lemma FoundChunkVerifies(c: Codecs, f: Blob, t: Tensor, schema: TensorSchema, chunk: Prepared, i: nat, ref: ChunkRef)
    requires i < MAX_VEC && chunk.uncompressedLen == |t.payload| && ChunkFound(f, chunk, i, ref)
    requires schema.compression == t.schema.compression && Decompress(c, chunk.packed, schema.compression) == Some(t.payload)
    requires ref.checksum == chunk.checksum == c.hash(t.payload) && ref.uncompressedLen == |t.payload|
    ensures VerifyChunk(c, f, schema, ref) == Ok(FlagHonest(t, chunk))
  {
  }

  /** A chunk recorded where it lies reads as its payload and verifies, if and only if its
      flag is honest. */
  lemma PlacedChunkReads(c: Codecs, f: Blob, t: Tensor, schema: TensorSchema, chunk: Prepared, i: nat, ref: ChunkRef)
    requires i < MAX_VEC && Unpacks(c) && schema.compression == t.schema.compression
    requires CompressPayload(c, t.payload, t.schema.compression) == Some(chunk.packed) && chunk.uncompressedLen == |t.payload|
    requires chunk.checksum == c.hash(t.payload)
    requires ref == ChunkRef(i, ref.byteOffset, ChunkLen(chunk), |t.payload|, chunk.checksum)
    requires Holds(f, ref.byteOffset, ChunkBytes(chunk, i))
    ensures ReadChunk(c, f, schema, ref) == if FlagHonest(t, chunk) then Ok(t.payload) else Err(InvalidData)
    ensures VerifyChunk(c, f, schema, ref) == Ok(FlagHonest(t, chunk))
  {
    HeldChunkFound(f, chunk, i, ref);
    PackedUnpacks(c, t, chunk);
    FoundChunkReads(c, f, t, schema, chunk, i, ref);
    FoundChunkVerifies(c, f, t, schema, chunk, i, ref);
  }

  /** A schema's reference, moved to where the chunk was emitted. */
  function MovedRef(p: Plan, i: nat): ChunkRef
    requires i < |p.schemas| && i <= |p.chunks| && |p.schemas[i].chunks| == 1 && EmittedAt(p, i) < TWO_64
  {
    p.schemas[i].chunks[0].(byteOffset := EmittedAt(p, i))
  }

  /** In every written file, a chunk reached through its schema's reference, moved to where the
      chunk was emitted, reads as the payload added and verifies, if and only if its flag is honest. */
  lemma MovedReferenceReads(c: Codecs, meta: Metadata, flags: NcfFlags, ts: seq<Tensor>, p: Plan, i: nat)
    requires Unpacks(c) && PlanOf(c, meta, flags, ts, p) && |Emit(p)| < MAX_VEC && i < |ts|
    ensures |p.schemas| == |p.chunks| == |ts| && |p.schemas[i].chunks| == 1 && EmittedAt(p, i) < TWO_64
    ensures ReadChunk(c, Emit(p), p.schemas[i], MovedRef(p, i)) ==
      if FlagHonest(ts[i], p.chunks[i]) then Ok(ts[i].payload) else Err(InvalidData)
    ensures VerifyChunk(c, Emit(p), p.schemas[i], MovedRef(p, i)) == Ok(FlagHonest(ts[i], p.chunks[i]))
  {
    Shortfall(c, meta, flags, ts, p, i);
    ChunkIsThere(c, meta, flags, ts, p, i);
    PlanParts(c, meta, flags, ts, p);
    PrepareLengths(c, ts);
    PlacedChunkReads(c, Emit(p), ts[i], p.schemas[i], p.chunks[i], i, MovedRef(p, i));
  }

  lemma OneChunk(c: Codecs, f: Blob, s: TensorSchema)
    requires |s.chunks| == 1
    ensures ReadChunks(c, f, s, s.chunks) == ReadChunk(c, f, s, s.chunks[0])
    ensures VerifyChunks(c, f, s, s.chunks) == VerifyChunk(c, f, s, s.chunks[0])
  {
    assert s.chunks[1..] == [];
    assert ReadChunks(c, f, s, s.chunks[..0]) == Ok([]);
    if ReadChunk(c, f, s, s.chunks[0]).Ok? {
      var d := ReadChunk(c, f, s, s.chunks[0]).value;
      assert [] + d == d;
    }
  }

  lemma SchemaIsLast(c: Codecs, meta: Metadata, flags: NcfFlags, ts: seq<Tensor>, p: Plan, name: Name, i: nat)
    requires PlanOf(c, meta, flags, ts, p) && LastNamed(ts, name, i)
    ensures |p.schemas| == |ts| && FindIn(p.schemas, name) == Some(p.schemas[i])
    ensures p.schemas[i] == ts[i].schema.(chunks := p.schemas[i].chunks)
  {
    PlanParts(c, meta, flags, ts, p);
    TensorMapIsLast(ts, name);
    SchemaMapIsLast(ts, p.schemas, name);
  }
}
