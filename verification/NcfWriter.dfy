/** Writing a container (ncf-io/src/writer.rs): all offsets are planned first, in several
    passes; then the file is emitted from front to back. */
module NcfWriter {
  import opened Bytes
  import opened NcfFormat

  datatype Tensor = Tensor(schema: TensorSchema, payload: Blob)

  datatype Prepared = Prepared(packed: Blob, checksum: Digest, uncompressedLen: nat)

  // ---- the plan ----

  function Prepare(c: Codecs, ts: seq<Tensor>): (r: NcfResult<seq<Prepared>>)
    ensures r.Ok? ==> |r.value| == |ts|
  {
    if ts == [] then Ok([])
    else
      var k := |ts| - 1;
      var before :- Prepare(c, ts[..k]);
      match CompressPayload(c, ts[k].payload, ts[k].schema.compression)
      case None => Err(Other)
      case Some(packed) => Ok(before + [Prepared(packed, c.hash(ts[k].payload), |ts[k].payload|)])
  }

  function ChunkLen(p: Prepared): (n: u64) { CHUNK_OVERHEAD + |p.packed| }

  /** Bytes taken by chunks written one after another. */
  function Span(ps: seq<Prepared>): nat {
    if ps == [] then 0 else Span(ps[..|ps| - 1]) + ChunkLen(ps[|ps| - 1])
  }

  lemma {:induction false} SpanPrefix(ps: seq<Prepared>, i: nat)
    requires i <= |ps|
    ensures Span(ps[..i]) <= Span(ps)
    ensures i < |ps| ==> Span(ps[..i]) + ChunkLen(ps[i]) == Span(ps[..i + 1]) <= Span(ps)
    decreases |ps| - i
  {
    if i == |ps| {
      assert ps[..i] == ps;
    } else {
      assert ps[..i + 1][..i] == ps[..i];
      SpanPrefix(ps, i + 1);
    }
  }

  function Zeros(n: nat): (s: seq<byte>)
    ensures |s| == n && forall i :: 0 <= i < n ==> s[i] == 0
  {
    seq(n, i requires 0 <= i < n => 0)
  }

  const ZERO_REF: ChunkRef := ChunkRef(0, 0, 0, 0, Zeros(CHECKSUM_SIZE))

  /** A schema with one chunk reference. */
  function WithChunk(s: TensorSchema, r: ChunkRef): TensorSchema { s.(chunks := [r]) }

  /** The schemas whose encoded size the offsets are computed from. */
  function Placeholders(ts: seq<Tensor>): seq<TensorSchema> {
    seq(|ts|, i requires 0 <= i < |ts| => WithChunk(ts[i].schema, ZERO_REF))
  }

  /** What is recorded about chunk i when the first chunk is taken to start at `base`. */
  function RefAt(ps: seq<Prepared>, base: nat, i: nat): ChunkRef
    requires i < |ps| < MAX_VEC && base + Span(ps) < TWO_64 && ps[i].uncompressedLen < TWO_64
  {
    SpanPrefix(ps, i);
    ChunkRef(i, base + Span(ps[..i]), ChunkLen(ps[i]), ps[i].uncompressedLen, ps[i].checksum)
  }

  ghost predicate Planned(ts: seq<Tensor>, ps: seq<Prepared>, base: nat) {
    && |ts| == |ps| < MAX_VEC && base + Span(ps) < TWO_64
    && forall i :: 0 <= i < |ps| ==> ps[i].uncompressedLen < TWO_64
  }

  function FinalSchemas(ts: seq<Tensor>, ps: seq<Prepared>, base: nat): seq<TensorSchema>
    requires Planned(ts, ps, base)
  {
    seq(|ts|, i requires 0 <= i < |ts| => WithChunk(ts[i].schema, RefAt(ps, base, i)))
  }

  function EntryAt(c: Codecs, ts: seq<Tensor>, ps: seq<Prepared>, base: nat, i: nat): IndexEntry
    requires Planned(ts, ps, base) && i < |ts|
  {
    var r := RefAt(ps, base, i);
    IndexEntry(r.chunkId, r.byteOffset, r.byteLen, c.nameHash(ts[i].schema.name))
  }

  function Entries(c: Codecs, ts: seq<Tensor>, ps: seq<Prepared>, base: nat): seq<IndexEntry>
    requires Planned(ts, ps, base)
  {
    seq(|ts|, i requires 0 <= i < |ts| => EntryAt(c, ts, ps, base, i))
  }

  /** Names to chunk ids; the last tensor of a name wins. */
  function TensorMap(ts: seq<Tensor>): map<Name, u64>
    requires |ts| < MAX_VEC
  {
    if ts == [] then map[]
    else var k := |ts| - 1; TensorMap(ts[..k])[ts[k].schema.name := k]
  }

  lemma MapOneMore(ts: seq<Tensor>, i: nat)
    requires i < |ts| < MAX_VEC
    ensures TensorMap(ts[..i + 1]) == TensorMap(ts[..i])[ts[i].schema.name := i]
  {
    assert ts[..i + 1][..i] == ts[..i];
  }

  /** The running offset gives the closed form's reference and entry. */
  lemma RunningOffset(c: Codecs, ts: seq<Tensor>, ps: seq<Prepared>, base: nat, i: nat, current: u64, ref: ChunkRef, entry: IndexEntry)
    requires Planned(ts, ps, base) && i < |ts| && current == base + Span(ps[..i]) && ChunkLen(ps[i]) < TWO_64
    requires ref == ChunkRef(i, current, ChunkLen(ps[i]), ps[i].uncompressedLen, ps[i].checksum)
    requires entry == IndexEntry(i, current, ChunkLen(ps[i]), c.nameHash(ts[i].schema.name))
    ensures FinalSchemas(ts, ps, base)[i] == WithChunk(ts[i].schema, ref) && EntryAt(c, ts, ps, base, i) == entry
  {
  }

  predicate AnyCompressed(ts: seq<Tensor>) {
    exists i :: 0 <= i < |ts| && ts[i].schema.compression != NoCompression
  }

  datatype Plan = Plan(
    prefix: FilePrefix, header: seq<byte>, schemas: seq<TensorSchema>, schemaBytes: seq<byte>,
    chunks: seq<Prepared>, index: NcfIndex, indexBytes: seq<byte>)

  lemma {:induction false} PrepareLengths(c: Codecs, ts: seq<Tensor>)
    requires Prepare(c, ts).Ok?
    ensures forall i :: 0 <= i < |ts| ==>
      && CompressPayload(c, ts[i].payload, ts[i].schema.compression) == Some(Prepare(c, ts).value[i].packed)
      && Prepare(c, ts).value[i].checksum == c.hash(ts[i].payload)
      && Prepare(c, ts).value[i].uncompressedLen == |ts[i].payload| < TWO_64
  {
    if ts != [] { PrepareLengths(c, ts[..|ts| - 1]); }
  }

  /** The checks after the second pass, and the prefix. */
  function Seal(c: Codecs, flags: NcfFlags, header: seq<byte>, ps: seq<Prepared>, compressed: bool,
                schemas: seq<TensorSchema>, entries: seq<IndexEntry>, tensorMap: map<Name, u64>): NcfResult<Plan>
    requires |ps| < MAX_VEC && |header| <= MAX_HEADER_SIZE
  {
    var schemaOffset := PREFIX_SIZE + |header|;
    var schemaBytes := c.encSchemas(schemas);
    if |schemaBytes| > MAX_SCHEMA_SIZE then Err(Header)
    else
      var indexOffset := schemaOffset + |schemaBytes| + Span(ps);
      if indexOffset >= TWO_64 then Err(Header)
      else
        var index := NcfIndex(|ps|, entries, tensorMap);
        var indexBytes := c.encIndex(index);
        if |indexBytes| > MAX_INDEX_SIZE then Err(Header)
        else
          var all := if compressed then flags.(compressed := true) else flags;
          Ok(Plan(FilePrefix(VERSION, all, |header|, schemaOffset, indexOffset, |ps|),
                  header, schemas, schemaBytes, ps, index, indexBytes))
  }

  /** Where the first chunk is taken to start: behind the placeholder schemas. */
  function BaseOffset(c: Codecs, header: seq<byte>, ts: seq<Tensor>): nat {
    PREFIX_SIZE + |header| + |c.encSchemas(Placeholders(ts))|
  }

  /** Every check and every offset of `finalize`, in closed form. */
  ghost function MakePlan(c: Codecs, meta: Metadata, flags: NcfFlags, ts: seq<Tensor>): NcfResult<Plan>
    requires |ts| < MAX_VEC
  {
    var header := c.encHeader(meta);
    if |header| > MAX_HEADER_SIZE then Err(Header)
    else
      var ps :- Prepare(c, ts);
      PrepareLengths(c, ts);
      if |c.encSchemas(Placeholders(ts))| > MAX_SCHEMA_SIZE then Err(Header)
      else
        var base := BaseOffset(c, header, ts);
        if base + Span(ps) >= TWO_64 then Err(Header)
        else
          Seal(c, flags, header, ps, AnyCompressed(ts),
               FinalSchemas(ts, ps, base), Entries(c, ts, ps, base), TensorMap(ts))
  }

  // ---- emission ----

  /** The flag records whether the length changed, not whether compression was asked for. */
  function HeaderFor(p: Prepared, i: nat): ChunkHeader
    requires i < MAX_VEC && p.uncompressedLen < TWO_64
  {
    ChunkHeader(i, if |p.packed| != p.uncompressedLen then 1 else 0, p.uncompressedLen, |p.packed|)
  }

  function ChunkBytes(p: Prepared, i: nat): (s: seq<byte>)
    requires i < MAX_VEC && p.uncompressedLen < TWO_64
    ensures |s| == ChunkLen(p)
  {
    EncodedChunkHeader(HeaderFor(p, i)) + p.packed + p.checksum
  }

  function EmittedChunks(ps: seq<Prepared>): (s: seq<byte>)
    requires |ps| < MAX_VEC && forall i :: 0 <= i < |ps| ==> ps[i].uncompressedLen < TWO_64
    ensures |s| == Span(ps)
  {
    if ps == [] then [] else var k := |ps| - 1; EmittedChunks(ps[..k]) + ChunkBytes(ps[k], k)
  }

  ghost predicate Emittable(p: Plan) {
    |p.chunks| < MAX_VEC && forall i :: 0 <= i < |p.chunks| ==> p.chunks[i].uncompressedLen < TWO_64
  }

  /** The file from front to back. */
  function Emit(p: Plan): seq<byte>
    requires Emittable(p)
  {
    EncodedPrefix(p.prefix) + p.header + p.schemaBytes + EmittedChunks(p.chunks) + p.indexBytes
    + FOOTER_MAGIC + LE(|p.indexBytes|, 8)
  }

  // ---- the program ----

  class NcfWriter {
    const metadata: Metadata
    const flags: NcfFlags
    var tensors: seq<Tensor>

    constructor (metadata: Metadata, flags: NcfFlags)
      ensures this.metadata == metadata && this.flags == flags && tensors == []
    {
      this.metadata, this.flags, tensors := metadata, flags, [];
    }

    method AddTensor(schema: TensorSchema, payload: Blob)
      modifies this
      ensures tensors == old(tensors) + [Tensor(schema, payload)]
    {
      tensors := tensors + [Tensor(schema, payload)];
    }

    /** The first pass: compress and hash every payload. */
    method PrepareChunks(c: Codecs) returns (r: NcfResult<seq<Prepared>>)
      ensures r == Prepare(c, tensors)
    {
      var chunks := [];
      for i := 0 to |tensors|
        invariant Prepare(c, tensors[..i]) == Ok(chunks)
      {
        assert tensors[..i + 1][..i] == tensors[..i];
        var t := tensors[i];
        var packed := CompressPayload(c, t.payload, t.schema.compression);
        if packed.None? {
          PrepareFails(c, tensors, i + 1);
          return Err(Other);
        }
        chunks := chunks + [Prepared(packed.value, c.hash(t.payload), |t.payload|)];
      }
      assert tensors[..|tensors|] == tensors;
      r := Ok(chunks);
    }

    method PlaceholderSchemas() returns (schemas: seq<TensorSchema>)
      ensures schemas == Placeholders(tensors)
    {
      schemas := [];
      for i := 0 to |tensors|
        invariant schemas == Placeholders(tensors)[..i]
      {
        schemas := schemas + [WithChunk(tensors[i].schema, ZERO_REF)];
      }
    }

    /** The second pass: running offsets, index entries, the name map. None on overflow. */
    method PlaceChunks(c: Codecs, chunks: seq<Prepared>, base: u64)
      returns (r: Option<(seq<TensorSchema>, seq<IndexEntry>, map<Name, u64>, nat)>)
      requires |chunks| == |tensors| < MAX_VEC
      requires forall i :: 0 <= i < |chunks| ==> chunks[i].uncompressedLen < TWO_64
      ensures r.Some? <==> base + Span(chunks) < TWO_64
      ensures r.Some? ==>
        && r.value.0 == FinalSchemas(tensors, chunks, base) && r.value.1 == Entries(c, tensors, chunks, base)
        && r.value.2 == TensorMap(tensors) && r.value.3 == Span(chunks)
    {
      var current: u64 := base;
      var schemas, entries, tensorMap, total := [], [], map[], 0;
      for i := 0 to |tensors|
        invariant current == base + Span(chunks[..i]) && total == Span(chunks[..i])
        invariant |schemas| == |entries| == i
        invariant base + Span(chunks) < TWO_64 ==> forall j :: 0 <= j < i ==>
          && schemas[j] == FinalSchemas(tensors, chunks, base)[j] && entries[j] == EntryAt(c, tensors, chunks, base, j)
        invariant tensorMap == TensorMap(tensors[..i])
      {
        SpanPrefix(chunks, i);
        MapOneMore(tensors, i);
        var t, p := tensors[i], chunks[i];
        if current + ChunkLen(p) >= TWO_64 { return None; }
        var ref := ChunkRef(i, current, ChunkLen(p), p.uncompressedLen, p.checksum);
        var entry := IndexEntry(i, current, ChunkLen(p), c.nameHash(t.schema.name));
        if base + Span(chunks) < TWO_64 { RunningOffset(c, tensors, chunks, base, i, current, ref, entry); }
        schemas := schemas + [WithChunk(t.schema, ref)];
        entries := entries + [entry];
        tensorMap := tensorMap[t.schema.name := i];
        total := total + ChunkLen(p);
        current := current + ChunkLen(p);
      }
      assert tensors[..|tensors|] == tensors && chunks[..|chunks|] == chunks;
      r := Some((schemas, entries, tensorMap, total));
    }

    /** `finalize` up to the creation of the file. */
    method PlanFile(c: Codecs) returns (r: NcfResult<Plan>)
      requires |tensors| < MAX_VEC
      ensures r == MakePlan(c, metadata, flags, tensors)
    {
      var header := c.encHeader(metadata);
      if |header| > MAX_HEADER_SIZE { return Err(Header); }
      var chunks :- PrepareChunks(c);
      PrepareLengths(c, tensors);
      var schemaOffset := PREFIX_SIZE + |header|;
      var placeholders := PlaceholderSchemas();
      var estimated := |c.encSchemas(placeholders)|;
      if estimated > MAX_SCHEMA_SIZE { return Err(Header); }
      var placed := PlaceChunks(c, chunks, schemaOffset + estimated);
      if placed.None? { return Err(Header); }
      var (schemas, entries, tensorMap, total) := placed.value;
      r := SealPlan(c, header, chunks, total, schemas, entries, tensorMap);
    }

    method SealPlan(c: Codecs, header: seq<byte>, chunks: seq<Prepared>, total: nat,
                    schemas: seq<TensorSchema>, entries: seq<IndexEntry>, tensorMap: map<Name, u64>)
      returns (r: NcfResult<Plan>)
      requires |chunks| == |tensors| < MAX_VEC && total == Span(chunks) && |header| <= MAX_HEADER_SIZE
      ensures r == Seal(c, flags, header, chunks, AnyCompressed(tensors), schemas, entries, tensorMap)
    {
      var schemaOffset := PREFIX_SIZE + |header|;
      var schemaBytes := c.encSchemas(schemas);
      if |schemaBytes| > MAX_SCHEMA_SIZE { return Err(Header); }
      var indexOffset := schemaOffset + |schemaBytes| + total;
      if indexOffset >= TWO_64 { return Err(Header); }
      var index := NcfIndex(|tensors|, entries, tensorMap);
      var indexBytes := c.encIndex(index);
      if |indexBytes| > MAX_INDEX_SIZE { return Err(Header); }
      var compressed := false;
      for i := 0 to |tensors|
        invariant compressed <==> exists j :: 0 <= j < i && tensors[j].schema.compression != NoCompression
      {
        if tensors[i].schema.compression != NoCompression { compressed := true; }
      }
      var all := if compressed then flags.(compressed := true) else flags;
      r := Ok(Plan(FilePrefix(VERSION, all, |header|, schemaOffset, indexOffset, |tensors|),
                   header, schemas, schemaBytes, chunks, index, indexBytes));
    }

    /** `finalize`: the bytes of the new file, or the error that kept it from being made. */
    method Finalize(c: Codecs) returns (r: NcfResult<seq<byte>>)
      requires |tensors| < MAX_VEC
      ensures match MakePlan(c, metadata, flags, tensors)
              case Err(e) => r == Err(e)
              case Ok(p) => Emittable(p) && r == Ok(Emit(p))
    {
      var p :- PlanFile(c);
      PlanIsEmittable(c, metadata, flags, tensors);
      var file := WriteFile(p);
      r := Ok(file);
    }
  }

  lemma PlanIsEmittable(c: Codecs, meta: Metadata, flags: NcfFlags, ts: seq<Tensor>)
    requires |ts| < MAX_VEC && MakePlan(c, meta, flags, ts).Ok?
    ensures Emittable(MakePlan(c, meta, flags, ts).value)
  {
    PrepareLengths(c, ts);
  }

  lemma Regroup(f: seq<byte>, d: seq<byte>, x: seq<byte>, y: seq<byte>, z: seq<byte>)
    ensures f + d + x + y + z == f + (d + (x + y + z))
  {
  }

  /** The emission loop of `finalize`. */
  method WriteFile(p: Plan) returns (file: seq<byte>)
    requires Emittable(p)
    ensures file == Emit(p)
  {
    file := EncodedPrefix(p.prefix);
    file := file + p.header;
    file := file + p.schemaBytes;
    ghost var front := file;
    ghost var before := [];
    for i := 0 to |p.chunks|
      invariant before == EmittedChunks(p.chunks[..i]) && file == front + before
    {
      assert p.chunks[..i + 1][..i] == p.chunks[..i];
      var chunk := p.chunks[i];
      var header := EncodedChunkHeader(HeaderFor(chunk, i));
      Regroup(front, before, header, chunk.packed, chunk.checksum);
      file := file + header;
      file := file + chunk.packed;
      file := file + chunk.checksum;
      before := EmittedChunks(p.chunks[..i + 1]);
    }
    assert p.chunks[..|p.chunks|] == p.chunks;
    file := file + p.indexBytes;
    file := file + FOOTER_MAGIC;
    file := file + LE(|p.indexBytes|, 8);
  }

  lemma {:induction false} PrepareFails(c: Codecs, ts: seq<Tensor>, n: nat)
    requires n <= |ts| && Prepare(c, ts[..n]).Err?
    ensures Prepare(c, ts) == Prepare(c, ts[..n])
    decreases |ts| - n
  {
    if n == |ts| {
      assert ts[..n] == ts;
    } else {
      assert ts[..n + 1][..n] == ts[..n];
      PrepareFails(c, ts, n + 1);
    }
  }
}
