/** Reading a container (ncf-io/src/reader.rs). */
module NcfReader {
  import opened Bytes
  import opened NcfFormat

  // ---- open ----

  /** What `open` decodes at once; schemas are decoded on first use. */
  datatype Opened = Opened(
    metadata: Metadata, prefix: FilePrefix, schemaStart: nat, schemaEnd: nat,
    index: NcfIndex, chunkMap: map<u64, IndexEntry>)

  /** Later entries replace earlier ones. */
  function ChunkMap(es: seq<IndexEntry>): map<u64, IndexEntry> {
    if es == [] then map[]
    else var k := |es| - 1; ChunkMap(es[..k])[es[k].chunkId := es[k]]
  }

  function OpenIndex(c: Codecs, f: Blob, start: nat): NcfResult<NcfIndex>
    requires FOOTER_SIZE <= |f|
  {
    var footer := |f| - FOOTER_SIZE;
    if f[footer..footer + 8] != FOOTER_MAGIC then Err(InvalidData)
    else
      var len := Word(f, footer + 8);
      if len > MAX_INDEX_SIZE || start + len > footer then Err(InvalidData)
      else match c.decIndex(f[start..start + len])
        case None => Err(InvalidData)
        case Some(index) => Ok(index)
  }

  function Open(c: Codecs, f: Blob): NcfResult<Opened> {
    if |f| < PREFIX_SIZE then Err(UnexpectedEof)
    else match DecodePrefix(f[..PREFIX_SIZE])
      case Err(_) => Err(InvalidData)
      case Ok(p) =>
        if p.headerLen > MAX_HEADER_SIZE || PREFIX_SIZE + p.headerLen > |f| then Err(InvalidData)
        else match c.decHeader(f[PREFIX_SIZE..PREFIX_SIZE + p.headerLen])
          case None => Err(InvalidData)
          case Some(meta) =>
            if p.schemaOffset > p.indexOffset || p.indexOffset > |f| then Err(InvalidData)
            else if p.indexOffset - p.schemaOffset > MAX_SCHEMA_SIZE then Err(InvalidData)
            else
              var index :- OpenIndex(c, f, p.indexOffset);
              Ok(Opened(meta, p, p.schemaOffset, p.indexOffset, index, ChunkMap(index.entries)))
  }

  // ---- lookups ----

  ghost predicate InFile(o: Opened, f: Blob) { o.schemaStart <= o.schemaEnd <= |f| }

  function SchemasOf(c: Codecs, f: Blob, o: Opened): NcfResult<seq<TensorSchema>>
    requires InFile(o, f)
  {
    match c.decSchemas(f[o.schemaStart..o.schemaEnd])
    case None => Err(Header)
    case Some(ss) => Ok(ss)
  }

  function SchemaMap(ss: seq<TensorSchema>): (m: map<Name, nat>)
    ensures forall n :: n in m ==> m[n] < |ss| && ss[m[n]].name == n
  {
    if ss == [] then map[]
    else var k := |ss| - 1; SchemaMap(ss[..k])[ss[k].name := k]
  }

  function FindIn(ss: seq<TensorSchema>, name: Name): (r: Option<TensorSchema>) {
    var m := SchemaMap(ss);
    if name in m then Some(ss[m[name]]) else None
  }

  /** The raw payload found through the index: name, chunk id, entry. */
  function TensorSlice(f: Blob, o: Opened, name: Name): Option<seq<byte>> {
    if name !in o.index.tensorMap then None
    else
      var id := o.index.tensorMap[name];
      if id !in o.chunkMap then None
      else
        var e := o.chunkMap[id];
        var start := e.byteOffset + CHUNK_HEADER_SIZE;
        if start > |f| || e.byteLen < CHUNK_OVERHEAD then None
        else
          var end := start + (e.byteLen - CHUNK_OVERHEAD);
          if end > |f| then None else Some(f[start..end])
  }

  // ---- verifying and reading chunks ----

  function HeaderAt(f: Blob, ref: ChunkRef): NcfResult<ChunkHeader> {
    var start := ref.byteOffset;
    if start + CHUNK_HEADER_SIZE > |f| then Err(InvalidData)
    else DecodeChunkHeader(f[start..start + CHUNK_HEADER_SIZE])
  }

  function VerifyChunk(c: Codecs, f: Blob, schema: TensorSchema, ref: ChunkRef): NcfResult<bool> {
    var h :- HeaderAt(f, ref);
    var start := ref.byteOffset + CHUNK_HEADER_SIZE;
    if h.chunkId != ref.chunkId then Ok(false)
    else if h.flags == 0 && schema.compression != NoCompression then Ok(false)
    else if h.flags != 0 && schema.compression == NoCompression then Ok(false)
    else if ref.byteLen < CHUNK_OVERHEAD then Ok(false)
    else
      var end := start + (ref.byteLen - CHUNK_OVERHEAD);
      if h.compressedLen != ref.byteLen - CHUNK_OVERHEAD then Ok(false)
      else if end > |f| || end + CHECKSUM_SIZE > |f| then Err(InvalidData)
      else if f[end..end + CHECKSUM_SIZE] != ref.checksum then Ok(false)
      else match Decompress(c, f[start..end], schema.compression)
        case None => Err(InvalidData)
        case Some(d) =>
          Ok(|d| == ref.uncompressedLen && h.uncompressedLen == ref.uncompressedLen && c.hash(d) == ref.checksum)
  }

  function VerifyChunks(c: Codecs, f: Blob, schema: TensorSchema, refs: seq<ChunkRef>): NcfResult<bool> {
    if refs == [] then Ok(true)
    else match VerifyChunk(c, f, schema, refs[0])
      case Ok(true) => VerifyChunks(c, f, schema, refs[1..])
      case other => other
  }

  function ReadChunk(c: Codecs, f: Blob, schema: TensorSchema, ref: ChunkRef): NcfResult<Blob> {
    var h :- HeaderAt(f, ref);
    var start := ref.byteOffset + CHUNK_HEADER_SIZE;
    if (h.flags == 0) != (schema.compression == NoCompression) then Err(InvalidData)
    else if ref.byteLen < CHUNK_OVERHEAD then Err(InvalidData)
    else
      var end := start + (ref.byteLen - CHUNK_OVERHEAD);
      if end > |f| then Err(InvalidData)
      else match Decompress(c, f[start..end], schema.compression)
        case None => Err(InvalidData)
        case Some(d) => if |d| != h.uncompressedLen then Err(InvalidData) else Ok(d)
  }

  function ReadChunks(c: Codecs, f: Blob, schema: TensorSchema, refs: seq<ChunkRef>): NcfResult<seq<byte>> {
    if refs == [] then Ok([])
    else
      var k := |refs| - 1;
      var before :- ReadChunks(c, f, schema, refs[..k]);
      var d :- ReadChunk(c, f, schema, refs[k]);
      Ok(before + d)
  }

  // ---- by name ----

  function VerifyTensor(c: Codecs, f: Blob, o: Opened, name: Name): NcfResult<bool>
    requires InFile(o, f)
  {
    var ss :- SchemasOf(c, f, o);
    match FindIn(ss, name)
    case None => Err(NotFound)
    case Some(s) => VerifyChunks(c, f, s, s.chunks)
  }

  function VerifyNames(c: Codecs, f: Blob, o: Opened, ss: seq<TensorSchema>): NcfResult<bool>
    requires InFile(o, f)
  {
    if ss == [] then Ok(true)
    else match VerifyTensor(c, f, o, ss[0].name)
      case Ok(true) => VerifyNames(c, f, o, ss[1..])
      case other => other
  }

  function VerifyAll(c: Codecs, f: Blob, o: Opened): NcfResult<bool>
    requires InFile(o, f)
  {
    var ss :- SchemasOf(c, f, o);
    VerifyNames(c, f, o, ss)
  }

  function ReadTensor(c: Codecs, f: Blob, o: Opened, name: Name): NcfResult<Option<seq<byte>>>
    requires InFile(o, f)
  {
    var ss :- SchemasOf(c, f, o);
    match FindIn(ss, name)
    case None => Ok(None)
    case Some(s) => var d :- ReadChunks(c, f, s, s.chunks); Ok(Some(d))
  }

  // ---- the program: lazy cells and loops ----

  class NcfReader {
    const c: Codecs
    const file: Blob
    const o: Opened
    var schemas: Option<NcfResult<seq<TensorSchema>>>
    var schemaMap: Option<map<Name, nat>>

    ghost predicate Valid()
      reads this
    {
      && InFile(o, file)
      && (schemas.Some? ==> schemas.value == SchemasOf(c, file, o))
      && (schemaMap.Some? ==> schemas.Some? && schemas.value.Ok? && schemaMap.value == SchemaMap(schemas.value.value))
    }

    constructor (c: Codecs, file: Blob, o: Opened)
      requires InFile(o, file)
      ensures Valid() && this.c == c && this.file == file && this.o == o
    {
      this.c, this.file, this.o := c, file, o;
      schemas, schemaMap := None, None;
    }

    /** Decode on the first call, remember the outcome, build the name map. */
    method Schemas() returns (r: NcfResult<seq<TensorSchema>>)
      requires Valid()
      modifies this
      ensures Valid() && r == SchemasOf(c, file, o) && (r.Ok? ==> schemaMap == Some(SchemaMap(r.value)))
    {
      if schemas.None? {
        var decoded := c.decSchemas(file[o.schemaStart..o.schemaEnd]);
        schemas := Some(if decoded.Some? then Ok(decoded.value) else Err(Header));
      }
      r := schemas.value;
      if r.Ok? && schemaMap.None? {
        var m: map<Name, nat> := map[];
        for i := 0 to |r.value|
          invariant m == SchemaMap(r.value[..i]) && Valid() && schemas == Some(r)
        {
          assert r.value[..i + 1][..i] == r.value[..i];
          m := m[r.value[i].name := i];
        }
        assert r.value[..|r.value|] == r.value;
        schemaMap := Some(m);
      }
    }

    method FindSchema(name: Name) returns (r: NcfResult<Option<TensorSchema>>)
      requires Valid()
      modifies this
      ensures Valid()
      ensures r == match SchemasOf(c, file, o) case Ok(ss) => Ok(FindIn(ss, name)) case Err(e) => Err(e)
    {
      var ss :- Schemas();
      var m := schemaMap.value;
      r := Ok(if name in m then Some(ss[m[name]]) else None);
    }

    method Verify(name: Name) returns (r: NcfResult<bool>)
      requires Valid()
      modifies this
      ensures Valid() && r == VerifyTensor(c, file, o, name)
    {
      var found :- FindSchema(name);
      if found.None? { return Err(NotFound); }
      var schema := found.value;
      for i := 0 to |schema.chunks|
        invariant Valid() && VerifyTensor(c, file, o, name) == VerifyChunks(c, file, schema, schema.chunks[i..])
      {
        assert schema.chunks[i..][1..] == schema.chunks[i + 1..];
        var one := VerifyChunk(c, file, schema, schema.chunks[i]);
        if one != Ok(true) { return one; }
      }
      r := Ok(true);
    }

    method VerifyEvery() returns (r: NcfResult<bool>)
      requires Valid()
      modifies this
      ensures Valid() && r == VerifyAll(c, file, o)
    {
      var ss :- Schemas();
      for i := 0 to |ss|
        invariant Valid() && VerifyAll(c, file, o) == VerifyNames(c, file, o, ss[i..])
      {
        assert ss[i..][1..] == ss[i + 1..];
        var one := Verify(ss[i].name);
        if one != Ok(true) { return one; }
      }
      r := Ok(true);
    }

    method Read(name: Name) returns (r: NcfResult<Option<seq<byte>>>)
      requires Valid()
      modifies this
      ensures Valid() && r == ReadTensor(c, file, o, name)
    {
      var found :- FindSchema(name);
      if found.None? { return Ok(None); }
      var schema := found.value;
      var refs := schema.chunks;
      var result := [];
      for i := 0 to |refs|
        invariant Valid() && ReadChunks(c, file, schema, refs[..i]) == Ok(result)
      {
        ReadOneMore(c, file, schema, refs, i);
        var d := ReadChunk(c, file, schema, refs[i]);
        if d.Err? {
          ReadFails(c, file, schema, refs, i + 1);
          return Err(d.error);
        }
        result := result + d.value;
      }
      assert refs[..|refs|] == refs;
      r := Ok(Some(result));
    }
  }

  lemma ReadOneMore(c: Codecs, f: Blob, schema: TensorSchema, refs: seq<ChunkRef>, i: nat)
    requires i < |refs| && ReadChunks(c, f, schema, refs[..i]).Ok?
    ensures ReadChunks(c, f, schema, refs[..i + 1]) ==
      match ReadChunk(c, f, schema, refs[i])
      case Ok(d) => Ok(ReadChunks(c, f, schema, refs[..i]).value + d)
      case Err(e) => Err(e)
  {
    assert refs[..i + 1][..i] == refs[..i];
  }

  lemma {:induction false} ReadFails(c: Codecs, f: Blob, schema: TensorSchema, refs: seq<ChunkRef>, n: nat)
    requires n <= |refs| && ReadChunks(c, f, schema, refs[..n]).Err?
    ensures ReadChunks(c, f, schema, refs) == ReadChunks(c, f, schema, refs[..n])
    decreases |refs| - n
  {
    if n == |refs| {
      assert refs[..n] == refs;
    } else {
      assert refs[..n + 1][..n] == refs[..n];
      ReadFails(c, f, schema, refs, n + 1);
    }
  }

  /** `open`: everything decoded, and the chunk map filled entry by entry. */
  method OpenFile(c: Codecs, f: Blob) returns (r: NcfResult<NcfReader>)
    ensures match Open(c, f)
            case Err(e) => r == Err(e)
            case Ok(o) => r.Ok? && fresh(r.value) && r.value.Valid() && r.value.c == c && r.value.file == f && r.value.o == o
  {
    if |f| < PREFIX_SIZE { return Err(UnexpectedEof); }
    var prefix := DecodePrefix(f[..PREFIX_SIZE]);
    if prefix.Err? { return Err(InvalidData); }
    var p := prefix.value;
    if p.headerLen > MAX_HEADER_SIZE || PREFIX_SIZE + p.headerLen > |f| { return Err(InvalidData); }
    var meta := c.decHeader(f[PREFIX_SIZE..PREFIX_SIZE + p.headerLen]);
    if meta.None? { return Err(InvalidData); }
    if p.schemaOffset > p.indexOffset || p.indexOffset > |f| { return Err(InvalidData); }
    if p.indexOffset - p.schemaOffset > MAX_SCHEMA_SIZE { return Err(InvalidData); }
    var index := OpenIndex(c, f, p.indexOffset);
    if index.Err? { return Err(index.error); }
    var entries := index.value.entries;
    var chunkMap: map<u64, IndexEntry> := map[];
    for i := 0 to |entries|
      invariant chunkMap == ChunkMap(entries[..i])
    {
      assert entries[..i + 1][..i] == entries[..i];
      chunkMap := chunkMap[entries[i].chunkId := entries[i]];
    }
    assert entries[..|entries|] == entries;
    var reader := new NcfReader(c, f, Opened(meta.value, p, p.schemaOffset, p.indexOffset, index.value, chunkMap));
    r := Ok(reader);
  }
}
