/** Which answer verifying and reading give on any file bytes and any decoded schemas: yes, no or
    an error, and for several chunks or tensors, whose. */
module NcfAnswers {
  import opened Bytes
  import opened NcfFormat
  import opened NcfReader
  import opened NcfVerify

  // ---- one chunk ----

  /** 30 bytes that begin with "NCFK" lie at the reference. */
  ghost predicate HeaderThere(f: Blob, ref: ChunkRef) {
    ref.byteOffset + 30 <= |f| && f[ref.byteOffset..ref.byteOffset + 4] == [0x4E, 0x43, 0x46, 0x4B]
  }

  /** The id in the header is the reference's, its flags are zero exactly for uncompressed
      schemas, and its stored length is what the reference leaves for the payload. */
  ghost predicate HeaderAgrees(f: Blob, schema: TensorSchema, ref: ChunkRef)
    requires HeaderThere(f, ref)
  {
    var at := ref.byteOffset;
    && Word(f, at + 4) == ref.chunkId
    && (FromLE(f[at + 12..at + 14]) == 0 <==> schema.compression == NoCompression)
    && ref.byteLen >= 62 && Word(f, at + 22) == ref.byteLen - 62
  }

  /** Payload and checksum end inside the file. */
  ghost predicate BodyThere(f: Blob, ref: ChunkRef) {
    ref.byteLen >= 62 && ref.byteOffset + ref.byteLen <= |f|
  }

  function PayloadAt(f: Blob, ref: ChunkRef): Blob
    requires ref.byteLen >= 62 && ref.byteOffset + ref.byteLen <= |f|
  {
    f[ref.byteOffset + 30..ref.byteOffset + ref.byteLen - 32]
  }

  function ChecksumAt(f: Blob, ref: ChunkRef): seq<byte>
    requires ref.byteLen >= 62 && ref.byteOffset + ref.byteLen <= |f|
  {
    f[ref.byteOffset + ref.byteLen - 32..ref.byteOffset + ref.byteLen]
  }

  /** What keeps the verifier from answering: no header, an agreeing header whose payload or checksum
      leaves the file, or an otherwise agreeing payload that does not unpack. */
  ghost predicate Unanswerable(c: Codecs, f: Blob, schema: TensorSchema, ref: ChunkRef) {
    !HeaderThere(f, ref) ||
    (HeaderAgrees(f, schema, ref) &&
     (!BodyThere(f, ref) ||
      (ChecksumAt(f, ref) == ref.checksum && schema.compression != NoCompression
       && c.unpack(PayloadAt(f, ref), schema.compression).None?)))
  }

  lemma HeaderFieldsAt(f: Blob, ref: ChunkRef)
    ensures HeaderThere(f, ref) <==> HeaderAt(f, ref).Ok?
    ensures HeaderAt(f, ref).Err? ==> HeaderAt(f, ref) == Err(InvalidData)
    ensures HeaderThere(f, ref) ==>
      var at, h := ref.byteOffset, HeaderAt(f, ref).value;
      h == ChunkHeader(Word(f, at + 4), FromLE(f[at + 12..at + 14]), Word(f, at + 14), Word(f, at + 22))
  {
    var at := ref.byteOffset;
    if at + 30 <= |f| {
      SliceOfSlice(f, at, at + 30, 0, 4);
      SliceOfSlice(f, at, at + 30, 4, 12);
      SliceOfSlice(f, at, at + 30, 12, 14);
      SliceOfSlice(f, at, at + 30, 14, 22);
      SliceOfSlice(f, at, at + 30, 22, 30);
    }
  }

  /** An error is reported exactly for what cannot be answered, and it is always the same one. */
  lemma VerifyErrsIff(c: Codecs, f: Blob, schema: TensorSchema, ref: ChunkRef)
    ensures VerifyChunk(c, f, schema, ref).Err? <==> Unanswerable(c, f, schema, ref)
    ensures VerifyChunk(c, f, schema, ref).Err? ==> VerifyChunk(c, f, schema, ref) == Err(InvalidData)
  {
    HeaderFieldsAt(f, ref);
  }

  /** Yes exactly for an intact record, an error exactly for what cannot be answered, no for
      everything else. */
  lemma VerifyAnswers(c: Codecs, f: Blob, schema: TensorSchema, ref: ChunkRef)
    ensures VerifyChunk(c, f, schema, ref) ==
      if Unanswerable(c, f, schema, ref) then Err(InvalidData)
      else Ok(exists d: Blob, flags: nat, payload: Blob :: Intact(c, f, schema, ref, d, flags, payload))
  {
    VerifyErrsIff(c, f, schema, ref);
    VerifiesIffIntact(c, f, schema, ref);
  }

  /** A record of the referenced length, whatever its header says and whatever the 32 bytes behind its
      payload are: if the payload unpacks, the answer is yes or no, never an error. */
  lemma RecordAnswered(c: Codecs, f: Blob, schema: TensorSchema, ref: ChunkRef, h: ChunkHeader, payload: Blob, sum: seq<byte>)
    requires h.flags < 0x1_0000 && |sum| == 32 && 62 + |payload| == ref.byteLen
    requires Holds(f, ref.byteOffset, EncodedChunkHeader(h) + payload + sum)
    requires schema.compression != NoCompression ==> c.unpack(payload, schema.compression).Some?
    ensures VerifyChunk(c, f, schema, ref) ==
      Ok(exists d: Blob, flags: nat, packed: Blob :: Intact(c, f, schema, ref, d, flags, packed))
  {
    ThreeParts(f, ref.byteOffset, EncodedChunkHeader(h), payload, sum);
    ChunkHeaderRoundTrip(h);
    HeaderFieldsAt(f, ref);
    VerifyAnswers(c, f, schema, ref);
  }

  /** Uncompressed payloads are the data; the others are what the library makes of them. */
  ghost predicate UnpacksTo(c: Codecs, payload: seq<byte>, m: Compression, d: Blob) {
    if m == NoCompression then d == payload else c.unpack(payload, m) == Some(d)
  }

  /** d can be read there: header with honest flags, payload inside the file, unpacking to as many
      bytes as the header says. Id, stored length and checksum are not looked at. */
  ghost predicate ReadableAs(c: Codecs, f: Blob, schema: TensorSchema, ref: ChunkRef, d: Blob) {
    && HeaderThere(f, ref) && ref.byteLen >= 62 && ref.byteOffset + ref.byteLen - 32 <= |f|
    && (FromLE(f[ref.byteOffset + 12..ref.byteOffset + 14]) == 0 <==> schema.compression == NoCompression)
    && UnpacksTo(c, f[ref.byteOffset + 30..ref.byteOffset + ref.byteLen - 32], schema.compression, d)
    && |d| == Word(f, ref.byteOffset + 14)
  }

  lemma ReadAnswers(c: Codecs, f: Blob, schema: TensorSchema, ref: ChunkRef, d: Blob)
    ensures ReadChunk(c, f, schema, ref) == Ok(d) <==> ReadableAs(c, f, schema, ref, d)
    ensures ReadChunk(c, f, schema, ref).Err? ==> ReadChunk(c, f, schema, ref) == Err(InvalidData)
  {
    HeaderFieldsAt(f, ref);
  }

  // ---- several chunks ----

  /** Chunk k is the first that is not a yes. */
  ghost predicate FirstNotYes(c: Codecs, f: Blob, schema: TensorSchema, refs: seq<ChunkRef>, k: nat) {
    && k < |refs| && VerifyChunk(c, f, schema, refs[k]) != Ok(true)
    && forall j :: 0 <= j < k ==> VerifyChunk(c, f, schema, refs[j]) == Ok(true)
  }

  /** All chunks yes: yes. Otherwise the first other answer is the answer. */
  lemma {:induction false} VerifyChunksAnswers(c: Codecs, f: Blob, schema: TensorSchema, refs: seq<ChunkRef>) returns (k: nat)
    ensures k <= |refs| && forall j :: 0 <= j < k ==> VerifyChunk(c, f, schema, refs[j]) == Ok(true)
    ensures k == |refs| ==> VerifyChunks(c, f, schema, refs) == Ok(true)
    ensures k < |refs| ==>
      FirstNotYes(c, f, schema, refs, k) && VerifyChunks(c, f, schema, refs) == VerifyChunk(c, f, schema, refs[k])
  {
    if refs == [] || VerifyChunk(c, f, schema, refs[0]) != Ok(true) {
      k := 0;
    } else {
      var i := VerifyChunksAnswers(c, f, schema, refs[1..]);
      k := i + 1;
      forall j | 0 <= j < k ensures VerifyChunk(c, f, schema, refs[j]) == Ok(true) {
        if j > 0 { assert refs[j] == refs[1..][j - 1]; }
      }
    }
  }

  ghost predicate AllRead(c: Codecs, f: Blob, schema: TensorSchema, refs: seq<ChunkRef>, pieces: seq<seq<byte>>) {
    |pieces| == |refs| && forall i :: 0 <= i < |refs| ==> ReadChunk(c, f, schema, refs[i]) == Ok(pieces[i])
  }

  /** Reading gives the pieces one after another if every chunk reads, and otherwise the error. */
  lemma {:induction false} ReadChunksAnswers(c: Codecs, f: Blob, schema: TensorSchema, refs: seq<ChunkRef>)
    returns (pieces: seq<seq<byte>>)
    ensures ReadChunks(c, f, schema, refs).Ok? ==>
      AllRead(c, f, schema, refs, pieces) && ReadChunks(c, f, schema, refs) == Ok(Flatten(pieces))
    ensures ReadChunks(c, f, schema, refs).Err? ==>
      && ReadChunks(c, f, schema, refs) == Err(InvalidData)
      && exists i :: 0 <= i < |refs| && ReadChunk(c, f, schema, refs[i]).Err?
  {
    pieces := [];
    if refs != [] {
      var k := |refs| - 1;
      var before := ReadChunksAnswers(c, f, schema, refs[..k]);
      if ReadChunks(c, f, schema, refs[..k]).Ok? {
        if ReadChunk(c, f, schema, refs[k]).Ok? {
          pieces := before + [ReadChunk(c, f, schema, refs[k]).value];
          assert pieces[..k] == before;
        } else {
          ReadAnswers(c, f, schema, refs[k], []);
        }
      } else {
        var i :| 0 <= i < k && ReadChunk(c, f, schema, refs[..k][i]).Err?;
        assert ReadChunk(c, f, schema, refs[i]).Err?;
      }
    }
  }

  // ---- by name ----

  /** Schema i is the last of its name. */
  ghost predicate LastOf(ss: seq<TensorSchema>, name: Name, i: nat) {
    i < |ss| && ss[i].name == name && forall j :: i < j < |ss| ==> ss[j].name != name
  }

  lemma {:induction false} MapIsLast(ss: seq<TensorSchema>, name: Name)
    requires name in SchemaMap(ss)
    ensures LastOf(ss, name, SchemaMap(ss)[name])
  {
    var k := |ss| - 1;
    if ss[k].name != name { MapIsLast(ss[..k], name); }
  }

  /** A name finds the last schema that carries it. */
  lemma FindIsLast(ss: seq<TensorSchema>, name: Name) returns (i: nat)
    ensures FindIn(ss, name).Some? <==> exists s :: s in ss && s.name == name
    ensures FindIn(ss, name).Some? ==> LastOf(ss, name, i) && FindIn(ss, name) == Some(ss[i])
  {
    NamesFound(ss, name);
    i := 0;
    if name in SchemaMap(ss) {
      i := SchemaMap(ss)[name];
      MapIsLast(ss, name);
    }
  }

  /** verify_tensor: undecodable schemas are an error, NotFound is for names that no schema carries and
      for these alone, and otherwise the chunks of the last schema of the name decide. */
  lemma VerifyTensorAnswers(c: Codecs, f: Blob, o: Opened, name: Name) returns (i: nat)
    requires InFile(o, f)
    ensures SchemasOf(c, f, o).Err? ==> VerifyTensor(c, f, o, name) == Err(Header)
    ensures VerifyTensor(c, f, o, name) == Err(NotFound) <==>
      SchemasOf(c, f, o).Ok? && forall s :: s in SchemasOf(c, f, o).value ==> s.name != name
    ensures SchemasOf(c, f, o).Ok? && VerifyTensor(c, f, o, name) != Err(NotFound) ==>
      var ss := SchemasOf(c, f, o).value;
      LastOf(ss, name, i) && VerifyTensor(c, f, o, name) == VerifyChunks(c, f, ss[i], ss[i].chunks)
  {
    i := 0;
    if SchemasOf(c, f, o).Ok? {
      var ss := SchemasOf(c, f, o).value;
      i := FindIsLast(ss, name);
      if FindIn(ss, name).Some? {
        var k := VerifyChunksAnswers(c, f, ss[i], ss[i].chunks);
        if k < |ss[i].chunks| { VerifyErrsIff(c, f, ss[i], ss[i].chunks[k]); }
      }
    }
  }

  /** verify_all: yes if every name is a yes; otherwise the first other answer, which is a no or a chunk's
      error and never NotFound. */
  lemma VerifyAllAnswers(c: Codecs, f: Blob, o: Opened) returns (k: nat)
    requires InFile(o, f)
    ensures SchemasOf(c, f, o).Err? ==> VerifyAll(c, f, o) == Err(Header)
    ensures SchemasOf(c, f, o).Ok? ==>
      var ss := SchemasOf(c, f, o).value;
      && k <= |ss| && (forall j :: 0 <= j < k ==> VerifyTensor(c, f, o, ss[j].name) == Ok(true))
      && if k == |ss| then VerifyAll(c, f, o) == Ok(true)
         else VerifyAll(c, f, o) == VerifyTensor(c, f, o, ss[k].name) && VerifyAll(c, f, o) in {Ok(false), Err(InvalidData)}
  {
    k := 0;
    if SchemasOf(c, f, o).Ok? {
      var ss := SchemasOf(c, f, o).value;
      k := NamesAnswers(c, f, o, ss);
      if k < |ss| {
        assert ss[k] in ss;
        var i := VerifyTensorAnswers(c, f, o, ss[k].name);
        var n := VerifyChunksAnswers(c, f, ss[i], ss[i].chunks);
        if n < |ss[i].chunks| { VerifyErrsIff(c, f, ss[i], ss[i].chunks[n]); }
      }
    }
  }

  lemma {:induction false} NamesAnswers(c: Codecs, f: Blob, o: Opened, ss: seq<TensorSchema>) returns (k: nat)
    requires InFile(o, f)
    ensures k <= |ss| && forall j :: 0 <= j < k ==> VerifyTensor(c, f, o, ss[j].name) == Ok(true)
    ensures k == |ss| ==> VerifyNames(c, f, o, ss) == Ok(true)
    ensures k < |ss| ==>
      VerifyTensor(c, f, o, ss[k].name) != Ok(true) && VerifyNames(c, f, o, ss) == VerifyTensor(c, f, o, ss[k].name)
  {
    if ss == [] || VerifyTensor(c, f, o, ss[0].name) != Ok(true) {
      k := 0;
    } else {
      var i := NamesAnswers(c, f, o, ss[1..]);
      k := i + 1;
      forall j | 0 <= j < k ensures VerifyTensor(c, f, o, ss[j].name) == Ok(true) {
        if j > 0 { assert ss[j] == ss[1..][j - 1]; }
      }
    }
  }

  /** read_tensor: nothing for names that no schema carries, and otherwise all chunks of the last schema
      of the name or the error. */
  lemma ReadTensorAnswers(c: Codecs, f: Blob, o: Opened, name: Name) returns (i: nat, pieces: seq<seq<byte>>)
    requires InFile(o, f)
    ensures SchemasOf(c, f, o).Err? ==> ReadTensor(c, f, o, name) == Err(Header)
    ensures ReadTensor(c, f, o, name) == Ok(None) <==>
      SchemasOf(c, f, o).Ok? && forall s :: s in SchemasOf(c, f, o).value ==> s.name != name
    ensures SchemasOf(c, f, o).Ok? && ReadTensor(c, f, o, name) != Ok(None) ==>
      var ss := SchemasOf(c, f, o).value;
      && LastOf(ss, name, i)
      && if forall j :: 0 <= j < |ss[i].chunks| ==> ReadChunk(c, f, ss[i], ss[i].chunks[j]).Ok? then
           AllRead(c, f, ss[i], ss[i].chunks, pieces) && ReadTensor(c, f, o, name) == Ok(Some(Flatten(pieces)))
         else ReadTensor(c, f, o, name) == Err(InvalidData)
  {
    i, pieces := 0, [];
    if SchemasOf(c, f, o).Ok? {
      var ss := SchemasOf(c, f, o).value;
      i := FindIsLast(ss, name);
      if FindIn(ss, name).Some? { pieces := ReadChunksAnswers(c, f, ss[i], ss[i].chunks); }
    }
  }
}
