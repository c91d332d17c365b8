/** What the verifier guarantees, on any file bytes and any decoded schemas. */
module NcfVerify {
  import opened Bytes
  import opened NcfFormat
  import opened NcfReader

  /** A chunk record as the format describes it: header, payload, checksum, back to back,
      agreeing with the reference; the payload unpacks to d, whose hash is the checksum. */
  ghost predicate Intact(c: Codecs, f: Blob, schema: TensorSchema, ref: ChunkRef, d: Blob, flags: nat, payload: Blob) {
    && |payload| + CHUNK_OVERHEAD == ref.byteLen && flags < 0x1_0000
    && (flags == 0 <==> schema.compression == NoCompression)
    && Holds(f, ref.byteOffset, Record(ref, flags, payload))
    && Decompress(c, payload, schema.compression) == Some(d)
    && |d| == ref.uncompressedLen && c.hash(d) == ref.checksum
  }

  function Record(ref: ChunkRef, flags: nat, payload: Blob): (s: seq<byte>)
    ensures |s| == CHUNK_OVERHEAD + |payload|
  {
    EncodedChunkHeader(ChunkHeader(ref.chunkId, flags, ref.uncompressedLen, |payload|)) + payload + ref.checksum
  }

  lemma DecodedHeaderEncodes(b: seq<byte>)
    requires |b| == CHUNK_HEADER_SIZE && DecodeChunkHeader(b).Ok?
    ensures DecodeChunkHeader(b).value.flags < 0x1_0000
    ensures EncodedChunkHeader(DecodeChunkHeader(b).value) == b
  {
    assert Pow256(2) == 0x1_0000;
    EncodeDecodeLE(b[4..12]);
    EncodeDecodeLE(b[12..14]);
    EncodeDecodeLE(b[14..22]);
    EncodeDecodeLE(b[22..30]);
    assert b == b[..4] + b[4..12] + b[12..14] + b[14..22] + b[22..30];
  }

  lemma ThreeParts(f: seq<byte>, at: nat, a: seq<byte>, b: seq<byte>, d: seq<byte>)
    ensures Holds(f, at, a + b + d) <==>
      Holds(f, at, a) && Holds(f, at + |a|, b) && Holds(f, at + |a| + |b|, d)
  {
    var s := a + b + d;
    if Holds(f, at, s) {
      assert Holds(s, 0, a) && Holds(s, |a|, b) && Holds(s, |a| + |b|, d);
      HoldsInside(f, at, s, 0, a);
      HoldsInside(f, at, s, |a|, b);
      HoldsInside(f, at, s, |a| + |b|, d);
    }
    if Holds(f, at, a) && Holds(f, at + |a|, b) && Holds(f, at + |a| + |b|, d) {
      assert f[at..at + |s|] == f[at..at + |a|] + f[at + |a|..at + |a| + |b|] + f[at + |a| + |b|..at + |s|];
    }
  }

  lemma VerifiedIsIntact(c: Codecs, f: Blob, schema: TensorSchema, ref: ChunkRef)
    returns (d: Blob, flags: nat, payload: Blob)
    requires VerifyChunk(c, f, schema, ref) == Ok(true)
    ensures Intact(c, f, schema, ref, d, flags, payload)
  {
    var at := ref.byteOffset;
    var b := f[at..at + CHUNK_HEADER_SIZE];
    var h := DecodeChunkHeader(b).value;
    DecodedHeaderEncodes(b);
    flags := h.flags;
    payload := f[at + CHUNK_HEADER_SIZE..at + ref.byteLen - CHECKSUM_SIZE];
    d := Decompress(c, payload, schema.compression).value;
    assert h == ChunkHeader(ref.chunkId, flags, ref.uncompressedLen, |payload|);
    ThreeParts(f, at, b, payload, ref.checksum);
  }

  lemma IntactVerifies(c: Codecs, f: Blob, schema: TensorSchema, ref: ChunkRef, d: Blob, flags: nat, payload: Blob)
    requires Intact(c, f, schema, ref, d, flags, payload)
    ensures VerifyChunk(c, f, schema, ref) == Ok(true) && ReadChunk(c, f, schema, ref) == Ok(d)
  {
    var h := ChunkHeader(ref.chunkId, flags, ref.uncompressedLen, |payload|);
    ChunkHeaderRoundTrip(h);
    ThreeParts(f, ref.byteOffset, EncodedChunkHeader(h), payload, ref.checksum);
    assert HeaderAt(f, ref) == Ok(h);
  }

  /** The verifier accepts a chunk exactly when an intact record lies at its reference. */
  lemma VerifiesIffIntact(c: Codecs, f: Blob, schema: TensorSchema, ref: ChunkRef)
    ensures VerifyChunk(c, f, schema, ref) == Ok(true)
      <==> exists d: Blob, flags: nat, payload: Blob :: Intact(c, f, schema, ref, d, flags, payload)
  {
    if VerifyChunk(c, f, schema, ref) == Ok(true) {
      var d, flags, payload := VerifiedIsIntact(c, f, schema, ref);
    }
    if d: Blob, flags: nat, payload: Blob :| Intact(c, f, schema, ref, d, flags, payload) {
      IntactVerifies(c, f, schema, ref, d, flags, payload);
    }
  }

  function TotalLen(refs: seq<ChunkRef>): nat {
    if refs == [] then 0 else TotalLen(refs[..|refs| - 1]) + refs[|refs| - 1].uncompressedLen
  }

  ghost predicate Pieces(c: Codecs, refs: seq<ChunkRef>, pieces: seq<seq<byte>>) {
    && |pieces| == |refs|
    && forall i :: 0 <= i < |refs| ==> c.hash(pieces[i]) == refs[i].checksum && |pieces[i]| == refs[i].uncompressedLen
  }

  lemma {:induction false} VerifiedChunk(c: Codecs, f: Blob, schema: TensorSchema, refs: seq<ChunkRef>, i: nat)
    requires VerifyChunks(c, f, schema, refs) == Ok(true) && i < |refs|
    ensures VerifyChunk(c, f, schema, refs[i]) == Ok(true)
  {
    if i > 0 { VerifiedChunk(c, f, schema, refs[1..], i - 1); }
  }

  lemma VerifiedChunkReads(c: Codecs, f: Blob, schema: TensorSchema, ref: ChunkRef) returns (d: Blob)
    requires VerifyChunk(c, f, schema, ref) == Ok(true)
    ensures ReadChunk(c, f, schema, ref) == Ok(d) && c.hash(d) == ref.checksum && |d| == ref.uncompressedLen
  {
    var data, flags, payload := VerifiedIsIntact(c, f, schema, ref);
    IntactVerifies(c, f, schema, ref, data, flags, payload);
    d := data;
  }

  lemma {:induction false} VerifiedChunksRead(c: Codecs, f: Blob, schema: TensorSchema, refs: seq<ChunkRef>, n: nat)
    returns (pieces: seq<seq<byte>>)
    requires n <= |refs| && VerifyChunks(c, f, schema, refs) == Ok(true)
    ensures Pieces(c, refs[..n], pieces)
    ensures ReadChunks(c, f, schema, refs[..n]) == Ok(Flatten(pieces)) && |Flatten(pieces)| == TotalLen(refs[..n])
  {
    if n == 0 {
      pieces := [];
    } else {
      var before := VerifiedChunksRead(c, f, schema, refs, n - 1);
      VerifiedChunk(c, f, schema, refs, n - 1);
      var d := VerifiedChunkReads(c, f, schema, refs[n - 1]);
      assert refs[..n][..n - 1] == refs[..n - 1];
      pieces := before + [d];
      assert pieces[..n - 1] == before;
    }
  }

  /** Verification implies readability: a verified tensor reads, as the concatenation of
      pieces whose hashes are the recorded checksums and whose lengths are the recorded ones. */
  lemma VerifiedTensorReads(c: Codecs, f: Blob, o: Opened, name: Name) returns (pieces: seq<seq<byte>>)
    requires InFile(o, f) && VerifyTensor(c, f, o, name) == Ok(true)
    ensures SchemasOf(c, f, o).Ok? && FindIn(SchemasOf(c, f, o).value, name).Some?
    ensures var refs := FindIn(SchemasOf(c, f, o).value, name).value.chunks;
      && Pieces(c, refs, pieces)
      && ReadTensor(c, f, o, name) == Ok(Some(Flatten(pieces))) && |Flatten(pieces)| == TotalLen(refs)
  {
    var s := FindIn(SchemasOf(c, f, o).value, name).value;
    pieces := VerifiedChunksRead(c, f, s, s.chunks, |s.chunks|);
    assert s.chunks[..|s.chunks|] == s.chunks;
  }

  lemma {:induction false} VerifyNamesIff(c: Codecs, f: Blob, o: Opened, ss: seq<TensorSchema>)
    requires InFile(o, f)
    ensures VerifyNames(c, f, o, ss) == Ok(true)
      <==> forall i :: 0 <= i < |ss| ==> VerifyTensor(c, f, o, ss[i].name) == Ok(true)
  {
    if ss != [] {
      VerifyNamesIff(c, f, o, ss[1..]);
      assert forall i :: 0 < i < |ss| ==> ss[i] == ss[1..][i - 1];
    }
  }

  /** `verify_all` succeeds exactly when every listed tensor verifies; then every name either
      reads in full or is not in the file at all. */
  lemma VerifiedFileReads(c: Codecs, f: Blob, o: Opened, name: Name)
    requires InFile(o, f)
    ensures VerifyAll(c, f, o) == Ok(true) <==>
      && SchemasOf(c, f, o).Ok?
      && forall i :: 0 <= i < |SchemasOf(c, f, o).value| ==>
           VerifyTensor(c, f, o, SchemasOf(c, f, o).value[i].name) == Ok(true)
    ensures VerifyAll(c, f, o) == Ok(true) ==> ReadTensor(c, f, o, name).Ok?
    ensures VerifyAll(c, f, o) == Ok(true) ==>
      (ReadTensor(c, f, o, name).value.Some? <==> exists s :: s in SchemasOf(c, f, o).value && s.name == name)
  {
    if SchemasOf(c, f, o).Ok? {
      var ss := SchemasOf(c, f, o).value;
      VerifyNamesIff(c, f, o, ss);
      NamesFound(ss, name);
      if VerifyAll(c, f, o) == Ok(true) && FindIn(ss, name).Some? {
        var i := SchemaMap(ss)[name];
        assert VerifyTensor(c, f, o, ss[i].name) == Ok(true);
        var pieces := VerifiedTensorReads(c, f, o, name);
      }
    }
  }

  lemma {:induction false} NamesFound(ss: seq<TensorSchema>, name: Name)
    ensures name in SchemaMap(ss) <==> exists s :: s in ss && s.name == name
  {
    if ss != [] {
      var init := ss[..|ss| - 1];
      NamesFound(init, name);
      assert ss == init + [ss[|ss| - 1]];
    }
  }
}
