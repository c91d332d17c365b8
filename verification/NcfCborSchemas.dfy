/** Schemas in CBOR can be told apart, also with other bytes behind them: what is assumed of
    the libraries and what is assumed of the schema encoding hold together. */
module NcfCborSchemas {
  import opened Bytes
  import opened Cbor
  import opened NcfFormat
  import opened NcfOffsets

  // ---- the format ----

  /** A chunk reference is written as five named fields, the checksum as an array of numbers. */
  lemma ChunkWritten(r: ChunkRef)
    ensures ChunkItem(r).Map? && |ChunkItem(r).entries| == 10
    ensures HasField(ChunkItem(r), 0, "chunk_id", UInt(r.chunkId)) && HasField(ChunkItem(r), 1, "byte_offset", UInt(r.byteOffset))
    ensures HasField(ChunkItem(r), 2, "byte_len", UInt(r.byteLen))
    ensures HasField(ChunkItem(r), 3, "uncompressed_len", UInt(r.uncompressedLen))
    ensures HasField(ChunkItem(r), 4, "checksum", Array(UInts(r.checksum)))
  {
    var vs := ChunkValues(r);
    RecordHasField(CHUNK_FIELDS, vs, 0); RecordHasField(CHUNK_FIELDS, vs, 1); RecordHasField(CHUNK_FIELDS, vs, 2);
    RecordHasField(CHUNK_FIELDS, vs, 3); RecordHasField(CHUNK_FIELDS, vs, 4);
  }

  /** A schema is written as seven named fields. */
  lemma SchemaWritten(s: TensorSchema)
    ensures SchemaItem(s).Map? && |SchemaItem(s).entries| == 14
    ensures HasField(SchemaItem(s), 0, "name", Text(s.name)) && HasField(SchemaItem(s), 1, "dtype", DTypeItem(s.dtype))
    ensures HasField(SchemaItem(s), 2, "shape", Array(UInts(s.shape)))
    ensures HasField(SchemaItem(s), 3, "column_layout", LayoutItem(s.layout))
    ensures HasField(SchemaItem(s), 4, "compression", CompressionItem(s.compression))
    ensures HasField(SchemaItem(s), 5, "encoding", EncodingItem(s.encoding))
    ensures HasField(SchemaItem(s), 6, "chunks", Array(seq(|s.chunks|, i requires 0 <= i < |s.chunks| => ChunkItem(s.chunks[i]))))
  {
    SchemaFields(s, SchemaFront(s) + [Array(ChunkItems(s.chunks))]);
  }

  lemma SchemaFields(s: TensorSchema, vs: seq<Item>)
    requires |vs| == 7 && SchemaItem(s) == Record(SCHEMA_FIELDS, vs)
    ensures |SchemaItem(s).entries| == 14
    ensures HasField(SchemaItem(s), 0, "name", vs[0]) && HasField(SchemaItem(s), 1, "dtype", vs[1])
    ensures HasField(SchemaItem(s), 2, "shape", vs[2]) && HasField(SchemaItem(s), 3, "column_layout", vs[3])
    ensures HasField(SchemaItem(s), 4, "compression", vs[4]) && HasField(SchemaItem(s), 5, "encoding", vs[5])
    ensures HasField(SchemaItem(s), 6, "chunks", vs[6])
  {
    RecordHasField(SCHEMA_FIELDS, vs, 0); RecordHasField(SCHEMA_FIELDS, vs, 1); RecordHasField(SCHEMA_FIELDS, vs, 2);
    RecordHasField(SCHEMA_FIELDS, vs, 3); RecordHasField(SCHEMA_FIELDS, vs, 4); RecordHasField(SCHEMA_FIELDS, vs, 5);
    RecordHasField(SCHEMA_FIELDS, vs, 6);
  }

  ghost predicate Named(x: Item, name: string) { x == Text(Ascii(name)) }

  ghost predicate NamedWith(x: Item, name: string, n: nat) { x == Map([Text(Ascii(name)), UInt(n)]) }

  /** Types and compressions are written by name, those with a number as a map from name to number. */
  lemma VariantsWritten(d: DType, m: Compression)
    ensures match d
      case F64 => Named(DTypeItem(d), "F64") case F32 => Named(DTypeItem(d), "F32")
      case F16 => Named(DTypeItem(d), "F16") case BF16 => Named(DTypeItem(d), "BF16")
      case I32 => Named(DTypeItem(d), "I32") case I16 => Named(DTypeItem(d), "I16")
      case I8 => Named(DTypeItem(d), "I8") case U8 => Named(DTypeItem(d), "U8")
      case Q4K => Named(DTypeItem(d), "Q4K") case Q4_0 => Named(DTypeItem(d), "Q4_0")
      case Q8_0 => Named(DTypeItem(d), "Q8_0") case Custom(tag) => NamedWith(DTypeItem(d), "Custom", tag)
    ensures match m
      case NoCompression => Named(CompressionItem(m), "None") case Zstd(level) => NamedWith(CompressionItem(m), "Zstd", level)
      case Lz4 => Named(CompressionItem(m), "Lz4") case Snappy => Named(CompressionItem(m), "Snappy")
  {
  }

  // ---- telling schemas apart ----

  ghost predicate IsAscii(s: string) { forall i :: 0 <= i < |s| ==> s[i] as int < 128 }

  lemma UnitInjective(a: string, b: string)
    requires IsAscii(a) && IsAscii(b) && Unit(a) == Unit(b)
    ensures a == b
  {
    assert |Ascii(a)| == |Ascii(b)|;
    forall i | 0 <= i < |a| ensures a[i] == b[i] {
      assert Ascii(a)[i] == Ascii(b)[i];
    }
  }

  lemma DTypeInjective(d: DType, e: DType)
    requires DTypeItem(d) == DTypeItem(e)
    ensures d == e
  {
    if !d.Custom? && !e.Custom? { UnitInjective(DTypeName(d), DTypeName(e)); }
  }

  lemma LayoutInjective(l: Layout, k: Layout)
    requires LayoutItem(l) == LayoutItem(k)
    ensures l == k
  {
    if !l.Tiled? && !k.Tiled? { UnitInjective(LayoutName(l), LayoutName(k)); }
  }

  lemma CompressionInjective(m: Compression, n: Compression)
    requires CompressionItem(m) == CompressionItem(n)
    ensures m == n
  {
    if !m.Zstd? && !n.Zstd? { UnitInjective(CompressionName(m), CompressionName(n)); }
  }

  lemma EncodingInjective(e: Encoding, g: Encoding)
    requires EncodingItem(e) == EncodingItem(g)
    ensures e == g
  {
    UnitInjective(EncodingName(e), EncodingName(g));
  }

  lemma UIntsInjective(a: seq<nat>, b: seq<nat>)
    requires UInts(a) == UInts(b)
    ensures a == b
  {
    assert |UInts(a)| == |UInts(b)|;
    forall i | 0 <= i < |a| ensures a[i] == b[i] {
      assert UInts(a)[i] == UInts(b)[i];
    }
  }

  lemma RecordInjective(names: seq<string>, vs: seq<Item>, ws: seq<Item>)
    requires |names| == |vs| == |ws| && Record(names, vs) == Record(names, ws)
    ensures vs == ws
  {
    RecordRoundTrip(names, vs);
    RecordRoundTrip(names, ws);
  }

  lemma ChunkInjective(r: ChunkRef, q: ChunkRef)
    requires ChunkItem(r) == ChunkItem(q)
    ensures r == q
  {
    RecordInjective(CHUNK_FIELDS, ChunkValues(r), ChunkValues(q));
    assert ChunkValues(r)[4] == ChunkValues(q)[4];
    UIntsInjective(r.checksum, q.checksum);
    assert ChunkValues(r)[..4] == UInts(ChunkNumbers(r)) && ChunkValues(q)[..4] == UInts(ChunkNumbers(q));
    UIntsInjective(ChunkNumbers(r), ChunkNumbers(q));
    SameFour(ChunkNumbers(r), ChunkNumbers(q));
  }

  lemma SameFour(a: seq<nat>, b: seq<nat>)
    requires a == b && |a| == 4
    ensures a[0] == b[0] && a[1] == b[1] && a[2] == b[2] && a[3] == b[3]
  {
  }

  lemma ChunksInjective(rs: seq<ChunkRef>, qs: seq<ChunkRef>)
    requires ChunkItems(rs) == ChunkItems(qs)
    ensures rs == qs
  {
    assert |ChunkItems(rs)| == |ChunkItems(qs)|;
    forall i | 0 <= i < |rs| ensures rs[i] == qs[i] {
      assert ChunkItems(rs)[i] == ChunkItems(qs)[i];
      ChunkInjective(rs[i], qs[i]);
    }
  }

  lemma FrontInjective(s: TensorSchema, t: TensorSchema)
    requires SchemaFront(s) == SchemaFront(t)
    ensures s == t.(chunks := s.chunks)
  {
    var a, b := SchemaFront(s), SchemaFront(t);
    assert a[0] == b[0] && a[1] == b[1] && a[2] == b[2] && a[3] == b[3] && a[4] == b[4] && a[5] == b[5];
    DTypeInjective(s.dtype, t.dtype);
    UIntsInjective(s.shape, t.shape);
    LayoutInjective(s.layout, t.layout);
    CompressionInjective(s.compression, t.compression);
    EncodingInjective(s.encoding, t.encoding);
  }

  lemma SchemaInjective(s: TensorSchema, t: TensorSchema)
    requires SchemaItem(s) == SchemaItem(t)
    ensures s == t
  {
    var vs, ws := SchemaFront(s) + [Array(ChunkItems(s.chunks))], SchemaFront(t) + [Array(ChunkItems(t.chunks))];
    RecordInjective(SCHEMA_FIELDS, vs, ws);
    assert vs[..6] == SchemaFront(s) && ws[..6] == SchemaFront(t);
    FrontInjective(s, t);
    assert vs[6] == ws[6];
    ChunksInjective(s.chunks, t.chunks);
  }

  /** No encoded list of schemas begins with the encoding of another one. */
  lemma SchemasPrefixFree(ss: Vec<TensorSchema>, ts: Vec<TensorSchema>, rest: seq<byte>)
    requires SchemasInCbor(ts) <= SchemasInCbor(ss) + rest
    ensures ts == ss
  {
    var all := SchemasInCbor(ss) + rest;
    RoundTrip(Array(SchemaItems(ss)), rest);
    var tail := all[|SchemasInCbor(ts)|..];
    assert all == SchemasInCbor(ts) + tail;
    RoundTrip(Array(SchemaItems(ts)), tail);
    assert SchemaItems(ss) == SchemaItems(ts);
    assert |SchemaItems(ss)| == |SchemaItems(ts)|;
    forall i | 0 <= i < |ss| ensures ss[i] == ts[i] {
      assert SchemaItems(ss)[i] == SchemaItems(ts)[i];
      SchemaInjective(ss[i], ts[i]);
    }
  }

  /** The schemas at the beginning of the bytes. */
  ghost function SchemasIn(b: seq<byte>): Option<seq<TensorSchema>> {
    if exists ss: Vec<TensorSchema> :: SchemasInCbor(ss) <= b then
      var ss: Vec<TensorSchema> :| SchemasInCbor(ss) <= b;
      Some(ss)
    else None
  }

  lemma SchemasComeBack(ss: Vec<TensorSchema>, rest: seq<byte>)
    ensures SchemasIn(SchemasInCbor(ss) + rest) == Some(ss)
  {
    var b := SchemasInCbor(ss) + rest;
    assert SchemasInCbor(ss) <= b;
    var ts: Vec<TensorSchema> :| SchemasIn(b) == Some(ts) && SchemasInCbor(ts) <= b;
    SchemasPrefixFree(ss, ts, rest);
  }

  ghost function WithCborSchemas(c: Codecs): Codecs {
    c.(encSchemas := ss => if |ss| < MAX_VEC then SchemasInCbor(ss) else [], decSchemas := b => SchemasIn(b))
  }

  /** Libraries that are lawful for header and index are lawful altogether with schemas in CBOR. */
  lemma CborSchemasAreLawful(c: Codecs)
    requires forall m :: c.decHeader(c.encHeader(m)) == Some(m)
    requires forall i :: c.decIndex(c.encIndex(i)) == Some(i)
    ensures NcfFormat.Lawful(WithCborSchemas(c)) && WritesCbor(WithCborSchemas(c))
  {
    var d := WithCborSchemas(c);
    forall ss: Vec<TensorSchema>, rest: seq<byte> ensures d.decSchemas(d.encSchemas(ss) + rest) == Some(ss) {
      SchemasComeBack(ss, rest);
    }
  }
}
