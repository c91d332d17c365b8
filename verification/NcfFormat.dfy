/** The pieces of an NCF container: constants, schemas, index, fixed-size headers (ncf-core). */
module NcfFormat {
  import opened Bytes
  import Cbor

  const PREFIX_SIZE: nat := 48
  const CHUNK_HEADER_SIZE: nat := 30
  const CHECKSUM_SIZE: nat := 32
  const CHUNK_OVERHEAD: nat := CHUNK_HEADER_SIZE + CHECKSUM_SIZE
  const FOOTER_SIZE: nat := 16
  const MAX_HEADER_SIZE: nat := 64 * 1024 * 1024
  const MAX_SCHEMA_SIZE: nat := 256 * 1024 * 1024
  const MAX_INDEX_SIZE: nat := 128 * 1024 * 1024
  // "NCF", 0, then DE AD BE EF
  const NCF_MAGIC: seq<byte> := [0x4E, 0x43, 0x46, 0x00, 0xDE, 0xAD, 0xBE, 0xEF]
  // "NCFEND!!"
  const FOOTER_MAGIC: seq<byte> := [0x4E, 0x43, 0x46, 0x45, 0x4E, 0x44, 0x21, 0x21]
  // "NCFK"
  const CHUNK_MAGIC: seq<byte> := [0x4E, 0x43, 0x46, 0x4B]
  const VERSION: nat := 0x0001_0000

  // Rust vectors hold at most isize::MAX bytes.
  const MAX_VEC: nat := 0x8000_0000_0000_0000

  type Vec<T> = s: seq<T> | |s| < MAX_VEC witness []
  type Blob = Vec<byte>
  type Digest = s: seq<byte> | |s| == CHECKSUM_SIZE witness seq(32, _ => 0)
  type u32 = x: nat | x < TWO_32
  type Name = Vec<byte>

  /** The kinds of NcfError and of the io::Error inside it. */
  datatype NcfError = Header | Other | InvalidData | UnexpectedEof | NotFound

  type NcfResult<+T> = Result<T, NcfError>

  // ---- what a container describes ----

  datatype Compression = NoCompression | Zstd(level: byte) | Lz4 | Snappy

  datatype DType = F64 | F32 | F16 | BF16 | I32 | I16 | I8 | U8 | Q4K | Q4_0 | Q8_0 | Custom(tag: byte)

  datatype Layout = RowMajor | ColMajor | Tiled(size: u32)

  datatype Encoding = Plain | DeltaRLE | BitPacked | DictionaryRLE

  datatype ChunkRef = ChunkRef(chunkId: u64, byteOffset: u64, byteLen: u64, uncompressedLen: u64, checksum: Digest)

  datatype TensorSchema = TensorSchema(
    name: Name, dtype: DType, shape: Vec<u64>, layout: Layout,
    compression: Compression, encoding: Encoding, chunks: Vec<ChunkRef>)

  datatype IndexEntry = IndexEntry(chunkId: u64, byteOffset: u64, byteLen: u64, nameHash: u64)

  /** The index as it is serialized. */
  datatype NcfIndex = NcfIndex(entryCount: u64, entries: seq<IndexEntry>, tensorMap: map<Name, u64>)

  datatype Metadata = Metadata(
    modelName: Name, architecture: Name, createdAt: u64, author: Option<Name>,
    license: Option<Name>, quantization: Option<Name>, custom: map<Name, Cbor.Item>)

  /** The libraries: compression, hashing, and (de)serialization of the three CBOR blocks. */
  datatype Codecs = Codecs(
    pack: (Blob, Compression) -> Option<Blob>,
    unpack: (seq<byte>, Compression) -> Option<Blob>,
    hash: seq<byte> -> Digest,
    nameHash: Name -> u64,
    encHeader: Metadata -> seq<byte>, decHeader: seq<byte> -> Option<Metadata>,
    encSchemas: seq<TensorSchema> -> seq<byte>, decSchemas: seq<byte> -> Option<seq<TensorSchema>>,
    encIndex: NcfIndex -> seq<byte>, decIndex: seq<byte> -> Option<NcfIndex>)

  /** Reading back what was written works; for schemas also with other bytes behind them,
      which is how the reader decodes them. */
  ghost predicate Lawful(c: Codecs) {
    && (forall m :: c.decHeader(c.encHeader(m)) == Some(m))
    && (forall i :: c.decIndex(c.encIndex(i)) == Some(i))
    && (forall ss: Vec<TensorSchema>, rest :: c.decSchemas(c.encSchemas(ss) + rest) == Some(ss))
  }

  function CompressPayload(c: Codecs, data: Blob, m: Compression): Option<Blob> {
    if m == NoCompression then Some(data) else c.pack(data, m)
  }

  function Decompress(c: Codecs, payload: Blob, m: Compression): Option<Blob> {
    if m == NoCompression then Some(payload) else c.unpack(payload, m)
  }

  // ---- chunk headers ----

  datatype ChunkHeader = ChunkHeader(chunkId: u64, flags: nat, uncompressedLen: u64, compressedLen: u64)

  function EncodedChunkHeader(h: ChunkHeader): (s: seq<byte>)
    ensures |s| == CHUNK_HEADER_SIZE
  {
    CHUNK_MAGIC + LE(h.chunkId, 8) + LE(h.flags, 2) + LE(h.uncompressedLen, 8) + LE(h.compressedLen, 8)
  }

  function DecodeChunkHeader(b: seq<byte>): NcfResult<ChunkHeader> {
    if |b| < CHUNK_HEADER_SIZE then Err(UnexpectedEof)
    else if b[..4] != CHUNK_MAGIC then Err(InvalidData)
    else Ok(ChunkHeader(Word(b, 4), FromLE(b[12..14]), Word(b, 14), Word(b, 22)))
  }

  /** Five fields of these widths, by position. */
  lemma FiveFields(m: seq<byte>, i: seq<byte>, f: seq<byte>, u: seq<byte>, n: seq<byte>)
    requires |m| == 4 && |i| == 8 && |f| == 2 && |u| == 8 && |n| == 8
    ensures var b := m + i + f + u + n;
      |b| == 30 && b[..4] == m && b[4..12] == i && b[12..14] == f && b[14..22] == u && b[22..30] == n
  {
  }

  lemma FlagsOfLE(n: nat)
    requires n < 0x1_0000
    ensures FromLE(LE(n, 2)) == n
  {
    assert Pow256(2) == 0x1_0000;
    DecodeEncodeLE(n, 2);
  }

  lemma ChunkHeaderRoundTrip(h: ChunkHeader)
    requires h.flags < 0x1_0000
    ensures DecodeChunkHeader(EncodedChunkHeader(h)) == Ok(h)
  {
    FiveFields(CHUNK_MAGIC, LE(h.chunkId, 8), LE(h.flags, 2), LE(h.uncompressedLen, 8), LE(h.compressedLen, 8));
    WordOfLE(h.chunkId); FlagsOfLE(h.flags); WordOfLE(h.uncompressedLen); WordOfLE(h.compressedLen);
  }

  /** A chunk header decodes if and only if it has 30 bytes beginning with "NCFK"; too few bytes and a wrong
      magic are different errors. */
  lemma ChunkHeaderDecodesIff(b: seq<byte>)
    ensures |b| < 30 ==> DecodeChunkHeader(b) == Err(UnexpectedEof)
    ensures |b| >= 30 && b[..4] != [0x4E, 0x43, 0x46, 0x4B] ==> DecodeChunkHeader(b) == Err(InvalidData)
    ensures |b| >= 30 && b[..4] == [0x4E, 0x43, 0x46, 0x4B] ==>
      DecodeChunkHeader(b) == Ok(ChunkHeader(Word(b, 4), FromLE(b[12..14]), Word(b, 14), Word(b, 22)))
  {
  }

  // ---- the file prefix ----

  datatype NcfFlags = Flags(compressed: bool, encrypted: bool, streamingSafe: bool)

  function FlagBits(f: NcfFlags): (n: nat)
    ensures n < 8
  {
    (if f.compressed then 1 else 0) + (if f.encrypted then 2 else 0) + (if f.streamingSafe then 4 else 0)
  }

  /** `from_bits_truncate`. */
  function FlagsOf(n: nat): NcfFlags {
    Flags(n % 2 == 1, n / 2 % 2 == 1, n / 4 % 2 == 1)
  }

  datatype FilePrefix = FilePrefix(
    version: u32, flags: NcfFlags, headerLen: u64, schemaOffset: u64, indexOffset: u64, chunkCount: u64)

  function EncodedPrefix(p: FilePrefix): (s: seq<byte>)
    ensures |s| == PREFIX_SIZE
  {
    NCF_MAGIC + LE(p.version, 4) + LE(FlagBits(p.flags), 4)
    + LE(p.headerLen, 8) + LE(p.schemaOffset, 8) + LE(p.indexOffset, 8) + LE(p.chunkCount, 8)
  }

  function DecodePrefix(b: seq<byte>): NcfResult<FilePrefix> {
    if |b| < PREFIX_SIZE then Err(Header)
    else if b[..8] != NCF_MAGIC then Err(Header)
    else
      assert Pow256(4) == TWO_32;
      Ok(FilePrefix(FromLE(b[8..12]), FlagsOf(FromLE(b[12..16])), Word(b, 16), Word(b, 24), Word(b, 32), Word(b, 40)))
  }

  lemma PrefixFields(p: FilePrefix)
    ensures var b := EncodedPrefix(p);
      && b[..8] == NCF_MAGIC && b[8..12] == LE(p.version, 4) && b[12..16] == LE(FlagBits(p.flags), 4)
      && b[16..24] == LE(p.headerLen, 8) && b[24..32] == LE(p.schemaOffset, 8)
      && b[32..40] == LE(p.indexOffset, 8) && b[40..48] == LE(p.chunkCount, 8)
  {
  }

  lemma FlagsRoundTrip(f: NcfFlags)
    ensures FlagsOf(FlagBits(f)) == f && FlagBits(f) < TWO_32
  {
  }

  lemma PrefixRoundTrip(p: FilePrefix)
    ensures DecodePrefix(EncodedPrefix(p)) == Ok(p)
  {
    PrefixFields(p);
    FlagsRoundTrip(p.flags);
    DwordOfLE(p.version); DwordOfLE(FlagBits(p.flags));
    WordOfLE(p.headerLen); WordOfLE(p.schemaOffset); WordOfLE(p.indexOffset); WordOfLE(p.chunkCount);
  }
}
