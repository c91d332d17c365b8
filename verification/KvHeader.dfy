/** The 64-byte file header (ncf-kvcache/src/header.rs) and the words that the
    writer and its worker update in place. */
module KvHeader {
  import opened Bytes

  const BLOCK_TOKEN_COUNT: nat := 64
  const HEADER_SIZE: nat := 64
  // "NCFKVCCH"
  const MAGIC: seq<byte> := [0x4E, 0x43, 0x46, 0x4B, 0x56, 0x43, 0x43, 0x48]
  const EPOCH_AT: nat := 32
  const VALID_AT: nat := 40
  const HEAD_AT: nat := 48
  const MUTABLE_END: nat := 56

  /** The source's error variants; `Panic` stands for a Rust panic. */
  datatype Error = Layout | Overflow | Cbor | Panic

  type KvResult<+T> = Result<T, Error>

  datatype RawConfig = Config(layers: nat, heads: nat, elementBytes: nat) {
    function Columns(): nat { layers * heads }
    function Stride(): nat { Columns() * elementBytes }
    function LayerOf(i: nat): nat requires heads > 0 { i / heads }
    function HeadOf(i: nat): nat requires heads > 0 { i % heads }
  }

  type KvCacheConfig = c: RawConfig |
    && 1 <= c.layers < TWO_32 && 1 <= c.heads < TWO_32 && 1 <= c.elementBytes < TWO_32
    witness Config(1, 1, 1)

  datatype KvCacheHeader = Header(
    version: nat, flags: nat, blockSize: nat,
    layers: nat, heads: nat, elementBytes: nat,
    commitEpoch: nat, validTokenCount: nat, indexHeadOffset: nat,
    metadataLen: nat, reserved1: nat)
  {
    predicate InRange() {
      && version < TWO_32 && flags < TWO_32 && blockSize < TWO_32
      && layers < TWO_32 && heads < TWO_32 && elementBytes < TWO_32
      && commitEpoch < TWO_64 && validTokenCount < TWO_64 && indexHeadOffset < TWO_64
      && metadataLen < TWO_32 && reserved1 < TWO_32
    }
  }

  function NewHeader(cfg: KvCacheConfig, metadataLen: nat): KvCacheHeader {
    Header(1, 1, BLOCK_TOKEN_COUNT, cfg.layers, cfg.heads, cfg.elementBytes, 0, 0, 0, metadataLen, 0)
  }

  /** The fields up to the commit epoch. */
  function EncodedFront(h: KvCacheHeader): (s: seq<byte>)
    ensures |s| == EPOCH_AT
  {
    MAGIC + LE(h.version, 4) + LE(h.flags, 4) + LE(h.blockSize, 4)
    + LE(h.layers, 4) + LE(h.heads, 4) + LE(h.elementBytes, 4)
  }

  /** The header's bytes, field after field. */
  function Encoded(h: KvCacheHeader): (s: seq<byte>)
    ensures |s| == HEADER_SIZE
  {
    EncodedFront(h)
    + LE(h.commitEpoch, 8) + LE(h.validTokenCount, 8) + LE(h.indexHeadOffset, 8)
    + LE(h.metadataLen, 4) + LE(h.reserved1, 4)
  }

  function Decode(b: seq<byte>): (r: KvResult<KvCacheHeader>) {
    if |b| < HEADER_SIZE then Err(Layout)
    else if b[..8] != MAGIC then Err(Layout)
    else Ok(Header(
      FromLE(b[8..12]), FromLE(b[12..16]), FromLE(b[16..20]),
      FromLE(b[20..24]), FromLE(b[24..28]), FromLE(b[28..32]),
      FromLE(b[32..40]), FromLE(b[40..48]), FromLE(b[48..56]),
      FromLE(b[56..60]), FromLE(b[60..64])))
  }

  /** Fields are copied front to back, so only the filled prefix matters. */
  method CopyInto(a: array<byte>, at: nat, s: seq<byte>)
    requires at + |s| <= a.Length
    modifies a
    ensures a[..at + |s|] == old(a[..at]) + s
  {
    for i := 0 to |s|
      invariant a[..at + i] == old(a[..at]) + s[..i]
    {
      a[at + i] := s[i];
    }
  }

  method EncodeFront(a: array<byte>, h: KvCacheHeader)
    requires a.Length == HEADER_SIZE
    modifies a
    ensures a[..EPOCH_AT] == EncodedFront(h)
  {
    CopyInto(a, 0, MAGIC);
    CopyInto(a, 8, LE(h.version, 4));
    CopyInto(a, 12, LE(h.flags, 4));
    CopyInto(a, 16, LE(h.blockSize, 4));
    CopyInto(a, 20, LE(h.layers, 4));
    CopyInto(a, 24, LE(h.heads, 4));
    CopyInto(a, 28, LE(h.elementBytes, 4));
  }

  /** `KvCacheHeader::encode` fills a zeroed 64-byte array field by field. */
  method Encode(h: KvCacheHeader) returns (a: array<byte>)
    ensures fresh(a) && a[..] == Encoded(h)
  {
    a := new byte[HEADER_SIZE](_ => 0);
    EncodeFront(a, h);
    CopyInto(a, 32, LE(h.commitEpoch, 8));
    CopyInto(a, 40, LE(h.validTokenCount, 8));
    CopyInto(a, 48, LE(h.indexHeadOffset, 8));
    CopyInto(a, 56, LE(h.metadataLen, 4));
    CopyInto(a, 60, LE(h.reserved1, 4));
    assert a[..] == a[..64];
  }

  lemma EncodedFields(h: KvCacheHeader)
    ensures var b := Encoded(h);
            && b[..8] == MAGIC && b[8..12] == LE(h.version, 4) && b[12..16] == LE(h.flags, 4)
            && b[16..20] == LE(h.blockSize, 4) && b[20..24] == LE(h.layers, 4)
            && b[24..28] == LE(h.heads, 4) && b[28..32] == LE(h.elementBytes, 4)
            && b[32..40] == LE(h.commitEpoch, 8) && b[40..48] == LE(h.validTokenCount, 8)
            && b[48..56] == LE(h.indexHeadOffset, 8) && b[56..60] == LE(h.metadataLen, 4)
            && b[60..64] == LE(h.reserved1, 4)
  {
  }

  lemma FieldsAtFront(b: seq<byte>, rest: seq<byte>)
    requires |b| == HEADER_SIZE
    ensures var f := b + rest;
      && f[..8] == b[..8] && f[8..12] == b[8..12] && f[12..16] == b[12..16] && f[16..20] == b[16..20]
      && f[20..24] == b[20..24] && f[24..28] == b[24..28] && f[28..32] == b[28..32]
      && f[32..40] == b[32..40] && f[40..48] == b[40..48] && f[48..56] == b[48..56]
      && f[56..60] == b[56..60] && f[60..64] == b[60..64]
  {
  }

  /** Writing then reading a header gives it back, whatever follows it in the file. */
  lemma DecodeEncoded(h: KvCacheHeader, rest: seq<byte>)
    requires h.InRange()
    ensures Decode(Encoded(h) + rest) == Ok(h)
  {
    EncodedFields(h);
    FieldsAtFront(Encoded(h), rest);
    DwordOfLE(h.version); DwordOfLE(h.flags); DwordOfLE(h.blockSize);
    DwordOfLE(h.layers); DwordOfLE(h.heads); DwordOfLE(h.elementBytes);
    WordOfLE(h.commitEpoch); WordOfLE(h.validTokenCount); WordOfLE(h.indexHeadOffset);
    DwordOfLE(h.metadataLen); DwordOfLE(h.reserved1);
  }

  // The three words accessed through raw pointers into the mapped header.

  function Epoch(f: seq<byte>): nat requires |f| >= HEADER_SIZE { Word(f, EPOCH_AT) }
  function Valid(f: seq<byte>): nat requires |f| >= HEADER_SIZE { Word(f, VALID_AT) }
  function Head(f: seq<byte>): nat requires |f| >= HEADER_SIZE { Word(f, HEAD_AT) }

  /** g keeps every byte of f except the header's mutable words, and may be longer. */
  ghost predicate Extends(f: seq<byte>, g: seq<byte>) {
    && |f| <= |g|
    && forall i :: 0 <= i < |f| && !(EPOCH_AT <= i < MUTABLE_END) ==> g[i] == f[i]
  }

  function SetEpoch(f: seq<byte>, n: nat): (g: seq<byte>)
    requires |f| >= HEADER_SIZE && n < TWO_64
    ensures |g| == |f| && Extends(f, g)
    ensures Epoch(g) == n && Valid(g) == Valid(f) && Head(g) == Head(f)
  {
    var g := PutWord(f, EPOCH_AT, n);
    SameWord(f, g, VALID_AT);
    SameWord(f, g, HEAD_AT);
    g
  }

  function SetValid(f: seq<byte>, n: nat): (g: seq<byte>)
    requires |f| >= HEADER_SIZE && n < TWO_64
    ensures |g| == |f| && Extends(f, g)
    ensures Epoch(g) == Epoch(f) && Valid(g) == n && Head(g) == Head(f)
  {
    var g := PutWord(f, VALID_AT, n);
    SameWord(f, g, EPOCH_AT);
    SameWord(f, g, HEAD_AT);
    g
  }

  function SetHead(f: seq<byte>, n: nat): (g: seq<byte>)
    requires |f| >= HEADER_SIZE && n < TWO_64
    ensures |g| == |f| && Extends(f, g)
    ensures Epoch(g) == Epoch(f) && Valid(g) == Valid(f) && Head(g) == n
  {
    var g := PutWord(f, HEAD_AT, n);
    SameWord(f, g, EPOCH_AT);
    SameWord(f, g, VALID_AT);
    g
  }

  function Appended(f: seq<byte>, s: seq<byte>): (g: seq<byte>)
    requires |f| >= HEADER_SIZE
    ensures |g| == |f| + |s| && Extends(f, g) && g[|f|..] == s
    ensures Epoch(g) == Epoch(f) && Valid(g) == Valid(f) && Head(g) == Head(f)
  {
    var g := f + s;
    SameWord(f, g, EPOCH_AT);
    SameWord(f, g, VALID_AT);
    SameWord(f, g, HEAD_AT);
    g
  }

  /** The raw offsets 32, 40 and 48 are the decoded header's fields: a store through
      the pointer changes that field and no other, and appended bytes change none. */
  lemma StoresAreFieldUpdates(f: seq<byte>, n: nat, s: seq<byte>)
    requires Decode(f).Ok? && n < TWO_64
    ensures Decode(SetEpoch(f, n)) == Ok(Decode(f).value.(commitEpoch := n))
    ensures Decode(SetValid(f, n)) == Ok(Decode(f).value.(validTokenCount := n))
    ensures Decode(SetHead(f, n)) == Ok(Decode(f).value.(indexHeadOffset := n))
    ensures Decode(Appended(f, s)) == Decode(f)
  {
    FixedFieldsStay(f, SetEpoch(f, n));
    FixedFieldsStay(f, SetValid(f, n));
    FixedFieldsStay(f, SetHead(f, n));
    FixedFieldsStay(f, Appended(f, s));
  }

  /** Everything but the three mutable words decodes the same in an extension. */
  lemma FixedFieldsStay(f: seq<byte>, g: seq<byte>)
    requires Decode(f).Ok? && Extends(f, g)
    ensures Decode(g) ==
      Ok(Decode(f).value.(commitEpoch := Epoch(g), validTokenCount := Valid(g), indexHeadOffset := Head(g)))
  {
    assert g[..8] == f[..8] && g[8..12] == f[8..12] && g[12..16] == f[12..16] && g[16..20] == f[16..20];
    assert g[20..24] == f[20..24] && g[24..28] == f[24..28] && g[28..32] == f[28..32];
    assert g[56..60] == f[56..60] && g[60..64] == f[60..64];
  }
}
