/** The offsets that `finalize` records, with schemas in CBOR: they are computed from
    placeholder schemas whose encoding is shorter than the one emitted. */
module NcfOffsets {
  import opened Bytes
  import opened Cbor
  import opened NcfFormat
  import opened NcfWriter
  import opened NcfReader
  import opened NcfLayout

  // ---- schemas in CBOR ----

  const CHUNK_FIELDS: seq<string> := ["chunk_id", "byte_offset", "byte_len", "uncompressed_len", "checksum"]
  const SCHEMA_FIELDS: seq<string> :=
    ["name", "dtype", "shape", "column_layout", "compression", "encoding", "chunks"]

  /** A variant without data is its name; one with data is a one-entry map. */
  function Unit(name: string): Item { Text(Ascii(name)) }
  function Newtype(name: string, n: nat): Item { Map([Text(Ascii(name)), UInt(n)]) }

  /** The names of the variants, in the order of their declarations. */
  function DTypeName(d: DType): string {
    match d
    case F64 => "F64" case F32 => "F32" case F16 => "F16" case BF16 => "BF16"
    case I32 => "I32" case I16 => "I16" case I8 => "I8" case U8 => "U8"
    case Q4K => "Q4K" case Q4_0 => "Q4_0" case Q8_0 => "Q8_0" case Custom(_) => "Custom"
  }

  function LayoutName(l: Layout): string {
    match l case RowMajor => "RowMajor" case ColMajor => "ColMajor" case Tiled(_) => "Tiled"
  }

  function CompressionName(m: Compression): string {
    match m case NoCompression => "None" case Zstd(_) => "Zstd" case Lz4 => "Lz4" case Snappy => "Snappy"
  }

  function EncodingName(e: Encoding): string {
    match e
    case Plain => "Plain" case DeltaRLE => "DeltaRLE"
    case BitPacked => "BitPacked" case DictionaryRLE => "DictionaryRLE"
  }

  function DTypeItem(d: DType): Item { if d.Custom? then Newtype("Custom", d.tag) else Unit(DTypeName(d)) }

  function LayoutItem(l: Layout): Item { if l.Tiled? then Newtype("Tiled", l.size) else Unit(LayoutName(l)) }

  function CompressionItem(m: Compression): Item {
    if m.Zstd? then Newtype("Zstd", m.level) else Unit(CompressionName(m))
  }

  function EncodingItem(e: Encoding): Item { Unit(EncodingName(e)) }

  function EncodableRecord(names: seq<string>, vs: seq<Item>): (x: Item)
    requires |names| == |vs| && AllEncodable(vs) && 2 * |names| < TWO_64
    requires forall i :: 0 <= i < |names| ==> |names[i]| < TWO_64
    ensures Encodable(x)
  {
    RecordEncodable(names, vs);
    Record(names, vs)
  }

  function ChunkNumbers(r: ChunkRef): (ns: seq<nat>)
    ensures |ns| == 4 && forall i :: 0 <= i < 4 ==> ns[i] < TWO_64
  {
    [r.chunkId, r.byteOffset, r.byteLen, r.uncompressedLen]
  }

  function ChunkValues(r: ChunkRef): (vs: seq<Item>)
    ensures |vs| == 5 && AllEncodable(vs)
  {
    UInts(ChunkNumbers(r)) + [Array(UInts(r.checksum))]
  }

  function ChunkItem(r: ChunkRef): (x: Item)
    ensures Encodable(x)
  {
    EncodableRecord(CHUNK_FIELDS, ChunkValues(r))
  }

  function ChunkItems(rs: seq<ChunkRef>): (items: seq<Item>)
    ensures |items| == |rs| && AllEncodable(items)
  {
    seq(|rs|, i requires 0 <= i < |rs| => ChunkItem(rs[i]))
  }

  lemma VariantsEncodable(s: TensorSchema)
    ensures Encodable(DTypeItem(s.dtype)) && Encodable(LayoutItem(s.layout))
    ensures Encodable(CompressionItem(s.compression)) && Encodable(EncodingItem(s.encoding))
  {
  }

  /** All fields but the last. */
  function SchemaFront(s: TensorSchema): (vs: seq<Item>)
    ensures |vs| == 6 && AllEncodable(vs)
  {
    VariantsEncodable(s);
    [Text(s.name), DTypeItem(s.dtype), Array(UInts(s.shape)), LayoutItem(s.layout),
     CompressionItem(s.compression), EncodingItem(s.encoding)]
  }

  function SchemaItem(s: TensorSchema): (x: Item)
    ensures Encodable(x)
  {
    EncodableRecord(SCHEMA_FIELDS, SchemaFront(s) + [Array(ChunkItems(s.chunks))])
  }

  function SchemaItems(ss: seq<TensorSchema>): (items: seq<Item>)
    ensures |items| == |ss| && AllEncodable(items)
  {
    seq(|ss|, i requires 0 <= i < |ss| => SchemaItem(ss[i]))
  }

  function SchemasInCbor(ss: Vec<TensorSchema>): seq<byte> {
    Encode(Array(SchemaItems(ss)))
  }

  ghost predicate WritesCbor(c: Codecs) {
    forall ss: Vec<TensorSchema> :: c.encSchemas(ss) == SchemasInCbor(ss)
  }

  // ---- sizes ----

  lemma {:induction false} EncodeAllConcat(xs: seq<Item>, ys: seq<Item>)
    requires AllEncodable(xs) && AllEncodable(ys)
    ensures AllEncodable(xs + ys) && EncodeAll(xs + ys) == EncodeAll(xs) + EncodeAll(ys)
  {
    if xs == [] {
      assert xs + ys == ys;
    } else {
      EncodeAllConcat(xs[1..], ys);
      assert (xs + ys)[1..] == xs[1..] + ys && (xs + ys)[0] == xs[0];
      var first, more, others := Encode(xs[0]), EncodeAll(xs[1..]), EncodeAll(ys);
      assert EncodeAll(xs) == first + more;
      assert EncodeAll(xs + ys) == first + (more + others);
      Associates(first, more, others);
    }
  }

  lemma Associates(a: seq<byte>, b: seq<byte>, c: seq<byte>)
    ensures a + (b + c) == a + b + c
  {
  }

  lemma EncodeOne(x: Item)
    requires Encodable(x)
    ensures AllEncodable([x]) && EncodeAll([x]) == Encode(x)
  {
    assert [x][1..] == [];
  }

  function ArgTotal(ns: seq<nat>): nat
    requires forall i :: 0 <= i < |ns| ==> ns[i] < TWO_64
  {
    if ns == [] then 0 else ArgSize(ns[0]) + ArgTotal(ns[1..])
  }

  lemma {:induction false} UIntsSize(ns: seq<nat>)
    requires forall i :: 0 <= i < |ns| ==> ns[i] < TWO_64
    ensures |EncodeAll(UInts(ns))| == |ns| + ArgTotal(ns)
  {
    if ns != [] {
      UIntsSize(ns[1..]);
      assert UInts(ns)[1..] == UInts(ns[1..]);
    }
  }

  /** Field names take the same room in every record. */
  function NamesSize(names: seq<string>): nat
    requires forall i :: 0 <= i < |names| ==> |names[i]| < TWO_64
  {
    if names == [] then 0 else |Encode(Text(Ascii(names[0])))| + NamesSize(names[1..])
  }

  lemma {:induction false} FieldsSize(names: seq<string>, vs: seq<Item>)
    requires |names| == |vs| && AllEncodable(vs) && forall i :: 0 <= i < |names| ==> |names[i]| < TWO_64
    ensures AllEncodable(Fields(names, vs)) && |EncodeAll(Fields(names, vs))| == NamesSize(names) + |EncodeAll(vs)|
  {
    if names != [] {
      FieldsSize(names[1..], vs[1..]);
      var more := Fields(names[1..], vs[1..]);
      EncodeOne(vs[0]);
      var two := [Text(Ascii(names[0])), vs[0]];
      assert two[1..] == [vs[0]];
      EncodeAllConcat(two, more);
    }
  }

  lemma RecordSize(names: seq<string>, vs: seq<Item>, ws: seq<Item>)
    requires |names| == |vs| == |ws| < MAX_VEC && AllEncodable(vs) && AllEncodable(ws)
    requires forall i :: 0 <= i < |names| ==> |names[i]| < TWO_64
    ensures Encodable(Record(names, vs)) && Encodable(Record(names, ws))
    ensures |Encode(Record(names, vs))| - |Encode(Record(names, ws))| == |EncodeAll(vs)| - |EncodeAll(ws)|
  {
    RecordEncodable(names, vs);
    RecordEncodable(names, ws);
    FieldsSize(names, vs);
    FieldsSize(names, ws);
  }

  /** How much longer a chunk reference is than the placeholder. */
  function Excess(r: ChunkRef): (n: nat)
    ensures r.byteOffset >= 24 && r.byteLen >= 24 ==> n >= 2
  {
    ArgSize(r.chunkId) + ArgSize(r.byteOffset) + ArgSize(r.byteLen) + ArgSize(r.uncompressedLen) + ArgTotal(r.checksum)
  }

  lemma ArgsOfFour(a: nat, b: nat, c: nat, d: nat)
    requires a < TWO_64 && b < TWO_64 && c < TWO_64 && d < TWO_64
    ensures ArgTotal([a, b, c, d]) == ArgSize(a) + ArgSize(b) + ArgSize(c) + ArgSize(d)
  {
    assert [a, b, c, d][1..] == [b, c, d] && [b, c, d][1..] == [c, d] && [c, d][1..] == [d] && [d][1..] == [];
    assert ArgTotal([d]) == ArgSize(d);
    assert ArgTotal([c, d]) == ArgSize(c) + ArgTotal([d]);
    assert ArgTotal([b, c, d]) == ArgSize(b) + ArgTotal([c, d]);
  }

  lemma ChunkValuesSize(r: ChunkRef)
    ensures |EncodeAll(ChunkValues(r))| == 4 + |Head(4, CHECKSUM_SIZE)| + CHECKSUM_SIZE + Excess(r)
  {
    var ns, last := ChunkNumbers(r), Array(UInts(r.checksum));
    UIntsSize(ns);
    ArgsOfFour(r.chunkId, r.byteOffset, r.byteLen, r.uncompressedLen);
    UIntsSize(r.checksum);
    EncodeOne(last);
    EncodeAllConcat(UInts(ns), [last]);
  }

  lemma {:induction false} NoArgs(ns: seq<nat>)
    requires forall i :: 0 <= i < |ns| ==> ns[i] == 0
    ensures ArgTotal(ns) == 0
  {
    if ns != [] { NoArgs(ns[1..]); }
  }

  lemma ZeroExcess()
    ensures Excess(ZERO_REF) == 0
  {
    NoArgs(ZERO_REF.checksum);
  }

  lemma ChunkItemSize(r: ChunkRef, q: ChunkRef)
    ensures |Encode(ChunkItem(r))| - |Encode(ChunkItem(q))| == |EncodeAll(ChunkValues(r))| - |EncodeAll(ChunkValues(q))|
  {
    RecordSize(CHUNK_FIELDS, ChunkValues(r), ChunkValues(q));
  }

  /** q stands for the placeholder: nothing but its zeros matters. */
  lemma ChunkGrows(r: ChunkRef, q: ChunkRef)
    requires Excess(q) == 0
    ensures |Encode(ChunkItem(r))| == |Encode(ChunkItem(q))| + Excess(r)
  {
    ChunkValuesSize(r);
    ChunkValuesSize(q);
    ChunkItemSize(r, q);
  }

  lemma SchemaGrows(s: TensorSchema, r: ChunkRef, q: ChunkRef)
    requires Excess(q) == 0
    ensures |Encode(SchemaItem(WithChunk(s, r)))| == |Encode(SchemaItem(WithChunk(s, q)))| + Excess(r)
  {
    ChunkGrows(r, q);
    OneChunkSize(r);
    OneChunkSize(q);
    LastFieldSize(SchemaFront(s), Array(ChunkItems([r])), Array(ChunkItems([q])));
  }

  lemma LastFieldSize(front: seq<Item>, a: Item, b: Item)
    requires |front| == 6 && AllEncodable(front) && Encodable(a) && Encodable(b)
    ensures Encodable(Record(SCHEMA_FIELDS, front + [a])) && Encodable(Record(SCHEMA_FIELDS, front + [b]))
    ensures |Encode(Record(SCHEMA_FIELDS, front + [a]))| - |Encode(Record(SCHEMA_FIELDS, front + [b]))|
      == |Encode(a)| - |Encode(b)|
  {
    EncodeOne(a);
    EncodeOne(b);
    EncodeAllConcat(front, [a]);
    EncodeAllConcat(front, [b]);
    RecordSize(SCHEMA_FIELDS, front + [a], front + [b]);
  }

  lemma OneChunkSize(r: ChunkRef)
    ensures |Encode(Array(ChunkItems([r])))| == 1 + |Encode(ChunkItem(r))|
  {
    EncodeOne(ChunkItem(r));
    assert ChunkItems([r]) == [ChunkItem(r)];
  }

  function TotalExcess(rs: seq<ChunkRef>): nat {
    if rs == [] then 0 else Excess(rs[0]) + TotalExcess(rs[1..])
  }

  /** ss are the schemas qs with a reference of its own in place of each placeholder q. */
  ghost predicate Filled(ss: seq<TensorSchema>, qs: seq<TensorSchema>, rs: seq<ChunkRef>, q: ChunkRef) {
    && |ss| == |qs| == |rs|
    && forall i :: 0 <= i < |ss| ==> qs[i] == WithChunk(ss[i], q) && ss[i].chunks == [rs[i]]
  }

  lemma {:induction false} SchemaListGrows(ss: seq<TensorSchema>, qs: seq<TensorSchema>, rs: seq<ChunkRef>, q: ChunkRef)
    requires Filled(ss, qs, rs, q) && Excess(q) == 0
    ensures |EncodeAll(SchemaItems(ss))| == |EncodeAll(SchemaItems(qs))| + TotalExcess(rs)
  {
    if ss != [] {
      assert Filled(ss[1..], qs[1..], rs[1..], q);
      SchemaListGrows(ss[1..], qs[1..], rs[1..], q);
      SchemaGrows(ss[0], rs[0], q);
      assert WithChunk(ss[0], rs[0]) == ss[0] && WithChunk(ss[0], q) == qs[0];
      assert SchemaItems(ss)[1..] == SchemaItems(ss[1..]) && SchemaItems(qs)[1..] == SchemaItems(qs[1..]);
    }
  }

  lemma {:induction false} ExcessPositive(rs: seq<ChunkRef>)
    requires forall i :: 0 <= i < |rs| ==> rs[i].byteOffset >= 24 && rs[i].byteLen >= 24
    ensures TotalExcess(rs) >= 2 * |rs|
  {
    if rs != [] { ExcessPositive(rs[1..]); }
  }

  // ---- what this does to the offsets ----

  function Recorded(p: Plan, i: nat): nat
    requires i < |p.schemas| && |p.schemas[i].chunks| == 1
  {
    p.schemas[i].chunks[0].byteOffset
  }

  function Refs(p: Plan): seq<ChunkRef>
    requires forall i :: 0 <= i < |p.schemas| ==> |p.schemas[i].chunks| == 1
  {
    seq(|p.schemas|, i requires 0 <= i < |p.schemas| => p.schemas[i].chunks[0])
  }

  lemma PlanIsFilled(c: Codecs, meta: Metadata, flags: NcfFlags, ts: seq<Tensor>, p: Plan)
    requires PlanOf(c, meta, flags, ts, p)
    ensures |p.schemas| == |ts| && forall i :: 0 <= i < |ts| ==> |p.schemas[i].chunks| == 1
    ensures Filled(p.schemas, Placeholders(ts), Refs(p), ZERO_REF)
    ensures forall i :: 0 <= i < |ts| ==> Refs(p)[i].byteOffset >= PREFIX_SIZE && Refs(p)[i].byteLen >= CHUNK_OVERHEAD
  {
    PlanParts(c, meta, flags, ts, p);
  }

  /** Every recorded offset falls short of the emitted one by the same amount, the total
      excess of the chunk references over their placeholders. */
  lemma ShortfallIsExcess(c: Codecs, meta: Metadata, flags: NcfFlags, ts: seq<Tensor>, p: Plan, i: nat)
    requires PlanOf(c, meta, flags, ts, p) && WritesCbor(c) && i < |ts|
    ensures |p.schemas| == |p.chunks| == |ts| && forall j :: 0 <= j < |ts| ==> |p.schemas[j].chunks| == 1
    ensures EmittedAt(p, i) == Recorded(p, i) + TotalExcess(Refs(p))
    ensures TotalExcess(Refs(p)) >= 2 * |ts|
  {
    PlanNumbers(c, meta, flags, ts, p);
    PlanIsFilled(c, meta, flags, ts, p);
    Shortfall(c, meta, flags, ts, p, i);
    ZeroExcess();
    SchemaListGrows(p.schemas, Placeholders(ts), Refs(p), ZERO_REF);
    ExcessPositive(Refs(p));
  }

  /** The recorded offsets are the emitted ones if and only if there are no tensors. */
  lemma OffsetsRightIffEmpty(c: Codecs, meta: Metadata, flags: NcfFlags, ts: seq<Tensor>, p: Plan)
    requires PlanOf(c, meta, flags, ts, p) && WritesCbor(c)
    ensures |p.schemas| == |p.chunks| == |ts| && forall j :: 0 <= j < |ts| ==> |p.schemas[j].chunks| == 1
    ensures (forall i :: 0 <= i < |ts| ==> Recorded(p, i) == EmittedAt(p, i)) <==> ts == []
  {
    PlanNumbers(c, meta, flags, ts, p);
    PlanIsFilled(c, meta, flags, ts, p);
    if ts != [] { ShortfallIsExcess(c, meta, flags, ts, p, 0); }
  }

  /** The name's raw payload is the n bytes at `at`. */
  ghost predicate SlicesAt(f: Blob, o: Opened, name: Name, at: nat, n: nat) {
    at + n <= |f| && TensorSlice(f, o, name) == Some(f[at..at + n])
  }

  lemma SliceThroughEntry(f: Blob, o: Opened, name: Name, id: u64, e: IndexEntry, at: nat, n: nat)
    requires name in o.index.tensorMap && o.index.tensorMap[name] == id
    requires id in o.chunkMap && o.chunkMap[id] == e
    requires e.byteOffset + CHUNK_HEADER_SIZE == at && e.byteLen == CHUNK_OVERHEAD + n && e.byteOffset + e.byteLen <= |f|
    ensures SlicesAt(f, o, name, at, n)
  {
  }

  /** The index entry behind a name. */
  lemma EntryBehindName(c: Codecs, meta: Metadata, flags: NcfFlags, ts: seq<Tensor>, p: Plan, name: Name, i: nat)
    returns (e: IndexEntry)
    requires WritesCbor(c) && PlanOf(c, meta, flags, ts, p) && LastNamed(ts, name, i)
    ensures |p.schemas| == |p.chunks| == |ts| && forall j :: 0 <= j < |ts| ==> |p.schemas[j].chunks| == 1
    ensures name in p.index.tensorMap && p.index.tensorMap[name] == i
    ensures i in ChunkMap(p.index.entries) && ChunkMap(p.index.entries)[i] == e
    ensures e.byteLen == CHUNK_OVERHEAD + |p.chunks[i].packed| && e.byteOffset + TotalExcess(Refs(p)) == EmittedAt(p, i)
    ensures e.byteOffset + e.byteLen <= |Emit(p)|
  {
    ShortfallIsExcess(c, meta, flags, ts, p, i);
    LookupPathsAgree(c, meta, flags, ts, p, name);
    SchemaIsLast(c, meta, flags, ts, p, name, i);
    TensorMapIsLast(ts, name);
    Shortfall(c, meta, flags, ts, p, i);
    ChunkIsThere(c, meta, flags, ts, p, i);
    e := ChunkMap(p.index.entries)[i];
  }

  /** `tensor_slice` of a written file: always a slice of the right length, always too early
      by the total excess. */
  lemma TensorSliceIsShifted(c: Codecs, meta: Metadata, flags: NcfFlags, ts: seq<Tensor>, p: Plan, name: Name, i: nat,
                             g: Blob, o: Opened)
    returns (excess: nat, at: nat)
    requires Lawful(c) && WritesCbor(c) && PlanOf(c, meta, flags, ts, p) && LastNamed(ts, name, i)
    requires g == Emit(p) && Open(c, g) == Ok(o)
    ensures |p.schemas| == |p.chunks| == |ts| && forall j :: 0 <= j < |ts| ==> |p.schemas[j].chunks| == 1
    ensures excess == TotalExcess(Refs(p)) && excess >= 2 && at + excess == EmittedAt(p, i)
    ensures SlicesAt(g, o, name, at + CHUNK_HEADER_SIZE, |p.chunks[i].packed|)
  {
    ShortfallIsExcess(c, meta, flags, ts, p, i);
    OpensIffSchemaAreaFits(c, meta, flags, ts, p);
    var e := EntryBehindName(c, meta, flags, ts, p, name, i);
    excess, at := TotalExcess(Refs(p)), e.byteOffset;
    SliceThroughEntry(g, o, name, i, e, at + CHUNK_HEADER_SIZE, |p.chunks[i].packed|);
  }

  // ---- one tensor: always unreadable ----

  ghost predicate EndsWith(s: seq<byte>, t: seq<byte>) {
    |t| <= |s| && s[|s| - |t|..] == t
  }

  lemma EndsTransitive(s: seq<byte>, t: seq<byte>, u: seq<byte>)
    requires EndsWith(s, t) && EndsWith(t, u)
    ensures EndsWith(s, u)
  {
    SliceOfSlice(s, |s| - |t|, |s|, |t| - |u|, |t|);
    assert s[|s| - |t|..|s|] == t && t[|t| - |u|..|t|] == u;
  }

  lemma {:induction false} EndsWithLast(items: seq<Item>)
    requires AllEncodable(items) && items != []
    ensures EndsWith(EncodeAll(items), Encode(items[|items| - 1]))
  {
    var k := |items| - 1;
    EncodeAllConcat(items[..k], [items[k]]);
    EncodeOne(items[k]);
    assert items == items[..k] + [items[k]];
  }

  lemma {:induction false} FieldsEndWithLast(names: seq<string>, vs: seq<Item>)
    requires |names| == |vs| && names != []
    ensures Fields(names, vs)[2 * |names| - 1] == vs[|vs| - 1]
  {
    if |names| > 1 { FieldsEndWithLast(names[1..], vs[1..]); }
  }

  lemma RecordEndsWithLast(names: seq<string>, vs: seq<Item>)
    requires |names| == |vs| && names != [] && AllEncodable(vs) && Encodable(Record(names, vs))
    ensures EndsWith(Encode(Record(names, vs)), Encode(vs[|vs| - 1]))
  {
    var entries := Fields(names, vs);
    FieldsEndWithLast(names, vs);
    EndsWithLast(entries);
    EndsTransitive(Encode(Map(entries)), EncodeAll(entries), Encode(vs[|vs| - 1]));
  }

  lemma ArrayEndsWithLast(items: seq<Item>)
    requires items != [] && Encodable(Array(items)) && AllEncodable(items)
    ensures EndsWith(Encode(Array(items)), Encode(items[|items| - 1]))
  {
    EndsWithLast(items);
    EndsTransitive(Encode(Array(items)), EncodeAll(items), Encode(items[|items| - 1]));
  }

  lemma ChunkEndsWithChecksum(r: ChunkRef)
    ensures EndsWith(Encode(ChunkItem(r)), EncodeAll(UInts(r.checksum)))
  {
    var sum := Array(UInts(r.checksum));
    assert ChunkItem(r) == Record(CHUNK_FIELDS, ChunkValues(r));
    RecordEndsWithLast(CHUNK_FIELDS, ChunkValues(r));
    assert ChunkValues(r)[4] == sum;
    EndsTransitive(Encode(ChunkItem(r)), Encode(sum), EncodeAll(UInts(r.checksum)));
  }

  lemma SchemaEndsWithChunk(s: TensorSchema, r: ChunkRef)
    requires s.chunks == [r]
    ensures EndsWith(Encode(SchemaItem(s)), Encode(ChunkItem(r)))
  {
    var chunks := Array(ChunkItems(s.chunks));
    var vs := SchemaFront(s) + [chunks];
    assert SchemaItem(s) == Record(SCHEMA_FIELDS, vs);
    RecordEndsWithLast(SCHEMA_FIELDS, vs);
    assert vs[6] == chunks && ChunkItems(s.chunks)[0] == ChunkItem(r);
    ArrayEndsWithLast(ChunkItems(s.chunks));
    EndsTransitive(Encode(SchemaItem(s)), Encode(chunks), Encode(ChunkItem(r)));
  }

  /** The schema block of a single tensor ends with its checksum's 32 numbers. */
  lemma EndsWithChecksum(s: TensorSchema, r: ChunkRef)
    requires s.chunks == [r]
    ensures EndsWith(SchemasInCbor([s]), EncodeAll(UInts(r.checksum)))
  {
    ArrayEndsWithLast(SchemaItems([s]));
    SchemaEndsWithChunk(s, r);
    ChunkEndsWithChecksum(r);
    var whole := SchemasInCbor([s]);
    EndsTransitive(whole, Encode(SchemaItem(s)), Encode(ChunkItem(r)));
    EndsTransitive(whole, Encode(ChunkItem(r)), EncodeAll(UInts(r.checksum)));
  }

  /** In encoded small numbers, a byte above 24 is always an argument, so its successor is a head. */
  lemma {:induction false} NoTwoArguments(bs: seq<byte>, i: nat)
    requires i + 1 < |EncodeAll(UInts(bs))|
    ensures EncodeAll(UInts(bs))[i] <= 24 || EncodeAll(UInts(bs))[i + 1] <= 24
    ensures EncodeAll(UInts(bs))[0] <= 24
    decreases |bs|
  {
    var first, others := Encode(UInt(bs[0])), EncodeAll(UInts(bs[1..]));
    assert UInts(bs)[1..] == UInts(bs[1..]);
    assert EncodeAll(UInts(bs)) == first + others;
    FirstNumber(bs[0]);
    if i >= |first| { NoTwoArguments(bs[1..], i - |first|); }
    if others != [] { HeadFirst(bs[1..]); }
  }

  lemma FirstNumber(b: byte)
    ensures Encode(UInt(b)) == if b < 24 then [b] else [24, b]
  {
    assert BE(b, 1) == [b];
  }

  lemma HeadFirst(bs: seq<byte>)
    requires bs != []
    ensures EncodeAll(UInts(bs)) != [] && EncodeAll(UInts(bs))[0] <= 24
  {
    FirstNumber(bs[0]);
  }

  /** A file written with one tensor, whatever its payload, name and checksum: the recorded
      offset points into the checksum's digits, where no chunk magic can be, so that reading
      and verifying the tensor both fail. */
  lemma SingleTensorUnreadable(c: Codecs, meta: Metadata, flags: NcfFlags, t: Tensor, p: Plan)
    requires Lawful(c) && WritesCbor(c) && PlanOf(c, meta, flags, [t], p) && |Emit(p)| < MAX_VEC
    requires Open(c, Emit(p)).Ok?
    ensures var o := Open(c, Emit(p)).value;
      && InFile(o, Emit(p))
      && ReadTensor(c, Emit(p), o, t.schema.name) == Err(InvalidData)
      && VerifyTensor(c, Emit(p), o, t.schema.name) == Err(InvalidData)
  {
    OpensIffSchemaAreaFits(c, meta, flags, [t], p);
    assert LastNamed([t], t.schema.name, 0);
    SchemaIsLast(c, meta, flags, [t], p, t.schema.name, 0);
    PlanIsFilled(c, meta, flags, [t], p);
    var s := p.schemas[0];
    var r := s.chunks[0];
    NoMagicThere(c, meta, flags, t, p);
    assert s.chunks == [r];
    OneChunk(c, Emit(p), s);
    assert VerifyChunks(c, Emit(p), s, s.chunks) == VerifyChunk(c, Emit(p), s, r);
  }

  /** What a one-tensor plan records, as against what it emits. */
  lemma SingleRecord(c: Codecs, meta: Metadata, flags: NcfFlags, t: Tensor, p: Plan)
    requires WritesCbor(c) && PlanOf(c, meta, flags, [t], p)
    ensures |p.schemas| == 1 && |p.schemas[0].chunks| == 1
    ensures p.schemaBytes == SchemasInCbor([p.schemas[0]]) && Holds(Emit(p), p.prefix.schemaOffset, p.schemaBytes)
    ensures var r := p.schemas[0].chunks[0];
      && r.chunkId == 0 && Excess(r) >= 2
      && r.byteOffset == p.prefix.schemaOffset + |p.schemaBytes| - Excess(r)
      && r.byteOffset + CHUNK_HEADER_SIZE <= |Emit(p)|
  {
    PlanIsFilled(c, meta, flags, [t], p);
    PlanNumbers(c, meta, flags, [t], p);
    ShortfallIsExcess(c, meta, flags, [t], p, 0);
    LayoutAgrees(c, meta, flags, [t], p);
    ChunkIsThere(c, meta, flags, [t], p, 0);
    assert p.schemas == [p.schemas[0]] && Refs(p) == [p.schemas[0].chunks[0]] && p.chunks[..0] == [];
  }

  lemma NoMagicThere(c: Codecs, meta: Metadata, flags: NcfFlags, t: Tensor, p: Plan)
    requires WritesCbor(c) && PlanOf(c, meta, flags, [t], p) && |Emit(p)| < MAX_VEC
    ensures |p.schemas| == 1 && |p.schemas[0].chunks| == 1
    ensures HeaderAt(Emit(p), p.schemas[0].chunks[0]) == Err(InvalidData)
  {
    SingleRecord(c, meta, flags, t, p);
    var g: Blob := Emit(p);
    var s := p.schemas[0];
    var r := s.chunks[0];
    InChecksumDigits(g, p.prefix.schemaOffset, s, r);
    NotMagic(g, r.byteOffset);
    assert HeaderAt(g, r) == Err(InvalidData);
  }

  lemma InChecksumDigits(g: seq<byte>, so: nat, s: TensorSchema, r: ChunkRef)
    requires |s.chunks| == 1 && s.chunks[0] == r && Holds(g, so, SchemasInCbor([s])) && r.chunkId == 0 && Excess(r) >= 2
    requires r.byteOffset == so + |SchemasInCbor([s])| - Excess(r) && r.byteOffset + 1 < |g|
    ensures g[r.byteOffset] <= 24 || g[r.byteOffset + 1] <= 24
  {
    var digits := EncodeAll(UInts(r.checksum));
    assert s.chunks == [r];
    EndsWithChecksum(s, r);
    UIntsSize(r.checksum);
    InsideDigits(g, so, SchemasInCbor([s]), digits, Excess(r));
    NoTwoArguments(r.checksum, |digits| - Excess(r));
  }

  lemma InsideDigits(g: seq<byte>, so: nat, s: seq<byte>, digits: seq<byte>, excess: nat)
    requires Holds(g, so, s) && EndsWith(s, digits) && 2 <= excess <= |digits|
    ensures g[so + |s| - excess] == digits[|digits| - excess]
    ensures g[so + |s| - excess + 1] == digits[|digits| - excess + 1]
  {
    var front := |s| - |digits|;
    assert Holds(s, front, digits);
    HoldsInside(g, so, s, front, digits);
    var part := g[so + front..so + front + |digits|];
    assert part[|digits| - excess] == digits[|digits| - excess];
    assert part[|digits| - excess + 1] == digits[|digits| - excess + 1];
  }

  lemma NotMagic(g: Blob, at: u64)
    requires at + CHUNK_HEADER_SIZE <= |g| && (g[at] <= 24 || g[at + 1] <= 24)
    ensures DecodeChunkHeader(g[at..at + CHUNK_HEADER_SIZE]) == Err(InvalidData)
  {
    var b := g[at..at + CHUNK_HEADER_SIZE];
    assert b[..4][0] == g[at] && b[..4][1] == g[at + 1];
  }
}
