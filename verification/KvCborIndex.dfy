/** Index blocks in CBOR: a lawful codec, so that what is proved for every lawful codec
    holds of a file whose index blocks are written this way. */
module KvCborIndex {
  import opened Bytes
  import opened KvIndex
  import opened Cbor

  const ENTRY_FIELDS: seq<string> :=
    ["chunk_id", "layer", "head", "block_idx", "byte_offset", "byte_len", "token_count"]

  const BLOCK_FIELDS: seq<string> := ["prev_index_offset", "block_idx", "entries"]

  function EntryNumbers(e: ChunkIndexEntry): (ns: seq<nat>)
    ensures |ns| == 7
  {
    [e.chunkId, e.layer, e.head, e.blockIdx, e.byteOffset, e.byteLen, e.tokenCount]
  }

  function EntryItem(e: ChunkIndexEntry): Item { Record(ENTRY_FIELDS, UInts(EntryNumbers(e))) }

  predicate AllUInts(items: seq<Item>) { forall i :: 0 <= i < |items| ==> items[i].UInt? }

  /** Layer, head and token count are u32 fields. */
  function EntryOf(x: Item): Option<ChunkIndexEntry> {
    match RecordValues(ENTRY_FIELDS, x)
    case None => None
    case Some(vs) =>
      if |vs| != 7 || !AllUInts(vs) then None
      else
        var ns := UIntValues(vs);
        if ns[1] >= TWO_32 || ns[2] >= TWO_32 || ns[6] >= TWO_32 then None
        else Some(Entry(ns[0], ns[1], ns[2], ns[3], ns[4], ns[5], ns[6]))
  }

  /** An entry is written as seven named numbers, in this order. */
  lemma EntryWritten(e: ChunkIndexEntry)
    ensures EntryItem(e).Map? && |EntryItem(e).entries| == 14
    ensures HasField(EntryItem(e), 0, "chunk_id", UInt(e.chunkId)) && HasField(EntryItem(e), 1, "layer", UInt(e.layer))
    ensures HasField(EntryItem(e), 2, "head", UInt(e.head)) && HasField(EntryItem(e), 3, "block_idx", UInt(e.blockIdx))
    ensures HasField(EntryItem(e), 4, "byte_offset", UInt(e.byteOffset)) && HasField(EntryItem(e), 5, "byte_len", UInt(e.byteLen))
    ensures HasField(EntryItem(e), 6, "token_count", UInt(e.tokenCount))
  {
    var vs := UInts(EntryNumbers(e));
    RecordHasField(ENTRY_FIELDS, vs, 0); RecordHasField(ENTRY_FIELDS, vs, 1); RecordHasField(ENTRY_FIELDS, vs, 2);
    RecordHasField(ENTRY_FIELDS, vs, 3); RecordHasField(ENTRY_FIELDS, vs, 4); RecordHasField(ENTRY_FIELDS, vs, 5);
    RecordHasField(ENTRY_FIELDS, vs, 6);
  }

  lemma EntryRoundTrip(e: ChunkIndexEntry)
    requires InRangeEntry(e)
    ensures Encodable(EntryItem(e)) && EntryOf(EntryItem(e)) == Some(e)
  {
    var vs := UInts(EntryNumbers(e));
    RecordRoundTrip(ENTRY_FIELDS, vs);
    RecordEncodable(ENTRY_FIELDS, vs);
    assert UIntValues(vs) == EntryNumbers(e);
  }

  function EntryItems(es: seq<ChunkIndexEntry>): (items: seq<Item>)
    ensures |items| == |es|
  {
    seq(|es|, i requires 0 <= i < |es| => EntryItem(es[i]))
  }

  function EntriesOf(items: seq<Item>): Option<seq<ChunkIndexEntry>> {
    if items == [] then Some([])
    else match (EntryOf(items[0]), EntriesOf(items[1..]))
      case (Some(e), Some(es)) => Some([e] + es)
      case _ => None
  }

  lemma {:induction false} EntriesRoundTrip(es: seq<ChunkIndexEntry>)
    requires forall e :: e in es ==> InRangeEntry(e)
    ensures AllEncodable(EntryItems(es)) && EntriesOf(EntryItems(es)) == Some(es)
  {
    if es != [] {
      EntryRoundTrip(es[0]);
      EntriesRoundTrip(es[1..]);
      assert EntryItems(es)[1..] == EntryItems(es[1..]);
      assert EntryItems(es) == [EntryItem(es[0])] + EntryItems(es[1..]);
      assert [es[0]] + es[1..] == es;
    }
  }

  function BlockItem(b: IndexBlock): Item {
    Record(BLOCK_FIELDS, [UInt(b.prevIndexOffset), UInt(b.blockIdx), Array(EntryItems(b.entries))])
  }

  /** A block is written as its predecessor, its number and the entries, in this order. */
  lemma BlockWritten(b: IndexBlock)
    ensures BlockItem(b).Map? && |BlockItem(b).entries| == 6
    ensures HasField(BlockItem(b), 0, "prev_index_offset", UInt(b.prevIndexOffset))
    ensures HasField(BlockItem(b), 1, "block_idx", UInt(b.blockIdx))
    ensures HasField(BlockItem(b), 2, "entries", Array(seq(|b.entries|, i requires 0 <= i < |b.entries| => EntryItem(b.entries[i]))))
  {
    var vs := [UInt(b.prevIndexOffset), UInt(b.blockIdx), Array(EntryItems(b.entries))];
    RecordHasField(BLOCK_FIELDS, vs, 0); RecordHasField(BLOCK_FIELDS, vs, 1); RecordHasField(BLOCK_FIELDS, vs, 2);
  }

  function BlockOf(x: Item): Option<IndexBlock> {
    match RecordValues(BLOCK_FIELDS, x)
    case None => None
    case Some(vs) =>
      if |vs| != 3 || !vs[0].UInt? || !vs[1].UInt? || !vs[2].Array? then None
      else match EntriesOf(vs[2].items)
        case None => None
        case Some(es) => Some(IndexBlock(vs[0].n, vs[1].n, es))
  }

  lemma BlockRoundTrip(b: IndexBlock)
    requires InRangeBlock(b)
    ensures Encodable(BlockItem(b)) && BlockOf(BlockItem(b)) == Some(b)
  {
    EntriesRoundTrip(b.entries);
    var vs := [UInt(b.prevIndexOffset), UInt(b.blockIdx), Array(EntryItems(b.entries))];
    RecordRoundTrip(BLOCK_FIELDS, vs);
    assert AllEncodable(vs);
    RecordEncodable(BLOCK_FIELDS, vs);
  }

  /** Blocks with fields too large for their types are never written. */
  function EncodeBlock(b: IndexBlock): seq<byte> {
    if Encodable(BlockItem(b)) then Encode(BlockItem(b)) else []
  }

  function DecodeBlock(s: seq<byte>): Option<IndexBlock> {
    match Decode(s)
    case None => None
    case Some(p) => BlockOf(p.value)
  }

  function IndexCodec(): Codec { Codec(b => EncodeBlock(b), s => DecodeBlock(s)) }

  lemma IndexCodecIsLawful()
    ensures Lawful(IndexCodec())
  {
    forall b | InRangeBlock(b) ensures DecodeBlock(EncodeBlock(b)) == Some(b) {
      BlockRoundTrip(b);
      RoundTrip(BlockItem(b), []);
      assert Encode(BlockItem(b)) + [] == Encode(BlockItem(b));
    }
  }
}
