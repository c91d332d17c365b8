/** What opening a container and slicing it through the index answer, on any bytes. */
module NcfOpening {
  import opened Bytes
  import opened NcfFormat
  import opened NcfReader

  // ---- the numbers in the file ----

  function HeaderLen(f: Blob): nat requires |f| >= 48 { Word(f, 16) }
  function SchemaStart(f: Blob): nat requires |f| >= 48 { Word(f, 24) }
  function IndexStart(f: Blob): nat requires |f| >= 48 { Word(f, 32) }
  function IndexLen(f: Blob): nat requires |f| >= 48 { Word(f, |f| - 8) }

  /** The file begins with the magic, and its metadata block is of legal size, inside the file, and decodes. */
  ghost predicate HeaderGood(c: Codecs, f: Blob)
    requires |f| >= 48
  {
    && f[..8] == [0x4E, 0x43, 0x46, 0x00, 0xDE, 0xAD, 0xBE, 0xEF]
    && HeaderLen(f) <= 64 * 1024 * 1024 && 48 + HeaderLen(f) <= |f| && c.decHeader(f[48..48 + HeaderLen(f)]).Some?
  }

  /** The schema block is of legal size and ends where the index begins, inside the file. */
  ghost predicate SchemasGood(f: Blob)
    requires |f| >= 48
  {
    SchemaStart(f) <= IndexStart(f) <= |f| && IndexStart(f) - SchemaStart(f) <= 256 * 1024 * 1024
  }

  /** The file ends with "NCFEND!!" and a length; the index of that length is legal, ends before the
      footer, and decodes. */
  ghost predicate IndexGood(c: Codecs, f: Blob)
    requires |f| >= 48
  {
    && f[|f| - 16..|f| - 8] == [0x4E, 0x43, 0x46, 0x45, 0x4E, 0x44, 0x21, 0x21]
    && IndexLen(f) <= 128 * 1024 * 1024 && IndexStart(f) + IndexLen(f) <= |f| - 16
    && c.decIndex(f[IndexStart(f)..IndexStart(f) + IndexLen(f)]).Some?
  }

  lemma PrefixAt(f: Blob)
    requires |f| >= 48
    ensures DecodePrefix(f[..48]).Ok? <==> f[..8] == [0x4E, 0x43, 0x46, 0x00, 0xDE, 0xAD, 0xBE, 0xEF]
    ensures DecodePrefix(f[..48]).Ok? ==>
      var p := DecodePrefix(f[..48]).value;
      && p.version == FromLE(f[8..12]) && p.headerLen == HeaderLen(f) && p.schemaOffset == SchemaStart(f)
      && p.indexOffset == IndexStart(f) && p.chunkCount == Word(f, 40)
      && (p.flags.compressed <==> FromLE(f[12..16]) % 2 == 1)
      && (p.flags.encrypted <==> FromLE(f[12..16]) / 2 % 2 == 1)
      && (p.flags.streamingSafe <==> FromLE(f[12..16]) / 4 % 2 == 1)
  {
    SlicesOfPrefix(f);
  }

  lemma SlicesOfPrefix(f: Blob)
    requires |f| >= 48
    ensures var b := f[..48];
      && b[..8] == f[..8] && b[8..12] == f[8..12] && b[12..16] == f[12..16] && b[16..24] == f[16..24]
      && b[24..32] == f[24..32] && b[32..40] == f[32..40] && b[40..48] == f[40..48]
  {
  }

  lemma IndexAnswers(c: Codecs, f: Blob)
    requires |f| >= 48
    ensures OpenIndex(c, f, IndexStart(f)) ==
      if IndexGood(c, f) then Ok(c.decIndex(f[IndexStart(f)..IndexStart(f) + IndexLen(f)]).value) else Err(InvalidData)
  {
  }

  /** A container opens if and only if it is long enough for the prefix and all three blocks are good;
      only the short file has an error of its own. What was opened is what the blocks say. */
  lemma OpenAnswers(c: Codecs, f: Blob)
    ensures Open(c, f).Ok? <==> |f| >= 48 && HeaderGood(c, f) && SchemasGood(f) && IndexGood(c, f)
    ensures Open(c, f).Err? ==> Open(c, f).error == if |f| < 48 then UnexpectedEof else InvalidData
    ensures Open(c, f).Ok? ==>
      var o := Open(c, f).value;
      && o.metadata == c.decHeader(f[48..48 + HeaderLen(f)]).value
      && o.schemaStart == SchemaStart(f) && o.schemaEnd == IndexStart(f)
      && o.index == c.decIndex(f[IndexStart(f)..IndexStart(f) + IndexLen(f)]).value
      && DecodePrefix(f[..48]) == Ok(o.prefix) && o.chunkMap == ChunkMap(o.index.entries)
  {
    if |f| >= 48 {
      PrefixAt(f);
      IndexAnswers(c, f);
    }
  }

  // ---- through the index ----

  /** Entry i is the last with its chunk id. */
  ghost predicate LastWithId(es: seq<IndexEntry>, id: u64, i: nat) {
    i < |es| && es[i].chunkId == id && forall j :: i < j < |es| ==> es[j].chunkId != id
  }

  lemma {:induction false} LastIsMapped(es: seq<IndexEntry>, id: u64, i: nat)
    requires LastWithId(es, id, i)
    ensures id in ChunkMap(es) && ChunkMap(es)[id] == es[i]
  {
    var k := |es| - 1;
    if i < k { LastIsMapped(es[..k], id, i); }
  }

  lemma {:induction false} MappedIsLast(es: seq<IndexEntry>, id: u64) returns (i: nat)
    requires id in ChunkMap(es)
    ensures LastWithId(es, id, i) && ChunkMap(es)[id] == es[i]
  {
    var k := |es| - 1;
    if es[k].chunkId == id { i := k; } else { i := MappedIsLast(es[..k], id); }
  }

  /** The chunk map leads an id to the last entry that has it. */
  lemma ChunkMapIsLast(es: seq<IndexEntry>, id: u64, e: IndexEntry)
    ensures id in ChunkMap(es) && ChunkMap(es)[id] == e <==> exists i: nat :: LastWithId(es, id, i) && es[i] == e
  {
    if i: nat :| LastWithId(es, id, i) && es[i] == e {
      LastIsMapped(es, id, i);
    } else if id in ChunkMap(es) {
      var i := MappedIsLast(es, id);
    }
  }

  /** tensor_slice: the bytes between chunk header and checksum of the entry behind the name's
      chunk id, if name, id and room are there; nothing otherwise. */
  lemma SliceAnswers(f: Blob, o: Opened, name: Name, s: seq<byte>)
    ensures TensorSlice(f, o, name) == Some(s) <==>
      && name in o.index.tensorMap && o.index.tensorMap[name] in o.chunkMap
      && var e := o.chunkMap[o.index.tensorMap[name]];
         e.byteLen >= 62 && |s| == e.byteLen - 62 && Holds(f, e.byteOffset + 30, s)
  {
  }
}
