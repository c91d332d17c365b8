/** Chained index blocks and the in-memory index (ncf-kvcache/src/index.rs). */
module KvIndex {
  import opened Bytes
  import opened KvHeader

  const TRAILER_SIZE: nat := 24
  // "KVCFTR!!"
  const TRAILER_MAGIC: seq<byte> := [0x4B, 0x56, 0x43, 0x46, 0x54, 0x52, 0x21, 0x21]

  datatype ChunkIndexEntry = Entry(
    chunkId: nat, layer: nat, head: nat, blockIdx: nat,
    byteOffset: nat, byteLen: nat, tokenCount: nat)

  datatype IndexBlock = IndexBlock(prevIndexOffset: nat, blockIdx: nat, entries: seq<ChunkIndexEntry>)

  datatype Key = Key(layer: nat, head: nat, blockIdx: nat)

  function KeyOf(e: ChunkIndexEntry): Key { Key(e.layer, e.head, e.blockIdx) }

  /** The CBOR library, as a pair of functions; CborIndex supplies one that is lawful. */
  datatype Codec = Codec(enc: IndexBlock -> seq<byte>, dec: seq<byte> -> Option<IndexBlock>)

  ghost predicate InRangeEntry(e: ChunkIndexEntry) {
    && e.chunkId < TWO_64 && e.layer < TWO_32 && e.head < TWO_32 && e.blockIdx < TWO_64
    && e.byteOffset < TWO_64 && e.byteLen < TWO_64 && e.tokenCount < TWO_32
  }

  /** The fields fit the u32 and u64 that hold them. */
  ghost predicate InRangeBlock(b: IndexBlock) {
    && b.prevIndexOffset < TWO_64 && b.blockIdx < TWO_64
    && |b.entries| < TWO_64
    && forall e :: e in b.entries ==> InRangeEntry(e)
  }

  /** What is assumed of the CBOR library: reading back exactly the written bytes works. */
  ghost predicate Lawful(c: Codec) {
    forall b :: InRangeBlock(b) ==> c.dec(c.enc(b)) == Some(b)
  }

  // ---- trailers ----

  datatype IndexTrailer = Trailer(magic: seq<byte>, cborLen: nat, prevIndexOffset: nat)

  function EncodedTrailer(t: IndexTrailer): (s: seq<byte>)
    requires |t.magic| == 8
    ensures |s| == TRAILER_SIZE
  {
    t.magic + LE(t.cborLen, 8) + LE(t.prevIndexOffset, 8)
  }

  function DecodeTrailer(b: seq<byte>): (r: KvResult<IndexTrailer>) {
    if |b| != TRAILER_SIZE then Err(Layout)
    else Ok(Trailer(b[..8], FromLE(b[8..16]), FromLE(b[16..24])))
  }

  /** `IndexTrailer::encode` fills a zeroed 24-byte array. */
  method EncodeTrailer(t: IndexTrailer) returns (a: array<byte>)
    requires |t.magic| == 8
    ensures fresh(a) && a[..] == EncodedTrailer(t)
  {
    a := new byte[TRAILER_SIZE](_ => 0);
    CopyInto(a, 0, t.magic);
    CopyInto(a, 8, LE(t.cborLen, 8));
    CopyInto(a, 16, LE(t.prevIndexOffset, 8));
    assert a[..] == a[..24];
  }

  /** Both directions: trailers and 24-byte strings are the same thing. */
  lemma TrailerRoundTrip(t: IndexTrailer, b: seq<byte>)
    requires |t.magic| == 8 && t.cborLen < TWO_64 && t.prevIndexOffset < TWO_64
    requires |b| == TRAILER_SIZE
    ensures DecodeTrailer(EncodedTrailer(t)) == Ok(t)
    ensures EncodedTrailer(DecodeTrailer(b).value) == b
  {
    WordOfLE(t.cborLen);
    WordOfLE(t.prevIndexOffset);
    EncodeDecodeLE(b[8..16]);
    EncodeDecodeLE(b[16..24]);
    var s := EncodedTrailer(t);
    assert s[..8] == t.magic && s[8..16] == LE(t.cborLen, 8) && s[16..24] == LE(t.prevIndexOffset, 8);
    assert b == b[..8] + b[8..16] + b[16..24];
  }

  // ---- the in-memory index ----

  /** What inserting entries in order does to the map: a later entry replaces an earlier one. */
  function InsertAll(m: map<Key, ChunkIndexEntry>, es: seq<ChunkIndexEntry>): map<Key, ChunkIndexEntry> {
    if es == [] then m
    else var k := |es| - 1; InsertAll(m, es[..k])[KeyOf(es[k]) := es[k]]
  }

  function RaiseNextId(n: nat, es: seq<ChunkIndexEntry>): nat {
    if es == [] then n
    else var k := |es| - 1; Max(RaiseNextId(n, es[..k]), WrapAdd(es[k].chunkId, 1))
  }

  class KvcacheIndex {
    var blockMap: map<Key, ChunkIndexEntry>
    var nextChunkId: nat

    constructor ()
      ensures blockMap == map[] && nextChunkId == 0
    {
      blockMap := map[];
      nextChunkId := 0;
    }

    method InsertEntries(entries: seq<ChunkIndexEntry>)
      modifies this
      ensures blockMap == InsertAll(old(blockMap), entries)
      ensures nextChunkId == RaiseNextId(old(nextChunkId), entries)
    {
      for i := 0 to |entries|
        invariant blockMap == InsertAll(old(blockMap), entries[..i])
        invariant nextChunkId == RaiseNextId(old(nextChunkId), entries[..i])
      {
        assert entries[..i + 1][..i] == entries[..i];
        nextChunkId := Max(nextChunkId, WrapAdd(entries[i].chunkId, 1));
        blockMap := blockMap[KeyOf(entries[i]) := entries[i]];
      }
      assert entries[..|entries|] == entries;
    }
  }

  // ---- the simple specification: the newest entry wins ----

  /** The last entry of one block under key k. */
  function FindLast(es: seq<ChunkIndexEntry>, k: Key): (r: Option<ChunkIndexEntry>)
    ensures r.Some? ==> r.value in es && KeyOf(r.value) == k
    ensures r.None? <==> forall e :: e in es ==> KeyOf(e) != k
  {
    if es == [] then None
    else if KeyOf(es[|es| - 1]) == k then Some(es[|es| - 1])
    else
      assert es == es[..|es| - 1] + [es[|es| - 1]];
      FindLast(es[..|es| - 1], k)
  }

  /** Entry n is the last one under its key. */
  ghost predicate IsLast(es: seq<ChunkIndexEntry>, n: nat, k: Key) {
    n < |es| && KeyOf(es[n]) == k && forall j :: n < j < |es| ==> KeyOf(es[j]) != k
  }

  lemma {:induction false} LastIsFound(es: seq<ChunkIndexEntry>, k: Key, n: nat)
    requires IsLast(es, n, k)
    ensures FindLast(es, k) == Some(es[n])
  {
    var last := |es| - 1;
    if n < last { LastIsFound(es[..last], k, n); }
  }

  lemma {:induction false} FoundIsLast(es: seq<ChunkIndexEntry>, k: Key) returns (n: nat)
    requires FindLast(es, k).Some?
    ensures IsLast(es, n, k)
  {
    var last := |es| - 1;
    if KeyOf(es[last]) == k { n := last; } else { n := FoundIsLast(es[..last], k); }
  }

  /** The entry found is the one at the last position with the key. */
  lemma FindLastIsLast(es: seq<ChunkIndexEntry>, k: Key, e: ChunkIndexEntry)
    ensures FindLast(es, k) == Some(e) <==> exists n: nat :: IsLast(es, n, k) && es[n] == e
  {
    if n: nat :| IsLast(es, n, k) && es[n] == e {
      LastIsFound(es, k, n);
    } else if FindLast(es, k) == Some(e) {
      var n := FoundIsLast(es, k);
      LastIsFound(es, k, n);
    }
  }

  /** First hit walking from the newest block (index 0) towards the oldest. */
  function Lookup(chain: seq<IndexBlock>, k: Key): Option<ChunkIndexEntry> {
    if chain == [] then None
    else
      var hit := FindLast(chain[0].entries, k);
      if hit.Some? then hit else Lookup(chain[1..], k)
  }

  function BuildMap(chain: seq<IndexBlock>): map<Key, ChunkIndexEntry> {
    if chain == [] then map[] else InsertAll(BuildMap(chain[1..]), chain[0].entries)
  }

  function BuildNextId(chain: seq<IndexBlock>): nat {
    if chain == [] then 0 else RaiseNextId(BuildNextId(chain[1..]), chain[0].entries)
  }

  lemma {:induction false} InsertAllIsFindLast(m: map<Key, ChunkIndexEntry>, es: seq<ChunkIndexEntry>, k: Key)
    ensures k in InsertAll(m, es) <==> FindLast(es, k).Some? || k in m
    ensures k in InsertAll(m, es) ==>
      InsertAll(m, es)[k] == (if FindLast(es, k).Some? then FindLast(es, k).value else m[k])
  {
    if es != [] { InsertAllIsFindLast(m, es[..|es| - 1], k); }
  }

  /** Oldest-first insertion, last insert wins, is newest-first search. */
  lemma {:induction false} BuildMapIsLookup(chain: seq<IndexBlock>, k: Key)
    ensures k in BuildMap(chain) <==> Lookup(chain, k).Some?
    ensures k in BuildMap(chain) ==> Lookup(chain, k) == Some(BuildMap(chain)[k])
  {
    if chain != [] {
      BuildMapIsLookup(chain[1..], k);
      InsertAllIsFindLast(BuildMap(chain[1..]), chain[0].entries, k);
    }
  }

  ghost predicate IdInChain(chain: seq<IndexBlock>, id: nat) {
    exists j, e :: 0 <= j < |chain| && e in chain[j].entries && e.chunkId == id
  }

  /** Wrap-around included: the largest of the old next id and each id plus one, modulo 2^64. */
  lemma {:induction false} RaisesToLargest(n: nat, es: seq<ChunkIndexEntry>)
    ensures RaiseNextId(n, es) >= n
    ensures forall i :: 0 <= i < |es| ==> (es[i].chunkId + 1) % 0x1_0000_0000_0000_0000 <= RaiseNextId(n, es)
    ensures RaiseNextId(n, es) == n
      || exists i :: 0 <= i < |es| && RaiseNextId(n, es) == (es[i].chunkId + 1) % 0x1_0000_0000_0000_0000
  {
    if es != [] {
      var k := |es| - 1;
      RaisesToLargest(n, es[..k]);
      WrapIsMod(es[k].chunkId, 1);
      forall i | 0 <= i < |es| ensures (es[i].chunkId + 1) % 0x1_0000_0000_0000_0000 <= RaiseNextId(n, es) {
        if i < k { assert es[i] == es[..k][i]; }
      }
      if RaiseNextId(n, es) == RaiseNextId(n, es[..k]) != n {
        var i :| 0 <= i < k && RaiseNextId(n, es[..k]) == (es[..k][i].chunkId + 1) % 0x1_0000_0000_0000_0000;
        assert es[..k][i] == es[i];
      }
    }
  }

  lemma {:induction false} RaiseNextIdIsMax(n: nat, es: seq<ChunkIndexEntry>)
    requires forall e :: e in es ==> e.chunkId + 1 < TWO_64
    ensures RaiseNextId(n, es) >= n
    ensures forall e :: e in es ==> e.chunkId < RaiseNextId(n, es)
    ensures RaiseNextId(n, es) == n || exists e :: e in es && RaiseNextId(n, es) == e.chunkId + 1
  {
    if es != [] {
      var init := es[..|es| - 1];
      assert es == init + [es[|es| - 1]];
      RaiseNextIdIsMax(n, init);
    }
  }

  /** The next chunk id is one more than the largest id in the chain, or 0 for no entries. */
  lemma {:induction false} BuildNextIdIsMax(chain: seq<IndexBlock>)
    requires forall j, e :: 0 <= j < |chain| && e in chain[j].entries ==> e.chunkId + 1 < TWO_64
    ensures forall id: nat :: IdInChain(chain, id) ==> id < BuildNextId(chain)
    ensures BuildNextId(chain) == 0 || IdInChain(chain, BuildNextId(chain) - 1)
  {
    if chain != [] {
      var rest := chain[1..];
      assert forall j :: 0 <= j < |rest| ==> rest[j] == chain[j + 1];
      BuildNextIdIsMax(rest);
      RaiseNextIdIsMax(BuildNextId(rest), chain[0].entries);
      forall id: nat | IdInChain(chain, id) ensures id < BuildNextId(chain) {
        var j, e :| 0 <= j < |chain| && e in chain[j].entries && e.chunkId == id;
        if j > 0 {
          assert e in rest[j - 1].entries;
          assert IdInChain(rest, id);
        }
      }
      if BuildNextId(chain) == BuildNextId(rest) {
        if BuildNextId(rest) > 0 {
          var j, e :| 0 <= j < |rest| && e in rest[j].entries && e.chunkId == BuildNextId(rest) - 1;
          assert e in chain[j + 1].entries;
        }
      } else {
        var e :| e in chain[0].entries && BuildNextId(chain) == e.chunkId + 1;
      }
    }
  }

  lemma {:induction false} NextIdFits(chain: seq<IndexBlock>)
    ensures BuildNextId(chain) < TWO_64
  {
    if chain != [] {
      NextIdFits(chain[1..]);
      RaisedFits(BuildNextId(chain[1..]), chain[0].entries);
    }
  }

  lemma {:induction false} RaisedFits(n: nat, es: seq<ChunkIndexEntry>)
    requires n < TWO_64
    ensures RaiseNextId(n, es) < TWO_64
  {
    if es != [] { RaisedFits(n, es[..|es| - 1]); }
  }
}
