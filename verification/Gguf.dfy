/** Slicing a GGUF file into tensors (ncf-convert/src/from_gguf.rs). */
module Gguf {
  import opened Bytes
  import opened NcfFormat
  import opened NcfWriter

  datatype GgmlType =
    | F32 | F16 | Q4_0 | Q4_1 | Q5_0 | Q5_1 | Q8_0 | Q8_1 | Q2K | Q3K | Q4K | Q5K | Q6K | Q8K | I8 | I16 | I32
    | Unlisted

  datatype GgufTensor = GgufTensor(name: Name, offset: u64, dimensions: Vec<u64>, kind: GgmlType)

  datatype GgufError = InvalidOffset | MissingEnd | SizeMismatch | Panic

  function DTypeOf(k: GgmlType): DType {
    match k
    case F32 => DType.F32 case F16 => DType.F16
    case Q4_0 => DType.Q4_0 case Q4_1 => DType.Q4_0
    case Q5_0 => Custom(5) case Q5_1 => Custom(6)
    case Q8_0 => DType.Q8_0 case Q8_1 => Custom(9)
    case Q2K => DType.Q4K case Q3K => Custom(11) case Q4K => DType.Q4K
    case Q5K => Custom(13) case Q6K => Custom(14) case Q8K => DType.Q8_0
    case I8 => DType.I8 case I16 => DType.I16 case I32 => DType.I32
    case Unlisted => Custom(0)
  }

  /** Bytes per element of the types that are not packed. */
  function ElementSize(d: DType): Option<nat> {
    match d
    case F64 => Some(8) case F32 => Some(4) case F16 => Some(2) case BF16 => Some(2)
    case I32 => Some(4) case I16 => Some(2) case I8 => Some(1) case U8 => Some(1)
    case _ => None
  }

  // ---- sizes ----

  function SatMul(x: nat, y: nat): (r: nat)
    ensures r < TWO_64
  {
    Min(x * y, TWO_64 - 1)
  }

  function Product(ds: seq<nat>): nat {
    if ds == [] then 1 else Product(ds[..|ds| - 1]) * ds[|ds| - 1]
  }

  lemma SatMulStep(p: nat, d: nat)
    ensures SatMul(Min(p, TWO_64 - 1), d) == Min(p * d, TWO_64 - 1)
  {
    if p >= TWO_64 {
      if d == 0 {
        assert p * d == 0;
      } else {
        MulLe(1, d, p);
        MulLe(1, d, TWO_64 - 1);
      }
    }
  }

  /** The loop of saturating products computes the true product, cut off at 2^64 - 1; a zero
      after saturation still gives zero. */
  method Elements(ds: seq<nat>) returns (elems: nat)
    ensures elems == Min(Product(ds), TWO_64 - 1)
  {
    elems := 1;
    for i := 0 to |ds|
      invariant elems == Min(Product(ds[..i]), TWO_64 - 1)
    {
      assert ds[..i + 1][..i] == ds[..i];
      SatMulStep(Product(ds[..i]), ds[i]);
      elems := SatMul(elems, ds[i]);
    }
    assert ds[..|ds|] == ds;
  }

  /** The sizes that fit, by GGML type alone: the five fixed-width types need their true number of
      elements times 4, 4, 2, 2 or 1 bytes, the packed and unknown ones take any. */
  predicate Suits(kind: GgmlType, dimensions: seq<nat>, len: nat) {
    match kind
    case F32 => Product(dimensions) * 4 == len
    case I32 => Product(dimensions) * 4 == len
    case F16 => Product(dimensions) * 2 == len
    case I16 => Product(dimensions) * 2 == len
    case I8 => Product(dimensions) == len
    case _ => true
  }

  /** Bytes per element of a container type, if it has a fixed width. */
  predicate HasWidth(d: DType, width: nat) { ElementSize(d) == Some(width) }

  /** A tensor's type keeps its element width; packed and unknown types become packed types, those with
      a counterpart of the same name that one. */
  ghost predicate SameKind(kind: GgmlType, d: DType) {
    match kind
    case F32 => d == DType.F32
    case F16 => d == DType.F16
    case I32 => d == DType.I32
    case I16 => d == DType.I16
    case I8 => d == DType.I8
    case Q4_0 => d == DType.Q4_0
    case Q8_0 => d == DType.Q8_0
    case Q4K => d == DType.Q4K
    case Q4_1 => d == DType.Q4_0
    case Q8K => d == DType.Q8_0
    case Q2K => d == DType.Q4K
    case Q5_0 => d == Custom(5)
    case Q5_1 => d == Custom(6)
    case Q8_1 => d == Custom(9)
    case Q3K => d == Custom(11)
    case Q5K => d == Custom(13)
    case Q6K => d == Custom(14)
    case Unlisted => d == Custom(0)
  }

  lemma TypesKept(t: GgufTensor, len: nat)
    ensures SameKind(t.kind, DTypeOf(t.kind)) && (SizeFits(t, len) <==> Suits(t.kind, t.dimensions, len))
    ensures t.kind in {GgmlType.F32, GgmlType.I32} <==> HasWidth(DTypeOf(t.kind), 4)
    ensures t.kind in {GgmlType.F16, GgmlType.I16} <==> HasWidth(DTypeOf(t.kind), 2)
    ensures t.kind == GgmlType.I8 <==> HasWidth(DTypeOf(t.kind), 1)
  {
  }

  /** What a payload length must be for a tensor. */
  predicate SizeFits(t: GgufTensor, len: nat) {
    match ElementSize(DTypeOf(t.kind))
    case None => true
    case Some(size) => Product(t.dimensions) * size == len
  }

  /** The check accepts exactly the right lengths; no overflow lets a wrong one through. */
  method CheckSize(t: GgufTensor, len: nat) returns (ok: bool)
    requires len < TWO_64 - 1
    ensures ok <==> Suits(t.kind, t.dimensions, len)
  {
    TypesKept(t, len);
    var size := ElementSize(DTypeOf(t.kind));
    if size.None? { return true; }
    var elems := Elements(t.dimensions);
    SatMulStep(Product(t.dimensions), size.value);
    ok := SatMul(elems, size.value) == len;
  }

  // ---- sorting and searching offsets ----

  function Insert(s: seq<nat>, x: nat): (r: seq<nat>)
    ensures |r| == |s| + 1
  {
    if s == [] || s[|s| - 1] <= x then s + [x] else Insert(s[..|s| - 1], x) + [s[|s| - 1]]
  }

  function Sort(s: seq<nat>): (r: seq<nat>)
    ensures |r| == |s|
  {
    if s == [] then [] else Insert(Sort(s[..|s| - 1]), s[|s| - 1])
  }

  predicate Ascending(s: seq<nat>) { forall i, j :: 0 <= i < j < |s| ==> s[i] <= s[j] }

  lemma {:induction false} InsertKeeps(s: seq<nat>, x: nat)
    requires Ascending(s)
    ensures Ascending(Insert(s, x)) && multiset(Insert(s, x)) == multiset(s) + multiset{x}
    ensures forall y :: y in Insert(s, x) ==> y == x || y in s
  {
    if s != [] && s[|s| - 1] > x {
      var init, last := s[..|s| - 1], s[|s| - 1];
      InsertKeeps(init, x);
      assert s == init + [last];
      var r := Insert(init, x);
      forall i | 0 <= i < |r| ensures r[i] <= last { assert r[i] in r; }
    }
  }

  /** The result is ascending and holds the same offsets. */
  lemma {:induction false} SortSorts(s: seq<nat>)
    ensures Ascending(Sort(s)) && multiset(Sort(s)) == multiset(s)
  {
    if s != [] {
      SortSorts(s[..|s| - 1]);
      InsertKeeps(Sort(s[..|s| - 1]), s[|s| - 1]);
      assert s == s[..|s| - 1] + [s[|s| - 1]];
    }
  }

  lemma {:induction false} InsertFromBack(s: seq<nat>, x: nat, j: nat)
    requires j <= |s| && forall k :: j <= k < |s| ==> s[k] > x
    ensures Insert(s, x) == Insert(s[..j], x) + s[j..]
  {
    if j == |s| {
      assert s[..j] == s;
    } else {
      var init := s[..|s| - 1];
      InsertFromBack(init, x, j);
      assert init[..j] == s[..j] && s[j..] == init[j..] + [s[|s| - 1]];
    }
  }

  /** `sort_unstable`, in place; its result does not depend on the algorithm. */
  method SortInPlace(a: array<nat>)
    modifies a
    ensures a[..] == Sort(old(a[..]))
  {
    ghost var was := a[..];
    for i := 0 to a.Length
      invariant a[..i] == Sort(was[..i]) && a[i..] == was[i..]
    {
      assert was[..i + 1][..i] == was[..i] && a[i] == was[i];
      InsertAt(a, i);
      assert a[i + 1..] == was[i..][1..];
    }
    assert a[..] == a[..a.Length] && was[..a.Length] == was;
  }

  method InsertAt(a: array<nat>, i: nat)
    requires i < a.Length
    modifies a
    ensures a[..i + 1] == Insert(old(a[..i]), old(a[i])) && a[i + 1..] == old(a[i + 1..])
  {
    ghost var sorted := a[..i];
    var x, j := a[i], i;
    while j > 0 && a[j - 1] > x
      invariant j <= i
      invariant a[..j] == sorted[..j] && a[j + 1..i + 1] == sorted[j..] && a[i + 1..] == old(a[i + 1..])
      invariant forall k :: j <= k < i ==> sorted[k] > x
    {
      a[j] := a[j - 1];
      j := j - 1;
      assert a[j + 1..i + 1] == [sorted[j]] + sorted[j + 1..];
    }
    a[j] := x;
    InsertFromBack(sorted, x, j);
    assert a[..i + 1] == a[..j] + [x] + a[j + 1..i + 1];
  }

  /** `binary_search`: some position of the key, or none if it does not occur. */
  method BinarySearch(s: seq<nat>, key: nat) returns (at: Option<nat>)
    requires Ascending(s)
    ensures at.Some? ==> at.value < |s| && s[at.value] == key
    ensures at.None? ==> key !in s
  {
    var lo, hi := 0, |s|;
    while lo < hi
      invariant 0 <= lo <= hi <= |s|
      invariant forall k :: 0 <= k < lo ==> s[k] < key
      invariant forall k :: hi <= k < |s| ==> s[k] > key
    {
      var mid := lo + (hi - lo) / 2;
      if s[mid] == key { return Some(mid); }
      if s[mid] < key { lo := mid + 1; } else { hi := mid; }
    }
    at := None;
  }

  // ---- slices ----

  /** The offsets that end a slice: all tensors' and the end of the data. */
  function Ends(data: Blob, ts: seq<GgufTensor>): seq<nat> {
    seq(|ts|, i requires 0 <= i < |ts| => ts[i].offset) + [|data|]
  }

  /** The least offset above o. */
  ghost predicate IsNext(ends: seq<nat>, o: nat, e: nat) {
    e in ends && o < e && forall x :: x in ends && o < x ==> e <= x
  }

  predicate Distinct(s: seq<nat>) { forall i, j :: 0 <= i < j < |s| ==> s[i] != s[j] }

  predicate StrictlyUp(s: seq<nat>) { forall i, j :: 0 <= i < j < |s| ==> s[i] < s[j] }

  /** Pairwise distinct offsets, all inside the data. */
  ghost predicate WellPlaced(data: Blob, ts: seq<GgufTensor>) {
    && (forall i :: 0 <= i < |ts| ==> ts[i].offset < |data|)
    && (forall i, j :: 0 <= i < j < |ts| ==> ts[i].offset != ts[j].offset)
  }

  lemma {:induction false} InsertStrict(s: seq<nat>, x: nat)
    requires StrictlyUp(s) && x !in s
    ensures StrictlyUp(Insert(s, x)) && forall y :: y in Insert(s, x) <==> y == x || y in s
  {
    if s != [] && s[|s| - 1] > x {
      var init, last := s[..|s| - 1], s[|s| - 1];
      InsertStrict(init, x);
      assert s == init + [last];
      var r := Insert(init, x);
      forall i | 0 <= i < |r| ensures r[i] < last { assert r[i] in r; }
    } else if s != [] {
      assert s[|s| - 1] != x;
    }
  }

  lemma {:induction false} DistinctSorts(s: seq<nat>)
    requires Distinct(s)
    ensures StrictlyUp(Sort(s)) && forall x :: x in Sort(s) <==> x in s
  {
    if s != [] {
      var init, last := s[..|s| - 1], s[|s| - 1];
      DistinctSorts(init);
      assert s == init + [last];
      assert last !in init;
      InsertStrict(Sort(init), last);
    }
  }

  /** In a strictly ascending list the neighbour is the next offset. */
  lemma NeighbourIsNext(s: seq<nat>, k: nat)
    requires StrictlyUp(s) && k + 1 < |s|
    ensures IsNext(s, s[k], s[k + 1])
  {
    forall x | x in s && s[k] < x ensures s[k + 1] <= x {
      var i :| 0 <= i < |s| && s[i] == x;
    }
  }

  function Converted(t: GgufTensor, payload: Blob): Tensor {
    Tensor(TensorSchema(t.name, DTypeOf(t.kind), t.dimensions, RowMajor, NoCompression, Plain, []), payload)
  }

  /** The slice a tensor should get. */
  ghost predicate IsSlice(data: Blob, ts: seq<GgufTensor>, o: nat, payload: seq<byte>) {
    exists e: nat :: IsNext(Ends(data, ts), o, e) && e <= |data| && payload == data[o..e]
  }

  ghost predicate IsCut(data: Blob, sorted: seq<nat>, o: nat, payload: seq<byte>, k: nat) {
    && k + 1 < |sorted| && sorted[k] == o
    && o <= sorted[k + 1] <= |data| && payload == data[o..sorted[k + 1]]
  }

  /** When and how the lookup of one tensor's slice can end. */
  ghost predicate SliceOutcome(data: Blob, sorted: seq<nat>, o: nat, r: Result<Blob, GgufError>) {
    match r
    case Ok(payload) => exists k: nat :: IsCut(data, sorted, o, payload, k)
    case Err(InvalidOffset) => o !in sorted
    case Err(MissingEnd) => sorted != [] && sorted[|sorted| - 1] == o
    case Err(Panic) => exists k :: 0 <= k < |sorted| - 1 && sorted[k] == o && sorted[k + 1] > |data|
    case Err(SizeMismatch) => false
  }

  /** One tensor's slice, through the sorted offsets. */
  method SliceFor(data: Blob, sorted: seq<nat>, t: GgufTensor) returns (r: Result<Blob, GgufError>)
    requires Ascending(sorted)
    ensures SliceOutcome(data, sorted, t.offset, r)
  {
    var at := BinarySearch(sorted, t.offset);
    if at.None? { return Err(InvalidOffset); }
    var k := at.value;
    if k + 1 >= |sorted| { return Err(MissingEnd); }
    if sorted[k + 1] > |data| {
      assert sorted[k] == t.offset;
      return Err(Panic);
    }
    r := Ok(data[t.offset..sorted[k + 1]]);
    assert IsCut(data, sorted, t.offset, r.value, k);
  }

  lemma EndsDistinct(data: Blob, ts: seq<GgufTensor>)
    requires WellPlaced(data, ts)
    ensures Distinct(Ends(data, ts))
  {
  }

  /** Cut points of the data, the last one its end. */
  ghost predicate Cuts(data: Blob, s: seq<nat>) {
    StrictlyUp(s) && s != [] && s[|s| - 1] == |data| && forall k :: 0 <= k < |s| ==> s[k] <= |data|
  }

  lemma EndsLast(data: Blob, ts: seq<GgufTensor>, s: seq<nat>)
    requires WellPlaced(data, ts) && StrictlyUp(s) && forall x :: x in s <==> x in Ends(data, ts)
    ensures Cuts(data, s)
  {
    var e := Ends(data, ts);
    assert e[|ts|] == |data|;
    assert |data| in s;
    forall k | 0 <= k < |s| ensures s[k] <= |data| {
      assert s[k] in e;
      var j :| 0 <= j < |e| && e[j] == s[k];
    }
    var j :| 0 <= j < |s| && s[j] == |data|;
  }

  /** With well-placed offsets neither lookup can fail and no slice leaves the data. */
  lemma LookupsSucceed(data: Blob, ts: seq<GgufTensor>)
    requires WellPlaced(data, ts)
    ensures var s := Sort(Ends(data, ts));
      && Cuts(data, s) && (forall x :: x in s <==> x in Ends(data, ts))
      && forall i :: 0 <= i < |ts| ==> ts[i].offset in s && ts[i].offset < s[|s| - 1]
  {
    var e := Ends(data, ts);
    EndsDistinct(data, ts);
    DistinctSorts(e);
    EndsLast(data, ts, Sort(e));
    forall i | 0 <= i < |ts| ensures ts[i].offset in Sort(e) { assert e[i] == ts[i].offset; }
  }

  // ---- any offsets ----

  /** Where a slice may end: at the least larger offset, or, if the offset is repeated, at once,
      depending on which of its occurrences the search finds. */
  ghost predicate MayEnd(ends: seq<nat>, o: nat, e: nat) {
    IsNext(ends, o, e) || (e == o && multiset(ends)[o] >= 2)
  }

  ghost predicate MaySlice(data: Blob, ts: seq<GgufTensor>, o: nat, payload: seq<byte>) {
    exists e: nat :: o <= e <= |data| && MayEnd(Ends(data, ts), o, e) && payload == data[o..e]
  }

  lemma AdjacentMayEnd(s: seq<nat>, k: nat)
    requires Ascending(s) && k + 1 < |s|
    ensures MayEnd(s, s[k], s[k + 1])
  {
    if s[k] == s[k + 1] {
      assert s == s[..k] + [s[k], s[k]] + s[k + 2..];
    } else {
      forall x | x in s && s[k] < x ensures s[k + 1] <= x {
        var i :| 0 <= i < |s| && s[i] == x;
      }
    }
  }

  lemma SameEnds(s: seq<nat>, t: seq<nat>, o: nat, e: nat)
    requires multiset(s) == multiset(t) && MayEnd(s, o, e)
    ensures MayEnd(t, o, e)
  {
    SameMembers(s, t);
  }

  lemma SameMembers(s: seq<nat>, t: seq<nat>)
    requires multiset(s) == multiset(t)
    ensures forall x :: x in s <==> x in t
  {
    forall x ensures x in s <==> x in t {
      assert x in s <==> x in multiset(s);
      assert x in t <==> x in multiset(t);
    }
  }

  /** How the lookup of tensor i's slice ends, for any offsets. */
  ghost predicate SliceResult(data: Blob, ts: seq<GgufTensor>, i: nat, r: Result<Blob, GgufError>)
    requires i < |ts|
  {
    match r
    case Ok(payload) => MaySlice(data, ts, ts[i].offset, payload)
    case Err(MissingEnd) => IsLargest(Ends(data, ts), ts[i].offset)
    case Err(Panic) => RunsOut(data, ts, ts[i].offset)
    case Err(_) => false
  }

  ghost predicate IsLargest(ends: seq<nat>, o: nat) { forall x :: x in ends ==> x <= o }

  /** The slice would end beyond the data. */
  ghost predicate RunsOut(data: Blob, ts: seq<GgufTensor>, o: nat) {
    exists e: nat :: e > |data| && MayEnd(Ends(data, ts), o, e)
  }

  /** Some tensor lies beyond the end of the data. */
  ghost predicate Beyond(data: Blob, ts: seq<GgufTensor>) { exists j :: 0 <= j < |ts| && ts[j].offset > |data| }

  lemma OutcomeIsResult(data: Blob, ts: seq<GgufTensor>, sorted: seq<nat>, i: nat, r: Result<Blob, GgufError>)
    requires i < |ts| && Ascending(sorted) && multiset(sorted) == multiset(Ends(data, ts))
    requires SliceOutcome(data, sorted, ts[i].offset, r)
    ensures SliceResult(data, ts, i, r)
  {
    var ends := Ends(data, ts);
    SameMembers(sorted, ends);
    assert ends[i] == ts[i].offset;
    match r
    case Ok(payload) =>
      var k: nat :| IsCut(data, sorted, ts[i].offset, payload, k);
      AdjacentMayEnd(sorted, k);
      SameEnds(sorted, ends, sorted[k], sorted[k + 1]);
    case Err(Panic) =>
      var k :| 0 <= k < |sorted| - 1 && sorted[k] == ts[i].offset && sorted[k + 1] > |data|;
      AdjacentMayEnd(sorted, k);
      SameEnds(sorted, ends, sorted[k], sorted[k + 1]);
    case Err(_) =>
  }

  /** Tensor i became m: name and dimensions, row by row, plain and uncompressed, no chunks yet, its own
      kind of elements, and a slice of the right size. */
  ghost predicate Made(data: Blob, ts: seq<GgufTensor>, i: nat, m: Tensor) {
    && i < |ts| && m.schema.name == ts[i].name && m.schema.shape == ts[i].dimensions
    && m.schema.layout == RowMajor && m.schema.encoding == Plain && m.schema.compression == NoCompression
    && m.schema.chunks == [] && SameKind(ts[i].kind, m.schema.dtype)
    && MaySlice(data, ts, ts[i].offset, m.payload) && Suits(ts[i].kind, ts[i].dimensions, |m.payload|)
  }

  /** What a finished conversion made of the first n tensors. */
  ghost predicate AllMade(data: Blob, ts: seq<GgufTensor>, n: nat, made: seq<Tensor>) {
    |made| == n && forall i :: 0 <= i < n ==> Made(data, ts, i, made[i])
  }

  ghost predicate Misfit(data: Blob, ts: seq<GgufTensor>, i: nat, payload: seq<byte>) {
    i < |ts| && MaySlice(data, ts, ts[i].offset, payload) && !Suits(ts[i].kind, ts[i].dimensions, |payload|)
  }

  /** How tensor i can fail: with no larger end, with an end beyond the data, or with a slice that does
      not suit its type. */
  ghost predicate Fails(data: Blob, ts: seq<GgufTensor>, i: nat, error: GgufError) {
    && i < |ts|
    && match error
       case InvalidOffset => false
       case MissingEnd => IsLargest(Ends(data, ts), ts[i].offset)
       case Panic => RunsOut(data, ts, ts[i].offset)
       case SizeMismatch => exists payload :: Misfit(data, ts, i, payload)
  }

  /** Tensor i fails after all before it were made. */
  ghost predicate FailsFirst(data: Blob, ts: seq<GgufTensor>, i: nat, before: seq<Tensor>, error: GgufError) {
    AllMade(data, ts, i, before) && Fails(data, ts, i, error)
  }

  method ConvertOne(data: Blob, sorted: seq<nat>, ts: seq<GgufTensor>, i: nat) returns (r: Result<Tensor, GgufError>)
    requires i < |ts| && Ascending(sorted) && multiset(sorted) == multiset(Ends(data, ts))
    ensures r.Ok? ==> Made(data, ts, i, r.value)
    ensures r.Err? ==> Fails(data, ts, i, r.error)
  {
    var slice := SliceFor(data, sorted, ts[i]);
    OutcomeIsResult(data, ts, sorted, i, slice);
    if slice.Err? { return Err(slice.error); }
    TypesKept(ts[i], |slice.value|);
    var fits := CheckSize(ts[i], |slice.value|);
    if !fits {
      assert Misfit(data, ts, i, slice.value);
      return Err(SizeMismatch);
    }
    r := Ok(Converted(ts[i], slice.value));
  }

  method SortedEnds(data: Blob, ts: seq<GgufTensor>) returns (sorted: seq<nat>)
    ensures Ascending(sorted) && multiset(sorted) == multiset(Ends(data, ts))
  {
    var offsets := new nat[|ts| + 1](i requires 0 <= i <= |ts| => Ends(data, ts)[i]);
    assert offsets[..] == Ends(data, ts);
    SortInPlace(offsets);
    SortSorts(Ends(data, ts));
    sorted := offsets[..];
  }

  /** `gguf_to_ncf` from the parsed file to the tensors handed to the container writer: what it
      makes of any offsets, repeated ones and ones outside the data included. */
  method Convert(data: Blob, ts: seq<GgufTensor>) returns (r: Result<seq<Tensor>, GgufError>)
    ensures r.Ok? ==> AllMade(data, ts, |ts|, r.value)
    ensures r.Err? ==> exists i: nat, before :: FailsFirst(data, ts, i, before, r.error)
  {
    var sorted := SortedEnds(data, ts);
    var made: seq<Tensor> := [];
    for i := 0 to |ts|
      invariant AllMade(data, ts, i, made)
    {
      var one := ConvertOne(data, sorted, ts, i);
      if one.Err? {
        assert FailsFirst(data, ts, i, made, one.error);
        return Err(one.error);
      }
      made := made + [one.value];
    }
    r := Ok(made);
  }

  /** A conversion only succeeds if no tensor lies beyond the data. */
  lemma MadeOnlyInside(data: Blob, ts: seq<GgufTensor>, made: seq<Tensor>)
    requires AllMade(data, ts, |ts|, made)
    ensures !Beyond(data, ts)
  {
    forall j | 0 <= j < |ts| ensures ts[j].offset <= |data| {
      assert Made(data, ts, j, made[j]);
    }
  }

  /** For well-placed offsets the slice is the one the tensor should get, so the only possible
      failure is a real size mismatch. */
  lemma WellPlacedSlices(data: Blob, ts: seq<GgufTensor>, i: nat, payload: seq<byte>)
    requires WellPlaced(data, ts) && i < |ts|
    ensures MaySlice(data, ts, ts[i].offset, payload) <==> IsSlice(data, ts, ts[i].offset, payload)
    ensures forall error :: Fails(data, ts, i, error) ==> error == SizeMismatch
  {
    EndsDistinct(data, ts);
    OccursOnce(Ends(data, ts), ts[i].offset);
    EndsInside(data, ts);
  }

  lemma EndsInside(data: Blob, ts: seq<GgufTensor>)
    requires WellPlaced(data, ts)
    ensures |data| in Ends(data, ts) && forall x :: x in Ends(data, ts) ==> x <= |data|
  {
    assert Ends(data, ts)[|ts|] == |data|;
  }

  lemma {:induction false} OccursOnce(s: seq<nat>, x: nat)
    requires Distinct(s)
    ensures multiset(s)[x] <= 1
  {
    if s != [] {
      var init, last := s[..|s| - 1], s[|s| - 1];
      assert s == init + [last];
      OccursOnce(init, x);
    }
  }

  // ---- the slices partition the data ----

  function Piece(data: Blob, s: seq<nat>, k: nat): seq<byte>
    requires k + 1 < |s| && s[k] <= s[k + 1] <= |data|
  {
    data[s[k]..s[k + 1]]
  }

  ghost function Pieces(data: Blob, s: seq<nat>, n: nat): seq<seq<byte>>
    requires Cuts(data, s) && n < |s|
  {
    seq(n, k requires 0 <= k < n => Piece(data, s, k))
  }

  /** Consecutive slices join up. */
  lemma {:induction false} PiecesJoin(data: Blob, s: seq<nat>, n: nat)
    requires Cuts(data, s) && n < |s|
    ensures Flatten(Pieces(data, s, n)) == data[s[0]..s[n]]
  {
    if n > 0 {
      PiecesJoin(data, s, n - 1);
      assert Pieces(data, s, n)[..n - 1] == Pieces(data, s, n - 1);
      assert data[s[0]..s[n - 1]] + data[s[n - 1]..s[n]] == data[s[0]..s[n]];
    }
  }

  /** Slices in offset order: non-empty, without gap or overlap, up to the end of the data. */
  ghost predicate Partition(data: Blob, ts: seq<GgufTensor>, s: seq<nat>) {
    && |s| == |ts| + 1 && Cuts(data, s)
    && Flatten(Pieces(data, s, |ts|)) == data[s[0]..]
    && forall k :: 0 <= k < |ts| ==> IsSlice(data, ts, s[k], Piece(data, s, k)) && Piece(data, s, k) != []
  }

  lemma CutsPartition(data: Blob, ts: seq<GgufTensor>, s: seq<nat>)
    requires Cuts(data, s) && |s| == |ts| + 1 && forall x :: x in s <==> x in Ends(data, ts)
    ensures Partition(data, ts, s)
  {
    PiecesJoin(data, s, |ts|);
    assert data[s[0]..|data|] == data[s[0]..];
    forall k | 0 <= k < |ts| ensures IsSlice(data, ts, s[k], Piece(data, s, k)) && Piece(data, s, k) != [] {
      PieceIsSlice(data, ts, s, k);
    }
  }

  /** For distinct offsets inside the data, the sorted offsets cut it into the tensors' slices:
      put together they are the data from the smallest offset to its end. */
  lemma SlicesPartition(data: Blob, ts: seq<GgufTensor>)
    requires WellPlaced(data, ts)
    ensures var s := Sort(Ends(data, ts)); Partition(data, ts, s) && multiset(s) == multiset(Ends(data, ts))
  {
    var s := Sort(Ends(data, ts));
    SortSorts(Ends(data, ts));
    LookupsSucceed(data, ts);
    CutsPartition(data, ts, s);
  }

  lemma PieceIsSlice(data: Blob, ts: seq<GgufTensor>, s: seq<nat>, k: nat)
    requires Cuts(data, s) && k + 1 < |s| && forall x :: x in s <==> x in Ends(data, ts)
    ensures IsSlice(data, ts, s[k], Piece(data, s, k)) && Piece(data, s, k) != []
  {
    NeighbourIsNext(s, k);
    assert IsNext(Ends(data, ts), s[k], s[k + 1]);
  }

  lemma SliceIsUnique(data: Blob, ts: seq<GgufTensor>, o: nat, p: seq<byte>, q: seq<byte>)
    requires IsSlice(data, ts, o, p) && IsSlice(data, ts, o, q)
    ensures p == q
  {
  }
}
