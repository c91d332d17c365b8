/** Definite-length CBOR (RFC 8949, section 3) as the serializer writes it: unsigned
    integers in their shortest form, text, arrays and maps. */
module Cbor {
  import opened Bytes

  /** Map entries alternate key, value. */
  datatype Item = UInt(n: nat) | Text(bytes: seq<byte>) | Array(items: seq<Item>) | Map(entries: seq<Item>)

  /** Arguments fit the eight bytes a head has for them. */
  predicate Encodable(x: Item) {
    match x
    case UInt(n) => n < TWO_64
    case Text(s) => |s| < TWO_64
    case Array(items) => |items| < TWO_64 && forall i :: 0 <= i < |items| ==> Encodable(items[i])
    case Map(entries) =>
      |entries| < TWO_64 && |entries| % 2 == 0 && forall i :: 0 <= i < |entries| ==> Encodable(entries[i])
  }

  predicate AllEncodable(items: seq<Item>) {
    forall i :: 0 <= i < |items| ==> Encodable(items[i])
  }

  // ---- heads ----

  /** The k low-order bytes of n, most significant first. */
  function BE(n: nat, k: nat): (s: seq<byte>)
    ensures |s| == k
  {
    if k == 0 then [] else BE(n / 256, k - 1) + [n % 256]
  }

  function FromBE(s: seq<byte>): nat {
    if s == [] then 0 else 256 * FromBE(s[..|s| - 1]) + s[|s| - 1]
  }

  lemma {:induction false} DecodeEncodeBE(n: nat, k: nat)
    requires n < Pow256(k)
    ensures FromBE(BE(n, k)) == n
  {
    if k > 0 { DecodeEncodeBE(n / 256, k - 1); }
  }

  /** How many bytes follow a head's first byte. */
  function ArgSize(n: nat): (k: nat)
    requires n < TWO_64
    ensures n < 24 || n < Pow256(k)
  {
    assert Pow256(1) == 256 && Pow256(2) == 0x1_0000 && Pow256(4) == TWO_32 && Pow256(8) == TWO_64;
    if n < 24 then 0 else if n < 256 then 1 else if n < 0x1_0000 then 2 else if n < TWO_32 then 4 else 8
  }

  /** A head in its shortest form: major type and argument. */
  function Head(major: nat, n: nat): (s: seq<byte>)
    requires major < 8 && n < TWO_64
    ensures |s| == 1 + ArgSize(n)
  {
    if n < 24 then [32 * major + n]
    else
      var k := ArgSize(n);
      [32 * major + (if k == 1 then 24 else if k == 2 then 25 else if k == 4 then 26 else 27)] + BE(n, k)
  }

  /** The shortest form, as the standard's section 3 writes it: the major type in the top three bits of the first
      byte, then the argument there or, most significant byte first, in the next one, two, four or eight. */
  lemma ShortestHead(major: nat, n: nat)
    requires major < 8 && n < TWO_64
    ensures var h := Head(major, n);
      && h[0] / 32 == major
      && (n < 24 ==> |h| == 1 && h[0] % 32 == n)
      && (24 <= n < 0x100 ==> |h| == 2 && h[0] % 32 == 24 && h[1] == n)
      && (0x100 <= n < 0x1_0000 ==> |h| == 3 && h[0] % 32 == 25 && h[1] == n / 0x100 && h[2] == n % 0x100)
      && (0x1_0000 <= n < 0x1_0000_0000 ==> |h| == 5 && h[0] % 32 == 26 && h[1..] == BE(n, 4))
      && (0x1_0000_0000 <= n ==> |h| == 9 && h[0] % 32 == 27 && h[1..] == BE(n, 8))
  {
    assert BE(n, 1) == [n % 256];
    assert BE(n, 2) == BE(n / 256, 1) + [n % 256] && BE(n / 256, 1) == [n / 256 % 256];
  }

  /** Most significant byte first: what is in front counts 256 times. */
  lemma BigEndian(n: nat, k: nat)
    ensures |BE(n, k + 1)| == k + 1 && BE(n, k + 1)[k] == n % 256 && BE(n, k + 1)[..k] == BE(n / 256, k)
  {
  }

  datatype Header = Header(major: nat, arg: nat, used: nat)

  function ReadHead(s: seq<byte>): (r: Option<Header>)
    ensures r.Some? ==> 1 <= r.value.used <= |s|
  {
    if s == [] then None
    else
      var major, info := s[0] / 32, s[0] % 32;
      if info < 24 then Some(Header(major, info, 1))
      else if info > 27 then None
      else
        var k := if info == 24 then 1 else if info == 25 then 2 else if info == 26 then 4 else 8;
        if |s| < 1 + k then None else Some(Header(major, FromBE(s[1..1 + k]), 1 + k))
  }

  lemma FirstByte(major: nat, info: nat)
    requires major < 8 && info < 32
    ensures (32 * major + info) / 32 == major && (32 * major + info) % 32 == info
  {
  }

  lemma LongHead(major: nat, info: nat, k: nat, arg: seq<byte>, rest: seq<byte>)
    requires major < 8 && |arg| == k
    requires (info == 24 && k == 1) || (info == 25 && k == 2) || (info == 26 && k == 4) || (info == 27 && k == 8)
    ensures ReadHead([32 * major + info] + arg + rest) == Some(Header(major, FromBE(arg), 1 + k))
  {
    var s := [32 * major + info] + arg + rest;
    FirstByte(major, info);
    assert s[1..1 + k] == arg;
  }

  lemma HeadRoundTrip(major: nat, n: nat, rest: seq<byte>)
    requires major < 8 && n < TWO_64
    ensures ReadHead(Head(major, n) + rest) == Some(Header(major, n, |Head(major, n)|))
  {
    if n < 24 {
      FirstByte(major, n);
    } else {
      var k := ArgSize(n);
      var info := if k == 1 then 24 else if k == 2 then 25 else if k == 4 then 26 else 27;
      LongHead(major, info, k, BE(n, k), rest);
      DecodeEncodeBE(n, k);
      assert Head(major, n) == [32 * major + info] + BE(n, k);
    }
  }

  lemma HeadThenBody(major: nat, n: nat, body: seq<byte>, rest: seq<byte>)
    requires major < 8 && n < TWO_64
    ensures var h := Head(major, n); var s := h + body + rest;
      && ReadHead(s) == Some(Header(major, n, |h|))
      && s[|h|..] == body + rest && s[|h|..|h| + |body|] == body
  {
    HeadRoundTrip(major, n, body + rest);
    assert Head(major, n) + body + rest == Head(major, n) + (body + rest);
  }

  // ---- items ----

  function Encode(x: Item): (s: seq<byte>)
    requires Encodable(x)
    ensures |s| >= 1
  {
    match x
    case UInt(n) => Head(0, n)
    case Text(bytes) => Head(3, |bytes|) + bytes
    case Array(items) => Head(4, |items|) + EncodeAll(items)
    case Map(entries) => Head(5, |entries| / 2) + EncodeAll(entries)
  }

  function EncodeAll(items: seq<Item>): seq<byte>
    requires AllEncodable(items)
  {
    if items == [] then [] else Encode(items[0]) + EncodeAll(items[1..])
  }

  /** Major types 0, 3, 4 and 5 with number, bytes, items and pairs of items. */
  lemma Majors(x: Item)
    requires Encodable(x)
    ensures Encode(x)[0] / 32 == match x case UInt(_) => 0 case Text(_) => 3 case Array(_) => 4 case Map(_) => 5
    ensures match x
      case UInt(n) => Encode(x) == Head(0, n)
      case Text(s) => Encode(x) == Head(3, |s|) + s
      case Array(items) => Head(4, |items|) <= Encode(x)
      case Map(entries) => Head(5, |entries| / 2) <= Encode(x)
  {
    match x
    case UInt(n) => ShortestHead(0, n);
    case Text(s) => ShortestHead(3, |s|);
    case Array(items) => ShortestHead(4, |items|);
    case Map(entries) => ShortestHead(5, |entries| / 2);
  }

  datatype Parsed<T> = Parsed(value: T, used: nat)

  /** The first item in s; what follows it is ignored. */
  function Decode(s: seq<byte>): (r: Option<Parsed<Item>>)
    ensures r.Some? ==> r.value.used <= |s|
    decreases |s|, 0, 0
  {
    match ReadHead(s)
    case None => None
    case Some(h) =>
      if h.major == 0 then Some(Parsed(UInt(h.arg), h.used))
      else if h.major == 3 then
        if h.used + h.arg > |s| then None
        else Some(Parsed(Text(s[h.used..h.used + h.arg]), h.used + h.arg))
      else if h.major == 4 then
        match DecodeAll(h.arg, s[h.used..])
        case None => None
        case Some(p) => Some(Parsed(Array(p.value), h.used + p.used))
      else if h.major == 5 then
        match DecodeAll(2 * h.arg, s[h.used..])
        case None => None
        case Some(p) => Some(Parsed(Map(p.value), h.used + p.used))
      else None
  }

  function DecodeAll(k: nat, s: seq<byte>): (r: Option<Parsed<seq<Item>>>)
    ensures r.Some? ==> r.value.used <= |s|
    decreases |s|, 1, k
  {
    if k == 0 then Some(Parsed([], 0))
    else match Decode(s)
      case None => None
      case Some(first) =>
        match DecodeAll(k - 1, s[first.used..])
        case None => None
        case Some(others) => Some(Parsed([first.value] + others.value, first.used + others.used))
  }

  ghost predicate Reads(s: seq<byte>, x: Item, used: nat) {
    Decode(s) == Some(Parsed(x, used))
  }

  ghost predicate ReadsAll(s: seq<byte>, xs: seq<Item>, used: nat) {
    DecodeAll(|xs|, s) == Some(Parsed(xs, used))
  }

  lemma ArrayReads(items: seq<Item>, body: seq<byte>, rest: seq<byte>)
    requires |items| < TWO_64 && ReadsAll(body + rest, items, |body|)
    ensures var h := Head(4, |items|); Reads(h + body + rest, Array(items), |h + body|)
  {
    HeadThenBody(4, |items|, body, rest);
  }

  lemma MapReads(entries: seq<Item>, body: seq<byte>, rest: seq<byte>)
    requires |entries| < TWO_64 && |entries| % 2 == 0 && ReadsAll(body + rest, entries, |body|)
    ensures var h := Head(5, |entries| / 2); Reads(h + body + rest, Map(entries), |h + body|)
  {
    HeadThenBody(5, |entries| / 2, body, rest);
  }

  lemma UIntReads(n: nat, rest: seq<byte>)
    requires n < TWO_64
    ensures Reads(Head(0, n) + rest, UInt(n), |Head(0, n)|)
  {
    HeadRoundTrip(0, n, rest);
  }

  lemma TextReads(bytes: seq<byte>, rest: seq<byte>)
    requires |bytes| < TWO_64
    ensures var h := Head(3, |bytes|); Reads(h + bytes + rest, Text(bytes), |h + bytes|)
  {
    HeadThenBody(3, |bytes|, bytes, rest);
  }

  lemma ConsReads(items: seq<Item>, first: seq<byte>, others: seq<byte>, rest: seq<byte>)
    requires items != [] && Reads(first + (others + rest), items[0], |first|)
    requires ReadsAll(others + rest, items[1..], |others|)
    ensures ReadsAll(first + others + rest, items, |first + others|)
  {
    var s := first + (others + rest);
    assert s[|first|..] == others + rest;
    assert first + others + rest == s;
    assert [items[0]] + items[1..] == items;
  }

  /** Decoding stops right behind the encoded item, whatever follows. */
  lemma {:induction false} RoundTrip(x: Item, rest: seq<byte>)
    requires Encodable(x)
    ensures Reads(Encode(x) + rest, x, |Encode(x)|)
    decreases x, 0
  {
    match x
    case UInt(n) => UIntReads(n, rest);
    case Text(bytes) => TextReads(bytes, rest);
    case Array(items) =>
      AllRoundTrip(items, rest);
      ArrayReads(items, EncodeAll(items), rest);
    case Map(entries) =>
      AllRoundTrip(entries, rest);
      MapReads(entries, EncodeAll(entries), rest);
  }

  lemma {:induction false} AllRoundTrip(items: seq<Item>, rest: seq<byte>)
    requires AllEncodable(items)
    ensures ReadsAll(EncodeAll(items) + rest, items, |EncodeAll(items)|)
    decreases items, 1
  {
    if items != [] {
      var first, others := Encode(items[0]), EncodeAll(items[1..]);
      RoundTrip(items[0], others + rest);
      AllRoundTrip(items[1..], rest);
      ConsReads(items, first, others, rest);
    }
  }

  // ---- records ----

  /** The bytes of an ASCII name. */
  function Ascii(s: string): seq<byte> {
    seq(|s|, i requires 0 <= i < |s| => s[i] as int % 256)
  }

  /** A record's fields in declaration order, names and values alternating. */
  function Fields(names: seq<string>, values: seq<Item>): (r: seq<Item>)
    requires |names| == |values|
    ensures |r| == 2 * |names|
  {
    if names == [] then [] else [Text(Ascii(names[0])), values[0]] + Fields(names[1..], values[1..])
  }

  function Record(names: seq<string>, values: seq<Item>): Item
    requires |names| == |values|
  {
    Map(Fields(names, values))
  }

  /** Field i of a record: its name, then its value. */
  lemma {:induction false} FieldAt(names: seq<string>, values: seq<Item>, i: nat)
    requires |names| == |values| && i < |names|
    ensures Fields(names, values)[2 * i] == Text(Ascii(names[i])) && Fields(names, values)[2 * i + 1] == values[i]
  {
    if i > 0 { FieldAt(names[1..], values[1..], i - 1); }
  }

  /** Field i of a map is the value under the name. */
  ghost predicate HasField(x: Item, i: nat, name: string, value: Item) {
    x.Map? && 2 * i + 1 < |x.entries| && x.entries[2 * i] == Text(Ascii(name)) && x.entries[2 * i + 1] == value
  }

  lemma RecordHasField(names: seq<string>, values: seq<Item>, i: nat)
    requires |names| == |values| && i < |names|
    ensures HasField(Record(names, values), i, names[i], values[i])
  {
    FieldAt(names, values, i);
  }

  /** The values of fields that carry exactly these names, in this order. */
  function FieldValues(names: seq<string>, entries: seq<Item>): Option<seq<Item>> {
    if names == [] then if entries == [] then Some([]) else None
    else if |entries| < 2 || entries[0] != Text(Ascii(names[0])) then None
    else match FieldValues(names[1..], entries[2..])
      case None => None
      case Some(values) => Some([entries[1]] + values)
  }

  function RecordValues(names: seq<string>, x: Item): Option<seq<Item>> {
    if x.Map? then FieldValues(names, x.entries) else None
  }

  lemma {:induction false} RecordRoundTrip(names: seq<string>, values: seq<Item>)
    requires |names| == |values|
    ensures RecordValues(names, Record(names, values)) == Some(values)
  {
    if names != [] {
      RecordRoundTrip(names[1..], values[1..]);
      assert Fields(names, values)[2..] == Fields(names[1..], values[1..]);
      assert [values[0]] + values[1..] == values;
    }
  }

  lemma {:induction false} RecordEncodable(names: seq<string>, values: seq<Item>)
    requires |names| == |values| && AllEncodable(values) && 2 * |names| < TWO_64
    requires forall i :: 0 <= i < |names| ==> |names[i]| < TWO_64
    ensures Encodable(Record(names, values))
  {
    if names != [] {
      RecordEncodable(names[1..], values[1..]);
      assert Encodable(Text(Ascii(names[0]))) && Encodable(values[0]);
      var more := Fields(names[1..], values[1..]);
      assert Encodable(Map(more)) && AllEncodable(more);
    }
  }

  function UInts(ns: seq<nat>): (items: seq<Item>)
    ensures |items| == |ns|
    ensures (forall i :: 0 <= i < |ns| ==> ns[i] < TWO_64) ==> AllEncodable(items)
  {
    seq(|ns|, i requires 0 <= i < |ns| => UInt(ns[i]))
  }

  function UIntValues(items: seq<Item>): (ns: seq<nat>)
    requires forall i :: 0 <= i < |items| ==> items[i].UInt?
    ensures |ns| == |items|
  {
    seq(|items|, i requires 0 <= i < |items| => items[i].n)
  }
}
