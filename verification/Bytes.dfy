/** Byte strings: little-endian words, in-place overwriting, concatenation of pieces. */
module Bytes {

  type byte = x: int | 0 <= x < 256

  const TWO_32: nat := 0x1_0000_0000
  const TWO_64: nat := 0x1_0000_0000_0000_0000

  type u64 = x: nat | x < TWO_64

  datatype Option<+T> = None | Some(value: T)

  datatype Result<+T, +E> = Ok(value: T) | Err(error: E) {
    predicate IsFailure() { Err? }
    function PropagateFailure<U>(): Result<U, E> requires Err? { Err(error) }
    function Extract(): T requires Ok? { value }
  }

  // The Rust operators on u64.
  function SatAdd(x: nat, y: nat): (r: nat) {
    if x + y < TWO_64 then x + y else TWO_64 - 1
  }

  function WrapAdd(x: nat, y: nat): (r: nat) {
    if x + y < TWO_64 then x + y else (x + y) % TWO_64
  }

  function SatSub(x: nat, y: nat): (r: nat) {
    if x >= y then x - y else 0
  }

  function Min(x: nat, y: nat): nat { if x <= y then x else y }

  function Max(x: nat, y: nat): nat { if x >= y then x else y }

  function Pow256(k: nat): nat { if k == 0 then 1 else 256 * Pow256(k - 1) }

  /** The k low-order bytes of n, least significant first (`to_le_bytes`). */
  function LE(n: nat, k: nat): (s: seq<byte>)
    ensures |s| == k
  {
    if k == 0 then [] else [n % 256] + LE(n / 256, k - 1)
  }

  /** `from_le_bytes`. */
  function FromLE(s: seq<byte>): (n: nat)
    ensures n < Pow256(|s|)
  {
    if s == [] then 0 else s[0] + 256 * FromLE(s[1..])
  }

  /** What two, four and eight bytes in this order are worth. */
  lemma LittleEndian(s: seq<byte>)
    ensures |s| == 2 ==> FromLE(s) == s[0] + 0x100 * (s[1] as int)
    ensures |s| == 4 ==> FromLE(s) == s[0] + 0x100 * (s[1] as int) + 0x1_0000 * (s[2] as int) + 0x100_0000 * (s[3] as int)
    ensures |s| == 8 ==> FromLE(s) == FromLE(s[..4]) + 0x1_0000_0000 * FromLE(s[4..])
  {
    if |s| == 2 { TwoBytes(s); }
    if |s| == 4 { FourBytes(s); }
    if |s| == 8 {
      FourBytes(s[..4]);
      FourBytes(s[4..]);
      EightBytes(s);
    }
  }

  lemma TwoBytes(s: seq<byte>)
    requires |s| == 2
    ensures FromLE(s) == s[0] + 0x100 * (s[1] as int)
  {
    assert s[1..][1..] == [];
    assert FromLE(s[1..]) == s[1];
  }

  lemma FourBytes(s: seq<byte>)
    requires |s| == 4
    ensures FromLE(s) == s[0] + 0x100 * (s[1] as int) + 0x1_0000 * (s[2] as int) + 0x100_0000 * (s[3] as int)
  {
    TwoBytes(s[2..]);
    assert s[1..][1..] == s[2..];
    assert FromLE(s[1..]) == s[1] + 0x100 * FromLE(s[2..]);
  }

  lemma EightBytes(s: seq<byte>)
    requires |s| == 8
    ensures FromLE(s) == s[0] + 0x100 * (s[1] as int) + 0x1_0000 * (s[2] as int) + 0x100_0000 * (s[3] as int) + 0x1_0000_0000 * FromLE(s[4..])
  {
    assert s[1..][1..] == s[2..] && s[2..][1..] == s[3..] && s[3..][1..] == s[4..];
    assert FromLE(s[3..]) == s[3] + 0x100 * FromLE(s[4..]);
    assert FromLE(s[2..]) == s[2] + 0x100 * FromLE(s[3..]);
    assert FromLE(s[1..]) == s[1] + 0x100 * FromLE(s[2..]);
  }

  lemma {:induction false} DecodeEncodeLE(n: nat, k: nat)
    requires n < Pow256(k)
    ensures FromLE(LE(n, k)) == n
  {
    if k > 0 {
      DecodeEncodeLE(n / 256, k - 1);
      assert LE(n, k)[1..] == LE(n / 256, k - 1);
    }
  }

  lemma {:induction false} EncodeDecodeLE(s: seq<byte>)
    ensures LE(FromLE(s), |s|) == s
  {
    if s != [] {
      EncodeDecodeLE(s[1..]);
      var n := FromLE(s);
      assert n % 256 == s[0] && n / 256 == FromLE(s[1..]);
    }
  }

  lemma DwordOfLE(n: nat)
    requires n < TWO_32
    ensures FromLE(LE(n, 4)) == n
  {
    assert Pow256(4) == TWO_32;
    DecodeEncodeLE(n, 4);
  }

  lemma WordOfLE(n: nat)
    requires n < TWO_64
    ensures FromLE(LE(n, 8)) == n
  {
    assert Pow256(8) == TWO_64;
    DecodeEncodeLE(n, 8);
  }

  lemma WrapIsMod(x: nat, y: nat)
    ensures WrapAdd(x, y) == (x + y) % TWO_64
  {
  }

  lemma SmallMod(n: nat)
    requires n < TWO_64
    ensures n % TWO_64 == n
  {
  }

  /** The 64-bit word stored at `at`. */
  function Word(f: seq<byte>, at: nat): (n: nat)
    requires at + 8 <= |f|
    ensures n < TWO_64
  {
    assert Pow256(8) == TWO_64;
    FromLE(f[at..at + 8])
  }

  /** Overwrite |s| bytes of f from `at` on. */
  function Overwrite(f: seq<byte>, at: nat, s: seq<byte>): (r: seq<byte>)
    requires at + |s| <= |f|
    ensures |r| == |f|
    ensures r[at..at + |s|] == s
    ensures forall i :: 0 <= i < |f| && !(at <= i < at + |s|) ==> r[i] == f[i]
  {
    seq(|f|, i requires 0 <= i < |f| => if at <= i < at + |s| then s[i - at] else f[i])
  }

  /** Store a 64-bit word. */
  function PutWord(f: seq<byte>, at: nat, n: nat): (r: seq<byte>)
    requires at + 8 <= |f| && n < TWO_64
    ensures |r| == |f|
    ensures Word(r, at) == n
    ensures forall i :: 0 <= i < |f| && !(at <= i < at + 8) ==> r[i] == f[i]
  {
    WordOfLE(n);
    Overwrite(f, at, LE(n, 8))
  }

  lemma SameWord(f: seq<byte>, g: seq<byte>, at: nat)
    requires at + 8 <= |f| && at + 8 <= |g|
    requires forall i :: at <= i < at + 8 ==> f[i] == g[i]
    ensures Word(f, at) == Word(g, at)
  {
    assert f[at..at + 8] == g[at..at + 8];
  }

  lemma SliceOfSlice<T>(f: seq<T>, a: nat, b: nat, i: nat, j: nat)
    requires a <= b <= |f| && i <= j <= b - a
    ensures f[a..b][i..j] == f[a + i..a + j]
  {
    var l, r := f[a..b][i..j], f[a + i..a + j];
    forall k | 0 <= k < j - i ensures l[k] == r[k] {
      assert l[k] == f[a..b][i + k] == f[a + i + k] == r[k];
    }
  }

  lemma PrefixOfPrefix<T>(s: seq<T>, n: nat, k: nat)
    requires k <= n <= |s|
    ensures s[..n][..k] == s[..k]
  {
  }

  lemma SliceOfFirst<T>(s: seq<T>, t: seq<T>, a: nat, b: nat)
    requires a <= b <= |s|
    ensures (s + t)[a..b] == s[a..b]
  {
  }

  lemma MiddleSlice(f: seq<byte>, s: seq<byte>, tail: seq<byte>, a: nat, b: nat)
    requires a <= b <= |s|
    ensures (f + s + tail)[|f| + a..|f| + b] == s[a..b]
  {
  }

  /** s lies in f at `at`. */
  ghost predicate Holds(f: seq<byte>, at: nat, s: seq<byte>) {
    at + |s| <= |f| && f[at..at + |s|] == s
  }

  lemma HoldsInside(f: seq<byte>, at: nat, s: seq<byte>, inner: nat, t: seq<byte>)
    requires Holds(f, at, s) && Holds(s, inner, t)
    ensures Holds(f, at + inner, t)
  {
    SliceOfSlice(f, at, at + |s|, inner, inner + |t|);
  }

  lemma HoldsFirst(s: seq<byte>, t: seq<byte>, at: nat, b: seq<byte>)
    requires Holds(s, at, b)
    ensures Holds(s + t, at, b)
  {
    SliceOfFirst(s, t, at, at + |b|);
  }

  lemma HoldsSecond(s: seq<byte>, t: seq<byte>)
    ensures Holds(s + t, |s|, t)
  {
  }

  lemma HoldsBehind(a: seq<byte>, b: seq<byte>, at: nat, x: seq<byte>)
    requires Holds(b, at, x)
    ensures Holds(a + b, |a| + at, x)
  {
    HoldsSecond(a, b);
    HoldsInside(a + b, |a|, b, at, x);
  }

  lemma LastTwoParts(a: seq<byte>, b: seq<byte>, t: seq<byte>)
    ensures var g := a + b + t;
      g[|a|..|a| + |b|] == b && g[|a| + |b|..|a| + |b| + |t|] == t
  {
  }

  /** All pieces in order. */
  function Flatten(ps: seq<seq<byte>>): (s: seq<byte>) {
    if ps == [] then [] else Flatten(ps[..|ps| - 1]) + ps[|ps| - 1]
  }

  lemma {:induction false} FlattenPrefix(ps: seq<seq<byte>>, i: nat)
    requires i <= |ps|
    ensures Flatten(ps[..i]) <= Flatten(ps)
  {
    if i == |ps| {
      assert ps[..i] == ps;
    } else {
      var init := ps[..|ps| - 1];
      FlattenPrefix(init, i);
      assert init[..i] == ps[..i];
    }
  }

  /** Piece i sits in the concatenation right after the pieces before it. */
  lemma {:induction false} FlattenAt(ps: seq<seq<byte>>, i: nat)
    requires i < |ps|
    ensures |Flatten(ps[..i])| + |ps[i]| <= |Flatten(ps)|
    ensures Flatten(ps)[|Flatten(ps[..i])|..|Flatten(ps[..i])| + |ps[i]|] == ps[i]
  {
    FlattenPrefix(ps, i + 1);
    assert ps[..i + 1][..i] == ps[..i];
    var a, b := Flatten(ps[..i + 1]), Flatten(ps);
    assert a == Flatten(ps[..i]) + ps[i];
    assert a == b[..|a|];
  }

  lemma MulLe(x: nat, y: nat, e: nat)
    requires x <= y
    ensures x * e <= y * e
  {
  }

  lemma DivUnique(q: nat, r: nat, p: nat, s: nat, d: nat)
    requires q * d + r == p * d + s && r < d && s < d
    ensures q == p && r == s
  {
    if q < p { MulLe(q + 1, p, d); }
    if p < q { MulLe(p + 1, q, d); }
  }

  lemma DivMod(q: nat, r: nat, d: nat)
    requires r < d
    ensures (q * d + r) / d == q && (q * d + r) % d == r
  {
    var n := q * d + r;
    DivUnique(q, r, n / d, n % d, d);
  }
}
