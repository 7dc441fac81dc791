/** Machine integers, byte strings and the two orders the pool compares them in. */
module Bytes {
  type u8 = x: int | 0 <= x < 0x100
  type u32 = x: int | 0 <= x < 0x1_0000_0000
  type u64 = x: int | 0 <= x < 0x1_0000_0000_0000_0000

  const U32_MAX := 0xffff_ffff
  const U64_MAX := 0xffff_ffff_ffff_ffff

  type Bytes = seq<u8>
  type Hash = h: seq<u8> | |h| == 32 witness Zeros(32)

  datatype Option<+T> = None | Some(value: T)

  lemma {:induction false} Associative<T>(a: seq<T>, b: seq<T>, c: seq<T>)
    ensures (a + b) + c == a + (b + c)
  {
  }

  function Zeros(n: nat): (z: Bytes)
    ensures |z| == n && forall i :: 0 <= i < n ==> z[i] == 0
  {
    seq(n, _ => 0)
  }

  function Pow256(n: nat): (p: nat)
    ensures p > 0
  {
    if n == 0 then 1 else 256 * Pow256(n - 1)
  }

  lemma {:induction false} ProductAssociative(a: int, b: int, c: int)
    ensures (a * b) * c == a * (b * c)
  {
  }

  lemma {:induction false} Rescale(v: int, p: int)
    ensures 256 * (v * p) == v * (256 * p)
  {
  }

  lemma {:induction false} ProductNonNegative(a: nat, b: nat)
    ensures a * b >= 0
  {
  }

  lemma {:induction false} Pow256Add(m: nat, n: nat)
    ensures Pow256(m + n) == Pow256(m) * Pow256(n)
  {
    if m > 0 {
      Pow256Add(m - 1, n);
      ProductAssociative(256, Pow256(m - 1), Pow256(n));
    }
  }

  lemma {:induction false} Pow256Constants()
    ensures Pow256(1) == 0x100
    ensures Pow256(2) == 0x1_0000
    ensures Pow256(4) == 0x1_0000_0000
    ensures Pow256(8) == 0x1_0000_0000_0000_0000
  {
    Pow256Add(2, 2);
    Pow256Add(4, 4);
  }

  // ── Big-endian value ──────────────────────────────────────────────────────

  /** The number a byte string denotes, most significant byte first. */
  function Value(s: Bytes): nat {
    if s == [] then 0 else 256 * Value(s[..|s| - 1]) + s[|s| - 1]
  }

  lemma {:induction false} ValueSnoc(s: Bytes, b: u8)
    ensures Value(s + [b]) == 256 * Value(s) + b
  {
    assert (s + [b])[..|s|] == s;
  }

  lemma {:induction false} ValueConcat(a: Bytes, b: Bytes)
    ensures Value(a + b) == Value(a) * Pow256(|b|) + Value(b)
    decreases |b|
  {
    if b == [] {
      assert a + b == a;
    } else {
      var c, d := b[..|b| - 1], b[|b| - 1];
      ValueConcat(a, c);
      assert a + b == (a + c) + [d] && b == c + [d];
      ValueSnoc(a + c, d);
      Rescale(Value(a), Pow256(|c|));
    }
  }

  lemma {:induction false} ValueBound(s: Bytes)
    ensures Value(s) < Pow256(|s|)
  {
    if s != [] {
      ValueBound(s[..|s| - 1]);
    }
  }

  lemma {:induction false} ValueZeros(n: nat)
    ensures Value(Zeros(n)) == 0
  {
    if n > 0 {
      assert Zeros(n)[..n - 1] == Zeros(n - 1);
      ValueZeros(n - 1);
    }
  }

  /** Equal length and equal value make equal strings. */
  lemma {:induction false} ValueInjective(a: Bytes, b: Bytes)
    requires |a| == |b| && Value(a) == Value(b)
    ensures a == b
    decreases |a|
  {
    if a != [] {
      var n := |a| - 1;
      assert Value(a) == 256 * Value(a[..n]) + a[n];
      assert Value(b) == 256 * Value(b[..n]) + b[n];
      ValueInjective(a[..n], b[..n]);
      assert a == a[..n] + [a[n]] && b == b[..n] + [b[n]];
    }
  }

  /** Fixed-width big-endian encoding, the inverse of `Value`. */
  function BigEndian(v: nat, n: nat): (s: Bytes)
    ensures |s| == n
    decreases v, n
  {
    if n == 0 then [] else BigEndian(v / 256, n - 1) + [v % 256]
  }

  lemma {:induction false} BigEndianValue(v: nat, n: nat)
    requires v < Pow256(n)
    ensures Value(BigEndian(v, n)) == v
  {
    if n > 0 {
      BigEndianValue(v / 256, n - 1);
      ValueSnoc(BigEndian(v / 256, n - 1), v % 256);
    }
  }

  lemma {:induction false} ValueBigEndian(s: Bytes)
    ensures BigEndian(Value(s), |s|) == s
  {
    ValueBound(s);
    BigEndianValue(Value(s), |s|);
    ValueInjective(BigEndian(Value(s), |s|), s);
  }

  // ── Little-endian integers ────────────────────────────────────────────────

  function LittleEndian(v: nat, n: nat): (s: Bytes)
    ensures |s| == n
    decreases v, n
  {
    if n == 0 then [] else [v % 256] + LittleEndian(v / 256, n - 1)
  }

  function FromLittleEndian(s: Bytes): nat {
    if s == [] then 0 else s[0] + 256 * FromLittleEndian(s[1..])
  }

  lemma {:induction false} LittleEndianRoundTrip(v: nat, n: nat)
    requires v < Pow256(n)
    ensures FromLittleEndian(LittleEndian(v, n)) == v
  {
    if n > 0 {
      LittleEndianRoundTrip(v / 256, n - 1);
      assert LittleEndian(v, n)[1..] == LittleEndian(v / 256, n - 1);
    }
  }

  lemma {:induction false} FromLittleEndianRoundTrip(s: Bytes)
    ensures FromLittleEndian(s) < Pow256(|s|)
    ensures LittleEndian(FromLittleEndian(s), |s|) == s
  {
    if s != [] {
      FromLittleEndianRoundTrip(s[1..]);
      LowDigit(s[0], FromLittleEndian(s[1..]));
      assert s == [s[0]] + s[1..];
    }
  }

  lemma {:induction false} LowDigit(b: u8, r: nat)
    ensures (b + 256 * r) % 256 == b && (b + 256 * r) / 256 == r
  {
  }

  // ── Reversal ──────────────────────────────────────────────────────────────

  function Reverse(s: Bytes): (r: Bytes)
    ensures |r| == |s|
    ensures forall i :: 0 <= i < |s| ==> r[i] == s[|s| - 1 - i]
  {
    seq(|s|, i requires 0 <= i < |s| => s[|s| - 1 - i])
  }

  lemma {:induction false} ReverseInvolutive(s: Bytes)
    ensures Reverse(Reverse(s)) == s
  {
  }

  lemma {:induction false} ReverseValue(s: Bytes)
    ensures Value(Reverse(s)) == FromLittleEndian(s)
  {
    if s != [] {
      ReverseValue(s[1..]);
      assert Reverse(s) == Reverse(s[1..]) + [s[0]];
      ValueSnoc(Reverse(s[1..]), s[0]);
    }
  }

  // ── Lexicographic order ───────────────────────────────────────────────────

  /** The order of Rust slices and strings, and of SQLite blobs. */
  predicate LexLess(a: Bytes, b: Bytes) {
    if b == [] then false
    else if a == [] then true
    else a[0] < b[0] || (a[0] == b[0] && LexLess(a[1..], b[1..]))
  }

  lemma {:induction false} SingleValue(b: u8)
    ensures Value([b]) == b
  {
    assert [b][..0] == [];
  }

  lemma {:induction false} ValueCons(s: Bytes)
    requires s != []
    ensures Value(s) == s[0] * Pow256(|s| - 1) + Value(s[1..])
    ensures Value(s[1..]) < Pow256(|s| - 1)
  {
    SingleValue(s[0]);
    ValueConcat([s[0]], s[1..]);
    assert s == [s[0]] + s[1..];
    ValueBound(s[1..]);
  }

  lemma {:induction false} LeadingDigitDecides(x: nat, y: nat, p: nat, u: nat, v: nat)
    requires x < y && u < p
    ensures x * p + u < y * p + v
  {
    assert (x + 1) * p <= y * p;
  }

  /** On strings of one length the lexicographic order is the numeric one. */
  lemma {:induction false} LexIsNumeric(a: Bytes, b: Bytes)
    requires |a| == |b|
    ensures LexLess(a, b) <==> Value(a) < Value(b)
  {
    if a != [] {
      var p := Pow256(|a| - 1);
      ValueCons(a);
      ValueCons(b);
      if a[0] < b[0] {
        LeadingDigitDecides(a[0], b[0], p, Value(a[1..]), Value(b[1..]));
      } else if b[0] < a[0] {
        LeadingDigitDecides(b[0], a[0], p, Value(b[1..]), Value(a[1..]));
      } else {
        LexIsNumeric(a[1..], b[1..]);
      }
    }
  }

  // ── Lowercase hex, as the ASCII bytes of the string ───────────────────────

  function HexDigit(d: int): u8
    requires 0 <= d < 16
  {
    if d < 10 then 48 + d else 87 + d
  }

  function Hex(s: Bytes): (h: Bytes)
    ensures |h| == 2 * |s|
  {
    if s == [] then [] else [HexDigit(s[0] / 16), HexDigit(s[0] % 16)] + Hex(s[1..])
  }

  /** The hex digits, high half first. */
  const HEX_DIGITS := "0123456789abcdef"

  lemma {:induction false} HexDigits(s: Bytes, i: nat)
    requires i < |s|
    ensures Hex(s)[2 * i] as char == HEX_DIGITS[s[i] / 16] && Hex(s)[2 * i + 1] as char == HEX_DIGITS[s[i] % 16]
  {
    if i > 0 {
      HexDigits(s[1..], i - 1);
    }
  }

  /** Comparing hex strings compares the bytes behind them. */
  lemma {:induction false} HexKeepsOrder(a: Bytes, b: Bytes)
    requires |a| == |b|
    ensures LexLess(Hex(a), Hex(b)) <==> LexLess(a, b)
  {
    if a != [] {
      HexKeepsOrder(a[1..], b[1..]);
      var x, y := Hex(a), Hex(b);
      assert x[1..][1..] == Hex(a[1..]) && y[1..][1..] == Hex(b[1..]);
      assert x[1..][0] == HexDigit(a[0] % 16) && y[1..][0] == HexDigit(b[0] % 16);
      assert LexLess(x, y) == (x[0] < y[0] || (x[0] == y[0] && LexLess(x[1..], y[1..])));
    }
  }

  lemma {:induction false} HexIsNumeric(a: Bytes, b: Bytes)
    requires |a| == |b|
    ensures LexLess(Hex(a), Hex(b)) <==> Value(a) < Value(b)
  {
    HexKeepsOrder(a, b);
    LexIsNumeric(a, b);
  }

  // ── Surroundings ──────────────────────────────────────────────────────────

  /** What the pool takes from its libraries, the double SHA-256 and the address decoder,
      and whether it was built with overflow checks. Nothing is assumed of any of them. */
  datatype Env = Env(sha256d: Bytes -> Hash, scriptOf: string -> Option<Bytes>, checked: bool)
}
