/** Share targets: long division, compact bits, credited difficulty, share interval. */
module Targets {
  import opened Bytes

  const U128_MAX := 0xffff_ffff_ffff_ffff_ffff_ffff_ffff_ffff

  lemma {:induction false} Pow256Large()
    ensures Pow256(14) == 0x10000000000000000000000000000
    ensures Pow256(24) == 0x1000000000000000000000000000000000000000000000000
    ensures Pow256(26) == 0x10000000000000000000000000000000000000000000000000000
    ensures Pow256(32) == 0x10000000000000000000000000000000000000000000000000000000000000000
  {
    Pow256Constants();
    Pow256Add(4, 2);
    Pow256Add(8, 6);
    Pow256Add(8, 8);
    Pow256Add(16, 8);
    Pow256Add(24, 2);
    Pow256Add(24, 8);
  }

  lemma {:induction false} ProductGrows(d: nat, a: int, b: int)
    requires a <= b
    ensures d * a + (if a < b then d else 0) <= d * b
  {
    var k := b - a;
    assert d * b == d * a + d * k;
    if k >= 1 {
      assert d * k >= d;
    }
  }

  lemma {:induction false} QuotientLess(n: nat, d: nat, k: nat)
    requires d >= 1 && n < d * k
    ensures n / d < k
  {
    if n / d >= k {
      ProductGrows(d, k, n / d);
    }
  }

  lemma {:induction false} QuotientAtLeast(n: nat, d: nat, k: nat)
    requires d >= 1 && d * k <= n
    ensures n / d >= k
  {
    if n / d < k {
      ProductGrows(d, n / d + 1, k);
    }
  }

  lemma {:induction false} QuotientUnique(n: int, d: nat, q: int, r: int)
    requires d >= 1 && n == d * q + r && 0 <= r < d
    ensures n / d == q && n % d == r
  {
    if q > n / d {
      ProductGrows(d, n / d, q);
    } else if q < n / d {
      ProductGrows(d, q, n / d);
    }
  }

  // ── Hashrate to target ────────────────────────────────────────────────────

  /** An f32, exactly. */
  datatype F32 = Finite(r: real) | NaN | PosInf | NegInf

  const F32_MAX: real := (0xff_ffff * 0x1_0000_0000_0000_0000_0000_0000_00) as real

  predicate ValidF32(h: F32) {
    h.Finite? ==> -F32_MAX <= h.r <= F32_MAX
  }

  const SHARE_INTERVAL: real := 30.0
  const HASHES_AT_ONE: real := 4294967296.0

  /** Difficulty wanted for one share every 30 seconds, at least 1, truncated; the cast
      to u128 saturates and `max` turns NaN into 1. */
  function Difficulty(h: F32): (d: nat)
    requires ValidF32(h)
    ensures 1 <= d <= U128_MAX
    ensures h.PosInf? <==> d == U128_MAX
    ensures h != PosInf ==> d <= 0x1_0000_0000_0000_0000_0000_0000_0000_00
  {
    match h
    case Finite(r) =>
      var x := r * SHARE_INTERVAL / HASHES_AT_ONE;
      (if x > 1.0 then x else 1.0).Floor
    case NaN => 1
    case PosInf => U128_MAX
    case NegInf => 1
  }

  /** For a finite hashrate the integer part of hashrate * 30 / 2^32, but at least 1; for
      NaN and -inf, and for no other that is not finite, 1. */
  lemma {:induction false} DifficultyMeaning(h: F32)
    requires ValidF32(h)
    ensures h.Finite? ==>
              var x := h.r * 30.0 / 4294967296.0;
              if x < 2.0 then Difficulty(h) == 1 else Difficulty(h) as real <= x < Difficulty(h) as real + 1.0
    ensures h.NaN? || h.NegInf? ==> Difficulty(h) == 1
  {
  }

  /** The target of difficulty 1: 0xFFFF * 2^208. */
  const PDIFF1: Bytes := [0, 0, 0, 0, 0xff, 0xff] + Zeros(26)

  lemma {:induction false} Pdiff1Head()
    ensures Value([0, 0, 0, 0, 0xff, 0xff]) == 0xffff
  {
    assert [0, 0, 0, 0, 0xff, 0xff] == Zeros(4) + [0xff, 0xff];
    ValueConcat(Zeros(4), [0xff, 0xff]);
    ValueZeros(4);
    ValueSnoc([0xff], 0xff);
    ValueSnoc([], 0xff);
    assert [] + [0xff] == [0xff] && [0xff] + [0xff] == [0xff, 0xff];
  }

  const PDIFF1_VALUE: nat := 0xffff0000000000000000000000000000000000000000000000000000

  lemma {:induction false} Pdiff1Value()
    ensures |PDIFF1| == 32 && Value(PDIFF1) == PDIFF1_VALUE
  {
    Pow256Large();
    Pdiff1Head();
    ValueConcat([0, 0, 0, 0, 0xff, 0xff], Zeros(26));
    ValueZeros(26);
  }

  /** The target of a declared hashrate. For +inf the u128 carry overflows: a checked build
      panics there, an unchecked one wraps and ends up with 0. */
  function HashrateTarget(checked: bool, h: F32): (t: Option<Hash>)
    requires ValidF32(h)
  {
    if h.PosInf? then if checked then None else Some(Zeros(32))
    else Some(BigEndian(PDIFF1_VALUE / Difficulty(h), 32))
  }

  predicate CarryOverflows(s: Bytes, d: nat, i: nat)
    requires d >= 1 && i < |s|
  {
    Value(s[..i]) % d * 256 + s[i] > U128_MAX
  }

  /** A turn of the loop: from the carry and a byte, a quotient digit and the next carry. */
  type Turning = (nat, u8) -> (u8, nat)

  /** What wrapping u128 arithmetic makes of a turn. */
  function WrappingTurn(d: nat): Turning
    requires d >= 1
  {
    (carry: nat, b: u8) => var val := (carry * 256 + b) % (U128_MAX + 1); (val / d % 256, val % d)
  }

  /** The digits of all turns, high byte first, and the last carry. */
  function Digits(turn: Turning, n: Bytes): (r: (Bytes, nat))
    ensures |r.0| == |n|
  {
    if n == [] then ([], 0)
    else
      var r := Digits(turn, n[..|n| - 1]);
      var x := turn(r.1, n[|n| - 1]);
      (r.0 + [x.0], x.1)
  }

  lemma {:induction false} OneMoreTurn(turn: Turning, n: Bytes, b: u8)
    ensures var r := Digits(turn, n);
            Digits(turn, n + [b]) == (r.0 + [turn(r.1, b).0], turn(r.1, b).1)
  {
    var m := n + [b];
    assert m[..|m| - 1] == n;
  }

  /** Division of the number in `target` by `d`, in place, high byte first. A checked build
      stops where `carry * 256 + byte` leaves u128, and only there. */
  method LongDivide(target: array<u8>, d: nat, checked: bool) returns (ok: bool, carry: nat)
    requires 1 <= d <= U128_MAX
    modifies target
    ensures !ok <==> checked && exists i: nat :: i < target.Length && CarryOverflows(old(target[..]), d, i)
    ensures ok ==> (target[..], carry) == Digits(WrappingTurn(d), old(target[..]))
    ensures (forall i: nat :: i < target.Length ==> !CarryOverflows(old(target[..]), d, i))
            ==> Value(target[..]) == Value(old(target[..])) / d && carry == Value(old(target[..])) % d
  {
    ghost var n := target[..];
    ok, carry := true, 0;
    var i := 0;
    while i < target.Length
      invariant i <= target.Length && ok
      invariant target[i..] == n[i..] && Dividing(n, target[..i], d, carry, i, checked)
    {
      ok, carry := DivideByte(target, d, carry, i, checked, n);
      if !ok {
        return;
      }
      i := i + 1;
    }
    assert target[..] == target[..i];
    AllDivided(n, target[..], d, carry, checked);
  }

  /** One turn of the loop. */
  method DivideByte(target: array<u8>, d: nat, carry: nat, i: nat, checked: bool, ghost n: Bytes)
      returns (ok: bool, next: nat)
    requires d >= 1 && i < target.Length == |n| && target[i..] == n[i..]
    requires Dividing(n, target[..i], d, carry, i, checked)
    modifies target
    ensures !ok <==> checked && CarryOverflows(n, d, i)
    ensures ok ==> target[i + 1..] == n[i + 1..] && Dividing(n, target[..i + 1], d, next, i + 1, checked)
  {
    assert target[i] == n[i];
    ghost var done := target[..i];
    TurnKeepsDividing(n, done, d, carry, i, checked);
    var val := carry * 256 + target[i];
    if val > U128_MAX && checked {
      return false, carry;
    }
    val := val % (U128_MAX + 1);
    target[i] := val / d % 256;
    assert target[..i + 1] == done + [target[i]];
    ok, next := true, val % d;
  }

  predicate Divided(n: Bytes, q: Bytes, d: nat, carry: nat)
    requires d >= 1
  {
    Value(q) == Value(n) / d && carry == Value(n) % d
  }

  /** One turn of the loop goes on with the digits, and is exact while nothing wraps. */
  lemma {:induction false} NextDigit(n: Bytes, q: Bytes, d: nat, carry: nat, i: nat)
    requires d >= 1 && i < |n| && Digits(WrappingTurn(d), n[..i]) == (q, carry)
    ensures var val := (carry * 256 + n[i]) % (U128_MAX + 1);
            && Digits(WrappingTurn(d), n[..i + 1]) == (q + [val / d % 256], val % d)
            && (Divided(n[..i], q, d, carry) && !CarryOverflows(n, d, i) ==>
                Divided(n[..i + 1], q + [val / d % 256], d, val % d))
  {
    OneMoreTurn(WrappingTurn(d), n[..i], n[i]);
    assert n[..i + 1] == n[..i] + [n[i]];
    if Divided(n[..i], q, d, carry) && !CarryOverflows(n, d, i) {
      DoesNotWrap(carry * 256 + n[i]);
      OneMoreDigit(n[..i], q, d, carry, n[i]);
    }
  }

  /** `q` and `carry` are what the turns on the first `i` bytes give, exact if none wrapped. */
  ghost predicate Dividing(n: Bytes, q: Bytes, d: nat, carry: nat, i: nat, checked: bool)
    requires d >= 1 && i <= |n|
  {
    && (q, carry) == Digits(WrappingTurn(d), n[..i])
    && ((forall j: nat :: j < i ==> !CarryOverflows(n, d, j)) ==> Divided(n[..i], q, d, carry))
    && (checked ==> forall j: nat :: j < i ==> !CarryOverflows(n, d, j))
  }

  lemma {:induction false} AllDivided(n: Bytes, q: Bytes, d: nat, carry: nat, checked: bool)
    requires d >= 1 && Dividing(n, q, d, carry, |n|, checked)
    ensures (q, carry) == Digits(WrappingTurn(d), n)
    ensures (forall i: nat :: i < |n| ==> !CarryOverflows(n, d, i)) ==>
            Value(q) == Value(n) / d && carry == Value(n) % d
    ensures checked ==> forall i: nat :: i < |n| ==> !CarryOverflows(n, d, i)
  {
    assert n[..|n|] == n;
  }

  lemma {:induction false} TurnKeepsDividing(n: Bytes, q: Bytes, d: nat, carry: nat, i: nat, checked: bool)
    requires d >= 1 && i < |n| && Dividing(n, q, d, carry, i, checked)
    ensures var sum := carry * 256 + n[i];
            var val := sum % (U128_MAX + 1);
            && (checked ==> (CarryOverflows(n, d, i) <==> sum > U128_MAX))
            && ((checked && sum > U128_MAX) || Dividing(n, q + [val / d % 256], d, val % d, i + 1, checked))
  {
    NextDigit(n, q, d, carry, i);
  }

  lemma {:induction false} DoesNotWrap(v: nat)
    requires v <= U128_MAX
    ensures v % (U128_MAX + 1) == v
  {
  }

  lemma {:induction false} OneMoreDigit(n: Bytes, q: Bytes, d: nat, carry: nat, b: u8)
    requires d >= 1 && Divided(n, q, d, carry)
    ensures 0 <= (carry * 256 + b) / d < 256
    ensures Divided(n + [b], q + [(carry * 256 + b) / d % 256], d, (carry * 256 + b) % d)
  {
    DigitFits(Value(n), d, b);
    ValueSnoc(n, b);
    ValueSnoc(q, (carry * 256 + b) / d);
  }

  /** One step of the division: the quotient digit is a byte. */
  lemma {:induction false} DigitFits(v: nat, d: nat, b: u8)
    requires d >= 1
    ensures 0 <= (v % d * 256 + b) / d < 256
    ensures (256 * v + b) / d == 256 * (v / d) + (v % d * 256 + b) / d
    ensures (256 * v + b) % d == (v % d * 256 + b) % d
  {
    QuotientAndRemainder(v, d);
    QuotientAndRemainder(v % d * 256 + b, d);
    DigitArithmetic(v, v / d, v % d, b, (v % d * 256 + b) / d, (v % d * 256 + b) % d, d);
    QuotientLess(v % d * 256 + b, d, 256);
  }

  lemma {:induction false} DigitArithmetic(v: nat, q: nat, r: nat, b: u8, q': nat, r': nat, d: nat)
    requires d >= 1 && v == d * q + r && r * 256 + b == d * q' + r' && r' < d
    ensures (256 * v + b) / d == 256 * q + q' && (256 * v + b) % d == r'
  {
    ShiftQuotient(d, q, q');
    QuotientUnique(256 * v + b, d, 256 * q + q', r');
  }

  lemma {:induction false} QuotientAndRemainder(n: nat, d: nat)
    requires d >= 1
    ensures n == d * (n / d) + n % d && 0 <= n % d < d
  {
  }

  lemma {:induction false} ShiftQuotient(d: nat, q: nat, q': nat)
    ensures d * (256 * q + q') == 256 * (d * q) + d * q'
  {
    assert d * (256 * q) == 256 * (d * q);
  }

  const TWO_120 := 0x1_0000_0000_0000_0000_0000_0000_0000_00

  /** Below 2^120 the carry always fits; the one larger divisor that a hashrate can give,
      the saturated one, overflows at byte 20. */
  lemma {:induction false} OverflowOnlyWhenSaturated(d: nat)
    requires 1 <= d <= TWO_120 || d == U128_MAX
    ensures |PDIFF1| == 32
    ensures (exists i: nat :: i < 32 && CarryOverflows(PDIFF1, d, i)) <==> d == U128_MAX
  {
    if d == U128_MAX {
      var head := [0, 0, 0, 0, 0xff, 0xff];
      assert PDIFF1[..20] == head + Zeros(14);
      ValueConcat(head, Zeros(14));
      ValueZeros(14);
      Pdiff1Head();
      Pow256Large();
      assert CarryOverflows(PDIFF1, d, 20);
    }
  }

  /** Digits of 0 go on while every turn on a zero byte gives one. */
  lemma {:induction false} ZerosStay(turn: Turning, n: Bytes, k: nat)
    requires (forall carry: nat :: turn(carry, 0).0 == 0) && Digits(turn, n).0 == Zeros(|n|)
    ensures Digits(turn, n + Zeros(k)).0 == Zeros(|n| + k)
    decreases k
  {
    if k == 0 {
      assert n + Zeros(k) == n;
    } else {
      ZerosStay(turn, n, k - 1);
      assert n + Zeros(k) == n + Zeros(k - 1) + [0];
      OneMoreTurn(turn, n + Zeros(k - 1), 0);
      assert Zeros(|n| + k - 1) + [0] == Zeros(|n| + k);
    }
  }

  /** Divided by u128::MAX, a multiple of 256 below 2^128 gives 0. */
  lemma {:induction false} EvenIsLess(carry: nat)
    ensures carry * 256 % (U128_MAX + 1) / U128_MAX == 0
  {
    var p := (U128_MAX + 1) / 256;
    var q, r := carry * 256 / (U128_MAX + 1), carry * 256 % (U128_MAX + 1);
    assert r == 256 * (carry - p * q);
    assert r < U128_MAX;
  }

  /** For the saturated difficulty the wrapped division leaves nothing. */
  lemma {:induction false} SaturatedIsZero()
    ensures Digits(WrappingTurn(U128_MAX), PDIFF1).0 == Zeros(32)
  {
    var head, turn := [0, 0, 0, 0, 0xff, 0xff], WrappingTurn(U128_MAX);
    Pdiff1Head();
    forall v: nat, b: u8 | 256 * v + b < U128_MAX ensures turn(v, b) == (0, 256 * v + b) {
      SmallStep(v, b, U128_MAX);
    }
    SmallDigits(turn, head, U128_MAX);
    forall carry: nat ensures turn(carry, 0).0 == 0 {
      EvenIsLess(carry);
    }
    ZerosStay(turn, head, 26);
  }

  /** A number below the divisor has no quotient digit. */
  lemma {:induction false} SmallDigits(turn: Turning, n: Bytes, d: nat)
    requires Value(n) < d && forall v: nat, b: u8 :: 256 * v + b < d ==> turn(v, b) == (0, 256 * v + b)
    ensures Digits(turn, n) == (Zeros(|n|), Value(n))
    decreases |n|
  {
    if n != [] {
      var m, b := n[..|n| - 1], n[|n| - 1];
      assert n == m + [b];
      ValueSnoc(m, b);
      SmallDigits(turn, m, d);
      OneMoreTurn(turn, m, b);
      assert Zeros(|m|) + [0] == Zeros(|n|);
    }
  }

  lemma {:induction false} SmallStep(v: nat, b: u8, d: nat)
    requires 256 * v + b < d <= U128_MAX
    ensures v < d
    ensures var val := (v * 256 + b) % (U128_MAX + 1); val / d == 0 && val % d == 256 * v + b
  {
    DoesNotWrap(v * 256 + b);
    QuotientUnique(v * 256 + b, d, 0, v * 256 + b);
  }

  /** `hashrate_to_target_be`. */
  method HashrateToTargetBe(checked: bool, h: F32) returns (t: Option<Hash>)
    requires ValidF32(h)
    ensures t == HashrateTarget(checked, h)
  {
    var target := new u8[32](_ => 0);
    target[4] := 0xff;
    target[5] := 0xff;
    assert target[..] == PDIFF1;
    var ok, carry := LongDivide(target, Difficulty(h), checked);
    OverflowOnlyWhenSaturated(Difficulty(h));
    if !ok {
      return None;
    }
    t := Some(target[..]);
    if h.PosInf? {
      SaturatedIsZero();
    } else {
      Pdiff1Value();
      ValueBigEndian(target[..]);
    }
  }

  /** The number the long division leaves for a hashrate. */
  function HashrateValue(h: F32): nat
    requires ValidF32(h)
  {
    if h.PosInf? then 0 else PDIFF1_VALUE / Difficulty(h)
  }

  /** The target of a hashrate: undefined exactly for +inf in a checked build, otherwise
      the floor of pdiff1 / difficulty, which is 0 for +inf only. */
  lemma {:induction false} HashrateTargetMeaning(checked: bool, h: F32)
    requires ValidF32(h)
    ensures HashrateTarget(checked, h) == None <==> h == PosInf && checked
    ensures HashrateTarget(checked, h).Some? ==> Value(HashrateTarget(checked, h).value) == HashrateValue(h)
    ensures HashrateValue(h) == 0 <==> h == PosInf
  {
    if h != PosInf {
      QuotientInRange(Difficulty(h));
      BigEndianValue(PDIFF1_VALUE / Difficulty(h), 32);
    } else {
      ValueZeros(32);
    }
  }

  lemma {:induction false} QuotientInRange(d: nat)
    requires 1 <= d <= TWO_120
    ensures 0 < PDIFF1_VALUE / d < Pow256(32)
  {
    Pow256Large();
    QuotientAtLeast(PDIFF1_VALUE, d, 1);
    ProductGrows(Pow256(32), 1, d);
    QuotientLess(PDIFF1_VALUE, d, Pow256(32));
  }

  lemma {:induction false} QuotientAntitone(n: nat, d: nat, e: nat)
    requires 1 <= d <= e
    ensures n / e <= n / d
  {
    ProductGrows(n / e, d, e);
    QuotientAtLeast(n, d, n / e);
  }

  /** A miner that declares more never gets an easier target. */
  lemma {:induction false} HashrateTargetAntitone(checked: bool, slow: real, fast: real)
    requires slow <= fast && ValidF32(Finite(slow)) && ValidF32(Finite(fast))
    ensures HashrateTarget(checked, Finite(slow)).Some? && HashrateTarget(checked, Finite(fast)).Some?
    ensures Value(HashrateTarget(checked, Finite(fast)).value) <= Value(HashrateTarget(checked, Finite(slow)).value)
  {
    assert Difficulty(Finite(slow)) <= Difficulty(Finite(fast));
    HashrateTargetMeaning(checked, Finite(slow));
    HashrateTargetMeaning(checked, Finite(fast));
    QuotientAntitone(PDIFF1_VALUE, Difficulty(Finite(slow)), Difficulty(Finite(fast)));
  }

  // ── Compact bits ──────────────────────────────────────────────────────────

  function Shifted(m: nat, n: nat): nat {
    ProductNonNegative(m, Pow256(n));
    m * Pow256(n)
  }

  /** The number `nbits` stands for in the pool: exponents below 3 or above 32 give 0, and
      the sign bit is dropped. */
  function CompactValue(bits: u32): (v: nat) {
    var exp, mantissa := bits / 0x100_0000, bits % 0x80_0000;
    if 3 <= exp <= 32 then Shifted(mantissa, exp - 3) else 0
  }

  function CompactTarget(bits: u32): Hash {
    BigEndian(CompactValue(bits), 32)
  }

  lemma {:induction false} CompactTargetValue(bits: u32)
    ensures Value(CompactTarget(bits)) == CompactValue(bits)
  {
    var exp, mantissa := bits / 0x100_0000, bits % 0x80_0000;
    assert CompactValue(bits) < Pow256(32) by {
      if 3 <= exp <= 32 {
        ShiftedBound(mantissa, exp - 3);
      }
    }
    BigEndianValue(CompactValue(bits), 32);
  }

  lemma {:induction false} ShiftedBound(m: nat, n: nat)
    requires m < 0x100_0000 && n <= 29
    ensures Shifted(m, n) < Pow256(32)
  {
    Pow256Add(2, 1);
    Pow256Constants();
    Pow256Add(3, n);
    LessThanProduct(m, Pow256(3), Pow256(n));
    PowMonotone(n + 3, 32);
  }

  lemma {:induction false} LessThanProduct(m: nat, k: nat, p: nat)
    requires m < k && p >= 1
    ensures m * p < k * p
  {
    ProductGrows(p, m, k);
  }

  lemma {:induction false} PowMonotone(m: nat, n: nat)
    requires m <= n
    ensures Pow256(m) <= Pow256(n)
  {
    Pow256Add(m, n - m);
    ProductGrows(Pow256(m), 1, Pow256(n - m));
  }

  /** `compact_to_target_be`: three byte writes into a zeroed array. */
  method CompactToTargetBe(bits: u32) returns (t: Hash)
    ensures t == CompactTarget(bits)
  {
    var exp := bits / 0x100_0000;
    var mantissa := bits % 0x80_0000;
    var be := new u8[32](_ => 0);
    if 3 <= exp <= 32 {
      var i := 32 - exp;
      if i < 32 { be[i] := mantissa / 0x1_0000 % 0x100; }
      if i + 1 < 32 { be[i + 1] := mantissa / 0x100 % 0x100; }
      if i + 2 < 32 { be[i + 2] := mantissa % 0x100; }
      assert be[..] == Placed(i, mantissa);
    } else {
      assert be[..] == Zeros(32);
    }
    PlacedIsTarget(bits);
    t := be[..];
  }

  lemma {:induction false} PlacedIsTarget(bits: u32)
    ensures var exp, mantissa := bits / 0x100_0000, bits % 0x80_0000;
            CompactTarget(bits) == if 3 <= exp <= 32 then Placed(32 - exp, mantissa) else Zeros(32)
  {
    var exp, mantissa := bits / 0x100_0000, bits % 0x80_0000;
    if 3 <= exp <= 32 {
      PlacedValue(32 - exp, mantissa);
      ValueBigEndian(Placed(32 - exp, mantissa));
    } else {
      ValueZeros(32);
      ValueBigEndian(Zeros(32));
    }
  }

  function Placed(i: nat, mantissa: nat): Bytes
    requires i <= 29 && mantissa < 0x80_0000
  {
    Zeros(i) + [mantissa / 0x1_0000 % 0x100, mantissa / 0x100 % 0x100, mantissa % 0x100] + Zeros(29 - i)
  }

  lemma {:induction false} ThreeDigits(m: nat)
    requires m < 0x100_0000
    ensures (m / 0x1_0000 % 0x100 * 256 + m / 0x100 % 0x100) * 256 + m % 0x100 == m
  {
    assert m / 0x100 / 0x100 == m / 0x1_0000;
  }

  lemma {:induction false} ThreeBytes(m: nat)
    requires m < 0x80_0000
    ensures Value([m / 0x1_0000 % 0x100, m / 0x100 % 0x100, m % 0x100]) == m
  {
    var a, b, c := m / 0x1_0000 % 0x100, m / 0x100 % 0x100, m % 0x100;
    assert [a] + [b] == [a, b] && [a, b] + [c] == [a, b, c];
    SingleValue(a);
    ValueSnoc([a], b);
    ValueSnoc([a, b], c);
    ThreeDigits(m);
  }

  lemma {:induction false} PlacedValue(i: nat, mantissa: nat)
    requires i <= 29 && mantissa < 0x80_0000
    ensures Value(Placed(i, mantissa)) == Shifted(mantissa, 29 - i)
  {
    var digits := [mantissa / 0x1_0000 % 0x100, mantissa / 0x100 % 0x100, mantissa % 0x100];
    ThreeBytes(mantissa);
    ValueZeros(i);
    ValueZeros(29 - i);
    ValueConcat(Zeros(i), digits);
    assert 0 * Pow256(3) == 0;
    ValueConcat(Zeros(i) + digits, Zeros(29 - i));
  }

  /** `compact_to_target_hex`. */
  method CompactToTargetHex(bits: u32) returns (hex: Bytes)
    ensures hex == Hex(CompactTarget(bits))
  {
    var be := CompactToTargetBe(bits);
    hex := Hex(be);
  }

  predicate SignBit(bits: u32) {
    bits / 0x80_0000 % 2 == 1
  }

  /** Bitcoin's test for a number that does not fit 256 bits. */
  predicate TooWide(exp: nat, mantissa: nat) {
    mantissa != 0 && (exp > 34 || (mantissa > 0xff && exp > 33) || (mantissa > 0xffff && exp > 32))
  }

  /** Mantissa times 256^(exp-3), without the digits below the point. */
  function Magnitude(exp: nat, mantissa: nat): nat {
    if exp >= 3 then Shifted(mantissa, exp - 3) else Dropped(mantissa, 3 - exp)
  }

  /** The target compact bits stand for in Bitcoin: no target at all, here 0, for a number
      that is negative or does not fit. */
  function CompactMeaning(bits: u32): nat {
    var exp, mantissa := bits / 0x100_0000, bits % 0x80_0000;
    if SignBit(bits) || TooWide(exp, mantissa) then 0 else Magnitude(exp, mantissa)
  }

  /** `v` without its `n` lowest bytes. */
  function Dropped(v: nat, n: nat): nat
    decreases n
  {
    if n == 0 then v else Dropped(v / 256, n - 1)
  }

  /** Bits the pool gets wrong: a negative number it takes as positive, and positive numbers
      with an exponent below 3 or above 32 that it takes as 0. */
  predicate Misread(bits: u32) {
    var exp, mantissa := bits / 0x100_0000, bits % 0x80_0000;
    && mantissa != 0
    && if SignBit(bits) then 3 <= exp <= 32
       else (exp == 1 && mantissa >= 0x1_0000) || (exp == 2 && mantissa >= 0x100)
            || (exp == 33 && mantissa <= 0xffff) || (exp == 34 && mantissa <= 0xff)
  }

  lemma {:induction false} CompactExactWhen(bits: u32)
    ensures CompactValue(bits) == CompactMeaning(bits) <==> !Misread(bits)
  {
    MagnitudeZero(bits / 0x100_0000, bits % 0x80_0000);
  }

  lemma {:induction false} MagnitudeZero(exp: nat, mantissa: nat)
    requires mantissa < 0x80_0000
    ensures Magnitude(exp, mantissa) == 0
            <==> mantissa == 0 || exp == 0 || (exp == 1 && mantissa < 0x1_0000) || (exp == 2 && mantissa < 0x100)
  {
    if exp >= 3 {
      ShiftedZero(mantissa, exp - 3);
    } else {
      var d1 := mantissa / 256;
      var d2 := d1 / 256;
      var n := 3 - exp;
      assert Dropped(mantissa, n) == if n == 1 then d1 else if n == 2 then d2 else d2 / 256;
      assert d2 / 256 == 0;
    }
  }

  /** The test is the right one: it refuses exactly the numbers of more than 256 bits. */
  lemma {:induction false} TooWideExactly(exp: nat, mantissa: nat)
    requires mantissa < 0x80_0000
    ensures TooWide(exp, mantissa) <==> Magnitude(exp, mantissa) >= Pow256(32)
  {
    if exp < 3 {
      DroppedLess(mantissa, 3 - exp);
      ShiftedBound(mantissa, 0);
    } else if exp <= 32 {
      ShiftedBound(mantissa, exp - 3);
    } else {
      WideExactly(mantissa, exp);
    }
  }

  lemma {:induction false} WideExactly(m: nat, exp: nat)
    requires exp > 32
    ensures Shifted(m, exp - 3) >= Pow256(32) <==> m != 0 && (exp > 34 || (m > 0xff && exp > 33) || m > 0xffff)
  {
    Pow256Constants();
    var k := if exp == 33 then 2 else if exp == 34 then 1 else 0;
    if m == 0 {
      ShiftedZero(0, exp - 3);
    } else if m < Pow256(k) {
      FitsWithin(m, exp - 3, k);
    } else {
      Reaches(m, exp - 3, k);
    }
  }

  lemma {:induction false} DroppedLess(v: nat, n: nat)
    ensures Dropped(v, n) <= v
    decreases n
  {
    if n > 0 {
      DroppedLess(v / 256, n - 1);
    }
  }

  lemma {:induction false} FitsWithin(m: nat, n: nat, k: nat)
    requires m < Pow256(k) && n + k <= 32
    ensures Shifted(m, n) < Pow256(32)
  {
    Pow256Add(k, n);
    LessThanProduct(m, Pow256(k), Pow256(n));
    PowMonotone(n + k, 32);
  }

  lemma {:induction false} Reaches(m: nat, n: nat, k: nat)
    requires m >= Pow256(k) && n + k >= 32
    ensures Shifted(m, n) >= Pow256(32)
  {
    Pow256Add(k, n);
    if Pow256(k) < m {
      LessThanProduct(Pow256(k), m, Pow256(n));
    }
    PowMonotone(32, n + k);
  }

  lemma {:induction false} ShiftedZero(m: nat, n: nat)
    ensures Shifted(m, n) == 0 <==> m == 0
  {
    if m > 0 {
      ProductGrows(Pow256(n), 1, m);
    }
  }

  // ── Credited difficulty ───────────────────────────────────────────────────

  const PDIFF1_UPPER: real := 4294901760.0
  /** (2^53 - 1) * 2^971 */
  const F64_MAX: real :=
    9007199254740991.0
    * 17087896287367280659160173649356416916821636178853222159576332862577757806245124400183696695492608.0
    * 34175792574734561318320347298712833833643272357706444319152665725155515612490248800367393390985216.0
    * 34175792574734561318320347298712833833643272357706444319152665725155515612490248800367393390985216.0

  function Upper(hash: Hash): nat {
    Value(hash[..8])
  }

  /** `hash_to_difficulty`, over exact reals: it sees the top 64 bits only. */
  function HashToDifficulty(hash: Hash): real {
    if Upper(hash) == 0 then F64_MAX else PDIFF1_UPPER / Upper(hash) as real
  }

  lemma {:induction false} UpperSplit(hash: Hash)
    ensures Value(hash) == Upper(hash) * Pow256(24) + Value(hash[8..]) && Value(hash[8..]) < Pow256(24)
  {
    assert hash == hash[..8] + hash[8..];
    ValueConcat(hash[..8], hash[8..]);
    ValueBound(hash[8..]);
  }

  lemma {:induction false} UpperMonotone(a: Hash, b: Hash)
    requires Value(a) <= Value(b)
    ensures Upper(a) <= Upper(b)
  {
    UpperSplit(a);
    UpperSplit(b);
    if Upper(b) < Upper(a) {
      LeadingDigitDecides(Upper(b), Upper(a), Pow256(24), Value(b[8..]), Value(a[8..]));
    }
  }

  lemma {:induction false} RealProductGrows(d: real, a: real, b: real)
    requires a < b && d > 0.0
    ensures d * a < d * b
  {
    assert d * b == d * a + d * (b - a);
  }

  lemma {:induction false} RealQuotientAtLeast(n: real, x: real, q: real)
    requires x > 0.0 && q * x <= n
    ensures n / x >= q
  {
    assert q == q * x / x;
  }

  lemma {:induction false} DivideByMore(n: real, x: real, y: real)
    requires n >= 0.0 && 0.0 < x <= y
    ensures n / x >= n / y
  {
    if x < y && n > 0.0 {
      assert n / y > 0.0;
      RealProductGrows(n / y, x, y);
      RealQuotientAtLeast(n, x, n / y);
    }
  }

  /** A smaller hash is never credited with less. */
  lemma {:induction false} CreditAntitone(a: Hash, b: Hash)
    requires Value(a) <= Value(b)
    ensures HashToDifficulty(a) >= HashToDifficulty(b)
  {
    UpperMonotone(a, b);
    if Upper(b) > 0 {
      DivideByMore(PDIFF1_UPPER, if Upper(a) > 0 then Upper(a) as real else 1.0, Upper(b) as real);
    }
  }

  /** A share that meets the target of difficulty `d` is credited with at least `d`. */
  lemma {:induction false} CreditAtLeastDifficulty(hash: Hash, d: nat)
    requires 1 <= d <= TWO_120
    requires Value(hash) <= PDIFF1_VALUE / d
    ensures HashToDifficulty(hash) >= d as real
  {
    var u := Upper(hash);
    if u > 0 {
      assert d * u <= 0xffff_0000 by {
        UpperSplit(hash);
        Pow256Large();
        CreditBound(u, d, Pow256(24), Value(hash), PDIFF1_VALUE);
      }
      ProductAsReal(d, u);
      RealQuotientAtLeast(PDIFF1_UPPER, u as real, d as real);
    }
  }

  lemma {:induction false} RealQuotientBelow(n: real, x: real, q: real)
    requires x > 0.0 && n < q * x
    ensures n / x < q
  {
    assert q == q * x / x;
    if n / x >= q {
      assert n == n / x * x;
      if q < n / x {
        RealProductGrows(x, q, n / x);
      }
    }
  }

  /** Exactly how much: a hash whose top 64 bits are not all zero is credited with `q` or
      more if and only if q times those bits is at most 0xffff0000; any other hash with the
      largest 64-bit float. */
  lemma {:induction false} CreditExactly(hash: Hash, q: real)
    ensures Value(hash[..8]) > 0 ==> (HashToDifficulty(hash) >= q <==> q * Value(hash[..8]) as real <= 4294901760.0)
    ensures Value(hash[..8]) == 0 ==> HashToDifficulty(hash) == F64_MAX
  {
    var u := Value(hash[..8]);
    if u > 0 {
      if q * u as real <= 4294901760.0 {
        RealQuotientAtLeast(4294901760.0, u as real, q);
      } else {
        RealQuotientBelow(4294901760.0, u as real, q);
      }
    }
  }

  /** A hash clearly above the target of difficulty `d` is credited with less. */
  lemma {:induction false} CreditBelowDifficulty(hash: Hash, d: nat)
    requires d >= 1 && Value(hash) >= PDIFF1_VALUE / d + Pow256(24)
    ensures HashToDifficulty(hash) < d as real
  {
    UpperSplit(hash);
    Pow256Large();
    UpperAbove(Upper(hash), d, Pow256(24), Value(hash), PDIFF1_VALUE);
    CreditLess(hash, Upper(hash), d);
  }

  lemma {:induction false} CreditLess(hash: Hash, u: nat, d: nat)
    requires u == Upper(hash) && d * u > 0xffff_0000
    ensures HashToDifficulty(hash) < d as real
  {
    FactorNonZero(d, u);
    ProductAsReal(d, u);
    RealQuotientBelow(4294901760.0, u as real, d as real);
  }

  lemma {:induction false} FactorNonZero(d: nat, u: nat)
    requires d * u > 0
    ensures u > 0
  {
  }

  lemma {:induction false} NextMultiple(d: nat, q: nat)
    ensures d * (q + 1) == d * q + d
  {
  }

  lemma {:induction false} BelowMultiple(n: nat, d: nat, q: nat, w: nat)
    requires d >= 1 && q == n / d && q < w
    ensures n < d * w
  {
    QuotientAndRemainder(n, d);
    NextMultiple(d, q);
    ProductGrows(d, q + 1, w);
  }

  lemma {:induction false} FactorAbove(x: nat, k: nat, p: nat)
    requires p >= 1 && k * p < x * p
    ensures x > k
  {
    if x <= k {
      ProductGrows(p, x, k);
    }
  }

  lemma {:induction false} UpperAbove(u: nat, d: nat, p: nat, v: nat, n: nat)
    requires d >= 1 && p >= 1 && v < u * p + p && v >= n / d + p && n == 0xffff_0000 * p
    ensures d * u > 0xffff_0000
  {
    BelowMultiple(n, d, n / d, u * p);
    ProductAssociative(d, u, p);
    FactorAbove(d * u, 0xffff_0000, p);
  }

  lemma {:induction false} CreditBound(u: nat, d: nat, p: nat, v: nat, n: nat)
    requires d >= 1 && p >= 1 && u * p <= v <= n / d && n == 0xffff_0000 * p
    ensures d * u <= 0xffff_0000
  {
    ProductGrows(d, u * p, n / d);
    ProductAssociative(d, u, p);
    if d * u > 0xffff_0000 {
      ProductGrows(p, 0xffff_0000, d * u);
    }
  }

  // ── Share interval ────────────────────────────────────────────────────────

  /** Expected seconds between shares: a hash meets `t` with probability (t + 1) / 2^256. */
  function ExpectedInterval(t: Hash, hashrate: real): real
    requires hashrate > 0.0
  {
    Pow256(32) as real / hashrate / (Value(t) + 1) as real
  }

  /** Both floors together cost at most a factor of two: the 30 second interval stays
      between 15 and 30 * 65536/65535 seconds for every miner above difficulty 1. */
  lemma {:induction false} IntervalWithinTwo(checked: bool, r: real)
    requires ValidF32(Finite(r)) && r * SHARE_INTERVAL >= HASHES_AT_ONE
    ensures HashrateTarget(checked, Finite(r)).Some?
    ensures 15.0 < ExpectedInterval(HashrateTarget(checked, Finite(r)).value, r) < 30.0 * 65536.0 / 65535.0
  {
    var d, t := TargetFacts(checked, r);
    IntervalOfTarget(d, t, r);
  }

  lemma {:induction false} TargetFacts(checked: bool, r: real) returns (d: nat, t: Hash)
    requires ValidF32(Finite(r)) && r * SHARE_INTERVAL >= HASHES_AT_ONE
    ensures HashrateTarget(checked, Finite(r)) == Some(t)
    ensures 1 <= d <= TWO_120 && Value(t) == PDIFF1_VALUE / d
    ensures d as real <= r * 30.0 / 4294967296.0 < d as real + 1.0
  {
    HashrateTargetMeaning(checked, Finite(r));
    d, t := Difficulty(Finite(r)), HashrateTarget(checked, Finite(r)).value;
  }

  lemma {:induction false} IntervalOfTarget(d: nat, t: Hash, r: real)
    requires 1 <= d <= TWO_120 && Value(t) == PDIFF1_VALUE / d
    requires d as real <= r * 30.0 / 4294967296.0 < d as real + 1.0
    ensures r > 0.0 && 15.0 < ExpectedInterval(t, r) < 30.0 * 65536.0 / 65535.0
  {
    Pow256Large();
    IntervalOfQuotient(PDIFF1_VALUE, d, Value(t), Pow256(26), Pow256(32), r);
  }

  lemma {:induction false} IntervalOfQuotient(n: nat, d: nat, v: nat, k: nat, p: nat, r: real)
    requires 1 <= d <= k && n == 65535 * k && v == n / d && p == 281474976710656 * k
    requires d as real <= r * 30.0 / 4294967296.0 < d as real + 1.0
    ensures r > 0.0 && 15.0 < p as real / r / (v + 1) as real < 30.0 * 65536.0 / 65535.0
  {
    assert 65535 * k < d * (v + 1) <= 65536 * k by { assert d * (v + 1) == d * v + d; }
    IntervalOfBracket(d, v + 1, k, p, r);
  }

  lemma {:induction false} IntervalOfBracket(d: nat, w: nat, k: nat, p: nat, r: real)
    requires d >= 1 && w >= 1 && k >= 1
    requires 65535 * k < d * w <= 65536 * k && p == 281474976710656 * k
    requires d as real <= r * 30.0 / 4294967296.0 < d as real + 1.0
    ensures r > 0.0 && 15.0 < p as real / r / w as real < 30.0 * 65536.0 / 65535.0
  {
    assert 65535.0 * k as real < d as real * w as real <= 65536.0 * k as real by { RealBounds(d, w, k); }
    IntervalArithmetic(d as real, w as real, k as real, r);
  }

  lemma {:induction false} ProductAsReal(d: int, w: int)
    ensures (d * w) as real == d as real * w as real
  {
  }

  lemma {:induction false} RealBounds(d: nat, w: nat, k: nat)
    requires 0xffff * k < d * w <= 0x1_0000 * k
    ensures 65535.0 * k as real < d as real * w as real <= 65536.0 * k as real
  {
    ProductAsReal(d, w);
    var p := d * w;
    assert 65535.0 * k as real < p as real <= 65536.0 * k as real;
  }

  lemma {:induction false} IntervalArithmetic(d: real, w: real, k: real, r: real)
    requires d >= 1.0 && w >= 1.0 && k >= 1.0
    requires d <= r * 30.0 / 4294967296.0 < d + 1.0
    requires 65535.0 * k < d * w <= 65536.0 * k
    ensures r > 0.0 && 15.0 < 281474976710656.0 * k / r / w < 30.0 * 65536.0 / 65535.0
  {
    var x := r * 30.0 / 4294967296.0;
    if d < x {
      RealProductGrows(w, d, x);
    }
    RealProductGrows(w, x, 2.0 * d);
    assert w * (2.0 * d) == 2.0 * (d * w);
    var y := r * w;
    assert y * 30.0 / 4294967296.0 == w * x;
    assert 65535.0 * k < y * 30.0 / 4294967296.0 < 131072.0 * k;
    QuotientBetween(281474976710656.0 * k, y, 15.0, 30.0 * 65536.0 / 65535.0);
    DivideTwice(281474976710656.0 * k, r, w);
  }

  lemma {:induction false} QuotientBetween(n: real, y: real, lo: real, hi: real)
    requires y > 0.0 && lo * y < n < hi * y
    ensures lo < n / y < hi
  {
    assert lo == lo * y / y && hi == hi * y / y;
  }

  lemma {:induction false} DivideTwice(n: real, r: real, w: real)
    requires r > 0.0 && w > 0.0 && r * w > 0.0
    ensures n / r / w == n / (r * w)
  {
    var q := n / r / w;
    assert q * w == n / r;
    assert q * w * r == n;
    assert q * (r * w) == n;
    assert q == q * (r * w) / (r * w);
  }
}
