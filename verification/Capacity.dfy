/** Capacity arithmetic: rounding up to a block size in wrapping 64-bit integers, and the conversion of the
    result to a 32-bit float number of TiB. */
module Capacity {
  const TWO63 := 0x8000_0000_0000_0000
  const TWO64 := 0x1_0000_0000_0000_0000
  const TIB := 0x100_0000_0000
  const DEFAULT_SIZE := 4 * TIB
  const DEFAULT_BLOCK_TIB := 4

  newtype int64 = x: int | -0x8000_0000_0000_0000 <= x < 0x8000_0000_0000_0000

  /** The value of a sum or product in 64-bit two's complement. */
  function Wrap(x: int): int64
  {
    ((x + TWO63) % TWO64 - TWO63) as int64
  }

  lemma WrapInRange(x: int)
    requires -TWO63 <= x < TWO63
    ensures Wrap(x) as int == x
  {
  }

  /** Go's division: towards zero, wrapping for the one quotient that does not fit. */
  function Quot(a: int64, b: int64): int64
    requires b != 0
  {
    var x, y := a as int, b as int;
    if x >= 0 && y > 0 then Wrap(x / y)
    else if x >= 0 then Wrap(-(x / -y))
    else if y > 0 then Wrap(-(-x / y))
    else Wrap(-x / -y)
  }

  lemma QuotByPositive(a: int64, b: int64)
    requires b > 0
    ensures Quot(a, b) as int == if a >= 0 then a as int / b as int else -(-(a as int) / b as int)
  {
    var n := if a >= 0 then a as int else -(a as int);
    QuotientBound(n, b as int);
    hide Wrap;
    if a >= 0 {
      WrapInRange(n / b as int);
    } else {
      WrapInRange(-(n / b as int));
    }
  }

  lemma QuotientBound(n: nat, b: int)
    requires b > 0
    ensures 0 <= n / b <= n
  {
    var q := n / b;
    DivBounds(n, b);
    assert q >= 0;
    NonNegative(q, b - 1);
    assert q * b == q * (b - 1) + q;
  }

  /** The exact least multiple of b that is at least c. */
  function CeilMultiple(c: int, b: int): (r: int)
    requires c > 0 && b > 0
    ensures c <= r < c + b && r % b == 0
  {
    var q := (c + b - 1) / b;
    assert (q * b) % b == 0 by { MulMod(q, b); }
    assert c <= q * b < c + b by { DivBounds(c + b - 1, b); }
    q * b
  }

  lemma Sign(k: int, b: int)
    requires b > 0
    ensures k >= 1 ==> k * b >= b
    ensures k <= -1 ==> k * b <= -b
  {
    assert k >= 1 ==> (k - 1) * b >= 0;
    assert k <= -1 ==> (-1 - k) * b >= 0;
  }

  /** Quotient and remainder are determined. */
  lemma QuotientIs(a: int, b: int, q: int, m: int)
    requires b > 0 && a == q * b + m && 0 <= m < b
    ensures a / b == q && a % b == m
  {
    var d := a / b;
    assert a == d * b + a % b;
    assert (q - d) * b == q * b - d * b;
    Sign(q - d, b);
  }

  lemma MulMod(q: int, b: int)
    requires b > 0
    ensures (q * b) % b == 0 && (q * b) / b == q
  {
    QuotientIs(q * b, b, q, 0);
  }

  lemma DivBounds(a: int, b: int)
    requires b > 0
    ensures (a / b) * b <= a < (a / b) * b + b
  {
    assert a == (a / b) * b + a % b;
  }

  lemma CeilMultipleIsLeast(c: int, b: int, k: int)
    requires c > 0 && b > 0 && k * b >= c
    ensures k * b >= CeilMultiple(c, b)
  {
    var q := (c + b - 1) / b;
    DivBounds(c + b - 1, b);
    assert (q - k) * b == q * b - k * b;
    Sign(q - k, b);
  }

  /** roundUpSize: the number of allocation units, for positive arguments. */
  function RoundUpSize(size: int64, unit: int64): int64
    requires unit != 0
  {
    var q := Quot(size, unit);
    if Wrap(size as int - q as int * unit as int) > 0 then Wrap(q as int + 1) else q
  }

  datatype Rounding = Rounded(bytes: int64) | Overflow | AboveMaximum

  /** ((c + b - 1) / b) * b, as Go evaluates it. */
  function WrappedRounding(c: int64, b: int64): int64
    requires b != 0
  {
    var sum := Wrap(Wrap(c as int + b as int) as int - 1);
    Wrap(Quot(sum, b) as int * b as int)
  }

  /** roundToAmlfsBlockSize; both errors are InvalidArgument. */
  function RoundToBlock(capacity: int64, block: int64, maximum: int64): Rounding
  {
    var c := if capacity == 0 then DEFAULT_SIZE as int64 else capacity;
    var b := if block == 0 then (DEFAULT_BLOCK_TIB * TIB) as int64 else block;
    var rounded := WrappedRounding(c, b);
    if rounded < c then Overflow
    else if maximum > 0 && rounded > maximum then AboveMaximum
    else Rounded(rounded)
  }

  /** Wrapping rounding is sound. For every positive capacity and block: the overflow error occurs exactly
      when capacity + block - 1 does not fit, and otherwise the rounded value is the least multiple of the
      block that is at least the capacity; it is refused exactly when a positive maximum is below it. */
  lemma RoundingIsSound(capacity: int64, block: int64, maximum: int64)
    requires capacity > 0 && block > 0
    ensures var c, b := capacity as int, block as int;
            var r := RoundToBlock(capacity, block, maximum);
            && (r.Overflow? <==> c + b - 1 > TWO63 - 1)
            && (r.AboveMaximum? <==> c + b - 1 <= TWO63 - 1 && 0 < maximum as int < CeilMultiple(c, b))
            && (r.Rounded? ==> r.bytes as int == CeilMultiple(c, b))
  {
    if capacity as int + block as int - 1 < TWO63 {
      RoundingFits(capacity, block);
    } else {
      RoundingWraps(capacity, block);
    }
    hide WrappedRounding, CeilMultiple;
  }

  lemma RoundingFits(c: int64, b: int64)
    requires c > 0 && b > 0 && c as int + b as int - 1 < TWO63
    ensures WrappedRounding(c, b) as int == CeilMultiple(c as int, b as int)
  {
    var n := c as int + b as int - 1;
    WrappedSum(c as int, b as int);
    hide Wrap, Quot;
    QuotByPositive(n as int64, b);
    WrapInRange(CeilMultiple(c as int, b as int));
  }

  lemma RoundingWraps(c: int64, b: int64)
    requires c > 0 && b > 0 && c as int + b as int - 1 >= TWO63
    ensures WrappedRounding(c, b) <= 0
  {
    var n := c as int + b as int - 1 - TWO64;
    WrappedSum(c as int, b as int);
    hide Wrap, Quot;
    NegativeQuotient(n as int64, b);
    WrapInRange(Quot(n as int64, b) as int * b as int);
  }

  lemma WrappedSum(c: int, b: int)
    requires 0 < c < TWO63 && 0 < b < TWO63
    ensures Wrap(Wrap(c + b) as int - 1) as int == if c + b - 1 < TWO63 then c + b - 1 else c + b - 1 - TWO64
  {
  }

  lemma NegativeQuotient(a: int64, b: int64)
    requires a < 0 && b > 0
    ensures a as int <= Quot(a, b) as int * b as int <= 0
  {
    var n := -(a as int);
    QuotByPositive(a, b);
    DivBounds(n, b as int);
    assert n / b as int >= 0;
    assert (-(n / b as int)) * b as int == -((n / b as int) * b as int);
  }

  /** The same value is RoundUpSize times the block. */
  lemma RoundingMatchesRoundUpSize(capacity: int64, block: int64, maximum: int64)
    requires capacity > 0 && block > 0 && RoundToBlock(capacity, block, maximum).Rounded?
    ensures RoundToBlock(capacity, block, maximum).bytes as int == RoundUpSize(capacity, block) as int * block as int
  {
    RoundingIsSound(capacity, block, maximum);
    RoundUpSizeIsCeil(capacity, block);
  }

  lemma RoundUpSizeIsCeil(capacity: int64, block: int64)
    requires capacity > 0 && block > 0
    ensures RoundUpSize(capacity, block) as int * block as int == CeilMultiple(capacity as int, block as int)
  {
    RoundUpSizeUnits(capacity, block);
    CeilByUnits(capacity as int, block as int, capacity as int / block as int);
    hide RoundUpSize, CeilMultiple;
  }

  function Units(c: int, b: int, q: int): int
  {
    if c - q * b > 0 then q + 1 else q
  }

  lemma RoundUpSizeUnits(capacity: int64, block: int64)
    requires capacity > 0 && block > 0
    ensures RoundUpSize(capacity, block) as int == Units(capacity as int, block as int, capacity as int / block as int)
  {
    var c, b := capacity as int, block as int;
    var q := Quot(capacity, block) as int;
    QuotByPositive(capacity, block);
    assert q == c / b;
    RemainderFits(c, b, q);
    hide Quot, Wrap;
    assert Wrap(c - q * b) as int == c - q * b;
    assert c - q * b > 0 ==> Wrap(q + 1) as int == q + 1;
  }

  lemma RemainderFits(c: int, b: int, q: int)
    requires 0 < c < TWO63 && b > 0 && q == c / b
    ensures Wrap(c - q * b) as int == c - q * b
    ensures c - q * b > 0 ==> Wrap(q + 1) as int == q + 1
  {
    DivBounds(c, b);
    hide Wrap;
    assert q >= 0;
    UnitsFit(c, b, q);
    NonNegative(q, b);
    WrapInRange(c - q * b);
    if c - q * b > 0 {
      WrapInRange(q + 1);
    }
  }

  lemma CeilByUnits(c: int, b: int, q: int)
    requires c > 0 && b > 0 && q == c / b
    ensures Units(c, b, q) * b == CeilMultiple(c, b)
  {
    DivBounds(c, b);
    var units := Units(c, b, q);
    assert (q + 1) * b == q * b + b;
    assert c <= units * b < c + b;
    hide CeilMultiple, Units;
    MultipleInRange(units, CeilMultiple(c, b), c, b);
  }

  lemma UnitsFit(c: int, b: int, q: nat)
    requires 0 < c < TWO63 && b > 0 && q * b <= c
    ensures c - q * b > 0 ==> q + 1 < TWO63
  {
    if b >= 2 {
      NonNegative(q, b - 2);
      assert q * b == q * (b - 2) + 2 * q;
    } else {
      assert q * b == q;
    }
  }

  lemma NonNegative(x: nat, y: nat)
    ensures x * y >= 0
  {
  }

  /** There is one multiple of b in the range [c, c + b). */
  lemma MultipleInRange(i: int, y: int, c: int, b: int)
    requires b > 0 && y % b == 0
    requires c <= i * b < c + b && c <= y < c + b
    ensures i * b == y
  {
    var j := y / b;
    assert y == j * b;
    assert (i - j) * b == i * b - j * b;
    Sign(i - j, b);
  }

  /** The largest multiple of the block that an int64 holds. */
  function LastMultiple(b: int): (r: int)
    requires 0 < b < TWO63
    ensures r % b == 0 && 0 < r && r <= TWO63 - 1 < r + b
  {
    var q := (TWO63 - 1) / b;
    MulMod(q, b);
    DivBounds(TWO63 - 1, b);
    q * b
  }

  /** The rounded value fits exactly up to the last multiple of the block. */
  lemma FitsIff(c: int, b: int)
    requires 0 < c && 0 < b < TWO63
    ensures CeilMultiple(c, b) <= TWO63 - 1 <==> c <= LastMultiple(b)
  {
    hide CeilMultiple, LastMultiple;
    var last := LastMultiple(b);
    NextMultiple(last, CeilMultiple(c, b), b);
    if c <= last {
      assert last == (last / b) * b;
      CeilMultipleIsLeast(c, b, last / b);
    }
  }

  /** The capacities that are refused as overflow although their rounded value fits: those above 2^63 less the
      block, up to the last multiple of the block. */
  lemma SpuriousOverflowIff(capacity: int64, block: int64, maximum: int64)
    requires capacity > 0 && block > 0
    ensures var c, b := capacity as int, block as int;
            RoundToBlock(capacity, block, maximum).Overflow? && CeilMultiple(c, b) <= TWO63 - 1 <==>
            TWO63 - b < c <= LastMultiple(b)
  {
    hide RoundToBlock, CeilMultiple, LastMultiple;
    RoundingIsSound(capacity, block, maximum);
    FitsIff(capacity as int, block as int);
  }

  /** The overflow error means that the rounded value does not fit, for every capacity, exactly when the block
      divides 2^63, as the default one does. For any other block its last multiple is refused. */
  lemma OverflowIsExactIff(block: int64)
    requires block > 0
    ensures (forall capacity: int64, maximum: int64 | capacity > 0 ::
               RoundToBlock(capacity, block, maximum).Overflow? <==>
                 CeilMultiple(capacity as int, block as int) > TWO63 - 1)
            <==> TWO63 % block as int == 0
  {
    hide RoundToBlock, CeilMultiple, LastMultiple;
    var b := block as int;
    var last := LastMultiple(b);
    LastMultipleIs(b);
    forall capacity: int64, maximum: int64 | capacity > 0
      ensures RoundToBlock(capacity, block, maximum).Overflow? <==>
              CeilMultiple(capacity as int, b) > TWO63 - 1 || TWO63 - b < capacity as int <= last
    {
      RoundingIsSound(capacity, block, maximum);
      FitsIff(capacity as int, b);
    }
    if TWO63 % b != 0 {
      FitsIff(last, b);
      assert RoundToBlock(last as int64, block, 0).Overflow?;
    }
  }

  lemma LastMultipleIs(b: int)
    requires 0 < b < TWO63
    ensures LastMultiple(b) == TWO63 - b <==> TWO63 % b == 0
  {
    hide LastMultiple;
    var last := LastMultiple(b);
    var q := last / b;
    assert last == q * b && (q + 1) * b == q * b + b;
    if last == TWO63 - b {
      MulMod(q + 1, b);
    }
    if TWO63 % b == 0 {
      NextMultiple(last, TWO63, b);
    }
  }

  /** A multiple of b below another one is below it by at least b. */
  lemma NextMultiple(x: int, y: int, b: int)
    requires b > 0 && x % b == 0 && y % b == 0
    ensures x < y ==> x + b <= y
  {
    var i, j := x / b, y / b;
    assert x == i * b && y == j * b;
    assert (j - i) * b == j * b - i * b;
    Sign(j - i, b);
  }

  /** An amount of TiB in bytes, as Go multiplies it. */
  function TibToBytes(tib: int64): int64
  {
    Wrap(tib as int * TIB)
  }

  lemma TibToBytesExact(tib: int64)
    requires tib > 0
    ensures TibToBytes(tib) as int == tib as int * TIB <==> (tib as int) < 0x80_0000
  {
  }

  // ---- 32-bit floats ----

  /** The unit in the last place of a 24-bit significand for n: the least power of two with n / unit < 2^24. */
  function Ulp(n: nat): (u: nat)
    ensures u > 0
    decreases n
  {
    if n < 0x100_0000 then 1 else 2 * Ulp(n / 2)
  }

  lemma {:induction false} UlpIsLeast(n: nat)
    ensures n / Ulp(n) < 0x100_0000
    ensures Ulp(n) > 1 ==> Ulp(n) % 2 == 0 && n / (Ulp(n) / 2) >= 0x100_0000
    decreases n
  {
    if n >= 0x100_0000 {
      var u := Ulp(n / 2);
      UlpIsLeast(n / 2);
      HalfDiv(n, u);
      if u > 1 {
        HalfDiv(n, u / 2);
      }
    }
  }

  lemma HalfDiv(n: nat, u: nat)
    requires u > 0
    ensures n / (2 * u) == (n / 2) / u
  {
    var h := n / 2;
    var q, m := h / u, h % u;
    assert h == q * u + m;
    assert q * (2 * u) == 2 * (q * u);
    QuotientIs(n, 2 * u, q, 2 * m + n % 2);
  }

  /** float32 of a non-negative integer: round to nearest, ties to even, as an exact real. */
  function Float32(n: nat): real
  {
    var u := Ulp(n);
    var q, rest := n / u, n % u;
    var up := 2 * rest > u || (2 * rest == u && q % 2 == 1);
    ((if up then q + 1 else q) * u) as real
  }

  /** The conversion is exact precisely for the multiples of the unit in the last place. */
  lemma Float32Exact(n: nat)
    ensures Float32(n) == n as real <==> n % Ulp(n) == 0
  {
    var u := Ulp(n);
    var q, rest := n / u, n % u;
    assert n == q * u + rest;
    assert (q + 1) * u == q * u + u;
  }

  /** Powers of two: the unit in the last place divides every larger one. */
  predicate Power2(u: nat)
    decreases u
  {
    u == 1 || (u > 1 && u % 2 == 0 && Power2(u / 2))
  }

  lemma {:induction false} UlpIsPower2(n: nat)
    ensures Power2(Ulp(n))
    decreases n
  {
    if n >= 0x100_0000 {
      UlpIsPower2(n / 2);
      assert (2 * Ulp(n / 2)) / 2 == Ulp(n / 2);
    }
  }

  lemma {:induction false} SmallerPowerDivides(u: nat, v: nat)
    requires Power2(u) && Power2(v) && u <= v
    ensures v % u == 0
    decreases v
  {
    if u < v {
      if u <= v / 2 {
        SmallerPowerDivides(u, v / 2);
        var k := (v / 2) / u;
        assert v / 2 == k * u && v == (2 * k) * u;
        MulMod(2 * k, u);
      } else {
        SmallerThanHalf(u, v);
      }
    } else {
      assert v == 1 * u;
      MulMod(1, u);
    }
  }

  /** No power of two lies strictly between v / 2 and v. */
  lemma {:induction false} SmallerThanHalf(u: nat, v: nat)
    requires Power2(u) && Power2(v) && u < v
    ensures u <= v / 2
    decreases v
  {
    if u > 1 {
      SmallerThanHalf(u / 2, v / 2);
    }
  }

  lemma TibIsPower2()
    ensures Power2(TIB)
  {
    assert Power2(2) && Power2(4) && Power2(8) && Power2(16) && Power2(32) && Power2(64) && Power2(128) && Power2(256);
    assert Power2(512) && Power2(1024) && Power2(2048) && Power2(4096) && Power2(8192) && Power2(16384)
           && Power2(32768) && Power2(65536);
    assert Power2(131072) && Power2(262144) && Power2(524288) && Power2(1048576);
    assert Power2(0x20_0000) && Power2(0x40_0000) && Power2(0x80_0000) && Power2(0x100_0000);
    assert Power2(0x200_0000) && Power2(0x400_0000) && Power2(0x800_0000) && Power2(0x1000_0000);
    assert Power2(0x2000_0000) && Power2(0x4000_0000) && Power2(0x8000_0000) && Power2(0x1_0000_0000);
    assert Power2(0x2_0000_0000) && Power2(0x4_0000_0000) && Power2(0x8_0000_0000) && Power2(0x10_0000_0000);
    assert Power2(0x20_0000_0000) && Power2(0x40_0000_0000) && Power2(0x80_0000_0000) && Power2(0x100_0000_0000);
  }

  /** The capacity in TiB that CreateVolume hands to Azure: a float32 divided by 2^40. The quotient of a
      float32 by a power of two is exact. */
  function CapacityTib(bytes: int64): real
  {
    (if bytes >= 0 then Float32(bytes as int) else -Float32(-(bytes as int))) / TIB as real
  }

  /** Every int64 multiple of 2^40 is converted without rounding: the TiB value is the whole number. */
  lemma TibValueIsExact(bytes: int64)
    requires bytes >= 0 && bytes as int % TIB == 0
    ensures CapacityTib(bytes) == (bytes as int / TIB) as real
  {
    var n := bytes as nat;
    var u := Ulp(n);
    UlpIsPower2(n);
    TibIsPower2();
    UlpWithinTib(n, u);
    SmallerPowerDivides(u, TIB);
    MultipleOfMultiple(n, TIB, u);
    Float32Exact(n);
  }

  lemma MultipleOfMultiple(n: nat, t: nat, u: nat)
    requires t > 0 && u > 0 && n % t == 0 && t % u == 0
    ensures n % u == 0
  {
    var k, j := n / t, t / u;
    assert n == k * t && t == j * u;
    assert n == (k * j) * u;
    MulMod(k * j, u);
  }

  lemma UlpWithinTib(n: nat, u: nat)
    requires n < TWO63 && u == Ulp(n) && Power2(u) && Power2(TIB)
    ensures u <= TIB
  {
    if u > TIB {
      UlpIsLeast(n);
      SmallerThanHalf(TIB, u);
      DivBounds(n, u / 2);
      MulMono(0x100_0000, n / (u / 2), TIB, u / 2);
    }
  }

  lemma MulMono(a: nat, b: nat, c: nat, d: nat)
    requires a <= b && c <= d
    ensures a * c <= b * d
  {
    assert (b - a) * c >= 0;
    assert b * (d - c) >= 0;
  }
}
