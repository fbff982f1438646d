/** Reading an integer numeral back through a float64.

    Every number inside a `map[string]any` passes through a binary64 when it is decoded
    (section 6 of RFC 8259 leaves the precision to the receiver; section 4.3.1 of IEEE 754-2019
    defines round-to-nearest, ties to even). `getInt64` then converts it back to an integer. */
module Binary64 {
  const TWO52 := 0x10_0000_0000_0000
  const TWO53 := 0x20_0000_0000_0000
  const TWO63 := 0x8000_0000_0000_0000
  const MIN_INT64 := -TWO63

  /** The largest integer that is read back within the 64-bit range: above it, rounding reaches 2^63. */
  const LARGEST_READABLE := TWO63 - 513

  /** The spacing of the binary64 values around `a`, above 2^53. */
  function Ulp(a: nat): (u: nat)
    ensures u >= 1
    ensures a < TWO53 ==> u == 1
    ensures a >= TWO53 ==> TWO52 * u <= a < TWO53 * u
  {
    if a < TWO53 then 1 else 2 * Ulp(a / 2)
  }

  /** Whether `q` spacings and a remainder `r` round to the upper neighbour: ties go to the even one. */
  predicate RoundsUp(q: nat, r: nat, u: nat) {
    2 * r > u || (2 * r == u && q % 2 == 1)
  }

  function Nearest(a: nat): nat {
    var u := Ulp(a);
    var q, r := a / u, a % u;
    if RoundsUp(q, r, u) then q * u + u else q * u
  }

  /** Nearest binary64 to an integer, ties to even. */
  function Round(n: int): int {
    if n >= 0 then Nearest(n) else 0 - Nearest(-n)
  }

  /** `int64(float64(n))`; out of range the conversion yields the smallest int64, as on amd64. */
  function ReadInt64(n: int): int {
    var d := Round(n);
    if MIN_INT64 <= d < TWO63 then d else MIN_INT64
  }

  function Pow2(e: nat): (p: nat)
    ensures p >= 1
  {
    if e == 0 then 1 else 2 * Pow2(e - 1)
  }

  /** The integral binary64 values: a significand of at most 53 bits times a power of two. */
  ghost predicate IsDouble(x: int) {
    exists m: int, e: nat :: -TWO53 <= m <= TWO53 && x == Scaled(m, e)
  }

  function Scaled(m: int, e: nat): int {
    m * Pow2(e)
  }

  // ---------------------------------------------------------------- arithmetic helpers

  lemma Split(a: nat, u: nat)
    requires u >= 1
    ensures a == (a / u) * u + a % u && 0 <= a % u < u
  {
  }

  lemma MulMono(x: int, y: int, u: nat)
    requires x <= y
    ensures x * u <= y * u
  {
  }

  lemma MulAssoc(x: int, y: int, z: int)
    ensures (x * y) * z == x * (y * z)
  {
  }

  lemma DivOfMultiple(q: nat, u: nat)
    requires u >= 1
    ensures (q * u) / u == q && (q * u) % u == 0
  {
    Split(q * u, u);
    var d := (q * u) / u;
    assert (q - d) * u == (q * u) % u;
    if q - d >= 1 { MulMono(1, q - d, u); }
    if q - d <= -1 { MulMono(q - d, -1, u); }
  }

  lemma {:induction false} Pow2Sum(d: nat, e: nat)
    ensures Pow2(d + e) == Pow2(d) * Pow2(e)
  {
    if d > 0 { Pow2Sum(d - 1, e); }
  }

  /** The spacing is a power of two. */
  lemma {:induction false} UlpIsPower(a: nat) returns (e: nat)
    ensures Ulp(a) == Pow2(e)
    ensures e == 0 <==> a < TWO53
  {
    if a < TWO53 {
      e := 0;
    } else {
      e := UlpIsPower(a / 2);
      e := e + 1;
    }
  }

  /** Each binade has one spacing. */
  lemma {:induction false} UlpOfBinade(x: nat, e: nat)
    requires TWO52 * Pow2(e) <= x < TWO53 * Pow2(e)
    ensures Ulp(x) == Pow2(e)
  {
    if e > 0 { UlpOfBinade(x / 2, e - 1); }
  }

  lemma {:induction false} UlpMono(a: nat, b: nat)
    requires a <= b
    ensures Ulp(a) == Ulp(b) || 2 * Ulp(a) <= Ulp(b)
    decreases b
  {
    if a >= TWO53 { UlpMono(a / 2, b / 2); }
  }

  /** The grid position Nearest picks: one of the two neighbours of `a`, the closer one. */
  lemma NearestOnGrid(a: nat) returns (q: nat)
    ensures Nearest(a) == q * Ulp(a)
    ensures q == a / Ulp(a) || q == a / Ulp(a) + 1
    ensures a >= TWO53 ==> TWO52 <= q <= TWO53 && TWO52 <= a / Ulp(a) < TWO53
    ensures a < TWO53 ==> q == a
    ensures a - Nearest(a) == a % Ulp(a) <= Ulp(a) - a % Ulp(a)
         || Nearest(a) - a == Ulp(a) - a % Ulp(a) <= a % Ulp(a)
  {
    var u := Ulp(a);
    var f := a / u;
    Split(a, u);
    q := if RoundsUp(f, a % u, u) then f + 1 else f;
    if a >= TWO53 { FloorInBinade(a, f, a % u, u, f * u); }
    assert (f + 1) * u == f * u + u;
  }

  lemma FloorInBinade(a: nat, f: nat, r: nat, u: nat, fu: nat)
    requires TWO52 * u <= a < TWO53 * u && fu == f * u && a == fu + r && r < u
    ensures TWO52 <= f < TWO53
  {
    Neighbours(TWO52, f, u);
    Neighbours(f, TWO52, u);
    Neighbours(f, TWO53, u);
    Neighbours(TWO53, f, u);
  }

  // ---------------------------------------------------------------- main results

  /** Integers of magnitude at most 2^53 survive. */
  lemma SmallSurvives(n: int)
    requires -TWO53 <= n <= TWO53
    ensures Round(n) == n && ReadInt64(n) == n
  {
    var a := if n >= 0 then n else -n;
    var q := NearestOnGrid(a);
    if a == TWO53 {
      UlpOfBinade(a, 1);
      assert Ulp(a) == 2 * Pow2(0) == 2;
      assert a / 2 == TWO52 && a % 2 == 0;
    }
  }

  lemma MultipleIsFixed(x: nat)
    requires x % Ulp(x) == 0
    ensures Nearest(x) == x
  {
    hide Ulp;
    Split(x, Ulp(x));
  }

  /** A grid point of a binade rounds to itself. */
  lemma GridPointIsFixed(x: nat, q: nat, e: nat)
    requires TWO52 <= q < TWO53 && x == q * Pow2(e)
    ensures Nearest(x) == x
  {
    hide Nearest;
    var u := Pow2(e);
    MulMono(TWO52, q, u);
    Neighbours(q, TWO53, u);
    UlpOfBinade(x, e);
    DivOfMultiple(q, u);
    MultipleIsFixed(x);
  }

  /** A rounded value is a binary64 and rounds to itself. */
  lemma NearestIsDouble(a: nat)
    ensures IsDouble(Nearest(a))
    ensures Nearest(Nearest(a)) == Nearest(a)
  {
    hide Nearest;
    var q := NearestOnGrid(a);
    var e := UlpIsPower(a);
    assert Nearest(a) == Scaled(q, e);
    if a < TWO53 {
      assert e == 0 && Nearest(a) == a;
    } else if q < TWO53 {
      GridPointIsFixed(Nearest(a), q, e);
    } else {
      assert Pow2(e + 1) == 2 * Pow2(e);
      GridPointIsFixed(Nearest(a), TWO52, e + 1);
    }
  }

  /** Where the multiples of u lie around one of them. */
  lemma Neighbours(f: int, k: int, u: nat)
    ensures k <= f ==> k * u <= f * u
    ensures k > f ==> k * u >= f * u + u
  {
    if k <= f {
      MulMono(k, f, u);
    } else {
      MulMono(f + 1, k, u);
      assert (f + 1) * u == f * u + u;
    }
  }

  /** Rounding preserves order. */
  lemma NearestMono(a: nat, b: nat)
    requires a <= b
    ensures Nearest(a) <= Nearest(b)
  {
    UlpMono(a, b);
    if Ulp(a) == Ulp(b) {
      SameSpacingMono(a, b, Ulp(a));
    } else {
      var p := NearestOnGrid(a);
      var q := NearestOnGrid(b);
      var u, v := Ulp(a), Ulp(b);
      Neighbours(TWO53, p, u);
      Neighbours(TWO52, q, v);
    }
  }

  lemma SameSpacingMono(a: nat, b: nat, u: nat)
    requires a <= b && u == Ulp(a) == Ulp(b)
    ensures Nearest(a) <= Nearest(b)
  {
    var f, g := a / u, b / u;
    Split(a, u);
    Split(b, u);
    Neighbours(g, f, u);
    var p := NearestOnGrid(a);
    var q := NearestOnGrid(b);
    if f < g {
      Neighbours(q, p, u);
    } else {
      assert f == g && a % u <= b % u;
      assert p * u <= q * u by {
        assert Nearest(a) == (if RoundsUp(f, a % u, u) then f * u + u else f * u);
        assert Nearest(b) == (if RoundsUp(f, b % u, u) then f * u + u else f * u);
      }
    }
  }

  /** A multiple of the spacing is never closer than the value Nearest picks. */
  lemma GridIsNoCloser(a: nat, k: int, ku: int)
    requires ku == k * Ulp(a)
    ensures Abs(Nearest(a) - a) <= Abs(ku - a)
  {
    var q := NearestOnGrid(a);
    Split(a, Ulp(a));
    Neighbours(a / Ulp(a), k, Ulp(a));
  }

  function Abs(x: int): nat { if x >= 0 then x else -x }

  /** Nothing representable is closer to `a` than Nearest(a). */
  lemma NearestIsClosest(a: nat, y: int)
    requires IsDouble(y)
    ensures Abs(Nearest(a) - a) <= Abs(y - a)
  {
    var q := NearestOnGrid(a);
    if a >= TWO53 {
      var u := Ulp(a);
      var e := UlpIsPower(a);
      if y < TWO52 * u {
        GridIsNoCloser(a, TWO52, TWO52 * u);
      } else if y > TWO53 * u {
        GridIsNoCloser(a, TWO53, TWO53 * u);
      } else {
        var k := InBinadeIsGrid(y, e);
        GridIsNoCloser(a, k, y);
      }
    }
  }

  /** A binary64 inside a binade is a multiple of the binade's spacing. */
  lemma InBinadeIsGrid(y: int, e: nat) returns (k: int)
    requires IsDouble(y) && TWO52 * Pow2(e) <= y <= TWO53 * Pow2(e)
    ensures y == k * Pow2(e)
  {
    var m: int, d: nat :| -TWO53 <= m <= TWO53 && y == Scaled(m, d);
    if d >= e {
      Pow2Sum(d - e, e);
      k := m * Pow2(d - e);
      MulAssoc(m, Pow2(d - e), Pow2(e));
    } else {
      Pow2Sum(e - d, d);
      var s := Pow2(e - d);
      assert s == 2 * Pow2(e - d - 1);
      MulAssoc(TWO52, s, Pow2(d));
      Neighbours(m, TWO52 * s, Pow2(d));
      assert m == TWO52 * s;
      k := TWO52;
    }
  }

  /** Of two binary64 values equally close to `a`, Nearest picks the one with the even significand. */
  lemma NearestTiesToEven(a: nat, y: int) returns (m: int, e: nat)
    requires IsDouble(y) && y != Nearest(a) && Abs(y - a) == Abs(Nearest(a) - a)
    ensures m % 2 == 0 && 0 <= m <= TWO53 && Nearest(a) == Scaled(m, e)
    ensures y == Scaled(m + 1, e) || y == Scaled(m - 1, e)
  {
    var q := NearestOnGrid(a);
    e := UlpIsPower(a);
    m := q;
    if a >= TWO53 {
      var u := Ulp(a);
      if y < TWO52 * u { GridIsNoCloser(a, TWO52, TWO52 * u); }
      if y > TWO53 * u { GridIsNoCloser(a, TWO53, TWO53 * u); }
      var k := InBinadeIsGrid(y, e);
      OtherNeighbour(a, k, q, u, y);
    }
  }

  lemma OtherNeighbour(a: nat, k: int, q: nat, u: nat, y: int)
    requires u == Ulp(a) && y == k * u && Nearest(a) == q * u && (q == a / u || q == a / u + 1)
    requires q == if RoundsUp(a / u, a % u, u) then a / u + 1 else a / u
    requires y != Nearest(a) && Abs(y - a) == Abs(Nearest(a) - a)
    ensures q % 2 == 0 && (k == q + 1 || k == q - 1)
  {
    hide Nearest, Ulp;
    var f := a / u;
    Split(a, u);
    assert (f + 1) * u == f * u + u;
    Neighbours(f, k, u);
    Neighbours(f - 1, k, u);
    Neighbours(f + 1, k, u);
    EvenOne(a, f, a % u, u, f * u, k, y, q);
  }

  lemma EvenOne(a: nat, f: nat, r: nat, u: nat, fu: int, k: int, y: int, q: nat)
    requires a == fu + r && r < u && q == if RoundsUp(f, r, u) then f + 1 else f
    requires k < f ==> y <= fu - u
    requires k == f ==> y == fu
    requires k == f + 1 ==> y == fu + u
    requires k > f + 1 ==> y >= fu + 2 * u
    requires var n := if q == f then fu else fu + u; y != n && Abs(y - a) == Abs(n - a)
    ensures q % 2 == 0 && (k == q + 1 || k == q - 1)
  {
  }

  /** Round is the nearest binary64, for both signs. */
  lemma RoundIsNearestDouble(n: int, y: int)
    requires IsDouble(y)
    ensures IsDouble(Round(n))
    ensures Abs(Round(n) - n) <= Abs(y - n)
    ensures IsDouble(n) ==> Round(n) == n
  {
    var a := Abs(n);
    NearestIsDouble(a);
    DoubleNegates(Nearest(a));
    DoubleNegates(y);
    NearestIsClosest(a, if n >= 0 then y else -y);
    if IsDouble(n) {
      DoubleNegates(n);
      NearestIsClosest(a, a);
    }
  }

  /** Ties go to the even significand, for both signs. */
  lemma TiesGoToEven(n: int, y: int) returns (m: int, e: nat)
    requires IsDouble(y) && y != Round(n) && Abs(y - n) == Abs(Round(n) - n)
    ensures m % 2 == 0 && -TWO53 <= m <= TWO53 && Round(n) == Scaled(m, e)
    ensures y == Scaled(m + 1, e) || y == Scaled(m - 1, e)
  {
    hide Nearest;
    DoubleNegates(y);
    m, e := NearestTiesToEven(Abs(n), if n >= 0 then y else -y);
    if n < 0 {
      ScaledNegates(m, e);
      ScaledNegates(m + 1, e);
      ScaledNegates(m - 1, e);
      m := -m;
    }
  }

  lemma ScaledNegates(m: int, e: nat)
    ensures Scaled(-m, e) == -Scaled(m, e)
  {
  }

  lemma DoubleNegates(x: int)
    ensures IsDouble(x) <==> IsDouble(-x)
  {
    if IsDouble(x) {
      var m: int, e: nat :| -TWO53 <= m <= TWO53 && x == Scaled(m, e);
      assert -x == Scaled(-m, e);
    }
    if IsDouble(-x) {
      var m: int, e: nat :| -TWO53 <= m <= TWO53 && -x == Scaled(m, e);
      assert x == Scaled(-m, e);
    }
  }

  lemma RoundMono(a: int, b: int)
    requires a <= b
    ensures Round(a) <= Round(b)
  {
    if a >= 0 { NearestMono(a, b); }
    else if b < 0 { NearestMono(-b, -a); }
  }

  /** The integers a binary64 can be are those that rounding leaves alone. */
  lemma DoublesAreFixed(n: int)
    ensures IsDouble(Round(n))
    ensures Round(n) == n <==> IsDouble(n)
  {
    hide Nearest, IsDouble;
    NearestIsDouble(Abs(n));
    DoubleNegates(Nearest(Abs(n)));
    RoundIsNearestDouble(n, Round(n));
  }

  /** A second pass through the copy changes no reading, whatever the numeral. */
  lemma ReadIsIdempotent(n: int)
    ensures ReadInt64(ReadInt64(n)) == ReadInt64(n)
  {
    hide Nearest, Pow2;
    NearestIsDouble(Abs(n));
    MinInt64IsFixed();
  }

  lemma MinInt64IsFixed()
    ensures ReadInt64(MIN_INT64) == MIN_INT64
  {
    Pow2Sum(10, 1);
    assert Pow2(11) == 2048 by {
      assert Pow2(4) == 16; assert Pow2(8) == 256; assert Pow2(11) == 2048;
    }
    UlpOfBinade(TWO63, 11);
    assert TWO63 / 2048 == TWO52 && TWO63 % 2048 == 0;
  }

  lemma TopRoundings()
    ensures Round(LARGEST_READABLE) == TWO63 - 1024
    ensures Round(LARGEST_READABLE + 1) == TWO63
  {
    assert Pow2(10) == 1024 by { assert Pow2(4) == 16; assert Pow2(8) == 256; }
    UlpOfBinade(LARGEST_READABLE, 10);
    UlpOfBinade(LARGEST_READABLE + 1, 10);
    assert LARGEST_READABLE / 1024 == TWO53 - 1 && LARGEST_READABLE % 1024 == 511;
    assert (LARGEST_READABLE + 1) / 1024 == TWO53 - 1 && (LARGEST_READABLE + 1) % 1024 == 512;
  }

  /** Beyond the largest readable integer every reading is the smallest int64; up to it, none is
      above 2^63 - 1024. */
  lemma ReadableExactly(n: int)
    ensures n <= LARGEST_READABLE ==> Round(n) <= TWO63 - 1024 && ReadInt64(n) <= TWO63 - 1024
    ensures n > LARGEST_READABLE ==> Round(n) >= TWO63 && ReadInt64(n) == MIN_INT64
  {
    hide Round;
    TopRoundings();
    if n <= LARGEST_READABLE { RoundMono(n, LARGEST_READABLE); } else { RoundMono(LARGEST_READABLE + 1, n); }
  }

  lemma ReadIsMonotone(a: int, b: int)
    requires a <= b <= LARGEST_READABLE
    ensures ReadInt64(a) <= ReadInt64(b)
  {
    hide Round;
    ReadableExactly(a);
    ReadableExactly(b);
    RoundMono(a, b);
  }

  /** Reading keeps the order of the integers below b exactly up to the largest readable one. */
  lemma OrderKeptExactly(b: int)
    ensures (forall a :: a <= b ==> ReadInt64(a) <= ReadInt64(b)) <==> b <= LARGEST_READABLE
  {
    hide Round;
    if b <= LARGEST_READABLE {
      forall a | a <= b ensures ReadInt64(a) <= ReadInt64(b) { ReadIsMonotone(a, b); }
    } else {
      ReadableExactly(b);
      SmallSurvives(0);
      assert ReadInt64(0) > ReadInt64(b);
    }
  }

  /** One more than an integer that survives reads back at or above it, and as the same integer
      exactly from 2^54 on, or from 2^53 on when four divides it. */
  lemma SuccessorReading(top: nat)
    requires ReadInt64(top) == top
    ensures top + 1 <= LARGEST_READABLE && ReadInt64(top + 1) >= top
    ensures ReadInt64(top + 1) == top <==> top >= 2 * TWO53 || (top >= TWO53 && top % 4 == 0)
  {
    ReadableExactly(top);
    ReadIsMonotone(top, top + 1);
    ReadableExactly(top + 1);
    if top < TWO53 { SmallSurvives(top + 1); } else { SuccessorInBinade(top); }
  }

  /** From 2^53 on, the two successors of a surviving integer never give two new readings. */
  lemma TwoSuccessors(top: nat)
    requires ReadInt64(top) == top && top >= TWO53
    ensures ReadInt64(top + 1) == top || ReadInt64(top + 1) == ReadInt64(top + 2)
  {
    SuccessorReading(top);
    if top < 2 * TWO53 && top % 4 != 0 { OddTie(top); }
  }

  lemma OddTie(top: nat)
    requires TWO53 <= top < 2 * TWO53 && Nearest(top) == top && top % 4 != 0
    ensures Nearest(top + 1) == top + 2 && Nearest(top + 2) == top + 2
  {
    assert Pow2(1) == 2 * Pow2(0) == 2;
    UlpOfBinade(top, 1);
    assert top % 2 == 0;
    UlpOfBinade(top + 1, 1);
    assert (top + 1) / 2 == top / 2 && (top + 1) % 2 == 1 && (top / 2) % 2 == 1;
    if top + 2 == 2 * TWO53 {
      assert Pow2(2) == 2 * Pow2(1);
      UlpOfBinade(top + 2, 2);
    } else {
      UlpOfBinade(top + 2, 1);
    }
    MultipleIsFixed(top + 2);
  }

  lemma SuccessorInBinade(top: nat)
    requires top >= TWO53 && Nearest(top) == top
    ensures Nearest(top + 1) == top <==> top >= 2 * TWO53 || top % 4 == 0
  {
    hide Nearest;
    var q := NearestOnGrid(top);
    var e := UlpIsPower(top);
    var u := Ulp(top);
    assert top % u == 0 && q < TWO53;
    Split(top, u);
    Neighbours(q, TWO53, u);
    UlpOfBinade(top + 1, e);
    SuccessorOnGrid(top, q, u);
    if e == 1 {
      assert Pow2(1) == 2 * Pow2(0) == 2;
    } else {
      assert Pow2(e) == 2 * Pow2(e - 1) && Pow2(e - 1) == 2 * Pow2(e - 2);
    }
  }

  lemma SuccessorOnGrid(top: nat, q: nat, u: nat)
    requires top == q * u && u == Ulp(top + 1) && u >= 2
    ensures Nearest(top + 1) == top <==> u > 2 || q % 2 == 0
  {
    DivOfMultiple(q, u);
    Split(top + 1, u);
    var d := (top + 1) / u;
    Neighbours(q, d, u);
    Neighbours(d, q, u);
    assert d == q && (top + 1) % u == 1;
  }

  /** Distinct ids of magnitude at most 2^53 stay distinct; the next integer already merges. */
  lemma MergeBoundary()
    ensures forall a: int, b: int :: -TWO53 <= a <= TWO53 && -TWO53 <= b <= TWO53 && a != b
              ==> ReadInt64(a) != ReadInt64(b)
    ensures ReadInt64(TWO53 + 1) == ReadInt64(TWO53)
  {
    forall a: int | -TWO53 <= a <= TWO53 ensures ReadInt64(a) == a { SmallSurvives(a); }
    UlpOfBinade(TWO53 + 1, 1);
    assert Ulp(TWO53 + 1) == 2 * Pow2(0) == 2;
    assert (TWO53 + 1) / 2 == TWO52 && (TWO53 + 1) % 2 == 1;
  }
}
