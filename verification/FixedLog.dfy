/** The integer logarithm the weighted scores are made of (internal/allocator/placement.go, log2Fixed). */
module FixedLog {

  const TWO32: int := 0x1_0000_0000
  const TWO62: int := 0x4000_0000_0000_0000
  const TWO63: int := 0x8000_0000_0000_0000
  const TWO64: int := 0x1_0000_0000_0000_0000

  // An unsigned machine word: every value stored in one is proved to fit.
  type U64 = x: int | 0 <= x < 0x1_0000_0000_0000_0000

  function Pow2(n: nat): (p: nat)
    ensures p > 0
  {
    if n == 0 then 1 else 2 * Pow2(n - 1)
  }

  ghost function RPow2(n: nat): (p: real)
    ensures p > 0.0
  {
    if n == 0 then 1.0 else 2.0 * RPow2(n - 1)
  }

  function Pow3(n: nat): (p: nat)
    ensures p > 0
  {
    if n == 0 then 1 else 3 * Pow3(n - 1)
  }

  /** x to the power 2^k. */
  ghost function Squarings(x: real, k: nat): real
    decreases k
  {
    if k == 0 then x else Square(Squarings(x, k - 1))
  }

  ghost function Square(x: real): real {
    x * x
  }

  /** The place of the highest bit set. */
  function FloorLog(v: nat): (n: nat)
    requires v >= 1
  {
    if v == 1 then 0 else 1 + FloorLog(v / 2)
  }

  /** v / 2^n with 62 bits of fraction. */
  function Normal(v: nat, n: nat): nat
    requires n <= 63
  {
    if n <= 62 then v * Pow2(62 - n) else v / 2
  }

  /** The next k bits of the fraction: each by squaring what is left, rounded down. */
  function Fraction(y: nat, k: nat): nat
    decreases k
  {
    if k == 0 then 0 else
      var s := y * y / TWO62;
      if s >= TWO63 then Pow2(k - 1) + Fraction(s / 2, k - 1) else Fraction(s, k - 1)
  }

  /** log2 v in fixed point with k bits of fraction, as the loop computes it. */
  function LogBits(v: nat, k: nat): nat
    requires 1 <= v <= TWO63
  {
    FloorLogAtMost63(v);
    ProductMonotone(0, FloorLog(v), Pow2(k));
    FloorLog(v) * Pow2(k) + Fraction(Normal(v, FloorLog(v)), k)
  }

  lemma {:induction false} Pow2Add(a: nat, b: nat)
    ensures Pow2(a + b) == Pow2(a) * Pow2(b)
  {
    if a != 0 {
      Pow2Add(a - 1, b);
    }
  }

  lemma {:induction false} Pow2Monotone(a: nat, b: nat)
    requires a <= b
    ensures Pow2(a) <= Pow2(b)
  {
    if a < b {
      Pow2Monotone(a, b - 1);
    }
  }

  lemma Pow2Plus8(n: nat)
    ensures Pow2(n + 8) == 256 * Pow2(n)
  {
    assert Pow2(n + 2) == 2 * Pow2(n + 1) == 4 * Pow2(n);
    assert Pow2(n + 4) == 2 * Pow2(n + 3) == 4 * Pow2(n + 2);
    assert Pow2(n + 6) == 2 * Pow2(n + 5) == 4 * Pow2(n + 4);
    assert Pow2(n + 8) == 2 * Pow2(n + 7) == 4 * Pow2(n + 6);
  }

  lemma Pow2At()
    ensures Pow2(32) == TWO32 && Pow2(62) == TWO62 && Pow2(63) == TWO63 && Pow2(64) == TWO64
  {
    Pow2Plus8(0);
    Pow2Plus8(8);
    Pow2Plus8(16);
    Pow2Plus8(24);
    Pow2Plus8(32);
    Pow2Plus8(40);
    Pow2Plus8(48);
    Pow2Plus8(56);
    assert Pow2(64) == 2 * Pow2(63);
    assert Pow2(63) == 2 * Pow2(62);
  }

  lemma {:induction false} FloorLogBounds(v: nat)
    requires v >= 1
    ensures Pow2(FloorLog(v)) <= v < Pow2(FloorLog(v) + 1)
  {
    if v > 1 {
      FloorLogBounds(v / 2);
    }
  }

  lemma FloorLogAtMost63(v: nat)
    requires 1 <= v <= TWO63
    ensures FloorLog(v) <= 63
    ensures FloorLog(v) == 63 <==> v == TWO63
  {
    var n := FloorLog(v);
    FloorLogBounds(v);
    Pow2At();
    if n > 63 {
      Pow2Monotone(64, n);
    }
    if n < 63 {
      Pow2Monotone(n + 1, 63);
    }
  }

  lemma NormalInRange(v: nat)
    requires 1 <= v <= TWO63
    ensures FloorLog(v) <= 63
    ensures TWO62 <= Normal(v, FloorLog(v)) < TWO63
    ensures FloorLog(v) == 63 ==> Normal(v, FloorLog(v)) == TWO62
  {
    var n := FloorLogOf(v);
    if n <= 62 {
      NormalAt(v, n);
    }
  }

  lemma FloorLogOf(v: nat) returns (n: nat)
    requires 1 <= v <= TWO63
    ensures n == FloorLog(v) <= 63 && Pow2(n) <= v < Pow2(n + 1) && (n == 63 <==> v == TWO63)
  {
    FloorLogBounds(v);
    FloorLogAtMost63(v);
    n := FloorLog(v);
  }

  lemma NormalAt(v: nat, n: nat)
    requires n <= 62 && Pow2(n) <= v < Pow2(n + 1)
    ensures TWO62 <= v * Pow2(62 - n) < TWO63
  {
    var low, high, p := PowersTo62(n);
    ShiftInRange(v, low, high, p);
  }

  lemma PowersTo62(n: nat) returns (low: nat, high: nat, p: nat)
    requires n <= 62
    ensures low == Pow2(n) && high == Pow2(n + 1) && p == Pow2(62 - n) > 0
    ensures low * p == TWO62 && high * p == TWO63
  {
    Pow2Add(n, 62 - n);
    Pow2Add(n + 1, 62 - n);
    Pow2At();
    low, high, p := Pow2(n), Pow2(n + 1), Pow2(62 - n);
  }

  lemma ShiftInRange(v: nat, low: nat, high: nat, p: nat)
    requires low <= v < high && p > 0 && low * p == TWO62 && high * p == TWO63
    ensures TWO62 <= v * p < TWO63
  {
    ProductMonotone(low, v, p);
    ProductMonotone(v + 1, high, p);
    assert (v + 1) * p == v * p + p;
  }

  lemma ProductMonotone(a: int, b: int, c: int)
    requires a <= b && c >= 0
    ensures a * c <= b * c
  {
  }

  /** One squaring keeps y in [1, 2), rounds down, and loses less than one unit. */
  lemma SquareStep(y: nat)
    requires TWO62 <= y < TWO63
    ensures var s := y * y / TWO62;
            && TWO62 <= s < TWO64
            && s * TWO62 <= y * y < (s + 1) * TWO62
            && (s >= TWO63 ==> TWO62 <= s / 2 < TWO63)
  {
    ProductMonotone(TWO62, y, y);
    ProductMonotone(TWO62, y, TWO62);
    ProductMonotone(y, TWO63 - 1, y);
    ProductMonotone(y, TWO63 - 1, TWO63 - 1);
  }

  lemma {:induction false} FractionBelow(y: nat, k: nat)
    requires TWO62 <= y < TWO63
    ensures Fraction(y, k) < Pow2(k)
    decreases k
  {
    if k > 0 {
      SquareStep(y);
      var s := y * y / TWO62;
      FractionBelow(if s >= TWO63 then s / 2 else s, k - 1);
    }
  }

  lemma {:induction false} FractionMonotone(y: nat, z: nat, k: nat)
    requires TWO62 <= y <= z < TWO63
    ensures Fraction(y, k) <= Fraction(z, k)
    decreases k
  {
    if k > 0 {
      SquareStep(y);
      SquareStep(z);
      ProductMonotone(y, z, y);
      ProductMonotone(y, z, z);
      var s, t := y * y / TWO62, z * z / TWO62;
      assert s <= t;
      if s >= TWO63 {
        FractionMonotone(s / 2, t / 2, k - 1);
      } else if t < TWO63 {
        FractionMonotone(s, t, k - 1);
      } else {
        FractionBelow(s, k - 1);
      }
    }
  }

  lemma Carry(n: nat, m: nat, p: nat, f: nat)
    requires n < m && f < p
    ensures n * p + f < m * p
  {
    ProductMonotone(n + 1, m, p);
    assert (n + 1) * p == n * p + p;
  }

  lemma NormalMonotone(v: nat, w: nat)
    requires 1 <= v <= w <= TWO63 && FloorLog(v) == FloorLog(w) <= 63
    ensures Normal(v, FloorLog(v)) <= Normal(w, FloorLog(w))
  {
    if FloorLog(v) <= 62 {
      ProductMonotone(v, w, Pow2(62 - FloorLog(v)));
    }
  }

  lemma FloorLogMonotone(v: nat, w: nat)
    requires 1 <= v <= w
    ensures FloorLog(v) <= FloorLog(w)
  {
    FloorLogBounds(v);
    FloorLogBounds(w);
    if FloorLog(v) > FloorLog(w) {
      Pow2Monotone(FloorLog(w) + 1, FloorLog(v));
    }
  }

  /** The logarithm as computed never decreases, although every squaring rounds down. */
  lemma LogMonotone(v: nat, w: nat, k: nat)
    requires 1 <= v <= w <= TWO63
    ensures LogBits(v, k) <= LogBits(w, k)
  {
    FloorLogMonotone(v, w);
    NormalInRange(v);
    NormalInRange(w);
    var n, m, y, z := FloorLog(v), FloorLog(w), Normal(v, FloorLog(v)), Normal(w, FloorLog(w));
    if n == m {
      NormalMonotone(v, w);
      FractionMonotone(y, z, k);
    } else {
      FractionBelow(y, k);
      Carry(n, m, Pow2(k), Fraction(y, k));
    }
  }

  /** The largest value, and it alone, has the logarithm 63: nothing rounds up to it. */
  lemma LogAtMost63(v: nat, k: nat)
    requires 1 <= v <= TWO63
    ensures LogBits(v, k) <= 63 * Pow2(k)
    ensures LogBits(v, k) == 63 * Pow2(k) <==> v == TWO63
  {
    FloorLogAtMost63(v);
    NormalInRange(v);
    var n, y := FloorLog(v), Normal(v, FloorLog(v));
    if n == 63 {
      FractionOfOne(k);
    } else {
      FractionBelow(y, k);
      Carry(n, 63, Pow2(k), Fraction(y, k));
    }
  }

  lemma {:induction false} FractionOfOne(k: nat)
    ensures Fraction(TWO62, k) == 0
  {
    if k > 0 {
      FractionOfOne(k - 1);
    }
  }

  lemma {:induction false} SquaringsShift(x: real, y: real, k: nat)
    requires k > 0 && y == x * x
    ensures Squarings(x, k) == Squarings(y, k - 1)
  {
    if k > 1 {
      SquaringsShift(x, y, k - 1);
    } else {
      assert Squarings(x, 0) == x;
    }
  }

  lemma {:induction false} SquaringsScale(a: real, x: real, b: real, k: nat)
    requires b == a * x
    ensures Squarings(b, k) == Squarings(a, k) * Squarings(x, k)
  {
    if k > 0 {
      SquaringsScale(a, x, b, k - 1);
      SquareOfProduct(Squarings(a, k - 1), Squarings(x, k - 1), Squarings(b, k - 1));
    }
  }

  lemma SquareOfProduct(a: real, x: real, b: real)
    requires b == a * x
    ensures Square(b) == Square(a) * Square(x)
  {
    assert b * b == a * (x * b) == a * (x * (a * x));
  }

  lemma {:induction false} RPow2Add(a: nat, b: nat)
    ensures RPow2(a + b) == RPow2(a) * RPow2(b)
  {
    if a != 0 {
      RPow2Add(a - 1, b);
    }
  }

  lemma {:induction false} SquaringsOfTwo(k: nat)
    ensures Squarings(2.0, k) == RPow2(Pow2(k))
  {
    if k > 0 {
      RPow2Add(Pow2(k - 1), Pow2(k - 1));
      SquaringsOfTwo(k - 1);
    } else {
      assert RPow2(1) == 2.0;
    }
  }

  /**
   * Truncation: y stays below the exact x, and above it but for the relative error c, which a squaring less than
   * triples.
   */
  ghost predicate Tracks(x: real, y: nat, c: real) {
    y as real <= x * TWO62 as real <= (1.0 + c) * y as real
  }

  lemma RealProduct(a: real, b: real, c: real)
    requires a <= b && c >= 0.0
    ensures c * a <= c * b
  {
  }

  lemma CancelFactor(a: real, b: real, d: real)
    requires a * d <= b * d && d > 0.0
    ensures a <= b
  {
  }

  lemma CancelStrict(a: real, b: real, d: real)
    requires a * d < b * d && d > 0.0
    ensures a < b
  {
  }

  lemma SquareBounds(Y: real, X: real, c: real)
    requires 0.0 <= Y <= X <= (1.0 + c) * Y
    ensures Y * Y <= X * X <= ((1.0 + c) * (1.0 + c)) * (Y * Y)
  {
    var Z := (1.0 + c) * Y;
    RealProduct(Y, X, Y);
    RealProduct(Y, X, X);
    RealProduct(X, Z, X);
    RealProduct(X, Z, Z);
    assert Z * Z == ((1.0 + c) * (1.0 + c)) * (Y * Y);
  }

  lemma ErrorSquare(c: real)
    requires 0.0 <= c <= 0.2
    ensures 0.0 <= (1.0 + c) * (1.0 + c) <= 1.0 + 2.2 * c <= 1.44
  {
    RealProduct(c, 0.2, c);
    assert (1.0 + c) * (1.0 + c) == 1.0 + 2.0 * c + c * c;
  }

  lemma ErrorTriples(c: real, e: real, t: real)
    requires 2.0 <= c * TWO62 as real && 0.0 <= c <= 0.2
    requires t >= TWO62 as real
    requires 0.0 <= e <= 1.0 + 2.2 * c <= 1.44
    ensures e * (t + 1.0) <= (1.0 + 3.0 * c) * t
  {
    var p, q := c * t, e * t;
    assert 2.0 <= p by { RealProduct(TWO62 as real, t, c); }
    assert q <= t + 2.2 * p by {
      RealProduct(e, 1.0 + 2.2 * c, t);
      Distribute(t, 2.2, c);
    }
    assert e * (t + 1.0) == q + e by { Distribute(e, 1.0, t); }
    assert (1.0 + 3.0 * c) * t == t + 3.0 * p by { Distribute(t, 3.0, c); }
    Slack(p, q, t, e);
  }

  lemma Slack(p: real, q: real, t: real, e: real)
    requires 2.0 <= p && q <= t + 2.2 * p && e <= 1.44
    ensures q + e <= t + 3.0 * p
  {
  }

  lemma Distribute(t: real, a: real, c: real)
    ensures t * (1.0 + a * c) == t + a * (c * t)
    ensures (1.0 + a * c) * t == t + a * (c * t)
  {
  }

  lemma ErrorFactor(Y: real, X: real, c: real) returns (e: real)
    requires 0.0 <= Y <= X <= (1.0 + c) * Y && 0.0 <= c <= 0.2
    ensures 0.0 <= e <= 1.0 + 2.2 * c <= 1.44
    ensures Y * Y <= X * X <= e * (Y * Y)
  {
    e := (1.0 + c) * (1.0 + c);
    SquareBounds(Y, X, c);
    ErrorSquare(c);
  }

  lemma Quotient(z: real, t: real, K: real, e: real, YY: real)
    requires K > 0.0 && e >= 0.0 && z * K <= e * YY && YY <= (t + 1.0) * K
    ensures z <= e * (t + 1.0)
  {
    var u := (t + 1.0) * K;
    assert z * K <= e * u by { RealProduct(YY, u, e); }
    assert e * u == (e * (t + 1.0)) * K;
    CancelFactor(z, e * (t + 1.0), K);
  }

  lemma TrackStep(X: real, Y: real, z: real, t: real, K: real, c: real)
    requires 0.0 <= Y <= X <= (1.0 + c) * Y
    requires K > 0.0 && z * K == X * X && t * K <= Y * Y <= (t + 1.0) * K
    requires t >= TWO62 as real && 2.0 <= c * TWO62 as real && 0.0 <= c <= 0.2
    ensures t <= z <= (1.0 + 3.0 * c) * t
  {
    var e := ErrorFactor(Y, X, c);
    TrackStepSquares(Y * Y, z, t, K, c, e);
  }

  lemma TrackStepSquares(YY: real, z: real, t: real, K: real, c: real, e: real)
    requires K > 0.0 && t * K <= YY <= z * K && z * K <= e * YY && YY <= (t + 1.0) * K
    requires 0.0 <= e <= 1.0 + 2.2 * c <= 1.44
    requires t >= TWO62 as real && 2.0 <= c * TWO62 as real && 0.0 <= c <= 0.2
    ensures t <= z <= (1.0 + 3.0 * c) * t
  {
    CancelBetween(t, YY, z, K);
    Quotient(z, t, K, e, YY);
    ErrorTriples(c, e, t);
    Chain(z, e * (t + 1.0), (1.0 + 3.0 * c) * t);
  }

  lemma CancelBetween(a: real, m: real, b: real, d: real)
    requires a * d <= m <= b * d && d > 0.0
    ensures a <= b
  {
    CancelFactor(a, b, d);
  }

  lemma Chain(a: real, b: real, c: real)
    requires a <= b <= c
    ensures a <= c
  {
  }

  lemma RealSquare(y: nat)
    ensures (y * y) as real == y as real * y as real
  {
  }

  lemma TrackWhole(x: real, y: nat, c: real, s: nat)
    requires Tracks(x, y, c)
    requires TWO62 <= s && s * TWO62 <= y * y <= (s + 1) * TWO62
    requires 2.0 <= c * TWO62 as real && 0.0 <= c <= 0.2
    ensures Tracks(x * x, s, 3.0 * c)
  {
    RealSquare(y);
    var d := TWO62 as real;
    assert x * x * d * d == (x * d) * (x * d);
    TrackStep(x * d, y as real, x * x * d, s as real, d, c);
  }

  lemma TrackHalf(x: real, y: nat, c: real, s: nat)
    requires Tracks(x, y, c)
    requires TWO62 <= s && s * TWO63 <= y * y <= (s + 1) * TWO63
    requires 2.0 <= c * TWO62 as real && 0.0 <= c <= 0.2
    ensures Tracks(x * x / 2.0, s, 3.0 * c)
  {
    RealSquare(y);
    var d := TWO62 as real;
    assert x * x / 2.0 * d * (2.0 * d) == (x * d) * (x * d);
    TrackStep(x * d, y as real, x * x / 2.0 * d, s as real, 2.0 * d, c);
  }

  ghost predicate Within(p: real, r: real, b: real) {
    p <= r < b * p
  }

  /** f is the exponent of r rounded down, by less than log2 b. */
  ghost predicate Exponent(f: nat, r: real, b: real) {
    Within(RPow2(f), r, b)
  }

  /** An error that keeps within b over the k squarings still to come. */
  ghost predicate InBudget(c: real, k: nat, b: real) {
    2.0 <= c * TWO62 as real && 0.0 <= c && 2.0 * (1.0 + c * Pow3(k) as real) <= b <= 2.4
  }

  lemma TrackEnd(x: real, y: nat, c: real, b: real)
    requires TWO62 <= y < TWO63 && Tracks(x, y, c) && InBudget(c, 0, b)
    ensures Exponent(Fraction(y, 0), Squarings(x, 0), b)
  {
    assert Pow3(0) as real == 1.0;
    EndBounds(x, y as real, TWO62 as real, c, b);
    assert Fraction(y, 0) == 0 && RPow2(0) == 1.0 && Squarings(x, 0) == x;
  }

  lemma EndBounds(x: real, y: real, d: real, c: real, b: real)
    requires d > 0.0 && d <= y <= 2.0 * d - 1.0 && y <= x * d <= (1.0 + c) * y && c >= 0.0 && 2.0 * (1.0 + c) <= b
    ensures Within(1.0, x, b)
  {
    var e, m := 1.0 + c, 2.0 * d;
    CancelFactor(1.0, x, d);
    BelowOne(x * d, y, e, m);
    Twice(e, d, m);
    CancelStrict(x, 2.0 * e, d);
  }

  lemma BelowOne(x: real, y: real, e: real, m: real)
    requires x <= e * y && y <= m - 1.0 && e > 0.0
    ensures x < e * m
  {
    RealProduct(y, m - 1.0, e);
    assert e * (m - 1.0) == e * m - e;
  }

  lemma Twice(e: real, d: real, m: real)
    requires m == 2.0 * d
    ensures e * m == (2.0 * e) * d
  {
  }

  /** What one squaring leaves: the exact number, and the one rounded down. */
  ghost function NextExact(x: real, y: nat): real {
    if y * y / TWO62 >= TWO63 then x * x / 2.0 else x * x
  }

  function NextRounded(y: nat): nat {
    if y * y / TWO62 >= TWO63 then y * y / TWO62 / 2 else y * y / TWO62
  }

  lemma StepDown(x: real, y: nat, k: nat, c: real, b: real)
    requires TWO62 <= y < TWO63 && Tracks(x, y, c) && k > 0 && InBudget(c, k, b)
    ensures TWO62 <= NextRounded(y) < TWO63
    ensures Tracks(NextExact(x, y), NextRounded(y), 3.0 * c)
    ensures InBudget(3.0 * c, k - 1, b)
  {
    Budget(c, k, b);
    SquareStep(y);
    var s := y * y / TWO62;
    if s >= TWO63 {
      TrackHalf(x, y, c, s / 2);
    } else {
      TrackWhole(x, y, c, s);
    }
  }

  /** Doubling a number adds 2^k to the exponent of its 2^k-th power. */
  lemma Doubling(x: real, y: real, k: nat, f: nat, b: real)
    requires y == 2.0 * x && Exponent(f, Squarings(x, k), b)
    ensures Exponent(Pow2(k) + f, Squarings(y, k), b)
  {
    var m, r, r2 := DoubledPower(x, y, k);
    ScaleExponent(m, f, b, r, r2);
  }

  lemma DoubledPower(x: real, y: real, k: nat) returns (m: nat, r: real, r2: real)
    requires y == 2.0 * x
    ensures m == Pow2(k) && r == Squarings(x, k) && r2 == Squarings(y, k) && r2 == RPow2(m) * r
  {
    SquaringsScale(2.0, x, y, k);
    SquaringsOfTwo(k);
    m, r, r2 := Pow2(k), Squarings(x, k), Squarings(y, k);
  }

  lemma StepUp(x: real, y: nat, k: nat, b: real)
    requires TWO62 <= y < TWO63 && k > 0
    requires Exponent(Fraction(NextRounded(y), k - 1), Squarings(NextExact(x, y), k - 1), b)
    ensures Exponent(Fraction(y, k), Squarings(x, k), b)
  {
    SquaringsShift(x, x * x, k);
    if y * y / TWO62 >= TWO63 {
      Doubling(x * x / 2.0, x * x, k - 1, Fraction(NextRounded(y), k - 1), b);
    }
  }

  lemma ScaleExponent(m: nat, f: nat, b: real, r: real, r2: real)
    requires Exponent(f, r, b) && r2 == RPow2(m) * r
    ensures Exponent(m + f, r2, b)
  {
    var p, q, pq := Powers(m, f);
    ScaleBounds(p, q, r, b, pq, r2);
  }

  lemma Powers(m: nat, f: nat) returns (p: real, q: real, pq: real)
    ensures p == RPow2(m) && q == RPow2(f) && pq == RPow2(m + f)
    ensures pq == p * q && p > 0.0
  {
    RPow2Add(m, f);
    p, q, pq := RPow2(m), RPow2(f), RPow2(m + f);
  }

  /** The fraction found against the exact power, over every squaring still to come. */
  lemma {:induction false} FractionBounds(x: real, y: nat, k: nat, c: real, b: real)
    requires TWO62 <= y < TWO63 && Tracks(x, y, c) && InBudget(c, k, b)
    ensures Exponent(Fraction(y, k), Squarings(x, k), b)
    decreases k
  {
    if k == 0 {
      TrackEnd(x, y, c, b);
    } else {
      StepDown(x, y, k, c, b);
      FractionBounds(NextExact(x, y), NextRounded(y), k - 1, 3.0 * c, b);
      StepUp(x, y, k, b);
    }
  }

  lemma Budget(c: real, k: nat, b: real)
    requires k > 0 && InBudget(c, k, b)
    ensures c <= 0.2
    ensures InBudget(3.0 * c, k - 1, b)
  {
    RealProduct(1.0, Pow3(k) as real, c);
    assert Pow3(k) as real == 3.0 * Pow3(k - 1) as real;
  }

  lemma ScaleBounds(p: real, f: real, r: real, b: real, pf: real, pr: real)
    requires p > 0.0 && Within(f, r, b) && pf == p * f && pr == p * r
    ensures Within(pf, pr, b)
  {
    var g := b * f;
    assert pf <= pr by { RealProduct(f, r, p); }
    assert p * g == b * pf;
    assert p * (g - r) > 0.0;
    assert p * (g - r) == p * g - pr;
  }

  lemma {:induction false} Pow3Below(k: nat, n: nat)
    requires k <= n
    ensures Pow3(k) <= Pow3(n)
  {
    if k < n {
      Pow3Below(k, n - 1);
    }
  }

  lemma {:induction false} Pow3Add(a: nat, b: nat)
    ensures Pow3(a + b) == Pow3(a) * Pow3(b)
  {
    if a != 0 {
      Pow3Add(a - 1, b);
    }
  }

  lemma Pow3At32()
    ensures Pow3(32) == 1853020188851841
  {
    Pow3Add(8, 8);
    Pow3Add(16, 16);
  }

  /**
   * With r = LogBits(v, k), 2^r <= v^(2^k) < 2^r * 1025/512: the logarithm is never above the true one, and falls less
   * than log2(1025/512) < 1.002 units of its last place short of it, for every precision up to the 32 bits in use.
   */
  lemma LogBounds(v: nat, k: nat)
    requires 1 <= v <= TWO63 && k <= 32
    ensures Exponent(LogBits(v, k), Squarings(v as real, k), 1025.0 / 512.0)
  {
    NormalInRange(v);
    NormalIsExact(v, FloorLog(v));
    LogExponent(v as real, FloorLog(v), Normal(v, FloorLog(v)), k);
  }

  lemma LogExponent(v: real, n: nat, y: nat, k: nat)
    requires TWO62 <= y < TWO63 && k <= 32
    requires Doubled(y as real / TWO62 as real, n) == v
    ensures Exponent(n * Pow2(k) + Fraction(y, k), Squarings(v, k), 1025.0 / 512.0)
  {
    FractionFromExact(y, k);
    ScaledExponent(y as real / TWO62 as real, n, k, Fraction(y, k), 1025.0 / 512.0);
  }

  lemma FractionFromExact(y: nat, k: nat)
    requires TWO62 <= y < TWO63 && k <= 32
    ensures Exponent(Fraction(y, k), Squarings(y as real / TWO62 as real, k), 1025.0 / 512.0)
  {
    var x, c := y as real / TWO62 as real, 2.0 / TWO62 as real;
    TrackStart(x, y, c);
    ErrorIsSmall(k, c);
    FractionBounds(x, y, k, c, 1025.0 / 512.0);
  }

  ghost function Doubled(x: real, n: nat): real
    decreases n
  {
    if n == 0 then x else Doubled(2.0 * x, n - 1)
  }

  lemma {:induction false} ScaledExponent(x: real, n: nat, k: nat, f: nat, b: real)
    requires Exponent(f, Squarings(x, k), b)
    ensures Exponent(n * Pow2(k) + f, Squarings(Doubled(x, n), k), b)
    decreases n
  {
    if n > 0 {
      Doubling(x, 2.0 * x, k, f, b);
      ScaledExponent(2.0 * x, n - 1, k, Pow2(k) + f, b);
      assert (n - 1) * Pow2(k) + (Pow2(k) + f) == n * Pow2(k) + f;
    }
  }

  lemma TrackStart(x: real, y: nat, c: real)
    requires x * TWO62 as real == y as real && c >= 0.0
    ensures Tracks(x, y, c)
  {
    RealProduct(1.0, 1.0 + c, y as real);
  }

  lemma ErrorIsSmall(k: nat, c: real)
    requires k <= 32 && c == 2.0 / TWO62 as real
    ensures InBudget(c, k, 1025.0 / 512.0)
  {
    Pow3Below(k, 32);
    Pow3At32();
  }

  /** Moving the bits up to the 62nd place loses none of them. */
  lemma NormalIsExact(v: nat, n: nat)
    requires 1 <= v <= TWO63 && n == FloorLog(v) <= 63
    ensures Doubled(Normal(v, n) as real / TWO62 as real, n) == v as real
  {
    if n <= 62 {
      ShiftIsExact(v, n, Normal(v, n));
    } else {
      FloorLogAtMost63(v);
      ShiftIsExact(TWO63, 62, TWO63);
    }
  }

  lemma {:induction false} ShiftIsExact(v: nat, n: nat, y: nat)
    requires n <= 62 && y == v * Pow2(62 - n)
    ensures Doubled(y as real / TWO62 as real, n) == v as real
    decreases n
  {
    if n == 0 {
      Pow2At();
    } else {
      ShiftIsExact(v, n - 1, 2 * y);
    }
  }

  /** The upper bits of a square, from its two words. */
  lemma WordSquare(y: nat)
    requires y < TWO63
    ensures y * y / TWO64 < TWO62 && y * y / TWO64 * 4 + y * y % TWO64 / TWO62 == y * y / TWO62
  {
    ProductMonotone(y, TWO63 - 1, y);
    ProductMonotone(y, TWO63 - 1, TWO63 - 1);
    UpperBits(y * y);
  }

  lemma UpperBits(q: nat)
    ensures q / TWO64 * 4 + q % TWO64 / TWO62 == q / TWO62
  {
  }

  /** One bit of the fraction found. */
  lemma BitStep(result: nat, y: nat, i: nat, total: nat)
    requires TWO62 <= y < TWO63 && result % Pow2(i + 1) == 0
    requires result + Fraction(y, i + 1) == total <= 63 * TWO32
    ensures var s := y * y / TWO62;
            var r', y' := if s >= TWO63 then result + Pow2(i) else result, if s >= TWO63 then s / 2 else s;
            && TWO62 <= y' < TWO63 && s < TWO64
            && r' % Pow2(i) == 0 && r' <= 63 * TWO32 && r' + Fraction(y', i) == total
  {
    SquareStep(y);
    SetBit(result, Pow2(i), Pow2(i + 1));
  }

  /** The loop, in 64-bit words: no value on the way needs more than a word. */
  method Log2Fixed(v: U64) returns (result: U64)
    requires 1 <= v <= TWO63
    ensures result == LogBits(v, 32)
  {
    NormalInRange(v);
    var n: U64 := FloorLog(v);
    var y: U64 := Normal(v, n);
    result := n * TWO32;
    var i := 31;
    Pow2At();
    LogAtMost63(v, 32);
    while i >= 0
      invariant -1 <= i <= 31
      invariant TWO62 <= y < TWO63
      invariant result % Pow2(i + 1) == 0
      invariant 0 <= result <= 63 * TWO32
      invariant result + Fraction(y, i + 1) == LogBits(v, 32)
    {
      BitStep(result, y, i, LogBits(v, 32));
      WordSquare(y);
      var hi: U64, lo: U64 := y * y / TWO64, y * y % TWO64;
      y := hi * 4 + lo / TWO62;
      if y >= TWO63 {
        y := y / 2;
        // The bit is clear, so setting it adds it.
        result := result + Pow2(i);
      }
      i := i - 1;
    }
  }

  lemma SetBit(r: nat, p: nat, q: nat)
    requires p > 0 && q == 2 * p && r % q == 0
    ensures r % p == 0 && (r + p) % p == 0
  {
    var d := r / q;
    assert r == (2 * d) * p;
    MultipleMod(2 * d, p);
    MultipleMod(2 * d + 1, p);
    assert (2 * d + 1) * p == r + p;
  }

  lemma MultipleMod(d: nat, p: nat)
    requires p > 0
    ensures d * p % p == 0
  {
    if d > 0 {
      assert d * p == (d - 1) * p + p;
      MultipleMod(d - 1, p);
      assert ((d - 1) * p + p) % p == ((d - 1) * p) % p by { ModAdd((d - 1) * p, p); }
    }
  }

  lemma ModAdd(a: nat, p: nat)
    requires p > 0
    ensures (a + p) % p == a % p
  {
    var q, r := a / p, a % p;
    assert a + p == (q + 1) * p + r;
    var q', r' := (a + p) / p, (a + p) % p;
    assert a + p == q' * p + r';
    assert (q' - (q + 1)) * p == r - r';
    if q' - (q + 1) >= 1 {
      ProductMonotone(1, q' - (q + 1), p);
    } else if q' - (q + 1) <= -1 {
      ProductMonotone(q' - (q + 1), -1, p);
    }
  }
}
