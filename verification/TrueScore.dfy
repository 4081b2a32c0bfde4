/**
 * The computed scores against the true ones, capacity over -log2 of the hash (internal/allocator/placement.go:
 * memberScore, negLog). Real logarithms are not needed: a comparison of ca / -log2 ua with cb / -log2 ub is one of
 * ua^cb with ub^ca, and the fixed point has its counterpart in the power 2^32 of the hash.
 */
module TrueScore {
  import opened FixedLog
  import opened Ordering
  import opened Scoring

  ghost function RPower(x: real, n: nat): (r: real)
    ensures x > 0.0 ==> r > 0.0
  {
    if n == 0 then 1.0 else
      Positive(x, RPower(x, n - 1));
      x * RPower(x, n - 1)
  }

  lemma Positive(x: real, y: real)
    ensures x > 0.0 && y > 0.0 ==> x * y > 0.0
  {
  }

  lemma RealProducts(a: real, b: real, c: real, d: real)
    requires 0.0 < a <= b && 0.0 < c <= d
    ensures a * c <= b * d
    ensures c < d ==> a * c < b * d
  {
    RealProduct(c, d, a);
    RealProduct(a, b, d);
    if c < d {
      CancelLess(a, c, d);
    }
  }

  lemma CancelLess(a: real, c: real, d: real)
    requires a > 0.0 && c < d
    ensures a * c < a * d
  {
    Positive(a, d - c);
  }

  lemma {:induction false} PowerMonotone(x: real, y: real, n: nat)
    requires 0.0 < x <= y
    ensures RPower(x, n) <= RPower(y, n)
    ensures n > 0 && x < y ==> RPower(x, n) < RPower(y, n)
  {
    if n > 0 {
      PowerMonotone(x, y, n - 1);
      RealProducts(RPower(x, n - 1), RPower(y, n - 1), x, y);
    }
  }

  lemma {:induction false} PowerOfProduct(x: real, y: real, n: nat)
    ensures RPower(x * y, n) == RPower(x, n) * RPower(y, n)
  {
    if n > 0 {
      PowerOfProduct(x, y, n - 1);
      Regroup(x, y, RPower(x, n - 1), RPower(y, n - 1));
    }
  }

  lemma Regroup(x: real, y: real, p: real, q: real)
    ensures (x * y) * (p * q) == (x * p) * (y * q)
  {
  }

  /** (2^e)^n is 2^(e n). */
  lemma {:induction false} PowerOfTwo(e: nat, n: nat) returns (m: nat)
    ensures m == e * n && RPower(RPow2(e), n) == RPow2(m)
  {
    if n == 0 {
      m := 0;
    } else {
      var less := PowerOfTwo(e, n - 1);
      m := NextMultiple(e, n, less);
      NextPower(RPow2(e), n);
      RPow2Add(e, less);
    }
  }

  lemma NextMultiple(e: nat, n: nat, less: nat) returns (m: nat)
    requires n > 0 && less == e * (n - 1)
    ensures m == e * n == e + less
  {
    m := e + less;
  }

  lemma NextPower(x: real, n: nat)
    requires n > 0
    ensures RPower(x, n) == x * RPower(x, n - 1)
  {
  }

  lemma {:induction false} RPow2Monotone(a: nat, b: nat)
    requires a <= b
    ensures RPow2(a) <= RPow2(b)
  {
    if a < b {
      RPow2Monotone(a, b - 1);
    }
  }

  lemma ExponentsCompare(a: nat, b: nat)
    requires RPow2(a) < RPow2(b)
    ensures a < b
  {
    if b <= a {
      RPow2Monotone(b, a);
    }
  }

  // ---- The logarithm of a hash ----

  /** The hash as a fraction of 2^63, to the power 2^32: its log2 is that of the fraction in fixed point. */
  ghost function Scaled(hash: U64): real {
    Squarings((hash / 2 + 1) as real, 32)
  }

  ghost function Slack(): real {
    1025.0 / 512.0
  }

  /** 63 in fixed point: the logarithm of 2^63. */
  function Top(): nat {
    63 * TWO32
  }

  /** NegLog is -log2 of the hash as a fraction in fixed point, rounded up by less than log2(1025/512) of a unit. */
  lemma NegLogIs(hash: U64)
    ensures NegLog(hash) <= Top()
    ensures Exponent(Top() - NegLog(hash), Scaled(hash), Slack())
  {
    LogBounds(hash / 2 + 1, 32);
  }

  /** xb^ca times the error's power cb is at most xa^cb, both scaled to whole powers of 2^top. */
  ghost predicate PowersExceed(xa: real, ca: nat, xb: real, cb: nat, top: nat, slack: real) {
    RPower(xb, ca) * RPower(RPow2(top), cb) * RPower(slack, cb) <= RPower(xa, cb) * RPower(RPow2(top), ca)
  }

  /**
   * The true score of a, ca / -log2 ua, exceeds that of b, cb / -log2 ub, by more than the rounding can take away:
   * (2^63 / va)^cb, even when multiplied by the error's power cb, is at most (2^63 / vb)^ca.
   */
  ghost predicate Exceeds(ha: U64, ca: nat, hb: U64, cb: nat) {
    PowersExceed(Scaled(ha), ca, Scaled(hb), cb, Top(), Slack())
  }

  /** From 2^e up to x: its power v is at least low = 2^(e n). */
  lemma Above(x: real, e: nat, n: nat, slack: real, v: real) returns (low: real, m: nat)
    requires Exponent(e, x, slack) && v == RPower(x, n)
    ensures m == e * n && low == RPow2(m) && 0.0 < low <= v
  {
    m := PowerOfTwo(e, n);
    low := RPow2(m);
    PowerMonotone(RPow2(e), x, n);
  }

  /** And below the error's power s times low. */
  lemma Below(x: real, e: nat, n: nat, slack: real, v: real, s: real) returns (low: real, m: nat)
    requires Exponent(e, x, slack) && v == RPower(x, n) && s == RPower(slack, n) && n > 0
    ensures m == e * n && low == RPow2(m) && 0.0 < low && v < s * low
  {
    m := PowerOfTwo(e, n);
    low := RPow2(m);
    PowerBelow(x, slack, RPow2(e), n);
  }

  lemma TopPower(top: nat, n: nat, q: real) returns (m: nat)
    requires q == RPower(RPow2(top), n)
    ensures m == top * n && q == RPow2(m)
  {
    m := PowerOfTwo(top, n);
  }

  lemma PowerBelow(x: real, s: real, y: real, n: nat)
    requires 0.0 < x < s * y
    ensures n > 0 ==> RPower(x, n) < RPower(s, n) * RPower(y, n)
  {
    PowerMonotone(x, s * y, n);
    PowerOfProduct(s, y, n);
  }

  /** What is left of the comparison once the powers are named. */
  lemma Compare(vb: real, lowB: real, mb: real, s: real, va: real, lowA: real, ma: real)
    requires vb * mb * s <= va * ma
    requires 0.0 < lowB <= vb && va < s * lowA && mb > 0.0 && ma > 0.0 && s > 0.0 && lowA > 0.0
    ensures lowB * mb < lowA * ma
  {
    Positive(mb, s);
    RealProduct(lowB, vb, mb * s);
    assert lowB * mb * s == (mb * s) * lowB && vb * mb * s == (mb * s) * vb;
    CancelLess(ma, va, s * lowA);
    assert (s * lowA) * ma == (lowA * ma) * s;
    CancelStrict(lowB * mb, lowA * ma, s);
  }

  /** The two sides of the comparison as powers of two. */
  lemma TwosMultiply(a: nat, b: nat, p: real, q: real) returns (c: nat, r: real)
    requires p == RPow2(a) && q == RPow2(b)
    ensures c == a + b && r == RPow2(c) && r == p * q
  {
    RPow2Add(a, b);
    c, r := a + b, RPow2(a + b);
  }

  lemma ExponentsExceed(xa: real, ca: nat, xb: real, cb: nat, top: nat, slack: real, ea: nat, eb: nat)
    requires PowersExceed(xa, ca, xb, cb, top, slack) && cb > 0 && slack > 0.0
    requires Exponent(ea, xa, slack) && Exponent(eb, xb, slack)
    ensures eb * ca + top * cb < ea * cb + top * ca
  {
    var va, vb, s, qa, qb := NamePowers(xa, ca, xb, cb, top, slack);
    NamedExceed(xa, ca, xb, cb, top, slack, ea, eb, va, vb, s, qa, qb);
  }

  lemma NamePowers(xa: real, ca: nat, xb: real, cb: nat, top: nat, slack: real)
    returns (va: real, vb: real, s: real, qa: real, qb: real)
    requires PowersExceed(xa, ca, xb, cb, top, slack)
    ensures va == RPower(xa, cb) && vb == RPower(xb, ca) && s == RPower(slack, cb)
    ensures qa == RPower(RPow2(top), ca) && qb == RPower(RPow2(top), cb) && vb * qb * s <= va * qa
  {
    va, vb, s, qa, qb := RPower(xa, cb), RPower(xb, ca), RPower(slack, cb), RPower(RPow2(top), ca),
      RPower(RPow2(top), cb);
  }

  lemma NamedExceed(xa: real, ca: nat, xb: real, cb: nat, top: nat, slack: real, ea: nat, eb: nat,
                    va: real, vb: real, s: real, qa: real, qb: real)
    requires va == RPower(xa, cb) && vb == RPower(xb, ca) && s == RPower(slack, cb)
    requires qa == RPower(RPow2(top), ca) && qb == RPower(RPow2(top), cb) && vb * qb * s <= va * qa
    requires cb > 0 && slack > 0.0 && Exponent(ea, xa, slack) && Exponent(eb, xb, slack)
    ensures eb * ca + top * cb < ea * cb + top * ca
  {
    var lowA, ka := Below(xa, ea, cb, slack, va, s);
    var lowB, kb := Above(xb, eb, ca, slack, vb);
    var ma := TopPower(top, ca, qa);
    var mb := TopPower(top, cb, qb);
    BoundsExceed(va, vb, s, qa, qb, lowA, lowB, ka, kb, ma, mb);
  }

  lemma BoundsExceed(va: real, vb: real, s: real, qa: real, qb: real, lowA: real, lowB: real,
                     ka: nat, kb: nat, ma: nat, mb: nat)
    requires vb * qb * s <= va * qa && s > 0.0 && 0.0 < lowB <= vb && 0.0 < lowA && va < s * lowA
    requires lowA == RPow2(ka) && lowB == RPow2(kb) && qa == RPow2(ma) && qb == RPow2(mb)
    ensures kb + mb < ka + ma
  {
    var b, left := TwosMultiply(kb, mb, lowB, qb);
    var a, right := TwosMultiply(ka, ma, lowA, qa);
    Compare(vb, lowB, qb, s, va, lowA, qa);
    ExponentsCompare(b, a);
  }

  /** A true score that exceeds another's by more than the rounding is the higher computed one. */
  lemma ExceedsInLogs(ha: U64, ca: nat, hb: U64, cb: nat)
    requires Exceeds(ha, ca, hb, cb) && cb > 0
    ensures cb * NegLog(ha) < ca * NegLog(hb)
  {
    var na, xa, top := LogOf(ha);
    var nb, xb, top' := LogOf(hb);
    ExponentsExceed(xa, ca, xb, cb, top, Slack(), top - na, top - nb);
    Crossed(ca, nb, cb, na, top);
  }

  lemma LogOf(hash: U64) returns (n: nat, x: real, top: nat)
    ensures n == NegLog(hash) <= top == Top() && x == Scaled(hash) && Exponent(top - n, x, Slack())
  {
    NegLogIs(hash);
    n, x, top := NegLog(hash), Scaled(hash), Top();
  }

  lemma Crossed(ca: nat, nb: nat, cb: nat, na: nat, top: nat)
    requires na <= top && nb <= top
    requires (top - nb) * ca + top * cb < (top - na) * cb + top * ca
    ensures cb * na < ca * nb
  {
  }

  /** Then the member ranks above the other. */
  lemma ExceedsRanks(s: MemberScore, o: MemberScore)
    requires ValidScore(s) && ValidScore(o) && Exceeds(s.hash, s.capacity, o.hash, o.capacity)
    ensures Better(s, o)
  {
    ExceedsInLogs(s.hash, s.capacity, o.hash, o.capacity);
    var os, so := o.capacity * s.log, s.capacity * o.log;
    HashOrdersLogs(o, s);
    LogsRank(s, o, os, so);
  }

  lemma LogsRank(s: MemberScore, o: MemberScore, os: nat, so: nat)
    requires os == o.capacity * s.log && so == s.capacity * o.log && os < so
    requires o.hash >= s.hash ==> o.log <= s.log
    ensures Better(s, o)
  {
    if s.capacity == o.capacity && o.hash >= s.hash {
      ProductMonotone(o.log, s.log, s.capacity);
      assert false;
    }
  }

  /**
   * A member with room whose true score exceeds another's by more than the rounding is never passed over for that
   * other, and of two of one capacity the one of the higher hash never is.
   */
  lemma PickIsTrue(hash: Hash, u: Unit, p: Pool, load: map<string, nat>, r: string, m: string)
    requires ValidPool(p) && Covers(load, p) && IsPick(hash, u, p, load, r)
    requires m in p.members && load[m] + u.weight <= p.bounds[m]
    ensures load[r] + u.weight <= p.bounds[r]
    ensures !Exceeds(hash(m, u.key), p.capOf[m], hash(r, u.key), p.capOf[r])
    ensures p.capOf[m] == p.capOf[r] ==> hash(m, u.key) <= hash(r, u.key)
  {
    assert HasRoom(u, m, load, p);
    var s, o := ScoreOf(hash, m, p.capOf[m], u.key), ScoreOf(hash, r, p.capOf[r], u.key);
    if m != r {
      assert Outranks(hash, u, p, r, m);
    }
    if Exceeds(s.hash, s.capacity, o.hash, o.capacity) {
      ExceedsRanks(s, o);
      BetterIsAsymmetric(s, o);
      assert false;
    }
  }

  lemma BetterIsAsymmetric(s: MemberScore, o: MemberScore)
    requires ValidScore(s) && ValidScore(o) && Better(s, o)
    ensures !Better(o, s)
  {
    BetterIsLexicographic(s, o);
    BetterIsLexicographic(o, s);
    LessIrreflexive(s.name);
    if Less(s.name, o.name) && Less(o.name, s.name) {
      LessTransitive(s.name, o.name, s.name);
    }
  }
}
