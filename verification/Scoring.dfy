/** Weighted rendezvous scores and the choice of a member (internal/allocator/placement.go: better, pick). */
module Scoring {
  import opened FixedLog
  import opened Ordering

  // The hash of a member and a key. Any function: nothing below depends on which.
  type Hash = (string, string) -> U64

  /** Targets that share a shard key; order is the hash of the key they are placed in the order of. */
  datatype Unit = Unit(key: string, order: nat, weight: nat)

  /** A member's score for a unit: log is NegLog of the hash, kept with it. */
  datatype MemberScore = MemberScore(name: string, hash: U64, capacity: nat, log: nat)

  /** -log2 of the hash as a fraction, in fixed point. */
  function NegLog(hash: U64): nat {
    LogAtMost63(hash / 2 + 1, 32);
    Pow2At();
    63 * TWO32 - LogBits(hash / 2 + 1, 32)
  }

  function ScoreOf(hash: Hash, m: string, capacity: nat, key: string): MemberScore {
    MemberScore(m, hash(m, key), capacity, NegLog(hash(m, key)))
  }

  ghost predicate ValidScore(s: MemberScore) {
    s.capacity > 0 && s.log == NegLog(s.hash)
  }

  /** The code's comparison: by the logarithms only when the capacities differ. */
  predicate Better(s: MemberScore, o: MemberScore) {
    if s.capacity != o.capacity && s.log == 0 && o.log != 0 then true
    else if s.capacity != o.capacity && o.log == 0 && s.log != 0 then false
    else if s.capacity != o.capacity && s.log != 0 && s.capacity * o.log != o.capacity * s.log then
      s.capacity * o.log > o.capacity * s.log
    else if s.hash != o.hash then s.hash > o.hash
    else Less(s.name, o.name)
  }

  /** The weighted score, capacity over -log2 h, where the logarithm is not 0. */
  ghost function Rate(s: MemberScore): real
    requires s.log != 0
  {
    s.capacity as real / s.log as real
  }

  /** A logarithm of 0 is the best score, and all such scores are the same. */
  ghost predicate HigherRate(s: MemberScore, o: MemberScore) {
    o.log != 0 && (s.log == 0 || Rate(s) > Rate(o))
  }

  /** The lexicographic order, by score, hash and name, that the comparison is meant to be. */
  ghost predicate RanksAbove(s: MemberScore, o: MemberScore) {
    || HigherRate(s, o)
    || (!HigherRate(o, s) && (s.hash > o.hash || (s.hash == o.hash && Less(s.name, o.name))))
  }

  lemma CrossMultiply(a: nat, b: nat, c: nat, d: nat)
    requires b > 0 && d > 0
    ensures a * d > c * b <==> a as real / b as real > c as real / d as real
  {
    var x, y, B, D := a as real / b as real, c as real / d as real, b as real, d as real;
    assert x * B == a as real && y * D == c as real;
    assert (a * d) as real == a as real * D == x * (B * D);
    assert (c * b) as real == c as real * B == y * (B * D);
    assert B * D > 0.0;
    if x > y {
      assert (x - y) * (B * D) > 0.0;
    } else {
      RealProduct(x, y, B * D);
    }
  }

  lemma NegLogAntitone(h: U64, g: U64)
    requires h <= g
    ensures NegLog(h) >= NegLog(g)
  {
    LogMonotone(h / 2 + 1, g / 2 + 1, 32);
  }

  /** The two top hashes, and no others, have the logarithm 0. */
  lemma NegLogZero(h: U64)
    ensures NegLog(h) == 0 <==> h >= 0xFFFF_FFFF_FFFF_FFFE
  {
    LogAtMost63(h / 2 + 1, 32);
    Pow2At();
  }

  lemma HashOrdersLogs(s: MemberScore, o: MemberScore)
    requires ValidScore(s) && ValidScore(o)
    ensures s.hash >= o.hash ==> s.log <= o.log
  {
    if s.hash >= o.hash {
      NegLogAntitone(o.hash, s.hash);
    }
  }

  lemma RatesCompare(s: MemberScore, o: MemberScore)
    requires s.log != 0 && o.log != 0
    ensures s.capacity * o.log > o.capacity * s.log <==> Rate(s) > Rate(o)
  {
    CrossMultiply(s.capacity, s.log, o.capacity, o.log);
  }

  lemma SameCapacityRates(s: MemberScore, o: MemberScore)
    requires s.capacity == o.capacity > 0 && s.log != 0 && o.log != 0
    ensures Rate(s) > Rate(o) <==> s.log < o.log
  {
    RatesCompare(s, o);
    if s.log < o.log {
      ProductMonotone(s.log + 1, o.log, s.capacity);
    } else {
      ProductMonotone(o.log, s.log, s.capacity);
    }
  }

  /** Comparing hashes for equal capacities and logarithms otherwise is one lexicographic order. */
  lemma BetterIsLexicographic(s: MemberScore, o: MemberScore)
    requires ValidScore(s) && ValidScore(o)
    ensures Better(s, o) <==> RanksAbove(s, o)
  {
    assert (s.hash >= o.hash ==> s.log <= o.log) && (o.hash >= s.hash ==> o.log <= s.log) by {
      HashOrdersLogs(s, o);
      HashOrdersLogs(o, s);
    }
    BetterOfLogs(s, o);
  }

  lemma BetterOfLogs(s: MemberScore, o: MemberScore)
    requires s.capacity > 0 && o.capacity > 0
    requires (s.hash >= o.hash ==> s.log <= o.log) && (o.hash >= s.hash ==> o.log <= s.log)
    ensures Better(s, o) <==> RanksAbove(s, o)
  {
    if s.log != 0 && o.log != 0 {
      if s.capacity == o.capacity {
        SameCapacityRates(s, o);
        SameCapacityRates(o, s);
      } else {
        RatesCompare(s, o);
        RatesCompare(o, s);
      }
    }
  }

  /** The comparison is a strict total order on scores of distinct names. */
  lemma BetterIsStrictOrder(scores: set<MemberScore>)
    requires forall s | s in scores :: ValidScore(s)
    requires forall s, o | s in scores && o in scores && s != o :: s.name != o.name
    ensures StrictOrder(Better, scores)
  {
    forall s, o | s in scores && o in scores
      ensures Better(s, o) <==> RanksAbove(s, o)
    {
      BetterIsLexicographic(s, o);
    }
    forall s | s in scores ensures !Better(s, s) {
      LessIrreflexive(s.name);
    }
    forall s, o | s in scores && o in scores && s != o ensures Better(s, o) || Better(o, s) {
      LessTotal(s.name, o.name);
    }
    forall s, o, t | s in scores && o in scores && t in scores && Better(s, o) && Better(o, t)
      ensures Better(s, t)
    {
      RanksTransitive(s, o, t);
    }
  }

  lemma RanksTransitive(s: MemberScore, o: MemberScore, t: MemberScore)
    requires RanksAbove(s, o) && RanksAbove(o, t)
    ensures RanksAbove(s, t)
  {
    if s.hash == o.hash == t.hash && Less(s.name, o.name) && Less(o.name, t.name) {
      LessTransitive(s.name, o.name, t.name);
    }
  }

  // ---- pick ----

  /** The members a unit is placed among, with their capacities and the bounds of their loads. */
  datatype Pool = Pool(members: seq<string>, capOf: map<string, nat>, bounds: map<string, nat>)

  ghost predicate ValidPool(p: Pool) {
    && p.members != [] && Distinct(p.members)
    && forall m | m in p.members :: m in p.capOf && p.capOf[m] > 0 && m in p.bounds
  }

  ghost predicate Covers(load: map<string, nat>, p: Pool) {
    forall m | m in p.members :: m in load
  }

  predicate HasRoom(u: Unit, m: string, load: map<string, nat>, p: Pool)
    requires m in load && m in p.bounds
  {
    load[m] + u.weight <= p.bounds[m]
  }

  /** Less load for its capacity: la/ca < lb/cb. */
  predicate LessLoaded(la: nat, ca: nat, lb: nat, cb: nat) {
    la * cb < lb * ca
  }

  ghost predicate Outranks(hash: Hash, u: Unit, p: Pool, a: string, b: string)
    requires a in p.capOf && b in p.capOf
  {
    Better(ScoreOf(hash, a, p.capOf[a], u.key), ScoreOf(hash, b, p.capOf[b], u.key))
  }

  ghost predicate Lighter(load: map<string, nat>, p: Pool, a: string, b: string)
    requires a in p.capOf && b in p.capOf && a in load && b in load
  {
    LessLoaded(load[a], p.capOf[a], load[b], p.capOf[b])
  }

  /** What a pick is: the best of those with room, or else the least loaded, the best of those alike. */
  ghost predicate IsPick(hash: Hash, u: Unit, p: Pool, load: map<string, nat>, r: string)
    requires ValidPool(p) && Covers(load, p)
  {
    && r in p.members
    && if exists m :: m in p.members && HasRoom(u, m, load, p) then
         && HasRoom(u, r, load, p)
         && forall m | m in p.members && m != r && HasRoom(u, m, load, p) :: Outranks(hash, u, p, r, m)
       else
         forall m | m in p.members && m != r ::
           Lighter(load, p, r, m) || (!Lighter(load, p, m, r) && Outranks(hash, u, p, r, m))
  }

  /** Ranking the members of a pool for a key is a strict total order. */
  lemma OutranksIsStrictOrder(hash: Hash, u: Unit, p: Pool)
    requires ValidPool(p)
    ensures forall a | a in p.members :: !Outranks(hash, u, p, a, a)
    ensures forall a, b | a in p.members && b in p.members && a != b ::
      Outranks(hash, u, p, a, b) != Outranks(hash, u, p, b, a)
    ensures forall a, b, c | a in p.members && b in p.members && c in p.members ::
              Outranks(hash, u, p, a, b) && Outranks(hash, u, p, b, c) ==> Outranks(hash, u, p, a, c)
  {
    var scores := set m | m in p.members :: ScoreOf(hash, m, p.capOf[m], u.key);
    BetterIsStrictOrder(scores);
    assert forall m | m in p.members :: ScoreOf(hash, m, p.capOf[m], u.key) in scores;
  }

  /** Two members of pools that differ in the order of their lists alone, or of one pool, cannot both be the pick. */
  lemma PickUnique(hash: Hash, u: Unit, p: Pool, q: Pool, load: map<string, nat>, r: string, s: string)
    requires ValidPool(p) && ValidPool(q) && Covers(load, p) && Covers(load, q)
    requires Elements(p.members) == Elements(q.members) && p.capOf == q.capOf && p.bounds == q.bounds
    requires IsPick(hash, u, p, load, r) && IsPick(hash, u, q, load, s)
    ensures r == s
  {
    assert forall m :: m in p.members <==> m in Elements(p.members);
    assert forall m :: m in q.members <==> m in Elements(q.members);
    OutranksIsStrictOrder(hash, u, p);
  }

  function ScoresOf(hash: Hash, u: Unit, p: Pool): (s: seq<MemberScore>)
    requires forall m | m in p.members :: m in p.capOf
    ensures |s| == |p.members|
    ensures forall i | 0 <= i < |s| :: s[i] == ScoreOf(hash, p.members[i], p.capOf[p.members[i]], u.key)
  {
    seq(|p.members|, i requires 0 <= i < |p.members| => ScoreOf(hash, p.members[i], p.capOf[p.members[i]], u.key))
  }

  /** The first of the scores with room, from i on; |scores| without one. */
  function FirstWithRoom(scores: seq<MemberScore>, i: nat, u: Unit, load: map<string, nat>, p: Pool): (k: nat)
    requires i <= |scores|
    requires forall s | s in scores :: s.name in load && s.name in p.bounds
    ensures i <= k <= |scores|
    ensures k < |scores| ==> HasRoom(u, scores[k].name, load, p)
    ensures forall j | i <= j < k :: !HasRoom(u, scores[j].name, load, p)
    decreases |scores| - i
  {
    if i == |scores| || HasRoom(u, scores[i].name, load, p) then i else FirstWithRoom(scores, i + 1, u, load, p)
  }

  /** The least loaded of the first n scores, the earlier of those alike. */
  function LeastLoaded(scores: seq<MemberScore>, n: nat, load: map<string, nat>): (k: nat)
    requires 1 <= n <= |scores|
    requires forall s | s in scores :: s.name in load
    ensures k < n
  {
    if n == 1 then 0 else
      var l := LeastLoaded(scores, n - 1, load);
      var s := scores[n - 1];
      if LessLoaded(load[s.name], s.capacity, load[scores[l].name], scores[l].capacity) then n - 1 else l
  }

  /** The reference form of pick: sort every score, take the first with room, or else the least loaded. */
  function PickSorted(hash: Hash, u: Unit, p: Pool, load: map<string, nat>): (r: string)
    requires ValidPool(p) && Covers(load, p)
    ensures r in p.members
  {
    SortedScores(hash, u, p);
    var scores := SortBy(Better, ScoresOf(hash, u, p));
    var k := FirstWithRoom(scores, 0, u, load, p);
    if k < |scores| then scores[k].name else scores[LeastLoaded(scores, |scores|, load)].name
  }

  /** The scores in order: each member's, once. */
  lemma SortedScores(hash: Hash, u: Unit, p: Pool)
    requires ValidPool(p)
    ensures var scores := SortBy(Better, ScoresOf(hash, u, p));
            && |scores| == |p.members|
            && (forall s | s in scores :: s.name in p.members && s == ScoreOf(hash, s.name, p.capOf[s.name], u.key))
            && (forall m | m in p.members :: ScoreOf(hash, m, p.capOf[m], u.key) in scores)
            && (forall i, j | 0 <= i < j < |scores| :: scores[i].name != scores[j].name)
            && Sorted(Better, scores)
            && (forall i, j | 0 <= i < j < |scores| :: Better(scores[i], scores[j]))
  {
    var raw := ScoresOf(hash, u, p);
    BetterIsStrictOrder(Elements(raw));
    assert forall i | 0 <= i < |raw| :: raw[i] in raw && raw[i].name == p.members[i];
    assert Distinct(raw);
    SortBySorts(Better, raw);
    var scores := SortBy(Better, raw);
    assert forall s :: s in scores <==> s in Elements(raw);
    forall i, j | 0 <= i < j < |scores|
      ensures scores[i].name != scores[j].name
    {
      assert scores[i] in Elements(raw) && scores[j] in Elements(raw);
      assert Better(scores[i], scores[j]);
    }
  }

  lemma Swap(x: nat, y: nat, z: nat)
    ensures (x * y) * z == (x * z) * y
  {
  }

  lemma ProductStrict(a: nat, b: nat, c: nat)
    requires a < b && c > 0
    ensures a * c < b * c
  {
  }

  lemma Cancel(a: nat, b: nat, c: nat)
    requires c > 0 && a * c <= b * c
    ensures a <= b && (a * c < b * c ==> a < b)
  {
    if a > b {
      ProductStrict(b, a, c);
    }
  }

  /** Both sides of a comparison of x for cx with y for cy, times k. */
  lemma Scaled(x: nat, cx: nat, y: nat, cy: nat, k: nat) returns (l: nat, m: nat)
    requires x * cy <= y * cx && k > 0
    ensures l == (x * k) * cy && m == (y * k) * cx && l <= m && (x * cy < y * cx ==> l < m)
  {
    var p, q := x * cy, y * cx;
    ProductMonotone(p, q, k);
    if p < q {
      ProductStrict(p, q, k);
    }
    Swap(x, cy, k);
    Swap(y, cx, k);
    l, m := p * k, q * k;
  }

  lemma RatioTransitive(a: nat, ca: nat, b: nat, cb: nat, c: nat, cc: nat)
    requires ca > 0 && cb > 0 && cc > 0
    requires a * cb <= b * ca && b * cc <= c * cb
    ensures a * cc <= c * ca
    ensures a * cb < b * ca || b * cc < c * cb ==> a * cc < c * ca
  {
    var l, m := Scaled(a, ca, b, cb, cc);
    var m', r := Scaled(b, cb, c, cc, ca);
    Swap(b, cc, ca);
    CancelChain(a * cc, c * ca, cb, l, m, m', r);
  }

  lemma CancelChain(a: nat, b: nat, c: nat, l: nat, m: nat, m': nat, r: nat)
    requires c > 0 && l == a * c && r == b * c && l <= m == m' <= r
    ensures a <= b && (l < m || m' < r ==> a < b)
  {
    Cancel(a, b, c);
  }

  lemma {:induction false} LeastLoadedIsLeast(scores: seq<MemberScore>, n: nat, load: map<string, nat>)
    requires 1 <= n <= |scores|
    requires forall s | s in scores :: s.name in load && s.capacity > 0
    ensures var l := scores[LeastLoaded(scores, n, load)];
            forall j | 0 <= j < n :: var s := scores[j];
              && !LessLoaded(load[s.name], s.capacity, load[l.name], l.capacity)
              && (j < LeastLoaded(scores, n, load) ==> LessLoaded(load[l.name], l.capacity, load[s.name], s.capacity))
  {
    if n > 1 {
      LeastLoadedIsLeast(scores, n - 1, load);
      var old', new' := LeastLoaded(scores, n - 1, load), LeastLoaded(scores, n, load);
      var l, t := scores[old'], scores[n - 1];
      if new' == n - 1 {
        forall j | 0 <= j < n - 1
          ensures LessLoaded(load[t.name], t.capacity, load[scores[j].name], scores[j].capacity)
        {
          RatioTransitive(load[t.name], t.capacity, load[l.name], l.capacity, load[scores[j].name], scores[j].capacity);
        }
      }
    }
  }

  /** Every other member's score comes later in the order than that of the first. */
  lemma LaterRanksBelow(hash: Hash, u: Unit, p: Pool, k: nat, m: string)
    requires ValidPool(p)
    requires var scores := SortBy(Better, ScoresOf(hash, u, p)); k < |scores| && m in p.members && m != scores[k].name
    ensures var scores := SortBy(Better, ScoresOf(hash, u, p));
            && scores[k].name in p.members
            && exists j | 0 <= j < |scores| && j != k ::
                 scores[j].name == m && (k < j ==> Outranks(hash, u, p, scores[k].name, m))
  {
    SortedScores(hash, u, p);
    var scores := SortBy(Better, ScoresOf(hash, u, p));
    assert scores[k] in scores;
    var j :| 0 <= j < |scores| && scores[j] == ScoreOf(hash, m, p.capOf[m], u.key);
    assert scores[j].name == m;
    assert k < j ==> Better(scores[k], scores[j]);
  }

  /** The reference form finds the pick. */
  lemma PickSortedIsPick(hash: Hash, u: Unit, p: Pool, load: map<string, nat>)
    requires ValidPool(p) && Covers(load, p)
    ensures IsPick(hash, u, p, load, PickSorted(hash, u, p, load))
  {
    SortedScores(hash, u, p);
    var scores := SortBy(Better, ScoresOf(hash, u, p));
    var k := FirstWithRoom(scores, 0, u, load, p);
    if k < |scores| {
      assert HasRoom(u, scores[k].name, load, p);
      forall m | m in p.members && m != scores[k].name && HasRoom(u, m, load, p)
        ensures Outranks(hash, u, p, scores[k].name, m)
      {
        LaterRanksBelow(hash, u, p, k, m);
      }
    } else {
      forall m | m in p.members ensures !HasRoom(u, m, load, p) {
        assert ScoreOf(hash, m, p.capOf[m], u.key) in scores;
      }
      LeastIsPick(hash, u, p, load);
    }
  }

  lemma LeastIsPick(hash: Hash, u: Unit, p: Pool, load: map<string, nat>)
    requires ValidPool(p) && Covers(load, p)
    requires forall m | m in p.members :: !HasRoom(u, m, load, p)
    requires var scores := SortBy(Better, ScoresOf(hash, u, p));
             scores != [] && forall s | s in scores :: s.name in load
    ensures var scores := SortBy(Better, ScoresOf(hash, u, p));
            IsPick(hash, u, p, load, scores[LeastLoaded(scores, |scores|, load)].name)
  {
    SortedScores(hash, u, p);
    var scores := SortBy(Better, ScoresOf(hash, u, p));
    LeastLoadedIsLeast(scores, |scores|, load);
    var k := LeastLoaded(scores, |scores|, load);
    var r := scores[k].name;
    assert scores[k] in scores;
    forall m | m in p.members && m != r
      ensures Lighter(load, p, r, m) || (!Lighter(load, p, m, r) && Outranks(hash, u, p, r, m))
    {
      LaterRanksBelow(hash, u, p, k, m);
      var j :| 0 <= j < |scores| && j != k && scores[j].name == m && (k < j ==> Outranks(hash, u, p, r, m));
      assert scores[j] in scores;
    }
  }

  /** The pick: there is one, and only one. */
  ghost function PickOf(hash: Hash, u: Unit, p: Pool, load: map<string, nat>): (r: string)
    requires ValidPool(p) && Covers(load, p)
    ensures r in p.members
  {
    PickSortedIsPick(hash, u, p, load);
    var r :| IsPick(hash, u, p, load, r);
    r
  }

  lemma PickOfIsSorted(hash: Hash, u: Unit, p: Pool, load: map<string, nat>)
    requires ValidPool(p) && Covers(load, p)
    ensures IsPick(hash, u, p, load, PickOf(hash, u, p, load))
    ensures PickOf(hash, u, p, load) == PickSorted(hash, u, p, load)
  {
    PickSortedIsPick(hash, u, p, load);
    PickUnique(hash, u, p, p, load, PickOf(hash, u, p, load), PickSorted(hash, u, p, load));
  }

  /** The best score, looked for without ordering the others. */
  method BestScore(scores: seq<MemberScore>) returns (best: nat)
    requires scores != [] && Distinct(scores) && StrictOrder(Better, Elements(scores))
    ensures best < |scores|
    ensures forall j | 0 <= j < |scores| && j != best :: Better(scores[best], scores[j])
  {
    best := 0;
    assert forall j | 0 <= j < |scores| :: scores[j] in Elements(scores);
    for i := 1 to |scores|
      invariant best < i
      invariant forall j | 0 <= j < i && j != best :: Better(scores[best], scores[j])
    {
      if Better(scores[i], scores[best]) {
        best := i;
      }
    }
  }

  /** The scan in order: the first with room, or else the least loaded. */
  method Scan(ordered: seq<MemberScore>, u: Unit, p: Pool, load: map<string, nat>) returns (k: nat)
    requires ordered != [] && forall s | s in ordered :: s.name in load && s.name in p.bounds
    ensures var f := FirstWithRoom(ordered, 0, u, load, p);
            k == if f < |ordered| then f else LeastLoaded(ordered, |ordered|, load)
  {
    for i := 0 to |ordered|
      invariant FirstWithRoom(ordered, 0, u, load, p) == FirstWithRoom(ordered, i, u, load, p)
    {
      if load[ordered[i].name] + u.weight <= p.bounds[ordered[i].name] {
        return i;
      }
    }
    k := 0;
    for i := 1 to |ordered|
      invariant k == LeastLoaded(ordered, i, load)
    {
      var s := ordered[i];
      if LessLoaded(load[s.name], s.capacity, load[ordered[k].name], ordered[k].capacity) {
        k := i;
      }
    }
  }

  /** pick: the best score is looked for first, and the others ordered only when its member has no room. */
  method Pick(hash: Hash, u: Unit, p: Pool, load: map<string, nat>) returns (r: string)
    requires ValidPool(p) && Covers(load, p)
    ensures r == PickSorted(hash, u, p, load)
    ensures IsPick(hash, u, p, load, r)
  {
    PickSortedIsPick(hash, u, p, load);
    var scores := ScoresOf(hash, u, p);
    RawScores(hash, u, p);
    var best := BestScore(scores);
    if HasRoom(u, scores[best].name, load, p) {
      BestWithRoom(hash, u, p, load, best);
      return scores[best].name;
    }
    SortedScores(hash, u, p);
    var ordered := SortBy(Better, scores);
    var k := Scan(ordered, u, p, load);
    r := ordered[k].name;
  }

  lemma RawScores(hash: Hash, u: Unit, p: Pool)
    requires ValidPool(p)
    ensures var scores := ScoresOf(hash, u, p); Distinct(scores) && StrictOrder(Better, Elements(scores))
  {
    var scores := ScoresOf(hash, u, p);
    assert forall i | 0 <= i < |scores| :: scores[i].name == p.members[i];
    BetterIsStrictOrder(Elements(scores));
  }

  /** The fast path: the member of the best score, when it has room, is the pick. */
  lemma BestWithRoom(hash: Hash, u: Unit, p: Pool, load: map<string, nat>, best: nat)
    requires ValidPool(p) && Covers(load, p) && best < |p.members|
    requires HasRoom(u, p.members[best], load, p)
    requires var scores := ScoresOf(hash, u, p);
             forall j | 0 <= j < |scores| && j != best :: Better(scores[best], scores[j])
    ensures p.members[best] == PickSorted(hash, u, p, load)
  {
    var b := p.members[best];
    forall m | m in p.members && m != b
      ensures Outranks(hash, u, p, b, m)
    {
      var j :| 0 <= j < |p.members| && p.members[j] == m;
      var scores := ScoresOf(hash, u, p);
      assert Better(scores[best], scores[j]);
    }
    assert IsPick(hash, u, p, load, b);
    PickSortedIsPick(hash, u, p, load);
    PickUnique(hash, u, p, p, load, b, PickSorted(hash, u, p, load));
  }
}
