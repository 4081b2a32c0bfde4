/**
 * The placement of every unit (internal/allocator/placement.go: place, routeJob; internal/allocapi/allocapi.go: Owner).
 */
module Placement {
  import opened Common
  import opened FixedLog
  import opened Ordering
  import opened Scoring

  const MILLI: int := 1000

  // ---- sums ----

  function WeightOf(us: seq<Unit>): nat {
    if us == [] then 0 else WeightOf(us[..|us| - 1]) + us[|us| - 1].weight
  }

  function SumOver(ms: seq<string>, f: map<string, nat>): nat
    requires forall m | m in ms :: m in f
  {
    if ms == [] then 0 else f[ms[0]] + SumOver(ms[1..], f)
  }

  lemma {:induction false} SumUpdate(ms: seq<string>, f: map<string, nat>, r: string, w: nat)
    requires Distinct(ms) && r in f && forall m | m in ms :: m in f
    ensures SumOver(ms, f[r := f[r] + w]) == SumOver(ms, f) + if r in ms then w else 0
  {
    if ms != [] {
      SumUpdate(ms[1..], f, r, w);
    }
  }

  lemma {:induction false} SumBounds(ms: seq<string>, f: map<string, nat>, r: string)
    requires r in ms && forall m | m in ms :: m in f
    ensures f[r] <= SumOver(ms, f)
  {
    if ms[0] != r {
      SumBounds(ms[1..], f, r);
    }
  }

  lemma {:induction false} SumSplit(a: seq<string>, b: seq<string>, f: map<string, nat>)
    requires forall m | m in a + b :: m in f
    ensures forall m | m in a :: m in f
    ensures forall m | m in b :: m in f
    ensures SumOver(a + b, f) == SumOver(a, f) + SumOver(b, f)
  {
    assert forall m | m in a :: m in a + b;
    assert forall m | m in b :: m in a + b;
    if a == [] {
      assert a + b == b;
    } else {
      assert (a + b)[1..] == a[1..] + b;
      SumSplit(a[1..], b, f);
    }
  }

  lemma SumWithout(b: seq<string>, i: nat, f: map<string, nat>)
    requires i < |b| && forall m | m in b :: m in f
    ensures forall m | m in b[..i] + b[i + 1..] :: m in f
    ensures SumOver(b, f) == f[b[i]] + SumOver(b[..i] + b[i + 1..], f)
  {
    var c, d := b[..i], b[i + 1..];
    assert b == c + ([b[i]] + d);
    assert forall m | m in c + d :: m in b;
    SumSplit(c, [b[i]] + d, f);
    SumSplit(c, d, f);
    assert ([b[i]] + d)[1..] == d;
  }

  lemma {:induction false} SumIgnoresOrder(a: seq<string>, b: seq<string>, f: map<string, nat>)
    requires Distinct(a) && Distinct(b) && forall m :: m in a <==> m in b
    requires forall m | m in a :: m in f
    ensures SumOver(a, f) == SumOver(b, f)
  {
    assert b != [] ==> b[0] in a;
    if a != [] {
      assert a[0] in b;
      var i :| 0 <= i < |b| && b[i] == a[0];
      var c := b[..i] + b[i + 1..];
      SumWithout(b, i, f);
      assert forall m :: m in c <==> m in b && m != a[0];
      assert forall m :: m in a[1..] <==> m in a && m != a[0];
      SumIgnoresOrder(a[1..], c, f);
    }
  }

  // ---- the pass ----

  /** Where the units went, and each member's load. */
  datatype Plan = Plan(owner: map<string, string>, load: map<string, nat>)

  /** The member a unit goes to, given the loads before it. */
  type Chooser = (Unit, map<string, nat>) -> string

  /** The pass over units in order, each put on the member chosen for it. */
  ghost function Assign(choose: Chooser, us: seq<Unit>, load: map<string, nat>): Plan {
    if us == [] then Plan(map[], load) else
      var u, q := us[|us| - 1], Assign(choose, us[..|us| - 1], load);
      Put(q, u, choose(u, q.load))
  }

  ghost function Put(q: Plan, u: Unit, m: string): Plan {
    Plan(q.owner[u.key := m], q.load[m := (if m in q.load then q.load[m] else 0) + u.weight])
  }

  ghost predicate Loaded(ms: seq<string>, load: map<string, nat>) {
    forall m | m in ms :: m in load
  }

  /** Only members are chosen. */
  ghost predicate ChoosesFrom(choose: Chooser, ms: seq<string>) {
    forall u: Unit, load: map<string, nat> :: choose(u, load) in ms
  }

  /** The choice place and routeJob make: the pick. */
  ghost function Picking(hash: Hash, p: Pool): (c: Chooser)
    requires ValidPool(p)
    ensures ChoosesFrom(c, p.members)
  {
    (u: Unit, load: map<string, nat>) => if Covers(load, p) then PickOf(hash, u, p, load) else p.members[0]
  }

  lemma PickingPicks(hash: Hash, p: Pool, u: Unit, load: map<string, nat>)
    requires ValidPool(p) && Covers(load, p)
    ensures Picking(hash, p)(u, load) == PickOf(hash, u, p, load)
  {
  }

  predicate UnitLess(a: Unit, b: Unit) {
    a.order < b.order || (a.order == b.order && Less(a.key, b.key))
  }

  function SortUnits(us: seq<Unit>): seq<Unit> {
    SortBy(UnitLess, us)
  }

  ghost predicate DistinctKeys(us: seq<Unit>) {
    forall i, j | 0 <= i < j < |us| :: us[i].key != us[j].key
  }

  lemma UnitLessIsStrictOrder(us: seq<Unit>)
    requires DistinctKeys(us)
    ensures StrictOrder(UnitLess, Elements(us))
  {
    var s := Elements(us);
    forall a | a in s ensures !UnitLess(a, a) {
      LessIrreflexive(a.key);
    }
    forall a, b | a in s && b in s && a != b ensures UnitLess(a, b) || UnitLess(b, a) {
      var i :| 0 <= i < |us| && us[i] == a;
      var j :| 0 <= j < |us| && us[j] == b;
      LessTotal(a.key, b.key);
    }
    forall a, b, c | a in s && b in s && c in s && UnitLess(a, b) && UnitLess(b, c) ensures UnitLess(a, c) {
      if a.order == b.order == c.order {
        LessTransitive(a.key, b.key, c.key);
      }
    }
  }

  /** The order of the pass is the same whatever order the units came in. */
  lemma SortUnitsIgnoresOrder(a: seq<Unit>, b: seq<Unit>)
    requires DistinctKeys(a) && DistinctKeys(b) && Elements(a) == Elements(b)
    ensures SortUnits(a) == SortUnits(b)
  {
    UnitLessIsStrictOrder(a);
    SortByIgnoresOrder(UnitLess, a, b);
  }

  lemma SortUnitsKeeps(us: seq<Unit>)
    requires DistinctKeys(us)
    ensures DistinctKeys(SortUnits(us)) && Elements(SortUnits(us)) == Elements(us) && |SortUnits(us)| == |us|
  {
    UnitLessIsStrictOrder(us);
    SortBySorts(UnitLess, us);
    var s := SortUnits(us);
    forall i, j | 0 <= i < j < |s|
      ensures s[i].key != s[j].key
    {
      assert s[i] in Elements(us) && s[j] in Elements(us);
      assert UnitLess(s[i], s[j]);
      LessIrreflexive(s[i].key);
      var x :| 0 <= x < |us| && us[x] == s[i];
      var y :| 0 <= y < |us| && us[y] == s[j];
    }
  }

  // ---- conservation ----

  ghost function OwnedWeight(us: seq<Unit>, owner: map<string, string>, m: string): nat {
    if us == [] then 0 else
      var u := us[|us| - 1];
      OwnedWeight(us[..|us| - 1], owner, m) + if u.key in owner && owner[u.key] == m then u.weight else 0
  }

  /** The weight of the last unit m was given, 0 without one. */
  ghost function LastWeight(us: seq<Unit>, owner: map<string, string>, m: string): nat {
    if us == [] then 0 else
      var u := us[|us| - 1];
      if u.key in owner && owner[u.key] == m then u.weight else LastWeight(us[..|us| - 1], owner, m)
  }

  lemma {:induction false} OwnedFrame(us: seq<Unit>, owner: map<string, string>, k: string, m: string, r: string)
    requires forall i | 0 <= i < |us| :: us[i].key != k
    ensures OwnedWeight(us, owner[k := r], m) == OwnedWeight(us, owner, m)
    ensures LastWeight(us, owner[k := r], m) == LastWeight(us, owner, m)
  {
    if us != [] {
      OwnedFrame(us[..|us| - 1], owner, k, m, r);
    }
  }

  lemma OwnedStep(us: seq<Unit>, owner: map<string, string>, r: string, m: string)
    requires us != [] && DistinctKeys(us)
    ensures var us', u := us[..|us| - 1], us[|us| - 1];
            && OwnedWeight(us, owner[u.key := r], m) == OwnedWeight(us', owner, m) + (if m == r then u.weight else 0)
            && LastWeight(us, owner[u.key := r], m) == if m == r then u.weight else LastWeight(us', owner, m)
  {
    OwnedFrame(us[..|us| - 1], owner, us[|us| - 1].key, m, r);
  }

  ghost function KeysOf(us: seq<Unit>): set<string> {
    if us == [] then {} else KeysOf(us[..|us| - 1]) + {us[|us| - 1].key}
  }

  lemma {:induction false} KeysOfLists(us: seq<Unit>)
    ensures forall u | u in us :: u.key in KeysOf(us)
    ensures forall k | k in KeysOf(us) :: exists i :: 0 <= i < |us| && us[i].key == k
  {
    if us != [] {
      var us' := us[..|us| - 1];
      KeysOfLists(us');
      assert us == us' + [us[|us| - 1]];
      forall k | k in KeysOf(us) ensures exists i :: 0 <= i < |us| && us[i].key == k {
        if k in KeysOf(us') {
          var i :| 0 <= i < |us'| && us'[i].key == k;
          assert us[i].key == k;
        }
      }
    }
  }

  /** Every unit has one owner, a member. */
  lemma {:induction false} AssignOwners(choose: Chooser, us: seq<Unit>, ms: seq<string>, load: map<string, nat>)
    requires ChoosesFrom(choose, ms)
    ensures var r := Assign(choose, us, load);
            r.owner.Keys == KeysOf(us) && forall k | k in r.owner :: r.owner[k] in ms
    decreases |us|
  {
    if us != [] {
      AssignOwners(choose, us[..|us| - 1], ms, load);
    }
  }

  /** The loads are those before with the weight of the units. */
  lemma {:induction false} AssignSums(choose: Chooser, us: seq<Unit>, ms: seq<string>, load: map<string, nat>)
    requires ChoosesFrom(choose, ms) && Distinct(ms) && Loaded(ms, load)
    ensures var r := Assign(choose, us, load);
            Loaded(ms, r.load) && SumOver(ms, r.load) == SumOver(ms, load) + WeightOf(us)
    decreases |us|
  {
    if us != [] {
      var us', u := us[..|us| - 1], us[|us| - 1];
      AssignSums(choose, us', ms, load);
      var q := Assign(choose, us', load);
      SumUpdate(ms, q.load, choose(u, q.load), u.weight);
    }
  }

  /** A member's load is what it had and the weight of the units it owns. */
  lemma {:induction false} AssignLoads(choose: Chooser, us: seq<Unit>, ms: seq<string>, load: map<string, nat>,
          m: string)
    requires ChoosesFrom(choose, ms) && DistinctKeys(us) && Loaded(ms, load) && m in ms
    ensures var r := Assign(choose, us, load);
            Loaded(ms, r.load) && r.load[m] == load[m] + OwnedWeight(us, r.owner, m)
    decreases |us|
  {
    if us != [] {
      var us', u := us[..|us| - 1], us[|us| - 1];
      AssignLoads(choose, us', ms, load, m);
      var q := Assign(choose, us', load);
      OwnedStep(us, q.owner, choose(u, q.load), m);
    }
  }

  // ---- bounded loads ----

  /** Every bound is factor (in thousandths) times the member's fair share of total, rounded down. */
  ghost predicate FairBounds(p: Pool, total: nat, factor: nat)
    requires ValidPool(p)
  {
    && SumOver(p.members, p.capOf) > 0
    && forall m | m in p.members :: p.bounds[m] == factor * total * p.capOf[m] / (SumOver(p.members, p.capOf) * MILLI)
  }

  lemma AtMostQuotient(a: nat, b: nat, d: nat)
    requires d > 0 && a * d <= b
    ensures a <= b / d
  {
    var q := b / d;
    assert (q + 1) * d == q * d + d;
    if a > q {
      ProductMonotone(q + 1, a, d);
    }
  }

  /** A member no more loaded for its capacity than any other is no more loaded than all of them together. */
  lemma {:induction false} Mediant(ms: seq<string>, load: map<string, nat>, cap: map<string, nat>, r: string)
    requires r in load && r in cap && forall m | m in ms :: m in load && m in cap
    requires forall m | m in ms :: !LessLoaded(load[m], cap[m], load[r], cap[r])
    ensures load[r] * SumOver(ms, cap) <= SumOver(ms, load) * cap[r]
  {
    if ms != [] {
      var m := ms[0];
      Mediant(ms[1..], load, cap, r);
      assert load[r] * cap[m] <= load[m] * cap[r];
      assert load[r] * (cap[m] + SumOver(ms[1..], cap)) == load[r] * cap[m] + load[r] * SumOver(ms[1..], cap);
      assert (load[m] + SumOver(ms[1..], load)) * cap[r] == load[m] * cap[r] + SumOver(ms[1..], load) * cap[r];
    }
  }

  lemma WithinShare(l: nat, w: nat, sum: nat, total: nat, cap: nat, C: nat, factor: nat)
    requires C > 0 && factor >= MILLI && sum + w <= total && l * C <= sum * cap
    ensures l <= factor * total * cap / (C * MILLI)
    ensures (l + w) * C <= total * cap + w * (C - cap)
  {
    ProductMonotone(sum, total - w, cap);
    assert (total - w) * cap == total * cap - w * cap;
    assert (l + w) * C == l * C + w * C;
    assert w * (C - cap) == w * C - w * cap;
    assert w * cap >= 0;
    ProductMonotone(MILLI, factor, total * cap);
    assert factor * total * cap == factor * (total * cap);
    assert l * (C * MILLI) == MILLI * (l * C);
    AtMostQuotient(l, factor * total * cap, C * MILLI);
  }

  /** The load a unit may leave on its member: within the bound, or past it by less than that unit. */
  ghost predicate Settled(p: Pool, total: nat, m: string, load: nat, w: nat)
    requires m in p.bounds && m in p.capOf && forall n | n in p.members :: n in p.capOf
  {
    || load <= p.bounds[m]
    || load * SumOver(p.members, p.capOf) <= total * p.capOf[m] + w * (SumOver(p.members, p.capOf) - p.capOf[m])
  }

  /**
   * The member picked was within its bound before, whatever the unit weighs: one over its bound is given nothing more.
   */
  lemma PickWithinBound(hash: Hash, u: Unit, p: Pool, load: map<string, nat>, total: nat, factor: nat)
    requires ValidPool(p) && Covers(load, p) && FairBounds(p, total, factor) && factor >= MILLI
    requires SumOver(p.members, load) + u.weight <= total
    ensures var r := PickOf(hash, u, p, load);
            load[r] <= p.bounds[r] && Settled(p, total, r, load[r] + u.weight, u.weight)
  {
    PickOfIsSorted(hash, u, p, load);
    var r := PickOf(hash, u, p, load);
    if !HasRoom(u, r, load, p) {
      forall m | m in p.members ensures !LessLoaded(load[m], p.capOf[m], load[r], p.capOf[r]) {
        assert m == r || Lighter(load, p, r, m) || !Lighter(load, p, m, r);
      }
      Mediant(p.members, load, p.capOf, r);
      WithinShare(load[r], u.weight, SumOver(p.members, load), total, p.capOf[r], SumOver(p.members, p.capOf), factor);
    }
  }

  ghost function ZeroLoad(ms: seq<string>): map<string, nat> {
    MapOf(Elements(ms), m => 0)
  }

  lemma {:induction false} SumOfZeros(ms: seq<string>, f: map<string, nat>)
    requires forall m | m in ms :: m in f && f[m] == 0
    ensures SumOver(ms, f) == 0
  {
    if ms != [] {
      SumOfZeros(ms[1..], f);
    }
  }

  lemma LoadSoFar(choose: Chooser, us: seq<Unit>, ms: seq<string>)
    requires ChoosesFrom(choose, ms) && Distinct(ms)
    ensures var r := Assign(choose, us, ZeroLoad(ms));
            Loaded(ms, r.load) && SumOver(ms, r.load) == WeightOf(us)
  {
    AssignSums(choose, us, ms, ZeroLoad(ms));
    SumOfZeros(ms, ZeroLoad(ms));
  }

  /**
   * What a member's load and the last unit put on it satisfy before the pass, and whatever unit a chosen one is given.
   */
  ghost predicate Kept(choose: Chooser, ms: seq<string>, total: nat, ok: (string, nat, nat) -> bool) {
    && (forall m | m in ms :: ok(m, 0, 0))
    && forall u: Unit, load: map<string, nat> | Loaded(ms, load) && SumOver(ms, load) + u.weight <= total ::
         choose(u, load) in load && ok(choose(u, load), load[choose(u, load)] + u.weight, u.weight)
  }

  /** It holds of every member over the whole pass, and so at every moment of it. */
  lemma {:induction false} KeptOverPass(choose: Chooser, us: seq<Unit>, ms: seq<string>, total: nat, m: string,
          ok: (string, nat, nat) -> bool)
    requires ChoosesFrom(choose, ms) && Distinct(ms) && DistinctKeys(us) && Kept(choose, ms, total, ok)
    requires WeightOf(us) <= total && m in ms
    ensures var r := Assign(choose, us, ZeroLoad(ms)); m in r.load && ok(m, r.load[m], LastWeight(us, r.owner, m))
    decreases |us|
  {
    if us != [] {
      var us', u := us[..|us| - 1], us[|us| - 1];
      var q := Assign(choose, us', ZeroLoad(ms));
      var c := choose(u, q.load);
      KeptOverPass(choose, us', ms, total, m, ok);
      LoadSoFar(choose, us', ms);
      assert c in q.load && ok(c, q.load[c] + u.weight, u.weight);
      KeptStep(q, u, c, m, LastWeight(us', q.owner, m), ok);
      OwnedStep(us, q.owner, c, m);
    }
  }

  lemma KeptStep(q: Plan, u: Unit, c: string, m: string, last: nat, ok: (string, nat, nat) -> bool)
    requires c in q.load && m in q.load
    requires ok(m, q.load[m], last) && ok(c, q.load[c] + u.weight, u.weight)
    ensures m in Put(q, u, c).load && ok(m, Put(q, u, c).load[m], if m == c then u.weight else last)
  {
    assert Put(q, u, c).load == q.load[c := q.load[c] + u.weight];
  }

  /**
   * Every member's load is within its bound but for the last unit it was given, and past the bound only as far as that
   * unit can put it: load times the whole capacity is at most total times its own and w times the others'.
   */
  lemma LoadsBounded(hash: Hash, us: seq<Unit>, p: Pool, factor: nat, total: nat, m: string)
    requires ValidPool(p) && DistinctKeys(us) && FairBounds(p, total, factor) && factor >= MILLI
    requires WeightOf(us) <= total && m in p.members
    ensures var r := Assign(Picking(hash, p), us, ZeroLoad(p.members));
            var w := LastWeight(us, r.owner, m);
            m in r.load && r.load[m] - w <= p.bounds[m] && Settled(p, total, m, r.load[m], w)
  {
    var ok := (n: string, l: nat, w: nat) =>
      ValidPool(p) && n in p.members && l - w <= p.bounds[n] && Settled(p, total, n, l, w);
    var choose := Picking(hash, p);
    assert Kept(choose, p.members, total, ok) by {
      forall u: Unit, load: map<string, nat> | Loaded(p.members, load) && SumOver(p.members, load) + u.weight <= total
        ensures choose(u, load) in load && ok(choose(u, load), load[choose(u, load)] + u.weight, u.weight)
      {
        PickingPicks(hash, p, u, load);
        PickWithinBound(hash, u, p, load, total, factor);
      }
    }
    KeptOverPass(choose, us, p.members, total, m, ok);
  }

  // ---- place ----

  ghost predicate ValidFleet(ms: seq<string>, cs: seq<nat>) {
    Distinct(ms) && |ms| == |cs| && forall c | c in cs :: c > 0
  }

  /** Each member's capacity, as listed. */
  ghost function CapMap(ms: seq<string>, cs: seq<nat>): map<string, nat>
    requires |ms| == |cs|
  {
    if ms == [] then map[] else CapMap(ms[..|ms| - 1], cs[..|cs| - 1])[ms[|ms| - 1] := cs[|cs| - 1]]
  }

  lemma {:induction false} CapMapLists(ms: seq<string>, cs: seq<nat>)
    requires |ms| == |cs|
    ensures forall m :: m in CapMap(ms, cs) <==> m in ms
    ensures forall m | m in ms :: CapMap(ms, cs)[m] in cs
  {
    if ms != [] {
      var ms', cs' := ms[..|ms| - 1], cs[..|cs| - 1];
      assert ms == ms' + [ms[|ms| - 1]] && cs == cs' + [cs[|cs| - 1]];
      CapMapLists(ms', cs');
    }
  }

  ghost function BoundsFor(ms: seq<string>, capOf: map<string, nat>, capacity: nat, total: nat,
          factor: nat): map<string, nat>
    requires capacity > 0 && forall m | m in ms :: m in capOf
  {
    MapOf(Elements(ms), m => if m in capOf then factor * total * capOf[m] / (capacity * MILLI) else 0)
  }

  lemma CapacityPositive(ms: seq<string>, capOf: map<string, nat>)
    requires ms != [] && forall m | m in ms :: m in capOf && capOf[m] > 0
    ensures SumOver(ms, capOf) > 0
  {
    SumBounds(ms, capOf, ms[0]);
  }

  ghost function PoolFor(ms: seq<string>, capOf: map<string, nat>, total: nat, factor: nat): (p: Pool)
    requires ms != [] && Distinct(ms) && forall m | m in ms :: m in capOf && capOf[m] > 0
    ensures ValidPool(p) && FairBounds(p, total, factor) && p.members == ms && p.capOf == capOf
  {
    CapacityPositive(ms, capOf);
    Pool(ms, capOf, BoundsFor(ms, capOf, SumOver(ms, capOf), total, factor))
  }

  ghost function FleetPool(us: seq<Unit>, ms: seq<string>, cs: seq<nat>, factor: nat): (p: Pool)
    requires ms != [] && ValidFleet(ms, cs)
    ensures ValidPool(p) && FairBounds(p, WeightOf(us), factor) && p.members == ms && p.capOf == CapMap(ms, cs)
  {
    CapMapLists(ms, cs);
    PoolFor(ms, CapMap(ms, cs), WeightOf(us), factor)
  }

  /** Where place puts every unit; nowhere without members. */
  ghost function PlaceAll(hash: Hash, units: seq<Unit>, ms: seq<string>, cs: seq<nat>, factor: nat): Plan
    requires ValidFleet(ms, cs)
  {
    if ms == [] then Plan(map[], map[]) else
      var us := SortUnits(units);
      Assign(Picking(hash, FleetPool(us, ms, cs, factor)), us, ZeroLoad(ms))
  }

  /**
   * Every unit has exactly one owner, a member; every load is the weight of what the member owns; the loads make the
   * total.
   */
  lemma PlaceConserves(hash: Hash, units: seq<Unit>, ms: seq<string>, cs: seq<nat>, factor: nat)
    requires ValidFleet(ms, cs) && ms != [] && DistinctKeys(units)
    ensures var us, r := SortUnits(units), PlaceAll(hash, units, ms, cs, factor);
            && (forall u | u in units :: u.key in r.owner && r.owner[u.key] in ms)
            && (forall k | k in r.owner :: exists i :: 0 <= i < |us| && us[i] in units && us[i].key == k)
            && (forall m | m in ms :: m in r.load && r.load[m] == OwnedWeight(us, r.owner, m))
            && SumOver(ms, r.load) == WeightOf(us)
  {
    var us := SortedListing(units);
    AssignConserves(Picking(hash, FleetPool(us, ms, cs, factor)), us, ms);
    forall u | u in units ensures u.key in KeysOf(us) {
      assert u in us;
    }
  }

  lemma SortedListing(units: seq<Unit>) returns (us: seq<Unit>)
    requires DistinctKeys(units)
    ensures us == SortUnits(units) && DistinctKeys(us) && forall u :: u in us <==> u in units
    ensures forall k :: k in KeysOf(us) <==> exists i :: 0 <= i < |us| && us[i] in units && us[i].key == k
  {
    us := SortUnits(units);
    SortUnitsKeeps(units);
    assert forall u :: u in us <==> u in Elements(us);
    assert forall u :: u in units <==> u in Elements(units);
    KeysOfLists(us);
  }

  lemma AssignConserves(choose: Chooser, us: seq<Unit>, ms: seq<string>)
    requires ChoosesFrom(choose, ms) && Distinct(ms) && DistinctKeys(us)
    ensures var r := Assign(choose, us, ZeroLoad(ms));
            && r.owner.Keys == KeysOf(us) && (forall k | k in r.owner :: r.owner[k] in ms)
            && (forall m | m in ms :: m in r.load && r.load[m] == OwnedWeight(us, r.owner, m))
            && SumOver(ms, r.load) == WeightOf(us)
  {
    LoadSoFar(choose, us, ms);
    AssignOwners(choose, us, ms, ZeroLoad(ms));
    forall m | m in ms {
      AssignLoads(choose, us, ms, ZeroLoad(ms), m);
    }
  }

  /** place keeps every load within its bound but for the last unit the member was given. */
  lemma PlaceIsBounded(hash: Hash, units: seq<Unit>, ms: seq<string>, cs: seq<nat>, factor: nat, m: string)
    requires ValidFleet(ms, cs) && DistinctKeys(units) && factor >= MILLI && m in ms
    ensures var us, r := SortUnits(units), PlaceAll(hash, units, ms, cs, factor);
            var p, w := FleetPool(us, ms, cs, factor), LastWeight(us, r.owner, m);
            m in r.load && r.load[m] - w <= p.bounds[m] && Settled(p, WeightOf(us), m, r.load[m], w)
  {
    SortUnitsKeeps(units);
    var us := SortUnits(units);
    LoadsBounded(hash, us, FleetPool(us, ms, cs, factor), factor, WeightOf(us), m);
  }

  ghost predicate Alike(p: Pool, q: Pool) {
    && ValidPool(p) && ValidPool(q)
    && (forall m :: m in p.members <==> m in q.members) && p.capOf == q.capOf && p.bounds == q.bounds
  }

  lemma PickIgnoresMemberOrder(hash: Hash, u: Unit, p: Pool, q: Pool, load: map<string, nat>)
    requires Alike(p, q) && Covers(load, p) && Covers(load, q)
    ensures PickOf(hash, u, p, load) == PickOf(hash, u, q, load)
  {
    PickOfIsSorted(hash, u, p, load);
    PickOfIsSorted(hash, u, q, load);
    assert Elements(p.members) == Elements(q.members);
    PickUnique(hash, u, p, q, load, PickOf(hash, u, p, load), PickOf(hash, u, q, load));
  }

  /** Two choices alike wherever the members have loads make the same plan. */
  lemma {:induction false} AssignCongruent(c: Chooser, d: Chooser, us: seq<Unit>, ms: seq<string>, load: map<string,
          nat>)
    requires Loaded(ms, load)
    requires forall u: Unit, l: map<string, nat> | Loaded(ms, l) :: c(u, l) == d(u, l)
    ensures Assign(c, us, load) == Assign(d, us, load) && Loaded(ms, Assign(c, us, load).load)
    decreases |us|
  {
    if us != [] {
      AssignCongruent(c, d, us[..|us| - 1], ms, load);
    }
  }

  lemma AlikeChoices(hash: Hash, p: Pool, q: Pool)
    requires Alike(p, q)
    ensures forall u: Unit, l: map<string, nat> | Loaded(p.members, l) ::
      Picking(hash, p)(u, l) == Picking(hash, q)(u, l)
  {
    forall u: Unit, l: map<string, nat> | Loaded(p.members, l)
      ensures Picking(hash, p)(u, l) == Picking(hash, q)(u, l)
    {
      PickingPicks(hash, p, u, l);
      PickingPicks(hash, q, u, l);
      PickIgnoresMemberOrder(hash, u, p, q, l);
    }
  }

  lemma PoolsAlike(us: seq<Unit>, ms: seq<string>, cs: seq<nat>, ms': seq<string>, cs': seq<nat>, factor: nat)
    requires ms != [] && ms' != [] && ValidFleet(ms, cs) && ValidFleet(ms', cs')
    requires forall m :: m in ms <==> m in ms'
    requires CapMap(ms, cs) == CapMap(ms', cs')
    ensures Alike(FleetPool(us, ms, cs, factor), FleetPool(us, ms', cs', factor))
  {
    var p, q := FleetPool(us, ms, cs, factor), FleetPool(us, ms', cs', factor);
    SumIgnoresOrder(ms, ms', p.capOf);
    assert p.bounds == q.bounds;
  }

  /** The owners are the same for every order of the units and of the members with their capacities. */
  lemma PlaceIgnoresOrder(hash: Hash, units: seq<Unit>, units': seq<Unit>, ms: seq<string>, cs: seq<nat>,
          ms': seq<string>, cs': seq<nat>, factor: nat)
    requires ValidFleet(ms, cs) && ValidFleet(ms', cs') && DistinctKeys(units) && DistinctKeys(units')
    requires multiset(units) == multiset(units') && multiset(ms) == multiset(ms')
    requires CapMap(ms, cs) == CapMap(ms', cs')
    ensures PlaceAll(hash, units, ms, cs, factor) == PlaceAll(hash, units', ms', cs', factor)
  {
    MultisetElements(units, units');
    MultisetElements(ms, ms');
    SortUnitsIgnoresOrder(units, units');
    if ms != [] {
      assert ms[0] in ms';
      var us := SortUnits(units);
      var p, q := FleetPool(us, ms, cs, factor), FleetPool(us, ms', cs', factor);
      PoolsAlike(us, ms, cs, ms', cs', factor);
      AlikeChoices(hash, p, q);
      assert ZeroLoad(ms) == ZeroLoad(ms');
      AssignCongruent(Picking(hash, p), Picking(hash, q), us, ms, ZeroLoad(ms));
    }
  }

  lemma MultisetElements<T(!new)>(a: seq<T>, b: seq<T>)
    requires multiset(a) == multiset(b)
    ensures Elements(a) == Elements(b) && |a| == |b|
    ensures forall x :: x in a <==> x in b
  {
    assert forall x :: x in a <==> x in multiset(a);
    assert forall x :: x in b <==> x in multiset(b);
    assert |multiset(a)| == |a| && |multiset(b)| == |b|;
  }
}
