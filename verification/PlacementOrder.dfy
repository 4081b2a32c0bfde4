/**
 * The order of the pass, and what each unit finds when its turn comes (internal/allocator/placement.go: sortUnits,
 * place, routeJob).
 */
module PlacementOrder {
  import opened FixedLog
  import opened Ordering
  import opened Scoring
  import opened Placement
  import opened Placing
  import opened TrueScore

  /** Each unit once, by order and, of one order, by key. */
  lemma PassAscends(us: seq<Unit>)
    requires DistinctKeys(us)
    ensures var s := SortUnits(us);
            && |s| == |us| && (forall u :: u in s <==> u in us)
            && forall i, j | 0 <= i < j < |s| ::
                 s[i].order < s[j].order || (s[i].order == s[j].order && Less(s[i].key, s[j].key))
  {
    UnitLessIsStrictOrder(us);
    SortBySorts(UnitLess, us);
    var s := SortUnits(us);
    assert forall u :: u in s <==> u in Elements(s);
    assert forall u :: u in us <==> u in Elements(us);
    assert forall i, j | 0 <= i < j < |s| :: UnitLess(s[i], s[j]);
  }

  /** A member's capacity is the one listed with it. */
  lemma {:induction false} CapMapAt(ms: seq<string>, cs: seq<nat>, i: nat)
    requires |ms| == |cs| && Distinct(ms) && i < |ms|
    ensures ms[i] in CapMap(ms, cs) && CapMap(ms, cs)[ms[i]] == cs[i]
  {
    var n := |ms| - 1;
    if i < n {
      CapMapAt(ms[..n], cs[..n], i);
    }
  }

  lemma {:induction false} InTurn(choose: Chooser, us: seq<Unit>, load: map<string, nat>, i: nat)
    requires DistinctKeys(us) && i < |us|
    ensures var r := Assign(choose, us, load);
            us[i].key in r.owner && r.owner[us[i].key] == choose(us[i], Assign(choose, us[..i], load).load)
    decreases |us|
  {
    var n := |us| - 1;
    if i < n {
      InTurn(choose, us[..n], load, i);
      assert us[..n][..i] == us[..i];
    }
  }

  /** The units before the i-th stay where they are put. */
  lemma {:induction false} OwnedInTurn(choose: Chooser, us: seq<Unit>, load: map<string, nat>, i: nat, m: string)
    requires DistinctKeys(us) && i < |us|
    ensures OwnedWeight(us[..i], Assign(choose, us, load).owner, m) ==
            OwnedWeight(us[..i], Assign(choose, us[..i], load).owner, m)
    decreases |us|
  {
    var n := |us| - 1;
    var q := Assign(choose, us[..n], load);
    OwnedFrame(us[..i], q.owner, us[n].key, m, choose(us[n], q.load));
    if i < n {
      OwnedInTurn(choose, us[..n], load, i, m);
      assert us[..n][..i] == us[..i];
    }
  }

  /**
   * What the i-th unit of the pass is put on is the pick for it, given of each member the weight of the units before it
   * that are put there.
   */
  lemma PlacedInTurn(hash: Hash, units: seq<Unit>, ms: seq<string>, cs: seq<nat>, factor: nat, i: nat)
    returns (load: map<string, nat>)
    requires ValidFleet(ms, cs) && ms != [] && DistinctKeys(units) && i < |SortUnits(units)|
    ensures var us, r := SortUnits(units), PlaceAll(hash, units, ms, cs, factor);
            && (forall m | m in ms :: m in load && load[m] == OwnedWeight(us[..i], r.owner, m))
            && us[i].key in r.owner
            && IsPick(hash, us[i], FleetPool(us, ms, cs, factor), load, r.owner[us[i].key])
  {
    SortUnitsKeeps(units);
    var us := SortUnits(units);
    var p := FleetPool(us, ms, cs, factor);
    load := TurnOf(hash, us, p, i);
    TurnIsPick(hash, us, p, load, i);
  }

  /** The loads the i-th unit finds. */
  lemma TurnOf(hash: Hash, us: seq<Unit>, p: Pool, i: nat) returns (load: map<string, nat>)
    requires ValidPool(p) && DistinctKeys(us) && i < |us|
    ensures load == Assign(Picking(hash, p), us[..i], ZeroLoad(p.members)).load
    ensures forall m | m in p.members ::
      m in load && load[m] ==
      OwnedWeight(us[..i], Assign(Picking(hash, p), us, ZeroLoad(p.members)).owner, m)
  {
    var choose, zero := Picking(hash, p), ZeroLoad(p.members);
    load := Assign(choose, us[..i], zero).load;
    forall m | m in p.members
      ensures m in load && load[m] == OwnedWeight(us[..i], Assign(choose, us, zero).owner, m)
    {
      AssignLoads(choose, us[..i], p.members, zero, m);
      OwnedInTurn(choose, us, zero, i, m);
    }
  }

  lemma TurnIsPick(hash: Hash, us: seq<Unit>, p: Pool, load: map<string, nat>, i: nat)
    requires ValidPool(p) && DistinctKeys(us) && i < |us| && Covers(load, p)
    requires load == Assign(Picking(hash, p), us[..i], ZeroLoad(p.members)).load
    ensures var r := Assign(Picking(hash, p), us, ZeroLoad(p.members));
            us[i].key in r.owner && IsPick(hash, us[i], p, load, r.owner[us[i].key])
  {
    InTurn(Picking(hash, p), us, ZeroLoad(p.members), i);
    PickingPicks(hash, p, us[i], load);
    PickOfIsSorted(hash, us[i], p, load);
  }

  /**
   * Over a whole placement: a member with room for a unit when its turn comes, whose true score for it exceeds that of
   * the member it is put on by more than the rounding, there is not; nor one of the same capacity and a higher hash.
   */
  lemma NoOneIsPassedOver(hash: Hash, units: seq<Unit>, ms: seq<string>, cs: seq<nat>, factor: nat, i: nat, a: nat,
          b: nat)
    requires ValidFleet(ms, cs) && DistinctKeys(units) && i < |SortUnits(units)| && a < |ms| && b < |ms|
    requires var us, r := SortUnits(units), PlaceAll(hash, units, ms, cs, factor);
             && us[i].key in r.owner && r.owner[us[i].key] == ms[b]
             && OwnedWeight(us[..i], r.owner, ms[a]) + us[i].weight <= FleetPool(us, ms, cs, factor).bounds[ms[a]]
    ensures var k := SortUnits(units)[i].key;
            && !Exceeds(hash(ms[a], k), cs[a], hash(ms[b], k), cs[b])
            && (cs[a] == cs[b] ==> hash(ms[a], k) <= hash(ms[b], k))
  {
    var us := SortUnits(units);
    var load := PlacedInTurn(hash, units, ms, cs, factor, i);
    assert ms[a] in ms;
    PickIsTrue(hash, us[i], FleetPool(us, ms, cs, factor), load, ms[b], ms[a]);
    CapMapAt(ms, cs, a);
    CapMapAt(ms, cs, b);
  }

  // ---- routeJob ----

  /** The weight of the targets of a key. */
  function WeightOn(ts: seq<JobTarget>, key: string): nat {
    if ts == [] then 0 else (if ts[0].key == key then ts[0].weight else 0) + WeightOn(ts[1..], key)
  }

  lemma {:induction false} WeightOnLast(ts: seq<JobTarget>, t: JobTarget, key: string)
    ensures WeightOn(ts + [t], key) == WeightOn(ts, key) + if t.key == key then t.weight else 0
  {
    if ts == [] {
      assert [t][1..] == [];
    } else {
      assert (ts + [t])[1..] == ts[1..] + [t];
      WeightOnLast(ts[1..], t, key);
    }
  }

  lemma {:induction false} DisplacedSoFar(ts: seq<JobTarget>, n: nat, owner: map<string, string>, pool: seq<string>,
          key: string)
    requires n <= |ts|
    ensures var w := Displaced(ts, n, owner, pool);
            && (key in w <==> !(key in owner && owner[key] in pool) && exists i :: 0 <= i < n && ts[i].key == key)
            && (key in w ==> w[key] == WeightOn(ts[..n], key))
    ensures (forall i | 0 <= i < n :: ts[i].key != key) ==> WeightOn(ts[..n], key) == 0
  {
    if n > 0 {
      DisplacedSoFar(ts, n - 1, owner, pool, key);
      assert ts[..n] == ts[..n - 1] + [ts[n - 1]];
      WeightOnLast(ts[..n - 1], ts[n - 1], key);
    }
  }

  /**
   * What is placed anew for a job is every key whose placed member, if it has one, is not of the pool, with the weight
   * of all the job's targets of it.
   */
  lemma DisplacedExactly(ts: seq<JobTarget>, owner: map<string, string>, pool: seq<string>, key: string)
    ensures var w := Displaced(ts, |ts|, owner, pool);
            && (key in w <==> !(key in owner && owner[key] in pool) && exists t :: t in ts && t.key == key)
            && (key in w ==> w[key] == WeightOn(ts, key))
  {
    DisplacedSoFar(ts, |ts|, owner, pool, key);
    assert ts[..|ts|] == ts;
    if i :| 0 <= i < |ts| && ts[i].key == key {
      assert ts[i] in ts;
    }
  }
}
