/** The loops of the placement (internal/allocator/placement.go: place, boundsOf, routeJob), proved against the pass. */
module Placing {
  import opened FixedLog
  import opened Ordering
  import opened Scoring
  import opened Placement

  method Total(us: seq<Unit>) returns (total: nat)
    ensures total == WeightOf(us)
  {
    total := 0;
    for i := 0 to |us|
      invariant total == WeightOf(us[..i])
    {
      assert us[..i + 1][..i] == us[..i];
      total := total + us[i].weight;
    }
    assert us[..|us|] == us;
  }

  method Bounds(ms: seq<string>, capOf: map<string, nat>, capacity: nat, total: nat, factor: nat)
    returns (bounds: map<string, nat>)
    requires capacity > 0 && forall m | m in ms :: m in capOf
    ensures bounds == BoundsFor(ms, capOf, capacity, total, factor)
  {
    bounds := map[];
    for i := 0 to |ms|
      invariant bounds == BoundsFor(ms[..i], capOf, capacity, total, factor)
    {
      var n := factor * total * capOf[ms[i]];
      assert ms[..i + 1] == ms[..i] + [ms[i]];
      bounds := bounds[ms[i] := n / (capacity * MILLI)];
    }
    assert ms[..|ms|] == ms;
  }

  /** The members' capacities by name, their sum, and their empty loads. */
  method Fleet(ms: seq<string>, cs: seq<nat>) returns (capOf: map<string, nat>, capacity: nat, load: map<string, nat>)
    requires ValidFleet(ms, cs)
    ensures capOf == CapMap(ms, cs) && load == ZeroLoad(ms)
    ensures forall m | m in ms :: m in capOf
    ensures capacity == SumOver(ms, capOf)
  {
    capOf, capacity, load := map[], 0, map[];
    for i := 0 to |ms|
      invariant capOf == CapMap(ms[..i], cs[..i]) && forall m | m in ms[..i] :: m in capOf
      invariant (forall m :: m in load <==> m in ms[..i]) && forall m | m in load :: load[m] == 0
      invariant capacity == SumOver(ms[..i], capOf)
    {
      FleetStep(ms, cs, i, capOf);
      capOf := capOf[ms[i] := cs[i]];
      capacity := capacity + cs[i];
      load := load[ms[i] := 0];
    }
    assert ms[..|ms|] == ms && cs[..|cs|] == cs;
    IsZeroLoad(ms, load);
  }

  lemma IsZeroLoad(ms: seq<string>, load: map<string, nat>)
    requires (forall m :: m in load <==> m in ms) && forall m | m in load :: load[m] == 0
    ensures load == ZeroLoad(ms)
  {
    assert forall m :: m in Elements(ms) <==> m in ms;
    assert load.Keys == Elements(ms);
  }

  lemma FleetStep(ms: seq<string>, cs: seq<nat>, i: nat, capOf: map<string, nat>)
    requires ValidFleet(ms, cs) && i < |ms| && forall m | m in ms[..i] :: m in capOf
    ensures ms[..i + 1] == ms[..i] + [ms[i]]
    ensures CapMap(ms[..i + 1], cs[..i + 1]) == CapMap(ms[..i], cs[..i])[ms[i] := cs[i]]
    ensures Loaded(ms[..i + 1], capOf[ms[i] := cs[i]])
    ensures SumOver(ms[..i + 1], capOf[ms[i] := cs[i]]) == SumOver(ms[..i], capOf) + cs[i]
  {
    var before, capOf' := ms[..i], capOf[ms[i] := cs[i]];
    assert ms[..i + 1] == before + [ms[i]];
    assert ms[..i + 1][..i] == ms[..i] && cs[..i + 1][..i] == cs[..i];
    assert ms[i] !in before;
    SumFrame(before, capOf, ms[i], cs[i]);
    SumSplit(before, [ms[i]], capOf');
  }

  lemma {:induction false} SumFrame(ms: seq<string>, f: map<string, nat>, k: string, v: nat)
    requires k !in ms && forall m | m in ms :: m in f
    ensures SumOver(ms, f[k := v]) == SumOver(ms, f)
  {
    if ms != [] {
      SumFrame(ms[1..], f, k, v);
    }
  }

  /** place: the units in the order of the pass, each on its pick, whatever order they are given in. */
  method Place(hash: Hash, units: seq<Unit>, ms: seq<string>, cs: seq<nat>, factor: nat)
    returns (owner: map<string, string>, load: map<string, nat>, total: nat)
    requires ValidFleet(ms, cs)
    ensures Plan(owner, load) == PlaceAll(hash, units, ms, cs, factor)
    ensures total == WeightOf(SortUnits(units))
  {
    var us := SortUnits(units);
    total := Total(us);
    owner, load := map[], map[];
    if ms == [] {
      return;
    }
    var capOf, capacity;
    capOf, capacity, load := Fleet(ms, cs);
    CapMapLists(ms, cs);
    CapacityPositive(ms, capOf);
    var bounds := Bounds(ms, capOf, capacity, total, factor);
    var p := Pool(ms, capOf, bounds);
    owner, load := Pass(hash, us, p, load);
  }

  method Pass(hash: Hash, us: seq<Unit>, p: Pool, load0: map<string, nat>) returns (owner: map<string, string>,
          load: map<string, nat>)
    requires ValidPool(p) && Covers(load0, p)
    ensures Plan(owner, load) == Assign(Picking(hash, p), us, load0)
  {
    owner, load := map[], load0;
    ghost var choose := Picking(hash, p);
    for i := 0 to |us|
      invariant Covers(load, p)
      invariant Plan(owner, load) == Assign(choose, us[..i], load0)
    {
      ghost var before := load;
      var m;
      m, owner, load := Step(hash, us[i], p, owner, load);
      PickIsChosen(hash, us[i], p, before, m);
      assert us[..i + 1][..i] == us[..i];
    }
    assert us[..|us|] == us;
  }

  lemma PickIsChosen(hash: Hash, u: Unit, p: Pool, load: map<string, nat>, m: string)
    requires ValidPool(p) && Covers(load, p) && m == PickSorted(hash, u, p, load)
    ensures m == Picking(hash, p)(u, load) && m in load
  {
    PickOfIsSorted(hash, u, p, load);
    PickingPicks(hash, p, u, load);
    assert m in p.members;
  }

  method Step(hash: Hash, u: Unit, p: Pool, owner: map<string, string>, load: map<string, nat>)
    returns (m: string, owner': map<string, string>, load': map<string, nat>)
    requires ValidPool(p) && Covers(load, p)
    ensures m == PickSorted(hash, u, p, load) && Plan(owner', load') == Put(Plan(owner, load), u, m) && Covers(load', p)
  {
    m := Pick(hash, u, p, load);
    assert m in p.members && m in load;
    owner', load' := owner[u.key := m], load[m := load[m] + u.weight];
  }

  // ---- routeJob ----

  /** A target of a probe job, with its shard key and weight. */
  datatype JobTarget = JobTarget(target: string, key: string, weight: nat)

  /** Whether the placement's member for the key is among those the job is routed among. */
  predicate Placed(key: string, owner: map<string, string>, pool: seq<string>) {
    key in owner && owner[key] in pool
  }

  /** The weights, by key, of the first n targets that have to go elsewhere. */
  function Displaced(ts: seq<JobTarget>, n: nat, owner: map<string, string>, pool: seq<string>): map<string, nat>
    requires n <= |ts|
  {
    if n == 0 then map[] else
      var w, t := Displaced(ts, n - 1, owner, pool), ts[n - 1];
      if Placed(t.key, owner, pool) then w else w[t.key := (if t.key in w then w[t.key] else 0) + t.weight]
  }

  ghost function UnitSet(weights: map<string, nat>, order: string -> nat): set<Unit> {
    set k | k in weights :: Unit(k, order(k), weights[k])
  }

  /** A listing of the displaced units, as the iteration of a map makes one: any order. */
  ghost predicate Lists(us: seq<Unit>, weights: map<string, nat>, order: string -> nat) {
    DistinctKeys(us) && Elements(us) == UnitSet(weights, order)
  }

  /** The displaced units sorted are the same for every listing. */
  lemma ListingDoesNotMatter(us: seq<Unit>, vs: seq<Unit>, weights: map<string, nat>, order: string -> nat)
    requires Lists(us, weights, order) && Lists(vs, weights, order)
    ensures SortUnits(us) == SortUnits(vs)
  {
    SortUnitsIgnoresOrder(us, vs);
  }

  method ListUnits(weights: map<string, nat>, order: string -> nat) returns (us: seq<Unit>)
    ensures Lists(us, weights, order)
  {
    us := [];
    var todo := weights.Keys;
    while todo != {}
      invariant todo <= weights.Keys
      invariant DistinctKeys(us)
      invariant forall k | k in weights :: k !in todo <==> Unit(k, order(k), weights[k]) in us
      invariant forall u | u in us ::
          u.key in weights && u.key !in todo && u == Unit(u.key, order(u.key), weights[u.key])
      decreases todo
    {
      var k :| k in todo;
      assert forall i | 0 <= i < |us| :: us[i] in us && us[i].key != k;
      us := us + [Unit(k, order(k), weights[k])];
      todo := todo - {k};
    }
    assert Elements(us) == UnitSet(weights, order);
  }

  /**
   * Where routeJob sends a target: to the placement's member when the job is routed to it, and else by a pass of its
   * own.
   */
  ghost function RouteOf(t: JobTarget, owner: map<string, string>, pool: seq<string>, elsewhere: map<string,
          string>): string {
    if Placed(t.key, owner, pool) then owner[t.key] else if t.key in elsewhere then elsewhere[t.key] else ""
  }

  ghost predicate Routed(ts: seq<JobTarget>, owner: map<string, string>, pool: seq<string>, elsewhere: map<string,
          string>, out: map<string, string>) {
    && (forall k | k in out :: IsTarget(ts, k))
    && forall t | t in ts :: t.target in out && out[t.target] == RouteOf(t, owner, pool, elsewhere)
  }

  ghost predicate IsTarget(ts: seq<JobTarget>, k: string) {
    exists i :: 0 <= i < |ts| && ts[i].target == k
  }

  ghost predicate DistinctTargets(ts: seq<JobTarget>) {
    forall i, j | 0 <= i < j < |ts| :: ts[i].target != ts[j].target
  }

  /** The targets routed as placed, and the weights of the others by key. */
  method Split(ts: seq<JobTarget>, owner: map<string, string>, pool: seq<string>) returns (out: map<string, string>,
          weights: map<string, nat>)
    requires DistinctTargets(ts)
    ensures weights == Displaced(ts, |ts|, owner, pool)
    ensures forall k | k in out :: IsTarget(ts, k)
    ensures forall t | t in ts :: t.target in out <==> Placed(t.key, owner, pool)
    ensures forall t | t in ts && Placed(t.key, owner, pool) :: out[t.target] == owner[t.key]
  {
    out, weights := map[], map[];
    for i := 0 to |ts|
      invariant weights == Displaced(ts, i, owner, pool)
      invariant forall k | k in out :: IsTarget(ts, k)
      invariant forall j | 0 <= j < |ts| :: ts[j].target in out <==> j < i && Placed(ts[j].key, owner, pool)
      invariant forall j | 0 <= j < |ts| && ts[j].target in out :: out[ts[j].target] == owner[ts[j].key]
    {
      var t := ts[i];
      if Placed(t.key, owner, pool) {
        out := out[t.target := owner[t.key]];
      } else {
        weights := weights[t.key := (if t.key in weights then weights[t.key] else 0) + t.weight];
      }
    }
  }

  /** The others, sent where the pass of their own put their keys. */
  method Fill(ts: seq<JobTarget>, owner: map<string, string>, pool: seq<string>, elsewhere: map<string, string>,
          placed: map<string, string>)
    returns (out: map<string, string>)
    requires DistinctTargets(ts)
    requires forall k | k in placed :: IsTarget(ts, k)
    requires forall t | t in ts :: t.target in placed <==> Placed(t.key, owner, pool)
    requires forall t | t in ts && Placed(t.key, owner, pool) :: placed[t.target] == owner[t.key]
    requires forall t | t in ts && !Placed(t.key, owner, pool) :: t.key in elsewhere
    ensures Routed(ts, owner, pool, elsewhere, out)
  {
    out := placed;
    for i := 0 to |ts|
      invariant forall k | k in out :: IsTarget(ts, k)
      invariant forall j | 0 <= j < i :: ts[j].target in out
      invariant forall j | i <= j < |ts| :: ts[j].target in out <==> ts[j].target in placed
      invariant forall j | 0 <= j < |ts| && ts[j].target in out ::
        out[ts[j].target] == RouteOf(ts[j], owner, pool, elsewhere)
    {
      var t := ts[i];
      assert t in ts;
      if t.target !in out {
        out := out[t.target := elsewhere[t.key]];
      }
    }
  }

  method RouteJob(hash: Hash, order: string -> nat, ts: seq<JobTarget>, pool: seq<string>, capOf: map<string, nat>,
                  owner: map<string, string>, load0: map<string, nat>, total: nat, factor: nat)
    returns (out: map<string, string>, ghost us: seq<Unit>)
    requires DistinctTargets(ts) && Distinct(pool)
    requires forall m | m in pool :: m in capOf && capOf[m] > 0 && m in load0
    ensures pool == [] ==> out == map[]
    ensures pool != [] ==>
      && Lists(us, Displaced(ts, |ts|, owner, pool), order)
      && Routed(ts, owner, pool,
                Assign(Picking(hash, PoolFor(pool, capOf, total, factor)), SortUnits(us), load0).owner, out)
  {
    out, us := map[], [];
    if pool == [] {
      return;
    }
    var placed, weights := Split(ts, owner, pool);
    var listed := ListUnits(weights, order);
    us := listed;
    CapacityPositive(pool, capOf);
    var capacity := Capacity(pool, capOf);
    var bounds := Bounds(pool, capOf, capacity, total, factor);
    var p := Pool(pool, capOf, bounds);
    var elsewhere, _ := Pass(hash, SortUnits(listed), p, load0);
    DisplacedAreOwned(hash, ts, owner, pool, listed, order, p, load0);
    out := Fill(ts, owner, pool, elsewhere, placed);
  }

  method Capacity(pool: seq<string>, capOf: map<string, nat>) returns (capacity: nat)
    requires forall m | m in pool :: m in capOf
    ensures capacity == SumOver(pool, capOf)
  {
    capacity := 0;
    for i := 0 to |pool|
      invariant capacity == SumOver(pool[..i], capOf)
    {
      assert pool[..i + 1] == pool[..i] + [pool[i]];
      SumSplit(pool[..i], [pool[i]], capOf);
      capacity := capacity + capOf[pool[i]];
    }
    assert pool[..|pool|] == pool;
  }

  lemma {:induction false} DisplacedKeys(ts: seq<JobTarget>, n: nat, owner: map<string, string>, pool: seq<string>,
          t: JobTarget)
    requires n <= |ts| && t in ts[..n] && !Placed(t.key, owner, pool)
    ensures t.key in Displaced(ts, n, owner, pool)
  {
    if t != ts[n - 1] {
      assert ts[..n] == ts[..n - 1] + [ts[n - 1]];
      DisplacedKeys(ts, n - 1, owner, pool, t);
    }
  }

  /** Every target that has to go elsewhere goes to a member of the pool. */
  lemma DisplacedAreOwned(hash: Hash, ts: seq<JobTarget>, owner: map<string, string>, pool: seq<string>,
          us: seq<Unit>, order: string -> nat, p: Pool, load: map<string, nat>)
    requires Lists(us, Displaced(ts, |ts|, owner, pool), order) && ValidPool(p) && Covers(load, p)
    ensures forall t | t in ts && !Placed(t.key, owner, pool) ::
              var owner' := Assign(Picking(hash, p), SortUnits(us), load).owner;
              t.key in owner' && owner'[t.key] in p.members
  {
    SortUnitsKeeps(us);
    AssignOwners(Picking(hash, p), SortUnits(us), p.members, load);
    KeysOfLists(SortUnits(us));
    forall t | t in ts && !Placed(t.key, owner, pool)
      ensures t.key in KeysOf(SortUnits(us))
    {
      assert ts[..|ts|] == ts;
      DisplacedKeys(ts, |ts|, owner, pool, t);
      var w := Displaced(ts, |ts|, owner, pool);
      assert Unit(t.key, order(t.key), w[t.key]) in UnitSet(w, order);
      assert Unit(t.key, order(t.key), w[t.key]) in Elements(SortUnits(us));
    }
  }

  /**
   * A routing sends every target to a member of the pool, a key's targets to one member, and a placed key to its own.
   */
  lemma RoutingIsSound(hash: Hash, ts: seq<JobTarget>, owner: map<string, string>, pool: seq<string>, us: seq<Unit>,
          order: string -> nat, p: Pool, load: map<string, nat>, out: map<string, string>)
    requires Lists(us, Displaced(ts, |ts|, owner, pool), order) && ValidPool(p) && Covers(load, p) && p.members == pool
    requires Routed(ts, owner, pool, Assign(Picking(hash, p), SortUnits(us), load).owner, out)
    ensures forall t | t in ts :: out[t.target] in pool
    ensures forall s, t | s in ts && t in ts && s.key == t.key :: out[s.target] == out[t.target]
    ensures forall t | t in ts && t.key in owner && owner[t.key] in pool :: out[t.target] == owner[t.key]
  {
    DisplacedAreOwned(hash, ts, owner, pool, us, order, p, load);
  }
}
