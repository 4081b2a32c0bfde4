/**
 * The allocator over its own placement (internal/allocator/placement.go: units, planFor): what its settings are assumed
 * to promise holds.
 */
module AllocatorPlacement {
  import opened FixedLog
  import opened Ordering
  import opened Scoring
  import opened Placement
  import opened AllocatorModel
  import opened AllocatorInvariant

  /** The keys the placement weighs: those of the targets, and of what else there is. */
  ghost function UnitKeys(in': Inputs): set<string> {
    (set n | n in in'.targets :: in'.targets[n].key) + in'.units.Keys
  }

  ghost function UnitOf(in': Inputs, order: string -> nat, k: string): Unit {
    Unit(k, order(k), if k in in'.units then in'.units[k] else MILLI)
  }

  /** The units of the inputs, listed in any order. */
  ghost function UnitsOf(in': Inputs, order: string -> nat): (us: seq<Unit>)
    ensures DistinctKeys(us) && forall k | k in UnitKeys(in') :: UnitOf(in', order, k) in us
  {
    var ks := ListOf(UnitKeys(in'));
    assert forall k | k in UnitKeys(in') :: k in Elements(ks);
    var us := seq(|ks|, i requires 0 <= i < |ks| => UnitOf(in', order, ks[i]));
    assert forall i | 0 <= i < |ks| :: us[i] == UnitOf(in', order, ks[i]);
    us
  }

  ghost function OwnersIn(hash: Hash, order: string -> nat, factor: nat, in': Inputs, ms: seq<string>,
          cs: seq<nat>): map<string, string> {
    if ValidFleet(ms, cs) then PlaceAll(hash, UnitsOf(in', order), ms, cs, factor).owner else map[]
  }

  ghost function ByPlacement(hash: Hash, order: string -> nat, factor: nat): Placer {
    (in': Inputs, ms: seq<string>, cs: seq<nat>) => OwnersIn(hash, order, factor, in', ms, cs)
  }

  lemma SortedIsDistinct(ms: seq<string>)
    requires Sorted(Less, ms)
    ensures Distinct(ms)
  {
    forall i, j | 0 <= i < j < |ms| ensures ms[i] != ms[j] {
      LessIrreflexive(ms[i]);
    }
  }

  /** Over a valid list the placement gives every target an owner in it, and owners in it alone. */
  lemma PlacementPlaces(hash: Hash, order: string -> nat, factor: nat, in': Inputs, ms: seq<string>, cs: seq<nat>)
    requires ValidList(ms, cs)
    ensures Places(in', ms, ByPlacement(hash, order, factor)(in', ms, cs))
  {
    SortedIsDistinct(ms);
    if ms != [] {
      var us := UnitsOf(in', order);
      PlaceConserves(hash, us, ms, cs, factor);
      forall n | n in in'.targets ensures in'.targets[n].key in PlaceAll(hash, us, ms, cs, factor).owner {
        assert UnitOf(in', order, in'.targets[n].key) in us;
      }
      OwnersAreMembers(hash, us, ms, cs, factor);
    }
  }

  lemma OwnersAreMembers(hash: Hash, us: seq<Unit>, ms: seq<string>, cs: seq<nat>, factor: nat)
    requires ValidFleet(ms, cs) && ms != []
    ensures forall k | k in PlaceAll(hash, us, ms, cs, factor).owner ::
      PlaceAll(hash, us, ms, cs, factor).owner[k] in ms
  {
    AssignOwners(Picking(hash, FleetPool(SortUnits(us), ms, cs, factor)), SortUnits(us), ms, ZeroLoad(ms));
  }

  /** So the invariants of the allocator hold of the allocator with its own placement. */
  lemma PlacementIsGood(c: Settings, hash: Hash, order: string -> nat, factor: nat)
    requires c.ttl > 0 && c.place == ByPlacement(hash, order, factor)
    ensures GoodSettings(c)
  {
    forall in': Inputs, ms: seq<string>, cs: seq<nat> | ValidList(ms, cs)
      ensures Places(in', ms, c.place(in', ms, cs))
    {
      PlacementPlaces(hash, order, factor, in', ms, cs);
    }
  }

  /** m's bundle holds the target. */
  ghost predicate Holds(st: State, m: string, name: string) {
    m in st.bundles && name in st.bundles[m].share
  }

  /**
   * Once there is a list, every target is in the bundle of its owner, a member, in every reachable state; another
   * member holds it only while it drains there, and nobody holds a target that is not in force.
   */
  lemma EveryTargetIsServed(c: Settings, hash: Hash, order: string -> nat, factor: nat, in': Inputs, sts: seq<State>,
          es: seq<Timed>, i: nat, name: string, m: string)
    requires c.ttl > 0 && c.place == ByPlacement(hash, order, factor)
    requires IsRun(c, sts, es) && sts[0] == New(c, in') && i < |sts|
    ensures sts[i].effective != [] && name in sts[i].inputs.targets ==> Holds(sts[i], OwnerOf(c, sts[i], name), name)
    ensures Holds(sts[i], m, name) ==>
      && name in sts[i].inputs.targets && m in sts[i].effective
      && (m == OwnerOf(c, sts[i], name) || DrainKey(name, m) in sts[i].draining)
  {
    PlacementIsGood(c, hash, order, factor);
    RunKeeps(c, in', sts, es, i);
    ServedIn(c, sts[i], name, m);
  }

  lemma ServedIn(c: Settings, st: State, name: string, m: string)
    requires GoodSettings(c) && Inv(c, st)
    ensures st.effective != [] && name in st.inputs.targets ==> Holds(st, OwnerOf(c, st, name), name)
    ensures Holds(st, m, name) ==>
      && name in st.inputs.targets && m in st.effective
      && (m == OwnerOf(c, st, name) || DrainKey(name, m) in st.draining)
  {
    var o := OwnerOf(c, st, name);
    OwnerIsMember(c, st.inputs, st.effective, st.effectiveCaps, name);
    BundlesHoldShares(c, st, m, name);
    BundlesHoldShares(c, st, o, name);
    assert o in Elements(st.effective) <==> o in st.effective;
    assert m in Elements(st.effective) <==> m in st.effective;
  }
}
