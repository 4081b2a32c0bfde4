/** Plain rendezvous hashing (internal/allocapi/allocapi.go, Owner), and when the weighted placement is it. */
module Rendezvous {
  import opened FixedLog
  import opened Ordering
  import opened Scoring
  import opened Placement

  datatype OwnerResult = NoMembers | Owned(member: string)

  ghost predicate Wins(hash: Hash, key: string, a: string, b: string) {
    hash(a, key) > hash(b, key) || (hash(a, key) == hash(b, key) && Less(a, b))
  }

  /** The member of the highest hash for the key, the lower name on a tie. */
  ghost predicate IsOwner(hash: Hash, members: set<string>, key: string, r: string) {
    r in members && forall m | m in members && m != r :: Wins(hash, key, r, m)
  }

  method Owner(hash: Hash, members: seq<string>, key: string) returns (r: OwnerResult)
    ensures members == [] <==> r == NoMembers
    ensures members != [] ==> r.Owned? && IsOwner(hash, Elements(members), key, r.member)
  {
    if members == [] {
      return NoMembers;
    }
    var best, bestScore: U64 := members[0], hash(members[0], key);
    for i := 1 to |members|
      invariant bestScore == hash(best, key)
      invariant best in members[..i]
      invariant forall m | m in members[..i] && m != best :: Wins(hash, key, best, m)
    {
      var m := members[i];
      var s: U64 := hash(m, key);
      assert members[..i + 1] == members[..i] + [m];
      if s > bestScore || (s == bestScore && Less(m, best)) {
        forall n | n in members[..i] && n != m ensures Wins(hash, key, m, n) {
          if n != best && s == bestScore == hash(n, key) {
            LessTransitive(m, best, n);
          }
        }
        best, bestScore := m, s;
      } else if m != best {
        LessTotal(m, best);
      }
    }
    assert members[..|members|] == members;
    r := Owned(best);
  }

  lemma WinsIsStrict(hash: Hash, key: string, a: string, b: string)
    requires Wins(hash, key, a, b)
    ensures !Wins(hash, key, b, a)
  {
    if Less(a, b) && Less(b, a) {
      LessTransitive(a, b, a);
      LessIrreflexive(a);
    }
  }

  /** One owner, and so the order of the members does not matter. */
  lemma OwnerUnique(hash: Hash, members: set<string>, key: string, r: string, s: string)
    requires IsOwner(hash, members, key, r) && IsOwner(hash, members, key, s)
    ensures r == s
  {
    if r != s {
      WinsIsStrict(hash, key, r, s);
    }
  }

  /** Adding a member moves only the keys it now wins. */
  lemma OwnerAfterAdding(hash: Hash, members: set<string>, x: string, key: string, r: string, s: string)
    requires x !in members
    requires IsOwner(hash, members, key, r) && IsOwner(hash, members + {x}, key, s)
    ensures s == if Wins(hash, key, x, r) then x else r
  {
    if s == x {
      assert r in members + {x};
    } else {
      OwnerUnique(hash, members, key, r, s);
      assert Wins(hash, key, s, x);
      WinsIsStrict(hash, key, s, x);
    }
  }

  /** Removing a member moves only its own keys. */
  lemma OwnerAfterRemoving(hash: Hash, members: set<string>, x: string, key: string, r: string, s: string)
    requires IsOwner(hash, members, key, r) && IsOwner(hash, members - {x}, key, s)
    ensures s != r <==> r == x
  {
    if r != x {
      OwnerUnique(hash, members - {x}, key, r, s);
    }
  }

  lemma {:induction false} SumOfEqual(ms: seq<string>, f: map<string, nat>, c: nat)
    requires forall m | m in ms :: m in f && f[m] == c
    ensures SumOver(ms, f) == |ms| * c
  {
    if ms != [] {
      SumOfEqual(ms[1..], f, c);
      OneMore(|ms[1..]|, c);
    }
  }

  lemma OneMore(n: nat, c: nat)
    ensures (n + 1) * c == c + n * c
  {
  }

  lemma RoomyBound(total: nat, c: nat, n: nat, factor: nat)
    requires c > 0 && n > 0 && factor >= MILLI * n
    ensures n * c * MILLI > 0
    ensures factor * total * c / (n * c * MILLI) >= total
  {
    ProductMonotone(1, n, c);
    ProductMonotone(MILLI * n, factor, total * c);
    assert MILLI * n * (total * c) == total * (n * c * MILLI);
    assert factor * total * c == factor * (total * c);
    AtMostQuotient(total, factor * total * c, n * c * MILLI);
  }

  /** With equal capacities and room for everything on any member, a pick is Owner's member. */
  lemma RoomyPick(hash: Hash, u: Unit, p: Pool, load: map<string, nat>, c: nat)
    requires ValidPool(p) && Covers(load, p) && forall m | m in p.members :: p.capOf[m] == c && HasRoom(u, m, load, p)
    ensures IsOwner(hash, Elements(p.members), u.key, PickOf(hash, u, p, load))
  {
    PickOfIsSorted(hash, u, p, load);
    var r := PickOf(hash, u, p, load);
    assert r in p.members;
    forall m | m in p.members && m != r ensures Wins(hash, u.key, r, m) {
      assert Outranks(hash, u, p, r, m);
    }
  }

  /** A choice that is Owner's member while everything so far leaves room makes a plan that is Owner's. */
  lemma {:induction false} OwnersChosen(hash: Hash, choose: Chooser, us: seq<Unit>, ms: seq<string>, total: nat,
          u: Unit)
    requires ChoosesFrom(choose, ms) && Distinct(ms) && DistinctKeys(us) && WeightOf(us) <= total && u in us
    requires forall v: Unit, load: map<string, nat> | Loaded(ms, load) && SumOver(ms, load) + v.weight <= total ::
               IsOwner(hash, Elements(ms), v.key, choose(v, load))
    ensures var r := Assign(choose, us, ZeroLoad(ms));
            u.key in r.owner && IsOwner(hash, Elements(ms), u.key, r.owner[u.key])
    decreases |us|
  {
    var us', last := us[..|us| - 1], us[|us| - 1];
    LoadSoFar(choose, us', ms);
    assert us == us' + [last];
    if u in us' {
      OwnersChosen(hash, choose, us', ms, total, u);
      var i :| 0 <= i < |us'| && us'[i] == u;
      assert us[i].key != last.key;
    }
  }

  /**
   * Capacities alike and a balance factor of at least the number of members, such as 10 over at most 10: the placement
   * is rendezvous hashing, whatever the weights.
   */
  lemma PlaceIsOwner(hash: Hash, units: seq<Unit>, ms: seq<string>, cs: seq<nat>, factor: nat, c: nat, u: Unit)
    requires ValidFleet(ms, cs) && DistinctKeys(units) && ms != [] && u in units
    requires (forall x | x in cs :: x == c) && factor >= MILLI * |ms|
    ensures var r := PlaceAll(hash, units, ms, cs, factor);
            u.key in r.owner && IsOwner(hash, Elements(ms), u.key, r.owner[u.key])
  {
    SortUnitsKeeps(units);
    var us := SortUnits(units);
    var p, total := FleetPool(us, ms, cs, factor), WeightOf(us);
    CapMapLists(ms, cs);
    SumOfEqual(ms, p.capOf, c);
    assert cs[0] in cs;
    RoomyBound(total, c, |ms|, factor);
    forall v: Unit, load: map<string, nat> | Loaded(ms, load) && SumOver(ms, load) + v.weight <= total
      ensures IsOwner(hash, Elements(ms), v.key, Picking(hash, p)(v, load))
    {
      PickingPicks(hash, p, v, load);
      RoomyLoads(v, p, load, total);
      RoomyPick(hash, v, p, load, c);
    }
    assert u in us by { assert u in Elements(us); }
    OwnersChosen(hash, Picking(hash, p), us, ms, total, u);
  }

  lemma RoomyLoads(u: Unit, p: Pool, load: map<string, nat>, total: nat)
    requires ValidPool(p) && Loaded(p.members, load) && SumOver(p.members, load) + u.weight <= total
    requires forall m | m in p.members :: p.bounds[m] >= total
    ensures forall m | m in p.members :: HasRoom(u, m, load, p)
  {
    forall m | m in p.members ensures HasRoom(u, m, load, p) {
      SumBounds(p.members, load, m);
    }
  }
}
