/**
 * The election of the one instance that asks the discovery sources (internal/allocator/peers.go: chooseLeader, round).
 */
module Election {
  import opened Common
  import opened Ordering

  /** A live peer and its last answer; the address is its place in the order of addresses. */
  datatype LivePeer = LivePeer(addr: nat, id: string, discovering: bool, known: bool)

  /**
   * Who leads: an address, none when it is this instance and its address is not known; and whether it is this instance.
   */
  datatype Choice = Choice(leader: Option<nat>, leading: bool)

  /** The loop over the live peers of an instance that does not know its address, from the k-th on. */
  function Follow(others: seq<LivePeer>, k: nat, unranked: Option<LivePeer>, id: string, discovering: bool): Choice
    requires k <= |others|
    decreases |others| - k
  {
    if k == |others| then
      if unranked.None? || (discovering && Less(id, unranked.value.id)) then Choice(None, true)
      else Choice(Some(unranked.value.addr), false)
    else if !others[k].discovering then Follow(others, k + 1, unranked, id, discovering)
    else if others[k].known then Choice(Some(others[k].addr), false)
    else if unranked.None? || Less(others[k].id, unranked.value.id) then
      Follow(others, k + 1, Some(others[k]), id, discovering)
    else Follow(others, k + 1, unranked, id, discovering)
  }

  function ChooseLeaderOf(self: Option<nat>, id: string, discovering: bool, others: seq<LivePeer>): Choice {
    if self.Some? then
      if others == [] || self.value < others[0].addr then Choice(self, true) else Choice(Some(others[0].addr), false)
    else
      Follow(others, 0, None, id, discovering)
  }

  method ChooseLeader(self: Option<nat>, id: string, discovering: bool, others: seq<LivePeer>) returns (c: Choice)
    ensures c == ChooseLeaderOf(self, id, discovering, others)
  {
    if self.Some? {
      if others == [] || self.value < others[0].addr {
        return Choice(self, true);
      }
      return Choice(Some(others[0].addr), false);
    }
    var unranked: Option<LivePeer> := None;
    for i := 0 to |others|
      invariant Follow(others, 0, None, id, discovering) == Follow(others, i, unranked, id, discovering)
    {
      var o := others[i];
      if !o.discovering {
      } else if o.known {
        return Choice(Some(o.addr), false);
      } else if unranked.None? || Less(o.id, unranked.value.id) {
        unranked := Some(o);
      }
    }
    if unranked.None? || (discovering && Less(id, unranked.value.id)) {
      return Choice(None, true);
    }
    c := Choice(Some(unranked.value.addr), false);
  }

  /** What an instance of no known address needs of a peer that discovers, to lead. */
  ghost predicate Yields(o: LivePeer, id: string, discovering: bool) {
    o.discovering ==> !o.known && discovering && Less(id, o.id)
  }

  ghost predicate UnrankedSoFar(others: seq<LivePeer>, k: nat, unranked: Option<LivePeer>)
    requires k <= |others|
  {
    && (forall j | 0 <= j < k && others[j].discovering :: !others[j].known)
    && (unranked.None? ==> forall j | 0 <= j < k :: !others[j].discovering)
    && (unranked.Some? ==>
          && (exists j :: 0 <= j < k && others[j] == unranked.value && others[j].discovering)
          && forall j | 0 <= j < k && others[j].discovering ::
               others[j].id == unranked.value.id || Less(unranked.value.id, others[j].id))
  }

  /** One turn of the loop, past a peer that it does not follow at once. */
  lemma FollowTurn(others: seq<LivePeer>, k: nat, unranked: Option<LivePeer>, id: string, discovering: bool)
    returns (next: Option<LivePeer>)
    requires k < |others| && UnrankedSoFar(others, k, unranked) && !(others[k].discovering && others[k].known)
    ensures UnrankedSoFar(others, k + 1, next)
    ensures Follow(others, k, unranked, id, discovering) == Follow(others, k + 1, next, id, discovering)
  {
    var o := others[k];
    next := if o.discovering && (unranked.None? || Less(o.id, unranked.value.id)) then Some(o) else unranked;
    UnrankedNext(others, k, unranked, next);
  }

  /** It leads exactly when every peer that discovers yields to it, and follows one that discovers otherwise. */
  lemma {:induction false} FollowDecides(others: seq<LivePeer>, k: nat, unranked: Option<LivePeer>, id: string,
          discovering: bool)
    requires k <= |others| && UnrankedSoFar(others, k, unranked)
    ensures var c := Follow(others, k, unranked, id, discovering);
            && (c.leading <==> forall j | 0 <= j < |others| :: Yields(others[j], id, discovering))
            && (c.leading ==> c.leader == None)
            && (!c.leading ==>
                  exists j :: 0 <= j < |others| && others[j].discovering && c.leader == Some(others[j].addr))
    decreases |others| - k
  {
    if k == |others| {
      FollowEnds(others, unranked, id, discovering);
    } else if others[k].discovering && others[k].known {
      assert !Yields(others[k], id, discovering);
    } else {
      var next := FollowTurn(others, k, unranked, id, discovering);
      FollowDecides(others, k + 1, next, id, discovering);
    }
  }

  lemma FollowEnds(others: seq<LivePeer>, unranked: Option<LivePeer>, id: string, discovering: bool)
    requires UnrankedSoFar(others, |others|, unranked)
    ensures var leads := unranked.None? || (discovering && Less(id, unranked.value.id));
            leads <==> forall j | 0 <= j < |others| :: Yields(others[j], id, discovering)
  {
    if unranked.Some? {
      var i :| 0 <= i < |others| && others[i] == unranked.value && others[i].discovering;
      if discovering && Less(id, unranked.value.id) {
        forall j | 0 <= j < |others| ensures Yields(others[j], id, discovering) {
          if others[j].discovering && others[j].id != unranked.value.id {
            LessTransitive(id, unranked.value.id, others[j].id);
          }
        }
      } else {
        assert !Yields(others[i], id, discovering);
      }
    }
  }

  /** The first peer that discovers and knows its address. */
  ghost predicate FirstKnown(others: seq<LivePeer>, k: nat, i: int) {
    && k <= i < |others| && others[i].discovering && others[i].known
    && forall j | k <= j < i :: !(others[j].discovering && others[j].known)
  }

  lemma {:induction false} FollowsKnown(others: seq<LivePeer>, k: nat, unranked: Option<LivePeer>, id: string,
          discovering: bool, i: nat)
    requires FirstKnown(others, k, i)
    ensures Follow(others, k, unranked, id, discovering) == Choice(Some(others[i].addr), false)
    decreases |others| - k
  {
    if k < i {
      var o := others[k];
      FollowsKnown(others, k + 1,
        if o.discovering && (unranked.None? || Less(o.id, unranked.value.id)) then Some(o) else unranked, id,
        discovering, i);
    }
  }

  /** Of peers that discover, none of a known address, one whose id is the lowest. */
  ghost predicate LowestId(others: seq<LivePeer>, i: int) {
    && 0 <= i < |others| && others[i].discovering
    && forall j | 0 <= j < |others| && others[j].discovering ::
         !others[j].known && (others[j].id == others[i].id || Less(others[i].id, others[j].id))
  }

  ghost predicate NoneKnown(others: seq<LivePeer>) {
    forall j | 0 <= j < |others| :: !(others[j].discovering && others[j].known)
  }

  lemma {:induction false} FollowsLowest(others: seq<LivePeer>, k: nat, unranked: Option<LivePeer>, id: string,
          discovering: bool)
    requires k <= |others| && UnrankedSoFar(others, k, unranked) && NoneKnown(others)
    ensures var c := Follow(others, k, unranked, id, discovering);
            c.leading || exists i :: LowestId(others, i) && c == Choice(Some(others[i].addr), false)
    decreases |others| - k
  {
    if k == |others| {
      if unranked.Some? {
        var i :| 0 <= i < k && others[i] == unranked.value && others[i].discovering;
        assert LowestId(others, i);
      }
    } else {
      var next := FollowTurn(others, k, unranked, id, discovering);
      FollowsLowest(others, k + 1, next, id, discovering);
    }
  }

  /**
   * Whom an instance follows: of known address, the first peer, when that is lower; of none, the first that discovers
   * and knows its address, and without one a peer that discovers of the lowest id.
   */
  lemma FollowsExactly(self: Option<nat>, id: string, discovering: bool, others: seq<LivePeer>, i: nat)
    ensures var c := ChooseLeaderOf(self, id, discovering, others);
            && (self.Some? && others != [] && others[0].addr <= self.value ==> c == Choice(Some(others[0].addr), false))
            && (self.Some? && (others != [] ==> self.value < others[0].addr) ==> c == Choice(self, true))
            && (self.None? && FirstKnown(others, 0, i) ==> c == Choice(Some(others[i].addr), false))
            && (self.None? && !c.leading && NoneKnown(others) ==>
                  exists l :: LowestId(others, l) && c == Choice(Some(others[l].addr), false))
  {
    if self.None? {
      if FirstKnown(others, 0, i) {
        FollowsKnown(others, 0, None, id, discovering, i);
      }
      if NoneKnown(others) {
        FollowsLowest(others, 0, None, id, discovering);
      }
    }
  }

  lemma UnrankedNext(others: seq<LivePeer>, k: nat, unranked: Option<LivePeer>, next: Option<LivePeer>)
    requires k < |others| && UnrankedSoFar(others, k, unranked) && !(others[k].discovering && others[k].known)
    requires next == if others[k].discovering && (unranked.None? || Less(others[k].id, unranked.value.id))
                     then Some(others[k]) else unranked
    ensures UnrankedSoFar(others, k + 1, next)
  {
    var o := others[k];
    if unranked.Some? && o.discovering {
      forall j | 0 <= j < k && others[j].discovering && Less(o.id, unranked.value.id)
        ensures others[j].id == o.id || Less(o.id, others[j].id)
      {
        if others[j].id != unranked.value.id {
          LessTransitive(o.id, unranked.value.id, others[j].id);
        }
      }
      if o.id != unranked.value.id {
        LessTotal(o.id, unranked.value.id);
      }
    }
  }

  // ---- the instances together ----

  /** An instance: its process's id, whether it knows its own address, and whether it discovers. */
  datatype Instance = Instance(id: string, known: bool, discovering: bool)

  // The live instances in the order of their addresses.
  type World = seq<Instance>

  ghost predicate DistinctIds(w: World) {
    forall i, j | 0 <= i < j < |w| :: w[i].id != w[j].id
  }

  function Listing(w: World): (l: seq<LivePeer>)
    ensures |l| == |w|
    ensures forall k | 0 <= k < |w| :: l[k] == LivePeer(k, w[k].id, w[k].discovering, w[k].known)
  {
    seq(|w|, k requires 0 <= k < |w| => LivePeer(k, w[k].id, w[k].discovering, w[k].known))
  }

  /** Every other instance, as instance i sees it. */
  function Others(w: World, i: nat): seq<LivePeer>
    requires i < |w|
  {
    Listing(w)[..i] + Listing(w)[i + 1..]
  }

  function Decision(w: World, i: nat): Choice
    requires i < |w|
  {
    ChooseLeaderOf(if w[i].known then Some(i) else None, w[i].id, w[i].discovering, Others(w, i))
  }

  /** A round of instance i: it discovers exactly while it leads. */
  function Round(w: World, i: nat): World
    requires i < |w|
  {
    w[i := w[i].(discovering := Decision(w, i).leading)]
  }

  ghost predicate Within(w: World, schedule: seq<nat>) {
    forall k | 0 <= k < |schedule| :: schedule[k] < |w|
  }

  /** The rounds of a schedule, one after the other, in any interleaving. */
  function Run(w: World, schedule: seq<nat>): (w': World)
    requires Within(w, schedule)
    ensures |w'| == |w|
    ensures forall i | 0 <= i < |w| :: w'[i].id == w[i].id && w'[i].known == w[i].known
    decreases |schedule|
  {
    if schedule == [] then w else Run(Round(w, schedule[0]), schedule[1..])
  }

  /** Every instance has a round in the schedule. */
  ghost predicate IsPass(w: World, schedule: seq<nat>) {
    Within(w, schedule) && forall i | 0 <= i < |w| :: i in schedule
  }

  ghost function Discoverers(w: World): set<nat> {
    set i | 0 <= i < |w| && w[i].discovering
  }

  /** Instance i leads, of those that discover in w. */
  ghost predicate Leads(w: World, i: nat)
    requires i < |w|
  {
    if w[i].known then i == 0
    else forall j | 0 <= j < |w| && j != i && w[j].discovering ::
      !w[j].known && w[i].discovering && Less(w[i].id, w[j].id)
  }

  /** The decision in terms of the instances: by the lowest address, or by yielding. */
  lemma DecisionIs(w: World, i: nat)
    requires i < |w|
    ensures var c := Decision(w, i);
            && (c.leading <==> Leads(w, i))
            && (w[i].known ==> c.leader == Some(0))
            && (!w[i].known && !c.leading ==>
                  c.leader.Some? && c.leader.value < |w| && c.leader.value != i && w[c.leader.value].discovering)
  {
    var others := Others(w, i);
    if w[i].known {
      if |w| > 1 {
        assert others[0].addr == if i == 0 then 1 else 0;
      }
    } else {
      FollowDecides(others, 0, None, w[i].id, w[i].discovering);
      forall j | 0 <= j < |w| && j != i
        ensures exists k :: 0 <= k < |others| && others[k].addr == j && others[k] == Listing(w)[j]
      {
        var k := if j < i then j else j - 1;
        assert others[k] == Listing(w)[j];
      }
      assert forall k | 0 <= k < |others| ::
        others[k].addr != i && others[k].addr < |w| && others[k] == Listing(w)[others[k].addr];
    }
  }

  // ---- convergence ----

  /** Those of known addresses have settled: the lowest of all leads, and no other. */
  ghost predicate KnownSettled(w: World, done: set<nat>) {
    forall i | i in done && i < |w| && w[i].known :: w[i].discovering <==> i == 0
  }

  /** Among those that have had a round, one that still discovers is the lowest of all that do. */
  ghost predicate UnknownSettled(w: World, done: set<nat>) {
    forall i, j | i in done && i < |w| && 0 <= j < |w| && j != i
        && w[i].discovering && w[j].discovering && !w[i].known ::
      !w[j].known && Less(w[i].id, w[j].id)
  }

  lemma KnownRound(w: World, i: nat, done: set<nat>)
    requires i < |w| && KnownSettled(w, done)
    ensures KnownSettled(Round(w, i), done + {i})
  {
    DecisionIs(w, i);
  }

  lemma {:induction false} KnownPass(w: World, schedule: seq<nat>, done: set<nat>)
    requires Within(w, schedule) && KnownSettled(w, done)
    ensures KnownSettled(Run(w, schedule), done + Elements(schedule))
    decreases |schedule|
  {
    if schedule != [] {
      KnownRound(w, schedule[0], done);
      KnownPass(Round(w, schedule[0]), schedule[1..], done + {schedule[0]});
      assert Elements(schedule) == {schedule[0]} + Elements(schedule[1..]);
      assert done + {schedule[0]} + Elements(schedule[1..]) == done + Elements(schedule);
    } else {
      assert done + Elements(schedule) == done;
    }
  }

  ghost function All(w: World): (s: set<nat>)
    ensures forall i :: i in s <==> 0 <= i < |w|
  {
    Below(|w|)
  }

  ghost function Below(n: nat): (s: set<nat>)
    ensures forall i :: i in s <==> 0 <= i < n
  {
    if n == 0 then {} else Below(n - 1) + {n - 1}
  }

  /** A round keeps what has settled; somebody discovers after one of the lowest address, and goes on discovering. */
  lemma UnknownRound(w: World, i: nat, done: set<nat>)
    requires i < |w| && KnownSettled(w, All(w)) && UnknownSettled(w, done)
    ensures var w' := Round(w, i);
            && KnownSettled(w', All(w)) && UnknownSettled(w', done + {i})
            && (i == 0 || Discoverers(w) != {} ==> Discoverers(w') != {})
  {
    var w' := Round(w, i);
    KnownRound(w, i, All(w));
    assert All(w) + {i} == All(w);
    DecisionIs(w, i);
    if w'[i].discovering {
      assert i in Discoverers(w');
    } else if !w[i].known {
      var j :| 0 <= j < |w| && j != i && w[j].discovering;
      assert j in Discoverers(w');
    } else if Discoverers(w) != {} {
      var j :| j in Discoverers(w);
      assert i in All(w) && j != i;
      assert j in Discoverers(w');
    }
  }

  lemma ElementsNext(schedule: seq<nat>, done: set<nat>)
    requires schedule != []
    ensures (done + {schedule[0]}) + Elements(schedule[1..]) == done + Elements(schedule)
  {
    assert schedule == [schedule[0]] + schedule[1..];
  }

  lemma {:induction false} UnknownPass(w: World, schedule: seq<nat>, done: set<nat>)
    requires Within(w, schedule) && KnownSettled(w, All(w)) && UnknownSettled(w, done)
    ensures var w' := Run(w, schedule);
            && KnownSettled(w', All(w)) && UnknownSettled(w', done + Elements(schedule))
            && (0 in schedule || Discoverers(w) != {} ==> Discoverers(w') != {})
    decreases |schedule|
  {
    if schedule != [] {
      var i, rest := schedule[0], schedule[1..];
      UnknownRound(w, i, done);
      UnknownPass(Round(w, i), rest, done + {i});
      ElementsNext(schedule, done);
    } else {
      assert done + Elements(schedule) == done;
    }
  }

  /** All have settled: one discovers. */
  ghost predicate Settled(w: World) {
    KnownSettled(w, All(w)) && UnknownSettled(w, All(w)) && Discoverers(w) != {}
  }

  lemma SettledIsOne(w: World) returns (b: nat)
    requires Settled(w)
    ensures b < |w| && Discoverers(w) == {b}
  {
    b :| b in Discoverers(w);
    forall i | i in Discoverers(w) ensures i == b {
      if i != b {
        assert i in All(w) && b in All(w);
        if !w[i].known && !w[b].known {
          LessTransitive(w[i].id, w[b].id, w[i].id);
          LessIrreflexive(w[i].id);
        }
      }
    }
  }

  /** No round changes a settled world. */
  lemma SettledIsStable(w: World, i: nat)
    requires Settled(w) && i < |w|
    ensures Round(w, i) == w
  {
    var b := SettledIsOne(w);
    DecisionIs(w, i);
    assert i in All(w) && forall j | 0 <= j < |w| :: w[j].discovering <==> j in Discoverers(w);
    assert Leads(w, i) <==> i == b by {
      assert b in All(w) && 0 in All(w);
    }
    assert w[i].discovering <==> i in Discoverers(w);
  }

  lemma {:induction false} SettledStays(w: World, schedule: seq<nat>)
    requires Settled(w) && Within(w, schedule)
    ensures Run(w, schedule) == w
    decreases |schedule|
  {
    if schedule != [] {
      SettledIsStable(w, schedule[0]);
      SettledStays(w, schedule[1..]);
    }
  }

  /** After two passes, in any interleaving, exactly one instance discovers, and no later round changes that. */
  lemma Converges(w: World, first: seq<nat>, second: seq<nat>, later: seq<nat>) returns (b: nat)
    requires w != [] && IsPass(w, first) && IsPass(w, second) && Within(w, later)
    ensures var w' := Run(Run(w, first), second);
            b < |w| && Discoverers(w') == {b} && Run(w', later) == w'
  {
    var w1 := Run(w, first);
    KnownPass(w, first, {});
    assert {} + Elements(first) == All(w) == All(w1);
    assert 0 in second;
    UnknownPass(w1, second, {});
    assert {} + Elements(second) == All(w);
    var w2 := Run(w1, second);
    assert All(w2) == All(w);
    b := SettledIsOne(w2);
    SettledStays(w2, later);
  }

  /**
   * Whom the followers then take snapshots of: all of them of the one that discovers, exactly when that is the instance
   * of the lowest address or none knows its address. An instance that knows its address follows the lowest address even
   * when the one there does not know its own, and follows another.
   */
  lemma FollowersAgree(w: World, b: nat)
    requires Settled(w) && b < |w| && Discoverers(w) == {b}
    ensures (forall i | 0 <= i < |w| && i != b :: Decision(w, i).leader == Some(b)) <==>
            (b == 0 || forall i | 0 <= i < |w| :: !w[i].known)
  {
    forall i | 0 <= i < |w| && i != b
      ensures Decision(w, i).leader == Some(if w[i].known then 0 else b)
    {
      DecisionIs(w, i);
      assert forall j | 0 <= j < |w| :: w[j].discovering <==> j in Discoverers(w);
      if !w[i].known {
        assert !Leads(w, i) by {
          assert w[b].discovering && !w[i].discovering;
        }
      }
    }
    if b != 0 && exists i :: 0 <= i < |w| && w[i].known {
      var i :| 0 <= i < |w| && w[i].known;
      assert i != b by {
        assert b in All(w) && b in Discoverers(w);
      }
    }
  }

  /**
   * Three instances: the one of the lowest address and the one that discovers do not know theirs; the one between does.
   */
  function Apart(): World {
    [Instance("b", false, false), Instance("c", true, false), Instance("a", false, true)]
  }

  lemma NamesOfApart()
    ensures Less("a", "b") && Less("a", "c") && Less("b", "c")
  {
  }

  /** The passes by which they get there, from none discovering. */
  function Asleep(): World {
    [Instance("b", false, false), Instance("c", true, false), Instance("a", false, false)]
  }

  lemma RoundsOfApart()
    ensures Round(Asleep(), 1) == Asleep() && Round(Asleep(), 2) == Apart()
    ensures Round(Apart(), 0) == Apart() && Round(Apart(), 1) == Apart() && Round(Apart(), 2) == Apart()
  {
    NamesOfApart();
    DecisionIs(Asleep(), 1);
    DecisionIs(Asleep(), 2);
    DecisionIs(Apart(), 0);
    DecisionIs(Apart(), 1);
    DecisionIs(Apart(), 2);
  }

  /** A settled election, reached from the start, in which the followers do not agree on the leader. */
  lemma FollowersApart()
    ensures Run(Asleep(), [1, 2, 0]) == Apart() && Settled(Apart()) && Discoverers(Apart()) == {2}
    ensures Decision(Apart(), 0).leader == Some(2) && Decision(Apart(), 1).leader == Some(0)
  {
    RoundsOfApart();
    var w := Apart();
    assert [1, 2, 0][1..] == [2, 0] && [2, 0][1..] == [0] && [0][1..] == [];
    assert Run(w, []) == w;
    assert Run(w, [0]) == w;
    assert Run(Asleep(), [2, 0]) == w;
    NamesOfApart();
    assert 2 in Discoverers(w);
    DecisionIs(w, 0);
    DecisionIs(w, 1);
  }
}
