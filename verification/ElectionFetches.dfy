/**
 * The election with the fetch that a new leader starts from (internal/allocator/peers.go: round, startFetch): while it
 * is on its way the instance leads, and does not discover yet. Rounds and the ends of fetches come in any order.
 */
module ElectionFetches {
  import opened Common
  import opened Ordering
  import opened Election

  /** An instance, whether it leads and fetches to start from, and whether it ever took a snapshot. */
  datatype Seat = Seat(at: Instance, seeding: bool, took: bool)

  type Seats = seq<Seat>

  /** What the others see of the instances. */
  function Base(s: Seats): (w: World)
    ensures |w| == |s| && forall i | 0 <= i < |s| :: w[i] == s[i].at
  {
    seq(|s|, i requires 0 <= i < |s| => s[i].at)
  }

  /** A round: one that comes to lead and never took a snapshot fetches one first, unless it is alone. */
  function Turn(x: Seat, leads: bool, alone: bool): Seat {
    if !leads then x.(at := x.at.(discovering := false), seeding := false)
    else if x.seeding || (!x.at.discovering && !x.took && !alone) then x.(seeding := true)
    else x.(at := x.at.(discovering := true))
  }

  /** A fetch ends: a new leader then discovers, and a follower may have taken its leader's snapshot. */
  function Ended(x: Seat, taken: bool): Seat {
    if x.seeding then x.(at := x.at.(discovering := true), seeding := false) else x.(took := x.took || taken)
  }

  datatype Event = RoundOf(i: nat) | FetchOf(i: nat, taken: bool)

  ghost predicate Proper(s: Seats) {
    forall i | 0 <= i < |s| :: !(s[i].at.discovering && s[i].seeding)
  }

  ghost predicate InRange(s: Seats, es: seq<Event>) {
    forall k | 0 <= k < |es| :: es[k].i < |s|
  }

  function Step(s: Seats, e: Event): (s': Seats)
    requires e.i < |s|
    ensures |s'| == |s| && (Proper(s) ==> Proper(s'))
    ensures forall j | 0 <= j < |s| && j != e.i :: s'[j] == s[j]
    ensures s'[e.i].at.known == s[e.i].at.known && s'[e.i].at.id == s[e.i].at.id
  {
    match e
    case RoundOf(i) => s[i := Turn(s[i], Decision(Base(s), i).leading, |s| == 1)]
    case FetchOf(i, taken) => s[i := Ended(s[i], taken)]
  }

  function Run(s: Seats, es: seq<Event>): (s': Seats)
    requires InRange(s, es)
    ensures |s'| == |s| && (Proper(s) ==> Proper(s'))
    decreases |es|
  {
    if es == [] then s else Run(Step(s, es[0]), es[1..])
  }

  ghost function Rounded(es: seq<Event>): set<nat> {
    set e | e in es && e.RoundOf? :: e.i
  }

  lemma RoundedNext(es: seq<Event>, done: set<nat>)
    requires es != []
    ensures (done + if es[0].RoundOf? then {es[0].i} else {}) + Rounded(es[1..]) == done + Rounded(es)
  {
    assert es == [es[0]] + es[1..];
  }

  /** Every instance has a round. */
  ghost predicate IsPass(s: Seats, es: seq<Event>) {
    InRange(s, es) && forall i: nat | i < |s| :: RoundOf(i) in es
  }

  /** The fetch of every instance comes to an end, if one is under way. */
  ghost predicate AllEnd(s: Seats, es: seq<Event>) {
    InRange(s, es) && forall i: nat | i < |s| :: FetchOf(i, true) in es || FetchOf(i, false) in es
  }

  // ---- known addresses ----

  ghost predicate Leading(x: Seat) {
    x.at.discovering || x.seeding
  }

  /** Of those of known addresses the lowest of all leads, and no other. */
  ghost predicate KnownLed(s: Seats, done: set<nat>) {
    forall i | i in done && i < |s| && s[i].at.known :: Leading(s[i]) <==> i == 0
  }

  lemma KnownStep(s: Seats, e: Event, done: set<nat>)
    requires Proper(s) && e.i < |s| && KnownLed(s, done)
    ensures KnownLed(Step(s, e), done + if e.RoundOf? then {e.i} else {})
  {
    DecisionIs(Base(s), e.i);
  }

  lemma {:induction false} KnownRun(s: Seats, es: seq<Event>, done: set<nat>)
    requires Proper(s) && InRange(s, es) && KnownLed(s, done)
    ensures KnownLed(Run(s, es), done + Rounded(es))
    decreases |es|
  {
    if es != [] {
      KnownStep(s, es[0], done);
      KnownRun(Step(s, es[0]), es[1..], done + if es[0].RoundOf? then {es[0].i} else {});
      RoundedNext(es, done);
    } else {
      assert done + Rounded(es) == done;
    }
  }

  /** All of known addresses are settled. */
  ghost predicate Led(s: Seats) {
    Proper(s) && forall i | 0 <= i < |s| && s[i].at.known :: Leading(s[i]) <==> i == 0
  }

  lemma LedStep(s: Seats, e: Event)
    requires Led(s) && e.i < |s|
    ensures Led(Step(s, e))
  {
    DecisionIs(Base(s), e.i);
  }

  // ---- somebody discovers ----

  ghost predicate Discovered(s: Seats) {
    exists i :: 0 <= i < |s| && s[i].at.discovering
  }

  /** One that discovers stops only for another. */
  lemma DiscoveredStep(s: Seats, e: Event)
    requires Led(s) && e.i < |s| && Discovered(s)
    ensures Discovered(Step(s, e))
    ensures e.RoundOf? ==> !Step(s, e)[e.i].seeding || (s[e.i].seeding && e.i == 0)
  {
    var w, s' := Base(s), Step(s, e);
    DecisionIs(w, e.i);
    var j :| 0 <= j < |s| && s[j].at.discovering;
    if j != e.i {
      assert s'[j].at.discovering;
    } else if e.RoundOf? && !s'[j].at.discovering {
      assert !Leads(w, j);
      var k :| 0 <= k < |w| && k != j && w[k].discovering;
      assert s'[k].at.discovering;
    }
  }

  ghost predicate SomeLeads(s: Seats) {
    exists i :: 0 <= i < |s| && Leading(s[i])
  }

  /** Somebody leads after a round of the lowest address, and goes on leading, or makes way for one that discovers. */
  lemma LeadsStep(s: Seats, e: Event)
    requires Led(s) && e.i < |s| && (e == RoundOf(0) || SomeLeads(s))
    ensures SomeLeads(Step(s, e))
  {
    var w, s' := Base(s), Step(s, e);
    DecisionIs(w, e.i);
    if e.RoundOf? && !Leading(s'[e.i]) && !s[e.i].at.known {
      var k :| 0 <= k < |w| && k != e.i && w[k].discovering;
      assert Leading(s'[k]);
    } else if Leading(s'[e.i]) {
    } else {
      var j :| 0 <= j < |s| && Leading(s[j]);
      assert j != e.i && Leading(s'[j]);
    }
  }

  lemma {:induction false} LeadsRun(s: Seats, es: seq<Event>)
    requires Led(s) && InRange(s, es) && (RoundOf(0) in es || SomeLeads(s))
    ensures Led(Run(s, es)) && SomeLeads(Run(s, es))
    decreases |es|
  {
    if es != [] {
      LedStep(s, es[0]);
      if es[0] == RoundOf(0) || SomeLeads(s) {
        LeadsStep(s, es[0]);
      }
      LeadsRun(Step(s, es[0]), es[1..]);
    }
  }

  // ---- the fetches end ----

  /** Somebody discovers, or i will when its fetch ends. */
  ghost predicate Coming(s: Seats, i: nat) {
    Discovered(s) || (i < |s| && s[i].seeding)
  }

  lemma ComingStep(s: Seats, e: Event, i: nat)
    requires Led(s) && e.i < |s| && i < |s| && Coming(s, i)
    ensures Coming(Step(s, e), i) && (e.FetchOf? && e.i == i ==> Discovered(Step(s, e)))
  {
    if Discovered(s) {
      DiscoveredStep(s, e);
    } else {
      DecisionIs(Base(s), e.i);
      assert e.i == i ==> Step(s, e)[i].seeding || Step(s, e)[i].at.discovering;
    }
  }

  lemma {:induction false} ComingRun(s: Seats, es: seq<Event>, i: nat)
    requires Led(s) && InRange(s, es) && i < |s| && Coming(s, i)
    requires FetchOf(i, true) in es || FetchOf(i, false) in es || Discovered(s)
    ensures Led(Run(s, es)) && Discovered(Run(s, es))
    decreases |es|
  {
    if es != [] {
      LedStep(s, es[0]);
      ComingStep(s, es[0], i);
      if Discovered(s) {
        DiscoveredStep(s, es[0]);
      }
      ComingRun(Step(s, es[0]), es[1..], i);
    }
  }

  /** The lowest of all, if it knows its address, discovers and fetches no more. */
  ghost predicate LowestDiscovers(s: Seats) {
    s != [] && s[0].at.known ==> s[0].at.discovering
  }

  lemma LowestStep(s: Seats, e: Event)
    requires Led(s) && e.i < |s|
    ensures LowestDiscovers(s) || (e.FetchOf? && e.i == 0) ==> LowestDiscovers(Step(s, e))
  {
    DecisionIs(Base(s), e.i);
  }

  lemma {:induction false} LowestRun(s: Seats, es: seq<Event>)
    requires Led(s) && InRange(s, es)
    requires FetchOf(0, true) in es || FetchOf(0, false) in es || LowestDiscovers(s)
    ensures LowestDiscovers(Run(s, es))
    decreases |es|
  {
    if es != [] {
      LedStep(s, es[0]);
      LowestStep(s, es[0]);
      LowestRun(Step(s, es[0]), es[1..]);
    }
  }

  /** Somebody discovers, and will: no fetch to start from begins any more. */
  ghost predicate Awake(s: Seats) {
    Led(s) && Discovered(s) && LowestDiscovers(s)
  }

  lemma EndsWake(s: Seats, es: seq<Event>)
    requires Led(s) && SomeLeads(s) && AllEnd(s, es)
    ensures Awake(Run(s, es))
  {
    var i :| 0 <= i < |s| && Leading(s[i]);
    assert s[i].at.discovering ==> Discovered(s);
    ComingRun(s, es, i);
    LowestRun(s, es);
  }

  // ---- the fetches under way ----

  ghost predicate NoneSeeds(s: Seats, done: set<nat>) {
    forall i | i in done && i < |s| :: !s[i].seeding
  }

  lemma AwakeStep(s: Seats, e: Event, done: set<nat>)
    requires Awake(s) && e.i < |s| && NoneSeeds(s, done)
    ensures Awake(Step(s, e)) && NoneSeeds(Step(s, e), done + if e.RoundOf? then {e.i} else {})
  {
    LedStep(s, e);
    DiscoveredStep(s, e);
    LowestStep(s, e);
    assert e.i == 0 && s[0].seeding ==> !s[0].at.known;
    if e.RoundOf? {
      NoSeedBegins(s, e.i);
    }
  }

  /** One that does not discover does not come to lead, and gives up its fetch. */
  lemma NoSeedBegins(s: Seats, i: nat)
    requires Awake(s) && i < |s|
    ensures Decision(Base(s), i).leading ==> s[i].at.discovering
    ensures !Step(s, RoundOf(i))[i].seeding
  {
    var w := Base(s);
    DecisionIs(w, i);
    var j :| 0 <= j < |s| && s[j].at.discovering;
    assert w[j].discovering;
  }

  lemma {:induction false} AwakeRun(s: Seats, es: seq<Event>, done: set<nat>)
    requires Awake(s) && InRange(s, es) && NoneSeeds(s, done)
    ensures Awake(Run(s, es)) && NoneSeeds(Run(s, es), done + Rounded(es))
    decreases |es|
  {
    if es != [] {
      AwakeStep(s, es[0], done);
      AwakeRun(Step(s, es[0]), es[1..], done + if es[0].RoundOf? then {es[0].i} else {});
      RoundedNext(es, done);
    } else {
      assert done + Rounded(es) == done;
    }
  }

  // ---- the election from then on ----

  ghost predicate Plain(s: Seats) {
    Awake(s) && forall i | 0 <= i < |s| :: !s[i].seeding
  }

  /** The instances that have a round, in order. */
  function Rounds(es: seq<Event>): seq<nat> {
    if es == [] then [] else (if es[0].RoundOf? then [es[0].i] else []) + Rounds(es[1..])
  }

  lemma PlainStep(s: Seats, e: Event)
    requires Plain(s) && e.i < |s|
    ensures Plain(Step(s, e))
    ensures Base(Step(s, e)) == if e.RoundOf? then Round(Base(s), e.i) else Base(s)
  {
    AwakeStep(s, e, Below(|s|));
    if e.RoundOf? {
      NoSeedBegins(s, e.i);
    }
  }

  lemma RunNext(w: World, i: nat, rest: seq<nat>)
    requires i < |w| && Within(w, rest)
    ensures Within(w, [i] + rest) && Election.Run(w, [i] + rest) == Election.Run(Round(w, i), rest)
  {
    assert ([i] + rest)[1..] == rest;
  }

  lemma RoundsWithin(s: Seats, es: seq<Event>)
    requires InRange(s, es)
    ensures Within(Base(s), Rounds(es))
  {
    if es != [] {
      RoundsWithin(s, es[1..]);
    }
  }

  lemma {:induction false} PlainRun(s: Seats, es: seq<Event>)
    requires Plain(s) && InRange(s, es)
    ensures Plain(Run(s, es)) && Within(Base(s), Rounds(es))
    ensures Base(Run(s, es)) == Election.Run(Base(s), Rounds(es))
    decreases |es|
  {
    RoundsWithin(s, es);
    if es != [] {
      var e, rest := es[0], es[1..];
      PlainStep(s, e);
      PlainRun(Step(s, e), rest);
      if e.RoundOf? {
        RunNext(Base(s), e.i, Rounds(rest));
      } else {
        assert Rounds(es) == Rounds(rest);
      }
    }
  }

  lemma {:induction false} RoundsHave(es: seq<Event>, i: nat)
    requires RoundOf(i) in es
    ensures i in Rounds(es)
  {
    if es[0] != RoundOf(i) {
      RoundsHave(es[1..], i);
    }
  }

  lemma LastPass(s: Seats, es: seq<Event>, later: seq<Event>) returns (b: nat)
    requires s != [] && Plain(s) && IsPass(s, es) && InRange(s, later)
    ensures var s' := Run(s, es);
            && b < |s| && Discoverers(Base(s')) == {b} && Plain(s')
            && Base(Run(s', later)) == Base(s') && Plain(Run(s', later))
  {
    var w, schedule, s' := Base(s), Rounds(es), Run(s, es);
    PlainRun(s, es);
    forall i: nat | i < |s| ensures i in schedule {
      RoundsHave(es, i);
    }
    var j :| 0 <= j < |s| && s[j].at.discovering;
    assert j in Discoverers(w);
    UnknownPass(w, schedule, {});
    assert {} + Elements(schedule) == All(w) == All(Base(s'));
    b := SettledIsOne(Base(s'));
    PlainRun(s', later);
    SettledStays(Base(s'), Rounds(later));
  }

  /**
   * The election converges with the fetches too, in any interleaving: after two passes, the end of the fetches then
   * under way, and two more passes exactly one instance discovers, none fetches to start from, and nothing later
   * changes that.
   */
  lemma ConvergesWithFetches(s: Seats, first: seq<Event>, second: seq<Event>, ends: seq<Event>, third: seq<Event>,
          last: seq<Event>, later: seq<Event>) returns (b: nat)
    requires s != [] && Proper(s) && IsPass(s, first) && IsPass(s, second) && AllEnd(s, ends)
    requires IsPass(s, third) && IsPass(s, last) && InRange(s, later)
    ensures var s' := Run(Run(Run(Run(Run(s, first), second), ends), third), last);
            && b < |s| && Discoverers(Base(s')) == {b} && (forall i | 0 <= i < |s| :: !s'[i].seeding)
            && Base(Run(s', later)) == Base(s') && (forall i | 0 <= i < |s| :: !Run(s', later)[i].seeding)
  {
    var s1 := Run(s, first);
    KnownRun(s, first, {});
    PassRounds(s, first);
    var s2 := Run(s1, second);
    LeadsRun(s1, second);
    var s3 := Run(s2, ends);
    EndsWake(s2, ends);
    var s4 := Run(s3, third);
    AwakeRun(s3, third, {});
    PassRounds(s3, third);
    b := LastPass(s4, last, later);
  }

  lemma PassRounds(s: Seats, es: seq<Event>)
    requires IsPass(s, es)
    ensures forall i: nat | i < |s| :: i in {} + Rounded(es)
  {
    forall i: nat | i < |s| ensures i in Rounded(es) {
      assert RoundOf(i) in es;
    }
  }
}
