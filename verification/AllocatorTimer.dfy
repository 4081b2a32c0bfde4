/** The one timer: between two events nothing it does not wake for is missed, and no wake is for nothing. */
module AllocatorTimer {
  import opened Common
  import opened Ordering
  import opened AllocatorModel
  import opened AllocatorInvariant

  /** The list proposed is the live one, none is to take effect at now, and the wake arranged is the one for now. */
  ghost predicate Scheduled(c: Settings, st: State, now: nat) {
    && Listed(c, st, now)
    && !SettleDue(c, st, now)
    && st.timer == Schedule(c, st, now).timer
  }

  /** Nothing at all is left to do at now: no drain has run out either. */
  ghost predicate UpToDate(c: Settings, st: State, now: nat) {
    Scheduled(c, st, now) && forall k | k in st.draining :: now < st.draining[k].until
  }

  ghost predicate Listed(c: Settings, st: State, now: nat) {
    var names := SortedNames(LiveSet(c, st.members, now));
    (forall n | n in names :: n in st.members) && st.proposed == names && st.proposedCaps == CapsOf(names, st.members)
  }

  lemma SameLive(c: Settings, a: map<string, Member>, b: map<string, Member>, t: nat, u: nat)
    requires LiveSet(c, a, t) == LiveSet(c, b, u)
    requires forall n | n in LiveSet(c, a, t) :: n in a && n in b && a[n] == b[n]
    ensures var names := SortedNames(LiveSet(c, a, t));
            && (forall n | n in names :: n in a && n in b)
            && CapsOf(names, a) == CapsOf(names, b)
  {
    var names := SortedNames(LiveSet(c, a, t));
    assert forall n | n in names :: n in Elements(names);
  }

  lemma PrunedLive(c: Settings, st: State, now: nat)
    ensures LiveSet(c, Pruned(c, st, now), now) == LiveSet(c, st.members, now)
  {
  }

  lemma ProposeLists(c: Settings, st: State, now: nat)
    ensures Listed(c, Propose(c, st, now), now)
  {
    PrunedLive(c, st, now);
    SameLive(c, st.members, Pruned(c, st, now), now, now);
  }

  /** Alike in all that the wakes and the settling go by, but for the drains. */
  ghost predicate SameList(st: State, st': State) {
    && st'.members == st.members && st'.proposed == st.proposed && st'.proposedCaps == st.proposedCaps
    && st'.proposedAt == st.proposedAt && st'.effective == st.effective && st'.effectiveCaps == st.effectiveCaps
    && st'.settled == st.settled && st'.firstHeard == st.firstHeard && st'.longestHeard == st.longestHeard
    && st'.stopped == st.stopped
  }

  /** The wake arranged depends on those and on the drains alone. */
  lemma SameTimer(c: Settings, st: State, st': State, now: nat)
    requires SameList(st, st') && st'.draining == st.draining
    ensures Schedule(c, st', now).timer == Schedule(c, st, now).timer
    ensures SettleDue(c, st', now) == SettleDue(c, st, now)
  {
    assert Wakes(c, st', now) == Wakes(c, st, now);
  }

  /** What an update does to the list and the drains, of the state with the live list proposed. */
  ghost predicate Updates(c: Settings, st1: State, u: State, now: nat) {
    var st2 := Settled(c, st1, now);
    SameList(st2, u) && u.draining == Unexpired(st2.draining, now) && u.inputs == st1.inputs
  }

  lemma FinishShape(c: Settings, st1: State, now: nat)
    ensures var u := Finish(c, st1, now); Updates(c, st1, u, now) && u.timer == Schedule(c, u, now).timer
  {
    var st2, u := Settled(c, st1, now), Finish(c, st1, now);
    var st3 := st2.(draining := Unexpired(st2.draining, now));
    var st4 := if SettleDue(c, st1, now) || st3.draining != st2.draining then Rebuild(c, st3) else st3;
    assert SameList(st2, st4) && SameList(st4, u);
    SameTimer(c, st4, u, now);
  }

  lemma ProposeShape(c: Settings, st: State, now: nat)
    ensures var st1 := Propose(c, st, now);
            && st1.inputs == st.inputs && st1.effective == st.effective && st1.effectiveCaps == st.effectiveCaps
            && st1.draining == st.draining
  {
  }

  /**
   * An update proposes the live list, which changes nothing of the list in effect, then settles and drops what ran out.
   */
  lemma UpdateShape(c: Settings, st: State, now: nat)
    ensures var st1, u := Propose(c, st, now), Update(c, st, now);
            && Updates(c, st1, u, now) && u.timer == Schedule(c, u, now).timer
            && st1.inputs == st.inputs && st1.effective == st.effective && st1.effectiveCaps == st.effectiveCaps
            && st1.draining == st.draining
  {
    ProposeShape(c, st, now);
    FinishShape(c, Propose(c, st, now), now);
  }

  lemma SettledIsNotDue(c: Settings, st: State, now: nat)
    ensures !SettleDue(c, Settled(c, st, now), now)
    ensures Listed(c, st, now) ==> Listed(c, Settled(c, st, now), now)
  {
  }

  /** After an update the state is up to date. */
  lemma UpdateIsUpToDate(c: Settings, st: State, now: nat)
    ensures UpToDate(c, Update(c, st, now), now)
  {
    ProposeLists(c, st, now);
    SettledIsNotDue(c, Propose(c, st, now), now);
    UpdateShape(c, st, now);
    var st2, u := Settled(c, Propose(c, st, now), now), Update(c, st, now);
    SameTimer(c, st2.(draining := u.draining), u, now);
    assert SettleDue(c, st2.(draining := u.draining), now) == SettleDue(c, st2, now);
  }

  /** The next wake is in the future, and for something: no wake is for nothing. */
  lemma WakesAhead(c: Settings, st: State, now: nat)
    requires UpToDate(c, st, now)
    ensures forall w | w in Wakes(c, st, now) :: now < w
    ensures st.timer.Some? ==> now < st.timer.value && st.timer.value in Wakes(c, st, now)
  {
    forall w | w in Wakes(c, st, now) ensures now < w {
      if n :| n in st.members && Live(c, st.members[n], now) && w == st.members[n].lastSeen + c.ttl {
      } else if k :| k in st.draining && w == st.draining[k].until {
      }
    }
    if st.timer.Some? {
      assert Least(Wakes(c, st, now)) in Wakes(c, st, now);
    }
  }

  /** The wakes still ahead at a later time, when none has come. */
  lemma SameWakes(c: Settings, st: State, st': State, now: nat, t: nat)
    requires now <= t && st' == st.(members := Pruned(c, st, t))
    requires forall w | w in Wakes(c, st, now) :: t < w
    ensures Wakes(c, st', t) == Wakes(c, st, now)
    ensures LiveSet(c, st'.members, t) == LiveSet(c, st.members, now) == LiveSet(c, st.members, t)
  {
    forall n | n in st.members
      ensures Live(c, st.members[n], now) <==> Live(c, st.members[n], t)
    {
      if Live(c, st.members[n], now) {
        assert st.members[n].lastSeen + c.ttl in LiveWakes(c, st.members, now);
        assert st.members[n].lastSeen + c.ttl in Wakes(c, st, now);
      }
    }
    var a, b := LiveWakes(c, st'.members, t), LiveWakes(c, st.members, now);
    forall w | w in a ensures w in b {
      var n :| n in st'.members && Live(c, st'.members[n], t) && w == st'.members[n].lastSeen + c.ttl;
      assert n in st.members && Live(c, st.members[n], now);
    }
    forall w | w in b ensures w in a {
      var n :| n in st.members && Live(c, st.members[n], now) && w == st.members[n].lastSeen + c.ttl;
      assert n in st'.members && Live(c, st'.members[n], t);
    }
    assert a == b;
  }

  /** Nothing is to be done at t: the live list is proposed, none is due, and no drain has run out. */
  ghost predicate Idle(c: Settings, st: State, t: nat) {
    Listed(c, st, t) && !SettleDue(c, st, t) && forall k | k in st.draining :: t < st.draining[k].until
  }

  ghost predicate BeforeWake(st: State, t: nat) {
    st.timer.Some? ==> t < st.timer.value
  }

  /** Scheduled is idle until the wake, and arranges the same wake. */
  lemma IdleUntilWake(c: Settings, st: State, now: nat, t: nat)
    requires Scheduled(c, st, now) && !st.stopped && now <= t && BeforeWake(st, t)
    ensures Idle(c, st, t) && Schedule(c, st.(members := Pruned(c, st, t)), t).timer == st.timer
  {
    var st1 := st.(members := Pruned(c, st, t));
    assert forall w | w in Wakes(c, st, now) :: t < w;
    SameWakes(c, st, st1, now, t);
    SameLive(c, st.members, st.members, now, t);
    QuietSettle(c, st, now, t);
    forall k | k in st.draining ensures t < st.draining[k].until {
      assert st.draining[k].until in DrainWakes(st.draining);
      assert st.draining[k].until in Wakes(c, st, now);
    }
  }

  /** An update of an idle state only forgets silent members that are in no list, and arranges the wake again. */
  lemma IdleIsQuiet(c: Settings, st: State, t: nat)
    requires Idle(c, st, t)
    ensures Update(c, st, t) == Schedule(c, st.(members := Pruned(c, st, t)), t)
  {
    var st1 := st.(members := Pruned(c, st, t));
    PrunedLive(c, st, t);
    assert Propose(c, st, t) == st1;
    assert SettleDue(c, st1, t) == SettleDue(c, st, t);
    assert Unexpired(st1.draining, t) == st1.draining;
  }

  /**
   * No missed wake: an update at any time before the next wake changes nothing but to forget silent members that are in
   * no list; the list, the proposal, the drains, the bundles and the timer stay as they are.
   */
  lemma QuietUntilWake(c: Settings, st: State, now: nat, t: nat)
    requires Scheduled(c, st, now) && !st.stopped
    requires now <= t && (st.timer.Some? ==> t < st.timer.value)
    ensures Update(c, st, t) == st.(members := Pruned(c, st, t))
    ensures UpToDate(c, Update(c, st, t), t)
  {
    IdleUntilWake(c, st, now, t);
    IdleIsQuiet(c, st, t);
    UpdateIsUpToDate(c, st, t);
  }

  lemma QuietSettle(c: Settings, st: State, now: nat, t: nat)
    requires !SettleDue(c, st, now) && now <= t && forall w | w in Wakes(c, st, now) :: t < w
    ensures !SettleDue(c, st, t)
  {
    if st.settled && !InEffect(st) {
      assert st.proposedAt + c.settle in SettleWakes(c, st);
      assert st.proposedAt + c.settle in Wakes(c, st, now);
    }
    if !st.settled && st.proposed != [] {
      var w := Max(st.proposedAt + c.settle, FirstSettle(c, st));
      assert w in SettleWakes(c, st);
      assert w in Wakes(c, st, now);
    }
  }

  /**
   * The lazy timer is as good as a check at every instant: any number of them before the wake together change nothing.
   */
  lemma {:induction false} QuietChecks(c: Settings, st: State, now: nat, times: seq<nat>, sts: seq<State>)
    requires Scheduled(c, st, now) && !st.stopped && |sts| == |times| + 1 && sts[0] == st
    requires forall i | 0 <= i < |times| :: sts[i + 1] == Update(c, sts[i], times[i])
    requires forall i | 0 <= i < |times| :: now <= times[i] && (st.timer.Some? ==> times[i] < st.timer.value)
    requires forall i, j | 0 <= i < j < |times| :: times[i] <= times[j]
    ensures var end := sts[|times|];
            && end == st.(members := end.members)
            && forall n | n in end.members :: n in st.members && end.members[n] == st.members[n]
    decreases |times|
  {
    if times != [] {
      QuietUntilWake(c, st, now, times[0]);
      assert sts[1] == Update(c, sts[0], times[0]);
      QuietChecks(c, sts[1], times[0], times[1..], sts[1..]);
    }
  }

  /** The drains after a change of the inputs: handed over here, or taken from the leader. */
  ghost function Drained(c: Settings, st: State, in': Inputs, discovered: bool, leader: Option<seq<SnapshotDrain>>,
          now: nat): State {
    var st1 := st.(inputs := in');
    if leader.None? then HandOver(c, st.inputs, st1, now, discovered) else TakeDrains(c, st1, leader.value, now)
  }

  lemma DrainedShape(c: Settings, st: State, in': Inputs, discovered: bool, leader: Option<seq<SnapshotDrain>>,
          now: nat)
    ensures var st2 := Drained(c, st, in', discovered, leader, now); SameList(st, st2) && st2.inputs == in'
  {
  }

  lemma InputsShape(c: Settings, st: State, in': Inputs, discovered: bool, leader: Option<seq<SnapshotDrain>>, now: nat)
    requires !(st.inputs == in' && leader.None?)
    ensures var st' := PutInForce(c, st, in', discovered, leader, now);
            && SameList(st, st') && st'.timer == Schedule(c, st', now).timer
            && st'.draining == Drained(c, st, in', discovered, leader, now).draining && st'.inputs == in'
  {
    var st2, st' := Drained(c, st, in', discovered, leader, now), PutInForce(c, st, in', discovered, leader, now);
    DrainedShape(c, st, in', discovered, leader, now);
    var st3 := if st.inputs == in' && !DrainsChanged(st.(inputs := in'), st2) && leader.Some? then st2
               else Rebuild(c, st2);
    assert st' == Schedule(c, st3, now);
    SameTimer(c, st3, st', now);
  }

  /**
   * A change that comes when every member has fallen silent, and before the wake for it: nothing drains, so no wake is
   * left, although an update would propose the empty list.
   */
  lemma LateInputsMissTheWake(c: Settings, st: State, in': Inputs, discovered: bool,
          leader: Option<seq<SnapshotDrain>>, now: nat)
    requires !(st.inputs == in' && leader.None?) && st.settled && InEffect(st) && st.proposed != []
    requires LiveSet(c, st.members, now) == {} && PutInForce(c, st, in', discovered, leader, now).draining == map[]
    ensures var st' := PutInForce(c, st, in', discovered, leader, now);
            st'.timer == None && st'.proposed != [] && Propose(c, st', now).proposed == []
  {
    var st' := PutInForce(c, st, in', discovered, leader, now);
    InputsShape(c, st, in', discovered, leader, now);
    NobodyWakes(c, st'.members, now);
    NothingListed(SortedNames(LiveSet(c, st'.members, now)));
    ProposesNothing(c, st', now);
  }

  lemma NobodyWakes(c: Settings, members: map<string, Member>, now: nat)
    requires LiveSet(c, members, now) == {}
    ensures LiveWakes(c, members, now) == {}
  {
    assert forall n :: n in members && Live(c, members[n], now) ==> n in LiveSet(c, members, now);
  }

  lemma ProposesNothing(c: Settings, st: State, now: nat)
    requires SortedNames(LiveSet(c, st.members, now)) == []
    ensures Propose(c, st, now).proposed == []
  {
  }

  lemma NothingListed(names: seq<string>)
    ensures Elements(names) == {} ==> names == []
  {
    if names != [] {
      assert names[0] in Elements(names);
    }
  }

  /** A change of the inputs made before the next wake is due arranges the wakes right too. */
  lemma InputsScheduled(c: Settings, st: State, t: nat, in': Inputs, discovered: bool,
          leader: Option<seq<SnapshotDrain>>, now: nat)
    requires Scheduled(c, st, t) && !st.stopped && t <= now && (st.timer.Some? ==> now < st.timer.value)
    requires !(st.inputs == in' && leader.None?)
    ensures Scheduled(c, PutInForce(c, st, in', discovered, leader, now), now)
  {
    QuietUntilWake(c, st, t, now);
    var pruned := st.(members := Pruned(c, st, now));
    PrunedLive(c, st, now);
    SameLive(c, st.members, pruned.members, now, now);
    InputsShape(c, st, in', discovered, leader, now);
  }
}
