/** No wake is missed, over whole runs of the allocator, and exactly when a change of the inputs can miss one. */
module AllocatorWakes {
  import opened Common
  import opened Ordering
  import opened AllocatorModel
  import HeartbeatCheck
  import opened AllocatorInvariant
  import opened AllocatorTimer

  // ---- one change of the inputs ----

  /** At any time until the wake an update changes nothing but to forget silent members that are in no list. */
  ghost predicate QuietFrom(c: Settings, st: State, now: nat) {
    forall t: nat | now <= t && BeforeWake(st, t) :: Update(c, st, t) == st.(members := Pruned(c, st, t))
  }

  /** A list that is due has the wake arranged for now. */
  lemma DueIsNow(c: Settings, st: State, now: nat)
    requires SettleDue(c, st, now) && !st.stopped
    ensures Schedule(c, st, now).timer == Some(now)
  {
    var w := if st.settled then st.proposedAt + c.settle else Max(st.proposedAt + c.settle, FirstSettle(c, st));
    assert w in SettleWakes(c, st);
    assert w in Wakes(c, st, now);
  }

  lemma UnlistedIsProposed(c: Settings, st: State, now: nat)
    requires Update(c, st, now).proposed == st.proposed && Update(c, st, now).proposedCaps == st.proposedCaps
    ensures Listed(c, st, now)
  {
    UpdateShape(c, st, now);
    ProposedIs(c, st, now);
  }

  lemma ProposedIs(c: Settings, st: State, now: nat)
    ensures var names := SortedNames(LiveSet(c, st.members, now));
            && (forall n | n in names :: n in st.members)
            && Propose(c, st, now).proposed == names && Propose(c, st, now).proposedCaps == CapsOf(names, st.members)
  {
    var names := SortedNames(LiveSet(c, st.members, now));
    assert forall n | n in names :: n in Elements(names);
  }

  ghost predicate SomeEnded(draining: map<DrainKey, Drain>, now: nat) {
    exists k :: k in draining && draining[k].until <= now
  }

  /**
   * A change of the inputs, at any time, leaves the allocator quiet until its wake exactly when the list proposed was
   * the live one; or the settle time of the one proposed, or one of the drains the change leaves, has run out, which
   * has the wake come at once.
   */
  lemma InputsQuietExactly(c: Settings, st: State, in': Inputs, discovered: bool, leader: Option<seq<SnapshotDrain>>,
          now: nat)
    requires !(st.inputs == in' && leader.None?) && !st.stopped
    ensures var d := Drained(c, st, in', discovered, leader, now).draining;
            QuietFrom(c, PutInForce(c, st, in', discovered, leader, now), now) <==>
            Listed(c, st, now) || SettleDue(c, st, now) || SomeEnded(d, now)
  {
    var st' := PutInForce(c, st, in', discovered, leader, now);
    InputsShape(c, st, in', discovered, leader, now);
    QuietExactly(c, st', now);
    DueNowExactly(c, st', now);
    ListedAlike(c, st, st', now);
  }

  /**
   * A drain that has run out after a change had before: what a change makes drain, or takes from a leader, has time
   * left.
   */
  lemma EndedBefore(c: Settings, st: State, in': Inputs, discovered: bool, leader: Option<seq<SnapshotDrain>>, now: nat)
    requires forall n | n in in'.targets :: in'.targets[n].interval > 0
    requires SomeEnded(Drained(c, st, in', discovered, leader, now).draining, now)
    ensures SomeEnded(st.draining, now)
  {
    var d := Drained(c, st, in', discovered, leader, now).draining;
    var k :| k in d && d[k].until <= now;
    if leader.Some? {
      var own := OwnDrains(st.draining, now);
      TakenHasTimeLeft(own, st.effective, leader.value, now, k);
      assert k in own;
    }
    assert k in st.draining && st.draining[k].until <= now;
  }

  lemma {:induction false} TakenHasTimeLeft(draining: map<DrainKey, Drain>, effective: seq<string>,
          list: seq<SnapshotDrain>, now: nat, k: DrainKey)
    requires var d := TakeEach(draining, effective, list, now); k in d && d[k].until <= now
    ensures k in draining && draining[k].until <= now
  {
    if list != [] {
      TakenHasTimeLeft(draining, effective, list[..|list| - 1], now, k);
    }
  }

  lemma ListedAlike(c: Settings, st: State, st': State, now: nat)
    requires SameList(st, st')
    ensures Listed(c, st', now) == Listed(c, st, now) && SettleDue(c, st', now) == SettleDue(c, st, now)
  {
  }

  /** The wake is for now exactly when the settle time or a drain has run out: no live member's time to live has. */
  lemma DueNowExactly(c: Settings, st: State, now: nat)
    ensures (exists w :: w in Wakes(c, st, now) && w <= now) <==> SettleDue(c, st, now) || SomeEnded(st.draining, now)
  {
    if w :| w in Wakes(c, st, now) && w <= now {
      EarlyWakeIs(c, st, now, w);
    }
    if SettleDue(c, st, now) {
      var w := if st.settled then st.proposedAt + c.settle else Max(st.proposedAt + c.settle, FirstSettle(c, st));
      assert w in SettleWakes(c, st) && w in Wakes(c, st, now);
    }
    if k :| k in st.draining && st.draining[k].until <= now {
      assert st.draining[k].until in DrainWakes(st.draining);
      assert st.draining[k].until in Wakes(c, st, now);
    }
  }

  lemma EarlyWakeIs(c: Settings, st: State, now: nat, w: nat)
    requires w in Wakes(c, st, now) && w <= now
    ensures SettleDue(c, st, now) || SomeEnded(st.draining, now)
  {
    assert w !in LiveWakes(c, st.members, now);
    if w !in SettleWakes(c, st) {
      var k :| k in st.draining && st.draining[k].until == w;
    }
  }

  lemma QuietExactly(c: Settings, st: State, now: nat)
    requires !st.stopped && st.timer == Schedule(c, st, now).timer
    ensures QuietFrom(c, st, now) <==> Listed(c, st, now) || exists w :: w in Wakes(c, st, now) && w <= now
  {
    assert st.timer == Some(now) <==> exists w :: w in Wakes(c, st, now) && w <= now;
    if st.timer != Some(now) {
      if SettleDue(c, st, now) {
        DueIsNow(c, st, now);
      }
      if Listed(c, st, now) {
        forall t: nat | now <= t && BeforeWake(st, t) ensures Update(c, st, t) == st.(members := Pruned(c, st, t)) {
          QuietUntilWake(c, st, now, t);
        }
      } else if QuietFrom(c, st, now) {
        assert BeforeWake(st, now);
        UnlistedIsProposed(c, st, now);
      }
    }
  }

  // ---- over runs ----

  /** Until its wake nothing is to be done. */
  ghost predicate NoneMissed(c: Settings, st: State, now: nat) {
    st.stopped || forall t: nat | now <= t && BeforeWake(st, t) :: Idle(c, st, t)
  }

  lemma ScheduledMissesNone(c: Settings, st: State, now: nat)
    requires Scheduled(c, st, now)
    ensures NoneMissed(c, st, now)
  {
    if !st.stopped {
      forall t: nat | now <= t && BeforeWake(st, t) ensures Idle(c, st, t) {
        IdleUntilWake(c, st, now, t);
      }
    }
  }

  lemma UpdateMissesNone(c: Settings, st: State, now: nat)
    ensures NoneMissed(c, Update(c, st, now), now)
  {
    UpdateIsUpToDate(c, st, now);
    ScheduledMissesNone(c, Update(c, st, now), now);
  }

  /** What is heard before the first list can only put off when that forms, so the wake arranged is none too late. */
  lemma HeardMissesNone(c: Settings, st: State, hb: Heartbeat, then': nat, now: nat)
    requires NoneMissed(c, st, then') && then' <= now
    ensures NoneMissed(c, Heard(st, hb, now), now)
  {
    var st' := Heard(st, hb, now);
    assert FirstSettle(c, st) <= FirstSettle(c, st');
    if !st.stopped {
      forall t: nat | now <= t && BeforeWake(st', t) ensures Idle(c, st', t) {
        assert Idle(c, st, t);
        HeardListed(c, st, hb, now, t);
      }
    }
  }

  lemma HeardListed(c: Settings, st: State, hb: Heartbeat, now: nat, t: nat)
    requires Listed(c, st, t)
    ensures Listed(c, Heard(st, hb, now), t)
  {
  }

  lemma BeatMissesNone(c: Settings, st: State, hb: Heartbeat, then': nat, now: nat)
    requires NoneMissed(c, st, then') && then' <= now
    ensures NoneMissed(c, Beat(c, st, hb, now), now)
  {
    if WellFormed(hb) {
      var st1 := Heard(st, hb, now);
      if Ignored(st1, hb) || Refused(c, st1, hb, now) {
        HeardMissesNone(c, st, hb, then', now);
      } else {
        UpdateMissesNone(c, Recorded(st1, hb, now), now);
      }
    }
  }

  lemma InputsMissNone(c: Settings, st: State, in': Inputs, discovered: bool, leader: Option<seq<SnapshotDrain>>,
          then': nat, now: nat)
    requires NoneMissed(c, st, then') && then' <= now && BeforeWake(st, now)
    ensures NoneMissed(c, PutInForce(c, st, in', discovered, leader, now), now)
  {
    if !(st.inputs == in' && leader.None?) {
      InputsShape(c, st, in', discovered, leader, now);
      if !st.stopped {
        assert Idle(c, st, now);
        var st' := PutInForce(c, st, in', discovered, leader, now);
        assert Listed(c, st', now) && !SettleDue(c, st', now);
        ScheduledMissesNone(c, st', now);
      }
    }
  }

  /** A wake that is due comes before the next change of the inputs. */
  ghost predicate OnTime(st: State, e: Timed) {
    e.event.InputsChange? ==> BeforeWake(st, e.at)
  }

  lemma StepMissesNone(c: Settings, st: State, e: Timed, then': nat)
    requires NoneMissed(c, st, then') && then' <= e.at && OnTime(st, e)
    ensures NoneMissed(c, Step(c, st, e.event, e.at), e.at)
  {
    match e.event
    case HeartbeatComes(hb) => BeatMissesNone(c, st, hb, then', e.at);
    case TimerFires =>
      if !st.stopped {
        UpdateMissesNone(c, st, e.at);
      }
    case InputsChange(in', discovered, leader) => InputsMissNone(c, st, in', discovered, leader, then', e.at);
    case ShutdownBegins =>
  }

  lemma NewMissesNone(c: Settings, in': Inputs)
    ensures NoneMissed(c, New(c, in'), c.started)
  {
    var b := Bundle(in'.config, map[]);
    var st := State(map[], [], [], c.started, [], [], false, in', map[], map[], b, None, None, 0, false);
    var st1 := Rebuild(c, st);
    assert LiveSet(c, map[], c.started) == {};
    NothingListed(SortedNames({}));
    SameTimer(c, st1, New(c, in'), c.started);
    assert Listed(c, New(c, in'), c.started);
    ScheduledMissesNone(c, New(c, in'), c.started);
  }

  ghost predicate TimelyRun(c: Settings, sts: seq<State>, es: seq<Timed>, in': Inputs) {
    && IsRun(c, sts, es) && sts[0] == New(c, in')
    && forall i | 0 <= i < |es| :: c.started <= es[i].at && OnTime(sts[i], es[i])
  }

  /** When state i of a run was made. */
  ghost function Since(c: Settings, es: seq<Timed>, i: nat): nat
    requires i <= |es|
  {
    if i == 0 then c.started else es[i - 1].at
  }

  lemma {:induction false} RunMissesNone(c: Settings, sts: seq<State>, es: seq<Timed>, in': Inputs, i: nat)
    requires TimelyRun(c, sts, es, in') && i < |sts|
    ensures NoneMissed(c, sts[i], Since(c, es, i))
    decreases i
  {
    if i == 0 {
      NewMissesNone(c, in');
    } else {
      RunMissesNone(c, sts, es, in', i - 1);
      StepMissesNone(c, sts[i - 1], es[i - 1], Since(c, es, i - 1));
    }
  }

  /**
   * No missed wake, over any run of heartbeats, applied, ignored or refused, wakes, snapshots and changes of the inputs
   * before the wake: whenever an update is run before the timer, it only forgets silent members that are in no list,
   * and arranges the wake again.
   */
  lemma NoMissedWake(c: Settings, sts: seq<State>, es: seq<Timed>, in': Inputs, i: nat, t: nat)
    requires TimelyRun(c, sts, es, in') && i < |sts| && !sts[i].stopped
    requires Since(c, es, i) <= t && BeforeWake(sts[i], t)
    ensures Update(c, sts[i], t) == sts[i].(members := Pruned(c, sts[i], t), timer := Update(c, sts[i], t).timer)
  {
    RunMissesNone(c, sts, es, in', i);
    IdleIsQuiet(c, sts[i], t);
  }

  // ---- a wake that is missed ----

  lemma OneName(name: string)
    ensures SortedNames({name}) == [name]
  {
    var names := SortedNames({name});
    assert forall n :: n in names <==> n in Elements(names);
    NamesAreOrdered({name});
    SortedUnique(Less, names, [name], {name});
  }

  ghost predicate OneSecond(c: Settings) {
    c.started == 0 && c.settle == 0 && c.interval == 1000 && c.ttl == 3000 && c.maxMembers > 0
  }

  function FirstBeat(): Heartbeat {
    Heartbeat("m", "h:1", "a", 1, false, 0, 0)
  }

  predicate OnlyM(members: map<string, Member>) {
    members.Keys == {"m"} && members["m"].lastSeen == 1000 && !members["m"].shuttingDown
  }

  /** The first heartbeat forms the list at once, of its one member. */
  lemma FirstBeatForms(c: Settings, st: State)
    requires OneSecond(c) && st.members == map[] && st.proposed == [] && !st.settled && st.firstHeard == None
    requires st.longestHeard == 0 && st.effective == [] && st.draining == map[]
    ensures var u := Beat(c, st, FirstBeat(), 1000);
            && u.settled && u.proposed == u.effective == ["m"] && u.proposedCaps == u.effectiveCaps
            && u.draining == map[]
            && u.inputs == st.inputs && u.stopped == st.stopped && OnlyM(u.members)
            && u.timer == Schedule(c, u, 1000).timer
  {
    FirstBeatIsTaken();
    FirstTaken(c, st);
  }

  lemma FirstBeatIsTaken()
    ensures WellFormed(FirstBeat())
  {
    HeartbeatCheck.OneByteTakes("m");
    HeartbeatCheck.OneByteTakes("a");
    HeartbeatCheck.OneDigitPort();
    assert !HeartbeatCheck.IsSpace("m"[0]);
  }

  lemma FirstTaken(c: Settings, st: State)
    requires OneSecond(c) && st.members == map[] && st.proposed == [] && !st.settled && st.firstHeard == None
    requires st.longestHeard == 0 && st.effective == [] && st.draining == map[]
    ensures var u := TakeBeat(c, st, FirstBeat(), 1000);
            && u.settled && u.proposed == u.effective == ["m"] && u.proposedCaps == u.effectiveCaps
            && u.draining == map[]
            && u.inputs == st.inputs && u.stopped == st.stopped && OnlyM(u.members)
            && u.timer == Schedule(c, u, 1000).timer
  {
    var st1 := Heard(st, FirstBeat(), 1000);
    assert LiveSet(c, st1.members, 1000) == {};
    OneMemberForms(c, Recorded(st1, FirstBeat(), 1000));
  }

  lemma OneMemberForms(c: Settings, st: State)
    requires OneSecond(c) && OnlyM(st.members)
    requires st.proposed == [] && !st.settled && st.firstHeard == Some(1000) && st.longestHeard == 0
    requires st.effective == [] && st.draining == map[]
    ensures var u := Update(c, st, 1000);
            && u.settled && u.proposed == u.effective == ["m"] && u.proposedCaps == u.effectiveCaps
            && u.draining == map[]
            && u.inputs == st.inputs && u.stopped == st.stopped && OnlyM(u.members)
            && u.timer == Schedule(c, u, 1000).timer
  {
    assert LiveSet(c, st.members, 1000) == {"m"};
    OneName("m");
    ProposedIs(c, st, 1000);
    UpdateShape(c, st, 1000);
    var st1 := Propose(c, st, 1000);
    assert st1.proposedAt == 1000 && FirstSettle(c, st1) == 1000 && SettleDue(c, st1, 1000);
    assert ListDrains(c, st1, 1000) == map[];
    assert TakeEffect(c, st1, 1000).draining == map[];
    assert Pruned(c, st, 1000) == st.members;
  }

  lemma OnlyWake(c: Settings, st: State)
    requires OneSecond(c) && OnlyM(st.members) && st.settled && InEffect(st) && st.draining == map[] && !st.stopped
    requires st.timer == Schedule(c, st, 1000).timer
    ensures st.timer == Some(4000)
  {
    assert 4000 in LiveWakes(c, st.members, 1000) by {
      assert "m" in st.members && Live(c, st.members["m"], 1000);
    }
    assert Wakes(c, st, 1000) == {4000};
  }

  /** Without targets nothing is handed over. */
  lemma NothingHandedOver(c: Settings, st: State, in': Inputs, now: nat)
    requires in'.targets == map[] && st.draining == map[]
    ensures HandOver(c, st.inputs, st.(inputs := in'), now, false).draining == map[]
  {
    assert MovedByInputs(c, st.inputs, st.(inputs := in')) == {};
  }

  /** Settled on its one member, the allocator misses the wake when the inputs change at the time that is due. */
  lemma ChangeMisses(c: Settings, st: State, in1: Inputs)
    requires OneSecond(c) && OnlyM(st.members) && st.settled && st.proposed == st.effective == ["m"] && InEffect(st)
    requires st.draining == map[] && st.inputs != in1 && in1.targets == map[] && !st.stopped
    ensures var st' := PutInForce(c, st, in1, false, None, 4000);
            st'.timer == None && !st'.stopped && st'.proposed == ["m"] && Propose(c, st', 4000).proposed == []
  {
    assert LiveSet(c, st.members, 4000) == {};
    InputsShape(c, st, in1, false, None, 4000);
    NothingHandedOver(c, st, in1, 4000);
    LateInputsMissTheWake(c, st, in1, false, None, 4000);
  }

  lemma NewIsEmpty(c: Settings, in': Inputs)
    ensures var st := New(c, in');
            && st.members == map[] && st.proposed == [] && !st.settled && st.firstHeard == None && st.longestHeard == 0
            && st.effective == [] && st.draining == map[] && st.inputs == in' && !st.stopped
  {
  }

  ghost predicate FollowsBy(c: Settings, sts: seq<State>, es: seq<Timed>, i: nat) {
    |sts| == |es| + 1 && i < |es| && sts[i + 1] == Step(c, sts[i], es[i].event, es[i].at)
  }

  lemma TwoSteps(c: Settings, sts: seq<State>, es: seq<Timed>)
    requires |es| == 2 && |sts| == 3 && es[0].at <= es[1].at && FollowsBy(c, sts, es, 0) && FollowsBy(c, sts, es, 1)
    ensures IsRun(c, sts, es)
  {
  }

  /**
   * A run in which a wake is missed: one heartbeat, and a change of the inputs at the very time the member's time to
   * live has run out. No wake is left, and yet an update would propose the empty list.
   */
  lemma AWakeMissed(c: Settings, in0: Inputs, in1: Inputs) returns (sts: seq<State>, es: seq<Timed>)
    requires OneSecond(c) && in0 != in1 && in1.targets == map[]
    ensures |es| == 2 && |sts| == 3 && IsRun(c, sts, es) && sts[0] == New(c, in0)
    ensures sts[1].timer == Some(4000) == Some(es[1].at)
    ensures sts[2].timer == None && !sts[2].stopped && sts[2].proposed == ["m"]
    ensures Propose(c, sts[2], 4000).proposed == []
  {
    var s0 := New(c, in0);
    NewIsEmpty(c, in0);
    var s1, s2 := MissesFrom(c, s0, in1);
    sts, es := [s0, s1, s2], [Timed(HeartbeatComes(FirstBeat()), 1000), Timed(InputsChange(in1, false, None), 4000)];
    TwoSteps(c, sts, es);
  }

  /** Settled on its one member, with nothing draining. */
  ghost predicate Alone(st: State) {
    && OnlyM(st.members) && st.settled && st.proposed == st.effective == ["m"] && InEffect(st)
    && st.draining == map[] && !st.stopped
  }

  lemma FirstStep(c: Settings, s0: State) returns (s1: State)
    requires OneSecond(c) && s0.members == map[] && s0.proposed == [] && !s0.settled && s0.firstHeard == None
    requires s0.longestHeard == 0 && s0.effective == [] && s0.draining == map[] && !s0.stopped
    ensures s1 == Step(c, s0, HeartbeatComes(FirstBeat()), 1000)
    ensures Alone(s1) && s1.inputs == s0.inputs && s1.timer == Some(4000)
  {
    s1 := Beat(c, s0, FirstBeat(), 1000);
    FirstBeatForms(c, s0);
    OnlyWake(c, s1);
  }

  lemma SecondStep(c: Settings, s1: State, in1: Inputs) returns (s2: State)
    requires OneSecond(c) && Alone(s1) && s1.inputs != in1 && in1.targets == map[]
    ensures s2 == Step(c, s1, InputsChange(in1, false, None), 4000)
    ensures s2.timer == None && !s2.stopped && s2.proposed == ["m"] && Propose(c, s2, 4000).proposed == []
  {
    s2 := PutInForce(c, s1, in1, false, None, 4000);
    ChangeMisses(c, s1, in1);
  }

  lemma MissesFrom(c: Settings, s0: State, in1: Inputs) returns (s1: State, s2: State)
    requires OneSecond(c) && s0.members == map[] && s0.proposed == [] && !s0.settled && s0.firstHeard == None
    requires s0.longestHeard == 0 && s0.effective == [] && s0.draining == map[] && !s0.stopped
    requires s0.inputs != in1 && in1.targets == map[]
    ensures s1 == Step(c, s0, HeartbeatComes(FirstBeat()), 1000)
    ensures s2 == Step(c, s1, InputsChange(in1, false, None), 4000)
    ensures s1.timer == Some(4000)
    ensures s2.timer == None && !s2.stopped && s2.proposed == ["m"] && Propose(c, s2, 4000).proposed == []
  {
    s1 := FirstStep(c, s0);
    s2 := SecondStep(c, s1, in1);
  }
}
