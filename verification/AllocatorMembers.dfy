/**
 * Who is in the member list, and when, said of the heartbeats and the clock alone (internal/allocator/allocator.go:
 * live, update, settleDue, firstSettle, liveCount, bundleLocked).
 */
module AllocatorMembers {
  import opened Common
  import opened Ordering
  import opened AllocatorModel
  import opened AllocatorInvariant
  import opened AllocatorTimer
  import H = HeartbeatProtocol

  // ---- what is proposed ----

  /** The names of those heard from within the TTL that do not say they shut down, in order, with their capacities. */
  ghost predicate ListsLive(c: Settings, members: map<string, Member>, names: seq<string>, caps: seq<nat>, now: nat) {
    && Sorted(Less, names) && |caps| == |names|
    && (forall n :: n in names <==> n in members && !members[n].shuttingDown && now - members[n].lastSeen < c.ttl)
    && forall i | 0 <= i < |names| :: caps[i] == members[names[i]].capacity
  }

  /** An update proposes the live members; a list other than the one before is proposed from now on. */
  lemma ProposedExactly(c: Settings, st: State, now: nat)
    ensures var u := Update(c, st, now);
            && ListsLive(c, st.members, u.proposed, u.proposedCaps, now)
            && u.proposedAt ==
               if u.proposed == st.proposed && u.proposedCaps == st.proposedCaps then st.proposedAt else now
  {
    var st1, u := UpdateParts(c, st, now);
    ProposeIs(c, st, now);
  }

  /** An update proposes nothing after it has proposed the live list. */
  lemma UpdateParts(c: Settings, st: State, now: nat) returns (st1: State, u: State)
    ensures st1 == Propose(c, st, now) && u == Update(c, st, now)
    ensures u.proposed == st1.proposed && u.proposedCaps == st1.proposedCaps && u.proposedAt == st1.proposedAt
  {
    UpdateShape(c, st, now);
    st1, u := Propose(c, st, now), Update(c, st, now);
  }

  lemma ProposeIs(c: Settings, st: State, now: nat)
    ensures var st1 := Propose(c, st, now);
            && ListsLive(c, st.members, st1.proposed, st1.proposedCaps, now)
            && st1.proposedAt ==
               (if st1.proposed == st.proposed && st1.proposedCaps == st.proposedCaps then st.proposedAt else now)
            && st1.settled == st.settled && st1.firstHeard == st.firstHeard && st1.longestHeard == st.longestHeard
  {
    var names := SortedNames(LiveSet(c, st.members, now));
    assert forall n :: n in names <==> n in Elements(names);
  }

  /** A heartbeat is refused exactly of a member not held, with as many live ones as there may be. */
  lemma RefusedExactly(c: Settings, st: State, hb: Heartbeat, now: nat)
    ensures Refused(c, st, hb, now) <==>
            && hb.member !in st.members
            && |set n | n in st.members && !st.members[n].shuttingDown && now - st.members[n].lastSeen < c.ttl|
               >= c.maxMembers
  {
    assert LiveSet(c, st.members, now) ==
           set n | n in st.members && !st.members[n].shuttingDown && now - st.members[n].lastSeen < c.ttl;
  }

  // ---- when it takes effect ----

  /** The proposal has held, and is news; the first list has waited for the others to be heard. */
  ghost predicate Due(c: Settings, st: State, u: State, now: nat) {
    && now >= u.proposedAt + c.settle
    && if st.settled then u.proposed != st.effective || u.proposedCaps != st.effectiveCaps
       else
         && u.proposed != [] && now >= c.started + c.settle && now >= c.started + c.interval
         && (st.firstHeard.Some? ==> now >= st.firstHeard.value + st.longestHeard)
  }

  /** A proposal that differs, in capacities alone too, takes effect at the first update once it has held, no sooner. */
  lemma TakesEffectExactly(c: Settings, st: State, now: nat)
    ensures var u := Update(c, st, now);
            if Due(c, st, u, now) then u.settled && u.effective == u.proposed && u.effectiveCaps == u.proposedCaps
            else u.settled == st.settled && u.effective == st.effective && u.effectiveCaps == st.effectiveCaps
  {
    UpdateShape(c, st, now);
    ProposeIs(c, st, now);
    SettlesExactly(c, st, Propose(c, st, now), Update(c, st, now), now);
  }

  lemma SettlesExactly(c: Settings, st: State, st1: State, u: State, now: nat)
    requires st1.settled == st.settled && st1.firstHeard == st.firstHeard && st1.longestHeard == st.longestHeard
    requires st1.effective == st.effective && st1.effectiveCaps == st.effectiveCaps && Updates(c, st1, u, now)
    ensures if Due(c, st, u, now) then u.settled && u.effective == u.proposed && u.effectiveCaps == u.proposedCaps
            else u.settled == st.settled && u.effective == st.effective && u.effectiveCaps == st.effectiveCaps
  {
    DueIs(c, st, st1, now);
  }

  lemma DueIs(c: Settings, st: State, st1: State, now: nat)
    requires st1.settled == st.settled && st1.firstHeard == st.firstHeard && st1.longestHeard == st.longestHeard
    requires st1.effective == st.effective && st1.effectiveCaps == st.effectiveCaps
    ensures SettleDue(c, st1, now) <==> Due(c, st, st1, now)
  {
  }

  /** A heartbeat that is taken in. */
  ghost predicate TakenIn(c: Settings, st: State, hb: Heartbeat, now: nat) {
    WellFormed(hb) && !IsLate(st, hb) && (hb.member in st.members || !hb.shuttingDown) && !Refused(c, st, hb, now)
  }

  /** The events that end in an update. */
  lemma EndsInUpdate(c: Settings, st: State, e: Event, now: nat) returns (st': State)
    requires (e.TimerFires? && !st.stopped) || (e.HeartbeatComes? && TakenIn(c, st, e.hb, now))
    ensures Step(c, st, e, now) == Update(c, st', now)
  {
    st' := if e.TimerFires? then st else Recorded(Heard(st, e.hb, now), e.hb, now);
  }

  /** Nothing is left to do after a wake, nor after a heartbeat that is taken in, and the next wake is arranged. */
  lemma StepIsUpToDate(c: Settings, st: State, e: Event, now: nat)
    requires (e.TimerFires? && !st.stopped) || (e.HeartbeatComes? && TakenIn(c, st, e.hb, now))
    ensures UpToDate(c, Step(c, st, e, now), now)
  {
    var st' := EndsInUpdate(c, st, e, now);
    UpdateIsUpToDate(c, st', now);
  }

  // ---- what a member is answered ----

  /**
   * Before the first list there is no bundle; from then on a member of the list has the targets it owns and those that
   * drain on it, and anybody else the configuration without targets.
   */
  lemma AnswersExactly(c: Settings, st: State, member: string, name: string)
    requires Inv(c, st)
    ensures var b := BundleFor(st, member);
            && (b.Some? <==> st.settled)
            && (b.Some? ==>
                  && b.value.config == st.inputs.config
                  && (name in b.value.share <==>
                        && member in st.effective && name in st.inputs.targets
                        && (OwnerOf(c, st, name) == member || DrainKey(name, member) in st.draining))
                  && (name in b.value.share ==> b.value.share[name] == st.inputs.targets[name]))
  {
    BundlesHoldShares(c, st, member, name);
    assert member in Elements(st.effective) <==> member in st.effective;
    assert st.joining == Rebuild(c, st).joining;
  }

  // ---- what a heartbeat makes of its member ----

  /** Of its process but not numbered past the last one taken in, or of the process that one's replaced. */
  ghost predicate IsLate(st: State, hb: Heartbeat) {
    hb.member in st.members &&
    var m := st.members[hb.member];
    if hb.instance == m.instance then hb.sequence <= m.sequence else hb.instance == m.retired
  }

  /** What the member is held as when it is taken in. */
  ghost predicate HeldAs(m: Option<Member>, hb: Heartbeat, now: nat, m': Member) {
    && m'.lastSeen == now && m'.shuttingDown == hb.shuttingDown
    && m'.instance == hb.instance && m'.sequence == hb.sequence
    && (m.None? ==> m'.retired == "")
    && (m.Some? && m.value.instance == hb.instance ==> m'.retired == m.value.retired)
    && (m.Some? && m.value.instance != hb.instance ==> m'.retired == m.value.instance)
    && (100 <= hb.capacity <= 100000 ==> m'.capacity == hb.capacity)
    && (hb.capacity == 0 ==> m'.capacity == 1000)
    && (hb.capacity < 100 && hb.capacity != 0 ==> m'.capacity == 100)
    && (hb.capacity > 100000 ==> m'.capacity == 100000)
  }

  /**
   * A heartbeat that is late, of a member that shuts down and is not held, or refused changes no member; any other is
   * what its member is held as from then on.
   */
  lemma TakenExactly(c: Settings, st: State, hb: Heartbeat, now: nat)
    requires c.ttl > 0 && WellFormed(hb)
    ensures var st' := Beat(c, st, hb, now);
            if IsLate(st, hb) || (hb.member !in st.members && hb.shuttingDown) || Refused(c, st, hb, now)
            then st'.members == st.members && st'.proposed == st.proposed && st'.effective == st.effective
            else hb.member in st'.members && HeldAs(H.RecordOf(st, hb.member), hb, now, st'.members[hb.member])
  {
    var st1 := Heard(st, hb, now);
    if !Ignored(st1, hb) && !Refused(c, st1, hb, now) {
      H.UpdateRecords(c, Recorded(st1, hb, now), now, hb.member);
    }
  }

  // ---- a member that shuts down ----

  /** Not proposed, and live only if it comes back: it is held as shutting down, or not held. */
  ghost predicate Out(st: State, name: string) {
    name !in st.proposed && (name in st.members ==> st.members[name].shuttingDown)
  }

  /** Of a member, a heartbeat that says it shuts down, or that is late. */
  ghost predicate DownOrLate(st: State, hb: Heartbeat) {
    hb.shuttingDown || IsLate(st, hb)
  }

  lemma UpdateLeavesOut(c: Settings, st: State, now: nat, name: string)
    requires name in st.members ==> st.members[name].shuttingDown
    ensures Out(Update(c, st, now), name)
  {
    ProposedExactly(c, st, now);
    H.UpdateRecords(c, st, now, name);
    assert H.RecordOf(Update(c, st, now), name) in {H.RecordOf(st, name), None};
  }

  lemma BeatLeavesOut(c: Settings, st: State, hb: Heartbeat, now: nat, name: string)
    requires Out(st, name) && (hb.member == name ==> DownOrLate(st, hb))
    ensures Out(Beat(c, st, hb, now), name)
  {
    var st1 := Heard(st, hb, now);
    if WellFormed(hb) && !Ignored(st1, hb) && !Refused(c, st1, hb, now) {
      UpdateLeavesOut(c, Recorded(st1, hb, now), now, name);
    }
  }

  lemma StepLeavesOut(c: Settings, st: State, e: Event, now: nat, name: string)
    requires Out(st, name) && (e.HeartbeatComes? && e.hb.member == name ==> DownOrLate(st, e.hb))
    ensures Out(Step(c, st, e, now), name)
  {
    match e
    case HeartbeatComes(hb) => BeatLeavesOut(c, st, hb, now, name);
    case TimerFires =>
      if !st.stopped {
        UpdateLeavesOut(c, st, now, name);
      }
    case InputsChange(in', discovered, leader) => InputsKeepMembers(c, st, in', discovered, leader, now);
    case ShutdownBegins =>
  }

  lemma InputsKeepMembers(c: Settings, st: State, in': Inputs, discovered: bool, leader: Option<seq<SnapshotDrain>>,
          now: nat)
    ensures var st' := PutInForce(c, st, in', discovered, leader, now);
            && st'.members == st.members && st'.proposed == st.proposed && st'.settled == st.settled
            && st'.firstHeard == st.firstHeard && st'.longestHeard == st.longestHeard
  {
    if !(st.inputs == in' && leader.None?) {
      InputsShape(c, st, in', discovered, leader, now);
    }
  }

  /** A heartbeat that says the member shuts down, taken in, leaves it out of what is proposed. */
  lemma ShutdownLeavesOut(c: Settings, st: State, hb: Heartbeat, now: nat)
    requires WellFormed(hb) && hb.shuttingDown && hb.member in st.members && !IsLate(st, hb)
    ensures Out(Beat(c, st, hb, now), hb.member)
  {
    UpdateLeavesOut(c, Recorded(Heard(st, hb, now), hb, now), now, hb.member);
  }

  /**
   * From the heartbeat that says a member shuts down, and until one of a process that does not is taken in, the member
   * is not proposed, and is in no list that was not in effect before.
   */
  lemma {:induction false} StaysOut(c: Settings, sts: seq<State>, es: seq<Timed>, i: nat, j: nat, name: string)
    requires IsRun(c, sts, es) && i < j < |sts| && es[i].event.HeartbeatComes?
    requires var hb := es[i].event.hb;
             hb.member == name && hb.shuttingDown && WellFormed(hb)
             && name in sts[i].members && !IsLate(sts[i], hb)
    requires forall k | i < k < j && es[k].event.HeartbeatComes? && es[k].event.hb.member == name ::
               DownOrLate(sts[k], es[k].event.hb)
    ensures Out(sts[j], name)
    decreases j
  {
    if j == i + 1 {
      ShutdownLeavesOut(c, sts[i], es[i].event.hb, es[i].at);
    } else {
      StaysOut(c, sts, es, i, j - 1, name);
      StepLeavesOut(c, sts[j - 1], es[j - 1].event, es[j - 1].at, name);
    }
  }

  // ---- what was heard before the first list ----

  ghost predicate IsHeard(e: Event) {
    e.HeartbeatComes? && WellFormed(e.hb)
  }

  ghost predicate SaysInterval(e: Event) {
    IsHeard(e) && e.hb.interval != 0
  }

  /** The interval it says, within one second and two minutes, or the nearer of them. */
  ghost function Saying(e: Event): nat
    requires SaysInterval(e)
  {
    if e.hb.interval < 1000 then 1000 else if e.hb.interval > 120000 then 120000 else e.hb.interval
  }

  /** The time of the first of the events that is a heartbeat. */
  ghost predicate FirstOf(es: seq<Timed>, first: Option<nat>) {
    if first.None? then forall k | 0 <= k < |es| :: !IsHeard(es[k].event)
    else exists k | 0 <= k < |es| ::
        IsHeard(es[k].event) && es[k].at == first.value && forall l | 0 <= l < k :: !IsHeard(es[l].event)
  }

  /** The longest interval that they say, 0 when none says one. */
  ghost predicate LongestOf(es: seq<Timed>, longest: nat) {
    && (forall k | 0 <= k < |es| && SaysInterval(es[k].event) :: Saying(es[k].event) <= longest)
    && (longest == 0 || exists k | 0 <= k < |es| :: SaysInterval(es[k].event) && Saying(es[k].event) == longest)
  }

  lemma UpdateKeepsHeard(c: Settings, st: State, now: nat)
    ensures var u := Update(c, st, now);
            u.firstHeard == st.firstHeard && u.longestHeard == st.longestHeard && (st.settled ==> u.settled)
  {
    UpdateShape(c, st, now);
    ProposeIs(c, st, now);
  }

  /** What a step makes of what was heard. */
  ghost predicate StepHears(st: State, e: Event, now: nat, st': State) {
    && (st.settled ==> st'.settled)
    && (st.settled || !IsHeard(e) ==> st'.firstHeard == st.firstHeard && st'.longestHeard == st.longestHeard)
    && (!st.settled && IsHeard(e) ==>
          && st'.firstHeard == (if st.firstHeard.Some? then st.firstHeard else Some(now))
          && st'.longestHeard ==
             if e.hb.interval != 0 then Max(st.longestHeard, ClampInterval(e.hb.interval)) else st.longestHeard)
  }

  lemma StepHeard(c: Settings, st: State, e: Event, now: nat)
    ensures StepHears(st, e, now, Step(c, st, e, now))
  {
    match e
    case HeartbeatComes(hb) =>
      var st1 := Heard(st, hb, now);
      if WellFormed(hb) && !Ignored(st1, hb) && !Refused(c, st1, hb, now) {
        UpdateKeepsHeard(c, Recorded(st1, hb, now), now);
      }
    case TimerFires =>
      if !st.stopped {
        UpdateKeepsHeard(c, st, now);
      }
    case InputsChange(in', discovered, leader) => InputsKeepMembers(c, st, in', discovered, leader, now);
    case ShutdownBegins =>
  }

  lemma FirstOfMore(es: seq<Timed>, first: Option<nat>, e: Timed)
    requires FirstOf(es, first)
    ensures FirstOf(es + [e], if first.None? && IsHeard(e.event) then Some(e.at) else first)
  {
    var all := es + [e];
    assert forall k | 0 <= k < |es| :: all[k] == es[k];
    if first.Some? {
      var k :| 0 <= k < |es| && IsHeard(es[k].event) && es[k].at == first.value && forall l | 0 <= l < k ::
        !IsHeard(es[l].event);
      assert all[k] == es[k];
    } else {
      assert all[|es|] == e;
    }
  }

  lemma LongestOfMore(es: seq<Timed>, longest: nat, e: Timed)
    requires LongestOf(es, longest)
    ensures LongestOf(es + [e], if SaysInterval(e.event) then Max(longest, Saying(e.event)) else longest)
  {
    var all := es + [e];
    assert forall k | 0 <= k < |es| :: all[k] == es[k];
    assert all[|es|] == e;
    if longest != 0 {
      var k :| 0 <= k < |es| && SaysInterval(es[k].event) && Saying(es[k].event) == longest;
      assert all[k] == es[k];
    }
  }

  lemma HearsOne(es: seq<Timed>, st: State, e: Timed, st': State)
    requires FirstOf(es, st.firstHeard) && LongestOf(es, st.longestHeard)
    requires !st.settled && StepHears(st, e.event, e.at, st')
    ensures FirstOf(es + [e], st'.firstHeard) && LongestOf(es + [e], st'.longestHeard)
  {
    var first, longest := HearsAs(st, e, st');
    FirstOfMore(es, st.firstHeard, e);
    LongestOfMore(es, st.longestHeard, e);
  }

  lemma HearsAs(st: State, e: Timed, st': State) returns (first: Option<nat>, longest: nat)
    requires !st.settled && StepHears(st, e.event, e.at, st')
    ensures first == st'.firstHeard && longest == st'.longestHeard
    ensures first == if st.firstHeard.None? && IsHeard(e.event) then Some(e.at) else st.firstHeard
    ensures longest == if SaysInterval(e.event) then Max(st.longestHeard, Saying(e.event)) else st.longestHeard
  {
    first, longest := st'.firstHeard, st'.longestHeard;
  }

  /** The steps of a run, as far as what was heard goes. */
  ghost predicate HearsThroughout(sts: seq<State>, es: seq<Timed>) {
    && |sts| == |es| + 1 && sts[0].firstHeard == None && sts[0].longestHeard == 0
    && forall k | 0 <= k < |es| :: StepHears(sts[k], es[k].event, es[k].at, sts[k + 1])
  }

  lemma RunHears(c: Settings, in': Inputs, sts: seq<State>, es: seq<Timed>)
    requires IsRun(c, sts, es) && sts[0] == New(c, in')
    ensures HearsThroughout(sts, es)
  {
    forall k | 0 <= k < |es| ensures StepHears(sts[k], es[k].event, es[k].at, sts[k + 1]) {
      StepHeard(c, sts[k], es[k].event, es[k].at);
    }
  }

  lemma {:induction false} HeardBefore(sts: seq<State>, es: seq<Timed>, i: nat)
    requires HearsThroughout(sts, es) && i < |sts| && (i > 0 ==> !sts[i - 1].settled)
    ensures FirstOf(es[..i], sts[i].firstHeard) && LongestOf(es[..i], sts[i].longestHeard)
    decreases i
  {
    if i > 0 {
      assert i > 1 ==> StepHears(sts[i - 2], es[i - 2].event, es[i - 2].at, sts[i - 2 + 1]);
      HeardBefore(sts, es, i - 1);
      HearsOne(es[..i - 1], sts[i - 1], es[i - 1], sts[i]);
      assert es[..i] == es[..i - 1] + [es[i - 1]];
    }
  }

  /**
   * Until the first list forms, the first heartbeat is that of the first well-formed one that came, and the longest
   * interval that of all of them, those ignored or refused too.
   */
  lemma HeardExactly(c: Settings, in': Inputs, sts: seq<State>, es: seq<Timed>, i: nat)
    requires IsRun(c, sts, es) && sts[0] == New(c, in') && i < |sts| && (i > 0 ==> !sts[i - 1].settled)
    ensures FirstOf(es[..i], sts[i].firstHeard) && LongestOf(es[..i], sts[i].longestHeard)
  {
    RunHears(c, in', sts, es);
    HeardBefore(sts, es, i);
  }
}
