/** What holds over whole runs of the allocator: settling, draining without gaps, and a follower's drains. */
module AllocatorRuns {
  import opened Common
  import opened Ordering
  import opened AllocatorModel
  import opened AllocatorInvariant
  import opened AllocatorTimer

  // ---- the settle time ----

  ghost predicate SameProposal(a: State, b: State) {
    a.proposed == b.proposed && a.proposedCaps == b.proposedCaps
  }

  ghost predicate SameEffective(a: State, b: State) {
    a.effective == b.effective && a.effectiveCaps == b.effectiveCaps && a.settled == b.settled
  }

  /** A list that came into effect in a step is the one proposed, and due. */
  ghost predicate CameDue(c: Settings, st: State, st': State, now: nat) {
    && st'.settled && st'.effective == st'.proposed && st'.effectiveCaps == st'.proposedCaps
    && st'.proposedAt + c.settle <= now
    && (!st.settled ==> st'.proposed != [] && FirstSettle(c, st') <= now)
  }

  /**
   * The proposal is as before, and so is when it was made, or it is made now; and a list takes effect only when due.
   */
  ghost predicate Proposes(c: Settings, st: State, st': State, now: nat) {
    && ProposedNow(st, st', now)
    && (SameEffective(st, st') || CameDue(c, st, st', now))
  }

  lemma StepProposes(c: Settings, st: State, e: Event, now: nat)
    ensures Proposes(c, st, Step(c, st, e, now), now)
  {
    match e
    case HeartbeatComes(hb) =>
      var st1 := Heard(st, hb, now);
      if WellFormed(hb) && !Ignored(st1, hb) && !Refused(c, st1, hb, now) {
        UpdateProposes(c, Recorded(st1, hb, now), now);
      }
    case TimerFires =>
      if !st.stopped {
        UpdateProposes(c, st, now);
      }
    case InputsChange(in', discovered, leader) =>
      if !(st.inputs == in' && leader.None?) {
        InputsShape(c, st, in', discovered, leader, now);
      }
    case ShutdownBegins =>
  }

  lemma UpdateProposes(c: Settings, st: State, now: nat)
    ensures Proposes(c, st, Update(c, st, now), now)
  {
    UpdateShape(c, st, now);
    ProposeProposes(c, st, now);
    SettledProposes(c, st, Propose(c, st, now), Update(c, st, now), now);
  }

  ghost predicate ProposedNow(st: State, st1: State, now: nat) {
    (SameProposal(st, st1) && st1.proposedAt == st.proposedAt) || st1.proposedAt == now
  }

  lemma ProposeProposes(c: Settings, st: State, now: nat)
    ensures ProposedNow(st, Propose(c, st, now), now) && SameEffective(st, Propose(c, st, now))
  {
  }

  lemma SettledProposes(c: Settings, st: State, st1: State, u: State, now: nat)
    requires ProposedNow(st, st1, now) && SameEffective(st, st1) && Updates(c, st1, u, now)
    ensures Proposes(c, st, u, now)
  {
    assert FirstSettle(c, u) == FirstSettle(c, st1);
  }

  /** When the proposal of state j of a run was made: the start, or the event before it. */
  ghost function MadeAt(c: Settings, es: seq<Timed>, j: nat): nat
    requires j <= |es|
  {
    if j == 0 then c.started else es[j - 1].at
  }

  /** The proposal of state i has been the same since state j, and was made with it. */
  ghost predicate HeldSince(c: Settings, sts: seq<State>, es: seq<Timed>, i: nat, j: nat)
    requires |sts| == |es| + 1 && i < |sts|
  {
    && j <= i && sts[i].proposedAt == MadeAt(c, es, j)
    && forall k | j <= k <= i :: SameProposal(sts[k], sts[i])
  }

  /** The steps of a run, as far as proposals go. */
  ghost predicate ProposesThroughout(c: Settings, sts: seq<State>, es: seq<Timed>) {
    && |sts| == |es| + 1 && sts[0].proposedAt == c.started
    && forall k | 0 <= k < |es| :: Proposes(c, sts[k], sts[k + 1], es[k].at)
  }

  lemma RunProposes(c: Settings, in': Inputs, sts: seq<State>, es: seq<Timed>)
    requires IsRun(c, sts, es) && sts[0] == New(c, in')
    ensures ProposesThroughout(c, sts, es)
  {
    forall k | 0 <= k < |es| ensures Proposes(c, sts[k], sts[k + 1], es[k].at) {
      StepProposes(c, sts[k], es[k].event, es[k].at);
    }
  }

  lemma {:induction false} ProposalHeld(c: Settings, sts: seq<State>, es: seq<Timed>, i: nat) returns (j: nat)
    requires ProposesThroughout(c, sts, es) && i < |sts|
    ensures HeldSince(c, sts, es, i, j)
    decreases i
  {
    if i == 0 {
      return 0;
    }
    assert Proposes(c, sts[i - 1], sts[i], es[i - 1].at);
    if SameProposal(sts[i - 1], sts[i]) && sts[i].proposedAt == sts[i - 1].proposedAt {
      j := ProposalHeld(c, sts, es, i - 1);
    } else {
      j := i;
    }
  }

  lemma LateListHasHeld(c: Settings, sts: seq<State>, es: seq<Timed>, i: nat) returns (j: nat)
    requires ProposesThroughout(c, sts, es) && i < |es| && !SameEffective(sts[i], sts[i + 1])
    ensures HeldSince(c, sts, es, i + 1, j) && CameDue(c, sts[i], sts[i + 1], es[i].at)
    ensures MadeAt(c, es, j) + c.settle <= es[i].at
  {
    j := ProposalHeld(c, sts, es, i + 1);
    assert Proposes(c, sts[i], sts[i + 1], es[i].at);
  }

  /**
   * The list changes only to a proposal that has been the same, at every event, for the settle time; the first list
   * only to one that is not empty, and no sooner than the settle time or the interval after the start, and the longest
   * interval heard after the first heartbeat.
   */
  lemma ListHasHeld(c: Settings, in': Inputs, sts: seq<State>, es: seq<Timed>, i: nat) returns (j: nat)
    requires IsRun(c, sts, es) && sts[0] == New(c, in') && i < |es|
    requires !SameEffective(sts[i], sts[i + 1])
    ensures HeldSince(c, sts, es, i + 1, j) && MadeAt(c, es, j) + c.settle <= es[i].at
    ensures sts[i + 1].settled
    ensures sts[i + 1].effective == sts[i + 1].proposed && sts[i + 1].effectiveCaps == sts[i + 1].proposedCaps
    ensures !sts[i].settled ==>
      && sts[i + 1].effective != []
      && c.started + c.settle <= es[i].at && c.started + c.interval <= es[i].at
      && (sts[i + 1].firstHeard.Some? ==> sts[i + 1].firstHeard.value + sts[i + 1].longestHeard <= es[i].at)
  {
    RunProposes(c, in', sts, es);
    j := LateListHasHeld(c, sts, es, i);
  }

  // ---- draining ----

  /** A drain that does not end before e; with own, for a reason of this instance's own, whatever the leader says. */
  ghost predicate HeldDrain(draining: map<DrainKey, Drain>, k: DrainKey, e: nat, own: bool) {
    && k in draining && e <= draining[k].until
    && (own && draining[k].discovered ==> draining[k].own.Some? && e <= draining[k].own.value)
  }

  /** What ends a drain early: its member left the list, its target went, or it is back with the member. */
  ghost predicate Over(c: Settings, st: State, k: DrainKey) {
    k.member !in st.effective || k.target !in st.inputs.targets || OwnerOf(c, st, k.target) == k.member
  }

  lemma TakeEffectKeepsDrain(c: Settings, st: State, now: nat, k: DrainKey, e: nat, own: bool)
    requires Sound(c, st) && HeldDrain(st.draining, k, e, own)
    ensures var st' := TakeEffect(c, st, now); HeldDrain(st'.draining, k, e, own) || Over(c, st', k)
  {
    assert k !in ListDrains(c, st, now);
  }

  ghost predicate KeptOrOver(c: Settings, st: State, k: DrainKey, e: nat, own: bool) {
    HeldDrain(st.draining, k, e, own) || Over(c, st, k)
  }

  lemma UpdateKeepsDrain(c: Settings, st: State, now: nat, k: DrainKey, e: nat, own: bool)
    requires GoodSettings(c) && Inv(c, st) && HeldDrain(st.draining, k, e, own) && now < e
    ensures KeptOrOver(c, Update(c, st, now), k, e, own)
  {
    UpdateShape(c, st, now);
    ProposeSound(c, st, now);
    SettledKeepsDrain(c, Propose(c, st, now), Update(c, st, now), now, k, e, own);
  }

  lemma SettledKeepsDrain(c: Settings, st1: State, u: State, now: nat, k: DrainKey, e: nat, own: bool)
    requires Sound(c, st1) && HeldDrain(st1.draining, k, e, own) && now < e && Updates(c, st1, u, now)
    ensures KeptOrOver(c, u, k, e, own)
  {
    if SettleDue(c, st1, now) {
      TakeEffectKeepsDrain(c, st1, now, k, e, own);
    }
    assert OwnerOf(c, u, k.target) == OwnerOf(c, Settled(c, st1, now), k.target);
  }

  lemma {:induction false} TakeEachKeepsDrain(draining: map<DrainKey, Drain>, effective: seq<string>,
          list: seq<SnapshotDrain>, now: nat, k: DrainKey, e: nat, own: bool)
    requires HeldDrain(draining, k, e, own)
    ensures HeldDrain(TakeEach(draining, effective, list, now), k, e, own)
  {
    if list != [] {
      TakeEachKeepsDrain(draining, effective, list[..|list| - 1], now, k, e, own);
    }
  }

  lemma DropStaleKeepsDrain(c: Settings, st: State, k: DrainKey, e: nat, own: bool)
    requires GoodSettings(c) && ValidList(st.effective, st.effectiveCaps) && HeldDrain(st.draining, k, e, own)
    ensures KeptOrOver(c, DropStale(c, st), k, e, own)
  {
    OwnerIsMember(c, st.inputs, st.effective, st.effectiveCaps, k.target);
  }

  lemma HandOverKeepsDrain(c: Settings, old': Inputs, st: State, now: nat, discovered: bool, k: DrainKey, e: nat,
          own: bool)
    requires GoodSettings(c) && Sound(c, st.(inputs := old')) && HeldDrain(st.draining, k, e, own)
    ensures KeptOrOver(c, HandOver(c, old', st, now, discovered), k, e, own)
  {
    var added := MapOf(MovedByInputs(c, old', st), x => NewDrain(st.inputs, x, now, discovered));
    assert k !in added;
    DropStaleKeepsDrain(c, st.(draining := st.draining + added), k, e, own);
  }

  lemma TakeDrainsKeepsDrain(c: Settings, st: State, list: seq<SnapshotDrain>, now: nat, k: DrainKey, e: nat)
    requires GoodSettings(c) && ValidList(st.effective, st.effectiveCaps) && HeldDrain(st.draining, k, e, true)
    requires now < e
    ensures KeptOrOver(c, TakeDrains(c, st, list, now), k, e, true)
  {
    var left := OwnDrains(st.draining, now);
    TakeEachKeepsDrain(left, st.effective, list, now, k, e, true);
    DropStaleKeepsDrain(c, st.(draining := TakeEach(left, st.effective, list, now)), k, e, true);
  }

  /** What a rebuild and the timer leave alone. */
  lemma KeptThrough(c: Settings, st: State, st': State, k: DrainKey, e: nat, own: bool)
    requires KeptOrOver(c, st, k, e, own)
    requires st'.draining == st.draining && st'.inputs == st.inputs
    requires st'.effective == st.effective && st'.effectiveCaps == st.effectiveCaps
    ensures KeptOrOver(c, st', k, e, own)
  {
  }

  lemma DrainedKeepsDrain(c: Settings, st: State, in': Inputs, discovered: bool, leader: Option<seq<SnapshotDrain>>,
          now: nat, k: DrainKey, e: nat, own: bool)
    requires leader.Some? ==> own
    requires GoodSettings(c) && Sound(c, st) && HeldDrain(st.draining, k, e, own) && now < e
    ensures KeptOrOver(c, Drained(c, st, in', discovered, leader, now), k, e, own)
  {
    var st1 := st.(inputs := in');
    assert st1.(inputs := st.inputs) == st;
    if leader.None? {
      HandOverKeepsDrain(c, st.inputs, st1, now, discovered, k, e, own);
    } else {
      TakeDrainsKeepsDrain(c, st1, leader.value, now, k, e);
    }
  }

  lemma InputsKeepDrain(c: Settings, st: State, in': Inputs, discovered: bool, leader: Option<seq<SnapshotDrain>>,
          now: nat, k: DrainKey, e: nat, own: bool)
    requires leader.Some? ==> own
    requires GoodSettings(c) && Sound(c, st) && HeldDrain(st.draining, k, e, own) && now < e
    ensures KeptOrOver(c, PutInForce(c, st, in', discovered, leader, now), k, e, own)
  {
    if !(st.inputs == in' && leader.None?) {
      InputsShape(c, st, in', discovered, leader, now);
      DrainedShape(c, st, in', discovered, leader, now);
      DrainedKeepsDrain(c, st, in', discovered, leader, now, k, e, own);
      KeptThrough(c, Drained(c, st, in', discovered, leader, now), PutInForce(c, st, in', discovered, leader, now), k,
          e, own);
    }
  }

  /** A snapshot of the leader's put in force. */
  predicate IsSnapshotOf(ev: Event) {
    ev.InputsChange? && ev.leader.Some?
  }

  /**
   * No step, of any kind, ends a drain of the instance's own before its time, but for the reasons above; nor does any
   * but a snapshot of the leader's end one that a change of the discovered targets made.
   */
  lemma StepKeepsDrain(c: Settings, st: State, ev: Event, now: nat, k: DrainKey, e: nat, own: bool)
    requires IsSnapshotOf(ev) ==> own
    requires GoodSettings(c) && Inv(c, st) && HeldDrain(st.draining, k, e, own) && now < e
    ensures KeptOrOver(c, Step(c, st, ev, now), k, e, own)
  {
    match ev
    case HeartbeatComes(hb) =>
      var st1 := Heard(st, hb, now);
      if WellFormed(hb) && !Ignored(st1, hb) && !Refused(c, st1, hb, now) {
        RecordedInv(c, st, hb, now);
        UpdateKeepsDrain(c, Recorded(st1, hb, now), now, k, e, own);
      }
    case TimerFires =>
      if !st.stopped {
        UpdateKeepsDrain(c, st, now, k, e, own);
      }
    case InputsChange(in', discovered, leader) => InputsKeepDrain(c, st, in', discovered, leader, now, k, e, own);
    case ShutdownBegins =>
  }

  ghost predicate PositiveIntervals(in': Inputs) {
    forall n | n in in'.targets :: in'.targets[n].interval > 0
  }

  /**
   * Whether the drains an event makes here are for a reason of this instance's own, rather than of the discovered
   * targets.
   */
  predicate MakesOwn(e: Event) {
    !(e.InputsChange? && e.discovered)
  }

  /** name leaves m, which stays in the list. */
  ghost predicate Moves(c: Settings, st: State, st': State, name: string, m: string) {
    && m != "" && name in st.inputs.targets && name in st'.inputs.targets
    && OwnerOf(c, st, name) == m && m in st'.effective && OwnerOf(c, st', name) != m
  }

  lemma TakeEffectMoveDrains(c: Settings, st: State, now: nat, name: string, m: string)
    requires Sound(c, st) && st.effective != [] && Moves(c, st, TakeEffect(c, st, now), name, m)
    ensures var st' := TakeEffect(c, st, now);
            DrainKey(name, m) in st'.draining
            && st'.draining[DrainKey(name, m)] == Drain(now + st.inputs.targets[name].interval, false, None)
  {
    assert MovesByList(c, st, name);
    assert DrainKey(name, m) in MovedByList(c, st);
    assert DrainKey(name, m) in ListDrains(c, st, now);
  }

  lemma SettledMoveDrains(c: Settings, st1: State, u: State, now: nat, name: string, m: string)
    requires Sound(c, st1) && st1.effective != [] && Updates(c, st1, u, now) && Moves(c, st1, u, name, m)
    requires st1.inputs.targets[name].interval > 0
    ensures HeldDrain(u.draining, DrainKey(name, m), now + st1.inputs.targets[name].interval, true)
  {
    var st2 := Settled(c, st1, now);
    assert OwnerOf(c, u, name) == OwnerOf(c, st2, name);
    TakeEffectMoveDrains(c, st1, now, name, m);
  }

  lemma ListMoveDrains(c: Settings, st: State, st1: State, u: State, now: nat, name: string, m: string)
    requires GoodSettings(c) && Sound(c, st1) && Updates(c, st1, u, now)
    requires st1.inputs == st.inputs && st1.effective == st.effective && st1.effectiveCaps == st.effectiveCaps
    requires PositiveIntervals(st.inputs) && Moves(c, st, u, name, m)
    ensures HeldDrain(u.draining, DrainKey(name, m), now + st.inputs.targets[name].interval, true)
  {
    OwnerIsMember(c, st1.inputs, st1.effective, st1.effectiveCaps, name);
    assert OwnerOf(c, st1, name) == OwnerOf(c, st, name);
    SettledMoveDrains(c, st1, u, now, name, m);
  }

  lemma UpdateMoveDrains(c: Settings, st: State, now: nat, name: string, m: string)
    requires GoodSettings(c) && Inv(c, st) && PositiveIntervals(st.inputs) && Moves(c, st, Update(c, st, now), name, m)
    ensures HeldDrain(Update(c, st, now).draining, DrainKey(name, m), now + st.inputs.targets[name].interval, true)
  {
    UpdateShape(c, st, now);
    ProposeSound(c, st, now);
    ListMoveDrains(c, st, Propose(c, st, now), Update(c, st, now), now, name, m);
  }

  lemma HandOverMoveDrains(c: Settings, old': Inputs, st: State, now: nat, discovered: bool, name: string, m: string)
    requires Sound(c, st.(inputs := old')) && st.effective != [] && st.settled
    requires OwnerOf(c, st, name) != "" && Moves(c, st.(inputs := old'), st, name, m)
    ensures HeldDrain(HandOver(c, old', st, now, discovered).draining, DrainKey(name, m),
                      now + st.inputs.targets[name].interval, !discovered)
  {
    assert MovesByInputs(c, old', st, name);
    assert DrainKey(name, m) in MovedByInputs(c, old', st);
  }

  lemma InputsMoveDrains(c: Settings, st: State, in': Inputs, discovered: bool, now: nat, name: string, m: string)
    requires GoodSettings(c) && Sound(c, st) && Moves(c, st, PutInForce(c, st, in', discovered, None, now), name, m)
    ensures HeldDrain(PutInForce(c, st, in', discovered, None, now).draining, DrainKey(name, m),
                      now + in'.targets[name].interval, !discovered)
  {
    var st1, st' := st.(inputs := in'), PutInForce(c, st, in', discovered, None, now);
    assert st1.(inputs := st.inputs) == st;
    assert st.inputs != in';
    InputsShape(c, st, in', discovered, None, now);
    assert OwnerOf(c, st', name) == OwnerOf(c, st1, name);
    OwnerIsMember(c, st.inputs, st.effective, st.effectiveCaps, name);
    OwnerIsMember(c, in', st.effective, st.effectiveCaps, name);
    HandOverMoveDrains(c, st.inputs, st1, now, discovered, name, m);
  }

  lemma RecordedMoveDrains(c: Settings, st: State, st2: State, now: nat, name: string, m: string)
    requires GoodSettings(c) && Inv(c, st2) && PositiveIntervals(st.inputs)
    requires Moves(c, st, Update(c, st2, now), name, m)
    requires st2.inputs == st.inputs && st2.effective == st.effective && st2.effectiveCaps == st.effectiveCaps
    ensures HeldDrain(Update(c, st2, now).draining, DrainKey(name, m), now + st.inputs.targets[name].interval, true)
  {
    assert OwnerOf(c, st2, name) == OwnerOf(c, st, name);
    UpdateMoveDrains(c, st2, now, name, m);
  }

  lemma RecordedInv(c: Settings, st: State, hb: Heartbeat, now: nat)
    requires Inv(c, st) && hb.member != ""
    ensures Inv(c, Recorded(Heard(st, hb, now), hb, now))
  {
    SameShares(c, st, Recorded(Heard(st, hb, now), hb, now));
  }

  lemma BeatMoveDrains(c: Settings, st: State, hb: Heartbeat, now: nat, name: string, m: string)
    requires GoodSettings(c) && Inv(c, st) && PositiveIntervals(st.inputs)
    requires Moves(c, st, Beat(c, st, hb, now), name, m)
    ensures HeldDrain(Beat(c, st, hb, now).draining, DrainKey(name, m), now + st.inputs.targets[name].interval, true)
  {
    var st1 := Heard(st, hb, now);
    assert OwnerOf(c, st1, name) == m;
    assert Beat(c, st, hb, now) == Update(c, Recorded(st1, hb, now), now);
    RecordedInv(c, st, hb, now);
    RecordedMoveDrains(c, st, Recorded(st1, hb, now), now, name, m);
  }

  /** A target that a change made here moves off a member still in the list drains there for its interval. */
  lemma MoveDrains(c: Settings, st: State, ev: Event, now: nat, name: string, m: string)
    requires GoodSettings(c) && Inv(c, st) && PositiveIntervals(st.inputs) && !IsSnapshotOf(ev)
    requires Moves(c, st, Step(c, st, ev, now), name, m)
    ensures HeldDrain(Step(c, st, ev, now).draining, DrainKey(name, m),
                      now + Step(c, st, ev, now).inputs.targets[name].interval, MakesOwn(ev))
  {
    match ev
    case HeartbeatComes(hb) =>
      BeatMoveDrains(c, st, hb, now, name, m);
      BeatInputs(c, st, hb, now);
    case TimerFires =>
      UpdateMoveDrains(c, st, now, name, m);
      UpdateShape(c, st, now);
    case InputsChange(in', discovered, leader) =>
      InputsMoveDrains(c, st, in', discovered, now, name, m);
    case ShutdownBegins =>
  }

  lemma BeatInputs(c: Settings, st: State, hb: Heartbeat, now: nat)
    ensures Beat(c, st, hb, now).inputs == st.inputs
  {
    var st2 := Recorded(Heard(st, hb, now), hb, now);
    UpdateShape(c, st2, now);
    assert Update(c, st2, now).inputs == Propose(c, st2, now).inputs == st.inputs;
  }

  /** Each event of a run, as far as a drain ending at end goes. */
  ghost predicate KeepsThroughout(c: Settings, sts: seq<State>, es: seq<Timed>, k: DrainKey, end: nat, own: bool) {
    && |sts| == |es| + 1
    && forall l | 0 <= l < |es| && es[l].at < end
        && (IsSnapshotOf(es[l].event) ==> own) && HeldDrain(sts[l].draining, k, end, own) ::
         KeptOrOver(c, sts[l + 1], k, end, own)
  }

  lemma RunKeepsDrains(c: Settings, in': Inputs, sts: seq<State>, es: seq<Timed>, k: DrainKey, end: nat, own: bool)
    requires GoodSettings(c) && IsRun(c, sts, es) && sts[0] == New(c, in')
    ensures KeepsThroughout(c, sts, es, k, end, own)
  {
    forall l | 0 <= l < |es| && es[l].at < end
        && (IsSnapshotOf(es[l].event) ==> own) && HeldDrain(sts[l].draining, k, end, own)
      ensures KeptOrOver(c, sts[l + 1], k, end, own)
    {
      RunKeeps(c, in', sts, es, l);
      StepKeepsDrain(c, sts[l], es[l].event, es[l].at, k, end, own);
    }
  }

  lemma {:induction false} DrainLasts(c: Settings, sts: seq<State>, es: seq<Timed>, i: nat, j: nat, k: DrainKey,
          end: nat, own: bool)
    requires KeepsThroughout(c, sts, es, k, end, own) && i <= j < |sts| && HeldDrain(sts[i].draining, k, end, own)
    requires forall l | i < l <= j :: !Over(c, sts[l], k)
    requires forall l | i <= l < j :: es[l].at < end && (IsSnapshotOf(es[l].event) ==> own)
    ensures HeldDrain(sts[j].draining, k, end, own)
    decreases j
  {
    if i < j {
      DrainLasts(c, sts, es, i, j - 1, k, end, own);
      assert KeptOrOver(c, sts[j - 1 + 1], k, end, own);
    }
  }

  /**
   * No gap: from the event that moves a target off a member, and until the target's interval has passed, the member's
   * bundle holds the target, through any events, as long as the member stays in the list and the target in the inputs;
   * and when it was a change of the discovered targets that moved it, as long as no snapshot of a leader's is put in
   * force.
   */
  lemma NoScrapeGap(c: Settings, in': Inputs, sts: seq<State>, es: seq<Timed>, i: nat, j: nat, name: string, m: string)
    requires GoodSettings(c) && IsRun(c, sts, es) && sts[0] == New(c, in')
    requires i < j < |sts| && !IsSnapshotOf(es[i].event) && PositiveIntervals(sts[i].inputs)
    requires m != "" && name in sts[i].inputs.targets && OwnerOf(c, sts[i], name) == m
    requires forall k | i < k <= j ::
      name in sts[k].inputs.targets && m in sts[k].effective && OwnerOf(c, sts[k], name) != m
    requires forall k | i < k < j :: es[k].at < es[i].at + sts[i + 1].inputs.targets[name].interval
    requires !MakesOwn(es[i].event) ==> forall k | i < k < j :: !IsSnapshotOf(es[k].event)
    ensures HeldDrain(sts[j].draining, DrainKey(name, m), es[i].at + sts[i + 1].inputs.targets[name].interval,
              MakesOwn(es[i].event))
    ensures m in sts[j].bundles && name in sts[j].bundles[m].share
  {
    var end, own := es[i].at + sts[i + 1].inputs.targets[name].interval, MakesOwn(es[i].event);
    MoveBegins(c, in', sts, es, i, name, m);
    RunKeepsDrains(c, in', sts, es, DrainKey(name, m), end, own);
    DrainLasts(c, sts, es, i + 1, j, DrainKey(name, m), end, own);
    RunKeeps(c, in', sts, es, j);
    BundlesHoldShares(c, sts[j], m, name);
    assert m in Elements(sts[j].effective);
  }

  lemma MoveBegins(c: Settings, in': Inputs, sts: seq<State>, es: seq<Timed>, i: nat, name: string, m: string)
    requires GoodSettings(c) && IsRun(c, sts, es) && sts[0] == New(c, in') && i < |es|
    requires !IsSnapshotOf(es[i].event) && PositiveIntervals(sts[i].inputs) && Moves(c, sts[i], sts[i + 1], name, m)
    ensures HeldDrain(sts[i + 1].draining, DrainKey(name, m), es[i].at + sts[i + 1].inputs.targets[name].interval,
                      MakesOwn(es[i].event))
  {
    RunKeeps(c, in', sts, es, i);
    MoveDrains(c, sts[i], es[i].event, es[i].at, name, m);
  }

  // ---- a follower's drains ----

  ghost function DiscoveredKeys(st: State): set<DrainKey> {
    set k | k in st.draining && st.draining[k].discovered
  }

  function Left(d: Drain, now: nat): nat {
    if d.until < now then 0 else d.until - now
  }

  /** The drains in the leader's snapshot taken at now: each discovered one once, with what is left of it. */
  ghost predicate IsSnapshot(st: State, list: seq<SnapshotDrain>, now: nat) {
    && (forall i | 0 <= i < |list| ::
          list[i].key in DiscoveredKeys(st) && list[i].left == Left(st.draining[list[i].key], now))
    && (forall k | k in DiscoveredKeys(st) :: exists i :: 0 <= i < |list| && list[i].key == k)
  }

  ghost predicate Takes(list: seq<SnapshotDrain>, k: DrainKey) {
    exists i :: 0 <= i < |list| && list[i].key == k && 0 < list[i].left < LONGEST_LEFT
  }

  lemma {:induction false} TakeEachDiscovers(draining: map<DrainKey, Drain>, effective: seq<string>,
          list: seq<SnapshotDrain>, now: nat, k: DrainKey)
    requires (k in draining ==> !draining[k].discovered) && k.member in effective
    ensures var r := TakeEach(draining, effective, list, now);
            k in r && r[k].discovered <==> Takes(list, k)
  {
    if list != [] {
      var rest := list[..|list| - 1];
      TakeEachDiscovers(draining, effective, rest, now, k);
      assert forall i | 0 <= i < |rest| :: rest[i] == list[i];
      if Takes(rest, k) {
        var i :| 0 <= i < |rest| && rest[i].key == k && 0 < rest[i].left < LONGEST_LEFT;
        assert list[i].key == k;
      }
    }
  }

  /**
   * With the leader's list and inputs, a follower that takes the leader's snapshot drains, of the discovered targets,
   * exactly what the leader does; and exactly when none of the leader's had run out when the snapshot was made.
   */
  lemma FollowerAgrees(c: Settings, leader: State, follower: State, list: seq<SnapshotDrain>, then': nat, now: nat)
    requires GoodSettings(c) && Inv(c, leader) && Inv(c, follower)
    requires follower.inputs == leader.inputs
    requires follower.effective == leader.effective && follower.effectiveCaps == leader.effectiveCaps
    requires IsSnapshot(leader, list, then')
    ensures DiscoveredKeys(TakeDrains(c, follower, list, now)) == DiscoveredKeys(leader) <==>
            forall k | k in DiscoveredKeys(leader) :: 0 < Left(leader.draining[k], then') < LONGEST_LEFT
  {
    forall k
      ensures k in DiscoveredKeys(TakeDrains(c, follower, list, now)) <==>
              k in DiscoveredKeys(leader) && 0 < Left(leader.draining[k], then') < LONGEST_LEFT
    {
      FollowerTakes(c, leader, follower, list, then', now, k);
    }
  }

  lemma SnapshotTakes(leader: State, list: seq<SnapshotDrain>, then': nat, k: DrainKey)
    requires IsSnapshot(leader, list, then')
    ensures Takes(list, k) <==> k in DiscoveredKeys(leader) && 0 < Left(leader.draining[k], then') < LONGEST_LEFT
  {
    if k in DiscoveredKeys(leader) {
      var i :| 0 <= i < |list| && list[i].key == k;
    }
  }

  /**
   * The discovered drains after a snapshot: those it names that are of a member of the list that does not own the
   * target.
   */
  lemma DiscoveredTaken(c: Settings, st: State, list: seq<SnapshotDrain>, now: nat, k: DrainKey)
    requires forall x | x in st.draining :: x.member in st.effective
    ensures k in DiscoveredKeys(TakeDrains(c, st, list, now)) <==>
            && k.member in st.effective && Takes(list, k)
            && OwnerOf(c, st, k.target) != "" && OwnerOf(c, st, k.target) != k.member
  {
    var own := OwnDrains(st.draining, now);
    TakeEachOnMembers(own, st.effective, list, now);
    if k.member in st.effective {
      TakeEachDiscovers(own, st.effective, list, now, k);
    }
    DropsStale(c, st.(draining := TakeEach(own, st.effective, list, now)), k);
  }

  lemma DropsStale(c: Settings, st: State, k: DrainKey)
    ensures k in DiscoveredKeys(DropStale(c, st)) <==>
            && k in st.draining && st.draining[k].discovered
            && OwnerOf(c, st, k.target) != "" && OwnerOf(c, st, k.target) != k.member
  {
  }

  lemma FollowerTakes(c: Settings, leader: State, follower: State, list: seq<SnapshotDrain>, then': nat, now: nat,
          k: DrainKey)
    requires GoodSettings(c) && Sound(c, leader) && Sound(c, follower)
    requires follower.inputs == leader.inputs
    requires follower.effective == leader.effective && follower.effectiveCaps == leader.effectiveCaps
    requires IsSnapshot(leader, list, then')
    ensures k in DiscoveredKeys(TakeDrains(c, follower, list, now)) <==>
            k in DiscoveredKeys(leader) && 0 < Left(leader.draining[k], then') < LONGEST_LEFT
  {
    SnapshotTakes(leader, list, then', k);
    DiscoveredTaken(c, follower, list, now, k);
    assert OwnerOf(c, follower, k.target) == OwnerOf(c, leader, k.target);
    OwnerIsMember(c, leader.inputs, leader.effective, leader.effectiveCaps, k.target);
  }
}
