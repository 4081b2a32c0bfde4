/**
 * How long targets drain (internal/allocator/allocator.go: takeEffect, handOver): what is moved here, and on a follower
 * what its leader's snapshots list (internal/allocator/peers.go: takeDrains).
 */
module AllocatorFollower {
  import opened Common
  import opened Ordering
  import opened AllocatorModel
  import opened AllocatorInvariant
  import opened AllocatorTimer
  import opened AllocatorRuns

  // ---- what is moved here ----

  /** A drain from now on for the target's interval, of a target that the step took off the member. */
  ghost predicate DrainsNow(c: Settings, st: State, st': State, k: DrainKey, now: nat, discovered: bool) {
    && k.target in st.inputs.targets && k.target in st'.inputs.targets && k in st'.draining
    && OwnerOf(c, st, k.target) == k.member != OwnerOf(c, st', k.target)
    && st'.draining[k] == Drain(now + st'.inputs.targets[k.target].interval, discovered, None)
  }

  ghost predicate AsBefore(st: State, st': State, k: DrainKey) {
    k in st.draining && k in st'.draining && st'.draining[k] == st.draining[k]
  }

  lemma TakeEffectDrains(c: Settings, st: State, now: nat, k: DrainKey)
    requires k in TakeEffect(c, st, now).draining
    ensures AsBefore(st, TakeEffect(c, st, now), k) || DrainsNow(c, st, TakeEffect(c, st, now), k, now, false)
  {
  }

  lemma UpdateDrains(c: Settings, st: State, now: nat, k: DrainKey)
    requires k in Update(c, st, now).draining
    ensures AsBefore(st, Update(c, st, now), k) || DrainsNow(c, st, Update(c, st, now), k, now, false)
  {
    var st1, u := Propose(c, st, now), Update(c, st, now);
    UpdateShape(c, st, now);
    SettledDrains(c, st1, u, now, k);
    assert OwnerOf(c, st1, k.target) == OwnerOf(c, st, k.target);
  }

  lemma SettledDrains(c: Settings, st1: State, u: State, now: nat, k: DrainKey)
    requires Updates(c, st1, u, now) && k in u.draining
    ensures AsBefore(st1, u, k) || DrainsNow(c, st1, u, k, now, false)
  {
    var st2 := Settled(c, st1, now);
    assert OwnerOf(c, u, k.target) == OwnerOf(c, st2, k.target) && k in st2.draining;
    if SettleDue(c, st1, now) {
      TakeEffectDrains(c, st1, now, k);
    }
  }

  lemma HandOverDrains(c: Settings, old': Inputs, st: State, now: nat, discovered: bool, k: DrainKey)
    requires k in HandOver(c, old', st, now, discovered).draining
    ensures var st' := HandOver(c, old', st, now, discovered);
            AsBefore(st, st', k) || DrainsNow(c, st.(inputs := old'), st', k, now, discovered)
  {
    var st0 := st.(inputs := old');
    assert OwnerIn(c, old', st.effective, st.effectiveCaps, k.target) == OwnerOf(c, st0, k.target);
  }

  lemma InputsDrain(c: Settings, st: State, in': Inputs, discovered: bool, now: nat, k: DrainKey)
    requires k in PutInForce(c, st, in', discovered, None, now).draining
    ensures var st' := PutInForce(c, st, in', discovered, None, now);
            AsBefore(st, st', k) || DrainsNow(c, st, st', k, now, discovered)
  {
    if st.inputs != in' {
      InputsShape(c, st, in', discovered, None, now);
      var st1 := st.(inputs := in');
      assert st1.(inputs := st.inputs) == st;
      HandOverDrains(c, st.inputs, st1, now, discovered, k);
      assert OwnerOf(c, PutInForce(c, st, in', discovered, None, now), k.target) ==
             OwnerOf(c, HandOver(c, st.inputs, st1, now, discovered), k.target);
    }
  }

  /**
   * What drains after an event drained before it, until the same time, or was taken off its member by it and drains for
   * the target's interval; a snapshot of the leader's apart.
   */
  lemma StepDrainsExactly(c: Settings, st: State, ev: Event, now: nat, k: DrainKey)
    requires !IsSnapshotOf(ev) && k in Step(c, st, ev, now).draining
    ensures AsBefore(st, Step(c, st, ev, now), k) || DrainsNow(c, st, Step(c, st, ev, now), k, now, !MakesOwn(ev))
  {
    match ev
    case HeartbeatComes(hb) =>
      var st1 := Heard(st, hb, now);
      if WellFormed(hb) && !Ignored(st1, hb) && !Refused(c, st1, hb, now) {
        var st2 := Recorded(st1, hb, now);
        assert OwnerOf(c, st2, k.target) == OwnerOf(c, st, k.target);
        UpdateDrains(c, st2, now, k);
      }
    case TimerFires =>
      if !st.stopped {
        UpdateDrains(c, st, now, k);
      }
    case InputsChange(in', discovered, leader) => InputsDrain(c, st, in', discovered, now, k);
    case ShutdownBegins =>
  }

  // ---- what a snapshot lists ----

  /** The key is listed there, for less than a billion seconds but some time, and nowhere else. */
  ghost predicate ListedOnce(list: seq<SnapshotDrain>, k: DrainKey, i: int) {
    && 0 <= i < |list| && list[i].key == k && 0 < list[i].left < 1_000_000_000 * 1000
    && forall j | 0 <= j < |list| && j != i :: list[j].key != k
  }

  ghost predicate Unlisted(list: seq<SnapshotDrain>, k: DrainKey) {
    forall j | 0 <= j < |list| :: list[j].key != k
  }

  /** When the drain would end without the leader's say, if this instance has a reason of its own for it. */
  ghost function OwnEnd(st: State, k: DrainKey, now: nat): Option<nat> {
    if k !in st.draining then None
    else if !st.draining[k].discovered then Some(st.draining[k].until)
    else if st.draining[k].own.Some? && now < st.draining[k].own.value then st.draining[k].own
    else None
  }

  lemma OwnDrainsEnd(st: State, k: DrainKey, now: nat)
    ensures var own := OwnDrains(st.draining, now);
            && (k in own <==> OwnEnd(st, k, now).Some?)
            && (k in own ==> !own[k].discovered && own[k].until == OwnEnd(st, k, now).value)
  {
  }

  lemma {:induction false} UnlistedStays(draining: map<DrainKey, Drain>, effective: seq<string>,
          list: seq<SnapshotDrain>, now: nat, k: DrainKey)
    requires Unlisted(list, k)
    ensures var r := TakeEach(draining, effective, list, now);
            (k in r <==> k in draining) && (k in r ==> r[k] == draining[k])
  {
    if list != [] {
      UnlistedStays(draining, effective, list[..|list| - 1], now, k);
    }
  }

  lemma {:induction false} ListedIsTaken(draining: map<DrainKey, Drain>, effective: seq<string>,
          list: seq<SnapshotDrain>, now: nat, k: DrainKey, i: nat)
    requires ListedOnce(list, k, i) && k.member in effective
    ensures var r := TakeEach(draining, effective, list, now);
            k in r && r[k] ==
            if k in draining then Drain(Max(draining[k].until, now + list[i].left), true, Some(draining[k].until))
            else Drain(now + list[i].left, true, None)
  {
    var rest := list[..|list| - 1];
    if i == |list| - 1 {
      UnlistedStays(draining, effective, rest, now, k);
    } else {
      assert ListedOnce(rest, k, i);
      ListedIsTaken(draining, effective, rest, now, k, i);
      assert list[|list| - 1].key != k;
    }
  }

  lemma StaleDropped(c: Settings, st: State, k: DrainKey)
    ensures var st' := DropStale(c, st);
            && (k in st'.draining <==>
                  k in st.draining && OwnerOf(c, st, k.target) != "" && OwnerOf(c, st, k.target) != k.member)
            && (k in st'.draining ==> st'.draining[k] == st.draining[k])
  {
  }

  /**
   * A drain listed once, on a member of the list that does not own the target, lasts for what is left of it from now
   * on, or for the longer of that and this instance's own; one not listed, for this instance's own alone.
   */
  lemma TakesExactly(c: Settings, st: State, list: seq<SnapshotDrain>, now: nat, k: DrainKey, i: nat)
    requires k.member in st.effective && OwnerOf(c, st, k.target) != "" && OwnerOf(c, st, k.target) != k.member
    ensures var st', own := TakeDrains(c, st, list, now), OwnEnd(st, k, now);
            && (ListedOnce(list, k, i) ==>
                  && k in st'.draining && st'.draining[k].discovered && st'.draining[k].own == own
                  && st'.draining[k].until ==
                     if own.Some? && own.value > now + list[i].left then own.value else now + list[i].left)
            && (Unlisted(list, k) ==>
                  && (k in st'.draining <==> own.Some?)
                  && (own.Some? ==> !st'.draining[k].discovered && st'.draining[k].until == own.value))
  {
    var own := OwnDrains(st.draining, now);
    OwnDrainsEnd(st, k, now);
    if ListedOnce(list, k, i) {
      ListedIsTaken(own, st.effective, list, now, k, i);
    } else if Unlisted(list, k) {
      UnlistedStays(own, st.effective, list, now, k);
    }
    StaleDropped(c, st.(draining := TakeEach(own, st.effective, list, now)), k);
  }

  // ---- runs of a follower ----

  /** A snapshot that lists the drain for as long as to end, or longer. */
  ghost predicate Renews(e: Timed, k: DrainKey, end: nat) {
    && e.event.InputsChange? && e.event.leader.Some?
    && exists i :: ListedOnce(e.event.leader.value, k, i) && e.at + e.event.leader.value[i].left >= end
  }

  lemma SnapshotHolds(c: Settings, st: State, list: seq<SnapshotDrain>, now: nat, k: DrainKey, i: nat, end: nat)
    requires GoodSettings(c) && ValidList(st.effective, st.effectiveCaps)
    requires ListedOnce(list, k, i) && now + list[i].left >= end
    ensures KeptOrOver(c, TakeDrains(c, st, list, now), k, end, false)
  {
    OwnerIsMember(c, st.inputs, st.effective, st.effectiveCaps, k.target);
    if !Over(c, st, k) {
      TakesExactly(c, st, list, now, k, i);
    }
  }

  lemma RenewalHolds(c: Settings, st: State, e: Timed, k: DrainKey, end: nat)
    requires GoodSettings(c) && Inv(c, st) && Renews(e, k, end)
    ensures KeptOrOver(c, Step(c, st, e.event, e.at), k, end, false)
  {
    var in', discovered, leader := e.event.inputs, e.event.discovered, e.event.leader;
    var i :| ListedOnce(leader.value, k, i) && e.at + leader.value[i].left >= end;
    SnapshotHolds(c, st.(inputs := in'), leader.value, e.at, k, i, end);
    InputsShape(c, st, in', discovered, leader, e.at);
    DrainedShape(c, st, in', discovered, leader, e.at);
    KeptThrough(c, Drained(c, st, in', discovered, leader, e.at), PutInForce(c, st, in', discovered, leader, e.at), k,
        end, false);
  }

  /** Events none of which ends a drain to last until end: of another kind before then, or snapshots that renew it. */
  ghost predicate Leaves(e: Timed, k: DrainKey, end: nat) {
    if IsSnapshotOf(e.event) then Renews(e, k, end) else e.at < end
  }

  lemma StepHolds(c: Settings, st: State, e: Timed, k: DrainKey, end: nat)
    requires GoodSettings(c) && Inv(c, st) && Leaves(e, k, end)
    requires HeldDrain(st.draining, k, end, false) || Renews(e, k, end)
    ensures KeptOrOver(c, Step(c, st, e.event, e.at), k, end, false)
  {
    if IsSnapshotOf(e.event) {
      RenewalHolds(c, st, e, k, end);
    } else {
      StepKeepsDrain(c, st, e.event, e.at, k, end, false);
    }
  }

  /** The steps of a run, as far as the drain goes. */
  ghost predicate HoldsThroughout(c: Settings, sts: seq<State>, es: seq<Timed>, k: DrainKey, end: nat) {
    && |sts| == |es| + 1
    && forall l | 0 <= l < |es| && Leaves(es[l], k, end)
        && (HeldDrain(sts[l].draining, k, end, false) || Renews(es[l], k, end)) ::
         KeptOrOver(c, sts[l + 1], k, end, false)
  }

  lemma RunHolds(c: Settings, in': Inputs, sts: seq<State>, es: seq<Timed>, k: DrainKey, end: nat)
    requires GoodSettings(c) && IsRun(c, sts, es) && sts[0] == New(c, in')
    ensures HoldsThroughout(c, sts, es, k, end)
  {
    forall l | 0 <= l < |es| && Leaves(es[l], k, end)
        && (HeldDrain(sts[l].draining, k, end, false) || Renews(es[l], k, end))
      ensures KeptOrOver(c, sts[l + 1], k, end, false)
    {
      RunKeeps(c, in', sts, es, l);
      StepHolds(c, sts[l], es[l], k, end);
    }
  }

  lemma {:induction false} TakenLasts(c: Settings, sts: seq<State>, es: seq<Timed>, i: nat, j: nat, k: DrainKey,
          end: nat)
    requires HoldsThroughout(c, sts, es, k, end) && i < j < |sts| && Renews(es[i], k, end)
    requires forall l | i < l <= j :: !Over(c, sts[l], k)
    requires forall l | i < l < j :: Leaves(es[l], k, end)
    ensures HeldDrain(sts[j].draining, k, end, false)
    decreases j
  {
    if i + 1 < j {
      TakenLasts(c, sts, es, i, j - 1, k, end);
    }
    assert Leaves(es[j - 1], k, end);
    assert KeptOrOver(c, sts[j - 1 + 1], k, end, false);
  }

  /**
   * No gap on a follower either: from the leader's snapshot that lists a drain and until what was left of it has
   * passed, the member's bundle holds the target, through any events, as long as the member stays in the list and the
   * target in the inputs, and every later snapshot lists the drain for no shorter.
   */
  lemma NoFollowerGap(c: Settings, in': Inputs, sts: seq<State>, es: seq<Timed>, i: nat, j: nat, n: nat, name: string,
          m: string)
    requires GoodSettings(c) && IsRun(c, sts, es) && sts[0] == New(c, in') && i < j < |sts|
    requires IsSnapshotOf(es[i].event) && ListedOnce(es[i].event.leader.value, DrainKey(name, m), n)
    requires forall k | i < k <= j ::
      name in sts[k].inputs.targets && m in sts[k].effective && OwnerOf(c, sts[k], name) != m
    requires forall k | i < k < j ::
      Leaves(es[k], DrainKey(name, m), es[i].at + es[i].event.leader.value[n].left)
    ensures m in sts[j].bundles && name in sts[j].bundles[m].share
  {
    var k, end := DrainKey(name, m), es[i].at + es[i].event.leader.value[n].left;
    RunHolds(c, in', sts, es, k, end);
    TakenLasts(c, sts, es, i, j, k, end);
    RunKeeps(c, in', sts, es, j);
    BundlesHoldShares(c, sts[j], m, name);
    assert m in Elements(sts[j].effective);
  }
}
