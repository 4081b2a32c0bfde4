/**
 * What every reachable state of the allocator keeps: bundles that are never out of date, and drains of what was really
 * lost.
 */
module AllocatorInvariant {
  import opened Common
  import opened Ordering
  import opened AllocatorModel

  ghost predicate ValidList(ms: seq<string>, cs: seq<nat>) {
    Sorted(Less, ms) && |ms| == |cs| && "" !in ms && forall c | c in cs :: c > 0
  }

  /** What the placement promises: every target has an owner, a member of the list; nobody has without members. */
  ghost predicate Places(in': Inputs, ms: seq<string>, r: map<string, string>) {
    if ms == [] then r == map[] else
      && (forall n | n in in'.targets :: in'.targets[n].key in r)
      && forall k | k in r :: r[k] in ms
  }

  ghost predicate GoodSettings(c: Settings) {
    && c.settle >= 0 && c.ttl > 0
    && forall in': Inputs, ms: seq<string>, cs: seq<nat> | ValidList(ms, cs) :: Places(in', ms, c.place(in', ms, cs))
  }

  lemma OwnerIsMember(c: Settings, in': Inputs, ms: seq<string>, cs: seq<nat>, name: string)
    requires GoodSettings(c) && ValidList(ms, cs)
    ensures ms == [] || name !in in'.targets ==> OwnerIn(c, in', ms, cs, name) == ""
    ensures ms != [] && name in in'.targets ==>
      OwnerIn(c, in', ms, cs, name) in ms && OwnerIn(c, in', ms, cs, name) != ""
  {
    assert Places(in', ms, c.place(in', ms, cs));
  }

  /** Every drain is of a target in force, on a member of the list that does not own it. */
  ghost predicate DrainsAreLosses(c: Settings, st: State) {
    forall k | k in st.draining ::
      k.target in st.inputs.targets && k.member in st.effective && OwnerOf(c, st, k.target) != k.member
  }

  /** The bundles are those a rebuild would make. */
  ghost predicate Fresh(c: Settings, st: State) {
    && st.bundles == Rebuild(c, st).bundles
    && st.joining == Rebuild(c, st).joining
  }

  /** What holds whatever the bundles. */
  ghost predicate Sound(c: Settings, st: State) {
    && ValidList(st.proposed, st.proposedCaps) && ValidList(st.effective, st.effectiveCaps)
    && (forall n | n in st.members :: n != "" && st.members[n].capacity > 0)
    && (!st.settled ==> st.effective == [] && st.draining == map[])
    && DrainsAreLosses(c, st)
  }

  ghost predicate Inv(c: Settings, st: State) {
    Sound(c, st) && Fresh(c, st)
  }

  /** In terms of the bundles: they are the list's, and m's holds exactly what m owns and what drains on it. */
  lemma BundlesHoldShares(c: Settings, st: State, m: string, name: string)
    requires Inv(c, st)
    ensures st.bundles.Keys == Elements(st.effective)
    ensures m in st.bundles ==>
      (name in st.bundles[m].share <==>
        name in st.inputs.targets && (OwnerOf(c, st, name) == m || DrainKey(name, m) in st.draining))
    ensures m in st.bundles && name in st.bundles[m].share ==> st.bundles[m].share[name] == st.inputs.targets[name]
    ensures m in st.bundles ==> st.bundles[m].config == st.inputs.config
  {
    assert st.bundles == Rebuild(c, st).bundles;
  }

  lemma LiveListIsValid(c: Settings, st: State, now: nat)
    requires forall n | n in st.members :: n != "" && st.members[n].capacity > 0
    ensures var names := SortedNames(LiveSet(c, st.members, now));
            && (forall n | n in names :: n in st.members)
            && ValidList(names, CapsOf(names, st.members))
  {
    var names := SortedNames(LiveSet(c, st.members, now));
    assert forall n | n in names :: n in Elements(names);
    var caps := CapsOf(names, st.members);
    assert forall i | 0 <= i < |caps| :: names[i] in names && caps[i] == st.members[names[i]].capacity;
  }

  lemma ProposeSound(c: Settings, st: State, now: nat)
    requires Inv(c, st)
    ensures Inv(c, Propose(c, st, now))
  {
    LiveListIsValid(c, st, now);
    var st1 := Propose(c, st, now);
    SameShares(c, st, st1);
  }

  lemma TakeEffectSound(c: Settings, st: State, now: nat)
    requires GoodSettings(c) && Sound(c, st)
    ensures Sound(c, TakeEffect(c, st, now))
  {
    forall n | n in st.inputs.targets {
      OwnerIsMember(c, st.inputs, st.effective, st.effectiveCaps, n);
    }
  }

  lemma UnexpiredSound(c: Settings, st: State, now: nat)
    requires Sound(c, st)
    ensures Sound(c, st.(draining := Unexpired(st.draining, now)))
  {
  }

  lemma RebuildFresh(c: Settings, st: State)
    requires Sound(c, st)
    ensures Inv(c, Rebuild(c, st))
  {
    SameShares(c, st, Rebuild(c, st));
  }

  /** What a rebuild makes depends on the inputs, the list and which targets drain where, not on for how long. */
  lemma SameShares(c: Settings, st: State, st': State)
    requires st'.inputs == st.inputs && st'.effective == st.effective && st'.effectiveCaps == st.effectiveCaps
    requires st'.draining.Keys == st.draining.Keys
    ensures Rebuild(c, st').bundles == Rebuild(c, st).bundles && Rebuild(c, st').joining == Rebuild(c, st).joining
  {
    forall m | m in st.effective ensures Share(c, st', m) == Share(c, st, m) {
      assert forall n :: DrainKey(n, m) in st'.draining <==> DrainKey(n, m) in st'.draining.Keys;
      assert forall n :: DrainKey(n, m) in st.draining <==> DrainKey(n, m) in st.draining.Keys;
    }
  }

  lemma ScheduleKeeps(c: Settings, st: State, now: nat)
    requires Inv(c, st)
    ensures Inv(c, Schedule(c, st, now))
  {
    SameShares(c, st, Schedule(c, st, now));
  }

  lemma UpdateKeeps(c: Settings, st: State, now: nat)
    requires GoodSettings(c) && Inv(c, st)
    ensures Inv(c, Update(c, st, now))
  {
    var st1 := Propose(c, st, now);
    ProposeSound(c, st, now);
    var st2 := Settled(c, st1, now);
    if SettleDue(c, st1, now) {
      TakeEffectSound(c, st1, now);
    }
    var st3 := st2.(draining := Unexpired(st2.draining, now));
    UnexpiredSound(c, st2, now);
    if SettleDue(c, st1, now) || st3.draining != st2.draining {
      RebuildFresh(c, st3);
      ScheduleKeeps(c, Rebuild(c, st3), now);
    } else {
      assert st3 == st1;
      ScheduleKeeps(c, st3, now);
    }
  }

  lemma TakeKeeps(c: Settings, st: State, hb: Heartbeat, now: nat)
    requires GoodSettings(c) && Inv(c, st) && hb.member != ""
    ensures Inv(c, TakeBeat(c, st, hb, now))
  {
    var st1 := Heard(st, hb, now);
    SameShares(c, st, st1);
    if !Ignored(st1, hb) && !Refused(c, st1, hb, now) {
      var st2 := Recorded(st1, hb, now);
      SameShares(c, st, st2);
      UpdateKeeps(c, st2, now);
    }
  }

  lemma BeatKeeps(c: Settings, st: State, hb: Heartbeat, now: nat)
    requires GoodSettings(c) && Inv(c, st)
    ensures Inv(c, Beat(c, st, hb, now))
  {
    if WellFormed(hb) {
      TakeKeeps(c, st, hb, now);
    }
  }

  lemma DropStaleSound(c: Settings, st: State)
    requires GoodSettings(c) && ValidList(st.effective, st.effectiveCaps)
    requires forall k | k in st.draining :: k.member in st.effective
    ensures DrainsAreLosses(c, DropStale(c, st))
  {
    forall k | k in st.draining {
      OwnerIsMember(c, st.inputs, st.effective, st.effectiveCaps, k.target);
    }
  }

  lemma HandOverSound(c: Settings, old': Inputs, st: State, now: nat, discovered: bool)
    requires GoodSettings(c) && Sound(c, st.(inputs := old'))
    ensures Sound(c, HandOver(c, old', st, now, discovered))
  {
    forall n | n in old'.targets {
      OwnerIsMember(c, old', st.effective, st.effectiveCaps, n);
    }
    var added := MapOf(MovedByInputs(c, old', st), k => NewDrain(st.inputs, k, now, discovered));
    DropStaleSound(c, st.(draining := st.draining + added));
  }

  lemma {:induction false} TakeEachOnMembers(draining: map<DrainKey, Drain>, effective: seq<string>,
          list: seq<SnapshotDrain>, now: nat)
    requires forall k | k in draining :: k.member in effective
    ensures forall k | k in TakeEach(draining, effective, list, now) :: k.member in effective
  {
    if list != [] {
      TakeEachOnMembers(draining, effective, list[..|list| - 1], now);
    }
  }

  lemma {:induction false} TakeEachWithoutMembers(draining: map<DrainKey, Drain>, list: seq<SnapshotDrain>, now: nat)
    ensures TakeEach(draining, [], list, now) == draining
  {
    if list != [] {
      TakeEachWithoutMembers(draining, list[..|list| - 1], now);
    }
  }

  lemma TakeDrainsSound(c: Settings, old': Inputs, st: State, list: seq<SnapshotDrain>, now: nat)
    requires GoodSettings(c) && Sound(c, st.(inputs := old'))
    ensures Sound(c, TakeDrains(c, st, list, now))
  {
    var own := OwnDrains(st.draining, now);
    TakeEachOnMembers(own, st.effective, list, now);
    DropStaleSound(c, st.(draining := TakeEach(own, st.effective, list, now)));
    if !st.settled {
      TakeEachWithoutMembers(own, list, now);
    }
  }

  lemma PutInForceKeeps(c: Settings, st: State, in': Inputs, discovered: bool, leader: Option<seq<SnapshotDrain>>,
          now: nat)
    requires GoodSettings(c) && Inv(c, st)
    ensures Inv(c, PutInForce(c, st, in', discovered, leader, now))
  {
    var st1 := st.(inputs := in');
    assert st1.(inputs := st.inputs) == st;
    if leader.None? {
      if st.inputs != in' {
        var st2 := HandOver(c, st.inputs, st1, now, discovered);
        HandOverSound(c, st.inputs, st1, now, discovered);
        RebuildFresh(c, st2);
        ScheduleKeeps(c, Rebuild(c, st2), now);
      }
    } else {
      var st2 := TakeDrains(c, st1, leader.value, now);
      TakeDrainsSound(c, st.inputs, st1, leader.value, now);
      if st.inputs == in' && !DrainsChanged(st1, st2) {
        // The rebuild is skipped, and would change nothing.
        SameShares(c, st, st2);
        ScheduleKeeps(c, st2, now);
      } else {
        RebuildFresh(c, st2);
        ScheduleKeeps(c, Rebuild(c, st2), now);
      }
    }
  }

  lemma StepKeeps(c: Settings, st: State, e: Event, now: nat)
    requires GoodSettings(c) && Inv(c, st)
    ensures Inv(c, Step(c, st, e, now))
  {
    match e
    case HeartbeatComes(hb) => BeatKeeps(c, st, hb, now);
    case TimerFires =>
      if !st.stopped {
        UpdateKeeps(c, st, now);
      }
    case InputsChange(in', discovered, leader) => PutInForceKeeps(c, st, in', discovered, leader, now);
    case ShutdownBegins => SameShares(c, st, st.(stopped := true, timer := None));
  }

  lemma NewHolds(c: Settings, in': Inputs)
    requires GoodSettings(c)
    ensures Inv(c, New(c, in'))
  {
    var b := Bundle(in'.config, map[]);
    var st := State(map[], [], [], c.started, [], [], false, in', map[], map[], b, None, None, 0, false);
    RebuildFresh(c, st);
    ScheduleKeeps(c, Rebuild(c, st), c.started);
  }

  // ---- runs ----

  /** What happened, and when. */
  datatype Timed = Timed(event: Event, at: nat)

  /** The states of a run, the first and one after each event, in time order. */
  ghost predicate IsRun(c: Settings, sts: seq<State>, es: seq<Timed>) {
    && |sts| == |es| + 1
    && (forall i | 0 <= i < |es| :: sts[i + 1] == Step(c, sts[i], es[i].event, es[i].at))
    && forall i, j | 0 <= i < j < |es| :: es[i].at <= es[j].at
  }

  /** Every state of every run from the start keeps the invariant. */
  lemma {:induction false} RunKeeps(c: Settings, in': Inputs, sts: seq<State>, es: seq<Timed>, i: nat)
    requires GoodSettings(c) && IsRun(c, sts, es) && sts[0] == New(c, in') && i < |sts|
    ensures Inv(c, sts[i])
    decreases i
  {
    if i == 0 {
      NewHolds(c, in');
    } else {
      RunKeeps(c, in', sts, es, i - 1);
      StepKeeps(c, sts[i - 1], es[i - 1].event, es[i - 1].at);
    }
  }
}
