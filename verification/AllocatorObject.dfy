/** The allocator as one object whose methods update its fields, proved against the functions of AllocatorModel. */
module AllocatorObject {
  import opened Common
  import opened Ordering
  import opened AllocatorModel

  // ---- the least wake ----

  /** next is the least of s, None without any. */
  ghost predicate IsLeast(next: Option<nat>, s: set<nat>) {
    match next
    case None => s == {}
    case Some(x) => x in s && forall y | y in s :: x <= y
  }

  function Consider(next: Option<nat>, at: nat): Option<nat> {
    if next.None? || at < next.value then Some(at) else next
  }

  lemma LeastIsLeast(next: Option<nat>, s: set<nat>)
    requires IsLeast(next, s) && s != {}
    ensures next == Some(Least(s))
  {
  }

  /** The live names sorted, however they were collected. */
  lemma CollectedSorted(names: seq<string>, s: set<string>)
    requires Distinct(names) && Elements(names) == s
    ensures SortBy(Less, names) == SortedNames(s)
  {
    NamesAreOrdered(s);
    SortBySorts(Less, names);
    SortedUnique(Less, SortBy(Less, names), SortedNames(s), s);
  }

  lemma ProposeIs(c: Settings, st: State, now: nat, names: seq<string>, caps: seq<nat>, left: map<string, Member>)
    requires names == SortedNames(LiveSet(c, st.members, now)) && left == Pruned(c, st, now)
    requires (forall n | n in names :: n in left) && caps == CapsOf(names, left)
    ensures Propose(c, st, now) == WithProposal(st.(members := left), names, caps, now)
  {
    assert forall n | n in names :: n in st.members && left[n] == st.members[n];
    assert caps == CapsOf(names, st.members);
  }

  lemma NamesAreListed(c: Settings, st: State, now: nat)
    ensures forall n | n in SortedNames(LiveSet(c, st.members, now)) :: n in Pruned(c, st, now)
  {
    assert forall n | n in SortedNames(LiveSet(c, st.members, now)) ::
      n in Elements(SortedNames(LiveSet(c, st.members, now)));
  }

  /** Where what moves drains: taken off the member it is owned by under the list before, still in the list after. */
  predicate MovedTo(c: Settings, in': Inputs, before: seq<string>, beforeCaps: seq<nat>, after: seq<string>,
          afterCaps: seq<nat>, k: DrainKey) {
    && k.target in in'.targets && k.member in after
    && k.member == OwnerIn(c, in', before, beforeCaps, k.target) != OwnerIn(c, in', after, afterCaps, k.target)
  }

  lemma MovedToIs(c: Settings, st: State, k: DrainKey)
    requires st.effective != []
    ensures k in MovedByList(c, st) <==>
      MovedTo(c, st.inputs, st.effective, st.effectiveCaps, st.proposed, st.proposedCaps, k)
  {
    if MovedTo(c, st.inputs, st.effective, st.effectiveCaps, st.proposed, st.proposedCaps, k) {
      assert MovesByList(c, st, k.target);
      assert k == DrainKey(k.target, OwnerOf(c, st, k.target));
    }
  }

  lemma DrainedByList(c: Settings, st: State, drains: map<DrainKey, Drain>, now: nat)
    requires st.effective != []
    requires forall k :: k in drains <==>
      k in st.draining || MovedTo(c, st.inputs, st.effective, st.effectiveCaps, st.proposed, st.proposedCaps, k)
    requires forall k | k in drains ::
      drains[k] == if MovedTo(c, st.inputs, st.effective, st.effectiveCaps, st.proposed, st.proposedCaps, k)
                   then Drain(now + st.inputs.targets[k.target].interval, false, None) else st.draining[k]
    ensures drains == st.draining + ListDrains(c, st, now)
  {
    forall k ensures k in MovedByList(c, st) <==>
        MovedTo(c, st.inputs, st.effective, st.effectiveCaps, st.proposed, st.proposedCaps, k)
    {
      MovedToIs(c, st, k);
    }
  }

  lemma NoListDrains(c: Settings, st: State, now: nat)
    ensures st.effective == [] ==> st.draining + ListDrains(c, st, now) == st.draining
  {
  }

  /** Of the drains, those of a member of the list that does not own the target. */
  ghost function Remaining(c: Settings, drains: map<DrainKey, Drain>, in': Inputs, ms: seq<string>,
          cs: seq<nat>): map<DrainKey, Drain> {
    drains - set k | k in drains && (k.member !in ms || OwnerIn(c, in', ms, cs, k.target) == k.member)
  }

  lemma TakeEffectIs(c: Settings, st: State, now: nat, left: map<DrainKey, Drain>)
    requires left == Remaining(c, st.draining + ListDrains(c, st, now), st.inputs, st.proposed, st.proposedCaps)
    ensures TakeEffect(c, st, now) ==
            st.(effective := st.proposed, effectiveCaps := st.proposedCaps, settled := true, draining := left)
  {
  }

  predicate HandedOver(c: Settings, old': Inputs, in': Inputs, ms: seq<string>, cs: seq<nat>, k: DrainKey) {
    && k.target in old'.targets && k.target in in'.targets
    && k.member == OwnerIn(c, old', ms, cs, k.target) != OwnerIn(c, in', ms, cs, k.target)
  }

  lemma HandedOverIs(c: Settings, old': Inputs, st: State, k: DrainKey)
    requires st.settled && st.effective != []
    ensures k in MovedByInputs(c, old', st) <==> HandedOver(c, old', st.inputs, st.effective, st.effectiveCaps, k)
  {
    if HandedOver(c, old', st.inputs, st.effective, st.effectiveCaps, k) {
      assert MovesByInputs(c, old', st, k.target);
      assert k == DrainKey(k.target, OwnerIn(c, old', st.effective, st.effectiveCaps, k.target));
    }
  }

  lemma DrainedByInputs(c: Settings, old': Inputs, st: State, drains: map<DrainKey, Drain>, now: nat, discovered: bool)
    requires !(st.settled && st.effective != []) ==> drains == st.draining
    requires st.settled && st.effective != [] ==> forall k :: k in drains <==>
      k in st.draining || HandedOver(c, old', st.inputs, st.effective, st.effectiveCaps, k)
    requires st.settled && st.effective != [] ==> forall k | k in drains ::
      drains[k] == if HandedOver(c, old', st.inputs, st.effective, st.effectiveCaps, k)
                   then Drain(now + st.inputs.targets[k.target].interval, discovered, None) else st.draining[k]
    ensures drains == st.draining + MapOf(MovedByInputs(c, old', st), k => NewDrain(st.inputs, k, now, discovered))
  {
    if st.settled && st.effective != [] {
      forall k ensures k in MovedByInputs(c, old', st) <==>
          HandedOver(c, old', st.inputs, st.effective, st.effectiveCaps, k)
      {
        HandedOverIs(c, old', st, k);
      }
    }
  }

  /** What an update comes to, step by step, once the live list is proposed. */
  lemma FinishIs(c: Settings, st1: State, st2: State, st3: State, st4: State, st5: State, now: nat)
    requires st2 == Settled(c, st1, now) && st3 == st2.(draining := Unexpired(st2.draining, now))
    requires st4 == if SettleDue(c, st1, now) || st3.draining != st2.draining then Rebuild(c, st3) else st3
    requires st5 == Schedule(c, st4, now)
    ensures st5 == Finish(c, st1, now)
  {
  }

  lemma DropStaleIs(c: Settings, st: State, left: map<DrainKey, Drain>)
    requires forall k :: k in left <==>
      k in st.draining && OwnerOf(c, st, k.target) != "" && OwnerOf(c, st, k.target) != k.member
    requires forall k | k in left :: left[k] == st.draining[k]
    ensures DropStale(c, st) == st.(draining := left)
  {
  }

  lemma RebuildIs(c: Settings, st: State, made: map<string, Bundle>)
    requires forall m :: m in made <==> m in st.effective
    requires forall m | m in made :: made[m] == Bundle(st.inputs.config, Share(c, st, m))
    ensures Rebuild(c, st) == st.(bundles := made, joining := Bundle(st.inputs.config, map[]))
  {
    assert forall m :: m in Elements(st.effective) <==> m in st.effective;
  }

  lemma AllLiveSeen(c: Settings, members: map<string, Member>, now: nat, seen: set<nat>)
    requires seen <= LiveWakes(c, members, now)
    requires forall n | n in members && Live(c, members[n], now) :: members[n].lastSeen + c.ttl in seen
    ensures seen == LiveWakes(c, members, now)
  {
  }

  class Allocator {
    const c: Settings
    var members: map<string, Member>
    var proposed: seq<string>
    var proposedCaps: seq<nat>
    var proposedAt: nat
    var effective: seq<string>
    var effectiveCaps: seq<nat>
    var settled: bool
    var inputs: Inputs
    var draining: map<DrainKey, Drain>
    var bundles: map<string, Bundle>
    var joining: Bundle
    var timer: Option<nat>
    var firstHeard: Option<nat>
    var longestHeard: nat
    var stopped: bool

    /** The state the fields hold. */
    function View(): State
      reads this
    {
      State(members, proposed, proposedCaps, proposedAt, effective, effectiveCaps, settled, inputs, draining,
            bundles, joining, timer, firstHeard, longestHeard, stopped)
    }

    constructor (settings: Settings, in': Inputs)
      ensures c == settings && View() == New(settings, in')
    {
      c := settings;
      members, proposed, proposedCaps, proposedAt := map[], [], [], settings.started;
      effective, effectiveCaps, settled := [], [], false;
      inputs, draining := in', map[];
      bundles, joining := map[], Bundle(in'.config, map[]);
      timer, firstHeard, longestHeard, stopped := None, None, 0, false;
      new;
      RebuildBundles();
      ScheduleWake(c.started);
    }

    // ---- heartbeats ----

    /** How many members are live. */
    method LiveCount(now: nat) returns (n: nat)
      ensures n == |LiveSet(c, members, now)|
    {
      n := 0;
      ghost var counted: set<string> := {};
      var todo := members.Keys;
      while todo != {}
        invariant todo <= members.Keys && n == |counted|
        invariant forall m :: m in counted <==> m in members && m !in todo && Live(c, members[m], now)
        decreases todo
      {
        var m :| m in todo;
        if Live(c, members[m], now) {
          n, counted := n + 1, counted + {m};
        }
        todo := todo - {m};
      }
      assert counted == LiveSet(c, members, now);
    }

    method NoteHeard(hb: AllocatorModel.Heartbeat, now: nat)
      modifies `firstHeard, `longestHeard
      ensures View() == Heard(old(View()), hb, now)
    {
      if !settled && firstHeard.None? {
        firstHeard := Some(now);
      }
      if !settled && hb.interval != 0 && ClampInterval(hb.interval) > longestHeard {
        longestHeard := ClampInterval(hb.interval);
      }
    }

    /** Heartbeat: what is out of date or refused changes nothing of the members. */
    method Heartbeat(hb: AllocatorModel.Heartbeat, now: nat) returns (reply: Reply)
      modifies this
      ensures View() == Beat(c, old(View()), hb, now)
      ensures reply == BadHeartbeat <==> !WellFormed(hb)
      ensures reply == TooManyMembers <==>
        WellFormed(hb) && !Ignored(old(View()), hb) && Refused(c, old(View()), hb, now)
      ensures reply.Answered? ==> reply.bundle == BundleFor(View(), hb.member)
    {
      if !WellFormed(hb) {
        return BadHeartbeat;
      }
      reply := Take(hb, now);
    }

    /** A heartbeat that is well formed. */
    method Take(hb: AllocatorModel.Heartbeat, now: nat) returns (reply: Reply)
      modifies this
      ensures View() == TakeBeat(c, old(View()), hb, now)
      ensures reply != BadHeartbeat
      ensures reply == TooManyMembers <==> !Ignored(old(View()), hb) && Refused(c, old(View()), hb, now)
      ensures reply.Answered? ==> reply.bundle == BundleFor(View(), hb.member)
    {
      NoteHeard(hb, now);
      var m := if hb.member in members then Some(members[hb.member]) else None;
      if (m.Some? && Stale(m.value, hb)) || (m.None? && hb.shuttingDown) {
        return Answered(BundleFor(View(), hb.member));
      }
      if m.None? {
        var n := LiveCount(now);
        if n >= c.maxMembers {
          return TooManyMembers;
        }
      }
      ghost var heard := View();
      members := members[hb.member := ApplyBeat(m, hb, now)];
      assert View() == Recorded(heard, hb, now);
      UpdateAll(now);
      reply := Answered(BundleFor(View(), hb.member));
    }

    // ---- update ----

    /** The live members' names in order; those silent for the TTL and in no list are forgotten. */
    method ListLive(now: nat) returns (names: seq<string>)
      modifies `members
      ensures names == SortedNames(LiveSet(c, old(members), now))
      ensures members == Pruned(c, old(View()), now)
    {
      var live: seq<string> := [];
      ghost var before := members;
      var todo := members.Keys;
      while todo != {}
        invariant todo <= members.Keys <= before.Keys && Distinct(live)
        invariant forall n :: n in live <==> n in before && n !in todo && Live(c, before[n], now)
        invariant forall n :: n in members <==>
          n in before && (n in todo || Live(c, before[n], now) || n in effective || now - before[n].lastSeen < c.ttl)
        invariant forall n | n in members :: members[n] == before[n]
        decreases todo
      {
        var n :| n in todo;
        var m := members[n];
        todo := todo - {n};
        if Live(c, m, now) {
          live := live + [n];
        } else if n !in effective && now - m.lastSeen >= c.ttl {
          members := members - {n};
        }
      }
      assert Elements(live) == LiveSet(c, before, now);
      CollectedSorted(live, LiveSet(c, before, now));
      names := SortBy(Less, live);
    }

    method Capacities(names: seq<string>) returns (caps: seq<nat>)
      requires forall n | n in names :: n in members
      ensures caps == CapsOf(names, members)
    {
      caps := [];
      for i := 0 to |names|
        invariant |caps| == i && forall j | 0 <= j < i :: caps[j] == members[names[j]].capacity
      {
        caps := caps + [members[names[i]].capacity];
      }
    }

    method SetProposal(names: seq<string>, caps: seq<nat>, now: nat)
      modifies `proposed, `proposedCaps, `proposedAt
      ensures View() == WithProposal(old(View()), names, caps, now)
    {
      if names != proposed || caps != proposedCaps {
        proposed, proposedCaps, proposedAt := names, caps, now;
      }
    }

    method ProposeList(now: nat)
      modifies `members, `proposed, `proposedCaps, `proposedAt
      ensures View() == Propose(c, old(View()), now)
    {
      ghost var was := View();
      var names := ListLive(now);
      NamesAreListed(c, was, now);
      var caps := Capacities(names);
      ProposeIs(c, was, now, names, caps, members);
      assert View() == was.(members := members);
      SetProposal(names, caps, now);
    }

    method DropEnded(now: nat) returns (dropped: bool)
      modifies `draining
      ensures draining == Unexpired(old(draining), now) && dropped == (draining != old(draining))
    {
      dropped := false;
      ghost var before := draining;
      var todo := draining.Keys;
      while todo != {}
        invariant todo <= draining.Keys <= before.Keys
        invariant forall k :: k in draining <==> k in before && (k in todo || now < before[k].until)
        invariant forall k | k in draining :: draining[k] == before[k]
        invariant dropped == (draining.Keys != before.Keys)
        decreases todo
      {
        var k :| k in todo;
        todo := todo - {k};
        if now >= draining[k].until {
          draining := draining - {k};
          dropped := true;
          assert k in before.Keys && k !in draining.Keys;
        }
      }
      if !dropped {
        assert draining == before;
      }
    }

    method UpdateAll(now: nat)
      modifies `members, `proposed, `proposedCaps, `proposedAt, `effective, `effectiveCaps, `settled, `draining
      modifies `bundles, `joining, `timer
      ensures View() == Update(c, old(View()), now)
    {
      ProposeList(now);
      ghost var st1 := View();
      var due := SettleList(now);
      ghost var st2 := View();
      var dropped := DropEnded(now);
      ghost var st3 := View();
      if due || dropped {
        RebuildBundles();
      }
      ghost var st4 := View();
      ScheduleWake(now);
      FinishIs(c, st1, st2, st3, st4, View(), now);
    }

    /** The proposal in effect once it has held; whether it now is. */
    method SettleList(now: nat) returns (due: bool)
      modifies `effective, `effectiveCaps, `settled, `draining
      ensures View() == Settled(c, old(View()), now) && due == SettleDue(c, old(View()), now)
    {
      due := SettleDue(c, View(), now);
      if due {
        ListTakesEffect(now);
      }
    }

    // ---- who owns what ----

    function Owner(name: string): string
      reads `inputs, `effective, `effectiveCaps
    {
      OwnerIn(c, inputs, effective, effectiveCaps, name)
    }

    /** One target, if it moves. */
    method DrainIfMoved(n: string, before: seq<string>, beforeCaps: seq<nat>, now: nat)
      modifies `draining
      requires n in inputs.targets
      ensures var k := DrainKey(n, OwnerIn(c, inputs, before, beforeCaps, n));
              draining == if MovedTo(c, inputs, before, beforeCaps, effective, effectiveCaps, k)
                          then old(draining)[k := Drain(now + inputs.targets[n].interval, false, None)]
                          else old(draining)
    {
      var from, to := OwnerIn(c, inputs, before, beforeCaps, n), Owner(n);
      if from != to && from in effective {
        draining := draining[DrainKey(n, from) := Drain(now + inputs.targets[n].interval, false, None)];
      }
    }

    /** The targets that move from a member still in the list drain there for their interval. */
    method DrainMoved(before: seq<string>, beforeCaps: seq<nat>, now: nat, ghost st: State)
      modifies `draining
      requires before != [] && Changing(st, before, beforeCaps)
      ensures draining == old(draining) + ListDrains(c, st, now)
    {
      ghost var was := draining;
      var todo := inputs.targets.Keys;
      while todo != {}
        invariant todo <= inputs.targets.Keys
        invariant forall k :: k in draining <==>
          k in was || (MovedTo(c, inputs, before, beforeCaps, effective, effectiveCaps, k) && k.target !in todo)
        invariant forall k | k in draining ::
          draining[k] == if MovedTo(c, inputs, before, beforeCaps, effective, effectiveCaps, k) && k.target !in todo
                         then Drain(now + inputs.targets[k.target].interval, false, None) else was[k]
        decreases todo
      {
        var n :| n in todo;
        todo := todo - {n};
        DrainIfMoved(n, before, beforeCaps, now);
      }
      DrainedByList(c, st, draining, now);
    }

    /** st is the state whose proposal has become the list in effect, the list before being that of st. */
    ghost predicate Changing(st: State, before: seq<string>, beforeCaps: seq<nat>)
      reads this
    {
      && st.effective == before && st.effectiveCaps == beforeCaps
      && st.proposed == effective && st.proposedCaps == effectiveCaps
      && st.inputs == inputs && st.draining == draining
    }

    method DropGone()
      modifies `draining
      ensures draining == Remaining(c, old(draining), inputs, effective, effectiveCaps)
    {
      ghost var was := draining;
      var todo := draining.Keys;
      while todo != {}
        invariant todo <= draining.Keys <= was.Keys
        invariant forall k :: k in draining <==>
          k in was && (k in todo || (k.member in effective && Owner(k.target) != k.member))
        invariant forall k | k in draining :: draining[k] == was[k]
        decreases todo
      {
        var k :| k in todo;
        todo := todo - {k};
        if k.member !in effective || Owner(k.target) == k.member {
          draining := draining - {k};
        }
      }
    }

    /** The proposal as the list, with the drains that makes. */
    method TakeList(now: nat)
      modifies `effective, `effectiveCaps, `settled, `draining
      ensures draining == old(draining) + ListDrains(c, old(View()), now)
      ensures effective == proposed && effectiveCaps == proposedCaps && settled
    {
      ghost var was := View();
      var before, beforeCaps := effective, effectiveCaps;
      effective, effectiveCaps := proposed, proposedCaps;
      settled := true;
      if before != [] {
        DrainMoved(before, beforeCaps, now, was);
      }
      NoListDrains(c, was, now);
    }

    method ListTakesEffect(now: nat)
      modifies `effective, `effectiveCaps, `settled, `draining
      ensures View() == TakeEffect(c, old(View()), now)
    {
      ghost var was := View();
      TakeList(now);
      DropGone();
      assert View() == was.(effective := was.proposed, effectiveCaps := was.proposedCaps, settled := true,
          draining := draining);
      TakeEffectIs(c, was, now, draining);
    }

    // ---- inputs ----

    method DropStaleDrains()
      modifies `draining
      ensures View() == DropStale(c, old(View()))
    {
      ghost var before, was := View(), draining;
      var todo := draining.Keys;
      while todo != {}
        invariant todo <= draining.Keys <= was.Keys
        invariant forall k :: k in draining <==>
          k in was && (k in todo || (Owner(k.target) != "" && Owner(k.target) != k.member))
        invariant forall k | k in draining :: draining[k] == was[k]
        decreases todo
      {
        var k :| k in todo;
        todo := todo - {k};
        if Owner(k.target) == "" || Owner(k.target) == k.member {
          draining := draining - {k};
        }
      }
      DropStaleIs(c, before, draining);
    }

    /** What a change of the inputs moved drains on who had it. */
    method DrainHandedOver(old': Inputs, now: nat, discovered: bool)
      modifies `draining
      ensures forall k :: k in draining <==>
        k in old(draining) || HandedOver(c, old', inputs, effective, effectiveCaps, k)
      ensures forall k | k in draining ::
        draining[k] == if HandedOver(c, old', inputs, effective, effectiveCaps, k)
                       then Drain(now + inputs.targets[k.target].interval, discovered, None) else old(draining[k])
    {
      ghost var was := draining;
      var todo := inputs.targets.Keys;
      while todo != {}
        invariant todo <= inputs.targets.Keys
        invariant forall k :: k in draining <==>
          k in was || (HandedOver(c, old', inputs, effective, effectiveCaps, k) && k.target !in todo)
        invariant forall k | k in draining ::
          draining[k] == if HandedOver(c, old', inputs, effective, effectiveCaps, k) && k.target !in todo
                         then Drain(now + inputs.targets[k.target].interval, discovered, None) else was[k]
        decreases todo
      {
        var n :| n in todo;
        todo := todo - {n};
        if n in old'.targets {
          var from, to := OwnerIn(c, old', effective, effectiveCaps, n), Owner(n);
          if from != to {
            draining := draining[DrainKey(n, from) := Drain(now + inputs.targets[n].interval, discovered, None)];
          }
        }
      }
    }

    method HandOverTargets(old': Inputs, now: nat, discovered: bool)
      modifies `draining
      ensures View() == HandOver(c, old', old(View()), now, discovered)
    {
      ghost var was := View();
      if settled && effective != [] {
        DrainHandedOver(old', now, discovered);
      }
      DrainedByInputs(c, old', was, draining, now, discovered);
      DropStaleDrains();
    }

    method KeepOwnDrains(now: nat)
      modifies `draining
      ensures draining == OwnDrains(old(draining), now)
    {
      ghost var was := draining;
      var todo := draining.Keys;
      while todo != {}
        invariant todo <= draining.Keys <= was.Keys
        invariant forall k :: k in draining <==> k in was && (k in todo || !was[k].discovered || OwnLater(was[k], now))
        invariant forall k | k in draining ::
          draining[k] == if k !in todo && was[k].discovered then Drain(was[k].own.value, false, None) else was[k]
        decreases todo
      {
        var k :| k in todo;
        todo := todo - {k};
        var d := draining[k];
        if d.discovered && OwnLater(d, now) {
          draining := draining[k := Drain(d.own.value, false, None)];
        } else if d.discovered {
          draining := draining - {k};
        }
      }
    }

    /** The drains of the leader's snapshot; whether the targets that drain changed. */
    method TakeSnapshotDrains(list: seq<SnapshotDrain>, now: nat) returns (changed: bool)
      modifies `draining
      ensures View() == TakeDrains(c, old(View()), list, now)
      ensures changed <==> DrainsChanged(old(View()), View())
    {
      var before := draining.Keys;
      KeepOwnDrains(now);
      ghost var own := draining;
      for i := 0 to |list|
        invariant draining == TakeEach(own, effective, list[..i], now)
      {
        assert list[..i + 1][..i] == list[..i];
        var d := list[i];
        if 0 < d.left < LONGEST_LEFT && d.key.member in effective {
          if d.key in draining {
            var mine := draining[d.key];
            draining := draining[d.key := Drain(Max(mine.until, now + d.left), true, Some(mine.until))];
          } else {
            draining := draining[d.key := Drain(now + d.left, true, None)];
          }
        }
      }
      assert list[..|list|] == list;
      DropStaleDrains();
      changed := before != draining.Keys;
    }

    /** putInForce; whether the inputs in force changed. */
    method PutInputsInForce(in': Inputs, discovered: bool, leader: Option<seq<SnapshotDrain>>, now: nat)
      returns (changed: bool)
      modifies `inputs, `draining, `bundles, `joining, `timer
      ensures View() == PutInForce(c, old(View()), in', discovered, leader, now)
      ensures changed == (old(inputs) != in')
    {
      var same := inputs == in';
      if same && leader.None? {
        return false;
      }
      var before := inputs;
      inputs := in';
      if leader.Some? {
        var drains := TakeSnapshotDrains(leader.value, now);
        if !drains && same {
          ScheduleWake(now);
          return false;
        }
      } else {
        HandOverTargets(before, now, discovered);
      }
      RebuildBundles();
      ScheduleWake(now);
      changed := !same;
    }

    // ---- bundles ----

    /** What each member owns. */
    method OwnedShares() returns (shares: map<string, map<string, Target>>)
      ensures forall m, n :: n in ShareOf(shares, m) <==> n in inputs.targets && Owner(n) == m
      ensures forall m, n | n in ShareOf(shares, m) :: ShareOf(shares, m)[n] == inputs.targets[n]
    {
      shares := map[];
      var todo := inputs.targets.Keys;
      assert forall m :: ShareOf(shares, m) == map[];
      assert forall n :: n in inputs.targets ==> n in todo;
      while todo != {}
        invariant todo <= inputs.targets.Keys
        invariant forall m, n :: n in ShareOf(shares, m) <==> n in inputs.targets && n !in todo && Owner(n) == m
        invariant forall m, n | n in ShareOf(shares, m) :: ShareOf(shares, m)[n] == inputs.targets[n]
        decreases todo
      {
        var n :| n in todo;
        todo := todo - {n};
        shares := AddTo(shares, Owner(n), n, inputs.targets[n]);
      }
    }

    /** Each member's share: what it owns, then what drains on it. */
    method Shares() returns (shares: map<string, map<string, Target>>)
      ensures forall m :: ShareOf(shares, m) == Share(c, View(), m)
    {
      shares := OwnedShares();
      var keys := draining.Keys;
      forall m, n ensures n in ShareOf(shares, m) <==>
          n in inputs.targets && (Owner(n) == m || (DrainKey(n, m) in draining && DrainKey(n, m) !in keys))
      {
        assert DrainKey(n, m) in draining ==> DrainKey(n, m) in keys;
      }
      while keys != {}
        invariant keys <= draining.Keys
        invariant forall m, n :: n in ShareOf(shares, m) <==>
          n in inputs.targets && (Owner(n) == m || (DrainKey(n, m) in draining && DrainKey(n, m) !in keys))
        invariant forall m, n | n in ShareOf(shares, m) :: ShareOf(shares, m)[n] == inputs.targets[n]
        decreases keys
      {
        var k :| k in keys;
        keys := keys - {k};
        if k.target in inputs.targets {
          shares := AddTo(shares, k.member, k.target, inputs.targets[k.target]);
        }
      }
    }

    method RebuildBundles()
      modifies `bundles, `joining
      ensures View() == Rebuild(c, old(View()))
    {
      ghost var was := View();
      var shares := Shares();
      var made: map<string, Bundle> := map[];
      for i := 0 to |effective|
        invariant forall m :: m in made <==> m in effective[..i]
        invariant forall m | m in made :: made[m] == Bundle(inputs.config, Share(c, was, m))
      {
        made := made[effective[i] := Bundle(inputs.config, ShareOf(shares, effective[i]))];
      }
      assert effective[..|effective|] == effective;
      RebuildIs(c, was, made);
      bundles, joining := made, Bundle(inputs.config, map[]);
    }

    // ---- the timer ----

    method LiveWake(now: nat) returns (next: Option<nat>)
      ensures IsLeast(next, LiveWakes(c, members, now))
    {
      next := None;
      ghost var seen: set<nat> := {};
      var todo := members.Keys;
      while todo != {}
        invariant todo <= members.Keys && IsLeast(next, seen) && seen <= LiveWakes(c, members, now)
        invariant forall n | n in members && n !in todo && Live(c, members[n], now) ::
          members[n].lastSeen + c.ttl in seen
        decreases todo
      {
        var n :| n in todo;
        todo := todo - {n};
        if Live(c, members[n], now) {
          next, seen := Consider(next, members[n].lastSeen + c.ttl), seen + {members[n].lastSeen + c.ttl};
        }
      }
      AllLiveSeen(c, members, now, seen);
    }

    method DrainWake(first: Option<nat>, ghost others: set<nat>) returns (next: Option<nat>)
      requires IsLeast(first, others)
      ensures IsLeast(next, others + DrainWakes(draining))
    {
      next := first;
      ghost var seen: set<nat> := {};
      var todo := draining.Keys;
      while todo != {}
        invariant todo <= draining.Keys && IsLeast(next, others + seen) && seen <= DrainWakes(draining)
        invariant forall k | k in draining && k !in todo :: draining[k].until in seen
        decreases todo
      {
        var k :| k in todo;
        todo := todo - {k};
        next, seen := Consider(next, draining[k].until), seen + {draining[k].until};
      }
      assert seen == DrainWakes(draining);
    }

    method SettleWake(first: Option<nat>, ghost others: set<nat>) returns (next: Option<nat>)
      requires IsLeast(first, others)
      ensures IsLeast(next, others + SettleWakes(c, View()))
    {
      next := first;
      if !settled || !InEffect(View()) {
        if settled || proposed != [] {
          var at := proposedAt + c.settle;
          if !settled && at < FirstSettle(c, View()) {
            at := FirstSettle(c, View());
          }
          next := Consider(next, at);
        }
      }
      assert next == first ==> others + {} == others;
    }

    method ScheduleWake(now: nat)
      modifies `timer
      ensures View() == Schedule(c, old(View()), now)
    {
      ghost var was := View();
      timer := None;
      if stopped {
        return;
      }
      var next := LiveWake(now);
      next := SettleWake(next, LiveWakes(c, members, now));
      assert SettleWakes(c, View()) == SettleWakes(c, was);
      assert IsLeast(next, LiveWakes(c, members, now) + SettleWakes(c, was));
      next := DrainWake(next, LiveWakes(c, members, now) + SettleWakes(c, was));
      assert LiveWakes(c, members, now) + SettleWakes(c, was) + DrainWakes(draining) == Wakes(c, was, now);
      if next.Some? {
        LeastIsLeast(next, Wakes(c, was, now));
        timer := Some(Max(next.value, now));
      }
    }

    method WakeUp(now: nat)
      modifies this
      ensures View() == Wake(c, old(View()), now)
    {
      if !stopped {
        UpdateAll(now);
      }
    }

    method BeginShutdown()
      modifies `stopped, `timer
      ensures View() == Step(c, old(View()), ShutdownBegins, 0)
    {
      stopped, timer := true, None;
    }
  }

  function ShareOf(shares: map<string, map<string, Target>>, m: string): map<string, Target> {
    if m in shares then shares[m] else map[]
  }

  function AddTo(shares: map<string, map<string, Target>>, m: string, name: string, t: Target): (r: map<string,
          map<string, Target>>)
    ensures forall o, n :: n in ShareOf(r, o) <==> n in ShareOf(shares, o) || (o == m && n == name)
    ensures forall o, n | n in ShareOf(r, o) ::
      ShareOf(r, o)[n] == if o == m && n == name then t else ShareOf(shares, o)[n]
  {
    shares[m := ShareOf(shares, m)[name := t]]
  }
}
