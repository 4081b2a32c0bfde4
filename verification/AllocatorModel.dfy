/**
 * The allocator's state and what each event does to it (internal/allocator/allocator.go, discovery_runtime.go:
 * putInForce, peers.go: takeDrains). Every method runs under one lock, so each is one step, a function of the state
 * before it.
 */
module AllocatorModel {
  import opened Common
  import opened Ordering
  import HeartbeatCheck

  /** A static target: its shard key, and its interval in milliseconds. */
  datatype Target = Target(key: string, interval: nat, body: string)

  /** The input files in force, their targets by name; units stands for what else the placement weighs. */
  datatype Inputs = Inputs(targets: map<string, Target>, units: map<string, nat>, config: string)

  // The owner of each shard key, for a member list with its capacities.
  type Placer = (Inputs, seq<string>, seq<nat>) -> map<string, string>

  datatype Settings = Settings(settle: nat, interval: nat, ttl: nat, maxMembers: nat, started: nat, place: Placer)

  datatype Member = Member(capacity: nat, lastSeen: nat, shuttingDown: bool, instance: string, retired: string,
    sequence: nat)

  /** interval is in milliseconds, 0 when the heartbeat says none; capacity in thousandths, 0 when it says none. */
  datatype Heartbeat = Heartbeat(member: string, advertise: string, instance: string, sequence: nat, shuttingDown: bool,
    interval: int, capacity: int)

  datatype DrainKey = DrainKey(target: string, member: string)

  datatype Drain = Drain(until: nat, discovered: bool, own: Option<nat>)

  /** A drain of the leader's snapshot, for what is left of it. */
  datatype SnapshotDrain = SnapshotDrain(key: DrainKey, left: int)

  /** The configuration with a share of the static targets; equal bundles have equal generations. */
  datatype Bundle = Bundle(config: string, share: map<string, Target>)

  datatype State = State(
    members: map<string, Member>,
    proposed: seq<string>, proposedCaps: seq<nat>, proposedAt: nat,
    effective: seq<string>, effectiveCaps: seq<nat>, settled: bool,
    inputs: Inputs,
    draining: map<DrainKey, Drain>,
    bundles: map<string, Bundle>, joining: Bundle,
    timer: Option<nat>,
    firstHeard: Option<nat>, longestHeard: nat,
    stopped: bool)

  const MIN_INTERVAL: int := 1000
  const MAX_INTERVAL: int := 120000
  const LONGEST_LEFT: int := 1000000000000

  // ---- heartbeats ----

  /** 0 is the default, one outside the bounds the nearest of them. */
  function CapacityMilli(c: int): (r: nat)
    ensures 100 <= r <= 100000
  {
    if c == 0 then 1000 else if c < 100 then 100 else if c > 100000 then 100000 else c
  }

  function ClampInterval(i: int): nat {
    if i < MIN_INTERVAL then MIN_INTERVAL else if i > MAX_INTERVAL then MAX_INTERVAL else i
  }

  predicate WellFormed(hb: Heartbeat) {
    HeartbeatCheck.Accepts(hb.member, hb.advertise, hb.instance, hb.sequence)
  }

  /** Of the same process and not counted past the last applied, or of the process the current one replaced. */
  predicate Stale(m: Member, hb: Heartbeat) {
    if hb.instance == m.instance then hb.sequence <= m.sequence else hb.instance == m.retired
  }

  function ApplyBeat(m: Option<Member>, hb: Heartbeat, now: nat): Member {
    var instance, retired := if m.Some? then m.value.instance else "", if m.Some? then m.value.retired else "";
    Member(CapacityMilli(hb.capacity), now, hb.shuttingDown, hb.instance,
           if instance != hb.instance then instance else retired, hb.sequence)
  }

  predicate Live(c: Settings, m: Member, now: nat) {
    !m.shuttingDown && now - m.lastSeen < c.ttl
  }

  ghost function LiveSet(c: Settings, members: map<string, Member>, now: nat): set<string> {
    set n | n in members && Live(c, members[n], now)
  }

  /** What of a heartbeat counts before the first member list has formed. */
  function Heard(st: State, hb: Heartbeat, now: nat): State {
    if st.settled then st else
      st.(firstHeard := if st.firstHeard.None? then Some(now) else st.firstHeard,
          longestHeard := if hb.interval != 0 && ClampInterval(hb.interval) > st.longestHeard
                          then ClampInterval(hb.interval) else st.longestHeard)
  }

  datatype Reply = BadHeartbeat | TooManyMembers | Answered(bundle: Option<Bundle>)

  function BundleFor(st: State, member: string): Option<Bundle> {
    if !st.settled then None else if member in st.bundles then Some(st.bundles[member]) else Some(st.joining)
  }

  /** A heartbeat that is not applied, for its record of the member. */
  predicate Ignored(st: State, hb: Heartbeat) {
    if hb.member in st.members then Stale(st.members[hb.member], hb) else hb.shuttingDown
  }

  ghost predicate Refused(c: Settings, st: State, hb: Heartbeat, now: nat) {
    hb.member !in st.members && |LiveSet(c, st.members, now)| >= c.maxMembers
  }

  ghost function Recorded(st: State, hb: Heartbeat, now: nat): State {
    var m := if hb.member in st.members then Some(st.members[hb.member]) else None;
    st.(members := st.members[hb.member := ApplyBeat(m, hb, now)])
  }

  /** A heartbeat that is well formed. */
  ghost function TakeBeat(c: Settings, st: State, hb: Heartbeat, now: nat): State {
    var st1 := Heard(st, hb, now);
    if Ignored(st1, hb) || Refused(c, st1, hb, now) then st1
    else Update(c, Recorded(st1, hb, now), now)
  }

  ghost function Beat(c: Settings, st: State, hb: Heartbeat, now: nat): State {
    if WellFormed(hb) then TakeBeat(c, st, hb, now) else st
  }

  // ---- ownership ----

  function Lookup(m: map<string, string>, k: string): string {
    if k in m then m[k] else ""
  }

  /** The member of a list that owns a target of the inputs, "" when there is none. */
  function OwnerIn(c: Settings, in': Inputs, ms: seq<string>, cs: seq<nat>, name: string): string {
    if name in in'.targets then Lookup(c.place(in', ms, cs), in'.targets[name].key) else ""
  }

  function OwnerOf(c: Settings, st: State, name: string): string {
    OwnerIn(c, st.inputs, st.effective, st.effectiveCaps, name)
  }

  // ---- update ----

  ghost function CapsOf(names: seq<string>, members: map<string, Member>): (r: seq<nat>)
    requires forall n | n in names :: n in members
    ensures |r| == |names| && forall i | 0 <= i < |r| :: r[i] == members[names[i]].capacity
  {
    seq(|names|, i requires 0 <= i < |names| => members[names[i]].capacity)
  }

  /** A member silent for its TTL and not in the list is forgotten; one shutting down is kept until then. */
  predicate Forgotten(c: Settings, st: State, n: string, now: nat)
    requires n in st.members
  {
    !Live(c, st.members[n], now) && n !in st.effective && now - st.members[n].lastSeen >= c.ttl
  }

  ghost function Pruned(c: Settings, st: State, now: nat): map<string, Member> {
    st.members - set n | n in st.members && Forgotten(c, st, n, now)
  }

  ghost function Propose(c: Settings, st: State, now: nat): State {
    var names := SortedNames(LiveSet(c, st.members, now));
    assert forall n | n in names :: n in Elements(names);
    var caps := CapsOf(names, st.members);
    WithProposal(st.(members := Pruned(c, st, now)), names, caps, now)
  }

  /** The list and capacities proposed; one that is not what was proposed is proposed from now on. */
  function WithProposal(st: State, names: seq<string>, caps: seq<nat>, now: nat): State {
    if names == st.proposed && caps == st.proposedCaps then st
    else st.(proposed := names, proposedCaps := caps, proposedAt := now)
  }

  predicate InEffect(st: State) {
    st.proposed == st.effective && st.proposedCaps == st.effectiveCaps
  }

  function Max(a: nat, b: nat): nat {
    if a < b then b else a
  }

  function FirstSettle(c: Settings, st: State): nat {
    var at := c.started + Max(c.settle, c.interval);
    if st.firstHeard.Some? && st.firstHeard.value + st.longestHeard > at then st.firstHeard.value + st.longestHeard
    else at
  }

  predicate SettleDue(c: Settings, st: State, now: nat) {
    && !(st.settled && InEffect(st))
    && !(!st.settled && (st.proposed == [] || now < FirstSettle(c, st)))
    && now >= st.proposedAt + c.settle
  }

  /** A drain from now on, for the target's interval. */
  function NewDrain(in': Inputs, k: DrainKey, now: nat, discovered: bool): Drain {
    Drain(now + if k.target in in'.targets then in'.targets[k.target].interval else 0, discovered, None)
  }

  /** The drains a change of the member list makes: of what moves from a member still in the list. */
  ghost function ListDrains(c: Settings, st: State, now: nat): map<DrainKey, Drain> {
    MapOf(MovedByList(c, st), k => NewDrain(st.inputs, k, now, false))
  }

  ghost function MovedByList(c: Settings, st: State): (s: set<DrainKey>)
    ensures forall k | k in s :: k.target in st.inputs.targets
  {
    if st.effective == [] then {} else
      set n | n in st.inputs.targets && MovesByList(c, st, n) :: DrainKey(n, OwnerOf(c, st, n))
  }

  predicate MovesByList(c: Settings, st: State, name: string) {
    OwnerOf(c, st, name) != OwnerIn(c, st.inputs, st.proposed, st.proposedCaps, name)
      && OwnerOf(c, st, name) in st.proposed
  }

  ghost function TakeEffect(c: Settings, st: State, now: nat): State {
    var drains := st.draining + ListDrains(c, st, now);
    var st1 := st.(effective := st.proposed, effectiveCaps := st.proposedCaps, settled := true);
    var over := set k | k in drains && (k.member !in st1.effective || OwnerOf(c, st1, k.target) == k.member);
    st1.(draining := drains - over)
  }

  ghost function Unexpired(draining: map<DrainKey, Drain>, now: nat): map<DrainKey, Drain> {
    draining - set k | k in draining && now >= draining[k].until
  }

  ghost function Settled(c: Settings, st: State, now: nat): State {
    if SettleDue(c, st, now) then TakeEffect(c, st, now) else st
  }

  ghost function Update(c: Settings, st: State, now: nat): State {
    Finish(c, Propose(c, st, now), now)
  }

  /** The rest of an update, the live list being proposed. */
  ghost function Finish(c: Settings, st1: State, now: nat): State {
    var st2 := Settled(c, st1, now);
    var st3 := st2.(draining := Unexpired(st2.draining, now));
    var st4 := if SettleDue(c, st1, now) || st3.draining != st2.draining then Rebuild(c, st3) else st3;
    Schedule(c, st4, now)
  }

  // ---- bundles ----

  /** What member m serves: the targets it owns, and those that drain on it. */
  predicate Serves(c: Settings, st: State, m: string, name: string) {
    name in st.inputs.targets && (OwnerOf(c, st, name) == m || DrainKey(name, m) in st.draining)
  }

  ghost function Share(c: Settings, st: State, m: string): map<string, Target> {
    st.inputs.targets - set n | n in st.inputs.targets && !Serves(c, st, m, n)
  }

  ghost function Rebuild(c: Settings, st: State): State {
    st.(bundles := MapOf(Elements(st.effective), m => Bundle(st.inputs.config, Share(c, st, m))),
        joining := Bundle(st.inputs.config, map[]))
  }

  // ---- the timer ----

  ghost function LiveWakes(c: Settings, members: map<string, Member>, now: nat): set<nat> {
    set n | n in members && Live(c, members[n], now) :: members[n].lastSeen + c.ttl
  }

  ghost function SettleWakes(c: Settings, st: State): set<nat> {
    if !st.settled && st.proposed != [] then {Max(st.proposedAt + c.settle, FirstSettle(c, st))}
    else if st.settled && !InEffect(st) then {st.proposedAt + c.settle}
    else {}
  }

  ghost function DrainWakes(draining: map<DrainKey, Drain>): set<nat> {
    set k | k in draining :: draining[k].until
  }

  ghost function Wakes(c: Settings, st: State, now: nat): set<nat> {
    LiveWakes(c, st.members, now) + SettleWakes(c, st) + DrainWakes(st.draining)
  }

  lemma AnyOf(s: set<nat>) returns (x: nat)
    requires s != {}
    ensures x in s
  {
    x :| x in s;
  }

  lemma {:induction false} LeastExists(s: set<nat>) returns (x: nat)
    requires s != {}
    ensures x in s && forall y | y in s :: x <= y
    decreases s
  {
    x := AnyOf(s);
    var rest := s - {x};
    assert forall y | y in s :: y == x || y in rest;
    if rest != {} {
      var z := LeastExists(rest);
      x := if x < z then x else z;
    }
  }

  ghost function Least(s: set<nat>): (x: nat)
    requires s != {}
    ensures x in s && forall y | y in s :: x <= y
  {
    assert exists x :: x in s && forall y | y in s :: x <= y by { var _ := LeastExists(s); }
    var x :| x in s && forall y | y in s :: x <= y;
    x
  }

  ghost function Schedule(c: Settings, st: State, now: nat): State {
    st.(timer := if st.stopped || Wakes(c, st, now) == {} then None else Some(Max(Least(Wakes(c, st, now)), now)))
  }

  ghost function Wake(c: Settings, st: State, now: nat): State {
    if st.stopped then st else Update(c, st, now)
  }

  // ---- inputs ----

  ghost function DropStale(c: Settings, st: State): State {
    st.(draining := st.draining -
      set k | k in st.draining && (OwnerOf(c, st, k.target) == "" || OwnerOf(c, st, k.target) == k.member))
  }

  predicate MovesByInputs(c: Settings, old': Inputs, st: State, name: string) {
    && name in old'.targets && name in st.inputs.targets
    && OwnerIn(c, old', st.effective, st.effectiveCaps, name) != OwnerOf(c, st, name)
  }

  ghost function MovedByInputs(c: Settings, old': Inputs, st: State): (s: set<DrainKey>)
    ensures forall k | k in s :: k.target in st.inputs.targets
  {
    if !st.settled || st.effective == [] then {} else
      set n | n in st.inputs.targets && MovesByInputs(c, old', st, n) ::
        DrainKey(n, OwnerIn(c, old', st.effective, st.effectiveCaps, n))
  }

  ghost function HandOver(c: Settings, old': Inputs, st: State, now: nat, discovered: bool): State {
    DropStale(c, st.(draining := st.draining +
      MapOf(MovedByInputs(c, old', st), k => NewDrain(st.inputs, k, now, discovered))))
  }

  predicate OwnLater(d: Drain, now: nat) {
    d.own.Some? && now < d.own.value
  }

  /** Without the drains of the discovered targets, but for those this instance has a reason of its own for. */
  ghost function OwnDrains(draining: map<DrainKey, Drain>, now: nat): map<DrainKey, Drain> {
    MapOf((set k | k in draining && (!draining[k].discovered || OwnLater(draining[k], now))),
          k => OwnDrainOf(draining, k))
  }

  /** A drain as it is without the leader's say. */
  function OwnDrainOf(draining: map<DrainKey, Drain>, k: DrainKey): Drain {
    if k in draining && (!draining[k].discovered || draining[k].own.None?) then draining[k]
    else if k in draining then Drain(draining[k].own.value, false, None)
    else Drain(0, false, None)
  }

  function TakeOne(draining: map<DrainKey, Drain>, effective: seq<string>, d: SnapshotDrain, now: nat): map<DrainKey,
          Drain> {
    if !(0 < d.left < LONGEST_LEFT) || d.key.member !in effective then draining
    else if d.key in draining then
      var own := draining[d.key];
      draining[d.key := Drain(Max(own.until, now + d.left), true, Some(own.until))]
    else draining[d.key := Drain(now + d.left, true, None)]
  }

  function TakeEach(draining: map<DrainKey, Drain>, effective: seq<string>, list: seq<SnapshotDrain>,
          now: nat): map<DrainKey, Drain> {
    if list == [] then draining
    else TakeOne(TakeEach(draining, effective, list[..|list| - 1], now), effective, list[|list| - 1], now)
  }

  ghost function TakeDrains(c: Settings, st: State, list: seq<SnapshotDrain>, now: nat): State {
    DropStale(c, st.(draining := TakeEach(OwnDrains(st.draining, now), st.effective, list, now)))
  }

  /** Whether the targets that drain changed. */
  ghost predicate DrainsChanged(before: State, after: State) {
    before.draining.Keys != after.draining.Keys
  }

  ghost function PutInForce(c: Settings, st: State, in': Inputs, discovered: bool,
          leader: Option<seq<SnapshotDrain>>, now: nat): State {
    var same := st.inputs == in';
    var st1 := st.(inputs := in');
    if leader.None? then
      if same then st else Schedule(c, Rebuild(c, HandOver(c, st.inputs, st1, now, discovered)), now)
    else
      var st2 := TakeDrains(c, st1, leader.value, now);
      if same && !DrainsChanged(st1, st2) then Schedule(c, st2, now) else Schedule(c, Rebuild(c, st2), now)
  }

  // ---- runs ----

  ghost function New(c: Settings, in': Inputs): State {
    var b := Bundle(in'.config, map[]);
    var st := State(map[], [], [], c.started, [], [], false, in', map[], map[], b, None, None, 0, false);
    Schedule(c, Rebuild(c, st), c.started)
  }

  datatype Event =
    | HeartbeatComes(hb: Heartbeat)
    | TimerFires
    | InputsChange(inputs: Inputs, discovered: bool, leader: Option<seq<SnapshotDrain>>)
    | ShutdownBegins

  ghost function Step(c: Settings, st: State, e: Event, now: nat): State {
    match e
    case HeartbeatComes(hb) => Beat(c, st, hb, now)
    case TimerFires => Wake(c, st, now)
    case InputsChange(in', discovered, leader) => PutInForce(c, st, in', discovered, leader, now)
    case ShutdownBegins => st.(stopped := true, timer := None)
  }
}
