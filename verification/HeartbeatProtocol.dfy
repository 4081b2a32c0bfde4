/**
 * One member's heartbeats end to end: the processes of a replica (internal/allocclient/client.go: heartbeatOne,
 * ShuttingDown), a network that delays, reorders, duplicates and loses what they send, and the record the allocator
 * keeps (internal/allocator/allocator.go: Heartbeat, stale).
 */
module HeartbeatProtocol {
  import opened Common
  import opened AllocatorModel
  import AllocatorTimer
  import HeartbeatCheck

  // ---- the client ----

  /** A process of the replica: how many heartbeats it has built, and whether it is shutting down. */
  datatype Process = Process(sequence: nat, down: bool)

  class Client {
    const member: string
    const advertise: string
    const instance: string
    const capacity: int
    var sequence: nat
    var shuttingDown: bool
    var reported: int

    function View(): Process
      reads this
    {
      Process(sequence, shuttingDown)
    }

    constructor (member': string, advertise': string, instance': string, capacity': int)
      ensures member == member' && advertise == advertise' && instance == instance' && capacity == capacity'
      ensures View() == Process(0, false) && reported == 0
    {
      member, advertise, instance, capacity := member', advertise', instance', capacity';
      sequence, shuttingDown, reported := 0, false, 0;
    }

    /** Every heartbeat built from now on says so. */
    method ShuttingDown()
      modifies `shuttingDown
      ensures View() == old(View()).(down := true)
    {
      shuttingDown := true;
    }

    /** The next heartbeat: its number and its flag are taken in one critical section. */
    method Build() returns (hb: Heartbeat)
      modifies `sequence
      ensures View() == BuiltBy(old(View()))
      ensures hb == Said(member, advertise, instance, View(), reported, capacity)
    {
      sequence := sequence + 1;
      hb := Heartbeat(member, advertise, instance, sequence, shuttingDown, reported, capacity);
    }
  }

  function BuiltBy(p: Process): Process {
    p.(sequence := p.sequence + 1)
  }

  function Said(member: string, advertise: string, instance: string, p: Process, interval: int,
          capacity: int): Heartbeat {
    Heartbeat(member, advertise, instance, p.sequence, p.down, interval, capacity)
  }

  // ---- the allocator's record ----

  /** What the record becomes when hb is taken in. */
  function Received(r: Option<Member>, hb: Heartbeat, now: nat): Option<Member> {
    if r.Some? && Stale(r.value, hb) then r
    else if r.None? && hb.shuttingDown then r
    else Some(ApplyBeat(r, hb, now))
  }

  ghost function RecordOf(st: State, name: string): Option<Member> {
    if name in st.members then Some(st.members[name]) else None
  }

  /**
   * A heartbeat that is not refused makes of its member's record what Received says, and no other record but forgets
   * some.
   */
  lemma BeatReceives(c: Settings, st: State, hb: Heartbeat, now: nat, name: string)
    requires c.ttl > 0 && WellFormed(hb) && !Refused(c, Heard(st, hb, now), hb, now)
    ensures var st' := Beat(c, st, hb, now);
            if name == hb.member then RecordOf(st', name) == Received(RecordOf(st, name), hb, now)
            else RecordOf(st', name) == RecordOf(st, name) || RecordOf(st', name) == None
  {
    var st1 := Heard(st, hb, now);
    if !Ignored(st1, hb) {
      UpdateRecords(c, Recorded(st1, hb, now), now, name);
    }
  }

  /** An update forgets a member only when it is silent for its TTL and in no list. */
  lemma UpdateRecords(c: Settings, st: State, now: nat, name: string)
    ensures var st' := Update(c, st, now);
            RecordOf(st', name) ==
            if name in st.members && (name in st.effective || now - st.members[name].lastSeen < c.ttl)
            then RecordOf(st, name) else None
  {
    AllocatorTimer.UpdateShape(c, st, now);
    ProposedMembers(c, st, now);
    assert Settled(c, Propose(c, st, now), now).members == Propose(c, st, now).members;
  }

  lemma ProposedMembers(c: Settings, st: State, now: nat)
    ensures Propose(c, st, now).members == Pruned(c, st, now)
  {
  }

  // ---- the protocol ----

  /** The processes by instance, every heartbeat ever sent, and the allocator's record of the member. */
  datatype World = World(procs: map<string, Process>, sent: set<Heartbeat>, record: Option<Member>)

  datatype Act =
    | Start(instance: string)
    | ShutDown(instance: string)
    | Send(instance: string, advertise: string, interval: int, capacity: int)
    | Deliver(hb: Heartbeat, now: nat)
    | Forget

  /**
   * A process starts once; only what was sent is delivered, at any time, in any order, any number of times or never.
   */
  predicate Can(w: World, a: Act) {
    match a
    case Start(i) => i != "" && i !in w.procs
    case ShutDown(i) => i in w.procs
    case Send(i, _, _, _) => i in w.procs
    case Deliver(hb, _) => hb in w.sent
    case Forget => true
  }

  function Do(member: string, w: World, a: Act): World
    requires Can(w, a)
  {
    match a
    case Start(i) => w.(procs := w.procs[i := Process(0, false)])
    case ShutDown(i) => w.(procs := w.procs[i := w.procs[i].(down := true)])
    case Send(i, advertise, interval, capacity) =>
      var p := BuiltBy(w.procs[i]);
      w.(procs := w.procs[i := p], sent := w.sent + {Said(member, advertise, i, p, interval, capacity)})
    case Deliver(hb, now) => w.(record := Received(w.record, hb, now))
    case Forget => w.(record := None)
  }

  /** The worlds of a run, the first and one after each act. */
  ghost predicate IsRun(member: string, ws: seq<World>, acts: seq<Act>) {
    && |ws| == |acts| + 1
    && ws[0] == World(map[], {}, None)
    && forall k | 0 <= k < |acts| :: Can(ws[k], acts[k]) && ws[k + 1] == Do(member, ws[k], acts[k])
  }

  /** Of one process, no two heartbeats have one number, and those after one that shuts down do too. */
  ghost predicate InOrder(sent: set<Heartbeat>) {
    forall h, g | h in sent && g in sent && h.instance == g.instance ::
      && (h.sequence == g.sequence ==> h == g)
      && (h.sequence < g.sequence && h.shuttingDown ==> g.shuttingDown)
  }

  ghost predicate SentBy(procs: map<string, Process>, h: Heartbeat) {
    && h.instance != "" && h.instance in procs
    && 0 < h.sequence <= procs[h.instance].sequence && (h.shuttingDown ==> procs[h.instance].down)
  }

  /** The record is what some heartbeat sent made of it. */
  ghost predicate Says(sent: set<Heartbeat>, m: Member) {
    && m.retired != m.instance
    && exists h :: h in sent && h.instance == m.instance && h.sequence == m.sequence && h.shuttingDown == m.shuttingDown
  }

  ghost predicate Inv(w: World) {
    && "" !in w.procs
    && InOrder(w.sent)
    && (forall h | h in w.sent :: SentBy(w.procs, h))
    && (w.record.Some? ==> Says(w.sent, w.record.value))
  }

  lemma SendKeeps(member: string, w: World, i: string, advertise: string, interval: int, capacity: int)
    requires Inv(w) && i in w.procs
    ensures Inv(Do(member, w, Send(i, advertise, interval, capacity)))
  {
    var p := BuiltBy(w.procs[i]);
    var hb := Said(member, advertise, i, p, interval, capacity);
    forall h | h in w.sent && h.instance == i ensures h.sequence < hb.sequence && (h.shuttingDown ==> hb.shuttingDown) {
      assert SentBy(w.procs, h);
    }
    var w' := Do(member, w, Send(i, advertise, interval, capacity));
    if w.record.Some? {
      var m := w.record.value;
      var h :| h in w.sent && h.instance == m.instance && h.sequence == m.sequence && h.shuttingDown == m.shuttingDown;
      assert h in w'.sent;
    }
  }

  lemma DeliverKeeps(member: string, w: World, hb: Heartbeat, now: nat)
    requires Inv(w) && hb in w.sent
    ensures Inv(Do(member, w, Deliver(hb, now)))
  {
    assert SentBy(w.procs, hb);
  }

  lemma DoKeeps(member: string, w: World, a: Act)
    requires Inv(w) && Can(w, a)
    ensures Inv(Do(member, w, a))
  {
    match a
    case Send(i, advertise, interval, capacity) => SendKeeps(member, w, i, advertise, interval, capacity);
    case Deliver(hb, now) => DeliverKeeps(member, w, hb, now);
    case _ =>
  }

  lemma {:induction false} RunKeeps(member: string, ws: seq<World>, acts: seq<Act>, k: nat)
    requires IsRun(member, ws, acts) && k < |ws|
    ensures Inv(ws[k])
    decreases k
  {
    if k > 0 {
      RunKeeps(member, ws, acts, k - 1);
      DoKeeps(member, ws[k - 1], acts[k - 1]);
    }
  }

  /**
   * From its shutdown on a process only sends heartbeats that say so, each numbered past all it had sent: whatever of
   * them arrives, none can pass for one from before.
   */
  lemma {:induction false} ShutdownIsSaid(member: string, ws: seq<World>, acts: seq<Act>, j: nat, k: nat, h: Heartbeat)
    requires IsRun(member, ws, acts) && j <= k < |ws| && h in ws[k].sent && h !in ws[j].sent
    requires h.instance in ws[j].procs && ws[j].procs[h.instance].down
    ensures h.shuttingDown && forall g | g in ws[j].sent && g.instance == h.instance :: g.sequence < h.sequence
    decreases k
  {
    RunKeeps(member, ws, acts, j);
    if h in ws[k - 1].sent {
      ShutdownIsSaid(member, ws, acts, j, k - 1, h);
    } else {
      StaysADownProcess(member, ws, acts, j, k - 1, h.instance);
      forall g | g in ws[j].sent && g.instance == h.instance ensures g.sequence < h.sequence {
        assert SentBy(ws[j].procs, g);
      }
    }
  }

  lemma {:induction false} StaysADownProcess(member: string, ws: seq<World>, acts: seq<Act>, j: nat, k: nat, i: string)
    requires IsRun(member, ws, acts) && j <= k < |ws| && i in ws[j].procs && ws[j].procs[i].down
    ensures i in ws[k].procs && ws[k].procs[i].down && ws[k].procs[i].sequence >= ws[j].procs[i].sequence
    decreases k
  {
    if j < k {
      StaysADownProcess(member, ws, acts, j, k - 1, i);
    }
  }

  /**
   * Of a member known to shut down, exactly the heartbeats of a third process that is not shutting down make it live
   * again: none of the process that said so, nor of the one it replaced, however late they come.
   */
  lemma RevivedExactly(member: string, ws: seq<World>, acts: seq<Act>, k: nat, hb: Heartbeat, now: nat)
    requires IsRun(member, ws, acts) && k < |ws| && hb in ws[k].sent
    requires ws[k].record.Some? && ws[k].record.value.shuttingDown
    ensures var m := ws[k].record.value;
            var after := Received(ws[k].record, hb, now);
            && after.Some?
            && (!after.value.shuttingDown <==> hb.instance !in {m.instance, m.retired} && !hb.shuttingDown)
            && (hb.instance in {m.instance, m.retired} ==>
                  after.value.shuttingDown && after.value.instance == m.instance && after.value.retired == m.retired)
  {
    RunKeeps(member, ws, acts, k);
    var w := ws[k];
    var m := w.record.value;
    var h :| h in w.sent && h.instance == m.instance && h.sequence == m.sequence && h.shuttingDown == m.shuttingDown;
  }

  /** What the member's own process and the one it replaced do, while the record is held. */
  ghost predicate OfThem(a: Act, m: Member) {
    !a.Forget? && (a.Deliver? ==> a.hb.instance in {m.instance, m.retired})
  }

  ghost predicate DownAs(r: Option<Member>, m: Member) {
    r.Some? && r.value.shuttingDown && r.value.instance == m.instance && r.value.retired == m.retired
  }

  /**
   * So over a run too: once the record says it shuts down, it does until it is forgotten or a third process is heard.
   */
  lemma {:induction false} StaysDown(member: string, ws: seq<World>, acts: seq<Act>, i: nat, j: nat)
    requires IsRun(member, ws, acts) && i <= j < |ws|
    requires ws[i].record.Some? && ws[i].record.value.shuttingDown
    requires forall k | i <= k < j :: OfThem(acts[k], ws[i].record.value)
    ensures DownAs(ws[j].record, ws[i].record.value)
    decreases j
  {
    if i < j {
      StaysDown(member, ws, acts, i, j - 1);
      assert OfThem(acts[j - 1], ws[i].record.value);
      if acts[j - 1].Deliver? {
        RevivedExactly(member, ws, acts, j - 1, acts[j - 1].hb, acts[j - 1].now);
      }
    }
  }

  // ---- what one retired instance does not catch ----

  ghost predicate Reaches(member: string, ws: seq<World>, acts: seq<Act>, w: World) {
    IsRun(member, ws, acts) && ws[|acts|] == w
  }

  lemma Extend(member: string, ws: seq<World>, acts: seq<Act>, w: World, a: Act) returns (ws': seq<World>,
          acts': seq<Act>)
    requires Reaches(member, ws, acts, w) && Can(w, a)
    ensures Reaches(member, ws', acts', Do(member, w, a)) && acts' == acts + [a] && ws' == ws + [Do(member, w, a)]
  {
    ws', acts' := ws + [Do(member, w, a)], acts + [a];
  }

  const ADDRESS := "h:1"

  /** Every heartbeat of the member from that address, of a process of a short name, and with a number. */
  ghost predicate AllShort(member: string, sent: set<Heartbeat>) {
    forall h | h in sent :: h.member == member && h.advertise == ADDRESS && |h.instance| == 1 && h.sequence > 0
  }

  /** None of those is refused for how it is written. */
  lemma ShortAreTaken(member: string, sent: set<Heartbeat>, h: Heartbeat)
    requires HeartbeatCheck.IsMember(member) && AllShort(member, sent) && h in sent
    ensures WellFormed(h)
  {
    HeartbeatCheck.OneByteTakes(h.instance);
    HeartbeatCheck.OneDigitPort();
  }

  /** A process that is heard once, sends a heartbeat that stays on its way, and shuts down. */
  function Late(member: string, i: string): Heartbeat {
    Heartbeat(member, ADDRESS, i, 2, false, 0, 0)
  }

  function Lived(member: string, w: World, i: string, now: nat): World {
    var first := Heartbeat(member, ADDRESS, i, 1, false, 0, 0);
    World(w.procs[i := Process(2, true)], w.sent + {first} + {Late(member, i)}, Received(w.record, first, now))
  }

  lemma Lives(member: string, ws: seq<World>, acts: seq<Act>, w: World, i: string, now: nat)
    returns (ws': seq<World>, acts': seq<Act>)
    requires Reaches(member, ws, acts, w) && |i| == 1 && i !in w.procs
    ensures Reaches(member, ws', acts', Lived(member, w, i, now))
    ensures AllShort(member, w.sent) ==> AllShort(member, Lived(member, w, i, now).sent)
  {
    var first := Heartbeat(member, ADDRESS, i, 1, false, 0, 0);
    var w1 := w.(procs := w.procs[i := Process(0, false)]);
    ws', acts' := Extend(member, ws, acts, w, Start(i));
    var w2 := w.(procs := w.procs[i := Process(1, false)], sent := w.sent + {first});
    assert Do(member, w1, Send(i, ADDRESS, 0, 0)) == w2;
    ws', acts' := Extend(member, ws', acts', w1, Send(i, ADDRESS, 0, 0));
    var w3 := w2.(record := Received(w.record, first, now));
    ws', acts' := Extend(member, ws', acts', w2, Deliver(first, now));
    var w4 := w3.(procs := w.procs[i := Process(2, false)], sent := w3.sent + {Late(member, i)});
    assert Do(member, w3, Send(i, ADDRESS, 0, 0)) == w4;
    ws', acts' := Extend(member, ws', acts', w3, Send(i, ADDRESS, 0, 0));
    assert Do(member, w4, ShutDown(i)) == Lived(member, w, i, now);
    ws', acts' := Extend(member, ws', acts', w4, ShutDown(i));
  }

  /** A heartbeat that says the process shuts down, built and delivered. */
  lemma SaysSo(member: string, ws: seq<World>, acts: seq<Act>, w: World, i: string, now: nat)
    returns (ws': seq<World>, acts': seq<Act>, w': World)
    requires Reaches(member, ws, acts, w) && i in w.procs && w.procs[i].down
    requires |i| == 1
    requires w.record.Some? && w.record.value.instance == i && w.record.value.sequence <= w.procs[i].sequence
    ensures Reaches(member, ws', acts', w') && w.sent <= w'.sent
    ensures AllShort(member, w.sent) ==> AllShort(member, w'.sent)
    ensures w'.procs == w.procs[i := BuiltBy(w.procs[i])]
    ensures DownAs(w'.record, w.record.value)
  {
    var hb := Said(member, ADDRESS, i, BuiltBy(w.procs[i]), 0, 0);
    var w1 := Do(member, w, Send(i, ADDRESS, 0, 0));
    ws', acts' := Extend(member, ws, acts, w, Send(i, ADDRESS, 0, 0));
    w' := Do(member, w1, Deliver(hb, now));
    ws', acts' := Extend(member, ws', acts', w1, Deliver(hb, now));
  }

  /**
   * One retired instance is remembered, and no more: after three processes, all of which have shut down and the last of
   * which the record knows to, a late heartbeat of the first makes the member live.
   */
  lemma ThirdProcessRevives(member: string) returns (ws: seq<World>, acts: seq<Act>)
    requires HeartbeatCheck.IsMember(member)
    ensures IsRun(member, ws, acts) && |acts| > 0
    ensures forall h | h in ws[|acts|].sent :: WellFormed(h)
    ensures forall i | i in ws[|acts|].procs :: ws[|acts|].procs[i].down
    ensures ws[|acts| - 1].record.Some? && ws[|acts| - 1].record.value.shuttingDown
    ensures ws[|acts|].record.Some? && !ws[|acts|].record.value.shuttingDown
  {
    var w3, w4;
    ws, acts, w3 := ThreeLive(member);
    ws, acts, w4 := SaysSo(member, ws, acts, w3, "c", 3);
    assert Late(member, "a") in w4.sent;
    ws, acts := Extend(member, ws, acts, w4, Deliver(Late(member, "a"), 4));
    forall h | h in w4.sent ensures WellFormed(h) {
      ShortAreTaken(member, w4.sent, h);
    }
  }

  lemma ThreeLive(member: string) returns (ws: seq<World>, acts: seq<Act>, w: World)
    ensures Reaches(member, ws, acts, w) && AllShort(member, w.sent) && Late(member, "a") in w.sent
    ensures w.procs == map["a" := Process(2, true), "b" := Process(2, true), "c" := Process(2, true)]
    ensures w.record == Some(Member(CapacityMilli(0), 2, false, "c", "b", 1))
  {
    var w0 := World(map[], {}, None);
    ws, acts := [w0], [];
    ws, acts := Lives(member, ws, acts, w0, "a", 0);
    var w1 := Lived(member, w0, "a", 0);
    ws, acts := Lives(member, ws, acts, w1, "b", 1);
    var w2 := Lived(member, w1, "b", 1);
    ws, acts := Lives(member, ws, acts, w2, "c", 2);
    w := Lived(member, w2, "c", 2);
  }

  // ---- any order, any number of times ----

  function ReceiveAll(r: Option<Member>, hs: seq<Heartbeat>, now: nat): Option<Member> {
    if hs == [] then r else Received(ReceiveAll(r, hs[..|hs| - 1], now), hs[|hs| - 1], now)
  }

  ghost predicate Made(m: Member, h: Heartbeat) {
    h.sequence == m.sequence && m.shuttingDown == h.shuttingDown && m.capacity == CapacityMilli(h.capacity)
  }

  /** The newest of the numbers heard. */
  function Newest(sequence: nat, hs: seq<Heartbeat>): nat {
    if hs == [] then sequence else
      var n := Newest(sequence, hs[..|hs| - 1]);
      if hs[|hs| - 1].sequence > n then hs[|hs| - 1].sequence else n
  }

  /**
   * Whatever the order and however often one process's heartbeats arrive, the record ends with the newest of them, and
   * with what that one said; so the outcome depends on which arrive alone.
   */
  lemma {:induction false} NewestWins(m: Member, hs: seq<Heartbeat>, now: nat)
    requires forall h | h in hs :: h.instance == m.instance
    ensures var r := ReceiveAll(Some(m), hs, now);
            && r.Some? && r.value.instance == m.instance && r.value.retired == m.retired
            && r.value.sequence == Newest(m.sequence, hs)
            && (r.value == m || exists h :: h in hs && Made(r.value, h))
    decreases |hs|
  {
    if hs != [] {
      var rest, h := hs[..|hs| - 1], hs[|hs| - 1];
      NewestWins(m, rest, now);
      var r := ReceiveAll(Some(m), rest, now);
      assert h in hs && forall g | g in rest :: g in hs;
      if h.sequence > r.value.sequence {
        assert Received(r, h, now).value.sequence == h.sequence;
      }
    }
  }

  lemma {:induction false} NewestIsMost(sequence: nat, hs: seq<Heartbeat>)
    ensures Newest(sequence, hs) >= sequence && forall h | h in hs :: h.sequence <= Newest(sequence, hs)
    ensures Newest(sequence, hs) == sequence || exists h :: h in hs && h.sequence == Newest(sequence, hs)
  {
    if hs != [] {
      NewestIsMost(sequence, hs[..|hs| - 1]);
      assert hs == hs[..|hs| - 1] + [hs[|hs| - 1]];
    }
  }

  /** Two deliveries of the same heartbeats, sent by one process, leave records that agree. */
  lemma OrderDoesNotMatter(m: Member, hs: seq<Heartbeat>, gs: seq<Heartbeat>, now: nat)
    requires forall h | h in hs :: h.instance == m.instance
    requires InOrder(set h | h in hs) && forall h :: h in hs <==> h in gs
    requires forall h | h in hs && h.sequence == m.sequence ::
      h.shuttingDown == m.shuttingDown && CapacityMilli(h.capacity) == m.capacity
    ensures var r, s := ReceiveAll(Some(m), hs, now), ReceiveAll(Some(m), gs, now);
            && r.Some? && s.Some? && r.value.sequence == s.value.sequence
            && r.value.shuttingDown == s.value.shuttingDown && r.value.capacity == s.value.capacity
  {
    NewestWins(m, hs, now);
    NewestWins(m, gs, now);
    NewestIsMost(m.sequence, hs);
    NewestIsMost(m.sequence, gs);
  }
}
